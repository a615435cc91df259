/**
 * Id-keyed lists. Every list the inventory keeps (items, vaults, external
 * storages, custom pack and storage types) is edited the same three ways:
 * `find(x => x.id === id)`, `map(x => x.id === id ? {...x, ...updates} : x)`
 * and `filter(x => x.id !== id)`. They are defined once here, over a key function.
 */
module IdLists {
  import opened Wrappers

  /** No two entries share a key. */
  predicate UniqueKeys<T(==)>(xs: seq<T>, key: T -> string) {
    forall i, j :: 0 <= i < j < |xs| ==> key(xs[i]) != key(xs[j])
  }

  /** Some entry has the key `id`. */
  predicate HasKey<T(==)>(xs: seq<T>, key: T -> string, id: string) {
    exists k :: 0 <= k < |xs| && key(xs[k]) == id
  }

  /** `find`: the first entry whose key is `id`, if any. */
  function Find<T(==)>(xs: seq<T>, key: T -> string, id: string): (r: Option<T>)
    ensures r.None? <==> !HasKey(xs, key, id)
    ensures r.Some? ==> exists k :: 0 <= k < |xs| && xs[k] == r.value && key(xs[k]) == id &&
                                     forall j :: 0 <= j < k ==> key(xs[j]) != id
  {
    if xs == [] then None
    else if key(xs[0]) == id then assert xs[0] == xs[0]; Some(xs[0])
    else
      var r := Find(xs[1..], key, id);
      assert HasKey(xs[1..], key, id) ==> HasKey(xs, key, id) by {
        if HasKey(xs[1..], key, id) {
          var k :| 0 <= k < |xs[1..]| && key(xs[1..][k]) == id;
          assert key(xs[k + 1]) == id;
        }
      }
      assert HasKey(xs, key, id) ==> HasKey(xs[1..], key, id) by {
        if HasKey(xs, key, id) {
          var k :| 0 <= k < |xs| && key(xs[k]) == id;
          assert k != 0 && key(xs[1..][k - 1]) == id;
        }
      }
      if r.Some? then
        var k :| 0 <= k < |xs[1..]| && xs[1..][k] == r.value && key(xs[1..][k]) == id &&
                 forall j :: 0 <= j < k ==> key(xs[1..][j]) != id;
        assert xs[k + 1] == r.value && forall j :: 0 <= j < k + 1 ==> key(xs[j]) != id by {
          forall j | 0 <= j < k + 1 ensures key(xs[j]) != id {
            if j > 0 { assert xs[j] == xs[1..][j - 1]; }
          }
        }
        r
      else
        r
  }

  /** The first match of a unique key is the entry at its index. */
  lemma FindUnique<T>(xs: seq<T>, key: T -> string, k: int)
    requires UniqueKeys(xs, key) && 0 <= k < |xs|
    ensures Find(xs, key, key(xs[k])) == Some(xs[k])
  {
    var r := Find(xs, key, key(xs[k]));
    var m :| 0 <= m < |xs| && xs[m] == r.value && key(xs[m]) == key(xs[k]) &&
             forall j :: 0 <= j < m ==> key(xs[j]) != key(xs[k]);
    assert m == k;
  }

  /** A key present in the front part is found there, whatever follows. */
  lemma {:induction false} FindAppendLeft<T>(a: seq<T>, b: seq<T>, key: T -> string, id: string)
    requires HasKey(a, key, id)
    ensures Find(a + b, key, id) == Find(a, key, id)
    decreases |a|
  {
    assert (a + b)[0] == a[0];
    if key(a[0]) != id {
      var k :| 0 <= k < |a| && key(a[k]) == id;
      assert key(a[1..][k - 1]) == id;
      assert (a + b)[1..] == a[1..] + b;
      FindAppendLeft(a[1..], b, key, id);
    }
  }

  /** `map(x => key(x) === id ? f(x) : x)`: every entry with the key is rewritten, the others kept. */
  function Update<T(==)>(xs: seq<T>, key: T -> string, id: string, f: T -> T): (r: seq<T>)
    ensures |r| == |xs|
    ensures forall k :: 0 <= k < |xs| && key(xs[k]) == id ==> r[k] == f(xs[k])
    ensures forall k :: 0 <= k < |xs| && key(xs[k]) != id ==> r[k] == xs[k]
  {
    if xs == [] then []
    else [if key(xs[0]) == id then f(xs[0]) else xs[0]] + Update(xs[1..], key, id, f)
  }

  /** After a key-preserving update, looking the key up finds the rewritten first match. */
  lemma {:induction false} FindUpdate<T>(xs: seq<T>, key: T -> string, id: string, f: T -> T)
    requires forall x :: key(f(x)) == key(x)
    ensures Find(Update(xs, key, id, f), key, id) ==
            if HasKey(xs, key, id) then Some(f(Find(xs, key, id).value)) else None
    decreases |xs|
  {
    if xs != [] {
      var r := Update(xs, key, id, f);
      if key(xs[0]) == id {
        assert r[0] == f(xs[0]) && key(r[0]) == id;
        assert HasKey(xs, key, id);
      } else {
        assert r[0] == xs[0];
        assert r[1..] == Update(xs[1..], key, id, f);
        FindUpdate(xs[1..], key, id, f);
        HasKeyTail(xs, key, id);
      }
    }
  }

  /** A key the head lacks is present exactly when the tail has it. */
  lemma HasKeyTail<T>(xs: seq<T>, key: T -> string, id: string)
    requires xs != [] && key(xs[0]) != id
    ensures HasKey(xs, key, id) <==> HasKey(xs[1..], key, id)
  {
    if HasKey(xs, key, id) {
      var k :| 0 <= k < |xs| && key(xs[k]) == id;
      assert key(xs[1..][k - 1]) == id;
    }
    if HasKey(xs[1..], key, id) {
      var k :| 0 <= k < |xs[1..]| && key(xs[1..][k]) == id;
      assert key(xs[k + 1]) == id;
    }
  }

  /** `filter(x => key(x) !== id)`: the entries without the key, in their order. */
  function Remove<T(==)>(xs: seq<T>, key: T -> string, id: string): (r: seq<T>)
    ensures |r| <= |xs|
    ensures !HasKey(r, key, id)
    ensures forall x :: x in r ==> x in xs
    ensures forall k :: 0 <= k < |xs| && key(xs[k]) != id ==> xs[k] in r
  {
    if xs == [] then []
    else
      var rest := Remove(xs[1..], key, id);
      assert forall k :: 1 <= k < |xs| ==> xs[k] == xs[1..][k - 1];
      if key(xs[0]) == id then rest else [xs[0]] + rest
  }

  /** Removing distributes over concatenation, so the kept entries stay in their order. */
  lemma {:induction false} RemoveAppend<T>(a: seq<T>, b: seq<T>, key: T -> string, id: string)
    ensures Remove(a + b, key, id) == Remove(a, key, id) + Remove(b, key, id)
    decreases |a|
  {
    if a != [] {
      assert (a + b)[1..] == a[1..] + b;
      RemoveAppend(a[1..], b, key, id);
    } else {
      assert a + b == b;
    }
  }

  /** Removing a key nobody has changes nothing. */
  lemma {:induction false} RemoveAbsent<T>(xs: seq<T>, key: T -> string, id: string)
    requires !HasKey(xs, key, id)
    ensures Remove(xs, key, id) == xs
    decreases |xs|
  {
    if xs != [] {
      assert key(xs[0]) != id;
      forall k | 0 <= k < |xs[1..]| ensures key(xs[1..][k]) != id {
        assert xs[1..][k] == xs[k + 1];
      }
      RemoveAbsent(xs[1..], key, id);
    }
  }

  /** With unique keys, removing the key of entry `k` removes exactly that entry. */
  lemma RemoveUnique<T>(xs: seq<T>, key: T -> string, k: int)
    requires UniqueKeys(xs, key) && 0 <= k < |xs|
    ensures Remove(xs, key, key(xs[k])) == xs[..k] + xs[k + 1..]
  {
    var id := key(xs[k]);
    var before, after := xs[..k], xs[k + 1..];
    SplitAt(xs, k);
    KeyOnlyAt(xs, key, k);
    RemoveAppend(before, [xs[k]] + after, key, id);
    RemoveAppend([xs[k]], after, key, id);
    RemoveAbsent(before, key, id);
    RemoveAbsent(after, key, id);
    calc {
      Remove(xs, key, id);
      Remove(before, key, id) + Remove([xs[k]] + after, key, id);
      before + (Remove([xs[k]], key, id) + Remove(after, key, id));
      { assert Remove([xs[k]], key, id) == []; }
      before + after;
    }
  }

  /** A list is the part before entry `k`, that entry, and the part after it. */
  lemma SplitAt<T>(xs: seq<T>, k: int)
    requires 0 <= k < |xs|
    ensures xs == xs[..k] + ([xs[k]] + xs[k + 1..])
  {
    assert xs[k..] == [xs[k]] + xs[k + 1..];
    assert xs == xs[..k] + xs[k..];
  }

  /** With unique keys, the key of entry `k` occurs neither before nor after it. */
  lemma KeyOnlyAt<T>(xs: seq<T>, key: T -> string, k: int)
    requires UniqueKeys(xs, key) && 0 <= k < |xs|
    ensures !HasKey(xs[..k], key, key(xs[k])) && !HasKey(xs[k + 1..], key, key(xs[k]))
  {
    forall j | 0 <= j < k ensures key(xs[..k][j]) != key(xs[k]) {
      assert xs[..k][j] == xs[j];
    }
    var after := xs[k + 1..];
    forall j | 0 <= j < |after| ensures key(after[j]) != key(xs[k]) {
      assert after[j] == xs[k + 1 + j];
    }
  }

  /** Appending an entry with a fresh key and then deleting that key gives back the list. */
  lemma AppendThenRemove<T>(xs: seq<T>, x: T, key: T -> string)
    requires !HasKey(xs, key, key(x))
    ensures Remove(xs + [x], key, key(x)) == xs
  {
    RemoveAppend(xs, [x], key, key(x));
    RemoveAbsent(xs, key, key(x));
    assert Remove([x], key, key(x)) == [];
  }

  /** An entry appended under a fresh key is the one found under that key. */
  lemma FindLast<T>(xs: seq<T>, x: T, key: T -> string)
    requires !HasKey(xs, key, key(x))
    ensures Find(xs + [x], key, key(x)) == Some(x)
  {
    var r := Find(xs + [x], key, key(x));
    assert key((xs + [x])[|xs|]) == key(x);
    forall k | 0 <= k < |xs| ensures key((xs + [x])[k]) != key(x) {
      assert (xs + [x])[k] == xs[k];
    }
  }

  /** Appending an entry with a fresh key keeps keys unique. */
  lemma AppendFreshUnique<T>(xs: seq<T>, x: T, key: T -> string)
    requires UniqueKeys(xs, key) && !HasKey(xs, key, key(x))
    ensures UniqueKeys(xs + [x], key)
  {
    forall i, j | 0 <= i < j < |xs + [x]| ensures key((xs + [x])[i]) != key((xs + [x])[j]) {
      if j == |xs| {
        assert key(xs[i]) != key(x);
      }
    }
  }

  /** Removing keeps keys unique. */
  lemma {:induction false} RemoveKeepsUnique<T>(xs: seq<T>, key: T -> string, id: string)
    requires UniqueKeys(xs, key)
    ensures UniqueKeys(Remove(xs, key, id), key)
    decreases |xs|
  {
    if xs != [] {
      assert UniqueKeys(xs[1..], key) by {
        forall i, j | 0 <= i < j < |xs[1..]| ensures key(xs[1..][i]) != key(xs[1..][j]) {
          assert xs[1..][i] == xs[i + 1] && xs[1..][j] == xs[j + 1];
        }
      }
      RemoveKeepsUnique(xs[1..], key, id);
      var rest := Remove(xs[1..], key, id);
      if key(xs[0]) != id {
        forall i, j | 0 <= i < j < |[xs[0]] + rest| ensures key(([xs[0]] + rest)[i]) != key(([xs[0]] + rest)[j]) {
          if i == 0 {
            var y := rest[j - 1];
            assert y in xs[1..];
            var m :| 0 <= m < |xs[1..]| && xs[1..][m] == y;
            assert key(xs[0]) != key(xs[m + 1]);
          }
        }
      }
    }
  }

  /** Removing twice is removing once. */
  lemma RemoveIdempotent<T>(xs: seq<T>, key: T -> string, id: string)
    ensures Remove(Remove(xs, key, id), key, id) == Remove(xs, key, id)
  {
    RemoveAbsent(Remove(xs, key, id), key, id);
  }

  /** With unique keys, updating by the key of entry `k` rewrites that entry alone. */
  lemma UpdateUnique<T>(xs: seq<T>, key: T -> string, k: int, f: T -> T)
    requires UniqueKeys(xs, key) && 0 <= k < |xs|
    ensures Update(xs, key, key(xs[k]), f) == xs[k := f(xs[k])]
  {
    var r := Update(xs, key, key(xs[k]), f);
    forall j | 0 <= j < |xs| ensures r[j] == xs[k := f(xs[k])][j] {
      if j != k {
        assert key(xs[j]) != key(xs[k]);
      }
    }
  }

  /** Rewriting with a key-preserving function keeps every key in place. */
  lemma UpdateKeepsKeys<T>(xs: seq<T>, key: T -> string, id: string, f: T -> T)
    requires forall x :: key(f(x)) == key(x)
    ensures forall k :: 0 <= k < |xs| ==> key(Update(xs, key, id, f)[k]) == key(xs[k])
  {
  }

  /** Rewriting a key nobody has changes nothing. */
  lemma UpdateAbsent<T>(xs: seq<T>, key: T -> string, id: string, f: T -> T)
    requires !HasKey(xs, key, id)
    ensures Update(xs, key, id, f) == xs
  {
  }
}
