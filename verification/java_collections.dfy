/**
 * The parts of java.util that the game engine relies on: List.indexOf,
 * List.remove(Object) and a run of HashMap.put calls.
 */
module JavaCollections {

  /** List.indexOf for an element that is present: the first position holding it. */
  function IndexOf<T(==)>(xs: seq<T>, x: T): (i: nat)
    requires x in xs
    ensures i < |xs| && xs[i] == x && x !in xs[..i]
  {
    if xs[0] == x then 0 else 1 + IndexOf(xs[1..], x)
  }

  /** List.remove(Object): drops the first element equal to `x`; nothing happens when there is none. */
  function Remove<T(==)>(xs: seq<T>, x: T): seq<T>
  {
    if x in xs then xs[..IndexOf(xs, x)] + xs[IndexOf(xs, x) + 1..] else xs
  }

  /** Removing takes away exactly one occurrence of `x`, if there is one, and nothing else. */
  lemma {:induction false} RemoveMultiset<T>(xs: seq<T>, x: T)
    ensures multiset(Remove(xs, x)) == multiset(xs) - multiset{x}
  {
    if x in xs {
      var i := IndexOf(xs, x);
      var a, b := xs[..i], xs[i + 1..];
      assert xs == a + [x] + b;
      assert Remove(xs, x) == a + b;
      assert multiset(xs) == multiset(a) + multiset{x} + multiset(b);
    } else {
      assert multiset(xs)[x] == 0;
    }
  }

  /** The map left by calling HashMap.put for each entry in order, starting from an empty map. */
  function PutAll<K(==), V>(entries: seq<(K, V)>): map<K, V>
  {
    if entries == [] then map[]
    else
      var last := entries[|entries| - 1];
      PutAll(entries[..|entries| - 1])[last.0 := last.1]
  }

  /** The map has exactly the keys of the entries. */
  lemma {:induction false} PutAllKeys<K, V>(entries: seq<(K, V)>)
    ensures PutAll(entries).Keys == set i | 0 <= i < |entries| :: entries[i].0
  {
    if entries != [] {
      var n := |entries| - 1;
      var prefix := entries[..n];
      PutAllKeys(prefix);
      assert forall i :: 0 <= i < n ==> prefix[i] == entries[i];
      assert (set i | 0 <= i < |entries| :: entries[i].0) == (set i | 0 <= i < n :: prefix[i].0) + {entries[n].0};
    }
  }

  /** For a key listed more than once, the value of its last entry wins. */
  lemma {:induction false} PutAllLastWins<K, V>(entries: seq<(K, V)>, i: nat)
    requires i < |entries|
    requires forall j :: i < j < |entries| ==> entries[j].0 != entries[i].0
    ensures entries[i].0 in PutAll(entries) && PutAll(entries)[entries[i].0] == entries[i].1
  {
    var n := |entries| - 1;
    if i < n {
      var prefix := entries[..n];
      assert prefix[i] == entries[i];
      assert forall j :: i < j < n ==> prefix[j] == entries[j];
      PutAllLastWins(prefix, i);
    }
  }

  /** Every value in the map comes from an entry with that key. */
  lemma {:induction false} PutAllFrom<K, V>(entries: seq<(K, V)>)
    ensures forall k :: k in PutAll(entries) ==> (k, PutAll(entries)[k]) in entries
  {
    if entries != [] {
      var n := |entries| - 1;
      PutAllFrom(entries[..n]);
      assert forall e :: e in entries[..n] ==> e in entries;
    }
  }

  /** Putting one more entry into the map of a prefix gives the map of the longer prefix. */
  lemma {:induction false} PutAllStep<K, V>(entries: seq<(K, V)>, n: nat)
    requires n < |entries|
    ensures PutAll(entries[..n + 1]) == PutAll(entries[..n])[entries[n].0 := entries[n].1]
  {
    assert entries[..n + 1][..n] == entries[..n];
  }
}
