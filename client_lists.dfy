/** The three list updaters every collection of the client-side data store uses, over any
    record with a string id: add puts the new record first (`[x, ...prev]`), update merges
    into the records with the id (`prev.map(r => r.id === id ? {...r, ...updates} : r)`),
    and delete keeps the others (`prev.filter(r => r.id !== id)`). */
module ClientLists {
  import Sorting

  /** `[x, ...prev]`. */
  function Prepend<T>(x: T, s: seq<T>): (r: seq<T>)
    ensures |r| == |s| + 1 && r[0] == x
    ensures forall i :: 0 <= i < |s| ==> r[i + 1] == s[i]
  {
    [x] + s
  }

  /** `prev.map(r => key(r) === id ? merge(r) : r)`. */
  function MapWhere<T>(s: seq<T>, key: T -> string, id: string, merge: T -> T): (r: seq<T>)
    ensures |r| == |s|
    ensures forall i :: 0 <= i < |s| && key(s[i]) == id ==> r[i] == merge(s[i])
    ensures forall i :: 0 <= i < |s| && key(s[i]) != id ==> r[i] == s[i]
    decreases |s|
  {
    if s == [] then []
    else [if key(s[0]) == id then merge(s[0]) else s[0]] + MapWhere(s[1..], key, id, merge)
  }

  /** `prev.filter(r => key(r) !== id)`. */
  function RemoveWhere<T(!new)>(s: seq<T>, key: T -> string, id: string): (r: seq<T>)
    ensures forall x :: x in r <==> x in s && key(x) != id
    ensures forall x :: multiset(r)[x] == if key(x) != id then multiset(s)[x] else 0
    ensures |r| <= |s|
  {
    var other := (x: T) => key(x) != id;
    Sorting.FilterCounts(s, other);
    Sorting.Filter(s, other)
  }

  /** No record has the id. */
  predicate Absent<T>(s: seq<T>, key: T -> string, id: string) {
    forall i :: 0 <= i < |s| ==> key(s[i]) != id
  }

  /** An update of an id no record has changes nothing. */
  lemma {:induction false} MapWhereAbsent<T>(s: seq<T>, key: T -> string, id: string, merge: T -> T)
    requires Absent(s, key, id)
    ensures MapWhere(s, key, id, merge) == s
    decreases |s|
  {
    if s != [] {
      MapWhereAbsent(s[1..], key, id, merge);
    }
  }

  /** A merge that keeps the id keeps every id, so the same records stay addressable. */
  lemma MapWhereKeys<T>(s: seq<T>, key: T -> string, id: string, merge: T -> T)
    requires forall x :: key(merge(x)) == key(x)
    ensures var r := MapWhere(s, key, id, merge);
      forall i :: 0 <= i < |s| ==> key(r[i]) == key(s[i])
  {
  }

  /** A delete of an id no record has changes nothing. */
  lemma {:induction false} RemoveWhereAbsent<T(!new)>(s: seq<T>, key: T -> string, id: string)
    requires Absent(s, key, id)
    ensures RemoveWhere(s, key, id) == s
    decreases |s|
  {
    if s != [] {
      assert s == [s[0]] + s[1..];
      RemoveWhereAbsent(s[1..], key, id);
    }
  }

  /** Deleting the record just added with a fresh id gives back the list before the add. */
  lemma AddThenRemove<T(!new)>(x: T, s: seq<T>, key: T -> string)
    requires Absent(s, key, key(x))
    ensures RemoveWhere(Prepend(x, s), key, key(x)) == s
  {
    assert Prepend(x, s) == [x] + s;
    assert ([x] + s)[1..] == s;
    RemoveWhereAbsent(s, key, key(x));
  }

  /** Deleting twice is deleting once. */
  lemma RemoveWhereIdempotent<T(!new)>(s: seq<T>, key: T -> string, id: string)
    ensures RemoveWhere(RemoveWhere(s, key, id), key, id) == RemoveWhere(s, key, id)
  {
    var r := RemoveWhere(s, key, id);
    forall i | 0 <= i < |r| ensures key(r[i]) != id {
      assert r[i] in r;
    }
    RemoveWhereAbsent(r, key, id);
  }

  /** The delete keeps the other records in their order: it is the filter of the records
      before the first one, then of the rest. */
  lemma RemoveWhereSplit<T(!new)>(s: seq<T>, t: seq<T>, key: T -> string, id: string)
    ensures RemoveWhere(s + t, key, id) == RemoveWhere(s, key, id) + RemoveWhere(t, key, id)
  {
    Sorting.FilterAppend(s, t, (x: T) => key(x) != id);
  }
}
