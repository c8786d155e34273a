/** Counting dictionaries (`counts[key] = (counts[key] || 0) + 1`) and the sum of their values. */
module Tally {

  /** `(m[k] || 0)`: the count stored under `k`, or zero when the key is missing. */
  function CountOf<K>(m: map<K, nat>, k: K): nat {
    if k in m then m[k] else 0
  }

  /** `m[k] = (m[k] || 0) + 1`. */
  function Bump<K>(m: map<K, nat>, k: K): (r: map<K, nat>)
    ensures r.Keys == m.Keys + {k}
    ensures CountOf(r, k) == CountOf(m, k) + 1
    ensures forall j :: j in m && j != k ==> r[j] == m[j]
  {
    m[k := CountOf(m, k) + 1]
  }

  /** The sum of all the values of `m`. */
  ghost function Total<K>(m: map<K, nat>): nat
    decreases |m|
  {
    if |m| == 0 then 0
    else
      var k := Pick(m);
      m[k] + Total(m - {k})
  }

  ghost function Pick<K>(m: map<K, nat>): (k: K)
    requires |m| != 0
    ensures k in m
  {
    var k :| k in m.Keys; k
  }

  /** The sum does not depend on the key `Total` happens to take first. */
  lemma {:induction false} TotalRemove<K>(m: map<K, nat>, k: K)
    requires k in m
    ensures Total(m) == m[k] + Total(m - {k})
    decreases |m|
  {
    var j := Pick(m);
    if j != k {
      assert |m - {j}| == |m| - 1;
      assert |m - {k}| == |m| - 1;
      TotalRemove(m - {j}, k);
      TotalRemove(m - {k}, j);
      assert m - {j} - {k} == m - {k} - {j};
    }
  }

  /** One `Bump` adds exactly one to the sum of the values. */
  lemma BumpTotal<K>(m: map<K, nat>, k: K)
    ensures Total(Bump(m, k)) == Total(m) + 1
  {
    var r := Bump(m, k);
    TotalRemove(r, k);
    RestAfterBump(m, k);
    if k in m {
      TotalRemove(m, k);
    } else {
      assert m - {k} == m;
    }
  }

  lemma RestAfterBump<K>(m: map<K, nat>, k: K)
    ensures Bump(m, k) - {k} == m - {k}
  {
    var a, b := Bump(m, k) - {k}, m - {k};
    assert a.Keys == b.Keys;
    forall j | j in a ensures a[j] == b[j] {
    }
  }
}
