/** The sum of a finite map's values, independent of the order in which its keys are visited. */
module Sums {

  ghost function Sum<K>(m: map<K, nat>): nat
    decreases |m|
  {
    if m == map[] then 0
    else
      var k :| k in m;
      m[k] + Sum(m - {k})
  }

  lemma {:induction false} SumRemove<K>(m: map<K, nat>, k: K)
    requires k in m
    ensures Sum(m) == m[k] + Sum(m - {k})
    decreases |m|
  {
    var l :| l in m && Sum(m) == m[l] + Sum(m - {l});
    if l != k {
      SumRemove(m - {l}, k);
      SumRemove(m - {k}, l);
      assert m - {l} - {k} == m - {k} - {l};
    }
  }

  lemma SumInsert<K>(m: map<K, nat>, k: K, n: nat)
    requires k !in m
    ensures Sum(m[k := n]) == n + Sum(m)
  {
    SumRemove(m[k := n], k);
    assert m[k := n] - {k} == m;
  }

  lemma {:induction false} SumOfPart<K>(part: map<K, nat>, whole: map<K, nat>)
    requires part.Keys <= whole.Keys && forall k | k in part :: part[k] == whole[k]
    ensures Sum(part) <= Sum(whole)
    decreases |part|
  {
    if part != map[] {
      var k :| k in part;
      SumRemove(part, k);
      SumRemove(whole, k);
      SumOfPart(part - {k}, whole - {k});
    }
  }

  /** Renaming keys one-to-one keeps the sum. */
  lemma {:induction false} SumRenamed<J, K>(m: map<J, nat>, n: map<K, nat>, name: map<J, K>)
    requires name.Keys == m.Keys && name.Values == n.Keys
    requires forall i, j | i in m && j in m :: name[i] == name[j] ==> i == j
    requires forall j | j in m :: n[name[j]] == m[j]
    ensures Sum(m) == Sum(n)
    decreases |m|
  {
    if m == map[] {
      assert name.Values == {} && n == map[];
    } else {
      var j :| j in m;
      SumRemove(m, j);
      SumRemove(n, name[j]);
      var rest := name - {j};
      assert rest.Values == n.Keys - {name[j]} by {
        forall k | k in n.Keys - {name[j]} ensures k in rest.Values {
          var i :| i in name && name[i] == k;
          assert i in rest && rest[i] == k;
        }
      }
      SumRenamed(m - {j}, n - {name[j]}, rest);
    }
  }

  lemma SubsetCardinality<T>(a: set<T>, b: set<T>)
    requires a <= b
    ensures |a| <= |b|
  {
    assert b == a + (b - a);
  }

  /** The loop that adds the values up in an arbitrary order. */
  method Total<K(==)>(m: map<K, nat>) returns (total: nat)
    ensures total == Sum(m)
  {
    total := 0;
    var rest := m;
    while rest != map[]
      invariant total + Sum(rest) == Sum(m)
      decreases |rest|
    {
      var k :| k in rest;
      SumRemove(rest, k);
      total := total + rest[k];
      rest := rest - {k};
    }
  }
}
