/** Sums over the values of a finite map, for budgets that many holders share. */
module Sums {
  ghost function Sum(parts: map<nat, nat>): nat {
    if parts == map[] then 0
    else
      var k :| k in parts;
      parts[k] + Sum(parts - {k})
  }

  /** Any part can be split off. */
  lemma {:induction false} SumWith(parts: map<nat, nat>, k: nat)
    requires k in parts
    ensures Sum(parts) == parts[k] + Sum(parts - {k})
  {
    var j :| j in parts && Sum(parts) == parts[j] + Sum(parts - {j});
    if j != k {
      SumWith(parts - {j}, k);
      SumWith(parts - {k}, j);
      assert parts - {j} - {k} == parts - {k} - {j};
    }
  }

  /** Replacing one part. */
  lemma SumUpdate(parts: map<nat, nat>, k: nat, value: nat)
    ensures Sum(parts[k := value]) == Sum(parts) - (if k in parts then parts[k] else 0) + value
  {
    SumWith(parts[k := value], k);
    if k in parts {
      SumWith(parts, k);
      assert parts[k := value] - {k} == parts - {k};
    } else {
      assert parts[k := value] - {k} == parts;
    }
  }

  /** With each part bounded, so is the sum, by the number of parts that are not zero. */
  lemma {:induction false} SumBound(parts: map<nat, nat>, live: set<nat>, bound: nat)
    requires forall k :: k in parts ==> parts[k] <= if k in live then bound else 0
    ensures Sum(parts) <= |live| * bound
  {
    if parts != map[] {
      var k :| k in parts;
      SumWith(parts, k);
      if k in live {
        SumBound(parts - {k}, live - {k}, bound);
        OneLess(live, k, bound);
      } else {
        SumBound(parts - {k}, live, bound);
      }
    }
  }

  lemma OneLess(live: set<nat>, k: nat, bound: nat)
    requires k in live
    ensures |live - {k}| * bound + bound == |live| * bound
  {
  }
}
