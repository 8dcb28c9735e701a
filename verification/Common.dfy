/** What several components share. */
module Common {

  datatype Option<T> = None | Some(value: T)

  lemma SubsetSize<T>(a: set<T>, b: set<T>)
    requires a <= b
    ensures |a| <= |b|
  {
    assert b == a + (b - a);
  }

  /** Sets that differ at most in t differ in size by what t contributes. */
  lemma SizeMoves<T>(a: set<T>, b: set<T>, t: T)
    requires forall q | q != t :: q in a <==> q in b
    ensures |b| == |a| + (if t in b then 1 else 0) - (if t in a then 1 else 0)
  {
    assert a - {t} == b - {t};
    assert |a - {t}| == |a| - (if t in a then 1 else 0);
    assert |b - {t}| == |b| - (if t in b then 1 else 0);
  }

  function Interval(lo: int, n: nat): (r: set<int>)
    ensures forall u :: u in r <==> lo <= u < lo + n
    ensures |r| == n
  {
    if n == 0 then {} else Interval(lo, n - 1) + {lo + n - 1}
  }

  lemma FreshKey<V>(m: map<nat, V>) returns (j: nat)
    ensures j !in m
  {
    var all := Interval(0, |m| + 1);
    if all <= m.Keys {
      SubsetSize(all, m.Keys);
      assert false;
    }
    var i :| i in all && i !in m.Keys;
    j := i;
  }
}
