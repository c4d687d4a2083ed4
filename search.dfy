/**
 * The two orders in which a backtracking regular-expression engine tries the
 * candidates of a quantifier: a lazy quantifier tries the shortest first, a
 * greedy one the longest first.  Both stop at the first candidate for which
 * the rest of the pattern succeeds.
 */
module Search {
  import opened Wrappers

  /** The least i in [lo, hi) with P(i): lazy order. */
  function FirstUp(lo: nat, hi: nat, P: nat -> bool): (r: Option<nat>)
    ensures r.Some? ==> lo <= r.value < hi && P(r.value)
    ensures r.Some? ==> forall i :: lo <= i < r.value ==> !P(i)
    ensures r.None? ==> forall i :: lo <= i < hi ==> !P(i)
    decreases hi - lo
  {
    if lo >= hi then None
    else if P(lo) then Some(lo)
    else FirstUp(lo + 1, hi, P)
  }

  /** The greatest i in [lo, hi) with P(i): greedy order. */
  function LastDown(lo: nat, hi: nat, P: nat -> bool): (r: Option<nat>)
    ensures r.Some? ==> lo <= r.value < hi && P(r.value)
    ensures r.Some? ==> forall i :: r.value < i < hi ==> !P(i)
    ensures r.None? ==> forall i :: lo <= i < hi ==> !P(i)
    decreases hi - lo
  {
    if lo >= hi then None
    else if P(hi - 1) then Some(hi - 1)
    else LastDown(lo, hi - 1, P)
  }

  /** FirstUp finds c when c succeeds and nothing before it does. */
  lemma FirstUpAt(lo: nat, hi: nat, P: nat -> bool, c: nat)
    requires lo <= c < hi && P(c)
    requires forall i :: lo <= i < c ==> !P(i)
    ensures FirstUp(lo, hi, P) == Some(c)
  {
  }

  /** LastDown finds c when c succeeds and nothing after it does. */
  lemma LastDownAt(lo: nat, hi: nat, P: nat -> bool, c: nat)
    requires lo <= c < hi && P(c)
    requires forall i :: c < i < hi ==> !P(i)
    ensures LastDown(lo, hi, P) == Some(c)
  {
  }
}
