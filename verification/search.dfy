/** The two ways a backtracking regular-expression engine settles on one
    candidate among positions: the first position that succeeds (the start
    positions of `re.search`) and the last one that succeeds (a greedy
    repetition giving back one character at a time). */
module Search {
  import opened Wrappers

  /** Tries `f(lo)`, `f(lo + 1)`, …, `f(hi)` and returns the first success. */
  function FirstMatch<T>(f: nat -> Option<T>, lo: nat, hi: nat): Option<T>
    decreases hi - lo
  {
    match f(lo)
    case Some(v) => Some(v)
    case None => if lo >= hi then None else FirstMatch(f, lo + 1, hi)
  }

  /** Tries `f(lo + len)`, `f(lo + len - 1)`, …, `f(lo)` and returns the first
      success, that is, the success at the largest position. */
  function LastMatch<T>(f: nat -> Option<T>, lo: nat, len: nat): Option<T> {
    if len == 0 then f(lo)
    else
      match f(lo + len)
      case Some(v) => Some(v)
      case None => LastMatch(f, lo, len - 1)
  }

  lemma {:induction false} FirstMatchSpec<T>(f: nat -> Option<T>, lo: nat, hi: nat)
    requires lo <= hi
    ensures FirstMatch(f, lo, hi).Some? ==>
      exists i :: lo <= i <= hi && f(i) == FirstMatch(f, lo, hi) && forall j :: lo <= j < i ==> f(j).None?
    ensures FirstMatch(f, lo, hi).None? ==> forall i :: lo <= i <= hi ==> f(i).None?
    decreases hi - lo
  {
    if f(lo).None? && lo < hi {
      FirstMatchSpec(f, lo + 1, hi);
    }
  }

  lemma {:induction false} LastMatchSpec<T>(f: nat -> Option<T>, lo: nat, len: nat)
    ensures LastMatch(f, lo, len).Some? ==>
      exists i :: lo <= i <= lo + len && f(i) == LastMatch(f, lo, len)
        && forall j :: i < j <= lo + len ==> f(j).None?
    ensures LastMatch(f, lo, len).None? ==> forall i :: lo <= i <= lo + len ==> f(i).None?
  {
    if len > 0 && f(lo + len).None? {
      LastMatchSpec(f, lo, len - 1);
    }
  }

  /** A success with no success after it is the one `LastMatch` returns. */
  lemma {:induction false} LastMatchIs<T>(f: nat -> Option<T>, lo: nat, len: nat, i: nat)
    requires lo <= i <= lo + len && f(i).Some?
    requires forall j :: i < j <= lo + len ==> f(j).None?
    ensures LastMatch(f, lo, len) == f(i)
  {
    if len > 0 && i < lo + len {
      LastMatchIs(f, lo, len - 1, i);
    }
  }

  /** A success with no success before it is the one `FirstMatch` returns. */
  lemma {:induction false} FirstMatchIs<T>(f: nat -> Option<T>, lo: nat, hi: nat, i: nat)
    requires lo <= i <= hi && f(i).Some?
    requires forall j :: lo <= j < i ==> f(j).None?
    ensures FirstMatch(f, lo, hi) == f(i)
    decreases i - lo
  {
    if lo < i {
      FirstMatchIs(f, lo + 1, hi, i);
    }
  }
}
