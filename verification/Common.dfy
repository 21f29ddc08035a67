/** Failure and absence, shared by every module. */
module Common {

  datatype Option<+T> = None | Some(value: T)

  datatype Result<+T, +E> = Ok(value: T) | Err(error: E)

  /** A float64. */
  datatype Number = Finite(v: real) | NaN | PosInf | NegInf {
    predicate Positive() { (Finite? && v > 0.0) || PosInf? }
    /** Positive, not NaN and not infinite. */
    predicate Usable() { Finite? && v > 0.0 }
  }

  function One(b: bool): nat {
    if b then 1 else 0
  }

  /** The result, or what was there before when there is an error. */
  function OrSame<S, E>(r: Result<S, E>, before: S): S {
    if r.Ok? then r.value else before
  }

  function Or<T>(p: Option<T>, otherwise: T): T {
    if p.Some? then p.value else otherwise
  }

  predicate Increasing(s: seq<nat>) {
    forall i, j :: 0 <= i < j < |s| ==> s[i] < s[j]
  }
}
