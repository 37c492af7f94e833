/** Losses as the ledgers store them: a finite real, or the `+inf` sentinel
    meaning "never recorded". */
module Losses {

  datatype Loss = Fin(r: real) | PosInf

  /** Strict order of the extended reals: `+inf` is above every finite value
      and not below itself. */
  predicate Lt(a: Loss, b: Loss) {
    match a
    case PosInf => false
    case Fin(x) => b.PosInf? || x < b.r
  }

  predicate Le(a: Loss, b: Loss) {
    !Lt(b, a)
  }

  /** The smaller of two losses; on a tie the first argument is kept. */
  function Min(a: Loss, b: Loss): (m: Loss)
    ensures m == a || m == b
    ensures Le(m, a) && Le(m, b)
    ensures m == b ==> (Lt(b, a) || a == b)
  {
    if Lt(b, a) then b else a
  }

  /** The minimum of three losses does not depend on the grouping. */
  lemma MinAssociative(a: Loss, b: Loss, c: Loss)
    ensures Min(Min(a, b), c) == Min(a, Min(b, c))
  {
  }
}
