/** Definitions used all over the model. */
module Common {

  datatype Option<+T> = None | Some(value: T)

  /** llimits.h. */
  const INT_MAX: int := 0x7fff_ffff
  const MAX_INT: int := INT_MAX - 2

  function Elems(l: seq<nat>): set<nat> {
    set j | j in l
  }

  ghost predicate NoDup(l: seq<nat>) {
    forall i, j :: 0 <= i < j < |l| ==> l[i] != l[j]
  }

  function Pow2(n: nat): (p: nat)
    ensures p > 0
  {
    if n == 0 then 1 else 2 * Pow2(n - 1)
  }

  predicate IsDigit(c: char) {
    '0' <= c <= '9'
  }
}
