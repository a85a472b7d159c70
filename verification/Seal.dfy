/**
 A way to use a predicate by name only. `Open` is always true; a predicate stated as `forall n :: Open(n) ==> P` says
 `P`, but its quantifiers and sums stay out of a proof until that proof mentions `Open`.
 */
module Seal {

  ghost predicate Open(n: nat) {
    true
  }
}
