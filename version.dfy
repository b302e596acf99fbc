/**
 * Version gate (utils/Version.kt): each predicate compares the platform's API level
 * (`Build.VERSION.SDK_INT`, passed in as `sdk`) with one fixed release code.
 */
module Version {

  // Build.VERSION_CODES
  const M: int := 23
  const N: int := 24
  const N_MR1: int := 25
  const O: int := 26
  const O_MR1: int := 27
  const P: int := 28
  const Q: int := 29
  const R: int := 30
  const S: int := 31
  const TIRAMISU: int := 33

  predicate IsMarshmallowPlus(sdk: int) { sdk >= M }
  predicate IsNougatPlus(sdk: int) { sdk >= N }
  predicate IsNougatMR1Plus(sdk: int) { sdk >= N_MR1 }
  predicate IsOreoPlus(sdk: int) { sdk >= O }
  predicate IsOreoMr1Plus(sdk: int) { sdk >= O_MR1 }
  predicate IsPiePlus(sdk: int) { sdk >= P }
  predicate IsQPlus(sdk: int) { sdk >= Q }
  predicate IsRPlus(sdk: int) { sdk >= R }
  predicate IsSPlus(sdk: int) { sdk >= S }
  predicate IsTPlus(sdk: int) { sdk >= TIRAMISU }
  predicate IsLessThanN(sdk: int) { sdk <= M }

  /** Once a capability is available at some API level it stays available above it. */
  lemma Monotone(v: int, w: int)
    requires v <= w
    ensures IsMarshmallowPlus(v) ==> IsMarshmallowPlus(w)
    ensures IsNougatPlus(v) ==> IsNougatPlus(w)
    ensures IsNougatMR1Plus(v) ==> IsNougatMR1Plus(w)
    ensures IsOreoPlus(v) ==> IsOreoPlus(w)
    ensures IsOreoMr1Plus(v) ==> IsOreoMr1Plus(w)
    ensures IsPiePlus(v) ==> IsPiePlus(w)
    ensures IsQPlus(v) ==> IsQPlus(w)
    ensures IsRPlus(v) ==> IsRPlus(w)
    ensures IsSPlus(v) ==> IsSPlus(w)
    ensures IsTPlus(v) ==> IsTPlus(w)
    ensures IsLessThanN(w) ==> IsLessThanN(v)
  {
  }

  /** A newer release implies every older one. */
  lemma Chained(sdk: int)
    ensures IsTPlus(sdk) ==> IsSPlus(sdk)
    ensures IsSPlus(sdk) ==> IsRPlus(sdk)
    ensures IsRPlus(sdk) ==> IsQPlus(sdk)
    ensures IsQPlus(sdk) ==> IsPiePlus(sdk)
    ensures IsPiePlus(sdk) ==> IsOreoMr1Plus(sdk)
    ensures IsOreoMr1Plus(sdk) ==> IsOreoPlus(sdk)
    ensures IsOreoPlus(sdk) ==> IsNougatMR1Plus(sdk)
    ensures IsNougatMR1Plus(sdk) ==> IsNougatPlus(sdk)
    ensures IsNougatPlus(sdk) ==> IsMarshmallowPlus(sdk)
  {
  }

  /** `isLessThanN` is "at most Marshmallow", the exact complement of `isNougatPlus`. */
  lemma LessThanNIsNotNougat(sdk: int)
    ensures IsLessThanN(sdk) <==> sdk <= 23
    ensures IsLessThanN(sdk) <==> !IsNougatPlus(sdk)
  {
  }
}
