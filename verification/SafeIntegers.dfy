/** The integers that a JavaScript number holds exactly. */
module SafeIntegers {

  const MAX_SAFE_INTEGER: int := 9_007_199_254_740_991

  predicate IsSafeInteger(n: int) { -MAX_SAFE_INTEGER <= n <= MAX_SAFE_INTEGER }
}
