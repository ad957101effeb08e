/** Failure-compatible datatypes shared by the whole model.
- Option<T>: a value that may be absent (Python's `None`).
- Attempt<T>: the outcome of a Python call that either returns a value or raises;
  a raised exception carries the text that `str(e)` would give.
 */
module Wrappers {

  datatype Option<+T> = None | Some(value: T)

  datatype Attempt<+T> = Returned(value: T) | Raised(message: string) {

    predicate IsFailure() {
      Raised?
    }

    function PropagateFailure<U>(): Attempt<U>
      requires Raised?
    {
      Raised(message)
    }

    function Extract(): T
      requires Returned?
    {
      value
    }
  }

  /** True when `suffix` is a suffix of `s` (Python's `str.endswith`):
      character by character, `s` ends with the characters of `suffix`. */
  function EndsWith(s: string, suffix: string): (b: bool)
    ensures b <==> |suffix| <= |s| && forall i | 0 <= i < |suffix| :: s[|s| - |suffix| + i] == suffix[i]
  {
    |suffix| <= |s| && s[|s| - |suffix|..] == suffix
  }

  /** True when `prefix` is a prefix of `s` (Python's `str.startswith`). */
  predicate StartsWith(s: string, prefix: string) {
    |prefix| <= |s| && s[..|prefix|] == prefix
  }
}
