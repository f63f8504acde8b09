/** Optional values, results, and the JavaScript notion of a "truthy" string
    that the library's guards (`if (email)`, `if (!config.database.url)`) rely on. */
module Wrappers {

  /** An absent (`undefined` / `null`) or present value. */
  datatype Option<+T> = None | Some(value: T)

  /** A value, or the error the library would have thrown or logged. */
  datatype Result<+R, +E> = Success(value: R) | Failure(error: E)

  /** A check that either lets the request through or fails with an error. */
  datatype Outcome<+E> = Pass | Fail(error: E)

  /** An optional string is truthy in JavaScript when it is present and not empty. */
  predicate Truthy(o: Option<string>) {
    o.Some? && o.value != ""
  }

  predicate StartsWith(s: string, prefix: string) {
    |prefix| <= |s| && s[..|prefix|] == prefix
  }

  predicate EndsWith(s: string, suffix: string) {
    |suffix| <= |s| && s[|s| - |suffix|..] == suffix
  }

  /** `s.indexOf(sub) !== -1`: `sub` occurs somewhere in `s`. */
  predicate Contains(s: string, sub: string) {
    StartsWith(s, sub) || (s != [] && Contains(s[1..], sub))
  }
}
