/** The few functions of Go's `strings` package that the resolvers use. */
module Strings {

  /** `strings.HasSuffix(s, suffix)`. */
  predicate HasSuffix(s: string, suffix: string) {
    |suffix| <= |s| && s[|s| - |suffix|..] == suffix
  }

  /** `strings.TrimSuffix(s, suffix)`: removes one occurrence of `suffix` at the end, if present. */
  function TrimSuffix(s: string, suffix: string): (r: string)
    ensures HasSuffix(s, suffix) ==> r + suffix == s
    ensures !HasSuffix(s, suffix) ==> r == s
  {
    if HasSuffix(s, suffix) then s[..|s| - |suffix|] else s
  }

  /** `r` is `s` with its whole run of leading '/' removed. */
  ghost predicate StripsLeadingSlashes(s: string, r: string) {
    && |r| <= |s|
    && r == s[|s| - |r|..]
    && (forall j :: 0 <= j < |s| - |r| ==> s[j] == '/')
    && (r == [] || r[0] != '/')
  }

  /** `strings.TrimLeft(s, "/")`: drops every leading '/'. */
  function TrimLeadingSlashes(s: string): (r: string)
    ensures StripsLeadingSlashes(s, r)
  {
    if s != [] && s[0] == '/' then TrimLeadingSlashes(s[1..]) else s
  }
}
