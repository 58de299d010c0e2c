/** Vocabulary shared by the route handlers, the browser helpers and the page component. */
module Common {

  datatype Option<T> = None | Some(value: T)

  /** What a handler answers: a 2xx JSON body, or an error status with the body's `error` text. */
  datatype Response<T> = Success(value: T) | Failure(status: int, error: string)

  /** The two store settings read from the process environment; an unset variable is "". */
  datatype Env = Env(storeUrl: string, storeAnonKey: string)

  /** Both `NEXT_PUBLIC_SUPABASE_URL` and `NEXT_PUBLIC_SUPABASE_ANON_KEY` are truthy. */
  predicate Configured(env: Env) {
    env.storeUrl != "" && env.storeAnonKey != ""
  }

  const ConfigMissing: string := "Supabase configuration is missing"
  const InternalError: string := "Internal server error"

  /** JavaScript truthiness of an optional string: supplied and not empty. */
  predicate Present(p: Option<string>) {
    p.Some? && p.value != ""
  }

  /** `header || 'unknown'`: a missing or empty header reads as "unknown". */
  function OrUnknown(h: Option<string>): (r: string)
    ensures r != ""
    ensures Present(h) ==> r == h.value
    ensures !Present(h) ==> r == "unknown"
  {
    if Present(h) then h.value else "unknown"
  }

  /** `w` occurs in `s` starting at position `i`. */
  predicate StartsAt(s: string, i: nat, w: string) {
    i + |w| <= |s| && s[i..i + |w|] == w
  }

  /** `s.includes(w)`. */
  predicate Contains(s: string, w: string) {
    exists i :: 0 <= i <= |s| && StartsAt(s, i, w)
  }

  /** Every string includes the empty string. */
  lemma ContainsEmpty(s: string)
    ensures Contains(s, "")
  {
    assert StartsAt(s, 0, "");
  }

  /** `String.prototype.toLowerCase` restricted to ASCII letters. */
  function AsciiLower(c: char): (r: char)
    ensures 'A' <= c <= 'Z' ==> 'a' <= r <= 'z'
    ensures !('A' <= c <= 'Z') ==> r == c
  {
    if 'A' <= c <= 'Z' then (c as int + 32) as char else c
  }

  function Lower(s: string): (r: string)
    ensures |r| == |s|
    ensures forall i :: 0 <= i < |s| ==> r[i] == AsciiLower(s[i])
    ensures forall i :: 0 <= i < |r| ==> !('A' <= r[i] <= 'Z')
  {
    seq(|s|, i requires 0 <= i < |s| => AsciiLower(s[i]))
  }

  /** Lower-casing twice is lower-casing once. */
  lemma LowerIdempotent(s: string)
    ensures Lower(Lower(s)) == Lower(s)
  {
  }
}
