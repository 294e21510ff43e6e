/** The .NET string helpers the orchestrator relies on. */
module Strings {
  import opened Wrappers

  /** `string.IsNullOrEmpty`. */
  predicate IsNullOrEmpty(s: Option<string>) {
    s.None? || s.value == ""
  }

  /**
   * `char.IsWhiteSpace`: the Unicode space separators, the line and paragraph
   * separators, and the control characters U+0009 to U+000D, U+0085.
   */
  predicate IsWhiteSpace(ch: char) {
    || ('\t' <= ch <= '\r') || ch == ' ' || ch == '\U{0085}' || ch == '\U{00A0}'
    || ch == '\U{1680}' || ('\U{2000}' <= ch <= '\U{200A}') || ch == '\U{2028}'
    || ch == '\U{2029}' || ch == '\U{202F}' || ch == '\U{205F}' || ch == '\U{3000}'
  }

  /** `string.IsNullOrWhiteSpace`. */
  predicate IsNullOrWhiteSpace(s: Option<string>) {
    s.None? || forall i :: 0 <= i < |s.value| ==> IsWhiteSpace(s.value[i])
  }

  /** An ASCII upper-case letter, the only characters ToLower changes. */
  predicate IsAsciiUpper(ch: char) {
    'A' <= ch <= 'Z'
  }

  /** Lower-casing of one character; only the ASCII letters are mapped. */
  function LowerChar(ch: char): char {
    if IsAsciiUpper(ch) then (ch as int + 32) as char else ch
  }

  /** `string.ToLower`, restricted to ASCII case mapping. */
  function ToLower(s: string): string {
    seq(|s|, i requires 0 <= i < |s| => LowerChar(s[i]))
  }

  /** A lower-cased string holds no ASCII upper-case letter. */
  lemma ToLowerHasNoUpper(s: string)
    ensures forall i :: 0 <= i < |ToLower(s)| ==> !IsAsciiUpper(ToLower(s)[i])
  {
  }

  /** Lower-casing twice is lower-casing once. */
  lemma ToLowerIdempotent(s: string)
    ensures ToLower(ToLower(s)) == ToLower(s)
  {
    assert forall i :: 0 <= i < |s| ==> LowerChar(LowerChar(s[i])) == LowerChar(s[i]);
  }

  /** ToLower leaves a string unchanged exactly when it has no ASCII upper-case letter. */
  lemma ToLowerFixesLowerStrings(s: string)
    ensures ToLower(s) == s <==> forall i :: 0 <= i < |s| ==> !IsAsciiUpper(s[i])
  {
    if ToLower(s) == s {
      forall i | 0 <= i < |s| ensures !IsAsciiUpper(s[i]) {
        assert ToLower(s)[i] == s[i];
      }
    }
  }

  /** `string.EndsWith` with ordinal comparison. */
  predicate EndsWith(s: string, suffix: string) {
    |suffix| <= |s| && s[|s| - |suffix|..] == suffix
  }

  /** Two strings with a common prefix are equal exactly when their rests are. */
  lemma {:induction false} PrefixCancels(prefix: string, a: string, b: string)
    requires prefix + a == prefix + b
    ensures a == b
  {
    assert a == (prefix + a)[|prefix|..];
    assert b == (prefix + b)[|prefix|..];
  }

  /** Two strings with a common suffix are equal exactly when their fronts are. */
  lemma {:induction false} SuffixCancels(a: string, b: string, suffix: string)
    requires a + suffix == b + suffix
    ensures a == b
  {
    assert |a| == |b|;
    assert a == (a + suffix)[..|a|];
    assert b == (b + suffix)[..|b|];
  }
}
