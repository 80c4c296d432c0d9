/** The .NET string operations the controller relies on. */
module Text {
  import opened Models

  /** `char.IsWhiteSpace`: the Unicode space, line and paragraph separators, the
      controls U+0009..U+000D and U+0085. */
  predicate IsWhiteSpace(c: char) {
    || ('\U{0009}' <= c <= '\U{000D}')
    || c == '\U{0020}' || c == '\U{0085}' || c == '\U{00A0}' || c == '\U{1680}'
    || ('\U{2000}' <= c <= '\U{200A}')
    || c == '\U{2028}' || c == '\U{2029}' || c == '\U{202F}' || c == '\U{205F}' || c == '\U{3000}'
  }

  /** `string.IsNullOrEmpty`. */
  predicate IsNullOrEmpty(s: Option<string>) {
    s.None? || s.value == ""
  }

  /** `string.IsNullOrWhiteSpace`: null, empty, or white space only. */
  predicate IsNullOrWhiteSpace(s: Option<string>) {
    s.None? || forall i :: 0 <= i < |s.value| ==> IsWhiteSpace(s.value[i])
  }

  /** Every null-or-empty value is also null-or-white-space. */
  lemma EmptyIsWhiteSpace(s: Option<string>)
    ensures IsNullOrEmpty(s) ==> IsNullOrWhiteSpace(s)
  {
  }

  /** `s.Contains(q)`, as plain ordinal substring search. */
  predicate Contains(s: string, q: string)
    decreases |s|
  {
    q <= s || (s != [] && Contains(s[1..], q))
  }

  /** `Contains` holds exactly when `q` occurs in `s` at some position. */
  lemma {:induction false} ContainsAt(s: string, q: string)
    ensures Contains(s, q) <==> exists k :: 0 <= k <= |s| && q <= s[k..]
    decreases |s|
  {
    if s != [] {
      ContainsAt(s[1..], q);
      assert forall k :: 1 <= k <= |s| ==> s[k..] == s[1..][k - 1..];
      if Contains(s[1..], q) {
        var k :| 0 <= k <= |s[1..]| && q <= s[1..][k..];
        assert q <= s[k + 1..];
      }
    } else {
      assert s[0..] == s;
    }
    assert s[0..] == s;
  }

  /** Simple upper-casing of the ASCII letters. */
  function AsciiUpper(c: char): char {
    if 'a' <= c <= 'z' then (c as int - 32) as char else c
  }

  /** `s.StartsWith(prefix, StringComparison.OrdinalIgnoreCase)` for an ASCII `prefix`. */
  predicate StartsWithIgnoreCase(s: string, prefix: string) {
    |prefix| <= |s| && forall i :: 0 <= i < |prefix| ==> AsciiUpper(s[i]) == AsciiUpper(prefix[i])
  }
}
