/** The form validators of `src/utils/validation.ts`. */
module Validation {

  import opened Text

  /** A run of one or more non-white-space characters, `\S+`, at `s[i..j]`. */
  ghost predicate NonSpaceRun(s: string, i: int, j: int) {
    0 <= i < j <= |s| && forall k :: i <= k < j ==> !IsWhitespace(s[k])
  }

  /** `\S+@\S+\.\S+` matches `s[i..j]`, with the `@` at `p` and the `.` at `q`. */
  ghost predicate EmailMatchAt(s: string, i: int, p: int, q: int, j: int) {
    NonSpaceRun(s, i, p) && NonSpaceRun(s, p + 1, q) && NonSpaceRun(s, q + 1, j) && s[p] == '@' && s[q] == '.'
  }

  /** The unanchored regular expression finds a match somewhere in `s`. */
  ghost predicate EmailRegexMatches(s: string) {
    exists i, p, q, j :: EmailMatchAt(s, i, p, q, j)
  }

  /** The shortest match around an `@` at `p` and a `.` at `q`. */
  predicate EmailWindow(s: string, p: int, q: int) {
    0 < p && p + 1 < q && q + 1 < |s| && s[p] == '@' && s[q] == '.'
    && !IsWhitespace(s[p - 1]) && !IsWhitespace(s[q + 1])
    && forall k | p < k < q :: !IsWhitespace(s[k])
  }

  /** Some `@` and a later `.` have a non-white-space character before the
      `@`, between the two, and after the `.`. */
  predicate HasEmailWindow(s: string) {
    exists p, q | 0 <= p < |s| && 0 <= q < |s| :: EmailWindow(s, p, q)
  }

  /** The windows are exactly the shortest matches of the expression. */
  lemma EmailWindowMatchesRegex(s: string)
    ensures HasEmailWindow(s) <==> EmailRegexMatches(s)
  {
    if HasEmailWindow(s) {
      var p, q :| 0 <= p < |s| && 0 <= q < |s| && EmailWindow(s, p, q);
      assert EmailMatchAt(s, p - 1, p, q, q + 2);
    }
    if EmailRegexMatches(s) {
      var i, p, q, j :| EmailMatchAt(s, i, p, q, j);
      assert EmailWindow(s, p, q);
    }
  }

  /** `isValidEmail(email)`: the unanchored expression matches somewhere. */
  function IsValidEmail(email: string): (ok: bool)
    ensures ok <==> EmailRegexMatches(email)
  {
    EmailWindowMatchesRegex(email);
    HasEmailWindow(email)
  }

  lemma EmailExamples()
    ensures IsValidEmail("ann@example.com")
    ensures !IsValidEmail("ann@example")
    ensures !IsValidEmail("@example.com")
  {
    assert EmailWindow("ann@example.com", 3, 11);
    var s := "ann@example";
    forall p, q | 0 <= p < |s| && 0 <= q < |s| ensures !EmailWindow(s, p, q) {
      if 0 < p && p + 1 < q && q + 1 < |s| && s[p] == '@' {
        assert s[q] != '.';
      }
    }
    var t := "@example.com";
    forall p, q | 0 <= p < |t| && 0 <= q < |t| ensures !EmailWindow(t, p, q) {
      if 0 < p {
        assert t[p] != '@';
      }
    }
  }

  /** `isValidPassword(password, minLength = 8)`: the length in UTF-16 code
      units, as JavaScript's `length` counts it, reaches the minimum. */
  function IsValidPassword(password: string, minLength: int := 8): (ok: bool)
    ensures ok <==> Utf16Length(password) >= minLength
    ensures |password| >= minLength ==> ok
  {
    Utf16Length(password) >= minLength
  }

  /** Four characters outside the Basic Multilingual Plane are eight code
      units, so they pass the default minimum; eight letters pass and seven
      do not. */
  lemma PasswordLengthExamples()
    ensures IsValidPassword("\U{1F600}\U{1F600}\U{1F600}\U{1F600}")
    ensures IsValidPassword("abcdefgh") && !IsValidPassword("abcdefg")
  {
    var e := "\U{1F600}\U{1F600}\U{1F600}\U{1F600}";
    assert e[1..] == "\U{1F600}\U{1F600}\U{1F600}" && e[2..] == "\U{1F600}\U{1F600}" && e[3..] == "\U{1F600}";
    assert Utf16Length("\U{1F600}") == 2;
  }

  /** A password good enough for one minimum is good enough for any smaller one. */
  lemma PasswordMonotone(password: string, m: int, m': int)
    requires m' <= m && IsValidPassword(password, m)
    ensures IsValidPassword(password, m')
  {
  }

  /** `isValidUrl(url)`: an `http://` or `https://` prefix, then a successful
      parse; `parses` stands for the `URL` constructor not throwing. */
  function IsValidUrl(url: string, parses: string -> bool): (ok: bool)
    ensures ok ==> StartsWith(url, "http://") || StartsWith(url, "https://")
    ensures ok ==> parses(url)
    ensures (StartsWith(url, "http://") || StartsWith(url, "https://")) && parses(url) ==> ok
  {
    if !(StartsWith(url, "http://") || StartsWith(url, "https://")) then false
    else parses(url)
  }

  /** "ftp://x.com" fails whatever the parser says; "https://x.com" passes
      when it parses. */
  lemma UrlExamples(parses: string -> bool)
    ensures !IsValidUrl("ftp://x.com", parses)
    ensures parses("https://x.com") ==> IsValidUrl("https://x.com", parses)
  {
    assert "ftp://x.com"[..7][0] != "http://"[0];
    assert "ftp://x.com"[..8][0] != "https://"[0];
    assert "https://x.com"[..8] == "https://";
  }

  /** `isNotEmpty(value)`: something other than white space is present. */
  function IsNotEmpty(value: string): (ok: bool)
    ensures ok <==> exists i :: 0 <= i < |value| && !IsWhitespace(value[i])
  {
    TrimEmptyIff(value);
    |Trim(value)| > 0
  }
}
