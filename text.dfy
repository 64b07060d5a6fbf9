/**
 * The small string operations the challenge cog relies on: Python's
 * `str.strip()`, `str.lower()`, `startswith`, `endswith`, and the
 * attachment filename test of the participations report.
 */
module Text {

  /** The characters Python's `str.isspace()` accepts, which `str.strip()` removes. */
  predicate IsSpace(c: char) {
    || c == ' '
    || ('\t' <= c <= '\r')
    || ('\U{1C}' <= c <= '\U{1F}')
    || c == '\U{85}' || c == '\U{A0}' || c == '\U{1680}'
    || ('\U{2000}' <= c <= '\U{200A}')
    || c == '\U{2028}' || c == '\U{2029}' || c == '\U{202F}' || c == '\U{205F}' || c == '\U{3000}'
  }

  /** `s.lstrip()`. */
  function StripStart(s: string): string {
    if s != [] && IsSpace(s[0]) then StripStart(s[1..]) else s
  }

  /** `s.rstrip()`. */
  function StripEnd(s: string): string {
    if s != [] && IsSpace(s[|s| - 1]) then StripEnd(s[..|s| - 1]) else s
  }

  /** `s.strip()`. */
  function Strip(s: string): string {
    StripEnd(StripStart(s))
  }

  /** `lstrip` drops the leading whitespace and nothing else. */
  lemma {:induction false} StripStartDropsLeadingSpace(s: string)
    ensures var r := StripStart(s);
      && |r| <= |s| && r == s[|s| - |r|..]
      && (forall i :: 0 <= i < |s| - |r| ==> IsSpace(s[i]))
      && (r == [] || !IsSpace(r[0]))
  {
    if s != [] && IsSpace(s[0]) {
      var rest := s[1..];
      StripStartDropsLeadingSpace(rest);
      var r := StripStart(rest);
      assert r == s[|s| - |r|..] by {
        assert rest[|rest| - |r|..] == s[|s| - |r|..];
      }
      forall i | 0 < i < |s| - |r|
        ensures IsSpace(s[i])
      {
        assert s[i] == rest[i - 1];
      }
    }
  }

  /** `rstrip` drops the trailing whitespace and nothing else. */
  lemma {:induction false} StripEndDropsTrailingSpace(s: string)
    ensures var r := StripEnd(s);
      && |r| <= |s| && r == s[..|r|]
      && (forall i :: |r| <= i < |s| ==> IsSpace(s[i]))
      && (r == [] || !IsSpace(r[|r| - 1]))
  {
    if s != [] && IsSpace(s[|s| - 1]) {
      var init := s[..|s| - 1];
      StripEndDropsTrailingSpace(init);
      var r := StripEnd(init);
      assert r == s[..|r|] by {
        assert init[..|r|] == s[..|r|];
      }
      forall i | |r| <= i < |s| - 1
        ensures IsSpace(s[i])
      {
        assert s[i] == init[i];
      }
    }
  }

  /**
   * The capitals `lower` knows here: the ASCII letters, the Latin-1
   * capitals (U+00C0 to U+00DE, but not the multiplication sign U+00D7),
   * and the two capitals French needs beyond Latin-1, U+0152 and U+0178.
   */
  predicate IsUpper(c: char) {
    || 'A' <= c <= 'Z'
    || ('\U{C0}' <= c <= '\U{DE}' && c != '\U{D7}')
    || c == '\U{152}' || c == '\U{178}'
  }

  /** `c.lower()` for the capitals above; every other character is kept. */
  function LowerChar(c: char): (r: char)
    ensures r != c <==> IsUpper(c)
    ensures !IsUpper(r)
  {
    if 'A' <= c <= 'Z' || ('\U{C0}' <= c <= '\U{DE}' && c != '\U{D7}') then (c as int + 32) as char
    else if c == '\U{152}' then '\U{153}'
    else if c == '\U{178}' then '\U{FF}'
    else c
  }

  /** `s.lower()`, character by character. */
  function Lower(s: string): (r: string)
    ensures |r| == |s|
  {
    if s == [] then [] else [LowerChar(s[0])] + Lower(s[1..])
  }

  /** Each character of the lower-cased text is the lower-cased character. */
  lemma {:induction false} LowerAt(s: string)
    ensures forall i :: 0 <= i < |s| ==> Lower(s)[i] == LowerChar(s[i])
  {
    if s != [] {
      LowerAt(s[1..]);
      assert forall i :: 1 <= i < |s| ==> Lower(s)[i] == Lower(s[1..])[i - 1];
    }
  }

  /** Lower-casing twice is lower-casing once. */
  lemma LowerIdempotent(s: string)
    ensures Lower(Lower(s)) == Lower(s)
  {
    LowerAt(s);
    LowerAt(Lower(s));
    assert forall i :: 0 <= i < |s| ==> LowerChar(LowerChar(s[i])) == LowerChar(s[i]);
  }

  /** A text without capitals is its own lower-case form. */
  lemma LowerKeepsLowerCase(s: string)
    requires forall i :: 0 <= i < |s| ==> !IsUpper(s[i])
    ensures Lower(s) == s
  {
    LowerAt(s);
  }

  /** Accented capitals are lowered too: "[ÉTÉ]" becomes "[été]". */
  lemma LowerAccentedExample(s: string)
    requires s == "[\U{C9}T\U{C9}]"
    ensures Lower(s) == "[\U{E9}t\U{E9}]"
  {
    LowerAt(s);
  }

  /** A text that neither starts nor ends with whitespace is its own stripped form. */
  lemma StripKeepsTrimmed(s: string)
    requires s == [] || (!IsSpace(s[0]) && !IsSpace(s[|s| - 1]))
    ensures Strip(s) == s
  {
  }

  predicate StartsWith(s: string, prefix: string) {
    prefix <= s
  }

  predicate EndsWith(s: string, suffix: string) {
    |suffix| <= |s| && s[|s| - |suffix|..] == suffix
  }

  /**
   * The thumbnail test of the participations report: the lower-cased
   * filename ends with one of the image extensions. No dot is required.
   */
  predicate IsImageFilename(filename: string) {
    var f := Lower(filename);
    EndsWith(f, "png") || EndsWith(f, "jpg") || EndsWith(f, "gif") || EndsWith(f, "jpeg")
  }

  /** The test does not depend on the case of the filename. */
  lemma ImageTestIgnoresCase(filename: string)
    ensures IsImageFilename(Lower(filename)) == IsImageFilename(filename)
  {
    LowerIdempotent(filename);
  }

  /** Upper-case extensions count. */
  lemma ImageTestUpperCase()
    ensures IsImageFilename("a.PNG")
  {
    assert Lower("a.PNG") == "a.png";
  }

  /** No dot is needed before the extension. */
  lemma ImageTestNoDot()
    ensures IsImageFilename("jpeg")
  {
    assert Lower("jpeg") == "jpeg";
  }

  /** Other extensions are not images. */
  lemma ImageTestOtherExtension()
    ensures !IsImageFilename("a.mp4")
  {
    assert Lower("a.mp4") == "a.mp4";
  }
}
