/**
 * `smart_truncate`: shorten a text to a length budget on a word boundary.
 * The source computes `' '.join(content[:length+1].split(' ')[0:-1]) + suffix`;
 * `Split` and `Join` below are Python's `str.split(' ')` and `' '.join`.
 */
module Truncate {
  import opened Text

  const DefaultLength: nat := 175
  const DefaultSuffix: string := "\U{2026}"

  /** `s.split(' ')`: the pieces between single spaces, empty pieces kept. */
  function Split(s: string): (parts: seq<string>)
    ensures |parts| >= 1
    ensures forall i :: 0 <= i < |parts| ==> ' ' !in parts[i]
    decreases |s|
  {
    if s == [] then [""]
    else
      var init := Split(s[..|s| - 1]);
      var c := s[|s| - 1];
      if c == ' ' then init + [""]
      else init[..|init| - 1] + [init[|init| - 1] + [c]]
  }

  /** `' '.join(parts)`. */
  function Join(parts: seq<string>): string
    decreases |parts|
  {
    if |parts| == 0 then ""
    else if |parts| == 1 then parts[0]
    else Join(parts[..|parts| - 1]) + " " + parts[|parts| - 1]
  }

  /** Index of the last space of `s`, or 0 when `s` has none. */
  function LastSpaceOrZero(s: string): (p: nat)
    ensures p <= |s|
    ensures ' ' in s ==> p < |s| && s[p] == ' ' && ' ' !in s[p + 1..]
    ensures ' ' !in s ==> p == 0
    decreases |s|
  {
    if s == [] then 0
    else if s[|s| - 1] == ' ' then |s| - 1
    else
      var init := s[..|s| - 1];
      var p := LastSpaceOrZero(init);
      assert ' ' in s <==> ' ' in init by { assert s == init + [s[|s| - 1]]; }
      if ' ' in init then
        assert init[p + 1..] + [s[|s| - 1]] == s[p + 1..];
        p
      else
        p
  }

  /** Joining the pieces of a split gives back the text. */
  lemma {:induction false} JoinSplit(s: string)
    ensures Join(Split(s)) == s
    decreases |s|
  {
    if s != [] {
      var init := s[..|s| - 1];
      var c := s[|s| - 1];
      var parts := Split(init);
      JoinSplit(init);
      assert s == init + [c];
      if c == ' ' {
        assert (parts + [""])[..|parts|] == parts;
      } else {
        var n := |parts|;
        var last := parts[..n - 1] + [parts[n - 1] + [c]];
        if n > 1 {
          assert last[..n - 1] == parts[..n - 1];
        }
      }
    }
  }

  /** Dropping the last piece and joining keeps exactly the text before the last space. */
  lemma {:induction false} DropLastWord(s: string)
    ensures var parts := Split(s); Join(parts[..|parts| - 1]) == s[..LastSpaceOrZero(s)]
    decreases |s|
  {
    if s != [] {
      var init := s[..|s| - 1];
      var c := s[|s| - 1];
      var parts := Split(init);
      var n := |parts|;
      if c == ' ' {
        JoinSplit(init);
        assert Split(s)[..|Split(s)| - 1] == parts;
      } else {
        DropLastWord(init);
        assert Split(s)[..|Split(s)| - 1] == parts[..n - 1];
        var p := LastSpaceOrZero(init);
        assert LastSpaceOrZero(s) == p;
        assert s[..p] == init[..p];
      }
    }
  }

  /**
   * `smart_truncate(content, length, suffix)`: the text itself when it fits,
   * otherwise the words of its first `length + 1` characters but the last,
   * followed by `suffix`.
   */
  function SmartTruncate(content: string, length: nat, suffix: string): (r: string)
    ensures |content| <= length ==> r == content
    ensures |content| > length ==> EndsWith(r, suffix)
  {
    if |content| <= length then content
    else
      var pieces := Split(content[..length + 1]);
      Join(pieces[..|pieces| - 1]) + suffix
  }

  /**
   * A truncated text is a prefix of the content cut at the last space within
   * the first `length + 1` characters (or cut to nothing when there is none),
   * followed by the suffix: it never ends in the middle of a word, and the
   * kept prefix has at most `length` characters.
   */
  lemma TruncateCutsAtLastSpace(content: string, length: nat, suffix: string)
    requires |content| > length
    ensures var p := LastSpaceOrZero(content[..length + 1]);
      && p <= length
      && SmartTruncate(content, length, suffix) == content[..p] + suffix
      && (' ' in content[..length + 1] ==> content[p] == ' ' && ' ' !in content[p + 1..length + 1])
      && (' ' !in content[..length + 1] ==> p == 0)
  {
    var window := content[..length + 1];
    DropLastWord(window);
    var p := LastSpaceOrZero(window);
    assert window[..p] == content[..p];
    if ' ' in window {
      assert window[p + 1..] == content[p + 1..length + 1];
    }
  }

  /**
   * With the default budget and suffix, as the participations report uses
   * them for each description, a text of up to 175 characters is kept as
   * it is and a longer one comes out as at most 175 characters and the
   * ellipsis.
   */
  lemma DefaultTruncateBound(content: string)
    ensures var r := SmartTruncate(content, DefaultLength, DefaultSuffix);
      && |r| <= DefaultLength + 1
      && (|content| <= DefaultLength <==> r == content)
  {
    if |content| > DefaultLength {
      TruncateCutsAtLastSpace(content, DefaultLength, DefaultSuffix);
      var p := LastSpaceOrZero(content[..DefaultLength + 1]);
      var r := content[..p] + DefaultSuffix;
      // Only a cut at the very last place of the window can be as long as
      // the content, and there the content has a space, not the ellipsis.
      if p == DefaultLength {
        assert r[p] != content[p];
      } else {
        assert |r| < |content|;
      }
    }
  }

  /** The last space of "one two thr" is the one after "two". */
  lemma LastSpaceExample(window: string)
    requires window == "one two thr"
    ensures LastSpaceOrZero(window) == 7
  {
    assert window[..10] == "one two th";
    assert window[..10][..9] == "one two t";
    assert window[..10][..9][..8] == "one two ";
  }

  /** The worked example: a budget of 10 keeps "one two". */
  lemma TruncateExample(content: string)
    requires content == "one two three four five"
    ensures SmartTruncate(content, 10, DefaultSuffix) == "one two\U{2026}"
  {
    TruncateCutsAtLastSpace(content, 10, DefaultSuffix);
    LastSpaceExample(content[..11]);
    assert content[..7] == "one two";
  }
}
