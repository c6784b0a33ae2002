/** The few `str` operations the scripts use, over `seq<char>`. */
module Text {

  /** `s.startswith(p)` */
  predicate IsPrefix(p: string, s: string)
  {
    |p| <= |s| && s[..|p|] == p
  }

  /** `p in s` for strings: `p` occurs somewhere in `s`. */
  predicate Contains(s: string, p: string)
    decreases |s|
  {
    IsPrefix(p, s) || (s != [] && Contains(s[1..], p))
  }

  /**
   * `s.replace(p, '')`: one left-to-right scan that deletes every
   * non-overlapping occurrence of `p`; the text left behind is not rescanned.
   */
  function RemoveAll(s: string, p: string): (r: string)
    requires p != []
    ensures |r| <= |s|
    decreases |s|
  {
    if s == [] then []
    else if IsPrefix(p, s) then RemoveAll(s[|p|..], p)
    else [s[0]] + RemoveAll(s[1..], p)
  }

  /** A string in which `p` does not occur is left as it is. */
  lemma {:induction false} RemoveAllAbsent(s: string, p: string)
    requires p != [] && !Contains(s, p)
    ensures RemoveAll(s, p) == s
    decreases |s|
  {
    if s != [] {
      RemoveAllAbsent(s[1..], p);
      assert s == [s[0]] + s[1..];
    }
  }

  /** A leading occurrence of `p` is deleted and the scan resumes right after it. */
  lemma RemoveAllLeading(p: string, t: string)
    requires p != []
    ensures RemoveAll(p + t, p) == RemoveAll(t, p)
  {
    assert IsPrefix(p, p + t);
    assert (p + t)[|p|..] == t;
  }

  /** `p + t` with no further occurrence of `p` in `t` comes back as `t`. */
  lemma StripPrefixOnce(p: string, t: string)
    requires p != [] && !Contains(t, p)
    ensures RemoveAll(p + t, p) == t
  {
    RemoveAllLeading(p, t);
    RemoveAllAbsent(t, p);
  }

  /** `s.split('/')[-1]`: the text after the last '/', or all of `s` when it has none. */
  function LastSegment(s: string): (r: string)
    ensures |r| <= |s| && '/' !in r
    decreases |s|
  {
    if s == [] then []
    else if s[|s| - 1] == '/' then []
    else LastSegment(s[..|s| - 1]) + [s[|s| - 1]]
  }

  /**
   * The last segment is a suffix of `s`; when `s` holds a '/', the character
   * right before the segment is the last '/'; when it holds none, the segment is `s`.
   */
  lemma {:induction false} LastSegmentShape(s: string)
    ensures var r := LastSegment(s);
      s[|s| - |r|..] == r &&
      ('/' in s ==> |r| < |s| && s[|s| - |r| - 1] == '/') &&
      ('/' !in s ==> r == s)
    decreases |s|
  {
    if s != [] && s[|s| - 1] != '/' {
      var init := s[..|s| - 1];
      LastSegmentShape(init);
      assert s == init + [s[|s| - 1]];
      if '/' in s {
        assert '/' in init;
      }
    }
  }

  /** ASCII `str.lower()` on one character. */
  function LowerChar(c: char): char
  {
    if 'A' <= c <= 'Z' then (c as int - 'A' as int + 'a' as int) as char else c
  }

  /** `s.lower()`, for the ASCII letters. */
  function Lower(s: string): (r: string)
    ensures |r| == |s|
  {
    seq(|s|, i requires 0 <= i < |s| => LowerChar(s[i]))
  }
}
