/**
 * The string operations of Rust's `str` that the shim relies on:
 * `trim`, `trim_matches` and `split_once`, on strings as sequences of
 * Unicode scalar values.
 */
module Text {
  import opened Wrappers

  /**
   * The characters a trim removes: the whitespace `str::trim` removes
   * (`char::is_whitespace`, the Unicode White_Space property), or one
   * given character, as for `trim_matches(c)`.
   */
  datatype CharClass = Whitespace | Only(c: char)

  predicate IsWhitespace(c: char)
  {
    || '\t' <= c <= '\r' || c == ' ' || c == '\U{85}' || c == '\U{A0}' || c == '\U{1680}'
    || '\U{2000}' <= c <= '\U{200A}' || c == '\U{2028}' || c == '\U{2029}' || c == '\U{202F}'
    || c == '\U{205F}' || c == '\U{3000}'
  }

  predicate In(c: char, drop: CharClass)
  {
    match drop
    case Whitespace => IsWhitespace(c)
    case Only(d) => c == d
  }

  /** Every character of `s` belongs to `drop`. */
  predicate AllIn(s: string, drop: CharClass)
  {
    forall i :: 0 <= i < |s| ==> In(s[i], drop)
  }

  /** Removes the longest prefix of `s` made of characters in `drop`. */
  function TrimStart(s: string, drop: CharClass): (r: string)
    ensures |r| <= |s| && r == s[|s| - |r|..]
    ensures AllIn(s[..|s| - |r|], drop)
    ensures r == [] || !In(r[0], drop)
  {
    if s != [] && In(s[0], drop) then
      var r := TrimStart(s[1..], drop);
      assert s[..|s| - |r|] == [s[0]] + s[1..][..|s| - 1 - |r|];
      r
    else
      s
  }

  /** Removes the longest suffix of `s` made of characters in `drop`. */
  function TrimEnd(s: string, drop: CharClass): (r: string)
    ensures |r| <= |s| && r == s[..|r|]
    ensures AllIn(s[|r|..], drop)
    ensures r == [] || !In(r[|r| - 1], drop)
  {
    if s != [] && In(s[|s| - 1], drop) then
      var r := TrimEnd(s[..|s| - 1], drop);
      assert s[|r|..] == s[..|s| - 1][|r|..] + [s[|s| - 1]];
      r
    else
      s
  }

  /** `s` neither starts nor ends with a character in `drop`. */
  predicate KeptAtEnds(s: string, drop: CharClass)
  {
    s == [] || (!In(s[0], drop) && !In(s[|s| - 1], drop))
  }

  /**
   * `r` is the piece of `s` that starts at index `k`, and everything
   * before and after that piece is in `drop`.
   */
  predicate CutAt(s: string, r: string, k: nat, drop: CharClass)
    requires k + |r| <= |s|
  {
    s[k..k + |r|] == r && AllIn(s[..k], drop) && AllIn(s[k + |r|..], drop)
  }

  /**
   * Removes every leading and every trailing character in `drop`:
   * `trim()` with `Whitespace`, `trim_matches(c)` with `Only(c)`.
   * What is left is a contiguous piece of `s` that neither starts nor
   * ends with a dropped character, and everything cut away on either side
   * was a dropped character.
   */
  function Trim(s: string, drop: CharClass): (r: string)
    ensures KeptAtEnds(r, drop)
    ensures exists k :: 0 <= k <= |s| - |r| && CutAt(s, r, k, drop)
  {
    var t := TrimStart(s, drop);
    var r := TrimEnd(t, drop);
    CutFromBothEnds(s, t, r, drop);
    r
  }

  /**
   * Cutting a dropped prefix from `s`, leaving `t`, and then a dropped
   * suffix from `t`, leaving `r`, cuts `r` out of `s` at `|s| - |t|`;
   * when `t` does not start and `r` does not end with a dropped
   * character, `r` is kept at both ends.
   */
  lemma CutFromBothEnds(s: string, t: string, r: string, drop: CharClass)
    requires |t| <= |s| && t == s[|s| - |t|..] && AllIn(s[..|s| - |t|], drop)
    requires |r| <= |t| && r == t[..|r|] && AllIn(t[|r|..], drop)
    requires t == [] || !In(t[0], drop)
    requires r == [] || !In(r[|r| - 1], drop)
    ensures KeptAtEnds(r, drop)
    ensures CutAt(s, r, |s| - |t|, drop)
  {
    var k := |s| - |t|;
    assert s[k..k + |r|] == r;
    assert s[k + |r|..] == t[|r|..];
  }

  /** A string that is kept at both ends is left as it is by a trim. */
  lemma TrimLeavesKept(s: string, drop: CharClass)
    requires KeptAtEnds(s, drop)
    ensures Trim(s, drop) == s
  {
    assert TrimStart(s, drop) == s;
    assert TrimEnd(s, drop) == s;
  }

  /** Trimming a second time changes nothing. */
  lemma TrimIdempotent(s: string, drop: CharClass)
    ensures Trim(Trim(s, drop), drop) == Trim(s, drop)
  {
    TrimLeavesKept(Trim(s, drop), drop);
  }

  /**
   * `s.split_once(sep)`: the text before the first `sep` and the text
   * after it, or `None` when `s` has no `sep`.
   */
  function SplitOnce(s: string, sep: char): (r: Option<(string, string)>)
    ensures r.None? <==> sep !in s
    ensures r.Some? ==> s == r.value.0 + [sep] + r.value.1 && sep !in r.value.0
  {
    if s == [] then None
    else if s[0] == sep then Some(([], s[1..]))
    else
      match SplitOnce(s[1..], sep)
      case None => None
      case Some((before, after)) =>
        assert s == [s[0]] + s[1..];
        Some(([s[0]] + before, after))
  }

  /**
   * The split is at the FIRST separator: whatever follows it, further
   * separators included, is the second part.
   */
  lemma {:induction false} SplitOnceAtFirst(before: string, after: string, sep: char)
    requires sep !in before
    ensures SplitOnce(before + [sep] + after, sep) == Some((before, after))
  {
    var s := before + [sep] + after;
    if before != [] {
      assert s[0] == before[0] && s[1..] == before[1..] + [sep] + after;
      SplitOnceAtFirst(before[1..], after, sep);
      assert [before[0]] + before[1..] == before;
    }
  }
}
