/**
 The text handling the join handshake relies on: Python's `str.strip()` with
 no argument, which removes leading and trailing whitespace.
 */
module Text {

  /** The characters Python's `str.isspace` accepts, and so the ones `strip()` removes. */
  predicate IsSpace(c: char)
  {
    || c == ' ' || c == '\t' || c == '\n' || c == '\r'
    || c == '\U{B}' || c == '\U{C}'
    || ('\U{1C}' <= c <= '\U{1F}')
    || c == '\U{85}' || c == '\U{A0}' || c == '\U{1680}'
    || ('\U{2000}' <= c <= '\U{200A}')
    || c == '\U{2028}' || c == '\U{2029}' || c == '\U{202F}' || c == '\U{205F}'
    || c == '\U{3000}'
  }

  /** Every character of `s` is whitespace. */
  ghost predicate Blank(s: string)
  {
    forall i :: 0 <= i < |s| ==> IsSpace(s[i])
  }

  /** `s` with its leading whitespace removed: a suffix of `s` preceded only by whitespace. */
  function TrimLeft(s: string): (r: string)
    ensures |r| <= |s| && r == s[|s| - |r|..]
    ensures r != [] ==> !IsSpace(r[0])
    ensures Blank(s[..|s| - |r|])
  {
    if s != [] && IsSpace(s[0]) then
      var r := TrimLeft(s[1..]);
      assert s[..|s| - |r|] == [s[0]] + s[1..][..|s| - 1 - |r|];
      r
    else
      assert s[..0] == [];
      s
  }

  /** `s` with its trailing whitespace removed: a prefix of `s` followed only by whitespace. */
  function TrimRight(s: string): (r: string)
    ensures |r| <= |s| && r == s[..|r|]
    ensures r != [] ==> r[0] == s[0] && !IsSpace(r[|r| - 1])
    ensures Blank(s[|r|..])
  {
    if s != [] && IsSpace(s[|s| - 1]) then
      var r := TrimRight(s[..|s| - 1]);
      assert s[|r|..] == s[..|s| - 1][|r|..] + [s[|s| - 1]];
      r
    else
      assert s[|s|..] == [];
      s
  }

  /** `r` is the slice of `s` starting at `k`, and everything around it is whitespace. */
  ghost predicate PaddedSliceAt(s: string, r: string, k: int)
  {
    && 0 <= k <= |s| - |r|
    && r == s[k..k + |r|]
    && Blank(s[..k])
    && Blank(s[k + |r|..])
  }

  /**
   Python's `s.strip()`: the slice of `s` that neither starts nor ends with
   whitespace, everything outside it being whitespace.
   */
  function Strip(s: string): (r: string)
    ensures exists k :: PaddedSliceAt(s, r, k)
  {
    var t := TrimLeft(s);
    var r := TrimRight(t);
    PaddedSliceOfSlices(s, t, r);
    r
  }

  /** A prefix `r` of a suffix `t` of `s`, with only whitespace cut off on either side, is a
      slice of `s` with only whitespace around it. */
  lemma PaddedSliceOfSlices(s: string, t: string, r: string)
    requires |t| <= |s| && t == s[|s| - |t|..] && Blank(s[..|s| - |t|])
    requires |r| <= |t| && r == t[..|r|] && Blank(t[|r|..])
    ensures PaddedSliceAt(s, r, |s| - |t|)
  {
    var k := |s| - |t|;
    assert t[|r|..] == s[k + |r|..];
    assert r == s[k..k + |r|];
  }

  /** Neither end of a stripped string is whitespace. */
  lemma StripEnds(s: string)
    ensures var r := Strip(s); r != [] ==> !IsSpace(r[0]) && !IsSpace(r[|r| - 1])
  {
    var t := TrimLeft(s);
    var r := TrimRight(t);
    assert Strip(s) == r;
    if r != [] {
      assert r[0] == t[0];
    }
  }

  /** A name strips to nothing exactly when it consists of whitespace only. */
  lemma StripEmptyIffBlank(s: string)
    ensures Strip(s) == [] <==> Blank(s)
  {
    var t := TrimLeft(s);
    if t == [] {
      assert Strip(s) == TrimRight(t) == [];
      assert s[..|s|] == s;
    } else {
      var k := |s| - |t|;
      assert t[0] == s[k] && !IsSpace(s[k]);
      assert TrimRight(t) != [] by {
        assert !IsSpace(t[0]);
      }
    }
  }
}
