/**
  `String.trimmingCharacters(in: .whitespacesAndNewlines)` over Unicode
  scalars.
 */
module TextTrim {

  /** Foundation's `whitespacesAndNewlines`: general category Z*, the tab,
      U+000A...U+000D and U+0085. */
  predicate IsWhitespaceOrNewline(c: char)
  {
    || c == '\t'
    || '\n' <= c <= '\r'
    || c == ' '
    || c == '\U{85}'
    || c == '\U{A0}'
    || c == '\U{1680}'
    || '\U{2000}' <= c <= '\U{200A}'
    || c == '\U{2028}'
    || c == '\U{2029}'
    || c == '\U{202F}'
    || c == '\U{205F}'
    || c == '\U{3000}'
  }

  predicate AllWhitespace(s: string)
  {
    forall i :: 0 <= i < |s| ==> IsWhitespaceOrNewline(s[i])
  }

  /** Neither starts nor ends with whitespace or a newline. */
  predicate IsTrimmed(s: string)
  {
    |s| == 0 || (!IsWhitespaceOrNewline(s[0]) && !IsWhitespaceOrNewline(s[|s| - 1]))
  }

  /** `r` is what remains of `s` once a whitespace prefix and a whitespace
      suffix are cut off, and nothing more can be cut. */
  ghost predicate IsTrimOf(s: string, r: string)
  {
    exists i, j :: CutsAt(s, i, j, r)
  }

  /** `r` is `s[i..j]`, with only whitespace cut on either side. */
  predicate CutsAt(s: string, i: int, j: int, r: string)
  {
    0 <= i <= j <= |s| && r == s[i..j]
      && AllWhitespace(s[..i]) && AllWhitespace(s[j..]) && IsTrimmed(r)
  }

  function TrimLeading(s: string): (r: string)
    ensures |r| <= |s| && r == s[|s| - |r|..]
    ensures AllWhitespace(s[..|s| - |r|])
    ensures |r| == 0 || !IsWhitespaceOrNewline(r[0])
  {
    if |s| > 0 && IsWhitespaceOrNewline(s[0]) then TrimLeading(s[1..]) else s
  }

  function TrimTrailing(s: string): (r: string)
    ensures |r| <= |s| && r == s[..|r|]
    ensures AllWhitespace(s[|r|..])
    ensures |r| == 0 || !IsWhitespaceOrNewline(r[|r| - 1])
  {
    if |s| > 0 && IsWhitespaceOrNewline(s[|s| - 1]) then TrimTrailing(s[..|s| - 1]) else s
  }

  function Trim(s: string): (r: string)
    ensures IsTrimOf(s, r)
  {
    var a := TrimLeading(s);
    var r := TrimTrailing(a);
    TrimCuts(s, a, r);
    r
  }

  /** Cutting a whitespace prefix off `s` to get `a`, then a whitespace
      suffix off `a` to get `r`, cuts `s` at `|s| - |a|` and
      `|s| - |a| + |r|`. */
  lemma TrimCuts(s: string, a: string, r: string)
    requires |a| <= |s| && a == s[|s| - |a|..] && AllWhitespace(s[..|s| - |a|])
    requires |a| == 0 || !IsWhitespaceOrNewline(a[0])
    requires |r| <= |a| && r == a[..|r|] && AllWhitespace(a[|r|..])
    requires |r| == 0 || !IsWhitespaceOrNewline(r[|r| - 1])
    ensures CutsAt(s, |s| - |a|, |s| - |a| + |r|, r)
  {
    var i := |s| - |a|;
    var j := i + |r|;
    assert a == s[i..];
    assert r == a[..|r|];
    forall k | 0 <= k < |r|
      ensures r[k] == s[i..j][k]
    {
      assert r[k] == a[k] == s[i + k];
    }
    assert r == s[i..j];
    forall k | 0 <= k < |s| - j
      ensures s[j..][k] == a[|r|..][k]
    {
      assert a[|r| + k] == s[j + k];
    }
    assert s[j..] == a[|r|..];
  }

  /** Cutting whitespace off both ends has one outcome only. */
  lemma {:induction false} TrimOfUnique(s: string, r1: string, r2: string)
    requires IsTrimOf(s, r1) && IsTrimOf(s, r2)
    ensures r1 == r2
  {
    var i1, j1 :| CutsAt(s, i1, j1, r1);
    var i2, j2 :| CutsAt(s, i2, j2, r2);
    if |r1| > 0 {
      KeptScalarOutsideCuts(s, i2, j2, i1);
      KeptScalarOutsideCuts(s, i2, j2, j1 - 1);
    }
    if |r2| > 0 {
      KeptScalarOutsideCuts(s, i1, j1, i2);
      KeptScalarOutsideCuts(s, i1, j1, j2 - 1);
    }
  }

  /** A scalar that is not whitespace lies between a whitespace prefix
      `s[..i]` and a whitespace suffix `s[j..]`. */
  lemma KeptScalarOutsideCuts(s: string, i: int, j: int, k: int)
    requires 0 <= i <= j <= |s| && 0 <= k < |s|
    requires AllWhitespace(s[..i]) && AllWhitespace(s[j..])
    requires !IsWhitespaceOrNewline(s[k])
    ensures i <= k < j
  {
  }

  /** The trimmed result is the trim of itself. */
  lemma TrimmedIsOwnTrim(s: string)
    requires IsTrimmed(s)
    ensures IsTrimOf(s, s)
  {
    assert CutsAt(s, 0, |s|, s);
  }

  /** `Trim` accepts exactly the trimmed strings as fixed points. */
  lemma {:induction false} TrimFixedPoints(s: string)
    ensures Trim(s) == s <==> IsTrimmed(s)
  {
    if IsTrimmed(s) {
      TrimmedIsOwnTrim(s);
      TrimOfUnique(s, s, Trim(s));
    }
  }

  /** Trimming twice is trimming once. */
  lemma {:induction false} TrimIdempotent(s: string)
    ensures Trim(Trim(s)) == Trim(s)
  {
    TrimFixedPoints(Trim(s));
  }
}
