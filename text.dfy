/**
 * The Python string primitives the service relies on: `str.strip()` with no
 * argument, `startswith`/`endswith`, substring containment, and
 * `"\n".join(...)` together with its inverse `split("\n")`.
 */
module PyText {

  /** Python's `str.isspace()` for one code point: the characters `strip()` removes. */
  predicate IsSpace(c: char) {
    || ('\U{0009}' <= c <= '\U{000D}')
    || ('\U{001C}' <= c <= '\U{0020}')
    || c == '\U{0085}' || c == '\U{00A0}' || c == '\U{1680}'
    || ('\U{2000}' <= c <= '\U{200A}')
    || c == '\U{2028}' || c == '\U{2029}' || c == '\U{202F}' || c == '\U{205F}' || c == '\U{3000}'
  }

  predicate AllSpace(s: string) {
    forall k :: 0 <= k < |s| ==> IsSpace(s[k])
  }

  /** No whitespace at either end. */
  predicate IsTrimmed(s: string) {
    s == [] || (!IsSpace(s[0]) && !IsSpace(s[|s| - 1]))
  }

  /**
   * `r` is what `s.strip()` returns: a slice of `s` that leaves only
   * whitespace on both sides and has no whitespace at its own ends.
   */
  ghost predicate IsStripOf(s: string, r: string) {
    exists i, j :: 0 <= i <= j <= |s| && s[i..j] == r && AllSpace(s[..i]) && AllSpace(s[j..]) && IsTrimmed(r)
  }

  /** `s.lstrip()`: the suffix of `s` after its leading whitespace. */
  function StripLeading(s: string): (r: string)
    ensures |r| <= |s| && r == s[|s| - |r|..]
    ensures AllSpace(s[..|s| - |r|])
    ensures r != [] ==> !IsSpace(r[0])
    decreases |s|
  {
    if s != [] && IsSpace(s[0]) then
      var r := StripLeading(s[1..]);
      LeadingStep(s, r);
      r
    else s
  }

  lemma LeadingStep(s: string, r: string)
    requires s != [] && IsSpace(s[0]) && |r| <= |s| - 1
    requires r == s[1..][|s| - 1 - |r|..] && AllSpace(s[1..][..|s| - 1 - |r|])
    ensures r == s[|s| - |r|..] && AllSpace(s[..|s| - |r|])
  {
    assert s[1..][|s| - 1 - |r|..] == s[|s| - |r|..];
    assert s[..|s| - |r|] == [s[0]] + s[1..][..|s| - 1 - |r|];
  }

  /** `s.rstrip()`: the prefix of `s` before its trailing whitespace. */
  function StripTrailing(s: string): (r: string)
    ensures |r| <= |s| && r == s[..|r|]
    ensures AllSpace(s[|r|..])
    ensures r != [] ==> !IsSpace(r[|r| - 1])
    decreases |s|
  {
    if s != [] && IsSpace(s[|s| - 1]) then
      var r := StripTrailing(s[..|s| - 1]);
      TrailingStep(s, r);
      r
    else s
  }

  lemma TrailingStep(s: string, r: string)
    requires s != [] && IsSpace(s[|s| - 1]) && |r| <= |s| - 1
    requires r == s[..|s| - 1][..|r|] && AllSpace(s[..|s| - 1][|r|..])
    ensures r == s[..|r|] && AllSpace(s[|r|..])
  {
    assert s[..|s| - 1][..|r|] == s[..|r|];
    assert s[|r|..] == s[..|s| - 1][|r|..] + [s[|s| - 1]];
  }

  /** `s.strip()`. */
  function Strip(s: string): (r: string)
    ensures |r| <= |s|
    ensures IsTrimmed(r)
  {
    var l := StripLeading(s);
    var r := StripTrailing(l);
    assert r != [] ==> r[0] == l[0];
    r
  }

  lemma {:induction false} StripLeadingAt(s: string, i: nat)
    requires i <= |s| && AllSpace(s[..i])
    requires i == |s| || !IsSpace(s[i])
    ensures StripLeading(s) == s[i..]
    decreases i
  {
    if i > 0 {
      LeadingShift(s, i);
      StripLeadingAt(s[1..], i - 1);
    }
  }

  /** Dropping a leading whitespace character shifts the slices by one. */
  lemma LeadingShift(s: string, i: nat)
    requires 0 < i <= |s| && AllSpace(s[..i])
    ensures IsSpace(s[0]) && AllSpace(s[1..][..i - 1])
    ensures s[1..][i - 1..] == s[i..]
    ensures i < |s| ==> s[1..][i - 1] == s[i]
  {
    assert s[..i][0] == s[0];
    assert s[1..][..i - 1] == s[..i][1..];
  }

  lemma {:induction false} StripTrailingAt(s: string, j: nat)
    requires j <= |s| && AllSpace(s[j..])
    requires j == 0 || !IsSpace(s[j - 1])
    ensures StripTrailing(s) == s[..j]
    decreases |s| - j
  {
    if j < |s| {
      TrailingShift(s, j);
      StripTrailingAt(s[..|s| - 1], j);
    }
  }

  /** Dropping a trailing whitespace character leaves the slices before it alone. */
  lemma TrailingShift(s: string, j: nat)
    requires j < |s| && AllSpace(s[j..])
    ensures IsSpace(s[|s| - 1]) && AllSpace(s[..|s| - 1][j..])
    ensures s[..|s| - 1][..j] == s[..j]
    ensures j > 0 ==> s[..|s| - 1][j - 1] == s[j - 1]
  {
    assert s[j..][|s| - 1 - j] == s[|s| - 1];
    assert forall m :: 0 <= m < |s| - 1 - j ==> s[..|s| - 1][j..][m] == s[j..][m];
  }

  lemma AllSpaceConcat(a: string, b: string)
    requires AllSpace(a) && AllSpace(b)
    ensures AllSpace(a + b)
  {
  }

  /** Where the slice `strip()` keeps lies. */
  lemma StripSlice(s: string) returns (i: nat, j: nat)
    ensures i <= j <= |s| && s[i..j] == Strip(s) && AllSpace(s[..i]) && AllSpace(s[j..])
  {
    var l := StripLeading(s);
    var r := StripTrailing(l);
    i, j := SliceOfTwoStrips(s, l, r);
    StripUnfold(s);
  }

  /**
   * If `l` is a suffix of `s` with only whitespace before it, and `r` a
   * prefix of `l` with only whitespace after it, then `r` is a slice of `s`
   * with only whitespace on both sides.
   */
  lemma SliceOfTwoStrips(s: string, l: string, r: string) returns (i: nat, j: nat)
    requires |l| <= |s| && l == s[|s| - |l|..] && AllSpace(s[..|s| - |l|])
    requires |r| <= |l| && r == l[..|r|] && AllSpace(l[|r|..])
    ensures i <= j <= |s| && s[i..j] == r && AllSpace(s[..i]) && AllSpace(s[j..])
  {
    i := |s| - |l|;
    j := i + |r|;
    SlicesOfSuffix(s, i, j);
  }

  /** `Strip` meets IsStripOf; with StripUnique, IsStripOf pins it down. */
  lemma StripIsStripOf(s: string)
    ensures IsStripOf(s, Strip(s))
  {
    var i, j := StripSlice(s);
    StripOfAt(s, Strip(s), i, j);
  }

  lemma StripOfAt(s: string, r: string, i: nat, j: nat)
    requires i <= j <= |s| && s[i..j] == r && AllSpace(s[..i]) && AllSpace(s[j..]) && IsTrimmed(r)
    ensures IsStripOf(s, r)
  {
  }

  /** `strip()` is characterised by IsStripOf: any slice that meets it is the result. */
  lemma StripUnique(s: string, r: string)
    requires IsStripOf(s, r)
    ensures Strip(s) == r
  {
    var i, j :| 0 <= i <= j <= |s| && s[i..j] == r && AllSpace(s[..i]) && AllSpace(s[j..]) && IsTrimmed(r);
    StripAt(s, i, j);
  }

  /** A slice with only whitespace outside it and none at its ends is what `strip()` keeps. */
  lemma StripAt(s: string, i: nat, j: nat)
    requires i <= j <= |s| && AllSpace(s[..i]) && AllSpace(s[j..]) && IsTrimmed(s[i..j])
    ensures Strip(s) == s[i..j]
  {
    if i == j {
      StripBlankAt(s, i);
    } else {
      assert s[i..j][0] == s[i] && s[i..j][j - i - 1] == s[j - 1];
      StripNonBlankAt(s, i, j);
    }
  }

  lemma StripBlankAt(s: string, i: nat)
    requires i <= |s| && AllSpace(s[..i]) && AllSpace(s[i..])
    ensures Strip(s) == []
  {
    assert s == s[..i] + s[i..];
    AllSpaceConcat(s[..i], s[i..]);
    assert s[..|s|] == s;
    StripLeadingAt(s, |s|);
  }

  lemma StripNonBlankAt(s: string, i: nat, j: nat)
    requires i < j <= |s| && AllSpace(s[..i]) && AllSpace(s[j..])
    requires !IsSpace(s[i]) && !IsSpace(s[j - 1])
    ensures Strip(s) == s[i..j]
  {
    StripLeadingAt(s, i);
    TrailingOfSuffix(s, i, j);
    StripUnfold(s);
  }

  lemma TrailingOfSuffix(s: string, i: nat, j: nat)
    requires i < j <= |s| && AllSpace(s[j..]) && !IsSpace(s[j - 1])
    ensures StripTrailing(s[i..]) == s[i..j]
  {
    SlicesOfSuffix(s, i, j);
    StripTrailingAt(s[i..], j - i);
  }

  lemma StripUnfold(s: string)
    ensures Strip(s) == StripTrailing(StripLeading(s))
  {
  }

  lemma SlicesOfSuffix(s: string, i: nat, j: nat)
    requires i <= j <= |s|
    ensures s[i..][..j - i] == s[i..j]
    ensures s[i..][j - i..] == s[j..]
    ensures i < j ==> s[i..][j - i - 1] == s[j - 1]
  {
  }

  lemma StripIdempotent(s: string)
    ensures Strip(Strip(s)) == Strip(s)
  {
    StripTrimmed(Strip(s));
  }

  lemma StripAllSpace(s: string)
    requires AllSpace(s)
    ensures Strip(s) == []
  {
    assert s[0..0] == [] && s[..0] == [] && s[0..] == s;
    StripUnique(s, []);
  }

  /** A text with a non-whitespace character does not strip to the empty string. */
  lemma NonBlankStripsNonEmpty(s: string, k: nat)
    requires k < |s| && !IsSpace(s[k])
    ensures Strip(s) != []
  {
    LeadingKeeps(s, k);
    TrailingKeepsFirst(StripLeading(s));
    StripUnfold(s);
  }

  /** `lstrip()` keeps every character from the first non-whitespace one on. */
  lemma {:induction false} LeadingKeeps(s: string, k: nat)
    requires k < |s| && !IsSpace(s[k])
    ensures |StripLeading(s)| >= |s| - k
    decreases k
  {
    if IsSpace(s[0]) {
      assert s[1..][k - 1] == s[k];
      LeadingKeeps(s[1..], k - 1);
    }
  }

  /** `rstrip()` of a text that starts with a non-whitespace character keeps that character. */
  lemma {:induction false} TrailingKeepsFirst(s: string)
    requires s != [] && !IsSpace(s[0])
    ensures StripTrailing(s) != []
    decreases |s|
  {
    if IsSpace(s[|s| - 1]) {
      assert s[..|s| - 1][0] == s[0];
      TrailingKeepsFirst(s[..|s| - 1]);
    }
  }

  /** A string with no whitespace at its ends is left alone. */
  lemma StripTrimmed(s: string)
    requires IsTrimmed(s)
    ensures Strip(s) == s
  {
    assert s[0..|s|] == s && s[..0] == [] && s[|s|..] == [];
    StripUnique(s, s);
  }

  lemma SlicesOfPadded(pre: string, s: string, post: string, i: nat, j: nat)
    requires i <= j <= |s|
    ensures (pre + s + post)[|pre| + i..|pre| + j] == s[i..j]
    ensures (pre + s + post)[..|pre| + i] == pre + s[..i]
    ensures (pre + s + post)[|pre| + j..] == s[j..] + post
  {
    var t := pre + s + post;
    assert t[|pre| + i..|pre| + j] == s[i..j];
    assert t[..|pre| + i] == pre + s[..i];
    assert t[|pre| + j..] == s[j..] + post;
  }

  /** Surrounding whitespace does not change what `strip()` returns. */
  lemma StripPadded(pre: string, s: string, post: string)
    requires AllSpace(pre) && AllSpace(post)
    ensures Strip(pre + s + post) == Strip(s)
  {
    var i, j := StripSlice(s);
    PaddedStripOf(pre, s, post, i, j);
    StripUnique(pre + s + post, Strip(s));
  }

  /** A stripped slice of `s` stays the stripped slice once `s` is padded with whitespace. */
  lemma PaddedStripOf(pre: string, s: string, post: string, i: nat, j: nat)
    requires AllSpace(pre) && AllSpace(post)
    requires i <= j <= |s| && AllSpace(s[..i]) && AllSpace(s[j..]) && IsTrimmed(s[i..j])
    ensures IsStripOf(pre + s + post, s[i..j])
  {
    SlicesOfPadded(pre, s, post, i, j);
    AllSpaceConcat(pre, s[..i]);
    AllSpaceConcat(s[j..], post);
    StripOfAt(pre + s + post, s[i..j], |pre| + i, |pre| + j);
  }

  predicate StartsWith(s: string, prefix: string) {
    |prefix| <= |s| && s[..|prefix|] == prefix
  }

  predicate EndsWith(s: string, suffix: string) {
    |suffix| <= |s| && s[|s| - |suffix|..] == suffix
  }

  lemma StartsWithExtended(s: string, t: string, prefix: string)
    requires StartsWith(s, prefix)
    ensures StartsWith(s + t, prefix)
  {
    assert (s + t)[..|prefix|] == s[..|prefix|];
  }

  /** Python's `sub in s` for strings. */
  ghost predicate Contains(s: string, sub: string) {
    exists i, j :: 0 <= i <= j <= |s| && s[i..j] == sub
  }

  lemma ContainedIsShorter(s: string, sub: string)
    requires Contains(s, sub)
    ensures |sub| <= |s|
  {
    var i, j :| 0 <= i <= j <= |s| && s[i..j] == sub;
  }

  lemma ContainsItself(s: string)
    ensures Contains(s, s)
  {
    assert s[0..|s|] == s;
  }

  lemma ContainsInConcat(x: string, y: string, sub: string)
    requires Contains(x, sub) || Contains(y, sub)
    ensures Contains(x + y, sub)
  {
    var s := x + y;
    if Contains(x, sub) {
      var i, j :| 0 <= i <= j <= |x| && x[i..j] == sub;
      assert s[i..j] == x[i..j];
    } else {
      var i, j :| 0 <= i <= j <= |y| && y[i..j] == sub;
      assert s[|x| + i..|x| + j] == y[i..j];
    }
  }

  /** The concatenation of `parts`, in order: how an f-string template is assembled. */
  function Concat(parts: seq<string>): string
    decreases |parts|
  {
    if |parts| == 0 then "" else parts[0] + Concat(parts[1..])
  }

  /** A concatenation of single-line parts is a single line. */
  lemma {:induction false} NoNewlineInConcat(parts: seq<string>)
    requires forall k :: 0 <= k < |parts| ==> '\n' !in parts[k]
    ensures '\n' !in Concat(parts)
    decreases |parts|
  {
    if |parts| > 0 {
      NoNewlineInConcat(parts[1..]);
    }
  }

  /** Every part is present, verbatim, in the concatenation. */
  lemma {:induction false} ContainsPart(parts: seq<string>, k: nat)
    requires k < |parts|
    ensures Contains(Concat(parts), parts[k])
    decreases |parts|
  {
    if k == 0 {
      ContainsItself(parts[0]);
      ContainsInConcat(parts[0], Concat(parts[1..]), parts[0]);
    } else {
      ContainsPart(parts[1..], k - 1);
      ContainsInConcat(parts[0], Concat(parts[1..]), parts[k]);
    }
  }

  lemma ConcatStartsWithFirst(parts: seq<string>)
    requires |parts| >= 1
    ensures StartsWith(Concat(parts), parts[0])
  {
    var r := Concat(parts);
    assert r[..|parts[0]|] == parts[0];
  }

  lemma SliceIsContained(s: string, i: nat, j: nat)
    requires i <= j <= |s|
    ensures Contains(s, s[i..j])
  {
  }

  lemma ContainsTransitive(a: string, b: string, c: string)
    requires Contains(a, b) && Contains(b, c)
    ensures Contains(a, c)
  {
    var i, j :| 0 <= i <= j <= |a| && a[i..j] == b;
    var k, l :| 0 <= k <= l <= |b| && b[k..l] == c;
    SliceOfSlice(a, i, j, k, l);
    SliceIsContained(a, i + k, i + l);
  }

  lemma SliceOfSlice(a: string, i: nat, j: nat, k: nat, l: nat)
    requires i <= j <= |a| && k <= l <= j - i
    ensures i + l <= |a| && a[i..j][k..l] == a[i + k..i + l]
  {
    assert forall m :: 0 <= m < l - k ==> a[i..j][k..l][m] == a[i + k + m];
  }

  lemma StrippedIsContained(s: string)
    ensures Contains(s, Strip(s))
  {
    var i, j := StripSlice(s);
  }

  /** `"\n".join(lines)`. */
  function JoinLines(lines: seq<string>): string
    decreases |lines|
  {
    if |lines| == 0 then ""
    else if |lines| == 1 then lines[0]
    else lines[0] + "\n" + JoinLines(lines[1..])
  }

  /** `s.split("\n")`: always at least one piece. */
  function SplitLines(s: string): (pieces: seq<string>)
    ensures |pieces| >= 1
    decreases |s|
  {
    if |s| == 0 then [""]
    else if s[0] == '\n' then [""] + SplitLines(s[1..])
    else
      var rest := SplitLines(s[1..]);
      [[s[0]] + rest[0]] + rest[1..]
  }

  /** No piece of a split holds a newline. */
  lemma {:induction false} SplitPiecesSingleLine(s: string)
    ensures forall k :: 0 <= k < |SplitLines(s)| ==> '\n' !in SplitLines(s)[k]
    decreases |s|
  {
    if |s| > 0 {
      SplitPiecesSingleLine(s[1..]);
      if s[0] != '\n' {
        var rest := SplitLines(s[1..]);
        assert '\n' !in [s[0]] + rest[0];
      }
    }
  }

  /** Splitting at a newline splits the two sides independently. */
  lemma {:induction false} SplitAtNewline(x: string, y: string)
    ensures SplitLines(x + "\n" + y) == SplitLines(x) + SplitLines(y)
    decreases |x|
  {
    if |x| == 0 {
      assert x + "\n" + y == "\n" + y;
      assert ("\n" + y)[1..] == y;
    } else {
      var s := x + "\n" + y;
      assert s[0] == x[0];
      assert s[1..] == x[1..] + "\n" + y;
      SplitAtNewline(x[1..], y);
    }
  }

  lemma {:induction false} SplitNoNewline(x: string)
    requires '\n' !in x
    ensures SplitLines(x) == [x]
    decreases |x|
  {
    if |x| > 0 {
      assert x[0] != '\n' by { assert x[0] in x; }
      assert '\n' !in x[1..] by {
        forall k | 0 <= k < |x| - 1 ensures x[1..][k] != '\n' { assert x[1..][k] == x[k + 1]; }
      }
      SplitNoNewline(x[1..]);
      assert [x[0]] + x[1..] == x;
    }
  }

  /** Joining lines that hold no newline and splitting again gives the lines back. */
  lemma {:induction false} SplitJoinLines(lines: seq<string>)
    requires |lines| >= 1
    requires forall k :: 0 <= k < |lines| ==> '\n' !in lines[k]
    ensures SplitLines(JoinLines(lines)) == lines
    decreases |lines|
  {
    if |lines| == 1 {
      SplitNoNewline(lines[0]);
    } else {
      SplitNoNewline(lines[0]);
      SplitJoinLines(lines[1..]);
      SplitAtNewline(lines[0], JoinLines(lines[1..]));
      assert [lines[0]] + lines[1..] == lines;
    }
  }
}
