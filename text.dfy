/** The few JavaScript string operations the widgets rely on:
    `includes`, `trim` and the piece `split(sep)[1]`. */
module Text {
  import opened Wrappers

  /** `pat` occurs in `s` starting at index `i`. */
  predicate OccursAt(s: string, pat: string, i: int) {
    0 <= i && i + |pat| <= |s| && s[i..i + |pat|] == pat
  }

  /** An occurrence in a suffix of `s` is an occurrence in `s`, shifted by
      where the suffix starts. */
  lemma OccursInSuffix(s: string, pat: string, i: int, k: int)
    requires 0 <= i <= |s| && 0 <= k
    ensures OccursAt(s[i..], pat, k) <==> OccursAt(s, pat, i + k)
  {
    if k + |pat| <= |s| - i {
      assert s[i..][k..k + |pat|] == s[i + k..i + k + |pat|];
    }
  }

  /** The index of the first occurrence of `pat` in `s` (`String.prototype.indexOf`),
      or None when there is none. */
  function IndexOf(s: string, pat: string): (r: Option<nat>)
    ensures r.Some? ==> OccursAt(s, pat, r.value)
    ensures r.Some? ==> forall k :: 0 <= k < r.value ==> !OccursAt(s, pat, k)
    ensures r.None? ==> forall k :: !OccursAt(s, pat, k)
    decreases |s|
  {
    if |pat| > |s| then None
    else if s[..|pat|] == pat then Some(0)
    else
      match IndexOf(s[1..], pat)
      case None =>
        assert forall k :: !OccursAt(s, pat, k) by {
          forall k ensures !OccursAt(s, pat, k) {
            if k >= 1 { OccursInSuffix(s, pat, 1, k - 1); }
          }
        }
        None
      case Some(k) =>
        OccursInSuffix(s, pat, 1, k);
        assert forall j :: 0 < j < k + 1 ==> !OccursAt(s, pat, j) by {
          forall j | 0 < j < k + 1 ensures !OccursAt(s, pat, j) {
            OccursInSuffix(s, pat, 1, j - 1);
          }
        }
        Some(k + 1)
  }

  /** `s.includes(pat)`. */
  function Contains(s: string, pat: string): (b: bool)
    ensures b <==> exists k :: OccursAt(s, pat, k)
  {
    IndexOf(s, pat).Some?
  }

  /** A string shorter than the pattern cannot contain it. */
  lemma ShorterNeverContains(s: string, pat: string)
    requires |s| < |pat|
    ensures !Contains(s, pat)
  {
  }

  /** A string without the pattern's first character cannot contain it. */
  lemma {:induction false} MissingFirstCharNeverContains(s: string, pat: string)
    requires |pat| > 0
    requires forall i :: 0 <= i < |s| ==> s[i] != pat[0]
    ensures !Contains(s, pat)
  {
    forall k | 0 <= k && k + |pat| <= |s| ensures !OccursAt(s, pat, k) {
      assert s[k..k + |pat|][0] == s[k];
    }
  }

  /** Both parts of a concatenation occur in it, where they were put. */
  lemma OccursInConcat(a: string, b: string)
    ensures OccursAt(a + b, a, 0) && OccursAt(a + b, b, |a|)
  {
    assert (a + b)[..|a|] == a;
    assert (a + b)[|a|..|a| + |b|] == b;
  }

  /** An occurrence survives appending text. */
  lemma OccursInLonger(s: string, pat: string, k: int, t: string)
    requires OccursAt(s, pat, k)
    ensures OccursAt(s + t, pat, k)
  {
    assert (s + t)[k..k + |pat|] == s[k..k + |pat|];
  }

  /** An occurrence at a known index means the string contains the pattern. */
  lemma OccursContains(s: string, pat: string, k: int)
    requires OccursAt(s, pat, k)
    ensures Contains(s, pat)
  {
  }

  /** A prefix of an occurring pattern occurs at the same place. */
  lemma PrefixOccurs(s: string, pat: string, short: string, k: int)
    requires OccursAt(s, pat, k)
    requires |short| <= |pat| && pat[..|short|] == short
    ensures OccursAt(s, short, k)
  {
    assert s[k..k + |short|] == s[k..k + |pat|][..|short|];
  }

  /** The ECMAScript WhiteSpace and LineTerminator code points, the set
      `String.prototype.trim` strips. */
  predicate IsJsSpace(c: char) {
    c == '\t' || c == '\n' || c == '\U{000B}' || c == '\U{000C}' || c == '\r' ||
    c == ' ' || c == '\U{00A0}' || c == '\U{1680}' ||
    ('\U{2000}' <= c <= '\U{200A}') ||
    c == '\U{2028}' || c == '\U{2029}' || c == '\U{202F}' || c == '\U{205F}' ||
    c == '\U{3000}' || c == '\U{FEFF}'
  }

  /** Every character of `s` is white space. */
  predicate IsBlank(s: string) {
    forall i :: 0 <= i < |s| ==> IsJsSpace(s[i])
  }

  /** `s` with its leading white space removed. */
  function TrimStart(s: string): (r: string)
    ensures |r| <= |s| && r == s[|s| - |r|..]
    ensures IsBlank(s[..|s| - |r|])
    ensures r != [] ==> !IsJsSpace(r[0])
    decreases |s|
  {
    if s != [] && IsJsSpace(s[0]) then
      var r := TrimStart(s[1..]);
      BlankCons(s, |s| - |r|);
      r
    else s
  }

  /** `s` with its trailing white space removed. */
  function TrimEnd(s: string): (r: string)
    ensures |r| <= |s| && r == s[..|r|]
    ensures IsBlank(s[|r|..])
    ensures r != [] ==> !IsJsSpace(r[|r| - 1])
    decreases |s|
  {
    if s != [] && IsJsSpace(s[|s| - 1]) then
      var r := TrimEnd(s[..|s| - 1]);
      BlankSnoc(s, |r|);
      r
    else s
  }

  /** A blank prefix grows by a leading white-space character. */
  lemma BlankCons(s: string, n: int)
    requires 1 <= n <= |s| && IsJsSpace(s[0]) && IsBlank(s[1..][..n - 1])
    ensures IsBlank(s[..n])
  {
    forall i | 0 <= i < n ensures IsJsSpace(s[..n][i]) {
      if i > 0 { assert s[..n][i] == s[1..][..n - 1][i - 1]; }
    }
  }

  /** A blank suffix grows by a trailing white-space character. */
  lemma BlankSnoc(s: string, n: int)
    requires 0 <= n < |s| && IsJsSpace(s[|s| - 1]) && IsBlank(s[..|s| - 1][n..])
    ensures IsBlank(s[n..])
  {
    forall i | 0 <= i < |s| - n ensures IsJsSpace(s[n..][i]) {
      if i < |s| - 1 - n { assert s[n..][i] == s[..|s| - 1][n..][i]; }
    }
  }

  /** `r` is the part of `s` starting at `i`, with only white space before
      and after it. */
  predicate TrimmedAt(s: string, i: int, r: string) {
    0 <= i && i + |r| <= |s| && s[i..i + |r|] == r && IsBlank(s[..i]) && IsBlank(s[i + |r|..])
  }

  /** Trimming both ends leaves nothing exactly when `s` is blank. */
  lemma TrimEnds(s: string)
    ensures TrimEnd(TrimStart(s)) == [] <==> IsBlank(s)
  {
    var t := TrimStart(s);
    var r := TrimEnd(t);
    var n := |s| - |t|;
    if r == [] {
      assert t[|r|..] == t;
      BlankJoin(s, n);
    } else {
      assert r[0] == t[0] == s[n];
    }
  }

  /** Trimming both ends leaves the middle of `s` between blank margins. */
  lemma TrimMiddle(s: string)
    ensures TrimmedAt(s, |s| - |TrimStart(s)|, TrimEnd(TrimStart(s)))
  {
    var t := TrimStart(s);
    var n := |s| - |t|;
    assert t == s[n..];
    var r := TrimEnd(t);
    assert r == t[..|r|] && IsBlank(t[|r|..]);
    assert s[n..][..|r|] == s[n..n + |r|];
    assert s[n..][|r|..] == s[n + |r|..];
  }

  /** A string whose two parts around `n` are blank is blank. */
  lemma BlankJoin(s: string, n: int)
    requires 0 <= n <= |s|
    requires IsBlank(s[..n]) && IsBlank(s[n..])
    ensures IsBlank(s)
  {
    forall i | 0 <= i < |s| ensures IsJsSpace(s[i]) {
      if i < n {
        assert s[i] == s[..n][i];
      } else {
        assert s[i] == s[n..][i - n];
      }
    }
  }

  /** `s.trim()`: the middle of `s` between blank margins, neither starting
      nor ending with white space, and empty exactly when `s` is blank. */
  function Trim(s: string): (r: string)
    ensures exists i :: TrimmedAt(s, i, r)
    ensures r != [] ==> !IsJsSpace(r[0]) && !IsJsSpace(r[|r| - 1])
    ensures r == [] <==> IsBlank(s)
  {
    TrimEnds(s);
    TrimMiddle(s);
    TrimEnd(TrimStart(s))
  }

  /** At most one non-empty middle of `s` has blank margins and non-blank
      ends, so the contract of Trim fixes its result. */
  lemma TrimmedUnique(s: string, i: int, r: string, j: int, q: string)
    requires TrimmedAt(s, i, r) && r != [] && !IsJsSpace(r[0]) && !IsJsSpace(r[|r| - 1])
    requires TrimmedAt(s, j, q) && q != [] && !IsJsSpace(q[0]) && !IsJsSpace(q[|q| - 1])
    ensures i == j && r == q
  {
    assert s[i] == r[0] && s[j] == q[0];
    BlankBefore(s, i);
    BlankBefore(s, j);
    var e, f := i + |r|, j + |q|;
    assert s[e - 1] == r[|r| - 1] && s[f - 1] == q[|q| - 1];
    BlankAfter(s, e);
    BlankAfter(s, f);
  }

  /** Each character of a blank prefix is white space. */
  lemma BlankBefore(s: string, n: int)
    requires 0 <= n <= |s| && IsBlank(s[..n])
    ensures forall k :: 0 <= k < n ==> IsJsSpace(s[k])
  {
    forall k | 0 <= k < n ensures IsJsSpace(s[k]) {
      assert s[..n][k] == s[k];
    }
  }

  /** Each character of a blank suffix is white space. */
  lemma BlankAfter(s: string, n: int)
    requires 0 <= n <= |s| && IsBlank(s[n..])
    ensures forall k :: n <= k < |s| ==> IsJsSpace(s[k])
  {
    forall k | n <= k < |s| ensures IsJsSpace(s[k]) {
      assert s[n..][k - n] == s[k];
    }
  }

  /** `s.split(sep)[1]`: the text after the first occurrence of `sep` and
      before the next one (or the end); None (`undefined`) when `sep` does
      not occur. */
  function SplitSecond(s: string, sep: string): (r: Option<string>)
    requires sep != []
    ensures r.None? <==> !Contains(s, sep)
    ensures r.Some? ==> SecondPieceAt(s, sep, IndexOf(s, sep).value + |sep|, r.value)
  {
    var first := IndexOf(s, sep);
    if first.None? then None
    else
      var start := first.value + |sep|;
      PieceOfRest(s, sep, start);
      Some(PieceUpTo(s[start..], sep))
  }

  /** The text of `rest` before its first `sep`, or all of it. */
  function PieceUpTo(rest: string, sep: string): string {
    match IndexOf(rest, sep)
    case None => rest
    case Some(k) => rest[..k]
  }

  /** The text from `start` up to the next `sep` (or the end) is a piece
      as SecondPieceAt describes. */
  lemma PieceOfRest(s: string, sep: string, start: int)
    requires sep != [] && 0 <= start <= |s|
    ensures SecondPieceAt(s, sep, start, PieceUpTo(s[start..], sep))
  {
    var rest := s[start..];
    NoOccurrenceInPiece(s, sep, start);
    match IndexOf(rest, sep)
    case None =>
      assert s[start..start + |rest|] == rest;
    case Some(k) =>
      OccursInSuffix(s, sep, start, k);
      assert s[start..start + k] == rest[..k];
  }

  /** No occurrence of `sep` starts inside the piece before the next one. */
  lemma NoOccurrenceInPiece(s: string, sep: string, start: int)
    requires 0 <= start <= |s|
    ensures |PieceUpTo(s[start..], sep)| <= |s| - start
    ensures forall j :: start <= j < start + |PieceUpTo(s[start..], sep)| ==> !OccursAt(s, sep, j)
  {
    var rest := s[start..];
    var piece := PieceUpTo(rest, sep);
    forall j | start <= j < start + |piece| ensures !OccursAt(s, sep, j) {
      OccursInSuffix(s, sep, start, j - start);
    }
  }

  /** `piece` starts at `start` in `s`, no occurrence of `sep` starts
      inside it, and it is followed by `sep` or by the end of `s`. */
  predicate SecondPieceAt(s: string, sep: string, start: int, piece: string) {
    0 <= start && start + |piece| <= |s| && s[start..start + |piece|] == piece &&
    (forall j :: start <= j < start + |piece| ==> !OccursAt(s, sep, j)) &&
    (start + |piece| == |s| || OccursAt(s, sep, start + |piece|))
  }

  /** A piece as SecondPieceAt describes is unique: it runs up to the first
      occurrence of `sep` at or after `start`, or to the end. */
  lemma SecondPieceUnique(s: string, sep: string, start: int, p: string, q: string)
    requires SecondPieceAt(s, sep, start, p) && SecondPieceAt(s, sep, start, q)
    ensures p == q
  {
    assert |p| == |q|;
  }
}
