// The shapes that are removed wherever they stand, the splitting into lines and
// segments, and what Redact promises of a whole message.

module Redaction {
  import opened Commands
  import opened TailPatterns
  import opened Redact

  // --- shapes ----------------------------------------------------------------

  /** The base64url alphabet of section 5 of RFC 4648. */
  predicate B64(c: char) {
    'A' <= c <= 'Z' || 'a' <= c <= 'z' || Digit(c) || c == '_' || c == '-'
  }

  predicate Hex(c: char) {
    Digit(c) || 'a' <= c <= 'f' || 'A' <= c <= 'F'
  }

  predicate Word(c: char) {
    'A' <= c <= 'Z' || 'a' <= c <= 'z' || Digit(c) || c == '_'
  }

  /** The textual form of section 4 of RFC 9562. */
  predicate IsUuid(u: string) {
    |u| == 36 && forall j :: 0 <= j < 36 ==> if j == 8 || j == 13 || j == 18 || j == 23 then u[j] == '-' else Hex(u[j])
  }

  /** How many base64url characters a text starts with. */
  function Lead(s: string): (n: nat)
    ensures n <= |s| && forall j :: 0 <= j < n ==> B64(s[j])
    ensures n < |s| ==> !B64(s[n])
  {
    if s == "" || !B64(s[0]) then 0 else 1 + Lead(s[1..])
  }

  /** Every unbroken run of 32 or more, masked. */
  function MaskRuns(s: string): string
    decreases |s|
  {
    if s == "" then ""
    else if Lead(s) >= 32 then Mask(s[..Lead(s)]) + MaskRuns(s[Lead(s)..])
    else [s[0]] + MaskRuns(s[1..])
  }

  /** A UUID stands at the front, between word boundaries. */
  predicate UuidFirst(s: string, inWord: bool) {
    |s| >= 36 && !inWord && IsUuid(s[..36]) && (|s| == 36 || !Word(s[36]))
  }

  /** Every UUID between word boundaries, masked; inWord says what came before. */
  function MaskUuids(s: string, inWord: bool): string
    decreases |s|
  {
    if s == "" then ""
    else if UuidFirst(s, inWord) then Mask(s[..36]) + MaskUuids(s[36..], true)
    else [s[0]] + MaskUuids(s[1..], Word(s[0]))
  }

  function RedactSegment(s: string): string {
    MaskRuns(MaskUuids(ReplaceTail(Unkeyed, ReplaceTail(Keyed, s)), false))
  }

  // --- no long run is left ---------------------------------------------------

  predicate NoLongRun(s: string) {
    s == "" || (Lead(s) < 32 && NoLongRun(s[1..]))
  }

  lemma {:induction false} LeadConcat(a: string, b: string)
    ensures Lead(a + b) == if Lead(a) == |a| then |a| + Lead(b) else Lead(a)
  {
    if a == "" {
      assert a + b == b;
    } else if B64(a[0]) {
      assert (a + b)[1..] == a[1..] + b;
      LeadConcat(a[1..], b);
    }
  }

  /** Two texts with no long run have none together where a run ends between them. */
  lemma {:induction false} NoLongConcat(a: string, b: string)
    requires NoLongRun(a) && NoLongRun(b)
    requires a == "" || !B64(a[|a| - 1]) || b == "" || !B64(b[0])
    ensures NoLongRun(a + b)
  {
    if a == "" {
      assert a + b == b;
    } else {
      assert (a + b)[1..] == a[1..] + b;
      LeadConcat(a, b);
      assert Lead(a) == |a| ==> B64(a[|a| - 1]);
      NoLongConcat(a[1..], b);
    }
  }

  function Pow10(k: nat): nat {
    if k == 0 then 1 else 10 * Pow10(k - 1)
  }

  lemma {:induction false} DecimalLength(n: nat, k: nat)
    requires k >= 1 && n < Pow10(k)
    ensures |Decimal(n)| <= k
  {
    assert Pow10(0) == 1 && Pow10(1) == 10;
    if n >= 10 {
      DecimalLength(n / 10, k - 1);
    }
  }

  lemma {:induction false} ShortNoLong(s: string)
    requires |s| < 32
    ensures NoLongRun(s)
  {
    if s != "" {
      ShortNoLong(s[1..]);
    }
  }

  /** The length of a text has fewer than 32 digits. */
  predicate Sized(s: string) {
    |Decimal(|s|)| < 32
  }

  lemma MaskNoLong(v: string)
    requires Sized(v)
    ensures NoLongRun(Mask(v))
  {
    ShortNoLong(MARKER);
    ShortNoLong(Decimal(|v|));
    ShortNoLong(CHARS);
    NoLongConcat(MARKER, Decimal(|v|));
    NoLongConcat(MARKER + Decimal(|v|), CHARS);
  }

  lemma {:induction false} RunsGone(s: string)
    requires Sized(s)
    ensures NoLongRun(MaskRuns(s))
    ensures Lead(s) < 32 ==> Lead(MaskRuns(s)) <= Lead(s)
    decreases |s|
  {
    if s != "" {
      var n := Lead(s);
      DecimalGrows(n, |s|);
      DecimalGrows(|s| - n, |s|);
      DecimalGrows(|s| - 1, |s|);
      if n >= 32 {
        MaskNoLong(s[..n]);
        MaskFacts(s[..n]);
        RunsGone(s[n..]);
        NoLongConcat(Mask(s[..n]), MaskRuns(s[n..]));
      } else {
        RunsGone(s[1..]);
        var t := MaskRuns(s);
        assert t[1..] == MaskRuns(s[1..]);
      }
    }
  }

  lemma {:induction false} NoLongWindow(s: string, i: int)
    requires NoLongRun(s) && 0 <= i && i + 32 <= |s|
    ensures exists j :: i <= j < i + 32 && !B64(s[j])
  {
    if i == 0 {
      assert !B64(s[Lead(s)]);
    } else {
      NoLongWindow(s[1..], i - 1);
      var j :| i - 1 <= j < i - 1 + 32 && !B64(s[1..][j]);
      assert !B64(s[j + 1]);
    }
  }

  lemma {:induction false} RunsStay(s: string)
    requires NoLongRun(s)
    ensures MaskRuns(s) == s
  {
    if s != "" {
      RunsStay(s[1..]);
    }
  }

  lemma UuidIsARun(s: string, inWord: bool)
    requires NoLongRun(s)
    ensures !UuidFirst(s, inWord)
  {
    if |s| >= 36 {
      NoLongWindow(s, 0);
      var j :| 0 <= j < 32 && !B64(s[j]);
      assert s[..36][j] == s[j];
    }
  }

  lemma {:induction false} UuidsStay(s: string, inWord: bool)
    requires NoLongRun(s)
    ensures MaskUuids(s, inWord) == s
    decreases |s|
  {
    if s != "" {
      UuidIsARun(s, inWord);
      UuidsStay(s[1..], Word(s[0]));
    }
  }

  // --- what every replacement keeps ------------------------------------------

  const SEP := " > "

  /** No separator in p, nor one begun in p and finished by what follows it. */
  predicate Closed(sep: string, p: string, end: string) {
    forall j :: 0 <= j < |p| ==> !At(p + end, sep, j)
  }

  predicate NoNewline(s: string) {
    forall j :: 0 <= j < |s| ==> s[j] != '\n'
  }

  lemma SwapCloses(a: string, r: string, x: string, b: string, end: string)
    requires Closed(SEP, a + r + b, end) && (end == "" || end == SEP)
    ensures Closed(SEP, a + Mask(x) + b, end)
  {
    forall j | 0 <= j < |a + Mask(x) + b| ensures !At(a + Mask(x) + b + end, SEP, j) {
      SwapClosesAt(a, r, x, b, end, j);
    }
  }

  lemma SwapClosesAt(a: string, r: string, x: string, b: string, end: string, j: int)
    requires Closed(SEP, a + r + b, end) && (end == "" || end == SEP)
    requires 0 <= j < |a + Mask(x) + b|
    ensures !At(a + Mask(x) + b + end, SEP, j)
  {
    var m := Mask(x);
    var s, t := a + r + b + end, a + m + b + end;
    MaskFacts(x);
    if j + 3 <= |t| {
      assert t[j] == t[j..j + 3][0] && t[j + 1] == t[j..j + 3][1] && t[j + 2] == t[j..j + 3][2];
      if j + 2 < |a| {
        assert s[j..j + 3] == a[j..j + 3] == t[j..j + 3];
        assert !At(s, SEP, j);
      } else if j + 2 == |a| {
        assert t[j + 2] == m[0];
      } else if j + 1 < |a| + |m| {
        assert j + 1 >= |a| && t[j + 1] == m[j + 1 - |a|];
      } else if j < |a| + |m| {
        assert t[j] == m[|m| - 1];
      } else {
        var d := |r| - |m|;
        assert s[j + d..j + d + 3] == t[j..j + 3];
        assert !At(s, SEP, j + d);
      }
    }
  }

  /** What a redacted segment needs of a text: both patterns settled, no separator
      or newline. */
  ghost predicate Kept(s: string, end: string) {
    Settled(Keyed, s) && Settled(Unkeyed, s) && Closed(SEP, s, end) && NoNewline(s)
  }

  lemma SwapKeeps(a: string, r: string, b: string, end: string)
    requires Kept(a + r + b, end) && (end == "" || end == SEP)
    requires |r| >= 10 && forall j :: 0 <= j < |r| ==> B64(r[j])
    ensures Kept(a + Mask(r) + b, end)
  {
    RunIsUnbroken(a, r, b);
    SwapSettles(Keyed, a, r, r, b);
    SwapSettles(Unkeyed, a, r, r, b);
    SwapCloses(a, r, r, b, end);
    SwapNoNewline(a, r, r, b);
  }

  lemma RunIsUnbroken(a: string, r: string, b: string)
    requires |r| >= 10 && forall j :: 0 <= j < |r| ==> B64(r[j])
    ensures Unbroken(a + r + b, |a|)
  {
    var s := a + r + b;
    forall k | 0 <= k < |a| < k + 10 ensures !At(s, MARKER, k) {
      assert s[k..k + 10][9] == s[k + 9] == r[k + 9 - |a|];
    }
  }

  lemma SwapNoNewline(a: string, r: string, x: string, b: string)
    requires NoNewline(a + r + b)
    ensures NoNewline(a + Mask(x) + b)
  {
    var s, t, d := a + r + b, a + Mask(x) + b, |r| - |Mask(x)|;
    MaskFacts(x);
    forall j | 0 <= j < |t| ensures t[j] != '\n' {
      if j < |a| {
        assert t[j] == s[j];
      } else if j < |a| + |Mask(x)| {
        assert t[j] == Mask(x)[j - |a|];
      } else {
        assert t[j] == s[j + d];
      }
    }
  }

  lemma Regroup(a: string, b: string, c: string)
    ensures a + (b + c) == a + b + c
  {
  }

  lemma LongRun(s: string, n: nat)
    requires n == Lead(s) && n >= 32
    ensures s == s[..n] + s[n..] && forall j :: 0 <= j < n ==> B64(s[..n][j])
    ensures MaskRuns(s) == Mask(s[..n]) + MaskRuns(s[n..])
  {
    var r := s[..n];
    forall j | 0 <= j < n ensures B64(r[j]) {
      assert r[j] == s[j];
    }
  }

  lemma {:induction false} RunsKeep(pre: string, s: string, end: string)
    requires Kept(pre + s, end) && (end == "" || end == SEP)
    ensures Kept(pre + MaskRuns(s), end)
    decreases |s|
  {
    if s != "" {
      if Lead(s) >= 32 {
        LongRun(s, Lead(s));
        var r, rest := s[..Lead(s)], s[Lead(s)..];
        Regroup(pre, r, rest);
        SwapKeeps(pre, r, rest, end);
        RunsKeep(pre + Mask(r), rest, end);
        Regroup(pre, Mask(r), MaskRuns(rest));
      } else {
        assert s == [s[0]] + s[1..];
        Regroup(pre, [s[0]], s[1..]);
        RunsKeep(pre + [s[0]], s[1..], end);
        Regroup(pre, [s[0]], MaskRuns(s[1..]));
      }
    }
  }

  lemma UuidAhead(s: string, inWord: bool)
    requires UuidFirst(s, inWord)
    ensures s == s[..36] + s[36..] && (forall j :: 0 <= j < 36 ==> B64(s[..36][j]))
    ensures MaskUuids(s, inWord) == Mask(s[..36]) + MaskUuids(s[36..], true)
  {
  }

  lemma {:induction false} UuidsKeep(pre: string, s: string, inWord: bool, end: string)
    requires Kept(pre + s, end) && (end == "" || end == SEP)
    ensures Kept(pre + MaskUuids(s, inWord), end)
    decreases |s|
  {
    if s != "" {
      if UuidFirst(s, inWord) {
        UuidAhead(s, inWord);
        var r, rest := s[..36], s[36..];
        Regroup(pre, r, rest);
        SwapKeeps(pre, r, rest, end);
        UuidsKeep(pre + Mask(r), rest, true, end);
        Regroup(pre, Mask(r), MaskUuids(rest, true));
      } else {
        assert s == [s[0]] + s[1..];
        Regroup(pre, [s[0]], s[1..]);
        UuidsKeep(pre + [s[0]], s[1..], Word(s[0]), end);
        Regroup(pre, [s[0]], MaskUuids(s[1..], Word(s[0])));
      }
    }
  }

  lemma TailCloses(pat: Pattern, s: string, end: string)
    requires Closed(SEP, s, end) && NoNewline(s) && (end == "" || end == SEP)
    ensures Closed(SEP, ReplaceTail(pat, s), end) && NoNewline(ReplaceTail(pat, s))
  {
    var i := FindIs(pat, s, 0);
    var found := Find(pat, s, 0);
    if found.Some? && !At(s, MARKER, found.value) {
      var v := found.value;
      NothingAfter(s, v);
      SwapCloses(s[..v], s[v..], s[v..], "", end);
      SwapNoNewline(s[..v], s[v..], s[v..], "");
    }
  }

  lemma {:induction false} DecimalGrows(m: nat, n: nat)
    requires m <= n
    ensures |Decimal(m)| <= |Decimal(n)|
  {
    if m >= 10 {
      DecimalGrows(m / 10, n / 10);
    }
  }

  // --- one segment -----------------------------------------------------------

  lemma SegmentKept(s: string, end: string)
    requires MarkerFree(s) && Closed(SEP, s, end) && NoNewline(s) && (end == "" || end == SEP)
    ensures Kept(RedactSegment(s), end)
  {
    TailsSettle(s);
    TailCloses(Keyed, s, end);
    var t := ReplaceTail(Keyed, s);
    TailCloses(Unkeyed, t, end);
    var u := ReplaceTail(Unkeyed, t);
    assert "" + u == u;
    UuidsKeep("", u, false, end);
    var w := MaskUuids(u, false);
    assert "" + w == w;
    RunsKeep("", w, end);
    assert "" + MaskRuns(w) == MaskRuns(w);
  }

  lemma {:induction false} UuidsShrink(s: string, inWord: bool)
    ensures |MaskUuids(s, inWord)| <= |s|
    decreases |s|
  {
    if s != "" {
      if UuidFirst(s, inWord) {
        assert Decimal(36) == Decimal(3) + [DigitChar(6)];
        UuidsShrink(s[36..], true);
      } else {
        UuidsShrink(s[1..], Word(s[0]));
      }
    }
  }

  lemma TailLength(pat: Pattern, s: string, k: nat)
    requires 1 <= k <= 20 && |s| < Pow10(k)
    ensures |ReplaceTail(pat, s)| < Pow10(k + 1)
  {
    var v := Find(pat, s, 0);
    if v.Some? && v.value <= |s| {
      DecimalGrows(|s| - v.value, |s|);
      DecimalLength(|s|, k);
    }
    assert Pow10(k) >= 10 by {
      assert Pow10(k - 1) >= 1;
    }
  }

  /** The longest text there can be. */
  const MAX_LENGTH: nat := 0x7fff_ffff_ffff_ffff

  lemma MaxLength()
    ensures MAX_LENGTH < Pow10(19)
  {
    assert Pow10(3) == 1000;
    assert Pow10(6) == 1_000_000;
    assert Pow10(9) == 1_000_000_000;
    assert Pow10(12) == 1_000_000_000_000;
    assert Pow10(15) == 1_000_000_000_000_000;
    assert Pow10(18) == 1_000_000_000_000_000_000;
  }

  /** A redacted segment has no long run. */
  lemma SegmentNoLong(s: string)
    requires |s| <= MAX_LENGTH
    ensures NoLongRun(RedactSegment(s))
  {
    MaxLength();
    var t := ReplaceTail(Keyed, s);
    TailLength(Keyed, s, 19);
    var u := ReplaceTail(Unkeyed, t);
    TailLength(Unkeyed, t, 20);
    UuidsShrink(u, false);
    var w := MaskUuids(u, false);
    DecimalGrows(|w|, |u|);
    DecimalLength(|u|, 21);
    RunsGone(w);
  }

  lemma SegmentStays(q: string, end: string)
    requires Kept(q, end) && NoLongRun(q)
    ensures RedactSegment(q) == q
  {
    SettledStays(Keyed, q);
    SettledStays(Unkeyed, q);
    UuidsStay(q, false);
    RunsStay(q);
  }

  // --- splitting and joining -------------------------------------------------

  /** The first place a separator stands, from i on. */
  function Cut(s: string, sep: string, i: nat): (k: Option<nat>)
    ensures k.Some? ==> At(s, sep, k.value) && forall j: nat :: i <= j < k.value ==> !At(s, sep, j)
    ensures k.None? ==> forall j: nat :: i <= j ==> !At(s, sep, j)
    decreases |s| - i
  {
    if i > |s| then None else if At(s, sep, i) then Some(i) else Cut(s, sep, i + 1)
  }

  function Split(s: string, sep: string): (ps: seq<string>)
    requires sep != ""
    ensures ps != []
    decreases |s|
  {
    match Cut(s, sep, 0)
    case None => [s]
    case Some(k) => [s[..k]] + Split(s[k + |sep|..], sep)
  }

  /** Pieces that a join keeps apart. */
  predicate Pieces(sep: string, ps: seq<string>) {
    ps != [] && Closed(sep, ps[0], if |ps| == 1 then "" else sep) && (|ps| > 1 ==> Pieces(sep, ps[1..]))
  }

  lemma {:induction false} SplitGivesPieces(s: string, sep: string)
    requires sep != ""
    ensures Pieces(sep, Split(s, sep))
    decreases |s|
  {
    var ps := Split(s, sep);
    match Cut(s, sep, 0)
    case None =>
      assert s + "" == s;
    case Some(k) =>
      var rest := s[k + |sep|..];
      SplitGivesPieces(rest, sep);
      assert ps[1..] == Split(rest, sep);
      forall j | 0 <= j < k ensures !At(s[..k] + sep, sep, j) {
        assert s == s[..k] + sep + rest;
        assert s[j..j + |sep|] == (s[..k] + sep)[j..j + |sep|];
        assert !At(s, sep, j);
      }
  }

  lemma CutAfter(p: string, sep: string, rest: string)
    requires sep != "" && Closed(sep, p, sep)
    ensures Cut(p + sep + rest, sep, 0) == Some(|p|)
  {
    var s := p + sep + rest;
    assert At(s, sep, |p|);
    forall j: nat | j < |p| ensures !At(s, sep, j) {
      assert s[j..j + |sep|] == (p + sep)[j..j + |sep|];
      assert !At(p + sep, sep, j);
    }
  }

  lemma CutNowhere(p: string, sep: string)
    requires sep != "" && Closed(sep, p, "")
    ensures Cut(p, sep, 0).None?
  {
    assert p + "" == p;
    assert forall j: nat :: j < |p| ==> !At(p, sep, j);
  }

  lemma {:induction false} SplitJoin(ps: seq<string>, sep: string)
    requires sep != "" && Pieces(sep, ps)
    ensures Split(Join(ps, sep), sep) == ps
    decreases |ps|
  {
    var p := ps[0];
    if |ps| == 1 {
      CutNowhere(p, sep);
    } else {
      var rest := Join(ps[1..], sep);
      SplitJoin(ps[1..], sep);
      CutAfter(p, sep, rest);
      var s := p + sep + rest;
      assert s[..|p|] == p && s[|p| + |sep|..] == rest;
    }
  }

  /** What a part of a text inherits from it. */
  predicate Inherits(p: string, s: string) {
    |p| <= |s| && (MarkerFree(s) ==> MarkerFree(p)) && (NoNewline(s) ==> NoNewline(p))
  }

  lemma SliceInherits(s: string, a: nat, b: nat)
    requires a <= b <= |s|
    ensures Inherits(s[a..b], s)
  {
    if MarkerFree(s) {
      forall k | 0 <= k <= b - a ensures !At(s[a..b], MARKER, k) {
        MarkerInSlice(s, a, b, k);
        assert !At(s, MARKER, a + k);
      }
    }
  }

  lemma MarkerInSlice(s: string, a: nat, b: nat, k: nat)
    requires a <= b <= |s|
    ensures At(s[a..b], MARKER, k) ==> At(s, MARKER, a + k)
  {
    if k + 10 <= b - a {
      Reslice(s, a, b, k, 10);
    }
  }

  /** Every part of a split is a slice of the text. */
  lemma {:induction false} SplitSlices(s: string, sep: string, k: nat) returns (a: nat, b: nat)
    requires sep != "" && k < |Split(s, sep)|
    ensures a <= b <= |s| && Split(s, sep)[k] == s[a..b]
    decreases |s|
  {
    var cut := Cut(s, sep, 0);
    if cut.None? {
      a, b := 0, |s|;
      assert s[0..|s|] == s;
    } else {
      var n := cut.value;
      var rest := s[n + |sep|..];
      assert Split(s, sep) == [s[..n]] + Split(rest, sep);
      if k == 0 {
        a, b := 0, n;
      } else {
        a, b := SplitSlices(rest, sep, k - 1);
        SliceOfTail(s, n + |sep|, a, b);
        a, b := n + |sep| + a, n + |sep| + b;
      }
    }
  }

  lemma SliceOfTail(s: string, c: nat, a: nat, b: nat)
    requires c <= |s| && a <= b <= |s| - c
    ensures s[c..][a..b] == s[c + a..c + b]
  {
  }

  lemma SplitInherits(s: string, sep: string, k: nat)
    requires sep != "" && k < |Split(s, sep)|
    ensures Inherits(Split(s, sep)[k], s)
  {
    var a, b := SplitSlices(s, sep, k);
    SliceInherits(s, a, b);
  }

  // --- lines and messages ----------------------------------------------------

  function RedactSegments(ps: seq<string>): (r: seq<string>)
    ensures |r| == |ps| && forall k :: 0 <= k < |ps| ==> r[k] == RedactSegment(ps[k])
  {
    if ps == [] then [] else [RedactSegment(ps[0])] + RedactSegments(ps[1..])
  }

  function RedactLine(line: string): string {
    Join(RedactSegments(Split(line, SEP)), SEP)
  }

  function RedactLines(ls: seq<string>): (r: seq<string>)
    ensures |r| == |ls| && forall k :: 0 <= k < |ls| ==> r[k] == RedactLine(ls[k])
  {
    if ls == [] then [] else [RedactLine(ls[0])] + RedactLines(ls[1..])
  }

  const NEWLINE := "\n"

  function Redacted(msg: string): string {
    Join(RedactLines(Split(msg, NEWLINE)), NEWLINE)
  }

  /** Redact: lines, and segments of lines, rewritten in place. */
  method RedactMessage(msg: string) returns (out: string)
    ensures out == Redacted(msg)
  {
    if msg == "" {
      EmptyStays();
      return msg;
    }
    var lines := Split(msg, NEWLINE);
    ghost var given := lines;
    for i := 0 to |lines|
      invariant |lines| == |given|
      invariant forall k :: 0 <= k < i ==> lines[k] == RedactLine(given[k])
      invariant forall k :: i <= k < |lines| ==> lines[k] == given[k]
    {
      var segments := Split(lines[i], SEP);
      ghost var was := segments;
      for j := 0 to |segments|
        invariant |segments| == |was|
        invariant forall k :: 0 <= k < j ==> segments[k] == RedactSegment(was[k])
        invariant forall k :: j <= k < |segments| ==> segments[k] == was[k]
      {
        segments := segments[j := RedactSegment(segments[j])];
      }
      assert segments == RedactSegments(was);
      lines := lines[i := Join(segments, SEP)];
    }
    assert lines == RedactLines(given);
    out := Join(lines, NEWLINE);
  }

  lemma EmptyStays()
    ensures Redacted("") == ""
  {
    assert forall j: nat :: !At("", NEWLINE, j) && !At("", SEP, j);
    assert Split("", NEWLINE) == [""] && Split("", SEP) == [""];
    assert forall i, v :: !MatchAt(Keyed, "", i, v) && !MatchAt(Unkeyed, "", i, v);
    SettledStays(Keyed, "");
    SettledStays(Unkeyed, "");
    assert RedactSegments([""]) == [""];
    assert RedactLines([""]) == [""];
  }

  // --- nothing is left -------------------------------------------------------

  lemma {:induction false} JoinNoLong(ps: seq<string>, sep: string)
    requires sep != "" && |sep| < 32 && !B64(sep[0]) && !B64(sep[|sep| - 1])
    requires forall k :: 0 <= k < |ps| ==> NoLongRun(ps[k])
    ensures NoLongRun(Join(ps, sep))
    decreases |ps|
  {
    if |ps| > 1 {
      JoinNoLong(ps[1..], sep);
      ShortNoLong(sep);
      NoLongConcat(ps[0], sep);
      NoLongConcat(ps[0] + sep, Join(ps[1..], sep));
    }
  }

  lemma LineNoLong(line: string)
    requires |line| <= MAX_LENGTH
    ensures NoLongRun(RedactLine(line))
  {
    var ps := Split(line, SEP);
    forall k | 0 <= k < |ps| ensures NoLongRun(RedactSegments(ps)[k]) {
      SplitInherits(line, SEP, k);
      SegmentNoLong(ps[k]);
    }
    JoinNoLong(RedactSegments(ps), SEP);
  }

  lemma MessageNoLong(msg: string)
    requires |msg| <= MAX_LENGTH
    ensures NoLongRun(Redacted(msg))
  {
    var ls := Split(msg, NEWLINE);
    forall k | 0 <= k < |ls| ensures NoLongRun(RedactLines(ls)[k]) {
      SplitInherits(msg, NEWLINE, k);
      LineNoLong(ls[k]);
    }
    JoinNoLong(RedactLines(ls), NEWLINE);
  }

  predicate UuidAt(s: string, i: int) {
    0 <= i <= |s| && UuidFirst(s[i..], i > 0 && Word(s[i - 1]))
  }

  predicate RunAt(s: string, i: int) {
    0 <= i && i + 32 <= |s| && forall j :: i <= j < i + 32 ==> B64(s[j])
  }

  predicate ContainsSecretShape(s: string) {
    exists i :: 0 <= i <= |s| && (UuidAt(s, i) || RunAt(s, i))
  }

  /** No UUID and no run of 32 or more base64url characters is left in any message. */
  lemma NothingLeft(msg: string)
    requires |msg| <= MAX_LENGTH
    ensures !ContainsSecretShape(Redacted(msg))
  {
    var out := Redacted(msg);
    MessageNoLong(msg);
    forall i | 0 <= i <= |out| ensures !UuidAt(out, i) && !RunAt(out, i) {
      if i + 32 <= |out| {
        NoLongWindow(out, i);
        var j :| i <= j < i + 32 && !B64(out[j]);
        if i + 36 <= |out| {
          assert out[i..][..36][j - i] == out[j];
        }
      }
    }
  }

  // --- once is enough --------------------------------------------------------

  /** A redacted segment stays as it is, and falls apart from the next as before. */
  lemma SegmentDone(p: string, end: string)
    requires MarkerFree(p) && NoNewline(p) && |p| <= MAX_LENGTH && Closed(SEP, p, end) && (end == "" || end == SEP)
    ensures var q := RedactSegment(p); Closed(SEP, q, end) && NoNewline(q) && RedactSegment(q) == q
  {
    SegmentKept(p, end);
    SegmentNoLong(p);
    SegmentStays(RedactSegment(p), end);
  }

  lemma {:induction false} PiecesKept(ps: seq<string>)
    requires Pieces(SEP, ps)
    requires forall k :: 0 <= k < |ps| ==> MarkerFree(ps[k]) && NoNewline(ps[k]) && |ps[k]| <= MAX_LENGTH
    ensures Pieces(SEP, RedactSegments(ps)) && RedactSegments(RedactSegments(ps)) == RedactSegments(ps)
    ensures forall k :: 0 <= k < |ps| ==> NoNewline(RedactSegments(ps)[k])
    decreases |ps|
  {
    SegmentDone(ps[0], if |ps| == 1 then "" else SEP);
    if |ps| > 1 {
      PiecesKept(ps[1..]);
      assert RedactSegments(ps)[1..] == RedactSegments(ps[1..]);
    }
  }

  lemma {:induction false} JoinNoNewline(ps: seq<string>)
    requires forall k :: 0 <= k < |ps| ==> NoNewline(ps[k])
    ensures NoNewline(Join(ps, SEP))
  {
    if |ps| > 1 {
      JoinNoNewline(ps[1..]);
    }
  }

  /** Redacting a line twice is redacting it once. */
  lemma LineStays(line: string)
    requires MarkerFree(line) && NoNewline(line) && |line| <= MAX_LENGTH
    ensures RedactLine(RedactLine(line)) == RedactLine(line) && NoNewline(RedactLine(line))
  {
    var ps := Split(line, SEP);
    SplitGivesPieces(line, SEP);
    forall k | 0 <= k < |ps| ensures MarkerFree(ps[k]) && NoNewline(ps[k]) && |ps[k]| <= MAX_LENGTH {
      SplitInherits(line, SEP, k);
    }
    PiecesKept(ps);
    JoinNoNewline(RedactSegments(ps));
    SplitJoin(RedactSegments(ps), SEP);
  }

  lemma NoNewlineIsPiece(p: string, end: string)
    requires NoNewline(p)
    ensures Closed(NEWLINE, p, end)
  {
    forall j | 0 <= j < |p| ensures !At(p + end, NEWLINE, j) {
      assert (p + end)[j] == p[j];
    }
  }

  lemma PieceHasNoNewline(p: string, end: string)
    requires Closed(NEWLINE, p, end)
    ensures NoNewline(p)
  {
    forall j | 0 <= j < |p| ensures p[j] != '\n' {
      assert !At(p + end, NEWLINE, j);
      assert (p + end)[j..j + 1] == [p[j]];
    }
  }

  lemma {:induction false} LinesKept(ls: seq<string>)
    requires Pieces(NEWLINE, ls)
    requires forall k :: 0 <= k < |ls| ==> MarkerFree(ls[k]) && |ls[k]| <= MAX_LENGTH
    ensures Pieces(NEWLINE, RedactLines(ls)) && RedactLines(RedactLines(ls)) == RedactLines(ls)
    decreases |ls|
  {
    var end := if |ls| == 1 then "" else NEWLINE;
    PieceHasNoNewline(ls[0], end);
    LineStays(ls[0]);
    NoNewlineIsPiece(RedactLine(ls[0]), end);
    if |ls| > 1 {
      LinesKept(ls[1..]);
      assert RedactLines(ls)[1..] == RedactLines(ls[1..]);
    }
  }

  /** Redact is idempotent on every message that holds no marker of its own, however
      it falls into lines and segments. */
  lemma Idempotent(msg: string)
    requires MarkerFree(msg) && |msg| <= MAX_LENGTH
    ensures Redacted(Redacted(msg)) == Redacted(msg)
  {
    var ls := Split(msg, NEWLINE);
    SplitGivesPieces(msg, NEWLINE);
    forall k | 0 <= k < |ls| ensures MarkerFree(ls[k]) && |ls[k]| <= MAX_LENGTH {
      SplitInherits(msg, NEWLINE, k);
    }
    LinesKept(ls);
    SplitJoin(RedactLines(ls), NEWLINE);
  }
}
