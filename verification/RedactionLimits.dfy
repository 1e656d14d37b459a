// Why redacting twice is redacting once only for a message without a marker: a key
// that looks redacted already hides the next one, until its own digits are masked.

module RedactionLimits {
  import opened Commands
  import opened TailPatterns
  import opened Redact
  import opened Redaction

  predicate Digits(d: string) {
    |d| == 32 && forall j :: 0 <= j < |d| ==> Digit(d[j])
  }

  /** "shortIds[ */
  predicate Opening(a: string) {
    && |a| == 10 && a[0] == '"' && a[1] == 's' && a[2] == 'h' && a[3] == 'o' && a[4] == 'r' && a[5] == 't' && a[6] == 'I'
    && a[7] == 'd' && a[8] == 's' && a[9] == '['
  }

  /** [redacted and a space, from n on. */
  predicate Marked(s: string, n: nat) {
    && n + 10 <= |s| && s[n] == '[' && s[n + 1] == 'r' && s[n + 2] == 'e' && s[n + 3] == 'd' && s[n + 4] == 'a' && s[n + 5] == 'c'
    && s[n + 6] == 't' && s[n + 7] == 'e' && s[n + 8] == 'd' && s[n + 9] == ' '
  }

  /** ]": [redacted "id": x */
  predicate Closing(b: string) {
    && |b| == 21 && b[0] == ']' && b[1] == '"' && b[2] == ':' && b[3] == ' ' && Marked(b, 4)
    && b[14] == '"' && b[15] == 'i' && b[16] == 'd' && b[17] == '"' && b[18] == ':' && b[19] == ' ' && b[20] == 'x'
  }

  /** Thirty-two digits in the index of a first key, shortIds, that has a marker for a
      value; a second key, id, has not. */
  predicate Hiding(a: string, d: string, b: string) {
    Opening(a) && Digits(d) && Closing(b)
  }

  // --- texts in one piece ----------------------------------------------------

  predicate Plainly(s: string) {
    forall j :: 0 <= j < |s| ==> s[j] != '\n' && s[j] != '>' && s[j] != '-'
  }

  lemma OnePiece(s: string)
    requires Plainly(s)
    ensures Redacted(s) == RedactSegment(s)
  {
    forall j: nat ensures !At(s, NEWLINE, j) && !At(s, SEP, j) {
      assert j < |s| ==> s[j] == s[j..j + 1][0];
      assert j + 3 <= |s| ==> s[j + 1] == s[j..j + 3][1];
    }
    assert Split(s, NEWLINE) == [s] && Split(s, SEP) == [s];
    assert RedactSegments([s]) == [RedactSegment(s)];
    assert RedactLines([s]) == [RedactLine(s)];
  }

  lemma {:induction false} NoDashNoUuid(s: string, inWord: bool)
    requires Plainly(s)
    ensures MaskUuids(s, inWord) == s
    decreases |s|
  {
    if s != "" {
      assert |s| >= 36 ==> s[..36][8] == s[8];
      NoDashNoUuid(s[1..], Word(s[0]));
    }
  }

  /** What ends a run is where the next one is looked for. */
  lemma {:induction false} RunsAfter(a: string, x: string)
    requires a != "" && NoLongRun(a) && !B64(a[|a| - 1])
    ensures MaskRuns(a + x) == a + MaskRuns(x)
  {
    LeadConcat(a, x);
    assert Lead(a) < |a| && Lead(a + x) < 32;
    assert (a + x)[1..] == a[1..] + x && a == [a[0]] + a[1..];
    assert MaskRuns(a + x) == [a[0]] + MaskRuns(a[1..] + x);
    if |a| > 1 {
      RunsAfter(a[1..], x);
      Regroup([a[0]], a[1..], MaskRuns(x));
    } else {
      assert a[1..] + x == x;
    }
  }

  lemma {:induction false} RunsKeepEnd(s: string)
    requires s != "" && !B64(s[|s| - 1])
    ensures MaskRuns(s) != "" && MaskRuns(s)[|MaskRuns(s)| - 1] == s[|s| - 1]
    decreases |s|
  {
    var n := Lead(s);
    if n >= 32 {
      RunsKeepEnd(s[n..]);
    } else if |s| > 1 {
      RunsKeepEnd(s[1..]);
    }
  }

  lemma {:induction false} UuidsKeepEnd(s: string, inWord: bool)
    requires s != "" && !B64(s[|s| - 1])
    ensures var t := MaskUuids(s, inWord); t != "" && t[|t| - 1] == s[|s| - 1]
    decreases |s|
  {
    assert |s| >= 36 ==> s[..36][35] == s[35];
    if UuidFirst(s, inWord) {
      UuidsKeepEnd(s[36..], true);
    } else if |s| > 1 {
      UuidsKeepEnd(s[1..], Word(s[0]));
    }
  }

  lemma TailKeepsEnd(pat: Pattern, s: string)
    requires s != "" && s[|s| - 1] == ']'
    ensures var t := ReplaceTail(pat, s); t != "" && t[|t| - 1] == ']'
  {
    var i := FindIs(pat, s, 0);
    var v := Find(pat, s, 0);
    if v.Some? {
      MaskFacts(s[v.value..]);
    }
  }

  // --- the characters of the message -----------------------------------------

  /** Nothing in the opening ends a key, separates a message or opens a phrase. */
  lemma OpeningChars(a: string, j: int)
    requires Opening(a) && 0 <= j < 10
    ensures a[j] != '\n' && a[j] != '>' && a[j] != '-' && a[j] != ':' && !Space(a[j])
    ensures j < 9 ==> !Opens(Unkeyed, a[j], a[j + 1])
  {
  }

  /** Nor in the closing, where only the second key opens one. */
  lemma ClosingChars(b: string, k: int)
    requires Closing(b) && 0 <= k < 21
    ensures b[k] != '\n' && b[k] != '>' && b[k] != '-'
    ensures k < 20 ==> !Opens(Unkeyed, b[k], b[k + 1]) && (Opens(Keyed, b[k], b[k + 1]) ==> k == 14)
  {
  }

  lemma Chars(a: string, x: string, b: string, j: int)
    requires 0 <= j < |a + x + b|
    ensures (a + x + b)[j] == if j < |a| then a[j] else if j < |a| + |x| then x[j - |a|] else b[j - |a| - |x|]
  {
  }

  lemma MessageChars(a: string, d: string, b: string, j: int)
    requires Hiding(a, d, b) && 0 <= j < 63
    ensures var s := a + d + b;
            && |s| == 63 && s[j] != '\n' && s[j] != '>' && s[j] != '-'
            && (j + 1 < 63 ==> !Opens(Unkeyed, s[j], s[j + 1]))
  {
    Chars(a, d, b, j);
    if j + 1 < 63 {
      Chars(a, d, b, j + 1);
    }
    if j < 10 {
      OpeningChars(a, j);
    } else if j >= 42 {
      ClosingChars(b, j - 42);
    }
  }

  lemma MessageIsPlain(a: string, d: string, b: string)
    requires Hiding(a, d, b)
    ensures Plainly(a + d + b)
  {
    forall j | 0 <= j < |a + d + b| ensures (a + d + b)[j] != '\n' && (a + d + b)[j] != '>' && (a + d + b)[j] != '-' {
      MessageChars(a, d, b, j);
    }
  }

  // --- keys ------------------------------------------------------------------

  lemma MarkerAt(s: string, n: nat)
    requires Marked(s, n)
    ensures At(s, MARKER, n)
  {
    assert |MARKER| == 10;
    var x := s[n..n + 10];
    forall k | 0 <= k < 10 ensures x[k] == MARKER[k] {
      assert x[k] == s[n + k];
    }
  }

  /** shortIds[N], of any length. */
  lemma IndexedKey(x: string)
    requires |x| >= 11 && x[0] == 's' && x[1] == 'h' && x[2] == 'o' && x[3] == 'r' && x[4] == 't' && x[5] == 'I' && x[6] == 'd'
    requires x[7] == 's' && x[8] == '[' && x[|x| - 1] == ']' && forall j :: 9 <= j < |x| - 1 ==> Digit(x[j])
    ensures IsKey(x)
  {
    var y := x[..9];
    assert |INDEXED| == 9;
    forall j | 0 <= j < 9 ensures Fold(y[j]) == INDEXED[j] {
      assert y[j] == x[j];
    }
    assert Spells(y, INDEXED);
  }

  lemma IdKey(x: string)
    requires |x| == 2 && x[0] == 'i' && x[1] == 'd'
    ensures IsKey(x)
  {
    assert |KEYS| == 8 && Spells(x, KEYS[7]);
  }

  /** A quoted key of n characters, a colon and a space. */
  lemma KeyedPrefix(w: string, n: nat)
    requires |w| == n + 4 && w[0] == '"' && w[n + 1] == '"' && w[n + 2] == ':' && w[n + 3] == ' ' && IsKey(w[1..n + 1])
    ensures IsPrefix(Keyed, w)
  {
    var x := w[..n + 2];
    var y := x[1..|x| - 1];
    forall k | 0 <= k < n ensures y[k] == w[1..n + 1][k] {
      assert y[k] == x[k + 1] == w[k + 1];
    }
    assert y == w[1..n + 1];
    assert x[0] == w[0] && x[n + 1] == w[n + 1];
    assert IsHead(Keyed, x);
    assert Parses(Keyed, w, n + 2, n + 2);
  }

  // --- the first time --------------------------------------------------------

  lemma FirstKey(a: string, d: string, b: string)
    requires Hiding(a, d, b)
    ensures MatchAt(Keyed, a + d + b, 0, 46) && At(a + d + b, MARKER, 46)
  {
    var s := a + d + b;
    forall j | 0 <= j < 63 ensures |s| == 63 && s[j] == if j < 10 then a[j] else if j < 42 then d[j - 10] else b[j - 42] {
      Chars(a, d, b, j);
    }
    FirstPrefix(s);
    assert Marked(s, 46);
    MarkerAt(s, 46);
  }

  lemma FirstPrefix(s: string)
    requires |s| == 63 && s[0] == '"' && s[1] == 's' && s[2] == 'h' && s[3] == 'o' && s[4] == 'r' && s[5] == 't' && s[6] == 'I'
    requires s[7] == 'd' && s[8] == 's' && s[9] == '[' && s[42] == ']' && s[43] == '"' && s[44] == ':' && s[45] == ' '
    requires forall j :: 10 <= j < 42 ==> Digit(s[j])
    ensures IsPrefix(Keyed, s[0..46])
  {
    var w := s[0..46];
    var x := w[1..43];
    forall j | 0 <= j < 42 ensures x[j] == s[j + 1] {
      assert x[j] == w[j + 1];
    }
    IndexedKey(x);
    KeyedPrefix(w, 42);
  }

  lemma NoPhrase(a: string, d: string, b: string, j: int, v: int)
    requires Hiding(a, d, b)
    ensures !MatchAt(Unkeyed, a + d + b, j, v)
  {
    var s := a + d + b;
    assert |s| == 63;
    if MatchAt(Unkeyed, s, j, v) {
      var w := s[j..v];
      PrefixFacts(Unkeyed, w);
      assert w[0] == s[j] && w[1] == s[j + 1];
      MessageChars(a, d, b, j);
      assert false;
    }
  }

  lemma FirstTime(a: string, d: string, b: string)
    requires Hiding(a, d, b)
    ensures RedactSegment(a + d + b) == a + Mask(d) + b
  {
    var s := a + d + b;
    FirstKey(a, d, b);
    var i := FindIs(Keyed, s, 0);
    OneValue(Keyed, s, 0, Find(Keyed, s, 0).value, 46);
    forall j, v ensures !MatchAt(Unkeyed, s, j, v) {
      NoPhrase(a, d, b, j, v);
    }
    SettledStays(Unkeyed, s);
    MessageIsPlain(a, d, b);
    NoDashNoUuid(s, false);
    MaskedMiddle(a, d, b);
  }

  lemma MaskedMiddle(a: string, d: string, b: string)
    requires 0 < |a| < 32 && !B64(a[|a| - 1]) && Digits(d) && 0 < |b| < 32 && !B64(b[0])
    ensures MaskRuns(a + d + b) == a + Mask(d) + b
  {
    ShortNoLong(a);
    ShortNoLong(b);
    Regroup(a, d, b);
    RunsAfter(a, d + b);
    AllLead(d);
    LeadConcat(d, b);
    assert (d + b)[..32] == d && (d + b)[32..] == b;
    RunsStay(b);
    Regroup(a, Mask(d), b);
  }

  lemma AllLead(d: string)
    requires forall j :: 0 <= j < |d| ==> B64(d[j])
    ensures Lead(d) == |d|
  {
  }

  // --- the second time -------------------------------------------------------

  /** The only key left is the one that was hidden. */
  lemma SecondKey(a: string, d: string, b: string, j: int, u: int)
    requires Hiding(a, d, b) && MatchAt(Keyed, a + Mask(d) + b, j, u)
    ensures j == 24 + |Mask(d)|
  {
    var m := Mask(d);
    var q := a + m + b;
    var w := q[j..u];
    MatchSurvives(Keyed, a, d, d, b, j, u);
    PrefixFacts(Keyed, w);
    assert w[0] == q[j] && w[1] == q[j + 1] && w[|w| - 1] == q[u - 1];
    Chars(a, m, b, u - 1);
    if u <= 10 {
      OpeningChars(a, u - 1);
      assert false;
    } else {
      Chars(a, m, b, j);
      Chars(a, m, b, j + 1);
      ClosingChars(b, j - 10 - |m|);
    }
  }

  lemma HiddenKey(a: string, m: string, b: string)
    requires |a| == 10 && Closing(b)
    ensures MatchAt(Keyed, a + m + b, 24 + |m|, 30 + |m|)
  {
    var q, i := a + m + b, 24 + |m|;
    var w := q[i..i + 6];
    forall k | 0 <= k < 6 ensures w[k] == b[14 + k] {
      Chars(a, m, b, i + k);
      assert w[k] == q[i + k];
    }
    IdPrefix(w, b);
    Chars(a, m, b, i + 6);
  }

  lemma IdPrefix(w: string, b: string)
    requires |w| == 6 && Closing(b) && forall k :: 0 <= k < 6 ==> w[k] == b[14 + k]
    ensures IsPrefix(Keyed, w)
  {
    var x := w[1..3];
    assert x[0] == w[1] && x[1] == w[2];
    IdKey(x);
    KeyedPrefix(w, 2);
  }

  lemma SecondTime(a: string, d: string, b: string)
    requires Hiding(a, d, b)
    ensures var q := a + Mask(d) + b; RedactSegment(q) != q
  {
    var m := Mask(d);
    var q := a + m + b;
    Chars(a, m, b, |q| - 1);
    HiddenKey(a, m, b);
    var i := FindIs(Keyed, q, 0);
    var v := Find(Keyed, q, 0).value;
    SecondKey(a, d, b, i, v);
    OneValue(Keyed, q, i, v, 30 + |m|);
    assert |q| == 31 + |m| && !At(q, MARKER, v);
    EndsInBracket(q, v);
  }

  /** Once a tail is masked, the segment ends in a bracket for good. */
  lemma EndsInBracket(q: string, v: nat)
    requires v < |q| && ReplaceTail(Keyed, q) == q[..v] + Mask(q[v..])
    ensures var r := RedactSegment(q); r != "" && r[|r| - 1] == ']'
  {
    var x := Mask(q[v..]);
    var q1 := q[..v] + x;
    MaskFacts(q[v..]);
    assert q1[|q1| - 1] == x[|x| - 1];
    LaterStepsKeepEnd(q1);
  }

  lemma LaterStepsKeepEnd(s: string)
    requires s != "" && s[|s| - 1] == ']'
    ensures var r := MaskRuns(MaskUuids(ReplaceTail(Unkeyed, s), false)); r != "" && r[|r| - 1] == ']'
  {
    TailKeepsEnd(Unkeyed, s);
    var t := ReplaceTail(Unkeyed, s);
    UuidsKeepEnd(t, false);
    RunsKeepEnd(MaskUuids(t, false));
  }

  lemma MaskedIsPlain(a: string, d: string, b: string)
    requires Opening(a) && Closing(b)
    ensures Plainly(a + Mask(d) + b)
  {
    var m := Mask(d);
    var q := a + m + b;
    MaskFacts(d);
    forall j | 0 <= j < |q| ensures q[j] != '\n' && q[j] != '>' && q[j] != '-' {
      Chars(a, m, b, j);
      if j < 10 {
        OpeningChars(a, j);
      } else if j < 10 + |m| {
        MaskHasNoDash(d, j - 10);
      } else {
        ClosingChars(b, j - 10 - |m|);
      }
    }
  }

  lemma MaskHasNoDash(d: string, j: int)
    requires 0 <= j < |Mask(d)|
    ensures Mask(d)[j] != '-'
  {
    var m, n := Mask(d), Decimal(|d|);
    assert |MARKER| == 10 && |CHARS| == 7;
    assert m[j] == if j < 10 then MARKER[j] else if j < 10 + |n| then n[j - 10] else CHARS[j - 10 - |n|];
  }

  /** With a marker in the message, redacting twice is not redacting once. */
  lemma MarkerHidesAKey(a: string, d: string, b: string)
    requires Hiding(a, d, b)
    ensures Redacted(Redacted(a + d + b)) != Redacted(a + d + b)
  {
    MessageIsPlain(a, d, b);
    OnePiece(a + d + b);
    FirstTime(a, d, b);
    MaskedIsPlain(a, d, b);
    OnePiece(a + Mask(d) + b);
    SecondTime(a, d, b);
  }

  /** There are such messages: one for each choice of digits. */
  lemma HidingMessage(d: string) returns (a: string, b: string)
    requires Digits(d)
    ensures Hiding(a, d, b)
  {
    a := "\"shortIds[";
    b := "]\": [redacted \"id\": x";
  }
}
