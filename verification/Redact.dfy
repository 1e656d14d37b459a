// Removing credential material from a message.

module Redact {
  import opened Commands
  import opened TailPatterns

  const MARKER := "[redacted "
  const CHARS := " chars]"

  // --- masks -----------------------------------------------------------------

  function DigitChar(n: nat): (c: char)
    requires n < 10
    ensures Digit(c)
  {
    ('0' as int + n) as char
  }

  function Decimal(n: nat): (r: string)
    ensures |r| >= 1 && forall j :: 0 <= j < |r| ==> Digit(r[j])
  {
    if n < 10 then [DigitChar(n)] else Decimal(n / 10) + [DigitChar(n % 10)]
  }

  /** What stands for a removed value: its length and nothing else. */
  function Mask(v: string): string {
    MARKER + Decimal(|v|) + CHARS
  }

  /** A mask is closed by brackets, starts with the marker, and holds nothing a
      match could start with or a separator be made of. */
  lemma MaskFacts(v: string)
    ensures var m := Mask(v);
            && |m| >= 18 && m[0] == '[' && m[1] == 'r' && m[|m| - 1] == ']' && m[..10] == MARKER
            && (forall j :: 0 < j < |m| ==> m[j] != '[')
            && (forall j :: 0 <= j < |m| ==> m[j] != '>' && m[j] != '\n' && m[j] != '"' && Fold(m[j]) != 'i')
            && (forall j :: 0 <= j < |m| - 1 && Fold(m[j]) == 'c' ==> Fold(m[j + 1]) != 'a')
  {
    var m, d := Mask(v), Decimal(|v|);
    assert |MARKER| == 10 && |CHARS| == 7;
    forall j | 0 <= j < |m| ensures m[j] == if j < 10 then MARKER[j] else if j < 10 + |d| then d[j - 10] else CHARS[j - 10 - |d|] {
    }
  }

  lemma NoOpening(v: string, pat: Pattern, j: int)
    requires 0 <= j < |Mask(v)| - 1
    ensures !Opens(pat, Mask(v)[j], Mask(v)[j + 1])
  {
    MaskFacts(v);
  }

  // --- tails -----------------------------------------------------------------

  function ValueFrom(pat: Pattern, s: string, i: nat, v: nat): Option<nat>
    decreases |s| - v
  {
    if v >= |s| then None
    else if MatchAt(pat, s, i, v) then Some(v)
    else ValueFrom(pat, s, i, v + 1)
  }

  /** Where the value of the leftmost match begins. */
  function Find(pat: Pattern, s: string, i: nat): Option<nat>
    decreases |s| - i
  {
    if i >= |s| then None
    else
      var v := ValueFrom(pat, s, i, i + 1);
      if v.Some? then v else Find(pat, s, i + 1)
  }

  function ReplaceTail(pat: Pattern, s: string): string {
    match Find(pat, s, 0)
    case None => s
    case Some(v) => if v > |s| || At(s, MARKER, v) then s else s[..v] + Mask(s[v..])
  }

  ghost predicate Leftmost(pat: Pattern, s: string, i: int, v: int) {
    MatchAt(pat, s, i, v) && forall j, u :: MatchAt(pat, s, j, u) ==> i <= j
  }

  lemma {:induction false} ValueFromIs(pat: Pattern, s: string, i: nat, v: nat)
    requires i < v && forall u :: i < u < v ==> !MatchAt(pat, s, i, u)
    ensures ValueFrom(pat, s, i, v).None? ==> forall u :: !MatchAt(pat, s, i, u)
    ensures ValueFrom(pat, s, i, v).Some? ==> MatchAt(pat, s, i, ValueFrom(pat, s, i, v).value)
    decreases |s| - v
  {
    if v < |s| && !MatchAt(pat, s, i, v) {
      ValueFromIs(pat, s, i, v + 1);
    }
  }

  lemma {:induction false} FindIs(pat: Pattern, s: string, i: nat) returns (at: int)
    requires forall j, u :: MatchAt(pat, s, j, u) ==> i <= j
    ensures Find(pat, s, i).None? ==> forall j, u :: !MatchAt(pat, s, j, u)
    ensures Find(pat, s, i).Some? ==> Leftmost(pat, s, at, Find(pat, s, i).value)
    decreases |s| - i
  {
    at := i;
    if i < |s| {
      ValueFromIs(pat, s, i, i + 1);
      if ValueFrom(pat, s, i, i + 1).None? {
        at := FindIs(pat, s, i + 1);
      }
    }
  }

  // --- one replacement -------------------------------------------------------

  /** Every match has a mask for its value already. */
  ghost predicate Settled(pat: Pattern, s: string) {
    forall i, v :: MatchAt(pat, s, i, v) ==> At(s, MARKER, v)
  }

  /** A match where a stretch r was masked is a match before, and lies wholly on one
      side of the mask. */
  lemma MatchSurvives(pat: Pattern, a: string, r: string, x: string, b: string, i: int, v: int)
    requires r != "" && !Space(r[0]) && MatchAt(pat, a + Mask(x) + b, i, v)
    ensures (v <= |a| && MatchAt(pat, a + r + b, i, v)) ||
            (i >= |a| + |Mask(x)| && MatchAt(pat, a + r + b, i - |Mask(x)| + |r|, v - |Mask(x)| + |r|))
  {
    var m := Mask(x);
    var s, t := a + r + b, a + m + b;
    if v <= |a| {
      assert s[i..v] == a[i..v] == t[i..v];
      assert v < |a| ==> s[v] == a[v] == t[v];
      assert v == |a| ==> s[v] == r[0];
    } else if i >= |a| + |m| {
      MatchShifts(pat, a + m, a + r, b, i, v);
    } else if i >= |a| {
      NotInMask(pat, a, x, b, i, v);
    } else {
      NotIntoMask(pat, a, x, b, i, v);
    }
  }

  lemma MatchShifts(pat: Pattern, a: string, c: string, b: string, i: int, v: int)
    requires |a| <= i && MatchAt(pat, a + b, i, v)
    ensures MatchAt(pat, c + b, i - |a| + |c|, v - |a| + |c|)
  {
    var d := |c| - |a|;
    assert (a + b)[i..v] == b[i - |a|..v - |a|] == (c + b)[i + d..v + d];
    assert (a + b)[v] == b[v - |a|] == (c + b)[v + d];
  }

  lemma NotInMask(pat: Pattern, a: string, x: string, b: string, i: int, v: int)
    requires |a| <= i < |a| + |Mask(x)|
    ensures !MatchAt(pat, a + Mask(x) + b, i, v)
  {
    var m := Mask(x);
    var t := a + m + b;
    if MatchAt(pat, t, i, v) {
      var w := t[i..v];
      assert |w| >= 2 ==> w[0] == t[i] && w[1] == t[i + 1];
      assert t[i] == m[i - |a|];
      MaskFacts(x);
      if i + 1 < |a| + |m| {
        assert t[i + 1] == m[i + 1 - |a|];
        NoOpening(x, pat, i - |a|);
      }
      PrefixFacts(pat, w);
      assert false;
    }
  }

  lemma NotIntoMask(pat: Pattern, a: string, x: string, b: string, i: int, v: int)
    requires i < |a| < v
    ensures !MatchAt(pat, a + Mask(x) + b, i, v)
  {
    var t := a + Mask(x) + b;
    if MatchAt(pat, t, i, v) {
      var w := t[i..v];
      MaskFacts(x);
      assert w[|a| - i] == t[|a|] == '[';
      assert v > |a| + 1 ==> w[|a| - i + 1] == t[|a| + 1] == 'r';
      PrefixFacts(pat, w);
      assert false;
    }
  }

  /** No marker straddles the start of the stretch that is masked. */
  predicate Unbroken(s: string, n: nat) {
    forall k :: 0 <= k < n < k + 10 ==> !At(s, MARKER, k)
  }

  lemma MarkerStays(a: string, r: string, x: string, b: string, v: nat)
    requires v <= |a| && r != "" && (v == |a| || (At(a + r + b, MARKER, v) && Unbroken(a + r + b, |a|)))
    ensures At(a + Mask(x) + b, MARKER, v)
  {
    var s, t := a + r + b, a + Mask(x) + b;
    MaskFacts(x);
    if v == |a| {
      assert t[v..v + 10] == Mask(x)[..10];
    } else {
      assert v + 10 <= |a|;
      assert t[v..v + 10] == s[v..v + 10];
    }
  }

  lemma SwapSettles(pat: Pattern, a: string, r: string, x: string, b: string)
    requires r != "" && !Space(r[0]) && Settled(pat, a + r + b) && Unbroken(a + r + b, |a|)
    ensures Settled(pat, a + Mask(x) + b)
  {
    forall i, v | MatchAt(pat, a + Mask(x) + b, i, v) ensures At(a + Mask(x) + b, MARKER, v) {
      SwapSettlesAt(pat, a, r, x, b, i, v);
    }
  }

  lemma SwapSettlesAt(pat: Pattern, a: string, r: string, x: string, b: string, i: int, v: int)
    requires r != "" && !Space(r[0]) && Settled(pat, a + r + b) && Unbroken(a + r + b, |a|)
    requires MatchAt(pat, a + Mask(x) + b, i, v)
    ensures At(a + Mask(x) + b, MARKER, v)
  {
    var d := |r| - |Mask(x)|;
    MatchSurvives(pat, a, r, x, b, i, v);
    if v <= |a| {
      assert At(a + r + b, MARKER, v);
      MarkerStays(a, r, x, b, v);
    } else {
      assert At(a + r + b, MARKER, v + d);
      MarkerShifts(a + r, a + Mask(x), b, v + d);
    }
  }

  lemma MarkerShifts(a: string, c: string, b: string, v: nat)
    requires |a| <= v && At(a + b, MARKER, v)
    ensures At(c + b, MARKER, v - |a| + |c|)
  {
    var k := v - |a|;
    assert (a + b)[v..v + 10] == b[k..k + 10] == (c + b)[k + |c|..k + |c| + 10];
  }

  // --- the tail steps --------------------------------------------------------

  predicate MarkerFree(s: string) {
    forall k :: 0 <= k <= |s| ==> !At(s, MARKER, k)
  }

  lemma NoOverlap(pat: Pattern, s: string, i: int, v: int, j: int, u: int)
    requires MatchAt(pat, s, i, v) && MatchAt(pat, s, j, u) && i < j
    ensures v <= j
  {
    var w, x := s[i..v], s[j..u];
    assert j < v ==> w[j - i] == x[0];
    assert j < v - 1 && u > j + 1 ==> w[j - i + 1] == x[1];
    PrefixFacts(pat, w);
    PrefixFacts(pat, x);
  }

  lemma OneValue(pat: Pattern, s: string, i: int, v: int, u: int)
    requires MatchAt(pat, s, i, v) && MatchAt(pat, s, i, u)
    ensures v == u
  {
    if v < u {
      assert s[i..v] < s[i..u] && s[i..u][v - i] == s[v];
      LongerPrefix(pat, s[i..v], s[i..u]);
    } else if u < v {
      assert s[i..u] < s[i..v] && s[i..v][u - i] == s[u];
      LongerPrefix(pat, s[i..u], s[i..v]);
    }
  }

  lemma NothingAfter(s: string, v: nat)
    requires v <= |s|
    ensures s[..v] + s[v..] + "" == s && s[..v] + Mask(s[v..]) + "" == s[..v] + Mask(s[v..])
  {
  }

  /** Masking the value of the leftmost match settles the pattern. */
  lemma TailSettles(pat: Pattern, s: string, i: int, v: int)
    requires Leftmost(pat, s, i, v)
    ensures Settled(pat, s[..v] + Mask(s[v..]))
  {
    var a, r := s[..v], s[v..];
    var t := a + Mask(r);
    NothingAfter(s, v);
    MaskFacts(r);
    forall j, u | MatchAt(pat, t, j, u) ensures At(t, MARKER, u) {
      MatchSurvives(pat, a, r, r, "", j, u);
      assert MatchAt(pat, s, j, u);
      if i < j {
        NoOverlap(pat, s, i, v, j, u);
      } else {
        OneValue(pat, s, i, v, u);
      }
      assert u == v;
      assert t[v..v + 10] == Mask(r)[..10];
    }
  }

  /** Masking a value breaks no marker, for what is before a value is white space or
      a colon. */
  lemma ValueIsUnbroken(pat: Pattern, s: string, i: int, v: int)
    requires MatchAt(pat, s, i, v)
    ensures Unbroken(s, v)
  {
    var w := s[i..v];
    PrefixFacts(pat, w);
    assert w[|w| - 1] == s[v - 1];
    forall k | 0 <= k < v < k + 10 ensures !At(s, MARKER, k) {
      InMarker(v - 1 - k);
      assert k + 10 <= |s| ==> s[k..k + 10][v - 1 - k] == s[v - 1];
    }
  }

  /** No colon in a marker, and white space only at its end. */
  lemma InMarker(j: int)
    requires 0 <= j < 9
    ensures |MARKER| == 10 && MARKER[j] != ':' && !Space(MARKER[j])
  {
  }

  lemma Reslice(s: string, a: nat, b: nat, k: nat, n: nat)
    requires a <= b <= |s| && k + n <= b - a
    ensures s[a..b][k..k + n] == s[a + k..a + k + n]
  {
    var x, y := s[a..b][k..k + n], s[a + k..a + k + n];
    forall t | 0 <= t < n ensures x[t] == y[t] {
      assert x[t] == s[a..b][k + t] == s[a + k + t];
    }
  }

  lemma MarkerInFront(a: string, m: string, v: nat)
    ensures v + 10 <= |a| ==> (At(a, MARKER, v) <==> At(a + m, MARKER, v))
  {
    assert v + 10 <= |a| ==> a[v..v + 10] == (a + m)[v..v + 10];
  }

  /** In a marker-free text with a masked tail, the mask is the only marker. */
  lemma OnlyMarker(a: string, x: string, v: nat)
    requires MarkerFree(a) && At(a + Mask(x), MARKER, v)
    ensures v == |a|
  {
    var m := Mask(x);
    var t := a + m;
    assert t[v] == t[v..v + 10][0] && t[|a|] == m[0];
    assert v > |a| ==> t[v] == m[v - |a|];
    MarkerInFront(a, m, v);
    assert v < |a| < v + 10 ==> t[v..v + 10][|a| - v] == t[|a|];
    assert v <= |a| ==> !At(a, MARKER, v);
    MaskFacts(x);
  }

  /** The second tail step on what the first one left. */
  lemma SecondSettles(pat: Pattern, s: string)
    requires MarkerFree(s) || exists a, x :: MarkerFree(a) && s == a + Mask(x)
    ensures Settled(pat, ReplaceTail(pat, s))
  {
    var i := FindIs(pat, s, 0);
    var found := Find(pat, s, 0);
    if found.Some? {
      var v := found.value;
      if At(s, MARKER, v) {
        var a, x :| MarkerFree(a) && s == a + Mask(x);
        OnlyMarker(a, x, v);
        forall j, u | MatchAt(pat, s, j, u) ensures At(s, MARKER, u) {
          if i < j {
            NoOverlap(pat, s, i, v, j, u);
            assert s == a + Mask(x) + "";
            NotInMask(pat, a, x, "", j, u);
          } else {
            OneValue(pat, s, i, v, u);
          }
        }
      } else {
        TailSettles(pat, s, i, v);
      }
    }
  }

  /** A tail step on a settled text leaves the other pattern settled. */
  lemma OtherStaysSettled(pat: Pattern, other: Pattern, s: string)
    requires Settled(other, s)
    ensures Settled(other, ReplaceTail(pat, s))
  {
    var i := FindIs(pat, s, 0);
    var found := Find(pat, s, 0);
    if found.Some? && !At(s, MARKER, found.value) {
      var v := found.value;
      ValueIsUnbroken(pat, s, i, v);
      NothingAfter(s, v);
      SwapSettles(other, s[..v], s[v..], s[v..], "");
    }
  }

  lemma SettledStays(pat: Pattern, s: string)
    requires Settled(pat, s)
    ensures ReplaceTail(pat, s) == s
  {
    var i := FindIs(pat, s, 0);
  }

  lemma FirstStep(pat: Pattern, s: string)
    requires MarkerFree(s)
    ensures MarkerFree(ReplaceTail(pat, s)) || exists a, x :: MarkerFree(a) && ReplaceTail(pat, s) == a + Mask(x)
  {
    var i := FindIs(pat, s, 0);
    if Find(pat, s, 0).Some? {
      var v := Find(pat, s, 0).value;
      forall k | 0 <= k <= v ensures !At(s[..v], MARKER, k) {
        assert k + 10 <= v ==> s[k..k + 10] == s[..v][k..k + 10];
        assert !At(s, MARKER, k);
      }
      assert MarkerFree(s[..v]);
    }
  }

  /** Both patterns are settled once both tail steps are done. */
  lemma TailsSettle(s: string)
    requires MarkerFree(s)
    ensures var t := ReplaceTail(Unkeyed, ReplaceTail(Keyed, s)); Settled(Keyed, t) && Settled(Unkeyed, t)
  {
    SecondSettles(Keyed, s);
    FirstStep(Keyed, s);
    SecondSettles(Unkeyed, ReplaceTail(Keyed, s));
    OtherStaysSettled(Unkeyed, Keyed, ReplaceTail(Keyed, s));
  }
}
