// The two patterns for a secret that runs to the end of its segment, and the facts
// about them that redaction rests on. A segment holds no newline.

module TailPatterns {
  import opened Commands

  datatype Pattern = Keyed | Unkeyed

  predicate Space(c: char) {
    c == ' ' || c == '\t' || c == '\r' || c == '\U{C}' || c == '\n'
  }

  predicate Digit(c: char) {
    '0' <= c <= '9'
  }

  /** Case folding as the matcher does it: beside ASCII, the Kelvin sign folds to k
      and the long s to s. */
  function Fold(c: char): char {
    if c == '\U{212A}' then 'k' else if c == '\U{17F}' then 's' else LowerChar(c)
  }

  /** x spells the lower-case word, in any case. */
  predicate Spells(x: string, word: string) {
    |x| == |word| && forall j :: 0 <= j < |x| ==> Fold(x[j]) == word[j]
  }

  const KEYS := ["privatekey", "publickey", "password", "mldsa65seed", "mldsa65verify", "shortids", "shortid", "id"]
  const INDEXED := "shortids["
  const SAME_VALUE := "can not be the same value"
  const INVALID_UUID := "invalid uuid"

  /** shortIds[N] */
  predicate IsIndexed(x: string) {
    && |x| >= 11 && Spells(x[..9], INDEXED) && x[|x| - 1] == ']'
    && forall j :: 9 <= j < |x| - 1 ==> Digit(x[j])
  }

  predicate IsKey(x: string) {
    IsIndexed(x) || exists k :: 0 <= k < |KEYS| && Spells(x, KEYS[k])
  }

  /** What stands before the colon: a quoted key, or one of two phrases. */
  predicate IsHead(pat: Pattern, x: string) {
    match pat
    case Keyed => |x| >= 2 && x[0] == '"' && x[|x| - 1] == '"' && IsKey(x[1..|x| - 1])
    case Unkeyed => Spells(x, SAME_VALUE) || Spells(x, INVALID_UUID)
  }

  /** w is a head, a colon and white space, cut at e and a. */
  predicate Parses(pat: Pattern, w: string, e: int, a: int) {
    && 0 <= e <= a < |w| && IsHead(pat, w[..e])
    && (forall j :: e <= j < a ==> Space(w[j])) && w[a] == ':'
    && (forall j :: a < j < |w| ==> Space(w[j]))
  }

  predicate IsPrefix(pat: Pattern, w: string) {
    exists e, a | 0 <= e <= a < |w| :: Parses(pat, w, e, a)
  }

  /** The pattern matches from i, with its value from v to the end. */
  predicate MatchAt(pat: Pattern, s: string, i: int, v: int) {
    0 <= i < v < |s| && IsPrefix(pat, s[i..v]) && !Space(s[v])
  }

  // --- how a match opens -----------------------------------------------------

  predicate Opens(pat: Pattern, c: char, d: char) {
    match pat
    case Keyed => c == '"' && d != ':' && !Space(d)
    case Unkeyed => (Fold(c) == 'c' && Fold(d) == 'a') || (Fold(c) == 'i' && Fold(d) == 'n')
  }

  /** A letter or a digit, once folded. */
  predicate Plain(c: char) {
    'a' <= c <= 'z' || Digit(c)
  }

  predicate AllPlain(x: string) {
    forall j :: 0 <= j < |x| ==> Plain(x[j])
  }

  lemma KeysArePlain(k: int)
    requires 0 <= k < |KEYS|
    ensures AllPlain(KEYS[k]) && |KEYS[k]| >= 2
  {
    assert AllPlain("privatekey");
    assert AllPlain("publickey");
    assert AllPlain("password");
    assert AllPlain("mldsa65seed");
    assert AllPlain("mldsa65verify");
    assert AllPlain("shortids");
    assert AllPlain("shortid");
    assert AllPlain("id");
  }

  /** No quote inside a key, no bracket before an r, and it does not start with
      white space or a colon. */
  lemma KeyFacts(x: string)
    requires IsKey(x)
    ensures |x| >= 2 && !Space(x[0]) && x[0] != ':'
    ensures forall j :: 0 <= j < |x| ==> x[j] != '"'
    ensures forall j :: 0 <= j < |x| && x[j] == '[' ==> j + 1 < |x| && x[j + 1] != 'r'
  {
    if IsIndexed(x) {
      assert AllPlain("shortids");
      assert forall j :: 0 <= j < 8 ==> INDEXED[j] == "shortids"[j];
      forall j | 0 <= j < 8 ensures Plain(Fold(x[j])) {
        assert x[j] == x[..9][j];
      }
      assert Fold(x[8]) == '[' by {
        assert x[8] == x[..9][8];
      }
    } else {
      var k :| 0 <= k < |KEYS| && Spells(x, KEYS[k]);
      KeysArePlain(k);
      assert forall j :: 0 <= j < |x| ==> Plain(Fold(x[j]));
    }
  }

  /** The pairs of letters that open an unkeyed match occur once in each phrase. */
  lemma PhrasePairs(w: string, j: int)
    requires w == SAME_VALUE || w == INVALID_UUID
    requires 0 < j < |w|
    ensures w[j] != '[' && w[j] != ':'
    ensures j + 1 < |w| ==> !(w[j] == 'c' && w[j + 1] == 'a') && !(w[j] == 'i' && w[j + 1] == 'n')
    ensures j + 1 == |w| ==> w[j] != 'c' && w[j] != 'i'
  {
  }

  lemma HeadFacts(pat: Pattern, x: string)
    requires IsHead(pat, x)
    ensures |x| >= 4 && Opens(pat, x[0], x[1])
    ensures forall j :: 0 < j < |x| - 1 ==> !Opens(pat, x[j], x[j + 1])
    ensures forall j :: 0 <= j < |x| && x[j] == '[' ==> j + 1 < |x| && x[j + 1] != 'r'
    ensures pat == Keyed ==> forall j :: 0 < j < |x| - 1 ==> x[j] != '"'
    ensures pat == Unkeyed ==> Fold(x[|x| - 1]) != 'c' && Fold(x[|x| - 1]) != 'i'
  {
    if pat == Keyed {
      var key := x[1..|x| - 1];
      KeyFacts(key);
      forall j | 0 < j < |x| - 1 ensures x[j] == key[j - 1] {
      }
    } else {
      var w := if Spells(x, SAME_VALUE) then SAME_VALUE else INVALID_UUID;
      forall j | 0 < j < |x| ensures Fold(x[j]) == w[j] && x[j] != '[' && (j + 1 < |x| ==> !Opens(pat, x[j], x[j + 1])) {
        PhrasePairs(w, j);
      }
      PhrasePairs(w, |w| - 1);
    }
  }

  lemma PrefixFacts(pat: Pattern, w: string)
    requires IsPrefix(pat, w)
    ensures |w| >= 5 && Opens(pat, w[0], w[1])
    ensures w[|w| - 1] == ':' || Space(w[|w| - 1])
    ensures forall j :: 0 < j < |w| - 1 ==> !Opens(pat, w[j], w[j + 1])
    ensures forall j :: 0 <= j < |w| - 1 && w[j] == '[' ==> w[j + 1] != 'r'
  {
    var e, a :| 0 <= e <= a < |w| && Parses(pat, w, e, a);
    var x := w[..e];
    HeadFacts(pat, x);
    forall j | 0 < j < |w| - 1 ensures !Opens(pat, w[j], w[j + 1]) {
      if j < e - 1 {
        assert x[j] == w[j] && x[j + 1] == w[j + 1];
      } else if j == e - 1 {
        assert x[j] == w[j] && (w[e] == ':' || Space(w[e]));
      } else {
        assert w[j] == ':' || Space(w[j]);
      }
    }
    forall j | 0 <= j < |w| - 1 && w[j] == '[' ensures w[j + 1] != 'r' {
      if j < e {
        assert x[j] == w[j];
        assert j + 1 < e && x[j + 1] == w[j + 1];
      }
    }
  }

  /** A prefix is extended only by white space, so a match has one value. */
  lemma LongerPrefix(pat: Pattern, w: string, x: string)
    requires IsPrefix(pat, w) && IsPrefix(pat, x) && w < x
    ensures Space(x[|w|])
  {
    var e, a :| 0 <= e <= a < |w| && Parses(pat, w, e, a);
    var f, b :| 0 <= f <= b < |x| && Parses(pat, x, f, b);
    SameHead(pat, w, e, x, f);
    SameColon(w, e, a, x, b);
  }

  lemma SameColon(w: string, e: int, a: int, x: string, b: int)
    requires w <= x && 0 <= e <= a < |w| && e <= b < |x| && w[a] == ':' && x[b] == ':'
    requires forall j :: e <= j < a ==> Space(w[j])
    requires forall j :: e <= j < b ==> Space(x[j])
    ensures a == b
  {
    assert x[a] == w[a];
    assert b < |w| ==> w[b] == x[b];
  }

  lemma SameHead(pat: Pattern, w: string, e: int, x: string, f: int)
    requires 0 <= e <= |w| && 0 <= f <= |x| && w <= x && IsHead(pat, w[..e]) && IsHead(pat, x[..f])
    ensures e == f
  {
    if pat == Keyed {
      assert w[..e][e - 1] == '"' && x[..f][f - 1] == '"';
      assert e < f ==> x[..f][e - 1] == w[..e][e - 1];
      assert f < e ==> w[..e][f - 1] == x[..f][f - 1];
    } else {
      assert w[..e][0] == x[..f][0];
    }
    HeadFacts(pat, w[..e]);
    HeadFacts(pat, x[..f]);
  }
}
