// The on-disk journal: JSON lines, appended one record at a time, folded back
// into entries on load.

module Journal {
  import opened Commands

  datatype Phase = Begin | Done | Failed | Undone | Preexisting

  /** One line of the journal. Only a Begin record carries the commands. */
  datatype Record = Record(seqno: int, phase: Phase, op: string, do: Command, undo: Command)

  /** A step as reconstructed from the journal. */
  datatype Entry = Entry(seqno: int, op: string, do: Command, undo: Command, phase: Phase)

  /** Whether the inverse of an entry should still be replayed. */
  predicate NeedsUndo(e: Entry) {
    !e.phase.Undone? && !e.phase.Preexisting? && !IsZero(e.undo)
  }

  function PhaseOnly(seqno: int, phase: Phase): Record {
    Record(seqno, phase, "", ZERO, ZERO)
  }

  function BeginOf(e: Entry): Record {
    Record(e.seqno, Begin, e.op, e.do, e.undo)
  }

  // --- the file --------------------------------------------------------------

  /** A line either decodes to a record or does not decode at all. */
  datatype Line = Whole(r: Record) | Garbled

  /** ended says that the last line is closed by its newline. */
  datatype Disk = Absent | File(lines: seq<Line>, ended: bool)

  /** How much of one append reached the file. NoNewline is the whole record
      without the byte that closes it. */
  datatype Left = Nothing | Fragment | NoNewline | Everything

  function Lines(d: Disk): seq<Line> {
    if d.Absent? then [] else d.lines
  }

  predicate Ended(d: Disk) {
    d.Absent? || d.ended
  }

  function Front(lines: seq<Line>): seq<Line> {
    if lines == [] then [] else lines[..|lines| - 1]
  }

  /** The lines that a later append can no longer damage. */
  function Settled(d: Disk): seq<Line> {
    if Ended(d) then Lines(d) else Front(Lines(d))
  }

  /** Appending to a file that does not end in a newline glues the new bytes to
      the unfinished line, and the two together decode to nothing. */
  function Append(d: Disk, r: Record, left: Left): Disk {
    if left.Nothing? then d
    else if Ended(d) then
      File(Lines(d) + [if left.Fragment? then Garbled else Whole(r)], left.Everything?)
    else
      File(Front(Lines(d)) + [Garbled], left.Everything?)
  }

  // --- folding the records ---------------------------------------------------

  function Absorb(m: map<int, Entry>, r: Record): map<int, Entry> {
    if r.phase.Begin? then
      m[r.seqno := Entry(r.seqno, r.op, r.do, r.undo, Begin)]
    else if r.seqno in m then
      m[r.seqno := m[r.seqno].(phase := r.phase)]
    else
      m[r.seqno := Entry(r.seqno, "", ZERO, ZERO, r.phase)]
  }

  /** The records of the first n lines. */
  function ViewTo(lines: seq<Line>, n: nat): (m: map<int, Entry>)
    requires n <= |lines|
    ensures Keyed(m)
  {
    if n == 0 then map[]
    else
      var m := ViewTo(lines, n - 1);
      match lines[n - 1]
      case Whole(r) => Absorb(m, r)
      case Garbled => m
  }

  /** Every sequence number the file mentions, with the latest phase it names. */
  function View(lines: seq<Line>): (m: map<int, Entry>)
    ensures Keyed(m)
  {
    ViewTo(lines, |lines|)
  }

  lemma {:induction false} SameView(a: seq<Line>, b: seq<Line>, n: nat)
    requires n <= |a| && n <= |b| && forall i :: 0 <= i < n ==> a[i] == b[i]
    ensures ViewTo(a, n) == ViewTo(b, n)
  {
    if n > 0 {
      SameView(a, b, n - 1);
    }
  }

  lemma ViewSnoc(lines: seq<Line>, l: Line)
    ensures View(lines + [l]) == match l case Whole(r) => Absorb(View(lines), r) case Garbled => View(lines)
  {
    SameView(lines + [l], lines, |lines|);
  }

  /** An entry whose begin line was lost says nothing and is dropped. */
  predicate Named(e: Entry) {
    !(IsZero(e.do) && IsZero(e.undo))
  }

  predicate Increasing(es: seq<Entry>) {
    forall i, j :: 0 <= i < j < |es| ==> es[i].seqno < es[j].seqno
  }

  lemma HasMember(s: set<int>)
    requires s != {}
    ensures exists x :: x in s
  {
    if forall x :: x !in s {
      assert false;
    }
  }

  ghost function MaxOf(s: set<int>): (k: int)
    requires s != {}
    ensures k in s && forall j :: j in s ==> j <= k
  {
    HasMember(s);
    var x :| x in s;
    var rest := s - {x};
    if rest == {} then
      assert s == {x};
      x
    else
      var y := MaxOf(rest);
      assert forall j :: j in s ==> j == x || j in rest;
      if x <= y then y else x
  }

  predicate Keyed(m: map<int, Entry>) {
    forall k :: k in m ==> m[k].seqno == k
  }

  /** The entries under the given numbers, in sequence order. */
  ghost function InOrder(m: map<int, Entry>, ks: set<int>): (es: seq<Entry>)
    requires ks <= m.Keys
  {
    if ks == {} then []
    else
      var k := MaxOf(ks);
      InOrder(m, ks - {k}) + [m[k]]
  }

  function NamedKeys(m: map<int, Entry>): set<int> {
    set k | k in m && Named(m[k])
  }

  /** The journal as its readers see it. */
  ghost function Load(d: Disk): seq<Entry> {
    InOrder(View(Lines(d)), NamedKeys(View(Lines(d))))
  }

  lemma {:induction false} InOrderFacts(m: map<int, Entry>, ks: set<int>)
    requires ks <= m.Keys && Keyed(m)
    ensures Increasing(InOrder(m, ks))
    ensures forall i :: 0 <= i < |InOrder(m, ks)| ==>
              InOrder(m, ks)[i].seqno in ks && InOrder(m, ks)[i] == m[InOrder(m, ks)[i].seqno]
    ensures |InOrder(m, ks)| == |ks|
  {
    if ks != {} {
      var k := MaxOf(ks);
      InOrderFacts(m, ks - {k});
    }
  }

  lemma {:induction false} InOrderHas(m: map<int, Entry>, ks: set<int>, k: int)
    requires ks <= m.Keys && k in ks
    ensures m[k] in InOrder(m, ks)
  {
    var top := MaxOf(ks);
    if k != top {
      InOrderHas(m, ks - {top}, k);
    }
  }

  /** What is in a load: exactly the named entries of the fold. */
  lemma LoadMembers(d: Disk)
    ensures Increasing(Load(d))
    ensures forall e :: e in Load(d) <==>
              e.seqno in View(Lines(d)) && View(Lines(d))[e.seqno] == e && Named(e)
  {
    var m := View(Lines(d));
    InOrderFacts(m, NamedKeys(m));
    forall e: Entry | e.seqno in m && m[e.seqno] == e && Named(e) ensures e in Load(d) {
      InOrderHas(m, NamedKeys(m), e.seqno);
    }
  }

  lemma {:induction false} InOrderAgree(m: map<int, Entry>, m': map<int, Entry>, ks: set<int>)
    requires ks <= m.Keys && ks <= m'.Keys && forall k :: k in ks ==> m[k] == m'[k]
    ensures InOrder(m, ks) == InOrder(m', ks)
  {
    if ks != {} {
      InOrderAgree(m, m', ks - {MaxOf(ks)});
    }
  }

  lemma InOrderTop(m: map<int, Entry>, ks: set<int>, n: int)
    requires ks <= m.Keys && n in m && n !in ks && forall k :: k in ks ==> k < n
    ensures InOrder(m, ks + {n}) == InOrder(m, ks) + [m[n]]
  {
    assert MaxOf(ks + {n}) == n;
    assert ks + {n} - {n} == ks;
  }

  // --- what one append does to a load ----------------------------------------

  lemma NamedKeysUpdate(m: map<int, Entry>, n: int, e: Entry)
    requires Named(e)
    ensures NamedKeys(m[n := e]) == NamedKeys(m) + {n}
  {
    var m' := m[n := e];
    forall k ensures k in NamedKeys(m') <==> k in NamedKeys(m) + {n} {
      if k != n {
        assert k in m' <==> k in m;
      }
    }
  }

  lemma InOrderPush(m: map<int, Entry>, n: int, e: Entry)
    requires Named(e) && forall k :: k in NamedKeys(m) ==> k <= n
    ensures var m' := m[n := e];
            InOrder(m', NamedKeys(m')) == InOrder(m, NamedKeys(m) - {n}) + [e]
  {
    var m', ks := m[n := e], NamedKeys(m) - {n};
    NamedKeysUpdate(m, n, e);
    assert NamedKeys(m') == ks + {n};
    InOrderTop(m', ks, n);
    InOrderAgree(m, m', ks);
  }

  /** A begin record with a fresh number puts its entry at the end. */
  lemma LoadBegin(d: Disk, r: Record)
    requires Ended(d) && r.phase.Begin? && !IsZero(r.do)
    requires forall k :: k in NamedKeys(View(Lines(d))) ==> k < r.seqno
    ensures var d' := Append(d, r, Everything);
            && Load(d') == Load(d) + [Entry(r.seqno, r.op, r.do, r.undo, Begin)]
            && NamedKeys(View(Lines(d'))) == NamedKeys(View(Lines(d))) + {r.seqno}
            && View(Lines(d'))[r.seqno] == Entry(r.seqno, r.op, r.do, r.undo, Begin)
  {
    var m, e := View(Lines(d)), Entry(r.seqno, r.op, r.do, r.undo, Begin);
    ViewSnoc(Lines(d), Whole(r));
    NamedKeysUpdate(m, r.seqno, e);
    InOrderPush(m, r.seqno, e);
    assert NamedKeys(m) - {r.seqno} == NamedKeys(m);
  }

  /** A later record for the newest entry changes that entry's phase only. */
  lemma LoadPhase(d: Disk, n: int, phase: Phase)
    requires Ended(d) && !phase.Begin?
    requires n in NamedKeys(View(Lines(d))) && forall k :: k in NamedKeys(View(Lines(d))) ==> k <= n
    ensures var d' := Append(d, PhaseOnly(n, phase), Everything);
            && |Load(d)| > 0
            && Load(d)[|Load(d)| - 1] == View(Lines(d))[n]
            && Load(d') == Load(d)[..|Load(d)| - 1] + [View(Lines(d))[n].(phase := phase)]
            && NamedKeys(View(Lines(d'))) == NamedKeys(View(Lines(d)))
  {
    var m := View(Lines(d));
    var e := m[n].(phase := phase);
    ViewSnoc(Lines(d), Whole(PhaseOnly(n, phase)));
    NamedKeysUpdate(m, n, e);
    assert NamedKeys(m) + {n} == NamedKeys(m);
    InOrderPush(m, n, e);
    InOrderPush(m, n, m[n]);
    assert m[n := m[n]] == m;
  }

  // --- rewriting -------------------------------------------------------------

  function BeginLines(es: seq<Entry>): seq<Line> {
    if es == [] then [] else BeginLines(es[..|es| - 1]) + [Whole(BeginOf(es[|es| - 1]))]
  }

  /** The file RewriteJournal leaves: none at all when nothing is outstanding. */
  function Rewritten(es: seq<Entry>): Disk {
    if es == [] then Absent else File(BeginLines(es), true)
  }

  predicate Distinct(es: seq<Entry>) {
    forall i, j :: 0 <= i < j < |es| ==> es[i].seqno != es[j].seqno
  }

  function Numbers(es: seq<Entry>): set<int> {
    if es == [] then {} else Numbers(es[..|es| - 1]) + {es[|es| - 1].seqno}
  }

  lemma {:induction false} NumberAt(es: seq<Entry>, k: int) returns (i: nat)
    requires k in Numbers(es)
    ensures i < |es| && es[i].seqno == k
  {
    if k == es[|es| - 1].seqno {
      i := |es| - 1;
    } else {
      i := NumberAt(es[..|es| - 1], k);
    }
  }

  lemma {:induction false} HasNumber(es: seq<Entry>, i: nat)
    requires i < |es|
    ensures es[i].seqno in Numbers(es)
  {
    if i < |es| - 1 {
      HasNumber(es[..|es| - 1], i);
    }
  }

  lemma {:induction false} CountNumbers(es: seq<Entry>)
    requires Distinct(es)
    ensures |Numbers(es)| == |es|
  {
    if es != [] {
      var es', x := es[..|es| - 1], es[|es| - 1];
      CountNumbers(es');
      if x.seqno in Numbers(es') {
        var i := NumberAt(es', x.seqno);
        assert false;
      }
    }
  }

  lemma {:induction false} BeginLinesKeys(es: seq<Entry>)
    ensures View(BeginLines(es)).Keys == Numbers(es)
  {
    if es != [] {
      var es', x := es[..|es| - 1], es[|es| - 1];
      BeginLinesKeys(es');
      ViewSnoc(BeginLines(es'), Whole(BeginOf(x)));
    }
  }

  lemma {:induction false} BeginLinesAt(es: seq<Entry>, i: nat)
    requires Distinct(es) && i < |es|
    ensures es[i].seqno in View(BeginLines(es))
    ensures View(BeginLines(es))[es[i].seqno] == es[i].(phase := Begin)
  {
    var es', x := es[..|es| - 1], es[|es| - 1];
    ViewSnoc(BeginLines(es'), Whole(BeginOf(x)));
    if i < |es'| {
      assert es[i].seqno != es[|es| - 1].seqno;
      BeginLinesAt(es', i);
    }
  }

  /** RewriteJournal then LoadJournal gives back what was written, as begun, in
      sequence order whatever order it was written in. */
  lemma RewriteThenLoad(es: seq<Entry>)
    requires Distinct(es) && forall i :: 0 <= i < |es| ==> Named(es[i])
    ensures Increasing(Load(Rewritten(es)))
    ensures |Load(Rewritten(es))| == |es|
    ensures forall i :: 0 <= i < |es| ==> es[i].(phase := Begin) in Load(Rewritten(es))
    ensures forall e :: e in Load(Rewritten(es)) ==> exists i :: 0 <= i < |es| && e == es[i].(phase := Begin)
  {
    var d := Rewritten(es);
    assert Lines(d) == BeginLines(es);
    var m := View(Lines(d));
    BeginLinesKeys(es);
    CountNumbers(es);
    LoadMembers(d);
    forall i | 0 <= i < |es| ensures es[i].(phase := Begin) in Load(d) {
      BeginLinesAt(es, i);
    }
    forall k | k in m
      ensures exists i :: 0 <= i < |es| && es[i].seqno == k && m[k] == es[i].(phase := Begin)
    {
      var i := NumberAt(es, k);
      BeginLinesAt(es, i);
    }
    assert NamedKeys(m) == m.Keys;
    InOrderFacts(m, NamedKeys(m));
  }

  // --- reading the file, as the source does it -------------------------------

  /** LoadJournal: fold every line that decodes into a table keyed by sequence
      number, then take the entries out of the table and sort them. */
  method LoadJournal(d: Disk) returns (out: seq<Entry>)
    ensures out == Load(d)
  {
    if d.Absent? {
      return [];
    }
    var bySeq := FoldLines(d.lines);
    out := SortTable(bySeq);
  }

  method FoldLines(lines: seq<Line>) returns (bySeq: map<int, Entry>)
    ensures bySeq == View(lines)
  {
    bySeq := map[];
    var i := 0;
    while i < |lines|
      invariant 0 <= i <= |lines|
      invariant bySeq == ViewTo(lines, i)
    {
      match lines[i] {
        case Whole(r) =>
          var e := if r.seqno in bySeq then bySeq[r.seqno]
                   else Entry(r.seqno, "", ZERO, ZERO, r.phase);
          if r.phase.Begin? {
            e := e.(op := r.op, do := r.do, undo := r.undo);
          }
          bySeq := bySeq[r.seqno := e.(phase := r.phase)];
        case Garbled =>
      }
      i := i + 1;
    }
  }

  /** The table gives its entries in no particular order; those that name
      nothing are dropped. */
  method SortTable(bySeq: map<int, Entry>) returns (out: seq<Entry>)
    requires Keyed(bySeq)
    ensures out == InOrder(bySeq, NamedKeys(bySeq))
  {
    out := [];
    var todo := bySeq.Keys;
    ghost var taken: set<int> := {};
    while todo != {}
      invariant taken <= bySeq.Keys && taken !! todo && todo <= bySeq.Keys
      invariant forall k :: k in bySeq && k !in todo ==> (k in taken <==> Named(bySeq[k]))
      invariant out == InOrder(bySeq, taken)
      decreases |todo|
    {
      HasMember(todo);
      var k :| k in todo;
      todo := todo - {k};
      if Named(bySeq[k]) {
        InsertInOrder(bySeq, taken, k);
        out := InsertBySeq(out, bySeq[k]);
        taken := taken + {k};
      }
    }
    forall k ensures k in taken <==> k in NamedKeys(bySeq) {
    }
    assert taken == NamedKeys(bySeq);
  }

  /** One step of sorting by sequence number. */
  function InsertBySeq(es: seq<Entry>, x: Entry): seq<Entry> {
    if es == [] || es[|es| - 1].seqno < x.seqno then es + [x]
    else InsertBySeq(es[..|es| - 1], x) + [es[|es| - 1]]
  }

  lemma {:induction false} InsertInOrder(m: map<int, Entry>, ks: set<int>, k: int)
    requires ks <= m.Keys && Keyed(m) && k in m && k !in ks
    ensures InsertBySeq(InOrder(m, ks), m[k]) == InOrder(m, ks + {k})
  {
    if ks != {} && MaxOf(ks) > k {
      var top := MaxOf(ks);
      assert MaxOf(ks + {k}) == top;
      assert ks + {k} - {top} == ks - {top} + {k};
      InsertInOrder(m, ks - {top}, k);
    } else {
      InOrderTop(m, ks, k);
    }
  }

  // --- opening ---------------------------------------------------------------

  /** The counter OpenJournal starts from: the largest number in use. */
  function TopOf(es: seq<Entry>): (n: int)
    ensures n >= 0 && forall i :: 0 <= i < |es| ==> es[i].seqno <= n
  {
    if es == [] then 0
    else
      var n := TopOf(es[..|es| - 1]);
      if es[|es| - 1].seqno > n then es[|es| - 1].seqno else n
  }

  // --- the torn tail ---------------------------------------------------------

  /** A record appended whole is the newest fact in the journal exactly when the
      file ended in a newline or the record repeats what the file says without
      its unfinished line. */
  lemma AppendIsReadBackIff(d: Disk, r: Record)
    ensures View(Lines(Append(d, r, Everything))) == Absorb(View(Settled(d)), r)
       <==> Ended(d) || Absorb(View(Settled(d)), r) == View(Settled(d))
  {
    if Ended(d) {
      ViewSnoc(Lines(d), Whole(r));
    } else {
      ViewSnoc(Front(Lines(d)), Garbled);
    }
  }

  /** A crash in the middle of the very first write leaves one unfinished line. The
      next begin record, reported as written, is not there on load; on an empty file
      it is. */
  lemma TornFirstRecordSwallowsTheNext(torn: Disk, empty: Disk, r: Record)
    requires !Ended(torn) && |Lines(torn)| == 1 && Ended(empty) && Lines(empty) == []
    requires r.phase.Begin? && !IsZero(r.do)
    ensures Load(Append(torn, r, Everything)) == []
    ensures Load(Append(empty, r, Everything)) == Load(empty) + [Entry(r.seqno, r.op, r.do, r.undo, Begin)]
  {
    ViewSnoc([], Garbled);
    assert Lines(Append(torn, r, Everything)) == [] + [Garbled];
    assert NamedKeys(View(Lines(empty))) == {};
    LoadBegin(empty, r);
  }
}
