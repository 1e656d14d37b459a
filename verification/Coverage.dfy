// Write-ahead coverage: at every moment, and so at every moment a crash can
// strike, the journal on disk names the inverse of every change that may have
// landed.

module Coverage {
  import opened Commands
  import opened Journal
  import opened World
  import opened Protocol

  /** The fold holds a live entry for this change, on the right side of the
      firewall's hold. */
  predicate Filed(m: map<int, Entry>, x: Debt) {
    && x.n in m
    && NeedsUndo(m[x.n])
    && m[x.n].undo == x.undo
    && (m[x.n].op == OP_NFT <==> IsNft(x.undo))
  }

  predicate Covers(lines: seq<Line>, owed: set<Debt>) {
    forall x :: x in owed ==> Filed(View(lines), x)
  }

  /** Covered by what a load reads now, and by what a load will read after the
      unfinished last line, if there is one, has been spoilt. */
  predicate Safe(d: Disk, owed: set<Debt>) {
    Covers(Lines(d), owed) && Covers(Settled(d), owed)
  }

  predicate Below(owed: set<Debt>, top: int) {
    forall x :: x in owed ==> x.n <= top
  }

  /** All that is owed, or only what does not concern the firewall. */
  function Claimed(k: Kernel, all: bool): set<Debt> {
    if all then k.owed else set x | x in k.owed && !IsNft(x.undo)
  }

  /** A step keeps to its side: it loads and unloads rulesets exactly when its
      operation is the firewall's. */
  predicate WellFormed(s: Step) {
    if s.op == OP_NFT then s.do == NftLoad(s.do.stdin) && s.do.stdin != TEARDOWN && s.undo == NFT_UNLOAD
    else !IsNft(s.do) && !IsNft(s.undo)
  }

  // --- one append ------------------------------------------------------------

  lemma AppendKeepsCover(d: Disk, r: Record, left: Left, owed: set<Debt>)
    requires Safe(d, owed)
    requires Ended(d) ==> Covers(Lines(d) + [Whole(r)], owed)
    ensures Safe(Append(d, r, left), owed)
  {
    if Ended(d) {
      ViewSnoc(Lines(d), Garbled);
      assert Front(Lines(d) + [Garbled]) == Lines(d);
      assert Front(Lines(d) + [Whole(r)]) == Lines(d);
    } else {
      ViewSnoc(Front(Lines(d)), Garbled);
      assert Front(Front(Lines(d)) + [Garbled]) == Front(Lines(d));
    }
  }

  /** A record under a number nothing is owed under disturbs no cover. */
  lemma FreshRecord(lines: seq<Line>, r: Record, owed: set<Debt>)
    requires Covers(lines, owed) && forall x :: x in owed ==> x.n != r.seqno
    ensures Covers(lines + [Whole(r)], owed)
  {
    ViewSnoc(lines, Whole(r));
  }

  lemma BeginFiles(lines: seq<Line>, n: int, s: Step)
    requires WellFormed(s) && !IsZero(s.undo)
    ensures Filed(View(lines + [Whole(Record(n, Begin, s.op, s.do, s.undo))]), Debt(n, s.undo))
  {
    ViewSnoc(lines, Whole(Record(n, Begin, s.op, s.do, s.undo)));
  }

  lemma OutcomeKeepsFiled(lines: seq<Line>, n: int, phase: Phase, owed: set<Debt>)
    requires Covers(lines, owed) && (phase.Done? || phase.Failed?)
    ensures Covers(lines + [Whole(PhaseOnly(n, phase))], owed)
  {
    ViewSnoc(lines, Whole(PhaseOnly(n, phase)));
  }

  lemma LogKeepsCover(env: Env, w: World, r: Record, owed: set<Debt>)
    requires Safe(w.disk, owed)
    requires Ended(w.disk) ==> Covers(Lines(w.disk) + [Whole(r)], owed)
    ensures Safe(Log(env, w, r).w.disk, owed)
    ensures Log(env, w, r).w.kernel == w.kernel
    ensures Log(env, w, r).ok ==> w.up && Log(env, w, r).w.up && Log(env, w, r).w.disk == Append(w.disk, r, Everything)
  {
    if w.up {
      match env.write(w.clock) {
        case Written => AppendKeepsCover(w.disk, r, Everything, owed);
        case WriteError(left) => AppendKeepsCover(w.disk, r, left, owed);
        case WriteDies(left) => AppendKeepsCover(w.disk, r, left, owed);
      }
    }
  }

  // --- one step --------------------------------------------------------------

  /** What holds before and after every step of an apply. */
  predicate Session(w: World, top: int, all: bool) {
    Safe(w.disk, Claimed(w.kernel, all)) && Below(Claimed(w.kernel, all), top)
  }

  /** Whether a step may be run on this file: one that is not closed by a
      newline swallows the first record, which only the firewall can afford. */
  predicate MayWrite(d: Disk, s: Step, all: bool) {
    Ended(d) || (!all && s.op == OP_NFT)
  }

  lemma BeginKeepsCover(env: Env, w: World, n: int, s: Step, all: bool)
    requires WellFormed(s) && MayWrite(w.disk, s, all)
    requires Session(w, n - 1, all)
    ensures var l := Log(env, w, Record(n, Begin, s.op, s.do, s.undo));
            && Session(l.w, n - 1, all)
            && (l.ok ==> l.w.up && Ended(l.w.disk))
            && (l.ok && !IsZero(s.undo) && (all || !IsNft(s.undo)) ==> Filed(View(Lines(l.w.disk)), Debt(n, s.undo)))
  {
    var rec := Record(n, Begin, s.op, s.do, s.undo);
    if Ended(w.disk) {
      FreshRecord(Lines(w.disk), rec, Claimed(w.kernel, all));
      if !IsZero(s.undo) {
        BeginFiles(Lines(w.disk), n, s);
      }
    }
    LogKeepsCover(env, w, rec, Claimed(w.kernel, all));
  }

  lemma DoKeepsCover(env: Env, w: World, n: int, s: Step, all: bool)
    requires Session(w, n - 1, all) && Ended(w.disk)
    requires !IsZero(s.undo) && (all || !IsNft(s.undo)) ==> Filed(View(Lines(w.disk)), Debt(n, s.undo))
    ensures var r := ExecDo(env, w, n, s);
            && Session(r.w, n, all) && r.w.disk == w.disk
            && (r.a.Fails? && ReadAsUnchanged(s.do, r.a.stderr, r.a.err) ==> Session(r.w, n - 1, all))
  {
    var r := ExecDo(env, w, n, s);
    var owed, owed' := Claimed(w.kernel, all), Claimed(r.w.kernel, all);
    var x := Debt(n, s.undo);
    assert owed' == owed || owed' == owed + {x};
  }

  lemma ConcludeKeepsCover(env: Env, w: World, n: int, s: Step, a: Answer, all: bool)
    requires Session(w, n, all) && Ended(w.disk)
    requires a.Fails? && ReadAsUnchanged(s.do, a.stderr, a.err) ==> Session(w, n - 1, all)
    ensures var r := Conclude(env, w, n, s, a);
            Session(r.w, n, all) && r.seqno == n && (r.ok ==> r.w.up && Ended(r.w.disk))
  {
    var owed := Claimed(w.kernel, all);
    OutcomeKeepsFiled(Lines(w.disk), n, Done, owed);
    OutcomeKeepsFiled(Lines(w.disk), n, Failed, owed);
    LogKeepsCover(env, w, PhaseOnly(n, Done), owed);
    LogKeepsCover(env, w, PhaseOnly(n, Failed), owed);
    if a.Fails? && ReadAsUnchanged(s.do, a.stderr, a.err) {
      FreshRecord(Lines(w.disk), PhaseOnly(n, Preexisting), owed);
      LogKeepsCover(env, w, PhaseOnly(n, Preexisting), owed);
    }
  }

  lemma RunStepKeepsCover(env: Env, w: World, n: int, s: Step, all: bool)
    requires WellFormed(s) && MayWrite(w.disk, s, all)
    requires Session(w, n - 1, all)
    ensures var r := RunStep(env, w, n, s);
            Session(r.w, n, all) && r.seqno == n && (r.ok ==> r.w.up && Ended(r.w.disk))
  {
    BeginKeepsCover(env, w, n, s, all);
    var begun := Log(env, w, Record(n, Begin, s.op, s.do, s.undo));
    if begun.ok {
      DoKeepsCover(env, begun.w, n, s, all);
      var ran := ExecDo(env, begun.w, n, s);
      ConcludeKeepsCover(env, ran.w, n, s, ran.a, all);
    }
  }

  lemma ApplyStepKeepsCover(env: Env, w: World, seqno: int, state: map<string, string>, s: Step, all: bool)
    requires WellFormed(s) && MayWrite(w.disk, s, all)
    requires Session(w, seqno, all)
    ensures var r := ApplyStep(env, w, seqno, state, s);
            && Session(r.w, r.seqno, all)
            && (r.ok && Ended(w.disk) ==> Ended(r.w.disk))
            && (r.ok && !InForce(state, s.do) && !s.queried ==> Ended(r.w.disk))
  {
    var r := ApplyStep(env, w, seqno, state, s);
    var w1 := if s.queried && w.up then w.(clock := w.clock + 1) else w;
    assert Session(w1, seqno, all);
    if InForce(state, s.do) {
      assert r.w == w && r.seqno == seqno;
    } else if s.queried && w.up && env.satisfied(w.clock) {
      assert r.w == w1 && r.seqno == seqno;
    } else {
      assert r == RunStep(env, w1, seqno + 1, s);
      RunStepKeepsCover(env, w1, seqno + 1, s, all);
    }
  }

  lemma {:induction false} ApplyKeepsCover(env: Env, w: World, seqno: int, state: map<string, string>,
                                           steps: seq<Step>, all: bool)
    requires Ended(w.disk) && Session(w, seqno, all)
    requires forall s :: s in steps ==> WellFormed(s)
    ensures var r := ApplyFrom(env, w, seqno, state, steps);
            Session(r.w, r.seqno, all) && (r.ok ==> Ended(r.w.disk))
    decreases |steps|
  {
    if steps != [] {
      if IsZero(steps[0].do) {
        ApplyKeepsCover(env, w, seqno, state, steps[1..], all);
      } else {
        var one := ApplyStep(env, w, seqno, state, steps[0]);
        ApplyStepKeepsCover(env, w, seqno, state, steps[0], all);
        if one.ok {
          ApplyKeepsCover(env, one.w, one.seqno, state, steps[1..], all);
        }
      }
    }
  }

  /** The journal yields a live entry for this change. */
  ghost predicate Listed(d: Disk, x: Debt) {
    exists e :: e in Load(d) && e.seqno == x.n && e.undo == x.undo && NeedsUndo(e)
  }

  lemma FiledIsListed(d: Disk, x: Debt)
    requires Filed(View(Lines(d)), x)
    ensures Listed(d, x)
  {
    LoadMembers(d);
    assert View(Lines(d))[x.n] in Load(d);
  }

  /** Write-ahead coverage. Whatever the commands and the disk answer, and
      wherever the process is killed, loading the journal afterwards yields a
      live entry for every change that may have landed and has an inverse. */
  lemma WriteAheadCoverage(env: Env, w: World, steps: seq<Step>)
    requires Ended(w.disk) && Covers(Lines(w.disk), w.kernel.owed)
    requires forall s :: s in steps ==> WellFormed(s)
    ensures var r := Apply(env, w, TopOf(Load(w.disk)), steps);
            forall x :: x in r.w.kernel.owed ==> Listed(r.w.disk, x)
  {
    var top := TopOf(Load(w.disk));
    forall x | x in w.kernel.owed ensures x.n <= top {
      FiledIsListed(w.disk, x);
    }
    ApplyKeepsCover(env, w, top, CurrentState(Load(w.disk)), steps, true);
    var r := Apply(env, w, top, steps);
    forall x | x in r.w.kernel.owed ensures Listed(r.w.disk, x) {
      FiledIsListed(r.w.disk, x);
    }
  }

  /** The file holds one fragment, as a crash in the first write leaves it. */
  predicate Torn(d: Disk) {
    d.File? && !d.ended && |d.lines| == 1 && d.lines[0].Garbled?
  }

  /** Without the newline the promise fails: a crash in the first write leaves a
      fragment, the next apply appends to it, and the change it makes is in
      force with nothing on file to undo it. */
  lemma CoverageNeedsTheNewline(env: Env, d: Disk, rest: Machine, s: Step)
    requires env.write == ((t: nat) => Written) && Torn(d)
    requires env.run == ((t: nat, c: Command, m: Machine) => Ok)
    requires !IsZero(s.do) && !IsZero(s.undo) && !s.queried
    ensures var w := World(d, Kernel(None, rest, {}), 0, true);
            var r := Apply(env, w, TopOf(Load(w.disk)), [s]);
            && r.ok && r.results == [StepResult(s, Changed)]
            && r.w.kernel.owed == {Debt(1, s.undo)}
            && Load(r.w.disk) == []
  {
    FragmentSwallows(d, s);
    ApplyTheOne(env, World(d, Kernel(None, rest, {}), 0, true), s);
  }

  /** The begin record is glued to the fragment, and the outcome's alone names nothing. */
  lemma FragmentSwallows(d: Disk, s: Step)
    requires Torn(d)
    ensures var d1 := Append(d, Record(1, Begin, s.op, s.do, s.undo), Everything);
            Load(d) == [] && Load(Append(d1, PhaseOnly(1, Done), Everything)) == []
  {
    var d1 := Append(d, Record(1, Begin, s.op, s.do, s.undo), Everything);
    assert ViewTo(d.lines, 0) == map[] && View(Lines(d)) == map[];
    assert |Lines(d1)| == 1 && Lines(d1)[0] == Garbled;
    assert ViewTo(Lines(d1), 0) == map[] && View(Lines(d1)) == map[];
    ViewSnoc(Lines(d1), Whole(PhaseOnly(1, Done)));
    assert NamedKeys(View(Lines(Append(d1, PhaseOnly(1, Done), Everything)))) == {};
  }

  lemma ApplyTheOne(env: Env, w: World, s: Step)
    requires env.write == ((t: nat) => Written) && env.run == ((t: nat, c: Command, m: Machine) => Ok)
    requires w.up && !IsZero(s.do) && !IsZero(s.undo) && !s.queried && w.kernel.owed == {}
    ensures var r := ApplyFrom(env, w, 0, map[], [s]);
            && r.ok && r.results == [StepResult(s, Changed)] && r.w.kernel.owed == {Debt(1, s.undo)}
            && r.w.disk == Append(Append(w.disk, Record(1, Begin, s.op, s.do, s.undo), Everything), PhaseOnly(1, Done), Everything)
  {
    var one := ApplyStep(env, w, 0, map[], s);
    assert one.ok && one.status == Changed;
    assert ApplyFrom(env, one.w, one.seqno, map[], []) == Applied(one.w, one.seqno, [], true);
    assert [s][1..] == [];
  }

  // --- exactness -------------------------------------------------------------

  /** The entries a finished apply has added, from the report it returns. */
  function Added(n: int, results: seq<StepResult>): seq<Entry>
    decreases |results|
  {
    if results == [] then []
    else
      var s := results[0].s;
      match results[0].status
      case Changed => [Entry(n + 1, s.op, s.do, s.undo, Done)] + Added(n + 1, results[1..])
      case Unchanged => [Entry(n + 1, s.op, s.do, s.undo, Preexisting)] + Added(n + 1, results[1..])
      case Broken => [Entry(n + 1, s.op, s.do, s.undo, Failed)] + Added(n + 1, results[1..])
      case _ => Added(n, results[1..])
  }

  ghost predicate AllWritten(env: Env) {
    forall t: nat :: env.write(t).Written?
  }

  predicate Numbered(d: Disk, top: int) {
    forall k :: k in NamedKeys(View(Lines(d))) ==> k <= top
  }

  /** What a step's two records leave: the begin, then the outcome. */
  lemma TwoRecords(d: Disk, n: int, s: Step, phase: Phase)
    requires Ended(d) && Numbered(d, n - 1) && !IsZero(s.do) && !phase.Begin?
    ensures var d1 := Append(d, Record(n, Begin, s.op, s.do, s.undo), Everything);
            var d2 := Append(d1, PhaseOnly(n, phase), Everything);
            Ended(d2) && Numbered(d2, n) && Load(d2) == Load(d) + [Entry(n, s.op, s.do, s.undo, phase)]
  {
    var rec := Record(n, Begin, s.op, s.do, s.undo);
    LoadBegin(d, rec);
    var d1 := Append(d, rec, Everything);
    LoadPhase(d1, n, phase);
    assert Load(d1)[..|Load(d1)| - 1] == Load(d);
  }

  function PhaseOf(status: Status): Phase {
    match status
    case Changed => Done
    case Unchanged => Preexisting
    case _ => Failed
  }

  lemma StepIsExact(env: Env, w: World, n: int, s: Step)
    requires w.up && (AllWritten(env) || RunStep(env, w, n, s).ok)
    ensures var r := RunStep(env, w, n, s);
            r.w.up ==>
              && (r.status.Changed? || r.status.Unchanged? || r.status.Broken?)
              && (r.status.Broken? <==> !r.ok)
              && r.seqno == n
              && r.w.disk == Append(Append(w.disk, Record(n, Begin, s.op, s.do, s.undo), Everything),
                                    PhaseOnly(n, PhaseOf(r.status)), Everything)
  {
    assert env.write(w.clock).Written?;
    var begun := Log(env, w, Record(n, Begin, s.op, s.do, s.undo));
    var ran := ExecDo(env, begun.w, n, s);
    assert ran.w.up ==> env.write(ran.w.clock).Written?;
  }

  /** The file is closed and numbered, and holds what it held before and the
      entries the report accounts for. */
  ghost predicate Grew(w: World, n: int, w': World, n': int, results: seq<StepResult>) {
    w'.up ==>
      && Ended(w'.disk) && Numbered(w'.disk, n')
      && Load(w'.disk) == Load(w.disk) + Added(n, results)
      && n' == n + |Added(n, results)|
  }

  lemma AddedCons(n: int, r: StepResult, rest: seq<StepResult>)
    ensures Added(n, [r] + rest) == Added(n, [r]) + Added(n + |Added(n, [r])|, rest)
  {
    assert ([r] + rest)[1..] == rest;
    assert [r][1..] == [];
  }

  lemma GrewOn(w: World, n: int, w1: World, n1: int, r: StepResult, w2: World, n2: int, rest: seq<StepResult>)
    requires w1.up && Grew(w, n, w1, n1, [r]) && Grew(w1, n1, w2, n2, rest)
    ensures Grew(w, n, w2, n2, [r] + rest)
  {
    if w2.up {
      AddedCons(n, r, rest);
      var l, x, y := Load(w.disk), Added(n, [r]), Added(n1, rest);
      assert Load(w2.disk) == (l + x) + y == l + (x + y);
    }
  }

  /** What running one step of an apply adds to the journal. */
  lemma {:induction false} ApplyStepIsExact(env: Env, w: World, seqno: int, state: map<string, string>, s: Step)
    requires AllWritten(env) || ApplyStep(env, w, seqno, state, s).ok
    requires w.up && Ended(w.disk) && Numbered(w.disk, seqno) && !IsZero(s.do)
    ensures var r := ApplyStep(env, w, seqno, state, s);
            && Grew(w, seqno, r.w, r.seqno, [StepResult(s, r.status)])
            && (r.ok ==> r.w.up)
  {
    var r := ApplyStep(env, w, seqno, state, s);
    var w1 := if s.queried && w.up then w.(clock := w.clock + 1) else w;
    if InForce(state, s.do) {
      assert r.w == w && r.status == Ours;
      GrewByNone(w, seqno, r.w, StepResult(s, Ours));
    } else if s.queried && w.up && env.satisfied(w.clock) {
      assert r.w == w1 && r.status == Present;
      GrewByNone(w, seqno, r.w, StepResult(s, Present));
    } else {
      assert r == RunStep(env, w1, seqno + 1, s);
      StepIsExact(env, w1, seqno + 1, s);
      if r.w.up {
        TwoRecords(w.disk, seqno + 1, s, PhaseOf(r.status));
        GrewByOne(w, seqno + 1, s, r.w, r.status);
      }
    }
  }

  lemma GrewByNone(w: World, n: int, w': World, r: StepResult)
    requires Ended(w.disk) && Numbered(w.disk, n) && w'.disk == w.disk && (r.status.Ours? || r.status.Present?)
    ensures Grew(w, n, w', n, [r])
  {
    assert [r][1..] == [];
  }

  lemma GrewByOne(w: World, n: int, s: Step, w': World, status: Status)
    requires status.Changed? || status.Unchanged? || status.Broken?
    requires Ended(w'.disk) && Numbered(w'.disk, n)
    requires Load(w'.disk) == Load(w.disk) + [Entry(n, s.op, s.do, s.undo, PhaseOf(status))]
    ensures Grew(w, n - 1, w', n, [StepResult(s, status)])
  {
    assert [StepResult(s, status)][1..] == [];
  }

  /** When Apply returns, having succeeded or with its records written, the journal
      holds what it held before and, in order, one entry for each step that was run:
      live if the step changed something or failed, retracted if it is known to have
      changed nothing. Steps that were skipped have no entry at all. */
  lemma {:induction false} ApplyIsExact(env: Env, w: World, seqno: int, state: map<string, string>, steps: seq<Step>)
    requires AllWritten(env) || ApplyFrom(env, w, seqno, state, steps).ok
    requires w.up && Ended(w.disk) && Numbered(w.disk, seqno)
    ensures var r := ApplyFrom(env, w, seqno, state, steps);
            Grew(w, seqno, r.w, r.seqno, r.results)
    decreases |steps|
  {
    if steps != [] {
      if IsZero(steps[0].do) {
        ApplyIsExact(env, w, seqno, state, steps[1..]);
      } else {
        ApplyStepIsExact(env, w, seqno, state, steps[0]);
        var one := ApplyStep(env, w, seqno, state, steps[0]);
        if one.ok {
          ApplyIsExact(env, one.w, one.seqno, state, steps[1..]);
          var rest := ApplyFrom(env, one.w, one.seqno, state, steps[1..]);
          GrewOn(w, seqno, one.w, one.seqno, StepResult(steps[0], one.status), rest.w, rest.seqno, rest.results);
        }
      }
    }
  }
}
