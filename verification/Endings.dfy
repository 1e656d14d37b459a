// How one step can end: which of its records are legible, whether its change was
// made, and what of that a later load can tell.

module Endings {
  import opened Commands
  import opened Journal
  import opened World
  import opened Protocol
  import opened Coverage
  import FailClosed

  function LeftOf(x: WriteEnd): Left {
    match x
    case Written => Everything
    case WriteError(left) => left
    case WriteDies(left) => left
  }

  /** Enough of a record is in the file for a load to read it. */
  predicate Legible(left: Left) {
    left.NoNewline? || left.Everything?
  }

  /** The answer of a step's command, when it is run from this world. */
  function AnswerOf(env: Env, w: World, s: Step): Answer {
    env.run(w.clock + 1, s.do, w.kernel.rest)
  }

  /** The begin record is on file, whatever was reported of it. */
  predicate Begun(env: Env, w: World) {
    Legible(LeftOf(env.write(w.clock)))
  }

  /** The step was run and its change was made. */
  predicate Landed(env: Env, w: World, s: Step) {
    env.write(w.clock).Written? && Lands(s.do, AnswerOf(env, w, s))
  }

  /** The step was run, found to change nothing, and that is on file. */
  predicate Retracted(env: Env, w: World, s: Step) {
    && env.write(w.clock).Written?
    && var a := AnswerOf(env, w, s);
       && a.Fails? && ReadAsUnchanged(s.do, a.stderr, a.err)
       && Legible(LeftOf(env.write(w.clock + 2)))
  }

  /** The step leaves on file a live inverse for a change that was not made: its
      begin record is there, and either it was never run, or its change did not
      land and that is not on file. */
  predicate Strands(env: Env, w: World, s: Step) {
    s.op != OP_NFT && !IsZero(s.undo) && Begun(env, w) && !Landed(env, w, s) && !Retracted(env, w, s)
  }

  /** A step reported a success made its change, or is known to have made none. */
  lemma OkStep(env: Env, w: World, n: int, s: Step)
    requires w.up
    ensures RunStep(env, w, n, s).ok ==> Landed(env, w, s) || Retracted(env, w, s)
  {
  }

  /** What a step did to the machine, whatever became of its records and of the
      process. */
  lemma StepDid(env: Env, w: World, n: int, s: Step)
    requires w.up && WellFormed(s)
    ensures var k := RunStep(env, w, n, s).w.kernel;
            if s.op == OP_NFT then
              k.rest == w.kernel.rest && k.fw == (if Landed(env, w, s) then Some(s.do.stdin) else w.kernel.fw)
            else
              k.fw == w.kernel.fw && k.rest == (if Landed(env, w, s) then env.eff(s.do, w.kernel.rest) else w.kernel.rest)
  {
    var begun := Log(env, w, Record(n, Begin, s.op, s.do, s.undo));
    if begun.ok {
      var ran := ExecDo(env, begun.w, n, s);
      FailClosed.LogKeepsKernel(env, ran.w, n, s, ran.a);
    }
  }

  /** A load reads an appended record exactly when enough of it is there. */
  lemma {:induction false} LoadAppended(d: Disk, r: Record, left: Left)
    requires Ended(d)
    ensures Load(Append(d, r, left)) == if Legible(left) then Load(Append(d, r, Everything)) else Load(d)
    ensures View(Lines(Append(d, r, left))) == if Legible(left) then View(Lines(Append(d, r, Everything))) else View(Lines(d))
  {
    if Legible(left) {
      assert Lines(Append(d, r, left)) == Lines(Append(d, r, Everything));
    } else if left.Fragment? {
      ViewSnoc(Lines(d), Garbled);
      assert View(Lines(Append(d, r, left))) == View(Lines(d));
    }
  }

  /** The record that follows an answer. */
  function OutcomeOf(s: Step, a: Answer): Phase {
    match a
    case Ok => Done
    case Fails(stderr, err, _) => if ReadAsUnchanged(s.do, stderr, err) then Preexisting else Failed
    case Dies(_) => Begin
  }

  /** The phase of the entry a step leaves on file. */
  function Reached(env: Env, w: World, s: Step): Phase {
    if env.write(w.clock).Written? && Legible(LeftOf(env.write(w.clock + 2))) then OutcomeOf(s, AnswerOf(env, w, s))
    else Begin
  }

  /** The entry is live unless the step was retracted. */
  lemma LiveUnlessRetracted(env: Env, w: World, n: int, s: Step)
    requires Begun(env, w)
    ensures NeedsUndo(Entry(n, s.op, s.do, s.undo, Reached(env, w, s))) <==> !Retracted(env, w, s) && !IsZero(s.undo)
  {
  }

  /** What a step wrote: as much of its begin record as the first append left, and
      as much of its outcome's as the second. */
  predicate Wrote(env: Env, w: World, n: int, s: Step, r: Stepped) {
    var d := Append(w.disk, Record(n, Begin, s.op, s.do, s.undo), LeftOf(env.write(w.clock)));
    var a, second := AnswerOf(env, w, s), env.write(w.clock + 2);
    if !env.write(w.clock).Written? || a.Dies? then r.w.disk == d && !r.ok
    else
      && r.w.disk == Append(d, PhaseOnly(n, OutcomeOf(s, a)), LeftOf(second))
      && (r.ok ==> second.Written? && r.w.up && r.seqno == n)
  }

  lemma StepWrote(env: Env, w: World, n: int, s: Step)
    requires w.up
    ensures Wrote(env, w, n, s, RunStep(env, w, n, s))
  {
  }

  /** What a later load reads of a step: an entry if its begin record is legible, in
      the phase its records reached. */
  ghost predicate FilesEntry(env: Env, w: World, n: int, s: Step, r: Stepped) {
    && Load(r.w.disk) == Load(w.disk) + (if Begun(env, w) then [Entry(n, s.op, s.do, s.undo, Reached(env, w, s))] else [])
    && Numbered(r.w.disk, n)
    && (r.ok ==> r.w.up && r.seqno == n && Ended(r.w.disk))
  }

  lemma BeginFiled(d: Disk, n: int, s: Step, left: Left)
    requires Ended(d) && Numbered(d, n - 1) && !IsZero(s.do)
    ensures var d' := Append(d, Record(n, Begin, s.op, s.do, s.undo), left);
            Load(d') == Load(d) + (if Legible(left) then [Entry(n, s.op, s.do, s.undo, Begin)] else []) && Numbered(d', n)
  {
    LoadBegin(d, Record(n, Begin, s.op, s.do, s.undo));
    LoadAppended(d, Record(n, Begin, s.op, s.do, s.undo), left);
  }

  lemma OutcomeFiled(d: Disk, n: int, s: Step, phase: Phase, left: Left)
    requires Ended(d) && Numbered(d, n - 1) && !IsZero(s.do) && !phase.Begin?
    ensures var d' := Append(Append(d, Record(n, Begin, s.op, s.do, s.undo), Everything), PhaseOnly(n, phase), left);
            && Load(d') == Load(d) + [Entry(n, s.op, s.do, s.undo, if Legible(left) then phase else Begin)]
            && Numbered(d', n) && (left.Everything? ==> Ended(d'))
  {
    BeginFiled(d, n, s, Everything);
    LoadAppended(Append(d, Record(n, Begin, s.op, s.do, s.undo), Everything), PhaseOnly(n, phase), left);
    if Legible(left) {
      TwoRecords(d, n, s, phase);
    }
  }

  lemma {:induction false} WroteFiles(env: Env, w: World, n: int, s: Step, r: Stepped)
    requires !IsZero(s.do) && Ended(w.disk) && Numbered(w.disk, n - 1) && Wrote(env, w, n, s, r)
    ensures FilesEntry(env, w, n, s, r)
  {
    var a := AnswerOf(env, w, s);
    if !env.write(w.clock).Written? || a.Dies? {
      BeginFiled(w.disk, n, s, LeftOf(env.write(w.clock)));
    } else {
      OutcomeFiled(w.disk, n, s, OutcomeOf(s, a), LeftOf(env.write(w.clock + 2)));
    }
  }

  // --- a whole apply ---------------------------------------------------------

  /** The journal or the machine already answers the step. */
  predicate Skips(env: Env, w: World, state: map<string, string>, s: Step) {
    InForce(state, s.do) || (s.queried && env.satisfied(w.clock))
  }

  function Queried(w: World, s: Step): World {
    if s.queried then w.(clock := w.clock + 1) else w
  }

  lemma SkippedStep(env: Env, w: World, n: int, state: map<string, string>, s: Step)
    requires w.up && Skips(env, w, state, s)
    ensures var r := ApplyStep(env, w, n, state, s);
            r.ok && r.w.up && r.w.disk == w.disk && r.w.kernel == w.kernel && r.seqno == n
  {
  }

  lemma SameStep(env: Env, w: World, n: int, state: map<string, string>, s: Step)
    requires w.up && !Skips(env, w, state, s)
    ensures ApplyStep(env, w, n, state, s) == RunStep(env, Queried(w, s), n + 1, s)
  {
  }

  /** The entry of the step an apply stopped at, if its begin record is legible. */
  function LastEntry(env: Env, at: World, n: int, s: Step): seq<Entry> {
    if Begun(env, at) then [Entry(n, s.op, s.do, s.undo, Reached(env, at, s))] else []
  }

  /** The journal holds what it held, the entries of the steps reported as fine, and
      entry for the step the apply stopped at, if it stopped. */
  ghost predicate Tally(w: World, n: int, r: Applied, fine: seq<StepResult>, s: Step, last: Stepped, entry: seq<Entry>) {
    if r.ok then fine == r.results && Load(r.w.disk) == Load(w.disk) + Added(n, fine) && r.seqno == n + |Added(n, fine)|
    else
      && !last.ok && r.w == last.w && r.results == fine + ReportOf(s, last)
      && Load(r.w.disk) == Load(w.disk) + Added(n, fine) + entry
  }

  /** It stopped where the step s, run in the world at, did not end well. */
  ghost predicate Accounts(env: Env, w: World, n: int, r: Applied, fine: seq<StepResult>, at: World, s: Step) {
    var k := n + |Added(n, fine)| + 1;
    Tally(w, n, r, fine, s, RunStep(env, at, k, s), LastEntry(env, at, k, s))
  }

  lemma NothingBefore(env: Env, w: World, n: int, at: World, s: Step, last: Stepped)
    requires last == RunStep(env, at, n + 1, s) && !last.ok && Load(last.w.disk) == Load(w.disk) + LastEntry(env, at, n + 1, s)
    ensures Accounts(env, w, n, Applied(last.w, last.seqno, ReportOf(s, last), false), [], at, s)
  {
    assert [] + ReportOf(s, last) == ReportOf(s, last);
    assert Load(w.disk) + [] == Load(w.disk);
  }

  lemma StoppedHere(env: Env, w: World, n: int, state: map<string, string>, s: Step)
    requires w.up && Ended(w.disk) && Numbered(w.disk, n) && !IsZero(s.do) && !ApplyStep(env, w, n, state, s).ok
    ensures var one := ApplyStep(env, w, n, state, s);
            Accounts(env, w, n, Applied(one.w, one.seqno, ReportOf(s, one), false), [], Queried(w, s), s)
  {
    var at := Queried(w, s);
    if Skips(env, w, state, s) {
      SkippedStep(env, w, n, state, s);
    }
    SameStep(env, w, n, state, s);
    var last := RunStep(env, at, n + 1, s);
    StepWrote(env, at, n + 1, s);
    WroteFiles(env, at, n + 1, s, last);
    NothingBefore(env, w, n, at, s, last);
  }

  lemma Regroup<T>(a: seq<T>, b: seq<T>, c: seq<T>)
    ensures (a + b) + c == a + (b + c)
  {
  }

  lemma TallyOn(w: World, n: int, w1: World, n1: int, line: StepResult, r: Applied, fine: seq<StepResult>,
                s: Step, last: Stepped, entry: seq<Entry>)
    requires w1.up && Coverage.Grew(w, n, w1, n1, [line]) && Tally(w1, n1, r, fine, s, last, entry)
    ensures Tally(w, n, r.(results := [line] + r.results), [line] + fine, s, last, entry)
    ensures n + |Added(n, [line] + fine)| == n1 + |Added(n1, fine)|
  {
    AddedCons(n, line, fine);
    Regroup(Load(w.disk), Added(n, [line]), Added(n1, fine));
    Regroup([line], fine, ReportOf(s, last));
  }

  lemma AccountsOn(env: Env, w: World, n: int, w1: World, n1: int, line: StepResult, r: Applied, fine: seq<StepResult>, at: World, s: Step)
    requires w1.up && Coverage.Grew(w, n, w1, n1, [line]) && Accounts(env, w1, n1, r, fine, at, s)
    ensures Accounts(env, w, n, r.(results := [line] + r.results), [line] + fine, at, s)
  {
    var k := n1 + |Added(n1, fine)| + 1;
    TallyOn(w, n, w1, n1, line, r, fine, s, RunStep(env, at, k, s), LastEntry(env, at, k, s));
    assert n + |Added(n, [line] + fine)| + 1 == k;
  }

  /** What an apply leaves on file, whatever fails and wherever it dies: the journal
      grows by one entry for each step reported as fine and, where it stopped, by the
      entry of the step it stopped at, exactly if that one's begin record is legible.
      That entry is live exactly when it has an inverse and is not legibly retracted. */
  lemma {:induction false} ApplyFiles(env: Env, w: World, n: int, state: map<string, string>, steps: seq<Step>)
      returns (fine: seq<StepResult>, at: World, s: Step)
    requires w.up && Ended(w.disk) && Numbered(w.disk, n)
    ensures var r := ApplyFrom(env, w, n, state, steps);
            && Accounts(env, w, n, r, fine, at, s)
            && (!r.ok && Begun(env, at) ==>
                  var e := Load(r.w.disk)[|Load(r.w.disk)| - 1];
                  NeedsUndo(e) <==> !IsZero(s.undo) && !Retracted(env, at, s))
    decreases |steps|
  {
    var r := ApplyFrom(env, w, n, state, steps);
    if steps == [] {
      fine, at, s := [], w, Step("", ZERO, ZERO, false);
      assert Load(w.disk) + [] == Load(w.disk);
    } else if IsZero(steps[0].do) {
      fine, at, s := ApplyFiles(env, w, n, state, steps[1..]);
    } else {
      var one := ApplyStep(env, w, n, state, steps[0]);
      if one.ok {
        ApplyStepIsExact(env, w, n, state, steps[0]);
        var rest := ApplyFrom(env, one.w, one.seqno, state, steps[1..]);
        fine, at, s := ApplyFiles(env, one.w, one.seqno, state, steps[1..]);
        var line := StepResult(steps[0], one.status);
        AccountsOn(env, w, n, one.w, one.seqno, line, rest, fine, at, s);
        fine := [line] + fine;
      } else {
        fine, at, s := [], Queried(w, steps[0]), steps[0];
        StoppedHere(env, w, n, state, steps[0]);
        if Begun(env, at) {
          LiveUnlessRetracted(env, at, n + 1, s);
        }
      }
    }
  }
}
