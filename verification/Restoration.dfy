// Restoration: a teardown or a recovery that reports no failure puts the machine
// back exactly as the first apply found it, wherever the applies stopped or the
// process died, unless an inverse was left on file for a change that was not made.

module Restoration {
  import opened Commands
  import opened Journal
  import opened World
  import opened Protocol
  import opened Coverage
  import opened Endings
  import FailClosed
  import ReplayLaws

  // --- what is asked of the machine ------------------------------------------

  /** On this machine, the change followed by its inverse, if it has one, is no
      change. */
  predicate Inverts(env: Env, m: Machine, s: Step) {
    (if IsZero(s.undo) then env.eff(s.do, m) else env.eff(s.undo, env.eff(s.do, m))) == m
  }

  /** A removal that finds nothing to remove would have changed nothing. */
  ghost predicate HonestAboutAbsence(env: Env) {
    forall t: nat, c: Command, m: Machine ::
      var a := env.run(t, c, m);
      a.Fails? && ReadAsGone(c, a.stderr, a.err) ==> env.eff(c, m) == m
  }

  /** Where the step's change is made, its inverse takes it back. */
  predicate Suits(env: Env, w: World, s: Step) {
    s.op != OP_NFT && Landed(env, w, s) ==> Inverts(env, w.kernel.rest, s)
  }

  // --- the stack of inverses -------------------------------------------------

  /** The machine after the inverses on file are run newest first. */
  function Unwind(env: Env, es: seq<Entry>, m: Machine): Machine
    decreases |es|
  {
    if es == [] then m
    else
      var e := es[|es| - 1];
      Unwind(env, es[..|es| - 1], if Concerns(e, false) then env.eff(e.undo, m) else m)
  }

  lemma UnwindSnoc(env: Env, es: seq<Entry>, e: Entry, m: Machine)
    ensures Unwind(env, es + [e], m) == Unwind(env, es, if Concerns(e, false) then env.eff(e.undo, m) else m)
  {
    assert (es + [e])[..|es + [e]| - 1] == es;
  }

  lemma {:induction false} UnwindConcat(env: Env, a: seq<Entry>, b: seq<Entry>, m: Machine)
    ensures Unwind(env, a + b, m) == Unwind(env, a, Unwind(env, b, m))
    decreases |b|
  {
    if b == [] {
      assert a + b == a;
    } else {
      var front, e := b[..|b| - 1], b[|b| - 1];
      assert a + b == (a + front) + [e] && b == front + [e];
      UnwindSnoc(env, a + front, e, m);
      UnwindSnoc(env, front, e, m);
      UnwindConcat(env, a, front, if Concerns(e, false) then env.eff(e.undo, m) else m);
    }
  }

  predicate HoldsFirewall(es: seq<Entry>) {
    exists i :: 0 <= i < |es| && Concerns(es[i], true)
  }

  /** The journal can be unwound to m0, and a loaded ruleset is on file. */
  ghost predicate Unwound(env: Env, w: World, m0: Machine) {
    && FailClosed.SidedEntries(Load(w.disk))
    && Unwind(env, Load(w.disk), w.kernel.rest) == m0
    && (w.kernel.fw.Some? ==> HoldsFirewall(Load(w.disk)))
  }

  /** And the file is closed and numbered, so that more can be applied. */
  ghost predicate Stacked(env: Env, w: World, n: int, m0: Machine) {
    Ended(w.disk) && Numbered(w.disk, n) && Unwound(env, w, m0)
  }

  /** The newest entry is a live inverse for a change that was not made; what is on
      file below it can be unwound to m0. */
  ghost predicate Stranded(env: Env, w: World, m0: Machine) {
    var es := Load(w.disk);
    && FailClosed.SidedEntries(es)
    && es != [] && Concerns(es[|es| - 1], false)
    && Unwind(env, es[..|es| - 1], w.kernel.rest) == m0
    && (w.kernel.fw.Some? ==> HoldsFirewall(es))
  }

  ghost predicate Leaves(env: Env, w: World, strands: bool, m0: Machine) {
    if strands then Stranded(env, w, m0) else Unwound(env, w, m0)
  }

  // --- applying --------------------------------------------------------------

  /** A ruleset in force is still on file when an entry is added. */
  lemma StillHolds(es: seq<Entry>, e: Entry)
    requires HoldsFirewall(es) || Concerns(e, true)
    ensures HoldsFirewall(es + [e])
  {
    if Concerns(e, true) {
      assert Concerns((es + [e])[|es|], true);
    } else {
      var i :| 0 <= i < |es| && Concerns(es[i], true);
      assert Concerns((es + [e])[i], true);
    }
  }

  /** A new entry that is stranded, or whose inverse leads back to the machine before. */
  lemma PushEntry(env: Env, w: World, m0: Machine, w': World, e: Entry, strands: bool)
    requires Unwound(env, w, m0) && Load(w'.disk) == Load(w.disk) + [e]
    requires FailClosed.SidedEntry(e.op, e.undo)
    requires w'.kernel.fw == w.kernel.fw || Concerns(e, true)
    requires strands ==> Concerns(e, false) && w'.kernel.rest == w.kernel.rest
    requires !strands ==> (if Concerns(e, false) then env.eff(e.undo, w'.kernel.rest) else w'.kernel.rest) == w.kernel.rest
    ensures Leaves(env, w', strands, m0)
  {
    var es := Load(w.disk);
    assert FailClosed.SidedEntries(es + [e]);
    if w'.kernel.fw.Some? {
      StillHolds(es, e);
    }
    if strands {
      assert (es + [e])[..|es + [e]| - 1] == es;
    } else {
      UnwindSnoc(env, es, e, w'.kernel.rest);
    }
  }

  /** After each step, recorded or not, finished or cut short: what is on file
      unwinds to the machine as it was found, or the step stranded its inverse. */
  lemma RunStepStacks(env: Env, w: World, n: int, s: Step, m0: Machine)
    requires w.up && Ended(w.disk) && Numbered(w.disk, n - 1) && !IsZero(s.do) && WellFormed(s)
    requires Suits(env, w, s) && Unwound(env, w, m0)
    ensures var r := RunStep(env, w, n, s);
            && Leaves(env, r.w, Strands(env, w, s), m0)
            && (r.ok ==> !Strands(env, w, s) && r.w.up && r.seqno == n && Ended(r.w.disk) && Numbered(r.w.disk, n))
  {
    var r := RunStep(env, w, n, s);
    StepDid(env, w, n, s);
    StepWrote(env, w, n, s);
    WroteFiles(env, w, n, s, r);
    OkStep(env, w, n, s);
    if Begun(env, w) {
      LiveUnlessRetracted(env, w, n, s);
      PushEntry(env, w, m0, r.w, Entry(n, s.op, s.do, s.undo, Reached(env, w, s)), Strands(env, w, s));
    } else {
      assert Load(r.w.disk) == Load(w.disk);
    }
  }

  lemma SameUnwound(env: Env, w: World, w': World, m0: Machine)
    requires Unwound(env, w, m0) && w'.disk == w.disk && w'.kernel == w.kernel
    ensures Unwound(env, w', m0)
  {
  }

  /** Each step keeps to its side and inverts on the machine it changes. */
  predicate ApplySuits(env: Env, w: World, n: int, state: map<string, string>, steps: seq<Step>)
    decreases |steps|
  {
    if steps == [] then true
    else if IsZero(steps[0].do) then ApplySuits(env, w, n, state, steps[1..])
    else
      var one := ApplyStep(env, w, n, state, steps[0]);
      && WellFormed(steps[0])
      && (Skips(env, w, state, steps[0]) || Suits(env, Queried(w, steps[0]), steps[0]))
      && (one.ok ==> ApplySuits(env, one.w, one.seqno, state, steps[1..]))
  }

  /** The step an apply stopped at stranded its inverse. */
  predicate ApplyStrands(env: Env, w: World, n: int, state: map<string, string>, steps: seq<Step>)
    decreases |steps|
  {
    if steps == [] then false
    else if IsZero(steps[0].do) then ApplyStrands(env, w, n, state, steps[1..])
    else
      var one := ApplyStep(env, w, n, state, steps[0]);
      if one.ok then ApplyStrands(env, one.w, one.seqno, state, steps[1..])
      else Strands(env, Queried(w, steps[0]), steps[0])
  }

  lemma ApplyStepStacks(env: Env, w: World, n: int, state: map<string, string>, s: Step, m0: Machine)
    requires w.up && Stacked(env, w, n, m0) && !IsZero(s.do) && WellFormed(s)
    requires Skips(env, w, state, s) || Suits(env, Queried(w, s), s)
    ensures var r := ApplyStep(env, w, n, state, s);
            if r.ok then r.w.up && Stacked(env, r.w, r.seqno, m0)
            else Leaves(env, r.w, Strands(env, Queried(w, s), s), m0)
  {
    if Skips(env, w, state, s) {
      SkippedStep(env, w, n, state, s);
      SameUnwound(env, w, ApplyStep(env, w, n, state, s).w, m0);
    } else {
      SameStep(env, w, n, state, s);
      SameUnwound(env, w, Queried(w, s), m0);
      RunStepStacks(env, Queried(w, s), n + 1, s, m0);
    }
  }

  lemma {:induction false} ApplyStacks(env: Env, w: World, n: int, state: map<string, string>, steps: seq<Step>, m0: Machine)
    requires w.up && Stacked(env, w, n, m0) && ApplySuits(env, w, n, state, steps)
    ensures var r := ApplyFrom(env, w, n, state, steps);
            && Leaves(env, r.w, ApplyStrands(env, w, n, state, steps), m0)
            && (r.ok ==> r.w.up && Stacked(env, r.w, r.seqno, m0))
    decreases |steps|
  {
    if steps != [] {
      if IsZero(steps[0].do) {
        ApplyStacks(env, w, n, state, steps[1..], m0);
      } else {
        ApplyStepStacks(env, w, n, state, steps[0], m0);
        var one := ApplyStep(env, w, n, state, steps[0]);
        if one.ok {
          ApplyStacks(env, one.w, one.seqno, state, steps[1..], m0);
        }
      }
    }
  }

  // --- tearing down ----------------------------------------------------------

  /** An inverse that is not reported as failing acted as the stack says. */
  lemma UndoOneUnwinds(env: Env, w: World, e: Entry, journalled: bool)
    requires HonestAboutAbsence(env)
    ensures var u := UndoOne(env, w, e, journalled);
            !u.verdict.StillFailing? ==>
              if IsNft(e.undo) then
                u.w.kernel.rest == w.kernel.rest && (e.undo == NFT_UNLOAD ==> u.w.kernel.fw == None)
              else
                u.w.kernel.rest == env.eff(e.undo, w.kernel.rest) && u.w.kernel.fw == w.kernel.fw
  {
    FailClosed.LoadIsNoRemoval(TEARDOWN);
    var ran := ExecUndo(env, w, e);
    if w.up {
      var a := env.run(w.clock, e.undo, w.kernel.rest);
      assert ran.a == a;
      assert a.Fails? && ReadAsGone(e.undo, a.stderr, a.err) ==> env.eff(e.undo, w.kernel.rest) == w.kernel.rest;
    }
    assert Log(env, ran.w, PhaseOnly(e.seqno, Undone)).w.kernel == ran.w.kernel;
  }

  lemma {:induction false} FirstPassUnwinds(env: Env, w: World, es: seq<Entry>, journalled: bool, failed: nat)
    requires HonestAboutAbsence(env) && FailClosed.SidedEntries(es)
    ensures var p := Pass(env, w, es, journalled, false, failed);
            p.failed == failed ==>
              p.w.kernel.rest == Unwind(env, es, w.kernel.rest) && p.w.kernel.fw == w.kernel.fw
    decreases |es|
  {
    if es != [] {
      var front, e := es[..|es| - 1], es[|es| - 1];
      if !Concerns(e, false) {
        FirstPassUnwinds(env, w, front, journalled, failed);
      } else {
        UndoOneUnwinds(env, w, e, journalled);
        var u := UndoOne(env, w, e, journalled);
        var f := failed + if u.verdict.StillFailing? then 1 else 0;
        FailClosed.PassOnlyClears(env, u.w, front, journalled, false, f);
        FirstPassUnwinds(env, u.w, front, journalled, f);
      }
    }
  }

  lemma {:induction false} SecondPassUnloads(env: Env, w: World, es: seq<Entry>, journalled: bool)
    requires HonestAboutAbsence(env) && FailClosed.SidedEntries(es)
    ensures var p := Pass(env, w, es, journalled, true, 0);
            p.failed == 0 ==>
              && p.w.kernel.rest == w.kernel.rest
              && p.w.kernel.fw == (if HoldsFirewall(es) then None else w.kernel.fw)
    decreases |es|
  {
    if es != [] {
      var front, e := es[..|es| - 1], es[|es| - 1];
      if !Concerns(e, true) {
        SecondPassUnloads(env, w, front, journalled);
        assert HoldsFirewall(es) <==> HoldsFirewall(front) by {
          if HoldsFirewall(front) {
            var i :| 0 <= i < |front| && Concerns(front[i], true);
            assert Concerns(es[i], true);
          }
        }
      } else {
        UndoOneUnwinds(env, w, e, journalled);
        var u := UndoOne(env, w, e, journalled);
        FailClosed.PassOnlyClears(env, u.w, front, journalled, true, if u.verdict.StillFailing? then 1 else 0);
        SecondPassUnloads(env, u.w, front, journalled);
      }
    }
  }

  lemma ReplayUnwinds(env: Env, w: World, es: seq<Entry>, journalled: bool)
    requires HonestAboutAbsence(env) && FailClosed.SidedEntries(es)
    ensures var p := Replay(env, w, es, journalled);
            p.failed == 0 ==>
              && p.w.kernel.rest == Unwind(env, es, w.kernel.rest)
              && p.w.kernel.fw == (if HoldsFirewall(es) then None else w.kernel.fw)
  {
    var one := Pass(env, w, es, journalled, false, 0);
    FirstPassUnwinds(env, w, es, journalled, 0);
    FailClosed.PassOnlyClears(env, one.w, es, journalled, true, one.failed);
    SecondPassUnloads(env, one.w, es, journalled);
  }

  /** A sweep that reports no failure leaves what unwinding the journal gives. */
  ghost predicate Swept(env: Env, w: World, f: Finished) {
    f.ok && f.failed == 0 ==>
      f.w.kernel.rest == Unwind(env, Load(w.disk), w.kernel.rest) && f.w.kernel.fw == None && Load(f.w.disk) == []
  }

  lemma AbsentIsEmpty()
    ensures Load(Absent) == []
  {
    assert NamedKeys(View(Lines(Absent))) == {};
  }

  lemma ReplayLeadsBack(env: Env, env': Env, w: World, journalled: bool)
    requires HonestAboutAbsence(env') && env'.eff == env.eff && FailClosed.SidedEntries(Load(w.disk))
    requires w.kernel.fw.Some? ==> HoldsFirewall(Load(w.disk))
    ensures var p := Replay(env', w, Load(w.disk), journalled);
            p.failed == 0 ==>
              && p.w.kernel.rest == Unwind(env, Load(w.disk), w.kernel.rest)
              && p.w.kernel.fw == None && Remaining(p.results) == []
  {
    ReplayUnwinds(env', w, Load(w.disk), journalled);
    SameUnwind(env, env', Load(w.disk), w.kernel.rest);
    ReplayLaws.ReplayConserves(env', w, Load(w.disk), journalled);
  }

  lemma SweepUnwinds(env: Env, env': Env, w: World)
    requires HonestAboutAbsence(env') && env'.eff == env.eff && FailClosed.SidedEntries(Load(w.disk))
    requires w.kernel.fw.Some? ==> HoldsFirewall(Load(w.disk))
    ensures Swept(env, w, Teardown(env', w)) && Swept(env, w, Recover(env', w))
    ensures var f := Teardown(env', w); f.ok && f.failed == 0 ==> f.w.disk.Absent?
  {
    AbsentIsEmpty();
    ReplayLeadsBack(env, env', w, true);
    ReplayLeadsBack(env, env', w, false);
  }

  /** A world in which every command, write and rename succeeds. */
  function Obliging(eff: (Command, Machine) -> Machine): Env {
    Env(eff, (t: nat, c: Command, m: Machine) => Ok, (t: nat) => false, (t: nat) => Written, (t: nat) => Replaced)
  }

  lemma {:induction false} ObligingPass(env: Env, w: World, es: seq<Entry>, journalled: bool, nft: bool)
    requires env == Obliging(env.eff) && w.up
    ensures var p := Pass(env, w, es, journalled, nft, 0); p.failed == 0 && p.w.up
    decreases |es|
  {
    if es != [] {
      var front, e := es[..|es| - 1], es[|es| - 1];
      if !Concerns(e, nft) {
        ObligingPass(env, w, front, journalled, nft);
      } else {
        var u := UndoOne(env, w, e, journalled);
        assert u.verdict == Reversed && u.w.up;
        ObligingPass(env, u.w, front, journalled, nft);
      }
    }
  }

  lemma {:induction false} SameUnwind(env: Env, env': Env, es: seq<Entry>, m: Machine)
    requires env.eff == env'.eff
    ensures Unwind(env, es, m) == Unwind(env', es, m)
    decreases |es|
  {
    if es != [] {
      var e := es[|es| - 1];
      SameUnwind(env, env', es[..|es| - 1], if Concerns(e, false) then env.eff(e.undo, m) else m);
    }
  }

  // --- the whole session -----------------------------------------------------

  /** One applier, asked to apply one list after another until one stops short. */
  ghost function Session(env: Env, w: World, n: int, calls: seq<seq<Step>>): Applied
    decreases |calls|
  {
    if calls == [] then Applied(w, n, [], true)
    else
      var r := Apply(env, w, n, calls[0]);
      if !r.ok then r
      else
        var rest := Session(env, r.w, r.seqno, calls[1..]);
        rest.(results := r.results + rest.results)
  }

  ghost predicate SessionSuits(env: Env, w: World, n: int, calls: seq<seq<Step>>)
    decreases |calls|
  {
    calls != [] ==>
      var r := Apply(env, w, n, calls[0]);
      && ApplySuits(env, w, n, CurrentState(Load(w.disk)), calls[0])
      && (r.ok ==> SessionSuits(env, r.w, r.seqno, calls[1..]))
  }

  ghost predicate SessionStrands(env: Env, w: World, n: int, calls: seq<seq<Step>>)
    decreases |calls|
  {
    calls != [] &&
      var r := Apply(env, w, n, calls[0]);
      if r.ok then SessionStrands(env, r.w, r.seqno, calls[1..])
      else ApplyStrands(env, w, n, CurrentState(Load(w.disk)), calls[0])
  }

  lemma {:induction false} SessionStacks(env: Env, w: World, n: int, calls: seq<seq<Step>>, m0: Machine)
    requires w.up && Stacked(env, w, n, m0) && SessionSuits(env, w, n, calls)
    ensures Leaves(env, Session(env, w, n, calls).w, SessionStrands(env, w, n, calls), m0)
    decreases |calls|
  {
    if calls != [] {
      ApplyStacks(env, w, n, CurrentState(Load(w.disk)), calls[0], m0);
      var r := Apply(env, w, n, calls[0]);
      if r.ok {
        SessionStacks(env, r.w, r.seqno, calls[1..], m0);
      }
    }
  }

  /** The machine the journal leads back to; with nothing on file, the machine as
      it is. */
  ghost function Origin(env: Env, w: World): Machine {
    Unwind(env, Load(w.disk), w.kernel.rest)
  }

  /** A start: the process is up, its journal is closed and keeps to its sides, and a
      loaded ruleset is on file. A machine never touched is one. */
  ghost predicate Startable(w: World) {
    && w.up && Ended(w.disk) && FailClosed.SidedEntries(Load(w.disk))
    && (w.kernel.fw.Some? ==> HoldsFirewall(Load(w.disk)))
  }

  ghost function AfterCalls(env: Env, w: World, calls: seq<seq<Step>>): World {
    Session(env, Opened(w), TopOf(Load(w.disk)), calls).w
  }

  ghost predicate AllSuit(env: Env, w: World, calls: seq<seq<Step>>) {
    SessionSuits(env, Opened(w), TopOf(Load(w.disk)), calls)
  }

  /** The session left a live inverse for a change that was not made. */
  ghost predicate EndsStranded(env: Env, w: World, calls: seq<seq<Step>>) {
    SessionStrands(env, Opened(w), TopOf(Load(w.disk)), calls)
  }

  /** Running the newest inverse on file makes no difference to where the others
      lead. */
  ghost predicate Harmless(env: Env, w: World) {
    var es := Load(w.disk);
    es != [] &&
      var front, e := es[..|es| - 1], es[|es| - 1];
      Unwind(env, front, env.eff(e.undo, w.kernel.rest)) == Unwind(env, front, w.kernel.rest)
  }

  lemma StartsStacked(env: Env, w: World)
    requires Startable(w)
    ensures Stacked(env, Opened(w), TopOf(Load(w.disk)), Origin(env, w))
  {
    assert Lines(Opened(w).disk) == Lines(w.disk);
    var m := View(Lines(w.disk));
    forall k | k in NamedKeys(m) ensures k <= TopOf(Load(w.disk)) {
      LoadMembers(w.disk);
      assert m[k] in Load(w.disk);
      var i :| 0 <= i < |Load(w.disk)| && Load(w.disk)[i] == m[k];
    }
  }

  /** Where a sweep after a session leads: back, or back exactly when the stranded
      inverse is harmless. */
  lemma SessionLeadsBack(env: Env, w: World, calls: seq<seq<Step>>)
    requires Startable(w) && AllSuit(env, w, calls)
    ensures var a := AfterCalls(env, w, calls);
            && FailClosed.SidedEntries(Load(a.disk)) && (a.kernel.fw.Some? ==> HoldsFirewall(Load(a.disk)))
            && (Unwind(env, Load(a.disk), a.kernel.rest) == Origin(env, w) <==>
                  !EndsStranded(env, w, calls) || Harmless(env, a))
  {
    StartsStacked(env, w);
    SessionStacks(env, Opened(w), TopOf(Load(w.disk)), calls, Origin(env, w));
    var a := AfterCalls(env, w, calls);
    if EndsStranded(env, w, calls) {
      var es := Load(a.disk);
      UnwindSnoc(env, es[..|es| - 1], es[|es| - 1], a.kernel.rest);
      assert es[..|es| - 1] + [es[|es| - 1]] == es;
    }
  }

  /** Restoration. From a machine with an empty journal and no ruleset of ours, or
      from any journal that can be unwound, apply any lists of steps, with any
      command and any journal write failing, and tear down. If the teardown reports
      no failure, no ruleset is loaded and there is no journal left, and every other
      kernel object is exactly as it was found, what was already present included:
      unless the session stranded an inverse, and then exactly when that inverse is
      harmless. */
  lemma TeardownRestores(env: Env, env': Env, w: World, calls: seq<seq<Step>>)
    requires HonestAboutAbsence(env') && env'.eff == env.eff
    requires Startable(w) && AllSuit(env, w, calls)
    ensures var a := AfterCalls(env, w, calls);
            var f := Teardown(env', a);
            f.ok && f.failed == 0 ==>
              && f.w.kernel.fw == None && f.w.disk.Absent?
              && (f.w.kernel.rest == Origin(env, w) <==> !EndsStranded(env, w, calls) || Harmless(env, a))
  {
    SessionLeadsBack(env, w, calls);
    SweepUnwinds(env, env', AfterCalls(env, w, calls));
  }

  /** The same through a crash: the process dies at any effect of the session, or not
      at all, the next one recovers, and if that reports no failure the machine is as
      it was found, with the same exception. */
  lemma RecoveryRestores(env: Env, env': Env, w: World, calls: seq<seq<Step>>)
    requires HonestAboutAbsence(env') && env'.eff == env.eff
    requires Startable(w) && AllSuit(env, w, calls)
    ensures var a := AfterCalls(env, w, calls).(up := true);
            var f := Recover(env', a);
            f.ok && f.failed == 0 ==>
              && f.w.kernel.fw == None && Load(f.w.disk) == []
              && (f.w.kernel.rest == Origin(env, w) <==> !EndsStranded(env, w, calls) || Harmless(env, a))
  {
    SessionLeadsBack(env, w, calls);
    SweepUnwinds(env, env', AfterCalls(env, w, calls).(up := true));
  }
}
