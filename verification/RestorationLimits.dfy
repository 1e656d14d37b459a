// What restoration rests on: a journal that ends in a newline, and no inverse left on
// file for a change that was not made.

module RestorationLimits {
  import opened Commands
  import opened Journal
  import opened World
  import opened Protocol
  import opened Coverage
  import opened Endings
  import opened Restoration
  import FailClosed

  // --- why the journal must end in a newline ---------------------------------

  predicate NoBegins(lines: seq<Line>) {
    forall i :: 0 <= i < |lines| && lines[i].Whole? ==> !lines[i].r.phase.Begin?
  }

  lemma {:induction false} NoNames(lines: seq<Line>, n: nat)
    requires NoBegins(lines) && n <= |lines|
    ensures forall k :: k in ViewTo(lines, n) ==> !Named(ViewTo(lines, n)[k])
  {
    if n > 0 {
      NoNames(lines, n - 1);
      var m := ViewTo(lines, n - 1);
      forall k | k in ViewTo(lines, n) ensures !Named(ViewTo(lines, n)[k]) {
        assert k in m ==> !Named(m[k]);
      }
    }
  }

  lemma NoBeginsNoNames(lines: seq<Line>)
    requires NoBegins(lines)
    ensures NamedKeys(View(lines)) == {}
  {
    NoNames(lines, |lines|);
    forall k ensures k !in NamedKeys(View(lines)) {
      assert k in View(lines) ==> !Named(ViewTo(lines, |lines|)[k]);
    }
  }

  /** Loading a ruleset over a journal and tearing down: no failure, the journal gone,
      and the ruleset gone or not. */
  ghost predicate LoadedThenTornDown(eff: (Command, Machine) -> Machine, d: Disk, rest: Machine, ruleset: string, gone: bool) {
    var env := Obliging(eff);
    var w := World(d, Kernel(None, rest, {}), 0, true);
    var a := ApplyStep(env, Opened(w), 0, map[], Step(OP_NFT, NftLoad(ruleset), NFT_UNLOAD, false));
    var f := Teardown(env, a.w);
    a.ok && f.ok && f.failed == 0 && f.w.disk.Absent? && (f.w.kernel.fw == None <==> gone)
  }

  /** Recovery leaves a journal alone when it can load nothing from it, so a start
      may find one that holds no begin record and may not end in a newline. With
      everything succeeding, loading the ruleset and tearing down then removes
      the ruleset exactly when the file did end in a newline; otherwise the
      teardown reports no failure, deletes the journal and leaves the ruleset. */
  lemma RestoredIffNewline(eff: (Command, Machine) -> Machine, d: Disk, rest: Machine, ruleset: string)
    requires NoBegins(Lines(d)) && ruleset != TEARDOWN
    ensures Load(d) == [] && Recover(Obliging(eff), World(d, Kernel(None, rest, {}), 0, true)).w == World(d, Kernel(None, rest, {}), 0, true)
    ensures LoadedThenTornDown(eff, d, rest, ruleset, Ended(d))
  {
    NoBeginsNoNames(Lines(d));
    if Ended(d) {
      EndedIsRestored(eff, d, rest, ruleset);
    } else {
      TornIsLeft(eff, d, rest, ruleset);
    }
  }

  /** Two records on a file without begin records make one entry. */
  lemma LoneEntry(d: Disk, s: Step)
    requires NoBegins(Lines(d)) && Ended(d) && !IsZero(s.do)
    ensures Load(Append(Append(d, Record(1, Begin, s.op, s.do, s.undo), Everything), PhaseOnly(1, Done), Everything)) ==
            [Entry(1, s.op, s.do, s.undo, Done)]
  {
    NoBeginsNoNames(Lines(d));
    TwoRecords(d, 1, s, Done);
  }

  lemma EndedIsRestored(eff: (Command, Machine) -> Machine, d: Disk, rest: Machine, ruleset: string)
    requires NoBegins(Lines(d)) && ruleset != TEARDOWN && Ended(d)
    ensures LoadedThenTornDown(eff, d, rest, ruleset, true)
  {
    var env := Obliging(eff);
    var s := Step(OP_NFT, NftLoad(ruleset), NFT_UNLOAD, false);
    var w0 := Opened(World(d, Kernel(None, rest, {}), 0, true));
    assert Lines(w0.disk) == Lines(d) && Ended(w0.disk) == Ended(d);
    ObligingStep(env, w0, s);
    var a := ApplyStep(env, w0, 0, map[], s);
    assert a == RunStep(env, w0, 1, s);
    LoneEntry(w0.disk, s);
    assert Concerns(Load(a.w.disk)[0], true);
    ObligingTeardown(env, a.w);
  }

  lemma TornIsLeft(eff: (Command, Machine) -> Machine, d: Disk, rest: Machine, ruleset: string)
    requires NoBegins(Lines(d)) && ruleset != TEARDOWN && !Ended(d)
    ensures LoadedThenTornDown(eff, d, rest, ruleset, false)
  {
    var env := Obliging(eff);
    var s := Step(OP_NFT, NftLoad(ruleset), NFT_UNLOAD, false);
    var w0 := Opened(World(d, Kernel(None, rest, {}), 0, true));
    assert Lines(w0.disk) == Lines(d) && Ended(w0.disk) == Ended(d);
    ObligingStep(env, w0, s);
    var a := ApplyStep(env, w0, 0, map[], s);
    assert a == RunStep(env, w0, 1, s);
    SwallowedBegin(w0.disk, s);
    NoEntry(env, a.w);
  }

  lemma ObligingStep(env: Env, w: World, s: Step)
    requires env == Obliging(env.eff) && w.up && s.op == OP_NFT && WellFormed(s)
    ensures var r := RunStep(env, w, 1, s);
            && r.ok && r.w.up && r.w.kernel.fw == Some(s.do.stdin)
            && r.w.disk == Append(Append(w.disk, Record(1, Begin, s.op, s.do, s.undo), Everything),
                                  PhaseOnly(1, Done), Everything)
  {
  }

  /** The begin record disappears into the unfinished line. */
  lemma SwallowedBegin(d: Disk, s: Step)
    requires NoBegins(Lines(d)) && !Ended(d)
    ensures Load(Append(Append(d, Record(1, Begin, s.op, s.do, s.undo), Everything),
                        PhaseOnly(1, Done), Everything)) == []
  {
    var d2 := Append(Append(d, Record(1, Begin, s.op, s.do, s.undo), Everything), PhaseOnly(1, Done), Everything);
    assert NoBegins(Lines(d2));
    NoBeginsNoNames(Lines(d2));
  }

  lemma NoEntry(env: Env, w: World)
    requires w.up && Load(w.disk) == [] && env == Obliging(env.eff)
    ensures var f := Teardown(env, w);
            f.ok && f.failed == 0 && f.w.disk.Absent? && f.w.kernel.fw == w.kernel.fw
  {
    var p := Replay(env, w, [], true);
    assert p == Passed(w, [] + [], 0);
  }

  lemma ObligingTeardown(env: Env, w: World)
    requires env == Obliging(env.eff) && w.up && FailClosed.SidedEntries(Load(w.disk))
    requires w.kernel.fw.Some? ==> HoldsFirewall(Load(w.disk))
    ensures var f := Teardown(env, w);
            && f.ok && f.failed == 0 && f.w.disk.Absent? && f.w.kernel.fw == None
            && f.w.kernel.rest == Unwind(env, Load(w.disk), w.kernel.rest)
  {
    var es := Load(w.disk);
    ObligingPass(env, w, es, true, false);
    ObligingPass(env, Pass(env, w, es, true, false, 0).w, es, true, true);
    SweepUnwinds(env, env, w);
  }

  // --- why an inverse must not be stranded -----------------------------------

  /** After a step that strands its inverse nothing of the machine has moved. A
      teardown in which everything succeeds then runs that inverse, reports no
      failure, deletes the journal, and has led back to where the journal led before
      the step exactly when the inverse is harmless. */
  ghost predicate RunsTheStranded(env: Env, w: World, n: int, s: Step) {
    var r := RunStep(env, w, n, s);
    var f := Teardown(Obliging(env.eff), r.w.(up := true));
    && !r.ok && r.w.kernel.rest == w.kernel.rest
    && f.ok && f.failed == 0 && f.w.disk.Absent?
    && f.w.kernel.rest == Unwind(env, Load(w.disk), env.eff(s.undo, w.kernel.rest))
    && (f.w.kernel.rest == Origin(env, w) <==> Harmless(env, r.w))
  }

  lemma StrandedInverse(env: Env, w: World, n: int, s: Step)
    requires Startable(w) && Numbered(w.disk, n - 1) && WellFormed(s) && !IsZero(s.do) && Strands(env, w, s)
    ensures RunsTheStranded(env, w, n, s)
  {
    var r := RunStep(env, w, n, s);
    StepDid(env, w, n, s);
    StepWrote(env, w, n, s);
    WroteFiles(env, w, n, s, r);
    RunStepStacks(env, w, n, s, Origin(env, w));
    LiveUnlessRetracted(env, w, n, s);
    var e := Entry(n, s.op, s.do, s.undo, Reached(env, w, s));
    assert Load(r.w.disk) == Load(w.disk) + [e] && Load(r.w.disk)[..|Load(w.disk)|] == Load(w.disk);
    UnwindSnoc(env, Load(w.disk), e, w.kernel.rest);
    SameUnwind(env, Obliging(env.eff), Load(r.w.disk), w.kernel.rest);
    ObligingTeardown(Obliging(env.eff), r.w.(up := true));
  }

  /** One way to strand an inverse: the step finds its object already there, and the
      record that retracts the inverse does not reach the file. */
  lemma LostRetraction(env: Env, w: World, n: int, s: Step)
    requires Startable(w) && Numbered(w.disk, n - 1)
    requires WellFormed(s) && s.op != OP_NFT && !IsZero(s.do) && !IsZero(s.undo)
    requires env.write(w.clock).Written? && !Legible(LeftOf(env.write(w.clock + 2)))
    requires var a := AnswerOf(env, w, s); a.Fails? && ReadAsUnchanged(s.do, a.stderr, a.err)
    ensures RunsTheStranded(env, w, n, s)
  {
    StrandedInverse(env, w, n, s);
  }

  /** Another: the begin record is in the file, but flushing it failed or the process
      died there, so the step was never run. */
  lemma UnflushedBegin(env: Env, w: World, n: int, s: Step)
    requires Startable(w) && Numbered(w.disk, n - 1)
    requires WellFormed(s) && s.op != OP_NFT && !IsZero(s.do) && !IsZero(s.undo)
    requires !env.write(w.clock).Written? && Legible(LeftOf(env.write(w.clock)))
    ensures RunsTheStranded(env, w, n, s)
  {
    StrandedInverse(env, w, n, s);
  }

  /** A kernel with one route, which commands add and remove. */
  function OneRoute(c: Command, m: Machine): Machine {
    if CommandRemoves(c) then m - {"route"} else m["route" := "ours"]
  }

  /** So a route that was there before is deleted, with no failure reported. */
  lemma SomebodyElsesRoute(env: Env, theirs: string, s: Step)
    requires env.eff == OneRoute && env.write(0) == WriteError(Everything)
    requires WellFormed(s) && s.op != OP_NFT && !IsZero(s.do) && !IsZero(s.undo) && CommandRemoves(s.undo)
    ensures var w := World(Absent, Kernel(None, map["route" := theirs], {}), 0, true);
            var f := Teardown(Obliging(env.eff), RunStep(env, w, 1, s).w);
            f.ok && f.failed == 0 && f.w.kernel.rest == map[]
  {
    var w := World(Absent, Kernel(None, map["route" := theirs], {}), 0, true);
    assert NamedKeys(View(Lines(w.disk))) == {};
    assert Load(w.disk) == [];
    UnflushedBegin(env, w, 1, s);
    var r := RunStep(env, w, 1, s);
    assert r.w.(up := true) == r.w;
    assert OneRoute(s.undo, map["route" := theirs]) == map[];
  }
}
