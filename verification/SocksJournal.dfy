// The SOCKS steps through the journal: applied, cut short anywhere, and recovered.

module SocksJournal {
  import opened Commands
  import opened Journal
  import opened World
  import opened Protocol
  import opened Coverage
  import opened Endings
  import opened Restoration
  import FailClosed
  import SystemSocks

  /** How the settings' commands are spelled, and the settings a machine holds. */
  datatype Spelling = Spelling(name: SystemSocks.Cmd -> Command, read: Machine -> SystemSocks.Services)

  const OP_PROXY := "proxy"

  /** The command does to the settings what it says. */
  predicate Does(env: Env, sp: Spelling, c: SystemSocks.Cmd, m: Machine) {
    sp.read(env.eff(sp.name(c), m)) == SystemSocks.Eff(c, sp.read(m))
  }

  /** It is a command, and not the firewall's. */
  predicate Proper(sp: Spelling, c: SystemSocks.Cmd) {
    !IsNft(sp.name(c)) && !IsZero(sp.name(c))
  }

  /** It does not fail with a text that reads as "already so". */
  predicate FailsPlainly(env: Env, sp: Spelling, c: SystemSocks.Cmd, t: nat, m: Machine) {
    var a := env.run(t, sp.name(c), m);
    a.Fails? ==> !ReadAsUnchanged(sp.name(c), a.stderr, a.err)
  }

  ghost predicate Spells(env: Env, sp: Spelling) {
    && (forall c :: Proper(sp, c)) && (forall c, m :: Does(env, sp, c, m)) && (forall c, t, m :: FailsPlainly(env, sp, c, t, m))
  }

  function Spelled(sp: Spelling, s: SystemSocks.Step): Step {
    Step(OP_PROXY, sp.name(s.do), sp.name(s.undo), false)
  }

  function AllSpelled(sp: Spelling, steps: seq<SystemSocks.Step>): seq<Step> {
    if steps == [] then [] else [Spelled(sp, steps[0])] + AllSpelled(sp, steps[1..])
  }

  /** The journal holds a live inverse for each of these steps, in order. */
  predicate Filed(es: seq<Entry>, sp: Spelling, steps: seq<SystemSocks.Step>) {
    |es| == |steps| && forall i :: 0 <= i < |es| ==>
      es[i].op == OP_PROXY && es[i].undo == sp.name(steps[i].undo) && Concerns(es[i], false)
  }

  // --- undoing what is on file -----------------------------------------------

  lemma {:induction false} UndoAllSnoc(m: SystemSocks.Services, steps: seq<SystemSocks.Step>, s: SystemSocks.Step)
    ensures SystemSocks.UndoAll(m, steps + [s]) == SystemSocks.UndoAll(SystemSocks.Eff(s.undo, m), steps)
    decreases |steps|
  {
    if steps == [] {
      assert steps + [s] == [s] && [s][1..] == [];
    } else {
      assert (steps + [s])[0] == steps[0] && (steps + [s])[1..] == steps[1..] + [s];
      UndoAllSnoc(m, steps[1..], s);
    }
  }

  lemma {:induction false} DoAllSnoc(m: SystemSocks.Services, steps: seq<SystemSocks.Step>, s: SystemSocks.Step)
    ensures SystemSocks.DoAll(m, steps + [s]) == SystemSocks.Eff(s.do, SystemSocks.DoAll(m, steps))
    decreases |steps|
  {
    if steps == [] {
      assert steps + [s] == [s] && [s][1..] == [];
    } else {
      assert (steps + [s])[0] == steps[0] && (steps + [s])[1..] == steps[1..] + [s];
      DoAllSnoc(SystemSocks.Eff(steps[0].do, m), steps[1..], s);
    }
  }

  lemma FiledFront(es: seq<Entry>, sp: Spelling, steps: seq<SystemSocks.Step>)
    requires Filed(es, sp, steps) && es != []
    ensures Filed(es[..|es| - 1], sp, steps[..|es| - 1])
  {
  }

  /** Unwinding the journal undoes the settings newest first. */
  lemma {:induction false} UnwindReads(env: Env, sp: Spelling, es: seq<Entry>, steps: seq<SystemSocks.Step>, m: Machine)
    requires Spells(env, sp) && Filed(es, sp, steps)
    ensures sp.read(Unwind(env, es, m)) == SystemSocks.UndoAll(sp.read(m), steps)
    decreases |es|
  {
    if es != [] {
      var n := |es| - 1;
      var front, first, e, s := es[..n], steps[..n], es[n], steps[n];
      assert Concerns(e, false) && e.undo == sp.name(s.undo);
      var m1 := env.eff(e.undo, m);
      assert Does(env, sp, s.undo, m);
      assert Unwind(env, es, m) == Unwind(env, front, m1);
      FiledFront(es, sp, steps);
      UnwindReads(env, sp, front, first, m1);
      UndoAllSnoc(sp.read(m), first, s);
      assert first + [s] == steps;
    }
  }

  // --- applying --------------------------------------------------------------

  /** Beyond what was on file before, these steps are, and those are done. */
  ghost predicate StoppedAt(w: World, sp: Spelling, es0: seq<Entry>, m0: SystemSocks.Services,
                            begun: seq<SystemSocks.Step>, ran: seq<SystemSocks.Step>) {
    var es := Load(w.disk);
    es0 <= es && Filed(es[|es0|..], sp, begun) && sp.read(w.kernel.rest) == SystemSocks.DoAll(m0, ran)
  }

  lemma OneSocksStep(env: Env, sp: Spelling, w: World, n: int, done: seq<SystemSocks.Step>, s: SystemSocks.Step, es0: seq<Entry>, m0: SystemSocks.Services)
      returns (begun: seq<SystemSocks.Step>, ran: seq<SystemSocks.Step>)
    requires w.up && Spells(env, sp) && Ended(w.disk) && Numbered(w.disk, n - 1) && StoppedAt(w, sp, es0, m0, done, done)
    ensures (begun == ran == done) || (begun == done + [s] && (ran == done || ran == done + [s]))
    ensures var r := RunStep(env, w, n, Spelled(sp, s));
            && StoppedAt(r.w, sp, es0, m0, begun, ran) && r.w.kernel.fw == w.kernel.fw
            && (r.ok ==> ran == done + [s] && r.w.up && r.seqno == n && Ended(r.w.disk) && Numbered(r.w.disk, n))
  {
    var p := Spelled(sp, s);
    var r := RunStep(env, w, n, p);
    var a := AnswerOf(env, w, p);
    assert Proper(sp, s.do) && Proper(sp, s.undo) && FailsPlainly(env, sp, s.do, w.clock + 1, w.kernel.rest);
    StepDid(env, w, n, p);
    StepWrote(env, w, n, p);
    WroteFiles(env, w, n, p, r);
    OkStep(env, w, n, p);
    begun, ran := SocksStepLeft(env, sp, w, n, done, s, es0, m0, r);
  }

  lemma SocksStepLeft(env: Env, sp: Spelling, w: World, n: int, done: seq<SystemSocks.Step>, s: SystemSocks.Step, es0: seq<Entry>, m0: SystemSocks.Services, r: Stepped)
      returns (begun: seq<SystemSocks.Step>, ran: seq<SystemSocks.Step>)
    requires Spells(env, sp) && StoppedAt(w, sp, es0, m0, done, done) && FilesEntry(env, w, n, Spelled(sp, s), r) && !Retracted(env, w, Spelled(sp, s))
    requires r.w.kernel.rest == if Landed(env, w, Spelled(sp, s)) then env.eff(sp.name(s.do), w.kernel.rest) else w.kernel.rest
    ensures (begun == ran == done) || (begun == done + [s] && (ran == done || ran == done + [s]))
    ensures StoppedAt(r.w, sp, es0, m0, begun, ran) && (Landed(env, w, Spelled(sp, s)) ==> ran == done + [s])
  {
    var p := Spelled(sp, s);
    assert Proper(sp, s.undo) && Does(env, sp, s.do, w.kernel.rest);
    DoAllSnoc(m0, done, s);
    if Begun(env, w) {
      LiveUnlessRetracted(env, w, n, p);
      var e := Entry(n, p.op, p.do, p.undo, Reached(env, w, p));
      FiledSnoc(Load(w.disk)[|es0|..], sp, done, e, s);
      assert (Load(w.disk) + [e])[|es0|..] == Load(w.disk)[|es0|..] + [e];
      begun, ran := done + [s], if Landed(env, w, p) then done + [s] else done;
    } else {
      assert Load(r.w.disk) == Load(w.disk);
      begun, ran := done, done;
    }
  }

  lemma FiledSnoc(es: seq<Entry>, sp: Spelling, steps: seq<SystemSocks.Step>, e: Entry, s: SystemSocks.Step)
    requires Filed(es, sp, steps) && e.op == OP_PROXY && e.undo == sp.name(s.undo) && Concerns(e, false)
    ensures Filed(es + [e], sp, steps + [s])
  {
  }

  /** What was begun and what was done, of a list applied from its start. */
  predicate CutIn(all: seq<SystemSocks.Step>, begun: seq<SystemSocks.Step>, ran: seq<SystemSocks.Step>) {
    ran <= begun <= all && |begun| <= |ran| + 1
  }

  lemma {:induction false} ApplySocks(env: Env, sp: Spelling, w: World, n: int, done: seq<SystemSocks.Step>, todo: seq<SystemSocks.Step>,
                                      es0: seq<Entry>, m0: SystemSocks.Services, state: map<string, string>)
      returns (begun: seq<SystemSocks.Step>, ran: seq<SystemSocks.Step>)
    requires w.up && Spells(env, sp) && Ended(w.disk) && Numbered(w.disk, n) && StoppedAt(w, sp, es0, m0, done, done)
    requires forall s :: s in todo ==> !InForce(state, sp.name(s.do))
    ensures CutIn(done + todo, begun, ran)
    ensures var r := ApplyFrom(env, w, n, state, AllSpelled(sp, todo));
            StoppedAt(r.w, sp, es0, m0, begun, ran) && r.w.kernel.fw == w.kernel.fw && (r.ok ==> ran == done + todo)
    decreases |todo|
  {
    if todo == [] {
      assert done + todo == done;
      begun, ran := done, done;
    } else {
      var s, rest := todo[0], todo[1..];
      var steps := AllSpelled(sp, todo);
      SpelledFirst(sp, todo);
      assert Proper(sp, s.do);
      assert (done + [s]) + rest == done + todo;
      var one := ApplyStep(env, w, n, state, steps[0]);
      assert one == RunStep(env, w, n + 1, steps[0]);
      begun, ran := OneSocksStep(env, sp, w, n + 1, done, s, es0, m0);
      if one.ok {
        begun, ran := ApplySocks(env, sp, one.w, one.seqno, done + [s], rest, es0, m0, state);
      }
    }
  }

  lemma SpelledFirst(sp: Spelling, steps: seq<SystemSocks.Step>)
    requires steps != []
    ensures var all := AllSpelled(sp, steps); all != [] && all[0] == Spelled(sp, steps[0]) && all[1..] == AllSpelled(sp, steps[1..])
  {
  }

  // --- the round trip --------------------------------------------------------

  /** The settings after a sweep: as after a crash at some step and its inverses. */
  ghost predicate SettledBack(m0: SystemSocks.Services, m: SystemSocks.Services, states: seq<SystemSocks.Measured>, k: nat) {
    && (forall i :: 0 <= i < |states| ==> SystemSocks.RoundTripped(m, states[i], i, k))
    && (forall x :: SystemSocks.Foreign(states, x) ==> (x in m <==> x in m0) && (x in m0 ==> m[x] == m0[x]))
  }

  /** The inverses on file leave the settings alone. */
  ghost predicate Aside(env: Env, sp: Spelling, es: seq<Entry>) {
    forall e, m :: e in es && Concerns(e, false) ==> LeavesAlone(env, sp, e, m)
  }

  predicate LeavesAlone(env: Env, sp: Spelling, e: Entry, m: Machine) {
    sp.read(env.eff(e.undo, m)) == sp.read(m)
  }

  lemma {:induction false} AsideReads(env: Env, sp: Spelling, es: seq<Entry>, m: Machine)
    requires Aside(env, sp, es)
    ensures sp.read(Unwind(env, es, m)) == sp.read(m)
    decreases |es|
  {
    if es != [] {
      var front, e := es[..|es| - 1], es[|es| - 1];
      var m1 := if Concerns(e, false) then env.eff(e.undo, m) else m;
      assert Concerns(e, false) ==> LeavesAlone(env, sp, e, m);
      AsideReads(env, sp, front, m1);
    }
  }

  lemma UndoneSocks(env: Env, sp: Spelling, a: World, es0: seq<Entry>, m0: SystemSocks.Services, states: seq<SystemSocks.Measured>,
                    to: SystemSocks.Target, begun: seq<SystemSocks.Step>, ran: seq<SystemSocks.Step>)
    requires Spells(env, sp) && StoppedAt(a, sp, es0, m0, begun, ran) && CutIn(SystemSocks.Steps(states, to), begun, ran)
    requires Aside(env, sp, es0) && FailClosed.SidedEntries(es0) && SystemSocks.DistinctServices(states)
    requires forall i :: 0 <= i < |states| ==> SystemSocks.Restorable(states[i]) && SystemSocks.Accurate(m0, states[i])
    ensures SettledBack(m0, sp.read(Unwind(env, Load(a.disk), a.kernel.rest)), states, |begun|)
    ensures FailClosed.SidedEntries(Load(a.disk)) && (HoldsFirewall(es0) ==> HoldsFirewall(Load(a.disk)))
  {
    var es, own := Load(a.disk), Load(a.disk)[|es0|..];
    assert es == es0 + own;
    UnwindConcat(env, es0, own, a.kernel.rest);
    AsideReads(env, sp, es0, Unwind(env, own, a.kernel.rest));
    UnwindReads(env, sp, own, begun, a.kernel.rest);
    UndoneSettings(m0, states, to, begun, ran);
    FiledIsSided(env, sp, own, begun);
    StillSided(es0, own);
  }

  lemma StillSided(a: seq<Entry>, b: seq<Entry>)
    requires FailClosed.SidedEntries(a) && FailClosed.SidedEntries(b)
    ensures FailClosed.SidedEntries(a + b) && (HoldsFirewall(a) ==> HoldsFirewall(a + b))
  {
    if HoldsFirewall(a) {
      var i :| 0 <= i < |a| && Concerns(a[i], true);
      assert Concerns((a + b)[i], true);
    }
  }

  lemma FiledIsSided(env: Env, sp: Spelling, es: seq<Entry>, steps: seq<SystemSocks.Step>)
    requires Spells(env, sp) && Filed(es, sp, steps)
    ensures FailClosed.SidedEntries(es)
  {
    forall i | 0 <= i < |es| ensures FailClosed.SidedEntry(es[i].op, es[i].undo) {
      assert es[i].undo == sp.name(steps[i].undo) && Proper(sp, steps[i].undo);
    }
  }

  lemma UndoneSettings(m0: SystemSocks.Services, states: seq<SystemSocks.Measured>, to: SystemSocks.Target,
                       begun: seq<SystemSocks.Step>, ran: seq<SystemSocks.Step>)
    requires CutIn(SystemSocks.Steps(states, to), begun, ran) && SystemSocks.DistinctServices(states)
    requires forall i :: 0 <= i < |states| ==> SystemSocks.Restorable(states[i]) && SystemSocks.Accurate(m0, states[i])
    ensures SettledBack(m0, SystemSocks.UndoAll(SystemSocks.DoAll(m0, ran), begun), states, |begun|)
  {
    var steps, k := SystemSocks.Steps(states, to), |begun|;
    CrashedIs(m0, steps, begun, ran);
    SystemSocks.SocksRoundTrip(m0, states, to, k, |ran| == k);
  }

  lemma CrashedIs(m0: SystemSocks.Services, steps: seq<SystemSocks.Step>, begun: seq<SystemSocks.Step>, ran: seq<SystemSocks.Step>)
    requires CutIn(steps, begun, ran)
    ensures SystemSocks.Crashed(m0, steps, |begun|, |ran| == |begun|) == SystemSocks.UndoAll(SystemSocks.DoAll(m0, ran), begun)
  {
    assert begun == steps[..|begun|] && ran == steps[..|ran|];
  }

  /** None of these commands is recorded as the one in force. */
  ghost predicate NoneInForce(w: World, sp: Spelling, steps: seq<SystemSocks.Step>) {
    forall s :: s in steps ==> !InForce(CurrentState(Load(w.disk)), sp.name(s.do))
  }

  /** After a sweep that reports no failure. */
  ghost predicate SweptBack(sp: Spelling, m0: SystemSocks.Services, f: Finished, states: seq<SystemSocks.Measured>) {
    f.ok && f.failed == 0 ==> exists k :: SettledBack(m0, sp.read(f.w.kernel.rest), states, k)
  }

  /** The SOCKS steps applied over whatever steps are already on file, with any command
      and any journal write failing and the process dying anywhere; then a recovery,
      or a teardown, that reports no failure. Every switch and every endpoint that was
      there is back, every bypass list too unless it is the one word for no list, and
      other services are as they were. The inverses of the other steps must leave the
      settings alone. */
  lemma SocksRestored(env: Env, env': Env, sp: Spelling, w: World, n: int, states: seq<SystemSocks.Measured>, to: SystemSocks.Target)
    requires Spells(env, sp) && HonestAboutAbsence(env') && env'.eff == env.eff
    requires Startable(w) && Numbered(w.disk, n) && Aside(env, sp, Load(w.disk))
    requires NoneInForce(w, sp, SystemSocks.Steps(states, to)) && SystemSocks.DistinctServices(states)
    requires forall i :: 0 <= i < |states| ==> SystemSocks.Restorable(states[i]) && SystemSocks.Accurate(sp.read(w.kernel.rest), states[i])
    ensures var a := Apply(env, Opened(w), n, AllSpelled(sp, SystemSocks.Steps(states, to))).w;
            && SweptBack(sp, sp.read(w.kernel.rest), Recover(env', a.(up := true)), states)
            && SweptBack(sp, sp.read(w.kernel.rest), Teardown(env', a), states)
  {
    var w0 := Opened(w);
    var m0, steps, es0 := sp.read(w.kernel.rest), SystemSocks.Steps(states, to), Load(w.disk);
    assert Lines(w0.disk) == Lines(w.disk) && Load(w0.disk) == es0;
    assert es0[|es0|..] == [] && [] + steps == steps;
    var begun, ran := ApplySocks(env, sp, w0, n, [], steps, es0, m0, CurrentState(es0));
    var a := Apply(env, w0, n, AllSpelled(sp, steps)).w;
    UndoneSocks(env, sp, a, es0, m0, states, to, begun, ran);
    SweepUnwinds(env, env', a);
    SweepUnwinds(env, env', a.(up := true));
  }
}
