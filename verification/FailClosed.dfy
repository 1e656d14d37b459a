// The fail-closed guarantee over whole runs: applies, failing commands, crashes
// at any effect, teardowns and recoveries, in any order the service allows.

module FailClosed {
  import opened Commands
  import opened Journal
  import opened World
  import opened Protocol
  import opened Coverage
  import ReplayLaws

  // --- records keep to their side of the hold --------------------------------

  predicate SidedEntry(op: string, undo: Command) {
    if op == OP_NFT then undo == NFT_UNLOAD else !IsNft(undo)
  }

  predicate Sided(lines: seq<Line>) {
    forall i :: 0 <= i < |lines| && lines[i].Whole? && lines[i].r.phase.Begin? ==>
      SidedEntry(lines[i].r.op, lines[i].r.undo)
  }

  lemma {:induction false} SidedView(lines: seq<Line>, n: nat, k: int)
    requires Sided(lines) && n <= |lines| && k in ViewTo(lines, n)
    ensures SidedEntry(ViewTo(lines, n)[k].op, ViewTo(lines, n)[k].undo)
  {
    if n > 0 && k in ViewTo(lines, n - 1) {
      SidedView(lines, n - 1, k);
    }
  }

  lemma SidedAppend(d: Disk, r: Record, left: Left)
    requires Sided(Lines(d)) && (r.phase.Begin? ==> SidedEntry(r.op, r.undo))
    ensures Sided(Lines(Append(d, r, left)))
  {
  }

  // --- the shared invariant --------------------------------------------------

  /** Changes that do not concern the firewall and may still be in force. */
  function Unprotected(k: Kernel): set<Debt> {
    Claimed(k, false)
  }

  predicate Shielded(k: Kernel) {
    Unprotected(k) != {} ==> k.fw.Some?
  }

  predicate Sound(w: World) {
    Sided(Lines(w.disk)) && Safe(w.disk, Unprotected(w.kernel)) && Shielded(w.kernel)
  }

  // --- apply -----------------------------------------------------------------

  lemma LogKeepsSides(env: Env, w: World, r: Record)
    requires Sided(Lines(w.disk)) && (r.phase.Begin? ==> SidedEntry(r.op, r.undo))
    ensures Sided(Lines(Log(env, w, r).w.disk)) && Log(env, w, r).w.kernel == w.kernel
  {
    SidedAppend(w.disk, r, Nothing);
    SidedAppend(w.disk, r, Fragment);
    SidedAppend(w.disk, r, NoNewline);
    SidedAppend(w.disk, r, Everything);
  }

  lemma LogKeepsKernel(env: Env, w: World, n: int, s: Step, a: Answer)
    ensures Conclude(env, w, n, s, a).w.kernel == w.kernel
  {
  }

  lemma ConcludeKeepsSides(env: Env, w: World, n: int, s: Step, a: Answer)
    requires Sided(Lines(w.disk))
    ensures var r := Conclude(env, w, n, s, a);
            Sided(Lines(r.w.disk)) && r.w.kernel == w.kernel && (r.ok && !r.status.Unchanged? ==> a.Ok?)
  {
    LogKeepsSides(env, w, PhaseOnly(n, Done));
    LogKeepsSides(env, w, PhaseOnly(n, Preexisting));
    LogKeepsSides(env, w, PhaseOnly(n, Failed));
  }

  /** A well-formed step never takes a ruleset away, and puts one in force if it
      is the firewall's and is reported done. */
  lemma RunStepKeepsFw(env: Env, w: World, n: int, s: Step)
    requires WellFormed(s) && Sided(Lines(w.disk))
    ensures var r := RunStep(env, w, n, s);
            && Sided(Lines(r.w.disk))
            && (w.kernel.fw.Some? ==> r.w.kernel.fw.Some?)
            && (s.op == OP_NFT ==> Unprotected(r.w.kernel) == Unprotected(w.kernel))
            && (s.op == OP_NFT && r.ok && !r.status.Unchanged? ==> r.w.kernel.fw == Some(s.do.stdin))
  {
    var rec := Record(n, Begin, s.op, s.do, s.undo);
    LogKeepsSides(env, w, rec);
    var begun := Log(env, w, rec);
    if begun.ok {
      var ran := ExecDo(env, begun.w, n, s);
      ConcludeKeepsSides(env, ran.w, n, s, ran.a);
    }
  }

  lemma ApplyStepKeepsFw(env: Env, w: World, seqno: int, state: map<string, string>, s: Step)
    requires WellFormed(s) && Sided(Lines(w.disk))
    ensures var r := ApplyStep(env, w, seqno, state, s);
            && Sided(Lines(r.w.disk))
            && (w.kernel.fw.Some? ==> r.w.kernel.fw.Some?)
  {
    var r := ApplyStep(env, w, seqno, state, s);
    if !InForce(state, s.do) && !(s.queried && w.up && env.satisfied(w.clock)) {
      var w1 := if s.queried && w.up then w.(clock := w.clock + 1) else w;
      assert r == RunStep(env, w1, seqno + 1, s);
      RunStepKeepsFw(env, w1, seqno + 1, s);
    }
  }

  lemma {:induction false} ApplyKeepsFw(env: Env, w: World, seqno: int, state: map<string, string>, steps: seq<Step>)
    requires w.kernel.fw.Some? && Sided(Lines(w.disk))
    requires forall s :: s in steps ==> WellFormed(s)
    ensures var r := ApplyFrom(env, w, seqno, state, steps);
            r.w.kernel.fw.Some? && Sided(Lines(r.w.disk))
    decreases |steps|
  {
    if steps != [] {
      if IsZero(steps[0].do) {
        ApplyKeepsFw(env, w, seqno, state, steps[1..]);
      } else {
        ApplyStepKeepsFw(env, w, seqno, state, steps[0]);
        var one := ApplyStep(env, w, seqno, state, steps[0]);
        if one.ok {
          ApplyKeepsFw(env, one.w, one.seqno, state, steps[1..]);
        }
      }
    }
  }

  /** The order every plan is applied in: the ruleset first, unconditionally. */
  predicate FirewallFirst(steps: seq<Step>) {
    steps != [] && steps[0].op == OP_NFT && !steps[0].queried
  }

  /** The load is run and refused with a text that is read as "already there". */
  predicate Refused(env: Env, w: World, s: Step) {
    && env.write(w.clock).Written?
    && var a := env.run(w.clock + 1, s.do, w.kernel.rest);
       a.Fails? && IsAlreadyExists(a.stderr, a.err)
  }

  lemma LoadIsNoRemoval(text: string)
    ensures !CommandRemoves(NftLoad(text))
  {
    assert ["-f", "-"][1..] == ["-"];
    assert ["-"][1..] == [];
  }

  /** A firewall step that is reported a success leaves its ruleset in force exactly
      when it was in force before or the load was not refused with such a text. */
  lemma LoadedIff(env: Env, w: World, n: int, s: Step)
    requires w.up && WellFormed(s) && s.op == OP_NFT
    ensures var r := RunStep(env, w, n, s);
            r.ok ==>
              && (r.status.Unchanged? <==> Refused(env, w, s))
              && (r.w.kernel.fw == Some(s.do.stdin) <==> w.kernel.fw == Some(s.do.stdin) || !Refused(env, w, s))
              && (Refused(env, w, s) ==> r.w.kernel.fw == w.kernel.fw)
  {
    LoadIsNoRemoval(s.do.stdin);
    var begun := Log(env, w, Record(n, Begin, s.op, s.do, s.undo));
    if begun.ok {
      var ran := ExecDo(env, begun.w, n, s);
      LogKeepsKernel(env, ran.w, n, s, ran.a);
    }
  }

  /** The first step of an apply on a journal that claims nothing is in force. */
  lemma FirstStepLoads(env: Env, w: World, seqno: int, s: Step)
    requires WellFormed(s) && s.op == OP_NFT && !s.queried
    requires w.kernel.fw.Some? || !Refused(env, w, s)
    requires Sided(Lines(w.disk)) && Session(w, seqno, false)
    ensures var r := ApplyStep(env, w, seqno, map[], s);
            && Sided(Lines(r.w.disk)) && Session(r.w, r.seqno, false)
            && Unprotected(r.w.kernel) == Unprotected(w.kernel)
            && (w.kernel.fw.Some? ==> r.w.kernel.fw.Some?)
            && (r.ok ==> r.w.kernel.fw.Some? && Ended(r.w.disk))
  {
    var r := ApplyStep(env, w, seqno, map[], s);
    assert r == RunStep(env, w, seqno + 1, s);
    RunStepKeepsFw(env, w, seqno + 1, s);
    RunStepKeepsCover(env, w, seqno + 1, s, false);
    if w.up {
      LoadedIff(env, w, seqno + 1, s);
    }
  }

  // --- replay ----------------------------------------------------------------

  /** The entries agree with what is owed under their numbers. */
  predicate Agrees(owed: set<Debt>, es: seq<Entry>) {
    forall x, i :: x in owed && 0 <= i < |es| && es[i].seqno == x.n ==> es[i].undo == x.undo
  }

  lemma UndoOneKeeps(env: Env, w: World, e: Entry, journalled: bool)
    requires Sided(Lines(w.disk)) && Safe(w.disk, Unprotected(w.kernel))
    requires forall x :: x in Unprotected(w.kernel) && x.n == e.seqno ==> x.undo == e.undo
    ensures var u := UndoOne(env, w, e, journalled);
            && Sided(Lines(u.w.disk)) && Safe(u.w.disk, Unprotected(u.w.kernel))
            && Unprotected(u.w.kernel) <= Unprotected(w.kernel)
            && (!IsNft(e.undo) ==> u.w.kernel.fw == w.kernel.fw)
            && (u.verdict.Reversed? || u.verdict.Gone? ==> Debt(e.seqno, e.undo) !in u.w.kernel.owed)
            && (u.verdict.Reversed? || u.verdict.Gone? || u.verdict.StillFailing?)
  {
    var ran := ExecUndo(env, w, e);
    var owed := Unprotected(ran.w.kernel);
    assert owed <= Unprotected(w.kernel) && ran.w.disk == w.disk;
    assert Safe(ran.w.disk, owed);
    var u := UndoOne(env, w, e, journalled);
    if journalled && !u.verdict.StillFailing? {
      FreshRecord(Lines(w.disk), PhaseOnly(e.seqno, Undone), owed);
      LogKeepsCover(env, ran.w, PhaseOnly(e.seqno, Undone), owed);
      LogKeepsSides(env, ran.w, PhaseOnly(e.seqno, Undone));
    }
  }

  /** The report says that this entry is still outstanding. */
  predicate KeptIn(results: seq<UndoResult>, e: Entry) {
    exists k :: 0 <= k < |results| && results[k].e == e && Outstanding(results[k])
  }

  predicate SidedEntries(es: seq<Entry>) {
    forall i :: 0 <= i < |es| ==> SidedEntry(es[i].op, es[i].undo)
  }

  /** What is still owed under an entry of the first pass is on the report, and
      then something failed. */
  predicate Accounted(es: seq<Entry>, owed: set<Debt>, results: seq<UndoResult>, failed: bool) {
    forall i :: 0 <= i < |es| && Concerns(es[i], false) && Debt(es[i].seqno, es[i].undo) in owed ==>
      KeptIn(results, es[i]) && failed
  }

  lemma AccountedOn(es: seq<Entry>, owed: set<Debt>, rest: seq<UndoResult>, r: UndoResult, failed: bool)
    requires es != [] && es[|es| - 1] == r.e && Accounted(es[..|es| - 1], owed, rest, failed)
    requires Debt(r.e.seqno, r.e.undo) in owed ==> Outstanding(r) && failed
    ensures Accounted(es, owed, [r] + rest, failed)
  {
    KeptOn([r] + rest, r, rest);
  }

  /** The first pass: the firewall is not touched, and the journal keeps covering
      what is owed. */
  lemma {:induction false} FirstPass(env: Env, w: World, es: seq<Entry>, journalled: bool, failed: nat)
    requires Sided(Lines(w.disk)) && Safe(w.disk, Unprotected(w.kernel))
    requires SidedEntries(es) && Agrees(Unprotected(w.kernel), es)
    ensures var p := Pass(env, w, es, journalled, false, failed);
            && Sided(Lines(p.w.disk)) && Safe(p.w.disk, Unprotected(p.w.kernel))
            && Unprotected(p.w.kernel) <= Unprotected(w.kernel)
            && p.w.kernel.fw == w.kernel.fw
    decreases |es|
  {
    if es != [] {
      var front, e := es[..|es| - 1], es[|es| - 1];
      if !Concerns(e, false) {
        FirstPass(env, w, front, journalled, failed);
      } else {
        UndoOneKeeps(env, w, e, journalled);
        var u := UndoOne(env, w, e, journalled);
        FirstPass(env, u.w, front, journalled, failed + if u.verdict.StillFailing? then 1 else 0);
      }
    }
  }

  lemma UndoOneClears(env: Env, w: World, e: Entry, journalled: bool)
    ensures var u := UndoOne(env, w, e, journalled);
            && u.w.kernel.owed <= w.kernel.owed
            && (Debt(e.seqno, e.undo) in u.w.kernel.owed ==> u.verdict.StillFailing?)
  {
  }

  lemma {:induction false} PassOnlyClears(env: Env, w: World, es: seq<Entry>, journalled: bool, nft: bool, failed: nat)
    ensures var p := Pass(env, w, es, journalled, nft, failed);
            p.w.kernel.owed <= w.kernel.owed && p.failed >= failed
    decreases |es|
  {
    if es != [] {
      var front, e := es[..|es| - 1], es[|es| - 1];
      if !Concerns(e, nft) || (nft && failed > 0) {
        PassOnlyClears(env, w, front, journalled, nft, failed);
      } else {
        UndoOneClears(env, w, e, journalled);
        var u := UndoOne(env, w, e, journalled);
        PassOnlyClears(env, u.w, front, journalled, nft, failed + if u.verdict.StillFailing? then 1 else 0);
      }
    }
  }

  /** Every entry the first pass is about ends up reversed or kept. */
  lemma {:induction false} FirstPassAccounts(env: Env, w: World, es: seq<Entry>, journalled: bool, failed: nat)
    ensures var p := Pass(env, w, es, journalled, false, failed);
            Accounted(es, p.w.kernel.owed, p.results, p.failed > failed)
    decreases |es|
  {
    if es != [] {
      var front, e := es[..|es| - 1], es[|es| - 1];
      if !Concerns(e, false) {
        FirstPassAccounts(env, w, front, journalled, failed);
      } else {
        UndoOneClears(env, w, e, journalled);
        var u := UndoOne(env, w, e, journalled);
        var f := failed + if u.verdict.StillFailing? then 1 else 0;
        FirstPassAccounts(env, u.w, front, journalled, f);
        PassOnlyClears(env, u.w, front, journalled, false, f);
        var q := Pass(env, u.w, front, journalled, false, f);
        AccountedOn(es, q.w.kernel.owed, q.results, UndoResult(e, u.verdict), q.failed > failed);
      }
    }
  }

  lemma KeptOn(all: seq<UndoResult>, r: UndoResult, rest: seq<UndoResult>)
    requires all == [r] + rest
    ensures forall e :: KeptIn(rest, e) ==> KeptIn(all, e)
    ensures Outstanding(r) ==> KeptIn(all, r.e)
  {
    forall e | KeptIn(rest, e) ensures KeptIn(all, e) {
      var k :| 0 <= k < |rest| && rest[k].e == e && Outstanding(rest[k]);
      assert all[k + 1] == rest[k];
    }
    assert all[0] == r;
  }

  /** The second pass: it runs nothing while anything failed, and otherwise it
      runs with nothing unprotected. */
  lemma {:induction false} SecondPass(env: Env, w: World, es: seq<Entry>, journalled: bool, failed: nat)
    requires Sound(w) && (failed == 0 ==> Unprotected(w.kernel) == {})
    ensures var p := Pass(env, w, es, journalled, true, failed);
            && Sound(p.w) && Unprotected(p.w.kernel) == Unprotected(w.kernel)
            && (failed > 0 ==> p.w == w)
    decreases |es|
  {
    if es != [] {
      var front, e := es[..|es| - 1], es[|es| - 1];
      if !Concerns(e, true) || failed > 0 {
        SecondPass(env, w, front, journalled, failed);
      } else {
        UndoOneKeeps(env, w, e, journalled);
        var u := UndoOne(env, w, e, journalled);
        var f := failed + if u.verdict.StillFailing? then 1 else 0;
        SecondPass(env, u.w, front, journalled, f);
      }
    }
  }

  /** The entry on file for a change that is owed. */
  lemma OwedIsLoaded(d: Disk, x: Debt) returns (i: nat)
    requires Filed(View(Lines(d)), x)
    ensures i < |Load(d)| && Load(d)[i] == View(Lines(d))[x.n]
  {
    LoadMembers(d);
    var e := View(Lines(d))[x.n];
    assert e in Load(d);
    i :| 0 <= i < |Load(d)| && Load(d)[i] == e;
  }

  lemma LoadAgrees(d: Disk, owed: set<Debt>)
    requires Sided(Lines(d)) && Covers(Lines(d), owed)
    ensures SidedEntries(Load(d)) && Agrees(owed, Load(d))
  {
    LoadMembers(d);
    forall i | 0 <= i < |Load(d)|
      ensures Load(d)[i].seqno in View(Lines(d)) && View(Lines(d))[Load(d)[i].seqno] == Load(d)[i]
      ensures SidedEntry(Load(d)[i].op, Load(d)[i].undo)
    {
      assert Load(d)[i] in Load(d);
      SidedView(Lines(d), |Lines(d)|, Load(d)[i].seqno);
    }
  }

  /** A change still owed after a replay is in the remainder. */
  lemma OwedIsKept(d: Disk, x: Debt, owed: set<Debt>, results: seq<UndoResult>, failed: bool)
    requires Filed(View(Lines(d)), x) && !IsNft(x.undo) && x in owed
    requires Accounted(Load(d), owed, results, failed)
    ensures failed && KeptIn(results, View(Lines(d))[x.n])
  {
    var i := OwedIsLoaded(d, x);
    assert Concerns(Load(d)[i], false);
  }

  lemma RewriteFiles(rem: seq<Entry>, e: Entry, x: Debt)
    requires Distinct(rem) && e in rem && e.seqno == x.n && e.undo == x.undo && NeedsUndo(e)
    requires e.op != OP_NFT && !IsNft(x.undo)
    ensures Filed(View(Lines(Rewritten(rem))), x)
  {
    var j :| 0 <= j < |rem| && rem[j] == e;
    BeginLinesAt(rem, j);
  }

  lemma {:induction false} SidedBeginLines(es: seq<Entry>)
    requires SidedEntries(es)
    ensures Sided(BeginLines(es))
  {
    if es != [] {
      SidedBeginLines(es[..|es| - 1]);
    }
  }

  lemma RemainingHas(results: seq<UndoResult>, e: Entry)
    requires KeptIn(results, e)
    ensures e in Remaining(results)
  {
    var k :| 0 <= k < |results| && results[k].e == e && Outstanding(results[k]);
    ReplayLaws.LeftoversHas(results, k);
    var left := Leftovers(results);
    var i :| 0 <= i < |left| && left[i] == e;
    assert Remaining(results)[|left| - 1 - i] == e;
  }

  /** A replay of the journal keeps the guarantee, and the journal it is about to
      write keeps covering what is owed. */
  lemma ReplayKeepsSound(env: Env, w: World, journalled: bool)
    requires Sound(w)
    ensures var p := Replay(env, w, Load(w.disk), journalled);
            && Sound(p.w)
            && Sided(Lines(Rewritten(Remaining(p.results))))
            && Covers(Lines(Rewritten(Remaining(p.results))), Unprotected(p.w.kernel))
  {
    var d, es, owed0 := w.disk, Load(w.disk), Unprotected(w.kernel);
    LoadAgrees(d, owed0);
    FirstPass(env, w, es, journalled, 0);
    FirstPassAccounts(env, w, es, journalled, 0);
    var one := Pass(env, w, es, journalled, false, 0);
    var owed := Unprotected(one.w.kernel);
    forall x | x in owed
      ensures one.failed > 0 && KeptIn(one.results, View(Lines(d))[x.n])
    {
      OwedIsKept(d, x, one.w.kernel.owed, one.results, one.failed > 0);
    }
    assert one.failed == 0 ==> owed == {};
    SecondPass(env, one.w, es, journalled, one.failed);
    var p := Replay(env, w, es, journalled);
    var two := Pass(env, one.w, es, journalled, true, one.failed);
    RemainderCovers(env, w, journalled, owed, one.results, two.results);
  }

  lemma RemainderCovers(env: Env, w: World, journalled: bool, owed: set<Debt>,
                        first: seq<UndoResult>, second: seq<UndoResult>)
    requires Sound(w) && owed <= Unprotected(w.kernel)
    requires Replay(env, w, Load(w.disk), journalled).results == first + second
    requires forall x :: x in owed ==> KeptIn(first, View(Lines(w.disk))[x.n])
    ensures var rem := Remaining(first + second);
            Sided(Lines(Rewritten(rem))) && Covers(Lines(Rewritten(rem)), owed)
  {
    var es := Load(w.disk);
    var rem := Remaining(first + second);
    LoadMembers(w.disk);
    ReplayLaws.RemainingFacts(env, w, es, journalled);
    LoadAgrees(w.disk, Unprotected(w.kernel));
    assert SidedEntries(rem);
    SidedBeginLines(rem);
    assert Lines(Rewritten(rem)) == BeginLines(rem);
    forall x | x in owed ensures Filed(View(Lines(Rewritten(rem))), x) {
      var e := View(Lines(w.disk))[x.n];
      var k :| 0 <= k < |first| && first[k].e == e && Outstanding(first[k]);
      assert (first + second)[k] == first[k];
      RemainingHas(first + second, e);
      RewriteFiles(rem, e, x);
    }
  }

  lemma {:induction false} BegunClaimsNothing(es: seq<Entry>)
    requires forall i :: 0 <= i < |es| ==> es[i].phase.Begin?
    ensures CurrentState(es) == map[]
  {
    if es != [] {
      BegunClaimsNothing(es[..|es| - 1]);
    }
  }

  /** A journal just rewritten is closed by its newline and says of nothing that
      it is in force. */
  lemma RewrittenClaimsNothing(rem: seq<Entry>)
    requires Distinct(rem) && forall i :: 0 <= i < |rem| ==> NeedsUndo(rem[i])
    ensures Ended(Rewritten(rem)) && CurrentState(Load(Rewritten(rem))) == map[]
  {
    RewriteThenLoad(rem);
    var es := Load(Rewritten(rem));
    forall i | 0 <= i < |es| ensures es[i].phase.Begin? {
      assert es[i] in es;
    }
    BegunClaimsNothing(es);
  }

  lemma RewriteKeepsSound(env: Env, w: World, rem: seq<Entry>)
    requires Sound(w) && Distinct(rem) && forall i :: 0 <= i < |rem| ==> NeedsUndo(rem[i])
    requires Sided(Lines(Rewritten(rem))) && Covers(Lines(Rewritten(rem)), Unprotected(w.kernel))
    ensures var r := Replace(env, w, rem);
            && Sound(r.w)
            && (r.ok ==> r.w.up && Ended(r.w.disk) && CurrentState(Load(r.w.disk)) == map[])
  {
    RewrittenClaimsNothing(rem);
    ReplayLaws.ReplaceEnds(env, w, rem);
    assert Safe(Rewritten(rem), Unprotected(w.kernel));
  }

  /** Replaying and putting the remainder back, however far it gets. */
  lemma SweepKeepsSound(env: Env, w: World, journalled: bool)
    requires Sound(w)
    ensures var p := Replay(env, w, Load(w.disk), journalled);
            var r := Replace(env, p.w, Remaining(p.results));
            && Sound(r.w)
            && (r.ok ==> r.w.up && Ended(r.w.disk) && CurrentState(Load(r.w.disk)) == map[])
  {
    var p := Replay(env, w, Load(w.disk), journalled);
    LoadMembers(w.disk);
    ReplayLaws.RemainingFacts(env, w, Load(w.disk), journalled);
    ReplayKeepsSound(env, w, journalled);
    RewriteKeepsSound(env, p.w, Remaining(p.results));
  }

  // --- runs ------------------------------------------------------------------

  /** Down: dead, or not recovered. Ready: recovered, or torn down without error.
      Serving: the last apply succeeded. Stuck: it did not, and the caller's
      answer to that is a teardown. */
  datatype Mode = Down | Ready | Serving | Stuck

  datatype Sys = Sys(w: World, mode: Mode, seqno: int)

  datatype Event = Boot | Start(steps: seq<Step>) | Continue(steps: seq<Step>)
                 | Toggle(ruleset: string) | Stop | Crash

  /** What the service may ask for: plans that put the ruleset first, steps that
      keep to their side, rulesets that are rulesets. */
  predicate Admissible(ev: Event) {
    match ev
    case Start(steps) => FirewallFirst(steps) && forall s :: s in steps ==> WellFormed(s)
    case Continue(steps) => forall s :: s in steps ==> WellFormed(s)
    case Toggle(ruleset) => ruleset != TEARDOWN
    case _ => true
  }

  ghost function Next(env: Env, s: Sys, ev: Event): Sys {
    match ev
    case Boot =>
      if !s.mode.Down? then s
      else
        var f := Recover(env, s.w.(up := true));
        Sys(f.w, if f.ok && f.w.up then Ready else Down, s.seqno)
    case Start(steps) =>
      if !s.mode.Ready? then s
      else
        var r := Apply(env, Opened(s.w), TopOf(Load(s.w.disk)), steps);
        Sys(r.w, if !r.w.up then Down else if r.ok then Serving else Stuck, r.seqno)
    case Continue(steps) =>
      if !s.mode.Serving? then s
      else
        var r := Apply(env, s.w, s.seqno, steps);
        Sys(r.w, if !r.w.up then Down else if r.ok then Serving else Stuck, r.seqno)
    case Toggle(ruleset) =>
      if !s.mode.Serving? then s
      else
        var r := Exec(env, s.w, NftLoad(ruleset));
        Sys(r.w, if r.w.up then Serving else Down, s.seqno)
    case Stop =>
      if !s.mode.Serving? && !s.mode.Stuck? then s
      else
        var f := Teardown(env, s.w);
        Sys(f.w, if f.ok && f.w.up then Ready else Down, s.seqno)
    case Crash => Sys(s.w.(up := false), Down, s.seqno)
  }

  ghost predicate Inv(s: Sys) {
    && Sound(s.w)
    && (s.mode.Ready? ==>
          && CurrentState(Load(s.w.disk)) == map[]
          && (Ended(s.w.disk) || Load(s.w.disk) == []))
    && (s.mode.Serving? ==>
          && Ended(s.w.disk) && s.w.kernel.fw.Some?
          && Below(Unprotected(s.w.kernel), s.seqno))
  }

  lemma BootKeeps(env: Env, s: Sys)
    requires Inv(s)
    ensures Inv(Next(env, s, Boot))
  {
    if s.mode.Down? {
      var w := s.w.(up := true);
      if Load(w.disk) == [] {
        assert CurrentState(Load(w.disk)) == map[];
      } else {
        SweepKeepsSound(env, w, false);
      }
    }
  }

  lemma StopKeeps(env: Env, s: Sys)
    requires Inv(s)
    ensures Inv(Next(env, s, Stop))
  {
    if s.mode.Serving? || s.mode.Stuck? {
      SweepKeepsSound(env, s.w, true);
    }
  }

  lemma OwedBelowTop(d: Disk, owed: set<Debt>)
    requires Covers(Lines(d), owed)
    ensures Below(owed, TopOf(Load(d)))
  {
    forall x | x in owed ensures x.n <= TopOf(Load(d)) {
      var i := OwedIsLoaded(d, x);
    }
  }

  /** A start whose first load is not refused as "already there", or finds a ruleset
      in force. Other events load no first ruleset. */
  predicate Granted(env: Env, s: Sys, ev: Event) {
    ev.Start? && s.mode.Ready? && ev.steps != [] ==>
      s.w.kernel.fw.Some? || !Refused(env, Opened(s.w), ev.steps[0])
  }

  lemma StartKeeps(env: Env, s: Sys, steps: seq<Step>)
    requires Inv(s) && Admissible(Start(steps)) && Granted(env, s, Start(steps))
    ensures Inv(Next(env, s, Start(steps)))
  {
    if s.mode.Ready? {
      var w, n := Opened(s.w), TopOf(Load(s.w.disk));
      assert Lines(w.disk) == Lines(s.w.disk);
      assert Sound(w);
      OwedBelowTop(s.w.disk, Unprotected(w.kernel));
      FirstStepLoads(env, w, n, steps[0]);
      assert !IsZero(steps[0].do);
      var one := ApplyStep(env, w, n, map[], steps[0]);
      var r := Apply(env, w, n, steps);
      assert r.w == one.w || one.ok;
      if one.ok {
        ApplyKeepsFw(env, one.w, one.seqno, map[], steps[1..]);
        ApplyKeepsCover(env, one.w, one.seqno, map[], steps[1..], false);
      }
    }
  }

  lemma ContinueKeeps(env: Env, s: Sys, steps: seq<Step>)
    requires Inv(s) && Admissible(Continue(steps))
    ensures Inv(Next(env, s, Continue(steps)))
  {
    if s.mode.Serving? {
      var state := CurrentState(Load(s.w.disk));
      ApplyKeepsFw(env, s.w, s.seqno, state, steps);
      ApplyKeepsCover(env, s.w, s.seqno, state, steps, false);
    }
  }

  lemma NextKeeps(env: Env, s: Sys, ev: Event)
    requires Inv(s) && Admissible(ev) && Granted(env, s, ev)
    ensures Inv(Next(env, s, ev))
  {
    match ev {
      case Boot => BootKeeps(env, s);
      case Start(steps) => StartKeeps(env, s, steps);
      case Continue(steps) => ContinueKeeps(env, s, steps);
      case Stop => StopKeeps(env, s);
      case Toggle(ruleset) =>
      case Crash =>
    }
  }

  ghost function Run(env: Env, s: Sys, evs: seq<Event>): Sys {
    if evs == [] then s else Next(env, Run(env, s, evs[..|evs| - 1]), evs[|evs| - 1])
  }

  /** No start of the run had its first load refused so. */
  ghost predicate AllGranted(env: Env, s: Sys, evs: seq<Event>) {
    evs != [] ==>
      && AllGranted(env, s, evs[..|evs| - 1])
      && Granted(env, Run(env, s, evs[..|evs| - 1]), evs[|evs| - 1])
  }

  lemma {:induction false} RunKeeps(env: Env, s: Sys, evs: seq<Event>)
    requires Inv(s) && AllGranted(env, s, evs) && forall ev :: ev in evs ==> Admissible(ev)
    ensures Inv(Run(env, s, evs))
  {
    if evs != [] {
      RunKeeps(env, s, evs[..|evs| - 1]);
      NextKeeps(env, Run(env, s, evs[..|evs| - 1]), evs[|evs| - 1]);
    }
  }

  /** Fail-closed. From a machine this program has never touched, through any
      sequence of boots, starts, further applies, cuts and restores, stops and
      crashes, with any command failing and the process dying at any effect: as
      long as some change other than the firewall may be in force, a generated
      ruleset is loaded. It rests on one thing: no start had its first load refused
      as "already there" with nothing loaded. */
  lemma {:induction false} FailClosedAlways(env: Env, fw: Option<string>, rest: Machine, evs: seq<Event>)
    requires AllGranted(env, Sys(World(Absent, Kernel(fw, rest, {}), 0, false), Down, 0), evs)
    requires forall ev :: ev in evs ==> Admissible(ev)
    ensures var s := Run(env, Sys(World(Absent, Kernel(fw, rest, {}), 0, false), Down, 0), evs);
            Unprotected(s.w.kernel) != {} ==> s.w.kernel.fw.Some?
  {
    var s0 := Sys(World(Absent, Kernel(fw, rest, {}), 0, false), Down, 0);
    assert Unprotected(s0.w.kernel) == {};
    RunKeeps(env, s0, evs);
  }

  // --- what the guarantee rests on -------------------------------------------

  const REFUSED := "Error: Could not process rule: File exists"

  lemma RefusalReadsAsExists(err: string)
    ensures IsAlreadyExists(REFUSED, err)
  {
    var hay := Lower(REFUSED + " " + err);
    assert REFUSED[31..42] == "File exists";
    assert hay[31..42] == "file exists";
    assert At(hay, ALREADY_EXISTS[0], 31);
    assert Contains(hay, ALREADY_EXISTS[0]);
  }

  /** If a ruleset load could fail with that text, the applier would read the
      failure as "nothing to do", retract the inverse, carry on, and report
      success with a change in force and no ruleset loaded. */
  lemma RefusedLoadLeavesTheBoxOpen(env: Env, ruleset: string, s: Step)
    requires env.write == ((t: nat) => Written)
    requires env.run == ((t: nat, c: Command, m: Machine) => if IsNft(c) then Fails(REFUSED, "exit status 1", false) else Ok)
    requires ruleset != TEARDOWN && s.op != OP_NFT && !s.queried && !IsZero(s.do) && !IsZero(s.undo) && WellFormed(s)
    ensures var w := World(File([], true), Kernel(None, map[], {}), 0, true);
            var load := Step(OP_NFT, NftLoad(ruleset), NFT_UNLOAD, false);
            var r := ApplyFrom(env, w, 0, map[], [load, s]);
            && r.ok && r.results == [StepResult(load, Unchanged), StepResult(s, Changed)]
            && r.w.kernel.fw == None && Unprotected(r.w.kernel) == {Debt(2, s.undo)}
  {
    RefusalReadsAsExists("exit status 1");
    var w := World(File([], true), Kernel(None, map[], {}), 0, true);
    var load := Step(OP_NFT, NftLoad(ruleset), NFT_UNLOAD, false);
    var one := ApplyStep(env, w, 0, map[], load);
    assert one.ok && one.status == Unchanged && one.w.kernel == w.kernel && one.w.up && one.seqno == 1;
    var two := ApplyStep(env, one.w, 1, map[], s);
    assert two.ok && two.status == Changed && two.w.kernel.owed == {Debt(2, s.undo)};
    assert [load, s][1..] == [s] && [s][1..] == [];
    assert ApplyFrom(env, two.w, two.seqno, map[], []) == Applied(two.w, two.seqno, [], true);
    var tail := ApplyFrom(env, one.w, 1, map[], [s]);
    assert tail.results == [StepResult(s, Changed)] + [];
  }
}
