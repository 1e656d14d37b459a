// Recoveries that are cut short. Each leaves the journal as it was and some of its
// inverses run, and the next one runs them all again.

module Retries {
  import opened Commands
  import opened Journal
  import opened World
  import opened Protocol
  import opened Restoration
  import FailClosed
  import ReplayLaws

  // --- what a recovery can have done -----------------------------------------

  /** m' is m with some of the inverses on file run, newest first. */
  ghost predicate PartlyUnwound(env: Env, es: seq<Entry>, m: Machine, m': Machine)
    decreases |es|
  {
    if es == [] then m' == m
    else
      var front, e := es[..|es| - 1], es[|es| - 1];
      PartlyUnwound(env, front, m, m') || (Concerns(e, false) && PartlyUnwound(env, front, env.eff(e.undo, m), m'))
  }

  lemma UndoneOrNot(env: Env, w: World, e: Entry)
    ensures var k := UndoOne(env, w, e, false).w.kernel;
            if IsNft(e.undo) then k.rest == w.kernel.rest && (e.undo == NFT_UNLOAD ==> k.fw == w.kernel.fw || k.fw == None)
            else k.fw == w.kernel.fw && (k.rest == w.kernel.rest || k.rest == env.eff(e.undo, w.kernel.rest))
  {
  }

  lemma {:induction false} FirstPassIsPart(env: Env, w: World, es: seq<Entry>, failed: nat)
    requires FailClosed.SidedEntries(es)
    ensures var p := Pass(env, w, es, false, false, failed);
            PartlyUnwound(env, es, w.kernel.rest, p.w.kernel.rest) && p.w.kernel.fw == w.kernel.fw
    decreases |es|
  {
    if es != [] {
      var front, e := es[..|es| - 1], es[|es| - 1];
      if !Concerns(e, false) {
        FirstPassIsPart(env, w, front, failed);
      } else {
        UndoneOrNot(env, w, e);
        var u := UndoOne(env, w, e, false);
        FirstPassIsPart(env, u.w, front, failed + if u.verdict.StillFailing? then 1 else 0);
      }
    }
  }

  lemma {:induction false} SecondPassLeavesRest(env: Env, w: World, es: seq<Entry>, failed: nat)
    requires FailClosed.SidedEntries(es)
    ensures var p := Pass(env, w, es, false, true, failed);
            p.w.kernel.rest == w.kernel.rest && (p.w.kernel.fw == w.kernel.fw || p.w.kernel.fw == None)
    decreases |es|
  {
    if es != [] {
      var front, e := es[..|es| - 1], es[|es| - 1];
      if !Concerns(e, true) || failed > 0 {
        SecondPassLeavesRest(env, w, front, failed);
      } else {
        UndoneOrNot(env, w, e);
        var u := UndoOne(env, w, e, false);
        SecondPassLeavesRest(env, u.w, front, failed + if u.verdict.StillFailing? then 1 else 0);
      }
    }
  }

  /** However a recovery goes, it has run some of the inverses, newest first, and has
      loaded no ruleset. */
  lemma RecoverIsPart(env: Env, w: World)
    requires FailClosed.SidedEntries(Load(w.disk))
    ensures var k := Recover(env, w).w.kernel;
            && PartlyUnwound(env, Load(w.disk), w.kernel.rest, k.rest)
            && (k.fw == w.kernel.fw || k.fw == None)
  {
    var es := Load(w.disk);
    FirstPassIsPart(env, w, es, 0);
    var one := Pass(env, w, es, false, false, 0);
    SecondPassLeavesRest(env, one.w, es, one.failed);
  }

  // --- any number of them ----------------------------------------------------

  /** Each recovery left the file as it was: killed, or unable to replace it. */
  ghost predicate AllCut(envs: seq<Env>, w: World) {
    envs != [] ==>
      && AllCut(envs[..|envs| - 1], w)
      && Recoveries(envs, w).disk == Recoveries(envs[..|envs| - 1], w).disk
  }

  ghost function Recoveries(envs: seq<Env>, w: World): World {
    ReplayLaws.Recoveries(envs, w)
  }

  /** Running some of the inverses first does not change where running them all
      leads. */
  ghost predicate Repeatable(env: Env, es: seq<Entry>) {
    forall m, m' :: PartlyUnwound(env, es, m, m') ==> Unwind(env, es, m') == Unwind(env, es, m)
  }

  lemma {:induction false} SamePart(env: Env, env': Env, es: seq<Entry>, m: Machine, m': Machine)
    requires env'.eff == env.eff
    ensures PartlyUnwound(env, es, m, m') == PartlyUnwound(env', es, m, m')
    decreases |es|
  {
    if es != [] {
      var front, e := es[..|es| - 1], es[|es| - 1];
      SamePart(env, env', front, m, m');
      SamePart(env, env', front, env.eff(e.undo, m), m');
    }
  }

  lemma {:induction false} CutsLeadBack(env: Env, envs: seq<Env>, w: World)
    requires AllCut(envs, w) && FailClosed.SidedEntries(Load(w.disk)) && forall i :: 0 <= i < |envs| ==> envs[i].eff == env.eff
    ensures var b := Recoveries(envs, w);
            && b.disk == w.disk && (b.kernel.fw == w.kernel.fw || b.kernel.fw == None)
            && (Repeatable(env, Load(w.disk)) ==>
                  Unwind(env, Load(w.disk), b.kernel.rest) == Unwind(env, Load(w.disk), w.kernel.rest))
  {
    if envs != [] {
      var front, last := envs[..|envs| - 1], envs[|envs| - 1];
      CutsLeadBack(env, front, w);
      var so := Recoveries(front, w).(up := true);
      RecoverIsPart(last, so);
      SamePart(env, last, Load(w.disk), so.kernel.rest, Recover(last, so).w.kernel.rest);
    }
  }

  /** Restoration through any number of recoveries. After a session that ended
      anywhere, let recoveries be cut short again and again, with any command failing
      on the way, and let one finish without a failure: no ruleset is loaded, nothing
      is on file, and the machine is where the journal leads from what the others
      left. Where inverses may be repeated that is the machine as it was found, with
      the exception of a single recovery. */
  lemma {:induction false} RetriesRestore(env: Env, cuts: seq<Env>, env': Env, w: World, calls: seq<seq<Step>>)
    requires HonestAboutAbsence(env') && env'.eff == env.eff && forall i :: 0 <= i < |cuts| ==> cuts[i].eff == env.eff
    requires Startable(w) && AllSuit(env, w, calls) && AllCut(cuts, AfterCalls(env, w, calls))
    ensures var a := AfterCalls(env, w, calls);
            var b := Recoveries(cuts, a).(up := true);
            var f := Recover(env', b);
            f.ok && f.failed == 0 ==>
              && f.w.kernel.fw == None && Load(f.w.disk) == []
              && f.w.kernel.rest == Unwind(env, Load(a.disk), b.kernel.rest)
              && (Repeatable(env, Load(a.disk)) ==>
                    (f.w.kernel.rest == Origin(env, w) <==> !EndsStranded(env, w, calls) || Harmless(env, a)))
  {
    SessionLeadsBack(env, w, calls);
    var a := AfterCalls(env, w, calls);
    CutsLeadBack(env, cuts, a);
    SweepUnwinds(env, env', Recoveries(cuts, a).(up := true));
  }

  // --- and exactly then ------------------------------------------------------

  /** The machine after the k newest inverses. */
  function Newest(env: Env, es: seq<Entry>, k: nat, m: Machine): Machine
    decreases |es|
  {
    if es == [] || k == 0 then m
    else
      var front, e := es[..|es| - 1], es[|es| - 1];
      if Concerns(e, false) then Newest(env, front, k - 1, env.eff(e.undo, m)) else Newest(env, front, k, m)
  }

  /** Everything succeeds until a time, and the process dies at the next command, or
      before it has replaced the file. */
  function KilledAt(eff: (Command, Machine) -> Machine, at: nat): Env {
    Env(eff, (t: nat, c: Command, m: Machine) => if t < at then Ok else Dies(false), (t: nat) => false,
        (t: nat) => Written, (t: nat) => ReplaceDies(false))
  }

  lemma {:induction false} DeadPass(env: Env, w: World, es: seq<Entry>, nft: bool, failed: nat)
    requires !w.up
    ensures var p := Pass(env, w, es, false, nft, failed); p.w == w
    decreases |es|
  {
    if es != [] {
      var front, e := es[..|es| - 1], es[|es| - 1];
      if !Concerns(e, nft) || (nft && failed > 0) {
        DeadPass(env, w, front, nft, failed);
      } else {
        assert UndoOne(env, w, e, false) == Undid(w, StillFailing);
        DeadPass(env, w, front, nft, failed + 1);
      }
    }
  }

  lemma {:induction false} KilledPass(env: Env, w: World, es: seq<Entry>, k: nat, failed: nat)
    requires env == KilledAt(env.eff, w.clock + k) && w.up && FailClosed.SidedEntries(es)
    ensures Pass(env, w, es, false, false, failed).w.kernel.rest == Newest(env, es, k, w.kernel.rest)
    decreases |es|
  {
    if es != [] {
      var front, e := es[..|es| - 1], es[|es| - 1];
      if !Concerns(e, false) {
        KilledPass(env, w, front, k, failed);
      } else if k == 0 {
        var u := UndoOne(env, w, e, false);
        assert !u.w.up && u.w.kernel.rest == w.kernel.rest && u.verdict == StillFailing;
        DeadPass(env, u.w, front, false, failed + 1);
      } else {
        var u := UndoOne(env, w, e, false);
        assert u.w.up && u.w.clock == w.clock + 1 && u.w.kernel.rest == env.eff(e.undo, w.kernel.rest) && u.verdict == Reversed;
        KilledPass(env, u.w, front, k - 1, failed);
      }
    }
  }

  /** For every number of inverses, some crash cuts a recovery there: the next one then
      runs those once more, before the others. */
  lemma CutAnywhere(env: Env, w: World, k: nat)
    requires env == Obliging(env.eff) && Startable(w) && Load(w.disk) != []
    ensures var b := Recover(KilledAt(env.eff, w.clock + k), w).w;
            var f := Recover(env, b.(up := true));
            && b.disk == w.disk && !b.up && b.kernel.rest == Newest(env, Load(w.disk), k, w.kernel.rest)
            && f.ok && f.failed == 0
            && f.w.kernel.rest == Unwind(env, Load(w.disk), Newest(env, Load(w.disk), k, w.kernel.rest))
  {
    var es := Load(w.disk);
    var cut := KilledAt(env.eff, w.clock + k);
    KilledPass(cut, w, es, k, 0);
    SameNewest(env, cut, es, k, w.kernel.rest);
    var one := Pass(cut, w, es, false, false, 0);
    SecondPassLeavesRest(cut, one.w, es, one.failed);
    RecoverIsPart(cut, w);
    ReplayLaws.ReplayLeavesDisk(cut, w, es);
    var b := Recover(cut, w).w.(up := true);
    ObligingPass(env, b, es, false, false);
    ObligingPass(env, Pass(env, b, es, false, false, 0).w, es, false, true);
    SweepUnwinds(env, env, b);
  }

  lemma {:induction false} SameNewest(env: Env, env': Env, es: seq<Entry>, k: nat, m: Machine)
    requires env'.eff == env.eff
    ensures Newest(env, es, k, m) == Newest(env', es, k, m)
    decreases |es|
  {
    if es != [] && k > 0 {
      var front, e := es[..|es| - 1], es[|es| - 1];
      if Concerns(e, false) {
        SameNewest(env, env', front, k - 1, env.eff(e.undo, m));
      } else {
        SameNewest(env, env', front, k, m);
      }
    }
  }

  // --- inverses that overwrite -----------------------------------------------

  /** The inverse sets some objects and removes others, whatever they were. */
  ghost predicate Overwrites(env: Env, e: Entry, names: set<string>, values: Machine) {
    values.Keys <= names && forall m: Machine :: env.eff(e.undo, m) == (m - names) + values
  }

  ghost predicate AllOverwrite(env: Env, es: seq<Entry>, names: Entry -> set<string>, values: Entry -> Machine) {
    forall e :: e in es && Concerns(e, false) ==> Overwrites(env, e, names(e), values(e))
  }

  /** What the live inverses overwrite. */
  function Touched(es: seq<Entry>, names: Entry -> set<string>): set<string> {
    if es == [] then {}
    else Touched(es[..|es| - 1], names) + if Concerns(es[|es| - 1], false) then names(es[|es| - 1]) else {}
  }

  ghost predicate AgreeOff(m: Machine, m': Machine, names: set<string>) {
    forall x :: x !in names ==> (x in m <==> x in m') && (x in m ==> m[x] == m'[x])
  }

  lemma {:induction false} PartAgrees(env: Env, es: seq<Entry>, names: Entry -> set<string>, values: Entry -> Machine, m: Machine, m': Machine)
    requires AllOverwrite(env, es, names, values) && PartlyUnwound(env, es, m, m')
    ensures AgreeOff(m, m', Touched(es, names))
    decreases |es|
  {
    if es != [] {
      var front, e := es[..|es| - 1], es[|es| - 1];
      if PartlyUnwound(env, front, m, m') {
        PartAgrees(env, front, names, values, m, m');
      } else {
        assert Overwrites(env, e, names(e), values(e));
        PartAgrees(env, front, names, values, env.eff(e.undo, m), m');
      }
    }
  }

  lemma {:induction false} UnwindForgets(env: Env, es: seq<Entry>, names: Entry -> set<string>, values: Entry -> Machine, m: Machine, m': Machine)
    requires AllOverwrite(env, es, names, values) && AgreeOff(m, m', Touched(es, names))
    ensures Unwind(env, es, m) == Unwind(env, es, m')
    decreases |es|
  {
    if es == [] {
      assert m == m';
    } else {
      var front, e := es[..|es| - 1], es[|es| - 1];
      if Concerns(e, false) {
        assert Overwrites(env, e, names(e), values(e));
        UnwindForgets(env, front, names, values, env.eff(e.undo, m), env.eff(e.undo, m'));
      } else {
        UnwindForgets(env, front, names, values, m, m');
      }
    }
  }

  /** Inverses that write back what was read, or take an object away, may be run again:
      however many there are and whatever they have in common. */
  lemma OverwritesRepeat(env: Env, es: seq<Entry>, names: Entry -> set<string>, values: Entry -> Machine)
    requires AllOverwrite(env, es, names, values)
    ensures Repeatable(env, es)
  {
    forall m, m' | PartlyUnwound(env, es, m, m') ensures Unwind(env, es, m') == Unwind(env, es, m) {
      PartAgrees(env, es, names, values, m, m');
      UnwindForgets(env, es, names, values, m, m');
    }
  }
}
