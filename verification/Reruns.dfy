// Recoveries that finish with some inverses failing. Each puts the rest back on file,
// so that a later one runs them after inverses they used to come before.

module Reruns {
  import opened Commands
  import opened Journal
  import opened World
  import opened Protocol
  import opened Restoration
  import FailClosed
  import ReplayLaws
  import Retries

  // --- the inverses on file, as commands -------------------------------------

  /** The live inverses other than the firewall's, oldest first. */
  function Inverses(es: seq<Entry>): seq<Command> {
    if es == [] then []
    else Inverses(es[..|es| - 1]) + if Concerns(es[|es| - 1], false) then [es[|es| - 1].undo] else []
  }

  /** The machine after all of them, newest first. */
  function RunAll(env: Env, cs: seq<Command>, m: Machine): Machine
    decreases |cs|
  {
    if cs == [] then m else RunAll(env, cs[..|cs| - 1], env.eff(cs[|cs| - 1], m))
  }

  lemma RunSnoc(env: Env, cs: seq<Command>, c: Command, m: Machine)
    ensures RunAll(env, cs + [c], m) == RunAll(env, cs, env.eff(c, m))
  {
    assert (cs + [c])[..|cs + [c]| - 1] == cs;
  }

  lemma {:induction false} UnwindRuns(env: Env, es: seq<Entry>, m: Machine)
    ensures Unwind(env, es, m) == RunAll(env, Inverses(es), m)
    decreases |es|
  {
    if es != [] {
      var front, e := es[..|es| - 1], es[|es| - 1];
      if Concerns(e, false) {
        UnwindRuns(env, front, env.eff(e.undo, m));
        RunSnoc(env, Inverses(front), e.undo, m);
      } else {
        UnwindRuns(env, front, m);
        assert Inverses(es) == Inverses(front);
      }
    }
  }

  // --- what one recovery leaves ----------------------------------------------

  /** From cs on file and the machine m, some inverses were run newest first, leaving m',
      and all but some of those are still on file, as cs'. */
  ghost predicate Leaves(env: Env, cs: seq<Command>, m: Machine, cs': seq<Command>, m': Machine)
    decreases |cs|
  {
    if cs == [] then cs' == [] && m' == m
    else
      var front, c := cs[..|cs| - 1], cs[|cs| - 1];
      || Leaves(env, front, env.eff(c, m), cs', m')
      || (&& cs' != [] && cs'[|cs'| - 1] == c
          && (Leaves(env, front, m, cs'[..|cs'| - 1], m') || Leaves(env, front, env.eff(c, m), cs'[..|cs'| - 1], m')))
  }

  lemma Dropped(env: Env, cs: seq<Command>, c: Command, m: Machine, cs': seq<Command>, m': Machine)
    requires Leaves(env, cs, env.eff(c, m), cs', m')
    ensures Leaves(env, cs + [c], m, cs', m')
  {
    assert (cs + [c])[..|cs + [c]| - 1] == cs;
  }

  lemma Kept(env: Env, cs: seq<Command>, c: Command, m: Machine, cs': seq<Command>, m': Machine)
    requires Leaves(env, cs, m, cs', m') || Leaves(env, cs, env.eff(c, m), cs', m')
    ensures Leaves(env, cs + [c], m, cs' + [c], m')
  {
    assert (cs + [c])[..|cs + [c]| - 1] == cs && (cs' + [c])[..|cs' + [c]| - 1] == cs';
  }

  /** Nothing need have been taken off the file. */
  lemma {:induction false} AllKept(env: Env, cs: seq<Command>, m: Machine, cs': seq<Command>, m': Machine)
    requires Leaves(env, cs, m, cs', m')
    ensures Leaves(env, cs, m, cs, m')
    decreases |cs|
  {
    if cs != [] {
      var front, c := cs[..|cs| - 1], cs[|cs| - 1];
      assert cs == front + [c];
      if Leaves(env, front, env.eff(c, m), cs', m') {
        AllKept(env, front, env.eff(c, m), cs', m');
      } else if Leaves(env, front, m, cs'[..|cs'| - 1], m') {
        AllKept(env, front, m, cs'[..|cs'| - 1], m');
      } else {
        AllKept(env, front, env.eff(c, m), cs'[..|cs'| - 1], m');
      }
    }
  }

  lemma {:induction false} SameLeaves(env: Env, env': Env, cs: seq<Command>, m: Machine, cs': seq<Command>, m': Machine)
    requires env'.eff == env.eff
    ensures Leaves(env, cs, m, cs', m') == Leaves(env', cs, m, cs', m')
    decreases |cs|
  {
    if cs != [] {
      var front, c := cs[..|cs| - 1], cs[|cs| - 1];
      SameLeaves(env, env', front, env.eff(c, m), cs', m');
      if cs' != [] {
        SameLeaves(env, env', front, m, cs'[..|cs'| - 1], m');
        SameLeaves(env, env', front, env.eff(c, m), cs'[..|cs'| - 1], m');
      }
    }
  }

  // --- the entries a pass keeps ----------------------------------------------

  /** What is still outstanding, oldest first. */
  function Still(rs: seq<UndoResult>): seq<Entry>
    decreases |rs|
  {
    if rs == [] then [] else Still(rs[1..]) + if Outstanding(rs[0]) then [rs[0].e] else []
  }

  lemma StillCons(r: UndoResult, rs: seq<UndoResult>)
    ensures Still([r] + rs) == if Outstanding(r) then Still(rs) + [r.e] else Still(rs)
  {
    assert ([r] + rs)[1..] == rs;
  }

  lemma {:induction false} StillConcat(a: seq<UndoResult>, b: seq<UndoResult>)
    ensures Still(a + b) == Still(b) + Still(a)
    decreases |a|
  {
    if a == [] {
      assert a + b == b;
    } else {
      assert (a + b)[1..] == a[1..] + b;
      StillConcat(a[1..], b);
    }
  }

  lemma {:induction false} StillRemains(rs: seq<UndoResult>)
    ensures Remaining(rs) == Still(rs)
    decreases |rs|
  {
    if rs != [] {
      var r, rest := rs[0], rs[1..];
      assert rs == [r] + rest;
      StillRemains(rest);
      ReplayLaws.LeftoversConcat([r], rest);
      assert Leftovers([r]) == if Outstanding(r) then [r.e] else [];
    }
  }

  function Undos(es: seq<Entry>): seq<Command> {
    seq(|es|, i requires 0 <= i < |es| => es[i].undo)
  }

  lemma OrderSnoc(es: seq<Entry>, k: seq<Entry>)
    requires Increasing(es) && es != [] && Increasing(k) && forall x :: x in k ==> x in es[..|es| - 1]
    ensures Increasing(k + [es[|es| - 1]])
  {
    forall i | 0 <= i < |k| ensures k[i].seqno < es[|es| - 1].seqno {
      assert k[i] in k;
      var j :| 0 <= j < |es| - 1 && es[j] == k[i];
    }
  }

  /** A pass keeps entries it is about, in order. */
  lemma {:induction false} PassKeeps(env: Env, w: World, es: seq<Entry>, nft: bool, failed: nat)
    requires Increasing(es)
    ensures var k := Still(Pass(env, w, es, false, nft, failed).results);
            Increasing(k) && forall e :: e in k ==> e in es && Concerns(e, nft)
    decreases |es|
  {
    if es != [] {
      var front, e := es[..|es| - 1], es[|es| - 1];
      if !Concerns(e, nft) {
        PassKeeps(env, w, front, nft, failed);
      } else if nft && failed > 0 {
        var q := Pass(env, w, front, false, nft, failed);
        PassKeeps(env, w, front, nft, failed);
        StillCons(UndoResult(e, Held), q.results);
        OrderSnoc(es, Still(q.results));
      } else {
        var u := UndoOne(env, w, e, false);
        var f := failed + if u.verdict.StillFailing? then 1 else 0;
        var q := Pass(env, u.w, front, false, nft, f);
        PassKeeps(env, u.w, front, nft, f);
        StillCons(UndoResult(e, u.verdict), q.results);
        OrderSnoc(es, Still(q.results));
      }
    }
  }

  /** The first pass, one inverse at a time. */
  lemma FirstPassSnoc(env: Env, w: World, es: seq<Entry>, failed: nat)
    requires es != [] && Concerns(es[|es| - 1], false)
    ensures var front, e := es[..|es| - 1], es[|es| - 1];
            var u := UndoOne(env, w, e, false);
            var q := Pass(env, u.w, front, false, false, failed + if u.verdict.StillFailing? then 1 else 0);
            var p := Pass(env, w, es, false, false, failed);
            var k := Undos(Still(q.results));
            p.w == q.w && Undos(Still(p.results)) == if u.verdict.StillFailing? then k + [e.undo] else k
  {
    var front, e := es[..|es| - 1], es[|es| - 1];
    var u := UndoOne(env, w, e, false);
    var q := Pass(env, u.w, front, false, false, failed + if u.verdict.StillFailing? then 1 else 0);
    StillCons(UndoResult(e, u.verdict), q.results);
    assert Undos(Still(q.results) + [e]) == Undos(Still(q.results)) + [e.undo];
  }

  /** What the first pass does to the machine, and what it keeps. */
  lemma {:induction false} FirstPassLeaves(env: Env, w: World, es: seq<Entry>, failed: nat)
    requires HonestAboutAbsence(env) && FailClosed.SidedEntries(es)
    ensures var p := Pass(env, w, es, false, false, failed);
            Leaves(env, Inverses(es), w.kernel.rest, Undos(Still(p.results)), p.w.kernel.rest)
    decreases |es|
  {
    if es != [] {
      var front, e := es[..|es| - 1], es[|es| - 1];
      if !Concerns(e, false) {
        FirstPassLeaves(env, w, front, failed);
        assert Inverses(es) == Inverses(front);
      } else {
        var u := UndoOne(env, w, e, false);
        var f := failed + if u.verdict.StillFailing? then 1 else 0;
        var q := Pass(env, u.w, front, false, false, f);
        FirstPassLeaves(env, u.w, front, f);
        Retries.UndoneOrNot(env, w, e);
        UndoOneUnwinds(env, w, e, false);
        FirstPassSnoc(env, w, es, failed);
        if u.verdict.StillFailing? {
          Kept(env, Inverses(front), e.undo, w.kernel.rest, Undos(Still(q.results)), q.w.kernel.rest);
        } else {
          Dropped(env, Inverses(front), e.undo, w.kernel.rest, Undos(Still(q.results)), q.w.kernel.rest);
        }
      }
    }
  }

  lemma HoldsLast(es: seq<Entry>, e: Entry)
    ensures Concerns(e, true) ==> HoldsFirewall(es + [e])
  {
    assert (es + [e])[|es|] == e;
  }

  lemma HoldsFront(es: seq<Entry>)
    requires es != [] && !Concerns(es[|es| - 1], true)
    ensures HoldsFirewall(es) ==> HoldsFirewall(es[..|es| - 1])
  {
    if HoldsFirewall(es) {
      var i :| 0 <= i < |es| && Concerns(es[i], true);
      assert Concerns(es[..|es| - 1][i], true);
    }
  }

  lemma HeldNewest(env: Env, w: World, es: seq<Entry>, failed: nat)
    requires es != [] && Concerns(es[|es| - 1], true) && failed > 0
    ensures HoldsFirewall(Still(Pass(env, w, es, false, true, failed).results))
  {
    var q := Pass(env, w, es[..|es| - 1], false, true, failed);
    StillCons(UndoResult(es[|es| - 1], Held), q.results);
    HoldsLast(Still(q.results), es[|es| - 1]);
  }

  lemma RanNewest(env: Env, w: World, es: seq<Entry>)
    requires HonestAboutAbsence(env) && FailClosed.SidedEntries(es) && es != [] && Concerns(es[|es| - 1], true)
    ensures var p := Pass(env, w, es, false, true, 0); p.w.kernel.fw == None || HoldsFirewall(Still(p.results))
  {
    var front, e := es[..|es| - 1], es[|es| - 1];
    var u := UndoOne(env, w, e, false);
    var f := if u.verdict.StillFailing? then 1 else 0;
    if u.verdict.StillFailing? {
      var q := Pass(env, u.w, front, false, true, f);
      StillCons(UndoResult(e, u.verdict), q.results);
      HoldsLast(Still(q.results), e);
    } else {
      UndoOneUnwinds(env, w, e, false);
      Retries.SecondPassLeavesRest(env, u.w, front, f);
    }
  }

  /** A ruleset that is still loaded after the second pass is still on file. */
  lemma {:induction false} SecondPassHolds(env: Env, w: World, es: seq<Entry>, failed: nat)
    requires HonestAboutAbsence(env) && FailClosed.SidedEntries(es)
    ensures var p := Pass(env, w, es, false, true, failed);
            p.w.kernel.fw.Some? && HoldsFirewall(es) ==> HoldsFirewall(Still(p.results))
    decreases |es|
  {
    if es != [] {
      if !Concerns(es[|es| - 1], true) {
        HoldsFront(es);
        SecondPassHolds(env, w, es[..|es| - 1], failed);
      } else if failed > 0 {
        HeldNewest(env, w, es, failed);
      } else {
        RanNewest(env, w, es);
      }
    }
  }

  // --- the file that is put back ---------------------------------------------

  /** The live entries other than the firewall's. */
  function Others(es: seq<Entry>): seq<Entry> {
    if es == [] then []
    else Others(es[..|es| - 1]) + if Concerns(es[|es| - 1], false) then [es[|es| - 1]] else []
  }

  lemma {:induction false} InversesOfOthers(es: seq<Entry>)
    ensures Inverses(es) == Undos(Others(es))
  {
    if es != [] {
      InversesOfOthers(es[..|es| - 1]);
    }
  }

  lemma {:induction false} OthersFacts(es: seq<Entry>)
    requires Increasing(es)
    ensures Increasing(Others(es)) && forall e :: e in Others(es) <==> e in es && Concerns(e, false)
  {
    if es != [] {
      var front, e := es[..|es| - 1], es[|es| - 1];
      OthersFacts(front);
      OrderSnoc(es, Others(front));
      assert es == front + [e];
    }
  }

  lemma LastIsTop(a: seq<Entry>, b: seq<Entry>)
    requires Increasing(a) && Increasing(b) && a != [] && b != [] && forall e :: e in a <==> e in b
    ensures a[|a| - 1] == b[|b| - 1]
  {
    var x, y := a[|a| - 1], b[|b| - 1];
    assert x in b && y in a;
    var i :| 0 <= i < |b| && b[i] == x;
    var j :| 0 <= j < |a| && a[j] == y;
  }

  lemma FrontHas(a: seq<Entry>, e: Entry)
    requires Increasing(a) && a != []
    ensures e in a[..|a| - 1] <==> e in a && e != a[|a| - 1]
  {
    assert a == a[..|a| - 1] + [a[|a| - 1]];
  }

  lemma NoMembers(es: seq<Entry>)
    ensures es == [] <==> forall e :: e !in es
  {
    if es != [] {
      assert es[0] in es;
    }
  }

  /** Two lists in sequence order with the same members are one list. */
  lemma {:induction false} SameMembers(a: seq<Entry>, b: seq<Entry>)
    requires Increasing(a) && Increasing(b) && forall e :: e in a <==> e in b
    ensures a == b
    decreases |a|
  {
    NoMembers(a);
    NoMembers(b);
    if a != [] {
      LastIsTop(a, b);
      var a', b' := a[..|a| - 1], b[..|b| - 1];
      forall e ensures e in a' <==> e in b' {
        FrontHas(a, e);
        FrontHas(b, e);
      }
      SameMembers(a', b');
    }
  }

  function Begun(es: seq<Entry>): seq<Entry> {
    seq(|es|, i requires 0 <= i < |es| => es[i].(phase := Begin))
  }

  lemma BegunHas(es: seq<Entry>, e: Entry)
    ensures e in Begun(es) <==> exists i :: 0 <= i < |es| && e == es[i].(phase := Begin)
  {
    if e in Begun(es) {
      var i :| 0 <= i < |es| && Begun(es)[i] == e;
    }
    if exists i :: 0 <= i < |es| && e == es[i].(phase := Begin) {
      var i :| 0 <= i < |es| && e == es[i].(phase := Begin);
      assert Begun(es)[i] == e;
    }
  }

  /** The rewritten file asks for exactly the other entries kept, in their order. */
  lemma RewrittenInverses(first: seq<Entry>, second: seq<Entry>)
    requires Distinct(second + first) && Increasing(first)
    requires (forall e :: e in first ==> Concerns(e, false)) && (forall e :: e in second ==> Concerns(e, true))
    ensures Inverses(Load(Rewritten(second + first))) == Undos(first)
  {
    var rem := second + first;
    var l := Load(Rewritten(rem));
    forall i | 0 <= i < |rem| ensures Named(rem[i]) {
      assert rem[i] in second || rem[i] in first;
    }
    RewriteThenLoad(rem);
    OthersFacts(l);
    forall e ensures e in Others(l) <==> e in Begun(first) {
      RewrittenOthers(first, second, l, e);
    }
    SameMembers(Others(l), Begun(first));
    InversesOfOthers(l);
    assert Undos(Begun(first)) == Undos(first);
  }

  lemma RewrittenOthers(first: seq<Entry>, second: seq<Entry>, l: seq<Entry>, e: Entry)
    requires (forall x :: x in first ==> Concerns(x, false)) && (forall x :: x in second ==> Concerns(x, true))
    requires var rem := second + first;
             && (forall i :: 0 <= i < |rem| ==> rem[i].(phase := Begin) in l)
             && (forall x :: x in l ==> exists i :: 0 <= i < |rem| && x == rem[i].(phase := Begin))
    ensures e in l && Concerns(e, false) <==> e in Begun(first)
  {
    var rem := second + first;
    BegunHas(first, e);
    if e in l && Concerns(e, false) {
      var i :| 0 <= i < |rem| && e == rem[i].(phase := Begin);
      assert rem[i] in second || rem[i] in first;
      var j :| 0 <= j < |first| && first[j] == rem[i];
    }
    if e in Begun(first) {
      var i :| 0 <= i < |first| && e == first[i].(phase := Begin);
      assert first[i] in first && rem[|second| + i] == first[i];
    }
  }

  /** What holds of a journal and a machine between recoveries. */
  ghost predicate Recoverable(w: World) {
    FailClosed.SidedEntries(Load(w.disk)) && (w.kernel.fw.Some? ==> HoldsFirewall(Load(w.disk)))
  }

  lemma RewrittenIsRecoverable(rem: seq<Entry>, es: seq<Entry>, loaded: bool)
    requires Distinct(rem) && (forall i :: 0 <= i < |rem| ==> rem[i] in es && NeedsUndo(rem[i])) && FailClosed.SidedEntries(es)
    requires loaded ==> HoldsFirewall(rem)
    ensures FailClosed.SidedEntries(Load(Rewritten(rem))) && (loaded ==> HoldsFirewall(Load(Rewritten(rem))))
  {
    var l := Load(Rewritten(rem));
    RewriteThenLoad(rem);
    forall i | 0 <= i < |l| ensures FailClosed.SidedEntry(l[i].op, l[i].undo) {
      assert l[i] in l;
      var j :| 0 <= j < |rem| && l[i] == rem[j].(phase := Begin);
      var k :| 0 <= k < |es| && es[k] == rem[j];
    }
    if loaded {
      var j :| 0 <= j < |rem| && Concerns(rem[j], true);
      assert rem[j].(phase := Begin) in l;
      var i :| 0 <= i < |l| && l[i] == rem[j].(phase := Begin);
      assert Concerns(l[i], true);
    }
  }

  lemma HoldsWider(first: seq<Entry>, second: seq<Entry>)
    ensures HoldsFirewall(second) ==> HoldsFirewall(second + first)
  {
    if HoldsFirewall(second) {
      var i :| 0 <= i < |second| && Concerns(second[i], true);
      assert Concerns((second + first)[i], true);
    }
  }

  /** A recovery is its two passes, and the file is as it was or holds what they
      kept. */
  lemma RecoverEnds(env: Env, w: World)
    requires Load(w.disk) != []
    ensures var es := Load(w.disk);
            var one := Pass(env, w, es, false, false, 0);
            var two := Pass(env, one.w, es, false, true, one.failed);
            var rem := Still(two.results) + Still(one.results);
            var b := Recover(env, w).w;
            && b.kernel == two.w.kernel && (b.disk == w.disk || b.disk == Rewritten(rem))
            && (two.w.up && env.replace(two.w.clock).Replaced? ==> b.disk == Rewritten(rem))
            && Distinct(rem) && forall i :: 0 <= i < |rem| ==> rem[i] in es && NeedsUndo(rem[i])
  {
    var es := Load(w.disk);
    LoadMembers(w.disk);
    var one := Pass(env, w, es, false, false, 0);
    var two := Pass(env, one.w, es, false, true, one.failed);
    var p := Replay(env, w, es, false);
    StillConcat(one.results, two.results);
    StillRemains(p.results);
    ReplayLaws.RemainingFacts(env, w, es, false);
    ReplayLaws.ReplayLeavesDisk(env, w, es);
    ReplayLaws.ReplaceEnds(env, p.w, Remaining(p.results));
  }

  /** What the two passes do, and what the file would hold. */
  lemma PassesLeave(env: Env, w: World, es: seq<Entry>)
    requires HonestAboutAbsence(env) && FailClosed.SidedEntries(es) && Increasing(es)
    ensures var one := Pass(env, w, es, false, false, 0);
            var two := Pass(env, one.w, es, false, true, one.failed);
            var first, second := Still(one.results), Still(two.results);
            && Leaves(env, Inverses(es), w.kernel.rest, Undos(first), two.w.kernel.rest)
            && (two.w.kernel.fw == w.kernel.fw || two.w.kernel.fw == None)
            && (two.w.kernel.fw.Some? && HoldsFirewall(es) ==> HoldsFirewall(second + first))
            && (Distinct(second + first) ==> Inverses(Load(Rewritten(second + first))) == Undos(first))
  {
    var one := Pass(env, w, es, false, false, 0);
    var two := Pass(env, one.w, es, false, true, one.failed);
    var first, second := Still(one.results), Still(two.results);
    FirstPassLeaves(env, w, es, 0);
    Retries.FirstPassIsPart(env, w, es, 0);
    Retries.SecondPassLeavesRest(env, one.w, es, one.failed);
    SecondPassHolds(env, one.w, es, one.failed);
    PassKeeps(env, w, es, false, 0);
    PassKeeps(env, one.w, es, true, one.failed);
    HoldsWider(first, second);
    if Distinct(second + first) {
      RewrittenInverses(first, second);
    }
  }

  /** However a recovery ends, killed, refused or finished with anything failing: it
      has run some inverses newest first, and taken off the file only such. */
  lemma RecoverLeaves(env: Env, w: World)
    requires HonestAboutAbsence(env) && Recoverable(w)
    ensures var b := Recover(env, w).w;
            && Leaves(env, Inverses(Load(w.disk)), w.kernel.rest, Inverses(Load(b.disk)), b.kernel.rest)
            && Recoverable(b)
  {
    var es := Load(w.disk);
    if es != [] {
      LoadMembers(w.disk);
      var one := Pass(env, w, es, false, false, 0);
      var two := Pass(env, one.w, es, false, true, one.failed);
      var first, second := Still(one.results), Still(two.results);
      PassesLeave(env, w, es);
      RecoverEnds(env, w);
      AllKept(env, Inverses(es), w.kernel.rest, Undos(first), two.w.kernel.rest);
      RewrittenIsRecoverable(second + first, es, two.w.kernel.fw.Some?);
    }
  }

  // --- any number of them ----------------------------------------------------

  /** What n recoveries can leave. */
  ghost predicate Reaches(env: Env, cs: seq<Command>, m: Machine, cs': seq<Command>, m': Machine, n: nat)
    decreases n
  {
    if n == 0 then cs' == cs && m' == m
    else exists cs1, m1 :: Reaches(env, cs, m, cs1, m1, n - 1) && Leaves(env, cs1, m1, cs', m')
  }

  /** Whatever recoveries leave, running what is left leads where running all would
      have. */
  ghost predicate Settles(env: Env, cs: seq<Command>, m: Machine) {
    forall cs', m', n :: Reaches(env, cs, m, cs', m', n) ==> RunAll(env, cs', m') == RunAll(env, cs, m)
  }

  ghost predicate AllHonest(env: Env, tries: seq<Env>) {
    forall i :: 0 <= i < |tries| ==> HonestAboutAbsence(tries[i]) && tries[i].eff == env.eff
  }

  lemma {:induction false} RecoveriesReach(env: Env, envs: seq<Env>, w: World)
    requires Recoverable(w) && AllHonest(env, envs)
    ensures var b := ReplayLaws.Recoveries(envs, w);
            && Recoverable(b)
            && Reaches(env, Inverses(Load(w.disk)), w.kernel.rest, Inverses(Load(b.disk)), b.kernel.rest, |envs|)
  {
    if envs != [] {
      var front, last := envs[..|envs| - 1], envs[|envs| - 1];
      RecoveriesReach(env, front, w);
      var so := ReplayLaws.Recoveries(front, w).(up := true);
      var b := Recover(last, so).w;
      RecoverLeaves(last, so);
      SameLeaves(env, last, Inverses(Load(so.disk)), so.kernel.rest, Inverses(Load(b.disk)), b.kernel.rest);
    }
  }

  /** Restoration through any number of recoveries, however each ends: killed anywhere,
      unable to replace the file, or finished with some inverses failing, landed or
      not, and the rest put back on file. When one at last reports no failure, no
      ruleset is loaded, nothing is on file, and the machine is where what was left
      leads. Where the inverses settle that is the machine as it was found, with the
      exception of a single recovery. */
  lemma {:induction false} RerunsRestore(env: Env, tries: seq<Env>, env': Env, w: World, calls: seq<seq<Step>>)
    requires HonestAboutAbsence(env') && env'.eff == env.eff && AllHonest(env, tries)
    requires Startable(w) && AllSuit(env, w, calls)
    ensures var a := AfterCalls(env, w, calls);
            var b := ReplayLaws.Recoveries(tries, a).(up := true);
            var f := Recover(env', b);
            f.ok && f.failed == 0 ==>
              && f.w.kernel.fw == None && Load(f.w.disk) == []
              && f.w.kernel.rest == Unwind(env, Load(b.disk), b.kernel.rest)
              && (Settles(env, Inverses(Load(a.disk)), a.kernel.rest) ==>
                    (f.w.kernel.rest == Origin(env, w) <==> !EndsStranded(env, w, calls) || Harmless(env, a)))
  {
    SessionLeadsBack(env, w, calls);
    var a := AfterCalls(env, w, calls);
    RecoveriesReach(env, tries, a);
    var b := ReplayLaws.Recoveries(tries, a).(up := true);
    UnwindRuns(env, Load(a.disk), a.kernel.rest);
    UnwindRuns(env, Load(b.disk), b.kernel.rest);
    SweepUnwinds(env, env', b);
  }

  // --- and exactly then ------------------------------------------------------

  /** Answers that make a recovery leave cs' and m'. */
  ghost function Script(env: Env, cs: seq<Command>, m: Machine, cs': seq<Command>, m': Machine): seq<Answer>
    requires Leaves(env, cs, m, cs', m')
    decreases |cs|
  {
    if cs == [] then []
    else
      var front, c := cs[..|cs| - 1], cs[|cs| - 1];
      if Leaves(env, front, env.eff(c, m), cs', m') then [Ok] + Script(env, front, env.eff(c, m), cs', m')
      else
        var f' := cs'[..|cs'| - 1];
        if Leaves(env, front, m, f', m') then [Fails("", "", false)] + Script(env, front, m, f', m')
        else [Fails("", "", true)] + Script(env, front, env.eff(c, m), f', m')
  }

  /** A world that answers from a script, from t0 on, and otherwise obliges. */
  function Scripted(eff: (Command, Machine) -> Machine, t0: nat, script: seq<Answer>): Env {
    Obliging(eff).(run := (t: nat, c: Command, m: Machine) => if t0 <= t < t0 + |script| then script[t - t0] else Ok)
  }

  ghost predicate Follows(env: Env, t0: nat, script: seq<Answer>) {
    forall t: nat, c: Command, m: Machine :: t0 <= t < t0 + |script| ==> env.run(t, c, m) == script[t - t0]
  }

  /** A failure whose text is read as nothing in particular. */
  predicate Silent(stderr: string, err: string) {
    !IsNotFound(stderr, err) && !IsAlreadyExists(stderr, err)
  }

  predicate Plain(a: Answer) {
    a.Ok? || (a.Fails? && Silent(a.stderr, a.err))
  }

  lemma SaysNothing()
    ensures Silent("", "")
  {
    var s := Lower("" + " " + "");
    forall k | 0 <= k < |NOT_FOUND| ensures !Contains(s, NOT_FOUND[k]) {
      assert |NOT_FOUND[k]| > |s|;
    }
    forall k | 0 <= k < |ALREADY_EXISTS| ensures !Contains(s, ALREADY_EXISTS[k]) {
      assert |ALREADY_EXISTS[k]| > |s|;
    }
  }

  /** The answers from t on to the inverses cs, newest first, leave cs' and m'. */
  ghost predicate Directs(env: Env, t: nat, cs: seq<Command>, m: Machine, cs': seq<Command>, m': Machine)
    decreases |cs|
  {
    if cs == [] then cs' == [] && m' == m
    else
      var front, c := cs[..|cs| - 1], cs[|cs| - 1];
      var a := env.run(t, c, m);
      && Plain(a)
      && if a.Ok? then Directs(env, t + 1, front, env.eff(c, m), cs', m')
         else
           && cs' != [] && cs'[|cs'| - 1] == c
           && Directs(env, t + 1, front, if a.landed then env.eff(c, m) else m, cs'[..|cs'| - 1], m')
  }

  lemma {:induction false} ScriptIsPlain(env: Env, cs: seq<Command>, m: Machine, cs': seq<Command>, m': Machine)
    requires Leaves(env, cs, m, cs', m')
    ensures forall i :: 0 <= i < |Script(env, cs, m, cs', m')| ==> Plain(Script(env, cs, m, cs', m')[i])
    decreases |cs|
  {
    SaysNothing();
    if cs != [] {
      var front, c := cs[..|cs| - 1], cs[|cs| - 1];
      if Leaves(env, front, env.eff(c, m), cs', m') {
        ScriptIsPlain(env, front, env.eff(c, m), cs', m');
      } else if Leaves(env, front, m, cs'[..|cs'| - 1], m') {
        ScriptIsPlain(env, front, m, cs'[..|cs'| - 1], m');
      } else {
        ScriptIsPlain(env, front, env.eff(c, m), cs'[..|cs'| - 1], m');
      }
    }
  }

  lemma {:induction false} StaysUp(env: Env, w: World, es: seq<Entry>, nft: bool, failed: nat)
    requires w.up && forall t: nat, c: Command, m: Machine :: !env.run(t, c, m).Dies?
    ensures Pass(env, w, es, false, nft, failed).w.up
    decreases |es|
  {
    if es != [] {
      var front, e := es[..|es| - 1], es[|es| - 1];
      if !Concerns(e, nft) || (nft && failed > 0) {
        StaysUp(env, w, front, nft, failed);
      } else {
        var u := UndoOne(env, w, e, false);
        StaysUp(env, u.w, front, nft, failed + if u.verdict.StillFailing? then 1 else 0);
      }
    }
  }

  /** One inverse, answered from the script. */
  lemma ScriptedUndo(env: Env, w: World, e: Entry, a: Answer)
    requires w.up && !IsNft(e.undo) && Plain(a) && env.run(w.clock, e.undo, w.kernel.rest) == a
    ensures var u := UndoOne(env, w, e, false);
            && u.w.up && u.w.clock == w.clock + 1 && u.verdict == (if a.Ok? then Reversed else StillFailing)
            && u.w.kernel.rest == if a.Ok? || a.landed then env.eff(e.undo, w.kernel.rest) else w.kernel.rest
  {
  }

  lemma SnocInverses(es: seq<Entry>)
    requires es != [] && Concerns(es[|es| - 1], false)
    ensures var cs := Inverses(es); cs != [] && cs[..|cs| - 1] == Inverses(es[..|es| - 1]) && cs[|cs| - 1] == es[|es| - 1].undo
  {
  }

  /** The script's first answer is about the newest inverse, the rest about the
      others. */
  lemma ScriptHead(env: Env, cs: seq<Command>, m: Machine, cs': seq<Command>, m': Machine) returns (m1: Machine, cs1: seq<Command>)
    requires cs != [] && Leaves(env, cs, m, cs', m')
    ensures var script := Script(env, cs, m, cs', m');
            var front, c := cs[..|cs| - 1], cs[|cs| - 1];
            && script != [] && Plain(script[0])
            && m1 == (if script[0].Ok? || script[0].landed then env.eff(c, m) else m)
            && cs' == (if script[0].Ok? then cs1 else cs1 + [c])
            && Leaves(env, front, m1, cs1, m') && script[1..] == Script(env, front, m1, cs1, m')
  {
    SaysNothing();
    var front, c := cs[..|cs| - 1], cs[|cs| - 1];
    if Leaves(env, front, env.eff(c, m), cs', m') {
      m1, cs1 := env.eff(c, m), cs';
    } else {
      cs1 := cs'[..|cs'| - 1];
      m1 := if Leaves(env, front, m, cs1, m') then m else env.eff(c, m);
      assert cs' == cs1 + [c];
    }
  }

  lemma FollowsOn(env: Env, t0: nat, script: seq<Answer>)
    requires Follows(env, t0, script) && script != []
    ensures Follows(env, t0 + 1, script[1..]) && forall c: Command, m: Machine :: env.run(t0, c, m) == script[0]
  {
  }

  lemma {:induction false} ScriptDirects(env: Env, t: nat, cs: seq<Command>, m: Machine, cs': seq<Command>, m': Machine)
    requires Leaves(env, cs, m, cs', m') && Follows(env, t, Script(env, cs, m, cs', m'))
    ensures Directs(env, t, cs, m, cs', m')
    decreases |cs|
  {
    if cs != [] {
      var m1, cs1 := ScriptHead(env, cs, m, cs', m');
      FollowsOn(env, t, Script(env, cs, m, cs', m'));
      ScriptDirects(env, t + 1, cs[..|cs| - 1], m1, cs1, m');
    }
  }

  /** What a pass kept and where it left the machine. */
  ghost predicate PassLeft(p: Passed, cs': seq<Command>, m': Machine) {
    p.w.kernel.rest == m' && Undos(Still(p.results)) == cs'
  }

  lemma PassLeftSnoc(env: Env, w: World, es: seq<Entry>, failed: nat, cs1: seq<Command>, m': Machine)
    requires es != [] && Concerns(es[|es| - 1], false)
    requires var u := UndoOne(env, w, es[|es| - 1], false);
             PassLeft(Pass(env, u.w, es[..|es| - 1], false, false, failed + if u.verdict.StillFailing? then 1 else 0), cs1, m')
    ensures var u := UndoOne(env, w, es[|es| - 1], false);
            PassLeft(Pass(env, w, es, false, false, failed), if u.verdict.StillFailing? then cs1 + [es[|es| - 1].undo] else cs1, m')
  {
    FirstPassSnoc(env, w, es, failed);
  }

  lemma DirectsNext(env: Env, t: nat, es: seq<Entry>, m: Machine, cs': seq<Command>, m': Machine) returns (a: Answer, cs1: seq<Command>)
    requires es != [] && Concerns(es[|es| - 1], false) && Directs(env, t, Inverses(es), m, cs', m')
    ensures var front, c := es[..|es| - 1], es[|es| - 1].undo;
            && env.run(t, c, m) == a && Plain(a) && cs' == (if a.Ok? then cs1 else cs1 + [c])
            && Directs(env, t + 1, Inverses(front), if a.Ok? || a.landed then env.eff(c, m) else m, cs1, m')
  {
    SnocInverses(es);
    a := env.run(t, es[|es| - 1].undo, m);
    cs1 := if a.Ok? then cs' else cs'[..|cs'| - 1];
  }

  lemma {:induction false} ScriptedPass(env: Env, w: World, es: seq<Entry>, failed: nat, cs': seq<Command>, m': Machine)
    requires w.up && FailClosed.SidedEntries(es) && Directs(env, w.clock, Inverses(es), w.kernel.rest, cs', m')
    ensures PassLeft(Pass(env, w, es, false, false, failed), cs', m')
    decreases |es|, 1
  {
    if es == [] {
      assert Undos([]) == [];
    } else {
      var front, e := es[..|es| - 1], es[|es| - 1];
      if !Concerns(e, false) {
        assert Inverses(es) == Inverses(front);
        ScriptedPass(env, w, front, failed, cs', m');
      } else {
        ScriptedNewest(env, w, es, failed, cs', m');
      }
    }
  }

  lemma {:induction false} ScriptedNewest(env: Env, w: World, es: seq<Entry>, failed: nat, cs': seq<Command>, m': Machine)
    requires w.up && FailClosed.SidedEntries(es) && Directs(env, w.clock, Inverses(es), w.kernel.rest, cs', m')
    requires es != [] && Concerns(es[|es| - 1], false)
    ensures PassLeft(Pass(env, w, es, false, false, failed), cs', m')
    decreases |es|, 0
  {
    var a, cs1 := DirectsNext(env, w.clock, es, w.kernel.rest, cs', m');
    var u := UndoOne(env, w, es[|es| - 1], false);
    ScriptedUndo(env, w, es[|es| - 1], a);
    ScriptedPass(env, u.w, es[..|es| - 1], failed + if u.verdict.StillFailing? then 1 else 0, cs1, m');
    PassLeftSnoc(env, w, es, failed, cs1, m');
  }

  lemma {:induction false} SameScript(env: Env, env': Env, cs: seq<Command>, m: Machine, cs': seq<Command>, m': Machine)
    requires env'.eff == env.eff && Leaves(env, cs, m, cs', m')
    ensures Leaves(env', cs, m, cs', m') && Script(env', cs, m, cs', m') == Script(env, cs, m, cs', m')
    decreases |cs|
  {
    SameLeaves(env, env', cs, m, cs', m');
    if cs != [] {
      var front, c := cs[..|cs| - 1], cs[|cs| - 1];
      SameLeaves(env, env', front, env.eff(c, m), cs', m');
      if Leaves(env, front, env.eff(c, m), cs', m') {
        SameScript(env, env', front, env.eff(c, m), cs', m');
      } else {
        var f' := cs'[..|cs'| - 1];
        SameLeaves(env, env', front, m, f', m');
        SameScript(env, env', front, if Leaves(env, front, m, f', m') then m else env.eff(c, m), f', m');
      }
    }
  }

  lemma ScriptedIsHonest(eff: (Command, Machine) -> Machine, t0: nat, script: seq<Answer>)
    requires forall i :: 0 <= i < |script| ==> Plain(script[i])
    ensures var env := Scripted(eff, t0, script);
            && HonestAboutAbsence(env) && Follows(env, t0, script)
            && forall t: nat, c: Command, m: Machine :: !env.run(t, c, m).Dies?
  {
  }

  /** Every machine and file that the relation allows, some recovery leaves. */
  lemma Realised(env: Env, w: World, cs': seq<Command>, m': Machine) returns (env': Env)
    requires w.up && Recoverable(w) && Leaves(env, Inverses(Load(w.disk)), w.kernel.rest, cs', m')
    ensures HonestAboutAbsence(env') && env'.eff == env.eff
    ensures var b := Recover(env', w).w; Recoverable(b) && Inverses(Load(b.disk)) == cs' && b.kernel.rest == m'
  {
    var es := Load(w.disk);
    var script := Script(env, Inverses(es), w.kernel.rest, cs', m');
    env' := Scripted(env.eff, w.clock, script);
    ScriptIsPlain(env, Inverses(es), w.kernel.rest, cs', m');
    ScriptedIsHonest(env.eff, w.clock, script);
    RecoverLeaves(env', w);
    if es != [] {
      SameScript(env, env', Inverses(es), w.kernel.rest, cs', m');
      ScriptDirects(env', w.clock, Inverses(es), w.kernel.rest, cs', m');
      ScriptedPass(env', w, es, 0, cs', m');
      StaysUp(env', w, es, false, 0);
      var one := Pass(env', w, es, false, false, 0);
      StaysUp(env', one.w, es, true, one.failed);
      LoadMembers(w.disk);
      PassesLeave(env', w, es);
      Retries.SecondPassLeavesRest(env', one.w, es, one.failed);
      RecoverEnds(env', w);
    }
  }

  lemma OneMore(env: Env, front: seq<Env>, last: Env, w: World)
    requires AllHonest(env, front) && HonestAboutAbsence(last) && last.eff == env.eff
    ensures AllHonest(env, front + [last])
    ensures ReplayLaws.Recoveries(front + [last], w) == Recover(last, ReplayLaws.Recoveries(front, w).(up := true)).w
  {
    assert (front + [last])[..|front + [last]| - 1] == front;
  }

  lemma {:induction false} AllRealised(env: Env, w: World, cs': seq<Command>, m': Machine, n: nat) returns (tries: seq<Env>)
    requires Recoverable(w) && Reaches(env, Inverses(Load(w.disk)), w.kernel.rest, cs', m', n)
    ensures AllHonest(env, tries)
    ensures var b := ReplayLaws.Recoveries(tries, w); Recoverable(b) && Inverses(Load(b.disk)) == cs' && b.kernel.rest == m'
    decreases n
  {
    if n == 0 {
      tries := [];
    } else {
      var cs := Inverses(Load(w.disk));
      var cs1, m1 :| Reaches(env, cs, w.kernel.rest, cs1, m1, n - 1) && Leaves(env, cs1, m1, cs', m');
      var front := AllRealised(env, w, cs1, m1, n - 1);
      var so := ReplayLaws.Recoveries(front, w).(up := true);
      var last := Realised(env, so, cs', m');
      tries := front + [last];
      OneMore(env, front, last, w);
    }
  }

  /** The last of the recoveries reports no failure. */
  ghost predicate Succeeds(env: Env, tries: seq<Env>, env': Env, w: World) {
    && AllHonest(env, tries) && HonestAboutAbsence(env') && env'.eff == env.eff
    && var f := Recover(env', ReplayLaws.Recoveries(tries, w).(up := true)); f.ok && f.failed == 0
  }

  /** However the recoveries go, once one succeeds the machine is where the journal
      led in the first place. */
  ghost predicate AlwaysLeadsBack(env: Env, w: World) {
    forall tries, env' :: Succeeds(env, tries, env', w) ==>
      Recover(env', ReplayLaws.Recoveries(tries, w).(up := true)).w.kernel.rest == Unwind(env, Load(w.disk), w.kernel.rest)
  }

  lemma OnceLed(env: Env, tries: seq<Env>, env': Env, w: World)
    requires Recoverable(w) && Succeeds(env, tries, env', w)
    ensures var b := ReplayLaws.Recoveries(tries, w);
            Recover(env', b.(up := true)).w.kernel.rest == RunAll(env, Inverses(Load(b.disk)), b.kernel.rest)
  {
    RecoveriesReach(env, tries, w);
    var b := ReplayLaws.Recoveries(tries, w).(up := true);
    SweepUnwinds(env, env', b);
    UnwindRuns(env, Load(b.disk), b.kernel.rest);
  }

  lemma ObligingRecovers(env: Env, w: World)
    requires env == Obliging(env.eff) && w.up
    ensures var f := Recover(env, w); f.ok && f.failed == 0
  {
    var es := Load(w.disk);
    ObligingPass(env, w, es, false, false);
    ObligingPass(env, Pass(env, w, es, false, false, 0).w, es, false, true);
  }

  /** Settling is the exact condition: for a journal whose inverses do not settle
      there are recoveries that lead elsewhere. */
  lemma LeadsBackExactly(env: Env, w: World)
    requires Recoverable(w)
    ensures AlwaysLeadsBack(env, w) <==> Settles(env, Inverses(Load(w.disk)), w.kernel.rest)
  {
    var cs, m := Inverses(Load(w.disk)), w.kernel.rest;
    UnwindRuns(env, Load(w.disk), m);
    if Settles(env, cs, m) {
      forall tries, env' | Succeeds(env, tries, env', w)
        ensures Recover(env', ReplayLaws.Recoveries(tries, w).(up := true)).w.kernel.rest == RunAll(env, cs, m)
      {
        OnceLed(env, tries, env', w);
        RecoveriesReach(env, tries, w);
      }
    }
    if AlwaysLeadsBack(env, w) {
      forall cs', m', n | Reaches(env, cs, m, cs', m', n) ensures RunAll(env, cs', m') == RunAll(env, cs, m) {
        var tries := AllRealised(env, w, cs', m', n);
        var env' := Obliging(env.eff);
        ObligingRecovers(env', ReplayLaws.Recoveries(tries, w).(up := true));
        OnceLed(env, tries, env', w);
      }
    }
  }

  // --- inverses that commute -------------------------------------------------

  ghost predicate Commute(env: Env, c: Command, d: Command) {
    forall m :: env.eff(c, env.eff(d, m)) == env.eff(d, env.eff(c, m))
  }

  ghost predicate Idempotent(env: Env, c: Command) {
    forall m :: env.eff(c, env.eff(c, m)) == env.eff(c, m)
  }

  ghost predicate Orderless(env: Env, cs: seq<Command>) {
    (forall c :: c in cs ==> Idempotent(env, c)) && (forall c, d :: c in cs && d in cs ==> Commute(env, c, d))
  }

  lemma {:induction false} RunCommutes(env: Env, cs: seq<Command>, c: Command, m: Machine)
    requires forall d :: d in cs ==> Commute(env, c, d)
    ensures RunAll(env, cs, env.eff(c, m)) == env.eff(c, RunAll(env, cs, m))
    decreases |cs|
  {
    if cs != [] {
      var front, d := cs[..|cs| - 1], cs[|cs| - 1];
      assert Commute(env, c, d);
      assert env.eff(c, env.eff(d, m)) == env.eff(d, env.eff(c, m));
      RunCommutes(env, front, c, env.eff(d, m));
    }
  }

  lemma {:induction false} LeavesSome(env: Env, cs: seq<Command>, m: Machine, cs': seq<Command>, m': Machine)
    requires Leaves(env, cs, m, cs', m')
    ensures forall c :: c in cs' ==> c in cs
    decreases |cs|
  {
    if cs != [] {
      var front, c := cs[..|cs| - 1], cs[|cs| - 1];
      if Leaves(env, front, env.eff(c, m), cs', m') {
        LeavesSome(env, front, env.eff(c, m), cs', m');
      } else {
        var f' := cs'[..|cs'| - 1];
        assert cs' == f' + [c];
        if Leaves(env, front, m, f', m') {
          LeavesSome(env, front, m, f', m');
        } else {
          LeavesSome(env, front, env.eff(c, m), f', m');
        }
      }
    }
  }

  /** One recovery makes no difference to where the rest leads. */
  lemma {:induction false} OrderlessLeads(env: Env, cs: seq<Command>, m: Machine, cs': seq<Command>, m': Machine)
    requires Orderless(env, cs) && Leaves(env, cs, m, cs', m')
    ensures RunAll(env, cs', m') == RunAll(env, cs, m)
    decreases |cs|
  {
    if cs != [] {
      var front, c := cs[..|cs| - 1], cs[|cs| - 1];
      assert Orderless(env, front);
      if Leaves(env, front, env.eff(c, m), cs', m') {
        OrderlessLeads(env, front, env.eff(c, m), cs', m');
      } else {
        var f' := cs'[..|cs'| - 1];
        var m1 := if Leaves(env, front, m, f', m') then m else env.eff(c, m);
        OrderlessLeads(env, front, m1, f', m');
        LeavesSome(env, front, m1, f', m');
        KeptLeads(env, front, c, m, m1, f', m');
      }
    }
  }

  lemma KeptLeads(env: Env, front: seq<Command>, c: Command, m: Machine, m1: Machine, f': seq<Command>, m': Machine)
    requires Idempotent(env, c) && (forall d :: d in front || d in f' ==> Commute(env, c, d))
    requires (m1 == m || m1 == env.eff(c, m)) && RunAll(env, f', m') == RunAll(env, front, m1)
    ensures RunAll(env, f', env.eff(c, m')) == RunAll(env, front, env.eff(c, m))
  {
    RunCommutes(env, f', c, m');
    RunCommutes(env, front, c, m1);
    assert env.eff(c, env.eff(c, m)) == env.eff(c, m);
  }

  lemma {:induction false} OrderlessReaches(env: Env, cs: seq<Command>, m: Machine, cs': seq<Command>, m': Machine, n: nat)
    requires Orderless(env, cs) && Reaches(env, cs, m, cs', m', n)
    ensures Orderless(env, cs') && RunAll(env, cs', m') == RunAll(env, cs, m)
    decreases n
  {
    if n > 0 {
      var cs1, m1 :| Reaches(env, cs, m, cs1, m1, n - 1) && Leaves(env, cs1, m1, cs', m');
      OrderlessReaches(env, cs, m, cs1, m1, n - 1);
      OrderlessLeads(env, cs1, m1, cs', m');
      LeavesSome(env, cs1, m1, cs', m');
    }
  }

  /** Inverses that commute with one another and may be repeated settle. */
  lemma OrderlessSettles(env: Env, cs: seq<Command>, m: Machine)
    requires Orderless(env, cs)
    ensures Settles(env, cs, m)
  {
    forall cs', m', n | Reaches(env, cs, m, cs', m', n) ensures RunAll(env, cs', m') == RunAll(env, cs, m) {
      OrderlessReaches(env, cs, m, cs', m', n);
    }
  }

  // --- and where they do not -------------------------------------------------

  /** One command is refused and does nothing; everything else succeeds. */
  ghost predicate RefusesOnly(env: Env, c: Command) {
    && (forall t: nat, m: Machine ::
          var a := env.run(t, c, m); a.Fails? && !a.landed && !IsNotFound(a.stderr, a.err))
    && (forall t: nat, d: Command, m: Machine :: d != c ==> env.run(t, d, m).Ok?)
    && (forall t: nat :: env.replace(t).Replaced?)
  }

  lemma RefusedUndo(env: Env, w: World, e: Entry)
    requires RefusesOnly(env, e.undo) && w.up
    ensures var u := UndoOne(env, w, e, false);
            u.verdict == StillFailing && u.w.up && u.w.kernel.rest == w.kernel.rest && u.w.disk == w.disk
  {
    var a := env.run(w.clock, e.undo, w.kernel.rest);
    assert a.Fails? && !a.landed && !IsNotFound(a.stderr, a.err);
  }

  lemma GrantedUndo(env: Env, w: World, e: Entry, c: Command)
    requires RefusesOnly(env, c) && e.undo != c && w.up && !IsNft(e.undo)
    ensures var u := UndoOne(env, w, e, false);
            u.verdict == Reversed && u.w.up && u.w.kernel.rest == env.eff(e.undo, w.kernel.rest) && u.w.disk == w.disk
  {
    assert env.run(w.clock, e.undo, w.kernel.rest).Ok?;
  }

  lemma {:induction false} NothingHeld(env: Env, w: World, es: seq<Entry>, failed: nat)
    requires forall i :: 0 <= i < |es| ==> !Concerns(es[i], true)
    ensures Pass(env, w, es, false, true, failed) == Passed(w, [], failed)
    decreases |es|
  {
    if es != [] {
      NothingHeld(env, w, es[..|es| - 1], failed);
    }
  }

  lemma RefusedPass(env: Env, w: World, a: Entry, b: Entry) returns (x: World)
    requires Concerns(a, false) && Concerns(b, false) && FailClosed.SidedEntry(a.op, a.undo) && a.undo != b.undo
    requires w.up && RefusesOnly(env, b.undo)
    ensures Pass(env, w, [a, b], false, false, 0) == Passed(x, [UndoResult(b, StillFailing), UndoResult(a, Reversed)], 1)
    ensures x.up && x.kernel.rest == env.eff(a.undo, w.kernel.rest) && x.disk == w.disk
  {
    var u := UndoOne(env, w, b, false);
    RefusedUndo(env, w, b);
    GrantedUndo(env, u.w, a, b.undo);
    x := UndoOne(env, u.w, a, false).w;
    assert [a][..0] == [] && Pass(env, x, [], false, false, 1) == Passed(x, [], 1);
    assert [UndoResult(a, Reversed)] + [] == [UndoResult(a, Reversed)];
    assert Pass(env, u.w, [a], false, false, 1) == Passed(x, [UndoResult(a, Reversed)], 1);
    assert [a, b][..1] == [a];
    assert [UndoResult(b, StillFailing)] + [UndoResult(a, Reversed)] == [UndoResult(b, StillFailing), UndoResult(a, Reversed)];
  }

  lemma OneRemains(a: Entry, b: Entry)
    ensures Remaining([UndoResult(b, StillFailing), UndoResult(a, Reversed)]) == [b]
  {
    var x, y := UndoResult(b, StillFailing), UndoResult(a, Reversed);
    assert [x, y] == [x] + [y] && [y] == [y] + [];
    StillRemains([x, y]);
    StillCons(x, [y]);
    StillCons(y, []);
  }

  lemma OneReloaded(b: Entry)
    requires NeedsUndo(b)
    ensures Load(Rewritten([b])) == [b.(phase := Begin)]
  {
    RewriteThenLoad([b]);
    assert Load(Rewritten([b]))[0] in Load(Rewritten([b]));
  }

  lemma RefusedFirst(env: Env, w: World, a: Entry, b: Entry)
    requires Load(w.disk) == [a, b] && Concerns(a, false) && Concerns(b, false) && FailClosed.SidedEntries([a, b]) && a.undo != b.undo
    requires w.up && w.kernel.fw == None && RefusesOnly(env, b.undo)
    ensures var one := Recover(env, w);
            && one.ok && one.failed == 1 && one.w.up && one.w.kernel.rest == env.eff(a.undo, w.kernel.rest) && one.w.kernel.fw == None
            && Load(one.w.disk) == [b.(phase := Begin)]
  {
    var es := [a, b];
    assert FailClosed.SidedEntry(es[0].op, es[0].undo);
    var x := RefusedPass(env, w, a, b);
    Retries.FirstPassIsPart(env, w, es, 0);
    NothingHeld(env, x, es, 1);
    var rs := [UndoResult(b, StillFailing), UndoResult(a, Reversed)];
    assert rs + [] == rs;
    assert Replay(env, w, es, false) == Passed(x, rs, 1);
    OneRemains(a, b);
    OneReloaded(b);
    assert env.replace(x.clock).Replaced?;
  }

  lemma OneUnwound(env: Env, e: Entry, m: Machine)
    requires Concerns(e, false)
    ensures Unwind(env, [e], m) == env.eff(e.undo, m)
  {
    assert [e] == [] + [e];
    UnwindSnoc(env, [], e, m);
  }

  lemma GrantedLast(env: Env, env': Env, w: World, e: Entry)
    requires w.up && w.kernel.fw == None && env' == Obliging(env.eff)
    requires Load(w.disk) == [e] && Concerns(e, false) && FailClosed.SidedEntry(e.op, e.undo)
    ensures var f := Recover(env', w);
            f.ok && f.failed == 0 && f.w.kernel.rest == env.eff(e.undo, w.kernel.rest)
  {
    ObligingRecovers(env', w);
    SweepUnwinds(env, env', w);
    OneUnwound(env, e, w.kernel.rest);
  }

  /** With two inverses on file, the newer one refused once: the recovery finishes and
      puts it back, and the next runs it after the older one. The machine is led back
      exactly when the two commute on it. */
  lemma OutOfOrder(env: Env, env': Env, w: World, a: Entry, b: Entry)
    requires Load(w.disk) == [a, b] && Concerns(a, false) && Concerns(b, false) && FailClosed.SidedEntries([a, b]) && a.undo != b.undo
    requires w.up && w.kernel.fw == None && RefusesOnly(env, b.undo) && env' == Obliging(env.eff)
    ensures var one := Recover(env, w);
            var f := Recover(env', one.w);
            && one.ok && one.failed == 1 && f.ok && f.failed == 0
            && (f.w.kernel.rest == Origin(env, w) <==>
                  env.eff(b.undo, env.eff(a.undo, w.kernel.rest)) == env.eff(a.undo, env.eff(b.undo, w.kernel.rest)))
  {
    RefusedFirst(env, w, a, b);
    assert FailClosed.SidedEntry([a, b][1].op, [a, b][1].undo);
    GrantedLast(env, env', Recover(env, w).w, b.(phase := Begin));
    assert [a, b] == [a] + [b];
    UnwindSnoc(env, [a], b, w.kernel.rest);
    OneUnwound(env, a, env.eff(b.undo, w.kernel.rest));
  }
}
