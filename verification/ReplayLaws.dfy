// What replay conserves: every inverse still owed is accounted for once, and
// what is kept on file is exactly what was not reversed.

module ReplayLaws {
  import opened Journal
  import opened World
  import opened Protocol

  /** The entries a pass is about, newest first. */
  function Newest(es: seq<Entry>, nft: bool): seq<Entry> {
    if es == [] then []
    else (if Concerns(es[|es| - 1], nft) then [es[|es| - 1]] else []) + Newest(es[..|es| - 1], nft)
  }

  function Live(es: seq<Entry>): seq<Entry> {
    if es == [] then []
    else Live(es[..|es| - 1]) + if NeedsUndo(es[|es| - 1]) then [es[|es| - 1]] else []
  }

  function Reported(rs: seq<UndoResult>): seq<Entry> {
    if rs == [] then [] else [rs[0].e] + Reported(rs[1..])
  }

  function Count(rs: seq<UndoResult>, v: Verdict): nat {
    if rs == [] then 0 else (if rs[0].verdict == v then 1 else 0) + Count(rs[1..], v)
  }

  lemma {:induction false} CountConcat(a: seq<UndoResult>, b: seq<UndoResult>, v: Verdict)
    ensures Count(a + b, v) == Count(a, v) + Count(b, v)
    ensures Reported(a + b) == Reported(a) + Reported(b)
  {
    if a == [] {
      assert a + b == b;
    } else {
      assert (a + b)[1..] == a[1..] + b;
      CountConcat(a[1..], b, v);
    }
  }

  lemma {:induction false} PassConserves(env: Env, w: World, es: seq<Entry>, journalled: bool, nft: bool, failed: nat)
    ensures var p := Pass(env, w, es, journalled, nft, failed);
            && Reported(p.results) == Newest(es, nft)
            && p.failed == failed + Count(p.results, StillFailing)
            && (Count(p.results, Held) > 0 ==> nft && p.failed > 0)
    decreases |es|
  {
    if es != [] {
      var front, e := es[..|es| - 1], es[|es| - 1];
      var p := Pass(env, w, es, journalled, nft, failed);
      if !Concerns(e, nft) {
        PassConserves(env, w, front, journalled, nft, failed);
      } else if nft && failed > 0 {
        PassConserves(env, w, front, journalled, nft, failed);
        var q := Pass(env, w, front, journalled, nft, failed);
        assert p.results[1..] == q.results;
      } else {
        var u := UndoOne(env, w, e, journalled);
        var f := failed + if u.verdict.StillFailing? then 1 else 0;
        PassConserves(env, u.w, front, journalled, nft, f);
        var q := Pass(env, u.w, front, journalled, nft, f);
        assert p.results[1..] == q.results;
      }
    }
  }

  lemma {:induction false} LeftoversConcat(a: seq<UndoResult>, b: seq<UndoResult>)
    ensures Leftovers(a + b) == Leftovers(a) + Leftovers(b)
  {
    if b == [] {
      assert a + b == a;
    } else {
      assert (a + b)[..|a + b| - 1] == a + b[..|b| - 1];
      LeftoversConcat(a, b[..|b| - 1]);
    }
  }

  lemma {:induction false} LeftoversCount(rs: seq<UndoResult>)
    ensures |Leftovers(rs)| == Count(rs, StillFailing) + Count(rs, Held)
  {
    if rs != [] {
      var front, r := rs[..|rs| - 1], rs[|rs| - 1];
      LeftoversCount(front);
      assert rs == front + [r];
      CountConcat(front, [r], StillFailing);
      CountConcat(front, [r], Held);
      assert Count([r], StillFailing) == if r.verdict.StillFailing? then 1 else 0;
      assert Count([r], Held) == if r.verdict.Held? then 1 else 0;
    }
  }

  lemma Interleaved(a: seq<Entry>, e: Entry, b: seq<Entry>)
    ensures multiset(a + ([e] + b)) == multiset(a + b) + multiset{e}
    ensures multiset(([e] + a) + b) == multiset(a + b) + multiset{e}
  {
  }

  lemma {:induction false} NewestAreTheLive(es: seq<Entry>)
    ensures multiset(Newest(es, false) + Newest(es, true)) == multiset(Live(es))
  {
    if es != [] {
      var front, e := es[..|es| - 1], es[|es| - 1];
      NewestAreTheLive(front);
      var a, b, l := Newest(front, false), Newest(front, true), Live(front);
      Interleaved(a, e, b);
      if Concerns(e, false) {
        assert Newest(es, false) == [e] + a && Newest(es, true) == [] + b == b;
        assert Live(es) == l + [e];
      } else if Concerns(e, true) {
        assert Newest(es, false) == [] + a == a && Newest(es, true) == [e] + b;
        assert Live(es) == l + [e];
      } else {
        assert Newest(es, false) == [] + a == a && Newest(es, true) == [] + b == b;
        assert Live(es) == l + [] == l;
      }
    }
  }

  /** Every entry that needs undoing is reported once, the firewall's after all
      the others; the remainder is what failed or was held, and it is empty
      exactly when nothing failed. */
  lemma {:induction false} ReplayConserves(env: Env, w: World, es: seq<Entry>, journalled: bool)
    ensures var p := Replay(env, w, es, journalled);
            && Reported(p.results) == Newest(es, false) + Newest(es, true)
            && multiset(Reported(p.results)) == multiset(Live(es))
            && p.failed == Count(p.results, StillFailing)
            && |Remaining(p.results)| == Count(p.results, StillFailing) + Count(p.results, Held)
            && (Remaining(p.results) == [] <==> p.failed == 0)
  {
    var one := Pass(env, w, es, journalled, false, 0);
    var two := Pass(env, one.w, es, journalled, true, one.failed);
    PassConserves(env, w, es, journalled, false, 0);
    PassConserves(env, one.w, es, journalled, true, one.failed);
    CountConcat(one.results, two.results, StillFailing);
    CountConcat(one.results, two.results, Held);
    NewestAreTheLive(es);
    LeftoversCount(one.results + two.results);
  }

  // --- what the remainder is made of -----------------------------------------

  lemma {:induction false} NewestAt(es: seq<Entry>, nft: bool, i: nat) returns (k: nat)
    requires i < |Newest(es, nft)|
    ensures k < |es| && es[k] == Newest(es, nft)[i] && Concerns(es[k], nft)
  {
    if Concerns(es[|es| - 1], nft) {
      if i == 0 {
        k := |es| - 1;
      } else {
        k := NewestAt(es[..|es| - 1], nft, i - 1);
      }
    } else {
      k := NewestAt(es[..|es| - 1], nft, i);
    }
  }

  lemma {:induction false} NewestDistinct(es: seq<Entry>, nft: bool)
    requires Increasing(es)
    ensures Distinct(Newest(es, nft))
  {
    if es != [] {
      var front, e := es[..|es| - 1], es[|es| - 1];
      NewestDistinct(front, nft);
      forall i | 0 <= i < |Newest(front, nft)| ensures Newest(front, nft)[i].seqno < e.seqno {
        var k := NewestAt(front, nft, i);
        assert es[k].seqno < es[|es| - 1].seqno;
      }
    }
  }

  lemma BothDistinct(es: seq<Entry>)
    requires Increasing(es)
    ensures Distinct(Newest(es, false) + Newest(es, true))
  {
    NewestDistinct(es, false);
    NewestDistinct(es, true);
    forall i, j | 0 <= i < |Newest(es, false)| && 0 <= j < |Newest(es, true)|
      ensures Newest(es, false)[i].seqno != Newest(es, true)[j].seqno
    {
      var a := NewestAt(es, false, i);
      var b := NewestAt(es, true, j);
      assert a != b;
    }
  }

  lemma {:induction false} LeftoversAt(rs: seq<UndoResult>, i: nat) returns (k: nat)
    requires i < |Leftovers(rs)|
    ensures k < |rs| && Outstanding(rs[k]) && rs[k].e == Leftovers(rs)[i]
  {
    var front := rs[..|rs| - 1];
    if i < |Leftovers(front)| {
      k := LeftoversAt(front, i);
    } else {
      k := |rs| - 1;
    }
  }

  lemma {:induction false} LeftoversHas(rs: seq<UndoResult>, k: nat)
    requires k < |rs| && Outstanding(rs[k])
    ensures rs[k].e in Leftovers(rs)
  {
    if k < |rs| - 1 {
      LeftoversHas(rs[..|rs| - 1], k);
    }
  }

  lemma {:induction false} ReportedAt(rs: seq<UndoResult>)
    ensures |Reported(rs)| == |rs| && forall k :: 0 <= k < |rs| ==> Reported(rs)[k] == rs[k].e
  {
    if rs != [] {
      ReportedAt(rs[1..]);
    }
  }

  lemma {:induction false} LeftoversDistinct(rs: seq<UndoResult>)
    requires forall i, j :: 0 <= i < j < |rs| ==> rs[i].e.seqno != rs[j].e.seqno
    ensures Distinct(Leftovers(rs))
  {
    if rs != [] {
      var front := rs[..|rs| - 1];
      LeftoversDistinct(front);
      forall i | 0 <= i < |Leftovers(front)| ensures Leftovers(front)[i].seqno != rs[|rs| - 1].e.seqno {
        var k := LeftoversAt(front, i);
        assert rs[k].e.seqno != rs[|rs| - 1].e.seqno;
      }
    }
  }

  lemma ReportedOnce(rs: seq<UndoResult>, es: seq<Entry>)
    requires Increasing(es) && Reported(rs) == Newest(es, false) + Newest(es, true)
    ensures forall i, j :: 0 <= i < j < |rs| ==> rs[i].e.seqno != rs[j].e.seqno
  {
    ReportedAt(rs);
    BothDistinct(es);
    var all := Reported(rs);
    forall i, j | 0 <= i < j < |rs| ensures rs[i].e.seqno != rs[j].e.seqno {
      assert all[i].seqno != all[j].seqno;
    }
  }

  lemma {:induction false} ReportedLive(rs: seq<UndoResult>, es: seq<Entry>, k: nat)
    requires k < |rs| && Reported(rs) == Newest(es, false) + Newest(es, true)
    ensures rs[k].e in es && NeedsUndo(rs[k].e)
  {
    ReportedAt(rs);
    var n := Newest(es, false);
    if k < |n| {
      var x := NewestAt(es, false, k);
    } else {
      var x := NewestAt(es, true, k - |n|);
    }
  }

  lemma LeftoversFacts(rs: seq<UndoResult>, es: seq<Entry>)
    requires Increasing(es) && Reported(rs) == Newest(es, false) + Newest(es, true)
    ensures Distinct(Leftovers(rs))
    ensures forall i :: 0 <= i < |Leftovers(rs)| ==> Leftovers(rs)[i] in es && NeedsUndo(Leftovers(rs)[i])
  {
    ReportedOnce(rs, es);
    LeftoversDistinct(rs);
    var left := Leftovers(rs);
    forall i | 0 <= i < |left| ensures left[i] in es && NeedsUndo(left[i]) {
      var k := LeftoversAt(rs, i);
      ReportedLive(rs, es, k);
    }
  }

  /** The remainder of a replay: entries of the journal that needed undoing, each
      once. */
  lemma RemainingFacts(env: Env, w: World, es: seq<Entry>, journalled: bool)
    requires Increasing(es)
    ensures var rem := Remaining(Replay(env, w, es, journalled).results);
            && Distinct(rem)
            && forall i :: 0 <= i < |rem| ==> rem[i] in es && NeedsUndo(rem[i])
  {
    ReplayConserves(env, w, es, journalled);
    LeftoversFacts(Replay(env, w, es, journalled).results, es);
  }

  // --- across restarts -------------------------------------------------------

  /** What a journal still asks for, whatever phase it has reached. */
  ghost function Asked(d: Disk): set<Entry> {
    set e | e in Load(d) && NeedsUndo(e) :: e.(phase := Begin)
  }

  /** A journal just rewritten asks for exactly the remainder, in sequence order. */
  lemma RewrittenAsks(es: seq<Entry>)
    requires Distinct(es) && forall i :: 0 <= i < |es| ==> NeedsUndo(es[i])
    ensures Increasing(Load(Rewritten(es))) && |Load(Rewritten(es))| == |es|
    ensures forall e :: e in Load(Rewritten(es)) ==> NeedsUndo(e)
    ensures Asked(Rewritten(es)) == set i | 0 <= i < |es| :: es[i].(phase := Begin)
  {
    RewriteThenLoad(es);
    var want := set i | 0 <= i < |es| :: es[i].(phase := Begin);
    forall x | x in want ensures x in Asked(Rewritten(es)) {
      assert x.(phase := Begin) == x;
    }
    forall x | x in Asked(Rewritten(es)) ensures x in want {
      var e :| e in Load(Rewritten(es)) && NeedsUndo(e) && x == e.(phase := Begin);
      var i :| 0 <= i < |es| && e == es[i].(phase := Begin);
    }
  }

  /** However a recovery ends, what the journal asks for afterwards it asked for
      before; and one that finished with nothing failing leaves no journal. */
  lemma RecoverNeverAsksMore(env: Env, w: World)
    ensures Asked(Recover(env, w).w.disk) <= Asked(w.disk)
    ensures var f := Recover(env, w); f.ok && f.failed == 0 && Load(w.disk) != [] ==> f.w.disk.Absent?
  {
    var es := Load(w.disk);
    if es != [] {
      var p := Replay(env, w, es, false);
      LoadMembers(w.disk);
      RemainingFacts(env, w, es, false);
      ReplayConserves(env, w, es, false);
      ReplayLeavesDisk(env, w, es);
      RemainderAsksLess(w.disk, Remaining(p.results));
      ReplaceEnds(env, p.w, Remaining(p.results));
    }
  }

  lemma RemainderAsksLess(d: Disk, rem: seq<Entry>)
    requires Distinct(rem) && forall i :: 0 <= i < |rem| ==> rem[i] in Load(d) && NeedsUndo(rem[i])
    ensures Asked(Rewritten(rem)) <= Asked(d)
  {
    RewrittenAsks(rem);
    forall x | x in Asked(Rewritten(rem)) ensures x in Asked(d) {
      var i :| 0 <= i < |rem| && x == rem[i].(phase := Begin);
      assert rem[i] in Load(d);
    }
  }

  lemma ReplaceEnds(env: Env, w: World, es: seq<Entry>)
    ensures var r := Replace(env, w, es);
            && (r.w.disk == w.disk || r.w.disk == Rewritten(es))
            && (r.ok ==> r.w.disk == Rewritten(es))
  {
  }

  /** Without a journal to write to, a replay leaves the file alone. */
  lemma ReplayLeavesDisk(env: Env, w: World, es: seq<Entry>)
    ensures Replay(env, w, es, false).w.disk == w.disk
  {
    PassLeavesDisk(env, w, es, false, 0);
    var one := Pass(env, w, es, false, false, 0);
    PassLeavesDisk(env, one.w, es, true, one.failed);
  }

  lemma {:induction false} PassLeavesDisk(env: Env, w: World, es: seq<Entry>, nft: bool, failed: nat)
    ensures Pass(env, w, es, false, nft, failed).w.disk == w.disk
    decreases |es|
  {
    if es != [] {
      var front, e := es[..|es| - 1], es[|es| - 1];
      if !Concerns(e, nft) || (nft && failed > 0) {
        PassLeavesDisk(env, w, front, nft, failed);
      } else {
        var u := UndoOne(env, w, e, false);
        PassLeavesDisk(env, u.w, front, nft, failed + if u.verdict.StillFailing? then 1 else 0);
      }
    }
  }

  /** The process restarts, recovers, and is killed or not, again and again. */
  ghost function Recoveries(envs: seq<Env>, w: World): World {
    if envs == [] then w
    else Recover(envs[|envs| - 1], Recoveries(envs[..|envs| - 1], w).(up := true)).w
  }

  /** Across any number of recoveries, finished or cut short, the outstanding
      set never grows. */
  lemma {:induction false} OutstandingNeverGrows(envs: seq<Env>, w: World, n: nat)
    requires n <= |envs|
    ensures Asked(Recoveries(envs, w).disk) <= Asked(Recoveries(envs[..n], w).disk)
  {
    if n == |envs| {
      assert envs[..n] == envs;
    } else {
      var front := envs[..|envs| - 1];
      OutstandingNeverGrows(front, w, n);
      assert front[..n] == envs[..n];
      RecoverNeverAsksMore(envs[|envs| - 1], Recoveries(front, w).(up := true));
    }
  }
}
