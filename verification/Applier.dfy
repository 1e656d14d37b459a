// The applier as the program runs it: loops over steps and entries, a report
// that grows, a remainder that is reversed in place.

module Applier {
  import opened Commands
  import opened Journal
  import opened World
  import Protocol
  import ReplayLaws

  // --- the skip cache --------------------------------------------------------

  method CurrentState(entries: seq<Entry>) returns (out: map<string, string>)
    ensures out == Protocol.CurrentState(entries)
  {
    out := map[];
    var i := 0;
    while i < |entries|
      invariant 0 <= i <= |entries|
      invariant out == Protocol.CurrentState(entries[..i])
    {
      assert entries[..i + 1][..i] == entries[..i];
      var e := entries[i];
      if !IsZero(e.do) {
        match e.phase {
          case Done => out := out[CommandLine(e.do) := RunnerKey(e.do)];
          case Undone => out := out - {CommandLine(e.do)};
          case _ =>
        }
      }
      i := i + 1;
    }
    assert entries[..|entries|] == entries;
  }

  // --- replay ----------------------------------------------------------------

  method UndoOne(env: Env, w0: World, e: Entry, journalled: bool)
    returns (w: World, verdict: Protocol.Verdict)
    ensures Protocol.Undid(w, verdict) == Protocol.UndoOne(env, w0, e, journalled)
  {
    var ran := ExecUndo(env, w0, e);
    w := ran.w;
    var failed := ran.a;
    if failed.Fails? && CommandRemoves(e.undo) && IsNotFound(failed.stderr, failed.err) {
      verdict := Protocol.Gone;
    } else if !failed.Ok? {
      return w, Protocol.StillFailing;
    } else {
      verdict := Protocol.Reversed;
    }
    if journalled {
      // A failure to record this is not worth stopping for.
      w := Log(env, w, PhaseOnly(e.seqno, Undone)).w;
    }
  }

  /** A pass that has produced some results and has the rest still to come. */
  ghost predicate Continuing(p: Protocol.Passed, q: Protocol.Passed, results: seq<Protocol.UndoResult>) {
    p.w == q.w && p.failed == q.failed && p.results == results + q.results
  }

  lemma NextEntry(p: Protocol.Passed, env: Env, w: World, es: seq<Entry>, journalled: bool, nft: bool, failed: nat,
                  results: seq<Protocol.UndoResult>)
    requires es != [] && Continuing(p, Protocol.Pass(env, w, es, journalled, nft, failed), results)
    ensures var front, e := es[..|es| - 1], es[|es| - 1];
            if !Protocol.Concerns(e, nft) then
              Continuing(p, Protocol.Pass(env, w, front, journalled, nft, failed), results)
            else if nft && failed > 0 then
              Continuing(p, Protocol.Pass(env, w, front, journalled, nft, failed), results + [Protocol.UndoResult(e, Protocol.Held)])
            else
              var u := Protocol.UndoOne(env, w, e, journalled);
              Continuing(p, Protocol.Pass(env, u.w, front, journalled, nft, failed + if u.verdict.StillFailing? then 1 else 0),
                         results + [Protocol.UndoResult(e, u.verdict)])
  {
  }

  lemma LeftoversSnoc(rs: seq<Protocol.UndoResult>, r: Protocol.UndoResult)
    ensures Protocol.Leftovers(rs + [r]) == Protocol.Leftovers(rs) + if Protocol.Outstanding(r) then [r.e] else []
  {
    assert (rs + [r])[..|rs + [r]| - 1] == rs;
  }

  /** One of the two loops of replay, appending to the report and to the
      remainder. */
  method ReplayPass(env: Env, w0: World, entries: seq<Entry>, journalled: bool, nft: bool, failed0: nat)
    returns (w: World, rep: seq<Protocol.UndoResult>, remaining: seq<Entry>, failed: nat)
    ensures var p := Protocol.Pass(env, w0, entries, journalled, nft, failed0);
            w == p.w && failed == p.failed && rep == p.results &&
            remaining == Protocol.Leftovers(p.results)
  {
    w, rep, remaining, failed := w0, [], [], failed0;
    ghost var p := Protocol.Pass(env, w0, entries, journalled, nft, failed0);
    var i := |entries|;
    ghost var front := entries;
    while i > 0
      invariant 0 <= i <= |entries| && |front| == i && forall k :: 0 <= k < i ==> front[k] == entries[k]
      invariant remaining == Protocol.Leftovers(rep)
      invariant Continuing(p, Protocol.Pass(env, w, front, journalled, nft, failed), rep)
    {
      var e := entries[i - 1];
      NextEntry(p, env, w, front, journalled, nft, failed, rep);
      front := front[..i - 1];
      i := i - 1;
      if !Protocol.Concerns(e, nft) {
        continue;
      }
      var verdict := Protocol.Held;
      if !nft || failed == 0 {
        w, verdict := UndoOne(env, w, e, journalled);
        if verdict.StillFailing? {
          failed := failed + 1;
        }
      }
      LeftoversSnoc(rep, Protocol.UndoResult(e, verdict));
      rep := rep + [Protocol.UndoResult(e, verdict)];
      if verdict.Held? || verdict.StillFailing? {
        remaining := remaining + [e];
      }
    }
    assert p.results == rep;
  }

  /** Everything but the firewall, then the firewall, then the remainder turned
      round so that a later retry runs it newest first again. */
  method Replay(env: Env, w0: World, entries: seq<Entry>, journalled: bool)
    returns (w: World, rep: seq<Protocol.UndoResult>, remaining: seq<Entry>, failed: nat)
    ensures var p := Protocol.Replay(env, w0, entries, journalled);
            w == p.w && rep == p.results && failed == p.failed &&
            remaining == Protocol.Remaining(p.results)
  {
    var first, second;
    w, rep, first, failed := ReplayPass(env, w0, entries, journalled, false, 0);
    var more;
    w, more, second, failed := ReplayPass(env, w, entries, journalled, true, failed);
    ReplayLaws.LeftoversConcat(rep, more);
    rep := rep + more;
    remaining := first + second;

    remaining := TurnRound(remaining);
  }

  /** Reverses a slice by swapping from both ends. */
  method TurnRound(was: seq<Entry>) returns (s: seq<Entry>)
    ensures s == Protocol.Backwards(was)
  {
    s := was;
    var i, k := 0, |s| - 1;
    while i < k
      invariant 0 <= i <= k + 1 <= |was| && i + k == |was| - 1 && |s| == |was|
      invariant forall x :: i <= x <= k ==> s[x] == was[x]
      invariant forall x :: 0 <= x < |was| && !(i <= x <= k) ==> s[x] == was[|was| - 1 - x]
    {
      s := s[i := s[k]][k := s[i]];
      i, k := i + 1, k - 1;
    }
  }

  /** What the privileged service runs before it opens its socket. */
  method Recover(env: Env, w0: World)
    returns (w: World, rep: seq<Protocol.UndoResult>, failed: nat, ok: bool)
    ensures Protocol.Finished(w, rep, failed, ok) == Protocol.Recover(env, w0)
  {
    var entries := LoadJournal(w0.disk);
    if |entries| == 0 {
      return w0, [], 0, true;
    }
    var remaining;
    w, rep, remaining, failed := Replay(env, w0, entries, false);
    var r := Replace(env, w, remaining);
    w, ok := r.w, r.ok;
  }

  /** A run that has produced some results and has the rest still to come. */
  ghost predicate Continues(goal: Protocol.Applied, q: Protocol.Applied, results: seq<Protocol.StepResult>) {
    goal.w == q.w && goal.seqno == q.seqno && goal.ok == q.ok && goal.results == results + q.results
  }

  lemma NextStep(goal: Protocol.Applied, env: Env, w: World, seqno: int, state: map<string, string>,
                 steps: seq<Step>, results: seq<Protocol.StepResult>)
    requires steps != [] && Continues(goal, Protocol.ApplyFrom(env, w, seqno, state, steps), results)
    ensures IsZero(steps[0].do) ==>
              Continues(goal, Protocol.ApplyFrom(env, w, seqno, state, steps[1..]), results)
    ensures !IsZero(steps[0].do) ==>
              var one := Protocol.ApplyStep(env, w, seqno, state, steps[0]);
              var more := results + Protocol.ReportOf(steps[0], one);
              if one.ok then Continues(goal, Protocol.ApplyFrom(env, one.w, one.seqno, state, steps[1..]), more)
              else goal == Protocol.Applied(one.w, one.seqno, more, false)
  {
  }

  /** The applier owns the journal: its counter, and the world it writes to. */
  class Applier {
    const env: Env
    var w: World
    var seqno: int

    /** NewApplier opens the journal at the largest number in use. */
    constructor (env: Env, w0: World)
      ensures this.env == env && w == Opened(w0)
      ensures seqno == TopOf(Load(w0.disk))
    {
      var existing := LoadJournal(w0.disk);
      var next := 0;
      var i := 0;
      while i < |existing|
        invariant 0 <= i <= |existing|
        invariant next == TopOf(existing[..i])
      {
        assert existing[..i + 1][..i] == existing[..i];
        if existing[i].seqno > next {
          next := existing[i].seqno;
        }
        i := i + 1;
      }
      assert existing[..|existing|] == existing;
      this.env := env;
      w := Opened(w0);
      seqno := next;
    }

    method Run(n: int, s: Step) returns (a: Answer)
      modifies this`w
      ensures Ran(w, a) == ExecDo(env, old(w), n, s)
    {
      var r := ExecDo(env, w, n, s);
      w, a := r.w, r.a;
    }

    /** Appends one record and flushes it. */
    method Write(r: Record) returns (ok: bool)
      modifies this`w
      ensures Logged(w, ok) == Log(env, old(w), r)
    {
      var l := Log(env, w, r);
      w, ok := l.w, l.ok;
    }

    method Begin(s: Step) returns (n: int, ok: bool)
      modifies this
      ensures n == seqno == old(seqno) + 1
      ensures Logged(w, ok) == Log(env, old(w), Record(n, Phase.Begin, s.op, s.do, s.undo))
    {
      seqno := seqno + 1;
      n := seqno;
      ok := Write(Record(n, Phase.Begin, s.op, s.do, s.undo));
    }

    /** The body of the loop in Apply, from the journal write on. */
    method RunStep(s: Step) returns (status: Protocol.Status, ok: bool, reported: bool)
      modifies this
      ensures Protocol.Stepped(w, seqno, status, ok) ==
              Protocol.RunStep(env, old(w), old(seqno) + 1, s)
      ensures reported <==> Protocol.ReportOf(s, Protocol.Stepped(w, seqno, status, ok)) != []
    {
      var n, begun := Begin(s);
      if !begun {
        return Protocol.Unrecorded, false, false;
      }
      var a := Run(n, s);
      match a {
        case Ok =>
          ok := Write(PhaseOnly(n, Done));
          return Protocol.Changed, ok, true;
        case Fails(stderr, err, _) =>
          if CommandRemoves(s.do) && IsNotFound(stderr, err) {
            ok := Write(PhaseOnly(n, Preexisting));
            return Protocol.Unchanged, ok, ok;
          }
          if IsAlreadyExists(stderr, err) {
            ok := Write(PhaseOnly(n, Preexisting));
            return Protocol.Unchanged, ok, ok;
          }
          ok := Write(PhaseOnly(n, Failed));
          return Protocol.Broken, false, true;
        case Dies(_) =>
          return Protocol.Broken, false, true;
      }
    }

    /** The body of the loop in Apply. */
    method ApplyStep(state: map<string, string>, s: Step) returns (status: Protocol.Status, ok: bool, reported: bool)
      modifies this
      ensures Protocol.Stepped(w, seqno, status, ok) ==
              Protocol.ApplyStep(env, old(w), old(seqno), state, s)
      ensures reported <==> Protocol.ReportOf(s, Protocol.Stepped(w, seqno, status, ok)) != []
    {
      if Protocol.InForce(state, s.do) {
        return Protocol.Ours, true, true;
      }
      if s.queried && w.up {
        var present := env.satisfied(w.clock);
        w := w.(clock := w.clock + 1);
        if present {
          return Protocol.Present, true, true;
        }
      }
      status, ok, reported := RunStep(s);
    }

    /** Runs the steps in order and stops at the first failure. */
    method Apply(steps: seq<Step>) returns (results: seq<Protocol.StepResult>, ok: bool)
      modifies this
      ensures Protocol.Applied(w, seqno, results, ok) == Protocol.Apply(env, old(w), old(seqno), steps)
    {
      var entries := LoadJournal(w.disk);
      var state := CurrentState(entries);
      results, ok := [], true;
      ghost var goal := Protocol.ApplyFrom(env, w, seqno, state, steps);
      var i := 0;
      while i < |steps|
        invariant 0 <= i <= |steps|
        invariant Continues(goal, Protocol.ApplyFrom(env, w, seqno, state, steps[i..]), results)
      {
        var s := steps[i];
        ghost var rest := steps[i..];
        assert rest[0] == s && rest[1..] == steps[i + 1..];
        NextStep(goal, env, w, seqno, state, rest, results);
        i := i + 1;
        if IsZero(s.do) {
          continue;
        }
        var status, fine, reported := ApplyStep(state, s);
        if reported {
          results := results + [Protocol.StepResult(s, status)];
        }
        if !fine {
          return results, false;
        }
      }
    }

    /** Replays every inverse and keeps on file what could not be undone. */
    method Teardown() returns (rep: seq<Protocol.UndoResult>, failed: nat, ok: bool)
      modifies this`w
      ensures Protocol.Finished(w, rep, failed, ok) == Protocol.Teardown(env, old(w))
    {
      var entries := LoadJournal(w.disk);
      var after, remaining;
      after, rep, remaining, failed := Replay(env, w, entries, true);
      var r := Replace(env, after, remaining);
      w, ok := r.w, r.ok;
    }
  }
}
