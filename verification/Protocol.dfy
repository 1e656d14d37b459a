// Apply, Teardown and Recover, as the functions the properties are proved about.

module Protocol {
  import opened Commands
  import opened Journal
  import opened World

  // --- the skip cache --------------------------------------------------------

  /** For each resource, the identity of the last command that completed on it. */
  function CurrentState(es: seq<Entry>): map<string, string> {
    if es == [] then map[]
    else
      var m, e := CurrentState(es[..|es| - 1]), es[|es| - 1];
      if IsZero(e.do) then m
      else if e.phase.Done? then m[CommandLine(e.do) := RunnerKey(e.do)]
      else if e.phase.Undone? then m - {CommandLine(e.do)}
      else m
  }

  predicate InForce(state: map<string, string>, c: Command) {
    CommandLine(c) in state && state[CommandLine(c)] == RunnerKey(c)
  }

  // --- apply -----------------------------------------------------------------

  /** What happened to one step: skipped as already ours, skipped as present
      before, run and found to change nothing, run, failed, or abandoned because
      the journal could not be written. */
  datatype Status = Ours | Present | Unchanged | Changed | Broken | Unrecorded

  datatype StepResult = StepResult(s: Step, status: Status)

  datatype Stepped = Stepped(w: World, seqno: int, status: Status, ok: bool)

  function ApplyStep(env: Env, w: World, seqno: int, state: map<string, string>, s: Step): Stepped {
    if InForce(state, s.do) then Stepped(w, seqno, Ours, true)
    else if s.queried && w.up && env.satisfied(w.clock) then
      Stepped(w.(clock := w.clock + 1), seqno, Present, true)
    else
      var w1 := if s.queried && w.up then w.(clock := w.clock + 1) else w;
      RunStep(env, w1, seqno + 1, s)
  }

  function RunStep(env: Env, w: World, n: int, s: Step): Stepped {
    var begun := Log(env, w, Record(n, Begin, s.op, s.do, s.undo));
    if !begun.ok then Stepped(begun.w, n, Unrecorded, false)
    else
      var ran := ExecDo(env, begun.w, n, s);
      Conclude(env, ran.w, n, s, ran.a)
  }

  /** The record that follows a step's run, chosen by how the run ended. */
  function Conclude(env: Env, w: World, n: int, s: Step, a: Answer): Stepped {
    match a
    case Ok =>
      var done := Log(env, w, PhaseOnly(n, Done));
      Stepped(done.w, n, Changed, done.ok)
    case Fails(stderr, err, _) =>
      if ReadAsUnchanged(s.do, stderr, err) then
        var pre := Log(env, w, PhaseOnly(n, Preexisting));
        Stepped(pre.w, n, Unchanged, pre.ok)
      else
        Stepped(Log(env, w, PhaseOnly(n, Failed)).w, n, Broken, false)
    case Dies(_) => Stepped(w, n, Broken, false)
  }

  datatype Applied = Applied(w: World, seqno: int, results: seq<StepResult>, ok: bool)

  /** The line a step adds to the report: none where its begin record or its
      retraction could not be written. */
  function ReportOf(s: Step, one: Stepped): seq<StepResult> {
    if one.status.Unrecorded? || (one.status.Unchanged? && !one.ok) then [] else [StepResult(s, one.status)]
  }

  function ApplyFrom(env: Env, w: World, seqno: int, state: map<string, string>, steps: seq<Step>): Applied
    decreases |steps|
  {
    if steps == [] then Applied(w, seqno, [], true)
    else if IsZero(steps[0].do) then ApplyFrom(env, w, seqno, state, steps[1..])
    else
      var one := ApplyStep(env, w, seqno, state, steps[0]);
      if !one.ok then Applied(one.w, one.seqno, ReportOf(steps[0], one), false)
      else
        var rest := ApplyFrom(env, one.w, one.seqno, state, steps[1..]);
        rest.(results := [StepResult(steps[0], one.status)] + rest.results)
  }

  ghost function Apply(env: Env, w: World, seqno: int, steps: seq<Step>): Applied {
    ApplyFrom(env, w, seqno, CurrentState(Load(w.disk)), steps)
  }

  // --- replay ----------------------------------------------------------------

  datatype Verdict = Reversed | Gone | StillFailing | Held

  datatype UndoResult = UndoResult(e: Entry, verdict: Verdict)

  datatype Undid = Undid(w: World, verdict: Verdict)

  function UndoOne(env: Env, w: World, e: Entry, journalled: bool): Undid {
    var ran := ExecUndo(env, w, e);
    var gone := ran.a.Fails? && ReadAsGone(e.undo, ran.a.stderr, ran.a.err);
    if ran.a.Ok? || gone then
      var w1 := if journalled then Log(env, ran.w, PhaseOnly(e.seqno, Undone)).w else ran.w;
      Undid(w1, if gone then Gone else Reversed)
    else
      Undid(ran.w, StillFailing)
  }

  /** Whether a pass of the replay is about this entry. */
  predicate Concerns(e: Entry, nft: bool) {
    NeedsUndo(e) && (e.op == OP_NFT) == nft
  }

  datatype Passed = Passed(w: World, results: seq<UndoResult>, failed: nat)

  /** One pass over the entries, newest first. The firewall's pass holds back
      whatever it reaches once an inverse has failed. */
  function Pass(env: Env, w: World, es: seq<Entry>, journalled: bool, nft: bool, failed: nat): Passed
    decreases |es|
  {
    if es == [] then Passed(w, [], failed)
    else
      var front, e := es[..|es| - 1], es[|es| - 1];
      if !Concerns(e, nft) then Pass(env, w, front, journalled, nft, failed)
      else if nft && failed > 0 then
        var p := Pass(env, w, front, journalled, nft, failed);
        p.(results := [UndoResult(e, Held)] + p.results)
      else
        var u := UndoOne(env, w, e, journalled);
        var p := Pass(env, u.w, front, journalled, nft, failed + if u.verdict.StillFailing? then 1 else 0);
        p.(results := [UndoResult(e, u.verdict)] + p.results)
  }

  function Replay(env: Env, w: World, es: seq<Entry>, journalled: bool): Passed {
    var one := Pass(env, w, es, journalled, false, 0);
    var two := Pass(env, one.w, es, journalled, true, one.failed);
    two.(results := one.results + two.results)
  }

  predicate Outstanding(r: UndoResult) {
    r.verdict.StillFailing? || r.verdict.Held?
  }

  /** What could not be undone, in the order it was found out. */
  function Leftovers(results: seq<UndoResult>): seq<Entry> {
    if results == [] then []
    else Leftovers(results[..|results| - 1]) +
         if Outstanding(results[|results| - 1]) then [results[|results| - 1].e] else []
  }

  function Backwards<T>(s: seq<T>): (r: seq<T>)
    ensures |r| == |s| && forall i :: 0 <= i < |s| ==> r[i] == s[|s| - 1 - i]
  {
    seq(|s|, i requires 0 <= i < |s| => s[|s| - 1 - i])
  }

  /** What replay hands back to be written down again. */
  function Remaining(results: seq<UndoResult>): seq<Entry> {
    Backwards(Leftovers(results))
  }

  datatype Finished = Finished(w: World, results: seq<UndoResult>, failed: nat, ok: bool)

  ghost function Teardown(env: Env, w: World): Finished {
    var p := Replay(env, w, Load(w.disk), true);
    var r := Replace(env, p.w, Remaining(p.results));
    Finished(r.w, p.results, p.failed, r.ok)
  }

  /** A journal with no entry to load is left exactly as it is. */
  ghost function Recover(env: Env, w: World): Finished {
    if Load(w.disk) == [] then Finished(w, [], 0, true)
    else
      var p := Replay(env, w, Load(w.disk), false);
      var r := Replace(env, p.w, Remaining(p.results));
      Finished(r.w, p.results, p.failed, r.ok)
  }
}
