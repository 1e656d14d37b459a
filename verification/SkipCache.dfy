// The skip cache against the machine: a step is skipped because the journal says
// that this very command is the last one that completed on its resource.

module SkipCache {
  import opened Commands
  import opened Journal
  import opened World
  import opened Protocol
  import opened Coverage
  import Endings
  import Restoration
  import ReplayLaws
  import FailClosed

  const NFT_LINE := CommandLine(NftLoad(""))

  lemma OneFirewallLine(text: string)
    ensures CommandLine(NftLoad(text)) == NFT_LINE
  {
  }

  lemma SameKeySameText(a: string, b: string)
    ensures RunnerKey(NftLoad(a)) == RunnerKey(NftLoad(b)) <==> a == b
  {
    KeyIdentity(NftLoad(a), NftLoad(b));
  }

  /** Loading, cutting and restoring differ in the ruleset and in nothing else. */
  function LoadStep(text: string): Step {
    Step(OP_NFT, NftLoad(text), NFT_UNLOAD, false)
  }

  /** If the journal names a ruleset as the one in force, it is. */
  ghost predicate CacheAgrees(w: World) {
    var state := CurrentState(Load(w.disk));
    NFT_LINE in state ==> w.kernel.fw.Some? && state[NFT_LINE] == RunnerKey(NftLoad(w.kernel.fw.value))
  }

  lemma StateSnoc(es: seq<Entry>, e: Entry)
    ensures CurrentState(es + [e]) ==
              if IsZero(e.do) then CurrentState(es)
              else if e.phase.Done? then CurrentState(es)[CommandLine(e.do) := RunnerKey(e.do)]
              else if e.phase.Undone? then CurrentState(es) - {CommandLine(e.do)}
              else CurrentState(es)
  {
    assert (es + [e])[..|es + [e]| - 1] == es;
  }

  lemma ApplyOne(env: Env, w: World, n: int, state: map<string, string>, s: Step)
    requires !IsZero(s.do)
    ensures var one := ApplyStep(env, w, n, state, s);
            ApplyFrom(env, w, n, state, [s]) == Applied(one.w, one.seqno, ReportOf(s, one), one.ok)
  {
    var one := ApplyStep(env, w, n, state, s);
    assert [s][0] == s && [s][1..] == [];
    assert ApplyFrom(env, one.w, one.seqno, state, []) == Applied(one.w, one.seqno, [], true);
    assert [StepResult(s, one.status)] + [] == [StepResult(s, one.status)];
  }

  // --- one call --------------------------------------------------------------

  /** A load that landed and whose success is not on file: the outcome's record did not
      reach it, or the process died first. */
  predicate Unrecorded(env: Env, w: World, s: Step) {
    Endings.Landed(env, w, s) && !Endings.Reached(env, w, s).Done?
  }

  /** What a load leaves in the journal's cache and in force, however it ends. */
  ghost predicate LoadLeft(env: Env, w: World, n: int, text: string, r: Stepped) {
    var s := LoadStep(text);
    && Numbered(r.w.disk, n)
    && (r.ok ==> Ended(r.w.disk) && !Unrecorded(env, w, s))
    && CurrentState(Load(r.w.disk)) ==
         (if Endings.Reached(env, w, s).Done? then CurrentState(Load(w.disk))[NFT_LINE := RunnerKey(NftLoad(text))]
          else CurrentState(Load(w.disk)))
    && r.w.kernel.fw == (if Endings.Landed(env, w, s) then Some(text) else w.kernel.fw)
    && (Endings.Reached(env, w, s).Done? ==> Endings.Landed(env, w, s))
  }

  lemma LoadRuns(env: Env, w: World, n: int, text: string)
    requires w.up && Ended(w.disk) && Numbered(w.disk, n - 1) && text != TEARDOWN
    ensures LoadLeft(env, w, n, text, RunStep(env, w, n, LoadStep(text)))
  {
    var s := LoadStep(text);
    Endings.StepDid(env, w, n, s);
    Endings.StepWrote(env, w, n, s);
    OkIsRecorded(env, w, n, s);
    LoadFiled(env, w, n, text, RunStep(env, w, n, s));
  }

  lemma LoadFiled(env: Env, w: World, n: int, text: string, r: Stepped)
    requires Ended(w.disk) && Numbered(w.disk, n - 1) && Endings.Wrote(env, w, n, LoadStep(text), r)
    requires r.ok ==> !Unrecorded(env, w, LoadStep(text))
    requires r.w.kernel.fw == if Endings.Landed(env, w, LoadStep(text)) then Some(text) else w.kernel.fw
    ensures LoadLeft(env, w, n, text, r)
  {
    Endings.WroteFiles(env, w, n, LoadStep(text), r);
    StateAfter(env, w, n, text, r);
  }

  lemma StateAfter(env: Env, w: World, n: int, text: string, r: Stepped)
    requires Endings.FilesEntry(env, w, n, LoadStep(text), r)
    ensures CurrentState(Load(r.w.disk)) ==
            if Endings.Reached(env, w, LoadStep(text)).Done? then CurrentState(Load(w.disk))[NFT_LINE := RunnerKey(NftLoad(text))]
            else CurrentState(Load(w.disk))
  {
    var s, es := LoadStep(text), Load(w.disk);
    OneFirewallLine(text);
    StateSnoc(es, Entry(n, s.op, s.do, s.undo, Endings.Reached(env, w, s)));
    assert es + [] == es;
  }

  lemma OkIsRecorded(env: Env, w: World, n: int, s: Step)
    requires w.up
    ensures RunStep(env, w, n, s).ok ==> !Unrecorded(env, w, s)
  {
  }

  /** The journal goes on naming another ruleset than the one now in force. */
  ghost predicate Stales(env: Env, w: World, text: string) {
    var state := CurrentState(Load(w.disk));
    && !InForce(state, NftLoad(text)) && Unrecorded(env, w, LoadStep(text))
    && NFT_LINE in state && state[NFT_LINE] != RunnerKey(NftLoad(text))
  }

  /** A call that succeeds has in force what it asked for exactly when the journal or
      the machine said so before, or the load was not refused as "already there". */
  ghost predicate AsAsked(env: Env, w: World, text: string, r: Applied) {
    r.ok ==>
      (r.w.kernel.fw == Some(text) <==> w.kernel.fw == Some(text) || !FailClosed.Refused(env, w, LoadStep(text)))
  }

  /** One call for one ruleset, with any append failing and the process dying anywhere:
      a call that succeeds leaves in force what it asked for; a call the journal
      already answers runs nothing; and on a file that ends in a newline the cache
      still agrees with the machine exactly when the call did not make it stale, as
      none that succeeds does. */
  lemma {:induction false} OneCall(env: Env, w: World, n: int, text: string)
    requires w.up && text != TEARDOWN && CacheAgrees(w)
    ensures var r := Apply(env, w, n, [LoadStep(text)]);
            && AsAsked(env, w, text, r)
            && (InForce(CurrentState(Load(w.disk)), NftLoad(text)) ==> r.ok && r.w == w && w.kernel.fw == Some(text))
            && (Ended(w.disk) && Numbered(w.disk, n) ==>
                  && Numbered(r.w.disk, r.seqno)
                  && (r.ok ==> r.w.up && Ended(r.w.disk) && CacheAgrees(r.w))
                  && (CacheAgrees(r.w) <==> !Stales(env, w, text)))
  {
    var s := LoadStep(text);
    var state := CurrentState(Load(w.disk));
    OneFirewallLine(text);
    ApplyOne(env, w, n, state, s);
    var one := ApplyStep(env, w, n, state, s);
    if InForce(state, s.do) {
      SameKeySameText(text, w.kernel.fw.value);
    } else {
      assert one == RunStep(env, w, n + 1, s);
      RunStepKeepsSeq(env, w, n + 1, s);
      FailClosed.LoadedIff(env, w, n + 1, s);
      if Ended(w.disk) && Numbered(w.disk, n) {
        LoadRuns(env, w, n + 1, text);
      }
    }
  }

  lemma RunStepKeepsSeq(env: Env, w: World, n: int, s: Step)
    ensures var r := RunStep(env, w, n, s); r.seqno == n && (r.ok ==> r.w.up)
  {
  }

  // --- any sequence of calls -------------------------------------------------

  /** The rulesets asked for one after another, whatever became of each call. */
  ghost function Calls(env: Env, w: World, n: int, texts: seq<string>): Applied {
    if texts == [] then Applied(w, n, [], true)
    else
      var so := Calls(env, w, n, texts[..|texts| - 1]);
      Apply(env, so.w, so.seqno, [LoadStep(texts[|texts| - 1])])
  }

  /** No call made the cache stale, and each left a file that ends in a newline. */
  ghost predicate InStep(env: Env, w: World, n: int, texts: seq<string>) {
    texts != [] ==>
      var front, so := texts[..|texts| - 1], Calls(env, w, n, texts[..|texts| - 1]);
      && InStep(env, w, n, front)
      && (so.w.up ==> Ended(Calls(env, w, n, texts).w.disk) && !Stales(env, so.w, texts[|texts| - 1]))
  }

  lemma {:induction false} CallsAgree(env: Env, w: World, n: int, texts: seq<string>)
    requires w.up && Ended(w.disk) && Numbered(w.disk, n) && CacheAgrees(w) && InStep(env, w, n, texts)
    requires forall i :: 0 <= i < |texts| ==> texts[i] != TEARDOWN
    ensures var r := Calls(env, w, n, texts);
            r.w.up ==> Ended(r.w.disk) && Numbered(r.w.disk, r.seqno) && CacheAgrees(r.w)
  {
    if texts != [] {
      var front, t := texts[..|texts| - 1], texts[|texts| - 1];
      CallsAgree(env, w, n, front);
      var so := Calls(env, w, n, front);
      if so.w.up {
        OneCall(env, so.w, so.seqno, t);
      } else {
        DeadApply(env, so.w, so.seqno, t);
      }
    }
  }

  lemma DeadApply(env: Env, w: World, n: int, text: string)
    requires !w.up
    ensures !Apply(env, w, n, [LoadStep(text)]).w.up
  {
    ApplyOne(env, w, n, CurrentState(Load(w.disk)), LoadStep(text));
  }

  /** Over any sequence of loads, cuts and restores, one call each: after every
      call that succeeds, the ruleset in force is the one that call asked for, unless
      another was in force and the load was refused as "already there"; and a call
      that was already answered changed nothing to get there. Any append may fail on
      the way, as long as no earlier call made the cache stale or left the file
      without its newline. */
  lemma {:induction false} CallsKeepTheirWord(env: Env, w: World, n: int, texts: seq<string>)
    requires w.up && Ended(w.disk) && Numbered(w.disk, n) && CacheAgrees(w)
    requires texts != [] && forall i :: 0 <= i < |texts| ==> texts[i] != TEARDOWN
    requires InStep(env, w, n, texts[..|texts| - 1])
    ensures var text := texts[|texts| - 1];
            var so := Calls(env, w, n, texts[..|texts| - 1]);
            var r := Calls(env, w, n, texts);
            so.w.up ==>
              && AsAsked(env, so.w, text, r)
              && (InForce(CurrentState(Load(so.w.disk)), NftLoad(text)) ==> r.ok && r.w == so.w)
  {
    CallsAgree(env, w, n, texts[..|texts| - 1]);
    var so := Calls(env, w, n, texts[..|texts| - 1]);
    if so.w.up {
      OneCall(env, so.w, so.seqno, texts[|texts| - 1]);
    }
  }

  // --- several rulesets in one call ------------------------------------------

  function LoadSteps(texts: seq<string>): seq<Step> {
    if texts == [] then [] else [LoadStep(texts[0])] + LoadSteps(texts[1..])
  }

  /** The ruleset in force after a call that skips what was cached before it. */
  function LastOther(fw: Option<string>, cached: string, texts: seq<string>): Option<string>
    decreases |texts|
  {
    if texts == [] then fw
    else LastOther(if texts[0] == cached then fw else Some(texts[0]), cached, texts[1..])
  }

  lemma {:induction false} LastOtherMeans(fw: Option<string>, cached: string, texts: seq<string>)
    requires texts != []
    ensures var last := texts[|texts| - 1];
            LastOther(fw, cached, texts) ==
              if last != cached then Some(last)
              else if |texts| == 1 then fw
              else LastOther(fw, cached, texts[..|texts| - 1])
    decreases |texts|
  {
    if |texts| > 1 {
      var fw' := if texts[0] == cached then fw else Some(texts[0]);
      LastOtherMeans(fw', cached, texts[1..]);
      assert texts[1..][..|texts| - 2] == texts[..|texts| - 1][1..];
    }
  }

  lemma {:induction false} LastOtherIsCached(cached: string, texts: seq<string>)
    ensures LastOther(Some(cached), cached, texts) == Some(cached) <==>
              forall i :: 0 <= i < |texts| ==> texts[i] == cached
  {
    if texts != [] {
      var front, last := texts[..|texts| - 1], texts[|texts| - 1];
      LastOtherMeans(Some(cached), cached, texts);
      LastOtherIsCached(cached, front);
      if last == cached && forall i :: 0 <= i < |front| ==> texts[i] == cached {
        assert forall i :: 0 <= i < |front| ==> front[i] == cached;
      }
    }
  }

  /** No load is reported as having found its ruleset there. */
  predicate NoneRefused(results: seq<StepResult>) {
    forall i :: 0 <= i < |results| ==> !results[i].status.Unchanged?
  }

  lemma NoneRefusedCons(r: StepResult, rest: seq<StepResult>)
    ensures NoneRefused([r] + rest) <==> !r.status.Unchanged? && NoneRefused(rest)
  {
    assert ([r] + rest)[0] == r;
    assert forall i :: 0 <= i < |rest| ==> ([r] + rest)[i + 1] == rest[i];
  }

  lemma {:induction false} CallWithCache(env: Env, w: World, n: int, cached: string, state: map<string, string>, texts: seq<string>)
    requires NFT_LINE in state && state[NFT_LINE] == RunnerKey(NftLoad(cached))
    requires forall i :: 0 <= i < |texts| ==> texts[i] != TEARDOWN
    requires Sided(w)
    ensures var r := ApplyFrom(env, w, n, state, LoadSteps(texts));
            r.ok && NoneRefused(r.results) ==> r.w.kernel.fw == LastOther(w.kernel.fw, cached, texts)
    decreases |texts|
  {
    if texts != [] {
      var s := LoadStep(texts[0]);
      assert LoadSteps(texts)[0] == s && LoadSteps(texts)[1..] == LoadSteps(texts[1..]);
      var one := ApplyStep(env, w, n, state, s);
      OneFirewallLine(texts[0]);
      SameKeySameText(texts[0], cached);
      if texts[0] != cached {
        assert one == RunStep(env, w, n + 1, s);
        FailClosed.RunStepKeepsFw(env, w, n + 1, s);
      }
      if one.ok {
        CallWithCache(env, one.w, one.seqno, cached, state, texts[1..]);
        var rest := ApplyFrom(env, one.w, one.seqno, state, LoadSteps(texts[1..]));
        NoneRefusedCons(StepResult(s, one.status), rest.results);
      }
    }
  }

  predicate Sided(w: World) {
    FailClosed.Sided(Lines(w.disk))
  }

  /** The cache is read once per call. A call that names several rulesets ends
      with the one it named last exactly when that one was not cached, or when
      it named nothing but the cached one. */
  lemma {:induction false} OneCallSeveralRulesets(env: Env, w: World, n: int, cached: string, texts: seq<string>)
    requires Sided(w) && w.kernel.fw == Some(cached)
    requires var state := CurrentState(Load(w.disk)); NFT_LINE in state && state[NFT_LINE] == RunnerKey(NftLoad(cached))
    requires texts != [] && forall i :: 0 <= i < |texts| ==> texts[i] != TEARDOWN
    ensures var last := texts[|texts| - 1];
            var r := Apply(env, w, n, LoadSteps(texts));
            r.ok && NoneRefused(r.results) ==>
                     (r.w.kernel.fw == Some(last) <==>
                        last != cached || forall i :: 0 <= i < |texts| ==> texts[i] == cached)
  {
    CallWithCache(env, w, n, cached, CurrentState(Load(w.disk)), texts);
    LastOtherMeans(Some(cached), cached, texts);
    LastOtherIsCached(cached, texts);
  }

  /** With everything succeeding, another ruleset and then the cached one: the call is
      reported a success, its last step skipped as ours, and the other is in force. */
  lemma CutAndRestoreInOneCall(env: Env, w: World, n: int, cached: string, other: string)
    requires env == Restoration.Obliging(env.eff) && w.up && other != cached && other != TEARDOWN
    requires var state := CurrentState(Load(w.disk)); NFT_LINE in state && state[NFT_LINE] == RunnerKey(NftLoad(cached))
    ensures var r := Apply(env, w, n, LoadSteps([other, cached]));
            r.ok && NoneRefused(r.results) && r.w.kernel.fw == Some(other)
  {
    var state := CurrentState(Load(w.disk));
    var a, b := LoadStep(other), LoadStep(cached);
    OneFirewallLine(other);
    OneFirewallLine(cached);
    SameKeySameText(other, cached);
    assert [other, cached][1..] == [cached] && [cached][1..] == [];
    assert LoadSteps([cached]) == [b] + [] == [b];
    assert LoadSteps([other, cached]) == [a] + [b];
    var one := ApplyStep(env, w, n, state, a);
    assert one == RunStep(env, w, n + 1, a) && one.ok && one.status == Changed && one.w.kernel.fw == Some(other);
    ApplyOne(env, one.w, one.seqno, state, b);
    assert ([a] + [b])[1..] == [b];
    var rest := ApplyFrom(env, one.w, one.seqno, state, [b]);
    assert rest.ok && rest.results == [StepResult(b, Ours)] && rest.w == one.w;
    NoneRefusedCons(StepResult(a, Changed), rest.results);
  }

  // --- a result that was never written down ----------------------------------

  /** A load that lands, however its two appends end and whether or not the process
      survives: the cache is right afterwards exactly when the success is on file, or
      the cache named no ruleset, or it named this one. Otherwise the next call for
      the old ruleset is skipped while the new one is loaded. */
  lemma UnrecordedLoad(env: Env, w: World, n: int, text: string)
    requires w.up && Ended(w.disk) && Numbered(w.disk, n - 1) && text != TEARDOWN && CacheAgrees(w)
    requires Endings.Landed(env, w, LoadStep(text))
    ensures var r := RunStep(env, w, n, LoadStep(text));
            var state := CurrentState(Load(w.disk));
            && r.w.kernel.fw == Some(text)
            && (CacheAgrees(r.w) <==>
                  || (Endings.AnswerOf(env, w, LoadStep(text)).Ok? && Endings.Legible(Endings.LeftOf(env.write(w.clock + 2))))
                  || NFT_LINE !in state || state[NFT_LINE] == RunnerKey(NftLoad(text)))
  {
    LoadRuns(env, w, n, text);
  }

  // --- the same plan twice ---------------------------------------------------

  predicate DistinctLines(results: seq<StepResult>) {
    forall i, j :: 0 <= i < j < |results| ==> CommandLine(results[i].s.do) != CommandLine(results[j].s.do)
  }

  /** What a report adds to the cache. */
  function Overlay(state: map<string, string>, results: seq<StepResult>): map<string, string>
    decreases |results|
  {
    if results == [] then state
    else
      var s := results[0].s;
      Overlay(if results[0].status.Changed? then state[CommandLine(s.do) := RunnerKey(s.do)] else state, results[1..])
  }

  lemma {:induction false} CacheAfter(es: seq<Entry>, n: int, results: seq<StepResult>)
    requires forall i :: 0 <= i < |results| ==> !IsZero(results[i].s.do)
    ensures CurrentState(es + Added(n, results)) == Overlay(CurrentState(es), results)
    decreases |results|
  {
    if results == [] {
      assert es + [] == es;
    } else {
      var s, rest := results[0].s, results[1..];
      var phase := PhaseOf(results[0].status);
      var e := Entry(n + 1, s.op, s.do, s.undo, phase);
      if results[0].status.Changed? || results[0].status.Unchanged? || results[0].status.Broken? {
        StateSnoc(es, e);
        assert es + Added(n, results) == (es + [e]) + Added(n + 1, rest);
        CacheAfter(es + [e], n + 1, rest);
      } else {
        CacheAfter(es, n, rest);
      }
    }
  }

  lemma {:induction false} OverlayElsewhere(state: map<string, string>, results: seq<StepResult>, line: string)
    requires forall i :: 0 <= i < |results| ==> CommandLine(results[i].s.do) != line
    ensures line in Overlay(state, results) <==> line in state
    ensures line in state ==> Overlay(state, results)[line] == state[line]
    decreases |results|
  {
    if results != [] {
      var s := results[0].s;
      var state' := if results[0].status.Changed? then state[CommandLine(s.do) := RunnerKey(s.do)] else state;
      OverlayElsewhere(state', results[1..], line);
    }
  }

  lemma {:induction false} OverlayAt(state: map<string, string>, results: seq<StepResult>, i: nat)
    requires i < |results| && DistinctLines(results)
    ensures InForce(Overlay(state, results), results[i].s.do) <==>
              results[i].status.Changed? || InForce(state, results[i].s.do)
    decreases |results|
  {
    var s := results[0].s;
    var state' := if results[0].status.Changed? then state[CommandLine(s.do) := RunnerKey(s.do)] else state;
    if i == 0 {
      forall k | 0 <= k < |results[1..]| ensures CommandLine(results[1..][k].s.do) != CommandLine(s.do) {
        assert CommandLine(results[0].s.do) != CommandLine(results[k + 1].s.do);
      }
      OverlayElsewhere(state', results[1..], CommandLine(s.do));
    } else {
      assert CommandLine(results[0].s.do) != CommandLine(results[i].s.do);
      OverlayAt(state', results[1..], i - 1);
    }
  }

  predicate FoundThere(r: StepResult) {
    r.status.Unchanged? || r.status.Present?
  }

  /** What the first call found already there is still found there, on the machine it
      left: by the step's query, or by how its command fails. */
  ghost predicate StillThere(env: Env, w: World, s: Step) {
    || (s.queried && forall t: nat :: t >= w.clock ==> env.satisfied(t))
    || Fruitless(env, w, s)
  }

  /** From now on, on this machine, the command fails as one that changes nothing. */
  ghost predicate Fruitless(env: Env, w: World, s: Step) {
    forall t: nat :: t >= w.clock ==>
      var a := env.run(t, s.do, w.kernel.rest);
      a.Fails? && ReadAsUnchanged(s.do, a.stderr, a.err)
  }

  function NonZero(steps: seq<Step>): seq<Step> {
    if steps == [] then []
    else if IsZero(steps[0].do) then NonZero(steps[1..])
    else [steps[0]] + NonZero(steps[1..])
  }

  /** Steps are skipped as ours exactly when the cache says so. */
  predicate Reports(state: map<string, string>, results: seq<StepResult>) {
    forall i :: 0 <= i < |results| ==>
      && !IsZero(results[i].s.do)
      && (results[i].status.Ours? <==> InForce(state, results[i].s.do))
  }

  predicate Lists(results: seq<StepResult>, steps: seq<Step>) {
    |results| == |steps| && forall i :: 0 <= i < |results| ==> results[i].s == steps[i]
  }

  /** No step of the report failed. */
  predicate AllFine(results: seq<StepResult>) {
    forall i :: 0 <= i < |results| ==> !results[i].status.Broken? && !results[i].status.Unrecorded?
  }

  lemma ReportsCons(state: map<string, string>, r: StepResult, rest: seq<StepResult>)
    requires Reports(state, rest) && !IsZero(r.s.do) && (r.status.Ours? <==> InForce(state, r.s.do))
    ensures Reports(state, [r] + rest)
  {
  }

  lemma ListsCons(r: StepResult, rest: seq<StepResult>, steps: seq<Step>)
    requires Lists(rest, steps) && AllFine(rest) && !r.status.Broken? && !r.status.Unrecorded?
    ensures Lists([r] + rest, [r.s] + steps) && AllFine([r] + rest)
  {
  }

  lemma StepReport(env: Env, w: World, n: int, state: map<string, string>, s: Step)
    ensures var one := ApplyStep(env, w, n, state, s);
            && (one.status.Ours? <==> InForce(state, s.do))
            && (one.ok ==> !one.status.Broken? && !one.status.Unrecorded?)
  {
  }

  /** A report lists the steps that do something, in order and each fine, if the call
      succeeds. */
  lemma {:induction false} ReportListsSteps(env: Env, w: World, n: int, state: map<string, string>, steps: seq<Step>)
    ensures var r := ApplyFrom(env, w, n, state, steps);
            Reports(state, r.results) && (r.ok ==> Lists(r.results, NonZero(steps)) && AllFine(r.results))
    decreases |steps|
  {
    if steps != [] {
      if IsZero(steps[0].do) {
        ReportListsSteps(env, w, n, state, steps[1..]);
      } else {
        StepReport(env, w, n, state, steps[0]);
        var one := ApplyStep(env, w, n, state, steps[0]);
        if one.ok {
          ReportListsSteps(env, one.w, one.seqno, state, steps[1..]);
          var line, rest := StepResult(steps[0], one.status), ApplyFrom(env, one.w, one.seqno, state, steps[1..]);
          assert ApplyFrom(env, w, n, state, steps) == rest.(results := [line] + rest.results);
          ReportsCons(state, line, rest.results);
          if rest.ok {
            ListsCons(line, rest.results, NonZero(steps[1..]));
          }
        } else {
          assert ApplyFrom(env, w, n, state, steps).results == ReportOf(steps[0], one);
        }
      }
    }
  }

  /** The second time round: every step is ours, or is still found there. */
  ghost predicate Answered(env: Env, w: World, state: map<string, string>, s: Step) {
    InForce(state, s.do) || StillThere(env, w, s)
  }

  /** Nothing in the machine moved and nothing became or ceased to be owed. */
  ghost predicate Still(w: World, w': World) {
    w'.clock >= w.clock && w'.kernel == w.kernel && ReplayLaws.Live(Load(w'.disk)) == ReplayLaws.Live(Load(w.disk))
  }

  lemma StepAgain(env: Env, w: World, n: int, state: map<string, string>, s: Step)
    requires w.up && Ended(w.disk) && Numbered(w.disk, n) && !IsZero(s.do) && Answered(env, w, state, s)
    ensures var r := ApplyStep(env, w, n, state, s);
            && (r.ok ==> r.w.up && Ended(r.w.disk) && Numbered(r.w.disk, r.seqno) && Still(w, r.w))
            && (AllWritten(env) ==> r.ok)
  {
    var r := ApplyStep(env, w, n, state, s);
    var w1 := if s.queried then w.(clock := w.clock + 1) else w;
    if !InForce(state, s.do) && !(s.queried && env.satisfied(w.clock)) {
      assert r == RunStep(env, w1, n + 1, s);
      RanInVain(env, w1, n + 1, s);
      if r.ok {
        StepIsExact(env, w1, n + 1, s);
        TwoRecords(w.disk, n + 1, s, Preexisting);
        LiveSnoc(Load(w.disk), Entry(n + 1, s.op, s.do, s.undo, Preexisting));
      }
    }
  }

  /** Run again, the command changes nothing, and that is recorded if it can be. */
  lemma RanInVain(env: Env, w: World, n: int, s: Step)
    requires w.up && Fruitless(env, w, s)
    ensures var r := RunStep(env, w, n, s);
            && (r.ok ==> r.status == Unchanged && r.w.up && r.seqno == n && r.w.clock >= w.clock && r.w.kernel == w.kernel)
            && (AllWritten(env) ==> r.ok)
  {
    var begun := Log(env, w, Record(n, Begin, s.op, s.do, s.undo));
    assert AllWritten(env) ==> env.write(w.clock).Written?;
    if begun.ok {
      var a := env.run(begun.w.clock, s.do, begun.w.kernel.rest);
      assert a.Fails? && ReadAsUnchanged(s.do, a.stderr, a.err);
      var ran := ExecDo(env, begun.w, n, s);
      assert ran.a == a && ran.w.kernel == w.kernel && ran.w.up;
      assert AllWritten(env) ==> env.write(ran.w.clock).Written?;
    }
  }

  lemma LiveSnoc(es: seq<Entry>, e: Entry)
    ensures ReplayLaws.Live(es + [e]) == ReplayLaws.Live(es) + if NeedsUndo(e) then [e] else []
  {
    assert (es + [e])[..|es + [e]| - 1] == es;
  }

  /** Every step that does something is answered. */
  ghost predicate AllAnswered(env: Env, w: World, state: map<string, string>, steps: seq<Step>) {
    forall s :: s in steps && !IsZero(s.do) ==> Answered(env, w, state, s)
  }

  lemma AnsweredOn(env: Env, w: World, w': World, state: map<string, string>, steps: seq<Step>)
    requires steps != [] && AllAnswered(env, w, state, steps) && w'.clock >= w.clock && w'.kernel == w.kernel
    ensures AllAnswered(env, w', state, steps[1..])
  {
    forall s | s in steps[1..] && !IsZero(s.do) ensures Answered(env, w', state, s) {
      assert Answered(env, w, state, s);
    }
  }

  lemma {:induction false} AllAgain(env: Env, w: World, n: int, state: map<string, string>, steps: seq<Step>)
    requires w.up && Ended(w.disk) && Numbered(w.disk, n) && AllAnswered(env, w, state, steps)
    ensures var r := ApplyFrom(env, w, n, state, steps);
            (r.ok ==> r.w.up && Still(w, r.w)) && (AllWritten(env) ==> r.ok)
    decreases |steps|
  {
    if steps != [] {
      if IsZero(steps[0].do) {
        AnsweredOn(env, w, w, state, steps);
        AllAgain(env, w, n, state, steps[1..]);
      } else {
        assert Answered(env, w, state, steps[0]);
        StepAgain(env, w, n, state, steps[0]);
        var one := ApplyStep(env, w, n, state, steps[0]);
        if one.ok {
          AnsweredOn(env, w, one.w, state, steps);
          AllAgain(env, one.w, one.seqno, state, steps[1..]);
        }
      }
    }
  }

  lemma {:induction false} NonZeroHas(steps: seq<Step>, s: Step)
    requires s in steps && !IsZero(s.do)
    ensures s in NonZero(steps)
  {
    if s != steps[0] {
      NonZeroHas(steps[1..], s);
    }
  }

  /** Applying a plan twice converges. When the first call has succeeded, and what
      it found already present is still there, a second call with the same steps
      that succeeds leaves the machine as it is and the set of live inverses as it
      is; and it succeeds where its records can be written. The steps must not write
      the same resource twice. */
  lemma ApplyTwice(env: Env, env': Env, w: World, n: int, steps: seq<Step>)
    requires w.up && Ended(w.disk) && Numbered(w.disk, n)
    requires var first := Apply(env, w, n, steps);
             && first.ok && first.w.up && DistinctLines(first.results)
             && forall i :: 0 <= i < |first.results| && FoundThere(first.results[i]) ==>
                  StillThere(env', first.w, first.results[i].s)
    ensures var first := Apply(env, w, n, steps);
            var second := Apply(env', first.w, first.seqno, steps);
            (second.ok ==> Still(first.w, second.w)) && (AllWritten(env') ==> second.ok)
  {
    var first := Apply(env, w, n, steps);
    var state := CurrentState(Load(w.disk));
    ReportListsSteps(env, w, n, state, steps);
    ApplyIsExact(env, w, n, state, steps);
    CacheAfter(Load(w.disk), n, first.results);
    var state' := CurrentState(Load(first.w.disk));
    forall s | s in steps && !IsZero(s.do) ensures Answered(env', first.w, state', s) {
      NonZeroHas(steps, s);
      var i :| 0 <= i < |NonZero(steps)| && NonZero(steps)[i] == s;
      OverlayAt(state, first.results, i);
    }
    AllAgain(env', first.w, first.seqno, state', steps);
  }
}
