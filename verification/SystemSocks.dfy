// The macOS system SOCKS proxy: a step list whose inverses only work because of
// their order, since setting an endpoint also switches the proxy on.

module SystemSocks {
  import opened Commands

  /** One network service's proxy settings, as the machine holds them. */
  datatype Proxy = Proxy(enabled: bool, server: string, port: nat, bypass: seq<string>)

  /** What detection measured for one service. */
  datatype Measured = Measured(service: string, enabled: bool, server: string, port: nat,
                               authenticated: bool, bypass: seq<string>)

  type Services = map<string, Proxy>

  // --- which measurements are accepted ---------------------------------------

  datatype Refusal = NotDarwin | NotLoopback | ZeroPort | Unknown | NoServices | Unnamed | Authenticated | Incomplete

  datatype Accepted = Accepted(states: seq<Measured>) | Refused(why: Refusal)

  /** A setting that can be put back: named, without a password nobody can read,
      and with an endpoint that is there in both halves or in neither. */
  predicate Restorable(s: Measured) {
    && s.service != ""
    && !s.authenticated
    && (s.server != "" <==> s.port != 0)
    && (s.enabled ==> s.server != "")
  }

  /** A listener on this machine, and services that were read and can all be put
      back. */
  predicate Acceptable(darwin: bool, loopback: bool, port: nat, known: bool, found: seq<Measured>) {
    darwin && loopback && port != 0 && known && found != [] && forall i :: 0 <= i < |found| ==> Restorable(found[i])
  }

  method SystemSocksForPlan(darwin: bool, loopback: bool, port: nat, known: bool, found: seq<Measured>)
    returns (r: Accepted)
    ensures r.Accepted? <==> Acceptable(darwin, loopback, port, known, found)
    ensures r.Accepted? ==> r.states == found
  {
    if !darwin { return Refused(NotDarwin); }
    if !loopback { return Refused(NotLoopback); }
    if port == 0 { return Refused(ZeroPort); }
    if !known { return Refused(Unknown); }
    if |found| == 0 { return Refused(NoServices); }
    var states: seq<Measured> := [];
    var i := 0;
    while i < |found|
      invariant 0 <= i <= |found| && states == found[..i]
      invariant forall j :: 0 <= j < i ==> Restorable(found[j])
    {
      var s := found[i];
      if s.service == "" { return Refused(Unnamed); }
      if s.authenticated { return Refused(Authenticated); }
      var hasServer, hasPort := s.server != "", s.port != 0;
      if hasServer != hasPort || (s.enabled && !hasServer) { return Refused(Incomplete); }
      states := states + [s];
      i := i + 1;
    }
    return Accepted(states);
  }

  // --- the bypass list -------------------------------------------------------

  const REQUIRED := ["localhost", "127.0.0.1", "::1", "*.local", "169.254/16"]

  predicate Has(list: seq<string>, x: string) {
    exists i :: 0 <= i < |list| && Lower(list[i]) == Lower(x)
  }

  function AddMissing(list: seq<string>, required: seq<string>): seq<string>
    decreases |required|
  {
    if required == [] then list
    else AddMissing(if Has(list, required[0]) then list else list + [required[0]], required[1..])
  }

  method FoundIn(list: seq<string>, x: string) returns (found: bool)
    ensures found <==> Has(list, x)
  {
    for j := 0 to |list|
      invariant forall k :: 0 <= k < j ==> Lower(list[k]) != Lower(x)
    {
      if Lower(list[j]) == Lower(x) {
        return true;
      }
    }
    return false;
  }

  method MergedBypass(existing: seq<string>, required: seq<string>) returns (out: seq<string>)
    ensures out == AddMissing(existing, required)
  {
    out := existing;
    var i := 0;
    while i < |required|
      invariant 0 <= i <= |required|
      invariant AddMissing(out, required[i..]) == AddMissing(existing, required)
    {
      assert required[i..][1..] == required[i + 1..];
      var found := FoundIn(out, required[i]);
      if !found {
        out := out + [required[i]];
      }
      i := i + 1;
    }
    assert required[i..] == [];
  }

  /** The merged list begins with what was there, names everything required, and
      is the list itself exactly when nothing was missing. */
  lemma {:induction false} MergedMeans(list: seq<string>, required: seq<string>)
    ensures var out := AddMissing(list, required);
            && list <= out
            && (forall k :: 0 <= k < |required| ==> Has(out, required[k]))
            && (out == list <==> forall k :: 0 <= k < |required| ==> Has(list, required[k]))
    decreases |required|
  {
    if required != [] {
      var x := required[0];
      var list' := if Has(list, x) then list else list + [x];
      MergedMeans(list', required[1..]);
      var out := AddMissing(list, required);
      assert Has(list', x) by {
        if !Has(list, x) {
          assert Lower(list'[|list|]) == Lower(x);
        }
      }
      HasPrefix(list', out, x);
      forall k | 0 <= k < |required| ensures Has(out, required[k]) {
        if k > 0 {
          assert required[k] == required[1..][k - 1];
        }
      }
      if Has(list, x) && forall k :: 0 <= k < |required[1..]| ==> Has(list, required[1..][k]) {
        forall k | 0 <= k < |required| ensures Has(list, required[k]) {
          if k > 0 {
            assert required[k] == required[1..][k - 1];
          }
        }
      }
    }
  }

  lemma HasPrefix(list: seq<string>, out: seq<string>, x: string)
    requires list <= out && Has(list, x)
    ensures Has(out, x)
  {
    var i :| 0 <= i < |list| && Lower(list[i]) == Lower(x);
    assert out[i] == list[i];
  }

  // --- the commands ----------------------------------------------------------

  datatype Cmd = SetState(service: string, on: bool)
               | SetEndpoint(service: string, server: string, port: nat)
               | SetBypass(service: string, domains: seq<string>)

  const EMPTY := ["Empty"]

  /** An empty list is spelt with a word of its own. */
  function BypassCmd(service: string, domains: seq<string>): Cmd {
    SetBypass(service, if domains == [] then EMPTY else domains)
  }

  function On(c: Cmd, p: Proxy): Proxy {
    match c
    case SetState(_, on) => p.(enabled := on)
    case SetEndpoint(_, server, port) => p.(server := server, port := port, enabled := true)
    case SetBypass(_, domains) => p.(bypass := if domains == EMPTY then [] else domains)
  }

  function Eff(c: Cmd, m: Services): Services {
    if c.service in m then m[c.service := On(c, m[c.service])] else m
  }

  datatype Step = Step(do: Cmd, undo: Cmd)

  /** Where the services are pointed: the listener, and the destinations that must
      stay local. */
  datatype Target = Target(listen: string, port: nat, required: seq<string>)

  function StepsFor(s: Measured, to: Target): (r: seq<Step>)
    ensures |r| == 4 && forall i :: 0 <= i < 4 ==> r[i].do.service == s.service && r[i].undo.service == s.service
  {
    [Step(SetState(s.service, false), SetState(s.service, s.enabled)),
     Step(BypassCmd(s.service, AddMissing(s.bypass, to.required)), BypassCmd(s.service, s.bypass)),
     Step(SetEndpoint(s.service, to.listen, to.port),
          if s.server != "" && s.port != 0 then SetEndpoint(s.service, s.server, s.port) else SetState(s.service, false)),
     Step(SetState(s.service, true), SetState(s.service, false))]
  }

  function Steps(states: seq<Measured>, to: Target): (r: seq<Step>)
    ensures |r| == 4 * |states|
  {
    if states == [] then [] else StepsFor(states[0], to) + Steps(states[1..], to)
  }

  method AppendService(s: Measured, to: Target) returns (steps: seq<Step>)
    ensures steps == StepsFor(s, to)
  {
    var merged := MergedBypass(s.bypass, to.required);
    var undoEndpoint := SetState(s.service, false);
    if s.server != "" && s.port != 0 {
      undoEndpoint := SetEndpoint(s.service, s.server, s.port);
    }
    steps := [Step(SetState(s.service, false), SetState(s.service, s.enabled))];
    steps := steps + [Step(BypassCmd(s.service, merged), BypassCmd(s.service, s.bypass))];
    steps := steps + [Step(SetEndpoint(s.service, to.listen, to.port), undoEndpoint)];
    steps := steps + [Step(SetState(s.service, true), SetState(s.service, false))];
  }

  method DarwinSystemSocksSteps(enabled: bool, states: seq<Measured>, listen: string, port: nat) returns (steps: seq<Step>)
    ensures steps == if enabled then Steps(states, Target(listen, port, REQUIRED)) else []
  {
    if !enabled { return []; }
    steps := StepsTo(states, Target(listen, port, REQUIRED));
  }

  method StepsTo(states: seq<Measured>, to: Target) returns (steps: seq<Step>)
    ensures steps == Steps(states, to)
  {
    steps := [];
    var i := 0;
    assert states[0..] == states;
    while i < |states|
      invariant 0 <= i <= |states|
      invariant steps + Steps(states[i..], to) == Steps(states, to)
    {
      var more := AppendService(states[i], to);
      assert states[i..][1..] == states[i + 1..];
      assert steps + (more + Steps(states[i + 1..], to)) == (steps + more) + Steps(states[i + 1..], to);
      steps := steps + more;
      i := i + 1;
    }
    assert states[i..] == [];
  }

  // --- running a prefix and undoing it ---------------------------------------

  function DoAll(m: Services, steps: seq<Step>): Services
    decreases |steps|
  {
    if steps == [] then m else DoAll(Eff(steps[0].do, m), steps[1..])
  }

  /** Newest first, as replay runs them. */
  function UndoAll(m: Services, steps: seq<Step>): Services {
    if steps == [] then m else Eff(steps[0].undo, UndoAll(m, steps[1..]))
  }

  /** The first k steps were begun, the last of them run or not; then a crash, and
      every recorded inverse is replayed. */
  function Crashed(m: Services, steps: seq<Step>, k: nat, lastRan: bool): Services
    requires k <= |steps|
  {
    UndoAll(DoAll(m, if k > 0 && !lastRan then steps[..k - 1] else steps[..k]), steps[..k])
  }

  predicate DistinctServices(states: seq<Measured>) {
    forall i, j :: 0 <= i < j < |states| ==> states[i].service != states[j].service
  }

  /** The measurement is what the machine holds. */
  predicate Accurate(m: Services, s: Measured) {
    s.service in m && m[s.service] == Proxy(s.enabled, s.server, s.port, s.bypass)
  }

  /** The switch is back, and so is the endpoint if there was one. */
  predicate Back(m: Services, s: Measured) {
    && s.service in m
    && m[s.service].enabled == s.enabled
    && (s.server != "" ==> m[s.service].server == s.server && m[s.service].port == s.port)
  }

  lemma {:induction false} DoAllElsewhere(m: Services, steps: seq<Step>, x: string)
    requires forall i :: 0 <= i < |steps| ==> steps[i].do.service != x
    ensures x in DoAll(m, steps) <==> x in m
    ensures x in m ==> DoAll(m, steps)[x] == m[x]
    decreases |steps|
  {
    if steps != [] {
      DoAllElsewhere(Eff(steps[0].do, m), steps[1..], x);
    }
  }

  lemma {:induction false} UndoAllElsewhere(m: Services, steps: seq<Step>, x: string)
    requires forall i :: 0 <= i < |steps| ==> steps[i].undo.service != x
    ensures x in UndoAll(m, steps) <==> x in m
    ensures x in m ==> UndoAll(m, steps)[x] == m[x]
    decreases |steps|
  {
    if steps != [] {
      UndoAllElsewhere(m, steps[1..], x);
    }
  }

  lemma {:induction false} DoAllConcat(m: Services, a: seq<Step>, b: seq<Step>)
    ensures DoAll(m, a + b) == DoAll(DoAll(m, a), b)
    decreases |a|
  {
    if a == [] {
      assert a + b == b;
    } else {
      assert (a + b)[1..] == a[1..] + b;
      DoAllConcat(Eff(a[0].do, m), a[1..], b);
    }
  }

  lemma {:induction false} UndoAllConcat(m: Services, a: seq<Step>, b: seq<Step>)
    ensures UndoAll(m, a + b) == UndoAll(UndoAll(m, b), a)
    decreases |a|
  {
    if a == [] {
      assert a + b == b;
    } else {
      assert (a + b)[1..] == a[1..] + b;
      UndoAllConcat(m, a[1..], b);
    }
  }

  // --- one service -----------------------------------------------------------

  function Did(p: Proxy, steps: seq<Step>): Proxy
    decreases |steps|
  {
    if steps == [] then p else Did(On(steps[0].do, p), steps[1..])
  }

  function Undid(p: Proxy, steps: seq<Step>): Proxy {
    if steps == [] then p else On(steps[0].undo, Undid(p, steps[1..]))
  }

  lemma {:induction false} DoAllHere(m: Services, steps: seq<Step>, x: string)
    requires x in m && forall i :: 0 <= i < |steps| ==> steps[i].do.service == x
    ensures x in DoAll(m, steps) && DoAll(m, steps)[x] == Did(m[x], steps)
    decreases |steps|
  {
    if steps != [] {
      DoAllHere(Eff(steps[0].do, m), steps[1..], x);
    }
  }

  lemma {:induction false} UndoAllHere(m: Services, steps: seq<Step>, x: string)
    requires x in m && forall i :: 0 <= i < |steps| ==> steps[i].undo.service == x
    ensures x in UndoAll(m, steps) && UndoAll(m, steps)[x] == Undid(m[x], steps)
    decreases |steps|
  {
    if steps != [] {
      UndoAllHere(m, steps[1..], x);
    }
  }

  /** The last of the first k steps was run or not. */
  function RanOf(steps: seq<Step>, k: nat, lastRan: bool): seq<Step>
    requires k <= |steps|
  {
    if k > 0 && !lastRan then steps[..k - 1] else steps[..k]
  }

  /** Undoing any non-empty prefix ends with the switch where it was; from the
      second step on it ends with the recorded bypass list, and from the third
      with the recorded endpoint, whatever state it starts from. */
  lemma UndidMeans(s: Measured, to: Target, k: nat, p: Proxy)
    requires k <= 4
    ensures var q := Undid(p, StepsFor(s, to)[..k]);
            && (q.enabled == if k == 0 then p.enabled else s.enabled)
            && (q.bypass == if k < 2 then p.bypass else if s.bypass == EMPTY then [] else s.bypass)
            && (k < 3 ==> q.server == p.server && q.port == p.port)
            && (k >= 3 && s.server != "" && s.port != 0 ==> q.server == s.server && q.port == s.port)
  {
    var steps := StepsFor(s, to);
    var p4 := if k < 4 then p else On(steps[3].undo, p);
    var p3 := if k < 3 then p4 else On(steps[2].undo, p4);
    var p2 := if k < 2 then p3 else On(steps[1].undo, p3);
    UndidOne(p, steps, 3, k);
    UndidOne(p, steps, 2, k);
    UndidOne(p, steps, 1, k);
    UndidOne(p, steps, 0, k);
    assert steps[0..k] == steps[..k];
  }

  lemma UndidOne(p: Proxy, steps: seq<Step>, i: nat, k: nat)
    requires k <= |steps| && i < |steps|
    ensures k <= i ==> Undid(p, steps[k..k]) == p
    ensures i < k ==> Undid(p, steps[i..k]) == On(steps[i].undo, Undid(p, steps[i + 1..k]))
  {
    if i < k {
      assert steps[i..k][1..] == steps[i + 1..k];
    }
  }

  /** The first step leaves the bypass list alone, the first two the endpoint. */
  lemma DidMeans(s: Measured, to: Target, k: nat, p: Proxy)
    requires k <= 4
    ensures var q := Did(p, StepsFor(s, to)[..k]);
            && (k == 0 ==> q == p)
            && (k < 2 ==> q.bypass == p.bypass)
            && (k < 3 ==> q.server == p.server && q.port == p.port)
  {
    var steps := StepsFor(s, to);
    if k >= 1 {
      assert steps[..k][1..] == steps[1..k];
    }
    if k == 2 {
      var p1 := On(steps[0].do, p);
      assert steps[1..k] == [steps[1]] && steps[1..k][1..] == [];
      assert Did(p1, steps[1..k]) == On(steps[1].do, p1);
    }
  }

  /** One service, any prefix of its four steps, the last one run or not. */
  lemma OneServiceRoundTrip(s: Measured, to: Target, k: nat, lastRan: bool)
    requires Restorable(s) && k <= 4
    ensures var p0 := Proxy(s.enabled, s.server, s.port, s.bypass);
            var steps := StepsFor(s, to);
            var p := Undid(Did(p0, RanOf(steps, k, lastRan)), steps[..k]);
            && p.enabled == s.enabled
            && (s.server != "" ==> p.server == s.server && p.port == s.port)
            && (p.bypass == s.bypass <==> k < 2 || s.bypass != EMPTY)
  {
    var p0 := Proxy(s.enabled, s.server, s.port, s.bypass);
    var j := if k > 0 && !lastRan then k - 1 else k;
    DidMeans(s, to, j, p0);
    UndidMeans(s, to, k, Did(p0, StepsFor(s, to)[..j]));
  }

  // --- the whole list --------------------------------------------------------

  predicate Foreign(states: seq<Measured>, x: string) {
    forall i :: 0 <= i < |states| ==> states[i].service != x
  }

  lemma {:induction false} StepsAreTheirs(states: seq<Measured>, to: Target, x: string)
    requires Foreign(states, x)
    ensures forall i :: 0 <= i < |Steps(states, to)| ==>
              Steps(states, to)[i].do.service != x && Steps(states, to)[i].undo.service != x
  {
    if states != [] {
      StepsAreTheirs(states[1..], to, x);
    }
  }

  /** A service that is not in the list is not touched. */
  lemma CrashElsewhere(m: Services, states: seq<Measured>, to: Target, k: nat, lastRan: bool, x: string)
    requires k <= 4 * |states| && Foreign(states, x)
    ensures var m' := Crashed(m, Steps(states, to), k, lastRan);
            (x in m' <==> x in m) && (x in m ==> m'[x] == m[x])
  {
    var steps := Steps(states, to);
    StepsAreTheirs(states, to, x);
    var ran := RanOf(steps, k, lastRan);
    DoAllElsewhere(m, ran, x);
    UndoAllElsewhere(DoAll(m, ran), steps[..k], x);
  }

  /** A prefix that stays inside the first service. */
  lemma CrashInFirst(m: Services, s: Measured, to: Target, k: nat, lastRan: bool)
    requires Restorable(s) && Accurate(m, s) && k <= 4
    ensures var m' := Crashed(m, StepsFor(s, to), k, lastRan);
            Back(m', s) && (m'[s.service].bypass == s.bypass <==> k < 2 || s.bypass != EMPTY)
  {
    var steps := StepsFor(s, to);
    var ran := RanOf(steps, k, lastRan);
    DoAllHere(m, ran, s.service);
    UndoAllHere(DoAll(m, ran), steps[..k], s.service);
    OneServiceRoundTrip(s, to, k, lastRan);
  }

  /** Splitting a prefix at the end of the first service. */
  lemma CrashSplit(m: Services, states: seq<Measured>, to: Target, k: nat, lastRan: bool)
    requires states != [] && 4 < k <= 4 * |states|
    ensures var first := StepsFor(states[0], to);
            Crashed(m, Steps(states, to), k, lastRan) ==
              UndoAll(Crashed(DoAll(m, first), Steps(states[1..], to), k - 4, lastRan), first)
  {
    var first, rest := StepsFor(states[0], to), Steps(states[1..], to);
    var steps := Steps(states, to);
    assert steps == first + rest;
    assert steps[..k] == first + rest[..k - 4];
    assert steps[..k - 1] == first + rest[..k - 5];
    var ran := RanOf(rest, k - 4, lastRan);
    DoAllConcat(m, first, ran);
    UndoAllConcat(DoAll(DoAll(m, first), ran), first, rest[..k - 4]);
  }

  lemma OnlyFirstTouched(m: Services, s: Measured, to: Target, k: nat, lastRan: bool, x: string)
    requires k <= 4 && x in m && x != s.service
    ensures var m' := Crashed(m, StepsFor(s, to), k, lastRan);
            x in m' && m'[x] == m[x]
  {
    var steps := StepsFor(s, to);
    var ran := RanOf(steps, k, lastRan);
    DoAllElsewhere(m, ran, x);
    UndoAllElsewhere(DoAll(m, ran), steps[..k], x);
  }

  /** The two halves of a service's settings after the crash and the replay. */
  predicate RoundTripped(m: Services, s: Measured, i: nat, k: nat) {
    Back(m, s) && (m[s.service].bypass == s.bypass <==> k < 4 * i + 2 || s.bypass != EMPTY)
  }

  /** The crash came later: the first service went all the way and back. */
  lemma FirstService(m: Services, states: seq<Measured>, to: Target, k: nat, lastRan: bool)
    requires states != [] && 4 < k <= 4 * |states| && Foreign(states[1..], states[0].service)
    requires Restorable(states[0]) && Accurate(m, states[0])
    ensures RoundTripped(Crashed(m, Steps(states, to), k, lastRan), states[0], 0, k)
  {
    var s := states[0];
    var first := StepsFor(s, to);
    var m1 := DoAll(m, first);
    CrashSplit(m, states, to, k, lastRan);
    DoAllHere(m, first, s.service);
    CrashElsewhere(m1, states[1..], to, k - 4, lastRan, s.service);
    var m2 := Crashed(m1, Steps(states[1..], to), k - 4, lastRan);
    UndoAllHere(m2, first, s.service);
    OneServiceRoundTrip(s, to, 4, true);
    assert first[..4] == first;
  }

  /** The crash came inside the first service. */
  lemma EarlyCrash(m: Services, states: seq<Measured>, to: Target, k: nat, lastRan: bool, i: nat)
    requires i < |states| && k <= 4 && DistinctServices(states)
    requires Restorable(states[i]) && Accurate(m, states[i])
    ensures RoundTripped(Crashed(m, Steps(states, to), k, lastRan), states[i], i, k)
  {
    var first := StepsFor(states[0], to);
    assert Steps(states, to)[..k] == first[..k];
    assert RanOf(Steps(states, to), k, lastRan) == RanOf(first, k, lastRan);
    if i == 0 {
      CrashInFirst(m, states[0], to, k, lastRan);
    } else {
      OnlyFirstTouched(m, states[0], to, k, lastRan, states[i].service);
    }
  }

  lemma {:induction false} RoundTripAt(m: Services, states: seq<Measured>, to: Target, k: nat, lastRan: bool, i: nat)
    requires i < |states| && k <= 4 * |states| && DistinctServices(states)
    requires Restorable(states[i]) && Accurate(m, states[i])
    ensures RoundTripped(Crashed(m, Steps(states, to), k, lastRan), states[i], i, k)
    decreases |states|
  {
    if k <= 4 {
      EarlyCrash(m, states, to, k, lastRan, i);
    } else if i == 0 {
      FirstService(m, states, to, k, lastRan);
    } else {
      var first, rest := StepsFor(states[0], to), states[1..];
      assert rest[i - 1] == states[i] && states[i].service != states[0].service;
      DoAllElsewhere(m, first, states[i].service);
      RoundTripAt(DoAll(m, first), rest, to, k - 4, lastRan, i - 1);
      LaterService(m, states, to, k, lastRan, i);
    }
  }

  /** The first service's steps and their inverses leave a later service alone. */
  lemma LaterService(m: Services, states: seq<Measured>, to: Target, k: nat, lastRan: bool, i: nat)
    requires 0 < i < |states| && 4 < k <= 4 * |states| && states[i].service != states[0].service
    requires RoundTripped(Crashed(DoAll(m, StepsFor(states[0], to)), Steps(states[1..], to), k - 4, lastRan), states[i], i - 1, k - 4)
    ensures RoundTripped(Crashed(m, Steps(states, to), k, lastRan), states[i], i, k)
  {
    var first := StepsFor(states[0], to);
    CrashSplit(m, states, to, k, lastRan);
    UndoAllElsewhere(Crashed(DoAll(m, first), Steps(states[1..], to), k - 4, lastRan), first, states[i].service);
  }

  /** The SOCKS round trip from any crash point. For any accepted list of distinct
      services and any prefix of the step list, with its last step run or only
      begun, replaying the inverses newest first puts every switch back, every
      endpoint that was there back, and every bypass list back, except a list
      that consisted of the one word the tool reads as "no list". Services that
      are not in the list keep everything. */
  lemma SocksRoundTrip(m: Services, states: seq<Measured>, to: Target, k: nat, lastRan: bool)
    requires k <= 4 * |states| && DistinctServices(states)
    requires forall i :: 0 <= i < |states| ==> Restorable(states[i]) && Accurate(m, states[i])
    ensures var m' := Crashed(m, Steps(states, to), k, lastRan);
            && (forall i :: 0 <= i < |states| ==> RoundTripped(m', states[i], i, k))
            && (forall x :: Foreign(states, x) ==> (x in m' <==> x in m) && (x in m ==> m'[x] == m[x]))
  {
    var m' := Crashed(m, Steps(states, to), k, lastRan);
    forall i | 0 <= i < |states| ensures RoundTripped(m', states[i], i, k) {
      RoundTripAt(m, states, to, k, lastRan, i);
    }
    forall x | Foreign(states, x) ensures (x in m' <==> x in m) && (x in m ==> m'[x] == m[x]) {
      CrashElsewhere(m, states, to, k, lastRan, x);
    }
  }
}
