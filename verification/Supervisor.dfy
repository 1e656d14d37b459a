// The hotspot's two daemons and its radio, started and stopped through a system
// that may fail at any call.

module Supervisor {
  import opened Commands

  datatype Unit = Hostapd | Dnsmasq

  /** What was done to the machine. A spawn carries what was on disk at that moment,
      what was wanted there, the process the pid file had named when this start of
      the unit began, and how long the record was then. */
  datatype Event =
    | Wrote(unit: Unit)
    | RemovedPid(unit: Unit)
    | Signalled(pid: int, kill: bool)
    | Ended(pid: int)
    | Spawned(unit: Unit, conf: Option<string>, wanted: string, pidFile: bool, named: int, since: nat)

  /** How the calls of the system end, by the clock: whether one fails, whether the
      process asked about has exited, what a search for leftovers finds, and the
      process a spawn leaves. */
  datatype Env = Env(fails: nat -> bool, exits: nat -> bool, strays: nat -> seq<int>, born: nat -> Option<int>)

  datatype Plan = Plan(hostapd: string, dnsmasq: string)

  // --- a safe spawn ----------------------------------------------------------

  predicate EndedIn(log: seq<Event>, from: nat, to: nat, pid: int) {
    exists j :: from <= j < to && j < |log| && log[j] == Ended(pid)
  }

  /** The configuration on disk was the one wanted, there was no pid file, and the
      process it had named was seen dead or killed. */
  predicate SpawnOk(log: seq<Event>, i: int)
    requires 0 <= i < |log| && log[i].Spawned?
  {
    var e := log[i];
    && e.conf == Some(e.wanted) && !e.pidFile
    && (e.named > 0 ==> EndedIn(log, e.since, i, e.named))
  }

  predicate Safe(log: seq<Event>) {
    forall i :: 0 <= i < |log| && log[i].Spawned? ==> SpawnOk(log, i)
  }

  /** The record grew, without a spawn. */
  predicate Grew(a: seq<Event>, b: seq<Event>) {
    a <= b && forall i :: |a| <= i < |b| ==> !b[i].Spawned?
  }

  lemma GrewIsSafe(a: seq<Event>, b: seq<Event>)
    requires Grew(a, b) && Safe(a)
    ensures Safe(b)
  {
    forall i | 0 <= i < |b| && b[i].Spawned? ensures SpawnOk(b, i) {
      assert i < |a| && a[i] == b[i] && SpawnOk(a, i);
      if b[i].named > 0 {
        var j :| b[i].since <= j < i && j < |a| && a[j] == Ended(b[i].named);
        assert b[j] == a[j];
      }
    }
  }

  /** The record grew, without a spawn, and those no longer alive are those it shows to
      have ended since. */
  ghost predicate Tallied(a: seq<Event>, alive: set<int>, b: seq<Event>, left: set<int>) {
    Grew(a, b) && left <= alive && forall p :: p in alive ==> (p in left <==> !EndedIn(b, |a|, |b|, p))
  }

  lemma EndedOn(b: seq<Event>, c: seq<Event>, from: nat, p: int)
    requires b <= c && from <= |b|
    ensures EndedIn(c, from, |c|, p) <==> EndedIn(b, from, |b|, p) || EndedIn(c, |b|, |c|, p)
  {
    if EndedIn(b, from, |b|, p) {
      var j :| from <= j < |b| && b[j] == Ended(p);
      assert c[j] == Ended(p);
    }
    if EndedIn(c, from, |c|, p) {
      var j :| from <= j < |c| && c[j] == Ended(p);
      assert j < |b| ==> b[j] == Ended(p);
    }
  }

  lemma TalliedOn(a: seq<Event>, alive: set<int>, b: seq<Event>, some: set<int>, c: seq<Event>, left: set<int>)
    requires Tallied(a, alive, b, some) && Tallied(b, some, c, left)
    ensures Tallied(a, alive, c, left)
  {
    forall p | p in alive ensures p in left <==> !EndedIn(c, |a|, |c|, p) {
      EndedOn(b, c, |a|, p);
    }
  }

  /** The same of one process, over a record that may hold a spawn. */
  predicate Followed(a: seq<Event>, alive: set<int>, b: seq<Event>, left: set<int>, p: int) {
    a <= b && (p in left <==> p in alive && !EndedIn(b, |a|, |b|, p))
  }

  /** What a process was started with is as it was. */
  predicate SameRun(was: map<int, string>, runs: map<int, string>, p: int) {
    (p in runs <==> p in was) && (p in runs ==> runs[p] == was[p])
  }

  lemma TalliedFollows(a: seq<Event>, alive: set<int>, b: seq<Event>, left: set<int>)
    requires Tallied(a, alive, b, left)
    ensures forall p :: Followed(a, alive, b, left, p)
  {
  }

  lemma FollowedOn(a: seq<Event>, alive: set<int>, b: seq<Event>, some: set<int>, c: seq<Event>, left: set<int>, p: int)
    requires Followed(a, alive, b, some, p) && Followed(b, some, c, left, p)
    ensures Followed(a, alive, c, left, p)
  {
    EndedOn(b, c, |a|, p);
  }

  lemma SpawnIsSafe(log: seq<Event>, e: Event)
    requires Safe(log) && e.Spawned? && e.conf == Some(e.wanted) && !e.pidFile
    requires e.named > 0 ==> EndedIn(log, e.since, |log|, e.named)
    ensures Safe(log + [e])
  {
    var b := log + [e];
    forall i | 0 <= i < |b| && b[i].Spawned? ensures SpawnOk(b, i) {
      if i < |log| {
        assert SpawnOk(log, i);
        if b[i].named > 0 {
          var j :| b[i].since <= j < i && j < |log| && log[j] == Ended(b[i].named);
          assert b[j] == log[j];
        }
      } else if e.named > 0 {
        var j :| e.since <= j < |log| && log[j] == Ended(e.named);
        assert b[j] == log[j];
      }
    }
  }

  // --- radios ----------------------------------------------------------------

  datatype Radio = Radio(index: int, wireless: bool, soft: bool, hard: bool)

  predicate AnySoft(rs: seq<Radio>) {
    exists i :: 0 <= i < |rs| && rs[i].wireless && rs[i].soft
  }

  predicate AnyHard(rs: seq<Radio>) {
    exists i :: 0 <= i < |rs| && rs[i].wireless && rs[i].hard
  }

  /** rfkill unblock wifi. */
  function Unblock(rs: seq<Radio>): seq<Radio> {
    seq(|rs|, i requires 0 <= i < |rs| => if rs[i].wireless then rs[i].(soft := false) else rs[i])
  }

  /** rfkill block, one device. */
  function BlockOne(rs: seq<Radio>, index: int): seq<Radio> {
    seq(|rs|, i requires 0 <= i < |rs| => if rs[i].index == index then rs[i].(soft := true) else rs[i])
  }

  /** The wireless devices that were soft blocked and not hard blocked. */
  function SoftOnly(rs: seq<Radio>): seq<int> {
    if rs == [] then []
    else
      var r := rs[|rs| - 1];
      var rest := SoftOnly(rs[..|rs| - 1]);
      if r.wireless && r.soft && !r.hard then rest + [r.index] else rest
  }

  /** The wireless device of an index is there and nothing blocks it. */
  predicate Open(rs: seq<Radio>, index: int) {
    exists i :: 0 <= i < |rs| && rs[i].index == index && rs[i].wireless && !rs[i].soft && !rs[i].hard
  }

  /** How a command of rfkill ends: it does its work, it reports success and does
      nothing, or it reports a failure and has acted or not. */
  datatype Call = Does | Pretends | Errs(acted: bool)

  predicate Acts(c: Call) {
    c.Does? || (c.Errs? && c.acted)
  }

  /** rfkill in a start: whether the two readings of the list work, and the unblock
      between them. */
  datatype Clearing = Clearing(first: bool, unblock: Call, second: bool)

  /** rfkill in a stop: the reading before, each block, the reading after. */
  datatype Restoring = Restoring(first: bool, block: int -> Call, second: bool)

  function Reblock(rs: seq<Radio>, ours: seq<int>, block: int -> Call): seq<Radio> {
    if ours == [] then rs
    else
      var index := ours[|ours| - 1];
      var done := Reblock(rs, ours[..|ours| - 1], block);
      if Open(rs, index) && Acts(block(index)) then BlockOne(done, index) else done
  }

  /** The radio step sets about clearing a soft block, if that is what it finds. */
  predicate Clears(rs: seq<Radio>, r: Clearing) {
    r.first && AnySoft(rs) && !AnyHard(rs)
  }

  function RadioAfterStart(rs: seq<Radio>, r: Clearing): seq<Radio> {
    if Clears(rs, r) && Acts(r.unblock) then Unblock(rs) else rs
  }

  function RecordedAfterStart(rs: seq<Radio>, r: Clearing, was: seq<int>): seq<int> {
    if Clears(rs, r) && r.unblock.Does? && r.second then SoftOnly(rs) else was
  }

  /** The start goes on: nothing blocks the radio as far as it can be read, and an
      unblock was not refused. */
  predicate Usable(rs: seq<Radio>, r: Clearing) {
    r.first ==> !AnyHard(rs) && (AnySoft(rs) ==> !r.unblock.Errs? && (r.unblock.Pretends? ==> !r.second))
  }

  function RadioAfterStop(rs: seq<Radio>, ours: seq<int>, r: Restoring): seq<Radio> {
    if r.first then Reblock(rs, ours, r.block) else rs
  }

  /** Putting back is reported a success: both readings worked, no block was refused,
      and the second reading shows none of ours switched on. */
  predicate PutBack(rs: seq<Radio>, ours: seq<int>, r: Restoring) {
    ours == [] ||
    (&& r.first && r.second
     && (forall k :: 0 <= k < |ours| && Open(rs, ours[k]) ==> !r.block(ours[k]).Errs?)
     && (forall k :: 0 <= k < |ours| ==> !Open(Reblock(rs, ours, r.block), ours[k])))
  }

  // --- the supervisor --------------------------------------------------------

  class Supervisor {
    const env: Env
    const polls: nat
    const tries: nat

    /** The machine: configurations, pid files, processes and what each was started
        with, radios. */
    var conf: map<Unit, string>
    var pids: map<Unit, int>
    var alive: set<int>
    var runs: map<int, string>
    var radios: seq<Radio>

    var unblocked: seq<int>
    var log: seq<Event>
    var t: nat

    constructor (env: Env, polls: nat, tries: nat, conf: map<Unit, string>, pids: map<Unit, int>, alive: set<int>,
                 runs: map<int, string>, radios: seq<Radio>)
      ensures log == [] && unblocked == [] && this.env == env && this.conf == conf && this.pids == pids
      ensures this.alive == alive && this.runs == runs && this.radios == radios
    {
      this.env, this.polls, this.tries, this.conf, this.pids, this.alive := env, polls, tries, conf, pids, alive;
      this.runs, this.radios, this.unblocked, this.log, this.t := runs, radios, [], [], 0;
    }

    /** A call does not fail, and no process has exited. */
    ghost predicate Answers(k: nat) {
      !env.fails(k) && !env.exits(k)
    }

    ghost predicate AnswersUntil(from: nat, n: nat) {
      forall k :: from <= k < from + n ==> Answers(k)
    }

    /** A daemon found live cannot then be signalled. */
    ghost predicate RefusesStop(k: nat) {
      Answers(k) && Answers(k + 1) && env.fails(k + 2)
    }

    /** The pid file of a unit names a live process. */
    ghost predicate Up(u: Unit)
      reads this
    {
      u in pids && pids[u] > 0 && pids[u] in alive
    }

    /** The pid file of a unit names a process that is found live when it is looked for
        now. */
    ghost predicate Lives(u: Unit)
      reads this
    {
      Up(u) && !env.exits(t + 1)
    }

    /** Whether a process is there. */
    method ProcessAlive(pid: int) returns (ok: bool, yes: bool)
      modifies this`alive, this`log, this`t
      ensures t == old(t) + 1 && Tallied(old(log), old(alive), log, alive)
      ensures ok <==> !env.fails(old(t))
      ensures yes ==> pid in alive
      ensures !ok || yes ==> log == old(log) && alive == old(alive)
      ensures ok && !yes ==> pid !in alive && log == old(log) + [Ended(pid)]
      ensures ok ==> (yes <==> pid in old(alive) && !env.exits(old(t)))
    {
      t := t + 1;
      if env.fails(t - 1) {
        return false, false;
      }
      if pid in alive && !env.exits(t - 1) {
        return true, true;
      }
      alive := alive - {pid};
      log := log + [Ended(pid)];
      assert log[|log| - 1] == Ended(pid);
      return true, false;
    }

    method SignalProcess(pid: int, kill: bool) returns (ok: bool)
      modifies this`alive, this`log, this`t
      ensures t == old(t) + 1 && Tallied(old(log), old(alive), log, alive)
      ensures env.fails(old(t)) ==> !ok && log == old(log) && alive == old(alive)
      ensures ok && kill ==> pid !in alive && |log| > |old(log)| && log[|log| - 1] == Ended(pid)
    {
      t := t + 1;
      if env.fails(t - 1) {
        return false;
      }
      log := log + [Signalled(pid, kill)];
      if kill {
        alive := alive - {pid};
        log := log + [Ended(pid)];
        assert log[|log| - 1] == Ended(pid);
      }
      return true;
    }

    /** Ask a process to stop, wait, then take it away. */
    method Terminate(pid: int) returns (ok: bool)
      modifies this`alive, this`log, this`t
      ensures t > old(t) && Tallied(old(log), old(alive), log, alive)
      ensures ok ==> pid !in alive && EndedIn(log, |old(log)|, |log|, pid)
      ensures env.fails(old(t)) ==> !ok && alive == old(alive) && t == old(t) + 1
    {
      ok := SignalProcess(pid, false);
      if !ok {
        return;
      }
      var yes := true;
      for i := 0 to polls
        invariant t > old(t) && Tallied(old(log), old(alive), log, alive)
      {
        ghost var was, lived := log, alive;
        ok, yes := ProcessAlive(pid);
        TalliedOn(old(log), old(alive), was, lived, log, alive);
        if !ok {
          return;
        }
        if !yes {
          assert log[|log| - 1] == Ended(pid);
          return;
        }
      }
      ghost var was, lived := log, alive;
      ok, yes := ProcessAlive(pid);
      TalliedOn(old(log), old(alive), was, lived, log, alive);
      if !ok || !yes {
        assert ok ==> log[|log| - 1] == Ended(pid);
        return;
      }
      was, lived := log, alive;
      ok := SignalProcess(pid, true);
      TalliedOn(old(log), old(alive), was, lived, log, alive);
    }

    /** The pid in a unit's pid file if that process is there, and the pid it names
        either way. A missing or unreadable number is 0. */
    method LivePID(u: Unit) returns (ok: bool, pid: int, named: int)
      modifies this`alive, this`log, this`t
      ensures t > old(t) && Tallied(old(log), old(alive), log, alive)
      ensures ok ==> (pid > 0 <==> old(Lives(u))) && (pid > 0 ==> t == old(t) + 2)
      ensures ok ==> named == (if u in pids && pids[u] > 0 then pids[u] else 0)
      ensures ok ==> (pid == named || pid == 0) && (pid > 0 ==> pid in alive && log == old(log) && alive == old(alive))
      ensures ok && pid == 0 && named > 0 ==> named !in alive && EndedIn(log, |old(log)|, |log|, named)
      ensures old(Lives(u)) ==> log == old(log) && alive == old(alive)
      ensures old(Up(u)) && Answers(old(t)) && Answers(old(t) + 1) ==> ok && pid == pids[u] && t == old(t) + 2
    {
      t := t + 1;
      if env.fails(t - 1) {
        return false, 0, 0;
      }
      if u !in pids || pids[u] <= 0 {
        return true, 0, 0;
      }
      named := pids[u];
      var yes;
      ok, yes := ProcessAlive(named);
      pid := if ok && yes then named else 0;
      assert ok && !yes ==> log[|log| - 1] == Ended(named);
    }

    method RemovePidFile(u: Unit) returns (ok: bool)
      modifies this`pids, this`log, this`t
      ensures t > old(t) && Tallied(old(log), alive, log, alive)
      ensures if ok then pids == old(pids) - {u} else pids == old(pids)
    {
      t := t + 1;
      if env.fails(t - 1) {
        return false;
      }
      pids := pids - {u};
      log := log + [RemovedPid(u)];
      return true;
    }

    /** End any process left over from an earlier run. A failed search finds none. */
    method StopStrays() returns (ok: bool)
      modifies this`alive, this`log, this`t
      ensures t > old(t) && Tallied(old(log), old(alive), log, alive)
    {
      t := t + 1;
      if env.fails(t - 1) {
        return true;
      }
      var found := env.strays(t - 1);
      for i := 0 to |found|
        invariant t > old(t) && Tallied(old(log), old(alive), log, alive)
      {
        if found[i] <= 1 {
          continue;
        }
        ghost var was, lived := log, alive;
        ok := Terminate(found[i]);
        TalliedOn(old(log), old(alive), was, lived, log, alive);
        if !ok {
          return;
        }
      }
      return true;
    }

    /** Run the daemon. It writes its own pid file. */
    method Spawn(u: Unit, wanted: string, named: int, since: nat) returns (ok: bool)
      requires u in conf && conf[u] == wanted && u !in pids && Safe(log)
      requires named > 0 ==> EndedIn(log, since, |log|, named)
      modifies this`pids, this`alive, this`runs, this`log, this`t
      ensures t > old(t) && old(log) <= log && Safe(log)
      ensures forall j :: |old(log)| <= j < |log| ==> !log[j].Ended?
      ensures !ok ==> pids == old(pids) && runs == old(runs) && alive == old(alive)
      ensures ok ==> env.born(old(t)).Some? && var p := env.born(old(t)).value;
                pids == old(pids)[u := p] && runs == old(runs)[p := wanted] && alive == old(alive) + {p}
    {
      t := t + 1;
      if env.fails(t - 1) {
        return false;
      }
      SpawnIsSafe(log, Spawned(u, Some(wanted), wanted, false, named, since));
      log := log + [Spawned(u, if u in conf then Some(conf[u]) else None, wanted, u in pids, named, since)];
      var born := env.born(t - 1);
      if born.None? {
        return false;
      }
      pids, runs, alive := pids[u := born.value], runs[born.value := wanted], alive + {born.value};
      return true;
    }

    method AwaitPID(u: Unit) returns (ok: bool)
      modifies this`alive, this`log, this`t
      ensures t >= old(t) && Tallied(old(log), old(alive), log, alive)
      ensures ok ==> Up(u)
    {
      for i := 0 to tries
        invariant t >= old(t) && Tallied(old(log), old(alive), log, alive)
      {
        var pid, named;
        ghost var was, lived := log, alive;
        ok, pid, named := LivePID(u);
        TalliedOn(old(log), old(alive), was, lived, log, alive);
        if !ok {
          return;
        }
        if pid > 0 {
          return true;
        }
      }
      return false;
    }

    /** Make room for a unit's daemon: the one its pid file names is ended if it has
        the wrong configuration, the pid file goes, and leftovers go. */
    method ClearTheWay(u: Unit, pid: int, named: int, ghost since: nat) returns (ok: bool)
      requires since <= |log| && Safe(log) && (pid == named || pid == 0) && named >= 0
      requires pid == 0 && named > 0 ==> EndedIn(log, since, |log|, named)
      modifies this`pids, this`alive, this`log, this`t
      ensures t > old(t) && Tallied(old(log), old(alive), log, alive) && Safe(log)
      ensures ok ==> pids == old(pids) - {u}
      ensures !ok ==> pids == old(pids) || pids == old(pids) - {u}
      ensures ok && named > 0 ==> EndedIn(log, since, |log|, named)
      ensures pid > 0 && env.fails(old(t)) ==> !ok && pids == old(pids) && alive == old(alive) && t == old(t) + 1
    {
      if pid > 0 {
        ok := Terminate(pid);
        if !ok {
          GrewIsSafe(old(log), log);
          return;
        }
        ghost var j :| |old(log)| <= j < |log| && log[j] == Ended(pid);
        ghost var was, lived := log, alive;
        ok := RemovePidFile(u);
        TalliedOn(old(log), old(alive), was, lived, log, alive);
        assert log[j] == Ended(pid);
        GrewIsSafe(old(log), log);
      } else {
        ok := RemovePidFile(u);
        if ok {
          ghost var was, lived := log, alive;
          ok := StopStrays();
          TalliedOn(old(log), old(alive), was, lived, log, alive);
        }
        GrewIsSafe(old(log), log);
        if named > 0 {
          ghost var j :| since <= j < |old(log)| && old(log)[j] == Ended(named);
          assert log[j] == Ended(named);
        }
      }
    }

    /** Start a unit unless it is already running the configuration on disk. It then
        serves the wanted text exactly when the text changed, or its daemon was not
        found live, or that one served it already. */
    method StartProcess(u: Unit, changed: bool, wanted: string) returns (ok: bool)
      requires u in conf && conf[u] == wanted && Safe(log)
      modifies this`pids, this`alive, this`runs, this`log, this`t
      ensures t > old(t) && old(log) <= log && Safe(log)
      ensures ok ==> Up(u)
      ensures forall v :: v != u ==> (v in pids <==> v in old(pids)) && (v in pids ==> pids[v] == old(pids)[v])
      ensures ok ==> (pids == old(pids) && !changed && old(Up(u))) || exists k :: old(t) <= k < t && BornAs(k, u)
      ensures ok ==> (Serves(u, wanted) <==> changed || !old(Lives(u)) || old(Serves(u, wanted)))
      ensures !changed && old(Lives(u)) ==> log == old(log) && pids == old(pids) && alive == old(alive) && runs == old(runs)
      ensures ok && !changed && old(Lives(u)) ==> t == old(t) + 2
      ensures ok && old(Up(u)) && !old(Lives(u)) ==> EndedIn(log, |old(log)|, |log|, old(pids)[u])
      ensures forall p :: Unborn(old(t), p) ==> Followed(old(log), old(alive), log, alive, p) && SameRun(old(runs), runs, p)
      ensures old(Up(u)) && !changed && AnswersUntil(old(t), 2) ==> ok
      ensures old(Up(u)) && changed && RefusesStop(old(t)) ==>
                !ok && t == old(t) + 3 && pids == old(pids) && alive == old(alive) && runs == old(runs)
    {
      var since := |log|;
      var pid, named;
      ok, pid, named := LivePID(u);
      GrewIsSafe(old(log), log);
      TalliedFollows(old(log), old(alive), log, alive);
      if !ok {
        return;
      }
      if pid > 0 && !changed {
        return true;
      }
      ghost var looked, found, now := log, alive, t;
      ok := Respawn(u, wanted, pid, named, since);
      EndedOn(looked, log, |old(log)|, named);
      forall p | Unborn(old(t), p) ensures Followed(old(log), old(alive), log, alive, p) && SameRun(old(runs), runs, p) {
        assert Unborn(now, p);
        FollowedOn(old(log), old(alive), looked, found, log, alive, p);
      }
    }

    /** Make room for a unit's daemon, run it, and wait for its pid file. */
    method Respawn(u: Unit, wanted: string, pid: int, named: int, since: nat) returns (ok: bool)
      requires u in conf && conf[u] == wanted && Safe(log)
      requires since <= |log| && (pid == named || pid == 0) && named >= 0
      requires pid == 0 && named > 0 ==> EndedIn(log, since, |log|, named)
      modifies this`pids, this`alive, this`runs, this`log, this`t
      ensures t > old(t) && old(log) <= log && Safe(log)
      ensures forall v :: v != u ==> (v in pids <==> v in old(pids)) && (v in pids ==> pids[v] == old(pids)[v])
      ensures ok ==> Up(u) && Serves(u, wanted) && exists k :: old(t) <= k < t && BornAs(k, u)
      ensures forall p :: Unborn(old(t), p) ==> Followed(old(log), old(alive), log, alive, p) && SameRun(old(runs), runs, p)
      ensures pid > 0 && env.fails(old(t)) ==> !ok && pids == old(pids) && alive == old(alive) && runs == old(runs) && t == old(t) + 1
    {
      ok := ClearTheWay(u, pid, named, since);
      if !ok {
        return;
      }
      ghost var k, cleared, left := t, log, alive;
      ok := Spawn(u, wanted, named, since);
      ghost var spawned, living := log, alive;
      SpawnFollowed(old(t), old(log), old(alive), cleared, left, spawned, living);
      if !ok {
        return;
      }
      ok := AwaitPID(u);
      assert BornAs(k, u);
      GrewIsSafe(spawned, log);
      forall p | Unborn(old(t), p) ensures Followed(old(log), old(alive), log, alive, p) {
        FollowedOn(old(log), old(alive), spawned, living, log, alive, p);
      }
    }

    /** A spawn ends nobody and adds nobody but the one born. */
    lemma SpawnFollowed(from: nat, a: seq<Event>, alive: set<int>, b: seq<Event>, some: set<int>, c: seq<Event>, left: set<int>)
      requires Tallied(a, alive, b, some) && b <= c && forall j :: |b| <= j < |c| ==> !c[j].Ended?
      requires forall p :: Unborn(from, p) ==> (p in left <==> p in some)
      ensures forall p :: Unborn(from, p) ==> Followed(a, alive, c, left, p)
    {
      forall p | Unborn(from, p) ensures Followed(a, alive, c, left, p) {
        EndedOn(b, c, |a|, p);
      }
    }

    /** No process is born with this number from a time on. */
    ghost predicate Unborn(from: nat, p: int) {
      forall k :: k >= from ==> env.born(k) != Some(p)
    }

    /** The pid file names the process born at k. */
    ghost predicate BornAs(k: nat, u: Unit)
      reads this`pids
    {
      env.born(k).Some? && u in pids && pids[u] == env.born(k).value
    }

    /** Write a configuration only when it differs from what is on disk. */
    method WriteIfChanged(u: Unit, content: string) returns (ok: bool, changed: bool)
      modifies this`conf, this`log, this`t
      ensures t > old(t) && Tallied(old(log), alive, log, alive)
      ensures if ok then conf == old(conf)[u := content] else conf == old(conf)
      ensures ok ==> (changed <==> u !in old(conf) || old(conf)[u] != content) && t == old(t) + if changed then 2 else 1
      ensures !ok || !changed ==> log == old(log)
      ensures AnswersUntil(old(t), if old(Differs(u, content)) then 2 else 1) ==> ok
    {
      assert Answers(t) ==> !env.fails(t);
      assert Answers(t + 1) ==> !env.fails(t + 1);
      t := t + 1;
      if env.fails(t - 1) {
        return false, false;
      }
      if u in conf && conf[u] == content {
        assert conf == conf[u := content];
        return true, false;
      }
      t := t + 1;
      if env.fails(t - 1) {
        return false, false;
      }
      conf := conf[u := content];
      log := log + [Wrote(u)];
      return true, true;
    }

    /** Clear a soft block, and remember whose it was once a second reading shows
        that it worked. */
    method EnsureRadioUnblocked(r: Clearing) returns (ok: bool)
      modifies this`radios, this`unblocked
      ensures radios == RadioAfterStart(old(radios), r)
      ensures unblocked == RecordedAfterStart(old(radios), r, old(unblocked))
      ensures ok <==> Usable(old(radios), r)
    {
      if !r.first {
        return true;
      }
      if AnyHard(radios) {
        return false;
      }
      if !AnySoft(radios) {
        return true;
      }
      var wereBlocked := [];
      for i := 0 to |radios|
        invariant wereBlocked == SoftOnly(radios[..i])
      {
        assert radios[..i + 1][..i] == radios[..i];
        if radios[i].wireless && radios[i].soft && !radios[i].hard {
          wereBlocked := wereBlocked + [radios[i].index];
        }
      }
      assert radios[..|radios|] == radios;
      if Acts(r.unblock) {
        radios := Unblock(radios);
      }
      if r.unblock.Errs? {
        return false;
      }
      if !r.second {
        return true;
      }
      if AnySoft(radios) || AnyHard(radios) {
        return false;
      }
      unblocked := wereBlocked;
      return true;
    }

    /** Put back the soft blocks this program cleared. */
    method ReblockRadio(r: Restoring) returns (ok: bool)
      modifies this`radios, this`unblocked
      ensures radios == RadioAfterStop(old(radios), old(unblocked), r) && unblocked == []
      ensures ok <==> PutBack(old(radios), old(unblocked), r)
    {
      var ours := unblocked;
      unblocked := [];
      if |ours| == 0 {
        return true;
      }
      if !r.first {
        return false;
      }
      var now := radios;
      ok := true;
      for i := 0 to |ours|
        invariant radios == Reblock(now, ours[..i], r.block) && unblocked == []
        invariant ok <==> forall k :: 0 <= k < i && Open(now, ours[k]) ==> !r.block(ours[k]).Errs?
      {
        assert ours[..i + 1][..i] == ours[..i];
        if !Open(now, ours[i]) {
          continue;
        }
        if Acts(r.block(ours[i])) {
          radios := BlockOne(radios, ours[i]);
        }
        ok := ok && !r.block(ours[i]).Errs?;
      }
      assert ours[..|ours|] == ours;
      if !ok || !r.second {
        return false;
      }
      for i := 0 to |ours|
        invariant ok <==> forall k :: 0 <= k < i ==> !Open(radios, ours[k])
      {
        ok := ok && !Open(radios, ours[i]);
      }
    }

    /** The live process of a unit was started with the configuration on disk. */
    ghost predicate InSync(u: Unit)
      reads this
    {
      Up(u) ==> u in conf && Serves(u, conf[u])
    }

    /** The process the pid file names was started with a text. */
    ghost predicate Serves(u: Unit, text: string)
      reads this`pids, this`runs
    {
      u in pids && pids[u] in runs && runs[pids[u]] == text
    }

    /** No process is born with a number that was used before. */
    ghost predicate FreshBirths(from: nat, used: set<int>) {
      && (forall k :: k >= from && env.born(k).Some? ==> env.born(k).value !in used)
      && (forall j, k :: from <= j < k && env.born(j).Some? && env.born(k).Some? ==> env.born(j) != env.born(k))
    }

    /** A number in use is not born again, nor is one that was born. */
    lemma BornOnce(from: nat, used: set<int>, now: nat)
      requires from <= now
      ensures FreshBirths(from, used) ==> forall p :: p in used ==> Unborn(from, p)
      ensures FreshBirths(from, used) ==> forall k :: from <= k < now && env.born(k).Some? ==> Unborn(now, env.born(k).value)
    {
    }

    /** Both configurations are on disk as planned, and both daemons will be found live
        when a start with this plan looks for them. */
    ghost predicate Steady(plan: Plan)
      reads this
    {
      Written(plan) && FoundLive(Hostapd, plan, 0) && FoundLive(Dnsmasq, plan, 2)
    }

    /** Both daemons are live and only the access point's configuration is not as
        planned. */
    ghost predicate Outdated(plan: Plan)
      reads this
    {
      && Hostapd in conf && conf[Hostapd] != plan.hostapd && Dnsmasq in conf && conf[Dnsmasq] == plan.dnsmasq
      && Up(Hostapd) && Up(Dnsmasq)
    }

    ghost predicate Written(plan: Plan)
      reads this`conf
    {
      Hostapd in conf && conf[Hostapd] == plan.hostapd && Dnsmasq in conf && conf[Dnsmasq] == plan.dnsmasq
    }

    /** The configuration on disk is not this one. */
    ghost predicate Differs(u: Unit, text: string)
      reads this`conf
    {
      u !in conf || conf[u] != text
    }

    /** How many calls reading both files, and writing those that differ, takes. */
    ghost function Writes(plan: Plan): nat
      reads this`conf
    {
      2 + (if Differs(Hostapd, plan.hostapd) then 1 else 0) + (if Differs(Dnsmasq, plan.dnsmasq) then 1 else 0)
    }

    /** The two configurations. */
    method WriteBoth(plan: Plan) returns (ok: bool, ap: bool, dns: bool)
      modifies this`conf, this`log, this`t
      ensures t > old(t) && Tallied(old(log), alive, log, alive)
      ensures ok ==> conf == old(conf)[Hostapd := plan.hostapd][Dnsmasq := plan.dnsmasq]
      ensures ok ==> (ap <==> old(Differs(Hostapd, plan.hostapd))) && (dns <==> old(Differs(Dnsmasq, plan.dnsmasq)))
      ensures ok ==> t == old(t) + old(Writes(plan))
      ensures old(Written(plan)) ==> log == old(log) && conf == old(conf)
      ensures AnswersUntil(old(t), old(Writes(plan))) ==> ok
    {
      dns := false;
      ok, ap := WriteIfChanged(Hostapd, plan.hostapd);
      if ok {
        ghost var was := log;
        ok, dns := WriteIfChanged(Dnsmasq, plan.dnsmasq);
        TalliedOn(old(log), alive, was, alive, log, alive);
      }
    }

    /** The daemon a unit's pid file names will be found live when a start with this plan
        looks for it, so many calls after writing the files. */
    ghost predicate FoundLive(u: Unit, plan: Plan, later: nat)
      reads this
    {
      Up(u) && !env.exits(t + Writes(plan) + later + 1)
    }

    /** Bring the hotspot up. Where both daemons live and both configurations are on
        disk as planned, nothing is written, signalled or spawned, whatever fails on
        the way. The access point's
        daemon then serves the plan exactly when its file differed, or it was not
        found live, or it served the plan before; the other one by the same rule,
        with what the record shows of its end in the meantime. */
    method Start(plan: Plan, r: Clearing) returns (ok: bool)
      requires Safe(log)
      modifies this
      ensures Safe(log) && old(log) <= log
      ensures radios == RadioAfterStart(old(radios), r)
      ensures unblocked == RecordedAfterStart(old(radios), r, old(unblocked))
      ensures ok ==> Written(plan)
      ensures old(Steady(plan)) ==>
                log == old(log) && conf == old(conf) && pids == old(pids) && alive == old(alive) && runs == old(runs)
      ensures old(Steady(plan)) && AnswersUntil(old(t), 6) && Usable(old(radios), r) ==> ok
      ensures old(Outdated(plan)) && Usable(old(radios), r)
                && AnswersUntil(old(t), 3) && RefusesStop(old(t) + 3) ==>
                !ok && Written(plan) && Up(Hostapd) && Up(Dnsmasq) && pids == old(pids) && runs == old(runs) && t == old(t) + 6
      ensures ok && FreshBirths(old(t), old(runs.Keys + pids.Values)) ==>
                (Serves(Hostapd, plan.hostapd) <==>
                   || old(Differs(Hostapd, plan.hostapd)) || !old(FoundLive(Hostapd, plan, 0)) || old(Serves(Hostapd, plan.hostapd)))
      ensures ok && FreshBirths(old(t), old(runs.Keys + pids.Values)) ==>
                (Serves(Dnsmasq, plan.dnsmasq) <==>
                   || old(Differs(Dnsmasq, plan.dnsmasq)) || old(Serves(Dnsmasq, plan.dnsmasq))
                   || !old(Up(Dnsmasq)) || EndedIn(log, |old(log)|, |log|, old(pids)[Dnsmasq]))
      ensures ok && !old(Differs(Hostapd, plan.hostapd)) && old(FoundLive(Hostapd, plan, 0)) ==>
                (Serves(Dnsmasq, plan.dnsmasq) <==>
                   || old(Differs(Dnsmasq, plan.dnsmasq)) || old(Serves(Dnsmasq, plan.dnsmasq)) || !old(FoundLive(Dnsmasq, plan, 2)))
      ensures ok && old(InSync(Hostapd)) && old(InSync(Dnsmasq)) && FreshBirths(old(t), old(runs.Keys + pids.Values)) ==>
                Serves(Hostapd, plan.hostapd) && Serves(Dnsmasq, plan.dnsmasq)
    {
      ok := EnsureRadioUnblocked(r);
      if !ok {
        return;
      }
      ok := StartDaemons(plan);
    }

    /** The files, then each daemon that is not already running what they say. */
    method StartDaemons(plan: Plan) returns (ok: bool)
      requires Safe(log)
      modifies this`conf, this`pids, this`alive, this`runs, this`log, this`t
      ensures Safe(log) && old(log) <= log
      ensures ok ==> Written(plan)
      ensures old(Steady(plan)) ==>
                log == old(log) && conf == old(conf) && pids == old(pids) && alive == old(alive) && runs == old(runs)
      ensures old(Steady(plan)) && AnswersUntil(old(t), 6) ==> ok
      ensures old(Outdated(plan)) && AnswersUntil(old(t), 3) && RefusesStop(old(t) + 3) ==>
                !ok && Written(plan) && Up(Hostapd) && Up(Dnsmasq) && pids == old(pids) && runs == old(runs) && t == old(t) + 6
      ensures ok && FreshBirths(old(t), old(runs.Keys + pids.Values)) ==>
                (Serves(Hostapd, plan.hostapd) <==>
                   || old(Differs(Hostapd, plan.hostapd)) || !old(FoundLive(Hostapd, plan, 0)) || old(Serves(Hostapd, plan.hostapd)))
      ensures ok && FreshBirths(old(t), old(runs.Keys + pids.Values)) ==>
                (Serves(Dnsmasq, plan.dnsmasq) <==>
                   || old(Differs(Dnsmasq, plan.dnsmasq)) || old(Serves(Dnsmasq, plan.dnsmasq))
                   || !old(Up(Dnsmasq)) || EndedIn(log, |old(log)|, |log|, old(pids)[Dnsmasq]))
      ensures ok && !old(Differs(Hostapd, plan.hostapd)) && old(FoundLive(Hostapd, plan, 0)) ==>
                (Serves(Dnsmasq, plan.dnsmasq) <==>
                   || old(Differs(Dnsmasq, plan.dnsmasq)) || old(Serves(Dnsmasq, plan.dnsmasq)) || !old(FoundLive(Dnsmasq, plan, 2)))
    {
      var ap, dns;
      ok, ap, dns := WriteBoth(plan);
      GrewIsSafe(old(log), log);
      if !ok {
        return;
      }
      ghost var written := log;
      ok := StartBoth(plan, ap, dns);
      if Dnsmasq in old(pids) {
        EndedOn(written, log, |old(log)|, old(pids)[Dnsmasq]);
      }
    }

    /** Four calls answered are two for each unit, and the first unit's daemon is found. */
    lemma AnswersTwice(from: nat)
      ensures AnswersUntil(from, 4) ==> AnswersUntil(from, 2) && AnswersUntil(from + 2, 2) && !env.exits(from + 1)
    {
      assert AnswersUntil(from, 4) ==> Answers(from + 1);
    }

    method StartBoth(plan: Plan, ap: bool, dns: bool) returns (ok: bool)
      requires Safe(log) && Hostapd in conf && conf[Hostapd] == plan.hostapd && Dnsmasq in conf && conf[Dnsmasq] == plan.dnsmasq
      modifies this`pids, this`alive, this`runs, this`log, this`t
      ensures Safe(log) && old(log) <= log
      ensures !ap && !dns && old(Lives(Hostapd)) && old(Up(Dnsmasq)) && !env.exits(old(t) + 3) ==>
                log == old(log) && pids == old(pids) && alive == old(alive) && runs == old(runs)
      ensures !ap && !dns && old(Up(Hostapd)) && old(Up(Dnsmasq)) && AnswersUntil(old(t), 4) ==> ok
      ensures ap && old(Up(Hostapd)) && RefusesStop(old(t)) ==>
                !ok && t == old(t) + 3 && pids == old(pids) && alive == old(alive) && runs == old(runs)
      ensures ok && FreshBirths(old(t), old(runs.Keys + pids.Values)) ==>
                (Serves(Hostapd, plan.hostapd) <==> ap || !old(Lives(Hostapd)) || old(Serves(Hostapd, plan.hostapd)))
      ensures ok && FreshBirths(old(t), old(runs.Keys + pids.Values)) ==>
                (Serves(Dnsmasq, plan.dnsmasq) <==>
                   || dns || old(Serves(Dnsmasq, plan.dnsmasq))
                   || !old(Up(Dnsmasq)) || EndedIn(log, |old(log)|, |log|, old(pids)[Dnsmasq]))
      ensures ok && !ap && old(Lives(Hostapd)) ==>
                (Serves(Dnsmasq, plan.dnsmasq) <==>
                   || dns || old(Serves(Dnsmasq, plan.dnsmasq)) || !(old(Up(Dnsmasq)) && !env.exits(old(t) + 3)))
    {
      AnswersTwice(t);
      ok := StartProcess(Hostapd, ap, plan.hostapd);
      if !ok {
        return;
      }
      ghost var was := log;
      BornOnce(old(t), old(runs.Keys + pids.Values), t);
      assert Dnsmasq in pids ==> old(pids)[Dnsmasq] in old(pids.Values);
      assert Hostapd in old(pids) ==> old(pids)[Hostapd] in old(pids.Values);
      assert FreshBirths(old(t), old(runs.Keys + pids.Values)) ==> Unborn(t, pids[Hostapd]);
      ok := StartProcess(Dnsmasq, dns, plan.dnsmasq);
      if Dnsmasq in old(pids) {
        EndedOn(was, log, |old(log)|, old(pids)[Dnsmasq]);
      }
    }

    /** End the process a pid file names, then remove the file. */
    method StopByPIDFile(u: Unit) returns (ok: bool)
      modifies this`pids, this`alive, this`log, this`t
      ensures t > old(t) && Grew(old(log), log) && alive <= old(alive)
      ensures if ok then pids == old(pids) - {u} else pids == old(pids)
      ensures ok && u in old(pids) && old(pids)[u] > 0 ==> old(pids)[u] !in alive
    {
      var pid, named;
      ok, pid, named := LivePID(u);
      if !ok {
        return;
      }
      if pid > 0 {
        ok := Terminate(pid);
        if !ok {
          return;
        }
      } else if named > 0 {
        ghost var j :| |old(log)| <= j < |log| && log[j] == Ended(named);
      }
      ok := RemovePidFile(u);
    }

    method RemoveConf(u: Unit) returns (ok: bool)
      modifies this`conf, this`t
      ensures t > old(t)
      ensures if ok then conf == old(conf) - {u} else conf == old(conf)
    {
      t := t + 1;
      if env.fails(t - 1) {
        return false;
      }
      conf := conf - {u};
      return true;
    }

    /** One unit down: its daemon, leftovers of it, then its configuration. */
    method StopUnit(u: Unit) returns (ok: bool)
      modifies this`conf, this`pids, this`alive, this`log, this`t
      ensures t > old(t) && Grew(old(log), log) && alive <= old(alive)
      ensures ok ==> pids == old(pids) - {u} && conf == old(conf) - {u}
      ensures ok && u in old(pids) && old(pids)[u] > 0 ==> old(pids)[u] !in alive
    {
      var byFile := StopByPIDFile(u);
      var strays := StopStrays();
      var removed := RemoveConf(u);
      ok := byFile && strays && removed;
    }

    /** Take the hotspot down, past every failure, the radio last. */
    method Stop(r: Restoring) returns (ok: bool)
      requires Safe(log)
      modifies this
      ensures Safe(log) && old(log) <= log
      ensures radios == RadioAfterStop(old(radios), old(unblocked), r) && unblocked == []
      ensures ok ==> PutBack(old(radios), old(unblocked), r)
      ensures runs == old(runs) && alive <= old(alive)
      ensures ok ==> pids == map[] && conf == map[]
      ensures ok ==> forall u :: u in old(pids) && old(pids)[u] > 0 ==> old(pids)[u] !in alive
    {
      var ap := StopUnit(Hostapd);
      GrewIsSafe(old(log), log);
      ghost var mid := log;
      var dns := StopUnit(Dnsmasq);
      GrewIsSafe(mid, log);
      var radio := ReblockRadio(r);
      ok := ap && dns && radio;
      if ok {
        forall u: Unit ensures u !in pids && u !in conf && (u in old(pids) && old(pids)[u] > 0 ==> old(pids)[u] !in alive) {
          match u
          case Hostapd =>
          case Dnsmasq =>
        }
      }
    }
  }

  // --- the radio's round trip ------------------------------------------------

  predicate DistinctIndexes(rs: seq<Radio>) {
    forall i, j :: 0 <= i < j < |rs| ==> rs[i].index != rs[j].index
  }

  lemma {:induction false} SoftOnlyHas(rs: seq<Radio>, x: int)
    ensures x in SoftOnly(rs) <==> exists i :: 0 <= i < |rs| && rs[i].index == x && rs[i].wireless && rs[i].soft && !rs[i].hard
  {
    if rs != [] {
      var n := |rs| - 1;
      SoftOnlyHas(rs[..n], x);
      assert forall i :: 0 <= i < n ==> rs[..n][i] == rs[i];
    }
  }

  lemma {:induction false} ReblockAt(rs: seq<Radio>, ours: seq<int>, block: int -> Call, i: nat)
    requires i < |rs|
    ensures |Reblock(rs, ours, block)| == |rs|
    ensures Reblock(rs, ours, block)[i] ==
            if rs[i].index in ours && Open(rs, rs[i].index) && Acts(block(rs[i].index)) then rs[i].(soft := true) else rs[i]
  {
    if ours != [] {
      ReblockAt(rs, ours[..|ours| - 1], block, i);
      assert ours == ours[..|ours| - 1] + [ours[|ours| - 1]];
    }
  }

  lemma BlockReturns(rs: seq<Radio>, block: int -> Call, i: nat)
    requires DistinctIndexes(rs) && !AnyHard(rs) && i < |rs|
    ensures var back := Reblock(Unblock(rs), SoftOnly(rs), block);
            |back| == |rs| && (back[i] == rs[i] <==> !(rs[i].wireless && rs[i].soft) || Acts(block(rs[i].index)))
  {
    var us := Unblock(rs);
    ReblockAt(us, SoftOnly(rs), block, i);
    SoftOnlyHas(rs, rs[i].index);
    assert us[i].index == rs[i].index;
    if rs[i].wireless {
      assert Open(us, rs[i].index);
    }
  }

  /** Every block that a start cleared is put back by a command that acts. */
  predicate AllBlocked(rs: seq<Radio>, block: int -> Call) {
    forall i :: 0 <= i < |rs| && rs[i].wireless && rs[i].soft ==> Acts(block(rs[i].index))
  }

  /** When a start and then a stop leave every radio as it was found. */
  predicate RoundTrips(rs: seq<Radio>, r: Clearing, b: Restoring) {
    !Clears(rs, r) || !Acts(r.unblock) || (r.unblock.Does? && r.second && b.first && AllBlocked(rs, b.block))
  }

  /** A start and then a stop leave every radio's soft block as it was found, exactly
      when no block was cleared, or clearing it was reported a success and read back,
      and the stop could read the list and its blocks acted. */
  lemma RadioRoundTrip(rs: seq<Radio>, r: Clearing, b: Restoring)
    requires DistinctIndexes(rs)
    ensures RadioAfterStop(RadioAfterStart(rs, r), RecordedAfterStart(rs, r, []), b) == rs <==> RoundTrips(rs, r, b)
  {
    if Clears(rs, r) && Acts(r.unblock) {
      var i :| 0 <= i < |rs| && rs[i].wireless && rs[i].soft;
      assert !Unblock(rs)[i].soft;
      var back := Reblock(Unblock(rs), SoftOnly(rs), b.block);
      forall k | 0 <= k < |rs|
        ensures |back| == |rs| && (back[k] == rs[k] <==> !(rs[k].wireless && rs[k].soft) || Acts(b.block(rs[k].index)))
      {
        BlockReturns(rs, b.block, k);
      }
    }
  }

  /** A stop that reports no failure after a start that remembered what it cleared has
      put everything back: a block that only pretends to act is found out. */
  lemma ReportedPutBack(rs: seq<Radio>, r: Clearing, b: Restoring)
    requires DistinctIndexes(rs) && Clears(rs, r) && r.unblock.Does? && r.second
    ensures PutBack(Unblock(rs), SoftOnly(rs), b) ==> RoundTrips(rs, r, b)
  {
    if PutBack(Unblock(rs), SoftOnly(rs), b) {
      var us, ours := Unblock(rs), SoftOnly(rs);
      forall i | 0 <= i < |rs| && rs[i].wireless && rs[i].soft ensures b.first && Acts(b.block(rs[i].index)) {
        SoftOnlyHas(rs, rs[i].index);
        var k :| 0 <= k < |ours| && ours[k] == rs[i].index;
        ReblockAt(us, ours, b.block, i);
        assert us[i].index == rs[i].index;
        assert Open(us, ours[k]);
        assert !Open(Reblock(us, ours, b.block), ours[k]);
      }
      var i :| 0 <= i < |rs| && rs[i].wireless && rs[i].soft;
      assert b.first;
    }
  }

  /** One start and one stop of a fresh supervisor. */
  method StartThenStop(s: Supervisor, plan: Plan, r: Clearing, b: Restoring)
    requires Safe(s.log) && s.unblocked == [] && DistinctIndexes(s.radios)
    modifies s
    ensures Safe(s.log) && s.unblocked == []
    ensures s.radios == old(s.radios) <==> RoundTrips(old(s.radios), r, b)
  {
    RadioRoundTrip(s.radios, r, b);
    var _ := s.Start(plan, r);
    var _ := s.Stop(b);
  }

  /** A daemon that could not be stopped for a new configuration is kept, and the next
      start takes it for one that runs it: both files are as planned and both
      daemons live, so it does nothing and succeeds. */
  method StaleDaemonIsKept(s: Supervisor, plan: Plan, r: Clearing, again: Clearing, was: string) returns (first: bool, second: bool)
    requires Safe(s.log) && s.Outdated(plan) && s.Serves(Hostapd, was) && was != plan.hostapd
    requires Usable(s.radios, r) && Usable(RadioAfterStart(s.radios, r), again)
    requires s.AnswersUntil(s.t, 3) && s.RefusesStop(s.t + 3) && s.AnswersUntil(s.t + 6, 6)
    modifies s
    ensures !first && second && s.Written(plan) && s.Serves(Hostapd, was)
  {
    first := s.Start(plan, r);
    assert s.Answers(s.t + 3) && s.Answers(s.t + 5);
    second := s.Start(plan, again);
  }
}
