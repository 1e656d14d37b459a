// The engine's lifecycle and the tunnel devices and descriptors it holds.

module Engine {
  import opened Commands

  datatype Phase = Stopped | Starting | Running | Failed

  /** One device, by name and by the index it had when it was recorded. */
  datatype TunDevice = TunDevice(name: string, index: nat)

  /** What an instance took from the machine. */
  datatype TunHold = TunHold(devices: seq<TunDevice>, fds: set<nat>)

  /** The links of the machine by name, and this process's tunnel descriptors. */
  type Links = map<string, nat>

  datatype DeleteEnd = Deleted | Refused | Lingering

  /** How the kernel answers: the end of deleting a link, and whether a close works. */
  datatype Kernel = Kernel(delete: string -> DeleteEnd, closes: nat -> bool)

  /** One call of Start: whether the context is cancelled at the two points where it
      is looked at, whether the configuration loads, the tunnel names in it, what
      the core makes of it, and whether the instance then starts. */
  datatype Attempt = Attempt(cancelledFirst: bool, loads: bool, names: seq<string>, made: Links, newFds: set<nat>,
                             builds: bool, instance: nat, cancelledLater: bool, starts: bool)

  datatype Sys = Sys(phase: Phase, inst: Option<nat>, tun: Option<TunHold>, links: Links, fds: set<nat>)

  // --- the hold --------------------------------------------------------------

  function Devices(names: seq<string>, links: Links): seq<TunDevice> {
    if names == [] then []
    else
      var rest := Devices(names[..|names| - 1], links);
      var name := names[|names| - 1];
      if name in links then rest + [TunDevice(name, links[name])] else rest
  }

  function Removed(links: Links, d: TunDevice, k: Kernel): Links {
    if d.name in links && links[d.name] == d.index && k.delete(d.name).Deleted? then links - {d.name} else links
  }

  function RemovedAll(links: Links, ds: seq<TunDevice>, k: Kernel): Links {
    if ds == [] then links else Removed(RemovedAll(links, ds[..|ds| - 1], k), ds[|ds| - 1], k)
  }

  /** The descriptors left after closing some. */
  function Left(fds: set<nat>, closing: set<nat>, k: Kernel): set<nat> {
    set fd | fd in fds && !(fd in closing && k.closes(fd))
  }

  /** Releasing reports no error: each device is gone once its turn is over, and every
      descriptor closes. */
  predicate Cleanly(links: Links, h: TunHold, k: Kernel) {
    && (forall i :: 0 <= i < |h.devices| ==> h.devices[i].name !in RemovedAll(links, h.devices[..i + 1], k))
    && (forall fd :: fd in h.fds ==> k.closes(fd))
  }

  function Released(s: Sys, h: TunHold, k: Kernel): Sys {
    s.(links := RemovedAll(s.links, h.devices, k), fds := Left(s.fds, h.fds, k))
  }

  // --- start and stop as functions of the state ------------------------------

  /** The machine after core.New: what it made is there, whether it returned an
      instance or not. */
  function Built(s: Sys, a: Attempt): Sys {
    s.(links := s.links + a.made, fds := s.fds + a.newFds)
  }

  function Held(s: Sys, a: Attempt): TunHold {
    TunHold(Devices(a.names, Built(s, a).links), Built(s, a).fds - s.fds)
  }

  function Started(s: Sys, a: Attempt, k: Kernel): Sys {
    if s.phase == Running || a.cancelledFirst then s
    else if !a.loads then s.(phase := Failed)
    else if !a.builds || a.cancelledLater || !a.starts then Released(Built(s, a), Held(s, a), k).(phase := Failed)
    else Built(s, a).(phase := Running, inst := Some(a.instance), tun := Some(Held(s, a)))
  }

  function Ended(s: Sys, k: Kernel): Sys {
    var t := if s.tun.Some? then Released(s, s.tun.value, k) else s;
    t.(phase := Stopped, inst := None, tun := None)
  }

  class Engine {
    var phase: Phase
    var inst: Option<nat>
    var tun: Option<TunHold>
    /** The machine the engine runs on. */
    var links: Links
    var fds: set<nat>

    ghost function State(): Sys
      reads this
    {
      Sys(phase, inst, tun, links, fds)
    }

    constructor (links: Links, fds: set<nat>)
      ensures State() == Sys(Stopped, None, None, links, fds)
    {
      this.phase, this.inst, this.tun, this.links, this.fds := Stopped, None, None, links, fds;
    }

    method CaptureTunHold(names: seq<string>, before: set<nat>) returns (h: TunHold)
      ensures h == TunHold(Devices(names, links), fds - before)
    {
      var devices := [];
      for i := 0 to |names|
        invariant devices == Devices(names[..i], links)
      {
        assert names[..i + 1][..i] == names[..i];
        if names[i] !in links {
          continue;
        }
        devices := devices + [TunDevice(names[i], links[names[i]])];
      }
      assert names[..|names|] == names;
      h := TunHold(devices, fds - before);
    }

    /** Delete a device, but only if it is still the one that was recorded. */
    method RemoveTunDevice(d: TunDevice, k: Kernel) returns (ok: bool)
      modifies this`links
      ensures links == Removed(old(links), d, k)
      ensures ok <==> d.name !in links
    {
      if d.name !in links {
        return true;
      }
      if links[d.name] != d.index {
        return false;
      }
      var end := k.delete(d.name);
      if end.Deleted? {
        links := links - {d.name};
      }
      return end.Deleted?;
    }

    /** Delete the devices, past every failure. */
    method RemoveAll(ds: seq<TunDevice>, k: Kernel) returns (ok: bool)
      modifies this`links
      ensures links == RemovedAll(old(links), ds, k)
      ensures ok <==> forall i :: 0 <= i < |ds| ==> ds[i].name !in RemovedAll(old(links), ds[..i + 1], k)
    {
      ok := true;
      for i := 0 to |ds|
        invariant links == RemovedAll(old(links), ds[..i], k)
        invariant ok <==> forall j :: 0 <= j < i ==> ds[j].name !in RemovedAll(old(links), ds[..j + 1], k)
      {
        assert ds[..i + 1][..i] == ds[..i];
        var gone := RemoveTunDevice(ds[i], k);
        ok := ok && gone;
      }
      assert ds[..|ds|] == ds;
    }

    /** Close the descriptors, past every failure. */
    method CloseAll(closing: set<nat>, k: Kernel) returns (ok: bool)
      modifies this`fds
      ensures fds == Left(old(fds), closing, k)
      ensures ok <==> forall fd :: fd in closing ==> k.closes(fd)
    {
      ok := true;
      var todo := closing;
      while todo != {}
        invariant todo <= closing && fds == Left(old(fds), closing - todo, k)
        invariant ok <==> forall fd :: fd in closing - todo ==> k.closes(fd)
        decreases |todo|
      {
        var fd :| fd in todo;
        if k.closes(fd) {
          fds := fds - {fd};
        } else {
          assert fd in closing - (todo - {fd});
          ok := false;
        }
        todo := todo - {fd};
      }
      assert closing - {} == closing;
    }

    /** The devices, then the descriptors. */
    method Release(h: TunHold, k: Kernel) returns (ok: bool)
      modifies this`links, this`fds
      ensures links == RemovedAll(old(links), h.devices, k)
      ensures fds == Left(old(fds), h.fds, k)
      ensures ok <==> Cleanly(old(links), h, k)
    {
      var deleted := RemoveAll(h.devices, k);
      var closed := CloseAll(h.fds, k);
      ok := deleted && closed;
    }

    method Start(a: Attempt, k: Kernel) returns (ok: bool)
      modifies this
      ensures State() == Started(old(State()), a, k)
      ensures ok <==> phase == Running
    {
      if phase == Running {
        return true;
      }
      if a.cancelledFirst {
        return false;
      }
      phase := Starting;
      ok := BuildAndStart(a, k);
      if !ok {
        phase := Failed;
      }
    }

    method BuildAndStart(a: Attempt, k: Kernel) returns (ok: bool)
      requires phase == Starting
      modifies this
      ensures ok <==> a.loads && a.builds && !a.cancelledLater && a.starts
      ensures ok ==> State() == Built(old(State()), a).(phase := Running, inst := Some(a.instance), tun := Some(Held(old(State()), a)))
      ensures !ok && !a.loads ==> State() == old(State())
      ensures !ok && a.loads ==> State() == Released(Built(old(State()), a), Held(old(State()), a), k)
    {
      if !a.loads {
        return false;
      }
      var before := fds;
      links, fds := links + a.made, fds + a.newFds;
      var hold := CaptureTunHold(a.names, before);
      if !a.builds || a.cancelledLater || !a.starts {
        var _ := Release(hold, k);
        return false;
      }
      inst, tun := Some(a.instance), Some(hold);
      phase := Running;
      return true;
    }

    /** Stopped whatever is reported: an error says that closing the instance or
        giving something back failed. */
    method Stop(closes: bool, k: Kernel) returns (ok: bool)
      modifies this
      ensures State() == Ended(old(State()), k)
      ensures ok <==> (old(inst).Some? ==> closes) && (old(tun).Some? ==> Cleanly(old(links), old(tun).value, k))
    {
      ok := inst.None? || closes;
      var hold := tun;
      inst, tun := None, None;
      if hold.Some? {
        var released := Release(hold.value, k);
        ok := ok && released;
      }
      phase := Stopped;
    }
  }

  // --- what the kernel and the core are asked for ----------------------------

  ghost predicate Works(k: Kernel) {
    (forall n :: k.delete(n).Deleted?) && (forall fd :: k.closes(fd))
  }

  /** core.New makes only devices it was asked for, under names that were free, and
      opens new descriptors; when it returns an instance, every name is there. */
  predicate Behaves(a: Attempt, s: Sys) {
    && (forall n :: n in a.made ==> n in a.names && n !in s.links)
    && a.newFds !! s.fds
    && (a.builds ==> forall n :: n in a.names ==> n in s.links + a.made)
  }

  /** No interface of a configured name exists. */
  predicate Free(a: Attempt, links: Links) {
    forall n :: n in a.names ==> n !in links
  }

  // --- releasing -------------------------------------------------------------

  /** Links without some names. */
  function Without(links: Links, names: seq<string>): Links {
    map n | n in links && n !in names :: links[n]
  }

  /** Releasing what was just recorded takes away every configured name, whoever
      made the link. */
  lemma {:induction false} RemovesRecorded(links: Links, names: seq<string>, k: Kernel)
    requires Works(k)
    ensures RemovedAll(links, Devices(names, links), k) == Without(links, names)
  {
    if names != [] {
      var front, name := names[..|names| - 1], names[|names| - 1];
      RemovesRecorded(links, front, k);
      assert names == front + [name];
      if name in links {
        var ds := Devices(front, links);
        var d := TunDevice(name, links[name]);
        assert (ds + [d])[..|ds|] == ds;
        assert Removed(Without(links, front), d, k) == Without(links, names);
      } else {
        assert Without(links, front) == Without(links, names);
      }
    }
  }

  lemma LeftAll(fds: set<nat>, closing: set<nat>, k: Kernel)
    requires Works(k)
    ensures Left(fds, closing, k) == fds - closing
  {
  }

  /** A release that reports no error has left no recorded device and no recorded
      descriptor. */
  lemma {:induction false} CleanIsGone(links: Links, h: TunHold, fds: set<nat>, k: Kernel)
    requires Cleanly(links, h, k)
    ensures forall i :: 0 <= i < |h.devices| ==> h.devices[i].name !in RemovedAll(links, h.devices, k)
    ensures Left(fds, h.fds, k) !! h.fds
    decreases |h.devices|
  {
    var ds := h.devices;
    if ds != [] {
      var n := |ds| - 1;
      assert ds[..n + 1] == ds;
      forall i | 0 <= i < n ensures ds[..n][i].name !in RemovedAll(links, ds[..n][..i + 1], k) {
        assert ds[..n][..i + 1] == ds[..i + 1];
      }
      CleanIsGone(links, TunHold(ds[..n], h.fds), fds, k);
      forall i | 0 <= i < |ds| ensures ds[i].name !in RemovedAll(links, ds, k) {
        assert i < n ==> ds[i] == ds[..n][i];
      }
    }
  }

  // --- one call --------------------------------------------------------------

  /** A start that fails after the configuration loaded leaves the machine as it was
      exactly when no interface of a configured name existed; one that did exist is
      deleted with the rest. */
  lemma FailedStart(s: Sys, a: Attempt, k: Kernel)
    requires Works(k) && Behaves(a, s) && s.phase != Running && !a.cancelledFirst
    requires a.loads && !(a.builds && !a.cancelledLater && a.starts)
    ensures var t := Started(s, a, k); t.phase == Failed && t.fds == s.fds && t.links == Without(s.links, a.names)
    ensures Started(s, a, k).links == s.links <==> Free(a, s.links)
  {
    var b := Built(s, a);
    RemovesRecorded(b.links, a.names, k);
    LeftAll(b.fds, b.fds - s.fds, k);
    assert b.fds - (b.fds - s.fds) == s.fds;
    assert Without(b.links, a.names) == Without(s.links, a.names);
    assert Free(a, s.links) ==> Without(s.links, a.names) == s.links;
    if Without(s.links, a.names) == s.links {
      forall n | n in a.names ensures n !in s.links {
        assert n !in Without(s.links, a.names);
      }
    }
  }

  // --- whole runs ------------------------------------------------------------

  datatype Op = Start(a: Attempt) | Stop

  function Next(s: Sys, op: Op, k: Kernel): Sys {
    match op
    case Start(a) => Started(s, a, k)
    case Stop => Ended(s, k)
  }

  function Run(s: Sys, ops: seq<Op>, k: Kernel): Sys {
    if ops == [] then s else Next(Run(s, ops[..|ops| - 1], k), ops[|ops| - 1], k)
  }

  /** Running exactly while an instance is held, and with it a hold. */
  predicate Consistent(s: Sys) {
    (s.phase == Running <==> s.inst.Some?) && (s.inst.Some? <==> s.tun.Some?) && s.phase != Starting
  }

  /** Whatever fails, each return leaves the phase Running iff an instance is held. */
  lemma {:induction false} AlwaysConsistent(s: Sys, ops: seq<Op>, k: Kernel)
    requires Consistent(s)
    ensures Consistent(Run(s, ops, k))
  {
    if ops != [] {
      AlwaysConsistent(s, ops[..|ops| - 1], k);
    }
  }

  /** Every start in a run finds its names free and a core that behaves. */
  predicate Orderly(s: Sys, ops: seq<Op>, k: Kernel) {
    ops == [] ||
    var front, op := ops[..|ops| - 1], ops[|ops| - 1];
    && Orderly(s, front, k)
    && (op.Start? && Run(s, front, k).phase != Running ==> Behaves(op.a, Run(s, front, k)) && Free(op.a, Run(s, front, k).links))
  }

  /** What is open beyond the machine's own is exactly what the running instance
      made. */
  ghost predicate Exact(s: Sys, links: Links, fds: set<nat>) {
    && Consistent(s)
    && if s.phase == Running then
         && s.tun.value.fds !! fds && s.fds == fds + s.tun.value.fds
         && exists a :: HeldFor(s, a, links)
       else s.links == links && s.fds == fds
  }

  /** The links are the machine's own and those made for a, which the hold records. */
  ghost predicate HeldFor(s: Sys, a: Attempt, links: Links) {
    && s.tun.Some? && Free(a, links)
    && (forall n :: n in a.made <==> n in a.names)
    && s.links == links + a.made
    && s.tun.value.devices == Devices(a.names, s.links)
  }

  lemma StartKeepsExact(s: Sys, a: Attempt, k: Kernel, links: Links, fds: set<nat>)
    requires Works(k) && Exact(s, links, fds) && (s.phase != Running ==> Behaves(a, s) && Free(a, s.links))
    ensures Exact(Started(s, a, k), links, fds)
  {
    if s.phase != Running && !a.cancelledFirst && a.loads {
      if !a.builds || a.cancelledLater || !a.starts {
        FailedStart(s, a, k);
      } else {
        var t := Started(s, a, k);
        assert t.tun.value.fds == a.newFds;
        assert HeldFor(t, a, links);
      }
    }
  }

  lemma StopKeepsExact(s: Sys, k: Kernel, links: Links, fds: set<nat>)
    requires Works(k) && Exact(s, links, fds)
    ensures Exact(Ended(s, k), links, fds)
  {
    if s.phase == Running {
      var a :| HeldFor(s, a, links);
      RemovesRecorded(s.links, a.names, k);
      assert Without(links + a.made, a.names) == links;
      LeftAll(s.fds, s.tun.value.fds, k);
    }
  }

  /** Over any sequence of starts and stops, with failures anywhere, the devices and
      descriptors there beyond the machine's own are those of the running instance. */
  lemma {:induction false} NothingLeaks(links: Links, fds: set<nat>, ops: seq<Op>, k: Kernel)
    requires Works(k) && Orderly(Sys(Stopped, None, None, links, fds), ops, k)
    ensures Exact(Run(Sys(Stopped, None, None, links, fds), ops, k), links, fds)
  {
    if ops != [] {
      var s0 := Sys(Stopped, None, None, links, fds);
      var front, op := ops[..|ops| - 1], ops[|ops| - 1];
      NothingLeaks(links, fds, front, k);
      match op
      case Start(a) => StartKeepsExact(Run(s0, front, k), a, k, links, fds);
      case Stop => StopKeepsExact(Run(s0, front, k), k, links, fds);
    }
  }

  /** Somebody else's interface under a configured name is deleted by a start that
      the core refuses. */
  lemma SomebodyElsesDevice(name: string, index: nat, k: Kernel)
    requires Works(k)
    ensures var s := Sys(Stopped, None, None, map[name := index], {});
            var a := Attempt(false, true, [name], map[], {}, false, 0, false, false);
            Behaves(a, s) && Started(s, a, k).links == map[]
  {
    var s := Sys(Stopped, None, None, map[name := index], {});
    var a := Attempt(false, true, [name], map[], {}, false, 0, false, false);
    FailedStart(s, a, k);
  }
}
