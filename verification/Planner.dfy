// PlanNetwork: the uplink, the access point's interface and channel, the addresses
// and the servers, and the takeover that is tried when a radio refuses.

module Planner {
  import opened Commands
  import Combination
  import opened Subnet
  import opened Radio
  import opened Ladder
  import SystemSocks

  const DEFAULT_AP := "ap0"
  const DEFAULT_TUN := "xray0"

  /** Where the SOCKS listener is: on a loopback address or not, and its port. */
  datatype Listener = Listener(loopback: bool, port: nat)

  datatype Options = Options(tunName: string, apName: string, windows: bool, darwin: bool, uplinkOverride: string,
                             hotspotOverride: string, band: RadioBand, byHand: Option<Prefix>, hotspotPool: seq<Prefix>,
                             tunnelPool: seq<Prefix>, socks: Option<Listener>)

  /** The two rules for interface names: the kernel's, and the platform's. */
  datatype NameRules = NameRules(kernel: string -> bool, platform: string -> bool)

  function V4(a: nat, b: nat, c: nat, d: nat, bits: int): Prefix {
    Prefix(Addr(false, ((a * 256 + b) * 256 + c) * 256 + d), bits)
  }

  const HOTSPOT_POOL := [V4(10, 83, 51, 0, 24), V4(10, 174, 29, 0, 24), V4(172, 28, 113, 0, 24), V4(172, 19, 207, 0, 24),
                         V4(192, 168, 173, 0, 24), V4(192, 168, 221, 0, 24), V4(10, 41, 62, 0, 24), V4(10, 216, 7, 0, 24)]
  const TUNNEL_POOL := [V4(198, 18, 51, 0, 30), V4(198, 18, 83, 0, 30), V4(198, 19, 29, 0, 30)]

  const DEFAULT_OPTIONS := Options(DEFAULT_TUN, DEFAULT_AP, false, false, "", "", BandAuto, None, HOTSPOT_POOL, TUNNEL_POOL, None)

  /** Options as planned with: no tunnel name means all the defaults. */
  function Effective(o: Options): Options {
    var p := if o.tunName == "" then DEFAULT_OPTIONS else o;
    var q := if p.hotspotPool == [] then p.(hotspotPool := HOTSPOT_POOL) else p;
    if q.tunnelPool == [] then q.(tunnelPool := TUNNEL_POOL) else q
  }

  function ApName(o: Options): string {
    if o.apName == "" then DEFAULT_AP else o.apName
  }

  // --- what accepting a radio comes to ---------------------------------------

  /** The radio cannot share and its link is not the uplink: the link is ended. */
  ghost predicate TakesOver(c: Candidate, uplink: string) {
    c.station.name != "" && !Declares(c.phy) && c.station.name != uplink
  }

  /** The channel follows a link that is really there, on a radio with one channel. */
  ghost predicate Pins(c: Candidate) {
    c.station.name != "" && OneChannel(c.phy) && StationLink(c.station)
  }

  ghost function HotspotName(c: Candidate, uplink: string, o: Options): string {
    if TakesOver(c, uplink) then c.station.name
    else if c.station.name != "" then (if o.windows then c.station.name else ApName(o))
    else if c.iface.name != "" then c.iface.name
    else ApName(o)
  }

  /** An interface of its own has to be created for the access point. */
  ghost predicate Created(c: Candidate, uplink: string, o: Options) {
    if c.station.name != "" then !TakesOver(c, uplink) && !o.windows else c.iface.name == ""
  }

  ghost predicate NameAllowed(c: Candidate, uplink: string, o: Options, rules: NameRules) {
    var name := HotspotName(c, uplink, o);
    if Created(c, uplink, o) || TakesOver(c, uplink) then rules.kernel(name) else rules.platform(name)
  }

  /** The band of the link the channel is pinned to: the radio's list first, then
      the frequency measured on the link. */
  function PinnedBand(phy: Phy, station: WirelessIface): RadioBand {
    var listed := BandIn(phy.bands, station.channel);
    if listed == BandAuto && station.freqMHz > 0 then BandOf(station.freqMHz) else listed
  }

  ghost predicate ChannelAllowed(c: Candidate, band: RadioBand) {
    band == BandAuto || if Pins(c) then PinnedBand(c.phy, c.station) == band else !NoneUsable(c.phy, band)
  }

  ghost predicate Accepts(c: Candidate, uplink: string, o: Options, rules: NameRules) {
    && NameAllowed(c, uplink, o, rules)
    && Rank(c, uplink) < 4
    && ChannelAllowed(c, o.band)
  }

  /** The channel a radio that is not pinned is given. */
  ghost predicate FreeChannel(phy: Phy, band: RadioBand, ch: int) {
    if band != BandAuto then Lowest(phy, band, ch)
    else if !NoneUsable(phy, Band2GHz) then Lowest(phy, Band2GHz, ch)
    else if !NoneUsable(phy, BandAuto) then Lowest(phy, BandAuto, ch)
    else ch == 0
  }

  /** The first choice by hand, by interface or by radio name. */
  ghost predicate ByHand(cs: seq<Candidate>, name: string, k: int) {
    && 0 <= k < |cs| && (cs[k].iface.name == name || cs[k].phy.name == name)
    && forall j :: 0 <= j < k ==> cs[j].iface.name != name && cs[j].phy.name != name
  }

  /** The candidate that is asked: by hand, or the ladder's. */
  ghost predicate Picked(cs: seq<Candidate>, o: Options, uplink: string, k: int) {
    0 <= k < |cs| && if o.hotspotOverride != "" then ByHand(cs, o.hotspotOverride, k) else Best(cs, uplink, k)
  }

  /** There is none to ask, or it is not acceptable. */
  ghost predicate NoHotspot(f: Facts, o: Options, rules: NameRules, uplink: string) {
    var cs := Candidates(f.phys, f, uplink);
    forall k :: Picked(cs, o, uplink, k) ==> !Accepts(cs[k], uplink, o, rules)
  }

  lemma OneBest(cs: seq<Candidate>, uplink: string, k: int)
    requires Best(cs, uplink, k)
    ensures forall j :: Best(cs, uplink, j) ==> j == k
  {
    forall j | Best(cs, uplink, j) ensures j == k {
      assert Rank(cs[k], uplink) == Rank(cs[j], uplink) && Ahead(cs, k, j) && Ahead(cs, j, k);
    }
  }

  function RoutedBy(routes: seq<Route>, dev: string): Option<Route> {
    if routes == [] then None
    else if routes[0].dev == dev && routes[0].family == 4 then Some(routes[0])
    else RoutedBy(routes[1..], dev)
  }

  function Unmap(a: Addr): Addr {
    if a.v6 && a.value / 0x1_0000_0000 == 0xffff then Addr(false, a.value % 0x1_0000_0000) else a
  }

  /** An address that reaches nobody beyond the link, or beyond the machine. */
  predicate Local(a: Addr) {
    var u := Unmap(a);
    if u.v6 then Leading(u, 10) == 0x3fa || u.value == 1 else Leading(u, 16) == 0xa9fe || Leading(u, 8) == 127
  }

  /** An address that belongs to somebody else's network: not local, and not in the
      hotspot's own range. */
  predicate Foreign(p: Prefix, own: Option<Prefix>) {
    !Local(p.addr) && !(own.Some? && Valid(own.value) && Subnet.Contains(own.value, p.addr))
  }

  function ForeignOf(ps: seq<Prefix>, own: Option<Prefix>): seq<Prefix> {
    if ps == [] then []
    else ForeignOf(ps[..|ps| - 1], own) + if Foreign(ps[|ps| - 1], own) then [ps[|ps| - 1]] else []
  }

  /** What has to come off an interface before anything serves on it. */
  function StationPrefixes(f: Facts, name: string, own: Option<Prefix>): seq<Prefix> {
    match LinkByName(f.links, name)
    case None => []
    case Some(l) => ForeignOf(l.prefixes, own)
  }

  method ForeignPrefixes(f: Facts, name: string, own: Option<Prefix>) returns (out: seq<Prefix>)
    ensures out == StationPrefixes(f, name, own)
  {
    out := [];
    var link := LinkByName(f.links, name);
    if link.None? {
      return;
    }
    var ps := link.value.prefixes;
    for i := 0 to |ps|
      invariant out == ForeignOf(ps[..i], own)
    {
      assert ps[..i + 1][..i] == ps[..i];
      if Local(ps[i].addr) {
        continue;
      }
      if own.Some? && Valid(own.value) && Subnet.Contains(own.value, ps[i].addr) {
        continue;
      }
      out := out + [ps[i]];
    }
    assert ps[..|ps|] == ps;
  }

  lemma {:induction false} ForeignHas(ps: seq<Prefix>, own: Option<Prefix>, p: Prefix)
    ensures p in ForeignOf(ps, own) <==> p in ps && Foreign(p, own)
  {
    if ps != [] {
      ForeignHas(ps[..|ps| - 1], own, p);
      assert ps == ps[..|ps| - 1] + [ps[|ps| - 1]];
    }
  }

  /** Exactly the foreign addresses of the interface come off: what stays is local, or
      the hotspot's own from an earlier run. */
  lemma StaysLocal(f: Facts, name: string, own: Option<Prefix>, l: Link, p: Prefix)
    requires LinkByName(f.links, name) == Some(l) && p in l.prefixes
    ensures p !in StationPrefixes(f, name, own) <==>
            Local(p.addr) || (own.Some? && Valid(own.value) && Subnet.Contains(own.value, p.addr))
  {
    ForeignHas(l.prefixes, own, p);
  }

  /** The valid servers, an IPv4 address in IPv6 clothing as IPv4. */
  function Servers(servers: seq<Option<Addr>>): seq<Addr> {
    if servers == [] then []
    else
      var rest := Servers(servers[..|servers| - 1]);
      match servers[|servers| - 1]
      case None => rest
      case Some(a) => rest + [Unmap(a)]
  }

  /** A route to it can be pinned: there is a default route of its family. */
  predicate Pinnable(a: Addr, hasV6: bool) {
    !a.v6 || hasV6
  }

  predicate SomePinnable(servers: seq<Addr>, hasV6: bool) {
    exists i :: 0 <= i < |servers| && Pinnable(servers[i], hasV6)
  }

  /** The servers, those no route can be pinned to, and whether any is left. */
  method PinServers(given: seq<Option<Addr>>, hasV6: bool) returns (ok: bool, servers: seq<Addr>, unpinnable: seq<Addr>)
    ensures servers == Servers(given)
    ensures forall a :: a in unpinnable <==> a in servers && !Pinnable(a, hasV6)
    ensures ok <==> SomePinnable(servers, hasV6)
  {
    servers, unpinnable := [], [];
    for i := 0 to |given|
      invariant servers == Servers(given[..i])
    {
      assert given[..i + 1][..i] == given[..i];
      if given[i].Some? {
        servers := servers + [Unmap(given[i].value)];
      }
    }
    assert given[..|given|] == given;
    for i := 0 to |servers|
      invariant |unpinnable| <= i
      invariant |unpinnable| < i <==> SomePinnable(servers[..i], hasV6)
      invariant forall a :: a in unpinnable <==> a in servers[..i] && !Pinnable(a, hasV6)
    {
      assert servers[..i + 1] == servers[..i] + [servers[i]];
      assert SomePinnable(servers[..i + 1], hasV6) <==> SomePinnable(servers[..i], hasV6) || Pinnable(servers[i], hasV6) by {
        if SomePinnable(servers[..i], hasV6) {
          var k :| 0 <= k < i && Pinnable(servers[..i][k], hasV6);
          assert Pinnable(servers[..i + 1][k], hasV6);
        }
        assert servers[..i + 1][i] == servers[i];
      }
      if Pinnable(servers[i], hasV6) {
        continue;
      }
      unpinnable := unpinnable + [servers[i]];
    }
    assert servers[..|servers|] == servers;
    ok := |servers| > 0 && |unpinnable| < |servers|;
  }

  /** The part of a plan that says where the access point runs. */
  datatype AccessPoint = AccessPoint(phy: string, name: string, isVirtual: bool, parent: string, fallback: string,
                                     takenOver: bool, manager: Manager, channel: int, pinned: bool, usable: seq<int>)

  /** The access point runs on c as the options ask. */
  ghost predicate RunsOn(a: AccessPoint, uplink: string, c: Candidate, o: Options) {
    && a.phy == c.phy.name
    && Sorted(a.usable) && multiset(a.usable) == multiset(ChannelsIn(Flat(c.phy.bands), BandAuto))
    && a.name == HotspotName(c, uplink, o)
    && a.isVirtual == Created(c, uplink, o)
    && a.takenOver == TakesOver(c, uplink)
    && a.parent == (if a.isVirtual then c.station.name else "")
    && a.fallback == (if a.isVirtual && c.station.name != uplink then c.station.name else "")
    && a.manager == (if a.isVirtual then ManagedByUnknown else if c.station.name != "" then c.station.manager else c.iface.manager)
    && a.pinned == Pins(c) && ChannelAllowed(c, o.band)
    && if a.pinned then a.channel == c.station.channel else FreeChannel(c.phy, o.band, a.channel)
  }

  ghost predicate ChosenAt(a: AccessPoint, uplink: string, f: Facts, o: Options, k: int) {
    var cs := Candidates(f.phys, f, uplink);
    && 0 <= k < |cs| && RunsOn(a, uplink, cs[k], o)
    && if o.hotspotOverride != "" then ByHand(cs, o.hotspotOverride, k) else Best(cs, uplink, k)
  }

  /** It runs on the radio named by hand, or else the best there is. */
  ghost predicate WellChosen(a: AccessPoint, uplink: string, f: Facts, o: Options) {
    exists k :: ChosenAt(a, uplink, f, o, k)
  }

  class Plan {
    var wirelessUplink: bool
    var uplink: string
    var hasV6: bool
    var hotspot: string
    var hotspotPhy: string
    var isVirtual: bool
    var parent: string
    var fallback: string
    var takenOver: bool
    var manager: Manager
    var channel: int
    var channelPinned: bool
    var usableChannel: seq<int>
    var subnets: Option<Subnets>
    var stationPrefixes: seq<Prefix>
    var socks: seq<SystemSocks.Measured>
    var tun: string
    var servers: seq<Addr>
    var unpinnable: seq<Addr>

    constructor (uplink: string, hasV6: bool, tun: string, socks: seq<SystemSocks.Measured>)
      ensures Blank() && this.uplink == uplink && this.hasV6 == hasV6 && this.tun == tun && this.socks == socks
    {
      this.uplink, this.hasV6, this.tun := uplink, hasV6, tun;
      wirelessUplink, hotspot, hotspotPhy, isVirtual, parent, fallback, takenOver := false, "", "", false, "", "", false;
      manager, channel, channelPinned, usableChannel := ManagedByUnknown, 0, false, [];
      subnets, servers, unpinnable, stationPrefixes, this.socks := None, [], [], [], socks;
    }

    /** The plan on the fallback interface of another plan. */
    constructor Fallback(p: Plan, manager: Manager, stationPrefixes: seq<Prefix>)
      ensures Inherits(this, p) && this.manager == manager && this.stationPrefixes == stationPrefixes
    {
      this.stationPrefixes, socks := stationPrefixes, p.socks;
      wirelessUplink, uplink, hasV6, hotspotPhy, fallback := p.wirelessUplink, p.uplink, p.hasV6, p.hotspotPhy, p.fallback;
      subnets, tun, servers, unpinnable, usableChannel := p.subnets, p.tun, p.servers, p.unpinnable, p.usableChannel;
      hotspot, isVirtual, parent, takenOver, this.manager := p.fallback, false, "", true, manager;
      channelPinned := false;
      channel := if |p.usableChannel| > 0 then p.usableChannel[0] else 0;
    }

    /** No access point decided yet. */
    ghost predicate Blank()
      reads this
    {
      && hotspot == "" && !isVirtual && parent == "" && fallback == "" && !takenOver
      && manager == ManagedByUnknown && channel == 0 && !channelPinned && stationPrefixes == []
    }

    ghost function Decided(): AccessPoint
      reads this
    {
      AccessPoint(hotspotPhy, hotspot, isVirtual, parent, fallback, takenOver, manager, channel, channelPinned, usableChannel)
    }

    /** Choose a channel, or refuse the band. */
    method ChooseChannel(phy: Phy, band: RadioBand) returns (ok: bool)
      requires channel == 0 && Sorted(usableChannel)
      requires multiset(usableChannel) == multiset(ChannelsIn(Flat(phy.bands), BandAuto))
      modifies this`channel
      ensures ok <==> band == BandAuto || !NoneUsable(phy, band)
      ensures ok ==> FreeChannel(phy, band, channel)
    {
      FirstIsLowest(phy, BandAuto, usableChannel);
      if band == BandAuto {
        var near := UsableChannelsIn(phy, Band2GHz);
        FirstIsLowest(phy, Band2GHz, near);
        if |near| > 0 {
          channel := near[0];
          return true;
        }
        if |usableChannel| > 0 {
          channel := usableChannel[0];
        }
        return true;
      }
      var usable := UsableChannelsIn(phy, band);
      FirstIsLowest(phy, band, usable);
      if |usable| == 0 {
        return false;
      }
      channel := usable[0];
      return true;
    }

    /** The pinned channel may be in a band that was not asked for. */
    method RefuseBandAgainstPin(phy: Phy, station: WirelessIface, band: RadioBand) returns (ok: bool)
      requires channel == station.channel
      ensures ok <==> band == BandAuto || PinnedBand(phy, station) == band
    {
      if band == BandAuto {
        return true;
      }
      var pinned := BandOfChannel(phy, channel);
      if pinned == BandAuto && station.freqMHz > 0 {
        pinned := BandOf(station.freqMHz);
      }
      return pinned == band;
    }

    /** The access point on the interface that is there, its link ended first. */
    method TakeOver(c: Candidate, o: Options, rules: NameRules) returns (ok: bool)
      requires Blank() && TakesOver(c, uplink) && hotspotPhy == c.phy.name && Sorted(usableChannel)
      requires multiset(usableChannel) == multiset(ChannelsIn(Flat(c.phy.bands), BandAuto))
      modifies this`hotspot, this`isVirtual, this`takenOver, this`parent, this`fallback, this`manager, this`channelPinned, this`channel
      ensures ok <==> Accepts(c, uplink, o, rules)
      ensures ok ==> RunsOn(Decided(), uplink, c, o)
    {
      PinnedDeclares(c);
      var w := c.station;
      if !rules.kernel(w.name) {
        return false;
      }
      hotspot, isVirtual, takenOver, parent, fallback := w.name, false, true, "", "";
      manager := w.manager;
      channelPinned := false;
      ok := ChooseChannel(c.phy, o.band);
    }

    /** The interface beside the link that is there. */
    method NameBeside(c: Candidate, o: Options, rules: NameRules) returns (ok: bool)
      requires Blank() && c.station.name != "" && !TakesOver(c, uplink)
      modifies this`hotspot, this`isVirtual, this`parent, this`fallback, this`manager
      ensures ok <==> NameAllowed(c, uplink, o, rules)
      ensures ok ==> hotspot == HotspotName(c, uplink, o) && isVirtual == !o.windows
      ensures ok ==> parent == (if isVirtual then c.station.name else "")
      ensures ok ==> fallback == (if isVirtual && c.station.name != uplink then c.station.name else "")
      ensures ok ==> manager == (if isVirtual then ManagedByUnknown else c.station.manager)
    {
      if o.windows {
        if !rules.platform(c.station.name) {
          return false;
        }
        hotspot, manager := c.station.name, c.station.manager;
      } else {
        var name := ApName(o);
        if !rules.kernel(name) {
          return false;
        }
        hotspot, isVirtual, parent, manager := name, true, c.station.name, ManagedByUnknown;
        if c.station.name != uplink {
          fallback := c.station.name;
        }
      }
      ok := true;
    }

    /** Beside the link that is there, on a radio that says it can. */
    method Beside(c: Candidate, o: Options, rules: NameRules) returns (ok: bool)
      requires Blank() && c.station.name != "" && !TakesOver(c, uplink) && hotspotPhy == c.phy.name && Sorted(usableChannel)
      requires multiset(usableChannel) == multiset(ChannelsIn(Flat(c.phy.bands), BandAuto))
      modifies this`hotspot, this`isVirtual, this`parent, this`fallback, this`manager, this`channelPinned, this`channel
      ensures ok <==> Accepts(c, uplink, o, rules)
      ensures ok ==> RunsOn(Decided(), uplink, c, o)
    {
      ok := NameBeside(c, o, rules);
      if !ok {
        return;
      }
      ok := ChannelBeside(c, o.band);
    }

    /** The channel beside the link: the link's own where the radio has only one. */
    method ChannelBeside(c: Candidate, band: RadioBand) returns (ok: bool)
      requires channel == 0 && !channelPinned && c.station.name != "" && Sorted(usableChannel)
      requires multiset(usableChannel) == multiset(ChannelsIn(Flat(c.phy.bands), BandAuto))
      modifies this`channelPinned, this`channel
      ensures ok <==> Declares(c.phy) && ChannelAllowed(c, band)
      ensures ok ==> channelPinned == Pins(c)
      ensures ok ==> if channelPinned then channel == c.station.channel else FreeChannel(c.phy, band, channel)
    {
      var declares, oneChannel := APWithStation(c.phy);
      if !declares {
        return false;
      }
      if oneChannel && StationLink(c.station) {
        channel, channelPinned := c.station.channel, true;
        ok := RefuseBandAgainstPin(c.phy, c.station, band);
      } else {
        ok := ChooseChannel(c.phy, band);
      }
    }

    /** On a radio nothing is using: the interface that is there, or a new one. */
    method Alone(c: Candidate, o: Options, rules: NameRules) returns (ok: bool)
      requires Blank() && c.station.name == "" && hotspotPhy == c.phy.name && Sorted(usableChannel)
      requires multiset(usableChannel) == multiset(ChannelsIn(Flat(c.phy.bands), BandAuto))
      modifies this`hotspot, this`isVirtual, this`manager, this`channel
      ensures ok <==> Accepts(c, uplink, o, rules)
      ensures ok ==> RunsOn(Decided(), uplink, c, o)
    {
      if c.iface.name != "" {
        if !rules.platform(c.iface.name) {
          return false;
        }
        hotspot, manager := c.iface.name, c.iface.manager;
      } else {
        var name := ApName(o);
        if !rules.kernel(name) {
          return false;
        }
        hotspot, isVirtual, manager := name, true, ManagedByUnknown;
      }
      ok := ChooseChannel(c.phy, o.band);
    }

    /** Record the chosen radio: whether its link is ended, shared or absent, which
        interface the access point gets, and the channel. */
    method AcceptHotspot(c: Candidate, o: Options, rules: NameRules) returns (ok: bool)
      requires Blank()
      modifies this`hotspotPhy, this`usableChannel, this`hotspot, this`isVirtual, this`takenOver, this`parent, this`fallback,
               this`manager, this`channelPinned, this`channel
      ensures ok <==> Accepts(c, uplink, o, rules)
      ensures ok ==> RunsOn(Decided(), uplink, c, o)
    {
      hotspotPhy := c.phy.name;
      usableChannel := UsableChannelsIn(c.phy, BandAuto);
      var declares, _ := APWithStation(c.phy);
      if c.station.name != "" && !declares && c.station.name != uplink {
        ok := TakeOver(c, o, rules);
      } else if c.station.name != "" {
        ok := Beside(c, o, rules);
      } else {
        ok := Alone(c, o, rules);
      }
    }

    /** The radio named by hand, or the ladder's. */
    method ChooseHotspot(f: Facts, o: Options, rules: NameRules) returns (ok: bool)
      requires Blank()
      modifies this`wirelessUplink, this`hotspotPhy, this`usableChannel, this`hotspot, this`isVirtual, this`takenOver,
               this`parent, this`fallback, this`manager, this`channelPinned, this`channel
      ensures ok ==> WellChosen(Decided(), uplink, f, o)
      ensures !ok <==> NoHotspot(f, o, rules, uplink)
    {
      wirelessUplink := WirelessByName(f.wireless, uplink).Some?;
      var cands := ApCandidates(f, uplink);
      if |cands| == 0 {
        return false;
      }
      if o.hotspotOverride != "" {
        for i := 0 to |cands|
          invariant Blank()
          invariant forall j :: 0 <= j < i ==> cands[j].iface.name != o.hotspotOverride && cands[j].phy.name != o.hotspotOverride
        {
          if cands[i].iface.name == o.hotspotOverride || cands[i].phy.name == o.hotspotOverride {
            ok := AcceptHotspot(cands[i], o, rules);
            assert ByHand(cands, o.hotspotOverride, i) && Picked(cands, o, uplink, i);
            assert ok ==> ChosenAt(Decided(), uplink, f, o, i);
            return;
          }
        }
        return false;
      }
      var choice := ChooseRadio(cands, uplink);
      if !choice.Take? {
        return false;
      }
      ghost var k :| Best(cands, uplink, k) && choice.c == cands[k];
      OneBest(cands, uplink, k);
      assert Picked(cands, o, uplink, k);
      ok := AcceptHotspot(choice.c, o, rules);
      assert ok ==> ChosenAt(Decided(), uplink, f, o, k);
    }

    /** The addresses collide with nothing the box is on, and what is foreign on an
        interface used as it is comes off it. */
    ghost predicate Placed(f: Facts, o: Options)
      reads this`subnets, this`stationPrefixes, this`hotspot, this`isVirtual
    {
      && subnets.Some? && Sited(subnets.value, o.byHand, LinkNetworks(f), Gateways(f.routes))
      && stationPrefixes == if hotspot != "" && !isVirtual then StationPrefixes(f, hotspot, Some(subnets.value.hotspot)) else []
    }

    method PlaceSubnets(f: Facts, o: Options) returns (ok: bool)
      requires stationPrefixes == []
      modifies this`subnets, this`stationPrefixes
      ensures ok ==> Placed(f, o)
      ensures !ok <==> NoRoom(o.byHand, o.hotspotPool, o.tunnelPool, Occupied(LinkNetworks(f), Gateways(f.routes)))
    {
      subnets := PlanSubnets(o.byHand, o.hotspotPool, o.tunnelPool, LinkNetworks(f), Gateways(f.routes));
      ok := subnets.Some?;
      if ok && hotspot != "" && !isVirtual {
        stationPrefixes := ForeignPrefixes(f, hotspot, Some(subnets.value.hotspot));
      }
    }

    /** Some server has a route to be pinned through. */
    ghost predicate Pinned(given: seq<Option<Addr>>)
      reads this`servers, this`hasV6
    {
      servers == Servers(given) && SomePinnable(servers, hasV6)
    }

    method Finish(f: Facts, given: seq<Option<Addr>>, o: Options) returns (ok: bool)
      requires stationPrefixes == []
      modifies this`subnets, this`stationPrefixes, this`servers, this`unpinnable
      ensures ok ==> Placed(f, o) && Pinned(given)
      ensures !ok <==> Unfinished(f, given, o, hasV6)
    {
      ok := PlaceSubnets(f, o);
      if ok {
        ok, servers, unpinnable := PinServers(given, hasV6);
      }
    }
  }

  lemma PinnedDeclares(c: Candidate)
    ensures Pins(c) ==> Declares(c.phy)
  {
    if Pins(c) {
      var i :| FirstCombo(c.phy, i) && c.phy.combinations[i].channels == 1;
    }
  }

  /** The route the uplink is taken from. */
  method ChooseUplink(f: Facts, override: string) returns (def: Option<Route>)
    ensures override == "" ==> (def.None? <==> forall k :: 0 <= k < |f.routes| ==> !Carries(f.routes[k], 4))
    ensures override == "" && def.Some? ==> exists k :: Primary(f.routes, 4, k) && def.value == f.routes[k]
    ensures override != "" ==> def == RoutedBy(f.routes, override)
    ensures def.Some? ==> def.value.dev != "" && (override != "" ==> def.value.dev == override)
  {
    def := PrimaryDefault(f.routes, 4);
    if override != "" {
      def := NamedRoute(f.routes, override);
    }
  }

  method NamedRoute(routes: seq<Route>, dev: string) returns (r: Option<Route>)
    ensures r == RoutedBy(routes, dev) && (r.Some? ==> r.value.dev == dev)
  {
    for i := 0 to |routes|
      invariant RoutedBy(routes, dev) == RoutedBy(routes[i..], dev)
    {
      if routes[i].dev == dev && routes[i].family == 4 {
        return Some(routes[i]);
      }
    }
    return None;
  }

  function LinkNetworks(f: Facts): seq<seq<Prefix>> {
    seq(|f.links|, i requires 0 <= i < |f.links| => f.links[i].prefixes)
  }

  function Gateways(routes: seq<Route>): seq<Addr> {
    if routes == [] then []
    else
      var rest := Gateways(routes[..|routes| - 1]);
      match routes[|routes| - 1].gateway
      case None => rest
      case Some(a) => rest + [a]
  }

  /** The uplink carries the default route in use, or is the one named by hand that
      carries one. */
  ghost predicate Routed(f: Facts, o: Options, uplink: string, hasV6: bool) {
    && uplink != ""
    && (hasV6 <==> exists k :: 0 <= k < |f.routes| && Carries(f.routes[k], 6))
    && if o.uplinkOverride != "" then uplink == o.uplinkOverride && RoutedBy(f.routes, uplink).Some?
       else exists k :: Primary(f.routes, 4, k) && f.routes[k].dev == uplink
  }

  /** What every plan promises. */
  ghost predicate Promised(p: Plan, f: Facts, given: seq<Option<Addr>>, o: Options)
    reads p
  {
    && Routed(f, o, p.uplink, p.hasV6) && WellChosen(p.Decided(), p.uplink, f, o) && p.Placed(f, o) && p.Pinned(given)
    && p.socks == if o.socks.Some? then f.socks else []
  }

  /** A plan, exactly when nothing stands in its way. */
  method PlanNetwork(f: Facts, given: seq<Option<Addr>>, asked: Options, rules: NameRules) returns (r: Option<Plan>)
    ensures r.Some? ==> Promised(r.value, f, given, Effective(asked))
    ensures r.None? <==> Refused(f, given, Effective(asked), rules)
  {
    r := PlanWith(f, given, Effective(asked), rules);
  }

  /** The SOCKS settings are not asked for, or can all be put back. */
  predicate SocksFine(f: Facts, o: Options) {
    o.socks.Some? ==> SystemSocks.Acceptable(o.darwin, o.socks.value.loopback, o.socks.value.port, f.socksKnown, f.socks)
  }

  /** No interface carries a default route, or the one named by hand does not. */
  ghost predicate NoUplink(f: Facts, o: Options) {
    if o.uplinkOverride != "" then RoutedBy(f.routes, o.uplinkOverride).None?
    else forall k :: 0 <= k < |f.routes| ==> !Carries(f.routes[k], 4)
  }

  /** No room for the addresses, or no server a route can be pinned to. */
  ghost predicate Unfinished(f: Facts, given: seq<Option<Addr>>, o: Options, hasV6: bool) {
    || NoRoom(o.byHand, o.hotspotPool, o.tunnelPool, Occupied(LinkNetworks(f), Gateways(f.routes)))
    || !SomePinnable(Servers(given), hasV6)
  }

  /** With its uplink found, a plan has no access point. */
  ghost predicate Undrafted(f: Facts, o: Options, rules: NameRules) {
    NoUplink(f, o) || exists uplink, hasV6 :: Routed(f, o, uplink, hasV6) && NoHotspot(f, o, rules, uplink)
  }

  /** Why there is no plan. */
  ghost predicate Refused(f: Facts, given: seq<Option<Addr>>, o: Options, rules: NameRules) {
    || !rules.platform(o.tunName)
    || !SocksFine(f, o)
    || Undrafted(f, o, rules)
    || exists uplink, hasV6 :: Routed(f, o, uplink, hasV6) && Unfinished(f, given, o, hasV6)
  }

  /** The uplink is settled by the facts and the options. */
  lemma OneUplink(f: Facts, o: Options, uplink: string, hasV6: bool)
    requires Routed(f, o, uplink, hasV6)
    ensures forall u, v :: Routed(f, o, u, v) ==> u == uplink && v == hasV6
    ensures !NoUplink(f, o)
  {
    if o.uplinkOverride == "" {
      var k :| Primary(f.routes, 4, k) && f.routes[k].dev == uplink;
      forall u, v | Routed(f, o, u, v) ensures u == uplink {
        var j :| Primary(f.routes, 4, j) && f.routes[j].dev == u;
        assert j == k;
      }
    }
  }

  /** With the uplink found, the reasons left are the radio, the room and the servers. */
  lemma ReasonsLeft(f: Facts, given: seq<Option<Addr>>, o: Options, rules: NameRules, uplink: string, hasV6: bool)
    requires Routed(f, o, uplink, hasV6)
    ensures Undrafted(f, o, rules) <==> NoHotspot(f, o, rules, uplink)
    ensures rules.platform(o.tunName) && SocksFine(f, o) && !Undrafted(f, o, rules) ==>
              (Refused(f, given, o, rules) <==> Unfinished(f, given, o, hasV6))
  {
    OneUplink(f, o, uplink, hasV6);
  }

  /** A plan with only its uplink decided. */
  method BeginPlan(f: Facts, o: Options, socks: seq<SystemSocks.Measured>) returns (r: Option<Plan>)
    ensures r.Some? ==> fresh(r.value) && r.value.Blank() && r.value.socks == socks && Routed(f, o, r.value.uplink, r.value.hasV6)
    ensures r.None? <==> NoUplink(f, o)
  {
    var def := ChooseUplink(f, o.uplinkOverride);
    if def.None? {
      return None;
    }
    var v6 := PrimaryDefault(f.routes, 6);
    var p := new Plan(def.value.dev, v6.Some?, o.tunName, socks);
    r := Some(p);
    OneUplink(f, o, p.uplink, p.hasV6);
  }

  /** A plan with its uplink and its access point decided. */
  method DraftPlan(f: Facts, o: Options, rules: NameRules, socks: seq<SystemSocks.Measured>) returns (r: Option<Plan>)
    ensures r.Some? ==> fresh(r.value) && Routed(f, o, r.value.uplink, r.value.hasV6) && WellChosen(r.value.Decided(), r.value.uplink, f, o)
    ensures r.Some? ==> r.value.socks == socks && r.value.stationPrefixes == []
    ensures r.None? <==> Undrafted(f, o, rules)
  {
    r := BeginPlan(f, o, socks);
    if r.None? {
      return;
    }
    ReasonsLeft(f, [], o, rules, r.value.uplink, r.value.hasV6);
    var ok := r.value.ChooseHotspot(f, o, rules);
    if !ok {
      return None;
    }
  }

  /** The SOCKS settings to record, or a refusal. */
  method PlanSocks(f: Facts, o: Options) returns (ok: bool, socks: seq<SystemSocks.Measured>)
    ensures ok <==> SocksFine(f, o)
    ensures ok ==> socks == if o.socks.Some? then f.socks else []
  {
    if o.socks.None? {
      return true, [];
    }
    var r := SystemSocks.SystemSocksForPlan(o.darwin, o.socks.value.loopback, o.socks.value.port, f.socksKnown, f.socks);
    if !r.Accepted? {
      return false, [];
    }
    return true, r.states;
  }

  /** A draft with its addresses and servers. */
  method CompletePlan(p: Plan, f: Facts, given: seq<Option<Addr>>, o: Options) returns (ok: bool)
    requires Routed(f, o, p.uplink, p.hasV6) && WellChosen(p.Decided(), p.uplink, f, o) && p.stationPrefixes == []
    requires p.socks == if o.socks.Some? then f.socks else []
    modifies p
    ensures ok ==> Promised(p, f, given, o)
    ensures !ok <==> Unfinished(f, given, o, old(p.hasV6))
  {
    ok := p.Finish(f, given, o);
    assert p.Decided() == old(p.Decided());
  }

  method PlanWith(f: Facts, given: seq<Option<Addr>>, o: Options, rules: NameRules) returns (r: Option<Plan>)
    ensures r.Some? ==> Promised(r.value, f, given, o)
    ensures r.None? <==> Refused(f, given, o, rules)
  {
    if !rules.platform(o.tunName) {
      return None;
    }
    var ok, socks := PlanSocks(f, o);
    if !ok {
      return None;
    }
    r := DraftPlan(f, o, rules, socks);
    if r.None? {
      return;
    }
    ReasonsLeft(f, given, o, rules, r.value.uplink, r.value.hasV6);
    ok := CompletePlan(r.value, f, given, o);
    if !ok {
      return None;
    }
  }

  // --- what follows ----------------------------------------------------------

  /** Accepting a candidate puts the access point on the uplink only on Windows, or
      where the created interface was given the uplink's own name. */
  lemma HotspotApart(c: Candidate, uplink: string, o: Options)
    requires Ladder.Apart(c, uplink) && uplink != ""
    ensures HotspotName(c, uplink, o) == uplink <==>
            || (o.windows && c.station.name == uplink)
            || (Created(c, uplink, o) && ApName(o) == uplink)
  {
  }

  /** Every plan keeps the access point, and the interface it may fall back to, off
      the uplink. */
  lemma {:induction false} PlanKeepsUplink(p: Plan, f: Facts, given: seq<Option<Addr>>, o: Options)
    requires Promised(p, f, given, o) && !o.windows && ApName(o) != p.uplink
    ensures p.hotspot != p.uplink && p.fallback != p.uplink
  {
    var k :| ChosenAt(p.Decided(), p.uplink, f, o, k);
    CandidatesApart(f.phys, f, p.uplink, k);
    HotspotApart(Candidates(f.phys, f, p.uplink)[k], p.uplink, o);
  }

  /** The channel is the lowest usable one the radio reports in the band, or that of
      a joined link in that band; it is a link's only where the radio has one
      channel and the link is really joined. */
  ghost predicate BandHonoured(p: Plan, c: Candidate, band: RadioBand)
    reads p
  {
    && (p.channelPinned <==> c.station.name != "" && OneChannel(c.phy) && StationLink(c.station))
    && (p.channelPinned ==> p.channel == c.station.channel)
    && (band != BandAuto ==> if p.channelPinned then PinnedBand(c.phy, c.station) == band else Lowest(c.phy, band, p.channel))
  }

  ghost predicate HonouredAt(p: Plan, f: Facts, band: RadioBand, k: int)
    reads p
  {
    var cs := Candidates(f.phys, f, p.uplink);
    0 <= k < |cs| && p.hotspotPhy == cs[k].phy.name && cs[k].phy in f.phys && BandHonoured(p, cs[k], band)
  }

  /** Every plan honours the band asked for, on the radio it names. */
  lemma PlanHonoursBand(p: Plan, f: Facts, o: Options)
    requires p.uplink != "" && WellChosen(p.Decided(), p.uplink, f, o)
    ensures exists k :: HonouredAt(p, f, o.band, k)
  {
    var k :| ChosenAt(p.Decided(), p.uplink, f, o, k);
    CandidatesApart(f.phys, f, p.uplink, k);
    assert HonouredAt(p, f, o.band, k);
  }

  // --- the takeover ----------------------------------------------------------

  predicate Down(links: seq<Link>, name: string) {
    match LinkByName(links, name)
    case Some(l) => Combination.EqualFold(l.state, "DOWN")
    case None => false
  }

  /** The interface can be shown to be free, or to be released. */
  predicate Takeable(f: Facts, name: string) {
    match WirelessByName(f.wireless, name)
    case None => false
    case Some(w) => w.manager == ManagedByNetworkManager || (w.manager == ManagedByNothing && (!InUse(w) || Down(f.links, w.name)))
  }

  /** The plan on the fallback interface instead of one of its own. The first plan
      is left as it was. */
  method HotspotTakeover(p: Plan, f: Facts) returns (q: Option<Plan>)
    ensures q.Some? <==> p.isVirtual && p.fallback != "" && Takeable(f, p.fallback)
    ensures q.Some? ==> q.value != p && TakenFrom(q.value, p, f)
  {
    if !p.isVirtual || p.fallback == "" {
      return None;
    }
    var found := WirelessByName(f.wireless, p.fallback);
    if found.None? {
      return None;
    }
    var w := found.value;
    var inUse := InUse(w);
    if Down(f.links, w.name) {
      inUse := false;
    }
    if w.manager == ManagedByUnknown || (w.manager == ManagedByNothing && inUse) {
      return None;
    }
    var prefixes := ForeignPrefixes(f, w.name, None);
    FoundIsNamed(f.wireless, p.fallback);
    var t := new Plan.Fallback(p, w.manager, prefixes);
    q := Some(t);
  }

  lemma FoundIsNamed(ws: seq<WirelessIface>, name: string)
    ensures WirelessByName(ws, name).Some? ==> WirelessByName(ws, name).value.name == name
  {
  }

  /** The fallback's plan, with every foreign address to come off the interface. */
  ghost predicate TakenFrom(q: Plan, p: Plan, f: Facts)
    reads p, q
  {
    Inherits(q, p) && q.stationPrefixes == StationPrefixes(f, p.fallback, None)
  }

  /** Everything carries over but the interface, its addresses and its channel. */
  ghost predicate Inherits(q: Plan, p: Plan)
    reads p, q
  {
    && q.socks == p.socks
    && q.uplink == p.uplink && q.hasV6 == p.hasV6 && q.wirelessUplink == p.wirelessUplink
    && q.hotspotPhy == p.hotspotPhy && q.fallback == p.fallback && q.usableChannel == p.usableChannel
    && q.subnets == p.subnets && q.servers == p.servers && q.unpinnable == p.unpinnable && q.tun == p.tun
    && q.hotspot == p.fallback && q.takenOver && !q.isVirtual && q.parent == ""
    && !q.channelPinned && q.channel == if p.usableChannel == [] then 0 else p.usableChannel[0]
  }

  /** A takeover from any plan stays off the uplink, and no takeover is made from
      the plan it gives. Its channel is the radio's lowest usable one in any band, so
      the band asked for is met exactly where that channel is also usable in it. */
  lemma {:induction false} TakeoverKeepsUplink(p: Plan, q: Plan, f: Facts, given: seq<Option<Addr>>, o: Options)
    requires Promised(p, f, given, o) && !o.windows && ApName(o) != p.uplink && Inherits(q, p)
    ensures q.hotspot != q.uplink && !q.isVirtual
    ensures exists k :: ChosenAt(p.Decided(), p.uplink, f, o, k) && TakeoverChannel(q, Candidates(f.phys, f, p.uplink)[k].phy)
  {
    PlanKeepsUplink(p, f, given, o);
    var k :| ChosenAt(p.Decided(), p.uplink, f, o, k);
    var phy := Candidates(f.phys, f, p.uplink)[k].phy;
    FirstIsLowest(phy, BandAuto, p.usableChannel);
    assert TakeoverChannel(q, phy);
  }

  ghost predicate TakeoverChannel(q: Plan, phy: Phy)
    reads q
  {
    if NoneUsable(phy, BandAuto) then q.channel == 0 else Lowest(phy, BandAuto, q.channel)
  }
}
