// What detection read from the machine's radios and routes, and the questions the
// planner asks of it.

module Radio {
  import SystemSocks
  import opened Commands
  import opened Combination
  import opened Subnet

  // --- wireless interfaces ---------------------------------------------------

  datatype Manager = ManagedByUnknown | ManagedByNetworkManager | ManagedByNothing

  datatype WirelessIface = WirelessIface(name: string, phy: string, kind: string, ssid: string, channel: int,
                                         freqMHz: int, manager: Manager, associated: bool, linkKnown: bool)

  const NO_IFACE := WirelessIface("", "", "", "", 0, 0, ManagedByUnknown, false, false)

  predicate IsAccessPoint(w: WirelessIface) {
    EqualFold(w.kind, "AP")
  }

  /** A station joined to a network. A channel is no evidence of one. */
  predicate StationLink(w: WirelessIface) {
    !IsAccessPoint(w) && if w.linkKnown then w.associated else w.ssid != ""
  }

  predicate InUse(w: WirelessIface) {
    if IsAccessPoint(w) then w.ssid != "" else StationLink(w)
  }

  // --- channels --------------------------------------------------------------

  datatype Frequency = Frequency(mhz: int, channel: int, noIR: bool, disabled: bool, radar: bool)

  datatype RadioBand = BandAuto | Band2GHz | Band5GHz

  datatype Phy = Phy(name: string, modes: seq<string>, combinations: seq<Combination>, bands: seq<seq<Frequency>>)

  function BandOf(mhz: int): RadioBand {
    if 2400 <= mhz <= 2500 then Band2GHz
    else if 4900 <= mhz <= 5895 then Band5GHz
    else BandAuto
  }

  /** An access point may be started here without radar detection. */
  predicate Usable(f: Frequency) {
    !f.disabled && !f.noIR && !f.radar
  }

  function Flat(bands: seq<seq<Frequency>>): seq<Frequency> {
    if bands == [] then [] else Flat(bands[..|bands| - 1]) + bands[|bands| - 1]
  }

  /** The first frequency listed for a channel. */
  function FirstFor(fs: seq<Frequency>, ch: int): Option<Frequency> {
    if fs == [] then None
    else if fs[0].channel == ch then Some(fs[0])
    else FirstFor(fs[1..], ch)
  }

  /** The band of the first frequency the radio lists for a channel. */
  function BandIn(bands: seq<seq<Frequency>>, ch: int): RadioBand {
    if bands == [] then BandAuto
    else
      match FirstFor(bands[0], ch)
      case Some(f) => BandOf(f.mhz)
      case None => BandIn(bands[1..], ch)
  }

  /** The band a channel number is on for this radio. */
  method BandOfChannel(p: Phy, ch: int) returns (band: RadioBand)
    ensures band == BandIn(p.bands, ch)
  {
    for b := 0 to |p.bands|
      invariant BandIn(p.bands, ch) == BandIn(p.bands[b..], ch)
    {
      for k := 0 to |p.bands[b]|
        invariant FirstFor(p.bands[b], ch) == FirstFor(p.bands[b][k..], ch)
      {
        if p.bands[b][k].channel == ch {
          return BandOf(p.bands[b][k].mhz);
        }
      }
    }
    return BandAuto;
  }

  /** A frequency an access point may use, in the band asked for if any. */
  predicate Offers(f: Frequency, band: RadioBand) {
    Usable(f) && f.channel > 0 && (band == BandAuto || BandOf(f.mhz) == band)
  }

  function ChannelsIn(fs: seq<Frequency>, band: RadioBand): seq<int> {
    if fs == [] then []
    else
      var rest := ChannelsIn(fs[..|fs| - 1], band);
      if Offers(fs[|fs| - 1], band) then rest + [fs[|fs| - 1].channel] else rest
  }

  predicate Sorted(s: seq<int>) {
    forall i, j :: 0 <= i < j < |s| ==> s[i] <= s[j]
  }

  function Insert(s: seq<int>, x: int): seq<int> {
    if s == [] || x <= s[0] then [x] + s else [s[0]] + Insert(s[1..], x)
  }

  lemma {:induction false} InsertKeeps(s: seq<int>, x: int)
    ensures multiset(Insert(s, x)) == multiset(s) + multiset{x}
  {
    if !(s == [] || x <= s[0]) {
      InsertKeeps(s[1..], x);
      assert s == [s[0]] + s[1..];
    }
  }

  lemma {:induction false} InsertSorts(s: seq<int>, x: int)
    requires Sorted(s)
    ensures Sorted(Insert(s, x)) && Insert(s, x)[0] == if s == [] || x <= s[0] then x else s[0]
  {
    if !(s == [] || x <= s[0]) {
      InsertSorts(s[1..], x);
    }
  }

  method SortInts(s: seq<int>) returns (r: seq<int>)
    ensures Sorted(r) && multiset(r) == multiset(s)
  {
    r := [];
    for i := 0 to |s|
      invariant Sorted(r) && multiset(r) == multiset(s[..i])
    {
      assert s[..i + 1] == s[..i] + [s[i]];
      InsertKeeps(r, s[i]);
      InsertSorts(r, s[i]);
      r := Insert(r, s[i]);
    }
    assert s[..|s|] == s;
  }

  lemma ChannelsSnoc(fs: seq<Frequency>, f: Frequency, band: RadioBand)
    ensures ChannelsIn(fs + [f], band) == ChannelsIn(fs, band) + if Offers(f, band) then [f.channel] else []
  {
    assert (fs + [f])[..|fs + [f]| - 1] == fs;
  }

  lemma {:induction false} ChannelsConcat(a: seq<Frequency>, b: seq<Frequency>, band: RadioBand)
    ensures ChannelsIn(a + b, band) == ChannelsIn(a, band) + ChannelsIn(b, band)
  {
    if b == [] {
      assert a + b == a;
    } else {
      var n := |b| - 1;
      assert a + b == (a + b[..n]) + [b[n]] && b == b[..n] + [b[n]];
      ChannelsConcat(a, b[..n], band);
      ChannelsSnoc(a + b[..n], b[n], band);
    }
  }

  /** The usable channels of one list. */
  method UsableOf(fs: seq<Frequency>, band: RadioBand) returns (found: seq<int>)
    ensures found == ChannelsIn(fs, band)
  {
    found := [];
    ghost var seen: seq<Frequency> := [];
    for k := 0 to |fs|
      invariant |seen| == k && (forall i :: 0 <= i < k ==> seen[i] == fs[i]) && found == ChannelsIn(seen, band)
    {
      var f := fs[k];
      ChannelsSnoc(seen, f, band);
      seen := seen + [f];
      if !Usable(f) || f.channel <= 0 {
        continue;
      }
      if band != BandAuto && BandOf(f.mhz) != band {
        continue;
      }
      found := found + [f.channel];
    }
    assert seen == fs;
  }

  /** The channels of a band an access point may be started on, lowest first. */
  method UsableChannelsIn(p: Phy, band: RadioBand) returns (out: seq<int>)
    ensures Sorted(out) && multiset(out) == multiset(ChannelsIn(Flat(p.bands), band))
  {
    var found := [];
    ghost var seen: seq<seq<Frequency>> := [];
    for b := 0 to |p.bands|
      invariant |seen| == b && (forall i :: 0 <= i < b ==> seen[i] == p.bands[i]) && found == ChannelsIn(Flat(seen), band)
    {
      var more := UsableOf(p.bands[b], band);
      FlatSnoc(seen, p.bands[b]);
      ChannelsConcat(Flat(seen), p.bands[b], band);
      seen := seen + [p.bands[b]];
      found := found + more;
    }
    assert seen == p.bands;
    out := SortInts(found);
  }

  lemma FlatSnoc(bands: seq<seq<Frequency>>, fs: seq<Frequency>)
    ensures Flat(bands + [fs]) == Flat(bands) + fs
  {
    assert (bands + [fs])[..|bands + [fs]| - 1] == bands;
  }

  /** The radio reports a usable frequency in the band with this channel. */
  predicate UsableIn(p: Phy, band: RadioBand, ch: int) {
    exists i :: 0 <= i < |Flat(p.bands)| && Offers(Flat(p.bands)[i], band) && Flat(p.bands)[i].channel == ch
  }

  lemma {:induction false} ChannelIsOffered(fs: seq<Frequency>, band: RadioBand, ch: int)
    ensures ch in ChannelsIn(fs, band) <==> exists i :: 0 <= i < |fs| && Offers(fs[i], band) && fs[i].channel == ch
  {
    if fs != [] {
      var n := |fs| - 1;
      ChannelIsOffered(fs[..n], band, ch);
      if i :| 0 <= i < |fs| && Offers(fs[i], band) && fs[i].channel == ch {
        if i < n {
          assert fs[..n][i] == fs[i];
        }
      }
    }
  }

  /** The lowest usable channel of the band. */
  ghost predicate Lowest(p: Phy, band: RadioBand, ch: int) {
    UsableIn(p, band, ch) && forall c :: UsableIn(p, band, c) ==> ch <= c
  }

  ghost predicate NoneUsable(p: Phy, band: RadioBand) {
    forall c :: !UsableIn(p, band, c)
  }

  lemma FirstIsLowest(p: Phy, band: RadioBand, out: seq<int>)
    requires Sorted(out) && multiset(out) == multiset(ChannelsIn(Flat(p.bands), band))
    ensures out == [] ==> NoneUsable(p, band)
    ensures out != [] ==> Lowest(p, band, out[0])
  {
    forall c ensures UsableIn(p, band, c) <==> c in out {
      ChannelIsOffered(Flat(p.bands), band, c);
      assert c in multiset(out) <==> c in multiset(ChannelsIn(Flat(p.bands), band));
    }
    if out != [] {
      assert out[0] in out;
    }
  }

  // --- radios ----------------------------------------------------------------

  predicate SupportsAP(p: Phy) {
    exists m :: 0 <= m < |p.modes| && EqualFold(p.modes[m], "AP")
  }

  const STATION_AND_AP := ["managed", "AP"]

  /** The first combination that allows an access point beside a station. */
  ghost predicate FirstCombo(p: Phy, i: int) {
    && 0 <= i < |p.combinations| && Allowed(p.combinations[i], STATION_AND_AP)
    && forall j :: 0 <= j < i ==> !Allowed(p.combinations[j], STATION_AND_AP)
  }

  ghost predicate Declares(p: Phy) {
    exists i :: 0 <= i < |p.combinations| && Allowed(p.combinations[i], STATION_AND_AP)
  }

  /** The radio allows one channel where it allows an access point beside a station. */
  ghost predicate OneChannel(p: Phy) {
    exists i :: FirstCombo(p, i) && p.combinations[i].channels == 1
  }

  method APWithStation(p: Phy) returns (ok: bool, oneChannel: bool)
    ensures ok <==> Declares(p)
    ensures oneChannel <==> OneChannel(p)
  {
    for i := 0 to |p.combinations|
      invariant forall j :: 0 <= j < i ==> !Allowed(p.combinations[j], STATION_AND_AP)
    {
      ok := Allows(p.combinations[i], STATION_AND_AP);
      if ok {
        assert FirstCombo(p, i);
        assert forall j :: FirstCombo(p, j) ==> j == i;
        return true, p.combinations[i].channels == 1;
      }
    }
    return false, false;
  }

  // --- links and routes ------------------------------------------------------

  datatype Link = Link(name: string, state: string, bus: string, prefixes: seq<Prefix>)

  datatype Route = Route(family: int, gateway: Option<Addr>, dev: string, metric: int, linkDown: bool)

  datatype Facts = Facts(links: seq<Link>, routes: seq<Route>, wireless: seq<WirelessIface>, phys: seq<Phy>,
                         socksKnown: bool, socks: seq<SystemSocks.Measured>)

  function LinkByName(links: seq<Link>, name: string): Option<Link> {
    if links == [] then None
    else if links[0].name == name then Some(links[0])
    else LinkByName(links[1..], name)
  }

  function WirelessByName(ws: seq<WirelessIface>, name: string): Option<WirelessIface> {
    if ws == [] then None
    else if ws[0].name == name then Some(ws[0])
    else WirelessByName(ws[1..], name)
  }

  predicate Carries(r: Route, family: int) {
    r.family == family && !r.linkDown && r.dev != ""
  }

  /** The route of a family the kernel will use: lowest metric, first listed. */
  ghost predicate Primary(routes: seq<Route>, family: int, k: int) {
    && 0 <= k < |routes| && Carries(routes[k], family)
    && forall j :: 0 <= j < |routes| && Carries(routes[j], family) ==>
         routes[k].metric < routes[j].metric || (routes[k].metric == routes[j].metric && k <= j)
  }

  method PrimaryDefault(routes: seq<Route>, family: int) returns (best: Option<Route>)
    ensures best.None? <==> forall k :: 0 <= k < |routes| ==> !Carries(routes[k], family)
    ensures best.Some? ==> exists k :: Primary(routes, family, k) && best.value == routes[k]
  {
    best := None;
    ghost var at := -1;
    for i := 0 to |routes|
      invariant best.None? <==> forall k :: 0 <= k < i ==> !Carries(routes[k], family)
      invariant best.Some? ==> 0 <= at < i && best.value == routes[at] && Carries(routes[at], family)
      invariant best.Some? ==> forall j :: 0 <= j < i && Carries(routes[j], family) ==>
                  routes[at].metric < routes[j].metric || (routes[at].metric == routes[j].metric && at <= j)
    {
      var r := routes[i];
      if r.family != family || r.linkDown || r.dev == "" {
        continue;
      }
      if best.None? || r.metric < best.value.metric {
        best := Some(r);
        at := i;
      }
    }
    assert best.Some? ==> Primary(routes, family, at);
  }
}
