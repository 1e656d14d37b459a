// Which radio runs the access point.

module Ladder {
  import opened Radio

  /** A radio that could run the access point, an interface on it, and the link on
      it that must not be disturbed. No name means there is none. */
  datatype Candidate = Candidate(phy: Phy, iface: WirelessIface, station: WirelessIface, bus: string)

  const NO_CANDIDATE := Candidate(Phy("", [], [], []), NO_IFACE, NO_IFACE, "")

  // --- the candidates --------------------------------------------------------

  function BusOf(links: seq<Link>, name: string, otherwise: string): string {
    match LinkByName(links, name)
    case Some(l) => l.bus
    case None => otherwise
  }

  /** The candidate once one more wireless interface has been looked at. */
  function Notice(c: Candidate, w: WirelessIface, links: seq<Link>, uplink: string): Candidate {
    if w.phy != c.phy.name then c
    else
      var d := if c.iface.name == "" then c.(iface := w, bus := BusOf(links, w.name, c.bus)) else c;
      if w.name == uplink then d.(station := w)
      else if StationLink(w) && d.station.name == "" then d.(station := w)
      else d
  }

  function CandidateFor(phy: Phy, ws: seq<WirelessIface>, links: seq<Link>, uplink: string): Candidate {
    if ws == [] then Candidate(phy, NO_IFACE, NO_IFACE, "")
    else Notice(CandidateFor(phy, ws[..|ws| - 1], links, uplink), ws[|ws| - 1], links, uplink)
  }

  function Candidates(phys: seq<Phy>, f: Facts, uplink: string): seq<Candidate> {
    if phys == [] then []
    else
      var rest := Candidates(phys[..|phys| - 1], f, uplink);
      var phy := phys[|phys| - 1];
      if SupportsAP(phy) then rest + [CandidateFor(phy, f.wireless, f.links, uplink)] else rest
  }

  method ApCandidates(f: Facts, uplink: string) returns (out: seq<Candidate>)
    ensures out == Candidates(f.phys, f, uplink)
  {
    out := [];
    for i := 0 to |f.phys|
      invariant out == Candidates(f.phys[..i], f, uplink)
    {
      assert f.phys[..i + 1][..i] == f.phys[..i];
      if !SupportsAP(f.phys[i]) {
        continue;
      }
      var c := Candidate(f.phys[i], NO_IFACE, NO_IFACE, "");
      for k := 0 to |f.wireless|
        invariant c == CandidateFor(f.phys[i], f.wireless[..k], f.links, uplink)
      {
        assert f.wireless[..k + 1][..k] == f.wireless[..k];
        var w := f.wireless[k];
        if w.phy != c.phy.name {
          continue;
        }
        if c.iface.name == "" {
          c := c.(iface := w, bus := BusOf(f.links, w.name, c.bus));
        }
        if w.name == uplink {
          c := c.(station := w);
          continue;
        }
        if StationLink(w) && c.station.name == "" {
          c := c.(station := w);
        }
      }
      assert f.wireless[..|f.wireless|] == f.wireless;
      out := out + [c];
    }
    assert f.phys[..|f.phys|] == f.phys;
  }

  /** The uplink is never taken for a free interface: where it is on a radio, it is
      the link that radio must not disturb. */
  predicate Apart(c: Candidate, uplink: string) {
    c.station.name == uplink || c.iface.name != uplink
  }

  lemma {:induction false} CandidateApart(phy: Phy, ws: seq<WirelessIface>, links: seq<Link>, uplink: string)
    requires uplink != ""
    ensures Apart(CandidateFor(phy, ws, links, uplink), uplink)
    ensures CandidateFor(phy, ws, links, uplink).phy == phy
  {
    if ws != [] {
      CandidateApart(phy, ws[..|ws| - 1], links, uplink);
    }
  }

  lemma {:induction false} CandidatesApart(phys: seq<Phy>, f: Facts, uplink: string, k: nat)
    requires uplink != "" && k < |Candidates(phys, f, uplink)|
    ensures Apart(Candidates(phys, f, uplink)[k], uplink) && Candidates(phys, f, uplink)[k].phy in phys
  {
    var front, phy := phys[..|phys| - 1], phys[|phys| - 1];
    CandidateApart(phy, f.wireless, f.links, uplink);
    if k < |Candidates(front, f, uplink)| {
      CandidatesApart(front, f, uplink, k);
    }
  }

  // --- the order of preference -----------------------------------------------

  /** Free, then shared off the uplink, then taken over, then shared with the
      uplink. A radio that carries the uplink and cannot share is no choice. */
  ghost function Rank(c: Candidate, uplink: string): nat {
    if c.station.name == "" then 0
    else if c.station.name != uplink then (if Declares(c.phy) then 1 else 2)
    else if Declares(c.phy) then 3 else 4
  }

  predicate Usb(c: Candidate) {
    c.bus == "usb"
  }

  /** USB first, then list order. */
  ghost predicate Ahead(cs: seq<Candidate>, k: int, j: int)
    requires 0 <= k < |cs| && 0 <= j < |cs|
  {
    (Usb(cs[k]) && !Usb(cs[j])) || (Usb(cs[k]) == Usb(cs[j]) && k <= j)
  }

  ghost predicate BestOfRank(cs: seq<Candidate>, uplink: string, r: nat, k: int) {
    && 0 <= k < |cs| && Rank(cs[k], uplink) == r
    && forall j :: 0 <= j < |cs| && Rank(cs[j], uplink) == r ==> Ahead(cs, k, j)
  }

  /** Of all candidates that can run an access point, the lowest rank; within it a
      USB adapter; then the first listed. */
  ghost predicate Best(cs: seq<Candidate>, uplink: string, k: int) {
    && 0 <= k < |cs| && Rank(cs[k], uplink) < 4
    && forall j :: 0 <= j < |cs| ==>
         Rank(cs[k], uplink) < Rank(cs[j], uplink) || (Rank(cs[k], uplink) == Rank(cs[j], uplink) && Ahead(cs, k, j))
  }

  // --- picking within a list -------------------------------------------------

  function Pick(cs: seq<Candidate>): Candidate
    requires cs != []
  {
    var last := cs[|cs| - 1];
    if |cs| == 1 then last
    else
      var best := Pick(cs[..|cs| - 1]);
      if Usb(last) && !Usb(best) then last else best
  }

  method PreferUSB(cs: seq<Candidate>) returns (best: Candidate)
    ensures best == if cs == [] then NO_CANDIDATE else Pick(cs)
  {
    if |cs| == 0 {
      return NO_CANDIDATE;
    }
    best := cs[0];
    for i := 0 to |cs|
      invariant i > 0 ==> best == Pick(cs[..i])
      invariant i == 0 ==> best == cs[0]
    {
      assert cs[..i + 1][..i] == cs[..i];
      if Usb(cs[i]) && !Usb(best) {
        best := cs[i];
      }
    }
    assert cs[..|cs|] == cs;
  }

  /** The candidates of some ranks, in order. */
  ghost function Ranked(cs: seq<Candidate>, uplink: string, ranks: set<nat>): seq<Candidate> {
    if cs == [] then []
    else
      var rest := Ranked(cs[..|cs| - 1], uplink, ranks);
      if Rank(cs[|cs| - 1], uplink) in ranks then rest + [cs[|cs| - 1]] else rest
  }

  lemma {:induction false} RankedHas(cs: seq<Candidate>, uplink: string, ranks: set<nat>, k: nat)
    requires k < |Ranked(cs, uplink, ranks)|
    ensures Rank(Ranked(cs, uplink, ranks)[k], uplink) in ranks
  {
    var front := cs[..|cs| - 1];
    if k < |Ranked(front, uplink, ranks)| {
      RankedHas(front, uplink, ranks, k);
    }
  }

  lemma {:induction false} RankedNone(cs: seq<Candidate>, uplink: string, ranks: set<nat>, j: nat)
    requires Ranked(cs, uplink, ranks) == [] && j < |cs|
    ensures Rank(cs[j], uplink) !in ranks
  {
    if j < |cs| - 1 {
      RankedNone(cs[..|cs| - 1], uplink, ranks, j);
    }
  }

  lemma {:induction false} RankedTwice(cs: seq<Candidate>, uplink: string, some: set<nat>, fewer: set<nat>)
    requires fewer <= some
    ensures Ranked(Ranked(cs, uplink, some), uplink, fewer) == Ranked(cs, uplink, fewer)
  {
    if cs != [] {
      var front, last := cs[..|cs| - 1], cs[|cs| - 1];
      RankedTwice(front, uplink, some, fewer);
      var rest := Ranked(front, uplink, some);
      assert (rest + [last])[..|rest|] == rest;
    }
  }

  lemma {:induction false} PickIsBest(cs: seq<Candidate>, uplink: string, r: nat) returns (k: int)
    requires Ranked(cs, uplink, {r}) != []
    ensures BestOfRank(cs, uplink, r, k) && cs[k] == Pick(Ranked(cs, uplink, {r}))
  {
    var n := |cs| - 1;
    var front, last := cs[..n], cs[n];
    var rest := Ranked(front, uplink, {r});
    if Rank(last, uplink) != r {
      k := PickIsBest(front, uplink, r);
    } else {
      assert (rest + [last])[..|rest|] == rest;
      if rest == [] {
        forall j | 0 <= j < n ensures Rank(cs[j], uplink) != r {
          RankedNone(front, uplink, {r}, j);
        }
        k := n;
      } else {
        k := PickIsBest(front, uplink, r);
        if Usb(last) && !Usb(front[k]) {
          forall j | 0 <= j < n && Rank(cs[j], uplink) == r ensures !Usb(cs[j]) {
            assert Ahead(front, k, j);
          }
          k := n;
        } else {
          forall j | 0 <= j < |cs| && Rank(cs[j], uplink) == r ensures Ahead(cs, k, j) {
            if j < n {
              assert Ahead(front, k, j);
            }
          }
        }
      }
    }
  }

  lemma BestIs(cs: seq<Candidate>, uplink: string, r: nat) returns (k: int)
    requires r < 4 && Ranked(cs, uplink, {r}) != []
    requires forall q: nat :: q < r ==> Ranked(cs, uplink, {q}) == []
    ensures Best(cs, uplink, k) && cs[k] == Pick(Ranked(cs, uplink, {r}))
  {
    k := PickIsBest(cs, uplink, r);
    forall j | 0 <= j < |cs| ensures Rank(cs[j], uplink) >= r {
      if Rank(cs[j], uplink) < r {
        RankedNone(cs, uplink, {Rank(cs[j], uplink)}, j);
      }
    }
  }

  // --- the ladder ------------------------------------------------------------

  datatype Choice = Take(c: Candidate) | BlockedRefusal(c: Candidate) | Conflict(carriesUplink: bool)

  /** The last resort: every radio left shares the uplink. */
  method LastResort(shared: seq<Candidate>, uplink: string) returns (best: Candidate)
    requires shared != [] && forall i :: 0 <= i < |shared| ==> shared[i].station.name == uplink
    ensures best == Pick(shared)
  {
    best := shared[0];
    for i := 0 to |shared|
      invariant i > 0 ==> best == Pick(shared[..i])
      invariant i == 0 ==> best == shared[0]
      invariant best.station.name == uplink
    {
      assert shared[..i + 1][..i] == shared[..i];
      var c := shared[i];
      var bestIsUplink, cIsUplink := best.station.name == uplink, c.station.name == uplink;
      if bestIsUplink && !cIsUplink {
        best := c;
        continue;
      }
      if cIsUplink && !bestIsUplink {
        continue;
      }
      if Usb(c) && !Usb(best) {
        best := c;
      }
    }
    assert shared[..|shared|] == shared;
  }

  /** A blocked radio that does not carry the uplink. */
  method BlockedOffUplink(blocked: seq<Candidate>, uplink: string) returns (found: bool, c: Candidate)
    ensures found <==> exists i :: 0 <= i < |blocked| && blocked[i].station.name != uplink
    ensures found ==> c in blocked && c.station.name != uplink
  {
    c := NO_CANDIDATE;
    for i := 0 to |blocked|
      invariant forall j :: 0 <= j < i ==> blocked[j].station.name == uplink
    {
      if blocked[i].station.name != uplink {
        return true, blocked[i];
      }
    }
    found := false;
  }

  lemma BlockedAreOnUplink(cs: seq<Candidate>, uplink: string)
    ensures forall i :: 0 <= i < |Ranked(cs, uplink, {4})| ==> Ranked(cs, uplink, {4})[i].station.name == uplink
  {
    forall i | 0 <= i < |Ranked(cs, uplink, {4})| ensures Ranked(cs, uplink, {4})[i].station.name == uplink {
      RankedHas(cs, uplink, {4}, i);
    }
  }

  lemma SharedAreOnUplink(cs: seq<Candidate>, uplink: string)
    requires Ranked(cs, uplink, {1}) == []
    ensures var shared := Ranked(cs, uplink, {1, 3});
            shared == Ranked(cs, uplink, {3}) && forall i :: 0 <= i < |shared| ==> shared[i].station.name == uplink
  {
    if cs != [] {
      SharedAreOnUplink(cs[..|cs| - 1], uplink);
    }
  }

  /** Sorting the candidates into the four lists. */
  method Sort(cs: seq<Candidate>, uplink: string)
    returns (free: seq<Candidate>, shared: seq<Candidate>, takeoverable: seq<Candidate>, blocked: seq<Candidate>)
    ensures free == Ranked(cs, uplink, {0}) && shared == Ranked(cs, uplink, {1, 3})
    ensures takeoverable == Ranked(cs, uplink, {2}) && blocked == Ranked(cs, uplink, {4})
  {
    free, shared, takeoverable, blocked := [], [], [], [];
    for i := 0 to |cs|
      invariant free == Ranked(cs[..i], uplink, {0}) && shared == Ranked(cs[..i], uplink, {1, 3})
      invariant takeoverable == Ranked(cs[..i], uplink, {2}) && blocked == Ranked(cs[..i], uplink, {4})
    {
      assert cs[..i + 1][..i] == cs[..i];
      var c := cs[i];
      if c.station.name == "" {
        free := free + [c];
        continue;
      }
      var declares, _ := APWithStation(c.phy);
      if declares {
        shared := shared + [c];
        continue;
      }
      if c.station.name != uplink {
        takeoverable := takeoverable + [c];
        continue;
      }
      blocked := blocked + [c];
    }
    assert cs[..|cs|] == cs;
  }

  method OffUplink(shared: seq<Candidate>, uplink: string, ghost cs: seq<Candidate>) returns (out: seq<Candidate>)
    requires shared == Ranked(cs, uplink, {1, 3})
    ensures out == Ranked(cs, uplink, {1})
  {
    RankedTwice(cs, uplink, {1, 3}, {1});
    out := [];
    for i := 0 to |shared|
      invariant out == Ranked(shared[..i], uplink, {1})
    {
      assert shared[..i + 1][..i] == shared[..i];
      RankedHas(cs, uplink, {1, 3}, i);
      if shared[i].station.name == uplink {
        continue;
      }
      out := out + [shared[i]];
    }
    assert shared[..|shared|] == shared;
  }

  /** The ladder takes the best candidate there is. Neither refusal that names a
      blocked adapter can happen, nor the one for radios that all carry some other
      link: there is no choice exactly when every radio carries the uplink and
      cannot share it. */
  method ChooseRadio(cs: seq<Candidate>, uplink: string) returns (r: Choice)
    requires cs != []
    ensures r.Take? ==> exists k :: Best(cs, uplink, k) && r.c == cs[k]
    ensures r.Take? <==> exists k :: 0 <= k < |cs| && Rank(cs[k], uplink) < 4
    ensures !r.BlockedRefusal? && (r.Conflict? ==> r.carriesUplink)
  {
    var free, shared, takeoverable, blocked := Sort(cs, uplink);
    BlockedAreOnUplink(cs, uplink);
    if |free| > 0 {
      var best := PreferUSB(free);
      ghost var k := BestIs(cs, uplink, 0);
      return Take(best);
    }
    var sharedNotUplink := OffUplink(shared, uplink, cs);
    if |sharedNotUplink| > 0 {
      var best := PreferUSB(sharedNotUplink);
      ghost var k := BestIs(cs, uplink, 1);
      return Take(best);
    }
    SharedAreOnUplink(cs, uplink);
    if |takeoverable| > 0 {
      var best := PreferUSB(takeoverable);
      ghost var k := BestIs(cs, uplink, 2);
      return Take(best);
    }
    var refused, c := BlockedOffUplink(blocked, uplink);
    if |shared| > 0 {
      var best := LastResort(shared, uplink);
      ghost var k := BestIs(cs, uplink, 3);
      if best.station.name == uplink && refused {
        return BlockedRefusal(c);
      }
      return Take(best);
    }
    if refused {
      return BlockedRefusal(c);
    }
    forall j | 0 <= j < |cs| ensures Rank(cs[j], uplink) == 4 && cs[j].station.name == uplink {
      RankedNone(cs, uplink, {0}, j);
      RankedNone(cs, uplink, {1}, j);
      RankedNone(cs, uplink, {2}, j);
      RankedNone(cs, uplink, {3}, j);
    }
    var carriesUplink := false;
    for i := 0 to |cs|
      invariant i > 0 ==> carriesUplink
    {
      if cs[i].station.name == uplink {
        carriesUplink := true;
      }
    }
    return Conflict(carriesUplink);
  }
}
