// Address ranges that collide with nothing the machine is already on.

module Subnet {
  import opened Commands

  datatype Addr = Addr(v6: bool, value: nat)

  /** A prefix as netip keeps it: an address, which need not be the network's, and
      a length. */
  datatype Prefix = Prefix(addr: Addr, bits: int)

  function Width(v6: bool): nat {
    if v6 then 128 else 32
  }

  function Pow2(n: nat): (r: nat)
    ensures r > 0
  {
    if n == 0 then 1 else 2 * Pow2(n - 1)
  }

  predicate ValidAddr(a: Addr) {
    a.value < Pow2(Width(a.v6))
  }

  predicate Valid(p: Prefix) {
    0 <= p.bits <= Width(p.addr.v6) && ValidAddr(p.addr)
  }

  /** A value without its last n bits. */
  function Drop(x: nat, n: nat): nat {
    if n == 0 then x else Drop(x / 2, n - 1)
  }

  /** A value with n zero bits after it. */
  function Pad(x: nat, n: nat): nat {
    if n == 0 then x else 2 * Pad(x, n - 1)
  }

  /** The first bits of an address. */
  function Leading(a: Addr, bits: nat): nat
    requires bits <= Width(a.v6)
  {
    Drop(a.value, Width(a.v6) - bits)
  }

  function Masked(p: Prefix): Prefix
    requires Valid(p)
  {
    p.(addr := p.addr.(value := Pad(Leading(p.addr, p.bits), Width(p.addr.v6) - p.bits)))
  }

  predicate Contains(p: Prefix, a: Addr)
    requires Valid(p)
  {
    a.v6 == p.addr.v6 && Leading(a, p.bits) == Leading(p.addr, p.bits)
  }

  /** The masked prefixes agree on the bits of the shorter one. */
  predicate Overlaps(a: Prefix, b: Prefix) {
    && Valid(a) && Valid(b)
    && a.addr.v6 == b.addr.v6
    && var bits := if a.bits < b.bits then a.bits else b.bits;
       Leading(Masked(a).addr, bits) == Leading(Masked(b).addr, bits)
  }

  // --- bits ------------------------------------------------------------------

  lemma {:induction false} DropTwice(x: nat, n: nat, m: nat)
    ensures Drop(x, n + m) == Drop(Drop(x, n), m)
  {
    if n > 0 {
      DropTwice(x / 2, n - 1, m);
    }
  }

  lemma {:induction false} DropPad(x: nat, n: nat)
    ensures Drop(Pad(x, n), n) == x
  {
    if n > 0 {
      assert Pad(x, n) / 2 == Pad(x, n - 1);
      DropPad(x, n - 1);
    }
  }

  /** Addresses that agree on some bits agree on fewer. */
  lemma Coarser(x: Addr, y: Addr, bits: nat, fewer: nat)
    requires x.v6 == y.v6 && fewer <= bits <= Width(x.v6)
    requires Leading(x, bits) == Leading(y, bits)
    ensures Leading(x, fewer) == Leading(y, fewer)
  {
    DropTwice(x.value, Width(x.v6) - bits, bits - fewer);
    DropTwice(y.value, Width(x.v6) - bits, bits - fewer);
  }

  lemma MaskKeeps(p: Prefix, fewer: nat)
    requires Valid(p) && fewer <= p.bits
    ensures Leading(Masked(p).addr, fewer) == Leading(p.addr, fewer)
  {
    DropPad(Leading(p.addr, p.bits), Width(p.addr.v6) - p.bits);
    Coarser(Masked(p).addr, p.addr, p.bits, fewer);
  }

  lemma {:induction false} DropBound(x: nat, n: nat, m: nat)
    requires x < Pow2(n + m)
    ensures Drop(x, n) < Pow2(m)
  {
    if n > 0 {
      DropBound(x / 2, n - 1, m);
    }
  }

  /** A whole block above a network's address is still in range. */
  lemma {:induction false} PadBound(x: nat, n: nat, m: nat)
    requires x < Pow2(m)
    ensures Pad(x, n) + Pow2(n) <= Pow2(n + m)
  {
    if n > 0 {
      PadBound(x, n - 1, m);
    }
  }

  // --- what overlapping means ------------------------------------------------

  predicate Shared(a: Prefix, b: Prefix, x: Addr) {
    Valid(a) && Valid(b) && ValidAddr(x) && Contains(a, x) && Contains(b, x)
  }

  lemma SharedMeansOverlap(a: Prefix, b: Prefix, x: Addr)
    requires Shared(a, b, x)
    ensures Overlaps(a, b)
  {
    var bits := if a.bits < b.bits then a.bits else b.bits;
    MaskKeeps(a, bits);
    MaskKeeps(b, bits);
    Coarser(x, a.addr, a.bits, bits);
    Coarser(x, b.addr, b.bits, bits);
  }

  lemma OverlapMeansShared(a: Prefix, b: Prefix)
    requires Overlaps(a, b)
    ensures exists x :: Shared(a, b, x)
  {
    var bits := if a.bits < b.bits then a.bits else b.bits;
    MaskKeeps(a, bits);
    MaskKeeps(b, bits);
    assert Shared(a, b, if a.bits < b.bits then b.addr else a.addr);
  }

  /** Overlaps holds exactly when some address lies in both prefixes. */
  lemma OverlapsIffShared(a: Prefix, b: Prefix)
    ensures Overlaps(a, b) <==> exists x :: Shared(a, b, x)
  {
    if Overlaps(a, b) {
      OverlapMeansShared(a, b);
    }
    if x :| Shared(a, b, x) {
      SharedMeansOverlap(a, b, x);
    }
  }

  lemma MaskedIsSame(p: Prefix)
    requires Valid(p)
    ensures Valid(Masked(p)) && forall x :: Contains(Masked(p), x) <==> Contains(p, x)
  {
    MaskKeeps(p, p.bits);
    var n := Width(p.addr.v6) - p.bits;
    DropBound(p.addr.value, n, p.bits);
    PadBound(Leading(p.addr, p.bits), n, p.bits);
  }

  // --- choosing --------------------------------------------------------------

  /** No address is in both. */
  ghost predicate Disjoint(a: Prefix, b: Prefix) {
    forall x :: !Shared(a, b, x)
  }

  predicate ClashesWith(p: Prefix, taken: seq<Prefix>) {
    exists t :: 0 <= t < |taken| && Overlaps(p, taken[t])
  }

  /** What netip's Masked gives: an invalid prefix stays invalid. */
  function MaskedAny(p: Prefix): Prefix {
    if Valid(p) then Masked(p) else p
  }

  /** p is pool entry i, masked: free itself, and no entry before it is. */
  predicate Chosen(pool: seq<Prefix>, taken: seq<Prefix>, i: int, p: Prefix) {
    && 0 <= i < |pool|
    && !ClashesWith(pool[i], taken)
    && (forall j :: 0 <= j < i ==> ClashesWith(pool[j], taken))
    && p == MaskedAny(pool[i])
  }

  method ChooseSubnet(pool: seq<Prefix>, taken: seq<Prefix>) returns (r: Option<Prefix>)
    ensures r.None? <==> forall i :: 0 <= i < |pool| ==> ClashesWith(pool[i], taken)
    ensures r.Some? ==> exists i :: Chosen(pool, taken, i, r.value)
  {
    var i := 0;
    while i < |pool|
      invariant 0 <= i <= |pool|
      invariant forall j :: 0 <= j < i ==> ClashesWith(pool[j], taken)
    {
      var clash := false;
      var t := 0;
      while t < |taken|
        invariant 0 <= t <= |taken|
        invariant !clash
        invariant forall k :: 0 <= k < t ==> !Overlaps(pool[i], taken[k])
      {
        if Overlaps(pool[i], taken[t]) {
          clash := true;
          break;
        }
        t := t + 1;
      }
      if !clash {
        assert !ClashesWith(pool[i], taken);
        assert Chosen(pool, taken, i, MaskedAny(pool[i]));
        return Some(MaskedAny(pool[i]));
      }
      i := i + 1;
    }
    return None;
  }

  /** There is one choice. */
  lemma OneChosen(pool: seq<Prefix>, taken: seq<Prefix>, i: int, p: Prefix)
    requires Chosen(pool, taken, i, p)
    ensures forall j, q :: Chosen(pool, taken, j, q) ==> j == i && q == p
  {
    forall j, q | Chosen(pool, taken, j, q) ensures j == i && q == p {
      assert !(j < i) && !(i < j);
    }
  }

  lemma ChosenIsFree(pool: seq<Prefix>, taken: seq<Prefix>, i: int, p: Prefix, t: int)
    requires Chosen(pool, taken, i, p) && 0 <= t < |taken|
    ensures Disjoint(p, taken[t])
  {
    forall x ensures !Shared(p, taken[t], x) {
      if Shared(p, taken[t], x) && Valid(pool[i]) {
        MaskedIsSame(pool[i]);
        SharedMeansOverlap(pool[i], taken[t], x);
      }
    }
  }

  // --- the addresses the box takes -------------------------------------------

  function Next(a: Addr): Option<Addr> {
    if a.value + 1 < Pow2(Width(a.v6)) then Some(a.(value := a.value + 1)) else None
  }

  /** The first address after the network's, if the prefix has room for one. */
  function GatewayAddr(p: Prefix): Option<Addr> {
    if !Valid(p) || (!p.addr.v6 && p.bits > 30) then None
    else
      var a := Next(Masked(p).addr);
      if a.None? || !Contains(p, a.value) then None else a
  }

  function PeerAddr(p: Prefix): Option<Addr> {
    var gw := GatewayAddr(p);
    if gw.None? then None
    else
      var a := Next(gw.value);
      if a.None? || !Contains(p, a.value) then None else a
  }

  /** Drop does not see the two bits it drops first. */
  lemma DropSmall(x: nat, k: nat, n: nat)
    requires n >= 2 && k < 4
    ensures Drop(Pad(x, n) + k, n) == x
  {
    assert Pad(x, n) == 4 * Pad(x, n - 2);
    assert Drop(Pad(x, n) + k, n) == Drop((Pad(x, n) + k) / 2 / 2, n - 2);
    DropPad(x, n - 2);
  }

  /** Which prefixes give the box a gateway and a peer: exactly those that leave at
      least two bits for hosts; a /127 gives a gateway alone. Both addresses are in
      the prefix, and with the network's address they are three different ones. */
  lemma GatewayAndPeer(p: Prefix)
    ensures GatewayAddr(p).Some? <==> Valid(p) && p.bits <= (if p.addr.v6 then 127 else 30)
    ensures PeerAddr(p).Some? <==> Valid(p) && p.bits <= Width(p.addr.v6) - 2
    ensures GatewayAddr(p).Some? ==> Contains(p, GatewayAddr(p).value) && GatewayAddr(p).value.value == Masked(p).addr.value + 1
    ensures PeerAddr(p).Some? ==> Contains(p, PeerAddr(p).value) && PeerAddr(p).value.value == Masked(p).addr.value + 2
  {
    if Valid(p) {
      var n := Width(p.addr.v6) - p.bits;
      var net := Leading(p.addr, p.bits);
      DropBound(p.addr.value, n, p.bits);
      PadBound(net, n, p.bits);
      if n >= 2 {
        assert Pow2(n) == 4 * Pow2(n - 2);
        DropSmall(net, 1, n);
        DropSmall(net, 2, n);
      } else if n == 1 {
        assert Pad(net, 1) == 2 * net;
        assert Drop(2 * net + 1, 1) == net && Drop(2 * net + 2, 1) == net + 1;
      } else {
        assert Pad(net, 0) == net && Drop(net + 1, 0) == net + 1;
      }
    }
  }

  // --- what is occupied ------------------------------------------------------

  function MaskedAll(ps: seq<Prefix>): seq<Prefix> {
    if ps == [] then [] else MaskedAll(ps[..|ps| - 1]) + [MaskedAny(ps[|ps| - 1])]
  }

  function LinkPrefixes(links: seq<seq<Prefix>>): seq<Prefix> {
    if links == [] then [] else LinkPrefixes(links[..|links| - 1]) + MaskedAll(links[|links| - 1])
  }

  function Hosts(gateways: seq<Addr>): seq<Prefix> {
    if gateways == [] then [] else Hosts(gateways[..|gateways| - 1]) + [HostPrefix(gateways[|gateways| - 1])]
  }

  /** Every network a link has an address on, then every gateway as a network of one. */
  function Occupied(links: seq<seq<Prefix>>, gateways: seq<Addr>): seq<Prefix> {
    LinkPrefixes(links) + Hosts(gateways)
  }

  method OccupiedPrefixes(links: seq<seq<Prefix>>, gateways: seq<Addr>) returns (out: seq<Prefix>)
    ensures out == Occupied(links, gateways)
  {
    out := [];
    for l := 0 to |links|
      invariant out == LinkPrefixes(links[..l])
    {
      assert links[..l + 1][..l] == links[..l];
      for k := 0 to |links[l]|
        invariant out == LinkPrefixes(links[..l]) + MaskedAll(links[l][..k])
      {
        assert links[l][..k + 1][..k] == links[l][..k];
        out := out + [MaskedAny(links[l][k])];
      }
      assert links[l][..|links[l]|] == links[l];
    }
    assert links[..|links|] == links;
    for g := 0 to |gateways|
      invariant out == LinkPrefixes(links) + Hosts(gateways[..g])
    {
      assert gateways[..g + 1][..g] == gateways[..g];
      out := out + [HostPrefix(gateways[g])];
    }
    assert gateways[..|gateways|] == gateways;
  }

  lemma {:induction false} LinkIsOccupied(links: seq<seq<Prefix>>, l: nat, k: nat)
    requires l < |links| && k < |links[l]|
    ensures MaskedAny(links[l][k]) in LinkPrefixes(links)
  {
    var last := |links| - 1;
    if l == last {
      InMaskedAll(links[l], k);
    } else {
      LinkIsOccupied(links[..last], l, k);
    }
  }

  lemma {:induction false} InMaskedAll(ps: seq<Prefix>, k: nat)
    requires k < |ps|
    ensures MaskedAny(ps[k]) in MaskedAll(ps)
  {
    if k < |ps| - 1 {
      InMaskedAll(ps[..|ps| - 1], k);
    }
  }

  lemma {:induction false} InHosts(gateways: seq<Addr>, g: nat)
    requires g < |gateways|
    ensures HostPrefix(gateways[g]) in Hosts(gateways)
  {
    if g < |gateways| - 1 {
      InHosts(gateways[..|gateways| - 1], g);
    }
  }

  function HostPrefix(a: Addr): Prefix {
    Prefix(a, Width(a.v6))
  }

  // --- the plan's two subnets ------------------------------------------------

  datatype Subnets = Subnets(hotspot: Prefix, gateway: Addr, tunnel: Prefix, tunAddr: Addr, tunPeer: Addr)

  /** p shares no address with a network a link is on, and holds no gateway. */
  ghost predicate Clear(p: Prefix, links: seq<seq<Prefix>>, gateways: seq<Addr>) {
    && (forall l, k :: 0 <= l < |links| && 0 <= k < |links[l]| ==> Disjoint(p, links[l][k]))
    && (forall g :: 0 <= g < |gateways| && ValidAddr(gateways[g]) && Valid(p) ==> !Contains(p, gateways[g]))
  }

  lemma ClearOfOccupied(p: Prefix, links: seq<seq<Prefix>>, gateways: seq<Addr>)
    requires forall t :: t in Occupied(links, gateways) ==> Disjoint(p, t)
    ensures Clear(p, links, gateways)
  {
    forall l, k | 0 <= l < |links| && 0 <= k < |links[l]| ensures Disjoint(p, links[l][k]) {
      LinkIsOccupied(links, l, k);
      assert Disjoint(p, MaskedAny(links[l][k]));
      if Valid(links[l][k]) {
        MaskedIsSame(links[l][k]);
        forall x ensures !Shared(p, links[l][k], x) {
          assert !Shared(p, Masked(links[l][k]), x);
        }
      }
    }
    forall g | 0 <= g < |gateways| && ValidAddr(gateways[g]) && Valid(p) ensures !Contains(p, gateways[g]) {
      InHosts(gateways, g);
      assert HostPrefix(gateways[g]) in Occupied(links, gateways);
      assert Disjoint(p, HostPrefix(gateways[g]));
      assert !Shared(p, HostPrefix(gateways[g]), gateways[g]);
    }
  }

  lemma ChosenIsClear(pool: seq<Prefix>, taken: seq<Prefix>, i: int, p: Prefix)
    requires Chosen(pool, taken, i, p)
    ensures forall t :: t in taken ==> Disjoint(p, t)
    ensures Valid(p) ==> Masked(p) == p
  {
    forall t | t in taken ensures Disjoint(p, t) {
      var k :| 0 <= k < |taken| && taken[k] == t;
      ChosenIsFree(pool, taken, i, p, k);
    }
    if Valid(pool[i]) {
      MaskedTwice(pool[i]);
    }
  }

  /** What the addressing part of a plan promises. */
  ghost predicate Sited(s: Subnets, byHand: Option<Prefix>, links: seq<seq<Prefix>>, gateways: seq<Addr>) {
    && Valid(s.hotspot) && Valid(s.tunnel)
    && Disjoint(s.tunnel, s.hotspot)
    && Clear(s.tunnel, links, gateways)
    && (byHand.None? || !Valid(byHand.value) ==> Clear(s.hotspot, links, gateways))
    && (byHand.Some? && Valid(byHand.value) ==> s.hotspot == Masked(byHand.value))
    && Contains(s.hotspot, s.gateway) && Contains(s.tunnel, s.tunAddr) && Contains(s.tunnel, s.tunPeer)
    && s.gateway != s.hotspot.addr && s.tunAddr != s.tunPeer
  }

  lemma MaskedTwice(p: Prefix)
    requires Valid(p)
    ensures Valid(Masked(p)) && Masked(Masked(p)) == Masked(p)
  {
    MaskedIsSame(p);
    MaskKeeps(p, p.bits);
  }

  predicate AllClash(pool: seq<Prefix>, taken: seq<Prefix>) {
    forall i :: 0 <= i < |pool| ==> ClashesWith(pool[i], taken)
  }

  /** The hotspot's range: set by hand, or the first free of the pool. */
  ghost predicate HotspotRange(byHand: Option<Prefix>, pool: seq<Prefix>, taken: seq<Prefix>, h: Prefix) {
    if byHand.Some? && Valid(byHand.value) then h == Masked(byHand.value)
    else exists i :: Chosen(pool, taken, i, h)
  }

  /** Why there is no plan: no range left for the hotspot, or, with a hotspot's range
      settled, no gateway on it, none left for the tunnel, or no peer on that. */
  ghost predicate NoRoom(byHand: Option<Prefix>, hotspotPool: seq<Prefix>, tunnelPool: seq<Prefix>, taken: seq<Prefix>) {
    || ((byHand.None? || !Valid(byHand.value)) && AllClash(hotspotPool, taken))
    || (exists h :: HotspotRange(byHand, hotspotPool, taken, h) && NoTunnel(tunnelPool, taken, h))
  }

  ghost predicate NoTunnel(tunnelPool: seq<Prefix>, taken: seq<Prefix>, h: Prefix) {
    || GatewayAddr(h).None?
    || AllClash(tunnelPool, taken + [h])
    || (exists j, t :: Chosen(tunnelPool, taken + [h], j, t) && PeerAddr(t).None?)
  }

  /** The addressing part of PlanNetwork: the hotspot's range by hand or from the
      pool, then the tunnel's, clear of everything occupied and of the hotspot. */
  method PlanSubnets(byHand: Option<Prefix>, hotspotPool: seq<Prefix>, tunnelPool: seq<Prefix>,
                     links: seq<seq<Prefix>>, gateways: seq<Addr>) returns (r: Option<Subnets>)
    ensures r.Some? ==> Sited(r.value, byHand, links, gateways)
    ensures r.Some? ==> HotspotRange(byHand, hotspotPool, Occupied(links, gateways), r.value.hotspot)
    ensures r.None? <==> NoRoom(byHand, hotspotPool, tunnelPool, Occupied(links, gateways))
  {
    var taken := OccupiedPrefixes(links, gateways);
    var hotspot: Prefix;
    if byHand.Some? && Valid(byHand.value) {
      hotspot := Masked(byHand.value);
      MaskedTwice(byHand.value);
    } else {
      var sub := ChooseSubnet(hotspotPool, taken);
      if sub.None? { return None; }
      hotspot := sub.value;
      ghost var i :| Chosen(hotspotPool, taken, i, hotspot);
      OneChosen(hotspotPool, taken, i, hotspot);
      ChosenIsClear(hotspotPool, taken, i, hotspot);
      ClearOfOccupied(hotspot, links, gateways);
    }
    var gateway := GatewayAddr(hotspot);
    assert HotspotRange(byHand, hotspotPool, taken, hotspot);
    assert forall h :: HotspotRange(byHand, hotspotPool, taken, h) ==> h == hotspot;
    if gateway.None? {
      assert NoTunnel(tunnelPool, taken, hotspot);
      return None;
    }
    GatewayAndPeer(hotspot);

    var all := taken + [hotspot];
    var tun := ChooseSubnet(tunnelPool, all);
    if tun.None? { return None; }
    ghost var j :| Chosen(tunnelPool, all, j, tun.value);
    OneChosen(tunnelPool, all, j, tun.value);
    ChosenIsClear(tunnelPool, all, j, tun.value);
    ClearOfOccupied(tun.value, links, gateways);
    var tunAddr, tunPeer := GatewayAddr(tun.value), PeerAddr(tun.value);
    if tunAddr.None? || tunPeer.None? { return None; }
    assert !NoTunnel(tunnelPool, taken, hotspot);
    GatewayAndPeer(tun.value);
    r := Some(Subnets(hotspot, gateway.value, tun.value, tunAddr.value, tunPeer.value));
  }
}
