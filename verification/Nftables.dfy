// The generated ruleset as chains of rules with first-match meaning, and exactly
// which packets each chain lets through.

module Nftables {
  import opened Commands
  import opened Subnet

  // --- packets and rules -----------------------------------------------------

  datatype Ct = New | Established | Related | Invalid | Untracked

  datatype L4 = Tcp(sport: nat, dport: nat) | Udp(sport: nat, dport: nat) | Icmp(kind: nat) | Icmp6(kind: nat) | OtherL4

  datatype Packet = Packet(iif: string, oif: string, v6: bool, saddr: Addr, daddr: Addr, l4: L4, ct: Ct)

  datatype Verdict = Accept | Drop | Reject | Redirect(port: nat) | Masquerade

  datatype L4Match =
    | AnyL4
    | TcpTo(port: nat)
    | UdpTo(port: nat)
    | UdpBetween(from: nat, to: nat)
    | IcmpKind(kind: nat)
    | Icmp6Kind(kinds: set<nat>)

  /** A rule matches when everything it names does; a None names nothing. */
  datatype Rule = Rule(iif: Option<string>, oif: Option<string>, v6: Option<bool>, l4: L4Match,
                       ct: Option<set<Ct>>, saddr: Option<Prefix>, daddr: Option<Prefix>, verdict: Verdict)

  datatype Chain = Chain(policy: Verdict, rules: seq<Rule>)

  datatype Table = Table(input: Chain, forward: Chain, output: Chain, prerouting: Chain, postrouting: Chain)

  predicate MatchesL4(m: L4Match, l4: L4) {
    match m
    case AnyL4 => true
    case TcpTo(n) => l4.Tcp? && l4.dport == n
    case UdpTo(n) => l4.Udp? && l4.dport == n
    case UdpBetween(f, t) => l4.Udp? && l4.sport == f && l4.dport == t
    case IcmpKind(k) => l4.Icmp? && l4.kind == k
    case Icmp6Kind(ks) => l4.Icmp6? && l4.kind in ks
  }

  /** An address in a subnet of its own family. */
  predicate Within(a: Addr, p: Prefix) {
    Valid(p) && Subnet.Contains(p, a)
  }

  predicate Matches(r: Rule, p: Packet) {
    && (r.iif.Some? ==> p.iif == r.iif.value)
    && (r.oif.Some? ==> p.oif == r.oif.value)
    && (r.v6.Some? ==> p.v6 == r.v6.value)
    && MatchesL4(r.l4, p.l4)
    && (r.ct.Some? ==> p.ct in r.ct.value)
    && (r.saddr.Some? ==> Within(p.saddr, r.saddr.value))
    && (r.daddr.Some? ==> Within(p.daddr, r.daddr.value))
  }

  /** The verdict of the first rule that matches. */
  function First(rules: seq<Rule>, p: Packet): Option<Verdict> {
    if rules == [] then None
    else if Matches(rules[0], p) then Some(rules[0].verdict)
    else First(rules[1..], p)
  }

  function Decide(c: Chain, p: Packet): Verdict {
    match First(c.rules, p)
    case Some(v) => v
    case None => c.policy
  }

  // --- the generator ---------------------------------------------------------

  datatype ForwardState = ForwardNormal | ForwardCut

  datatype Plan = Plan(hotspot: string, uplink: string, tun: string, subnet: Prefix, servers: seq<Addr>,
                       dnsPort: nat, panelPort: nat, egressOpen: bool, ipv6Block: bool, isolation: bool, masquerade: bool)

  const ANY := Rule(None, None, None, AnyL4, None, None, None, Accept)
  const LO := "lo"
  const ROUTER_ADVERT: nat := 134
  const ND_KINDS: set<nat> := {135, 136, 133, 1, 2, 3, 4}

  /** Append a rule when the branch that writes it is taken. */
  function Add(rules: seq<Rule>, taken: bool, r: Rule): seq<Rule> {
    if taken then rules + [r] else rules
  }

  function From(name: string): Rule {
    ANY.(iif := Some(name))
  }

  function To(name: string): Rule {
    ANY.(oif := Some(name))
  }

  function FromTo(iif: string, oif: string): Rule {
    ANY.(iif := Some(iif), oif := Some(oif))
  }

  const INVALID_DROP := ANY.(ct := Some({Ct.Invalid}), verdict := Drop)
  const REPLIES := {Established, Related}

  function InputRules(p: Plan): seq<Rule> {
    var r := Add([], true, From(LO));
    var r := Add(r, true, INVALID_DROP);
    var r := Add(r, true, From(p.tun));
    var r := Add(r, true, From(p.hotspot).(ct := Some(REPLIES)));
    var r := Add(r, true, From(p.hotspot).(l4 := UdpTo(67)));
    var r := Add(r, true, From(p.hotspot).(l4 := UdpTo(p.dnsPort)));
    var r := Add(r, true, From(p.hotspot).(l4 := TcpTo(p.dnsPort)));
    var r := Add(r, true, From(p.hotspot).(l4 := TcpTo(p.panelPort)));
    var r := Add(r, true, From(p.hotspot).(v6 := Some(false), l4 := IcmpKind(8)));
    Add(r, true, From(p.hotspot).(verdict := Drop))
  }

  /** The part of the forward chain that the cut leaves as it is: drops only. */
  function ForwardDrops(p: Plan): seq<Rule> {
    var r := Add([], true, FromTo(p.hotspot, p.uplink).(verdict := Drop));
    var r := Add(r, p.ipv6Block, From(p.hotspot).(v6 := Some(true), verdict := Drop));
    var r := Add(r, p.ipv6Block, To(p.hotspot).(v6 := Some(true), verdict := Drop));
    var r := Add(r, true, From(p.hotspot).(l4 := TcpTo(853), verdict := Reject));
    var r := Add(r, true, From(p.hotspot).(l4 := UdpTo(853), verdict := Drop));
    var r := Add(r, p.isolation, FromTo(p.hotspot, p.hotspot).(verdict := Drop));
    Add(r, true, INVALID_DROP)
  }

  function ForwardRules(p: Plan, state: ForwardState): seq<Rule> {
    var r := ForwardDrops(p);
    if state == ForwardCut then
      Add(r, true, From(p.hotspot).(verdict := Drop))
    else
      var r := Add(r, true, FromTo(p.hotspot, p.tun).(v6 := Some(false), saddr := Some(p.subnet)));
      Add(r, true, FromTo(p.tun, p.hotspot).(v6 := Some(false), daddr := Some(p.subnet)))
  }

  function OpenOutput(p: Plan): seq<Rule> {
    var r := Add([], true, To(p.tun));
    Add(r, true, To(p.hotspot).(l4 := Icmp6Kind({ROUTER_ADVERT}), verdict := Drop))
  }

  function RestrictedHead(p: Plan): seq<Rule> {
    var r := Add([], true, ANY.(ct := Some(REPLIES)));
    var r := Add(r, true, To(LO));
    var r := Add(r, true, To(p.tun));
    var r := Add(r, true, To(p.hotspot).(l4 := Icmp6Kind({ROUTER_ADVERT}), verdict := Drop));
    var r := Add(r, true, ANY.(l4 := UdpBetween(68, 67)));
    var r := Add(r, true, ANY.(l4 := UdpBetween(67, 68)));
    var r := Add(r, true, ANY.(l4 := UdpTo(123)));
    var r := Add(r, true, ANY.(l4 := UdpTo(53)));
    Add(r, true, ANY.(l4 := TcpTo(53)))
  }

  function ServerRule(a: Addr): Rule {
    ANY.(v6 := Some(a.v6), daddr := Some(HostPrefix(a)))
  }

  function ServerRules(servers: seq<Addr>): seq<Rule> {
    if servers == [] then [] else ServerRules(servers[..|servers| - 1]) + [ServerRule(servers[|servers| - 1])]
  }

  const ND_ACCEPT := ANY.(v6 := Some(true), l4 := Icmp6Kind(ND_KINDS))

  function RestrictedOutput(p: Plan): seq<Rule> {
    Add(RestrictedHead(p) + ServerRules(p.servers), true, ND_ACCEPT)
  }

  /** The output chain that covers the box itself, written rule by rule. */
  method WriteRestrictedOutput(p: Plan) returns (c: Chain)
    ensures c == Chain(Drop, RestrictedOutput(p))
  {
    var rules := RestrictedHead(p);
    for i := 0 to |p.servers|
      invariant rules == RestrictedHead(p) + ServerRules(p.servers[..i])
    {
      assert p.servers[..i + 1][..i] == p.servers[..i];
      rules := rules + [ServerRule(p.servers[i])];
    }
    assert p.servers[..|p.servers|] == p.servers;
    rules := rules + [ND_ACCEPT];
    c := Chain(Drop, rules);
  }

  function PreroutingRules(p: Plan): seq<Rule> {
    var r := Add([], true, From(p.hotspot).(l4 := UdpTo(53), verdict := Redirect(p.dnsPort)));
    Add(r, true, From(p.hotspot).(l4 := TcpTo(53), verdict := Redirect(p.dnsPort)))
  }

  function PostroutingRules(p: Plan): seq<Rule> {
    Add([], p.masquerade, To(p.tun).(verdict := Masquerade))
  }

  function OutputChain(p: Plan): Chain {
    if p.egressOpen then Chain(Accept, OpenOutput(p)) else Chain(Drop, RestrictedOutput(p))
  }

  function Ruleset(p: Plan, state: ForwardState): Table {
    Table(Chain(Accept, InputRules(p)), Chain(Drop, ForwardRules(p, state)), OutputChain(p),
          Chain(Accept, PreroutingRules(p)), Chain(Accept, PostroutingRules(p)))
  }

  method RulesetFor(p: Plan, state: ForwardState) returns (t: Table)
    ensures t == Ruleset(p, state)
  {
    var output := Chain(Accept, OpenOutput(p));
    if !p.egressOpen {
      output := WriteRestrictedOutput(p);
    }
    t := Table(Chain(Accept, InputRules(p)), Chain(Drop, ForwardRules(p, state)), output,
               Chain(Accept, PreroutingRules(p)), Chain(Accept, PostroutingRules(p)));
  }

  // --- first match, rule by rule ---------------------------------------------

  lemma {:induction false} FirstConcat(a: seq<Rule>, b: seq<Rule>, p: Packet)
    ensures First(a + b, p) == if First(a, p).Some? then First(a, p) else First(b, p)
  {
    if a == [] {
      assert a + b == b;
    } else {
      assert (a + b)[1..] == a[1..] + b;
      FirstConcat(a[1..], b, p);
    }
  }

  lemma FirstAdd(rules: seq<Rule>, taken: bool, r: Rule, p: Packet)
    ensures First(Add(rules, taken, r), p) ==
            if First(rules, p).Some? then First(rules, p) else if taken && Matches(r, p) then Some(r.verdict) else None
  {
    FirstConcat(rules, [r], p);
    assert First([r], p) == if Matches(r, p) then Some(r.verdict) else None;
  }

  // --- forwarding ------------------------------------------------------------

  /** What the drops at the head of the forward chain refuse. */
  predicate Refused(p: Plan, k: Packet) {
    || (k.iif == p.hotspot && k.oif == p.uplink)
    || (p.ipv6Block && k.v6 && (k.iif == p.hotspot || k.oif == p.hotspot))
    || (k.iif == p.hotspot && (k.l4.Tcp? || k.l4.Udp?) && k.l4.dport == 853)
    || (p.isolation && k.iif == p.hotspot && k.oif == p.hotspot)
    || k.ct == Ct.Invalid
  }

  lemma ForwardDropsMean(p: Plan, k: Packet)
    ensures First(ForwardDrops(p), k).Some? <==> Refused(p, k)
    ensures First(ForwardDrops(p), k) != Some(Accept)
  {
    var r0 := Add([], true, FromTo(p.hotspot, p.uplink).(verdict := Drop));
    FirstAdd([], true, FromTo(p.hotspot, p.uplink).(verdict := Drop), k);
    FirstAdd(r0, p.ipv6Block, From(p.hotspot).(v6 := Some(true), verdict := Drop), k);
    var r1 := Add(r0, p.ipv6Block, From(p.hotspot).(v6 := Some(true), verdict := Drop));
    FirstAdd(r1, p.ipv6Block, To(p.hotspot).(v6 := Some(true), verdict := Drop), k);
    var r2 := Add(r1, p.ipv6Block, To(p.hotspot).(v6 := Some(true), verdict := Drop));
    FirstAdd(r2, true, From(p.hotspot).(l4 := TcpTo(853), verdict := Reject), k);
    var r3 := Add(r2, true, From(p.hotspot).(l4 := TcpTo(853), verdict := Reject));
    FirstAdd(r3, true, From(p.hotspot).(l4 := UdpTo(853), verdict := Drop), k);
    var r4 := Add(r3, true, From(p.hotspot).(l4 := UdpTo(853), verdict := Drop));
    FirstAdd(r4, p.isolation, FromTo(p.hotspot, p.hotspot).(verdict := Drop), k);
    var r5 := Add(r4, p.isolation, FromTo(p.hotspot, p.hotspot).(verdict := Drop));
    FirstAdd(r5, true, INVALID_DROP, k);
  }

  /** Client to tunnel from the subnet, or tunnel to client to the subnet. */
  predicate Tunnelled(p: Plan, k: Packet) {
    && !k.v6
    && (|| (k.iif == p.hotspot && k.oif == p.tun && Within(k.saddr, p.subnet))
        || (k.iif == p.tun && k.oif == p.hotspot && Within(k.daddr, p.subnet)))
  }

  predicate Forwarded(p: Plan, state: ForwardState, k: Packet) {
    Decide(Ruleset(p, state).forward, k) == Accept
  }

  /** Exactly what is forwarded, whatever the names are. */
  lemma ForwardMeaning(p: Plan, k: Packet)
    ensures Forwarded(p, ForwardNormal, k) <==> Tunnelled(p, k) && !Refused(p, k)
  {
    ForwardDropsMean(p, k);
    var out := FromTo(p.hotspot, p.tun).(v6 := Some(false), saddr := Some(p.subnet));
    FirstAdd(ForwardDrops(p), true, out, k);
    FirstAdd(Add(ForwardDrops(p), true, out), true, FromTo(p.tun, p.hotspot).(v6 := Some(false), daddr := Some(p.subnet)), k);
  }

  /** A cut forwards nothing at all. */
  lemma CutForwardsNothing(p: Plan, k: Packet)
    ensures !Forwarded(p, ForwardCut, k)
  {
    ForwardDropsMean(p, k);
    FirstAdd(ForwardDrops(p), true, From(p.hotspot).(verdict := Drop), k);
  }

  predicate Distinct(p: Plan) {
    p.hotspot != p.uplink && p.hotspot != p.tun && p.uplink != p.tun
  }

  /** With three different interfaces: only IPv4 between the hotspot's subnet and
      the tunnel, never DNS over TLS or QUIC, and nothing that names the uplink
      decides it. */
  lemma ForwardOnlyTunnelled(p: Plan, k: Packet)
    requires Distinct(p)
    ensures Forwarded(p, ForwardNormal, k) <==>
            && Tunnelled(p, k) && k.ct != Ct.Invalid
            && !(k.iif == p.hotspot && (k.l4.Tcp? || k.l4.Udp?) && k.l4.dport == 853)
  {
    ForwardMeaning(p, k);
  }

  lemma UplinkNameIrrelevant(p: Plan, q: Plan, state: ForwardState, k: Packet)
    requires Distinct(p) && Distinct(q) && q == p.(uplink := q.uplink)
    ensures Forwarded(p, state, k) <==> Forwarded(q, state, k)
  {
    if state == ForwardNormal {
      ForwardOnlyTunnelled(p, k);
      ForwardOnlyTunnelled(q, k);
    } else {
      CutForwardsNothing(p, k);
      CutForwardsNothing(q, k);
    }
  }

  // --- the tunnel gone -------------------------------------------------------

  predicate Names(r: Rule, iface: string) {
    r.iif == Some(iface) || r.oif == Some(iface)
  }

  function Strip(rules: seq<Rule>, iface: string): seq<Rule> {
    if rules == [] then []
    else
      var rest := Strip(rules[..|rules| - 1], iface);
      var last := rules[|rules| - 1];
      if Names(last, iface) then rest else rest + [last]
  }

  /** The rules left once every rule naming an interface is taken out. */
  method StripInterfaceRules(rules: seq<Rule>, iface: string) returns (kept: seq<Rule>)
    ensures kept == Strip(rules, iface)
    ensures forall r :: r in kept <==> r in rules && !Names(r, iface)
  {
    kept := [];
    for i := 0 to |rules|
      invariant kept == Strip(rules[..i], iface)
      invariant forall r :: r in kept <==> r in rules[..i] && !Names(r, iface)
    {
      assert rules[..i + 1] == rules[..i] + [rules[i]];
      assert rules[..i + 1][..i] == rules[..i];
      if !Names(rules[i], iface) {
        kept := kept + [rules[i]];
      }
    }
    assert rules[..|rules|] == rules;
  }

  /** Every accept names the interface. */
  predicate AcceptsName(rules: seq<Rule>, iface: string) {
    forall i :: 0 <= i < |rules| && rules[i].verdict == Accept ==> Names(rules[i], iface)
  }

  lemma {:induction false} StrippedNeverAccepts(rules: seq<Rule>, iface: string, k: Packet)
    requires AcceptsName(rules, iface)
    ensures First(Strip(rules, iface), k) != Some(Accept)
  {
    if rules != [] {
      var front, last := rules[..|rules| - 1], rules[|rules| - 1];
      StrippedNeverAccepts(front, iface, k);
      FirstAdd(Strip(front, iface), !Names(last, iface), last, k);
    }
  }

  lemma AddAcceptsName(rules: seq<Rule>, taken: bool, r: Rule, iface: string)
    requires AcceptsName(rules, iface)
    requires r.verdict == Accept ==> Names(r, iface)
    ensures AcceptsName(Add(rules, taken, r), iface)
  {
  }

  lemma ForwardDropsAcceptNothing(p: Plan)
    ensures AcceptsName(ForwardDrops(p), p.tun)
  {
    var r0 := Add([], true, FromTo(p.hotspot, p.uplink).(verdict := Drop));
    var r1 := Add(r0, p.ipv6Block, From(p.hotspot).(v6 := Some(true), verdict := Drop));
    AddAcceptsName(r0, p.ipv6Block, From(p.hotspot).(v6 := Some(true), verdict := Drop), p.tun);
    var r2 := Add(r1, p.ipv6Block, To(p.hotspot).(v6 := Some(true), verdict := Drop));
    AddAcceptsName(r1, p.ipv6Block, To(p.hotspot).(v6 := Some(true), verdict := Drop), p.tun);
    var r3 := Add(r2, true, From(p.hotspot).(l4 := TcpTo(853), verdict := Reject));
    AddAcceptsName(r2, true, From(p.hotspot).(l4 := TcpTo(853), verdict := Reject), p.tun);
    var r4 := Add(r3, true, From(p.hotspot).(l4 := UdpTo(853), verdict := Drop));
    AddAcceptsName(r3, true, From(p.hotspot).(l4 := UdpTo(853), verdict := Drop), p.tun);
    var r5 := Add(r4, p.isolation, FromTo(p.hotspot, p.hotspot).(verdict := Drop));
    AddAcceptsName(r4, p.isolation, FromTo(p.hotspot, p.hotspot).(verdict := Drop), p.tun);
    AddAcceptsName(r5, true, INVALID_DROP, p.tun);
  }

  /** With every rule that names the tunnel gone, nothing is forwarded: in either
      state, for every packet and whatever the interfaces are called. */
  lemma NothingForwardedWithoutTunnel(p: Plan, state: ForwardState, k: Packet)
    ensures Decide(Chain(Drop, Strip(ForwardRules(p, state), p.tun)), k) != Accept
  {
    ForwardDropsAcceptNothing(p);
    var out := FromTo(p.hotspot, p.tun).(v6 := Some(false), saddr := Some(p.subnet));
    AddAcceptsName(ForwardDrops(p), true, From(p.hotspot).(verdict := Drop), p.tun);
    AddAcceptsName(ForwardDrops(p), true, out, p.tun);
    AddAcceptsName(Add(ForwardDrops(p), true, out), true,
                   FromTo(p.tun, p.hotspot).(v6 := Some(false), daddr := Some(p.subnet)), p.tun);
    StrippedNeverAccepts(ForwardRules(p, state), p.tun, k);
  }

  // --- the cut ---------------------------------------------------------------

  /** The cut takes away the forward accepts and nothing else: every other chain is
      the same, and a packet it treats differently is one that was forwarded. */
  lemma CutChangesOnlyForwarding(p: Plan, k: Packet)
    ensures Ruleset(p, ForwardCut) == Ruleset(p, ForwardNormal).(forward := Ruleset(p, ForwardCut).forward)
    ensures Decide(Ruleset(p, ForwardCut).forward, k) != Decide(Ruleset(p, ForwardNormal).forward, k) <==>
            Forwarded(p, ForwardNormal, k)
  {
    ForwardDropsMean(p, k);
    var out := FromTo(p.hotspot, p.tun).(v6 := Some(false), saddr := Some(p.subnet));
    FirstAdd(ForwardDrops(p), true, out, k);
    FirstAdd(Add(ForwardDrops(p), true, out), true, FromTo(p.tun, p.hotspot).(v6 := Some(false), daddr := Some(p.subnet)), k);
    FirstAdd(ForwardDrops(p), true, From(p.hotspot).(verdict := Drop), k);
  }

  // --- what reaches the box --------------------------------------------------

  /** The services a joined device may use. */
  predicate Served(p: Plan, k: Packet) {
    || k.ct in REPLIES
    || (k.l4.Udp? && (k.l4.dport == 67 || k.l4.dport == p.dnsPort))
    || (k.l4.Tcp? && (k.l4.dport == p.dnsPort || k.l4.dport == p.panelPort))
    || (!k.v6 && k.l4.Icmp? && k.l4.kind == 8)
  }

  /** A packet to the box gets in unless it is out of state, or comes from the
      hotspot for something the box does not serve. */
  lemma InputMeaning(p: Plan, k: Packet)
    ensures Decide(Ruleset(p, ForwardNormal).input, k) == Accept <==>
            k.iif == LO || (k.ct != Ct.Invalid && (k.iif == p.tun || k.iif != p.hotspot || Served(p, k)))
  {
    FirstAdd([], true, From(LO), k);
    var r0 := Add([], true, From(LO));
    FirstAdd(r0, true, INVALID_DROP, k);
    var r1 := Add(r0, true, INVALID_DROP);
    FirstAdd(r1, true, From(p.tun), k);
    var r2 := Add(r1, true, From(p.tun));
    FirstAdd(r2, true, From(p.hotspot).(ct := Some(REPLIES)), k);
    var r3 := Add(r2, true, From(p.hotspot).(ct := Some(REPLIES)));
    FirstAdd(r3, true, From(p.hotspot).(l4 := UdpTo(67)), k);
    var r4 := Add(r3, true, From(p.hotspot).(l4 := UdpTo(67)));
    FirstAdd(r4, true, From(p.hotspot).(l4 := UdpTo(p.dnsPort)), k);
    var r5 := Add(r4, true, From(p.hotspot).(l4 := UdpTo(p.dnsPort)));
    FirstAdd(r5, true, From(p.hotspot).(l4 := TcpTo(p.dnsPort)), k);
    var r6 := Add(r5, true, From(p.hotspot).(l4 := TcpTo(p.dnsPort)));
    FirstAdd(r6, true, From(p.hotspot).(l4 := TcpTo(p.panelPort)), k);
    var r7 := Add(r6, true, From(p.hotspot).(l4 := TcpTo(p.panelPort)));
    FirstAdd(r7, true, From(p.hotspot).(v6 := Some(false), l4 := IcmpKind(8)), k);
    var r8 := Add(r7, true, From(p.hotspot).(v6 := Some(false), l4 := IcmpKind(8)));
    FirstAdd(r8, true, From(p.hotspot).(verdict := Drop), k);
  }

  // --- DNS -------------------------------------------------------------------

  /** A redirected packet, as the input chain then sees it. */
  function Redirected(k: Packet, port: nat): Packet {
    if k.l4.Tcp? || k.l4.Udp? then k.(l4 := k.l4.(dport := port)) else k
  }

  /** A client's port 53 query, to whatever resolver, is redirected to this box and
      let in, unless it is out of state. */
  lemma ClientDnsIsAnsweredHere(p: Plan, k: Packet)
    requires k.iif == p.hotspot && (k.l4.Tcp? || k.l4.Udp?) && k.l4.dport == 53
    ensures Decide(Ruleset(p, ForwardNormal).prerouting, k) == Redirect(p.dnsPort)
    ensures k.ct != Ct.Invalid ==> Decide(Ruleset(p, ForwardNormal).input, Redirected(k, p.dnsPort)) == Accept
  {
    FirstAdd([], true, From(p.hotspot).(l4 := UdpTo(53), verdict := Redirect(p.dnsPort)), k);
    var r0 := Add([], true, From(p.hotspot).(l4 := UdpTo(53), verdict := Redirect(p.dnsPort)));
    FirstAdd(r0, true, From(p.hotspot).(l4 := TcpTo(53), verdict := Redirect(p.dnsPort)), k);
    InputMeaning(p, Redirected(k, p.dnsPort));
  }

  // --- what leaves the box ---------------------------------------------------

  lemma {:induction false} ServerRulesMean(servers: seq<Addr>, k: Packet)
    requires forall i :: 0 <= i < |servers| ==> ValidAddr(servers[i])
    ensures First(ServerRules(servers), k) == if k.daddr in servers && k.v6 == k.daddr.v6 then Some(Accept) else None
  {
    if servers != [] {
      var front, last := servers[..|servers| - 1], servers[|servers| - 1];
      ServerRulesMean(front, k);
      FirstAdd(ServerRules(front), true, ServerRule(last), k);
      assert Matches(ServerRule(last), k) <==> k.v6 == last.v6 && k.daddr == last;
      assert servers == front + [last];
    }
  }

  /** The box's own traffic that the restricted chain names before the servers. */
  predicate Essential(p: Plan, k: Packet) {
    || (k.l4.Udp? && k.l4.sport == 68 && k.l4.dport == 67)
    || (k.l4.Udp? && k.l4.sport == 67 && k.l4.dport == 68)
    || (k.l4.Udp? && (k.l4.dport == 123 || k.l4.dport == 53))
    || (k.l4.Tcp? && k.l4.dport == 53)
  }

  predicate Advert(p: Plan, k: Packet) {
    k.oif == p.hotspot && k.l4.Icmp6? && k.l4.kind == ROUTER_ADVERT
  }

  predicate Settled(p: Plan, k: Packet) {
    k.ct in REPLIES || k.oif == LO || k.oif == p.tun
  }

  lemma RestrictedHeadMeans(p: Plan, k: Packet)
    ensures First(RestrictedHead(p), k) ==
            if Settled(p, k) then Some(Accept) else if Advert(p, k) then Some(Drop)
            else if Essential(p, k) then Some(Accept) else None
  {
    FirstAdd([], true, ANY.(ct := Some(REPLIES)), k);
    var r0 := Add([], true, ANY.(ct := Some(REPLIES)));
    FirstAdd(r0, true, To(LO), k);
    var r1 := Add(r0, true, To(LO));
    FirstAdd(r1, true, To(p.tun), k);
    var r2 := Add(r1, true, To(p.tun));
    FirstAdd(r2, true, To(p.hotspot).(l4 := Icmp6Kind({ROUTER_ADVERT}), verdict := Drop), k);
    var r3 := Add(r2, true, To(p.hotspot).(l4 := Icmp6Kind({ROUTER_ADVERT}), verdict := Drop));
    FirstAdd(r3, true, ANY.(l4 := UdpBetween(68, 67)), k);
    var r4 := Add(r3, true, ANY.(l4 := UdpBetween(68, 67)));
    FirstAdd(r4, true, ANY.(l4 := UdpBetween(67, 68)), k);
    var r5 := Add(r4, true, ANY.(l4 := UdpBetween(67, 68)));
    FirstAdd(r5, true, ANY.(l4 := UdpTo(123)), k);
    var r6 := Add(r5, true, ANY.(l4 := UdpTo(123)));
    FirstAdd(r6, true, ANY.(l4 := UdpTo(53)), k);
    var r7 := Add(r6, true, ANY.(l4 := UdpTo(53)));
    FirstAdd(r7, true, ANY.(l4 := TcpTo(53)), k);
  }

  predicate Sent(p: Plan, k: Packet) {
    Decide(OutputChain(p), k) == Accept
  }

  predicate ServersValid(p: Plan) {
    forall i :: 0 <= i < |p.servers| ==> ValidAddr(p.servers[i])
  }

  /** Exactly what the box itself may send with egress restricted: replies, loopback
      and tunnel; else, if no router advertisement on the hotspot, DHCP, NTP, DNS,
      the proxy servers by address, and neighbour discovery. */
  lemma RestrictedOutputMeaning(p: Plan, k: Packet)
    requires !p.egressOpen && ServersValid(p)
    ensures Sent(p, k) <==>
            || Settled(p, k)
            || (!Advert(p, k) && (Essential(p, k) || Matches(ND_ACCEPT, k) || (k.daddr in p.servers && k.v6 == k.daddr.v6)))
  {
    RestrictedHeadMeans(p, k);
    ServerRulesMean(p.servers, k);
    FirstConcat(RestrictedHead(p), ServerRules(p.servers), k);
    FirstAdd(RestrictedHead(p) + ServerRules(p.servers), true, ND_ACCEPT, k);
  }

  /** With egress open everything leaves but a router advertisement on the hotspot. */
  lemma OpenOutputMeaning(p: Plan, k: Packet)
    requires p.egressOpen
    ensures Sent(p, k) <==> k.oif == p.tun || !Advert(p, k)
  {
    FirstAdd([], true, To(p.tun), k);
    FirstAdd(Add([], true, To(p.tun)), true, To(p.hotspot).(l4 := Icmp6Kind({ROUTER_ADVERT}), verdict := Drop), k);
  }

  /** In neither mode does an advertisement leave by the hotspot, unless the tunnel
      has its name, or, with egress restricted, the packet counts as a reply. */
  lemma AdvertStays(p: Plan, k: Packet)
    requires ServersValid(p) && Advert(p, k)
    ensures Sent(p, k) <==> k.oif == p.tun || (!p.egressOpen && (k.ct in REPLIES || k.oif == LO))
  {
    if p.egressOpen {
      OpenOutputMeaning(p, k);
    } else {
      RestrictedOutputMeaning(p, k);
    }
  }

  /** No source translation towards the uplink. */
  lemma MasqueradeOnlyToTunnel(p: Plan, k: Packet)
    ensures Decide(Ruleset(p, ForwardNormal).postrouting, k) == Masquerade <==> p.masquerade && k.oif == p.tun
  {
    FirstAdd([], p.masquerade, To(p.tun).(verdict := Masquerade), k);
  }
}
