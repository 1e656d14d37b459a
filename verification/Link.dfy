// One proxy outbound: the one place its server is read from, what the panel shows
// of it, and the same outbound redirected through a loopback forwarder.

module Link {
  import opened Commands

  datatype Error = ErrNoLink | ErrBadAddress | ErrBadPort | ErrBadUUID | ErrManyServers | ErrChainedOutbound
                 | ErrUnsupportedTransport | ErrBadReality | ErrNoProxyOutbound

  datatype Result<+T> = Ok(value: T) | Err(error: Error)

  datatype Protocol = Vless | Vmess | Trojan | Shadowsocks | Socks | Hysteria | Other(name: string)

  /** Every account field any of the protocols has. */
  datatype User = User(level: nat, email: string, id: string, flow: string, encryption: string, security: string,
                       experiments: string, username: string, password: string, cipher: string, uot: bool,
                       uotVersion: nat, testpre: nat, testseed: seq<nat>)

  const NOBODY := User(0, "", "", "", "", "", "", "", "", "", false, 0, 0, [])

  /** One member of the list form. A user that does not decode is None. */
  datatype Server = Server(address: Option<string>, port: nat, users: seq<Option<User>>, own: User)

  /** The flat form and the list form side by side, as the engine's structs have
      them. */
  datatype Settings = Settings(address: Option<string>, port: nat, user: User, servers: seq<Server>)

  datatype Security = Unset | NoSecurity | TLS | Reality | OtherSecurity(name: string)

  datatype Tls = Tls(serverName: string, rest: string)

  datatype RealityConfig = RealityConfig(serverName: string, rest: string)

  /** The transport's sections that a redirect may touch are None when absent. */
  datatype Stream = Stream(network: Option<string>, security: Security, tls: Option<Tls>, reality: Option<RealityConfig>,
                           dialerProxy: string, wsHost: Option<string>, upgradeHost: Option<string>,
                           authority: Option<string>, rest: string)

  const NO_STREAM := Stream(None, Unset, None, None, "", None, None, None, "")

  datatype Outbound = Outbound(tag: string, protocol: Protocol, sendThrough: Option<string>, settings: Option<Settings>,
                               stream: Option<Stream>, proxyTag: string)

  /** What the engine itself decides: the transport a name stands for, if any, whether
      an id and the REALITY parameters are well formed, and which other names for a
      security it reads as none. */
  datatype Rules = Rules(network: string -> Option<string>, uuid: string -> bool, reality: RealityConfig -> bool,
                         isAddress: string -> bool, hostPort: (string, nat) -> string, plain: string -> bool)

  // --- what the engine dials -------------------------------------------------

  /** The account fields the engine reads for a protocol. */
  function Read(p: Protocol, u: User): User {
    match p
    case Vless => NOBODY.(level := u.level, email := u.email, id := u.id, flow := u.flow, encryption := u.encryption,
                          testpre := u.testpre, testseed := u.testseed)
    case Vmess => NOBODY.(level := u.level, email := u.email, id := u.id, security := u.security, experiments := u.experiments)
    case Trojan => NOBODY.(level := u.level, email := u.email, password := u.password, flow := u.flow)
    case Shadowsocks => NOBODY.(level := u.level, email := u.email, cipher := u.cipher, password := u.password, uot := u.uot,
                                uotVersion := u.uotVersion)
    case Socks => NOBODY.(level := u.level, email := u.email, username := u.username, password := u.password)
    case _ => u
  }

  datatype Dialled = Dialled(address: string, port: nat, user: User)

  /** The account of a list's only server, where the engine accepts it. */
  function ListUser(p: Protocol, s: Server): Option<User> {
    match p
    case Vless => if |s.users| == 1 then s.users[0] else None
    case Vmess => if |s.users| == 1 then s.users[0] else None
    case Trojan => Some(s.own)
    case Shadowsocks => Some(s.own)
    case Socks => if s.users == [] then Some(NOBODY) else if |s.users| == 1 then s.users[0] else None
    case _ => None
  }

  /** The server and account the engine dials: the flat form where it has an address,
      else a list of exactly one. */
  function EngineDials(p: Protocol, s: Settings): Option<Dialled> {
    if s.address.Some? then Some(Dialled(s.address.value, s.port, Read(p, s.user)))
    else if |s.servers| == 1 && s.servers[0].address.Some? then
      match ListUser(p, s.servers[0])
      case Some(u) => Some(Dialled(s.servers[0].address.value, s.servers[0].port, Read(p, u)))
      case None => None
    else None
  }

  // --- flattening ------------------------------------------------------------

  predicate HasList(p: Protocol) {
    p.Vless? || p.Vmess? || p.Trojan? || p.Shadowsocks? || p.Socks?
  }

  /** The flat form of a list's only server. */
  function Flat(s: Server, u: User): Settings {
    Settings(s.address, s.port, u, [])
  }

  function Flatten(p: Protocol, s: Settings): Result<Settings> {
    if !HasList(p) || s.address.Some? || s.servers == [] then Ok(s)
    else if |s.servers| != 1 then Err(ErrManyServers)
    else
      var only := s.servers[0];
      match p
      case Vless =>
        if |only.users| != 1 then Err(ErrManyServers)
        else if only.users[0].None? then Err(ErrNoLink)
        else
          var u := only.users[0].value;
          Ok(Flat(only, NOBODY.(level := u.level, email := u.email, id := u.id, flow := u.flow, encryption := u.encryption,
                                testpre := u.testpre, testseed := u.testseed)))
      case Vmess =>
        if |only.users| != 1 then Err(ErrManyServers)
        else if only.users[0].None? then Err(ErrNoLink)
        else
          var u := only.users[0].value;
          Ok(Flat(only, NOBODY.(level := u.level, email := u.email, id := u.id, security := u.security, experiments := u.experiments)))
      case Trojan =>
        var u := only.own;
        Ok(Flat(only, NOBODY.(level := u.level, email := u.email, password := u.password, flow := u.flow)))
      case Shadowsocks =>
        var u := only.own;
        Ok(Flat(only, NOBODY.(level := u.level, email := u.email, cipher := u.cipher, password := u.password, uot := u.uot,
                              uotVersion := u.uotVersion)))
      case Socks =>
        if |only.users| > 1 then Err(ErrManyServers)
        else if only.users == [] then Ok(Flat(only, NOBODY))
        else if only.users[0].None? then Err(ErrNoLink)
        else
          var u := only.users[0].value;
          Ok(Flat(only, NOBODY.(level := u.level, email := u.email, username := u.username, password := u.password)))
      case _ => Ok(s)
  }

  /** Flattening keeps what the engine dials, and afterwards the flat address is the
      only place to read it from: the engine dials exactly when there is one, and
      dials that. What it refuses, the engine would not have dialled. */
  lemma FlattenKeepsDialled(p: Protocol, s: Settings)
    requires HasList(p)
    ensures Flatten(p, s).Err? ==> EngineDials(p, s).None?
    ensures Flatten(p, s).Ok? ==>
              var t := Flatten(p, s).value;
              && EngineDials(p, t) == EngineDials(p, s)
              && (EngineDials(p, t).Some? <==> t.address.Some?)
              && (t.address.Some? ==> EngineDials(p, t).value.address == t.address.value && EngineDials(p, t).value.port == t.port)
    ensures Flatten(p, s).Ok? && s.address.Some? ==> Flatten(p, s).value == s
    ensures Flatten(p, s).Ok? && s.address.None? ==> Flatten(p, s).value.servers == []
  {
  }

  // --- describing an outbound ------------------------------------------------

  datatype Described = Described(protocol: Protocol, address: string, port: nat, network: string, security: Security,
                                 serverName: string, flow: string, outbound: Outbound)

  predicate Chained(ob: Outbound) {
    ob.proxyTag != "" || (ob.stream.Some? && ob.stream.value.dialerProxy != "")
  }

  function FlattenOutbound(ob: Outbound): Result<Outbound> {
    if ob.settings.None? then Ok(ob)
    else
      match Flatten(ob.protocol, ob.settings.value)
      case Ok(s) => Ok(ob.(settings := Some(s)))
      case Err(e) => Err(e)
  }

  predicate NeedsUUID(p: Protocol) {
    p.Vless? || p.Vmess?
  }

  /** The checks on the address, the port and the id. */
  function Addressed(ob: Outbound, rules: Rules): Option<Error> {
    if ob.settings.None? || ob.settings.value.address.None? || ob.settings.value.address.value == "" then Some(ErrBadAddress)
    else if ob.settings.value.port == 0 then Some(ErrBadPort)
    else if NeedsUUID(ob.protocol) && !rules.uuid(ob.settings.value.user.id) then Some(ErrBadUUID)
    else None
  }

  /** The stream is there and has some security. */
  predicate Secured(ob: Outbound) {
    ob.stream.Some? && !ob.stream.value.security.Unset? && !ob.stream.value.security.NoSecurity?
  }

  /** The security has a name of its own that the engine reads as none. */
  predicate Misread(ob: Outbound, rules: Rules) {
    ob.stream.Some? && ob.stream.value.security.OtherSecurity? && rules.plain(ob.stream.value.security.name)
  }

  predicate OnTLS(ob: Outbound) {
    ob.stream.Some? && ob.stream.value.security.TLS?
  }

  /** The server name in the TLS section; none is empty. */
  function NameOf(ob: Outbound): string {
    if ob.stream.Some? && ob.stream.value.tls.Some? then ob.stream.value.tls.value.serverName else ""
  }

  /** A trojan outbound is never without TLS. */
  function WithTLS(ob: Outbound): Outbound {
    if !ob.protocol.Trojan? then ob
    else
      var ss := if ob.stream.Some? then ob.stream.value else NO_STREAM;
      ob.(stream := Some(if ss.security.Unset? || ss.security.NoSecurity? then ss.(security := TLS) else ss))
  }

  /** A TLS stream always has a server name. */
  function WithServerName(ob: Outbound, address: string): Outbound {
    if ob.stream.None? || !ob.stream.value.security.TLS? then ob
    else
      var ss := ob.stream.value;
      var tls := if ss.tls.Some? then ss.tls.value else Tls("", "");
      ob.(stream := Some(ss.(tls := Some(if tls.serverName == "" then tls.(serverName := address) else tls))))
  }

  function FlowOf(ob: Outbound): string {
    if ob.protocol.Vless? && ob.settings.Some? then ob.settings.value.user.flow else ""
  }

  /** The transport, the security and the name that goes with it. */
  function StreamOf(ob: Outbound, rules: Rules): Result<(string, Security, string)> {
    if ob.stream.None? then Ok(("tcp", NoSecurity, ""))
    else
      var ss := ob.stream.value;
      var network := if ss.network.None? then Some("tcp") else rules.network(ss.network.value);
      if network.None? then Err(ErrUnsupportedTransport)
      else
        match ss.security
        case TLS => Ok((network.value, TLS, if ss.tls.Some? then ss.tls.value.serverName else ""))
        case Reality =>
          if ss.reality.Some? && !rules.reality(ss.reality.value) then Err(ErrBadReality)
          else Ok((network.value, Reality, if ss.reality.Some? then ss.reality.value.serverName else ""))
        case _ => Ok((network.value, NoSecurity, ""))
  }

  /** The outbound as filled in once its address is known to be good. */
  function Completed(ob: Outbound): Outbound
    requires ob.settings.Some? && ob.settings.value.address.Some?
  {
    WithServerName(WithTLS(ob), ob.settings.value.address.value)
  }

  function Fill(ob: Outbound, rules: Rules): Result<Described> {
    if Chained(ob) then Err(ErrChainedOutbound)
    else
      match FlattenOutbound(ob)
      case Err(e) => Err(e)
      case Ok(flat) =>
        var bad := Addressed(flat, rules);
        if bad.Some? then Err(bad.value)
        else
          var done := Completed(flat);
          match StreamOf(done, rules)
          case Err(e) => Err(e)
          case Ok((network, security, name)) =>
            Ok(Described(ob.protocol, done.settings.value.address.value, done.settings.value.port, network, security, name,
                         FlowOf(done), done))
  }

  // --- choosing the proxy ----------------------------------------------------

  const OUTBOUND_TAG := "proxy"

  /** One member of a document's list: nothing that decodes, a tag and protocol whose
      rest does not decode, or an outbound. */
  datatype Raw = Garbage | HeadOnly(tag: string, protocol: Protocol) | Whole(ob: Outbound)

  predicate IsProxy(raw: Raw) {
    match raw
    case Garbage => false
    case HeadOnly(_, protocol) => !protocol.Other?
    case Whole(ob) => !ob.protocol.Other?
  }

  function TagOf(raw: Raw): string {
    match raw
    case Garbage => ""
    case HeadOnly(tag, _) => tag
    case Whole(ob) => ob.tag
  }

  predicate Tagged(raw: Raw) {
    IsProxy(raw) && TagOf(raw) == OUTBOUND_TAG
  }

  /** The first proxy tagged as such, or else the first proxy: chosen by tag and
      protocol alone, and refused if the rest of it does not decode. */
  method ProxyOutboundOf(raws: seq<Raw>) returns (r: Result<Outbound>)
    ensures r == Err(ErrNoProxyOutbound) <==> forall i :: 0 <= i < |raws| ==> !IsProxy(raws[i])
    ensures r.Ok? ==> exists i :: ChosenProxy(raws, i) && raws[i] == Whole(r.value)
    ensures r.Err? && r.error != ErrNoProxyOutbound ==>
              r.error == ErrNoLink && exists i :: ChosenProxy(raws, i) && raws[i].HeadOnly?
  {
    var chosen := -1;
    var i := 0;
    while i < |raws|
      invariant 0 <= i <= |raws|
      invariant chosen < 0 <==> forall j :: 0 <= j < i ==> !IsProxy(raws[j])
      invariant chosen >= 0 ==> chosen < i && IsProxy(raws[chosen]) && forall j :: 0 <= j < chosen ==> !IsProxy(raws[j])
      invariant forall j :: 0 <= j < i ==> !Tagged(raws[j])
    {
      if IsProxy(raws[i]) && TagOf(raws[i]) == OUTBOUND_TAG {
        chosen := i;
        break;
      }
      if IsProxy(raws[i]) && chosen < 0 {
        chosen := i;
      }
      i := i + 1;
    }
    if chosen < 0 {
      return Err(ErrNoProxyOutbound);
    }
    assert ChosenProxy(raws, chosen);
    match raws[chosen]
    case Whole(ob) => return Ok(ob);
    case _ => return Err(ErrNoLink);
  }

  predicate ChosenProxy(raws: seq<Raw>, i: int) {
    && 0 <= i < |raws| && IsProxy(raws[i])
    && if Tagged(raws[i]) then forall j :: 0 <= j < i ==> !Tagged(raws[j])
       else (forall j :: 0 <= j < |raws| ==> !Tagged(raws[j])) && (forall j :: 0 <= j < i ==> !IsProxy(raws[j]))
  }

  // --- a link ----------------------------------------------------------------

  /** What a redirect sets where the outbound says nothing: the host or authority
      that the transport would have taken from the address. */
  function Default(was: Option<string>, value: string): Option<string> {
    if was.None? || was.value == "" then Some(value) else was
  }

  function RedirectedStream(ss: Stream, d: Described, rules: Rules): Stream {
    var host := if d.security.TLS? then d.serverName else d.address;
    if d.network == "ws" || d.network == "websocket" then ss.(wsHost := Default(ss.wsHost, host))
    else if d.network == "httpupgrade" then ss.(upgradeHost := Default(ss.upgradeHost, host))
    else if d.network == "grpc" then
      var authority := if d.security.Reality? || (!d.security.TLS? && rules.isAddress(d.address)) then rules.hostPort(d.address, d.port) else host;
      ss.(authority := Default(ss.authority, authority))
    else ss
  }

  /** The document of a link, with the server replaced. */
  function Redirected(d: Described, address: string, port: nat, rules: Rules): Outbound
    requires d.outbound.settings.Some?
  {
    var ob := d.outbound.(sendThrough := None, tag := OUTBOUND_TAG);
    ob.(settings := Some(ob.settings.value.(address := Some(address), port := port)),
        stream := if ob.stream.Some? then Some(RedirectedStream(ob.stream.value, d, rules)) else None)
  }

  class Link {
    var protocol: Protocol
    var address: string
    var port: nat
    var network: string
    var security: Security
    var serverName: string
    var flow: string
    var outbound: Outbound

    constructor (ob: Outbound)
      ensures outbound == ob.(sendThrough := None, tag := OUTBOUND_TAG)
    {
      outbound := ob.(sendThrough := None, tag := OUTBOUND_TAG);
      protocol, address, port, network, security, serverName, flow := ob.protocol, "", 0, "", NoSecurity, "", "";
    }

    ghost function Description(): Described
      reads this
    {
      Described(protocol, address, port, network, security, serverName, flow, outbound)
    }

    method FlattenSettings() returns (err: Option<Error>)
      modifies this`outbound
      ensures err.None? ==> FlattenOutbound(old(outbound)) == Ok(outbound)
      ensures err.Some? ==> FlattenOutbound(old(outbound)) == Err(err.value) && outbound == old(outbound)
    {
      if outbound.settings.None? {
        return None;
      }
      var flat := Flatten(outbound.protocol, outbound.settings.value);
      if flat.Err? {
        return Some(flat.error);
      }
      outbound := outbound.(settings := Some(flat.value));
      return None;
    }

    /** A trojan outbound is left secured; one that was secured, and any other, is
        left alone, and only the security of one that was not is touched. */
    method RequireTLSForTrojan()
      modifies this`outbound
      ensures outbound.protocol.Trojan? ==> Secured(outbound)
      ensures !old(outbound).protocol.Trojan? || Secured(old(outbound)) ==> outbound == old(outbound)
      ensures outbound != old(outbound) ==> outbound.stream.Some? && outbound.stream.value.security == TLS
      ensures outbound == WithTLS(old(outbound))
    {
      if !outbound.protocol.Trojan? {
        return;
      }
      if outbound.stream.None? {
        outbound := outbound.(stream := Some(NO_STREAM));
      }
      var ss := outbound.stream.value;
      if ss.security.Unset? || ss.security.NoSecurity? {
        outbound := outbound.(stream := Some(ss.(security := TLS)));
      }
    }

    /** A TLS stream is left with a name: its own if it has one, else the address. */
    method FillMissingServerName()
      modifies this`outbound
      ensures OnTLS(outbound) <==> OnTLS(old(outbound))
      ensures OnTLS(outbound) ==> NameOf(outbound) == if NameOf(old(outbound)) != "" then NameOf(old(outbound)) else address
      ensures !OnTLS(outbound) || NameOf(old(outbound)) != "" ==> outbound == old(outbound)
      ensures outbound == WithServerName(old(outbound), address)
    {
      if outbound.stream.None? || !outbound.stream.value.security.TLS? {
        return;
      }
      var ss := outbound.stream.value;
      var tls := if ss.tls.Some? then ss.tls.value else Tls("", "");
      if tls.serverName == "" {
        tls := tls.(serverName := address);
      }
      outbound := outbound.(stream := Some(ss.(tls := Some(tls))));
    }

    /** Fill in what is shown, correcting the outbound on the way. */
    method FillIn(rules: Rules) returns (err: Option<Error>)
      modifies this
      ensures err.None? ==> Fill(old(outbound), rules) == Ok(Description())
      ensures err.Some? ==> Fill(old(outbound), rules) == Err(err.value)
    {
      protocol := outbound.protocol;
      if Chained(outbound) {
        return Some(ErrChainedOutbound);
      }
      err := FlattenSettings();
      if err.Some? {
        return;
      }
      err := Addressed(outbound, rules);
      if err.Some? {
        return;
      }
      address, port := outbound.settings.value.address.value, outbound.settings.value.port;
      RequireTLSForTrojan();
      FillMissingServerName();
      flow := FlowOf(outbound);
      var stream := StreamOf(outbound, rules);
      if stream.Err? {
        return Some(stream.error);
      }
      network, security, serverName := stream.value.0, stream.value.1, stream.value.2;
      return None;
    }

    /** The same link through a forwarder on this machine. */
    method ThroughLoopback(endpoint: string, loopback: bool, to: nat, rules: Rules) returns (r: Result<Link>)
      ensures !loopback || to == 0 ==> r == Err(ErrBadAddress)
      ensures loopback && to != 0 && outbound.settings.None? ==> r == Err(ErrNoLink)
      ensures loopback && to != 0 && outbound.settings.Some? && outbound.protocol.Other? ==> r == Err(ErrNoProxyOutbound)
      ensures loopback && to != 0 && outbound.settings.Some? && !outbound.protocol.Other? ==>
                match Fill(Redirected(Description(), endpoint, to, rules), rules)
                case Ok(m) => r.Ok? && r.value.Description() == m
                case Err(e) => r == Err(e)
    {
      if !loopback || to == 0 {
        return Err(ErrBadAddress);
      }
      if outbound.settings.None? {
        return Err(ErrNoLink);
      }
      var ob := outbound.(sendThrough := None, tag := OUTBOUND_TAG);
      ob := ob.(settings := Some(ob.settings.value.(address := Some(endpoint), port := to)));
      if ob.stream.Some? {
        ob := ob.(stream := Some(RedirectedStream(ob.stream.value, Described(protocol, address, port, network, security, serverName, flow, outbound), rules)));
      }
      var only := [Whole(ob)];
      assert only[0] == Whole(ob);
      var chosen := ProxyOutboundOf(only);
      if chosen.Err? {
        return Err(chosen.error);
      }
      var link := new Link(chosen.value);
      var err := link.FillIn(rules);
      if err.Some? {
        return Err(err.value);
      }
      return Ok(link);
    }
  }

  // --- what a redirect keeps -------------------------------------------------

  /** A filled outbound is not chained, has a flat address, and on TLS has a name. */
  lemma FilledFacts(ob: Outbound, rules: Rules)
    requires Fill(ob, rules).Ok?
    ensures var d := Fill(ob, rules).value;
            && !Chained(d.outbound) && d.outbound.settings.Some? && d.outbound.settings.value.address == Some(d.address)
            && d.address != "" && d.protocol == d.outbound.protocol && d.flow == FlowOf(d.outbound)
            && Flatten(d.protocol, d.outbound.settings.value) == Ok(d.outbound.settings.value)
            && Addressed(d.outbound, rules).None? && WithTLS(d.outbound) == d.outbound
            && WithServerName(d.outbound, d.address) == d.outbound
            && StreamOf(d.outbound, rules) == Ok((d.network, d.security, d.serverName))
  {
    var flat := FlattenOutbound(ob).value;
    var done := Completed(flat);
    assert done.settings == flat.settings && done.protocol == ob.protocol;
  }

  /** What every link that parsed promises, and every redirect of it: a trojan
      outbound is never emitted without security, TLS where the link asked for none,
      and the engine dials it in the clear exactly when the link came with a name for
      its security that only the engine reads as none; and whatever is shown as TLS is
      a TLS stream that names its server, by the name it came with or by the address
      dialled. */
  lemma NeverInTheClear(ob: Outbound, rules: Rules)
    requires Fill(ob, rules).Ok?
    ensures var d := Fill(ob, rules).value;
            && (d.protocol.Trojan? ==> Secured(d.outbound))
            && (d.protocol.Trojan? && !Secured(ob) ==> d.security.TLS?)
            && (d.protocol.Trojan? ==> (!Secured(d.outbound) || Misread(d.outbound, rules) <==> Misread(ob, rules)))
            && (d.security.TLS? <==> OnTLS(d.outbound))
            && (d.security.TLS? ==> d.serverName != "" && d.serverName == NameOf(d.outbound))
            && (d.security.TLS? ==> d.serverName == if NameOf(ob) != "" then NameOf(ob) else d.address)
  {
    FilledFacts(ob, rules);
    var d := Fill(ob, rules).value;
    var flat := FlattenOutbound(ob).value;
    assert flat.stream == ob.stream && flat.protocol == ob.protocol;
    assert d.outbound == WithServerName(WithTLS(flat), d.address);
  }

  /** There are such links: a trojan outbound under any name that only the engine reads
      as none is taken as it is. */
  lemma NameReadAsNone(address: string, port: nat, password: string, name: string, rules: Rules)
    requires address != "" && port != 0 && rules.plain(name)
    ensures var ob := Outbound("", Trojan, None, Some(Settings(Some(address), port, NOBODY.(password := password), [])),
                               Some(NO_STREAM.(security := OtherSecurity(name))), "");
            && Fill(ob, rules).Ok? && Fill(ob, rules).value.outbound == ob
            && Fill(ob, rules).value.security == NoSecurity && Misread(ob, rules)
  {
  }

  /** A name that is there is kept, whatever address is now in its place. */
  lemma NamedStays(ob: Outbound, a: string, b: string)
    requires a != "" && WithServerName(ob, a) == ob
    ensures WithServerName(ob, b) == ob
  {
  }

  lemma RedirectedStreamKeeps(ss: Stream, d: Described, rules: Rules)
    ensures var t := RedirectedStream(ss, d, rules);
            t == ss.(wsHost := t.wsHost, upgradeHost := t.upgradeHost, authority := t.authority)
  {
  }

  /** Redirecting a link changes the address and the port and nothing else that is
      shown: protocol, transport, security, flow and the real server name stay, the
      account the engine uses stays, and the redirect always succeeds. */
  lemma LoopbackKeeps(ob: Outbound, rules: Rules, endpoint: string, to: nat)
    requires Fill(ob, rules).Ok? && endpoint != "" && to != 0
    ensures var d := Fill(ob, rules).value;
            && d.outbound.settings.Some?
            && var m := Redirected(d, endpoint, to, rules);
               Fill(m, rules) == Ok(d.(address := endpoint, port := to, outbound := m))
  {
    FilledFacts(ob, rules);
    var d := Fill(ob, rules).value;
    var m := Redirected(d, endpoint, to, rules);
    if d.outbound.stream.Some? {
      RedirectedStreamKeeps(d.outbound.stream.value, d, rules);
    }
    assert WithTLS(m) == m;
    NamedStays(d.outbound, d.address, endpoint);
    assert WithServerName(m, endpoint) == m;
    assert FlattenOutbound(m) == Ok(m);
    assert StreamOf(m, rules) == StreamOf(d.outbound, rules);
  }

  /** What the engine dials through the forwarder: the endpoint, with the account of
      the real server. */
  lemma LoopbackDials(ob: Outbound, rules: Rules, endpoint: string, to: nat)
    requires Fill(ob, rules).Ok? && HasList(ob.protocol) && ob.settings.Some? && endpoint != "" && to != 0
    ensures EngineDials(ob.protocol, ob.settings.value).Some?
    ensures Fill(ob, rules).value.outbound.settings.Some?
    ensures EngineDials(ob.protocol, Redirected(Fill(ob, rules).value, endpoint, to, rules).settings.value) ==
            Some(EngineDials(ob.protocol, ob.settings.value).value.(address := endpoint, port := to))
  {
    FilledFacts(ob, rules);
    FlattenKeepsDialled(ob.protocol, ob.settings.value);
    var flat := FlattenOutbound(ob).value;
    assert Fill(ob, rules).value.outbound.settings == flat.settings;
  }
}
