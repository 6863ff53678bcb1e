/** The SOCKS5 server side (internal/listener/socks5.go): RFC 1928 sections 3, 4
    and 6 with the username/password sub-negotiation of RFC 1929 section 2. */
module Socks5Listener {
  import opened Prelude
  import opened Wire
  import Decimal
  import Registry
  import Routing

  // ----- what the server writes -------------------------------------------------

  function MethodUserPwd(): seq<byte> { [Byte(5), Byte(2)] }

  function MethodNoAccept(): seq<byte> { [Byte(5), Byte(255)] }

  function AuthStatus(status: nat): seq<byte>
    requires status < 256
  {
    [Byte(1), Byte(status)]
  }

  const SUCCEEDED := 0
  const GENERAL_FAILURE := 1
  const COMMAND_NOT_SUPPORTED := 7
  const ADDR_TYPE_NOT_SUPPORTED := 8

  function Reply(rep: nat): (bs: seq<byte>)
    requires rep < 256
  {
    [Byte(5), Byte(rep), Byte(0), Byte(1), Byte(0), Byte(0), Byte(0), Byte(0), Byte(0), Byte(0)]
  }

  // ----- what a client says: the grammar ------------------------------------------

  datatype Addr = IPv4(ip: seq<byte>) | IPv6(ip: seq<byte>) | Domain(name: seq<byte>)

  predicate AddrOk(a: Addr) {
    match a
    case IPv4(ip) => |ip| == 4
    case IPv6(ip) => |ip| == 16
    case Domain(name) => |name| <= 255
  }

  function Sized(bs: seq<byte>): seq<byte>
    requires |bs| <= 255
  {
    [Byte(|bs|)] + bs
  }

  function Greeting(methods: seq<byte>): seq<byte>
    requires |methods| <= 255
  {
    [Byte(5)] + Sized(methods)
  }

  function Credentials(username: seq<byte>, password: seq<byte>): seq<byte>
    requires |username| <= 255 && |password| <= 255
  {
    [Byte(1)] + Sized(username) + Sized(password)
  }

  function AddrType(a: Addr): byte {
    match a
    case IPv4(_) => Byte(1)
    case IPv6(_) => Byte(4)
    case Domain(_) => Byte(3)
  }

  function AddrBytes(a: Addr): seq<byte>
    requires AddrOk(a)
  {
    match a
    case IPv4(ip) => ip
    case IPv6(ip) => ip
    case Domain(name) => Sized(name)
  }

  function ConnectRequest(a: Addr, port: nat): seq<byte>
    requires AddrOk(a) && port < 65536
  {
    [Byte(5), Byte(1), Byte(0), AddrType(a)] + AddrBytes(a) + PutUint16(port)
  }

  /** The target handed to the dialler; how an IP address is spelt is left to
      the caller. */
  function TargetText(a: Addr, port: nat, ipText: seq<byte> -> string): string {
    var host := match a
      case IPv4(ip) => ipText(ip)
      case IPv6(ip) => "[" + ipText(ip) + "]"
      case Domain(name) => name;
    host + ":" + Decimal.Itoa(port)
  }

  // ----- reading it back ---------------------------------------------------------

  datatype Scan<+T> =
    | More
    | Bad
    | Got(value: T, used: nat)

  function ScanGreeting(s: seq<byte>): (r: Scan<seq<byte>>)
    ensures r.Got? ==> r.used <= |s|
  {
    if |s| < 2 then More
    else if s[0] != Byte(5) then Bad
    else if |s| < 2 + Code(s[1]) then More
    else Got(s[2..2 + Code(s[1])], 2 + Code(s[1]))
  }

  function ScanCredentials(s: seq<byte>): (r: Scan<(seq<byte>, seq<byte>)>)
    ensures r.Got? ==> r.used <= |s|
  {
    if |s| < 2 then More
    else if s[0] != Byte(1) then Bad
    else
      var n := 2 + Code(s[1]);
      if |s| < n + 1 then More
      else
        var m := n + 1 + Code(s[n]);
        if |s| < m then More else Got((s[2..n], s[n + 1..m]), m)
  }

  function ScanAddr(s: seq<byte>, atyp: byte): (r: Scan<(Addr, nat)>)
    ensures r.Got? ==> r.used <= |s| && r.value.1 < 65536
  {
    if atyp == Byte(1) then
      if |s| < 6 then More else Got((IPv4(s[..4]), Uint16(s[4..6])), 6)
    else if atyp == Byte(4) then
      if |s| < 18 then More else Got((IPv6(s[..16]), Uint16(s[16..18])), 18)
    else if atyp == Byte(3) then
      if |s| < 1 then More
      else
        var n := 1 + Code(s[0]);
        if |s| < n + 2 then More else Got((Domain(s[1..n]), Uint16(s[n..n + 2])), n + 2)
    else Bad
  }

  datatype Asked =
    | Unfinished
    | Denied(rep: nat)
    | Target(addr: Addr, port: nat, used: nat)

  /** The request, header first: an unsupported command or address type is
      answered without waiting for the address. */
  function ScanRequest(s: seq<byte>): (r: Asked)
    ensures r.Target? ==> r.used <= |s| && r.port < 65536
    ensures r.Denied? ==> r.rep in {GENERAL_FAILURE, COMMAND_NOT_SUPPORTED, ADDR_TYPE_NOT_SUPPORTED}
  {
    if |s| < 4 then Unfinished
    else if s[0] != Byte(5) || s[2] != Byte(0) then Denied(GENERAL_FAILURE)
    else if s[1] != Byte(1) then Denied(COMMAND_NOT_SUPPORTED)
    else
      match ScanAddr(s[4..], s[3])
      case More => Unfinished
      case Bad => Denied(ADDR_TYPE_NOT_SUPPORTED)
      case Got(v, n) => Target(v.0, v.1, 4 + n)
  }

  datatype Phase = Negotiating | Authenticating | Requesting

  /** What a stream of client bytes means to the server. */
  datatype Verdict =
    | Waiting(phase: Phase)
    | Hung
    | NoMethod
    | Rejected(counts: bool)
    | Replied(rep: nat)
    | Reached(used: nat, username: seq<byte>, password: seq<byte>, addr: Addr, port: nat)

  /** A refusal the deny list counts: an unknown user or a wrong password. */
  predicate Counts(a: Routing.Answer) {
    a.UnknownUser? || a.BadPassword?
  }

  function Handle(s: seq<byte>, state: Option<Routing.RoutingState>): (v: Verdict)
    ensures v.Reached? ==> v.used <= |s| && v.port < 65536
    ensures v.Replied? ==> v.rep in {GENERAL_FAILURE, COMMAND_NOT_SUPPORTED, ADDR_TYPE_NOT_SUPPORTED}
  {
    match ScanGreeting(s)
    case More => Waiting(Negotiating)
    case Bad => Hung
    case Got(methods, n) =>
      if Byte(2) !in methods then NoMethod
      else HandleCredentials(s, n, state)
  }

  function HandleCredentials(s: seq<byte>, n: nat, state: Option<Routing.RoutingState>): (v: Verdict)
    requires n <= |s|
    ensures v.Reached? ==> v.used <= |s| && v.port < 65536
    ensures v.Replied? ==> v.rep in {GENERAL_FAILURE, COMMAND_NOT_SUPPORTED, ADDR_TYPE_NOT_SUPPORTED}
  {
    match ScanCredentials(s[n..])
    case More => Waiting(Authenticating)
    case Bad => Rejected(false)
    case Got(c, m) =>
      var a := Routing.Acquire(state, c.0, c.1);
      if !a.Accepted? then Rejected(Counts(a))
      else
        match ScanRequest(s[n + m..])
        case Unfinished => Waiting(Requesting)
        case Denied(rep) => Replied(rep)
        case Target(addr, port, k) => Reached(n + m + k, c.0, c.1, addr, port)
  }

  /** The replies sent while the input may still go on. */
  function Sent(v: Verdict): seq<seq<byte>> {
    match v
    case Waiting(Negotiating) => []
    case Waiting(Authenticating) => [MethodUserPwd()]
    case Waiting(Requesting) => [MethodUserPwd(), AuthStatus(0)]
    case Reached(_, _, _, _, _) => [MethodUserPwd(), AuthStatus(0)]
    case _ => Answers(v, false)
  }

  /** What a whole connection is answered: a stream that ends early gets the
      refusal of its phase, a reached dial its outcome. */
  function Answers(v: Verdict, dialOk: bool): seq<seq<byte>> {
    match v
    case Waiting(Negotiating) => []
    case Hung => []
    case NoMethod => [MethodNoAccept()]
    case _ => [MethodUserPwd()] + AuthAnswers(v, dialOk)
  }

  function AuthAnswers(v: Verdict, dialOk: bool): seq<seq<byte>> {
    match v
    case Waiting(Authenticating) => [AuthStatus(1)]
    case Rejected(_) => [AuthStatus(1)]
    case _ => [AuthStatus(0)] + [LastReply(v, dialOk)]
  }

  function LastReply(v: Verdict, dialOk: bool): seq<byte> {
    match v
    case Replied(rep) => if rep < 256 then Reply(rep) else []
    case Reached(_, _, _, _, _) => Reply(if dialOk then SUCCEEDED else GENERAL_FAILURE)
    case _ => Reply(GENERAL_FAILURE)
  }

  // ----- the handlers --------------------------------------------------------------

  /** The last two reads of the sub-negotiation: a length and so many bytes. */
  method ReadPassword(conn: Conn) returns (password: seq<byte>, ok: bool)
    modifies conn`replay, conn`chunks
    ensures var p := old(conn.Pending());
            && (ok <==> |p| >= 1 && |p| >= 1 + Code(p[0]))
            && (ok ==> password == p[1..1 + Code(p[0])] && conn.Pending() == p[1 + Code(p[0])..])
  {
    hide Conn.Pending;
    password := [];
    ghost var p := conn.Pending();
    var plen;
    plen, ok := conn.ReadFull(1);
    if !ok {
      return;
    }
    password, ok := conn.ReadFull(Code(plen[0]));
    if ok {
      Cut(p, 1, 1 + Code(p[0]));
    }
  }

  method ReadRFC1929(conn: Conn) returns (username: seq<byte>, password: seq<byte>, ok: bool)
    modifies conn`replay, conn`chunks
    ensures var r := ScanCredentials(old(conn.Pending()));
            && (ok <==> r.Got?)
            && (ok ==> (username, password) == r.value && conn.Pending() == old(conn.Pending())[r.used..])
  {
    hide Conn.Pending;
    username, password := [], [];
    ghost var s := conn.Pending();
    var hdr;
    hdr, ok := conn.ReadFull(2);
    if !ok {
      return;
    }
    if hdr[0] != Byte(1) {
      return username, password, false;
    }
    username, ok := conn.ReadFull(Code(hdr[1]));
    if !ok {
      return;
    }
    ghost var n := 2 + Code(s[1]);
    Cut(s, 2, n);
    password, ok := ReadPassword(conn);
    if ok {
      PasswordAt(s, n);
    }
  }

  lemma PasswordAt(s: seq<byte>, n: nat)
    requires n < |s| && n + 1 + Code(s[n]) <= |s|
    ensures var p, m := s[n..], n + 1 + Code(s[n]);
            p[1..1 + Code(p[0])] == s[n + 1..m] && p[1 + Code(p[0])..] == s[m..]
  {
  }

  method ReadRequestAddr(conn: Conn, atyp: byte, ipText: seq<byte> -> string) returns (target: Option<string>)
    requires atyp == Byte(1) || atyp == Byte(3) || atyp == Byte(4)
    modifies conn`replay, conn`chunks
    ensures var r := ScanAddr(old(conn.Pending()), atyp);
            && (target.Some? <==> r.Got?)
            && (r.Got? ==> target.value == TargetText(r.value.0, r.value.1, ipText))
            && (r.Got? ==> conn.Pending() == old(conn.Pending())[r.used..])
  {
    ghost var s := conn.Pending();
    var host: string;
    ghost var n;
    if atyp == Byte(1) {
      var b, ok := conn.ReadFull(4);
      if !ok {
        return None;
      }
      host, n := ipText(b), 4;
    } else if atyp == Byte(4) {
      var b, ok := conn.ReadFull(16);
      if !ok {
        return None;
      }
      host, n := "[" + ipText(b) + "]", 16;
    } else {
      var lb, ok := conn.ReadFull(1);
      if !ok {
        return None;
      }
      var nb, ok2 := conn.ReadFull(Code(lb[0]));
      if !ok2 {
        return None;
      }
      host, n := nb, 1 + Code(s[0]);
      assert nb == s[1..n] && conn.Pending() == s[n..];
    }
    var pb, ok := conn.ReadFull(2);
    if !ok {
      return None;
    }
    assert pb == s[n..n + 2] && conn.Pending() == s[n + 2..];
    return Some(host + ":" + Decimal.Itoa(Uint16(pb)));
  }

  /** How a connection ended. */
  datatype Outcome =
    | Closed
    | Dialled(upstream: Routing.Upstream, upstreamPwd: string, target: string, bridged: bool)

  /** A dial is made for a reached request only, once both acknowledgements are
      through, to the upstream Acquire returned for the credentials framed. */
  function Ending(v: Verdict, state: Option<Routing.RoutingState>, dialOk: bool,
                  ipText: seq<byte> -> string, accepts: nat): Outcome
  {
    if v.Reached? && accepts >= 2 then
      match Routing.Acquire(state, v.username, v.password)
      case Accepted(up, pwd, _) => Dialled(up, pwd, TargetText(v.addr, v.port, ipText), dialOk && accepts >= 3)
      case _ => Closed
    else Closed
  }

  /** The registry as a dial finds it: the connection is registered before it. */
  function Enrolled(r: Registry.State, username: string, cancel: nat, o: Outcome): Registry.State {
    match o
    case Closed => r
    case Dialled(up, _, _, _) => Registry.AfterRegister(r, Registry.ActiveConnection(username, up.id, cancel))
  }

  /** What a connection is to do with the client's bytes s and a peer taking so
      many writes: wrote is what gets through, the deny list hears of a counted
      refusal only, and a dial finds the bytes behind the handshake left. */
  ghost predicate Serves(v: Verdict, s: seq<byte>, state: Option<Routing.RoutingState>, dialOk: bool,
                         ipText: seq<byte> -> string, accepts: nat,
                         outcome: Outcome, recorded: bool, wrote: seq<seq<byte>>, left: seq<byte>)
  {
    && wrote == Delivered(Answers(v, dialOk), accepts)
    && (recorded <==> v == Rejected(true) && accepts >= 1)
    && outcome == Ending(v, state, dialOk, ipText, accepts)
    && (outcome.Dialled? ==> v.Reached? && v.used <= |s| && left == s[v.used..])
  }

  /** What the first step decides. */
  lemma Negotiated(s: seq<byte>, state: Option<Routing.RoutingState>, dialOk: bool)
    ensures var r, v := ScanGreeting(s), Handle(s, state);
            if Offers(s) then
              var w := HandleCredentials(s, r.used, state);
              v == w && Answers(v, dialOk) == [MethodUserPwd()] + AuthAnswers(w, dialOk)
            else !v.Reached? && !v.Rejected? && Answers(v, dialOk) == if r.Got? then [MethodNoAccept()] else []
  {
  }

  lemma ServesTheRest(v: Verdict, s: seq<byte>, state: Option<Routing.RoutingState>, dialOk: bool,
                      ipText: seq<byte> -> string, accepts: nat,
                      outcome: Outcome, recorded: bool, wrote: seq<seq<byte>>, left: seq<byte>)
    requires Answers(v, dialOk) == [MethodUserPwd()] + AuthAnswers(v, dialOk)
    requires if accepts == 0 then wrote == [] && outcome == Closed && !recorded
             else wrote == [MethodUserPwd()] + Delivered(AuthAnswers(v, dialOk), accepts - 1)
    requires accepts > 0 ==> (recorded <==> v == Rejected(true)) && outcome == Ending(v, state, dialOk, ipText, accepts)
    requires outcome.Dialled? ==> v.Reached? && v.used <= |s| && left == s[v.used..]
    ensures Serves(v, s, state, dialOk, ipText, accepts, outcome, recorded, wrote, left)
  {
    DeliveredFirst(MethodUserPwd(), AuthAnswers(v, dialOk), accepts);
  }

  /** The handler up to the bridge. dialling is the registry as it is left, with a
      dialled connection in it under id. */
  method Handshake(conn: Conn, state: Option<Routing.RoutingState>,
                   dialOk: bool, ipText: seq<byte> -> string,
                   reg: Registry.ConnectionRegistry, cancel: nat)
    returns (outcome: Outcome, recorded: bool, id: nat)
    requires reg.Valid()
    modifies conn, reg
    ensures reg.Valid() && reg.cancelled == old(reg.cancelled) && id == reg.nextId
    ensures var v := Handle(old(conn.Pending()), state);
            reg.View() == Enrolled(old(reg.View()), if v.Reached? then v.username else "", cancel, outcome)
    ensures old(conn.written) <= conn.written
    ensures Serves(Handle(old(conn.Pending()), state), old(conn.Pending()), state, dialOk, ipText, old(conn.accepts),
                   outcome, recorded, conn.written[|old(conn.written)|..], conn.Pending())
    ensures !(outcome.Dialled? && outcome.bridged) ==> conn.closed
  {
    hide Handle, HandleCredentials, ScanGreeting, Answers, AuthAnswers, Routing.Acquire, TargetText,
      Registry.AfterRegister, Registry.AfterDeregister, Registry.Grouped;
    outcome, recorded, id := Closed, false, reg.nextId;
    ghost var s, w, a := conn.Pending(), conn.written, conn.accepts;
    ghost var v := Handle(s, state);
    Negotiated(s, state, dialOk);
    var ok := Negotiate(conn);
    if !ok {
      if Offers(s) {
        ServesTheRest(v, s, state, dialOk, ipText, a, outcome, recorded, [], conn.Pending());
      }
      return;
    }
    outcome, recorded, id := Authenticate(conn, state, dialOk, ipText, reg, cancel, s, ScanGreeting(s).used);
    ghost var rest := Delivered(AuthAnswers(v, dialOk), a - 1);
    assert conn.written == w + ([MethodUserPwd()] + rest);
    ServesTheRest(v, s, state, dialOk, ipText, a, outcome, recorded, [MethodUserPwd()] + rest, conn.Pending());
  }

  /** One connection from the gate to the end of its bridge. The snapshot is the
      one Acquire finds, the dial's success and the deny list's verdict are the
      environment's. recorded tells whether a failure was reported to the deny
      list; dialling is the registry as the dial finds it; cancel names the
      connection's own context. What the bridge copies is not modelled here: the
      bytes it begins with are those still pending. */
  method HandleConn(conn: Conn, banned: bool, state: Option<Routing.RoutingState>,
                    dialOk: bool, ipText: seq<byte> -> string,
                    reg: Registry.ConnectionRegistry, cancel: nat)
    returns (outcome: Outcome, recorded: bool, ghost dialling: Registry.State)
    requires reg.Valid()
    modifies conn, reg
    ensures reg.Valid() && reg.cancelled == old(reg.cancelled)
    ensures reg.View() == old(reg.View()).(nextId := if outcome.Dialled? then old(reg.nextId) + 1 else old(reg.nextId))
    ensures var v := Handle(old(conn.Pending()), state);
            dialling == Enrolled(old(reg.View()), if v.Reached? then v.username else "", cancel, outcome)
    ensures old(conn.written) <= conn.written && conn.closed
    ensures banned ==> outcome == Closed && !recorded && conn.written == old(conn.written)
    ensures banned ==> conn.Pending() == old(conn.Pending())
    ensures !banned ==>
              Serves(Handle(old(conn.Pending()), state), old(conn.Pending()), state, dialOk, ipText, old(conn.accepts),
                     outcome, recorded, conn.written[|old(conn.written)|..], conn.Pending())
  {
    outcome, recorded, dialling := Closed, false, reg.View();
    if banned {
      conn.Close();
      return;
    }
    ghost var r := reg.View();
    var id;
    outcome, recorded, id := Handshake(conn, state, dialOk, ipText, reg, cancel);
    dialling := reg.View();
    hide Handle, Serves, Registry.AfterRegister, Registry.AfterDeregister;
    if outcome.Dialled? {
      ghost var v := Handle(old(conn.Pending()), state);
      LeavesTheRegistry(r, if v.Reached? then v.username else "", cancel, outcome);
      conn.Close();
      reg.Deregister(id);
    }
  }

  lemma LeavesTheRegistry(r: Registry.State, username: string, cancel: nat, o: Outcome)
    requires Registry.Grouped(r) && o.Dialled?
    ensures var with := Enrolled(r, username, cancel, o);
            with.nextId == r.nextId + 1 && Registry.AfterDeregister(with, with.nextId) == r.(nextId := r.nextId + 1)
  {
    Registry.RegisterThenDeregister(r, Registry.ActiveConnection(username, o.upstream.id, cancel));
  }

  predicate Offers(s: seq<byte>) {
    ScanGreeting(s).Got? && Byte(2) in ScanGreeting(s).value
  }

  /** The first step: the method is agreed, or the connection answered and closed. */
  method Negotiate(conn: Conn) returns (ok: bool)
    modifies conn
    ensures ok <==> Offers(old(conn.Pending())) && old(conn.accepts) >= 1
    ensures ok ==>
              && conn.Pending() == old(conn.Pending())[ScanGreeting(old(conn.Pending())).used..]
              && conn.written == old(conn.written) + [MethodUserPwd()] && conn.accepts == old(conn.accepts) - 1
    ensures !ok ==> conn.closed
    ensures !ok && Offers(old(conn.Pending())) ==> conn.written == old(conn.written)
    ensures !Offers(old(conn.Pending())) ==>
              conn.written == old(conn.written) +
                Delivered(if ScanGreeting(old(conn.Pending())).Got? then [MethodNoAccept()] else [], old(conn.accepts))
  {
    ghost var s := conn.Pending();
    var hdr;
    hdr, ok := conn.ReadFull(2);
    if !ok || hdr[0] != Byte(5) {
      conn.Close();
      return false;
    }
    var methods;
    methods, ok := conn.ReadFull(Code(hdr[1]));
    if !ok {
      conn.Close();
      return;
    }
    Cut(s, 2, 2 + Code(s[1]));
    if Byte(2) !in methods {
      ok := conn.Write(MethodNoAccept());
      conn.Close();
      return false;
    }
    ok := conn.Write(MethodUserPwd());
    if !ok {
      conn.Close();
    }
  }

  /** What the second step decides. */
  lemma LoginDecides(s: seq<byte>, n: nat, state: Option<Routing.RoutingState>, dialOk: bool)
    requires n <= |s|
    ensures var c, v := ScanCredentials(s[n..]), HandleCredentials(s, n, state);
            if c.Got? && Routing.Acquire(state, c.value.0, c.value.1).Accepted? then
              var r := ScanRequest(s[n + c.used..]);
              && AuthAnswers(v, dialOk) == [AuthStatus(0)] + [AskedReply(r, dialOk)] && !v.Rejected?
              && (v.Reached? <==> r.Target?)
              && (r.Target? ==> v == Reached(n + c.used + r.used, c.value.0, c.value.1, r.addr, r.port))
            else
              && AuthAnswers(v, dialOk) == [AuthStatus(1)] && !v.Reached?
              && (v == Rejected(true) <==> c.Got? && Counts(Routing.Acquire(state, c.value.0, c.value.1)))
  {
  }

  /** The second and third step, once the method is agreed. */
  method Authenticate(conn: Conn, state: Option<Routing.RoutingState>, dialOk: bool,
                      ipText: seq<byte> -> string, reg: Registry.ConnectionRegistry, cancel: nat,
                      ghost s: seq<byte>, ghost n: nat)
    returns (outcome: Outcome, recorded: bool, id: nat)
    requires n <= |s| && conn.Pending() == s[n..] && reg.Valid()
    modifies conn, reg
    ensures reg.Valid() && reg.cancelled == old(reg.cancelled) && id == reg.nextId
    ensures var v := HandleCredentials(s, n, state);
            reg.View() == Enrolled(old(reg.View()), if v.Reached? then v.username else "", cancel, outcome)
    ensures var v := HandleCredentials(s, n, state);
            && conn.written == old(conn.written) + Delivered(AuthAnswers(v, dialOk), old(conn.accepts))
            && (recorded <==> v == Rejected(true))
            && outcome == Ending(v, state, dialOk, ipText, old(conn.accepts) + 1)
            && (outcome.Dialled? ==> v.Reached? && conn.Pending() == s[v.used..])
    ensures !(outcome.Dialled? && outcome.bridged) ==> conn.closed
  {
    hide Registry.AfterRegister, Registry.AfterDeregister, Registry.Grouped, Routing.Acquire, TargetText,
      HandleCredentials, AuthAnswers, AskedReply, ScanCredentials, ScanRequest, Delivered;
    LoginDecides(s, n, state, dialOk);
    outcome, recorded, id := Closed, false, reg.nextId;
    var username, password, ok := ReadRFC1929(conn);
    if !ok {
      Deny(conn);
      return;
    }
    var a := Routing.Acquire(state, username, password);
    if !a.Accepted? {
      recorded := Counts(a);
      Deny(conn);
      return;
    }
    ghost var m := n + ScanCredentials(s[n..]).used;
    assert conn.Pending() == s[m..];
    var entry := Registry.ActiveConnection(username, a.upstream.id, cancel);
    var target, bridged;
    target, bridged, id := Connect(conn, dialOk, ipText, reg, entry);
    if target.Some? {
      outcome := Dialled(a.upstream, a.upstreamPwd, target.value, bridged);
    }
  }

  method Deny(conn: Conn)
    modifies conn`written, conn`accepts, conn`closed
    ensures conn.written == old(conn.written) + Delivered([AuthStatus(1)], old(conn.accepts)) && conn.closed
  {
    var ok := conn.Write(AuthStatus(1));
    conn.Close();
  }

  /** The reply to a request, given the dial's success. */
  function AskedReply(r: Asked, dialOk: bool): seq<byte>
    requires r.Denied? ==> r.rep < 256
  {
    match r
    case Unfinished => Reply(GENERAL_FAILURE)
    case Denied(rep) => Reply(rep)
    case Target(_, _, _) => Reply(if dialOk then SUCCEEDED else GENERAL_FAILURE)
  }

  /** The credentials are acknowledged, the request read and the dial made. */
  method Connect(conn: Conn, dialOk: bool, ipText: seq<byte> -> string,
                 reg: Registry.ConnectionRegistry, entry: Registry.ActiveConnection)
    returns (target: Option<string>, bridged: bool, id: nat)
    requires reg.Valid()
    modifies conn, reg
    ensures reg.Valid() && reg.cancelled == old(reg.cancelled) && id == reg.nextId
    ensures reg.View() == if target.None? then old(reg.View()) else Registry.AfterRegister(old(reg.View()), entry)
    ensures var r := ScanRequest(old(conn.Pending()));
            && (target.Some? <==> r.Target? && old(conn.accepts) >= 1)
            && (target.Some? ==> target.value == TargetText(r.addr, r.port, ipText))
            && (target.Some? ==> conn.Pending() == old(conn.Pending())[r.used..])
            && (bridged <==> r.Target? && dialOk && old(conn.accepts) >= 2)
            && conn.written == old(conn.written) + Delivered([AuthStatus(0)] + [AskedReply(r, dialOk)], old(conn.accepts))
            && (!bridged ==> conn.closed)
  {
    hide ScanRequest, TargetText, Registry.AfterRegister, Registry.Grouped, Delivered, Flatten;
    target, bridged, id := None, false, reg.nextId;
    DeliveredFirst(AuthStatus(0), [AskedReply(ScanRequest(conn.Pending()), dialOk)], conn.accepts);
    var ok := conn.Write(AuthStatus(0));
    if !ok {
      conn.Close();
      return;
    }
    target := ReadTarget(conn, ipText);
    if target.Some? {
      id := reg.Register(entry);
      bridged := Finish(conn, dialOk);
    }
  }

  /** The dial's outcome is reported; a failed dial or report ends it. */
  method Finish(conn: Conn, dialOk: bool) returns (bridged: bool)
    modifies conn`written, conn`accepts, conn`closed
    ensures bridged <==> dialOk && old(conn.accepts) >= 1
    ensures conn.written == old(conn.written) + Delivered([Reply(if dialOk then SUCCEEDED else GENERAL_FAILURE)], old(conn.accepts))
    ensures !bridged ==> conn.closed
  {
    if !dialOk {
      bridged := conn.Write(Reply(GENERAL_FAILURE));
      conn.Close();
      return false;
    }
    bridged := conn.Write(Reply(SUCCEEDED));
    if !bridged {
      conn.Close();
    }
  }

  /** The request; a refusal is answered and the connection closed here. */
  method ReadTarget(conn: Conn, ipText: seq<byte> -> string) returns (target: Option<string>)
    modifies conn
    ensures var r := ScanRequest(old(conn.Pending()));
            && (target.Some? <==> r.Target?)
            && (r.Target? ==>
                  && target.value == TargetText(r.addr, r.port, ipText)
                  && conn.Pending() == old(conn.Pending())[r.used..]
                  && conn.written == old(conn.written) && conn.accepts == old(conn.accepts))
            && (!r.Target? ==>
                  && conn.closed
                  && var rep := if r.Denied? then r.rep else GENERAL_FAILURE;
                     conn.written == old(conn.written) + Delivered([Reply(rep)], old(conn.accepts)))
  {
    ghost var s := conn.Pending();
    var ok;
    var hdr, read := conn.ReadFull(4);
    if !read || hdr[0] != Byte(5) || hdr[2] != Byte(0) {
      ok := conn.Write(Reply(GENERAL_FAILURE));
      conn.Close();
      return None;
    }
    if hdr[1] != Byte(1) {
      ok := conn.Write(Reply(COMMAND_NOT_SUPPORTED));
      conn.Close();
      return None;
    }
    if hdr[3] != Byte(1) && hdr[3] != Byte(4) && hdr[3] != Byte(3) {
      ok := conn.Write(Reply(ADDR_TYPE_NOT_SUPPORTED));
      conn.Close();
      return None;
    }
    target := ReadRequestAddr(conn, hdr[3], ipText);
    if target.None? {
      ok := conn.Write(Reply(GENERAL_FAILURE));
      conn.Close();
    }
  }
}
