/** What the SOCKS5 server promises for every client stream. */
module Socks5Laws {
  import opened Prelude
  import opened Wire
  import opened Socks5Listener
  import Routing

  // ----- reading inverts writing, stage by stage -------------------------------------

  lemma GreetingReads(methods: seq<byte>, rest: seq<byte>)
    requires |methods| <= 255
    ensures ScanGreeting(Greeting(methods) + rest) == Got(methods, |Greeting(methods)|)
  {
    var s := Greeting(methods) + rest;
    assert s[2..2 + |methods|] == methods;
  }

  lemma GreetingIsFramed(s: seq<byte>)
    requires ScanGreeting(s).Got?
    ensures var r := ScanGreeting(s); |r.value| <= 255 && s[..r.used] == Greeting(r.value)
  {
  }

  lemma CredentialsRead(u: seq<byte>, p: seq<byte>, rest: seq<byte>)
    requires |u| <= 255 && |p| <= 255
    ensures ScanCredentials(Credentials(u, p) + rest) == Got((u, p), |Credentials(u, p)|)
  {
    var s := Credentials(u, p) + rest;
    var n := 2 + |u|;
    assert s[1] == Byte(|u|) && s[n] == Byte(|p|);
    assert s[2..n] == u && s[n + 1..n + 1 + |p|] == p;
  }

  lemma CredentialsAreFramed(s: seq<byte>)
    requires ScanCredentials(s).Got?
    ensures var r := ScanCredentials(s);
            |r.value.0| <= 255 && |r.value.1| <= 255 && s[..r.used] == Credentials(r.value.0, r.value.1)
  {
    var n := 2 + Code(s[1]);
    var m := n + 1 + Code(s[n]);
    assert s[..m] == [s[0], s[1]] + s[2..n] + [s[n]] + s[n + 1..m];
  }

  lemma AddrReads(a: Addr, port: nat, rest: seq<byte>)
    requires AddrOk(a) && port < 65536
    ensures ScanAddr(AddrBytes(a) + PutUint16(port) + rest, AddrType(a)) == Got((a, port), |AddrBytes(a)| + 2)
  {
    var b := AddrBytes(a);
    var s := b + PutUint16(port) + rest;
    assert s[|b|..|b| + 2] == PutUint16(port);
    match a
    case IPv4(ip) => assert s[..4] == ip;
    case IPv6(ip) => assert s[..16] == ip;
    case Domain(name) => assert s[0] == Byte(|name|) && s[1..|b|] == name;
  }

  lemma AddrIsFramed(s: seq<byte>, atyp: byte)
    requires ScanAddr(s, atyp).Got?
    ensures var r := ScanAddr(s, atyp);
            AddrOk(r.value.0) && AddrType(r.value.0) == atyp && s[..r.used] == AddrBytes(r.value.0) + PutUint16(r.value.1)
  {
    var n := ScanAddr(s, atyp).used - 2;
    Uint16IsInjective(s[n..n + 2]);
    assert s[..n + 2] == s[..n] + s[n..n + 2];
  }

  lemma RequestReads(a: Addr, port: nat, rest: seq<byte>)
    requires AddrOk(a) && port < 65536
    ensures ScanRequest(ConnectRequest(a, port) + rest) == Target(a, port, |ConnectRequest(a, port)|)
  {
    var s := ConnectRequest(a, port) + rest;
    assert s[4..] == AddrBytes(a) + PutUint16(port) + rest;
    AddrReads(a, port, rest);
  }

  lemma RequestIsFramed(s: seq<byte>)
    requires ScanRequest(s).Target?
    ensures var r := ScanRequest(s); AddrOk(r.addr) && s[..r.used] == ConnectRequest(r.addr, r.port)
  {
    AddrIsFramed(s[4..], s[3]);
    var r := ScanRequest(s);
    assert s[..r.used] == s[..4] + s[4..][..r.used - 4];
  }

  // ----- what it takes to be dialled ---------------------------------------------------

  predicate Fits(methods: seq<byte>, u: seq<byte>, p: seq<byte>, a: Addr, port: nat) {
    |methods| <= 255 && |u| <= 255 && |p| <= 255 && AddrOk(a) && port < 65536
  }

  /** The whole client side of a handshake. */
  function Handshake(methods: seq<byte>, u: seq<byte>, p: seq<byte>, a: Addr, port: nat): seq<byte>
    requires Fits(methods, u, p, a, port)
  {
    Greeting(methods) + Credentials(u, p) + ConnectRequest(a, port)
  }

  predicate Framed(s: seq<byte>, state: Option<Routing.RoutingState>, methods: seq<byte>,
                   used: nat, u: seq<byte>, p: seq<byte>, a: Addr, port: nat)
  {
    && Fits(methods, u, p, a, port)
    && Byte(2) in methods
    && used <= |s|
    && s[..used] == Handshake(methods, u, p, a, port)
    && Routing.Acquire(state, u, p).Accepted?
  }

  lemma FramedIsReached(s: seq<byte>, state: Option<Routing.RoutingState>, methods: seq<byte>,
                        used: nat, u: seq<byte>, p: seq<byte>, a: Addr, port: nat)
    requires Framed(s, state, methods, used, u, p, a, port)
    ensures Handle(s, state) == Reached(used, u, p, a, port)
  {
    hide Handle, HandleCredentials, ScanGreeting, ScanCredentials, ScanRequest, Greeting, Credentials, ConnectRequest;
    var g, c, q := Greeting(methods), Credentials(u, p), ConnectRequest(a, port);
    GreetingReads(methods, s[|g|..]);
    CredentialsRead(u, p, s[|g| + |c|..]);
    RequestReads(a, port, s[used..]);
    Staged(s, g, c, q, methods, u, p, a, port);
    HandleByStages(s, state, Got(methods, |g|), Got((u, p), |c|), Target(a, port, |q|));
  }

  lemma Staged(s: seq<byte>, g: seq<byte>, c: seq<byte>, q: seq<byte>,
               methods: seq<byte>, u: seq<byte>, p: seq<byte>, a: Addr, port: nat)
    requires |g| + |c| + |q| <= |s| && s[..|g| + |c| + |q|] == g + c + q
    requires ScanGreeting(g + s[|g|..]) == Got(methods, |g|)
    requires ScanCredentials(c + s[|g| + |c|..]) == Got((u, p), |c|)
    requires ScanRequest(q + s[|g| + |c| + |q|..]) == Target(a, port, |q|)
    ensures ScanGreeting(s) == Got(methods, |g|)
    ensures ScanCredentials(s[|g|..]) == Got((u, p), |c|)
    ensures ScanRequest(s[|g| + |c|..]) == Target(a, port, |q|)
  {
    Peeled(s, g, c, q, |g| + |c| + |q|);
  }

  lemma Peeled(s: seq<byte>, g: seq<byte>, c: seq<byte>, q: seq<byte>, used: nat)
    requires used <= |s| && s[..used] == g + c + q
    ensures |g| + |c| + |q| == used
    ensures g + s[|g|..] == s && c + s[|g| + |c|..] == s[|g|..] && q + s[used..] == s[|g| + |c|..]
  {
    var all := s[..used] + s[used..];
    assert all == s;
    assert s[..|g|] == g;
    assert s[|g|..|g| + |c|] == c;
    assert s[|g| + |c|..used] == q;
  }

  /** Handle, read as three stages that all succeed. */
  lemma HandleByStages(s: seq<byte>, state: Option<Routing.RoutingState>,
                       g: Scan<seq<byte>>, c: Scan<(seq<byte>, seq<byte>)>, q: Asked)
    requires g == ScanGreeting(s) && g.Got? && Byte(2) in g.value
    requires c == ScanCredentials(s[g.used..]) && c.Got?
    requires Routing.Acquire(state, c.value.0, c.value.1).Accepted?
    requires g.used + c.used <= |s| && q == ScanRequest(s[g.used + c.used..]) && q.Target?
    ensures Handle(s, state) == Reached(g.used + c.used + q.used, c.value.0, c.value.1, q.addr, q.port)
  {
  }

  lemma ReachedIsFramed(s: seq<byte>, state: Option<Routing.RoutingState>) returns (methods: seq<byte>)
    requires Handle(s, state).Reached?
    ensures var v := Handle(s, state);
            Framed(s, state, methods, v.used, v.username, v.password, v.addr, v.port)
  {
    hide Handle, ScanGreeting, ScanCredentials, ScanRequest, Greeting, Credentials, ConnectRequest, Routing.Acquire;
    StagesOfReached(s, state);
    var g := ScanGreeting(s);
    methods := g.value;
    var n := g.used;
    var c := ScanCredentials(s[n..]);
    var m := n + c.used;
    var q := ScanRequest(s[m..]);
    GreetingIsFramed(s);
    CredentialsAreFramed(s[n..]);
    RequestIsFramed(s[m..]);
    Joined(s, n, m, m + q.used);
  }

  lemma StagesOfReached(s: seq<byte>, state: Option<Routing.RoutingState>)
    requires Handle(s, state).Reached?
    ensures ScanGreeting(s).Got? && Byte(2) in ScanGreeting(s).value
    ensures var g := ScanGreeting(s);
            var c := ScanCredentials(s[g.used..]);
            c.Got? && Routing.Acquire(state, c.value.0, c.value.1).Accepted?
    ensures var g := ScanGreeting(s);
            var c := ScanCredentials(s[g.used..]);
            var q := ScanRequest(s[g.used + c.used..]);
            q.Target? && Handle(s, state) == Reached(g.used + c.used + q.used, c.value.0, c.value.1, q.addr, q.port)
  {
  }

  lemma Joined(s: seq<byte>, n: nat, m: nat, k: nat)
    requires n <= m <= k <= |s|
    ensures s[..k] == s[..n] + s[n..][..m - n] + s[m..][..k - m]
  {
  }

  /** The server dials exactly when the stream begins with a handshake offering
      the password method, with credentials Acquire accepts; it has then consumed
      that handshake and not a byte more. */
  lemma DialsExactlyOnAnAcceptedHandshake(s: seq<byte>, state: Option<Routing.RoutingState>,
                                          used: nat, u: seq<byte>, p: seq<byte>, a: Addr, port: nat)
    ensures Handle(s, state) == Reached(used, u, p, a, port)
        <==> exists methods :: Framed(s, state, methods, used, u, p, a, port)
  {
    if Handle(s, state) == Reached(used, u, p, a, port) {
      var methods := ReachedIsFramed(s, state);
      assert Framed(s, state, methods, used, u, p, a, port);
    }
    forall methods | Framed(s, state, methods, used, u, p, a, port)
      ensures Handle(s, state) == Reached(used, u, p, a, port)
    {
      FramedIsReached(s, state, methods, used, u, p, a, port);
    }
  }

  // ----- what the client can be told ------------------------------------------------------

  /** Seven reply sequences are possible, whatever the client sends. */
  lemma AnswersAreFixed(s: seq<byte>, state: Option<Routing.RoutingState>, dialOk: bool)
    ensures Answers(Handle(s, state), dialOk) in {
              [],
              [MethodNoAccept()],
              [MethodUserPwd(), AuthStatus(1)],
              [MethodUserPwd(), AuthStatus(0), Reply(SUCCEEDED)],
              [MethodUserPwd(), AuthStatus(0), Reply(GENERAL_FAILURE)],
              [MethodUserPwd(), AuthStatus(0), Reply(COMMAND_NOT_SUPPORTED)],
              [MethodUserPwd(), AuthStatus(0), Reply(ADDR_TYPE_NOT_SUPPORTED)]}
  {
    var v := Handle(s, state);
    if v.Waiting? || v.Replied? || v.Reached? || v.Rejected? {
      assert [MethodUserPwd()] + [AuthStatus(1)] == [MethodUserPwd(), AuthStatus(1)];
      var last := LastReply(v, dialOk);
      assert [MethodUserPwd()] + ([AuthStatus(0)] + [last]) == [MethodUserPwd(), AuthStatus(0), last];
    }
  }

  predicate Admitted(s: seq<byte>, state: Option<Routing.RoutingState>,
                     methods: seq<byte>, u: seq<byte>, p: seq<byte>)
  {
    && |methods| <= 255 && |u| <= 255 && |p| <= 255
    && Byte(2) in methods
    && Greeting(methods) + Credentials(u, p) <= s
    && Routing.Acquire(state, u, p).Accepted?
  }

  /** Credentials are acknowledged exactly when a stream frames some that Acquire
      accepts. */
  lemma AcknowledgesExactlyTheAccepted(s: seq<byte>, state: Option<Routing.RoutingState>, dialOk: bool)
    ensures AuthStatus(0) in Answers(Handle(s, state), dialOk)
        <==> exists methods, u, p :: Admitted(s, state, methods, u, p)
  {
    var v := Handle(s, state);
    if AuthStatus(0) in Answers(v, dialOk) {
      AcknowledgedAre(s, state, dialOk);
      var methods, u, p := GrantedIsAdmitted(s, state);
    }
    forall methods, u, p | Admitted(s, state, methods, u, p)
      ensures AuthStatus(0) in Answers(v, dialOk)
    {
      AdmittedIsAcknowledged(s, state, methods, u, p, dialOk);
    }
  }

  lemma GrantedIsAdmitted(s: seq<byte>, state: Option<Routing.RoutingState>)
    returns (methods: seq<byte>, u: seq<byte>, p: seq<byte>)
    requires ScanGreeting(s).Got? && Byte(2) in ScanGreeting(s).value
    requires var c := ScanCredentials(s[ScanGreeting(s).used..]);
             c.Got? && Routing.Acquire(state, c.value.0, c.value.1).Accepted?
    ensures Admitted(s, state, methods, u, p)
  {
    var g := ScanGreeting(s);
    var c := ScanCredentials(s[g.used..]);
    methods, u, p := g.value, c.value.0, c.value.1;
    GreetingIsFramed(s);
    CredentialsAreFramed(s[g.used..]);
    Joined(s, g.used, g.used + c.used, g.used + c.used);
  }

  lemma AdmittedIsAcknowledged(s: seq<byte>, state: Option<Routing.RoutingState>,
                               methods: seq<byte>, u: seq<byte>, p: seq<byte>, dialOk: bool)
    requires Admitted(s, state, methods, u, p)
    ensures AuthStatus(0) in Answers(Handle(s, state), dialOk)
  {
    var g, c := Greeting(methods), Credentials(u, p);
    Peeled(s, g, c, [], |g| + |c|);
    GreetingReads(methods, s[|g|..]);
    CredentialsRead(u, p, s[|g| + |c|..]);
    GrantedByStages(s, state, dialOk);
  }

  lemma GrantedByStages(s: seq<byte>, state: Option<Routing.RoutingState>, dialOk: bool)
    requires ScanGreeting(s).Got? && Byte(2) in ScanGreeting(s).value
    requires ScanCredentials(s[ScanGreeting(s).used..]).Got?
    requires var c := ScanCredentials(s[ScanGreeting(s).used..]).value; Routing.Acquire(state, c.0, c.1).Accepted?
    ensures AuthStatus(0) in Answers(Handle(s, state), dialOk)
  {
    assert Answers(Handle(s, state), dialOk)[1] == AuthStatus(0);
  }

  lemma AcknowledgedAre(s: seq<byte>, state: Option<Routing.RoutingState>, dialOk: bool)
    requires AuthStatus(0) in Answers(Handle(s, state), dialOk)
    ensures ScanGreeting(s).Got? && Byte(2) in ScanGreeting(s).value
    ensures var c := ScanCredentials(s[ScanGreeting(s).used..]);
            c.Got? && Routing.Acquire(state, c.value.0, c.value.1).Accepted?
  {
    var v := Handle(s, state);
    assert AuthStatus(0)[0] == Byte(1) && MethodUserPwd()[0] == Byte(5) && MethodNoAccept()[0] == Byte(5);
    assert AuthStatus(1)[1] != AuthStatus(0)[1];
  }

  /** The reply a four-byte request header earns on its own; None for one whose
      address is waited for. */
  function HeaderReply(header: seq<byte>): Option<nat>
    requires |header| == 4
  {
    if header[0] != Byte(5) || header[2] != Byte(0) then Some(GENERAL_FAILURE)
    else if header[1] != Byte(1) then Some(COMMAND_NOT_SUPPORTED)
    else if header[3] in {Byte(1), Byte(3), Byte(4)} then None
    else Some(ADDR_TYPE_NOT_SUPPORTED)
  }

  /** After accepted credentials, four bytes settle a refusal and its code,
      whatever follows them and however little; no other request is refused. */
  lemma RefusalsFollowTheHeader(s: seq<byte>, state: Option<Routing.RoutingState>,
                                methods: seq<byte>, u: seq<byte>, p: seq<byte>, header: seq<byte>)
    requires |methods| <= 255 && |u| <= 255 && |p| <= 255 && |header| == 4
    requires Byte(2) in methods && Routing.Acquire(state, u, p).Accepted?
    requires Greeting(methods) + Credentials(u, p) + header <= s
    ensures var v := Handle(s, state);
            match HeaderReply(header)
            case Some(rep) => v == Replied(rep)
            case None => v == Waiting(Requesting) || v.Reached?
  {
    hide Handle, HandleCredentials, ScanGreeting, ScanCredentials, Greeting, Credentials, Routing.Acquire;
    var g, c := Greeting(methods), Credentials(u, p);
    var n := |g| + |c| + 4;
    Peeled(s, g, c, header, n);
    GreetingReads(methods, s[|g|..]);
    CredentialsRead(u, p, s[|g| + |c|..]);
    HandleRequestStage(s, state, Got(methods, |g|), Got((u, p), |c|));
    HeaderDecides(s[|g| + |c|..], header);
  }

  lemma HandleRequestStage(s: seq<byte>, state: Option<Routing.RoutingState>,
                           g: Scan<seq<byte>>, c: Scan<(seq<byte>, seq<byte>)>)
    requires g == ScanGreeting(s) && g.Got? && Byte(2) in g.value
    requires c == ScanCredentials(s[g.used..]) && c.Got? && g.used + c.used <= |s|
    requires Routing.Acquire(state, c.value.0, c.value.1).Accepted?
    ensures var v := Handle(s, state);
            match ScanRequest(s[g.used + c.used..])
            case Unfinished => v == Waiting(Requesting)
            case Denied(rep) => v == Replied(rep)
            case Target(_, _, _) => v.Reached?
  {
  }

  lemma HeaderDecides(s: seq<byte>, header: seq<byte>)
    requires |header| == 4 && header <= s
    ensures match HeaderReply(header)
            case Some(rep) => ScanRequest(s) == Denied(rep)
            case None => !ScanRequest(s).Denied?
  {
  }

  // ----- early answers are final --------------------------------------------------------

  lemma GreetingStays(s: seq<byte>, t: seq<byte>)
    requires !ScanGreeting(s).More?
    ensures ScanGreeting(s + t) == ScanGreeting(s)
  {
    if ScanGreeting(s).Got? {
      var n := ScanGreeting(s).used;
      assert (s + t)[2..n] == s[2..n];
    }
  }

  lemma CredentialsStay(s: seq<byte>, t: seq<byte>)
    requires !ScanCredentials(s).More?
    ensures ScanCredentials(s + t) == ScanCredentials(s)
  {
    if ScanCredentials(s).Got? {
      var n := 2 + Code(s[1]);
      var m := n + 1 + Code(s[n]);
      assert (s + t)[2..n] == s[2..n] && (s + t)[n + 1..m] == s[n + 1..m];
    }
  }

  lemma AddrStays(s: seq<byte>, atyp: byte, t: seq<byte>)
    requires !ScanAddr(s, atyp).More?
    ensures ScanAddr(s + t, atyp) == ScanAddr(s, atyp)
  {
    var r := ScanAddr(s, atyp);
    if r.Got? {
      var n := r.used - 2;
      assert (s + t)[..n] == s[..n] && (s + t)[n..n + 2] == s[n..n + 2];
      if n > 0 {
        assert (s + t)[1..n] == s[1..n];
      }
    }
  }

  lemma RequestStays(s: seq<byte>, t: seq<byte>)
    requires !ScanRequest(s).Unfinished?
    ensures ScanRequest(s + t) == ScanRequest(s)
  {
    assert (s + t)[4..] == s[4..] + t;
    if s[0] == Byte(5) && s[2] == Byte(0) && s[1] == Byte(1) {
      AddrStays(s[4..], s[3], t);
    }
  }

  /** A decision needs no further bytes and no further bytes change it; while the
      server waits, what it has sent is the start of what it will send. */
  lemma DecisionsAreFinal(s: seq<byte>, t: seq<byte>, state: Option<Routing.RoutingState>)
    ensures !Handle(s, state).Waiting? ==> Handle(s + t, state) == Handle(s, state)
    ensures Sent(Handle(s, state)) <= Sent(Handle(s + t, state))
  {
    var g := ScanGreeting(s);
    if g.More? {
    } else {
      GreetingStays(s, t);
      if g.Got? && Byte(2) in g.value {
        var n := g.used;
        assert (s + t)[n..] == s[n..] + t;
        CredentialStageIsFinal(s, n, t, state);
      }
    }
  }

  lemma CredentialStageIsFinal(s: seq<byte>, n: nat, t: seq<byte>, state: Option<Routing.RoutingState>)
    requires n <= |s|
    ensures var v, w := HandleCredentials(s, n, state), HandleCredentials(s + t, n, state);
            (!v.Waiting? ==> w == v) && Sent(v) <= Sent(w)
  {
    assert (s + t)[n..] == s[n..] + t;
    var c := ScanCredentials(s[n..]);
    if c.More? {
      MethodSent(s + t, n, state);
    } else {
      CredentialsStay(s[n..], t);
      if c.Got? && Routing.Acquire(state, c.value.0, c.value.1).Accepted? {
        RequestStageIsFinal(s, n, t, state);
      }
    }
  }

  lemma MethodSent(s: seq<byte>, n: nat, state: Option<Routing.RoutingState>)
    requires n <= |s|
    ensures [MethodUserPwd()] <= Sent(HandleCredentials(s, n, state))
  {
    var c := ScanCredentials(s[n..]);
    if c.Got? && Routing.Acquire(state, c.value.0, c.value.1).Accepted? {
      RequestSent(s, n, state);
    }
  }

  lemma RequestStageIsFinal(s: seq<byte>, n: nat, t: seq<byte>, state: Option<Routing.RoutingState>)
    requires n <= |s|
    requires var c := ScanCredentials(s[n..]); c.Got? && Routing.Acquire(state, c.value.0, c.value.1).Accepted?
    requires ScanCredentials((s + t)[n..]) == ScanCredentials(s[n..])
    ensures var v, w := HandleCredentials(s, n, state), HandleCredentials(s + t, n, state);
            (!v.Waiting? ==> w == v) && Sent(v) <= Sent(w)
  {
    hide ScanCredentials, ScanRequest, Routing.Acquire, Answers;
    var m := n + ScanCredentials(s[n..]).used;
    assert (s + t)[m..] == s[m..] + t;
    RequestSent(s + t, n, state);
    var q := ScanRequest(s[m..]);
    if q.Unfinished? {
      assert HandleCredentials(s, n, state) == Waiting(Requesting);
    } else {
      RequestStays(s[m..], t);
      assert HandleCredentials(s + t, n, state) == HandleCredentials(s, n, state);
    }
  }

  lemma RequestSent(s: seq<byte>, n: nat, state: Option<Routing.RoutingState>)
    requires n <= |s|
    requires ScanCredentials(s[n..]).Got?
    requires var c := ScanCredentials(s[n..]).value; Routing.Acquire(state, c.0, c.1).Accepted?
    ensures [MethodUserPwd(), AuthStatus(0)] <= Sent(HandleCredentials(s, n, state))
  {
  }
}
