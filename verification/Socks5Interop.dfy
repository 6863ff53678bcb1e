/** Two daemons chained over SOCKS5: the dialler of one talks to the listener of
    the other. Bytes travel in both directions in pieces of any size and in any
    order; the listener dials its target in between. */
module Socks5Interop {
  import opened Prelude
  import opened Wire
  import Decimal
  import Text
  import NetAddr
  import Client = Socks5Dialer
  import ClientLaws = Socks5DialerLaws
  import Routing
  import Server = Socks5Listener
  import ServerLaws = Socks5Laws

  /** The dialler's arguments and the listener's routing snapshot. */
  datatype Setup = Setup(username: seq<byte>, password: seq<byte>, target: seq<byte>,
                         state: Option<Routing.RoutingState>)

  /** What has arrived at either end, and how the listener's dial went. */
  datatype Link = Link(toServer: seq<byte>, toClient: seq<byte>, dial: Option<bool>)

  function AtClient(c: Setup, toClient: seq<byte>): Client.Verdict {
    Client.Converse(toClient, c.username, c.password, c.target)
  }

  function AtServer(c: Setup, toServer: seq<byte>): Server.Verdict {
    Server.Handle(toServer, c.state)
  }

  function ClientOut(c: Setup, toClient: seq<byte>): seq<byte> {
    Flatten(AtClient(c, toClient).said)
  }

  function ServerOut(c: Setup, toServer: seq<byte>, dial: Option<bool>): seq<byte> {
    var v := AtServer(c, toServer);
    Flatten(Server.Sent(v) + if v.Reached? && dial.Some? then [Server.LastReply(v, dial.value)] else [])
  }

  const START := Link([], [], None)

  ghost predicate Next(c: Setup, l: Link, m: Link) {
    || (m == l.(toServer := m.toServer) && l.toServer < m.toServer <= ClientOut(c, l.toClient))
    || (m == l.(toClient := m.toClient) && l.toClient < m.toClient <= ServerOut(c, l.toServer, l.dial))
    || (m == l.(dial := m.dial) && l.dial.None? && m.dial.Some? && AtServer(c, l.toServer).Reached?)
  }

  ghost predicate IsRun(c: Setup, run: seq<Link>) {
    && |run| > 0 && run[0] == START
    && forall i :: 0 <= i < |run| - 1 ==> Next(c, run[i], run[i + 1])
  }

  // ----- what every step keeps --------------------------------------------------------------

  /** Each end has received the start of what the other has sent. */
  ghost predicate Inv(c: Setup, l: Link) {
    && l.toServer <= ClientOut(c, l.toClient)
    && l.toClient <= ServerOut(c, l.toServer, l.dial)
    && (l.dial.Some? ==> AtServer(c, l.toServer).Reached?)
  }

  lemma FlattenGrows(a: seq<seq<byte>>, b: seq<seq<byte>>)
    requires a <= b
    ensures Flatten(a) <= Flatten(b)
  {
    assert b == a + b[|a|..];
    FlattenConcat(a, b[|a|..]);
  }

  lemma ClientOutGrows(c: Setup, s: seq<byte>, t: seq<byte>)
    requires s <= t
    ensures ClientOut(c, s) <= ClientOut(c, t)
  {
    assert t == s + t[|s|..];
    ClientLaws.VerdictsAreFinal(s, t[|s|..], c.username, c.password, c.target);
    FlattenGrows(AtClient(c, s).said, AtClient(c, t).said);
  }

  lemma ServerOutGrows(c: Setup, s: seq<byte>, t: seq<byte>, dial: Option<bool>)
    requires s <= t && (dial.Some? ==> AtServer(c, s).Reached?)
    ensures ServerOut(c, s, dial) <= ServerOut(c, t, dial)
    ensures AtServer(c, s).Reached? ==> AtServer(c, t) == AtServer(c, s)
  {
    assert t == s + t[|s|..];
    ServerLaws.DecisionsAreFinal(s, t[|s|..], c.state);
    if AtServer(c, t) != AtServer(c, s) {
      FlattenGrows(Server.Sent(AtServer(c, s)), Server.Sent(AtServer(c, t)));
      assert Server.Sent(AtServer(c, s)) + [] == Server.Sent(AtServer(c, s));
      assert Server.Sent(AtServer(c, t)) + [] == Server.Sent(AtServer(c, t));
    }
  }

  lemma DialAdds(c: Setup, s: seq<byte>, ok: bool)
    ensures ServerOut(c, s, None) <= ServerOut(c, s, Some(ok))
  {
    var v := AtServer(c, s);
    assert Server.Sent(v) + [] == Server.Sent(v);
    FlattenGrows(Server.Sent(v), Server.Sent(v) + if v.Reached? then [Server.LastReply(v, ok)] else []);
  }

  lemma NextKeepsInv(c: Setup, l: Link, m: Link)
    requires Inv(c, l) && Next(c, l, m)
    ensures Inv(c, m)
  {
    if m == l.(toServer := m.toServer) && l.toServer < m.toServer <= ClientOut(c, l.toClient) {
      ServerOutGrows(c, l.toServer, m.toServer, l.dial);
    } else if m == l.(toClient := m.toClient) && l.toClient < m.toClient <= ServerOut(c, l.toServer, l.dial) {
      ClientOutGrows(c, l.toClient, m.toClient);
    } else {
      DialAdds(c, l.toServer, m.dial.value);
    }
  }

  lemma {:induction false} RunKeepsInv(c: Setup, run: seq<Link>, i: nat)
    requires IsRun(c, run) && i < |run|
    ensures Inv(c, run[i])
  {
    if i == 0 {
      assert [] <= ClientOut(c, []) && [] <= ServerOut(c, [], None);
    } else {
      RunKeepsInv(c, run, i - 1);
      NextKeepsInv(c, run[i - 1], run[i]);
    }
  }

  // ----- runs are short and end settled -------------------------------------------------------

  /** Nothing is left in flight and no dial is due. */
  predicate Settled(c: Setup, l: Link) {
    && l.toServer == ClientOut(c, l.toClient)
    && l.toClient == ServerOut(c, l.toServer, l.dial)
    && (AtServer(c, l.toServer).Reached? ==> l.dial.Some?)
  }

  lemma StuckIsSettled(c: Setup, l: Link)
    requires Inv(c, l)
    requires forall m :: !Next(c, l, m)
    ensures Settled(c, l)
  {
    assert !Next(c, l, l.(toServer := ClientOut(c, l.toClient)));
    assert !Next(c, l, l.(toClient := ServerOut(c, l.toServer, l.dial)));
    assert !Next(c, l, l.(dial := Some(true)));
  }

  lemma Flatten1(a: seq<byte>)
    ensures Flatten([a]) == a
  {
  }

  lemma Flatten2(a: seq<byte>, b: seq<byte>)
    ensures Flatten([a, b]) == a + b
  {
    assert [a, b][1..] == [b];
    Flatten1(b);
  }

  lemma Flatten3(a: seq<byte>, b: seq<byte>, d: seq<byte>)
    ensures Flatten([a, b, d]) == a + b + d
  {
    assert [a, b, d][1..] == [b, d];
    Flatten2(b, d);
  }

  function Hello(c: Setup): seq<byte> {
    [Byte(5), Byte(1), Client.Method(c.username)]
  }

  /** The client's messages: a greeting, a login if there is a username, and a
      request, as far as it got. */
  lemma SaidInOrder(c: Setup, s: seq<byte>)
    ensures var said := AtClient(c, s).said;
            && 1 <= |said| <= 3 && |said[0]| == 3
            && (|said| >= 2 ==> |said[1]| <= 513)
            && (|said| == 3 ==> |said[2]| <= 262)
  {
    Client.ConverseSaid(s, c.username, c.password, c.target);
    if |s| >= 2 {
      RestIsShort(s[2..], c.username, c.password, c.target);
    }
    hide Client.Converse, Client.Rest;
  }

  lemma RestIsShort(s: seq<byte>, username: seq<byte>, password: seq<byte>, target: seq<byte>)
    ensures var said := Client.Rest(s, username, password, target).said;
            |said| <= 2 && (|said| >= 1 ==> |said[0]| <= 513) && (|said| == 2 ==> |said[1]| <= 262)
  {
    if username == [] {
      RequestIsShort(s, target);
    } else if |s| >= 2 {
      RequestIsShort(s[2..], target);
    }
    hide Client.Request;
  }

  lemma RequestIsShort(s: seq<byte>, target: seq<byte>)
    ensures var said := Client.Request(s, target).said;
            |said| <= 1 && (|said| == 1 ==> |said[0]| <= 262)
  {
  }

  lemma ClientOutIsShort(c: Setup, s: seq<byte>)
    ensures |ClientOut(c, s)| <= 778
  {
    SaidInOrder(c, s);
    var said := AtClient(c, s).said;
    if |said| == 1 {
      Flatten1(said[0]);
      assert said == [said[0]];
    } else if |said| == 2 {
      Flatten2(said[0], said[1]);
      assert said == [said[0], said[1]];
    } else {
      Flatten3(said[0], said[1], said[2]);
      assert said == [said[0], said[1], said[2]];
    }
  }

  lemma ServerOutIsShort(c: Setup, s: seq<byte>, dial: Option<bool>)
    ensures |ServerOut(c, s, dial)| <= 14
  {
    var v := AtServer(c, s);
    var all := Server.Sent(v) + if v.Reached? && dial.Some? then [Server.LastReply(v, dial.value)] else [];
    assert |all| <= 3 && (|all| >= 1 ==> |all[0]| == 2) && (|all| >= 2 ==> |all[1]| == 2) && (|all| == 3 ==> |all[2]| == 10);
    if |all| == 1 {
      Flatten1(all[0]);
      assert all == [all[0]];
    } else if |all| == 2 {
      Flatten2(all[0], all[1]);
      assert all == [all[0], all[1]];
    } else if |all| == 3 {
      Flatten3(all[0], all[1], all[2]);
      assert all == [all[0], all[1], all[2]];
    }
  }

  function Moved(l: Link): nat {
    |l.toServer| + |l.toClient| + if l.dial.Some? then 1 else 0
  }

  lemma {:induction false} RunMoves(c: Setup, run: seq<Link>, i: nat)
    requires IsRun(c, run) && i < |run|
    ensures Moved(run[i]) >= i
  {
    if i > 0 {
      RunMoves(c, run, i - 1);
      assert Next(c, run[i - 1], run[i]);
    }
  }

  /** No run has more than 793 steps, and one that cannot be continued is settled:
      whatever the pieces and their order, the two ends never deadlock. */
  lemma EveryRunEndsSettled(c: Setup, run: seq<Link>)
    requires IsRun(c, run)
    ensures |run| <= 794
    ensures (forall m :: !IsRun(c, run + [m])) ==> Settled(c, run[|run| - 1])
  {
    var l := run[|run| - 1];
    RunMoves(c, run, |run| - 1);
    RunKeepsInv(c, run, |run| - 1);
    ClientOutIsShort(c, l.toClient);
    ServerOutIsShort(c, l.toServer, l.dial);
    forall m ensures Next(c, l, m) ==> IsRun(c, run + [m]) {
      if Next(c, l, m) {
        RunGoesOn(c, run, m);
      }
    }
    if forall m :: !IsRun(c, run + [m]) {
      StuckIsSettled(c, l);
    }
  }

  lemma RunGoesOn(c: Setup, run: seq<Link>, m: Link)
    requires IsRun(c, run) && Next(c, run[|run| - 1], m)
    ensures IsRun(c, run + [m])
  {
  }

  // ----- how a settled handshake ended ----------------------------------------------------------

  /** Credentials a sub-negotiation can carry. */
  predicate Sendable(c: Setup) {
    1 <= |c.username| <= 255 && |c.password| <= 255
  }

  function Greeting(): seq<byte> {
    Server.Greeting([Byte(2)])
  }

  function Login(c: Setup): seq<byte>
    requires |c.username| <= 255 && |c.password| <= 255
  {
    Server.Credentials(c.username, c.password)
  }

  function Request(host: seq<byte>, port: nat): seq<byte>
    requires |host| <= 255 && port < 65536
  {
    Server.ConnectRequest(Server.Domain(host), port)
  }

  /** The client has sent its greeting, or that and its login, or everything. */
  lemma ClientSaid(c: Setup, s: seq<byte>)
    requires Sendable(c)
    ensures var said, t := AtClient(c, s).said, Client.ParseTarget(c.target);
            || said == [Greeting()]
            || said == [Greeting(), Login(c)]
            || (t.Some? && said == [Greeting(), Login(c), Request(t.value.0, t.value.1)])
  {
    assert Greeting() == Hello(c);
    Client.ConverseSaid(s, c.username, c.password, c.target);
    if |s| >= 2 {
      LoginSaid(c, s[2..]);
    }
  }

  lemma LoginSaid(c: Setup, s: seq<byte>)
    requires Sendable(c)
    ensures var said, t := Client.Login(s, c.username, c.password, c.target).said, Client.ParseTarget(c.target);
            said == [Login(c)] || (t.Some? && said == [Login(c), Request(t.value.0, t.value.1)])
  {
  }

  lemma ServerAfterGreeting(c: Setup)
    ensures AtServer(c, Greeting()) == Server.Waiting(Server.Authenticating)
  {
    ServerLaws.GreetingReads([Byte(2)], []);
    assert Greeting() + [] == Greeting();
  }

  function AfterLogin(a: Routing.Answer): Server.Verdict {
    if a.Accepted? then Server.Waiting(Server.Requesting) else Server.Rejected(Server.Counts(a))
  }

  lemma ServerAfterLogin(c: Setup)
    requires |c.username| <= 255 && |c.password| <= 255
    ensures AtServer(c, Greeting() + Login(c)) == AfterLogin(Routing.Acquire(c.state, c.username, c.password))
  {
    var g, a := Greeting(), Login(c);
    ServerLaws.GreetingReads([Byte(2)], a);
    ServerLaws.CredentialsRead(c.username, c.password, []);
    assert a + [] == a && (g + a)[|g|..] == a;
    assert (g + a)[|g| + |a|..] == [];
  }

  lemma ServerAfterRequest(c: Setup, host: seq<byte>, port: nat)
    requires Sendable(c) && |host| <= 255 && port < 65536
    ensures var a := Routing.Acquire(c.state, c.username, c.password);
            var all := Greeting() + Login(c) + Request(host, port);
            AtServer(c, all) == if a.Accepted?
                                then Server.Reached(|all|, c.username, c.password, Server.Domain(host), port)
                                else Server.Rejected(Server.Counts(a))
  {
    var g, a, q := Greeting(), Login(c), Request(host, port);
    if Routing.Acquire(c.state, c.username, c.password).Accepted? {
      var all := g + a + q;
      assert all[..|all|] == all;
      ServerLaws.FramedIsReached(all, c.state, [Byte(2)], |all|, c.username, c.password, Server.Domain(host), port);
    } else {
      ServerAfterLogin(c);
      ServerLaws.DecisionsAreFinal(g + a, q, c.state);
    }
  }

  // What either end says next, once it has heard the other's messages whole.

  function Chosen(): seq<byte> {
    Server.MethodUserPwd()
  }

  lemma ClientAfterMethod(c: Setup)
    requires Sendable(c)
    ensures AtClient(c, Chosen()) == Client.Awaiting([Greeting(), Login(c)])
  {
    assert Greeting() == Hello(c);
  }

  /** Once the login is granted only the request is left to be answered. */
  lemma ClientAfterGrant(c: Setup, rest: seq<byte>)
    requires Sendable(c)
    ensures AtClient(c, Chosen() + Server.AuthStatus(0) + rest)
         == Client.After(Greeting(), 2, Client.After(Login(c), 2, Client.Request(rest, c.target)))
  {
    assert Greeting() == Hello(c);
    var s := Chosen() + Server.AuthStatus(0) + rest;
    assert s[2..] == Server.AuthStatus(0) + rest;
    assert s[2..][2..] == rest;
    hide Client.Request;
  }

  lemma ClientAfterStatus(c: Setup)
    requires Sendable(c)
    ensures var t := Client.ParseTarget(c.target);
            AtClient(c, Chosen() + Server.AuthStatus(0)) ==
            if t.Some? then Client.Awaiting([Greeting(), Login(c), Request(t.value.0, t.value.1)])
            else Client.Failed([Greeting(), Login(c)], Client.UpstreamDial)
  {
    ClientAfterGrant(c, []);
    RequestUnanswered(c.target);
    assert Chosen() + Server.AuthStatus(0) + [] == Chosen() + Server.AuthStatus(0);
    hide Client.Converse, Client.Request;
  }

  lemma RequestUnanswered(target: seq<byte>)
    ensures var t := Client.ParseTarget(target);
            Client.Request([], target) ==
            if t.Some? then Client.Awaiting([Request(t.value.0, t.value.1)]) else Client.Failed([], Client.UpstreamDial)
  {
  }

  lemma ClientAfterDenial(c: Setup)
    requires Sendable(c)
    ensures AtClient(c, Chosen() + Server.AuthStatus(1)) == Client.Failed([Greeting(), Login(c)], Client.UpstreamAuth)
  {
    assert Greeting() == Hello(c);
    assert (Chosen() + Server.AuthStatus(1))[2..] == Server.AuthStatus(1);
  }

  lemma ClientAfterReply(c: Setup, host: seq<byte>, port: nat, ok: bool)
    requires Sendable(c) && Client.ParseTarget(c.target) == Some((host, port))
    ensures var s := Chosen() + Server.AuthStatus(0) + Server.Reply(if ok then 0 else 1);
            var said := [Greeting(), Login(c), Request(host, port)];
            AtClient(c, s) == if ok then Client.Connected(said, |s|) else Client.Failed(said, Client.UpstreamDial)
  {
    var reply := Server.Reply(if ok then 0 else 1);
    ReplyIsTen(if ok then 0 else 1);
    ClientAfterGrant(c, reply);
    RequestAnswered(c.target, ok);
    TwoBefore(Greeting(), Login(c), Request(host, port), ok);
    hide Client.Converse, Client.Request, Client.After, Client.ParseTarget, Server.Reply, Greeting, Login, Request;
  }

  lemma TwoBefore(g: seq<byte>, a: seq<byte>, q: seq<byte>, ok: bool)
    ensures Client.After(g, 2, Client.After(a, 2, if ok then Client.Connected([q], 10) else Client.Failed([q], Client.UpstreamDial)))
         == if ok then Client.Connected([g, a, q], 14) else Client.Failed([g, a, q], Client.UpstreamDial)
  {
    assert [g] + ([a] + [q]) == [g, a, q];
  }

  lemma ReplyIsTen(rep: nat)
    requires rep < 256
    ensures |Server.Reply(rep)| == 10
  {
  }

  lemma RequestAnswered(target: seq<byte>, ok: bool)
    requires Client.ParseTarget(target).Some?
    ensures var t, reply := Client.ParseTarget(target).value, Server.Reply(if ok then 0 else 1);
            Client.Request(reply, target) ==
            if ok then Client.Connected([Request(t.0, t.1)], 10) else Client.Failed([Request(t.0, t.1)], Client.UpstreamDial)
  {
    var reply := Server.Reply(if ok then 0 else 1);
    assert Client.ScanReply(reply) == if ok then Server.Got(Byte(1), 10) else Server.Bad;
  }

  /** Only the greeting is never all there is to say. */
  lemma GreetingIsNotTheEnd(c: Setup, l: Link)
    requires Sendable(c) && Settled(c, l)
    ensures AtClient(c, l.toClient).said != [Greeting()]
  {
    if AtClient(c, l.toClient).said == [Greeting()] {
      Flatten1(Greeting());
      ServerAfterGreeting(c);
      Flatten1(Chosen());
      assert Server.Sent(Server.Waiting(Server.Authenticating)) + [] == [Chosen()];
      ClientAfterMethod(c);
      assert false;
    }
  }

  lemma LoginIsAnswered(c: Setup, l: Link)
    requires Sendable(c) && Settled(c, l)
    requires Routing.Acquire(c.state, c.username, c.password).Accepted?
    requires AtClient(c, l.toClient).said == [Greeting(), Login(c)]
    ensures l.toServer == Greeting() + Login(c) && l.toClient == Chosen() + Server.AuthStatus(0)
  {
    Flatten2(Greeting(), Login(c));
    ServerAfterLogin(c);
    Flatten2(Chosen(), Server.AuthStatus(0));
    assert Server.Sent(Server.Waiting(Server.Requesting)) + [] == [Chosen(), Server.AuthStatus(0)];
  }

  /** A settled handshake with credentials the listener accepts and any target
      the dialler can parse: the host and port it was given arrive, both sides
      have consumed everything that was sent, and the dialler learns how the
      dial went. */
  lemma AcceptedHandshakeCompletes(c: Setup, host: seq<byte>, port: nat, l: Link)
    requires Sendable(c) && Client.ParseTarget(c.target) == Some((host, port)) && Settled(c, l)
    requires Routing.Acquire(c.state, c.username, c.password).Accepted?
    ensures AtServer(c, l.toServer) == Server.Reached(|l.toServer|, c.username, c.password, Server.Domain(host), port)
    ensures l.dial.Some?
    ensures var v := AtClient(c, l.toClient);
            if l.dial.value then v.Connected? && v.used == |l.toClient| else v.Failed? && v.error == Client.UpstreamDial
  {
    ClientSaid(c, l.toClient);
    GreetingIsNotTheEnd(c, l);
    if AtClient(c, l.toClient).said == [Greeting(), Login(c)] {
      LoginIsAnswered(c, l);
      ClientAfterStatus(c);
      assert false;
    }
    Flatten3(Greeting(), Login(c), Request(host, port));
    ServerAfterRequest(c, host, port);
    ReachedAnswers(c, l);
    ClientAfterReply(c, host, port, l.dial.value);
  }

  lemma ReachedAnswers(c: Setup, l: Link)
    requires Settled(c, l) && AtServer(c, l.toServer).Reached?
    ensures l.dial.Some? && l.toClient == Chosen() + Server.AuthStatus(0) + Server.Reply(if l.dial.value then 0 else 1)
  {
    var v, reply := AtServer(c, l.toServer), Server.Reply(if l.dial.value then 0 else 1);
    assert Server.Sent(v) + [Server.LastReply(v, l.dial.value)] == [Chosen(), Server.AuthStatus(0), reply];
    Flatten3(Chosen(), Server.AuthStatus(0), reply);
  }

  /** A target the dialler cannot parse: it gives up after a granted login, and
      the listener dials nothing. */
  lemma UnparsableTargetFails(c: Setup, l: Link)
    requires Sendable(c) && Client.ParseTarget(c.target).None? && Settled(c, l)
    requires Routing.Acquire(c.state, c.username, c.password).Accepted?
    ensures AtServer(c, l.toServer) == Server.Waiting(Server.Requesting)
    ensures AtClient(c, l.toClient).Failed? && AtClient(c, l.toClient).error == Client.UpstreamDial
  {
    ClientSaid(c, l.toClient);
    GreetingIsNotTheEnd(c, l);
    LoginIsAnswered(c, l);
    ServerAfterLogin(c);
    ClientAfterStatus(c);
  }

  lemma RejectedAnswers(c: Setup, l: Link)
    requires Settled(c, l) && AtServer(c, l.toServer).Rejected?
    ensures l.toClient == Chosen() + Server.AuthStatus(1)
  {
    var v := AtServer(c, l.toServer);
    assert Server.Sent(v) + [] == [Chosen(), Server.AuthStatus(1)];
    Flatten2(Chosen(), Server.AuthStatus(1));
  }

  /** Credentials the listener rejects end in an authentication error at the
      dialler, whatever its target, and its request is never sent. */
  lemma RejectedHandshakeFails(c: Setup, l: Link)
    requires Sendable(c) && Settled(c, l)
    requires !Routing.Acquire(c.state, c.username, c.password).Accepted?
    ensures AtServer(c, l.toServer).Rejected? && l.toServer == Greeting() + Login(c)
    ensures AtClient(c, l.toClient).Failed? && AtClient(c, l.toClient).error == Client.UpstreamAuth
  {
    ClientSaid(c, l.toClient);
    GreetingIsNotTheEnd(c, l);
    Flatten2(Greeting(), Login(c));
    ServerAfterLogin(c);
    var t := Client.ParseTarget(c.target);
    if t.Some? {
      Flatten3(Greeting(), Login(c), Request(t.value.0, t.value.1));
      ServerAfterRequest(c, t.value.0, t.value.1);
    }
    RejectedAnswers(c, l);
    ClientAfterDenial(c);
  }

  lemma NoAuthIsRefused(c: Setup, s: seq<byte>)
    requires c.username == [] && Hello(c) <= s
    ensures AtServer(c, s) == Server.NoMethod
  {
    hide Server.ScanGreeting, Server.HandleCredentials;
    assert Hello(c) == Server.Greeting([Byte(0)]);
    ServerLaws.GreetingReads([Byte(0)], s[3..]);
    assert s == Hello(c) + s[3..];
  }

  /** Without a username the dialler offers no authentication, which the listener
      never takes. */
  lemma EmptyUsernameIsRefused(c: Setup, l: Link)
    requires c.username == [] && Settled(c, l)
    ensures AtServer(c, l.toServer) == Server.NoMethod
    ensures AtClient(c, l.toClient).Failed? && AtClient(c, l.toClient).error == Client.UpstreamAuth
  {
    hide Server.Handle, Client.Rest;
    NoAuthIsRefused(c, l.toServer);
    Flatten1(Server.MethodNoAccept());
  }

  /** Credentials too long to send: the dialler gives up once the method is
      agreed, and the listener never hears a login. */
  lemma LongCredentialsFail(c: Setup, l: Link)
    requires c.username != [] && !Sendable(c) && Settled(c, l)
    ensures AtServer(c, l.toServer) == Server.Waiting(Server.Authenticating)
    ensures AtClient(c, l.toClient).Failed? && AtClient(c, l.toClient).error == Client.UpstreamDial
  {
    assert Greeting() == Hello(c);
    LongSaysHello(c, l.toClient);
    Flatten1(Greeting());
    ServerAfterGreeting(c);
    Flatten1(Chosen());
    assert Server.Sent(Server.Waiting(Server.Authenticating)) + [] == [Chosen()];
  }

  lemma LongSaysHello(c: Setup, s: seq<byte>)
    requires c.username != [] && !Sendable(c)
    ensures AtClient(c, s).said == [Hello(c)]
    ensures AtClient(c, Chosen()) == Client.Failed([Hello(c)], Client.UpstreamDial)
  {
  }

  // ----- what becomes of the target ---------------------------------------------------------------

  /** How the listener spells the host and port it was sent. */
  function Respelt(host: seq<byte>, port: nat): (s: seq<byte>)
    ensures s == host + ":" + Decimal.Itoa(port)
  {
    host + [':'] + Digits(port)
  }

  predicate Bracketed(target: string) {
    target != "" && target[0] == '['
  }

  function PortText(target: string): string {
    target[Text.LastIndexOf(target, ':') + 1..]
  }

  /** The second daemon dials the text the first was given if and only if that
      was not bracketed and wrote its port without sign or leading zeros. */
  lemma TargetSurvivesExactly(target: seq<byte>, host: seq<byte>, port: nat, ipText: seq<byte> -> string)
    requires Client.ParseTarget(target) == Some((host, port))
    ensures Server.TargetText(Server.Domain(host), port, ipText) == Respelt(host, port)
    ensures Respelt(host, port) == target <==> !Bracketed(target) && Decimal.IsCanonical(PortText(target))
  {
    var portText := PortText(target);
    NetAddr.SplitIsFaithful(target);
    Parts(target, host, portText);
    PortSurvivesExactly(portText, port);
    if !Bracketed(target) {
      Suffixes(host, Decimal.Itoa(port), portText);
    } else {
      BracketsAreLost(target, host, port);
    }
  }

  lemma Parts(target: seq<byte>, host: seq<byte>, portText: string)
    requires Client.ParseTarget(target).Some? && Client.ParseTarget(target).value.0 == host && portText == PortText(target)
    ensures NetAddr.SplitHostPort(target) == Some((host, portText))
    ensures Decimal.Atoi(portText) == Some(Client.ParseTarget(target).value.1)
    ensures if Bracketed(target) then target == "[" + host + "]:" + portText && '[' !in host
            else target == host + ":" + portText
  {
    NetAddr.SplitByParts(target);
    hide NetAddr.SplitHostPort;
  }

  lemma PortSurvivesExactly(portText: string, port: nat)
    requires Decimal.Atoi(portText) == Some(port)
    ensures Decimal.Itoa(port) == portText <==> Decimal.IsCanonical(portText)
  {
    if Decimal.AllDigits(portText) {
      assert !(portText[0] == '+' || portText[0] == '-') by {
        assert Decimal.IsDigit(portText[0]);
      }
      Decimal.ItoaOfValue(portText);
    }
  }

  lemma Suffixes(host: string, a: string, b: string)
    ensures host + ":" + a == host + ":" + b <==> a == b
  {
    var s, t := host + ":" + a, host + ":" + b;
    assert s[|host| + 1..] == a && t[|host| + 1..] == b;
  }

  lemma BracketsAreLost(target: seq<byte>, host: seq<byte>, port: nat)
    requires Bracketed(target) && '[' !in host
    ensures Respelt(host, port) != target
  {
    assert Respelt(host, port)[0] == if host == [] then ':' else host[0];
  }

  /** What the next dialler makes of the text the listener was left with: the
      same host and port, unless the host holds a colon. */
  lemma NextHopParsesExactly(target: seq<byte>, host: seq<byte>, port: nat)
    requires Client.ParseTarget(target) == Some((host, port))
    ensures Client.ParseTarget(Respelt(host, port)) == if ':' in host then None else Some((host, port))
  {
    var digits := Decimal.Itoa(port);
    NetAddr.SplitHasNoBrackets(target);
    hide NetAddr.SplitHostPort;
    if ':' in host {
      NetAddr.SplitTooManyColons(host, digits);
    } else {
      NetAddr.SplitJoined(host, digits);
      Decimal.AtoiItoa(port);
    }
  }

  /** An IPv6 target as the listener itself spells it is sent on without its
      brackets; the text the next daemon is left with no dialler can parse. */
  lemma ChainedIPv6IsUndialable(raw: seq<byte>, ipText: seq<byte> -> string, ip: seq<byte>, port: nat)
    requires ipText(raw) == ip
    requires ':' in ip && '[' !in ip && ']' !in ip && |ip| <= 255 && 1 <= port <= 65535
    ensures Server.TargetText(Server.IPv6(raw), port, ipText) == Bracket(ip, port)
    ensures Client.ParseTarget(Bracket(ip, port)) == Some((ip, port))
    ensures Client.ParseTarget(Respelt(ip, port)).None?
  {
    var digits := Decimal.Itoa(port);
    hide NetAddr.SplitHostPort;
    NetAddr.SplitBracketed(ip, digits);
    Decimal.AtoiItoa(port);
    assert Bracket(ip, port) == "[" + ip + "]:" + digits;
    NextHopParsesExactly(Bracket(ip, port), ip, port);
  }

  function Bracket(ip: seq<byte>, port: nat): seq<byte> {
    ['['] + ip + [']', ':'] + Digits(port)
  }

  function Digits(port: nat): (s: seq<byte>)
    ensures s == Decimal.Itoa(port)
  {
    DigitsAreBytes(port);
    Decimal.Itoa(port)
  }

  lemma DigitsAreBytes(port: nat)
    ensures forall i :: 0 <= i < |Decimal.Itoa(port)| ==> Decimal.Itoa(port)[i] as int < 256
  {
    forall i | 0 <= i < |Decimal.Itoa(port)| ensures Decimal.Itoa(port)[i] as int < 256 {
      assert Decimal.IsDigit(Decimal.Itoa(port)[i]);
    }
  }
}
