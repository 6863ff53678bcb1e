/** The SOCKS5 client side (internal/tunnel/tunnel.go, dialViaSOCKS5), from the
    open connection to the upstream on. Opening it is not part of this model. */
module Socks5Dialer {
  import opened Prelude
  import opened Wire
  import Decimal
  import NetAddr
  import Server = Socks5Listener

  /** The two sentinel errors callers distinguish. */
  datatype DialError = UpstreamDial | UpstreamAuth

  /** What the server's bytes mean to the client; said lists its own writes. */
  datatype Verdict =
    | Awaiting(said: seq<seq<byte>>)
    | Failed(said: seq<seq<byte>>, error: DialError)
    | Connected(said: seq<seq<byte>>, used: nat)

  /** NO AUTH is offered only without a username, user/pass only with one. */
  function Method(username: seq<byte>): byte {
    if username == [] then Byte(0) else Byte(2)
  }

  lemma SplitKeepsBytes(target: seq<byte>)
    ensures var hp := NetAddr.SplitHostPort(target);
            hp.Some? ==> forall i :: 0 <= i < |hp.value.0| ==> hp.value.0[i] as int < 256
  {
    var hp := NetAddr.SplitHostPort(target);
    if hp.Some? {
      NetAddr.SplitIsFaithful(target);
      var h := hp.value.0;
      forall i | 0 <= i < |h| ensures h[i] as int < 256 {
        assert target[i] == h[i] || target[i + 1] == h[i];
      }
    }
  }

  /** The target as it can be put in a request: a port from 1 to 65535 and a host
      of at most 255 bytes. */
  function ParseTarget(target: seq<byte>): (r: Option<(seq<byte>, nat)>)
    ensures r.Some? ==> |r.value.0| <= 255 && 1 <= r.value.1 <= 65535
  {
    match NetAddr.SplitHostPort(target)
    case None => None
    case Some((host, portText)) =>
      SplitKeepsBytes(target);
      match Decimal.Atoi(portText)
      case None => None
      case Some(port) => if 1 <= port <= 65535 && |host| <= 255 then Some((host, port)) else None
  }

  /** The verdict on everything the server has sent so far. */
  function Converse(s: seq<byte>, username: seq<byte>, password: seq<byte>, target: seq<byte>): (v: Verdict)
    ensures v.Connected? ==> v.used <= |s|
  {
    var hello := [Byte(5), Byte(1), Method(username)];
    if |s| < 2 then Awaiting([hello])
    else if s[0] != Byte(5) then Failed([hello], UpstreamDial)
    else if s[1] == Byte(255) then Failed([hello], UpstreamAuth)
    else if s[1] != Method(username) then Failed([hello], UpstreamDial)
    else After(hello, 2, Rest(s[2..], username, password, target))
  }

  /** Past the method: the sub-negotiation, if there is a username, and the request. */
  function Rest(s: seq<byte>, username: seq<byte>, password: seq<byte>, target: seq<byte>): (v: Verdict)
    ensures v.Connected? ==> v.used <= |s|
  {
    if username == [] then Request(s, target) else Login(s, username, password, target)
  }

  lemma ConverseSaid(s: seq<byte>, username: seq<byte>, password: seq<byte>, target: seq<byte>)
    ensures var hello := [Byte(5), Byte(1), Method(username)];
            var said := Converse(s, username, password, target).said;
            said == [hello] || (|s| >= 2 && said == [hello] + Rest(s[2..], username, password, target).said)
  {
  }

  /** A verdict reached once one message has been sent and n bytes consumed. */
  function After(message: seq<byte>, n: nat, v: Verdict): Verdict {
    match v
    case Awaiting(said) => Awaiting([message] + said)
    case Failed(said, e) => Failed([message] + said, e)
    case Connected(said, used) => Connected([message] + said, n + used)
  }

  /** The sub-negotiation; the status byte decides, its version is not looked at. */
  function Login(s: seq<byte>, username: seq<byte>, password: seq<byte>, target: seq<byte>): (v: Verdict)
    ensures v.Connected? ==> v.used <= |s|
  {
    if |username| > 255 || |password| > 255 then Failed([], UpstreamDial)
    else
      var login := Server.Credentials(username, password);
      if |s| < 2 then Awaiting([login])
      else if s[1] != Byte(0) then Failed([login], UpstreamAuth)
      else After(login, 2, Request(s[2..], target))
  }

  /** The CONNECT request. */
  function Request(s: seq<byte>, target: seq<byte>): (v: Verdict)
    ensures v.Connected? ==> v.used <= |s|
  {
    match ParseTarget(target)
    case None => Failed([], UpstreamDial)
    case Some((host, port)) =>
      var request := Server.ConnectRequest(Server.Domain(host), port);
      match ScanReply(s)
      case More => Awaiting([request])
      case Bad => Failed([request], UpstreamDial)
      case Got(_, k) => Connected([request], k)
  }

  /** The server's reply, whose bound address is drained whatever its type. */
  function ScanReply(s: seq<byte>): (r: Server.Scan<byte>)
    ensures r.Got? ==> r.used <= |s|
  {
    if |s| < 4 then Server.More
    else if s[0] != Byte(5) || s[1] != Byte(0) then Server.Bad
    else
      match Code(s[3])
      case 1 => if |s| < 10 then Server.More else Server.Got(s[3], 10)
      case 4 => if |s| < 22 then Server.More else Server.Got(s[3], 22)
      case 3 =>
        if |s| < 5 then Server.More
        else
          var k := 7 + Code(s[4]);
          if |s| < k then Server.More else Server.Got(s[3], k)
      case _ => Server.Bad
  }

  /** The result of a whole conversation in which the peer takes so many writes:
      a stream that ends early and a failed write are both dial errors. */
  function Concluded(v: Verdict, accepts: nat): Result<nat, DialError> {
    if accepts < |v.said| then Failure(UpstreamDial)
    else
      match v
      case Awaiting(_) => Failure(UpstreamDial)
      case Failed(_, e) => Failure(e)
      case Connected(_, used) => Success(used)
  }

  // ----- the dialler -------------------------------------------------------------------

  method ReadReply(conn: Conn) returns (ok: bool)
    modifies conn`replay, conn`chunks
    ensures var r := ScanReply(old(conn.Pending()));
            && (ok <==> r.Got?)
            && (ok ==> conn.Pending() == old(conn.Pending())[r.used..])
  {
    hide Conn.Pending;
    ghost var s := conn.Pending();
    var head, rest;
    head, ok := conn.ReadFull(4);
    if !ok || head[0] != Byte(5) || head[1] != Byte(0) {
      return false;
    }
    if head[3] == Byte(1) {
      rest, ok := conn.ReadFull(4 + 2);
    } else if head[3] == Byte(4) {
      rest, ok := conn.ReadFull(16 + 2);
    } else if head[3] == Byte(3) {
      var lb;
      lb, ok := conn.ReadFull(1);
      if ok {
        Cut(s, 4, 5);
        rest, ok := conn.ReadFull(Code(lb[0]) + 2);
        if ok {
          Cut(s, 5, 7 + Code(s[4]));
        }
      }
    } else {
      return false;
    }
  }

  /** What a part of the dialler does with the server's bytes s and a peer taking
      so many writes: wrote is what gets through, and on success the bytes left
      are those behind the conversation. */
  ghost predicate Follows(v: Verdict, s: seq<byte>, accepts: nat,
                          result: Option<DialError>, wrote: seq<seq<byte>>, left: seq<byte>)
  {
    var c := Concluded(v, accepts);
    && wrote == Delivered(v.said, accepts)
    && (result.None? <==> c.Success?)
    && (result.None? ==> c.value <= |s| && left == s[c.value..])
    && (result.Some? ==> result.value == c.error)
  }

  lemma FollowsAfter(message: seq<byte>, n: nat, v: Verdict, s: seq<byte>, accepts: nat,
                     result: Option<DialError>, wrote: seq<seq<byte>>, left: seq<byte>)
    requires n <= |s| && accepts > 0
    requires Follows(v, s[n..], accepts - 1, result, wrote, left)
    ensures Follows(After(message, n, v), s, accepts, result, [message] + wrote, left)
  {
    DeliveredFirst(message, v.said, accepts);
  }

  method Ask(conn: Conn, target: seq<byte>) returns (result: Option<DialError>)
    modifies conn
    ensures old(conn.written) <= conn.written
    ensures Follows(Request(old(conn.Pending()), target), old(conn.Pending()), old(conn.accepts),
                    result, conn.written[|old(conn.written)|..], conn.Pending())
    ensures conn.closed == (old(conn.closed) || result.Some?)
  {
    hide ParseTarget, ScanReply, Server.ConnectRequest, Flatten;
    var parsed := ParseTarget(target);
    if parsed.None? {
      conn.Close();
      return Some(UpstreamDial);
    }
    var ok := conn.Write(Server.ConnectRequest(Server.Domain(parsed.value.0), parsed.value.1));
    if ok {
      ok := ReadReply(conn);
    }
    if !ok {
      conn.Close();
      return Some(UpstreamDial);
    }
    return None;
  }

  /** A message and its two-byte answer; a failure closes the connection. */
  method Exchange(conn: Conn, message: seq<byte>) returns (resp: seq<byte>, ok: bool)
    modifies conn
    ensures ok <==> old(conn.accepts) >= 1 && |old(conn.Pending())| >= 2
    ensures conn.written == old(conn.written) + (if old(conn.accepts) >= 1 then [message] else [])
    ensures ok ==> resp == old(conn.Pending())[..2] && conn.Pending() == old(conn.Pending())[2..]
    ensures ok ==> conn.accepts == old(conn.accepts) - 1
    ensures conn.closed == (old(conn.closed) || !ok)
  {
    resp := [];
    ok := conn.Write(message);
    if ok {
      resp, ok := conn.ReadFull(2);
    }
    if !ok {
      conn.Close();
    }
  }

  method SendLogin(conn: Conn, username: seq<byte>, password: seq<byte>, target: seq<byte>)
    returns (result: Option<DialError>)
    modifies conn
    ensures old(conn.written) <= conn.written
    ensures Follows(Login(old(conn.Pending()), username, password, target), old(conn.Pending()), old(conn.accepts),
                    result, conn.written[|old(conn.written)|..], conn.Pending())
    ensures conn.closed == (old(conn.closed) || result.Some?)
  {
    hide Request, Server.Credentials, Conn.Pending;
    if |username| > 255 || |password| > 255 {
      conn.Close();
      return Some(UpstreamDial);
    }
    ghost var s, w, a := conn.Pending(), conn.written, conn.accepts;
    var login := Server.Credentials(username, password);
    var ar, ok := Exchange(conn, login);
    if !ok {
      return Some(UpstreamDial);
    }
    if ar[1] != Byte(0) {
      conn.Close();
      return Some(UpstreamAuth);
    }
    result := Ask(conn, target);
    FollowsAfter(login, 2, Request(s[2..], target), s, a, result, conn.written[|w| + 1..], conn.Pending());
    assert conn.written[|w|..] == [login] + conn.written[|w| + 1..];
  }

  method LogInAndAsk(conn: Conn, username: seq<byte>, password: seq<byte>, target: seq<byte>)
    returns (result: Option<DialError>)
    modifies conn
    ensures old(conn.written) <= conn.written
    ensures Follows(Rest(old(conn.Pending()), username, password, target), old(conn.Pending()), old(conn.accepts),
                    result, conn.written[|old(conn.written)|..], conn.Pending())
    ensures conn.closed == (old(conn.closed) || result.Some?)
  {
    if username == [] {
      result := Ask(conn, target);
    } else {
      result := SendLogin(conn, username, password, target);
    }
  }

  /** The whole handshake on an open connection. On success the connection is
      left exactly behind the server's reply; any failure closes it. */
  method Dial(conn: Conn, username: seq<byte>, password: seq<byte>, target: seq<byte>)
    returns (result: Option<DialError>)
    modifies conn
    ensures old(conn.written) <= conn.written
    ensures Follows(Converse(old(conn.Pending()), username, password, target), old(conn.Pending()), old(conn.accepts),
                    result, conn.written[|old(conn.written)|..], conn.Pending())
    ensures conn.closed == (old(conn.closed) || result.Some?)
  {
    hide Rest, Conn.Pending;
    ghost var s, w, a := conn.Pending(), conn.written, conn.accepts;
    var hello := [Byte(5), Byte(1), Method(username)];
    var resp, ok := Exchange(conn, hello);
    if !ok {
      return Some(UpstreamDial);
    }
    if resp[0] != Byte(5) {
      conn.Close();
      return Some(UpstreamDial);
    }
    if resp[1] == Byte(255) {
      conn.Close();
      return Some(UpstreamAuth);
    }
    if resp[1] != Method(username) {
      conn.Close();
      return Some(UpstreamDial);
    }
    result := LogInAndAsk(conn, username, password, target);
    FollowsAfter(hello, 2, Rest(s[2..], username, password, target), s, a, result, conn.written[|w| + 1..], conn.Pending());
    assert conn.written[|w|..] == [hello] + conn.written[|w| + 1..];
  }
}
