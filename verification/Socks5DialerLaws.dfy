/** What the SOCKS5 dialler promises for every server stream. */
module Socks5DialerLaws {
  import opened Wire
  import opened Socks5Dialer
  import Server = Socks5Listener
  import Laws = Socks5Laws

  // ----- success, framed --------------------------------------------------------------

  /** A success reply with any bound address. */
  function Granted(reserved: byte, bound: Server.Addr, port: nat): seq<byte>
    requires Server.AddrOk(bound) && port < 65536
  {
    [Byte(5), Byte(0), reserved, Server.AddrType(bound)] + Server.AddrBytes(bound) + PutUint16(port)
  }

  lemma ReplyReads(reserved: byte, bound: Server.Addr, port: nat, rest: seq<byte>)
    requires Server.AddrOk(bound) && port < 65536
    ensures ScanReply(Granted(reserved, bound, port) + rest)
         == Server.Got(Server.AddrType(bound), |Granted(reserved, bound, port)|)
  {
  }

  lemma ReplyIsFramed(s: seq<byte>) returns (reserved: byte, bound: Server.Addr, port: nat)
    requires ScanReply(s).Got?
    ensures Server.AddrOk(bound) && port < 65536
    ensures s[..ScanReply(s).used] == Granted(reserved, bound, port)
  {
    reserved := s[2];
    assert Server.ScanAddr(s[4..], s[3]).Got?;
    var r := Server.ScanAddr(s[4..], s[3]);
    Laws.AddrIsFramed(s[4..], s[3]);
    bound, port := r.value.0, r.value.1;
    assert s[..4 + r.used] == s[..4] + s[4..][..r.used];
  }

  /** The method choice, then the status of the sub-negotiation if there is one,
      whose version byte is free. */
  function Preamble(username: seq<byte>, version: byte): seq<byte> {
    [Byte(5), Method(username)] + if username == [] then [] else [version, Byte(0)]
  }

  predicate Success(s: seq<byte>, username: seq<byte>, password: seq<byte>, target: seq<byte>, used: nat,
                    version: byte, reserved: byte, bound: Server.Addr, port: nat)
  {
    && (username != [] ==> |username| <= 255 && |password| <= 255)
    && ParseTarget(target).Some?
    && Server.AddrOk(bound) && port < 65536
    && used <= |s|
    && s[..used] == Preamble(username, version) + Granted(reserved, bound, port)
  }

  function Skipped(username: seq<byte>): nat {
    if username == [] then 2 else 4
  }

  predicate Welcomed(s: seq<byte>, username: seq<byte>, password: seq<byte>) {
    && |s| >= Skipped(username)
    && s[0] == Byte(5) && s[1] == Method(username)
    && (username != [] ==> |username| <= 255 && |password| <= 255 && s[3] == Byte(0))
  }

  lemma ConnectedByStages(s: seq<byte>, username: seq<byte>, password: seq<byte>, target: seq<byte>)
    ensures Converse(s, username, password, target).Connected?
        <==> Welcomed(s, username, password) && ParseTarget(target).Some? && ScanReply(s[Skipped(username)..]).Got?
    ensures var v := Converse(s, username, password, target);
            v.Connected? ==> v.used == Skipped(username) + ScanReply(s[Skipped(username)..]).used
  {
    if |s| >= 4 {
      assert s[2..][2..] == s[4..];
    }
  }

  /** The dialler reports a connection exactly when the server's bytes begin with
      an agreed method, a granted login and a success reply; it has then drained
      those bytes, whatever the bound address, and not a byte more. */
  lemma ConnectsExactlyOnSuccess(s: seq<byte>, username: seq<byte>, password: seq<byte>, target: seq<byte>, used: nat)
    ensures (Converse(s, username, password, target).Connected? && Converse(s, username, password, target).used == used)
        <==> exists version, reserved, bound, port ::
               Success(s, username, password, target, used, version, reserved, bound, port)
  {
    var v := Converse(s, username, password, target);
    if v.Connected? && v.used == used {
      var version, reserved, bound, port := ConnectedIsSuccess(s, username, password, target);
      assert Success(s, username, password, target, used, version, reserved, bound, port);
    }
    forall version, reserved, bound, port | Success(s, username, password, target, used, version, reserved, bound, port)
      ensures v.Connected? && v.used == used
    {
      SuccessIsConnected(s, username, password, target, used, version, reserved, bound, port);
    }
  }

  lemma ConnectedIsSuccess(s: seq<byte>, username: seq<byte>, password: seq<byte>, target: seq<byte>)
    returns (version: byte, reserved: byte, bound: Server.Addr, port: nat)
    requires Converse(s, username, password, target).Connected?
    ensures Success(s, username, password, target, Converse(s, username, password, target).used, version, reserved, bound, port)
  {
    hide Converse, ScanReply, ParseTarget, Granted, Preamble;
    ConnectedByStages(s, username, password, target);
    var n := Skipped(username);
    reserved, bound, port := ReplyIsFramed(s[n..]);
    version := if username == [] then Byte(0) else s[2];
    WelcomeIsPreamble(s, username, password, version);
    var k := ScanReply(s[n..]).used;
    SplitAt(s, n, n + k);
  }

  lemma WelcomeIsPreamble(s: seq<byte>, username: seq<byte>, password: seq<byte>, version: byte)
    requires Welcomed(s, username, password)
    requires version == if username == [] then Byte(0) else s[2]
    ensures s[..Skipped(username)] == Preamble(username, version)
  {
  }

  lemma SplitAt(s: seq<byte>, n: nat, k: nat)
    requires n <= k <= |s|
    ensures s[..k] == s[..n] + s[n..][..k - n]
  {
  }

  lemma SuccessIsConnected(s: seq<byte>, username: seq<byte>, password: seq<byte>, target: seq<byte>, used: nat,
                           version: byte, reserved: byte, bound: Server.Addr, port: nat)
    requires Success(s, username, password, target, used, version, reserved, bound, port)
    ensures var v := Converse(s, username, password, target); v.Connected? && v.used == used
  {
    hide Converse, ScanReply, ParseTarget, Granted;
    var pre, reply, n := Preamble(username, version), Granted(reserved, bound, port), Skipped(username);
    ReplyReads(reserved, bound, port, s[used..]);
    Behind(s, pre, reply, used);
    assert s[..n] == pre;
    assert Welcomed(s, username, password);
    ConnectedByStages(s, username, password, target);
  }

  lemma Behind(s: seq<byte>, pre: seq<byte>, reply: seq<byte>, used: nat)
    requires used <= |s| && s[..used] == pre + reply
    ensures |pre| + |reply| == used && s[..|pre|] == pre && s[|pre|..] == reply + s[used..]
  {
    assert s == s[..used] + s[used..];
  }

  // ----- decisions are final ------------------------------------------------------------

  lemma ReplyStays(s: seq<byte>, t: seq<byte>)
    requires !ScanReply(s).More?
    ensures ScanReply(s + t) == ScanReply(s)
  {
  }

  predicate Extends(v: Verdict, w: Verdict) {
    (v.Awaiting? || w == v) && v.said <= w.said
  }

  lemma RequestExtends(s: seq<byte>, t: seq<byte>, target: seq<byte>)
    ensures Extends(Request(s, target), Request(s + t, target))
  {
    if !ScanReply(s).More? {
      ReplyStays(s, t);
    }
  }

  lemma AfterExtends(message: seq<byte>, n: nat, v: Verdict, w: Verdict)
    requires Extends(v, w)
    ensures Extends(After(message, n, v), After(message, n, w))
  {
  }

  lemma LoginExtends(s: seq<byte>, t: seq<byte>, username: seq<byte>, password: seq<byte>, target: seq<byte>)
    ensures Extends(Login(s, username, password, target), Login(s + t, username, password, target))
  {
    if |s| >= 2 && |username| <= 255 && |password| <= 255 {
      assert (s + t)[2..] == s[2..] + t;
      RequestExtends(s[2..], t, target);
      AfterExtends(Server.Credentials(username, password), 2, Request(s[2..], target), Request(s[2..] + t, target));
    }
  }

  /** More bytes never change a verdict once reached, nor what was said before. */
  lemma VerdictsAreFinal(s: seq<byte>, t: seq<byte>, username: seq<byte>, password: seq<byte>, target: seq<byte>)
    ensures Extends(Converse(s, username, password, target), Converse(s + t, username, password, target))
  {
    if |s| >= 2 {
      assert (s + t)[2..] == s[2..] + t;
      var hello := [Byte(5), Byte(1), Method(username)];
      if username == [] {
        RequestExtends(s[2..], t, target);
        AfterExtends(hello, 2, Request(s[2..], target), Request(s[2..] + t, target));
      } else {
        LoginExtends(s[2..], t, username, password, target);
        AfterExtends(hello, 2, Login(s[2..], username, password, target), Login(s[2..] + t, username, password, target));
      }
    }
  }
}
