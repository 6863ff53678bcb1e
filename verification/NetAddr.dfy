/** The host:port splitting of Go's net package. */
module NetAddr {
  import opened Prelude
  import opened Text

  /** net.SplitHostPort: the port follows the last colon; a host holding colons
      must be bracketed, and no other bracket may occur. */
  function SplitHostPort(s: string): Option<(string, string)> {
    var i := LastIndexOf(s, ':');
    if i < 0 then None
    else if s[0] == '[' then
      var end := IndexOf(s, ']');
      if end < 0 || end + 1 != i || '[' in s[1..] || ']' in s[end + 1..] then None
      else Some((s[1..end], s[i + 1..]))
    else
      var host := s[..i];
      if ':' in host || '[' in s || ']' in s then None
      else Some((host, s[i + 1..]))
  }

  predicate PlainHost(host: string) {
    ':' !in host && '[' !in host && ']' !in host
  }

  /** Joining a host without colons or brackets to a port splits back. */
  lemma SplitJoined(host: string, port: string)
    requires PlainHost(host) && PlainHost(port)
    ensures SplitHostPort(host + ":" + port) == Some((host, port))
  {
    var s := host + ":" + port;
    LastIndexOfJoined(host, ':', port);
    var i := |host|;
    assert s[..i] == host && s[i + 1..] == port;
    assert forall k :: 0 <= k < |s| ==> s[k] == (if k < |host| then host[k] else if k == |host| then ':' else port[k - |host| - 1]);
  }

  /** The split recovers the text it was given. */
  lemma SplitIsFaithful(s: string)
    ensures match SplitHostPort(s)
            case None => true
            case Some(hp) => s == hp.0 + ":" + hp.1 || s == "[" + hp.0 + "]:" + hp.1
  {
  }

  /** The port is what follows the last colon, and a bracketed text loses its
      brackets. */
  lemma SplitByParts(s: string)
    requires SplitHostPort(s).Some?
    ensures s != "" && LastIndexOf(s, ':') >= 0
    ensures var hp := SplitHostPort(s).value;
            && hp.1 == s[LastIndexOf(s, ':') + 1..]
            && (s[0] == '[' ==> s == "[" + hp.0 + "]:" + hp.1 && '[' !in hp.0)
            && (s[0] != '[' ==> s == hp.0 + ":" + hp.1)
  {
    var i := LastIndexOf(s, ':');
    if s[0] == '[' {
      Bracketing(s, i);
    } else {
      Colon(s, i);
    }
  }

  /** No bracket is left in the host. */
  lemma SplitHasNoBrackets(s: string)
    requires SplitHostPort(s).Some?
    ensures '[' !in SplitHostPort(s).value.0 && ']' !in SplitHostPort(s).value.0
  {
    var i := LastIndexOf(s, ':');
    if s[0] == '[' {
      Bracketing(s, i);
      assert s[1..i - 1] == s[..i - 1][1..];
    }
  }

  lemma Colon(s: string, i: nat)
    requires i < |s| && s[i] == ':'
    ensures s == s[..i] + ":" + s[i + 1..]
  {
  }

  lemma Bracketing(s: string, i: nat)
    requires 2 <= i < |s| && s[0] == '[' && s[i - 1] == ']' && s[i] == ':'
    ensures s == "[" + s[1..i - 1] + "]:" + s[i + 1..]
    ensures '[' !in s[1..] ==> '[' !in s[1..i - 1]
  {
    assert forall k :: 0 <= k < i - 2 ==> s[1..i - 1][k] == s[1..][k];
  }

  lemma SplitBracketed(host: string, port: string)
    requires '[' !in host && ']' !in host && PlainHost(port)
    ensures SplitHostPort("[" + host + "]:" + port) == Some((host, port))
  {
    var front := "[" + host + "]";
    var s := front + [':'] + port;
    assert "[" + host + "]:" + port == s;
    LastIndexOfJoined(front, ':', port);
    var end := |host| + 1;
    assert s == ("[" + host) + [']'] + (":" + port);
    IndexOfJoined("[" + host, ']', ":" + port);
    assert s[1..end] == host && s[end + 2..] == port;
    BracketsOnce(s, host, port);
  }

  lemma BracketsOnce(s: string, host: string, port: string)
    requires s == "[" + host + "]" + ":" + port && '[' !in host && PlainHost(port)
    ensures '[' !in s[1..] && ']' !in s[|host| + 2..]
  {
    assert s[1..] == host + "]" + ":" + port;
    assert s[|host| + 2..] == ":" + port;
  }

  /** An unbracketed host holding a colon is refused. */
  lemma SplitTooManyColons(host: string, port: string)
    requires ':' in host && '[' !in host && ':' !in port
    ensures SplitHostPort(host + ":" + port) == None
  {
    var s := host + [':'] + port;
    assert host + ":" + port == s;
    LastIndexOfJoined(host, ':', port);
    assert s[..|host|] == host && s[0] == host[0];
  }
}
