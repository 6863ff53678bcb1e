/** The subscription parser of the browser extension (extension/lib/parse.js).
    Text is held as its UTF-8 bytes. */
module SubscriptionParser {
  import opened Prelude
  import opened Text
  import Decimal
  import Percent

  datatype Proxy = Proxy(
    raw: string, rawScheme: string, scheme: string,
    host: string, port: nat,
    username: string, password: string, name: string)

  // ----- the line pattern ----------------------------------------------------------------

  predicate IsSpace(c: char) {
    c == ' ' || 9 <= c as int <= 13
  }

  predicate NoSpace(s: string) {
    forall i :: 0 <= i < |s| ==> !IsSpace(s[i])
  }

  predicate IsLetter(c: char) {
    'a' <= c <= 'z' || 'A' <= c <= 'Z'
  }

  predicate IsScheme(s: string) {
    && s != "" && IsLetter(s[0])
    && forall i :: 0 <= i < |s| ==> IsLetter(s[i]) || Decimal.IsDigit(s[i]) || s[i] in "_+.-"
  }

  predicate IsHost(s: string) {
    && s != "" && NoSpace(s)
    && forall i :: 0 <= i < |s| ==> s[i] !in ":@/#?"
  }

  /** How many digits s starts with. */
  function DigitRun(s: string): (n: nat)
    ensures n <= |s| && Decimal.AllDigits(s[..n])
    ensures n < |s| ==> !Decimal.IsDigit(s[n])
  {
    if s == "" || !Decimal.IsDigit(s[0]) then 0
    else
      assert forall i :: 0 < i < |s| ==> s[i] == s[1..][i - 1];
      1 + DigitRun(s[1..])
  }

  datatype Tail = Tail(host: string, digits: string, fragment: string)

  /** Digits, then the end or "#" and a rest without line breaks. A missing
      fragment and an empty one are alike to the caller. */
  function MatchPort(d: string): (r: Option<(string, string)>)
    ensures r.Some? ==> Decimal.AllDigits(r.value.0)
  {
    var n := DigitRun(d);
    if n == 0 then None
    else if n == |d| then Some((d[..n], ""))
    else if d[n] == '#' && '\n' !in d[n + 1..] && '\r' !in d[n + 1..] then Some((d[..n], d[n + 1..]))
    else None
  }

  /** The host, up to the first colon, and what follows it. */
  function MatchTail(s: string): (r: Option<Tail>)
    ensures r.Some? ==> Decimal.AllDigits(r.value.digits)
  {
    var i := IndexOf(s, ':');
    if i < 0 || !IsHost(s[..i]) then None
    else
      match MatchPort(s[i + 1..])
      case None => None
      case Some(p) => Some(Tail(s[..i], p.0, p.1))
  }

  /** user or user ":" password, before the "@". */
  function MatchUser(s: string): Option<(string, string)> {
    var i := IndexOf(s, ':');
    var user := if i < 0 then s else s[..i];
    var pass := if i < 0 then "" else s[i + 1..];
    if user == "" || !NoSpace(user) || !NoSpace(pass) then None else Some((user, pass))
  }

  datatype Match = Match(scheme: string, user: string, pass: string, tail: Tail)

  /** What follows "scheme://". Neither part of the userinfo may hold "@", so it
      can only end at the first one; if that does not match, it is tried without. */
  function MatchRest(scheme: string, r: string): (m: Option<Match>)
    ensures m.Some? ==> Decimal.AllDigits(m.value.tail.digits)
  {
    var k := IndexOf(r, '@');
    if k >= 0 && MatchUser(r[..k]).Some? && MatchTail(r[k + 1..]).Some? then
      var u := MatchUser(r[..k]).value;
      Some(Match(scheme, u.0, u.1, MatchTail(r[k + 1..]).value))
    else
      match MatchTail(r)
      case None => None
      case Some(t) => Some(Match(scheme, "", "", t))
  }

  /** The line pattern. */
  function MatchLine(s: string): (m: Option<Match>)
    ensures m.Some? ==> Decimal.AllDigits(m.value.tail.digits)
  {
    var i := IndexOf(s, ':');
    if i < 0 || !IsScheme(s[..i]) || |s| < i + 3 || s[i + 1] != '/' || s[i + 2] != '/' then None
    else MatchRest(s[..i], s[i + 3..])
  }

  // ----- one line ----------------------------------------------------------------------------

  function TrimLeft(s: string): string {
    if s != "" && IsSpace(s[0]) then TrimLeft(s[1..]) else s
  }

  function TrimRight(s: string): string {
    if s != "" && IsSpace(s[|s| - 1]) then TrimRight(s[..|s| - 1]) else s
  }

  function ToLower(s: string): string {
    if s == "" then ""
    else [if 'A' <= s[0] <= 'Z' then (s[0] as int + 32) as char else s[0]] + ToLower(s[1..])
  }

  function ChromeScheme(rawScheme: string): string {
    var s := ToLower(rawScheme);
    if s == "socks" || s == "socks5" then "socks5"
    else if s == "socks4" then "socks4"
    else if s == "https" then "https"
    else "http"
  }

  function FirstNonEmpty(a: string, b: string, c: string): string {
    if a != "" then a else if b != "" then b else c
  }

  function ParseLine(line: string): Option<Proxy> {
    var t := TrimRight(TrimLeft(line));
    if t == "" || t[0] == '#' || "//" <= t then None
    else
      match MatchLine(t)
      case None => None
      case Some(m) =>
        var port := Decimal.Value(m.tail.digits);
        if port < 1 || port > 65535 then None
        else
          var username := Percent.SafeDecode(m.user);
          Some(Proxy(t, ToLower(m.scheme), ChromeScheme(m.scheme), m.tail.host, port,
                     username, Percent.SafeDecode(m.pass),
                     FirstNonEmpty(Percent.SafeDecode(m.tail.fragment), username,
                                   m.tail.host + ":" + Decimal.Itoa(port))))
  }

  // ----- the whole body -------------------------------------------------------------------------

  /** Splitting at LF or CR LF. */
  function SplitLines(text: string): (r: seq<string>)
    ensures |r| >= 1
    decreases |text|
  {
    var i := IndexOf(text, '\n');
    if i < 0 then [text]
    else
      var line := if i > 0 && text[i - 1] == '\r' then text[..i - 1] else text[..i];
      [line] + SplitLines(text[i + 1..])
  }

  /** The identity a selection is remembered by. */
  function Id(p: Proxy): string {
    p.scheme + "://" + p.username + "@" + p.host + ":" + Decimal.Itoa(p.port)
  }

  function Ids(ps: seq<Proxy>): set<string> {
    set p | p in ps :: Id(p)
  }

  /** The records of the lines: malformed ones are skipped, and so is every
      record whose identity came before. */
  function Records(lines: seq<string>): seq<Proxy> {
    if lines == [] then []
    else
      var before := Records(lines[..|lines| - 1]);
      match ParseLine(lines[|lines| - 1])
      case None => before
      case Some(p) => if Id(p) in Ids(before) then before else before + [p]
  }

  method ParseSubscription(text: string) returns (out: seq<Proxy>)
    ensures out == Records(SplitLines(text))
    ensures forall i, j :: 0 <= i < j < |out| ==> Id(out[i]) != Id(out[j])
  {
    out := [];
    var seen: set<string> := {};
    var lines := SplitLines(text);
    for k := 0 to |lines|
      invariant out == Records(lines[..k])
      invariant seen == Ids(out)
      invariant forall i, j :: 0 <= i < j < |out| ==> Id(out[i]) != Id(out[j])
    {
      assert lines[..k + 1][..k] == lines[..k];
      var proxy := ParseLine(lines[k]);
      if proxy.None? {
        continue;
      }
      var id := Id(proxy.value);
      if id in seen {
        continue;
      }
      IdsSnoc(out, proxy.value);
      seen := seen + {id};
      out := out + [proxy.value];
    }
    assert lines[..|lines|] == lines;
  }

  lemma IdsSnoc(ps: seq<Proxy>, p: Proxy)
    ensures Ids(ps + [p]) == Ids(ps) + {Id(p)}
  {
    forall id ensures id in Ids(ps + [p]) <==> id in Ids(ps) + {Id(p)} {
      if id in Ids(ps) {
        var q :| q in ps && Id(q) == id;
        assert q in ps + [p];
      }
      assert p in ps + [p];
    }
  }
}
