/** The extension reads back what the daemon prints. */
module SubscriptionLaws {
  import opened Prelude
  import opened Text
  import opened Subscription
  import opened SubscriptionParser
  import Decimal
  import Percent
  import Routing
  import RoutingLaws

  // ----- what escaping keeps out ------------------------------------------------------

  predicate Clean(c: char, mode: Percent.Mode) {
    !IsSpace(c) && (mode.UserPassword? ==> c !in ":@")
  }

  lemma {:induction false} EscapeIsClean(s: string, mode: Percent.Mode)
    ensures forall i :: 0 <= i < |Percent.Escape(s, mode)| ==> Clean(Percent.Escape(s, mode)[i], mode)
    ensures s != "" ==> Percent.Escape(s, mode) != ""
  {
    if s != "" {
      EscapeIsClean(s[1..], mode);
      CharIsClean(s[0], mode);
    }
  }

  lemma CharIsClean(c: char, mode: Percent.Mode)
    ensures forall i :: 0 <= i < |Percent.EscapeChar(c, mode)| ==> Clean(Percent.EscapeChar(c, mode)[i], mode)
    ensures Percent.EscapeChar(c, mode) != ""
  {
    HexIsClean((c as int / 16) % 16);
    HexIsClean(c as int % 16);
  }

  lemma HexIsClean(n: nat)
    requires n < 16
    ensures Percent.HexDigit(n) !in ":@" && !IsSpace(Percent.HexDigit(n))
  {
  }

  /** A host the line pattern takes and the printer writes as it is. */
  predicate Unescaped(host: string) {
    IsHost(host) && forall i :: 0 <= i < |host| ==> !Percent.ShouldEscape(host[i], Percent.Host)
  }

  lemma {:induction false} UnescapedIsKept(s: string, mode: Percent.Mode)
    requires forall i :: 0 <= i < |s| ==> !Percent.ShouldEscape(s[i], mode)
    ensures Percent.Escape(s, mode) == s
  {
    if s != "" {
      UnescapedIsKept(s[1..], mode);
      assert s == [s[0]] + s[1..];
    }
  }

  lemma AuthorityIsKept(host: string, port: nat)
    requires Unescaped(host)
    ensures Percent.Escape(JoinHostPort(host, Decimal.Itoa(port)), Percent.Host) == host + ":" + Decimal.Itoa(port)
  {
    var digits := Decimal.Itoa(port);
    var s := host + ":" + digits;
    forall i | 0 <= i < |s| ensures !Percent.ShouldEscape(s[i], Percent.Host) {
      if i > |host| {
        assert Decimal.IsDigit(digits[i - |host| - 1]);
      }
    }
    UnescapedIsKept(s, Percent.Host);
  }

  // ----- one line --------------------------------------------------------------------------

  lemma {:induction false} DigitRunStops(digits: string, rest: string)
    requires Decimal.AllDigits(digits) && (rest != "" ==> !Decimal.IsDigit(rest[0]))
    ensures DigitRun(digits + rest) == |digits|
  {
    if digits == "" {
      assert digits + rest == rest;
    } else {
      DigitRunStops(digits[1..], rest);
      assert (digits + rest)[1..] == digits[1..] + rest;
    }
  }

  lemma PortMatches(digits: string, fragment: string)
    requires digits != "" && Decimal.AllDigits(digits) && NoSpace(fragment)
    ensures MatchPort(digits + "#" + fragment) == Some((digits, fragment))
  {
    var d := digits + "#" + fragment;
    assert d == digits + ("#" + fragment);
    DigitRunStops(digits, "#" + fragment);
    assert d[..|digits|] == digits && d[|digits| + 1..] == fragment;
  }

  lemma TailMatches(host: string, digits: string, fragment: string)
    requires IsHost(host) && digits != "" && Decimal.AllDigits(digits) && NoSpace(fragment)
    ensures MatchTail(host + ":" + (digits + "#" + fragment)) == Some(Tail(host, digits, fragment))
  {
    var d := digits + "#" + fragment;
    var s := host + [':'] + d;
    IndexOfJoined(host, ':', d);
    assert s[..|host|] == host && s[|host| + 1..] == d;
    PortMatches(digits, fragment);
  }

  lemma UserMatches(user: string, pass: string)
    requires user != "" && ':' !in user && NoSpace(user) && NoSpace(pass)
    ensures MatchUser(user + ":" + pass) == Some((user, pass))
  {
    IndexOfJoined(user, ':', pass);
    var s := user + [':'] + pass;
    assert s[..|user|] == user && s[|user| + 1..] == pass;
  }

  lemma RestMatches(scheme: string, user: string, pass: string, tail: string)
    requires user != "" && ':' !in user && '@' !in user + pass && NoSpace(user) && NoSpace(pass)
    requires MatchTail(tail).Some?
    ensures MatchRest(scheme, user + ":" + pass + "@" + tail) == Some(Match(scheme, user, pass, MatchTail(tail).value))
  {
    var ui := user + ":" + pass;
    var r := ui + ['@'] + tail;
    assert '@' !in ui;
    IndexOfJoined(ui, '@', tail);
    assert r[..|ui|] == ui && r[|ui| + 1..] == tail;
    UserMatches(user, pass);
  }

  lemma SchemeMatches(scheme: string, r: string)
    requires IsScheme(scheme)
    ensures MatchLine(scheme + "://" + r) == MatchRest(scheme, r)
  {
    SchemeHasNoColon(scheme);
    IndexOfJoined(scheme, ':', "//" + r);
    var s := scheme + "://" + r;
    assert s == scheme + [':'] + ("//" + r);
    assert s[..|scheme|] == scheme && s[|scheme| + 3..] == r;
  }

  lemma SchemeHasNoColon(scheme: string)
    requires IsScheme(scheme)
    ensures ':' !in scheme
  {
  }

  function Tailed(host: string, port: nat, fragment: string): string {
    host + ":" + (Decimal.Itoa(port) + "#" + fragment)
  }

  /** A line by its parts. */
  lemma LineByParts(scheme: string, name: string, password: string, host: string, port: nat)
    requires name != "" && Unescaped(host)
    ensures Line(scheme, name, password, JoinHostPort(host, Decimal.Itoa(port)))
         == scheme + "://" + (Percent.Escape(name, Percent.UserPassword) + ":" + Percent.Escape(password, Percent.UserPassword)
                              + "@" + Tailed(host, port, Percent.Escape(name, Percent.Fragment)))
  {
    AuthorityIsKept(host, port);
    Regrouped(scheme, Percent.Escape(name, Percent.UserPassword), Percent.Escape(password, Percent.UserPassword),
              host, Decimal.Itoa(port), Percent.Escape(name, Percent.Fragment));
  }

  lemma Regrouped(scheme: string, u: string, p: string, host: string, digits: string, f: string)
    ensures scheme + "://" + (u + ":" + p) + "@" + (host + ":" + digits) + ("#" + f)
         == scheme + "://" + (u + ":" + p + "@" + (host + ":" + (digits + "#" + f)))
  {
    assert host + ":" + digits + ("#" + f) == host + ":" + (digits + "#" + f);
    Assoc(scheme + "://", u + ":" + p, "@", host + ":" + digits, "#" + f);
  }

  lemma Assoc(a: string, b: string, c: string, d: string, e: string)
    ensures a + b + c + d + e == a + (b + c + (d + e))
  {
  }

  lemma NoSpaceJoins(a: string, b: string)
    requires NoSpace(a) && NoSpace(b)
    ensures NoSpace(a + b)
  {
  }

  lemma CleanHasNoSpace(s: string, mode: Percent.Mode)
    ensures NoSpace(Percent.Escape(s, mode))
    ensures mode.UserPassword? ==> ':' !in Percent.Escape(s, mode) && '@' !in Percent.Escape(s, mode)
  {
    EscapeIsClean(s, mode);
  }

  lemma LineHasNoSpace(scheme: string, name: string, password: string, host: string, port: nat)
    requires name != "" && Unescaped(host) && NoSpace(scheme)
    ensures NoSpace(Line(scheme, name, password, JoinHostPort(host, Decimal.Itoa(port))))
  {
    LineByParts(scheme, name, password, host, port);
    CleanHasNoSpace(name, Percent.UserPassword);
    CleanHasNoSpace(password, Percent.UserPassword);
    CleanHasNoSpace(name, Percent.Fragment);
    var u, p, f := Percent.Escape(name, Percent.UserPassword), Percent.Escape(password, Percent.UserPassword),
                   Percent.Escape(name, Percent.Fragment);
    NoSpaceJoins(scheme, "://");
    NoSpaceJoins(u, ":");
    NoSpaceJoins(u + ":", p);
    NoSpaceJoins(u + ":" + p, "@");
    DigitsHaveNoSpace(Decimal.Itoa(port));
    NoSpaceJoins(host, ":");
    NoSpaceJoins(Decimal.Itoa(port), "#");
    NoSpaceJoins(Decimal.Itoa(port) + "#", f);
    NoSpaceJoins(host + ":", Decimal.Itoa(port) + "#" + f);
    NoSpaceJoins(u + ":" + p + "@", Tailed(host, port, f));
    NoSpaceJoins(scheme + "://", u + ":" + p + "@" + Tailed(host, port, f));
  }

  lemma DigitsHaveNoSpace(digits: string)
    requires Decimal.AllDigits(digits)
    ensures NoSpace(digits)
  {
    forall i | 0 <= i < |digits| ensures !IsSpace(digits[i]) {
      assert Decimal.IsDigit(digits[i]);
    }
  }

  lemma NothingToTrim(s: string)
    requires NoSpace(s)
    ensures TrimRight(TrimLeft(s)) == s
  {
  }

  /** The record a printed line gives, whatever bytes the name and password are. */
  function Printed(scheme: string, name: string, password: string, host: string, port: nat): Proxy {
    var username := Percent.SafeDecode(Percent.Escape(name, Percent.UserPassword));
    Proxy(Line(scheme, name, password, JoinHostPort(host, Decimal.Itoa(port))),
          scheme, ChromeScheme(scheme), host, port,
          username,
          Percent.SafeDecode(Percent.Escape(password, Percent.UserPassword)),
          FirstNonEmpty(Percent.SafeDecode(Percent.Escape(name, Percent.Fragment)), username,
                        host + ":" + Decimal.Itoa(port)))
  }

  lemma LineIsMatched(scheme: string, name: string, password: string, host: string, port: nat)
    requires name != "" && Unescaped(host) && IsScheme(scheme)
    ensures MatchLine(Line(scheme, name, password, JoinHostPort(host, Decimal.Itoa(port))))
         == Some(Match(scheme, Percent.Escape(name, Percent.UserPassword), Percent.Escape(password, Percent.UserPassword),
                       Tail(host, Decimal.Itoa(port), Percent.Escape(name, Percent.Fragment))))
  {
    LineByParts(scheme, name, password, host, port);
    CleanHasNoSpace(name, Percent.UserPassword);
    CleanHasNoSpace(password, Percent.UserPassword);
    CleanHasNoSpace(name, Percent.Fragment);
    EscapeIsClean(name, Percent.UserPassword);
    var u, p, f := Percent.Escape(name, Percent.UserPassword), Percent.Escape(password, Percent.UserPassword),
                   Percent.Escape(name, Percent.Fragment);
    TailMatches(host, Decimal.Itoa(port), f);
    RestMatches(scheme, u, p, Tailed(host, port, f));
    SchemeMatches(scheme, u + ":" + p + "@" + Tailed(host, port, f));
  }

  lemma LineParses(asHttp: bool, name: string, password: string, host: string, port: nat)
    requires name != "" && Unescaped(host) && 1 <= port <= 65535
    ensures ParseLine(Line(Scheme(asHttp), name, password, JoinHostPort(host, Decimal.Itoa(port))))
         == Some(Printed(Scheme(asHttp), name, password, host, port))
  {
    var scheme := Scheme(asHttp);
    SchemesAreLower(asHttp);
    var line := Line(scheme, name, password, JoinHostPort(host, Decimal.Itoa(port)));
    LineHasNoSpace(scheme, name, password, host, port);
    NothingToTrim(line);
    assert line[0] == scheme[0];
    LineIsMatched(scheme, name, password, host, port);
    Decimal.ItoaValue(port);
  }

  lemma HttpIsLower()
    ensures ToLower("http") == "http"
  {
    assert ToLower("ttp") == "ttp" by {
      assert ToLower("p") == "p";
    }
  }

  lemma SocksIsLower()
    ensures ToLower("socks") == "socks"
  {
    assert ToLower("cks") == "cks";
    assert ToLower("ocks") == "ocks";
  }

  lemma SchemesAreLower(asHttp: bool)
    ensures var s := Scheme(asHttp); IsScheme(s) && NoSpace(s) && ToLower(s) == s
  {
    hide ToLower;
    HttpIsLower();
    SocksIsLower();
  }

  /** A username is recovered exactly when the display name is UTF-8; otherwise
      the extension keeps the escaped form. */
  lemma UsernameRecoveredExactlyOnUtf8(asHttp: bool, name: string, password: string, host: string, port: nat)
    requires name != "" && Percent.IsBytes(name) && Unescaped(host) && 1 <= port <= 65535
    ensures var p := ParseLine(Line(Scheme(asHttp), name, password, JoinHostPort(host, Decimal.Itoa(port))));
            p.Some? && (p.value.username == name <==> Percent.ValidUtf8(name))
  {
    LineParses(asHttp, name, password, host, port);
    Percent.SurvivesExactlyUtf8(name, Percent.UserPassword);
  }

  // ----- the whole body ---------------------------------------------------------------------

  predicate OneLine(s: string) {
    '\n' !in s && '\r' !in s
  }

  lemma NoSpaceIsOneLine(s: string)
    requires NoSpace(s)
    ensures OneLine(s)
  {
  }

  predicate AllOneLine(lines: seq<string>) {
    forall i :: 0 <= i < |lines| ==> OneLine(lines[i])
  }

  lemma {:induction false} SplitTerminated(lines: seq<string>)
    requires AllOneLine(lines)
    ensures SplitLines(Terminated(lines)) == lines + [""]
  {
    if lines == [] {
      SplitEmpty();
    } else {
      var first, rest := lines[0], lines[1..];
      SplitTerminated(rest);
      SplitFirst(first, Terminated(rest));
      assert lines + [""] == [first] + (rest + [""]);
    }
  }

  lemma SplitEmpty()
    ensures SplitLines("") == [""]
  {
  }

  lemma SplitFirst(line: string, rest: string)
    requires OneLine(line)
    ensures SplitLines(line + "\n" + rest) == [line] + SplitLines(rest)
  {
    var text := line + "\n" + rest;
    assert text == line + ['\n'] + rest;
    IndexOfJoined(line, '\n', rest);
    assert text[..|line|] == line && text[|line| + 1..] == rest;
    assert |line| > 0 ==> text[|line| - 1] == line[|line| - 1];
  }

  ghost predicate DistinctIds(ps: seq<Proxy>) {
    forall i, j :: 0 <= i < j < |ps| ==> Id(ps[i]) != Id(ps[j])
  }

  /** Lines that parse to records of distinct identity are all kept, in order. */
  lemma {:induction false} NothingIsLost(lines: seq<string>, ps: seq<Proxy>)
    requires |lines| == |ps| && DistinctIds(ps)
    requires forall i :: 0 <= i < |lines| ==> ParseLine(lines[i]) == Some(ps[i])
    ensures Records(lines) == ps
  {
    if lines != [] {
      var n := |lines| - 1;
      NothingIsLost(lines[..n], ps[..n]);
      assert ps == ps[..n] + [ps[n]];
      LastIdIsNew(ps, n);
    }
  }

  lemma LastIdIsNew(ps: seq<Proxy>, n: nat)
    requires n < |ps| && DistinctIds(ps)
    ensures Id(ps[n]) !in Ids(ps[..n])
  {
    forall q | q in ps[..n] ensures Id(q) != Id(ps[n]) {
      var i :| 0 <= i < n && ps[..n][i] == q;
      assert ps[i] == q;
    }
  }

  lemma IdsDiffer(p: Proxy, q: Proxy)
    requires p.scheme == q.scheme && p.host == q.host && p.port == q.port && p.username != q.username
    ensures Id(p) != Id(q)
  {
    var front, back := p.scheme + "://", "@" + p.host + ":" + Decimal.Itoa(p.port);
    assert Id(p) == front + p.username + back && Id(q) == front + q.username + back;
    if Id(p) == Id(q) {
      Cancel(front, p.username, q.username, back);
    }
  }

  lemma Cancel(front: string, a: string, b: string, back: string)
    requires front + a + back == front + b + back
    ensures a == b
  {
    var s := front + a + back;
    assert |a| == |b|;
    assert a == s[|front|..|front| + |a|] == b;
  }

  /** What the extension should hold for a display name. */
  function Recovered(asHttp: bool, name: string, password: string, host: string, port: nat): Proxy {
    Proxy(Line(Scheme(asHttp), name, password, JoinHostPort(host, Decimal.Itoa(port))),
          Scheme(asHttp), if asHttp then "http" else "socks5", host, port, name, password, name)
  }

  lemma Utf8LineParses(asHttp: bool, name: string, password: string, host: string, port: nat)
    requires name != "" && Percent.IsBytes(name) && Percent.ValidUtf8(name)
    requires Percent.IsBytes(password) && Percent.ValidUtf8(password)
    requires Unescaped(host) && 1 <= port <= 65535
    ensures ParseLine(Line(Scheme(asHttp), name, password, JoinHostPort(host, Decimal.Itoa(port))))
         == Some(Recovered(asHttp, name, password, host, port))
  {
    LineParses(asHttp, name, password, host, port);
    Percent.SurvivesExactlyUtf8(name, Percent.UserPassword);
    Percent.SurvivesExactlyUtf8(name, Percent.Fragment);
    Percent.SurvivesExactlyUtf8(password, Percent.UserPassword);
    SchemesAreLower(asHttp);
  }

  // Reading a printed body.

  function Read(asHttp: bool, names: seq<string>, password: string, host: string, port: nat): seq<Proxy> {
    Records(SplitLines(Terminated(Lines(Scheme(asHttp), names, password, JoinHostPort(host, Decimal.Itoa(port))))))
  }

  function AllRecovered(asHttp: bool, names: seq<string>, password: string, host: string, port: nat): seq<Proxy> {
    seq(|names|, i requires 0 <= i < |names| => Recovered(asHttp, names[i], password, host, port))
  }

  predicate AllBytes(names: seq<string>) {
    forall i :: 0 <= i < |names| ==> names[i] != "" && Percent.IsBytes(names[i])
  }

  predicate AllUtf8(names: seq<string>) {
    forall i :: 0 <= i < |names| ==> names[i] != "" && Percent.IsBytes(names[i]) && Percent.ValidUtf8(names[i])
  }

  /** The body printed for any names is read back as one record per name, in the
      printed order, with every part recovered and none lost as a duplicate. */
  lemma BodyRoundTrips(asHttp: bool, names: seq<string>, password: string, host: string, port: nat)
    requires AllUtf8(names) && Ascending(names)
    requires Percent.IsBytes(password) && Percent.ValidUtf8(password)
    requires Unescaped(host) && 1 <= port <= 65535
    ensures Read(asHttp, names, password, host, port) == AllRecovered(asHttp, names, password, host, port)
  {
    var lines := Lines(Scheme(asHttp), names, password, JoinHostPort(host, Decimal.Itoa(port)));
    var ps := AllRecovered(asHttp, names, password, host, port);
    forall i | 0 <= i < |names| ensures ParseLine(lines[i]) == Some(ps[i]) {
      Utf8LineParses(asHttp, names[i], password, host, port);
    }
    forall i, j | 0 <= i < j < |ps| ensures Id(ps[i]) != Id(ps[j]) {
      BeforeIsTotal(names[i], names[j]);
      IdsDiffer(ps[i], ps[j]);
    }
    NothingIsLost(lines, ps);
    ReadIsLineByLine(asHttp, names, password, host, port);
  }

  /** The printed lines are the lines read. */
  lemma ReadIsLineByLine(asHttp: bool, names: seq<string>, password: string, host: string, port: nat)
    requires (forall i :: 0 <= i < |names| ==> names[i] != "") && Unescaped(host)
    ensures var lines := Lines(Scheme(asHttp), names, password, JoinHostPort(host, Decimal.Itoa(port)));
            && Read(asHttp, names, password, host, port) == Records(lines)
            && forall i :: 0 <= i < |lines| ==> NoSpace(lines[i])
  {
    var lines := Lines(Scheme(asHttp), names, password, JoinHostPort(host, Decimal.Itoa(port)));
    forall i | 0 <= i < |names| ensures NoSpace(lines[i]) && OneLine(lines[i]) {
      SchemesAreLower(asHttp);
      LineHasNoSpace(Scheme(asHttp), names[i], password, host, port);
      NoSpaceIsOneLine(lines[i]);
    }
    SplitTerminated(lines);
    BlankIsSkipped(lines);
  }

  lemma BlankIsSkipped(lines: seq<string>)
    ensures Records(lines + [""]) == Records(lines)
  {
    assert (lines + [""])[..|lines|] == lines;
  }

  lemma {:induction false} RecordsComeFromLines(lines: seq<string>, p: Proxy) returns (i: nat)
    requires p in Records(lines)
    ensures i < |lines| && ParseLine(lines[i]) == Some(p)
  {
    var n := |lines| - 1;
    if p in Records(lines[..n]) {
      i := RecordsComeFromLines(lines[..n], p);
    } else {
      i := n;
    }
  }

  /** A body is read back as one faithful record per name, in order, exactly when
      every name is UTF-8 and so is the password, unless there are no names. */
  lemma BodyRoundTripsExactlyOnUtf8(asHttp: bool, names: seq<string>, password: string, host: string, port: nat)
    requires AllBytes(names) && Ascending(names) && Percent.IsBytes(password)
    requires Unescaped(host) && 1 <= port <= 65535
    ensures Read(asHttp, names, password, host, port) == AllRecovered(asHttp, names, password, host, port)
        <==> forall i :: 0 <= i < |names| ==> Percent.ValidUtf8(names[i]) && Percent.ValidUtf8(password)
  {
    if forall i :: 0 <= i < |names| ==> Percent.ValidUtf8(names[i]) && Percent.ValidUtf8(password) {
      if names == [] {
        NoNames(asHttp, password, host, port);
      } else {
        assert Percent.ValidUtf8(names[0]);
        BodyRoundTrips(asHttp, names, password, host, port);
      }
    }
    if Read(asHttp, names, password, host, port) == AllRecovered(asHttp, names, password, host, port) {
      forall i | 0 <= i < |names| ensures Percent.ValidUtf8(names[i]) && Percent.ValidUtf8(password) {
        assert AllRecovered(asHttp, names, password, host, port)[i] in Read(asHttp, names, password, host, port);
        FaithfulIsUtf8(asHttp, names, password, host, port, i);
      }
    }
  }

  lemma NoNames(asHttp: bool, password: string, host: string, port: nat)
    requires Unescaped(host)
    ensures Read(asHttp, [], password, host, port) == []
  {
    ReadIsLineByLine(asHttp, [], password, host, port);
  }

  lemma FaithfulIsUtf8(asHttp: bool, names: seq<string>, password: string, host: string, port: nat, i: nat)
    requires AllBytes(names) && i < |names| && Unescaped(host) && 1 <= port <= 65535 && Percent.IsBytes(password)
    requires Recovered(asHttp, names[i], password, host, port) in Read(asHttp, names, password, host, port)
    ensures Percent.ValidUtf8(names[i]) && Percent.ValidUtf8(password)
  {
    var p := Recovered(asHttp, names[i], password, host, port);
    var lines := Lines(Scheme(asHttp), names, password, JoinHostPort(host, Decimal.Itoa(port)));
    ReadIsLineByLine(asHttp, names, password, host, port);
    var j := RecordsComeFromLines(lines, p);
    NothingToTrim(lines[j]);
    assert lines[j] == p.raw == lines[i];
    LineParses(asHttp, names[i], password, host, port);
    Percent.SurvivesExactlyUtf8(names[i], Percent.UserPassword);
    Percent.SurvivesExactlyUtf8(password, Percent.UserPassword);
  }

  /** Two names that come back as one text are read as one proxy. */
  lemma OneTextIsOneProxy(a: string, b: string, password: string, host: string, port: nat)
    requires a != "" && b != "" && Unescaped(host) && 1 <= port <= 65535
    requires Percent.SafeDecode(Percent.Escape(a, Percent.UserPassword))
          == Percent.SafeDecode(Percent.Escape(b, Percent.UserPassword))
    ensures |Read(true, [a, b], password, host, port)| == 1
  {
    hide Read, Percent.Escape, Percent.SafeDecode, JoinHostPort, Line, ParseLine, Records;
    var lines := Lines("http", [a, b], password, JoinHostPort(host, Decimal.Itoa(port)));
    ReadIsLineByLine(true, [a, b], password, host, port);
    LineParses(true, a, password, host, port);
    LineParses(true, b, password, host, port);
    assert lines == [lines[0], lines[1]];
    FirstOfTwo(lines[0], lines[1]);
  }

  lemma ByteAfterEscape()
    ensures Ascending(["%FF", "\U{FF}"])
  {
    assert Before("%FF", "\U{FF}");
  }

  /** Outside UTF-8 a name can even be lost: the byte FF and the text "%FF" are
      two display names that the extension takes for one proxy. */
  lemma AnUndecodableNameCanBeLost(host: string, port: nat)
    requires Unescaped(host) && 1 <= port <= 65535
    ensures var names := ["%FF", "\U{FF}"];
            Ascending(names) && |Read(true, names, "pw", host, port)| == 1
  {
    hide Unescaped, Read, Ascending, Percent.SafeDecode, Percent.Escape;
    PlainIsDecoded();
    OddIsKeptEscaped();
    ByteAfterEscape();
    OneTextIsOneProxy("%FF", "\U{FF}", "pw", host, port);
  }

  lemma PlainIsDecoded()
    ensures Percent.SafeDecode(Percent.Escape("%FF", Percent.UserPassword)) == "%FF"
  {
    Percent.AsciiIsUtf8("%FF");
    Percent.SurvivesExactlyUtf8("%FF", Percent.UserPassword);
  }

  lemma OddIsKeptEscaped()
    ensures Percent.SafeDecode(Percent.Escape("\U{FF}", Percent.UserPassword)) == "%FF"
  {
    Percent.DecodeEscape("\U{FF}", Percent.UserPassword);
    assert Percent.Escape("", Percent.UserPassword) == "";
    assert Percent.EscapeByte('\U{FF}') == "%FF";
  }

  lemma FirstOfTwo(a: string, b: string)
    requires ParseLine(a).Some? && ParseLine(b).Some? && Id(ParseLine(a).value) == Id(ParseLine(b).value)
    ensures Records([a, b]) == [ParseLine(a).value]
  {
    hide ParseLine, Id;
    assert [a, b][..1] == [a] && [a][..0] == [];
    assert Records([a]) == [ParseLine(a).value];
    assert ParseLine(a).value in [ParseLine(a).value];
  }

  // ----- the subscription and the routing index ------------------------------------------------

  /** What the extension reads from the subscription is the routable set: a name
      is listed exactly when one row alone bears it, and the credentials in its
      record reach that row, unless a local user of that name has the universal
      password as its own. */
  lemma SubscriptionIsTheRoutableSet(s: Routing.RoutingState, asHttp: bool, names: seq<string>,
                                     host: string, port: nat, name: string)
    requires Routing.Sound(s) && s.universalPwd != "" && Lists(names, s.byDisplayName.Keys)
    requires AllUtf8(names)
    requires Percent.IsBytes(s.universalPwd) && Percent.ValidUtf8(s.universalPwd)
    requires Unescaped(host) && 1 <= port <= 65535
    ensures var rs := Read(asHttp, names, s.universalPwd, host, port);
            && ((exists p :: p in rs && p.username == name) <==> Routing.RouteOf(s.upstreams, name).Some?)
            && forall p :: p in rs && p.username == name ==> Reaches(s, p)
  {
    var rs := Read(asHttp, names, s.universalPwd, host, port);
    BodyRoundTrips(asHttp, names, s.universalPwd, host, port);
    UsernamesAreTheNames(asHttp, names, s.universalPwd, host, port, name);
    assert Routing.IsIndexed(s.upstreams, s.byDisplayName, name);
    assert name in s.byDisplayName.Keys <==> name in names;
    forall p | p in rs && p.username == name ensures Reaches(s, p) {
      if !OwnPassword(s, name) {
        RoutingLaws.UniversalReachesTheIndex(s, name);
      }
    }
  }

  lemma UsernamesAreTheNames(asHttp: bool, names: seq<string>, password: string, host: string, port: nat, name: string)
    ensures var ps := AllRecovered(asHttp, names, password, host, port);
            && ((exists p :: p in ps && p.username == name) <==> name in names)
            && forall p :: p in ps ==> p.password == password
  {
    var ps := AllRecovered(asHttp, names, password, host, port);
    if name in names {
      var i :| 0 <= i < |names| && names[i] == name;
      assert ps[i] in ps && ps[i].username == name;
    }
  }

  predicate OwnPassword(s: Routing.RoutingState, name: string) {
    name in s.users && s.users[name].password == s.universalPwd
  }

  predicate Reaches(s: Routing.RoutingState, p: Proxy) {
    OwnPassword(s, p.username) ||
    (var a := Routing.Acquire(Some(s), p.username, p.password);
     a.Accepted? && Routing.Bearers(s.upstreams, p.username) == {a.upstream.id})
  }
}
