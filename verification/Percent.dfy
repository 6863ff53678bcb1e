/** Percent-encoding (section 2.1 of RFC 3986) as Go's net/url writes it and as
    decodeURIComponent reads it back, over UTF-8 (RFC 3629). Text is held as its
    bytes on either side. */
module Percent {
  import opened Prelude

  // ----- the writer ---------------------------------------------------------------

  datatype Mode = UserPassword | Fragment | Host

  predicate IsAlnum(c: char) {
    'a' <= c <= 'z' || 'A' <= c <= 'Z' || '0' <= c <= '9'
  }

  /** url.shouldEscape for the three components a subscription line has. */
  predicate ShouldEscape(c: char, mode: Mode) {
    if IsAlnum(c) then false
    else if mode.Host? && c in "!$&'()*+,;=:[]<>\"" then false
    else if c in "-_.~" then false
    else if c in "$&+,/:;=?@" && mode.UserPassword? then c in "@/?:"
    else if c in "$&+,/:;=?@" && mode.Fragment? then false
    else !(mode.Fragment? && c in "!()*")
  }

  function HexDigit(n: nat): char
    requires n < 16
  {
    "0123456789ABCDEF"[n]
  }

  function EscapeByte(c: char): string {
    ['%', HexDigit((c as int / 16) % 16), HexDigit(c as int % 16)]
  }

  function EscapeChar(c: char, mode: Mode): string {
    if ShouldEscape(c, mode) then EscapeByte(c) else [c]
  }

  function Escape(s: string, mode: Mode): string {
    if s == "" then "" else EscapeChar(s[0], mode) + Escape(s[1..], mode)
  }

  // ----- UTF-8 -------------------------------------------------------------------------

  predicate Between(c: char, lo: nat, hi: nat) {
    lo <= c as int <= hi
  }

  /** The sequence length a leading byte announces, 0 for one that cannot lead. */
  function Lead(c: char): nat {
    if Between(c, 0, 0x7F) then 1
    else if Between(c, 0xC0, 0xDF) then 2
    else if Between(c, 0xE0, 0xEF) then 3
    else if Between(c, 0xF0, 0xF7) then 4
    else 0
  }

  /** The second byte's range excludes overlong forms, surrogates and code points
      beyond 10FFFF. */
  predicate SecondOk(c: char, d: char) {
    Between(d,
      if c as int == 0xE0 then 0xA0 else if c as int == 0xF0 then 0x90 else 0x80,
      if c as int == 0xED then 0x9F else if c as int == 0xF4 then 0x8F else 0xBF)
  }

  predicate IsTail(c: char) {
    Between(c, 0x80, 0xBF)
  }

  /** One well-formed sequence. */
  predicate IsCharacter(s: string) {
    && s != "" && |s| == Lead(s[0])
    && (|s| >= 2 ==> Between(s[0], 0xC2, 0xF4) && SecondOk(s[0], s[1]))
    && (|s| >= 3 ==> IsTail(s[2]))
    && (|s| >= 4 ==> IsTail(s[3]))
  }

  predicate ValidUtf8(s: string) {
    s == "" ||
    (var n := Lead(s[0]); 1 <= n <= |s| && IsCharacter(s[..n]) && ValidUtf8(s[n..]))
  }

  // ----- the reader ----------------------------------------------------------------------

  predicate IsHex(c: char) {
    '0' <= c <= '9' || 'a' <= c <= 'f' || 'A' <= c <= 'F'
  }

  function HexValue(c: char): (n: nat)
    requires IsHex(c)
    ensures n < 16
  {
    if c <= '9' then c as int - '0' as int
    else if c <= 'F' then c as int - 'A' as int + 10
    else c as int - 'a' as int + 10
  }

  /** The byte an escape at the front denotes. */
  function Octet(s: string): Option<char> {
    if |s| >= 3 && s[0] == '%' && IsHex(s[1]) && IsHex(s[2])
    then Some((16 * HexValue(s[1]) + HexValue(s[2])) as char)
    else None
  }

  /** The bytes n successive escapes denote. */
  function Octets(s: string, n: nat): (r: Option<string>)
    ensures r.Some? ==> |r.value| == n && 3 * n <= |s|
  {
    if n == 0 then Some("")
    else
      match Octet(s)
      case None => None
      case Some(c) =>
        match Octets(s[3..], n - 1)
        case None => None
        case Some(cs) => Some([c] + cs)
  }

  /** decodeURIComponent; None is the error it throws. */
  function Decode(s: string): Option<string>
    decreases |s|
  {
    if s == "" then Some("")
    else if s[0] != '%' then Prepend([s[0]], Decode(s[1..]))
    else
      match Octet(s)
      case None => None
      case Some(c) =>
        var n := Lead(c);
        if n == 0 then None
        else
          match Octets(s, n)
          case None => None
          case Some(cs) => if IsCharacter(cs) then Prepend(cs, Decode(s[3 * n..])) else None
  }

  function Prepend(s: string, r: Option<string>): Option<string> {
    match r
    case None => None
    case Some(t) => Some(s + t)
  }

  /** An undecodable component is kept as it stands. */
  function SafeDecode(s: string): string {
    match Decode(s)
    case None => s
    case Some(t) => t
  }

  // ----- reading inverts writing, exactly on UTF-8 -------------------------------------------

  predicate IsBytes(s: string) {
    forall i :: 0 <= i < |s| ==> s[i] as int < 256
  }

  lemma OctetOfByte(c: char, rest: string)
    requires c as int < 256
    ensures |EscapeByte(c)| == 3 && Octet(EscapeByte(c) + rest) == Some(c)
  {
    var hi, lo := c as int / 16, c as int % 16;
    HexInverts(hi);
    HexInverts(lo);
    var s := EscapeByte(c) + rest;
    assert s[1] == HexDigit(hi) && s[2] == HexDigit(lo);
  }

  lemma HexInverts(n: nat)
    requires n < 16
    ensures IsHex(HexDigit(n)) && HexValue(HexDigit(n)) == n
  {
  }

  lemma OctetsStep(e: string, rest: string, c: char, n: nat)
    requires |e| == 3 && Octet(e + rest) == Some(c) && n > 0
    ensures Octets(e + rest, n) == Prepend([c], Octets(rest, n - 1))
    ensures 3 * (n - 1) <= |rest| ==> (e + rest)[3 * n..] == rest[3 * (n - 1)..]
  {
    assert (e + rest)[3..] == rest;
  }

  predicate AllEscaped(s: string, mode: Mode, n: nat) {
    n <= |s| && forall i :: 0 <= i < n ==> ShouldEscape(s[i], mode)
  }

  lemma AllEscapedStep(s: string, mode: Mode, n: nat)
    requires s != "" && n > 0
    ensures AllEscaped(s, mode, n) <==> ShouldEscape(s[0], mode) && AllEscaped(s[1..], mode, n - 1)
    ensures n <= |s| ==> s[..n] == [s[0]] + s[1..][..n - 1] && s[n..] == s[1..][n - 1..]
  {
    if AllEscaped(s[1..], mode, n - 1) && ShouldEscape(s[0], mode) {
      forall i | 0 <= i < n ensures ShouldEscape(s[i], mode) {
        assert i > 0 ==> s[i] == s[1..][i - 1];
      }
    }
  }

  /** Reading n escapes off an escaped text reads n of its characters, all of
      which were escaped. */
  lemma {:induction false} OctetsOfEscape(s: string, mode: Mode, n: nat)
    requires IsBytes(s)
    ensures var r := Octets(Escape(s, mode), n);
            && (r.Some? <==> AllEscaped(s, mode, n))
            && (r.Some? ==> r.value == s[..n] && Escape(s, mode)[3 * n..] == Escape(s[n..], mode))
  {
    hide ShouldEscape, EscapeByte, Octet;
    if n == 0 || s == "" {
    } else {
      AllEscapedStep(s, mode, n);
      if ShouldEscape(s[0], mode) {
        var e, rest := EscapeByte(s[0]), Escape(s[1..], mode);
        OctetOfByte(s[0], rest);
        OctetsStep(e, rest, s[0], n);
        OctetsOfEscape(s[1..], mode, n - 1);
      } else {
        PlainIsNotPercent(s[0], mode);
        NoOctetAhead(Escape(s, mode));
      }
    }
  }

  lemma NoOctetAhead(t: string)
    requires t != "" ==> t[0] != '%'
    ensures Octet(t).None?
  {
  }

  lemma PlainIsNotPercent(c: char, mode: Mode)
    requires !ShouldEscape(c, mode)
    ensures c != '%' && c as int < 0x80
  {
  }

  lemma HighIsEscaped(c: char, mode: Mode)
    requires c as int >= 0x80
    ensures ShouldEscape(c, mode)
  {
  }

  /** One turn of the reader at an escape. */
  lemma DecodeStep(t: string, c: char)
    requires Octet(t) == Some(c)
    ensures Decode(t) == if Lead(c) == 0 || Octets(t, Lead(c)).None? || !IsCharacter(Octets(t, Lead(c)).value) then None
                         else Prepend(Octets(t, Lead(c)).value, Decode(t[3 * Lead(c)..]))
  {
  }

  lemma PlainDecodes(s: string, mode: Mode)
    requires s != "" && !ShouldEscape(s[0], mode)
    ensures Decode(Escape(s, mode)) == Prepend([s[0]], Decode(Escape(s[1..], mode)))
  {
    hide ShouldEscape, IsCharacter, Octet, Octets;
    PlainIsNotPercent(s[0], mode);
    assert Escape(s, mode)[1..] == Escape(s[1..], mode);
  }

  lemma EscapedDecodes(s: string, mode: Mode)
    requires IsBytes(s) && s != "" && ShouldEscape(s[0], mode)
    ensures var n := Lead(s[0]);
            Decode(Escape(s, mode)) == if 1 <= n <= |s| && IsCharacter(s[..n])
                                       then Prepend(s[..n], Decode(Escape(s[n..], mode))) else None
  {
    hide ShouldEscape, IsCharacter, EscapeByte, Decode, Octet, Octets, Lead;
    var n := Lead(s[0]);
    OctetOfByte(s[0], Escape(s[1..], mode));
    DecodeStep(Escape(s, mode), s[0]);
    OctetsOfEscape(s, mode, n);
    if 1 <= n <= |s| && IsCharacter(s[..n]) {
      CharacterIsEscaped(s, mode, n);
    }
  }

  /** Decoding an escaped text succeeds exactly when the text is UTF-8, and then
      returns it. */
  lemma {:induction false} DecodeEscape(s: string, mode: Mode)
    requires IsBytes(s)
    ensures Decode(Escape(s, mode)) == if ValidUtf8(s) then Some(s) else None
    decreases |s|
  {
    hide ShouldEscape, IsCharacter, Lead, Decode, Escape, ValidUtf8;
    if s == "" {
      NothingDecodes(mode);
    } else if !ShouldEscape(s[0], mode) {
      PlainIsNotPercent(s[0], mode);
      PlainDecodes(s, mode);
      DecodeEscape(s[1..], mode);
      PlainStep(s);
    } else {
      EscapedDecodes(s, mode);
      ValidStep(s);
      var n := Lead(s[0]);
      if 1 <= n <= |s| && IsCharacter(s[..n]) {
        DecodeEscape(s[n..], mode);
        assert s == s[..n] + s[n..];
      }
    }
  }

  lemma NothingDecodes(mode: Mode)
    ensures Decode(Escape("", mode)) == Some("") && ValidUtf8("")
  {
  }

  lemma ValidStep(s: string)
    requires s != ""
    ensures var n := Lead(s[0]); ValidUtf8(s) <==> 1 <= n <= |s| && IsCharacter(s[..n]) && ValidUtf8(s[n..])
  {
  }

  /** Past ASCII every byte of a character is escaped. */
  lemma CharacterIsEscaped(s: string, mode: Mode, n: nat)
    requires n <= |s| && IsCharacter(s[..n]) && ShouldEscape(s[0], mode)
    ensures AllEscaped(s, mode, n)
  {
    forall i | 1 <= i < n ensures ShouldEscape(s[i], mode) {
      assert s[..n][i] == s[i];
      HighIsEscaped(s[i], mode);
    }
  }

  lemma PlainStep(s: string)
    requires s != "" && s[0] as int < 0x80
    ensures ValidUtf8(s) <==> ValidUtf8(s[1..])
    ensures s == [s[0]] + s[1..]
  {
  }

  predicate IsAscii(s: string) {
    forall i :: 0 <= i < |s| ==> s[i] as int < 0x80
  }

  lemma EscapeCharIsAscii(c: char, mode: Mode)
    ensures IsAscii(EscapeChar(c, mode))
  {
    hide ShouldEscape;
    if !ShouldEscape(c, mode) {
      PlainIsNotPercent(c, mode);
    }
  }

  lemma {:induction false} EscapeIsAscii(s: string, mode: Mode)
    ensures IsAscii(Escape(s, mode))
  {
    hide EscapeChar;
    if s != "" {
      EscapeCharIsAscii(s[0], mode);
      EscapeIsAscii(s[1..], mode);
    }
  }

  lemma {:induction false} AsciiIsUtf8(s: string)
    requires IsAscii(s)
    ensures ValidUtf8(s)
  {
    if s != "" {
      AsciiIsUtf8(s[1..]);
      PlainStep(s);
    }
  }

  /** Written and read back, a text survives exactly when it is UTF-8. */
  lemma SurvivesExactlyUtf8(s: string, mode: Mode)
    requires IsBytes(s)
    ensures SafeDecode(Escape(s, mode)) == s <==> ValidUtf8(s)
  {
    DecodeEscape(s, mode);
    if !ValidUtf8(s) {
      EscapeIsAscii(s, mode);
      if IsAscii(s) {
        AsciiIsUtf8(s);
      }
    }
  }
}
