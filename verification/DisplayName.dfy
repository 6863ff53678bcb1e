/** The display-name codec of internal/sync/displayname.go. */
module DisplayName {
  import opened Prelude
  import opened Text
  import opened Decimal

  const LABEL_MAX: nat := 12
  const LABEL_FALLBACK := "key"

  predicate IsUpper(c: char) {
    'A' <= c <= 'Z'
  }

  predicate IsLabelChar(c: char) {
    IsUpper(c) || 'a' <= c <= 'z' || IsDigit(c) || c == '-'
  }

  /** [A-Za-z0-9-]{1,12} */
  predicate IsLabel(s: string) {
    1 <= |s| <= LABEL_MAX && forall i :: 0 <= i < |s| ==> IsLabelChar(s[i])
  }

  /** [A-Z]{2} */
  predicate IsCountry(s: string) {
    |s| == 2 && IsUpper(s[0]) && IsUpper(s[1])
  }

  /** \d{2,} */
  predicate IsNumber(s: string) {
    |s| >= 2 && AllDigits(s)
  }

  // ----- sanitizeLabel ---------------------------------------------------

  function Kept(s: string): (r: string)
    ensures forall i :: 0 <= i < |r| ==> IsLabelChar(r[i])
  {
    if s == "" then ""
    else Kept(s[..|s| - 1]) + (if IsLabelChar(s[|s| - 1]) then [s[|s| - 1]] else "")
  }

  function Sanitized(tag: string): (r: string)
    ensures IsLabel(r)
  {
    var kept := Kept(tag);
    if kept == "" then LABEL_FALLBACK
    else if |kept| > LABEL_MAX then kept[..LABEL_MAX]
    else kept
  }

  method SanitizeLabel(tag: string) returns (r: string)
    ensures r == Sanitized(tag)
  {
    var out := "";
    var i := 0;
    while i < |tag|
      invariant 0 <= i <= |tag|
      invariant out == Kept(tag[..i])
    {
      assert tag[..i + 1][..i] == tag[..i];
      if IsLabelChar(tag[i]) {
        out := out + [tag[i]];
      }
      i := i + 1;
    }
    assert tag[..i] == tag;
    if |out| == 0 {
      return LABEL_FALLBACK;
    }
    if |out| > LABEL_MAX {
      out := out[..LABEL_MAX];
    }
    return out;
  }

  lemma {:induction false} KeptOfLabelChars(s: string)
    requires forall i :: 0 <= i < |s| ==> IsLabelChar(s[i])
    ensures Kept(s) == s
  {
    if s != "" {
      KeptOfLabelChars(s[..|s| - 1]);
    }
  }

  /** The sanitized labels are exactly the strings the name patterns accept as
      a label: sanitizing lands in that set and leaves its members alone. */
  lemma SanitizedLabels(tag: string)
    ensures IsLabel(Sanitized(tag))
    ensures IsLabel(tag) <==> Sanitized(tag) == tag
  {
    if IsLabel(tag) {
      KeptOfLabelChars(tag);
    }
  }

  // ----- the two name forms ----------------------------------------------

  datatype Parts = Parts(country: string, tag: string, slot: nat)

  /** name matches {label}-{CC}-{NN} with these three groups. */
  predicate MatchesCanonical(name: string, tag: string, country: string, number: string) {
    IsLabel(tag) && IsCountry(country) && IsNumber(number) &&
    name == tag + "-" + country + "-" + number
  }

  /** name matches {CC}-{label}-{NN} with these three groups. */
  predicate MatchesLegacy(name: string, country: string, tag: string, number: string) {
    IsLabel(tag) && IsCountry(country) && IsNumber(number) &&
    name == country + "-" + tag + "-" + number
  }

  function LastHyphen(s: string): int {
    LastIndexOf(s, '-')
  }

  /** The number group as an int; Atoi fails beyond 64 bits. */
  function NumberOf(number: string): Option<nat>
    requires AllDigits(number)
  {
    var v := Value(number);
    if v > MAX_INT then None else Some(v)
  }

  function ParseDisplayName(s: string): Option<Parts> {
    var k := LastHyphen(s);
    if k < 4 || s[k - 3] != '-' then None
    else
      var tag, country, number := s[..k - 3], s[k - 2..k], s[k + 1..];
      if IsLabel(tag) && IsCountry(country) && IsNumber(number) && NumberOf(number).Some?
      then Some(Parts(country, tag, NumberOf(number).value))
      else None
  }

  function ParseLegacyDisplayName(s: string): Option<Parts> {
    var k := LastHyphen(s);
    if k < 4 || s[2] != '-' then None
    else
      var country, tag, number := s[..2], s[3..k], s[k + 1..];
      if IsLabel(tag) && IsCountry(country) && IsNumber(number) && NumberOf(number).Some?
      then Some(Parts(country, tag, NumberOf(number).value))
      else None
  }

  function FormatDisplayName(country: string, tag: string, slot: nat): string {
    tag + "-" + country + "-" + Pad2(slot)
  }

  lemma LastHyphenOf(front: string, number: string)
    requires AllDigits(number)
    ensures LastHyphen(front + "-" + number) == |front|
  {
    LastIndexOfJoined(front, '-', number);
  }

  /** Whatever the hyphens inside the label, a canonical name splits in one way
      only, and that split is the one the parser returns. */
  lemma CanonicalSplitIsUnique(name: string, tag: string, country: string, number: string)
    requires MatchesCanonical(name, tag, country, number)
    ensures ParseDisplayName(name) ==
            if Value(number) <= MAX_INT then Some(Parts(country, tag, Value(number))) else None
  {
    var front := tag + "-" + country;
    LastHyphenOf(front, number);
    var k := |front|;
    assert name == front + "-" + number;
    assert name[..k - 3] == tag;
    assert name[k - 2..k] == country;
    assert name[k + 1..] == number;
    assert name[k - 3] == '-';
  }

  lemma LegacySplitIsUnique(name: string, country: string, tag: string, number: string)
    requires MatchesLegacy(name, country, tag, number)
    ensures ParseLegacyDisplayName(name) ==
            if Value(number) <= MAX_INT then Some(Parts(country, tag, Value(number))) else None
  {
    var front := country + "-" + tag;
    LastHyphenOf(front, number);
    var k := |front|;
    assert name == front + "-" + number;
    assert name[..2] == country && name[2] == '-';
    assert name[3..k] == tag;
    assert name[k + 1..] == number;
  }

  /** The parser accepts a name exactly when the pattern has a match whose
      number fits an int, and returns the groups of that match. */
  lemma ParseIsTheCanonicalPattern(name: string, p: Parts)
    ensures ParseDisplayName(name) == Some(p) <==>
            exists number :: MatchesCanonical(name, p.tag, p.country, number) &&
                             Value(number) <= MAX_INT && Value(number) == p.slot
  {
    if ParseDisplayName(name) == Some(p) {
      var k := LastHyphen(name);
      var number := name[k + 1..];
      assert name == name[..k - 3] + "-" + name[k - 2..k] + "-" + number;
      assert MatchesCanonical(name, p.tag, p.country, number);
    }
    if number :| MatchesCanonical(name, p.tag, p.country, number) &&
                 Value(number) <= MAX_INT && Value(number) == p.slot {
      CanonicalSplitIsUnique(name, p.tag, p.country, number);
    }
  }

  lemma ParseIsTheLegacyPattern(name: string, p: Parts)
    ensures ParseLegacyDisplayName(name) == Some(p) <==>
            exists number :: MatchesLegacy(name, p.country, p.tag, number) &&
                             Value(number) <= MAX_INT && Value(number) == p.slot
  {
    if ParseLegacyDisplayName(name) == Some(p) {
      var k := LastHyphen(name);
      var number := name[k + 1..];
      assert name == name[..2] + "-" + name[3..k] + "-" + number;
      assert MatchesLegacy(name, p.country, p.tag, number);
    }
    if number :| MatchesLegacy(name, p.country, p.tag, number) &&
                 Value(number) <= MAX_INT && Value(number) == p.slot {
      LegacySplitIsUnique(name, p.country, p.tag, number);
    }
  }

  /** Formatting and parsing undo each other. */
  lemma FormatThenParse(country: string, tag: string, slot: nat)
    requires IsCountry(country) && IsLabel(tag) && slot <= MAX_INT
    ensures ParseDisplayName(FormatDisplayName(country, tag, slot)) == Some(Parts(country, tag, slot))
  {
    Pad2Value(slot);
    CanonicalSplitIsUnique(FormatDisplayName(country, tag, slot), tag, country, Pad2(slot));
  }

  /** Formatting is injective, with no bound on the numbers: the two-letter
      country and the hyphen-free number fix where the label ends. */
  lemma FormatIsInjective(c1: string, l1: string, n1: nat, c2: string, l2: string, n2: nat)
    requires |c1| == |c2| == 2
    requires FormatDisplayName(c1, l1, n1) == FormatDisplayName(c2, l2, n2)
    ensures c1 == c2 && l1 == l2 && n1 == n2
  {
    var name := FormatDisplayName(c1, l1, n1);
    LastHyphenOf(l1 + "-" + c1, Pad2(n1));
    LastHyphenOf(l2 + "-" + c2, Pad2(n2));
    var k := LastHyphen(name);
    assert name[k + 1..] == Pad2(n1) && name[k + 1..] == Pad2(n2);
    Pad2Value(n1);
    Pad2Value(n2);
    assert name[..k - 3] == l1 && name[..k - 3] == l2;
    assert name[k - 2..k] == c1 && name[k - 2..k] == c2;
  }

  // ----- the rewrite of legacy names --------------------------------------

  /** The name an existing row has after a sync that reports this country. */
  function Rewritten(name: string, country: string, tag: string): string {
    match ParseLegacyDisplayName(name)
    case Some(p) => FormatDisplayName(country, tag, p.slot)
    case None => name
  }

  /** A formatted name that happens to look legacy still carries its number. */
  lemma LegacyViewKeepsNumber(country: string, tag: string, slot: nat)
    ensures var legacy := ParseLegacyDisplayName(FormatDisplayName(country, tag, slot));
            legacy.Some? ==> legacy.value.slot == slot
  {
    LastHyphenOf(tag + "-" + country, Pad2(slot));
    var name := FormatDisplayName(country, tag, slot);
    assert name[LastHyphen(name) + 1..] == Pad2(slot);
    Pad2Value(slot);
  }

  /** Rewriting again changes nothing, even when the rewritten name is itself
      legacy-shaped (label "AB" gives "AB-US-07"). */
  lemma RewriteIsAFixpoint(name: string, country: string, tag: string)
    ensures Rewritten(Rewritten(name, country, tag), country, tag) == Rewritten(name, country, tag)
    ensures forall n: nat :: Rewritten(FormatDisplayName(country, tag, n), country, tag)
                          == FormatDisplayName(country, tag, n)
  {
    forall n: nat
      ensures Rewritten(FormatDisplayName(country, tag, n), country, tag)
           == FormatDisplayName(country, tag, n)
    {
      LegacyViewKeepsNumber(country, tag, n);
    }
  }

  /** Such a name exists, so the fixpoint law is not vacuous. */
  lemma ARewrittenNameCanLookLegacy()
    ensures ParseLegacyDisplayName(FormatDisplayName("US", "AB", 7)) == Some(Parts("AB", "US", 7))
  {
    LegacySplitIsUnique("AB-US-07", "AB", "US", "07");
    assert Itoa(7) == "7";
    Pad2Value(7);
    assert FormatDisplayName("US", "AB", 7) == "AB-US-07";
  }
}
