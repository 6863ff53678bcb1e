/** The subscription printer (internal/api/subscription.go): one line for every
    display name in the routing snapshot, in byte order. */
module Subscription {
  import opened Prelude
  import Decimal
  import Percent
  import Routing

  // ----- one line -------------------------------------------------------------------

  /** net.JoinHostPort: hosts with colons are bracketed. */
  function JoinHostPort(host: string, port: string): string {
    if ':' in host then "[" + host + "]:" + port else host + ":" + port
  }

  /** url.URL.String for the four components the handler sets; the fragment is
      left out when empty. The handler's password never is. */
  function Line(scheme: string, name: string, password: string, authority: string): string {
    var user := Percent.Escape(name, Percent.UserPassword) + ":" + Percent.Escape(password, Percent.UserPassword);
    var fragment := if name == "" then "" else "#" + Percent.Escape(name, Percent.Fragment);
    scheme + "://" + user + "@" + Percent.Escape(authority, Percent.Host) + fragment
  }

  function Lines(scheme: string, names: seq<string>, password: string, authority: string): (r: seq<string>)
    ensures |r| == |names|
    ensures forall i :: 0 <= i < |names| ==> r[i] == Line(scheme, names[i], password, authority)
  {
    seq(|names|, i requires 0 <= i < |names| => Line(scheme, names[i], password, authority))
  }

  /** Lines, each ended by a newline. */
  function Terminated(lines: seq<string>): string {
    if lines == [] then "" else lines[0] + "\n" + Terminated(lines[1..])
  }

  lemma {:induction false} TerminatedSnoc(lines: seq<string>, line: string)
    ensures Terminated(lines + [line]) == Terminated(lines) + line + "\n"
  {
    if lines == [] {
      assert [line][1..] == [];
    } else {
      TerminatedSnoc(lines[1..], line);
      assert (lines + [line])[0] == lines[0] && (lines + [line])[1..] == lines[1..] + [line];
    }
  }

  // ----- byte order ------------------------------------------------------------------------

  /** Go's < on strings. */
  predicate Before(a: string, b: string) {
    b != "" && (a == "" || a[0] < b[0] || (a[0] == b[0] && Before(a[1..], b[1..])))
  }

  lemma {:induction false} BeforeIsTotal(a: string, b: string)
    ensures !(Before(a, b) && Before(b, a))
    ensures Before(a, b) || a == b || Before(b, a)
    ensures a == b ==> !Before(a, b)
  {
    if a != "" && b != "" && a[0] == b[0] {
      BeforeIsTotal(a[1..], b[1..]);
      assert a == [a[0]] + a[1..] && b == [b[0]] + b[1..];
    }
  }

  lemma {:induction false} BeforeIsTransitive(a: string, b: string, c: string)
    requires Before(a, b) && Before(b, c)
    ensures Before(a, c)
  {
    if a != "" && a[0] == b[0] == c[0] {
      BeforeIsTransitive(a[1..], b[1..], c[1..]);
    }
  }

  ghost predicate Ascending(names: seq<string>) {
    forall i, j :: 0 <= i < j < |names| ==> Before(names[i], names[j])
  }

  /** Every name once, in byte order. */
  ghost predicate Lists(names: seq<string>, keys: set<string>) {
    && Ascending(names)
    && forall name :: name in names <==> name in keys
  }

  /** The listing does not depend on the order the map was walked in. */
  lemma {:induction false} ListingIsUnique(a: seq<string>, b: seq<string>, keys: set<string>)
    requires Lists(a, keys) && Lists(b, keys)
    ensures a == b
  {
    EmptyListing(a, keys);
    EmptyListing(b, keys);
    if a != [] {
      SameFirst(a, b, keys);
      RestLists(a, keys);
      RestLists(b, keys);
      ListingIsUnique(a[1..], b[1..], keys - {a[0]});
      assert a == [a[0]] + a[1..] && b == [b[0]] + b[1..];
    }
  }

  lemma EmptyListing(a: seq<string>, keys: set<string>)
    requires Lists(a, keys)
    ensures a == [] <==> keys == {}
  {
    if a != [] {
      assert a[0] in keys;
    }
    if keys != {} {
      var name :| name in keys;
      assert name in a;
    }
  }

  lemma SameFirst(a: seq<string>, b: seq<string>, keys: set<string>)
    requires Lists(a, keys) && Lists(b, keys) && a != [] && b != []
    ensures a[0] == b[0]
  {
    assert a[0] in b && b[0] in a;
    BeforeIsTotal(a[0], b[0]);
  }

  lemma RestLists(a: seq<string>, keys: set<string>)
    requires Lists(a, keys) && a != []
    ensures Lists(a[1..], keys - {a[0]})
  {
    forall name ensures name in a[1..] <==> name in keys - {a[0]} {
      BeforeIsTotal(a[0], a[0]);
      if name in a[1..] {
        var i :| 0 <= i < |a[1..]| && a[1..][i] == name;
        assert name == a[i + 1];
      }
      if name in keys && name != a[0] {
        var i :| 0 <= i < |a| && a[i] == name;
        assert name == a[1..][i - 1];
      }
    }
  }

  /** sort.Strings; the library's algorithm is not modelled, only its result. */
  method SortStrings(names: seq<string>) returns (sorted: seq<string>)
    requires forall i, j :: 0 <= i < j < |names| ==> names[i] != names[j]
    ensures Ascending(sorted)
    ensures forall name :: name in sorted <==> name in names
  {
    sorted := [];
    for k := 0 to |names|
      invariant Ascending(sorted)
      invariant forall name :: name in sorted <==> name in names[..k]
    {
      sorted := Insert(sorted, names[k]);
      assert names[..k + 1] == names[..k] + [names[k]];
    }
    assert names[..|names|] == names;
  }

  method Insert(names: seq<string>, name: string) returns (r: seq<string>)
    requires Ascending(names) && name !in names
    ensures Ascending(r)
    ensures forall n :: n in r <==> n == name || n in names
  {
    var i := 0;
    while i < |names| && Before(names[i], name)
      invariant 0 <= i <= |names|
      invariant forall k :: 0 <= k < i ==> Before(names[k], name)
    {
      i := i + 1;
    }
    forall k | i <= k < |names| ensures Before(name, names[k]) {
      BeforeIsTotal(names[i], name);
      if k > i {
        BeforeIsTransitive(name, names[i], names[k]);
      }
    }
    r := names[..i] + [name] + names[i..];
    forall n ensures n in r <==> n == name || n in names {
      assert names == names[..i] + names[i..];
    }
  }

  // ----- the handler --------------------------------------------------------------------------

  datatype Response =
    | StorageFailed
    | NotFound
    | RateLimited
    | InvalidPassword
    | Listing(body: string)

  function Scheme(asHttp: bool): string {
    if asHttp then "http" else "socks"
  }

  /** The names are gathered from the index in whatever order the map yields. */
  method GatherNames(snapshot: Option<Routing.RoutingState>) returns (names: seq<string>)
    ensures forall i, j :: 0 <= i < j < |names| ==> names[i] != names[j]
    ensures forall name :: name in names <==> snapshot.Some? && name in snapshot.value.byDisplayName
  {
    names := [];
    if snapshot.None? {
      return;
    }
    var left := snapshot.value.byDisplayName.Keys;
    while left != {}
      invariant forall i, j :: 0 <= i < j < |names| ==> names[i] != names[j]
      invariant forall name :: name in snapshot.value.byDisplayName <==> name in names || name in left
      invariant forall name :: name in names ==> name !in left
      decreases |left|
    {
      var name :| name in left;
      names := names + [name];
      left := left - {name};
    }
  }

  /** host is the configured host, or the request's when that is blank; failed
      tells whether a failure is reported to the deny list. */
  method SubscriptionHandler(storageFails: bool, enabled: bool, universal: string, banned: bool, offered: string,
                             asHttp: bool, host: string, port: nat, snapshot: Option<Routing.RoutingState>)
    returns (r: Response, failed: bool, ghost names: seq<string>)
    ensures r.StorageFailed? <==> storageFails
    ensures r.NotFound? <==> !storageFails && (!enabled || universal == "")
    ensures r.RateLimited? <==> !storageFails && enabled && universal != "" && banned
    ensures r.InvalidPassword? <==> !storageFails && enabled && universal != "" && !banned && offered != universal
    ensures r.Listing? ==>
              && Lists(names, if snapshot.Some? then snapshot.value.byDisplayName.Keys else {})
              && r.body == Terminated(Lines(Scheme(asHttp), names, universal, JoinHostPort(host, Decimal.Itoa(port))))
    ensures failed <==> r.InvalidPassword?
  {
    names := [];
    if storageFails {
      return StorageFailed, false, names;
    }
    if !enabled || universal == "" {
      return NotFound, false, names;
    }
    if banned {
      return RateLimited, false, names;
    }
    if offered != universal {
      return InvalidPassword, true, names;
    }
    var authority := JoinHostPort(host, Decimal.Itoa(port));
    var all := GatherNames(snapshot);
    all := SortStrings(all);
    names := all;
    var b := WriteLines(Scheme(asHttp), all, universal, authority);
    return Listing(b), false, names;
  }

  /** The string builder's loop. */
  method WriteLines(scheme: string, names: seq<string>, universal: string, authority: string) returns (b: string)
    ensures b == Terminated(Lines(scheme, names, universal, authority))
  {
    b := "";
    ghost var lines := Lines(scheme, names, universal, authority);
    for i := 0 to |names|
      invariant b == Terminated(lines[..i])
    {
      TerminatedSnoc(lines[..i], lines[i]);
      assert lines[..i + 1] == lines[..i] + [lines[i]];
      var line := Line(scheme, names[i], universal, authority);
      b := b + line;
      b := b + "\n";
    }
    assert lines[..|names|] == lines;
  }
}
