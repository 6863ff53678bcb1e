/** The auth-failure deny-list (internal/auth/denylist.go): a trimmed sliding
    window per client IP, proved against the untrimmed history. */
module DenyList {
  import opened Prelude
  import NetAddr

  const THRESHOLD: nat := 10
  /** 60 seconds and 5 minutes in nanoseconds. */
  const WINDOW: int := 60_000_000_000
  const BAN_FOR: int := 300_000_000_000

  /** The host part of "host:port", or the text itself. */
  function HostOf(clientAddr: string): string {
    match NetAddr.SplitHostPort(clientAddr)
    case Some(hp) => hp.0
    case None => clientAddr
  }

  // ----- the program's state and its updates -----------------------------------

  datatype State = State(fails: map<string, seq<int>>, bannedAt: map<string, int>)

  function Trimmed(stamps: seq<int>, cutoff: int): seq<int> {
    if stamps != [] && stamps[0] < cutoff then Trimmed(stamps[1..], cutoff) else stamps
  }

  function StampsOf(s: State, ip: string): seq<int> {
    if ip in s.fails then s.fails[ip] else []
  }

  function AfterFailure(s: State, ip: string, now: int): (State, bool) {
    var stamps := Trimmed(StampsOf(s, ip) + [now], now - WINDOW);
    if |stamps| >= THRESHOLD then (State(s.fails - {ip}, s.bannedAt[ip := now]), true)
    else (s.(fails := s.fails[ip := stamps]), false)
  }

  function AfterQuery(s: State, ip: string, now: int): (State, bool) {
    if ip in s.bannedAt then
      if now - s.bannedAt[ip] < BAN_FOR then (s, true) else (s.(bannedAt := s.bannedAt - {ip}), false)
    else (s, false)
  }

  function AfterClear(s: State, ip: string): State {
    State(s.fails - {ip}, s.bannedAt - {ip})
  }

  function BannedNow(s: State, now: int): map<string, int> {
    map ip | ip in s.bannedAt && now - s.bannedAt[ip] < BAN_FOR :: s.bannedAt[ip]
  }

  class List {
    var fails: map<string, seq<int>>
    var bannedAt: map<string, int>

    ghost function View(): State
      reads this
    {
      State(fails, bannedAt)
    }

    constructor ()
      ensures View() == State(map[], map[])
    {
      fails, bannedAt := map[], map[];
    }

    method IsDenied(clientAddr: string, now: int) returns (denied: bool)
      modifies this
      ensures (View(), denied) == AfterQuery(old(View()), HostOf(clientAddr), now)
    {
      var ip := HostOf(clientAddr);
      if ip in bannedAt {
        if now - bannedAt[ip] < BAN_FOR {
          return true;
        }
        bannedAt := bannedAt - {ip};
      }
      return false;
    }

    method RecordFailure(clientAddr: string, now: int) returns (tripped: bool)
      modifies this
      ensures (View(), tripped) == AfterFailure(old(View()), HostOf(clientAddr), now)
    {
      var ip := HostOf(clientAddr);
      var cutoff := now - WINDOW;
      var stamps := (if ip in fails then fails[ip] else []) + [now];
      ghost var all := stamps;
      while |stamps| > 0 && stamps[0] < cutoff
        invariant Trimmed(stamps, cutoff) == Trimmed(all, cutoff)
        decreases |stamps|
      {
        stamps := stamps[1..];
      }
      fails := fails[ip := stamps];
      if |stamps| >= THRESHOLD {
        bannedAt := bannedAt[ip := now];
        fails := fails - {ip};
        assert fails == old(fails) - {ip};
        return true;
      }
      return false;
    }

    method Clear(addr: string)
      modifies this
      ensures View() == AfterClear(old(View()), HostOf(addr))
    {
      var ip := HostOf(addr);
      fails := fails - {ip};
      bannedAt := bannedAt - {ip};
    }

    method ClearAll()
      modifies this
      ensures View() == State(map[], map[])
    {
      fails, bannedAt := map[], map[];
    }

    method Banned(now: int) returns (out: map<string, int>)
      ensures out == BannedNow(View(), now)
    {
      out := map[];
      var todo := bannedAt.Keys;
      while todo != {}
        invariant todo <= bannedAt.Keys
        invariant out == map ip | ip in bannedAt && ip !in todo && now - bannedAt[ip] < BAN_FOR :: bannedAt[ip]
        decreases |todo|
      {
        var ip :| ip in todo;
        if now - bannedAt[ip] < BAN_FOR {
          out := out[ip := bannedAt[ip]];
        }
        todo := todo - {ip};
      }
    }
  }

  // ----- the history and what it says ---------------------------------------------

  datatype Event =
    | Failed(ip: string, at: int)
    | Queried(ip: string, at: int)
    | Listed(at: int)
    | Cleared(ip: string, at: int)
    | ClearedAll(at: int)

  /** How many stamps are no older than the cutoff. */
  function Recent(stamps: seq<int>, cutoff: int): nat {
    if stamps == [] then 0
    else Recent(stamps[..|stamps| - 1], cutoff) + (if stamps[|stamps| - 1] >= cutoff then 1 else 0)
  }

  /** The failure at `at`, after these earlier ones, makes ten within 60 s. */
  function Trips(earlier: seq<int>, at: int): bool {
    Recent(earlier + [at], at - WINDOW) >= THRESHOLD
  }

  /** Every failure of ip since its last trip or clear, none forgotten. */
  function FailuresSince(h: seq<Event>, ip: string): seq<int> {
    if h == [] then [] else FailuresAfter(FailuresSince(h[..|h| - 1], ip), h[|h| - 1], ip)
  }

  function FailuresAfter(before: seq<int>, e: Event, ip: string): seq<int> {
    match e
    case Failed(i, at) => if i != ip then before else if Trips(before, at) then [] else before + [at]
    case Cleared(i, _) => if i == ip then [] else before
    case ClearedAll(_) => []
    case Queried(_, _) => before
    case Listed(_) => before
  }

  /** The time of ip's latest trip that no clear followed. */
  function LatestTrip(h: seq<Event>, ip: string): Option<int> {
    if h == [] then None
    else
      var front := h[..|h| - 1];
      TripAfter(LatestTrip(front, ip), FailuresSince(front, ip), h[|h| - 1], ip)
  }

  function TripAfter(before: Option<int>, failures: seq<int>, e: Event, ip: string): Option<int> {
    match e
    case Failed(i, at) => if i == ip && Trips(failures, at) then Some(at) else before
    case Cleared(i, _) => if i == ip then None else before
    case ClearedAll(_) => None
    case Queried(_, _) => before
    case Listed(_) => before
  }

  /** Latest uncleared trip under five minutes ago. */
  predicate DeniedByHistory(h: seq<Event>, ip: string, now: int) {
    var t := LatestTrip(h, ip);
    t.Some? && now - t.value < BAN_FOR
  }

  predicate Monotone(h: seq<Event>) {
    forall i, j :: 0 <= i < j < |h| ==> h[i].at <= h[j].at
  }

  /** The program's state after a history of calls. */
  function Run(h: seq<Event>): State {
    if h == [] then State(map[], map[]) else AfterEvent(Run(h[..|h| - 1]), h[|h| - 1])
  }

  function AfterEvent(s: State, e: Event): State {
    match e
    case Failed(ip, at) => AfterFailure(s, ip, at).0
    case Queried(ip, at) => AfterQuery(s, ip, at).0
    case Cleared(ip, _) => AfterClear(s, ip)
    case ClearedAll(_) => State(map[], map[])
    case Listed(_) => s
  }

  // ----- the two agree -----------------------------------------------------------------

  predicate Sorted(stamps: seq<int>) {
    forall i, j :: 0 <= i < j < |stamps| ==> stamps[i] <= stamps[j]
  }

  lemma {:induction false} RecentOfNone(stamps: seq<int>, cutoff: int)
    requires forall i :: 0 <= i < |stamps| ==> stamps[i] < cutoff
    ensures Recent(stamps, cutoff) == 0
  {
    if stamps != [] {
      RecentOfNone(stamps[..|stamps| - 1], cutoff);
    }
  }

  lemma {:induction false} RecentOfAll(stamps: seq<int>, cutoff: int)
    requires forall i :: 0 <= i < |stamps| ==> stamps[i] >= cutoff
    ensures Recent(stamps, cutoff) == |stamps|
  {
    if stamps != [] {
      RecentOfAll(stamps[..|stamps| - 1], cutoff);
    }
  }

  lemma {:induction false} RecentOfConcat(a: seq<int>, b: seq<int>, cutoff: int)
    ensures Recent(a + b, cutoff) == Recent(a, cutoff) + Recent(b, cutoff)
  {
    if b == [] {
      assert a + b == a;
    } else {
      assert (a + b)[..|a + b| - 1] == a + b[..|b| - 1];
      RecentOfConcat(a, b[..|b| - 1], cutoff);
    }
  }

  /** Trimming a sorted list keeps exactly the recent stamps, as a suffix. */
  lemma {:induction false} TrimmedIsRecent(stamps: seq<int>, cutoff: int)
    requires Sorted(stamps)
    ensures var kept := Trimmed(stamps, cutoff);
            && |kept| == Recent(stamps, cutoff)
            && |kept| <= |stamps| && kept == stamps[|stamps| - |kept|..]
            && (forall i :: 0 <= i < |stamps| - |kept| ==> stamps[i] < cutoff)
    decreases |stamps|
  {
    if stamps != [] && stamps[0] < cutoff {
      TrimmedIsRecent(stamps[1..], cutoff);
      assert stamps == stamps[..1] + stamps[1..];
      RecentOfConcat(stamps[..1], stamps[1..], cutoff);
      RecentOfNone(stamps[..1], cutoff);
    } else {
      RecentOfAll(stamps, cutoff);
    }
  }

  /** kept is all with a prefix dropped that no cutoff from `floor` on counts. */
  ghost predicate Window(all: seq<int>, kept: seq<int>, floor: int) {
    && |kept| <= |all| && kept == all[|all| - |kept|..]
    && (forall i :: 0 <= i < |all| - |kept| ==> all[i] < floor)
  }

  lemma WindowCounts(all: seq<int>, kept: seq<int>, floor: int, cutoff: int)
    requires Window(all, kept, floor) && floor <= cutoff
    ensures Recent(all, cutoff) == Recent(kept, cutoff)
  {
    var dropped := all[..|all| - |kept|];
    assert all == dropped + kept;
    RecentOfConcat(dropped, kept, cutoff);
    RecentOfNone(dropped, cutoff);
  }

  /** What is kept of one ip against what its history says, at time `now`. */
  ghost predicate AgreesOn(all: seq<int>, trip: Option<int>, kept: seq<int>, ban: Option<int>, now: int) {
    && Sorted(all) && (forall i :: 0 <= i < |all| ==> all[i] <= now)
    && Window(all, kept, now - WINDOW) && |kept| < THRESHOLD
    && (ban.Some? ==> trip == ban)
    && (ban.None? && trip.Some? ==> now - trip.value >= BAN_FOR)
  }

  function BanOf(s: State, ip: string): Option<int> {
    if ip in s.bannedAt then Some(s.bannedAt[ip]) else None
  }

  ghost predicate Agrees(h: seq<Event>, s: State, ip: string, now: int) {
    AgreesOn(FailuresSince(h, ip), LatestTrip(h, ip), StampsOf(s, ip), BanOf(s, ip), now)
  }

  /** One more stamp decides the same way on the kept and on all stamps. */
  lemma WindowSlides(all: seq<int>, kept: seq<int>, floor: int, at: int)
    requires Window(all, kept, floor) && floor <= at - WINDOW
    requires Sorted(all) && forall i :: 0 <= i < |all| ==> all[i] <= at
    ensures var trimmed := Trimmed(kept + [at], at - WINDOW);
            |trimmed| == Recent(all + [at], at - WINDOW) && Window(all + [at], trimmed, at - WINDOW)
  {
    var d := |all| - |kept|;
    assert kept + [at] == (all + [at])[d..];
    WindowCounts(all + [at], kept + [at], floor, at - WINDOW);
    TrimmedIsRecent(kept + [at], at - WINDOW);
    WindowShrinks(all + [at], kept + [at], Trimmed(kept + [at], at - WINDOW), at - WINDOW);
  }

  lemma WindowShrinks(all: seq<int>, kept: seq<int>, trimmed: seq<int>, floor: int)
    requires Window(all, kept, floor) && Window(kept, trimmed, floor)
    ensures Window(all, trimmed, floor)
  {
    forall i | 0 <= i < |all| - |trimmed| ensures all[i] < floor {
      if i >= |all| - |kept| {
        assert all[i] == kept[i - (|all| - |kept|)];
      }
    }
  }

  lemma FailureOnOneIp(all: seq<int>, trip: Option<int>, kept: seq<int>, ban: Option<int>, now: int, at: int)
    requires AgreesOn(all, trip, kept, ban, now) && now <= at
    ensures var trimmed := Trimmed(kept + [at], at - WINDOW);
            && (|trimmed| >= THRESHOLD <==> Trips(all, at))
            && (!Trips(all, at) ==> AgreesOn(all + [at], trip, trimmed, ban, at))
    ensures AgreesOn([], Some(at), [], Some(at), at)
  {
    WindowSlides(all, kept, now - WINDOW, at);
  }

  lemma TimePasses(all: seq<int>, trip: Option<int>, kept: seq<int>, ban: Option<int>, now: int, at: int)
    requires AgreesOn(all, trip, kept, ban, now) && now <= at
    ensures AgreesOn(all, trip, kept, ban, at)
    ensures ban.Some? && at - ban.value >= BAN_FOR ==> AgreesOn(all, trip, kept, None, at)
    ensures AgreesOn([], None, [], None, at)
  {
  }

  lemma FailureOnState(s: State, ip: string, at: int)
    ensures var s', trimmed := AfterFailure(s, ip, at).0, Trimmed(StampsOf(s, ip) + [at], at - WINDOW);
            && AfterFailure(s, ip, at).1 == (|trimmed| >= THRESHOLD)
            && StampsOf(s', ip) == (if |trimmed| >= THRESHOLD then [] else trimmed)
            && BanOf(s', ip) == (if |trimmed| >= THRESHOLD then Some(at) else BanOf(s, ip))
  {
  }

  lemma EventKeepsAgreement(all: seq<int>, trip: Option<int>, s: State, e: Event, ip: string, now: int)
    requires AgreesOn(all, trip, StampsOf(s, ip), BanOf(s, ip), now) && now <= e.at
    ensures var s' := AfterEvent(s, e);
            AgreesOn(FailuresAfter(all, e, ip), TripAfter(trip, all, e, ip), StampsOf(s', ip), BanOf(s', ip), e.at)
  {
    if e.Failed? && e.ip == ip {
      FailureOnState(s, ip, e.at);
      FailureOnOneIp(all, trip, StampsOf(s, ip), BanOf(s, ip), now, e.at);
    } else {
      OtherEventKeepsAgreement(all, trip, s, e, ip, now);
    }
  }

  lemma OtherEventKeepsAgreement(all: seq<int>, trip: Option<int>, s: State, e: Event, ip: string, now: int)
    requires AgreesOn(all, trip, StampsOf(s, ip), BanOf(s, ip), now) && now <= e.at
    requires !(e.Failed? && e.ip == ip)
    ensures var s' := AfterEvent(s, e);
            AgreesOn(FailuresAfter(all, e, ip), TripAfter(trip, all, e, ip), StampsOf(s', ip), BanOf(s', ip), e.at)
  {
    TimePasses(all, trip, StampsOf(s, ip), BanOf(s, ip), now, e.at);
  }

  /** The state agrees with the history of every ip, at any later time. */
  lemma {:induction false} RunAgrees(h: seq<Event>, ip: string, now: int)
    requires Monotone(h) && (h != [] ==> h[|h| - 1].at <= now)
    ensures Agrees(h, Run(h), ip, now)
  {
    if h != [] {
      var front, e := h[..|h| - 1], h[|h| - 1];
      RunAgrees(front, ip, e.at);
      EventKeepsAgreement(FailuresSince(front, ip), LatestTrip(front, ip), Run(front), e, ip, e.at);
      TimePasses(FailuresSince(h, ip), LatestTrip(h, ip), StampsOf(Run(h), ip), BanOf(Run(h), ip), e.at, now);
    }
  }

  /** In every run with non-decreasing times: RecordFailure reports a trip
      exactly when the whole history since the ip's last trip or clear holds ten
      failures no older than 60 s; IsDenied answers exactly whether the latest
      uncleared trip is under five minutes old; stored lists stay below ten. */
  lemma AnswersFollowTheHistory(h: seq<Event>, ip: string, now: int)
    requires Monotone(h) && (h != [] ==> h[|h| - 1].at <= now)
    ensures AfterFailure(Run(h), ip, now).1 == Trips(FailuresSince(h, ip), now)
    ensures AfterQuery(Run(h), ip, now).1 == DeniedByHistory(h, ip, now)
    ensures |StampsOf(Run(h), ip)| < THRESHOLD
  {
    RunAgrees(h, ip, now);
    FailureOnOneIp(FailuresSince(h, ip), LatestTrip(h, ip), StampsOf(Run(h), ip), BanOf(Run(h), ip), now, now);
  }

  /** Banned lists exactly the ips the history denies, with their trip times. */
  lemma BannedFollowsTheHistory(h: seq<Event>, ip: string, now: int)
    requires Monotone(h) && (h != [] ==> h[|h| - 1].at <= now)
    ensures ip in BannedNow(Run(h), now) <==> DeniedByHistory(h, ip, now)
    ensures ip in BannedNow(Run(h), now) ==> LatestTrip(h, ip) == Some(BannedNow(Run(h), now)[ip])
  {
    RunAgrees(h, ip, now);
  }

  predicate IsRead(e: Event) {
    e.Queried? || e.Listed?
  }

  /** What the history says of an ip does not mention reads. */
  lemma {:induction false} ReadsLeaveNoTrace(h: seq<Event>, read: Event, rest: seq<Event>, ip: string)
    requires IsRead(read)
    ensures FailuresSince(h + [read] + rest, ip) == FailuresSince(h + rest, ip)
    ensures LatestTrip(h + [read] + rest, ip) == LatestTrip(h + rest, ip)
    decreases |rest|
  {
    var n := |rest| - 1;
    if rest == [] {
      assert h + [read] + rest == h + [read] && h + rest == h;
      assert (h + [read])[..|h|] == h;
    } else {
      ReadsLeaveNoTrace(h, read, rest[..n], ip);
      assert h + [read] + rest == (h + [read] + rest[..n]) + [rest[n]];
      assert h + rest == (h + rest[..n]) + [rest[n]];
      SnocHistory(h + [read] + rest[..n], rest[n], ip);
      SnocHistory(h + rest[..n], rest[n], ip);
    }
  }

  lemma SnocHistory(h: seq<Event>, e: Event, ip: string)
    ensures FailuresSince(h + [e], ip) == FailuresAfter(FailuresSince(h, ip), e, ip)
    ensures LatestTrip(h + [e], ip) == TripAfter(LatestTrip(h, ip), FailuresSince(h, ip), e, ip)
  {
    assert (h + [e])[..|h|] == h;
  }

  /** Asking and listing never change a later answer, whatever happens between
      the read and the answer. */
  lemma ReadsAreInvisible(h: seq<Event>, read: Event, rest: seq<Event>, ip: string, now: int)
    requires IsRead(read) && Monotone(h + [read] + rest)
    requires (h + [read] + rest)[|h + rest|].at <= now
    ensures AfterQuery(Run(h + [read] + rest), ip, now).1 == AfterQuery(Run(h + rest), ip, now).1
    ensures AfterFailure(Run(h + [read] + rest), ip, now).1 == AfterFailure(Run(h + rest), ip, now).1
    ensures ip in BannedNow(Run(h + [read] + rest), now) <==> ip in BannedNow(Run(h + rest), now)
  {
    var with, without := h + [read] + rest, h + rest;
    MonotoneWithout(h, read, rest);
    ReadsLeaveNoTrace(h, read, rest, ip);
    AnswersFollowTheHistory(with, ip, now);
    AnswersFollowTheHistory(without, ip, now);
    BannedFollowsTheHistory(with, ip, now);
    BannedFollowsTheHistory(without, ip, now);
  }

  lemma MonotoneWithout(h: seq<Event>, read: Event, rest: seq<Event>)
    requires Monotone(h + [read] + rest)
    ensures Monotone(h + rest)
    ensures h + rest != [] ==> (h + rest)[|h + rest| - 1].at <= (h + [read] + rest)[|h + rest|].at
  {
    var with, without := h + [read] + rest, h + rest;
    forall i, j | 0 <= i < j < |without| ensures without[i].at <= without[j].at {
      var i', j' := if i < |h| then i else i + 1, if j < |h| then j else j + 1;
      assert without[i] == with[i'] && without[j] == with[j'];
    }
    if without != [] {
      var k := |without| - 1;
      assert without[k] == with[if k < |h| then k else k + 1];
    }
  }

}
