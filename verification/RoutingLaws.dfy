/** Incremental routing answers every credential as a full rebuild would, over
    every run; the condition under which a rebuild can differ; and which display
    names are routable. */
module RoutingLaws {
  import opened Prelude
  import opened Store
  import opened Routing
  import opened RoutingCore

  // ----- the database's own answer -----------------------------------------------

  /** An answer without its cancel group. */
  datatype Verdict = Granted(upstream: Upstream, upstreamPwd: string) | Refused(why: Answer)

  function VerdictOf(a: Answer): Verdict {
    if a.Accepted? then Granted(a.upstream, a.upstreamPwd) else Refused(a)
  }

  /** What the tables say about a credential, without any routing state. */
  ghost function DbVerdict(t: Tables, username: string, password: string): Verdict {
    if username in t.users && t.users[username].password == password then
      var u := t.users[username];
      if u.upstreamId.Some? && u.upstreamId.value in t.upstreams && !u.broken
      then GrantRow(u.upstreamId.value, t.upstreams[u.upstreamId.value])
      else Refused(BrokenMapping)
    else if t.universalPwd != "" && t.universalPwd == password then
      match RouteOf(t.upstreams, username)
      case Some(up) => GrantRow(up.id, up.row)
      case None => Refused(UnknownUser)
    else if username in t.users then Refused(BadPassword)
    else Refused(UnknownUser)
  }

  function GrantRow(id: string, row: Row): Verdict {
    Granted(Upstream(id, row), row.endpoint.password)
  }

  /** The state answers every credential as the tables do. */
  ghost predicate Follows(s: RoutingState, t: Tables) {
    forall username, password :: FollowsOn(s, t, username, password)
  }

  ghost predicate FollowsOn(s: RoutingState, t: Tables, username: string, password: string) {
    VerdictOf(Acquire(Some(s), username, password)) == DbVerdict(t, username, password)
  }

  /** A full rebuild answers as the tables do, whatever they hold. */
  lemma HydratedFollows(t: Tables, s: RoutingState)
    requires Hydrated(t, s)
    ensures Follows(s, t)
  {
    forall username, password ensures FollowsOn(s, t, username, password) {
      HydratedFollowsOn(t, s, username, password);
    }
  }

  lemma HydratedFollowsOn(t: Tables, s: RoutingState, username: string, password: string)
    requires Hydrated(t, s)
    ensures FollowsOn(s, t, username, password)
  {
    hide IsIndex, Bearers, RouteOf;
    IndexAt(t, s, username);
  }

  lemma IndexAt(t: Tables, s: RoutingState, name: string)
    requires Hydrated(t, s)
    ensures IsIndexed(t.upstreams, s.byDisplayName, name)
  {
  }

  // ----- what an incremental state still knows ---------------------------------------

  /** Passwords, the universal password and every committed mapping are known;
      the id of a user the database has unmapped may linger. */
  ghost predicate Knows(s: RoutingState, t: Tables) {
    && s.universalPwd == t.universalPwd && s.users.Keys == t.users.Keys
    && forall u :: u in t.users ==> KnowsUser(s, t, u)
  }

  predicate KnowsUser(s: RoutingState, t: Tables, u: string)
    requires u in t.users && u in s.users
  {
    && s.users[u].password == t.users[u].password
    && (t.users[u].upstreamId.Some? ==> s.users[u].upstreamId == t.users[u].upstreamId.value)
  }

  /** Constraints the program keeps on its tables: foreign keys, no empty row
      id, and a broken flag only on unmapped users. */
  ghost predicate WellFormed(t: Tables) {
    && ForeignKeys(t) && "" !in t.upstreams
    && forall u :: u in t.users && t.users[u].upstreamId.Some? ==> !t.users[u].broken
  }

  /** A user the database has unmapped but whose remembered id exists again. */
  predicate Dangles(s: RoutingState, t: Tables, u: string) {
    && u in t.users && u in s.users
    && t.users[u].upstreamId.None? && s.users[u].upstreamId in t.upstreams
  }

  // ----- when a rebuild answers as the tables do ------------------------------------

  /** The remembered id resolves as the tables' mapping does. */
  predicate MapsAlike(cur: RoutingState, t: Tables, u: string)
    requires u in t.users && u in cur.users
  {
    match t.users[u].upstreamId
    case Some(id) => cur.users[u].upstreamId == id
    case None => cur.users[u].upstreamId !in t.upstreams
  }

  /** A universal password that only one side has is not noticed under a name
      whose own password it is. */
  predicate Masked(own: string, universal: string) {
    universal == "" || universal == own
  }

  /** Memory and tables hold each other's universal password as this user's own,
      and every one of them leads to the upstream bearing the user's name. */
  ghost predicate Crossed(cur: RoutingState, t: Tables, u: string)
    requires u in t.users && u in cur.users
  {
    var r := RouteOf(t.upstreams, u);
    && cur.users[u].password == t.universalPwd != "" && t.users[u].password == cur.universalPwd != ""
    && r.Some? && cur.users[u].upstreamId == r.value.id && t.users[u].upstreamId == Some(r.value.id)
  }

  /** What memory captured must agree on with the tables about one name. */
  ghost predicate AgreesOn(cur: RoutingState, t: Tables, u: string) {
    if u in cur.users && u in t.users then
      || (&& cur.users[u].password == t.users[u].password && MapsAlike(cur, t, u)
          && (cur.universalPwd == t.universalPwd ||
              (Masked(t.users[u].password, cur.universalPwd) && Masked(t.users[u].password, t.universalPwd))))
      || (cur.universalPwd != t.universalPwd && Crossed(cur, t, u))
    else
      && u !in cur.users && u !in t.users
      && (cur.universalPwd == t.universalPwd || RouteOf(t.upstreams, u).None?)
  }

  ghost predicate NameFollows(s: RoutingState, t: Tables, u: string) {
    forall password :: FollowsOn(s, t, u, password)
  }

  /** The answer on the user's own password, after a rebuild and by the tables. */
  function OwnVerdict(rows: map<string, Row>, id: string): Verdict {
    if id in rows then GrantRow(id, rows[id]) else Refused(BrokenMapping)
  }

  ghost function UniversalVerdict(rows: map<string, Row>, u: string): Verdict {
    match RouteOf(rows, u)
    case Some(up) => GrantRow(up.id, up.row)
    case None => Refused(UnknownUser)
  }

  /** An answer by the case it comes from: u's own password, the universal one,
      or neither. */
  ghost function ByCase(rows: map<string, Row>, u: string, user: Option<(string, string)>,
                        universal: string, password: string): Verdict
  {
    if user.Some? && user.value.0 == password then OwnVerdict(rows, user.value.1)
    else if universal != "" && universal == password then UniversalVerdict(rows, u)
    else Refused(if user.Some? then BadPassword else UnknownUser)
  }

  ghost function InMemory(cur: RoutingState, u: string): Option<(string, string)> {
    if u in cur.users then Some((cur.users[u].password, cur.users[u].upstreamId)) else None
  }

  ghost function InTables(t: Tables, u: string): Option<(string, string)> {
    if u in t.users then
      Some((t.users[u].password, if t.users[u].upstreamId.Some? then t.users[u].upstreamId.value else ""))
    else None
  }

  lemma RebuiltByCase(cur: RoutingState, t: Tables, changed: Option<string>, next: RoutingState, u: string, password: string)
    requires WellFormed(t) && Rebuilt(cur, t.upstreams, changed, next)
    ensures VerdictOf(Acquire(Some(next), u, password)) == ByCase(t.upstreams, u, InMemory(cur, u), cur.universalPwd, password)
  {
    hide Rebuilt, RouteOf;
    RebuiltAt(cur, t.upstreams, changed, next, u);
  }

  /** What a rebuild says of one name. */
  lemma RebuiltAt(cur: RoutingState, rows: map<string, Row>, changed: Option<string>, next: RoutingState, u: string)
    requires Rebuilt(cur, rows, changed, next)
    ensures next.upstreams == rows && next.universalPwd == cur.universalPwd && IsIndexed(rows, next.byDisplayName, u)
    ensures (u in next.users <==> u in cur.users) && (u in cur.users ==> UserRebuilt(cur, rows, changed, next, u))
  {
  }

  lemma TablesByCase(t: Tables, u: string, password: string)
    requires WellFormed(t)
    ensures DbVerdict(t, u, password) == ByCase(t.upstreams, u, InTables(t, u), t.universalPwd, password)
  {
  }

  ghost predicate SameByCase(rows: map<string, Row>, u: string, a: Option<(string, string)>, x: string,
                             b: Option<(string, string)>, y: string, password: string)
  {
    ByCase(rows, u, a, x, password) == ByCase(rows, u, b, y, password)
  }

  /** Five passwords tell everything: the two own ones, the two universal ones,
      and one that is none of these. */
  lemma FivePasswordsDecide(rows: map<string, Row>, u: string, a: Option<(string, string)>, x: string,
                            b: Option<(string, string)>, y: string)
    requires "" !in rows
    ensures (forall password :: SameByCase(rows, u, a, x, b, y, password)) <==> AgreeByCase(rows, u, a, x, b, y)
  {
    if forall password :: SameByCase(rows, u, a, x, b, y, password) {
      SameMeansAgree(rows, u, a, x, b, y);
    }
  }

  /** AgreesOn, on plain values. */
  ghost predicate AgreeByCase(rows: map<string, Row>, u: string, a: Option<(string, string)>, x: string,
                              b: Option<(string, string)>, y: string)
  {
    if a.Some? && b.Some? then
      || (&& a.value.0 == b.value.0 && OwnVerdict(rows, a.value.1) == OwnVerdict(rows, b.value.1)
          && (x == y || (Masked(b.value.0, x) && Masked(b.value.0, y))))
      || (&& x != y && a.value.0 == y != "" && b.value.0 == x != ""
          && RouteOf(rows, u).Some? && a.value.1 == b.value.1 == RouteOf(rows, u).value.id)
    else a.None? && b.None? && (x == y || RouteOf(rows, u).None?)
  }

  lemma SameMeansAgree(rows: map<string, Row>, u: string, a: Option<(string, string)>, x: string,
                       b: Option<(string, string)>, y: string)
    requires "" !in rows && forall password :: SameByCase(rows, u, a, x, b, y, password)
    ensures AgreeByCase(rows, u, a, x, b, y)
  {
    var p, q := if a.Some? then a.value.0 else "", if b.Some? then b.value.0 else "";
    var other := p + q + x + y + "?";
    assert SameByCase(rows, u, a, x, b, y, other);
    assert SameByCase(rows, u, a, x, b, y, p) && SameByCase(rows, u, a, x, b, y, q);
    assert SameByCase(rows, u, a, x, b, y, x) && SameByCase(rows, u, a, x, b, y, y);
  }

  lemma AgreesOnByCase(cur: RoutingState, t: Tables, u: string)
    requires WellFormed(t)
    ensures AgreesOn(cur, t, u)
        <==> AgreeByCase(t.upstreams, u, InMemory(cur, u), cur.universalPwd, InTables(t, u), t.universalPwd)
  {
  }

  /** Whatever memory holds, a rebuild answers every password for a name as the
      tables do if and only if what it captured agrees with them on that name. */
  lemma NameFollowsExactly(cur: RoutingState, t: Tables, changed: Option<string>, next: RoutingState, u: string)
    requires WellFormed(t) && Rebuilt(cur, t.upstreams, changed, next)
    ensures NameFollows(next, t, u) <==> AgreesOn(cur, t, u)
  {
    var a, b := InMemory(cur, u), InTables(t, u);
    forall password
      ensures FollowsOn(next, t, u, password) <==> SameByCase(t.upstreams, u, a, cur.universalPwd, b, t.universalPwd, password)
    {
      RebuiltByCase(cur, t, changed, next, u, password);
      TablesByCase(t, u, password);
    }
    FivePasswordsDecide(t.upstreams, u, a, cur.universalPwd, b, t.universalPwd);
    AgreesOnByCase(cur, t, u);
  }

  /** So it answers every credential as they do if and only if it agrees on every
      name. */
  lemma RebuildFollowsExactly(cur: RoutingState, t: Tables, changed: Option<string>, next: RoutingState)
    requires WellFormed(t) && Rebuilt(cur, t.upstreams, changed, next)
    ensures Follows(next, t) <==> forall u :: AgreesOn(cur, t, u)
  {
    forall u ensures NameFollows(next, t, u) <==> AgreesOn(cur, t, u) {
      NameFollowsExactly(cur, t, changed, next, u);
    }
    if forall u :: AgreesOn(cur, t, u) {
      forall u, password ensures FollowsOn(next, t, u, password) {
        assert AgreesOn(cur, t, u) && NameFollows(next, t, u);
      }
    }
    if Follows(next, t) {
      forall u ensures AgreesOn(cur, t, u) {
        assert NameFollows(next, t, u);
      }
    }
  }

  /** With one universal password on both sides that is to know the tables' users,
      passwords and mappings, with no remembered id back after the database
      unmapped it. */
  lemma AgreementIsKnowledge(cur: RoutingState, t: Tables)
    requires WellFormed(t) && cur.universalPwd == t.universalPwd
    ensures (forall u :: AgreesOn(cur, t, u)) <==> Knows(cur, t) && forall u :: !Dangles(cur, t, u)
  {
    if forall u :: AgreesOn(cur, t, u) {
      forall u ensures u in cur.users <==> u in t.users {
        assert AgreesOn(cur, t, u);
      }
      forall u | u in t.users ensures KnowsUser(cur, t, u) && !Dangles(cur, t, u) {
        assert AgreesOn(cur, t, u);
      }
    }
    if Knows(cur, t) && forall u :: !Dangles(cur, t, u) {
      forall u ensures AgreesOn(cur, t, u) {
        assert u in t.users ==> KnowsUser(cur, t, u) && !Dangles(cur, t, u);
      }
    }
  }

  /** After SwapUserMapping memory and tables still agree on every credential. */
  lemma SwapKeepsFollowing(cur: RoutingState, t: Tables, username: string, newId: string, next: RoutingState)
    requires Knows(cur, t) && Follows(cur, t) && WellFormed(t) && cur.upstreams == t.upstreams
    requires forall u :: u in cur.users ==> cur.users[u].username == u
    requires Mappable(t, username, newId) && Remapped(cur, username, newId, next)
    ensures var t' := MapUser(t, username, newId);
            Knows(next, t') && Follows(next, t') && WellFormed(t')
  {
    var t' := MapUser(t, username, newId);
    forall u | u in t'.users ensures KnowsUser(next, t', u) {
      assert KnowsUser(cur, t, u);
    }
    forall name, password ensures FollowsOn(next, t', name, password) {
      SwapFollowsOn(cur, t, username, newId, next, name, password);
    }
  }

  lemma SwapFollowsOn(cur: RoutingState, t: Tables, username: string, newId: string, next: RoutingState,
                      name: string, password: string)
    requires Knows(cur, t) && FollowsOn(cur, t, name, password) && cur.upstreams == t.upstreams
    requires username in cur.users && cur.users[username].username == username
    requires Mappable(t, username, newId) && Remapped(cur, username, newId, next)
    ensures FollowsOn(next, MapUser(t, username, newId), name, password)
  {
    hide RouteOf;
    assert KnowsUser(cur, t, username);
  }

  // ----- every run ------------------------------------------------------------------------

  /** A snapshot, the ids deleted since the Hydrate it goes back to, and whether a
      user or the universal password has been committed since. */
  datatype Memory = Memory(s: RoutingState, gone: set<string>, behind: bool)

  /** The tables, the current memory, and what the holder of mappingChangeMu has
      captured. */
  datatype World = World(t: Tables, mem: Memory, held: Option<Memory>)

  datatype Event =
    /** A committed change of upstream rows: a sync, a manual-proxy edit or delete. */
    | RowsChange
    /** Users added, deleted or given a new password, or a new universal
        password, committed; the handler's Hydrate comes later or fails. */
    | UsersCommit
    /** A successful Hydrate, which does not take the lock. */
    | Hydrates
    /** The lock is taken and the current snapshot captured. */
    | Locks
    /** Its holder fails on storage and lets go. */
    | Fails
    /** SwapUserMapping commits and installs. */
    | Swap(username: string, newId: string)
    /** RebuildAfterSync (None) or RebuildForUpstreamChange reads and installs. */
    | RebuildFor(changed: Option<string>)

  function Forget(m: Memory, deleted: set<string>): Memory {
    m.(gone := m.gone + deleted)
  }

  function Lag(m: Memory): Memory {
    m.(behind := true)
  }

  function OfHeld(f: Memory -> Memory, m: Option<Memory>): Option<Memory> {
    match m
    case None => None
    case Some(x) => Some(f(x))
  }

  /** What a lock holder installs goes back to what it captured. */
  ghost predicate Installs(w: World, w': World) {
    w.held.Some? && w'.held.None? && w'.mem == w.held.value.(s := w'.mem.s)
  }

  ghost predicate Next(w: World, e: Event, w': World) {
    && WellFormed(w'.t)
    && match e
       case RowsChange =>
         var deleted := w.t.upstreams.Keys - w'.t.upstreams.Keys;
         && w'.t.universalPwd == w.t.universalPwd
         && w'.t.users == DeleteUpstreams(w.t, deleted).users
         && w'.mem == Forget(w.mem, deleted) && w'.held == OfHeld(m => Forget(m, deleted), w.held)
       case UsersCommit =>
         && w'.t.upstreams == w.t.upstreams
         && w'.mem == Lag(w.mem) && w'.held == OfHeld(Lag, w.held)
       case Hydrates =>
         && w'.t == w.t && w'.held == w.held
         && Hydrated(w.t, w'.mem.s) && w'.mem.gone == {} && !w'.mem.behind
       case Locks =>
         w.held.None? && w' == w.(held := Some(w.mem))
       case Fails =>
         w.held.Some? && w' == w.(held := None)
       case Swap(username, newId) =>
         && Mappable(w.t, username, newId) && w'.t == MapUser(w.t, username, newId)
         && Installs(w, w') && Remapped(w.held.value.s, username, newId, w'.mem.s)
       case RebuildFor(changed) =>
         w'.t == w.t && Installs(w, w') && Rebuilt(w.held.value.s, w.t.upstreams, changed, w'.mem.s)
  }

  ghost predicate IsRun(ws: seq<World>, es: seq<Event>) {
    && |ws| == |es| + 1
    && WellFormed(ws[0].t) && Hydrated(ws[0].t, ws[0].mem.s)
    && ws[0].mem.gone == {} && !ws[0].mem.behind && ws[0].held == None
    && forall i :: 0 <= i < |es| ==> Next(ws[i], es[i], ws[i + 1])
  }

  /** A memory that no user commit has overtaken knows the tables, and only ids
      deleted since its Hydrate can linger in it. */
  ghost predicate Remembers(m: Memory, t: Tables) {
    && (forall u :: u in m.s.users ==> m.s.users[u].username == u)
    && (!m.behind ==>
          && Knows(m.s, t)
          && forall u :: u in t.users && t.users[u].upstreamId.None? ==> LingersOnlyIfGone(m, u))
  }

  predicate LingersOnlyIfGone(m: Memory, u: string) {
    u in m.s.users ==> m.s.users[u].upstreamId == "" || m.s.users[u].upstreamId in m.gone
  }

  ghost predicate AllRemember(w: World) {
    && WellFormed(w.t) && Remembers(w.mem, w.t)
    && (w.held.Some? ==> Remembers(w.held.value, w.t))
  }

  lemma HydratedRemembers(m: Memory, t: Tables)
    requires WellFormed(t) && Hydrated(t, m.s)
    ensures Remembers(m, t)
  {
  }

  lemma RowsKeepMemory(m: Memory, t: Tables, t': Tables)
    requires Remembers(m, t) && WellFormed(t') && t'.universalPwd == t.universalPwd
    requires t'.users == DeleteUpstreams(t, t.upstreams.Keys - t'.upstreams.Keys).users
    ensures Remembers(Forget(m, t.upstreams.Keys - t'.upstreams.Keys), t')
  {
    var deleted := t.upstreams.Keys - t'.upstreams.Keys;
    var m' := Forget(m, deleted);
    if !m.behind {
      forall u | u in t'.users ensures KnowsUser(m'.s, t', u) && (t'.users[u].upstreamId.None? ==> LingersOnlyIfGone(m', u)) {
        assert KnowsUser(m.s, t, u) && t'.users[u] == Store.Unmapped(t.users[u], deleted);
        assert t.users[u].upstreamId.None? ==> LingersOnlyIfGone(m, u);
      }
    }
  }

  lemma SwapKeepsMemory(m: Memory, t: Tables, username: string, newId: string, m': Memory)
    requires Remembers(m, t) && m' == m.(s := m'.s) && Mappable(t, username, newId)
    requires Remapped(m.s, username, newId, m'.s)
    ensures Remembers(m', MapUser(t, username, newId))
  {
    var t' := MapUser(t, username, newId);
    if !m.behind {
      forall u | u in t'.users ensures KnowsUser(m'.s, t', u) && (t'.users[u].upstreamId.None? ==> LingersOnlyIfGone(m', u)) {
        assert KnowsUser(m.s, t, u);
        assert t.users[u].upstreamId.None? ==> LingersOnlyIfGone(m, u);
      }
    }
  }

  lemma RebuildKeepsMemory(m: Memory, t: Tables, changed: Option<string>, m': Memory)
    requires Remembers(m, t) && m' == m.(s := m'.s) && Rebuilt(m.s, t.upstreams, changed, m'.s)
    ensures Remembers(m', t)
  {
    forall u | u in m'.s.users ensures m'.s.users[u].username == u {
      assert UserRebuilt(m.s, t.upstreams, changed, m'.s, u);
    }
    if !m.behind {
      forall u | u in t.users ensures KnowsUser(m'.s, t, u) && (t.users[u].upstreamId.None? ==> LingersOnlyIfGone(m', u)) {
        assert KnowsUser(m.s, t, u) && UserRebuilt(m.s, t.upstreams, changed, m'.s, u);
        assert t.users[u].upstreamId.None? ==> LingersOnlyIfGone(m, u);
      }
    }
  }

  lemma NextRemembers(w: World, e: Event, w': World)
    requires AllRemember(w) && Next(w, e, w')
    ensures AllRemember(w')
  {
    match e
    case RowsChange =>
      RowsKeepMemory(w.mem, w.t, w'.t);
      if w.held.Some? {
        RowsKeepMemory(w.held.value, w.t, w'.t);
      }
    case UsersCommit =>
    case Hydrates => HydratedRemembers(w'.mem, w.t);
    case Locks =>
    case Fails =>
    case Swap(username, newId) => SwapKeepsMemory(w.held.value, w.t, username, newId, w'.mem);
    case RebuildFor(changed) => RebuildKeepsMemory(w.held.value, w.t, changed, w'.mem);
  }

  lemma {:induction false} RunRemembers(ws: seq<World>, es: seq<Event>, i: nat)
    requires IsRun(ws, es) && i <= |es|
    ensures AllRemember(ws[i])
  {
    if i == 0 {
      HydratedRemembers(ws[0].mem, ws[0].t);
    } else {
      RunRemembers(ws, es, i - 1);
      NextRemembers(ws[i - 1], es[i - 1], ws[i]);
    }
  }

  /** No user commit has overtaken the memory and no id deleted since its Hydrate
      is back. */
  predicate UpToDate(m: Memory, t: Tables) {
    !m.behind && m.gone !! t.upstreams.Keys
  }

  predicate CapturedUpToDate(w: World) {
    w.held.Some? && UpToDate(w.held.value, w.t)
  }

  ghost predicate AnswersAlike(a: RoutingState, b: RoutingState) {
    forall username, password ::
      VerdictOf(Acquire(Some(a), username, password)) == VerdictOf(Acquire(Some(b), username, password))
  }

  ghost predicate CapturedAgrees(w: World) {
    w.held.Some? && forall u :: AgreesOn(w.held.value.s, w.t, u)
  }

  /** In every run, a rebuild answers as a Hydrate of the same tables would if and
      only if the memory it captured agrees with them on every name. */
  lemma RebuildsRefineHydrateExactly(ws: seq<World>, es: seq<Event>, i: nat, full: RoutingState)
    requires IsRun(ws, es) && i < |es| && es[i].RebuildFor? && Hydrated(ws[i + 1].t, full)
    ensures AnswersAlike(ws[i + 1].mem.s, full) <==> CapturedAgrees(ws[i])
  {
    var w, w' := ws[i], ws[i + 1];
    RunRemembers(ws, es, i);
    assert Next(w, es[i], w');
    RebuildFollowsExactly(w.held.value.s, w.t, es[i].changed, w'.mem.s);
    HydratedFollows(w'.t, full);
    AlikeIsFollowing(w'.mem.s, full, w'.t);
  }

  lemma AlikeIsFollowing(a: RoutingState, b: RoutingState, t: Tables)
    requires Follows(b, t)
    ensures AnswersAlike(a, b) <==> Follows(a, t)
  {
    hide Acquire, DbVerdict;
    assert forall username, password :: FollowsOn(b, t, username, password);
    if AnswersAlike(a, b) {
      forall username, password ensures FollowsOn(a, t, username, password) {
        assert FollowsOn(b, t, username, password);
      }
    }
    if Follows(a, t) {
      forall username, password
        ensures VerdictOf(Acquire(Some(a), username, password)) == VerdictOf(Acquire(Some(b), username, password))
      {
        assert FollowsOn(a, t, username, password) && FollowsOn(b, t, username, password);
      }
    }
  }

  /** It does agree as long as no user commit has overtaken it and no id deleted
      since its Hydrate is back. */
  lemma UpToDateAgrees(ws: seq<World>, es: seq<Event>, i: nat)
    requires IsRun(ws, es) && i <= |es| && CapturedUpToDate(ws[i])
    ensures CapturedAgrees(ws[i])
  {
    RunRemembers(ws, es, i);
    NothingDangles(ws[i].held.value, ws[i].t);
    AgreementIsKnowledge(ws[i].held.value.s, ws[i].t);
  }

  lemma NothingDangles(m: Memory, t: Tables)
    requires Remembers(m, t) && UpToDate(m, t) && "" !in t.upstreams
    ensures forall u :: !Dangles(m.s, t, u)
  {
    forall u ensures !Dangles(m.s, t, u) {
      assert u in t.users && t.users[u].upstreamId.None? ==> LingersOnlyIfGone(m, u);
    }
  }

  lemma UpToDateRebuildFollows(m: Memory, t: Tables, changed: Option<string>, next: RoutingState)
    requires WellFormed(t) && Remembers(m, t) && UpToDate(m, t) && Rebuilt(m.s, t.upstreams, changed, next)
    ensures Follows(next, t)
  {
    NothingDangles(m, t);
    AgreementIsKnowledge(m.s, t);
    RebuildFollowsExactly(m.s, t, changed, next);
  }

  // ----- answers that stay right -------------------------------------------------------------

  /** The memory answers as the tables do, from the tables' own rows. */
  ghost predicate Current(m: Memory, t: Tables) {
    UpToDate(m, t) && Follows(m.s, t) && m.s.upstreams == t.upstreams
  }

  ghost predicate AllCurrent(w: World) {
    Current(w.mem, w.t) && (w.held.Some? ==> Current(w.held.value, w.t))
  }

  predicate CommitsElsewhere(e: Event) {
    e.RowsChange? || e.UsersCommit?
  }

  lemma NextStaysCurrent(w: World, e: Event, w': World)
    requires AllRemember(w) && AllCurrent(w) && Next(w, e, w') && !CommitsElsewhere(e)
    ensures AllCurrent(w')
  {
    match e
    case Hydrates => HydratedFollows(w.t, w'.mem.s);
    case Locks =>
    case Fails =>
    case Swap(username, newId) =>
      SwapKeepsFollowing(w.held.value.s, w.t, username, newId, w'.mem.s);
    case RebuildFor(changed) =>
      UpToDateRebuildFollows(w.held.value, w.t, changed, w'.mem.s);
  }

  /** From such a rebuild on, until rows or users are next committed, every remap,
      rebuild, Hydrate and failure leaves memory answering as the tables do. */
  lemma {:induction false} AnswersStayRight(ws: seq<World>, es: seq<Event>, i: nat, j: nat)
    requires IsRun(ws, es) && i < j <= |es| && es[i].RebuildFor?
    requires CapturedUpToDate(ws[i])
    requires forall k :: i < k < j ==> !CommitsElsewhere(es[k])
    ensures AllCurrent(ws[j])
  {
    RunRemembers(ws, es, j - 1);
    assert Next(ws[j - 1], es[j - 1], ws[j]);
    if j == i + 1 {
      RebuildIsCurrent(ws[i], es[i], ws[j]);
    } else {
      AnswersStayRight(ws, es, i, j - 1);
      NextStaysCurrent(ws[j - 1], es[j - 1], ws[j]);
    }
  }

  lemma RebuildIsCurrent(w: World, e: Event, w': World)
    requires AllRemember(w) && Next(w, e, w') && e.RebuildFor? && CapturedUpToDate(w)
    ensures AllCurrent(w')
  {
    UpToDateRebuildFollows(w.held.value, w.t, e.changed, w'.mem.s);
  }

  // ----- the conditions are needed ----------------------------------------------------------

  function OneUser(rows: map<string, Row>, mapping: Option<string>): Tables {
    Tables(rows, map["u" := User("p", mapping, false)], map[], "")
  }

  function OneUserState(rows: map<string, Row>, u: ResolvedUser): RoutingState {
    RoutingState(map["u" := u], rows, map[], "")
  }

  lemma UnnamedIsNotIndexed(rows: map<string, Row>)
    requires forall id :: id in rows ==> rows[id].displayName == ""
    ensures IsIndex(rows, map[])
  {
    forall name ensures IsIndexed(rows, map[], name) {
      if name != "" {
        assert Bearers(rows, name) == {};
      }
    }
  }

  /** The seven worlds of a run that loses a row and gets it back. */
  function LostAndBack(row: Row): seq<World> {
    var rows := map["a" := row];
    var mapped := Mapped("u", "p", "a", row, false, 0);
    var whole := Memory(OneUserState(rows, mapped), {"a"}, false);
    var without := Memory(OneUserState(map[], Routing.Unmapped("u", "p", "a", 1)), {"a"}, false);
    var again := Memory(OneUserState(rows, mapped.(group := 1)), {"a"}, false);
    var gone, back := OneUser(map[], None), OneUser(rows, None);
    [World(OneUser(rows, Some("a")), whole.(gone := {}), None),
     World(gone, whole, None), World(gone, whole, Some(whole)), World(gone, without, None),
     World(back, without, None), World(back, without, Some(without)), World(back, again, None)]
  }

  lemma RowIsLost(row: Row)
    requires row.displayName == ""
    ensures var ws := LostAndBack(row);
            && IsRun(ws[..1], [])
            && Next(ws[0], RowsChange, ws[1]) && Next(ws[1], Locks, ws[2]) && Next(ws[2], RebuildFor(None), ws[3])
  {
    var ws := LostAndBack(row);
    UnnamedIsNotIndexed(ws[0].t.upstreams);
    UnnamedIsNotIndexed(map[]);
    assert ws[0].t.upstreams.Keys - ws[1].t.upstreams.Keys == {"a"};
    assert DeleteUpstreams(ws[0].t, {"a"}).users == ws[1].t.users;
    assert UserRebuilt(ws[2].mem.s, map[], None, ws[3].mem.s, "u");
  }

  lemma RowIsBack(row: Row)
    requires row.displayName == ""
    ensures var ws := LostAndBack(row);
            Next(ws[3], RowsChange, ws[4]) && Next(ws[4], Locks, ws[5]) && Next(ws[5], RebuildFor(None), ws[6])
  {
    var ws := LostAndBack(row);
    UnnamedIsNotIndexed(ws[5].t.upstreams);
    assert ws[3].t.upstreams.Keys - ws[4].t.upstreams.Keys == {};
    assert DeleteUpstreams(ws[3].t, {}).users == ws[4].t.users;
    assert UserRebuilt(ws[5].mem.s, ws[5].t.upstreams, None, ws[6].mem.s, "u");
  }

  /** A row is deleted, memory is rebuilt, the row comes back, memory is rebuilt
      again: memory lets the user through again, the database does not. */
  lemma AnIdCanComeBack(row: Row)
    requires row.displayName == ""
    ensures var ws := LostAndBack(row);
            && IsRun(ws, [RowsChange, Locks, RebuildFor(None), RowsChange, Locks, RebuildFor(None)])
            && VerdictOf(Acquire(Some(ws[6].mem.s), "u", "p")) == GrantRow("a", row)
            && DbVerdict(ws[6].t, "u", "p") == Refused(BrokenMapping)
  {
    RowIsLost(row);
    RowIsBack(row);
    var ws := LostAndBack(row);
    assert ws[..1][0] == ws[0];
  }

  /** A rebuild captures the snapshot, a user is deleted and Hydrate succeeds, and
      then the rebuild installs: the deleted user is back in memory. */
  lemma ADeletedUserCanComeBack(row: Row) returns (ws: seq<World>, es: seq<Event>)
    requires row.displayName == ""
    ensures IsRun(ws, es) && |ws| == 5 && es == [Locks, UsersCommit, Hydrates, RebuildFor(None)]
    ensures VerdictOf(Acquire(Some(ws[4].mem.s), "u", "p")) == GrantRow("a", row)
    ensures DbVerdict(ws[4].t, "u", "p") == Refused(UnknownUser)
  {
    var rows := map["a" := row];
    var t, t' := OneUser(rows, Some("a")), Tables(rows, map[], map[], "");
    var m := Memory(OneUserState(rows, Mapped("u", "p", "a", row, false, 0)), {}, false);
    var empty := Memory(RoutingState(map[], rows, map[], ""), {}, false);
    es := [Locks, UsersCommit, Hydrates, RebuildFor(None)];
    ws := [World(t, m, None), World(t, m, Some(m)), World(t', Lag(m), Some(Lag(m))),
           World(t', empty, Some(Lag(m))), World(t', Lag(m), None)];
    UnnamedIsNotIndexed(rows);
    assert UserRebuilt(m.s, rows, None, m.s, "u");
    assert Next(ws[0], es[0], ws[1]) && Next(ws[1], es[1], ws[2]);
    assert Next(ws[2], es[2], ws[3]) && Next(ws[3], es[3], ws[4]);
  }

  /** The same without any race, when the handler's Hydrate fails. */
  lemma ADeletedUserCanStay(row: Row) returns (ws: seq<World>, es: seq<Event>)
    requires row.displayName == ""
    ensures IsRun(ws, es) && |ws| == 4 && es == [UsersCommit, Locks, RebuildFor(None)]
    ensures VerdictOf(Acquire(Some(ws[3].mem.s), "u", "p")) == GrantRow("a", row)
    ensures DbVerdict(ws[3].t, "u", "p") == Refused(UnknownUser)
  {
    var rows := map["a" := row];
    var t, t' := OneUser(rows, Some("a")), Tables(rows, map[], map[], "");
    var m := Memory(OneUserState(rows, Mapped("u", "p", "a", row, false, 0)), {}, false);
    es := [UsersCommit, Locks, RebuildFor(None)];
    ws := [World(t, m, None), World(t', Lag(m), None), World(t', Lag(m), Some(Lag(m))), World(t', Lag(m), None)];
    UnnamedIsNotIndexed(rows);
    assert UserRebuilt(m.s, rows, None, m.s, "u");
    assert Next(ws[0], es[0], ws[1]) && Next(ws[1], es[1], ws[2]) && Next(ws[2], es[2], ws[3]);
  }

  // ----- callbacks of a sync rebuild ---------------------------------------------------------

  /** A second rebuild on the same rows finds no healthy user turned broken, and
      an unrotated user keeps its group through both. */
  lemma SecondRebuildRotatesNobody(cur: RoutingState, rows: map<string, Row>, next: RoutingState, u: string)
    requires Rebuilt(cur, rows, None, next) && u in cur.users
    ensures u in next.users && !Rotates(next.users[u], rows, None)
    ensures Rotates(cur.users[u], rows, None) <==>
            !cur.users[u].broken && (cur.users[u].upstreamId == "" || cur.users[u].upstreamId !in rows)
  {
    assert UserRebuilt(cur, rows, None, next, u);
  }

  // ----- which names are routable -----------------------------------------------------------------

  /** A name is indexed exactly when it is non-empty and one row bears it; two
      indexes of the same rows, built in whatever order, differ in groups only. */
  lemma RoutableIffUnique(rows: map<string, Row>, a: map<string, Route>, b: map<string, Route>, name: string)
    requires IsIndex(rows, a) && IsIndex(rows, b)
    ensures name in a <==> name != "" && exists id :: Bearers(rows, name) == {id}
    ensures name in a <==> name in b
    ensures name in a ==> a[name].(group := b[name].group) == b[name]
  {
    assert IsIndexed(rows, a, name) && IsIndexed(rows, b, name);
    var bearers := Bearers(rows, name);
    if |bearers| == 1 {
      var id :| id in bearers;
      assert |bearers - {id}| == 0;
      assert bearers == {id};
    }
    if id :| bearers == {id} {
      assert |bearers| == 1;
    }
  }

  /** Unless a local user of that name has the universal password as its own,
      the universal password reaches a name exactly when it is indexed, and then
      the upstream that alone bears it. */
  lemma UniversalReachesTheIndex(s: RoutingState, name: string)
    requires Sound(s) && s.universalPwd != ""
    requires !(name in s.users && s.users[name].password == s.universalPwd)
    ensures var a := Acquire(Some(s), name, s.universalPwd);
            && (a.Accepted? <==> name in s.byDisplayName)
            && (a.Accepted? ==> Bearers(s.upstreams, name) == {a.upstream.id} &&
                                a.upstream.row == s.upstreams[a.upstream.id])
  {
    assert IsIndexed(s.upstreams, s.byDisplayName, name);
    if name in s.byDisplayName {
      var id := s.byDisplayName[name].upstream.id;
      assert |Bearers(s.upstreams, name) - {id}| == 0;
      assert Bearers(s.upstreams, name) == {id};
    }
  }
}
