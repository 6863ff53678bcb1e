/** Routing snapshots (internal/routing/routing.go), credential resolution
    (internal/tunnel/tunnel.go, Acquire) and what each way of building a
    snapshot means. A cancel group is a number; a separate set records which
    groups have been cancelled. */
module Routing {
  import opened Prelude
  import opened Store

  datatype Upstream = Upstream(id: string, row: Row)

  /** One resolved user. upstreamId is "" when the user is unmapped; it may name
      a row that is gone, and upstream is then None. */
  datatype ResolvedUser = ResolvedUser(
    username: string, password: string,
    upstreamId: string, upstream: Option<Upstream>, upstreamPwd: string,
    broken: bool, group: nat)

  datatype Route = Route(upstream: Upstream, upstreamPwd: string, group: nat)

  /** The immutable snapshot readers hold. */
  datatype RoutingState = RoutingState(
    users: map<string, ResolvedUser>, upstreams: map<string, Row>,
    byDisplayName: map<string, Route>, universalPwd: string)

  // ----- Acquire --------------------------------------------------------------

  datatype Answer =
    | Accepted(upstream: Upstream, upstreamPwd: string, group: nat)
    | UnknownUser
    | BadPassword
    | BrokenMapping
    | NotHydrated

  function Acquire(state: Option<RoutingState>, username: string, password: string): Answer {
    match state
    case None => NotHydrated
    case Some(s) =>
      if username in s.users && s.users[username].password == password then
        var u := s.users[username];
        if u.broken || u.upstream.None? then BrokenMapping
        else Accepted(u.upstream.value, u.upstreamPwd, u.group)
      else if s.universalPwd != "" && s.universalPwd == password then
        if username in s.byDisplayName then
          var r := s.byDisplayName[username];
          Accepted(r.upstream, r.upstreamPwd, r.group)
        else UnknownUser
      else if username in s.users then BadPassword
      else UnknownUser
  }

  // ----- the display-name index ---------------------------------------------------

  function Bearers(rows: map<string, Row>, name: string): set<string> {
    set id | id in rows && rows[id].displayName == name
  }

  /** The upstream a display name routes to: its only bearer. */
  ghost function RouteOf(rows: map<string, Row>, name: string): (r: Option<Upstream>)
    ensures r.Some? ==> r.value.id in rows && r.value.row == rows[r.value.id] && r.value.row.displayName == name
  {
    if name != "" && |Bearers(rows, name)| == 1 then
      var id :| id in Bearers(rows, name);
      Some(Upstream(id, rows[id]))
    else None
  }

  ghost predicate IsIndex(rows: map<string, Row>, routes: map<string, Route>) {
    forall name :: IsIndexed(rows, routes, name)
  }

  ghost predicate IsIndexed(rows: map<string, Row>, routes: map<string, Route>, name: string) {
    && (name in routes <==> RouteOf(rows, name).Some?)
    && (name in routes ==>
          && routes[name].upstream == RouteOf(rows, name).value
          && routes[name].upstreamPwd == routes[name].upstream.row.endpoint.password)
  }

  // ----- building users -------------------------------------------------------------

  function Mapped(username: string, password: string, id: string, row: Row, broken: bool, group: nat): ResolvedUser {
    ResolvedUser(username, password, id, Some(Upstream(id, row)), row.endpoint.password, broken, group)
  }

  function Unmapped(username: string, password: string, id: string, group: nat): ResolvedUser {
    ResolvedUser(username, password, id, None, "", true, group)
  }

  /** A user as Hydrate reads it from its database row. */
  function HydratedUser(username: string, u: User, rows: map<string, Row>, group: nat): ResolvedUser {
    match u.upstreamId
    case Some(id) =>
      if id in rows then Mapped(username, u.password, id, rows[id], u.broken, group)
      else Unmapped(username, u.password, id, group)
    case None => Unmapped(username, u.password, "", group)
  }

  /** A user resolved again against fresh rows, keeping its id in memory. */
  function ReResolved(u: ResolvedUser, rows: map<string, Row>, group: nat): ResolvedUser {
    if u.upstreamId != "" && u.upstreamId in rows
    then Mapped(u.username, u.password, u.upstreamId, rows[u.upstreamId], false, group)
    else Unmapped(u.username, u.password, u.upstreamId, group)
  }

  /** Whether a rebuild gives the user a new group: after a sync, when the
      mapping turns broken; after an upstream edit, when it is the edited one. */
  predicate Rotates(u: ResolvedUser, rows: map<string, Row>, changed: Option<string>) {
    match changed
    case None => !u.broken && ReResolved(u, rows, u.group).broken
    case Some(id) => u.upstreamId == id
  }

  /** A user after SwapUserMapping; newId == "" unmaps. */
  function SwappedUser(u: ResolvedUser, newId: string, rows: map<string, Row>, group: nat): ResolvedUser
    requires newId == "" || newId in rows
  {
    if newId == "" then Unmapped(u.username, u.password, "", group)
    else Mapped(u.username, u.password, newId, rows[newId], false, group)
  }

  // ----- building snapshots --------------------------------------------------------------

  ghost predicate Hydrated(t: Tables, s: RoutingState) {
    && s.upstreams == t.upstreams && s.universalPwd == t.universalPwd
    && IsIndex(t.upstreams, s.byDisplayName)
    && s.users.Keys == t.users.Keys
    && forall u :: u in t.users ==> s.users[u] == HydratedUser(u, t.users[u], t.upstreams, s.users[u].group)
  }

  /** next is cur rebuilt from these rows, after a sync (changed is None) or an
      edit of one upstream. */
  ghost predicate Rebuilt(cur: RoutingState, rows: map<string, Row>, changed: Option<string>, next: RoutingState) {
    && next.upstreams == rows && next.universalPwd == cur.universalPwd
    && IsIndex(rows, next.byDisplayName)
    && next.users.Keys == cur.users.Keys
    && forall u :: u in cur.users ==> UserRebuilt(cur, rows, changed, next, u)
  }

  ghost predicate UserRebuilt(cur: RoutingState, rows: map<string, Row>, changed: Option<string>, next: RoutingState, u: string)
    requires u in cur.users
  {
    && u in next.users
    && next.users[u] == ReResolved(cur.users[u], rows, next.users[u].group)
    && (!Rotates(cur.users[u], rows, changed) ==> next.users[u].group == cur.users[u].group)
  }

  ghost predicate Remapped(cur: RoutingState, username: string, newId: string, next: RoutingState) {
    && username in cur.users && username in next.users
    && (newId == "" || newId in cur.upstreams)
    && next == cur.(users := cur.users[username :=
                 SwappedUser(cur.users[username], newId, cur.upstreams, next.users[username].group)])
  }

  // ----- well-formed snapshots ----------------------------------------------------------------

  /** The user resolves into the snapshot's own upstream map. */
  predicate UserSound(s: RoutingState, name: string)
    requires name in s.users
  {
    var u := s.users[name];
    && u.username == name
    && (!u.broken ==> u.upstream.Some?)
    && (u.upstream.Some? ==>
          && u.upstream.value.id == u.upstreamId && u.upstreamId in s.upstreams
          && u.upstream.value.row == s.upstreams[u.upstreamId]
          && u.upstreamPwd == s.upstreams[u.upstreamId].endpoint.password)
  }

  /** Every user and every route resolves into this snapshot. */
  ghost predicate Sound(s: RoutingState) {
    && (forall u :: u in s.users ==> UserSound(s, u))
    && IsIndex(s.upstreams, s.byDisplayName)
  }

  ghost predicate RoutesDistinct(routes: map<string, Route>) {
    forall m, n :: m in routes && n in routes && routes[m].group == routes[n].group ==> m == n
  }

  ghost predicate UsersDistinct(users: map<string, ResolvedUser>) {
    forall u, v :: u in users && v in users && users[u].group == users[v].group ==> u == v
  }

  /** No group serves two users, two routes, or a user and a route. */
  ghost predicate GroupsDistinct(s: RoutingState) {
    && UsersDistinct(s.users)
    && RoutesDistinct(s.byDisplayName)
    && (forall u, n :: u in s.users && n in s.byDisplayName ==> s.users[u].group != s.byDisplayName[n].group)
  }

  /** Every group of the snapshot was issued before `issued` and is live. */
  ghost predicate GroupsLive(s: RoutingState, issued: nat, cancelled: set<nat>) {
    && (forall u :: u in s.users ==> s.users[u].group < issued && s.users[u].group !in cancelled)
    && (forall n :: n in s.byDisplayName ==> s.byDisplayName[n].group < issued && s.byDisplayName[n].group !in cancelled)
  }

  ghost predicate StateOk(s: RoutingState, issued: nat, cancelled: set<nat>) {
    Sound(s) && GroupsDistinct(s) && GroupsLive(s, issued, cancelled)
  }

  /** Each group is new, numbered in [low, high), or the one the same user or
      the same display name had before. */
  ghost predicate FreshOrKept(cur: Option<RoutingState>, next: RoutingState, low: nat, high: nat) {
    && (forall u :: u in next.users ==>
          var g := next.users[u].group;
          g < high && (g >= low || (cur.Some? && u in cur.value.users && cur.value.users[u].group == g)))
    && (forall n :: n in next.byDisplayName ==>
          var g := next.byDisplayName[n].group;
          g < high && (g >= low || (cur.Some? && n in cur.value.byDisplayName && cur.value.byDisplayName[n].group == g)))
  }
}
