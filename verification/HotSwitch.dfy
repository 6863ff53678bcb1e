/** Connections against mapping changes, as a transition system. Goroutines are
    interleaved step by step: a connection acquires, registers and ends; a
    mapping change takes the lock, captures the current snapshot, reads the
    rows, swaps the pointer, cancels groups and sweeps the registry; commits and
    full rebuilds happen at any time; a holder that fails on storage lets go. The
    subjects are a manual-proxy edit or delete (commit, a rebuild, then
    CloseByUpstream) and a user's remap (SwapUserMapping with its sweep). */
module HotSwitch {
  import opened Prelude
  import opened Store
  import opened Routing
  import opened RoutingCore

  /** epoch is the index of the snapshot the connection acquired from. */
  datatype Conn = Conn(
    username: string, upstream: Upstream, group: nat, epoch: nat, registered: bool, cancelled: bool)

  datatype Phase = Committed | Rebuilding | Aborted | Draining | Drained | Finished

  /** An edit of upstream id. defs are the definitions committed for id from
      this edit on; before and after index the snapshot its rebuild captured and
      the one it installed; swept is what its final sweep found registered. A
      delete is an edit that leaves no row: it rebuilds as after a sync. */
  datatype Edit = Edit(
    id: string, defs: set<Row>, phase: Phase, before: nat, after: nat, swept: set<nat>, deletes: bool)

  /** A remap that has swapped the pointer. ids are the upstreams committed for
      the user from it on; before and after index the snapshots as in an edit;
      swept is what its sweep found registered under the old pair. */
  datatype Move = Move(username: string, oldId: string, ids: set<string>,
                       before: nat, after: nat, done: bool, swept: set<nat>)

  datatype Kind = ForEdit(e: nat) | AfterSync | Remap(username: string, newId: string)

  /** mappingChangeMu and the progress of its holder. */
  datatype Lock =
    | Free
    | Building(kind: Kind, cur: nat, rows: Option<map<string, Row>>)
    | Clearing(kind: Kind, groups: set<nat>, sweeps: set<(string, string)>)

  /** snaps lists every snapshot ever installed; the last one is current. */
  datatype World = World(
    t: Tables, snaps: seq<RoutingState>, lock: Lock, issued: nat, cancelled: set<nat>,
    conns: map<nat, Conn>, nextConn: nat, edits: map<nat, Edit>, moves: seq<Move>)

  predicate Cancelled(w: World, c: nat)
    requires c in w.conns
  {
    w.conns[c].cancelled || w.conns[c].group in w.cancelled
  }

  /** The groups a snapshot holds for users mapped to id. */
  function HeldFor(s: RoutingState, id: string): set<nat> {
    set u | u in s.users && s.users[u].upstreamId == id :: s.users[u].group
  }

  predicate Past(p: Phase) {
    p.Draining? || p.Drained? || p.Finished?
  }

  // ----- steps ------------------------------------------------------------------

  datatype Step =
    | DoAcquire(username: string, password: string)
    | DoRegister(c: nat)
    | DoEnd(c: nat)
    | DoCommit(t: Tables, edit: Option<(nat, string)>)
    | DoLock(kind: Kind)
    | DoRead
    | DoRemapCommit
    | DoAbort
    | DoSwap(next: RoutingState, issued: nat)
    | DoCancel(group: nat)
    | DoSweep(username: string, id: string)
    | DoRelease
    | DoFinalSweep(e: nat)
    | DoCloseUser(username: string)
    | DoHydrate(next: RoutingState, issued: nat)

  function Sweep(c: Conn, username: Option<string>, id: string): Conn {
    if c.registered && c.upstream.id == id && (username.None? || username.value == c.username)
    then c.(cancelled := true) else c
  }

  /** The registered connections a sweep on these criteria finds get cancelled. */
  function Swept(conns: map<nat, Conn>, username: Option<string>, id: string): map<nat, Conn> {
    map c | c in conns :: Sweep(conns[c], username, id)
  }

  /** CloseByUsername, which the deletion of a user calls. */
  function SweptUser(conns: map<nat, Conn>, username: string): map<nat, Conn> {
    map c | c in conns ::
      if conns[c].registered && conns[c].username == username then conns[c].(cancelled := true) else conns[c]
  }

  function RegisteredUnder(conns: map<nat, Conn>, id: string): set<nat> {
    set c | c in conns && conns[c].registered && conns[c].upstream.id == id
  }

  /** A commit adds the row's current definition to an edit's list. */
  function Note(ed: Edit, rows: map<string, Row>): Edit {
    if ed.id in rows then ed.(defs := ed.defs + {rows[ed.id]}) else ed
  }

  function Noted(edits: map<nat, Edit>, rows: map<string, Row>): map<nat, Edit> {
    map e | e in edits :: Note(edits[e], rows)
  }

  function Started(edits: map<nat, Edit>, edit: Option<(nat, string)>, rows: map<string, Row>): map<nat, Edit>
  {
    match edit
    case Some((e, id)) =>
      edits[e := Edit(id, if id in rows then {rows[id]} else {}, Committed, 0, 0, {}, id !in rows)]
    case None => edits
  }

  /** What an edit's rebuild rotates for: users mapped to the edited upstream, or
      after a delete those it leaves broken. */
  function ChangedBy(ed: Edit): Option<string> {
    if ed.deletes then None else Some(ed.id)
  }

  /** The snapshot a lock holder installs, built from what it captured. */
  ghost predicate BuiltFrom(w: World, kind: Kind, cur: RoutingState, rows: Option<map<string, Row>>, next: RoutingState) {
    match kind
    case ForEdit(e) => e in w.edits && rows.Some? && Rebuilt(cur, rows.value, ChangedBy(w.edits[e]), next)
    case AfterSync => rows.Some? && Rebuilt(cur, rows.value, None, next)
    case Remap(username, newId) =>
      rows.Some? && Remapped(cur, username, newId, next) && next.users[username].group >= w.issued
  }

  function RotatedUsers(cur: RoutingState, rows: map<string, Row>, changed: Option<string>): set<string> {
    set u | u in cur.users && Rotates(cur.users[u], rows, changed)
  }

  function OwedToRotated(kind: Kind, cur: RoutingState, rows: Option<map<string, Row>>): Lock {
    var us := RotatedUsers(cur, if rows.Some? then rows.value else map[], None);
    Clearing(kind, set u | u in us && u in cur.users :: cur.users[u].group,
                   set u | u in us && u in cur.users :: (u, cur.users[u].upstreamId))
  }

  /** The groups an edit's rebuild cancels, given the snapshot it captured and the
      rows it read. */
  function HeldOf(ed: Edit, before: RoutingState, rows: map<string, Row>): set<nat> {
    if ed.deletes then
      set u | u in RotatedUsers(before, rows, None) && u in before.users :: before.users[u].group
    else HeldFor(before, ed.id)
  }

  /** The cancels and registry sweeps still owed after the pointer swap.
      SwapUserMapping sweeps without cancelling the old group. */
  function Owed(w: World, kind: Kind, cur: RoutingState, rows: Option<map<string, Row>>): Lock {
    match kind
    case ForEdit(e) =>
      var id := if e in w.edits then w.edits[e].id else "";
      if e in w.edits && w.edits[e].deletes then OwedToRotated(kind, cur, rows)
      else Clearing(kind, HeldFor(cur, id), set u | u in cur.users && cur.users[u].upstreamId == id :: (u, id))
    case AfterSync => OwedToRotated(kind, cur, rows)
    case Remap(username, _) =>
      Clearing(kind, {}, if username in cur.users then {(username, cur.users[username].upstreamId)} else {})
  }

  function Advance(edits: map<nat, Edit>, kind: Kind, phase: Phase): map<nat, Edit> {
    if kind.ForEdit? && kind.e in edits then edits[kind.e := edits[kind.e].(phase := phase)] else edits
  }

  function Installed(edits: map<nat, Edit>, kind: Kind, before: nat, after: nat): map<nat, Edit> {
    if kind.ForEdit? && kind.e in edits
    then edits[kind.e := edits[kind.e].(phase := Draining, before := before, after := after)] else edits
  }

  /** The upstream the tables map the user to. */
  function CommittedId(t: Tables, username: string): set<string> {
    if username in t.users && t.users[username].upstreamId.Some? then {t.users[username].upstreamId.value} else {}
  }

  /** A commit adds the user's current mapping to a move's list. */
  function NoteMove(mv: Move, t: Tables): Move {
    mv.(ids := mv.ids + CommittedId(t, mv.username))
  }

  function NotedMoves(moves: seq<Move>, t: Tables): (r: seq<Move>)
    ensures |r| == |moves|
    ensures forall k :: 0 <= k < |moves| ==> r[k] == NoteMove(moves[k], t)
  {
    seq(|moves|, k requires 0 <= k < |moves| => NoteMove(moves[k], t))
  }

  /** The moves after a pointer swap: a remap becomes one. */
  function MovedBy(w: World, cur: RoutingState): seq<Move>
    requires w.lock.Building?
  {
    match w.lock.kind
    case Remap(username, newId) =>
      if username in cur.users then
        w.moves + [Move(username, cur.users[username].upstreamId, {newId} + CommittedId(w.t, username),
                        w.lock.cur, |w.snaps|, false, {})]
      else w.moves
    case _ => w.moves
  }

  /** The move under way is the last one. */
  function AtLast(moves: seq<Move>, kind: Kind, f: Move -> Move): seq<Move> {
    if kind.Remap? && moves != [] then moves[|moves| - 1 := f(moves[|moves| - 1])] else moves
  }

  function RegisteredAs(conns: map<nat, Conn>, username: string, id: string): set<nat> {
    set c | c in conns && conns[c].registered && conns[c].upstream.id == id && conns[c].username == username
  }

  function Now(w: World): RoutingState
    requires w.snaps != []
  {
    w.snaps[|w.snaps| - 1]
  }

  ghost predicate Acquires(w: World, username: string, password: string, w': World)
    requires w.snaps != []
  {
    var a := Acquire(Some(Now(w)), username, password);
    a.Accepted? &&
    w' == w.(conns := w.conns[w.nextConn := Conn(username, a.upstream, a.group, |w.snaps| - 1, false, false)],
             nextConn := w.nextConn + 1)
  }

  ghost predicate Registers(w: World, c: nat, w': World)
    requires w.snaps != []
  {
    c in w.conns && w' == w.(conns := w.conns[c := w.conns[c].(registered := true)])
  }

  ghost predicate Ends(w: World, c: nat, w': World)
    requires w.snaps != []
  {
    c in w.conns && w' == w.(conns := w.conns - {c})
  }

  ghost predicate Commits(w: World, t: Tables, edit: Option<(nat, string)>, w': World)
    requires w.snaps != []
  {
    && (edit.Some? ==> edit.value.0 !in w.edits && edit.value.1 != "")
    && w' == w.(t := t, edits := Started(Noted(w.edits, t.upstreams), edit, t.upstreams),
                moves := NotedMoves(w.moves, t))
  }

  ghost predicate TakesLock(w: World, kind: Kind, w': World)
    requires w.snaps != []
  {
    && w.lock.Free? && (kind.ForEdit? ==> kind.e in w.edits && w.edits[kind.e].phase.Committed?)
    && w' == w.(lock := Building(kind, |w.snaps| - 1, None), edits := Advance(w.edits, kind, Rebuilding))
  }

  ghost predicate ReadsRows(w: World, w': World)
    requires w.snaps != []
  {
    w.lock.Building? && !w.lock.kind.Remap? && w' == w.(lock := w.lock.(rows := Some(w.t.upstreams)))
  }

  ghost predicate CommitsRemap(w: World, w': World)
    requires w.snaps != []
  {
    && w.lock.Building? && w.lock.kind.Remap? && w.lock.rows.None? && w.lock.cur < |w.snaps|
    && var (username, newId, cur) := (w.lock.kind.username, w.lock.kind.newId, w.snaps[w.lock.cur]);
       && username in cur.users && (newId == "" || newId in cur.upstreams) && Mappable(w.t, username, newId)
       && var t := MapUser(w.t, username, newId);
          w' == w.(t := t, moves := NotedMoves(w.moves, t), lock := w.lock.(rows := Some(t.upstreams)))
  }

  ghost predicate Aborts(w: World, w': World)
    requires w.snaps != []
  {
    && w.lock.Building? && (w.lock.kind.Remap? ==> w.lock.rows.None?)
    && w' == w.(lock := Free, edits := Advance(w.edits, w.lock.kind, Aborted))
  }

  ghost predicate SwapsPointer(w: World, next: RoutingState, issued: nat, w': World)
    requires w.snaps != []
  {
    && w.lock.Building? && w.lock.cur < |w.snaps|
    && var cur := w.snaps[w.lock.cur];
       && BuiltFrom(w, w.lock.kind, cur, w.lock.rows, next)
       && GroupsDistinct(next) && FreshOrKept(Some(cur), next, w.issued, issued) && issued >= w.issued
       && w' == w.(snaps := w.snaps + [next], issued := issued,
                   lock := Owed(w, w.lock.kind, cur, w.lock.rows),
                   edits := Installed(w.edits, w.lock.kind, w.lock.cur, |w.snaps|),
                   moves := MovedBy(w, cur))
  }

  ghost predicate CancelsGroup(w: World, group: nat, w': World)
    requires w.snaps != []
  {
    && w.lock.Clearing? && group in w.lock.groups
    && w' == w.(cancelled := w.cancelled + {group}, lock := w.lock.(groups := w.lock.groups - {group}))
  }

  ghost predicate SweepsPair(w: World, username: string, id: string, w': World)
    requires w.snaps != []
  {
    && w.lock.Clearing? && (username, id) in w.lock.sweeps
    && w' == w.(conns := Swept(w.conns, Some(username), id), lock := w.lock.(sweeps := w.lock.sweeps - {(username, id)}),
                moves := AtLast(w.moves, w.lock.kind,
                                (mv: Move) => mv.(swept := RegisteredAs(w.conns, username, id))))
  }

  ghost predicate ReleasesLock(w: World, w': World)
    requires w.snaps != []
  {
    && w.lock.Clearing? && w.lock.groups == {} && w.lock.sweeps == {}
    && w' == w.(lock := Free, edits := Advance(w.edits, w.lock.kind, Drained),
                moves := AtLast(w.moves, w.lock.kind, (mv: Move) => mv.(done := true)))
  }

  ghost predicate SweepsUpstream(w: World, e: nat, w': World)
    requires w.snaps != []
  {
    && e in w.edits && w.edits[e].phase.Drained?
    && var id := w.edits[e].id;
       w' == w.(conns := Swept(w.conns, None, id),
                edits := w.edits[e := w.edits[e].(phase := Finished, swept := RegisteredUnder(w.conns, id))])
  }

  ghost predicate ClosesUser(w: World, username: string, w': World)
    requires w.snaps != []
  {
    w' == w.(conns := SweptUser(w.conns, username))
  }

  ghost predicate HydratesState(w: World, next: RoutingState, issued: nat, w': World)
    requires w.snaps != []
  {
    && Hydrated(w.t, next) && GroupsDistinct(next) && FreshOrKept(None, next, w.issued, issued) && issued >= w.issued
    && w' == w.(snaps := w.snaps + [next], issued := issued)
  }

  ghost predicate Next(w: World, step: Step, w': World)
    requires w.snaps != []
  {
    match step
    case DoAcquire(username, password) => Acquires(w, username, password, w')
    case DoRegister(c) => Registers(w, c, w')
    case DoEnd(c) => Ends(w, c, w')
    case DoCommit(t, edit) => Commits(w, t, edit, w')
    case DoLock(kind) => TakesLock(w, kind, w')
    case DoRead => ReadsRows(w, w')
    case DoRemapCommit => CommitsRemap(w, w')
    case DoAbort => Aborts(w, w')
    case DoSwap(next, issued) => SwapsPointer(w, next, issued, w')
    case DoCancel(group) => CancelsGroup(w, group, w')
    case DoSweep(username, id) => SweepsPair(w, username, id, w')
    case DoRelease => ReleasesLock(w, w')
    case DoFinalSweep(e) => SweepsUpstream(w, e, w')
    case DoCloseUser(username) => ClosesUser(w, username, w')
    case DoHydrate(next, issued) => HydratesState(w, next, issued, w')
  }

  ghost predicate Init(w: World) {
    && (exists s :: w.snaps == [s] && Hydrated(w.t, s) && GroupsDistinct(s) && FreshOrKept(None, s, 0, w.issued))
    && w.lock == Free && w.conns == map[] && w.edits == map[] && w.moves == []
    && w.cancelled == {} && w.nextConn == 0
  }

  ghost predicate IsRun(ws: seq<World>, steps: seq<Step>) {
    && |ws| == |steps| + 1 && Init(ws[0])
    && forall i :: 0 <= i < |steps| ==> ws[i].snaps != [] && Next(ws[i], steps[i], ws[i + 1])
  }

  // ----- what every state keeps -------------------------------------------------------

  /** Two snapshots agree on what a shared group serves. */
  ghost predicate SameOwners(a: RoutingState, b: RoutingState) {
    && (forall u, v :: u in a.users && v in b.users && a.users[u].group == b.users[v].group ==>
          a.users[u].upstreamId == b.users[v].upstreamId)
    && (forall u, n :: u in a.users && n in b.byDisplayName ==> a.users[u].group != b.byDisplayName[n].group)
    && (forall u, n :: u in b.users && n in a.byDisplayName ==> b.users[u].group != a.byDisplayName[n].group)
  }

  ghost predicate SnapOk(w: World, i: nat)
    requires i < |w.snaps|
  {
    var s := w.snaps[i];
    && Sound(s) && GroupsDistinct(s)
    && (forall u :: u in s.users ==> s.users[u].group < w.issued)
    && (forall n :: n in s.byDisplayName ==> s.byDisplayName[n].group < w.issued)
  }

  ghost predicate SnapsOk(w: World) {
    && w.snaps != []
    && (forall i :: 0 <= i < |w.snaps| ==> SnapOk(w, i))
    && (forall i, j :: 0 <= i < |w.snaps| && 0 <= j < |w.snaps| ==> SameOwners(w.snaps[i], w.snaps[j]))
    && (w.lock.Building? ==> w.lock.cur < |w.snaps|)
  }

  /** The row these upstreams hold for the edit is one committed since it. */
  predicate RowOk(ed: Edit, rows: map<string, Row>) {
    ed.id in rows ==> rows[ed.id] in ed.defs
  }

  function Pending(w: World, e: nat): set<nat> {
    if w.lock.Clearing? && w.lock.kind == ForEdit(e) then w.lock.groups else {}
  }

  ghost predicate EditOk(w: World, e: nat)
    requires e in w.edits
  {
    var ed := w.edits[e];
    && ed.id != "" && RowOk(ed, w.t.upstreams)
    && (ed.phase.Rebuilding? <==> w.lock.Building? && w.lock.kind == ForEdit(e))
    && (ed.phase.Draining? <==> w.lock.Clearing? && w.lock.kind == ForEdit(e))
    && (ed.phase.Rebuilding? && w.lock.rows.Some? ==> RowOk(ed, w.lock.rows.value))
    && (Past(ed.phase) ==> PastOk(w, e))
    && (ed.phase.Finished? ==> SweptOk(w, ed))
  }

  ghost predicate PastOk(w: World, e: nat)
    requires e in w.edits
  {
    var ed := w.edits[e];
    && ed.before < ed.after < |w.snaps|
    && (forall i :: ed.after <= i < |w.snaps| ==> RowOk(ed, w.snaps[i].upstreams))
    && (w.lock.Building? ==> ed.after <= w.lock.cur && (w.lock.rows.Some? ==> RowOk(ed, w.lock.rows.value)))
    && HeldOf(ed, w.snaps[ed.before], w.snaps[ed.after].upstreams) <= w.cancelled + Pending(w, e)
  }

  ghost predicate SweptOk(w: World, ed: Edit) {
    forall c :: c in ed.swept ==> c < w.nextConn && (c in w.conns ==> w.conns[c].cancelled)
  }

  /** The connection is what Acquire granted in the snapshot it came from: as a
      user, or by display name. */
  predicate CameFrom(c: Conn, s: RoutingState) {
    || (c.username in s.users && !s.users[c.username].broken &&
        s.users[c.username].upstream == Some(c.upstream) && s.users[c.username].group == c.group)
    || (c.username in s.byDisplayName && s.byDisplayName[c.username].upstream == c.upstream &&
        s.byDisplayName[c.username].group == c.group)
  }

  predicate ConnOk(w: World, c: nat)
    requires c in w.conns
  {
    c < w.nextConn && w.conns[c].epoch < |w.snaps| && CameFrom(w.conns[c], w.snaps[w.conns[c].epoch])
  }

  ghost predicate Inv(w: World) {
    && SnapsOk(w)
    && (forall e :: e in w.edits ==> EditOk(w, e))
    && (forall c :: c in w.conns ==> ConnOk(w, c))
  }

  // ----- snapshots ---------------------------------------------------------------------

  lemma HydratedIsSound(t: Tables, s: RoutingState)
    requires Hydrated(t, s)
    ensures Sound(s)
  {
  }

  lemma BuiltIsSound(w: World, kind: Kind, cur: RoutingState, rows: Option<map<string, Row>>, next: RoutingState)
    requires Sound(cur) && BuiltFrom(w, kind, cur, rows, next)
    ensures Sound(next)
  {
    forall u | u in next.users ensures UserSound(next, u) {
      assert u in cur.users && UserSound(cur, u);
      match kind
      case ForEdit(e) => assert UserRebuilt(cur, rows.value, ChangedBy(w.edits[e]), next, u);
      case AfterSync => assert UserRebuilt(cur, rows.value, None, next, u);
      case Remap(_, _) =>
    }
  }

  /** A group a user keeps still serves the same upstream id. */
  lemma KeptGroupsKeepTheirId(w: World, kind: Kind, cur: RoutingState, rows: Option<map<string, Row>>, next: RoutingState, u: string)
    requires BuiltFrom(w, kind, cur, rows, next) && u in next.users && u in cur.users
    requires next.users[u].group < w.issued
    ensures next.users[u].upstreamId == cur.users[u].upstreamId
  {
    match kind
    case ForEdit(e) => assert UserRebuilt(cur, rows.value, ChangedBy(w.edits[e]), next, u);
    case AfterSync => assert UserRebuilt(cur, rows.value, None, next, u);
    case Remap(_, _) =>
  }

  /** A snapshot with the given sources of groups agrees with every older one. */
  lemma NewSnapshotAgrees(old_: RoutingState, cur: Option<RoutingState>, next: RoutingState, low: nat, high: nat)
    requires FreshOrKept(cur, next, low, high)
    requires forall u :: u in old_.users ==> old_.users[u].group < low
    requires forall n :: n in old_.byDisplayName ==> old_.byDisplayName[n].group < low
    requires cur.Some? ==> SameOwners(old_, cur.value)
    requires cur.Some? ==> forall u :: u in next.users && u in cur.value.users && next.users[u].group < low ==>
                             next.users[u].upstreamId == cur.value.users[u].upstreamId
    ensures SameOwners(old_, next) && SameOwners(next, old_)
  {
  }

  lemma AddSnapshot(w: World, cur: Option<RoutingState>, next: RoutingState, w': World)
    requires SnapsOk(w) && w'.snaps == w.snaps + [next] && w'.issued >= w.issued
    requires !w'.lock.Building? || w'.lock == w.lock
    requires Sound(next) && GroupsDistinct(next) && FreshOrKept(cur, next, w.issued, w'.issued)
    requires cur.Some? ==> exists k :: 0 <= k < |w.snaps| && w.snaps[k] == cur.value
    requires cur.Some? ==> forall u :: u in next.users && u in cur.value.users && next.users[u].group < w.issued ==>
                             next.users[u].upstreamId == cur.value.users[u].upstreamId
    ensures SnapsOk(w')
  {
    var n := |w.snaps|;
    forall i | 0 <= i < n ensures SnapOk(w', i) && SameOwners(w.snaps[i], next) && SameOwners(next, w.snaps[i]) {
      assert SnapOk(w, i) && w'.snaps[i] == w.snaps[i];
      if cur.Some? {
        var k :| 0 <= k < n && w.snaps[k] == cur.value;
        assert SameOwners(w.snaps[i], w.snaps[k]);
      }
      NewSnapshotAgrees(w.snaps[i], cur, next, w.issued, w'.issued);
    }
    assert w'.snaps[n] == next;
    if cur.Some? {
      var k :| 0 <= k < n && w.snaps[k] == cur.value;
      assert SnapOk(w, k);
    }
    assert SnapOk(w', n);
    forall i, j | 0 <= i <= n && 0 <= j <= n ensures SameOwners(w'.snaps[i], w'.snaps[j]) {
      if i < n && j < n {
        assert SameOwners(w.snaps[i], w.snaps[j]);
      }
    }
  }

  lemma SwapKeepsSnaps(w: World, next: RoutingState, issued: nat, w': World)
    requires SnapsOk(w) && SwapsPointer(w, next, issued, w')
    ensures SnapsOk(w')
  {
    hide SameOwners, Rebuilt, Remapped, FreshOrKept, GroupsDistinct, SnapsOk, SnapOk, Installed, MovedBy;
    var cur := w.snaps[w.lock.cur];
    SnapIsOk(w, w.lock.cur);
    BuiltIsSound(w, w.lock.kind, cur, w.lock.rows, next);
    forall u | u in next.users && u in cur.users && next.users[u].group < w.issued
      ensures next.users[u].upstreamId == cur.users[u].upstreamId
    {
      KeptGroupsKeepTheirId(w, w.lock.kind, cur, w.lock.rows, next, u);
    }
    AddSnapshot(w, Some(cur), next, w');
  }

  lemma SnapIsOk(w: World, i: nat)
    requires SnapsOk(w) && i < |w.snaps|
    ensures Sound(w.snaps[i]) && SnapOk(w, i)
  {
    assert SnapOk(w, i);
  }

  lemma SameSnapsStayOk(w: World, w': World)
    requires SnapsOk(w) && w'.snaps == w.snaps && w'.issued == w.issued
    requires w'.lock.Building? ==> w'.lock.cur < |w.snaps|
    ensures SnapsOk(w')
  {
    hide SameOwners, Sound, GroupsDistinct;
    assert forall i :: 0 <= i < |w.snaps| ==> (SnapOk(w, i) <==> SnapOk(w', i));
  }

  lemma NextKeepsSnaps(w: World, step: Step, w': World)
    requires SnapsOk(w) && Next(w, step, w')
    ensures SnapsOk(w')
  {
    hide SameOwners, Sound, SnapOk, Rebuilt, Remapped, FreshOrKept, GroupsDistinct, Acquire, Mappable, MapUser,
      NotedMoves, MovedBy, AtLast, Noted, Started, Swept, BuiltFrom, Owed, Installed, Hydrated, SwapsPointer;
    match step
    case DoSwap(next, issued) => SwapKeepsSnaps(w, next, issued, w');
    case DoHydrate(next, issued) =>
      HydratedIsSound(w.t, next);
      AddSnapshot(w, None, next, w');
    case _ => SameSnapsStayOk(w, w');
  }

  // ----- edits --------------------------------------------------------------------------

  lemma SweepKeepsSwept(w: World, w': World, ed: Edit, username: Option<string>, id: string)
    requires SweptOk(w, ed) && w'.conns == Swept(w.conns, username, id) && w'.nextConn == w.nextConn
    ensures SweptOk(w', ed)
  {
  }

  lemma ConnStepKeepsEdit(w: World, step: Step, w': World, e: nat)
    requires w.snaps != [] && e in w.edits && EditOk(w, e) && Next(w, step, w')
    requires step.DoAcquire? || step.DoRegister? || step.DoEnd?
    ensures EditOk(w', e)
  {
    assert Past(w.edits[e].phase) ==> PastOk(w', e);
  }

  lemma CommitKeepsEdit(w: World, t: Tables, edit: Option<(nat, string)>, w': World, e: nat)
    requires w.snaps != [] && (forall x :: x in w.edits ==> EditOk(w, x)) && Next(w, DoCommit(t, edit), w')
    requires e in w'.edits && (w.lock.Building? || w.lock.Clearing? ==> w.lock.kind.ForEdit? ==> w.lock.kind.e in w.edits)
    ensures EditOk(w', e)
  {
    hide NotedMoves, PastOk, SweptOk;
    if e in w.edits {
      assert w'.edits[e] == Note(w.edits[e], t.upstreams) && EditOk(w, e);
      NotedStaysPast(w, t, w', e);
    }
  }

  lemma NotedStaysPast(w: World, t: Tables, w': World, e: nat)
    requires e in w.edits && e in w'.edits && w'.edits[e] == Note(w.edits[e], t.upstreams)
    requires w'.snaps == w.snaps && w'.lock == w.lock && w'.cancelled == w.cancelled
    requires w'.conns == w.conns && w'.nextConn == w.nextConn
    ensures Past(w.edits[e].phase) && PastOk(w, e) ==> PastOk(w', e)
    ensures SweptOk(w, w.edits[e]) ==> SweptOk(w', w'.edits[e])
  {
    var ed := w.edits[e];
    if Past(ed.phase) && PastOk(w, e) {
      var before, rows := w.snaps[ed.before], w.snaps[ed.after].upstreams;
      assert HeldOf(w'.edits[e], before, rows) == HeldOf(ed, before, rows);
    }
  }

  lemma LockStepKeepsEdit(w: World, step: Step, w': World, e: nat)
    requires SnapsOk(w) && e in w.edits && EditOk(w, e) && Next(w, step, w')
    requires step.DoLock? || step.DoRead? || step.DoRemapCommit? || step.DoAbort? || step.DoCancel? || step.DoRelease?
    ensures e in w'.edits && EditOk(w', e)
  {
    hide Rebuilt, Remapped, Sound, GroupsDistinct, FreshOrKept, SameOwners, Acquire, Hydrated, Mappable,
      NotedMoves, MovedBy, AtLast, Noted, Started, Swept, SweptUser, RegisteredUnder, BuiltFrom, Owed, Installed, HeldFor, RotatedUsers, UserSound;
    assert Past(w.edits[e].phase) ==> PastOk(w', e);
  }

  lemma SweepStepKeepsEdit(w: World, step: Step, w': World, e: nat)
    requires w.snaps != [] && e in w.edits && EditOk(w, e) && Next(w, step, w')
    requires step.DoSweep? || step.DoFinalSweep? || step.DoCloseUser?
    requires forall c :: c in w.conns ==> c < w.nextConn
    ensures e in w'.edits && EditOk(w', e)
  {
    hide Rebuilt, Remapped, Sound, GroupsDistinct, FreshOrKept, SameOwners, Acquire, Hydrated, Mappable, MapUser,
      NotedMoves, MovedBy, AtLast, Noted, Started, BuiltFrom, Owed, Installed, HeldFor, RotatedUsers;
    var ed := w.edits[e];
    assert Past(ed.phase) ==> PastOk(w', e);
    if ed.phase.Finished? {
      match step
      case DoSweep(username, id) => SweepKeepsSwept(w, w', ed, Some(username), id);
      case DoFinalSweep(f) => SweepKeepsSwept(w, w', ed, None, w.edits[f].id);
      case DoCloseUser(_) =>
    }
  }

  lemma HydrateKeepsEdit(w: World, next: RoutingState, issued: nat, w': World, e: nat)
    requires w.snaps != [] && e in w.edits && EditOk(w, e) && Next(w, DoHydrate(next, issued), w')
    ensures EditOk(w', e)
  {
    var ed := w.edits[e];
    if Past(ed.phase) {
      forall i | ed.after <= i < |w'.snaps| ensures RowOk(ed, w'.snaps[i].upstreams) {
        assert i < |w.snaps| ==> w'.snaps[i] == w.snaps[i];
      }
      assert PastOk(w', e);
    }
  }

  /** The upstreams a lock holder installs are those it read, or captured. */
  lemma BuiltRows(w: World, kind: Kind, cur: RoutingState, rows: Option<map<string, Row>>, next: RoutingState)
    requires BuiltFrom(w, kind, cur, rows, next)
    ensures rows.Some? && next.upstreams == if kind.Remap? then cur.upstreams else rows.value
  {
  }

  lemma SwapKeepsEdit(w: World, next: RoutingState, issued: nat, w': World, e: nat)
    requires SnapsOk(w) && e in w.edits && EditOk(w, e) && Next(w, DoSwap(next, issued), w')
    ensures e in w'.edits && EditOk(w', e)
  {
    hide Rebuilt, Remapped, Sound, GroupsDistinct, FreshOrKept, SameOwners, SnapOk, Acquire, Hydrated, Mappable, MapUser,
      NotedMoves, MovedBy, AtLast, Noted, Started, Swept, SweptUser, RegisteredUnder;
    var ed, cur := w.edits[e], w.snaps[w.lock.cur];
    BuiltRows(w, w.lock.kind, cur, w.lock.rows, next);
    if Past(ed.phase) {
      forall i | ed.after <= i < |w'.snaps| ensures RowOk(ed, w'.snaps[i].upstreams) {
        assert i < |w.snaps| ==> w'.snaps[i] == w.snaps[i];
      }
      assert w'.snaps[ed.before] == w.snaps[ed.before];
      assert PastOk(w', e);
    } else if w.lock.kind == ForEdit(e) {
      assert w'.snaps[w.lock.cur] == cur;
      assert PastOk(w', e);
    }
  }

  /** Nobody but a known edit's rebuild holds the lock in an edit's name. */
  ghost predicate HolderKnown(w: World) {
    !w.lock.Free? && w.lock.kind.ForEdit? ==> w.lock.kind.e in w.edits
  }

  lemma NextKeepsHolder(w: World, step: Step, w': World)
    requires w.snaps != [] && HolderKnown(w) && Next(w, step, w')
    ensures HolderKnown(w')
  {
  }

  lemma NextKeepsEdit(w: World, step: Step, w': World, e: nat)
    requires Inv(w) && HolderKnown(w) && Next(w, step, w') && e in w'.edits
    ensures EditOk(w', e)
  {
    hide Rebuilt, Remapped, Sound, GroupsDistinct, FreshOrKept, SameOwners, Acquire, Hydrated, Mappable, MapUser,
      NotedMoves, MovedBy, AtLast, Noted, Swept, SweptUser, BuiltFrom, Owed, HeldOf, EditOk, ConnOk, SnapOk;
    match step
    case DoAcquire(_, _) => ConnStepKeepsEdit(w, step, w', e);
    case DoRegister(_) => ConnStepKeepsEdit(w, step, w', e);
    case DoEnd(_) => ConnStepKeepsEdit(w, step, w', e);
    case DoCommit(t, edit) => CommitKeepsEdit(w, t, edit, w', e);
    case DoLock(_) => LockStepKeepsEdit(w, step, w', e);
    case DoRead => LockStepKeepsEdit(w, step, w', e);
    case DoRemapCommit => LockStepKeepsEdit(w, step, w', e);
    case DoAbort => LockStepKeepsEdit(w, step, w', e);
    case DoCancel(_) => LockStepKeepsEdit(w, step, w', e);
    case DoRelease => LockStepKeepsEdit(w, step, w', e);
    case DoSwap(next, issued) => SwapKeepsEdit(w, next, issued, w', e);
    case DoHydrate(next, issued) => HydrateKeepsEdit(w, next, issued, w', e);
    case DoSweep(_, _) => ConnIdsKnown(w); SweepStepKeepsEdit(w, step, w', e);
    case DoFinalSweep(_) => ConnIdsKnown(w); SweepStepKeepsEdit(w, step, w', e);
    case DoCloseUser(_) => ConnIdsKnown(w); SweepStepKeepsEdit(w, step, w', e);
  }

  lemma ConnIdsKnown(w: World)
    requires forall c :: c in w.conns ==> ConnOk(w, c)
    ensures forall c :: c in w.conns ==> c < w.nextConn
  {
    forall c | c in w.conns ensures c < w.nextConn {
      assert ConnOk(w, c);
    }
  }

  // ----- connections -----------------------------------------------------------------------

  /** Steps keep who a connection is and where it came from, and the snapshots. */
  lemma NextKeepsOrigins(w: World, step: Step, w': World)
    requires w.snaps != [] && Next(w, step, w') && !step.DoAcquire?
    ensures w.snaps <= w'.snaps && w'.nextConn == w.nextConn
    ensures forall c :: c in w'.conns ==>
              && c in w.conns
              && w'.conns[c].(registered := w.conns[c].registered, cancelled := w.conns[c].cancelled) == w.conns[c]
  {
    hide Mappable, MapUser, NotedMoves, MovedBy, AtLast, Noted, Started, BuiltFrom, Owed, Installed, Advance,
      GroupsDistinct, FreshOrKept, Hydrated;
  }

  lemma AcquireComesFrom(w: World, username: string, password: string, w': World, c: nat)
    requires w.snaps != [] && Acquires(w, username, password, w') && c in w'.conns
    requires c in w.conns ==> ConnOk(w, c)
    ensures ConnOk(w', c)
  {
  }

  lemma SameOrigin(c: Conn, c': Conn, s: RoutingState)
    requires c'.(registered := c.registered, cancelled := c.cancelled) == c && CameFrom(c, s)
    ensures CameFrom(c', s)
  {
  }

  lemma NextKeepsConn(w: World, step: Step, w': World, c: nat)
    requires w.snaps != [] && Next(w, step, w') && c in w'.conns
    requires forall x :: x in w.conns ==> ConnOk(w, x)
    ensures ConnOk(w', c)
  {
    if step.DoAcquire? {
      hide ConnOk;
      AcquireComesFrom(w, step.username, step.password, w', c);
    } else {
      hide Next, CameFrom;
      NextKeepsOrigins(w, step, w');
      assert ConnOk(w, c);
      SameOrigin(w.conns[c], w'.conns[c], w.snaps[w.conns[c].epoch]);
    }
  }

  lemma InitKeepsInv(w: World)
    requires Init(w)
    ensures Inv(w) && HolderKnown(w)
  {
    hide Hydrated, Sound;
    var s :| w.snaps == [s] && Hydrated(w.t, s) && GroupsDistinct(s) && FreshOrKept(None, s, 0, w.issued);
    HydratedIsSound(w.t, s);
    assert SnapOk(w, 0);
  }

  lemma NextKeepsInv(w: World, step: Step, w': World)
    requires Inv(w) && HolderKnown(w) && Next(w, step, w')
    ensures Inv(w') && HolderKnown(w')
  {
    hide Next, HolderKnown, EditOk, ConnOk, SnapOk, SameOwners;
    NextKeepsSnaps(w, step, w');
    NextKeepsHolder(w, step, w');
    forall e | e in w'.edits ensures EditOk(w', e) {
      NextKeepsEdit(w, step, w', e);
    }
    forall c | c in w'.conns ensures ConnOk(w', c) {
      NextKeepsConn(w, step, w', c);
    }
  }

  lemma {:induction false} EveryRunKeepsInv(ws: seq<World>, steps: seq<Step>, i: nat)
    requires IsRun(ws, steps) && i <= |steps|
    ensures Inv(ws[i]) && HolderKnown(ws[i])
  {
    hide Init, Next, HolderKnown, Inv;
    if i == 0 {
      InitKeepsInv(ws[0]);
    } else {
      EveryRunKeepsInv(ws, steps, i - 1);
      assert Next(ws[i - 1], steps[i - 1], ws[i]);
      NextKeepsInv(ws[i - 1], steps[i - 1], ws[i]);
    }
  }

  // ----- the hot switch --------------------------------------------------------------------

  /** In every interleaving, from the moment an edit's rebuild has swapped the
      pointer, whoever acquires the edited upstream gets a definition committed
      by this edit or after it. */
  lemma LaterAcquiresSeeTheEdit(ws: seq<World>, steps: seq<Step>, i: nat, e: nat, c: nat)
    requires IsRun(ws, steps) && i <= |steps|
    requires e in ws[i].edits && Past(ws[i].edits[e].phase) && c in ws[i].conns
    requires ws[i].conns[c].upstream.id == ws[i].edits[e].id && ws[i].conns[c].epoch >= ws[i].edits[e].after
    ensures ws[i].conns[c].upstream.row in ws[i].edits[e].defs
  {
    var w := ws[i];
    EveryRunKeepsInv(ws, steps, i);
    var ed, conn := w.edits[e], w.conns[c];
    assert EditOk(w, e) && PastOk(w, e) && ConnOk(w, c) && SnapOk(w, conn.epoch);
    var s := w.snaps[conn.epoch];
    assert RowOk(ed, s.upstreams);
    CameFromRow(conn, s);
  }

  /** So after a delete nobody acquires the upstream until it is committed again. */
  lemma NobodyAcquiresTheDeleted(ws: seq<World>, steps: seq<Step>, i: nat, e: nat, c: nat)
    requires IsRun(ws, steps) && i <= |steps|
    requires e in ws[i].edits && Past(ws[i].edits[e].phase) && c in ws[i].conns
    requires ws[i].edits[e].defs == {} && ws[i].conns[c].epoch >= ws[i].edits[e].after
    ensures ws[i].conns[c].upstream.id != ws[i].edits[e].id
  {
    if ws[i].conns[c].upstream.id == ws[i].edits[e].id {
      LaterAcquiresSeeTheEdit(ws, steps, i, e, c);
    }
  }

  lemma CameFromRow(c: Conn, s: RoutingState)
    requires Sound(s) && CameFrom(c, s)
    ensures c.upstream.id in s.upstreams && c.upstream.row == s.upstreams[c.upstream.id]
  {
    if c.username in s.users && s.users[c.username].upstream == Some(c.upstream) {
      assert UserSound(s, c.username);
    } else {
      assert IsIndexed(s.upstreams, s.byDisplayName, c.username);
    }
  }

  /** The connection's group serves a display name. */
  predicate ByDisplayName(w: World, conn: Conn)
    requires conn.epoch < |w.snaps|
  {
    var s := w.snaps[conn.epoch];
    conn.username in s.byDisplayName && s.byDisplayName[conn.username].group == conn.group
  }

  /** No user of the snapshot the rebuild captured holds the group. */
  predicate Orphaned(before: RoutingState, group: nat) {
    forall u :: u in before.users ==> before.users[u].group != group
  }

  lemma SweptOrHeldIsCancelled(w: World, e: nat, c: nat)
    requires e in w.edits && c in w.conns && EditOk(w, e) && w.edits[e].phase.Finished?
    ensures var ed := w.edits[e];
            && ed.before < |w.snaps| && ed.after < |w.snaps|
            && (c in ed.swept ==> Cancelled(w, c))
            && (w.conns[c].group in HeldOf(ed, w.snaps[ed.before], w.snaps[ed.after].upstreams) ==> Cancelled(w, c))
  {
    var ed := w.edits[e];
    assert PastOk(w, e) && SweptOk(w, ed);
    assert Pending(w, e) == {};
  }

  /** A user of the captured snapshot holds the group and a delete's rebuild leaves
      it alone: that user was broken already, or the row was back. */
  predicate PassedOver(ed: Edit, before: RoutingState, rows: map<string, Row>, group: nat) {
    ed.deletes &&
    exists u :: u in before.users && before.users[u].group == group && !Rotates(before.users[u], rows, None)
  }

  /** A user's group is orphaned in a snapshot unless that snapshot holds it for
      a user mapped to the same upstream. */
  lemma HeldOrOrphaned(s: RoutingState, before: RoutingState, conn: Conn, ed: Edit, rows: map<string, Row>)
    requires Sound(s) && SameOwners(s, before) && ed.id == conn.upstream.id
    requires conn.username in s.users && s.users[conn.username].upstream == Some(conn.upstream)
    requires s.users[conn.username].group == conn.group
    ensures conn.group in HeldOf(ed, before, rows) || Orphaned(before, conn.group) || PassedOver(ed, before, rows, conn.group)
  {
    assert UserSound(s, conn.username);
    if u :| u in before.users && before.users[u].group == conn.group {
      assert before.users[u].upstreamId == conn.upstream.id;
    }
  }

  /** Once an edit's or a delete's rebuild and sweeps are done, a connection to
      that upstream acquired before the swap is cancelled if it was registered when
      the final sweep ran, or carries a group the rebuild owed a cancel. So the only
      ones that can escape were still unregistered at the sweep and carry an
      orphaned or display-name group, or, after a delete, one passed over. */
  lemma FinishedEditLeavesOnlyOrphans(ws: seq<World>, steps: seq<Step>, i: nat, e: nat, c: nat)
    requires IsRun(ws, steps) && i <= |steps|
    requires e in ws[i].edits && ws[i].edits[e].phase.Finished? && c in ws[i].conns
    requires ws[i].conns[c].upstream.id == ws[i].edits[e].id && ws[i].conns[c].epoch < ws[i].edits[e].after
    ensures var w, ed, conn := ws[i], ws[i].edits[e], ws[i].conns[c];
            && ed.before < |w.snaps| && ed.after < |w.snaps| && conn.epoch < |w.snaps|
            && (c in ed.swept ==> Cancelled(w, c))
            && (conn.group in HeldOf(ed, w.snaps[ed.before], w.snaps[ed.after].upstreams) ==> Cancelled(w, c))
            && (!Cancelled(w, c) ==>
                  && c !in ed.swept
                  && (|| ByDisplayName(w, conn) || Orphaned(w.snaps[ed.before], conn.group)
                      || PassedOver(ed, w.snaps[ed.before], w.snaps[ed.after].upstreams, conn.group)))
  {
    var w := ws[i];
    EveryRunKeepsInv(ws, steps, i);
    var ed, conn := w.edits[e], w.conns[c];
    assert EditOk(w, e) && ConnOk(w, c);
    SweptOrHeldIsCancelled(w, e, c);
    if !ByDisplayName(w, conn) {
      assert SnapOk(w, conn.epoch) && SameOwners(w.snaps[conn.epoch], w.snaps[ed.before]);
      HeldOrOrphaned(w.snaps[conn.epoch], w.snaps[ed.before], conn, ed, w.snaps[ed.after].upstreams);
    }
  }

  /** Cancellation is for good: no step revives a connection. */
  lemma CancelledStays(w: World, step: Step, w': World, c: nat)
    requires w.snaps != [] && Next(w, step, w') && c in w.conns && c in w'.conns && c < w.nextConn
    requires Cancelled(w, c)
    ensures Cancelled(w', c)
  {
  }

  // ----- the exception is real -----------------------------------------------------------

  function OneRow(id: string, row: Row): map<string, Row> {
    map[id := row]
  }

  function OneRoute(id: string, row: Row, group: nat): RoutingState {
    RoutingState(map[], OneRow(id, row),
                 map[row.displayName := Route(Upstream(id, row), row.endpoint.password, group)], "secret")
  }

  lemma OneRouteIsIndexed(id: string, row: Row, group: nat)
    requires row.displayName != ""
    ensures IsIndex(OneRow(id, row), OneRoute(id, row, group).byDisplayName)
  {
    var rows, routes := OneRow(id, row), OneRoute(id, row, group).byDisplayName;
    forall name ensures IsIndexed(rows, routes, name) {
      if name == row.displayName {
        assert Bearers(rows, name) == {id};
      } else {
        assert Bearers(rows, name) == {};
      }
    }
  }

  function ManualRow(host: string): Row {
    Row(Manual, None, Endpoint(host, 1080, "u", "p"), "socks5", "home", "", "", 0)
  }

  function OneTable(row: Row): Tables {
    Tables(OneRow("m", row), map[], map[], "secret")
  }

  /** The eight steps: acquire by display name, commit the edit, rebuild, sweep,
      and only then register. */
  function EscapeSteps(): seq<Step> {
    [DoAcquire("home", "secret"), DoCommit(OneTable(ManualRow("new")), Some((0, "m"))), DoLock(ForEdit(0)), DoRead,
     DoSwap(OneRoute("m", ManualRow("new"), 1), 2), DoRelease, DoFinalSweep(0), DoRegister(0)]
  }

  /** The worlds those steps pass through. */
  function EscapeWorlds(): seq<World> {
    var old_, new_ := ManualRow("old"), ManualRow("new");
    var s0, s1 := OneRoute("m", old_, 0), OneRoute("m", new_, 1);
    var c := Conn("home", Upstream("m", old_), 0, 0, false, false);
    var e := Edit("m", {new_}, Committed, 0, 0, {}, false);
    var w0 := World(OneTable(old_), [s0], Free, 1, {}, map[], 0, map[], []);
    var w1 := w0.(conns := map[0 := c], nextConn := 1);
    var w2 := w1.(t := OneTable(new_), edits := map[0 := e]);
    var w3 := w2.(lock := Building(ForEdit(0), 0, None), edits := map[0 := e.(phase := Rebuilding)]);
    var w4 := w3.(lock := Building(ForEdit(0), 0, Some(OneRow("m", new_))));
    var w5 := w4.(snaps := [s0, s1], issued := 2, lock := Clearing(ForEdit(0), {}, {}),
                  edits := map[0 := e.(phase := Draining, after := 1)]);
    var w6 := w5.(lock := Free, edits := map[0 := e.(phase := Drained, after := 1)]);
    var w7 := w6.(edits := map[0 := e.(phase := Finished, after := 1)]);
    [w0, w1, w2, w3, w4, w5, w6, w7, w7.(conns := map[0 := c.(registered := true)])]
  }

  lemma EscapeCommits()
    ensures var ws, steps := EscapeWorlds(), EscapeSteps();
            Next(ws[1], steps[1], ws[2])
  {
  }

  lemma OneRouteHydrates(row: Row)
    requires row.displayName != ""
    ensures var s := OneRoute("m", row, 0);
            Hydrated(OneTable(row), s) && GroupsDistinct(s) && FreshOrKept(None, s, 0, 1)
  {
    OneRouteIsIndexed("m", row, 0);
  }

  lemma EscapeInit()
    ensures Init(EscapeWorlds()[0])
  {
    hide Hydrated, GroupsDistinct, FreshOrKept, OneRoute;
    OneRouteHydrates(ManualRow("old"));
  }

  lemma EscapeBegins()
    ensures var ws, steps := EscapeWorlds(), EscapeSteps();
            Next(ws[0], steps[0], ws[1])
  {
  }

  lemma EscapeLocks()
    ensures var ws, steps := EscapeWorlds(), EscapeSteps();
            Next(ws[2], steps[2], ws[3]) && Next(ws[3], steps[3], ws[4])
  {
  }

  lemma EscapeReleases()
    ensures var ws, steps := EscapeWorlds(), EscapeSteps();
            Next(ws[5], steps[5], ws[6])
  {
  }

  lemma EscapeIsBuilt()
    ensures var w, next := EscapeWorlds()[4], OneRoute("m", ManualRow("new"), 1);
            && w.lock.Building? && w.lock.cur < |w.snaps| && GroupsDistinct(next)
            && BuiltFrom(w, w.lock.kind, w.snaps[w.lock.cur], w.lock.rows, next)
            && FreshOrKept(Some(w.snaps[w.lock.cur]), next, w.issued, 2)
  {
    OneRouteIsIndexed("m", ManualRow("new"), 1);
  }

  lemma EscapeOwesNothing()
    ensures var w := EscapeWorlds()[4];
            && w.lock.Building? && w.lock.cur < |w.snaps|
            && Owed(w, ForEdit(0), w.snaps[w.lock.cur], w.lock.rows) == Clearing(ForEdit(0), {}, {})
  {
    assert EscapeWorlds()[4].snaps[0].users == map[];
    assert HeldFor(EscapeWorlds()[4].snaps[0], "m") == {};
  }

  lemma EscapeSwaps()
    ensures var ws, steps := EscapeWorlds(), EscapeSteps();
            Next(ws[4], steps[4], ws[5])
  {
    hide BuiltFrom, GroupsDistinct, FreshOrKept, Owed;
    EscapeIsBuilt();
    EscapeOwesNothing();
  }

  lemma EscapeSweeps()
    ensures var ws, steps := EscapeWorlds(), EscapeSteps();
            Next(ws[6], steps[6], ws[7]) && Next(ws[7], steps[7], ws[8])
  {
    var conns := EscapeWorlds()[6].conns;
    assert RegisteredUnder(conns, "m") == {};
    assert Swept(conns, None, "m") == conns;
  }

  lemma EscapeSizes()
    ensures |EscapeWorlds()| == 9 && |EscapeSteps()| == 8
    ensures forall i :: 0 <= i < 9 ==> EscapeWorlds()[i].snaps != []
  {
  }

  lemma EscapeRuns()
    ensures IsRun(EscapeWorlds(), EscapeSteps())
  {
    hide Init, Next, EscapeWorlds, EscapeSteps;
    EscapeSizes();
    EscapeInit();
    EscapeBegins();
    EscapeCommits();
    EscapeLocks();
    EscapeSwaps();
    EscapeReleases();
    EscapeSweeps();
    var ws, steps := EscapeWorlds(), EscapeSteps();
    forall i | 0 <= i < |steps| ensures ws[i].snaps != [] && Next(ws[i], steps[i], ws[i + 1]) {
      assert i == 0 || i == 1 || i == 2 || i == 3 || i == 4 || i == 5 || i == 6 || i == 7;
    }
  }

  /** A run in which a connection that acquired by display name before the swap
      and registered after the final sweep stays alive on the old definition. */
  lemma AConnectionCanEscape()
    ensures IsRun(EscapeWorlds(), EscapeSteps())
    ensures var w := EscapeWorlds()[8];
            && w.edits[0].phase.Finished? && w.conns[0].registered && !Cancelled(w, 0)
            && w.conns[0].upstream.id == w.edits[0].id && w.conns[0].upstream.row !in w.edits[0].defs
  {
    hide IsRun;
    EscapeRuns();
    assert "old"[0] != "new"[0];
  }
}
