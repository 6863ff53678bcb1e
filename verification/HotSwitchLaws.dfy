/** More about the hot switch: what a user's remap guarantees, who cancels what,
    and the two ways a connection to an edited upstream survives. */
module HotSwitchLaws {
  import opened Prelude
  import opened Store
  import opened Routing
  import opened RoutingCore
  import opened HotSwitch

  // ----- remaps --------------------------------------------------------------------

  /** The user's mapping in these tables, or in this snapshot, is one committed
      since the move. */
  predicate TableOk(mv: Move, t: Tables) {
    CommittedId(t, mv.username) <= mv.ids
  }

  predicate UserOk(mv: Move, s: RoutingState) {
    mv.username in s.users ==> s.users[mv.username].upstreamId == "" || s.users[mv.username].upstreamId in mv.ids
  }

  /** A lock holder captured a snapshot no older than the move's, and a committed
      remap of the same user is on the list. */
  predicate HolderOk(mv: Move, lock: Lock) {
    lock.Building? ==>
      && mv.after <= lock.cur
      && (lock.kind.Remap? && lock.rows.Some? && lock.kind.username == mv.username ==>
            lock.kind.newId == "" || lock.kind.newId in mv.ids)
  }

  predicate SweptAreCancelled(mv: Move, conns: map<nat, Conn>, nextConn: nat) {
    forall c :: c in mv.swept ==> c < nextConn && (c in conns ==> conns[c].cancelled)
  }

  ghost predicate MoveOk(w: World, k: nat)
    requires k < |w.moves|
  {
    var mv := w.moves[k];
    && mv.before < mv.after < |w.snaps|
    && TableOk(mv, w.t)
    && (forall i :: mv.after <= i < |w.snaps| ==> UserOk(mv, w.snaps[i]))
    && HolderOk(mv, w.lock)
    && SweptAreCancelled(mv, w.conns, w.nextConn)
  }

  ghost predicate MovesOk(w: World) {
    forall k :: 0 <= k < |w.moves| ==> MoveOk(w, k)
  }

  lemma CommittedIsNoted(w: World, t: Tables, w': World, k: nat)
    requires k < |w.moves| && MoveOk(w, k) && w'.t == t && w'.moves == NotedMoves(w.moves, t)
    requires w'.snaps == w.snaps && w'.conns == w.conns && w'.nextConn == w.nextConn
    requires HolderOk(w'.moves[k], w'.lock)
    ensures MoveOk(w', k)
  {
    var mv, mv' := w.moves[k], w'.moves[k];
    forall i | mv'.after <= i < |w'.snaps| ensures UserOk(mv', w'.snaps[i]) {
      assert UserOk(mv, w.snaps[i]);
    }
  }

  lemma CommitKeepsMove(w: World, step: Step, w': World, k: nat)
    requires w.snaps != [] && k < |w.moves| && MoveOk(w, k) && Next(w, step, w')
    requires step.DoCommit? || step.DoRemapCommit?
    ensures k < |w'.moves| && MoveOk(w', k)
  {
    CommittedIsNoted(w, w'.t, w', k);
  }

  lemma QuietStepKeepsMove(w: World, step: Step, w': World, k: nat)
    requires w.snaps != [] && k < |w.moves| && MoveOk(w, k) && Next(w, step, w')
    requires step.DoAcquire? || step.DoRegister? || step.DoEnd? || step.DoLock? || step.DoRead? || step.DoAbort? || step.DoCancel?
    requires forall c :: c in w.conns ==> c < w.nextConn
    ensures k < |w'.moves| && MoveOk(w', k)
  {
    assert w'.moves[k] == w.moves[k] && w'.snaps == w.snaps;
  }

  lemma SweepKeepsMove(w: World, step: Step, w': World, k: nat)
    requires w.snaps != [] && k < |w.moves| && MoveOk(w, k) && Next(w, step, w')
    requires step.DoSweep? || step.DoFinalSweep? || step.DoCloseUser? || step.DoRelease?
    requires forall c :: c in w.conns ==> c < w.nextConn
    ensures k < |w'.moves| && MoveOk(w', k)
  {
    var mv, mv' := w.moves[k], w'.moves[k];
    assert mv'.(swept := mv.swept, done := mv.done) == mv;
    forall i | mv'.after <= i < |w'.snaps| ensures UserOk(mv', w'.snaps[i]) {
      assert UserOk(mv, w.snaps[i]);
    }
  }

  /** What a lock holder installs maps the user as its captured snapshot did, or
      as its own committed remap says. */
  lemma InstalledUserOk(w: World, next: RoutingState, mv: Move)
    requires w.lock.Building? && w.lock.cur < |w.snaps|
    requires BuiltFrom(w, w.lock.kind, w.snaps[w.lock.cur], w.lock.rows, next)
    requires UserOk(mv, w.snaps[w.lock.cur]) && HolderOk(mv, w.lock)
    ensures UserOk(mv, next)
  {
    var cur := w.snaps[w.lock.cur];
    if mv.username in next.users {
      match w.lock.kind
      case ForEdit(e) => assert UserRebuilt(cur, w.lock.rows.value, ChangedBy(w.edits[e]), next, mv.username);
      case AfterSync => assert UserRebuilt(cur, w.lock.rows.value, None, next, mv.username);
      case Remap(_, _) =>
    }
  }

  lemma SwapKeepsMove(w: World, next: RoutingState, issued: nat, w': World, k: nat)
    requires w.snaps != [] && k < |w.moves| && MoveOk(w, k) && Next(w, DoSwap(next, issued), w')
    ensures k < |w'.moves| && MoveOk(w', k)
  {
    var mv := w.moves[k];
    assert w'.moves[k] == mv;
    InstalledUserOk(w, next, mv);
    forall i | mv.after <= i < |w'.snaps| ensures UserOk(mv, w'.snaps[i]) {
      assert i < |w.snaps| ==> w'.snaps[i] == w.snaps[i];
    }
  }

  lemma HydrateKeepsMove(w: World, next: RoutingState, issued: nat, w': World, k: nat)
    requires w.snaps != [] && k < |w.moves| && MoveOk(w, k) && Next(w, DoHydrate(next, issued), w')
    ensures k < |w'.moves| && MoveOk(w', k)
  {
    var mv := w.moves[k];
    forall i | mv.after <= i < |w'.snaps| ensures UserOk(mv, w'.snaps[i]) {
      if i < |w.snaps| {
        assert w'.snaps[i] == w.snaps[i];
      } else {
        assert w'.snaps[i] == next;
      }
    }
  }

  /** A remap starts out with its own mapping installed. */
  lemma SwapStartsMove(w: World, next: RoutingState, issued: nat, w': World)
    requires w.snaps != [] && Next(w, DoSwap(next, issued), w') && w.lock.kind.Remap?
    ensures |w'.moves| == |w.moves| + 1 && MoveOk(w', |w.moves|)
  {
    var mv := w'.moves[|w.moves|];
    assert mv.after == |w.snaps| && w'.snaps[mv.after] == next;
    assert UserOk(mv, next);
  }

  lemma NextKeepsMoves(w: World, step: Step, w': World)
    requires Inv(w) && MovesOk(w) && Next(w, step, w')
    ensures MovesOk(w')
  {
    ConnIdsKnown(w);
    forall k | 0 <= k < |w'.moves| ensures MoveOk(w', k) {
      NextKeepsMove(w, step, w', k);
    }
  }

  /** Only a pointer swap adds a move, and at most one. */
  lemma NextKeepsMoveCount(w: World, step: Step, w': World)
    requires w.snaps != [] && Next(w, step, w')
    ensures if step.DoSwap? then |w.moves| <= |w'.moves| <= |w.moves| + 1 else |w'.moves| == |w.moves|
    ensures |w'.moves| > |w.moves| ==> w.lock.Building? && w.lock.kind.Remap?
  {
    hide Acquire, Hydrated, BuiltFrom, FreshOrKept, GroupsDistinct, Owed, Installed, Advance,
      Noted, Started, Swept, SweptUser, Mappable, MapUser;
  }

  lemma NextKeepsMove(w: World, step: Step, w': World, k: nat)
    requires w.snaps != [] && MovesOk(w) && Next(w, step, w') && k < |w'.moves|
    requires forall c :: c in w.conns ==> c < w.nextConn
    ensures MoveOk(w', k)
  {
    hide MoveOk, Acquires, Registers, Ends, Commits, TakesLock, ReadsRows, CommitsRemap, Aborts, CancelsGroup, SweepsPair,
      ReleasesLock, SweepsUpstream, ClosesUser, HydratesState, BuiltFrom, GroupsDistinct, FreshOrKept, Owed, Installed;
    NextKeepsMoveCount(w, step, w');
    match step
    case DoCommit(_, _) => CommitKeepsMove(w, step, w', k);
    case DoRemapCommit => CommitKeepsMove(w, step, w', k);
    case DoSweep(_, _) => SweepKeepsMove(w, step, w', k);
    case DoFinalSweep(_) => SweepKeepsMove(w, step, w', k);
    case DoCloseUser(_) => SweepKeepsMove(w, step, w', k);
    case DoRelease => SweepKeepsMove(w, step, w', k);
    case DoHydrate(next, issued) => HydrateKeepsMove(w, next, issued, w', k);
    case DoSwap(next, issued) =>
      if k < |w.moves| {
        SwapKeepsMove(w, next, issued, w', k);
      } else {
        SwapStartsMove(w, next, issued, w');
      }
    case _ => QuietStepKeepsMove(w, step, w', k);
  }

  lemma {:induction false} EveryRunKeepsMoves(ws: seq<World>, steps: seq<Step>, i: nat)
    requires IsRun(ws, steps) && i <= |steps|
    ensures MovesOk(ws[i])
  {
    hide Next, MoveOk, Inv;
    if i > 0 {
      EveryRunKeepsMoves(ws, steps, i - 1);
      EveryRunKeepsInv(ws, steps, i - 1);
      NextKeepsMoves(ws[i - 1], steps[i - 1], ws[i]);
    }
  }

  /** The connection was granted on the user's own password. */
  predicate AsUser(w: World, conn: Conn)
    requires conn.epoch < |w.snaps|
  {
    var s := w.snaps[conn.epoch];
    conn.username in s.users && s.users[conn.username].group == conn.group
  }

  lemma UserGrantIsItsMapping(conn: Conn, s: RoutingState)
    requires Sound(s) && GroupsDistinct(s) && CameFrom(conn, s)
    requires conn.username in s.users && s.users[conn.username].group == conn.group
    ensures s.users[conn.username].upstreamId == conn.upstream.id
  {
    assert UserSound(s, conn.username);
  }

  /** In every interleaving, from the moment a remap has swapped the pointer,
      whoever acquires with that user's own password gets an upstream committed for
      the user by this remap or after it. */
  lemma LaterAcquiresSeeTheRemap(ws: seq<World>, steps: seq<Step>, i: nat, k: nat, c: nat)
    requires IsRun(ws, steps) && i <= |steps| && k < |ws[i].moves| && c in ws[i].conns
    requires ws[i].conns[c].username == ws[i].moves[k].username
    requires ws[i].moves[k].after <= ws[i].conns[c].epoch < |ws[i].snaps| && AsUser(ws[i], ws[i].conns[c])
    ensures ws[i].conns[c].upstream.id == "" || ws[i].conns[c].upstream.id in ws[i].moves[k].ids
  {
    var w := ws[i];
    EveryRunKeepsInv(ws, steps, i);
    EveryRunKeepsMoves(ws, steps, i);
    var mv, conn := w.moves[k], w.conns[c];
    assert MoveOk(w, k) && ConnOk(w, c) && SnapOk(w, conn.epoch);
    assert UserOk(mv, w.snaps[conn.epoch]);
    UserGrantIsItsMapping(conn, w.snaps[conn.epoch]);
  }

  /** A remap's sweep records what is registered under its pair at that moment, and
      whoever it recorded is cancelled for good. */
  lemma SweptByTheRemapAreCancelled(ws: seq<World>, steps: seq<Step>, b: nat, i: nat, c: nat)
    requires IsRun(ws, steps) && b < i <= |steps| && c in ws[i].conns
    requires steps[b].DoSweep? && ws[b].lock.Clearing? && ws[b].lock.kind.Remap? && ws[b].moves != []
    ensures |ws[b + 1].moves| == |ws[b].moves|
    ensures ws[b + 1].moves[|ws[b].moves| - 1].swept == RegisteredAs(ws[b].conns, steps[b].username, steps[b].id)
    ensures forall k :: 0 <= k < |ws[i].moves| && c in ws[i].moves[k].swept ==> Cancelled(ws[i], c)
  {
    assert Next(ws[b], steps[b], ws[b + 1]);
    EveryRunKeepsMoves(ws, steps, i);
    forall k | 0 <= k < |ws[i].moves| && c in ws[i].moves[k].swept ensures Cancelled(ws[i], c) {
      assert MoveOk(ws[i], k);
    }
  }

  /** The pair's sweep is still owed, or the connection is cancelled. */
  predicate OwedOrCancelled(w: World, c: nat, username: string, id: string) {
    && w.lock.Clearing? && c in w.conns
    && (w.conns[c].cancelled ||
        ((username, id) in w.lock.sweeps && Sweep(w.conns[c], Some(username), id).cancelled))
  }

  lemma ClearingKeepsOwed(w: World, step: Step, w': World, c: nat, username: string, id: string)
    requires w.snaps != [] && Next(w, step, w') && !step.DoRelease?
    requires OwedOrCancelled(w, c, username, id) && c < w.nextConn && c in w'.conns
    ensures OwedOrCancelled(w', c, username, id)
  {
  }

  lemma {:induction false} OwedUntilRelease(ws: seq<World>, steps: seq<Step>, a: nat, b: nat, c: nat, username: string, id: string)
    requires IsRun(ws, steps) && a <= b <= |steps| && OwedOrCancelled(ws[a], c, username, id)
    requires forall i :: a <= i < b ==> !steps[i].DoRelease?
    requires forall i :: a <= i <= b ==> c in ws[i].conns
    ensures OwedOrCancelled(ws[b], c, username, id)
  {
    if a < b {
      OwedUntilRelease(ws, steps, a, b - 1, c, username, id);
      EveryRunKeepsInv(ws, steps, b - 1);
      ConnIdsKnown(ws[b - 1]);
      ClearingKeepsOwed(ws[b - 1], steps[b - 1], ws[b], c, username, id);
    }
  }

  /** In every interleaving, a connection of a remapped user that is registered
      under the old upstream when the pointer is swapped, and has not ended by
      itself, is cancelled before the remap lets go of the lock. */
  lemma RemapClosesThePair(ws: seq<World>, steps: seq<Step>, a: nat, b: nat, c: nat, username: string)
    requires IsRun(ws, steps) && a < b < |steps| && steps[a].DoSwap? && steps[b].DoRelease?
    requires ws[a].lock.Building? && ws[a].lock.kind.Remap? && ws[a].lock.kind.username == username
    requires forall i :: a < i < b ==> !steps[i].DoRelease?
    requires forall i :: a < i <= b + 1 ==> c in ws[i].conns
    requires ws[a].lock.cur < |ws[a].snaps| && username in ws[a].snaps[ws[a].lock.cur].users
    requires c in RegisteredAs(ws[a + 1].conns, username, ws[a].snaps[ws[a].lock.cur].users[username].upstreamId)
    ensures Cancelled(ws[b + 1], c)
  {
    var id := ws[a].snaps[ws[a].lock.cur].users[username].upstreamId;
    assert Next(ws[a], steps[a], ws[a + 1]) && Next(ws[b], steps[b], ws[b + 1]);
    OwedUntilRelease(ws, steps, a + 1, b, c, username, id);
  }

  // ----- who cancels what --------------------------------------------------------------

  /** Some snapshot gave the group to a user. */
  ghost predicate UserHeld(w: World, g: nat) {
    exists i, u :: 0 <= i < |w.snaps| && u in w.snaps[i].users && w.snaps[i].users[u].group == g
  }

  ghost predicate CancelsOk(w: World) {
    && (forall g :: g in w.cancelled ==> UserHeld(w, g))
    && (w.lock.Clearing? ==> forall g :: g in w.lock.groups ==> UserHeld(w, g))
  }

  lemma HeldStays(w: World, w': World, g: nat)
    requires UserHeld(w, g) && w.snaps <= w'.snaps
    ensures UserHeld(w', g)
  {
    var i, u :| 0 <= i < |w.snaps| && u in w.snaps[i].users && w.snaps[i].users[u].group == g;
    assert w'.snaps[i] == w.snaps[i];
  }

  lemma OwedAreHeld(w: World, kind: Kind, k: nat, rows: Option<map<string, Row>>, w': World, g: nat)
    requires k < |w.snaps| && w.snaps <= w'.snaps
    requires Owed(w, kind, w.snaps[k], rows).Clearing? && g in Owed(w, kind, w.snaps[k], rows).groups
    ensures UserHeld(w', g)
  {
    var cur := w.snaps[k];
    var u :| u in cur.users && cur.users[u].group == g;
    assert w'.snaps[k] == cur;
  }

  lemma NextKeepsCancels(w: World, step: Step, w': World)
    requires w.snaps != [] && CancelsOk(w) && Next(w, step, w')
    ensures CancelsOk(w')
  {
    assert w.snaps <= w'.snaps;
    forall g | UserHeld(w, g) ensures UserHeld(w', g) {
      HeldStays(w, w', g);
    }
    if step.DoSwap? {
      forall g | g in w'.lock.groups ensures UserHeld(w', g) {
        OwedAreHeld(w, w.lock.kind, w.lock.cur, w.lock.rows, w', g);
      }
    }
  }

  lemma {:induction false} EveryRunKeepsCancels(ws: seq<World>, steps: seq<Step>, i: nat)
    requires IsRun(ws, steps) && i <= |steps|
    ensures CancelsOk(ws[i])
  {
    hide Next, UserHeld;
    if i > 0 {
      EveryRunKeepsCancels(ws, steps, i - 1);
      NextKeepsCancels(ws[i - 1], steps[i - 1], ws[i]);
    }
  }

  /** A display name's group is never cancelled, in any snapshot of any run. */
  lemma DisplayNameGroupsLive(ws: seq<World>, steps: seq<Step>, i: nat, k: nat, name: string)
    requires IsRun(ws, steps) && i <= |steps| && k < |ws[i].snaps| && name in ws[i].snaps[k].byDisplayName
    ensures ws[i].snaps[k].byDisplayName[name].group !in ws[i].cancelled
  {
    EveryRunKeepsInv(ws, steps, i);
    EveryRunKeepsCancels(ws, steps, i);
    var w, g := ws[i], ws[i].snaps[k].byDisplayName[name].group;
    forall j, u | 0 <= j < |w.snaps| && u in w.snaps[j].users ensures w.snaps[j].users[u].group != g {
      assert SameOwners(w.snaps[j], w.snaps[k]);
    }
    assert !UserHeld(w, g);
  }

  /** The step is a sweep that finds the connection registered. */
  predicate Finds(w: World, step: Step, c: nat) {
    c in w.conns && w.conns[c].registered &&
    match step
    case DoSweep(username, id) => w.conns[c].upstream.id == id && w.conns[c].username == username
    case DoFinalSweep(e) => e in w.edits && w.conns[c].upstream.id == w.edits[e].id
    case DoCloseUser(username) => w.conns[c].username == username
    case _ => false
  }

  /** The connection is the same after the step, but for a sweep that finds it or
      its own registration. */
  predicate StaysConn(w: World, step: Step, w': World, c: nat) {
    && c in w.conns && c in w'.conns
    && (w'.conns[c].cancelled <==> w.conns[c].cancelled || Finds(w, step, c))
    && w'.conns[c].epoch == w.conns[c].epoch && w'.conns[c].group == w.conns[c].group
    && w'.conns[c].username == w.conns[c].username
  }

  lemma OnlySweepsCancel(w: World, step: Step, w': World, c: nat)
    requires w.snaps != [] && Next(w, step, w') && c in w.conns && c in w'.conns && c < w.nextConn
    ensures StaysConn(w, step, w', c)
  {
  }

  ghost predicate FoundWithin(ws: seq<World>, steps: seq<Step>, i: nat, j: nat, c: nat)
    requires j <= |ws| && j <= |steps|
  {
    exists k :: i <= k < j && Finds(ws[k], steps[k], c)
  }

  lemma FoundOneMore(ws: seq<World>, steps: seq<Step>, i: nat, j: nat, c: nat)
    requires i < j <= |ws| && j <= |steps|
    ensures FoundWithin(ws, steps, i, j, c) <==> FoundWithin(ws, steps, i, j - 1, c) || Finds(ws[j - 1], steps[j - 1], c)
  {
    hide Finds;
  }

  lemma {:induction false} CancelledByASweep(ws: seq<World>, steps: seq<Step>, i: nat, j: nat, c: nat)
    requires i <= j <= |steps| && j < |ws| && c in ws[i].conns
    requires forall k :: i <= k < j ==> StaysConn(ws[k], steps[k], ws[k + 1], c)
    ensures c in ws[j].conns
    ensures ws[j].conns[c].cancelled <==> ws[i].conns[c].cancelled || FoundWithin(ws, steps, i, j, c)
    ensures ws[j].conns[c].epoch == ws[i].conns[c].epoch && ws[j].conns[c].group == ws[i].conns[c].group
    ensures ws[j].conns[c].username == ws[i].conns[c].username
  {
    if i < j {
      hide Finds, FoundWithin;
      CancelledByASweep(ws, steps, i, j - 1, c);
      FoundOneMore(ws, steps, i, j, c);
      assert StaysConn(ws[j - 1], steps[j - 1], ws[j], c);
    } else {
      assert !FoundWithin(ws, steps, i, j, c);
    }
  }

  lemma KnownBelow(w: World, c: nat)
    requires Inv(w) && c in w.conns
    ensures c < w.nextConn
  {
    ConnIdsKnown(w);
  }

  /** A connection granted by display name survives exactly as long as no sweep
      finds it registered: nothing else ever cancels it. */
  lemma DisplayNameSurvivesExactly(ws: seq<World>, steps: seq<Step>, i: nat, j: nat, c: nat)
    requires IsRun(ws, steps) && i <= j <= |steps|
    requires forall k :: i <= k <= j ==> c in ws[k].conns
    requires !ws[i].conns[c].cancelled && ws[i].conns[c].epoch < |ws[i].snaps| && ByDisplayName(ws[i], ws[i].conns[c])
    ensures Cancelled(ws[j], c) <==> FoundWithin(ws, steps, i, j, c)
  {
    forall k | i <= k < j ensures StaysConn(ws[k], steps[k], ws[k + 1], c) {
      EveryRunKeepsInv(ws, steps, k);
      KnownBelow(ws[k], c);
      OnlySweepsCancel(ws[k], steps[k], ws[k + 1], c);
    }
    CancelledByASweep(ws, steps, i, j, c);
    SnapsGrow(ws, steps, i, j);
    var conn := ws[j].conns[c];
    assert ws[j].snaps[conn.epoch] == ws[i].snaps[conn.epoch];
    DisplayNameGroupsLive(ws, steps, j, conn.epoch, conn.username);
  }

  lemma {:induction false} SnapsGrow(ws: seq<World>, steps: seq<Step>, i: nat, j: nat)
    requires IsRun(ws, steps) && i <= j <= |steps|
    ensures ws[i].snaps <= ws[j].snaps
  {
    hide Next, Init;
    if i < j {
      SnapsGrow(ws, steps, i, j - 1);
      NextKeepsOlderSnaps(ws[j - 1], steps[j - 1], ws[j]);
    }
  }

  lemma NextKeepsOlderSnaps(w: World, step: Step, w': World)
    requires w.snaps != [] && Next(w, step, w')
    ensures w.snaps <= w'.snaps
  {
    hide Acquire, Hydrated, BuiltFrom, FreshOrKept, GroupsDistinct, Owed, Installed, MovedBy, Advance, AtLast, NotedMoves,
      Noted, Started, Swept, SweptUser, Mappable, MapUser;
  }

  // ----- exactly who is cancelled -------------------------------------------------------

  ghost predicate GroupCancelledWithin(steps: seq<Step>, i: nat, j: nat, group: nat)
    requires j <= |steps|
  {
    exists k :: i <= k < j && steps[k] == DoCancel(group)
  }

  lemma OnlyCancelsCancel(w: World, step: Step, w': World, group: nat)
    requires w.snaps != [] && Next(w, step, w')
    ensures group in w'.cancelled <==> group in w.cancelled || step == DoCancel(group)
  {
  }

  lemma {:induction false} CancelledGroups(ws: seq<World>, steps: seq<Step>, i: nat, j: nat, group: nat)
    requires IsRun(ws, steps) && i <= j <= |steps|
    ensures group in ws[j].cancelled <==> group in ws[i].cancelled || GroupCancelledWithin(steps, i, j, group)
  {
    hide Next, Init;
    if i < j {
      CancelledGroups(ws, steps, i, j - 1, group);
      OnlyCancelsCancel(ws[j - 1], steps[j - 1], ws[j], group);
      CancelOneMore(steps, i, j, group);
    } else {
      assert !GroupCancelledWithin(steps, i, j, group);
    }
  }

  lemma CancelOneMore(steps: seq<Step>, i: nat, j: nat, group: nat)
    requires i < j <= |steps|
    ensures GroupCancelledWithin(steps, i, j, group)
        <==> GroupCancelledWithin(steps, i, j - 1, group) || steps[j - 1] == DoCancel(group)
  {
  }

  /** The connection is live throughout the stretch. */
  predicate LiveWithin(ws: seq<World>, i: nat, j: nat, c: nat)
    requires j < |ws|
  {
    forall k :: i <= k <= j ==> c in ws[k].conns
  }

  lemma StaysWithin(ws: seq<World>, steps: seq<Step>, i: nat, j: nat, c: nat)
    requires IsRun(ws, steps) && i <= j <= |steps| && LiveWithin(ws, i, j, c)
    ensures forall k :: i <= k < j ==> StaysConn(ws[k], steps[k], ws[k + 1], c)
  {
    forall k | i <= k < j ensures StaysConn(ws[k], steps[k], ws[k + 1], c) {
      EveryRunKeepsInv(ws, steps, k);
      KnownBelow(ws[k], c);
      OnlySweepsCancel(ws[k], steps[k], ws[k + 1], c);
    }
  }

  /** Over any stretch of any run, a connection ends up cancelled if and only if it
      was so before, a sweep found it registered, or its group was cancelled. */
  lemma CancelledExactly(ws: seq<World>, steps: seq<Step>, i: nat, j: nat, c: nat)
    requires IsRun(ws, steps) && i <= j <= |steps| && LiveWithin(ws, i, j, c)
    ensures Cancelled(ws[j], c) <==>
            Cancelled(ws[i], c) || FoundWithin(ws, steps, i, j, c) || GroupCancelledWithin(steps, i, j, ws[i].conns[c].group)
  {
    StaysWithin(ws, steps, i, j, c);
    CancelledByASweep(ws, steps, i, j, c);
    CancelledGroups(ws, steps, i, j, ws[i].conns[c].group);
    hide FoundWithin, GroupCancelledWithin, StaysConn, IsRun;
  }

  /** What a lock holder that has swapped still owes or has paid. */
  predicate Paying(w: World, owed: set<nat>, before: set<nat>) {
    && w.lock.Clearing? && w.lock.groups <= owed
    && w.cancelled + w.lock.groups == before + owed
  }

  lemma ClearingPays(w: World, step: Step, w': World, owed: set<nat>, before: set<nat>)
    requires w.snaps != [] && Next(w, step, w') && !step.DoRelease? && Paying(w, owed, before)
    ensures Paying(w', owed, before)
  {
  }

  lemma {:induction false} PaidUntilRelease(ws: seq<World>, steps: seq<Step>, a: nat, b: nat, owed: set<nat>, before: set<nat>)
    requires IsRun(ws, steps) && a <= b <= |steps| && Paying(ws[a], owed, before)
    requires forall k :: a <= k < b ==> !steps[k].DoRelease?
    ensures Paying(ws[b], owed, before)
  {
    hide Next, Init, Paying;
    if a < b {
      PaidUntilRelease(ws, steps, a, b - 1, owed, before);
      ClearingPays(ws[b - 1], steps[b - 1], ws[b], owed, before);
    }
  }

  /** From a lock holder's pointer swap to its release. */
  ghost predicate HoldsFrom(ws: seq<World>, steps: seq<Step>, a: nat, b: nat) {
    && IsRun(ws, steps) && a < b < |steps| && steps[a].DoSwap? && steps[b].DoRelease?
    && forall k :: a < k < b ==> !steps[k].DoRelease?
  }

  lemma HolderPays(ws: seq<World>, steps: seq<Step>, a: nat, b: nat)
    requires HoldsFrom(ws, steps, a, b)
    ensures ws[a + 1].lock.Clearing? && ws[b + 1].cancelled == ws[a].cancelled + ws[a + 1].lock.groups
  {
    assert Next(ws[a], steps[a], ws[a + 1]) && Next(ws[b], steps[b], ws[b + 1]);
    PaidUntilRelease(ws, steps, a + 1, b, ws[a + 1].lock.groups, ws[a].cancelled);
  }

  /** Over a rebuild's or a remap's hold of the lock, a connection is cancelled if
      and only if it was so before, a sweep found it registered, or its group is
      one the holder owed a cancel. */
  lemma HolderCancelsExactly(ws: seq<World>, steps: seq<Step>, a: nat, b: nat, c: nat)
    requires HoldsFrom(ws, steps, a, b) && LiveWithin(ws, a, b + 1, c)
    ensures ws[a + 1].lock.Clearing?
    ensures Cancelled(ws[b + 1], c) <==>
            Cancelled(ws[a], c) || FoundWithin(ws, steps, a, b + 1, c) || ws[a].conns[c].group in ws[a + 1].lock.groups
  {
    HolderPays(ws, steps, a, b);
    StaysWithin(ws, steps, a, b + 1, c);
    CancelledByASweep(ws, steps, a, b + 1, c);
    hide FoundWithin, StaysConn, IsRun;
  }

  ghost predicate RemapHolds(w: World) {
    w.lock.Building? && w.lock.kind.Remap?
  }

  lemma RemapOwesNothing(w: World, next: RoutingState, issued: nat, w': World)
    requires w.snaps != [] && Next(w, DoSwap(next, issued), w') && RemapHolds(w)
    ensures w'.lock.Clearing? && w'.lock.groups == {}
  {
  }

  /** A remap cancels exactly the connections its sweep finds registered; every
      other one it leaves alive. */
  lemma RemapCancelsExactly(ws: seq<World>, steps: seq<Step>, a: nat, b: nat, c: nat)
    requires HoldsFrom(ws, steps, a, b) && LiveWithin(ws, a, b + 1, c) && RemapHolds(ws[a])
    ensures Cancelled(ws[b + 1], c) <==> Cancelled(ws[a], c) || FoundWithin(ws, steps, a, b + 1, c)
  {
    assert Next(ws[a], steps[a], ws[a + 1]);
    RemapOwesNothing(ws[a], steps[a].next, steps[a].issued, ws[a + 1]);
    HolderCancelsExactly(ws, steps, a, b, c);
  }

  ghost predicate EditHolds(w: World) {
    && w.lock.Building? && w.lock.kind.ForEdit? && w.lock.kind.e in w.edits
    && w.lock.cur < |w.snaps| && w.lock.rows.Some?
  }

  lemma EditOwesTheHeld(w: World, next: RoutingState, issued: nat, w': World)
    requires w.snaps != [] && Next(w, DoSwap(next, issued), w') && EditHolds(w)
    ensures w'.lock.Clearing?
    ensures w'.lock.groups == HeldOf(w.edits[w.lock.kind.e], w.snaps[w.lock.cur], w.lock.rows.value)
  {
  }

  /** An edit's rebuild cancels exactly the connections a sweep finds registered
      and those whose group it holds: an orphaned one survives it unless found. */
  lemma EditCancelsExactly(ws: seq<World>, steps: seq<Step>, a: nat, b: nat, c: nat)
    requires HoldsFrom(ws, steps, a, b) && LiveWithin(ws, a, b + 1, c) && EditHolds(ws[a])
    ensures var w := ws[a];
            Cancelled(ws[b + 1], c) <==>
            Cancelled(w, c) || FoundWithin(ws, steps, a, b + 1, c)
            || w.conns[c].group in HeldOf(w.edits[w.lock.kind.e], w.snaps[w.lock.cur], w.lock.rows.value)
  {
    assert Next(ws[a], steps[a], ws[a + 1]);
    EditOwesTheHeld(ws[a], steps[a].next, steps[a].issued, ws[a + 1]);
    HolderCancelsExactly(ws, steps, a, b, c);
  }

  // ----- the other exceptions are real ------------------------------------------------

  function OneMapping(row: Row, group: nat): RoutingState {
    RoutingState(map["u" := Mapped("u", "pw", "m", row, false, group)], OneRow("m", row), map[], "")
  }

  function MappedTable(row: Row): Tables {
    Tables(OneRow("m", row), map["u" := User("pw", Some("m"), false)], map[], "")
  }

  function NamelessRow(host: string): Row {
    ManualRow(host).(displayName := "")
  }

  lemma NothingIsIndexed(row: Row)
    requires row.displayName == ""
    ensures IsIndex(OneRow("m", row), map[])
  {
    forall name ensures IsIndexed(OneRow("m", row), map[], name) {
      if name != "" {
        assert Bearers(OneRow("m", row), name) == {};
      }
    }
  }

  lemma OneMappingHydrates(row: Row, group: nat)
    requires row.displayName == ""
    ensures var s := OneMapping(row, group);
            Hydrated(MappedTable(row), s) && GroupsDistinct(s) && FreshOrKept(None, s, group, group + 1)
  {
    NothingIsIndexed(row);
  }

  /** Acquire as a user, Hydrate, then an edit of that user's upstream from start
      to end, and only then register. */
  function OrphanSteps(): seq<Step> {
    [DoAcquire("u", "pw"), DoHydrate(OneMapping(NamelessRow("old"), 1), 2),
     DoCommit(MappedTable(NamelessRow("new")), Some((0, "m"))), DoLock(ForEdit(0)), DoRead,
     DoSwap(OneMapping(NamelessRow("new"), 2), 3), DoCancel(1), DoSweep("u", "m"), DoRelease, DoFinalSweep(0), DoRegister(0)]
  }

  function OrphanWorlds(): seq<World> {
    var old_, new_ := NamelessRow("old"), NamelessRow("new");
    var s0, s1, s2 := OneMapping(old_, 0), OneMapping(old_, 1), OneMapping(new_, 2);
    var c := Conn("u", Upstream("m", old_), 0, 0, false, false);
    var e := Edit("m", {new_}, Committed, 0, 0, {}, false);
    var late := e.(before := 1, after := 2);
    var w0 := World(MappedTable(old_), [s0], Free, 1, {}, map[], 0, map[], []);
    var w1 := w0.(conns := map[0 := c], nextConn := 1);
    var w2 := w1.(snaps := [s0, s1], issued := 2);
    var w3 := w2.(t := MappedTable(new_), edits := map[0 := e]);
    var w4 := w3.(lock := Building(ForEdit(0), 1, None), edits := map[0 := e.(phase := Rebuilding)]);
    var w5 := w4.(lock := Building(ForEdit(0), 1, Some(OneRow("m", new_))));
    var w6 := w5.(snaps := [s0, s1, s2], issued := 3, lock := Clearing(ForEdit(0), {1}, {("u", "m")}),
                  edits := map[0 := late.(phase := Draining)]);
    var w7 := w6.(cancelled := {1}, lock := Clearing(ForEdit(0), {}, {("u", "m")}));
    var w8 := w7.(lock := Clearing(ForEdit(0), {}, {}));
    var w9 := w8.(lock := Free, edits := map[0 := late.(phase := Drained)]);
    var w10 := w9.(edits := map[0 := late.(phase := Finished)]);
    [w0, w1, w2, w3, w4, w5, w6, w7, w8, w9, w10, w10.(conns := map[0 := c.(registered := true)])]
  }

  lemma OrphanInit()
    ensures Init(OrphanWorlds()[0])
  {
    hide Hydrated, GroupsDistinct, FreshOrKept, OneMapping;
    OneMappingHydrates(NamelessRow("old"), 0);
  }

  lemma OrphanBegins()
    ensures var ws, steps := OrphanWorlds(), OrphanSteps();
            Next(ws[0], steps[0], ws[1])
  {
  }

  lemma OrphanHydrates()
    ensures var ws, steps := OrphanWorlds(), OrphanSteps();
            Next(ws[1], steps[1], ws[2])
  {
    hide Hydrated, GroupsDistinct, FreshOrKept, OneMapping;
    OneMappingHydrates(NamelessRow("old"), 1);
  }

  lemma OrphanCommits()
    ensures var ws, steps := OrphanWorlds(), OrphanSteps();
            Next(ws[2], steps[2], ws[3])
  {
  }

  lemma OrphanLocks()
    ensures var ws, steps := OrphanWorlds(), OrphanSteps();
            Next(ws[3], steps[3], ws[4]) && Next(ws[4], steps[4], ws[5])
  {
  }

  lemma OrphanIsRebuilt()
    ensures Rebuilt(OneMapping(NamelessRow("old"), 1), OneRow("m", NamelessRow("new")), Some("m"), OneMapping(NamelessRow("new"), 2))
  {
    NothingIsIndexed(NamelessRow("new"));
    assert UserRebuilt(OneMapping(NamelessRow("old"), 1), OneRow("m", NamelessRow("new")), Some("m"),
                       OneMapping(NamelessRow("new"), 2), "u");
  }

  lemma OrphanOwes()
    ensures var w := OrphanWorlds()[5];
            w.snaps != [] && Owed(w, ForEdit(0), OneMapping(NamelessRow("old"), 1), w.lock.rows) ==
                             Clearing(ForEdit(0), {1}, {("u", "m")})
  {
    var cur := OneMapping(NamelessRow("old"), 1);
    assert HeldFor(cur, "m") == {1} by {
      assert cur.users["u"].group == 1;
    }
    assert (set u | u in cur.users && cur.users[u].upstreamId == "m" :: (u, "m")) == {("u", "m")};
  }

  lemma OrphanIsFresh()
    ensures var cur, next := OneMapping(NamelessRow("old"), 1), OneMapping(NamelessRow("new"), 2);
            GroupsDistinct(next) && FreshOrKept(Some(cur), next, 2, 3)
  {
  }

  lemma OrphanSwaps()
    ensures var ws, steps := OrphanWorlds(), OrphanSteps();
            Next(ws[5], steps[5], ws[6])
  {
    hide Rebuilt, Owed, GroupsDistinct, FreshOrKept, OneMapping;
    OrphanIsRebuilt();
    OrphanIsFresh();
    OrphanOwes();
  }

  lemma OrphanCancels()
    ensures var ws, steps := OrphanWorlds(), OrphanSteps();
            Next(ws[6], steps[6], ws[7])
  {
    assert {1} - {1} == {};
  }

  lemma OrphanSweeps()
    ensures var ws, steps := OrphanWorlds(), OrphanSteps();
            Next(ws[7], steps[7], ws[8])
  {
    assert {("u", "m")} - {("u", "m")} == {};
    assert Swept(OrphanWorlds()[7].conns, Some("u"), "m") == OrphanWorlds()[7].conns;
  }

  lemma OrphanReleases()
    ensures var ws, steps := OrphanWorlds(), OrphanSteps();
            Next(ws[8], steps[8], ws[9])
  {
  }

  lemma OrphanEnds()
    ensures var ws, steps := OrphanWorlds(), OrphanSteps();
            Next(ws[9], steps[9], ws[10]) && Next(ws[10], steps[10], ws[11])
  {
    var conns := OrphanWorlds()[9].conns;
    assert RegisteredUnder(conns, "m") == {};
    assert Swept(conns, None, "m") == conns;
  }

  lemma OrphanSteps11(i: nat)
    requires i < 11
    ensures var ws, steps := OrphanWorlds(), OrphanSteps();
            ws[i].snaps != [] && Next(ws[i], steps[i], ws[i + 1])
  {
    hide Next;
    if i < 2 {
      OrphanBegins();
      OrphanHydrates();
    } else if i < 5 {
      OrphanCommits();
      OrphanLocks();
    } else if i < 6 {
      OrphanSwaps();
    } else if i < 9 {
      OrphanCancels();
      OrphanSweeps();
      OrphanReleases();
    } else {
      OrphanEnds();
    }
  }

  lemma OrphanRuns()
    ensures IsRun(OrphanWorlds(), OrphanSteps())
  {
    OrphanInit();
    forall i | 0 <= i < 11
      ensures OrphanWorlds()[i].snaps != [] && Next(OrphanWorlds()[i], OrphanSteps()[i], OrphanWorlds()[i + 1])
    {
      OrphanSteps11(i);
    }
    hide Next, Init;
  }

  /** A run in which a connection whose group a Hydrate orphaned before the edit
      stays alive on the old definition. */
  lemma AnOrphanCanEscape()
    ensures IsRun(OrphanWorlds(), OrphanSteps())
    ensures var w := OrphanWorlds()[11];
            && w.edits[0].phase.Finished? && w.conns[0].registered && !Cancelled(w, 0)
            && w.conns[0].upstream.id == w.edits[0].id && w.conns[0].upstream.row !in w.edits[0].defs
            && !ByDisplayName(w, w.conns[0]) && Orphaned(w.snaps[w.edits[0].before], w.conns[0].group)
  {
    OrphanRuns();
    hide IsRun, OrphanSteps;
    assert "old"[0] != "new"[0];
  }

  function Unmapping(row: Row, group: nat): RoutingState {
    RoutingState(map["u" := ResolvedUser("u", "pw", "", None, "", true, group)], OneRow("m", row), map[], "")
  }

  /** Acquire as a user, have the user unmapped from start to end, then register. */
  function LateSteps(row: Row): seq<Step> {
    [DoAcquire("u", "pw"), DoLock(Remap("u", "")), DoRemapCommit, DoSwap(Unmapping(row, 1), 2),
     DoSweep("u", "m"), DoRelease, DoRegister(0)]
  }

  function LateWorlds(row: Row): seq<World> {
    var s0, s1 := OneMapping(row, 0), Unmapping(row, 1);
    var c := Conn("u", Upstream("m", row), 0, 0, false, false);
    var mv := Move("u", "m", {""}, 0, 1, false, {});
    var w0 := World(MappedTable(row), [s0], Free, 1, {}, map[], 0, map[], []);
    var w1 := w0.(conns := map[0 := c], nextConn := 1);
    var w2 := w1.(lock := Building(Remap("u", ""), 0, None));
    var t := MapUser(MappedTable(row), "u", "");
    var w3 := w2.(t := t, lock := Building(Remap("u", ""), 0, Some(t.upstreams)));
    var w4 := w3.(snaps := [s0, s1], issued := 2, lock := Clearing(Remap("u", ""), {}, {("u", "m")}), moves := [mv]);
    var w5 := w4.(lock := Clearing(Remap("u", ""), {}, {}));
    var w6 := w5.(lock := Free, moves := [mv.(done := true)]);
    [w0, w1, w2, w3, w4, w5, w6, w6.(conns := map[0 := c.(registered := true)])]
  }

  lemma LateInit(row: Row)
    requires row.displayName == ""
    ensures Init(LateWorlds(row)[0])
  {
    hide Hydrated, GroupsDistinct, FreshOrKept, OneMapping, Unmapping, MapUser;
    OneMappingHydrates(row, 0);
  }

  lemma LateBegins(row: Row)
    ensures var ws, steps := LateWorlds(row), LateSteps(row);
            Next(ws[0], steps[0], ws[1]) && Next(ws[1], steps[1], ws[2])
  {
    hide Unmapping, MapUser;
  }

  lemma LateCommits(row: Row)
    ensures var ws, steps := LateWorlds(row), LateSteps(row);
            Next(ws[2], steps[2], ws[3])
  {
    assert NotedMoves([], LateWorlds(row)[3].t) == [];
  }

  lemma LateSwaps(row: Row)
    ensures var ws, steps := LateWorlds(row), LateSteps(row);
            Next(ws[3], steps[3], ws[4])
  {
    var ws := LateWorlds(row);
    assert Remapped(ws[3].snaps[0], "u", "", Unmapping(row, 1));
    assert {""} + CommittedId(ws[3].t, "u") == {""};
  }

  lemma LateSweeps(row: Row)
    ensures var ws, steps := LateWorlds(row), LateSteps(row);
            Next(ws[4], steps[4], ws[5])
  {
    hide OneMapping, Unmapping, MapUser;
    var ws := LateWorlds(row);
    assert {("u", "m")} - {("u", "m")} == {};
    assert Swept(ws[4].conns, Some("u"), "m") == ws[4].conns;
    assert RegisteredAs(ws[4].conns, "u", "m") == {};
  }

  lemma LateEnds(row: Row)
    ensures var ws, steps := LateWorlds(row), LateSteps(row);
            Next(ws[5], steps[5], ws[6]) && Next(ws[6], steps[6], ws[7])
  {
    hide OneMapping, Unmapping, MapUser;
  }

  lemma LateRuns(row: Row)
    requires row.displayName == ""
    ensures IsRun(LateWorlds(row), LateSteps(row))
  {
    hide Next, Init, MapUser, OneMapping, Unmapping;
    LateInit(row);
    LateBegins(row);
    LateCommits(row);
    LateSwaps(row);
    LateSweeps(row);
    LateEnds(row);
    var ws, steps := LateWorlds(row), LateSteps(row);
    forall i | 0 <= i < 7 ensures ws[i].snaps != [] && Next(ws[i], steps[i], ws[i + 1]) {
      assert i == 0 || i == 1 || i == 2 || i == 3 || i == 4 || i == 5 || i == 6;
    }
  }

  /** A run in which a connection of a remapped user that registers after the sweep
      stays alive on the old upstream: the old group is never cancelled. */
  lemma ARemapCanBeEscaped(row: Row)
    requires row.displayName == ""
    ensures IsRun(LateWorlds(row), LateSteps(row))
    ensures var w := LateWorlds(row)[7];
            && w.moves[0].done && w.moves[0].oldId == "m" && w.conns[0].username == w.moves[0].username
            && w.conns[0].registered && w.conns[0].upstream.id == "m" && !Cancelled(w, 0)
  {
    hide IsRun;
    LateRuns(row);
  }

  /** A user is deleted, its connections are closed, somebody still acquires as that
      user, and only then Hydrate forgets it. */
  function DeletedSteps(row: Row): seq<Step> {
    [DoCommit(OneTable(row).(universalPwd := ""), None), DoCloseUser("u"), DoAcquire("u", "pw"),
     DoHydrate(Userless(row), 1), DoRegister(0)]
  }

  function Userless(row: Row): RoutingState {
    RoutingState(map[], OneRow("m", row), map[], "")
  }

  function DeletedWorlds(row: Row): seq<World> {
    var s0 := OneMapping(row, 0);
    var c := Conn("u", Upstream("m", row), 0, 0, false, false);
    var w0 := World(MappedTable(row), [s0], Free, 1, {}, map[], 0, map[], []);
    var w1 := w0.(t := OneTable(row).(universalPwd := ""));
    var w3 := w1.(conns := map[0 := c], nextConn := 1);
    var w4 := w3.(snaps := [s0, Userless(row)]);
    [w0, w1, w1, w3, w4, w4.(conns := map[0 := c.(registered := true)])]
  }

  lemma DeletedInit(row: Row)
    requires row.displayName == ""
    ensures Init(DeletedWorlds(row)[0])
  {
    hide Hydrated, GroupsDistinct, FreshOrKept, OneMapping;
    OneMappingHydrates(row, 0);
  }

  lemma DeletedBegins(row: Row)
    ensures var ws, steps := DeletedWorlds(row), DeletedSteps(row);
            Next(ws[0], steps[0], ws[1]) && Next(ws[1], steps[1], ws[2])
  {
    hide OneMapping;
    assert NotedMoves([], OneTable(row).(universalPwd := "")) == [];
    assert Noted(map[], OneRow("m", row)) == map[];
    assert SweptUser(map[], "u") == map[];
  }

  lemma DeletedAcquires(row: Row)
    ensures var ws, steps := DeletedWorlds(row), DeletedSteps(row);
            Next(ws[2], steps[2], ws[3]) && Next(ws[4], steps[4], ws[5])
  {
  }

  lemma DeletedHydrates(row: Row)
    requires row.displayName == ""
    ensures var ws, steps := DeletedWorlds(row), DeletedSteps(row);
            Next(ws[3], steps[3], ws[4])
  {
    hide OneMapping;
    NothingIsIndexed(row);
  }

  /** A run in which a connection of a deleted user goes on after the deletion is
      complete, under a group that is never cancelled. */
  lemma ADeletedUserKeepsRunning(row: Row)
    requires row.displayName == ""
    ensures IsRun(DeletedWorlds(row), DeletedSteps(row))
    ensures var w := DeletedWorlds(row)[5];
            && w.conns[0].registered && !Cancelled(w, 0)
            && w.conns[0].username !in w.t.users && w.conns[0].username !in Now(w).users
  {
    hide Next, Init, OneMapping;
    DeletedInit(row);
    DeletedBegins(row);
    DeletedAcquires(row);
    DeletedHydrates(row);
    var ws, steps := DeletedWorlds(row), DeletedSteps(row);
    forall i | 0 <= i < 5 ensures ws[i].snaps != [] && Next(ws[i], steps[i], ws[i + 1]) {
      assert i == 0 || i == 1 || i == 2 || i == 3 || i == 4;
    }
  }
}
