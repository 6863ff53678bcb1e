/** The routing core (internal/routing/routing.go and swap.go). */
module RoutingCore {
  import opened Prelude
  import opened Store
  import opened Routing

  datatype RoutingError = StateNotHydrated | UserNotFound | UpstreamNotFound | EmptyId | StorageFailed

  /** The statement of a mapping transaction that the storage layer fails. */
  datatype SwapFault = NoFault | BeginFails | UpdateFails | AuditFails | CommitFails

  /** UPDATE local_users SET upstream_proxy_id, broken. */
  function MapUser(t: Tables, username: string, newId: string): Tables
    requires username in t.users
  {
    t.(users := t.users[username := t.users[username].(
      upstreamId := if newId == "" then None else Some(newId), broken := newId == "")])
  }

  /** What a committed mapping change needs of the database: the row exists and
      the foreign key holds. */
  predicate Mappable(t: Tables, username: string, newId: string) {
    username in t.users && (newId == "" || newId in t.upstreams)
  }

  predicate NoRepeats(calls: seq<(string, string)>) {
    forall i, j :: 0 <= i < j < |calls| ==> calls[i].0 != calls[j].0
  }

  /** calls holds exactly one (username, old upstream id) per rotated user. */
  ghost predicate CallsForRotated(
    calls: seq<(string, string)>, cur: RoutingState, rows: map<string, Row>, changed: Option<string>, among: set<string>)
  {
    && NoRepeats(calls)
    && (forall c :: c in calls ==>
          c.0 in among && c.0 in cur.users && Rotates(cur.users[c.0], rows, changed) && c.1 == cur.users[c.0].upstreamId)
    && (forall u :: u in among && u in cur.users && Rotates(cur.users[u], rows, changed) ==>
          (u, cur.users[u].upstreamId) in calls)
  }

  ghost function RotatedGroups(cur: RoutingState, rows: map<string, Row>, changed: Option<string>): set<nat> {
    set u | u in cur.users && Rotates(cur.users[u], rows, changed) :: cur.users[u].group
  }

  function GroupsOf(cur: RoutingState, calls: seq<(string, string)>): set<nat> {
    set c | c in calls && c.0 in cur.users :: cur.users[c.0].group
  }

  lemma DoneGrows(keys: set<string>, todo: set<string>, name: string)
    requires todo <= keys && name in todo
    ensures keys - (todo - {name}) == keys - todo + {name}
  {
  }

  class Core {
    const db: Database
    var state: Option<RoutingState>
    /** Groups numbered below this have been handed out. */
    var issued: nat
    var cancelled: set<nat>

    ghost predicate Valid()
      reads this
    {
      && (forall g :: g in cancelled ==> g < issued)
      && (state.Some? ==> StateOk(state.value, issued, cancelled))
    }

    constructor (db: Database)
      ensures this.db == db && state == None && cancelled == {} && Valid()
    {
      this.db, state, issued, cancelled := db, None, 0, {};
    }

    method NewCancelGroup() returns (g: nat)
      modifies this`issued
      ensures g == old(issued) && issued == g + 1
    {
      g := issued;
      issued := issued + 1;
    }

    // ----- buildDisplayNameRoutes ------------------------------------------------

    method CountNames(rows: map<string, Row>) returns (counts: map<string, nat>)
      ensures forall name :: name != "" ==> CountOf(counts, name) == |Bearers(rows, name)|
    {
      counts := map[];
      var todo := rows.Keys;
      forall name ensures |Bearers(rows, name) - todo| == 0 {
        assert Bearers(rows, name) - todo == {};
      }
      while todo != {}
        invariant todo <= rows.Keys
        invariant forall name :: name != "" ==> CountOf(counts, name) == |Bearers(rows, name) - todo|
        decreases |todo|
      {
        var id :| id in todo;
        var dn := rows[id].displayName;
        forall name {
          CountStep(rows, name, todo, id);
        }
        if dn != "" {
          counts := counts[dn := CountOf(counts, dn) + 1];
        }
        todo := todo - {id};
      }
      forall name ensures |Bearers(rows, name) - todo| == |Bearers(rows, name)| {
        assert Bearers(rows, name) - todo == Bearers(rows, name);
      }
    }

    /** Indexes the rows by display name; a name borne twice is dropped. */
    method BuildDisplayNameRoutes(rows: map<string, Row>) returns (routes: map<string, Route>)
      modifies this`issued
      ensures IsIndex(rows, routes)
      ensures issued >= old(issued)
      ensures forall n :: n in routes ==> old(issued) <= routes[n].group < issued
      ensures RoutesDistinct(routes)
    {
      var counts := CountNames(rows);
      routes := map[];
      var todo := rows.Keys;
      while todo != {}
        invariant todo <= rows.Keys
        invariant issued >= old(issued)
        invariant forall n :: n in routes ==> old(issued) <= routes[n].group < issued
        invariant RoutesDistinct(routes)
        invariant forall n :: n in routes ==> IsIndexed(rows, routes, n)
        invariant forall id :: id in rows && id !in todo && RouteOf(rows, rows[id].displayName).Some? ==>
                    rows[id].displayName in routes
        decreases |todo|
      {
        var id :| id in todo;
        var dn := rows[id].displayName;
        todo := todo - {id};
        if dn == "" {
          continue;
        }
        assert id in Bearers(rows, dn);
        if CountOf(counts, dn) != 1 {
          continue;
        }
        OnlyBearer(rows, dn, id);
        var g := NewCancelGroup();
        routes := routes[dn := Route(Upstream(id, rows[id]), rows[id].endpoint.password, g)];
      }
    }

    // ----- Hydrate -----------------------------------------------------------------

    /** Reads the database once and replaces the state; every group is new. */
    method Hydrate(storageFails: bool) returns (err: Option<RoutingError>)
      requires Valid()
      modifies this
      ensures Valid() && issued >= old(issued) && cancelled == old(cancelled)
      ensures storageFails <==> err.Some?
      ensures err.Some? ==> state == old(state)
      ensures err.None? ==> state.Some? && Hydrated(db.tables, state.value)
      ensures err.None? ==> FreshOrKept(None, state.value, old(issued), issued)
    {
      if storageFails {
        return Some(StorageFailed);
      }
      var t := db.tables;
      var users := HydrateUsers(t);
      ghost var mid := issued;
      var routes := BuildDisplayNameRoutes(t.upstreams);
      state := Some(RoutingState(users, t.upstreams, routes, t.universalPwd));
      hide StateOk, Hydrated, FreshOrKept, IsIndex, RoutesDistinct, HydratedSoFar;
      ReadIsHydrated(t, users, routes, old(issued), mid, issued, cancelled);
      return None;
    }

    method HydrateUsers(t: Tables) returns (resolved: map<string, ResolvedUser>)
      modifies this`issued
      ensures issued >= old(issued) && resolved.Keys == t.users.Keys
      ensures HydratedSoFar(t, resolved, old(issued), issued)
    {
      resolved := map[];
      var todo := t.users.Keys;
      while todo != {}
        invariant todo <= t.users.Keys && resolved.Keys == t.users.Keys - todo
        invariant issued >= old(issued)
        invariant HydratedSoFar(t, resolved, old(issued), issued)
        decreases |todo|
      {
        var name :| name in todo;
        ghost var mid := issued;
        var ru := HydrateUser(name, t.users[name], t.upstreams);
        OneMoreHydrated(t, resolved, name, ru, old(issued), mid);
        resolved := resolved[name := ru];
        todo := todo - {name};
      }
    }

    method HydrateUser(name: string, u: User, rows: map<string, Row>) returns (ru: ResolvedUser)
      modifies this`issued
      ensures issued == old(issued) + 1 && ru == HydratedUser(name, u, rows, old(issued))
    {
      var g := NewCancelGroup();
      ru := ResolvedUser(name, u.password, "", None, "", u.broken, g);
      if u.upstreamId.Some? {
        var id := u.upstreamId.value;
        ru := ru.(upstreamId := id);
        if id in rows {
          ru := ru.(upstream := Some(Upstream(id, rows[id])), upstreamPwd := rows[id].endpoint.password);
        } else {
          ru := ru.(broken := true);
        }
      } else {
        ru := ru.(broken := true);
      }
    }

    // ----- SwapUserMapping -----------------------------------------------------------

    /** Moves one user to another upstream, or unmaps it (newId == ""). The
        change is committed before the pointer is swapped, and a failure changes
        neither. `told` is the user the callback receives; its group is not
        cancelled. `seen` lists the states another thread can observe. */
    method SwapUserMapping(username: string, newId: string, fault: SwapFault)
      returns (err: Option<RoutingError>, told: Option<ResolvedUser>, ghost seen: seq<(Tables, Option<RoutingState>)>)
      requires Valid()
      modifies this, db
      ensures Valid() && issued >= old(issued) && cancelled == old(cancelled)
      ensures err.None? <==>
              && old(state).Some? && username in old(state).value.users
              && (newId == "" || newId in old(state).value.upstreams)
              && Mappable(old(db.tables), username, newId) && fault == NoFault
      ensures err.Some? ==> db.tables == old(db.tables) && state == old(state) && told == None
      ensures err.Some? ==> seen == [(old(db.tables), old(state))]
      ensures err.None? ==>
                && db.tables == MapUser(old(db.tables), username, newId)
                && state.Some? && Remapped(old(state).value, username, newId, state.value)
                && FreshOrKept(old(state), state.value, old(issued), issued)
                && state.value.users[username].group >= old(issued)
                && told == Some(old(state).value.users[username])
                && seen == [(old(db.tables), old(state)), (db.tables, old(state)), (db.tables, state)]
    {
      seen := [(db.tables, state)];
      told := None;
      if state.None? {
        return Some(StateNotHydrated), None, seen;
      }
      var cur := state.value;
      if username !in cur.users {
        return Some(UserNotFound), None, seen;
      }
      var oldUser := cur.users[username];
      if newId != "" && newId !in cur.upstreams {
        return Some(UpstreamNotFound), None, seen;
      }
      var newUser := NewMapping(oldUser, newId, cur.upstreams);
      if fault == BeginFails {
        return Some(StorageFailed), None, seen;
      }
      if !Mappable(db.tables, username, newId) || fault == UpdateFails || fault == AuditFails || fault == CommitFails {
        return Some(StorageFailed), None, seen;
      }
      db.tables := MapUser(db.tables, username, newId);
      ghost var committed := (db.tables, state);
      Install(cur, username, newId, newUser);
      return None, Some(oldUser), [seen[0], committed, (db.tables, state)];
    }

    /** Swaps the pointer to cur with one user replaced; the other users, the
        upstreams and the display-name index carry over. */
    method Install(cur: RoutingState, username: string, newId: string, newUser: ResolvedUser)
      requires issued >= 1 && StateOk(cur, issued - 1, cancelled) && forall g :: g in cancelled ==> g < issued - 1
      requires username in cur.users && (newId == "" || newId in cur.upstreams)
      requires newUser == SwappedUser(cur.users[username], newId, cur.upstreams, issued - 1)
      modifies this`state
      ensures Valid() && state.Some? && Remapped(cur, username, newId, state.value)
      ensures state.value.users[username] == newUser && FreshOrKept(Some(cur), state.value, issued - 1, issued)
    {
      var next := cur.(users := cur.users[username := newUser]);
      SwapKeepsValid(cur, username, newId, next, issued - 1, cancelled);
      state := Some(next);
    }

    method NewMapping(old_: ResolvedUser, newId: string, rows: map<string, Row>) returns (u: ResolvedUser)
      requires newId == "" || newId in rows
      modifies this`issued
      ensures issued == old(issued) + 1 && u == SwappedUser(old_, newId, rows, old(issued))
    {
      var g := NewCancelGroup();
      if newId == "" {
        u := ResolvedUser(old_.username, old_.password, "", None, "", true, g);
      } else {
        var row := rows[newId];
        u := ResolvedUser(old_.username, old_.password, newId, Some(Upstream(newId, row)), row.endpoint.password, false, g);
      }
    }

    // ----- RebuildAfterSync and RebuildForUpstreamChange -----------------------------

    /** The loop both rebuilds run over the users of the current state. */
    method RebuildUsers(cur: RoutingState, rows: map<string, Row>, changed: Option<string>)
      returns (users: map<string, ResolvedUser>, rotated: seq<(string, string)>)
      requires UsersDistinct(cur.users)
      requires forall u :: u in cur.users ==> cur.users[u].group < issued
      modifies this`issued
      ensures issued >= old(issued) && users.Keys == cur.users.Keys
      ensures AllOk(cur, rows, changed, users, old(issued), issued)
      ensures CallsForRotated(rotated, cur, rows, changed, cur.users.Keys)
    {
      users, rotated := map[], [];
      var todo := cur.users.Keys;
      ghost var low := issued;
      while todo != {}
        invariant todo <= cur.users.Keys && issued >= low
        invariant RebuiltSoFar(cur, rows, changed, cur.users.Keys - todo, users, rotated, low, issued)
        decreases |todo|
      {
        var name :| name in todo;
        ghost var done, mid := cur.users.Keys - todo, issued;
        var nru, rotates := RebuildUser(cur.users[name], rows, changed);
        OneMoreRebuilt(cur, rows, changed, done, users, rotated, name, nru, low, mid, issued);
        if rotates {
          rotated := rotated + [(name, cur.users[name].upstreamId)];
        }
        users := users[name := nru];
        DoneGrows(cur.users.Keys, todo, name);
        todo := todo - {name};
      }
      assert cur.users.Keys - todo == cur.users.Keys;
    }

    method RebuildUser(ru: ResolvedUser, rows: map<string, Row>, changed: Option<string>)
      returns (nru: ResolvedUser, rotates: bool)
      modifies this`issued
      ensures rotates == Rotates(ru, rows, changed)
      ensures nru == ReResolved(ru, rows, if rotates then old(issued) else ru.group)
      ensures issued == if rotates then old(issued) + 1 else old(issued)
    {
      nru := ResolvedUser(ru.username, ru.password, ru.upstreamId, None, "", false, ru.group);
      if ru.upstreamId != "" {
        if ru.upstreamId in rows {
          var row := rows[ru.upstreamId];
          nru := nru.(upstream := Some(Upstream(ru.upstreamId, row)), upstreamPwd := row.endpoint.password);
        } else {
          nru := nru.(broken := true);
        }
      } else {
        nru := nru.(broken := true);
      }
      rotates := if changed.None? then nru.broken && !ru.broken else ru.upstreamId == changed.value;
      if rotates {
        var g := NewCancelGroup();
        nru := nru.(group := g);
      }
    }

    /** Cancels the old group of each rotated user and makes its callback. */
    method CancelRotated(cur: RoutingState, rotated: seq<(string, string)>, notify: bool)
      returns (calls: seq<(string, string)>)
      requires forall c :: c in rotated ==> c.0 in cur.users
      modifies this`cancelled
      ensures calls == if notify then rotated else []
      ensures cancelled == old(cancelled) + if notify then GroupsOf(cur, rotated) else {}
    {
      calls := [];
      if notify {
        for i := 0 to |rotated|
          invariant calls == rotated[..i]
          invariant cancelled == old(cancelled) + GroupsOf(cur, rotated[..i])
        {
          var (name, _) := rotated[i];
          GroupsOfSnoc(cur, rotated, i);
          cancelled := cancelled + {cur.users[name].group};
          calls := calls + [rotated[i]];
        }
        assert rotated[..|rotated|] == rotated;
      }
    }

    /** Rebuilds from the database after a sync (changed is None) or after an
        edit of one upstream. Exactly the rotated users' old groups are
        cancelled, each with one callback, unless there is no callback. */
    method Rebuild(changed: Option<string>, notify: bool) returns (calls: seq<(string, string)>)
      requires Valid() && state.Some?
      modifies this
      ensures Valid() && issued >= old(issued)
      ensures state.Some? && Rebuilt(old(state).value, db.tables.upstreams, changed, state.value)
      ensures FreshOrKept(old(state), state.value, old(issued), issued)
      ensures RotatedAreFresh(old(state).value, db.tables.upstreams, changed, state.value, old(issued))
      ensures if notify then CallsForRotated(calls, old(state).value, db.tables.upstreams, changed, old(state).value.users.Keys)
              else calls == []
      ensures cancelled == old(cancelled) +
                if notify then RotatedGroups(old(state).value, db.tables.upstreams, changed) else {}
    {
      hide StateOk, Rebuilt, FreshOrKept, RotatedAreFresh, CallsForRotated, GroupsOf, RotatedGroups;
      var cur := state.value;
      var next, rotated := BuildNext(cur, db.tables.upstreams, changed);
      state := Some(next);
      calls := CancelRotated(cur, rotated, notify);
      assert !notify ==> cancelled == old(cancelled);
    }

    method BuildNext(cur: RoutingState, rows: map<string, Row>, changed: Option<string>)
      returns (next: RoutingState, rotated: seq<(string, string)>)
      requires StateOk(cur, issued, cancelled) && forall g :: g in cancelled ==> g < issued
      modifies this`issued
      ensures issued >= old(issued)
      ensures Rebuilt(cur, rows, changed, next) && FreshOrKept(Some(cur), next, old(issued), issued)
      ensures StateOk(next, issued, cancelled) && StateOk(next, issued, cancelled + RotatedGroups(cur, rows, changed))
      ensures forall g :: g in RotatedGroups(cur, rows, changed) ==> g < old(issued)
      ensures RotatedAreFresh(cur, rows, changed, next, old(issued))
      ensures CallsForRotated(rotated, cur, rows, changed, cur.users.Keys)
      ensures GroupsOf(cur, rotated) == RotatedGroups(cur, rows, changed)
    {
      var users;
      users, rotated := RebuildUsers(cur, rows, changed);
      ghost var mid := issued;
      var routes := BuildDisplayNameRoutes(rows);
      next := RoutingState(users, rows, routes, cur.universalPwd);
      RebuildKeepsValid(cur, rows, changed, next, old(issued), mid, issued, cancelled);
      CallsGroups(rotated, cur, rows, changed);
    }

    method RebuildAfterSync(storageFails: bool, notify: bool)
      returns (err: Option<RoutingError>, calls: seq<(string, string)>)
      requires Valid() && state.Some?
      modifies this
      ensures Valid() && issued >= old(issued)
      ensures storageFails <==> err.Some?
      ensures err.Some? ==> state == old(state) && calls == [] && cancelled == old(cancelled)
      ensures err.None? ==> state.Some? && Rebuilt(old(state).value, db.tables.upstreams, None, state.value)
      ensures err.None? ==> FreshOrKept(old(state), state.value, old(issued), issued)
      ensures err.None? ==> RotatedAreFresh(old(state).value, db.tables.upstreams, None, state.value, old(issued))
      ensures err.None? && notify ==>
                && CallsForRotated(calls, old(state).value, db.tables.upstreams, None, old(state).value.users.Keys)
                && cancelled == old(cancelled) + RotatedGroups(old(state).value, db.tables.upstreams, None)
      ensures err.None? && !notify ==> calls == [] && cancelled == old(cancelled)
    {
      if storageFails {
        return Some(StorageFailed), [];
      }
      calls := Rebuild(None, notify);
      err := None;
    }

    method RebuildForUpstreamChange(changedId: string, storageFails: bool, notify: bool)
      returns (err: Option<RoutingError>, calls: seq<(string, string)>)
      requires Valid() && state.Some?
      modifies this
      ensures Valid() && issued >= old(issued)
      ensures changedId == "" || storageFails <==> err.Some?
      ensures err.Some? ==> state == old(state) && calls == [] && cancelled == old(cancelled)
      ensures err.None? ==> state.Some? && Rebuilt(old(state).value, db.tables.upstreams, Some(changedId), state.value)
      ensures err.None? ==> FreshOrKept(old(state), state.value, old(issued), issued)
      ensures err.None? ==> RotatedAreFresh(old(state).value, db.tables.upstreams, Some(changedId), state.value, old(issued))
      ensures err.None? && notify ==>
                && CallsForRotated(calls, old(state).value, db.tables.upstreams, Some(changedId), old(state).value.users.Keys)
                && cancelled == old(cancelled) + RotatedGroups(old(state).value, db.tables.upstreams, Some(changedId))
      ensures err.None? && !notify ==> calls == [] && cancelled == old(cancelled)
    {
      if changedId == "" {
        return Some(EmptyId), [];
      }
      if storageFails {
        return Some(StorageFailed), [];
      }
      calls := Rebuild(Some(changedId), notify);
      err := None;
    }
  }

  // ----- facts the methods use ----------------------------------------------------------

  /** These users are hydrated, under distinct groups in [low, high). */
  ghost predicate HydratedSoFar(t: Tables, resolved: map<string, ResolvedUser>, low: nat, high: nat) {
    && (forall u :: u in resolved ==>
          && u in t.users && low <= resolved[u].group < high
          && resolved[u] == HydratedUser(u, t.users[u], t.upstreams, resolved[u].group))
    && UsersDistinct(resolved)
  }

  lemma OneMoreHydrated(
    t: Tables, resolved: map<string, ResolvedUser>, name: string, ru: ResolvedUser, low: nat, mid: nat)
    requires HydratedSoFar(t, resolved, low, mid) && low <= mid && name in t.users
    requires ru == HydratedUser(name, t.users[name], t.upstreams, mid)
    ensures HydratedSoFar(t, resolved[name := ru], low, mid + 1)
  {
  }

  function CountOf(counts: map<string, nat>, name: string): nat {
    if name in counts then counts[name] else 0
  }

  lemma CountStep(rows: map<string, Row>, name: string, todo: set<string>, id: string)
    requires id in rows && id in todo
    ensures |Bearers(rows, name) - (todo - {id})| ==
            |Bearers(rows, name) - todo| + (if name == rows[id].displayName then 1 else 0)
  {
    var seen := Bearers(rows, name) - todo;
    assert id !in seen;
    assert Bearers(rows, name) - (todo - {id}) == if name == rows[id].displayName then seen + {id} else seen;
  }

  lemma OnlyBearer(rows: map<string, Row>, name: string, id: string)
    requires name != "" && id in Bearers(rows, name) && |Bearers(rows, name)| == 1
    ensures RouteOf(rows, name) == Some(Upstream(id, rows[id]))
  {
    assert |Bearers(rows, name) - {id}| == 0;
    forall other | other in Bearers(rows, name) ensures other == id {
      assert other in Bearers(rows, name) - {id} || other == id;
    }
  }

  lemma CallsSnoc(
    calls: seq<(string, string)>, cur: RoutingState, rows: map<string, Row>, changed: Option<string>,
    among: set<string>, name: string)
    requires CallsForRotated(calls, cur, rows, changed, among) && name !in among && name in cur.users
    ensures var c := (name, cur.users[name].upstreamId);
            CallsForRotated(if Rotates(cur.users[name], rows, changed) then calls + [c] else calls,
                            cur, rows, changed, among + {name})
  {
    var c := (name, cur.users[name].upstreamId);
    if Rotates(cur.users[name], rows, changed) {
      forall u | u in among && u in cur.users && Rotates(cur.users[u], rows, changed)
        ensures (u, cur.users[u].upstreamId) in calls + [c]
      {
        assert (u, cur.users[u].upstreamId) in calls;
      }
      assert (calls + [c])[|calls|] == c;
      forall i | 0 <= i < |calls| ensures calls[i].0 != name {
        assert calls[i] in calls;
      }
    }
  }

  /** One rebuilt user with its group: kept, or new and numbered in [low, high). */
  ghost predicate UserOk(
    cur: RoutingState, rows: map<string, Row>, changed: Option<string>,
    users: map<string, ResolvedUser>, u: string, low: nat, high: nat)
  {
    && u in cur.users && u in users
    && users[u] == ReResolved(cur.users[u], rows, users[u].group)
    && if Rotates(cur.users[u], rows, changed) then low <= users[u].group < high
       else users[u].group == cur.users[u].group
  }

  ghost predicate AllOk(
    cur: RoutingState, rows: map<string, Row>, changed: Option<string>,
    users: map<string, ResolvedUser>, low: nat, high: nat)
  {
    (forall u :: u in users ==> UserOk(cur, rows, changed, users, u, low, high)) && UsersDistinct(users)
  }

  lemma OneMoreOk(
    cur: RoutingState, rows: map<string, Row>, changed: Option<string>,
    users: map<string, ResolvedUser>, name: string, nru: ResolvedUser, low: nat, mid: nat, high: nat)
    requires AllOk(cur, rows, changed, users, low, mid) && UsersDistinct(cur.users)
    requires name in cur.users && name !in users && low <= mid
    requires forall u :: u in cur.users ==> cur.users[u].group < low
    requires var rotates := Rotates(cur.users[name], rows, changed);
             && nru == ReResolved(cur.users[name], rows, if rotates then mid else cur.users[name].group)
             && high == if rotates then mid + 1 else mid
    ensures AllOk(cur, rows, changed, users[name := nru], low, high)
  {
    var users' := users[name := nru];
    forall u | u in users' ensures UserOk(cur, rows, changed, users', u, low, high) {
      assert u != name ==> UserOk(cur, rows, changed, users, u, low, mid);
    }
    forall u | u in users ensures users[u].group != nru.group {
      assert UserOk(cur, rows, changed, users, u, low, mid);
    }
  }

  ghost predicate RebuiltSoFar(
    cur: RoutingState, rows: map<string, Row>, changed: Option<string>, done: set<string>,
    users: map<string, ResolvedUser>, rotated: seq<(string, string)>, low: nat, high: nat)
  {
    && users.Keys == done
    && AllOk(cur, rows, changed, users, low, high)
    && CallsForRotated(rotated, cur, rows, changed, done)
  }

  lemma OneMoreRebuilt(
    cur: RoutingState, rows: map<string, Row>, changed: Option<string>, done: set<string>,
    users: map<string, ResolvedUser>, rotated: seq<(string, string)>,
    name: string, nru: ResolvedUser, low: nat, mid: nat, high: nat)
    requires RebuiltSoFar(cur, rows, changed, done, users, rotated, low, mid) && UsersDistinct(cur.users)
    requires name in cur.users && name !in done && low <= mid
    requires forall u :: u in cur.users ==> cur.users[u].group < low
    requires var rotates := Rotates(cur.users[name], rows, changed);
             && nru == ReResolved(cur.users[name], rows, if rotates then mid else cur.users[name].group)
             && high == if rotates then mid + 1 else mid
    ensures var c := (name, cur.users[name].upstreamId);
            RebuiltSoFar(cur, rows, changed, done + {name}, users[name := nru],
                         if Rotates(cur.users[name], rows, changed) then rotated + [c] else rotated, low, high)
  {
    OneMoreOk(cur, rows, changed, users, name, nru, low, mid, high);
    CallsSnoc(rotated, cur, rows, changed, done, name);
  }

  lemma SwapKeepsValid(
    cur: RoutingState, username: string, newId: string, next: RoutingState, low: nat, cancelled: set<nat>)
    requires StateOk(cur, low, cancelled)
    requires forall g :: g in cancelled ==> g < low
    requires Remapped(cur, username, newId, next) && next.users[username].group == low
    ensures StateOk(next, low + 1, cancelled)
    ensures FreshOrKept(Some(cur), next, low, low + 1)
  {
    forall u | u in next.users ensures UserSound(next, u) {
      assert u in cur.users && UserSound(cur, u);
    }
  }

  lemma RebuildKeepsSound(
    cur: RoutingState, rows: map<string, Row>, changed: Option<string>, next: RoutingState, low: nat, high: nat)
    requires Sound(cur) && next.upstreams == rows && next.universalPwd == cur.universalPwd
    requires IsIndex(rows, next.byDisplayName) && next.users.Keys == cur.users.Keys
    requires AllOk(cur, rows, changed, next.users, low, high)
    ensures Rebuilt(cur, rows, changed, next) && Sound(next)
  {
    forall u | u in next.users ensures UserRebuilt(cur, rows, changed, next, u) && UserSound(next, u) {
      assert UserOk(cur, rows, changed, next.users, u, low, high) && UserSound(cur, u);
    }
  }

  /** A whole read of the tables under new groups. */
  lemma ReadIsHydrated(t: Tables, users: map<string, ResolvedUser>, routes: map<string, Route>,
                       low: nat, mid: nat, high: nat, cancelled: set<nat>)
    requires users.Keys == t.users.Keys && HydratedSoFar(t, users, low, mid) && low <= mid <= high
    requires IsIndex(t.upstreams, routes) && RoutesDistinct(routes)
    requires forall n :: n in routes ==> mid <= routes[n].group < high
    requires forall g :: g in cancelled ==> g < low
    ensures var s := RoutingState(users, t.upstreams, routes, t.universalPwd);
            Hydrated(t, s) && FreshOrKept(None, s, low, high) && StateOk(s, high, cancelled)
  {
  }

  lemma GroupsOfSnoc(cur: RoutingState, calls: seq<(string, string)>, i: nat)
    requires i < |calls| && calls[i].0 in cur.users
    ensures GroupsOf(cur, calls[..i + 1]) == GroupsOf(cur, calls[..i]) + {cur.users[calls[i].0].group}
  {
    assert calls[..i + 1] == calls[..i] + [calls[i]];
  }

  lemma CallsGroups(calls: seq<(string, string)>, cur: RoutingState, rows: map<string, Row>, changed: Option<string>)
    requires CallsForRotated(calls, cur, rows, changed, cur.users.Keys)
    ensures GroupsOf(cur, calls) == RotatedGroups(cur, rows, changed)
  {
    forall u | u in cur.users && Rotates(cur.users[u], rows, changed)
      ensures cur.users[u].group in GroupsOf(cur, calls)
    {
      assert (u, cur.users[u].upstreamId) in calls;
    }
  }

  lemma RebuildKeepsValid(
    cur: RoutingState, rows: map<string, Row>, changed: Option<string>, next: RoutingState,
    low: nat, mid: nat, high: nat, cancelled: set<nat>)
    requires StateOk(cur, low, cancelled) && (forall g :: g in cancelled ==> g < low)
    requires next.upstreams == rows && next.universalPwd == cur.universalPwd && next.users.Keys == cur.users.Keys
    requires AllOk(cur, rows, changed, next.users, low, mid) && low <= mid <= high
    requires IsIndex(rows, next.byDisplayName) && RoutesDistinct(next.byDisplayName)
    requires forall n :: n in next.byDisplayName ==> mid <= next.byDisplayName[n].group < high
    ensures Rebuilt(cur, rows, changed, next) && FreshOrKept(Some(cur), next, low, high)
    ensures StateOk(next, high, cancelled) && StateOk(next, high, cancelled + RotatedGroups(cur, rows, changed))
    ensures forall g :: g in RotatedGroups(cur, rows, changed) ==> g < low
    ensures RotatedAreFresh(cur, rows, changed, next, low)
  {
    RebuildKeepsSound(cur, rows, changed, next, low, mid);
    RebuildKeepsGroups(cur, rows, changed, next, low, mid, high, cancelled);
  }

  ghost predicate RotatedAreFresh(
    cur: RoutingState, rows: map<string, Row>, changed: Option<string>, next: RoutingState, low: nat)
  {
    forall u :: u in next.users && u in cur.users && Rotates(cur.users[u], rows, changed) ==> next.users[u].group >= low
  }

  /** The new snapshot's groups are distinct, and live even after the rotated
      groups have been cancelled. */
  lemma RebuildKeepsGroups(
    cur: RoutingState, rows: map<string, Row>, changed: Option<string>, next: RoutingState,
    low: nat, mid: nat, high: nat, cancelled: set<nat>)
    requires GroupsDistinct(cur) && GroupsLive(cur, low, cancelled) && next.users.Keys == cur.users.Keys
    requires AllOk(cur, rows, changed, next.users, low, mid) && low <= mid <= high
    requires forall g :: g in cancelled ==> g < low
    requires RoutesDistinct(next.byDisplayName)
    requires forall n :: n in next.byDisplayName ==> mid <= next.byDisplayName[n].group < high
    ensures GroupsDistinct(next)
    ensures GroupsLive(next, high, cancelled + RotatedGroups(cur, rows, changed))
    ensures forall g :: g in RotatedGroups(cur, rows, changed) ==> g < low
    ensures FreshOrKept(Some(cur), next, low, high)
    ensures forall u :: u in next.users && Rotates(cur.users[u], rows, changed) ==> next.users[u].group >= low
  {
    var gone := RotatedGroups(cur, rows, changed);
    forall u | u in next.users
      ensures next.users[u].group < mid && next.users[u].group !in cancelled + gone
      ensures next.users[u].group >= low || next.users[u].group == cur.users[u].group
      ensures Rotates(cur.users[u], rows, changed) ==> next.users[u].group >= low
    {
      assert UserOk(cur, rows, changed, next.users, u, low, mid);
    }
  }
}
