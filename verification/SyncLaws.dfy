/** What a sync guarantees about the rows of its key, of other owners, and of the
    mapped users. */
module SyncLaws {
  import opened Prelude
  import opened DisplayName
  import opened Allocator
  import opened Store
  import opened Sync

  // ----- processing the response ---------------------------------------------

  /** The element that decides a row's contents: the last one with its id. */
  function LastWith(ps: seq<Proxy>, id: string): (r: Option<Proxy>)
    ensures r.Some? ==> r.value in ps && IdOf(r.value) == id
  {
    if ps == [] then None
    else if IdOf(ps[|ps| - 1]) == id then Some(ps[|ps| - 1])
    else LastWith(ps[..|ps| - 1], id)
  }

  lemma {:induction false} LastWithFinds(ps: seq<Proxy>, id: string)
    ensures LastWith(ps, id).Some? <==> id in Incoming(ps)
  {
    if ps != [] {
      var front, p := ps[..|ps| - 1], ps[|ps| - 1];
      assert ps == front + [p];
      LastWithFinds(front, id);
    }
  }

  function SlotName(tag: string, slot: (string, nat)): string {
    FormatDisplayName(slot.0, tag, slot.1)
  }

  /** What became of the row id, given the last element that names it: left
      alone, refreshed, or inserted under the slot it was given. */
  ghost predicate RowPlaced(job: Job, last: Option<Proxy>, id: string, st0: Progress, st: Progress) {
    match last
    case None =>
      && (id in st.rows <==> id in st0.rows)
      && (id in st0.rows ==> st.rows[id] == st0.rows[id])
      && id !in st.given
    case Some(p) =>
      && id in st.rows
      && if id in job.existing then
           && id !in st.given
           && id in st0.rows
           && st.rows[id] == UpdatedRow(st0.rows[id], p, job.existing[id], job.tag, job.now)
         else
           && id in st.given && st.given[id].0 == p.country
           && st.rows[id] == InsertedRow(p, job.keyId, SlotName(job.tag, st.given[id]), job.now)
  }

  lemma {:induction false} PlaceAllRow(job: Job, ps: seq<Proxy>, st0: Progress, id: string)
    requires job.existing.Keys <= st0.rows.Keys && st0.given == map[]
    requires PlaceAll(job, ps, st0).Some?
    ensures RowPlaced(job, LastWith(ps, id), id, st0, PlaceAll(job, ps, st0).value)
  {
    if ps != [] {
      var front, p := ps[..|ps| - 1], ps[|ps| - 1];
      PlaceAllRow(job, front, st0, id);
      var mid := PlaceAll(job, front, st0).value;
      if IdOf(p) == id {
        PlaceThisRow(job, LastWith(front, id), p, st0, mid);
      } else {
        PlaceOtherRow(job, LastWith(front, id), p, id, st0, mid);
      }
    }
  }

  lemma PlaceThisRow(job: Job, last: Option<Proxy>, p: Proxy, st0: Progress, mid: Progress)
    requires job.existing.Keys <= st0.rows.Keys && job.existing.Keys <= mid.rows.Keys
    requires RowPlaced(job, last, IdOf(p), st0, mid) && Place(job, p, mid).Some?
    ensures RowPlaced(job, Some(p), IdOf(p), st0, Place(job, p, mid).value)
  {
  }

  lemma PlaceOtherRow(job: Job, last: Option<Proxy>, p: Proxy, id: string, st0: Progress, mid: Progress)
    requires job.existing.Keys <= mid.rows.Keys && IdOf(p) != id
    requires RowPlaced(job, last, id, st0, mid) && Place(job, p, mid).Some?
    ensures RowPlaced(job, last, id, st0, Place(job, p, mid).value)
  {
  }

  /** Slots are given at most once, and never one that was taken before. */
  ghost predicate FreshSlots(st0: Progress, st: Progress) {
    && (forall id :: id in st.given ==> id in st.rows && st.given[id] !in st0.taken)
    && (forall a, b :: a in st.given && b in st.given && st.given[a] == st.given[b] ==> a == b)
    && (forall slot :: slot in st.taken <==> slot in st0.taken || slot in st.given.Values)
  }

  lemma {:induction false} PlaceAllGivesFreshSlots(job: Job, ps: seq<Proxy>, st0: Progress)
    requires job.existing.Keys <= st0.rows.Keys && st0.given == map[]
    requires PlaceAll(job, ps, st0).Some?
    ensures FreshSlots(st0, PlaceAll(job, ps, st0).value)
  {
    if ps != [] {
      var front, p := ps[..|ps| - 1], ps[|ps| - 1];
      PlaceAllGivesFreshSlots(job, front, st0);
      var mid := PlaceAll(job, front, st0).value;
      if IdOf(p) !in job.existing {
        var slot := (p.country, LeastFree(Numbers(mid.taken, p.country)));
        FreeSlot(mid.taken, p.country);
        GiveOneMore(st0, mid, PlaceAll(job, ps, st0).value, IdOf(p), slot);
      }
    }
  }

  lemma GiveOneMore(st0: Progress, mid: Progress, st: Progress, id: string, slot: (string, nat))
    requires FreshSlots(st0, mid) && id !in mid.rows && slot !in mid.taken
    requires st.rows.Keys == mid.rows.Keys + {id}
    requires st.given == mid.given[id := slot] && st.taken == mid.taken + {slot}
    ensures FreshSlots(st0, st)
  {
    forall a | a in mid.given ensures mid.given[a] in mid.taken && mid.given[a] in st.given.Values {
      assert mid.given[a] in mid.given.Values;
      assert st.given[a] == mid.given[a];
    }
    assert st.given[id] in st.given.Values;
  }

  lemma FreeSlot(taken: set<(string, nat)>, country: string)
    ensures (country, LeastFree(Numbers(taken, country))) !in taken
  {
    var slot := (country, LeastFree(Numbers(taken, country)));
    assert slot in taken ==> slot.1 in Numbers(taken, country);
  }

  /** Element i of the response cannot be inserted: its id belongs to a row of
      another owner, or an earlier element has just inserted it. */
  predicate ClashAt(rows: map<string, Row>, existing: map<string, Existing>, ps: seq<Proxy>, i: nat)
    requires i < |ps|
  {
    IdOf(ps[i]) !in existing && (IdOf(ps[i]) in rows || IdOf(ps[i]) in Incoming(ps[..i]))
  }

  predicate Clashes(rows: map<string, Row>, existing: map<string, Existing>, ps: seq<Proxy>) {
    exists i :: 0 <= i < |ps| && ClashAt(rows, existing, ps, i)
  }

  lemma ClashesSnoc(rows: map<string, Row>, existing: map<string, Existing>, ps: seq<Proxy>)
    requires ps != []
    ensures Clashes(rows, existing, ps) <==>
            Clashes(rows, existing, ps[..|ps| - 1]) || ClashAt(rows, existing, ps, |ps| - 1)
  {
    var front := ps[..|ps| - 1];
    forall i | 0 <= i < |front|
      ensures ClashAt(rows, existing, ps, i) == ClashAt(rows, existing, front, i)
    {
      assert ps[..i] == front[..i];
    }
  }

  lemma {:induction false} ClashExactly(job: Job, ps: seq<Proxy>, st0: Progress)
    requires job.existing.Keys <= st0.rows.Keys && st0.given == map[]
    ensures PlaceAll(job, ps, st0).None? <==> Clashes(st0.rows, job.existing, ps)
  {
    if ps != [] {
      var front, id := ps[..|ps| - 1], IdOf(ps[|ps| - 1]);
      ClashExactly(job, front, st0);
      ClashesSnoc(st0.rows, job.existing, ps);
      if PlaceAll(job, front, st0).Some? {
        PlaceAllRow(job, front, st0, id);
        LastWithFinds(front, id);
      }
    }
  }

  // ----- the effect on the database -----------------------------------------

  ghost function KeyRows(t: Tables, keyId: int): set<string> {
    LoadExisting(t, keyId).Keys
  }

  function TagOf(t: Tables, keyId: int): string
    requires keyId in t.keys
  {
    Sanitized(t.keys[keyId].name)
  }

  /** A row agrees with the response on everything Webshare reports. */
  predicate Reports(r: Row, p: Proxy) {
    r.endpoint == p.endpoint && r.country == p.country && r.city == p.city
  }

  /** A sync succeeds unless an id of the response belongs to a row of another
      owner or a new id occurs twice; SyncKey then leaves the tables alone. */
  lemma SyncFailsExactlyOnClash(t: Tables, keyId: int, ps: seq<Proxy>, now: int)
    requires keyId in t.keys
    ensures Synced(t, keyId, ps, now).None? <==> Clashes(t.upstreams, LoadExisting(t, keyId), ps)
  {
    var job := JobOf(t, keyId, now);
    ClashExactly(job, ps, Start(t, job, ps));
  }

  /** The slot a newcomer was given. */
  ghost function GivenSlot(t: Tables, keyId: int, ps: seq<Proxy>, now: int, id: string): (string, nat)
    requires keyId in t.keys && Synced(t, keyId, ps, now).Some?
  {
    var job := JobOf(t, keyId, now);
    var given := PlaceAll(job, ps, Start(t, job, ps)).value.given;
    if id in given then given[id] else ("", 0)
  }

  /** What one sync does to one row. */
  lemma SyncedRow(t: Tables, keyId: int, ps: seq<Proxy>, now: int, t': Tables, id: string)
    requires keyId in t.keys && Synced(t, keyId, ps, now) == Some(t')
    ensures id in Incoming(ps) <==> LastWith(ps, id).Some?
    ensures id in t'.upstreams <==> (id in t.upstreams && id !in KeyRows(t, keyId)) || id in Incoming(ps)
    ensures id !in KeyRows(t, keyId) && id in t.upstreams ==>
              id !in Incoming(ps) && t'.upstreams[id] == t.upstreams[id]
    ensures id in KeyRows(t, keyId) && id in Incoming(ps) ==>
              t'.upstreams[id] ==
              UpdatedRow(t.upstreams[id], LastWith(ps, id).value, LoadExisting(t, keyId)[id], TagOf(t, keyId), now)
    ensures id !in KeyRows(t, keyId) && id in Incoming(ps) ==>
              var slot := GivenSlot(t, keyId, ps, now, id);
              slot.0 == LastWith(ps, id).value.country &&
              t'.upstreams[id] == InsertedRow(LastWith(ps, id).value, keyId, SlotName(TagOf(t, keyId), slot), now)
  {
    var job := JobOf(t, keyId, now);
    var start := Start(t, job, ps);
    PlaceAllRow(job, ps, start, id);
    LastWithFinds(ps, id);
    NewIdsAreNew(t, keyId, ps, now, id);
  }

  lemma NewIdsAreNew(t: Tables, keyId: int, ps: seq<Proxy>, now: int, id: string)
    requires keyId in t.keys && Synced(t, keyId, ps, now).Some?
    ensures id in Incoming(ps) && id !in KeyRows(t, keyId) ==> id !in t.upstreams
  {
    SyncFailsExactlyOnClash(t, keyId, ps, now);
    if id in Incoming(ps) && id !in KeyRows(t, keyId) {
      var i :| 0 <= i < |ps| && IdOf(ps[i]) == id;
      assert !ClashAt(t.upstreams, LoadExisting(t, keyId), ps, i);
    }
  }

  /** After a successful sync the key has exactly the response's ids, and every
      row of another key, manual or default source is as before. */
  lemma SyncHasExactlyTheResponse(t: Tables, keyId: int, ps: seq<Proxy>, now: int, t': Tables)
    requires keyId in t.keys && Synced(t, keyId, ps, now) == Some(t')
    ensures KeyRows(t', keyId) == Incoming(ps)
    ensures t'.upstreams.Keys == t.upstreams.Keys - KeyRows(t, keyId) + Incoming(ps)
    ensures forall id :: id in t.upstreams && id !in KeyRows(t, keyId) ==>
              id !in Incoming(ps) && id in t'.upstreams && t'.upstreams[id] == t.upstreams[id]
  {
    hide Synced, Incoming;
    forall id: string
      ensures id in KeyRows(t', keyId) <==> id in Incoming(ps)
      ensures id in t'.upstreams <==> (id in t.upstreams && id !in KeyRows(t, keyId)) || id in Incoming(ps)
      ensures id in t.upstreams && id !in KeyRows(t, keyId) ==>
                id !in Incoming(ps) && id in t'.upstreams && t'.upstreams[id] == t.upstreams[id]
    {
      SyncedRow(t, keyId, ps, now, t', id);
    }
  }

  /** Each row of the key reports the last element of the response with its id;
      survivors keep protocol and name, a legacy name being rewritten, and
      newcomers get a canonical name of this key. */
  lemma SyncReportsTheResponse(t: Tables, keyId: int, ps: seq<Proxy>, now: int, t': Tables, id: string)
    requires keyId in t.keys && Synced(t, keyId, ps, now) == Some(t') && id in Incoming(ps)
    ensures id in t'.upstreams && LastWith(ps, id).Some? && Reports(t'.upstreams[id], LastWith(ps, id).value)
    ensures var country, tag := LastWith(ps, id).value.country, TagOf(t, keyId);
            if id in KeyRows(t, keyId) then
              && t'.upstreams[id].protocol == t.upstreams[id].protocol
              && t'.upstreams[id].displayName == Rewritten(t.upstreams[id].displayName, country, tag)
            else
              t'.upstreams[id].displayName ==
              FormatDisplayName(country, tag, GivenSlot(t, keyId, ps, now, id).1)
  {
    SyncedRow(t, keyId, ps, now, t', id);
  }

  /** Exactly the users of deleted rows are unmapped; nothing else changes
      outside the upstream table but the key's sync stamp. */
  lemma SyncUnmapsExactlyTheDeleted(t: Tables, keyId: int, ps: seq<Proxy>, now: int, t': Tables)
    requires keyId in t.keys && Synced(t, keyId, ps, now) == Some(t')
    ensures t'.users.Keys == t.users.Keys
    ensures forall u :: u in t.users ==>
              t'.users[u] == if t.users[u].upstreamId.Some? &&
                                t.users[u].upstreamId.value in KeyRows(t, keyId) - Incoming(ps)
                             then t.users[u].(upstreamId := None) else t.users[u]
    ensures t'.universalPwd == t.universalPwd
    ensures t'.keys == t.keys[keyId := t.keys[keyId].(lastSyncedAt := Some(now), lastSyncError := "")]
    ensures ForeignKeys(t) ==> ForeignKeys(t')
  {
    SyncHasExactlyTheResponse(t, keyId, ps, now, t');
  }

  /** Repeating a sync with the same response changes no row except its
      last-seen time, and no user. */
  lemma RepeatedSyncChangesNothing(t: Tables, keyId: int, ps: seq<Proxy>, now: int, later: int, t': Tables)
    requires keyId in t.keys && Synced(t, keyId, ps, now) == Some(t')
    ensures var again := Synced(t', keyId, ps, later);
            && again.Some?
            && again.value.users == t'.users
            && again.value.upstreams.Keys == t'.upstreams.Keys
            && forall id :: id in t'.upstreams ==>
                 again.value.upstreams[id].(lastSeen := t'.upstreams[id].lastSeen) == t'.upstreams[id]
  {
    SyncHasExactlyTheResponse(t, keyId, ps, now, t');
    SyncFailsExactlyOnClash(t', keyId, ps, later);
    RepeatedSyncSucceeds(LoadExisting(t', keyId), t'.upstreams, ps);
    var t'' := Synced(t', keyId, ps, later).value;
    SyncHasExactlyTheResponse(t', keyId, ps, later, t'');
    RepeatedUsers(t, keyId, ps, now, later, t', t'');
    forall id | id in t'.upstreams
      ensures t''.upstreams[id].(lastSeen := t'.upstreams[id].lastSeen) == t'.upstreams[id]
    {
      RepeatedRow(t, keyId, ps, now, later, t', t'', id);
    }
  }

  lemma RepeatedSyncSucceeds(existing: map<string, Existing>, rows: map<string, Row>, ps: seq<Proxy>)
    requires existing.Keys == Incoming(ps)
    ensures !Clashes(rows, existing, ps)
  {
  }

  lemma RepeatedUsers(t: Tables, keyId: int, ps: seq<Proxy>, now: int, later: int, t': Tables, t'': Tables)
    requires keyId in t.keys && keyId in t'.keys
    requires Synced(t, keyId, ps, now) == Some(t') && Synced(t', keyId, ps, later) == Some(t'')
    ensures t''.users == t'.users
  {
    SyncHasExactlyTheResponse(t, keyId, ps, now, t');
    SyncUnmapsExactlyTheDeleted(t', keyId, ps, later, t'');
  }

  lemma RepeatedRow(t: Tables, keyId: int, ps: seq<Proxy>, now: int, later: int, t': Tables, t'': Tables, id: string)
    requires keyId in t.keys && keyId in t'.keys
    requires Synced(t, keyId, ps, now) == Some(t') && Synced(t', keyId, ps, later) == Some(t'')
    requires id in t'.upstreams
    ensures id in t''.upstreams
    ensures t''.upstreams[id].(lastSeen := t'.upstreams[id].lastSeen) == t'.upstreams[id]
  {
    SyncedRow(t, keyId, ps, now, t', id);
    SyncedRow(t', keyId, ps, later, t'', id);
    if id in Incoming(ps) {
      var country, tag := LastWith(ps, id).value.country, TagOf(t, keyId);
      RewriteIsAFixpoint(if id in KeyRows(t, keyId) then t.upstreams[id].displayName else "", country, tag);
      SyncReportsTheResponse(t, keyId, ps, now, t', id);
      assert Rewritten(t'.upstreams[id].displayName, country, tag) == t'.upstreams[id].displayName;
    }
  }
}
