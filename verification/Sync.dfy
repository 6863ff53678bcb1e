/** The sync reconciler (internal/sync/sync.go): one call turns the rows of one
    API key into what Webshare returned for it. */
module Sync {
  import opened Prelude
  import opened Decimal
  import opened DisplayName
  import opened Allocator
  import opened Store

  /** One element of Webshare's proxy list. */
  datatype Proxy = Proxy(endpoint: Endpoint, country: string, city: string)

  datatype SyncError = NoSuchKey | FetchFailed(message: string) | InsertClash(id: string) | StorageFailed

  /** Where storage lets a sync down: reading the key, recording a failed fetch,
      or anywhere between opening the transaction and its commit. */
  datatype Fault = NoFault | KeyUnread | ErrorUnrecorded | TransactionFails

  /** The primary key of a synced row. The program uses a prefix of the SHA-1
      of this text; the text itself stands for the digest. */
  function StableID(host: string, port: nat, username: string): string {
    host + ":" + Itoa(port) + ":" + username
  }

  function IdOf(p: Proxy): string {
    StableID(p.endpoint.host, p.endpoint.port, p.endpoint.username)
  }

  function Incoming(ps: seq<Proxy>): (ids: set<string>) {
    set p | p in ps :: IdOf(p)
  }

  // ----- specification of one sync ----------------------------------------

  datatype Existing = Existing(displayName: string, country: string)

  predicate BelongsTo(r: Row, keyId: int) {
    r.source == Webshare && r.keyId == Some(keyId)
  }

  function LoadExisting(t: Tables, keyId: int): (m: map<string, Existing>)
    ensures m.Keys <= t.upstreams.Keys
  {
    map id | id in t.upstreams && BelongsTo(t.upstreams[id], keyId)
      :: Existing(t.upstreams[id].displayName, t.upstreams[id].country)
  }

  /** The slot a surviving row will occupy, if its name is in this key's
      canonical namespace or about to be rewritten into it. */
  function Reservation(e: Existing, tag: string): Option<(string, nat)> {
    match ParseDisplayName(e.displayName)
    case Some(p) =>
      if p.country == e.country && p.tag == tag then Some((p.country, p.slot)) else LegacyReservation(e)
    case None => LegacyReservation(e)
  }

  function LegacyReservation(e: Existing): Option<(string, nat)> {
    match ParseLegacyDisplayName(e.displayName)
    case Some(p) => Some((e.country, p.slot))
    case None => None
  }

  function Reservations(existing: map<string, Existing>, surviving: set<string>, tag: string): set<(string, nat)> {
    set id | id in existing && id in surviving && Reservation(existing[id], tag).Some?
      :: Reservation(existing[id], tag).value
  }

  /** Rows after part of the response has been written, the occupied slots, and
      the slot each inserted row was given. */
  datatype Progress = Progress(
    rows: map<string, Row>, taken: set<(string, nat)>, given: map<string, (string, nat)>)

  function UpdatedRow(r: Row, p: Proxy, e: Existing, tag: string, now: int): Row {
    var refreshed := r.(endpoint := p.endpoint, country := p.country, city := p.city, lastSeen := now);
    match ParseLegacyDisplayName(e.displayName)
    case Some(legacy) => refreshed.(displayName := FormatDisplayName(p.country, tag, legacy.slot))
    case None => refreshed
  }

  function InsertedRow(p: Proxy, keyId: int, name: string, now: int): Row {
    Row(Webshare, Some(keyId), p.endpoint, "http", name, p.country, p.city, now)
  }

  /** Context that stays fixed while the response is processed. */
  datatype Job = Job(existing: map<string, Existing>, tag: string, keyId: int, now: int)

  /** One element of the response: None is a primary-key violation. */
  function Place(job: Job, p: Proxy, st: Progress): (r: Option<Progress>)
    requires job.existing.Keys <= st.rows.Keys
    ensures r.Some? ==> job.existing.Keys <= r.value.rows.Keys
  {
    var id := IdOf(p);
    if id in job.existing then
      Some(st.(rows := st.rows[id := UpdatedRow(st.rows[id], p, job.existing[id], job.tag, job.now)]))
    else if id in st.rows then None
    else
      var n := LeastFree(Numbers(st.taken, p.country));
      var name := FormatDisplayName(p.country, job.tag, n);
      Some(Progress(st.rows[id := InsertedRow(p, job.keyId, name, job.now)],
                    st.taken + {(p.country, n)},
                    st.given[id := (p.country, n)]))
  }

  function PlaceAll(job: Job, ps: seq<Proxy>, st: Progress): (r: Option<Progress>)
    requires job.existing.Keys <= st.rows.Keys
    ensures r.Some? ==> job.existing.Keys <= r.value.rows.Keys
  {
    if ps == [] then Some(st)
    else
      match PlaceAll(job, ps[..|ps| - 1], st)
      case None => None
      case Some(mid) => Place(job, ps[|ps| - 1], mid)
  }

  function JobOf(t: Tables, keyId: int, now: int): Job
    requires keyId in t.keys
  {
    Job(LoadExisting(t, keyId), Sanitized(t.keys[keyId].name), keyId, now)
  }

  function Start(t: Tables, job: Job, ps: seq<Proxy>): Progress {
    Progress(t.upstreams, Reservations(job.existing, Incoming(ps), job.tag), map[])
  }

  function Stale(job: Job, ps: seq<Proxy>): set<string> {
    job.existing.Keys - Incoming(ps)
  }

  function MarkSuccess(t: Tables, keyId: int, now: int): Tables
    requires keyId in t.keys
  {
    t.(keys := t.keys[keyId := t.keys[keyId].(lastSyncedAt := Some(now), lastSyncError := "")])
  }

  function MarkError(t: Tables, keyId: int, message: string): Tables
    requires keyId in t.keys
  {
    t.(keys := t.keys[keyId := t.keys[keyId].(lastSyncError := message)])
  }

  /** The tables a successful sync commits; None when an insert clashes. */
  function Synced(t: Tables, keyId: int, ps: seq<Proxy>, now: int): Option<Tables>
    requires keyId in t.keys
  {
    var job := JobOf(t, keyId, now);
    match PlaceAll(job, ps, Start(t, job, ps))
    case None => None
    case Some(done) =>
      Some(MarkSuccess(DeleteUpstreams(t.(upstreams := done.rows), Stale(job, ps)), keyId, now))
  }

  // ----- the program --------------------------------------------------------

  method BuildSeqAllocator(existing: map<string, Existing>, surviving: set<string>, tag: string)
    returns (alloc: SeqAllocator)
    ensures fresh(alloc)
    ensures alloc.Occupied() == Reservations(existing, surviving, tag)
  {
    alloc := new SeqAllocator();
    var todo := existing;
    while todo.Keys != {}
      invariant fresh(alloc)
      invariant todo.Keys <= existing.Keys
      invariant alloc.Occupied() == Reservations(existing, surviving - todo.Keys, tag)
      decreases |todo.Keys|
    {
      var id :| id in todo.Keys;
      ghost var before := surviving - todo.Keys;
      todo := todo - {id};
      ghost var after := surviving - todo.Keys;
      if id !in surviving {
        assert before == after;
        continue;
      }
      assert after == before + {id};
      ReservationsAdd(existing, before, id, tag);
      var e := existing[id];
      var canonical := ParseDisplayName(e.displayName);
      if canonical.Some? && canonical.value.country == e.country && canonical.value.tag == tag {
        alloc.Reserve(canonical.value.country, canonical.value.slot);
        continue;
      }
      var legacy := ParseLegacyDisplayName(e.displayName);
      if legacy.Some? {
        alloc.Reserve(e.country, legacy.value.slot);
      }
    }
    assert surviving - todo.Keys == surviving;
  }

  lemma ReservationsAdd(existing: map<string, Existing>, ids: set<string>, id: string, tag: string)
    requires id in existing
    ensures Reservations(existing, ids + {id}, tag) ==
            Reservations(existing, ids, tag) +
            (match Reservation(existing[id], tag) case Some(slot) => {slot} case None => {})
  {
  }

  method CollectIncoming(ps: seq<Proxy>) returns (incoming: set<string>)
    ensures incoming == Incoming(ps)
  {
    incoming := {};
    for i := 0 to |ps|
      invariant incoming == Incoming(ps[..i])
    {
      assert ps[..i + 1] == ps[..i] + [ps[i]];
      incoming := incoming + {IdOf(ps[i])};
    }
    assert ps[..|ps|] == ps;
  }

  /** A clash anywhere in the response makes the whole response clash. */
  lemma {:induction false} ClashPropagates(job: Job, ps: seq<Proxy>, i: nat, st: Progress)
    requires job.existing.Keys <= st.rows.Keys && i <= |ps|
    requires PlaceAll(job, ps[..i], st).None?
    ensures PlaceAll(job, ps, st).None?
    decreases |ps| - i
  {
    if i == |ps| {
      assert ps[..i] == ps;
    } else {
      assert ps[..i + 1][..i] == ps[..i];
      ClashPropagates(job, ps, i + 1, st);
    }
  }

  class Service {
    const db: Database

    constructor (db: Database)
      ensures this.db == db
    {
      this.db := db;
    }

    /** Reconciles the key's rows with the fetched list. The tables change all
        at once or, on an insert clash or a storage failure, not at all; a failed
        fetch only records its message, if it can. */
    method SyncKey(keyId: int, fetched: Result<seq<Proxy>, string>, now: int, fault: Fault)
      returns (err: Option<SyncError>)
      modifies db
      ensures fault == KeyUnread ==> err == Some(StorageFailed) && db.tables == old(db.tables)
      ensures fault != KeyUnread && keyId !in old(db.tables).keys ==> err == Some(NoSuchKey) && db.tables == old(db.tables)
      ensures fault != KeyUnread && keyId in old(db.tables).keys && fetched.Failure? ==>
                err == Some(FetchFailed(fetched.error)) &&
                db.tables == if fault == ErrorUnrecorded then old(db.tables) else MarkError(old(db.tables), keyId, fetched.error)
      ensures fault == TransactionFails && keyId in old(db.tables).keys && fetched.Success? ==>
                err.Some? && (err.value.InsertClash? || err.value.StorageFailed?) && db.tables == old(db.tables)
      ensures (fault == NoFault || fault == ErrorUnrecorded) && keyId in old(db.tables).keys && fetched.Success? ==>
                match Synced(old(db.tables), keyId, fetched.value, now)
                case Some(t) => err == None && db.tables == t
                case None => err.Some? && err.value.InsertClash? && db.tables == old(db.tables)
    {
      if fault == KeyUnread {
        return Some(StorageFailed);
      }
      if keyId !in db.tables.keys {
        return Some(NoSuchKey);
      }
      if fetched.Failure? {
        if fault != ErrorUnrecorded {
          db.tables := MarkError(db.tables, keyId, fetched.error);
        }
        return Some(FetchFailed(fetched.error));
      }
      var ps := fetched.value;
      var tx := db.tables;
      var existing := LoadExisting(tx, keyId);
      var tag := SanitizeLabel(tx.keys[keyId].name);
      var incoming := CollectIncoming(ps);
      var alloc := BuildSeqAllocator(existing, incoming, tag);
      var rows, clash := WriteResponse(existing, tag, keyId, now, ps, alloc, tx.upstreams);
      if clash.Some? {
        return Some(InsertClash(clash.value));
      }
      tx := tx.(upstreams := rows);
      tx := DeleteStale(tx, existing.Keys - incoming);
      tx := MarkSuccess(tx, keyId, now);
      if fault == TransactionFails {
        return Some(StorageFailed);
      }
      db.tables := tx;
      return None;
    }
  }

  /** The loop that updates the surviving rows and inserts the new ones. */
  method WriteResponse(
    existing: map<string, Existing>, tag: string, keyId: int, now: int,
    ps: seq<Proxy>, alloc: SeqAllocator, initial: map<string, Row>)
    returns (rows: map<string, Row>, clash: Option<string>)
    requires existing.Keys <= initial.Keys
    modifies alloc
    ensures var end := PlaceAll(Job(existing, tag, keyId, now), ps, Progress(initial, old(alloc.Occupied()), map[]));
            if end.Some? then clash == None && rows == end.value.rows else clash.Some?
  {
    ghost var job := Job(existing, tag, keyId, now);
    ghost var start := Progress(initial, alloc.Occupied(), map[]);
    ghost var st := start;
    rows := initial;
    var i := 0;
    while i < |ps|
      invariant 0 <= i <= |ps|
      invariant PlaceAll(job, ps[..i], start) == Some(st)
      invariant rows == st.rows && alloc.Occupied() == st.taken
      invariant existing.Keys <= rows.Keys
    {
      assert ps[..i + 1][..i] == ps[..i];
      var p := ps[i];
      var id := IdOf(p);
      if id in existing {
        var r := rows[id].(endpoint := p.endpoint, country := p.country, city := p.city, lastSeen := now);
        var legacy := ParseLegacyDisplayName(existing[id].displayName);
        if legacy.Some? {
          r := r.(displayName := FormatDisplayName(p.country, tag, legacy.value.slot));
        }
        rows := rows[id := r];
      } else {
        var n := alloc.Next(p.country);
        var name := FormatDisplayName(p.country, tag, n);
        if id in rows {
          ClashPropagates(job, ps, i + 1, start);
          return rows, Some(id);
        }
        rows := rows[id := InsertedRow(p, keyId, name, now)];
      }
      st := Place(job, p, st).value;
      i := i + 1;
    }
    assert ps[..i] == ps;
    clash := None;
  }

  /** The loop that deletes the rows the response no longer lists. */
  method DeleteStale(t: Tables, stale: set<string>) returns (tx: Tables)
    ensures tx == DeleteUpstreams(t, stale)
  {
    tx := t;
    DeleteNone(t);
    var todo := stale;
    while todo != {}
      invariant todo <= stale
      invariant tx == DeleteUpstreams(t, stale - todo)
      decreases |todo|
    {
      var id :| id in todo;
      DeleteOneMore(t, stale - todo, id);
      tx := DeleteUpstreams(tx, {id});
      assert stale - (todo - {id}) == stale - todo + {id};
      todo := todo - {id};
    }
    assert stale - todo == stale;
  }

  lemma DeleteNone(t: Tables)
    ensures DeleteUpstreams(t, {}) == t
  {
    assert DeleteUpstreams(t, {}).upstreams == t.upstreams;
    assert DeleteUpstreams(t, {}).users == t.users;
  }

  lemma DeleteOneMore(t: Tables, ids: set<string>, id: string)
    ensures DeleteUpstreams(DeleteUpstreams(t, ids), {id}) == DeleteUpstreams(t, ids + {id})
  {
    var a, b := DeleteUpstreams(DeleteUpstreams(t, ids), {id}), DeleteUpstreams(t, ids + {id});
    assert a.upstreams == b.upstreams;
    assert a.users == b.users;
  }
}
