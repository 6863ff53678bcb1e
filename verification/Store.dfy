/** The part of the SQLite schema the daemon's logic depends on, as maps. A
    transaction works on a copy of the tables and commits by assignment. */
module Store {
  import opened Prelude

  datatype Source = Webshare | Manual | Default

  /** Where an upstream is reached and what it is told. */
  datatype Endpoint = Endpoint(host: string, port: nat, username: string, password: string)

  /** A row of upstream_proxies; its id is the key of the table. */
  datatype Row = Row(
    source: Source, keyId: Option<int>, endpoint: Endpoint, protocol: string,
    displayName: string, country: string, city: string, lastSeen: int)

  datatype User = User(password: string, upstreamId: Option<string>, broken: bool)

  datatype ApiKey = ApiKey(name: string, lastSyncedAt: Option<int>, lastSyncError: string)

  datatype Tables = Tables(
    upstreams: map<string, Row>, users: map<string, User>, keys: map<int, ApiKey>,
    universalPwd: string)

  /** local_users.upstream_proxy_id REFERENCES upstream_proxies(id) */
  ghost predicate ForeignKeys(t: Tables) {
    forall u :: u in t.users && t.users[u].upstreamId.Some? ==> t.users[u].upstreamId.value in t.upstreams
  }

  /** DELETE FROM upstream_proxies, with its ON DELETE SET NULL action on the
      users mapped to the deleted rows. */
  function DeleteUpstreams(t: Tables, ids: set<string>): Tables {
    t.(upstreams := t.upstreams - ids,
       users := map u | u in t.users :: Unmapped(t.users[u], ids))
  }

  function Unmapped(u: User, ids: set<string>): User {
    if u.upstreamId.Some? && u.upstreamId.value in ids then u.(upstreamId := None) else u
  }

  /** The handle every service shares. */
  class Database {
    var tables: Tables

    constructor (t: Tables)
      ensures tables == t
    {
      tables := t;
    }
  }
}
