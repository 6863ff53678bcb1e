/** The registry of live connections (internal/registry/registry.go): one map by
    connection id and one index by "username|upstream id". */
module Registry {
  /** cancel names the context the connection's CancelFunc ends. */
  datatype ActiveConnection = ActiveConnection(username: string, upstreamId: string, cancel: nat)

  function KeyText(username: string, upstreamId: string): string {
    username + "|" + upstreamId
  }

  function KeyOf(c: ActiveConnection): string {
    KeyText(c.username, c.upstreamId)
  }

  datatype State = State(conns: map<nat, ActiveConnection>, byKey: map<string, set<nat>>, nextId: nat)

  const EMPTY := State(map[], map[], 0)

  // ----- the two updates as functions -----------------------------------------

  function AfterRegister(s: State, c: ActiveConnection): State {
    var id, key := s.nextId + 1, KeyOf(c);
    var ids := if key in s.byKey then s.byKey[key] else {};
    State(s.conns[id := c], s.byKey[key := ids + {id}], id)
  }

  function AfterDeregister(s: State, id: nat): State {
    if id !in s.conns then s
    else
      var key := KeyOf(s.conns[id]);
      var byKey :=
        if key !in s.byKey then s.byKey
        else if s.byKey[key] - {id} == {} then s.byKey - {key}
        else s.byKey[key := s.byKey[key] - {id}];
      s.(conns := s.conns - {id}, byKey := byKey)
  }

  /** Live connections that a full scan on a key finds. */
  function WithKey(s: State, key: string): set<nat> {
    set id | id in s.conns && KeyOf(s.conns[id]) == key
  }

  /** byKey is exactly the grouping of the live connections, without empty
      groups, and ids are never reused. */
  ghost predicate Grouped(s: State) {
    && (forall key :: key in s.byKey ==> s.byKey[key] == WithKey(s, key) && s.byKey[key] != {})
    && (forall id :: id in s.conns ==> KeyOf(s.conns[id]) in s.byKey && 1 <= id <= s.nextId)
  }

  // ----- every run ----------------------------------------------------------------

  datatype Op = Register(c: ActiveConnection) | Deregister(id: nat)

  function Apply(s: State, op: Op): State {
    match op
    case Register(c) => AfterRegister(s, c)
    case Deregister(id) => AfterDeregister(s, id)
  }

  function Run(ops: seq<Op>): State {
    if ops == [] then EMPTY else Apply(Run(ops[..|ops| - 1]), ops[|ops| - 1])
  }

  lemma RegisterKeepsGrouped(s: State, c: ActiveConnection)
    requires Grouped(s)
    ensures Grouped(AfterRegister(s, c))
    ensures s.nextId + 1 !in s.conns
  {
    var s' := AfterRegister(s, c);
    var id, key := s.nextId + 1, KeyOf(c);
    assert WithKey(s', key) == WithKey(s, key) + {id};
    if key !in s.byKey {
      assert WithKey(s, key) == {};
    }
    forall k | k in s'.byKey && k != key ensures s'.byKey[k] == WithKey(s', k) {
      assert WithKey(s', k) == WithKey(s, k);
    }
  }

  lemma DeregisterKeepsGrouped(s: State, id: nat)
    requires Grouped(s)
    ensures Grouped(AfterDeregister(s, id))
  {
    if id in s.conns {
      var s' := AfterDeregister(s, id);
      var key := KeyOf(s.conns[id]);
      assert WithKey(s', key) == WithKey(s, key) - {id};
      forall k | k in s.byKey && k != key ensures WithKey(s', k) == WithKey(s, k) {
      }
      forall other | other in s'.conns ensures KeyOf(s'.conns[other]) in s'.byKey {
        if KeyOf(s.conns[other]) == key {
          assert other in WithKey(s', key);
        }
      }
    }
  }

  /** A registration and its removal cancel out, but for the id that is used up. */
  lemma RegisterThenDeregister(s: State, c: ActiveConnection)
    requires Grouped(s)
    ensures AfterDeregister(AfterRegister(s, c), s.nextId + 1) == s.(nextId := s.nextId + 1)
  {
    var id, key, with := s.nextId + 1, KeyOf(c), AfterRegister(s, c);
    assert id !in s.conns;
    assert with.conns - {id} == s.conns;
    if key in s.byKey {
      assert id !in s.byKey[key] && with.byKey[key] - {id} == s.byKey[key];
      assert with.byKey[key := s.byKey[key]] == s.byKey;
    } else {
      assert with.byKey[key] - {id} == {} && with.byKey - {key} == s.byKey;
    }
  }

  /** After any sequence of registrations and removals the index is exact. */
  lemma {:induction false} EveryRunIsGrouped(ops: seq<Op>)
    ensures Grouped(Run(ops))
  {
    if ops != [] {
      EveryRunIsGrouped(ops[..|ops| - 1]);
      var s := Run(ops[..|ops| - 1]);
      match ops[|ops| - 1]
      case Register(c) => RegisterKeepsGrouped(s, c);
      case Deregister(id) => DeregisterKeepsGrouped(s, id);
    }
  }

  // ----- keys identify (username, upstream) pairs -----------------------------------

  /** The key text of any two pairs with upstream ids from ps tells them apart. */
  ghost predicate KeysIdentify(ps: set<string>) {
    forall u1, p1, u2, p2 :: p1 in ps && p2 in ps && KeyText(u1, p1) == KeyText(u2, p2) ==> u1 == u2 && p1 == p2
  }

  /** p ends in a bar and then q. */
  predicate EndsInBar(p: string, q: string) {
    |p| > |q| && p[|p| - |q|..] == q && p[|p| - |q| - 1] == '|'
  }

  predicate Unconfused(ps: set<string>) {
    forall p, q :: p in ps && q in ps ==> !EndsInBar(p, q)
  }

  lemma EqualKeys(u1: string, p1: string, u2: string, p2: string)
    requires KeyText(u1, p1) == KeyText(u2, p2)
    ensures |p1| == |p2| ==> u1 == u2 && p1 == p2
    ensures |p1| > |p2| ==> EndsInBar(p1, p2)
  {
    var t := KeyText(u1, p1);
    assert t[|u1| + 1..] == p1 && t[|u2| + 1..] == p2 && t[..|u1|] == u1 && t[..|u2|] == u2;
    if |p1| > |p2| {
      assert t[|u2|] == '|' && p1[|p1| - |p2| - 1] == t[|t| - |p2| - 1];
      assert p1[|p1| - |p2|..] == t[|t| - |p2|..];
    }
  }

  /** A set of upstream ids makes key texts ambiguous exactly when one of them
      ends in a bar followed by one of them. */
  lemma KeysIdentifyExactly(ps: set<string>)
    ensures KeysIdentify(ps) <==> Unconfused(ps)
  {
    if Unconfused(ps) {
      forall u1, p1, u2, p2 | p1 in ps && p2 in ps && KeyText(u1, p1) == KeyText(u2, p2)
        ensures u1 == u2 && p1 == p2
      {
        EqualKeys(u1, p1, u2, p2);
        EqualKeys(u2, p2, u1, p1);
      }
    }
    if KeysIdentify(ps) {
      forall p, q | p in ps && q in ps ensures !EndsInBar(p, q) {
        if EndsInBar(p, q) {
          BarMovesOver(p, q);
        }
      }
    }
  }

  lemma BarMovesOver(p: string, q: string)
    requires EndsInBar(p, q)
    ensures KeyText("", p) == KeyText("|" + p[..|p| - |q| - 1], q)
  {
    var x := p[..|p| - |q| - 1];
    assert p == x + "|" + q;
    assert "" + "|" + (x + "|" + q) == "|" + x + "|" + q;
  }

  /** The ids the daemon makes: sixteen hexadecimal digits, or "default". */
  predicate IsMadeId(p: string) {
    p == "default" || (|p| == 16 && forall i :: 0 <= i < |p| ==> '0' <= p[i] <= '9' || 'a' <= p[i] <= 'f')
  }

  lemma MadeIdsAreUnconfused(ps: set<string>)
    requires forall p :: p in ps ==> IsMadeId(p)
    ensures Unconfused(ps)
  {
    forall p, q | p in ps && q in ps ensures !EndsInBar(p, q) {
      assert IsMadeId(p);
    }
  }

  /** What a scan of all live connections on (username, upstream) finds. */
  function ScanUserUpstream(s: State, username: string, upstreamId: string): set<nat> {
    set id | id in s.conns && s.conns[id].username == username && s.conns[id].upstreamId == upstreamId
  }

  function ScanUpstream(s: State, upstreamId: string): set<nat> {
    set id | id in s.conns && s.conns[id].upstreamId == upstreamId
  }

  function ScanUsername(s: State, username: string): set<nat> {
    set id | id in s.conns && s.conns[id].username == username
  }

  function UpstreamIds(s: State): set<string> {
    set id | id in s.conns :: s.conns[id].upstreamId
  }

  /** The index lookup finds precisely what the full scan would. */
  lemma LookupIsTheScan(s: State, username: string, upstreamId: string)
    requires Grouped(s) && Unconfused(UpstreamIds(s) + {upstreamId})
    ensures var key := KeyText(username, upstreamId);
            (if key in s.byKey then s.byKey[key] else {}) == ScanUserUpstream(s, username, upstreamId)
  {
    var key := KeyText(username, upstreamId);
    KeysIdentifyExactly(UpstreamIds(s) + {upstreamId});
    forall id | id in s.conns
      ensures KeyOf(s.conns[id]) == key <==> s.conns[id].username == username && s.conns[id].upstreamId == upstreamId
    {
      assert s.conns[id].upstreamId in UpstreamIds(s) + {upstreamId};
    }
    assert WithKey(s, key) == ScanUserUpstream(s, username, upstreamId);
    assert key !in s.byKey ==> WithKey(s, key) == {};
  }

  // ----- the class ----------------------------------------------------------------------

  /** The contexts of a set of connections. */
  function CancelsOf(conns: map<nat, ActiveConnection>, ids: set<nat>): set<nat> {
    set id | id in ids && id in conns :: conns[id].cancel
  }

  class ConnectionRegistry {
    var conns: map<nat, ActiveConnection>
    var byKey: map<string, set<nat>>
    var nextId: nat
    /** The contexts whose CancelFunc has been called. */
    var cancelled: set<nat>

    ghost function View(): State
      reads this
    {
      State(conns, byKey, nextId)
    }

    ghost predicate Valid()
      reads this
    {
      Grouped(View())
    }

    constructor ()
      ensures Valid() && View() == EMPTY && cancelled == {}
    {
      conns, byKey, nextId, cancelled := map[], map[], 0, {};
    }

    method Register(c: ActiveConnection) returns (id: nat)
      requires Valid()
      modifies this
      ensures Valid() && View() == AfterRegister(old(View()), c) && cancelled == old(cancelled)
      ensures id == nextId && id !in old(conns) && conns == old(conns)[id := c]
    {
      ghost var before := View();
      nextId := nextId + 1;
      id := nextId;
      var key := c.username + "|" + c.upstreamId;
      conns := conns[id := c];
      if key !in byKey {
        byKey := byKey[key := {}];
      }
      byKey := byKey[key := byKey[key] + {id}];
      assert byKey == AfterRegister(before, c).byKey;
      assert View() == AfterRegister(before, c);
      RegisterKeepsGrouped(before, c);
    }

    method Deregister(id: nat)
      requires Valid()
      modifies this
      ensures Valid() && View() == AfterDeregister(old(View()), id) && cancelled == old(cancelled)
      ensures conns == old(conns) - {id}
    {
      DeregisterKeepsGrouped(View(), id);
      if id in conns {
        var c := conns[id];
        var key := c.username + "|" + c.upstreamId;
        if key in byKey {
          var ids := byKey[key] - {id};
          if |ids| == 0 {
            byKey := byKey - {key};
          } else {
            byKey := byKey[key := ids];
          }
        }
        conns := conns - {id};
      }
    }

    /** Cancels what the index lists under the pair's key. */
    method CloseByUserUpstream(username: string, upstreamId: string) returns (n: nat)
      requires Valid()
      modifies this`cancelled
      ensures Valid()
      ensures cancelled == old(cancelled) + CancelsOf(conns, WithKey(View(), KeyText(username, upstreamId)))
      ensures n == |WithKey(View(), KeyText(username, upstreamId))|
      ensures Unconfused(UpstreamIds(View()) + {upstreamId}) ==>
                && cancelled == old(cancelled) + CancelsOf(conns, ScanUserUpstream(View(), username, upstreamId))
                && n == |ScanUserUpstream(View(), username, upstreamId)|
    {
      var key := username + "|" + upstreamId;
      var ids := if key in byKey then byKey[key] else {};
      assert ids == WithKey(View(), key);
      if Unconfused(UpstreamIds(View()) + {upstreamId}) {
        LookupIsTheScan(View(), username, upstreamId);
      }
      n := CancelEach(ids);
    }

    method CloseByUpstream(upstreamId: string) returns (n: nat)
      requires Valid()
      modifies this`cancelled
      ensures Valid()
      ensures cancelled == old(cancelled) + CancelsOf(conns, ScanUpstream(View(), upstreamId))
      ensures n == |ScanUpstream(View(), upstreamId)|
    {
      var ids := set id | id in conns && conns[id].upstreamId == upstreamId;
      assert ids == ScanUpstream(View(), upstreamId);
      n := CancelEach(ids);
    }

    method CloseByUsername(username: string) returns (n: nat)
      requires Valid()
      modifies this`cancelled
      ensures Valid()
      ensures cancelled == old(cancelled) + CancelsOf(conns, ScanUsername(View(), username))
      ensures n == |ScanUsername(View(), username)|
    {
      var ids := set id | id in conns && conns[id].username == username;
      assert ids == ScanUsername(View(), username);
      n := CancelEach(ids);
    }

    /** The collecting loop the three sweeps share. */
    method CancelEach(ids: set<nat>) returns (n: nat)
      requires ids <= conns.Keys
      modifies this`cancelled
      ensures cancelled == old(cancelled) + CancelsOf(conns, ids)
      ensures n == |ids|
    {
      n := 0;
      var todo := ids;
      while todo != {}
        invariant todo <= ids
        invariant n + |todo| == |ids|
        invariant cancelled == old(cancelled) + CancelsOf(conns, ids - todo)
        decreases |todo|
      {
        var id :| id in todo;
        assert ids - (todo - {id}) == ids - todo + {id};
        cancelled := cancelled + {conns[id].cancel};
        todo := todo - {id};
        n := n + 1;
      }
      assert ids - todo == ids;
    }
  }
}
