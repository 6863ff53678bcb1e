/** A same-country replacement conserves routing keys: swapping j rows of a
    country whose names are slots 1..k for j new ones keeps the set of names. */
module SyncReplace {
  import opened Prelude
  import opened Decimal
  import opened DisplayName
  import opened Allocator
  import opened Store
  import opened Sync
  import opened SyncLaws

  ghost function CountryRows(t: Tables, keyId: int, cc: string): set<string> {
    set id | id in KeyRows(t, keyId) && t.upstreams[id].country == cc
  }

  ghost function NamesOf(t: Tables, ids: set<string>): set<string> {
    set id | id in ids && id in t.upstreams :: t.upstreams[id].displayName
  }

  function SlotNames(tag: string, cc: string, k: nat): set<string> {
    set n | 1 <= n <= k :: FormatDisplayName(cc, tag, n)
  }

  /** The key's rows in cc are named by slots 1..k, each used once. */
  ghost predicate FillsSlots(t: Tables, keyId: int, cc: string, k: nat)
    requires keyId in t.keys
  {
    && NamesOf(t, CountryRows(t, keyId, cc)) == SlotNames(TagOf(t, keyId), cc, k)
    && forall a, b :: a in CountryRows(t, keyId, cc) && b in CountryRows(t, keyId, cc) && a != b ==>
         t.upstreams[a].displayName != t.upstreams[b].displayName
  }

  ghost predicate SurvivorsStay(t: Tables, keyId: int, ps: seq<Proxy>) {
    forall p :: p in ps && IdOf(p) in KeyRows(t, keyId) ==> p.country == t.upstreams[IdOf(p)].country
  }

  ghost function Leaving(t: Tables, keyId: int, cc: string, ps: seq<Proxy>): set<string> {
    CountryRows(t, keyId, cc) - Incoming(ps)
  }

  ghost function Arriving(t: Tables, keyId: int, cc: string, ps: seq<Proxy>): set<string> {
    set id | id in Incoming(ps) && id !in KeyRows(t, keyId) && LastWith(ps, id).Some? && LastWith(ps, id).value.country == cc
  }

  // ----- the slots newcomers of one country are given -----------------------------

  function GivenIds(st: Progress, cc: string): set<string> {
    set id | id in st.given && st.given[id].0 == cc
  }

  function GivenNumbers(st: Progress, cc: string): set<nat> {
    set id | id in st.given && st.given[id].0 == cc :: st.given[id].1
  }

  /** The newcomers of cc so far got the lowest numbers its survivors leave. */
  ghost predicate LowestInCountry(st0: Progress, st: Progress, cc: string) {
    var used := Numbers(st0.taken, cc);
    LowestFree(used, GivenNumbers(st, cc)) && Numbers(st.taken, cc) == used + GivenNumbers(st, cc)
  }

  lemma {:induction false} NewcomersGetTheLowest(job: Job, ps: seq<Proxy>, st0: Progress, cc: string)
    requires job.existing.Keys <= st0.rows.Keys && st0.given == map[] && PlaceAll(job, ps, st0).Some?
    ensures LowestInCountry(st0, PlaceAll(job, ps, st0).value, cc)
  {
    if ps != [] {
      var front, p := ps[..|ps| - 1], ps[|ps| - 1];
      NewcomersGetTheLowest(job, front, st0, cc);
      PlaceAllGivesFreshSlots(job, front, st0);
      var mid := PlaceAll(job, front, st0).value;
      if IdOf(p) !in job.existing {
        var n := LeastFree(Numbers(mid.taken, p.country));
        NumbersInsert(mid.taken, p.country, n, cc);
        GivenInsert(mid, PlaceAll(job, ps, st0).value, IdOf(p), (p.country, n), cc);
        LowestOneMore(st0, mid, PlaceAll(job, ps, st0).value, p.country, n, cc);
      }
    }
  }

  lemma LowestOneMore(st0: Progress, mid: Progress, st: Progress, country: string, n: nat, cc: string)
    requires LowestInCountry(st0, mid, cc) && n == LeastFree(Numbers(mid.taken, country))
    requires Numbers(st.taken, cc) == Numbers(mid.taken, cc) + (if country == cc then {n} else {})
    requires GivenNumbers(st, cc) == GivenNumbers(mid, cc) + (if country == cc then {n} else {})
    ensures LowestInCountry(st0, st, cc)
  {
    var used, given := Numbers(st0.taken, cc), GivenNumbers(mid, cc);
    if country == cc {
      LowestFreeGrows(used, given);
      assert GivenNumbers(st, cc) == given + {n};
    } else {
      assert GivenNumbers(st, cc) == given;
    }
  }

  /** One number per newcomer. */
  lemma GivenCount(st0: Progress, st: Progress, cc: string)
    requires FreshSlots(st0, st)
    ensures |GivenNumbers(st, cc)| == |GivenIds(st, cc)|
  {
    var m: map<string, nat> := map id | id in GivenIds(st, cc) :: st.given[id].1;
    forall a, b | a in m && b in m && m[a] == m[b] ensures a == b {
      assert st.given[a] == st.given[b];
    }
    InjectiveCount(m);
    forall id | id in GivenIds(st, cc) ensures st.given[id].1 in m.Values {
      assert m[id] == st.given[id].1;
    }
    assert m.Values == GivenNumbers(st, cc);
    assert m.Keys == GivenIds(st, cc);
  }

  lemma {:induction false} InjectiveCount(m: map<string, nat>)
    requires forall a, b :: a in m && b in m && m[a] == m[b] ==> a == b
    ensures |m.Values| == |m|
    decreases |m|
  {
    if m != map[] {
      var a :| a in m;
      var rest := m - {a};
      InjectiveCount(rest);
      assert forall b :: b in rest ==> m[b] == rest[b] && m[b] != m[a];
      assert m.Values - {m[a]} == rest.Values;
      assert m.Keys - {a} == rest.Keys;
      assert m[a] in m.Values;
    }
  }

  lemma NumbersInsert(taken: set<(string, nat)>, country: string, n: nat, cc: string)
    ensures Numbers(taken + {(country, n)}, cc) == Numbers(taken, cc) + (if country == cc then {n} else {})
  {
    if country == cc {
      assert (country, n) in taken + {(country, n)};
    }
  }

  lemma GivenInsert(mid: Progress, st: Progress, id: string, slot: (string, nat), cc: string)
    requires id !in mid.given && st.given == mid.given[id := slot]
    ensures GivenIds(st, cc) == GivenIds(mid, cc) + (if slot.0 == cc then {id} else {})
    ensures GivenNumbers(st, cc) == GivenNumbers(mid, cc) + (if slot.0 == cc then {slot.1} else {})
  {
    forall a | a in mid.given ensures st.given[a] == mid.given[a] && a in st.given {
    }
    assert st.given[id] == slot;
  }

  // ----- the slots survivors keep and leavers free -----------------------------------

  /** The slot in a row's name. */
  function SlotOf(name: string): nat {
    match ParseDisplayName(name) case Some(p) => p.slot case None => 0
  }

  lemma RowSlot(t: Tables, keyId: int, cc: string, k: nat, id: string)
    requires keyId in t.keys && FillsSlots(t, keyId, cc, k) && IsCountry(cc) && k <= MAX_INT
    requires id in CountryRows(t, keyId, cc)
    ensures var n := SlotOf(t.upstreams[id].displayName);
            && 1 <= n <= k && t.upstreams[id].displayName == FormatDisplayName(cc, TagOf(t, keyId), n)
            && Reservation(LoadExisting(t, keyId)[id], TagOf(t, keyId)) == Some((cc, n))
  {
    var name := t.upstreams[id].displayName;
    assert name in NamesOf(t, CountryRows(t, keyId, cc));
    var n :| 1 <= n <= k && name == FormatDisplayName(cc, TagOf(t, keyId), n);
    FormatThenParse(cc, TagOf(t, keyId), n);
  }

  lemma SlotRow(t: Tables, keyId: int, cc: string, k: nat, n: nat) returns (id: string)
    requires keyId in t.keys && FillsSlots(t, keyId, cc, k) && IsCountry(cc) && 1 <= n <= k <= MAX_INT
    ensures id in CountryRows(t, keyId, cc)
    ensures SlotOf(t.upstreams[id].displayName) == n
  {
    var name := FormatDisplayName(cc, TagOf(t, keyId), n);
    assert name in SlotNames(TagOf(t, keyId), cc, k);
    id :| id in CountryRows(t, keyId, cc) && id in t.upstreams && t.upstreams[id].displayName == name;
    FormatThenParse(cc, TagOf(t, keyId), n);
  }

  ghost function SlotsOf(t: Tables, ids: set<string>): set<nat> {
    set id | id in ids && id in t.upstreams :: SlotOf(t.upstreams[id].displayName)
  }

  /** The reserved numbers of cc are exactly the slots of its survivors. */
  lemma ReservedInCountry(t: Tables, keyId: int, cc: string, k: nat, ps: seq<Proxy>)
    requires keyId in t.keys && FillsSlots(t, keyId, cc, k) && IsCountry(cc) && k <= MAX_INT
    ensures Numbers(Reservations(LoadExisting(t, keyId), Incoming(ps), TagOf(t, keyId)), cc)
         == SlotsOf(t, CountryRows(t, keyId, cc) * Incoming(ps))
  {
    var existing, tag := LoadExisting(t, keyId), TagOf(t, keyId);
    var pairs := Reservations(existing, Incoming(ps), tag);
    forall n | n in Numbers(pairs, cc) ensures n in SlotsOf(t, CountryRows(t, keyId, cc) * Incoming(ps)) {
      var id :| id in existing && id in Incoming(ps) && Reservation(existing[id], tag) == Some((cc, n));
      RowSlot(t, keyId, cc, k, id);
    }
    forall id | id in CountryRows(t, keyId, cc) * Incoming(ps)
      ensures SlotOf(t.upstreams[id].displayName) in Numbers(pairs, cc)
    {
      RowSlot(t, keyId, cc, k, id);
      assert (cc, SlotOf(t.upstreams[id].displayName)) in pairs;
    }
  }

  /** The rows of the country have distinct slots within 1..k. */
  lemma DistinctSlots(t: Tables, keyId: int, cc: string, k: nat, a: string, b: string)
    requires keyId in t.keys && FillsSlots(t, keyId, cc, k) && IsCountry(cc) && k <= MAX_INT
    requires a in CountryRows(t, keyId, cc) && b in CountryRows(t, keyId, cc)
    requires SlotOf(t.upstreams[a].displayName) == SlotOf(t.upstreams[b].displayName)
    ensures a == b
  {
    RowSlot(t, keyId, cc, k, a);
    RowSlot(t, keyId, cc, k, b);
  }

  lemma CountLeaversSlots(t: Tables, keyId: int, cc: string, k: nat, ps: seq<Proxy>)
    requires keyId in t.keys && FillsSlots(t, keyId, cc, k) && IsCountry(cc) && k <= MAX_INT
    ensures |SlotsOf(t, Leaving(t, keyId, cc, ps))| == |Leaving(t, keyId, cc, ps)|
  {
    hide FillsSlots, SlotOf;
    var leaving := Leaving(t, keyId, cc, ps);
    var m: map<string, nat> := map id | id in leaving :: SlotOf(t.upstreams[id].displayName);
    forall a, b | a in m && b in m && m[a] == m[b] ensures a == b {
      DistinctSlots(t, keyId, cc, k, a, b);
    }
    InjectiveCount(m);
    forall id | id in leaving ensures SlotOf(t.upstreams[id].displayName) in m.Values {
      assert m[id] == SlotOf(t.upstreams[id].displayName);
    }
    assert m.Values == SlotsOf(t, leaving);
    assert m.Keys == leaving;
  }

  /** The free numbers among 1..k are the leavers' slots. */
  lemma LeaversFreeTheirSlots(t: Tables, keyId: int, cc: string, k: nat, ps: seq<Proxy>, n: nat)
    requires keyId in t.keys && FillsSlots(t, keyId, cc, k) && IsCountry(cc) && k <= MAX_INT
    ensures n in SlotsOf(t, Leaving(t, keyId, cc, ps)) <==>
            1 <= n <= k && n !in SlotsOf(t, CountryRows(t, keyId, cc) * Incoming(ps))
  {
    var rows := CountryRows(t, keyId, cc);
    if n in SlotsOf(t, Leaving(t, keyId, cc, ps)) {
      var id :| id in Leaving(t, keyId, cc, ps) && id in t.upstreams && SlotOf(t.upstreams[id].displayName) == n;
      RowSlot(t, keyId, cc, k, id);
      if n in SlotsOf(t, rows * Incoming(ps)) {
        var b :| b in rows * Incoming(ps) && b in t.upstreams && SlotOf(t.upstreams[b].displayName) == n;
        DistinctSlots(t, keyId, cc, k, id, b);
      }
    } else if 1 <= n <= k {
      var id := SlotRow(t, keyId, cc, k, n);
      assert id in rows * Incoming(ps) || id in Leaving(t, keyId, cc, ps);
    }
  }

  // ----- the replacement ------------------------------------------------------------------

  ghost function GivenSlots(t: Tables, keyId: int, cc: string, ps: seq<Proxy>, now: int): set<nat>
    requires keyId in t.keys && Synced(t, keyId, ps, now).Some?
  {
    set id | id in Arriving(t, keyId, cc, ps) :: GivenSlot(t, keyId, ps, now, id).1
  }

  lemma GivenSlotsAreTheLowest(t: Tables, keyId: int, cc: string, ps: seq<Proxy>, now: int)
    requires keyId in t.keys && Synced(t, keyId, ps, now).Some?
    ensures LowestFree(Numbers(Reservations(LoadExisting(t, keyId), Incoming(ps), TagOf(t, keyId)), cc),
                       GivenSlots(t, keyId, cc, ps, now))
    ensures |GivenSlots(t, keyId, cc, ps, now)| == |Arriving(t, keyId, cc, ps)|
  {
    var job := JobOf(t, keyId, now);
    var start := Start(t, job, ps);
    var done := PlaceAll(job, ps, start).value;
    GivenIdsAreArriving(t, keyId, cc, ps, now);
    NewcomersGetTheLowest(job, ps, start, cc);
    PlaceAllGivesFreshSlots(job, ps, start);
    GivenCount(start, done, cc);
    forall id | id in GivenIds(done, cc) ensures GivenSlot(t, keyId, ps, now, id) == done.given[id] {
    }
    assert GivenSlots(t, keyId, cc, ps, now) == GivenNumbers(done, cc);
  }

  /** The newcomers' slots are the leavers'. */
  lemma NewcomersRefillTheSlots(t: Tables, keyId: int, cc: string, k: nat, ps: seq<Proxy>, now: int)
    requires keyId in t.keys && Synced(t, keyId, ps, now).Some?
    requires IsCountry(cc) && k <= MAX_INT && FillsSlots(t, keyId, cc, k)
    requires |Leaving(t, keyId, cc, ps)| == |Arriving(t, keyId, cc, ps)|
    ensures GivenSlots(t, keyId, cc, ps, now) == SlotsOf(t, Leaving(t, keyId, cc, ps))
  {
    var used := SlotsOf(t, CountryRows(t, keyId, cc) * Incoming(ps));
    var holes := SlotsOf(t, Leaving(t, keyId, cc, ps));
    GivenSlotsAreTheLowest(t, keyId, cc, ps, now);
    ReservedInCountry(t, keyId, cc, k, ps);
    CountLeaversSlots(t, keyId, cc, k, ps);
    forall n: nat ensures n in holes <==> 1 <= n <= k && n !in used {
      LeaversFreeTheirSlots(t, keyId, cc, k, ps, n);
    }
    LowestFreeIsUnique(used, GivenSlots(t, keyId, cc, ps, now), holes);
  }

  lemma GivenIdsAreArriving(t: Tables, keyId: int, cc: string, ps: seq<Proxy>, now: int)
    requires keyId in t.keys && Synced(t, keyId, ps, now).Some?
    ensures var job := JobOf(t, keyId, now);
            GivenIds(PlaceAll(job, ps, Start(t, job, ps)).value, cc) == Arriving(t, keyId, cc, ps)
  {
    var job := JobOf(t, keyId, now);
    var start := Start(t, job, ps);
    var done := PlaceAll(job, ps, start).value;
    forall id: string ensures id in GivenIds(done, cc) <==> id in Arriving(t, keyId, cc, ps) {
      PlaceAllRow(job, ps, start, id);
      LastWithFinds(ps, id);
    }
  }

  lemma CountryRowsAfter(t: Tables, keyId: int, cc: string, ps: seq<Proxy>, now: int, t': Tables)
    requires keyId in t.keys && Synced(t, keyId, ps, now) == Some(t') && SurvivorsStay(t, keyId, ps)
    ensures CountryRows(t', keyId, cc) == CountryRows(t, keyId, cc) * Incoming(ps) + Arriving(t, keyId, cc, ps)
  {
    SyncHasExactlyTheResponse(t, keyId, ps, now, t');
    forall id | id in Incoming(ps)
      ensures id in t'.upstreams && LastWith(ps, id).Some?
      ensures t'.upstreams[id].country == LastWith(ps, id).value.country
      ensures id in KeyRows(t, keyId) ==> t'.upstreams[id].country == t.upstreams[id].country
    {
      SyncReportsTheResponse(t, keyId, ps, now, t', id);
    }
  }

  lemma SurvivorKeepsItsSlot(t: Tables, keyId: int, cc: string, k: nat, ps: seq<Proxy>, now: int, t': Tables, id: string)
    requires keyId in t.keys && Synced(t, keyId, ps, now) == Some(t') && SurvivorsStay(t, keyId, ps)
    requires IsCountry(cc) && k <= MAX_INT && FillsSlots(t, keyId, cc, k)
    requires id in CountryRows(t, keyId, cc) * Incoming(ps)
    ensures id in t'.upstreams && t'.upstreams[id].displayName == t.upstreams[id].displayName
  {
    SyncReportsTheResponse(t, keyId, ps, now, t', id);
    RowSlot(t, keyId, cc, k, id);
    RewriteIsAFixpoint("", cc, TagOf(t, keyId));
  }

  lemma NewcomerName(t: Tables, keyId: int, cc: string, k: nat, ps: seq<Proxy>, now: int, t': Tables, id: string)
    requires keyId in t.keys && Synced(t, keyId, ps, now) == Some(t')
    requires IsCountry(cc) && k <= MAX_INT && FillsSlots(t, keyId, cc, k)
    requires GivenSlots(t, keyId, cc, ps, now) == SlotsOf(t, Leaving(t, keyId, cc, ps))
    requires id in Arriving(t, keyId, cc, ps)
    ensures id in t'.upstreams
    ensures t'.upstreams[id].displayName ==
            FormatDisplayName(cc, TagOf(t, keyId), GivenSlot(t, keyId, ps, now, id).1)
    ensures 1 <= GivenSlot(t, keyId, ps, now, id).1 <= k
  {
    SyncReportsTheResponse(t, keyId, ps, now, t', id);
    var n := GivenSlot(t, keyId, ps, now, id).1;
    assert n in GivenSlots(t, keyId, cc, ps, now);
    LeaversFreeTheirSlots(t, keyId, cc, k, ps, n);
  }

  /** If a sync swaps any j of the rows named slots 1..k of a country for j new
      ones in that country, the country's set of names is unchanged and every
      survivor keeps its own name. */
  lemma ReplacementConservesNames(t: Tables, keyId: int, cc: string, k: nat, ps: seq<Proxy>, now: int, t': Tables)
    requires keyId in t.keys && Synced(t, keyId, ps, now) == Some(t') && SurvivorsStay(t, keyId, ps)
    requires IsCountry(cc) && k <= MAX_INT && FillsSlots(t, keyId, cc, k)
    requires |Leaving(t, keyId, cc, ps)| == |Arriving(t, keyId, cc, ps)|
    ensures NamesOf(t', CountryRows(t', keyId, cc)) == NamesOf(t, CountryRows(t, keyId, cc))
    ensures forall id :: id in CountryRows(t, keyId, cc) * Incoming(ps) ==>
              id in t'.upstreams && t'.upstreams[id].displayName == t.upstreams[id].displayName
  {
    NewcomersRefillTheSlots(t, keyId, cc, k, ps, now);
    CountryRowsAfter(t, keyId, cc, ps, now, t');
    forall id | id in CountryRows(t, keyId, cc) * Incoming(ps)
      ensures id in t'.upstreams && t'.upstreams[id].displayName == t.upstreams[id].displayName
    {
      SurvivorKeepsItsSlot(t, keyId, cc, k, ps, now, t', id);
    }
    NamesStayWithin(t, keyId, cc, k, ps, now, t');
    NamesAllRemain(t, keyId, cc, k, ps, now, t');
  }

  lemma NamesStayWithin(t: Tables, keyId: int, cc: string, k: nat, ps: seq<Proxy>, now: int, t': Tables)
    requires keyId in t.keys && Synced(t, keyId, ps, now) == Some(t') && SurvivorsStay(t, keyId, ps)
    requires IsCountry(cc) && k <= MAX_INT && FillsSlots(t, keyId, cc, k)
    requires CountryRows(t', keyId, cc) == CountryRows(t, keyId, cc) * Incoming(ps) + Arriving(t, keyId, cc, ps)
    requires GivenSlots(t, keyId, cc, ps, now) == SlotsOf(t, Leaving(t, keyId, cc, ps))
    ensures NamesOf(t', CountryRows(t', keyId, cc)) <= SlotNames(TagOf(t, keyId), cc, k)
  {
    forall id | id in CountryRows(t', keyId, cc)
      ensures id in t'.upstreams && t'.upstreams[id].displayName in SlotNames(TagOf(t, keyId), cc, k)
    {
      if id in CountryRows(t, keyId, cc) {
        RowSlot(t, keyId, cc, k, id);
        SurvivorKeepsItsSlot(t, keyId, cc, k, ps, now, t', id);
      } else {
        NewcomerName(t, keyId, cc, k, ps, now, t', id);
      }
    }
  }

  lemma NamesAllRemain(t: Tables, keyId: int, cc: string, k: nat, ps: seq<Proxy>, now: int, t': Tables)
    requires keyId in t.keys && Synced(t, keyId, ps, now) == Some(t') && SurvivorsStay(t, keyId, ps)
    requires IsCountry(cc) && k <= MAX_INT && FillsSlots(t, keyId, cc, k)
    requires CountryRows(t', keyId, cc) == CountryRows(t, keyId, cc) * Incoming(ps) + Arriving(t, keyId, cc, ps)
    requires GivenSlots(t, keyId, cc, ps, now) == SlotsOf(t, Leaving(t, keyId, cc, ps))
    ensures SlotNames(TagOf(t, keyId), cc, k) <= NamesOf(t', CountryRows(t', keyId, cc))
  {
    forall n | 1 <= n <= k
      ensures FormatDisplayName(cc, TagOf(t, keyId), n) in NamesOf(t', CountryRows(t', keyId, cc))
    {
      var id := SlotRow(t, keyId, cc, k, n);
      RowSlot(t, keyId, cc, k, id);
      if id in Incoming(ps) {
        SurvivorKeepsItsSlot(t, keyId, cc, k, ps, now, t', id);
      } else {
        assert n in SlotsOf(t, Leaving(t, keyId, cc, ps));
        var newcomer :| newcomer in Arriving(t, keyId, cc, ps) && GivenSlot(t, keyId, ps, now, newcomer).1 == n;
        NewcomerName(t, keyId, cc, k, ps, now, t', newcomer);
      }
    }
  }
}
