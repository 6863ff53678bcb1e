/** Display names are routing keys. When a sync leaves the names of one key
    distinct; that they stay distinct over any sequence of syncs and renames; and
    that a settled name never changes by itself. */
module SyncNames {
  import opened Prelude
  import opened Decimal
  import opened DisplayName
  import opened Allocator
  import opened Store
  import opened Sync
  import opened SyncLaws
  import opened SyncReplace

  // ----- conditions ------------------------------------------------------------

  ghost predicate TwoLetter(ps: seq<Proxy>) {
    forall p :: p in ps ==> IsCountry(p.country)
  }

  function CountryIn(ps: seq<Proxy>, id: string): string {
    match LastWith(ps, id)
    case Some(p) => p.country
    case None => ""
  }

  /** The rows a sync with this response keeps. */
  ghost function Survivors(t: Tables, keyId: int, ps: seq<Proxy>): set<string> {
    KeyRows(t, keyId) * Incoming(ps)
  }

  /** The name a survivor will have: a legacy name is rewritten under the country
      the response reports. */
  ghost function FinalName(t: Tables, keyId: int, ps: seq<Proxy>, id: string): string
    requires keyId in t.keys && id in KeyRows(t, keyId)
  {
    Rewritten(t.upstreams[id].displayName, CountryIn(ps, id), TagOf(t, keyId))
  }

  ghost predicate FinalNamesDistinct(t: Tables, keyId: int, ps: seq<Proxy>)
    requires keyId in t.keys
  {
    forall a, b :: a in Survivors(t, keyId, ps) && b in Survivors(t, keyId, ps) && a != b ==>
      FinalName(t, keyId, ps, a) != FinalName(t, keyId, ps, b)
  }

  ghost function Reserved(t: Tables, keyId: int, ps: seq<Proxy>, cc: string): set<nat>
    requires keyId in t.keys
  {
    Numbers(Reservations(LoadExisting(t, keyId), Incoming(ps), TagOf(t, keyId)), cc)
  }

  /** The survivor's final name is a slot of this key that nobody reserves, and
      enough newcomers of its country arrive to reach it. */
  ghost predicate Exposed(t: Tables, keyId: int, ps: seq<Proxy>, id: string)
    requires keyId in t.keys && id in KeyRows(t, keyId)
  {
    var name, tag := FinalName(t, keyId, ps, id), TagOf(t, keyId);
    var c := ParseDisplayName(name);
    && c.Some? && name == FormatDisplayName(c.value.country, tag, c.value.slot)
    && SlotIsReached(t, keyId, ps, c.value.country, c.value.slot)
  }

  ghost predicate SlotIsReached(t: Tables, keyId: int, ps: seq<Proxy>, cc: string, n: nat)
    requires keyId in t.keys
  {
    var used := Reserved(t, keyId, ps, cc);
    n >= 1 && n !in used && |FreeBelow(used, n)| < |Arriving(t, keyId, cc, ps)|
  }

  /** Slot numbers stay below Go's int bound. */
  ghost predicate FitsInt(t: Tables, keyId: int, ps: seq<Proxy>) {
    |KeyRows(t, keyId)| + |ps| <= MAX_INT
  }

  ghost predicate NamesDistinct(t: Tables, keyId: int) {
    forall a, b :: a in KeyRows(t, keyId) && b in KeyRows(t, keyId) && a != b ==>
      t.upstreams[a].displayName != t.upstreams[b].displayName
  }

  // ----- the numbers stay small ---------------------------------------------------

  lemma {:induction false} NumbersCount(pairs: set<(string, nat)>, cc: string)
    ensures |Numbers(pairs, cc)| <= |pairs|
  {
    if pairs != {} {
      var p :| p in pairs;
      NumbersCount(pairs - {p}, cc);
      assert Numbers(pairs, cc) <= Numbers(pairs - {p}, cc) + {p.1};
      Subset(Numbers(pairs, cc), Numbers(pairs - {p}, cc) + {p.1});
    }
  }

  lemma {:induction false} ReservationsCount(existing: map<string, Existing>, ids: set<string>, surviving: set<string>, tag: string)
    requires ids <= existing.Keys
    ensures |Reservations(existing, surviving * ids, tag)| <= |ids|
  {
    if ids == {} {
      assert Reservations(existing, surviving * ids, tag) == {};
    } else {
      var id :| id in ids;
      var rest := ids - {id};
      ReservationsCount(existing, rest, surviving, tag);
      if id in surviving {
        assert surviving * ids == surviving * rest + {id};
        ReservationsAdd(existing, surviving * rest, id, tag);
      } else {
        assert surviving * ids == surviving * rest;
      }
    }
  }

  lemma {:induction false} GivenNumbersAreSmall(job: Job, ps: seq<Proxy>, st0: Progress)
    requires job.existing.Keys <= st0.rows.Keys && st0.given == map[] && PlaceAll(job, ps, st0).Some?
    ensures var st := PlaceAll(job, ps, st0).value;
            && |st.taken| <= |st0.taken| + |ps|
            && forall id :: id in st.given ==> st.given[id].1 <= |st0.taken| + |ps|
  {
    if ps != [] {
      var front, p := ps[..|ps| - 1], ps[|ps| - 1];
      GivenNumbersAreSmall(job, front, st0);
      NumbersCount(PlaceAll(job, front, st0).value.taken, p.country);
    }
  }

  // ----- one sync ------------------------------------------------------------------

  /** What is known of a newcomer's slot. */
  lemma NewcomerSlot(t: Tables, keyId: int, ps: seq<Proxy>, now: int, t': Tables, id: string)
    requires keyId in t.keys && Synced(t, keyId, ps, now) == Some(t') && FitsInt(t, keyId, ps)
    requires id in Incoming(ps) && id !in KeyRows(t, keyId) && TwoLetter(ps)
    ensures var slot := GivenSlot(t, keyId, ps, now, id);
            && IsCountry(slot.0) && slot.1 <= MAX_INT && slot.0 == CountryIn(ps, id)
            && id in t'.upstreams
            && t'.upstreams[id].displayName == FormatDisplayName(slot.0, TagOf(t, keyId), slot.1)
            && t'.upstreams[id].country == slot.0
  {
    SyncedRow(t, keyId, ps, now, t', id);
    var job := JobOf(t, keyId, now);
    var start := Start(t, job, ps);
    PlaceAllRow(job, ps, start, id);
    GivenNumbersAreSmall(job, ps, start);
    assert Incoming(ps) * job.existing.Keys <= Incoming(ps);
    ReservationsCount(job.existing, job.existing.Keys, Incoming(ps), job.tag);
    assert Reservations(job.existing, Incoming(ps) * job.existing.Keys, job.tag) == start.taken;
  }

  lemma NewcomersGetDifferentSlots(t: Tables, keyId: int, ps: seq<Proxy>, now: int, a: string, b: string)
    requires keyId in t.keys && Synced(t, keyId, ps, now).Some? && a != b
    requires a in Incoming(ps) && a !in KeyRows(t, keyId) && b in Incoming(ps) && b !in KeyRows(t, keyId)
    ensures GivenSlot(t, keyId, ps, now, a) != GivenSlot(t, keyId, ps, now, b)
  {
    var job := JobOf(t, keyId, now);
    var start := Start(t, job, ps);
    PlaceAllGivesFreshSlots(job, ps, start);
    PlaceAllRow(job, ps, start, a);
    PlaceAllRow(job, ps, start, b);
    LastWithFinds(ps, a);
    LastWithFinds(ps, b);
  }

  lemma NewcomersDiffer(t: Tables, keyId: int, ps: seq<Proxy>, now: int, t': Tables, a: string, b: string)
    requires keyId in t.keys && Synced(t, keyId, ps, now) == Some(t') && FitsInt(t, keyId, ps)
    requires a in Incoming(ps) && a !in KeyRows(t, keyId) && b in Incoming(ps) && b !in KeyRows(t, keyId)
    requires TwoLetter(ps) && a != b
    ensures a in t'.upstreams && b in t'.upstreams && t'.upstreams[a].displayName != t'.upstreams[b].displayName
  {
    NewcomerSlot(t, keyId, ps, now, t', a);
    NewcomerSlot(t, keyId, ps, now, t', b);
    NewcomersGetDifferentSlots(t, keyId, ps, now, a, b);
    var tag, p, q := TagOf(t, keyId), GivenSlot(t, keyId, ps, now, a), GivenSlot(t, keyId, ps, now, b);
    if t'.upstreams[a].displayName == t'.upstreams[b].displayName {
      FormatIsInjective(p.0, tag, p.1, q.0, tag, q.1);
    }
  }

  lemma SurvivorName(t: Tables, keyId: int, ps: seq<Proxy>, now: int, t': Tables, id: string)
    requires keyId in t.keys && Synced(t, keyId, ps, now) == Some(t') && id in Survivors(t, keyId, ps)
    ensures id in t'.upstreams && t'.upstreams[id].displayName == FinalName(t, keyId, ps, id)
    ensures t'.upstreams[id].country == CountryIn(ps, id)
    ensures TwoLetter(ps) ==> IsCountry(CountryIn(ps, id))
  {
    SyncedRow(t, keyId, ps, now, t', id);
  }

  /** A slot is handed to some newcomer exactly when it is reached. */
  lemma SlotIsGivenExactly(t: Tables, keyId: int, ps: seq<Proxy>, now: int, cc: string, n: nat)
    requires keyId in t.keys && Synced(t, keyId, ps, now).Some?
    ensures SlotIsReached(t, keyId, ps, cc, n)
        <==> exists b :: b in Arriving(t, keyId, cc, ps) && GivenSlot(t, keyId, ps, now, b).1 == n
  {
    GivenSlotsAreTheLowest(t, keyId, cc, ps, now);
    RankOfGiven(Reserved(t, keyId, ps, cc), GivenSlots(t, keyId, cc, ps, now), n);
  }

  /** An exposed survivor does lose its name to a newcomer. */
  lemma ExposedCollides(t: Tables, keyId: int, ps: seq<Proxy>, now: int, t': Tables, a: string)
    returns (b: string)
    requires keyId in t.keys && Synced(t, keyId, ps, now) == Some(t') && FitsInt(t, keyId, ps) && TwoLetter(ps)
    requires a in Survivors(t, keyId, ps) && Exposed(t, keyId, ps, a)
    ensures a in t'.upstreams && b in t'.upstreams && b in Incoming(ps) && b !in KeyRows(t, keyId)
    ensures t'.upstreams[a].displayName == t'.upstreams[b].displayName
  {
    var c := ParseDisplayName(FinalName(t, keyId, ps, a)).value;
    SlotIsGivenExactly(t, keyId, ps, now, c.country, c.slot);
    b :| b in Arriving(t, keyId, c.country, ps) && GivenSlot(t, keyId, ps, now, b).1 == c.slot;
    SurvivorName(t, keyId, ps, now, t', a);
    NewcomerSlot(t, keyId, ps, now, t', b);
  }

  /** Only an exposed one does. */
  lemma OnlyExposedCollide(t: Tables, keyId: int, ps: seq<Proxy>, now: int, t': Tables, a: string, b: string)
    requires keyId in t.keys && Synced(t, keyId, ps, now) == Some(t') && FitsInt(t, keyId, ps) && TwoLetter(ps)
    requires a in Survivors(t, keyId, ps) && !Exposed(t, keyId, ps, a)
    requires b in Incoming(ps) && b !in KeyRows(t, keyId)
    ensures a in t'.upstreams && b in t'.upstreams && t'.upstreams[a].displayName != t'.upstreams[b].displayName
  {
    SurvivorName(t, keyId, ps, now, t', a);
    NewcomerSlot(t, keyId, ps, now, t', b);
    var tag, slot := TagOf(t, keyId), GivenSlot(t, keyId, ps, now, b);
    LastWithFinds(ps, b);
    SlotIsGivenExactly(t, keyId, ps, now, slot.0, slot.1);
    FormatThenParse(slot.0, tag, slot.1);
  }

  /** One successful sync leaves the key's names pairwise distinct exactly when
      the final names of its survivors are distinct and none of them is exposed. */
  lemma NamesDistinctExactly(t: Tables, keyId: int, ps: seq<Proxy>, now: int, t': Tables)
    requires keyId in t.keys && Synced(t, keyId, ps, now) == Some(t') && FitsInt(t, keyId, ps) && TwoLetter(ps)
    ensures NamesDistinct(t', keyId) <==>
            FinalNamesDistinct(t, keyId, ps) && forall a :: a in Survivors(t, keyId, ps) ==> !Exposed(t, keyId, ps, a)
  {
    SyncHasExactlyTheResponse(t, keyId, ps, now, t');
    if FinalNamesDistinct(t, keyId, ps) && forall a :: a in Survivors(t, keyId, ps) ==> !Exposed(t, keyId, ps, a) {
      forall a, b | a in KeyRows(t', keyId) && b in KeyRows(t', keyId) && a != b
        ensures t'.upstreams[a].displayName != t'.upstreams[b].displayName
      {
        TwoNamesDiffer(t, keyId, ps, now, t', a, b);
      }
    }
    if NamesDistinct(t', keyId) {
      forall a, b | a in Survivors(t, keyId, ps) && b in Survivors(t, keyId, ps) && a != b
        ensures FinalName(t, keyId, ps, a) != FinalName(t, keyId, ps, b)
      {
        SurvivorName(t, keyId, ps, now, t', a);
        SurvivorName(t, keyId, ps, now, t', b);
      }
      forall a | a in Survivors(t, keyId, ps) ensures !Exposed(t, keyId, ps, a) {
        if Exposed(t, keyId, ps, a) {
          var b := ExposedCollides(t, keyId, ps, now, t', a);
        }
      }
    }
  }

  lemma TwoNamesDiffer(t: Tables, keyId: int, ps: seq<Proxy>, now: int, t': Tables, a: string, b: string)
    requires keyId in t.keys && Synced(t, keyId, ps, now) == Some(t') && FitsInt(t, keyId, ps) && TwoLetter(ps)
    requires FinalNamesDistinct(t, keyId, ps) && forall x :: x in Survivors(t, keyId, ps) ==> !Exposed(t, keyId, ps, x)
    requires a in Incoming(ps) && b in Incoming(ps) && a != b
    ensures a in t'.upstreams && b in t'.upstreams && t'.upstreams[a].displayName != t'.upstreams[b].displayName
  {
    if a in KeyRows(t, keyId) && b in KeyRows(t, keyId) {
      SurvivorName(t, keyId, ps, now, t', a);
      SurvivorName(t, keyId, ps, now, t', b);
    } else if a in KeyRows(t, keyId) {
      OnlyExposedCollide(t, keyId, ps, now, t', a, b);
    } else if b in KeyRows(t, keyId) {
      OnlyExposedCollide(t, keyId, ps, now, t', b, a);
    } else {
      NewcomersDiffer(t, keyId, ps, now, t', a, b);
    }
  }

  /** A rename sticks through a sync exactly when it is not legacy-shaped, or is
      already what the rewrite would make of it. */
  lemma RenamesStickExactly(t: Tables, keyId: int, ps: seq<Proxy>, now: int, t': Tables, id: string)
    requires keyId in t.keys && Synced(t, keyId, ps, now) == Some(t') && id in Survivors(t, keyId, ps)
    ensures id in t'.upstreams
    ensures t'.upstreams[id].displayName == t.upstreams[id].displayName <==>
            match ParseLegacyDisplayName(t.upstreams[id].displayName)
            case None => true
            case Some(p) => t.upstreams[id].displayName == FormatDisplayName(CountryIn(ps, id), TagOf(t, keyId), p.slot)
  {
    SurvivorName(t, keyId, ps, now, t', id);
  }

  // ----- who is safe from newcomers -----------------------------------------------------

  /** A name that will be kept is not this key's canonical form under a country
      other than its row's. Only the row's own country is ever reserved. */
  predicate KeepsNamespace(name: string, country: string, tag: string) {
    var c := ParseDisplayName(name);
    ParseLegacyDisplayName(name).None? && c.Some? && c.value.tag == tag ==> c.value.country == country
  }

  /** Neither of the two shapes a sync has anything to do with. */
  predicate IsUserName(name: string, tag: string) {
    var c := ParseDisplayName(name);
    ParseLegacyDisplayName(name).None? && (c.Some? ==> c.value.tag != tag)
  }

  /** The survivor stays in its country under a name of its own namespace, or has
      a name of its user's. */
  ghost predicate StaysPut(t: Tables, keyId: int, ps: seq<Proxy>, id: string)
    requires keyId in t.keys && id in KeyRows(t, keyId)
  {
    var row, tag := t.upstreams[id], TagOf(t, keyId);
    || IsUserName(row.displayName, tag)
    || (CountryIn(ps, id) == row.country && KeepsNamespace(row.displayName, row.country, tag))
  }

  /** If a survivor's final name is a slot of this key, the allocator has that
      slot reserved, whether the name is canonical, legacy or both. */
  lemma FinalSlotIsReserved(e: Existing, tag: string, country: string, n: nat)
    requires IsLabel(tag) && IsCountry(country) && IsCountry(e.country) && n <= MAX_INT
    requires KeepsNamespace(e.displayName, e.country, tag)
    requires Rewritten(e.displayName, e.country, tag) == FormatDisplayName(country, tag, n)
    ensures Reservation(e, tag) == Some((country, n))
  {
    match ParseLegacyDisplayName(e.displayName)
    case Some(p) => FormatIsInjective(e.country, tag, p.slot, country, tag, n);
    case None => FormatThenParse(country, tag, n);
  }

  lemma StayingPutIsSafe(t: Tables, keyId: int, ps: seq<Proxy>, id: string)
    requires keyId in t.keys && id in Survivors(t, keyId, ps) && TwoLetter(ps) && StaysPut(t, keyId, ps, id)
    ensures !Exposed(t, keyId, ps, id)
  {
    var e, tag, name := LoadExisting(t, keyId)[id], TagOf(t, keyId), FinalName(t, keyId, ps, id);
    var c := ParseDisplayName(name);
    LastWithFinds(ps, id);
    if c.Some? && name == FormatDisplayName(c.value.country, tag, c.value.slot) {
      FormatThenParse(c.value.country, tag, c.value.slot);
      if !IsUserName(e.displayName, tag) {
        FinalSlotIsReserved(e, tag, c.value.country, c.value.slot);
        SlotIsCounted(t, keyId, ps, id, c.value.country, c.value.slot);
      }
    }
  }

  lemma SlotIsCounted(t: Tables, keyId: int, ps: seq<Proxy>, id: string, cc: string, n: nat)
    requires keyId in t.keys && id in Survivors(t, keyId, ps)
    requires Reservation(LoadExisting(t, keyId)[id], TagOf(t, keyId)) == Some((cc, n))
    ensures n in Reserved(t, keyId, ps, cc)
  {
    assert (cc, n) in Reservations(LoadExisting(t, keyId), Incoming(ps), TagOf(t, keyId));
  }

  // ----- resting names ----------------------------------------------------------------------

  /** The name the row has after a sync that leaves it in its country. */
  ghost function RestingName(t: Tables, keyId: int, id: string): string
    requires keyId in t.keys && id in KeyRows(t, keyId)
  {
    Rewritten(t.upstreams[id].displayName, t.upstreams[id].country, TagOf(t, keyId))
  }

  /** No later sync will rewrite the row's name or fail to reserve it. */
  ghost predicate RowSettled(t: Tables, keyId: int, id: string)
    requires keyId in t.keys && id in KeyRows(t, keyId)
  {
    && RestingName(t, keyId, id) == t.upstreams[id].displayName
    && KeepsNamespace(t.upstreams[id].displayName, t.upstreams[id].country, TagOf(t, keyId))
  }

  /** A formatted name under the row's own country is settled. */
  lemma FormattedNameIsSettled(country: string, tag: string, n: nat)
    requires IsCountry(country) && IsLabel(tag)
    ensures Rewritten(FormatDisplayName(country, tag, n), country, tag) == FormatDisplayName(country, tag, n)
    ensures KeepsNamespace(FormatDisplayName(country, tag, n), country, tag)
  {
    RewriteIsAFixpoint("", country, tag);
    CanonicalSplitIsUnique(FormatDisplayName(country, tag, n), tag, country, Pad2(n));
  }

  /** Newcomers, and survivors that stay put, come out of a sync settled. */
  lemma SyncSettlesRow(t: Tables, keyId: int, ps: seq<Proxy>, now: int, t': Tables, id: string)
    requires keyId in t.keys && Synced(t, keyId, ps, now) == Some(t') && FitsInt(t, keyId, ps) && TwoLetter(ps)
    requires keyId in t'.keys && id in Incoming(ps) && id in KeyRows(t', keyId)
    requires id in KeyRows(t, keyId) ==> StaysPut(t, keyId, ps, id)
    ensures TagOf(t', keyId) == TagOf(t, keyId) && RowSettled(t', keyId, id)
    ensures id in KeyRows(t, keyId) ==> t'.upstreams[id].displayName == RestingName(t, keyId, id)
  {
    var tag := TagOf(t, keyId);
    if id in KeyRows(t, keyId) {
      SurvivorName(t, keyId, ps, now, t', id);
      var legacy := ParseLegacyDisplayName(t.upstreams[id].displayName);
      if legacy.Some? {
        FormattedNameIsSettled(t.upstreams[id].country, tag, legacy.value.slot);
      }
    } else {
      NewcomerSlot(t, keyId, ps, now, t', id);
      var slot := GivenSlot(t, keyId, ps, now, id);
      FormattedNameIsSettled(slot.0, tag, slot.1);
    }
  }

  // ----- any sequence of syncs and renames ------------------------------------------------

  /** One step in the life of a key: a successful sync of it, a rename of one of
      its rows, or a change that does not concern its rows or its label. */
  datatype Step = SyncOf(response: seq<Proxy>, now: int) | Rename(id: string, name: string) | Elsewhere

  function Renamed(t: Tables, id: string, name: string): Tables
    requires id in t.upstreams
  {
    t.(upstreams := t.upstreams[id := t.upstreams[id].(displayName := name)])
  }

  ghost predicate Steps(t: Tables, keyId: int, step: Step, t': Tables) {
    && keyId in t.keys && keyId in t'.keys
    && match step
       case SyncOf(ps, now) =>
         Synced(t, keyId, ps, now) == Some(t') && TwoLetter(ps) && FitsInt(t, keyId, ps)
       case Rename(id, name) =>
         id in KeyRows(t, keyId) && t' == Renamed(t, id, name)
       case Elsewhere =>
         LoadExisting(t', keyId) == LoadExisting(t, keyId) && TagOf(t', keyId) == TagOf(t, keyId)
  }

  ghost predicate Run(h: seq<Tables>, keyId: int, steps: seq<Step>) {
    |h| == |steps| + 1 && forall i :: 0 <= i < |steps| ==> Steps(h[i], keyId, steps[i], h[i + 1])
  }

  /** Survivors that do not stay put come out with names of their own that no
      newcomer reaches. */
  ghost predicate MoversFit(t: Tables, keyId: int, ps: seq<Proxy>)
    requires keyId in t.keys
  {
    forall a :: a in Survivors(t, keyId, ps) && !StaysPut(t, keyId, ps, a) ==>
      !Exposed(t, keyId, ps, a) && OwnName(t, keyId, ps, a)
  }

  ghost predicate OwnName(t: Tables, keyId: int, ps: seq<Proxy>, a: string)
    requires keyId in t.keys && a in KeyRows(t, keyId)
  {
    forall b :: b in Survivors(t, keyId, ps) && b != a ==> FinalName(t, keyId, ps, a) != FinalName(t, keyId, ps, b)
  }

  /** The new name is unlike the others, now and once rewritten. */
  ghost predicate RenameFits(t: Tables, keyId: int, id: string, name: string)
    requires keyId in t.keys && id in KeyRows(t, keyId)
  {
    var row, tag := t.upstreams[id], TagOf(t, keyId);
    forall b :: b in KeyRows(t, keyId) && b != id ==>
      t.upstreams[b].displayName != name && RestingName(t, keyId, b) != Rewritten(name, row.country, tag)
  }

  /** What a step must leave alone for the names to stay distinct: nothing at all
      when every survivor stays put. */
  ghost predicate Fits(t: Tables, keyId: int, step: Step) {
    keyId in t.keys &&
    match step
    case SyncOf(ps, _) => MoversFit(t, keyId, ps)
    case Rename(id, name) => id in KeyRows(t, keyId) && RenameFits(t, keyId, id, name)
    case Elsewhere => true
  }

  /** The condition a key's rows must meet before its first sync. */
  ghost predicate Good(t: Tables, keyId: int) {
    && keyId in t.keys
    && (forall a, b :: a in KeyRows(t, keyId) && b in KeyRows(t, keyId) && a != b ==>
          RestingName(t, keyId, a) != RestingName(t, keyId, b))
  }

  lemma StayersKeepResting(t: Tables, keyId: int, ps: seq<Proxy>, a: string)
    requires keyId in t.keys && a in Survivors(t, keyId, ps) && StaysPut(t, keyId, ps, a)
    ensures FinalName(t, keyId, ps, a) == RestingName(t, keyId, a)
  {
  }

  /** From such rows a sync leaves the names distinct if and only if its movers
      fit. */
  lemma GoodSyncExactly(t: Tables, keyId: int, ps: seq<Proxy>, now: int, t': Tables)
    requires Steps(t, keyId, SyncOf(ps, now), t') && Good(t, keyId)
    ensures NamesDistinct(t', keyId) <==> MoversFit(t, keyId, ps)
  {
    hide Exposed, FinalName, StaysPut, NamesDistinct, Synced;
    NamesDistinctExactly(t, keyId, ps, now, t');
    if MoversFit(t, keyId, ps) {
      forall a | a in Survivors(t, keyId, ps) ensures !Exposed(t, keyId, ps, a) {
        if StaysPut(t, keyId, ps, a) {
          StayingPutIsSafe(t, keyId, ps, a);
        }
      }
      forall a, b | a in Survivors(t, keyId, ps) && b in Survivors(t, keyId, ps) && a != b
        ensures FinalName(t, keyId, ps, a) != FinalName(t, keyId, ps, b)
      {
        FittingNamesDiffer(t, keyId, ps, a, b);
      }
    }
  }

  lemma FittingNamesDiffer(t: Tables, keyId: int, ps: seq<Proxy>, a: string, b: string)
    requires Good(t, keyId) && MoversFit(t, keyId, ps)
    requires a in Survivors(t, keyId, ps) && b in Survivors(t, keyId, ps) && a != b
    ensures FinalName(t, keyId, ps, a) != FinalName(t, keyId, ps, b)
  {
    if StaysPut(t, keyId, ps, a) && StaysPut(t, keyId, ps, b) {
      StayersKeepResting(t, keyId, ps, a);
      StayersKeepResting(t, keyId, ps, b);
    }
    hide FinalName, StaysPut, Exposed, RestingName;
  }

  /** Every row comes out of a sync with a name it rests at. */
  lemma SyncedNamesRest(t: Tables, keyId: int, ps: seq<Proxy>, now: int, t': Tables, id: string)
    requires Steps(t, keyId, SyncOf(ps, now), t') && id in KeyRows(t', keyId)
    ensures RestingName(t', keyId, id) == t'.upstreams[id].displayName
  {
    SyncHasExactlyTheResponse(t, keyId, ps, now, t');
    var tag := TagOf(t, keyId);
    assert TagOf(t', keyId) == tag;
    if id in KeyRows(t, keyId) {
      SurvivorName(t, keyId, ps, now, t', id);
      RewriteIsAFixpoint(t.upstreams[id].displayName, CountryIn(ps, id), tag);
    } else {
      NewcomerSlot(t, keyId, ps, now, t', id);
      RewriteIsAFixpoint("", CountryIn(ps, id), tag);
    }
  }

  lemma SyncKeepsGood(t: Tables, keyId: int, ps: seq<Proxy>, now: int, t': Tables)
    requires Steps(t, keyId, SyncOf(ps, now), t') && Good(t, keyId) && MoversFit(t, keyId, ps)
    ensures Good(t', keyId) && NamesDistinct(t', keyId)
  {
    GoodSyncExactly(t, keyId, ps, now, t');
    forall id | id in KeyRows(t', keyId) ensures RestingName(t', keyId, id) == t'.upstreams[id].displayName {
      SyncedNamesRest(t, keyId, ps, now, t', id);
    }
    hide RestingName, MoversFit, Synced;
  }

  /** The row has the name and the resting name it had. */
  ghost predicate SameRow(t: Tables, keyId: int, t': Tables, id: string)
    requires keyId in t.keys && keyId in t'.keys && id in KeyRows(t', keyId)
  {
    && id in KeyRows(t, keyId)
    && t'.upstreams[id].displayName == t.upstreams[id].displayName
    && RestingName(t', keyId, id) == RestingName(t, keyId, id)
  }

  lemma RenameKeepsGood(t: Tables, keyId: int, id: string, name: string, t': Tables)
    requires Steps(t, keyId, Rename(id, name), t') && Good(t, keyId) && RenameFits(t, keyId, id, name)
    ensures Good(t', keyId) && (NamesDistinct(t, keyId) ==> NamesDistinct(t', keyId))
  {
    forall a, b | a in KeyRows(t', keyId) && b in KeyRows(t', keyId) && a != b
      ensures RestingName(t', keyId, a) != RestingName(t', keyId, b)
      ensures NamesDistinct(t, keyId) ==> t'.upstreams[a].displayName != t'.upstreams[b].displayName
    {
      PairAfterRename(t, keyId, id, name, t', a, b);
    }
    hide RestingName, TagOf, KeyRows, Steps;
  }

  /** A rename leaves distinct names distinct, now and once rewritten, if and only
      if it fits. */
  lemma RenameFitsExactly(t: Tables, keyId: int, id: string, name: string, t': Tables)
    requires Steps(t, keyId, Rename(id, name), t') && Good(t, keyId) && NamesDistinct(t, keyId)
    ensures Good(t', keyId) && NamesDistinct(t', keyId) <==> RenameFits(t, keyId, id, name)
  {
    if RenameFits(t, keyId, id, name) {
      RenameKeepsGood(t, keyId, id, name, t');
    }
    if Good(t', keyId) && NamesDistinct(t', keyId) {
      forall b | b in KeyRows(t, keyId) && b != id
        ensures t.upstreams[b].displayName != name
        ensures RestingName(t, keyId, b) != Rewritten(name, t.upstreams[id].country, TagOf(t, keyId))
      {
        RenamedRow(t, keyId, id, name, t');
        OtherRowStays(t, keyId, id, name, t', b);
      }
    }
    hide RestingName, TagOf, Steps, Rewritten;
  }

  lemma OtherRowStays(t: Tables, keyId: int, id: string, name: string, t': Tables, x: string)
    requires Steps(t, keyId, Rename(id, name), t') && x in KeyRows(t, keyId) && x != id
    ensures x in KeyRows(t', keyId) && t'.upstreams[x].displayName == t.upstreams[x].displayName
    ensures RestingName(t', keyId, x) == RestingName(t, keyId, x)
  {
    hide Rewritten;
  }

  lemma PairAfterRename(t: Tables, keyId: int, id: string, name: string, t': Tables, a: string, b: string)
    requires Steps(t, keyId, Rename(id, name), t') && Good(t, keyId) && RenameFits(t, keyId, id, name)
    requires a in KeyRows(t', keyId) && b in KeyRows(t', keyId) && a != b
    ensures RestingName(t', keyId, a) != RestingName(t', keyId, b)
    ensures NamesDistinct(t, keyId) ==> t'.upstreams[a].displayName != t'.upstreams[b].displayName
  {
    OtherRow(t, keyId, id, name, t', a);
    OtherRow(t, keyId, id, name, t', b);
    RenamedRow(t, keyId, id, name, t');
    hide RestingName, Rewritten, TagOf, KeyRows, Renamed;
  }

  lemma OtherRow(t: Tables, keyId: int, id: string, name: string, t': Tables, x: string)
    requires Steps(t, keyId, Rename(id, name), t') && x in KeyRows(t', keyId)
    ensures x in KeyRows(t, keyId) && (x != id ==> SameRow(t, keyId, t', x))
  {
    hide Rewritten;
  }

  lemma RenamedRow(t: Tables, keyId: int, id: string, name: string, t': Tables)
    requires Steps(t, keyId, Rename(id, name), t')
    ensures id in KeyRows(t', keyId) && t'.upstreams[id].displayName == name
    ensures RestingName(t', keyId, id) == Rewritten(name, t.upstreams[id].country, TagOf(t, keyId))
  {
    hide Rewritten;
  }

  lemma ElsewhereKeepsGood(t: Tables, keyId: int, t': Tables)
    requires Steps(t, keyId, Elsewhere, t') && Good(t, keyId)
    ensures Good(t', keyId) && (NamesDistinct(t, keyId) ==> NamesDistinct(t', keyId))
  {
    forall id | id in KeyRows(t', keyId) ensures SameRow(t, keyId, t', id) {
      assert LoadExisting(t', keyId)[id] == LoadExisting(t, keyId)[id];
    }
    RowsKeepGood(t, keyId, t');
  }

  lemma RowsKeepGood(t: Tables, keyId: int, t': Tables)
    requires Good(t, keyId) && keyId in t'.keys
    requires forall id :: id in KeyRows(t', keyId) ==> SameRow(t, keyId, t', id)
    ensures Good(t', keyId) && (NamesDistinct(t, keyId) ==> NamesDistinct(t', keyId))
  {
    hide RestingName, TagOf;
  }

  /** Over any sequence of syncs of one key, renames of its rows and anything that
      does not concern it, as long as every step fits, the key's names are pairwise
      distinct from its first sync on. */
  lemma {:induction false} NamesStayDistinctOverAnyRun(h: seq<Tables>, keyId: int, steps: seq<Step>, i: nat)
    requires Run(h, keyId, steps) && Good(h[0], keyId) && i <= |steps|
    requires forall k :: 0 <= k < i ==> Fits(h[k], keyId, steps[k])
    ensures Good(h[i], keyId)
    ensures (exists k :: 0 <= k < i && steps[k].SyncOf?) ==> NamesDistinct(h[i], keyId)
  {
    hide Steps, Good, NamesDistinct, Fits;
    if i > 0 {
      NamesStayDistinctOverAnyRun(h, keyId, steps, i - 1);
      StepKeepsGood(h[i - 1], keyId, steps[i - 1], h[i]);
    } else {
      GoodHasKey(h[0], keyId);
    }
  }

  lemma GoodHasKey(t: Tables, keyId: int)
    requires Good(t, keyId)
    ensures keyId in t.keys
  {
  }

  lemma StepKeepsGood(t: Tables, keyId: int, step: Step, t': Tables)
    requires Steps(t, keyId, step, t') && Good(t, keyId) && Fits(t, keyId, step)
    ensures Good(t', keyId)
    ensures step.SyncOf? || NamesDistinct(t, keyId) ==> NamesDistinct(t', keyId)
  {
    match step
    case SyncOf(ps, now) => SyncKeepsGood(t, keyId, ps, now, t');
    case Rename(id, name) => RenameKeepsGood(t, keyId, id, name, t');
    case Elsewhere => ElsewhereKeepsGood(t, keyId, t');
  }

  /** A response fits by itself when it leaves every survivor in its country, or
      at least those without a name of their user's, and no name is this key's form
      under another country; and after it the rows it names are so again. */
  lemma StableResponsesFit(t: Tables, keyId: int, ps: seq<Proxy>, now: int, t': Tables)
    requires Steps(t, keyId, SyncOf(ps, now), t') && CountriesStable(t, keyId, ps) && NoForeignNames(t, keyId)
    ensures Fits(t, keyId, SyncOf(ps, now)) && NoForeignNames(t', keyId)
  {
    SyncHasExactlyTheResponse(t, keyId, ps, now, t');
    forall id | id in KeyRows(t', keyId)
      ensures KeepsNamespace(t'.upstreams[id].displayName, t'.upstreams[id].country, TagOf(t', keyId))
    {
      assert id in KeyRows(t, keyId) ==> StaysPut(t, keyId, ps, id);
      SyncSettlesRow(t, keyId, ps, now, t', id);
    }
  }

  ghost predicate CountriesStable(t: Tables, keyId: int, ps: seq<Proxy>)
    requires keyId in t.keys
  {
    forall id :: id in Survivors(t, keyId, ps) ==>
      CountryIn(ps, id) == t.upstreams[id].country || IsUserName(t.upstreams[id].displayName, TagOf(t, keyId))
  }

  ghost predicate NoForeignNames(t: Tables, keyId: int)
    requires keyId in t.keys
  {
    forall id :: id in KeyRows(t, keyId) ==>
      KeepsNamespace(t.upstreams[id].displayName, t.upstreams[id].country, TagOf(t, keyId))
  }

  /** The step neither renames the row nor moves it to another country under a
      legacy-shaped name. */
  ghost predicate LeavesName(t: Tables, keyId: int, step: Step, id: string)
    requires id in KeyRows(t, keyId)
  {
    match step
    case SyncOf(ps, _) =>
      CountryIn(ps, id) == t.upstreams[id].country || ParseLegacyDisplayName(t.upstreams[id].displayName).None?
    case Rename(x, _) => x != id
    case Elsewhere => true
  }

  lemma StepKeepsName(t: Tables, keyId: int, step: Step, t': Tables, id: string)
    requires Steps(t, keyId, step, t') && id in KeyRows(t, keyId) && id in KeyRows(t', keyId)
    requires RestingName(t, keyId, id) == t.upstreams[id].displayName && LeavesName(t, keyId, step, id)
    ensures keyId in t'.keys && RestingName(t', keyId, id) == t'.upstreams[id].displayName
    ensures t'.upstreams[id].displayName == t.upstreams[id].displayName
  {
    match step
    case SyncOf(ps, now) =>
      SyncHasExactlyTheResponse(t, keyId, ps, now, t');
      SurvivorName(t, keyId, ps, now, t', id);
      SyncedNamesRest(t, keyId, ps, now, t', id);
    case Rename(_, _) =>
    case Elsewhere =>
      assert LoadExisting(t', keyId)[id] == LoadExisting(t, keyId)[id];
  }

  ghost predicate Rests(t: Tables, keyId: int, id: string) {
    keyId in t.keys && id in KeyRows(t, keyId) && RestingName(t, keyId, id) == t.upstreams[id].displayName
  }

  /** A row at rest that is never deleted, renamed, or moved under a legacy-shaped
      name keeps its name, however many syncs, replacements, moves and renames
      happen around it. */
  lemma {:induction false} SettledNamesNeverChange(h: seq<Tables>, keyId: int, steps: seq<Step>, id: string)
    requires Run(h, keyId, steps) && Rests(h[0], keyId, id)
    requires forall i :: 0 <= i < |h| ==> id in KeyRows(h[i], keyId)
    requires forall i :: 0 <= i < |steps| ==> LeavesName(h[i], keyId, steps[i], id)
    ensures Rests(h[|steps|], keyId, id)
    ensures h[|steps|].upstreams[id].displayName == h[0].upstreams[id].displayName
    decreases |steps|
  {
    var n := |steps|;
    if n > 0 {
      PrefixRuns(h, keyId, steps, id);
      SettledNamesNeverChange(h[..n], keyId, steps[..n - 1], id);
      StepKeepsName(h[n - 1], keyId, steps[n - 1], h[n], id);
    }
    hide Steps, RestingName, KeyRows, LeavesName;
  }

  lemma PrefixRuns(h: seq<Tables>, keyId: int, steps: seq<Step>, id: string)
    requires Run(h, keyId, steps) && |steps| > 0
    requires forall i :: 0 <= i < |h| ==> id in KeyRows(h[i], keyId)
    requires forall i :: 0 <= i < |steps| ==> LeavesName(h[i], keyId, steps[i], id)
    ensures var h', steps' := h[..|steps|], steps[..|steps| - 1];
            && Run(h', keyId, steps')
            && (forall i :: 0 <= i < |h'| ==> id in KeyRows(h'[i], keyId))
            && (forall i :: 0 <= i < |steps'| ==> LeavesName(h'[i], keyId, steps'[i], id))
  {
    hide Steps, LeavesName, KeyRows;
  }

  // ----- the conditions are needed ----------------------------------------------------------

  /** Whatever their old labels, two legacy names with one number are rewritten to
      one name. */
  lemma SameNumberSameName(a: string, b: string, one: string, other: string, number: string,
                           country: string, tag: string)
    requires MatchesLegacy(a, country, one, number) && MatchesLegacy(b, country, other, number)
    requires Value(number) <= MAX_INT
    ensures Rewritten(a, country, tag) == Rewritten(b, country, tag)
  {
    hide MatchesLegacy, ParseLegacyDisplayName, FormatDisplayName;
    LegacySplitIsUnique(a, country, one, number);
    LegacySplitIsUnique(b, country, other, number);
  }

  lemma OneIsSmall()
    ensures Value("01") <= MAX_INT
  {
    assert Value("01") == 1;
  }

  /** Two legacy rows under different old labels and one number are rewritten to
      one name, because the rewrite does not consult the allocator. */
  lemma LegacyRowsCanCollide(tag: string)
    ensures "US-a-01" != "US-b-01"
    ensures Rewritten("US-a-01", "US", tag) == Rewritten("US-b-01", "US", tag)
  {
    hide Rewritten, Value;
    OneIsSmall();
    SameNumberSameName("US-a-01", "US-b-01", "a", "b", "01", "US", tag);
    assert "US-a-01"[3] != "US-b-01"[3];
  }

  /** So every sync that keeps two such rows in their country leaves them with one
      name. */
  lemma KeptLegacyRowsCollide(t: Tables, keyId: int, ps: seq<Proxy>, now: int, t': Tables, a: string, b: string)
    requires keyId in t.keys && Synced(t, keyId, ps, now) == Some(t')
    requires a in Survivors(t, keyId, ps) && b in Survivors(t, keyId, ps)
    requires t.upstreams[a].displayName == "US-a-01" && CountryIn(ps, a) == "US"
    requires t.upstreams[b].displayName == "US-b-01" && CountryIn(ps, b) == "US"
    ensures a in t'.upstreams && b in t'.upstreams && t'.upstreams[a].displayName == t'.upstreams[b].displayName
  {
    LegacyRowsCanCollide(TagOf(t, keyId));
    SurvivorName(t, keyId, ps, now, t', a);
    SurvivorName(t, keyId, ps, now, t', b);
  }

  lemma NoneBelowOne(used: set<nat>)
    ensures FreeBelow(used, 1) == {}
  {
  }

  /** A row that was moved to another country keeps its slot in the old one
      without reserving it: the first newcomer there takes its name. */
  lemma AMovedRowLosesItsName(t: Tables, keyId: int, ps: seq<Proxy>, now: int, t': Tables, a: string)
    requires keyId in t.keys && Synced(t, keyId, ps, now) == Some(t') && FitsInt(t, keyId, ps) && TwoLetter(ps)
    requires a in Survivors(t, keyId, ps) && t.upstreams[a].country == CountryIn(ps, a) == "CA"
    requires t.upstreams[a].displayName == FormatDisplayName("US", TagOf(t, keyId), 1)
    requires ParseLegacyDisplayName(t.upstreams[a].displayName).None?
    requires 1 !in Reserved(t, keyId, ps, "US") && Arriving(t, keyId, "US", ps) != {}
    ensures !NamesDistinct(t', keyId)
  {
    hide Synced, ParseDisplayName, ParseLegacyDisplayName, FormatDisplayName, Reserved, Arriving, NamesDistinct,
      FinalNamesDistinct, FreeBelow;
    FormatThenParse("US", TagOf(t, keyId), 1);
    NoneBelowOne(Reserved(t, keyId, ps, "US"));
    NamesDistinctExactly(t, keyId, ps, now, t');
    assert Exposed(t, keyId, ps, a);
  }
}
