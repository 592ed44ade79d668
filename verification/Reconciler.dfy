/** The API's writes, the queue, and the sweep that republishes what the index never confirmed. */
module Reconciler {
  import opened Documents
  import opened SearchEngine
  import opened Repository
  import opened Processor
  import opened Confluence
  import Pipeline
  import Cache
  import CacheKeys

  function EventFor(id: Uuid, row: Row): Event {
    Event(Canonical(id), row.tenant, row.version, if row.status.Deleted? then DeleteEvent else IndexEvent)
  }

  /** The queue as its publishers see it: what was published and has not been taken, oldest first. */
  class Publisher {
    var events: seq<Event>
    var published: nat

    constructor ()
      ensures events == [] && published == 0
    {
      events, published := [], 0;
    }

    /** `reachable == false` is the raised connection error. */
    method Publish(event: Event, reachable: bool) returns (ok: bool)
      modifies this
      ensures ok == reachable
      ensures events == if reachable then old(events) + [event] else old(events)
      ensures published == old(published) + if reachable then 1 else 0
    {
      ok := reachable;
      if reachable {
        events, published := events + [event], published + 1;
      }
    }

    method Drain() returns (drained: seq<Event>)
      modifies this`events
      ensures drained == old(events) && events == []
    {
      drained, events := events, [];
    }
  }

  // ---------------------------------------------------------------- whose documents events name

  /** The event names an existing row, canonically, and carries its tenant. */
  predicate Backed(rows: Rows, e: Event) {
    Known(rows, e.documentId) && e.tenant == rows[e.documentId.uuid].tenant
  }

  ghost predicate AllBacked(rows: Rows, events: seq<Event>) {
    forall k :: 0 <= k < |events| ==> Backed(rows, events[k])
  }

  /** Whatever else happens to the rows, a queued event keeps naming the right tenant. */
  lemma BackedStays(rows: Rows, rows': Rows, events: seq<Event>)
    requires Pipeline.Later(rows, rows')
    ensures AllBacked(rows, events) ==> AllBacked(rows', events)
  {}

  /** A batch taken from such a queue keeps the queue so, and bumps exactly the tenants that own a
      document it changed. */
  lemma BackedBatchBumpsTheOwners(rows: Rows, events: seq<Event>, queue: seq<Event>, refused: set<Uuid>, o: Outcome,
                                  ids: set<Uuid>, now: int)
    requires AllBacked(rows, events) && AllBacked(rows, queue) && Sorted(rows, BatchIds(events), refused, o)
    ensures AllBacked(Marked(rows, ids, now), queue)
    ensures TenantsOf(Latest(events), Elements(o.indexed + o.deleted))
            == set u | u in Targets(rows, events) - refused :: rows[u].tenant
  {
    BackedStays(rows, Marked(rows, ids, now), queue);
    BumpReachesTheOwners(rows, events, refused, o);
  }

  // ---------------------------------------------------------------- the API's write path

  class DocumentService {
    const table: DocumentTable
    const publisher: Publisher
    const generations: Generations
    const documents: Cache.CacheClient
    const spell: Uuid -> string

    /** `spell` is the canonical text of an id. */
    constructor (table: DocumentTable, publisher: Publisher, generations: Generations, documents: Cache.CacheClient,
                 spell: Uuid -> string)
      ensures this.table == table && this.publisher == publisher && this.generations == generations
      ensures this.documents == documents && this.spell == spell
    {
      this.table, this.publisher, this.generations := table, publisher, generations;
      this.documents, this.spell := documents, spell;
    }

    /** The row is committed first; a lost publish is not an error. */
    method Create(id: Uuid, tenant: Tenant, source: Source, now: int, broker: bool) returns (created: bool)
      modifies table, publisher, generations`counters
      ensures created == (id !in old(table.rows))
      ensures !created ==> table.rows == old(table.rows) && publisher.events == old(publisher.events)
                           && generations.counters == old(generations.counters)
      ensures created ==>
                var before := if tenant in old(generations.counters) then old(generations.counters)[tenant] else 0;
                && table.rows == old(table.rows)[id := Row(tenant, 1, Pending, source, now)]
                && publisher.events == old(publisher.events)
                                       + (if broker then [Event(Canonical(id), tenant, 1, IndexEvent)] else [])
                && generations.counters
                   == (if generations.available then old(generations.counters)[tenant := before + 1]
                       else old(generations.counters))
      ensures AllBacked(old(table.rows), old(publisher.events)) ==> AllBacked(table.rows, publisher.events)
    {
      created := table.Create(id, tenant, source, now);
      if created {
        BackedStays(old(table.rows), table.rows, publisher.events);
        var _ := publisher.Publish(Event(Canonical(id), tenant, 1, IndexEvent), broker);
        var _ := generations.Incr(tenant);
      }
    }

    /** A row of another tenant, or one already deleted, is not found. Otherwise the cached copy of the
        document goes, if the cache can be reached. */
    method Delete(tenant: Tenant, id: Uuid, now: int, broker: bool) returns (found: bool)
      modifies table, publisher, generations`counters, documents.backend`store
      ensures found <==> id in old(table.rows) && old(table.rows)[id].tenant == tenant
                         && old(table.rows)[id].status != Deleted
      ensures !found ==> table.rows == old(table.rows) && publisher.events == old(publisher.events)
                         && generations.counters == old(generations.counters)
                         && documents.backend.store == old(documents.backend.store)
      ensures found ==>
                var row := old(table.rows)[id];
                var before := if tenant in old(generations.counters) then old(generations.counters)[tenant] else 0;
                && table.rows == old(table.rows)[id := Row(tenant, row.version + 1, Deleted, row.source, now)]
                && publisher.events
                   == old(publisher.events)
                      + (if broker then [Event(Canonical(id), tenant, row.version + 1, DeleteEvent)] else [])
                && generations.counters
                   == (if generations.available then old(generations.counters)[tenant := before + 1]
                       else old(generations.counters))
                && var gone := if documents.backend.available then {CacheKeys.DocumentKey(tenant, spell(id))} else {};
                   documents.backend.store == old(documents.backend.store) - gone
      ensures AllBacked(old(table.rows), old(publisher.events)) ==> AllBacked(table.rows, publisher.events)
    {
      found := Present(table.rows, tenant, id);
      if found {
        table.SoftDelete(id, now);
        BackedStays(old(table.rows), table.rows, publisher.events);
        var key := CacheKeys.DocumentKey(tenant, spell(id));
        documents.Delete([key]);
        assert Elements([key]) == {key};
        var _ := generations.Incr(tenant);
        var _ := publisher.Publish(Event(Canonical(id), tenant, table.rows[id].version, DeleteEvent), broker);
      }
    }
  }

  // ---------------------------------------------------------------- the sweep

  function EventsFor(rows: Rows, ids: seq<Uuid>): (events: seq<Event>)
    requires forall k :: 0 <= k < |ids| ==> ids[k] in rows
    ensures |events| == |ids| && forall k :: 0 <= k < |ids| ==> events[k] == EventFor(ids[k], rows[ids[k]])
  {
    seq(|ids|, k requires 0 <= k < |ids| => EventFor(ids[k], rows[ids[k]]))
  }

  /** Republishes the stalest rows in order. The broker goes away at publish number `failsAt`, if
      that is ever reached; the count returned is that of the rows found, published or not. */
  method SweepOnce(table: DocumentTable, publisher: Publisher, cutoff: int, limit: nat, failsAt: nat)
    returns (found: nat, selection: seq<Uuid>)
    modifies publisher
    ensures OldestStale(table.rows, cutoff, limit, selection) && found == |selection|
    ensures publisher.events == old(publisher.events) + EventsFor(table.rows, selection[..Min(failsAt, |selection|)])
    // Each row found before the broker went away gives one event of its own tenant and version; a sweep
    // finds no deleted row, so each asks for indexing.
    ensures |publisher.events| == |old(publisher.events)| + (if failsAt < |selection| then failsAt else |selection|)
    ensures forall k :: 0 <= k < |publisher.events| - |old(publisher.events)| ==>
              var row := table.rows[selection[k]];
              publisher.events[|old(publisher.events)| + k]
              == Event(Canonical(selection[k]), row.tenant, row.version, IndexEvent)
    ensures AllBacked(table.rows, old(publisher.events)) ==> AllBacked(table.rows, publisher.events)
  {
    selection := table.FindStale(cutoff, limit);
    found := |selection|;
    var k := 0;
    while k < |selection|
      invariant 0 <= k <= |selection| && k <= failsAt
      invariant publisher.events == old(publisher.events) + EventsFor(table.rows, selection[..k])
    {
      var row := table.rows[selection[k]];
      var kind := if row.status.Deleted? then DeleteEvent else IndexEvent;
      var ok := publisher.Publish(Event(Canonical(selection[k]), row.tenant, row.version, kind), k < failsAt);
      if !ok {
        break;
      }
      assert EventsFor(table.rows, selection[..k + 1])
        == EventsFor(table.rows, selection[..k]) + [EventFor(selection[k], row)];
      k := k + 1;
    }
  }

  // ---------------------------------------------------------------- recovery

  function PendingIds(rows: Rows): set<Uuid> {
    set id | id in rows && rows[id].status.Pending?
  }

  /** One sweep, then the queue is drained and everything in it is processed in some batches. */
  datatype Round = Round(cutoff: int, selection: seq<Uuid>, queued: seq<Event>, batches: seq<Batch>)

  function Flatten(batches: seq<Batch>): seq<Event> {
    if batches == [] then [] else Flatten(batches[..|batches| - 1]) + batches[|batches| - 1].events
  }

  /** Broker and engine work, and every PENDING row is past the grace period. */
  ghost predicate RoundOk(rows: Rows, limit: nat, r: Round) {
    && OldestStale(rows, r.cutoff, limit, r.selection)
    && (forall id :: id in PendingIds(rows) ==> rows[id].updatedAt < r.cutoff)
    && multiset(Flatten(r.batches)) == multiset(r.queued + EventsFor(rows, r.selection))
  }

  ghost predicate RoundsOk(store: Store, limit: nat, rounds: seq<Round>)
    decreases |rounds|
  {
    rounds == [] || (&& RoundOk(store.rows, limit, rounds[0])
                     && RoundsOk(RunAll(store, rounds[0].batches), limit, rounds[1..]))
  }

  function AfterRounds(store: Store, rounds: seq<Round>): Store
    decreases |rounds|
  {
    if rounds == [] then store else AfterRounds(RunAll(store, rounds[0].batches), rounds[1..])
  }

  ghost predicate StoreOk(store: Store) {
    && Pipeline.RowsOk(store.rows) && Pipeline.IndexOk(store.rows, store.index)
    && Pipeline.IndexedShown(store.rows, store.index)
  }

  lemma {:induction false} FlattenIds(batches: seq<Batch>, e: Event)
    requires e in Flatten(batches)
    ensures e.documentId in AllIds(batches)
  {
    var init, b := batches[..|batches| - 1], batches[|batches| - 1];
    if e in b.events {
      assert b in batches;
    } else {
      FlattenIds(init, e);
      var c, e' :| c in init && e' in c.events && e'.documentId == e.documentId;
      assert c in batches;
    }
  }

  /** Every swept document is named by one of the round's batches. */
  lemma SweptIsReached(rows: Rows, limit: nat, r: Round, id: Uuid)
    requires RoundOk(rows, limit, r) && id in r.selection
    ensures id in Reached(rows, AllIds(r.batches))
  {
    var k :| 0 <= k < |r.selection| && r.selection[k] == id;
    var e := EventsFor(rows, r.selection)[k];
    assert e in r.queued + EventsFor(rows, r.selection);
    assert e in multiset(r.queued + EventsFor(rows, r.selection));
    assert e in multiset(Flatten(r.batches));
    FlattenIds(r.batches, e);
    assert Canonical(id) in AllIds(r.batches) && Known(rows, Canonical(id));
  }

  /** A run of batches keeps the store well-formed and moves exactly the reached PENDING rows. */
  lemma RunKeepsStore(store: Store, batches: seq<Batch>)
    requires StoreOk(store)
    ensures StoreOk(RunAll(store, batches))
    ensures PendingIds(RunAll(store, batches).rows) == PendingIds(store.rows) - Reached(store.rows, AllIds(batches))
  {
    var after, ids := RunAll(store, batches), Reached(store.rows, AllIds(batches));
    RunIsOnePass(store, batches);
    assert after.rows.Keys == Untimed(after.rows).Keys == Untimed(Marked(store.rows, ids, 0)).Keys == store.rows.Keys;
    forall id | id in store.rows
      ensures after.rows[id].(updatedAt := 0) == Marked(store.rows, ids, 0)[id].(updatedAt := 0)
    {
      assert Untimed(after.rows)[id] == Untimed(Marked(store.rows, ids, 0))[id];
    }
    forall id: Uuid
      ensures Find(after.index, id) == Entry(store, ids, id)
    {
      assert Find(Refreshed(store, ids), id) == Entry(store, ids, id);
    }
    RunKeepsShown(store, after, ids);
  }

  /** One document of a well-formed store, after its row was marked and its entry refreshed, or not. */
  lemma RunKeepsDocument(store: Store, row: Row, ids: set<Uuid>, id: Uuid)
    requires StoreOk(store) && id in store.rows
    requires row.(updatedAt := 0) == Marked(store.rows, ids, 0)[id].(updatedAt := 0)
    ensures Entry(store, ids, id).Some? ==> Entry(store, ids, id).value == Pipeline.FirstWrite(row)
    ensures row.status.Indexed? ==> Entry(store, ids, id).Some?
    ensures !row.status.Failed? && row.version == if row.status.Deleted? then 2 else 1
  {
    assert Find(store.index, id).Some? <==> id in store.index;
  }

  lemma RunKeepsShown(store: Store, after: Store, ids: set<Uuid>)
    requires StoreOk(store) && after.rows.Keys == store.rows.Keys
    requires forall id :: id in store.rows ==>
               after.rows[id].(updatedAt := 0) == Marked(store.rows, ids, 0)[id].(updatedAt := 0)
    requires forall id: Uuid :: Find(after.index, id) == Entry(store, ids, id)
    ensures StoreOk(after)
  {
    forall id | id in after.rows
      ensures !after.rows[id].status.Failed?
      ensures after.rows[id].version == if after.rows[id].status.Deleted? then 2 else 1
    {
      RunKeepsDocument(store, after.rows[id], ids, id);
    }
    forall id | id in after.index
      ensures id in after.rows && after.index[id] == Pipeline.FirstWrite(after.rows[id])
    {
      assert Find(after.index, id) == Some(after.index[id]);
      assert id in store.rows;
      RunKeepsDocument(store, after.rows[id], ids, id);
    }
    forall id | id in after.rows && after.rows[id].status.Indexed?
      ensures id in after.index
    {
      RunKeepsDocument(store, after.rows[id], ids, id);
      assert Find(after.index, id) == Entry(store, ids, id);
    }
  }

  lemma RoundProgress(store: Store, limit: nat, r: Round)
    requires StoreOk(store) && RoundOk(store.rows, limit, r)
    ensures PendingIds(RunAll(store, r.batches).rows) <= PendingIds(store.rows)
    ensures |PendingIds(RunAll(store, r.batches).rows)|
            <= |PendingIds(store.rows)| - Min(limit, |PendingIds(store.rows)|)
  {
    var before, after := PendingIds(store.rows), PendingIds(RunAll(store, r.batches).rows);
    assert StaleIds(store.rows, r.cutoff) == before;
    RunKeepsStore(store, r.batches);
    var swept := Elements(r.selection);
    forall id | id in swept
      ensures id in before && id !in after
    {
      SweptIsReached(store.rows, limit, r, id);
    }
    CardinalityOfDistinct(r.selection);
    Shrinks(after, swept, before);
  }

  lemma Shrinks<T>(after: set<T>, gone: set<T>, before: set<T>)
    requires after <= before && gone <= before && after !! gone
    ensures |after| + |gone| <= |before|
  {
    assert after + gone <= before;
    Subset(after + gone, before);
  }

  lemma Subset<T>(a: set<T>, b: set<T>)
    requires a <= b
    ensures |a| <= |b|
  {
    assert b == a + (b - a);
  }

  lemma {:induction false} RoundsProgress(store: Store, limit: nat, rounds: seq<Round>)
    requires StoreOk(store) && RoundsOk(store, limit, rounds) && |PendingIds(store.rows)| <= |rounds| * limit
    ensures StoreOk(AfterRounds(store, rounds)) && AfterRounds(store, rounds).rows.Keys == store.rows.Keys
    ensures PendingIds(AfterRounds(store, rounds).rows) == {}
    decreases |rounds|
  {
    if rounds != [] {
      var next := RunAll(store, rounds[0].batches);
      RoundProgress(store, limit, rounds[0]);
      RunKeepsStore(store, rounds[0].batches);
      RunKeepsOperations(store, rounds[0].batches);
      OneRoundLess(|PendingIds(store.rows)|, |PendingIds(next.rows)|, |rounds|, limit);
      assert |rounds[1..]| == |rounds| - 1;
      RoundsProgress(next, limit, rounds[1..]);
    } else {
      assert |PendingIds(store.rows)| == 0;
    }
  }

  lemma OneRoundLess(before: nat, after: nat, rounds: nat, limit: nat)
    requires 0 < rounds && before <= rounds * limit && after <= before - Min(limit, before)
    ensures after <= (rounds - 1) * limit
  {
    assert rounds * limit == (rounds - 1) * limit + limit;
  }

  /** Whatever was lost before, `limit` rows are recovered per round, so after enough rounds every
      row that is not deleted is INDEXED and in the index at its version. */
  lemma SweepsRecoverEverything(store: Store, limit: nat, rounds: seq<Round>, id: Uuid)
    requires StoreOk(store) && RoundsOk(store, limit, rounds) && |PendingIds(store.rows)| <= |rounds| * limit
    requires id in store.rows
    ensures var after := AfterRounds(store, rounds);
            && id in after.rows
            && (!after.rows[id].status.Deleted? ==>
                  && after.rows[id].status.Indexed?
                  && id in after.index
                  && after.index[id] == StoredDoc(after.rows[id].tenant, after.rows[id].version, after.rows[id].source))
  {
    RoundsProgress(store, limit, rounds);
    assert id !in PendingIds(AfterRounds(store, rounds).rows);
  }

  // ---------------------------------------------------------------- what the sweep cannot repair

  function RoundIds(rounds: seq<Round>): set<DocumentId>
    decreases |rounds|
  {
    if rounds == [] then {} else AllIds(rounds[0].batches) + RoundIds(rounds[1..])
  }

  lemma DeletedAfterRun(store: Store, batches: seq<Batch>, id: Uuid)
    requires StoreOk(store) && id in store.rows && store.rows[id].status.Deleted?
    ensures var after := RunAll(store, batches);
            && id in after.rows && after.rows[id].status.Deleted?
            && (id in after.index <==> id in store.index && Canonical(id) !in AllIds(batches))
  {
    var after, ids := RunAll(store, batches), Reached(store.rows, AllIds(batches));
    RunIsOnePass(store, batches);
    RunKeepsOperations(store, batches);
    assert Find(after.index, id) == Entry(store, ids, id);
    assert id in ids <==> Canonical(id) in AllIds(batches);
    assert OperationFor(id, after.rows[id]) == OperationFor(id, store.rows[id]);
  }

  /** A deleted document leaves the index in the course of the rounds exactly when some batch names it. */
  lemma {:induction false} DeletedLeavesExactlyWhenNamed(store: Store, rounds: seq<Round>, id: Uuid)
    requires StoreOk(store) && id in store.rows && store.rows[id].status.Deleted?
    ensures id in AfterRounds(store, rounds).index <==> id in store.index && Canonical(id) !in RoundIds(rounds)
    decreases |rounds|
  {
    if rounds != [] {
      DeletedAfterRun(store, rounds[0].batches, id);
      RunKeepsStore(store, rounds[0].batches);
      DeletedLeavesExactlyWhenNamed(RunAll(store, rounds[0].batches), rounds[1..], id);
    }
  }

  /** The index agrees with the rows: it holds exactly the documents that are not deleted. */
  ghost predicate Converged(store: Store) {
    forall id: Uuid :: id in store.index <==> id in store.rows && !store.rows[id].status.Deleted?
  }

  ghost predicate DeletesArrive(store: Store, rounds: seq<Round>) {
    forall id: Uuid :: id in store.rows && store.rows[id].status.Deleted? && id in store.index ==>
      Canonical(id) in RoundIds(rounds)
  }

  lemma {:induction false} RoundsKeepOperations(store: Store, rounds: seq<Round>, id: Uuid)
    requires id in store.rows
    ensures id in AfterRounds(store, rounds).rows
    ensures OperationFor(id, AfterRounds(store, rounds).rows[id]) == OperationFor(id, store.rows[id])
    decreases |rounds|
  {
    if rounds != [] {
      RunKeepsOperations(store, rounds[0].batches);
      RoundsKeepOperations(RunAll(store, rounds[0].batches), rounds[1..], id);
    }
  }

  /** After enough rounds the index agrees with the rows exactly when every deleted document it still
      showed was named by some event of those rounds. */
  lemma ConvergesExactlyWhenDeletesArrive(store: Store, limit: nat, rounds: seq<Round>)
    requires StoreOk(store) && RoundsOk(store, limit, rounds) && |PendingIds(store.rows)| <= |rounds| * limit
    ensures Converged(AfterRounds(store, rounds)) <==> DeletesArrive(store, rounds)
  {
    var after := AfterRounds(store, rounds);
    RoundsProgress(store, limit, rounds);
    forall id: Uuid
      ensures id !in after.rows ==> id !in after.index
      ensures id in after.rows ==>
                && (after.rows[id].status.Deleted? <==> store.rows[id].status.Deleted?)
                && (after.rows[id].status.Deleted? ==>
                      (id in after.index <==> id in store.index && Canonical(id) !in RoundIds(rounds)))
                && (!after.rows[id].status.Deleted? ==> id in after.index)
    {
      if id in after.rows {
        RoundsKeepOperations(store, rounds, id);
        if store.rows[id].status.Deleted? {
          DeletedLeavesExactlyWhenNamed(store, rounds, id);
        } else {
          SweepsRecoverEverything(store, limit, rounds, id);
        }
      }
    }
  }

  /** All this holds from every state that API calls and workers can reach, whatever events were lost,
      repeated or reordered on the way and whichever workers crashed. */
  lemma EveryRunIsRecovered(steps: seq<Pipeline.Step>, limit: nat, rounds: seq<Round>, id: Uuid)
    requires Pipeline.Legal(Pipeline.INITIAL, steps)
    requires var s := Pipeline.Exec(Pipeline.INITIAL, steps);
             RoundsOk(Store(s.rows, s.index), limit, rounds) && |PendingIds(s.rows)| <= |rounds| * limit && id in s.rows
    ensures var s := Pipeline.Exec(Pipeline.INITIAL, steps);
            var after := AfterRounds(Store(s.rows, s.index), rounds);
            && id in after.rows && (after.rows[id].status.Deleted? <==> s.rows[id].status.Deleted?)
            && (!s.rows[id].status.Deleted? ==>
                  && after.rows[id].status.Indexed?
                  && id in after.index && after.index[id] == Pipeline.FirstWrite(s.rows[id]))
    ensures var s := Pipeline.Exec(Pipeline.INITIAL, steps);
            Converged(AfterRounds(Store(s.rows, s.index), rounds)) <==> DeletesArrive(Store(s.rows, s.index), rounds)
  {
    Pipeline.EveryRunKeeps(Pipeline.INITIAL, steps);
    var s := Pipeline.Exec(Pipeline.INITIAL, steps);
    var store := Store(s.rows, s.index);
    RoundsKeepOperations(store, rounds, id);
    SweepsRecoverEverything(store, limit, rounds, id);
    ConvergesExactlyWhenDeletesArrive(store, limit, rounds);
  }

  lemma {:induction false} NamedByAnEvent(batches: seq<Batch>, d: DocumentId)
    requires d in AllIds(batches)
    ensures exists e :: e in Flatten(batches) && e.documentId == d
  {
    var init, b := batches[..|batches| - 1], batches[|batches| - 1];
    var c, e :| c in batches && e in c.events && e.documentId == d;
    if c == b {
      assert e in Flatten(batches);
    } else {
      assert c in init;
      NamedByAnEvent(init, d);
      var e' :| e' in Flatten(init) && e'.documentId == d;
      assert e' in Flatten(batches);
    }
  }

  /** The sweep never names a deleted document: only an event already queued can remove it. */
  lemma SweepSkipsDeleted(rows: Rows, limit: nat, r: Round, id: Uuid)
    requires RoundOk(rows, limit, r) && id in rows && rows[id].status.Deleted?
    requires forall e :: e in r.queued ==> e.documentId != Canonical(id)
    ensures Canonical(id) !in AllIds(r.batches)
  {
    forall e | e in Flatten(r.batches)
      ensures e.documentId != Canonical(id)
    {
      assert e in multiset(Flatten(r.batches));
      assert e in multiset(r.queued + EventsFor(rows, r.selection));
      if e in EventsFor(rows, r.selection) {
        var k :| 0 <= k < |r.selection| && EventsFor(rows, r.selection)[k] == e;
        assert r.selection[k] in StaleIds(rows, r.cutoff);
      }
    }
    if Canonical(id) in AllIds(r.batches) {
      NamedByAnEvent(r.batches, Canonical(id));
    }
  }

  /** So a delete whose event was lost stays visible through any number of sweeps. */
  lemma {:induction false} LostDeleteStaysVisible(store: Store, limit: nat, rounds: seq<Round>, id: Uuid)
    requires StoreOk(store) && RoundsOk(store, limit, rounds)
    requires id in store.rows && store.rows[id].status.Deleted? && id in store.index
    requires forall r, e :: r in rounds && e in r.queued ==> e.documentId != Canonical(id)
    ensures id in AfterRounds(store, rounds).index
    decreases |rounds|
  {
    if rounds != [] {
      var next := RunAll(store, rounds[0].batches);
      assert rounds[0] in rounds;
      SweepSkipsDeleted(store.rows, limit, rounds[0], id);
      DeletedAfterRun(store, rounds[0].batches, id);
      RunKeepsStore(store, rounds[0].batches);
      LostDeleteStaysVisible(next, limit, rounds[1..], id);
    }
  }

  // ---------------------------------------------------------------- a delete whose event is lost

  /** A sweep that finds nothing, and nothing queued. */
  const IDLE_ROUND := Round(3, [], [], [])

  lemma IdleRoundOk(rows: Rows, limit: nat)
    requires PendingIds(rows) == {} && Pipeline.RowsOk(rows)
    ensures RoundOk(rows, limit, IDLE_ROUND)
  {
    forall id | id in rows
      ensures !Stale(rows[id], IDLE_ROUND.cutoff)
    {
      assert id !in PendingIds(rows);
    }
    assert StaleIds(rows, IDLE_ROUND.cutoff) == {};
    assert Flatten([]) == [] + EventsFor(rows, []);
  }

  lemma {:induction false} IdleRounds(store: Store, limit: nat, rounds: seq<Round>)
    requires RoundOk(store.rows, limit, IDLE_ROUND) && forall k :: 0 <= k < |rounds| ==> rounds[k] == IDLE_ROUND
    ensures RoundsOk(store, limit, rounds) && AfterRounds(store, rounds) == store
    decreases |rounds|
  {
    if rounds != [] {
      IdleRounds(store, limit, rounds[1..]);
    }
  }

  /** A document is created, indexed and deleted, and the event of the delete is lost: whatever the
      number of sweeps, it stays in the index. */
  lemma ALostDeleteIsNeverRepaired(limit: nat, rounds: seq<Round>)
    requires forall k :: 0 <= k < |rounds| ==> rounds[k] == IDLE_ROUND
    ensures Pipeline.Legal(Pipeline.INITIAL, Pipeline.INDEXED_THEN_DELETED)
    ensures var s := Pipeline.Exec(Pipeline.INITIAL, Pipeline.INDEXED_THEN_DELETED);
            var store := Store(s.rows, s.index);
            && RoundsOk(store, limit, rounds) && s.workers == map[] && s.deletes == map[]
            && Pipeline.RowDeleted(s, 7) && 7 in AfterRounds(store, rounds).index
  {
    Pipeline.ADeleteMissesTheIndex();
    Pipeline.EveryRunKeeps(Pipeline.INITIAL, Pipeline.INDEXED_THEN_DELETED);
    var s := Pipeline.Exec(Pipeline.INITIAL, Pipeline.INDEXED_THEN_DELETED);
    IdleRoundOk(s.rows, limit);
    IdleRounds(Store(s.rows, s.index), limit, rounds);
  }
}
