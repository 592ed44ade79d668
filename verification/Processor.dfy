/** The indexing worker's batch: collapse the events, re-read the rows, write the index, mark
    the rows, bump the search-cache generations. */
module Processor {
  import opened Documents
  import opened SearchEngine
  import opened Repository

  datatype Outcome = Outcome(indexed: seq<DocumentId>, deleted: seq<DocumentId>, failed: seq<DocumentId>,
                             skipped: seq<DocumentId>)

  // ---------------------------------------------------------------- what a batch means

  /** Rows and index together: everything a batch writes except the generation counters. */
  datatype Store = Store(rows: Rows, index: Index)

  /** The id names an existing row. Another spelling of the same id does not: the rows are looked
      up again by their canonical text. */
  predicate Known(rows: Rows, d: DocumentId) {
    d.Canonical? && d.uuid in rows
  }

  /** The documents a batch of events is about. Nothing else in the events matters. */
  function Targets(rows: Rows, events: seq<Event>): set<Uuid> {
    set e | e in events && Known(rows, e.documentId) :: e.documentId.uuid
  }

  /** The write for a row as it is now, whatever the event said. */
  function OperationFor(id: Uuid, row: Row): Operation {
    if row.status.Deleted? then DeleteOp(id, row.tenant, row.version)
    else IndexOp(id, row.tenant, row.version, row.source)
  }

  function Entry(store: Store, ids: set<Uuid>, id: Uuid): Option<StoredDoc> {
    if id in ids && id in store.rows then Effect(Find(store.index, id), OperationFor(id, store.rows[id]))
    else Find(store.index, id)
  }

  function Refreshed(store: Store, ids: set<Uuid>): (index: Index)
    ensures forall id: Uuid :: Find(index, id) == Entry(store, ids, id)
  {
    map id | id in store.index.Keys + ids && Entry(store, ids, id).Some? :: Entry(store, ids, id).value
  }

  /** The effect of a batch whose confirmed documents are `ids`. */
  function Processed(store: Store, ids: set<Uuid>, now: int): Store {
    Store(Marked(store.rows, ids, now), Refreshed(store, ids))
  }

  /** The newest event per document id; among equal versions the last one. */
  function Latest(events: seq<Event>): map<DocumentId, Event> {
    if events == [] then map[]
    else
      var before, e := Latest(events[..|events| - 1]), events[|events| - 1];
      if e.documentId in before && e.version < before[e.documentId].version then before
      else before[e.documentId := e]
  }

  /** Event `k` is the newest event for `id`: no later or equal-version event follows it. */
  ghost predicate NewestAt(events: seq<Event>, id: DocumentId, k: int) {
    && 0 <= k < |events| && events[k].documentId == id
    && (forall j :: 0 <= j < |events| && events[j].documentId == id ==> events[j].version <= events[k].version)
    && (forall j :: k < j < |events| && events[j].documentId == id ==> events[j].version < events[k].version)
  }

  lemma {:induction false} LatestKeys(events: seq<Event>, id: DocumentId)
    ensures id in Latest(events) <==> exists k :: 0 <= k < |events| && events[k].documentId == id
  {
    if events != [] {
      var init, last := events[..|events| - 1], |events| - 1;
      LatestKeys(init, id);
      if id in Latest(init) {
        var k :| 0 <= k < |init| && init[k].documentId == id;
        assert events[k].documentId == id;
      } else if events[last].documentId != id {
        assert forall j :: 0 <= j < last ==> events[j] == init[j];
      }
    }
  }

  lemma NewestOfExtension(events: seq<Event>, e: Event, id: DocumentId, k: int)
    requires NewestAt(events, id, k)
    ensures e.documentId == id && events[k].version <= e.version ==> NewestAt(events + [e], id, |events|)
    ensures !(e.documentId == id && events[k].version <= e.version) ==> NewestAt(events + [e], id, k)
  {}

  lemma {:induction false} LatestIsNewest(events: seq<Event>, id: DocumentId)
    requires id in Latest(events)
    ensures exists k :: NewestAt(events, id, k) && events[k] == Latest(events)[id]
  {
    var init, e := events[..|events| - 1], events[|events| - 1];
    assert events == init + [e];
    if id in Latest(init) {
      LatestIsNewest(init, id);
      var k :| NewestAt(init, id, k) && init[k] == Latest(init)[id];
      NewestOfExtension(init, e, id, k);
      assert events[k] == init[k];
    } else {
      LatestKeys(init, id);
      assert NewestAt(events, id, |init|);
    }
  }

  /** The tenants whose generation a batch bumps: those named by the events of the changed documents. */
  function TenantsOf(latest: map<DocumentId, Event>, changed: set<DocumentId>): set<Tenant> {
    set d | d in changed && d in latest :: latest[d].tenant
  }

  /** Some event of this tenant is the newest for its document, and the batch changed that document. */
  ghost predicate ChangedFor(events: seq<Event>, o: Outcome, tenant: Tenant) {
    exists k :: 0 <= k < |events| && events[k].tenant == tenant && NewestAt(events, events[k].documentId, k)
                && (events[k].documentId in o.indexed || events[k].documentId in o.deleted)
  }

  lemma NewestIsOne(events: seq<Event>, id: DocumentId, k: int, j: int)
    requires NewestAt(events, id, k) && NewestAt(events, id, j)
    ensures k == j
  {}

  lemma ChangedTenants(events: seq<Event>, o: Outcome, tenant: Tenant)
    ensures tenant in TenantsOf(Latest(events), Elements(o.indexed + o.deleted)) <==> ChangedFor(events, o, tenant)
  {
    var latest, changed := Latest(events), Elements(o.indexed + o.deleted);
    if tenant in TenantsOf(latest, changed) {
      var d :| d in changed && d in latest && latest[d].tenant == tenant;
      LatestIsNewest(events, d);
      var k :| NewestAt(events, d, k) && events[k] == latest[d];
      assert d in o.indexed || d in o.deleted;
    }
    if ChangedFor(events, o, tenant) {
      var k :| 0 <= k < |events| && events[k].tenant == tenant && NewestAt(events, events[k].documentId, k)
               && (events[k].documentId in o.indexed || events[k].documentId in o.deleted);
      var d := events[k].documentId;
      LatestKeys(events, d);
      LatestIsNewest(events, d);
      var j :| NewestAt(events, d, j) && events[j] == latest[d];
      NewestIsOne(events, d, k, j);
      assert d in changed;
    }
  }

  function Count(counters: map<Tenant, nat>, tenant: Tenant): nat {
    if tenant in counters then counters[tenant] else 0
  }

  function Bumped(counters: map<Tenant, nat>, tenants: set<Tenant>): map<Tenant, nat> {
    map t | t in counters.Keys + tenants :: Count(counters, t) + if t in tenants then 1 else 0
  }

  /** Every id of the batch is in exactly one of the four lists, once. */
  ghost predicate Partition(ids: set<DocumentId>, o: Outcome) {
    && NoDuplicates(o.indexed + o.deleted + o.failed + o.skipped)
    && Elements(o.indexed + o.deleted + o.failed + o.skipped) == ids
  }

  // ---------------------------------------------------------------- the batch as it runs

  /** The per-tenant search-cache generations; an unreachable cache fails open. */
  class Generations {
    var counters: map<Tenant, nat>
    var available: bool

    constructor ()
      ensures counters == map[] && available
    {
      counters, available := map[], true;
    }

    method Incr(tenant: Tenant) returns (value: Option<nat>)
      modifies this`counters
      ensures available ==> counters == old(counters)[tenant := Count(old(counters), tenant) + 1]
                            && value == Some(Count(old(counters), tenant) + 1)
      ensures !available ==> counters == old(counters) && value == None
    {
      if available {
        counters := counters[tenant := Count(counters, tenant) + 1];
        value := Some(counters[tenant]);
      } else {
        value := None;
      }
    }

    method IncrAll(tenants: set<Tenant>)
      modifies this`counters
      ensures available ==> counters == Bumped(old(counters), tenants)
      ensures !available ==> counters == old(counters)
      // Every named tenant gains exactly one, and nobody else anything.
      ensures available ==>
                && counters.Keys == old(counters).Keys + tenants
                && (forall t :: t in tenants ==>
                      counters[t] == (if t in old(counters) then old(counters)[t] else 0) + 1)
                && (forall t :: t in old(counters) && t !in tenants ==> counters[t] == old(counters)[t])
    {
      var rest := tenants;
      assert counters == Bumped(counters, {});
      while rest != {}
        invariant rest <= tenants
        invariant available ==> counters == Bumped(old(counters), tenants - rest)
        invariant !available ==> counters == old(counters)
        decreases rest
      {
        var tenant :| tenant in rest;
        var _ := Incr(tenant);
        rest := rest - {tenant};
      }
      assert tenants - rest == tenants;
    }
  }

  method CollapseDuplicates(events: seq<Event>) returns (latest: map<DocumentId, Event>, order: seq<DocumentId>)
    ensures latest == Latest(events)
    ensures NoDuplicates(order) && Elements(order) == latest.Keys
    ensures forall d :: d in order <==> exists k :: 0 <= k < |events| && events[k].documentId == d
  {
    latest, order := map[], [];
    for i := 0 to |events|
      invariant latest == Latest(events[..i])
      invariant NoDuplicates(order)
      invariant forall d :: d in order <==> d in latest
    {
      assert events[..i + 1][..i] == events[..i];
      var d := events[i].documentId;
      if d !in latest {
        order := order + [d];
        latest := latest[d := events[i]];
      } else if events[i].version >= latest[d].version {
        latest := latest[d := events[i]];
      }
    }
    assert events[..|events|] == events;
    forall d
      ensures d in order <==> exists k :: 0 <= k < |events| && events[k].documentId == d
    {
      LatestKeys(events, d);
    }
  }

  /** The ids the UUID parser rejects: terminal, never sent round the retry loop. */
  method Malformations(order: seq<DocumentId>) returns (malformed: seq<DocumentId>)
    requires NoDuplicates(order)
    ensures NoDuplicates(malformed)
    ensures forall d :: d in malformed <==> d in order && d.Malformed?
  {
    malformed := [];
    for i := 0 to |order|
      invariant NoDuplicates(malformed)
      invariant forall d :: d in malformed <==> d in order[..i] && d.Malformed?
    {
      if order[i].Malformed? {
        malformed := malformed + [order[i]];
      }
    }
  }

  datatype Plan = Plan(operations: seq<Operation>, indexIds: seq<DocumentId>, deleteIds: seq<DocumentId>,
                       missing: seq<DocumentId>)

  ghost predicate Plans(rows: Rows, ids: seq<DocumentId>, plan: Plan) {
    && NoDuplicates(plan.indexIds) && NoDuplicates(plan.deleteIds) && NoDuplicates(plan.missing)
    && (forall d :: d in plan.missing <==> d in ids && !d.Malformed? && !Known(rows, d))
    && (forall d :: d in plan.indexIds <==> d in ids && Known(rows, d) && !rows[d.uuid].status.Deleted?)
    && (forall d :: d in plan.deleteIds <==> d in ids && Known(rows, d) && rows[d.uuid].status.Deleted?)
    && PlansOperations(rows, ids, plan.operations)
  }

  ghost predicate PlansOperations(rows: Rows, ids: seq<DocumentId>, ops: seq<Operation>) {
    && NoDuplicates(Ids(ops))
    && (forall k :: 0 <= k < |ops| ==> ops[k].id in rows && ops[k] == OperationFor(ops[k].id, rows[ops[k].id]))
    && (forall u: Uuid :: u in Ids(ops) <==> Canonical(u) in ids && u in rows)
  }

  lemma PlansOneMore(rows: Rows, ids: seq<DocumentId>, ops: seq<Operation>, d: DocumentId)
    requires PlansOperations(rows, ids, ops) && d !in ids
    ensures !Known(rows, d) ==> PlansOperations(rows, ids + [d], ops)
    ensures Known(rows, d) ==> PlansOperations(rows, ids + [d], ops + [OperationFor(d.uuid, rows[d.uuid])])
  {
    assert forall x :: x in ids + [d] <==> x in ids || x == d;
    if Known(rows, d) {
      var ops' := ops + [OperationFor(d.uuid, rows[d.uuid])];
      assert Ids(ops') == Ids(ops) + [d.uuid];
      assert d.uuid !in Ids(ops);
      assert forall u: Uuid :: u in Ids(ops') <==> u in Ids(ops) || u == d.uuid;
    }
  }

  method PlanBatch(rows: Rows, order: seq<DocumentId>) returns (plan: Plan)
    requires NoDuplicates(order)
    ensures Plans(rows, order, plan)
  {
    var operations: seq<Operation> := [];
    var indexIds: seq<DocumentId>, deleteIds: seq<DocumentId>, missing: seq<DocumentId> := [], [], [];
    for i := 0 to |order|
      invariant Plans(rows, order[..i], Plan(operations, indexIds, deleteIds, missing))
    {
      var d := order[i];
      assert order[..i + 1] == order[..i] + [d];
      assert d !in order[..i];
      PlansOneMore(rows, order[..i], operations, d);
      if d.Malformed? {
      } else if !Known(rows, d) {
        missing := missing + [d];
      } else {
        operations := operations + [OperationFor(d.uuid, rows[d.uuid])];
        if rows[d.uuid].status.Deleted? {
          deleteIds := deleteIds + [d];
        } else {
          indexIds := indexIds + [d];
        }
      }
    }
    assert order[..|order|] == order;
    plan := Plan(operations, indexIds, deleteIds, missing);
  }

  method Keep(ids: seq<DocumentId>, succeeded: set<Uuid>, inside: bool) returns (kept: seq<DocumentId>)
    requires NoDuplicates(ids) && forall d :: d in ids ==> d.Canonical?
    ensures NoDuplicates(kept)
    ensures forall d :: d in kept <==> d in ids && (d.uuid in succeeded) == inside
  {
    kept := [];
    for i := 0 to |ids|
      invariant NoDuplicates(kept)
      invariant forall d :: d in kept <==> d in ids[..i] && (d.uuid in succeeded) == inside
    {
      if (ids[i].uuid in succeeded) == inside {
        kept := kept + [ids[i]];
      }
    }
  }

  function BatchIds(events: seq<Event>): set<DocumentId> {
    set e | e in events :: e.documentId
  }

  function KnownIds(rows: Rows, ids: seq<DocumentId>): set<Uuid> {
    set d | d in ids && Known(rows, d) :: d.uuid
  }

  /** The bulk request refreshes exactly the confirmed documents from their rows. */
  lemma BulkIsRefresh(store: Store, ids: seq<DocumentId>, ops: seq<Operation>, refused: set<Uuid>)
    requires PlansOperations(store.rows, ids, ops)
    ensures Replay(store.index, Select(ops, refused, false)) == Refreshed(store, KnownIds(store.rows, ids) - refused)
    ensures Elements(Ids(Select(ops, refused, false))) == KnownIds(store.rows, ids) - refused
  {
    var kept, confirmed := Select(ops, refused, false), KnownIds(store.rows, ids) - refused;
    SelectMembers(ops, refused, false);
    forall u: Uuid
      ensures u in Ids(kept) <==> u in confirmed
      ensures Find(Replay(store.index, kept), u) == Find(Refreshed(store, confirmed), u)
    {
      ConfirmedPointwise(store, ids, ops, refused, u);
    }
    SameIndex(Replay(store.index, kept), Refreshed(store, confirmed));
  }

  /** The accepted operations name exactly the confirmed documents. */
  lemma ConfirmedIds(store: Store, ids: seq<DocumentId>, ops: seq<Operation>, refused: set<Uuid>, u: Uuid)
    requires PlansOperations(store.rows, ids, ops)
    ensures u in Ids(Select(ops, refused, false)) <==> u in KnownIds(store.rows, ids) - refused
  {
    var kept := Select(ops, refused, false);
    SelectMembers(ops, refused, false);
    assert u in Ids(ops) <==> Canonical(u) in ids && u in store.rows;
    if u in Ids(ops) && u !in refused {
      var j :| 0 <= j < |ops| && Ids(ops)[j] == u;
      assert ops[j] in kept;
      var k :| 0 <= k < |kept| && kept[k] == ops[j];
      assert Ids(kept)[k] == u;
    }
    if u in Ids(kept) {
      var k :| 0 <= k < |kept| && Ids(kept)[k] == u;
      assert kept[k] in ops;
      var j :| 0 <= j < |ops| && ops[j] == kept[k];
      assert Ids(ops)[j] == u;
      assert Known(store.rows, Canonical(u));
    }
  }

  lemma ConfirmedPointwise(store: Store, ids: seq<DocumentId>, ops: seq<Operation>, refused: set<Uuid>, u: Uuid)
    requires PlansOperations(store.rows, ids, ops)
    ensures u in Ids(Select(ops, refused, false)) <==> u in KnownIds(store.rows, ids) - refused
    ensures Find(Replay(store.index, Select(ops, refused, false)), u)
            == Entry(store, KnownIds(store.rows, ids) - refused, u)
  {
    var kept := Select(ops, refused, false);
    SelectMembers(ops, refused, false);
    ReplayPointwise(store.index, kept, u);
    ConfirmedIds(store, ids, ops, refused, u);
    if u in Ids(kept) {
      var k :| 0 <= k < |kept| && Ids(kept)[k] == u;
      assert kept[k] in ops;
    }
  }

  lemma SameIndex(a: Index, b: Index)
    requires forall id: Uuid :: Find(a, id) == Find(b, id)
    ensures a == b
  {
    forall id: Uuid
      ensures id in a <==> id in b
      ensures id in a ==> a[id] == b[id]
    {
      assert Find(a, id) == Find(b, id);
    }
  }

  lemma ConcatDistinct<T>(a: seq<T>, b: seq<T>)
    requires NoDuplicates(a) && NoDuplicates(b) && forall x :: x in a ==> x !in b
    ensures NoDuplicates(a + b)
  {
    forall i, j | 0 <= i < j < |a + b|
      ensures (a + b)[i] != (a + b)[j]
    {
      if i < |a| <= j {
        assert a[i] !in b;
      }
    }
  }

  /** Which list an id ends up in: decided by its row and by the cluster's answer alone. */
  ghost predicate Sorted(rows: Rows, ids: set<DocumentId>, refused: set<Uuid>, o: Outcome) {
    && (forall d :: d in o.skipped <==> d in ids && !Known(rows, d))
    && (forall d :: d in o.failed <==> d in ids && Known(rows, d) && d.uuid in refused)
    && (forall d :: d in o.indexed <==>
          d in ids && Known(rows, d) && d.uuid !in refused && !rows[d.uuid].status.Deleted?)
    && (forall d :: d in o.deleted <==>
          d in ids && Known(rows, d) && d.uuid !in refused && rows[d.uuid].status.Deleted?)
  }

  lemma SortedIsPartition(rows: Rows, ids: set<DocumentId>, refused: set<Uuid>, o: Outcome)
    requires Sorted(rows, ids, refused, o)
    requires NoDuplicates(o.indexed) && NoDuplicates(o.deleted) && NoDuplicates(o.failed) && NoDuplicates(o.skipped)
    ensures Partition(ids, o)
  {
    ConcatDistinct(o.indexed, o.deleted);
    ConcatDistinct(o.indexed + o.deleted, o.failed);
    ConcatDistinct(o.indexed + o.deleted + o.failed, o.skipped);
  }

  /** The lists of an answered bulk request. */
  method Settle(ghost rows: Rows, ghost order: seq<DocumentId>, ghost refused: set<Uuid>, plan: Plan,
                malformed: seq<DocumentId>, succeeded: set<Uuid>)
    returns (outcome: Outcome)
    requires Plans(rows, order, plan) && succeeded == KnownIds(rows, order) - refused
    requires NoDuplicates(malformed) && forall d :: d in malformed <==> d in order && d.Malformed?
    ensures Sorted(rows, Elements(order), refused, outcome)
    ensures Partition(Elements(order), outcome)
  {
    var indexed := Keep(plan.indexIds, succeeded, true);
    var deleted := Keep(plan.deleteIds, succeeded, true);
    ConcatDistinct(plan.indexIds, plan.deleteIds);
    var failed := Keep(plan.indexIds + plan.deleteIds, succeeded, false);
    ConcatDistinct(malformed, plan.missing);
    outcome := Outcome(indexed, deleted, failed, malformed + plan.missing);
    SortedIsPartition(rows, Elements(order), refused, outcome);
  }

  class IndexingProcessor {
    const table: DocumentTable
    const engine: Engine
    const cache: Generations?

    constructor (table: DocumentTable, engine: Engine, cache: Generations?)
      ensures this.table == table && this.engine == engine && this.cache == cache
    {
      this.table, this.engine, this.cache := table, engine, cache;
    }

    ghost function Contents(): Store
      reads table, engine
    {
      Store(table.rows, engine.docs)
    }

    /** `refused` is the cluster's choice of documents it answers with an error status; an
        unavailable engine raises. */
    method Process(events: seq<Event>, refused: set<Uuid>, now: int) returns (outcome: Outcome)
      modifies table, engine`docs, cache
      // The engine raised: nothing is written, and every id of the batch is to be retried,
      // even those reported as skipped.
      ensures Targets(old(table.rows), events) != {} && !engine.available ==>
                && Contents() == old(Contents())
                && outcome.indexed == [] && outcome.deleted == []
                && NoDuplicates(outcome.failed) && Elements(outcome.failed) == BatchIds(events)
                && forall d :: d in outcome.skipped <==> d in BatchIds(events) && !Known(old(table.rows), d)
      // Otherwise the confirmed documents are refreshed from their rows and marked.
      ensures Targets(old(table.rows), events) == {} || engine.available ==>
                && Contents() == Processed(old(Contents()), Targets(old(table.rows), events) - refused, now)
                && Sorted(old(table.rows), BatchIds(events), refused, outcome)
                && Partition(BatchIds(events), outcome)
      ensures cache != null ==> cache.available == old(cache.available)
      ensures cache != null && !cache.available ==> cache.counters == old(cache.counters)
      ensures cache != null && cache.available ==>
                cache.counters == Bumped(old(cache.counters),
                                         TenantsOf(Latest(events), Elements(outcome.indexed + outcome.deleted)))
      // A tenant gains one if the newest event of some changed document names it, and nothing otherwise.
      ensures cache != null && cache.available ==>
                forall t :: (if t in cache.counters then cache.counters[t] else 0)
                            == (if t in old(cache.counters) then old(cache.counters)[t] else 0)
                               + if ChangedFor(events, outcome, t) then 1 else 0
    {
      var latest, order := CollapseDuplicates(events);
      BatchOrder(table.rows, events, order);
      outcome := Write(order, refused, now);
      if cache != null {
        var tenants := TenantsOf(latest, Elements(outcome.indexed + outcome.deleted));
        cache.IncrAll(tenants);
        forall t
          ensures t in tenants <==> ChangedFor(events, outcome, t)
        {
          ChangedTenants(events, outcome, t);
        }
      }
    }

    /** The database session of a batch: re-read, bulk write, mark, commit. */
    method Write(order: seq<DocumentId>, refused: set<Uuid>, now: int) returns (outcome: Outcome)
      requires NoDuplicates(order)
      modifies table, engine`docs
      ensures KnownIds(old(table.rows), order) != {} && !engine.available ==>
                && Contents() == old(Contents())
                && outcome.indexed == [] && outcome.deleted == [] && outcome.failed == order
                && forall d :: d in outcome.skipped <==> d in order && !Known(old(table.rows), d)
      ensures KnownIds(old(table.rows), order) == {} || engine.available ==>
                && Contents() == Processed(old(Contents()), KnownIds(old(table.rows), order) - refused, now)
                && Sorted(old(table.rows), Elements(order), refused, outcome)
                && Partition(Elements(order), outcome)
    {
      var malformed := Malformations(order);
      var plan := PlanBatch(table.rows, order);
      if plan.operations == [] {
        NothingToDo(table.rows, order, plan.operations);
        outcome := Settle(table.rows, order, refused, plan, malformed, {});
        NothingProcessed(Contents(), refused, now);
        return;
      }
      SomethingToDo(table.rows, order, plan.operations);
      BulkIsRefresh(Contents(), order, plan.operations, refused);
      var answer := engine.Bulk(plan.operations, refused);
      if answer.None? {
        return Outcome([], [], order, malformed + plan.missing);
      }
      outcome := Settle(table.rows, order, refused, plan, malformed, Elements(answer.value.succeeded));
      MarkingOnlyMovesIndexed(table.rows, order, refused, outcome, now);
      var marked := Uuids(outcome.indexed);
      table.MarkIndexed(marked, now);
    }
  }

  lemma NothingProcessed(store: Store, refused: set<Uuid>, now: int)
    ensures Processed(store, {} - refused, now) == store
  {
    SameIndex(Refreshed(store, {} - refused), store.index);
  }

  function Uuids(ids: seq<DocumentId>): (uuids: seq<Uuid>)
    requires forall d :: d in ids ==> d.Canonical?
    ensures Elements(uuids) == set d | d in ids :: d.uuid
  {
    var uuids := seq(|ids|, k requires 0 <= k < |ids| => assert ids[k] in ids; ids[k].uuid);
    assert forall k :: 0 <= k < |ids| ==> uuids[k] == ids[k].uuid && ids[k] in ids;
    uuids
  }

  lemma BatchOrder(rows: Rows, events: seq<Event>, order: seq<DocumentId>)
    requires forall d :: d in order <==> exists k :: 0 <= k < |events| && events[k].documentId == d
    ensures Elements(order) == BatchIds(events)
    ensures KnownIds(rows, order) == Targets(rows, events)
  {
    forall d
      ensures d in order <==> d in BatchIds(events)
    {
      if d in BatchIds(events) {
        var e :| e in events && e.documentId == d;
        var k :| 0 <= k < |events| && events[k] == e;
        assert events[k].documentId == d;
      }
    }
    forall u: Uuid
      ensures u in KnownIds(rows, order) <==> u in Targets(rows, events)
    {
      assert u in KnownIds(rows, order) <==> Canonical(u) in order && u in rows;
      assert u in Targets(rows, events) <==> Canonical(u) in BatchIds(events) && u in rows;
    }
  }

  lemma NothingToDo(rows: Rows, order: seq<DocumentId>, ops: seq<Operation>)
    requires PlansOperations(rows, order, ops) && ops == []
    ensures KnownIds(rows, order) == {}
  {
    forall u: Uuid
      ensures u !in KnownIds(rows, order)
    {
      assert u !in Ids(ops);
    }
  }

  lemma SomethingToDo(rows: Rows, order: seq<DocumentId>, ops: seq<Operation>)
    requires PlansOperations(rows, order, ops) && ops != []
    ensures KnownIds(rows, order) != {}
  {
    assert ops[0].id in Ids(ops);
    assert Known(rows, Canonical(ops[0].id));
    assert ops[0].id in KnownIds(rows, order);
  }

  lemma MarkingOnlyMovesIndexed(rows: Rows, order: seq<DocumentId>, refused: set<Uuid>, o: Outcome, now: int)
    requires Sorted(rows, Elements(order), refused, o)
    ensures Marked(rows, set d | d in o.indexed :: d.uuid, now) == Marked(rows, KnownIds(rows, order) - refused, now)
  {
    forall u: Uuid | u in rows && rows[u].status.Pending?
      ensures u in (set d | d in o.indexed :: d.uuid) <==> u in KnownIds(rows, order) - refused
    {
      assert Canonical(u) in o.indexed <==> Canonical(u) in order && u !in refused;
      assert u in (set d | d in o.indexed :: d.uuid) <==> Canonical(u) in o.indexed;
      assert u in KnownIds(rows, order) <==> Canonical(u) in order;
    }
  }
}
