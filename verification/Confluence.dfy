/** At-least-once, out-of-order and duplicated delivery: what a run of batches does depends on
    which documents it names and on nothing else. */
module Confluence {
  import opened Documents
  import opened SearchEngine
  import opened Repository
  import opened Processor

  datatype Batch = Batch(events: seq<Event>, now: int)

  /** Batches processed one after the other by a working engine. */
  function RunAll(store: Store, batches: seq<Batch>): Store {
    if batches == [] then store
    else
      var before, b := RunAll(store, batches[..|batches| - 1]), batches[|batches| - 1];
      Processed(before, Targets(before.rows, b.events), b.now)
  }

  function AllIds(batches: seq<Batch>): set<DocumentId> {
    set b, e | b in batches && e in b.events :: e.documentId
  }

  function Reached(rows: Rows, ids: set<DocumentId>): set<Uuid> {
    set d | d in ids && Known(rows, d) :: d.uuid
  }

  /** Rows without their time stamps. */
  function Untimed(rows: Rows): Rows {
    map id | id in rows :: rows[id].(updatedAt := 0)
  }

  lemma EffectIdempotent(existing: Option<StoredDoc>, op: Operation)
    ensures Effect(Effect(existing, op), op) == Effect(existing, op)
  {}

  /** Marking changes neither which rows exist nor the write a row asks for. */
  lemma MarkingKeepsOperations(rows: Rows, ids: set<Uuid>, now: int)
    ensures Marked(rows, ids, now).Keys == rows.Keys
    ensures forall id :: id in rows ==> OperationFor(id, Marked(rows, ids, now)[id]) == OperationFor(id, rows[id])
  {}

  lemma {:induction false} RunKeepsOperations(store: Store, batches: seq<Batch>)
    ensures RunAll(store, batches).rows.Keys == store.rows.Keys
    ensures forall id :: id in store.rows ==>
              OperationFor(id, RunAll(store, batches).rows[id]) == OperationFor(id, store.rows[id])
  {
    if batches != [] {
      var init, b := batches[..|batches| - 1], batches[|batches| - 1];
      RunKeepsOperations(store, init);
      var before := RunAll(store, init);
      MarkingKeepsOperations(before.rows, Targets(before.rows, b.events), b.now);
    }
  }

  lemma ReachedByOneMore(rows: Rows, rows': Rows, init: seq<Batch>, b: Batch)
    requires rows.Keys == rows'.Keys
    ensures Reached(rows, AllIds(init + [b])) == Reached(rows, AllIds(init)) + Targets(rows', b.events)
  {
    forall u: Uuid
      ensures u in Reached(rows, AllIds(init + [b])) <==>
                u in Reached(rows, AllIds(init)) || u in Targets(rows', b.events)
    {
      assert u in Reached(rows, AllIds(init + [b])) <==> Canonical(u) in AllIds(init + [b]) && u in rows;
      assert u in Reached(rows, AllIds(init)) <==> Canonical(u) in AllIds(init) && u in rows;
      assert u in Targets(rows', b.events) <==>
        (exists e :: e in b.events && e.documentId == Canonical(u)) && u in rows;
      assert Canonical(u) in AllIds(init + [b]) <==>
             Canonical(u) in AllIds(init) || exists e :: e in b.events && e.documentId == Canonical(u) by {
        if Canonical(u) in AllIds(init + [b]) {
          var c, e :| c in init + [b] && e in c.events && e.documentId == Canonical(u);
          assert c in init || c == b;
        }
        if exists e :: e in b.events && e.documentId == Canonical(u) {
          var e :| e in b.events && e.documentId == Canonical(u);
          assert b in init + [b];
        }
        if Canonical(u) in AllIds(init) {
          var c, e :| c in init && e in c.events && e.documentId == Canonical(u);
          assert c in init + [b];
        }
      }
    }
  }

  /** Refreshing twice is refreshing once. */
  lemma RefreshTwice(store: Store, rows': Rows, first: set<Uuid>, second: set<Uuid>)
    requires rows'.Keys == store.rows.Keys
    requires forall id :: id in store.rows ==> OperationFor(id, rows'[id]) == OperationFor(id, store.rows[id])
    ensures Refreshed(Store(rows', Refreshed(store, first)), second) == Refreshed(store, first + second)
  {
    var once := Refreshed(store, first);
    forall id: Uuid
      ensures Find(Refreshed(Store(rows', once), second), id) == Find(Refreshed(store, first + second), id)
    {
      assert Find(once, id) == Entry(store, first, id);
      if id in store.rows {
        EffectIdempotent(Find(store.index, id), OperationFor(id, store.rows[id]));
      }
    }
    SameIndex(Refreshed(Store(rows', once), second), Refreshed(store, first + second));
  }

  lemma MarkTwice(rows: Rows, rows': Rows, first: set<Uuid>, second: set<Uuid>, now: int)
    requires Untimed(rows') == Untimed(Marked(rows, first, 0))
    ensures Untimed(Marked(rows', second, now)) == Untimed(Marked(rows, first + second, 0))
  {
    var a, b := Untimed(Marked(rows', second, now)), Untimed(Marked(rows, first + second, 0));
    assert rows'.Keys == Untimed(rows').Keys == Untimed(Marked(rows, first, 0)).Keys == rows.Keys;
    assert a.Keys == b.Keys;
    forall id | id in rows
      ensures a[id] == b[id]
    {
      assert Untimed(rows')[id] == Untimed(Marked(rows, first, 0))[id];
    }
  }

  /** The closed form: one pass over the named documents that exist. */
  lemma {:induction false} RunIsOnePass(store: Store, batches: seq<Batch>)
    ensures RunAll(store, batches).index == Refreshed(store, Reached(store.rows, AllIds(batches)))
    ensures Untimed(RunAll(store, batches).rows) == Untimed(Marked(store.rows, Reached(store.rows, AllIds(batches)), 0))
  {
    if batches == [] {
      SameIndex(store.index, Refreshed(store, {}));
      assert AllIds(batches) == {};
    } else {
      var init, b := batches[..|batches| - 1], batches[|batches| - 1];
      assert batches == init + [b];
      var before := RunAll(store, init);
      var first, second := Reached(store.rows, AllIds(init)), Targets(before.rows, b.events);
      RunIsOnePass(store, init);
      RunKeepsOperations(store, init);
      ReachedByOneMore(store.rows, before.rows, init, b);
      RefreshTwice(store, before.rows, first, second);
      MarkTwice(store.rows, before.rows, first, second, b.now);
    }
  }

  /** Reordering, duplicating, merging or splitting batches, and changing event kinds, tenants or
      versions, all leave the same documents in the index and the same row statuses. */
  lemma OnlyTheNamedDocumentsMatter(store: Store, these: seq<Batch>, those: seq<Batch>)
    requires AllIds(these) == AllIds(those)
    ensures RunAll(store, these).index == RunAll(store, those).index
    ensures Untimed(RunAll(store, these).rows) == Untimed(RunAll(store, those).rows)
  {
    RunIsOnePass(store, these);
    RunIsOnePass(store, those);
  }

  /** Every event carries the tenant of the row it names. */
  ghost predicate TenantsMatch(rows: Rows, events: seq<Event>) {
    forall k :: 0 <= k < |events| && Known(rows, events[k].documentId) ==>
      events[k].tenant == rows[events[k].documentId.uuid].tenant
  }

  /** Then a batch bumps the generation of exactly the tenants that own a document it changed. */
  lemma BumpReachesTheOwners(rows: Rows, events: seq<Event>, refused: set<Uuid>, o: Outcome)
    requires TenantsMatch(rows, events) && Sorted(rows, BatchIds(events), refused, o)
    ensures TenantsOf(Latest(events), Elements(o.indexed + o.deleted))
         == set u | u in Targets(rows, events) - refused :: rows[u].tenant
  {
    var changed, confirmed := Elements(o.indexed + o.deleted), Targets(rows, events) - refused;
    forall d
      ensures d in changed <==> d.Canonical? && d.uuid in confirmed
      ensures d in changed ==> d in Latest(events) && Latest(events)[d].tenant == rows[d.uuid].tenant
    {
      ChangedIsConfirmed(rows, events, refused, o, d);
      if d in changed {
        OwnerOfLatest(rows, events, d);
      }
    }
    var left, right := TenantsOf(Latest(events), changed), set u | u in confirmed :: rows[u].tenant;
    forall t
      ensures t in left <==> t in right
    {
      if t in left {
        var d :| d in changed && d in Latest(events) && Latest(events)[d].tenant == t;
        assert d.uuid in confirmed;
      }
      if t in right {
        var u :| u in confirmed && rows[u].tenant == t;
        assert Canonical(u) in changed;
      }
    }
  }

  lemma ChangedIsConfirmed(rows: Rows, events: seq<Event>, refused: set<Uuid>, o: Outcome, d: DocumentId)
    requires Sorted(rows, BatchIds(events), refused, o)
    ensures d in Elements(o.indexed + o.deleted) <==> d.Canonical? && d.uuid in Targets(rows, events) - refused
    ensures d in Elements(o.indexed + o.deleted) ==> d in BatchIds(events) && Known(rows, d)
  {
    assert d in Elements(o.indexed + o.deleted) <==> d in o.indexed || d in o.deleted;
    assert d in Elements(o.indexed + o.deleted) <==> d in BatchIds(events) && Known(rows, d) && d.uuid !in refused;
    if d.Canonical? {
      assert d.uuid in Targets(rows, events) <==> d in BatchIds(events) && Known(rows, d);
    }
  }

  lemma OwnerOfLatest(rows: Rows, events: seq<Event>, d: DocumentId)
    requires TenantsMatch(rows, events) && d in BatchIds(events) && Known(rows, d)
    ensures d in Latest(events) && Latest(events)[d].tenant == rows[d.uuid].tenant
  {
    var e :| e in events && e.documentId == d;
    var k :| 0 <= k < |events| && events[k] == e;
    LatestKeys(events, d);
    LatestIsNewest(events, d);
  }
}
