/** From a write to a page of hits: the indexing pipeline feeds the index, searches go through the
    generation-scoped cache, and answers are computed by the retrieval engine. */
module EndToEnd {
  import opened Documents
  import opened SearchEngine
  import Text
  import CacheKeys
  import Pipeline
  import SearchCache
  import Retrieval

  // ---------------------------------------------------------------- the pipeline over time

  /** A run of API calls and workers from an empty system, in any interleaving. */
  predicate IsRun(run: seq<Pipeline.Step>) {
    Pipeline.Legal(Pipeline.INITIAL, run)
  }

  lemma {:induction false} PrefixRuns(s: Pipeline.State, run: seq<Pipeline.Step>, i: nat)
    requires Pipeline.Legal(s, run) && i <= |run|
    ensures Pipeline.Legal(s, run[..i]) && Pipeline.Legal(Pipeline.Exec(s, run[..i]), run[i..])
    ensures Pipeline.Exec(Pipeline.Exec(s, run[..i]), run[i..]) == Pipeline.Exec(s, run)
    decreases i
  {
    if i == 0 {
      assert run[..0] == [] && run[0..] == run;
    } else {
      var rest := run[1..];
      PrefixRuns(Pipeline.Next(s, run[0]), rest, i - 1);
      assert run[..i][0] == run[0] && run[..i][1..] == rest[..i - 1] && run[i..] == rest[i - 1..];
    }
  }

  /** The state after `i` steps. */
  function After(run: seq<Pipeline.Step>, i: nat): Pipeline.State
    requires IsRun(run) && i <= |run|
  {
    PrefixRuns(Pipeline.INITIAL, run, i);
    Pipeline.Exec(Pipeline.INITIAL, run[..i])
  }

  lemma AfterContinues(run: seq<Pipeline.Step>, i: nat, j: nat)
    requires IsRun(run) && i <= j <= |run|
    ensures Pipeline.Legal(After(run, i), run[i..j])
    ensures After(run, j) == Pipeline.Exec(After(run, i), run[i..j])
  {
    PrefixRuns(Pipeline.INITIAL, run, j);
    assert run[..j][..i] == run[..i] && run[..j][i..] == run[i..j];
    PrefixRuns(Pipeline.INITIAL, run[..j], i);
  }

  lemma AfterIsSound(run: seq<Pipeline.Step>, i: nat)
    requires IsRun(run) && i <= |run|
    ensures Pipeline.Inv(After(run, i))
  {
    PrefixRuns(Pipeline.INITIAL, run, i);
    Pipeline.EveryRunKeeps(Pipeline.INITIAL, run[..i]);
  }

  lemma OneStep(run: seq<Pipeline.Step>, j: nat)
    requires IsRun(run) && j < |run|
    ensures Pipeline.Guard(After(run, j), run[j])
    ensures After(run, j + 1) == Pipeline.Next(After(run, j), run[j])
  {
    AfterContinues(run, j, j + 1);
    assert run[j..j + 1] == [run[j]];
    assert [run[j]][1..] == [];
  }

  /** Step `j` is a bulk write in which the cluster confirms the operation for this document. */
  predicate Confirms(run: seq<Pipeline.Step>, j: nat, id: Uuid) {
    j < |run| && run[j].WorkerBulk? && id in run[j].confirmed
  }

  /** What step `j` writes to the index. */
  function Sent(run: seq<Pipeline.Step>, j: nat): seq<Operation>
    requires IsRun(run) && j < |run|
  {
    OneStep(run, j);
    Pipeline.Written(After(run, j), run[j])
  }

  ghost predicate Removes(run: seq<Pipeline.Step>, j: nat, id: Uuid)
    requires IsRun(run) && j < |run|
  {
    exists op :: op in Sent(run, j) && op.id == id && op.DeleteOp?
  }

  ghost predicate Indexes(run: seq<Pipeline.Step>, j: nat, id: Uuid)
    requires IsRun(run) && j < |run|
  {
    exists op :: op in Sent(run, j) && op.id == id && op.IndexOp?
  }

  lemma SentIsWellFormed(run: seq<Pipeline.Step>, j: nat)
    requires IsRun(run) && j < |run|
    ensures NoDuplicates(Ids(Sent(run, j)))
    ensures forall k :: 0 <= k < |Sent(run, j)| ==> Pipeline.OpOk(After(run, j).rows, Sent(run, j)[k])
    ensures After(run, j + 1).index == Replay(After(run, j).index, Sent(run, j))
    ensures After(run, j + 1).register == RecordAll(After(run, j).register, Sent(run, j))
  {
    AfterIsSound(run, j);
    OneStep(run, j);
    if run[j].WorkerBulk? {
      Pipeline.WrittenIsWellFormed(After(run, j), run[j].worker, run[j].unwritten);
    }
  }

  /** What one step does to one document: a removal takes it out, an index write leaves it in, and
      anything else leaves it as it was. */
  lemma StepOnDocument(run: seq<Pipeline.Step>, j: nat, id: Uuid)
    requires IsRun(run) && j < |run|
    ensures Removes(run, j, id) ==> id !in After(run, j + 1).index && Pipeline.Tombstoned(After(run, j + 1), id)
    ensures Indexes(run, j, id) ==>
              id in After(run, j + 1).index
              && (Pipeline.Tombstoned(After(run, j + 1), id) <==> Pipeline.Tombstoned(After(run, j), id))
    ensures !Removes(run, j, id) && !Indexes(run, j, id) ==>
              && (id in After(run, j + 1).index <==> id in After(run, j).index)
              && (Pipeline.Tombstoned(After(run, j + 1), id) <==> Pipeline.Tombstoned(After(run, j), id))
  {
    var s, s', ops := After(run, j), After(run, j + 1), Sent(run, j);
    AfterIsSound(run, j);
    SentIsWellFormed(run, j);
    ReplayPointwise(s.index, ops, id);
    RecordPointwise(s.register, ops, id);
    assert Find(s'.index, id).Some? <==> id in s'.index;
    assert Lookup(s'.register, id).Some? <==> id in s'.register;
    if id in Ids(ops) {
      var k :| 0 <= k < |ops| && Ids(ops)[k] == id;
      OnlyOperation(ops, k);
      assert Pipeline.OpOk(s.rows, ops[k]);
      assert Find(s'.index, id) == Effect(Find(s.index, id), ops[k]);
      assert Lookup(s'.register, id) == Some(CellAfter(Lookup(s.register, id), ops[k]));
      assert Removes(run, j, id) <==> ops[k].DeleteOp?;
      assert Indexes(run, j, id) <==> ops[k].IndexOp?;
    } else {
      assert forall k :: 0 <= k < |ops| ==> Ids(ops)[k] == ops[k].id;
    }
  }

  lemma OnlyOperation(ops: seq<Operation>, k: nat)
    requires NoDuplicates(Ids(ops)) && k < |ops|
    ensures forall op :: op in ops && op.id == ops[k].id ==> op == ops[k]
  {
    forall op | op in ops && op.id == ops[k].id
      ensures op == ops[k]
    {
      var i :| 0 <= i < |ops| && ops[i] == op;
      assert Ids(ops)[i] == Ids(ops)[k];
    }
  }

  // ---------------------------------------------------------------- once removed, gone

  /** A removed document stays out of the index exactly until somebody sends an index write for it. */
  lemma {:induction false} StaysRemovedExactly(run: seq<Pipeline.Step>, j: nat, n: nat, id: Uuid)
    requires IsRun(run) && j < n <= |run| && Removes(run, j, id)
    ensures (forall i :: j < i <= n ==> id !in After(run, i).index) <==>
              (forall k :: j < k < n ==> !Indexes(run, k, id))
    decreases n
  {
    if n == j + 1 {
      StepOnDocument(run, j, id);
    } else {
      StaysRemovedExactly(run, j, n - 1, id);
      StepOnDocument(run, n - 1, id);
    }
  }

  /** Step `k` writes the document and no later one of the first `n` removes it. */
  ghost predicate WritesLast(run: seq<Pipeline.Step>, k: nat, n: nat, id: Uuid)
    requires IsRun(run) && n <= |run|
  {
    k < n && Indexes(run, k, id) && forall m :: k < m < n ==> !Removes(run, m, id)
  }

  /** The last operation on the document among the first `n` steps is an index write. */
  ghost predicate LastWriteIndexes(run: seq<Pipeline.Step>, n: nat, id: Uuid)
    requires IsRun(run) && n <= |run|
  {
    exists k: nat :: WritesLast(run, k, n, id)
  }

  lemma OneStepLonger(run: seq<Pipeline.Step>, k: nat, n: nat, id: Uuid)
    requires IsRun(run) && n < |run|
    ensures k < n ==> (WritesLast(run, k, n + 1, id) <==> WritesLast(run, k, n, id) && !Removes(run, n, id))
    ensures k == n ==> (WritesLast(run, k, n + 1, id) <==> Indexes(run, n, id))
  {}

  lemma LastWriteUnfolds(run: seq<Pipeline.Step>, n: nat, id: Uuid)
    requires IsRun(run) && n < |run|
    ensures LastWriteIndexes(run, n + 1, id) <==>
              Indexes(run, n, id) || (LastWriteIndexes(run, n, id) && !Removes(run, n, id))
  {
    OneStepLonger(run, n, n, id);
    if LastWriteIndexes(run, n, id) {
      var k: nat :| WritesLast(run, k, n, id);
      OneStepLonger(run, k, n, id);
    }
    if LastWriteIndexes(run, n + 1, id) {
      var k: nat :| WritesLast(run, k, n + 1, id);
      OneStepLonger(run, k, n, id);
    }
  }

  /** In every interleaving the index shows a document exactly when its last operation was an index
      write. */
  lemma {:induction false} ShownExactlyByLastWrite(run: seq<Pipeline.Step>, n: nat, id: Uuid)
    requires IsRun(run) && n <= |run|
    ensures id in After(run, n).index <==> LastWriteIndexes(run, n, id)
    decreases n
  {
    if n > 0 {
      ShownExactlyByLastWrite(run, n - 1, id);
      StepOnDocument(run, n - 1, id);
      LastWriteUnfolds(run, n - 1, id);
    }
  }

  /** The removal of a document is on record exactly when some step so far has written it. */
  lemma {:induction false} TombstonedExactlyWhenRemoved(run: seq<Pipeline.Step>, k: nat, id: Uuid)
    requires IsRun(run) && k <= |run|
    ensures Pipeline.Tombstoned(After(run, k), id) <==> exists j :: 0 <= j < k && Removes(run, j, id)
    decreases k
  {
    if k > 0 {
      TombstonedExactlyWhenRemoved(run, k - 1, id);
      StepOnDocument(run, k - 1, id);
    }
  }

  lemma {:induction false} NoLateWritesStepwise(s: Pipeline.State, run: seq<Pipeline.Step>, n: nat)
    requires IsRun(run) && n <= |run| && s == After(run, n)
    ensures Pipeline.Legal(s, run[n..])
    ensures Pipeline.NoLateWrites(s, run[n..]) <==>
              forall k, id: Uuid :: n <= k < |run| && Indexes(run, k, id) ==> !Pipeline.Tombstoned(After(run, k), id)
    decreases |run| - n
  {
    PrefixRuns(Pipeline.INITIAL, run, n);
    if n < |run| {
      OneStep(run, n);
      NoLateWritesStepwise(After(run, n + 1), run, n + 1);
      assert run[n..][1..] == run[n + 1..];
      assert Pipeline.LateWrite(s, run[n]) <==> exists id: Uuid :: Indexes(run, n, id) && Pipeline.Tombstoned(s, id);
    }
  }

  /** A run is free of late writes exactly when no index write of a document follows its removal. */
  lemma NoLateWritesExactly(run: seq<Pipeline.Step>)
    requires IsRun(run)
    ensures Pipeline.NoLateWrites(Pipeline.INITIAL, run) <==>
              forall j, k, id: Uuid :: 0 <= j < k < |run| && Removes(run, j, id) ==> !Indexes(run, k, id)
  {
    assert run[..0] == [] && run[0..] == run;
    NoLateWritesStepwise(Pipeline.INITIAL, run, 0);
    forall k, id: Uuid | 0 <= k < |run|
      ensures Pipeline.Tombstoned(After(run, k), id) <==> exists j :: 0 <= j < k && Removes(run, j, id)
    {
      TombstonedExactlyWhenRemoved(run, k, id);
    }
  }

  // ---------------------------------------------------------------- once indexed, found until deleted

  /** In the index, or deleted. */
  predicate Settled(s: Pipeline.State, id: Uuid) {
    id in s.index || Pipeline.RowDeleted(s, id)
  }

  lemma StepKeepsSettled(s: Pipeline.State, step: Pipeline.Step, id: Uuid)
    requires Pipeline.Inv(s) && Pipeline.Guard(s, step)
    requires Settled(s, id) || (step.WorkerBulk? && id in step.confirmed)
    ensures Settled(Pipeline.Next(s, step), id)
  {
    Pipeline.StepKeeps(s, step);
    if step.WorkerBulk? {
      var ops := Pipeline.Written(s, step);
      Pipeline.WrittenIsWellFormed(s, step.worker, step.unwritten);
      Pipeline.WrittenPointwise(s.rows, s.index, s.register, ops, id);
      if id in Ids(ops) {
        var k :| 0 <= k < |ops| && Ids(ops)[k] == id;
        assert Pipeline.OpOk(s.rows, ops[k]) && ops[k] in ops;
        assert ops[k].IndexOp? ==> id in Pipeline.IndexIds(ops);
      }
    }
  }

  /** Whatever the other workers do, a document whose write was confirmed is in the index until its
      row is deleted. */
  lemma {:induction false} IndexedUntilDeleted(run: seq<Pipeline.Step>, j: nat, i: nat, id: Uuid)
    requires IsRun(run) && Confirms(run, j, id) && j < i <= |run|
    ensures id in After(run, i).rows && Settled(After(run, i), id)
    decreases i
  {
    if j < i - 1 {
      IndexedUntilDeleted(run, j, i - 1, id);
    }
    AfterIsSound(run, i - 1);
    OneStep(run, i - 1);
    StepKeepsSettled(After(run, i - 1), run[i - 1], id);
    AfterIsSound(run, i);
  }

  predicate Ends(step: Pipeline.Step, w: nat) {
    (step.WorkerMark? || step.WorkerCrash?) && step.worker == w
  }

  /** A worker that has written keeps what was confirmed until it marks or crashes. */
  lemma {:induction false} WorkerWaits(run: seq<Pipeline.Step>, j: nat, k: nat, id: Uuid)
    requires IsRun(run) && j < k <= |run| && Confirms(run, j, id) && Indexes(run, j, id)
    requires forall m :: j < m < k ==> !Ends(run[m], run[j].worker)
    ensures var s, w := After(run, k), run[j].worker;
            w in s.workers && s.workers[w].HasWritten? && id in s.workers[w].confirmed
    decreases k
  {
    OneStep(run, k - 1);
    if k == j + 1 {
      var op :| op in Sent(run, j) && op.id == id && op.IndexOp?;
      assert id in Pipeline.IndexIds(Sent(run, j));
    } else {
      WorkerWaits(run, j, k - 1, id);
    }
  }

  /** In every interleaving: once a worker that confirmed an index write has marked, the row is INDEXED or
      DELETED for ever after, and in the index until deleted. */
  lemma MarkedForGood(run: seq<Pipeline.Step>, j: nat, k: nat, i: nat, id: Uuid)
    requires IsRun(run) && j < k < i <= |run| && Confirms(run, j, id) && Indexes(run, j, id)
    requires run[k].WorkerMark? && run[k].worker == run[j].worker
    requires forall m :: j < m < k ==> !Ends(run[m], run[j].worker)
    ensures Pipeline.Acknowledged(After(run, i), id)
    ensures !After(run, i).rows[id].status.Deleted? ==> id in After(run, i).index
  {
    WorkerWaits(run, j, k, id);
    AfterIsSound(run, k);
    OneStep(run, k);
    Pipeline.StepAcknowledges(After(run, k), run[k], id);
    AfterIsSound(run, k + 1);
    AfterContinues(run, k + 1, i);
    Pipeline.AcknowledgedForGood(After(run, k + 1), run[k + 1..i], id);
  }

  // ---------------------------------------------------------------- the index behind the searches

  /** The index states the searches see are those of the pipeline run: state number `e` is the one
      after `at[e]` of its steps. */
  ghost predicate Mirrors(w: SearchCache.World, run: seq<Pipeline.Step>, at: seq<nat>)
    requires IsRun(run)
  {
    && |at| == |w.contents|
    && (forall e :: 0 <= e < |at| ==> at[e] <= |run| && w.contents[e] == After(run, at[e]).index)
    && (forall d, e :: 0 <= d <= e < |at| ==> at[d] <= at[e])
  }

  function DocsOf(index: Index): set<Retrieval.Doc> {
    set id | id in index :: Retrieval.Doc(id, index[id].tenant, index[id].source)
  }

  /** `ranked` is the full ranked list for a request over an index state, `stored` being the engine's
      documents in the order they were stored. */
  ghost predicate Answers(log: real -> real, index: Index, stored: seq<Retrieval.Doc>, tenant: Tenant, request: Request,
                          effective: seq<string>, ranked: seq<Retrieval.Hit>)
    requires Retrieval.IsLog(log)
  {
    && Elements(stored) == DocsOf(index)
    && var docs := Retrieval.TenantDocs(stored, tenant);
       && Retrieval.IsEffective(docs, Text.Tokenize(request.text), request.fuzzy, effective)
       && Retrieval.IsRanking(ranked, Retrieval.Matches(log, docs, effective, request.fuzzy))
  }

  /** Searches start over an index, with requests brought into the normal form of the cache keys. */
  function Searching(index: Index): SearchCache.State {
    SearchCache.Initial(index, CacheKeys.NormalForm)
  }

  /** A search that started after the batch whose bulk write is pipeline step `j` (batch `b` of the
      search world) had bumped its tenant, and has returned. */
  ghost predicate SearchedAfter(s: SearchCache.State, run: seq<Pipeline.Step>, at: seq<nat>, search: nat, b: nat,
                                j: nat)
    requires IsRun(run)
  {
    && Mirrors(s.world, run, at)
    && search in s.searches && s.searches[search].phase.Returned? && SearchCache.Dependable(s, search)
    && b in s.searches[search].seen && b in s.world.batches
    && s.world.batches[b].epoch < |at| && j < at[s.world.batches[b].epoch]
  }

  /** The answer was computed from an index state at or after that batch, for a request that differs from
      the search's own in spelling at most. */
  lemma AnswerIsRecent(index: Index, steps: seq<SearchCache.Step>, run: seq<Pipeline.Step>, at: seq<nat>, search: nat,
                       b: nat, j: nat)
    requires SearchCache.Legal(Searching(index), steps) && IsRun(run)
    requires SearchedAfter(SearchCache.Exec(Searching(index), steps), run, at, search, b, j)
    ensures var s := SearchCache.Exec(Searching(index), steps);
            var e := s.searches[search].phase.response.epoch;
            && e < |s.world.contents| && j < at[e] <= |run| && s.world.contents[e] == After(run, at[e]).index
            && s.searches[search].phase.response.tenant == s.searches[search].tenant
            && var q, r := s.searches[search].request, s.searches[search].phase.response.request;
               Text.Tokenize(r.text) == Text.Tokenize(q.text) && q == r.(text := q.text)
  {
    SearchCache.SearchesSeeEarlierBatches(index, CacheKeys.NormalForm, steps, search, b);
    var search := SearchCache.Exec(Searching(index), steps).searches[search];
    CacheKeys.NormalFormKeepsTokens(search.request, search.phase.response.request);
  }

  /** Every hit of an answer is a document of the searching tenant, with the content of its row. */
  lemma HitsAreRows(log: real -> real, run: seq<Pipeline.Step>, i: nat, stored: seq<Retrieval.Doc>, tenant: Tenant,
                    request: Request, effective: seq<string>, ranked: seq<Retrieval.Hit>, k: nat)
    requires Retrieval.IsLog(log) && IsRun(run) && i <= |run| && k < |ranked|
    requires Answers(log, After(run, i).index, stored, tenant, request, effective, ranked)
    ensures var d := ranked[k].doc;
            && d.id in After(run, i).index && d.id in After(run, i).rows
            && d.tenant == tenant == After(run, i).rows[d.id].tenant && d.source == After(run, i).rows[d.id].source
  {
    Retrieval.TenantIsolation(log, stored, tenant, effective, request.fuzzy, ranked, k);
    AfterIsSound(run, i);
    assert ranked[k].doc in Elements(stored);
  }

  /** Once the batch that removed a deleted document has bumped its tenant, no search that starts
      later gives a page with that document, as a hit, as a leader or as a follower, provided that no
      index write of the document was sent between its removal and the computing of the answer. That
      is so in every run without late writes. */
  lemma DeletedDocumentsAreNeverServed(log: real -> real, index: Index, steps: seq<SearchCache.Step>,
                                       run: seq<Pipeline.Step>, at: seq<nat>, search: nat, b: nat, j: nat, id: Uuid,
                                       stored: seq<Retrieval.Doc>, effective: seq<string>, ranked: seq<Retrieval.Hit>,
                                       page: nat, size: nat)
    requires Retrieval.IsLog(log) && page >= 1
    requires SearchCache.Legal(Searching(index), steps) && IsRun(run)
    requires var s := SearchCache.Exec(Searching(index), steps);
             && SearchedAfter(s, run, at, search, b, j)
             && var r := s.searches[search].phase.response;
                r.epoch < |s.world.contents| ==>
                  Answers(log, s.world.contents[r.epoch], stored, r.tenant, r.request, effective, ranked)
    requires j < |run| && Removes(run, j, id)
    ensures var e := SearchCache.Exec(Searching(index), steps).searches[search].phase.response.epoch;
            && e < |at| && at[e] <= |run|
            && ((forall k :: j < k < at[e] ==> !Indexes(run, k, id)) ==>
                  forall h :: h in Retrieval.Page(ranked, page, size) ==> h.doc.id != id)
    ensures Pipeline.NoLateWrites(Pipeline.INITIAL, run) ==>
              forall h :: h in Retrieval.Page(ranked, page, size) ==> h.doc.id != id
  {
    var s := SearchCache.Exec(Searching(index), steps);
    AnswerIsRecent(index, steps, run, at, search, b, j);
    var r := s.searches[search].phase.response;
    var i := at[r.epoch];
    NoLateWritesExactly(run);
    StaysRemovedExactly(run, j, i, id);
    forall h | h in Retrieval.Page(ranked, page, size) && id !in After(run, i).index
      ensures h.doc.id != id
    {
      assert h in ranked;
      var k :| 0 <= k < |ranked| && ranked[k] == h;
      HitsAreRows(log, run, i, stored, r.tenant, r.request, effective, ranked, k);
    }
  }

  /** Once the batch that indexed a document has bumped its tenant, every exact search of the tenant
      that starts later and asks only for words of the document ranks it, unless the document had
      been deleted by the time the answer was computed. An empty answer cached during the indexing
      lag cannot hide it. */
  lemma IndexedDocumentsAreFound(log: real -> real, index: Index, steps: seq<SearchCache.Step>,
                                 run: seq<Pipeline.Step>, at: seq<nat>, search: nat, b: nat, j: nat, id: Uuid,
                                 stored: seq<Retrieval.Doc>, effective: seq<string>, ranked: seq<Retrieval.Hit>)
    requires Retrieval.IsLog(log)
    requires SearchCache.Legal(Searching(index), steps) && IsRun(run)
    requires var s := SearchCache.Exec(Searching(index), steps);
             && SearchedAfter(s, run, at, search, b, j)
             && var r := s.searches[search].phase.response;
                r.epoch < |s.world.contents| ==>
                  Answers(log, s.world.contents[r.epoch], stored, r.tenant, r.request, effective, ranked)
    requires Confirms(run, j, id)
    ensures var s := SearchCache.Exec(Searching(index), steps);
            var q, r := s.searches[search], s.searches[search].phase.response;
            && r.epoch < |at| && at[r.epoch] <= |run| && id in After(run, at[r.epoch]).rows
            && var row := After(run, at[r.epoch]).rows[id];
               var doc := Retrieval.Doc(id, row.tenant, row.source);
               !row.status.Deleted? && row.tenant == q.tenant && !q.request.fuzzy && Text.Tokenize(q.request.text) != []
               && Retrieval.ContainsAll(doc, Text.Tokenize(q.request.text)) ==>
                 exists k :: 0 <= k < |ranked| && ranked[k].doc == doc
  {
    var s := SearchCache.Exec(Searching(index), steps);
    AnswerIsRecent(index, steps, run, at, search, b, j);
    var q, r := s.searches[search], s.searches[search].phase.response;
    var i := at[r.epoch];
    IndexedUntilDeleted(run, j, i, id);
    var row := After(run, i).rows[id];
    var doc, terms := Retrieval.Doc(id, row.tenant, row.source), Text.Tokenize(q.request.text);
    if !row.status.Deleted? && row.tenant == q.tenant && !q.request.fuzzy && terms != []
       && Retrieval.ContainsAll(doc, terms) {
      AfterIsSound(run, i);
      RankedExactly(log, After(run, i).index, stored, r.tenant, r.request, effective, ranked, id);
      var k :| 0 <= k < |ranked| && ranked[k].doc.id == id;
      HitsAreRows(log, run, i, stored, r.tenant, r.request, effective, ranked, k);
      assert ranked[k].doc == doc;
    }
  }

  /** An exact search ranks exactly the stored documents of its tenant that contain all its words. */
  lemma RankedExactly(log: real -> real, index: Index, stored: seq<Retrieval.Doc>, tenant: Tenant, request: Request,
                      effective: seq<string>, ranked: seq<Retrieval.Hit>, id: Uuid)
    requires Retrieval.IsLog(log) && !request.fuzzy && Text.Tokenize(request.text) != []
    requires Answers(log, index, stored, tenant, request, effective, ranked)
    ensures (exists k :: 0 <= k < |ranked| && ranked[k].doc.id == id) <==>
              && id in index && index[id].tenant == tenant
              && Retrieval.ContainsAll(Retrieval.Doc(id, tenant, index[id].source), Text.Tokenize(request.text))
  {
    var docs, terms := Retrieval.TenantDocs(stored, tenant), Text.Tokenize(request.text);
    Retrieval.ExactTermsStand(docs, terms, effective);
    if k :| 0 <= k < |ranked| && ranked[k].doc.id == id {
      assert ranked[k] in Elements(ranked);
      var d := ranked[k].doc;
      assert d in docs && Retrieval.IsMatch(log, docs, terms, false, d);
      assert d in Elements(stored) && d in DocsOf(index);
      Retrieval.ExactSearchFindsAllTerms(log, docs, terms, d);
    }
    if id in index && index[id].tenant == tenant
       && Retrieval.ContainsAll(Retrieval.Doc(id, tenant, index[id].source), terms) {
      var doc := Retrieval.Doc(id, tenant, index[id].source);
      assert doc in DocsOf(index) && doc in Elements(stored) && doc in docs;
      Retrieval.ExactSearchFindsAllTerms(log, docs, terms, doc);
      var hit := Retrieval.HitOf(log, docs, terms, doc);
      assert hit in Retrieval.Matches(log, docs, terms, false);
      assert hit in Elements(ranked);
      var k :| 0 <= k < |ranked| && ranked[k] == hit;
    }
  }

  /** In every interleaving, an answer to an exact search ranks a document exactly when the document
      is the tenant's, contains all the words asked for, and was last written, not removed. */
  lemma ServedExactlyByLastWrite(log: real -> real, run: seq<Pipeline.Step>, i: nat,
                                 stored: seq<Retrieval.Doc>, tenant: Tenant, request: Request,
                                 effective: seq<string>, ranked: seq<Retrieval.Hit>, id: Uuid)
    requires Retrieval.IsLog(log) && IsRun(run) && i <= |run| && !request.fuzzy && Text.Tokenize(request.text) != []
    requires Answers(log, After(run, i).index, stored, tenant, request, effective, ranked)
    ensures LastWriteIndexes(run, i, id) ==> id in After(run, i).rows
    ensures (exists k :: 0 <= k < |ranked| && ranked[k].doc.id == id) <==>
              && LastWriteIndexes(run, i, id) && After(run, i).rows[id].tenant == tenant
              && Retrieval.ContainsAll(Retrieval.Doc(id, tenant, After(run, i).rows[id].source),
                                       Text.Tokenize(request.text))
  {
    AfterIsSound(run, i);
    ShownExactlyByLastWrite(run, i, id);
    RankedExactly(log, After(run, i).index, stored, tenant, request, effective, ranked, id);
  }
}
