/** The indexing pipeline as a step system. Any number of API calls and workers interleave; a
    worker's batch is cut at its awaits into reading rows, writing the index and marking rows.
    Which documents a worker picks up, and when, is unconstrained: events may be lost, repeated
    or delivered in any order. */
module Pipeline {
  import opened Documents
  import opened SearchEngine
  import opened Repository
  import opened Processor

  /** A worker in the middle of a batch: with the bulk request built, or with its confirmed index writes. */
  datatype Worker = HasRead(ops: seq<Operation>) | HasWritten(confirmed: set<Uuid>)

  /** A delete call between loading the row and committing the change. */
  datatype DeleteCall = DeleteCall(id: Uuid, version: int)

  /** `register` is fed the same writes as `index` but remembers removed versions; `history` lists
      the writes in the order they reached the index. */
  datatype State = State(rows: Rows, index: Index, register: Register, history: seq<Operation>,
                         workers: map<nat, Worker>, deletes: map<nat, DeleteCall>)

  datatype Step =
    | Create(id: Uuid, tenant: Tenant, source: Source, now: int)
    | DeleteRead(call: nat, tenant: Tenant, id: Uuid)
    | DeleteCommit(call: nat, now: int)
    | WorkerRead(worker: nat, ids: seq<Uuid>)
    | WorkerBulk(worker: nat, unwritten: set<Uuid>, confirmed: set<Uuid>)
    | WorkerMark(worker: nat, now: int)
    | WorkerCrash(worker: nat)

  const INITIAL := State(map[], map[], map[], [], map[], map[])

  function ReadOps(rows: Rows, ids: seq<Uuid>): (ops: seq<Operation>)
    requires forall k :: 0 <= k < |ids| ==> ids[k] in rows
    ensures |ops| == |ids| && forall k :: 0 <= k < |ids| ==> ops[k] == OperationFor(ids[k], rows[ids[k]])
  {
    seq(|ids|, k requires 0 <= k < |ids| => OperationFor(ids[k], rows[ids[k]]))
  }

  function IndexIds(ops: seq<Operation>): set<Uuid> {
    set op | op in ops && op.IndexOp? :: op.id
  }

  /** The cluster writes what it chooses (`unwritten` is what it did not write, a raised or timed-out
      request included) and confirms only documents it wrote. */
  predicate Guard(s: State, step: Step) {
    match step
    case Create(id, _, _, _) => id !in s.rows
    case DeleteRead(call, tenant, id) => call !in s.deletes && Present(s.rows, tenant, id)
    case DeleteCommit(call, _) => call in s.deletes && s.deletes[call].id in s.rows
    case WorkerRead(w, ids) => w !in s.workers && NoDuplicates(ids) && forall k :: 0 <= k < |ids| ==> ids[k] in s.rows
    case WorkerBulk(w, unwritten, confirmed) =>
      w in s.workers && s.workers[w].HasRead? && confirmed <= Elements(Ids(Select(s.workers[w].ops, unwritten, false)))
    case WorkerMark(w, _) => w in s.workers && s.workers[w].HasWritten?
    case WorkerCrash(w) => w in s.workers
  }

  function Next(s: State, step: Step): State
    requires Guard(s, step)
  {
    match step
    case Create(id, tenant, source, now) => s.(rows := s.rows[id := NewRow(tenant, source, now)])
    case DeleteRead(call, tenant, id) => s.(deletes := s.deletes[call := DeleteCall(id, s.rows[id].version)])
    case DeleteCommit(call, now) =>
      var DeleteCall(id, version) := s.deletes[call];
      s.(rows := s.rows[id := s.rows[id].(status := Deleted, version := version + 1, updatedAt := now)],
         deletes := s.deletes - {call})
    case WorkerRead(w, ids) => s.(workers := s.workers[w := HasRead(ReadOps(s.rows, ids))])
    case WorkerBulk(w, unwritten, confirmed) =>
      var written := Select(s.workers[w].ops, unwritten, false);
      s.(index := Replay(s.index, written),
         register := RecordAll(s.register, written),
         history := s.history + written,
         workers := s.workers[w := HasWritten(confirmed * IndexIds(written))])
    case WorkerMark(w, now) => s.(rows := Marked(s.rows, s.workers[w].confirmed, now), workers := s.workers - {w})
    case WorkerCrash(w) => s.(workers := s.workers - {w})
  }

  predicate Legal(s: State, steps: seq<Step>)
    decreases |steps|
  {
    steps == [] || (Guard(s, steps[0]) && Legal(Next(s, steps[0]), steps[1..]))
  }

  function Exec(s: State, steps: seq<Step>): State
    requires Legal(s, steps)
    decreases |steps|
  {
    if steps == [] then s else Exec(Next(s, steps[0]), steps[1..])
  }

  // ---------------------------------------------------------------- the invariant

  /** FAILED is never reached; version 2 and DELETED go together. */
  ghost predicate RowsOk(rows: Rows) {
    forall id :: id in rows ==>
      !rows[id].status.Failed? && rows[id].version == if rows[id].status.Deleted? then 2 else 1
  }

  function FirstWrite(row: Row): StoredDoc { StoredDoc(row.tenant, 1, row.source) }

  /** Every entry is its row's own content under its row's own tenant, at most as new as the row. */
  ghost predicate IndexOk(rows: Rows, index: Index) {
    forall id :: id in index ==> id in rows && index[id] == FirstWrite(rows[id])
  }

  /** An INDEXED row is present in the index (at its version, by `IndexOk` and `RowsOk`). */
  ghost predicate IndexedShown(rows: Rows, index: Index) {
    forall id :: id in rows && rows[id].status.Indexed? ==> id in index
  }

  predicate CellOk(rows: Rows, id: Uuid, cell: Cell) {
    id in rows &&
    match cell
    case Live(doc) => doc == FirstWrite(rows[id])
    case Tombstone(v) => v == 2 && rows[id].status.Deleted?
  }

  ghost predicate RegisterOk(rows: Rows, register: Register) {
    forall id :: id in register ==> CellOk(rows, id, register[id])
  }

  /** The index never loses a document the register still shows. */
  ghost predicate IndexCovers(index: Index, register: Register) {
    forall id :: id in register && register[id].Live? ==> id in index
  }

  ghost predicate OpOk(rows: Rows, op: Operation) {
    op.id in rows &&
    match op
    case IndexOp(id, tenant, version, source) => StoredDoc(tenant, version, source) == FirstWrite(rows[id])
    case DeleteOp(id, _, version) => version == 2 && rows[id].status.Deleted?
  }

  ghost predicate WorkerOk(rows: Rows, index: Index, worker: Worker) {
    match worker
    case HasRead(ops) => NoDuplicates(Ids(ops)) && forall k :: 0 <= k < |ops| ==> OpOk(rows, ops[k])
    case HasWritten(confirmed) =>
      forall id :: id in confirmed ==> id in rows && (rows[id].status.Deleted? || id in index)
  }

  ghost predicate WorkersOk(s: State) {
    forall w :: w in s.workers ==> WorkerOk(s.rows, s.index, s.workers[w])
  }

  ghost predicate DeletesOk(s: State) {
    forall call :: call in s.deletes ==> s.deletes[call].id in s.rows && s.deletes[call].version == 1
  }

  ghost predicate Inv(s: State) {
    && RowsOk(s.rows) && IndexOk(s.rows, s.index) && IndexedShown(s.rows, s.index)
    && RegisterOk(s.rows, s.register) && IndexCovers(s.index, s.register)
    && WorkersOk(s) && DeletesOk(s)
  }

  /** What every row keeps for ever: its tenant and content, and being deleted. */
  ghost predicate Later(rows: Rows, rows': Rows) {
    forall id :: id in rows ==>
      && id in rows' && rows'[id].tenant == rows[id].tenant && rows'[id].source == rows[id].source
      && rows[id].version <= rows'[id].version && (rows[id].status.Deleted? ==> rows'[id].status.Deleted?)
  }

  // ---------------------------------------------------------------- steps on rows

  lemma LaterKeepsWork(rows: Rows, rows': Rows, index: Index, register: Register, worker: Worker)
    requires Later(rows, rows')
    ensures IndexOk(rows, index) ==> IndexOk(rows', index)
    ensures RegisterOk(rows, register) ==> RegisterOk(rows', register)
    ensures WorkerOk(rows, index, worker) ==> WorkerOk(rows', index, worker)
  {
    if worker.HasRead? && WorkerOk(rows, index, worker) {
      forall k | 0 <= k < |worker.ops|
        ensures OpOk(rows', worker.ops[k])
      {
        assert OpOk(rows, worker.ops[k]);
      }
    }
  }

  /** A step that only changes rows keeps the invariant when the new rows are well-formed. */
  lemma RowStep(s: State, rows': Rows)
    requires Inv(s) && Later(s.rows, rows') && RowsOk(rows') && IndexedShown(rows', s.index)
    ensures Inv(s.(rows := rows'))
  {
    LaterKeepsWork(s.rows, rows', s.index, s.register, HasWritten({}));
    forall w | w in s.workers
      ensures WorkerOk(rows', s.index, s.workers[w])
    {
      LaterKeepsWork(s.rows, rows', s.index, s.register, s.workers[w]);
    }
  }

  lemma CreateKeeps(s: State, id: Uuid, tenant: Tenant, source: Source, now: int)
    requires Inv(s) && id !in s.rows
    ensures Inv(s.(rows := s.rows[id := NewRow(tenant, source, now)]))
  {
    RowStep(s, s.rows[id := NewRow(tenant, source, now)]);
  }

  lemma DeleteKeeps(s: State, call: nat, now: int)
    requires Inv(s) && Guard(s, DeleteCommit(call, now))
    ensures Later(s.rows, Next(s, DeleteCommit(call, now)).rows)
    ensures Inv(Next(s, DeleteCommit(call, now)))
  {
    RowStep(s, Next(s, DeleteCommit(call, now)).rows);
  }

  lemma MarkKeeps(s: State, w: nat, now: int)
    requires Inv(s) && Guard(s, WorkerMark(w, now))
    ensures Later(s.rows, Next(s, WorkerMark(w, now)).rows)
    ensures Inv(Next(s, WorkerMark(w, now)))
  {
    assert WorkerOk(s.rows, s.index, s.workers[w]);
    RowStep(s, Marked(s.rows, s.workers[w].confirmed, now));
  }

  lemma ReadKeeps(s: State, w: nat, ids: seq<Uuid>)
    requires Inv(s) && Guard(s, WorkerRead(w, ids))
    ensures Inv(Next(s, WorkerRead(w, ids)))
  {
    var ops := ReadOps(s.rows, ids);
    assert Ids(ops) == ids;
    forall k | 0 <= k < |ops|
      ensures OpOk(s.rows, ops[k])
    {
      assert ids[k] in s.rows;
    }
    assert WorkerOk(s.rows, s.index, HasRead(ops));
  }

  // ---------------------------------------------------------------- the bulk write

  /** What a batch of well-formed writes does to one document. */
  lemma WrittenPointwise(rows: Rows, index: Index, register: Register, ops: seq<Operation>, id: Uuid)
    requires RowsOk(rows) && IndexOk(rows, index) && RegisterOk(rows, register)
    requires NoDuplicates(Ids(ops)) && forall k :: 0 <= k < |ops| ==> OpOk(rows, ops[k])
    ensures id in Replay(index, ops) ==> id in rows && Replay(index, ops)[id] == FirstWrite(rows[id])
    ensures id in RecordAll(register, ops) ==> CellOk(rows, id, RecordAll(register, ops)[id])
    ensures id in rows && !rows[id].status.Deleted? && id in index ==> id in Replay(index, ops)
    ensures id in rows && !rows[id].status.Deleted? && id in IndexIds(ops) ==> id in Replay(index, ops)
    ensures id in register && register[id].Tombstone? ==>
              id in RecordAll(register, ops) && RecordAll(register, ops)[id].Tombstone?
    ensures (id in register && register[id].Live? ==> id in index) ==>
              (id in RecordAll(register, ops) && RecordAll(register, ops)[id].Live? ==> id in Replay(index, ops))
  {
    ReplayPointwise(index, ops, id);
    RecordPointwise(register, ops, id);
    assert Find(Replay(index, ops), id).Some? <==> id in Replay(index, ops);
    assert Lookup(RecordAll(register, ops), id).Some? <==> id in RecordAll(register, ops);
    if id in Ids(ops) {
      var k :| 0 <= k < |ops| && Ids(ops)[k] == id;
      assert ops[k].id == id && OpOk(rows, ops[k]);
      assert Find(Replay(index, ops), id) == Effect(Find(index, id), ops[k]);
      assert Lookup(RecordAll(register, ops), id) == Some(CellAfter(Lookup(register, id), ops[k]));
    }
  }

  lemma BulkKeeps(s: State, w: nat, unwritten: set<Uuid>, confirmed: set<Uuid>)
    requires Inv(s) && Guard(s, WorkerBulk(w, unwritten, confirmed))
    ensures Inv(Next(s, WorkerBulk(w, unwritten, confirmed)))
  {
    var s' := Next(s, WorkerBulk(w, unwritten, confirmed));
    var written := Select(s.workers[w].ops, unwritten, false);
    WrittenIsWellFormed(s, w, unwritten);
    forall id: Uuid
      ensures id in s'.index ==> id in s.rows && s'.index[id] == FirstWrite(s.rows[id])
      ensures id in s'.register ==> CellOk(s.rows, id, s'.register[id])
      ensures id in s.rows && !s.rows[id].status.Deleted? && (id in s.index || id in IndexIds(written)) ==>
                id in s'.index
      ensures id in s'.register && s'.register[id].Live? ==> id in s'.index
    {
      WrittenPointwise(s.rows, s.index, s.register, written, id);
    }
    BulkKeepsWorkers(s, s', w, confirmed * IndexIds(written), written);
  }

  lemma WrittenIsWellFormed(s: State, w: nat, unwritten: set<Uuid>)
    requires WorkersOk(s) && w in s.workers && s.workers[w].HasRead?
    ensures NoDuplicates(Ids(Select(s.workers[w].ops, unwritten, false)))
    ensures forall k :: 0 <= k < |Select(s.workers[w].ops, unwritten, false)| ==>
              OpOk(s.rows, Select(s.workers[w].ops, unwritten, false)[k])
  {
    var ops := s.workers[w].ops;
    assert WorkerOk(s.rows, s.index, s.workers[w]);
    SelectMembers(ops, unwritten, false);
    var written := Select(ops, unwritten, false);
    forall k | 0 <= k < |written|
      ensures OpOk(s.rows, written[k])
    {
      assert written[k] in ops;
    }
  }

  lemma BulkKeepsWorkers(s: State, s': State, w: nat, marks: set<Uuid>, written: seq<Operation>)
    requires WorkersOk(s) && s'.rows == s.rows && s'.workers == s.workers[w := HasWritten(marks)]
    requires marks <= IndexIds(written) && forall k :: 0 <= k < |written| ==> OpOk(s.rows, written[k])
    requires forall id :: id in s.rows && !s.rows[id].status.Deleted? && (id in s.index || id in IndexIds(written)) ==>
               id in s'.index
    ensures WorkersOk(s')
  {
    forall v | v in s'.workers
      ensures WorkerOk(s'.rows, s'.index, s'.workers[v])
    {
      if v == w {
        forall id | id in marks
          ensures id in s.rows && (s.rows[id].status.Deleted? || id in s'.index)
        {
          assert id in IndexIds(written);
          var op :| op in written && op.IndexOp? && op.id == id;
          assert OpOk(s.rows, op);
        }
      } else {
        assert WorkerOk(s.rows, s.index, s.workers[v]);
      }
    }
  }

  // ---------------------------------------------------------------- every run

  lemma StepKeeps(s: State, step: Step)
    requires Inv(s) && Guard(s, step)
    ensures Inv(Next(s, step))
    ensures Later(s.rows, Next(s, step).rows)
  {
    match step
    case Create(id, tenant, source, now) => CreateKeeps(s, id, tenant, source, now);
    case DeleteRead(call, tenant, id) =>
    case DeleteCommit(call, now) => DeleteKeeps(s, call, now);
    case WorkerRead(w, ids) => ReadKeeps(s, w, ids);
    case WorkerBulk(w, unwritten, confirmed) => BulkKeeps(s, w, unwritten, confirmed);
    case WorkerMark(w, now) => MarkKeeps(s, w, now);
    case WorkerCrash(w) =>
  }

  lemma LaterTransitive(a: Rows, b: Rows, c: Rows)
    requires Later(a, b) && Later(b, c)
    ensures Later(a, c)
  {
    forall id | id in a
      ensures id in c && c[id].tenant == a[id].tenant && c[id].source == a[id].source
              && a[id].version <= c[id].version && (a[id].status.Deleted? ==> c[id].status.Deleted?)
    {
      assert id in b;
    }
  }

  /** In every interleaving: the invariant holds, and a deleted row stays deleted. */
  lemma {:induction false} EveryRunKeeps(s: State, steps: seq<Step>)
    requires Inv(s) && Legal(s, steps)
    ensures Inv(Exec(s, steps))
    ensures Later(s.rows, Exec(s, steps).rows)
    decreases |steps|
  {
    if steps != [] {
      StepKeeps(s, steps[0]);
      EveryRunKeeps(Next(s, steps[0]), steps[1..]);
      LaterTransitive(s.rows, Next(s, steps[0]).rows, Exec(s, steps).rows);
    }
  }

  /** The invariant of reachable states, spelled out for a document. */
  lemma ReachableStates(steps: seq<Step>, id: Uuid)
    requires Legal(INITIAL, steps)
    ensures var s := Exec(INITIAL, steps);
            && (id in s.rows ==>
                  s.rows[id].version == (if s.rows[id].status.Deleted? then 2 else 1) && !s.rows[id].status.Failed?)
            && (id in s.index ==>
                  && id in s.rows && s.index[id].tenant == s.rows[id].tenant
                  && s.index[id].source == s.rows[id].source && s.index[id].version <= s.rows[id].version)
            && (id in s.rows && s.rows[id].status.Indexed? ==>
                  id in s.index && s.index[id].version == s.rows[id].version)
  {
    EveryRunKeeps(INITIAL, steps);
  }

  // ---------------------------------------------------------------- an acknowledged document

  /** No sweep will pick the row up again. */
  predicate Acknowledged(s: State, id: Uuid) {
    id in s.rows && (s.rows[id].status.Indexed? || s.rows[id].status.Deleted?)
  }

  /** The mark of a worker acknowledges what it confirmed, and nothing takes that back. */
  lemma StepAcknowledges(s: State, step: Step, id: Uuid)
    requires Inv(s) && Guard(s, step)
    requires Acknowledged(s, id) || (step.WorkerMark? && id in s.workers[step.worker].confirmed)
    ensures Acknowledged(Next(s, step), id)
  {
    if step.WorkerMark? {
      assert WorkerOk(s.rows, s.index, s.workers[step.worker]);
    }
  }

  /** In every interleaving an acknowledged document stays acknowledged, and in the index until deleted. */
  lemma {:induction false} AcknowledgedForGood(s: State, steps: seq<Step>, id: Uuid)
    requires Inv(s) && Legal(s, steps) && Acknowledged(s, id)
    ensures var s' := Exec(s, steps);
            Acknowledged(s', id) && (!s'.rows[id].status.Deleted? ==> id in s'.index)
    decreases |steps|
  {
    if steps != [] {
      StepAcknowledges(s, steps[0], id);
      StepKeeps(s, steps[0]);
      AcknowledgedForGood(Next(s, steps[0]), steps[1..], id);
    }
  }

  // ---------------------------------------------------------------- a removed document

  predicate Tombstoned(s: State, id: Uuid) {
    id in s.register && s.register[id].Tombstone?
  }

  lemma StepKeepsTombstone(s: State, step: Step, id: Uuid)
    requires Inv(s) && Guard(s, step) && Tombstoned(s, id)
    ensures Tombstoned(Next(s, step), id)
  {
    if step.WorkerBulk? {
      WrittenIsWellFormed(s, step.worker, step.unwritten);
      WrittenPointwise(s.rows, s.index, s.register, Select(s.workers[step.worker].ops, step.unwritten, false), id);
    }
  }

  /** An index that remembers removed versions never shows a removed document again, whatever the
      interleaving of workers and whatever is replayed. */
  lemma {:induction false} RegisterNeverResurrects(s: State, steps: seq<Step>, id: Uuid)
    requires Inv(s) && Legal(s, steps) && Tombstoned(s, id)
    ensures Tombstoned(Exec(s, steps), id)
    decreases |steps|
  {
    if steps != [] {
      StepKeepsTombstone(s, steps[0], id);
      StepKeeps(s, steps[0]);
      RegisterNeverResurrects(Next(s, steps[0]), steps[1..], id);
    }
  }

  // ---------------------------------------------------------------- writes that are still current

  /** Every write about to be sent is still what its row asks for. */
  ghost predicate CurrentOps(rows: Rows, ops: seq<Operation>) {
    forall k :: 0 <= k < |ops| ==> ops[k].id in rows && ops[k] == OperationFor(ops[k].id, rows[ops[k].id])
  }

  ghost predicate CurrentStep(s: State, step: Step)
    requires Guard(s, step)
  {
    step.WorkerBulk? ==> CurrentOps(s.rows, s.workers[step.worker].ops)
  }

  /** Every past write is older than what its row asks for now, or is exactly that. */
  ghost predicate HistoryOk(rows: Rows, history: seq<Operation>) {
    forall k :: 0 <= k < |history| ==>
      && history[k].id in rows
      && history[k].version <= rows[history[k].id].version
      && (history[k].version == rows[history[k].id].version ==>
            history[k] == OperationFor(history[k].id, rows[history[k].id]))
  }

  /** The index is the replay of a version-monotone history. */
  ghost predicate Synced(s: State) {
    && Monotone(s.history) && HistoryOk(s.rows, s.history)
    && s.index == Replay(map[], s.history) && s.register == RecordAll(map[], s.history)
  }

  lemma SyncedAgrees(s: State)
    requires Synced(s)
    ensures Agree(s.index, s.register)
  {
    MonotoneHistoriesAreNeverLate(s.history);
    assert s.history[..|s.history|] == s.history;
  }

  lemma RowsKeepHistory(rows: Rows, rows': Rows, history: seq<Operation>)
    requires HistoryOk(rows, history) && Later(rows, rows')
    requires forall id :: id in rows && rows'[id].version == rows[id].version ==>
               OperationFor(id, rows'[id]) == OperationFor(id, rows[id])
    ensures HistoryOk(rows', history)
  {}

  lemma CurrentWritesKeepMonotone(rows: Rows, history: seq<Operation>, ops: seq<Operation>)
    requires Monotone(history) && HistoryOk(rows, history) && CurrentOps(rows, ops) && NoDuplicates(Ids(ops))
    ensures Monotone(history + ops) && HistoryOk(rows, history + ops)
  {
    var all := history + ops;
    forall i, j | 0 <= i < j < |all| && all[i].id == all[j].id
      ensures all[i].version <= all[j].version && (all[i].version == all[j].version ==> all[i] == all[j])
    {
      if |history| <= j {
        assert all[j] == ops[j - |history|];
      }
    }
  }

  /** Version 1 asks for the index write and version 2 for the removal. */
  lemma SameVersionSameOperation(rows: Rows, rows': Rows, id: Uuid)
    requires RowsOk(rows) && RowsOk(rows') && Later(rows, rows') && id in rows && rows'[id].version == rows[id].version
    ensures OperationFor(id, rows'[id]) == OperationFor(id, rows[id])
  {}

  lemma CurrentStepKeepsSync(s: State, step: Step)
    requires Inv(s) && Synced(s) && Guard(s, step) && CurrentStep(s, step)
    ensures Synced(Next(s, step))
  {
    var s' := Next(s, step);
    StepKeeps(s, step);
    if step.WorkerBulk? {
      var written := Select(s.workers[step.worker].ops, step.unwritten, false);
      WrittenIsWellFormed(s, step.worker, step.unwritten);
      SelectMembers(s.workers[step.worker].ops, step.unwritten, false);
      forall k | 0 <= k < |written|
        ensures written[k].id in s.rows && written[k] == OperationFor(written[k].id, s.rows[written[k].id])
      {
        assert written[k] in s.workers[step.worker].ops;
      }
      CurrentWritesKeepMonotone(s.rows, s.history, written);
      ReplayConcat(map[], s.history, written);
      RecordConcat(map[], s.history, written);
    } else {
      forall id | id in s.rows && s'.rows[id].version == s.rows[id].version
        ensures OperationFor(id, s'.rows[id]) == OperationFor(id, s.rows[id])
      {
        SameVersionSameOperation(s.rows, s'.rows, id);
      }
      RowsKeepHistory(s.rows, s'.rows, s.history);
    }
  }

  // ---------------------------------------------------------------- process as one step

  /** An API step, or a whole batch with nothing in between. */
  datatype Macro =
    | Api(step: Step)
    | Batch(worker: nat, ids: seq<Uuid>, unwritten: set<Uuid>, confirmed: set<Uuid>, now: int)

  function Expand(m: Macro): seq<Step> {
    match m
    case Api(step) => [step]
    case Batch(w, ids, unwritten, confirmed, now) =>
      [WorkerRead(w, ids), WorkerBulk(w, unwritten, confirmed), WorkerMark(w, now)]
  }

  predicate MacroGuard(s: State, m: Macro) {
    && (m.Api? ==> m.step.Create? || m.step.DeleteRead? || m.step.DeleteCommit?)
    && Legal(s, Expand(m))
  }

  predicate Uninterrupted(s: State, run: seq<Macro>)
    decreases |run|
  {
    run == [] || (MacroGuard(s, run[0]) && Uninterrupted(Exec(s, Expand(run[0])), run[1..]))
  }

  function ExecMacros(s: State, run: seq<Macro>): State
    requires Uninterrupted(s, run)
    decreases |run|
  {
    if run == [] then s else ExecMacros(Exec(s, Expand(run[0])), run[1..])
  }

  lemma BatchUnfolds(s: State, m: Macro)
    requires m.Batch? && Legal(s, Expand(m))
    ensures var a, b := WorkerRead(m.worker, m.ids), WorkerBulk(m.worker, m.unwritten, m.confirmed);
            var c := WorkerMark(m.worker, m.now);
            && Guard(s, a) && Guard(Next(s, a), b) && Guard(Next(Next(s, a), b), c)
            && Exec(s, Expand(m)) == Next(Next(Next(s, a), b), c)
  {
    var a, b := WorkerRead(m.worker, m.ids), WorkerBulk(m.worker, m.unwritten, m.confirmed);
    var c := WorkerMark(m.worker, m.now);
    assert Expand(m)[1..] == [b, c] && [b, c][1..] == [c] && [c][1..] == [];
    assert Legal(Next(s, a), [b, c]);
    assert Legal(Next(Next(s, a), b), [c]);
    assert Exec(s, Expand(m)) == Exec(Next(s, a), [b, c]) == Exec(Next(Next(s, a), b), [c]);
    assert Exec(Next(Next(Next(s, a), b), c), []) == Next(Next(Next(s, a), b), c);
  }

  lemma MacroKeeps(s: State, m: Macro)
    requires Inv(s) && Synced(s) && MacroGuard(s, m)
    ensures Inv(Exec(s, Expand(m))) && Synced(Exec(s, Expand(m)))
    ensures forall id :: Tombstoned(s, id) ==> Tombstoned(Exec(s, Expand(m)), id)
  {
    EveryRunKeeps(s, Expand(m));
    forall id | Tombstoned(s, id)
      ensures Tombstoned(Exec(s, Expand(m)), id)
    {
      RegisterNeverResurrects(s, Expand(m), id);
    }
    match m
    case Api(step) =>
      assert Expand(m)[1..] == [];
      CurrentStepKeepsSync(s, step);
    case Batch(_, _, _, _, _) => BatchKeepsSync(s, m);
  }

  lemma BatchKeepsSync(s: State, m: Macro)
    requires Inv(s) && Synced(s) && m.Batch? && Legal(s, Expand(m))
    ensures Synced(Exec(s, Expand(m)))
  {
    BatchUnfolds(s, m);
    var Batch(w, ids, unwritten, confirmed, now) := m;
    var s1 := Next(s, WorkerRead(w, ids));
    var s2 := Next(s1, WorkerBulk(w, unwritten, confirmed));
    StepKeeps(s, WorkerRead(w, ids));
    CurrentStepKeepsSync(s, WorkerRead(w, ids));
    assert CurrentOps(s1.rows, s1.workers[w].ops);
    StepKeeps(s1, WorkerBulk(w, unwritten, confirmed));
    CurrentStepKeepsSync(s1, WorkerBulk(w, unwritten, confirmed));
    CurrentStepKeepsSync(s2, WorkerMark(w, now));
  }

  /** With each batch run as one step, the writes form a version-monotone history, the index shows
      the same documents as the register, and no event, late or replayed, brings a removed
      document back. */
  lemma {:induction false} OneStepBatchesNeverResurrect(s: State, run: seq<Macro>)
    requires Inv(s) && Synced(s) && Uninterrupted(s, run)
    ensures var s' := ExecMacros(s, run);
            && Inv(s') && Synced(s') && Monotone(s'.history) && Agree(s'.index, s'.register)
            && forall id :: Tombstoned(s, id) ==> id !in s'.index
    decreases |run|
  {
    if run == [] {
      SyncedAgrees(s);
      forall id | Tombstoned(s, id)
        ensures id !in s.index
      {
        assert Find(s.index, id) == None;
      }
    } else {
      MacroKeeps(s, run[0]);
      OneStepBatchesNeverResurrect(Exec(s, Expand(run[0])), run[1..]);
    }
  }

  function Canonicals(ids: seq<Uuid>): (ds: seq<DocumentId>)
    ensures forall u: Uuid :: u in ids <==> Canonical(u) in ds
    ensures forall d :: d in ds ==> d.Canonical?
  {
    var ds := seq(|ids|, k requires 0 <= k < |ids| => Canonical(ids[k]));
    assert forall k :: 0 <= k < |ids| ==> ds[k] == Canonical(ids[k]);
    ds
  }

  lemma ReadIsPlan(rows: Rows, ids: seq<Uuid>)
    requires NoDuplicates(ids) && forall k :: 0 <= k < |ids| ==> ids[k] in rows
    ensures PlansOperations(rows, Canonicals(ids), ReadOps(rows, ids))
    ensures KnownIds(rows, Canonicals(ids)) == Elements(ids)
  {
    assert Ids(ReadOps(rows, ids)) == ids;
    assert forall u: Uuid :: u in KnownIds(rows, Canonicals(ids)) <==> Canonical(u) in Canonicals(ids) && u in rows;
  }

  lemma ConfirmedPendingIsMarked(rows: Rows, ids: seq<Uuid>, unwritten: set<Uuid>, now: int)
    requires forall k :: 0 <= k < |ids| ==> ids[k] in rows
    ensures var confirmed := Elements(ids) - unwritten;
            Marked(rows, confirmed * IndexIds(Select(ReadOps(rows, ids), unwritten, false)), now)
              == Marked(rows, confirmed, now)
  {
    var ops, confirmed := ReadOps(rows, ids), Elements(ids) - unwritten;
    var written := Select(ops, unwritten, false);
    SelectMembers(ops, unwritten, false);
    forall u: Uuid | u in rows && rows[u].status.Pending? && u in confirmed
      ensures u in IndexIds(written)
    {
      var k :| 0 <= k < |ids| && ids[k] == u;
      assert ops[k] in ops && ops[k] in written && ops[k].IndexOp?;
    }
  }

  /** The batch of the step system is the batch the processor runs. */
  lemma BatchIsProcess(s: State, m: Macro)
    requires m.Batch? && Legal(s, Expand(m)) && m.confirmed == Elements(m.ids) - m.unwritten
    ensures var s' := Exec(s, Expand(m));
            Store(s'.rows, s'.index) == Processed(Store(s.rows, s.index), m.confirmed, m.now)
  {
    BatchUnfolds(s, m);
    ReadIsPlan(s.rows, m.ids);
    BulkIsRefresh(Store(s.rows, s.index), Canonicals(m.ids), ReadOps(s.rows, m.ids), m.unwritten);
    ConfirmedPendingIsMarked(s.rows, m.ids, m.unwritten, m.now);
  }

  // ---------------------------------------------------------------- batches that overlap

  const READS_THEN_DELETE: seq<Step> := [
    Create(7, "acme", Source("title", "content"), 0),
    WorkerRead(0, [7]),
    DeleteRead(0, "acme", 7),
    DeleteCommit(0, 1),
    WorkerRead(1, [7])
  ]

  function WritesOutOfOrder(id: Uuid): seq<Step> {
    [WorkerBulk(1, {}, {id}), WorkerMark(1, 2), WorkerBulk(0, {}, {id}), WorkerMark(0, 3)]
  }

  /** Both workers have read the document, one before and one after its deletion. */
  const BOTH_HAVE_READ := State(
    map[7 := Row("acme", 2, Deleted, Source("title", "content"), 1)], map[], map[], [],
    map[0 := HasRead([IndexOp(7, "acme", 1, Source("title", "content"))]), 1 := HasRead([DeleteOp(7, "acme", 2)])],
    map[])

  lemma ReadsOverlapADelete()
    ensures Legal(INITIAL, READS_THEN_DELETE) && Exec(INITIAL, READS_THEN_DELETE) == BOTH_HAVE_READ
  {
    var source := Source("title", "content");
    var s1 := Next(INITIAL, READS_THEN_DELETE[0]);
    var s2 := Next(s1, READS_THEN_DELETE[1]);
    assert s2.workers[0].ops == [IndexOp(7, "acme", 1, source)];
    var s3 := Next(s2, READS_THEN_DELETE[2]);
    var s4 := Next(s3, READS_THEN_DELETE[3]);
    var s5 := Next(s4, READS_THEN_DELETE[4]);
    assert s5.workers[1].ops == [DeleteOp(7, "acme", 2)];
    assert s5 == BOTH_HAVE_READ;
    RunTail(s4, READS_THEN_DELETE, 4);
    RunTail(s3, READS_THEN_DELETE, 3);
    RunTail(s2, READS_THEN_DELETE, 2);
    RunTail(s1, READS_THEN_DELETE, 1);
    RunTail(INITIAL, READS_THEN_DELETE, 0);
    assert READS_THEN_DELETE[0..] == READS_THEN_DELETE;
  }

  lemma BulkOfOne(s: State, w: nat, op: Operation)
    requires w in s.workers && s.workers[w] == HasRead([op])
    ensures Guard(s, WorkerBulk(w, {}, {op.id}))
    ensures Next(s, WorkerBulk(w, {}, {op.id}))
         == s.(index := Apply(s.index, op), register := Record(s.register, op), history := s.history + [op],
               workers := s.workers[w := HasWritten({op.id} * IndexIds([op]))])
  {
    OneWrite(s.index, s.register, op);
    assert Ids([op]) == [op.id];
    assert Elements([op.id]) == {op.id};
    assert s.workers[w].ops == [op];
  }

  /** A worker reads one document, writes it and has it confirmed. */
  lemma WorkerConfirmsOne(s: State, w: nat, id: Uuid)
    requires id in s.rows && w !in s.workers
    ensures Guard(s, WorkerRead(w, [id])) && Guard(Next(s, WorkerRead(w, [id])), WorkerBulk(w, {}, {id}))
    ensures var s' := Next(Next(s, WorkerRead(w, [id])), WorkerBulk(w, {}, {id}));
            && s'.rows == s.rows && w in s'.workers && s'.workers[w].HasWritten?
            && (!s.rows[id].status.Deleted? ==> id in s'.workers[w].confirmed)
  {
    var op, s1 := OperationFor(id, s.rows[id]), Next(s, WorkerRead(w, [id]));
    assert s1.workers[w] == HasRead([op]);
    BulkOfOne(s1, w, op);
    assert op in [op];
  }

  lemma ThreeSteps(s: State, steps: seq<Step>)
    requires |steps| == 3 && Guard(s, steps[0])
    requires Guard(Next(s, steps[0]), steps[1]) && Guard(Next(Next(s, steps[0]), steps[1]), steps[2])
    ensures Legal(s, steps) && Exec(s, steps) == Next(Next(Next(s, steps[0]), steps[1]), steps[2])
  {
    var s1 := Next(s, steps[0]);
    RunTail(Next(s1, steps[1]), steps, 2);
    RunTail(s1, steps, 1);
    RunTail(s, steps, 0);
    assert steps[0..] == steps;
  }

  lemma OneBatchAcknowledges(s: State, w: nat, now: int, id: Uuid)
    requires Inv(s) && id in s.rows && w !in s.workers
    ensures Legal(s, Expand(Batch(w, [id], {}, {id}, now)))
    ensures Acknowledged(Exec(s, Expand(Batch(w, [id], {}, {id}, now))), id)
  {
    var steps := Expand(Batch(w, [id], {}, {id}, now));
    WorkerConfirmsOne(s, w, id);
    StepKeeps(s, steps[0]);
    StepKeeps(Next(s, steps[0]), steps[1]);
    StepAcknowledges(Next(Next(s, steps[0]), steps[1]), steps[2], id);
    ThreeSteps(s, steps);
  }

  /** From every reachable state, whatever other workers are in the middle of, a batch of one document by
      an idle worker acknowledges it for good, whatever comes after. */
  lemma EveryDocumentCanBeRecovered(steps: seq<Step>, w: nat, now: int, id: Uuid, later: seq<Step>)
    requires Legal(INITIAL, steps)
    requires id in Exec(INITIAL, steps).rows && w !in Exec(INITIAL, steps).workers
    ensures var s := Exec(INITIAL, steps);
            && Legal(s, Expand(Batch(w, [id], {}, {id}, now)))
            && var s' := Exec(s, Expand(Batch(w, [id], {}, {id}, now)));
               Legal(s', later) ==>
                 Acknowledged(Exec(s', later), id)
                 && (!Exec(s', later).rows[id].status.Deleted? ==> id in Exec(s', later).index)
  {
    var s := Exec(INITIAL, steps);
    EveryRunKeeps(INITIAL, steps);
    OneBatchAcknowledges(s, w, now, id);
    var s' := Exec(s, Expand(Batch(w, [id], {}, {id}, now)));
    EveryRunKeeps(s, Expand(Batch(w, [id], {}, {id}, now)));
    if Legal(s', later) {
      AcknowledgedForGood(s', later, id);
    }
  }

  /** A worker that crashed in the middle of a batch can start again and acknowledge any document. */
  lemma CrashedWorkersRecover(steps: seq<Step>, w: nat, now: int, id: Uuid)
    requires Legal(INITIAL, steps)
    requires id in Exec(INITIAL, steps).rows && w in Exec(INITIAL, steps).workers
    ensures var s := Exec(INITIAL, steps);
            && Guard(s, WorkerCrash(w)) && Legal(Next(s, WorkerCrash(w)), Expand(Batch(w, [id], {}, {id}, now)))
            && Acknowledged(Exec(Next(s, WorkerCrash(w)), Expand(Batch(w, [id], {}, {id}, now))), id)
  {
    var s := Exec(INITIAL, steps);
    EveryRunKeeps(INITIAL, steps);
    StepKeeps(s, WorkerCrash(w));
    OneBatchAcknowledges(Next(s, WorkerCrash(w)), w, now, id);
  }

  /** One worker's removal reaches the index, which has nothing to remove. */
  lemma RemovalLands(s: State, op: Operation)
    requires op.DeleteOp? && 1 in s.workers && s.workers[1] == HasRead([op]) && op.id !in s.index
    requires op.id !in s.register
    ensures Guard(s, WorkerBulk(1, {}, {op.id}))
    ensures var s' := Next(s, WorkerBulk(1, {}, {op.id}));
            && s'.rows == s.rows && s'.index == s.index && s'.deletes == s.deletes
            && op.id in s'.register && s'.register[op.id] == Tombstone(op.version)
            && 1 in s'.workers && s'.workers[1].HasWritten? && s'.workers == s.workers[1 := s'.workers[1]]
  {
    BulkOfOne(s, 1, op);
    assert Apply(s.index, op) == s.index;
  }

  /** The other worker's older write then finds no entry to lose against. */
  lemma OlderWriteLands(s: State, op: Operation)
    requires op.IndexOp? && 0 in s.workers && s.workers[0] == HasRead([op]) && op.id !in s.index
    requires Tombstoned(s, op.id) && op.version <= s.register[op.id].removedAt
    ensures Guard(s, WorkerBulk(0, {}, {op.id}))
    ensures var s' := Next(s, WorkerBulk(0, {}, {op.id}));
            && s'.rows == s.rows && s'.deletes == s.deletes && op.id in s'.index && Tombstoned(s', op.id)
            && 0 in s'.workers && s'.workers[0].HasWritten? && s'.workers == s.workers[0 := s'.workers[0]]
  {
    BulkOfOne(s, 0, op);
  }

  predicate RowDeleted(s: State, id: Uuid) { id in s.rows && s.rows[id].status.Deleted? }

  lemma MarkLands(s: State, w: nat, now: int, id: Uuid)
    requires w in s.workers && s.workers[w].HasWritten? && RowDeleted(s, id)
    ensures Guard(s, WorkerMark(w, now))
    ensures var s' := Next(s, WorkerMark(w, now));
            && s' == s.(rows := s'.rows, workers := s.workers - {w}) && RowDeleted(s', id)
  {}

  /** Two workers hold writes for one document, one read before its deletion and one after: the
      removal lands first, then the older write, and everything settles with the document shown. */
  lemma LateWriteLands(s: State, late: Operation, removal: Operation)
    requires late.IndexOp? && removal.DeleteOp? && late.id == removal.id && late.version <= removal.version
    requires s.workers == map[0 := HasRead([late]), 1 := HasRead([removal])] && s.deletes == map[]
    requires RowDeleted(s, late.id) && late.id !in s.index && late.id !in s.register
    ensures Legal(s, WritesOutOfOrder(late.id))
    ensures var s' := Exec(s, WritesOutOfOrder(late.id));
            && s'.workers == map[] && s'.deletes == map[]
            && RowDeleted(s', late.id) && Tombstoned(s', late.id) && late.id in s'.index
  {
    var id, steps := late.id, WritesOutOfOrder(late.id);
    RemovalLands(s, removal);
    var s1 := Next(s, steps[0]);
    MarkLands(s1, 1, 2, id);
    var s2 := Next(s1, steps[1]);
    assert s2.workers[0] == HasRead([late]);
    OlderWriteLands(s2, late);
    var s3 := Next(s2, steps[2]);
    MarkLands(s3, 0, 3, id);
    FourSteps(s, steps);
  }

  lemma FourSteps(s: State, steps: seq<Step>)
    requires |steps| == 4 && Guard(s, steps[0])
    requires Guard(Next(s, steps[0]), steps[1]) && Guard(Next(Next(s, steps[0]), steps[1]), steps[2])
    requires Guard(Next(Next(Next(s, steps[0]), steps[1]), steps[2]), steps[3])
    ensures Legal(s, steps) && Exec(s, steps) == Next(Next(Next(Next(s, steps[0]), steps[1]), steps[2]), steps[3])
  {
    var s1 := Next(s, steps[0]);
    var s2 := Next(s1, steps[1]);
    var s3 := Next(s2, steps[2]);
    RunTail(s3, steps, 3);
    RunTail(s2, steps, 2);
    RunTail(s1, steps, 1);
    RunTail(s, steps, 0);
    assert steps[0..] == steps;
  }

  /** With overlapping workers the forgetting index can show a removed document again: a slow
      worker's index write lands after another worker's removal, and everything settles. */
  lemma OverlappingBatchesCanResurrect()
    ensures Legal(INITIAL, READS_THEN_DELETE + WritesOutOfOrder(7))
    ensures var s := Exec(INITIAL, READS_THEN_DELETE + WritesOutOfOrder(7));
            && s.workers == map[] && s.deletes == map[] && RowDeleted(s, 7) && Tombstoned(s, 7) && 7 in s.index
  {
    ReadsOverlapADelete();
    LateWriteLands(BOTH_HAVE_READ, IndexOp(7, "acme", 1, Source("title", "content")), DeleteOp(7, "acme", 2));
    ExecConcat(INITIAL, READS_THEN_DELETE, WritesOutOfOrder(7));
  }

  // ---------------------------------------------------------------- a delete that misses the index

  const INDEXED: seq<Step> := [
    Create(7, "acme", Source("title", "content"), 0),
    WorkerRead(0, [7]),
    WorkerBulk(0, {}, {7}),
    WorkerMark(0, 1)
  ]

  const DELETED: seq<Step> := [DeleteRead(0, "acme", 7), DeleteCommit(0, 2)]

  const INDEXED_THEN_DELETED := INDEXED + DELETED

  lemma ADocumentIsIndexed()
    ensures Legal(INITIAL, INDEXED)
    ensures var s := Exec(INITIAL, INDEXED);
            && s.rows == map[7 := Row("acme", 1, Indexed, Source("title", "content"), 1)] && 7 in s.index
            && s.workers == map[] && s.deletes == map[]
  {
    var op := IndexOp(7, "acme", 1, Source("title", "content"));
    var s1 := Next(INITIAL, INDEXED[0]);
    var s2 := Next(s1, INDEXED[1]);
    assert s2.workers[0] == HasRead([op]);
    BulkOfOne(s2, 0, op);
    var s3 := Next(s2, INDEXED[2]);
    assert op in [op];
    assert 7 in IndexIds([op]);
    assert s3.workers[0] == HasWritten({7});
    FourSteps(INITIAL, INDEXED);
  }

  /** The worker indexes the document, the API deletes it, and no worker hears of the delete. */
  lemma ADeleteMissesTheIndex()
    ensures Legal(INITIAL, INDEXED_THEN_DELETED)
    ensures var s := Exec(INITIAL, INDEXED_THEN_DELETED);
            && s.rows.Keys == {7} && RowDeleted(s, 7) && 7 in s.index && s.workers == map[] && s.deletes == map[]
  {
    ADocumentIsIndexed();
    var s := Exec(INITIAL, INDEXED);
    var s1 := Next(s, DELETED[0]);
    RunTail(s1, DELETED, 1);
    RunTail(s, DELETED, 0);
    assert DELETED[0..] == DELETED;
    ExecConcat(INITIAL, INDEXED, DELETED);
  }

  // ---------------------------------------------------------------- late writes

  /** What a step writes to the index. */
  function Written(s: State, step: Step): seq<Operation>
    requires Guard(s, step)
  {
    if step.WorkerBulk? then Select(s.workers[step.worker].ops, step.unwritten, false) else []
  }

  /** A worker sends an index write for a document whose removal has already been written. */
  ghost predicate LateWrite(s: State, step: Step)
    requires Guard(s, step)
  {
    exists op :: op in Written(s, step) && op.IndexOp? && Tombstoned(s, op.id)
  }

  ghost predicate NoLateWrites(s: State, steps: seq<Step>)
    requires Legal(s, steps)
    decreases |steps|
  {
    steps == [] || (!LateWrite(s, steps[0]) && NoLateWrites(Next(s, steps[0]), steps[1..]))
  }

  /** Index and register are what the history of writes makes of them. */
  ghost predicate Replayed(s: State) {
    s.index == Replay(map[], s.history) && s.register == RecordAll(map[], s.history)
  }

  lemma StepReplays(s: State, step: Step)
    requires Replayed(s) && Guard(s, step)
    ensures Replayed(Next(s, step)) && Next(s, step).history == s.history + Written(s, step)
  {
    ReplayConcat(map[], s.history, Written(s, step));
    RecordConcat(map[], s.history, Written(s, step));
    if !step.WorkerBulk? {
      assert s.history + [] == s.history;
    }
  }

  lemma LateWriteIsLate(s: State, step: Step)
    requires Inv(s) && Replayed(s) && Guard(s, step)
    ensures NeverLate(map[], s.history + Written(s, step)) <==> NeverLate(map[], s.history) && !LateWrite(s, step)
  {
    var written := Written(s, step);
    NeverLateConcat(map[], s.history, written);
    if step.WorkerBulk? {
      WrittenIsWellFormed(s, step.worker, step.unwritten);
      NeverLateOfDistinct(s.register, written);
      LateAmongWritten(s, step);
    } else {
      assert s.history + [] == s.history;
    }
  }

  lemma LateAmongWritten(s: State, step: Step)
    requires Inv(s) && Guard(s, step) && step.WorkerBulk?
    ensures LateWrite(s, step) <==>
              exists k :: 0 <= k < |Written(s, step)| && LateIndex(s.register, Written(s, step)[k])
  {
    var written := Written(s, step);
    WrittenIsWellFormed(s, step.worker, step.unwritten);
    forall k | 0 <= k < |written|
      ensures LateIndex(s.register, written[k]) <==> written[k].IndexOp? && Tombstoned(s, written[k].id)
    {
      assert OpOk(s.rows, written[k]);
    }
    if LateWrite(s, step) {
      var op :| op in written && op.IndexOp? && Tombstoned(s, op.id);
      var k :| 0 <= k < |written| && written[k] == op;
    }
  }

  lemma {:induction false} RunIsLateExactlyByLateWrites(s: State, steps: seq<Step>)
    requires Inv(s) && Replayed(s) && Legal(s, steps)
    ensures Replayed(Exec(s, steps))
    ensures NeverLate(map[], Exec(s, steps).history) <==> NeverLate(map[], s.history) && NoLateWrites(s, steps)
    decreases |steps|
  {
    if steps != [] {
      StepKeeps(s, steps[0]);
      StepReplays(s, steps[0]);
      LateWriteIsLate(s, steps[0]);
      RunIsLateExactlyByLateWrites(Next(s, steps[0]), steps[1..]);
    }
  }

  /** With overlapping workers, the index shows what the register shows after every single write of
      the run exactly when no worker sends an index write after the document's removal was written. */
  lemma OverlapIsHarmlessExactlyWithoutLateWrites(steps: seq<Step>)
    requires Legal(INITIAL, steps)
    ensures AgreeThroughout(map[], map[], Exec(INITIAL, steps).history) <==> NoLateWrites(INITIAL, steps)
    ensures Exec(INITIAL, steps).index == Replay(map[], Exec(INITIAL, steps).history)
  {
    RunIsLateExactlyByLateWrites(INITIAL, steps);
    ForgettingIsHarmlessExactlyWhenNeverLate(map[], map[], Exec(INITIAL, steps).history);
  }

  // ---------------------------------------------------------------- one-step batches as runs

  /** The steps of a run whose batches are never interrupted. */
  function ExpandAll(run: seq<Macro>): seq<Step> {
    if run == [] then [] else Expand(run[0]) + ExpandAll(run[1..])
  }

  /** A worker that writes what the rows still ask for makes no late write. */
  lemma CurrentWritesAreNotLate(s: State, step: Step)
    requires Inv(s) && Guard(s, step) && CurrentStep(s, step)
    ensures !LateWrite(s, step)
  {
    if step.WorkerBulk? {
      SelectMembers(s.workers[step.worker].ops, step.unwritten, false);
      forall op | op in Written(s, step) && op.IndexOp?
        ensures !Tombstoned(s, op.id)
      {
        var ops := s.workers[step.worker].ops;
        var k :| 0 <= k < |ops| && ops[k] == op;
        assert op == OperationFor(op.id, s.rows[op.id]);
      }
    }
  }

  lemma NoLateWritesTail(s: State, steps: seq<Step>, k: nat)
    requires k < |steps| && Guard(s, steps[k]) && !LateWrite(s, steps[k])
    requires Legal(Next(s, steps[k]), steps[k + 1..]) && NoLateWrites(Next(s, steps[k]), steps[k + 1..])
    ensures Legal(s, steps[k..]) && NoLateWrites(s, steps[k..])
  {
    assert steps[k..][1..] == steps[k + 1..];
  }

  lemma BatchMakesNoLateWrites(s: State, m: Macro)
    requires Inv(s) && m.Batch? && Legal(s, Expand(m))
    ensures NoLateWrites(s, Expand(m))
  {
    BatchUnfolds(s, m);
    var steps := Expand(m);
    var s1 := Next(s, steps[0]);
    StepKeeps(s, steps[0]);
    assert CurrentOps(s1.rows, s1.workers[m.worker].ops);
    CurrentWritesAreNotLate(s1, steps[1]);
    NoLateWritesTail(Next(s1, steps[1]), steps, 2);
    NoLateWritesTail(s1, steps, 1);
    NoLateWritesTail(s, steps, 0);
    assert steps[0..] == steps;
  }

  lemma MacroMakesNoLateWrites(s: State, m: Macro)
    requires Inv(s) && MacroGuard(s, m)
    ensures NoLateWrites(s, Expand(m))
  {
    if m.Batch? {
      BatchMakesNoLateWrites(s, m);
    } else {
      assert Expand(m)[1..] == [];
    }
  }

  lemma {:induction false} NoLateWritesConcat(s: State, a: seq<Step>, b: seq<Step>)
    requires Legal(s, a) && Legal(Exec(s, a), b)
    ensures Legal(s, a + b)
    ensures NoLateWrites(s, a + b) <==> NoLateWrites(s, a) && NoLateWrites(Exec(s, a), b)
    decreases |a|
  {
    ExecConcat(s, a, b);
    if a == [] {
      assert a + b == b;
    } else {
      assert (a + b)[1..] == a[1..] + b;
      NoLateWritesConcat(Next(s, a[0]), a[1..], b);
    }
  }

  /** A run whose batches are never interrupted is a run of single steps without late writes. */
  lemma {:induction false} OneStepBatchesMakeNoLateWrites(s: State, run: seq<Macro>)
    requires Inv(s) && Uninterrupted(s, run)
    ensures Legal(s, ExpandAll(run)) && Exec(s, ExpandAll(run)) == ExecMacros(s, run)
    ensures NoLateWrites(s, ExpandAll(run))
    decreases |run|
  {
    if run != [] {
      var first := Expand(run[0]);
      MacroMakesNoLateWrites(s, run[0]);
      EveryRunKeeps(s, first);
      OneStepBatchesMakeNoLateWrites(Exec(s, first), run[1..]);
      ExecConcat(s, first, ExpandAll(run[1..]));
      NoLateWritesConcat(s, first, ExpandAll(run[1..]));
    }
  }

  lemma {:induction false} ExecConcat(s: State, a: seq<Step>, b: seq<Step>)
    requires Legal(s, a) && Legal(Exec(s, a), b)
    ensures Legal(s, a + b) && Exec(s, a + b) == Exec(Exec(s, a), b)
    decreases |a|
  {
    if a == [] {
      assert a + b == b;
    } else {
      assert (a + b)[1..] == a[1..] + b;
      ExecConcat(Next(s, a[0]), a[1..], b);
    }
  }

  lemma OneWrite(index: Index, register: Register, op: Operation)
    ensures Select([op], {}, false) == [op]
    ensures Replay(index, [op]) == Apply(index, op)
    ensures RecordAll(register, [op]) == Record(register, op)
  {
    var none: seq<Operation> := [];
    assert [op] == none + [op];
    SelectNext([op], 0, {});
    ReplayAppend(index, none, op);
    RecordConcat(register, none, [op]);
    assert [op][..0] == none && [op][..1] == [op];
  }

  lemma RunTail(s: State, steps: seq<Step>, k: nat)
    requires k < |steps| && Guard(s, steps[k]) && Legal(Next(s, steps[k]), steps[k + 1..])
    ensures Legal(s, steps[k..]) && Exec(s, steps[k..]) == Exec(Next(s, steps[k]), steps[k + 1..])
  {
    assert steps[k..][1..] == steps[k + 1..];
  }
}
