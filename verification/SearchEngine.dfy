/** The search index behind the bulk port: versioned writes, and the register that remembers
    the version of every removed document. */
module SearchEngine {
  import opened Documents

  // ---------------------------------------------------------------- one operation

  function Find(index: Index, id: Uuid): Option<StoredDoc> {
    if id in index then Some(index[id]) else None
  }

  /** What one operation leaves in the place of the entry it finds: an operation that is not
      newer than the entry is a successful no-op. */
  function Effect(existing: Option<StoredDoc>, op: Operation): Option<StoredDoc> {
    if existing.Some? && op.version <= existing.value.version then existing
    else match op
      case IndexOp(_, tenant, version, source) => Some(StoredDoc(tenant, version, source))
      case DeleteOp(_, _, _) => None
  }

  function Put(index: Index, id: Uuid, entry: Option<StoredDoc>): Index {
    if entry.Some? then index[id := entry.value] else index - {id}
  }

  function Apply(index: Index, op: Operation): Index {
    Put(index, op.id, Effect(Find(index, op.id), op))
  }

  function Replay(index: Index, ops: seq<Operation>): Index {
    if ops == [] then index else Apply(Replay(index, ops[..|ops| - 1]), ops[|ops| - 1])
  }

  // ---------------------------------------------------------------- the bulk request

  datatype BulkResult = BulkResult(succeeded: seq<Uuid>, failed: seq<Uuid>)

  /** The operations on documents outside (`among == false`) or inside (`among == true`) a set. */
  function Select(ops: seq<Operation>, ids: set<Uuid>, among: bool): seq<Operation> {
    if ops == [] then []
    else
      var init, last := Select(ops[..|ops| - 1], ids, among), ops[|ops| - 1];
      if (last.id in ids) == among then init + [last] else init
  }

  function Ids(ops: seq<Operation>): (ids: seq<Uuid>)
    ensures |ids| == |ops|
    ensures forall k :: 0 <= k < |ops| ==> ids[k] == ops[k].id
  {
    seq(|ops|, k requires 0 <= k < |ops| => ops[k].id)
  }

  /** The index. `available` is flipped to simulate an outage; `refused` lists the documents for
      which the cluster answers with an error status (the in-memory adapter refuses none). */
  class Engine {
    var docs: Index
    var available: bool

    constructor ()
      ensures docs == map[] && available
    {
      docs, available := map[], true;
    }

    /** `None` is the raised "search engine unavailable". */
    method Bulk(operations: seq<Operation>, refused: set<Uuid>) returns (answer: Option<BulkResult>)
      modifies this`docs
      ensures available == answer.Some?
      ensures answer.None? ==> docs == old(docs)
      ensures answer.Some? ==> docs == Replay(old(docs), Select(operations, refused, false))
      ensures answer.Some? ==> answer.value.succeeded == Ids(Select(operations, refused, false))
      ensures answer.Some? ==> answer.value.failed == Ids(Select(operations, refused, true))
      ensures answer.Some? ==>
                && (forall id :: id in answer.value.succeeded <==>
                      id !in refused && exists op :: op in operations && op.id == id)
                && (forall id :: id in answer.value.failed <==>
                      id in refused && exists op :: op in operations && op.id == id)
    {
      if !available {
        return None;
      }
      var succeeded: seq<Uuid>, failed: seq<Uuid> := [], [];
      for i := 0 to |operations|
        invariant docs == Replay(old(docs), Select(operations[..i], refused, false))
        invariant succeeded == Ids(Select(operations[..i], refused, false))
        invariant failed == Ids(Select(operations[..i], refused, true))
      {
        SelectNext(operations, i, refused);
        if operations[i].id in refused {
          failed := failed + [operations[i].id];
        } else {
          ReplayAppend(old(docs), Select(operations[..i], refused, false), operations[i]);
          Write(operations[i]);
          succeeded := succeeded + [operations[i].id];
        }
      }
      assert operations[..|operations|] == operations;
      ListedIds(operations, refused, false);
      ListedIds(operations, refused, true);
      return Some(BulkResult(succeeded, failed));
    }

    method Write(op: Operation)
      modifies this`docs
      ensures docs == Apply(old(docs), op)
      // An operation at or below the version of the entry changes nothing; a newer one takes effect.
      ensures op.id in old(docs) && op.version <= old(docs)[op.id].version ==> docs == old(docs)
      ensures !(op.id in old(docs) && op.version <= old(docs)[op.id].version) ==>
                docs == match op {
                          case IndexOp(id, tenant, version, source) =>
                            old(docs)[id := StoredDoc(tenant, version, source)]
                          case DeleteOp(id, _, _) => old(docs) - {id}
                        }
    {
      if op.id in docs && op.version <= docs[op.id].version {
        // An older or duplicate operation is a successful no-op.
        assert docs[op.id := docs[op.id]] == docs;
        return;
      }
      match op {
        case IndexOp(id, tenant, version, source) =>
          docs := docs[id := StoredDoc(tenant, version, source)];
        case DeleteOp(id, _, _) =>
          docs := docs - {id};
      }
    }
  }

  lemma SelectNext(ops: seq<Operation>, i: nat, refused: set<Uuid>)
    requires i < |ops|
    ensures ops[i].id in refused ==>
              && Select(ops[..i + 1], refused, false) == Select(ops[..i], refused, false)
              && Select(ops[..i + 1], refused, true) == Select(ops[..i], refused, true) + [ops[i]]
    ensures ops[i].id !in refused ==>
              && Select(ops[..i + 1], refused, false) == Select(ops[..i], refused, false) + [ops[i]]
              && Select(ops[..i + 1], refused, true) == Select(ops[..i], refused, true)
  {
    assert ops[..i + 1][..i] == ops[..i];
  }

  /** Selecting keeps the operations on the documents asked for, once each if they were distinct. */
  lemma {:induction false} SelectMembers(ops: seq<Operation>, ids: set<Uuid>, among: bool)
    ensures forall op :: op in Select(ops, ids, among) <==> op in ops && (op.id in ids) == among
    ensures NoDuplicates(Ids(ops)) ==> NoDuplicates(Ids(Select(ops, ids, among)))
  {
    if ops != [] {
      var init, last := ops[..|ops| - 1], ops[|ops| - 1];
      assert ops == init + [last];
      SelectMembers(init, ids, among);
      if NoDuplicates(Ids(ops)) {
        assert Ids(init) == Ids(ops)[..|init|];
        var kept := Select(init, ids, among);
        forall k | 0 <= k < |kept|
          ensures kept[k].id != last.id
        {
          assert kept[k] in init;
          var j :| 0 <= j < |init| && init[j] == kept[k];
          assert Ids(ops)[j] == kept[k].id && Ids(ops)[|init|] == last.id;
        }
      }
    }
  }

  lemma ListedIds(ops: seq<Operation>, ids: set<Uuid>, among: bool)
    ensures forall id: Uuid :: id in Ids(Select(ops, ids, among)) <==>
              (id in ids) == among && exists op :: op in ops && op.id == id
  {
    var listed := Select(ops, ids, among);
    SelectMembers(ops, ids, among);
    forall id: Uuid
      ensures id in Ids(listed) <==> (id in ids) == among && exists op :: op in ops && op.id == id
    {
      if id in Ids(listed) {
        var k :| 0 <= k < |listed| && Ids(listed)[k] == id;
        assert listed[k] in ops;
      }
      if (id in ids) == among && exists op :: op in ops && op.id == id {
        var op :| op in ops && op.id == id;
        var k :| 0 <= k < |listed| && listed[k] == op;
        assert Ids(listed)[k] == id;
      }
    }
  }

  lemma ReplayAppend(index: Index, ops: seq<Operation>, op: Operation)
    ensures Replay(index, ops + [op]) == Apply(Replay(index, ops), op)
  {
    assert (ops + [op])[..|ops|] == ops;
  }

  /** A bulk request that names each document once acts on each document separately: the order
      of its operations does not matter. */
  lemma {:induction false} ReplayPointwise(index: Index, ops: seq<Operation>, id: Uuid)
    requires NoDuplicates(Ids(ops))
    ensures id !in Ids(ops) ==> Find(Replay(index, ops), id) == Find(index, id)
    ensures forall k :: 0 <= k < |ops| && ops[k].id == id ==>
              Find(Replay(index, ops), id) == Effect(Find(index, id), ops[k])
  {
    if ops != [] {
      var init, last := ops[..|ops| - 1], ops[|ops| - 1];
      assert Ids(init) == Ids(ops)[..|ops| - 1];
      ReplayPointwise(index, init, id);
      if last.id == id {
        assert Ids(ops)[|ops| - 1] == id;
        assert id !in Ids(init);
      }
    }
  }

  // ---------------------------------------------------------------- the tombstone register

  /** What an index that never forgets a version keeps for a document. */
  datatype Cell = Live(doc: StoredDoc) | Tombstone(removedAt: int)

  type Register = map<Uuid, Cell>

  function CellVersion(cell: Cell): int {
    match cell
    case Live(doc) => doc.version
    case Tombstone(v) => v
  }

  function Lookup(register: Register, id: Uuid): Option<Cell> {
    if id in register then Some(register[id]) else None
  }

  function CellAfter(existing: Option<Cell>, op: Operation): Cell {
    if existing.Some? && op.version <= CellVersion(existing.value) then existing.value
    else match op
      case IndexOp(_, tenant, version, source) => Live(StoredDoc(tenant, version, source))
      case DeleteOp(_, _, version) => Tombstone(version)
  }

  function Record(register: Register, op: Operation): Register {
    register[op.id := CellAfter(Lookup(register, op.id), op)]
  }

  function RecordAll(register: Register, ops: seq<Operation>): Register {
    if ops == [] then register else Record(RecordAll(register, ops[..|ops| - 1]), ops[|ops| - 1])
  }

  lemma {:induction false} RecordPointwise(register: Register, ops: seq<Operation>, id: Uuid)
    requires NoDuplicates(Ids(ops))
    ensures id !in Ids(ops) ==> Lookup(RecordAll(register, ops), id) == Lookup(register, id)
    ensures forall k :: 0 <= k < |ops| && ops[k].id == id ==>
              Lookup(RecordAll(register, ops), id) == Some(CellAfter(Lookup(register, id), ops[k]))
  {
    if ops != [] {
      var init, last := ops[..|ops| - 1], ops[|ops| - 1];
      assert Ids(init) == Ids(ops)[..|ops| - 1];
      RecordPointwise(register, init, id);
      if last.id == id {
        assert Ids(ops)[|ops| - 1] == id;
        assert id !in Ids(init);
      }
    }
  }

  lemma {:induction false} ReplayConcat(index: Index, a: seq<Operation>, b: seq<Operation>)
    ensures Replay(index, a + b) == Replay(Replay(index, a), b)
  {
    if b == [] {
      assert a + b == a;
    } else {
      assert (a + b)[..|a + b| - 1] == a + b[..|b| - 1];
      ReplayConcat(index, a, b[..|b| - 1]);
    }
  }

  lemma {:induction false} RecordConcat(register: Register, a: seq<Operation>, b: seq<Operation>)
    ensures RecordAll(register, a + b) == RecordAll(RecordAll(register, a), b)
  {
    if b == [] {
      assert a + b == a;
    } else {
      assert (a + b)[..|a + b| - 1] == a + b[..|b| - 1];
      RecordConcat(register, a, b[..|b| - 1]);
    }
  }

  /** Both show the same live documents. */
  ghost predicate Agree(index: Index, register: Register) {
    forall id: Uuid ::
      Find(index, id) == (if id in register && register[id].Live? then Some(register[id].doc) else None)
  }

  /** An index operation that arrives after a removal at its own version or a later one. */
  predicate LateIndex(register: Register, op: Operation) {
    op.IndexOp? && op.id in register && register[op.id].Tombstone? && op.version <= register[op.id].removedAt
  }

  lemma OneStepAgreement(index: Index, register: Register, op: Operation)
    requires Agree(index, register)
    ensures Agree(Apply(index, op), Record(register, op)) <==> !LateIndex(register, op)
  {
    var index', register' := Apply(index, op), Record(register, op);
    assert Find(index, op.id) == (if op.id in register && register[op.id].Live? then Some(register[op.id].doc)
                                  else None);
    forall id: Uuid | id != op.id
      ensures Find(index', id) == Find(index, id)
      ensures id in register' <==> id in register
      ensures id in register ==> register'[id] == register[id]
    {}
    if LateIndex(register, op) {
      assert Find(index', op.id).Some?;
      assert !register'[op.id].Live?;
    }
  }

  ghost predicate AgreeThroughout(index: Index, register: Register, ops: seq<Operation>) {
    forall k :: 0 <= k <= |ops| ==> Agree(Replay(index, ops[..k]), RecordAll(register, ops[..k]))
  }

  ghost predicate NeverLate(register: Register, ops: seq<Operation>) {
    forall k :: 0 <= k < |ops| ==> !LateIndex(RecordAll(register, ops[..k]), ops[k])
  }

  lemma AgreementOfExtension(index: Index, register: Register, ops: seq<Operation>, last: Operation)
    ensures AgreeThroughout(index, register, ops + [last]) <==>
            && AgreeThroughout(index, register, ops)
            && Agree(Replay(index, ops + [last]), RecordAll(register, ops + [last]))
  {
    var all := ops + [last];
    assert forall k :: 0 <= k <= |ops| ==> all[..k] == ops[..k];
    assert all[..|all|] == all;
  }

  lemma NeverLateOfExtension(register: Register, ops: seq<Operation>, last: Operation)
    ensures NeverLate(register, ops + [last]) <==>
              NeverLate(register, ops) && !LateIndex(RecordAll(register, ops), last)
  {
    var all := ops + [last];
    assert forall k :: 0 <= k <= |ops| ==> all[..k] == ops[..k];
    assert ops[..|ops|] == ops;
    assert all[|ops|] == last;
  }

  /** The index, which forgets the version of what it removes, shows what the register shows all
      along a history exactly when no index operation of that history comes too late. */
  lemma {:induction false} ForgettingIsHarmlessExactlyWhenNeverLate(index: Index, register: Register,
                                                                    ops: seq<Operation>)
    requires Agree(index, register)
    ensures AgreeThroughout(index, register, ops) <==> NeverLate(register, ops)
  {
    if ops != [] {
      var init, last := ops[..|ops| - 1], ops[|ops| - 1];
      assert ops == init + [last];
      ForgettingIsHarmlessExactlyWhenNeverLate(index, register, init);
      AgreementOfExtension(index, register, init, last);
      NeverLateOfExtension(register, init, last);
      if AgreeThroughout(index, register, init) {
        assert init[..|init|] == init;
        OneStepAgreement(Replay(index, init), RecordAll(register, init), last);
      }
    }
  }

  lemma {:induction false} NeverLateConcat(register: Register, a: seq<Operation>, b: seq<Operation>)
    ensures NeverLate(register, a + b) <==> NeverLate(register, a) && NeverLate(RecordAll(register, a), b)
  {
    if b == [] {
      assert a + b == a;
    } else {
      var init, last := b[..|b| - 1], b[|b| - 1];
      assert a + b == (a + init) + [last] && b == init + [last];
      NeverLateConcat(register, a, init);
      RecordConcat(register, a, init);
      NeverLateOfExtension(register, a + init, last);
      NeverLateOfExtension(RecordAll(register, a), init, last);
    }
  }

  /** A request that names each document once is judged against the register it finds. */
  lemma NeverLateOfDistinct(register: Register, ops: seq<Operation>)
    requires NoDuplicates(Ids(ops))
    ensures NeverLate(register, ops) <==> forall k :: 0 <= k < |ops| ==> !LateIndex(register, ops[k])
  {
    forall k | 0 <= k < |ops|
      ensures LateIndex(RecordAll(register, ops[..k]), ops[k]) <==> LateIndex(register, ops[k])
    {
      assert Ids(ops[..k]) == Ids(ops)[..k];
      assert Ids(ops)[k] == ops[k].id;
      assert ops[k].id !in Ids(ops[..k]);
      RecordPointwise(register, ops[..k], ops[k].id);
      assert Lookup(RecordAll(register, ops[..k]), ops[k].id) == Lookup(register, ops[k].id);
    }
  }

  /** Per document, versions never decrease and equal versions carry the same operation. */
  ghost predicate Monotone(ops: seq<Operation>) {
    forall i, j :: 0 <= i < j < |ops| && ops[i].id == ops[j].id ==>
      ops[i].version <= ops[j].version && (ops[i].version == ops[j].version ==> ops[i] == ops[j])
  }

  lemma {:induction false} TombstoneComesFromADelete(ops: seq<Operation>, id: Uuid)
    requires id in RecordAll(map[], ops) && RecordAll(map[], ops)[id].Tombstone?
    ensures exists i :: 0 <= i < |ops| && ops[i].DeleteOp? && ops[i].id == id
                        && ops[i].version == RecordAll(map[], ops)[id].removedAt
  {
    var init, last := ops[..|ops| - 1], ops[|ops| - 1];
    var before := RecordAll(map[], init);
    if id in before && before[id] == RecordAll(map[], ops)[id] {
      TombstoneComesFromADelete(init, id);
    } else {
      assert last.DeleteOp? && last.id == id;
    }
  }

  lemma MonotoneHistoriesAreNeverLate(ops: seq<Operation>)
    requires Monotone(ops)
    ensures NeverLate(map[], ops)
    ensures AgreeThroughout(map[], map[], ops)
  {
    forall k | 0 <= k < |ops|
      ensures !LateIndex(RecordAll(map[], ops[..k]), ops[k])
    {
      if LateIndex(RecordAll(map[], ops[..k]), ops[k]) {
        TombstoneComesFromADelete(ops[..k], ops[k].id);
      }
    }
    ForgettingIsHarmlessExactlyWhenNeverLate(map[], map[], ops);
  }
}
