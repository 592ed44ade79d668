/** The row table: the source of truth, with its guarded status transitions. */
module Repository {
  import opened Documents

  function NewRow(tenant: Tenant, source: Source, now: int): Row {
    Row(tenant, 1, Pending, source, now)
  }

  /** The version goes up with the delete, so that the removal outranks every earlier index write. */
  function SoftDeleted(row: Row, now: int): Row {
    row.(status := Deleted, version := row.version + 1, updatedAt := now)
  }

  /** Only PENDING rows move, and the update stamps them. */
  function Marked(rows: Rows, ids: set<Uuid>, now: int): Rows {
    map id | id in rows ::
      if id in ids && rows[id].status.Pending? then rows[id].(status := Indexed, updatedAt := now) else rows[id]
  }

  predicate Present(rows: Rows, tenant: Tenant, id: Uuid) {
    id in rows && rows[id].tenant == tenant && !rows[id].status.Deleted?
  }

  predicate Stale(row: Row, cutoff: int) {
    (row.status.Pending? || row.status.Failed?) && row.updatedAt < cutoff
  }

  function StaleIds(rows: Rows, cutoff: int): set<Uuid> {
    set id | id in rows && Stale(rows[id], cutoff)
  }

  /** `selection` is what the sweep's query may answer: the `limit` stalest rows, oldest first,
      rows with equal time stamps in any order. */
  ghost predicate OldestStale(rows: Rows, cutoff: int, limit: nat, selection: seq<Uuid>) {
    && NoDuplicates(selection)
    && (forall k :: 0 <= k < |selection| ==> selection[k] in StaleIds(rows, cutoff))
    && |selection| == Min(limit, |StaleIds(rows, cutoff)|)
    && (forall i, j :: 0 <= i < j < |selection| ==> rows[selection[i]].updatedAt <= rows[selection[j]].updatedAt)
    && (forall k, other :: 0 <= k < |selection| && other in StaleIds(rows, cutoff) && other !in selection ==>
          rows[selection[k]].updatedAt <= rows[other].updatedAt)
  }

  class DocumentTable {
    var rows: Rows

    constructor ()
      ensures rows == map[]
    {
      rows := map[];
    }

    /** False is the integrity error of a duplicate primary key. */
    method Create(id: Uuid, tenant: Tenant, source: Source, now: int) returns (created: bool)
      modifies this
      ensures created == (id !in old(rows))
      ensures rows == if created then old(rows)[id := NewRow(tenant, source, now)] else old(rows)
      ensures created ==> rows == old(rows)[id := Row(tenant, 1, Pending, source, now)]
    {
      created := id !in rows;
      if created {
        rows := rows[id := NewRow(tenant, source, now)];
      }
    }

    method SoftDelete(id: Uuid, now: int)
      requires id in rows
      modifies this
      ensures rows == old(rows)[id := SoftDeleted(old(rows)[id], now)]
      ensures var row := old(rows)[id];
              rows == old(rows)[id := Row(row.tenant, row.version + 1, Deleted, row.source, now)]
    {
      rows := rows[id := SoftDeleted(rows[id], now)];
    }

    method MarkIndexed(ids: seq<Uuid>, now: int)
      modifies this
      ensures rows == Marked(old(rows), Elements(ids), now)
      ensures rows.Keys == old(rows).Keys
      ensures forall id :: id in rows ==>
                var row := old(rows)[id];
                rows[id] == if id in ids && row.status == Pending
                            then Row(row.tenant, row.version, Indexed, row.source, now) else row
    {
      if |ids| == 0 {
        assert rows == Marked(rows, {}, now);
        return;
      }
      rows := Marked(rows, Elements(ids), now);
    }

    /** The selection is built by taking the oldest remaining stale row until the limit. */
    method FindStale(cutoff: int, limit: nat) returns (selection: seq<Uuid>)
      ensures OldestStale(rows, cutoff, limit, selection)
      // A row is taken only while PENDING or FAILED and older than the cutoff, and is left out only for
      // want of room.
      ensures forall id :: id in selection ==>
                id in rows && rows[id].status in {Pending, Failed} && rows[id].updatedAt < cutoff
      ensures |selection| < limit ==>
                forall id :: id in rows && rows[id].status in {Pending, Failed} && rows[id].updatedAt < cutoff ==>
                  id in selection
      // The oldest come first, and nothing older than a row that is taken is left out.
      ensures forall i, j :: 0 <= i < j < |selection| ==> rows[selection[i]].updatedAt <= rows[selection[j]].updatedAt
      ensures forall k, id :: 0 <= k < |selection| && id in rows && id !in selection
                              && rows[id].status in {Pending, Failed} && rows[id].updatedAt < cutoff ==>
                rows[selection[k]].updatedAt <= rows[id].updatedAt
    {
      var rest := StaleIds(rows, cutoff);
      selection := [];
      while |selection| < limit && rest != {}
        invariant NoDuplicates(selection)
        invariant rest <= StaleIds(rows, cutoff)
        invariant forall id :: id in StaleIds(rows, cutoff) ==> id in selection || id in rest
        invariant forall k :: 0 <= k < |selection| ==> selection[k] in StaleIds(rows, cutoff) && selection[k] !in rest
        invariant |selection| + |rest| == |StaleIds(rows, cutoff)| && |selection| <= limit
        invariant forall i, j :: 0 <= i < j < |selection| ==>
                    rows[selection[i]].updatedAt <= rows[selection[j]].updatedAt
        invariant forall k, other :: 0 <= k < |selection| && other in rest ==>
                    rows[selection[k]].updatedAt <= rows[other].updatedAt
        decreases rest
      {
        var oldest := Oldest(rest);
        rest := rest - {oldest};
        selection := selection + [oldest];
      }
    }

    method Oldest(ids: set<Uuid>) returns (oldest: Uuid)
      requires ids != {} && forall id :: id in ids ==> id in rows
      ensures oldest in ids
      ensures forall id :: id in ids ==> rows[oldest].updatedAt <= rows[id].updatedAt
    {
      oldest :| oldest in ids;
      var rest := ids - {oldest};
      while rest != {}
        invariant rest <= ids && oldest in ids
        invariant forall id :: id in ids && id !in rest ==> rows[oldest].updatedAt <= rows[id].updatedAt
        decreases rest
      {
        var candidate :| candidate in rest;
        if rows[candidate].updatedAt < rows[oldest].updatedAt {
          oldest := candidate;
        }
        rest := rest - {candidate};
      }
    }
  }
}
