/** Reading one document through its cache while it is being deleted. Coroutines interleave at awaits
    only, so each step is what one call does between two suspensions. Cache keys of different
    documents differ, so one document can be looked at alone. */
module DocumentCache {

  datatype Content = Absent | Live | Deleted

  /** A read: asked, past a cache miss, holding a copy of the row, answered with the document,
      answered that there is none, or cancelled. */
  datatype Read = Asked | Missed | Holding | Served | NotFound | Cancelled

  /** A delete: with the row loaded, with the deletion committed, or over. */
  datatype Removal = Loaded | Committed | Over

  /** `cached` says whether the cache holds a copy of the document. */
  datatype State = State(row: Content, cached: bool, readers: map<nat, Read>, removals: map<nat, Removal>)

  datatype Step =
    | Create
    | Ask(id: nat)
    | LookUp(id: nat, ok: bool)
    | ReadRow(id: nat)
    | Keep(id: nat, ok: bool)
    | Load(call: nat)
    | Commit(call: nat)
    | Invalidate(call: nat, ok: bool)
    | Expire
    | Cancel(id: nat)

  const INITIAL := State(Absent, false, map[], map[])

  predicate Guard(s: State, step: Step) {
    match step
    case Create => s.row.Absent?
    case Ask(id) => id !in s.readers
    case LookUp(id, _) => id in s.readers && s.readers[id].Asked?
    case ReadRow(id) => id in s.readers && s.readers[id].Missed?
    case Keep(id, _) => id in s.readers && s.readers[id].Holding?
    case Load(call) => call !in s.removals && s.row.Live?
    case Commit(call) => call in s.removals && s.removals[call].Loaded?
    case Invalidate(call, _) => call in s.removals && s.removals[call].Committed?
    case Expire => true
    case Cancel(id) => id in s.readers && (s.readers[id].Asked? || s.readers[id].Missed? || s.readers[id].Holding?)
  }

  /** A failed cache operation (`ok` is false) reads as a miss, stores nothing or removes nothing. */
  function Next(s: State, step: Step): State
    requires Guard(s, step)
  {
    match step
    case Create => s.(row := Live)
    case Ask(id) => s.(readers := s.readers[id := Asked])
    case LookUp(id, ok) => s.(readers := s.readers[id := if ok && s.cached then Served else Missed])
    case ReadRow(id) => s.(readers := s.readers[id := if s.row.Live? then Holding else NotFound])
    case Keep(id, ok) => s.(readers := s.readers[id := Served], cached := s.cached || ok)
    case Load(call) => s.(removals := s.removals[call := Loaded])
    case Commit(call) => s.(removals := s.removals[call := Committed], row := Deleted)
    case Invalidate(call, ok) => s.(removals := s.removals[call := Over], cached := s.cached && !ok)
    case Expire => s.(cached := false)
    case Cancel(id) => s.(readers := s.readers[id := Cancelled])
  }

  predicate Legal(s: State, steps: seq<Step>)
    decreases |steps|
  {
    steps == [] || (Guard(s, steps[0]) && Legal(Next(s, steps[0]), steps[1..]))
  }

  function Exec(s: State, steps: seq<Step>): State
    requires Legal(s, steps)
    decreases |steps|
  {
    if steps == [] then s else Exec(Next(s, steps[0]), steps[1..])
  }

  // ---------------------------------------------------------------- every run

  ghost predicate Inv(s: State) {
    && (s.row.Absent? ==> !CopyAround(s) && s.removals == map[])
    && (forall call :: call in s.removals && !s.removals[call].Loaded? ==> s.row.Deleted?)
  }

  /** A copy of the document is in the cache, or with a read that is about to put it there. */
  ghost predicate CopyAround(s: State) {
    s.cached || exists id :: id in s.readers && s.readers[id].Holding?
  }

  lemma StepKeeps(s: State, step: Step)
    requires Inv(s) && Guard(s, step)
    ensures Inv(Next(s, step)) && (s.row.Deleted? ==> Next(s, step).row.Deleted?)
  {
    assert CopyAround(Next(s, step)) ==> s.row.Live? || CopyAround(s);
  }

  lemma {:induction false} EveryRunKeeps(s: State, steps: seq<Step>)
    requires Inv(s) && Legal(s, steps)
    ensures Inv(Exec(s, steps)) && (s.row.Deleted? ==> Exec(s, steps).row.Deleted?)
    decreases |steps|
  {
    if steps != [] {
      StepKeeps(s, steps[0]);
      EveryRunKeeps(Next(s, steps[0]), steps[1..]);
    }
  }

  // ---------------------------------------------------------------- a deleted document

  predicate WasServed(s: State, id: nat) { id in s.readers && s.readers[id].Served? }

  lemma StepBringsNoCopy(s: State, step: Step, id: nat)
    requires Guard(s, step) && s.row.Deleted? && !CopyAround(s) && !WasServed(s, id)
    ensures Next(s, step).row.Deleted? && !CopyAround(Next(s, step)) && !WasServed(Next(s, step), id)
  {
    var s' := Next(s, step);
    forall i | i in s'.readers
      ensures !s'.readers[i].Holding?
    {
      assert i in s.readers ==> !s.readers[i].Holding?;
    }
  }

  lemma {:induction false} NoCopyComesBack(s: State, steps: seq<Step>, id: nat)
    requires Legal(s, steps) && s.row.Deleted? && !CopyAround(s) && !WasServed(s, id)
    ensures !WasServed(Exec(s, steps), id)
    decreases |steps|
  {
    if steps != [] {
      StepBringsNoCopy(s, steps[0], id);
      NoCopyComesBack(Next(s, steps[0]), steps[1..], id);
    }
  }

  ghost predicate CanBeServed(s: State, id: nat) {
    exists steps :: Legal(s, steps) && WasServed(Exec(s, steps), id)
  }

  lemma ServedAfter(s: State, step: Step, id: nat)
    requires Guard(s, step) && CanBeServed(Next(s, step), id)
    ensures CanBeServed(s, id)
  {
    var rest :| Legal(Next(s, step), rest) && WasServed(Exec(Next(s, step), rest), id);
    var steps := [step] + rest;
    assert steps[1..] == rest;
    assert Legal(s, steps);
  }

  lemma ServedFromTheCache(s: State, id: nat)
    requires id !in s.readers && s.cached
    ensures CanBeServed(s, id)
  {
    var s1 := Next(s, Ask(id));
    var s2 := Next(s1, LookUp(id, true));
    assert Legal(s2, []) && Exec(s2, []) == s2 && WasServed(s2, id);
    ServedAfter(s1, LookUp(id, true), id);
    ServedAfter(s, Ask(id), id);
  }

  /** A deleted document can be served to a read that has yet to start exactly when a copy is around. */
  lemma ServedExactlyWhenACopyIsAround(s: State, id: nat)
    requires s.row.Deleted? && id !in s.readers
    ensures CanBeServed(s, id) <==> CopyAround(s)
  {
    if !CopyAround(s) {
      forall steps | Legal(s, steps)
        ensures !WasServed(Exec(s, steps), id)
      {
        NoCopyComesBack(s, steps, id);
      }
    } else if s.cached {
      ServedFromTheCache(s, id);
    } else {
      var holder :| holder in s.readers && s.readers[holder].Holding?;
      ServedFromTheCache(Next(s, Keep(holder, true)), id);
      ServedAfter(s, Keep(holder, true), id);
    }
  }

  /** In every interleaving: a document whose delete has just returned can be served to a read that
      starts later exactly when the delete could not remove a cached copy, or when another read holds
      a copy that it took before the delete was committed. */
  lemma DeletedIsServedExactly(steps: seq<Step>, call: nat, ok: bool, id: nat)
    requires Legal(INITIAL, steps) && Guard(Exec(INITIAL, steps), Invalidate(call, ok))
    requires id !in Exec(INITIAL, steps).readers
    ensures var s := Exec(INITIAL, steps);
            CanBeServed(Next(s, Invalidate(call, ok)), id) <==>
              (s.cached && !ok) || exists holder :: holder in s.readers && s.readers[holder].Holding?
  {
    EveryRunKeeps(INITIAL, steps);
    ServedExactlyWhenACopyIsAround(Next(Exec(INITIAL, steps), Invalidate(call, ok)), id);
  }

  /** A deleted document that only the cache still holds is gone for new reads once its copy expires. */
  lemma ExpiryEndsIt(s: State, id: nat)
    requires s.row.Deleted? && id !in s.readers && s.cached
    requires forall i :: i in s.readers ==> !s.readers[i].Holding?
    ensures CanBeServed(s, id) && !CanBeServed(Next(s, Expire), id)
  {
    ServedExactlyWhenACopyIsAround(s, id);
    ServedExactlyWhenACopyIsAround(Next(s, Expire), id);
  }

  // ---------------------------------------------------------------- two runs that serve it

  const TAKE: seq<Step> := [Create, Ask(0), LookUp(0, true), ReadRow(0)]

  const KEEP: seq<Step> := [Keep(0, true)]

  const DELETE: seq<Step> := [Load(0), Commit(0)]

  lemma RunTail(s: State, steps: seq<Step>, k: nat)
    requires k < |steps| && Guard(s, steps[k]) && Legal(Next(s, steps[k]), steps[k + 1..])
    ensures Legal(s, steps[k..]) && Exec(s, steps[k..]) == Exec(Next(s, steps[k]), steps[k + 1..])
  {
    assert steps[k..][1..] == steps[k + 1..];
  }

  lemma {:induction false} ExecConcat(s: State, a: seq<Step>, b: seq<Step>)
    requires Legal(s, a) && Legal(Exec(s, a), b)
    ensures Legal(s, a + b) && Exec(s, a + b) == Exec(Exec(s, a), b)
    decreases |a|
  {
    if a == [] {
      assert a + b == b;
    } else {
      assert (a + b)[1..] == a[1..] + b;
      ExecConcat(Next(s, a[0]), a[1..], b);
    }
  }

  lemma ACopyIsTaken()
    ensures Legal(INITIAL, TAKE) && Exec(INITIAL, TAKE) == State(Live, false, map[0 := Holding], map[])
  {
    var s1 := Next(INITIAL, TAKE[0]);
    var s2 := Next(s1, TAKE[1]);
    var s3 := Next(s2, TAKE[2]);
    assert Next(s3, TAKE[3]).readers == map[0 := Holding];
    RunTail(s3, TAKE, 3);
    RunTail(s2, TAKE, 2);
    RunTail(s1, TAKE, 1);
    RunTail(INITIAL, TAKE, 0);
    assert TAKE[0..] == TAKE;
  }

  lemma ADeleteCommits(s: State)
    requires s.row.Live? && s.removals == map[]
    ensures Legal(s, DELETE) && Exec(s, DELETE) == s.(row := Deleted, removals := map[0 := Committed])
  {
    RunTail(Next(s, DELETE[0]), DELETE, 1);
    RunTail(s, DELETE, 0);
    assert DELETE[0..] == DELETE;
  }

  /** A read takes its copy, the delete commits and clears the cache, the read stores its copy: later
      reads are served the deleted document although every cache operation succeeded. */
  lemma ARaceServesADeletedDocument()
    ensures Legal(INITIAL, TAKE + DELETE) && Guard(Exec(INITIAL, TAKE + DELETE), Invalidate(0, true))
    ensures CanBeServed(Next(Exec(INITIAL, TAKE + DELETE), Invalidate(0, true)), 1)
  {
    ACopyIsTaken();
    var s := Exec(INITIAL, TAKE);
    ADeleteCommits(s);
    ExecConcat(INITIAL, TAKE, DELETE);
    assert s.readers[0].Holding?;
    DeletedIsServedExactly(TAKE + DELETE, 0, true, 1);
  }

  /** So they are after a delete that could not reach the cache. */
  lemma AnUnreachableCacheServesADeletedDocument()
    ensures Legal(INITIAL, TAKE + KEEP + DELETE) && Guard(Exec(INITIAL, TAKE + KEEP + DELETE), Invalidate(0, false))
    ensures CanBeServed(Next(Exec(INITIAL, TAKE + KEEP + DELETE), Invalidate(0, false)), 1)
  {
    ACopyIsTaken();
    var s := Exec(INITIAL, TAKE);
    RunTail(s, KEEP, 0);
    assert KEEP[0..] == KEEP;
    ExecConcat(INITIAL, TAKE, KEEP);
    ADeleteCommits(Next(s, KEEP[0]));
    ExecConcat(INITIAL, TAKE + KEEP, DELETE);
    DeletedIsServedExactly(TAKE + KEEP + DELETE, 0, false, 1);
  }
}
