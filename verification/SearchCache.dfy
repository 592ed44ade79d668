/** Searching through the generation-scoped cache with single-flight. Coroutines interleave at
    awaits only, so each step below is what one coroutine does between two suspensions, or what
    the cache, the engine or a worker does in the meantime. Cache keys are taken apart into their
    fields, which `CacheKeys` justifies. */
module SearchCache {
  import opened Documents

  /** How a request is brought into normal form. Any function will do here; the one of the program, which
      takes away case and spacing, is `CacheKeys.NormalForm`. */
  type Normalizer = Request -> Request

  /** The request is in normal form, which is what the text of a key keeps of it
      (`CacheKeys.CanonicalKeepsTheNormalForm`): requests with one normal form share a key. */
  datatype Key = Key(tenant: Tenant, generation: nat, request: Request)

  /** An answer, identified by the engine contents it was computed from. It carries the request of the
      search that led, of which `normal` is the normal form. */
  datatype Response = Response(tenant: Tenant, request: Request, normal: Request, epoch: nat)

  /** A worker batch: the epoch its bulk write created, and the generation each tenant's counter reached
      when the batch bumped it. The invalidation that the API makes on a write of its own is recorded in the
      same way, with the epoch of the moment and the one tenant it bumps. */
  datatype Batch = Batch(epoch: nat, bumps: map<Tenant, nat>)

  /** `contents` lists every state the index has been in; its positions are the epochs. `lapsed` are
      the tenants whose counter the cache has ever dropped, by expiry or eviction. */
  datatype World = World(contents: seq<Index>, counters: map<Tenant, nat>, batches: map<nat, Batch>,
                         lapsed: set<Tenant>, normalize: Normalizer)

  /** How a search got its answer: from the cache, from the engine, or from another search. */
  datatype Route = Hit | Led(future: nat) | Followed(future: nat)

  datatype Phase =
    | Started
    | HasGeneration(generation: nat)
    | LookedUp(generation: nat, found: Option<Response>)
    | Leading(generation: nat, future: nat)
    | Answered(generation: nat, future: nat, response: Response)
    | Filled(generation: nat, future: nat, response: Response)
    | Following(generation: nat, future: nat)
    | Returned(generation: nat, response: Response, route: Route)
    | Raised(route: Route)
    | Cancelled(led: Option<nat>)

  /** `normal` is the normal form of the request; `seen` is the set of batches that had bumped this tenant
      when the search started; a search is `degraded` when its own read of the counter failed. */
  datatype Search = Search(process: nat, tenant: Tenant, request: Request, normal: Request, seen: set<nat>,
                           degraded: bool, phase: Phase)

  datatype Completion = Open | Resolved(response: Response) | Broken

  datatype Future = Future(process: nat, key: Key, leader: nat, completion: Completion)

  type Inflight = map<(nat, Key), nat>
  type Futures = map<nat, Future>
  type Searches = map<nat, Search>

  datatype State = State(world: World, cache: map<Key, Response>, inflight: Inflight, futures: Futures,
                         searches: Searches)

  datatype Step =
    | Start(id: nat, process: nat, tenant: Tenant, request: Request)
    | ReadGeneration(id: nat, ok: bool)
    | LookUp(id: nat, ok: bool)
    | Resume(id: nat, token: nat)
    | Query(id: nat)
    | QueryFails(id: nat)
    | Fill(id: nat, ok: bool)
    | Finish(id: nat)
    | Wake(id: nat)
    | Cancel(id: nat)
    | Write(batch: nat, index: Index)
    | Bump(batch: nat, tenant: Tenant)
    | Invalidate(batch: nat, tenant: Tenant)
    | Forget(key: Key)
    | Lapse(tenant: Tenant)

  function Count(w: World, tenant: Tenant): nat {
    if tenant in w.counters then w.counters[tenant] else 0
  }

  function KeyOf(q: Search, generation: nat): Key {
    Key(q.tenant, generation, q.normal)
  }

  predicate Leads(phase: Phase) {
    phase.Leading? || phase.Answered? || phase.Filled?
  }

  predicate Guard(s: State, step: Step) {
    match step
    case Start(id, _, _, _) => id !in s.searches
    case ReadGeneration(id, _) => id in s.searches && s.searches[id].phase.Started?
    case LookUp(id, _) => id in s.searches && s.searches[id].phase.HasGeneration?
    case Resume(id, token) => id in s.searches && s.searches[id].phase.LookedUp? && token !in s.futures
    case Query(id) => id in s.searches && s.searches[id].phase.Leading? && s.world.contents != []
    case QueryFails(id) => id in s.searches && s.searches[id].phase.Leading? && s.searches[id].phase.future in s.futures
    case Fill(id, _) => id in s.searches && s.searches[id].phase.Answered?
    case Finish(id) => id in s.searches && s.searches[id].phase.Filled? && s.searches[id].phase.future in s.futures
    case Wake(id) => id in s.searches && s.searches[id].phase.Following? && s.searches[id].phase.future in s.futures
                     && !s.futures[s.searches[id].phase.future].completion.Open?
    case Cancel(id) => id in s.searches && !Finished(s.searches[id].phase)
    case Write(batch, _) => batch !in s.world.batches
    case Bump(batch, tenant) => batch in s.world.batches && tenant !in s.world.batches[batch].bumps
    case Invalidate(batch, _) => batch !in s.world.batches && s.world.contents != []
    case Forget(key) => key in s.cache
    case Lapse(tenant) => tenant in s.world.counters
  }

  function To(s: State, id: nat, phase: Phase): State
    requires id in s.searches
  {
    s.(searches := s.searches[id := s.searches[id].(phase := phase)])
  }

  function Complete(s: State, future: nat, completion: Completion): State
    requires future in s.futures
  {
    s.(futures := s.futures[future := s.futures[future].(completion := completion)])
  }

  function Pop(s: State, slot: (nat, Key)): State {
    s.(inflight := s.inflight - {slot})
  }

  function Bumped(w: World, tenant: Tenant): World {
    w.(counters := w.counters[tenant := Count(w, tenant) + 1])
  }

  function Next(s: State, step: Step): State
    requires Guard(s, step)
  {
    match step
    case Start(id, process, tenant, request) =>
      var seen := set b | b in s.world.batches && tenant in s.world.batches[b].bumps;
      var normal := s.world.normalize(request);
      s.(searches := s.searches[id := Search(process, tenant, request, normal, seen, false, Started)])
    case ReadGeneration(id, ok) =>
      // An unreadable counter reads as generation 0.
      var q := s.searches[id];
      var generation := if ok then Count(s.world, q.tenant) else 0;
      s.(searches := s.searches[id := q.(degraded := !ok, phase := HasGeneration(generation))])
    case LookUp(id, ok) =>
      var q := s.searches[id];
      var key := KeyOf(q, q.phase.generation);
      To(s, id, LookedUp(q.phase.generation, if ok && key in s.cache then Some(s.cache[key]) else None))
    case Resume(id, token) =>
      var q := s.searches[id];
      var key := KeyOf(q, q.phase.generation);
      if q.phase.found.Some? then To(s, id, Returned(q.phase.generation, q.phase.found.value, Hit))
      else if (q.process, key) in s.inflight then To(s, id, Following(q.phase.generation, s.inflight[(q.process, key)]))
      else To(s, id, Leading(q.phase.generation, token))
           .(futures := s.futures[token := Future(q.process, key, id, Open)],
             inflight := s.inflight[(q.process, key) := token])
    case Query(id) =>
      var q := s.searches[id];
      var response := Response(q.tenant, q.request, q.normal, |s.world.contents| - 1);
      To(s, id, Answered(q.phase.generation, q.phase.future, response))
    case QueryFails(id) =>
      var q := s.searches[id];
      Pop(Complete(To(s, id, Raised(Led(q.phase.future))), q.phase.future, Broken),
          (q.process, KeyOf(q, q.phase.generation)))
    case Fill(id, ok) =>
      var q := s.searches[id];
      var next := To(s, id, Filled(q.phase.generation, q.phase.future, q.phase.response));
      if ok then next.(cache := s.cache[KeyOf(q, q.phase.generation) := q.phase.response]) else next
    case Finish(id) =>
      var q := s.searches[id];
      var done := To(s, id, Returned(q.phase.generation, q.phase.response, Led(q.phase.future)));
      Pop(Complete(done, q.phase.future, Resolved(q.phase.response)), (q.process, KeyOf(q, q.phase.generation)))
    case Wake(id) =>
      var q := s.searches[id];
      match s.futures[q.phase.future].completion {
        case Resolved(response) => To(s, id, Returned(q.phase.generation, response, Followed(q.phase.future)))
        case _ => To(s, id, Raised(Followed(q.phase.future)))
      }
    case Cancel(id) =>
      // A cancelled leader takes its entry away but never completes its future.
      var q := s.searches[id];
      if Leads(q.phase) then Pop(To(s, id, Cancelled(Some(q.phase.future))), (q.process, KeyOf(q, q.phase.generation)))
      else To(s, id, Cancelled(None))
    case Write(batch, index) =>
      s.(world := s.world.(contents := s.world.contents + [index],
                           batches := s.world.batches[batch := Batch(|s.world.contents|, map[])]))
    case Bump(batch, tenant) =>
      var w, b := s.world, s.world.batches[batch];
      var b' := b.(bumps := b.bumps[tenant := Count(w, tenant) + 1]);
      s.(world := Bumped(w, tenant).(batches := w.batches[batch := b']))
    case Invalidate(batch, tenant) =>
      var b := Batch(|s.world.contents| - 1, map[tenant := Count(s.world, tenant) + 1]);
      s.(world := Bumped(s.world, tenant).(batches := s.world.batches[batch := b]))
    case Forget(key) => s.(cache := s.cache - {key})
    case Lapse(tenant) =>
      s.(world := s.world.(counters := s.world.counters - {tenant}, lapsed := s.world.lapsed + {tenant}))
  }

  predicate Legal(s: State, steps: seq<Step>)
    decreases |steps|
  {
    steps == [] || (Guard(s, steps[0]) && Legal(Next(s, steps[0]), steps[1..]))
  }

  function Exec(s: State, steps: seq<Step>): State
    requires Legal(s, steps)
    decreases |steps|
  {
    if steps == [] then s else Exec(Next(s, steps[0]), steps[1..])
  }

  function Initial(index: Index, normalize: Normalizer): State {
    State(World([index], map[], map[], {}, normalize), map[], map[], map[], map[])
  }

  // ---------------------------------------------------------------- freshness

  ghost predicate WorldOk(w: World) {
    && w.contents != []
    && (forall b :: b in w.batches ==> w.batches[b].epoch < |w.contents|)
    && (forall b, t :: b in w.batches && t in w.batches[b].bumps && t !in w.lapsed ==>
          w.batches[b].bumps[t] <= Count(w, t))
  }

  /** The answer was computed no earlier than the write of any batch that had bumped the tenant to
      this generation or a lower one. */
  ghost predicate FreshFor(w: World, tenant: Tenant, generation: nat, r: Response) {
    forall b :: b in w.batches && tenant in w.batches[b].bumps && w.batches[b].bumps[tenant] <= generation ==>
      w.batches[b].epoch <= r.epoch
  }

  /** An answer filed under a key: for that tenant and a request of that normal form and, while the
      tenant's counter has not lapsed, of a generation reached and fresh. */
  ghost predicate Filed(w: World, key: Key, r: Response) {
    && r.tenant == key.tenant && r.normal == key.request && r.epoch < |w.contents|
    && (key.tenant !in w.lapsed ==>
          key.generation <= Count(w, key.tenant) && FreshFor(w, key.tenant, key.generation, r))
  }

  ghost predicate SeenOk(w: World, q: Search) {
    forall b :: b in q.seen ==> b in w.batches && q.tenant in w.batches[b].bumps
  }

  /** The generation a search works with covers every bump it started after, unless its read failed
      or the counter has lapsed. */
  ghost predicate Covers(w: World, q: Search, generation: nat) {
    q.tenant !in w.lapsed ==>
    && generation <= Count(w, q.tenant)
    && (q.degraded || forall b :: b in q.seen ==>
          b in w.batches && q.tenant in w.batches[b].bumps && w.batches[b].bumps[q.tenant] <= generation)
  }

  ghost predicate SearchFresh(w: World, q: Search) {
    SeenOk(w, q) &&
    match q.phase
    case HasGeneration(g) => Covers(w, q, g)
    case LookedUp(g, found) => Covers(w, q, g) && (found.Some? ==> Filed(w, KeyOf(q, g), found.value))
    case Leading(g, _) => Covers(w, q, g)
    case Answered(g, _, r) => Covers(w, q, g) && Filed(w, KeyOf(q, g), r)
    case Filled(g, _, r) => Covers(w, q, g) && Filed(w, KeyOf(q, g), r)
    case Following(g, _) => Covers(w, q, g)
    case Returned(g, r, _) => Covers(w, q, g) && Filed(w, KeyOf(q, g), r)
    case _ => true
  }

  ghost predicate CacheFresh(w: World, cache: map<Key, Response>) {
    forall key :: key in cache ==> Filed(w, key, cache[key])
  }

  ghost predicate FuturesFresh(w: World, futures: Futures) {
    forall f :: f in futures && futures[f].completion.Resolved? ==>
      Filed(w, futures[f].key, futures[f].completion.response)
  }

  ghost predicate SearchesFresh(w: World, searches: Searches) {
    forall id :: id in searches ==> SearchFresh(w, searches[id])
  }

  ghost predicate Fresh(s: State) {
    && WorldOk(s.world) && CacheFresh(s.world, s.cache) && FuturesFresh(s.world, s.futures)
    && SearchesFresh(s.world, s.searches)
  }

  /** Time passes: epochs and counters grow, and a new bump reaches a generation nobody has yet. */
  ghost predicate Grows(w: World, w': World) {
    && |w.contents| <= |w'.contents| && w.lapsed <= w'.lapsed
    && (forall t :: t !in w'.lapsed ==> Count(w, t) <= Count(w', t))
    && (forall b :: b in w.batches ==> b in w'.batches && w'.batches[b].epoch == w.batches[b].epoch)
    && (forall b, t :: b in w.batches && t in w.batches[b].bumps ==>
          t in w'.batches[b].bumps && w'.batches[b].bumps[t] == w.batches[b].bumps[t])
    && (forall b, t :: b in w'.batches && t in w'.batches[b].bumps && t !in w'.lapsed
                       && !(b in w.batches && t in w.batches[b].bumps) ==>
          Count(w, t) < w'.batches[b].bumps[t])
  }

  lemma FiledStays(w: World, w': World, key: Key, r: Response)
    requires Grows(w, w') && Filed(w, key, r)
    ensures Filed(w', key, r)
  {
    if key.tenant !in w'.lapsed {
      forall b | b in w'.batches && key.tenant in w'.batches[b].bumps
                 && w'.batches[b].bumps[key.tenant] <= key.generation
        ensures w'.batches[b].epoch <= r.epoch
      {
        assert b in w.batches && key.tenant in w.batches[b].bumps;
      }
    }
  }

  lemma SearchFreshStays(w: World, w': World, q: Search)
    requires Grows(w, w') && SearchFresh(w, q)
    ensures SearchFresh(w', q)
  {
    match q.phase
    case LookedUp(g, found) => if found.Some? { FiledStays(w, w', KeyOf(q, g), found.value); }
    case Answered(g, _, r) => FiledStays(w, w', KeyOf(q, g), r);
    case Filled(g, _, r) => FiledStays(w, w', KeyOf(q, g), r);
    case Returned(g, r, _) => FiledStays(w, w', KeyOf(q, g), r);
    case _ =>
  }

  lemma WorldStepKeepsFresh(s: State, w': World)
    requires Fresh(s) && WorldOk(w') && Grows(s.world, w')
    ensures Fresh(s.(world := w'))
  {
    forall key | key in s.cache
      ensures Filed(w', key, s.cache[key])
    {
      FiledStays(s.world, w', key, s.cache[key]);
    }
    forall f | f in s.futures && s.futures[f].completion.Resolved?
      ensures Filed(w', s.futures[f].key, s.futures[f].completion.response)
    {
      FiledStays(s.world, w', s.futures[f].key, s.futures[f].completion.response);
    }
    forall id | id in s.searches
      ensures SearchFresh(w', s.searches[id])
    {
      SearchFreshStays(s.world, w', s.searches[id]);
    }
  }

  // ---------------------------------------------------------------- single flight

  /** An in-flight entry belongs to a search that is running as the leader of that very future. */
  ghost predicate SlotOk(inflight: Inflight, futures: Futures, searches: Searches, slot: (nat, Key))
    requires slot in inflight
  {
    var f := inflight[slot];
    && f in futures && futures[f].process == slot.0 && futures[f].key == slot.1 && futures[f].completion.Open?
    && futures[f].leader in searches
    && Leads(searches[futures[f].leader].phase) && searches[futures[f].leader].phase.future == f
  }

  ghost predicate Owns(futures: Futures, id: nat, f: nat) {
    f in futures && futures[f].leader == id
  }

  ghost predicate Joins(futures: Futures, q: Search, generation: nat, f: nat) {
    f in futures && futures[f].process == q.process && futures[f].key == KeyOf(q, generation)
  }

  ghost predicate SearchFlight(inflight: Inflight, futures: Futures, id: nat, q: Search) {
    if Leads(q.phase) then
      && Owns(futures, id, q.phase.future) && Joins(futures, q, q.phase.generation, q.phase.future)
      && futures[q.phase.future].completion.Open?
      && (q.process, KeyOf(q, q.phase.generation)) in inflight
      && inflight[(q.process, KeyOf(q, q.phase.generation))] == q.phase.future
    else match q.phase
      case Following(g, f) => Joins(futures, q, g, f)
      case Returned(g, r, Led(f)) => Owns(futures, id, f) && futures[f].completion == Resolved(r)
      case Returned(g, r, Followed(f)) => Joins(futures, q, g, f) && futures[f].completion == Resolved(r)
      case Raised(Led(f)) => Owns(futures, id, f) && futures[f].completion == Broken
      case Raised(Followed(f)) => f in futures && futures[f].completion == Broken
      case Cancelled(Some(f)) => Owns(futures, id, f) && futures[f].completion == Open
      case _ => true
  }

  /** A future is completed by its leader and by nobody else; it stays open only while its
      leader runs, or for ever when the leader was cancelled. */
  ghost predicate FutureFlight(searches: Searches, f: nat, future: Future) {
    future.leader in searches &&
    var phase := searches[future.leader].phase;
    match future.completion
    case Open => (Leads(phase) && phase.future == f) || phase == Cancelled(Some(f))
    case Resolved(r) => phase.Returned? && phase.response == r && phase.route == Led(f)
    case Broken => phase == Raised(Led(f))
  }

  ghost predicate Flight(inflight: Inflight, futures: Futures, searches: Searches) {
    && (forall slot :: slot in inflight ==> SlotOk(inflight, futures, searches, slot))
    && (forall id :: id in searches ==> SearchFlight(inflight, futures, id, searches[id]))
    && (forall f :: f in futures ==> FutureFlight(searches, f, futures[f]))
  }

  ghost predicate Inv(s: State) {
    Fresh(s) && Flight(s.inflight, s.futures, s.searches)
  }

  predicate Finished(phase: Phase) {
    phase.Returned? || phase.Raised? || phase.Cancelled?
  }

  /** A search that does not lead changes phase without touching the in-flight map. */
  lemma OutsiderMoves(inflight: Inflight, futures: Futures, searches: Searches, id: nat, q: Search)
    requires Flight(inflight, futures, searches)
    requires id in searches ==> !Leads(searches[id].phase) && !Finished(searches[id].phase)
    requires !Leads(q.phase) && SearchFlight(inflight, futures, id, q)
    ensures Flight(inflight, futures, searches[id := q])
  {
    var searches' := searches[id := q];
    forall slot | slot in inflight
      ensures SlotOk(inflight, futures, searches', slot)
    {
      assert SlotOk(inflight, futures, searches, slot);
    }
    forall f | f in futures
      ensures FutureFlight(searches', f, futures[f])
    {
      assert FutureFlight(searches, f, futures[f]);
    }
  }

  /** A leader advances: from querying to holding the answer to having filled the cache. */
  lemma LeaderMoves(inflight: Inflight, futures: Futures, searches: Searches, id: nat, phase: Phase)
    requires Flight(inflight, futures, searches) && id in searches
    requires Leads(searches[id].phase) && Leads(phase)
    requires phase.future == searches[id].phase.future && phase.generation == searches[id].phase.generation
    ensures Flight(inflight, futures, searches[id := searches[id].(phase := phase)])
  {
    var searches' := searches[id := searches[id].(phase := phase)];
    assert SearchFlight(inflight, futures, id, searches[id]);
    forall slot | slot in inflight
      ensures SlotOk(inflight, futures, searches', slot)
    {
      assert SlotOk(inflight, futures, searches, slot);
    }
    forall f | f in futures
      ensures FutureFlight(searches', f, futures[f])
    {
      assert FutureFlight(searches, f, futures[f]);
    }
  }

  lemma LeaderStarts(inflight: Inflight, futures: Futures, searches: Searches, id: nat, g: nat, token: nat)
    requires Flight(inflight, futures, searches) && id in searches
    requires !Leads(searches[id].phase) && !Finished(searches[id].phase)
    requires token !in futures && (searches[id].process, KeyOf(searches[id], g)) !in inflight
    ensures var q := searches[id];
            Flight(inflight[(q.process, KeyOf(q, g)) := token],
                   futures[token := Future(q.process, KeyOf(q, g), id, Open)],
                   searches[id := q.(phase := Leading(g, token))])
  {
    var q := searches[id];
    var slot' := (q.process, KeyOf(q, g));
    var inflight', futures' := inflight[slot' := token], futures[token := Future(q.process, KeyOf(q, g), id, Open)];
    var searches' := searches[id := q.(phase := Leading(g, token))];
    forall slot | slot in inflight'
      ensures SlotOk(inflight', futures', searches', slot)
    {
      if slot != slot' {
        assert SlotOk(inflight, futures, searches, slot);
      }
    }
    forall i | i in searches'
      ensures SearchFlight(inflight', futures', i, searches'[i])
    {
      assert SearchFlight(inflight, futures, i, searches[i]);
    }
    forall f | f in futures'
      ensures FutureFlight(searches', f, futures'[f])
    {
      if f != token {
        assert FutureFlight(searches, f, futures[f]);
      }
    }
  }

  /** How a leader stops: with an answer, with an error, or cancelled, which completes nothing. */
  ghost predicate Stopping(searches: Searches, id: nat, phase: Phase, completion: Completion) {
    && id in searches && Leads(searches[id].phase)
    && match completion {
         case Open => phase == Cancelled(Some(searches[id].phase.future))
         case Resolved(r) => phase == Returned(searches[id].phase.generation, r, Led(searches[id].phase.future))
         case Broken => phase == Raised(Led(searches[id].phase.future))
       }
  }

  lemma StopKeepsOthers(inflight: Inflight, futures: Futures, searches: Searches, id: nat, completion: Completion,
                        other: nat)
    requires Flight(inflight, futures, searches) && id in searches && Leads(searches[id].phase) && other in searches
    requires other != id
    ensures searches[id].phase.future in futures
    ensures var q := searches[id];
            var f := q.phase.future;
            SearchFlight(inflight - {(q.process, KeyOf(q, q.phase.generation))},
                         futures[f := futures[f].(completion := completion)], other, searches[other])
  {
    assert SearchFlight(inflight, futures, id, searches[id]);
    assert SearchFlight(inflight, futures, other, searches[other]);
  }

  /** A leader stops: its own entry goes, nobody else's, and its future is completed to match, or
      left open if it was cancelled. */
  lemma LeaderStops(inflight: Inflight, futures: Futures, searches: Searches, id: nat, phase: Phase,
                    completion: Completion)
    requires Flight(inflight, futures, searches) && Stopping(searches, id, phase, completion)
    ensures searches[id].phase.future in futures
    ensures var q := searches[id];
            var f := q.phase.future;
            Flight(inflight - {(q.process, KeyOf(q, q.phase.generation))},
                   futures[f := futures[f].(completion := completion)],
                   searches[id := q.(phase := phase)])
  {
    var q := searches[id];
    var mine := q.phase.future;
    assert SearchFlight(inflight, futures, id, q);
    var slot' := (q.process, KeyOf(q, q.phase.generation));
    var inflight', futures' := inflight - {slot'}, futures[mine := futures[mine].(completion := completion)];
    var searches' := searches[id := q.(phase := phase)];
    forall slot | slot in inflight'
      ensures SlotOk(inflight', futures', searches', slot)
    {
      assert SlotOk(inflight, futures, searches, slot);
    }
    forall i | i in searches'
      ensures SearchFlight(inflight', futures', i, searches'[i])
    {
      if i != id {
        StopKeepsOthers(inflight, futures, searches, id, completion, i);
      }
    }
    forall f | f in futures'
      ensures FutureFlight(searches', f, futures'[f])
    {
      assert FutureFlight(searches, f, futures[f]);
    }
  }

  // ---------------------------------------------------------------- every step

  lemma BumpCounts(w: World, tenant: Tenant)
    ensures forall t :: Count(Bumped(w, tenant), t) == Count(w, t) + if t == tenant then 1 else 0
  {}

  lemma BumpGrows(s: State, batch: nat, tenant: Tenant)
    requires WorldOk(s.world) && Guard(s, Bump(batch, tenant))
    ensures Grows(s.world, Next(s, Bump(batch, tenant)).world)
  {
    BumpCounts(s.world, tenant);
  }

  lemma BumpKeepsWorldOk(s: State, batch: nat, tenant: Tenant)
    requires WorldOk(s.world) && Guard(s, Bump(batch, tenant))
    ensures WorldOk(Next(s, Bump(batch, tenant)).world)
  {
    var w, w' := s.world, Next(s, Bump(batch, tenant)).world;
    BumpCounts(w, tenant);
    forall b, t | b in w'.batches && t in w'.batches[b].bumps && t !in w'.lapsed
      ensures w'.batches[b].bumps[t] <= Count(w', t)
    {
      assert Count(w', t) == Count(Bumped(w, tenant), t);
      assert b in w.batches && t in w.batches[b].bumps ==> w.batches[b].bumps[t] <= Count(w, t);
    }
  }

  lemma InvalidateGrows(s: State, batch: nat, tenant: Tenant)
    requires WorldOk(s.world) && Guard(s, Invalidate(batch, tenant))
    ensures var w := Next(s, Invalidate(batch, tenant)).world; WorldOk(w) && Grows(s.world, w)
  {
    BumpCounts(s.world, tenant);
  }

  lemma WorldStepsGrow(s: State, step: Step)
    requires WorldOk(s.world) && Guard(s, step) && (step.Write? || step.Bump? || step.Invalidate? || step.Lapse?)
    ensures WorldOk(Next(s, step).world) && Grows(s.world, Next(s, step).world)
  {
    if step.Bump? {
      BumpGrows(s, step.batch, step.tenant);
      BumpKeepsWorldOk(s, step.batch, step.tenant);
    } else if step.Invalidate? {
      InvalidateGrows(s, step.batch, step.tenant);
    } else if step.Write? {
      WriteGrows(s, step.batch, step.index);
    }
  }

  lemma WriteGrows(s: State, batch: nat, index: Index)
    requires WorldOk(s.world) && Guard(s, Write(batch, index))
    ensures var w := Next(s, Write(batch, index)).world; WorldOk(w) && Grows(s.world, w)
  {}

  lemma StartKeepsFresh(s: State, step: Step)
    requires Fresh(s) && Guard(s, step) && step.Start?
    ensures Fresh(Next(s, step))
  {
    assert SearchFresh(s.world, Next(s, step).searches[step.id]);
  }

  lemma ReadKeepsFresh(s: State, id: nat, ok: bool)
    requires Fresh(s) && Guard(s, ReadGeneration(id, ok))
    ensures Fresh(Next(s, ReadGeneration(id, ok)))
  {
    assert SearchFresh(s.world, s.searches[id]);
  }

  lemma MoveKeepsFresh(s: State, id: nat, phase: Phase)
    requires Fresh(s) && id in s.searches && SearchFresh(s.world, s.searches[id].(phase := phase))
    ensures Fresh(To(s, id, phase))
  {}

  lemma QueryKeepsFresh(s: State, id: nat)
    requires Fresh(s) && Guard(s, Query(id))
    ensures Fresh(Next(s, Query(id)))
  {
    var q := s.searches[id];
    assert SearchFresh(s.world, q);
    var r := Response(q.tenant, q.request, q.normal, |s.world.contents| - 1);
    assert Filed(s.world, KeyOf(q, q.phase.generation), r);
    MoveKeepsFresh(s, id, Answered(q.phase.generation, q.phase.future, r));
  }

  lemma WakeKeepsFresh(s: State, id: nat)
    requires Fresh(s) && Guard(s, Wake(id)) && SearchFlight(s.inflight, s.futures, id, s.searches[id])
    ensures Fresh(Next(s, Wake(id)))
  {
    var q := s.searches[id];
    assert SearchFresh(s.world, q);
    var completion := s.futures[q.phase.future].completion;
    var g, route := q.phase.generation, Followed(q.phase.future);
    MoveKeepsFresh(s, id, if completion.Resolved? then Returned(g, completion.response, route) else Raised(route));
  }

  lemma ResumeKeepsFresh(s: State, id: nat, token: nat)
    requires Fresh(s) && Guard(s, Resume(id, token))
    ensures Fresh(Next(s, Resume(id, token)))
  {
    var q := s.searches[id];
    var g, slot := q.phase.generation, (q.process, KeyOf(q, q.phase.generation));
    assert SearchFresh(s.world, q);
    if q.phase.found.Some? {
      MoveKeepsFresh(s, id, Returned(g, q.phase.found.value, Hit));
    } else if slot in s.inflight {
      MoveKeepsFresh(s, id, Following(g, s.inflight[slot]));
    } else {
      MoveKeepsFresh(s, id, Leading(g, token));
    }
  }

  lemma LookUpKeepsFresh(s: State, id: nat, ok: bool)
    requires Fresh(s) && Guard(s, LookUp(id, ok))
    ensures Fresh(Next(s, LookUp(id, ok)))
  {
    assert SearchFresh(s.world, s.searches[id]);
    MoveKeepsFresh(s, id, Next(s, LookUp(id, ok)).searches[id].phase);
  }

  lemma FillKeepsFresh(s: State, id: nat, ok: bool)
    requires Fresh(s) && Guard(s, Fill(id, ok))
    ensures Fresh(Next(s, Fill(id, ok)))
  {
    assert SearchFresh(s.world, s.searches[id]);
    MoveKeepsFresh(s, id, Next(s, Fill(id, ok)).searches[id].phase);
  }

  lemma FailureKeepsFresh(s: State, id: nat)
    requires Fresh(s) && Guard(s, QueryFails(id))
    ensures Fresh(Next(s, QueryFails(id)))
  {
    assert SearchFresh(s.world, s.searches[id]);
    MoveKeepsFresh(s, id, Raised(Led(s.searches[id].phase.future)));
  }

  lemma CancelKeepsFresh(s: State, id: nat)
    requires Fresh(s) && Guard(s, Cancel(id))
    ensures Fresh(Next(s, Cancel(id)))
  {
    var q := s.searches[id];
    assert SearchFresh(s.world, q);
    MoveKeepsFresh(s, id, if Leads(q.phase) then Cancelled(Some(q.phase.future)) else Cancelled(None));
  }

  lemma FinishKeepsFresh(s: State, id: nat)
    requires Fresh(s) && Guard(s, Finish(id)) && SearchFlight(s.inflight, s.futures, id, s.searches[id])
    ensures Fresh(Next(s, Finish(id)))
  {
    assert SearchFresh(s.world, s.searches[id]);
    MoveKeepsFresh(s, id, Next(s, Finish(id)).searches[id].phase);
  }

  lemma StepKeepsFresh(s: State, step: Step)
    requires Inv(s) && Guard(s, step)
    ensures Fresh(Next(s, step))
  {
    match step
    case Start(id, process, tenant, request) => StartKeepsFresh(s, step);
    case ReadGeneration(id, ok) => ReadKeepsFresh(s, id, ok);
    case LookUp(id, ok) => LookUpKeepsFresh(s, id, ok);
    case Resume(id, token) => ResumeKeepsFresh(s, id, token);
    case Query(id) => QueryKeepsFresh(s, id);
    case QueryFails(id) => FailureKeepsFresh(s, id);
    case Fill(id, ok) => FillKeepsFresh(s, id, ok);
    case Finish(id) => FinishKeepsFresh(s, id);
    case Wake(id) => WakeKeepsFresh(s, id);
    case Cancel(id) => CancelKeepsFresh(s, id);
    case Write(_, _) => WorldStepsGrow(s, step); WorldStepKeepsFresh(s, Next(s, step).world);
    case Bump(_, _) => WorldStepsGrow(s, step); WorldStepKeepsFresh(s, Next(s, step).world);
    case Invalidate(_, _) => WorldStepsGrow(s, step); WorldStepKeepsFresh(s, Next(s, step).world);
    case Lapse(_) => WorldStepsGrow(s, step); WorldStepKeepsFresh(s, Next(s, step).world);
    case Forget(_) =>
  }

  lemma ResumeKeepsFlight(s: State, id: nat, token: nat)
    requires Flight(s.inflight, s.futures, s.searches) && Guard(s, Resume(id, token))
    ensures var s' := Next(s, Resume(id, token)); Flight(s'.inflight, s'.futures, s'.searches)
  {
    var q := s.searches[id];
    var slot := (q.process, KeyOf(q, q.phase.generation));
    if q.phase.found.None? && slot !in s.inflight {
      LeaderStarts(s.inflight, s.futures, s.searches, id, q.phase.generation, token);
    } else {
      if slot in s.inflight {
        assert SlotOk(s.inflight, s.futures, s.searches, slot);
      }
      OutsiderMoves(s.inflight, s.futures, s.searches, id, Next(s, Resume(id, token)).searches[id]);
    }
  }

  lemma StopKeepsFlight(s: State, step: Step)
    requires Flight(s.inflight, s.futures, s.searches) && Guard(s, step) && (step.QueryFails? || step.Finish?)
    ensures var s' := Next(s, step); Flight(s'.inflight, s'.futures, s'.searches)
  {
    var q := s.searches[step.id];
    if step.Finish? {
      LeaderStops(s.inflight, s.futures, s.searches, step.id,
                  Returned(q.phase.generation, q.phase.response, Led(q.phase.future)), Resolved(q.phase.response));
    } else {
      LeaderStops(s.inflight, s.futures, s.searches, step.id, Raised(Led(q.phase.future)), Broken);
    }
  }

  lemma CancelKeepsFlight(s: State, id: nat)
    requires Flight(s.inflight, s.futures, s.searches) && Guard(s, Cancel(id))
    ensures var s' := Next(s, Cancel(id)); Flight(s'.inflight, s'.futures, s'.searches)
  {
    var q := s.searches[id];
    if Leads(q.phase) {
      LeaderStops(s.inflight, s.futures, s.searches, id, Cancelled(Some(q.phase.future)), Open);
      var f := q.phase.future;
      assert SearchFlight(s.inflight, s.futures, id, q);
      assert s.futures[f := s.futures[f].(completion := Open)] == s.futures;
    } else {
      OutsiderMoves(s.inflight, s.futures, s.searches, id, q.(phase := Cancelled(None)));
    }
  }

  lemma StepKeepsFlight(s: State, step: Step)
    requires Flight(s.inflight, s.futures, s.searches) && Guard(s, step)
    ensures var s' := Next(s, step); Flight(s'.inflight, s'.futures, s'.searches)
  {
    match step
    case Start(_, _, _, _) => OutsiderKeepsFlight(s, step);
    case ReadGeneration(_, _) => OutsiderKeepsFlight(s, step);
    case LookUp(_, _) => OutsiderKeepsFlight(s, step);
    case Resume(id, token) => ResumeKeepsFlight(s, id, token);
    case Query(id) => LeaderMoves(s.inflight, s.futures, s.searches, id, Next(s, step).searches[id].phase);
    case QueryFails(_) => StopKeepsFlight(s, step);
    case Fill(id, _) => LeaderMoves(s.inflight, s.futures, s.searches, id, Next(s, step).searches[id].phase);
    case Finish(_) => StopKeepsFlight(s, step);
    case Wake(id) => WakeKeepsFlight(s, id);
    case Cancel(id) => CancelKeepsFlight(s, id);
    case _ =>
  }

  lemma OutsiderKeepsFlight(s: State, step: Step)
    requires Flight(s.inflight, s.futures, s.searches) && Guard(s, step)
    requires step.Start? || step.ReadGeneration? || step.LookUp?
    ensures var s' := Next(s, step); Flight(s'.inflight, s'.futures, s'.searches)
  {
    OutsiderMoves(s.inflight, s.futures, s.searches, step.id, Next(s, step).searches[step.id]);
  }

  lemma WakeKeepsFlight(s: State, id: nat)
    requires Flight(s.inflight, s.futures, s.searches) && Guard(s, Wake(id))
    ensures var s' := Next(s, Wake(id)); Flight(s'.inflight, s'.futures, s'.searches)
  {
    var q := s.searches[id];
    var f := q.phase.future;
    assert SearchFlight(s.inflight, s.futures, id, q);
    match s.futures[f].completion
    case Resolved(r) => OutsiderMoves(s.inflight, s.futures, s.searches, id,
                                      q.(phase := Returned(q.phase.generation, r, Followed(f))));
    case _ => OutsiderMoves(s.inflight, s.futures, s.searches, id, q.(phase := Raised(Followed(f))));
  }

  // ---------------------------------------------------------------- spelling

  /** What is to hold of every request and the normal form beside it. */
  type Pairing = (Request, Request) -> bool

  predicate Paired(p: Pairing, r: Response) {
    p(r.request, r.normal)
  }

  predicate PhasePaired(p: Pairing, phase: Phase) {
    match phase
    case LookedUp(_, found) => found.Some? ==> Paired(p, found.value)
    case Answered(_, _, r) => Paired(p, r)
    case Filled(_, _, r) => Paired(p, r)
    case Returned(_, r, _) => Paired(p, r)
    case _ => true
  }

  predicate SearchPaired(p: Pairing, q: Search) {
    p(q.request, q.normal) && PhasePaired(p, q.phase)
  }

  predicate CompletionPaired(p: Pairing, c: Completion) {
    c.Resolved? ==> Paired(p, c.response)
  }

  ghost predicate AllPaired(p: Pairing, s: State) {
    && (forall id :: id in s.searches ==> SearchPaired(p, s.searches[id]))
    && (forall key :: key in s.cache ==> Paired(p, s.cache[key]))
    && (forall f :: f in s.futures ==> CompletionPaired(p, s.futures[f].completion))
  }

  lemma StepPairsAnswers(p: Pairing, s: State, step: Step)
    requires AllPaired(p, s) && Guard(s, step)
    ensures forall key :: key in Next(s, step).cache ==> Paired(p, Next(s, step).cache[key])
    ensures forall f :: f in Next(s, step).futures ==> CompletionPaired(p, Next(s, step).futures[f].completion)
  {
    var s' := Next(s, step);
    assert step.Finish? || step.Fill? ==> SearchPaired(p, s.searches[step.id]);
    forall f | f in s'.futures
      ensures CompletionPaired(p, s'.futures[f].completion)
    {
      assert f in s.futures ==> CompletionPaired(p, s.futures[f].completion);
    }
  }

  predicate OfALeader(step: Step) {
    step.QueryFails? || step.Fill? || step.Finish? || step.Cancel?
  }

  /** A search takes an answer over from the cache or from a future. */
  lemma TakerStaysPaired(p: Pairing, s: State, step: Step, id: nat)
    requires Guard(s, step) && (step.LookUp? || step.Wake?) && id in s.searches && SearchPaired(p, s.searches[id])
    requires forall key :: key in s.cache ==> Paired(p, s.cache[key])
    requires forall f :: f in s.futures ==> CompletionPaired(p, s.futures[f].completion)
    ensures SearchPaired(p, Next(s, step).searches[id])
  {}

  lemma LeaderStaysPaired(p: Pairing, s: State, step: Step, id: nat)
    requires Guard(s, step) && (step.Query? || OfALeader(step)) && id in s.searches && SearchPaired(p, s.searches[id])
    ensures SearchPaired(p, Next(s, step).searches[id])
  {}

  lemma OtherStaysPaired(p: Pairing, s: State, step: Step, id: nat)
    requires Guard(s, step) && !step.LookUp? && !step.Wake? && !step.Query? && !OfALeader(step)
    requires id in Next(s, step).searches && (id in s.searches ==> SearchPaired(p, s.searches[id]))
    requires step.Start? ==> p(step.request, s.world.normalize(step.request))
    ensures SearchPaired(p, Next(s, step).searches[id])
  {}

  lemma StepPairsSearches(p: Pairing, s: State, step: Step)
    requires AllPaired(p, s) && Guard(s, step)
    requires step.Start? ==> p(step.request, s.world.normalize(step.request))
    ensures forall id :: id in Next(s, step).searches ==> SearchPaired(p, Next(s, step).searches[id])
  {
    forall id | id in Next(s, step).searches
      ensures SearchPaired(p, Next(s, step).searches[id])
    {
      if step.LookUp? || step.Wake? {
        TakerStaysPaired(p, s, step, id);
      } else if step.Query? || OfALeader(step) {
        LeaderStaysPaired(p, s, step, id);
      } else {
        OtherStaysPaired(p, s, step, id);
      }
    }
  }

  lemma {:induction false} EveryRunPairs(p: Pairing, s: State, steps: seq<Step>)
    requires AllPaired(p, s) && Legal(s, steps) && forall r :: p(r, s.world.normalize(r))
    ensures AllPaired(p, Exec(s, steps))
    decreases |steps|
  {
    if steps != [] {
      StepPairsAnswers(p, s, steps[0]);
      StepPairsSearches(p, s, steps[0]);
      EveryRunPairs(p, Next(s, steps[0]), steps[1..]);
    }
  }

  /** In every interleaving the normal forms are those of the requests beside them. */
  lemma NormalFormsAreNormal(index: Index, normalize: Normalizer, steps: seq<Step>, id: nat)
    requires Legal(Initial(index, normalize), steps) && id in Exec(Initial(index, normalize), steps).searches
    ensures var q := Exec(Initial(index, normalize), steps).searches[id];
            && q.normal == normalize(q.request)
            && (q.phase.Returned? ==> q.phase.response.normal == normalize(q.phase.response.request))
  {
    RunKeepsPairing((r, normal) => normal == normalize(r), index, normalize, steps, id);
  }

  lemma RunKeepsPairing(p: Pairing, index: Index, normalize: Normalizer, steps: seq<Step>, id: nat)
    requires forall r :: p(r, normalize(r))
    requires Legal(Initial(index, normalize), steps) && id in Exec(Initial(index, normalize), steps).searches
    ensures SearchPaired(p, Exec(Initial(index, normalize), steps).searches[id])
  {
    EveryRunPairs(p, Initial(index, normalize), steps);
  }

  // ---------------------------------------------------------------- every run

  lemma InvFacts(s: State, id: nat)
    requires Inv(s) && id in s.searches
    ensures SearchFlight(s.inflight, s.futures, id, s.searches[id])
  {}

  lemma StepKeeps(s: State, step: Step)
    requires Inv(s) && Guard(s, step)
    ensures Inv(Next(s, step))
  {
    StepKeepsFresh(s, step);
    StepKeepsFlight(s, step);
  }

  lemma {:induction false} EveryRunKeeps(s: State, steps: seq<Step>)
    requires Inv(s) && Legal(s, steps)
    ensures Inv(Exec(s, steps))
    decreases |steps|
  {
    if steps != [] {
      StepKeeps(s, steps[0]);
      EveryRunKeeps(Next(s, steps[0]), steps[1..]);
    }
  }

  lemma ReachableStates(index: Index, normalize: Normalizer, steps: seq<Step>)
    requires Legal(Initial(index, normalize), steps)
    ensures Inv(Exec(Initial(index, normalize), steps))
  {
    EveryRunKeeps(Initial(index, normalize), steps);
  }

  /** Nothing went wrong with the counter this search depends on. */
  predicate Dependable(s: State, id: nat)
    requires id in s.searches
  {
    !s.searches[id].degraded && s.searches[id].tenant !in s.world.lapsed
  }

  /** In every interleaving, with cache operations failing at will: while its tenant's counter has not
      lapsed, a search whose own counter read succeeded never returns, as a hit, a leader or a follower,
      an answer computed before the bulk write of a batch that had bumped its tenant before the search
      started, nor one computed before an invalidation that the API had made by then. */
  lemma SearchesSeeEarlierBatches(index: Index, normalize: Normalizer, steps: seq<Step>, id: nat, b: nat)
    requires Legal(Initial(index, normalize), steps)
    requires var s := Exec(Initial(index, normalize), steps);
             id in s.searches && s.searches[id].phase.Returned? && Dependable(s, id) && b in s.searches[id].seen
    ensures var s := Exec(Initial(index, normalize), steps);
            && s.searches[id].phase.response.tenant == s.searches[id].tenant
            && normalize(s.searches[id].phase.response.request) == normalize(s.searches[id].request)
            && b in s.world.batches
            && s.world.batches[b].epoch <= s.searches[id].phase.response.epoch < |s.world.contents|
  {
    ReachableStates(index, normalize, steps);
    NormalFormsAreNormal(index, normalize, steps, id);
    var s := Exec(Initial(index, normalize), steps);
    assert SearchFresh(s.world, s.searches[id]);
  }

  predicate LeadsFor(q: Search, process: nat, key: Key) {
    Leads(q.phase) && q.process == process && KeyOf(q, q.phase.generation) == key
  }

  /** Searches of one process and tenant whose requests have one normal form. */
  predicate SameQuestion(p: Search, q: Search, normalize: Normalizer) {
    p.process == q.process && p.tenant == q.tenant && normalize(p.request) == normalize(q.request)
  }

  /** In every interleaving at most one engine query per key runs in a process, hence at most one for all
      spellings of a request. */
  lemma OneLeaderPerKey(index: Index, normalize: Normalizer, steps: seq<Step>, process: nat, key: Key, i: nat, j: nat)
    requires Legal(Initial(index, normalize), steps)
    requires var searches := Exec(Initial(index, normalize), steps).searches; i in searches && j in searches
    ensures var searches := Exec(Initial(index, normalize), steps).searches;
            LeadsFor(searches[i], process, key) && LeadsFor(searches[j], process, key) ==> i == j
    ensures var searches := Exec(Initial(index, normalize), steps).searches;
            var p, q := searches[i], searches[j];
            Leads(p.phase) && Leads(q.phase) && p.phase.generation == q.phase.generation
            ==> SameQuestion(p, q, normalize) ==> i == j
  {
    var s := Exec(Initial(index, normalize), steps);
    NormalFormsAreNormal(index, normalize, steps, i);
    NormalFormsAreNormal(index, normalize, steps, j);
    ReachableStates(index, normalize, steps);
    InvFacts(Exec(Initial(index, normalize), steps), i);
    InvFacts(Exec(Initial(index, normalize), steps), j);
  }

  /** In every interleaving the in-flight map holds a key exactly while a search of that process leads
      for it, under the future of that very search. */
  lemma InflightExactlyWhileLed(index: Index, normalize: Normalizer, steps: seq<Step>, process: nat, key: Key)
    requires Legal(Initial(index, normalize), steps)
    ensures var s := Exec(Initial(index, normalize), steps);
            && ((process, key) in s.inflight <==>
                  exists id :: id in s.searches && LeadsFor(s.searches[id], process, key))
            && (forall id :: id in s.searches && LeadsFor(s.searches[id], process, key) ==>
                  (process, key) in s.inflight && s.inflight[(process, key)] == s.searches[id].phase.future)
  {
    ReachableStates(index, normalize, steps);
    var s := Exec(Initial(index, normalize), steps);
    if (process, key) in s.inflight {
      assert SlotOk(s.inflight, s.futures, s.searches, (process, key));
      var id := s.futures[s.inflight[(process, key)]].leader;
      InvFacts(s, id);
      assert LeadsFor(s.searches[id], process, key);
    }
    forall id | id in s.searches && LeadsFor(s.searches[id], process, key)
      ensures (process, key) in s.inflight && s.inflight[(process, key)] == s.searches[id].phase.future
    {
      InvFacts(s, id);
    }
  }

  /** In every interleaving a follower that has returned got what its leader returned, and one that
      raised followed a leader that raised. */
  lemma FollowersShareTheLeadersFate(index: Index, normalize: Normalizer, steps: seq<Step>, id: nat)
    requires Legal(Initial(index, normalize), steps) && id in Exec(Initial(index, normalize), steps).searches
    ensures var s := Exec(Initial(index, normalize), steps);
            var phase := s.searches[id].phase;
            && (phase.Returned? && phase.route.Followed? ==>
                  && phase.route.future in s.futures && s.futures[phase.route.future].leader in s.searches
                  && var leader := s.searches[s.futures[phase.route.future].leader].phase;
                     leader.Returned? && leader.route == Led(phase.route.future) && leader.response == phase.response)
            && (phase.Raised? && phase.route.Followed? ==>
                  && phase.route.future in s.futures && s.futures[phase.route.future].leader in s.searches
                  && s.searches[s.futures[phase.route.future].leader].phase == Raised(Led(phase.route.future)))
  {
    ReachableStates(index, normalize, steps);
    var s := Exec(Initial(index, normalize), steps);
    var phase := s.searches[id].phase;
    InvFacts(s, id);
    if (phase.Returned? || phase.Raised?) && phase.route.Followed? {
      assert FutureFlight(s.searches, phase.route.future, s.futures[phase.route.future]);
    }
  }

  // ---------------------------------------------------------------- when an old answer can be served

  predicate OlderThan(r: Response, bound: nat) { r.epoch < bound }

  /** An answer computed before epoch `bound` is where a search of `process` that works with `key` can
      still come across it: in the cache, with a leader that is about to fill the cache, or with a
      leader of its own process that is about to complete its future. */
  ghost predicate OldAnswerAround(s: State, process: nat, key: Key, bound: nat) {
    || (key in s.cache && OlderThan(s.cache[key], bound))
    || exists j :: j in s.searches && HoldsOld(s.searches[j], process, key, bound)
  }

  predicate HoldsOld(q: Search, process: nat, key: Key, bound: nat) {
    AboutToFill(q, key, bound) || AboutToFinish(q, process, key, bound)
  }

  predicate AboutToFill(q: Search, key: Key, bound: nat) {
    q.phase.Answered? && KeyOf(q, q.phase.generation) == key && OlderThan(q.phase.response, bound)
  }

  predicate AboutToFinish(q: Search, process: nat, key: Key, bound: nat) {
    q.phase.Filled? && q.process == process && KeyOf(q, q.phase.generation) == key && OlderThan(q.phase.response, bound)
  }

  /** The search has not been given, and holds no, answer older than `bound`. */
  ghost predicate Spared(futures: Futures, q: Search, bound: nat) {
    match q.phase
    case HasGeneration(_) => true
    case LookedUp(_, found) => found.Some? ==> !OlderThan(found.value, bound)
    case Leading(_, _) => true
    case Answered(_, _, r) => !OlderThan(r, bound)
    case Filled(_, _, r) => !OlderThan(r, bound)
    case Following(_, f) =>
      f in futures && (futures[f].completion.Resolved? ==> !OlderThan(futures[f].completion.response, bound))
    case Returned(_, r, _) => !OlderThan(r, bound)
    case Raised(_) => true
    case Cancelled(_) => true
    case Started => false
  }

  /** Search `id` works with `key`, as far as it has not ended. */
  predicate WorksWith(q: Search, process: nat, key: Key) {
    q.process == process &&
    match q.phase
    case HasGeneration(g) => KeyOf(q, g) == key
    case LookedUp(g, _) => KeyOf(q, g) == key
    case Leading(g, _) => KeyOf(q, g) == key
    case Answered(g, _, _) => KeyOf(q, g) == key
    case Filled(g, _, _) => KeyOf(q, g) == key
    case Following(g, _) => KeyOf(q, g) == key
    case _ => true
  }

  /** Nothing older than `bound` is around, and search `id` has none. */
  ghost predicate NothingOld(s: State, id: nat, process: nat, key: Key, bound: nat) {
    && bound < |s.world.contents| && !OldAnswerAround(s, process, key, bound)
    && id in s.searches && WorksWith(s.searches[id], process, key) && Spared(s.futures, s.searches[id], bound)
  }

  ghost predicate StaysSpared(s: State, id: nat, process: nat, key: Key, bound: nat) {
    id in s.searches && WorksWith(s.searches[id], process, key) && Spared(s.futures, s.searches[id], bound)
  }

  lemma ResumeSpares(s: State, i: nat, token: nat, id: nat, process: nat, key: Key, bound: nat)
    requires Guard(s, Resume(i, token)) && StaysSpared(s, id, process, key, bound)
    requires (process, key) in s.inflight ==> SlotOk(s.inflight, s.futures, s.searches, (process, key))
    ensures StaysSpared(Next(s, Resume(i, token)), id, process, key, bound)
  {}

  /** A leader that is about to finish leaves nothing old to those that follow it. */
  lemma FinishSpares(s: State, i: nat, id: nat, process: nat, key: Key, bound: nat)
    requires Guard(s, Finish(i)) && StaysSpared(s, id, process, key, bound)
    requires SearchFlight(s.inflight, s.futures, id, s.searches[id])
    requires SearchFlight(s.inflight, s.futures, i, s.searches[i])
    requires !HoldsOld(s.searches[i], process, key, bound)
    ensures StaysSpared(Next(s, Finish(i)), id, process, key, bound)
  {}

  lemma LookUpSpares(s: State, i: nat, ok: bool, id: nat, process: nat, key: Key, bound: nat)
    requires Guard(s, LookUp(i, ok)) && StaysSpared(s, id, process, key, bound)
    requires key in s.cache ==> !OlderThan(s.cache[key], bound)
    ensures StaysSpared(Next(s, LookUp(i, ok)), id, process, key, bound)
  {}

  lemma QuerySpares(s: State, i: nat, id: nat, process: nat, key: Key, bound: nat)
    requires Guard(s, Query(i)) && StaysSpared(s, id, process, key, bound) && bound < |s.world.contents|
    ensures StaysSpared(Next(s, Query(i)), id, process, key, bound)
  {}

  lemma WakeSpares(s: State, i: nat, id: nat, process: nat, key: Key, bound: nat)
    requires Guard(s, Wake(i)) && StaysSpared(s, id, process, key, bound)
    ensures StaysSpared(Next(s, Wake(i)), id, process, key, bound)
  {}

  lemma LeaderStepSpares(s: State, step: Step, id: nat, process: nat, key: Key, bound: nat)
    requires Guard(s, step) && (step.QueryFails? || step.Fill? || step.Cancel?)
    requires StaysSpared(s, id, process, key, bound)
    ensures StaysSpared(Next(s, step), id, process, key, bound)
  {}

  lemma OtherStepSpares(s: State, step: Step, id: nat, process: nat, key: Key, bound: nat)
    requires Guard(s, step) && !step.Resume? && !step.Finish? && !step.LookUp? && !step.Query? && !step.Wake?
    requires !step.QueryFails? && !step.Fill? && !step.Cancel?
    requires StaysSpared(s, id, process, key, bound)
    ensures StaysSpared(Next(s, step), id, process, key, bound)
  {}

  lemma StepSpares(s: State, step: Step, id: nat, process: nat, key: Key, bound: nat)
    requires Inv(s) && Guard(s, step) && NothingOld(s, id, process, key, bound)
    ensures StaysSpared(Next(s, step), id, process, key, bound)
  {
    match step
    case Resume(i, token) => ResumeSpares(s, i, token, id, process, key, bound);
    case LookUp(i, ok) => LookUpSpares(s, i, ok, id, process, key, bound);
    case Query(i) => QuerySpares(s, i, id, process, key, bound);
    case Wake(i) => WakeSpares(s, i, id, process, key, bound);
    case Finish(i) =>
      InvFacts(s, id);
      InvFacts(s, i);
      FinishSpares(s, i, id, process, key, bound);
    case QueryFails(_) => LeaderStepSpares(s, step, id, process, key, bound);
    case Fill(_, _) => LeaderStepSpares(s, step, id, process, key, bound);
    case Cancel(_) => LeaderStepSpares(s, step, id, process, key, bound);
    case _ => OtherStepSpares(s, step, id, process, key, bound);
  }

  /** Only a query gives a search an answer it did not hold, and that one is as new as the index. */
  lemma QueryHandsOnNothingOld(s: State, i: nat, j: nat, process: nat, key: Key, bound: nat)
    requires Guard(s, Query(i)) && bound < |s.world.contents| && j in s.searches
    requires !HoldsOld(s.searches[j], process, key, bound)
    ensures !HoldsOld(Next(s, Query(i)).searches[j], process, key, bound)
  {}

  lemma LeaderHandsOnNothingOld(s: State, step: Step, j: nat, process: nat, key: Key, bound: nat)
    requires Guard(s, step) && OfALeader(step) && j in s.searches
    requires !HoldsOld(s.searches[j], process, key, bound)
    ensures !HoldsOld(Next(s, step).searches[j], process, key, bound)
  {}

  lemma OtherHandsOnNothingOld(s: State, step: Step, j: nat, process: nat, key: Key, bound: nat)
    requires Guard(s, step) && !step.Query? && !OfALeader(step) && j in Next(s, step).searches
    requires j in s.searches ==> !HoldsOld(s.searches[j], process, key, bound)
    ensures !HoldsOld(Next(s, step).searches[j], process, key, bound)
  {}

  lemma StepHandsOnNothingOld(s: State, step: Step, process: nat, key: Key, bound: nat)
    requires Guard(s, step) && bound < |s.world.contents|
    requires forall j :: j in s.searches ==> !HoldsOld(s.searches[j], process, key, bound)
    ensures forall j :: j in Next(s, step).searches ==> !HoldsOld(Next(s, step).searches[j], process, key, bound)
  {
    var s' := Next(s, step);
    forall j | j in s'.searches
      ensures !HoldsOld(s'.searches[j], process, key, bound)
    {
      if step.Query? {
        QueryHandsOnNothingOld(s, step.id, j, process, key, bound);
      } else if OfALeader(step) {
        LeaderHandsOnNothingOld(s, step, j, process, key, bound);
      } else {
        OtherHandsOnNothingOld(s, step, j, process, key, bound);
      }
    }
  }

  lemma StepCachesNothingOld(s: State, step: Step, process: nat, key: Key, bound: nat)
    requires Guard(s, step) && (key in s.cache ==> !OlderThan(s.cache[key], bound))
    requires step.Fill? ==> !HoldsOld(s.searches[step.id], process, key, bound)
    ensures |s.world.contents| <= |Next(s, step).world.contents|
    ensures key in Next(s, step).cache ==> !OlderThan(Next(s, step).cache[key], bound)
  {}

  lemma {:induction false} NothingOldStays(s: State, steps: seq<Step>, id: nat, process: nat, key: Key, bound: nat)
    requires Inv(s) && Legal(s, steps) && NothingOld(s, id, process, key, bound)
    ensures NothingOld(Exec(s, steps), id, process, key, bound)
    decreases |steps|
  {
    if steps != [] {
      StepSpares(s, steps[0], id, process, key, bound);
      StepHandsOnNothingOld(s, steps[0], process, key, bound);
      StepCachesNothingOld(s, steps[0], process, key, bound);
      StepKeeps(s, steps[0]);
      NothingOldStays(Next(s, steps[0]), steps[1..], id, process, key, bound);
    }
  }

  /** Some way of going on gives search `id` an answer older than `bound`. */
  ghost predicate CanBeServedOld(s: State, id: nat, bound: nat) {
    exists steps :: Legal(s, steps) && ServedOld(Exec(s, steps), id, bound)
  }

  predicate ServedOld(s: State, id: nat, bound: nat) {
    id in s.searches && s.searches[id].phase.Returned? && OlderThan(s.searches[id].phase.response, bound)
  }

  lemma ServedOldAfter(s: State, step: Step, id: nat, bound: nat)
    requires Guard(s, step) && CanBeServedOld(Next(s, step), id, bound)
    ensures CanBeServedOld(s, id, bound)
  {
    var rest :| Legal(Next(s, step), rest) && ServedOld(Exec(Next(s, step), rest), id, bound);
    var steps := [step] + rest;
    assert steps[1..] == rest;
    assert Legal(s, steps);
  }

  lemma ServedOldNow(s: State, id: nat, bound: nat)
    requires ServedOld(s, id, bound)
    ensures CanBeServedOld(s, id, bound)
  {
    assert Legal(s, []) && Exec(s, []) == s;
  }

  /** There is always a future that is not in use. */
  lemma FreshToken(used: set<nat>) returns (token: nat)
    ensures token !in used
    ensures forall t :: t in used ==> t < token
    decreases used
  {
    if used == {} {
      token := 0;
    } else {
      var t :| t in used;
      var rest := used - {t};
      var above := FreshToken(rest);
      token := if above <= t then t + 1 else above;
      assert forall u :: u in used ==> u == t || u in rest;
    }
  }

  lemma HitsTheCache(s: State, id: nat, bound: nat)
    requires id in s.searches && s.searches[id].phase.HasGeneration?
    requires var key := KeyOf(s.searches[id], s.searches[id].phase.generation);
             key in s.cache && OlderThan(s.cache[key], bound)
    ensures CanBeServedOld(s, id, bound)
  {
    var token := FreshToken(s.futures.Keys);
    var s1 := Next(s, LookUp(id, true));
    var s2 := Next(s1, Resume(id, token));
    ServedOldNow(s2, id, bound);
    ServedOldAfter(s1, Resume(id, token), id, bound);
    ServedOldAfter(s, LookUp(id, true), id, bound);
  }

  /** A search that follows a leader about to finish is given that leader's answer. */
  lemma FollowerIsServed(s: State, id: nat, j: nat, bound: nat)
    requires id in s.searches && j in s.searches && s.searches[id].phase.Following? && s.searches[j].phase.Filled?
    requires s.searches[id].phase.future == s.searches[j].phase.future && s.searches[j].phase.future in s.futures
    requires OlderThan(s.searches[j].phase.response, bound)
    ensures CanBeServedOld(s, id, bound)
  {
    var s1 := Next(s, Finish(j));
    var s2 := Next(s1, Wake(id));
    ServedOldNow(s2, id, bound);
    ServedOldAfter(s1, Wake(id), id, bound);
    ServedOldAfter(s, Finish(j), id, bound);
  }

  lemma FollowsTheLeader(s: State, id: nat, j: nat, bound: nat)
    requires id in s.searches && s.searches[id].phase.HasGeneration? && j in s.searches
    requires AboutToFinish(s.searches[j], s.searches[id].process,
                           KeyOf(s.searches[id], s.searches[id].phase.generation), bound)
    requires SearchFlight(s.inflight, s.futures, j, s.searches[j])
    ensures CanBeServedOld(s, id, bound)
  {
    var token := FreshToken(s.futures.Keys);
    var s1 := Next(s, LookUp(id, false));
    var s2 := Next(s1, Resume(id, token));
    assert s2.searches[id].phase == Following(s.searches[id].phase.generation, s.searches[j].phase.future);
    FollowerIsServed(s2, id, j, bound);
    ServedOldAfter(s1, Resume(id, token), id, bound);
    ServedOldAfter(s, LookUp(id, false), id, bound);
  }

  lemma AroundCanBeServed(s: State, id: nat, bound: nat)
    requires Flight(s.inflight, s.futures, s.searches) && id in s.searches && s.searches[id].phase.HasGeneration?
    requires var q := s.searches[id]; OldAnswerAround(s, q.process, KeyOf(q, q.phase.generation), bound)
    ensures CanBeServedOld(s, id, bound)
  {
    var q := s.searches[id];
    var key := KeyOf(q, q.phase.generation);
    if key in s.cache && OlderThan(s.cache[key], bound) {
      HitsTheCache(s, id, bound);
    } else {
      var j :| j in s.searches && HoldsOld(s.searches[j], q.process, key, bound);
      if AboutToFill(s.searches[j], key, bound) {
        HitsTheCache(Next(s, Fill(j, true)), id, bound);
        ServedOldAfter(s, Fill(j, true), id, bound);
      } else {
        FollowsTheLeader(s, id, j, bound);
      }
    }
  }

  /** A search that has its generation can still be given an answer older than `bound` exactly when such
      an answer is around. */
  lemma ServedOldExactlyWhenAround(s: State, id: nat, bound: nat)
    requires Inv(s) && id in s.searches && s.searches[id].phase.HasGeneration? && bound < |s.world.contents|
    ensures var q := s.searches[id];
            CanBeServedOld(s, id, bound) <==> OldAnswerAround(s, q.process, KeyOf(q, q.phase.generation), bound)
  {
    var q := s.searches[id];
    var key := KeyOf(q, q.phase.generation);
    if OldAnswerAround(s, q.process, key, bound) {
      AroundCanBeServed(s, id, bound);
    } else {
      forall steps | Legal(s, steps)
        ensures !ServedOld(Exec(s, steps), id, bound)
      {
        NothingOldStays(s, steps, id, q.process, key, bound);
      }
    }
  }

  /** An old answer in the cache and with no leader cannot be served once the cache has dropped it. */
  lemma DroppingEndsOldAnswers(s: State, id: nat, bound: nat)
    requires Inv(s) && id in s.searches && s.searches[id].phase.HasGeneration? && bound < |s.world.contents|
    requires KeyOf(s.searches[id], s.searches[id].phase.generation) in s.cache
    requires forall j :: j in s.searches ==>
               var q := s.searches[id];
               !HoldsOld(s.searches[j], q.process, KeyOf(q, q.phase.generation), bound)
    ensures var key := KeyOf(s.searches[id], s.searches[id].phase.generation);
            && (OlderThan(s.cache[key], bound) ==> CanBeServedOld(s, id, bound))
            && !CanBeServedOld(Next(s, Forget(key)), id, bound)
  {
    var key := KeyOf(s.searches[id], s.searches[id].phase.generation);
    ServedOldExactlyWhenAround(s, id, bound);
    StepKeeps(s, Forget(key));
    ServedOldExactlyWhenAround(Next(s, Forget(key)), id, bound);
  }

  /** The generation the search works with is that of batch `b`'s bump or a later one. */
  predicate CoversBatch(w: World, q: Search, b: nat) {
    && q.phase.HasGeneration? && q.tenant !in w.lapsed
    && b in w.batches && q.tenant in w.batches[b].bumps && w.batches[b].bumps[q.tenant] <= q.phase.generation
  }

  /** A generation that covers a batch leaves no answer older than the batch around, and that of a search
      whose counter can be depended on covers every batch it started after. */
  lemma CoveringGenerationExcludesOldAnswers(s: State, id: nat, b: nat)
    requires Inv(s) && id in s.searches && s.searches[id].phase.HasGeneration?
    ensures b in s.searches[id].seen ==> b in s.world.batches && s.world.batches[b].epoch < |s.world.contents|
    ensures b in s.searches[id].seen && Dependable(s, id) ==> CoversBatch(s.world, s.searches[id], b)
    ensures CoversBatch(s.world, s.searches[id], b) ==>
              var q := s.searches[id];
              !OldAnswerAround(s, q.process, KeyOf(q, q.phase.generation), s.world.batches[b].epoch)
  {
    var q := s.searches[id];
    assert SearchFresh(s.world, q);
    if CoversBatch(s.world, q, b) {
      forall j | j in s.searches
        ensures !HoldsOld(s.searches[j], q.process, KeyOf(q, q.phase.generation), s.world.batches[b].epoch)
      {
        assert SearchFresh(s.world, s.searches[j]);
      }
    }
  }

  /** In every interleaving: a search that has read its counter and started after batch `b` had bumped
      its tenant can be given an answer older than that batch's write exactly when one is around under
      the generation it read. None is when that generation covers the batch, which it does while the
      counter can be depended on. */
  lemma OldAnswersServedExactly(index: Index, normalize: Normalizer, steps: seq<Step>, id: nat, b: nat)
    requires Legal(Initial(index, normalize), steps)
    requires var s := Exec(Initial(index, normalize), steps);
             id in s.searches && s.searches[id].phase.HasGeneration? && b in s.searches[id].seen
    ensures var s := Exec(Initial(index, normalize), steps);
            var q := s.searches[id];
            && b in s.world.batches
            && var around := OldAnswerAround(s, q.process, KeyOf(q, q.phase.generation), s.world.batches[b].epoch);
               && (CanBeServedOld(s, id, s.world.batches[b].epoch) <==> around)
               && (CoversBatch(s.world, q, b) ==> !around) && (Dependable(s, id) ==> CoversBatch(s.world, q, b))
  {
    ReachableStates(index, normalize, steps);
    var s := Exec(Initial(index, normalize), steps);
    CoveringGenerationExcludesOldAnswers(s, id, b);
    ServedOldExactlyWhenAround(s, id, s.world.batches[b].epoch);
  }

  // ---------------------------------------------------------------- cancelled leaders

  /** The search waits for a future whose leader was cancelled. */
  ghost predicate Stranded(s: State, id: nat) {
    && id in s.searches && s.searches[id].phase.Following?
    && var f := s.searches[id].phase.future;
       && f in s.futures && s.futures[f].leader in s.searches
       && s.searches[s.futures[f].leader].phase == Cancelled(Some(f))
  }

  ghost predicate Abandoned(s: State, id: nat) {
    id in s.searches && s.searches[id].phase == Cancelled(None)
  }

  lemma StrandedStep(s: State, step: Step, id: nat)
    requires Guard(s, step) && Stranded(s, id)
    requires s.futures[s.searches[id].phase.future].completion.Open?
    requires step.QueryFails? || step.Finish? ==> Owns(s.futures, step.id, s.searches[step.id].phase.future)
    ensures Stranded(Next(s, step), id) || Abandoned(Next(s, step), id)
  {
    var f := s.searches[id].phase.future;
    var leader := s.futures[f].leader;
    match step
    case Start(_, _, _, _) =>
    case Resume(_, _) =>
    case Query(i) => assert i != leader && i != id;
    case QueryFails(i) => assert i != leader && i != id && s.searches[i].phase.future != f;
    case Finish(i) => assert i != leader && i != id && s.searches[i].phase.future != f;
    case Wake(i) => assert i != leader && i != id;
    case Cancel(i) => assert i != leader;
    case _ =>
  }

  lemma StrandedStays(s: State, step: Step, id: nat)
    requires Inv(s) && Guard(s, step) && Stranded(s, id)
    ensures Stranded(Next(s, step), id) || Abandoned(Next(s, step), id)
  {
    InvFacts(s, s.futures[s.searches[id].phase.future].leader);
    if step.QueryFails? || step.Finish? {
      InvFacts(s, step.id);
    }
    StrandedStep(s, step, id);
  }

  lemma AbandonedStays(s: State, step: Step, id: nat)
    requires Guard(s, step) && Abandoned(s, id)
    ensures Abandoned(Next(s, step), id)
  {}

  lemma UnsettledNow(s: State, id: nat)
    requires Stranded(s, id) || Abandoned(s, id)
    ensures id in s.searches && !s.searches[id].phase.Returned? && !s.searches[id].phase.Raised?
  {}

  /** Whatever happens next, a follower of a cancelled leader gets neither answer nor error. */
  lemma {:induction false} CancelledLeaderStrandsFollowers(s: State, steps: seq<Step>, id: nat)
    requires Inv(s) && Legal(s, steps)
    requires Stranded(s, id) || Abandoned(s, id)
    ensures Stranded(Exec(s, steps), id) || Abandoned(Exec(s, steps), id)
    decreases |steps|
  {
    if steps != [] {
      StepKeeps(s, steps[0]);
      if Stranded(s, id) {
        StrandedStays(s, steps[0], id);
      } else {
        AbandonedStays(s, steps[0], id);
      }
      CancelledLeaderStrandsFollowers(Next(s, steps[0]), steps[1..], id);
    }
  }

  ghost predicate CanSettle(s: State, id: nat) {
    exists steps :: Legal(s, steps) && id in Exec(s, steps).searches
                    && (Exec(s, steps).searches[id].phase.Returned? || Exec(s, steps).searches[id].phase.Raised?)
  }

  lemma SettlesAfter(s: State, step: Step, id: nat)
    requires Guard(s, step) && CanSettle(Next(s, step), id)
    ensures CanSettle(s, id)
  {
    var rest :| Legal(Next(s, step), rest) && id in Exec(Next(s, step), rest).searches
                && (Exec(Next(s, step), rest).searches[id].phase.Returned?
                    || Exec(Next(s, step), rest).searches[id].phase.Raised?);
    var steps := [step] + rest;
    assert steps[1..] == rest;
    assert Legal(s, steps);
  }

  lemma SettledNow(s: State, id: nat)
    requires id in s.searches && (s.searches[id].phase.Returned? || s.searches[id].phase.Raised?)
    ensures CanSettle(s, id)
  {
    assert Legal(s, []) && Exec(s, []) == s;
  }

  function Rank(phase: Phase): nat {
    match phase
    case Leading(_, _) => 3
    case Answered(_, _, _) => 2
    case Filled(_, _, _) => 1
    case _ => 0
  }

  /** What the leader of a future does next. */
  function NextOf(phase: Phase, leader: nat): Step
    requires Leads(phase)
  {
    match phase
    case Leading(_, _) => Query(leader)
    case Answered(_, _, _) => Fill(leader, true)
    case Filled(_, _, _) => Finish(leader)
  }

  /** The search waits for a future that is completed, or whose leader is running. */
  ghost predicate Served(s: State, id: nat) {
    && s.world.contents != [] && id in s.searches && s.searches[id].phase.Following?
    && var f := s.searches[id].phase.future;
       f in s.futures && s.futures[f].leader in s.searches
       && (s.futures[f].completion.Open? ==>
             Leads(s.searches[s.futures[f].leader].phase) && s.searches[s.futures[f].leader].phase.future == f)
  }

  lemma FollowersAreServedOrStranded(s: State, id: nat)
    requires Inv(s) && id in s.searches && s.searches[id].phase.Following? && !Stranded(s, id)
    ensures Served(s, id)
  {
    var f := s.searches[id].phase.future;
    InvFacts(s, id);
    assert FutureFlight(s.searches, f, s.futures[f]);
  }

  lemma {:induction false} RunningLeaderAnswers(s: State, id: nat)
    requires Served(s, id)
    ensures CanSettle(s, id)
    decreases var future := s.futures[s.searches[id].phase.future];
              if future.completion.Open? then Rank(s.searches[future.leader].phase) else 0
  {
    var f := s.searches[id].phase.future;
    if !s.futures[f].completion.Open? {
      SettledNow(Next(s, Wake(id)), id);
      SettlesAfter(s, Wake(id), id);
    } else {
      var leader := s.futures[f].leader;
      var step := NextOf(s.searches[leader].phase, leader);
      assert id != leader;
      assert Served(Next(s, step), id);
      RunningLeaderAnswers(Next(s, step), id);
      SettlesAfter(s, step, id);
    }
  }

  /** A follower can still be answered exactly when its leader was not cancelled. */
  lemma FollowerSettlesExactlyWhenNotStranded(s: State, id: nat)
    requires Inv(s) && id in s.searches && s.searches[id].phase.Following?
    ensures CanSettle(s, id) <==> !Stranded(s, id)
  {
    if Stranded(s, id) {
      forall steps | Legal(s, steps)
        ensures id in Exec(s, steps).searches
        ensures !Exec(s, steps).searches[id].phase.Returned? && !Exec(s, steps).searches[id].phase.Raised?
      {
        CancelledLeaderStrandsFollowers(s, steps, id);
        UnsettledNow(Exec(s, steps), id);
      }
    } else {
      FollowersAreServedOrStranded(s, id);
      RunningLeaderAnswers(s, id);
    }
  }

  // ---------------------------------------------------------------- an unreadable or lost counter

  const ASKED := Request("report", 1, 10, false, true, false)

  const LEAD: seq<Step> := [Start(0, 0, "acme", ASKED), ReadGeneration(0, true), LookUp(0, true), Resume(0, 0)]

  const FILL: seq<Step> := [Query(0), Fill(0, true), Finish(0)]

  const WRITE_THEN_BUMP: seq<Step> := [Write(0, map[]), Bump(0, "acme")]

  function LaterSearch(readable: bool): seq<Step> {
    [Start(1, 0, "acme", ASKED), ReadGeneration(1, readable), LookUp(1, true), Resume(1, 1)]
  }

  lemma RunTail(s: State, steps: seq<Step>, k: nat)
    requires k < |steps| && Guard(s, steps[k]) && Legal(Next(s, steps[k]), steps[k + 1..])
    ensures Legal(s, steps[k..]) && Exec(s, steps[k..]) == Exec(Next(s, steps[k]), steps[k + 1..])
  {
    assert steps[k..][1..] == steps[k + 1..];
  }

  lemma {:induction false} ExecConcat(s: State, a: seq<Step>, b: seq<Step>)
    requires Legal(s, a) && Legal(Exec(s, a), b)
    ensures Legal(s, a + b) && Exec(s, a + b) == Exec(Exec(s, a), b)
    decreases |a|
  {
    if a == [] {
      assert a + b == b;
    } else {
      assert (a + b)[1..] == a[1..] + b;
      ExecConcat(Next(s, a[0]), a[1..], b);
    }
  }

  function OldAnswer(normal: Request): Response { Response("acme", ASKED, normal, 0) }

  function OldKey(normal: Request): Key { Key("acme", 0, normal) }

  predicate OldAnswerCached(s: State) {
    var normal := s.world.normalize(ASKED);
    OldKey(normal) in s.cache && s.cache[OldKey(normal)] == OldAnswer(normal)
  }

  function LedSearch(normalize: Normalizer): State {
    var key := OldKey(normalize(ASKED));
    State(World([map[]], map[], map[], {}, normalize), map[], map[(0, key) := 0], map[0 := Future(0, key, 0, Open)],
          map[0 := Search(0, "acme", ASKED, normalize(ASKED), {}, false, Leading(0, 0))])
  }

  lemma ASearchLeads(normalize: Normalizer)
    ensures Legal(Initial(map[], normalize), LEAD) && Exec(Initial(map[], normalize), LEAD) == LedSearch(normalize)
  {
    var s0 := Initial(map[], normalize);
    var s1 := Next(s0, LEAD[0]);
    var s2 := Next(s1, LEAD[1]);
    var s3 := Next(s2, LEAD[2]);
    assert s1.searches[0].seen == {};
    assert s3.searches == map[0 := Search(0, "acme", ASKED, normalize(ASKED), {}, false, LookedUp(0, None))];
    var s4 := Next(s3, LEAD[3]);
    var led := LedSearch(normalize);
    assert s4.searches == led.searches && s4.futures == led.futures && s4.inflight == led.inflight;
    RunTail(s3, LEAD, 3);
    RunTail(s2, LEAD, 2);
    RunTail(s1, LEAD, 1);
    RunTail(s0, LEAD, 0);
    assert LEAD[0..] == LEAD;
  }

  lemma AnAnswerIsCached(normalize: Normalizer)
    ensures Legal(LedSearch(normalize), FILL)
    ensures var s := Exec(LedSearch(normalize), FILL);
            s.world == LedSearch(normalize).world && s.searches.Keys == {0} && s.futures.Keys == {0}
            && OldAnswerCached(s)
  {
    var s1 := Next(LedSearch(normalize), FILL[0]);
    assert s1.searches[0].phase == Answered(0, 0, OldAnswer(normalize(ASKED)));
    var s2 := Next(s1, FILL[1]);
    assert s2.cache[OldKey(normalize(ASKED))] == OldAnswer(normalize(ASKED));
    RunTail(s2, FILL, 2);
    RunTail(s1, FILL, 1);
    RunTail(LedSearch(normalize), FILL, 0);
    assert FILL[0..] == FILL;
  }

  /** No batch has been written and no counter bumped. */
  predicate Untouched(w: World) {
    |w.contents| == 1 && w.counters == map[] && w.batches == map[] && w.lapsed == {}
  }

  lemma WriteThenBump(s: State)
    requires Untouched(s.world)
    ensures Guard(s, Write(0, map[])) && Guard(Next(s, Write(0, map[])), Bump(0, "acme"))
    ensures var s' := Next(Next(s, Write(0, map[])), Bump(0, "acme"));
            && s' == s.(world := s'.world) && s'.world.batches == map[0 := Batch(1, map["acme" := 1])]
            && "acme" in s'.world.counters && s'.world.lapsed == {} && s'.world.normalize == s.world.normalize
  {
    var s1 := Next(s, Write(0, map[]));
    assert s1.world.batches == map[0 := Batch(1, map[])] && Count(s1.world, "acme") == 0;
  }

  lemma ABatchComesAfter(s: State)
    requires Untouched(s.world)
    ensures Legal(s, WRITE_THEN_BUMP)
    ensures var s' := Exec(s, WRITE_THEN_BUMP);
            && s' == s.(world := s'.world) && s'.world.batches == map[0 := Batch(1, map["acme" := 1])]
            && "acme" in s'.world.counters && s'.world.lapsed == {} && s'.world.normalize == s.world.normalize
  {
    WriteThenBump(s);
    var s1 := Next(s, WRITE_THEN_BUMP[0]);
    RunTail(s1, WRITE_THEN_BUMP, 1);
    RunTail(s, WRITE_THEN_BUMP, 0);
    assert WRITE_THEN_BUMP[0..] == WRITE_THEN_BUMP;
  }

  const ANSWER_THEN_BATCH := LEAD + FILL + WRITE_THEN_BUMP

  lemma AnOldAnswerIsCached(normalize: Normalizer)
    ensures Legal(Initial(map[], normalize), ANSWER_THEN_BATCH)
    ensures var s := Exec(Initial(map[], normalize), ANSWER_THEN_BATCH);
            && s.world.batches == map[0 := Batch(1, map["acme" := 1])]
            && "acme" in s.world.counters && s.world.lapsed == {}
            && 1 !in s.searches && 1 !in s.futures && OldAnswerCached(s)
  {
    var s0 := Initial(map[], normalize);
    ASearchLeads(normalize);
    AnAnswerIsCached(normalize);
    ExecConcat(s0, LEAD, FILL);
    ABatchComesAfter(Exec(s0, LEAD + FILL));
    ExecConcat(s0, LEAD + FILL, WRITE_THEN_BUMP);
  }

  /** Search 1 started after batch 0 had bumped its tenant and was given an older answer. */
  predicate ServedStale(s: State) {
    && 1 in s.searches && s.searches[1].phase.Returned? && 0 in s.searches[1].seen && 0 in s.world.batches
    && s.searches[1].phase.response.epoch < s.world.batches[0].epoch
  }

  /** The hypothesis on the counter read is needed: a search whose read fails falls back to
      generation 0 and may be given an answer older than a batch it started after. */
  lemma UnreadableCounterCanServeOldAnswers(normalize: Normalizer)
    ensures Legal(Initial(map[], normalize), ANSWER_THEN_BATCH + LaterSearch(false))
    ensures var s := Exec(Initial(map[], normalize), ANSWER_THEN_BATCH + LaterSearch(false));
            ServedStale(s) && s.world.lapsed == {}
  {
    AnOldAnswerIsCached(normalize);
    LaterSearchHitsIt(Exec(Initial(map[], normalize), ANSWER_THEN_BATCH), false);
    ExecConcat(Initial(map[], normalize), ANSWER_THEN_BATCH, LaterSearch(false));
  }

  const LOSE_THE_COUNTER: seq<Step> := [Lapse("acme")]

  /** So is the hypothesis that the counter has not lapsed: a dropped counter starts again at 0. */
  lemma LapsedCounterCanServeOldAnswers(normalize: Normalizer)
    ensures Legal(Initial(map[], normalize), ANSWER_THEN_BATCH + LOSE_THE_COUNTER + LaterSearch(true))
    ensures var s := Exec(Initial(map[], normalize), ANSWER_THEN_BATCH + LOSE_THE_COUNTER + LaterSearch(true));
            ServedStale(s) && !s.searches[1].degraded
  {
    AnOldAnswerIsCached(normalize);
    var s0, s := Initial(map[], normalize), Exec(Initial(map[], normalize), ANSWER_THEN_BATCH);
    RunTail(s, LOSE_THE_COUNTER, 0);
    assert LOSE_THE_COUNTER[0..] == LOSE_THE_COUNTER;
    ExecConcat(s0, ANSWER_THEN_BATCH, LOSE_THE_COUNTER);
    LaterSearchHitsIt(Next(s, Lapse("acme")), true);
    ExecConcat(s0, ANSWER_THEN_BATCH + LOSE_THE_COUNTER, LaterSearch(true));
  }

  lemma LaterSearchHitsIt(s: State, readable: bool)
    requires 1 !in s.searches && 1 !in s.futures && s.world.batches == map[0 := Batch(1, map["acme" := 1])]
    requires OldAnswerCached(s) && (readable ==> Count(s.world, "acme") == 0)
    ensures Legal(s, LaterSearch(readable))
    ensures var s' := Exec(s, LaterSearch(readable));
            && s'.world == s.world && 1 in s'.searches && 0 in s'.searches[1].seen
            && s'.searches[1].phase == Returned(0, OldAnswer(s.world.normalize(ASKED)), Hit)
            && s'.searches[1].degraded == !readable
  {
    var steps := LaterSearch(readable);
    var s1 := Next(s, steps[0]);
    var s2 := Next(s1, steps[1]);
    var s3 := Next(s2, steps[2]);
    assert s3.searches[1].phase == LookedUp(0, Some(OldAnswer(s.world.normalize(ASKED))));
    RunTail(s3, steps, 3);
    RunTail(s2, steps, 2);
    RunTail(s1, steps, 1);
    RunTail(s, steps, 0);
    assert steps[0..] == steps;
  }

  // ---------------------------------------------------------------- a stranded follower

  const CANCEL_THE_LEADER: seq<Step> := [Cancel(0)]

  function LedAndFollowed(normalize: Normalizer): State {
    var led := LedSearch(normalize);
    led.(searches := led.searches[1 := Search(0, "acme", ASKED, normalize(ASKED), {}, false, Following(0, 0))])
  }

  lemma ASearchFollows(normalize: Normalizer)
    ensures Legal(LedSearch(normalize), LaterSearch(true))
    ensures Exec(LedSearch(normalize), LaterSearch(true)) == LedAndFollowed(normalize)
  {
    var steps := LaterSearch(true);
    var s1 := Next(LedSearch(normalize), steps[0]);
    assert s1.searches[1].seen == {};
    var s2 := Next(s1, steps[1]);
    var s3 := Next(s2, steps[2]);
    assert s3.searches[1] == Search(0, "acme", ASKED, normalize(ASKED), {}, false, LookedUp(0, None));
    var s4 := Next(s3, steps[3]);
    assert s4.searches == LedAndFollowed(normalize).searches;
    RunTail(s3, steps, 3);
    RunTail(s2, steps, 2);
    RunTail(s1, steps, 1);
    RunTail(LedSearch(normalize), steps, 0);
    assert steps[0..] == steps;
  }

  /** One search leads, one follows, the leader is cancelled: the follower is stranded. */
  lemma AFollowerIsStranded(normalize: Normalizer)
    ensures Legal(Initial(map[], normalize), LEAD + LaterSearch(true) + CANCEL_THE_LEADER)
    ensures Stranded(Exec(Initial(map[], normalize), LEAD + LaterSearch(true) + CANCEL_THE_LEADER), 1)
  {
    var s0 := Initial(map[], normalize);
    ASearchLeads(normalize);
    ASearchFollows(normalize);
    ExecConcat(s0, LEAD, LaterSearch(true));
    RunTail(LedAndFollowed(normalize), CANCEL_THE_LEADER, 0);
    assert CANCEL_THE_LEADER[0..] == CANCEL_THE_LEADER;
    ExecConcat(s0, LEAD + LaterSearch(true), CANCEL_THE_LEADER);
  }
}
