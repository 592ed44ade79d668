/** The in-process cache with expiring entries, the fail-open client around it, and how long a
    generation counter kept in it can be trusted. Times are seconds. */
module Cache {
  import opened Documents

  /** What converting a decoded JSON value to an integer gives: an integer (of a boolean, of a number
      with a fraction, of a string of digits), nothing, or, for infinity, an error nobody catches. */
  datatype Conversion = Integer(n: int) | NoInteger | Overflows

  /** Stored text by what its readers make of it: a decimal number, JSON `null`, another JSON text, or
      text that is not JSON, of which an increment may still make an integer (leading zeros, a sign). */
  datatype Payload =
    | Number(n: int)
    | Null
    | Json(text: string, conversion: Conversion)
    | Garbage(text: string, asInteger: Option<int>)

  datatype Entry = Entry(value: Payload, expiresAt: real)

  type Store = map<string, Entry>

  const COUNTER_TTL := 86400.0

  predicate Expired(e: Entry, now: real) { e.expiresAt < now }

  function Visible(store: Store, key: string, now: real): Option<Payload> {
    if key in store && !Expired(store[key], now) then Some(store[key].value) else None
  }

  /** The number an increment starts from: a missing entry and empty text count as 0, and text that
      is not an integer cannot be incremented. */
  function Counted(found: Option<Payload>): Option<int> {
    match found
    case None => Some(0)
    case Some(Number(n)) => Some(n)
    case Some(Null) => None
    case Some(Json(_, _)) => None
    case Some(Garbage(text, asInteger)) => if text == "" then Some(0) else asInteger
  }

  /** The generation a search takes from the counter; `None` is the uncaught error. */
  function GenerationOf(found: Option<Payload>): Option<int> {
    match found
    case Some(Number(n)) => Some(n)
    case Some(Json(_, Integer(n))) => Some(n)
    case Some(Json(_, Overflows)) => None
    case _ => Some(0)
  }

  /** What a reader of JSON gets: `null` and text that is not JSON are misses. */
  function Decoded(found: Option<Payload>): Option<Payload> {
    if found.Some? && (found.value.Null? || found.value.Garbage?) then None else found
  }

  // ---------------------------------------------------------------- the cache

  /** The operations that reach the backend, with the clock each of them reads. */
  datatype Op =
    | Get(key: string, now: real)
    | Set(key: string, value: Payload, ttl: real, now: real)
    | Delete(key: string, now: real)
    | Incr(key: string, now: real, later: real)

  /** Reading an expired entry drops it. */
  function AfterGet(store: Store, key: string, now: real): Store {
    if key in store && Expired(store[key], now) then store - {key} else store
  }

  /** Reading JSON drops text that is not JSON as well. */
  function AfterGetJson(store: Store, key: string, now: real): Store {
    if key in store && (Expired(store[key], now) || store[key].value.Garbage?) then store - {key} else store
  }

  function Step(store: Store, op: Op): Store {
    match op
    case Get(key, now) => AfterGet(store, key, now)
    case Set(key, value, ttl, now) => store[key := Entry(value, now + ttl)]
    case Delete(key, _) => store - {key}
    case Incr(key, now, later) =>
      var read, from := AfterGet(store, key, now), Counted(Visible(store, key, now));
      if from.None? then read else read[key := Entry(Number(from.value + 1), later + COUNTER_TTL)]
  }

  class InMemoryCache {
    var store: Store
    var available: bool
    var setCalls: nat

    constructor ()
      ensures store == map[] && available && setCalls == 0
    {
      store, available, setCalls := map[], true, 0;
    }

    /** The outer `None` is the raised connection error. */
    method Read(key: string, now: real) returns (r: Option<Option<Payload>>)
      modifies this`store
      ensures r == if available then Some(Visible(old(store), key, now)) else None
      ensures store == if available then Step(old(store), Get(key, now)) else old(store)
      // An entry is there until its expiry has passed; a reader of one past it takes it away.
      ensures available && key in old(store) && now <= old(store)[key].expiresAt ==>
                r == Some(Some(old(store)[key].value)) && store == old(store)
      ensures available && !(key in old(store) && now <= old(store)[key].expiresAt) ==>
                r == Some(None) && store == old(store) - {key}
    {
      if !available {
        return None;
      }
      if key !in store {
        return Some(None);
      }
      var entry := store[key];
      if entry.expiresAt < now {
        store := store - {key};
        return Some(None);
      }
      return Some(Some(entry.value));
    }

    method Write(key: string, value: Payload, ttl: real, now: real) returns (ok: bool)
      modifies this`store, this`setCalls
      ensures ok == available
      ensures store == if available then Step(old(store), Set(key, value, ttl, now)) else old(store)
      ensures available ==> store == old(store)[key := Entry(value, now + ttl)]
      ensures setCalls == old(setCalls) + if available then 1 else 0
    {
      ok := available;
      if ok {
        setCalls := setCalls + 1;
        store := store[key := Entry(value, now + ttl)];
      }
    }

    method Remove(keys: seq<string>) returns (ok: bool)
      modifies this`store
      ensures ok == available
      ensures store == if available then old(store) - Elements(keys) else old(store)
    {
      ok := available;
      if ok {
        for i := 0 to |keys|
          invariant store == old(store) - Elements(keys[..i])
        {
          store := store - {keys[i]};
        }
        assert keys[..|keys|] == keys;
      }
    }

    /** Reads, then writes back one more for a day. `None` is an error: unreachable, or not a number. */
    method Increment(key: string, now: real, later: real) returns (r: Option<int>)
      modifies this`store, this`setCalls
      ensures store == if available then Step(old(store), Incr(key, now, later)) else old(store)
      ensures r == if !available || Counted(Visible(old(store), key, now)).None? then None
                   else Some(Counted(Visible(old(store), key, now)).value + 1)
      // One more than the number that is there, or than 0 if nothing is, for a day.
      ensures available && key in old(store) && now <= old(store)[key].expiresAt && old(store)[key].value.Number? ==>
                var n := old(store)[key].value.n;
                r == Some(n + 1) && store == old(store)[key := Entry(Number(n + 1), later + 86400.0)]
      ensures available && !(key in old(store) && now <= old(store)[key].expiresAt) ==>
                r == Some(1) && store == old(store)[key := Entry(Number(1), later + 86400.0)]
    {
      if !available {
        return None;
      }
      var found := Read(key, now);
      var from := Counted(found.value);
      if from.None? {
        return None;
      }
      var _ := Write(key, Number(from.value + 1), COUNTER_TTL, later);
      return Some(from.value + 1);
    }
  }

  /** Fail-open: an error reads as a miss, and unreadable text is dropped and reads as a miss. */
  class CacheClient {
    const backend: InMemoryCache

    constructor (backend: InMemoryCache)
      ensures this.backend == backend
    {
      this.backend := backend;
    }

    method GetJson(key: string, now: real) returns (value: Option<Payload>)
      modifies backend`store
      ensures value == if backend.available then Decoded(Visible(old(backend.store), key, now)) else None
      ensures backend.store == (if backend.available then AfterGetJson(old(backend.store), key, now)
                                else old(backend.store))
      // Text that is not JSON goes, and so does an entry past its expiry; nothing else does.
      ensures backend.available && key in old(backend.store) && now <= old(backend.store)[key].expiresAt ==>
                match old(backend.store)[key].value
                case Garbage(_, _) => value == None && backend.store == old(backend.store) - {key}
                case Null => value == None && backend.store == old(backend.store)
                case payload => value == Some(payload) && backend.store == old(backend.store)
      ensures !(backend.available && key in old(backend.store) && now <= old(backend.store)[key].expiresAt) ==>
                value == None
    {
      var raw := backend.Read(key, now);
      if raw.None? || raw.value.None? || raw.value.value.Null? {
        return None;
      }
      if raw.value.value.Garbage? {
        Delete([key]);
        assert Elements([key]) == {key};
        return None;
      }
      return raw.value;
    }

    method SetJson(key: string, value: Payload, ttl: real, now: real)
      modifies backend`store, backend`setCalls
      ensures backend.store == (if backend.available then Step(old(backend.store), Set(key, value, ttl, now))
                                else old(backend.store))
    {
      var _ := backend.Write(key, value, ttl, now);
    }

    method Delete(keys: seq<string>)
      modifies backend`store
      ensures backend.store == if backend.available then old(backend.store) - Elements(keys) else old(backend.store)
    {
      var _ := backend.Remove(keys);
    }

    /** An unreachable or unreadable counter reads as generation 0. */
    method CurrentGeneration(key: string, now: real) returns (generation: Option<int>)
      modifies backend`store
      ensures generation == if backend.available then GenerationOf(Visible(old(backend.store), key, now)) else Some(0)
      ensures backend.store == (if backend.available then AfterGetJson(old(backend.store), key, now)
                                else old(backend.store))
      ensures backend.available && key in old(backend.store) && now <= old(backend.store)[key].expiresAt ==>
                match old(backend.store)[key].value
                case Number(n) => generation == Some(n)
                case Json(_, Integer(n)) => generation == Some(n)
                case Json(_, Overflows) => generation == None
                case _ => generation == Some(0)
      ensures !(backend.available && key in old(backend.store) && now <= old(backend.store)[key].expiresAt) ==>
                generation == Some(0)
    {
      var value := GetJson(key, now);
      if value.None? {
        return Some(0);
      }
      match value.value
      case Number(n) => return Some(n);
      case Json(_, conversion) =>
        match conversion {
          case Integer(n) => return Some(n);
          case NoInteger => return Some(0);
          case Overflows => return None;
        }
    }
  }

  // ---------------------------------------------------------------- dropping entries lazily

  function Run(ops: seq<Op>): Store {
    if ops == [] then map[] else Step(Run(ops[..|ops| - 1]), ops[|ops| - 1])
  }

  function Ends(op: Op): real { if op.Incr? then op.later else op.now }

  /** One clock: every operation starts after the one before has ended, and all end by `now`. */
  predicate Clocked(ops: seq<Op>, now: real) {
    ops == [] ||
    (var init, last := ops[..|ops| - 1], ops[|ops| - 1];
     Clocked(init, last.now) && last.now <= Ends(last) <= now)
  }

  /** What a reader is owed: the latest write of the key, unless it was deleted or is too old. Reads
      leave no trace. */
  function Owed(ops: seq<Op>, key: string, now: real): Option<Payload> {
    if ops == [] then None
    else
      var init, last := ops[..|ops| - 1], ops[|ops| - 1];
      if last.key != key then Owed(init, key, now)
      else match last
        case Get(_, _) => Owed(init, key, now)
        case Set(_, value, ttl, t) => if now <= t + ttl then Some(value) else None
        case Delete(_, _) => None
        case Incr(_, t, later) =>
          var from := Counted(Owed(init, key, t));
          if from.None? then Owed(init, key, now)
          else if now <= later + COUNTER_TTL then Some(Number(from.value + 1)) else None
  }

  /** What is out of sight once stays out of sight until it is written again. */
  lemma DroppingIsInvisible(store: Store, key: string, k: string, now: real, later: real)
    requires now <= later
    ensures Visible(AfterGet(store, k, now), key, later) == Visible(store, key, later)
  {}

  /** The cache gives every reader what it is owed. */
  lemma {:induction false} ReadersGetWhatTheyAreOwed(ops: seq<Op>, key: string, now: real)
    requires Clocked(ops, now)
    ensures Visible(Run(ops), key, now) == Owed(ops, key, now)
  {
    if ops != [] {
      var init, last := ops[..|ops| - 1], ops[|ops| - 1];
      ClockedLater(init, last.now, now);
      ReadersGetWhatTheyAreOwed(init, key, now);
      ReadersGetWhatTheyAreOwed(init, key, last.now);
      if last.Get? || last.Incr? {
        DroppingIsInvisible(Run(init), key, last.key, last.now, now);
      }
    }
  }

  lemma ClockedLater(ops: seq<Op>, now: real, later: real)
    requires Clocked(ops, now) && now <= later
    ensures Clocked(ops, later)
  {}

  // ---------------------------------------------------------------- the generation counter

  /** The key holds a counter: it is read and incremented and nothing else. */
  predicate CounterOnly(ops: seq<Op>, key: string) {
    forall k :: 0 <= k < |ops| && ops[k].key == key ==> ops[k].Get? || ops[k].Incr?
  }

  function Bumps(ops: seq<Op>, key: string): nat {
    if ops == [] then 0
    else Bumps(ops[..|ops| - 1], key) + if ops[|ops| - 1].Incr? && ops[|ops| - 1].key == key then 1 else 0
  }

  /** No increment was followed by more than a day without another one, up to `now`. */
  predicate NeverIdle(ops: seq<Op>, key: string, now: real) {
    ops == [] ||
    (var init, last := ops[..|ops| - 1], ops[|ops| - 1];
     if last.Incr? && last.key == key then now <= last.later + COUNTER_TTL && NeverIdle(init, key, last.now)
     else NeverIdle(init, key, now))
  }

  lemma {:induction false} GenerationAgainstBumps(ops: seq<Op>, key: string, now: real)
    requires CounterOnly(ops, key)
    ensures Owed(ops, key, now).Some? ==> Owed(ops, key, now).value.Number?
    ensures GenerationOf(Owed(ops, key, now)).Some? && 0 <= GenerationOf(Owed(ops, key, now)).value <= Bumps(ops, key)
    ensures GenerationOf(Owed(ops, key, now)) == Some(Bumps(ops, key)) <==> NeverIdle(ops, key, now)
  {
    if ops != [] {
      var init, last := ops[..|ops| - 1], ops[|ops| - 1];
      assert forall k :: 0 <= k < |init| ==> init[k] == ops[k];
      assert last.key == key ==> last.Get? || last.Incr?;
      GenerationAgainstBumps(init, key, now);
      GenerationAgainstBumps(init, key, last.now);
    }
  }

  /** The generation read from this cache is the number of bumps so far, so that every bump leaves all
      earlier generations behind, exactly when the counter was never idle for more than a day. */
  lemma GenerationCountsBumpsExactly(ops: seq<Op>, key: string, now: real)
    requires Clocked(ops, now) && CounterOnly(ops, key)
    ensures GenerationOf(Visible(Run(ops), key, now)) == Some(Bumps(ops, key)) <==> NeverIdle(ops, key, now)
    ensures GenerationOf(Visible(Run(ops), key, now)).Some?
    ensures GenerationOf(Visible(Run(ops), key, now)).value <= Bumps(ops, key)
  {
    ReadersGetWhatTheyAreOwed(ops, key, now);
    GenerationAgainstBumps(ops, key, now);
  }
}
