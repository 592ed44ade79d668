/** Fail fast while a dependency keeps failing, with any number of calls in flight, and the
    counted retry inside each call. Times are seconds of one monotonic clock. */
module CircuitBreaker {
  import opened Documents
  import opened Arithmetic

  datatype Circuit = Closed | Open | HalfOpen

  datatype Settings = Settings(threshold: int, recovery: real)

  datatype Breaker = Breaker(failures: nat, openedAt: real, circuit: Circuit)

  const FRESH := Breaker(0, 0.0, Closed)

  // ---------------------------------------------------------------- the breaker

  /** What the in-flight calls do to the breaker, one critical section at a time. `Bypass` is a call
      that ended in an already classified dependency error, which is not counted. */
  datatype Event = Admission(now: real) | Success | Failure(now: real) | Bypass

  predicate Refuses(c: Settings, b: Breaker, now: real) {
    b.circuit.Open? && now - b.openedAt < c.recovery
  }

  function Step(c: Settings, b: Breaker, e: Event): Breaker {
    match e
    case Admission(now) => if b.circuit.Open? && now - b.openedAt >= c.recovery then b.(circuit := HalfOpen) else b
    case Success => b.(failures := 0, circuit := Closed)
    case Failure(now) =>
      if b.circuit.HalfOpen? || b.failures + 1 >= c.threshold then Breaker(b.failures + 1, now, Open)
      else b.(failures := b.failures + 1)
    case Bypass => b
  }

  function Run(c: Settings, log: seq<Event>): Breaker {
    if log == [] then FRESH else Step(c, Run(c, log[..|log| - 1]), log[|log| - 1])
  }

  class Guard {
    const settings: Settings
    var failures: nat
    var openedAt: real
    var circuit: Circuit

    constructor (settings: Settings)
      ensures this.settings == settings && Value() == FRESH
    {
      this.settings := settings;
      failures, openedAt, circuit := 0, 0.0, Closed;
    }

    ghost function Value(): Breaker
      reads this
    {
      Breaker(failures, openedAt, circuit)
    }

    /** False is the raised "dependency unavailable". */
    method BeforeCall(now: real) returns (admitted: bool)
      modifies this
      ensures admitted == !Refuses(settings, old(Value()), now)
      ensures Value() == Step(settings, old(Value()), Admission(now))
    {
      if circuit.Open? {
        if now - openedAt >= settings.recovery {
          circuit := HalfOpen;
        } else {
          return false;
        }
      }
      return true;
    }

    method OnSuccess()
      modifies this
      ensures Value() == Step(settings, old(Value()), Success)
    {
      failures := 0;
      circuit := Closed;
    }

    method OnFailure(now: real)
      modifies this
      ensures Value() == Step(settings, old(Value()), Failure(now))
    {
      failures := failures + 1;
      if circuit.HalfOpen? || failures >= settings.threshold {
        openedAt := now;
        circuit := Open;
      }
    }
  }

  // ---------------------------------------------------------------- what the fields mean

  /** Counted failures since the last success. */
  function FailuresSince(log: seq<Event>): nat {
    if log == [] then 0
    else match log[|log| - 1]
      case Success => 0
      case Failure(_) => FailuresSince(log[..|log| - 1]) + 1
      case _ => FailuresSince(log[..|log| - 1])
  }

  function LatestFailure(log: seq<Event>): Option<real> {
    if log == [] then None
    else match log[|log| - 1]
      case Failure(now) => Some(now)
      case _ => LatestFailure(log[..|log| - 1])
  }

  /** The counted outcomes, oldest first: true for a success. */
  function Outcomes(log: seq<Event>): seq<bool> {
    if log == [] then []
    else
      var init := Outcomes(log[..|log| - 1]);
      match log[|log| - 1]
      case Success => init + [true]
      case Failure(_) => init + [false]
      case _ => init
  }

  predicate LastFailed(outcomes: seq<bool>, n: int) {
    n <= |outcomes| && forall i :: 0 <= i < |outcomes| && |outcomes| - n <= i ==> !outcomes[i]
  }

  /** In every interleaving: the counter, the circuit and the opening time are determined by the
      outcomes so far. */
  lemma {:induction false} FieldsFollowTheOutcomes(c: Settings, log: seq<Event>)
    requires c.threshold >= 1
    ensures var b := Run(c, log);
            && b.failures == FailuresSince(log)
            && (b.circuit.Closed? <==> FailuresSince(log) < c.threshold)
            && (!b.circuit.Closed? ==> LatestFailure(log) == Some(b.openedAt))
  {
    if log != [] {
      FieldsFollowTheOutcomes(c, log[..|log| - 1]);
    }
  }

  lemma {:induction false} FailuresAreTheLastOutcomes(log: seq<Event>, n: nat)
    ensures FailuresSince(log) >= n <==> LastFailed(Outcomes(log), n)
    ensures FailuresSince(log) <= |Outcomes(log)|
  {
    if log != [] {
      var init, e, outcomes := log[..|log| - 1], log[|log| - 1], Outcomes(log[..|log| - 1]);
      FailuresAreTheLastOutcomes(init, n);
      if e.Failure? {
        assert Outcomes(log) == outcomes + [false];
        if n > 0 {
          FailuresAreTheLastOutcomes(init, n - 1);
          FailedOneMore(outcomes, n);
        }
      } else if e.Success? {
        assert Outcomes(log) == outcomes + [true];
        assert Outcomes(log)[|outcomes|];
      }
    }
  }

  lemma FailedOneMore(outcomes: seq<bool>, n: nat)
    requires n > 0
    ensures LastFailed(outcomes + [false], n) <==> LastFailed(outcomes, n - 1)
  {
    var all := outcomes + [false];
    if LastFailed(all, n) {
      forall i | 0 <= i < |outcomes| && |outcomes| - (n - 1) <= i
        ensures !outcomes[i]
      {
        assert !all[i];
      }
    }
  }

  ghost predicate Clocked(log: seq<Event>, now: real) {
    forall i :: 0 <= i < |log| && (log[i].Admission? || log[i].Failure?) ==> log[i].now <= now
  }

  /** Half open only after the recovery time has passed. */
  lemma {:induction false} HalfOpenIsLate(c: Settings, log: seq<Event>, now: real)
    requires Clocked(log, now)
    ensures Run(c, log).circuit.HalfOpen? ==> now - Run(c, log).openedAt >= c.recovery
  {
    if log != [] {
      var n := |log| - 1;
      assert forall i :: 0 <= i < n ==> log[..n][i] == log[i];
      HalfOpenIsLate(c, log[..n], now);
      assert log[n].Admission? || log[n].Failure? ==> log[n].now <= now;
    }
  }

  /** A call is refused exactly when the last `threshold` counted outcomes all failed and the latest
      failure is less than the recovery time ago. */
  lemma RefusedExactlyWhenRecentlyFailing(c: Settings, log: seq<Event>, now: real)
    requires c.threshold >= 1 && Clocked(log, now)
    ensures Refuses(c, Run(c, log), now) <==>
            && LastFailed(Outcomes(log), c.threshold)
            && LatestFailure(log).Some? && now - LatestFailure(log).value < c.recovery
  {
    FieldsFollowTheOutcomes(c, log);
    FailuresAreTheLastOutcomes(log, c.threshold);
    HalfOpenIsLate(c, log, now);
  }

  // ---------------------------------------------------------------- the retry loop

  /** Ordinary errors, already classified dependency errors, and those no handler catches. */
  datatype Kind = Plain | Classified | Fatal

  datatype Attempt<T> = Value(value: T) | Error(error: string, kind: Kind)

  /** `NoAttempt` is the failed assertion of a loop that never ran. */
  datatype Retried<T> = Done(value: T) | Gave(error: string, kind: Kind) | NoAttempt

  predicate Retries<T>(a: Attempt<T>) { a.Error? && !a.kind.Fatal? }

  function Last<T>(a: Attempt<T>): Retried<T> {
    match a
    case Value(v) => Done(v)
    case Error(e, kind) => Gave(e, kind)
  }

  /** `outcome(k)` is what the call makes of its k-th invocation. */
  method WithRetry<T>(attempts: int, outcome: nat -> Attempt<T>) returns (result: Retried<T>, calls: nat)
    ensures attempts <= 0 ==> calls == 0 && result == NoAttempt
    ensures attempts > 0 ==>
              && 1 <= calls <= attempts
              && (forall k :: 0 <= k < calls - 1 ==> Retries(outcome(k)))
              && (calls < attempts ==> !Retries(outcome(calls - 1)))
              && result == Last(outcome(calls - 1))
    // An error before the last call is one that handlers catch; calls stop early at a value or at one that
    // none does; and the caller gets what the last call gave.
    ensures forall k :: 0 <= k < calls - 1 ==> outcome(k).Error? && outcome(k).kind in {Plain, Classified}
    ensures attempts > 0 && calls < attempts ==> outcome(calls - 1).Value? || outcome(calls - 1).kind == Fatal
    ensures attempts > 0 && outcome(calls - 1).Value? ==> result == Done(outcome(calls - 1).value)
    ensures attempts > 0 && outcome(calls - 1).Error? ==>
              result == Gave(outcome(calls - 1).error, outcome(calls - 1).kind)
  {
    calls, result := 0, NoAttempt;
    while calls < attempts
      invariant calls == 0 || calls <= attempts
      invariant calls == 0 ==> result == NoAttempt
      invariant forall k :: 0 <= k < calls ==> Retries(outcome(k))
      invariant calls > 0 ==> result == Last(outcome(calls - 1))
    {
      var made := outcome(calls);
      calls, result := calls + 1, Last(made);
      if made.Value? || made.kind.Fatal? {
        return;
      }
    }
  }

  /** What a finished call reports to the breaker. */
  function Report<T>(result: Retried<T>, end: real): Event {
    match result
    case Done(_) => Success
    case Gave(_, Plain) => Failure(end)
    case Gave(_, _) => Bypass
    case NoAttempt => Failure(end)
  }

  /** A guarded call around the retry loop: `None` when refused. */
  method Call<T>(guard: Guard, attempts: int, outcome: nat -> Attempt<T>, start: real, end: real)
    returns (result: Option<Retried<T>>, calls: nat)
    modifies guard
    ensures Refuses(guard.settings, old(guard.Value()), start) ==>
              result == None && calls == 0 && guard.Value() == old(guard.Value())
    ensures !Refuses(guard.settings, old(guard.Value()), start) ==>
              && result.Some?
              && guard.Value() == Step(guard.settings, Step(guard.settings, old(guard.Value()), Admission(start)),
                                       Report(result.value, end))
    ensures result.Some? && attempts > 0 ==>
              && 1 <= calls <= attempts
              && (outcome(calls - 1).Value? ==> result.value == Done(outcome(calls - 1).value))
              && (outcome(calls - 1).Error? ==> result.value == Gave(outcome(calls - 1).error, outcome(calls - 1).kind))
    // A value closes the circuit and clears the count.
    ensures result.Some? && result.value.Done? ==> guard.failures == 0 && guard.circuit == Closed
    // An ordinary error counts, and opens the circuit at the threshold or when it was not closed.
    ensures result.Some? && (result.value.NoAttempt? || (result.value.Gave? && result.value.kind == Plain)) ==>
              && guard.failures == old(guard.failures) + 1
              && if old(guard.circuit) != Closed || guard.failures >= guard.settings.threshold
                 then guard.circuit == Open && guard.openedAt == end
                 else guard.circuit == Closed && guard.openedAt == old(guard.openedAt)
    // Any other error leaves what the admission left: an open circuit half open, the rest as it was.
    ensures result.Some? && result.value.Gave? && result.value.kind != Plain ==>
              && guard.failures == old(guard.failures) && guard.openedAt == old(guard.openedAt)
              && guard.circuit == if old(guard.circuit) == Open then HalfOpen else old(guard.circuit)
    // While the dependency always fails, an admitted call uses every attempt and counts as a failure.
    ensures attempts > 0 && (forall k :: outcome(k).Error? && outcome(k).kind.Plain?) && result.Some? ==>
              calls == attempts && Report(result.value, end) == Failure(end)
  {
    var admitted := guard.BeforeCall(start);
    if !admitted {
      return None, 0;
    }
    var made: Retried<T>;
    made, calls := WithRetry(attempts, outcome);
    match made {
      case Done(_) => guard.OnSuccess();
      case Gave(_, Plain) => guard.OnFailure(end);
      case NoAttempt => guard.OnFailure(end);
      case Gave(_, _) =>
    }
    result := Some(made);
    if attempts > 0 && calls < attempts {
      assert !Retries(outcome(calls - 1));
    }
  }

  // ---------------------------------------------------------------- a run of calls

  datatype Request = Request(start: real, end: real)

  /** Requests of sequential callers, each starting after the one before has ended. */
  ghost predicate Sequential(requests: seq<Request>) {
    && (forall i :: 0 <= i < |requests| ==> requests[i].start <= requests[i].end)
    && (forall i, j :: 0 <= i < j < |requests| ==> requests[i].end <= requests[j].start)
  }

  /** The counted outcomes of finished calls: a value is a success, an ordinary error a failure. */
  function Counted<T>(results: seq<Option<Retried<T>>>): seq<bool> {
    if results == [] then []
    else
      var before, last := Counted(results[..|results| - 1]), results[|results| - 1];
      match last
      case Some(Done(_)) => before + [true]
      case Some(NoAttempt) => before + [false]
      case Some(Gave(_, Plain)) => before + [false]
      case _ => before
  }

  /** When the latest counted failure ended. */
  function FailedLast<T>(results: seq<Option<Retried<T>>>, requests: seq<Request>): Option<real>
    requires |results| == |requests|
  {
    if results == [] then None
    else
      match results[|results| - 1]
      case Some(NoAttempt) => Some(requests[|requests| - 1].end)
      case Some(Gave(_, Plain)) => Some(requests[|requests| - 1].end)
      case _ => FailedLast(results[..|results| - 1], requests[..|requests| - 1])
  }

  /** The log of events says of the calls what their results say. */
  ghost predicate Logs<T>(log: seq<Event>, results: seq<Option<Retried<T>>>, requests: seq<Request>)
    requires |results| == |requests|
  {
    Outcomes(log) == Counted(results) && LatestFailure(log) == FailedLast(results, requests)
  }

  lemma OneMoreCall<T>(log: seq<Event>, results: seq<Option<Retried<T>>>, requests: seq<Request>,
                       result: Option<Retried<T>>, r: Request)
    requires |results| == |requests| && Logs(log, results, requests)
    ensures result == None ==> Logs(log + [Admission(r.start)], results + [result], requests + [r])
    ensures result.Some? ==>
              Logs(log + [Admission(r.start)] + [Report(result.value, r.end)], results + [result], requests + [r])
  {
    var results', requests', admitted := results + [result], requests + [r], log + [Admission(r.start)];
    assert results'[..|results|] == results && requests'[..|requests|] == requests && admitted[..|log|] == log;
    assert Outcomes(admitted) == Outcomes(log) && LatestFailure(admitted) == LatestFailure(log);
    if result.Some? {
      var reported := admitted + [Report(result.value, r.end)];
      assert reported[..|admitted|] == admitted;
    }
  }

  lemma OneMoreEvent(c: Settings, log: seq<Event>, e: Event)
    ensures Run(c, log + [e]) == Step(c, Run(c, log), e)
  {
    assert (log + [e])[..|log|] == log;
  }

  /** The last `threshold` counted results were all failures and the latest of them ended less than the
      recovery time before `start`. */
  ghost predicate FailingLately<T>(c: Settings, results: seq<Option<Retried<T>>>, requests: seq<Request>, start: real)
    requires |results| == |requests|
  {
    && LastFailed(Counted(results), c.threshold)
    && FailedLast(results, requests).Some? && start - FailedLast(results, requests).value < c.recovery
  }

  lemma RefusedExactlyWhenFailingLately<T>(c: Settings, log: seq<Event>, results: seq<Option<Retried<T>>>,
                                           requests: seq<Request>, start: real)
    requires c.threshold >= 1 && Clocked(log, start) && |results| == |requests| && Logs(log, results, requests)
    ensures Refuses(c, Run(c, log), start) <==> FailingLately(c, results, requests, start)
  {
    RefusedExactlyWhenRecentlyFailing(c, log, start);
  }

  ghost predicate RefusedAsDue<T>(c: Settings, results: seq<Option<Retried<T>>>, requests: seq<Request>)
    requires |results| == |requests|
  {
    forall i :: 0 <= i < |requests| ==>
      (results[i] == None <==> FailingLately(c, results[..i], requests[..i], requests[i].start))
  }

  lemma RefusedAsDueNext<T>(c: Settings, results: seq<Option<Retried<T>>>, requests: seq<Request>,
                            result: Option<Retried<T>>, r: Request)
    requires |results| == |requests| && RefusedAsDue(c, results, requests)
    requires result == None <==> FailingLately(c, results, requests, r.start)
    ensures RefusedAsDue(c, results + [result], requests + [r])
  {
    var results', requests' := results + [result], requests + [r];
    forall i | 0 <= i < |requests'|
      ensures results'[i] == None <==> FailingLately(c, results'[..i], requests'[..i], requests'[i].start)
    {
      assert i < |results| ==> results'[..i] == results[..i] && requests'[..i] == requests[..i];
      assert i == |results| ==> results'[..i] == results && requests'[..i] == requests;
    }
  }

  /** Calls one after the other through a new guard, `outcome(i, k)` being what comes of the k-th attempt of
      call i. A call is refused exactly when those before it were failing lately. */
  method Calls<T>(settings: Settings, attempts: int, requests: seq<Request>, outcome: (nat, nat) -> Attempt<T>)
    returns (guard: Guard, results: seq<Option<Retried<T>>>)
    requires settings.threshold >= 1 && Sequential(requests)
    ensures fresh(guard) && guard.settings == settings && |results| == |requests|
    ensures forall i :: 0 <= i < |requests| ==>
              (results[i] == None <==> FailingLately(settings, results[..i], requests[..i], requests[i].start))
  {
    guard := new Guard(settings);
    results := [];
    ghost var log: seq<Event> := [];
    for i := 0 to |requests|
      invariant fresh(guard) && guard.settings == settings && |results| == i && guard.Value() == Run(settings, log)
      invariant Logs(log, results, requests[..i])
      invariant forall j :: i <= j < |requests| ==> Clocked(log, requests[j].start)
      invariant RefusedAsDue(settings, results, requests[..i])
    {
      var r := requests[i];
      RefusedExactlyWhenFailingLately(settings, log, results, requests[..i], r.start);
      var result, _ := Call(guard, attempts, k => outcome(i, k), r.start, r.end);
      OneMoreCall(log, results, requests[..i], result, r);
      OneMoreEvent(settings, log, Admission(r.start));
      log := log + [Admission(r.start)];
      if result.Some? {
        OneMoreEvent(settings, log, Report(result.value, r.end));
        log := log + [Report(result.value, r.end)];
      }
      RefusedAsDueNext(settings, results, requests[..i], result, r);
      assert requests[..i + 1] == requests[..i] + [r];
      results := results + [result];
    }
    assert requests[..|requests|] == requests;
  }

  // ---------------------------------------------------------------- an outage

  /** A search request is retried once, inside the breaker. */
  const ATTEMPTS := 2

  /** The breaker after requests that all fail, unless refused. */
  function AfterOutage(c: Settings, b: Breaker, requests: seq<Request>): Breaker {
    if requests == [] then b
    else
      var before, r := AfterOutage(c, b, requests[..|requests| - 1]), requests[|requests| - 1];
      if Refuses(c, before, r.start) then before
      else Step(c, Step(c, before, Admission(r.start)), Failure(r.end))
  }

  /** How many of them were admitted. */
  function Admitted(c: Settings, b: Breaker, requests: seq<Request>): nat {
    if requests == [] then 0
    else
      var init := requests[..|requests| - 1];
      Admitted(c, b, init) + if Refuses(c, AfterOutage(c, b, init), requests[|requests| - 1].start) then 0 else 1
  }

  /** Calls that reach the engine. */
  function EngineCalls(c: Settings, b: Breaker, requests: seq<Request>): nat {
    ATTEMPTS * Admitted(c, b, requests)
  }

  lemma OneMoreWindow(extra: nat, recovery: real)
    ensures (extra + 1) as real * recovery == extra as real * recovery + recovery
  {
    assert (extra + 1) as real == extra as real + 1.0;
  }

  /** `extra` of the admitted requests came after the circuit opened, each a recovery time or more
      after the one before; `latest` is when the last admitted one started. */
  ghost predicate Spaced(c: Settings, b: Breaker, after: Breaker, admitted: nat, first: real, latest: real) {
    if b.failures + admitted < c.threshold then
      after.circuit.Closed? && after.failures == b.failures + admitted
    else
      && !after.circuit.Closed? && latest <= after.openedAt
      && (b.failures + admitted - c.threshold) as real * c.recovery <= latest - first
  }

  lemma AdmittedStep(c: Settings, b: Breaker, before: Breaker, admitted: nat, first: real, latest: real, r: Request)
    requires c.threshold >= 1 && c.recovery > 0.0 && b.failures < c.threshold
    requires Spaced(c, b, before, admitted, first, latest) && !Refuses(c, before, r.start) && first <= r.start <= r.end
    requires before.circuit.Closed? || before.circuit.Open?
    ensures Spaced(c, b, Step(c, Step(c, before, Admission(r.start)), Failure(r.end)), admitted + 1, first, r.start)
  {
    if b.failures + admitted >= c.threshold {
      OneMoreWindow(b.failures + admitted - c.threshold, c.recovery);
    }
  }

  lemma {:induction false} OutageIsSpaced(c: Settings, b: Breaker, requests: seq<Request>) returns (latest: real)
    requires c.threshold >= 1 && c.recovery > 0.0 && b.circuit.Closed? && b.failures < c.threshold
    requires Sequential(requests) && requests != []
    ensures latest <= requests[|requests| - 1].start
    ensures var after := AfterOutage(c, b, requests);
            && (after.circuit.Closed? || after.circuit.Open?)
            && Spaced(c, b, after, Admitted(c, b, requests), requests[0].start, latest)
  {
    var n := |requests| - 1;
    var init, r := requests[..n], requests[n];
    latest := r.start;
    if init == [] {
      AdmittedStep(c, b, b, 0, r.start, r.start, r);
    } else {
      var previous := OutageIsSpaced(c, b, init);
      assert init[n - 1] == requests[n - 1];
      assert requests[n - 1].end <= requests[n].start;
      assert requests[0].end <= requests[n].start;
      if Refuses(c, AfterOutage(c, b, init), r.start) {
        latest := previous;
      } else {
        AdmittedStep(c, b, AfterOutage(c, b, init), Admitted(c, b, init), requests[0].start, previous, r);
      }
    }
  }

  lemma WindowsFit(extra: nat, recovery: real, duration: real)
    requires recovery > 0.0 && extra as real * recovery <= duration
    ensures extra <= (duration / recovery).Floor
  {
    assert (duration / recovery) * recovery == duration;
    OrderScales(duration / recovery, extra as real, recovery);
  }

  lemma ExtraFits(c: Settings, b: Breaker, after: Breaker, admitted: nat, first: real, latest: real, duration: real)
    requires c.recovery > 0.0 && Spaced(c, b, after, admitted, first, latest) && latest - first <= duration
    requires 0.0 <= duration
    ensures b.failures + admitted - c.threshold <= (duration / c.recovery).Floor
  {
    if b.failures + admitted >= c.threshold {
      WindowsFit(b.failures + admitted - c.threshold, c.recovery, duration);
    } else {
      WindowsFit(0, c.recovery, duration);
    }
  }

  /** During an outage the engine sees two calls for each of the first `threshold` failures and two
      for each recovery time that fits in the duration, however many requests arrive. */
  lemma OutageBound(c: Settings, b: Breaker, requests: seq<Request>)
    requires c.threshold >= 1 && c.recovery > 0.0 && b.circuit.Closed? && b.failures < c.threshold
    requires Sequential(requests) && requests != []
    ensures var duration := requests[|requests| - 1].start - requests[0].start;
            EngineCalls(c, b, requests) <= ATTEMPTS * (c.threshold - b.failures + (duration / c.recovery).Floor)
  {
    var duration := requests[|requests| - 1].start - requests[0].start;
    var latest := OutageIsSpaced(c, b, requests);
    DurationNonNegative(requests);
    ExtraFits(c, b, AfterOutage(c, b, requests), Admitted(c, b, requests), requests[0].start, latest, duration);
  }

  lemma DurationNonNegative(requests: seq<Request>)
    requires Sequential(requests) && requests != []
    ensures requests[0].start <= requests[|requests| - 1].start
  {
    if |requests| > 1 {
      assert requests[0].end <= requests[|requests| - 1].start;
    }
  }

  /** `outcome(i, k)` is what the engine makes of the k-th attempt of request i: always an ordinary
      error. The calls that reach it are counted as they are made, through breaker and retry. */
  method Outage<T>(guard: Guard, requests: seq<Request>, outcome: (nat, nat) -> Attempt<T>) returns (calls: nat)
    requires forall i, k :: outcome(i, k).Error? && outcome(i, k).kind.Plain?
    modifies guard
    ensures guard.Value() == AfterOutage(guard.settings, old(guard.Value()), requests)
    ensures calls == EngineCalls(guard.settings, old(guard.Value()), requests)
    ensures guard.settings.threshold >= 1 && guard.settings.recovery > 0.0 && Sequential(requests) && requests != []
            && old(guard.circuit).Closed? && old(guard.failures) < guard.settings.threshold ==>
              var duration := requests[|requests| - 1].start - requests[0].start;
              calls <= ATTEMPTS * (guard.settings.threshold - old(guard.failures)
                                   + (duration / guard.settings.recovery).Floor)
  {
    ghost var before := guard.Value();
    calls := 0;
    for i := 0 to |requests|
      invariant guard.Value() == AfterOutage(guard.settings, before, requests[..i])
      invariant calls == EngineCalls(guard.settings, before, requests[..i])
    {
      assert requests[..i + 1][..i] == requests[..i];
      var _, made := Call(guard, ATTEMPTS, k => outcome(i, k), requests[i].start, requests[i].end);
      calls := calls + made;
    }
    assert requests[..|requests|] == requests;
    if guard.settings.threshold >= 1 && guard.settings.recovery > 0.0 && Sequential(requests) && requests != []
       && before.circuit.Closed? && before.failures < guard.settings.threshold {
      OutageBound(guard.settings, before, requests);
    }
  }
}
