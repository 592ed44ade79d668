/** Whole runs of the queue topology: the main queue, the deliveries that consumers hold, the retry
    queue and the dead-letter queue, with any number of messages and consumers, and with connection
    losses that put held deliveries back. */
module Delivery {
  import opened Documents
  import Consumer

  /** Where a published message is. `deaths` is what its x-death header adds up to; `copied` says
      that a copy went to the dead-letter queue during this delivery. */
  datatype Place = Main(deaths: nat) | Held(deaths: nat, copied: bool) | Waiting(deaths: nat) | Gone

  datatype Track = Track(place: Place, deadCopies: nat)

  datatype Step =
    | Publish(id: nat)
    | Deliver(id: nat)
    | Settle(id: nat, failed: bool)  // the verdict of a flush; dead-lettering only copies
    | AckDead(id: nat)               // the acknowledgement after the copy
    | Expire(id: nat, gain: nat)     // the retry delay is over; the header has grown
    | Lose(id: nat)                  // the consumer's connection ends before it settles

  predicate Enabled(s: map<nat, Track>, step: Step) {
    if step.Publish? then step.id !in s
    else
      && step.id in s
      && match step {
           case Publish(_) => true
           case Deliver(id) => s[id].place.Main?
           case Settle(id, _) => s[id].place.Held? && !s[id].place.copied
           case AckDead(id) => s[id].place.Held? && s[id].place.copied
           case Expire(id, gain) => s[id].place.Waiting? && gain >= 1
           case Lose(id) => s[id].place.Held?
         }
  }

  function Moved(t: Track, step: Step, maxAttempts: int): Track {
    match (step, t.place)
    case (Deliver(_), Main(d)) => t.(place := Held(d, false))
    case (Settle(_, failed), Held(d, false)) =>
      (match Consumer.VerdictFor(failed, d, maxAttempts)
       case Acknowledge => t.(place := Gone)
       case Retry => t.(place := Waiting(d))
       case DeadLetter => Track(Held(d, true), t.deadCopies + 1))
    case (AckDead(_), Held(_, true)) => t.(place := Gone)
    case (Expire(_, gain), Waiting(d)) => t.(place := Main(d + gain))
    case (Lose(_), Held(d, _)) => t.(place := Main(d))
    case _ => t
  }

  /** The step that a flush makes of a held message: its verdict is that the message's document is among
      the failed ids. */
  function Settling(m: Consumer.Message, failed: set<DocumentId>): Step {
    Settle(m.id, m.event.Some? && m.event.value.documentId in failed)
  }

  /** The consumer settles a held message as this step says: it waits for a retry exactly when the channel
      nacks it, is gone exactly when the channel acknowledges it without a copy, and stays held for the
      acknowledgement after a copy. */
  method SettleTracked(channel: Consumer.Channel, m: Consumer.Message, failed: set<DocumentId>, maxAttempts: int,
                       t: Track)
    returns (after: Track)
    requires m in channel.held && t.place.Held? && !t.place.copied && t.place.deaths == Consumer.Deaths(m.deaths)
    modifies channel
    ensures after == Moved(t, Settling(m, failed), maxAttempts)
    ensures channel.held == old(channel.held) - multiset{m}
    ensures after.place.Waiting? ==>
              && channel.retry == old(channel.retry) + multiset{m} && channel.dead == old(channel.dead)
              && channel.acknowledged == old(channel.acknowledged)
    ensures after.place.Gone? ==>
              && channel.acknowledged == old(channel.acknowledged) + multiset{m} && channel.dead == old(channel.dead)
              && channel.retry == old(channel.retry)
    ensures after.place.Held? ==>
              && after.deadCopies == t.deadCopies + 1 && Moved(after, AckDead(m.id), maxAttempts).place.Gone?
              && channel.dead == old(channel.dead) + multiset{m.(deaths := [])}
              && channel.acknowledged == old(channel.acknowledged) + multiset{m} && channel.retry == old(channel.retry)
    ensures after.place.Waiting? <==>
              m.event.Some? && m.event.value.documentId in failed && Consumer.Deaths(m.deaths) + 1 < maxAttempts
    ensures after.place.Gone? <==> !(m.event.Some? && m.event.value.documentId in failed)
    ensures !after.place.Main?
  {
    Consumer.SettleOne(channel, m, failed, maxAttempts);
    after := Moved(t, Settling(m, failed), maxAttempts);
  }

  function Next(s: map<nat, Track>, step: Step, maxAttempts: int): map<nat, Track>
    requires Enabled(s, step)
  {
    s[step.id := if step.Publish? then Track(Main(0), 0) else Moved(s[step.id], step, maxAttempts)]
  }

  predicate Legal(run: seq<Step>, maxAttempts: int)
    decreases |run|, 0
  {
    run == [] || (var init := run[..|run| - 1];
                  Legal(init, maxAttempts) && Enabled(After(init, maxAttempts), run[|run| - 1]))
  }

  /** The state after a run from an empty broker. */
  function After(run: seq<Step>, maxAttempts: int): map<nat, Track>
    requires Legal(run, maxAttempts)
    decreases |run|, 1
  {
    if run == [] then map[] else Next(After(run[..|run| - 1], maxAttempts), run[|run| - 1], maxAttempts)
  }

  /** What a run says about one message. */
  datatype Tally = Tally(steps: nat, deliveries: nat, losses: nat, cleared: bool)

  function TallyOf(run: seq<Step>, id: nat): Tally {
    if run == [] then Tally(0, 0, 0, false)
    else
      var t, last := TallyOf(run[..|run| - 1], id), run[|run| - 1];
      if last.id != id then t
      else Tally(t.steps + 1,
                 t.deliveries + (if last.Deliver? then 1 else 0),
                 t.losses + (if last.Lose? then 1 else 0),
                 t.cleared || (last.Settle? && !last.failed))
  }

  /** Published, and never found absent from the failed ids, and yet nowhere: a lost message. */
  predicate Accounted(t: Track, cleared: bool) {
    t.place.Gone? ==> t.deadCopies > 0 || cleared
  }

  /** No message is lost: at every point of every run a published message is in the main queue, held,
      waiting for a retry or copied to the dead-letter queue, or some flush found that it had not
      failed. */
  lemma {:induction false} NoMessageIsLost(run: seq<Step>, id: nat, maxAttempts: int)
    requires Legal(run, maxAttempts)
    ensures id in After(run, maxAttempts) <==> Publish(id) in run
    ensures id in After(run, maxAttempts) ==>
              var t := After(run, maxAttempts)[id];
              Accounted(t, TallyOf(run, id).cleared) && (t.place.Held? && t.place.copied ==> t.deadCopies > 0)
  {
    if run != [] {
      var init, last := run[..|run| - 1], run[|run| - 1];
      NoMessageIsLost(init, id, maxAttempts);
      assert run == init + [last];
    }
  }

  /** How far a message is, in terms of its deliveries and connection losses. */
  predicate Bounded(place: Place, t: Tally, maxAttempts: int) {
    var n, limit := t.deliveries - t.losses, Consumer.AtLeastOne(maxAttempts);
    match place
    case Main(d) => n <= d && n < limit && t.steps <= 1 + 3 * t.deliveries
    case Held(d, copied) =>
      n <= d + 1 && n <= limit && t.deliveries >= 1 && t.steps <= 3 * t.deliveries - (if copied then 0 else 1)
    case Waiting(d) => n <= d + 1 && n < limit && t.deliveries >= 1 && t.steps <= 3 * t.deliveries
    case Gone => n <= limit && t.steps <= 1 + 3 * t.deliveries
  }

  lemma TallyUntouched(run: seq<Step>, id: nat, maxAttempts: int)
    requires Legal(run, maxAttempts) && id !in After(run, maxAttempts)
    ensures TallyOf(run, id) == Tally(0, 0, 0, false)
  {
    if run != [] {
      TallyUntouched(run[..|run| - 1], id, maxAttempts);
    }
  }

  lemma BoundKept(t: Track, tally: Tally, step: Step, maxAttempts: int)
    requires Bounded(t.place, tally, maxAttempts)
    requires !step.Publish? && Enabled(map[step.id := t], step)
    ensures var next := Tally(tally.steps + 1,
                              tally.deliveries + (if step.Deliver? then 1 else 0),
                              tally.losses + (if step.Lose? then 1 else 0),
                              tally.cleared || (step.Settle? && !step.failed));
            Bounded(Moved(t, step, maxAttempts).place, next, maxAttempts)
  {}

  lemma {:induction false} EveryRunIsBounded(run: seq<Step>, id: nat, maxAttempts: int)
    requires Legal(run, maxAttempts) && id in After(run, maxAttempts)
    ensures Bounded(After(run, maxAttempts)[id].place, TallyOf(run, id), maxAttempts)
  {
    var init, last := run[..|run| - 1], run[|run| - 1];
    if last.id != id {
      EveryRunIsBounded(init, id, maxAttempts);
    } else if last.Publish? {
      TallyUntouched(init, id, maxAttempts);
    } else {
      EveryRunIsBounded(init, id, maxAttempts);
      BoundKept(After(init, maxAttempts)[id], TallyOf(init, id), last, maxAttempts);
    }
  }

  /** A message that keeps failing is delivered at most `maxAttempts` times, plus once for every time
      the connection was lost while it was held; and it takes part in only so many steps. */
  lemma DeliveriesAreBounded(run: seq<Step>, id: nat, maxAttempts: int)
    requires Legal(run, maxAttempts)
    ensures var t := TallyOf(run, id);
            var limit := if maxAttempts < 1 then 1 else maxAttempts;
            t.deliveries <= limit + t.losses && t.steps <= 1 + 3 * (limit + t.losses)
  {
    if id in After(run, maxAttempts) {
      EveryRunIsBounded(run, id, maxAttempts);
    } else {
      TallyUntouched(run, id, maxAttempts);
    }
  }

  /** A message that is not gone can always take another step that loses nothing. With the bound on
      steps: unless connections keep being lost, every message ends acknowledged, and one that always
      fails ends in the dead-letter queue. */
  lemma NeverStuck(run: seq<Step>, id: nat, maxAttempts: int) returns (step: Step)
    requires Legal(run, maxAttempts) && id in After(run, maxAttempts)
    requires !After(run, maxAttempts)[id].place.Gone?
    ensures step.id == id && !step.Lose? && Legal(run + [step], maxAttempts)
    ensures step.Settle? ==> step.failed
  {
    step := match After(run, maxAttempts)[id].place
            case Main(_) => Deliver(id)
            case Held(_, copied) => if copied then AckDead(id) else Settle(id, true)
            case Waiting(_) => Expire(id, 1);
    assert (run + [step])[..|run|] == run;
  }

  // ---------------------------------------------------------------- the exact number of deliveries

  /** Deliveries of a message that always fails when every retry trip adds `gain` to its deaths:
      one, and one more for each trip that leaves it short of the limit. */
  function AttemptsFrom(deaths: nat, maxAttempts: int, gain: nat): (n: nat)
    requires gain >= 1
    decreases maxAttempts - deaths
  {
    if deaths + 1 >= maxAttempts then 1 else 1 + AttemptsFrom(deaths + gain, maxAttempts, gain)
  }

  /** Every step about the message has it failing, each trip adds `gain`, and no connection is lost. */
  predicate Poisoned(run: seq<Step>, id: nat, gain: nat) {
    forall k :: 0 <= k < |run| && run[k].id == id ==>
      !run[k].Lose? && (run[k].Settle? ==> run[k].failed) && (run[k].Expire? ==> run[k].gain == gain)
  }

  /** The deliveries still to come. */
  function Remaining(place: Place, maxAttempts: int, gain: nat): nat
    requires gain >= 1
  {
    match place
    case Main(d) => AttemptsFrom(d, maxAttempts, gain)
    case Held(d, copied) => if copied then 0 else AttemptsFrom(d, maxAttempts, gain) - 1
    case Waiting(d) => AttemptsFrom(d + gain, maxAttempts, gain)
    case Gone => 0
  }

  lemma {:induction false} AttemptsAreConserved(run: seq<Step>, id: nat, maxAttempts: int, gain: nat)
    requires gain >= 1 && Legal(run, maxAttempts) && id in After(run, maxAttempts) && Poisoned(run, id, gain)
    ensures TallyOf(run, id).deliveries + Remaining(After(run, maxAttempts)[id].place, maxAttempts, gain)
         == AttemptsFrom(0, maxAttempts, gain)
    ensures After(run, maxAttempts)[id].place.Held? && After(run, maxAttempts)[id].place.copied ==>
              After(run, maxAttempts)[id].place.deaths + 1 >= maxAttempts
  {
    var init, last := run[..|run| - 1], run[|run| - 1];
    assert run == init + [last];
    assert last == run[|run| - 1];
    assert Poisoned(init, id, gain) by {
      assert forall k :: 0 <= k < |init| ==> init[k] == run[k];
    }
    if last.id != id {
      AttemptsAreConserved(init, id, maxAttempts, gain);
    } else if last.Publish? {
      TallyUntouched(init, id, maxAttempts);
    } else {
      AttemptsAreConserved(init, id, maxAttempts, gain);
    }
  }

  lemma {:induction false} AttemptsClosedForm(deaths: nat, maxAttempts: int, gain: nat)
    requires gain >= 1
    ensures deaths + 1 >= maxAttempts ==> AttemptsFrom(deaths, maxAttempts, gain) == 1
    ensures deaths + 1 < maxAttempts ==>
              AttemptsFrom(deaths, maxAttempts, gain) == 1 + (maxAttempts - 1 - deaths + gain - 1) / gain
    decreases maxAttempts - deaths
  {
    if deaths + 1 < maxAttempts {
      AttemptsClosedForm(deaths + gain, maxAttempts, gain);
      OneTripLess(maxAttempts - 1 - deaths, gain);
    }
  }

  lemma OneTripLess(gap: int, gain: nat)
    requires gap > 0 && gain >= 1
    ensures gap > gain ==> (gap + gain - 1) / gain == 1 + (gap - gain + gain - 1) / gain
    ensures gap <= gain ==> (gap + gain - 1) / gain == 1
  {
    if gap > gain {
      var q, r := (gap - 1) / gain, (gap - 1) % gain;
      assert (1 + q) * gain == gain + q * gain;
      Quotient(gap + gain - 1, gain, 1 + q, r);
    } else {
      Quotient(gap + gain - 1, gain, 1, gap - 1);
    }
  }

  lemma Quotient(x: int, y: int, q: int, r: int)
    requires y >= 1 && x == q * y + r && 0 <= r < y
    ensures x / y == q
  {
    var d := x / y - q;
    assert d * y == r - x % y by {
      assert d * y == (x / y) * y - q * y;
    }
    if d >= 1 {
      Scaled(d, y);
    } else if d <= -1 {
      Scaled(-d, y);
    }
  }

  lemma Scaled(d: int, y: int)
    requires d >= 1 && y >= 1
    ensures d * y >= y
  {
    assert d * y == (d - 1) * y + y;
  }

  /** A message that always fails is gone exactly when it has had all its deliveries settled, ends with a
      copy in the dead-letter queue, and had `maxAttempts` deliveries when a trip adds one, but only
      floor(maxAttempts / 2) + 1 when a trip adds two. */
  lemma PoisonedDeliveries(run: seq<Step>, id: nat, maxAttempts: int, gain: nat)
    requires gain >= 1 && Legal(run, maxAttempts) && id in After(run, maxAttempts) && Poisoned(run, id, gain)
    ensures TallyOf(run, id).deliveries <= AttemptsFrom(0, maxAttempts, gain)
    ensures After(run, maxAttempts)[id].place.Gone? ==>
              TallyOf(run, id).deliveries == AttemptsFrom(0, maxAttempts, gain)
                && After(run, maxAttempts)[id].deadCopies > 0
    ensures maxAttempts >= 1 && gain == 1 ==> AttemptsFrom(0, maxAttempts, gain) == maxAttempts
    ensures maxAttempts >= 1 && gain == 2 ==> AttemptsFrom(0, maxAttempts, gain) == maxAttempts / 2 + 1
  {
    AttemptsAreConserved(run, id, maxAttempts, gain);
    AttemptsClosedForm(0, maxAttempts, gain);
    NoMessageIsLost(run, id, maxAttempts);
    NeverCleared(run, id, gain);
  }

  lemma NeverCleared(run: seq<Step>, id: nat, gain: nat)
    requires Poisoned(run, id, gain)
    ensures !TallyOf(run, id).cleared && TallyOf(run, id).losses == 0
  {
    if run != [] {
      var init := run[..|run| - 1];
      assert forall k :: 0 <= k < |init| ==> init[k] == run[k];
      assert run[|run| - 1] == run[|run| - 1];
      NeverCleared(init, id, gain);
    }
  }

  /** Connection losses are not counted by the header: there is no bound without the losses. */
  lemma {:induction false} LossesAreNotCounted(id: nat, maxAttempts: int, n: nat) returns (run: seq<Step>)
    ensures Legal(run, maxAttempts) && id in After(run, maxAttempts) && After(run, maxAttempts)[id] == Track(Main(0), 0)
    ensures TallyOf(run, id).deliveries == TallyOf(run, id).losses == n
  {
    if n == 0 {
      run := [Publish(id)];
      var none: seq<Step> := [];
      assert Legal(none, maxAttempts) && run[..0] == none;
      assert TallyOf(none, id) == Tally(0, 0, 0, false);
    } else {
      var before := LossesAreNotCounted(id, maxAttempts, n - 1);
      var held := before + [Deliver(id)];
      assert held[..|before|] == before;
      assert Legal(held, maxAttempts) && After(held, maxAttempts)[id] == Track(Held(0, false), 0);
      run := held + [Lose(id)];
      assert run[..|held|] == held;
    }
  }
}
