/** The queue consumer: batching, settling, the retry cycle and the dead-letter queue. */
module Consumer {
  import opened Documents
  import opened Processor

  // ---------------------------------------------------------------- death counts

  /** An entry of the x-death header: its count (absent counts as 0), or something unreadable. */
  datatype DeathEntry = Counted(count: int) | Unreadable

  function Deaths(entries: seq<DeathEntry>): int {
    if entries == [] then 0
    else Deaths(entries[..|entries| - 1]) + match entries[|entries| - 1] { case Counted(n) => n case Unreadable => 0 }
  }

  method DeathCount(entries: seq<DeathEntry>) returns (total: int)
    ensures total == Deaths(entries)
  {
    total := 0;
    for i := 0 to |entries|
      invariant total == Deaths(entries[..i])
    {
      assert entries[..i + 1][..i] == entries[..i];
      match entries[i] {
        case Counted(n) => total := total + n;
        case Unreadable =>
      }
    }
    assert entries[..|entries|] == entries;
  }

  /** A readable entry counts for what it says, wherever it stands, and an unreadable one for nothing. */
  lemma {:induction false} EachEntryCounts(before: seq<DeathEntry>, entry: DeathEntry, after: seq<DeathEntry>)
    ensures Deaths(before + [entry] + after)
         == Deaths(before + after) + match entry { case Counted(n) => n case Unreadable => 0 }
    ensures Deaths([]) == 0
  {
    if after == [] {
      assert before + [entry] + after == before + [entry] && before + after == before;
      assert (before + [entry])[..|before|] == before;
    } else {
      var init, last := after[..|after| - 1], after[|after| - 1];
      assert before + [entry] + after == (before + [entry] + init) + [last];
      assert before + after == (before + init) + [last];
      DeathsNext(before + [entry] + init, last);
      DeathsNext(before + init, last);
      EachEntryCounts(before, entry, init);
    }
  }

  lemma DeathsNext(entries: seq<DeathEntry>, last: DeathEntry)
    ensures Deaths(entries + [last]) == Deaths(entries) + match last { case Counted(n) => n case Unreadable => 0 }
  {
    assert (entries + [last])[..|entries|] == entries;
  }

  // ---------------------------------------------------------------- the batching loop

  /** `event == None` is a body that is not a well-formed event. */
  datatype Message = Message(id: nat, deaths: seq<DeathEntry>, event: Option<Event>)

  /** One turn of the loop: a message or a timeout, the clock when the message came, and the clock
      when the batch is examined. */
  datatype Turn = Turn(message: Option<Message>, arrived: real, examined: real)

  function Arrivals(turns: seq<Turn>, wellFormed: bool): seq<Message> {
    if turns == [] then []
    else
      var init, m := Arrivals(turns[..|turns| - 1], wellFormed), turns[|turns| - 1].message;
      if m.Some? && m.value.event.Some? == wellFormed then init + [m.value] else init
  }

  function Concat(batches: seq<seq<Message>>): seq<Message> {
    if batches == [] then [] else Concat(batches[..|batches| - 1]) + batches[|batches| - 1]
  }

  function AtLeastOne(n: int): int { if n < 1 then 1 else n }

  /** What the loop holds between two turns: batches flushed so far, the open batch and its deadline. */
  datatype Loop = Loop(flushed: seq<seq<Message>>, open: seq<Message>, deadline: Option<real>)

  /** The open batch and the deadline once a turn's message, if any, has been taken in. */
  function Taken(l: Loop, turn: Turn, linger: real): Loop {
    if turn.message.None? then l
    else l.(open := if turn.message.value.event.Some? then l.open + [turn.message.value] else l.open,
            deadline := if l.deadline.None? then Some(turn.arrived + linger) else l.deadline)
  }

  predicate Due(l: Loop, turn: Turn, batchSize: int) {
    l.open != [] && (|l.open| >= batchSize || (l.deadline.Some? && turn.examined >= l.deadline.value))
  }

  function TurnOf(l: Loop, turn: Turn, batchSize: int, linger: real): Loop {
    var taken := Taken(l, turn, linger);
    if Due(taken, turn, batchSize) then Loop(l.flushed + [taken.open], [], None) else taken
  }

  function LoopAfter(turns: seq<Turn>, batchSize: int, linger: real): Loop {
    if turns == [] then Loop([], [], None)
    else TurnOf(LoopAfter(turns[..|turns| - 1], batchSize, linger), turns[|turns| - 1], batchSize, linger)
  }

  /** What is still held when the loop ends is flushed last. */
  function AllFlushed(l: Loop): seq<seq<Message>> {
    if l.open == [] then l.flushed else l.flushed + [l.open]
  }

  /** Turns until the iterator ends or a stop is requested. Every well-formed message is in exactly
      one batch, in order; no batch is empty or too long; malformed ones are discarded (acknowledged). */
  method BatchLoop(turns: seq<Turn>, batchSize: int, linger: real)
    returns (batches: seq<seq<Message>>, discarded: seq<Message>)
    ensures batches == AllFlushed(LoopAfter(turns, batchSize, linger))
    ensures Concat(batches) == Arrivals(turns, true)
    ensures discarded == Arrivals(turns, false)
    ensures forall k :: 0 <= k < |batches| ==> 1 <= |batches[k]| && (|batches[k]| <= batchSize || |batches[k]| == 1)
  {
    batches, discarded := [], [];
    var batch: seq<Message>, deadline: Option<real> := [], None;
    for i := 0 to |turns|
      invariant LoopAfter(turns[..i], batchSize, linger) == Loop(batches, batch, deadline)
      invariant discarded == Arrivals(turns[..i], false)
    {
      assert turns[..i + 1][..i] == turns[..i];
      var turn := turns[i];
      if turn.message.Some? {
        if turn.message.value.event.Some? {
          batch := batch + [turn.message.value];
        } else {
          discarded := discarded + [turn.message.value];
        }
        if deadline.None? {
          deadline := Some(turn.arrived + linger);
        }
      }
      var full := |batch| >= batchSize;
      var expired := deadline.Some? && turn.examined >= deadline.value;
      if batch != [] && (full || expired) {
        batches := batches + [batch];
        batch, deadline := [], None;
      }
    }
    assert turns[..|turns|] == turns;
    LoopKeepsEverything(turns, batchSize, linger);
    LastFlushKeeps(Loop(batches, batch, deadline), Arrivals(turns, true), batchSize);
    if batch != [] {
      batches := batches + [batch];
    }
  }

  lemma LastFlushKeeps(l: Loop, arrivals: seq<Message>, batchSize: int)
    requires Keeps(l, arrivals, batchSize)
    ensures Concat(AllFlushed(l)) == arrivals
    ensures forall k :: 0 <= k < |AllFlushed(l)| ==> 1 <= |AllFlushed(l)[k]| <= AtLeastOne(batchSize)
  {
    if l.open != [] {
      ConcatNext(l.flushed, l.open);
    }
  }

  /** What the loop keeps: everything that came is in a flushed batch or in the open one, in order, and
      every batch has a proper size. */
  ghost predicate Keeps(l: Loop, arrivals: seq<Message>, batchSize: int) {
    && Concat(l.flushed) + l.open == arrivals && |l.open| < AtLeastOne(batchSize)
    && forall k :: 0 <= k < |l.flushed| ==> 1 <= |l.flushed[k]| <= AtLeastOne(batchSize)
  }

  function Kept(turn: Turn): seq<Message> {
    if turn.message.Some? && turn.message.value.event.Some? then [turn.message.value] else []
  }

  lemma TakenExtends(l: Loop, turn: Turn, linger: real)
    ensures Taken(l, turn, linger).flushed == l.flushed && Taken(l, turn, linger).open == l.open + Kept(turn)
  {}

  lemma TurnKeeps(l: Loop, arrivals: seq<Message>, turn: Turn, batchSize: int, linger: real)
    requires Keeps(l, arrivals, batchSize)
    ensures Keeps(TurnOf(l, turn, batchSize, linger), arrivals + Kept(turn), batchSize)
  {
    var taken := Taken(l, turn, linger);
    TakenExtends(l, turn, linger);
    assert Concat(l.flushed) + (l.open + Kept(turn)) == arrivals + Kept(turn);
    if Due(taken, turn, batchSize) {
      ConcatNext(l.flushed, taken.open);
      assert Concat(l.flushed + [taken.open]) + [] == Concat(l.flushed) + taken.open;
    }
  }

  lemma {:induction false} LoopKeepsEverything(turns: seq<Turn>, batchSize: int, linger: real)
    ensures Keeps(LoopAfter(turns, batchSize, linger), Arrivals(turns, true), batchSize)
  {
    if turns != [] {
      var init, turn := turns[..|turns| - 1], turns[|turns| - 1];
      LoopKeepsEverything(init, batchSize, linger);
      TurnKeeps(LoopAfter(init, batchSize, linger), Arrivals(init, true), turn, batchSize, linger);
      assert Arrivals(turns, true) == Arrivals(init, true) + Kept(turn);
    }
  }

  /** When a turn's message came, if it brought one to keep. */
  function Stamp(turn: Turn): seq<real> {
    if Kept(turn) == [] then [] else [turn.arrived]
  }

  /** When the messages of the open batch came. */
  function HeldSince(turns: seq<Turn>, batchSize: int, linger: real): seq<real> {
    if turns == [] then []
    else
      var init, turn := turns[..|turns| - 1], turns[|turns| - 1];
      var held := HeldSince(init, batchSize, linger) + Stamp(turn);
      if Due(Taken(LoopAfter(init, batchSize, linger), turn, linger), turn, batchSize) then [] else held
  }

  ghost predicate OneClock(turns: seq<Turn>) {
    forall i, j :: 0 <= i <= j < |turns| ==> turns[i].arrived <= turns[j].arrived
  }

  /** The deadline of the open batch is no later than the linger time after any of its messages. */
  ghost predicate Timely(l: Loop, held: seq<real>, linger: real) {
    && |held| == |l.open| && (held != [] ==> l.deadline.Some?)
    && forall k :: 0 <= k < |held| ==> l.deadline.value <= held[k] + linger
  }

  lemma TurnKeepsTimely(l: Loop, held: seq<real>, turn: Turn, linger: real)
    requires Timely(l, held, linger) && (l.deadline.Some? ==> l.deadline.value <= turn.arrived + linger)
    ensures Timely(Taken(l, turn, linger), held + Stamp(turn), linger)
  {}

  lemma {:induction false} DeadlinesAreTimely(turns: seq<Turn>, batchSize: int, linger: real)
    requires OneClock(turns)
    ensures Timely(LoopAfter(turns, batchSize, linger), HeldSince(turns, batchSize, linger), linger)
    ensures LoopAfter(turns, batchSize, linger).deadline.Some? ==>
              turns != [] && LoopAfter(turns, batchSize, linger).deadline.value <= turns[|turns| - 1].arrived + linger
  {
    if turns != [] {
      var n := |turns| - 1;
      var init := turns[..n];
      assert forall k :: 0 <= k < n ==> init[k] == turns[k];
      DeadlinesAreTimely(init, batchSize, linger);
      assert n > 0 ==> turns[n - 1].arrived <= turns[n].arrived;
      TurnKeepsTimely(LoopAfter(init, batchSize, linger), HeldSince(init, batchSize, linger), turns[n], linger);
    }
  }

  /** Nothing waits longer than the linger time: whenever the loop examines its batch and keeps it, the
      batch is not full and each of its messages came less than the linger time ago. */
  lemma NothingLingers(turns: seq<Turn>, batchSize: int, linger: real, k: nat)
    requires OneClock(turns) && turns != [] && k < |HeldSince(turns, batchSize, linger)|
    ensures |HeldSince(turns, batchSize, linger)| == |LoopAfter(turns, batchSize, linger).open| < batchSize
    ensures turns[|turns| - 1].examined < HeldSince(turns, batchSize, linger)[k] + linger
  {
    DeadlinesAreTimely(turns, batchSize, linger);
  }

  // ---------------------------------------------------------------- when a batch is flushed

  /** The turn after the one that flushed last; 0 before any flush. */
  function OpenSince(turns: seq<Turn>, batchSize: int, linger: real): (start: nat)
    ensures start <= |turns|
  {
    if turns == [] then 0
    else
      var init := turns[..|turns| - 1];
      if |LoopAfter(turns, batchSize, linger).flushed| > |LoopAfter(init, batchSize, linger).flushed| then |turns|
      else OpenSince(init, batchSize, linger)
  }

  /** Turn `k` brought the first message, well-formed or not, from turn `start` on. */
  predicate FirstMessage(turns: seq<Turn>, start: nat, k: nat) {
    start <= k < |turns| && turns[k].message.Some? && forall i :: start <= i < k ==> turns[i].message.None?
  }

  lemma FirstOfLonger(turns: seq<Turn>, start: nat, k: nat)
    requires turns != [] && start < |turns|
    ensures k < |turns| - 1 ==> (FirstMessage(turns, start, k) <==> FirstMessage(turns[..|turns| - 1], start, k))
  {}

  /** The deadline runs from the first message since the last flush. */
  lemma {:induction false} DeadlineIsOfTheFirst(turns: seq<Turn>, batchSize: int, linger: real, k: nat)
    requires FirstMessage(turns, OpenSince(turns, batchSize, linger), k)
    ensures LoopAfter(turns, batchSize, linger).deadline == Some(turns[k].arrived + linger)
  {
    var n := |turns| - 1;
    var init, start := turns[..n], OpenSince(turns, batchSize, linger);
    FirstOfLonger(turns, start, k);
    if k < n {
      DeadlineIsOfTheFirst(init, batchSize, linger, k);
    } else {
      NoDeadlineYet(init, batchSize, linger);
    }
  }

  lemma {:induction false} NoDeadlineYet(turns: seq<Turn>, batchSize: int, linger: real)
    requires forall i :: OpenSince(turns, batchSize, linger) <= i < |turns| ==> turns[i].message.None?
    ensures LoopAfter(turns, batchSize, linger).deadline == None
  {
    if turns != [] {
      var init := turns[..|turns| - 1];
      if OpenSince(turns, batchSize, linger) < |turns| {
        assert turns[|turns| - 1].message.None?;
        NoDeadlineYet(init, batchSize, linger);
      }
    }
  }

  /** The last turn flushes exactly when something is held and either the batch is full or the linger time
      has passed since the first message, well-formed or not, that came after the previous flush. */
  lemma FlushesExactlyWhenDue(turns: seq<Turn>, batchSize: int, linger: real)
    requires turns != []
    ensures var init, now := turns[..|turns| - 1], turns[|turns| - 1].examined;
            var held := LoopAfter(init, batchSize, linger).open + Kept(turns[|turns| - 1]);
            var flushed := LoopAfter(init, batchSize, linger).flushed;
            if held != [] && (|held| >= batchSize
                              || exists k: nat :: FirstMessage(turns, OpenSince(init, batchSize, linger), k)
                                             && turns[k].arrived + linger <= now)
            then LoopAfter(turns, batchSize, linger).flushed == flushed + [held]
            else LoopAfter(turns, batchSize, linger).flushed == flushed
                 && LoopAfter(turns, batchSize, linger).open == held
  {
    var n := |turns| - 1;
    var init, start := turns[..n], OpenSince(turns[..n], batchSize, linger);
    var taken := Taken(LoopAfter(init, batchSize, linger), turns[n], linger);
    TakenExtends(LoopAfter(init, batchSize, linger), turns[n], linger);
    if k: nat :| FirstMessage(turns, start, k) {
      FirstIsOne(turns, start, k);
      FirstOfLonger(turns, start, k);
      if k < n {
        DeadlineIsOfTheFirst(init, batchSize, linger, k);
      } else {
        NoDeadlineYet(init, batchSize, linger);
      }
      assert taken.deadline == Some(turns[k].arrived + linger);
    } else {
      NoMessage(turns, start);
      NoDeadlineYet(init, batchSize, linger);
    }
  }

  lemma FirstIsOne(turns: seq<Turn>, start: nat, k: nat)
    requires FirstMessage(turns, start, k)
    ensures forall j: nat :: FirstMessage(turns, start, j) ==> j == k
  {}

  lemma {:induction false} NoMessage(turns: seq<Turn>, start: nat)
    requires start <= |turns| && forall k: nat :: !FirstMessage(turns, start, k)
    ensures forall i :: start <= i < |turns| ==> turns[i].message.None?
  {
    if turns != [] && start < |turns| {
      var init := turns[..|turns| - 1];
      forall k: nat
        ensures !FirstMessage(init, start, k)
      {
        FirstOfLonger(turns, start, k);
      }
      NoMessage(init, start);
      assert forall i :: 0 <= i < |init| ==> init[i] == turns[i];
      assert !FirstMessage(turns, start, |turns| - 1);
    }
  }

  lemma {:induction false} ArrivalsInOrder(a: seq<Turn>, b: seq<Turn>, wellFormed: bool)
    ensures Arrivals(a + b, wellFormed) == Arrivals(a, wellFormed) + Arrivals(b, wellFormed)
  {
    if b == [] {
      assert a + b == a;
    } else {
      assert (a + b)[..|a + b| - 1] == a + b[..|b| - 1];
      ArrivalsInOrder(a, b[..|b| - 1], wellFormed);
    }
  }

  ghost function MessageTurns(turns: seq<Turn>): set<nat> {
    set k: nat | k < |turns| && turns[k].message.Some?
  }

  /** Every message that came, and nothing else, is kept or discarded, as it is well-formed or not. */
  lemma {:induction false} ArrivalsAreTheMessages(turns: seq<Turn>, m: Message, wellFormed: bool)
    ensures m in Arrivals(turns, wellFormed) <==>
              m.event.Some? == wellFormed && exists k :: 0 <= k < |turns| && turns[k].message == Some(m)
  {
    if turns != [] {
      var n := |turns| - 1;
      var init := turns[..n];
      ArrivalsAreTheMessages(init, m, wellFormed);
      if k :| 0 <= k < |turns| && turns[k].message == Some(m) {
        assert k < n ==> init[k].message == Some(m);
      }
    }
  }

  lemma {:induction false} ArrivalsAreAsMany(turns: seq<Turn>)
    ensures |Arrivals(turns, true)| + |Arrivals(turns, false)| == |MessageTurns(turns)|
  {
    if turns == [] {
      assert MessageTurns(turns) == {};
    } else {
      var n := |turns| - 1;
      var init := turns[..n];
      ArrivalsAreAsMany(init);
      assert forall k :: 0 <= k < n ==> init[k] == turns[k];
      assert MessageTurns(turns) == MessageTurns(init) + (if turns[n].message.Some? then {n} else {});
    }
  }

  lemma ConcatNext(batches: seq<seq<Message>>, batch: seq<Message>)
    ensures Concat(batches + [batch]) == Concat(batches) + batch
  {
    assert (batches + [batch])[..|batches|] == batches;
  }

  // ---------------------------------------------------------------- settling a batch

  datatype Verdict = Acknowledge | Retry | DeadLetter

  function VerdictOn(m: Message, failed: set<DocumentId>, maxAttempts: int): Verdict {
    VerdictFor(m.event.Some? && m.event.value.documentId in failed, Deaths(m.deaths), maxAttempts)
  }

  function VerdictFor(failed: bool, deaths: int, maxAttempts: int): Verdict {
    if !failed then Acknowledge else if deaths + 1 >= maxAttempts then DeadLetter else Retry
  }

  function If(c: bool, m: Message): multiset<Message> { if c then multiset{m} else multiset{} }

  /** The messages of a batch with a given verdict. */
  function Share(batch: seq<Message>, failed: set<DocumentId>, maxAttempts: int, v: Verdict): multiset<Message> {
    if batch == [] then multiset{}
    else
      var m := batch[|batch| - 1];
      Share(batch[..|batch| - 1], failed, maxAttempts, v) + If(VerdictOn(m, failed, maxAttempts) == v, m)
  }

  /** The messages of a batch that are acknowledged: done with, or copied to the dead-letter queue. */
  function Answered(batch: seq<Message>, failed: set<DocumentId>, maxAttempts: int): multiset<Message> {
    if batch == [] then multiset{}
    else
      var m := batch[|batch| - 1];
      Answered(batch[..|batch| - 1], failed, maxAttempts) + If(VerdictOn(m, failed, maxAttempts) != Retry, m)
  }

  /** The copy put on the dead-letter queue carries the body only. */
  function BodyOnly(m: Message): Message { m.(deaths := []) }

  function DeadCopies(batch: seq<Message>, failed: set<DocumentId>, maxAttempts: int): multiset<Message> {
    if batch == [] then multiset{}
    else
      var m := batch[|batch| - 1];
      DeadCopies(batch[..|batch| - 1], failed, maxAttempts)
        + If(VerdictOn(m, failed, maxAttempts) == DeadLetter, BodyOnly(m))
  }

  /** The broker's side of one channel. */
  class Channel {
    var held: multiset<Message>
    var retry: multiset<Message>
    var dead: multiset<Message>
    var acknowledged: multiset<Message>

    constructor ()
      ensures held == retry == dead == acknowledged == multiset{}
    {
      held, retry, dead, acknowledged := multiset{}, multiset{}, multiset{}, multiset{};
    }

    method Deliver(m: Message)
      modifies this`held
      ensures held == old(held) + multiset{m}
    {
      held := held + multiset{m};
    }

    method Ack(m: Message)
      requires m in held
      modifies this`held, this`acknowledged
      ensures held == old(held) - multiset{m} && acknowledged == old(acknowledged) + multiset{m}
    {
      held, acknowledged := held - multiset{m}, acknowledged + multiset{m};
    }

    /** Without requeue: the broker moves the message to the retry queue. */
    method Nack(m: Message)
      requires m in held
      modifies this`held, this`retry
      ensures held == old(held) - multiset{m} && retry == old(retry) + multiset{m}
    {
      held, retry := held - multiset{m}, retry + multiset{m};
    }

    method PublishDead(m: Message)
      modifies this`dead
      ensures dead == old(dead) + multiset{BodyOnly(m)}
    {
      dead := dead + multiset{BodyOnly(m)};
    }
  }

  lemma ShareNext(batch: seq<Message>, i: nat, failed: set<DocumentId>, maxAttempts: int, v: Verdict)
    requires i < |batch|
    ensures Share(batch[..i + 1], failed, maxAttempts, v)
         == Share(batch[..i], failed, maxAttempts, v) + If(VerdictOn(batch[i], failed, maxAttempts) == v, batch[i])
    ensures DeadCopies(batch[..i + 1], failed, maxAttempts)
         == DeadCopies(batch[..i], failed, maxAttempts)
           + If(VerdictOn(batch[i], failed, maxAttempts) == DeadLetter, BodyOnly(batch[i]))
    ensures Answered(batch[..i + 1], failed, maxAttempts)
         == Answered(batch[..i], failed, maxAttempts) + If(VerdictOn(batch[i], failed, maxAttempts) != Retry, batch[i])
  {
    assert batch[..i + 1][..i] == batch[..i];
  }

  /** Settles every delivery of the batch, each exactly once, by its verdict. */
  method Settle(channel: Channel, batch: seq<Message>, failed: set<DocumentId>, maxAttempts: int)
    requires multiset(batch) <= channel.held
    modifies channel
    ensures channel.held == old(channel.held) - multiset(batch)
    ensures channel.retry == old(channel.retry) + Share(batch, failed, maxAttempts, Retry)
    ensures channel.dead == old(channel.dead) + DeadCopies(batch, failed, maxAttempts)
    ensures channel.acknowledged == old(channel.acknowledged) + Answered(batch, failed, maxAttempts)
    // A message goes to the retry queue when its document failed and its deaths leave it another attempt.
    ensures forall m :: channel.retry[m] == old(channel.retry)[m]
              + if m.event.Some? && m.event.value.documentId in failed && Deaths(m.deaths) + 1 < maxAttempts
                then multiset(batch)[m] else 0
    // Every other message is acknowledged.
    ensures forall m :: channel.acknowledged[m] == old(channel.acknowledged)[m]
              + if m.event.Some? && m.event.value.documentId in failed && Deaths(m.deaths) + 1 < maxAttempts
                then 0 else multiset(batch)[m]
    // The dead-letter queue gains the bodies of those whose document failed for the last time.
    ensures forall copy :: channel.dead[copy]
                        == old(channel.dead)[copy] + |LastFailures(batch, failed, maxAttempts, copy)|
  {
    for i := 0 to |batch|
      invariant channel.held == old(channel.held) - multiset(batch[..i])
      invariant channel.retry == old(channel.retry) + Share(batch[..i], failed, maxAttempts, Retry)
      invariant channel.dead == old(channel.dead) + DeadCopies(batch[..i], failed, maxAttempts)
      invariant channel.acknowledged == old(channel.acknowledged) + Answered(batch[..i], failed, maxAttempts)
    {
      ghost var v := VerdictOn(batch[i], failed, maxAttempts);
      StillHeld(old(channel.held), batch, i);
      ShareNext(batch, i, failed, maxAttempts, Retry);
      Regroup(old(channel.retry), Share(batch[..i], failed, maxAttempts, Retry), If(v == Retry, batch[i]));
      Regroup(old(channel.dead), DeadCopies(batch[..i], failed, maxAttempts), If(v == DeadLetter, BodyOnly(batch[i])));
      Regroup(old(channel.acknowledged), Answered(batch[..i], failed, maxAttempts), If(v != Retry, batch[i]));
      SettleOne(channel, batch[i], failed, maxAttempts);
    }
    assert batch[..|batch|] == batch;
    SettledPerMessage(batch, failed, maxAttempts);
  }

  /** The deliveries of a batch that failed for the last time and whose body is that of `copy`. */
  ghost function LastFailures(batch: seq<Message>, failed: set<DocumentId>, maxAttempts: int, copy: Message): set<nat> {
    set k: nat | k < |batch| && batch[k].event.Some? && batch[k].event.value.documentId in failed
                 && Deaths(batch[k].deaths) + 1 >= maxAttempts && batch[k].(deaths := []) == copy
  }

  lemma SettledPerMessage(batch: seq<Message>, failed: set<DocumentId>, maxAttempts: int)
    ensures forall m :: Share(batch, failed, maxAttempts, Retry)[m]
                     == if m.event.Some? && m.event.value.documentId in failed && Deaths(m.deaths) + 1 < maxAttempts
                        then multiset(batch)[m] else 0
    ensures forall m :: Answered(batch, failed, maxAttempts)[m]
                     == if m.event.Some? && m.event.value.documentId in failed && Deaths(m.deaths) + 1 < maxAttempts
                        then 0 else multiset(batch)[m]
    ensures forall copy :: DeadCopies(batch, failed, maxAttempts)[copy]
                        == |LastFailures(batch, failed, maxAttempts, copy)|
  {
    VerdictsPartition(batch, failed, maxAttempts);
    forall m: Message
      ensures Share(batch, failed, maxAttempts, Retry)[m]
           == if m.event.Some? && m.event.value.documentId in failed && Deaths(m.deaths) + 1 < maxAttempts
              then multiset(batch)[m] else 0
      ensures DeadCopies(batch, failed, maxAttempts)[m] == |LastFailures(batch, failed, maxAttempts, m)|
    {
      WhoIsRetried(batch, failed, maxAttempts, m);
      WhoIsCopied(batch, failed, maxAttempts, m);
    }
  }

  lemma {:induction false} WhoIsRetried(batch: seq<Message>, failed: set<DocumentId>, maxAttempts: int, m: Message)
    ensures Share(batch, failed, maxAttempts, Retry)[m]
         == if m.event.Some? && m.event.value.documentId in failed && Deaths(m.deaths) + 1 < maxAttempts
            then multiset(batch)[m] else 0
  {
    if batch != [] {
      WhoIsRetried(batch[..|batch| - 1], failed, maxAttempts, m);
      assert batch == batch[..|batch| - 1] + [batch[|batch| - 1]];
    }
  }

  lemma {:induction false} WhoIsCopied(batch: seq<Message>, failed: set<DocumentId>, maxAttempts: int, copy: Message)
    ensures DeadCopies(batch, failed, maxAttempts)[copy] == |LastFailures(batch, failed, maxAttempts, copy)|
  {
    if batch == [] {
      assert LastFailures(batch, failed, maxAttempts, copy) == {};
    } else {
      var n := |batch| - 1;
      var init, m := batch[..n], batch[n];
      WhoIsCopied(init, failed, maxAttempts, copy);
      LastFailuresNext(init, m, failed, maxAttempts, copy);
      assert batch == init + [m];
    }
  }

  lemma LastFailuresNext(init: seq<Message>, m: Message, failed: set<DocumentId>, maxAttempts: int, copy: Message)
    ensures |LastFailures(init + [m], failed, maxAttempts, copy)|
         == |LastFailures(init, failed, maxAttempts, copy)|
            + if m.event.Some? && m.event.value.documentId in failed
                 && Deaths(m.deaths) + 1 >= maxAttempts && m.(deaths := []) == copy then 1 else 0
  {
    var n, batch := |init|, init + [m];
    assert batch[n] == m && forall k :: 0 <= k < n ==> batch[k] == init[k];
    var before, after := LastFailures(init, failed, maxAttempts, copy), LastFailures(batch, failed, maxAttempts, copy);
    if n in after {
      assert after == before + {n};
    } else {
      assert after == before;
    }
  }

  lemma Regroup(a: multiset<Message>, b: multiset<Message>, c: multiset<Message>)
    ensures (a + b) + c == a + (b + c)
  {}

  lemma StillHeld(held: multiset<Message>, batch: seq<Message>, i: nat)
    requires i < |batch| && multiset(batch) <= held
    ensures batch[i] in held - multiset(batch[..i])
    ensures held - multiset(batch[..i]) - multiset{batch[i]} == held - multiset(batch[..i + 1])
  {
    assert batch == batch[..i] + [batch[i]] + batch[i + 1..];
    assert batch[..i + 1] == batch[..i] + [batch[i]];
    assert multiset(batch)[batch[i]] > multiset(batch[..i])[batch[i]];
  }

  method SettleOne(channel: Channel, m: Message, failed: set<DocumentId>, maxAttempts: int)
    requires m in channel.held
    modifies channel
    ensures channel.held == old(channel.held) - multiset{m}
    ensures var v := VerdictOn(m, failed, maxAttempts);
            && channel.retry == old(channel.retry) + If(v == Retry, m)
            && channel.dead == old(channel.dead) + If(v == DeadLetter, BodyOnly(m))
            && channel.acknowledged == old(channel.acknowledged) + If(v != Retry, m)
  {
    ghost var v := VerdictOn(m, failed, maxAttempts);
    if m.event.Some? && m.event.value.documentId in failed {
      var deaths := DeathCount(m.deaths);
      assert v == if deaths + 1 >= maxAttempts then DeadLetter else Retry;
      if deaths + 1 >= maxAttempts {
        channel.PublishDead(m);
        channel.Ack(m);
      } else {
        channel.Nack(m);
      }
    } else {
      channel.Ack(m);
    }
  }

  /** Every message of a batch has exactly one verdict. */
  lemma {:induction false} VerdictsPartition(batch: seq<Message>, failed: set<DocumentId>, maxAttempts: int)
    ensures multiset(batch) == Answered(batch, failed, maxAttempts) + Share(batch, failed, maxAttempts, Retry)
  {
    if batch != [] {
      var init, m := batch[..|batch| - 1], batch[|batch| - 1];
      VerdictsPartition(init, failed, maxAttempts);
      assert batch == init + [m];
      assert multiset(batch) == multiset(init) + multiset{m};
      OneSide(Answered(init, failed, maxAttempts), Share(init, failed, maxAttempts, Retry), m);
    }
  }

  lemma OneSide(a: multiset<Message>, b: multiset<Message>, m: Message)
    ensures (a + If(true, m)) + (b + If(false, m)) == (a + b) + multiset{m}
    ensures (a + If(false, m)) + (b + If(true, m)) == (a + b) + multiset{m}
  {}

  function EventsOf(batch: seq<Message>): seq<Event> {
    if batch == [] then []
    else
      var init, m := EventsOf(batch[..|batch| - 1]), batch[|batch| - 1];
      if m.event.Some? then init + [m.event.value] else init
  }

  /** One flush: the batch is processed, then every delivery is settled by the outcome. */
  method Flush(processor: IndexingProcessor, channel: Channel, batch: seq<Message>, refused: set<Uuid>,
               maxAttempts: int, now: int)
    returns (outcome: Outcome)
    requires multiset(batch) <= channel.held
    modifies channel, processor.table, processor.engine`docs, processor.cache
    ensures channel.held == old(channel.held) - multiset(batch)
    ensures channel.retry == old(channel.retry) + Share(batch, Elements(outcome.failed), maxAttempts, Retry)
    ensures channel.dead == old(channel.dead) + DeadCopies(batch, Elements(outcome.failed), maxAttempts)
    ensures channel.acknowledged == old(channel.acknowledged) + Answered(batch, Elements(outcome.failed), maxAttempts)
    // An outage fails every message of a batch that has anything to write, and changes nothing.
    ensures !processor.engine.available && Targets(old(processor.table.rows), EventsOf(batch)) != {} ==>
              processor.Contents() == old(processor.Contents()) && Elements(outcome.failed) == BatchIds(EventsOf(batch))
    // What is not to be retried is in the index as its row says, or names no row.
    ensures processor.engine.available ==>
              processor.Contents() == Processed(old(processor.Contents()),
                                                Targets(old(processor.table.rows), EventsOf(batch)) - refused, now)
              && Sorted(old(processor.table.rows), BatchIds(EventsOf(batch)), refused, outcome)
    // While the engine answers, a message is retried when the cluster refused its document, which has a
    // row, and its deaths leave it another attempt; every other message is acknowledged, but one refused
    // for the last time only with a copy in the dead-letter queue.
    ensures processor.engine.available ==>
              forall m :: channel.retry[m] == old(channel.retry)[m]
                + if m.event.Some? && m.event.value.documentId.Canonical?
                     && m.event.value.documentId.uuid in old(processor.table.rows)
                     && m.event.value.documentId.uuid in refused && Deaths(m.deaths) + 1 < maxAttempts
                  then multiset(batch)[m] else 0
    ensures processor.engine.available ==>
              forall m :: m in batch && m.event.Some? && m.event.value.documentId.Canonical?
                          && m.event.value.documentId.uuid in old(processor.table.rows)
                          && m.event.value.documentId.uuid in refused && Deaths(m.deaths) + 1 >= maxAttempts ==>
                channel.dead[m.(deaths := [])] > old(channel.dead)[m.(deaths := [])]
    ensures forall m :: channel.acknowledged[m] + channel.retry[m]
                     == old(channel.acknowledged)[m] + old(channel.retry)[m] + multiset(batch)[m]
    // In an outage no message that can be retried is acknowledged.
    ensures !processor.engine.available && Targets(old(processor.table.rows), EventsOf(batch)) != {} ==>
              forall m :: m in batch && m.event.Some? && Deaths(m.deaths) + 1 < maxAttempts ==>
                channel.acknowledged[m] == old(channel.acknowledged)[m]
  {
    outcome := processor.Process(EventsOf(batch), refused, now);
    Settle(channel, batch, Elements(outcome.failed), maxAttempts);
    FlushedPerMessage(old(processor.table.rows), batch, refused, outcome, maxAttempts);
  }

  /** `Settle` in terms of what the cluster refused. */
  lemma FlushedPerMessage(rows: Rows, batch: seq<Message>, refused: set<Uuid>, o: Outcome, maxAttempts: int)
    ensures Sorted(rows, BatchIds(EventsOf(batch)), refused, o) ==>
              && (forall m :: Share(batch, Elements(o.failed), maxAttempts, Retry)[m]
                           == if m.event.Some? && m.event.value.documentId.Canonical?
                                 && m.event.value.documentId.uuid in rows && m.event.value.documentId.uuid in refused
                                 && Deaths(m.deaths) + 1 < maxAttempts
                              then multiset(batch)[m] else 0)
              && (forall m :: m in batch && m.event.Some? && m.event.value.documentId.Canonical?
                              && m.event.value.documentId.uuid in rows && m.event.value.documentId.uuid in refused
                              && Deaths(m.deaths) + 1 >= maxAttempts ==>
                    DeadCopies(batch, Elements(o.failed), maxAttempts)[m.(deaths := [])] > 0)
    ensures multiset(batch)
         == Answered(batch, Elements(o.failed), maxAttempts) + Share(batch, Elements(o.failed), maxAttempts, Retry)
    ensures Elements(o.failed) == BatchIds(EventsOf(batch)) ==>
              forall m :: m in batch && m.event.Some? && Deaths(m.deaths) + 1 < maxAttempts ==>
                Answered(batch, Elements(o.failed), maxAttempts)[m] == 0
  {
    FailedAsRefused(rows, batch, refused, o);
    LastFailuresAreCopied(batch, Elements(o.failed), maxAttempts);
    SettledPerMessage(batch, Elements(o.failed), maxAttempts);
    VerdictsPartition(batch, Elements(o.failed), maxAttempts);
  }

  lemma FailedAsRefused(rows: Rows, batch: seq<Message>, refused: set<Uuid>, o: Outcome)
    ensures forall m :: m in batch && m.event.Some? ==> m.event.value.documentId in BatchIds(EventsOf(batch))
    ensures Sorted(rows, BatchIds(EventsOf(batch)), refused, o) ==>
              forall m :: m in batch && m.event.Some? ==>
                var d := m.event.value.documentId;
                d in Elements(o.failed) <==> d.Canonical? && d.uuid in rows && d.uuid in refused
  {
    forall m | m in batch && m.event.Some?
      ensures m.event.value.documentId in BatchIds(EventsOf(batch))
    {
      EventIsThere(batch, m);
    }
  }

  lemma LastFailuresAreCopied(batch: seq<Message>, failed: set<DocumentId>, maxAttempts: int)
    ensures forall m :: m in batch && m.event.Some? && m.event.value.documentId in failed
                        && Deaths(m.deaths) + 1 >= maxAttempts ==>
              |LastFailures(batch, failed, maxAttempts, m.(deaths := []))| > 0
  {
    forall m | m in batch && m.event.Some? && m.event.value.documentId in failed && Deaths(m.deaths) + 1 >= maxAttempts
      ensures |LastFailures(batch, failed, maxAttempts, m.(deaths := []))| > 0
    {
      var k :| 0 <= k < |batch| && batch[k] == m;
      assert k in LastFailures(batch, failed, maxAttempts, m.(deaths := []));
    }
  }

  lemma {:induction false} EventIsThere(batch: seq<Message>, m: Message)
    requires m in batch && m.event.Some?
    ensures m.event.value in EventsOf(batch) && m.event.value.documentId in BatchIds(EventsOf(batch))
  {
    var init := batch[..|batch| - 1];
    if m in init {
      EventIsThere(init, m);
    }
  }
}
