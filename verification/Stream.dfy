/**
 The stream protocol of one sync batch: a producer goroutine decodes records and
 sends them over an unbuffered channel, the select loop handles them, errors go
 through a one-slot channel, and a context with a deadline ties the two together.
 Every interleaving of the two is a run of actions.
 */
module Stream {
  import opened Options
  import opened Datasets
  import opened Store
  import opened Sync

  // ---------- the input of a run ----------

  datatype Opening = Bracket | NotAnArray | OpeningError

  /** What the decoder yields for the next array element. */
  datatype Element = Decoded(inc: Incoming) | Undecodable

  /** A response body: its first token, its elements, and whether the closing token can be read. */
  datatype Source = Source(opening: Opening, elements: seq<Element>, closingOk: bool)

  datatype System = System(source: Source, env: Env, ctx: Context, rows: Rows, stamps: map<Id, int>, stamp: int)

  // ---------- states ----------

  datatype Producer = Starting | Looping(i: nat) | Sending(i: nat) | Ending | Closing | Gone

  datatype Ending = Committed | CommitFailed | StreamFailed | TimedOut

  datatype Consumer = Selecting | Handling(inc: Incoming) | Committing | Returning(ending: Ending) | Finished(ending: Ending)

  /**
   `errors` is what the error channel holds, `errorsSent` how many errors were ever
   sent, `sent` how many records were; `closed` is the record channel, `cancelled`
   the context.
   */
  datatype State = State(
    producer: Producer, consumer: Consumer, sent: nat, errors: nat, errorsSent: nat, closed: bool, cancelled: bool,
    handled: seq<Incoming>, batch: Batch, counters: Counters, rows: Rows, stamps: map<Id, int>)

  function Init(sys: System): State {
    State(Starting, Selecting, 0, 0, 0, false, false, [], Batch(sys.rows, false), Counters(0, 0, 0, 0, 0), sys.rows, sys.stamps)
  }

  datatype Action =
    | ReadOpening | DecodeNext | Rendezvous | Abandon | ReadClosing | Close
    | Handle | SeeClosed | SeeError | SeeCancelled | Commit(fault: bool) | Return | Deadline

  predicate HasSlot(s: State) { s.errors < 1 }

  /** A send on the full error channel would block: it is not enabled. */
  predicate Enabled(sys: System, s: State, a: Action) {
    match a
    case ReadOpening => s.producer.Starting? && (sys.source.opening.Bracket? || HasSlot(s))
    case DecodeNext =>
      s.producer.Looping? &&
      (s.producer.i < |sys.source.elements| && sys.source.elements[s.producer.i].Undecodable? ==> HasSlot(s))
    case Rendezvous =>
      s.producer.Sending? && s.consumer.Selecting?
      && s.producer.i < |sys.source.elements| && sys.source.elements[s.producer.i].Decoded?
    case Abandon => s.producer.Sending? && s.cancelled
    case ReadClosing => s.producer.Ending? && (sys.source.closingOk || HasSlot(s))
    case Close => s.producer.Closing?
    case Handle => s.consumer.Handling?
    case SeeClosed => s.consumer.Selecting? && s.closed
    case SeeError => s.consumer.Selecting? && s.errors > 0
    case SeeCancelled => s.consumer.Selecting? && s.cancelled
    case Commit(_) => s.consumer.Committing?
    case Return => s.consumer.Returning?
    case Deadline => !s.cancelled
  }

  function SendError(s: State): State { s.(errors := s.errors + 1, errorsSent := s.errorsSent + 1) }

  function Act(sys: System, s: State, a: Action): State
    requires Enabled(sys, s, a)
  {
    match a
    case ReadOpening =>
      if sys.source.opening.Bracket? then s.(producer := Looping(0)) else SendError(s).(producer := Gone)
    case DecodeNext =>
      var i := s.producer.i;
      if i >= |sys.source.elements| then s.(producer := Producer.Ending)
      else if sys.source.elements[i].Decoded? then s.(producer := Sending(i))
      else SendError(s).(producer := Gone)
    case Rendezvous =>
      var i := s.producer.i;
      s.(producer := Looping(i + 1), consumer := Handling(sys.source.elements[i].inc), sent := s.sent + 1)
    case Abandon => s.(producer := Gone)
    case ReadClosing => (if sys.source.closingOk then s else SendError(s)).(producer := Closing)
    case Close => s.(producer := Gone, closed := true)
    case Handle =>
      var inc := s.consumer.inc;
      s.(consumer := Selecting, handled := s.handled + [inc], batch := Step(sys.env, sys.ctx, s.batch, inc),
         counters := Counted(s.counters, StepStatus(sys.env, sys.ctx, s.batch, inc)))
    case SeeClosed => s.(consumer := Committing)
    case SeeError => s.(consumer := Returning(StreamFailed), errors := s.errors - 1)
    case SeeCancelled => s.(consumer := Returning(TimedOut))
    case Commit(fault) =>
      if s.batch.aborted || fault then s.(consumer := Returning(CommitFailed))
      else s.(consumer := Returning(Committed), rows := s.batch.rows, stamps := s.stamps[sys.env.uid := sys.stamp])
    case Return => s.(consumer := Finished(s.consumer.ending), cancelled := true)
    case Deadline => s.(cancelled := true)
  }

  /** The state after a sequence of actions, if each was enabled in turn. */
  function Run(sys: System, actions: seq<Action>): Option<State> {
    if actions == [] then Some(Init(sys))
    else
      var before, a := Run(sys, actions[..|actions| - 1]), actions[|actions| - 1];
      if before.Some? && Enabled(sys, before.value, a) then Some(Act(sys, before.value, a)) else None
  }

  // ---------- the invariant ----------

  predicate AllDecoded(elements: seq<Element>) { forall e <- elements :: e.Decoded? }

  function Incomings(elements: seq<Element>): seq<Incoming>
    requires AllDecoded(elements)
  {
    seq(|elements|, i requires 0 <= i < |elements| => assert elements[i] in elements; elements[i].inc)
  }

  function InFlight(c: Consumer): seq<Incoming> {
    if c.Handling? then [c.inc] else []
  }

  predicate ChannelInv(sys: System, s: State) {
    var n := |sys.source.elements|;
    && s.sent <= n && AllDecoded(sys.source.elements[..s.sent])
    && s.handled + InFlight(s.consumer) == Incomings(sys.source.elements[..s.sent])
    && (s.producer.Starting? ==> s.sent == 0)
    && (s.producer.Looping? ==> s.sent == s.producer.i && sys.source.opening.Bracket?)
    && (s.producer.Sending? ==> s.sent == s.producer.i < n && sys.source.elements[s.sent].Decoded? && sys.source.opening.Bracket?)
    && (s.producer.Ending? || s.producer.Closing? || s.closed ==> s.sent == n && sys.source.opening.Bracket?)
    && (s.closed ==> s.producer.Gone?)
    && (s.consumer.Committing? || Ended(s.consumer, Committed) ==> s.closed)
  }

  predicate Ended(c: Consumer, e: Ending) { (c.Returning? || c.Finished?) && c.ending == e }

  predicate Listening(c: Consumer) { c.Selecting? || c.Handling? || c.Committing? }

  predicate ErrorInv(s: State) {
    && s.errors <= s.errorsSent <= 1
    && (!s.producer.Closing? && !s.producer.Gone? ==> s.errorsSent == 0)
    && (Listening(s.consumer) ==> s.errors == s.errorsSent)
    && (s.producer.Gone? ==> s.closed || s.errorsSent == 1 || s.cancelled)
    && (s.consumer.Finished? ==> s.cancelled)
  }

  predicate DataInv(sys: System, s: State) {
    && s.batch == Steps(sys.env, sys.ctx, Batch(sys.rows, false), s.handled)
    && s.counters == CountersOf(Statuses(sys.env, sys.ctx, Batch(sys.rows, false), s.handled))
    && (if Ended(s.consumer, Committed) then !s.batch.aborted && s.rows == s.batch.rows && s.stamps == sys.stamps[sys.env.uid := sys.stamp]
        else s.rows == sys.rows && s.stamps == sys.stamps)
  }

  predicate Inv(sys: System, s: State) { ChannelInv(sys, s) && ErrorInv(s) && DataInv(sys, s) }

  lemma IncomingsGrow(elements: seq<Element>, n: nat)
    requires n < |elements| && AllDecoded(elements[..n]) && elements[n].Decoded?
    ensures AllDecoded(elements[..n + 1])
    ensures Incomings(elements[..n + 1]) == Incomings(elements[..n]) + [elements[n].inc]
  {
    assert elements[..n + 1] == elements[..n] + [elements[n]];
  }

  lemma ChannelKept(sys: System, s: State, a: Action)
    requires ChannelInv(sys, s) && ErrorInv(s) && Enabled(sys, s, a)
    ensures ChannelInv(sys, Act(sys, s, a))
  {
    hide Step, StepStatus, Counted;
    var after := Act(sys, s, a);
    if a.Rendezvous? {
      IncomingsGrow(sys.source.elements, s.sent);
      assert s.handled + [] == s.handled;
    } else if a.Handle? {
      assert after.handled + [] == s.handled + [s.consumer.inc];
    }
  }

  lemma ErrorKept(sys: System, s: State, a: Action)
    requires ChannelInv(sys, s) && ErrorInv(s) && Enabled(sys, s, a)
    ensures ErrorInv(Act(sys, s, a))
  {
    hide Step, StepStatus, Counted;
  }

  lemma DataKept(sys: System, s: State, a: Action)
    requires Inv(sys, s) && Enabled(sys, s, a)
    ensures DataInv(sys, Act(sys, s, a))
  {
    hide Step, StepStatus, ChannelInv, ErrorInv, Counted, CountersOf, Statuses;
    if a.Handle? {
      DataHandled(sys, s, s.consumer.inc);
    } else if a.Commit? {
      DataCommitted(sys, s, a.fault);
    } else {
      DataUntouched(sys, s, a);
    }
  }

  lemma DataHandled(sys: System, s: State, inc: Incoming)
    requires DataInv(sys, s) && s.consumer == Handling(inc) && Enabled(sys, s, Handle)
    ensures DataInv(sys, Act(sys, s, Handle))
  {
    hide Steps, Statuses, Step, StepStatus, Counted, CountersOf;
    var start := Batch(sys.rows, false);
    StepsAppend(sys.env, sys.ctx, start, s.handled, inc);
    CountOne(Statuses(sys.env, sys.ctx, start, s.handled), StepStatus(sys.env, sys.ctx, s.batch, inc));
  }

  lemma DataCommitted(sys: System, s: State, fault: bool)
    requires DataInv(sys, s) && s.consumer.Committing?
    ensures DataInv(sys, Act(sys, s, Commit(fault)))
  {
    hide Steps, CountersOf, Statuses;
  }

  /** Every other action leaves batch and table alone. */
  lemma QuietBatch(sys: System, s: State, a: Action)
    requires Enabled(sys, s, a) && !a.Handle? && !a.Commit?
    ensures var t := Act(sys, s, a); t.handled == s.handled && t.batch == s.batch && t.counters == s.counters
  {
    hide Step, StepStatus, Counted;
  }

  lemma QuietTable(sys: System, s: State, a: Action)
    requires Enabled(sys, s, a) && !a.Handle? && !a.Commit?
    ensures var t := Act(sys, s, a);
            t.rows == s.rows && t.stamps == s.stamps && (Ended(t.consumer, Committed) <==> Ended(s.consumer, Committed))
  {
    hide Step, StepStatus, Counted;
  }

  lemma DataUntouched(sys: System, s: State, a: Action)
    requires DataInv(sys, s) && Enabled(sys, s, a) && !a.Handle? && !a.Commit?
    ensures DataInv(sys, Act(sys, s, a))
  {
    hide Steps, CountersOf, Statuses, Act, Enabled;
    QuietBatch(sys, s, a);
    QuietTable(sys, s, a);
  }

  /** Every reachable state satisfies the invariant. */
  lemma {:induction false} RunsKeepInv(sys: System, actions: seq<Action>)
    requires Run(sys, actions).Some?
    ensures Inv(sys, Run(sys, actions).value)
    decreases |actions|
  {
    hide Act, Enabled, ChannelInv, ErrorInv, DataInv;
    if actions == [] {
      InitInv(sys);
    } else {
      var init, a := actions[..|actions| - 1], actions[|actions| - 1];
      RunsKeepInv(sys, init);
      var s := Run(sys, init).value;
      ChannelKept(sys, s, a);
      ErrorKept(sys, s, a);
      DataKept(sys, s, a);
    }
  }

  lemma InitInv(sys: System)
    ensures Inv(sys, Init(sys))
  {
    NoneCounted();
  }

  // ---------- safety ----------

  /**
   In every interleaving the handled records are an in-order prefix of the decoded
   ones, each handled once; rows and stamp change together, only after the channel
   was closed, and then every element was decoded and handled; the counters add up.
   */
  lemma HandledInOrder(sys: System, actions: seq<Action>)
    requires Run(sys, actions).Some?
    ensures var s, elements := Run(sys, actions).value, sys.source.elements;
            && |s.handled| <= |elements| && AllDecoded(elements[..|s.handled|]) && s.handled == Incomings(elements[..|s.handled|])
            && s.counters == CountersOf(Statuses(sys.env, sys.ctx, Batch(sys.rows, false), s.handled))
            && s.counters.read == |s.handled| && Balanced(s.counters)
            && ((s.rows, s.stamps) != (sys.rows, sys.stamps) ==> Ended(s.consumer, Committed))
            && (Ended(s.consumer, Committed) ==>
                  s.closed && sys.source.opening.Bracket? && AllDecoded(elements) && s.handled == Incomings(elements)
                  && s.rows == Steps(sys.env, sys.ctx, Batch(sys.rows, false), Incomings(elements)).rows
                  && s.stamps == sys.stamps[sys.env.uid := sys.stamp])
  {
    hide Run, Steps, Balanced, CountersOf, Statuses;
    RunsKeepInv(sys, actions);
    AllCounted(Statuses(sys.env, sys.ctx, Batch(sys.rows, false), Run(sys, actions).value.handled));
    var s, elements := Run(sys, actions).value, sys.source.elements;
    var n := |s.handled|;
    assert elements[..s.sent][..n] == elements[..n];
    assert Incomings(elements[..s.sent])[..n] == Incomings(elements[..n]);
    assert elements[..|elements|] == elements;
  }

  // ---------- why a run ended as it did ----------

  /** Something about the response body is wrong. */
  predicate Faulty(source: Source) {
    !source.opening.Bracket? || !source.closingOk || exists e <- source.elements :: e.Undecodable?
  }

  predicate CauseInv(sys: System, s: State, actions: seq<Action>) {
    && (s.errorsSent > 0 ==> Faulty(sys.source))
    && (s.cancelled && !s.consumer.Finished? ==> Deadline in actions)
    && (Ended(s.consumer, TimedOut) ==> Deadline in actions)
    && (Ended(s.consumer, StreamFailed) ==> s.errorsSent > 0)
    && (Ended(s.consumer, CommitFailed) ==> s.closed && (s.batch.aborted || Commit(true) in actions))
  }

  lemma CauseKept(sys: System, s: State, actions: seq<Action>, a: Action)
    requires CauseInv(sys, s, actions) && ErrorInv(s) && ChannelInv(sys, s) && Enabled(sys, s, a)
    ensures CauseInv(sys, Act(sys, s, a), actions + [a])
  {
    hide Step, StepStatus, Counted, ChannelInv;
    assert forall b <- actions :: b in actions + [a];
    if a.DecodeNext? && s.producer.i < |sys.source.elements| {
      assert sys.source.elements[s.producer.i] in sys.source.elements;
    }
    if a.Commit? { assert s.closed by { ClosedAtCommit(sys, s); } }
  }

  lemma ClosedAtCommit(sys: System, s: State)
    requires ChannelInv(sys, s) && s.consumer.Committing?
    ensures s.closed
  {
  }

  lemma {:induction false} RunsKeepCauses(sys: System, actions: seq<Action>)
    requires Run(sys, actions).Some?
    ensures CauseInv(sys, Run(sys, actions).value, actions)
    decreases |actions|
  {
    hide Act, Enabled, ChannelInv, ErrorInv, DataInv, CauseInv;
    if actions == [] {
      InitCauses(sys);
    } else {
      var init, a := actions[..|actions| - 1], actions[|actions| - 1];
      RunsKeepCauses(sys, init);
      RunsKeepInv(sys, init);
      CauseKept(sys, Run(sys, init).value, init, a);
      assert actions == init + [a];
    }
  }

  lemma InitCauses(sys: System)
    ensures CauseInv(sys, Init(sys), [])
  {
  }

  /**
   In every interleaving: the loop reports a stream error only if the body is faulty, a
   timeout only if the deadline passed, and a failed commit only after the channel was
   closed and a statement or the commit itself failed.
   */
  lemma EndingsHaveCauses(sys: System, actions: seq<Action>)
    requires Run(sys, actions).Some?
    ensures var s := Run(sys, actions).value;
            && (Ended(s.consumer, StreamFailed) ==> Faulty(sys.source))
            && (Ended(s.consumer, TimedOut) ==> Deadline in actions)
            && (Ended(s.consumer, CommitFailed) ==> s.closed && (s.batch.aborted || Commit(true) in actions))
  {
    hide Run, Faulty;
    RunsKeepCauses(sys, actions);
  }

  // ---------- an interleaving is a batch ----------

  /** What the select loop received: the handled records, then the event that ended it. */
  function EventsOf(handled: seq<Incoming>, last: Event): seq<Event> {
    seq(|handled|, i requires 0 <= i < |handled| => Received(handled[i])) + [last]
  }

  function LastEvent(e: Ending): Event {
    match e
    case Committed => Closed
    case CommitFailed => Closed
    case StreamFailed => StreamError
    case TimedOut => Timeout
  }

  lemma EventsTrace(handled: seq<Incoming>, last: Event)
    requires !last.Received?
    ensures IsTrace(EventsOf(handled, last))
    ensures var events := EventsOf(handled, last); RecordsOf(events[..|events| - 1]) == handled && events[|events| - 1] == last
  {
    var events := EventsOf(handled, last);
    forall e | e in events[..|events| - 1] ensures e.Received? {
      var i :| 0 <= i < |events| - 1 && events[..|events| - 1][i] == e;
    }
  }

  /**
   However the two sides interleave, a finished run leaves the table, the stamps and
   the counters that the sequential batch promises for the records it handled.
   */
  lemma FinishedIsBatch(sys: System, actions: seq<Action>, total: int, listFault: bool) returns (run: BatchRun)
    requires Run(sys, actions).Some? && Run(sys, actions).value.consumer.Finished?
    ensures IsTrace(run.events) && run.env == sys.env && run.stamp == sys.stamp && run.total == total && run.listFault == listFault
    ensures var s := Run(sys, actions).value;
            && run.Records() == s.handled && run.End() == LastEvent(s.consumer.ending)
            && IsOutcome(run, Table(sys.rows, sys.stamps), Table(s.rows, s.stamps),
                         Finish(sys.ctx, s.consumer.ending.Committed?, s.consumer.ending.CommitFailed? || s.consumer.ending.StreamFailed?,
                                s.counters))
  {
    hide Run, Steps, Statuses, CountersOf, RecordsOf, EventsOf, ChannelInv, ErrorInv;
    RunsKeepInv(sys, actions);
    var s := Run(sys, actions).value;
    var last := LastEvent(s.consumer.ending);
    EventsTrace(s.handled, last);
    run := BatchRun(sys.env, total, listFault, EventsOf(s.handled, last), sys.stamp, s.consumer.ending.CommitFailed?);
  }

  // ---------- the error channel ----------

  /** At most one error is ever sent, so the send into the one-slot channel never blocks. */
  lemma ErrorSendNeverBlocks(sys: System, actions: seq<Action>)
    requires Run(sys, actions).Some?
    ensures var s := Run(sys, actions).value;
            && s.errorsSent <= 1
            && (s.producer.Starting? ==> Enabled(sys, s, ReadOpening))
            && (s.producer.Looping? ==> Enabled(sys, s, DecodeNext))
            && (s.producer.Ending? ==> Enabled(sys, s, ReadClosing))
  {
    hide Run, ChannelInv, DataInv;
    RunsKeepInv(sys, actions);
  }

  // ---------- termination ----------

  function ProducerRank(sys: System, p: Producer): int {
    var n := |sys.source.elements|;
    match p
    case Starting => 4 * n + 4
    case Looping(i) => 4 * (n - i) + 3
    case Sending(i) => 4 * (n - i) + 2
    case Ending => 2
    case Closing => 1
    case Gone => 0
  }

  function ConsumerRank(c: Consumer): int {
    match c
    case Selecting => 3
    case Handling(_) => 4
    case Committing => 2
    case Returning(_) => 1
    case Finished(_) => 0
  }

  function Measure(sys: System, s: State): int {
    ProducerRank(sys, s.producer) + ConsumerRank(s.consumer) + if s.cancelled then 0 else 1
  }

  lemma MeasureDrops(sys: System, s: State, a: Action)
    requires ChannelInv(sys, s) && Enabled(sys, s, a)
    ensures Measure(sys, Act(sys, s, a)) < Measure(sys, s)
  {
    hide Step, StepStatus, Counted;
  }

  lemma MeasureNotNegative(sys: System, s: State)
    requires ChannelInv(sys, s)
    ensures 0 <= Measure(sys, s)
  {
  }

  lemma InitialMeasure(sys: System)
    ensures Measure(sys, Init(sys)) == 4 * |sys.source.elements| + 8
  {
  }

  /** Every interleaving is finite. */
  lemma {:induction false} RunsAreBounded(sys: System, actions: seq<Action>)
    requires Run(sys, actions).Some?
    ensures |actions| + Measure(sys, Run(sys, actions).value) <= 4 * |sys.source.elements| + 8
    ensures 0 <= Measure(sys, Run(sys, actions).value)
    decreases |actions|
  {
    hide Act, Enabled, ChannelInv, ErrorInv, DataInv, Measure;
    RunsKeepInv(sys, actions);
    MeasureNotNegative(sys, Run(sys, actions).value);
    if actions == [] {
      InitialMeasure(sys);
    } else {
      var init, a := actions[..|actions| - 1], actions[|actions| - 1];
      RunsAreBounded(sys, init);
      RunsKeepInv(sys, init);
      MeasureDrops(sys, Run(sys, init).value, a);
    }
  }

  predicate Final(s: State) { s.producer.Gone? && s.consumer.Finished? }

  /** The action that can always be taken, without waiting for the deadline. */
  function NextAction(s: State): Action {
    if s.consumer.Handling? then Handle
    else if s.consumer.Committing? then Commit(false)
    else if s.consumer.Returning? then Return
    else if s.producer.Starting? then ReadOpening
    else if s.producer.Looping? then DecodeNext
    else if s.producer.Ending? then ReadClosing
    else if s.producer.Closing? then Close
    else if s.producer.Sending? then if s.consumer.Selecting? then Rendezvous else Abandon
    else if s.closed then SeeClosed
    else if s.errors > 0 then SeeError
    else SeeCancelled
  }

  /** No interleaving gets stuck: until both sides have ended something other than the deadline can happen. */
  lemma NeverStuck(sys: System, actions: seq<Action>)
    requires Run(sys, actions).Some? && !Final(Run(sys, actions).value)
    ensures var s := Run(sys, actions).value; Enabled(sys, s, NextAction(s)) && !NextAction(s).Deadline?
  {
    hide Run, DataInv;
    RunsKeepInv(sys, actions);
  }

  /** Hence every interleaving can be, and if continued must be, driven to the end of both sides. */
  lemma {:induction false} EndsWithBothGone(sys: System, actions: seq<Action>) returns (rest: seq<Action>)
    requires Run(sys, actions).Some?
    ensures Run(sys, actions + rest).Some? && Final(Run(sys, actions + rest).value)
    ensures |actions + rest| <= 4 * |sys.source.elements| + 8
    decreases 4 * |sys.source.elements| + 8 - |actions|
  {
    hide Act, Enabled, NextAction, Final, Measure, Run;
    RunIsShort(sys, actions);
    var s := Run(sys, actions).value;
    if Final(s) {
      rest := [];
      assert actions + rest == actions;
    } else {
      NeverStuck(sys, actions);
      var a := NextAction(s);
      RunStep(sys, actions, a);
      RunIsShort(sys, actions + [a]);
      var more := EndsWithBothGone(sys, actions + [a]);
      rest := [a] + more;
      assert actions + rest == actions + [a] + more;
    }
  }

  lemma RunIsShort(sys: System, actions: seq<Action>)
    requires Run(sys, actions).Some?
    ensures |actions| <= 4 * |sys.source.elements| + 8
  {
    hide Run, Measure;
    RunsAreBounded(sys, actions);
  }

  // ---------- when a commit is possible ----------

  function SendOne(): seq<Action> { [DecodeNext, Rendezvous, Handle] }

  function SendMany(n: nat): seq<Action> {
    if n == 0 then [ReadOpening] else SendMany(n - 1) + SendOne()
  }

  lemma RunStep(sys: System, actions: seq<Action>, a: Action)
    requires Run(sys, actions).Some? && Enabled(sys, Run(sys, actions).value, a)
    ensures Run(sys, actions + [a]) == Some(Act(sys, Run(sys, actions).value, a))
  {
    assert (actions + [a])[..|actions + [a]| - 1] == actions;
  }

  /** The eager interleaving after n records. */
  ghost predicate Eager(sys: System, s: State, n: nat) {
    s.producer == Looping(n) && s.consumer == Selecting && s.errors == 0 && !s.closed && !s.cancelled && s.rows == sys.rows
  }

  lemma {:induction false} SendManyRuns(sys: System, n: nat)
    requires sys.source.opening.Bracket? && n <= |sys.source.elements| && AllDecoded(sys.source.elements)
    ensures Run(sys, SendMany(n)).Some? && Eager(sys, Run(sys, SendMany(n)).value, n)
  {
    hide Step, StepStatus, Run;
    if n == 0 {
      assert [] + [ReadOpening] == [ReadOpening];
      RunEmpty(sys);
      RunStep(sys, [], ReadOpening);
    } else {
      SendManyRuns(sys, n - 1);
      var before := SendMany(n - 1);
      assert sys.source.elements[n - 1] in sys.source.elements;
      RunStep(sys, before, DecodeNext);
      RunStep(sys, before + [DecodeNext], Rendezvous);
      RunStep(sys, before + [DecodeNext] + [Rendezvous], Handle);
      assert before + [DecodeNext] + [Rendezvous] + [Handle] == SendMany(n);
    }
  }

  lemma RunEmpty(sys: System)
    ensures Run(sys, []) == Some(Init(sys))
  {
  }

  predicate CommitsCleanly(sys: System) {
    && sys.source.opening.Bracket? && AllDecoded(sys.source.elements)
    && !Steps(sys.env, sys.ctx, Batch(sys.rows, false), Incomings(sys.source.elements)).aborted
  }

  /** A run that commits, closing token or not. */
  lemma CommittingRun(sys: System) returns (actions: seq<Action>)
    requires CommitsCleanly(sys)
    ensures Run(sys, actions).Some? && Ended(Run(sys, actions).value.consumer, Committed)
  {
    hide Step, StepStatus, Run, Steps, Incomings;
    var n := |sys.source.elements|;
    actions := SendMany(n);
    SendManyRuns(sys, n);
    RunStep(sys, actions, DecodeNext);
    actions := actions + [DecodeNext];
    RunStep(sys, actions, ReadClosing);
    actions := actions + [ReadClosing];
    RunStep(sys, actions, Close);
    actions := actions + [Close];
    RunStep(sys, actions, SeeClosed);
    actions := actions + [SeeClosed];
    NotAborted(sys, actions);
    RunStep(sys, actions, Commit(false));
    actions := actions + [Commit(false)];
  }

  lemma NotAborted(sys: System, actions: seq<Action>)
    requires CommitsCleanly(sys) && Run(sys, actions).Some? && Run(sys, actions).value.consumer.Committing?
    ensures !Run(sys, actions).value.batch.aborted
  {
    hide Run, Steps;
    RunsKeepInv(sys, actions);
    var s := Run(sys, actions).value;
    assert s.handled + [] == s.handled;
    assert sys.source.elements[..s.sent] == sys.source.elements;
  }

  /**
   Some interleaving commits exactly when the stream is an array whose elements all
   decode and no statement of the batch failed.  The closing token is not part of
   the condition: when it cannot be read the error and the closed channel are both
   there, and the loop may take either.
   */
  lemma CommitPossibleIff(sys: System)
    ensures (exists actions :: Run(sys, actions).Some? && Ended(Run(sys, actions).value.consumer, Committed)) <==> CommitsCleanly(sys)
  {
    hide Run, Steps;
    if actions :| Run(sys, actions).Some? && Ended(Run(sys, actions).value.consumer, Committed) {
      RunsKeepInv(sys, actions);
      var s := Run(sys, actions).value;
      assert s.handled + [] == s.handled;
      assert sys.source.elements[..s.sent] == sys.source.elements;
    }
    if CommitsCleanly(sys) {
      var actions := CommittingRun(sys);
    }
  }

  /** An unreadable closing token does not prevent a commit, nor does it guarantee one: both endings are reachable. */
  lemma ClosingTokenUndecided(sys: System) returns (committing: seq<Action>, failing: seq<Action>)
    requires CommitsCleanly(sys) && !sys.source.closingOk
    ensures Run(sys, committing).Some? && Ended(Run(sys, committing).value.consumer, Committed)
    ensures Run(sys, failing).Some? && Ended(Run(sys, failing).value.consumer, StreamFailed)
  {
    hide Step, StepStatus, Run, Steps, CommitsCleanly;
    committing := CommittingRun(sys);
    failing := FailingRun(sys);
  }

  lemma FailingRun(sys: System) returns (actions: seq<Action>)
    requires CommitsCleanly(sys) && !sys.source.closingOk
    ensures Run(sys, actions).Some? && Ended(Run(sys, actions).value.consumer, StreamFailed)
  {
    hide Step, StepStatus, Run, Steps, Incomings;
    var n := |sys.source.elements|;
    actions := SendMany(n);
    SendManyRuns(sys, n);
    RunStep(sys, actions, DecodeNext);
    actions := actions + [DecodeNext];
    RunStep(sys, actions, ReadClosing);
    actions := actions + [ReadClosing];
    RunStep(sys, actions, SeeError);
    actions := actions + [SeeError];
  }
}
