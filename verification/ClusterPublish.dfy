/** The cluster realtime transport of one `App`: a queue of events, a publisher that broadcasts it in
    batches, and a chain of delete-prepare calls that every batch has to wait for.

    JavaScript runs to completion between two `await`s, so one atomic step below is one such segment.
    `Next` is total: a step that is not enabled leaves the state alone, so the sequences of steps are
    exactly the interleavings. */
module ClusterPublish {
  import opened Wrappers

  datatype RealtimeEvent = DeleteCommit(eventId: string) | DeleteAbort(eventId: string) | Other(payload: string)

  /** A published event, with the number of prepares that were enqueued before it (history). */
  datatype Entry = Entry(event: RealtimeEvent, preparesBefore: nat)

  /** `Waiting` for the promise it was chained to, `Running`, `Settled`, and `CleanedUp` once the
      reaction that may reset `prepareTail` has run. */
  datatype Phase = Waiting | Running | Settled | CleanedUp

  /** A promise of the chain: `None` is `Promise.resolve()`, `Some(k)` the promise of prepare `k`. */
  type Tail = Option<nat>

  datatype Prepare = Prepare(eventIds: seq<string>, after: Tail, phase: Phase) {
    predicate Done() { phase.Settled? || phase.CleanedUp? }
  }

  /** Where a suspended publisher will resume. `taken` is the number of prepares enqueued when the
      batch was spliced off the queue (history). */
  datatype Publisher =
    | Importing
    | AtBarrier(batch: seq<Entry>, prepared: Tail, taken: nat)
    | Broadcasting(batch: seq<Entry>)

  /** An event that left the transport: handed to the broadcaster, or dropped. */
  datatype Handled = Handled(entry: Entry, lost: bool)

  datatype State = State(
    prepareTail: Tail,
    publishEvents: seq<Entry>,
    publishRunning: bool,
    publishTimer: bool,
    timers: nat,                  // timeouts the runtime still has to fire
    publishers: seq<Publisher>,   // suspended publishers
    prepares: seq<Prepare>,       // all prepares ever enqueued
    published: seq<Entry>,        // history
    handled: seq<Handled>)        // history

  datatype Step =
    | Publish(event: RealtimeEvent, remote: bool)
    | Enqueue(eventIds: seq<string>)
    | TimerFires
    | Imported(p: nat)
    | ImportFails(p: nat)
    | BarrierOpens(p: nat)
    | BroadcastEnds(p: nat)
    | PrepareStarts(k: nat)
    | PrepareSettles(k: nat)
    | PrepareCleanup(k: nat)

  function Init(): State { State(None, [], false, false, 0, [], [], [], []) }

  // ---------------------------------------------------------------- the segments

  function Schedule(s: State): State {
    if s.publishRunning || s.publishTimer then s else s.(publishTimer := true, timers := s.timers + 1)
  }

  function Finish(s: State, p: nat): State
    requires p < |s.publishers|
  {
    var t := s.(publishers := s.publishers[..p] + s.publishers[p+1..], publishRunning := false);
    if t.publishEvents != [] then Schedule(t) else t
  }

  function LoopHead(s: State, p: nat): State
    requires p < |s.publishers|
  {
    if s.publishEvents != [] then
      s.(publishers := s.publishers[p := AtBarrier(s.publishEvents, s.prepareTail, |s.prepares|)], publishEvents := [])
    else Finish(s, p)
  }

  function Mark(entries: seq<Entry>, lost: bool): (r: seq<Handled>)
    ensures |r| == |entries|
    ensures forall i :: 0 <= i < |r| ==> r[i] == Handled(entries[i], lost)
  {
    seq(|entries|, i requires 0 <= i < |entries| => Handled(entries[i], lost))
  }

  predicate Resolved(s: State, tail: Tail) {
    tail.None? || (tail.value < |s.prepares| && s.prepares[tail.value].Done())
  }

  predicate Enabled(s: State, step: Step) {
    match step
    case Publish(_, _) => true
    case Enqueue(_) => true
    case TimerFires => s.timers > 0
    case Imported(p) => p < |s.publishers| && s.publishers[p].Importing?
    case ImportFails(p) => p < |s.publishers| && s.publishers[p].Importing?
    case BarrierOpens(p) => p < |s.publishers| && s.publishers[p].AtBarrier? && Resolved(s, s.publishers[p].prepared)
    case BroadcastEnds(p) => p < |s.publishers| && s.publishers[p].Broadcasting?
    case PrepareStarts(k) => k < |s.prepares| && s.prepares[k].phase.Waiting? && Resolved(s, s.prepares[k].after)
    case PrepareSettles(k) => k < |s.prepares| && s.prepares[k].phase.Running?
    case PrepareCleanup(k) => k < |s.prepares| && s.prepares[k].phase.Settled?
  }

  function SetPhase(s: State, k: nat, phase: Phase): State
    requires k < |s.prepares|
  {
    s.(prepares := s.prepares[k := s.prepares[k].(phase := phase)])
  }

  function Perform(s: State, step: Step): State
    requires Enabled(s, step)
  {
    match step
    case Publish(event, remote) =>
      if !remote then s else
        var entry := Entry(event, |s.prepares|);
        Schedule(s.(publishEvents := s.publishEvents + [entry], published := s.published + [entry]))
    case Enqueue(ids) =>
      s.(prepares := s.prepares + [Prepare(ids, s.prepareTail, Waiting)], prepareTail := Some(|s.prepares|))
    case TimerFires =>
      s.(timers := s.timers - 1, publishTimer := false, publishRunning := true,
         publishers := s.publishers + [Importing])
    case Imported(p) => LoopHead(s, p)
    case ImportFails(p) =>
      Finish(s.(publishEvents := [], handled := s.handled + Mark(s.publishEvents, true)), p)
    case BarrierOpens(p) =>
      var batch := s.publishers[p].batch;
      s.(publishers := s.publishers[p := Broadcasting(batch)], handled := s.handled + Mark(batch, false))
    case BroadcastEnds(p) => LoopHead(s, p)
    case PrepareStarts(k) => SetPhase(s, k, Running)
    case PrepareSettles(k) => SetPhase(s, k, Settled)
    case PrepareCleanup(k) =>
      var t := SetPhase(s, k, CleanedUp);
      if s.prepareTail == Some(k) then t.(prepareTail := None) else t
  }

  function Next(s: State, step: Step): State {
    if Enabled(s, step) then Perform(s, step) else s
  }

  function Run(s: State, steps: seq<Step>): State
    decreases |steps|
  {
    if steps == [] then s else Next(Run(s, steps[..|steps|-1]), steps[|steps|-1])
  }

  // ---------------------------------------------------------------- the invariant

  ghost predicate DoneBelow(prepares: seq<Prepare>, n: nat) {
    n <= |prepares| && forall k :: 0 <= k < n ==> prepares[k].Done()
  }

  /** Every prepare is chained to the one before it, or to a resolved promise when all before it are
      done; the tail is the last prepare, or a resolved promise when all are done. */
  ghost predicate Chained(prepares: seq<Prepare>, tail: Tail) {
    && (forall k :: 0 <= k < |prepares| && prepares[k].after.Some? ==> prepares[k].after.value == k - 1)
    && (forall k :: 0 <= k < |prepares| && prepares[k].after.None? ==> DoneBelow(prepares, k))
    && (forall k :: 0 <= k < |prepares| && !prepares[k].phase.Waiting? ==> DoneBelow(prepares, k))
    && (tail.None? ==> DoneBelow(prepares, |prepares|))
    && (tail.Some? ==> tail.value + 1 == |prepares|)
  }

  function InFlight(s: State): seq<Entry> {
    if |s.publishers| == 1 && s.publishers[0].AtBarrier? then s.publishers[0].batch else []
  }

  function Entries(handled: seq<Handled>): (r: seq<Entry>)
    ensures |r| == |handled|
    ensures forall i :: 0 <= i < |r| ==> r[i] == handled[i].entry
  {
    seq(|handled|, i requires 0 <= i < |handled| => handled[i].entry)
  }

  ghost predicate Scheduled(s: State) {
    && |s.publishers| == (if s.publishRunning then 1 else 0)
    && s.timers == (if s.publishTimer then 1 else 0)
    && !(s.publishRunning && s.publishTimer)
    && (s.publishEvents != [] ==> s.publishTimer || s.publishRunning)
  }

  ghost predicate Conserved(s: State) {
    Entries(s.handled) + InFlight(s) + s.publishEvents == s.published
  }

  ghost predicate StampsWithin(entries: seq<Entry>, n: nat) {
    forall i :: 0 <= i < |entries| ==> entries[i].preparesBefore <= n
  }

  /** The promise a waiting publisher captured stands for all prepares enqueued before its batch was taken. */
  ghost predicate BarriersCover(s: State) {
    forall p :: 0 <= p < |s.publishers| && s.publishers[p].AtBarrier? ==>
      var pub := s.publishers[p];
      && pub.taken <= |s.prepares|
      && StampsWithin(pub.batch, pub.taken)
      && (pub.prepared.None? ==> DoneBelow(s.prepares, pub.taken))
      && (pub.prepared.Some? ==> pub.prepared.value + 1 == pub.taken)
  }

  ghost predicate SentAfterPrepares(s: State) {
    forall i :: 0 <= i < |s.handled| && !s.handled[i].lost ==> DoneBelow(s.prepares, s.handled[i].entry.preparesBefore)
  }

  ghost predicate Inv(s: State) {
    && Scheduled(s)
    && Chained(s.prepares, s.prepareTail)
    && Conserved(s)
    && StampsWithin(s.publishEvents, |s.prepares|)
    && BarriersCover(s)
    && SentAfterPrepares(s)
  }

  lemma NextKeepsScheduled(s: State, step: Step)
    requires Scheduled(s)
    ensures Scheduled(Next(s, step))
  {
  }

  /** Prepares are only added, and a finished one stays finished. */
  lemma NextKeepsDone(s: State, step: Step)
    ensures |s.prepares| <= |Next(s, step).prepares|
    ensures forall k :: 0 <= k < |s.prepares| && s.prepares[k].Done() ==> Next(s, step).prepares[k].Done()
    ensures forall n :: DoneBelow(s.prepares, n) ==> DoneBelow(Next(s, step).prepares, n)
  {
  }

  lemma AdvanceKeepsChained(prepares: seq<Prepare>, tail: Tail, k: nat, phase: Phase)
    requires Chained(prepares, tail) && k < |prepares| && !phase.Waiting?
    requires prepares[k].Done() ==> phase.CleanedUp?
    requires prepares[k].phase.Waiting? ==>
      prepares[k].after.None? || (prepares[k].after.value < |prepares| && prepares[prepares[k].after.value].Done())
    ensures Chained(prepares[k := prepares[k].(phase := phase)], tail)
  {
    if prepares[k].after.Some? && prepares[k].phase.Waiting? {
      assert DoneBelow(prepares, k - 1);
    }
    var after := prepares[k := prepares[k].(phase := phase)];
    assert forall n :: DoneBelow(prepares, n) ==> DoneBelow(after, n);
  }

  lemma EnqueueKeepsChained(prepares: seq<Prepare>, tail: Tail, ids: seq<string>)
    requires Chained(prepares, tail)
    ensures Chained(prepares + [Prepare(ids, tail, Waiting)], Some(|prepares|))
  {
    var after := prepares + [Prepare(ids, tail, Waiting)];
    assert forall n :: DoneBelow(prepares, n) ==> DoneBelow(after, n);
  }

  /** Resetting the tail once the last prepare is done loses nothing of the chain. */
  lemma ResetKeepsChained(prepares: seq<Prepare>, k: nat)
    requires Chained(prepares, Some(k)) && k < |prepares| && prepares[k].Done()
    ensures Chained(prepares, None)
  {
    assert DoneBelow(prepares, k);
  }

  lemma NextKeepsChained(s: State, step: Step)
    requires Chained(s.prepares, s.prepareTail)
    ensures Chained(Next(s, step).prepares, Next(s, step).prepareTail)
  {
    if Enabled(s, step) {
      match step
      case Enqueue(ids) => EnqueueKeepsChained(s.prepares, s.prepareTail, ids);
      case PrepareStarts(k) => AdvanceKeepsChained(s.prepares, s.prepareTail, k, Running);
      case PrepareSettles(k) => AdvanceKeepsChained(s.prepares, s.prepareTail, k, Settled);
      case PrepareCleanup(k) =>
        AdvanceKeepsChained(s.prepares, s.prepareTail, k, CleanedUp);
        if s.prepareTail == Some(k) {
          ResetKeepsChained(SetPhase(s, k, CleanedUp).prepares, k);
        }
      case _ =>
    }
  }

  lemma EntriesOfMarked(handled: seq<Handled>, batch: seq<Entry>, lost: bool)
    ensures Entries(handled + Mark(batch, lost)) == Entries(handled) + batch
  {
  }

  lemma LoopHeadConserves(s: State)
    requires Conserved(s) && |s.publishers| == 1 && !s.publishers[0].AtBarrier?
    ensures Conserved(LoopHead(s, 0))
  {
    assert Entries(s.handled) + [] + s.publishEvents == Entries(s.handled) + s.publishEvents + [];
  }

  lemma PublishConserves(s: State, event: RealtimeEvent)
    requires Conserved(s)
    ensures Conserved(Perform(s, Publish(event, true)))
  {
    var entry := Entry(event, |s.prepares|);
    assert Entries(s.handled) + InFlight(s) + (s.publishEvents + [entry])
        == (Entries(s.handled) + InFlight(s) + s.publishEvents) + [entry];
  }

  lemma ImportFailureConserves(s: State)
    requires Conserved(s) && |s.publishers| == 1 && s.publishers[0].Importing?
    ensures Conserved(Perform(s, ImportFails(0)))
  {
    EntriesOfMarked(s.handled, s.publishEvents, true);
  }

  lemma BroadcastConserves(s: State)
    requires Conserved(s) && |s.publishers| == 1 && Enabled(s, BarrierOpens(0))
    ensures Conserved(Perform(s, BarrierOpens(0)))
  {
    EntriesOfMarked(s.handled, InFlight(s), false);
  }

  lemma NextConserves(s: State, step: Step)
    requires Scheduled(s) && Conserved(s)
    ensures Conserved(Next(s, step))
  {
    hide LoopHead, Finish, Schedule, Entries, Mark;
    if Enabled(s, step) {
      match step
      case Publish(event, remote) => if remote { PublishConserves(s, event); }
      case Imported(p) => LoopHeadConserves(s);
      case ImportFails(p) => ImportFailureConserves(s);
      case BarrierOpens(p) => BroadcastConserves(s);
      case BroadcastEnds(p) => LoopHeadConserves(s);
      case _ =>
    }
  }

  lemma NextKeepsBarriers(s: State, step: Step)
    requires Inv(s)
    ensures BarriersCover(Next(s, step)) && StampsWithin(Next(s, step).publishEvents, |Next(s, step).prepares|)
  {
    hide Inv, DoneBelow, LoopHead, Finish, BarriersCover;
    InvParts(s);
    NextKeepsDone(s, step);
    if Enabled(s, step) {
      match step
      case Imported(p) => LoopHeadCovers(s, p);
      case BroadcastEnds(p) => LoopHeadCovers(s, p);
      case ImportFails(p) =>
        var dropped := s.(publishEvents := [], handled := s.handled + Mark(s.publishEvents, true));
        OtherPublishersCover(s, dropped);
        FinishCovers(dropped, p);
      case _ => OtherPublishersCover(s, Next(s, step));
    }
  }

  lemma OtherPublishersCover(s: State, t: State)
    requires BarriersCover(s) && |s.prepares| <= |t.prepares|
    requires forall n :: DoneBelow(s.prepares, n) ==> DoneBelow(t.prepares, n)
    requires forall p :: 0 <= p < |t.publishers| && t.publishers[p].AtBarrier? ==>
      p < |s.publishers| && t.publishers[p] == s.publishers[p]
    ensures BarriersCover(t)
  {
    hide DoneBelow, StampsWithin;
  }

  lemma FinishCovers(s: State, p: nat)
    requires BarriersCover(s) && StampsWithin(s.publishEvents, |s.prepares|) && p < |s.publishers|
    ensures BarriersCover(Finish(s, p)) && StampsWithin(Finish(s, p).publishEvents, |Finish(s, p).prepares|)
  {
    hide DoneBelow, StampsWithin;
    var rest := s.publishers[..p] + s.publishers[p+1..];
    assert forall i :: 0 <= i < |rest| ==> rest[i] == s.publishers[if i < p then i else i + 1];
  }

  lemma LoopHeadCovers(s: State, p: nat)
    requires BarriersCover(s) && StampsWithin(s.publishEvents, |s.prepares|) && Chained(s.prepares, s.prepareTail)
    requires p < |s.publishers|
    ensures BarriersCover(LoopHead(s, p)) && StampsWithin(LoopHead(s, p).publishEvents, |LoopHead(s, p).prepares|)
  {
    hide DoneBelow, Finish;
    if s.publishEvents == [] { FinishCovers(s, p); }
  }

  lemma NextKeepsSent(s: State, step: Step)
    requires Inv(s)
    ensures SentAfterPrepares(Next(s, step))
  {
    hide Conserved, Chained, Scheduled, DoneBelow, BarriersCover, Inv;
    NextKeepsDone(s, step);
    assert SentAfterPrepares(s) by { InvParts(s); }
    match step
    case BarrierOpens(p) =>
      if Enabled(s, step) {
        OpenBarrierCovers(s, p);
        BelowIsDone(s.prepares);
      }
    case _ =>
  }

  lemma InvParts(s: State)
    requires Inv(s)
    ensures Scheduled(s) && Chained(s.prepares, s.prepareTail) && SentAfterPrepares(s)
    ensures BarriersCover(s) && StampsWithin(s.publishEvents, |s.prepares|)
  {
  }

  lemma BelowIsDone(prepares: seq<Prepare>)
    ensures forall n: nat, m: nat :: DoneBelow(prepares, n) && m <= n ==> DoneBelow(prepares, m)
  {
  }

  lemma NextKeepsInv(s: State, step: Step)
    requires Inv(s)
    ensures Inv(Next(s, step))
  {
    NextKeepsScheduled(s, step);
    NextKeepsChained(s, step);
    NextConserves(s, step);
    NextKeepsBarriers(s, step);
    NextKeepsSent(s, step);
  }

  lemma {:induction false} RunKeepsInv(s: State, steps: seq<Step>)
    requires Inv(s)
    ensures Inv(Run(s, steps))
  {
    if steps == [] {
    } else {
      RunKeepsInv(s, steps[..|steps|-1]);
      NextKeepsInv(Run(s, steps[..|steps|-1]), steps[|steps|-1]);
    }
  }

  lemma {:induction false} RunConcat(s: State, a: seq<Step>, b: seq<Step>)
    ensures Run(s, a + b) == Run(Run(s, a), b)
  {
    if b == [] {
      assert a + b == a;
    } else {
      assert (a + b)[..|a + b|-1] == a + b[..|b|-1];
      RunConcat(s, a, b[..|b|-1]);
    }
  }

  // ---------------------------------------------------------------- delivery over every interleaving

  /** The events a run publishes while some other worker has realtime clients. */
  function Accepted(steps: seq<Step>): seq<RealtimeEvent> {
    if steps == [] then [] else
      var last := steps[|steps|-1];
      Accepted(steps[..|steps|-1]) + (if last.Publish? && last.remote then [last.event] else [])
  }

  function Events(entries: seq<Entry>): (r: seq<RealtimeEvent>)
    ensures |r| == |entries|
    ensures forall i :: 0 <= i < |r| ==> r[i] == entries[i].event
  {
    seq(|entries|, i requires 0 <= i < |entries| => entries[i].event)
  }

  lemma NextPublishes(s: State, step: Step)
    ensures Next(s, step).published
         == s.published + (if step.Publish? && step.remote then [Entry(step.event, |s.prepares|)] else [])
  {
  }

  lemma {:induction false} PublishedIsAccepted(steps: seq<Step>)
    ensures Events(Run(Init(), steps).published) == Accepted(steps)
  {
    if steps == [] {
    } else {
      var s, last := Run(Init(), steps[..|steps|-1]), steps[|steps|-1];
      PublishedIsAccepted(steps[..|steps|-1]);
      NextPublishes(s, last);
      assert Events(s.published + (if last.Publish? && last.remote then [Entry(last.event, |s.prepares|)] else []))
          == Events(s.published) + (if last.Publish? && last.remote then [last.event] else []);
    }
  }

  lemma EventsOfThree(a: seq<Entry>, b: seq<Entry>, c: seq<Entry>)
    ensures Events(a) + Events(b) + Events(c) == Events(a + b + c)
  {
  }

  lemma {:induction false} OnlyFailedImportsLose(steps: seq<Step>)
    requires forall i :: 0 <= i < |steps| ==> !steps[i].ImportFails?
    ensures forall i :: 0 <= i < |Run(Init(), steps).handled| ==> !Run(Init(), steps).handled[i].lost
  {
    if steps == [] {
    } else {
      OnlyFailedImportsLose(steps[..|steps|-1]);
    }
  }

  /** In every interleaving each published event is, exactly once and in publish order, handed to the
      broadcaster (or dropped by a failed import), in flight, or queued; there is at most one
      publisher; and a non-empty queue always has a pending timer or a running publisher. */
  lemma {:induction false} ExactlyOnceInOrder(steps: seq<Step>)
    ensures var s := Run(Init(), steps);
      && Events(Entries(s.handled)) + Events(InFlight(s)) + Events(s.publishEvents) == Accepted(steps)
      && |s.publishers| <= 1
      && (s.publishEvents != [] ==> s.timers == 1 || |s.publishers| == 1)
      && ((forall i :: 0 <= i < |steps| ==> !steps[i].ImportFails?)
          ==> forall i :: 0 <= i < |s.handled| ==> !s.handled[i].lost)
  {
    var s := Run(Init(), steps);
    RunKeepsInv(Init(), steps);
    PublishedIsAccepted(steps);
    EventsOfThree(Entries(s.handled), InFlight(s), s.publishEvents);
    if forall i :: 0 <= i < |steps| ==> !steps[i].ImportFails? {
      OnlyFailedImportsLose(steps);
    }
  }

  /** What is lost is what was queued when the transport failed to load, and never an event in flight. */
  lemma {:induction false} FailedImportLosesQueue(steps: seq<Step>, p: nat)
    requires Enabled(Run(Init(), steps), ImportFails(p))
    ensures var s := Run(Init(), steps);
      var t := Run(Init(), steps + [ImportFails(p)]);
      && InFlight(s) == [] && t.publishEvents == [] && |t.publishers| == 0
      && t.handled == s.handled + Mark(s.publishEvents, true)
  {
    RunKeepsInv(Init(), steps);
    RunConcat(Init(), steps, [ImportFails(p)]);
    assert Run(Run(Init(), steps), [ImportFails(p)]) == Next(Run(Init(), steps), ImportFails(p)) by {
      assert [ImportFails(p)][..0] == [];
    }
  }

  // ---------------------------------------------------------------- the prepare barrier

  lemma OpenBarrierCovers(s: State, p: nat)
    requires Inv(s) && Enabled(s, BarrierOpens(p))
    ensures DoneBelow(s.prepares, s.publishers[p].taken) && StampsWithin(s.publishers[p].batch, s.publishers[p].taken)
  {
    var pub := s.publishers[p];
    if pub.prepared.Some? {
      assert DoneBelow(s.prepares, pub.prepared.value);
    }
  }

  /** A batch is broadcast only after every prepare enqueued before the batch was taken has settled. */
  lemma {:induction false} BatchWaitsForPrepares(steps: seq<Step>, p: nat)
    requires Enabled(Run(Init(), steps), BarrierOpens(p))
    ensures var s := Run(Init(), steps);
      DoneBelow(s.prepares, s.publishers[p].taken) && StampsWithin(s.publishers[p].batch, s.publishers[p].taken)
  {
    RunKeepsInv(Init(), steps);
    OpenBarrierCovers(Run(Init(), steps), p);
  }

  /** The prepares of one transport run one at a time, in the order they were enqueued. */
  lemma {:induction false} PreparesRunInOrder(steps: seq<Step>, j: nat, k: nat)
    requires j < k < |Run(Init(), steps).prepares| && !Run(Init(), steps).prepares[k].phase.Waiting?
    ensures Run(Init(), steps).prepares[j].Done()
  {
    RunKeepsInv(Init(), steps);
    assert DoneBelow(Run(Init(), steps).prepares, k);
  }

  ghost predicate Extends(s: State, t: State) {
    && s.published <= t.published
    && s.handled <= t.handled
    && |s.prepares| <= |t.prepares|
    && forall k :: 0 <= k < |s.prepares| ==> t.prepares[k].eventIds == s.prepares[k].eventIds
  }

  lemma NextExtends(s: State, step: Step)
    ensures Extends(s, Next(s, step))
  {
    hide LoopHead, Finish, Schedule, Mark;
    if Enabled(s, step) {
      match step
      case Publish(event, remote) =>
        var entry := Entry(event, |s.prepares|);
        ScheduleKeeps(s.(publishEvents := s.publishEvents + [entry], published := s.published + [entry]));
      case Imported(p) => LoopHeadKeeps(s, p);
      case BroadcastEnds(p) => LoopHeadKeeps(s, p);
      case ImportFails(p) =>
        FinishKeeps(s.(publishEvents := [], handled := s.handled + Mark(s.publishEvents, true)), p);
      case _ =>
    }
  }

  lemma ScheduleKeeps(s: State)
    ensures var t := Schedule(s); t.published == s.published && t.handled == s.handled && t.prepares == s.prepares
  {
  }

  lemma FinishKeeps(s: State, p: nat)
    requires p < |s.publishers|
    ensures var t := Finish(s, p); t.published == s.published && t.handled == s.handled && t.prepares == s.prepares
  {
  }

  lemma LoopHeadKeeps(s: State, p: nat)
    requires p < |s.publishers|
    ensures var t := LoopHead(s, p); t.published == s.published && t.handled == s.handled && t.prepares == s.prepares
  {
  }

  lemma {:induction false} RunExtends(s: State, steps: seq<Step>)
    ensures Extends(s, Run(s, steps))
  {
    if steps == [] {
    } else {
      RunExtends(s, steps[..|steps|-1]);
      NextExtends(Run(s, steps[..|steps|-1]), steps[|steps|-1]);
    }
  }

  /** A delete commit published after its prepare was enqueued is broadcast only once that prepare has
      settled, whatever happens before, between and after the two. */
  lemma {:induction false} CommitNeverOvertakesPrepare(pre: seq<Step>, ids: seq<string>, mid: seq<Step>, id: string,
                                                       post: seq<Step>)
    ensures var s := Run(Init(), pre + [Enqueue(ids)] + mid + [Publish(DeleteCommit(id), true)] + post);
      var k := |Run(Init(), pre).prepares|;
      var n := |Accepted(pre + [Enqueue(ids)] + mid)|;
      && k < |s.prepares| && s.prepares[k].eventIds == ids
      && n < |s.published| && s.published[n].event == DeleteCommit(id)
      && (n < |s.handled| && !s.handled[n].lost ==>
        s.handled[n].entry.event == DeleteCommit(id) && s.prepares[k].Done())
  {
    hide Next, Inv, Run, Events, Entries, Accepted, DoneBelow;
    var s0, enqueue, commit := Run(Init(), pre), Enqueue(ids), Publish(DeleteCommit(id), true);
    RunThen(pre, enqueue);
    var s1 := Next(s0, enqueue);
    var s2 := Run(s1, mid);
    RunConcat(Init(), pre + [enqueue], mid);
    RunThen(pre + [enqueue] + mid, commit);
    var s3 := Next(s2, commit);
    var s := Run(s3, post);
    RunConcat(Init(), pre + [enqueue] + mid + [commit], post);
    RunExtends(s1, mid);
    RunExtends(s3, post);
    PublishedIsAccepted(pre + [enqueue] + mid);
    RunKeepsInv(Init(), pre + [enqueue] + mid + [commit] + post);
    Enqueued(s0, ids);
    CommitPublished(s2, id);
    CommitSentAfter(s, |s2.published|, |s2.prepares|, |s0.prepares|, DeleteCommit(id));
  }

  lemma RunThen(steps: seq<Step>, step: Step)
    ensures Run(Init(), steps + [step]) == Next(Run(Init(), steps), step)
  {
    hide Next;
    RunConcat(Init(), steps, [step]);
    RunSingle(Run(Init(), steps), step);
  }

  lemma Enqueued(s: State, ids: seq<string>)
    ensures var t := Next(s, Enqueue(ids)); |t.prepares| == |s.prepares| + 1 && t.prepares[|s.prepares|].eventIds == ids
  {
  }

  lemma CommitPublished(s: State, id: string)
    ensures var t := Next(s, Publish(DeleteCommit(id), true));
      t.published == s.published + [Entry(DeleteCommit(id), |s.prepares|)] && t.prepares == s.prepares
  {
  }

  lemma CommitSentAfter(s: State, n: nat, stamp: nat, k: nat, event: RealtimeEvent)
    requires Inv(s) && n < |s.published| && s.published[n] == Entry(event, stamp) && k < stamp && k < |s.prepares|
    ensures n < |s.handled| && !s.handled[n].lost ==> s.handled[n].entry.event == event && s.prepares[k].Done()
  {
    if n < |s.handled| && !s.handled[n].lost {
      assert Entries(s.handled)[n] == s.published[n];
      assert DoneBelow(s.prepares, stamp);
    }
  }

  lemma RunSingle(s: State, step: Step)
    ensures Run(s, [step]) == Next(s, step)
  {
    assert [step][..0] == [];
  }

  // ---------------------------------------------------------------- nothing gets stuck

  /** The steps that finish the first `n` prepares; those already taken leave the state alone. */
  function FinishPrepares(n: nat): seq<Step> {
    if n == 0 then [] else FinishPrepares(n - 1) + [PrepareStarts(n - 1), PrepareSettles(n - 1)]
  }

  lemma FinishOne(s: State, k: nat)
    requires Inv(s) && DoneBelow(s.prepares, k) && k < |s.prepares|
    ensures var t := Next(Next(s, PrepareStarts(k)), PrepareSettles(k));
      && Inv(t) && DoneBelow(t.prepares, k + 1)
      && t == s.(prepares := t.prepares) && |t.prepares| == |s.prepares|
  {
    hide Inv, DoneBelow;
    NextKeepsInv(s, PrepareStarts(k));
    NextKeepsInv(Next(s, PrepareStarts(k)), PrepareSettles(k));
    NextKeepsDone(s, PrepareStarts(k));
    NextKeepsDone(Next(s, PrepareStarts(k)), PrepareSettles(k));
    InvParts(s);
    FinishedOne(s, k);
  }

  lemma FinishedOne(s: State, k: nat)
    requires Chained(s.prepares, s.prepareTail) && DoneBelow(s.prepares, k) && k < |s.prepares|
    ensures var t := Next(Next(s, PrepareStarts(k)), PrepareSettles(k));
      && t == s.(prepares := t.prepares) && |t.prepares| == |s.prepares|
      && (DoneBelow(t.prepares, k) ==> DoneBelow(t.prepares, k + 1))
  {
    if s.prepares[k].after.Some? { assert s.prepares[k-1].Done(); }
  }

  lemma {:induction false} FinishPreparesDone(s: State, n: nat)
    requires Inv(s) && n <= |s.prepares|
    ensures var t := Run(s, FinishPrepares(n));
      && Inv(t) && DoneBelow(t.prepares, n)
      && t == s.(prepares := t.prepares) && |t.prepares| == |s.prepares|
  {
    hide Next, Inv, DoneBelow;
    if n == 0 {
      assert DoneBelow(s.prepares, 0) by { NothingBelow(s.prepares); }
    } else {
      FinishPreparesDone(s, n - 1);
      var s0 := Run(s, FinishPrepares(n - 1));
      FinishOne(s0, n - 1);
      RunConcat(s, FinishPrepares(n - 1), [PrepareStarts(n - 1), PrepareSettles(n - 1)]);
      RunPair(s0, PrepareStarts(n - 1), PrepareSettles(n - 1));
    }
  }

  lemma NothingBelow(prepares: seq<Prepare>)
    ensures DoneBelow(prepares, 0)
  {
  }

  lemma RunPair(s: State, a: Step, b: Step)
    ensures Run(s, [a, b]) == Next(Next(s, a), b)
  {
    assert [a, b][..1] == [a];
    RunSingle(s, a);
  }

  /** Whatever the only publisher or timer is waiting for, these steps run it until it stops. */
  function Flush(): seq<Step> {
    [TimerFires, Imported(0), BarrierOpens(0), BroadcastEnds(0), BarrierOpens(0), BroadcastEnds(0)]
  }

  predicate Quiet(s: State) {
    s.publishEvents == [] && s.publishers == [] && s.timers == 0
  }

  /** All prepares are done, and nothing is pending or the publisher has its batch. */
  ghost predicate Ready(s: State) {
    Inv(s) && DoneBelow(s.prepares, |s.prepares|) && (Quiet(s) || (|s.publishers| == 1 && !s.publishers[0].Importing?))
  }

  function Turn(s: State): State {
    Next(Next(s, BarrierOpens(0)), BroadcastEnds(0))
  }

  /** One turn of the publisher's loop: the batch goes out, then the queue is taken as the next batch
      or the publisher stops. */
  lemma TurnSends(s: State)
    requires Ready(s)
    ensures Ready(Turn(s))
    ensures Turn(s).handled == s.handled + Mark(InFlight(s), false)
    ensures InFlight(Turn(s)) == s.publishEvents && Turn(s).publishEvents == []
    ensures s.publishEvents == [] ==> Quiet(Turn(s))
  {
    hide Inv, Mark;
    NextKeepsInv(s, BarrierOpens(0));
    NextKeepsInv(Next(s, BarrierOpens(0)), BroadcastEnds(0));
    assert Mark([], false) == [] && s.handled + [] == s.handled;
    InvParts(s);
    if !Quiet(s) {
      assert Turn(s).prepares == s.prepares;
      if s.publishers[0].AtBarrier? { BarrierIsOpen(s); }
    }
  }

  /** With all prepares done, a waiting publisher can go on. */
  lemma BarrierIsOpen(s: State)
    requires Ready(s) && |s.publishers| == 1 && s.publishers[0].AtBarrier?
    ensures Enabled(s, BarrierOpens(0))
  {
    assert BarriersCover(s);
  }

  function Start(d: State): State {
    Next(Next(d, TimerFires), Imported(0))
  }

  lemma StartIsReady(d: State)
    requires Inv(d) && DoneBelow(d.prepares, |d.prepares|)
    ensures Ready(Start(d)) && Start(d).handled == d.handled
    ensures InFlight(Start(d)) + Start(d).publishEvents == InFlight(d) + d.publishEvents
  {
    NextKeepsInv(d, TimerFires);
    NextKeepsInv(Next(d, TimerFires), Imported(0));
  }

  lemma MarkConcat(a: seq<Entry>, b: seq<Entry>)
    ensures Mark(a, false) + Mark(b, false) == Mark(a + b, false)
  {
  }

  lemma RunFlush(s: State)
    ensures Run(s, Flush()) == Turn(Turn(Start(s)))
  {
    var f := Flush();
    RunPair(s, f[0], f[1]);
    RunPair(Start(s), f[2], f[3]);
    RunPair(Turn(Start(s)), f[4], f[5]);
    RunConcat(s, f[..2], f[2..4]);
    RunConcat(s, f[..4], f[4..]);
    assert f[..2] == [f[0], f[1]] && f[2..4] == [f[2], f[3]] && f[4..] == [f[4], f[5]];
    assert f[..2] + f[2..4] == f[..4] && f[..4] + f[4..] == f;
  }

  lemma FlushSends(d: State)
    requires Inv(d) && DoneBelow(d.prepares, |d.prepares|)
    ensures Quiet(Run(d, Flush()))
    ensures Run(d, Flush()).handled == d.handled + Mark(InFlight(d) + d.publishEvents, false)
  {
    hide Start, Turn, Inv, Run;
    var d1 := Start(d);
    StartIsReady(d);
    var d2 := Turn(d1);
    TurnSends(d1);
    TurnSends(d2);
    RunFlush(d);
    MarkConcat(InFlight(d1), d1.publishEvents);
  }

  /** From every reachable state the pending timers, imports, prepares and broadcasts, if they
      succeed, hand every event still queued or in flight to the broadcaster, in order. */
  lemma {:induction false} EverythingPendingCanBeSent(steps: seq<Step>)
    ensures var s := Run(Init(), steps);
      var t := Run(s, FinishPrepares(|s.prepares|) + Flush());
      && Quiet(t)
      && t.handled == s.handled + Mark(InFlight(s) + s.publishEvents, false)
  {
    RunKeepsInv(Init(), steps);
    var s := Run(Init(), steps);
    FinishPreparesDone(s, |s.prepares|);
    FlushSends(Run(s, FinishPrepares(|s.prepares|)));
    RunConcat(s, FinishPrepares(|s.prepares|), Flush());
  }

  // ---------------------------------------------------------------- the transport object

  /** The transport state as the program updates it in place; one method per segment. `timers`,
      `publishers` and `prepares` are what the runtime holds suspended, the ghost fields are history. */
  class TransportState {
    var prepareTail: Tail
    var publishEvents: seq<Entry>
    var publishRunning: bool
    var publishTimer: bool
    var timers: nat
    var publishers: seq<Publisher>
    var prepares: seq<Prepare>
    ghost var published: seq<Entry>
    ghost var handled: seq<Handled>

    ghost function View(): State
      reads this
    {
      State(prepareTail, publishEvents, publishRunning, publishTimer, timers, publishers, prepares, published, handled)
    }

    constructor ()
      ensures View() == Init()
    {
      prepareTail, publishEvents, publishRunning, publishTimer := None, [], false, false;
      timers, publishers, prepares, published, handled := 0, [], [], [], [];
    }

    method PublishEvent(event: RealtimeEvent, remote: bool)
      modifies this
      ensures View() == Next(old(View()), Publish(event, remote))
    {
      if !remote { return; }
      publishEvents := publishEvents + [Entry(event, |prepares|)];
      published := published + [Entry(event, |prepares|)];
      SchedulePublish();
    }

    method SchedulePublish()
      modifies this
      ensures View() == Schedule(old(View()))
    {
      if publishRunning || publishTimer { return; }
      publishTimer, timers := true, timers + 1;
    }

    method FireTimer()
      requires timers > 0
      modifies this
      ensures View() == Next(old(View()), TimerFires)
    {
      timers := timers - 1;
      publishTimer := false;
      publishRunning := true;
      publishers := publishers + [Importing];
    }

    /** The head of the publisher's loop, up to the next `await` or the end of the publisher. */
    method ContinueLoop(p: nat)
      requires p < |publishers|
      modifies this
      ensures View() == LoopHead(old(View()), p)
    {
      if |publishEvents| > 0 {
        var events := publishEvents;
        publishEvents := [];
        publishers := publishers[p := AtBarrier(events, prepareTail, |prepares|)];
      } else {
        Stop(p);
      }
    }

    method Stop(p: nat)
      requires p < |publishers|
      modifies this
      ensures View() == Finish(old(View()), p)
    {
      publishers := publishers[..p] + publishers[p+1..];
      publishRunning := false;
      if |publishEvents| > 0 { SchedulePublish(); }
    }

    method FailImport(p: nat)
      requires p < |publishers| && publishers[p].Importing?
      modifies this
      ensures View() == Next(old(View()), ImportFails(p))
    {
      handled := handled + Mark(publishEvents, true);
      publishEvents := [];
      Stop(p);
    }

    method OpenBarrier(p: nat)
      requires p < |publishers| && publishers[p].AtBarrier? && Resolved(View(), publishers[p].prepared)
      modifies this
      ensures View() == Next(old(View()), BarrierOpens(p))
    {
      handled := handled + Mark(publishers[p].batch, false);
      publishers := publishers[p := Broadcasting(publishers[p].batch)];
    }

    method EnqueuePrepare(eventIds: seq<string>)
      modifies this
      ensures View() == Next(old(View()), Enqueue(eventIds))
    {
      var pending := |prepares|;
      prepares := prepares + [Prepare(eventIds, prepareTail, Waiting)];
      prepareTail := Some(pending);
    }

    /** The reaction queued behind prepare `k`: resets the tail unless a later prepare extended it. */
    method CleanupPrepare(k: nat)
      requires k < |prepares| && prepares[k].phase.Settled?
      modifies this
      ensures View() == Next(old(View()), PrepareCleanup(k))
    {
      prepares := prepares[k := prepares[k].(phase := CleanedUp)];
      if prepareTail == Some(k) { prepareTail := None; }
    }
  }
}
