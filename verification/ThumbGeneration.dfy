/** Thumb generation: a semaphore that bounds the running generations, with hand-off in queue order and
    timeouts, and a singleflight group that lets calls for the same thumb share one generation. */
module ThumbGeneration {
  import opened Wrappers

  // ---------------------------------------------------------------- the semaphore

  datatype Entry = Entry(id: nat, cancelled: bool)

  datatype Sem = Sem(max: nat, current: nat, queue: seq<Entry>)

  /** Takes a permit, or else joins the queue. */
  function Acquire(s: Sem, id: nat): (Sem, bool) {
    if s.current < s.max then (s.(current := s.current + 1), true)
    else (s.(queue := s.queue + [Entry(id, false)]), false)
  }

  /** Hands the permit to the first waiter that is not cancelled, or else gives it back. */
  function Release(s: Sem): (Sem, Option<nat>)
    decreases |s.queue|
  {
    if s.queue == [] then (if s.current > 0 then s.(current := s.current - 1) else s, None)
    else if s.queue[0].cancelled then Release(s.(queue := s.queue[1..]))
    else (s.(queue := s.queue[1..]), Some(s.queue[0].id))
  }

  function Drop(queue: seq<Entry>, id: nat): seq<Entry> {
    if queue == [] then [] else
      var rest, last := Drop(queue[..|queue|-1], id), queue[|queue|-1];
      if last.id == id then rest else rest + [last]
  }

  /** What the timer of a queued waiter does. */
  function TimeOut(s: Sem, id: nat): Sem { s.(queue := Drop(s.queue, id)) }

  class Waiter {
    const id: nat
    var cancelled: bool

    constructor (id: nat)
      ensures this.id == id && !cancelled
    {
      this.id := id;
      cancelled := false;
    }
  }

  function Entries(queue: seq<Waiter>): (r: seq<Entry>)
    reads queue
    ensures |r| == |queue|
    ensures forall i :: 0 <= i < |r| ==> r[i] == Entry(queue[i].id, queue[i].cancelled)
  {
    seq(|queue|, i requires 0 <= i < |queue| reads queue => Entry(queue[i].id, queue[i].cancelled))
  }

  class Semaphore {
    const max: nat
    var current: nat
    var queue: seq<Waiter>

    function View(): Sem
      reads this, queue
    {
      Sem(max, current, Entries(queue))
    }

    constructor (max: int)
      ensures View() == Sem(if max > 1 then max else 1, 0, [])
    {
      this.max := if max > 1 then max else 1;
      current, queue := 0, [];
    }

    method AcquirePermit(id: nat) returns (taken: bool, ghost entry: Option<Waiter>)
      modifies this
      ensures (View(), taken) == Acquire(old(View()), id)
      ensures !taken ==> entry.Some? && fresh(entry.value) && queue == old(queue) + [entry.value]
    {
      if current < max {
        current := current + 1;
        return true, None;
      }
      ghost var q0 := Entries(queue);
      var waiter := new Waiter(id);
      queue := queue + [waiter];
      assert Entries(queue) == q0 + [Entry(id, false)];
      return false, Some(waiter);
    }

    method ReleasePermit() returns (granted: Option<nat>)
      modifies this
      ensures (View(), granted) == Release(old(View()))
    {
      ghost var v0 := View();
      while |queue| > 0
        invariant Release(View()) == Release(v0)
        decreases |queue|
      {
        var entry := queue[0];
        assert Entries(queue)[1..] == Entries(queue[1..]);
        queue := queue[1..];
        if entry.cancelled { continue; }
        return Some(entry.id);
      }
      if current > 0 { current := current - 1; }
      return None;
    }

    /** The timer callback of `entry`: cancels it and takes it off the queue. */
    method TimeOutWaiter(entry: Waiter)
      requires forall w :: w in queue && w.id == entry.id ==> w == entry
      modifies this, entry
      ensures View() == TimeOut(old(View()), entry.id)
    {
      ghost var q0 := Entries(queue);
      entry.cancelled := true;
      var kept: seq<Waiter> := [];
      for i := 0 to |queue|
        invariant Entries(kept) == Drop(q0[..i], entry.id) && entry !in kept
        invariant queue == old(queue)
      {
        assert q0[..i+1][..i] == q0[..i];
        if queue[i] != entry { kept := kept + [queue[i]]; }
      }
      assert q0[..|q0|] == q0;
      queue := kept;
    }
  }

  // ---------------------------------------------------------------- the singleflight entries

  class SingleflightGroup {
    var pending: map<string, nat>

    constructor ()
      ensures pending == map[]
    {
      pending := map[];
    }

    /** Joins the flight of `key`, or else registers the new one. */
    method Do(key: string, flight: nat) returns (joined: nat, started: bool)
      modifies this
      ensures started == (key !in old(pending))
      ensures pending == if started then old(pending)[key := flight] else old(pending)
      ensures key in pending && joined == pending[key]
    {
      if key in pending { return pending[key], false; }
      pending := pending[key := flight];
      return flight, true;
    }

    method Forget(key: string)
      modifies this
      ensures pending == old(pending) - {key}
    {
      pending := pending - {key};
    }
  }

  // ---------------------------------------------------------------- runs of the whole service

  /** A generation started by the singleflight group: `Granted` holds a permit and has yet to resume. */
  datatype Phase = Waiting | Granted | Generating | Finished | TimedOut {
    predicate Holds() { Granted? || Generating? }
    predicate Settled() { Finished? || TimedOut? }
  }

  datatype Flight = Flight(key: string, phase: Phase)

  /** A call for a thumb, awaiting the flight it started or joined. */
  datatype Call = Call(key: string, flight: nat, returned: bool)

  datatype Event = Started(key: string) | Forgot(key: string)

  datatype State = State(
    sem: Sem,
    flights: seq<Flight>,          // all flights ever started
    pending: map<string, nat>,     // the singleflight entries
    calls: seq<Call>,
    log: seq<Event>,               // history: starts and forgets
    arrived: seq<nat>,             // history: the flights that had to queue
    handed: seq<nat>)              // history: the flights that were handed a permit by a release

  datatype Step =
    | CreateThumb(key: string)
    | Resume(f: nat)
    | Settle(f: nat)
    | Expire(f: nat)
    | Return(c: nat)

  function Init(max: nat): State { State(Sem(max, 0, []), [], map[], [], [], [], []) }

  predicate Enabled(s: State, step: Step) {
    match step
    case CreateThumb(_) => true
    case Resume(f) => f < |s.flights| && s.flights[f].phase.Granted?
    case Settle(f) => f < |s.flights| && s.flights[f].phase.Generating?
    case Expire(f) => f < |s.flights| && s.flights[f].phase.Waiting?
    case Return(c) => c < |s.calls| && !s.calls[c].returned
                      && s.calls[c].flight < |s.flights| && s.flights[s.calls[c].flight].phase.Settled()
  }

  function SetPhase(flights: seq<Flight>, f: nat, phase: Phase): seq<Flight>
    requires f < |flights|
  {
    flights[f := flights[f].(phase := phase)]
  }

  function StartFlight(s: State, key: string): State {
    var f := |s.flights|;
    var (sem, taken) := Acquire(s.sem, f);
    s.(sem := sem,
       flights := s.flights + [Flight(key, if taken then Granted else Waiting)],
       pending := s.pending[key := f],
       log := s.log + [Started(key)],
       arrived := if taken then s.arrived else s.arrived + [f])
  }

  function Perform(s: State, step: Step): State
    requires Enabled(s, step)
  {
    match step
    case CreateThumb(key) =>
      var t := if key in s.pending then s else StartFlight(s, key);
      t.(calls := t.calls + [Call(key, t.pending[key], false)])
    case Resume(f) => s.(flights := SetPhase(s.flights, f, Generating))
    case Settle(f) =>
      var (sem, granted) := Release(s.sem);
      var t := s.(sem := sem, flights := SetPhase(s.flights, f, Finished));
      if granted.Some? && granted.value < |t.flights|
      then t.(flights := SetPhase(t.flights, granted.value, Granted), handed := t.handed + [granted.value])
      else t
    case Expire(f) => s.(sem := TimeOut(s.sem, f), flights := SetPhase(s.flights, f, TimedOut))
    case Return(c) =>
      s.(calls := s.calls[c := s.calls[c].(returned := true)],
         pending := s.pending - {s.calls[c].key},
         log := s.log + [Forgot(s.calls[c].key)])
  }

  function Next(s: State, step: Step): State {
    if Enabled(s, step) then Perform(s, step) else s
  }

  function Run(s: State, steps: seq<Step>): State {
    if steps == [] then s else Next(Run(s, steps[..|steps|-1]), steps[|steps|-1])
  }

  // ---------------------------------------------------------------- permits

  function Holders(flights: seq<Flight>): nat {
    if flights == [] then 0
    else Holders(flights[..|flights|-1]) + if flights[|flights|-1].phase.Holds() then 1 else 0
  }

  lemma {:induction false} HoldersAfter(flights: seq<Flight>, f: nat, phase: Phase)
    requires f < |flights|
    ensures Holders(SetPhase(flights, f, phase)) + (if flights[f].phase.Holds() then 1 else 0)
         == Holders(flights) + (if phase.Holds() then 1 else 0)
  {
    var after := SetPhase(flights, f, phase);
    if f == |flights| - 1 {
      assert after[..f] == flights[..f];
    } else {
      assert after[..|flights|-1] == SetPhase(flights[..|flights|-1], f, phase);
      HoldersAfter(flights[..|flights|-1], f, phase);
    }
  }

  lemma HoldersMore(flights: seq<Flight>, flight: Flight)
    ensures Holders(flights + [flight]) == Holders(flights) + if flight.phase.Holds() then 1 else 0
  {
    assert (flights + [flight])[..|flights|] == flights;
  }

  ghost predicate DistinctIds(queue: seq<Entry>) {
    forall i, j :: 0 <= i < j < |queue| ==> queue[i].id != queue[j].id
  }

  /** The queue holds the waiting flights, each once and not cancelled. */
  ghost predicate QueueIsWaiting(queue: seq<Entry>, flights: seq<Flight>) {
    && DistinctIds(queue)
    && (forall e :: e in queue ==> !e.cancelled && e.id < |flights| && flights[e.id].phase.Waiting?)
    && (forall f :: 0 <= f < |flights| && flights[f].phase.Waiting? ==> Entry(f, false) in queue)
  }

  /** Every permit taken is held by a flight, and nobody queues while a permit is free. */
  ghost predicate PermitsHeld(sem: Sem, flights: seq<Flight>) {
    && sem.current == Holders(flights) <= sem.max
    && (sem.queue != [] ==> sem.current == sem.max)
  }

  lemma {:induction false} DropKeeps(queue: seq<Entry>, id: nat)
    requires DistinctIds(queue)
    ensures DistinctIds(Drop(queue, id))
    ensures forall e :: e in Drop(queue, id) <==> e in queue && e.id != id
  {
    if queue == [] {
    } else {
      var init, last := queue[..|queue|-1], queue[|queue|-1];
      assert DistinctIds(init);
      DropKeeps(init, id);
      hide Drop;
      assert forall e :: e in init ==> e.id != last.id;
      assert queue == init + [last];
      DropLast(init, last, id);
      OneMoreDistinct(Drop(init, id), last);
    }
  }

  lemma DropLast(init: seq<Entry>, last: Entry, id: nat)
    ensures Drop(init + [last], id) == if last.id == id then Drop(init, id) else Drop(init, id) + [last]
  {
    assert (init + [last])[..|init|] == init;
  }

  lemma OneMoreDistinct(queue: seq<Entry>, last: Entry)
    requires DistinctIds(queue)
    ensures (forall e :: e in queue ==> e.id != last.id) ==> DistinctIds(queue + [last])
  {
  }

  lemma QueueAfterStart(queue: seq<Entry>, flights: seq<Flight>, key: string)
    requires QueueIsWaiting(queue, flights)
    ensures QueueIsWaiting(queue, flights + [Flight(key, Granted)])
    ensures QueueIsWaiting(queue + [Entry(|flights|, false)], flights + [Flight(key, Waiting)])
  {
  }

  lemma QueueAfterPhase(queue: seq<Entry>, flights: seq<Flight>, f: nat, phase: Phase)
    requires QueueIsWaiting(queue, flights) && f < |flights| && !flights[f].phase.Waiting? && !phase.Waiting?
    ensures QueueIsWaiting(queue, SetPhase(flights, f, phase))
  {
  }

  lemma QueueAfterHandOff(queue: seq<Entry>, flights: seq<Flight>)
    requires QueueIsWaiting(queue, flights) && queue != []
    ensures queue[0].id < |flights| && flights[queue[0].id].phase.Waiting? && !queue[0].cancelled
    ensures QueueIsWaiting(queue[1..], SetPhase(flights, queue[0].id, Granted))
  {
    assert queue[0] in queue;
    assert forall e :: e in queue[1..] ==> e in queue && e.id != queue[0].id;
    assert forall e :: e in queue && e != queue[0] ==> e in queue[1..];
  }

  lemma QueueAfterTimeOut(queue: seq<Entry>, flights: seq<Flight>, f: nat)
    requires QueueIsWaiting(queue, flights) && f < |flights|
    ensures QueueIsWaiting(Drop(queue, f), SetPhase(flights, f, TimedOut))
  {
    DropKeeps(queue, f);
  }

  lemma NextKeepsQueue(s: State, step: Step)
    requires QueueIsWaiting(s.sem.queue, s.flights)
    ensures QueueIsWaiting(Next(s, step).sem.queue, Next(s, step).flights)
  {
    if Enabled(s, step) {
      match step
      case CreateThumb(key) => QueueAfterStart(s.sem.queue, s.flights, key);
      case Resume(f) => QueueAfterPhase(s.sem.queue, s.flights, f, Generating);
      case Settle(f) =>
        QueueAfterPhase(s.sem.queue, s.flights, f, Finished);
        if s.sem.queue != [] { QueueAfterHandOff(s.sem.queue, SetPhase(s.flights, f, Finished)); }
      case Expire(f) => QueueAfterTimeOut(s.sem.queue, s.flights, f);
      case Return(c) =>
    }
  }

  lemma NextKeepsPermits(s: State, step: Step)
    requires QueueIsWaiting(s.sem.queue, s.flights) && PermitsHeld(s.sem, s.flights)
    ensures PermitsHeld(Next(s, step).sem, Next(s, step).flights)
  {
    hide QueueIsWaiting, Holders, PermitsHeld, Acquire, Release, TimeOut;
    if Enabled(s, step) {
      match step
      case CreateThumb(key) => if key !in s.pending { StartKeepsPermits(s.sem, s.flights, key); }
      case Resume(f) => PhaseKeepsPermits(s.sem, s.flights, f, Generating);
      case Settle(f) => SettleKeepsPermits(s.sem, s.flights, f);
      case Expire(f) => ExpireKeepsPermits(s.sem, s.flights, f);
      case Return(c) =>
    }
  }

  lemma StartKeepsPermits(sem: Sem, flights: seq<Flight>, key: string)
    requires PermitsHeld(sem, flights)
    ensures var (after, taken) := Acquire(sem, |flights|);
      PermitsHeld(after, flights + [Flight(key, if taken then Granted else Waiting)])
  {
    hide Holders;
    HoldersMore(flights, Flight(key, if sem.current < sem.max then Granted else Waiting));
  }

  lemma PhaseKeepsPermits(sem: Sem, flights: seq<Flight>, f: nat, phase: Phase)
    requires PermitsHeld(sem, flights) && f < |flights| && flights[f].phase.Holds() == phase.Holds()
    ensures PermitsHeld(sem, SetPhase(flights, f, phase))
  {
    hide Holders;
    HoldersAfter(flights, f, phase);
  }

  /** A release by a flight that generates: its permit goes to the first waiter, or back. */
  lemma SettleKeepsPermits(sem: Sem, flights: seq<Flight>, f: nat)
    requires QueueIsWaiting(sem.queue, flights) && PermitsHeld(sem, flights)
    requires f < |flights| && flights[f].phase.Generating?
    ensures var (after, granted) := Release(sem);
      var settled := SetPhase(flights, f, Finished);
      if granted.Some? && granted.value < |settled| then PermitsHeld(after, SetPhase(settled, granted.value, Granted))
      else PermitsHeld(after, settled)
  {
    hide QueueIsWaiting, Holders;
    var settled := SetPhase(flights, f, Finished);
    HoldersAfter(flights, f, Finished);
    QueueAfterPhase(sem.queue, flights, f, Finished);
    if sem.queue != [] {
      QueueAfterHandOff(sem.queue, settled);
      HoldersAfter(settled, sem.queue[0].id, Granted);
    }
  }

  lemma ExpireKeepsPermits(sem: Sem, flights: seq<Flight>, f: nat)
    requires PermitsHeld(sem, flights) && f < |flights| && flights[f].phase.Waiting?
    ensures PermitsHeld(TimeOut(sem, f), SetPhase(flights, f, TimedOut))
  {
    hide Holders;
    HoldersAfter(flights, f, TimedOut);
    if sem.queue == [] { assert Drop(sem.queue, f) == []; }
  }

  // ---------------------------------------------------------------- the order of the grants

  predicate HasTimedOut(f: nat, flights: seq<Flight>) { f < |flights| && flights[f].phase.TimedOut? }

  /** The flights of a list that have not timed out. */
  function NotTimedOut(ids: seq<nat>, flights: seq<Flight>): seq<nat> {
    if ids == [] then [] else
      var rest, last := NotTimedOut(ids[..|ids|-1], flights), ids[|ids|-1];
      if HasTimedOut(last, flights) then rest else rest + [last]
  }

  function Ids(queue: seq<Entry>): seq<nat> {
    if queue == [] then [] else Ids(queue[..|queue|-1]) + [queue[|queue|-1].id]
  }

  function Without(ids: seq<nat>, f: nat): seq<nat> {
    if ids == [] then [] else
      var rest, last := Without(ids[..|ids|-1], f), ids[|ids|-1];
      if last == f then rest else rest + [last]
  }

  lemma {:induction false} WithoutConcat(a: seq<nat>, b: seq<nat>, f: nat)
    requires f !in a
    ensures Without(a + b, f) == a + Without(b, f)
  {
    if b != [] {
      assert (a + b)[..|a + b|-1] == a + b[..|b|-1];
      WithoutConcat(a, b[..|b|-1], f);
    } else if a != [] {
      assert a + b == a && a[..|a|-1] + [] == a[..|a|-1];
      WithoutConcat(a[..|a|-1], [], f);
    }
  }

  lemma {:induction false} WithoutTimedOut(ids: seq<nat>, flights: seq<Flight>, f: nat)
    requires f < |flights|
    ensures NotTimedOut(ids, SetPhase(flights, f, TimedOut)) == Without(NotTimedOut(ids, flights), f)
  {
    if ids == [] {
    } else {
      var init, last := ids[..|ids|-1], ids[|ids|-1];
      WithoutTimedOut(init, flights, f);
      var kept := NotTimedOut(init, flights);
      assert (kept + [last])[..|kept|] == kept;
    }
  }

  lemma {:induction false} IdsOfDrop(queue: seq<Entry>, f: nat)
    ensures Ids(Drop(queue, f)) == Without(Ids(queue), f)
  {
    if queue == [] {
    } else {
      var init, last := queue[..|queue|-1], queue[|queue|-1];
      IdsOfDrop(init, f);
      assert (Drop(init, f) + [last])[..|Drop(init, f)|] == Drop(init, f);
      assert (Ids(init) + [last.id])[..|Ids(init)|] == Ids(init);
    }
  }

  lemma {:induction false} IdsOfTail(queue: seq<Entry>)
    requires queue != []
    ensures Ids(queue) == [queue[0].id] + Ids(queue[1..])
  {
    if |queue| <= 1 {
    } else {
      var init := queue[..|queue|-1];
      IdsOfTail(init);
      assert queue[1..][..|queue|-2] == init[1..];
    }
  }

  lemma {:induction false} SamePhasesKept(ids: seq<nat>, a: seq<Flight>, b: seq<Flight>)
    requires forall f :: f in ids ==> (HasTimedOut(f, a) <==> HasTimedOut(f, b))
    ensures NotTimedOut(ids, a) == NotTimedOut(ids, b)
  {
    if ids == [] {
    } else {
      assert forall f :: f in ids[..|ids|-1] ==> f in ids;
      SamePhasesKept(ids[..|ids|-1], a, b);
    }
  }

  /** Of the flights that had to queue, those not timed out are the ones handed a permit so far,
      followed by the ones queued, in the order they arrived. */
  ghost predicate InOrder(s: State) {
    && (forall f :: f in s.arrived ==> f < |s.flights|)
    && (forall f :: f in s.handed ==> f < |s.flights| && !s.flights[f].phase.Waiting?)
    && NotTimedOut(s.arrived, s.flights) == s.handed + Ids(s.sem.queue)
  }

  lemma OrderAfterStart(s: State, key: string)
    requires InOrder(s)
    ensures InOrder(StartFlight(s, key))
  {
    var f := |s.flights|;
    var t := StartFlight(s, key);
    SamePhasesKept(s.arrived, s.flights, t.flights);
    if s.sem.current >= s.sem.max {
      assert (s.arrived + [f])[..|s.arrived|] == s.arrived;
      assert (s.sem.queue + [Entry(f, false)])[..|s.sem.queue|] == s.sem.queue;
      assert s.handed + (Ids(s.sem.queue) + [f]) == (s.handed + Ids(s.sem.queue)) + [f];
    }
  }

  lemma OrderAfterPhase(s: State, f: nat, phase: Phase)
    requires InOrder(s) && f < |s.flights| && s.flights[f].phase.Holds() && (phase.Holds() || phase.Finished?)
    ensures InOrder(s.(flights := SetPhase(s.flights, f, phase)))
  {
    SamePhasesKept(s.arrived, s.flights, SetPhase(s.flights, f, phase));
  }

  lemma OrderAfterHandOff(s: State)
    requires InOrder(s) && s.sem.queue != [] && QueueIsWaiting(s.sem.queue, s.flights)
    ensures var g := s.sem.queue[0].id;
      && g < |s.flights|
      && InOrder(s.(sem := s.sem.(queue := s.sem.queue[1..]),
                    flights := SetPhase(s.flights, g, Granted),
                    handed := s.handed + [g]))
  {
    var g := s.sem.queue[0].id;
    QueueAfterHandOff(s.sem.queue, s.flights);
    IdsOfTail(s.sem.queue);
    HandOffTimesNobodyOut(s.flights, g);
    hide NotTimedOut, Ids, QueueIsWaiting, HasTimedOut;
    SamePhasesKept(s.arrived, s.flights, SetPhase(s.flights, g, Granted));
    assert s.handed + ([g] + Ids(s.sem.queue[1..])) == (s.handed + [g]) + Ids(s.sem.queue[1..]);
  }

  lemma HandOffTimesNobodyOut(flights: seq<Flight>, g: nat)
    requires g < |flights| && flights[g].phase.Waiting?
    ensures forall f :: HasTimedOut(f, SetPhase(flights, g, Granted)) <==> HasTimedOut(f, flights)
  {
  }

  lemma OrderAfterTimeOut(s: State, f: nat)
    requires InOrder(s) && f < |s.flights| && s.flights[f].phase.Waiting?
    ensures InOrder(Perform(s, Expire(f)))
  {
    WithoutTimedOut(s.arrived, s.flights, f);
    WithoutConcat(s.handed, Ids(s.sem.queue), f);
    IdsOfDrop(s.sem.queue, f);
  }

  lemma NextKeepsOrder(s: State, step: Step)
    requires QueueIsWaiting(s.sem.queue, s.flights) && InOrder(s)
    ensures InOrder(Next(s, step))
  {
    if Enabled(s, step) {
      match step
      case CreateThumb(key) => OrderAfterStart(s, key);
      case Resume(f) => OrderAfterPhase(s, f, Generating);
      case Settle(f) =>
        OrderAfterPhase(s, f, Finished);
        QueueAfterPhase(s.sem.queue, s.flights, f, Finished);
        if s.sem.queue != [] { OrderAfterHandOff(s.(flights := SetPhase(s.flights, f, Finished))); }
      case Expire(f) => OrderAfterTimeOut(s, f);
      case Return(c) =>
    }
  }

  // ---------------------------------------------------------------- the singleflight group

  /** The last start or forget of a key. */
  function LastAbout(log: seq<Event>, key: string): Option<Event> {
    if log == [] then None
    else if log[|log|-1].key == key then Some(log[|log|-1])
    else LastAbout(log[..|log|-1], key)
  }

  /** No key is started again before it was forgotten. */
  ghost predicate Alternates(log: seq<Event>) {
    forall i :: 0 <= i < |log| && log[i].Started? ==> LastAbout(log[..i], log[i].key) != Some(log[i])
  }

  /** A key has an entry exactly while its last event is a start. */
  ghost predicate EntriesMatchLog(pending: map<string, nat>, log: seq<Event>) {
    forall key :: key in pending <==> LastAbout(log, key) == Some(Started(key))
  }

  /** Entries and calls name a flight of their own key. */
  ghost predicate FlightsOfKey(s: State) {
    && (forall key :: key in s.pending ==> s.pending[key] < |s.flights| && s.flights[s.pending[key]].key == key)
    && (forall c :: 0 <= c < |s.calls| ==>
      s.calls[c].flight < |s.flights| && s.flights[s.calls[c].flight].key == s.calls[c].key)
  }

  lemma LogExtended(log: seq<Event>, e: Event)
    ensures forall key :: LastAbout(log + [e], key) == if e.key == key then Some(e) else LastAbout(log, key)
    ensures Alternates(log) && (e.Started? ==> LastAbout(log, e.key) != Some(e)) ==> Alternates(log + [e])
  {
    assert (log + [e])[..|log|] == log;
    assert forall i :: 0 <= i <= |log| ==> (log + [e])[..i] == log[..i];
    assert log[..|log|] == log;
  }

  lemma NextKeepsLog(s: State, step: Step)
    requires EntriesMatchLog(s.pending, s.log) && Alternates(s.log)
    ensures EntriesMatchLog(Next(s, step).pending, Next(s, step).log) && Alternates(Next(s, step).log)
  {
    hide Alternates, LastAbout, Acquire, Release;
    if Enabled(s, step) {
      match step
      case CreateThumb(key) => LogExtended(s.log, Started(key));
      case Return(c) => LogExtended(s.log, Forgot(s.calls[c].key));
      case _ =>
    }
  }

  lemma NextKeepsKeys(s: State, step: Step)
    requires FlightsOfKey(s)
    ensures FlightsOfKey(Next(s, step))
  {
    hide Next;
    FlightsKeepKeys(s, step);
    PendingAfter(s, step);
    CallsAfter(s, step);
  }

  /** A step adds the call of its key, on the flight registered for it, or leaves the calls' keys and flights. */
  lemma CallsAfter(s: State, step: Step)
    ensures var t := Next(s, step);
      && (step.CreateThumb? ==>
            step.key in t.pending && t.calls == s.calls + [Call(step.key, t.pending[step.key], false)])
      && (!step.CreateThumb? ==> |t.calls| == |s.calls|)
      && (!step.CreateThumb? ==>
            forall c :: 0 <= c < |s.calls| ==>
              t.calls[c].key == s.calls[c].key && t.calls[c].flight == s.calls[c].flight)
  {
    hide Acquire, Release;
    if step.Settle? && Enabled(s, step) { SettleKeepsPending(s, step.f); }
  }

  lemma FlightsKeepKeys(s: State, step: Step)
    ensures |s.flights| <= |Next(s, step).flights|
    ensures forall f :: 0 <= f < |s.flights| ==> Next(s, step).flights[f].key == s.flights[f].key
  {
    if Enabled(s, step) {
      match step
      case CreateThumb(key) => assert key !in s.pending ==> StartFlight(s, key).flights[..|s.flights|] == s.flights;
      case Settle(f) =>
        var t := SetPhase(s.flights, f, Finished);
        var granted := Release(s.sem).1;
        assert |t| == |s.flights|;
        if granted.Some? && granted.value < |t| {
          assert Next(s, step).flights == SetPhase(t, granted.value, Granted);
        } else {
          assert Next(s, step).flights == t;
        }
      case _ =>
    }
  }

  // ---------------------------------------------------------------- every run

  ghost predicate Inv(s: State) {
    && s.sem.max >= 1
    && QueueIsWaiting(s.sem.queue, s.flights) && PermitsHeld(s.sem, s.flights) && InOrder(s)
    && EntriesMatchLog(s.pending, s.log) && Alternates(s.log) && FlightsOfKey(s)
  }

  lemma NextKeepsInv(s: State, step: Step)
    requires Inv(s)
    ensures Inv(Next(s, step))
  {
    NextKeepsQueue(s, step);
    NextKeepsPermits(s, step);
    NextKeepsOrder(s, step);
    NextKeepsLog(s, step);
    NextKeepsKeys(s, step);
    MaxStays(s, step);
  }

  lemma MaxStays(s: State, step: Step)
    ensures Next(s, step).sem.max == s.sem.max
  {
    ReleaseKeepsMax(s.sem);
  }

  lemma {:induction false} ReleaseKeepsMax(s: Sem)
    ensures Release(s).0.max == s.max
    decreases |s.queue|
  {
    if s.queue != [] && s.queue[0].cancelled {
      ReleaseKeepsMax(s.(queue := s.queue[1..]));
    }
  }

  lemma {:induction false} RunKeepsInv(s: State, steps: seq<Step>)
    requires Inv(s)
    ensures Inv(Run(s, steps)) && Run(s, steps).sem.max == s.sem.max
  {
    if steps == [] {
    } else {
      RunKeepsInv(s, steps[..|steps|-1]);
      NextKeepsInv(Run(s, steps[..|steps|-1]), steps[|steps|-1]);
      MaxStays(Run(s, steps[..|steps|-1]), steps[|steps|-1]);
    }
  }

  function Running(flights: seq<Flight>): nat {
    if flights == [] then 0
    else Running(flights[..|flights|-1]) + if flights[|flights|-1].phase.Generating? then 1 else 0
  }

  lemma {:induction false} RunningAreHolders(flights: seq<Flight>)
    ensures Running(flights) <= Holders(flights)
    ensures (forall f :: 0 <= f < |flights| ==> flights[f].phase.Settled()) ==> Holders(flights) == 0
    ensures Holders(flights) > 0 ==> exists f :: 0 <= f < |flights| && flights[f].phase.Holds()
  {
    if flights == [] {
    } else {
      RunningAreHolders(flights[..|flights|-1]);
    }
  }

  /** Over every run of calls, releases and timeouts: the counter is the number of flights that hold a
      permit and never exceeds `max`, so neither do the running generations; nobody queues while a
      permit is free; and when all flights have settled, every permit is back. */
  lemma {:induction false} PermitsNeverExceeded(max: nat, steps: seq<Step>)
    requires max >= 1
    ensures var s := Run(Init(max), steps);
      && Running(s.flights) <= Holders(s.flights) == s.sem.current <= max
      && (s.sem.queue != [] ==> s.sem.current == max)
      && ((forall f :: 0 <= f < |s.flights| ==> s.flights[f].phase.Settled()) ==>
        s.sem.current == 0 && s.sem.queue == [])
  {
    RunKeepsInv(Init(max), steps);
    RunningAreHolders(Run(Init(max), steps).flights);
  }

  /** Permits are handed on in queue order: the flights that had to queue, without the timed-out ones,
      are exactly the ones handed a permit, in that order, followed by the ones still queued; a
      timed-out flight is never handed one. */
  lemma {:induction false} GrantsFollowQueueOrder(max: nat, steps: seq<Step>)
    requires max >= 1
    ensures var s := Run(Init(max), steps);
      && NotTimedOut(s.arrived, s.flights) == s.handed + Ids(s.sem.queue)
      && forall f :: f in s.handed ==> !HasTimedOut(f, s.flights)
  {
    RunKeepsInv(Init(max), steps);
    var s := Run(Init(max), steps);
    KeptAreNotTimedOut(s.arrived, s.flights);
    assert forall f :: f in s.handed ==> f in s.handed + Ids(s.sem.queue);
  }

  lemma {:induction false} KeptAreNotTimedOut(ids: seq<nat>, flights: seq<Flight>)
    ensures forall f :: f in NotTimedOut(ids, flights) ==> !HasTimedOut(f, flights)
  {
    if ids == [] {
    } else {
      KeptAreNotTimedOut(ids[..|ids|-1], flights);
    }
  }

  lemma {:induction false} NoForgetKeepsStarted(log: seq<Event>, i: nat, key: string)
    requires i < |log| && log[i] == Started(key)
    requires forall k :: i < k < |log| ==> log[k] != Forgot(key)
    ensures LastAbout(log, key) == Some(Started(key))
  {
    if i < |log| - 1 {
      NoForgetKeepsStarted(log[..|log|-1], i, key);
    }
  }

  /** Between two starts for the same key there is a forget of that key. */
  lemma {:induction false} SecondFlightNeedsForget(max: nat, steps: seq<Step>, i: nat, j: nat, key: string)
    requires max >= 1 && i < j < |Run(Init(max), steps).log|
    requires Run(Init(max), steps).log[i] == Run(Init(max), steps).log[j] == Started(key)
    ensures exists k :: i < k < j && Run(Init(max), steps).log[k] == Forgot(key)
  {
    RunKeepsInv(Init(max), steps);
    var log := Run(Init(max), steps).log;
    if forall k :: i < k < j ==> log[k] != Forgot(key) {
      NoForgetKeepsStarted(log[..j], i, key);
    }
  }

  // ---------------------------------------------------------------- when flights of one key overlap

  predicate Unsettled(s: State, f: nat) { f < |s.flights| && !s.flights[f].phase.Settled() }

  /** Two flights of one key that have not settled. */
  ghost predicate Overlap(s: State, key: string) {
    exists f: nat, g: nat :: f < g && Unsettled(s, f) && Unsettled(s, g) && s.flights[f].key == s.flights[g].key == key
  }

  /** A call's forget that removes the entry of another flight than its own. */
  predicate LateForget(s: State, step: Step) {
    && step.Return? && Enabled(s, step)
    && s.calls[step.c].key in s.pending && s.pending[s.calls[step.c].key] != s.calls[step.c].flight
  }

  /** A late forget of a flight that is still going on. */
  predicate Orphans(s: State, step: Step) {
    LateForget(s, step) && Unsettled(s, s.pending[s.calls[step.c].key])
  }

  /** Every flight that is going on is the entry of its key. */
  ghost predicate AllEntered(s: State) {
    forall f: nat :: Unsettled(s, f) ==> s.flights[f].key in s.pending && s.pending[s.flights[f].key] == f
  }

  /** A step starts at most one flight, at the end, and reopens none. */
  lemma StepUnsettled(s: State, step: Step)
    requires QueueIsWaiting(s.sem.queue, s.flights)
    ensures var t := Next(s, step);
      forall f: nat :: Unsettled(t, f) ==>
        Unsettled(s, f) || (f == |s.flights| && step.CreateThumb? && step.key !in s.pending)
  {
    if Enabled(s, step) && step.Settle? {
      var flights := SetPhase(s.flights, step.f, Finished);
      QueueAfterPhase(s.sem.queue, s.flights, step.f, Finished);
      if s.sem.queue != [] { QueueAfterHandOff(s.sem.queue, flights); }
    }
  }

  lemma StepKeepsEntered(s: State, step: Step)
    requires Inv(s) && AllEntered(s) && !Orphans(s, step)
    ensures AllEntered(Next(s, step))
  {
    hide PermitsHeld, InOrder, EntriesMatchLog, Alternates, QueueIsWaiting;
    StepUnsettled(s, step);
    FlightsKeepKeys(s, step);
    PendingAfter(s, step);
  }

  /** How a step changes the entries. */
  lemma PendingAfter(s: State, step: Step)
    ensures var t := Next(s, step);
      && (step.CreateThumb? && step.key !in s.pending ==>
            && t.pending == s.pending[step.key := |s.flights|] && |t.flights| == |s.flights| + 1
            && t.flights[|s.flights|].key == step.key && Unsettled(t, |s.flights|))
      && (step.Return? && Enabled(s, step) ==> t.pending == s.pending - {s.calls[step.c].key} && t.flights == s.flights)
      && (!(step.CreateThumb? && step.key !in s.pending) && !(step.Return? && Enabled(s, step)) ==>
        t.pending == s.pending)
  {
    hide Acquire, Release;
    if step.Settle? && Enabled(s, step) { SettleKeepsPending(s, step.f); }
    if step.CreateThumb? { AcquireStarts(s, step.key); }
  }

  lemma SettleKeepsPending(s: State, f: nat)
    requires Enabled(s, Settle(f))
    ensures Next(s, Settle(f)).pending == s.pending && Next(s, Settle(f)).calls == s.calls
  {
  }

  lemma AcquireStarts(s: State, key: string)
    ensures var t := StartFlight(s, key);
      && t.pending == s.pending[key := |s.flights|] && |t.flights| == |s.flights| + 1
      && t.flights[|s.flights|].key == key && Unsettled(t, |s.flights|)
  {
  }

  lemma EnteredNeverOverlap(s: State, key: string)
    requires Inv(s) && AllEntered(s)
    ensures !Overlap(s, key) && !Overlap(Next(s, CreateThumb(key)), key)
  {
    hide Inv, Next;
    StepKeepsEntered(s, CreateThumb(key)) by { NoOrphan(s, key); }
  }

  lemma NoOrphan(s: State, key: string)
    ensures !Orphans(s, CreateThumb(key))
  {
  }

  /** After a late forget of a flight still going on, the next call for that thumb starts a second one. */
  lemma OrphanOverlaps(s: State, c: nat)
    requires Inv(s) && Orphans(s, Return(c))
    ensures var key := s.calls[c].key; Overlap(Next(Next(s, Return(c)), CreateThumb(key)), key)
  {
    hide PermitsHeld, InOrder, EntriesMatchLog, Alternates, QueueIsWaiting, Next;
    var key := s.calls[c].key;
    var f, t := s.pending[key], Next(s, Return(c));
    PendingAfter(s, Return(c));
    PendingAfter(t, CreateThumb(key));
    StartKeepsFlights(t, key);
    var u := Next(t, CreateThumb(key));
    assert Unsettled(u, f) && Unsettled(u, |t.flights|) && f < |t.flights|;
    assert u.flights[f].key == key;
  }

  lemma StartKeepsFlights(s: State, key: string)
    ensures |s.flights| <= |Next(s, CreateThumb(key)).flights|
    ensures forall f :: 0 <= f < |s.flights| ==> Next(s, CreateThumb(key)).flights[f] == s.flights[f]
  {
  }

  ghost predicate NoneOrphaned(s: State, steps: seq<Step>) {
    forall i :: 0 <= i < |steps| ==> !Orphans(Run(s, steps[..i]), steps[i])
  }

  lemma {:induction false} EnteredWhileNoneOrphaned(s: State, steps: seq<Step>)
    requires Inv(s) && AllEntered(s) && NoneOrphaned(s, steps)
    ensures AllEntered(Run(s, steps))
    decreases |steps|
  {
    hide Inv, AllEntered, Orphans, Next;
    if steps == [] {
    } else {
      var init := steps[..|steps|-1];
      assert forall i :: 0 <= i < |steps| ==> init[..i] == steps[..i];
      EnteredWhileNoneOrphaned(s, init);
      RunKeepsInv(s, init);
      StepKeepsEntered(Run(s, init), steps[|steps|-1]);
    }
  }

  /** Some state of the run is one in which the next call for a key makes two of its flights overlap. */
  ghost predicate CanOverlap(s: State, steps: seq<Step>) {
    exists i, key :: 0 <= i <= |steps| && OverlapsNext(Run(s, steps[..i]), key)
  }

  ghost predicate OverlapsNext(s: State, key: string) { Overlap(Next(s, CreateThumb(key)), key) }

  /** Over every run: the next call for some thumb can make two flights of it overlap at some point if and
      only if some call's forget removed the entry of a flight that was still going on; without such a
      forget no two flights of a key ever overlap. */
  lemma {:induction false} OverlapExactlyAfterLateForget(max: nat, steps: seq<Step>)
    requires max >= 1
    ensures CanOverlap(Init(max), steps) <==> !NoneOrphaned(Init(max), steps)
    ensures NoneOrphaned(Init(max), steps) ==> forall i, key :: 0 <= i <= |steps| ==>
      !Overlap(Run(Init(max), steps[..i]), key)
  {
    hide Inv, AllEntered, Orphans, Next, Overlap, OverlapsNext, NoneOrphaned;
    var s := Init(max);
    InitHolds(max);
    if NoneOrphaned(s, steps) {
      forall i | 0 <= i <= |steps| ensures Inv(Run(s, steps[..i])) && AllEntered(Run(s, steps[..i])) {
        PrefixNotOrphaned(s, steps, i);
        RunKeepsInv(s, steps[..i]);
        EnteredWhileNoneOrphaned(s, steps[..i]);
      }
      forall i, key | 0 <= i <= |steps|
        ensures !Overlap(Run(s, steps[..i]), key) && !OverlapsNext(Run(s, steps[..i]), key)
      {
        EnteredNeverOverlap(Run(s, steps[..i]), key);
        assert !OverlapsNext(Run(s, steps[..i]), key) by { OverlapsNextIs(Run(s, steps[..i]), key); }
      }
    } else {
      var i := SomeOrphaned(s, steps);
      RunKeepsInv(s, steps[..i]);
      RunPrefix(s, steps, i);
      var t := Run(s, steps[..i]);
      OrphanIsReturn(t, steps[i]);
      OrphanOverlaps(t, steps[i].c);
      OverlapsNextIs(Run(s, steps[..i+1]), t.calls[steps[i].c].key);
    }
  }

  lemma InitHolds(max: nat)
    requires max >= 1
    ensures Inv(Init(max)) && AllEntered(Init(max))
  {
  }

  lemma OverlapsNextIs(s: State, key: string)
    ensures OverlapsNext(s, key) == Overlap(Next(s, CreateThumb(key)), key)
  {
  }

  lemma OrphanIsReturn(s: State, step: Step)
    requires Orphans(s, step)
    ensures step.Return? && step == Return(step.c) && step.c < |s.calls|
  {
  }

  lemma SomeOrphaned(s: State, steps: seq<Step>) returns (i: nat)
    requires !NoneOrphaned(s, steps)
    ensures i < |steps| && Orphans(Run(s, steps[..i]), steps[i])
  {
    i :| 0 <= i < |steps| && Orphans(Run(s, steps[..i]), steps[i]);
  }

  lemma PrefixNotOrphaned(s: State, steps: seq<Step>, i: nat)
    requires NoneOrphaned(s, steps) && i <= |steps|
    ensures NoneOrphaned(s, steps[..i])
  {
    hide Orphans, Run;
    assert forall k :: 0 <= k < i ==> steps[..i][..k] == steps[..k];
  }

  // ---------------------------------------------------------------- a run in which they do

  const T := Flight("t", Finished)
  const G := Flight("t", Generating)
  const HELD := Flight("t", Granted)

  /** A second call has joined the first flight after it settled, and the first call has returned. */
  function JoinedLate(): State {
    State(Sem(2, 0, []), [T], map[], [Call("t", 0, true), Call("t", 0, false)], [Started("t"), Forgot("t")], [], [])
  }

  lemma RunFive(s: State, a: Step, b: Step, c: Step, d: Step, e: Step)
    ensures Run(s, [a, b, c, d, e]) == Next(Next(Next(Next(Next(s, a), b), c), d), e)
  {
    hide Next;
    var steps := [a, b, c, d, e];
    RunPrefix(s, steps, 0);
    RunPrefix(s, steps, 1);
    RunPrefix(s, steps, 2);
    RunPrefix(s, steps, 3);
    RunPrefix(s, steps, 4);
    assert steps[..5] == steps && steps[..0] == [];
  }

  lemma FirstFlightSettles()
    ensures Next(Next(Next(Init(2), CreateThumb("t")), Resume(0)), Settle(0)) ==
      State(Sem(2, 0, []), [T], map["t" := 0], [Call("t", 0, false)], [Started("t")], [], [])
  {
    var s1 := Next(Init(2), CreateThumb("t"));
    assert s1.flights == [HELD] && s1.pending == map["t" := 0] && s1.sem == Sem(2, 1, []);
    var s2 := Next(s1, Resume(0));
    assert s2.flights == [G];
  }

  lemma SecondCallJoins(s: State)
    requires s == State(Sem(2, 0, []), [T], map["t" := 0], [Call("t", 0, false)], [Started("t")], [], [])
    ensures Next(Next(s, CreateThumb("t")), Return(0)) == JoinedLate()
  {
  }

  lemma JoinsLate()
    ensures Run(Init(2), [CreateThumb("t"), Resume(0), Settle(0), CreateThumb("t"), Return(0)]) == JoinedLate()
  {
    hide Next, Init, JoinedLate, Run;
    RunFive(Init(2), CreateThumb("t"), Resume(0), Settle(0), CreateThumb("t"), Return(0));
    FirstFlightSettles();
    SecondCallJoins(Next(Next(Next(Init(2), CreateThumb("t")), Resume(0)), Settle(0)));
  }

  lemma LateJoinerForgets()
    ensures var s := Next(JoinedLate(), CreateThumb("t"));
      && Orphans(s, Return(1))
      && Next(s, Return(1)) == State(Sem(2, 1, []), [T, HELD], map[],
           [Call("t", 0, true), Call("t", 0, true), Call("t", 1, false)],
           [Started("t"), Forgot("t"), Started("t"), Forgot("t")], [], [])
  {
    var s := Next(JoinedLate(), CreateThumb("t"));
    assert s.flights == [T, HELD] && s.pending == map["t" := 1] && s.sem == Sem(2, 1, []);
  }

  lemma BothGenerate(s: State)
    requires s.flights == [T, HELD] && s.pending == map[] && s.sem == Sem(2, 1, [])
    ensures Next(Next(Next(s, CreateThumb("t")), Resume(1)), Resume(2)).flights == [T, G, G]
  {
    var s1 := Next(s, CreateThumb("t"));
    assert s1.flights == [T, HELD, HELD];
    var s2 := Next(s1, Resume(1));
    assert s2.flights == [T, G, HELD];
  }

  /** A call that joins a flight after it settled, and forgets after another call has started the next flight,
      removes that flight's entry: two generations of one thumb then run at once. */
  lemma {:induction false} FlightsOfOneKeyCanOverlap()
    ensures var steps := [CreateThumb("t"), Resume(0), Settle(0), CreateThumb("t"), Return(0)] +
        [CreateThumb("t"), Return(1), CreateThumb("t"), Resume(1), Resume(2)];
      Run(Init(2), steps).flights == [T, G, G]
  {
    hide Run, Next, Init, JoinedLate, Orphans;
    JoinsLate();
    RunFive(JoinedLate(), CreateThumb("t"), Return(1), CreateThumb("t"), Resume(1), Resume(2));
    LateJoinerForgets();
    BothGenerate(Next(Next(JoinedLate(), CreateThumb("t")), Return(1)));
    RunConcat(Init(2), [CreateThumb("t"), Resume(0), Settle(0), CreateThumb("t"), Return(0)],
      [CreateThumb("t"), Return(1), CreateThumb("t"), Resume(1), Resume(2)]);
  }

  lemma {:induction false} RunConcat(s: State, a: seq<Step>, b: seq<Step>)
    ensures Run(s, a + b) == Run(Run(s, a), b)
  {
    hide Next;
    if b == [] {
      assert a + b == a;
    } else {
      assert (a + b)[..|a + b|-1] == a + b[..|b|-1];
      RunConcat(s, a, b[..|b|-1]);
    }
  }

  lemma RunPrefix(s: State, steps: seq<Step>, n: nat)
    requires n < |steps|
    ensures Run(s, steps[..n+1]) == Next(Run(s, steps[..n]), steps[n])
  {
    assert steps[..n+1][..n] == steps[..n];
  }

  // ---------------------------------------------------------------- nobody is stranded

  function Weight(phase: Phase): nat {
    match phase
    case Waiting => 3
    case Granted => 2
    case Generating => 1
    case _ => 0
  }

  function Work(flights: seq<Flight>): nat {
    if flights == [] then 0 else Work(flights[..|flights|-1]) + Weight(flights[|flights|-1].phase)
  }

  lemma {:induction false} WorkAfter(flights: seq<Flight>, f: nat, phase: Phase)
    requires f < |flights|
    ensures Work(SetPhase(flights, f, phase)) + Weight(flights[f].phase) == Work(flights) + Weight(phase)
  {
    var after := SetPhase(flights, f, phase);
    if f == |flights| - 1 {
      assert after[..f] == flights[..f];
    } else {
      assert after[..|flights|-1] == SetPhase(flights[..|flights|-1], f, phase);
      WorkAfter(flights[..|flights|-1], f, phase);
    }
  }

  /** While a flight has not settled, some flight holds a permit. */
  lemma SomeoneHolds(s: State, f: nat)
    requires Inv(s) && f < |s.flights| && !s.flights[f].phase.Settled()
    ensures exists g :: 0 <= g < |s.flights| && s.flights[g].phase.Holds()
  {
    if s.flights[f].phase.Waiting? {
      assert Entry(f, false) in s.sem.queue;
      RunningAreHolders(s.flights);
    }
  }

  function Advance(s: State, g: nat): Step
    requires g < |s.flights|
  {
    if s.flights[g].phase.Granted? then Resume(g) else Settle(g)
  }

  lemma AdvanceWorks(s: State, g: nat)
    requires Inv(s) && g < |s.flights| && s.flights[g].phase.Holds()
    ensures var t := Next(s, Advance(s, g));
      && Work(t.flights) < Work(s.flights) && |t.flights| == |s.flights|
      && forall f :: HasTimedOut(f, t.flights) ==> HasTimedOut(f, s.flights)
  {
    hide PermitsHeld, InOrder, EntriesMatchLog, Alternates, FlightsOfKey, DistinctIds, Work;
    if s.flights[g].phase.Granted? {
      WorkAfter(s.flights, g, Generating);
    } else {
      WorkAfter(s.flights, g, Finished);
      QueueAfterPhase(s.sem.queue, s.flights, g, Finished);
      if s.sem.queue != [] {
        QueueAfterHandOff(s.sem.queue, SetPhase(s.flights, g, Finished));
        WorkAfter(SetPhase(s.flights, g, Finished), s.sem.queue[0].id, Granted);
      }
    }
  }

  /** From every reachable state, if the running generations end and no timer fires, every flight gets
      its permit and settles. */
  lemma {:induction false} EveryFlightCanFinish(s: State) returns (steps: seq<Step>)
    requires Inv(s)
    ensures forall i :: 0 <= i < |steps| ==> steps[i].Resume? || steps[i].Settle?
    ensures var t := Run(s, steps);
      && |t.flights| == |s.flights|
      && (forall f :: 0 <= f < |t.flights| ==> t.flights[f].phase.Settled())
      && (forall f :: HasTimedOut(f, t.flights) ==> HasTimedOut(f, s.flights))
    decreases Work(s.flights)
  {
    hide Next, Inv, Work;
    if f :| 0 <= f < |s.flights| && !s.flights[f].phase.Settled() {
      SomeoneHolds(s, f);
      var g :| 0 <= g < |s.flights| && s.flights[g].phase.Holds();
      var step := Advance(s, g);
      AdvanceWorks(s, g);
      NextKeepsInv(s, step);
      var rest := EveryFlightCanFinish(Next(s, step));
      steps := [step] + rest;
      RunConcat(s, [step], rest);
      RunPrefix(s, [step], 0);
      assert [step][..1] == [step];
    } else {
      steps := [];
    }
  }
}
