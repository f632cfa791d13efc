/** The two halves of a delete together: the worker that publishes it, and another worker with realtime clients.
    Between them are the prepares that were started and the events that were broadcast, each of which arrives at most
    once, in any order and with any delay: a prepare arrives while it is running at the publishing worker, or late,
    after the coordinator gave up waiting for its acknowledgement. */
module DeleteDelivery {
  import opened RecordBroadcast
  import opened Subscriptions
  import opened Wrappers
  import D = TwoPhaseDelete
  import P = ClusterPublish

  /** `prepared` are the (prepare, event) positions that arrived, `late` those of them that arrived after their
      prepare had settled, and `received` the broadcast events that arrived. */
  datatype State =
    State(sender: P.State, receiver: D.State, prepared: set<(nat, nat)>, late: set<(nat, nat)>, received: set<nat>)

  /** `Receiving` is a step of the receiving worker's own; an event that is no commit or abort arrives as one. */
  datatype Step =
    | Publishing(step: P.Step)
    | PrepareArrives(k: nat, i: nat, b: Broadcast)
    | EventArrives(n: nat, other: D.Step)
    | Receiving(own: D.Step)

  function Init(): State { State(P.Init(), D.Init(), {}, {}, {}) }

  predicate IsOwn(step: D.Step) { !step.Prepare? && !step.Commit? && !step.Abort? }

  predicate Enabled(s: State, step: Step) {
    match step
    case Publishing(_) => true
    case PrepareArrives(k, i, _) =>
      && k < |s.sender.prepares| && !s.sender.prepares[k].phase.Waiting?
      && i < |s.sender.prepares[k].eventIds| && (k, i) !in s.prepared
    case EventArrives(n, other) =>
      n < |s.sender.handled| && !s.sender.handled[n].lost && n !in s.received && IsOwn(other)
    case Receiving(own) => IsOwn(own)
  }

  /** The step that the receiving worker takes, if any. */
  function Delivery(s: State, step: Step): seq<D.Step> {
    if !Enabled(s, step) then [] else
      match step
      case Publishing(_) => []
      case PrepareArrives(k, i, b) => [D.Prepare(s.sender.prepares[k].eventIds[i], b)]
      case EventArrives(n, other) =>
        (match s.sender.handled[n].entry.event
         case DeleteCommit(id) => [D.Commit(id)]
         case DeleteAbort(id) => [D.Abort(id)]
         case Other(_) => [other])
      case Receiving(own) => [own]
  }

  function Next(s: State, step: Step): State {
    if !Enabled(s, step) then s else
      var receiver := D.Run(s.receiver, Delivery(s, step));
      match step
      case Publishing(p) => s.(sender := P.Next(s.sender, p))
      case PrepareArrives(k, i, _) =>
        var late := if s.sender.prepares[k].Done() then {(k, i)} else {};
        s.(receiver := receiver, prepared := s.prepared + {(k, i)}, late := s.late + late)
      case EventArrives(n, _) => s.(receiver := receiver, received := s.received + {n})
      case Receiving(_) => s.(receiver := receiver)
  }

  function Run(steps: seq<Step>): State {
    if steps == [] then Init() else Next(Run(steps[..|steps|-1]), steps[|steps|-1])
  }

  /** All steps that the receiving worker takes over a run. */
  function Deliveries(steps: seq<Step>): seq<D.Step> {
    if steps == [] then [] else
      Deliveries(steps[..|steps|-1]) + Delivery(Run(steps[..|steps|-1]), steps[|steps|-1])
  }

  lemma StepReceives(s: State, step: Step)
    ensures Next(s, step).receiver == D.Run(s.receiver, Delivery(s, step))
    ensures |Delivery(s, step)| <= 1
  {
  }

  /** The receiving worker runs exactly its deliveries, and the publishing worker keeps its invariant. */
  lemma {:induction false} Projections(steps: seq<Step>)
    ensures Run(steps).receiver == D.Run(D.Init(), Deliveries(steps))
    ensures P.Inv(Run(steps).sender)
  {
    hide Next, Delivery, P.Inv, D.Next;
    if steps == [] {
      SenderStarts();
    } else {
      var init, last := steps[..|steps|-1], steps[|steps|-1];
      Projections(init);
      StepReceives(Run(init), last);
      D.RunConcat(D.Init(), Deliveries(init), Delivery(Run(init), last));
      SenderSteps(Run(init), last);
    }
  }

  lemma SenderStarts()
    ensures P.Inv(P.Init())
  {
  }

  /** The publishing worker's history only grows. */
  lemma SenderSteps(s: State, step: Step)
    ensures P.Inv(s.sender) ==> P.Inv(Next(s, step).sender)
    ensures P.Extends(s.sender, Next(s, step).sender)
  {
    hide P.Inv, P.Next, D.Run, Delivery;
    if step.Publishing? {
      P.NextExtends(s.sender, step.step);
      if P.Inv(s.sender) { P.NextKeepsInv(s.sender, step.step); }
    } else {
      P.RunExtends(s.sender, []);
    }
  }

  // ---------------------------------------------------------------- no commit arrives before a timely prepare

  /** Every commit of `e` was published after the prepares of `e` were enqueued. */
  ghost predicate CommitsFollow(s: P.State, e: string) {
    forall n, k :: 0 <= n < |s.published| && 0 <= k < |s.prepares| && e in s.prepares[k].eventIds ==>
      s.published[n].event == P.DeleteCommit(e) ==> k < s.published[n].preparesBefore
  }

  /** `e` is in one place of one prepare, as event ids are random. */
  ghost predicate IsUnique(s: P.State, e: string) {
    forall k, i, l, j :: IsAt(s, e, k, i) && IsAt(s, e, l, j) ==> k == l && i == j
  }

  predicate IsAt(s: P.State, e: string, k: int, i: int) {
    0 <= k < |s.prepares| && 0 <= i < |s.prepares[k].eventIds| && s.prepares[k].eventIds[i] == e
  }

  lemma EarlierToo(s: P.State, t: P.State, e: string)
    requires P.Extends(s, t)
    ensures CommitsFollow(t, e) ==> CommitsFollow(s, e)
    ensures IsUnique(t, e) ==> IsUnique(s, e)
  {
    assert forall k, i :: IsAt(s, e, k, i) ==> IsAt(t, e, k, i);
  }

  /** A commit of `e` was broadcast. */
  ghost predicate CommitHandled(s: P.State, e: string) {
    exists n :: 0 <= n < |s.handled| && !s.handled[n].lost && s.handled[n].entry.event == P.DeleteCommit(e)
  }

  /** Once a commit was broadcast, no prepare of its event is running any more. */
  lemma NoneRunningAfterCommit(s: P.State, e: string, k: nat)
    requires P.Inv(s) && CommitsFollow(s, e) && CommitHandled(s, e)
    requires k < |s.prepares| && e in s.prepares[k].eventIds
    ensures s.prepares[k].Done()
  {
    var n :| 0 <= n < |s.handled| && !s.handled[n].lost && s.handled[n].entry.event == P.DeleteCommit(e);
    assert P.Entries(s.handled)[n] == s.published[n];
    assert P.DoneBelow(s.prepares, s.published[n].preparesBefore);
  }

  /** What the deliveries so far say about `e`. */
  ghost predicate Traced(s: State, d: seq<D.Step>, e: string) {
    && (D.Commit(e) in d ==> CommitHandled(s.sender, e))
    && (forall j :: 0 <= j < |d| && D.Prepares(d[j], D.Remote(e)) ==> PreparedAt(s, e))
    && (forall i, j :: 0 <= i < j < |d| && D.Prepares(d[j], D.Remote(e)) ==>
      (d[i] == D.Commit(e) ==> LateAt(s, e)) && !D.Prepares(d[i], D.Remote(e)))
  }

  /** A prepare of `e` arrived. */
  ghost predicate PreparedAt(s: State, e: string) {
    exists at :: at in s.prepared && IsAt(s.sender, e, at.0, at.1)
  }

  /** A prepare of `e` arrived late. */
  ghost predicate LateAt(s: State, e: string) {
    exists at :: at in s.late && IsAt(s.sender, e, at.0, at.1)
  }

  lemma TracedGrows(s: State, step: Step, e: string)
    ensures CommitHandled(s.sender, e) ==> CommitHandled(Next(s, step).sender, e)
    ensures PreparedAt(s, e) ==> PreparedAt(Next(s, step), e)
    ensures LateAt(s, e) ==> LateAt(Next(s, step), e)
  {
    hide P.Next, D.Run;
    SenderSteps(s, step);
    if CommitHandled(s.sender, e) {
      var n :| 0 <= n < |s.sender.handled| && !s.sender.handled[n].lost
        && s.sender.handled[n].entry.event == P.DeleteCommit(e);
      assert Next(s, step).sender.handled[n] == s.sender.handled[n];
    }
  }

  /** A step delivers a prepare of `e` only when none arrived before, and no commit of it unless it is late. */
  lemma DeliveryTraced(s: State, step: Step, d: seq<D.Step>, e: string)
    requires P.Inv(s.sender) && CommitsFollow(s.sender, e) && IsUnique(s.sender, e) && Traced(s, d, e)
    ensures forall x :: x in Delivery(s, step) ==>
      && (x == D.Commit(e) ==> CommitHandled(Next(s, step).sender, e))
      && (D.Prepares(x, D.Remote(e)) ==> PreparedAt(Next(s, step), e) && !PreparedAt(s, e))
      && (D.Prepares(x, D.Remote(e)) && D.Commit(e) in d ==> LateAt(Next(s, step), e))
  {
    hide P.Inv, P.Next, D.Run, CommitsFollow, IsUnique;
    if Enabled(s, step) {
      match step
      case PrepareArrives(k, i, _) =>
        var id := s.sender.prepares[k].eventIds[i];
        if id == e {
          assert IsAt(Next(s, step).sender, e, k, i);
          assert (k, i) in Next(s, step).prepared;
          if CommitHandled(s.sender, e) {
            NoneRunningAfterCommit(s.sender, e, k);
            assert (k, i) in Next(s, step).late;
          }
          UniqueIsNew(s, e, k, i);
        }
      case EventArrives(n, _) =>
        assert s.sender.handled[n].entry.event == P.DeleteCommit(e) ==> CommitHandled(s.sender, e);
      case _ =>
    }
  }

  lemma UniqueIsNew(s: State, e: string, k: nat, i: nat)
    requires IsUnique(s.sender, e) && k < |s.sender.prepares| && i < |s.sender.prepares[k].eventIds|
    requires s.sender.prepares[k].eventIds[i] == e && (k, i) !in s.prepared
    ensures !PreparedAt(s, e)
  {
    assert IsAt(s.sender, e, k, i);
  }

  lemma NothingTraced(e: string)
    ensures Traced(Init(), [], e)
  {
  }

  lemma TracedStays(s: State, t: State, d: seq<D.Step>, e: string)
    requires Traced(s, d, e)
    requires CommitHandled(s.sender, e) ==> CommitHandled(t.sender, e)
    requires PreparedAt(s, e) ==> PreparedAt(t, e)
    requires LateAt(s, e) ==> LateAt(t, e)
    ensures Traced(t, d, e)
  {
    hide CommitHandled, PreparedAt, LateAt;
  }

  lemma TracedNext(s: State, t: State, d: seq<D.Step>, x: D.Step, e: string)
    requires Traced(s, d, e)
    requires CommitHandled(s.sender, e) ==> CommitHandled(t.sender, e)
    requires PreparedAt(s, e) ==> PreparedAt(t, e)
    requires LateAt(s, e) ==> LateAt(t, e)
    requires x == D.Commit(e) ==> CommitHandled(t.sender, e)
    requires D.Prepares(x, D.Remote(e)) ==> PreparedAt(t, e) && !PreparedAt(s, e)
    requires D.Prepares(x, D.Remote(e)) && D.Commit(e) in d ==> LateAt(t, e)
    ensures Traced(t, d + [x], e)
  {
    hide CommitHandled, PreparedAt, LateAt;
  }

  lemma {:induction false} RunTraced(steps: seq<Step>, e: string)
    requires CommitsFollow(Run(steps).sender, e) && IsUnique(Run(steps).sender, e)
    ensures Traced(Run(steps), Deliveries(steps), e)
  {
    hide Next, Delivery, CommitsFollow, IsUnique, CommitHandled, PreparedAt, LateAt, Traced;
    hide P.Inv, P.Extends, D.Run, D.Prepares;
    if steps == [] {
      NothingTraced(e);
    } else {
      var init, last := steps[..|steps|-1], steps[|steps|-1];
      var s, d, more := Run(init), Deliveries(init), Delivery(Run(init), last);
      SenderSteps(s, last);
      EarlierToo(s.sender, Run(steps).sender, e);
      RunTraced(init, e);
      Projections(init);
      TracedGrows(s, last, e);
      DeliveryTraced(s, last, d, e);
      StepReceives(s, last);
      if more == [] {
        assert d + more == d;
        TracedStays(s, Run(steps), d, e);
      } else {
        assert more == [more[0]] && more[0] in more;
        TracedNext(s, Run(steps), d, more[0], e);
      }
    }
  }

  // ---------------------------------------------------------------- what the receiving worker is told

  /** A broadcast event of this kind arrived. */
  ghost predicate Arrived(s: State, event: P.RealtimeEvent) {
    exists n :: n in s.received && n < |s.sender.handled| && s.sender.handled[n].entry.event == event
  }

  lemma ArrivedGrows(s: State, step: Step, event: P.RealtimeEvent)
    requires forall n :: n in s.received ==> n < |s.sender.handled|
    ensures forall n :: n in Next(s, step).received ==> n < |Next(s, step).sender.handled|
    ensures Arrived(Next(s, step), event) <==>
      Arrived(s, event) || (step.EventArrives? && Enabled(s, step) && s.sender.handled[step.n].entry.event == event)
  {
    hide P.Next, D.Run, Delivery, IsOwn;
    SenderSteps(s, step);
    var t := Next(s, step);
    assert forall n :: 0 <= n < |s.sender.handled| ==> t.sender.handled[n] == s.sender.handled[n];
    if Arrived(s, event) {
      var n :| n in s.received && n < |s.sender.handled| && s.sender.handled[n].entry.event == event;
      assert n in t.received && t.sender.handled[n].entry.event == event;
    }
    if step.EventArrives? && Enabled(s, step) {
      assert step.n in t.received && t.sender.handled[step.n] == s.sender.handled[step.n];
    }
  }

  lemma DeliveryIs(s: State, step: Step, e: string)
    ensures D.Commit(e) in Delivery(s, step) <==>
      step.EventArrives? && Enabled(s, step) && s.sender.handled[step.n].entry.event == P.DeleteCommit(e)
    ensures D.Abort(e) in Delivery(s, step) <==>
      step.EventArrives? && Enabled(s, step) && s.sender.handled[step.n].entry.event == P.DeleteAbort(e)
  {
  }

  /** Over every run the receiving worker is told of a commit or an abort exactly if the publishing worker's event
      of that kind was broadcast and has arrived. */
  lemma {:induction false} ToldExactly(steps: seq<Step>, e: string)
    ensures D.Commit(e) in Deliveries(steps) <==> Arrived(Run(steps), P.DeleteCommit(e))
    ensures D.Abort(e) in Deliveries(steps) <==> Arrived(Run(steps), P.DeleteAbort(e))
    ensures forall n :: n in Run(steps).received ==> n < |Run(steps).sender.handled|
  {
    hide Next, Delivery, Arrived, Enabled;
    if steps == [] {
      NothingArrived(e);
    } else {
      var init, last := steps[..|steps|-1], steps[|steps|-1];
      ToldExactly(init, e);
      ArrivedGrows(Run(init), last, P.DeleteCommit(e));
      ArrivedGrows(Run(init), last, P.DeleteAbort(e));
      DeliveryIs(Run(init), last, e);
    }
  }

  lemma NothingArrived(e: string)
    ensures !Arrived(Init(), P.DeleteCommit(e)) && !Arrived(Init(), P.DeleteAbort(e))
  {
  }

  // ---------------------------------------------------------------- what a client gets

  /** After the delivery of the prepare, a commit arrives before any abort or expiry. */
  ghost predicate CommitsFirst(post: seq<D.Step>, e: string) {
    exists c :: 0 <= c < |post| && post[c] == D.Commit(e)
      && forall i :: 0 <= i < c ==> post[i] != D.Abort(e) && post[i] != D.Expire(e)
  }

  /** Where the first resolution is. */
  lemma {:induction false} FirstIsAt(post: seq<D.Step>, e: string) returns (c: nat)
    ensures c <= |post| && forall i :: 0 <= i < c ==> !D.Resolves(post[i], D.Remote(e))
    ensures D.FirstResolution(post, D.Remote(e)) == if c < |post| then Some(post[c]) else None
    ensures c < |post| ==> D.Resolves(post[c], D.Remote(e))
  {
    if post == [] {
      c := 0;
    } else {
      var init := post[..|post|-1];
      c := FirstIsAt(init, e);
      if c == |init| && !D.Resolves(post[c], D.Remote(e)) { c := |post|; }
    }
  }

  lemma {:induction false} FirstIsCommit(post: seq<D.Step>, e: string)
    ensures D.FirstResolution(post, D.Remote(e)) == Some(D.Commit(e)) <==> CommitsFirst(post, e)
    ensures D.FirstResolution(post, D.Remote(e)).Some? && D.FirstResolution(post, D.Remote(e)).value.Commit? ==>
      D.FirstResolution(post, D.Remote(e)) == Some(D.Commit(e))
  {
    var c := FirstIsAt(post, e);
    if CommitsFirst(post, e) {
      var k :| 0 <= k < |post| && post[k] == D.Commit(e)
        && forall i :: 0 <= i < k ==> post[i] != D.Abort(e) && post[i] != D.Expire(e);
      assert D.Resolves(post[k], D.Remote(e)) && c <= k;
    }
  }

  lemma {:induction false} NotOpen(steps: seq<D.Step>, d: D.Delete)
    requires forall i :: 0 <= i < |steps| ==> !D.Prepares(steps[i], d)
    ensures !D.Open(steps, d)
  {
    if steps == [] {
    } else {
      NotOpen(steps[..|steps|-1], d);
    }
  }

  /** Over every run of the two workers together: no commit arrives before the prepare unless that arrives late,
      and a client that is registered from the prepare's arrival on is sent, on behalf of that delete, exactly the
      messages of its prepare, once and in order, if a commit arrives after it and before any abort and before the
      expiry, and nothing otherwise. */
  lemma {:induction false} DeletedExactlyOnce(steps: seq<Step>, e: string, id: string, j: nat)
    requires CommitsFollow(Run(steps).sender, e) && IsUnique(Run(steps).sender, e)
    requires j < |Deliveries(steps)| && D.Prepares(Deliveries(steps)[j], D.Remote(e))
    requires D.Find(D.Run(D.Init(), Deliveries(steps)[..j]).clients, id).Some?
    requires forall i :: j < i < |Deliveries(steps)| ==> Deliveries(steps)[i] != D.Unregister(id)
    ensures var d := Deliveries(steps);
      var s0 := D.Run(D.Init(), d[..j]);
      && (D.Commit(e) in d[..j] ==> LateAt(Run(steps), e))
      && Run(steps).receiver == D.Run(D.Next(s0, d[j]), d[j+1..])
      && D.SentFor(D.Next(s0, d[j]), d[j+1..], D.Remote(e), id) ==
           if CommitsFirst(d[j+1..], e) then MessagesFor(D.Find(s0.clients, id).value, d[j].b) else []
  {
    hide Run, Deliveries, CommitsFirst, CommitsFollow, IsUnique, CommitHandled, PreparedAt, LateAt;
    hide D.Run, D.Next, D.SentFor, D.Find, D.FirstResolution, P.Inv;
    var d := Deliveries(steps);
    var pre, step, post := d[..j], d[j], d[j+1..];
    RunTraced(steps, e);
    Projections(steps);
    assert forall i :: 0 <= i < |post| ==> post[i] == d[j+1+i];
    assert d == pre + [step] + post;
    D.RunConcat(D.Init(), pre + [step], post);
    D.RunConcat(D.Init(), pre, [step]);
    D.RunOne(D.Run(D.Init(), pre), step);
    assert step == D.Prepare(e, step.b);
    NotOpen(pre, D.Remote(e));
    D.FirstResolutionDecides(pre, D.Remote(e), step, post, id);
    FirstIsCommit(post, e);
  }
}
