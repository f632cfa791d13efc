/** The delete-prepares of a database transaction: all deletes of one transaction are prepared together by
    a function that runs before the commit. Transactions interleave; each has its own batch. */
module DeletePrepareBatches {
  import opened Wrappers

  /** A batch, shared by the table of open batches and the before-commit function that was registered
      with it; batches are named by their position in `created`. */
  datatype Batch = Batch(app: string, events: seq<string>)

  /** A call of the prepare for a transaction. */
  datatype Handed = Handed(tx: nat, app: string, events: seq<string>)

  datatype State = State(created: seq<Batch>, open: map<nat, nat>, hooks: map<nat, seq<nat>>, handed: seq<Handed>)

  datatype Step = Queue(tx: nat, app: string, event: string) | RunHook(tx: nat)

  function Init(): State { State([], map[], map[], []) }

  /** The before-commit functions of a transaction that have yet to run. */
  function HooksOf(hooks: map<nat, seq<nat>>, tx: nat): seq<nat> { if tx in hooks then hooks[tx] else [] }

  predicate Enabled(s: State, step: Step) {
    match step
    case Queue(tx, _, _) => tx in s.open ==> s.open[tx] < |s.created|
    case RunHook(tx) => HooksOf(s.hooks, tx) != [] && HooksOf(s.hooks, tx)[0] < |s.created|
  }

  function Next(s: State, step: Step): State {
    if !Enabled(s, step) then s else
      match step
      case Queue(tx, app, event) =>
        if tx in s.open then
          var b := s.created[s.open[tx]];
          s.(created := s.created[s.open[tx] := b.(events := b.events + [event])])
        else
          State(s.created + [Batch(app, [event])], s.open[tx := |s.created|],
                s.hooks[tx := HooksOf(s.hooks, tx) + [|s.created|]], s.handed)
      case RunHook(tx) =>
        var pending := HooksOf(s.hooks, tx);
        var b := s.created[pending[0]];
        State(s.created, s.open - {tx}, s.hooks[tx := pending[1..]], s.handed + [Handed(tx, b.app, b.events)])
  }

  function Run(s: State, steps: seq<Step>): State {
    if steps == [] then s else Next(Run(s, steps[..|steps|-1]), steps[|steps|-1])
  }

  // ---------------------------------------------------------------- what is prepared

  /** A transaction with an open batch has one function left to run, for that batch, and one without has
      none; no two transactions share a batch. */
  ghost predicate Inv(s: State) {
    && (forall tx: nat :: HooksOf(s.hooks, tx) == if tx in s.open then [s.open[tx]] else [])
    && (forall tx :: tx in s.open ==> s.open[tx] < |s.created|)
    && (forall a, b :: a in s.open && b in s.open && a != b ==> s.open[a] != s.open[b])
  }

  function HandedFor(handed: seq<Handed>, tx: nat): seq<string> {
    if handed == [] then [] else
      var rest, last := HandedFor(handed[..|handed|-1], tx), handed[|handed|-1];
      if last.tx == tx then rest + last.events else rest
  }

  function OpenEvents(s: State, tx: nat): seq<string> {
    if tx in s.open && s.open[tx] < |s.created| then s.created[s.open[tx]].events else []
  }

  /** The deletes of a transaction, in order. */
  function QueuedIn(steps: seq<Step>, tx: nat): seq<string> {
    if steps == [] then [] else
      var rest, last := QueuedIn(steps[..|steps|-1], tx), steps[|steps|-1];
      if last.Queue? && last.tx == tx then rest + [last.event] else rest
  }

  lemma QueueKeepsInv(s: State, tx: nat, app: string, event: string)
    requires Inv(s)
    ensures Inv(Next(s, Queue(tx, app, event))) && Enabled(s, Queue(tx, app, event))
  {
    if tx !in s.open { assert HooksOf(s.hooks, tx) + [|s.created|] == [|s.created|]; }
  }

  lemma HookKeepsInv(s: State, tx: nat)
    requires Inv(s)
    ensures Inv(Next(s, RunHook(tx))) && Enabled(s, RunHook(tx)) == (tx in s.open)
  {
    assert HooksOf(s.hooks, tx) == if tx in s.open then [s.open[tx]] else [];
  }

  lemma NextKeepsInv(s: State, step: Step)
    requires Inv(s)
    ensures Inv(Next(s, step)) && Enabled(s, step) == (step.Queue? || step.tx in s.open)
  {
    hide Inv, Next, Enabled;
    match step
    case Queue(tx, app, event) => QueueKeepsInv(s, tx, app, event);
    case RunHook(tx) => HookKeepsInv(s, tx);
  }

  lemma QueueConserves(s: State, tx: nat, app: string, event: string, at: nat)
    requires Inv(s)
    ensures var t := Next(s, Queue(tx, app, event));
      && t.handed == s.handed
      && OpenEvents(t, at) == if tx == at then OpenEvents(s, at) + [event] else OpenEvents(s, at)
  {
    if tx !in s.open { assert OpenEvents(s, tx) + [event] == [event]; }
  }

  lemma HookConserves(s: State, tx: nat, at: nat)
    requires Inv(s)
    ensures var t := Next(s, RunHook(tx));
      && (tx !in s.open ==> t == s)
      && (tx in s.open ==> t.handed == s.handed + [Handed(tx, s.created[s.open[tx]].app, OpenEvents(s, tx))])
      && OpenEvents(t, at) == if tx == at then [] else OpenEvents(s, at)
  {
    assert HooksOf(s.hooks, tx) == if tx in s.open then [s.open[tx]] else [];
  }

  lemma HandedNext(handed: seq<Handed>, h: Handed, tx: nat)
    ensures HandedFor(handed + [h], tx) == if h.tx == tx then HandedFor(handed, tx) + h.events
      else HandedFor(handed, tx)
  {
    assert (handed + [h])[..|handed|] == handed;
  }

  /** What was handed over for a transaction, and then its open batch. */
  function Accounted(s: State, tx: nat): seq<string> { HandedFor(s.handed, tx) + OpenEvents(s, tx) }

  lemma StepConserves(s: State, step: Step, tx: nat)
    requires Inv(s)
    ensures Accounted(Next(s, step), tx) ==
      if step.Queue? && step.tx == tx then Accounted(s, tx) + [step.event] else Accounted(s, tx)
  {
    hide Next, OpenEvents, HandedFor, Enabled;
    var handed, open := HandedFor(s.handed, tx), OpenEvents(s, tx);
    match step
    case Queue(at, app, event) =>
      QueueConserves(s, at, app, event, tx);
      assert handed + (open + [event]) == handed + open + [event];
    case RunHook(at) =>
      HookConserves(s, at, tx);
      if at in s.open {
        HandedNext(s.handed, Handed(at, s.created[s.open[at]].app, OpenEvents(s, at)), tx);
        assert handed + open + [] == handed + open;
      }
  }

  /** Over every interleaving of transactions, what was handed to the prepare for a transaction, followed
      by its open batch, is its deletes, each once and in order; when its before-commit function has run,
      all of them were handed over, and no function is left. */
  lemma {:induction false} EveryDeleteIsPreparedOnce(steps: seq<Step>, tx: nat)
    ensures var s := Run(Init(), steps);
      && Inv(s) && Accounted(s, tx) == QueuedIn(steps, tx)
      && (HooksOf(s.hooks, tx) == [] ==> HandedFor(s.handed, tx) == QueuedIn(steps, tx))
      && HooksOf(Next(s, RunHook(tx)).hooks, tx) == []
  {
    hide Next, HandedFor, OpenEvents, Inv;
    if steps == [] {
      NothingHanded(tx);
    } else {
      var before, last := Run(Init(), steps[..|steps|-1]), steps[|steps|-1];
      EveryDeleteIsPreparedOnce(steps[..|steps|-1], tx);
      NextKeepsInv(before, last);
      StepConserves(before, last, tx);
    }
    NothingOpen(Run(Init(), steps), tx);
    NextKeepsInv(Run(Init(), steps), RunHook(tx));
  }

  lemma NothingHanded(tx: nat)
    ensures Accounted(Init(), tx) == [] && Inv(Init())
  {
  }

  lemma NothingOpen(s: State, tx: nat)
    requires Inv(s)
    ensures HooksOf(s.hooks, tx) == [] ==> OpenEvents(s, tx) == []
    ensures HooksOf(Next(s, RunHook(tx)).hooks, tx) == []
  {
  }

  /** The app whose delete opened the current batch of a transaction. */
  function Opener(steps: seq<Step>, tx: nat): Option<string> {
    if steps == [] then None else
      var before, last := Opener(steps[..|steps|-1], tx), steps[|steps|-1];
      if last.tx != tx then before
      else if last.RunHook? then None
      else if before.Some? then before
      else Some(last.app)
  }

  ghost predicate OpenedBy(s: State, tx: nat, app: Option<string>) {
    if tx in s.open && s.open[tx] < |s.created| then app == Some(s.created[s.open[tx]].app) else app == None
  }

  /** Over every interleaving the deletes of a batch are handed over through the app that opened it, and a
      transaction with nothing to prepare hands nothing over. */
  lemma {:induction false} PreparedByOpener(steps: seq<Step>, tx: nat)
    ensures var s := Run(Init(), steps);
      && OpenedBy(s, tx, Opener(steps, tx))
      && Next(s, RunHook(tx)).handed == match Opener(steps, tx)
           case None => s.handed
           case Some(app) => s.handed + [Handed(tx, app, OpenEvents(s, tx))]
  {
    hide Inv, HandedFor;
    var s := Run(Init(), steps);
    EveryDeleteIsPreparedOnce(steps, tx);
    if steps != [] {
      var before, last := Run(Init(), steps[..|steps|-1]), steps[|steps|-1];
      PreparedByOpener(steps[..|steps|-1], tx);
      EveryDeleteIsPreparedOnce(steps[..|steps|-1], tx);
      OpenerNext(before, last, tx, Opener(steps[..|steps|-1], tx));
    }
    HandsOver(s, tx);
  }

  lemma OpenerNext(s: State, step: Step, tx: nat, app: Option<string>)
    requires Inv(s) && OpenedBy(s, tx, app)
    ensures OpenedBy(Next(s, step), tx,
      if step.tx != tx then app else if step.RunHook? then None else if app.Some? then app else Some(step.app))
  {
    NextKeepsInv(s, step);
    if step.RunHook? { HookConserves(s, step.tx, tx); }
  }

  lemma HandsOver(s: State, tx: nat)
    requires Inv(s)
    ensures Next(s, RunHook(tx)).handed ==
      if tx in s.open then s.handed + [Handed(tx, s.created[s.open[tx]].app, OpenEvents(s, tx))] else s.handed
  {
    HookConserves(s, tx, tx);
  }

  // ---------------------------------------------------------------- the program

  class Batches {
    var created: seq<Batch>
    var open: map<nat, nat>
    var hooks: map<nat, seq<nat>>
    ghost var handed: seq<Handed>

    ghost function View(): State
      reads this
    {
      State(created, open, hooks, handed)
    }

    constructor ()
      ensures View() == Init()
    {
      created, open, hooks, handed := [], map[], map[], [];
    }

    method QueueDeletePrepare(tx: nat, app: string, event: string)
      requires Inv(View())
      modifies this
      ensures View() == Next(old(View()), Queue(tx, app, event))
    {
      if tx !in open {
        var batch := |created|;
        created := created + [Batch(app, [])];
        open := open[tx := batch];
        hooks := hooks[tx := HooksOf(hooks, tx) + [batch]];
      }
      var b := created[open[tx]];
      assert tx !in old(open) ==> b.events + [event] == [event];
      created := created[open[tx] := b.(events := b.events + [event])];
      assert tx !in old(open) ==> created == old(created) + [Batch(app, [event])];
    }

    /** Runs the next before-commit function of a transaction, and gives what it prepares. */
    method BeforeCommit(tx: nat) returns (app: string, events: seq<string>)
      requires Inv(View()) && HooksOf(hooks, tx) != []
      modifies this
      ensures View() == Next(old(View()), RunHook(tx))
      ensures handed == old(handed) + [Handed(tx, app, events)]
    {
      assert HooksOf(hooks, tx) == [open[tx]];
      var pending := hooks[tx];
      open := open - {tx};
      hooks := hooks[tx := pending[1..]];
      app, events := created[pending[0]].app, created[pending[0]].events;
      handed := handed + [Handed(tx, app, events)];
    }
  }
}
