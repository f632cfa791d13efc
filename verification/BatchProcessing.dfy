/** The batch processor: runs the requests of a batch one after the other in one transaction, until one
    fails or a stop (timeout or aborted connection) is noticed. */
module BatchProcessing {
  import opened Wrappers
  import opened BatchRoutes

  /** `StopThrown` is a handler ending with the stop error that it found in the stop signal. */
  datatype Reply = Response(status: int, body: string) | Threw | StopThrown

  datatype Cause = TimedOut | Interrupted

  /** The application a batch runs in: `hasRecord` is the lookup of an upsert and `handle` the record
      handlers, as functions of the database. A handler may also react to the stop signal, if it looks at it
      after a stop has arrived: by ending with the stop error, or in any other way. */
  datatype World<!Db> = World(
    upper: string -> string,
    hasRecord: (Db, string, string) -> bool,
    handle: (Db, Call, Request, Option<Cause>) -> (Db, Reply))

  datatype BatchResult = BatchResult(status: int, body: string)

  datatype Failure = UnknownAction | HandlerThrew | ErrorStatus(status: int, body: string)

  /** What happens around one request: the stop causes that arrive before it and while it runs, and whether
      its handler looks at the stop signal after that. */
  datatype Moment = Moment(before: seq<Cause>, during: seq<Cause>, looks: bool)

  datatype Outcome = Committed | CommitFailed | Stopped(cause: Cause) | RequestFailed(index: nat, failure: Failure)

  // ---------------------------------------------------------------- the reference: a left fold

  datatype Applied<Db> = Applied(db: Db, result: BatchResult) | Refused(failure: Failure) | StoppedBy(cause: Cause)

  function Prepared<Db>(w: World<Db>, db: Db, q: Request): Option<(Request, Call)> {
    Prepare(w.upper, (collection, id) => w.hasRecord(db, collection, id), q)
  }

  /** One request, whose handler finds `found` in the stop signal. */
  function Apply<Db>(w: World<Db>, db: Db, q: Request, found: Option<Cause>): Applied<Db> {
    match Prepared(w, db, q)
    case None => Refused(UnknownAction)
    case Some((rewritten, call)) => AfterReply(w.handle(db, call, rewritten, found), found)
  }

  function AfterReply<Db>(handled: (Db, Reply), found: Option<Cause>): Applied<Db> {
    match handled.1
    case Threw => Refused(HandlerThrew)
    case StopThrown => if found.Some? then StoppedBy(found.value) else Refused(HandlerThrew)
    case Response(status, body) =>
      if status >= 400 then Refused(ErrorStatus(status, body)) else Applied(handled.0, BatchResult(status, body))
  }

  function Extended<Db>(w: World<Db>, done: Option<(Db, seq<BatchResult>)>, q: Request, found: Option<Cause>)
      : Option<(Db, seq<BatchResult>)>
  {
    if done.None? then None else
      match Apply(w, done.value.0, q, found)
      case Applied(after, result) => Some((after, done.value.1 + [result]))
      case _ => None
  }

  /** All requests in order, each on the database the earlier ones left; None when one gives no result. */
  function Fold<Db>(w: World<Db>, db: Db, qs: seq<Request>, found: seq<Option<Cause>>): Option<(Db, seq<BatchResult>)>
    requires |found| == |qs|
  {
    if qs == [] then Some((db, []))
    else Extended(w, Fold(w, db, qs[..|qs|-1], found[..|qs|-1]), qs[|qs|-1], found[|qs|-1])
  }

  // ---------------------------------------------------------------- stops

  /** The causes that arrived before request i was looked at, in order. */
  function Arrived(moments: seq<Moment>, i: nat): seq<Cause>
    requires i <= |moments|
  {
    if i == 0 then (if moments == [] then [] else moments[0].before)
    else Arrived(moments, i - 1) + moments[i-1].during + (if i < |moments| then moments[i].before else [])
  }

  predicate NoneArrived(moments: seq<Moment>, i: nat)
    requires i <= |moments|
  {
    Arrived(moments, i) == []
  }

  function First(causes: seq<Cause>): Option<Cause> { if causes == [] then None else Some(causes[0]) }

  function SignalDuring(moments: seq<Moment>, i: nat): Option<Cause>
    requires i < |moments|
  {
    First(Arrived(moments, i) + moments[i].during)
  }

  /** What the handler of request i finds in the stop signal. */
  function Found(moments: seq<Moment>, i: nat): Option<Cause>
    requires i < |moments|
  {
    if moments[i].looks then SignalDuring(moments, i) else None
  }

  function AllFound(moments: seq<Moment>): (r: seq<Option<Cause>>)
    ensures |r| == |moments| && forall i :: 0 <= i < |r| ==> r[i] == Found(moments, i)
  {
    seq(|moments|, i requires 0 <= i < |moments| => Found(moments, i))
  }

  // ---------------------------------------------------------------- the processor

  datatype Progress<Db> = Going(db: Db, results: seq<BatchResult>) | Halted(outcome: Outcome)

  function Proceed<Db>(w: World<Db>, p: Progress<Db>, q: Request, moments: seq<Moment>, i: nat): Progress<Db>
    requires i < |moments|
  {
    if p.Halted? then p
    else if Arrived(moments, i) != [] then Halted(Stopped(Arrived(moments, i)[0]))
    else
      match Apply(w, p.db, q, Found(moments, i))
      case Refused(failure) => Halted(RequestFailed(i, failure))
      case StoppedBy(cause) => Halted(Stopped(cause))
      case Applied(after, result) => Going(after, p.results + [result])
  }

  function Processed<Db>(w: World<Db>, db: Db, qs: seq<Request>, moments: seq<Moment>, n: nat): Progress<Db>
    requires n <= |qs| == |moments|
  {
    if n == 0 then Going(db, []) else Proceed(w, Processed(w, db, qs, moments, n - 1), qs[n-1], moments, n - 1)
  }

  class InternalRequest {
    var method_: string
    var url: string
    const bodyId: string
    const body: string

    constructor (method_: string, url: string, bodyId: string, body: string)
      ensures View() == Request(method_, url, bodyId, body)
    {
      this.method_, this.url, this.bodyId, this.body := method_, url, bodyId, body;
    }

    function View(): Request
      reads this
    {
      Request(method_, url, bodyId, body)
    }

    /** Finds the handler call of this request and, for an upsert, rewrites its method and URL. */
    method PrepareInternalAction<Db>(w: World<Db>, db: Db) returns (call: Option<Call>)
      modifies this
      ensures match Prepared(w, db, old(View()))
        case None => call == None && View() == old(View())
        case Some((rewritten, c)) => call == Some(c) && View() == rewritten
    {
      var matched := Match(w.upper(method_) + " " + url);
      if matched.None? { return None; }
      var route := matched.value;
      if route.kind.Upsert? {
        if bodyId != "" {
          var found := w.hasRecord(db, route.collection, bodyId);
          if found {
            method_, url := "PATCH", API + route.collection + RECORDS + "/" + bodyId + route.query;
            return Some(Call(Update, route.collection, bodyId));
          }
        }
        method_, url := "POST", API + route.collection + RECORDS + route.query;
        return Some(Call(Create, route.collection, ""));
      }
      return Some(Call(route.kind, route.collection, route.id));
    }
  }

  function Views(batch: seq<InternalRequest>): (r: seq<Request>)
    reads batch
    ensures |r| == |batch|
    ensures forall i :: 0 <= i < |r| ==> r[i] == batch[i].View()
  {
    seq(|batch|, i requires 0 <= i < |batch| reads batch => batch[i].View())
  }

  /** The first cause sets the stop signal; later ones leave it. */
  method Notify(signal: Option<Cause>, causes: seq<Cause>) returns (after: Option<Cause>)
    ensures after == if signal.Some? then signal else First(causes)
  {
    after := signal;
    for i := 0 to |causes|
      invariant after == if signal.Some? then signal else First(causes[..i])
    {
      if after.None? { after := Some(causes[i]); }
    }
    assert causes[..|causes|] == causes;
  }

  method ProcessInternalRequest<Db>(w: World<Db>, db: Db, ir: InternalRequest, moment: Moment, signal: Option<Cause>)
    returns (applied: Applied<Db>, after: Option<Cause>)
    modifies ir
    ensures after == if signal.Some? then signal else First(moment.during)
    ensures applied == Apply(w, db, old(ir.View()), if moment.looks then after else None)
  {
    var call := ir.PrepareInternalAction(w, db);
    after := Notify(signal, moment.during);
    if call.None? { return Refused(UnknownAction), after; }
    var found := if moment.looks then after else None;
    var (changed, reply) := w.handle(db, call.value, ir.View(), found);
    match reply
    case Threw => return Refused(HandlerThrew), after;
    case StopThrown =>
      if found.Some? { return StoppedBy(found.value), after; }
      return Refused(HandlerThrew), after;
    case Response(status, body) =>
      if status >= 400 { return Refused(ErrorStatus(status, body)), after; }
      return Applied(changed, BatchResult(status, body)), after;
  }

  /** `db` is the database as the transaction sees it. */
  class BatchProcessor<Db> {
    var db: Db
    var results: seq<BatchResult>

    constructor (db: Db)
      ensures this.db == db && results == []
    {
      this.db, results := db, [];
    }

    method Process(w: World<Db>, batch: seq<InternalRequest>, moments: seq<Moment>, commitFails: bool)
        returns (outcome: Outcome)
      requires |moments| == |batch| && forall i, j :: 0 <= i < j < |batch| ==> batch[i] != batch[j]
      modifies this, batch
      ensures match Processed(w, old(db), old(Views(batch)), moments, |batch|)
        case Halted(o) => outcome == o && db == old(db)
        case Going(d, rs) => outcome == (if commitFails then CommitFailed else Committed) && results == rs
                             && db == if commitFails then old(db) else d
    {
      hide Apply, Arrived, SignalDuring, Processed, First;
      ghost var qs := Views(batch);
      var start := db;
      results := [];
      var signal: Option<Cause> := None;
      if |moments| > 0 { signal := Notify(signal, moments[0].before); }
      ArrivedFirst(moments);
      ProcessedFirst(w, start, qs, moments);
      for i := 0 to |batch|
        invariant signal == First(Arrived(moments, i))
        invariant Processed(w, start, qs, moments, i) == Going(db, results)
        invariant forall j :: i <= j < |batch| ==> batch[j].View() == qs[j]
      {
        ArrivedNext(moments, i);
        ProcessedNext(w, start, qs, moments, i);
        if signal.Some? {
          Rest(w, start, qs, moments, i + 1);
          outcome, db := Stopped(signal.value), start;
          return;
        }
        var applied;
        applied, signal := ProcessInternalRequest(w, db, batch[i], moments[i], signal);
        match applied
        case StoppedBy(cause) =>
          Rest(w, start, qs, moments, i + 1);
          outcome, db := Stopped(cause), start;
          return;
        case Refused(failure) =>
          Rest(w, start, qs, moments, i + 1);
          outcome, db := RequestFailed(i, failure), start;
          return;
        case Applied(after, result) =>
          db, results := after, results + [result];
        if i < |batch| - 1 { signal := Notify(signal, moments[i+1].before); }
      }
      if commitFails {
        outcome, db := CommitFailed, start;
        return;
      }
      return Committed;
    }
  }

  lemma ProcessedFirst<Db>(w: World<Db>, db: Db, qs: seq<Request>, moments: seq<Moment>)
    requires |qs| == |moments|
    ensures Processed(w, db, qs, moments, 0) == Going(db, [])
  {
  }

  lemma ProcessedNext<Db>(w: World<Db>, db: Db, qs: seq<Request>, moments: seq<Moment>, i: nat)
    requires i < |qs| == |moments|
    ensures Processed(w, db, qs, moments, i + 1) == Proceed(w, Processed(w, db, qs, moments, i), qs[i], moments, i)
  {
  }

  lemma ArrivedFirst(moments: seq<Moment>)
    ensures First(Arrived(moments, 0)) == if moments == [] then None else First(moments[0].before)
  {
  }

  lemma ArrivedNext(moments: seq<Moment>, i: nat)
    requires i < |moments|
    ensures First(Arrived(moments, i)) == if Arrived(moments, i) == [] then None else Some(Arrived(moments, i)[0])
    ensures SignalDuring(moments, i) ==
      if Arrived(moments, i) != [] then First(Arrived(moments, i)) else First(moments[i].during)
    ensures First(Arrived(moments, i + 1)) ==
      if SignalDuring(moments, i).Some? || i == |moments| - 1 then SignalDuring(moments, i)
        else First(moments[i+1].before)
  {
  }

  /** Once halted, a batch stays so. */
  lemma {:induction false} Rest<Db>(w: World<Db>, db: Db, qs: seq<Request>, moments: seq<Moment>, n: nat)
    requires n <= |qs| == |moments| && Processed(w, db, qs, moments, n).Halted?
    ensures Processed(w, db, qs, moments, |qs|) == Processed(w, db, qs, moments, n)
    decreases |qs| - n
  {
    if n < |qs| { Rest(w, db, qs, moments, n + 1); }
  }

  // ---------------------------------------------------------------- what the outcomes mean

  lemma FoldNext<Db>(w: World<Db>, db: Db, qs: seq<Request>, found: seq<Option<Cause>>, n: nat)
    requires n < |qs| == |found|
    ensures Fold(w, db, qs[..n+1], found[..n+1]) == Extended(w, Fold(w, db, qs[..n], found[..n]), qs[n], found[n])
  {
    assert qs[..n+1][..n] == qs[..n] && found[..n+1][..n] == found[..n];
  }

  lemma EmptyFold<Db>(w: World<Db>, db: Db, qs: seq<Request>, found: seq<Option<Cause>>)
    requires |qs| == |found| == 0
    ensures Fold(w, db, qs, found) == Some((db, []))
  {
  }

  /** The batch goes on exactly as the left fold does, while no stop has arrived when a request is started. */
  lemma {:induction false} GoesOnAsFold<Db>(w: World<Db>, db: Db, qs: seq<Request>, moments: seq<Moment>, n: nat)
    requires n <= |qs| == |moments|
    ensures var p, fold := Processed(w, db, qs, moments, n), Fold(w, db, qs[..n], AllFound(moments)[..n]);
      && (p.Going? <==> fold.Some? && forall i :: 0 <= i < n ==> NoneArrived(moments, i))
      && (p.Going? ==> fold == Some((p.db, p.results)))
  {
    hide Apply, Arrived, Fold, Found;
    var found := AllFound(moments);
    if n == 0 {
      EmptyFold(w, db, qs[..0], found[..0]);
    } else {
      GoesOnAsFold(w, db, qs, moments, n - 1);
      FoldNext(w, db, qs, found, n - 1);
      var p := Processed(w, db, qs, moments, n - 1);
      if p.Going? {
        if !NoneArrived(moments, n - 1) {
          assert Processed(w, db, qs, moments, n).Halted?;
        } else if Processed(w, db, qs, moments, n).Going? {
          assert Apply(w, p.db, qs[n-1], found[n-1]).Applied?;
        } else {
          assert !Apply(w, p.db, qs[n-1], found[n-1]).Applied?;
          assert Fold(w, db, qs[..n], found[..n]).None?;
        }
      } else {
        assert Processed(w, db, qs, moments, n).Halted?;
      }
    }
  }

  /** The batch commits only the left fold of all its requests, and reaches the commit exactly when every
      request gives a result and no stop has arrived when one is started. Every handler but the last then
      found no stop. */
  lemma {:induction false} CommitsExactlyTheFold<Db>(w: World<Db>, db: Db, qs: seq<Request>, moments: seq<Moment>)
    requires |qs| == |moments|
    ensures var p, fold := Processed(w, db, qs, moments, |qs|), Fold(w, db, qs, AllFound(moments));
      && (p.Going? <==> fold.Some? && forall i :: 0 <= i < |qs| ==> NoneArrived(moments, i))
      && (p.Going? ==> fold == Some((p.db, p.results)) && forall i :: 0 <= i < |qs| - 1 ==> Found(moments, i) == None)
  {
    hide Processed, Fold, Arrived;
    GoesOnAsFold(w, db, qs, moments, |qs|);
    assert qs[..|qs|] == qs && AllFound(moments)[..|qs|] == AllFound(moments);
    if Processed(w, db, qs, moments, |qs|).Going? {
      forall i | 0 <= i < |qs| - 1 ensures Found(moments, i) == None {
        assert NoneArrived(moments, i + 1);
        ArrivedGrows(moments, i, i + 1);
      }
    }
  }

  /** What an outcome says about the requests: a batch that commits has no reply with an error status, one that
      fails with a status has an error status, and one that fails with an unknown action has a request line
      that is no route's. */
  lemma {:induction false} OutcomesMean<Db>(w: World<Db>, db: Db, qs: seq<Request>, moments: seq<Moment>, n: nat)
    requires n <= |qs| == |moments|
    ensures match Processed(w, db, qs, moments, n)
      case Going(_, results) => |results| == n && forall i :: 0 <= i < n ==> results[i].status < 400
      case Halted(RequestFailed(i, ErrorStatus(status, _))) => i < n && status >= 400
      case Halted(RequestFailed(i, UnknownAction)) =>
        i < n && forall r :: IsRoute(r) ==> w.upper(qs[i].method_) + " " + qs[i].url != Line(r)
      case _ => true
  {
    hide Arrived, Found, Match, IsRoute, Line;
    if n == 0 {
    } else {
      OutcomesMean(w, db, qs, moments, n - 1);
      var line := w.upper(qs[n-1].method_) + " " + qs[n-1].url;
      forall r | IsRoute(r) ensures line == Line(r) ==> Match(line).Some? { MatchExactly(line, r); }
    }
  }

  /** Result i is the answer to request i, on the database the earlier requests left. */
  lemma {:induction false} ResultsMatchRequests<Db>(w: World<Db>, db: Db, qs: seq<Request>, found: seq<Option<Cause>>,
                                                    i: nat)
    requires i < |qs| == |found| && Fold(w, db, qs, found).Some?
    ensures |Fold(w, db, qs, found).value.1| == |qs|
    ensures Fold(w, db, qs[..i], found[..i]).Some? && Fold(w, db, qs[..i+1], found[..i+1]).Some?
    ensures |Fold(w, db, qs, found).value.1| == |qs| && Fold(w, db, qs[..i], found[..i]).Some?
      && Apply(w, Fold(w, db, qs[..i], found[..i]).value.0, qs[i], found[i])
        == Applied(Fold(w, db, qs[..i+1], found[..i+1]).value.0, Fold(w, db, qs, found).value.1[i])
  {
    hide Apply;
    var init, seen := qs[..|qs|-1], found[..|qs|-1];
    assert qs[..|qs|] == qs && found[..|qs|] == found;
    if i < |init| {
      ResultsMatchRequests(w, db, init, seen, i);
      assert init[..i] == qs[..i] && init[..i+1] == qs[..i+1];
      assert seen[..i] == found[..i] && seen[..i+1] == found[..i+1];
    } else if |init| > 0 {
      ResultsMatchRequests(w, db, init, seen, 0);
    }
  }

  /** Where a batch halts. */
  lemma {:induction false} HaltsOnce<Db>(w: World<Db>, db: Db, qs: seq<Request>, moments: seq<Moment>, n: nat)
      returns (i: nat)
    requires n <= |qs| == |moments| && Processed(w, db, qs, moments, n).Halted?
    ensures i < n && Processed(w, db, qs, moments, i).Going?
    ensures Processed(w, db, qs, moments, n) == Processed(w, db, qs, moments, i + 1)
  {
    hide Proceed;
    if Processed(w, db, qs, moments, n - 1).Going? {
      i := n - 1;
    } else {
      i := HaltsOnce(w, db, qs, moments, n - 1);
      HaltedStays(w, Processed(w, db, qs, moments, n - 1), qs[n-1], moments, n - 1);
    }
  }

  lemma HaltedStays<Db>(w: World<Db>, p: Progress<Db>, q: Request, moments: seq<Moment>, i: nat)
    requires i < |moments| && p.Halted?
    ensures Proceed(w, p, q, moments, i) == p
  {
  }

  lemma HaltIndex<Db>(w: World<Db>, db: Db, qs: seq<Request>, moments: seq<Moment>, i: nat)
    requires i < |qs| == |moments| && Processed(w, db, qs, moments, i).Going?
      && Processed(w, db, qs, moments, i + 1).Halted?
    ensures Processed(w, db, qs, moments, i + 1).outcome.RequestFailed? ==>
      Processed(w, db, qs, moments, i + 1).outcome.index == i
  {
    hide Apply, Arrived, Found;
  }

  /** A request failure names the first request that is refused, with its reason, when no stop has arrived at
      its start or before. */
  lemma {:induction false} FailureNamesTheFirst<Db>(w: World<Db>, db: Db, qs: seq<Request>, moments: seq<Moment>,
                                                    i: nat, failure: Failure)
    requires i < |qs| == |moments|
    ensures var before := Fold(w, db, qs[..i], AllFound(moments)[..i]);
      Processed(w, db, qs, moments, |qs|) == Halted(RequestFailed(i, failure)) <==>
        (&& before.Some? && (forall j :: 0 <= j <= i ==> NoneArrived(moments, j))
         && Apply(w, before.value.0, qs[i], Found(moments, i)) == Refused(failure))
  {
    hide Fold, Apply, Arrived, Found;
    GoesOnAsFold(w, db, qs, moments, i);
    var p := Processed(w, db, qs, moments, i);
    if p.Going? {
      if Processed(w, db, qs, moments, i + 1).Halted? { Rest(w, db, qs, moments, i + 1); }
      assert AllFound(moments)[i] == Found(moments, i);
      assert (forall j :: 0 <= j <= i ==> NoneArrived(moments, j)) <==> NoneArrived(moments, i);
    } else {
      Rest(w, db, qs, moments, i);
      var k := HaltsOnce(w, db, qs, moments, i);
      HaltIndex(w, db, qs, moments, k);
    }
    if Processed(w, db, qs, moments, |qs|).Halted? {
      var k := HaltsOnce(w, db, qs, moments, |qs|);
      HaltIndex(w, db, qs, moments, k);
    }
  }

  /** The handler of request i looks at the stop signal after the stop that came first had arrived while it runs,
      and ends with its error. */
  predicate HandlerStops<Db>(w: World<Db>, db: Db, q: Request, moment: Moment, cause: Cause) {
    && moment.looks && moment.during != [] && moment.during[0] == cause
    && Prepared(w, db, q).Some?
    && w.handle(db, Prepared(w, db, q).value.1, Prepared(w, db, q).value.0, Some(cause)).1 == StopThrown
  }

  /** The batch is stopped at request i: the earlier ones gave results, no stop had arrived when they were
      started, and either one has when this one is to be started, or its handler ends with it. */
  ghost predicate StoppedAt<Db>(w: World<Db>, db: Db, qs: seq<Request>, moments: seq<Moment>, i: nat, cause: Cause)
    requires i < |qs| == |moments|
  {
    var before := Fold(w, db, qs[..i], AllFound(moments)[..i]);
    && before.Some? && (forall j :: 0 <= j < i ==> NoneArrived(moments, j))
    && (if NoneArrived(moments, i) then HandlerStops(w, before.value.0, qs[i], moments[i], cause)
        else Arrived(moments, i)[0] == cause)
  }

  lemma StopsHere<Db>(w: World<Db>, db: Db, qs: seq<Request>, moments: seq<Moment>, i: nat, cause: Cause)
    requires i < |qs| == |moments|
    ensures StoppedAt(w, db, qs, moments, i, cause) <==>
      Processed(w, db, qs, moments, i).Going? && Processed(w, db, qs, moments, i + 1) == Halted(Stopped(cause))
  {
    hide Fold, Apply, Arrived, Found;
    GoesOnAsFold(w, db, qs, moments, i);
    var p := Processed(w, db, qs, moments, i);
    if p.Going? && NoneArrived(moments, i) { StopApplied(w, p.db, qs[i], moments, i, cause); }
  }

  lemma StopApplied<Db>(w: World<Db>, db: Db, q: Request, moments: seq<Moment>, i: nat, cause: Cause)
    requires i < |moments| && NoneArrived(moments, i)
    ensures Apply(w, db, q, Found(moments, i)) == StoppedBy(cause) <==> HandlerStops(w, db, q, moments[i], cause)
  {
    hide Arrived, Prepared;
    assert [] + moments[i].during == moments[i].during;
  }

  /** A batch ends as stopped with a cause exactly when it is stopped with it at some request. */
  lemma {:induction false} StopsExactlyWhen<Db>(w: World<Db>, db: Db, qs: seq<Request>, moments: seq<Moment>,
                                                cause: Cause)
    requires |qs| == |moments|
    ensures Processed(w, db, qs, moments, |qs|) == Halted(Stopped(cause)) <==>
      exists i: nat :: i < |qs| && StoppedAt(w, db, qs, moments, i, cause)
  {
    hide Proceed, StoppedAt;
    if Processed(w, db, qs, moments, |qs|) == Halted(Stopped(cause)) {
      var i := HaltsOnce(w, db, qs, moments, |qs|);
      StopsHere(w, db, qs, moments, i, cause);
    }
    if i: nat :| i < |qs| && StoppedAt(w, db, qs, moments, i, cause) {
      StopsHere(w, db, qs, moments, i, cause);
      Rest(w, db, qs, moments, i + 1);
    }
  }

  lemma {:induction false} ArrivedGrows(moments: seq<Moment>, i: nat, n: nat)
    requires i <= n <= |moments|
    ensures Arrived(moments, i) <= Arrived(moments, n)
    ensures i < n ==> Arrived(moments, i) + moments[i].during <= Arrived(moments, n)
    decreases n - i
  {
    if i < n - 1 { ArrivedGrows(moments, i, n - 1); }
  }

  lemma StoppedByFound<Db>(w: World<Db>, db: Db, q: Request, found: Option<Cause>)
    ensures Apply(w, db, q, found).StoppedBy? ==> found == Some(Apply(w, db, q, found).cause)
  {
  }

  /** The first cause wins: a stopped batch reports the first of all causes that arrive around it. */
  lemma {:induction false} FirstCauseWins<Db>(w: World<Db>, db: Db, qs: seq<Request>, moments: seq<Moment>)
    requires |qs| == |moments|
    requires Processed(w, db, qs, moments, |qs|).Halted? && Processed(w, db, qs, moments, |qs|).outcome.Stopped?
    ensures First(Arrived(moments, |moments|)) == Some(Processed(w, db, qs, moments, |qs|).outcome.cause)
  {
    hide Arrived, Apply;
    var i := HaltsOnce(w, db, qs, moments, |qs|);
    StoppedByFound(w, Processed(w, db, qs, moments, i).db, qs[i], Found(moments, i));
    ArrivedGrows(moments, i, |moments|);
  }

  /** An upsert inside a batch is answered by the update handler exactly when a record with its body's id
      exists after the earlier requests, and by the create handler otherwise. */
  lemma {:induction false} UpsertSeesEarlierRequests<Db>(w: World<Db>, db: Db, qs: seq<Request>,
                                                         found: seq<Option<Cause>>, i: nat, r: Route,
                                                         before: (Db, seq<BatchResult>),
                                                         after: (Db, seq<BatchResult>))
    requires i < |qs| == |found|
    requires Fold(w, db, qs[..i], found[..i]) == Some(before) && Fold(w, db, qs[..i+1], found[..i+1]) == Some(after)
    requires IsRoute(r) && r.kind.Upsert? && w.upper(qs[i].method_) + " " + qs[i].url == Line(r)
    ensures Prepared(w, before.0, qs[i]).Some? && |after.1| == i + 1
    ensures var (rewritten, call) := Prepared(w, before.0, qs[i]).value;
      && call == (if qs[i].bodyId != "" && w.hasRecord(before.0, r.collection, qs[i].bodyId)
                  then Call(Update, r.collection, qs[i].bodyId) else Call(Create, r.collection, ""))
      && w.handle(before.0, call, rewritten, found[i]) == (after.0, Response(after.1[i].status, after.1[i].body))
  {
    hide Match, Line, IsRoute, Fold;
    assert qs[..i+1][..i] == qs[..i] && qs[..i+1][..i+1] == qs[..i+1];
    assert found[..i+1][..i] == found[..i] && found[..i+1][..i+1] == found[..i+1];
    ResultsMatchRequests(w, db, qs[..i+1], found[..i+1], i);
    UpsertActsAs(w.upper, (collection, id) => w.hasRecord(before.0, collection, id), qs[i], r);
  }
}
