/** The auth state of realtime clients: who may change the subscriptions of a client, and when a client
    loses the identity it subscribed with. */
module ClientAuth {
  import opened Wrappers
  import opened Subscriptions

  datatype Request = Request(ip: string, auth: Option<AuthRecord>, topics: seq<string>)

  datatype Rejection = WrongIP | WrongAuth | EndedByHook | RejectedAfterwards

  function SameAuth(a: Option<AuthRecord>, b: Option<AuthRecord>): bool {
    if a.None? then b.None?
    else b.Some? && a.value.id == b.value.id && a.value.collectionId == b.value.collectionId
  }

  /** The checks made before the subscribe hooks run. */
  function Check(c: ClientState, req: Request): Option<Rejection> {
    if IP_KEY in c.store && c.store[IP_KEY].IP? && c.store[IP_KEY].ip != "" && c.store[IP_KEY].ip != req.ip
      then Some(WrongIP)
    else if c.CurrentAuth().Some? && !SameAuth(c.CurrentAuth(), req.auth) then Some(WrongAuth)
    else None
  }

  /** What the innermost subscribe handler does, with the topics as the hooks left them. */
  function Accept(c: ClientState, req: Request, topics: seq<string>): ClientState {
    Resubscribed(c, topics, req.auth)
  }

  /** What the subscribe hooks do: end the request before the handler, or hand their topics to it and then
      pass its answer on, or not. */
  datatype Hooked = Ended | Handled(topics: seq<string>, passedOn: bool)

  /** The handler runs, whatever the hooks make of its answer. */
  predicate Reaches(c: ClientState, req: Request, hooked: Hooked) { Check(c, req).None? && hooked.Handled? }

  function Outcome(c: ClientState, req: Request, hooked: Hooked): Option<Rejection> {
    if Check(c, req).Some? then Check(c, req)
    else match hooked
      case Ended => Some(EndedByHook)
      case Handled(_, passedOn) => if passedOn then None else Some(RejectedAfterwards)
  }

  predicate Refers(auth: AuthRecord, collectionName: string, recordId: string) {
    auth.id == recordId && auth.collectionName == collectionName
  }

  function RecordUpdated(c: ClientState, record: AuthRecord): ClientState {
    var auth := c.CurrentAuth();
    if auth.None? || !Refers(auth.value, record.collectionName, record.id) then c
    else if auth.value.tokenKey != record.tokenKey then Unauthenticated(c)
    else c.(store := c.store[AUTH_KEY := Auth(Some(record))])
  }

  function RecordDeleted(c: ClientState, collectionName: string, recordId: string): ClientState {
    var auth := c.CurrentAuth();
    if auth.Some? && Refers(auth.value, collectionName, recordId) then Unauthenticated(c) else c
  }

  function CollectionReset(c: ClientState, collectionName: string): ClientState {
    var auth := c.CurrentAuth();
    if auth.Some? && auth.value.collectionName == collectionName then Unauthenticated(c) else c
  }

  // ---------------------------------------------------------------- the program

  method Subscribe(client: Client, req: Request, hooked: Hooked) returns (rejected: Option<Rejection>)
    modifies client
    ensures rejected == Outcome(old(client.View()), req, hooked)
    ensures client.View() ==
      if Reaches(old(client.View()), req, hooked) then Accept(old(client.View()), req, hooked.topics)
        else old(client.View())
  {
    if IP_KEY in client.store && client.store[IP_KEY].IP? {
      var clientIP := client.store[IP_KEY].ip;
      if clientIP != "" && clientIP != req.ip { return Some(WrongIP); }
    }
    var clientAuth := client.View().CurrentAuth();
    if clientAuth.Some? && !SameAuth(clientAuth, req.auth) { return Some(WrongAuth); }
    if hooked.Ended? { return Some(EndedByHook); }
    client.Set(AUTH_KEY, Auth(req.auth));
    client.UnsubscribeAll();
    client.Subscribe(hooked.topics);
    return if hooked.passedOn then None else Some(RejectedAfterwards);
  }

  method UpdateClientsAuth(clients: seq<Client>, record: AuthRecord)
    requires forall i, j :: 0 <= i < j < |clients| ==> clients[i] != clients[j]
    modifies clients
    ensures forall i :: 0 <= i < |clients| ==> clients[i].View() == RecordUpdated(old(clients[i].View()), record)
  {
    for i := 0 to |clients|
      invariant forall j :: 0 <= j < |clients| ==>
        clients[j].View() == if j < i then RecordUpdated(old(clients[j].View()), record) else old(clients[j].View())
    {
      var auth := clients[i].View().CurrentAuth();
      if auth.Some? && auth.value.id == record.id && auth.value.collectionName == record.collectionName {
        if auth.value.tokenKey != record.tokenKey {
          clients[i].Unset(AUTH_KEY);
        } else {
          clients[i].Set(AUTH_KEY, Auth(Some(record)));
        }
      }
    }
  }

  method UnsetClientsAuthByIdentity(clients: seq<Client>, collectionName: string, recordId: string)
    requires forall i, j :: 0 <= i < j < |clients| ==> clients[i] != clients[j]
    modifies clients
    ensures forall i :: 0 <= i < |clients| ==>
      clients[i].View() == RecordDeleted(old(clients[i].View()), collectionName, recordId)
  {
    for i := 0 to |clients|
      invariant forall j :: 0 <= j < |clients| ==>
        clients[j].View() == if j < i then RecordDeleted(old(clients[j].View()), collectionName, recordId)
          else old(clients[j].View())
    {
      var auth := clients[i].View().CurrentAuth();
      if auth.Some? && auth.value.id == recordId && auth.value.collectionName == collectionName {
        clients[i].Unset(AUTH_KEY);
      }
    }
  }

  method UnsetClientsAuthByCollection(clients: seq<Client>, collectionName: string)
    requires forall i, j :: 0 <= i < j < |clients| ==> clients[i] != clients[j]
    modifies clients
    ensures forall i :: 0 <= i < |clients| ==>
      clients[i].View() == CollectionReset(old(clients[i].View()), collectionName)
  {
    for i := 0 to |clients|
      invariant forall j :: 0 <= j < |clients| ==>
        clients[j].View() == if j < i then CollectionReset(old(clients[j].View()), collectionName)
          else old(clients[j].View())
    {
      var auth := clients[i].View().CurrentAuth();
      if auth.Some? && auth.value.collectionName == collectionName {
        clients[i].Unset(AUTH_KEY);
      }
    }
  }

  // ---------------------------------------------------------------- runs of one client

  /** One client together with the subscribe requests whose hooks are still awaited. A request whose
      hooks do not suspend is the single step `Resubscribe`; otherwise `Begin` makes the checks and
      `Finish` runs the handler, or `Refuse` when a hook ends the request. */
  datatype State = State(client: ClientState, awaiting: seq<Request>)

  datatype Step =
    | Resubscribe(req: Request, hooked: Hooked)
    | Begin(req: Request)
    | Finish(k: nat, topics: seq<string>)
    | Refuse(k: nat)
    | UpdateRecord(record: AuthRecord)
    | DeleteRecord(collectionName: string, recordId: string)
    | ResetCollection(collectionName: string)

  function Next(s: State, step: Step): State {
    match step
    case Resubscribe(req, hooked) =>
      if Reaches(s.client, req, hooked) then s.(client := Accept(s.client, req, hooked.topics)) else s
    case Begin(req) => if Check(s.client, req).Some? then s else s.(awaiting := s.awaiting + [req])
    case Finish(k, topics) =>
      if k >= |s.awaiting| then s
      else State(Accept(s.client, s.awaiting[k], topics), s.awaiting[..k] + s.awaiting[k+1..])
    case Refuse(k) =>
      if k >= |s.awaiting| then s else s.(awaiting := s.awaiting[..k] + s.awaiting[k+1..])
    case UpdateRecord(record) => s.(client := RecordUpdated(s.client, record))
    case DeleteRecord(name, id) => s.(client := RecordDeleted(s.client, name, id))
    case ResetCollection(name) => s.(client := CollectionReset(s.client, name))
  }

  function Run(s: State, steps: seq<Step>): State {
    if steps == [] then s else Next(Run(s, steps[..|steps|-1]), steps[|steps|-1])
  }

  function Start(id: string, ip: string): State {
    State(ClientState(id, [], map[IP_KEY := IP(ip)], [], false), [])
  }

  function AuthOf(s: State): Option<AuthRecord> { s.client.CurrentAuth() }

  /** The identity changes from one record directly to another. */
  predicate Switches(s: State, step: Step) {
    var a, b := AuthOf(s), AuthOf(Next(s, step));
    a.Some? && b.Some? && !SameAuth(a, b)
  }

  /** The record `r` reads as the client's identity by name and id, but belongs to another collection. */
  predicate Impostor(auth: AuthRecord, r: AuthRecord) {
    Refers(auth, r.collectionName, r.id) && auth.tokenKey == r.tokenKey && auth.collectionId != r.collectionId
  }

  predicate MaySwitch(s: State, step: Step) {
    && AuthOf(s).Some?
    && match step
       case Finish(k, _) => k < |s.awaiting| && s.awaiting[k].auth.Some? && !SameAuth(AuthOf(s), s.awaiting[k].auth)
       case UpdateRecord(r) => Impostor(AuthOf(s).value, r)
       case _ => false
  }

  /** A step switches the identity exactly when a request that was checked earlier is finished after the
      client got another identity, or when a record of another collection with the same collection
      name, id and token key is updated. */
  lemma {:induction false} SwitchesExactlyWhen(s: State, step: Step)
    ensures Switches(s, step) <==> MaySwitch(s, step)
  {
  }

  predicate HooksDoNotSuspend(steps: seq<Step>) {
    forall i :: 0 <= i < |steps| ==> !steps[i].Begin?
  }

  /** The auth records a step brings in. */
  function Records(step: Step): set<AuthRecord> {
    match step
    case Resubscribe(req, _) => if req.auth.Some? then {req.auth.value} else {}
    case UpdateRecord(r) => {r}
    case _ => {}
  }

  ghost predicate Agree(a: AuthRecord, b: AuthRecord) {
    a.collectionName == b.collectionName ==> a.collectionId == b.collectionId
  }

  ghost predicate NamesDetermineCollections(steps: seq<Step>) {
    forall i, j, a, b :: 0 <= i < |steps| && 0 <= j < |steps| && a in Records(steps[i]) && b in Records(steps[j]) ==>
      Agree(a, b)
  }

  lemma {:induction false} AuthComesFromSomeStep(id: string, ip: string, steps: seq<Step>)
    requires HooksDoNotSuspend(steps)
    ensures var s := Run(Start(id, ip), steps);
      && s.awaiting == []
      && (AuthOf(s).Some? ==> exists i :: 0 <= i < |steps| && AuthOf(s).value in Records(steps[i]))
  {
    if steps == [] {
    } else {
      var before, last := steps[..|steps|-1], steps[|steps|-1];
      AuthComesFromSomeStep(id, ip, before);
      var s, t := Run(Start(id, ip), before), Run(Start(id, ip), steps);
      if AuthOf(t).Some? {
        if AuthOf(t) == AuthOf(s) {
          var i :| 0 <= i < |before| && AuthOf(s).value in Records(before[i]);
          assert steps[i] == before[i];
        } else {
          assert AuthOf(t).value in Records(last);
        }
      }
    }
  }

  /** Over every run of subscribe requests, record updates, deletes and collection resets in which hooks
      do not suspend and a collection name stands for one collection, no step takes the client from one
      identity directly to another. */
  lemma {:induction false} IdentityNeverSwitches(id: string, ip: string, steps: seq<Step>, step: Step)
    requires HooksDoNotSuspend(steps + [step]) && NamesDetermineCollections(steps + [step])
    ensures !Switches(Run(Start(id, ip), steps), step)
  {
    var s, all := Run(Start(id, ip), steps), steps + [step];
    assert forall i :: 0 <= i < |steps| ==> all[i] == steps[i];
    assert all[|steps|] == step;
    AuthComesFromSomeStep(id, ip, steps);
    SwitchesExactlyWhen(s, step);
    if AuthOf(s).Some? && step.UpdateRecord? {
      var i :| 0 <= i < |steps| && AuthOf(s).value in Records(steps[i]);
      assert AuthOf(s).value in Records(all[i]) && step.record in Records(all[|steps|]);
      assert Agree(AuthOf(s).value, step.record);
    }
  }

  const X := AuthRecord("x", "c", "users", "k")
  const Y := AuthRecord("y", "c", "users", "k")

  lemma RunTwo(s: State, a: Step, b: Step)
    ensures Run(s, [a, b]) == Next(Next(s, a), b)
  {
    hide Next;
    assert [a, b][..1] == [a] && [a][..0] == [];
    assert Run(s, [a]) == Next(s, a);
  }

  /** Without the first condition the property fails: two requests checked while the client is a guest, and
      finished one after the other. */
  lemma {:induction false} SuspendedHooksCanSwitch()
    ensures var a, b := Request("1", Some(X), []), Request("1", Some(Y), []);
      var s := Next(Run(Start("id", "1"), [Begin(a), Begin(b)]), Finish(0, []));
      AuthOf(s) == Some(X) && Switches(s, Finish(0, [])) && AuthOf(Next(s, Finish(0, []))) == Some(Y)
  {
    hide Next, Run, Start;
    var a, b := Request("1", Some(X), []), Request("1", Some(Y), []);
    RunTwo(Start("id", "1"), Begin(a), Begin(b));
    BothAwaited(a, b);
    FirstFinished(Next(Next(Start("id", "1"), Begin(a)), Begin(b)), a, b);
  }

  lemma BothAwaited(a: Request, b: Request)
    requires a.ip == b.ip == "1"
    ensures Next(Next(Start("id", "1"), Begin(a)), Begin(b)) == State(Start("id", "1").client, [a, b])
  {
    var s := Next(Start("id", "1"), Begin(a));
    assert s == State(Start("id", "1").client, [a]);
  }

  lemma FirstFinished(s: State, a: Request, b: Request)
    requires s.awaiting == [a, b] && a.auth.Some? && b.auth.Some?
    ensures var t := Next(s, Finish(0, [])); AuthOf(t) == a.auth && AuthOf(Next(t, Finish(0, []))) == b.auth
  {
    var t := Next(s, Finish(0, []));
    assert t.awaiting == [b];
  }

  /** Nor without the second: the update of a record that has the client's collection name, record id and
      token key, but belongs to another collection. */
  lemma {:induction false} SharedNamesCanSwitch()
    ensures var other := AuthRecord("x", "d", "users", "k");
      var s := Next(Start("id", "1"), Resubscribe(Request("1", Some(X), []), Handled([], true)));
      AuthOf(s) == Some(X) && Switches(s, UpdateRecord(other)) && AuthOf(Next(s, UpdateRecord(other))) == Some(other)
  {
  }

  // ---------------------------------------------------------------- how an identity is lost

  /** The events that take the identity `auth` away. */
  predicate Revokes(step: Step, auth: AuthRecord) {
    match step
    case UpdateRecord(r) => Refers(auth, r.collectionName, r.id) && auth.tokenKey != r.tokenKey
    case DeleteRecord(name, id) => Refers(auth, name, id)
    case ResetCollection(name) => auth.collectionName == name
    case _ => false
  }

  /** A guest's request that was checked before the client got its identity. */
  predicate FinishesAsGuest(s: State, step: Step) {
    step.Finish? && step.k < |s.awaiting| && s.awaiting[step.k].auth.None?
  }

  predicate Loses(s: State, step: Step) {
    AuthOf(s).Some? && (Revokes(step, AuthOf(s).value) || FinishesAsGuest(s, step))
  }

  /** In every state, an identity is lost exactly by a changed token key, the delete of its record, an event
      of its collection, or the finish of a guest's request whose hooks were awaited. */
  lemma {:induction false} LosesExactlyWhen(s: State, step: Step)
    requires AuthOf(s).Some?
    ensures AuthOf(Next(s, step)).None? <==> Loses(s, step)
  {
  }

  /** A run that loses an identity without a revocation. */
  lemma {:induction false} SuspendedHooksCanLose()
    ensures var guest := Request("1", None, []);
      var s := Run(Start("id", "1"), [Begin(guest), Resubscribe(Request("1", Some(X), []), Handled([], true))]);
      AuthOf(s) == Some(X) && AuthOf(Next(s, Finish(0, []))).None?
  {
    var guest := Request("1", None, []);
    RunTwo(Start("id", "1"), Begin(guest), Resubscribe(Request("1", Some(X), []), Handled([], true)));
    assert Next(Start("id", "1"), Begin(guest)).awaiting == [guest];
  }

  predicate SameAs(s: State, t: State) { AuthOf(t).Some? && SameAuth(AuthOf(s), AuthOf(t)) }

  ghost predicate IdentityKept(s: State, steps: seq<Step>) {
    forall i :: 0 <= i <= |steps| ==> SameAs(s, Run(s, steps[..i]))
  }

  ghost predicate NothingTakesIdentity(s: State, steps: seq<Step>) {
    forall i :: 0 <= i < |steps| ==> !Loses(Run(s, steps[..i]), steps[i]) && !MaySwitch(Run(s, steps[..i]), steps[i])
  }

  /** Over every run of subscribe requests, suspended or not, record updates, deletes and collection events,
      an authenticated client keeps its identity throughout if and only if no step loses it and no step
      switches it. */
  lemma {:induction false} IdentityKeptExactlyWhile(s: State, steps: seq<Step>)
    requires AuthOf(s).Some?
    ensures IdentityKept(s, steps) <==> NothingTakesIdentity(s, steps)
    decreases |steps|
  {
    hide Next, Loses, MaySwitch, SameAuth, IdentityKept, NothingTakesIdentity;
    if steps == [] {
      KeptAtStart(s);
    } else {
      var init, last := steps[..|steps|-1], steps[|steps|-1];
      IdentityKeptExactlyWhile(s, init);
      LastStep(s, steps);
      if IdentityKept(s, init) {
        var t := Run(s, init);
        KeptAtEnd(s, init);
        LosesExactlyWhen(t, last);
        SwitchesExactlyWhen(t, last);
        SameAuthSteps(AuthOf(s), AuthOf(t), AuthOf(Next(t, last)));
      }
    }
  }

  lemma KeptAtStart(s: State)
    requires AuthOf(s).Some?
    ensures IdentityKept(s, []) && NothingTakesIdentity(s, [])
  {
  }

  lemma KeptAtEnd(s: State, steps: seq<Step>)
    requires IdentityKept(s, steps)
    ensures SameAs(s, Run(s, steps))
  {
    hide Run, SameAs;
    assert steps[..|steps|] == steps;
  }

  lemma LastStep(s: State, steps: seq<Step>)
    requires steps != []
    ensures var init, last := steps[..|steps|-1], steps[|steps|-1];
      && Run(s, steps) == Next(Run(s, init), last)
      && (IdentityKept(s, steps) <==> IdentityKept(s, init) && SameAs(s, Run(s, steps)))
      && (NothingTakesIdentity(s, steps) <==>
            NothingTakesIdentity(s, init) && !Loses(Run(s, init), last) && !MaySwitch(Run(s, init), last))
  {
    hide Next, IdentityKept, NothingTakesIdentity;
    LastKept(s, steps);
    LastTaken(s, steps);
  }

  lemma LastKept(s: State, steps: seq<Step>)
    requires steps != []
    ensures IdentityKept(s, steps) <==> IdentityKept(s, steps[..|steps|-1]) && SameAs(s, Run(s, steps))
  {
    hide Run, SameAs;
    var init := steps[..|steps|-1];
    assert forall i :: 0 <= i < |steps| ==> init[..i] == steps[..i];
    assert steps[..|steps|] == steps;
  }

  lemma LastTaken(s: State, steps: seq<Step>)
    requires steps != []
    ensures var init, last := steps[..|steps|-1], steps[|steps|-1];
      NothingTakesIdentity(s, steps) <==>
        NothingTakesIdentity(s, init) && !Loses(Run(s, init), last) && !MaySwitch(Run(s, init), last)
  {
    hide Run, Loses, MaySwitch;
    var init := steps[..|steps|-1];
    assert forall i :: 0 <= i < |steps| ==> init[..i] == steps[..i];
  }

  lemma SameAuthSteps(a: Option<AuthRecord>, b: Option<AuthRecord>, c: Option<AuthRecord>)
    requires a.Some? && b.Some? && SameAuth(a, b)
    ensures c.Some? ==> (SameAuth(b, c) <==> SameAuth(a, c))
  {
  }

  // ---------------------------------------------------------------- what a client is subscribed to

  /** The topics of an accepted request; None for a step that accepts none. */
  function Accepts(s: State, step: Step): Option<seq<string>> {
    match step
    case Resubscribe(req, hooked) => if Reaches(s.client, req, hooked) then Some(hooked.topics) else None
    case Finish(k, topics) => if k < |s.awaiting| then Some(topics) else None
    case _ => None
  }

  function LastAccepted(s: State, steps: seq<Step>): Option<seq<string>> {
    if steps == [] then None else
      var init, last := steps[..|steps|-1], steps[|steps|-1];
      if Accepts(Run(s, init), last).Some? then Accepts(Run(s, init), last) else LastAccepted(s, init)
  }

  /** Over every run, a client is subscribed to exactly the non-empty topics of the last request accepted,
      and to what it was before when none was; nothing else changes its topics. */
  lemma {:induction false} TopicsAreTheLastAccepted(s: State, steps: seq<Step>)
    ensures Run(s, steps).client.subs ==
      if LastAccepted(s, steps).Some? then SubscribedAll([], LastAccepted(s, steps).value) else s.client.subs
  {
    hide SubscribedAll, Check;
    if steps == [] {
    } else {
      TopicsAreTheLastAccepted(s, steps[..|steps|-1]);
    }
  }

  predicate FromElsewhere(step: Step) { step.UpdateRecord? || step.DeleteRecord? || step.ResetCollection? }

  /** The client is authenticated as the record and with the token key of `auth`. */
  predicate StillIs(s: State, auth: AuthRecord) {
    AuthOf(s).Some? && Refers(AuthOf(s).value, auth.collectionName, auth.id)
      && AuthOf(s).value.tokenKey == auth.tokenKey
  }

  /** After an accepted subscribe with identity `a`, and any later updates, deletes and resets, the client
      is still authenticated, as the same record with the same token key, if and only if none of them
      revokes `a`; otherwise it is a guest. */
  lemma {:induction false} SurvivesUntilRevoked(s: State, req: Request, topics: seq<string>, passedOn: bool,
                                                later: seq<Step>)
    requires Check(s.client, req).None? && req.auth.Some?
    requires forall i :: 0 <= i < |later| ==> FromElsewhere(later[i])
    ensures var t := Run(Next(s, Resubscribe(req, Handled(topics, passedOn))), later);
      if forall i :: 0 <= i < |later| ==> !Revokes(later[i], req.auth.value) then StillIs(t, req.auth.value)
        else AuthOf(t).None?
  {
    hide Next, StillIs, Revokes, Check;
    var start := Next(s, Resubscribe(req, Handled(topics, passedOn)));
    if later == [] {
      AcceptedIs(s, req, topics, passedOn);
    } else {
      var before, last := later[..|later|-1], later[|later|-1];
      SurvivesUntilRevoked(s, req, topics, passedOn, before);
      assert forall i :: 0 <= i < |before| ==> later[i] == before[i];
      RevokedExactlyWhen(Run(start, before), last, req.auth.value);
    }
  }

  /** A request rejected by the checks, or by a hook that ends it, changes nothing. One that reaches the handler
      leaves exactly the topics it ended up with, and a guest a guest, through any later updates, deletes and
      resets, even if a hook rejects it afterwards. */
  lemma {:induction false} AcceptedTopicsStay(s: State, req: Request, hooked: Hooked, later: seq<Step>)
    requires forall i :: 0 <= i < |later| ==> FromElsewhere(later[i])
    ensures Outcome(s.client, req, hooked).Some? && Outcome(s.client, req, hooked) != Some(RejectedAfterwards) ==>
      Next(s, Resubscribe(req, hooked)) == s
    ensures Outcome(s.client, req, hooked) in {None, Some(RejectedAfterwards)} ==>
      hooked.Handled? &&
      var t := Run(Next(s, Resubscribe(req, hooked)), later);
      && (forall topic :: topic in t.client.subs <==> topic in hooked.topics && topic != "")
      && (req.auth.None? ==> AuthOf(t).None?)
  {
    if later == [] || !Reaches(s.client, req, hooked) {
    } else {
      var before, last := later[..|later|-1], later[|later|-1];
      AcceptedTopicsStay(s, req, hooked, before);
      assert FromElsewhere(last);
      hide Check;
    }
  }

  // ---------------------------------------------------------------- who is admitted

  /** No step changes the address that a client connected from. */
  lemma {:induction false} AddressStays(id: string, ip: string, steps: seq<Step>)
    ensures var store := Run(Start(id, ip), steps).client.store; IP_KEY in store && store[IP_KEY] == IP(ip)
  {
    assert AUTH_KEY[0] == 'a' && IP_KEY[0] == 'p';
    if steps == [] {
    } else {
      AddressStays(id, ip, steps[..|steps|-1]);
    }
  }

  /** Whether a request is signed in as this very record. */
  predicate IsSignedInAs(req: Request, record: AuthRecord) {
    req.auth.Some? && req.auth.value.id == record.id && req.auth.value.collectionId == record.collectionId
  }

  /** Over every run: a request from another address than the client's known one is refused and changes
      nothing, and so is, from there, one that is not signed in as the client's record; every other request
      is admitted, and its handler runs unless a hook ends it, which gives the client the identity of the
      request and the topics of the hooks. */
  lemma {:induction false} AdmittedExactlyWhen(id: string, ip: string, steps: seq<Step>, req: Request, hooked: Hooked)
    ensures var s := Run(Start(id, ip), steps);
      var outcome, t, waits := Outcome(s.client, req, hooked), Next(s, Resubscribe(req, hooked)), Next(s, Begin(req));
      if ip != "" && req.ip != ip then outcome == Some(WrongIP) && t == s && waits == s
      else if AuthOf(s).Some? && !IsSignedInAs(req, AuthOf(s).value)
      then outcome == Some(WrongAuth) && t == s && waits == s
      else
        && waits == s.(awaiting := s.awaiting + [req])
        && (hooked.Ended? ==> outcome == Some(EndedByHook) && t == s)
        && (hooked.Handled? ==> (outcome.None? <==> hooked.passedOn) && outcome in {None, Some(RejectedAfterwards)})
        && (hooked.Handled? ==> AuthOf(t) == req.auth && t.awaiting == s.awaiting)
        && (hooked.Handled? ==> forall topic :: topic in t.client.subs <==> topic in hooked.topics && topic != "")
  {
    AddressStays(id, ip, steps);
    hide Run;
  }

  /** A request that a hook rejects after the handler has run is answered as rejected, and has still replaced
      the identity and the topics. */
  lemma {:induction false} RejectedAfterwardsStillChanges()
    ensures var s, req, hooked := Start("id", "1"), Request("1", Some(X), ["t"]), Handled(["t"], false);
      && Outcome(s.client, req, hooked) == Some(RejectedAfterwards)
      && AuthOf(Next(s, Resubscribe(req, hooked))) == Some(X) && Next(s, Resubscribe(req, hooked)).client.subs == ["t"]
  {
    assert ["t"][..0] == [];
  }

  lemma AcceptedIs(s: State, req: Request, topics: seq<string>, passedOn: bool)
    requires Check(s.client, req).None? && req.auth.Some?
    ensures StillIs(Next(s, Resubscribe(req, Handled(topics, passedOn))), req.auth.value)
  {
  }

  lemma RevokedExactlyWhen(s: State, step: Step, auth: AuthRecord)
    requires FromElsewhere(step)
    ensures StillIs(s, auth) ==> if Revokes(step, auth) then AuthOf(Next(s, step)).None?
      else StillIs(Next(s, step), auth)
    ensures AuthOf(s).None? ==> AuthOf(Next(s, step)).None?
  {
  }
}
