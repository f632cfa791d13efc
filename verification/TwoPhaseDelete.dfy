/** The two-phase delivery of deletes to the clients of one worker: a prepare caches every client's
    messages under a key of its event, and the first of commit, abort and the 30 second expiry sends
    or drops them.

    A broadcast runs without an `await`, so it is one atomic step; the callbacks it hands to
    `FireAndForget` run later, first in first out. */
module TwoPhaseDelete {
  import opened Wrappers
  import opened Subscriptions
  import opened RecordBroadcast

  // ---------------------------------------------------------------- the worker over a run

  /** `clients` in registration order; `used` are the ids ever registered (they are random and never
      repeat); `timers` are the events whose 30 second expiry has still to fire. */
  datatype State = State(clients: seq<ClientState>, callbacks: seq<Callback>, timers: set<string>, used: set<string>)

  datatype Step =
    | Register(id: string, ip: string)
    | Unregister(id: string)
    | Subscribe(id: string, topics: seq<string>, auth: Option<AuthRecord>)
    | ClearAuth(id: string)
    | Publish(b: Broadcast)
    | LocalDelete(table: string, pk: string, b: Broadcast)
    | LocalCommit(table: string, pk: string)
    | LocalAbort(table: string, pk: string)
    | Prepare(eventId: string, b: Broadcast)
    | Commit(eventId: string)
    | Abort(eventId: string)
    | Expire(eventId: string)
    | RunCallback

  function ClusterKey(eventId: string): string { "@clusterDelete/" + eventId }
  function LocalKey(table: string, pk: string): string { "delete/" + table + "/" + pk }

  function Init(): State { State([], [], {}, {}) }

  function Without(clients: seq<ClientState>, id: string): seq<ClientState> {
    if clients == [] then [] else
      var rest := Without(clients[..|clients|-1], id);
      if clients[|clients|-1].id == id then rest else rest + [clients[|clients|-1]]
  }

  /** Applies a change to the client with this id, if it is registered. */
  function Change(clients: seq<ClientState>, id: string, f: ClientState -> ClientState): seq<ClientState> {
    seq(|clients|, i requires 0 <= i < |clients| => if clients[i].id == id then f(clients[i]) else clients[i])
  }

  /** The effect of a step on every registered client. */
  function EffectOf(s: State, step: Step): Option<Effect> {
    match step
    case Publish(b) => Some(Live(b))
    case LocalDelete(table, pk, b) => Some(DryCache(LocalKey(table, pk), b))
    case LocalCommit(table, pk) => Some(FlushKey(LocalKey(table, pk)))
    case LocalAbort(table, pk) => Some(DropKey(LocalKey(table, pk)))
    case Prepare(e, b) => Some(DryCache(ClusterKey(e), b))
    case Commit(e) => Some(FlushKey(ClusterKey(e)))
    case Abort(e) => Some(DropKey(ClusterKey(e)))
    case Expire(e) => if e in s.timers then Some(DropKey(ClusterKey(e))) else None
    case _ => None
  }

  function Touch(s: State, e: Option<Effect>): State {
    if e.None? then s
    else s.(clients := AllAfter(s.clients, e.value), callbacks := s.callbacks + AllQueued(s.clients, e.value))
  }

  /** The change of a step that concerns a single client, and the client it concerns. */
  function ChangeOf(s: State, step: Step): Option<(string, ClientState -> ClientState)> {
    match step
    case Subscribe(id, topics, auth) => Some((id, (c: ClientState) => Resubscribed(c, topics, auth)))
    case ClearAuth(id) => Some((id, (c: ClientState) => Unauthenticated(c)))
    case RunCallback =>
      if s.callbacks == [] then None
      else var cb := s.callbacks[0]; Some((cb.clientId, (c: ClientState) => Received(c, cb.messages)))
    case _ => None
  }

  function Next(s: State, step: Step): State {
    match step
    case Register(id, ip) =>
      if id in s.used then s
      else s.(clients := s.clients + [ClientState(id, [], map[IP_KEY := IP(ip)], [], false)], used := s.used + {id})
    case Unregister(id) => s.(clients := Without(s.clients, id))
    case Subscribe(_, _, _) => Single(s, ChangeOf(s, step))
    case ClearAuth(_) => Single(s, ChangeOf(s, step))
    case RunCallback =>
      var t := Single(s, ChangeOf(s, step));
      if s.callbacks == [] then t else t.(callbacks := s.callbacks[1..])
    case Prepare(e, _) => Touch(s, EffectOf(s, step)).(timers := s.timers + {e})
    case Expire(e) => Touch(s, EffectOf(s, step)).(timers := s.timers - {e})
    case _ => Touch(s, EffectOf(s, step))
  }

  function Single(s: State, change: Option<(string, ClientState -> ClientState)>): State {
    if change.None? then s else s.(clients := Change(s.clients, change.value.0, change.value.1))
  }

  function Run(s: State, steps: seq<Step>): State {
    if steps == [] then s else Next(Run(s, steps[..|steps|-1]), steps[|steps|-1])
  }

  // ---------------------------------------------------------------- one client's view of a step

  function Find(clients: seq<ClientState>, id: string): Option<ClientState> {
    if clients == [] then None
    else if clients[|clients|-1].id == id then Some(clients[|clients|-1])
    else Find(clients[..|clients|-1], id)
  }

  function Pending(callbacks: seq<Callback>, id: string): seq<Message> {
    if callbacks == [] then [] else
      Pending(callbacks[..|callbacks|-1], id) +
      (if callbacks[|callbacks|-1].clientId == id then callbacks[|callbacks|-1].messages else [])
  }

  /** All that was ever sent to a client: what its channel got and what queued callbacks will add. */
  function Sent(s: State, id: string): seq<Message> {
    match Find(s.clients, id)
    case None => []
    case Some(c) => c.channel + Pending(s.callbacks, id)
  }

  ghost predicate DistinctIds(clients: seq<ClientState>) {
    forall i, j :: 0 <= i < j < |clients| ==> clients[i].id != clients[j].id
  }

  ghost predicate Inv(s: State) {
    && DistinctIds(s.clients)
    && (forall c :: c in s.clients ==> c.id in s.used && !c.discarded && WellTyped(c))
  }

  /** Only the auth state and the IP are stored as something other than cached messages. */
  ghost predicate WellTyped(c: ClientState) {
    forall key :: key in c.store ==> c.store[key].Cached? || key == AUTH_KEY || key == IP_KEY
  }

  /** The client `c` after a step that does not unregister it. */
  function ClientAfter(s: State, step: Step, c: ClientState): ClientState {
    var e, change := EffectOf(s, step), ChangeOf(s, step);
    if e.Some? then After(c, e.value)
    else if change.Some? && change.value.0 == c.id then change.value.1(c)
    else c
  }

  // ---------------------------------------------------------------- folding the clients

  lemma {:induction false} FindAllAfter(clients: seq<ClientState>, e: Effect, id: string)
    ensures var c := Find(clients, id);
      Find(AllAfter(clients, e), id) == if c.Some? then Some(After(c.value, e)) else None
  {
    if clients == [] {
    } else {
      assert AllAfter(clients, e)[..|clients|-1] == AllAfter(clients[..|clients|-1], e);
      FindAllAfter(clients[..|clients|-1], e, id);
    }
  }

  lemma {:induction false} FindChange(clients: seq<ClientState>, id: string, f: ClientState -> ClientState, at: string)
    requires forall c: ClientState :: f(c).id == c.id
    ensures var c := Find(clients, at);
      Find(Change(clients, id, f), at) == if c.Some? && at == id then Some(f(c.value)) else c
  {
    if clients == [] {
    } else {
      assert Change(clients, id, f)[..|clients|-1] == Change(clients[..|clients|-1], id, f);
      FindChange(clients[..|clients|-1], id, f, at);
    }
  }

  lemma {:induction false} FindWithout(clients: seq<ClientState>, id: string, at: string)
    ensures Find(Without(clients, id), at) == if at == id then None else Find(clients, at)
  {
    if clients == [] {
    } else {
      FindWithout(clients[..|clients|-1], id, at);
      var rest := Without(clients[..|clients|-1], id);
      assert (rest + [clients[|clients|-1]])[..|rest|] == rest;
    }
  }

  lemma {:induction false} FindSome(clients: seq<ClientState>, id: string)
    ensures Find(clients, id).Some? ==> Find(clients, id).value in clients && Find(clients, id).value.id == id
    ensures Find(clients, id).None? ==> forall i :: 0 <= i < |clients| ==> clients[i].id != id
  {
    if clients == [] {
    } else {
      FindSome(clients[..|clients|-1], id);
    }
  }

  lemma {:induction false} PendingConcat(a: seq<Callback>, b: seq<Callback>, id: string)
    ensures Pending(a + b, id) == Pending(a, id) + Pending(b, id)
  {
    if b == [] {
      assert a + b == a;
    } else {
      assert (a + b)[..|a + b|-1] == a + b[..|b|-1];
      PendingConcat(a, b[..|b|-1], id);
    }
  }

  lemma {:induction false} PendingSingles(id: string, messages: seq<Message>, at: string)
    ensures Pending(Singles(id, messages), at) == if at == id then messages else []
  {
    if messages == [] {
      assert Singles(id, messages) == [] && Pending([], at) == [];
    } else {
      var rest, msg := messages[..|messages|-1], messages[|messages|-1];
      assert rest + [msg] == messages;
      hide Singles, Pending;
      PendingSingles(id, rest, at);
      SinglesNext(id, rest, msg);
      PendingNext(Singles(id, rest), Callback(id, [msg]), at);
    }
  }

  lemma PendingNext(callbacks: seq<Callback>, last: Callback, at: string)
    ensures Pending(callbacks + [last], at) ==
      if last.clientId == at then Pending(callbacks, at) + last.messages else Pending(callbacks, at)
  {
    assert (callbacks + [last])[..|callbacks|] == callbacks;
  }

  /** What an effect sends to a client. */
  function Gain(c: ClientState, e: Effect): seq<Message> {
    match e
    case Live(b) => MessagesFor(c, b)
    case FlushKey(key) => if c.CachedAt(key).Some? then c.CachedAt(key).value else []
    case _ => []
  }

  lemma PendingQueued(c: ClientState, e: Effect, id: string)
    ensures Pending(Queued(c, e), id) == if c.id == id then Gain(c, e) else []
  {
    match e
    case Live(b) => PendingSingles(c.id, MessagesFor(c, b), id);
    case FlushKey(key) =>
      if c.CachedAt(key).Some? {
        assert [Callback(c.id, c.CachedAt(key).value)][..0] == [];
      }
    case _ =>
  }

  lemma {:induction false} PendingAllQueued(clients: seq<ClientState>, e: Effect, id: string)
    requires DistinctIds(clients)
    ensures var c := Find(clients, id);
      Pending(AllQueued(clients, e), id) == if c.Some? then Gain(c.value, e) else []
  {
    if clients == [] {
    } else {
      var rest, last := clients[..|clients|-1], clients[|clients|-1];
      PendingAllQueued(rest, e, id);
      PendingConcat(AllQueued(rest, e), Queued(last, e), id);
      PendingQueued(last, e, id);
      FindSome(rest, id);
    }
  }

  lemma {:induction false} KeysDiffer(e: string, e': string, table: string, pk: string)
    ensures ClusterKey(e) == ClusterKey(e') <==> e == e'
    ensures ClusterKey(e) != LocalKey(table, pk)
    ensures ClusterKey(e) != AUTH_KEY && ClusterKey(e) != IP_KEY
    ensures LocalKey(table, pk) != AUTH_KEY && LocalKey(table, pk) != IP_KEY
  {
    assert ClusterKey(e)[15..] == e && ClusterKey(e')[15..] == e';
    assert ClusterKey(e)[0] == '@' && LocalKey(table, pk)[0] == 'd' && AUTH_KEY[0] == 'a' && IP_KEY[0] == 'p';
  }

  // ---------------------------------------------------------------- every step, seen by one client

  /** A step changes the registered clients one by one, and registers at most one more. */
  lemma NextPointwise(s: State, step: Step)
    requires !step.Unregister?
    ensures var t := Next(s, step);
      && |s.clients| <= |t.clients| <= |s.clients| + 1
      && (forall i :: 0 <= i < |s.clients| ==> t.clients[i] == ClientAfter(s, step, s.clients[i]))
      && s.used <= t.used
      && (|s.clients| < |t.clients| ==>
            && step.Register? && step.id !in s.used && step.id in t.used
            && t.clients[|s.clients|] == ClientState(step.id, [], map[IP_KEY := IP(step.ip)], [], false))
  {
  }

  lemma NextKeepsInv(s: State, step: Step)
    requires Inv(s)
    ensures Inv(Next(s, step))
  {
    if step.Unregister? {
      WithoutKeepsDistinct(s.clients, step.id);
    } else {
      NextPointwise(s, step);
      forall c | c in s.clients
        ensures WellTyped(ClientAfter(s, step, c)) && ClientAfter(s, step, c).id == c.id
          && !ClientAfter(s, step, c).discarded
      {
        StaysWellTyped(s, step, c);
      }
      hide Next, ClientAfter;
      assert forall i :: 0 <= i < |s.clients| ==> s.clients[i] in s.clients;
    }
  }

  lemma StaysWellTyped(s: State, step: Step, c: ClientState)
    requires WellTyped(c)
    ensures WellTyped(ClientAfter(s, step, c))
    ensures ClientAfter(s, step, c).id == c.id && ClientAfter(s, step, c).discarded == c.discarded
  {
  }

  lemma {:induction false} WithoutKeepsDistinct(clients: seq<ClientState>, id: string)
    requires DistinctIds(clients)
    ensures DistinctIds(Without(clients, id))
    ensures forall c :: c in Without(clients, id) ==> c in clients
  {
    if clients == [] {
    } else {
      var rest, last := clients[..|clients|-1], clients[|clients|-1];
      WithoutKeepsDistinct(rest, id);
      assert forall c :: c in Without(rest, id) ==> c in rest && c.id != last.id;
    }
  }

  lemma {:induction false} RunKeepsInv(s: State, steps: seq<Step>)
    requires Inv(s)
    ensures Inv(Run(s, steps))
  {
    if steps == [] {
    } else {
      RunKeepsInv(s, steps[..|steps|-1]);
      NextKeepsInv(Run(s, steps[..|steps|-1]), steps[|steps|-1]);
    }
  }

  /** The messages of a client that the effect of a step sends. */
  function StepGain(s: State, step: Step, c: ClientState): seq<Message> {
    var e := EffectOf(s, step);
    if e.Some? then Gain(c, e.value) else []
  }

  lemma TouchSends(s: State, e: Option<Effect>, id: string)
    requires Inv(s) && Find(s.clients, id).Some?
    ensures var c := Find(s.clients, id).value;
      && Find(Touch(s, e).clients, id) == Some(if e.Some? then After(c, e.value) else c)
      && Sent(Touch(s, e), id) == Sent(s, id) + if e.Some? then Gain(c, e.value) else []
  {
    hide Find, After, Gain, Pending, AllAfter, AllQueued;
    if e.Some? {
      var c := Find(s.clients, id).value;
      FindAllAfter(s.clients, e.value, id);
      PendingAllQueued(s.clients, e.value, id);
      PendingConcat(s.callbacks, AllQueued(s.clients, e.value), id);
      AfterKeepsChannel(c, e.value);
      assert c.channel + (Pending(s.callbacks, id) + Gain(c, e.value)) ==
        c.channel + Pending(s.callbacks, id) + Gain(c, e.value);
    } else {
      assert Sent(s, id) + [] == Sent(s, id);
    }
  }

  lemma AfterKeepsChannel(c: ClientState, e: Effect)
    ensures After(c, e).channel == c.channel
  {
  }

  /** A callback moves messages from the queue to the channel and sends nothing new. */
  lemma CallbackSends(s: State, id: string)
    requires Inv(s) && Find(s.clients, id).Some?
    ensures var t := Next(s, RunCallback);
      && Find(t.clients, id).Some?
      && Find(t.clients, id).value.store == Find(s.clients, id).value.store
      && Sent(t, id) == Sent(s, id)
  {
    hide Find, Pending, Change;
    if s.callbacks != [] {
      var cb, c := s.callbacks[0], Find(s.clients, id).value;
      FindSome(s.clients, id);
      FindChange(s.clients, cb.clientId, (c: ClientState) => Received(c, cb.messages), id);
      PendingFirst(s.callbacks, id);
      ReceivedAppends(c, cb.messages);
      if cb.clientId == id {
        assert c.channel + (cb.messages + Pending(s.callbacks[1..], id)) ==
          c.channel + cb.messages + Pending(s.callbacks[1..], id);
      } else {
        assert [] + Pending(s.callbacks[1..], id) == Pending(s.callbacks[1..], id);
      }
    }
  }

  lemma PendingFirst(callbacks: seq<Callback>, id: string)
    requires callbacks != []
    ensures Pending(callbacks, id) ==
      (if callbacks[0].clientId == id then callbacks[0].messages else []) + Pending(callbacks[1..], id)
  {
    assert [callbacks[0]] + callbacks[1..] == callbacks;
    PendingConcat([callbacks[0]], callbacks[1..], id);
    assert [callbacks[0]][..0] == [];
  }

  lemma ReceivedAppends(c: ClientState, messages: seq<Message>)
    requires !c.discarded
    ensures Received(c, messages) == c.(channel := c.channel + messages)
  {
  }

  lemma {:induction false} FindIs(clients: seq<ClientState>, c: ClientState)
    requires DistinctIds(clients) && c in clients
    ensures Find(clients, c.id) == Some(c)
  {
    if clients[|clients|-1] != c {
      assert c in clients[..|clients|-1];
      FindIs(clients[..|clients|-1], c);
    }
  }

  /** A registered client after a step that does not unregister it. */
  lemma FindNext(s: State, step: Step, id: string)
    requires Inv(s) && Find(s.clients, id).Some? && step != Unregister(id)
    ensures Find(Next(s, step).clients, id) == Some(ClientAfter(s, step, Find(s.clients, id).value))
  {
    FindSome(s.clients, id);
    if step.Unregister? {
      FindWithout(s.clients, step.id, id);
    } else {
      var c := Find(s.clients, id).value;
      NextPointwise(s, step);
      NextKeepsInv(s, step);
      StaysWellTyped(s, step, c);
      FindIs(Next(s, step).clients, ClientAfter(s, step, c));
    }
  }

  /** A step sends a registered client exactly its gain, and leaves it registered. */
  lemma {:induction false} StepSends(s: State, step: Step, id: string)
    requires Inv(s) && Find(s.clients, id).Some? && step != Unregister(id)
    ensures Find(Next(s, step).clients, id).Some?
    ensures Sent(Next(s, step), id) == Sent(s, id) + StepGain(s, step, Find(s.clients, id).value)
  {
    hide Find, Pending, Touch, Sent, Inv, ClientAfter, Without;
    FindNext(s, step, id);
    match step
    case RunCallback => CallbackSends(s, id); NothingGained(s, id);
    case Publish(_) => TouchSends(s, EffectOf(s, step), id);
    case LocalDelete(_, _, _) => TouchSends(s, EffectOf(s, step), id);
    case LocalCommit(_, _) => TouchSends(s, EffectOf(s, step), id);
    case LocalAbort(_, _) => TouchSends(s, EffectOf(s, step), id);
    case Prepare(_, _) => TouchSends(s, EffectOf(s, step), id); TimersUnsent(s, step, id);
    case Commit(_) => TouchSends(s, EffectOf(s, step), id);
    case Abort(_) => TouchSends(s, EffectOf(s, step), id);
    case Expire(_) => TouchSends(s, EffectOf(s, step), id); TimersUnsent(s, step, id);
    case _ => SilentStep(s, step, id); NothingGained(s, id);
  }

  lemma NothingGained(s: State, id: string)
    ensures Sent(s, id) + [] == Sent(s, id)
  {
  }

  lemma TimersUnsent(s: State, step: Step, id: string)
    requires step.Prepare? || step.Expire?
    ensures Sent(Next(s, step), id) == Sent(Touch(s, EffectOf(s, step)), id)
  {
    hide Touch, Find, Pending;
  }

  /** Registering, unregistering another client, subscribing and clearing the identity send nothing. */
  lemma SilentStep(s: State, step: Step, id: string)
    requires Inv(s) && Find(s.clients, id).Some? && step != Unregister(id)
    requires step.Register? || step.Unregister? || step.Subscribe? || step.ClearAuth?
    ensures Sent(Next(s, step), id) == Sent(s, id)
  {
    hide Find, Pending, Inv, Without, Change, SubscribedAll;
    FindNext(s, step, id);
  }

  // ---------------------------------------------------------------- the cache of one event

  /** A delete that another worker prepares under an event id, or one that this worker performs. */
  datatype Delete = Remote(eventId: string) | Local(table: string, pk: string)

  /** The key that its messages are cached under. */
  function KeyOf(d: Delete): string {
    match d
    case Remote(e) => ClusterKey(e)
    case Local(table, pk) => LocalKey(table, pk)
  }

  predicate Prepares(step: Step, d: Delete) {
    match d
    case Remote(e) => step.Prepare? && step.eventId == e
    case Local(table, pk) => step.LocalDelete? && LocalKey(step.table, step.pk) == LocalKey(table, pk)
  }

  predicate Commits(step: Step, d: Delete) {
    match d
    case Remote(e) => step == Commit(e)
    case Local(table, pk) => step.LocalCommit? && LocalKey(step.table, step.pk) == LocalKey(table, pk)
  }

  predicate GivesUp(step: Step, d: Delete) {
    match d
    case Remote(e) => step == Abort(e) || step == Expire(e)
    case Local(table, pk) => step.LocalAbort? && LocalKey(step.table, step.pk) == LocalKey(table, pk)
  }

  predicate Resolves(step: Step, d: Delete) { Commits(step, d) || GivesUp(step, d) }

  /** The first commit, abort or expiry of a delete in a run. */
  function FirstResolution(steps: seq<Step>, d: Delete): Option<Step> {
    if steps == [] then None
    else if FirstResolution(steps[..|steps|-1], d).Some? then FirstResolution(steps[..|steps|-1], d)
    else if Resolves(steps[|steps|-1], d) then Some(steps[|steps|-1])
    else None
  }

  /** The last step about the delete prepared it. */
  predicate Open(steps: seq<Step>, d: Delete) {
    && steps != []
    && (Prepares(steps[|steps|-1], d) || (!Resolves(steps[|steps|-1], d) && Open(steps[..|steps|-1], d)))
  }

  /** What a step sends to a client. */
  function SentBy(s: State, step: Step, id: string): seq<Message> {
    if Sent(s, id) <= Sent(Next(s, step), id) then Sent(Next(s, step), id)[|Sent(s, id)|..] else []
  }

  /** What the resolutions of a delete send to a client over a run. */
  function SentFor(s: State, steps: seq<Step>, d: Delete, id: string): seq<Message> {
    if steps == [] then [] else
      SentFor(s, steps[..|steps|-1], d, id) +
      (if Resolves(steps[|steps|-1], d) then SentBy(Run(s, steps[..|steps|-1]), steps[|steps|-1], id) else [])
  }

  ghost predicate NowhereCached(s: State, d: Delete) {
    forall c :: c in s.clients ==> KeyOf(d) !in c.store
  }

  /** The expiry of a prepared delete has still to fire. */
  predicate Armed(s: State, d: Delete) { d.Remote? ==> d.eventId in s.timers }

  lemma KeyIsNoClientData(d: Delete)
    ensures KeyOf(d) != AUTH_KEY && KeyOf(d) != IP_KEY
  {
    match d
    case Remote(e) => KeysDiffer(e, e, "", "");
    case Local(table, pk) => KeysDiffer("", "", table, pk);
  }

  /** A step that neither prepares nor resolves a delete leaves its cache on every client alone. */
  lemma SparesCache(s: State, step: Step, d: Delete, c: ClientState)
    requires !Prepares(step, d) && !Resolves(step, d)
    ensures KeyOf(d) in ClientAfter(s, step, c).store <==> KeyOf(d) in c.store
    ensures KeyOf(d) in c.store ==> ClientAfter(s, step, c).store[KeyOf(d)] == c.store[KeyOf(d)]
  {
    hide KeyOf, ClusterKey, LocalKey, After;
    var effect, change := EffectOf(s, step), ChangeOf(s, step);
    if effect.Some? {
      EffectKeyDiffers(s, step, d);
      AfterSpares(c, effect.value, KeyOf(d));
    } else if change.Some? && change.value.0 == c.id {
      KeyIsNoClientData(d);
      ChangeSpares(s, step, c, KeyOf(d));
    }
  }

  /** The key an effect is about; a live broadcast has none. */
  predicate IsAbout(effect: Effect, key: string) { !effect.Live? && effect.key == key }

  lemma EffectKeyDiffers(s: State, step: Step, d: Delete)
    requires !Prepares(step, d) && !Resolves(step, d) && EffectOf(s, step).Some?
    ensures !IsAbout(EffectOf(s, step).value, KeyOf(d))
  {
    hide ClusterKey, LocalKey;
    var e := if d.Remote? then d.eventId else "";
    var table, pk := if d.Local? then d.table else "", if d.Local? then d.pk else "";
    match step
    case LocalDelete(t, p, _) => KeysDiffer(e, e, t, p);
    case LocalCommit(t, p) => KeysDiffer(e, e, t, p);
    case LocalAbort(t, p) => KeysDiffer(e, e, t, p);
    case Prepare(e', _) => KeysDiffer(e', e, table, pk);
    case Commit(e') => KeysDiffer(e', e, table, pk);
    case Abort(e') => KeysDiffer(e', e, table, pk);
    case Expire(e') => KeysDiffer(e', e, table, pk);
    case _ =>
  }

  lemma AfterSpares(c: ClientState, effect: Effect, key: string)
    requires !IsAbout(effect, key)
    ensures key in After(c, effect).store <==> key in c.store
    ensures key in c.store ==> After(c, effect).store[key] == c.store[key]
  {
    hide MessagesFor;
  }

  lemma ChangeSpares(s: State, step: Step, c: ClientState, key: string)
    requires ChangeOf(s, step).Some? && key != AUTH_KEY
    ensures var after := ChangeOf(s, step).value.1(c);
      && (key in after.store <==> key in c.store)
      && (key in c.store ==> after.store[key] == c.store[key])
  {
  }

  /** A resolution clears the cache of its delete. */
  lemma ResolutionClears(s: State, step: Step, d: Delete, c: ClientState)
    requires WellTyped(c) && Resolves(step, d) && (Armed(s, d) || KeyOf(d) !in c.store)
    ensures KeyOf(d) !in ClientAfter(s, step, c).store
  {
    KeyIsNoClientData(d);
    hide ClusterKey, LocalKey;
  }

  lemma StaysNowhereCached(s: State, step: Step, d: Delete)
    requires Inv(s) && NowhereCached(s, d) && !Prepares(step, d)
    ensures NowhereCached(Next(s, step), d)
  {
    hide KeyOf;
    if step.Unregister? {
      WithoutKeepsDistinct(s.clients, step.id);
    } else {
      NextPointwise(s, step);
      KeyIsNoClientData(d);
      forall c | c in s.clients ensures KeyOf(d) !in ClientAfter(s, step, c).store {
        if Resolves(step, d) { ResolutionClears(s, step, d, c); } else { SparesCache(s, step, d, c); }
      }
      hide Next, ClientAfter;
      assert forall i :: 0 <= i < |s.clients| ==> s.clients[i] in s.clients;
    }
  }

  lemma BecomesNowhereCached(s: State, step: Step, d: Delete)
    requires Inv(s) && Resolves(step, d) && Armed(s, d)
    ensures NowhereCached(Next(s, step), d)
  {
    hide KeyOf;
    NextPointwise(s, step);
    forall c | c in s.clients ensures KeyOf(d) !in ClientAfter(s, step, c).store {
      ResolutionClears(s, step, d, c);
    }
    hide Next, ClientAfter;
    assert forall i :: 0 <= i < |s.clients| ==> s.clients[i] in s.clients;
  }

  // ---------------------------------------------------------------- the protocol over every run

  /** Between a resolution and the next prepare nothing is cached, and after a prepare the expiry is to come. */
  lemma {:induction false} CachedOnlyWhileOpen(steps: seq<Step>, d: Delete)
    ensures !Open(steps, d) ==> NowhereCached(Run(Init(), steps), d)
    ensures Open(steps, d) ==> Armed(Run(Init(), steps), d)
  {
    hide Next, NowhereCached, Armed, Resolves, Prepares;
    if steps == [] {
      NothingYetCached(d);
    } else {
      var before, last := steps[..|steps|-1], steps[|steps|-1];
      var s := Run(Init(), before);
      CachedOnlyWhileOpen(before, d);
      InitHolds();
      RunKeepsInv(Init(), before);
      if Prepares(last, d) {
        PrepareArms(s, last, d);
      } else if Open(before, d) {
        if Resolves(last, d) { BecomesNowhereCached(s, last, d); } else { TimerStays(s, last, d); }
      } else {
        StaysNowhereCached(s, last, d);
      }
    }
  }

  lemma NothingYetCached(d: Delete)
    ensures NowhereCached(Init(), d)
  {
  }

  lemma PrepareArms(s: State, step: Step, d: Delete)
    requires Prepares(step, d)
    ensures Armed(Next(s, step), d)
  {
  }

  /** The state of the protocol of a delete for one client: what it still has cached of `messages`, and what
      it has been sent of them. */
  ghost predicate Protocol(s: State, d: Delete, id: string, messages: seq<Message>, first: Option<Step>,
                           sent: seq<Message>) {
    && Inv(s) && Find(s.clients, id).Some?
    && (first.None? ==>
      && Armed(s, d) && sent == []
      && Find(s.clients, id).value.CachedAt(KeyOf(d)) == (if messages == [] then None else Some(messages)))
    && (first.Some? ==>
      && NowhereCached(s, d)
      && sent == if Commits(first.value, d) then messages else [])
  }

  lemma SentByIsGain(s: State, step: Step, id: string)
    requires Inv(s) && Find(s.clients, id).Some? && step != Unregister(id)
    ensures Find(Next(s, step).clients, id).Some?
    ensures SentBy(s, step, id) == StepGain(s, step, Find(s.clients, id).value)
  {
    StepSends(s, step, id);
  }

  lemma ProtocolResolves(s: State, step: Step, d: Delete, id: string, messages: seq<Message>)
    requires Protocol(s, d, id, messages, None, []) && Resolves(step, d)
    ensures Protocol(Next(s, step), d, id, messages, Some(step), SentBy(s, step, id))
  {
    hide Next, Find, Sent, SentBy, StepGain, ClientAfter, Inv, KeyOf, Armed, Commits, GivesUp;
    ResolvesNotUnregister(step, d, id);
    FindSome(s.clients, id);
    NextKeepsInv(s, step);
    SentByIsGain(s, step, id);
    ResolutionGain(s, step, d, Find(s.clients, id).value);
    BecomesNowhereCached(s, step, d);
  }

  lemma ResolvesNotUnregister(step: Step, d: Delete, id: string)
    requires Resolves(step, d)
    ensures step != Unregister(id)
  {
  }

  lemma ResolutionGain(s: State, step: Step, d: Delete, c: ClientState)
    requires Resolves(step, d) && Armed(s, d)
    ensures var cached := c.CachedAt(KeyOf(d));
      StepGain(s, step, c) == if Commits(step, d) && cached.Some? then cached.value else []
  {
    hide ClusterKey, LocalKey;
  }

  lemma ProtocolWaits(s: State, step: Step, d: Delete, id: string, messages: seq<Message>)
    requires Protocol(s, d, id, messages, None, [])
    requires step != Unregister(id) && !Prepares(step, d) && !Resolves(step, d)
    ensures Protocol(Next(s, step), d, id, messages, None, [])
  {
    hide Next, Find, ClientAfter, Inv, KeyOf, Armed, Resolves, Prepares;
    FindSome(s.clients, id);
    NextKeepsInv(s, step);
    FindNext(s, step, id);
    SparesCache(s, step, d, Find(s.clients, id).value);
    TimerStays(s, step, d);
  }

  lemma TimerStays(s: State, step: Step, d: Delete)
    requires Armed(s, d) && !Resolves(step, d)
    ensures Armed(Next(s, step), d)
  {
  }

  lemma ProtocolIsOver(s: State, step: Step, d: Delete, id: string, messages: seq<Message>, first: Step,
                       sent: seq<Message>)
    requires Protocol(s, d, id, messages, Some(first), sent)
    requires step != Unregister(id) && !Prepares(step, d)
    ensures Protocol(Next(s, step), d, id, messages, Some(first),
      sent + if Resolves(step, d) then SentBy(s, step, id) else [])
  {
    hide Next, Find, Sent, StepGain, ClientAfter, Inv, KeyOf, Resolves, Prepares, Commits;
    NextKeepsInv(s, step);
    FindSome(s.clients, id);
    SentByIsGain(s, step, id);
    StaysNowhereCached(s, step, d);
    if Resolves(step, d) { NothingCachedToSend(s, step, d, Find(s.clients, id).value); }
    assert sent + [] == sent;
  }

  lemma NothingCachedToSend(s: State, step: Step, d: Delete, c: ClientState)
    requires Resolves(step, d) && KeyOf(d) !in c.store
    ensures StepGain(s, step, c) == []
  {
  }

  lemma {:induction false} ProtocolRun(s: State, steps: seq<Step>, d: Delete, id: string, messages: seq<Message>)
    requires Protocol(s, d, id, messages, None, [])
    requires forall i :: 0 <= i < |steps| ==> steps[i] != Unregister(id) && !Prepares(steps[i], d)
    ensures Protocol(Run(s, steps), d, id, messages, FirstResolution(steps, d), SentFor(s, steps, d, id))
  {
    hide Protocol, Resolves, Prepares, Next, SentBy;
    if steps == [] {
    } else {
      var before := steps[..|steps|-1];
      ProtocolRun(s, before, d, id, messages);
      var t, last, first := Run(s, before), steps[|steps|-1], FirstResolution(before, d);
      if first.Some? {
        ProtocolIsOver(t, last, d, id, messages, first.value, SentFor(s, before, d, id));
        assert SentFor(s, before, d, id) + [] == SentFor(s, before, d, id);
      } else {
        assert SentFor(s, before, d, id) == [] by { NothingSentYet(t, d, id, messages, SentFor(s, before, d, id)); }
        if Resolves(last, d) {
          ProtocolResolves(t, last, d, id, messages);
          assert [] + SentBy(t, last, id) == SentBy(t, last, id);
        } else {
          ProtocolWaits(t, last, d, id, messages);
        }
      }
    }
  }

  lemma NothingSentYet(s: State, d: Delete, id: string, messages: seq<Message>, sent: seq<Message>)
    requires Protocol(s, d, id, messages, None, sent)
    ensures sent == []
  {
  }

  lemma {:induction false} RunConcat(s: State, a: seq<Step>, b: seq<Step>)
    ensures Run(s, a + b) == Run(Run(s, a), b)
  {
    if b == [] {
      assert a + b == a;
    } else {
      assert (a + b)[..|a + b|-1] == a + b[..|b|-1];
      RunConcat(s, a, b[..|b|-1]);
    }
  }

  /** For every run around the prepare of a delete, a client that is registered throughout is sent, on
      behalf of that delete, exactly the messages of its prepare, once and in order, if a commit is the
      first of commit, abort and expiry, and nothing otherwise; the prepare itself sends nothing, and after
      any of the three no client has anything cached for it. Earlier prepares of it may have been resolved before. */
  lemma {:induction false} FirstResolutionDecides(pre: seq<Step>, d: Delete, step: Step, post: seq<Step>, id: string)
    requires Prepares(step, d) && !Open(pre, d)
    requires forall i :: 0 <= i < |post| ==> post[i] != Unregister(id) && !Prepares(post[i], d)
    requires Find(Run(Init(), pre).clients, id).Some?
    ensures var s0 := Run(Init(), pre);
      var messages := MessagesFor(Find(s0.clients, id).value, step.b);
      var first := FirstResolution(post, d);
      && Sent(Next(s0, step), id) == Sent(s0, id)
      && SentFor(Next(s0, step), post, d, id) == (if first.Some? && Commits(first.value, d) then messages else [])
      && (first.Some? ==> NowhereCached(Run(Init(), pre + [step] + post), d))
  {
    hide Next, Run, Sent, SentFor, FirstResolution, Find, MessagesFor, Inv, NowhereCached, Commits, Armed, Open;
    var s0 := Run(Init(), pre);
    InitHolds();
    RunKeepsInv(Init(), pre);
    CachedOnlyWhileOpen(pre, d);
    PrepareStarts(s0, d, step, id);
    PrepareSendsNothing(s0, d, step, id);
    ProtocolRun(Next(s0, step), post, d, id, MessagesFor(Find(s0.clients, id).value, step.b));
    RunOne(s0, step);
    RunConcat(Init(), pre, [step]);
    RunConcat(Init(), pre + [step], post);
  }

  lemma InitHolds()
    ensures Inv(Init())
  {
  }

  lemma RunOne(s: State, step: Step)
    ensures Run(s, [step]) == Next(s, step)
  {
    assert [step][..0] == [];
  }

  /** After a prepare, exactly the client's messages are cached for it. */
  lemma PrepareStarts(s: State, d: Delete, step: Step, id: string)
    requires Inv(s) && NowhereCached(s, d) && Find(s.clients, id).Some? && Prepares(step, d)
    ensures Protocol(Next(s, step), d, id, MessagesFor(Find(s.clients, id).value, step.b), None, [])
  {
    hide Find, Inv, MessagesFor, ClusterKey, LocalKey;
    FindSome(s.clients, id);
    NextKeepsInv(s, step);
    FindNext(s, step, id);
  }

  lemma PrepareSendsNothing(s: State, d: Delete, step: Step, id: string)
    requires Inv(s) && Find(s.clients, id).Some? && Prepares(step, d)
    ensures Sent(Next(s, step), id) == Sent(s, id)
  {
    hide Next, Find, Sent, Inv, ClusterKey, LocalKey;
    StepSends(s, step, id);
  }

  // ---------------------------------------------------------------- the worker that performs the delete

  predicate NoSlash(table: string) { '/' !in table }

  /** Records of tables without a slash in their names share no key. */
  lemma {:induction false} LocalKeysDiffer(table: string, pk: string, table': string, pk': string)
    requires NoSlash(table) && NoSlash(table')
    ensures LocalKey(table, pk) == LocalKey(table', pk') <==> table == table' && pk == pk'
  {
    var a, b := table + "/" + pk, table' + "/" + pk';
    assert LocalKey(table, pk)[7..] == a && LocalKey(table', pk')[7..] == b;
    assert a[|table|] == '/' && b[|table'|] == '/';
    assert forall i :: 0 <= i < |table| ==> a[i] == table[i];
    assert forall i :: 0 <= i < |table'| ==> b[i] == table'[i];
    if a == b {
      assert a[..|table|] == table && b[..|table'|] == table' && a[|table|+1..] == pk && b[|table'|+1..] == pk';
    }
  }

  /** The tables that a step names have no slash. */
  predicate PlainTables(step: Step) {
    step.LocalDelete? || step.LocalCommit? || step.LocalAbort? ==> NoSlash(step.table)
  }

  /** A success of this delete is reported before a failure of it. */
  ghost predicate SucceedsFirst(post: seq<Step>, table: string, pk: string) {
    exists c :: 0 <= c < |post| && post[c] == LocalCommit(table, pk)
      && forall i :: 0 <= i < c ==> post[i] != LocalAbort(table, pk)
  }

  lemma {:induction false} FirstLocalResolution(post: seq<Step>, table: string, pk: string)
    requires NoSlash(table) && forall i :: 0 <= i < |post| ==> PlainTables(post[i])
    ensures var first := FirstResolution(post, Local(table, pk));
      && (first == None || first == Some(LocalCommit(table, pk)) || first == Some(LocalAbort(table, pk)))
      && (first == Some(LocalCommit(table, pk)) <==> SucceedsFirst(post, table, pk))
      && (first == None <==> LocalCommit(table, pk) !in post && LocalAbort(table, pk) !in post)
  {
    hide LocalKey;
    if post == [] {
    } else {
      var init, last := post[..|post|-1], post[|post|-1];
      FirstLocalResolution(init, table, pk);
      assert post == init + [last];
      if last.LocalCommit? || last.LocalAbort? { LocalKeysDiffer(last.table, last.pk, table, pk); }
      SucceedsFirstNext(init, last, table, pk);
    }
  }

  lemma SucceedsFirstNext(init: seq<Step>, last: Step, table: string, pk: string)
    ensures SucceedsFirst(init + [last], table, pk) <==>
      SucceedsFirst(init, table, pk) || (last == LocalCommit(table, pk) && LocalAbort(table, pk) !in init)
  {
    var post := init + [last];
    if SucceedsFirst(init, table, pk) {
      var c :| 0 <= c < |init| && init[c] == LocalCommit(table, pk)
        && forall i :: 0 <= i < c ==> init[i] != LocalAbort(table, pk);
      assert post[c] == LocalCommit(table, pk);
    } else if last == LocalCommit(table, pk) && LocalAbort(table, pk) !in init {
      assert post[|init|] == last;
    }
    if SucceedsFirst(post, table, pk) {
      var c :| 0 <= c < |post| && post[c] == LocalCommit(table, pk)
        && forall i :: 0 <= i < c ==> post[i] != LocalAbort(table, pk);
      if c < |init| {
        assert init[c] == LocalCommit(table, pk) && forall i :: 0 <= i < c ==> init[i] == post[i];
      } else {
        assert forall i :: 0 <= i < |init| ==> init[i] == post[i];
      }
    }
  }

  /** On the worker that deletes a record: over every run around the delete, a client that is registered from
      then on is sent, on behalf of it, exactly the messages the delete had for it, once and in order, if its
      success is reported before any failure, and nothing otherwise or before that; after either no client has anything
      cached for it. */
  lemma {:induction false} LocalDeleteDecides(pre: seq<Step>, table: string, pk: string, b: Broadcast, post: seq<Step>,
                                              id: string)
    requires NoSlash(table) && !Open(pre, Local(table, pk))
    requires forall i :: 0 <= i < |post| ==> PlainTables(post[i]) && post[i] != Unregister(id)
    requires forall i :: 0 <= i < |post| && post[i].LocalDelete? ==> post[i].table != table || post[i].pk != pk
    requires Find(Run(Init(), pre).clients, id).Some?
    ensures var s0, step := Run(Init(), pre), LocalDelete(table, pk, b);
      && Sent(Next(s0, step), id) == Sent(s0, id)
      && SentFor(Next(s0, step), post, Local(table, pk), id) ==
           (if SucceedsFirst(post, table, pk) then MessagesFor(Find(s0.clients, id).value, b) else [])
      && (LocalCommit(table, pk) in post || LocalAbort(table, pk) in post ==>
            forall c :: c in Run(Init(), pre + [step] + post).clients ==> LocalKey(table, pk) !in c.store)
  {
    hide Next, Run, Sent, SentFor, FirstResolution, Find, MessagesFor, Open, SucceedsFirst, LocalKey;
    forall i | 0 <= i < |post| ensures !Prepares(post[i], Local(table, pk)) {
      if post[i].LocalDelete? { LocalKeysDiffer(post[i].table, post[i].pk, table, pk); }
    }
    FirstResolutionDecides(pre, Local(table, pk), LocalDelete(table, pk, b), post, id);
    FirstLocalResolution(post, table, pk);
  }

  /** An immediate broadcast at the time of the prepare would have sent those same messages. */
  lemma {:induction false} ImmediateBroadcastSends(steps: seq<Step>, b: Broadcast, id: string)
    requires Find(Run(Init(), steps).clients, id).Some?
    ensures var s := Run(Init(), steps);
      Sent(Next(s, Publish(b)), id) == Sent(s, id) + MessagesFor(Find(s.clients, id).value, b)
  {
    RunKeepsInv(Init(), steps);
    StepSends(Run(Init(), steps), Publish(b), id);
  }

  function Drain(n: nat): seq<Step> { seq(n, _ => RunCallback) }

  /** Everything sent reaches the channel of a client that stays registered: running the callbacks
      that are queued leaves in the channel exactly what was sent. */
  lemma {:induction false} CallbacksDeliver(s: State, id: string)
    requires Inv(s) && Find(s.clients, id).Some?
    ensures var t := Run(s, Drain(|s.callbacks|));
      t.callbacks == [] && Find(t.clients, id).Some? && Find(t.clients, id).value.channel == Sent(s, id)
    decreases |s.callbacks|
  {
    hide Next, Find, Pending, Inv, Sent;
    if s.callbacks == [] {
      NothingQueued(s, id);
      assert Drain(0) == [];
    } else {
      var t := Next(s, RunCallback);
      CallbackSends(s, id);
      CallbackTaken(s);
      NextKeepsInv(s, RunCallback);
      CallbacksDeliver(t, id);
      RunConcat(s, [RunCallback], Drain(|t.callbacks|));
      assert [RunCallback][..0] == [];
      assert [RunCallback] + Drain(|t.callbacks|) == Drain(|s.callbacks|);
    }
  }

  lemma CallbackTaken(s: State)
    requires s.callbacks != []
    ensures Next(s, RunCallback).callbacks == s.callbacks[1..]
  {
  }

  lemma NothingQueued(s: State, id: string)
    requires s.callbacks == [] && Find(s.clients, id).Some?
    ensures Find(s.clients, id).value.channel == Sent(s, id)
  {
  }
}
