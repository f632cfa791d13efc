/** The broadcast of one record event to the clients of a worker: at once, or into a cache that is sent
    or dropped later. Access rules, enrichment and encoding are the parameter `render`. */
module RecordBroadcast {
  import opened Wrappers
  import opened Subscriptions

  /** The message that a subscription gets under one topic prefix, if its access checks pass. */
  type Render = (Option<AuthRecord>, string, string) -> Option<Message>

  /** One record event: the topic prefixes of its collection, in rule order, and its rendering. */
  datatype Broadcast = Broadcast(prefixes: seq<string>, render: Render)

  predicate Matches(sub: string, prefix: string) { prefix <= sub + "?" }

  /** The messages of the subscriptions `subs` under one prefix. */
  function PrefixMessages(auth: Option<AuthRecord>, b: Broadcast, prefix: string, subs: seq<string>): seq<Message> {
    if subs == [] then [] else
      var sub := subs[|subs|-1];
      PrefixMessages(auth, b, prefix, subs[..|subs|-1]) +
      (if Matches(sub, prefix) && b.render(auth, prefix, sub).Some? then [b.render(auth, prefix, sub).value] else [])
  }

  function MessagesUnder(c: ClientState, b: Broadcast, prefixes: seq<string>): seq<Message> {
    if prefixes == [] then [] else
      MessagesUnder(c, b, prefixes[..|prefixes|-1]) +
      PrefixMessages(c.CurrentAuth(), b, prefixes[|prefixes|-1], c.subs)
  }

  /** What a broadcast has to say to a client as it is now. */
  function MessagesFor(c: ClientState, b: Broadcast): seq<Message> { MessagesUnder(c, b, b.prefixes) }

  // ---------------------------------------------------------------- which subscriptions are reached

  /** Subscription `j` of the client gets a message under prefix `i`. */
  predicate Reaches(c: ClientState, b: Broadcast, i: int, j: int) {
    && 0 <= i < |b.prefixes| && 0 <= j < |c.subs| && b.prefixes[i] <= c.subs[j] + "?"
    && b.render(c.CurrentAuth(), b.prefixes[i], c.subs[j]).Some?
  }

  predicate Before(p: (nat, nat), q: (nat, nat)) { p.0 < q.0 || (p.0 == q.0 && p.1 < q.1) }

  lemma NextPrefixed(c: ClientState, b: Broadcast, i: nat, m: nat)
    requires i < |b.prefixes| && 0 < m <= |c.subs|
    ensures var before := PrefixMessages(c.CurrentAuth(), b, b.prefixes[i], c.subs[..m-1]);
      PrefixMessages(c.CurrentAuth(), b, b.prefixes[i], c.subs[..m]) ==
        if Reaches(c, b, i, m - 1)
        then before + [b.render(c.CurrentAuth(), b.prefixes[i], c.subs[m-1]).value] else before
  {
    assert c.subs[..m][..m-1] == c.subs[..m-1];
  }

  ghost predicate Ordered(pairs: seq<(nat, nat)>) { forall k, l :: 0 <= k < l < |pairs| ==> Before(pairs[k], pairs[l]) }

  /** The pairs are those of the first n prefixes that are reached. */
  ghost predicate AllReached(c: ClientState, b: Broadcast, n: nat, pairs: seq<(nat, nat)>) {
    forall i: nat, j: nat :: (i, j) in pairs <==> i < n && Reaches(c, b, i, j)
  }

  ghost predicate Renders(c: ClientState, b: Broadcast, pair: (nat, nat), message: Message) {
    Reaches(c, b, pair.0, pair.1) && b.render(c.CurrentAuth(), b.prefixes[pair.0], c.subs[pair.1]) == Some(message)
  }

  ghost predicate AllRender(c: ClientState, b: Broadcast, pairs: seq<(nat, nat)>, sent: seq<Message>) {
    |sent| == |pairs| && forall k :: 0 <= k < |pairs| ==> Renders(c, b, pairs[k], sent[k])
  }

  lemma {:induction false} ReachedPairs(c: ClientState, b: Broadcast, n: nat) returns (pairs: seq<(nat, nat)>)
    requires n <= |b.prefixes|
    ensures Ordered(pairs) && AllReached(c, b, n, pairs)
    ensures AllRender(c, b, pairs, MessagesUnder(c, b, b.prefixes[..n]))
  {
    hide Ordered, AllReached, AllRender, PrefixMessages, MessagesUnder;
    if n == 0 {
      pairs := [];
      NothingReached(c, b);
    } else {
      var before := ReachedPairs(c, b, n - 1);
      var more := PairsUnder(c, b, n - 1, |c.subs|);
      pairs := before + more;
      NextUnder(c, b, n - 1);
      PairsGrow(c, b, n - 1, before, more);
      RenderedConcat(c, b, before, more, MessagesUnder(c, b, b.prefixes[..n-1]),
                     PrefixMessages(c.CurrentAuth(), b, b.prefixes[n-1], c.subs[..|c.subs|]));
    }
  }

  lemma NothingReached(c: ClientState, b: Broadcast)
    ensures Ordered([]) && AllReached(c, b, 0, []) && AllRender(c, b, [], MessagesUnder(c, b, b.prefixes[..0]))
  {
  }

  lemma NextUnder(c: ClientState, b: Broadcast, n: nat)
    requires n < |b.prefixes|
    ensures MessagesUnder(c, b, b.prefixes[..n+1]) ==
      MessagesUnder(c, b, b.prefixes[..n]) + PrefixMessages(c.CurrentAuth(), b, b.prefixes[n], c.subs[..|c.subs|])
  {
    assert b.prefixes[..n+1][..n] == b.prefixes[..n] && c.subs[..|c.subs|] == c.subs;
  }

  /** The pairs are those of prefix n and the first m subscriptions that are reached. */
  ghost predicate ReachedAt(c: ClientState, b: Broadcast, n: nat, m: nat, pairs: seq<(nat, nat)>) {
    && (forall k :: 0 <= k < |pairs| ==> pairs[k].0 == n)
    && forall j: nat :: (n, j) in pairs <==> j < m && Reaches(c, b, n, j)
  }

  lemma {:induction false} PairsUnder(c: ClientState, b: Broadcast, n: nat, m: nat) returns (pairs: seq<(nat, nat)>)
    requires n < |b.prefixes| && m <= |c.subs|
    ensures Ordered(pairs) && ReachedAt(c, b, n, m, pairs)
    ensures AllRender(c, b, pairs, PrefixMessages(c.CurrentAuth(), b, b.prefixes[n], c.subs[..m]))
  {
    hide Ordered, ReachedAt, AllRender, PrefixMessages;
    if m == 0 {
      pairs := [];
      NothingPrefixed(c, b, n);
    } else {
      var before := PairsUnder(c, b, n, m - 1);
      NextPrefixed(c, b, n, m);
      PairAdded(c, b, n, m - 1, before);
      if Reaches(c, b, n, m - 1) {
        var message := b.render(c.CurrentAuth(), b.prefixes[n], c.subs[m-1]).value;
        pairs := before + [(n, m - 1)];
        OneRendered(c, b, (n, m - 1), message);
        RenderedConcat(c, b, before, [(n, m - 1)],
                       PrefixMessages(c.CurrentAuth(), b, b.prefixes[n], c.subs[..m-1]), [message]);
      } else {
        pairs := before;
      }
    }
  }

  lemma NothingPrefixed(c: ClientState, b: Broadcast, n: nat)
    requires n < |b.prefixes|
    ensures Ordered([]) && ReachedAt(c, b, n, 0, [])
    ensures AllRender(c, b, [], PrefixMessages(c.CurrentAuth(), b, b.prefixes[n], c.subs[..0]))
  {
  }

  lemma PairAdded(c: ClientState, b: Broadcast, n: nat, m: nat, before: seq<(nat, nat)>)
    requires Ordered(before) && ReachedAt(c, b, n, m, before)
    ensures var pairs := if Reaches(c, b, n, m) then before + [(n, m)] else before;
      Ordered(pairs) && ReachedAt(c, b, n, m + 1, pairs)
  {
    hide Reaches;
    assert forall k :: 0 <= k < |before| ==> before[k] in before && before[k] == (n, before[k].1);
  }

  lemma OneRendered(c: ClientState, b: Broadcast, pair: (nat, nat), message: Message)
    requires Renders(c, b, pair, message)
    ensures AllRender(c, b, [pair], [message])
  {
  }

  lemma PairsGrow(c: ClientState, b: Broadcast, n: nat, before: seq<(nat, nat)>, more: seq<(nat, nat)>)
    requires Ordered(before) && AllReached(c, b, n, before) && Ordered(more)
    requires ReachedAt(c, b, n, |c.subs|, more)
    ensures Ordered(before + more) && AllReached(c, b, n + 1, before + more)
  {
    SubsInRange(c, b, n);
    hide Reaches;
    assert forall k :: 0 <= k < |before| ==> before[k] in before && before[k] == (before[k].0, before[k].1);
    forall i: nat, j: nat ensures (i, j) in before + more <==> i < n + 1 && Reaches(c, b, i, j) {
      assert (i, j) in before + more <==> (i, j) in before || (i, j) in more;
    }
  }

  lemma SubsInRange(c: ClientState, b: Broadcast, n: nat)
    ensures forall j: nat :: Reaches(c, b, n, j) ==> j < |c.subs|
  {
  }

  lemma RenderedConcat(c: ClientState, b: Broadcast, before: seq<(nat, nat)>, more: seq<(nat, nat)>,
                       sent: seq<Message>, last: seq<Message>)
    requires AllRender(c, b, before, sent) && AllRender(c, b, more, last)
    ensures AllRender(c, b, before + more, sent + last)
  {
    hide Renders;
  }

  /** A broadcast has one message for each pair of a prefix and a subscription that, with a question mark
      behind it, starts with the prefix and whose rendering passes; prefix by prefix, and under each prefix
      in the order of the subscriptions. */
  lemma {:induction false} MessagesForExactly(c: ClientState, b: Broadcast) returns (pairs: seq<(nat, nat)>)
    ensures forall k, l :: 0 <= k < l < |pairs| ==>
      pairs[k].0 < pairs[l].0 || (pairs[k].0 == pairs[l].0 && pairs[k].1 < pairs[l].1)
    ensures forall i: nat, j: nat :: (i, j) in pairs <==>
      && i < |b.prefixes| && j < |c.subs| && b.prefixes[i] <= c.subs[j] + "?"
      && b.render(c.CurrentAuth(), b.prefixes[i], c.subs[j]).Some?
    ensures |MessagesFor(c, b)| == |pairs|
    ensures forall k :: 0 <= k < |pairs| ==> pairs[k].0 < |b.prefixes| && pairs[k].1 < |c.subs|
    ensures forall k :: 0 <= k < |pairs| ==>
      b.render(c.CurrentAuth(), b.prefixes[pairs[k].0], c.subs[pairs[k].1]) == Some(MessagesFor(c, b)[k])
  {
    pairs := ReachedPairs(c, b, |b.prefixes|);
    assert b.prefixes[..|b.prefixes|] == b.prefixes;
  }

  predicate NoMark(s: string) { '?' !in s }

  /** A prefix made of a topic reaches the topic itself and the topic with options. */
  lemma {:induction false} TopicPrefix(topic: string, sub: string)
    requires NoMark(topic)
    ensures topic + "?" <= sub + "?" <==> sub == topic || topic + "?" <= sub
  {
    var t, s := topic + "?", sub + "?";
    if t <= s {
      assert s[|topic|] == t[|topic|] == '?' && s[..|topic|] == topic;
      if |topic| < |sub| { assert sub[..|t|] == s[..|t|]; } else { assert sub == s[..|sub|]; }
    }
  }

  /** The topics of a record event, in rule order: a record's own, the wildcard, and the bare collection. */
  function RecordTopics(name: string, collectionId: string, recordId: string): seq<string> {
    [name + "/" + recordId, collectionId + "/" + recordId, name + "/*", collectionId + "/*", name, collectionId]
  }

  /** The keys of the rule map: a key that is set again keeps its place. */
  function Keys(topics: seq<string>): seq<string> {
    if topics == [] then [] else
      var rest, last := Keys(topics[..|topics|-1]), topics[|topics|-1] + "?";
      if last in rest then rest else rest + [last]
  }

  lemma {:induction false} KeysAre(topics: seq<string>)
    ensures forall p :: p in Keys(topics) <==> exists t :: t in topics && p == t + "?"
    ensures forall i, k :: 0 <= i < k < |Keys(topics)| ==> Keys(topics)[i] != Keys(topics)[k]
  {
    if topics == [] {
    } else {
      var init, last := topics[..|topics|-1], topics[|topics|-1];
      KeysAre(init);
      assert topics == init + [last];
      forall p ensures p in Keys(topics) <==> exists t :: t in topics && p == t + "?" {
        if p == last + "?" { assert last in topics; }
        if t :| t in topics && p == t + "?" { assert t in init || t == last; }
        if t :| t in init && p == t + "?" { assert t in topics; }
      }
    }
  }

  /** One of the prefixes reaches the subscription. */
  ghost predicate ReachesSome(prefixes: seq<string>, sub: string) { exists p :: p in prefixes && p <= sub + "?" }

  /** The subscription is to one of the topics, with or without options. */
  ghost predicate IsToSome(topics: seq<string>, sub: string) {
    exists t :: t in topics && (sub == t || t + "?" <= sub)
  }

  lemma KeysReach(topics: seq<string>, sub: string)
    requires forall t :: t in topics ==> NoMark(t)
    ensures ReachesSome(Keys(topics), sub) <==> IsToSome(topics, sub)
  {
    KeysAre(topics);
    hide Keys, NoMark;
    if ReachesSome(Keys(topics), sub) {
      var p :| p in Keys(topics) && p <= sub + "?";
      var t :| t in topics && p == t + "?";
      TopicPrefix(t, sub);
    }
    if IsToSome(topics, sub) {
      var t :| t in topics && (sub == t || t + "?" <= sub);
      TopicPrefix(t, sub);
      assert t + "?" in Keys(topics);
    }
  }

  /** The event of a record reaches exactly the subscriptions to one of its six topics, with or without
      options, and each of them under one prefix only. */
  lemma {:induction false} EventReaches(name: string, collectionId: string, recordId: string, sub: string)
    requires NoMark(name) && NoMark(collectionId) && NoMark(recordId)
    ensures var prefixes := Keys(RecordTopics(name, collectionId, recordId));
      && (ReachesSome(prefixes, sub) <==> IsToSome(RecordTopics(name, collectionId, recordId), sub))
      && (forall p, q :: p in prefixes && q in prefixes && p <= sub + "?" && q <= sub + "?" ==> p == q)
      && forall i, k :: 0 <= i < k < |prefixes| ==> prefixes[i] != prefixes[k]
  {
    var topics := RecordTopics(name, collectionId, recordId);
    forall t | t in topics ensures NoMark(t) { TopicsHaveNoMark(name, collectionId, recordId, t); }
    KeysAre(topics);
    KeysReach(topics, sub);
    hide Keys, RecordTopics, NoMark;
    forall p, q | p in Keys(topics) && q in Keys(topics) && p <= sub + "?" && q <= sub + "?" ensures p == q {
      var t :| t in topics && p == t + "?";
      var u :| u in topics && q == u + "?";
      SamePrefix(t, u, sub + "?");
    }
  }

  lemma TopicsHaveNoMark(name: string, collectionId: string, recordId: string, topic: string)
    requires NoMark(name) && NoMark(collectionId) && NoMark(recordId)
    requires topic in RecordTopics(name, collectionId, recordId)
    ensures NoMark(topic)
  {
  }

  /** Two topics that a text starts with, up to its first question mark, are the same. */
  lemma SamePrefix(t: string, u: string, s: string)
    requires NoMark(t) && NoMark(u) && t + "?" <= s && u + "?" <= s
    ensures t == u
  {
    assert s[|t|] == (t + "?")[|t|] && s[|u|] == (u + "?")[|u|];
    assert forall i :: 0 <= i < |t| ==> s[i] == (t + "?")[i] == t[i];
    assert forall i :: 0 <= i < |u| ==> s[i] == (u + "?")[i] == u[i];
  }

  // ---------------------------------------------------------------- effects on one client

  datatype Effect =
    | DryCache(key: string, b: Broadcast)
    | Live(b: Broadcast)
    | FlushKey(key: string)
    | DropKey(key: string)

  function CacheMore(c: ClientState, key: string, messages: seq<Message>): ClientState {
    if messages == [] then c
    else if c.CachedAt(key).Some? then c.(store := c.store[key := Cached(c.CachedAt(key).value + messages)])
    else c.(store := c.store[key := Cached(messages)])
  }

  function After(c: ClientState, e: Effect): ClientState {
    match e
    case DryCache(key, b) => CacheMore(c, key, MessagesFor(c, b))
    case Live(_) => c
    case FlushKey(key) => if c.CachedAt(key).Some? then c.(store := c.store - {key}) else c
    case DropKey(key) => c.(store := c.store - {key})
  }

  /** A callback queued with `FireAndForget`: sends its messages to the client, unless discarded by then. */
  datatype Callback = Callback(clientId: string, messages: seq<Message>)

  function Singles(id: string, messages: seq<Message>): seq<Callback> {
    if messages == [] then [] else Singles(id, messages[..|messages|-1]) + [Callback(id, [messages[|messages|-1]])]
  }

  function Queued(c: ClientState, e: Effect): seq<Callback> {
    match e
    case Live(b) => Singles(c.id, MessagesFor(c, b))
    case FlushKey(key) => if c.CachedAt(key).Some? then [Callback(c.id, c.CachedAt(key).value)] else []
    case _ => []
  }

  function AllQueued(clients: seq<ClientState>, e: Effect): seq<Callback> {
    if clients == [] then [] else AllQueued(clients[..|clients|-1], e) + Queued(clients[|clients|-1], e)
  }

  function AllAfter(clients: seq<ClientState>, e: Effect): (r: seq<ClientState>)
    ensures |r| == |clients|
    ensures forall i :: 0 <= i < |r| ==> r[i] == After(clients[i], e) && r[i].id == clients[i].id
  {
    seq(|clients|, i requires 0 <= i < |clients| => After(clients[i], e))
  }

  // ---------------------------------------------------------------- the broadcasting loops

  /** A queued callback of the running program; it captures the client object. */
  datatype Task = Task(client: Client, messages: seq<Message>)

  function Callbacks(tasks: seq<Task>): (r: seq<Callback>)
    ensures |r| == |tasks|
    ensures forall i :: 0 <= i < |r| ==> r[i] == Callback(tasks[i].client.id, tasks[i].messages)
  {
    seq(|tasks|, i requires 0 <= i < |tasks| => Callback(tasks[i].client.id, tasks[i].messages))
  }

  function Views(clients: seq<Client>): (r: seq<ClientState>)
    reads clients
    ensures |r| == |clients|
    ensures forall i :: 0 <= i < |r| ==> r[i] == clients[i].View()
  {
    seq(|clients|, i requires 0 <= i < |clients| reads clients => clients[i].View())
  }

  ghost predicate Distinct(clients: seq<Client>) {
    forall i, j :: 0 <= i < j < |clients| ==> clients[i] != clients[j]
  }

  ghost predicate Progress(now: ClientState, c0: ClientState, tasks: seq<Task>, dryCache: bool, key: string,
                           sent: seq<Message>) {
    && now == (if dryCache then CacheMore(c0, key, sent) else c0)
    && Callbacks(tasks) == (if dryCache then [] else Singles(c0.id, sent))
  }

  lemma ProgressBounds(now: ClientState, c0: ClientState, tasks: seq<Task>, dryCache: bool, key: string,
                       sent: seq<Message>, b: Broadcast)
    requires key != AUTH_KEY
    ensures Progress(c0, c0, [], dryCache, key, [])
    ensures Progress(now, c0, tasks, dryCache, key, sent) ==>
      now.CurrentAuth() == c0.CurrentAuth() && now.subs == c0.subs
    ensures Progress(now, c0, tasks, dryCache, key, MessagesFor(c0, b)) ==>
      var e := if dryCache then DryCache(key, b) else Live(b);
      now == After(c0, e) && Callbacks(tasks) == Queued(c0, e)
  {
  }

  /** Caches or queues one message. */
  method Deliver(client: Client, msg: Message, dryCache: bool, key: string, queued: seq<Task>, ghost c0: ClientState,
                 ghost sent: seq<Message>) returns (tasks: seq<Task>)
    requires Progress(client.View(), c0, queued, dryCache, key, sent)
    modifies client`store
    ensures Progress(client.View(), c0, tasks, dryCache, key, sent + [msg])
  {
    tasks := queued;
    if dryCache {
      var stored := client.View().CachedAt(key);
      ghost var before := client.View();
      client.Set(key, Cached((if stored.Some? then stored.value else []) + [msg]));
      CachedMore(before, c0, key, sent, msg);
    } else {
      tasks := tasks + [Task(client, [msg])];
      SinglesNext(c0.id, sent, msg);
    }
  }

  lemma CachedMore(before: ClientState, c0: ClientState, key: string, sent: seq<Message>, msg: Message)
    requires before == CacheMore(c0, key, sent)
    ensures
      var stored := if before.CachedAt(key).Some? then before.CachedAt(key).value else [];
      before.(store := before.store[key := Cached(stored + [msg])])
      == CacheMore(c0, key, sent + [msg])
  {
    if sent == [] {
      assert sent + [msg] == [msg];
    } else {
      var first := if c0.CachedAt(key).Some? then c0.CachedAt(key).value else [];
      assert first + sent + [msg] == first + (sent + [msg]);
      assert [] + sent == sent;
    }
  }

  lemma SinglesNext(id: string, sent: seq<Message>, msg: Message)
    ensures Singles(id, sent + [msg]) == Singles(id, sent) + [Callback(id, [msg])]
  {
    assert (sent + [msg])[..|sent|] == sent;
  }

  /** The loops over prefixes and subscriptions for one client of a broadcast. A cache key names a
      delete, so it is never the key of the auth state. */
  method BroadcastToClient(client: Client, b: Broadcast, dryCache: bool, key: string) returns (tasks: seq<Task>)
    requires key != AUTH_KEY
    modifies client`store
    ensures client.View() == After(old(client.View()), if dryCache then DryCache(key, b) else Live(b))
    ensures Callbacks(tasks) == Queued(old(client.View()), if dryCache then DryCache(key, b) else Live(b))
  {
    hide Progress, After, Queued;
    tasks := [];
    ghost var c0 := client.View();
    ghost var sent: seq<Message> := [];
    ProgressBounds(c0, c0, tasks, dryCache, key, sent, b);
    for p := 0 to |b.prefixes|
      invariant sent == MessagesUnder(c0, b, b.prefixes[..p])
      invariant Progress(client.View(), c0, tasks, dryCache, key, sent)
    {
      assert b.prefixes[..p+1][..p] == b.prefixes[..p];
      ProgressBounds(client.View(), c0, tasks, dryCache, key, sent, b);
      var auth := client.View().CurrentAuth();
      ghost var before := sent;
      for j := 0 to |client.subs|
        invariant sent == before + PrefixMessages(auth, b, b.prefixes[p], c0.subs[..j])
        invariant Progress(client.View(), c0, tasks, dryCache, key, sent)
      {
        assert c0.subs[..j+1][..j] == c0.subs[..j];
        var sub := client.subs[j];
        if Matches(sub, b.prefixes[p]) {
          var rendered := b.render(auth, b.prefixes[p], sub);
          if rendered.Some? {
            tasks := Deliver(client, rendered.value, dryCache, key, tasks, c0, sent);
            sent := sent + [rendered.value];
          }
        }
      }
      assert c0.subs[..|c0.subs|] == c0.subs;
    }
    assert b.prefixes[..|b.prefixes|] == b.prefixes;
    ProgressBounds(client.View(), c0, tasks, dryCache, key, sent, b);
  }

  lemma NoneQueued(e: Effect)
    ensures AllQueued([], e) == []
  {
  }

  lemma AllQueuedNext(clients: seq<ClientState>, i: nat, e: Effect)
    requires i < |clients|
    ensures AllQueued(clients[..i+1], e) == AllQueued(clients[..i], e) + Queued(clients[i], e)
  {
    assert clients[..i+1][..i] == clients[..i];
  }

  lemma CallbacksConcat(a: seq<Task>, b: seq<Task>)
    ensures Callbacks(a + b) == Callbacks(a) + Callbacks(b)
  {
  }

  /** The loop over the registered clients, for a live event and for a delete being prepared. */
  method BroadcastRecord(clients: seq<Client>, b: Broadcast, dryCache: bool, key: string) returns (tasks: seq<Task>)
    requires Distinct(clients) && key != AUTH_KEY
    modifies clients
    ensures Views(clients) == AllAfter(old(Views(clients)), if dryCache then DryCache(key, b) else Live(b))
    ensures Callbacks(tasks) == AllQueued(old(Views(clients)), if dryCache then DryCache(key, b) else Live(b))
  {
    hide After, Queued, AllQueued, Callbacks;
    tasks := [];
    ghost var v0 := Views(clients);
    ghost var e := if dryCache then DryCache(key, b) else Live(b);
    NoneQueued(e);
    for i := 0 to |clients|
      invariant Callbacks(tasks) == AllQueued(v0[..i], e)
      invariant forall j :: 0 <= j < |clients| ==> clients[j].View() == if j < i then After(v0[j], e) else v0[j]
    {
      AllQueuedNext(v0, i, e);
      var more := BroadcastToClient(clients[i], b, dryCache, key);
      CallbacksConcat(tasks, more);
      tasks := tasks + more;
    }
    assert v0[..|v0|] == v0;
  }

  method FlushClient(client: Client, key: string) returns (tasks: seq<Task>)
    modifies client`store
    ensures client.View() == After(old(client.View()), FlushKey(key))
    ensures Callbacks(tasks) == Queued(old(client.View()), FlushKey(key))
  {
    tasks := [];
    var messages := client.View().CachedAt(key);
    if messages.Some? {
      client.Unset(key);
      tasks := [Task(client, messages.value)];
    }
  }

  /** Sends what the clients have cached under `key`, and forgets it. */
  method BroadcastDryCacheKey(clients: seq<Client>, key: string) returns (tasks: seq<Task>)
    requires Distinct(clients)
    modifies clients
    ensures Views(clients) == AllAfter(old(Views(clients)), FlushKey(key))
    ensures Callbacks(tasks) == AllQueued(old(Views(clients)), FlushKey(key))
  {
    hide After, Queued, AllQueued, Callbacks;
    tasks := [];
    ghost var v0 := Views(clients);
    NoneQueued(FlushKey(key));
    for i := 0 to |clients|
      invariant Callbacks(tasks) == AllQueued(v0[..i], FlushKey(key))
      invariant forall j :: 0 <= j < |clients| ==> clients[j].View() == if j < i then After(v0[j], FlushKey(key))
        else v0[j]
    {
      AllQueuedNext(v0, i, FlushKey(key));
      var more := FlushClient(clients[i], key);
      CallbacksConcat(tasks, more);
      tasks := tasks + more;
    }
    assert v0[..|v0|] == v0;
  }

  /** Forgets what the clients have cached under `key`. */
  method UnsetDryCacheKey(clients: seq<Client>, key: string)
    requires Distinct(clients)
    modifies clients
    ensures Views(clients) == AllAfter(old(Views(clients)), DropKey(key))
  {
    ghost var v0 := Views(clients);
    for i := 0 to |clients|
      invariant forall j :: 0 <= j < |clients| ==> clients[j].View() == if j < i then After(v0[j], DropKey(key))
        else v0[j]
    {
      if key in clients[i].store {
        clients[i].Unset(key);
      }
    }
  }

  /** Runs one queued callback. */
  method RunTask(task: Task)
    modifies task.client`channel
    ensures task.client.View() == Received(old(task.client.View()), task.messages)
  {
    ghost var c0 := task.client.View();
    for i := 0 to |task.messages|
      invariant task.client.View() == Received(c0, task.messages[..i])
    {
      task.client.Send(task.messages[i]);
    }
    assert task.messages[..|task.messages|] == task.messages;
  }

  function Received(c: ClientState, messages: seq<Message>): ClientState {
    if c.discarded then c else c.(channel := c.channel + messages)
  }

  /** The client after the queued callbacks of some broadcasts. */
  function ReceivedAll(c: ClientState, batches: seq<seq<Message>>): ClientState {
    if batches == [] then c else Received(ReceivedAll(c, batches[..|batches|-1]), batches[|batches|-1])
  }

  function Flat(batches: seq<seq<Message>>): seq<Message> {
    if batches == [] then [] else Flat(batches[..|batches|-1]) + batches[|batches|-1]
  }

  /** Of the callbacks queued for a client, those that run before it is discarded deliver all their messages, in
      order, and those that run after deliver none. */
  lemma {:induction false} DiscardStops(c: ClientState, before: seq<seq<Message>>, after: seq<seq<Message>>)
    requires !c.discarded
    ensures var t := ReceivedAll(c, before); t.channel == c.channel + Flat(before) && !t.discarded
    ensures ReceivedAll(ReceivedAll(c, before).(discarded := true), after).channel == c.channel + Flat(before)
    decreases |before| + |after|
  {
    if after != [] {
      DiscardStops(c, before, after[..|after|-1]);
      StaysDiscarded(ReceivedAll(c, before).(discarded := true), after[..|after|-1]);
    } else if before == [] {
      assert c.channel + [] == c.channel;
    } else {
      var init, last := before[..|before|-1], before[|before|-1];
      DiscardStops(c, init, []);
      assert c.channel + (Flat(init) + last) == c.channel + Flat(init) + last;
    }
  }

  lemma {:induction false} StaysDiscarded(c: ClientState, batches: seq<seq<Message>>)
    ensures ReceivedAll(c, batches).discarded == c.discarded
  {
    if batches == [] {
    } else {
      StaysDiscarded(c, batches[..|batches|-1]);
    }
  }
}
