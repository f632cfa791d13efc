/** A realtime client: its subscriptions, its key-value store and its message channel. */
module Subscriptions {
  import opened Wrappers

  datatype Message = Message(topic: string, data: string)

  /** The parts of an auth record that the realtime code looks at. */
  datatype AuthRecord = AuthRecord(id: string, collectionId: string, collectionName: string, tokenKey: string)

  /** What a client store key may hold: the connecting IP, the auth state (possibly null), or messages
      cached for a pending delete. */
  datatype StoreValue = IP(ip: string) | Auth(record: Option<AuthRecord>) | Cached(messages: seq<Message>)

  const AUTH_KEY := "auth"
  const IP_KEY := "pbRealtimeClientIP"

  datatype ClientState = ClientState(
    id: string, subs: seq<string>, store: map<string, StoreValue>, channel: seq<Message>, discarded: bool)
  {
    /** The auth state; an absent key, a null and a foreign value all read as a guest. */
    function CurrentAuth(): Option<AuthRecord> {
      if AUTH_KEY in store && store[AUTH_KEY].Auth? then store[AUTH_KEY].record else None
    }

    function CachedAt(key: string): Option<seq<Message>> {
      if key in store && store[key].Cached? then Some(store[key].messages) else None
    }
  }

  /** `Map.set` on an insertion-ordered set of topics; an empty topic is ignored. */
  function Subscribed(subs: seq<string>, sub: string): seq<string> {
    if sub == "" || sub in subs then subs else subs + [sub]
  }

  function SubscribedAll(subs: seq<string>, more: seq<string>): (r: seq<string>)
    ensures forall t :: t in r <==> t in subs || (t != "" && t in more)
  {
    if more == [] then subs else
      assert more == more[..|more|-1] + [more[|more|-1]];
      Subscribed(SubscribedAll(subs, more[..|more|-1]), more[|more|-1])
  }

  /** A client after an accepted subscribe request: it gets the identity of the request, and its topics only. */
  function Resubscribed(c: ClientState, topics: seq<string>, auth: Option<AuthRecord>): ClientState {
    c.(store := c.store[AUTH_KEY := Auth(auth)], subs := SubscribedAll([], topics))
  }

  function Unauthenticated(c: ClientState): ClientState { c.(store := c.store - {AUTH_KEY}) }

  /** The positions at which `more` mentions a topic that is not empty and not in `subs` for the first time. */
  ghost predicate FirstMentions(subs: seq<string>, more: seq<string>, at: seq<nat>) {
    && (forall k, l :: 0 <= k < l < |at| ==> at[k] < at[l])
    && forall i: nat :: i in at <==>
         i < |more| && more[i] != "" && more[i] !in subs && forall j :: 0 <= j < i ==> more[j] != more[i]
  }

  lemma FirstMentionsNext(subs: seq<string>, init: seq<string>, last: string, at: seq<nat>)
    requires FirstMentions(subs, init, at)
    ensures FirstMentions(subs, init + [last],
      if last != "" && last !in subs && last !in init then at + [|init|] else at)
  {
    var more := init + [last];
    var after := if last != "" && last !in subs && last !in init then at + [|init|] else at;
    assert forall k :: 0 <= k < |at| ==> at[k] in at;
    assert forall i :: 0 <= i < |init| ==> more[i] == init[i];
    forall i: nat ensures i in after <==>
      i < |more| && more[i] != "" && more[i] !in subs && forall j :: 0 <= j < i ==> more[j] != more[i]
    {
      assert i in after <==> i in at || (i == |init| && last != "" && last !in subs && last !in init);
      if i < |init| {
        assert more[i] == init[i] && forall j :: 0 <= j < i ==> more[j] == init[j];
      }
    }
  }

  predicate Within(at: seq<nat>, n: nat) { forall k :: 0 <= k < |at| ==> at[k] < n }

  /** The members of a list at the given positions. */
  function Picked(more: seq<string>, at: seq<nat>): seq<string>
    requires Within(at, |more|)
  {
    seq(|at|, k requires 0 <= k < |at| => more[at[k]])
  }

  lemma PickedNext(init: seq<string>, last: string, at: seq<nat>)
    requires Within(at, |init|)
    ensures Within(at, |init + [last]|) && Within(at + [|init|], |init + [last]|)
    ensures Picked(init + [last], at) == Picked(init, at)
    ensures Picked(init + [last], at + [|init|]) == Picked(init, at) + [last]
  {
  }

  /** A subscribe keeps the earlier topics in place and adds the new ones in the order of their first mention,
      none of them twice. */
  lemma {:induction false} SubscribedInOrder(subs: seq<string>, more: seq<string>) returns (at: seq<nat>)
    ensures FirstMentions(subs, more, at)
    ensures Within(at, |more|) && SubscribedAll(subs, more) == subs + Picked(more, at)
  {
    hide SubscribedAll, FirstMentions, Picked, Within;
    if more == [] {
      at := [];
      NothingSubscribed(subs);
    } else {
      var init, last := more[..|more|-1], more[|more|-1];
      var before := SubscribedInOrder(subs, init);
      assert more == init + [last];
      SubscribedNext(subs, init, last);
      FirstMentionsNext(subs, init, last, before);
      PickedNext(init, last, before);
      Appended(subs, Picked(init, before), last);
      at := if last != "" && last !in subs && last !in init then before + [|init|] else before;
    }
  }

  lemma NothingSubscribed(subs: seq<string>)
    ensures FirstMentions(subs, [], []) && Within([], 0) && SubscribedAll(subs, []) == subs + Picked([], [])
  {
  }

  lemma Appended(a: seq<string>, b: seq<string>, last: string)
    ensures a + (b + [last]) == a + b + [last]
  {
  }

  lemma SubscribedNext(subs: seq<string>, init: seq<string>, last: string)
    ensures SubscribedAll(subs, init + [last]) ==
      if last != "" && last !in subs && last !in init then SubscribedAll(subs, init) + [last]
      else SubscribedAll(subs, init)
  {
    assert (init + [last])[..|init|] == init;
  }

  class Client {
    const id: string
    var subs: seq<string>
    var store: map<string, StoreValue>
    var channel: seq<Message>
    var discarded: bool

    function View(): ClientState
      reads this
    {
      ClientState(id, subs, store, channel, discarded)
    }

    constructor (id: string, ip: string)
      ensures View() == ClientState(id, [], map[IP_KEY := IP(ip)], [], false)
    {
      this.id := id;
      subs, channel, discarded := [], [], false;
      store := map[IP_KEY := IP(ip)];
    }

    method Set(key: string, value: StoreValue)
      modifies this`store
      ensures store == old(store)[key := value]
    {
      store := store[key := value];
    }

    method Unset(key: string)
      modifies this`store
      ensures store == old(store) - {key}
    {
      store := store - {key};
    }

    method Send(m: Message)
      modifies this`channel
      ensures channel == if discarded then old(channel) else old(channel) + [m]
    {
      if discarded { return; }
      channel := channel + [m];
    }

    method Subscribe(more: seq<string>)
      modifies this`subs
      ensures subs == SubscribedAll(old(subs), more)
    {
      for i := 0 to |more|
        invariant subs == SubscribedAll(old(subs), more[..i])
      {
        assert more[..i+1][..i] == more[..i];
        if more[i] != "" && more[i] !in subs {
          subs := subs + [more[i]];
        }
      }
      assert more[..|more|] == more;
    }

    method UnsubscribeAll()
      modifies this`subs
      ensures subs == []
    {
      subs := [];
    }
  }
}
