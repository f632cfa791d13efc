/** Logins that interleave: a login's session record is loaded when its request arrives, its lookups are made
    when the provider has answered, and its transaction runs after that; other logins and verifications may
    run between these steps. */
module OAuth2Interleaving {
  import opened Wrappers
  import opened OAuth2Links

  /** A request that waits for the provider, with its session record as loaded. */
  datatype Arrival = Arrival(login: Login, loaded: Option<Record>)

  /** A login whose lookups are done. */
  datatype Pending = Pending(login: Login, target: Target)

  datatype State = State(db: Db, arrived: seq<Arrival>, pending: seq<Pending>)

  datatype Event = Arrive(login: Login) | Begin(a: nat) | Finish(k: nat) | Confirm(key: Key)

  function Transacted(db: Db, p: Pending): Db {
    var outcome := Submit(db, p.login, p.target);
    if outcome.SignedIn? then outcome.db else db
  }

  ghost function LookedUp(db: Db, a: Arrival): Pending { Pending(a.login, ResolveWith(db, a.login, a.loaded)) }

  ghost function Next(s: State, e: Event): State {
    match e
    case Arrive(login) => s.(arrived := s.arrived + [Arrival(login, LoadedSession(s.db, login))])
    case Begin(a) =>
      if a >= |s.arrived| then s
      else s.(arrived := s.arrived[..a] + s.arrived[a+1..], pending := s.pending + [LookedUp(s.db, s.arrived[a])])
    case Finish(k) =>
      if k >= |s.pending| then s
      else s.(db := Transacted(s.db, s.pending[k]), pending := s.pending[..k] + s.pending[k+1..])
    case Confirm(key) => s.(db := OAuth2Links.Next(s.db, Verify(key)))
  }

  ghost function Run(s: State, events: seq<Event>): State {
    if events == [] then s else Next(Run(s, events[..|events|-1]), events[|events|-1])
  }

  // ---------------------------------------------------------------- stale snapshots

  /** Nothing rolls the transaction for an existing record back. */
  predicate Commits(db: Db, login: Login, key: Key, snapshot: Record, link: Option<Link>) {
    && !login.rejected
    && !(NeedsSave(login, key, snapshot) && EmailTaken(db.records, key, Adopted(login, key, snapshot).email))
    && ((snapshot.verified && link.Some?)
        || !LinkRefused(if snapshot.verified then db.links else db.links - LinksOf(db.links, key), LinkFor(login, key)))
  }

  /** A committed transaction whose snapshot is older than the verification of its record, and which either
      writes the record back unverified or finds a link of it other than the login's own. */
  predicate Undoes(db: Db, p: Pending, key: Key) {
    && p.target.Existing? && p.target.key == key && key in db.records && db.records[key].verified
    && !p.target.snapshot.verified && Commits(db, p.login, key, p.target.snapshot, p.target.link)
    && (|| (NeedsSave(p.login, key, p.target.snapshot) && !Adopted(p.login, key, p.target.snapshot).verified)
        || exists l :: l in db.links && l.owner == key && l != LinkFor(p.login, key))
  }

  predicate UndoesAt(s: State, e: Event, key: Key) {
    e.Finish? && e.k < |s.pending| && Undoes(s.db, s.pending[e.k], key)
  }

  predicate Unsafe(s: State, e: Event) {
    e.Finish? && e.k < |s.pending| && s.pending[e.k].target.Existing? && UndoesAt(s, e, s.pending[e.k].target.key)
  }

  lemma CommitsIsSignedIn(db: Db, login: Login, key: Key, snapshot: Record, link: Option<Link>)
    ensures Submit(db, login, Existing(key, snapshot, link)).SignedIn? <==> Commits(db, login, key, snapshot, link)
  {
    var cleared := db.links - LinksOf(db.links, key);
    assert cleared - LinksOf(cleared, key) == cleared;
  }

  /** What a committed transaction with any snapshot leaves of a verified record: it turns unverified exactly
      when the snapshot has to be saved and is not verified then, and it loses a link exactly when the
      snapshot was unverified and the record has a link other than the one the transaction adds. */
  lemma {:induction false} StaleSnapshotUndoesExactlyWhen(db: Db, login: Login, key: Key, snapshot: Record,
                                                          link: Option<Link>)
    requires key in db.records && db.records[key].verified
    requires Submit(db, login, Existing(key, snapshot, link)).SignedIn?
    ensures var after := Submit(db, login, Existing(key, snapshot, link)).db;
      && key in after.records
      && (!after.records[key].verified <==> NeedsSave(login, key, snapshot) && !Adopted(login, key, snapshot).verified)
      && (!(LinksOf(db.links, key) <= LinksOf(after.links, key)) <==>
            !snapshot.verified && exists l :: l in db.links && l.owner == key && l != LinkFor(login, key))
  {
    var after := Submit(db, login, Existing(key, snapshot, link)).db;
    var cleared := db.links - LinksOf(db.links, key);
    if snapshot.verified {
      assert db.links <= after.links;
    } else {
      assert cleared - LinksOf(cleared, key) == cleared;
      assert after.links == cleared + {LinkFor(login, key)};
      if l :| l in db.links && l.owner == key && l != LinkFor(login, key) {
        assert l in LinksOf(db.links, key) && l !in LinksOf(after.links, key);
      }
    }
  }

  // ---------------------------------------------------------------- the invariant while nothing is undone

  /** A pending login has seen a record that exists, and what it saw verified still is, with its link. */
  ghost predicate Holds(db: Db, p: Pending) {
    p.target.Existing? ==>
      && p.target.key in db.records
      && (p.target.snapshot.verified ==> db.records[p.target.key].verified)
      && (p.target.link.Some? ==> p.target.link.value == LinkFor(p.login, p.target.key))
      && (p.target.link.Some? && p.target.snapshot.verified ==> p.target.link.value in db.links)
  }

  /** The session of an arrived request, as the login that would adopt it. */
  function SessionOf(a: Arrival): Pending {
    Pending(a.login,
            if a.loaded.Some? && a.login.session.Some? then Existing(a.login.session.value, a.loaded.value, None)
              else Missing)
  }

  ghost predicate Inv(s: State) {
    && OAuth2Links.Inv(s.db)
    && (forall p :: p in s.pending ==> Holds(s.db, p))
    && (forall a :: a in s.arrived ==> Holds(s.db, SessionOf(a)))
  }

  lemma StaleAdoptKeeps(db: Db, login: Login, key: Key, snapshot: Record, link: Option<Link>)
    requires OAuth2Links.Inv(db) && key in db.records && (snapshot.verified ==> db.records[key].verified)
    requires Adopt(db, login, key, snapshot, link).Some?
    ensures OAuth2Links.Inv(Adopt(db, login, key, snapshot, link).value)
  {
    var r := Adopted(login, key, snapshot);
    ClearedKeeps(db, key);
    var cleared := if snapshot.verified then db else db.(links := db.links - LinksOf(db.links, key));
    var saved := cleared;
    if NeedsSave(login, key, snapshot) {
      SaveRecordKeeps(cleared, key, Some(snapshot), r);
      saved := SaveRecord(cleared, key, Some(snapshot), r).value;
      assert !snapshot.verified ==> LinksOf(saved.links, key) == {};
    }
    hide OAuth2Links.Inv;
    if !(snapshot.verified && link.Some?) { SaveLinkKeeps(saved, LinkFor(login, key)); }
  }

  lemma TransactedKeepsInv(db: Db, p: Pending)
    requires OAuth2Links.Inv(db) && Holds(db, p)
    ensures OAuth2Links.Inv(Transacted(db, p))
    ensures db.records.Keys <= Transacted(db, p).records.Keys
  {
    hide OAuth2Links.Inv, Adopt, Create;
    if Submit(db, p.login, p.target).SignedIn? {
      if p.target.Missing? {
        CreateKeeps(db, p.login);
        CreateLinks(db, p.login);
      } else {
        StaleAdoptKeeps(db, p.login, p.target.key, p.target.snapshot, p.target.link);
        AdoptKeepsKeys(db, p.login, p.target.key, p.target.snapshot, p.target.link);
      }
    }
  }

  lemma AdoptKeepsKeys(db: Db, login: Login, key: Key, snapshot: Record, link: Option<Link>)
    requires Adopt(db, login, key, snapshot, link).Some?
    ensures var d := Adopt(db, login, key, snapshot, link).value;
      && db.records.Keys <= d.records.Keys
      && (forall k :: k in db.records && k != key ==> d.records[k] == db.records[k])
      && (forall l :: l in db.links && l.owner != key ==> l in d.links)
  {
  }

  /** A step keeps a verified record verified, with its links, exactly unless it undoes the record. */
  lemma StepKeepsExactlyWhen(s: State, e: Event, key: Key)
    requires Inv(s) && key in s.db.records && s.db.records[key].verified
    ensures KeepsVerified(s.db, Next(s, e).db, key) <==> !UndoesAt(s, e, key)
  {
    hide Submit, OAuth2Links.Inv, ResolveWith, Commits;
    match e
    case Arrive(_) =>
    case Begin(_) =>
    case Confirm(k) => NextKeepsVerified(s.db, Verify(k), key);
    case Finish(k) =>
      if k < |s.pending| { TransactedKeepsExactlyWhen(s.db, s.pending[k], key); }
  }

  lemma TransactedKeepsExactlyWhen(db: Db, p: Pending, key: Key)
    requires OAuth2Links.Inv(db) && Holds(db, p) && key in db.records && db.records[key].verified
    ensures KeepsVerified(db, Transacted(db, p), key) <==> !Undoes(db, p, key)
  {
    hide OAuth2Links.Inv, Adopt, Create, Commits, NeedsSave, Adopted;
    if p.target.Existing? {
      CommitsIsSignedIn(db, p.login, p.target.key, p.target.snapshot, p.target.link);
    }
    if Submit(db, p.login, p.target).SignedIn? {
      if p.target.Missing? {
        CreateKeepsVerified(db, p.login, key);
      } else if p.target.key != key {
        AdoptKeepsKeys(db, p.login, p.target.key, p.target.snapshot, p.target.link);
      } else {
        SnapshotVerifiedStays(db, p.login, key, p.target.snapshot);
        StaleSnapshotUndoesExactlyWhen(db, p.login, key, p.target.snapshot, p.target.link);
      }
    }
  }

  lemma SnapshotVerifiedStays(db: Db, login: Login, key: Key, snapshot: Record)
    ensures snapshot.verified ==> Adopted(login, key, snapshot).verified
  {
  }

  lemma StepKeepsInv(s: State, e: Event)
    requires Inv(s) && !Unsafe(s, e)
    ensures Inv(Next(s, e))
  {
    hide Submit, OAuth2Links.Inv, ResolveWith, Commits, Undoes, KeepsVerified, Holds;
    var t := Next(s, e);
    match e
    case Arrive(login) => ArriveHolds(s.db, login);
    case Begin(a) => if a < |s.arrived| { BeginHolds(s.db, s.arrived[a]); }
    case Confirm(k) =>
      NextKeepsInv(s.db, Verify(k));
      ConfirmKeepsKeys(s.db, k);
      AllHoldOn(s, e);
    case Finish(k) =>
      if k < |s.pending| {
        TransactedKeepsInv(s.db, s.pending[k]);
        AllHoldOn(s, e);
      }
  }

  lemma ArriveHolds(db: Db, login: Login)
    ensures Holds(db, SessionOf(Arrival(login, LoadedSession(db, login))))
  {
  }

  lemma BeginHolds(db: Db, a: Arrival)
    requires Holds(db, SessionOf(a))
    ensures Holds(db, LookedUp(db, a))
  {
    hide ResolveWith, FindLink;
    LookupsFind(db, a.login, a.loaded);
  }

  lemma AllHoldOn(s: State, e: Event)
    requires Inv(s) && !Unsafe(s, e) && s.db.records.Keys <= Next(s, e).db.records.Keys
    ensures forall p :: p in s.pending ==> Holds(Next(s, e).db, p)
    ensures forall a :: a in s.arrived ==> Holds(Next(s, e).db, SessionOf(a))
  {
    hide Next, Holds, Unsafe;
    forall p | p in s.pending ensures Holds(Next(s, e).db, p) { HoldsOn(s, e, p); }
    forall a | a in s.arrived ensures Holds(Next(s, e).db, SessionOf(a)) { HoldsOn(s, e, SessionOf(a)); }
  }

  lemma ConfirmKeepsKeys(db: Db, key: Key)
    ensures db.records.Keys <= OAuth2Links.Next(db, Verify(key)).records.Keys
  {
  }

  lemma HoldsOn(s: State, e: Event, p: Pending)
    requires Inv(s) && Holds(s.db, p) && !Unsafe(s, e) && s.db.records.Keys <= Next(s, e).db.records.Keys
    ensures Holds(Next(s, e).db, p)
  {
    hide Next, OAuth2Links.Inv, Commits;
    if p.target.Existing? && p.target.snapshot.verified {
      var key := p.target.key;
      StepKeepsExactlyWhen(s, e, key);
      if p.target.link.Some? { assert p.target.link.value in LinksOf(s.db.links, key); }
    }
  }

  // ---------------------------------------------------------------- every interleaving

  /** Verified records are verified after, with their links. */
  ghost predicate Kept(before: Db, after: Db) {
    forall key :: key in before.records && before.records[key].verified ==> KeepsVerified(before, after, key)
  }

  ghost predicate KeptAt(s: State, events: seq<Event>, i: nat)
    requires i < |events|
  {
    Kept(Run(s, events[..i]).db, Run(s, events[..i+1]).db)
  }

  ghost predicate AllKept(s: State, events: seq<Event>) {
    forall i :: 0 <= i < |events| ==> KeptAt(s, events, i)
  }

  ghost predicate NoneUnsafe(s: State, events: seq<Event>) {
    forall i :: 0 <= i < |events| ==> !Unsafe(Run(s, events[..i]), events[i])
  }

  /** Over every interleaving of lookups, transactions and verifications: no step ever turns a verified
      record unverified or takes a link from one, if and only if no transaction undoes a verification with
      an unverified snapshot; and while none does, the link invariants hold, verified records stay verified
      and keep their links. */
  lemma {:induction false} VerifiedIsFinalExactlyWhile(s: State, events: seq<Event>)
    requires Inv(s)
    ensures AllKept(s, events) <==> NoneUnsafe(s, events)
    ensures NoneUnsafe(s, events) ==> Inv(Run(s, events))
    ensures NoneUnsafe(s, events) ==> Kept(s.db, Run(s, events).db)
    decreases |events|
  {
    hide Next, Inv, Unsafe, AllKept, NoneUnsafe;
    if events == [] {
      Nothing(s);
    } else {
      var init, last := events[..|events|-1], events[|events|-1];
      VerifiedIsFinalExactlyWhile(s, init);
      LastEvent(s, events);
      if NoneUnsafe(s, init) {
        LastKeptExactlyWhen(Run(s, init), last);
        if !Unsafe(Run(s, init), last) { StepKeepsInv(Run(s, init), last); }
      }
    }
  }

  lemma Nothing(s: State)
    ensures AllKept(s, []) && NoneUnsafe(s, [])
  {
  }

  lemma LastEvent(s: State, events: seq<Event>)
    requires events != []
    ensures var init, last := events[..|events|-1], events[|events|-1];
      && (NoneUnsafe(s, events) <==> NoneUnsafe(s, init) && !Unsafe(Run(s, init), last))
      && (AllKept(s, events) <==> AllKept(s, init) && Kept(Run(s, init).db, Run(s, events).db))
      && Run(s, events) == Next(Run(s, init), last)
  {
    hide Next, NoneUnsafe, AllKept;
    LastUnsafe(s, events);
    LastKept(s, events);
  }

  lemma LastUnsafe(s: State, events: seq<Event>)
    requires events != []
    ensures var init, last := events[..|events|-1], events[|events|-1];
      NoneUnsafe(s, events) <==> NoneUnsafe(s, init) && !Unsafe(Run(s, init), last)
  {
    hide Run, Unsafe;
    var init := events[..|events|-1];
    assert forall i :: 0 <= i < |events| ==> init[..i] == events[..i];
  }

  lemma LastKept(s: State, events: seq<Event>)
    requires events != []
    ensures var init := events[..|events|-1];
      AllKept(s, events) <==> AllKept(s, init) && Kept(Run(s, init).db, Run(s, events).db)
  {
    hide KeptAt, Kept, Run;
    var init := events[..|events|-1];
    forall i | 0 <= i < |init| ensures KeptAt(s, init, i) == KeptAt(s, events, i) { KeptAtPrefix(s, events, i); }
    KeptAtEnd(s, events);
  }

  lemma KeptAtPrefix(s: State, events: seq<Event>, i: nat)
    requires i < |events| - 1
    ensures KeptAt(s, events[..|events|-1], i) == KeptAt(s, events, i)
  {
    hide Kept, Run;
    assert events[..|events|-1][..i] == events[..i] && events[..|events|-1][..i+1] == events[..i+1];
  }

  lemma KeptAtEnd(s: State, events: seq<Event>)
    requires events != []
    ensures KeptAt(s, events, |events| - 1) == Kept(Run(s, events[..|events|-1]).db, Run(s, events).db)
  {
    hide Kept, Run;
    assert events[..|events|-1+1] == events;
  }

  lemma LastKeptExactlyWhen(s: State, e: Event)
    requires Inv(s)
    ensures Kept(s.db, Next(s, e).db) <==> !Unsafe(s, e)
  {
    hide Next, KeepsVerified, Undoes;
    forall key | key in s.db.records && s.db.records[key].verified
      ensures KeepsVerified(s.db, Next(s, e).db, key) <==> !UndoesAt(s, e, key)
    {
      StepKeepsExactlyWhen(s, e, key);
    }
    UndoesOnlyItsTarget(s, e);
  }

  lemma UndoesOnlyItsTarget(s: State, e: Event)
    ensures forall key :: UndoesAt(s, e, key) ==> Unsafe(s, e) && key in s.db.records && s.db.records[key].verified
    ensures Unsafe(s, e) ==> UndoesAt(s, e, s.pending[e.k].target.key)
  {
  }

  // ---------------------------------------------------------------- where links come from

  /** What the lookups of a login found gives its link a reason. */
  ghost predicate EarnedAtLookup(p: Pending, l: Link) {
    && l == LinkFor(p.login, l.owner)
    && (|| (p.target.Missing? && l.owner == NewKey(p.login))
        || (p.target.Existing? && l.owner == p.target.key
            && (p.login.session == Some(l.owner)
                || (p.login.user.email != "" && p.target.snapshot.email == p.login.user.email))))
  }

  /** The lookups found the very link, on a record that was not verified then. */
  ghost predicate Resurrects(p: Pending, l: Link) {
    p.target.Existing? && p.target.link == Some(l) && !p.target.snapshot.verified
  }

  ghost predicate Reasoned(p: Pending) {
    p.target.Existing? ==>
      && (p.target.link.Some? ==> p.target.link.value == LinkFor(p.login, p.target.key))
      && (p.target.link.None? ==>
            p.login.session == Some(p.target.key)
            || (p.login.user.email != "" && p.target.snapshot.email == p.login.user.email))
  }

  ghost predicate AddsLink(s: State, e: Event, l: Link) {
    e.Finish? && e.k < |s.pending| && (EarnedAtLookup(s.pending[e.k], l) || Resurrects(s.pending[e.k], l))
  }

  ghost predicate AllReasoned(s: State) { forall p :: p in s.pending ==> Reasoned(p) }

  lemma StepReasons(s: State, e: Event, l: Link)
    requires AllReasoned(s)
    ensures AllReasoned(Next(s, e))
    ensures l in Next(s, e).db.links && l !in s.db.links ==> AddsLink(s, e, l)
  {
    hide ResolveWith, FindLink, SameSlot, LinkRefused, Reasoned;
    match e
    case Arrive(_) =>
    case Begin(a) => if a < |s.arrived| { LookedUpReasoned(s.db, s.arrived[a]); }
    case Confirm(_) =>
    case Finish(k) =>
      if k < |s.pending| {
        var p := s.pending[k];
        assert Reasoned(p);
        if l in Next(s, e).db.links && l !in s.db.links { TransactedAdds(s.db, p, l); }
      }
  }

  lemma LookedUpReasoned(db: Db, a: Arrival)
    ensures Reasoned(LookedUp(db, a))
  {
    hide ResolveWith, FindLink;
    LookupsFind(db, a.login, a.loaded);
  }

  lemma TransactedAdds(db: Db, p: Pending, l: Link)
    requires Reasoned(p) && l in Transacted(db, p).links && l !in db.links
    ensures EarnedAtLookup(p, l) || Resurrects(p, l)
  {
    hide LinkRefused, EmailTaken;
  }

  /** Some step of the run adds the link. */
  ghost predicate AddedIn(s: State, events: seq<Event>, l: Link) {
    exists i :: 0 <= i < |events| && AddsLink(Run(s, events[..i]), events[i], l)
  }

  /** Over every interleaving, from any state with logins under way, each link was there at the start, or was
      added by a transaction whose lookups had earned it or had found that same link on a record unverified
      then. */
  lemma {:induction false} LinksAreEarnedOrResurrected(s: State, events: seq<Event>, l: Link)
    requires AllReasoned(s)
    ensures AllReasoned(Run(s, events))
    ensures l in Run(s, events).db.links && l !in s.db.links ==> AddedIn(s, events, l)
    decreases |events|
  {
    hide Next, AddsLink, Reasoned, AllReasoned;
    if events == [] {
    } else {
      var init, last := events[..|events|-1], events[|events|-1];
      LinksAreEarnedOrResurrected(s, init, l);
      StepReasons(Run(s, init), last, l);
      assert forall i :: 0 <= i < |events| ==> init[..i] == events[..i];
      if l in Run(s, events).db.links && l !in s.db.links && l in Run(s, init).db.links {
        var i :| 0 <= i < |init| && AddsLink(Run(s, init[..i]), init[i], l);
        assert AddsLink(Run(s, events[..i]), events[i], l);
      }
    }
  }

  /** The step that verifies a record leaves it no link but one that this very step adds. */
  lemma VerifyDrops(s: State, e: Event, key: Key, l: Link)
    requires Inv(s) && AllReasoned(s) && key in s.db.records && !s.db.records[key].verified
    requires key in Next(s, e).db.records && Next(s, e).db.records[key].verified
    requires l.owner == key && l in Next(s, e).db.links
    ensures AddsLink(s, e, l)
  {
    hide OAuth2Links.Inv, Submit, ResolveWith, Holds, Reasoned, EarnedAtLookup;
    match e
    case Arrive(_) => assert false;
    case Begin(_) => assert false;
    case Confirm(k) => ConfirmDrops(s.db, k, key);
    case Finish(k) => TransactedDrops(s.db, s.pending[k], key, l);
  }

  lemma ConfirmDrops(db: Db, k: Key, key: Key)
    requires key in db.records && !db.records[key].verified
    ensures var d := OAuth2Links.Next(db, Verify(k));
      key in d.records && d.records[key].verified ==> forall l :: l in d.links ==> l.owner != key
  {
  }

  lemma TransactedDrops(db: Db, p: Pending, key: Key, l: Link)
    requires OAuth2Links.Inv(db) && Holds(db, p) && Reasoned(p) && key in db.records && !db.records[key].verified
    requires key in Transacted(db, p).records && Transacted(db, p).records[key].verified
    requires l.owner == key && l in Transacted(db, p).links
    ensures EarnedAtLookup(p, l) || Resurrects(p, l)
  {
    hide OAuth2Links.Inv, Adopt, Create;
    if p.target.Missing? {
      CreateLinks(db, p.login);
    } else if p.target.key != key {
      AdoptKeepsKeys(db, p.login, p.target.key, p.target.snapshot, p.target.link);
    } else {
      AdoptedLinks(db, p.login, key, p.target.snapshot, p.target.link);
    }
  }

  /** A committed transaction with an unverified snapshot leaves the record its own link alone. */
  lemma AdoptedLinks(db: Db, login: Login, key: Key, snapshot: Record, link: Option<Link>)
    requires !snapshot.verified && Adopt(db, login, key, snapshot, link).Some?
    ensures LinksOf(Adopt(db, login, key, snapshot, link).value.links, key) == {LinkFor(login, key)}
    ensures forall l :: l in Adopt(db, login, key, snapshot, link).value.links && l.owner == key ==>
      l == LinkFor(login, key)
  {
    var cleared := db.links - LinksOf(db.links, key);
    assert cleared - LinksOf(cleared, key) == cleared;
  }

  /** Over every interleaving, whatever was linked to a record before the step that verified it is gone for
      good, unless that step or a later one adds it: earned at its lookups, or found by them on the record
      while it was unverified. */
  lemma {:induction false} EarlierLinksAreDroppedUnlessAdded(s: State, e: Event, events: seq<Event>, key: Key, l: Link)
    requires Inv(s) && AllReasoned(s) && key in s.db.records && !s.db.records[key].verified
    requires key in Next(s, e).db.records && Next(s, e).db.records[key].verified
    requires l.owner == key && l in Run(Next(s, e), events).db.links
    ensures AddsLink(s, e, l) || AddedIn(Next(s, e), events, l)
  {
    hide Next, Run, Inv, AllReasoned, AddsLink, AddedIn;
    StepReasons(s, e, l);
    if l in Next(s, e).db.links {
      VerifyDrops(s, e, key, l);
    } else {
      LinksAreEarnedOrResurrected(Next(s, e), events, l);
    }
  }

  // ---------------------------------------------------------------- whom a login signs in as

  /** The request of this arrival came at event `i`, and its session record was loaded then. */
  ghost predicate ArrivedAt(s: State, events: seq<Event>, a: Arrival, i: int) {
    0 <= i < |events| && events[i] == Arrive(a.login) && a.loaded == LoadedSession(Run(s, events[..i]).db, a.login)
  }

  /** The lookups of this login were made at event `j`, for a request that came at event `i`. */
  ghost predicate LookedUpAt(s: State, events: seq<Event>, p: Pending, i: int, j: int) {
    && 0 <= i < j < |events| && events[i] == Arrive(p.login) && events[j].Begin?
    && p.target == ResolveWith(Run(s, events[..j]).db, p.login, LoadedSession(Run(s, events[..i]).db, p.login))
  }

  ghost predicate AllTraced(s: State, events: seq<Event>) {
    && (forall a :: a in Run(s, events).arrived ==> exists i :: ArrivedAt(s, events, a, i))
    && (forall p :: p in Run(s, events).pending ==> exists i, j :: LookedUpAt(s, events, p, i, j))
  }

  lemma TracedLonger(s: State, events: seq<Event>, e: Event)
    ensures forall a, i :: ArrivedAt(s, events, a, i) ==> ArrivedAt(s, events + [e], a, i)
    ensures forall p, i, j :: LookedUpAt(s, events, p, i, j) ==> LookedUpAt(s, events + [e], p, i, j)
  {
    hide Run, LoadedSession, ResolveWith;
    assert forall i :: 0 <= i < |events| ==> (events + [e])[..i] == events[..i];
  }

  /** What an event adds to the requests that wait for their provider and to the logins looked up. */
  lemma Additions(s: State, e: Event)
    ensures forall a :: a in Next(s, e).arrived ==>
      a in s.arrived || (e.Arrive? && a == Arrival(e.login, LoadedSession(s.db, e.login)))
    ensures forall p :: p in Next(s, e).pending ==>
      p in s.pending || (e.Begin? && e.a < |s.arrived| && p == LookedUp(s.db, s.arrived[e.a]))
  {
    hide LoadedSession, ResolveWith, OAuth2Links.Next, Transacted, LookedUp;
  }

  lemma {:induction false} EveryLoginIsTraced(s: State, events: seq<Event>)
    requires s.arrived == [] && s.pending == []
    ensures AllTraced(s, events)
  {
    hide Next, LoadedSession, ResolveWith, ArrivedAt, LookedUpAt;
    if events == [] {
    } else {
      var init, e := events[..|events|-1], events[|events|-1];
      var t := Run(s, init);
      EveryLoginIsTraced(s, init);
      assert events == init + [e];
      TracedLonger(s, init, e);
      Additions(t, e);
      forall a | a in Run(s, events).arrived ensures exists i :: ArrivedAt(s, events, a, i) {
        if a in t.arrived {
          var i :| ArrivedAt(s, init, a, i);
          assert ArrivedAt(s, events, a, i);
        } else {
          assert ArrivedAt(s, events, a, |init|) by { ArrivesNow(s, events, a); }
        }
      }
      forall p | p in Run(s, events).pending ensures exists i, j :: LookedUpAt(s, events, p, i, j) {
        if p in t.pending {
          var i, j :| LookedUpAt(s, init, p, i, j);
          assert LookedUpAt(s, events, p, i, j);
        } else {
          var a := t.arrived[e.a];
          assert a in t.arrived;
          var i :| ArrivedAt(s, init, a, i);
          assert LookedUpAt(s, events, p, i, |init|) by { LooksUpNow(s, events, a, i); }
        }
      }
    }
  }

  lemma ArrivesNow(s: State, events: seq<Event>, a: Arrival)
    requires events != [] && events[|events|-1] == Arrive(a.login)
    requires a.loaded == LoadedSession(Run(s, events[..|events|-1]).db, a.login)
    ensures ArrivedAt(s, events, a, |events| - 1)
  {
  }

  lemma LooksUpNow(s: State, events: seq<Event>, a: Arrival, i: int)
    requires events != [] && events[|events|-1].Begin? && ArrivedAt(s, events[..|events|-1], a, i)
    ensures LookedUpAt(s, events, LookedUp(Run(s, events[..|events|-1]).db, a), i, |events| - 1)
  {
    hide LoadedSession, ResolveWith, Run;
    assert events[..|events|-1][..i] == events[..i];
  }

  /** Over every interleaving: a login whose request was signed in, when it arrived, as a record of its collection,
      and for whose provider user no link was there at its lookups, is a login as that record as it was then,
      whatever the emails are; if its transaction commits, that record is signed in and linked. */
  lemma {:induction false} SessionSignsInAsItself(s: State, events: seq<Event>, k: nat) returns (i: nat, j: nat)
    requires s.arrived == [] && s.pending == [] && k < |Run(s, events).pending|
    ensures var p := Run(s, events).pending[k];
      i < j < |events| && events[i] == Arrive(p.login) && events[j].Begin?
    ensures var t, p := Run(s, events), Run(s, events).pending[k];
      var arrived, looked, session := Run(s, events[..i]).db, Run(s, events[..j]).db, p.login.session;
      session.Some? && session.value.collection == p.login.collection && session.value in arrived.records
      && (forall l :: l in looked.links ==> !NamesUser(l, p.login)) ==>
        (&& p.target == Existing(session.value, arrived.records[session.value], None)
         && (var outcome := Submit(t.db, p.login, p.target);
             outcome.SignedIn? ==>
               && outcome.key == session.value && Next(t, Finish(k)).db == outcome.db
               && Link(session.value, p.login.provider, p.login.user.id) in outcome.db.links))
  {
    hide Run, ResolveWith;
    EveryLoginIsTraced(s, events);
    var t := Run(s, events);
    var p := t.pending[k];
    assert p in t.pending;
    i, j :| LookedUpAt(s, events, p, i, j);
    var arrived, looked, session := Run(s, events[..i]).db, Run(s, events[..j]).db, p.login.session;
    if session.Some? && session.value.collection == p.login.collection && session.value in arrived.records
      && forall l :: l in looked.links ==> !NamesUser(l, p.login)
    {
      UnlinkedResolution(looked, p.login, LoadedSession(arrived, p.login));
      hide NeedsSave, SaveRecord, Adopted, LinkRefused;
    }
  }

  // ---------------------------------------------------------------- two runs that undo a verification

  const ANN := Key("users", "ann")

  function By(provider: string): Login {
    Login("users", provider, User("7", "ann@x"), None, SignUp(true, "new", "", false, ""), "random", false)
  }

  /** Two first logins of the owner of an unverified record, with both lookups before both transactions:
      the second removes the first one's link from the record the first one verified. */
  lemma {:induction false} InterleavedLoginsLoseALink()
    ensures var db0 := Db(map[ANN := Record("ann@x", false, "set by whoever made it")], {});
      && Resolve(db0, By("google")) == Resolve(db0, By("github")) == Existing(ANN, db0.records[ANN], None)
      && var first := Submit(db0, By("google"), Resolve(db0, By("google")));
      && first.SignedIn? && first.db.records[ANN].verified && first.db.links == {Link(ANN, "google", "7")}
      && var second := Submit(first.db, By("github"), Resolve(db0, By("github")));
      && second.SignedIn? && second.db.links == {Link(ANN, "github", "7")}
  {
    var db0 := Db(map[ANN := Record("ann@x", false, "set by whoever made it")], {});
    assert HasEmail(db0.records, ANN, "users", "ann@x");
    assert LinksOf(db0.links, ANN) == {};
    var first := Submit(db0, By("google"), Existing(ANN, db0.records[ANN], None));
    assert first.SignedIn? && first.db.links == {Link(ANN, "google", "7")};
    assert LinksOf(first.db.links, ANN) == first.db.links;
  }

  const OTHER := Link(ANN, "google", "666")

  /** The user of another link, with another email. */
  const OTHER_LOGIN :=
    Login("users", "google", User("666", "other@x"), None, SignUp(true, "new", "", false, ""), "random", false)

  /** A login that looked its link up before the record was verified, and is finished after: the record is
      unverified again and has the earlier link back. */
  lemma {:induction false} StaleLoginRevertsVerified()
    ensures var db0 := Db(map[ANN := Record("ann@x", false, "p")], {OTHER});
      var s := Run(State(db0, [], []), [Arrive(OTHER_LOGIN), Begin(0), Confirm(ANN)]);
      && s.db == Db(map[ANN := Record("ann@x", true, "p")], {})
      && Next(s, Finish(0)).db == Db(map[ANN := Record("ann@x", false, "random")], {OTHER})
      && Unsafe(s, Finish(0)) && AddsLink(s, Finish(0), OTHER)
  {
    hide Next, Run, Unsafe, AddsLink;
    var db0 := Db(map[ANN := Record("ann@x", false, "p")], {OTHER});
    RunThree(State(db0, [], []), Arrive(OTHER_LOGIN), Begin(0), Confirm(ANN));
    OtherLooksUp(db0);
    OtherIsVerified(db0);
    OtherFinishes(Db(map[ANN := Record("ann@x", true, "p")], {}));
  }

  const OTHER_PENDING := Pending(OTHER_LOGIN, Existing(ANN, Record("ann@x", false, "p"), Some(OTHER)))

  lemma OtherLooksUp(db: Db)
    requires db == Db(map[ANN := Record("ann@x", false, "p")], {OTHER})
    ensures Next(Next(State(db, [], []), Arrive(OTHER_LOGIN)), Begin(0)) == State(db, [], [OTHER_PENDING])
  {
    hide ResolveWith;
    OtherIsFound(db);
    assert Next(State(db, [], []), Arrive(OTHER_LOGIN)) == State(db, [Arrival(OTHER_LOGIN, None)], []);
  }

  lemma OtherIsVerified(db: Db)
    requires db == Db(map[ANN := Record("ann@x", false, "p")], {OTHER})
    ensures Next(State(db, [], [OTHER_PENDING]), Confirm(ANN))
         == State(Db(map[ANN := Record("ann@x", true, "p")], {}), [], [OTHER_PENDING])
  {
    assert LinksOf(db.links, ANN) == {OTHER};
  }

  lemma OtherFinishes(db: Db)
    requires db == Db(map[ANN := Record("ann@x", true, "p")], {})
    ensures var s := State(db, [], [OTHER_PENDING]);
      && Next(s, Finish(0)).db == Db(map[ANN := Record("ann@x", false, "random")], {OTHER})
      && Unsafe(s, Finish(0)) && AddsLink(s, Finish(0), OTHER)
  {
    hide Transacted, Undoes;
    StaleSaveReverts(db);
  }

  lemma OtherIsFound(db: Db)
    requires db == Db(map[ANN := Record("ann@x", false, "p")], {OTHER})
    ensures ResolveWith(db, OTHER_LOGIN, None) == Existing(ANN, db.records[ANN], Some(OTHER))
  {
    assert IsLinkOf(OTHER, OTHER_LOGIN);
  }

  lemma RunThree(s: State, a: Event, b: Event, c: Event)
    ensures Run(s, [a, b, c]) == Next(Next(Next(s, a), b), c)
  {
    hide Next;
    assert [a, b, c][..2] == [a, b] && [a, b][..1] == [a] && [a][..0] == [];
    assert Run(s, [a]) == Next(s, a);
    assert Run(s, [a, b]) == Next(Next(s, a), b);
  }

  lemma StaleSaveReverts(db: Db)
    requires db == Db(map[ANN := Record("ann@x", true, "p")], {})
    ensures var p := Pending(OTHER_LOGIN, Existing(ANN, Record("ann@x", false, "p"), Some(OTHER)));
      && Transacted(db, p) == Db(map[ANN := Record("ann@x", false, "random")], {OTHER})
      && Undoes(db, p, ANN)
  {
    assert LinksOf(db.links, ANN) == {};
  }
}
