/** Signing in through an OAuth2 provider: how a provider user is resolved to an auth record, and the
    transaction that creates or adopts the record and links it to the provider user. */
module OAuth2Links {
  import opened Wrappers

  datatype Key = Key(collection: string, id: string)

  datatype Record = Record(email: string, verified: bool, password: string)

  /** An external auth: the provider user `providerId` of `provider` signs in as `owner`. */
  datatype Link = Link(owner: Key, provider: string, providerId: string)

  datatype Db = Db(records: map<Key, Record>, links: set<Link>)

  const SUPERUSERS := "_superusers"

  // ---------------------------------------------------------------- the tables

  /** The two unique indexes of the links table: (collection, record, provider) and
      (collection, provider, providerId). */
  predicate SameSlot(a: Link, b: Link) {
    && a.owner.collection == b.owner.collection && a.provider == b.provider
    && (a.owner == b.owner || a.providerId == b.providerId)
  }

  /** The unique index on the non-empty emails of a collection. */
  predicate EmailTaken(records: map<Key, Record>, key: Key, email: string) {
    email != "" && exists k :: k in records && k != key && k.collection == key.collection && records[k].email == email
  }

  ghost predicate LinksIndexed(links: set<Link>) {
    && (forall l :: l in links ==> l.provider != "" && l.providerId != "")
    && (forall a, b :: a in links && b in links && SameSlot(a, b) ==> a == b)
  }

  ghost predicate EmailsIndexed(records: map<Key, Record>) {
    forall k :: k in records ==> !EmailTaken(records, k, records[k].email)
  }

  function LinksOf(links: set<Link>, key: Key): set<Link> { set l | l in links && l.owner == key }

  predicate Upgrades(original: Option<Record>, record: Record) {
    original.Some? && !original.value.verified && record.verified
  }

  /** Writes a record that was loaded as `original`: turning verified deletes the links of the record. */
  function SaveRecord(db: Db, key: Key, original: Option<Record>, record: Record): Option<Db> {
    if EmailTaken(db.records, key, record.email) then None
    else Some(Db(db.records[key := record],
                 if Upgrades(original, record) then db.links - LinksOf(db.links, key) else db.links))
  }

  predicate LinkRefused(links: set<Link>, link: Link) {
    link.provider == "" || link.providerId == "" || exists l :: l in links && SameSlot(l, link)
  }

  function SaveLink(db: Db, link: Link): Option<Db> {
    if LinkRefused(db.links, link) then None else Some(db.(links := db.links + {link}))
  }

  // ---------------------------------------------------------------- one login

  datatype User = User(id: string, email: string)

  /** What the create request of an unknown user would store, and whether its rules allow it. */
  datatype SignUp = SignUp(allowed: bool, id: string, email: string, verified: bool, password: string)

  /** `session` is the auth record of the request; `rejected` stands for a failure of any hook or validator
      inside the transaction. */
  datatype Login = Login(
    collection: string, provider: string, user: User, session: Option<Key>,
    signUp: SignUp, randomPassword: string, rejected: bool)

  /** The outcome of the lookups; an existing record comes with the snapshot that was loaded. */
  datatype Target = Existing(key: Key, snapshot: Record, link: Option<Link>) | Missing | Broken

  predicate IsLinkOf(l: Link, login: Login) {
    && l.owner.collection == login.collection && l.provider == login.provider
    && l.providerId == login.user.id && l.providerId != ""
  }

  ghost function FindLink(links: set<Link>, login: Login): Option<Link> {
    if exists l :: l in links && IsLinkOf(l, login)
    then var l :| l in links && IsLinkOf(l, login); Some(l)
    else None
  }

  predicate HasEmail(records: map<Key, Record>, k: Key, collection: string, email: string) {
    k in records && k.collection == collection && records[k].email == email
  }

  ghost function FindByEmail(records: map<Key, Record>, collection: string, email: string): Option<Key> {
    if exists k :: HasEmail(records, k, collection, email)
    then var k :| HasEmail(records, k, collection, email); Some(k)
    else None
  }

  predicate SessionApplies(records: map<Key, Record>, login: Login) {
    login.session.Some? && login.session.value.collection == login.collection && login.session.value in records
  }

  /** The auth record of the request, as it is loaded when the request arrives. */
  function LoadedSession(db: Db, login: Login): Option<Record> {
    if SessionApplies(db.records, login) then Some(db.records[login.session.value]) else None
  }

  /** The link decides; without one the session record as loaded; without one the email. */
  ghost function ResolveWith(db: Db, login: Login, loaded: Option<Record>): Target {
    match FindLink(db.links, login)
    case Some(l) => if l.owner in db.records then Existing(l.owner, db.records[l.owner], Some(l)) else Broken
    case None =>
      if loaded.Some? && login.session.Some? then Existing(login.session.value, loaded.value, None)
      else if login.user.email == "" then Missing
      else match FindByEmail(db.records, login.collection, login.user.email)
        case Some(k) => Existing(k, db.records[k], None)
        case None => Missing
  }

  ghost function Resolve(db: Db, login: Login): Target { ResolveWith(db, login, LoadedSession(db, login)) }

  /** The record as the transaction leaves it. */
  function Adopted(login: Login, key: Key, r: Record): Record {
    var email := if r.email == "" then login.user.email else r.email;
    Record(email,
           r.verified || email == "" || email == login.user.email,
           if login.session != Some(key) && !r.verified then login.randomPassword else r.password)
  }

  predicate NeedsSave(login: Login, key: Key, r: Record) {
    || (login.session != Some(key) && !r.verified)
    || (r.email == "" && login.user.email != "")
    || (!r.verified && Adopted(login, key, r).verified)
  }

  function LinkFor(login: Login, key: Key): Link { Link(key, login.provider, login.user.id) }

  /** The transaction for an existing record; None is a rollback. */
  function Adopt(db: Db, login: Login, key: Key, snapshot: Record, link: Option<Link>): Option<Db> {
    var cleared := if snapshot.verified then db else db.(links := db.links - LinksOf(db.links, key));
    var saved := if NeedsSave(login, key, snapshot)
      then SaveRecord(cleared, key, Some(snapshot), Adopted(login, key, snapshot))
                 else Some(cleared);
    if saved.None? then None
    else if snapshot.verified && link.Some? then saved
    else SaveLink(saved.value, LinkFor(login, key))
  }

  function NewKey(login: Login): Key { Key(login.collection, login.signUp.id) }

  function NewRecord(login: Login): Record {
    Record(if login.signUp.email == "" then login.user.email
      else login.signUp.email, login.signUp.verified, login.signUp.password)
  }

  /** The transaction for an unknown user; None is a rollback. */
  function Create(db: Db, login: Login): Option<Db> {
    var key, r := NewKey(login), NewRecord(login);
    if login.collection == SUPERUSERS || !login.signUp.allowed || key in db.records then None else
      var created := SaveRecord(db, key, None, r);
      if created.None? then None else
        var saved := if r.email == login.user.email
          && !r.verified then SaveRecord(created.value, key, Some(r), r.(verified := true))
                     else created;
        if saved.None? then None else SaveLink(saved.value, LinkFor(login, key))
  }

  datatype Outcome = SignedIn(db: Db, key: Key) | Failed

  function Submit(db: Db, login: Login, target: Target): Outcome {
    if login.rejected || target.Broken? then Failed
    else if target.Missing? then
      var done := Create(db, login);
      if done.Some? then SignedIn(done.value, NewKey(login)) else Failed
    else
      var done := Adopt(db, login, target.key, target.snapshot, target.link);
      if done.Some? then SignedIn(done.value, target.key) else Failed
  }

  // ---------------------------------------------------------------- the store

  /** The database, and the login on it as the program performs it: the record is changed step by step and
      a failure inside the transaction restores both tables. */
  class Store {
    var records: map<Key, Record>
    var links: set<Link>

    function View(): Db
      reads this
    {
      Db(records, links)
    }

    method DeleteAllLinks(key: Key)
      modifies this`links
      ensures links == old(links) - LinksOf(old(links), key)
    {
      var rest := LinksOf(links, key);
      while rest != {}
        invariant rest == LinksOf(links, key)
        invariant links == old(links) - (LinksOf(old(links), key) - rest)
        decreases |rest|
      {
        var l :| l in rest;
        links, rest := links - {l}, rest - {l};
      }
    }

    method Save(key: Key, original: Option<Record>, record: Record) returns (ok: bool)
      modifies this
      ensures ok == SaveRecord(old(View()), key, original, record).Some?
      ensures View() == if ok then SaveRecord(old(View()), key, original, record).value else old(View())
    {
      if EmailTaken(records, key, record.email) { return false; }
      if original.Some? && !original.value.verified && record.verified { DeleteAllLinks(key); }
      records := records[key := record];
      return true;
    }

    method SaveNewLink(link: Link) returns (ok: bool)
      modifies this`links
      ensures ok == SaveLink(old(View()), link).Some?
      ensures View() == if ok then SaveLink(old(View()), link).value else old(View())
    {
      if LinkRefused(links, link) { return false; }
      links := links + {link};
      return true;
    }

    method Lookup(login: Login, loaded: Option<Record>) returns (target: Target)
      requires LinksIndexed(links) && EmailsIndexed(records)
      ensures target == ResolveWith(View(), login, loaded)
    {
      if l :| l in links && IsLinkOf(l, login) {
        assert forall m :: m in links && IsLinkOf(m, login) ==> SameSlot(m, l);
        return if l.owner in records then Existing(l.owner, records[l.owner], Some(l)) else Broken;
      }
      if loaded.Some? && login.session.Some? { return Existing(login.session.value, loaded.value, None); }
      if login.user.email != "" {
        if k :| k in records && HasEmail(records, k, login.collection, login.user.email) {
          assert !EmailTaken(records, k, records[k].email);
          return Existing(k, records[k], None);
        }
      }
      return Missing;
    }

    method CreateAndLink(login: Login) returns (ok: bool)
      modifies this
      ensures ok == Create(old(View()), login).Some?
      ensures ok ==> View() == Create(old(View()), login).value
    {
      if login.collection == SUPERUSERS || !login.signUp.allowed { return false; }
      var key, record := NewKey(login), NewRecord(login);
      if key in records { return false; }
      ok := Save(key, None, record);
      if !ok { return false; }
      if record.email == login.user.email && !record.verified {
        ok := Save(key, Some(record), record.(verified := true));
        if !ok { return false; }
      }
      ok := SaveNewLink(LinkFor(login, key));
    }

    method AdoptAndLink(login: Login, key: Key, loaded: Record, found: Option<Link>) returns (ok: bool)
      modifies this
      ensures ok == Adopt(old(View()), login, key, loaded, found).Some?
      ensures ok ==> View() == Adopt(old(View()), login, key, loaded, found).value
    {
      var record, link, needUpdate := loaded, found, false;
      if login.session != Some(key) && !record.verified {
        record, needUpdate := record.(password := login.randomPassword), true;
      }
      if !record.verified {
        DeleteAllLinks(key);
        link := None;
      }
      if record.email == "" && login.user.email != "" {
        record, needUpdate := record.(email := login.user.email), true;
      }
      if !record.verified && (record.email == "" || record.email == login.user.email) {
        record, needUpdate := record.(verified := true), true;
      }
      if needUpdate {
        ok := Save(key, Some(loaded), record);
        if !ok { return false; }
      }
      if link.None? {
        ok := SaveNewLink(LinkFor(login, key));
        return ok;
      }
      return true;
    }

    method OAuth2Submit(login: Login, target: Target) returns (signedIn: Option<Key>)
      modifies this
      ensures signedIn.Some? == Submit(old(View()), login, target).SignedIn?
      ensures match signedIn
        case Some(key) => Submit(old(View()), login, target) == SignedIn(View(), key)
        case None => View() == old(View())
    {
      if login.rejected || target.Broken? { return None; }
      var before := View();
      var ok, key;
      if target.Missing? {
        key := NewKey(login);
        ok := CreateAndLink(login);
      } else {
        key := target.key;
        ok := AdoptAndLink(login, key, target.snapshot, target.link);
      }
      if ok { return Some(key); }
      records, links := before.records, before.links;
      return None;
    }
  }

  // ---------------------------------------------------------------- runs

  /** A login, or a record being verified by its emailed token. */
  datatype Step = SignIn(login: Login) | Verify(key: Key)

  ghost function Next(db: Db, step: Step): Db {
    match step
    case SignIn(login) =>
      var outcome := Submit(db, login, Resolve(db, login));
      if outcome.SignedIn? then outcome.db else db
    case Verify(key) =>
      if key !in db.records then db else
        var saved := SaveRecord(db, key, Some(db.records[key]), db.records[key].(verified := true));
        if saved.Some? then saved.value else db
  }

  ghost function Run(db: Db, steps: seq<Step>): Db {
    if steps == [] then db else Next(Run(db, steps[..|steps|-1]), steps[|steps|-1])
  }

  // ---------------------------------------------------------------- the invariant

  ghost predicate OwnersExist(db: Db) { forall l :: l in db.links ==> l.owner in db.records }

  /** An unverified record has at most one link. */
  ghost predicate OneLinkUntilVerified(db: Db) {
    forall a, b :: a in db.links && b in db.links && a.owner == b.owner ==>
      a == b || (a.owner in db.records && db.records[a.owner].verified)
  }

  ghost predicate Inv(db: Db) {
    LinksIndexed(db.links) && EmailsIndexed(db.records) && OwnersExist(db) && OneLinkUntilVerified(db)
  }

  lemma SaveRecordKeeps(db: Db, key: Key, original: Option<Record>, record: Record)
    requires Inv(db) && SaveRecord(db, key, original, record).Some?
    requires record.verified || LinksOf(db.links, key) == {} || (key in db.records && !db.records[key].verified)
    ensures Inv(SaveRecord(db, key, original, record).value)
  {
    EmailsAfter(db.records, key, record);
    assert forall l :: l in db.links && l.owner == key ==> l in LinksOf(db.links, key);
  }

  lemma EmailsAfter(records: map<Key, Record>, key: Key, record: Record)
    requires EmailsIndexed(records) && !EmailTaken(records, key, record.email)
    ensures EmailsIndexed(records[key := record])
  {
    var after := records[key := record];
    assert forall k :: k in records && k != key && EmailTaken(after, k, records[k].email) ==>
      EmailTaken(records, k, records[k].email) || record.email == records[k].email;
  }

  lemma SaveLinkKeeps(db: Db, link: Link)
    requires Inv(db) && link.owner in db.records && SaveLink(db, link).Some?
    requires db.records[link.owner].verified || LinksOf(db.links, link.owner) == {}
    ensures Inv(SaveLink(db, link).value)
  {
    var d := SaveLink(db, link).value;
    assert forall l :: l in db.links ==> !SameSlot(l, link);
    forall a, b | a in d.links && b in d.links && SameSlot(a, b) ensures a == b {
      if a == link && b != link { assert SameSlot(b, link); }
    }
    assert forall l :: l in db.links && l.owner == link.owner ==> l in LinksOf(db.links, link.owner);
  }

  lemma CreateKeeps(db: Db, login: Login)
    requires Inv(db) && Create(db, login).Some?
    ensures Inv(Create(db, login).value)
    ensures NewKey(login) !in db.records && NewKey(login) in Create(db, login).value.records
  {
    var key, r := NewKey(login), NewRecord(login);
    SaveRecordKeeps(db, key, None, r);
    var created := SaveRecord(db, key, None, r).value;
    assert LinksOf(created.links, key) == {};
    if r.email == login.user.email && !r.verified {
      SaveRecordKeeps(created, key, Some(r), r.(verified := true));
      var saved := SaveRecord(created, key, Some(r), r.(verified := true)).value;
      assert LinksOf(saved.links, key) == {};
      SaveLinkKeeps(saved, LinkFor(login, key));
    } else {
      SaveLinkKeeps(created, LinkFor(login, key));
    }
  }

  lemma ClearedKeeps(db: Db, key: Key)
    requires Inv(db)
    ensures Inv(db.(links := db.links - LinksOf(db.links, key)))
    ensures LinksOf(db.links - LinksOf(db.links, key), key) == {}
  {
  }

  /** The state after the record was written and before the link is. */
  function Written(db: Db, login: Login, key: Key, r: Record): Db {
    Db(db.records[key := Adopted(login, key, r)], if r.verified then db.links else db.links - LinksOf(db.links, key))
  }

  lemma AdoptWrites(db: Db, login: Login, key: Key, link: Option<Link>)
    requires Inv(db) && key in db.records && Adopt(db, login, key, db.records[key], link).Some?
    ensures var r, d := db.records[key], Written(db, login, key, db.records[key]);
      && Inv(d) && (!r.verified ==> LinksOf(d.links, key) == {})
      && Adopt(db, login, key, r, link) ==
        (if r.verified && link.Some? then Some(d) else SaveLink(d, LinkFor(login, key)))
  {
    var r := db.records[key];
    ClearedKeeps(db, key);
    var cleared := if r.verified then db else db.(links := db.links - LinksOf(db.links, key));
    if NeedsSave(login, key, r) {
      SaveRecordKeeps(cleared, key, Some(r), Adopted(login, key, r));
      assert cleared.links - LinksOf(cleared.links, key) == cleared.links || r.verified;
    } else {
      assert Adopted(login, key, r) == r;
      assert db.records[key := r] == db.records;
    }
  }

  lemma AdoptKeeps(db: Db, login: Login, key: Key, link: Option<Link>)
    requires Inv(db) && key in db.records && Adopt(db, login, key, db.records[key], link).Some?
    ensures Inv(Adopt(db, login, key, db.records[key], link).value)
  {
    hide Inv, Adopt;
    AdoptWrites(db, login, key, link);
    if !(db.records[key].verified && link.Some?) {
      SaveLinkKeeps(Written(db, login, key, db.records[key]), LinkFor(login, key));
    }
  }

  /** What the lookups find is in the database, or the session record as it was loaded. */
  lemma LookupsFind(db: Db, login: Login, loaded: Option<Record>)
    ensures var t := ResolveWith(db, login, loaded);
      && (t.Existing? && t.link.Some? ==> t.link.value in db.links && t.link.value == LinkFor(login, t.key))
      && (t.Existing? ==>
            || (t.link.None? && login.session == Some(t.key) && loaded == Some(t.snapshot))
            || (t.key in db.records && t.snapshot == db.records[t.key] && t.key.collection == login.collection))
      && (t.Existing? && t.link.None? ==>
            || login.session == Some(t.key)
            || (login.user.email != "" && t.snapshot.email == login.user.email))
      && (FindLink(db.links, login).None? ==> forall l :: l in db.links ==> !IsLinkOf(l, login))
  {
  }

  /** The link's collection, provider and provider user are those of the login. */
  predicate NamesUser(l: Link, login: Login) {
    l.owner.collection == login.collection && l.provider == login.provider && l.providerId == login.user.id
  }

  /** Without a link that names the provider user, the session record wins, as it was loaded, whatever the emails
      are; without either, the record of the collection that has the provider's non-empty email; and only
      without that a new record is called for. */
  lemma {:induction false} UnlinkedResolution(db: Db, login: Login, loaded: Option<Record>)
    requires forall l :: l in db.links ==> !NamesUser(l, login)
    ensures var target := ResolveWith(db, login, loaded);
      if login.session.Some? && loaded.Some? then target == Existing(login.session.value, loaded.value, None)
      else
        && (target.Missing? <==> login.user.email == "" || forall k ::
              k in db.records && k.collection == login.collection ==> db.records[k].email != login.user.email)
        && (!target.Missing? ==>
              && target.Existing? && target.link.None? && login.user.email != ""
              && target.key in db.records && target.key.collection == login.collection
              && target.snapshot == db.records[target.key] && target.snapshot.email == login.user.email)
  {
    assert FindLink(db.links, login).None?;
    hide FindLink;
    if login.session.None? || loaded.None? {
      assert forall k :: HasEmail(db.records, k, login.collection, login.user.email) <==>
        k in db.records && k.collection == login.collection && db.records[k].email == login.user.email;
    }
  }

  /** With such a link its owner is signed in, whoever the request is signed in as and whatever the emails are. */
  lemma {:induction false} LinkedResolution(db: Db, login: Login, loaded: Option<Record>, l: Link)
    requires LinksIndexed(db.links) && l in db.links && NamesUser(l, login)
    ensures ResolveWith(db, login, loaded) ==
      if l.owner in db.records then Existing(l.owner, db.records[l.owner], Some(l)) else Broken
  {
    assert IsLinkOf(l, login);
    var found := FindLink(db.links, login);
    assert found.Some? && SameSlot(found.value, l);
  }

  lemma ResolveFinds(db: Db, login: Login)
    ensures var t := Resolve(db, login);
      && (t.Existing? ==> t.key in db.records && t.snapshot == db.records[t.key])
      && (t.Existing? ==> t.key.collection == login.collection)
      && (t.Existing? && t.link.Some? ==> t.link.value in db.links && t.link.value == LinkFor(login, t.key))
      && (t.Existing? && t.link.None? ==>
            || login.session == Some(t.key)
            || (login.user.email != "" && t.snapshot.email == login.user.email))
      && (FindLink(db.links, login).None? ==> forall l :: l in db.links ==> !IsLinkOf(l, login))
  {
    hide ResolveWith, FindLink;
    LookupsFind(db, login, LoadedSession(db, login));
  }

  lemma NextKeepsInv(db: Db, step: Step)
    requires Inv(db)
    ensures Inv(Next(db, step))
  {
    hide Adopt, Create, SaveRecord, ResolveWith, FindLink, LinksIndexed, EmailsIndexed, OneLinkUntilVerified;
    match step
    case SignIn(login) =>
      var target := Resolve(db, login);
      ResolveFinds(db, login);
      if Submit(db, login, target).SignedIn? {
        if target.Missing? { CreateKeeps(db, login); } else { AdoptKeeps(db, login, target.key, target.link); }
      }
    case Verify(key) =>
      if key in db.records && SaveRecord(db, key, Some(db.records[key]), db.records[key].(verified := true)).Some? {
        SaveRecordKeeps(db, key, Some(db.records[key]), db.records[key].(verified := true));
      }
  }

  lemma {:induction false} RunKeepsInv(db: Db, steps: seq<Step>)
    requires Inv(db)
    ensures Inv(Run(db, steps))
  {
    hide Next, Inv;
    if steps == [] {
    } else {
      RunKeepsInv(db, steps[..|steps|-1]);
      NextKeepsInv(Run(db, steps[..|steps|-1]), steps[|steps|-1]);
    }
  }

  lemma AtMostOne(db: Db, k: Key)
    requires OneLinkUntilVerified(db) && k in db.records && !db.records[k].verified
    ensures |LinksOf(db.links, k)| <= 1
  {
    var own := LinksOf(db.links, k);
    if l :| l in own { assert own == {l}; }
  }

  /** Two links of one collection and provider differ in both record and provider user. */
  ghost predicate OnePerProvider(links: set<Link>) {
    forall a, b :: a in links && b in links && a != b ==>
      || a.owner.collection != b.owner.collection || a.provider != b.provider
      || (a.providerId != b.providerId && a.owner != b.owner)
  }

  lemma IndexedIsOnePerProvider(links: set<Link>)
    requires LinksIndexed(links)
    ensures OnePerProvider(links)
  {
    assert forall a, b :: a in links && b in links && a != b ==> !SameSlot(a, b);
  }

  /** Over every sequence of logins and verifications from an empty database: an unverified record has at
      most one link, no two links of a collection share (provider, providerId), and no record has two
      links of one provider. */
  lemma {:induction false} LinksStayConsistent(steps: seq<Step>)
    ensures var db := Run(Db(map[], {}), steps);
      && (forall l :: l in db.links ==> l.owner in db.records)
      && (forall k :: k in db.records && !db.records[k].verified ==> |LinksOf(db.links, k)| <= 1)
      && OnePerProvider(db.links)
  {
    hide Run, LinksIndexed, OnePerProvider, LinksOf, OneLinkUntilVerified;
    var empty := Db(map[], {});
    EmptyInv();
    RunKeepsInv(empty, steps);
    var db := Run(empty, steps);
    IndexedIsOnePerProvider(db.links);
    forall k | k in db.records && !db.records[k].verified ensures |LinksOf(db.links, k)| <= 1 {
      AtMostOne(db, k);
    }
  }

  lemma EmptyInv()
    ensures Inv(Db(map[], {}))
  {
  }

  // ---------------------------------------------------------------- verified records

  /** The record stays verified and keeps its links. */
  ghost predicate KeepsVerified(before: Db, after: Db, key: Key) {
    && key in after.records && after.records[key].verified
    && LinksOf(before.links, key) <= LinksOf(after.links, key)
  }

  lemma AdoptKeepsVerified(db: Db, login: Login, at: Key, link: Option<Link>, key: Key)
    requires Inv(db) && at in db.records && Adopt(db, login, at, db.records[at], link).Some?
    requires key in db.records && db.records[key].verified
    ensures KeepsVerified(db, Adopt(db, login, at, db.records[at], link).value, key)
  {
    hide Inv, Adopt;
    AdoptWrites(db, login, at, link);
  }

  lemma CreateKeepsVerified(db: Db, login: Login, key: Key)
    requires Inv(db) && Create(db, login).Some?
    requires key in db.records && db.records[key].verified
    ensures KeepsVerified(db, Create(db, login).value, key)
  {
    assert key != NewKey(login);
  }

  lemma NextKeepsVerified(db: Db, step: Step, key: Key)
    requires Inv(db) && key in db.records && db.records[key].verified
    ensures KeepsVerified(db, Next(db, step), key)
  {
    hide Adopt, Create, Inv, ResolveWith, FindLink;
    match step
    case SignIn(login) =>
      var target := Resolve(db, login);
      ResolveFinds(db, login);
      if Submit(db, login, target).SignedIn? {
        if target.Missing? { CreateKeepsVerified(db, login, key); }
        else { AdoptKeepsVerified(db, login, target.key, target.link, key); }
      }
    case Verify(_) =>
  }

  /** Over every run, verified never reverts and a verified record never loses a link. */
  lemma {:induction false} VerifiedIsFinal(db: Db, steps: seq<Step>, key: Key)
    requires Inv(db) && key in db.records && db.records[key].verified
    ensures KeepsVerified(db, Run(db, steps), key)
  {
    hide Next, Inv;
    if steps == [] {
    } else {
      VerifiedIsFinal(db, steps[..|steps|-1], key);
      RunKeepsInv(db, steps[..|steps|-1]);
      NextKeepsVerified(Run(db, steps[..|steps|-1]), steps[|steps|-1], key);
    }
  }

  /** Two logins by the same provider user. */
  predicate SameUser(a: Login, b: Login) {
    a.collection == b.collection && a.provider == b.provider && a.user.id == b.user.id
  }

  /** A successful login leaves the provider user linked to the record it signed in as. */
  lemma {:induction false} SignedInIsLinked(db: Db, login: Login)
    requires Inv(db) && Submit(db, login, Resolve(db, login)).SignedIn?
    ensures var o := Submit(db, login, Resolve(db, login));
      LinkFor(login, o.key) in o.db.links && o.key in o.db.records && o.key.collection == login.collection
  {
    hide Adopt, Create, Inv, ResolveWith, FindLink;
    var target := Resolve(db, login);
    ResolveFinds(db, login);
    if target.Missing? {
      CreateLinks(db, login);
    } else {
      AdoptWrites(db, login, target.key, target.link);
    }
  }

  lemma CreateLinks(db: Db, login: Login)
    requires Create(db, login).Some?
    ensures var d, key := Create(db, login).value, NewKey(login);
      && key !in db.records && d.records.Keys == db.records.Keys + {key}
      && LinkFor(login, key) in d.links
      && d.links <= db.links + {LinkFor(login, key)}
      && (LinksOf(db.links, key) == {} ==> d.links == db.links + {LinkFor(login, key)})
      && forall k :: k in db.records ==> d.records[k] == db.records[k]
  {
    var key, r := NewKey(login), NewRecord(login);
    var created := SaveRecord(db, key, None, r).value;
    assert created.links == db.links;
  }

  lemma LinkIsFound(db: Db, login: Login, key: Key)
    requires Inv(db) && LinkFor(login, key) in db.links && key.collection == login.collection
    ensures FindLink(db.links, login) == Some(LinkFor(login, key))
  {
    assert IsLinkOf(LinkFor(login, key), login);
    assert forall l :: l in db.links && IsLinkOf(l, login) ==> SameSlot(l, LinkFor(login, key));
  }

  /** A provider user who once reached a verified record resolves to that record after any further run;
      that login then signs in as it, unless the transaction is rejected or would give the record an
      email that another record has. */
  lemma {:induction false} ReturningUserResolvesSame(db: Db, login: Login, steps: seq<Step>, again: Login)
    requires Inv(db) && Submit(db, login, Resolve(db, login)).SignedIn? && SameUser(login, again)
    requires var o := Submit(db, login, Resolve(db, login)); o.db.records[o.key].verified
    ensures var key, d := Submit(db, login, Resolve(db, login)).key, Run(db, [SignIn(login)] + steps);
      && key in d.records
      && Resolve(d, again) == Existing(key, d.records[key], Some(LinkFor(again, key)))
      && (Submit(d, again, Resolve(d, again)).SignedIn? <==>
            !again.rejected && !(d.records[key].email == "" && EmailTaken(d.records, key, again.user.email)))
      && (Submit(d, again, Resolve(d, again)).SignedIn? ==>
            && Submit(d, again, Resolve(d, again)).key == key
            && Submit(d, again, Resolve(d, again)).db.links == d.links)
  {
    hide Inv, SaveLink, LinkRefused, Create, FindLink, FindByEmail;
    var o := Submit(db, login, Resolve(db, login));
    SignedInIsLinked(db, login);
    NextKeepsInv(db, SignIn(login));
    RunFrom(db, SignIn(login), steps);
    RunKeepsInv(o.db, steps);
    VerifiedIsFinal(o.db, steps, o.key);
    var d := Run(o.db, steps);
    assert LinkFor(login, o.key) in LinksOf(o.db.links, o.key);
    LinkIsFound(d, again, o.key);
    EmailKept(d, o.key);
  }

  lemma EmailKept(db: Db, key: Key)
    requires Inv(db) && key in db.records
    ensures !EmailTaken(db.records, key, db.records[key].email)
  {
  }

  lemma {:induction false} RunFrom(db: Db, step: Step, steps: seq<Step>)
    ensures Run(db, [step] + steps) == Run(Next(db, step), steps)
  {
    hide Next;
    if steps == [] {
      assert [step] + steps == [step] && [step][..0] == [];
    } else {
      assert ([step] + steps)[..|steps|] == [step] + steps[..|steps|-1];
      RunFrom(db, step, steps[..|steps|-1]);
    }
  }

  // ---------------------------------------------------------------- what a login writes

  /** The sign-up of an unknown user succeeds exactly when it is allowed, for a collection other than the
      superusers', and its id, its email and its provider user are free; it adds one record, with the
      provider's email if none was given, verified if the request said so or the email is the provider's,
      and one link, and changes nothing else. */
  lemma {:induction false} SignUpExactly(db: Db, login: Login)
    requires Inv(db) && Resolve(db, login).Missing?
    ensures var o, key := Submit(db, login, Resolve(db, login)), Key(login.collection, login.signUp.id);
      var email := if login.signUp.email != "" then login.signUp.email else login.user.email;
      && (o.SignedIn? <==>
            && !login.rejected && login.signUp.allowed && login.collection != "_superusers" && key !in db.records
            && login.provider != "" && login.user.id != ""
            && (email == "" ||
                forall k :: k in db.records && k.collection == key.collection ==> db.records[k].email != email))
      && (o.SignedIn? ==>
            && o.key == key
            && o.db.records == db.records[key := Record(email, login.signUp.verified || email == login.user.email,
                                                        login.signUp.password)]
            && o.db.links == db.links + {Link(key, login.provider, login.user.id)})
  {
    MissingIsUnlinked(db, login);
    hide FindLink, ResolveWith, LinksIndexed, EmailsIndexed;
    var key, r := NewKey(login), NewRecord(login);
    if key !in db.records {
      assert LinksOf(db.links, key) == {};
      assert db.links - {} == db.links;
      assert LinkFor(login, key).owner.collection == login.collection;
      NotRefused(db, login, key);
      assert db.records[key := r][key := r.(verified := true)] == db.records[key := r.(verified := true)];
      assert forall e :: EmailTaken(db.records[key := r], key, e) <==> EmailTaken(db.records, key, e);
    }
  }

  lemma MissingIsUnlinked(db: Db, login: Login)
    requires Resolve(db, login).Missing?
    ensures forall l :: l in db.links ==> !IsLinkOf(l, login)
  {
  }

  lemma NotRefused(db: Db, login: Login, key: Key)
    requires Inv(db) && key !in db.records && key.collection == login.collection
    requires forall l :: l in db.links ==> !IsLinkOf(l, login)
    ensures LinkRefused(db.links, LinkFor(login, key)) <==> login.provider == "" || login.user.id == ""
  {
    hide EmailsIndexed, OneLinkUntilVerified;
    assert forall l :: l in db.links && SameSlot(l, LinkFor(login, key)) ==> l.owner == key || IsLinkOf(l, login);
  }

  /** A login as a verified record keeps its password, its email unless it had none, and its links, and adds the
      user's link; no login touches another record or its links. */
  lemma {:induction false} SignInWritesOnly(db: Db, login: Login)
    requires Inv(db) && Submit(db, login, Resolve(db, login)).SignedIn?
    ensures var o := Submit(db, login, Resolve(db, login));
      && (forall k :: k in db.records ==> k in o.db.records && (k == o.key || o.db.records[k] == db.records[k]))
      && (forall k :: k in o.db.records ==> k == o.key || k in db.records)
      && (forall l: Link :: l.owner != o.key ==> (l in o.db.links <==> l in db.links))
      && (o.key in db.records && db.records[o.key].verified ==>
            && o.db.links == db.links + {Link(o.key, login.provider, login.user.id)}
            && o.db.records[o.key].verified && o.db.records[o.key].password == db.records[o.key].password
            && o.db.records[o.key].email ==
                 (if db.records[o.key].email == "" then login.user.email else db.records[o.key].email))
  {
    var target := Resolve(db, login);
    ResolveFinds(db, login);
    if target.Missing? {
      SignUpExactly(db, login);
    } else {
      hide Adopt, Inv, ResolveWith, FindLink, LinkRefused;
      AdoptWrites(db, login, target.key, target.link);
    }
  }

  // ---------------------------------------------------------------- no pre-hijacking

  /** Adopting an unverified record leaves it with this login's link alone, with a random password unless
      the record itself is signed in, with the user's email if it had none, and verified exactly when its
      email then is the user's or empty. */
  lemma {:induction false} AdoptionStartsOver(db: Db, login: Login)
    requires Inv(db) && Submit(db, login, Resolve(db, login)).SignedIn?
    requires var o := Submit(db, login, Resolve(db, login)); o.key in db.records && !db.records[o.key].verified
    ensures var o := Submit(db, login, Resolve(db, login));
      && LinksOf(o.db.links, o.key) == {LinkFor(login, o.key)}
      && o.db.records[o.key].email ==
        (if db.records[o.key].email == "" then login.user.email else db.records[o.key].email)
      && o.db.records[o.key].password ==
           (if login.session == Some(o.key) then db.records[o.key].password else login.randomPassword)
      && (o.db.records[o.key].verified <==>
        o.db.records[o.key].email == "" || o.db.records[o.key].email == login.user.email)
  {
    hide Adopt, Create, Inv, ResolveWith, FindLink;
    var target := Resolve(db, login);
    ResolveFinds(db, login);
    if target.Missing? {
      CreateLinks(db, login);
    } else {
      AdoptWrites(db, login, target.key, target.link);
    }
  }

  /** The login gave its user this link for a reason: it created the record, it was signed in as the
      record, or the provider vouched for the record's email. */
  ghost predicate Earned(db: Db, step: Step, l: Link) {
    && step.SignIn? && l == LinkFor(step.login, l.owner)
    && Submit(db, step.login, Resolve(db, step.login)).SignedIn?
    && Submit(db, step.login, Resolve(db, step.login)).key == l.owner
    && (|| l.owner !in db.records
        || step.login.session == Some(l.owner)
        || (step.login.user.email != "" && db.records[l.owner].email == step.login.user.email))
  }

  lemma NewLinksAreEarned(db: Db, step: Step, l: Link)
    requires Inv(db) && l in Next(db, step).links && l !in db.links
    ensures Earned(db, step, l)
  {
    hide Adopt, Create, Inv, ResolveWith, FindLink;
    var login := step.login;
    var target := Resolve(db, login);
    ResolveFinds(db, login);
    if target.Missing? {
      CreateLinks(db, login);
    } else {
      AdoptWrites(db, login, target.key, target.link);
    }
  }

  /** Every link after a run was there before it or was earned by one of its logins. */
  lemma {:induction false} EveryLinkIsEarned(db: Db, steps: seq<Step>, l: Link)
    requires Inv(db) && l in Run(db, steps).links && l !in db.links
    ensures exists i :: 0 <= i < |steps| && Earned(Run(db, steps[..i]), steps[i], l)
  {
    hide Next, Inv, Earned;
    var init := steps[..|steps|-1];
    RunKeepsInv(db, init);
    if l in Run(db, init).links {
      EveryLinkIsEarned(db, init, l);
      var i :| 0 <= i < |init| && Earned(Run(db, init[..i]), init[i], l);
      assert init[..i] == steps[..i];
    } else {
      NewLinksAreEarned(Run(db, init), steps[|steps|-1], l);
    }
  }

  /** Whatever was linked to a record before the step that verified it is gone for good unless it is that
      login's own link or was earned again afterwards. */
  lemma {:induction false} EarlierLinksAreDropped(db: Db, step: Step, steps: seq<Step>, key: Key, l: Link)
    requires Inv(db) && key in db.records && !db.records[key].verified
    requires key in Next(db, step).records && Next(db, step).records[key].verified
    requires l.owner == key && l in Run(db, [step] + steps).links
    ensures || (step.SignIn? && l == LinkFor(step.login, key))
            || exists i :: 0 <= i < |steps| && Earned(Run(Next(db, step), steps[..i]), steps[i], l)
  {
    hide Next, Inv, Earned, Run;
    RunFrom(db, step, steps);
    NextKeepsInv(db, step);
    if l in Next(db, step).links {
      UpgradeDrops(db, step, key);
      assert l in LinksOf(Next(db, step).links, key);
    } else {
      EveryLinkIsEarned(Next(db, step), steps, l);
    }
  }

  lemma UpgradeDrops(db: Db, step: Step, key: Key)
    requires Inv(db) && key in db.records && !db.records[key].verified
    requires key in Next(db, step).records && Next(db, step).records[key].verified
    ensures LinksOf(Next(db, step).links, key) == if step.SignIn? then {LinkFor(step.login, key)} else {}
  {
    hide Adopt, Create, Inv, ResolveWith, FindLink;
    match step
    case SignIn(login) =>
      var target := Resolve(db, login);
      ResolveFinds(db, login);
      if target.Missing? {
        CreateLinks(db, login);
      } else {
        AdoptWrites(db, login, target.key, target.link);
        AdoptionStartsOver(db, login);
      }
    case Verify(_) =>
  }
}
