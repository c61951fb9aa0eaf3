/** The replies of the request handlers, read off the rows of the tables. */
module Requests {
  import opened Text
  import opened UserTable
  import opened Usernames
  import opened StatusProtocol

  // ----- on rows -----

  /** The domain of the realm is being configured, or its configuration has failed. */
  predicate Closed(db: Database, realm: string) {
    realm in db.orgs && realm in db.dc && db.dc[realm] != Active
  }

  /** Row `i` is the first one of the user. */
  predicate FirstRow(db: Database, k: Key, i: nat) {
    && i < |db.users| && k.realm in db.orgs
    && db.users[i].org == Some(k.realm) && db.users[i].username == k.username
    && forall j | 0 <= j < i :: db.users[j].org != Some(k.realm) || db.users[j].username != k.username
  }

  ghost predicate HasStatus(db: Database, k: Key, st: Status) {
    exists i: nat :: FirstRow(db, k, i) && db.users[i].status == st
  }

  lemma StatusOnRows(db: Database, k: Key, st: Status)
    ensures StatusOf(db, k) == Some(st) <==> HasStatus(db, k, st)
  {
    if StatusOf(db, k) == Some(st) {
      assert FirstRow(db, k, Find(db, k, 0).value);
    }
    if HasStatus(db, k, st) {
      var i: nat :| FirstRow(db, k, i) && db.users[i].status == st;
      FindIs(db, k, i);
    }
  }

  /** No user of the realm, spelt in lower case, has the name. */
  predicate NameFree(db: Database, realm: string, name: string) {
    forall r | r in db.users :: Lower(realm) in db.orgs && r.org == Some(Lower(realm)) ==> r.username != Lower(name)
  }

  predicate PrefixFree(db: Database, realm: string, prefix: string) {
    forall r | r in db.users :: Lower(realm) in db.orgs && r.org == Some(Lower(realm)) ==> r.prefix != Lower(prefix)
  }

  predicate PlainPrefix(prefix: string) {
    forall c | c in prefix :: 'a' <= c <= 'z' || '0' <= c <= '9' || c in {'#', '^', '*', '~', '.', '-', '_'}
  }

  // ----- replies -----

  /** A creation request is put in the queue exactly when the realm is not closed, no user has
      the prefix, the prefix has no other characters than those listed, a free name is given
      or can be made, and the insert succeeds. */
  lemma CreateReply(s: State, username: string, prefix: string, realm: string, emailOnly: bool, inserted: bool)
    ensures Create(s, username, prefix, realm, emailOnly, inserted).1 == Enqueued <==>
            && !Closed(s.db, realm) && PrefixFree(s.db, realm, prefix) && inserted
            && PlainPrefix(prefix)
            && ((username != "" && NameFree(s.db, realm, username)) || MadeName(s.db, prefix, realm) != "")
  {
    assert "#^*~.-_" == ['#', '^', '*', '~', '.', '-', '_'];
  }

  /** What it does: one row in PROCESSING, in lower case but for the realm, and one entry at
      the end of the queue, with the name as given; or nothing at all. */
  lemma CreateEffect(s: State, username: string, prefix: string, realm: string, emailOnly: bool, inserted: bool)
    ensures var (t, reply) := Create(s, username, prefix, realm, emailOnly, inserted);
            var name := if username != "" && NameFree(s.db, realm, username) then username
                        else MadeName(s.db, prefix, realm);
            var org := if realm in s.db.orgs then Some(realm) else None;
            if reply == Enqueued
            then t == s.(db := Database(s.db.orgs,
                                        s.db.users + [Row(org, Lower(name), Lower(prefix), Processing, emailOnly)],
                                        s.db.dc),
                         newQueue := s.newQueue + [Key(realm, name)])
            else t == s && reply == Dropped
  {
  }

  lemma ArchiveReply(s: State, k: Key)
    ensures Archive(s, k).1 == Dropped <==> Closed(s.db, k.realm)
    ensures Archive(s, k).1 == Enqueued <==> !Closed(s.db, k.realm) && HasStatus(s.db, k, Active)
  {
    StatusOnRows(s.db, k, Active);
  }

  lemma RestoreReply(s: State, k: Key)
    ensures Restore(s, k).1 == Dropped <==> Closed(s.db, k.realm)
    ensures Restore(s, k).1 == Enqueued <==> !Closed(s.db, k.realm) && HasStatus(s.db, k, Archived)
  {
    StatusOnRows(s.db, k, Archived);
  }

  /** Type and password requests are refused for a closed realm only. */
  lemma ChangeReplies(s: State, k: Key, kind: UserType)
    ensures RequestType(s, k, kind).1 == if Closed(s.db, k.realm) then Dropped else Enqueued
    ensures RequestPassword(s, k).1 == if Closed(s.db, k.realm) then Dropped else Enqueued
  {
  }

  /** Configuration requests are refused exactly while a user of the realm is in PROCESSING. */
  lemma ConfigureReplies(s: State, realm: string)
    ensures var creating := realm in s.db.orgs &&
                            exists r | r in s.db.users :: r.org == Some(realm) && r.status == Processing;
            && ConfigureDomain(s, realm).1 == (if creating then Dropped else Enqueued)
            && ConfigureAnchor(s, realm).1 == (if creating then Dropped else Enqueued)
  {
  }


  // ----- all requests about users -----

  predicate AboutUser(e: Event) {
    e.CreateUser? || e.ArchiveUser? || e.RestoreUser? || e.ChangeType? || e.ChangePassword?
  }

  function RealmOf(e: Event): string
    requires AboutUser(e)
  {
    if e.CreateUser? then e.realm else e.key.realm
  }

  function ReplyTo(s: State, e: Event): Reply
    requires AboutUser(e)
  {
    match e
    case CreateUser(name, prefix, realm, emailOnly, inserted) => Create(s, name, prefix, realm, emailOnly, inserted).1
    case ArchiveUser(k) => Archive(s, k).1
    case RestoreUser(k) => Restore(s, k).1
    case ChangeType(k, kind) => RequestType(s, k, kind).1
    case ChangePassword(k) => RequestPassword(s, k).1
  }

  /** What a request needs besides an open realm. */
  ghost predicate Deserved(db: Database, e: Event)
    requires AboutUser(e)
  {
    match e
    case CreateUser(name, prefix, realm, _, inserted) =>
      PrefixFree(db, realm, prefix) && inserted && PlainPrefix(prefix)
      && ((name != "" && NameFree(db, realm, name)) || MadeName(db, prefix, realm) != "")
    case ArchiveUser(k) => HasStatus(db, k, Active)
    case RestoreUser(k) => HasStatus(db, k, Archived)
    case _ => true
  }

  /** A request about a user is dropped for a closed realm, and else put in the queue exactly
      if it has what it needs. */
  lemma ReplyExactly(s: State, e: Event)
    requires AboutUser(e)
    ensures Closed(s.db, RealmOf(e)) ==> ReplyTo(s, e) == Dropped
    ensures !Closed(s.db, RealmOf(e)) ==> (ReplyTo(s, e) == Enqueued <==> Deserved(s.db, e))
  {
    match e
    case CreateUser(name, prefix, realm, emailOnly, inserted) =>
      CreateReply(s, name, prefix, realm, emailOnly, inserted);
    case ArchiveUser(k) => ArchiveReply(s, k);
    case RestoreUser(k) => RestoreReply(s, k);
    case ChangeType(k, kind) => ChangeReplies(s, k, kind);
    case ChangePassword(k) => ChangeReplies(s, k, Full);
  }
}
