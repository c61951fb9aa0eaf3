/** What every interleaving of the RPC service keeps. */
module ProtocolSafety {
  import opened Text
  import opened UserTable
  import opened Usernames
  import opened StatusProtocol

  // ----- user creation and domain configuration exclude each other -----

  /** No realm has a user being created and a domain configuration running. */
  ghost predicate Exclusive(db: Database) {
    forall r | r in db.users :: r.status == Processing && r.org.Some? && r.org.value in db.orgs && r.org.value in db.dc
                                ==> db.dc[r.org.value] != Processing
  }

  predicate LowerRequest(e: Event) {
    (e.ChangeDomain? || e.ChangeAnchor?) ==> Lower(e.realm) == e.realm
  }

  lemma StepExclusive(s: State, e: Event)
    requires Exclusive(s.db) && LowerRequest(e)
    ensures Exclusive(Step(s, e).db)
  {
  }

  /** Every run from an exclusive state whose configuration requests name their realm in
      lower case stays exclusive, whatever the other requests and the interleaving. */
  lemma {:induction false} RunExclusive(s: State, es: seq<Event>)
    requires Exclusive(s.db) && forall e | e in es :: LowerRequest(e)
    ensures Exclusive(Run(s, es).db)
    decreases |es|
  {
    if es != [] {
      StepExclusive(s, es[0]);
      RunExclusive(Step(s, es[0]), es[1..]);
    }
  }

  ghost function Resting(db: Database): State {
    State(db, [], [], [], [], [], [], [], NoCreation, Idle, Idle, NoType, NoPassword, None, None, "")
  }

  /** The test reads the realm as given and the update lowers it. So the lower-case realm
      names are exactly those whose configuration request is safe in every exclusive state. */
  lemma LowerRealmIsExact(realm: string)
    ensures (forall s: State | Exclusive(s.db) :: Exclusive(Step(s, ChangeDomain(realm)).db)) <==> Lower(realm) == realm
  {
    if Lower(realm) == realm {
      forall s: State | Exclusive(s.db) ensures Exclusive(Step(s, ChangeDomain(realm)).db) {
        StepExclusive(s, ChangeDomain(realm));
      }
    } else {
      var org := Lower(realm);
      var row := Row(Some(org), "u", "u", Processing, false);
      var db := Database({org}, [row], map[org := Active]);
      assert Exclusive(db) && Exclusive(Resting(db).db);
      var after := Step(Resting(db), ChangeDomain(realm)).db;
      assert !CreationRunning(db, realm);
      assert after.users[0] == row && after.dc[org] == Processing;
      assert row in after.users;
    }
  }

  // ----- user names and e-mail prefixes -----

  ghost predicate UniqueNames(db: Database) {
    forall i, j | 0 <= i < j < |db.users| ::
      !(db.users[i].org.Some? && db.users[i].org == db.users[j].org && db.users[i].username == db.users[j].username)
  }

  ghost predicate UniquePrefixes(db: Database) {
    forall i, j | 0 <= i < j < |db.users| ::
      !(db.users[i].org.Some? && db.users[i].org == db.users[j].org && db.users[i].prefix == db.users[j].prefix)
  }

  ghost predicate Unique(db: Database) {
    UniqueNames(db) && UniquePrefixes(db)
  }

  /** No other user of the organization holds the prefix that a script writes. */
  ghost predicate FreshPrefix(s: State, e: Event) {
    e.PrefixScript? ==>
      forall i, j | 0 <= i < |s.db.users| && 0 <= j < |s.db.users| && i != j
                    && IsRow(s.db, s.db.users[i], e.key) && s.db.users[j].org == s.db.users[i].org ::
        s.db.users[j].prefix != e.newPrefix
  }

  /** The row a creation inserts differs from every other of its organization. */
  lemma CreatedIsNew(db: Database, e: Event, i: nat)
    requires e.CreateUser? && LowerOrgs(db.orgs) && CreationAccepted(db, e.username, e.prefix, e.realm, e.inserted)
    requires i < |db.users| && e.realm in db.orgs && db.users[i].org == Some(e.realm)
    ensures db.users[i].username != Lower(ChosenName(db, e.username, e.prefix, e.realm))
    ensures db.users[i].prefix != Lower(e.prefix)
  {
    var name := ChosenName(db, e.username, e.prefix, e.realm);
    MadeNameIsGood(db, e.prefix, e.realm);
    assert db.users[i] in db.users && Lower(e.realm) == e.realm;
    assert !UsernameTaken(db, e.realm, Lower(name));
    assert !IsRow(db, db.users[i], Key(e.realm, Lower(name)));
  }

  lemma CreateUnique(s: State, e: Event)
    requires e.CreateUser? && LowerOrgs(s.db.orgs)
    ensures UniqueNames(s.db) ==> UniqueNames(Step(s, e).db)
    ensures UniquePrefixes(s.db) ==> UniquePrefixes(Step(s, e).db)
  {
    hide CreationAccepted, ChosenName, LowerOrgs;
    if CreationAccepted(s.db, e.username, e.prefix, e.realm, e.inserted) && e.realm in s.db.orgs {
      forall i | 0 <= i < |s.db.users| && s.db.users[i].org == Some(e.realm)
        ensures s.db.users[i].username != Lower(ChosenName(s.db, e.username, e.prefix, e.realm))
        ensures s.db.users[i].prefix != Lower(e.prefix)
      {
        CreatedIsNew(s.db, e, i);
      }
    }
  }

  /** Organization, name and e-mail prefix of every row stay as they are. */
  ghost predicate SameKeys(db: Database, after: Database) {
    && after.orgs == db.orgs && |after.users| == |db.users|
    && forall i | 0 <= i < |db.users| ::
         after.users[i].org == db.users[i].org && after.users[i].username == db.users[i].username
         && after.users[i].prefix == db.users[i].prefix
  }

  lemma StepKeepsKeys(s: State, e: Event)
    requires !e.CreateUser? && !e.PrefixScript?
    ensures SameKeys(s.db, Step(s, e).db)
  {
    hide Find, CloudBusy, CreationRunning, StatusOf;
  }

  lemma StepUniqueNames(s: State, e: Event)
    requires UniqueNames(s.db) && LowerOrgs(s.db.orgs)
    ensures UniqueNames(Step(s, e).db) && Step(s, e).db.orgs == s.db.orgs
  {
    if e.CreateUser? {
      CreateUnique(s, e);
    } else if !e.PrefixScript? {
      StepKeepsKeys(s, e);
      hide Step;
    }
  }

  lemma StepUniquePrefixes(s: State, e: Event)
    requires UniquePrefixes(s.db) && LowerOrgs(s.db.orgs) && FreshPrefix(s, e)
    requires e.PrefixScript? ==> UniqueNames(s.db)
    ensures UniquePrefixes(Step(s, e).db)
  {
    if e.CreateUser? {
      CreateUnique(s, e);
    } else if !e.PrefixScript? {
      StepKeepsKeys(s, e);
      hide Step;
    }
  }

  lemma StepUnique(s: State, e: Event)
    requires Unique(s.db) && LowerOrgs(s.db.orgs) && FreshPrefix(s, e)
    ensures Unique(Step(s, e).db) && Step(s, e).db.orgs == s.db.orgs
  {
    hide Step, LowerOrgs, FreshPrefix, UniquePrefixes, UniqueNames;
    StepUniqueNames(s, e);
    StepUniquePrefixes(s, e);
  }

  /** Over every run no organization has two users with the same name, provided network names
      are stored in lower case. */
  lemma {:induction false} RunUniqueNames(s: State, es: seq<Event>)
    requires UniqueNames(s.db) && LowerOrgs(s.db.orgs)
    ensures UniqueNames(Run(s, es).db)
    decreases |es|
  {
    if es != [] {
      StepUniqueNames(s, es[0]);
      hide Step;
      RunUniqueNames(Step(s, es[0]), es[1..]);
    }
  }

  ghost predicate FreshPrefixes(s: State, es: seq<Event>)
    decreases |es|
  {
    es == [] || (FreshPrefix(s, es[0]) && FreshPrefixes(Step(s, es[0]), es[1..]))
  }

  /** Nor two with the same e-mail prefix, if no change of a primary address writes a prefix
      that another user holds. */
  lemma {:induction false} RunUnique(s: State, es: seq<Event>)
    requires Unique(s.db) && LowerOrgs(s.db.orgs) && FreshPrefixes(s, es)
    ensures Unique(Run(s, es).db)
    decreases |es|
  {
    hide Step, FreshPrefix, Unique;
    if es != [] {
      StepUnique(s, es[0]);
      RunUnique(Step(s, es[0]), es[1..]);
    }
  }

  /** That condition is exact for every single step. */
  lemma FreshPrefixIsExact(s: State, e: Event)
    requires Unique(s.db) && LowerOrgs(s.db.orgs)
    ensures Unique(Step(s, e).db) <==> FreshPrefix(s, e)
  {
    if FreshPrefix(s, e) {
      StepUnique(s, e);
    } else {
      var i, j :| 0 <= i < |s.db.users| && 0 <= j < |s.db.users| && i != j
                  && IsRow(s.db, s.db.users[i], e.key) && s.db.users[j].org == s.db.users[i].org
                  && s.db.users[j].prefix == e.newPrefix;
      var after := Step(s, e).db;
      assert after.users[i].prefix == e.newPrefix && after.users[j].prefix == e.newPrefix;
    }
  }

  lemma DuplicateUnderUpperOrg(org: string)
    requires Lower(org) != org
    ensures var row := Row(Some(org), "bob", "bob", Active, false);
            var db := Database({org}, [row], map[]);
            Unique(db) && !Unique(Step(Resting(db), CreateUser("bob", "bob", org, false, true)).db)
  {
    var row := Row(Some(org), "bob", "bob", Active, false);
    var db := Database({org}, [row], map[]);
    LowerTwice(org);
    assert Lower(org) !in db.orgs;
    assert "bob" == ['b', 'o', 'b'] && Lower("bob") == "bob";
    assert !UsernameTaken(db, Lower(org), "bob") && !PrefixTaken(db, Lower(org), "bob");
    assert forall c | c in "bob" :: InPool(c);
    var after := Step(Resting(db), CreateUser("bob", "bob", org, false, true)).db;
    assert after.users == [row, NewRow(db, "bob", "bob", org, false)];
    assert after.users[0].username == after.users[1].username;
  }

  /** Lower-case network names are needed as well as enough. */
  lemma LowerOrgsIsExact(orgs: set<string>)
    ensures (forall s: State, e: Event | s.db.orgs <= orgs && Unique(s.db) && FreshPrefix(s, e)
             :: Unique(Step(s, e).db))
            <==> LowerOrgs(orgs)
  {
    if LowerOrgs(orgs) {
      forall s: State, e: Event | s.db.orgs <= orgs && Unique(s.db) && FreshPrefix(s, e) ensures Unique(Step(s, e).db) {
        StepUnique(s, e);
      }
    } else {
      var org :| org in orgs && Lower(org) != org;
      DuplicateUnderUpperOrg(org);
      var db := Database({org}, [Row(Some(org), "bob", "bob", Active, false)], map[]);
      assert Resting(db).db.orgs <= orgs && Unique(Resting(db).db);
      assert FreshPrefix(Resting(db), CreateUser("bob", "bob", org, false, true));
    }
  }
}
