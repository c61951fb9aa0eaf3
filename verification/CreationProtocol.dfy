/** What becomes of a newly created user, and what can go wrong on the way. */
module CreationProtocol {
  import opened Text
  import opened UserTable
  import opened Usernames
  import opened StatusProtocol
  import opened ProtocolSafety
  import opened ArchiveProtocol

  // ----- users no request reaches -----

  /** A settled user whose status no handler accepts. */
  ghost predicate Held(s: State, k: Key) {
    Settled(s, k) && StatusOf(s.db, k) !in {Some(Active), Some(Archived)}
  }

  /** The step belongs to an archive or restore worker that has `k` in hand, or makes the
      password change of `k` fail while such a worker is about to end. */
  ghost predicate Acts(s: State, e: Event, k: Key) {
    || Harmless(s, e, k)
    || ((e.ArchiverRun? || e.ArchiverFinish?) && s.archiver != Idle && s.archiver.key == k)
    || ((e.RestorerRun? || e.RestorerFinish?) && s.restorer != Idle && s.restorer.key == k)
  }

  ghost predicate StaysHeld(s: State, e: Event, k: Key) {
    var t := Step(s, e);
    Settled(t, k) && StatusOf(t.db, k) == StatusOf(s.db, k)
    && ArchiveTokens(t, k) == ArchiveTokens(s, k) && RestoreTokens(t, k) == RestoreTokens(s, k)
  }

  lemma HeldCreate(s: State, e: Event, k: Key)
    requires Settled(s, k) && e.CreateUser?
    ensures StaysHeld(s, e, k)
  {
    if CreationAccepted(s.db, e.username, e.prefix, e.realm, e.inserted) {
      var name := ChosenName(s.db, e.username, e.prefix, e.realm);
      MadeNameIsGood(s.db, e.prefix, e.realm);
      InsertReads(s.db, NewRow(s.db, name, e.prefix, e.realm, e.emailOnly), k);
      assert !UsernameTaken(s.db, Lower(e.realm), Lower(name));
      var row := s.db.users[Find(s.db, k, 0).value];
      assert row in s.db.users && IsRow(s.db, row, k);
      assert Key(e.realm, name) != k;
    }
  }

  lemma HeldCreator(s: State, e: Event, k: Key)
    requires Settled(s, k) && (e.CreatorPersonalize? || e.CreatorCheck?)
    ensures StaysHeld(s, e, k)
  {
    hide StatusOf, SetStatusById, Settled;
    CreatorKeeps(s, e, k);
  }

  lemma HeldCreatorTakes(s: State, e: Event, k: Key)
    requires Settled(s, k) && e.CreatorDequeue?
    ensures StaysHeld(s, e, k)
  {
    assert s.newQueue != [] ==> s.newQueue[0] in s.newQueue;
  }

  lemma HeldArchive(s: State, e: Event, k: Key)
    requires Held(s, k) && e.ArchiveUser?
    ensures StaysHeld(s, e, k)
  {
    hide StatusOf, SetStatus, SetStatusById, CloudBusy;
    QueueCounts(s.archiveQueue, e.key, k);
    SetStatusSettled(s, k, e.key, Archiving);
  }

  lemma HeldRestore(s: State, e: Event, k: Key)
    requires Held(s, k) && e.RestoreUser?
    ensures StaysHeld(s, e, k)
  {
    hide StatusOf, SetStatus, SetStatusById, CloudBusy;
    QueueCounts(s.restoreQueue, e.key, k);
    SetStatusSettled(s, k, e.key, Activating);
  }

  lemma HeldArchiver(s: State, e: Event, k: Key)
    requires Held(s, k) && !Acts(s, e, k) && (e.ArchiverDequeue? || e.ArchiverRun? || e.ArchiverFinish?)
    ensures StaysHeld(s, e, k)
  {
    hide StatusOf, SetStatus, SetStatusById, Settled, IsEmailOnly;
    QueueCounts(s.archiveQueue, k, k);
    if s.archiver != Idle {
      SetStatusSettled(s, k, s.archiver.key, if e.ArchiverRun? then ArchivingFailed else Archived);
    }
    SettledQueues(s.(db := Step(s, e).db), Step(s, e), k);
  }

  lemma HeldRestorer(s: State, e: Event, k: Key)
    requires Held(s, k) && !Acts(s, e, k) && (e.RestorerDequeue? || e.RestorerRun? || e.RestorerFinish?)
    ensures StaysHeld(s, e, k)
  {
    hide StatusOf, SetStatus, SetStatusById, Settled, IsEmailOnly;
    QueueCounts(s.restoreQueue, k, k);
    if s.restorer != Idle {
      SetStatusSettled(s, k, s.restorer.key, if e.RestorerRun? then ActivatingFailed else Active);
    }
    SettledQueues(s.(db := Step(s, e).db), Step(s, e), k);
  }

  lemma HeldSide(s: State, e: Event, k: Key)
    requires Settled(s, k) && !Acts(s, e, k) && !Intrudes(s, e, k) && IsSide(e)
    ensures StaysHeld(s, e, k)
  {
    SideKept(s, e, k);
    hide Step, Settled, StatusOf;
  }

  lemma HeldConfig(s: State, e: Event, k: Key)
    requires Settled(s, k) && IsConfig(e)
    ensures StaysHeld(s, e, k)
  {
    ConfigKeepsUsers(s, e);
    FindSameRows(s.db, Step(s, e).db, k);
  }

  /** Only a worker that has the user in hand, or interference, can change its status. */
  lemma StepHeld(s: State, e: Event, k: Key)
    requires Held(s, k) && !Acts(s, e, k) && !Intrudes(s, e, k)
    ensures StaysHeld(s, e, k)
  {
    hide StaysHeld, Intrudes, Acts, Settled, StatusOf;
    if e.CreateUser? {
      HeldCreate(s, e, k);
    } else if e.CreatorDequeue? {
      HeldCreatorTakes(s, e, k);
    } else if e.CreatorPersonalize? || e.CreatorCheck? {
      HeldCreator(s, e, k);
    } else if e.ArchiveUser? {
      HeldArchive(s, e, k);
    } else if e.RestoreUser? {
      HeldRestore(s, e, k);
    } else if e.ArchiverDequeue? || e.ArchiverRun? || e.ArchiverFinish? {
      HeldArchiver(s, e, k);
    } else if e.RestorerDequeue? || e.RestorerRun? || e.RestorerFinish? {
      HeldRestorer(s, e, k);
    } else if IsSide(e) {
      HeldSide(s, e, k);
    } else {
      HeldConfig(s, e, k);
    }
  }

  /** Held with nothing under way: only interference can change the status. */
  ghost predicate Parked(s: State, k: Key) {
    Held(s, k) && UnderWay(s, k) == 0
  }

  lemma StepParked(s: State, e: Event, k: Key)
    requires Parked(s, k) && !Intrudes(s, e, k)
    ensures Parked(Step(s, e), k) && StatusOf(Step(s, e).db, k) == StatusOf(s.db, k)
  {
    hide Step, Settled, StatusOf;
    StepHeld(s, e, k);
  }

  /** A parked user keeps its status over every undisturbed run. */
  lemma {:induction false} RunParked(s: State, es: seq<Event>, k: Key)
    requires Parked(s, k) && Undisturbed(s, es, k)
    ensures Parked(Run(s, es), k) && StatusOf(Run(s, es).db, k) == StatusOf(s.db, k)
    decreases |es|
  {
    hide Step, Parked, StatusOf, Intrudes;
    if es != [] {
      StepParked(s, es[0], k);
      RunParked(Step(s, es[0]), es[1..], k);
    }
  }

  /** Interference always shows. */
  lemma DisturbedStatus(s: State, e: Event, k: Key)
    requires Parked(s, k) && Intrudes(s, e, k)
    ensures StatusOf(Step(s, e).db, k) in {Some(Updating), Some(ActivatingFailed), Some(ArchivingFailed)}
  {
    hide StatusOf, SetStatus, CloudBusy;
    SetStatusSettled(s, k, k, Updating);
    SetStatusSettled(s, k, k, ActivatingFailed);
    SetStatusSettled(s, k, k, ArchivingFailed);
  }

  /** The status of `k` is `st` now and after every step of the run. */
  ghost predicate AlwaysIs(s: State, es: seq<Event>, k: Key, st: Status)
    decreases |es|
  {
    StatusOf(s.db, k) == Some(st) && (es == [] || AlwaysIs(Step(s, es[0]), es[1..], k, st))
  }

  /** A user parked in PROCESSING or PROCESSING_FAILED keeps that status in every state of a
      run if and only if the run accepts no type change for it and no password change of it
      fails while it is e-mail-only. */
  lemma {:induction false} StuckExactly(s: State, es: seq<Event>, k: Key, st: Status)
    requires Parked(s, k) && StatusOf(s.db, k) == Some(st) && st in {Processing, ProcessingFailed}
    ensures AlwaysIs(s, es, k, st) <==> Undisturbed(s, es, k)
    decreases |es|
  {
    hide Step, Parked, StatusOf, Intrudes;
    if es != [] {
      if Intrudes(s, es[0], k) {
        DisturbedStatus(s, es[0], k);
        assert StatusOf(Step(s, es[0]).db, k) != Some(st);
      } else {
        StepParked(s, es[0], k);
        StuckExactly(Step(s, es[0]), es[1..], k, st);
      }
    }
  }

  /** While a user is parked in PROCESSING, of all the spellings of its realm exactly the
      stored one cannot be configured over any undisturbed run. The guard reads the realm as given and finds
      no user under another spelling; the update lowers it. */
  lemma BlockedExactly(s: State, es: seq<Event>, k: Key, realm: string)
    requires Parked(s, k) && Undisturbed(s, es, k) && StatusOf(s.db, k) == Some(Processing) && Lower(realm) == k.realm
    ensures var t := Run(s, es);
            && (ConfigureDomain(t, realm).1 == Dropped <==> realm == k.realm)
            && (ConfigureAnchor(t, realm).1 == Dropped <==> realm == k.realm)
            && (realm != k.realm && k.realm in t.db.dc ==> ConfigureDomain(t, realm).0.db.dc[k.realm] == Processing)
  {
    RunParked(s, es, k);
    var db := Run(s, es).db;
    var i := Find(db, k, 0).value;
    assert db.users[i] in db.users && IsRow(db, db.users[i], k);
    assert realm != k.realm ==> realm !in db.orgs;
  }

  /** So every request that names the realm as it is stored is dropped over every such run. */
  lemma BlockedForever(s: State, es: seq<Event>, k: Key)
    requires Parked(s, k) && Undisturbed(s, es, k) && StatusOf(s.db, k) == Some(Processing)
    ensures ConfigureDomain(Run(s, es), k.realm).1 == Dropped && ConfigureAnchor(Run(s, es), k.realm).1 == Dropped
  {
    RunParked(s, es, k);
    var db := Run(s, es).db;
    var i := Find(db, k, 0).value;
    assert db.users[i] in db.users && Lower(k.realm) == k.realm;
    BlockedExactly(s, es, k, k.realm);
  }

  /** `k` is the only user of its realm in PROCESSING. */
  ghost predicate OnlyProcessing(db: Database, k: Key) {
    StatusOf(db, k) == Some(Processing)
    && forall r | r in db.users && r.org == Some(k.realm) && r.status == Processing :: r.username == k.username
  }

  /** A type change is what unblocks the realm: dropped just before it is accepted, a
      configuration request is put in the queue right after. */
  lemma Unblocks(s: State, k: Key, kind: UserType)
    requires OnlyProcessing(s.db, k) && RequestType(s, k, kind).1 == Enqueued
    ensures ConfigureDomain(s, k.realm).1 == Dropped
    ensures ConfigureDomain(RequestType(s, k, kind).0, k.realm).1 == Enqueued
  {
    var i := Find(s.db, k, 0).value;
    assert s.db.users[i] in s.db.users && IsRow(s.db, s.db.users[i], k);
    var after := RequestType(s, k, kind).0.db;
    forall r | r in after.users && r.org == Some(k.realm) ensures r.status != Processing {
      var j :| 0 <= j < |after.users| && after.users[j] == r;
      assert s.db.users[j] in s.db.users;
    }
  }

  // ----- one creation -----

  /** A creation request that is put in the queue. */
  ghost predicate Creates(s: State, e: Event) {
    && e.CreateUser? && CreationAccepted(s.db, e.username, e.prefix, e.realm, e.inserted)
    && e.realm in s.db.orgs && LowerOrgs(s.db.orgs)
  }

  /** The same in a service with no creation under way. */
  ghost predicate FreshCreation(s: State, e: Event) {
    Creates(s, e) && s.newQueue == [] && s.creator == NoCreation
  }

  function QueuedKey(s: State, e: Event): Key
    requires e.CreateUser?
  {
    Key(e.realm, ChosenName(s.db, e.username, e.prefix, e.realm))
  }

  /** A key with the name as the table stores it. */
  function AsStored(k: Key): Key {
    Key(k.realm, Lower(k.username))
  }

  function StoredKey(s: State, e: Event): Key
    requires e.CreateUser?
  {
    AsStored(QueuedKey(s, e))
  }

  /** The row of the new user is the last one, and the first that matches its stored name. */
  lemma CreatedRow(s: State, e: Event)
    requires Creates(s, e)
    ensures StatusOf(s.db, StoredKey(s, e)) == None
    ensures Find(Step(s, e).db, StoredKey(s, e), 0) == Some(|s.db.users|)
    ensures StatusOf(Step(s, e).db, StoredKey(s, e)) == Some(Processing)
  {
    var name, db := ChosenName(s.db, e.username, e.prefix, e.realm), Step(s, e).db;
    MadeNameIsGood(s.db, e.prefix, e.realm);
    assert !UsernameTaken(s.db, Lower(e.realm), Lower(name));
    forall j | 0 <= j < |s.db.users|
      ensures !IsRow(s.db, s.db.users[j], StoredKey(s, e)) && !IsRow(db, db.users[j], StoredKey(s, e))
    {
      assert s.db.users[j] in s.db.users;
    }
    FindIs(db, StoredKey(s, e), |s.db.users|);
  }

  /** The queue holds the name as given, the row the lowered name: with a capital letter in
      the name the creation worker finds no row of its own. */
  lemma WorkerFindsRow(s: State, e: Event)
    requires Creates(s, e)
    ensures var k, id := QueuedKey(s, e), Find(Step(s, e).db, QueuedKey(s, e), 0);
            Step(s, e).newQueue == s.newQueue + [k]
            && (id == Some(|s.db.users|) <==> Lower(k.username) == k.username)
            && (id.Some? && Lower(k.username) != k.username ==> IsRow(s.db, s.db.users[id.value], k))
  {
    var k, db := QueuedKey(s, e), Step(s, e).db;
    CreatedRow(s, e);
    assert db.users[|s.db.users|].username == Lower(k.username);
  }

  /** All stored names are in lower case, as every creation leaves them. */
  ghost predicate LowerNames(db: Database) {
    forall r | r in db.users :: Lower(r.username) == r.username
  }

  lemma {:induction false} RunLowerNames(s: State, es: seq<Event>)
    requires LowerNames(s.db)
    ensures LowerNames(Run(s, es).db)
    decreases |es|
  {
    if es != [] {
      StepLowerNames(s, es[0]);
      RunLowerNames(Step(s, es[0]), es[1..]);
    }
  }

  lemma StepLowerNames(s: State, e: Event)
    requires LowerNames(s.db)
    ensures LowerNames(Step(s, e).db)
  {
    if e.CreateUser? {
      LowerTwice(ChosenName(s.db, e.username, e.prefix, e.realm));
    } else {
      var after := Step(s, e).db;
      if !e.PrefixScript? {
        StepKeepsKeys(s, e);
        hide Step;
      }
      forall r | r in after.users ensures Lower(r.username) == r.username {
        var i :| 0 <= i < |after.users| && after.users[i] == r;
        assert s.db.users[i] in s.db.users && s.db.users[i].username == r.username;
      }
    }
  }

  /** The creation of one user with nothing else under way, run to its end: the status is still
      PROCESSING when the name has a capital letter; otherwise it tells whether the desktop
      script succeeded. */
  lemma CreationOutcome(s: State, e: Event, outcome: Outcome)
    requires FreshCreation(s, e) && LowerNames(s.db)
    ensures var name := ChosenName(s.db, e.username, e.prefix, e.realm);
            var t := Step(Step(Step(Step(s, e), CreatorDequeue), CreatorPersonalize(outcome)), CreatorCheck);
            t.newQueue == [] && t.creator == NoCreation
            && StatusOf(t.db, StoredKey(s, e))
               == Some(if Lower(name) != name then Processing else if outcome == Activated then Active
                       else ProcessingFailed)
  {
    var name, k := ChosenName(s.db, e.username, e.prefix, e.realm), StoredKey(s, e);
    CreatedRow(s, e);
    WorkerFindsRow(s, e);
    var t1 := Step(s, e);
    var t2 := Step(t1, CreatorDequeue);
    var id := Find(t1.db, QueuedKey(s, e), 0);
    assert t1.newQueue == [QueuedKey(s, e)] && t1.creator == NoCreation;
    if Lower(name) == name {
      OwnSteps(t1, k, outcome);
    } else {
      forall i | 0 <= i < |t1.db.users| ensures !IsRow(t1.db, t1.db.users[i], QueuedKey(s, e)) {
        assert i < |s.db.users| ==> s.db.users[i] in s.db.users;
      }
    }
  }

  /** The three steps of the creation worker on the only user queued. */
  lemma OwnSteps(s: State, k: Key, outcome: Outcome)
    requires s.newQueue == [k] && s.creator == NoCreation && StatusOf(s.db, k) == Some(Processing)
    ensures var t := Step(Step(Step(s, CreatorDequeue), CreatorPersonalize(outcome)), CreatorCheck);
            StatusOf(t.db, k) == Some(if outcome == Activated then Active else ProcessingFailed)
  {
    var t3 := Step(Step(s, CreatorDequeue), CreatorPersonalize(outcome));
    FindSameRows(s.db, t3.db, k);
    FindSameRows(s.db, Step(t3, CreatorCheck).db, k);
  }

  // ----- the race between creation and archiving -----

  /** Creation request and the two first steps of its worker, the script succeeding. */
  function AfterScript(s: State, e: Event): State {
    Step(Step(Step(s, e), CreatorDequeue), CreatorPersonalize(Activated))
  }

  /** One user archived from request to end. */
  function ArchivedNow(s: State, k: Key): State {
    Step(Step(Step(Step(s, ArchiveUser(k)), ArchiverDequeue), ArchiverRun(true)), ArchiverFinish)
  }

  lemma PersonalizedUser(s: State, e: Event)
    requires FreshCreation(s, e) && StoredKey(s, e).username == ChosenName(s.db, e.username, e.prefix, e.realm)
    ensures var t, k := AfterScript(s, e), StoredKey(s, e);
            t == s.(db := t.db, creator := Personalized(k, Some(|s.db.users|)))
            && t.db.orgs == s.db.orgs && t.db.dc == s.db.dc
            && StatusOf(t.db, k) == Some(Active) && Find(t.db, k, 0) == Some(|s.db.users|)
  {
    CreatedRow(s, e);
    LowerTwice(ChosenName(s.db, e.username, e.prefix, e.realm));
    var t1 := Step(s, e);
    var t2 := Step(t1, CreatorDequeue);
    FindSameRows(t1.db, Step(t2, CreatorPersonalize(Activated)).db, StoredKey(s, e));
  }

  lemma ArchivePass(s: State, k: Key)
    requires s.archiveQueue == [k] && s.archiver == Idle
    ensures Step(Step(Step(s, ArchiverDequeue), ArchiverRun(true)), ArchiverFinish)
         == s.(db := SetStatus(s.db, k, Archived), archiveQueue := [])
  {
    hide SetStatus, IsEmailOnly;
    var t := Step(s, ArchiverDequeue);
    assert t == s.(archiveQueue := [], archiver := Taken(k, IsEmailOnly(s.db, k)));
    assert Step(t, ArchiverRun(true)) == s.(archiveQueue := [], archiver := Ran(k));
  }

  lemma ArchivedUser(s: State, k: Key)
    requires StatusOf(s.db, k) == Some(Active) && !CloudBusy(s.db, k.realm)
             && s.archiveQueue == [] && s.archiver == Idle
    ensures var t := ArchivedNow(s, k);
            t == s.(db := t.db) && t.db.orgs == s.db.orgs
            && StatusOf(t.db, k) == Some(Archived) && Find(t.db, k, 0) == Find(s.db, k, 0)
  {
    var db1 := SetStatus(s.db, k, Archiving);
    SetStatusReads(s.db, k, Archiving, k);
    FindSameRows(s.db, db1, k);
    SetStatusReads(db1, k, Archived, k);
    FindSameRows(db1, SetStatus(db1, k, Archived), k);
    assert SetStatus(db1, k, Archived).orgs == s.db.orgs;
    hide SetStatus, Find, CloudBusy, StatusOf;
    var t1 := Step(s, ArchiveUser(k));
    assert t1 == s.(db := db1, archiveQueue := [k]);
    ArchivePass(t1, k);
  }

  /** The desktop script makes the user ACTIVE before the creation worker looks again. If the
      user is archived in between, the worker takes the creation for failed and overwrites
      the status: the user ends parked in PROCESSING_FAILED although everything succeeded. */
  lemma CreationRace(s: State, e: Event)
    requires FreshCreation(s, e) && UnderWay(s, StoredKey(s, e)) == 0 && TypeTokens(s, StoredKey(s, e)) == 0
    requires StoredKey(s, e).username == ChosenName(s.db, e.username, e.prefix, e.realm)
    requires s.archiveQueue == [] && s.archiver == Idle
    ensures var t := Step(ArchivedNow(AfterScript(s, e), StoredKey(s, e)), CreatorCheck);
            Parked(t, StoredKey(s, e)) && StatusOf(t.db, StoredKey(s, e)) == Some(ProcessingFailed)
  {
    hide AfterScript, ArchivedNow;
    var k := StoredKey(s, e);
    var t, u := AfterScript(s, e), ArchivedNow(AfterScript(s, e), k);
    PersonalizedUser(s, e);
    ArchivedUser(t, k);
    FindSameRows(u.db, Step(u, CreatorCheck).db, k);
    LowerTwice(ChosenName(s.db, e.username, e.prefix, e.realm));
  }
}
