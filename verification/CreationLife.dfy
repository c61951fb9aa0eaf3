/** The life of a user from its creation request on, over every interleaving. */
module CreationLife {
  import opened Text
  import opened UserTable
  import opened Usernames
  import opened StatusProtocol
  import opened ArchiveProtocol
  import opened ProtocolSafety
  import opened CreationProtocol
  import opened TypeChange

  // ----- rows stay where they are -----

  /** Rows are only appended; organization and name of a row never change. */
  ghost predicate RowsKept(db: Database, after: Database) {
    && after.orgs == db.orgs && |db.users| <= |after.users|
    && forall i | 0 <= i < |db.users| ::
         after.users[i].org == db.users[i].org && after.users[i].username == db.users[i].username
  }

  lemma StepKeepsRows(s: State, e: Event)
    ensures RowsKept(s.db, Step(s, e).db)
  {
    if e.PrefixScript? || e.CreateUser? {
      hide CreationAccepted;
    } else {
      StepKeepsKeys(s, e);
      hide Step;
    }
  }

  lemma {:induction false} RunKeepsRows(s: State, es: seq<Event>)
    ensures RowsKept(s.db, Run(s, es).db)
    decreases |es|
  {
    if es != [] {
      StepKeepsRows(s, es[0]);
      hide Step;
      RunKeepsRows(Step(s, es[0]), es[1..]);
    }
  }

  lemma OwnRowKept(s: State, t: State)
    requires CreatorHoldsOwnRow(s) && RowsKept(s.db, t.db) && t.creator == s.creator
    ensures CreatorHoldsOwnRow(t)
  {
  }

  // ----- what every reachable state keeps -----

  /** The creations under way: the one in hand, then those queued. */
  function Creations(s: State): seq<Key> {
    (if s.creator == NoCreation then [] else [s.creator.key]) + s.newQueue
  }

  ghost predicate HasRow(db: Database, k: Key) {
    StatusOf(db, k).Some?
  }

  /** Every key in a queue or a worker has its row, and no user is being created twice. */
  ghost predicate Tracked(s: State) {
    && LowerOrgs(s.db.orgs) && CreatorHoldsOwnRow(s)
    && (forall k | ArchiveTokens(s, k) + RestoreTokens(s, k) > 0 :: HasRow(s.db, k))
    && (forall k | k in Creations(s) && k.realm in s.db.orgs :: HasRow(s.db, AsStored(k)))
    && (forall i, j | 0 <= i < j < |Creations(s)| && Creations(s)[i].realm in s.db.orgs ::
          AsStored(Creations(s)[i]) != AsStored(Creations(s)[j]))
  }

  /** Queues empty, workers waiting: a service that has just started. */
  ghost predicate JustStarted(s: State) {
    && LowerOrgs(s.db.orgs) && AllIdle(s)
    && s.newQueue == [] && s.creator == NoCreation
    && s.typeQueue == [] && s.typeWorker == NoType && s.passwordQueue == [] && s.passwordWorker == NoPassword
  }

  lemma StartIsTracked(s: State)
    requires JustStarted(s)
    ensures Tracked(s)
    ensures forall k: Key | Lower(k.username) == k.username && StatusOf(s.db, k) in {Some(Active), Some(Archived)}
              :: Orderly(s, k)
  {
  }

  lemma RowStays(db: Database, after: Database, k: Key)
    requires RowsKept(db, after) && HasRow(db, k)
    ensures Find(after, k, 0) == Find(db, k, 0) && HasRow(after, k)
  {
    FindSameRows(db, after, k);
  }

  /** A queue and its worker are touched by their own steps only. */
  lemma OtherQueuesStay(s: State, e: Event)
    ensures !e.ArchiveUser? && !e.ArchiverDequeue? ==>
              var t := Step(s, e);
              t.archiveQueue == s.archiveQueue
              && (t.archiver == Idle || (s.archiver != Idle && t.archiver.key == s.archiver.key))
    ensures !e.RestoreUser? && !e.RestorerDequeue? ==>
              var t := Step(s, e);
              t.restoreQueue == s.restoreQueue
              && (t.restorer == Idle || (s.restorer != Idle && t.restorer.key == s.restorer.key))
  {
    if IsConfig(e) {
      ConfigKeepsUsers(s, e);
      hide Step;
    } else {
      hide SetStatus, SetStatusById, SetType, SetPrefix, StatusOf, CloudBusy, CreationAccepted, IsEmailOnly;
    }
  }

  lemma ArchiveTokensHaveRow(s: State, e: Event, k: Key)
    requires ArchiveTokens(Step(s, e), k) > ArchiveTokens(s, k)
    ensures HasRow(s.db, k)
  {
    hide SetStatus, StatusOf, CloudBusy;
    if e.ArchiveUser? {
      QueueCounts(s.archiveQueue, e.key, k);
    } else if e.ArchiverDequeue? {
      QueueCounts(s.archiveQueue, k, k);
      assert false;
    } else {
      OtherQueuesStay(s, e);
      hide Step;
      assert false;
    }
  }

  lemma RestoreTokensHaveRow(s: State, e: Event, k: Key)
    requires RestoreTokens(Step(s, e), k) > RestoreTokens(s, k)
    ensures HasRow(s.db, k)
  {
    hide SetStatus, StatusOf, CloudBusy;
    if e.RestoreUser? {
      QueueCounts(s.restoreQueue, e.key, k);
    } else if e.RestorerDequeue? {
      QueueCounts(s.restoreQueue, k, k);
      assert false;
    } else {
      OtherQueuesStay(s, e);
      hide Step;
      assert false;
    }
  }

  lemma CreationsAfter(s: State, e: Event)
    ensures Creations(Step(s, e)) ==
            if e.CreateUser? && CreationAccepted(s.db, e.username, e.prefix, e.realm, e.inserted)
            then Creations(s) + [QueuedKey(s, e)]
            else if e.CreatorCheck? && s.creator.Personalized? then Creations(s)[1..]
            else Creations(s)
  {
    if e.CreateUser? {
      hide CreationAccepted, ChosenName, NewRow;
    } else if IsCreator(e) {
      CreatorMoves(s, e);
      hide Step;
    } else {
      OthersCreateNothing(s, e);
      hide Step;
    }
  }

  lemma CreatorMoves(s: State, e: Event)
    requires IsCreator(e)
    ensures Creations(Step(s, e)) ==
            if e.CreatorCheck? && s.creator.Personalized? then Creations(s)[1..] else Creations(s)
  {
    hide SetStatusById, Find;
    if s.newQueue != [] {
      assert s.newQueue == [s.newQueue[0]] + s.newQueue[1..];
    }
  }

  predicate IsCreator(e: Event) {
    e.CreatorDequeue? || e.CreatorPersonalize? || e.CreatorCheck?
  }

  lemma OthersCreateNothing(s: State, e: Event)
    requires !IsCreator(e) && !e.CreateUser?
    ensures Step(s, e).newQueue == s.newQueue && Step(s, e).creator == s.creator
  {
    if IsConfig(e) {
      ConfigKeepsUsers(s, e);
      hide Step;
    } else {
      hide SetStatus, SetType, SetPrefix, StatusOf, CloudBusy, IsEmailOnly;
    }
  }

  lemma OwnRowStep(s: State, e: Event)
    requires CreatorHoldsOwnRow(s)
    ensures CreatorHoldsOwnRow(Step(s, e))
  {
    StepKeepsRows(s, e);
    if !IsCreator(e) && !e.CreateUser? {
      OthersCreateNothing(s, e);
      hide Step;
      OwnRowKept(s, Step(s, e));
    } else if Step(s, e).creator == s.creator {
      hide Step;
      OwnRowKept(s, Step(s, e));
    }
  }

  lemma CreationsTracked(s: State, e: Event)
    requires Tracked(s)
    ensures var t := Step(s, e);
            && (forall k | k in Creations(t) && k.realm in t.db.orgs :: HasRow(t.db, AsStored(k)))
            && (forall i, j | 0 <= i < j < |Creations(t)| && Creations(t)[i].realm in t.db.orgs ::
                  AsStored(Creations(t)[i]) != AsStored(Creations(t)[j]))
  {
    hide Find, CreationAccepted, StatusOf;
    var t := Step(s, e);
    StepKeepsRows(s, e);
    CreationsAfter(s, e);
    assert t.db.orgs == s.db.orgs;
    if e.CreateUser? && CreationAccepted(s.db, e.username, e.prefix, e.realm, e.inserted) && e.realm in s.db.orgs {
      CreatedRow(s, e);
    }
    hide Step, Creations;
    forall k | k in Creations(t) && k.realm in t.db.orgs ensures HasRow(t.db, AsStored(k)) {
      if k in Creations(s) {
        RowStays(s.db, t.db, AsStored(k));
      }
    }
    forall i, j | 0 <= i < j < |Creations(t)| && Creations(t)[i].realm in t.db.orgs
      ensures AsStored(Creations(t)[i]) != AsStored(Creations(t)[j])
    {
      if j == |Creations(s)| && Creations(t) == Creations(s) + [QueuedKey(s, e)] {
        assert Creations(t)[i] in Creations(s);
      }
    }
  }

  lemma StepTracked(s: State, e: Event)
    requires Tracked(s)
    ensures Tracked(Step(s, e))
  {
    hide Step, StatusOf, Creations, ArchiveTokens, RestoreTokens;
    StepKeepsRows(s, e);
    OwnRowStep(s, e);
    CreationsTracked(s, e);
    forall k | ArchiveTokens(Step(s, e), k) + RestoreTokens(Step(s, e), k) > 0 ensures HasRow(Step(s, e).db, k) {
      if ArchiveTokens(Step(s, e), k) > ArchiveTokens(s, k) {
        ArchiveTokensHaveRow(s, e, k);
      } else if RestoreTokens(Step(s, e), k) > RestoreTokens(s, k) {
        RestoreTokensHaveRow(s, e, k);
      }
      RowStays(s.db, Step(s, e).db, k);
    }
  }

  lemma {:induction false} RunTracked(s: State, es: seq<Event>)
    requires Tracked(s)
    ensures Tracked(Run(s, es))
    decreases |es|
  {
    hide Step, Tracked;
    if es != [] {
      StepTracked(s, es[0]);
      RunTracked(Step(s, es[0]), es[1..]);
    }
  }

  /** A user that is created is in no queue and no worker yet. */
  lemma NothingForNew(s: State, e: Event)
    requires Tracked(s) && Creates(s, e)
    ensures UnderWay(s, StoredKey(s, e)) == 0
    ensures forall k | k in Creations(s) :: AsStored(k) != StoredKey(s, e)
  {
    CreatedRow(s, e);
  }

  // ----- a name with a capital letter -----

  /** Whenever the creation worker looks, it finds the row that was inserted if the name is in
      lower case, and none at all otherwise. */
  lemma WorkerFindsRowLater(s: State, e: Event, es: seq<Event>)
    requires Creates(s, e) && LowerNames(s.db)
    ensures Find(Run(Step(s, e), es).db, QueuedKey(s, e), 0)
         == if Lower(QueuedKey(s, e).username) == QueuedKey(s, e).username then Some(|s.db.users|) else None
  {
    var k, t := QueuedKey(s, e), Step(s, e);
    if Lower(k.username) == k.username {
      WorkerFindsRow(s, e);
      RunKeepsRows(t, es);
      hide Step;
      RowStays(t.db, Run(t, es).db, k);
    } else {
      StepLowerNames(s, e);
      hide Step;
      RunLowerNames(t, es);
      var db := Run(t, es).db;
      forall i | 0 <= i < |db.users| ensures !IsRow(db, db.users[i], k) {
        assert db.users[i] in db.users;
      }
    }
  }

  /** A user created under a name with a capital letter, with no type change queued under its
      stored name, is parked in PROCESSING at once. */
  lemma CapitalNameParked(s: State, e: Event)
    requires Tracked(s) && Creates(s, e) && Lower(QueuedKey(s, e).username) != QueuedKey(s, e).username
    requires TypeTokens(s, StoredKey(s, e)) == 0
    ensures Parked(Step(s, e), StoredKey(s, e)) && StatusOf(Step(s, e).db, StoredKey(s, e)) == Some(Processing)
  {
    var k, t := StoredKey(s, e), Step(s, e);
    CreatedRow(s, e);
    NothingForNew(s, e);
    LowerTwice(QueuedKey(s, e).username);
    OwnRowStep(s, e);
    assert forall x | x in t.newQueue :: x in s.newQueue || x == QueuedKey(s, e);
    assert forall x | x in s.newQueue :: x in Creations(s);
  }

  /** It stays in PROCESSING over a run, whatever else is queued and however the desktop
      script ends, if and only if the run accepts no type change for it and no password
      change of it fails while it is e-mail-only. */
  lemma CapitalNameParks(s: State, e: Event, es: seq<Event>)
    requires Tracked(s) && Creates(s, e) && Lower(QueuedKey(s, e).username) != QueuedKey(s, e).username
    requires TypeTokens(s, StoredKey(s, e)) == 0
    ensures AlwaysIs(Step(s, e), es, StoredKey(s, e), Processing) <==> Undisturbed(Step(s, e), es, StoredKey(s, e))
    ensures Undisturbed(Step(s, e), es, StoredKey(s, e)) ==> Parked(Run(Step(s, e), es), StoredKey(s, e))
  {
    hide Step, Tracked, Parked;
    CapitalNameParked(s, e);
    StuckExactly(Step(s, e), es, StoredKey(s, e), Processing);
    if Undisturbed(Step(s, e), es, StoredKey(s, e)) {
      RunParked(Step(s, e), es, StoredKey(s, e));
    }
  }

  // ----- a name in lower case -----

  /** The state without the creations under way. */
  function Aside(s: State): State {
    s.(creator := NoCreation, newQueue := [])
  }

  ghost predicate BesideCreations(s: State, e: Event) {
    var u := Step(Aside(s), e);
    u.creator == NoCreation && Step(s, e) == u.(creator := s.creator, newQueue := s.newQueue + u.newQueue)
  }

  lemma AsideConfig(s: State, e: Event)
    requires IsConfig(e)
    ensures BesideCreations(s, e)
  {
    hide SetDc, CreationRunning;
  }

  lemma AsideArchiving(s: State, e: Event)
    requires e.ArchiverDequeue? || e.ArchiverRun? || e.ArchiverFinish?
             || e.RestorerDequeue? || e.RestorerRun? || e.RestorerFinish?
    ensures BesideCreations(s, e)
  {
    hide SetStatus, IsEmailOnly;
  }

  lemma AsideRequests(s: State, e: Event)
    requires e.CreateUser? || e.ArchiveUser? || e.RestoreUser? || e.ChangeType? || e.ChangePassword? || e.PrefixScript?
    ensures BesideCreations(s, e)
  {
    hide SetStatus, SetPrefix, StatusOf, CloudBusy, CreationAccepted;
  }

  /** All steps but those of the creation worker do the same without the creations. */
  lemma StepAside(s: State, e: Event)
    requires !IsCreator(e)
    ensures BesideCreations(s, e)
  {
    if IsConfig(e) {
      AsideConfig(s, e);
    } else if e.CreateUser? || e.ArchiveUser? || e.RestoreUser? || e.ChangeType?
              || e.ChangePassword? || e.PrefixScript? {
      AsideRequests(s, e);
    } else if IsArchiving(e) {
      AsideArchiving(s, e);
    } else {
      hide SetStatus, SetType, IsEmailOnly;
    }
  }

  lemma AsideOrderly(s: State, k: Key)
    ensures Orderly(s, k) ==> Orderly(Aside(s), k)
    ensures Parked(s, k) ==> Parked(Aside(s), k)
    ensures Orderly(Aside(s), k) && CreatorHoldsOwnRow(s) && k !in Creations(s) ==> Orderly(s, k)
    ensures Parked(Aside(s), k) && CreatorHoldsOwnRow(s) && k !in Creations(s) ==> Parked(s, k)
  {
    hide StatusOf;
    assert k !in Creations(s) ==> k !in s.newQueue && (s.creator != NoCreation ==> s.creator.key != k);
  }

  /** A step outside the creation worker, seen from a user that may be under creation. */
  ghost predicate StepsBeside(s: State, e: Event, k: Key) {
    var t := Step(s, e);
    && t.creator == s.creator && CreatorHoldsOwnRow(t) && Find(t.db, k, 0) == Find(s.db, k, 0)
    && multiset(t.newQueue)[k] == multiset(s.newQueue)[k]
    && (Orderly(Aside(s), k) ==> Orderly(Aside(t), k))
    && (Parked(Aside(s), k) ==> Parked(Aside(t), k) && StatusOf(t.db, k) == StatusOf(s.db, k))
  }

  lemma StepSettled(s: State, e: Event, k: Key)
    requires (Orderly(s, k) || Parked(s, k)) && !Intrudes(s, e, k)
    ensures k !in Step(s, e).newQueue
    ensures Orderly(s, k) ==> Orderly(Step(s, e), k)
    ensures Parked(s, k) ==> Parked(Step(s, e), k) && StatusOf(Step(s, e).db, k) == StatusOf(s.db, k)
  {
    hide Step, StatusOf, Intrudes, CreatorHoldsOwnRow;
    if Orderly(s, k) {
      StepSummary(s, e, k);
    }
    if Parked(s, k) {
      StepParked(s, e, k);
    }
  }

  lemma StepBeside(s: State, e: Event, k: Key)
    requires !IsCreator(e) && !Intrudes(s, e, k)
    requires CreatorHoldsOwnRow(s) && (Orderly(Aside(s), k) || Parked(Aside(s), k))
    ensures StepsBeside(s, e, k)
  {
    var t, u := Step(s, e), Step(Aside(s), e);
    assert HasRow(s.db, k) by {
      assert Settled(Aside(s), k);
    }
    assert !Intrudes(Aside(s), e, k);
    hide Step, Orderly, Parked, CreatorHoldsOwnRow, Find, Intrudes;
    StepKeepsRows(s, e);
    RowStays(s.db, t.db, k);
    OwnRowStep(s, e);
    StepAside(s, e);
    StepSettled(Aside(s), e, k);
    assert multiset(s.newQueue + u.newQueue)[k] == multiset(s.newQueue)[k] + multiset(u.newQueue)[k];
    AsideOrderly(u, k);
    assert Aside(t) == Aside(u);
  }

  /** Queued for creation. */
  ghost predicate Waiting(s: State, k: Key) {
    && multiset(s.newQueue)[k] == 1 && (s.creator != NoCreation ==> s.creator.key != k)
    && Parked(Aside(s), k) && StatusOf(s.db, k) == Some(Processing)
  }

  /** The creation worker runs the desktop script. */
  ghost predicate Working(s: State, k: Key) {
    && k !in s.newQueue && s.creator == Personalizing(k, Find(s.db, k, 0))
    && Parked(Aside(s), k) && StatusOf(s.db, k) == Some(Processing)
  }

  /** The script has ended and the worker is about to look at the status. From an ACTIVE one
      on, archive and restore requests are accepted. */
  ghost predicate Checking(s: State, k: Key) {
    && k !in s.newQueue && s.creator == Personalized(k, Find(s.db, k, 0))
    && (Orderly(Aside(s), k)
        || (Parked(Aside(s), k) && StatusOf(s.db, k) in {Some(Processing), Some(ProcessingFailed)}))
  }

  /** Taken for a failed creation while a request was under way. */
  ghost predicate Overtaken(s: State, k: Key) {
    Settled(s, k) && UnderWay(s, k) == 1 && StatusOf(s.db, k) == Some(ProcessingFailed)
  }

  /** The creation is over. */
  ghost predicate Created(s: State, k: Key) {
    || Orderly(s, k) || Overtaken(s, k) || Changing(s, k)
    || (Parked(s, k) && StatusOf(s.db, k) == Some(ProcessingFailed))
  }

  /** The step does not interfere with `k`, or is a type change of `k` while its creation is
      over and nothing else is under way for it. */
  ghost predicate Permits(s: State, e: Event, k: Key) {
    !Intrudes(s, e, k) || (e.ChangeType? && Settled(s, k) && UnderWay(s, k) == 0)
  }

  ghost predicate PermittedRun(s: State, es: seq<Event>, k: Key)
    decreases |es|
  {
    es == [] || (Permits(s, es[0], k) && PermittedRun(Step(s, es[0]), es[1..], k))
  }

  ghost predicate Life(s: State, k: Key) {
    CreatorHoldsOwnRow(s) && (Waiting(s, k) || Working(s, k) || Checking(s, k) || Created(s, k))
  }

  lemma SetOwnStatus(db: Database, k: Key, st: Status)
    requires HasRow(db, k)
    ensures var after := SetStatusById(db, Find(db, k, 0), st);
            RowsKept(db, after) && Find(after, k, 0) == Find(db, k, 0) && StatusOf(after, k) == Some(st)
  {
    FindSameRows(db, SetStatusById(db, Find(db, k, 0), st), k);
  }

  lemma WaitingTaken(s: State, e: Event, k: Key)
    requires CreatorHoldsOwnRow(s) && Waiting(s, k) && e.CreatorDequeue?
    ensures Waiting(Step(s, e), k) || Working(Step(s, e), k)
  {
    hide Orderly, Parked, CreatorHoldsOwnRow, StatusOf;
    QueueCounts(s.newQueue, k, k);
    assert Aside(Step(s, e)) == Aside(s);
  }

  /** The creation worker is busy with another user. */
  lemma WaitingBusy(s: State, e: Event, k: Key)
    requires CreatorHoldsOwnRow(s) && Waiting(s, k) && (e.CreatorPersonalize? || e.CreatorCheck?)
    ensures Waiting(Step(s, e), k)
  {
    var alone := s.(newQueue := []);
    assert Step(s, e) == Step(alone, e).(newQueue := s.newQueue);
    assert Step(s, e).creator != NoCreation ==> Step(s, e).creator.key == s.creator.key;
    assert k !in Creations(alone) && CreatorHoldsOwnRow(alone);
    hide Step, Orderly, Parked, CreatorHoldsOwnRow, Creations, StatusOf;
    assert Aside(alone) == Aside(s);
    AsideOrderly(alone, k);
    assert !Intrudes(alone, e, k);
    StepParked(alone, e, k);
    AsideOrderly(Step(alone, e), k);
    assert Aside(Step(s, e)) == Aside(Step(alone, e));
    assert StatusOf(alone.db, k) == Some(Processing);
    assert Step(s, e).creator != NoCreation ==> s.creator != NoCreation;
  }

  lemma WaitingStep(s: State, e: Event, k: Key)
    requires CreatorHoldsOwnRow(s) && Waiting(s, k) && !Intrudes(s, e, k)
    ensures Life(Step(s, e), k)
  {
    OwnRowStep(s, e);
    hide Step, Orderly, Parked, CreatorHoldsOwnRow;
    if !IsCreator(e) {
      StepBeside(s, e, k);
    } else if e.CreatorDequeue? {
      WaitingTaken(s, e, k);
    } else {
      WaitingBusy(s, e, k);
    }
  }

  lemma WorkingStep(s: State, e: Event, k: Key)
    requires CreatorHoldsOwnRow(s) && Working(s, k) && !Intrudes(s, e, k)
    ensures Life(Step(s, e), k)
  {
    OwnRowStep(s, e);
    if !IsCreator(e) {
      hide Step, Orderly, Parked, CreatorHoldsOwnRow;
      StepBeside(s, e, k);
    } else if e.CreatorPersonalize? {
      ScriptEnds(s, e, k);
    } else {
      assert Step(s, e) == s;
    }
  }

  lemma ScriptEnds(s: State, e: Event, k: Key)
    requires CreatorHoldsOwnRow(s) && Working(s, k) && e.CreatorPersonalize?
    ensures Checking(Step(s, e), k)
  {
    if !e.outcome.LeftAlone? {
      SetOwnStatus(s.db, k, if e.outcome.Activated? then Active else ProcessingFailed);
    }
  }

  /** What the last step of the creation worker makes of the user. */
  lemma CheckStep(s: State, k: Key)
    requires CreatorHoldsOwnRow(s) && Checking(s, k)
    ensures var u := Step(s, CreatorCheck);
            && (StatusOf(s.db, k) == Some(Active) ==> Orderly(u, k) && StatusOf(u.db, k) == Some(Active))
            && (StatusOf(s.db, k) != Some(Active) ==> StatusOf(u.db, k) == Some(ProcessingFailed))
            && (StatusOf(s.db, k) != Some(Active) && UnderWay(s, k) == 0 ==> Parked(u, k))
            && (StatusOf(s.db, k) != Some(Active) && UnderWay(s, k) != 0 ==> Overtaken(u, k))
            && UnderWay(u, k) == UnderWay(s, k)
  {
    SetOwnStatus(s.db, k, ProcessingFailed);
  }

  lemma CheckingStep(s: State, e: Event, k: Key)
    requires CreatorHoldsOwnRow(s) && Checking(s, k) && !Intrudes(s, e, k)
    ensures Life(Step(s, e), k)
  {
    OwnRowStep(s, e);
    if !IsCreator(e) {
      hide Step, Orderly, Parked, CreatorHoldsOwnRow;
      StepBeside(s, e, k);
    } else if e.CreatorCheck? {
      hide Step, Orderly, Parked, Overtaken, CreatorHoldsOwnRow;
      CheckStep(s, k);
    } else {
      assert Step(s, e) == s;
    }
  }

  /** The request under way goes on, and when it completes the user is orderly again. */
  lemma OvertakenStep(s: State, e: Event, k: Key)
    requires Overtaken(s, k) && !Intrudes(s, e, k)
    ensures Orderly(Step(s, e), k) || (Overtaken(Step(s, e), k) && Completes(s, e, k) == [])
  {
    if !Acts(s, e, k) {
      OvertakenBeside(s, e, k);
    } else if e.ArchiverRun? || e.ArchiverFinish? {
      OvertakenArchiver(s, e, k);
    } else if e.RestorerRun? || e.RestorerFinish? {
      OvertakenRestorer(s, e, k);
    } else {
      hide Step, Orderly, Overtaken;
      OvertakenHarmless(s, e, k);
    }
  }

  lemma OvertakenArchiver(s: State, e: Event, k: Key)
    requires Overtaken(s, k) && (e.ArchiverRun? || e.ArchiverFinish?) && s.archiver != Idle && s.archiver.key == k
    ensures Orderly(Step(s, e), k) || (Overtaken(Step(s, e), k) && Completes(s, e, k) == [])
  {
    hide StatusOf, SetStatus, Settled;
    SetStatusSettled(s, k, k, if e.ArchiverRun? then ArchivingFailed else Archived);
    SettledQueues(s.(db := Step(s, e).db), Step(s, e), k);
  }

  lemma OvertakenRestorer(s: State, e: Event, k: Key)
    requires Overtaken(s, k) && (e.RestorerRun? || e.RestorerFinish?) && s.restorer != Idle && s.restorer.key == k
    ensures Orderly(Step(s, e), k) || (Overtaken(Step(s, e), k) && Completes(s, e, k) == [])
  {
    hide StatusOf, SetStatus, Settled;
    SetStatusSettled(s, k, k, if e.RestorerRun? then ActivatingFailed else Active);
    SettledQueues(s.(db := Step(s, e).db), Step(s, e), k);
  }

  lemma OvertakenBeside(s: State, e: Event, k: Key)
    requires Overtaken(s, k) && !Intrudes(s, e, k) && !Acts(s, e, k)
    ensures Overtaken(Step(s, e), k) && Completes(s, e, k) == []
  {
    assert Completes(s, e, k) == [];
    hide Step, Settled, StatusOf, Acts, Intrudes, Completes;
    StepHeld(s, e, k);
  }

  lemma OvertakenHarmless(s: State, e: Event, k: Key)
    requires Overtaken(s, k) && Harmless(s, e, k)
    ensures Orderly(Step(s, e), k)
  {
    hide StatusOf, SetStatus, Settled;
    SetStatusSettled(s, k, k, if e.PasswordRestore? then ActivatingFailed else ArchivingFailed);
    SettledQueues(s.(db := Step(s, e).db), Step(s, e), k);
  }

  lemma StepLife(s: State, e: Event, k: Key)
    requires Life(s, k) && Permits(s, e, k)
    ensures Life(Step(s, e), k)
  {
    hide Step, Orderly, Parked, Overtaken, Changing, CreatorHoldsOwnRow, Intrudes, Settled, UnderWay;
    OwnRowStep(s, e);
    if Intrudes(s, e, k) {
      ChangeStarts(s, e, k);
    } else if Waiting(s, k) {
      WaitingStep(s, e, k);
    } else if Working(s, k) {
      WorkingStep(s, e, k);
    } else if Checking(s, k) {
      CheckingStep(s, e, k);
    } else if Orderly(s, k) {
      StepSummary(s, e, k);
    } else if Overtaken(s, k) {
      OvertakenStep(s, e, k);
    } else if Changing(s, k) {
      ChangingStep(s, e, k);
    } else {
      StepParked(s, e, k);
    }
  }

  lemma {:induction false} RunLife(s: State, es: seq<Event>, k: Key)
    requires Life(s, k) && PermittedRun(s, es, k)
    ensures Life(Run(s, es), k)
    decreases |es|
  {
    hide Step, Life, Permits;
    if es != [] {
      StepLife(s, es[0], k);
      RunLife(Step(s, es[0]), es[1..], k);
    }
  }

  lemma CreationWaits(s: State, e: Event)
    requires Tracked(s) && Creates(s, e) && QueuedKey(s, e) == StoredKey(s, e) && TypeTokens(s, StoredKey(s, e)) == 0
    ensures CreatorHoldsOwnRow(Step(s, e)) && Waiting(Step(s, e), StoredKey(s, e))
  {
    var k, t := StoredKey(s, e), Step(s, e);
    CreatedRow(s, e);
    NothingForNew(s, e);
    OwnRowStep(s, e);
    QueueCounts(s.newQueue, k, k);
    assert forall x | x in s.newQueue :: x in Creations(s);
  }

  /** From the start of the service over every run: a user created under a name in lower case
      goes through the stages above, whatever else is created, archived, restored, changed
      and configured in between, as long as its own type is changed only while nothing else
      is under way for it and its own password changes do not fail while it is e-mail-only. */
  lemma LifeFromStart(s: State, before: seq<Event>, e: Event, after: seq<Event>)
    requires JustStarted(s)
    requires Creates(Run(s, before), e) && QueuedKey(Run(s, before), e) == StoredKey(Run(s, before), e)
    requires TypeTokens(Run(s, before), StoredKey(Run(s, before), e)) == 0
    requires PermittedRun(Step(Run(s, before), e), after, StoredKey(Run(s, before), e))
    ensures Life(Run(Step(Run(s, before), e), after), StoredKey(Run(s, before), e))
  {
    hide Step, Tracked;
    StartIsTracked(s);
    RunTracked(s, before);
    CreationWaits(Run(s, before), e);
    RunLife(Step(Run(s, before), e), after, StoredKey(Run(s, before), e));
  }

  // ----- when the last look of the creation worker is right -----

  predicate NoCheck(es: seq<Event>) {
    forall e | e in es :: !e.CreatorCheck?
  }

  /** The creations under way are not looked at. */
  lemma SameAside(s: State, e: Event, k: Key)
    ensures Accepts(Aside(s), e, k) == Accepts(s, e, k) && Completes(Aside(s), e, k) == Completes(s, e, k)
    ensures UnderWay(Aside(s), k) == UnderWay(s, k) && NextOp(Aside(s), k) == NextOp(s, k)
    ensures Intrudes(Aside(s), e, k) == Intrudes(s, e, k)
  {
    hide StatusOf, CloudBusy, SetStatus;
  }

  lemma CheckingSummary(s: State, e: Event, k: Key)
    requires CreatorHoldsOwnRow(s) && Checking(s, k) && Orderly(Aside(s), k) && !e.CreatorCheck? && !Intrudes(s, e, k)
    ensures var t := Step(s, e);
            && CreatorHoldsOwnRow(t) && Checking(t, k) && Orderly(Aside(t), k)
            && UnderWay(s, k) + Accepts(s, e, k) == UnderWay(t, k) + |Completes(s, e, k)|
            && ((Completes(s, e, k) == [] && NextOp(t, k) == NextOp(s, k))
                || (|Completes(s, e, k)| == 1 && NextOp(t, k) == Other(NextOp(s, k))))
  {
    if IsCreator(e) {
      assert Step(s, e) == s;
    } else {
      hide Step, Orderly, Parked, CreatorHoldsOwnRow, Intrudes;
      SameAside(s, e, k);
      StepBeside(s, e, k);
      StepSummary(Aside(s), e, k);
      StepAside(s, e);
      SameAside(Step(s, e), e, k);
      SameAside(Step(Aside(s), e), e, k);
    }
  }

  lemma {:induction false} CheckingRun(s: State, es: seq<Event>, k: Key)
    requires CreatorHoldsOwnRow(s) && Checking(s, k) && Orderly(Aside(s), k) && NoCheck(es) && Undisturbed(s, es, k)
    ensures var t := Run(s, es);
            && CreatorHoldsOwnRow(t) && Checking(t, k) && Orderly(Aside(t), k)
            && UnderWay(s, k) + Accepted(s, es, k) == UnderWay(t, k) + |Completed(s, es, k)|
            && NextOp(t, k) == if |Completed(s, es, k)| % 2 == 0 then NextOp(s, k) else Other(NextOp(s, k))
    decreases |es|
  {
    hide Step, Orderly, CreatorHoldsOwnRow, Checking, UnderWay, NextOp, Completes, Accepts, Intrudes;
    if es != [] {
      var next := Step(s, es[0]);
      CheckingSummary(s, es[0], k);
      CheckingRun(next, es[1..], k);
      assert |Completed(s, es, k)| == |Completes(s, es[0], k)| + |Completed(next, es[1..], k)|;
    }
  }

  lemma ActiveIsOrderly(s: State, k: Key)
    requires Checking(s, k) && StatusOf(s.db, k) == Some(Active)
    ensures Orderly(Aside(s), k)
  {
  }

  lemma StatusInFlight(s: State, k: Key)
    requires Orderly(Aside(s), k)
    ensures StatusOf(s.db, k) == Some(Active) <==> UnderWay(s, k) == 0 && NextOp(s, k) == ArchiveOp
    ensures StatusOf(s.db, k) != Some(ProcessingFailed)
  {
    hide Settled, StatusOf;
    assert StatusByPlace(Aside(s), k);
  }

  /** The desktop script has made the user ACTIVE. Over every run up to the worker's look,
      the creation is taken for a success exactly when no request for the user is under way
      and an even number was accepted. Otherwise PROCESSING_FAILED is written: for good if
      nothing is under way, else until the request under way is done. */
  lemma CheckExactly(s: State, es: seq<Event>, k: Key)
    requires CreatorHoldsOwnRow(s) && Checking(s, k) && NoCheck(es) && Undisturbed(s, es, k)
    requires StatusOf(s.db, k) == Some(Active)
    ensures var t := Run(s, es);
            var u := Step(t, CreatorCheck);
            var quiet, even := UnderWay(t, k) == 0, Accepted(s, es, k) % 2 == 0;
            && (StatusOf(u.db, k) == StatusOf(t.db, k) <==> quiet && even)
            && (quiet && even ==> Orderly(u, k) && StatusOf(u.db, k) == Some(Active))
            && (quiet && !even ==> Parked(u, k) && StatusOf(u.db, k) == Some(ProcessingFailed))
            && (!quiet ==> Overtaken(u, k))
  {
    hide Run, Step, Orderly, Checking, Overtaken, Parked, CreatorHoldsOwnRow, UnderWay, NextOp, StatusOf;
    var t := Run(s, es);
    ActiveIsOrderly(s, k);
    StatusInFlight(s, k);
    CheckingRun(s, es, k);
    StatusInFlight(t, k);
    CheckStep(t, k);
  }

  /** A user taken for failed while a request was under way: the request still completes,
      and from then on the user is orderly. */
  lemma {:induction false} OvertakenRun(s: State, es: seq<Event>, k: Key)
    requires Overtaken(s, k) && Undisturbed(s, es, k)
    ensures Orderly(Run(s, es), k) || (Overtaken(Run(s, es), k) && Completed(s, es, k) == [])
    decreases |es|
  {
    hide Step, Orderly, Overtaken, Completes, Intrudes;
    if es != [] {
      var next := Step(s, es[0]);
      OvertakenStep(s, es[0], k);
      if Orderly(next, k) {
        RunOrderly(next, es[1..], k);
      } else {
        OvertakenRun(next, es[1..], k);
      }
    }
  }

  /** Once queues and workers are idle again, the user is left in PROCESSING_FAILED exactly
      when at the worker's look nothing was under way and an odd number of requests had been
      accepted; in every other case it is ACTIVE or ARCHIVED. */
  lemma LeftFailedExactly(s: State, es: seq<Event>, fs: seq<Event>, k: Key)
    requires CreatorHoldsOwnRow(s) && Checking(s, k) && NoCheck(es) && Undisturbed(s, es, k)
    requires StatusOf(s.db, k) == Some(Active)
    requires var u := Step(Run(s, es), CreatorCheck); Undisturbed(u, fs, k) && AllIdle(Run(u, fs))
    ensures var status := StatusOf(Run(Step(Run(s, es), CreatorCheck), fs).db, k);
            && status in {Some(Active), Some(Archived), Some(ProcessingFailed)}
            && (status == Some(ProcessingFailed) <==> UnderWay(Run(s, es), k) == 0 && Accepted(s, es, k) % 2 == 1)
  {
    var t := Run(s, es);
    var u := Step(t, CreatorCheck);
    var end := Run(u, fs);
    CheckExactly(s, es, k);
    hide Step, Run, Orderly, Overtaken, Parked, Checking, CreatorHoldsOwnRow, StatusOf;
    if UnderWay(t, k) == 0 && Accepted(s, es, k) % 2 == 1 {
      RunParked(u, fs, k);
    } else {
      if UnderWay(t, k) == 0 {
        RunOrderly(u, fs, k);
      } else {
        OvertakenRun(u, fs, k);
        IdleNotOvertaken(end, k);
      }
      IdleOrderly(end, k);
    }
  }

  lemma IdleNotOvertaken(s: State, k: Key)
    requires AllIdle(s)
    ensures !Overtaken(s, k)
  {
  }

  lemma IdleOrderly(s: State, k: Key)
    requires AllIdle(s) && Orderly(s, k)
    ensures StatusOf(s.db, k) in {Some(Active), Some(Archived)}
  {
  }

  // ----- requests of all kinds at once, creation included -----

  /** Creations of `k` that are queued or in the worker. */
  function CreationTokens(s: State, k: Key): nat {
    multiset(s.newQueue)[k] + (if s.creator != NoCreation && s.creator.key == k then 1 else 0)
  }

  /** The worker holds the row of its own user. */
  ghost predicate HoldsRowOf(s: State, k: Key) {
    CreatorHoldsOwnRow(s) && (s.creator != NoCreation && s.creator.key == k ==> s.creator.id == Find(s.db, k, 0))
  }

  /** With nothing pending, creation included, the user is ACTIVE, ARCHIVED or
      PROCESSING_FAILED. Any number of requests may be pending, in any combination. */
  ghost predicate Ever(s: State, k: Key) {
    && HoldsRowOf(s, k) && Settled(TypeAside(Aside(s)), k)
    && (Pending(s, k) + CreationTokens(s, k) == 0 ==>
          StatusOf(s.db, k) in {Some(Active), Some(Archived), Some(ProcessingFailed)})
  }

  lemma PendingAside(s: State, e: Event, k: Key)
    ensures Pending(Aside(s), k) == Pending(s, k) && PasswordFails(Aside(s), e, k) == PasswordFails(s, e, k)
  {
  }

  lemma FromTypeAside(s: State, k: Key)
    requires Settled(TypeAside(s), k) && TypeTokens(s, k) == 0
    ensures Settled(s, k)
  {
    hide StatusOf, TypeTokens;
  }

  /** A step beside the creations, when the user is ACTIVE, ARCHIVED or busy, or not. */
  lemma EverAside(s: State, e: Event, k: Key)
    requires !IsCreator(e) && s == Aside(s) && Settled(TypeAside(s), k)
    requires !(PasswordFails(s, e, k) && Pending(s, k) == 0)
    ensures var u := Step(s, e);
            && Settled(TypeAside(u), k) && k !in u.newQueue
            && (Pending(u, k) == 0 ==>
                  StatusOf(u.db, k) in {Some(Active), Some(Archived)}
                  || (Pending(s, k) == 0 && StatusOf(u.db, k) == StatusOf(s.db, k)))
  {
    AsideFacts(s, e, k);
    if Loose(s, k) {
      hide Step, PasswordFails, StatusOf, Intrudes;
      LooseStep(s, e, k);
      NotQueued(s, e, k);
    } else {
      hide Step, PasswordFails, StatusOf, Intrudes;
      FromTypeAside(s, k);
      assert Parked(s, k);
      if Intrudes(s, e, k) {
        ChangeStarts(s, e, k);
        NotQueued(s, e, k);
      } else {
        StepParked(s, e, k);
        SettledTypeAside(Step(s, e), k);
      }
    }
  }

  lemma NotQueued(s: State, e: Event, k: Key)
    requires Settled(TypeAside(Step(s, e)), k)
    ensures k !in Step(s, e).newQueue
  {
    hide Step, StatusOf;
  }

  lemma EverBeside(s: State, e: Event, k: Key)
    requires Ever(s, k) && !IsCreator(e) && !(PasswordFails(s, e, k) && Pending(s, k) == 0)
    ensures Ever(Step(s, e), k)
  {
    var a, t := Aside(s), Step(s, e);
    var u := Step(a, e);
    assert HasRow(s.db, k) by {
      assert Settled(TypeAside(a), k);
    }
    hide Step, Settled, PasswordFails, StatusOf, Find, CreatorHoldsOwnRow;
    PendingAside(s, e, k);
    EverAside(a, e, k);
    StepAside(s, e);
    StepKeepsRows(s, e);
    RowStays(s.db, t.db, k);
    OwnRowStep(s, e);
    PendingAside(t, e, k);
    PendingAside(u, e, k);
    assert Aside(t) == Aside(u);
    SettledAside(TypeAside(u), k);
    assert TypeAside(Aside(t)) == Aside(TypeAside(u));
    hide Pending;
    assert multiset(s.newQueue + u.newQueue)[k] == multiset(s.newQueue)[k] + multiset(u.newQueue)[k];
  }

  lemma SettledAside(s: State, k: Key)
    requires Settled(s, k)
    ensures Settled(Aside(s), k)
  {
    hide StatusOf;
  }

  lemma EverTaken(s: State, e: Event, k: Key)
    requires Ever(s, k) && e.CreatorDequeue?
    ensures Ever(Step(s, e), k)
  {
    hide Settled, StatusOf;
    OwnRowStep(s, e);
    QueueCounts(s.newQueue, k, k);
    PendingAside(s, e, k);
    PendingAside(Step(s, e), e, k);
    assert Aside(Step(s, e)) == Aside(s);
  }

  /** The creation worker writes the row of `k` or of another user. */
  lemma WorkerWrites(s: State, e: Event, k: Key)
    requires HoldsRowOf(s, k) && (e.CreatorPersonalize? || e.CreatorCheck?) && HasRow(s.db, k)
    ensures var t := Step(s, e);
            Find(t.db, k, 0) == Find(s.db, k, 0) && HasRow(t.db, k) && t.db.orgs == s.db.orgs
            && (s.creator.Personalized? && s.creator.key == k && e.CreatorCheck? ==>
                  StatusOf(t.db, k) in {Some(Active), Some(ProcessingFailed)})
            && (s.creator == NoCreation || s.creator.key != k ==> StatusOf(t.db, k) == StatusOf(s.db, k))
  {
    if s.creator != NoCreation && s.creator.key == k {
      SetOwnStatus(s.db, k, Active);
      SetOwnStatus(s.db, k, ProcessingFailed);
    } else if s.creator != NoCreation {
      SetByIdReads(s.db, s.creator.id, Active, k);
      SetByIdReads(s.db, s.creator.id, ProcessingFailed, k);
      StepKeepsRows(s, e);
      RowStays(s.db, Step(s, e).db, k);
    }
  }

  lemma CreatorLeaves(s: State, e: Event, k: Key)
    requires e.CreatorPersonalize? || e.CreatorCheck?
    ensures var t := Step(s, e);
            && Pending(t, k) == Pending(s, k) && t.newQueue == s.newQueue
            && (t.creator != NoCreation ==>
                  s.creator != NoCreation && t.creator.key == s.creator.key && t.creator.id == s.creator.id)
            && (t.creator == NoCreation && s.creator != NoCreation ==> e.CreatorCheck? && s.creator.Personalized?)
  {
    hide SetStatusById;
  }

  lemma StillSettled(s: State, t: State, k: Key)
    requires Settled(s, k) && t.db.orgs == s.db.orgs && HasRow(t.db, k)
    requires t.creator == NoCreation && t.newQueue == [] && t.typeQueue == [] && t.typeWorker == NoType
    ensures Settled(t, k)
  {
    hide StatusOf;
  }

  lemma EverWrites(s: State, e: Event, k: Key)
    requires Ever(s, k) && (e.CreatorPersonalize? || e.CreatorCheck?)
    ensures Ever(Step(s, e), k)
  {
    var t := Step(s, e);
    assert HasRow(s.db, k) by {
      assert Settled(TypeAside(Aside(s)), k);
    }
    hide Step, Settled, StatusOf, Find, CreatorHoldsOwnRow, Pending;
    WorkerWrites(s, e, k);
    CreatorLeaves(s, e, k);
    OwnRowStep(s, e);
    StillSettled(TypeAside(Aside(s)), TypeAside(Aside(t)), k);
  }

  lemma EverStep(s: State, e: Event, k: Key)
    requires Ever(s, k) && !(PasswordFails(s, e, k) && Pending(s, k) == 0)
    ensures Ever(Step(s, e), k)
  {
    hide Step, Ever, PasswordFails, Pending;
    if !IsCreator(e) {
      EverBeside(s, e, k);
    } else if e.CreatorDequeue? {
      EverTaken(s, e, k);
    } else {
      EverWrites(s, e, k);
    }
  }

  /** However the creation, archive, restore and type change requests for a user overlap, once
      all are done it is ACTIVE, ARCHIVED or PROCESSING_FAILED. */
  lemma {:induction false} RunEver(s: State, es: seq<Event>, k: Key)
    requires Ever(s, k) && NoneFailsAlone(s, es, k)
    ensures Ever(Run(s, es), k)
    decreases |es|
  {
    hide Step, PasswordFails, Pending, Ever;
    if es != [] {
      EverStep(s, es[0], k);
      RunEver(Step(s, es[0]), es[1..], k);
    }
  }

  lemma CreationIsEver(s: State, e: Event)
    requires Tracked(s) && Creates(s, e) && QueuedKey(s, e) == StoredKey(s, e)
    ensures Ever(Step(s, e), StoredKey(s, e))
  {
    var k, t := StoredKey(s, e), Step(s, e);
    CreatedRow(s, e);
    NothingForNew(s, e);
    OwnRowStep(s, e);
    QueueCounts(s.newQueue, k, k);
    assert s.creator != NoCreation ==> Creations(s)[0] == s.creator.key;
  }

  /** From the start of the service: the same for every user created under a name in lower
      case, even with a type change queued before its creation. */
  lemma EverFromStart(s: State, before: seq<Event>, e: Event, after: seq<Event>)
    requires JustStarted(s)
    requires Creates(Run(s, before), e) && QueuedKey(Run(s, before), e) == StoredKey(Run(s, before), e)
    requires NoneFailsAlone(Step(Run(s, before), e), after, StoredKey(Run(s, before), e))
    ensures var t, k := Run(Step(Run(s, before), e), after), StoredKey(Run(s, before), e);
            Pending(t, k) + CreationTokens(t, k) == 0 ==>
              StatusOf(t.db, k) in {Some(Active), Some(Archived), Some(ProcessingFailed)}
  {
    hide Step, Tracked, Pending, CreationTokens;
    StartIsTracked(s);
    RunTracked(s, before);
    CreationIsEver(Run(s, before), e);
    RunEver(Step(Run(s, before), e), after, StoredKey(Run(s, before), e));
  }
}
