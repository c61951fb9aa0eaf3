/** The life of one user under archive and restore requests, over every interleaving with
    all other requests. */
module ArchiveProtocol {
  import opened Text
  import opened UserTable
  import opened Usernames
  import opened StatusProtocol

  function Holds(w: Pc, k: Key): nat {
    if w != Idle && w.key == k then 1 else 0
  }

  /** Archive requests for `k` that are queued or in the worker. */
  function ArchiveTokens(s: State, k: Key): nat {
    multiset(s.archiveQueue)[k] + Holds(s.archiver, k)
  }

  function RestoreTokens(s: State, k: Key): nat {
    multiset(s.restoreQueue)[k] + Holds(s.restorer, k)
  }

  function Keys(q: seq<TypeRequest>): seq<Key> {
    seq(|q|, i requires 0 <= i < |q| => q[i].key)
  }

  /** Type changes for `k` that are queued or in the worker. */
  function TypeTokens(s: State, k: Key): nat {
    multiset(Keys(s.typeQueue))[k] + (if s.typeWorker != NoType && s.typeWorker.key == k then 1 else 0)
  }

  /** The row id the creation worker holds belongs to the user it works on. */
  ghost predicate CreatorHoldsOwnRow(s: State) {
    s.creator != NoCreation && s.creator.id.Some? ==>
      s.creator.id.value < |s.db.users| && IsRow(s.db, s.db.users[s.creator.id.value], s.creator.key)
  }

  /** `k` is a user, stored in lower case, whose creation is over and whose type is not being
      changed. */
  ghost predicate Settled(s: State, k: Key) {
    && LowerOrgs(s.db.orgs) && Lower(k.username) == k.username
    && StatusOf(s.db, k).Some?
    && k !in s.newQueue && (s.creator != NoCreation ==> s.creator.key != k)
    && CreatorHoldsOwnRow(s) && TypeTokens(s, k) == 0
  }

  /** At most one request is under way, and the status says where it is. */
  ghost predicate StatusByPlace(s: State, k: Key) {
    var status := StatusOf(s.db, k);
    || (ArchiveTokens(s, k) == 0 && RestoreTokens(s, k) == 0 && status in {Some(Active), Some(Archived)})
    || (ArchiveTokens(s, k) == 1 && RestoreTokens(s, k) == 0
        && (status == Some(Archiving) || (s.archiver == Ran(k) && status == Some(ArchivingFailed))))
    || (ArchiveTokens(s, k) == 0 && RestoreTokens(s, k) == 1
        && (status == Some(Activating) || (s.restorer == Ran(k) && status == Some(ActivatingFailed))))
  }

  ghost predicate Orderly(s: State, k: Key) {
    Settled(s, k) && StatusByPlace(s, k)
  }

  // ----- what interferes -----

  /** A type change for `k` is accepted, or a password change of an e-mail-only `k` fails and
      writes a failure where no archive or restore worker is about to end. */
  predicate Intrudes(s: State, e: Event, k: Key) {
    || (e.ChangeType? && e.key == k && !CloudBusy(s.db, k.realm))
    || (e == PasswordRestore(false) && s.passwordWorker == PasswordTaken(k, true) && s.restorer != Ran(k))
    || (e == PasswordArchive(false) && s.passwordWorker == PasswordChanged(k, true) && s.archiver != Ran(k))
  }

  /** A run without interference with `k`; type and password changes of other users, and
      those of `k` that are dropped or do not fail, are allowed. */
  predicate Undisturbed(s: State, es: seq<Event>, k: Key)
    decreases |es|
  {
    es == [] || (!Intrudes(s, es[0], k) && Undisturbed(Step(s, es[0]), es[1..], k))
  }

  // ----- what a step does to the user `k` -----

  datatype Op = ArchiveOp | RestoreOp

  /** The operation on `k` that a step completes. */
  function Completes(s: State, e: Event, k: Key): seq<Op> {
    if e.ArchiverFinish? && s.archiver == Ran(k) then [ArchiveOp]
    else if e.RestorerFinish? && s.restorer == Ran(k) then [RestoreOp]
    else []
  }

  /** 1 when the step is a request for `k` that is put in a queue. */
  function Accepts(s: State, e: Event, k: Key): nat {
    if (e == ArchiveUser(k) && Archive(s, k).1 == Enqueued)
       || (e == RestoreUser(k) && Restore(s, k).1 == Enqueued)
    then 1 else 0
  }

  function UnderWay(s: State, k: Key): nat {
    ArchiveTokens(s, k) + RestoreTokens(s, k)
  }

  /** The operation that will complete next. */
  function NextOp(s: State, k: Key): Op {
    if ArchiveTokens(s, k) > 0 || (RestoreTokens(s, k) == 0 && StatusOf(s.db, k) == Some(Active))
    then ArchiveOp else RestoreOp
  }

  function Other(op: Op): Op {
    if op == ArchiveOp then RestoreOp else ArchiveOp
  }

  ghost predicate GoodStep(s: State, e: Event, k: Key) {
    var after, done := Step(s, e), Completes(s, e, k);
    && Orderly(after, k)
    && UnderWay(s, k) + Accepts(s, e, k) == UnderWay(after, k) + |done|
    && (done == [] ==> NextOp(after, k) == NextOp(s, k))
    && (done != [] ==> done == [NextOp(s, k)] && NextOp(after, k) == Other(NextOp(s, k)))
  }

  lemma QueueCounts(q: seq<Key>, x: Key, k: Key)
    ensures multiset(q + [x])[k] == multiset(q)[k] + (if x == k then 1 else 0)
    ensures q != [] ==> multiset(q)[k] == multiset(q[1..])[k] + (if q[0] == k then 1 else 0)
  {
    if q != [] {
      assert q == [q[0]] + q[1..];
    }
  }

  lemma SetStatusSettled(s: State, k: Key, other: Key, st: Status)
    requires Settled(s, k)
    ensures Settled(s.(db := SetStatus(s.db, other, st)), k)
    ensures StatusOf(SetStatus(s.db, other, st), k) == if k == other then Some(st) else StatusOf(s.db, k)
  {
    SetStatusReads(s.db, other, st, k);
  }

  lemma CreateStep(s: State, e: Event, k: Key)
    requires Orderly(s, k) && e.CreateUser?
    ensures GoodStep(s, e, k)
  {
    hide MadeName, SetStatus, SetStatusById;
    if CreationAccepted(s.db, e.username, e.prefix, e.realm, e.inserted) {
      var name := ChosenName(s.db, e.username, e.prefix, e.realm);
      MadeNameIsGood(s.db, e.prefix, e.realm);
      InsertReads(s.db, NewRow(s.db, name, e.prefix, e.realm, e.emailOnly), k);
      assert !UsernameTaken(s.db, Lower(e.realm), Lower(name));
      var row := s.db.users[Find(s.db, k, 0).value];
      assert row in s.db.users && IsRow(s.db, row, k);
      assert Key(e.realm, name) != k;
      assert forall x | x in s.newQueue + [Key(e.realm, name)] :: x in s.newQueue || x == Key(e.realm, name);
    }
  }

  /** A step that leaves both queues, both workers and the status of `k` alone. */
  lemma Untouched(s: State, e: Event, k: Key)
    requires Orderly(s, k) && Settled(Step(s, e), k)
    requires var after := Step(s, e);
             after.archiveQueue == s.archiveQueue && after.restoreQueue == s.restoreQueue
             && after.archiver == s.archiver && after.restorer == s.restorer
             && StatusOf(after.db, k) == StatusOf(s.db, k)
    requires Completes(s, e, k) == [] && Accepts(s, e, k) == 0
    ensures GoodStep(s, e, k)
  {
    hide Step, StatusOf;
  }

  lemma CreatorTakes(s: State, e: Event, k: Key)
    requires Orderly(s, k) && e.CreatorDequeue?
    ensures GoodStep(s, e, k)
  {
    assert s.newQueue != [] ==> s.newQueue[0] in s.newQueue;
    Untouched(s, e, k);
  }

  /** The creation worker writes the row of its own user only. */
  lemma CreatorKeeps(s: State, e: Event, k: Key)
    requires Settled(s, k) && (e.CreatorPersonalize? || e.CreatorCheck?)
    ensures Settled(Step(s, e), k) && StatusOf(Step(s, e).db, k) == StatusOf(s.db, k)
  {
    if s.creator != NoCreation {
      SetByIdReads(s.db, s.creator.id, Active, k);
      SetByIdReads(s.db, s.creator.id, ProcessingFailed, k);
    }
  }

  lemma CreatorWrites(s: State, e: Event, k: Key)
    requires Orderly(s, k) && (e.CreatorPersonalize? || e.CreatorCheck?)
    ensures GoodStep(s, e, k)
  {
    hide StatusOf, SetStatusById, Settled;
    CreatorKeeps(s, e, k);
    Untouched(s, e, k);
  }

  /** The queues and workers of archiving play no part in being settled. */
  lemma SettledQueues(s: State, t: State, k: Key)
    requires Settled(s, k) && t.db == s.db && t.newQueue == s.newQueue && t.creator == s.creator
    requires t.typeQueue == s.typeQueue && t.typeWorker == s.typeWorker
    ensures Settled(t, k)
  {
    hide StatusOf;
  }

  lemma ArchiveStep(s: State, e: Event, k: Key)
    requires Orderly(s, k) && e.ArchiveUser?
    ensures GoodStep(s, e, k)
  {
    hide StatusOf, SetStatus, SetStatusById, CloudBusy, Settled;
    if Archive(s, e.key).1 != Enqueued {
      assert Step(s, e) == s;
    } else if e.key == k {
      SetStatusSettled(s, k, k, Archiving);
      SettledQueues(s.(db := SetStatus(s.db, k, Archiving)), Step(s, e), k);
      QueueCounts(s.archiveQueue, k, k);
    } else {
      OtherArchive(s, e, k);
    }
  }

  lemma OtherArchive(s: State, e: Event, k: Key)
    requires Orderly(s, k) && e.ArchiveUser? && Archive(s, e.key).1 == Enqueued && e.key != k
    ensures GoodStep(s, e, k)
  {
    hide StatusOf, SetStatus, SetStatusById, CloudBusy, Settled;
    SetStatusSettled(s, k, e.key, Archiving);
    SettledQueues(s.(db := SetStatus(s.db, e.key, Archiving)), Step(s, e), k);
    QueueCounts(s.archiveQueue, e.key, k);
    assert StatusOf(Step(s, e).db, k) == StatusOf(s.db, k);
  }

  lemma RestoreStep(s: State, e: Event, k: Key)
    requires Orderly(s, k) && e.RestoreUser?
    ensures GoodStep(s, e, k)
  {
    hide StatusOf, SetStatus, SetStatusById, CloudBusy, Settled;
    if Restore(s, e.key).1 != Enqueued {
      assert Step(s, e) == s;
    } else if e.key == k {
      SetStatusSettled(s, k, k, Activating);
      SettledQueues(s.(db := SetStatus(s.db, k, Activating)), Step(s, e), k);
      QueueCounts(s.restoreQueue, k, k);
    } else {
      OtherRestore(s, e, k);
    }
  }

  lemma OtherRestore(s: State, e: Event, k: Key)
    requires Orderly(s, k) && e.RestoreUser? && Restore(s, e.key).1 == Enqueued && e.key != k
    ensures GoodStep(s, e, k)
  {
    hide StatusOf, SetStatus, SetStatusById, CloudBusy, Settled;
    SetStatusSettled(s, k, e.key, Activating);
    SettledQueues(s.(db := SetStatus(s.db, e.key, Activating)), Step(s, e), k);
    QueueCounts(s.restoreQueue, e.key, k);
    assert StatusOf(Step(s, e).db, k) == StatusOf(s.db, k);
  }

  lemma ArchiverTakes(s: State, e: Event, k: Key)
    requires Orderly(s, k) && e.ArchiverDequeue?
    ensures GoodStep(s, e, k)
  {
    hide StatusOf, SetStatus, SetStatusById, Settled, IsEmailOnly;
    SettledQueues(s, Step(s, e), k);
    QueueCounts(s.archiveQueue, k, k);
  }

  lemma ArchiverWrites(s: State, e: Event, k: Key)
    requires Orderly(s, k) && (e.ArchiverRun? || e.ArchiverFinish?)
    ensures GoodStep(s, e, k)
  {
    hide StatusOf, SetStatus, SetStatusById, Settled;
    if s.archiver == Idle {
      assert Step(s, e) == s;
    } else {
      SetStatusSettled(s, k, s.archiver.key, if e.ArchiverRun? then ArchivingFailed else Archived);
      SettledQueues(s.(db := Step(s, e).db), Step(s, e), k);
      if s.archiver.key == k {
        OwnArchiver(s, e, k);
      } else {
        OtherArchiver(s, e, k);
      }
    }
  }

  lemma OwnArchiver(s: State, e: Event, k: Key)
    requires Orderly(s, k) && Settled(Step(s, e), k)
    requires (e.ArchiverRun? || e.ArchiverFinish?) && s.archiver != Idle && s.archiver.key == k
    ensures GoodStep(s, e, k)
  {
    hide StatusOf, SetStatus, SetStatusById, Settled;
    SetStatusSettled(s, k, k, if e.ArchiverRun? then ArchivingFailed else Archived);
  }

  lemma OtherArchiver(s: State, e: Event, k: Key)
    requires Orderly(s, k) && Settled(Step(s, e), k)
    requires (e.ArchiverRun? || e.ArchiverFinish?) && s.archiver != Idle && s.archiver.key != k
    ensures GoodStep(s, e, k)
  {
    hide StatusOf, SetStatus, SetStatusById, Settled;
    SetStatusSettled(s, k, s.archiver.key, if e.ArchiverRun? then ArchivingFailed else Archived);
    assert StatusOf(Step(s, e).db, k) == StatusOf(s.db, k);
  }

  lemma RestorerTakes(s: State, e: Event, k: Key)
    requires Orderly(s, k) && e.RestorerDequeue?
    ensures GoodStep(s, e, k)
  {
    hide StatusOf, SetStatus, SetStatusById, Settled, IsEmailOnly;
    SettledQueues(s, Step(s, e), k);
    QueueCounts(s.restoreQueue, k, k);
  }

  lemma RestorerWrites(s: State, e: Event, k: Key)
    requires Orderly(s, k) && (e.RestorerRun? || e.RestorerFinish?)
    ensures GoodStep(s, e, k)
  {
    hide StatusOf, SetStatus, SetStatusById, Settled;
    if s.restorer == Idle {
      assert Step(s, e) == s;
    } else {
      SetStatusSettled(s, k, s.restorer.key, if e.RestorerRun? then ActivatingFailed else Active);
      SettledQueues(s.(db := Step(s, e).db), Step(s, e), k);
      if s.restorer.key == k {
        OwnRestorer(s, e, k);
      } else {
        OtherRestorer(s, e, k);
      }
    }
  }

  lemma OwnRestorer(s: State, e: Event, k: Key)
    requires Orderly(s, k) && Settled(Step(s, e), k)
    requires (e.RestorerRun? || e.RestorerFinish?) && s.restorer != Idle && s.restorer.key == k
    ensures GoodStep(s, e, k)
  {
    hide StatusOf, SetStatus, SetStatusById, Settled;
    SetStatusSettled(s, k, k, if e.RestorerRun? then ActivatingFailed else Active);
  }

  lemma OtherRestorer(s: State, e: Event, k: Key)
    requires Orderly(s, k) && Settled(Step(s, e), k)
    requires (e.RestorerRun? || e.RestorerFinish?) && s.restorer != Idle && s.restorer.key != k
    ensures GoodStep(s, e, k)
  {
    hide StatusOf, SetStatus, SetStatusById, Settled;
    SetStatusSettled(s, k, s.restorer.key, if e.RestorerRun? then ActivatingFailed else Active);
    assert StatusOf(Step(s, e).db, k) == StatusOf(s.db, k);
  }

  predicate IsConfig(e: Event) {
    e.ChangeDomain? || e.ChangeAnchor? || e.DomainDequeue? || e.DomainFinish?
    || e.AnchorDequeue? || e.AnchorScript? || e.AnchorFinish?
  }

  lemma ConfigKeepsUsers(s: State, e: Event)
    requires IsConfig(e)
    ensures var after := Step(s, e);
            after.db.users == s.db.users && after.db.orgs == s.db.orgs
            && after.newQueue == s.newQueue && after.creator == s.creator
            && after.archiveQueue == s.archiveQueue && after.restoreQueue == s.restoreQueue
            && after.archiver == s.archiver && after.restorer == s.restorer
            && after.typeQueue == s.typeQueue && after.typeWorker == s.typeWorker
  {
  }

  lemma ConfigSteps(s: State, e: Event, k: Key)
    requires Orderly(s, k) && IsConfig(e)
    ensures GoodStep(s, e, k)
  {
    ConfigKeepsUsers(s, e);
    FindSameRows(s.db, Step(s, e).db, k);
    Untouched(s, e, k);
  }

  predicate IsSide(e: Event) {
    e.ChangeType? || e.TypeDequeue? || e.TypeRun? || e.TypeRecord? || e.TypeFinish?
    || e.ChangePassword? || e.PasswordDequeue? || e.PasswordRestore? || e.PasswordArchive? || e.PrefixScript?
  }

  /** What the other requests leave alone: archive and restore queues and workers, and
      users they are not for. */
  ghost predicate SideKeeps(s: State, e: Event, k: Key) {
    var after := Step(s, e);
    && Settled(after, k) && StatusOf(after.db, k) == StatusOf(s.db, k)
    && after.archiveQueue == s.archiveQueue && after.restoreQueue == s.restoreQueue
    && after.archiver == s.archiver && after.restorer == s.restorer
  }

  lemma TypeQueueCounts(q: seq<TypeRequest>, r: TypeRequest, k: Key)
    ensures multiset(Keys(q + [r]))[k] == multiset(Keys(q))[k] + (if r.key == k then 1 else 0)
    ensures q != [] ==> multiset(Keys(q))[k] == multiset(Keys(q[1..]))[k] + (if q[0].key == k then 1 else 0)
  {
    assert Keys(q + [r]) == Keys(q) + [r.key];
    if q != [] {
      assert Keys(q) == [q[0].key] + Keys(q[1..]);
    }
  }

  lemma SettledBeside(s: State, t: State, k: Key)
    requires Settled(s, k) && t.db == s.db && t.newQueue == s.newQueue
             && t.creator == s.creator && TypeTokens(t, k) == 0
    ensures Settled(t, k)
  {
    hide StatusOf, TypeTokens;
  }

  lemma SetTypeSettled(s: State, k: Key, other: Key, emailOnly: bool)
    requires Settled(s, k)
    ensures Settled(s.(db := SetType(s.db, other, emailOnly)), k)
  {
    SetTypeReads(s.db, other, emailOnly, k);
  }

  lemma TypeRequested(s: State, e: Event, k: Key)
    requires Settled(s, k) && e.ChangeType? && !Intrudes(s, e, k)
    ensures SideKeeps(s, e, k)
  {
    hide StatusOf, SetStatus, CloudBusy, Keys;
    if !CloudBusy(s.db, e.key.realm) {
      SetStatusSettled(s, k, e.key, Updating);
      TypeQueueCounts(s.typeQueue, TypeRequest(e.key, e.kind), k);
    }
  }

  lemma TypeTakes(s: State, e: Event, k: Key)
    requires Settled(s, k) && e.TypeDequeue?
    ensures SideKeeps(s, e, k)
  {
    hide StatusOf, Keys;
    TypeQueueCounts(s.typeQueue, TypeRequest(k, Full), k);
  }

  lemma TypeWrites(s: State, e: Event, k: Key)
    requires Settled(s, k) && (e.TypeRun? || e.TypeFinish?)
    ensures SideKeeps(s, e, k)
  {
    hide StatusOf, SetStatus, Keys;
    if s.typeWorker != NoType {
      var other := s.typeWorker.key;
      var failed := if s.typeWorker.TypeTaken? && s.typeWorker.kind == Full then ActivatingFailed else ArchivingFailed;
      assert other != k;
      SetStatusSettled(s, k, other, if e.TypeFinish? then Active else failed);
      hide Settled;
      SettledBeside(s.(db := Step(s, e).db), Step(s, e), k);
    }
  }

  lemma TypeRecords(s: State, e: Event, k: Key)
    requires Settled(s, k) && e.TypeRecord?
    ensures SideKeeps(s, e, k)
  {
    hide StatusOf, SetType, Keys;
    if s.typeWorker.TypeRan? {
      SetTypeReads(s.db, s.typeWorker.key, s.typeWorker.kind == EmailOnly, k);
      SetTypeSettled(s, k, s.typeWorker.key, s.typeWorker.kind == EmailOnly);
      assert s.typeWorker.key != k;
      hide Settled;
      SettledBeside(s.(db := Step(s, e).db), Step(s, e), k);
    }
  }

  lemma PasswordKeeps(s: State, e: Event, k: Key)
    requires Settled(s, k) && (e.ChangePassword? || e.PasswordDequeue? || e.PasswordRestore? || e.PasswordArchive?)
    requires (e.PasswordRestore? || e.PasswordArchive?) && s.passwordWorker != NoPassword
             && s.passwordWorker.key == k ==>
               e.ok || !s.passwordWorker.emailOnly
    ensures SideKeeps(s, e, k)
  {
    hide StatusOf, SetStatus, Settled, IsEmailOnly, CloudBusy;
    if s.passwordWorker != NoPassword {
      SetStatusSettled(s, k, s.passwordWorker.key, if e.PasswordRestore? then ActivatingFailed else ArchivingFailed);
    }
    SettledQueues(s.(db := Step(s, e).db), Step(s, e), k);
  }

  lemma PrefixKeeps(s: State, e: Event, k: Key)
    requires Settled(s, k) && e.PrefixScript?
    ensures SideKeeps(s, e, k)
  {
    hide StatusOf, Keys;
    SetPrefixReads(s.db, e.key, e.newPrefix, k);
  }

  /** A failing password change of `k` while an archive or restore of `k` is about to end. */
  predicate Harmless(s: State, e: Event, k: Key) {
    || (e == PasswordRestore(false) && s.passwordWorker == PasswordTaken(k, true) && s.restorer == Ran(k))
    || (e == PasswordArchive(false) && s.passwordWorker == PasswordChanged(k, true) && s.archiver == Ran(k))
  }

  lemma HarmlessSteps(s: State, e: Event, k: Key)
    requires Orderly(s, k) && Harmless(s, e, k)
    ensures GoodStep(s, e, k)
  {
    hide StatusOf, SetStatus, Settled;
    SetStatusSettled(s, k, k, if e.PasswordRestore? then ActivatingFailed else ArchivingFailed);
    SettledQueues(s.(db := Step(s, e).db), Step(s, e), k);
  }

  lemma SideKept(s: State, e: Event, k: Key)
    requires Settled(s, k) && IsSide(e) && !Intrudes(s, e, k) && !Harmless(s, e, k)
    ensures SideKeeps(s, e, k)
  {
    hide SideKeeps, Settled, CloudBusy;
    if e.ChangeType? {
      TypeRequested(s, e, k);
    } else if e.PrefixScript? {
      PrefixKeeps(s, e, k);
    } else if e.ChangePassword? || e.PasswordDequeue? {
      PasswordKeeps(s, e, k);
    } else if e.PasswordRestore? || e.PasswordArchive? {
      if s.passwordWorker != NoPassword && s.passwordWorker.key == k && !e.ok && s.passwordWorker.emailOnly {
        IdlePassword(s, e, k);
      } else {
        PasswordKeeps(s, e, k);
      }
    } else if e.TypeDequeue? {
      TypeTakes(s, e, k);
    } else if e.TypeRecord? {
      TypeRecords(s, e, k);
    } else {
      TypeWrites(s, e, k);
    }
  }

  /** The worker is not where the event would move it. */
  lemma IdlePassword(s: State, e: Event, k: Key)
    requires Settled(s, k) && !Intrudes(s, e, k) && !Harmless(s, e, k)
    requires (e.PasswordRestore? || e.PasswordArchive?) && !e.ok
    requires s.passwordWorker != NoPassword && s.passwordWorker.key == k && s.passwordWorker.emailOnly
    ensures SideKeeps(s, e, k)
  {
    hide StatusOf, SetStatus, Settled;
    assert Step(s, e) == s;
  }

  lemma SideSteps(s: State, e: Event, k: Key)
    requires Orderly(s, k) && IsSide(e) && !Intrudes(s, e, k)
    ensures GoodStep(s, e, k)
  {
    if Harmless(s, e, k) {
      HarmlessSteps(s, e, k);
    } else {
      SideKept(s, e, k);
      hide Step, Settled, StatusOf;
      Untouched(s, e, k);
    }
  }

  /** Every step of every handler and worker that does not interfere keeps the user orderly. */
  lemma StepOrderly(s: State, e: Event, k: Key)
    requires Orderly(s, k) && !Intrudes(s, e, k)
    ensures GoodStep(s, e, k)
  {
    hide Step, Orderly, GoodStep, Intrudes;
    match e
    case CreateUser(_, _, _, _, _) => CreateStep(s, e, k);
    case ArchiveUser(_) => ArchiveStep(s, e, k);
    case RestoreUser(_) => RestoreStep(s, e, k);
    case ChangeDomain(_) => ConfigSteps(s, e, k);
    case ChangeAnchor(_) => ConfigSteps(s, e, k);
    case CreatorDequeue => CreatorTakes(s, e, k);
    case CreatorPersonalize(_) => CreatorWrites(s, e, k);
    case CreatorCheck => CreatorWrites(s, e, k);
    case ArchiverDequeue => ArchiverTakes(s, e, k);
    case ArchiverRun(_) => ArchiverWrites(s, e, k);
    case ArchiverFinish => ArchiverWrites(s, e, k);
    case RestorerDequeue => RestorerTakes(s, e, k);
    case RestorerRun(_) => RestorerWrites(s, e, k);
    case RestorerFinish => RestorerWrites(s, e, k);
    case DomainDequeue => ConfigSteps(s, e, k);
    case DomainFinish(_, _) => ConfigSteps(s, e, k);
    case AnchorDequeue => ConfigSteps(s, e, k);
    case AnchorScript => ConfigSteps(s, e, k);
    case AnchorFinish(_) => ConfigSteps(s, e, k);
    case _ => SideSteps(s, e, k);
  }

  lemma PasswordDisturbs(s: State, e: Event, k: Key)
    requires Orderly(s, k) && Intrudes(s, e, k) && !e.ChangeType?
    ensures StatusOf(Step(s, e).db, k) == Some(if e.PasswordRestore? then ActivatingFailed else ArchivingFailed)
    ensures !Orderly(Step(s, e), k)
  {
    hide StatusOf, SetStatus, Settled;
    SetStatusSettled(s, k, k, if e.PasswordRestore? then ActivatingFailed else ArchivingFailed);
  }

  lemma TypeDisturbs(s: State, e: Event, k: Key)
    requires Intrudes(s, e, k) && e.ChangeType?
    ensures TypeTokens(Step(s, e), k) > 0
  {
    hide SetStatus, CloudBusy;
    TypeQueueCounts(s.typeQueue, TypeRequest(k, e.kind), k);
  }

  /** And every step that interferes makes it disorderly. */
  lemma OrderlyExactly(s: State, e: Event, k: Key)
    requires Orderly(s, k)
    ensures Orderly(Step(s, e), k) <==> !Intrudes(s, e, k)
  {
    if !Intrudes(s, e, k) {
      hide Orderly, Step, Intrudes;
      StepOrderly(s, e, k);
    } else if e.ChangeType? {
      hide Step, StatusOf, TypeTokens;
      TypeDisturbs(s, e, k);
    } else {
      hide Orderly, Step;
      PasswordDisturbs(s, e, k);
    }
  }

  // ----- runs -----

  function Completed(s: State, es: seq<Event>, k: Key): seq<Op>
    decreases |es|
  {
    if es == [] then [] else Completes(s, es[0], k) + Completed(Step(s, es[0]), es[1..], k)
  }

  function Accepted(s: State, es: seq<Event>, k: Key): nat
    decreases |es|
  {
    if es == [] then 0 else Accepts(s, es[0], k) + Accepted(Step(s, es[0]), es[1..], k)
  }

  function Alternation(first: Op, n: nat): seq<Op>
    decreases n
  {
    if n == 0 then [] else [first] + Alternation(Other(first), n - 1)
  }

  lemma StepSummary(s: State, e: Event, k: Key)
    requires Orderly(s, k) && !Intrudes(s, e, k)
    ensures Orderly(Step(s, e), k)
    ensures UnderWay(s, k) + Accepts(s, e, k) == UnderWay(Step(s, e), k) + |Completes(s, e, k)|
    ensures (Completes(s, e, k) == [] && NextOp(Step(s, e), k) == NextOp(s, k))
         || (Completes(s, e, k) == [NextOp(s, k)] && NextOp(Step(s, e), k) == Other(NextOp(s, k)))
  {
    StepOrderly(s, e, k);
  }

  /** Over every undisturbed run: the user stays orderly, every accepted request completes
      exactly once or is still under way, and completed operations alternate. */
  lemma {:induction false} RunOrderly(s: State, es: seq<Event>, k: Key)
    requires Orderly(s, k) && Undisturbed(s, es, k)
    ensures Orderly(Run(s, es), k)
    ensures UnderWay(s, k) + Accepted(s, es, k) == UnderWay(Run(s, es), k) + |Completed(s, es, k)|
    ensures Completed(s, es, k) == Alternation(NextOp(s, k), |Completed(s, es, k)|)
    decreases |es|
  {
    hide Step, Orderly, UnderWay, NextOp, Completes, Accepts, Intrudes;
    if es != [] {
      StepSummary(s, es[0], k);
      RunOrderly(Step(s, es[0]), es[1..], k);
    }
  }

  ghost predicate AllIdle(s: State) {
    s.archiveQueue == [] && s.restoreQueue == [] && s.archiver == Idle && s.restorer == Idle
  }

  /** A user that starts ACTIVE or ARCHIVED with nothing under way is ACTIVE or ARCHIVED
      whenever the two queues and workers are idle, and which of the two is decided by the
      parity of the accepted requests: no request is lost and none is done twice. */
  lemma IdleStatus(s: State, es: seq<Event>, k: Key)
    requires Orderly(s, k) && Undisturbed(s, es, k) && UnderWay(s, k) == 0 && AllIdle(Run(s, es))
    ensures Orderly(Run(s, es), k)
    ensures StatusOf(Run(s, es).db, k) == if Accepted(s, es, k) % 2 == 0 then StatusOf(s.db, k)
            else if StatusOf(s.db, k) == Some(Active) then Some(Archived) else Some(Active)
    decreases |es|
  {
    hide Step;
    RunOrderly(s, es, k);
    NextAfter(s, es, k);
  }

  lemma {:induction false} NextAfter(s: State, es: seq<Event>, k: Key)
    requires Orderly(s, k) && Undisturbed(s, es, k)
    ensures NextOp(Run(s, es), k) == if |Completed(s, es, k)| % 2 == 0 then NextOp(s, k) else Other(NextOp(s, k))
    decreases |es|
  {
    hide Step, Orderly, NextOp, Completes, Intrudes;
    if es != [] {
      var next := Step(s, es[0]);
      StepSummary(s, es[0], k);
      NextAfter(next, es[1..], k);
      assert |Completed(s, es, k)| == |Completes(s, es[0], k)| + |Completed(next, es[1..], k)|;
    }
  }
}
