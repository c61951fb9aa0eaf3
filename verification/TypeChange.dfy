/** What a type change makes of a user. */
module TypeChange {
  import opened Text
  import opened UserTable
  import opened StatusProtocol
  import opened ArchiveProtocol
  import opened CreationProtocol

  predicate IsTypeStep(e: Event) {
    e.TypeDequeue? || e.TypeRun? || e.TypeRecord? || e.TypeFinish?
  }

  predicate IsArchiving(e: Event) {
    e.ArchiveUser? || e.RestoreUser? || e.ArchiverDequeue? || e.ArchiverRun? || e.ArchiverFinish?
    || e.RestorerDequeue? || e.RestorerRun? || e.RestorerFinish?
  }

  /** The state without the type changes under way. */
  function TypeAside(s: State): State {
    s.(typeQueue := [], typeWorker := NoType)
  }

  /** One type change of `k` is under way and nothing else; no archive or restore request for
      it is accepted meanwhile. */
  ghost predicate Changing(s: State, k: Key) {
    TypeTokens(s, k) == 1 && Parked(TypeAside(s), k)
  }

  ghost predicate BesideTypes(s: State, e: Event) {
    var u := Step(TypeAside(s), e);
    u.typeWorker == NoType && Step(s, e) == u.(typeQueue := s.typeQueue + u.typeQueue, typeWorker := s.typeWorker)
  }

  lemma TypeAsideConfig(s: State, e: Event)
    requires IsConfig(e)
    ensures BesideTypes(s, e)
  {
    hide SetDc, CreationRunning;
  }

  lemma TypeAsideArchiving(s: State, e: Event)
    requires e.ArchiverDequeue? || e.ArchiverRun? || e.ArchiverFinish?
             || e.RestorerDequeue? || e.RestorerRun? || e.RestorerFinish?
    ensures BesideTypes(s, e)
  {
    hide SetStatus, IsEmailOnly;
  }

  lemma TypeAsideRequests(s: State, e: Event)
    requires e.CreateUser? || e.ArchiveUser? || e.RestoreUser? || e.ChangeType? || e.ChangePassword? || e.PrefixScript?
    ensures BesideTypes(s, e)
  {
    hide SetStatus, SetPrefix, StatusOf, CloudBusy, CreationAccepted;
  }

  /** All steps but those of its own worker do the same without the type changes. */
  lemma StepTypeAside(s: State, e: Event)
    requires !IsTypeStep(e)
    ensures BesideTypes(s, e)
  {
    if IsConfig(e) {
      TypeAsideConfig(s, e);
    } else if e.CreateUser? || e.ArchiveUser? || e.RestoreUser? || e.ChangeType?
              || e.ChangePassword? || e.PrefixScript? {
      TypeAsideRequests(s, e);
    } else if IsArchiving(e) {
      TypeAsideArchiving(s, e);
    } else {
      hide SetStatus, SetStatusById, Find, IsEmailOnly;
    }
  }

  lemma ParkedTypeAside(s: State, k: Key)
    requires Parked(s, k)
    ensures Parked(TypeAside(s), k)
  {
    hide StatusOf;
  }

  /** A type change of a user with nothing under way takes it out of its status at once. */
  lemma ChangeStarts(s: State, e: Event, k: Key)
    requires Settled(s, k) && UnderWay(s, k) == 0 && e.ChangeType? && Intrudes(s, e, k)
    ensures Changing(Step(s, e), k) && StatusOf(Step(s, e).db, k) == Some(Updating)
  {
    hide StatusOf, SetStatus, CloudBusy, Settled;
    var v := s.(db := SetStatus(s.db, k, Updating));
    SetStatusSettled(s, k, k, Updating);
    assert TypeTokens(s, k) == 0 by {
      SettledHasNone(s, k);
    }
    TypeQueueCounts(s.typeQueue, TypeRequest(k, e.kind), k);
    ParkedTypeAside(v, k);
    assert TypeAside(v) == TypeAside(Step(s, e));
  }

  lemma SettledHasNone(s: State, k: Key)
    requires Settled(s, k)
    ensures TypeTokens(s, k) == 0
  {
  }

  lemma TokensAdd(s: State, u: State, t: State, k: Key)
    requires t.typeQueue == s.typeQueue + u.typeQueue && t.typeWorker == s.typeWorker && u.typeWorker == NoType
    ensures TypeTokens(t, k) == TypeTokens(s, k) + TypeTokens(u, k)
  {
    assert Keys(s.typeQueue + u.typeQueue) == Keys(s.typeQueue) + Keys(u.typeQueue);
  }

  lemma ChangingBeside(s: State, e: Event, k: Key)
    requires Changing(s, k) && !IsTypeStep(e) && !Intrudes(s, e, k)
    ensures Changing(Step(s, e), k)
  {
    assert !Intrudes(TypeAside(s), e, k);
    hide Step, Parked, Intrudes, TypeTokens;
    StepTypeAside(s, e);
    StepParked(TypeAside(s), e, k);
    var u, t := Step(TypeAside(s), e), Step(s, e);
    ParkedTypeAside(u, k);
    assert TypeAside(t) == TypeAside(u);
    ParkedHasNone(u, k);
    TokensAdd(s, u, t, k);
  }

  lemma ParkedHasNone(s: State, k: Key)
    requires Parked(s, k)
    ensures TypeTokens(s, k) == 0
  {
  }

  lemma ChangingTaken(s: State, e: Event, k: Key)
    requires Changing(s, k) && e.TypeDequeue?
    ensures Changing(Step(s, e), k)
  {
    hide Parked;
    TypeQueueCounts(s.typeQueue, TypeRequest(k, Full), k);
    assert TypeAside(Step(s, e)) == TypeAside(s);
  }

  lemma BusyStep(s: State, e: Event)
    requires e.TypeRun? || e.TypeRecord? || e.TypeFinish?
    ensures Step(s, e) == Step(s.(typeQueue := []), e).(typeQueue := s.typeQueue)
    ensures Step(s, e).typeWorker != NoType ==>
              s.typeWorker != NoType && Step(s, e).typeWorker.key == s.typeWorker.key
  {
    hide SetStatus, SetType;
  }

  /** The worker is busy with another user. */
  lemma ChangingBusy(s: State, e: Event, k: Key)
    requires Changing(s, k) && (e.TypeRun? || e.TypeRecord? || e.TypeFinish?)
    requires s.typeWorker == NoType || s.typeWorker.key != k
    ensures Changing(Step(s, e), k)
  {
    var v := s.(typeQueue := []);
    assert Parked(v, k) by {
      hide StatusOf;
    }
    BusyStep(s, e);
    hide Step, Parked, StatusOf;
    StepParked(v, e, k);
    ParkedTypeAside(Step(v, e), k);
    assert TypeAside(Step(s, e)) == TypeAside(Step(v, e));
  }

  /** The worker has the user in hand: in the end it is ACTIVE. */
  lemma ChangingOwn(s: State, e: Event, k: Key)
    requires Changing(s, k) && (e.TypeRun? || e.TypeRecord? || e.TypeFinish?)
    requires s.typeWorker != NoType && s.typeWorker.key == k
    ensures Changing(Step(s, e), k) || (Orderly(Step(s, e), k) && StatusOf(Step(s, e).db, k) == Some(Active))
  {
    hide StatusOf, SetStatus, SetType, Keys;
    var a := TypeAside(s);
    SetStatusSettled(a, k, k, Active);
    SetStatusSettled(a, k, k, ActivatingFailed);
    SetStatusSettled(a, k, k, ArchivingFailed);
    var emailOnly := s.typeWorker.TypeRan? && s.typeWorker.kind == EmailOnly;
    SetTypeSettled(a, k, k, emailOnly);
    SetTypeReads(s.db, k, emailOnly, k);
  }

  lemma ChangingStep(s: State, e: Event, k: Key)
    requires Changing(s, k) && !Intrudes(s, e, k)
    ensures Changing(Step(s, e), k) || (Orderly(Step(s, e), k) && StatusOf(Step(s, e).db, k) == Some(Active))
  {
    hide Changing, Step, Intrudes, Orderly;
    if !IsTypeStep(e) {
      ChangingBeside(s, e, k);
    } else if e.TypeDequeue? {
      ChangingTaken(s, e, k);
    } else if s.typeWorker == NoType || s.typeWorker.key != k {
      ChangingBusy(s, e, k);
    } else {
      ChangingOwn(s, e, k);
    }
  }

  /** Over every undisturbed run the change goes on or is over, and once it is over the user
      is orderly, whatever its status was before the request: a user parked for good by a
      failed creation is freed, and an ARCHIVED one is ACTIVE without a restore request. */
  lemma {:induction false} ChangingRun(s: State, es: seq<Event>, k: Key)
    requires Changing(s, k) && Undisturbed(s, es, k)
    ensures Changing(Run(s, es), k) || Orderly(Run(s, es), k)
    ensures TypeTokens(Run(s, es), k) == 0 ==> Orderly(Run(s, es), k)
    decreases |es|
  {
    hide Step, Orderly, Intrudes, Parked;
    if es != [] {
      var next := Step(s, es[0]);
      ChangingStep(s, es[0], k);
      if Orderly(next, k) {
        RunOrderly(next, es[1..], k);
      } else {
        ChangingRun(next, es[1..], k);
      }
    }
  }

  // ----- requests of all kinds at once -----

  /** Archive, restore and type change requests for `k` that are not done yet. */
  function Pending(s: State, k: Key): nat {
    UnderWay(s, k) + TypeTokens(s, k)
  }

  /** The creation of `k` is over, and with no request pending it is ACTIVE or ARCHIVED. Any
      number of requests may be pending, in any combination. */
  ghost predicate Loose(s: State, k: Key) {
    Settled(TypeAside(s), k) && (Pending(s, k) == 0 ==> StatusOf(s.db, k) in {Some(Active), Some(Archived)})
  }

  /** The password change of an e-mail-only `k` fails. */
  predicate PasswordFails(s: State, e: Event, k: Key) {
    || (e == PasswordRestore(false) && s.passwordWorker == PasswordTaken(k, true))
    || (e == PasswordArchive(false) && s.passwordWorker == PasswordChanged(k, true))
  }

  lemma SettledRequest(s: State, e: Event, k: Key)
    requires Settled(s, k) && (e.ArchiveUser? || e.RestoreUser?)
    ensures Settled(Step(s, e), k)
  {
    hide StatusOf, SetStatus, CloudBusy, Settled;
    SetStatusSettled(s, k, e.key, if e.ArchiveUser? then Archiving else Activating);
    SettledQueues(s.(db := Step(s, e).db), Step(s, e), k);
  }

  lemma SettledArchiver(s: State, e: Event, k: Key)
    requires Settled(s, k) && (e.ArchiverDequeue? || e.ArchiverRun? || e.ArchiverFinish?)
    ensures Settled(Step(s, e), k)
  {
    hide StatusOf, SetStatus, Settled, IsEmailOnly;
    if s.archiver != Idle {
      SetStatusSettled(s, k, s.archiver.key, if e.ArchiverRun? then ArchivingFailed else Archived);
    }
    SettledQueues(s.(db := Step(s, e).db), Step(s, e), k);
  }

  lemma SettledRestorer(s: State, e: Event, k: Key)
    requires Settled(s, k) && (e.RestorerDequeue? || e.RestorerRun? || e.RestorerFinish?)
    ensures Settled(Step(s, e), k)
  {
    hide StatusOf, SetStatus, Settled, IsEmailOnly;
    if s.restorer != Idle {
      SetStatusSettled(s, k, s.restorer.key, if e.RestorerRun? then ActivatingFailed else Active);
    }
    SettledQueues(s.(db := Step(s, e).db), Step(s, e), k);
  }

  lemma SettledPassword(s: State, e: Event, k: Key)
    requires Settled(s, k) && (e.PasswordRestore? || e.PasswordArchive?)
    ensures Settled(Step(s, e), k)
  {
    hide StatusOf, SetStatus, Settled;
    if s.passwordWorker != NoPassword {
      SetStatusSettled(s, k, s.passwordWorker.key, if e.PasswordRestore? then ActivatingFailed else ArchivingFailed);
    }
    SettledQueues(s.(db := Step(s, e).db), Step(s, e), k);
  }

  /** A settled user stays so whatever its status, unless its type is to be changed. */
  lemma SettledStep(s: State, e: Event, k: Key)
    requires Settled(s, k) && !(e.ChangeType? && Intrudes(s, e, k))
    ensures Settled(Step(s, e), k)
  {
    hide Step, Settled, StatusOf, Intrudes, Harmless;
    if e.CreateUser? {
      HeldCreate(s, e, k);
    } else if e.CreatorDequeue? {
      HeldCreatorTakes(s, e, k);
    } else if e.CreatorPersonalize? || e.CreatorCheck? {
      HeldCreator(s, e, k);
    } else if e.ArchiveUser? || e.RestoreUser? {
      SettledRequest(s, e, k);
    } else if e.ArchiverDequeue? || e.ArchiverRun? || e.ArchiverFinish? {
      SettledArchiver(s, e, k);
    } else if e.RestorerDequeue? || e.RestorerRun? || e.RestorerFinish? {
      SettledRestorer(s, e, k);
    } else if e.PasswordRestore? || e.PasswordArchive? {
      SettledPassword(s, e, k);
    } else if IsSide(e) {
      SideNeither(s, e, k);
      HeldSide(s, e, k);
    } else {
      HeldConfig(s, e, k);
    }
  }

  lemma SideNeither(s: State, e: Event, k: Key)
    requires IsSide(e) && !e.PasswordRestore? && !e.PasswordArchive?
    ensures !Acts(s, e, k) && (!e.ChangeType? ==> !Intrudes(s, e, k))
  {
  }

  /** The step that takes the last archive or restore request away has ended it. */
  lemma LastFinish(s: State, e: Event, k: Key)
    requires Settled(s, k) && UnderWay(s, k) > 0 && UnderWay(Step(s, e), k) == 0
    ensures StatusOf(Step(s, e).db, k) in {Some(Active), Some(Archived)}
  {
    if e.ArchiverFinish? || e.RestorerFinish? {
      hide StatusOf, SetStatus, Settled;
      SetStatusSettled(s, k, k, if e.ArchiverFinish? then Archived else Active);
    } else {
      NoneFinished(s, e, k);
      assert false;
    }
  }

  lemma QueuesKept(s: State, e: Event)
    requires !IsArchiving(e)
    ensures var t := Step(s, e);
            && t.archiveQueue == s.archiveQueue && t.restoreQueue == s.restoreQueue
            && t.archiver == s.archiver && t.restorer == s.restorer
  {
    if IsConfig(e) {
      ConfigKeepsUsers(s, e);
      hide Step;
    } else {
      hide SetStatus, SetType, SetPrefix, SetStatusById, Find, StatusOf, CloudBusy, CreationAccepted, IsEmailOnly;
    }
  }

  lemma NoneArchived(s: State, e: Event, k: Key)
    requires e.ArchiveUser? || e.ArchiverDequeue? || e.ArchiverRun?
    ensures ArchiveTokens(Step(s, e), k) >= ArchiveTokens(s, k) && RestoreTokens(Step(s, e), k) == RestoreTokens(s, k)
  {
    hide SetStatus, StatusOf, CloudBusy, IsEmailOnly;
    QueueCounts(s.archiveQueue, if e.ArchiveUser? then e.key else k, k);
  }

  lemma NoneRestored(s: State, e: Event, k: Key)
    requires e.RestoreUser? || e.RestorerDequeue? || e.RestorerRun?
    ensures RestoreTokens(Step(s, e), k) >= RestoreTokens(s, k) && ArchiveTokens(Step(s, e), k) == ArchiveTokens(s, k)
  {
    hide SetStatus, StatusOf, CloudBusy, IsEmailOnly;
    QueueCounts(s.restoreQueue, if e.RestoreUser? then e.key else k, k);
  }

  lemma NoneFinished(s: State, e: Event, k: Key)
    requires !e.ArchiverFinish? && !e.RestorerFinish?
    ensures ArchiveTokens(Step(s, e), k) >= ArchiveTokens(s, k) && RestoreTokens(Step(s, e), k) >= RestoreTokens(s, k)
  {
    if !IsArchiving(e) {
      QueuesKept(s, e);
      hide Step;
    } else {
      hide Step, ArchiveTokens, RestoreTokens;
      if e.ArchiveUser? || e.ArchiverDequeue? || e.ArchiverRun? {
        NoneArchived(s, e, k);
      } else {
        NoneRestored(s, e, k);
      }
    }
  }

  lemma LooseRequested(s: State, e: Event, k: Key)
    requires Loose(s, k) && e.ChangeType? && Intrudes(s, e, k)
    ensures Loose(Step(s, e), k)
  {
    hide StatusOf, SetStatus, CloudBusy, Settled;
    SetStatusSettled(TypeAside(s), k, k, Updating);
    TypeQueueCounts(s.typeQueue, TypeRequest(k, e.kind), k);
    assert TypeAside(Step(s, e)) == TypeAside(s).(db := SetStatus(s.db, k, Updating));
  }

  lemma AsideFacts(s: State, e: Event, k: Key)
    ensures Intrudes(TypeAside(s), e, k) == Intrudes(s, e, k) && UnderWay(TypeAside(s), k) == UnderWay(s, k)
    ensures Intrudes(s, e, k) ==> e.ChangeType? || PasswordFails(s, e, k)
    ensures var a := TypeAside(s);
            Settled(a, k) && UnderWay(a, k) == 0 && StatusOf(a.db, k) in {Some(Active), Some(Archived)}
            ==> Orderly(a, k)
  {
    hide StatusOf, Settled;
  }

  lemma SameUnderWay(s: State, t: State, k: Key)
    requires t.archiveQueue == s.archiveQueue && t.restoreQueue == s.restoreQueue
    requires t.archiver == s.archiver && t.restorer == s.restorer
    ensures UnderWay(t, k) == UnderWay(s, k)
  {
  }

  lemma LooseBeside(s: State, e: Event, k: Key)
    requires Loose(s, k) && !IsTypeStep(e) && !(e.ChangeType? && Intrudes(s, e, k))
    requires !(PasswordFails(s, e, k) && Pending(s, k) == 0)
    ensures Loose(Step(s, e), k)
  {
    hide Step, Settled, Intrudes, PasswordFails, UnderWay, TypeTokens, StatusOf;
    var a, t := TypeAside(s), Step(s, e);
    var u := Step(a, e);
    AsideFacts(s, e, k);
    StepTypeAside(s, e);
    SameUnderWay(u, t, k);
    SettledStep(a, e, k);
    SettledHasNone(u, k);
    TokensAdd(s, u, t, k);
    SettledTypeAside(u, k);
    assert TypeAside(t) == TypeAside(u);
    if Pending(t, k) == 0 {
      if UnderWay(a, k) == 0 {
        StepOrderly(a, e, k);
        OrderlyStatus(u, k);
      } else {
        LastFinish(a, e, k);
      }
    }
  }

  lemma SettledTypeAside(s: State, k: Key)
    requires Settled(s, k)
    ensures Settled(TypeAside(s), k)
  {
    hide StatusOf;
  }

  lemma OrderlyStatus(s: State, k: Key)
    requires Orderly(s, k) && UnderWay(s, k) == 0
    ensures StatusOf(s.db, k) in {Some(Active), Some(Archived)}
  {
    hide StatusOf, Settled;
  }

  lemma LooseTaken(s: State, e: Event, k: Key)
    requires Loose(s, k) && e.TypeDequeue?
    ensures Loose(Step(s, e), k)
  {
    hide Settled, StatusOf;
    TypeQueueCounts(s.typeQueue, TypeRequest(k, Full), k);
    assert TypeAside(Step(s, e)) == TypeAside(s) && UnderWay(Step(s, e), k) == UnderWay(s, k);
  }

  lemma LooseRan(s: State, e: Event, k: Key)
    requires Loose(s, k) && e.TypeRun? && s.typeWorker != NoType
    ensures Loose(Step(s, e), k)
  {
    var a, t, other := TypeAside(s), Step(s, e), s.typeWorker.key;
    hide StatusOf, SetStatus, Settled, Keys, UnderWay;
    SetStatusSettled(a, k, other, ActivatingFailed);
    SetStatusSettled(a, k, other, ArchivingFailed);
    SameUnderWay(s, t, k);
    assert TypeAside(t) == a.(db := t.db);
  }

  lemma LooseRecorded(s: State, e: Event, k: Key)
    requires Loose(s, k) && e.TypeRecord? && s.typeWorker != NoType
    ensures Loose(Step(s, e), k)
  {
    var a, t, other := TypeAside(s), Step(s, e), s.typeWorker.key;
    hide StatusOf, SetType, Settled, Keys, UnderWay;
    var emailOnly := s.typeWorker.TypeRan? && s.typeWorker.kind == EmailOnly;
    SetTypeSettled(a, k, other, emailOnly);
    assert HasRowOf(s, k) by {
      SettledHasRow(a, k);
    }
    SetTypeReads(s.db, other, emailOnly, k);
    SameUnderWay(s, t, k);
    assert TypeAside(t) == a.(db := t.db);
  }

  lemma LooseFinished(s: State, e: Event, k: Key)
    requires Loose(s, k) && e.TypeFinish? && s.typeWorker != NoType
    ensures Loose(Step(s, e), k)
  {
    var a, t, other := TypeAside(s), Step(s, e), s.typeWorker.key;
    hide StatusOf, SetStatus, Settled, Keys, UnderWay;
    SetStatusSettled(a, k, other, Active);
    SameUnderWay(s, t, k);
    assert TypeAside(t) == a.(db := t.db);
  }

  ghost predicate HasRowOf(s: State, k: Key) {
    StatusOf(s.db, k).Some?
  }

  lemma SettledHasRow(s: State, k: Key)
    requires Settled(s, k)
    ensures HasRowOf(s, k)
  {
  }

  /** Only a password change that fails with nothing pending makes the user lose its status. */
  lemma LooseStep(s: State, e: Event, k: Key)
    requires Loose(s, k) && !(PasswordFails(s, e, k) && Pending(s, k) == 0)
    ensures Loose(Step(s, e), k)
  {
    hide Step, Loose, PasswordFails, Pending;
    if e.ChangeType? && Intrudes(s, e, k) {
      LooseRequested(s, e, k);
    } else if !IsTypeStep(e) {
      LooseBeside(s, e, k);
    } else if e.TypeDequeue? {
      LooseTaken(s, e, k);
    } else if s.typeWorker == NoType {
      NoTypeStep(s, e);
    } else if e.TypeRun? {
      LooseRan(s, e, k);
    } else if e.TypeRecord? {
      LooseRecorded(s, e, k);
    } else {
      LooseFinished(s, e, k);
    }
  }

  lemma NoTypeStep(s: State, e: Event)
    requires IsTypeStep(e) && !e.TypeDequeue? && s.typeWorker == NoType
    ensures Step(s, e) == s
  {
  }

  /** No password change of `k` fails while nothing is pending for it. */
  ghost predicate NoneFailsAlone(s: State, es: seq<Event>, k: Key)
    decreases |es|
  {
    es == [] || (!(PasswordFails(s, es[0], k) && Pending(s, k) == 0) && NoneFailsAlone(Step(s, es[0]), es[1..], k))
  }

  lemma OrderlyIsLoose(s: State, k: Key)
    requires Orderly(s, k) || Changing(s, k)
    ensures Loose(s, k)
  {
    if Orderly(s, k) {
      SettledTypeAside(s, k);
      if UnderWay(s, k) == 0 {
        OrderlyStatus(s, k);
      }
    } else {
      ParkedSettled(TypeAside(s), k);
    }
    hide Settled, StatusOf, Parked;
  }

  lemma ParkedSettled(s: State, k: Key)
    requires Parked(s, k)
    ensures Settled(s, k)
  {
  }

  /** However archive, restore and type change requests for a user overlap, once all are done
      it is ACTIVE or ARCHIVED. */
  lemma {:induction false} RunLoose(s: State, es: seq<Event>, k: Key)
    requires Loose(s, k) && NoneFailsAlone(s, es, k)
    ensures Loose(Run(s, es), k)
    ensures Pending(Run(s, es), k) == 0 ==> StatusOf(Run(s, es).db, k) in {Some(Active), Some(Archived)}
    decreases |es|
  {
    hide Step, PasswordFails, Pending, Settled, StatusOf;
    if es != [] {
      LooseStep(s, es[0], k);
      RunLoose(Step(s, es[0]), es[1..], k);
    }
  }

  /** The condition is exact for every single step. */
  lemma LooseExactly(s: State, e: Event, k: Key)
    requires Loose(s, k)
    ensures Loose(Step(s, e), k) <==> !(PasswordFails(s, e, k) && Pending(s, k) == 0)
  {
    if PasswordFails(s, e, k) && Pending(s, k) == 0 {
      hide StatusOf, SetStatus, Settled;
      SetStatusSettled(TypeAside(s), k, k, if e.PasswordRestore? then ActivatingFailed else ArchivingFailed);
    } else {
      LooseStep(s, e, k);
    }
  }
}
