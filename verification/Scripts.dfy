/** What the workers record of the scripts they run, and the type of a user they go by. */
module Scripts {
  import opened Text
  import opened UserTable
  import opened Usernames
  import opened StatusProtocol
  import opened ArchiveProtocol
  import opened CreationProtocol
  import opened TypeChange

  // ----- the type of a user -----

  /** Rows are only appended; organization, name and type of a row stay as they are. */
  ghost predicate SameTypes(db: Database, after: Database) {
    && after.orgs == db.orgs && |db.users| <= |after.users|
    && forall i | 0 <= i < |db.users| ::
         after.users[i].org == db.users[i].org && after.users[i].username == db.users[i].username
         && after.users[i].emailOnly == db.users[i].emailOnly
  }

  lemma StepSameTypes(s: State, e: Event)
    requires !e.TypeRecord?
    ensures SameTypes(s.db, Step(s, e).db)
  {
    if IsConfig(e) {
      ConfigKeepsUsers(s, e);
      hide Step;
    } else if IsSide(e) {
      SideSameTypes(s, e);
      hide Step;
    } else {
      hide Find, StatusOf, CloudBusy, IsEmailOnly, CreationAccepted;
    }
  }

  lemma SideSameTypes(s: State, e: Event)
    requires IsSide(e) && !e.TypeRecord?
    ensures SameTypes(s.db, Step(s, e).db)
  {
    hide Find, StatusOf, CloudBusy, IsEmailOnly;
  }

  lemma TypeStays(db: Database, after: Database, k: Key)
    requires SameTypes(db, after) && StatusOf(db, k).Some?
    ensures IsEmailOnly(after, k) == IsEmailOnly(db, k) && StatusOf(after, k).Some?
  {
    FindSameRows(db, after, k);
  }

  /** No step changes the type of a user but the one by which the type worker records it. */
  lemma TypeKept(s: State, e: Event, k: Key)
    requires StatusOf(s.db, k).Some?
    requires !(e.TypeRecord? && s.typeWorker.TypeRan? && s.typeWorker.key == k)
    ensures IsEmailOnly(Step(s, e).db, k) == IsEmailOnly(s.db, k) && StatusOf(Step(s, e).db, k).Some?
  {
    if !e.TypeRecord? {
      StepSameTypes(s, e);
      hide Step;
      TypeStays(s.db, Step(s, e).db, k);
    } else {
      FindSameRows(s.db, Step(s, e).db, k);
    }
  }

  /** And that step records the type that was asked for. */
  lemma TypeRecorded(s: State, k: Key, kind: UserType)
    requires StatusOf(s.db, k).Some? && s.typeWorker == TypeRan(k, kind)
    ensures IsEmailOnly(Step(s, TypeRecord).db, k) <==> kind == EmailOnly
  {
    FindSameRows(s.db, Step(s, TypeRecord).db, k);
  }

  // ----- one type change -----

  /** The one type change of `k` under way is to `kind`; recorded, the row says so. */
  ghost predicate Recording(s: State, k: Key, kind: UserType) {
    && Changing(s, k) && StatusOf(s.db, k).Some?
    && (forall r | r in s.typeQueue && r.key == k :: r.kind == kind)
    && (s.typeWorker != NoType && s.typeWorker.key == k ==>
          if s.typeWorker.TypeRecorded? then (IsEmailOnly(s.db, k) <==> kind == EmailOnly)
          else s.typeWorker.kind == kind)
  }

  ghost predicate Recorded(s: State, k: Key, kind: UserType) {
    Orderly(s, k) && (IsEmailOnly(s.db, k) <==> kind == EmailOnly)
  }

  lemma NoneQueued(s: State, k: Key)
    requires TypeTokens(s, k) == 0 || (TypeTokens(s, k) == 1 && s.typeWorker != NoType && s.typeWorker.key == k)
    ensures forall r | r in s.typeQueue :: r.key != k
  {
    forall r | r in s.typeQueue ensures r.key != k {
      var i :| 0 <= i < |s.typeQueue| && s.typeQueue[i] == r;
      assert Keys(s.typeQueue)[i] == r.key;
    }
  }

  lemma RecordingStarts(s: State, e: Event, k: Key)
    requires Settled(s, k) && UnderWay(s, k) == 0 && e.ChangeType? && Intrudes(s, e, k)
    ensures Recording(Step(s, e), k, e.kind)
  {
    ChangeStarts(s, e, k);
    SettledHasNone(s, k);
    NoneQueued(s, k);
    hide Changing;
    assert forall r | r in Step(s, e).typeQueue :: r in s.typeQueue || r == TypeRequest(k, e.kind);
  }

  lemma TypesBeside(s: State, e: Event, k: Key)
    requires !IsTypeStep(e) && !Intrudes(s, e, k)
    ensures Step(s, e).typeWorker == s.typeWorker
    ensures forall r | r in Step(s, e).typeQueue :: r in s.typeQueue || r.key != k
  {
    if e.ChangeType? {
      hide SetStatus, CloudBusy;
    } else {
      StepTypeAside(s, e);
      NoneRequested(TypeAside(s), e);
      hide Step;
    }
  }

  lemma NoneRequested(s: State, e: Event)
    requires !e.ChangeType? && s.typeQueue == [] && s.typeWorker == NoType
    ensures Step(s, e).typeQueue == []
  {
    if IsConfig(e) {
      ConfigKeepsUsers(s, e);
      hide Step;
    } else {
      hide SetStatus, SetStatusById, SetPrefix, Find, StatusOf, IsEmailOnly, CloudBusy, CreationAccepted;
    }
  }

  lemma RecordingBeside(s: State, e: Event, k: Key, kind: UserType)
    requires Recording(s, k, kind) && !Intrudes(s, e, k) && !IsTypeStep(e)
    ensures Recording(Step(s, e), k, kind)
  {
    hide Step, Changing, Intrudes, IsEmailOnly, StatusOf;
    ChangingBeside(s, e, k);
    TypeKept(s, e, k);
    TypesBeside(s, e, k);
  }

  lemma RecordingTaken(s: State, e: Event, k: Key, kind: UserType)
    requires Recording(s, k, kind) && e.TypeDequeue?
    ensures Recording(Step(s, e), k, kind)
  {
    hide Changing, IsEmailOnly, StatusOf;
    ChangingTaken(s, e, k);
    assert forall r | r in Step(s, e).typeQueue :: r in s.typeQueue;
  }

  lemma RecordingBusy(s: State, e: Event, k: Key, kind: UserType)
    requires Recording(s, k, kind) && (e.TypeRun? || e.TypeRecord? || e.TypeFinish?)
    requires s.typeWorker == NoType || s.typeWorker.key != k
    ensures Recording(Step(s, e), k, kind)
  {
    TypeKept(s, e, k);
    BusyStep(s, e);
    ChangingBusy(s, e, k);
    assert Step(s, e).typeQueue == s.typeQueue;
    hide Step, Changing, IsEmailOnly, StatusOf;
  }

  lemma RecordingOwn(s: State, e: Event, k: Key, kind: UserType)
    requires Recording(s, k, kind) && (e.TypeRun? || e.TypeRecord? || e.TypeFinish?)
    requires s.typeWorker != NoType && s.typeWorker.key == k
    ensures Recording(Step(s, e), k, kind) || Recorded(Step(s, e), k, kind)
  {
    ChangingOwn(s, e, k);
    OwnEnds(s, e, k);
    OwnMoves(s, e, k);
    if e.TypeRecord? && s.typeWorker.TypeRan? {
      TypeRecorded(s, k, kind);
      TypeKeepsRow(s, e, k);
    } else {
      TypeKept(s, e, k);
    }
    hide Step, Changing, Orderly, IsEmailOnly, StatusOf;
  }

  lemma OwnMoves(s: State, e: Event, k: Key)
    requires (e.TypeRun? || e.TypeRecord? || e.TypeFinish?) && s.typeWorker != NoType
    ensures var w, v := s.typeWorker, Step(s, e).typeWorker;
            && Step(s, e).typeQueue == s.typeQueue
            && (v == w
                || (w.TypeTaken? && v == TypeRan(w.key, w.kind))
                || (w.TypeRan? && e.TypeRecord? && v == TypePc.TypeRecorded(w.key))
                || (w.TypeRecorded? && e.TypeFinish? && v == NoType))
  {
    hide SetStatus, SetType;
  }

  lemma TypeKeepsRow(s: State, e: Event, k: Key)
    requires e.TypeRecord? && StatusOf(s.db, k).Some?
    ensures StatusOf(Step(s, e).db, k).Some?
  {
    FindSameRows(s.db, Step(s, e).db, k);
  }

  /** Only after the type is recorded the worker lets go of the user. */
  lemma OwnEnds(s: State, e: Event, k: Key)
    requires Changing(s, k) && (e.TypeRun? || e.TypeRecord? || e.TypeFinish?)
    requires s.typeWorker != NoType && s.typeWorker.key == k
    ensures Orderly(Step(s, e), k) ==> s.typeWorker.TypeRecorded? && e.TypeFinish?
  {
    hide StatusOf, SetStatus, SetType, Keys;
  }

  lemma RecordingStep(s: State, e: Event, k: Key, kind: UserType)
    requires Recording(s, k, kind) && !Intrudes(s, e, k)
    ensures Recording(Step(s, e), k, kind) || Recorded(Step(s, e), k, kind)
  {
    hide Step, Recording, Recorded, Intrudes;
    if !IsTypeStep(e) {
      RecordingBeside(s, e, k, kind);
    } else if e.TypeDequeue? {
      RecordingTaken(s, e, k, kind);
    } else if s.typeWorker == NoType || s.typeWorker.key != k {
      RecordingBusy(s, e, k, kind);
    } else {
      RecordingOwn(s, e, k, kind);
    }
  }

  lemma RecordedStep(s: State, e: Event, k: Key, kind: UserType)
    requires Recorded(s, k, kind) && !Intrudes(s, e, k)
    ensures Recorded(Step(s, e), k, kind)
  {
    OrderlyHasRow(s, k);
    hide Step, Orderly, Intrudes, IsEmailOnly, StatusOf;
    StepOrderlyAgain(s, e, k);
    TypeKept(s, e, k);
  }

  lemma OrderlyHasRow(s: State, k: Key)
    requires Orderly(s, k)
    ensures StatusOf(s.db, k).Some? && (s.typeWorker == NoType || s.typeWorker.key != k)
  {
  }

  lemma StepOrderlyAgain(s: State, e: Event, k: Key)
    requires Orderly(s, k) && !Intrudes(s, e, k)
    ensures Orderly(Step(s, e), k)
  {
    hide Step, Orderly, Intrudes;
    StepSummary(s, e, k);
  }

  lemma {:induction false} RecordingRun(s: State, es: seq<Event>, k: Key, kind: UserType)
    requires (Recording(s, k, kind) || Recorded(s, k, kind)) && Undisturbed(s, es, k)
    ensures Recording(Run(s, es), k, kind) || Recorded(Run(s, es), k, kind)
    decreases |es|
  {
    hide Step, Recording, Recorded, Intrudes;
    if es != [] {
      if Recording(s, k, kind) {
        RecordingStep(s, es[0], k, kind);
      } else {
        RecordedStep(s, es[0], k, kind);
      }
      RecordingRun(Step(s, es[0]), es[1..], k, kind);
    }
  }

  /** A type change accepted for a settled user with nothing under way, over every run that does
      not interfere again: once it is over the user has the type that was asked for. */
  lemma TypeChangeRecords(s: State, e: Event, es: seq<Event>, k: Key)
    requires Settled(s, k) && UnderWay(s, k) == 0 && e.ChangeType? && Intrudes(s, e, k)
    requires Undisturbed(Step(s, e), es, k)
    ensures TypeTokens(Run(Step(s, e), es), k) == 0 ==>
              (IsEmailOnly(Run(Step(s, e), es).db, k) <==> e.kind == EmailOnly)
  {
    hide Step, Settled, Intrudes, UnderWay, TypeTokens, Parked;
    RecordingStarts(s, e, k);
    RecordingRun(Step(s, e), es, k, e.kind);
  }

  // ----- the scripts of the archive, restore and password workers -----

  predicate OfArchiver(e: Event) {
    e.ArchiverDequeue? || e.ArchiverRun? || e.ArchiverFinish?
  }

  predicate OfRestorer(e: Event) {
    e.RestorerDequeue? || e.RestorerRun? || e.RestorerFinish?
  }

  predicate OfPasswords(e: Event) {
    e.PasswordDequeue? || e.PasswordRestore? || e.PasswordArchive?
  }

  lemma WorkersKept(s: State, e: Event)
    ensures !OfArchiver(e) ==> Step(s, e).archiver == s.archiver
    ensures !OfRestorer(e) ==> Step(s, e).restorer == s.restorer
    ensures !OfPasswords(e) ==> Step(s, e).passwordWorker == s.passwordWorker
  {
    if IsConfig(e) {
      ConfigWorkers(s, e);
      hide Step;
    } else {
      hide SetStatus, SetStatusById, SetType, SetPrefix, Find, StatusOf, IsEmailOnly, CloudBusy, CreationAccepted;
    }
  }

  lemma ConfigWorkers(s: State, e: Event)
    requires IsConfig(e)
    ensures var t := Step(s, e);
            t.archiver == s.archiver && t.restorer == s.restorer && t.passwordWorker == s.passwordWorker
  {
    hide SetDc, CreationRunning;
  }

  lemma {:induction false} RunWorkersKept(s: State, es: seq<Event>)
    ensures (forall e | e in es :: !OfArchiver(e)) ==> Run(s, es).archiver == s.archiver
    ensures (forall e | e in es :: !OfRestorer(e)) ==> Run(s, es).restorer == s.restorer
    ensures (forall e | e in es :: !OfPasswords(e)) ==> Run(s, es).passwordWorker == s.passwordWorker
    decreases |es|
  {
    hide Step;
    if es != [] {
      WorkersKept(s, es[0]);
      RunWorkersKept(Step(s, es[0]), es[1..]);
    }
  }

  lemma {:induction false} RunKeepsRow(s: State, es: seq<Event>, k: Key)
    requires StatusOf(s.db, k).Some?
    ensures StatusOf(Run(s, es).db, k).Some?
    decreases |es|
  {
    hide Step, StatusOf;
    if es != [] {
      if es[0].TypeRecord? {
        TypeKeepsRow(s, es[0], k);
      } else {
        TypeKept(s, es[0], k);
      }
      RunKeepsRow(Step(s, es[0]), es[1..], k);
    }
  }

  /** The archive worker goes by the type the user had when it was taken from the queue,
      whatever happens until the script has run: a failing script of a full user is recorded,
      nothing else is. */
  lemma ArchiveScript(s: State, es: seq<Event>, ok: bool)
    requires s.archiver == Idle && s.archiveQueue != [] && StatusOf(s.db, s.archiveQueue[0]).Some?
    requires forall e | e in es :: !OfArchiver(e)
    ensures var k, t := s.archiveQueue[0], Run(Step(s, ArchiverDequeue), es);
            StatusOf(Step(t, ArchiverRun(ok)).db, k)
            == if !ok && !IsEmailOnly(s.db, k) then Some(ArchivingFailed) else StatusOf(t.db, k)
  {
    var k, t := s.archiveQueue[0], Run(Step(s, ArchiverDequeue), es);
    RunWorkersKept(Step(s, ArchiverDequeue), es);
    RunKeepsRow(Step(s, ArchiverDequeue), es, k);
    hide Run, StatusOf, SetStatus, IsEmailOnly;
    SetStatusReads(t.db, k, ArchivingFailed, k);
  }

  lemma RestoreScript(s: State, es: seq<Event>, ok: bool)
    requires s.restorer == Idle && s.restoreQueue != [] && StatusOf(s.db, s.restoreQueue[0]).Some?
    requires forall e | e in es :: !OfRestorer(e)
    ensures var k, t := s.restoreQueue[0], Run(Step(s, RestorerDequeue), es);
            StatusOf(Step(t, RestorerRun(ok)).db, k)
            == if !ok && !IsEmailOnly(s.db, k) then Some(ActivatingFailed) else StatusOf(t.db, k)
  {
    var k, t := s.restoreQueue[0], Run(Step(s, RestorerDequeue), es);
    RunWorkersKept(Step(s, RestorerDequeue), es);
    RunKeepsRow(Step(s, RestorerDequeue), es, k);
    hide Run, StatusOf, SetStatus, IsEmailOnly;
    SetStatusReads(t.db, k, ActivatingFailed, k);
  }

  lemma PasswordTakes(s: State)
    requires s.passwordWorker == NoPassword && s.passwordQueue != [] && StatusOf(s.db, s.passwordQueue[0]).Some?
    ensures var k, t := s.passwordQueue[0], Step(s, PasswordDequeue);
            t.passwordWorker == PasswordTaken(k, IsEmailOnly(s.db, k)) && t.db == s.db
  {
    hide IsEmailOnly, StatusOf;
  }

  lemma PasswordRestores(s: State, k: Key, emailOnly: bool, restored: bool)
    requires s.passwordWorker == PasswordTaken(k, emailOnly) && StatusOf(s.db, k).Some?
    ensures var t := Step(s, PasswordRestore(restored));
            t.passwordWorker == PasswordChanged(k, emailOnly) && StatusOf(t.db, k).Some?
  {
    TypeKept(s, PasswordRestore(restored), k);
    hide StatusOf, SetStatus, IsEmailOnly;
  }

  lemma PasswordFlag(s: State, es: seq<Event>, restored: bool)
    requires s.passwordWorker == NoPassword && s.passwordQueue != [] && StatusOf(s.db, s.passwordQueue[0]).Some?
    requires forall e | e in es :: !OfPasswords(e)
    ensures var k, t := s.passwordQueue[0], Run(Step(s, PasswordDequeue), es);
            && t.passwordWorker == PasswordTaken(k, IsEmailOnly(s.db, k)) && StatusOf(t.db, k).Some?
            && Step(t, PasswordRestore(restored)).passwordWorker == PasswordChanged(k, IsEmailOnly(s.db, k))
            && StatusOf(Step(t, PasswordRestore(restored)).db, k).Some?
  {
    hide Run, Step, StatusOf, IsEmailOnly;
    var k, t := s.passwordQueue[0], Run(Step(s, PasswordDequeue), es);
    PasswordTakes(s);
    RunWorkersKept(Step(s, PasswordDequeue), es);
    RunKeepsRow(Step(s, PasswordDequeue), es, k);
    PasswordRestores(t, k, IsEmailOnly(s.db, k), restored);
  }

  /** The password worker does the opposite: only the scripts of an e-mail-only user count, the
      restore before the change ... */
  lemma PasswordRestoreScript(s: State, es: seq<Event>, restored: bool)
    requires s.passwordWorker == NoPassword && s.passwordQueue != [] && StatusOf(s.db, s.passwordQueue[0]).Some?
    requires forall e | e in es :: !OfPasswords(e)
    ensures var k, t := s.passwordQueue[0], Run(Step(s, PasswordDequeue), es);
            StatusOf(Step(t, PasswordRestore(restored)).db, k)
            == if !restored && IsEmailOnly(s.db, k) then Some(ActivatingFailed) else StatusOf(t.db, k)
  {
    PasswordFlag(s, es, restored);
    hide Run, StatusOf, SetStatus, IsEmailOnly;
    SetStatusReads(Run(Step(s, PasswordDequeue), es).db, s.passwordQueue[0], ActivatingFailed, s.passwordQueue[0]);
  }

  /** ... and the archive after it. */
  lemma PasswordArchiveScript(s: State, es: seq<Event>, restored: bool, fs: seq<Event>, archived: bool)
    requires s.passwordWorker == NoPassword && s.passwordQueue != [] && StatusOf(s.db, s.passwordQueue[0]).Some?
    requires (forall e | e in es :: !OfPasswords(e)) && forall e | e in fs :: !OfPasswords(e)
    ensures var k, t := s.passwordQueue[0], Run(Step(s, PasswordDequeue), es);
            var u := Run(Step(t, PasswordRestore(restored)), fs);
            StatusOf(Step(u, PasswordArchive(archived)).db, k)
            == if !archived && IsEmailOnly(s.db, k) then Some(ArchivingFailed) else StatusOf(u.db, k)
  {
    var k, t := s.passwordQueue[0], Run(Step(s, PasswordDequeue), es);
    var v := Step(t, PasswordRestore(restored));
    var u := Run(v, fs);
    PasswordFlag(s, es, restored);
    RunWorkersKept(v, fs);
    RunKeepsRow(v, fs, k);
    OwnArchive(u, k, archived);
    hide Run, Step, StatusOf, IsEmailOnly;
  }

  lemma OwnArchive(s: State, k: Key, archived: bool)
    requires s.passwordWorker.PasswordChanged? && s.passwordWorker.key == k && StatusOf(s.db, k).Some?
    ensures StatusOf(Step(s, PasswordArchive(archived)).db, k)
            == if !archived && s.passwordWorker.emailOnly then Some(ArchivingFailed) else StatusOf(s.db, k)
  {
    hide StatusOf, SetStatus;
    SetStatusReads(s.db, k, ArchivingFailed, k);
  }

  /** What the desktop script leaves: ACTIVE when it succeeds, PROCESSING_FAILED when it records
      its failure, and the status it found when it ends without a word. */
  lemma DesktopScript(s: State, k: Key, outcome: Outcome)
    requires s.creator == Personalizing(k, Find(s.db, k, 0)) && StatusOf(s.db, k).Some?
    ensures StatusOf(Step(s, CreatorPersonalize(outcome)).db, k)
            == match outcome
               case Activated => Some(Active)
               case RecordedFailure => Some(ProcessingFailed)
               case LeftAlone => StatusOf(s.db, k)
  {
    if !outcome.LeftAlone? {
      FindSameRows(s.db, Step(s, CreatorPersonalize(outcome)).db, k);
    }
  }

  /** A type change runs the restore script for a full user and the archive script for an
      e-mail-only one, and records which one failed. */
  lemma TypeScript(s: State, k: Key, kind: UserType, ok: bool)
    requires s.typeWorker == TypeTaken(k, kind) && StatusOf(s.db, k).Some?
    ensures StatusOf(Step(s, TypeRun(ok)).db, k)
            == if ok || kind == OtherType then StatusOf(s.db, k)
               else Some(if kind == EmailOnly then ArchivingFailed else ActivatingFailed)
  {
    hide StatusOf, SetStatus;
    SetStatusReads(s.db, k, ActivatingFailed, k);
    SetStatusReads(s.db, k, ArchivingFailed, k);
  }
}
