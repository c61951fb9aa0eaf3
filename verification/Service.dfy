/** The RPC service as a program: shared tables, queues and workers changed in place. */
module Service {
  import opened Text
  import opened UserTable
  import opened Usernames
  import opened StatusProtocol
  import opened ProtocolSafety
  import opened ArchiveProtocol
  import opened CreationProtocol
  import opened TypeChange
  import opened CreationLife

  /** What callers may rely on between any two steps of a service: creation and configuration
      exclude each other, names and prefixes are unique, every queued key has its row, and
      no user is created twice. */
  ghost predicate Sound(s: State) {
    Exclusive(s.db) && Unique(s.db) && Tracked(s)
  }

  lemma StepSound(s: State, e: Event)
    requires Sound(s) && LowerRequest(e) && FreshPrefix(s, e)
    ensures Sound(Step(s, e))
  {
    hide Exclusive, Unique, Step, LowerRequest, FreshPrefix;
    StepExclusive(s, e);
    StepUnique(s, e);
    StepTracked(s, e);
  }

  /** The same for the steps of the workers, by the function of each worker. */
  lemma WorkerSound(s: State, e: Event)
    ensures Sound(s) && (e.CreatorDequeue? || e.CreatorPersonalize? || e.CreatorCheck?) ==> Sound(CreatorStep(s, e))
    ensures Sound(s) && (e.ArchiverDequeue? || e.ArchiverRun? || e.ArchiverFinish?) ==> Sound(ArchiverStep(s, e))
    ensures Sound(s) && (e.RestorerDequeue? || e.RestorerRun? || e.RestorerFinish?) ==> Sound(RestorerStep(s, e))
    ensures Sound(s) && (e.TypeDequeue? || e.TypeRun? || e.TypeRecord? || e.TypeFinish?) ==> Sound(TypeStep(s, e))
  {
    hide Sound, CreatorStep, ArchiverStep, RestorerStep, TypeStep, PasswordStep, ConfigStep;
    if Sound(s) && LowerRequest(e) && FreshPrefix(s, e) {
      StepSound(s, e);
    }
  }

  lemma OtherWorkerSound(s: State, e: Event)
    ensures Sound(s) && (e.PasswordDequeue? || e.PasswordRestore? || e.PasswordArchive?) ==> Sound(PasswordStep(s, e))
    ensures Sound(s) && (e.DomainDequeue? || e.DomainFinish?) ==> Sound(ConfigStep(s, e))
    ensures Sound(s) && (e.AnchorDequeue? || e.AnchorScript? || e.AnchorFinish?) ==> Sound(ConfigStep(s, e))
  {
    hide Sound, CreatorStep, ArchiverStep, RestorerStep, TypeStep, PasswordStep, ConfigStep;
    if Sound(s) && LowerRequest(e) && FreshPrefix(s, e) {
      StepSound(s, e);
    }
  }

  /** What an accepted creation request comes to at once. */
  ghost predicate Begun(s: State, k: Key) {
    if Lower(k.username) == k.username then Waiting(s, k)
    else Parked(s, AsStored(k)) && StatusOf(s.db, AsStored(k)) == Some(Processing)
  }

  lemma CreationBegins(s: State, e: Event)
    requires e.CreateUser?
    ensures var (t, reply) := Create(s, e.username, e.prefix, e.realm, e.emailOnly, e.inserted);
            && (Sound(s) ==> Sound(t))
            && (reply == Enqueued && e.realm in t.db.orgs && Sound(s) && TypeTokens(s, StoredKey(s, e)) == 0 ==>
                  t.newQueue != [] && Begun(t, t.newQueue[|t.newQueue| - 1]))
  {
    if Sound(s) {
      StepSound(s, e);
    }
    if Sound(s) && Creates(s, e) && TypeTokens(s, StoredKey(s, e)) == 0 {
      if Lower(QueuedKey(s, e).username) == QueuedKey(s, e).username {
        CreationWaits(s, e);
      } else {
        CapitalNameParked(s, e);
      }
    }
  }

  lemma ArchiveKeepsOrder(s: State, k: Key)
    ensures Archive(s, k).1 == Enqueued ==> StatusOf(Archive(s, k).0.db, k) == Some(Archiving)
    ensures forall u | Orderly(s, u) :: Orderly(Archive(s, k).0, u)
  {
    hide SetStatus;
    if Archive(s, k).1 == Enqueued {
      SetStatusReads(s.db, k, Archiving, k);
    }
    forall u | Orderly(s, u) ensures Orderly(Archive(s, k).0, u) {
      hide Orderly;
      StepSummary(s, ArchiveUser(k), u);
    }
  }

  lemma RestoreKeepsOrder(s: State, k: Key)
    ensures Restore(s, k).1 == Enqueued ==> StatusOf(Restore(s, k).0.db, k) == Some(Activating)
    ensures forall u | Orderly(s, u) :: Orderly(Restore(s, k).0, u)
  {
    hide SetStatus;
    if Restore(s, k).1 == Enqueued {
      SetStatusReads(s.db, k, Activating, k);
    }
    forall u | Orderly(s, u) ensures Orderly(Restore(s, k).0, u) {
      hide Orderly;
      StepSummary(s, RestoreUser(k), u);
    }
  }

  class RpcService {
    var db: Database
    var newQueue: seq<Key>
    var archiveQueue: seq<Key>
    var restoreQueue: seq<Key>
    var domainQueue: seq<string>
    var anchorQueue: seq<string>
    var typeQueue: seq<TypeRequest>
    var passwordQueue: seq<Key>
    var creator: CreationPc
    var archiver: Pc
    var restorer: Pc
    var typeWorker: TypePc
    var passwordWorker: PasswordPc
    var domainWorker: Option<string>
    var anchorWorker: Option<string>
    const anchorDomain: string

    ghost function Abs(): State
      reads this
    {
      State(db, newQueue, archiveQueue, restoreQueue, domainQueue, anchorQueue, typeQueue, passwordQueue,
            creator, archiver, restorer, typeWorker, passwordWorker, domainWorker, anchorWorker, anchorDomain)
    }

    /** All queues are empty and all workers wait when the service starts. */
    constructor (tables: Database, anchor: string)
      ensures Abs() == State(tables, [], [], [], [], [], [], [], NoCreation, Idle, Idle,
                       NoType, NoPassword, None, None, anchor)
      ensures LowerOrgs(tables.orgs) && Exclusive(tables) && Unique(tables) ==> Sound(Abs())
    {
      db, anchorDomain := tables, anchor;
      newQueue, archiveQueue, restoreQueue, domainQueue, anchorQueue := [], [], [], [], [];
      typeQueue, passwordQueue, typeWorker, passwordWorker := [], [], NoType, NoPassword;
      creator, archiver, restorer, domainWorker, anchorWorker := NoCreation, Idle, Idle, None, None;
    }

    /** `getUserStatus`: one pass over the users of the realm. */
    method GetUserStatus(realm: string) returns (processing: bool)
      ensures processing <==> CreationRunning(db, realm)
    {
      processing := false;
      for i := 0 to |db.users|
        invariant processing <==> exists j | 0 <= j < i ::
                    realm in db.orgs && db.users[j].org == Some(realm) && db.users[j].status == Processing
      {
        if realm in db.orgs && db.users[i].org == Some(realm) && db.users[i].status == Processing {
          processing := true;
        }
      }
      if processing {
        var j :| 0 <= j < |db.users| && realm in db.orgs && db.users[j].org == Some(realm)
                 && db.users[j].status == Processing;
        assert db.users[j] in db.users;
      }
    }

    // ----- request handlers -----

    method CreateNewUser(username: string, prefix: string, realm: string, emailOnly: bool, inserted: bool)
      returns (reply: Reply)
      modifies this
      ensures (Abs(), reply) == Create(old(Abs()), username, prefix, realm, emailOnly, inserted)
      ensures Sound(old(Abs())) ==> Sound(Abs())
      ensures reply == Enqueued ==> newQueue != []
      ensures reply == Enqueued && realm in db.orgs && Sound(old(Abs()))
              && TypeTokens(old(Abs()), AsStored(newQueue[|newQueue| - 1])) == 0 ==>
              Begun(Abs(), newQueue[|newQueue| - 1])
    {
      hide Sound, Begun, MadeName;
      CreationBegins(Abs(), CreateUser(username, prefix, realm, emailOnly, inserted));
      if CloudBusy(db, realm) {
        return Dropped;
      }
      if PrefixTaken(db, Lower(realm), Lower(prefix)) {
        return Dropped;
      }
      if !PrefixAllowed(prefix) {
        return Dropped;
      }
      var name := username;
      if username == "" || UsernameTaken(db, Lower(realm), Lower(username)) {
        name := MakeUsername(db, prefix, realm);
        if name == "" {
          return Dropped;
        }
      }
      if !inserted {
        return Dropped;
      }
      db := db.(users := db.users + [NewRow(db, name, prefix, realm, emailOnly)]);
      newQueue := newQueue + [Key(realm, name)];
      return Enqueued;
    }

    method ArchiveUser(k: Key) returns (reply: Reply)
      modifies this
      ensures (Abs(), reply) == Archive(old(Abs()), k)
      ensures Sound(old(Abs())) ==> Sound(Abs())
      ensures reply == Enqueued ==> StatusOf(old(db), k) == Some(Active) && StatusOf(db, k) == Some(Archiving)
      ensures forall u | Orderly(old(Abs()), u) :: Orderly(Abs(), u)
    {
      hide Sound, Orderly;
      if Sound(Abs()) {
        StepSound(Abs(), StatusProtocol.ArchiveUser(k));
      }
      ArchiveKeepsOrder(Abs(), k);
      if CloudBusy(db, k.realm) {
        return Dropped;
      }
      if StatusOf(db, k) != Some(Active) {
        return Refused;
      }
      db := SetStatus(db, k, Archiving);
      archiveQueue := archiveQueue + [k];
      return Enqueued;
    }

    method RestoreUser(k: Key) returns (reply: Reply)
      modifies this
      ensures (Abs(), reply) == Restore(old(Abs()), k)
      ensures Sound(old(Abs())) ==> Sound(Abs())
      ensures reply == Enqueued ==> StatusOf(old(db), k) == Some(Archived) && StatusOf(db, k) == Some(Activating)
      ensures forall u | Orderly(old(Abs()), u) :: Orderly(Abs(), u)
    {
      hide Sound, Orderly;
      if Sound(Abs()) {
        StepSound(Abs(), StatusProtocol.RestoreUser(k));
      }
      RestoreKeepsOrder(Abs(), k);
      if CloudBusy(db, k.realm) {
        return Dropped;
      }
      if StatusOf(db, k) != Some(Archived) {
        return Refused;
      }
      db := SetStatus(db, k, Activating);
      restoreQueue := restoreQueue + [k];
      return Enqueued;
    }

    /** The type is changed whatever the status of the user. */
    method ChangeUserType(k: Key, kind: UserType) returns (reply: Reply)
      modifies this
      ensures (Abs(), reply) == RequestType(old(Abs()), k, kind)
      ensures Sound(old(Abs())) ==> Sound(Abs())
      ensures reply == Enqueued && Settled(old(Abs()), k) && UnderWay(old(Abs()), k) == 0 ==> Changing(Abs(), k)
    {
      hide Sound, Changing, Settled, UnderWay;
      ghost var e := ChangeType(k, kind);
      if Sound(Abs()) {
        StepSound(Abs(), e);
      }
      if Settled(Abs(), k) && UnderWay(Abs(), k) == 0 && Intrudes(Abs(), e, k) {
        ChangeStarts(Abs(), e, k);
      }
      if CloudBusy(db, k.realm) {
        return Dropped;
      }
      db := SetStatus(db, k, Updating);
      typeQueue := typeQueue + [TypeRequest(k, kind)];
      return Enqueued;
    }

    method ChangeUserPassword(k: Key) returns (reply: Reply)
      modifies this
      ensures (Abs(), reply) == RequestPassword(old(Abs()), k)
      ensures Sound(old(Abs())) ==> Sound(Abs())
    {
      hide Sound;
      if Sound(Abs()) {
        StepSound(Abs(), ChangePassword(k));
      }
      if CloudBusy(db, k.realm) {
        return Dropped;
      }
      passwordQueue := passwordQueue + [k];
      return Enqueued;
    }

    method ChangeDomainConfig(realm: string) returns (reply: Reply)
      modifies this
      ensures (Abs(), reply) == ConfigureDomain(old(Abs()), realm)
      ensures Sound(old(Abs())) && Lower(realm) == realm ==> Sound(Abs())
      ensures reply == Dropped <==> CreationRunning(old(db), realm)
    {
      hide Sound;
      if Sound(Abs()) && Lower(realm) == realm {
        StepSound(Abs(), ChangeDomain(realm));
      }
      var creating := GetUserStatus(realm);
      if creating {
        return Dropped;
      }
      db := SetDc(db, realm, Processing);
      domainQueue := domainQueue + [realm];
      return Enqueued;
    }

    method ChangeSystemAnchorConfig(realm: string) returns (reply: Reply)
      modifies this
      ensures (Abs(), reply) == ConfigureAnchor(old(Abs()), realm)
      ensures Sound(old(Abs())) && Lower(realm) == realm ==> Sound(Abs())
      ensures reply == Dropped <==> CreationRunning(old(db), realm)
    {
      hide Sound;
      if Sound(Abs()) && Lower(realm) == realm {
        StepSound(Abs(), ChangeAnchor(realm));
      }
      var creating := GetUserStatus(realm);
      if creating {
        return Dropped;
      }
      db := SetDc(db, realm, Processing);
      anchorQueue := anchorQueue + [realm];
      return Enqueued;
    }

    // ----- one step of a worker loop each; a worker with nothing to do waits -----

    method StepNewUsers(outcome: Outcome)
      modifies this
      ensures Abs() == CreatorStep(old(Abs()), match old(creator)
                                               case NoCreation => CreatorDequeue
                                               case Personalizing(_, _) => CreatorPersonalize(outcome)
                                               case Personalized(_, _) => CreatorCheck)
      ensures Sound(old(Abs())) ==> Sound(Abs())
    {
      hide Sound, SetStatusById, Find;
      match creator
      case NoCreation =>
        WorkerSound(Abs(), CreatorDequeue);
        if newQueue != [] {
          creator := Personalizing(newQueue[0], Find(db, newQueue[0], 0));
          newQueue := newQueue[1..];
        }
      case Personalizing(k, id) =>
        WorkerSound(Abs(), CreatorPersonalize(outcome));
        if outcome == Activated {
          db := SetStatusById(db, id, Active);
        } else if outcome == RecordedFailure {
          db := SetStatusById(db, id, ProcessingFailed);
        }
        creator := Personalized(k, id);
      case Personalized(k, id) =>
        WorkerSound(Abs(), CreatorCheck);
        if !(id.Some? && id.value < |db.users| && db.users[id.value].status == Active) {
          db := SetStatusById(db, id, ProcessingFailed);
        }
        creator := NoCreation;
    }

    method StepArchiveUsers(ok: bool)
      modifies this
      ensures Abs() == ArchiverStep(old(Abs()), match old(archiver)
                                                case Idle => ArchiverDequeue
                                                case Taken(_, _) => ArchiverRun(ok)
                                                case Ran(_) => ArchiverFinish)
      ensures Sound(old(Abs())) ==> Sound(Abs())
    {
      hide Sound, SetStatus, IsEmailOnly;
      match archiver
      case Idle =>
        WorkerSound(Abs(), ArchiverDequeue);
        if archiveQueue != [] {
          archiver, archiveQueue := Taken(archiveQueue[0], IsEmailOnly(db, archiveQueue[0])), archiveQueue[1..];
        }
      case Taken(k, emailOnly) =>
        WorkerSound(Abs(), ArchiverRun(ok));
        if !emailOnly && !ok {
          db := SetStatus(db, k, ArchivingFailed);
        }
        archiver := Ran(k);
      case Ran(k) =>
        WorkerSound(Abs(), ArchiverFinish);
        db := SetStatus(db, k, Archived);
        archiver := Idle;
    }

    method StepRestoreUsers(ok: bool)
      modifies this
      ensures Abs() == RestorerStep(old(Abs()), match old(restorer)
                                                case Idle => RestorerDequeue
                                                case Taken(_, _) => RestorerRun(ok)
                                                case Ran(_) => RestorerFinish)
      ensures Sound(old(Abs())) ==> Sound(Abs())
    {
      hide Sound, SetStatus, IsEmailOnly;
      match restorer
      case Idle =>
        WorkerSound(Abs(), RestorerDequeue);
        if restoreQueue != [] {
          restorer, restoreQueue := Taken(restoreQueue[0], IsEmailOnly(db, restoreQueue[0])), restoreQueue[1..];
        }
      case Taken(k, emailOnly) =>
        WorkerSound(Abs(), RestorerRun(ok));
        if !emailOnly && !ok {
          db := SetStatus(db, k, ActivatingFailed);
        }
        restorer := Ran(k);
      case Ran(k) =>
        WorkerSound(Abs(), RestorerFinish);
        db := SetStatus(db, k, Active);
        restorer := Idle;
    }

    method StepChangeUserType(ok: bool)
      modifies this
      ensures Abs() == TypeStep(old(Abs()), match old(typeWorker)
                                            case NoType => TypeDequeue
                                            case TypeTaken(_, _) => TypeRun(ok)
                                            case TypeRan(_, _) => TypeRecord
                                            case TypeRecorded(_) => TypeFinish)
      ensures Sound(old(Abs())) ==> Sound(Abs())
    {
      hide Sound, SetStatus, SetType;
      match typeWorker
      case NoType =>
        WorkerSound(Abs(), TypeDequeue);
        if typeQueue != [] {
          typeWorker, typeQueue := TypeTaken(typeQueue[0].key, typeQueue[0].kind), typeQueue[1..];
        }
      case TypeTaken(k, kind) =>
        WorkerSound(Abs(), TypeRun(ok));
        if kind == Full && !ok {
          db := SetStatus(db, k, ActivatingFailed);
        } else if kind == EmailOnly && !ok {
          db := SetStatus(db, k, ArchivingFailed);
        }
        typeWorker := TypeRan(k, kind);
      case TypeRan(k, kind) =>
        WorkerSound(Abs(), TypeRecord);
        db := SetType(db, k, kind == EmailOnly);
        typeWorker := TypeRecorded(k);
      case TypeRecorded(k) =>
        WorkerSound(Abs(), TypeFinish);
        db := SetStatus(db, k, Active);
        typeWorker := NoType;
    }

    method StepChangeUserPasswords(ok: bool)
      modifies this
      ensures Abs() == PasswordStep(old(Abs()), match old(passwordWorker)
                                                case NoPassword => PasswordDequeue
                                                case PasswordTaken(_, _) => PasswordRestore(ok)
                                                case PasswordChanged(_, _) => PasswordArchive(ok))
      ensures Sound(old(Abs())) ==> Sound(Abs())
    {
      hide Sound, SetStatus, IsEmailOnly;
      match passwordWorker
      case NoPassword =>
        OtherWorkerSound(Abs(), PasswordDequeue);
        if passwordQueue != [] {
          passwordWorker := PasswordTaken(passwordQueue[0], IsEmailOnly(db, passwordQueue[0]));
          passwordQueue := passwordQueue[1..];
        }
      case PasswordTaken(k, emailOnly) =>
        OtherWorkerSound(Abs(), PasswordRestore(ok));
        if emailOnly && !ok {
          db := SetStatus(db, k, ActivatingFailed);
        }
        passwordWorker := PasswordChanged(k, emailOnly);
      case PasswordChanged(k, emailOnly) =>
        OtherWorkerSound(Abs(), PasswordArchive(ok));
        if emailOnly && !ok {
          db := SetStatus(db, k, ArchivingFailed);
        }
        passwordWorker := NoPassword;
    }

    /** The write of the remote script for a change of the primary address. */
    method WritePrefix(k: Key, newPrefix: string)
      modifies this
      ensures Abs() == Step(old(Abs()), PrefixScript(k, newPrefix))
      ensures Sound(old(Abs())) && FreshPrefix(old(Abs()), PrefixScript(k, newPrefix)) ==> Sound(Abs())
    {
      hide Sound;
      if Sound(Abs()) && FreshPrefix(Abs(), PrefixScript(k, newPrefix)) {
        StepSound(Abs(), PrefixScript(k, newPrefix));
      }
      db := SetPrefix(db, k, newPrefix);
    }

    method StepDomainConfig(inUse: bool, ok: bool)
      modifies this
      ensures Abs() == ConfigStep(old(Abs()), if old(domainWorker) == None then DomainDequeue
                                              else DomainFinish(inUse, ok))
      ensures Sound(old(Abs())) ==> Sound(Abs())
    {
      hide Sound, SetDc;
      if domainWorker == None {
        OtherWorkerSound(Abs(), DomainDequeue);
        if domainQueue != [] {
          domainWorker, domainQueue := Some(domainQueue[0]), domainQueue[1..];
        }
      } else {
        OtherWorkerSound(Abs(), DomainFinish(inUse, ok));
        var realm := domainWorker.value;
        domainWorker := None;
        if !inUse && !ok {
          db := SetDc(db, realm, ProcessingFailed);
          return;
        }
        db := SetDc(db, realm, Active);
      }
    }

    /** With `writes` the step is the status write that the script makes itself, which it does
        for the anchor's own realm only. */
    method StepSystemAnchorConfig(writes: bool, ok: bool)
      modifies this
      ensures Abs() == ConfigStep(old(Abs()), if old(anchorWorker) == None then AnchorDequeue
                                              else if writes then AnchorScript else AnchorFinish(ok))
      ensures Sound(old(Abs())) ==> Sound(Abs())
    {
      hide Sound, SetDc;
      if anchorWorker == None {
        OtherWorkerSound(Abs(), AnchorDequeue);
        if anchorQueue != [] {
          anchorWorker, anchorQueue := Some(anchorQueue[0]), anchorQueue[1..];
        }
      } else if writes {
        OtherWorkerSound(Abs(), AnchorScript);
        var realm := anchorWorker.value;
        if realm == anchorDomain && realm in db.orgs && realm in db.dc {
          db := db.(dc := db.dc[realm := Active]);
        }
      } else {
        OtherWorkerSound(Abs(), AnchorFinish(ok));
        var realm := anchorWorker.value;
        anchorWorker := None;
        if realm == anchorDomain && !ok {
          db := SetDc(db, realm, ProcessingFailed);
          return;
        }
        db := SetDc(db, realm, Active);
      }
    }
  }
}
