/** The RPC service as a transition system: request handlers run one at a time and
    atomically, one worker per queue runs between any two of their steps. */
module StatusProtocol {
  import opened Text
  import opened UserTable
  import opened Usernames

  /** Where an archive or restore worker stands; it reads the type of the user first. */
  datatype Pc = Idle | Taken(key: Key, emailOnly: bool) | Ran(key: Key)

  /** Where the creation worker stands, with the row id it looked up. */
  datatype CreationPc = NoCreation | Personalizing(key: Key, id: Option<nat>) | Personalized(key: Key, id: Option<nat>)

  datatype UserType = Full | EmailOnly | OtherType

  datatype TypeRequest = TypeRequest(key: Key, kind: UserType)

  /** Where the worker for type changes stands: the script is to run, the type is to be
      recorded, the status is to be written. */
  datatype TypePc = NoType | TypeTaken(key: Key, kind: UserType) | TypeRan(key: Key, kind: UserType)
    | TypeRecorded(key: Key)

  /** Where the worker for password changes stands. An e-mail-only user is restored before
      the change and archived again after it. */
  datatype PasswordPc = NoPassword | PasswordTaken(key: Key, emailOnly: bool)
    | PasswordChanged(key: Key, emailOnly: bool)

  datatype State = State(
    db: Database,
    newQueue: seq<Key>, archiveQueue: seq<Key>, restoreQueue: seq<Key>,
    domainQueue: seq<string>, anchorQueue: seq<string>,
    typeQueue: seq<TypeRequest>, passwordQueue: seq<Key>,
    creator: CreationPc, archiver: Pc, restorer: Pc,
    typeWorker: TypePc, passwordWorker: PasswordPc,
    domainWorker: Option<string>, anchorWorker: Option<string>,
    anchorDomain: string)

  /** How `personalize_desktop.pl` leaves the status of the user. */
  datatype Outcome = Activated | RecordedFailure | LeftAlone

  /** The reply of a handler: the request was dropped by `next`, refused with a reason, or
      put in a queue. */
  datatype Reply = Dropped | Refused | Enqueued

  datatype Event =
    | CreateUser(username: string, prefix: string, realm: string, emailOnly: bool, inserted: bool)
    | ArchiveUser(key: Key)
    | RestoreUser(key: Key)
    | ChangeType(key: Key, kind: UserType)
    | ChangePassword(key: Key)
    | ChangeDomain(realm: string)
    | ChangeAnchor(realm: string)
    | CreatorDequeue
    | CreatorPersonalize(outcome: Outcome)
    | CreatorCheck
    | ArchiverDequeue
    | ArchiverRun(ok: bool)
    | ArchiverFinish
    | RestorerDequeue
    | RestorerRun(ok: bool)
    | RestorerFinish
    | TypeDequeue
    | TypeRun(ok: bool)
    | TypeRecord
    | TypeFinish
    | PasswordDequeue
    | PasswordRestore(ok: bool)
    | PasswordArchive(ok: bool)
    | PrefixScript(key: Key, newPrefix: string)
    | DomainDequeue
    | DomainFinish(inUse: bool, ok: bool)
    | AnchorDequeue
    | AnchorScript
    | AnchorFinish(ok: bool)

  // ----- handlers -----

  predicate PrefixAllowed(prefix: string) {
    forall c | c in prefix :: InPool(c) || c in "#^*~.-_"
  }

  /** The name a creation request ends up with; empty when none can be made. */
  function ChosenName(db: Database, username: string, prefix: string, realm: string): string {
    if username == "" || UsernameTaken(db, Lower(realm), Lower(username)) then MadeName(db, prefix, realm) else username
  }

  predicate CreationAccepted(db: Database, username: string, prefix: string, realm: string, inserted: bool) {
    && !CloudBusy(db, realm)
    && !PrefixTaken(db, Lower(realm), Lower(prefix))
    && PrefixAllowed(prefix)
    && ChosenName(db, username, prefix, realm) != ""
    && inserted
  }

  function NewRow(db: Database, name: string, prefix: string, realm: string, emailOnly: bool): Row {
    Row(if realm in db.orgs then Some(realm) else None, Lower(name), Lower(prefix), Processing, emailOnly)
  }

  /** The row holds the lowered name, the queue the name as given. */
  function Create(s: State, username: string, prefix: string, realm: string, emailOnly: bool, inserted: bool)
    : (State, Reply) {
    if !CreationAccepted(s.db, username, prefix, realm, inserted) then (s, Dropped)
    else
      var name := ChosenName(s.db, username, prefix, realm);
      (s.(db := s.db.(users := s.db.users + [NewRow(s.db, name, prefix, realm, emailOnly)]),
          newQueue := s.newQueue + [Key(realm, name)]), Enqueued)
  }

  function Archive(s: State, k: Key): (State, Reply) {
    if CloudBusy(s.db, k.realm) then (s, Dropped)
    else if StatusOf(s.db, k) != Some(Active) then (s, Refused)
    else (s.(db := SetStatus(s.db, k, Archiving), archiveQueue := s.archiveQueue + [k]), Enqueued)
  }

  function Restore(s: State, k: Key): (State, Reply) {
    if CloudBusy(s.db, k.realm) then (s, Dropped)
    else if StatusOf(s.db, k) != Some(Archived) then (s, Refused)
    else (s.(db := SetStatus(s.db, k, Activating), restoreQueue := s.restoreQueue + [k]), Enqueued)
  }

  /** The status of the user is not looked at, nor whether there is such a user. */
  function RequestType(s: State, k: Key, kind: UserType): (State, Reply) {
    if CloudBusy(s.db, k.realm) then (s, Dropped)
    else (s.(db := SetStatus(s.db, k, Updating), typeQueue := s.typeQueue + [TypeRequest(k, kind)]), Enqueued)
  }

  function RequestPassword(s: State, k: Key): (State, Reply) {
    if CloudBusy(s.db, k.realm) then (s, Dropped) else (s.(passwordQueue := s.passwordQueue + [k]), Enqueued)
  }

  /** `getCloudStatus` with `dc` excluded never reports, so only the users are tested. */
  function ConfigureDomain(s: State, realm: string): (State, Reply) {
    if CreationRunning(s.db, realm) then (s, Dropped)
    else (s.(db := SetDc(s.db, realm, Processing), domainQueue := s.domainQueue + [realm]), Enqueued)
  }

  function ConfigureAnchor(s: State, realm: string): (State, Reply) {
    if CreationRunning(s.db, realm) then (s, Dropped)
    else (s.(db := SetDc(s.db, realm, Processing), anchorQueue := s.anchorQueue + [realm]), Enqueued)
  }

  // ----- workers; a step that is not enabled leaves the state alone -----

  function CreatorStep(s: State, e: Event): State
    requires e.CreatorDequeue? || e.CreatorPersonalize? || e.CreatorCheck?
  {
    match e
    case CreatorDequeue =>
      if s.creator.NoCreation? && s.newQueue != [] then
        s.(newQueue := s.newQueue[1..], creator := Personalizing(s.newQueue[0], Find(s.db, s.newQueue[0], 0)))
      else s
    case CreatorPersonalize(outcome) =>
      if s.creator.Personalizing? then
        s.(db := if outcome.LeftAlone? then s.db
                 else SetStatusById(s.db, s.creator.id, if outcome.Activated? then Active else ProcessingFailed),
           creator := Personalized(s.creator.key, s.creator.id))
      else s
    case CreatorCheck =>
      if s.creator.Personalized? then
        var id := s.creator.id;
        s.(db := if id.Some? && id.value < |s.db.users| && s.db.users[id.value].status == Active then s.db
                 else SetStatusById(s.db, id, ProcessingFailed),
           creator := NoCreation)
      else s
  }

  /** A failing archive script records ARCHIVING_FAILED for a full user; the worker goes on
      and `ArchiverFinish` still records ARCHIVED. */
  function ArchiverStep(s: State, e: Event): State
    requires e.ArchiverDequeue? || e.ArchiverRun? || e.ArchiverFinish?
  {
    match e
    case ArchiverDequeue =>
      if s.archiver.Idle? && s.archiveQueue != [] then
        s.(archiveQueue := s.archiveQueue[1..],
           archiver := Taken(s.archiveQueue[0], IsEmailOnly(s.db, s.archiveQueue[0])))
      else s
    case ArchiverRun(ok) =>
      if s.archiver.Taken? then
        s.(db := if ok || s.archiver.emailOnly then s.db
                 else SetStatus(s.db, s.archiver.key, ArchivingFailed),
           archiver := Ran(s.archiver.key))
      else s
    case ArchiverFinish =>
      if s.archiver.Ran? then s.(db := SetStatus(s.db, s.archiver.key, Archived), archiver := Idle) else s
  }

  function RestorerStep(s: State, e: Event): State
    requires e.RestorerDequeue? || e.RestorerRun? || e.RestorerFinish?
  {
    match e
    case RestorerDequeue =>
      if s.restorer.Idle? && s.restoreQueue != [] then
        s.(restoreQueue := s.restoreQueue[1..],
           restorer := Taken(s.restoreQueue[0], IsEmailOnly(s.db, s.restoreQueue[0])))
      else s
    case RestorerRun(ok) =>
      if s.restorer.Taken? then
        s.(db := if ok || s.restorer.emailOnly then s.db
                 else SetStatus(s.db, s.restorer.key, ActivatingFailed),
           restorer := Ran(s.restorer.key))
      else s
    case RestorerFinish =>
      if s.restorer.Ran? then s.(db := SetStatus(s.db, s.restorer.key, Active), restorer := Idle) else s
  }

  /** A script that fails records its own failure; the worker goes on, records the type and
      makes the user ACTIVE, whatever it was before the request. */
  function TypeStep(s: State, e: Event): State
    requires e.TypeDequeue? || e.TypeRun? || e.TypeRecord? || e.TypeFinish?
  {
    match e
    case TypeDequeue =>
      if s.typeWorker.NoType? && s.typeQueue != [] then
        s.(typeQueue := s.typeQueue[1..], typeWorker := TypeTaken(s.typeQueue[0].key, s.typeQueue[0].kind))
      else s
    case TypeRun(ok) =>
      if s.typeWorker.TypeTaken? then
        var k := s.typeWorker.key;
        s.(db := if ok || s.typeWorker.kind == OtherType then s.db
                 else SetStatus(s.db, k, if s.typeWorker.kind == Full then ActivatingFailed else ArchivingFailed),
           typeWorker := TypeRan(k, s.typeWorker.kind))
      else s
    case TypeRecord =>
      if s.typeWorker.TypeRan? then
        s.(db := SetType(s.db, s.typeWorker.key, s.typeWorker.kind == EmailOnly),
           typeWorker := TypeRecorded(s.typeWorker.key))
      else s
    case TypeFinish =>
      if s.typeWorker.TypeRecorded? then
        s.(db := SetStatus(s.db, s.typeWorker.key, Active), typeWorker := NoType)
      else s
  }

  /** The scripts run for e-mail-only users only, and only a failing one writes a status. */
  function PasswordStep(s: State, e: Event): State
    requires e.PasswordDequeue? || e.PasswordRestore? || e.PasswordArchive?
  {
    match e
    case PasswordDequeue =>
      if s.passwordWorker.NoPassword? && s.passwordQueue != [] then
        s.(passwordQueue := s.passwordQueue[1..],
           passwordWorker := PasswordTaken(s.passwordQueue[0], IsEmailOnly(s.db, s.passwordQueue[0])))
      else s
    case PasswordRestore(ok) =>
      if s.passwordWorker.PasswordTaken? then
        var k, emailOnly := s.passwordWorker.key, s.passwordWorker.emailOnly;
        s.(db := if ok || !emailOnly then s.db else SetStatus(s.db, k, ActivatingFailed),
           passwordWorker := PasswordChanged(k, emailOnly))
      else s
    case PasswordArchive(ok) =>
      if s.passwordWorker.PasswordChanged? then
        var k, emailOnly := s.passwordWorker.key, s.passwordWorker.emailOnly;
        s.(db := if ok || !emailOnly then s.db else SetStatus(s.db, k, ArchivingFailed), passwordWorker := NoPassword)
      else s
  }

  /** A domain already in use is answered by mail and counts as done. */
  function ConfigStep(s: State, e: Event): State
    requires e.DomainDequeue? || e.DomainFinish? || e.AnchorDequeue? || e.AnchorScript? || e.AnchorFinish?
  {
    match e
    case DomainDequeue =>
      if s.domainWorker.None? && s.domainQueue != [] then
        s.(domainQueue := s.domainQueue[1..], domainWorker := Some(s.domainQueue[0]))
      else s
    case DomainFinish(inUse, ok) =>
      if s.domainWorker.Some? then
        s.(db := SetDc(s.db, s.domainWorker.value, if inUse || ok then Active else ProcessingFailed),
           domainWorker := None)
      else s
    case AnchorDequeue =>
      if s.anchorWorker.None? && s.anchorQueue != [] then
        s.(anchorQueue := s.anchorQueue[1..], anchorWorker := Some(s.anchorQueue[0]))
      else s
    case AnchorScript =>
      if s.anchorWorker == Some(s.anchorDomain) && s.anchorWorker.value in s.db.orgs
         && s.anchorWorker.value in s.db.dc then
        s.(db := s.db.(dc := s.db.dc[s.anchorWorker.value := Active]))
      else s
    case AnchorFinish(ok) =>
      if s.anchorWorker.Some? then
        s.(db := SetDc(s.db, s.anchorWorker.value,
                       if s.anchorWorker.value == s.anchorDomain && !ok then ProcessingFailed else Active),
           anchorWorker := None)
      else s
  }

  /** `PrefixScript` is the write of the remote script behind a change of the primary address;
      nothing is tested before it, so it may come at any time. */
  function Step(s: State, e: Event): State {
    match e
    case CreateUser(u, p, r, kind, inserted) => Create(s, u, p, r, kind, inserted).0
    case ArchiveUser(k) => Archive(s, k).0
    case RestoreUser(k) => Restore(s, k).0
    case ChangeType(k, kind) => RequestType(s, k, kind).0
    case ChangePassword(k) => RequestPassword(s, k).0
    case ChangeDomain(r) => ConfigureDomain(s, r).0
    case ChangeAnchor(r) => ConfigureAnchor(s, r).0
    case CreatorDequeue => CreatorStep(s, e)
    case CreatorPersonalize(_) => CreatorStep(s, e)
    case CreatorCheck => CreatorStep(s, e)
    case ArchiverDequeue => ArchiverStep(s, e)
    case ArchiverRun(_) => ArchiverStep(s, e)
    case ArchiverFinish => ArchiverStep(s, e)
    case RestorerDequeue => RestorerStep(s, e)
    case RestorerRun(_) => RestorerStep(s, e)
    case RestorerFinish => RestorerStep(s, e)
    case TypeDequeue => TypeStep(s, e)
    case TypeRun(_) => TypeStep(s, e)
    case TypeRecord => TypeStep(s, e)
    case TypeFinish => TypeStep(s, e)
    case PasswordDequeue => PasswordStep(s, e)
    case PasswordRestore(_) => PasswordStep(s, e)
    case PasswordArchive(_) => PasswordStep(s, e)
    case PrefixScript(k, p) => s.(db := SetPrefix(s.db, k, p))
    case DomainDequeue => ConfigStep(s, e)
    case DomainFinish(_, _) => ConfigStep(s, e)
    case AnchorDequeue => ConfigStep(s, e)
    case AnchorScript => ConfigStep(s, e)
    case AnchorFinish(_) => ConfigStep(s, e)
  }

  function Run(s: State, es: seq<Event>): State
    decreases |es|
  {
    if es == [] then s else Run(Step(s, es[0]), es[1..])
  }
}
