/** The tables of the configuration database that the RPC service reads and writes. */
module UserTable {
  import opened Text

  datatype Status = Processing | ProcessingFailed | Active
                  | Archiving | ArchivingFailed | Archived | Activating | ActivatingFailed | Updating

  /** A row of the user table. `org` is `None` for a row inserted under a realm that names
      no organization. */
  datatype Row = Row(org: Option<string>, username: string, prefix: string, status: Status, emailOnly: bool)

  /** Organizations by network name, user rows by id, and the `dc` column of the
      configuration status table. */
  datatype Database = Database(orgs: set<string>, users: seq<Row>, dc: map<string, Status>)

  /** A user as a request names it. */
  datatype Key = Key(realm: string, username: string)

  ghost predicate LowerOrgs(orgs: set<string>) {
    forall o | o in orgs :: Lower(o) == o
  }

  /** The comparison of the WHERE clauses: an unknown realm matches no row. */
  predicate IsRow(db: Database, r: Row, k: Key) {
    k.realm in db.orgs && r.org == Some(k.realm) && r.username == k.username
  }

  /** The id of the first matching row. */
  function Find(db: Database, k: Key, from: nat): (i: Option<nat>)
    requires from <= |db.users|
    ensures i.Some? ==> from <= i.value < |db.users| && IsRow(db, db.users[i.value], k)
    ensures i.None? ==> forall j | from <= j < |db.users| :: !IsRow(db, db.users[j], k)
    ensures i.Some? ==> forall j | from <= j < i.value :: !IsRow(db, db.users[j], k)
    decreases |db.users| - from
  {
    if from == |db.users| then None
    else if IsRow(db, db.users[from], k) then Some(from)
    else Find(db, k, from + 1)
  }

  function StatusOf(db: Database, k: Key): Option<Status> {
    var i := Find(db, k, 0);
    if i.Some? then Some(db.users[i.value].status) else None
  }

  predicate IsEmailOnly(db: Database, k: Key) {
    var i := Find(db, k, 0);
    i.Some? && db.users[i.value].emailOnly
  }

  /** UPDATE ... SET status WHERE username and organization. */
  function SetStatus(db: Database, k: Key, st: Status): Database {
    db.(users := seq(|db.users|, i requires 0 <= i < |db.users| =>
      if IsRow(db, db.users[i], k) then db.users[i].(status := st) else db.users[i]))
  }

  /** UPDATE ... SET type WHERE username and organization. */
  function SetType(db: Database, k: Key, emailOnly: bool): Database {
    db.(users := seq(|db.users|, i requires 0 <= i < |db.users| =>
      if IsRow(db, db.users[i], k) then db.users[i].(emailOnly := emailOnly) else db.users[i]))
  }

  /** UPDATE ... SET email_prefix WHERE username and organization. */
  function SetPrefix(db: Database, k: Key, prefix: string): Database {
    db.(users := seq(|db.users|, i requires 0 <= i < |db.users| =>
      if IsRow(db, db.users[i], k) then db.users[i].(prefix := prefix) else db.users[i]))
  }

  /** UPDATE ... SET status WHERE id. */
  function SetStatusById(db: Database, id: Option<nat>, st: Status): Database {
    if id.Some? && id.value < |db.users|
    then db.(users := db.users[id.value := db.users[id.value].(status := st)])
    else db
  }

  /** `updateCloudConfigStatus` lower-cases the realm before it updates. */
  function SetDc(db: Database, realm: string, st: Status): Database {
    if Lower(realm) in db.orgs && Lower(realm) in db.dc then db.(dc := db.dc[Lower(realm) := st]) else db
  }

  /** `getCloudStatus` without an exclusion. Only `dc` is looked at: the other variable in
      the test is never assigned. */
  predicate CloudBusy(db: Database, realm: string) {
    realm in db.orgs && realm in db.dc && db.dc[realm] != Active
  }

  /** `getUserStatus`. */
  predicate CreationRunning(db: Database, realm: string) {
    exists r | r in db.users :: realm in db.orgs && r.org == Some(realm) && r.status == Processing
  }

  predicate UsernameTaken(db: Database, realm: string, name: string) {
    exists r | r in db.users :: IsRow(db, r, Key(realm, name))
  }

  predicate PrefixTaken(db: Database, realm: string, prefix: string) {
    exists r | r in db.users :: realm in db.orgs && r.org == Some(realm) && r.prefix == prefix
  }

  lemma FindIs(db: Database, k: Key, i: nat)
    requires i < |db.users| && IsRow(db, db.users[i], k)
    requires forall j | 0 <= j < i :: !IsRow(db, db.users[j], k)
    ensures Find(db, k, 0) == Some(i)
  {
  }

  lemma FindSameRows(db: Database, db2: Database, k: Key)
    requires db.orgs == db2.orgs && |db.users| <= |db2.users|
    requires forall i | 0 <= i < |db.users| ::
               db2.users[i].org == db.users[i].org && db2.users[i].username == db.users[i].username
    requires Find(db, k, 0).Some?
    ensures Find(db2, k, 0) == Find(db, k, 0)
  {
    FindIs(db2, k, Find(db, k, 0).value);
  }

  lemma SetStatusReads(db: Database, k: Key, st: Status, other: Key)
    requires StatusOf(db, other).Some?
    ensures StatusOf(SetStatus(db, k, st), other) == if k == other then Some(st) else StatusOf(db, other)
    ensures IsEmailOnly(SetStatus(db, k, st), other) == IsEmailOnly(db, other)
  {
    FindSameRows(db, SetStatus(db, k, st), other);
  }

  lemma SetByIdReads(db: Database, id: Option<nat>, st: Status, other: Key)
    requires StatusOf(db, other).Some?
    requires id.Some? ==> id.value < |db.users| && !IsRow(db, db.users[id.value], other)
    ensures StatusOf(SetStatusById(db, id, st), other) == StatusOf(db, other)
  {
    FindSameRows(db, SetStatusById(db, id, st), other);
  }

  lemma InsertReads(db: Database, r: Row, other: Key)
    requires StatusOf(db, other).Some?
    ensures StatusOf(db.(users := db.users + [r]), other) == StatusOf(db, other)
  {
    FindSameRows(db, db.(users := db.users + [r]), other);
  }

  lemma SetTypeReads(db: Database, k: Key, emailOnly: bool, other: Key)
    requires StatusOf(db, other).Some?
    ensures StatusOf(SetType(db, k, emailOnly), other) == StatusOf(db, other)
  {
    FindSameRows(db, SetType(db, k, emailOnly), other);
  }

  lemma SetPrefixReads(db: Database, k: Key, prefix: string, other: Key)
    requires StatusOf(db, other).Some?
    ensures StatusOf(SetPrefix(db, k, prefix), other) == StatusOf(db, other)
  {
    FindSameRows(db, SetPrefix(db, k, prefix), other);
  }
}
