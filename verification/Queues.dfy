/** Every queue of the RPC service is first come, first served. */
module Queues {
  import opened Text
  import opened UserTable
  import opened StatusProtocol

  datatype Channel = NewUsers | ArchiveUsers | RestoreUsers | Types | Passwords | Domains | Anchors

  /** An entry of a queue. */
  datatype Item = OfUser(key: Key) | OfType(request: TypeRequest) | OfRealm(realm: string)

  function Users(q: seq<Key>): seq<Item> {
    seq(|q|, i requires 0 <= i < |q| => OfUser(q[i]))
  }

  function Requests(q: seq<TypeRequest>): seq<Item> {
    seq(|q|, i requires 0 <= i < |q| => OfType(q[i]))
  }

  function Realms(q: seq<string>): seq<Item> {
    seq(|q|, i requires 0 <= i < |q| => OfRealm(q[i]))
  }

  function Queue(s: State, ch: Channel): seq<Item> {
    match ch
    case NewUsers => Users(s.newQueue)
    case ArchiveUsers => Users(s.archiveQueue)
    case RestoreUsers => Users(s.restoreQueue)
    case Types => Requests(s.typeQueue)
    case Passwords => Users(s.passwordQueue)
    case Domains => Realms(s.domainQueue)
    case Anchors => Realms(s.anchorQueue)
  }

  /** What the worker of the channel has in hand, if it is not waiting. */
  function InHand(s: State, ch: Channel): Option<Item> {
    match ch
    case NewUsers => if s.creator.NoCreation? then None else Some(OfUser(s.creator.key))
    case ArchiveUsers => if s.archiver.Idle? then None else Some(OfUser(s.archiver.key))
    case RestoreUsers => if s.restorer.Idle? then None else Some(OfUser(s.restorer.key))
    case Types =>
      if s.typeWorker.TypeTaken? then Some(OfType(TypeRequest(s.typeWorker.key, s.typeWorker.kind)))
      else if s.typeWorker.NoType? then None
      else Some(OfUser(s.typeWorker.key))
    case Passwords => if s.passwordWorker.NoPassword? then None else Some(OfUser(s.passwordWorker.key))
    case Domains => if s.domainWorker.None? then None else Some(OfRealm(s.domainWorker.value))
    case Anchors => if s.anchorWorker.None? then None else Some(OfRealm(s.anchorWorker.value))
  }

  /** What an accepted request puts in the channel. */
  function Asked(s: State, e: Event, ch: Channel): seq<Item> {
    match ch
    case NewUsers =>
      if e.CreateUser? && Create(s, e.username, e.prefix, e.realm, e.emailOnly, e.inserted).1 == Enqueued
      then [OfUser(Key(e.realm, ChosenName(s.db, e.username, e.prefix, e.realm)))] else []
    case ArchiveUsers => if e.ArchiveUser? && Archive(s, e.key).1 == Enqueued then [OfUser(e.key)] else []
    case RestoreUsers => if e.RestoreUser? && Restore(s, e.key).1 == Enqueued then [OfUser(e.key)] else []
    case Types =>
      if e.ChangeType? && RequestType(s, e.key, e.kind).1 == Enqueued then [OfType(TypeRequest(e.key, e.kind))] else []
    case Passwords => if e.ChangePassword? && RequestPassword(s, e.key).1 == Enqueued then [OfUser(e.key)] else []
    case Domains => if e.ChangeDomain? && ConfigureDomain(s, e.realm).1 == Enqueued then [OfRealm(e.realm)] else []
    case Anchors => if e.ChangeAnchor? && ConfigureAnchor(s, e.realm).1 == Enqueued then [OfRealm(e.realm)] else []
  }

  /** What the worker of the channel takes in hand: it was waiting before and is not after. */
  function Took(s: State, t: State, ch: Channel): seq<Item> {
    if InHand(s, ch).None? && InHand(t, ch).Some? then [InHand(t, ch).value] else []
  }

  lemma ShiftUsers(q: seq<Key>, x: Key)
    ensures Users(q + [x]) == Users(q) + [OfUser(x)]
    ensures q != [] ==> Users(q) == [OfUser(q[0])] + Users(q[1..])
  {
  }

  lemma ShiftRequests(q: seq<TypeRequest>, x: TypeRequest)
    ensures Requests(q + [x]) == Requests(q) + [OfType(x)]
    ensures q != [] ==> Requests(q) == [OfType(q[0])] + Requests(q[1..])
  {
  }

  lemma ShiftRealms(q: seq<string>, x: string)
    ensures Realms(q + [x]) == Realms(q) + [OfRealm(x)]
    ensures q != [] ==> Realms(q) == [OfRealm(q[0])] + Realms(q[1..])
  {
  }

  ghost predicate Fifo(s: State, e: Event, ch: Channel) {
    Queue(s, ch) + Asked(s, e, ch) == Took(s, Step(s, e), ch) + Queue(Step(s, e), ch)
  }

  /** The channel an event belongs to; the write of a prefix belongs to none. */
  function ChannelOf(e: Event): Option<Channel> {
    if e.CreateUser? || e.CreatorDequeue? || e.CreatorPersonalize? || e.CreatorCheck? then Some(NewUsers)
    else if e.ArchiveUser? || e.ArchiverDequeue? || e.ArchiverRun? || e.ArchiverFinish? then Some(ArchiveUsers)
    else if e.RestoreUser? || e.RestorerDequeue? || e.RestorerRun? || e.RestorerFinish? then Some(RestoreUsers)
    else if e.ChangeType? || e.TypeDequeue? || e.TypeRun? || e.TypeRecord? || e.TypeFinish? then Some(Types)
    else if e.ChangePassword? || e.PasswordDequeue? || e.PasswordRestore? || e.PasswordArchive? then Some(Passwords)
    else if e.ChangeDomain? || e.DomainDequeue? || e.DomainFinish? then Some(Domains)
    else if e.ChangeAnchor? || e.AnchorDequeue? || e.AnchorScript? || e.AnchorFinish? then Some(Anchors)
    else None
  }

  lemma NewUsersOnly(s: State, e: Event)
    requires ChannelOf(e) == Some(NewUsers)
    ensures Step(s, e) == s.(db := Step(s, e).db, newQueue := Step(s, e).newQueue, creator := Step(s, e).creator)
  {
    hide SetStatusById, Find, CreationAccepted, ChosenName, NewRow;
  }

  lemma NewUsersFifo(s: State, e: Event)
    requires ChannelOf(e) == Some(NewUsers)
    ensures Fifo(s, e, NewUsers)
  {
    hide SetStatusById, Find, CreationAccepted, ChosenName, NewRow, Users;
    ShiftUsers(s.newQueue, if e.CreateUser? then Key(e.realm, ChosenName(s.db, e.username, e.prefix, e.realm))
               else Key("", ""));
  }

  lemma ArchiveUsersOnly(s: State, e: Event)
    requires ChannelOf(e) == Some(ArchiveUsers)
    ensures Step(s, e) == s.(db := Step(s, e).db, archiveQueue := Step(s, e).archiveQueue,
                             archiver := Step(s, e).archiver)
  {
    hide SetStatus, StatusOf, IsEmailOnly, CloudBusy;
  }

  lemma ArchiveUsersFifo(s: State, e: Event)
    requires ChannelOf(e) == Some(ArchiveUsers)
    ensures Fifo(s, e, ArchiveUsers)
  {
    hide SetStatus, StatusOf, IsEmailOnly, CloudBusy, Users;
    ShiftUsers(s.archiveQueue, if e.ArchiveUser? then e.key else Key("", ""));
  }

  lemma RestoreUsersOnly(s: State, e: Event)
    requires ChannelOf(e) == Some(RestoreUsers)
    ensures Step(s, e) == s.(db := Step(s, e).db, restoreQueue := Step(s, e).restoreQueue,
                             restorer := Step(s, e).restorer)
  {
    hide SetStatus, StatusOf, IsEmailOnly, CloudBusy;
  }

  lemma RestoreUsersFifo(s: State, e: Event)
    requires ChannelOf(e) == Some(RestoreUsers)
    ensures Fifo(s, e, RestoreUsers)
  {
    hide SetStatus, StatusOf, IsEmailOnly, CloudBusy, Users;
    ShiftUsers(s.restoreQueue, if e.RestoreUser? then e.key else Key("", ""));
  }

  lemma TypesOnly(s: State, e: Event)
    requires ChannelOf(e) == Some(Types)
    ensures Step(s, e) == s.(db := Step(s, e).db, typeQueue := Step(s, e).typeQueue,
                             typeWorker := Step(s, e).typeWorker)
  {
    hide SetStatus, SetType, CloudBusy;
  }

  lemma TypesFifo(s: State, e: Event)
    requires ChannelOf(e) == Some(Types)
    ensures Fifo(s, e, Types)
  {
    hide SetStatus, SetType, CloudBusy, Requests;
    ShiftRequests(s.typeQueue, if e.ChangeType? then TypeRequest(e.key, e.kind) else TypeRequest(Key("", ""), Full));
  }

  lemma PasswordsOnly(s: State, e: Event)
    requires ChannelOf(e) == Some(Passwords)
    ensures Step(s, e) == s.(db := Step(s, e).db, passwordQueue := Step(s, e).passwordQueue,
                             passwordWorker := Step(s, e).passwordWorker)
  {
    hide SetStatus, IsEmailOnly, CloudBusy;
  }

  lemma PasswordsFifo(s: State, e: Event)
    requires ChannelOf(e) == Some(Passwords)
    ensures Fifo(s, e, Passwords)
  {
    hide SetStatus, IsEmailOnly, CloudBusy, Users;
    ShiftUsers(s.passwordQueue, if e.ChangePassword? then e.key else Key("", ""));
  }

  lemma DomainsOnly(s: State, e: Event)
    requires ChannelOf(e) == Some(Domains)
    ensures Step(s, e) == s.(db := Step(s, e).db, domainQueue := Step(s, e).domainQueue,
                             domainWorker := Step(s, e).domainWorker)
  {
    hide SetDc, CreationRunning;
  }

  lemma DomainsFifo(s: State, e: Event)
    requires ChannelOf(e) == Some(Domains)
    ensures Fifo(s, e, Domains)
  {
    hide SetDc, CreationRunning, Realms;
    if e.ChangeDomain? {
      ShiftRealms(s.domainQueue, e.realm);
    } else {
      ShiftRealms(s.domainQueue, "");
    }
  }

  lemma AnchorsOnly(s: State, e: Event)
    requires ChannelOf(e) == Some(Anchors)
    ensures Step(s, e) == s.(db := Step(s, e).db, anchorQueue := Step(s, e).anchorQueue,
                             anchorWorker := Step(s, e).anchorWorker)
  {
    hide SetDc, CreationRunning;
  }

  lemma AnchorsFifo(s: State, e: Event)
    requires ChannelOf(e) == Some(Anchors)
    ensures Fifo(s, e, Anchors)
  {
    hide SetDc, CreationRunning, Realms;
    if e.ChangeAnchor? {
      ShiftRealms(s.anchorQueue, e.realm);
    } else {
      ShiftRealms(s.anchorQueue, "");
    }
  }

  lemma PrefixOnly(s: State, e: Event)
    requires ChannelOf(e) == None
    ensures Step(s, e) == s.(db := Step(s, e).db)
  {
    hide SetPrefix;
  }

  lemma NotAsked(s: State, e: Event, ch: Channel)
    requires ChannelOf(e) != Some(ch)
    ensures Asked(s, e, ch) == []
  {
    hide Create, Archive, Restore, RequestType, RequestPassword, ConfigureDomain, ConfigureAnchor;
  }

  lemma OthersKept(s: State, e: Event, ch: Channel)
    requires ChannelOf(e) != Some(ch)
    ensures Queue(Step(s, e), ch) == Queue(s, ch) && InHand(Step(s, e), ch) == InHand(s, ch)
  {
    hide Step, Users, Requests, Realms;
    match ChannelOf(e)
    case Some(NewUsers) => NewUsersOnly(s, e);
    case Some(ArchiveUsers) => ArchiveUsersOnly(s, e);
    case Some(RestoreUsers) => RestoreUsersOnly(s, e);
    case Some(Types) => TypesOnly(s, e);
    case Some(Passwords) => PasswordsOnly(s, e);
    case Some(Domains) => DomainsOnly(s, e);
    case Some(Anchors) => AnchorsOnly(s, e);
    case None => PrefixOnly(s, e);
  }

  /** An event leaves the other channels alone. */
  lemma OtherFifo(s: State, e: Event, ch: Channel)
    requires ChannelOf(e) != Some(ch)
    ensures Fifo(s, e, ch)
  {
    hide Step, Queue, InHand, Asked, ChannelOf;
    OthersKept(s, e, ch);
    NotAsked(s, e, ch);
    assert Queue(s, ch) + [] == [] + Queue(s, ch);
  }

  lemma StepFifo(s: State, e: Event, ch: Channel)
    ensures Fifo(s, e, ch)
  {
    hide Fifo, Step;
    if ChannelOf(e) != Some(ch) {
      OtherFifo(s, e, ch);
    } else {
      match ch
      case NewUsers => NewUsersFifo(s, e);
      case ArchiveUsers => ArchiveUsersFifo(s, e);
      case RestoreUsers => RestoreUsersFifo(s, e);
      case Types => TypesFifo(s, e);
      case Passwords => PasswordsFifo(s, e);
      case Domains => DomainsFifo(s, e);
      case Anchors => AnchorsFifo(s, e);
    }
  }

  function AllAsked(s: State, es: seq<Event>, ch: Channel): seq<Item>
    decreases |es|
  {
    if es == [] then [] else Asked(s, es[0], ch) + AllAsked(Step(s, es[0]), es[1..], ch)
  }

  function AllTaken(s: State, es: seq<Event>, ch: Channel): seq<Item>
    decreases |es|
  {
    if es == [] then [] else Took(s, Step(s, es[0]), ch) + AllTaken(Step(s, es[0]), es[1..], ch)
  }

  /** Over every run and for every queue: what was queued and what was asked for since, in
      that order, is what the worker took in hand, in that order, and what is still queued. */
  lemma {:induction false} FirstComeFirstServed(s: State, es: seq<Event>, ch: Channel)
    ensures Queue(s, ch) + AllAsked(s, es, ch) == AllTaken(s, es, ch) + Queue(Run(s, es), ch)
    decreases |es|
  {
    hide Step, Queue, Asked, Took;
    if es != [] {
      StepFifo(s, es[0], ch);
      FirstComeFirstServed(Step(s, es[0]), es[1..], ch);
      var next := Step(s, es[0]);
      calc {
        Queue(s, ch) + AllAsked(s, es, ch);
        (Queue(s, ch) + Asked(s, es[0], ch)) + AllAsked(next, es[1..], ch);
        (Took(s, next, ch) + Queue(next, ch)) + AllAsked(next, es[1..], ch);
        Took(s, next, ch) + (Queue(next, ch) + AllAsked(next, es[1..], ch));
        Took(s, next, ch) + (AllTaken(next, es[1..], ch) + Queue(Run(s, es), ch));
        AllTaken(s, es, ch) + Queue(Run(s, es), ch);
      }
    }
  }
}
