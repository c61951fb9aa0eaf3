/** What becomes of a domain or system anchor configuration, and what it keeps out. */
module ConfigProtocol {
  import opened Text
  import opened UserTable
  import opened Usernames
  import opened StatusProtocol
  import opened Requests

  /** A realm in lower case that has a configuration status. */
  predicate Configured(s: State, realm: string) {
    Lower(realm) == realm && realm in s.db.orgs && realm in s.db.dc
  }

  /** The step may write the configuration status of the realm: a configuration request for it
      is accepted, or the worker for one ends. */
  predicate Configures(s: State, e: Event, realm: string) {
    || (e.ChangeDomain? && Lower(e.realm) == realm && ConfigureDomain(s, e.realm).1 == Enqueued)
    || (e.ChangeAnchor? && Lower(e.realm) == realm && ConfigureAnchor(s, e.realm).1 == Enqueued)
    || (e.DomainFinish? && s.domainWorker.Some? && Lower(s.domainWorker.value) == realm)
    || (e.AnchorFinish? && s.anchorWorker.Some? && Lower(s.anchorWorker.value) == realm)
    || (e.AnchorScript? && s.anchorWorker == Some(realm))
  }

  predicate Unconfigured(s: State, es: seq<Event>, realm: string)
    decreases |es|
  {
    es == [] || (!Configures(s, es[0], realm) && Unconfigured(Step(s, es[0]), es[1..], realm))
  }

  predicate TouchesDc(e: Event) {
    e.ChangeDomain? || e.ChangeAnchor? || e.DomainFinish? || e.AnchorFinish? || e.AnchorScript?
  }

  lemma DcUntouched(s: State, e: Event)
    requires !TouchesDc(e)
    ensures Step(s, e).db.dc == s.db.dc && Step(s, e).db.orgs == s.db.orgs
  {
    hide Find, StatusOf, CloudBusy, IsEmailOnly, CreationAccepted;
  }

  lemma StatusKept(s: State, e: Event, realm: string)
    requires Configured(s, realm) && !Configures(s, e, realm)
    ensures Configured(Step(s, e), realm) && Step(s, e).db.dc[realm] == s.db.dc[realm]
  {
    if !TouchesDc(e) {
      DcUntouched(s, e);
      hide Step;
    }
  }

  lemma {:induction false} RunKeepsStatus(s: State, es: seq<Event>, realm: string)
    requires Configured(s, realm) && Unconfigured(s, es, realm)
    ensures Configured(Run(s, es), realm) && Run(s, es).db.dc[realm] == s.db.dc[realm]
    decreases |es|
  {
    hide Step, Configures;
    if es != [] {
      StatusKept(s, es[0], realm);
      RunKeepsStatus(Step(s, es[0]), es[1..], realm);
    }
  }

  /** Every request about a user of the realm is dropped. */
  ghost predicate ShutsOut(s: State, realm: string) {
    forall e | AboutUser(e) && RealmOf(e) == realm :: ReplyTo(s, e) == Dropped
  }

  /** Every request about a user of the realm is put in the queue if it has what it needs. */
  ghost predicate LetsIn(s: State, realm: string) {
    forall e | AboutUser(e) && RealmOf(e) == realm :: ReplyTo(s, e) == Enqueued <==> Deserved(s.db, e)
  }

  /** A realm is open exactly when its configuration status is ACTIVE. */
  lemma OpenExactly(s: State, realm: string)
    requires Configured(s, realm)
    ensures if s.db.dc[realm] == Active then LetsIn(s, realm) else ShutsOut(s, realm)
  {
    hide ReplyTo, Deserved;
    forall e | AboutUser(e) && RealmOf(e) == realm
      ensures if s.db.dc[realm] == Active then ReplyTo(s, e) == Enqueued <==> Deserved(s.db, e)
              else ReplyTo(s, e) == Dropped
    {
      ReplyExactly(s, e);
    }
  }

  // ----- from request to end -----

  /** An accepted configuration request shuts the realm for every run in which no further one
      is accepted for it and no worker ends with it. */
  lemma ConfigurationShuts(s: State, e: Event, es: seq<Event>, realm: string)
    requires Configured(s, realm) && (e.ChangeDomain? || e.ChangeAnchor?) && Lower(e.realm) == realm
    requires Configures(s, e, realm) && Unconfigured(Step(s, e), es, realm)
    ensures ShutsOut(Run(Step(s, e), es), realm)
  {
    assert Configured(Step(s, e), realm) && Step(s, e).db.dc[realm] == Processing;
    RunKeepsStatus(Step(s, e), es, realm);
    OpenExactly(Run(Step(s, e), es), realm);
  }

  /** The domain worker ends with the realm: the status is ACTIVE if the domain was in use
      already or the script succeeded, PROCESSING_FAILED otherwise, and the realm is open
      exactly in the first case, over every run until it is configured again. */
  lemma DomainOutcome(s: State, inUse: bool, ok: bool, es: seq<Event>, realm: string)
    requires Configured(s, realm) && s.domainWorker.Some? && Lower(s.domainWorker.value) == realm
    requires Unconfigured(Step(s, DomainFinish(inUse, ok)), es, realm)
    ensures var t := Run(Step(s, DomainFinish(inUse, ok)), es);
            && Configured(t, realm)
            && t.db.dc[realm] == (if inUse || ok then Active else ProcessingFailed)
            && (if inUse || ok then LetsIn(t, realm) else ShutsOut(t, realm))
  {
    RunKeepsStatus(Step(s, DomainFinish(inUse, ok)), es, realm);
    OpenExactly(Run(Step(s, DomainFinish(inUse, ok)), es), realm);
  }

  /** The anchor worker ends with the realm: only a failing script of the anchor's own realm
      leaves it shut. */
  lemma AnchorOutcome(s: State, ok: bool, es: seq<Event>, realm: string)
    requires Configured(s, realm) && s.anchorWorker.Some? && Lower(s.anchorWorker.value) == realm
    requires Unconfigured(Step(s, AnchorFinish(ok)), es, realm)
    ensures var t := Run(Step(s, AnchorFinish(ok)), es);
            var failed := s.anchorWorker == Some(s.anchorDomain) && !ok;
            && Configured(t, realm)
            && t.db.dc[realm] == (if failed then ProcessingFailed else Active)
            && (if failed then ShutsOut(t, realm) else LetsIn(t, realm))
  {
    RunKeepsStatus(Step(s, AnchorFinish(ok)), es, realm);
    OpenExactly(Run(Step(s, AnchorFinish(ok)), es), realm);
  }

  /** The script itself opens the anchor's own realm before the worker ends, and no other. */
  lemma ScriptOutcome(s: State, es: seq<Event>, realm: string)
    requires Configured(s, realm) && s.anchorWorker == Some(realm)
    requires Unconfigured(Step(s, AnchorScript), es, realm)
    ensures var t := Run(Step(s, AnchorScript), es);
            && Configured(t, realm)
            && t.db.dc[realm] == (if realm == s.anchorDomain then Active else s.db.dc[realm])
  {
    RunKeepsStatus(Step(s, AnchorScript), es, realm);
  }
}
