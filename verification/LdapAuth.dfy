/** Admission by group and reconciliation of a wiki user's groups with the LDAP groups. */
module LdapAuth {
  import opened Text
  import opened LdapFilter
  import opened LdapGroups

  /** The settings of the session's domain. `None` is an unset array. */
  datatype Config = Config(
    oldStyle: bool, required: Option<seq<string>>, excluded: Option<seq<string>>,
    useLdapGroups: bool, nested: bool, prevail: bool, memberOf: bool,
    fullDn: bool, retrievedUsername: bool, locallyManaged: Option<seq<string>>)

  // ----- getGroups -----

  predicate Fetches(c: Config) {
    c.required.Some? || c.useLdapGroups
  }

  function SearchKey(c: Config, userDn: string, ldapUsername: string, username: string): string {
    if c.fullDn then userDn
    else if c.retrievedUsername && ldapUsername != "" then ldapUsername
    else username
  }

  /** The user's groups after `getGroups`; `attribute` is the user's memberOf attribute. */
  function UserGroups(c: Config, d: Directory, key: string, attribute: Option<seq<string>>,
                      was: Option<Groups>): Option<Groups> {
    if !Fetches(c) then was
    else if c.memberOf then
      if attribute.Some? then Some(Groups(LowerAll(attribute.value), [])) else was
    else if c.nested then Some(SearchNested(d, SearchGroups(d, key), NO_GROUPS))
    else Some(SearchGroups(d, key))
  }

  /** The groups that are found for a key, with or without those above them. */
  function Searched(c: Config, d: Directory, key: string): Option<Groups> {
    Some(if c.nested then SearchNested(d, SearchGroups(d, key), NO_GROUPS) else SearchGroups(d, key))
  }

  /** Whether all groups of the directory are searched for. The `count` that should skip this
      for a user without groups counts the two keys of the array, so it skips it only when
      the user's groups were never set. */
  predicate SearchesAll(c: Config, userGroups: Option<Groups>) {
    Fetches(c) && c.prevail && userGroups.Some?
  }

  function AllGroups(c: Config, d: Directory, userGroups: Option<Groups>, was: Option<Groups>): Option<Groups> {
    if SearchesAll(c, userGroups) then Some(SearchGroups(d, "*")) else was
  }

  // ----- checkGroups -----

  function Dns(groups: Option<Groups>): seq<string> {
    if groups.Some? then groups.value.dn else []
  }

  function Shorts(groups: Option<Groups>): seq<string> {
    if groups.Some? then groups.value.short else []
  }

  ghost predicate InSome(dns: seq<string>, configured: seq<string>) {
    exists g | g in configured :: Lower(g) in dns
  }

  /** `hits` is the number of entries the old-style search finds. */
  ghost predicate Admits(c: Config, groups: Option<Groups>, hits: nat) {
    if c.oldStyle then hits >= 1
    else
      && (c.excluded.Some? ==> !InSome(Dns(groups), c.excluded.value))
      && (c.required.Some? ==> InSome(Dns(groups), c.required.value))
  }

  lemma LoweredAt(configured: seq<string>, g: string)
    ensures g in LowerAll(configured) <==> exists x | x in configured :: Lower(x) == g
  {
    if g in LowerAll(configured) {
      var i :| 0 <= i < |configured| && LowerAll(configured)[i] == g;
      assert configured[i] in configured;
    }
    if exists x | x in configured :: Lower(x) == g {
      var x :| x in configured && Lower(x) == g;
      var i :| 0 <= i < |configured| && configured[i] == x;
      assert LowerAll(configured)[i] == g;
    }
  }

  method LowerInPlace(groups: array<string>)
    modifies groups
    ensures groups[..] == LowerAll(old(groups[..]))
  {
    for i := 0 to groups.Length
      invariant forall j | 0 <= j < i :: groups[j] == Lower(old(groups[j]))
      invariant forall j | i <= j < groups.Length :: groups[j] == old(groups[j])
    {
      groups[i] := Lower(groups[i]);
    }
  }

  /** Whether one of the user's groups is among the configured ones. */
  method FindGroup(dns: seq<string>, configured: seq<string>) returns (found: bool)
    ensures found <==> InSome(dns, configured)
  {
    var lowered := new string[|configured|](i requires 0 <= i < |configured| => configured[i]);
    assert lowered[..] == configured;
    LowerInPlace(lowered);
    for n := 0 to |dns|
      invariant lowered[..] == LowerAll(configured)
      invariant forall j | 0 <= j < n :: dns[j] !in LowerAll(configured)
    {
      LoweredAt(configured, dns[n]);
      if dns[n] in lowered[..] {
        return true;
      }
    }
    forall g | g in configured ensures Lower(g) !in dns {
      LoweredAt(configured, Lower(g));
    }
    return false;
  }

  // ----- setGroups -----

  const DEFAULT_MANAGED := ["bot", "sysop", "bureaucrat"]

  function Managed(c: Config): seq<string> {
    if c.locallyManaged.Some? then DEFAULT_MANAGED + c.locallyManaged.value else DEFAULT_MANAGED
  }

  predicate HasLdapGroup(groups: Option<Groups>, g: string) {
    Lower(g) in Shorts(groups)
  }

  /** Groups of a wiki user: those granted one by one, and the implicit ones everybody has. */
  class WikiUser {
    var groups: set<string>
    const implicit: set<string>

    constructor (granted: set<string>, implicitly: set<string>)
      ensures groups == granted && implicit == implicitly
    {
      groups, implicit := granted, implicitly;
    }
  }

  /** The available groups: the keys of the permission table that are not implicit. */
  function Available(keys: seq<string>, implicit: set<string>): seq<string> {
    if keys == [] then []
    else Available(keys[..|keys| - 1], implicit)
         + (if keys[|keys| - 1] in implicit then [] else [keys[|keys| - 1]])
  }

  lemma {:induction false} AvailableSet(keys: seq<string>, implicit: set<string>)
    ensures forall g :: g in Available(keys, implicit) <==> g in keys && g !in implicit
  {
    if keys != [] {
      AvailableSet(keys[..|keys| - 1], implicit);
      assert keys == keys[..|keys| - 1] + [keys[|keys| - 1]];
    }
  }

  /** The permission table after the LDAP group names without a key were given one. */
  function Registered(keys: seq<string>, names: seq<string>): seq<string> {
    if names == [] then keys
    else
      var before := Registered(keys, names[..|names| - 1]);
      if names[|names| - 1] in before then before else before + [names[|names| - 1]]
  }

  lemma {:induction false} RegisteredSet(keys: seq<string>, names: seq<string>)
    ensures forall g :: g in Registered(keys, names) <==> g in keys || g in names
  {
    if names != [] {
      RegisteredSet(keys, names[..|names| - 1]);
      assert names == names[..|names| - 1] + [names[|names| - 1]];
    }
  }

  /** The user's groups when the loop has handled the groups in `done`. */
  function Synced(done: set<string>, granted: set<string>, implicit: set<string>,
                  ldap: Option<Groups>, managed: seq<string>): set<string> {
    (set g | g in granted && (g !in done || HasLdapGroup(ldap, g) || g in managed))
    + (set g | g in done && g !in granted && g !in implicit && HasLdapGroup(ldap, g))
  }

  lemma SyncedStep(done: set<string>, g: string, granted: set<string>, implicit: set<string>,
                   ldap: Option<Groups>, managed: seq<string>)
    ensures Synced(done + {g}, granted, implicit, ldap, managed)
         == var before := Synced(done, granted, implicit, ldap, managed);
            if g in granted + implicit then
              if HasLdapGroup(ldap, g) || g in managed then before else before - {g}
            else if HasLdapGroup(ldap, g) then before + {g}
            else before
  {
  }

  /** The wiki's two pieces of state that `setGroups` changes. */
  datatype Site = Site(granted: set<string>, keys: seq<string>)

  function SetGroupsResult(c: Config, s: Site, implicit: set<string>, ldap: Option<Groups>, all: Option<Groups>): Site {
    Site(Synced(Members(Available(s.keys, implicit)), s.granted, implicit, ldap, Managed(c)),
         if c.prevail then Registered(s.keys, Shorts(all)) else s.keys)
  }

  /** The plugin object. `permissions` stands for the keys of the wiki's permission table. */
  class LdapAuthentication {
    const config: Config
    const directory: Directory
    var userDn: string
    var ldapUsername: string
    var userGroups: Option<Groups>
    var allGroups: Option<Groups>
    var permissions: seq<string>

    constructor (c: Config, d: Directory, dn: string, retrieved: string, keys: seq<string>)
      ensures config == c && directory == d && userDn == dn && ldapUsername == retrieved
      ensures userGroups == None && allGroups == None && permissions == keys
    {
      config, directory, userDn, ldapUsername := c, d, dn, retrieved;
      userGroups, allGroups, permissions := None, None, keys;
    }

    method GetGroups(username: string, attribute: Option<seq<string>>)
      modifies this`userGroups, this`allGroups
      ensures (config.required.Some? || config.useLdapGroups) && !config.memberOf ==>
                userGroups == Searched(config, directory,
                                       if config.fullDn then userDn
                                       else if config.retrievedUsername && ldapUsername != "" then ldapUsername
                                       else username)
      ensures userGroups == UserGroups(config, directory, SearchKey(config, userDn, ldapUsername, username),
                                        attribute, old(userGroups))
      ensures allGroups == AllGroups(config, directory, userGroups, old(allGroups))
      ensures config.required.None? && !config.useLdapGroups ==>
                userGroups == old(userGroups) && allGroups == old(allGroups)
    {
      if Fetches(config) {
        var key := username;
        if config.fullDn {
          key := userDn;
        } else if config.retrievedUsername && ldapUsername != "" {
          key := ldapUsername;
        }
        if config.memberOf {
          if attribute.Some? {
            var dns: seq<string> := [];
            for n := 0 to |attribute.value|
              invariant dns == LowerAll(attribute.value[..n])
            {
              dns := dns + [Lower(attribute.value[n])];
            }
            assert attribute.value[..|attribute.value|] == attribute.value;
            userGroups := Some(Groups(dns, []));
          }
        } else {
          var found := CollectGroups(directory, key);
          if config.nested {
            found := SearchNestedGroups(directory, found, NO_GROUPS);
          }
          userGroups := Some(found);
        }
        if config.prevail && userGroups.Some? {
          var found := CollectGroups(directory, "*");
          allGroups := Some(found);
        }
      }
    }

    method CheckGroups(hits: nat) returns (admitted: bool)
      ensures admitted <==> Admits(config, userGroups, hits)
      ensures config.oldStyle ==> (admitted <==> hits >= 1)
      ensures !config.oldStyle && config.excluded.None? && config.required.None? ==> admitted
    {
      if config.oldStyle {
        return hits >= 1;
      }
      if config.excluded.Some? {
        var found := FindGroup(Dns(userGroups), config.excluded.value);
        if found {
          return false;
        }
      }
      if config.required.Some? {
        admitted := FindGroup(Dns(userGroups), config.required.value);
        return;
      }
      return true;
    }

    /** The group part of `authenticate`: fetch, then check. */
    method Authenticate(username: string, attribute: Option<seq<string>>, hits: nat) returns (admitted: bool)
      modifies this`userGroups, this`allGroups
      ensures userGroups == UserGroups(config, directory, SearchKey(config, userDn, ldapUsername, username),
                                        attribute, old(userGroups))
      ensures allGroups == AllGroups(config, directory, userGroups, old(allGroups))
      ensures admitted <==> Admits(config, userGroups, hits)
    {
      GetGroups(username, attribute);
      admitted := CheckGroups(hits);
    }

    method RegisterGroups(names: seq<string>)
      modifies this`permissions
      ensures permissions == Registered(old(permissions), names)
    {
      for n := 0 to |names|
        invariant permissions == Registered(old(permissions), names[..n])
      {
        assert names[..n + 1][..n] == names[..n];
        if names[n] !in permissions {
          permissions := permissions + [names[n]];
        }
      }
      assert names[..|names|] == names;
    }

    method SyncUser(user: WikiUser, available: seq<string>, effective: set<string>, managed: seq<string>)
      requires effective == user.groups + user.implicit
      modifies user
      ensures user.groups == Synced(Members(available), old(user.groups), user.implicit, userGroups, managed)
    {
      for n := 0 to |available|
        invariant user.groups == Synced(Members(available[..n]), old(user.groups), user.implicit, userGroups, managed)
      {
        var g := available[n];
        SyncedStep(Members(available[..n]), g, old(user.groups), user.implicit, userGroups, managed);
        assert Members(available[..n + 1]) == Members(available[..n]) + {g};
        if g in effective {
          if !HasLdapGroup(userGroups, g) && g !in managed {
            user.groups := user.groups - {g};
          }
        } else if HasLdapGroup(userGroups, g) {
          user.groups := user.groups + {g};
        }
      }
      assert available[..|available|] == available;
    }

    method SetGroups(user: WikiUser)
      modifies user, this`permissions
      ensures Site(user.groups, permissions)
           == SetGroupsResult(config, Site(old(user.groups), old(permissions)), user.implicit, userGroups, allGroups)
    {
      var available := Available(permissions, user.implicit);
      var effective := user.groups + user.implicit;
      if config.prevail {
        RegisterGroups(Shorts(allGroups));
      }
      SyncUser(user, available, effective, Managed(config));
    }
  }

  // ----- theorems -----

  /** Some membership path from what lists `key` leads to a configured group. */
  ghost predicate LeadsToSome(d: Directory, key: string, configured: seq<string>) {
    exists g | g in configured :: Reachable(d, Above(d, key), Lower(g))
  }

  /** With new-style checks, fetched groups and nested search, admission is decided by
      membership paths: none leads to an excluded group and, when groups are required,
      one leads to a required group. */
  lemma AdmissionByPaths(c: Config, d: Directory, key: string, attribute: Option<seq<string>>,
                         was: Option<Groups>, hits: nat)
    requires !c.oldStyle && Fetches(c) && !c.memberOf && c.nested
    ensures Admits(c, UserGroups(c, d, key, attribute, was), hits) <==>
              && (c.excluded.Some? ==> !LeadsToSome(d, key, c.excluded.value))
              && (c.required.Some? ==> LeadsToSome(d, key, c.required.value))
  {
    forall x ensures x in SearchNested(d, SearchGroups(d, key), NO_GROUPS).dn <==> Reachable(d, Above(d, key), x) {
      NestedSearchExact(d, SearchGroups(d, key), x);
    }
  }

  /** Without nested search only the groups that list the user himself count. */
  lemma AdmissionDirect(c: Config, d: Directory, key: string, attribute: Option<seq<string>>, was: Option<Groups>,
                        hits: nat)
    requires !c.oldStyle && Fetches(c) && !c.memberOf && !c.nested
    ensures Admits(c, UserGroups(c, d, key, attribute, was), hits) <==>
              && (c.excluded.Some? ==> forall g | g in c.excluded.value :: Lower(g) !in Above(d, key))
              && (c.required.Some? ==> exists g | g in c.required.value :: Lower(g) in Above(d, key))
  {
    assert forall x :: x in SearchGroups(d, key).dn <==> x in Above(d, key);
  }

  /** Excluded groups are enforced only where the groups are fetched: a new login that some
      path leads to an excluded group is refused exactly when required groups or group
      synchronisation are configured besides. */
  lemma ExcludedNeedsFetch(c: Config, d: Directory, key: string, attribute: Option<seq<string>>, hits: nat)
    requires !c.oldStyle && !c.memberOf && c.nested && c.excluded.Some? && LeadsToSome(d, key, c.excluded.value)
    ensures !Admits(c, UserGroups(c, d, key, attribute, None), hits) <==> c.required.Some? || c.useLdapGroups
  {
    if Fetches(c) {
      AdmissionByPaths(c, d, key, attribute, None, hits);
    }
  }

  /** The search for all groups is made for every user, with or without groups, unless the
      groups come from a memberOf attribute that the user lacks on a first login. */
  lemma AllSearchedExactly(c: Config, d: Directory, key: string, attribute: Option<seq<string>>, was: Option<Groups>)
    ensures SearchesAll(c, UserGroups(c, d, key, attribute, was)) <==>
            Fetches(c) && c.prevail && (c.memberOf ==> attribute.Some? || was.Some?)
  {
  }

  /** An instance: in a directory of one group of which only `member` is a member, the
      search is made for a user without groups, and finds that group. */
  lemma AllSearchedForNobody(c: Config, member: string, user: string)
    requires Fetches(c) && c.prevail && !c.memberOf
    requires Lower(Arrives(user)) != Lower(member) && user != "*"
    ensures var d := Directory([Entry("cn=staff", "staff", {member})], {}, false);
            UserGroups(c, d, user, None, None) == Some(NO_GROUPS)
            && AllGroups(c, d, Some(NO_GROUPS), None) == Some(Groups(["cn=staff"], ["staff"]))
  {
    hide Managed, Escape, Unescape, Arrives, Matches;
    var e := Entry("cn=staff", "staff", {member});
    var d := Directory([e], {}, false);
    EscapeWellFormed(user);
    OneEntry(e, "*");
    OneEntry(e, Escape(user));
    NobodyMatches(e, member, user);
    assert Lower("cn=staff") == "cn=staff" && Lower("staff") == "staff";
    assert Answer(d, "*") == [e] && Answer(d, user) == [];
    assert SearchGroups(d, user).dn == [] && SearchGroups(d, user).short == [];
    assert SearchGroups(d, "*").dn == ["cn=staff"] && SearchGroups(d, "*").short == ["staff"];
  }

  lemma NobodyMatches(e: Entry, member: string, user: string)
    requires e.members == {member} && Lower(Arrives(user)) != Lower(member)
    ensures Matches(e, "*", false) && !Matches(e, Escape(user), false)
  {
    EscapeWellFormed(user);
    assert member in e.members;
  }

  lemma OneEntry(e: Entry, value: string)
    ensures Found([e], value, false) == if Matches(e, value, false) then [e] else []
  {
    assert [e][1..] == [];
    assert Found([], value, false) == [];
  }

  /** Synchronisation as the design states it, for any order of the available groups: other
      groups are kept; an available group is held afterwards if the user has the LDAP
      group of that name, or held it before and it is locally managed. */
  lemma SyncFormula(c: Config, s: Site, implicit: set<string>, ldap: Option<Groups>, all: Option<Groups>, g: string)
    ensures g in SetGroupsResult(c, s, implicit, ldap, all).granted <==>
            if g in s.keys && g !in implicit
            then HasLdapGroup(ldap, g) || (g in s.granted && g in Managed(c))
            else g in s.granted
  {
    AvailableSet(s.keys, implicit);
  }

  /** With nested search a group is available to the user exactly when a membership path
      leads to a group of that name. */
  lemma SyncByPaths(c: Config, d: Directory, names: map<string, string>, key: string, was: Option<Groups>,
                    s: Site, implicit: set<string>, all: Option<Groups>, g: string)
    requires Fetches(c) && !c.memberOf && c.nested && NamedByDn(d, names)
    requires g in s.keys && g !in implicit
    ensures g in SetGroupsResult(c, s, implicit, UserGroups(c, d, key, None, was), all).granted <==>
            || ReachableName(d, Above(d, key), names, Lower(g))
            || (g in s.granted && g in Managed(c))
  {
    SyncFormula(c, s, implicit, UserGroups(c, d, key, None, was), all, g);
    NestedNamesExact(d, names, key, Lower(g));
  }

  /** The groups a local administrator may hand out: the configured ones and three always. */
  lemma ManagedIs(c: Config, g: string)
    ensures g in Managed(c) <==>
            g in {"bot", "sysop", "bureaucrat"} || (c.locallyManaged.Some? && g in c.locallyManaged.value)
  {
  }

  /** The DNs of memberOf are taken in their order, in lower case. */
  lemma MemberOfLowered(c: Config, d: Directory, key: string, attribute: seq<string>, was: Option<Groups>, i: nat)
    requires Fetches(c) && c.memberOf && i < |attribute|
    ensures var dns := Dns(UserGroups(c, d, key, Some(attribute), was));
            |dns| == |attribute| && dns[i] == Lower(attribute[i])
  {
  }

  /** So with memberOf a user is admitted if and only if no value of the attribute is an
      excluded group and, when groups are required, one is a required group. */
  lemma AdmissionByAttribute(c: Config, d: Directory, key: string, attribute: seq<string>,
                             was: Option<Groups>, hits: nat)
    requires !c.oldStyle && Fetches(c) && c.memberOf
    ensures Admits(c, UserGroups(c, d, key, Some(attribute), was), hits) <==>
              && (c.excluded.Some? ==> forall g, m | g in c.excluded.value && m in attribute :: Lower(g) != Lower(m))
              && (c.required.Some? ==> exists g, m | g in c.required.value && m in attribute :: Lower(g) == Lower(m))
  {
    var dns := Dns(UserGroups(c, d, key, Some(attribute), was));
    forall x ensures x in dns <==> exists m | m in attribute :: Lower(m) == x {
      if x in dns {
        var i :| 0 <= i < |dns| && dns[i] == x;
        assert attribute[i] in attribute;
      }
      if exists m | m in attribute :: Lower(m) == x {
        var m :| m in attribute && Lower(m) == x;
        var i :| 0 <= i < |attribute| && attribute[i] == m;
        assert dns[i] == x;
      }
    }
  }

  /** Groups taken from memberOf carry no names, so synchronisation then takes the user out
      of every available group that is not locally managed, and adds none. */
  lemma MemberOfHasNoNames(c: Config, d: Directory, key: string, attribute: Option<seq<string>>, was: Option<Groups>,
                           s: Site, implicit: set<string>, all: Option<Groups>, g: string)
    requires Fetches(c) && c.memberOf && attribute.Some?
    requires g in s.keys && g !in implicit
    ensures g in SetGroupsResult(c, s, implicit, UserGroups(c, d, key, attribute, was), all).granted <==>
            g in s.granted && g in Managed(c)
  {
    SyncFormula(c, s, implicit, UserGroups(c, d, key, attribute, was), all, g);
  }

  lemma SecondRunGroups(c: Config, s: Site, implicit: set<string>, ldap: Option<Groups>, all: Option<Groups>)
    ensures var once := SetGroupsResult(c, s, implicit, ldap, all);
            SetGroupsResult(c, once, implicit, ldap, all).granted == once.granted <==>
            (c.prevail ==> forall g | g in Shorts(all) && g !in s.keys && g !in implicit ::
               (g in s.granted <==> HasLdapGroup(ldap, g) || (g in s.granted && g in Managed(c))))
  {
    var once := SetGroupsResult(c, s, implicit, ldap, all);
    var twice := SetGroupsResult(c, once, implicit, ldap, all);
    RegisteredSet(s.keys, Shorts(all));
    forall g ensures g in twice.granted <==>
        if g in once.keys && g !in implicit then HasLdapGroup(ldap, g) || (g in once.granted && g in Managed(c))
        else g in once.granted {
      SyncFormula(c, once, implicit, ldap, all, g);
    }
    forall g ensures g in once.granted <==>
        if g in s.keys && g !in implicit then HasLdapGroup(ldap, g) || (g in s.granted && g in Managed(c))
        else g in s.granted {
      SyncFormula(c, s, implicit, ldap, all, g);
    }
  }

  /** The available list is read before the LDAP names are registered, so a second run can
      still change the user. It changes nothing exactly when no group registered by the
      first run is one to add or to remove. */
  lemma SecondRun(c: Config, s: Site, implicit: set<string>, ldap: Option<Groups>, all: Option<Groups>)
    ensures var once := SetGroupsResult(c, s, implicit, ldap, all);
            SetGroupsResult(c, once, implicit, ldap, all) == once <==>
            (c.prevail ==> forall g | g in Shorts(all) && g !in s.keys && g !in implicit ::
               (g in s.granted <==> HasLdapGroup(ldap, g) || (g in s.granted && g in Managed(c))))
  {
    SecondRunGroups(c, s, implicit, ldap, all);
    RegisteredSet(s.keys, Shorts(all));
    if c.prevail {
      RegisteredAgain(SetGroupsResult(c, s, implicit, ldap, all).keys, Shorts(all));
    }
  }

  /** An instance: a group held by hand under the name of a directory group the user is not
      in survives the first run, which registers the name, and is taken away by the second. */
  lemma SecondRunChanges(c: Config, keys: seq<string>, implicit: set<string>, g: string)
    requires c.prevail && g !in keys && g !in implicit && g !in Managed(c)
    ensures var all, ldap := Some(Groups(["cn=" + g], [g])), Some(NO_GROUPS);
            var once := SetGroupsResult(c, Site({g}, keys), implicit, ldap, all);
            g in once.granted && g !in SetGroupsResult(c, once, implicit, ldap, all).granted
  {
    var all, ldap := Some(Groups(["cn=" + g], [g])), Some(NO_GROUPS);
    var once := SetGroupsResult(c, Site({g}, keys), implicit, ldap, all);
    RegisteredSet(keys, [g]);
    SyncFormula(c, Site({g}, keys), implicit, ldap, all, g);
    SyncFormula(c, once, implicit, ldap, all, g);
  }

  /** The permission table lives as long as the request. At the next login it holds the
      configured keys again, and then synchronising once more changes nothing: over separate
      logins synchronisation is idempotent. */
  lemma NextLoginIsIdle(c: Config, s: Site, implicit: set<string>, ldap: Option<Groups>, all: Option<Groups>)
    ensures var once := SetGroupsResult(c, s, implicit, ldap, all);
            SetGroupsResult(c, Site(once.granted, s.keys), implicit, ldap, all) == once
  {
    var once := SetGroupsResult(c, s, implicit, ldap, all);
    var next := SetGroupsResult(c, Site(once.granted, s.keys), implicit, ldap, all);
    forall g ensures g in next.granted <==> g in once.granted {
      SyncFormula(c, s, implicit, ldap, all, g);
      SyncFormula(c, Site(once.granted, s.keys), implicit, ldap, all, g);
    }
  }

  lemma {:induction false} RegisteredAgain(keys: seq<string>, names: seq<string>)
    requires forall g | g in names :: g in keys
    ensures Registered(keys, names) == keys
  {
    if names != [] {
      RegisteredAgain(keys, names[..|names| - 1]);
    }
  }

  /** From the second run on nothing changes any more. */
  lemma ThirdRunIsIdle(c: Config, s: Site, implicit: set<string>, ldap: Option<Groups>, all: Option<Groups>)
    ensures var twice := SetGroupsResult(c, SetGroupsResult(c, s, implicit, ldap, all), implicit, ldap, all);
            SetGroupsResult(c, twice, implicit, ldap, all) == twice
  {
    var once := SetGroupsResult(c, s, implicit, ldap, all);
    var twice := SetGroupsResult(c, once, implicit, ldap, all);
    RegisteredSet(s.keys, Shorts(all));
    if c.prevail {
      RegisteredAgain(once.keys, Shorts(all));
    }
    SecondRunGroups(c, once, implicit, ldap, all);
  }
}
