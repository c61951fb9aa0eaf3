# A model of EnterpriseLibre's stateful code

EnterpriseLibre deploys and manages desktops and collaboration servers for organizations
("realms"). Most of it is deployment script; this project models the parts that hold state,
recursion or arithmetic and proves what they keep. `dafny verify dfyconfig.toml` checks it.

| module | part of the system |
|---|---|
| `LdapFilter`, `LdapGroups`, `LdapAuth` | the wiki's LDAP plugin: filter escaping, nested group search, admission by group, reconciliation of wiki groups |
| `UserTable`, `Usernames`, `StatusProtocol`, `Requests`, `Queues`, `ConfigProtocol`, `ProtocolSafety`, `ArchiveProtocol`, `CreationProtocol`, `TypeChange`, `Scripts`, `CreationLife`, `Service` | the RPC service: tables, request handlers, one worker per queue, and what every interleaving keeps |
| `CloudManager`, `CloudDelivery` | stored cloud manager requests and their processing worker |
| `Scrambler`, `Decimal` | the NX password scrambler and a decoder for it |
| `Base64`, `Vtiger` | the Vtiger password obfuscation and its inverse |
| `Keyring` | the rewriting of the default keyring on a password change |
| `Backoff` | the retry loops of the communication module |
| `MailAddresses` | the mail addresses of the directory |

Objects and loops are classes and methods proved against functions on values; the theorems
are about those functions. In the RPC service a state is the tables, the queues and the
program counters of the workers; a handler is one step, a worker pass is several, and a run
is any sequence of steps. The LDAP server, the database, remote commands, the network and
the clock are tables or oracles given as parameters.

## What the code does against its comments or its evident purpose

- Escaping treats the backslash after `*`, `(` and `)`, so these three are escaped twice
  (`LdapFilter.RoundTripExactly`). Where the member attribute holds plain strings such as user
  names, a name with one of them is not found (`LdapGroups.StringSearchExactly`); where it holds
  DNs the second escape is read as the character again (`LdapGroups.SearchFollowsMembership`).
- Excluded groups alone are not enforced: groups are fetched only when required groups or
  synchronisation are configured (`LdapAuth.ExcludedNeedsFetch`).
- The comment on the search for all groups says it is skipped for users without groups; the
  count is taken of an array that always has two keys, so it is made for them too
  (`LdapAuth.AllSearchedExactly`, `LdapAuth.AllSearchedForNobody`).
- Within one request a second synchronisation can change what the first one left, when that one
  registered new groups (`LdapAuth.SecondRun`, `LdapAuth.SecondRunChanges`); over separate logins
  it is idempotent (`LdapAuth.NextLoginIsIdle`).
- With memberOf, synchronisation strips groups (`LdapAuth.MemberOfHasNoNames`).
- `getCloudStatus` reads a variable that is never assigned, so only the `dc` column counts;
  exclusion is therefore claimed for `dc` only. A realm in mixed case breaks it
  (`ProtocolSafety.LowerRealmIsExact`).
- A user name with a capital letter is stored in lower case but queued as given: its user is left
  in PROCESSING by the creation worker, and stays there until a type change is accepted for it or
  its password change fails while it is e-mail-only (`CreationLife.CapitalNameParks`). Until then
  its realm, named as it is stored, cannot be configured (`CreationProtocol.BlockedForever`); under
  another spelling it can (`CreationProtocol.BlockedExactly`), and after a type change of its only
  user in PROCESSING too (`CreationProtocol.Unblocks`).
- A type change does not look at the status of the user: it makes ACTIVE whatever it finds
  (`TypeChange.ChangingRun`), and disturbs a request under way (`ArchiveProtocol.OrderlyExactly`).
- A password change that fails leaves an idle e-mail-only user in a failed status
  (`TypeChange.LooseExactly`).
- A change of the primary address can give two users one e-mail prefix
  (`ProtocolSafety.FreshPrefixIsExact`).
- The creation worker takes a user for failed that was archived or is being archived or restored
  when it looks (`CreationLife.CheckExactly`); only one found ARCHIVED is left so
  (`CreationLife.LeftFailedExactly`).
- A failing archive or restore script records a failure that the worker overwrites with ARCHIVED or
  ACTIVE, since `fail` in this file does not stop execution.
- The scripts do not keep a completed cloud manager request from being stored and executed again
  (`CloudManager.StoringIsSafeExactly`); the database schema is not part of this model.
- A completed or unknown cloud manager hash ends the processing worker (`CloudManager.SurvivesExactly`);
  the last of its 21 polls is ignored (`CloudManager.WaitForCapabilities`).
- The handler that is to pass over a failed deletion in the directory uses a module that is not
  imported (`MailAddresses.EseriDirectory.DelEntry`).

## Model

| member | source | states |
|---|---|---|
| `LdapFilter.FivePassesAreOne` | c4/storage/Web_Create/archive/Wiki/LdapAuthentication.php:1651-1658 | on every string the five successive replacements equal one pass with a fixed image per character; `*`, `(`, `)` come out as `\5c2a`, `\5c28`, `\5c29` |
| `LdapFilter.EscapeWellFormed` | c4/storage/Web_Create/archive/Wiki/LdapAuthentication.php:1651-1658 | every escaped string is a well-formed assertion value of section 4 of RFC 2254, and the server reads it as the input with those three characters still escaped once |
| `LdapFilter.RoundTripExactly` | c4/storage/Web_Create/archive/Wiki/LdapAuthentication.php:1651-1658 | the server reads back what was meant if and only if the input holds none of `*`, `(`, `)` |
| `LdapGroups.CollectGroups` | c4/storage/Web_Create/archive/Wiki/LdapAuthentication.php:1395-1452 | the loop over the returned entries yields, in the server's order, the lowered DNs and names of the matching entries, and nothing on a failed search |
| `LdapGroups.SearchFollowsMembership` | c4/storage/Web_Create/archive/Wiki/LdapAuthentication.php:1395-1452 | one search returns exactly the groups that list a value the server takes for what it reads from the filter; where the member attribute holds DNs that is true membership for every well-formed DN, since a doubly escaped character is a pair of RFC 2253 for that character; where it holds plain strings, for every string without `*`, `(`, `)` |
| `LdapGroups.ArrivesAsDn` | c4/storage/Web_Create/archive/Wiki/LdapAuthentication.php:1651-1658 | read as a DN by sections 2.4 and 3 of RFC 2253, what arrives at the server is the DN that was escaped |
| `LdapGroups.StringSearchExactly` | c4/storage/Web_Create/archive/Wiki/LdapAuthentication.php:1395-1452 | with plain strings the condition is exact: over all directories a search follows membership if and only if the string holds none of the three characters |
| `LdapGroups.AllFound` | c4/storage/Web_Create/archive/Wiki/LdapAuthentication.php:1395-1452 | the search for `*` finds exactly the groups that have a member at all |
| `LdapGroups.FailedSearch` | c4/storage/Web_Create/archive/Wiki/LdapAuthentication.php:1395-1452 | a search that fails finds nothing |
| `LdapGroups.AddNew` | c4/storage/Web_Create/archive/Wiki/LdapAuthentication.php:1360-1379 | either inner loop appends, in order, exactly the returned values not searched before the current level |
| `LdapGroups.SearchNestedGroups` | c4/storage/Web_Create/archive/Wiki/LdapAuthentication.php:1345-1386 | the program with its two nested loops refines the level-by-level function the theorems are about, and terminates on every directory |
| `LdapGroups.LevelsShrink` | c4/storage/Web_Create/archive/Wiki/LdapAuthentication.php:1349-1385 | the termination argument: from one level to the next the number of unsearched DNs drops, or it stays and the level goes from stale to new or empty, on cyclic graphs too |
| `LdapGroups.NestedSearchExact` | c4/storage/Web_Create/archive/Wiki/LdapAuthentication.php:1345-1386 | a DN is in the result if and only if some membership path leads to it from a starting group; no bound on depth, no assumption on cycles |
| `LdapGroups.NoNameLost` | c4/storage/Web_Create/archive/Wiki/LdapAuthentication.php:1349-1382 | if the DN determines the name, every level keeps: searched DNs have their names recorded, pending names belong to pending DNs |
| `LdapGroups.NestedNamesExact` | c4/storage/Web_Create/archive/Wiki/LdapAuthentication.php:1345-1386 | the short list holds a name if and only if it names a reachable group, although the base case drops the pending names |
| `LdapGroups.NeverAgain` | c4/storage/Web_Create/archive/Wiki/LdapAuthentication.php:1357-1382 | a DN already searched and not in the current level is in no later level |
| `LdapGroups.VisitedInNeighboursOnly` | c4/storage/Web_Create/archive/Wiki/LdapAuthentication.php:1349-1385 | a DN that occurs in two levels occurs in two consecutive ones, so no group is visited three times |
| `LdapGroups.DeepestFirst` | c4/storage/Web_Create/archive/Wiki/LdapAuthentication.php:1382-1385 | the DN list of the result is the levels one by one, the deepest first, in front of what was searched before |
| `LdapAuth.LowerInPlace` | c4/storage/Web_Create/archive/Wiki/LdapAuthentication.php:1229-1231 | the array of configured groups is lowered element by element in place |
| `LdapAuth.FindGroup` | c4/storage/Web_Create/archive/Wiki/LdapAuthentication.php:1227-1241 | the check finds a group if and only if some configured group, lowered, is among the user's DNs |
| `LdapAuth.LdapAuthentication.GetGroups` | c4/storage/Web_Create/archive/Wiki/LdapAuthentication.php:1275-1333 | without required groups and synchronisation nothing is fetched; else the groups found for the user's DN, the retrieved name or the given name, whichever the settings say, or the memberOf values |
| `LdapAuth.AllSearchedExactly` | c4/storage/Web_Create/archive/Wiki/LdapAuthentication.php:1327-1331 | all groups are searched for if and only if groups are fetched and prevail, and not memberOf is used for a user that lacks the attribute and never had groups set: whether the user has groups plays no part |
| `LdapAuth.AllSearchedForNobody` | c4/storage/Web_Create/archive/Wiki/LdapAuthentication.php:1327-1331 | an instance: a user without groups for whom the search is made and finds a group |
| `LdapAuth.LdapAuthentication.CheckGroups` | c4/storage/Web_Create/archive/Wiki/LdapAuthentication.php:1209-1268 | admission is decided by at least one old-style hit, or by exclusion first and requirement second; with neither everybody is admitted |
| `LdapAuth.LdapAuthentication.Authenticate` | c4/storage/Web_Create/archive/Wiki/LdapAuthentication.php:344-350 | fetching and checking together; which fields may change |
| `LdapAuth.AdmissionByPaths` | c4/storage/Web_Create/archive/Wiki/LdapAuthentication.php:1226-1325 | with new-style, fetched, nested groups a user is admitted if and only if no membership path leads to an excluded group and, when groups are required, one leads to a required group |
| `LdapAuth.AdmissionDirect` | c4/storage/Web_Create/archive/Wiki/LdapAuthentication.php:1226-1320 | without nested search a user is admitted if and only if no group listing the user himself is excluded and, when groups are required, one is required |
| `LdapAuth.AdmissionByAttribute` | c4/storage/Web_Create/archive/Wiki/LdapAuthentication.php:1301-1316 | with memberOf, if and only if no value of the attribute is an excluded group, case aside, and, when groups are required, one is a required group |
| `LdapAuth.ExcludedNeedsFetch` | c4/storage/Web_Create/archive/Wiki/LdapAuthentication.php:1226-1285 | a login that some path leads to an excluded group is refused if and only if required groups or group synchronisation are configured as well: an excluded list alone is not enforced |
| `LdapAuth.LdapAuthentication.RegisterGroups` | c4/storage/Web_Create/archive/Wiki/LdapAuthentication.php:1513-1518 | every LDAP name becomes a key of the permission table once, in order |
| `LdapAuth.LdapAuthentication.SyncUser` | c4/storage/Web_Create/archive/Wiki/LdapAuthentication.php:1523-1542 | the loop over the available groups leaves the user with the set the closed form states |
| `LdapAuth.LdapAuthentication.SetGroups` | c4/storage/Web_Create/archive/Wiki/LdapAuthentication.php:1488-1543 | the groups of the user and the keys of the permission table after one synchronisation |
| `LdapAuth.SyncFormula` | c4/storage/Web_Create/archive/Wiki/LdapAuthentication.php:1497-1542 | for any order of the available groups: other groups are kept; an available one is held if it is an LDAP group of the user, or was held and is locally managed |
| `LdapAuth.ManagedIs` | c4/storage/Web_Create/archive/Wiki/LdapAuthentication.php:1500-1509 | locally managed are `bot`, `sysop`, `bureaucrat` and the configured groups, and no others |
| `LdapAuth.SyncByPaths` | c4/storage/Web_Create/archive/Wiki/LdapAuthentication.php:1462-1542 | with nested search an available group is held if and only if a membership path leads to a group of that name, or it was held and is locally managed |
| `LdapAuth.MemberOfHasNoNames` | c4/storage/Web_Create/archive/Wiki/LdapAuthentication.php:1301-1316 | with memberOf the name list is empty, so synchronisation keeps of the available groups exactly the locally managed ones held before |
| `LdapAuth.MemberOfLowered` | c4/storage/Web_Create/archive/Wiki/LdapAuthentication.php:1307-1315 | the memberOf values are taken in their order, in lower case |
| `LdapAuth.SecondRun` | c4/storage/Web_Create/archive/Wiki/LdapAuthentication.php:1497-1542 | within one request a second synchronisation changes neither user nor permission table if and only if no group registered by the first is one to add or to remove, because the available list is read before the names are registered |
| `LdapAuth.SecondRunChanges` | c4/storage/Web_Create/archive/Wiki/LdapAuthentication.php:1497-1542 | an instance for every fitting configuration and group name: a group held by hand under the name of a directory group survives the first run of a request and is taken away by the second |
| `LdapAuth.NextLoginIsIdle` | c4/storage/Web_Create/archive/Wiki/LdapAuthentication.php:1497-1542 | over separate logins, each starting from the configured permission table, synchronisation is idempotent: the second login changes neither the user nor the resulting table |
| `LdapAuth.ThirdRunIsIdle` | c4/storage/Web_Create/archive/Wiki/LdapAuthentication.php:1497-1542 | within one request, from the second run on, user and permission table are a fixed point |
| `Usernames.MakeUsername` | c3/bin/xml_rpc_service.pl:318-360 | the loop over `$counter` and `$temp` returns the base if free, else the first free candidate, and terminates after at most 98 suffixes |
| `Usernames.PooledKeeps` | c3/bin/xml_rpc_service.pl:318-331 | of a prefix the characters of its two parts are kept, in order |
| `Usernames.PooledOne` | c3/bin/xml_rpc_service.pl:320-331 | of one character exactly `a` to `z` and `0` to `9` are kept |
| `Usernames.BaseIs` | c3/bin/xml_rpc_service.pl:333-334 | the base is what is kept, cut after 32 characters |
| `Usernames.CandidateIs` | c3/bin/xml_rpc_service.pl:344-357 | a candidate is the base with the decimal number behind it; the base loses as many characters as the number has digits, and only if it has more than 30 |
| `Usernames.MadeNameIsGood` | c3/bin/xml_rpc_service.pl:318-360 | a made name is free, has at most 32 characters, all of them `a`-`z` or `0`-`9`, and is its own lower case |
| `Usernames.GivesUpExactly` | c3/bin/xml_rpc_service.pl:334-358 | the result is empty if and only if the filtered prefix is empty and free, or the base and all 98 candidates are taken |
| `Usernames.MadeNameExact` | c3/bin/xml_rpc_service.pl:343-358 | otherwise it is the base, or the candidate with the least free suffix when the base is taken |
| `ProtocolSafety.RunExclusive` | c3/bin/xml_rpc_service.pl:2199-2205 | over every run and interleaving no realm has both a user being created and a domain configuration in PROCESSING, if configuration requests name realms in lower case |
| `ProtocolSafety.RunUniqueNames` | c3/bin/xml_rpc_service.pl:1954-1988 | over every run no organization has two users with the same name, if network names are stored in lower case |
| `ProtocolSafety.LowerRealmIsExact` | c3/bin/xml_rpc_service.pl:1353-1362 | that condition is exact: a realm's configuration request is safe in every exclusive state if and only if the realm is in lower case, because the guard reads the realm as given and the update lowers it |
| `ProtocolSafety.RunUnique` | c3/bin/xml_rpc_service.pl:1944-2001 | over every run no organization has two users with the same e-mail prefix either, if besides no change of a primary address writes a prefix another user holds |
| `ProtocolSafety.FreshPrefixIsExact` | c4/bin/userprimaryemail_config.pl:105-117 | that condition is exact for every step: the script that writes a new prefix tests nothing |
| `ProtocolSafety.LowerOrgsIsExact` | c3/bin/xml_rpc_service.pl:1954-1988 | the condition on network names is exact: every step with a fresh prefix from every duplicate-free table over the given organizations keeps it duplicate-free if and only if all their names are in lower case |
| `ProtocolSafety.DuplicateUnderUpperOrg` | c3/bin/xml_rpc_service.pl:1954-1988 | the duplicate that an upper-case network name lets through, step by step |
| `Requests.CreateReply` | c3/bin/xml_rpc_service.pl:1944-2001 | a creation is put in the queue if and only if the realm is open, no user of the lowered realm has the lowered prefix, the prefix has only the listed characters, a free name is given or can be made, and the insert succeeds |
| `Requests.CreateEffect` | c3/bin/xml_rpc_service.pl:1988-2017 | it then adds one row in PROCESSING, in lower case but for the realm, and one queue entry with the name as given; otherwise it changes nothing |
| `Requests.ArchiveReply` | c3/bin/xml_rpc_service.pl:2060-2091 | dropped if and only if the realm is not open, put in the queue if and only if besides the first row of the user is ACTIVE |
| `Requests.RestoreReply` | c3/bin/xml_rpc_service.pl:2093-2123 | the same with ARCHIVED |
| `Requests.ChangeReplies` | c3/bin/xml_rpc_service.pl:2024-2043 | type and password requests are refused for a realm that is not open only |
| `Requests.ConfigureReplies` | c3/bin/xml_rpc_service.pl:2199-2203 | configuration requests are refused if and only if a user of the realm, as spelt, is in PROCESSING |
| `Queues.FirstComeFirstServed` | c3/bin/xml_rpc_service.pl:2060-2123 | over every run and for each of the seven queues: what was queued and what was accepted since, in that order, is what the worker took in hand, in that order, and what is still queued |
| `ConfigProtocol.OpenExactly` | c3/bin/xml_rpc_service.pl:626-643 | with a configuration status of ACTIVE every request about a user gets the answer it deserves by the rows, with any other status every one is dropped |
| `ConfigProtocol.ConfigurationShuts` | c3/bin/xml_rpc_service.pl:2187-2222 | an accepted configuration request shuts the realm over every run in which no further one is accepted for it and no worker ends with it |
| `ConfigProtocol.DomainOutcome` | c3/bin/xml_rpc_service.pl:1329-1340 | once the domain worker ends with a realm its status is ACTIVE if the domain was in use or the script succeeded, else PROCESSING_FAILED, and the realm is open exactly in the first case, over every run until it is configured again |
| `ConfigProtocol.AnchorOutcome` | c3/bin/xml_rpc_service.pl:1922-1941 | the same for the anchor worker: only a failing script of the anchor's own realm leaves it shut |
| `ConfigProtocol.ScriptOutcome` | c4/bin/systemanchor_config.pl:321-330 | the script's own write opens the anchor's own realm before the worker ends, and no other |
| `ArchiveProtocol.StepOrderly` | c3/bin/xml_rpc_service.pl:888-950 | every step of every handler and worker that does not interfere with the user keeps: at most one request for it under way, the status says where it is, accepted and completed requests balance, and the operation completed is the one due |
| `ArchiveProtocol.OrderlyExactly` | c3/bin/xml_rpc_service.pl:2425-2460 | and only those: an accepted type change of the user, or its password change failing while it is e-mail-only (unless a worker is about to end), always makes it disorderly |
| `ArchiveProtocol.RunOrderly` | c3/bin/xml_rpc_service.pl:2060-2123 | over every interleaving without such interference: accepted requests are completed exactly once or still under way (conservation), and completed operations alternate |
| `ArchiveProtocol.IdleStatus` | c3/bin/xml_rpc_service.pl:888-950 | over such a run, when queues and workers are idle the user is ACTIVE or ARCHIVED, and the parity of the accepted requests says which |
| `CreationProtocol.RunParked` | c3/bin/xml_rpc_service.pl:2060-2123 | a settled user with nothing under way and a status other than ACTIVE or ARCHIVED keeps it over every run that does not interfere with it |
| `CreationProtocol.StuckExactly` | c3/bin/xml_rpc_service.pl:2425-2447 | exactly those: parked in PROCESSING or PROCESSING_FAILED, the user keeps the status in every state of a run if and only if the run accepts no type change for it and no password change of it fails while it is e-mail-only |
| `CreationProtocol.StepHeld` | c3/bin/xml_rpc_service.pl:888-950 | the status of a settled user that is neither ACTIVE nor ARCHIVED is changed by no step but interference and those of an archive or restore worker that has this user in hand |
| `CreationProtocol.BlockedForever` | c3/bin/xml_rpc_service.pl:2187-2222 | while a user is parked in PROCESSING, over every run that does not interfere with it, every request that names the realm as it is stored is dropped |
| `CreationProtocol.BlockedExactly` | c3/bin/xml_rpc_service.pl:2199-2205 | over such a run, of all spellings of that realm exactly the stored one is dropped; another one is enqueued and sets the `dc` status of the realm to PROCESSING, since the guard reads the realm as given and the update lowers it |
| `CreationProtocol.Unblocks` | c3/bin/xml_rpc_service.pl:2425-2447 | if the user is the realm's only one in PROCESSING, a configuration request is dropped right before an accepted type change of it and put in the queue right after |
| `CreationProtocol.WorkerFindsRow` | c3/bin/xml_rpc_service.pl:742 | for every creation, whatever is queued: the lookup by the queued key finds the inserted row if and only if the name is in lower case, since the queue holds the name as given and the row its lower case |
| `CreationLife.WorkerFindsRowLater` | c3/bin/xml_rpc_service.pl:742 | so it is over every run up to the moment the worker looks: it finds the inserted row, or with a capital letter in the name none at all |
| `CreationProtocol.RunLowerNames` | c3/bin/xml_rpc_service.pl:1980-1988 | stored user names stay in lower case over every run |
| `CreationProtocol.CreationOutcome` | c3/bin/xml_rpc_service.pl:731-760 | an instance with nothing else under way: the status after one creation run to its end, for every outcome of the desktop script |
| `CreationLife.CapitalNameParks` | c3/bin/xml_rpc_service.pl:1954-2017 | a user created under a name with a capital letter, with no type change queued under its stored name, stays in PROCESSING over a run if and only if the run accepts no type change for it and no password change of it fails while it is e-mail-only |
| `TypeChange.ChangeStarts` | c3/bin/xml_rpc_service.pl:2425-2460 | a type change of a user with nothing else under way takes it out of whatever status it has |
| `TypeChange.ChangingRun` | c3/bin/xml_rpc_service.pl:1766-1808 | over every run that does not interfere again, the user is orderly once the change is over, whatever its status was before: also a parked one, and an ARCHIVED one without a restore request |
| `TypeChange.RunLoose` | c3/bin/xml_rpc_service.pl:1766-2460 | over every run from an ACTIVE or ARCHIVED user on, however archive, restore and type change requests for it overlap: once none is pending it is ACTIVE or ARCHIVED again, unless a password change of it failed as e-mail-only with none pending |
| `TypeChange.LooseExactly` | c3/bin/xml_rpc_service.pl:952-1040 | that exception is exact for every step |
| `Scripts.TypeKept` | c3/bin/xml_rpc_service.pl:1792-1798 | no step of any handler or worker changes the type of a user but the one by which the type worker records it |
| `Scripts.TypeRecorded` | c3/bin/xml_rpc_service.pl:1792-1798 | and that step makes the user e-mail-only if and only if that was asked for |
| `Scripts.TypeChangeRecords` | c3/bin/xml_rpc_service.pl:2425-2460 | from an accepted type change of a settled user with nothing under way, over every run that does not interfere again: once it is over the user has the type that was asked for |
| `Scripts.TypeScript` | c3/bin/xml_rpc_service.pl:1781-1788 | a change to full runs the restore script and one to e-mail-only the archive script; which one failed is recorded |
| `Scripts.ArchiveScript` | c3/bin/xml_rpc_service.pl:900-909 | whatever happens until its script has run, the archive worker goes by the type at the time of dequeue: a failing script of a full user is recorded, nothing else is |
| `Scripts.RestoreScript` | c3/bin/xml_rpc_service.pl:932-941 | the same for the restore worker |
| `Scripts.PasswordRestoreScript` | c3/bin/xml_rpc_service.pl:952-1018 | the password worker does the opposite: the restore script before the change counts only for an e-mail-only user |
| `Scripts.PasswordArchiveScript` | c3/bin/xml_rpc_service.pl:1021-1024 | and so does the archive script after it, with the type at the time of dequeue |
| `Scripts.DesktopScript` | c3/bin/xml_rpc_service.pl:751 | the desktop script leaves ACTIVE, PROCESSING_FAILED or the status it found |
| `CreationLife.StartIsTracked` | c3/bin/xml_rpc_service.pl:725-742 | a service that has just started satisfies the run invariants, and every ACTIVE or ARCHIVED user in it is orderly |
| `CreationLife.RunTracked` | c3/bin/xml_rpc_service.pl:725-760 | over every run every key in a queue or worker has its row, the creation worker holds the row of its own user, and no user is being created twice |
| `CreationLife.LifeFromStart` | c3/bin/xml_rpc_service.pl:725-760 | from the start of the service over every run that changes the user's type only while nothing else is under way for it: a user created under a lower-case name is queued, worked on or checked with the status of that stage, or orderly, changing type, parked in PROCESSING_FAILED, or failed with one request under way; no other state occurs |
| `CreationLife.EverFromStart` | c3/bin/xml_rpc_service.pl:725-2460 | from the start over every run, for a user created under a lower-case name, however its creation and its archive, restore and type change requests overlap: once none is pending it is ACTIVE, ARCHIVED or PROCESSING_FAILED, with the same exception |
| `CreationLife.CheckStep` | c3/bin/xml_rpc_service.pl:752-757 | the worker's last step: a user found ACTIVE is orderly from then on; any other is written PROCESSING_FAILED, and parked if nothing is under way |
| `CreationLife.CheckExactly` | c3/bin/xml_rpc_service.pl:751-757 | once the script has made the user ACTIVE, over every run up to the check that does not interfere with it: the creation is taken for a success if and only if no request for the user is under way and an even number was accepted; otherwise PROCESSING_FAILED is written |
| `CreationLife.OvertakenRun` | c3/bin/xml_rpc_service.pl:888-950 | written PROCESSING_FAILED with a request under way, over every such run the user is orderly from the moment the request completes, if not before |
| `CreationLife.LeftFailedExactly` | c3/bin/xml_rpc_service.pl:751-950 | over such a run, once queues and archive workers are idle again, the user is left in PROCESSING_FAILED if and only if at the check nothing was under way and an odd number of requests had been accepted; otherwise it is ACTIVE or ARCHIVED |
| `CreationProtocol.CreationRace` | c3/bin/personalize_desktop.pl:961-966 | an instance of CreationLife.CheckExactly: archived between script and check, the user ends parked in PROCESSING_FAILED although all succeeded |
| `Service.RpcService.GetUserStatus` | c3/bin/xml_rpc_service.pl:610-624 | the pass over the rows reports processing if and only if some user of the realm is in PROCESSING |
| `Service.StepSound` | c3/bin/xml_rpc_service.pl:1944-2021 | every step keeps exclusion, uniqueness and the row of every queued key together, if configuration requests name realms in lower case and prefixes written are fresh |
| `Service.RpcService.CreateNewUser` | c3/bin/xml_rpc_service.pl:1944-2021 | the handler with its refusals, the insert and the enqueue is the atomic creation step; it keeps a sound state sound, and an accepted user is at once waiting for creation or, with a capital letter, parked |
| `Service.RpcService.ArchiveUser` | c3/bin/xml_rpc_service.pl:2060-2091 | the handler is the atomic archive step; an accepted user goes from ACTIVE to ARCHIVING, and every orderly user stays orderly |
| `Service.RpcService.RestoreUser` | c3/bin/xml_rpc_service.pl:2093-2123 | the handler is the atomic restore step; an accepted user goes from ARCHIVED to ACTIVATING, and every orderly user stays orderly |
| `Service.RpcService.ChangeUserType` | c3/bin/xml_rpc_service.pl:2425-2460 | the handler is the atomic type change step, taken whatever the status; a settled user with nothing under way is changing type from then on |
| `Service.RpcService.ChangeUserPassword` | c3/bin/xml_rpc_service.pl:2024-2043 | the handler is the atomic password request; it keeps a sound state sound |
| `Service.RpcService.ChangeDomainConfig` | c3/bin/xml_rpc_service.pl:2187-2222 | the handler is the atomic domain configuration step; it is dropped if and only if a user of the realm is in PROCESSING, and keeps a sound state sound if the realm is in lower case |
| `Service.RpcService.ChangeSystemAnchorConfig` | c3/bin/xml_rpc_service.pl:2559-2592 | the handler is the atomic system anchor step, with the same refusal and the same guarantee |
| `Service.RpcService.StepNewUsers` | c3/bin/xml_rpc_service.pl:725-760 | one pass of the creation worker is its three steps, each of which keeps a sound state sound |
| `Service.RpcService.StepArchiveUsers` | c3/bin/xml_rpc_service.pl:888-918 | the archive worker's three steps, keeping a sound state sound; ARCHIVED is recorded even after a failed script |
| `Service.RpcService.StepRestoreUsers` | c3/bin/xml_rpc_service.pl:920-950 | the restore worker's three steps, keeping a sound state sound; ACTIVE is recorded even after a failed script |
| `Service.RpcService.StepChangeUserType` | c3/bin/xml_rpc_service.pl:1766-1808 | the type worker's four steps, of which `Scripts.TypeChangeRecords` says what they record; a sound state stays sound |
| `Service.RpcService.StepChangeUserPasswords` | c3/bin/xml_rpc_service.pl:952-1027 | what the password worker does to the status: the scripts of an e-mail-only user record their failures; a sound state stays sound |
| `Service.RpcService.WritePrefix` | c4/bin/userprimaryemail_config.pl:105-117 | the script's write of a new e-mail prefix; a sound state stays sound if no other user holds it |
| `Service.RpcService.StepDomainConfig` | c3/bin/xml_rpc_service.pl:1252-1351 | the domain worker's steps, whose outcome `ConfigProtocol.DomainOutcome` states; a sound state stays sound |
| `Service.RpcService.StepSystemAnchorConfig` | c3/bin/xml_rpc_service.pl:1906-1942 | the anchor worker's steps, the script's own status write included, whose outcome `ConfigProtocol.AnchorOutcome` and `ConfigProtocol.ScriptOutcome` state; a sound state stays sound |
| `CloudManager.AtMostOnce` | c3/bin/xml_rpc_service.pl:1425-1529 | over every run in which nothing is stored under a completed hash, however often hashes are stored before or queued and wherever the message loop gives up: no message number of a hash is sent twice, and they are sent in order |
| `CloudManager.UniqueIsGuarded` | c3/bin/xml_rpc_service.pl:1396-1422 | in particular every run that hands in each hash once per realm is such a run |
| `CloudManager.StoringIsSafeExactly` | c3/bin/xml_rpc_service.pl:1402-1451 | storing a request under a hash leaves every later run without a repeated message if and only if the hash is not completed, for a request that holds a message already sent if it is |
| `CloudManager.FreshStart` | c3/bin/xml_rpc_service.pl:1425-1437 | a service that has sent nothing, with the rows of one hash completed together, satisfies the invariant the run theorem starts from |
| `CloudManager.DuplicateHashRunsTwice` | c3/bin/xml_rpc_service.pl:1396-1422 | an instance of that: handed in again after its execution, a request is executed again |
| `CloudManager.SurvivesExactly` | c3/bin/xml_rpc_service.pl:1434-1454 | the worker outlives a dequeued hash if and only if it is stored and not completed; `last` leaves the worker's own loop |
| `CloudManager.StoppedForGood` | c3/bin/xml_rpc_service.pl:1448-1451 | a stopped worker sends nothing over any later run |
| `CloudManager.ExecutionSends` | c3/bin/xml_rpc_service.pl:1459-1526 | one execution sends the known messages once, in order, up to the first capability change given up on, and always ends in the completion mark |
| `CloudDelivery.CompletedIsExecuted` | c3/bin/xml_rpc_service.pl:1448-1526 | over every guarded run: a hash is completed only after one of its requests was executed, with all its known messages or those up to a capability change in what was sent, once; and nothing is sent for a hash before it is taken in hand |
| `CloudDelivery.ServesOne` | c3/bin/xml_rpc_service.pl:1434-1526 | serving one request sends its plan, marks exactly the rows of its hash and leaves every other request as it is |
| `CloudDelivery.QueueIsServed` | c3/bin/xml_rpc_service.pl:1431-1528 | a queue of distinct stored hashes that are not completed is served to its end: their plans are sent in the order of the queue, exactly they are marked completed, and the worker waits again |
| `CloudDelivery.StoresFirst` | c3/bin/xml_rpc_service.pl:1405-1420 | what is stored, under which realm, and that it is the request that was handed in first |
| `CloudDelivery.LooksUpLower` | c3/bin/xml_rpc_service.pl:1434-1451 | the hash first in the queue is looked up under its realm in lower case, whatever its spelling |
| `CloudDelivery.InsertsInOrder` | c3/bin/xml_rpc_service.pl:2249-2266 | over every run the requests to be stored are kept in the order they were handed in |
| `CloudDelivery.HashesInOrder` | c3/bin/xml_rpc_service.pl:2268-2281 | and so are the hashes to be processed |
| `CloudManager.WaitForCapabilities` | c3/bin/xml_rpc_service.pl:1479-1490 | the wait has run out if and only if the first 20 polls all saw PROCESSING; a 21st poll is made and its answer ignored |
| `CloudManager.RequestService.StepInsert` | c3/bin/xml_rpc_service.pl:1402-1422 | one pass of the insert worker; an unknown realm stores nothing; the invariant is kept if the hash is not completed |
| `CloudManager.RequestService.StepProcess` | c3/bin/xml_rpc_service.pl:1431-1528 | one step of the processing worker is the step the run theorems are about, of which those on delivery say what is sent and marked, and keeps their invariant |
| `Scrambler.CharsAscend` | c3/bin/scramble_password.pl:19-35 | the 85 characters are in ascending order, hence distinct |
| `Scrambler.TableIs` | c3/bin/scramble_password.pl:22-34 | which character stands at which place, by ranges of codes |
| `Scrambler.FindCharInList` | c3/bin/scramble_password.pl:61-78 | the linear search returns the place of the character, or -1 |
| `Scrambler.SubstrReplace` | c3/bin/scramble_password.pl:159-182 | the rebuilt string differs from the old one at the given position only |
| `Scrambler.EncodePassword` | c3/bin/scramble_password.pl:37-59 | the growing string is the colon-separated decimal codes plus positions |
| `Scrambler.ShiftInPlace` | c3/bin/scramble_password.pl:123-137 | the in-place loop equals the pointwise shift modulo 85 of the string it started from, and its early return is never taken |
| `Scrambler.ScrambleString` | c3/bin/scramble_password.pl:90-146 | the program with its paddings, reversal and loop computes the scrambled string that `ScrambledAt` describes, for any two clock readings |
| `Scrambler.ScrambledAt` | c3/bin/scramble_password.pl:118-142 | every character of the output: the two ends are given, one at place `i` between them is the padded text's, moved in the table by the code of the first plus the text's length less two, times `i` plus two, modulo 85 |
| `Scrambler.PaddedAt` | c3/bin/scramble_password.pl:100-116 | every character of the padded text: four dummies, the encoded password backwards, four dummies, each four only below 32 and 28 characters |
| `Scrambler.ClosingIs` | c3/bin/scramble_password.pl:139-142 | the last character is two codes above the one of the second clock reading |
| `Scrambler.ScrambledLength` | c3/bin/scramble_password.pl:100-143 | length is the encoded length plus 2, plus 8, 4 or 0 for an encoded length below 28, of 28 to 31, of 32 or more |
| `Scrambler.RoundTrip` | c3/bin/scramble_password.pl:90-146 | a decoder written on its own, with its own table and amounts, and not told the clock readings, recovers every password |
| `Scrambler.Injective` | c3/bin/scramble_password.pl:90-146 | two passwords with the same scrambled string are the same, whatever the clock |
| `Base64.DecodeEncode` | c3/bin/vtiger_obfuscate.pl:1 | decoding inverts the base64 encoding of section 4 of RFC 4648, padding included |
| `Vtiger.RoundTrip` | c3/bin/vtiger_obfuscate.pl:1 | the obfuscation of every byte string can be undone |
| `Vtiger.Shape` | c3/bin/vtiger_obfuscate.pl:1 | the output has four characters for every three of the 8n bit codes, all of them letters, digits, `-`, `_` or `.` |
| `Keyring.CutShrinks` | c3/bin/change_user_password.pl:169-184 | one round of the loop removes a header line, so the loop ends |
| `Keyring.KeyringFile.RemoveBlocks` | c3/bin/change_user_password.pl:169-184 | on every file the loop ends in the purged file; it finishes if and only if no `[0]` is left, and always if every `[0]` line is the header with nothing but blanks behind it |
| `Keyring.KeyringFile.ChangePassword` | c3/bin/change_user_password.pl:92-185 | on every file: the rewritten, purged and extended keyring if the loop finishes, else the rewritten file the loop stopped at |
| `Keyring.PurgeLeavesBase` | c3/bin/change_user_password.pl:169-184 | for any number of 26-line blocks with their blank lines the loop leaves exactly the rest of the file, without its trailing blank lines |
| `Keyring.BlockIsBlock` | c3/bin/change_user_password.pl:185 | the appended text is a 26-line block with one header, if account and password do not contain `[0]` |
| `Keyring.ChangeOnce` | c3/bin/change_user_password.pl:92-185 | one change on any keyring of that shape |
| `Keyring.ShapeFinishes` | c3/bin/change_user_password.pl:166-185 | on every keyring of that shape the loop finishes |
| `Keyring.NewestBlockOnly` | c3/bin/change_user_password.pl:164-185 | after any number of changes the file is the rewritten base without its trailing blank lines, and one block, the newest |
| `Keyring.NewestEverywhere` | c3/bin/change_user_password.pl:92-185 | and behind the first `secret=` of every line of the file, the appended block included, stands exactly the newest password, if the account itself does not contain `secret=` |
| `Keyring.SecretLine` | c3/bin/change_user_password.pl:92 | a line with `secret=` keeps what stands up to and with its first one and has exactly the password behind it; any other line stays as it is |
| `Keyring.BlockFields` | c3/bin/change_user_password.pl:185 | which of the 26 lines of the block says what |
| `Keyring.HeaderAnywhere` | c3/bin/change_user_password.pl:170 | a header is found wherever it stands in a line |
| `Keyring.StopsAt` | c3/bin/change_user_password.pl:172-174 | with a first header that has other text around it no line is removed |
| `Keyring.OneHeader` | c3/bin/change_user_password.pl:164-185 | such a file has exactly one header line |
| `Keyring.FirstBlock` | c3/bin/change_user_password.pl:181-185 | without a block the first change only rewrites secrets and appends |
| `Backoff.SshKey` | c3/bin/Comms.pm:109-141 | exits if and only if the first nine scans fail, after 1022 seconds of sleep; returning in round n it has slept 2^n-2 seconds, at most 510 |
| `Backoff.Ssh` | c3/bin/Comms.pm:71-107 | the loop with its nested key scans computes the report the bounds are about |
| `Backoff.ReturnTakes` | c3/bin/Comms.pm:34-107 | either outer loop, returning in round k counted from 0, has made k+1 attempts and slept 2^(k+1)-2 seconds besides the key scans |
| `Backoff.SshWorstCase` | c3/bin/Comms.pm:71-107 | for every oracle at most 11 attempts and 9704 seconds of sleep, key scans included |
| `Backoff.SshReturnsExactly` | c3/bin/Comms.pm:71-107 | `ssh` returns if and only if one of the first eleven attempts succeeds, all before it fail to connect and no key scan up to it fails nine times |
| `Backoff.Scp` | c3/bin/Comms.pm:34-67 | the loop with its key scans of both ends computes the report the bounds are about |
| `Backoff.ScpWorstCase` | c3/bin/Comms.pm:34-67 | for every oracle at most 11 copies and 15314 seconds of sleep |
| `Backoff.ScpReturnsExactly` | c3/bin/Comms.pm:34-67 | `scp` returns if and only if one of the first eleven copies succeeds and no key scan of a resolving end up to it fails nine times |
| `Backoff.BoundsAttained` | c3/bin/Comms.pm:34-141 | both bounds are attained by one family of oracles |
| `MailAddresses.EseriDirectory.AddEntry` | c4/storage/Desktop_Create/template/var/lib/eseriman/bin/eseriDirectory.py:28-46 | a new entry has the one address; an existing one is an error and stays as it is |
| `MailAddresses.EseriDirectory.DelEntry` | c4/storage/Desktop_Create/template/var/lib/eseriman/bin/eseriDirectory.py:48-62 | only the named entry goes; a missing entry ends in an uncaught exception |
| `MailAddresses.EseriDirectory.AddEmail` | c4/storage/Desktop_Create/template/var/lib/eseriman/bin/eseriDirectory.py:64-101 | the whole directory after the call and the call it makes, how it ends, and that at most two calls are made, two exactly when the default address is dropped |
| `MailAddresses.EseriDirectory.RemoveEmail` | c4/storage/Desktop_Create/template/var/lib/eseriman/bin/eseriDirectory.py:103-140 | the whole directory after the call and the call it makes, and that two calls are made exactly when the only address is removed |
| `MailAddresses.LosesLastExactly` | c4/storage/Desktop_Create/template/var/lib/eseriman/bin/eseriDirectory.py:103-140 | a call leaves a person without an address if and only if it removes the only one and the nested search fails |
| `MailAddresses.NeverEmpty` | c4/storage/Desktop_Create/template/var/lib/eseriman/bin/eseriDirectory.py:28-140 | over every run from an empty directory everybody keeps an address, with any usernames and addresses, if no nested search of a removal fails |
| `MailAddresses.StepRefines` | c4/storage/Desktop_Create/template/var/lib/eseriman/bin/eseriDirectory.py:64-140 | on what is shown of one person a call is a plain list operation that knows nothing of default addresses, and nothing at all if its search fails |
| `MailAddresses.RunRefines` | c4/storage/Desktop_Create/template/var/lib/eseriman/bin/eseriDirectory.py:28-140 | over every run, other people's calls being arbitrary, a person's addresses are the plain list, or the default address alone when that is empty |
| `MailAddresses.DefaultAlone` | c4/storage/Desktop_Create/template/var/lib/eseriman/bin/eseriDirectory.py:64-140 | hence the default address is only ever shown alone |
| `MailAddresses.OnlyAloneExactly` | c4/storage/Desktop_Create/template/var/lib/eseriman/bin/eseriDirectory.py:64-140 | one call puts the default beside another address if and only if it adds it explicitly, or loses the nested search while adding another |
| `MailAddresses.AddRemoveExactly` | c4/storage/Desktop_Create/template/var/lib/eseriman/bin/eseriDirectory.py:64-140 | adding and removing a fresh address restores the addresses if and only if there were some and the default was not among several |
| `MailAddresses.RemoveAddExactly` | c4/storage/Desktop_Create/template/var/lib/eseriman/bin/eseriDirectory.py:64-140 | the exact condition for removing and adding an address to restore the set |

## Left out

- Network, LDAP connection and bind, SQL, ssh and scp themselves, mail sending, logging: replaced by tables and oracles.
- The LDAP server is assumed to evaluate equality and presence filters as RFC 2254 says, without regard to case, on a directory that does not change during one nested search; a failed search returns nothing. DNs are compared after their backslash pairs are read; optional spaces, quoted values and other names of the same attribute type are not modelled.
- MediaWiki's list of available groups is modelled as the keys of the permission table that are not implicit groups; `$wgRevokePermissions` is not part of this model, nor is the search of the deprecated old-style check, whose hit count is a parameter.
- In the RPC service all requests that write the status of a user, its type or e-mail prefix, or the `dc` status are steps; deletion (whose worker writes no table), desktop resets and the workers that touch other columns (`ccc`, `tzc`, `fpc`, `bc`, passwords, names, time zones) are not. The write of a new e-mail prefix is a step that may come at any time.
- `c4.pl` moving the users of an archived organization to its successor is not part of this model.
- `ssh_key` giving up inside a worker ends the whole service, and a restart loses the queues; runs with a restart are not modelled.
- Database errors that make a handler or worker `die` are not modelled, except the missing cloud manager row.
- The three checks of the desktop script before it starts and its many steps appear only as its outcome on the user's status.
- What a sent cloud manager message does in the receiving handler, and whether it answers, is not part of this model.
- The sleeps of the request worker and the parsing of the stored XML; a request is its list of messages.
- The NX decoder is this project's own, as the repository has none; Perl strings are sequences of characters and their codes.
- Vtiger passwords are byte strings and `pack "S"` is little-endian, as on the machines the script is for.
- Keyring.KeyringFile.RemoveBlocks: on a first `[0]` line with other text than blanks behind or before the header, what is left of the `grep` output is no line number; the model stops there and does not say what `awk` and the shell make of it. Passwords and accounts with characters special to `sed` or the shell are not modelled either.
- LdapGroups.NestedNamesExact: names are compared as strings; PHP's `in_array` also takes two numeric names such as `007` and `7` for equal, so the statement is for names that are not numeric.
- LdapAuth.SyncByPaths: the same restriction to names that are not numeric.
- LdapAuth.SyncFormula: the same restriction to names that are not numeric.
- CreationLife.LifeFromStart: with a type change accepted during the creation or another request the stages are not told apart; that case is covered by `CreationLife.EverFromStart`.
- LdapAuth.SecondRun: the permission table is the one of one PHP process; later logins start from the configured table and are the subject of `LdapAuth.NextLoginIsIdle`.
- The branch that runs the keyring code only for domain configuration versions 2.11 and 2.12, and the rest of the password change.
- In the retry loops the second scan of a host by address, whose exit code is only printed, and the removal of old keys.
- For mail addresses, connection errors, option parsing, and the other attributes of an entry; the server compares addresses without regard to case and the script compares them exactly.
- `makePassword`: its termination is only probabilistic.
- Desktop menus, templates, browser automation, Puppet files, installation scripts: fixed text, plumbing or user interface.
