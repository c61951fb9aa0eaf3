/** The group graph held by the LDAP server and its closure by `searchNestedGroups`. */
module LdapGroups {
  import opened Text
  import opened LdapFilter

  /** A group entry: its DN, the first value of its name attribute, and the values of its
      member attribute. */
  datatype Entry = Entry(dn: string, name: string, members: set<string>)

  /** The entries with the configured object class under the search base, the assertion
      values on which the search itself fails, and whether the values of the member
      attribute are DNs or plain strings such as user names. */
  datatype Directory = Directory(entries: seq<Entry>, failing: set<string>, dnValued: bool)

  /** The two parallel lists the plugin passes around. */
  datatype Groups = Groups(dn: seq<string>, short: seq<string>)

  const NO_GROUPS := Groups([], [])

  function Merge(first: Groups, second: Groups): Groups {
    Groups(first.dn + second.dn, first.short + second.short)
  }

  // ----- searchGroups -----

  /** The assertion value placed in the filter: `*` is the presence test, all else is escaped. */
  function FilterValue(v: string): string {
    if v == "*" then v else Escape(v)
  }

  /** A character of a DN: part of a value, or one that separates. */
  datatype DnChar = DnChar(c: char, separates: bool)

  const DN_SPECIAL: string := ",=+<>#;\""

  /** The characters of the string form of a DN, as sections 2.4 and 3 of RFC 2253 read it,
      without regard to case: a backslash makes a value character of the special character
      or of the pair of hexadecimal digits behind it. */
  function ReadDn(v: string): Option<seq<DnChar>> {
    if v == "" then Some([])
    else if v[0] != '\\' then Before(DnChar(LowerChar(v[0]), v[0] in DN_SPECIAL), ReadDn(v[1..]))
    else if |v| >= 3 && IsHex(v[1]) && IsHex(v[2]) then
      Before(DnChar(LowerChar((16 * HexValue(v[1]) + HexValue(v[2])) as char), false), ReadDn(v[3..]))
    else if |v| >= 2 && (v[1] in DN_SPECIAL || v[1] == '\\') then Before(DnChar(v[1], false), ReadDn(v[2..]))
    else None
  }

  function Before(c: DnChar, rest: Option<seq<DnChar>>): Option<seq<DnChar>> {
    if rest.Some? then Some([c] + rest.value) else None
  }

  /** Whether the server takes a value of the member attribute for the one asserted. */
  predicate Same(dnValued: bool, m: string, v: string) {
    if dnValued then ReadDn(m).Some? && ReadDn(m) == ReadDn(v) else Lower(m) == Lower(v)
  }

  /** Whether `attribute=value` holds of an entry. */
  predicate Matches(e: Entry, value: string, dnValued: bool) {
    if value == "*" then e.members != {}
    else WellFormed(value) && exists m | m in e.members :: Same(dnValued, m, Unescape(value))
  }

  function Found(entries: seq<Entry>, value: string, dnValued: bool): seq<Entry> {
    if entries == [] then []
    else if Matches(entries[0], value, dnValued) then [entries[0]] + Found(entries[1..], value, dnValued)
    else Found(entries[1..], value, dnValued)
  }

  function Answer(d: Directory, v: string): seq<Entry> {
    if FilterValue(v) in d.failing then [] else Found(d.entries, FilterValue(v), d.dnValued)
  }

  function Lowered(es: seq<Entry>): Groups {
    Groups(seq(|es|, i requires 0 <= i < |es| => Lower(es[i].dn)),
           seq(|es|, i requires 0 <= i < |es| => Lower(es[i].name)))
  }

  function SearchGroups(d: Directory, v: string): Groups {
    Lowered(Answer(d, v))
  }

  function Above(d: Directory, v: string): set<string> {
    Members(SearchGroups(d, v).dn)
  }

  /** The lowered DNs of the groups that list `v` as a member. */
  ghost function Listing(d: Directory, v: string): set<string> {
    set e | e in d.entries && (exists m | m in e.members :: Same(d.dnValued, m, v)) :: Lower(e.dn)
  }

  lemma {:induction false} FoundExactly(entries: seq<Entry>, value: string, dnValued: bool)
    ensures forall e :: e in Found(entries, value, dnValued) <==> e in entries && Matches(e, value, dnValued)
  {
    if entries != [] {
      FoundExactly(entries[1..], value, dnValued);
      assert entries == [entries[0]] + entries[1..];
    }
  }

  lemma InAbove(d: Directory, v: string, e: Entry)
    requires e in Answer(d, v)
    ensures Lower(e.dn) in SearchGroups(d, v).dn && Lower(e.name) in SearchGroups(d, v).short
  {
    var i :| 0 <= i < |Answer(d, v)| && Answer(d, v)[i] == e;
    assert SearchGroups(d, v).dn[i] == Lower(e.dn);
    assert SearchGroups(d, v).short[i] == Lower(e.name);
  }

  lemma ReadPair(h: char, l: char, rest: string)
    requires IsHex(h) && IsHex(l)
    ensures ReadDn(['\\', h, l] + rest) ==
              Before(DnChar(LowerChar((16 * HexValue(h) + HexValue(l)) as char), false), ReadDn(rest))
  {
    assert (['\\', h, l] + rest)[3..] == rest;
  }

  lemma ReadNext(c: char, rest: string)
    requires c != '\\'
    ensures ReadDn([c] + rest) == Before(DnChar(LowerChar(c), c in DN_SPECIAL), ReadDn(rest))
  {
    assert ([c] + rest)[1..] == rest;
  }

  lemma ArrivesPlain(c: char, rest: string)
    requires c !in ['*', '(', ')']
    ensures Arrives([c] + rest) == [c] + Arrives(rest)
  {
    assert ([c] + rest)[1..] == rest;
  }

  lemma ArrivesSpecial(c: char, l: char, rest: string)
    requires (c == '*' && l == 'a') || (c == '(' && l == '8') || (c == ')' && l == '9')
    ensures Arrives([c] + rest) == ['\\', '2', l] + Arrives(rest)
  {
    assert ([c] + rest)[1..] == rest;
  }

  lemma PairAsDn(h: char, l: char, rest: string)
    requires IsHex(h) && IsHex(l) && ReadDn(Arrives(rest)) == ReadDn(rest)
    ensures ReadDn(Arrives(['\\', h, l] + rest)) == ReadDn(['\\', h, l] + rest)
  {
    hide ReadDn, Arrives;
    assert ['\\', h, l] + rest == ['\\'] + ([h] + ([l] + rest));
    ArrivesPlain('\\', [h] + ([l] + rest));
    ArrivesPlain(h, [l] + rest);
    ArrivesPlain(l, rest);
    assert ['\\'] + ([h] + ([l] + Arrives(rest))) == ['\\', h, l] + Arrives(rest);
    ReadPair(h, l, rest);
    ReadPair(h, l, Arrives(rest));
  }

  lemma ReadEscaped(c: char, rest: string)
    requires c in DN_SPECIAL || c == '\\'
    ensures ReadDn(['\\', c] + rest) == Before(DnChar(c, false), ReadDn(rest))
  {
    assert (['\\', c] + rest)[2..] == rest && !IsHex(c);
  }

  lemma EscapedAsDn(c: char, rest: string)
    requires (c in DN_SPECIAL || c == '\\') && ReadDn(Arrives(rest)) == ReadDn(rest)
    ensures ReadDn(Arrives(['\\', c] + rest)) == ReadDn(['\\', c] + rest)
  {
    hide ReadDn, Arrives;
    assert ['\\', c] + rest == ['\\'] + ([c] + rest);
    ArrivesPlain('\\', [c] + rest);
    ArrivesPlain(c, rest);
    assert ['\\'] + ([c] + Arrives(rest)) == ['\\', c] + Arrives(rest);
    ReadEscaped(c, rest);
    ReadEscaped(c, Arrives(rest));
  }

  lemma CharAsDn(c: char, rest: string)
    requires c != '\\' && ReadDn(Arrives(rest)) == ReadDn(rest)
    ensures ReadDn(Arrives([c] + rest)) == ReadDn([c] + rest)
  {
    hide ReadDn, Arrives;
    ReadNext(c, rest);
    if c in ['*', '(', ')'] {
      var l := if c == '*' then 'a' else if c == '(' then '8' else '9';
      ArrivesSpecial(c, l, rest);
      ReadPair('2', l, Arrives(rest));
    } else {
      ArrivesPlain(c, rest);
      ReadNext(c, Arrives(rest));
    }
  }

  /** What double escaping leaves in a DN is a pair that stands for the same character. */
  lemma {:induction false} ArrivesAsDn(v: string)
    requires ReadDn(v).Some?
    ensures ReadDn(Arrives(v)) == ReadDn(v)
  {
    if v == "" {
    } else if v[0] != '\\' {
      ArrivesAsDn(v[1..]);
      CharAsDn(v[0], v[1..]);
      assert v == [v[0]] + v[1..];
    } else if |v| >= 3 && IsHex(v[1]) && IsHex(v[2]) {
      ArrivesAsDn(v[3..]);
      PairAsDn(v[1], v[2], v[3..]);
      assert v == ['\\', v[1], v[2]] + v[3..];
    } else {
      ArrivesAsDn(v[2..]);
      EscapedAsDn(v[1], v[2..]);
      assert v == ['\\', v[1]] + v[2..];
    }
  }

  /** One search follows true membership: exactly the groups that list a member equal to
      what the server reads from the filter. With DNs that is the DN searched for; with
      plain strings it is if the string holds none of the three doubly escaped characters. */
  lemma SearchFollowsMembership(d: Directory, v: string)
    requires v != "*" && FilterValue(v) !in d.failing
    ensures Above(d, v) == Listing(d, Arrives(v))
    ensures d.dnValued && ReadDn(v).Some? ==> Above(d, v) == Listing(d, v)
    ensures '*' !in v && '(' !in v && ')' !in v ==> Above(d, v) == Listing(d, v)
  {
    SearchReads(d, v);
    ArrivesLength(v);
    if d.dnValued && ReadDn(v).Some? {
      ArrivesAsDn(v);
      assert forall m :: Same(true, m, Arrives(v)) == Same(true, m, v);
    }
  }

  lemma SearchReads(d: Directory, v: string)
    requires v != "*" && FilterValue(v) !in d.failing
    ensures Above(d, v) == Listing(d, Arrives(v))
  {
    hide Same;
    var value := FilterValue(v);
    EscapeWellFormed(v);
    FoundExactly(d.entries, value, d.dnValued);
    assert value != "*";
    forall x | x in Above(d, v) ensures x in Listing(d, Arrives(v)) {
      var i :| 0 <= i < |SearchGroups(d, v).dn| && SearchGroups(d, v).dn[i] == x;
      assert Answer(d, v)[i] in Found(d.entries, value, d.dnValued);
    }
    forall x | x in Listing(d, Arrives(v)) ensures x in Above(d, v) {
      var e :| e in d.entries && (exists m | m in e.members :: Same(d.dnValued, m, Arrives(v))) && Lower(e.dn) == x;
      InAbove(d, v, e);
    }
  }

  /** The search for `*` finds exactly the groups that have a member at all. */
  lemma AllFound(d: Directory, e: Entry)
    requires "*" !in d.failing
    ensures e in Answer(d, "*") <==> e in d.entries && e.members != {}
  {
    FoundExactly(d.entries, "*", d.dnValued);
  }

  /** A search that fails finds nothing, whatever the directory holds. */
  lemma FailedSearch(d: Directory, v: string)
    requires (if v == "*" then "*" else Escape(v)) in d.failing
    ensures SearchGroups(d, v).dn == [] && SearchGroups(d, v).short == []
  {
  }

  /** With plain strings that condition is exact: over all directories a search follows
      membership if and only if its value holds none of the three characters. */
  lemma StringSearchExactly(v: string)
    requires v != "*"
    ensures (forall d: Directory | !d.dnValued && FilterValue(v) !in d.failing :: Above(d, v) == Listing(d, v))
            <==> '*' !in v && '(' !in v && ')' !in v
  {
    if '*' !in v && '(' !in v && ')' !in v {
      forall d: Directory | !d.dnValued && FilterValue(v) !in d.failing ensures Above(d, v) == Listing(d, v) {
        SearchFollowsMembership(d, v);
      }
    } else {
      var e := Entry("cn=staff", "staff", {v});
      var d := Directory([e], {}, false);
      SearchReads(d, v);
      ArrivesLength(v);
      assert |Lower(v)| != |Lower(Arrives(v))|;
      assert e in d.entries && v in e.members && Same(false, v, v);
      assert Lower(e.dn) in Listing(d, v) && Lower(e.dn) !in Listing(d, Arrives(v));
    }
  }

  /** The loop of `searchGroups` over the returned entries. */
  method CollectGroups(d: Directory, v: string) returns (groups: Groups)
    ensures groups == SearchGroups(d, v)
  {
    var entries := Answer(d, v);
    groups := NO_GROUPS;
    for n := 0 to |entries|
      invariant groups == Lowered(entries[..n])
    {
      groups := Groups(groups.dn + [Lower(entries[n].dn)], groups.short + [Lower(entries[n].name)]);
    }
    assert entries[..|entries|] == entries;
  }

  // ----- searchNestedGroups -----

  /** The elements of `xs` that are not in `seen`, in order. */
  function NotIn(xs: seq<string>, seen: seq<string>): seq<string> {
    if xs == [] then []
    else NotIn(xs[..|xs| - 1], seen) + (if xs[|xs| - 1] in seen then [] else [xs[|xs| - 1]])
  }

  /** The next level: what the groups of this level belong to, less what was searched
      before this level. */
  function NextLevel(d: Directory, dns: seq<string>, searched: Groups): Groups {
    if dns == [] then NO_GROUPS
    else
      var rest, here := NextLevel(d, dns[..|dns| - 1], searched), SearchGroups(d, dns[|dns| - 1]);
      Merge(rest, Groups(NotIn(here.dn, searched.dn), NotIn(here.short, searched.short)))
  }

  /** Every DN the server can ever answer with. */
  ghost function Universe(d: Directory): set<string> {
    set e | e in d.entries :: Lower(e.dn)
  }

  ghost function Unsearched(d: Directory, groups: Groups, searched: Groups): set<string> {
    Universe(d) + Members(groups.dn) - Members(searched.dn)
  }

  /** An empty level, a level with something new, a level already searched throughout. */
  ghost function Staleness(groups: Groups, searched: Groups): nat {
    if groups.dn == [] then 0
    else if Members(groups.dn) <= Members(searched.dn) then 2
    else 1
  }

  lemma {:induction false} NotInSet(xs: seq<string>, seen: seq<string>)
    ensures forall x :: x in NotIn(xs, seen) <==> x in xs && x !in seen
  {
    if xs != [] {
      var n := |xs| - 1;
      NotInSet(xs[..n], seen);
      assert xs == xs[..n] + [xs[n]];
    }
  }

  lemma {:induction false} NextDn(d: Directory, dns: seq<string>, searched: Groups, x: string)
    ensures x in NextLevel(d, dns, searched).dn <==>
            x !in searched.dn && exists g | g in dns :: x in Above(d, g)
  {
    if dns != [] {
      var n := |dns| - 1;
      NextDn(d, dns[..n], searched, x);
      NotInSet(SearchGroups(d, dns[n]).dn, searched.dn);
      assert x in SearchGroups(d, dns[n]).dn <==> x in Above(d, dns[n]);
      assert dns == dns[..n] + [dns[n]];
    }
  }

  lemma {:induction false} NextShort(d: Directory, dns: seq<string>, searched: Groups, s: string)
    ensures s in NextLevel(d, dns, searched).short <==>
            s !in searched.short && exists g | g in dns :: s in SearchGroups(d, g).short
  {
    if dns != [] {
      var n := |dns| - 1;
      NextShort(d, dns[..n], searched, s);
      NotInSet(SearchGroups(d, dns[n]).short, searched.short);
      assert dns == dns[..n] + [dns[n]];
    }
  }

  lemma NextLevelSets(d: Directory, dns: seq<string>, searched: Groups)
    ensures forall x :: x in NextLevel(d, dns, searched).dn <==>
                        x !in searched.dn && exists g | g in dns :: x in Above(d, g)
    ensures forall s :: s in NextLevel(d, dns, searched).short <==>
                        s !in searched.short && exists g | g in dns :: s in SearchGroups(d, g).short
  {
    forall x ensures x in NextLevel(d, dns, searched).dn <==>
                     x !in searched.dn && exists g | g in dns :: x in Above(d, g) {
      NextDn(d, dns, searched, x);
    }
    forall s ensures s in NextLevel(d, dns, searched).short <==>
                     s !in searched.short && exists g | g in dns :: s in SearchGroups(d, g).short {
      NextShort(d, dns, searched, s);
    }
  }

  lemma AboveInUniverse(d: Directory, v: string)
    ensures Above(d, v) <= Universe(d)
  {
    FoundExactly(d.entries, FilterValue(v), d.dnValued);
    forall x | x in Above(d, v) ensures x in Universe(d) {
      var i :| 0 <= i < |SearchGroups(d, v).dn| && SearchGroups(d, v).dn[i] == x;
      assert Answer(d, v)[i] in d.entries;
    }
  }

  lemma NextIsFresh(d: Directory, dns: seq<string>, searched: Groups)
    ensures Members(NextLevel(d, dns, searched).dn) <= Universe(d) - Members(searched.dn)
  {
    forall x | x in NextLevel(d, dns, searched).dn ensures x in Universe(d) && x !in searched.dn {
      NextDn(d, dns, searched, x);
      var g :| g in dns && x in Above(d, g);
      AboveInUniverse(d, g);
    }
  }

  lemma SubsetSize<T>(a: set<T>, b: set<T>)
    requires a <= b
    ensures |a| <= |b| && (a != b ==> |a| < |b|)
  {
    assert b == a + (b - a);
    assert |b| == |a| + |b - a|;
    if a != b {
      var x :| x in b && x !in a;
      assert x in b - a;
    }
  }

  lemma MergedMembers(first: Groups, second: Groups)
    ensures Members(Merge(first, second).dn) == Members(first.dn) + Members(second.dn)
  {
  }

  /** Why the recursion stops on every directory, cyclic or not: a level with something new
      leaves fewer DNs unsearched, and a level already searched throughout is followed by
      an empty level or one that is new throughout. */
  lemma LevelsShrink(d: Directory, groups: Groups, searched: Groups)
    requires groups.dn != []
    ensures var next, merged := NextLevel(d, groups.dn, searched), Merge(groups, searched);
            |Unsearched(d, next, merged)| < |Unsearched(d, groups, searched)|
            || (|Unsearched(d, next, merged)| == |Unsearched(d, groups, searched)|
                && Staleness(next, merged) < Staleness(groups, searched))
  {
    var next, merged := NextLevel(d, groups.dn, searched), Merge(groups, searched);
    NextIsFresh(d, groups.dn, searched);
    MergedMembers(groups, searched);
    var before, after := Unsearched(d, groups, searched), Unsearched(d, next, merged);
    SubsetSize(after, before);
    if Members(groups.dn) <= Members(searched.dn) {
      assert next.dn != [] ==> next.dn[0] in Members(next.dn);
    } else {
      var g :| g in Members(groups.dn) && g !in Members(searched.dn);
      assert g in before && g !in after;
    }
  }

  /** The recursion of the source, one level of the membership graph per call. */
  function SearchNested(d: Directory, groups: Groups, searched: Groups): Groups
    decreases |Unsearched(d, groups, searched)|, Staleness(groups, searched)
  {
    if groups.dn == [] then searched
    else
      LevelsShrink(d, groups, searched);
      SearchNested(d, NextLevel(d, groups.dn, searched), Merge(groups, searched))
  }

  /** Either inner loop: add to `list` what was returned and not searched before. */
  method AddNew(list: seq<string>, returned: seq<string>, seen: seq<string>) returns (result: seq<string>)
    ensures result == list + NotIn(returned, seen)
  {
    result := list;
    for i := 0 to |returned|
      invariant result == list + NotIn(returned[..i], seen)
    {
      assert returned[..i + 1][..i] == returned[..i];
      if returned[i] !in seen {
        result := result + [returned[i]];
      }
    }
    assert returned[..|returned|] == returned;
  }

  method SearchNestedGroups(d: Directory, groups: Groups, searched: Groups) returns (result: Groups)
    ensures result == SearchNested(d, groups, searched)
    decreases |Unsearched(d, groups, searched)|, Staleness(groups, searched)
  {
    hide SearchGroups, NotIn, Unsearched, Staleness;
    if |groups.dn| == 0 {
      return searched;
    }
    var toSearch := NO_GROUPS;
    for n := 0 to |groups.dn|
      invariant toSearch == NextLevel(d, groups.dn[..n], searched)
    {
      var returned := CollectGroups(d, groups.dn[n]);
      var dns := AddNew(toSearch.dn, returned.dn, searched.dn);
      var shorts := AddNew(toSearch.short, returned.short, searched.short);
      toSearch := Groups(dns, shorts);
      assert groups.dn[..n + 1][..n] == groups.dn[..n];
    }
    assert groups.dn[..|groups.dn|] == groups.dn;
    LevelsShrink(d, groups, searched);
    result := SearchNestedGroups(d, toSearch, Merge(groups, searched));
  }

  // ----- what the closure contains -----

  /** A membership path: each group is answered by the search for the one before it. */
  ghost predicate IsPath(d: Directory, p: seq<string>) {
    |p| > 0 && forall i | 0 < i < |p| :: p[i] in Above(d, p[i - 1])
  }

  ghost predicate Reachable(d: Directory, from: set<string>, x: string) {
    exists p :: IsPath(d, p) && p[0] in from && p[|p| - 1] == x
  }

  lemma ReachableStart(d: Directory, from: set<string>, x: string)
    requires x in from
    ensures Reachable(d, from, x)
  {
    assert IsPath(d, [x]) && [x][0] in from && [x][|[x]| - 1] == x;
  }

  lemma ReachableStep(d: Directory, from: set<string>, x: string, y: string)
    requires Reachable(d, from, x) && y in Above(d, x)
    ensures Reachable(d, from, y)
  {
    hide Above;
    var p :| IsPath(d, p) && p[0] in from && p[|p| - 1] == x;
    var q := p + [y];
    assert IsPath(d, q) && q[0] in from && q[|q| - 1] == y;
  }

  lemma {:induction false} OnlyReachable(d: Directory, from: set<string>, groups: Groups, searched: Groups)
    requires forall x | x in groups.dn || x in searched.dn :: Reachable(d, from, x)
    ensures forall x | x in SearchNested(d, groups, searched).dn :: Reachable(d, from, x)
    decreases |Unsearched(d, groups, searched)|, Staleness(groups, searched)
  {
    if groups.dn != [] {
      var next, merged := NextLevel(d, groups.dn, searched), Merge(groups, searched);
      LevelsShrink(d, groups, searched);
      NextLevelSets(d, groups.dn, searched);
      forall x | x in next.dn ensures Reachable(d, from, x) {
        var g :| g in groups.dn && x in Above(d, g);
        ReachableStep(d, from, g, x);
      }
      OnlyReachable(d, from, next, merged);
    }
  }

  /** Everything above a searched group is searched or in the current level. */
  ghost predicate Covered(d: Directory, groups: Groups, searched: Groups) {
    forall x, y | x in searched.dn && y in Above(d, x) :: y in searched.dn || y in groups.dn
  }

  lemma {:induction false} ClosedUpward(d: Directory, groups: Groups, searched: Groups)
    requires Covered(d, groups, searched)
    ensures var r := SearchNested(d, groups, searched);
            Members(groups.dn) + Members(searched.dn) <= Members(r.dn)
            && forall x | x in r.dn :: Above(d, x) <= Members(r.dn)
    decreases |Unsearched(d, groups, searched)|, Staleness(groups, searched)
  {
    if groups.dn != [] {
      var next, merged := NextLevel(d, groups.dn, searched), Merge(groups, searched);
      LevelsShrink(d, groups, searched);
      NextLevelSets(d, groups.dn, searched);
      assert Covered(d, next, merged);
      ClosedUpward(d, next, merged);
    }
  }

  lemma {:induction false} PathStaysIn(d: Directory, closed: set<string>, p: seq<string>)
    requires IsPath(d, p) && p[0] in closed
    requires forall x | x in closed :: Above(d, x) <= closed
    ensures p[|p| - 1] in closed
  {
    if |p| > 1 {
      PathStaysIn(d, closed, p[..|p| - 1]);
    }
  }

  /** The result holds a DN exactly when some membership path leads to it from the starting
      groups. */
  lemma NestedSearchExact(d: Directory, groups: Groups, x: string)
    ensures x in SearchNested(d, groups, NO_GROUPS).dn <==> Reachable(d, Members(groups.dn), x)
  {
    var from, r := Members(groups.dn), SearchNested(d, groups, NO_GROUPS);
    forall g | g in groups.dn ensures Reachable(d, from, g) {
      ReachableStart(d, from, g);
    }
    OnlyReachable(d, from, groups, NO_GROUPS);
    ClosedUpward(d, groups, NO_GROUPS);
    if Reachable(d, from, x) {
      var p :| IsPath(d, p) && p[0] in from && p[|p| - 1] == x;
      PathStaysIn(d, Members(r.dn), p);
    }
  }

  // ----- the short names -----

  /** The name attribute of an entry is determined by its DN. */
  ghost predicate NamedByDn(d: Directory, names: map<string, string>) {
    forall e | e in d.entries :: Lower(e.dn) in names && names[Lower(e.dn)] == Lower(e.name)
  }

  ghost predicate NamesOf(names: map<string, string>, groups: Groups) {
    && (forall x | x in groups.dn :: x in names && names[x] in groups.short)
    && (forall s | s in groups.short :: exists x | x in groups.dn :: x in names && names[x] == s)
  }

  /** The names of the current level, except that one already recorded may be missing. */
  ghost predicate NamesPending(names: map<string, string>, groups: Groups, searched: Groups) {
    && (forall x | x in groups.dn :: x in names && (names[x] in groups.short || names[x] in searched.short))
    && (forall s | s in groups.short :: exists x | x in groups.dn :: x in names && names[x] == s)
  }

  lemma SearchNames(d: Directory, names: map<string, string>, v: string)
    requires NamedByDn(d, names)
    ensures NamesOf(names, SearchGroups(d, v))
  {
    var es, r := Answer(d, v), SearchGroups(d, v);
    FoundExactly(d.entries, FilterValue(v), d.dnValued);
    assert forall i | 0 <= i < |es| :: es[i] in d.entries;
    forall x | x in r.dn ensures x in names && names[x] in r.short {
      var i :| 0 <= i < |r.dn| && r.dn[i] == x;
      assert es[i] in d.entries;
      assert r.short[i] == names[x];
    }
    forall s | s in r.short ensures exists x | x in r.dn :: x in names && names[x] == s {
      var i :| 0 <= i < |r.short| && r.short[i] == s;
      assert es[i] in d.entries;
      assert r.dn[i] in r.dn && names[r.dn[i]] == s;
    }
  }

  lemma NextNames(d: Directory, names: map<string, string>, groups: Groups, searched: Groups)
    requires NamedByDn(d, names) && NamesPending(names, groups, searched) && NamesOf(names, searched)
    ensures NamesOf(names, Merge(groups, searched))
    ensures NamesPending(names, NextLevel(d, groups.dn, searched), Merge(groups, searched))
  {
    var next, merged := NextLevel(d, groups.dn, searched), Merge(groups, searched);
    NextLevelSets(d, groups.dn, searched);
    forall x | x in next.dn ensures x in names && (names[x] in next.short || names[x] in merged.short) {
      var g :| g in groups.dn && x in Above(d, g);
      SearchNames(d, names, g);
      assert names[x] in SearchGroups(d, g).short;
    }
    forall s | s in next.short ensures exists x | x in next.dn :: x in names && names[x] == s {
      var g :| g in groups.dn && s in SearchGroups(d, g).short;
      SearchNames(d, names, g);
      var x :| x in SearchGroups(d, g).dn && x in names && names[x] == s;
      assert x in Above(d, g) && x !in searched.dn;
    }
    forall s | s in merged.short ensures exists x | x in merged.dn :: x in names && names[x] == s {
      if s in groups.short {
        var x :| x in groups.dn && x in names && names[x] == s;
        assert x in merged.dn;
      } else {
        var x :| x in searched.dn && x in names && names[x] == s;
        assert x in merged.dn;
      }
    }
  }

  lemma {:induction false} NoNameLost(d: Directory, names: map<string, string>, groups: Groups, searched: Groups)
    requires NamedByDn(d, names) && NamesPending(names, groups, searched) && NamesOf(names, searched)
    ensures NamesOf(names, SearchNested(d, groups, searched))
    decreases |Unsearched(d, groups, searched)|, Staleness(groups, searched)
  {
    if groups.dn != [] {
      LevelsShrink(d, groups, searched);
      NextNames(d, names, groups, searched);
      NoNameLost(d, names, NextLevel(d, groups.dn, searched), Merge(groups, searched));
    }
  }

  ghost predicate ReachableName(d: Directory, from: set<string>, names: map<string, string>, s: string) {
    exists x :: Reachable(d, from, x) && x in names && names[x] == s
  }

  /** The base case looks at the DNs only and drops the pending names; none is lost. The
      short list holds exactly the names of the reachable groups. */
  lemma NestedNamesExact(d: Directory, names: map<string, string>, v: string, s: string)
    requires NamedByDn(d, names)
    ensures s in SearchNested(d, SearchGroups(d, v), NO_GROUPS).short <==> ReachableName(d, Above(d, v), names, s)
  {
    var start := SearchGroups(d, v);
    var r := SearchNested(d, start, NO_GROUPS);
    SearchNames(d, names, v);
    NoNameLost(d, names, start, NO_GROUPS);
    forall x ensures x in r.dn <==> Reachable(d, Above(d, v), x) {
      NestedSearchExact(d, start, x);
    }
  }

  // ----- repeated visits -----

  /** The DN lists of the successive levels. */
  ghost function Levels(d: Directory, groups: Groups, searched: Groups): seq<seq<string>>
    decreases |Unsearched(d, groups, searched)|, Staleness(groups, searched)
  {
    if groups.dn == [] then []
    else
      LevelsShrink(d, groups, searched);
      [groups.dn] + Levels(d, NextLevel(d, groups.dn, searched), Merge(groups, searched))
  }

  function Deepest(levels: seq<seq<string>>): seq<string> {
    if levels == [] then [] else Deepest(levels[1..]) + levels[0]
  }

  /** The result lists the levels one by one, the deepest first, in front of what was searched
      before. */
  lemma {:induction false} DeepestFirst(d: Directory, groups: Groups, searched: Groups)
    ensures SearchNested(d, groups, searched).dn == Deepest(Levels(d, groups, searched)) + searched.dn
    decreases |Unsearched(d, groups, searched)|, Staleness(groups, searched)
  {
    if groups.dn != [] {
      LevelsShrink(d, groups, searched);
      DeepestFirst(d, NextLevel(d, groups.dn, searched), Merge(groups, searched));
      hide NextLevel, Unsearched, Staleness;
      var rest := Levels(d, NextLevel(d, groups.dn, searched), Merge(groups, searched));
      assert Levels(d, groups, searched) == [groups.dn] + rest;
      assert Deepest(rest) + (groups.dn + searched.dn) == (Deepest(rest) + groups.dn) + searched.dn;
    }
  }

  lemma {:induction false} NeverAgain(d: Directory, groups: Groups, searched: Groups, x: string, j: nat)
    requires x in searched.dn && x !in groups.dn
    requires j < |Levels(d, groups, searched)|
    ensures x !in Levels(d, groups, searched)[j]
    decreases j
  {
    if j > 0 {
      NextLevelSets(d, groups.dn, searched);
      NeverAgain(d, NextLevel(d, groups.dn, searched), Merge(groups, searched), x, j - 1);
    }
  }

  /** A level is filtered only against the levels before the current one, so a group can be
      visited twice; but then in two consecutive levels, and never a third time. */
  lemma {:induction false} VisitedInNeighboursOnly(d: Directory, groups: Groups, searched: Groups,
                                                   x: string, i: nat, j: nat)
    requires i < j < |Levels(d, groups, searched)|
    requires x in Levels(d, groups, searched)[i] && x in Levels(d, groups, searched)[j]
    ensures j == i + 1
    decreases i
  {
    hide NextLevel, SearchGroups, Unsearched, Staleness;
    var next, merged := NextLevel(d, groups.dn, searched), Merge(groups, searched);
    if i > 0 {
      VisitedInNeighboursOnly(d, next, merged, x, i - 1, j - 1);
    } else if j > 1 {
      assert Levels(d, next, merged)[j - 1] == Levels(d, groups, searched)[j];
      NextLevelSets(d, next.dn, merged);
      NeverAgain(d, NextLevel(d, next.dn, merged), Merge(next, merged), x, j - 2);
    }
  }
}
