/** The mail addresses of the people in the directory: adding one drops the default address,
    removing the last one puts it back, and each of the two calls the other. */
module MailAddresses {
  import opened Text

  /** How a call of the script ends: it returns, it exits with status 1 because the address
      is there already, or an exception goes uncaught. */
  datatype End = Finished | Refused | Failed

  /** The values of `mail` for each common name; the empty sequence is an absent attribute. */
  type People = map<string, seq<string>>

  /** `answered` says whether the search of the call itself is answered, `nested` whether that
      of the call it makes is: a search that fails is reported and passed over. */
  datatype Op =
    | Create(email: string)
    | Delete
    | Add(email: string, answered: bool, nested: bool)
    | Remove(email: string, answered: bool, nested: bool)

  // ----- the server's own operations on the values of one attribute -----

  /** Values of `mail` are compared without regard to case. */
  predicate Clash(mail: seq<string>, email: string) {
    exists x | x in mail :: Lower(x) == Lower(email)
  }

  function Without(mail: seq<string>, email: string): (r: seq<string>)
    ensures forall x :: x in r <==> x in mail && Lower(x) != Lower(email)
    ensures |r| <= |mail|
  {
    if mail == [] then []
    else (if Lower(mail[0]) == Lower(email) then [] else [mail[0]]) + Without(mail[1..], email)
  }

  ghost predicate Distinct(mail: seq<string>) {
    forall i, j | 0 <= i < j < |mail| :: Lower(mail[i]) != Lower(mail[j])
  }

  lemma {:induction false} WithoutFresh(mail: seq<string>, email: string)
    requires !Clash(mail, email)
    ensures Without(mail, email) == mail
  {
    if mail != [] {
      assert mail[0] in mail;
      WithoutFresh(mail[1..], email);
    }
  }

  lemma {:induction false} WithoutAppended(mail: seq<string>, last: string, email: string)
    ensures Without(mail + [last], email) == Without(mail, email) + if Lower(last) == Lower(email) then [] else [last]
  {
    if mail == [] {
      assert [last][1..] == [];
    } else {
      assert (mail + [last])[1..] == mail[1..] + [last];
      WithoutAppended(mail[1..], last, email);
    }
  }

  lemma {:induction false} WithoutDistinct(mail: seq<string>, email: string)
    requires Distinct(mail)
    ensures Distinct(Without(mail, email))
    ensures email in mail ==> |Without(mail, email)| == |mail| - 1
  {
    if mail != [] {
      WithoutDistinct(mail[1..], email);
      if Lower(mail[0]) == Lower(email) {
        forall x | x in mail[1..] ensures Lower(x) != Lower(email) {
          var i :| 0 <= i < |mail[1..]| && mail[1..][i] == x;
          assert mail[i + 1] == x;
        }
        WithoutFresh(mail[1..], email);
      } else {
        var rest := Without(mail[1..], email);
        forall i | 0 <= i < |rest| ensures Lower(mail[0]) != Lower(rest[i]) {
          assert rest[i] in mail[1..];
          var k :| 0 <= k < |mail[1..]| && mail[1..][k] == rest[i];
          assert mail[k + 1] == rest[i];
        }
      }
    }
  }

  // ----- what one call leaves -----

  /** The addresses after adding `email`; `inner` says whether the search of the nested call
      is answered. */
  function AddTo(mail: seq<string>, email: string, default: string, inner: bool): seq<string> {
    if Clash(mail, email) then mail
    else if default in mail && inner then Without(mail, default) + [email]
    else mail + [email]
  }

  function RemoveFrom(mail: seq<string>, email: string, default: string, inner: bool): seq<string> {
    if email !in mail then mail
    else if |mail| > 1 then Without(mail, email)
    else if inner then [default]
    else []
  }

  /** What the search brings: no values when it fails or there is no such entry. */
  function Found(people: People, cn: string, answered: bool): seq<string> {
    if answered && cn in people then people[cn] else []
  }

  /** Adding `email` makes the script remove the default address. */
  predicate Drops(mail: seq<string>, email: string, default: string) {
    default in mail && !Clash(mail, email)
  }

  lemma ClashesWithItself(mail: seq<string>, email: string)
    requires email in mail
    ensures Clash(mail, email)
  {
  }

  lemma NothingClashes(email: string)
    ensures !Clash([], email)
  {
  }

  lemma DefaultDropped(mail: seq<string>, email: string, default: string)
    requires Drops(mail, email, default)
    ensures |mail + [email]| > 1 && default in mail + [email]
    ensures Without(mail + [email], default) == Without(mail, default) + [email]
  {
    WithoutAppended(mail, email, default);
  }

  lemma SoleRemoved(mail: seq<string>, email: string)
    requires email in mail
    ensures |mail| == 1 ==> mail == [email] && Without(mail, email) == []
  {
  }

  function Step(people: People, cn: string, default: string, op: Op): People {
    match op
    case Create(email) => if cn in people then people else people[cn := [email]]
    case Delete => people - {cn}
    case Add(email, answered, nested) =>
      if cn in people && answered then people[cn := AddTo(people[cn], email, default, nested)] else people
    case Remove(email, answered, nested) =>
      if cn in people && answered then people[cn := RemoveFrom(people[cn], email, default, nested)] else people
  }

  ghost predicate Valid(people: People) {
    forall cn | cn in people :: Distinct(people[cn])
  }

  lemma StepValid(people: People, cn: string, default: string, op: Op)
    requires Valid(people)
    ensures Valid(Step(people, cn, default, op))
  {
    match op
    case Add(email, answered, nested) =>
      if cn in people {
        WithoutDistinct(people[cn], default);
      }
    case Remove(email, answered, nested) =>
      if cn in people {
        WithoutDistinct(people[cn], email);
      }
    case _ =>
  }

  // ----- runs -----

  /** One call of the script: the person, the default address that goes with the username
      it is given, and what it is to do. */
  datatype Call = Call(cn: string, default: string, op: Op)

  function Run(people: People, calls: seq<Call>): People {
    if calls == [] then people
    else
      var last := calls[|calls| - 1];
      Step(Run(people, calls[..|calls| - 1]), last.cn, last.default, last.op)
  }

  ghost predicate NoneEmpty(people: People) {
    forall cn | cn in people :: people[cn] != []
  }

  /** A call loses the last address exactly when it removes the only one and the search
      before putting the default back fails. */
  lemma LosesLastExactly(people: People, call: Call)
    requires Valid(people) && NoneEmpty(people)
    ensures NoneEmpty(Step(people, call.cn, call.default, call.op)) <==>
            !(call.op.Remove? && Found(people, call.cn, call.op.answered) == [call.op.email] && !call.op.nested)
  {
    var after := Step(people, call.cn, call.default, call.op);
    if call.op.Remove? && call.cn in people {
      WithoutDistinct(people[call.cn], call.op.email);
    }
    if call.op.Remove? && Found(people, call.cn, call.op.answered) == [call.op.email] && !call.op.nested {
      assert after[call.cn] == [];
    }
  }

  /** From an empty directory no call leaves a person without an address, whatever usernames
      and addresses it is given, if no search fails after one that was answered. */
  lemma {:induction false} NeverEmpty(calls: seq<Call>)
    requires forall i | 0 <= i < |calls| && calls[i].op.Remove? :: calls[i].op.answered ==> calls[i].op.nested
    ensures Valid(Run(map[], calls)) && NoneEmpty(Run(map[], calls))
  {
    if calls != [] {
      var before, last := calls[..|calls| - 1], calls[|calls| - 1];
      NeverEmpty(before);
      StepValid(Run(map[], before), last.cn, last.default, last.op);
      LosesLastExactly(Run(map[], before), last);
    }
  }

  // ----- the two functions keep a plain list, and show the default in place of an empty one -----

  ghost predicate Custom(c: seq<string>, default: string) {
    Distinct(c) && default !in c
  }

  function View(c: seq<string>, default: string): seq<string> {
    if c == [] then [default] else c
  }

  function Shown(people: People, cn: string): Option<seq<string>> {
    if cn in people then Some(people[cn]) else None
  }

  function ViewOf(c: Option<seq<string>>, default: string): Option<seq<string>> {
    if c.Some? then Some(View(c.value, default)) else None
  }

  /** The plain list: an address is appended unless one like it is shown, and removed if it
      is there. A call whose search fails does nothing. Nothing is said of a default
      address. */
  function PlainStep(c: Option<seq<string>>, default: string, op: Op): Option<seq<string>> {
    match op
    case Create(email) => if c.Some? then c else if email == default then Some([]) else Some([email])
    case Delete => None
    case Add(email, answered, _) =>
      if c.None? || !answered || Clash(View(c.value, default), email) then c else Some(c.value + [email])
    case Remove(email, answered, _) =>
      if c.None? || !answered || email !in c.value then c else Some(Without(c.value, email))
  }

  function PlainRun(calls: seq<Call>, cn: string): Option<seq<string>> {
    if calls == [] then None
    else
      var before, last := PlainRun(calls[..|calls| - 1], cn), calls[|calls| - 1];
      if last.cn == cn then PlainStep(before, last.default, last.op) else before
  }

  /** No search fails after one that was answered, and the call does not add the default
      address itself. */
  predicate Usual(op: Op, default: string) {
    match op
    case Add(email, answered, nested) => answered ==> nested && email != default
    case Remove(_, answered, nested) => answered ==> nested
    case _ => true
  }

  lemma StepRefines(people: People, cn: string, default: string, op: Op, c: Option<seq<string>>)
    requires Shown(people, cn) == ViewOf(c, default) && (c.Some? ==> Custom(c.value, default)) && Usual(op, default)
    ensures Shown(Step(people, cn, default, op), cn) == ViewOf(PlainStep(c, default, op), default)
    ensures PlainStep(c, default, op).Some? ==> Custom(PlainStep(c, default, op).value, default)
  {
    if c.Some? {
      match op
      case Add(email, _, _) =>
        if c.value == [] && !Clash([default], email) {
          SoleRemoved([default], default);
          assert [] + [email] == [email];
        }
        if !Clash(View(c.value, default), email) {
          DistinctAppended(c.value, default, email);
        }
      case Remove(email, _, _) =>
        WithoutDistinct(c.value, email);
        if email in c.value {
          SoleRemoved(c.value, email);
        }
      case _ =>
    }
  }

  lemma DistinctAppended(c: seq<string>, default: string, email: string)
    requires Distinct(c) && !Clash(View(c, default), email)
    ensures Distinct(c + [email])
  {
    forall i | 0 <= i < |c| ensures Lower(c[i]) != Lower(email) {
      assert c[i] in View(c, default);
    }
  }

  /** Over any run in which the calls for one person name one username, those of other people
      being whatever they like, the person's addresses are the plain list, or the default
      address alone when that list is empty. */
  lemma {:induction false} RunRefines(calls: seq<Call>, cn: string, default: string)
    requires forall i | 0 <= i < |calls| && calls[i].cn == cn ::
               calls[i].default == default && Usual(calls[i].op, default)
    ensures Shown(Run(map[], calls), cn) == ViewOf(PlainRun(calls, cn), default)
    ensures PlainRun(calls, cn).Some? ==> Custom(PlainRun(calls, cn).value, default)
  {
    if calls != [] {
      var before, last := calls[..|calls| - 1], calls[|calls| - 1];
      RunRefines(before, cn, default);
      if last.cn == cn {
        StepRefines(Run(map[], before), cn, default, last.op, PlainRun(before, cn));
      }
    }
  }

  /** So the default address is shown only when it is the only one. */
  lemma DefaultAlone(calls: seq<Call>, cn: string, default: string)
    requires forall i | 0 <= i < |calls| && calls[i].cn == cn ::
               calls[i].default == default && Usual(calls[i].op, default)
    ensures cn in Run(map[], calls) && default in Run(map[], calls)[cn] ==> Run(map[], calls)[cn] == [default]
  {
    RunRefines(calls, cn, default);
  }

  ghost predicate OnlyAlone(mail: seq<string>, default: string) {
    default in mail ==> mail == [default]
  }

  /** The two ways to get the default address beside another one: to add it, or to lose the
      nested search while adding the other. */
  lemma OnlyAloneExactly(mail: seq<string>, email: string, default: string, inner: bool)
    requires Distinct(mail) && OnlyAlone(mail, default)
    ensures OnlyAlone(AddTo(mail, email, default, inner), default) <==>
            Clash(mail, email) || if default in mail then inner else email == default ==> mail == []
    ensures OnlyAlone(RemoveFrom(mail, email, default, inner), default)
  {
    if default in mail && !Clash(mail, email) {
      assert mail == [default];
      SoleRemoved(mail, default);
    }
    if email in mail && |mail| > 1 {
      WithoutDistinct(mail, email);
    }
  }

  /** Adding an address and removing it again restores the addresses exactly when there are
      some and the default is not shown beside others. */
  lemma AddRemoveExactly(mail: seq<string>, email: string, default: string)
    requires Distinct(mail) && !Clash(mail, email)
    ensures RemoveFrom(AddTo(mail, email, default, true), email, default, true) == mail <==>
            mail != [] && OnlyAlone(mail, default)
  {
    var added := AddTo(mail, email, default, true);
    if default in mail {
      WithoutAppended(Without(mail, default), email, email);
      WithoutFresh(Without(mail, default), email);
      WithoutDistinct(mail, default);
      assert |mail| == 1 ==> Without(mail, default) + [email] == [email];
    } else {
      WithoutAppended(mail, email, email);
      WithoutFresh(mail, email);
    }
  }

  /** Removing an address and adding it again restores the addresses, up to order, exactly
      when it was the only one and is not the default spelt otherwise, or there were others
      and the default was not among them, unless it is the one removed. */
  lemma RemoveAddExactly(mail: seq<string>, email: string, default: string)
    requires Distinct(mail) && email in mail
    ensures var back := AddTo(RemoveFrom(mail, email, default, true), email, default, true);
            Members(back) == Members(mail) <==>
            email == default || if |mail| == 1 then Lower(email) != Lower(default) else default !in mail
  {
    var rest := RemoveFrom(mail, email, default, true);
    var back := AddTo(rest, email, default, true);
    if |mail| == 1 {
      SoleRemoved(mail, email);
      assert mail == [email] && rest == [default];
      if email != default {
        SoleRemoved([default], default);
        assert [] + [email] == [email];
        assert default in Members([default]);
      }
    } else {
      WithoutDistinct(mail, email);
      assert !Clash(rest, email);
      OnlyOneAlike(mail, email);
      if default in mail && email != default {
        assert back == Without(rest, default) + [email];
        assert default !in back;
        assert default in Members(mail);
      } else {
        assert back == rest + [email];
      }
    }
  }

  lemma OnlyOneAlike(mail: seq<string>, email: string)
    requires Distinct(mail) && email in mail
    ensures forall x | x in mail :: Lower(x) == Lower(email) ==> x == email
  {
  }

  // ----- the script -----

  class EseriDirectory {
    const domain: string
    var people: People

    constructor (domain: string)
      ensures this.domain == domain && people == map[]
    {
      this.domain := domain;
      people := map[];
    }

    method AddEntry(first: string, last: string, username: string, email: string) returns (end: End)
      modifies this
      ensures people == Step(old(people), first + " " + last, username + "@" + domain, Create(email))
      ensures end == if first + " " + last in old(people) then Failed else Finished
    {
      var cn := first + " " + last;
      if cn in people {
        return Failed;
      }
      people := people[cn := [email]];
      end := Finished;
    }

    /** The handler that is to pass over a failed deletion uses a module the script does not
        import, so that a missing entry is an error after all. */
    method DelEntry(first: string, last: string) returns (end: End)
      modifies this
      ensures forall default :: people == Step(old(people), first + " " + last, default, Delete)
      ensures end == if first + " " + last in old(people) then Finished else Failed
    {
      var cn := first + " " + last;
      end := if cn in people then Finished else Failed;
      people := people - {cn};
    }

    /** `calls` counts this call and those it makes. */
    method AddEmail(first: string, last: string, username: string, email: string, answered: bool, nested: bool)
      returns (end: End, ghost calls: nat)
      requires Valid(people)
      modifies this
      ensures people == Step(old(people), first + " " + last, username + "@" + domain, Add(email, answered, nested))
      ensures Valid(people)
      ensures end == Refused <==> email in Found(old(people), first + " " + last, answered)
      ensures end == Failed <==> email !in Found(old(people), first + " " + last, answered)
                                 && Clash(Found(old(people), first + " " + last, answered), email)
      ensures calls == if Drops(Found(old(people), first + " " + last, answered), email, username + "@" + domain)
                       then 2 else 1
      decreases if first + " " + last in people && people[first + " " + last] != [] then 1 else 0
    {
      hide Without, Valid, Clash;
      var cn, default := first + " " + last, username + "@" + domain;
      StepValid(people, cn, default, Add(email, answered, nested));
      var add, removeDefault := false, false;
      var mail := if answered && cn in people then people[cn] else [];
      if answered && cn in people {
        add := true;
        for i := 0 to |mail|
          invariant email !in mail[..i]
          invariant removeDefault <==> default in mail[..i]
        {
          if mail[i] == email {
            ClashesWithItself(mail, email);
            return Refused, 1;
          }
          if mail[i] == default {
            removeDefault := true;
          }
        }
        assert mail[..|mail|] == mail;
      }
      if add {
        if Clash(mail, email) {
          return Failed, 1;
        }
        StepValid(people, cn, default, Add(email, answered, false));
        people := people[cn := mail + [email]];
      } else {
        NothingClashes(email);
      }
      end, calls := Finished, 1;
      if removeDefault {
        DefaultDropped(mail, email, default);
        end, calls := RemoveEmail(first, last, username, default, nested, nested);
        calls := calls + 1;
      }
    }

    method RemoveEmail(first: string, last: string, username: string, email: string, answered: bool, nested: bool)
      returns (end: End, ghost calls: nat)
      requires Valid(people)
      modifies this
      ensures people == Step(old(people), first + " " + last, username + "@" + domain, Remove(email, answered, nested))
      ensures Valid(people)
      ensures end == Finished
      ensures calls == if Found(old(people), first + " " + last, answered) == [email] then 2 else 1
      decreases if first + " " + last in people && |people[first + " " + last]| == 1 then 1 else 0
    {
      hide Without, Valid, Clash;
      var cn, default := first + " " + last, username + "@" + domain;
      StepValid(people, cn, default, Remove(email, answered, nested));
      var remove, addDefault := false, false;
      var mail := if answered && cn in people then people[cn] else [];
      if answered && cn in people {
        for i := 0 to |mail|
          invariant remove <==> email in mail[..i]
        {
          if mail[i] == email {
            remove := true;
          }
        }
        assert mail[..|mail|] == mail;
        if remove && |mail| == 1 {
          addDefault := true;
        }
      }
      if remove {
        SoleRemoved(mail, email);
        StepValid(people, cn, default, Remove(email, answered, false));
        people := people[cn := Without(mail, email)];
      }
      end, calls := Finished, 1;
      if addDefault {
        NothingClashes(default);
        assert [] + [default] == [default];
        end, calls := AddEmail(first, last, username, default, nested, nested);
        calls := calls + 1;
      }
    }
  }
}
