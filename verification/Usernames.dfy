/** `makeUsername`: a free user name derived from an e-mail prefix. */
module Usernames {
  import opened Text
  import Decimal
  import opened UserTable

  predicate InPool(c: char) { 'a' <= c <= 'z' || '0' <= c <= '9' }

  function Pooled(prefix: string): string {
    if prefix == [] then []
    else Pooled(prefix[..|prefix| - 1])
         + (if InPool(prefix[|prefix| - 1]) then [prefix[|prefix| - 1]] else [])
  }

  function Base(prefix: string): string {
    if |Pooled(prefix)| > 32 then Pooled(prefix)[..32] else Pooled(prefix)
  }

  /** The base with the suffix `n`, cut so that 32 characters suffice. */
  function Candidate(base: string, n: nat): (name: string)
    requires |base| <= 32 && 1 <= n <= 98
    ensures 1 <= |name| <= 32
  {
    Decimal.PrintLength(n);
    (if |base| > 30 then base[..32 - |Decimal.Print(n)|] else base) + Decimal.Print(n)
  }

  predicate Free(db: Database, realm: string, name: string) {
    !UsernameTaken(db, Lower(realm), Lower(name))
  }

  /** The first free candidate from suffix `n` on; 99 gives up. */
  function FirstFree(db: Database, realm: string, base: string, n: nat): string
    requires |base| <= 32 && 1 <= n <= 99
    decreases 99 - n
  {
    if n == 99 then ""
    else if Free(db, realm, Candidate(base, n)) then Candidate(base, n)
    else FirstFree(db, realm, base, n + 1)
  }

  function MadeName(db: Database, prefix: string, realm: string): string {
    if Free(db, realm, Base(prefix)) then Base(prefix) else FirstFree(db, realm, Base(prefix), 1)
  }

  method MakeUsername(db: Database, prefix: string, realm: string) returns (name: string)
    ensures name == MadeName(db, prefix, realm)
  {
    var base := "";
    for i := 0 to |prefix|
      invariant base == Pooled(prefix[..i])
    {
      assert prefix[..i + 1][..i] == prefix[..i];
      if InPool(prefix[i]) {
        base := base + [prefix[i]];
      }
    }
    assert prefix[..|prefix|] == prefix;
    if |base| > 32 {
      base := base[..32];
    }
    var counter := 1;
    name := base;
    while !Free(db, realm, name)
      invariant |base| <= 32 && base == Base(prefix) && 1 <= counter <= 99
      invariant counter == 1 ==> name == base
      invariant counter > 1 ==> name == Candidate(base, counter - 1) && !Free(db, realm, base)
      invariant counter > 1 ==> FirstFree(db, realm, base, 1) == FirstFree(db, realm, base, counter - 1)
      decreases 99 - counter
    {
      if counter == 99 {
        return "";
      }
      name := base;
      var suffix := Decimal.Print(counter);
      Decimal.PrintLength(counter);
      if |name| > 30 {
        name := name[..32 - |suffix|];
      }
      name := name + suffix;
      counter := counter + 1;
    }
  }

  lemma {:induction false} PooledChars(prefix: string)
    ensures forall c | c in Pooled(prefix) :: InPool(c)
  {
    if prefix != [] {
      PooledChars(prefix[..|prefix| - 1]);
    }
  }

  /** The suffix `m` gives the first free candidate among those from `n` on. */
  ghost predicate FirstFreeAt(db: Database, realm: string, base: string, n: nat, m: nat, r: string)
    requires |base| <= 32 && n >= 1
  {
    n <= m <= 98 && r == Candidate(base, m) && Free(db, realm, r)
    && forall l | n <= l < m :: !Free(db, realm, Candidate(base, l))
  }

  lemma {:induction false} NoneFreeExactly(db: Database, realm: string, base: string, n: nat)
    requires |base| <= 32 && 1 <= n <= 99
    ensures FirstFree(db, realm, base, n) == "" <==> forall m | n <= m <= 98 :: !Free(db, realm, Candidate(base, m))
    decreases 99 - n
  {
    hide Free, Candidate;
    if n < 99 {
      NoneFreeExactly(db, realm, base, n + 1);
    }
  }

  lemma {:induction false} FirstFreeExact(db: Database, realm: string, base: string, n: nat)
    requires |base| <= 32 && 1 <= n <= 99 && FirstFree(db, realm, base, n) != ""
    ensures exists m :: FirstFreeAt(db, realm, base, n, m, FirstFree(db, realm, base, n))
    decreases 99 - n
  {
    hide Free, Candidate;
    var r := FirstFree(db, realm, base, n);
    if Free(db, realm, Candidate(base, n)) {
      assert FirstFreeAt(db, realm, base, n, n, r);
    } else {
      FirstFreeExact(db, realm, base, n + 1);
      var m :| FirstFreeAt(db, realm, base, n + 1, m, r);
      assert FirstFreeAt(db, realm, base, n, m, r);
    }
  }

  /** Exactly the letters `a` to `z` and the digits are kept, in their order. */
  lemma {:induction false} PooledKeeps(a: string, b: string)
    ensures Pooled(a + b) == Pooled(a) + Pooled(b)
  {
    if b == "" {
      assert a + b == a;
    } else {
      var n := |b| - 1;
      assert (a + b)[..|a + b| - 1] == a + b[..n];
      PooledKeeps(a, b[..n]);
    }
  }

  lemma PooledOne(c: char)
    ensures Pooled([c]) == if 'a' <= c <= 'z' || '0' <= c <= '9' then [c] else []
  {
    assert [c][..0] == [];
  }

  /** The base is what is kept, cut after 32 characters. */
  lemma BaseIs(prefix: string)
    ensures Base(prefix) <= Pooled(prefix)
    ensures |Base(prefix)| == if |Pooled(prefix)| < 32 then |Pooled(prefix)| else 32
  {
  }

  /** A candidate is the base with the number behind it; the base loses as many characters as
      the number has, and only if it has more than 30. */
  lemma CandidateIs(base: string, n: nat)
    requires |base| <= 32 && 1 <= n <= 98
    ensures var name, digits := Candidate(base, n), Decimal.Print(n);
            var kept := |name| - |digits|;
            && 0 <= kept <= |base| && name[..kept] == base[..kept] && name[kept..] == digits
            && kept == (if |base| > 30 then 32 - |digits| else |base|)
            && |digits| == (if n < 10 then 1 else 2) && Decimal.Read(digits) == n
  {
    Decimal.PrintLength(n);
    Decimal.ReadPrint(n);
  }

  /** The result is empty or a free name over the pool with at most 32 characters, hence in
      lower case. */
  lemma MadeNameIsGood(db: Database, prefix: string, realm: string)
    ensures var r := MadeName(db, prefix, realm);
            r != "" ==> |r| <= 32 && (forall c | c in r :: InPool(c)) && Lower(r) == r
                        && !UsernameTaken(db, Lower(realm), r)
  {
    var base, r := Base(prefix), MadeName(db, prefix, realm);
    PooledChars(prefix);
    assert forall c | c in base :: c in Pooled(prefix);
    if r != "" {
      if !Free(db, realm, base) {
        FirstFreeExact(db, realm, base, 1);
        var m :| FirstFreeAt(db, realm, base, 1, m, r);
        Decimal.PrintLength(m);
        forall c | c in r ensures InPool(c) {
          assert c in base || c in Decimal.Print(m);
        }
      }
      forall i | 0 <= i < |r| ensures LowerChar(r[i]) == r[i] {
        assert InPool(r[i]);
      }
      assert Lower(r) == r;
    }
  }

  /** It gives up exactly when the filtered prefix is empty and free, or the base and all 98
      candidates are taken. */
  lemma GivesUpExactly(db: Database, prefix: string, realm: string)
    ensures MadeName(db, prefix, realm) == "" <==>
            if Free(db, realm, Base(prefix)) then Base(prefix) == ""
            else forall n | 1 <= n <= 98 :: !Free(db, realm, Candidate(Base(prefix), n))
  {
    NoneFreeExactly(db, realm, Base(prefix), 1);
  }

  /** Otherwise it returns the first free one of the base and the candidates. */
  lemma MadeNameExact(db: Database, prefix: string, realm: string)
    requires MadeName(db, prefix, realm) != ""
    ensures var base, r := Base(prefix), MadeName(db, prefix, realm);
            if Free(db, realm, base) then r == base else exists n :: FirstFreeAt(db, realm, base, 1, n, r)
  {
    if !Free(db, realm, Base(prefix)) {
      FirstFreeExact(db, realm, Base(prefix), 1);
    }
  }
}
