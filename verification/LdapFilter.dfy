/** Escaping of a value before it is placed in an LDAP search filter. */
module LdapFilter {

  /** One search/replace pair of `str_replace`: every occurrence of the character `c`
      becomes the string `sub`; what is inserted is not looked at again in this pass. */
  function Replace(s: string, c: char, sub: string): string {
    if s == [] then [] else (if s[0] == c then sub else [s[0]]) + Replace(s[1..], c, sub)
  }

  const NUL: char := '\0'

  /** `str_replace` with arrays runs the pairs one after the other, each on the result of
      the pair before it. The backslash pair is fourth, so it also rewrites the
      backslashes that the first three pairs put in. */
  function Escape(s: string): string {
    Replace(Replace(Replace(Replace(Replace(s, '*', "\\2a"), '(', "\\28"), ')', "\\29"), '\\', "\\5c"), NUL, "\\00")
  }

  /** What the five passes do to one character of the input. */
  function EscapeChar(c: char): string {
    if c == '*' then "\\5c2a"
    else if c == '(' then "\\5c28"
    else if c == ')' then "\\5c29"
    else if c == '\\' then "\\5c"
    else if c == NUL then "\\00"
    else [c]
  }

  function EscapeEach(s: string): string {
    if s == [] then [] else EscapeChar(s[0]) + EscapeEach(s[1..])
  }

  lemma {:induction false} ReplaceConcat(a: string, b: string, c: char, sub: string)
    ensures Replace(a + b, c, sub) == Replace(a, c, sub) + Replace(b, c, sub)
  {
    if a == [] {
      assert a + b == b;
    } else {
      var first := if a[0] == c then sub else [a[0]];
      assert (a + b)[1..] == a[1..] + b;
      assert Replace(a + b, c, sub) == first + Replace(a[1..] + b, c, sub);
      assert Replace(a, c, sub) == first + Replace(a[1..], c, sub);
      hide Replace;
      ReplaceConcat(a[1..], b, c, sub);
    }
  }

  lemma EscapeConcat(a: string, b: string)
    ensures Escape(a + b) == Escape(a) + Escape(b)
  {
    var a1, b1 := Replace(a, '*', "\\2a"), Replace(b, '*', "\\2a");
    ReplaceConcat(a, b, '*', "\\2a");
    var a2, b2 := Replace(a1, '(', "\\28"), Replace(b1, '(', "\\28");
    ReplaceConcat(a1, b1, '(', "\\28");
    var a3, b3 := Replace(a2, ')', "\\29"), Replace(b2, ')', "\\29");
    ReplaceConcat(a2, b2, ')', "\\29");
    var a4, b4 := Replace(a3, '\\', "\\5c"), Replace(b3, '\\', "\\5c");
    ReplaceConcat(a3, b3, '\\', "\\5c");
    ReplaceConcat(a4, b4, NUL, "\\00");
  }

  lemma ReplaceOne(x: char, c: char, sub: string)
    ensures Replace([x], c, sub) == if x == c then sub else [x]
  {
    assert [x][1..] == [];
    assert Replace([x], c, sub) == (if x == c then sub else [x]) + Replace([], c, sub);
  }

  lemma ReplaceThree(x: char, y: char, z: char, c: char, sub: string)
    ensures Replace([x, y, z], c, sub)
         == (if x == c then sub else [x]) + (if y == c then sub else [y]) + (if z == c then sub else [z])
  {
    assert [x, y, z] == [x] + ([y] + [z]);
    ReplaceConcat([x], [y] + [z], c, sub);
    ReplaceConcat([y], [z], c, sub);
    ReplaceOne(x, c, sub);
    ReplaceOne(y, c, sub);
    ReplaceOne(z, c, sub);
  }

  lemma EscapeSpecial(c: char, digit: char)
    requires (c == '*' && digit == 'a') || (c == '(' && digit == '8') || (c == ')' && digit == '9')
    ensures Escape([c]) == ['\\', '5', 'c', '2', digit]
  {
    hide Replace;
    var seen := ['\\', '2', digit];
    ReplaceOne(c, '*', "\\2a");
    ReplaceOne(c, '(', "\\28");
    ReplaceOne(c, ')', "\\29");
    ReplaceThree('\\', '2', digit, '(', "\\28");
    ReplaceThree('\\', '2', digit, ')', "\\29");
    ReplaceThree('\\', '2', digit, '\\', "\\5c");
    assert Replace(seen, '(', "\\28") == seen && Replace(seen, ')', "\\29") == seen;
    var r4 := ['\\', '5', 'c'] + (['2'] + [digit]);
    assert Replace(seen, '\\', "\\5c") == r4;
    ReplaceConcat(['\\', '5', 'c'], ['2'] + [digit], NUL, "\\00");
    ReplaceThree('\\', '5', 'c', NUL, "\\00");
    ReplaceConcat(['2'], [digit], NUL, "\\00");
    ReplaceOne('2', NUL, "\\00");
    ReplaceOne(digit, NUL, "\\00");
  }

  lemma EscapeOne(c: char)
    ensures Escape([c]) == EscapeChar(c)
  {
    if c in ['*', '(', ')'] {
      EscapeSpecial(c, if c == '*' then 'a' else if c == '(' then '8' else '9');
    } else {
      ReplaceOne(c, '*', "\\2a");
      ReplaceOne(c, '(', "\\28");
      ReplaceOne(c, ')', "\\29");
      ReplaceOne(c, '\\', "\\5c");
      ReplaceOne(c, NUL, "\\00");
      ReplaceThree('\\', '5', 'c', NUL, "\\00");
    }
  }

  /** The five passes are one pass with a fixed image for every character. */
  lemma {:induction false} FivePassesAreOne(s: string)
    ensures Escape(s) == EscapeEach(s)
  {
    if s != [] {
      assert s == [s[0]] + s[1..];
      EscapeConcat([s[0]], s[1..]);
      EscapeOne(s[0]);
      FivePassesAreOne(s[1..]);
    }
  }

  // ----- the assertion value of section 4 of RFC 2254 -----

  predicate IsHex(c: char) {
    '0' <= c <= '9' || 'a' <= c <= 'f' || 'A' <= c <= 'F'
  }

  function HexValue(c: char): nat
    requires IsHex(c)
  {
    if c <= '9' then c as int - '0' as int
    else if c <= 'F' then c as int - 'A' as int + 10
    else c as int - 'a' as int + 10
  }

  /** No bare special character, and two hexadecimal digits after every backslash. */
  predicate WellFormed(v: string) {
    v == []
    || (v[0] == '\\' && |v| >= 3 && IsHex(v[1]) && IsHex(v[2]) && WellFormed(v[3..]))
    || (v[0] !in ['*', '(', ')', '\\', NUL] && WellFormed(v[1..]))
  }

  /** How the server reads a well-formed value. */
  function Unescape(v: string): string
    requires WellFormed(v)
  {
    if v == [] then []
    else if v[0] == '\\' then [(16 * HexValue(v[1]) + HexValue(v[2])) as char] + Unescape(v[3..])
    else [v[0]] + Unescape(v[1..])
  }

  /** What the server compares with: the doubly escaped three arrive as an escape
      sequence in plain text. */
  function ArriveChar(c: char): string {
    if c == '*' then "\\2a" else if c == '(' then "\\28" else if c == ')' then "\\29" else [c]
  }

  function Arrives(s: string): string {
    if s == [] then [] else ArriveChar(s[0]) + Arrives(s[1..])
  }

  lemma {:induction false} ReadPlain(a: char, rest: string)
    requires WellFormed(rest) && a !in ['*', '(', ')', '\\', NUL]
    ensures WellFormed([a] + rest) && Unescape([a] + rest) == [a] + Unescape(rest)
  {
    assert ([a] + rest)[1..] == rest;
  }

  lemma {:induction false} ReadHex(h: char, l: char, rest: string)
    requires WellFormed(rest) && IsHex(h) && IsHex(l)
    ensures WellFormed(['\\', h, l] + rest)
    ensures Unescape(['\\', h, l] + rest) == [(16 * HexValue(h) + HexValue(l)) as char] + Unescape(rest)
  {
    assert (['\\', h, l] + rest)[3..] == rest;
  }

  lemma {:induction false} ReadSpecial(c: char, digit: char, rest: string)
    requires WellFormed(rest)
    requires (c == '*' && digit == 'a') || (c == '(' && digit == '8') || (c == ')' && digit == '9')
    ensures WellFormed(EscapeChar(c) + rest) && Unescape(EscapeChar(c) + rest) == ArriveChar(c) + Unescape(rest)
  {
    hide WellFormed, Unescape;
    ReadPlain(digit, rest);
    ReadPlain('2', [digit] + rest);
    ReadHex('5', 'c', ['2'] + ([digit] + rest));
    assert EscapeChar(c) + rest == ['\\', '5', 'c'] + (['2'] + ([digit] + rest));
    assert ArriveChar(c) + Unescape(rest) == ['\\'] + (['2'] + ([digit] + Unescape(rest)));
  }

  lemma {:induction false} ReadOne(c: char, rest: string)
    requires WellFormed(rest)
    ensures WellFormed(EscapeChar(c) + rest) && Unescape(EscapeChar(c) + rest) == ArriveChar(c) + Unescape(rest)
  {
    if c in ['*', '(', ')'] {
      ReadSpecial(c, if c == '*' then 'a' else if c == '(' then '8' else '9', rest);
    } else if c == '\\' {
      ReadHex('5', 'c', rest);
    } else if c == NUL {
      ReadHex('0', '0', rest);
    } else {
      ReadPlain(c, rest);
    }
  }

  lemma {:induction false} EscapeEachRead(s: string)
    ensures WellFormed(EscapeEach(s)) && Unescape(EscapeEach(s)) == Arrives(s)
  {
    if s != [] {
      EscapeEachRead(s[1..]);
      ReadOne(s[0], EscapeEach(s[1..]));
    }
  }

  /** Every escaped string is a well-formed assertion value. */
  lemma EscapeWellFormed(s: string)
    ensures WellFormed(Escape(s)) && Unescape(Escape(s)) == Arrives(s)
  {
    FivePassesAreOne(s);
    EscapeEachRead(s);
  }

  lemma {:induction false} ArrivesLength(s: string)
    ensures |Arrives(s)| >= |s|
    ensures '*' in s || '(' in s || ')' in s ==> |Arrives(s)| > |s|
    ensures Arrives(s) == s <==> '*' !in s && '(' !in s && ')' !in s
  {
    if s != [] {
      ArrivesLength(s[1..]);
      assert s == [s[0]] + s[1..];
      if s[0] in ['*', '(', ')'] {
        assert |Arrives(s)| >= 3 + |s[1..]|;
      } else {
        assert Arrives(s)[1..] == Arrives(s[1..]);
      }
    }
  }

  /** The server reads back the value that was meant exactly when it holds no `*`, `(`
      or `)`: those three are escaped twice. */
  lemma RoundTripExactly(s: string)
    ensures WellFormed(Escape(s))
    ensures Unescape(Escape(s)) == s <==> '*' !in s && '(' !in s && ')' !in s
  {
    EscapeWellFormed(s);
    ArrivesLength(s);
  }
}
