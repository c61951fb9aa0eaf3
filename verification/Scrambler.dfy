/** The password scrambler of the NX session file, and a decoder for it. */
module Scrambler {
  import Decimal

  /** The table of valid characters, ten to a row as in the script. */
  const ROWS: seq<string> :=
    ["!#$%&()*+-", ".012345678", "9:;<>?@ABC", "DEFGHIJKLM",
     "NOPQRSTUVW", "XYZ[]_abcd", "efghijklmn", "opqrstuvwx", "yz{|}"]

  const VALID: nat := 85
  const DUMMY: string := "{{{{"

  predicate Ascending(s: string) {
    forall i | 0 < i < |s| :: s[i - 1] < s[i]
  }

  lemma Row(r: nat)
    requires r < |ROWS|
    ensures |ROWS| == 9 && |ROWS[r]| == (if r == 8 then 5 else 10) && Ascending(ROWS[r])
  {
    if r < 5 {
      FirstRows(r);
    } else {
      LastRows(r);
    }
  }

  lemma FirstRows(r: nat)
    requires r < 5
    ensures |ROWS| == 9 && |ROWS[r]| == 10 && Ascending(ROWS[r])
  {
    if r == 0 { assert Ascending("!#$%&()*+-"); }
    else if r == 1 { assert Ascending(".012345678"); }
    else if r == 2 { assert Ascending("9:;<>?@ABC"); }
    else if r == 3 { assert Ascending("DEFGHIJKLM"); }
    else { assert Ascending("NOPQRSTUVW"); }
  }

  lemma LastRows(r: nat)
    requires 5 <= r < |ROWS|
    ensures |ROWS| == 9 && |ROWS[r]| == (if r == 8 then 5 else 10) && Ascending(ROWS[r])
  {
    if r == 5 { assert Ascending("XYZ[]_abcd"); }
    else if r == 6 { assert Ascending("efghijklmn"); }
    else if r == 7 { assert Ascending("opqrstuvwx"); }
    else { assert Ascending("yz{|}"); }
  }

  function ValidChar(pos: nat): char
    requires pos < VALID
  {
    Row(pos / 10);
    ROWS[pos / 10][pos % 10]
  }

  lemma NextChar(i: nat)
    requires i + 1 < VALID
    ensures ValidChar(i) < ValidChar(i + 1)
  {
    Row(i / 10);
    if i % 10 == 9 {
      assert (i + 1) / 10 == i / 10 + 1 && (i + 1) % 10 == 0;
      assert ROWS[0][9] < ROWS[1][0] && ROWS[1][9] < ROWS[2][0] && ROWS[2][9] < ROWS[3][0] && ROWS[3][9] < ROWS[4][0];
      assert ROWS[4][9] < ROWS[5][0] && ROWS[5][9] < ROWS[6][0] && ROWS[6][9] < ROWS[7][0] && ROWS[7][9] < ROWS[8][0];
    } else {
      assert (i + 1) / 10 == i / 10 && (i + 1) % 10 == i % 10 + 1;
    }
  }

  /** The table is strictly ascending, so it holds no character twice. */
  lemma {:induction false} CharsAscend(i: nat, j: nat)
    requires i < j < VALID
    ensures ValidChar(i) < ValidChar(j)
    decreases j
  {
    hide ValidChar;
    NextChar(j - 1);
    if i < j - 1 {
      CharsAscend(i, j - 1);
    }
  }

  function IndexFrom(c: char, j: nat): int
    requires j <= VALID
    decreases VALID - j
  {
    if j == VALID then -1 else if ValidChar(j) == c then j else IndexFrom(c, j + 1)
  }

  function IndexOf(c: char): (i: int) {
    IndexFrom(c, 0)
  }

  lemma {:induction false} IndexFinds(c: char, j: nat, at: nat)
    requires j <= at < VALID && ValidChar(at) == c
    ensures IndexFrom(c, j) == at
    decreases VALID - j
  {
    hide ValidChar;
    if j < at {
      CharsAscend(j, at);
      IndexFinds(c, j + 1, at);
    }
  }

  lemma {:induction false} IndexIsValid(c: char, j: nat)
    requires j <= VALID
    ensures IndexFrom(c, j) == -1 || (j <= IndexFrom(c, j) < VALID && ValidChar(IndexFrom(c, j)) == c)
    decreases VALID - j
  {
    hide ValidChar;
    if j < VALID && ValidChar(j) != c {
      IndexIsValid(c, j + 1);
    }
  }

  /** The characters an encoded and padded password consists of. */
  predicate IsPlain(c: char) {
    Decimal.IsDigit(c) || c == ':' || c == '{'
  }

  lemma PlainIsValid(c: char)
    requires IsPlain(c)
    ensures 0 <= IndexOf(c) < VALID && ValidChar(IndexOf(c)) == c
  {
    var at: nat := if c == '{' then 82 else c as int - '0' as int + 11;
    assert ROWS[1] == ".012345678" && ROWS[2] == "9:;<>?@ABC" && ROWS[8] == "yz{|}";
    assert ValidChar(at) == c;
    IndexFinds(c, 0, at);
  }

  method FindCharInList(c: char) returns (i: int)
    ensures i == IndexOf(c)
  {
    for j := 0 to VALID
      invariant IndexOf(c) == IndexFrom(c, j)
    {
      if ValidChar(j) == c {
        return j;
      }
    }
    return -1;
  }

  method SubstrReplace(str: string, ch: char, pos: nat) returns (r: string)
    ensures r == if pos < |str| then str[pos := ch] else str
  {
    r := "";
    for count := 0 to |str|
      invariant r == (if pos < count then str[pos := ch] else str)[..count]
    {
      r := r + [if count != pos then str[count] else ch];
    }
  }

  // ----- encoding -----

  /** Perl's false strings, for which nothing is scrambled. */
  predicate IsFalse(p: string) {
    p == "" || p == "0"
  }

  /** Each character as its code plus its position from 1, in decimal, ended by a colon. */
  function Fields(p: string, i: nat): string {
    if p == "" then "" else Decimal.Print(p[0] as int + i + 1) + ":" + Fields(p[1..], i + 1)
  }

  function Encoded(p: string): string {
    if IsFalse(p) then "" else ":" + Fields(p, 0)
  }

  lemma {:induction false} FieldsExtend(p: string, c: char, i: nat)
    ensures Fields(p + [c], i) == Fields(p, i) + (Decimal.Print(c as int + i + |p| + 1) + ":")
  {
    hide Decimal.Print;
    if p == "" {
      assert Fields([c], i) == Decimal.Print(c as int + i + 1) + ":" + Fields([c][1..], i + 1);
      assert [c][1..] == "";
    } else {
      FieldsExtend(p[1..], c, i + 1);
      assert (p + [c])[1..] == p[1..] + [c];
    }
  }

  lemma {:induction false} FieldsPlain(p: string, i: nat)
    ensures forall c | c in Fields(p, i) :: Decimal.IsDigit(c) || c == ':'
  {
    if p != "" {
      FieldsPlain(p[1..], i + 1);
    }
  }

  method EncodePassword(p: string) returns (s: string)
    ensures s == Encoded(p)
  {
    if IsFalse(p) {
      return "";
    }
    s := ":";
    for i := 0 to |p|
      invariant s == ":" + Fields(p[..i], 0)
    {
      FieldsExtend(p[..i], p[i], 0);
      assert p[..i + 1] == p[..i] + [p[i]];
      s := s + (Decimal.Print(p[i] as int + i + 1) + ":");
    }
    assert p[..|p|] == p;
  }

  // ----- scrambling -----

  function Reverse(s: string): string {
    if s == "" then "" else Reverse(s[1..]) + [s[0]]
  }

  /** Reversed, with the dummy in front below 32 characters and, if still below, behind. */
  function Padded(enc: string): string {
    var front := (if |enc| < 32 then DUMMY else "") + Reverse(enc);
    if |front| < 32 then front + DUMMY else front
  }

  function Shift(first: char, n: nat): int {
    first as int + n - 2
  }

  /** The pointwise form: position `i` of the padded text becomes the character whose index
      is shifted by `l` times the position in the output plus one. */
  function Shifted(plain: string, l: int): string {
    seq(|plain|, i requires 0 <= i < |plain| => ValidChar((IndexOf(plain[i]) + l * (i + 2)) % VALID))
  }

  function Scrambled(p: string, first: char, last: char): string {
    if IsFalse(p) then p
    else
      var plain := Padded(Encoded(p));
      [first] + Shifted(plain, Shift(first, |plain|)) + [last]
  }

  /** The closing character is two codes above a valid one. */
  function Closing(sec: nat): char
    requires sec < VALID
  {
    IndexIsValid(ValidChar(sec), 0);
    ClosingInRange(sec);
    (ValidChar(sec) as int + 2) as char
  }

  lemma ClosingInRange(sec: nat)
    requires sec < VALID
    ensures ValidChar(sec) as int <= 125
  {
    assert ROWS[8] == "yz{|}";
    assert ValidChar(84) == '}';
    if sec < 84 {
      CharsAscend(sec, 84);
    }
  }

  lemma {:induction false} ReverseExtend(s: string, c: char)
    ensures Reverse(s + [c]) == [c] + Reverse(s)
  {
    if s == "" {
      assert [c][1..] == "";
    } else {
      ReverseExtend(s[1..], c);
      assert (s + [c])[1..] == s[1..] + [c];
    }
  }

  lemma {:induction false} ReverseTwice(s: string)
    ensures |Reverse(s)| == |s| && Reverse(Reverse(s)) == s
  {
    if s != "" {
      ReverseTwice(s[1..]);
      ReverseExtend(Reverse(s[1..]), s[0]);
    }
  }

  lemma {:induction false} ReverseSame(s: string)
    ensures forall c | c in Reverse(s) :: c in s
  {
    if s != "" {
      ReverseSame(s[1..]);
    }
  }

  lemma PaddedPlain(p: string)
    ensures forall c | c in Padded(Encoded(p)) :: IsPlain(c)
  {
    FieldsPlain(p, 0);
    ReverseSame(Encoded(p));
  }

  /** The loop that appends a string back to front. */
  method AppendReversed(front: string, str: string) returns (r: string)
    ensures r == front + Reverse(str)
  {
    r := front;
    var iR := |str| - 1;
    assert str[..|str|] == str;
    while iR >= 0
      invariant -1 <= iR < |str|
      invariant r + Reverse(str[..iR + 1]) == front + Reverse(str)
    {
      ReverseExtend(str[..iR], str[iR]);
      assert str[..iR + 1] == str[..iR] + [str[iR]];
      r := r + [str[iR]];
      iR := iR - 1;
    }
  }

  /** The loop that overwrites the string one position at a time, after its first character.
      The early return for a character outside the table is dead. */
  method ShiftInPlace(plain: string, app: char, l: int) returns (r: string)
    requires forall c | c in plain :: IsPlain(c)
    ensures r == [app] + Shifted(plain, l)
  {
    hide ValidChar, IndexOf, IsPlain;
    ghost var target := Shifted(plain, l);
    r := [app] + plain;
    for i1 := 1 to |r|
      invariant |r| == |plain| + 1
      invariant r == [app] + target[..i1 - 1] + plain[i1 - 1..]
    {
      assert r[i1] == plain[i1 - 1] && plain[i1 - 1] in plain;
      PlainIsValid(plain[i1 - 1]);
      var j := FindCharInList(r[i1]);
      if j == -1 {
        assert false;
      }
      var car := ValidChar((j + l * (i1 + 1)) % VALID);
      assert car == target[i1 - 1];
      r := SubstrReplace(r, car, i1);
    }
    assert target[..|plain|] == target;
  }

  method PadReversed(str: string) returns (r: string)
    ensures r == Padded(str)
  {
    r := "";
    if |str| < 32 {
      r := r + DUMMY;
    }
    r := AppendReversed(r, str);
    if |r| < 32 {
      r := r + DUMMY;
    }
  }

  /** `sec1` and `sec2` are the seconds of the two clock readings. */
  method ScrambleString(s: string, sec1: nat, sec2: nat) returns (r: string)
    requires sec1 < VALID && sec2 < VALID
    ensures r == Scrambled(s, ValidChar(sec1), Closing(sec2))
  {
    hide ValidChar, Closing, Encoded, Padded, IsPlain, Shifted;
    if IsFalse(s) {
      return s;
    }
    var str := EncodePassword(s);
    var plain := PadReversed(str);
    PaddedPlain(s);
    var app := ValidChar(sec1);
    var l := app as int + |plain| - 2;
    r := ShiftInPlace(plain, app, l);
    r := r + [Closing(sec2)];
  }

  /** The padding makes up 8, 4 or no characters; two more are added at the ends. */
  lemma ScrambledLength(p: string, first: char, last: char)
    requires !IsFalse(p)
    ensures var n := |Encoded(p)|;
            |Scrambled(p, first, last)| == n + 2 + (if n < 28 then 8 else if n < 32 then 4 else 0)
  {
    ReverseTwice(Encoded(p));
  }

  // ----- the decoder; it shares nothing with the functions above -----

  /** The character at place `i` of the table, by ranges of codes. */
  function CharAt(i: int): char {
    if i <= 0 then '!'
    else if i < 5 then (34 + i) as char
    else if i < 9 then (35 + i) as char
    else if i < 11 then (36 + i) as char
    else if i < 24 then (37 + i) as char
    else if i < 54 then (38 + i) as char
    else if i == 54 then ']'
    else if i == 55 then '_'
    else if i < 85 then (41 + i) as char
    else '}'
  }

  /** The place of a character in the table, -1 if it has none. */
  function Place(c: char): int {
    if c == '!' then 0
    else if '#' <= c <= '&' then c as int - 34
    else if '(' <= c <= '+' then c as int - 35
    else if '-' <= c <= '.' then c as int - 36
    else if '0' <= c <= '<' then c as int - 37
    else if '>' <= c <= '[' then c as int - 38
    else if c == ']' then 54
    else if c == '_' then 55
    else if 'a' <= c <= '}' then c as int - 41
    else -1
  }

  function CharOf(n: int): char {
    if 0 <= n < 0xD800 || 0xE000 <= n < 0x11_0000 then n as char else '\0'
  }

  function Colon(s: string): nat {
    if s == "" || s[0] == ':' then 0 else 1 + Colon(s[1..])
  }

  lemma {:induction false} ColonIn(s: string)
    ensures Colon(s) <= |s|
  {
    if s != "" {
      ColonIn(s[1..]);
    }
  }

  function ReadFields(s: string, i: nat): string
    decreases |s|
  {
    ColonIn(s);
    var at := Colon(s);
    if at == |s| || (exists c | c in s[..at] :: !Decimal.IsDigit(c)) then ""
    else [CharOf(Decimal.Read(s[..at]) - i - 1)] + ReadFields(s[at + 1..], i + 1)
  }

  /** How far the character at place `i` between the ends was shifted: by the code of the first
      character and the number of those between the ends less two, times its place. */
  function Amount(out: string, i: nat): int
    requires out != ""
  {
    (out[0] as int + (|out| - 2) - 2) * (i + 2)
  }

  function Unshifted(out: string): string
    requires |out| >= 2
  {
    seq(|out| - 2, i requires 0 <= i < |out| - 2 => CharAt((Place(out[i + 1]) - Amount(out, i)) % 85))
  }

  function WithoutDummies(s: string): string {
    if s == "" then "" else (if s[0] == '{' then "" else [s[0]]) + WithoutDummies(s[1..])
  }

  function Backwards(s: string): string {
    seq(|s|, i requires 0 <= i < |s| => s[|s| - 1 - i])
  }

  /** Undo the shift, drop the dummies, read backwards, parse. */
  function Unscrambled(out: string): string {
    if |out| < 2 then out
    else
      var kept := WithoutDummies(Unshifted(out));
      var enc := Backwards(kept);
      if enc == "" then "" else ReadFields(enc[1..], 0)
  }

  // ----- the table -----

  lemma RowChars(r: nat, k: nat)
    requires r < |ROWS| && k < |ROWS[r]|
    ensures ROWS[r][k] == CharAt(10 * r + k)
  {
    Row(r);
    if r == 0 { assert ROWS[0] == "!#$%&()*+-"; }
    else if r == 1 { assert ROWS[1] == ".012345678"; }
    else if r == 2 { assert ROWS[2] == "9:;<>?@ABC"; }
    else if r == 3 { assert ROWS[3] == "DEFGHIJKLM"; }
    else if r == 4 { assert ROWS[4] == "NOPQRSTUVW"; }
    else if r == 5 { assert ROWS[5] == "XYZ[]_abcd"; }
    else if r == 6 { assert ROWS[6] == "efghijklmn"; }
    else if r == 7 { assert ROWS[7] == "opqrstuvwx"; }
    else { assert ROWS[8] == "yz{|}"; }
  }

  /** The table holds the visible characters from `!` to `}` but for eight of them. */
  lemma TableIs(i: nat)
    requires i < VALID
    ensures ValidChar(i) == CharAt(i) && Place(ValidChar(i)) == i
  {
    Row(i / 10);
    RowChars(i / 10, i % 10);
  }

  lemma PlaceInTable(c: char)
    ensures Place(c) == -1 || (0 <= Place(c) < 85 && CharAt(Place(c)) == c)
  {
  }

  lemma PlaceIs(c: char)
    ensures IndexOf(c) == Place(c)
  {
    hide Place, CharAt, ValidChar;
    IndexIsValid(c, 0);
    PlaceInTable(c);
    if IndexOf(c) >= 0 {
      TableIs(IndexOf(c));
    } else if Place(c) >= 0 {
      TableIs(Place(c));
      IndexFinds(c, 0, Place(c));
    }
  }

  /** The closing character is two codes above the one of the second clock reading. */
  lemma ClosingIs(sec: nat)
    requires sec < VALID
    ensures Closing(sec) as int == CharAt(sec) as int + 2
  {
    TableIs(sec);
  }

  // ----- the output, position by position -----

  lemma {:induction false} ReverseAt(s: string, i: nat)
    requires i < |s|
    ensures |Reverse(s)| == |s| && Reverse(s)[i] == s[|s| - 1 - i]
  {
    ReverseTwice(s[1..]);
    if i < |s| - 1 {
      ReverseAt(s[1..], i);
    }
  }

  /** The text that is shifted: the encoded password read backwards, with four dummies in front
      below 32 characters and four behind below 28. */
  lemma PaddedAt(enc: string, i: nat)
    requires i < |enc| + (if |enc| < 32 then 4 else 0) + (if |enc| < 28 then 4 else 0)
    ensures |Padded(enc)| == |enc| + (if |enc| < 32 then 4 else 0) + (if |enc| < 28 then 4 else 0)
    ensures var front := if |enc| < 32 then 4 else 0;
            Padded(enc)[i] == if front <= i < front + |enc| then enc[|enc| - 1 - (i - front)] else '{'
  {
    ReverseTwice(enc);
    var front := if |enc| < 32 then 4 else 0;
    if front <= i < front + |enc| {
      ReverseAt(enc, i - front);
    }
  }

  lemma ShiftedAt(plain: string, l: int, i: nat)
    requires i < |plain|
    ensures Shifted(plain, l)[i] == CharAt((Place(plain[i]) + l * (i + 2)) % 85)
  {
    hide ValidChar, IndexOf, CharAt, Place;
    PlaceIs(plain[i]);
    TableIs((IndexOf(plain[i]) + l * (i + 2)) % VALID);
  }

  lemma Between(p: string, first: char, last: char, i: nat)
    requires !IsFalse(p)
    ensures var out, plain := Scrambled(p, first, last), Padded(Encoded(p));
            && |out| == |plain| + 2 && out[0] == first && out[|out| - 1] == last
            && (i < |plain| ==> out[i + 1] == Shifted(plain, first as int + |plain| - 2)[i])
  {
    hide Padded, Encoded, Shifted;
    var plain := Padded(Encoded(p));
    ShiftedLength(plain, Shift(first, |plain|));
  }

  lemma ShiftedLength(plain: string, l: int)
    ensures |Shifted(plain, l)| == |plain|
  {
  }

  /** Every character of the output: the first and last are given, one in between is shifted by
      the code of the first and the length, times its place. */
  lemma ScrambledAt(p: string, first: char, last: char, i: nat)
    requires !IsFalse(p)
    ensures var out, plain := Scrambled(p, first, last), Padded(Encoded(p));
            && |out| == |plain| + 2 && out[0] == first && out[|out| - 1] == last
            && (i < |plain| ==>
                  out[i + 1] == CharAt((Place(plain[i]) + (first as int + |plain| - 2) * (i + 2)) % 85))
  {
    hide Padded, Encoded, Shifted, Scrambled, CharAt, Place;
    Between(p, first, last, i);
    var plain := Padded(Encoded(p));
    if i < |plain| {
      ShiftedAt(plain, first as int + |plain| - 2, i);
    }
  }

  lemma UnshiftOne(c: char, k: int)
    requires 0 <= IndexOf(c) < VALID && ValidChar(IndexOf(c)) == c
    ensures var d := ValidChar((IndexOf(c) + k) % VALID); ValidChar((IndexOf(d) - k) % VALID) == c
  {
    var j := (IndexOf(c) + k) % VALID;
    IndexFinds(ValidChar(j), 0, j);
    ShiftBack(IndexOf(c), k);
  }

  lemma ShiftBack(a: int, k: int)
    requires 0 <= a < VALID
    ensures ((a + k) % VALID - k) % VALID == a
  {
    var q := (a + k) / VALID;
    assert (a + k) % VALID - k == a - VALID * q;
    ModAdd(a, -q);
  }

  lemma {:induction false} ModAdd(a: int, q: int)
    requires 0 <= a < VALID
    ensures (a + VALID * q) % VALID == a
  {
  }

  lemma {:induction false} DummiesGone(s: string)
    requires '{' !in s
    ensures WithoutDummies(s) == s
  {
    if s != "" {
      assert s[0] in s && forall c | c in s[1..] :: c in s;
      DummiesGone(s[1..]);
    }
  }

  lemma {:induction false} DropDummy(s: string, t: string)
    requires forall c | c in s :: c == '{'
    ensures WithoutDummies(s + t) == WithoutDummies(t)
  {
    if s == "" {
      assert s + t == t;
    } else {
      assert (s + t)[1..] == s[1..] + t && s[0] in s;
      assert forall c | c in s[1..] :: c in s;
      DropDummy(s[1..], t);
    }
  }

  lemma {:induction false} DropLast(s: string, t: string)
    requires forall c | c in t :: c == '{'
    ensures WithoutDummies(s + t) == WithoutDummies(s)
  {
    if s == "" {
      assert s + t == t && t == t + "";
      DropDummy(t, "");
    } else {
      assert (s + t)[1..] == s[1..] + t;
      DropLast(s[1..], t);
    }
  }

  lemma Strips(p: string)
    requires !IsFalse(p)
    ensures WithoutDummies(Padded(Encoded(p))) == Reverse(Encoded(p))
  {
    var rev := Reverse(Encoded(p));
    ReverseTwice(Encoded(p));
    ReverseSame(Encoded(p));
    FieldsPlain(p, 0);
    DummiesGone(rev);
    DropDummy(DUMMY, rev);
    DropLast(rev, DUMMY);
    DropLast(DUMMY + rev, DUMMY);
    assert "" + rev == rev;
  }

  lemma {:induction false} ColonAfter(digits: string, rest: string)
    requires forall c | c in digits :: Decimal.IsDigit(c)
    ensures Colon(digits + ":" + rest) == |digits|
  {
    var s := digits + ":" + rest;
    if digits != "" {
      assert digits[0] in digits;
      assert forall c | c in digits[1..] :: c in digits;
      ColonAfter(digits[1..], rest);
      assert s[1..] == digits[1..] + ":" + rest;
    }
  }

  lemma {:induction false} ReadsFields(p: string, i: nat)
    ensures ReadFields(Fields(p, i), i) == p
  {
    if p != "" {
      var digits, rest := Decimal.Print(p[0] as int + i + 1), Fields(p[1..], i + 1);
      var s := digits + ":" + rest;
      ColonAfter(digits, rest);
      assert s[..|digits|] == digits && s[|digits| + 1..] == rest;
      Decimal.ReadPrint(p[0] as int + i + 1);
      ReadsFields(p[1..], i + 1);
      assert CharOf(p[0] as int) == p[0];
    }
  }

  lemma UnshiftAt(c: char, k: int)
    requires IsPlain(c)
    ensures CharAt((Place(CharAt((Place(c) + k) % 85)) - k) % 85) == c
  {
    hide ValidChar, IndexOf, IsPlain, CharAt, Place;
    PlainIsValid(c);
    UnshiftOne(c, k);
    PlaceIs(c);
    TableIs((IndexOf(c) + k) % VALID);
    var d := ValidChar((IndexOf(c) + k) % VALID);
    PlaceIs(d);
    TableIs((IndexOf(d) - k) % VALID);
  }

  /** The decoder undoes the shift. */
  lemma UnshiftsOut(p: string, first: char, last: char)
    requires !IsFalse(p)
    ensures |Scrambled(p, first, last)| >= 2 && Unshifted(Scrambled(p, first, last)) == Padded(Encoded(p))
  {
    hide IsPlain, Padded, Encoded, Scrambled, CharAt, Place, Amount;
    var plain, out := Padded(Encoded(p)), Scrambled(p, first, last);
    ScrambledAt(p, first, last, 0);
    PaddedPlain(p);
    forall i | 0 <= i < |plain| ensures Unshifted(out)[i] == plain[i] {
      UnshiftsAt(p, first, last, i);
    }
  }

  lemma UnshiftsAt(p: string, first: char, last: char, i: nat)
    requires !IsFalse(p) && i < |Padded(Encoded(p))|
    ensures var out, plain := Scrambled(p, first, last), Padded(Encoded(p));
            |out| == |plain| + 2 && CharAt((Place(out[i + 1]) - Amount(out, i)) % 85) == plain[i]
  {
    var plain, out := Padded(Encoded(p)), Scrambled(p, first, last);
    PaddedPlain(p);
    hide IsPlain, Padded, Encoded, Scrambled, CharAt, Place;
    ScrambledAt(p, first, last, i);
    assert plain[i] in plain;
    UnshiftAt(plain[i], Amount(out, i));
  }

  /** The decoder recovers every password, whatever the two clock readings. */
  lemma RoundTrip(p: string, first: char, last: char)
    ensures Unscrambled(Scrambled(p, first, last)) == p
  {
    if IsFalse(p) {
      assert |p| < 2;
    } else {
      hide Scrambled, Padded, Unshifted, WithoutDummies, Reverse, Backwards, Encoded, Fields, ReadFields;
      UnshiftsOut(p, first, last);
      Strips(p);
      ReverseBackwards(Encoded(p));
      EncodedTail(p);
      ReadsFields(p, 0);
    }
  }

  lemma EncodedTail(p: string)
    requires !IsFalse(p)
    ensures Encoded(p) != "" && Encoded(p)[1..] == Fields(p, 0)
  {
  }

  lemma ReverseBackwards(s: string)
    ensures Backwards(Reverse(s)) == s
  {
    var kept := Reverse(s);
    ReverseTwice(s);
    forall i | 0 <= i < |kept| ensures kept[|kept| - 1 - i] == s[i] {
      ReverseAt(s, |kept| - 1 - i);
    }
  }

  /** Hence different passwords never scramble to the same string. */
  lemma Injective(p: string, q: string, a: char, b: char, c: char, d: char)
    requires Scrambled(p, a, b) == Scrambled(q, c, d)
    ensures p == q
  {
    RoundTrip(p, a, b);
    RoundTrip(q, c, d);
  }
}
