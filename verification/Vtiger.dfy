/** The base64 encoding of section 4 of RFC 4648, and its decoder. */
module Base64 {
  import opened Text

  type Byte = x: int | 0 <= x < 256

  /** The alphabet of section 4 of RFC 4648. */
  function Symbol(v: nat): char
    requires v < 64
  {
    if v < 26 then (v + 65) as char
    else if v < 52 then (v + 71) as char
    else if v < 62 then (v - 4) as char
    else if v == 62 then '+' else '/'
  }

  function Value(c: char): Option<nat> {
    if 'A' <= c <= 'Z' then Some(c as int - 65)
    else if 'a' <= c <= 'z' then Some(c as int - 71)
    else if '0' <= c <= '9' then Some(c as int + 4)
    else if c == '+' then Some(62)
    else if c == '/' then Some(63)
    else None
  }

  /** `encode_base64` with an empty line separator. */
  function Encode(b: seq<Byte>): string {
    if |b| == 0 then ""
    else if |b| == 1 then [Symbol(b[0] / 4), Symbol(b[0] % 4 * 16), '=', '=']
    else if |b| == 2 then [Symbol(b[0] / 4), Symbol(b[0] % 4 * 16 + b[1] / 16), Symbol(b[1] % 16 * 4), '=']
    else [Symbol(b[0] / 4), Symbol(b[0] % 4 * 16 + b[1] / 16), Symbol(b[1] % 16 * 4 + b[2] / 64), Symbol(b[2] % 64)]
         + Encode(b[3..])
  }

  /** The bytes of one group of four symbols; padding is allowed in the last group only. */
  function Group(g: string, last: bool): Option<seq<Byte>>
    requires |g| == 4
  {
    match (Value(g[0]), Value(g[1]), Value(g[2]), Value(g[3]))
    case (Some(w), Some(x), Some(y), Some(z)) =>
      Some([(w * 4 + x / 16) % 256, (x % 16 * 16 + y / 4) % 256, (y % 4 * 64 + z) % 256])
    case (Some(w), Some(x), Some(y), None) =>
      if last && g[3] == '=' then Some([(w * 4 + x / 16) % 256, (x % 16 * 16 + y / 4) % 256]) else None
    case (Some(w), Some(x), None, None) =>
      if last && g[2..] == "==" then Some([(w * 4 + x / 16) % 256]) else None
    case _ => None
  }

  function Decode(s: string): Option<seq<Byte>> {
    if s == "" then Some([])
    else if |s| < 4 then None
    else
      match (Group(s[..4], |s| == 4), Decode(s[4..]))
      case (Some(b), Some(rest)) => Some(b + rest)
      case _ => None
  }

  lemma ValueOfSymbol(v: nat)
    requires v < 64
    ensures Value(Symbol(v)) == Some(v) && Symbol(v) != '='
  {
  }

  /** Four six-bit values put together again. */
  lemma Rejoin(a: Byte, b: Byte, c: Byte)
    ensures (a / 4 * 4 + (a % 4 * 16 + b / 16) / 16) % 256 == a
    ensures ((a % 4 * 16 + b / 16) % 16 * 16 + (b % 16 * 4 + c / 64) / 4) % 256 == b
    ensures ((b % 16 * 4 + c / 64) % 4 * 64 + c % 64) % 256 == c
  {
  }

  lemma GroupOfThree(a: Byte, b: Byte, c: Byte, last: bool)
    ensures Group([Symbol(a / 4), Symbol(a % 4 * 16 + b / 16), Symbol(b % 16 * 4 + c / 64), Symbol(c % 64)], last)
            == Some([a, b, c])
  {
    hide Symbol, Value;
    ValueOfSymbol(a / 4);
    ValueOfSymbol(a % 4 * 16 + b / 16);
    ValueOfSymbol(b % 16 * 4 + c / 64);
    ValueOfSymbol(c % 64);
    Rejoin(a, b, c);
  }

  lemma GroupOfTwo(a: Byte, b: Byte)
    ensures Group([Symbol(a / 4), Symbol(a % 4 * 16 + b / 16), Symbol(b % 16 * 4), '='], true) == Some([a, b])
  {
    ValueOfSymbol(a / 4);
    ValueOfSymbol(a % 4 * 16 + b / 16);
    ValueOfSymbol(b % 16 * 4);
    Rejoin(a, b, 0);
  }

  lemma GroupOfOne(a: Byte)
    ensures Group([Symbol(a / 4), Symbol(a % 4 * 16), '=', '='], true) == Some([a])
  {
    ValueOfSymbol(a / 4);
    ValueOfSymbol(a % 4 * 16);
    Rejoin(a, 0, 0);
    var g := [Symbol(a / 4), Symbol(a % 4 * 16), '=', '='];
    assert g[2..] == "==";
  }

  lemma {:induction false} DecodeEncode(b: seq<Byte>)
    ensures Decode(Encode(b)) == Some(b)
  {
    hide Symbol, Value, Group;
    var s := Encode(b);
    if |b| == 1 {
      GroupOfOne(b[0]);
      assert s[..4] == s && s[4..] == "" && b == [b[0]] + [];
    } else if |b| == 2 {
      GroupOfTwo(b[0], b[1]);
      assert s[..4] == s && s[4..] == "" && b == [b[0], b[1]] + [];
    } else if |b| > 2 {
      GroupOfThree(b[0], b[1], b[2], |s| == 4);
      DecodeEncode(b[3..]);
      assert s[4..] == Encode(b[3..]);
      assert b == [b[0], b[1], b[2]] + b[3..];
    }
  }

  predicate InAlphabet(c: char) {
    Value(c).Some? || c == '='
  }

  lemma SymbolInAlphabet(v: nat)
    requires v < 64
    ensures InAlphabet(Symbol(v))
  {
    ValueOfSymbol(v);
  }

  lemma {:induction false} EncodeShape(b: seq<Byte>)
    ensures |Encode(b)| == (|b| + 2) / 3 * 4 && forall c | c in Encode(b) :: InAlphabet(c)
  {
    hide Symbol, InAlphabet;
    assert InAlphabet('=') by { PadInAlphabet(); }
    if |b| > 0 {
      var x, y := if |b| > 1 then b[1] else 0, if |b| > 2 then b[2] else 0;
      SymbolInAlphabet(b[0] / 4);
      SymbolInAlphabet(b[0] % 4 * 16 + x / 16);
      SymbolInAlphabet(x % 16 * 4 + y / 64);
      SymbolInAlphabet(y % 64);
      if |b| > 2 {
        EncodeShape(b[3..]);
      }
    }
  }

  lemma PadInAlphabet()
    ensures InAlphabet('=')
  {
  }
}

/** The obfuscation of the mail password handed to Vtiger, and its inverse. */
module Vtiger {
  import opened Text
  import opened Base64

  /** The low byte of `pack "S"`: `unpack "B8"` reads the first 8 bits of the packed pair. */
  function PackShort(n: nat): seq<Byte> {
    [n % 256, n / 256 % 256]
  }

  /** The bits of the first byte, highest first, as the codes of `0` and `1`. */
  function UnpackBits(packed: seq<Byte>): seq<Byte>
    requires |packed| > 0
  {
    var b := packed[0];
    [48 + b / 128 % 2, 48 + b / 64 % 2, 48 + b / 32 % 2, 48 + b / 16 % 2,
     48 + b / 8 % 2, 48 + b / 4 % 2, 48 + b / 2 % 2, 48 + b % 2]
  }

  /** Exclusive or with eight ones. */
  function Invert(xs: seq<Byte>): seq<Byte> {
    seq(|xs|, i requires 0 <= i < |xs| => 255 - xs[i])
  }

  function Expand(s: seq<Byte>): seq<Byte> {
    if s == [] then [] else Invert(UnpackBits(PackShort(s[0]))) + Expand(s[1..])
  }

  function TranslateChar(c: char): char {
    if c == '+' then '-' else if c == '/' then '_' else if c == '=' then '.' else c
  }

  function TranslateBackChar(c: char): char {
    if c == '-' then '+' else if c == '_' then '/' else if c == '.' then '=' else c
  }

  function Translate(s: string): string {
    seq(|s|, i requires 0 <= i < |s| => TranslateChar(s[i]))
  }

  function TranslateBack(s: string): string {
    seq(|s|, i requires 0 <= i < |s| => TranslateBackChar(s[i]))
  }

  function Obfuscate(s: seq<Byte>): string {
    Translate(Encode(Expand(s)))
  }

  /** The bit an inverted code stands for. */
  function Bit(code: int): int {
    207 - code
  }

  function Weighed(xs: seq<Byte>): int
    requires |xs| >= 8
  {
    128 * Bit(xs[0]) + 64 * Bit(xs[1]) + 32 * Bit(xs[2]) + 16 * Bit(xs[3])
    + 8 * Bit(xs[4]) + 4 * Bit(xs[5]) + 2 * Bit(xs[6]) + Bit(xs[7])
  }

  predicate BitCodes(xs: seq<Byte>)
    requires |xs| >= 8
  {
    forall i | 0 <= i < 8 :: xs[i] == 206 || xs[i] == 207
  }

  /** Eight inverted bit codes to a byte. */
  function Collapse(xs: seq<Byte>): Option<seq<Byte>> {
    if xs == [] then Some([])
    else if |xs| < 8 || !BitCodes(xs) then None
    else
      match Collapse(xs[8..])
      case None => None
      case Some(rest) =>
        Some([Weighed(xs) % 256] + rest)
  }

  function Deobfuscate(s: string): Option<seq<Byte>> {
    match Decode(TranslateBack(s))
    case None => None
    case Some(bits) => Collapse(bits)
  }

  lemma BitsMakeByte(b: Byte)
    ensures 128 * (b / 128 % 2) + 64 * (b / 64 % 2) + 32 * (b / 32 % 2) + 16 * (b / 16 % 2)
          + 8 * (b / 8 % 2) + 4 * (b / 4 % 2) + 2 * (b / 2 % 2) + b % 2 == b
  {
    Halves(b);
    Halves(b / 2);
    Halves(b / 4);
    Halves(b / 8);
    Halves(b / 16);
    Halves(b / 32);
    Halves(b / 64);
    Quotients(b);
  }

  lemma Halves(n: nat)
    ensures n == 2 * (n / 2) + n % 2
  {
  }

  lemma Quotients(b: Byte)
    ensures b / 2 / 2 == b / 4 && b / 4 / 2 == b / 8 && b / 8 / 2 == b / 16 && b / 16 / 2 == b / 32
    ensures b / 32 / 2 == b / 64 && b / 64 / 2 == b / 128 && b / 128 % 2 == b / 128
  {
  }

  lemma HeadOf(b: Byte)
    ensures var head := Invert(UnpackBits(PackShort(b)));
            |head| == 8 && Weighed(head) == b && BitCodes(head)
  {
    var bits := UnpackBits(PackShort(b));
    var head := Invert(bits);
    assert PackShort(b)[0] == b;
    assert |bits| == 8 && |head| == 8;
    assert Bit(head[0]) == b / 128 % 2 && Bit(head[1]) == b / 64 % 2
           && Bit(head[2]) == b / 32 % 2 && Bit(head[3]) == b / 16 % 2;
    assert Bit(head[4]) == b / 8 % 2 && Bit(head[5]) == b / 4 % 2 && Bit(head[6]) == b / 2 % 2 && Bit(head[7]) == b % 2;
    assert Weighed(head) == b by { BitsMakeByte(b); }
  }

  lemma FirstEight(head: seq<Byte>, rest: seq<Byte>)
    requires |head| == 8
    ensures Weighed(head + rest) == Weighed(head) && BitCodes(head + rest) == BitCodes(head)
            && (head + rest)[8..] == rest
  {
  }

  lemma CollapseOne(head: seq<Byte>, b: Byte, rest: seq<Byte>)
    requires |head| == 8 && Weighed(head) == b && BitCodes(head) && Collapse(rest).Some?
    ensures Collapse(head + rest) == Some([b] + Collapse(rest).value)
  {
    hide Weighed, BitCodes;
    FirstEight(head, rest);
  }

  lemma {:induction false} CollapseExpand(s: seq<Byte>)
    ensures Collapse(Expand(s)) == Some(s) && |Expand(s)| == 8 * |s|
  {
    hide Collapse, Invert, UnpackBits, Weighed, BitCodes;
    if s != [] {
      CollapseExpand(s[1..]);
      HeadOf(s[0]);
      CollapseOne(Invert(UnpackBits(PackShort(s[0]))), s[0], Expand(s[1..]));
      assert s == [s[0]] + s[1..];
    } else {
      CollapseNone();
    }
  }

  lemma CollapseNone()
    ensures Collapse([]) == Some([])
  {
  }

  lemma TranslateInverts(s: string)
    requires forall c | c in s :: InAlphabet(c)
    ensures TranslateBack(Translate(s)) == s
  {
    forall i | 0 <= i < |s| ensures TranslateBack(Translate(s))[i] == s[i] {
      assert InAlphabet(s[i]);
    }
  }

  /** Every password is recovered from its obfuscation. */
  lemma RoundTrip(s: seq<Byte>)
    ensures Deobfuscate(Obfuscate(s)) == Some(s)
  {
    EncodeShape(Expand(s));
    TranslateInverts(Encode(Expand(s)));
    DecodeEncode(Expand(s));
    CollapseExpand(s);
  }

  /** The obfuscated text is safe in an address: letters, digits, `-`, `_` and `.`, four
      characters for every three of the `8 |s|` bit codes. */
  lemma Shape(s: seq<Byte>)
    ensures |Obfuscate(s)| == 4 * ((8 * |s| + 2) / 3)
    ensures forall c | c in Obfuscate(s) :: 'a' <= c <= 'z' || 'A' <= c <= 'Z' || '0' <= c <= '9' || c in "-_."
  {
    EncodeShape(Expand(s));
    CollapseExpand(s);
    forall c | c in Obfuscate(s) ensures 'a' <= c <= 'z' || 'A' <= c <= 'Z' || '0' <= c <= '9' || c in "-_." {
      var i :| 0 <= i < |Obfuscate(s)| && Obfuscate(s)[i] == c;
      assert InAlphabet(Encode(Expand(s))[i]);
    }
  }
}
