/** The password change on the default keyring: all secrets are rewritten, every `[0]` block
    is cut out of the file by line number, and one new block is appended. */
module Keyring {
  const HEADER: string := "[0]"
  const SECRET: string := "secret="
  const BLOCK_LINES: nat := 26

  // ----- lines -----

  predicate OccursAt(line: string, pat: string, i: nat) {
    i + |pat| <= |line| && line[i..i + |pat|] == pat
  }

  /** What `grep` looks for. */
  predicate HasHeader(line: string) {
    exists i: nat | i < |line| :: OccursAt(line, HEADER, i)
  }

  /** The first `secret=` of a line, or its length. */
  function SecretAt(line: string): (i: nat)
    ensures i <= |line|
  {
    if line == "" then 0
    else if OccursAt(line, SECRET, 0) then 0
    else 1 + SecretAt(line[1..])
  }

  /** `sed 's|secret=.*|secret=...|'` on one line. */
  function SetSecret(line: string, password: string): string {
    if SecretAt(line) == |line| then line else line[..SecretAt(line)] + SECRET + password
  }

  function SetSecrets(lines: seq<string>, password: string): seq<string> {
    seq(|lines|, i requires 0 <= i < |lines| => SetSecret(lines[i], password))
  }

  // ----- the file -----

  predicate NoHeader(lines: seq<string>) {
    forall l | l in lines :: !HasHeader(l)
  }

  /** The header with nothing but blanks behind it: what `sed` leaves of the `grep` output is
      then a line number. */
  predicate Standalone(line: string) {
    OccursAt(line, HEADER, 0) && forall i | |HEADER| <= i < |line| :: line[i] == ' ' || line[i] == '\t'
  }

  predicate HeadersExact(lines: seq<string>) {
    forall l | l in lines && HasHeader(l) :: Standalone(l)
  }

  function Headers(lines: seq<string>): nat {
    if lines == [] then 0 else (if HasHeader(lines[0]) then 1 else 0) + Headers(lines[1..])
  }

  /** Index of the first header line; `grep -in` prints it counted from 1. */
  function FirstHeader(lines: seq<string>): (i: nat)
    ensures i <= |lines| && (i < |lines| ==> HasHeader(lines[i])) && NoHeader(lines[..i])
    ensures i == |lines| ==> NoHeader(lines)
  {
    if lines == [] then 0
    else if HasHeader(lines[0]) then 0
    else
      var i := FirstHeader(lines[1..]);
      assert lines[..i + 1] == [lines[0]] + lines[1..][..i];
      assert i + 1 == |lines| ==> lines == lines[..i + 1];
      i + 1
  }

  /** `awk` drops the lines numbered `m` to `m + 25`. */
  function Cut(lines: seq<string>, at: nat): seq<string>
    requires at <= |lines|
  {
    lines[..at] + if at + BLOCK_LINES <= |lines| then lines[at + BLOCK_LINES..] else []
  }

  function StripBlank(lines: seq<string>): (r: seq<string>)
    ensures r <= lines
  {
    if lines == [] then [] else if lines[|lines| - 1] == "" then StripBlank(lines[..|lines| - 1]) else lines
  }

  /** `printf '%s\n' "$(cat file)"`: no trailing blank lines, but at least one line. */
  function Printed(lines: seq<string>): seq<string> {
    if StripBlank(lines) == [] then [""] else StripBlank(lines)
  }

  lemma {:induction false} HeadersConcat(a: seq<string>, b: seq<string>)
    ensures Headers(a + b) == Headers(a) + Headers(b)
  {
    if a == [] {
      assert a + b == b;
    } else {
      HeadersConcat(a[1..], b);
      assert (a + b)[1..] == a[1..] + b;
    }
  }

  lemma BlankHasNoHeader()
    ensures !HasHeader("")
  {
  }

  lemma {:induction false} NoHeaderCount(lines: seq<string>)
    ensures Headers(lines) == 0 <==> NoHeader(lines)
  {
    if lines != [] {
      NoHeaderCount(lines[1..]);
      assert lines == [lines[0]] + lines[1..];
    }
  }

  lemma HeadersInCut(lines: seq<string>, at: nat)
    requires at < |lines| && HasHeader(lines[at])
    ensures Headers(Cut(lines, at)) < Headers(lines)
  {
    hide HasHeader;
    var tail := if at + BLOCK_LINES <= |lines| then lines[at + BLOCK_LINES..] else [];
    var gone := if at + BLOCK_LINES <= |lines| then lines[at + 1..at + BLOCK_LINES] else lines[at + 1..];
    assert lines == lines[..at] + ([lines[at]] + (gone + tail));
    OneLine(lines[at]);
    hide Headers;
    HeadersConcat(lines[..at], [lines[at]] + (gone + tail));
    HeadersConcat([lines[at]], gone + tail);
    HeadersConcat(gone, tail);
    HeadersConcat(lines[..at], tail);
  }

  lemma OneLine(line: string)
    ensures Headers([line]) == if HasHeader(line) then 1 else 0
  {
    hide HasHeader;
    assert [line][1..] == [];
  }

  lemma PrintedHeaders(lines: seq<string>)
    ensures Headers(Printed(lines)) <= Headers(lines)
    ensures forall l | l in Printed(lines) :: l == "" || l in lines
  {
    BlankHasNoHeader();
    hide HasHeader;
    var r := StripBlank(lines);
    HeadersConcat(r, lines[|r|..]);
    assert lines == r + lines[|r|..];
    assert Headers([""]) == Headers([""][1..]);
  }

  /** One round of the loop removes at least the first header. */
  lemma CutShrinks(lines: seq<string>)
    requires !NoHeader(lines)
    ensures Headers(Printed(Cut(lines, FirstHeader(lines)))) < Headers(lines)
    ensures HeadersExact(lines) ==> HeadersExact(Printed(Cut(lines, FirstHeader(lines))))
  {
    BlankHasNoHeader();
    hide HasHeader, Printed;
    var at := FirstHeader(lines);
    HeadersInCut(lines, at);
    PrintedHeaders(Cut(lines, at));
    forall l | l in Cut(lines, at) ensures l in lines {
    }
  }

  /** The file when the loop ends, or when it meets a header that does not stand alone. */
  function Purged(lines: seq<string>): seq<string>
    decreases Headers(lines)
  {
    if NoHeader(lines) || !Standalone(lines[FirstHeader(lines)]) then lines
    else
      CutShrinks(lines);
      Purged(Printed(Cut(lines, FirstHeader(lines))))
  }

  lemma {:induction false} PurgeFinishes(lines: seq<string>)
    ensures HeadersExact(lines) ==> NoHeader(Purged(lines))
    decreases Headers(lines)
  {
    if !NoHeader(lines) && HeadersExact(lines) {
      CutShrinks(lines);
      assert lines[FirstHeader(lines)] in lines;
      PurgeFinishes(Printed(Cut(lines, FirstHeader(lines))));
    }
  }

  /** The account the block is for, as it appears in the keyring. */
  datatype Account = Account(display: string, server: string, user: string)

  function Block(a: Account, password: string): seq<string> {
    ["[0]", "item-type=0", "display-name=" + a.display, "secret=" + password, "mtime=1292615328", "ctime=0", "",
     "[0:attribute0]", "name=application", "type=string", "value=Evolution", "",
     "[0:attribute1]", "name=protocol", "type=string", "value=imap", "",
     "[0:attribute2]", "name=server", "type=string", "value=" + a.server, "",
     "[0:attribute3]", "name=user", "type=string", "value=" + a.user]
  }

  function Changed(lines: seq<string>, a: Account, password: string): seq<string> {
    Purged(SetSecrets(lines, password)) + ([""] + Block(a, password) + [""])
  }

  class KeyringFile {
    var lines: seq<string>

    constructor (content: seq<string>)
      ensures lines == content
    {
      lines := content;
    }

    /** The endless loop with its `last`. A first header that does not stand alone gives no
        line number to cut at; what the commands then do is not part of this model. */
    method RemoveBlocks() returns (finished: bool)
      modifies this
      ensures lines == Purged(old(lines)) && (finished <==> NoHeader(lines))
      ensures HeadersExact(old(lines)) ==> finished
    {
      PurgeFinishes(lines);
      while true
        invariant Purged(lines) == Purged(old(lines))
        decreases Headers(lines)
      {
        var lineStart := FirstHeader(lines);
        if lineStart < |lines| {
          if !Standalone(lines[lineStart]) {
            return false;
          }
          CutShrinks(lines);
          lines := Cut(lines, lineStart);
          lines := Printed(lines);
        } else {
          return true;
        }
      }
    }

    method ChangePassword(a: Account, password: string) returns (finished: bool)
      modifies this
      ensures finished <==> NoHeader(Purged(SetSecrets(old(lines), password)))
      ensures finished ==> lines == Changed(old(lines), a, password)
      ensures !finished ==> lines == Purged(SetSecrets(old(lines), password))
    {
      lines := SetSecrets(lines, password);
      finished := RemoveBlocks();
      if finished {
        lines := lines + ([""] + Block(a, password) + [""]);
      }
    }
  }

  // ----- what the loop leaves -----

  /** A block as the scripts write it. */
  ghost predicate IsBlock(b: seq<string>) {
    |b| == BLOCK_LINES && b[0] == HEADER && NoHeader(b[1..]) && b[BLOCK_LINES - 1] != ""
  }

  ghost predicate AreBlocks(bs: seq<seq<string>>) {
    forall b | b in bs :: IsBlock(b)
  }

  /** Appended blocks: each between two blank lines, less the last blank line. */
  function Joined(bs: seq<seq<string>>): seq<string> {
    if bs == [] then []
    else if |bs| == 1 then [""] + bs[0]
    else [""] + bs[0] + [""] + Joined(bs[1..])
  }

  function Blanks(n: nat): seq<string> {
    seq(n, i => "")
  }

  lemma {:induction false} StripBlanks(lines: seq<string>, n: nat)
    ensures StripBlank(lines + Blanks(n)) == StripBlank(lines)
  {
    if n == 0 {
      assert lines + Blanks(0) == lines;
    } else {
      StripBlanks(lines, n - 1);
      var all := lines + Blanks(n);
      assert all[..|all| - 1] == lines + Blanks(n - 1) && all[|all| - 1] == "";
    }
  }

  lemma {:induction false} JoinedEnd(bs: seq<seq<string>>)
    requires bs != [] && AreBlocks(bs)
    ensures |Joined(bs)| > BLOCK_LINES && Joined(bs)[|Joined(bs)| - 1] != ""
  {
    assert bs[0] in bs;
    if |bs| > 1 {
      JoinedEnd(bs[1..]);
    }
  }

  lemma {:induction false} FirstHeaderIs(lines: seq<string>, at: nat)
    requires at < |lines| && HasHeader(lines[at]) && NoHeader(lines[..at])
    ensures FirstHeader(lines) == at
  {
    hide HasHeader;
    if at > 0 {
      assert lines[0] in lines[..at];
      forall l | l in lines[1..][..at - 1] ensures l in lines[..at] {
      }
      FirstHeaderIs(lines[1..], at - 1);
    }
  }

  lemma HeaderIsHeader()
    ensures HasHeader(HEADER) && Standalone(HEADER)
  {
    assert OccursAt(HEADER, HEADER, 0);
  }

  /** Cutting at the first header takes out exactly the first block. */
  lemma CutFirst(prefix: seq<string>, b: seq<string>, rest: seq<string>)
    requires NoHeader(prefix) && IsBlock(b)
    ensures var lines := prefix + [""] + b + rest;
            !NoHeader(lines) && FirstHeader(lines) == |prefix| + 1 && Standalone(lines[|prefix| + 1])
            && Cut(lines, |prefix| + 1) == prefix + [""] + rest
  {
    var lines, at := prefix + [""] + b + rest, |prefix| + 1;
    HeaderIsHeader();
    BlankHasNoHeader();
    assert lines[at] == HEADER && lines[at] in lines;
    assert lines[..at] == prefix + [""];
    FirstHeaderIs(lines, at);
    assert lines[at + BLOCK_LINES..] == rest;
  }

  /** One round of the loop on a file whose next block is `b`. */
  lemma PurgeOne(prefix: seq<string>, b: seq<string>, rest: seq<string>)
    requires NoHeader(prefix) && IsBlock(b)
    ensures Purged(prefix + [""] + b + rest) == Purged(Printed(prefix + [""] + rest))
  {
    hide HasHeader, NoHeader, IsBlock, Printed, Cut, Standalone;
    CutFirst(prefix, b, rest);
    CutShrinks(prefix + [""] + b + rest);
  }

  lemma PurgedClean(lines: seq<string>)
    requires NoHeader(lines)
    ensures Purged(lines) == lines
  {
  }

  lemma LastBlock(base: seq<string>, b: seq<string>, n: nat)
    requires NoHeader(base) && IsBlock(b)
    ensures Purged(base + Joined([b]) + Blanks(n)) == Printed(base)
  {
    hide HasHeader, NoHeader, IsBlock, Purged, StripBlank;
    assert base + Joined([b]) + Blanks(n) == base + [""] + b + Blanks(n);
    PurgeOne(base, b, Blanks(n));
    assert base + [""] + Blanks(n) == base + Blanks(n + 1);
    StripBlanks(base, n + 1);
    PrintedNoHeader(base);
    PurgedClean(Printed(base));
  }

  lemma Regroup<T>(a: seq<T>, x: seq<T>, b: seq<T>, t: seq<T>, e: seq<T>)
    ensures a + (x + b + x + t) + e == a + x + b + (x + t + e)
  {
  }

  lemma TwoBlanks(a: seq<string>, t: seq<string>, e: seq<string>)
    ensures a + [""] + ([""] + t + e) == a + Blanks(2) + t + e && a + Blanks(0) == a
  {
    assert Blanks(2) == ["", ""];
  }

  lemma PrintedTail(lines: seq<string>, tail: seq<string>, n: nat)
    requires tail != [] && tail[|tail| - 1] != ""
    ensures Printed(lines + tail + Blanks(n)) == lines + tail
  {
    var all := lines + tail;
    assert all[|all| - 1] == tail[|tail| - 1];
    StripBlanks(all, n);
  }

  /** With another block behind it, cutting a block leaves two blank lines in its place. */
  lemma NextBlock(base: seq<string>, b: seq<string>, tail: seq<string>, n: nat)
    requires NoHeader(base) && IsBlock(b) && tail != [] && tail[|tail| - 1] != ""
    ensures Purged(base + ([""] + b + [""] + tail) + Blanks(n)) == Purged(base + Blanks(2) + tail + Blanks(0))
  {
    hide HasHeader, NoHeader, IsBlock, Purged, Printed, Blanks;
    Regroup(base, [""], b, tail, Blanks(n));
    PurgeOne(base, b, [""] + tail + Blanks(n));
    TwoBlanks(base, tail, Blanks(n));
    PrintedTail(base + Blanks(2), tail, n);
    TwoBlanks(base + Blanks(2) + tail, [], []);
  }

  /** For any number of appended blocks the loop leaves exactly the rest of the file without
      its trailing blank lines. */
  lemma {:induction false} PurgeLeavesBase(base: seq<string>, bs: seq<seq<string>>, n: nat)
    requires NoHeader(base) && bs != [] && AreBlocks(bs)
    ensures Purged(base + Joined(bs) + Blanks(n)) == Printed(base)
    decreases |bs|
  {
    assert bs[0] in bs;
    BlankHasNoHeader();
    hide HasHeader, IsBlock, Purged;
    if |bs| == 1 {
      assert bs == [bs[0]];
      LastBlock(base, bs[0], n);
    } else {
      JoinedEnd(bs[1..]);
      NextBlock(base, bs[0], Joined(bs[1..]), n);
      PurgeLeavesBase(base + Blanks(2), bs[1..], 0);
      StripBlanks(base, 2);
    }
  }

  lemma PrintedNoHeader(lines: seq<string>)
    requires NoHeader(lines)
    ensures NoHeader(Printed(lines))
  {
    BlankHasNoHeader();
  }

  /** A header is found wherever it stands in a line. */
  lemma HeaderAnywhere(line: string)
    ensures HasHeader(line) <==> exists a, b :: line == a + "[0]" + b
  {
    if HasHeader(line) {
      var i: nat :| i < |line| && OccursAt(line, HEADER, i);
      assert line == line[..i] + "[0]" + line[i + 3..];
    }
    if exists a, b :: line == a + "[0]" + b {
      var a, b :| line == a + "[0]" + b;
      assert line[|a|..|a| + 3] == "[0]";
      assert OccursAt(line, HEADER, |a|);
    }
  }

  /** The loop gets no further than a first header with other text than blanks behind it, or
      with text before it. */
  lemma StopsAt(lines: seq<string>)
    requires !NoHeader(lines)
    requires var l := lines[FirstHeader(lines)];
             |l| < 3 || l[..3] != "[0]" || exists i | 3 <= i < |l| :: l[i] != ' ' && l[i] != '\t'
    ensures Purged(lines) == lines
  {
    assert forall l: string | |l| >= 3 :: l[0..3] == l[..3];
  }

  // ----- rewriting the secrets -----

  lemma {:induction false} SecretFound(line: string)
    requires SecretAt(line) < |line|
    ensures OccursAt(line, SECRET, SecretAt(line))
  {
    if !OccursAt(line, SECRET, 0) {
      SecretFound(line[1..]);
      var i := SecretAt(line[1..]);
      assert line[1..][i..i + |SECRET|] == line[i + 1..i + 1 + |SECRET|];
    }
  }

  lemma JoinNoHeader(a: string, b: string)
    requires !HasHeader(a) && !HasHeader(b) && a != "" && a[|a| - 1] == '='
    ensures !HasHeader(a + b)
  {
    forall i: nat | i < |a + b| ensures !OccursAt(a + b, HEADER, i) {
      if i + 3 <= |a| {
        assert (a + b)[i..i + 3] == a[i..i + 3];
        assert !OccursAt(a, HEADER, i);
      } else if |a| <= i && i + 3 <= |a + b| {
        assert (a + b)[i..i + 3] == b[i - |a|..i - |a| + 3];
        assert !OccursAt(b, HEADER, i - |a|);
      } else if i + 3 <= |a + b| {
        var k := |a| - 1 - i;
        assert 0 <= k < 3 && (a + b)[i..i + 3][k] == a[|a| - 1];
        assert HEADER[k] != '=';
      }
    }
  }

  lemma PrefixNoHeader(line: string, n: nat)
    requires n <= |line| && !HasHeader(line)
    ensures !HasHeader(line[..n])
  {
    forall i: nat | i < n ensures !OccursAt(line[..n], HEADER, i) {
      assert !OccursAt(line, HEADER, i);
      assert i + 3 <= n ==> line[..n][i..i + 3] == line[i..i + 3];
    }
  }

  lemma SetSecretNoHeader(line: string, password: string)
    requires !HasHeader(line) && !HasHeader(password)
    ensures !HasHeader(SetSecret(line, password))
  {
    var i := SecretAt(line);
    if i < |line| {
      SecretFound(line);
      assert line[..i] + SECRET == line[..i + |SECRET|];
      PrefixNoHeader(line, i + |SECRET|);
      JoinNoHeader(line[..i + |SECRET|], password);
    }
  }

  lemma TailOf(a: string, b: string)
    requires a != ""
    ensures (a + b)[1..] == a[1..] + b
  {
  }

  lemma {:induction false} SecretStays(line: string, password: string)
    requires SecretAt(line) < |line|
    ensures SecretAt(line[..SecretAt(line)] + SECRET + password) == SecretAt(line)
  {
    var i := SecretAt(line);
    var changed := line[..i] + SECRET + password;
    SecretFound(line);
    assert changed[..i + |SECRET|] == line[..i + |SECRET|];
    SamePrefix(changed, line, i + |SECRET|);
    if i > 0 {
      assert SecretAt(line[1..]) == i - 1;
      SecretStays(line[1..], password);
      assert line[..i][1..] == line[1..][..i - 1];
      TailOf(line[..i], SECRET + password);
      assert changed == line[..i] + (SECRET + password);
      assert changed[1..] == line[1..][..i - 1] + (SECRET + password);
      assert changed[1..] == line[1..][..i - 1] + SECRET + password;
    }
  }

  lemma SamePrefix(s: string, t: string, n: nat)
    requires |SECRET| <= n <= |s| && n <= |t| && s[..n] == t[..n]
    ensures OccursAt(s, SECRET, 0) == OccursAt(t, SECRET, 0)
  {
    assert s[0..|SECRET|] == s[..n][0..|SECRET|];
    assert t[0..|SECRET|] == t[..n][0..|SECRET|];
  }

  /** The newest password wins. */
  lemma SetSecretTwice(line: string, p: string, q: string)
    ensures SetSecret(SetSecret(line, p), q) == SetSecret(line, q)
  {
    if SecretAt(line) < |line| {
      SecretStays(line, p);
      assert SetSecret(line, p)[..SecretAt(line)] == line[..SecretAt(line)];
    }
  }

  lemma SetSecretsTwice(lines: seq<string>, p: string, q: string)
    ensures SetSecrets(SetSecrets(lines, p), q) == SetSecrets(lines, q)
  {
    forall i | 0 <= i < |lines| ensures SetSecrets(SetSecrets(lines, p), q)[i] == SetSecrets(lines, q)[i] {
      SetSecretTwice(lines[i], p, q);
    }
  }

  lemma {:induction false} SetSecretsStrip(lines: seq<string>, p: string)
    ensures StripBlank(SetSecrets(lines, p)) == SetSecrets(StripBlank(lines), p)
  {
    if lines != [] {
      var n := |lines| - 1;
      assert SetSecrets(lines, p)[n] == "" <==> lines[n] == "";
      if lines[n] == "" {
        SetSecretsStrip(lines[..n], p);
        assert SetSecrets(lines, p)[..n] == SetSecrets(lines[..n], p);
      }
    }
  }

  lemma {:induction false} StripTwice(lines: seq<string>)
    ensures StripBlank(StripBlank(lines)) == StripBlank(lines)
  {
    if lines != [] && lines[|lines| - 1] == "" {
      StripTwice(lines[..|lines| - 1]);
    }
  }

  /** What earlier changes did to the base does not show after a later one. */
  lemma BaseForgets(base: seq<string>, p: string, q: string)
    ensures Printed(SetSecrets(Printed(SetSecrets(base, p)), q)) == Printed(SetSecrets(base, q))
  {
    var first := SetSecrets(base, p);
    SetSecretsTwice(base, p, q);
    SetSecretsStrip(first, q);
    SetSecretsStrip(StripBlank(first), q);
    StripTwice(first);
    assert SetSecrets([""], q) == [""];
    assert StripBlank([""]) == StripBlank([""][..0]);
  }

  lemma SetSecretsNoHeader(lines: seq<string>, p: string)
    requires NoHeader(lines) && !HasHeader(p)
    ensures NoHeader(SetSecrets(lines, p))
  {
    forall l | l in SetSecrets(lines, p) ensures !HasHeader(l) {
      var i :| 0 <= i < |lines| && SetSecrets(lines, p)[i] == l;
      SetSecretNoHeader(lines[i], p);
    }
  }

  lemma SetSecretsBlock(b: seq<string>, p: string)
    requires IsBlock(b) && !HasHeader(p)
    ensures IsBlock(SetSecrets(b, p))
  {
    SetSecretsNoHeader(b[1..], p);
    assert SetSecrets(b, p)[1..] == SetSecrets(b[1..], p);
    assert SecretAt(HEADER) == 3;
  }

  function SetAll(bs: seq<seq<string>>, p: string): seq<seq<string>> {
    seq(|bs|, i requires 0 <= i < |bs| => SetSecrets(bs[i], p))
  }

  lemma SetSecretsConcat(a: seq<string>, b: seq<string>, p: string)
    ensures SetSecrets(a + b, p) == SetSecrets(a, p) + SetSecrets(b, p)
  {
  }

  lemma {:induction false} SetSecretsJoined(bs: seq<seq<string>>, p: string)
    requires AreBlocks(bs) && !HasHeader(p)
    ensures SetSecrets(Joined(bs), p) == Joined(SetAll(bs, p)) && AreBlocks(SetAll(bs, p))
  {
    if bs != [] {
      assert bs[0] in bs;
      SetSecretsBlock(bs[0], p);
      assert SetSecrets([""], p) == [""];
      SetSecretsConcat([""], bs[0], p);
      if |bs| > 1 {
        SetSecretsJoined(bs[1..], p);
        assert SetAll(bs, p)[1..] == SetAll(bs[1..], p);
        SetSecretsConcat([""] + bs[0], [""], p);
        SetSecretsConcat([""] + bs[0] + [""], Joined(bs[1..]), p);
      }
      forall b | b in SetAll(bs, p) ensures IsBlock(b) {
        var i :| 0 <= i < |bs| && SetAll(bs, p)[i] == b;
        SetSecretsBlock(bs[i], p);
      }
    }
  }

  // ----- password changes -----

  predicate GoodAccount(a: Account) {
    !HasHeader(a.display) && !HasHeader(a.server) && !HasHeader(a.user)
  }

  lemma NoBracket(line: string)
    requires '[' !in line
    ensures !HasHeader(line)
  {
    forall i: nat | i < |line| ensures !OccursAt(line, HEADER, i) {
      assert i + 3 <= |line| ==> line[i..i + 3][0] == line[i];
    }
  }

  lemma AttributeLine(line: string)
    requires |line| > 3 && line[0] == '[' && line[2] == ':' && '[' !in line[1..]
    ensures !HasHeader(line)
  {
    forall i: nat | i < |line| ensures !OccursAt(line, HEADER, i) {
      assert i > 0 ==> line[i] == line[1..][i - 1];
      assert i + 3 <= |line| ==> line[i..i + 3][0] == line[i];
      assert line[0..3][2] == ':';
    }
  }

  lemma NumberLines()
    ensures !HasHeader("item-type=0") && !HasHeader("mtime=1292615328") && !HasHeader("ctime=0") && !HasHeader("")
    ensures !HasHeader("display-name=") && !HasHeader("secret=") && !HasHeader("value=")
  {
    hide HasHeader;
    NoBracket("item-type=0");
    NoBracket("mtime=1292615328");
    NoBracket("ctime=0");
    NoBracket("");
    NoBracket("display-name=");
    NoBracket("secret=");
    NoBracket("value=");
  }

  lemma NameLines()
    ensures !HasHeader("name=application") && !HasHeader("name=protocol")
            && !HasHeader("name=server") && !HasHeader("name=user")
    ensures !HasHeader("type=string") && !HasHeader("value=Evolution") && !HasHeader("value=imap")
  {
    hide HasHeader;
    NoBracket("name=application");
    NoBracket("name=protocol");
    NoBracket("name=server");
    NoBracket("name=user");
    NoBracket("type=string");
    NoBracket("value=Evolution");
    NoBracket("value=imap");
  }

  lemma AttributeLines()
    ensures !HasHeader("[0:attribute0]") && !HasHeader("[0:attribute1]")
            && !HasHeader("[0:attribute2]") && !HasHeader("[0:attribute3]")
  {
    hide HasHeader;
    AttributeLine("[0:attribute0]");
    AttributeLine("[0:attribute1]");
    AttributeLine("[0:attribute2]");
    AttributeLine("[0:attribute3]");
  }

  lemma BlockIsBlock(a: Account, password: string)
    requires GoodAccount(a) && !HasHeader(password)
    ensures IsBlock(Block(a, password))
  {
    hide HasHeader;
    NumberLines();
    NameLines();
    AttributeLines();
    JoinNoHeader("display-name=", a.display);
    JoinNoHeader("secret=", password);
    JoinNoHeader("value=", a.server);
    JoinNoHeader("value=", a.user);
  }

  lemma ChangeOnce(base: seq<string>, bs: seq<seq<string>>, n: nat, a: Account, p: string)
    requires NoHeader(base) && bs != [] && AreBlocks(bs) && !HasHeader(p)
    ensures Changed(base + Joined(bs) + Blanks(n), a, p) == Printed(SetSecrets(base, p)) + ([""] + Block(a, p) + [""])
  {
    SetSecretsConcat(base + Joined(bs), Blanks(n), p);
    SetSecretsConcat(base, Joined(bs), p);
    SetSecretsJoined(bs, p);
    SetSecretsNoHeader(base, p);
    assert SetSecrets(Blanks(n), p) == Blanks(n);
    PurgeLeavesBase(SetSecrets(base, p), SetAll(bs, p), n);
  }

  /** The loop comes to its end on every keyring of this shape. */
  lemma ShapeFinishes(base: seq<string>, bs: seq<seq<string>>, n: nat, p: string)
    requires NoHeader(base) && AreBlocks(bs) && !HasHeader(p)
    ensures HeadersExact(SetSecrets(base + Joined(bs) + Blanks(n), p))
    ensures NoHeader(Purged(SetSecrets(base + Joined(bs) + Blanks(n), p)))
  {
    SetSecretsConcat(base + Joined(bs), Blanks(n), p);
    SetSecretsConcat(base, Joined(bs), p);
    SetSecretsJoined(bs, p);
    SetSecretsNoHeader(base, p);
    JoinedExact(SetAll(bs, p));
    BlankHasNoHeader();
    assert SetSecrets(Blanks(n), p) == Blanks(n);
    PurgeFinishes(SetSecrets(base + Joined(bs) + Blanks(n), p));
  }

  lemma {:induction false} JoinedExact(bs: seq<seq<string>>)
    requires AreBlocks(bs)
    ensures HeadersExact(Joined(bs))
  {
    BlankHasNoHeader();
    hide HasHeader;
    if bs != [] {
      assert bs[0] in bs && bs[0] == [HEADER] + bs[0][1..];
      JoinedExact(bs[1..]);
    }
  }

  /** The file after a series of password changes. */
  function AfterChanges(lines: seq<string>, a: Account, passwords: seq<string>): seq<string>
    decreases |passwords|
  {
    if passwords == [] then lines else AfterChanges(Changed(lines, a, passwords[0]), a, passwords[1..])
  }

  /** After any number of password changes on a keyring with any number of appended blocks,
      the file is the base with the newest password in every secret, without its trailing
      blank lines, followed by one block: the newest. */
  lemma {:induction false} NewestBlockOnly(base: seq<string>, bs: seq<seq<string>>,
                                           n: nat, a: Account, passwords: seq<string>)
    requires NoHeader(base) && bs != [] && AreBlocks(bs) && GoodAccount(a)
    requires passwords != [] && forall p | p in passwords :: !HasHeader(p)
    ensures var last := passwords[|passwords| - 1];
            AfterChanges(base + Joined(bs) + Blanks(n), a, passwords)
            == Printed(SetSecrets(base, last)) + ([""] + Block(a, last) + [""])
    decreases |passwords|
  {
    hide HasHeader, Changed, Printed, Block, IsBlock, SetSecrets;
    var p := passwords[0];
    assert p in passwords;
    var changed := Printed(SetSecrets(base, p));
    ChangeOnce(base, bs, n, a, p);
    if |passwords| > 1 {
      BlockIsBlock(a, p);
      SetSecretsNoHeader(base, p);
      PrintedNoHeader(SetSecrets(base, p));
      assert changed + ([""] + Block(a, p) + [""]) == changed + Joined([Block(a, p)]) + Blanks(1);
      NewestBlockOnly(changed, [Block(a, p)], 1, a, passwords[1..]);
      BaseForgets(base, p, passwords[|passwords| - 1]);
    }
  }

  /** On a keyring without a block the first change only appends. */
  lemma FirstBlock(base: seq<string>, a: Account, p: string)
    requires NoHeader(base) && !HasHeader(p)
    ensures Changed(base, a, p) == SetSecrets(base, p) + ([""] + Block(a, p) + [""])
  {
    SetSecretsNoHeader(base, p);
  }

  /** Such a file has exactly one header line. */
  lemma OneHeader(base: seq<string>, a: Account, p: string)
    requires NoHeader(base) && GoodAccount(a) && !HasHeader(p)
    ensures Headers(Printed(SetSecrets(base, p)) + ([""] + Block(a, p) + [""])) == 1
  {
    SetSecretsNoHeader(base, p);
    PrintedNoHeader(SetSecrets(base, p));
    BlockIsBlock(a, p);
    BlankHasNoHeader();
    HeaderIsHeader();
    hide HasHeader;
    var kept, b := Printed(SetSecrets(base, p)), Block(a, p);
    NoHeaderCount(kept);
    NoHeaderCount(b[1..]);
    NoHeaderCount([""]);
    HeadersConcat(kept, [""] + b + [""]);
    HeadersConcat([""] + b, [""]);
    HeadersConcat([""], b);
  }

  // ----- the secrets -----

  /** `secret=` occurs first at `i`. */
  predicate FirstSecret(line: string, i: nat) {
    OccursAt(line, "secret=", i) && forall j: nat | j < i :: !OccursAt(line, "secret=", j)
  }

  lemma {:induction false} SecretAtIsFirst(line: string, i: nat)
    requires FirstSecret(line, i)
    ensures SecretAt(line) == i && i < |line|
  {
    if i > 0 {
      forall j: nat | j < i ensures OccursAt(line[1..], SECRET, j) == OccursAt(line, SECRET, j + 1) {
        ShiftOccurs(line, j);
      }
      ShiftOccurs(line, i - 1);
      assert !OccursAt(line, SECRET, 0);
      assert FirstSecret(line[1..], i - 1);
      SecretAtIsFirst(line[1..], i - 1);
    }
  }

  lemma ShiftOccurs(line: string, j: nat)
    requires line != ""
    ensures OccursAt(line[1..], SECRET, j) == OccursAt(line, SECRET, j + 1)
  {
    if j + 1 + |SECRET| <= |line| {
      assert line[1..][j..j + |SECRET|] == line[j + 1..j + 1 + |SECRET|];
    }
  }

  lemma {:induction false} SecretAtExists(line: string)
    requires SecretAt(line) < |line|
    ensures FirstSecret(line, SecretAt(line))
  {
    SecretFound(line);
    if !OccursAt(line, SECRET, 0) {
      SecretAtExists(line[1..]);
      forall j: nat | j < SecretAt(line) ensures !OccursAt(line, SECRET, j) {
        if j > 0 {
          ShiftOccurs(line, j - 1);
        }
      }
    }
  }

  /** One line: behind its first `secret=` stands exactly the password, in front of it nothing
      has changed; a line without one stays as it is. */
  lemma SecretLine(line: string, password: string)
    ensures (forall i: nat :: !OccursAt(line, "secret=", i)) ==> SetSecret(line, password) == line
    ensures forall i: nat | FirstSecret(line, i) :: SetSecret(line, password) == line[..i + 7] + password
  {
    if SecretAt(line) < |line| {
      SecretAtExists(line);
    }
    forall i: nat | FirstSecret(line, i) ensures SetSecret(line, password) == line[..i + 7] + password {
      SecretAtIsFirst(line, i);
      assert line[..i] + SECRET == line[..i + 7];
    }
  }

  /** What stands behind the first `secret=` of the line, if there is one. */
  ghost predicate Holds(line: string, password: string) {
    forall i: nat | FirstSecret(line, i) :: line[i + 7..] == password
  }

  lemma RewrittenHolds(line: string, password: string)
    ensures Holds(SetSecret(line, password), password)
  {
    var changed := SetSecret(line, password);
    if SecretAt(line) < |line| {
      SecretStays(line, password);
    }
    forall i: nat | FirstSecret(changed, i) ensures changed[i + 7..] == password {
      SecretAtIsFirst(changed, i);
      assert changed == line[..i] + SECRET + password;
    }
  }

  predicate NoSecret(line: string) {
    forall i: nat | i < |line| :: !OccursAt(line, "secret=", i)
  }

  lemma LacksSecret(line: string, c: char)
    requires c in "secret=" && c !in line
    ensures NoSecret(line)
  {
    var k :| 0 <= k < 7 && "secret="[k] == c;
    forall i: nat | i < |line| ensures !OccursAt(line, "secret=", i) {
      assert i + 7 <= |line| ==> line[i..i + 7][k] == line[i + k];
    }
  }

  lemma JoinNoSecret(a: string, b: string)
    requires NoSecret(a) && NoSecret(b) && a != "" && a[|a| - 1] == '='
    ensures NoSecret(a + b)
  {
    forall i: nat | i < |a + b| ensures !OccursAt(a + b, "secret=", i) {
      if i + 7 <= |a| {
        assert (a + b)[i..i + 7] == a[i..i + 7];
        assert !OccursAt(a, "secret=", i);
      } else if i >= |a| {
        assert i + 7 <= |a + b| ==> (a + b)[i..i + 7] == b[i - |a|..i - |a| + 7];
        assert !OccursAt(b, "secret=", i - |a|);
      } else if i + 7 <= |a + b| {
        var k := |a| - 1 - i;
        assert 0 <= k < 6 && (a + b)[i..i + 7][k] == a[|a| - 1];
        assert "secret="[k] != '=';
      }
    }
  }

  /** Nothing in the account reads like a secret. */
  predicate PlainAccount(a: Account) {
    NoSecret(a.display) && NoSecret(a.server) && NoSecret(a.user)
  }

  lemma FixedLines()
    ensures forall l | l in {"[0]", "item-type=0", "mtime=1292615328", "", "[0:attribute0]",
                             "type=string", "value=Evolution",
                             "[0:attribute1]", "value=imap", "[0:attribute2]", "name=server",
                             "[0:attribute3]", "name=user",
                             "display-name=", "value="} :: 'c' !in l
    ensures forall l | l in {"ctime=0", "name=application", "name=protocol"} :: 's' !in l
  {
  }

  /** Which line of the appended block says what. */
  lemma BlockFields(a: Account, password: string)
    ensures var b := Block(a, password);
            && |b| == 26 && b[0] == "[0]" && b[2] == "display-name=" + a.display && b[3] == "secret=" + password
            && b[1] == "item-type=0" && b[4] == "mtime=1292615328" && b[5] == "ctime=0"
            && b[6] == "" && b[11] == "" && b[16] == "" && b[21] == ""
            && b[9] == "type=string" && b[14] == "type=string" && b[19] == "type=string" && b[24] == "type=string"
            && b[7] == "[0:attribute0]" && b[8] == "name=application" && b[10] == "value=Evolution"
            && b[12] == "[0:attribute1]" && b[13] == "name=protocol" && b[15] == "value=imap"
            && b[17] == "[0:attribute2]" && b[18] == "name=server" && b[20] == "value=" + a.server
            && b[22] == "[0:attribute3]" && b[23] == "name=user" && b[25] == "value=" + a.user
  {
  }

  lemma SecretItself(password: string)
    ensures Holds("secret=" + password, password)
  {
    var line := "secret=" + password;
    assert |"secret="| == 7 && line[..7] == "secret=" && line[7..] == password;
    assert OccursAt(line, "secret=", 0);
    forall i: nat | FirstSecret(line, i) ensures i == 0 {
    }
  }

  lemma BlockHolds(a: Account, password: string)
    requires PlainAccount(a)
    ensures forall l | l in Block(a, password) :: Holds(l, password)
  {
    hide OccursAt, Holds;
    LacksSecret("display-name=", 'c');
    LacksSecret("value=", 'c');
    JoinNoSecret("display-name=", a.display);
    JoinNoSecret("value=", a.server);
    JoinNoSecret("value=", a.user);
    FixedLines();
    SecretItself(password);
    forall l | l in Block(a, password) && l != "secret=" + password ensures Holds(l, password) {
      if 'c' !in l {
        LacksSecret(l, 'c');
      } else if 's' !in l {
        LacksSecret(l, 's');
      }
      NoneHolds(l, password);
    }
  }

  lemma NoneHolds(line: string, password: string)
    requires NoSecret(line)
    ensures Holds(line, password)
  {
  }

  /** After any number of changes every line of the file that holds `secret=` ends in the newest
      password, the appended block included. */
  lemma NewestEverywhere(base: seq<string>, bs: seq<seq<string>>, n: nat, a: Account, passwords: seq<string>)
    requires NoHeader(base) && bs != [] && AreBlocks(bs) && GoodAccount(a) && PlainAccount(a)
    requires passwords != [] && forall p | p in passwords :: !HasHeader(p)
    ensures var last := passwords[|passwords| - 1];
            forall l | l in AfterChanges(base + Joined(bs) + Blanks(n), a, passwords) :: Holds(l, last)
  {
    hide HasHeader, Block, IsBlock, Holds, Changed, SetSecret, Printed, AfterChanges, Joined, GoodAccount, PlainAccount;
    var last := passwords[|passwords| - 1];
    NewestBlockOnly(base, bs, n, a, passwords);
    BlockHolds(a, last);
    LacksSecret("", 'c');
    NoneHolds("", last);
    PrintedHeaders(SetSecrets(base, last));
    forall l | l in SetSecrets(base, last) ensures Holds(l, last) {
      var i :| 0 <= i < |base| && SetSecrets(base, last)[i] == l;
      RewrittenHolds(base[i], last);
    }
  }
}
