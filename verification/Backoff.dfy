/** The retry loops of the communication module. An oracle gives the outcome of every
    command; sleeping adds to the time slept; `exit` ends the whole process. */
module Backoff {

  function Pow2(n: nat): nat {
    if n == 0 then 1 else 2 * Pow2(n - 1)
  }

  /** How a call ends: it returns, or the process exits. */
  datatype End = Returned | Exited

  datatype Outcome = Done | NoConnection | OtherError

  /** End, seconds slept, and rounds of the outer loop. */
  datatype Report = Report(end: End, slept: nat, rounds: nat)

  lemma Powers()
    ensures Pow2(0) == 1 && Pow2(8) == 256 && Pow2(9) == 512 && Pow2(10) == 1024 && Pow2(11) == 2048 && Pow2(12) == 4096
  {
    assert Pow2(4) == 16;
    assert Pow2(8) == 256;
    assert Pow2(10) == 1024;
  }

  lemma {:induction false} PowGrows(m: nat, n: nat)
    requires m <= n
    ensures Pow2(m) <= Pow2(n)
    decreases n
  {
    if m < n {
      PowGrows(m, n - 1);
    }
  }

  /** The waiting time passes 1000 seconds at the ninth failure and 3600 at the eleventh. */
  lemma Limits(n: nat)
    ensures n <= 8 ==> (Pow2(n + 2) > 1000 <==> n == 8)
    ensures n <= 10 ==> (Pow2(n + 2) > 3600 <==> n == 10)
  {
    Powers();
    if n < 8 {
      PowGrows(n + 2, 9);
    } else if n < 10 {
      PowGrows(n + 2, 11);
    }
  }

  lemma Doubles(n: nat)
    ensures Pow2(n + 1) == 2 * Pow2(n)
  {
  }

  // ----- ssh_key -----

  /** Key scans that fail before the first one that succeeds, nine at most; the search is at
      scan `i`. */
  function Failures(scan: nat -> bool, i: nat): (n: nat)
    requires i <= 9
    ensures i <= n <= 9 && (n < 9 ==> scan(n)) && forall j | i <= j < n :: !scan(j)
    decreases 9 - i
  {
    if i == 9 || scan(i) then i else Failures(scan, i + 1)
  }

  /** What the loop of `ssh_key` comes to in closed form: after `n` failures it has slept
      2^(n+1) - 2 seconds, and it gives up at the ninth. */
  function KeyReport(scan: nat -> bool): (r: Report)
    ensures r.end == Returned ==> r.slept <= 510
    ensures r.end == Exited ==> r.slept == 1022
  {
    var n := Failures(scan, 0);
    Powers();
    PowGrows(1, n + 1);
    if n == 9 then Report(Exited, Pow2(10) - 2, 9)
    else
      PowGrows(n + 1, 9);
      Report(Returned, Pow2(n + 1) - 2, n + 1)
  }

  method SshKey(scan: nat -> bool) returns (r: Report)
    ensures r == KeyReport(scan)
    ensures r.end == Exited <==> forall i: nat | i < 9 :: !scan(i)
    ensures r.end == Returned ==> 1 <= r.rounds && scan(r.rounds - 1) && forall i: nat | i < r.rounds - 1 :: !scan(i)
    ensures r.end == Returned ==> r.slept == Pow2(r.rounds) - 2 && r.rounds <= 9
    ensures r.end == Exited ==> r.slept == 1022 && r.rounds == 9
  {
    var done := false;
    var sleepTime: nat, slept: nat, failed: nat := 2, 0, 0;
    while !done
      invariant failed <= 8 && sleepTime == Pow2(failed + 1) && slept == sleepTime - 2
      invariant (forall i: nat | i < failed :: !scan(i)) && Failures(scan, 0) == Failures(scan, failed)
      invariant done ==> scan(failed)
      decreases !done, 9 - failed
    {
      if scan(failed) {
        done := true;
      } else {
        slept := slept + sleepTime;
        sleepTime := sleepTime * 2;
        Limits(failed);
        failed := failed + 1;
        if sleepTime > 1000 {
          return Report(Exited, slept, failed);
        }
      }
    }
    r := Report(Returned, slept, failed + 1);
  }

  // ----- the outer loops -----

  /** One round of `ssh` or `scp` before its waiting time: it ends the call, or it is to be
      tried again. `slept` is what the key scans of the round took. */
  datatype Round = Stop(end: End, slept: nat) | Again(slept: nat)

  /** The rounds from `n` on, after `n` rounds that were to be tried again: the wait is
      2^(n+1) seconds, and the eleventh failure exits. */
  function From(round: nat -> Round, n: nat): Report
    requires n <= 10
    decreases 10 - n
  {
    match round(n)
    case Stop(end, slept) => Report(end, slept, 1)
    case Again(slept) =>
      if n == 10 then Report(Exited, slept + Pow2(n + 1), 1) else Then(slept + Pow2(n + 1), From(round, n + 1))
  }

  function Then(slept: nat, rest: Report): Report {
    Report(rest.end, slept + rest.slept, rest.rounds + 1)
  }

  lemma FromStep(round: nat -> Round, n: nat)
    requires n <= 10
    ensures round(n).Stop? ==> From(round, n) == Report(round(n).end, round(n).slept, 1)
    ensures round(n).Again? && n == 10 ==> From(round, n) == Report(Exited, round(n).slept + Pow2(n + 1), 1)
    ensures round(n).Again? && n < 10 ==>
              var rest := From(round, n + 1);
              From(round, n) == Report(rest.end, round(n).slept + Pow2(n + 1) + rest.slept, rest.rounds + 1)
  {
  }

  lemma {:induction false} FromBound(round: nat -> Round, each: nat, n: nat)
    requires n <= 10 && forall m: nat :: round(m).slept <= if round(m).Again? then each else each + 2048
    ensures From(round, n).rounds <= 11 - n && From(round, n).slept + Pow2(n + 1) <= 4096 + each * (11 - n)
    decreases 10 - n
  {
    hide Pow2;
    Powers();
    Doubles(n + 1);
    PowGrows(n + 1, 11);
    assert each * (11 - n) == each * (10 - n) + each;
    if n < 10 {
      FromBound(round, each, n + 1);
    }
  }

  lemma {:induction false} FromWorst(round: nat -> Round, each: nat, n: nat)
    requires n <= 10 && forall m: nat :: round(m) == Again(each)
    ensures From(round, n).end == Exited && From(round, n).rounds == 11 - n
    ensures From(round, n).slept + Pow2(n + 1) == 4096 + each * (11 - n)
    decreases 10 - n
  {
    Powers();
    assert each * (11 - n) == each * (10 - n) + each;
    if n < 10 {
      FromWorst(round, each, n + 1);
    }
  }

  ghost predicate ReturnsAt(round: nat -> Round, n: nat, k: nat) {
    round(k).Stop? && round(k).end == Returned && forall j: nat | n <= j < k :: round(j).Again?
  }

  lemma {:induction false} FromReturns(round: nat -> Round, n: nat)
    requires n <= 10
    ensures From(round, n).end == Returned <==> exists k: nat | n <= k <= 10 :: ReturnsAt(round, n, k)
    decreases 10 - n
  {
    if round(n).Stop? {
      assert round(n).end == Returned ==> ReturnsAt(round, n, n);
    } else if n < 10 {
      FromReturns(round, n + 1);
      if From(round, n + 1).end == Returned {
        var k: nat :| n + 1 <= k <= 10 && ReturnsAt(round, n + 1, k);
        assert ReturnsAt(round, n, k);
      }
      forall k: nat | n <= k <= 10 && ReturnsAt(round, n, k) ensures ReturnsAt(round, n + 1, k) {
      }
    }
  }

  /** What the key scans of the rounds `n` to `k` took. */
  function ScanTime(round: nat -> Round, n: nat, k: nat): nat
    requires n <= k
    decreases k - n
  {
    round(n).slept + if n == k then 0 else ScanTime(round, n + 1, k)
  }

  /** A call that returns in round `k`, counted from 0, has made `k + 1` attempts and slept
      2^(k+1) - 2 seconds besides its key scans. */
  lemma {:induction false} ReturnTakes(round: nat -> Round, n: nat, k: nat)
    requires n <= k <= 10 && ReturnsAt(round, n, k)
    ensures Pow2(n + 1) <= Pow2(k + 1)
    ensures From(round, n) == Report(Returned, Pow2(k + 1) - Pow2(n + 1) + ScanTime(round, n, k), k - n + 1)
    decreases k - n
  {
    PowGrows(n + 1, k + 1);
    if n < k {
      assert ReturnsAt(round, n + 1, k);
      ReturnTakes(round, n + 1, k);
      hide From, Pow2;
      Doubles(n + 1);
      FromStep(round, n);
    }
  }

  // ----- ssh -----

  /** A key scan, then the command. Only exit code 255 is tried again. */
  function SshRound(scan: nat -> bool, outcome: Outcome): Round {
    var key := KeyReport(scan);
    if key.end == Exited then Stop(Exited, key.slept)
    else if outcome == Done then Stop(Returned, key.slept)
    else if outcome == OtherError then Stop(Exited, key.slept)
    else Again(key.slept)
  }

  function SshRounds(scan: nat -> nat -> bool, run: nat -> Outcome): nat -> Round {
    (n: nat) => SshRound(scan(n), run(n))
  }

  method Ssh(scan: nat -> nat -> bool, run: nat -> Outcome) returns (r: Report)
    ensures r == From(SshRounds(scan, run), 0)
  {
    hide KeyReport, Failures, From;
    ghost var round := SshRounds(scan, run);
    var done := false;
    var sleepTime: nat, slept: nat, failed: nat := 2, 0, 0;
    while !done
      invariant failed <= 10 && sleepTime == Pow2(failed + 1)
      invariant done ==> From(round, 0) == Report(Returned, slept, failed + 1)
      invariant !done ==> var rest := From(round, failed);
                          From(round, 0) == Report(rest.end, slept + rest.slept, failed + rest.rounds)
      decreases !done, 11 - failed
    {
      assert round(failed) == SshRound(scan(failed), run(failed));
      FromStep(round, failed);
      var key := SshKey(scan(failed));
      slept := slept + key.slept;
      if key.end == Exited {
        return Report(Exited, slept, failed + 1);
      }
      var outcome := run(failed);
      if outcome == Done {
        done := true;
      } else if outcome == NoConnection {
        slept := slept + sleepTime;
        sleepTime := sleepTime * 2;
        Limits(failed);
        failed := failed + 1;
        if sleepTime > 3600 {
          return Report(Exited, slept, failed);
        }
      } else {
        return Report(Exited, slept, failed + 1);
      }
    }
    r := Report(Returned, slept, failed + 1);
  }

  /** At most 11 attempts and 9704 seconds of sleep, key scans included. */
  lemma SshWorstCase(scan: nat -> nat -> bool, run: nat -> Outcome)
    ensures From(SshRounds(scan, run), 0).rounds <= 11 && From(SshRounds(scan, run), 0).slept <= 9704
  {
    var round := SshRounds(scan, run);
    forall m: nat ensures round(m).slept <= if round(m).Again? then 510 else 2558 {
      assert round(m) == SshRound(scan(m), run(m));
    }
    FromBound(round, 510, 0);
  }

  ghost predicate GivesUp(scan: nat -> bool) {
    forall i: nat | i < 9 :: !scan(i)
  }

  lemma KeyExits(scan: nat -> bool)
    ensures KeyReport(scan).end == Exited <==> GivesUp(scan)
  {
  }

  /** `ssh` returns exactly when one of the first eleven attempts succeeds, all before it fail
      to connect, and no key scan up to it fails nine times. */
  lemma SshReturnsExactly(scan: nat -> nat -> bool, run: nat -> Outcome)
    ensures From(SshRounds(scan, run), 0).end == Returned <==>
            exists k: nat | k <= 10 :: run(k) == Done && !GivesUp(scan(k))
                                       && forall j: nat | j < k :: run(j) == NoConnection && !GivesUp(scan(j))
  {
    hide KeyReport, GivesUp, From;
    var round := SshRounds(scan, run);
    FromReturns(round, 0);
    forall m: nat
      ensures (round(m).Stop? && round(m).end == Returned) <==> run(m) == Done && !GivesUp(scan(m))
      ensures round(m).Again? <==> run(m) == NoConnection && !GivesUp(scan(m))
    {
      assert round(m) == SshRound(scan(m), run(m));
      KeyExits(scan(m));
    }
    if exists k: nat | k <= 10 :: ReturnsAt(round, 0, k) {
      var k: nat :| k <= 10 && ReturnsAt(round, 0, k);
      assert run(k) == Done && !GivesUp(scan(k));
    }
    forall k: nat | k <= 10 && run(k) == Done && !GivesUp(scan(k))
                     && forall j: nat | j < k :: run(j) == NoConnection && !GivesUp(scan(j))
      ensures ReturnsAt(round, 0, k)
    {
    }
  }

  // ----- scp -----

  /** The key scan of one end, if its name resolves. */
  function ScanOne(resolves: bool, scan: nat -> bool): (r: Report)
    ensures r.end == Returned ==> r.slept <= 510
    ensures r.end == Exited ==> r.slept == 1022
  {
    if resolves then KeyReport(scan) else Report(Returned, 0, 0)
  }

  /** What the oracle answers in one round: whether the two ends resolve, their key scans,
      and whether the copy succeeds. */
  datatype Answers = Answers(sourceResolves: bool, destResolves: bool,
                             source: nat -> bool, dest: nat -> bool, copied: bool)

  /** The key scans of both ends, one after the other; the first that gives up exits. */
  function ScanBoth(a: Answers): (r: Report)
    ensures r.end == Returned ==> r.slept <= 1020
    ensures r.end == Exited ==> r.slept <= 1532
  {
    var source, dest := ScanOne(a.sourceResolves, a.source), ScanOne(a.destResolves, a.dest);
    if source.end == Exited then source else Report(dest.end, source.slept + dest.slept, source.rounds + dest.rounds)
  }

  method ScanEnds(a: Answers) returns (r: Report)
    ensures r == ScanBoth(a)
  {
    hide KeyReport, Failures;
    r := Report(Returned, 0, 0);
    if a.sourceResolves {
      r := SshKey(a.source);
      if r.end == Exited {
        return;
      }
    }
    if a.destResolves {
      var key := SshKey(a.dest);
      r := Report(key.end, r.slept + key.slept, r.rounds + key.rounds);
    }
  }

  function ScpRound(a: Answers): Round {
    var keys := ScanBoth(a);
    if keys.end == Exited then Stop(Exited, keys.slept)
    else if a.copied then Stop(Returned, keys.slept)
    else Again(keys.slept)
  }

  function ScpRounds(answers: nat -> Answers): nat -> Round {
    (n: nat) => ScpRound(answers(n))
  }

  method Scp(answers: nat -> Answers) returns (r: Report)
    ensures r == From(ScpRounds(answers), 0)
  {
    hide KeyReport, Failures, ScanBoth, From;
    ghost var round := ScpRounds(answers);
    var done := false;
    var sleepTime: nat, slept: nat, failed: nat := 2, 0, 0;
    while !done
      invariant failed <= 10 && sleepTime == Pow2(failed + 1)
      invariant done ==> From(round, 0) == Report(Returned, slept, failed + 1)
      invariant !done ==> var rest := From(round, failed);
                          From(round, 0) == Report(rest.end, slept + rest.slept, failed + rest.rounds)
      decreases !done, 11 - failed
    {
      var a := answers(failed);
      assert round(failed) == ScpRound(a);
      FromStep(round, failed);
      var keys := ScanEnds(a);
      slept := slept + keys.slept;
      if keys.end == Exited {
        return Report(Exited, slept, failed + 1);
      }
      if !a.copied {
        slept := slept + sleepTime;
        sleepTime := sleepTime * 2;
        Limits(failed);
        failed := failed + 1;
        if sleepTime > 3600 {
          return Report(Exited, slept, failed);
        }
      } else {
        done := true;
      }
    }
    r := Report(Returned, slept, failed + 1);
  }

  ghost predicate EndsGiveUp(a: Answers) {
    (a.sourceResolves && GivesUp(a.source)) || (a.destResolves && GivesUp(a.dest))
  }

  /** At most 11 copies and 15314 seconds of sleep, the key scans of both ends included. */
  lemma ScpWorstCase(answers: nat -> Answers)
    ensures From(ScpRounds(answers), 0).rounds <= 11 && From(ScpRounds(answers), 0).slept <= 15314
  {
    var round := ScpRounds(answers);
    forall m: nat ensures round(m).slept <= if round(m).Again? then 1020 else 3068 {
      assert round(m) == ScpRound(answers(m));
    }
    FromBound(round, 1020, 0);
  }

  /** `scp` returns exactly when one of the first eleven copies succeeds, all before it fail,
      and no key scan up to it fails nine times. */
  lemma ScpReturnsExactly(answers: nat -> Answers)
    ensures From(ScpRounds(answers), 0).end == Returned <==>
            exists k: nat | k <= 10 :: answers(k).copied && !EndsGiveUp(answers(k))
                                       && forall j: nat | j < k :: !answers(j).copied && !EndsGiveUp(answers(j))
  {
    hide KeyReport, GivesUp, From;
    var round := ScpRounds(answers);
    FromReturns(round, 0);
    forall m: nat
      ensures (round(m).Stop? && round(m).end == Returned) <==> answers(m).copied && !EndsGiveUp(answers(m))
      ensures round(m).Again? <==> !answers(m).copied && !EndsGiveUp(answers(m))
    {
      assert round(m) == ScpRound(answers(m));
      KeyExits(answers(m).source);
      KeyExits(answers(m).dest);
    }
    hide ScpRound, EndsGiveUp, ScpRounds;
    if exists k: nat | k <= 10 :: ReturnsAt(round, 0, k) {
      var k: nat :| k <= 10 && ReturnsAt(round, 0, k);
      assert answers(k).copied && !EndsGiveUp(answers(k));
    }
    forall k: nat | k <= 10 && answers(k).copied && !EndsGiveUp(answers(k))
                     && forall j: nat | j < k :: !answers(j).copied && !EndsGiveUp(answers(j))
      ensures ReturnsAt(round, 0, k)
    {
    }
  }

  // ----- the bounds are attained -----

  /** A key scan that succeeds at its ninth try. */
  ghost predicate Late(scan: nat -> bool) {
    forall i: nat :: scan(i) <==> i == 8
  }

  lemma LateKey(scan: nat -> bool)
    requires Late(scan)
    ensures KeyReport(scan) == Report(Returned, 510, 9)
  {
    Powers();
    assert scan(8) && Failures(scan, 0) == 8;
  }

  /** `ssh` sleeps 9704 seconds when every key scan is late and no attempt connects, `scp`
      15314 seconds when besides both ends resolve and no copy succeeds. */
  lemma BoundsAttained(scan: nat -> nat -> bool, run: nat -> Outcome, answers: nat -> Answers)
    requires forall m: nat :: Late(scan(m)) && run(m) == NoConnection
    requires forall m: nat :: Late(answers(m).source) && Late(answers(m).dest)
    requires forall m: nat :: answers(m).sourceResolves && answers(m).destResolves && !answers(m).copied
    ensures From(SshRounds(scan, run), 0) == Report(Exited, 9704, 11)
    ensures From(ScpRounds(answers), 0) == Report(Exited, 15314, 11)
  {
    hide From;
    forall m: nat ensures SshRounds(scan, run)(m) == Again(510) && ScpRounds(answers)(m) == Again(1020) {
      LateKey(scan(m));
      LateKey(answers(m).source);
      LateKey(answers(m).dest);
    }
    FromWorst(SshRounds(scan, run), 510, 0);
    FromWorst(ScpRounds(answers), 1020, 0);
  }
}
