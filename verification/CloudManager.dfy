/** Cloud manager requests: stored under a hash, queued for processing any number of times. */
module CloudManager {
  import opened Text

  datatype Message = ChangeCapabilities | AddUser | ActivateUser | ChangeUserType | Unknown

  datatype Key = Key(realm: string, hash: string)

  /** A row of the request table. */
  datatype Request = Request(key: Key, messages: seq<Message>, completed: bool)

  /** The request as queued by the handler that stores it. */
  datatype NewRequest = NewRequest(realm: string, hash: string, messages: seq<Message>)

  /** Where the processing worker stands; `Stopped` is a worker that left its loop. */
  datatype Worker = Waiting | Sending(key: Key, messages: seq<Message>, next: nat) | Marking(key: Key) | Stopped

  /** `sent` records every RPC the worker has made: the request and the message number. */
  datatype State = State(orgs: set<string>, table: seq<Request>, insertQueue: seq<NewRequest>, queue: seq<Key>,
                         worker: Worker, sent: seq<(Key, nat)>)

  datatype Event =
    | InsertRequest(request: NewRequest)
    | ProcessRequest(key: Key)
    | InsertWorkerStep
    | Dequeue(row: nat)
    | Send(timedOut: bool)
    | Mark

  /** Realms are lowered in every statement on the request table. */
  function Stored(k: Key): Key {
    Key(Lower(k.realm), k.hash)
  }

  predicate Present(table: seq<Request>, k: Key) {
    exists r | r in table :: r.key == k
  }

  /** The request `k` is marked completed. */
  function Completed(table: seq<Request>, k: Key): seq<Request> {
    seq(|table|, i requires 0 <= i < |table| => if table[i].key == k then table[i].(completed := true) else table[i])
  }

  /** Dequeue a key and read a row with that hash. Without a row there is nothing to parse and
      the worker dies; on a completed row `last` leaves the worker's own loop. */
  function Take(s: State, row: nat): State {
    if s.worker != Waiting || s.queue == [] then s
    else
      var k, rest := Stored(s.queue[0]), s.queue[1..];
      if !Present(s.table, k) then s.(queue := rest, worker := Stopped)
      else if row >= |s.table| || s.table[row].key != k then s
      else if s.table[row].completed then s.(queue := rest, worker := Stopped)
      else s.(queue := rest, worker := Sending(k, s.table[row].messages, 0))
  }

  /** Send one message. Giving up on a capability change leaves the message loop only: the
      request is still marked completed. */
  function SendNext(s: State, timedOut: bool): State {
    if !s.worker.Sending? then s
    else if s.worker.next >= |s.worker.messages| then s.(worker := Marking(s.worker.key))
    else
      var m := s.worker.messages[s.worker.next];
      s.(sent := if m == Unknown then s.sent else s.sent + [(s.worker.key, s.worker.next)],
         worker := if m == ChangeCapabilities && timedOut then Marking(s.worker.key)
                   else s.worker.(next := s.worker.next + 1))
  }

  function Step(s: State, e: Event): State {
    match e
    case InsertRequest(r) => s.(insertQueue := s.insertQueue + [r])
    case ProcessRequest(k) => s.(queue := s.queue + [k])
    case InsertWorkerStep =>
      if s.insertQueue == [] then s
      else
        var r := s.insertQueue[0];
        s.(insertQueue := s.insertQueue[1..],
           table := if Lower(r.realm) in s.orgs
                    then s.table + [Request(Stored(Key(r.realm, r.hash)), r.messages, false)] else s.table)
    case Dequeue(row) => Take(s, row)
    case Send(timedOut) => SendNext(s, timedOut)
    case Mark =>
      if s.worker.Marking? then s.(table := Completed(s.table, s.worker.key), worker := Waiting) else s
  }

  function Run(s: State, es: seq<Event>): State
    decreases |es|
  {
    if es == [] then s else Run(Step(s, es[0]), es[1..])
  }

  // ----- at most once -----

  function RequestKey(r: NewRequest): Key {
    Stored(Key(r.realm, r.hash))
  }

  ghost predicate IsCompleted(table: seq<Request>, k: Key) {
    exists r | r in table :: r.key == k && r.completed
  }

  /** Rows of one key are completed together. */
  ghost predicate Uniform(table: seq<Request>) {
    forall a, b | a in table && b in table && a.key == b.key :: a.completed == b.completed
  }

  /** The insert worker does not store a request under a hash that is completed already. */
  ghost predicate Guarded(s: State, e: Event) {
    e == InsertWorkerStep && s.insertQueue != [] && Lower(s.insertQueue[0].realm) in s.orgs ==>
      !IsCompleted(s.table, RequestKey(s.insertQueue[0]))
  }

  ghost predicate GuardedRun(s: State, es: seq<Event>)
    decreases |es|
  {
    es == [] || (Guarded(s, es[0]) && GuardedRun(Step(s, es[0]), es[1..]))
  }

  /** Messages of one request are sent in increasing order, hence each at most once. */
  ghost predicate Increasing(sent: seq<(Key, nat)>) {
    forall a, b | 0 <= a < b < |sent| && sent[a].0 == sent[b].0 :: sent[a].1 < sent[b].1
  }

  ghost predicate Busy(s: State, k: Key) {
    (s.worker.Sending? || s.worker.Marking?) && s.worker.key == k
  }

  /** What was sent belongs to a completed request or to the one being processed. */
  ghost predicate Inv(s: State) {
    && Uniform(s.table) && Increasing(s.sent)
    && (forall k | Busy(s, k) :: Present(s.table, k) && !IsCompleted(s.table, k))
    && (s.worker != Stopped ==> forall x | x in s.sent ::
          IsCompleted(s.table, x.0) || (Busy(s, x.0) && (s.worker.Sending? ==> x.1 < s.worker.next)))
  }

  lemma MarkKeeps(s: State)
    requires Inv(s) && s.worker.Marking?
    ensures Inv(Step(s, Mark))
  {
    var t := Step(s, Mark);
    assert forall i | 0 <= i < |s.table| :: t.table[i].key == s.table[i].key && s.table[i] in s.table;
    forall k | IsCompleted(s.table, k) || k == s.worker.key ensures IsCompleted(t.table, k) {
      if k == s.worker.key {
        assert Busy(s, k);
      }
      var i :| 0 <= i < |s.table| && s.table[i].key == k && (k == s.worker.key || s.table[i].completed);
      assert t.table[i] in t.table;
    }
  }

  lemma TakeKeeps(s: State, row: nat)
    requires Inv(s)
    ensures Inv(Step(s, Dequeue(row)))
  {
    if s.worker == Waiting && row < |s.table| && !s.table[row].completed {
      assert s.table[row] in s.table;
    }
  }

  lemma InsertKeeps(s: State)
    requires Inv(s) && Guarded(s, InsertWorkerStep)
    ensures Inv(Step(s, InsertWorkerStep))
  {
    if s.insertQueue != [] && Lower(s.insertQueue[0].realm) in s.orgs {
      var t, k := Step(s, InsertWorkerStep), RequestKey(s.insertQueue[0]);
      var row := Request(k, s.insertQueue[0].messages, false);
      assert t.table == s.table + [row];
      assert forall r :: r in t.table <==> r in s.table || r == row;
      forall k ensures IsCompleted(t.table, k) == IsCompleted(s.table, k) {
      }
      forall k | Present(s.table, k) ensures Present(t.table, k) {
        var r :| r in s.table && r.key == k;
        assert r in t.table;
      }
      assert forall r | r in s.table && r.key == k :: !r.completed;
    }
  }

  lemma SendKeeps(s: State, timedOut: bool)
    requires Inv(s)
    ensures Inv(Step(s, Send(timedOut)))
  {
    if s.worker.Sending? {
      assert Busy(s, s.worker.key);
      forall x | x in s.sent && x.0 == s.worker.key ensures x.1 < s.worker.next {
      }
    }
  }

  lemma StepKeeps(s: State, e: Event)
    requires Inv(s) && Guarded(s, e)
    ensures Inv(Step(s, e))
  {
    match e
    case InsertRequest(_) => assert forall k :: Busy(Step(s, e), k) == Busy(s, k);
    case ProcessRequest(_) => assert forall k :: Busy(Step(s, e), k) == Busy(s, k);
    case InsertWorkerStep => InsertKeeps(s);
    case Dequeue(row) => TakeKeeps(s, row);
    case Send(timedOut) => SendKeeps(s, timedOut);
    case Mark =>
      if s.worker.Marking? {
        MarkKeeps(s);
      }
  }

  /** Over every run that stores nothing under a completed hash, however often hashes are
      stored before that or queued for processing and wherever message loops give up: no
      message number of a hash is sent twice, and they are sent in their order. */
  lemma {:induction false} AtMostOnce(s: State, es: seq<Event>)
    requires Inv(s) && GuardedRun(s, es)
    ensures Inv(Run(s, es)) && Increasing(Run(s, es).sent)
    decreases |es|
  {
    hide Step, Guarded, Uniform;
    if es != [] {
      StepKeeps(s, es[0]);
      AtMostOnce(Step(s, es[0]), es[1..]);
    }
  }

  lemma FreshStart(s: State)
    requires Uniform(s.table) && s.worker == Waiting && s.sent == []
    ensures Inv(s)
  {
  }

  // ----- hashes that are stored once -----

  /** Hashes are unique per realm among the stored requests and those still to be stored. */
  ghost predicate UniqueHashes(table: seq<Request>, toStore: seq<NewRequest>) {
    && (forall i, j | 0 <= i < |table| && 0 <= j < |table| && table[i].key == table[j].key :: i == j)
    && (forall i, j | 0 <= i < j < |toStore| :: RequestKey(toStore[i]) != RequestKey(toStore[j]))
    && (forall r | r in toStore :: !Present(table, RequestKey(r)))
  }

  ghost predicate FreshInsert(s: State, e: Event) {
    e.InsertRequest? ==>
      !Present(s.table, RequestKey(e.request))
      && (forall r | r in s.insertQueue :: RequestKey(r) != RequestKey(e.request))
  }

  /** A request is handed in under a hash only once. */
  ghost predicate FreshInserts(s: State, es: seq<Event>)
    decreases |es|
  {
    es == [] || (FreshInsert(s, es[0]) && FreshInserts(Step(s, es[0]), es[1..]))
  }

  lemma SameKeysPresent(t: seq<Request>, u: seq<Request>)
    requires |t| == |u| && forall i | 0 <= i < |t| :: u[i].key == t[i].key
    ensures forall k :: Present(u, k) == Present(t, k)
  {
    forall k | Present(t, k) || Present(u, k) ensures Present(t, k) && Present(u, k) {
      var i :| 0 <= i < |t| && (t[i].key == k || u[i].key == k);
      assert t[i] in t && u[i] in u;
    }
  }

  lemma FreshStep(s: State, e: Event)
    requires UniqueHashes(s.table, s.insertQueue) && FreshInsert(s, e)
    ensures Guarded(s, e) && UniqueHashes(Step(s, e).table, Step(s, e).insertQueue)
  {
    var t := Step(s, e);
    if e == InsertWorkerStep && s.insertQueue != [] {
      var r := s.insertQueue[0];
      assert s.insertQueue == [r] + s.insertQueue[1..];
      assert r in s.insertQueue && !Present(s.table, RequestKey(r));
      assert forall i | 0 <= i < |s.table| :: s.table[i] in s.table && s.table[i].key != RequestKey(r);
      forall q | q in t.insertQueue ensures !Present(t.table, RequestKey(q)) {
      }
    } else if e == Mark {
      SameKeysPresent(s.table, t.table);
    }
  }

  /** So a run that hands in every hash once per realm sends no message twice. */
  lemma {:induction false} UniqueIsGuarded(s: State, es: seq<Event>)
    requires UniqueHashes(s.table, s.insertQueue) && FreshInserts(s, es)
    ensures GuardedRun(s, es)
    decreases |es|
  {
    hide Step, Guarded, FreshInsert, UniqueHashes;
    if es != [] {
      FreshStep(s, es[0]);
      UniqueIsGuarded(Step(s, es[0]), es[1..]);
    }
  }

  // ----- the guard is needed -----

  function Sends(n: nat): seq<Event> {
    seq(n, i => Send(false))
  }

  lemma {:induction false} RunConcat(s: State, es: seq<Event>, fs: seq<Event>)
    ensures Run(s, es + fs) == Run(Run(s, es), fs)
    decreases |es|
  {
    if es == [] {
      assert es + fs == fs;
    } else {
      RunConcat(Step(s, es[0]), es[1..], fs);
      assert (es + fs)[1..] == es[1..] + fs;
    }
  }

  /** A worker reaches every message if no wait runs out. */
  lemma {:induction false} SendsReach(s: State, k: Key, messages: seq<Message>, i: nat, n: nat)
    requires s.worker == Sending(k, messages, i) && i + n <= |messages|
    ensures Run(s, Sends(n)).worker == Sending(k, messages, i + n) && s.sent <= Run(s, Sends(n)).sent
    decreases n
  {
    if n > 0 {
      SendOne(s, k, messages, i, false);
      assert Sends(n)[1..] == Sends(n - 1);
      SendsReach(Step(s, Send(false)), k, messages, i + 1, n - 1);
    }
  }

  /** What follows the storing when the new row is then queued and read up to message `i`. */
  function Replay(r: NewRequest, row: nat, i: nat): seq<Event> {
    [ProcessRequest(RequestKey(r)), Dequeue(row)] + Sends(i + 1)
  }

  /** Message `i` of the request stored last is sent by its replay. */
  lemma Replayed(s: State, r: NewRequest, i: nat)
    requires s.worker == Waiting && s.queue == [] && s.table != []
    requires s.table[|s.table| - 1] == Request(RequestKey(r), r.messages, false)
    requires i < |r.messages| && r.messages[i] != Unknown
    ensures var sent := Run(s, Replay(r, |s.table| - 1, i)).sent;
            s.sent < sent && sent[|sent| - 1] == (RequestKey(r), i)
  {
    var k, row := RequestKey(r), |s.table| - 1;
    LowerTwice(r.realm);
    assert s.table[row] in s.table;
    var t := Step(Step(s, ProcessRequest(k)), Dequeue(row));
    assert t == s.(worker := Sending(k, r.messages, 0));
    SendsReach(t, k, r.messages, 0, i);
    RunConcat(t, Sends(i), [Send(false)]);
    assert Sends(i + 1) == Sends(i) + [Send(false)];
    SendOne(Run(t, Sends(i)), k, r.messages, i, false);
    var last := Run(t, Sends(i));
    assert Run(last, [Send(false)]) == Step(last, Send(false));
    assert Replay(r, row, i)[1..][1..] == Sends(i + 1);
    assert Run(s, Replay(r, row, i)) == Run(t, Sends(i + 1));
  }

  predicate NoInsert(es: seq<Event>) {
    forall e | e in es :: !e.InsertRequest?
  }

  lemma {:induction false} NothingToStore(s: State, es: seq<Event>)
    requires s.insertQueue == [] && NoInsert(es)
    ensures GuardedRun(s, es)
    decreases |es|
  {
    if es != [] {
      NothingToStore(Step(s, es[0]), es[1..]);
    }
  }

  /** Storing a request under a hash is safe, whatever is queued and however the workers then
      run, if and only if the hash is not completed. `i` is a message known in the request
      and sent when the hash was completed, if it was. */
  lemma StoringIsSafeExactly(s: State, r: NewRequest, i: nat)
    requires Inv(s) && s.worker == Waiting && s.queue == [] && s.insertQueue == [r] && Lower(r.realm) in s.orgs
    requires IsCompleted(s.table, RequestKey(r)) ==>
               (RequestKey(r), i) in s.sent && i < |r.messages| && r.messages[i] != Unknown
    ensures (forall es | NoInsert(es) :: Increasing(Run(Step(s, InsertWorkerStep), es).sent))
            <==> !IsCompleted(s.table, RequestKey(r))
  {
    var t, k := Step(s, InsertWorkerStep), RequestKey(r);
    if IsCompleted(s.table, k) {
      var es := Replay(r, |s.table|, i);
      Replayed(t, r, i);
      var sent := Run(t, es).sent;
      var a :| 0 <= a < |s.sent| && s.sent[a] == (k, i);
      assert sent[a] == sent[|sent| - 1];
      assert NoInsert(es) && !Increasing(sent);
    } else {
      StepKeeps(s, InsertWorkerStep);
      forall es | NoInsert(es) ensures Increasing(Run(t, es).sent) {
        NothingToStore(t, es);
        AtMostOnce(t, es);
      }
    }
  }

  /** An instance: stored a second time after its first execution, the same request is
      executed again. */
  lemma DuplicateHashRunsTwice(realm: string, hash: string)
    requires Lower(realm) == realm
    ensures var k, r := Key(realm, hash), NewRequest(realm, hash, [AddUser]);
            var s0 := State({realm}, [], [r, r], [k, k], Waiting, []);
            var s1 := Step(Step(Step(Step(Step(s0, InsertWorkerStep), Dequeue(0)), Send(false)), Send(false)), Mark);
            Step(Step(Step(s1, InsertWorkerStep), Dequeue(1)), Send(false)).sent == [(k, 0), (k, 0)]
  {
    var k, r := Key(realm, hash), NewRequest(realm, hash, [AddUser]);
    var s0 := State({realm}, [], [r, r], [k, k], Waiting, []);
    var a1 := Step(s0, InsertWorkerStep);
    assert a1.table == [Request(k, [AddUser], false)] && a1.table[0] in a1.table;
    var a2 := Step(a1, Dequeue(0));
    assert a2.worker == Sending(k, [AddUser], 0);
    var s1 := Step(Step(Step(a2, Send(false)), Send(false)), Mark);
    assert s1.worker == Waiting && s1.sent == [(k, 0)] && s1.queue == [k] && s1.insertQueue == [r];
    var b1 := Step(s1, InsertWorkerStep);
    assert b1.table[1] == Request(k, [AddUser], false) && b1.table[1] in b1.table;
  }

  // ----- how far the worker gets -----

  /** A worker that stopped never sends again, whatever is queued later. */
  lemma {:induction false} StoppedForGood(s: State, es: seq<Event>)
    requires s.worker == Stopped
    ensures Run(s, es).worker == Stopped && Run(s, es).sent == s.sent
    decreases |es|
  {
    if es != [] {
      StoppedForGood(Step(s, es[0]), es[1..]);
    }
  }

  /** The worker survives a dequeued hash exactly when it is stored and not yet completed:
      queueing a completed request once more ends request processing altogether. */
  lemma SurvivesExactly(s: State, row: nat)
    requires Inv(s) && s.worker == Waiting && s.queue != []
    requires Present(s.table, Stored(s.queue[0])) ==> row < |s.table| && s.table[row].key == Stored(s.queue[0])
    ensures Step(s, Dequeue(row)).worker != Stopped <==>
            Present(s.table, Stored(s.queue[0])) && !IsCompleted(s.table, Stored(s.queue[0]))
  {
    var k := Stored(s.queue[0]);
    if Present(s.table, k) {
      assert s.table[row] in s.table;
      if !s.table[row].completed {
        TakeKeeps(s, row);
        assert Busy(Step(s, Dequeue(row)), k);
        assert Step(s, Dequeue(row)).table == s.table;
      }
    }
  }

  /** The messages sent for a request from number `from` on; `gaveUp[i]` tells whether the
      wait after message `i` ran out. */
  function Plan(k: Key, messages: seq<Message>, gaveUp: seq<bool>, from: nat): seq<(Key, nat)>
    requires from <= |messages| == |gaveUp|
    decreases |messages| - from
  {
    if from == |messages| then []
    else
      SentFor(k, messages, from)
      + if messages[from] == ChangeCapabilities && gaveUp[from] then [] else Plan(k, messages, gaveUp, from + 1)
  }

  /** The worker's `Send` steps until it is done with the messages. */
  function Execute(s: State, gaveUp: seq<bool>): State
    requires s.worker.Sending? && s.worker.next <= |s.worker.messages| == |gaveUp|
    decreases |s.worker.messages| - s.worker.next
  {
    var i := s.worker.next;
    var t := Step(s, Send(i < |gaveUp| && gaveUp[i]));
    if i == |gaveUp| || t.worker.Marking? then t else Execute(t, gaveUp)
  }

  function SentFor(k: Key, messages: seq<Message>, i: nat): seq<(Key, nat)>
    requires i < |messages|
  {
    if messages[i] == Unknown then [] else [(k, i)]
  }

  lemma SendOne(s: State, k: Key, messages: seq<Message>, i: nat, timedOut: bool)
    requires s.worker == Sending(k, messages, i)
    ensures Step(s, Send(timedOut)) ==
            if i >= |messages| then s.(worker := Marking(k))
            else s.(sent := s.sent + SentFor(k, messages, i),
                    worker := if messages[i] == ChangeCapabilities && timedOut then Marking(k)
                              else Sending(k, messages, i + 1))
  {
  }

  lemma Grouped<T>(a: seq<T>, b: seq<T>, c: seq<T>)
    ensures (a + b) + c == a + (b + c) && a + [] == a
  {
  }

  /** One execution: every known message is sent once, in order, up to the first capability
      change that was given up on; the request is then due to be marked completed. */
  lemma {:induction false} ExecutionSends(s: State, k: Key, messages: seq<Message>, gaveUp: seq<bool>, i: nat)
    requires i <= |messages| == |gaveUp| && s.worker == Sending(k, messages, i)
    ensures Execute(s, gaveUp) == s.(sent := s.sent + Plan(k, messages, gaveUp, i), worker := Marking(k))
    decreases |messages| - i
  {
    hide Step, SentFor;
    SendOne(s, k, messages, i, i < |gaveUp| && gaveUp[i]);
    if i == |messages| {
      Grouped(s.sent, [], []);
    } else if messages[i] == ChangeCapabilities && gaveUp[i] {
      Grouped(SentFor(k, messages, i), [], []);
    } else {
      ExecutionSends(Step(s, Send(gaveUp[i])), k, messages, gaveUp, i + 1);
      Grouped(s.sent, SentFor(k, messages, i), Plan(k, messages, gaveUp, i + 1));
    }
  }

  // ----- the program -----

  /** The wait after a capability change. `busy(i)` is the answer of poll `i`. The wait has
      run out exactly when the first 20 polls all saw PROCESSING; poll 21 is still made and
      its answer ignored. */
  method WaitForCapabilities(busy: nat -> bool) returns (timedOut: bool, polls: nat)
    ensures timedOut <==> forall i: nat | i < 20 :: busy(i)
    ensures 1 <= polls <= 21 && (timedOut ==> polls == 21)
    ensures !timedOut ==> !busy(polls - 1) && forall i: nat | i < polls - 1 :: busy(i)
  {
    var loopCount := 0;
    polls := 0;
    while loopCount <= 20
      invariant 0 <= loopCount == polls <= 21
      invariant forall i: nat | i < loopCount :: busy(i)
      decreases 21 - loopCount
    {
      polls := polls + 1;
      if busy(polls - 1) {
        loopCount := loopCount + 1;
      } else {
        break;
      }
    }
    timedOut := loopCount >= 20;
  }

  lemma KeepInv(s: State, e: Event)
    ensures Inv(s) && Guarded(s, e) ==> Inv(Step(s, e))
  {
    if Inv(s) && Guarded(s, e) {
      StepKeeps(s, e);
    }
  }

  class RequestService {
    const orgs: set<string>
    var table: seq<Request>
    var insertQueue: seq<NewRequest>
    var queue: seq<Key>
    var worker: Worker
    var sent: seq<(Key, nat)>

    ghost function Abs(): State
      reads this
    {
      State(orgs, table, insertQueue, queue, worker, sent)
    }

    constructor (organizations: set<string>, stored: seq<Request>)
      ensures Abs() == State(organizations, stored, [], [], Waiting, [])
    {
      orgs, table, insertQueue, queue, worker, sent := organizations, stored, [], [], Waiting, [];
    }

    method InsertCloudManagerReq(r: NewRequest)
      modifies this
      ensures Abs() == Step(old(Abs()), InsertRequest(r))
    {
      insertQueue := insertQueue + [r];
    }

    method ProcessCloudManagerReq(k: Key)
      modifies this
      ensures Abs() == Step(old(Abs()), ProcessRequest(k))
    {
      queue := queue + [k];
    }

    method StepInsert()
      modifies this
      ensures Abs() == Step(old(Abs()), InsertWorkerStep)
      ensures Inv(old(Abs())) && Guarded(old(Abs()), InsertWorkerStep) ==> Inv(Abs())
    {
      hide Inv, Guarded;
      KeepInv(Abs(), InsertWorkerStep);
      if insertQueue != [] {
        var r := insertQueue[0];
        insertQueue := insertQueue[1..];
        if Lower(r.realm) in orgs {
          table := table + [Request(Key(Lower(r.realm), r.hash), r.messages, false)];
        }
      }
    }

    /** One step of the processing worker; `row` is the row the database returns first. */
    method StepProcess(row: nat, busy: nat -> bool)
      modifies this
      ensures Abs() == Step(old(Abs()), match old(worker)
                                        case Waiting => Dequeue(row)
                                        case Sending(_, _, _) => Send(forall i: nat | i < 20 :: busy(i))
                                        case Marking(_) => Mark
                                        case Stopped => Mark)
      ensures Inv(old(Abs())) ==> Inv(Abs())
    {
      hide Inv;
      match worker
      case Waiting =>
        KeepInv(Abs(), Dequeue(row));
        if queue != [] {
          var k := Key(Lower(queue[0].realm), queue[0].hash);
          if !(exists r | r in table :: r.key == k) {
            queue, worker := queue[1..], Stopped;
          } else if row < |table| && table[row].key == k {
            queue, worker := queue[1..], if table[row].completed then Stopped else Sending(k, table[row].messages, 0);
          }
        }
      case Sending(k, messages, next) =>
        KeepInv(Abs(), Send(forall i: nat | i < 20 :: busy(i)));
        if next >= |messages| {
          worker := Marking(k);
        } else {
          if messages[next] != Unknown {
            sent := sent + [(k, next)];
          }
          worker := Sending(k, messages, next + 1);
          if messages[next] == ChangeCapabilities {
            var timedOut, _ := WaitForCapabilities(busy);
            if timedOut {
              worker := Marking(k);
            }
          }
        }
      case Marking(k) =>
        KeepInv(Abs(), Mark);
        table, worker := Completed(table, k), Waiting;
      case Stopped =>
    }
  }
}
