/** Cloud manager requests are executed exactly once: what is marked completed was executed, and
    what is queued is served. */
module CloudDelivery {
  import opened Text
  import opened CloudManager

  // ----- what was sent for one request -----

  /** The messages of a request among the first `n` that the worker knows how to send. */
  function Known(k: Key, messages: seq<Message>, n: nat): seq<(Key, nat)>
    requires n <= |messages|
  {
    if n == 0 then []
    else Known(k, messages, n - 1) + if messages[n - 1] == Unknown then [] else [(k, n - 1)]
  }

  function Of(sent: seq<(Key, nat)>, k: Key): seq<(Key, nat)> {
    if sent == [] then []
    else Of(sent[..|sent| - 1], k) + if sent[|sent| - 1].0 == k then [sent[|sent| - 1]] else []
  }

  /** All known messages were sent, or those up to a capability change. */
  ghost predicate Executed(k: Key, messages: seq<Message>, sent: seq<(Key, nat)>) {
    exists n: nat | n <= |messages| ::
      sent == Known(k, messages, n) && (n == |messages| || (n > 0 && messages[n - 1] == ChangeCapabilities))
  }

  /** A request stored under `k` was executed, once. */
  ghost predicate Done(s: State, k: Key) {
    exists r | r in s.table && r.key == k :: Executed(k, r.messages, Of(s.sent, k))
  }

  ghost predicate InProgress(s: State, k: Key) {
    s.worker.Sending? && s.worker.key == k && s.worker.next <= |s.worker.messages|
    && Of(s.sent, k) == Known(k, s.worker.messages, s.worker.next)
    && exists r | r in s.table :: r.key == k && r.messages == s.worker.messages
  }

  /** What was sent for `k` so far is what its place in the processing says. */
  ghost predicate Delivered(s: State, k: Key) {
    if IsCompleted(s.table, k) || (s.worker.Marking? && s.worker.key == k) then Done(s, k)
    else if Busy(s, k) then InProgress(s, k)
    else Of(s.sent, k) == []
  }

  lemma OfExtended(sent: seq<(Key, nat)>, x: (Key, nat), k: Key)
    ensures Of(sent + [x], k) == Of(sent, k) + if x.0 == k then [x] else []
  {
    assert (sent + [x])[..|sent|] == sent;
  }

  lemma TakeDelivers(s: State, row: nat, k: Key)
    requires Inv(s) && Delivered(s, k)
    ensures Delivered(Step(s, Dequeue(row)), k)
  {
    var t := Step(s, Dequeue(row));
    if s.worker == Waiting && s.queue != [] && row < |s.table| && s.table[row].key == Stored(s.queue[0]) {
      assert s.table[row] in s.table;
    }
  }

  lemma SentGrows(sent: seq<(Key, nat)>, k: Key, messages: seq<Message>, n: nat, other: Key)
    requires n < |messages|
    ensures Of(sent + SentFor(k, messages, n), other)
            == Of(sent, other) + if other == k then SentFor(k, messages, n) else []
    ensures Known(k, messages, n + 1) == Known(k, messages, n) + SentFor(k, messages, n)
  {
    if messages[n] == Unknown {
      assert sent + [] == sent;
    } else {
      OfExtended(sent, (k, n), other);
    }
  }

  lemma SendDelivers(s: State, timedOut: bool, k: Key)
    requires Inv(s) && Delivered(s, k)
    ensures Delivered(Step(s, Send(timedOut)), k)
  {
    if s.worker.Sending? {
      var other, messages, n := s.worker.key, s.worker.messages, s.worker.next;
      assert Busy(s, other);
      SendOne(s, other, messages, n, timedOut);
      if n < |messages| {
        SentGrows(s.sent, other, messages, n, k);
      }
      hide Step, Inv, Of, IsCompleted, Known, SentFor, Executed;
      if other == k {
        SendOwn(s, timedOut, k);
      } else {
        assert Of(Step(s, Send(timedOut)).sent, k) == Of(s.sent, k) + [] || n >= |messages|;
      }
    }
  }

  lemma SendOwn(s: State, timedOut: bool, k: Key)
    requires Inv(s) && Delivered(s, k) && s.worker.Sending? && s.worker.key == k
    ensures Delivered(Step(s, Send(timedOut)), k)
  {
    var t, messages, n := Step(s, Send(timedOut)), s.worker.messages, s.worker.next;
    assert Busy(s, k) && !IsCompleted(s.table, k) && InProgress(s, k);
    SendOne(s, k, messages, n, timedOut);
    if n < |messages| {
      SentGrows(s.sent, k, messages, n, k);
    }
    hide Step, Of, Inv, IsCompleted, Known, SentFor, Delivered;
    if t.worker.Marking? {
      SendEnds(s, t, k, if n < |messages| then n + 1 else n);
    } else {
      SendGoesOn(s, t, k);
    }
  }

  lemma SendEnds(s: State, t: State, k: Key, m: nat)
    requires InProgress(s, k) && t.table == s.table && t.worker == Marking(k) && m <= |s.worker.messages|
    requires Of(t.sent, k) == Known(k, s.worker.messages, m)
    requires m == |s.worker.messages| || (m > 0 && s.worker.messages[m - 1] == ChangeCapabilities)
    ensures Delivered(t, k)
  {
    hide Of, Known, IsCompleted;
    assert Executed(k, s.worker.messages, Of(t.sent, k));
    hide Executed;
  }

  lemma SendGoesOn(s: State, t: State, k: Key)
    requires InProgress(s, k) && !IsCompleted(s.table, k) && t.table == s.table
    requires t.worker.Sending? && t.worker.key == k && t.worker.messages == s.worker.messages
    requires t.worker.next <= |t.worker.messages| && Of(t.sent, k) == Known(k, t.worker.messages, t.worker.next)
    ensures Delivered(t, k)
  {
    hide Of, Known, IsCompleted;
    assert InProgress(t, k);
  }

  lemma MarkKeepsDone(s: State, k: Key)
    requires s.worker.Marking? && Done(s, k)
    ensures Done(Step(s, Mark), k)
  {
    hide Executed, Of;
    var t := Step(s, Mark);
    var r :| r in s.table && r.key == k && Executed(k, r.messages, Of(s.sent, k));
    var i :| 0 <= i < |s.table| && s.table[i] == r;
    assert t.table[i].messages == r.messages && t.table[i].key == k && t.table[i] in t.table;
  }

  lemma MarkCompletes(s: State, k: Key)
    requires s.worker.Marking? && Present(s.table, s.worker.key)
    ensures IsCompleted(Step(s, Mark).table, k) <==> IsCompleted(s.table, k) || k == s.worker.key
  {
    var t := Step(s, Mark);
    assert forall i | 0 <= i < |s.table| :: t.table[i].key == s.table[i].key
             && t.table[i] in t.table && s.table[i] in s.table;
    if IsCompleted(t.table, k) {
      var r :| r in t.table && r.key == k && r.completed;
      var i :| 0 <= i < |t.table| && t.table[i] == r;
      assert k != s.worker.key ==> s.table[i].completed;
    }
    if IsCompleted(s.table, k) || k == s.worker.key {
      var i :| 0 <= i < |s.table| && s.table[i].key == k && (k == s.worker.key || s.table[i].completed);
      assert t.table[i].completed;
    }
  }

  lemma MarkDelivers(s: State, k: Key)
    requires Inv(s) && Delivered(s, k)
    ensures Delivered(Step(s, Mark), k)
  {
    if s.worker.Marking? {
      var t := Step(s, Mark);
      assert Busy(s, s.worker.key) && t.worker == Waiting && t.sent == s.sent;
      MarkCompletes(s, k);
      if Done(s, k) {
        MarkKeepsDone(s, k);
      }
      hide Step, Inv, Done, IsCompleted, Of;
    }
  }

  lemma InsertDelivers(s: State, k: Key)
    requires Inv(s) && Delivered(s, k) && Guarded(s, InsertWorkerStep)
    ensures Delivered(Step(s, InsertWorkerStep), k)
  {
    var t := Step(s, InsertWorkerStep);
    assert forall r | r in s.table :: r in t.table;
    assert IsCompleted(t.table, k) == IsCompleted(s.table, k) by {
      assert forall r | r in t.table && r !in s.table :: !r.completed;
    }
    if Done(s, k) {
      var r :| r in s.table && r.key == k && Executed(k, r.messages, Of(s.sent, k));
      assert r in t.table;
    }
    hide Executed, Of, Known;
  }

  lemma StepDelivers(s: State, e: Event, k: Key)
    requires Inv(s) && Delivered(s, k) && Guarded(s, e)
    ensures Delivered(Step(s, e), k)
  {
    match e
    case InsertRequest(_) => hide Executed, Of, Known;
    case ProcessRequest(_) => hide Executed, Of, Known;
    case InsertWorkerStep => InsertDelivers(s, k);
    case Dequeue(row) => TakeDelivers(s, row, k);
    case Send(timedOut) => SendDelivers(s, timedOut, k);
    case Mark => MarkDelivers(s, k);
  }

  lemma {:induction false} RunDelivers(s: State, es: seq<Event>, k: Key)
    requires Inv(s) && Delivered(s, k) && GuardedRun(s, es)
    ensures Delivered(Run(s, es), k)
    decreases |es|
  {
    hide Step, Guarded, Delivered, Inv;
    if es != [] {
      StepDelivers(s, es[0], k);
      StepKeeps(s, es[0]);
      RunDelivers(Step(s, es[0]), es[1..], k);
    }
  }

  lemma {:induction false} NothingSent(sent: seq<(Key, nat)>, k: Key)
    requires forall x | x in sent :: x.0 != k
    ensures Of(sent, k) == []
  {
    if sent != [] {
      NothingSent(sent[..|sent| - 1], k);
    }
  }

  /** Over every guarded run: a hash that was neither completed nor in hand is completed only
      after one of its requests was executed, once; and nothing at all was sent for it before
      it was taken in hand. */
  lemma CompletedIsExecuted(s: State, es: seq<Event>, k: Key)
    requires Inv(s) && GuardedRun(s, es)
    requires !IsCompleted(s.table, k) && !Busy(s, k) && s.worker != Stopped
    ensures var t := Run(s, es);
            && (IsCompleted(t.table, k) ==> Done(t, k))
            && (!IsCompleted(t.table, k) && !Busy(t, k) ==> Of(t.sent, k) == [])
  {
    NothingSent(s.sent, k);
    RunDelivers(s, es, k);
  }

  // ----- serving the queue -----

  /** One request from dequeue to completion mark. */
  function ServeOne(s: State, row: nat, gaveUp: seq<bool>): State
    requires var t := Step(s, Dequeue(row)); t.worker.Sending? && t.worker.next <= |t.worker.messages| == |gaveUp|
  {
    Step(Execute(Step(s, Dequeue(row)), gaveUp), Mark)
  }

  /** The request first in the queue is the one of the given row, and is not completed. */
  predicate Servable(s: State, row: nat, gaveUp: seq<bool>) {
    && s.worker == Waiting && s.queue != [] && row < |s.table|
    && s.table[row].key == Stored(s.queue[0]) && !s.table[row].completed && |gaveUp| == |s.table[row].messages|
  }

  /** It is executed by its plan and marked completed; no other request is touched. */
  lemma ServesOne(s: State, row: nat, gaveUp: seq<bool>)
    requires Servable(s, row, gaveUp)
    ensures var k, d := s.table[row].key, Step(s, Dequeue(row));
            d.worker == Sending(k, s.table[row].messages, 0)
    ensures var k, t := s.table[row].key, ServeOne(s, row, gaveUp);
            && t.worker == Waiting && t.queue == s.queue[1..] && |t.table| == |s.table|
            && t.sent == s.sent + Plan(k, s.table[row].messages, gaveUp, 0)
            && (forall i | 0 <= i < |s.table| && s.table[i].key != k :: t.table[i] == s.table[i])
            && (forall i | 0 <= i < |s.table| && s.table[i].key == k ::
                  t.table[i] == Request(k, s.table[i].messages, true))
  {
    var k, d := s.table[row].key, Step(s, Dequeue(row));
    assert s.table[row] in s.table && Present(s.table, k);
    ExecutionSends(d, k, s.table[row].messages, gaveUp, 0);
  }

  /** The requests in the queue are stored under distinct hashes, at the given rows, and not
      completed; `gaveUp` tells which waits run out. */
  predicate AllServable(s: State, rows: seq<nat>, gaveUp: seq<seq<bool>>) {
    && s.worker == Waiting && |s.queue| == |rows| == |gaveUp|
    && (forall i | 0 <= i < |rows| :: rows[i] < |s.table| && s.table[rows[i]].key == Stored(s.queue[i])
                                      && !s.table[rows[i]].completed && |gaveUp[i]| == |s.table[rows[i]].messages|)
    && (forall i, j | 0 <= i < j < |rows| :: Stored(s.queue[i]) != Stored(s.queue[j]))
  }

  function Plans(s: State, rows: seq<nat>, gaveUp: seq<seq<bool>>): seq<(Key, nat)>
    requires |rows| == |gaveUp|
    requires forall i | 0 <= i < |rows| :: rows[i] < |s.table| && |gaveUp[i]| == |s.table[rows[i]].messages|
  {
    if rows == [] then []
    else Plan(s.table[rows[0]].key, s.table[rows[0]].messages, gaveUp[0], 0) + Plans(s, rows[1..], gaveUp[1..])
  }

  lemma RestServable(s: State, rows: seq<nat>, gaveUp: seq<seq<bool>>)
    requires AllServable(s, rows, gaveUp) && rows != []
    ensures Servable(s, rows[0], gaveUp[0])
    ensures Step(s, Dequeue(rows[0])).worker == Sending(s.table[rows[0]].key, s.table[rows[0]].messages, 0)
    ensures AllServable(ServeOne(s, rows[0], gaveUp[0]), rows[1..], gaveUp[1..])
  {
    ServesOne(s, rows[0], gaveUp[0]);
    var t := ServeOne(s, rows[0], gaveUp[0]);
    hide ServeOne, Step;
    forall i | 0 <= i < |rows[1..]|
      ensures t.table[rows[1..][i]] == s.table[rows[i + 1]] && t.queue[i] == s.queue[i + 1] {
      assert s.table[rows[i + 1]].key == Stored(s.queue[i + 1]);
    }
  }

  function Serve(s: State, rows: seq<nat>, gaveUp: seq<seq<bool>>): State
    requires AllServable(s, rows, gaveUp)
    decreases |rows|
  {
    if rows == [] then s
    else
      RestServable(s, rows, gaveUp);
      Serve(ServeOne(s, rows[0], gaveUp[0]), rows[1..], gaveUp[1..])
  }

  lemma {:induction false} SamePlans(s: State, t: State, rows: seq<nat>, gaveUp: seq<seq<bool>>)
    requires |rows| == |gaveUp|
    requires forall i | 0 <= i < |rows| :: rows[i] < |s.table| && rows[i] < |t.table|
                                           && t.table[rows[i]] == s.table[rows[i]]
                                           && |gaveUp[i]| == |s.table[rows[i]].messages|
    ensures Plans(t, rows, gaveUp) == Plans(s, rows, gaveUp)
  {
    if rows != [] {
      SamePlans(s, t, rows[1..], gaveUp[1..]);
    }
  }

  predicate Asked(queue: seq<Key>, k: Key) {
    exists q | q in queue :: Stored(q) == k
  }

  lemma NoneAsked()
    ensures forall k :: !Asked([], k)
  {
  }

  lemma AskedRest(queue: seq<Key>, k: Key)
    requires queue != []
    ensures Asked(queue, k) <==> Stored(queue[0]) == k || Asked(queue[1..], k)
  {
    assert forall q :: q in queue <==> q == queue[0] || q in queue[1..];
  }

  /** A queue of distinct stored requests that are not completed is served to its end: all their
      plans are sent, in the order of the queue, the worker waits again, and exactly they are
      marked completed. */
  lemma {:induction false} QueueIsServed(s: State, rows: seq<nat>, gaveUp: seq<seq<bool>>)
    requires AllServable(s, rows, gaveUp)
    ensures var t := Serve(s, rows, gaveUp);
            && t.worker == Waiting && t.queue == [] && |t.table| == |s.table|
            && t.sent == s.sent + Plans(s, rows, gaveUp)
            && forall i | 0 <= i < |s.table| ::
                 t.table[i] == if Asked(s.queue, s.table[i].key)
                               then Request(s.table[i].key, s.table[i].messages, true) else s.table[i]
    decreases |rows|
  {
    hide Asked, Plan, Present;
    if rows == [] {
      NoneAsked();
    } else {
      RestServable(s, rows, gaveUp);
      ServesOne(s, rows[0], gaveUp[0]);
      var t := ServeOne(s, rows[0], gaveUp[0]);
      hide ServeOne, Step;
      QueueIsServed(t, rows[1..], gaveUp[1..]);
      forall i | 0 <= i < |rows[1..]| ensures t.table[rows[1..][i]] == s.table[rows[1..][i]] {
        assert rows[1..][i] == rows[i + 1] && s.table[rows[i + 1]].key == Stored(s.queue[i + 1]);
      }
      SamePlans(s, t, rows[1..], gaveUp[1..]);
      Grouped(s.sent, Plan(s.table[rows[0]].key, s.table[rows[0]].messages, gaveUp[0], 0),
              Plans(s, rows[1..], gaveUp[1..]));
      forall i | 0 <= i < |s.table|
        ensures Asked(s.queue, s.table[i].key) <==>
                (Stored(s.queue[0]) == s.table[i].key || Asked(t.queue, s.table[i].key))
      {
        AskedRest(s.queue, s.table[i].key);
      }
    }
  }

  // ----- spelling and order -----

  /** A request is stored under its realm in lower case, with its messages, behind the others,
      if there is an organization of that name; and it is the one taken from its queue first. */
  lemma StoresFirst(s: State)
    requires s.insertQueue != []
    ensures var r, t := s.insertQueue[0], Step(s, InsertWorkerStep);
            && t.insertQueue == s.insertQueue[1..]
            && t.table == if Lower(r.realm) in s.orgs
                          then s.table + [Request(Key(Lower(r.realm), r.hash), r.messages, false)] else s.table
  {
  }

  /** The hash first in the queue is looked up under its realm in lower case, whatever the
      spelling it was queued with. */
  lemma LooksUpLower(s: State, row: nat)
    requires s.worker == Waiting && s.queue != [] && row < |s.table|
    requires s.table[row].key == Key(Lower(s.queue[0].realm), s.queue[0].hash)
    ensures var t := Step(s, Dequeue(row));
            t.queue == s.queue[1..]
            && t.worker == if s.table[row].completed then Stopped
                             else Sending(s.table[row].key, s.table[row].messages, 0)
  {
    assert s.table[row] in s.table;
  }

  function HandedBy(e: Event): seq<NewRequest> {
    if e.InsertRequest? then [e.request] else []
  }

  function QueuedBy(e: Event): seq<Key> {
    if e.ProcessRequest? then [e.key] else []
  }

  function Handed(es: seq<Event>): seq<NewRequest> {
    if es == [] then [] else HandedBy(es[0]) + Handed(es[1..])
  }

  function Queued(es: seq<Event>): seq<Key> {
    if es == [] then [] else QueuedBy(es[0]) + Queued(es[1..])
  }

  /** What is left of `b` after some of it was taken off the front. */
  predicate LeftOf<T(==)>(a: seq<T>, b: seq<T>) {
    |a| <= |b| && a == b[|b| - |a|..]
  }

  lemma LeftOfChain<T>(a: seq<T>, b: seq<T>, c: seq<T>, x: seq<T>)
    requires LeftOf(b, a) && LeftOf(c, b + x)
    ensures LeftOf(c, a + x)
  {
    assert b + x == (a + x)[|a| - |b|..];
  }

  lemma StepQueues(s: State, e: Event)
    ensures LeftOf(Step(s, e).insertQueue, s.insertQueue + HandedBy(e))
    ensures LeftOf(Step(s, e).queue, s.queue + QueuedBy(e))
  {
    assert s.insertQueue + [] == s.insertQueue && s.queue + [] == s.queue;
  }

  lemma LeftOfItself<T>(a: seq<T>)
    ensures LeftOf(a, a + [])
  {
    assert a + [] == a;
  }

  /** First come, first served: over every run a queue holds what was in it and what was handed
      in since, in that order, but for what was taken off the front. */
  lemma {:induction false} InsertsInOrder(s: State, es: seq<Event>)
    ensures LeftOf(Run(s, es).insertQueue, s.insertQueue + Handed(es))
    decreases |es|
  {
    hide Step, LeftOf, HandedBy, QueuedBy;
    if es == [] {
      LeftOfItself(s.insertQueue);
    } else {
      var t := Step(s, es[0]);
      StepQueues(s, es[0]);
      InsertsInOrder(t, es[1..]);
      LeftOfChain(s.insertQueue + HandedBy(es[0]), t.insertQueue, Run(t, es[1..]).insertQueue, Handed(es[1..]));
      Grouped(s.insertQueue, HandedBy(es[0]), Handed(es[1..]));
    }
  }

  lemma {:induction false} HashesInOrder(s: State, es: seq<Event>)
    ensures LeftOf(Run(s, es).queue, s.queue + Queued(es))
    decreases |es|
  {
    hide Step, LeftOf, HandedBy, QueuedBy;
    if es == [] {
      LeftOfItself(s.queue);
    } else {
      var t := Step(s, es[0]);
      StepQueues(s, es[0]);
      HashesInOrder(t, es[1..]);
      LeftOfChain(s.queue + QueuedBy(es[0]), t.queue, Run(t, es[1..]).queue, Queued(es[1..]));
      Grouped(s.queue, QueuedBy(es[0]), Queued(es[1..]));
    }
  }
}
