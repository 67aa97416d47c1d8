/** The server's alert and activity broadcasts: one bounded queue per subscriber,
    dropping its oldest payload when a new one finds it full. The publish loop does
    not suspend, so each call is one atomic step. */
module Broadcast {

  const QUEUE_SIZE: nat := 100

  /** `put_nowait`, dropping the oldest payload if the queue is full. */
  function Push<T>(q: seq<T>, payload: T): seq<T> {
    if |q| < QUEUE_SIZE then q + [payload] else q[1..] + [payload]
  }

  // --------------------------------------------------------- one subscription

  /** A payload with its position among those published since the subscription. */
  datatype Numbered = Numbered(index: nat, payload: string)

  /** Published so far, unread, read, and pushed out unread. */
  datatype Subscription = Subscription(
    published: seq<string>, queue: seq<Numbered>, got: seq<Numbered>, dropped: seq<Numbered>)

  datatype Step = Publish(payload: string) | Get

  predicate Enabled(s: Subscription, t: Step) {
    t.Get? ==> s.queue != []
  }

  function Do(s: Subscription, t: Step): Subscription
    requires Enabled(s, t)
  {
    match t
    case Publish(p) =>
      Subscription(s.published + [p], Push(s.queue, Numbered(|s.published|, p)), s.got,
                   if |s.queue| < QUEUE_SIZE then s.dropped else s.dropped + [s.queue[0]])
    case Get => s.(queue := s.queue[1..], got := s.got + [s.queue[0]])
  }

  function Payloads(log: seq<Numbered>): (payloads: seq<string>)
    ensures |payloads| == |log| && forall i :: 0 <= i < |log| ==> payloads[i] == log[i].payload
  {
    seq(|log|, i requires 0 <= i < |log| => log[i].payload)
  }

  /** The position of the oldest payload still in the queue. */
  function Head(s: Subscription): int {
    |s.published| - |s.queue|
  }

  /** Payloads as published, in order and without repeats, all before the queue. */
  ghost predicate InOrder(log: seq<Numbered>, s: Subscription) {
    && (forall i :: 0 <= i < |log| ==> log[i].index < Head(s) && log[i].payload == s.published[log[i].index])
    && (forall i, j :: 0 <= i < j < |log| ==> log[i].index < log[j].index)
  }

  ghost predicate Has(log: seq<Numbered>, n: int) {
    exists i :: 0 <= i < |log| && log[i].index == n
  }

  ghost predicate QueueOk(s: Subscription) {
    && |s.queue| <= QUEUE_SIZE && |s.queue| <= |s.published|
    && (forall i :: 0 <= i < |s.queue| ==>
          s.queue[i].index == Head(s) + i && s.queue[i].payload == s.published[s.queue[i].index])
  }

  lemma {:induction false} StepKeepsQueue(s: Subscription, t: Step)
    requires QueueOk(s) && Enabled(s, t)
    ensures QueueOk(Do(s, t))
  {
  }

  /** The unread queue is a contiguous suffix of what was published; everything before
      it was either read or dropped, each in order and once; and a payload is dropped
      only by the hundredth publication after it. */
  ghost predicate Inv(s: Subscription) {
    && QueueOk(s)
    && InOrder(s.got, s) && InOrder(s.dropped, s)
    && |s.got| + |s.dropped| == Head(s)
    && (forall n :: 0 <= n < Head(s) ==> (Has(s.got, n) <==> !Has(s.dropped, n)))
    && (forall i :: 0 <= i < |s.dropped| ==> s.dropped[i].index + QUEUE_SIZE < |s.published|)
  }

  lemma {:induction false} HasSnoc(log: seq<Numbered>, e: Numbered, n: int)
    ensures Has(log + [e], n) <==> Has(log, n) || e.index == n
  {
    if i :| 0 <= i < |log| && log[i].index == n {
      assert (log + [e])[i].index == n;
    }
    if e.index == n {
      assert (log + [e])[|log|].index == n;
    }
  }

  lemma {:induction false} HasOnlyEarlier(s: Subscription)
    requires Inv(s)
    ensures !Has(s.got, Head(s)) && !Has(s.dropped, Head(s))
  {
  }

  lemma {:induction false} StepKeepsInv(s: Subscription, t: Step)
    requires Inv(s) && Enabled(s, t)
    ensures Inv(Do(s, t))
  {
    var s' := Do(s, t);
    StepKeepsQueue(s, t);
    if t.Get? || |s.queue| == QUEUE_SIZE {
      TakenOnce(s, t);
    }
  }

  /** A payload that leaves the queue is then read or dropped, and not both. */
  lemma {:induction false} TakenOnce(s: Subscription, t: Step)
    requires Inv(s) && Enabled(s, t) && (t.Get? || |s.queue| == QUEUE_SIZE)
    ensures var s' := Do(s, t); forall n :: 0 <= n < Head(s') ==> (Has(s'.got, n) <==> !Has(s'.dropped, n))
  {
    var s', e := Do(s, t), s.queue[0];
    HasOnlyEarlier(s);
    forall n | 0 <= n < Head(s') ensures Has(s'.got, n) <==> !Has(s'.dropped, n) {
      HasSnoc(if t.Get? then s.got else s.dropped, e, n);
    }
  }

  /** The unread queue, as payloads, is the end of what was published. */
  lemma {:induction false} QueueIsSuffix(s: Subscription)
    requires Inv(s)
    ensures Payloads(s.queue) == s.published[Head(s)..]
  {
  }

  lemma {:induction false} ReadsAreComplete(s: Subscription, n: nat)
    requires Inv(s) && s.dropped == [] && n <= |s.got|
    ensures forall i :: 0 <= i < n ==> s.got[i].index == i
  {
    if n > 0 {
      ReadsAreComplete(s, n - 1);
      assert !Has(s.dropped, n - 1);
      assert Has(s.got, n - 1);
      var i :| 0 <= i < |s.got| && s.got[i].index == n - 1;
      if n > 1 {
        assert s.got[n - 2].index == n - 2;
      }
      assert i >= n - 1;
    }
  }

  /** Reads and queue together are what was published iff nothing was dropped. */
  lemma {:induction false} CompleteIffNoneDropped(s: Subscription)
    requires Inv(s)
    ensures Payloads(s.got) + Payloads(s.queue) == s.published <==> s.dropped == []
  {
    QueueIsSuffix(s);
    if s.dropped == [] {
      ReadsAreComplete(s, |s.got|);
      assert Payloads(s.got) == s.published[..Head(s)];
    } else {
      assert |Payloads(s.got) + Payloads(s.queue)| < |s.published|;
    }
  }

  // --------------------------------------------------------------- the stream

  datatype StreamStep = Join(id: nat) | Leave(id: nat) | Send(payload: string) | Read(id: nat)

  predicate CanStep(queues: map<nat, seq<string>>, t: StreamStep) {
    match t
    case Join(id) => id !in queues
    case Read(id) => id in queues && queues[id] != []
    case _ => true
  }

  /** The effect of one call on the set of queues. */
  function Queues(queues: map<nat, seq<string>>, t: StreamStep): map<nat, seq<string>>
    requires CanStep(queues, t)
  {
    match t
    case Join(id) => queues[id := []]
    case Leave(id) => queues - {id}
    case Send(p) => map id | id in queues :: Push(queues[id], p)
    case Read(id) => queues[id := queues[id][1..]]
  }

  ghost predicate IsStreamRun(trace: seq<map<nat, seq<string>>>, steps: seq<StreamStep>) {
    && |trace| == |steps| + 1
    && trace[0] == map[]
    && forall i :: 0 <= i < |steps| ==> CanStep(trace[i], steps[i]) && trace[i + 1] == Queues(trace[i], steps[i])
  }

  /** What one step of the stream does to the subscription `id`. */
  function Seen(s: Subscription, t: StreamStep, id: nat): Subscription {
    match t
    case Join(id') => if id' == id then Subscription([], [], [], []) else s
    case Leave(_) => s
    case Send(p) => Do(s, Publish(p))
    case Read(id') => if id' == id && Enabled(s, Get) then Do(s, Get) else s
  }

  /** The subscription `id` after `i` steps of the stream, counted from its latest joining. */
  function Life(steps: seq<StreamStep>, i: nat, id: nat): Subscription
    requires i <= |steps|
  {
    if i == 0 then Subscription([], [], [], []) else Seen(Life(steps, i - 1, id), steps[i - 1], id)
  }

  lemma {:induction false} LifeKeepsInv(steps: seq<StreamStep>, i: nat, id: nat)
    requires i <= |steps|
    ensures Inv(Life(steps, i, id))
  {
    if i > 0 {
      var s, t := Life(steps, i - 1, id), steps[i - 1];
      LifeKeepsInv(steps, i - 1, id);
      if t.Send? {
        StepKeepsInv(s, Publish(t.payload));
      } else if t.Read? && Enabled(s, Get) {
        StepKeepsInv(s, Get);
      }
    }
  }

  // What an observer of the stream sees of one subscriber, from its latest joining on.

  /** The payloads sent. */
  function Published(steps: seq<StreamStep>, i: nat, id: nat): seq<string>
    requires i <= |steps|
  {
    if i == 0 then []
    else match steps[i - 1]
         case Join(id') => if id' == id then [] else Published(steps, i - 1, id)
         case Send(p) => Published(steps, i - 1, id) + [p]
         case _ => Published(steps, i - 1, id)
  }

  /** The payloads its reads took out of its queue. */
  ghost function ReadBy(trace: seq<map<nat, seq<string>>>, steps: seq<StreamStep>, i: nat, id: nat): seq<string>
    requires IsStreamRun(trace, steps) && i <= |steps|
  {
    if i == 0 || steps[i - 1] == Join(id) then []
    else if steps[i - 1] == Read(id) then ReadBy(trace, steps, i - 1, id) + [trace[i - 1][id][0]]
    else ReadBy(trace, steps, i - 1, id)
  }

  /** The payload sent by step `j` finds the queue full. */
  ghost predicate FindsFull(trace: seq<map<nat, seq<string>>>, steps: seq<StreamStep>, j: nat, id: nat)
    requires IsStreamRun(trace, steps) && j < |steps|
  {
    steps[j].Send? && id in trace[j] && |trace[j][id]| == 100
  }

  /** How often that happened. */
  ghost function Overflows(trace: seq<map<nat, seq<string>>>, steps: seq<StreamStep>, i: nat, id: nat): nat
    requires IsStreamRun(trace, steps) && i <= |steps|
  {
    if i == 0 || steps[i - 1] == Join(id) then 0
    else Overflows(trace, steps, i - 1, id) + if FindsFull(trace, steps, i - 1, id) then 1 else 0
  }

  /** The subscription stands for what is observed. */
  ghost predicate Stands(s: Subscription, trace: seq<map<nat, seq<string>>>, steps: seq<StreamStep>, i: nat, id: nat)
    requires IsStreamRun(trace, steps) && i <= |steps|
  {
    && id in trace[i] && trace[i][id] == Payloads(s.queue)
    && s.published == Published(steps, i, id)
    && Payloads(s.got) == ReadBy(trace, steps, i, id)
    && |s.dropped| == Overflows(trace, steps, i, id)
  }

  lemma {:induction false} SeenStands(s: Subscription, trace: seq<map<nat, seq<string>>>, steps: seq<StreamStep>, i: nat, id: nat)
    requires IsStreamRun(trace, steps) && i < |steps| && id in trace[i + 1]
    requires steps[i] == Join(id) || (Stands(s, trace, steps, i, id) && |s.queue| <= QUEUE_SIZE)
    ensures Stands(Seen(s, steps[i], id), trace, steps, i + 1, id)
  {
    var t := steps[i];
    if t == Join(id) {
      assert Payloads([]) == [];
    } else if t.Send? {
      PushPayloads(s.queue, Numbered(|s.published|, t.payload));
    } else if t == Read(id) {
      assert Payloads(s.queue)[1..] == Payloads(s.queue[1..]);
      assert Payloads(s.got + [s.queue[0]]) == Payloads(s.got) + [s.queue[0].payload];
    }
  }

  lemma {:induction false} LifeStands(trace: seq<map<nat, seq<string>>>, steps: seq<StreamStep>, i: nat, id: nat)
    requires IsStreamRun(trace, steps) && i <= |steps| && id in trace[i]
    ensures Stands(Life(steps, i, id), trace, steps, i, id)
  {
    assert i > 0;
    if steps[i - 1] != Join(id) {
      LifeStands(trace, steps, i - 1, id);
      LifeKeepsInv(steps, i - 1, id);
    }
    SeenStands(Life(steps, i - 1, id), trace, steps, i - 1, id);
  }

  /** `at` gives, for each payload read, its position among those published before
      `head`, ascending; and whatever was published before `head` and not read was
      followed by at least a hundred more. */
  ghost predicate Accounts(at: seq<nat>, read: seq<string>, published: seq<string>, head: nat) {
    && |at| == |read| && head <= |published|
    && (forall i :: 0 <= i < |at| ==> at[i] < head && read[i] == published[at[i]])
    && (forall i, j :: 0 <= i < j < |at| ==> at[i] < at[j])
    && (forall n: nat :: n < head && n !in at ==> n + 100 < |published|)
  }

  lemma {:induction false} InvAccounts(s: Subscription) returns (at: seq<nat>)
    requires Inv(s)
    ensures Accounts(at, Payloads(s.got), s.published, Head(s))
  {
    at := seq(|s.got|, i requires 0 <= i < |s.got| => s.got[i].index);
    assert forall i :: 0 <= i < |s.got| ==> at[i] == s.got[i].index && at[i] in at;
    forall n: nat | n < Head(s) && n !in at ensures n + QUEUE_SIZE < |s.published| {
      assert !Has(s.got, n) && Has(s.dropped, n);
    }
  }

  /** In every run of the stream, for every current subscriber: its queue is the end,
      at most a hundred long, of what was published since it joined; what it read is a
      subsequence, in order and without repeats, of the part before the queue; and what
      is neither read nor unread was followed by at least a hundred publications. */
  lemma {:induction false} EverySubscription(trace: seq<map<nat, seq<string>>>, steps: seq<StreamStep>, i: nat, id: nat) returns (at: seq<nat>)
    requires IsStreamRun(trace, steps) && i <= |steps| && id in trace[i]
    ensures var queue, published := trace[i][id], Published(steps, i, id);
            && |queue| <= 100 && |queue| <= |published| && queue == published[|published| - |queue|..]
            && Accounts(at, ReadBy(trace, steps, i, id), published, |published| - |queue|)
  {
    LifeStands(trace, steps, i, id);
    LifeKeepsInv(steps, i, id);
    var s := Life(steps, i, id);
    QueueIsSuffix(s);
    at := InvAccounts(s);
  }

  /** Each publication that finds the queue full costs the subscriber one payload, and
      nothing else does. */
  lemma {:induction false} LossesAreOverflows(trace: seq<map<nat, seq<string>>>, steps: seq<StreamStep>, i: nat, id: nat)
    requires IsStreamRun(trace, steps) && i <= |steps| && id in trace[i]
    ensures |Published(steps, i, id)| ==
            |ReadBy(trace, steps, i, id)| + |trace[i][id]| + Overflows(trace, steps, i, id)
  {
    LifeStands(trace, steps, i, id);
    LifeKeepsInv(steps, i, id);
  }

  /** A subscriber is present iff it joined and has not left since. */
  lemma {:induction false} PresentIff(trace: seq<map<nat, seq<string>>>, steps: seq<StreamStep>, i: nat, id: nat)
    requires IsStreamRun(trace, steps) && i <= |steps|
    ensures id in trace[i] <==>
            exists joined :: 0 <= joined < i && steps[joined] == Join(id) && forall j :: joined < j < i ==> steps[j] != Leave(id)
  {
    if i > 0 {
      PresentIff(trace, steps, i - 1, id);
      assert trace[i] == Queues(trace[i - 1], steps[i - 1]);
    }
  }

  lemma {:induction false} NoOverflowIff(trace: seq<map<nat, seq<string>>>, steps: seq<StreamStep>, joined: nat, i: nat, id: nat)
    requires IsStreamRun(trace, steps) && joined < i <= |steps| && steps[joined] == Join(id)
    requires forall j :: joined < j < i ==> steps[j] != Join(id) && steps[j] != Leave(id)
    ensures id in trace[i]
    ensures Overflows(trace, steps, i, id) == 0 <==> forall j :: joined < j < i ==> !FindsFull(trace, steps, j, id)
  {
    if joined + 1 == i {
      assert Overflows(trace, steps, i, id) == 0;
    } else {
      NoOverflowIff(trace, steps, joined, i - 1, id);
      var before, now := Overflows(trace, steps, i - 1, id), Overflows(trace, steps, i, id);
      assert now == before + if FindsFull(trace, steps, i - 1, id) then 1 else 0;
    }
  }

  /** From its joining on, a subscriber gets everything in order (what it has read,
      followed by what it has still to read, is what was published) iff no publication
      ever found it a hundred behind. */
  lemma {:induction false} KeepingUpGetsEverything(trace: seq<map<nat, seq<string>>>, steps: seq<StreamStep>, joined: nat, i: nat, id: nat)
    requires IsStreamRun(trace, steps) && joined < i <= |steps| && steps[joined] == Join(id)
    requires forall j :: joined < j < i ==> steps[j] != Join(id) && steps[j] != Leave(id)
    ensures id in trace[i]
    ensures ReadBy(trace, steps, i, id) + trace[i][id] == Published(steps, i, id) <==>
            forall j :: joined < j < i ==> !FindsFull(trace, steps, j, id)
  {
    NoOverflowIff(trace, steps, joined, i, id);
    LifeStands(trace, steps, i, id);
    LifeKeepsInv(steps, i, id);
    CompleteIffNoneDropped(Life(steps, i, id));
  }

  lemma {:induction false} PushPayloads(q: seq<Numbered>, e: Numbered)
    ensures Payloads(Push(q, e)) == Push(Payloads(q), e.payload)
  {
  }

  /** `AlertEventStream` and `ActivityEventStream`. */
  class EventStream {
    var queues: map<nat, seq<string>>
    var nextQueue: nat

    ghost predicate Valid()
      reads this
    {
      forall id :: id in queues ==> id < nextQueue && |queues[id]| <= QUEUE_SIZE
    }

    constructor ()
      ensures Valid() && queues == map[]
    {
      queues, nextQueue := map[], 0;
    }

    method Subscribe() returns (id: nat)
      requires Valid()
      modifies this
      ensures Valid() && CanStep(old(queues), Join(id)) && queues == Queues(old(queues), Join(id))
    {
      id := nextQueue;
      nextQueue := nextQueue + 1;
      queues := queues[id := []];
    }

    method Unsubscribe(id: nat)
      requires Valid()
      modifies this
      ensures Valid() && queues == Queues(old(queues), Leave(id))
    {
      queues := queues - {id};
    }

    /** `put_nowait`; on a full queue `get_nowait`, then `put_nowait` again. */
    method Put(queue: seq<string>, payload: string) returns (updated: seq<string>)
      ensures updated == if |queue| <= QUEUE_SIZE then Push(queue, payload) else queue[1..]
    {
      updated := queue;
      if |updated| < QUEUE_SIZE {
        updated := updated + [payload];
      } else {
        if |updated| > 0 {
          updated := updated[1..];
        }
        if |updated| < QUEUE_SIZE {
          updated := updated + [payload];
        }
      }
    }

    /** The publish loop over the current queues. */
    method Publish(payload: string)
      requires Valid()
      modifies this
      ensures Valid() && queues == Queues(old(queues), Send(payload))
    {
      var todo := queues.Keys;
      while todo != {}
        invariant Valid() && todo <= queues.Keys == old(queues).Keys
        invariant forall id :: id in queues ==>
                    queues[id] == if id in todo then old(queues)[id] else Push(old(queues)[id], payload)
        decreases todo
      {
        var id :| id in todo;
        todo := todo - {id};
        var queue := Put(queues[id], payload);
        queues := queues[id := queue];
      }
    }

    method Get(id: nat) returns (payload: string)
      requires Valid() && CanStep(queues, Read(id))
      modifies this
      ensures Valid() && payload == old(queues)[id][0] && queues == Queues(old(queues), Read(id))
    {
      payload := queues[id][0];
      queues := queues[id := queues[id][1..]];
    }
  }
}
