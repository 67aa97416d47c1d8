/** What becomes of a message that is offered to `Send`, counted from the calls alone. */
module SendAccounting {
  import opened Common
  import opened Transport

  const PONG := Message(Pong, "")

  /** How many offers of the message a step makes: a call of `Send`, or the pong that
      answers a ping. */
  function OffersOf(t: Step, m: Message): nat {
    if (t.SendBegin? && t.message == m) || (t.GotPing? && m == PONG) then 1 else 0
  }

  /** How often the message was offered by the first `i` steps. */
  function OfferedBy(steps: seq<Step>, i: nat, m: Message): nat
    requires i <= |steps|
  {
    if i == 0 then 0 else OfferedBy(steps, i - 1, m) + OffersOf(steps[i - 1], m)
  }

  function AcceptedOf(log: seq<Item>, m: Message): nat {
    if log == [] then 0 else AcceptedOf(log[..|log| - 1], m) + if log[|log| - 1].message == m then 1 else 0
  }

  function RefusedOf(log: seq<Refusal>, m: Message): nat {
    if log == [] then 0 else RefusedOf(log[..|log| - 1], m) + if log[|log| - 1].message == m then 1 else 0
  }

  /** The calls of `Send`, the read loop's included, that still have the message in hand. */
  function InHand(s: State, m: Message): nat {
    |Having(s.senders, m)| + if s.run.SendPong? && m == PONG then 1 else 0
  }

  function Having(senders: map<nat, Message>, m: Message): set<nat> {
    set id | id in senders && senders[id] == m
  }

  function Tally(s: State, m: Message): nat {
    AcceptedOf(s.accepted, m) + RefusedOf(s.refused, m) + InHand(s, m)
  }

  lemma {:induction false} AcceptedSnoc(log: seq<Item>, x: Item, m: Message)
    ensures AcceptedOf(log + [x], m) == AcceptedOf(log, m) + if x.message == m then 1 else 0
  {
    assert (log + [x])[..|log|] == log;
  }

  lemma {:induction false} RefusedSnoc(log: seq<Refusal>, x: Refusal, m: Message)
    ensures RefusedOf(log + [x], m) == RefusedOf(log, m) + if x.message == m then 1 else 0
  {
    assert (log + [x])[..|log|] == log;
  }

  lemma {:induction false} OfferTally(s: State, x: Message, m: Message)
    ensures Tally(Offer(s, x), m) == Tally(s, m) + if x == m then 1 else 0
  {
    AcceptedSnoc(s.accepted, Item(|s.accepted|, x), m);
    RefusedSnoc(s.refused, Refusal(x, |s.queue|), m);
  }

  lemma {:induction false} SendersGrow(senders: map<nat, Message>, id: nat, x: Message, m: Message)
    requires id !in senders
    ensures |Having(senders[id := x], m)| == |Having(senders, m)| + if x == m then 1 else 0
  {
    assert Having(senders[id := x], m) == if x == m then Having(senders, m) + {id} else Having(senders, m);
  }

  lemma {:induction false} SendersShrink(senders: map<nat, Message>, id: nat, m: Message)
    requires id in senders
    ensures |Having(senders, m)| == |Having(senders - {id}, m)| + if senders[id] == m then 1 else 0
  {
    assert Having(senders - {id}, m) == Having(senders, m) - {id};
  }

  lemma {:induction false} BeginTally(s: State, t: Step, m: Message)
    requires Enabled(s, t) && t.SendBegin?
    ensures Tally(Do(s, t), m) == Tally(s, m) + OffersOf(t, m)
  {
    RefusedSnoc(s.refused, Refusal(t.message, |s.queue|), m);
    SendersGrow(s.senders, t.sender, t.message, m);
  }

  lemma {:induction false} FinishTally(s: State, t: Step, m: Message)
    requires Enabled(s, t) && t.SendFinish?
    ensures Tally(Do(s, t), m) == Tally(s, m) + OffersOf(t, m)
  {
    var s1, x := s.(senders := s.senders - {t.sender}), s.senders[t.sender];
    assert Do(s, t) == Offer(s1, x);
    OfferTally(s1, x, m);
    SendersShrink(s.senders, t.sender, m);
  }

  lemma {:induction false} PongTally(s: State, t: Step, m: Message)
    requires Enabled(s, t) && t.PongFinish?
    ensures Tally(Do(s, t), m) == Tally(s, m) + OffersOf(t, m)
  {
    var s1 := s.(run := Reading);
    assert Do(s, t) == Offer(s1, PONG);
    OfferTally(s1, PONG, m);
  }

  /** The other steps of `Run` and of the pumps leave the senders and their logs alone. */
  lemma {:induction false} OthersOfferNothing(s: State, t: Step)
    requires Enabled(s, t) && !OfSender(t) && !t.PongFinish?
    ensures var s' := Do(s, t);
            s'.senders == s.senders && s'.accepted == s.accepted && s'.refused == s.refused
            && (s'.run.SendPong? <==> s.run.SendPong? || t.GotPing?) && (t.GotPing? ==> !s.run.SendPong?)
  {
  }

  lemma {:induction false} StepTally(s: State, t: Step, m: Message)
    requires Enabled(s, t)
    ensures Tally(Do(s, t), m) == Tally(s, m) + OffersOf(t, m)
  {
    if t.SendBegin? {
      BeginTally(s, t, m);
    } else if t.SendFinish? {
      FinishTally(s, t, m);
    } else if t.PongFinish? {
      PongTally(s, t, m);
    } else {
      OthersOfferNothing(s, t);
    }
  }

  /** Conservation from the offer on: in every run, every offer of a message was accepted,
      was refused, or is still in the hands of its `Send` call. */
  lemma {:induction false} OffersAreAccountedFor(trace: seq<State>, steps: seq<Step>, i: nat, m: Message)
    requires IsRun(trace, steps) && i < |trace|
    ensures OfferedBy(steps, i, m) ==
            AcceptedOf(trace[i].accepted, m) + RefusedOf(trace[i].refused, m) + InHand(trace[i], m)
  {
    if i == 0 {
      assert Having(INIT.senders, m) == {};
    } else {
      OffersAreAccountedFor(trace, steps, i - 1, m);
      StepTally(trace[i - 1], steps[i - 1], m);
    }
  }

  /** When a message is refused: on calling `Send`, iff at least 192 are waiting and it is
      telemetry, a process list, an NTP status or network information; and on queueing,
      iff 256 are waiting. An event, a command result or a screenshot is queued only when
      there is room, so it waits instead. */
  lemma {:induction false} RefusedIff(trace: seq<State>, steps: seq<Step>, i: nat)
    requires IsRun(trace, steps) && i < |steps|
    ensures var s, s', t := trace[i], trace[i + 1], steps[i];
            && (t.SendBegin? ==>
                  var busy := |s.queue| >= 192 && t.message.kind in {Telemetry, ProcessList, NtpStatus, NetworkInfo};
                  && s'.refused == s.refused + (if busy then [Refusal(t.message, |s.queue|)] else [])
                  && s'.senders == if busy then s.senders else s.senders[t.sender := t.message])
            && (t.SendFinish? || t.PongFinish? ==>
                  var m := if t.SendFinish? then s.senders[t.sender] else PONG;
                  && s'.refused == s.refused + (if |s.queue| < 256 then [] else [Refusal(m, |s.queue|)])
                  && s'.accepted == s.accepted + (if |s.queue| < 256 then [Item(|s.accepted|, m)] else [])
                  && (m.kind in {EventReport, CommandResult, ScreenshotResult} ==> |s.queue| < 256))
            && (!t.SendBegin? && !t.SendFinish? && !t.PongFinish? ==> s'.refused == s.refused && s'.accepted == s.accepted)
  {
    assert trace[i + 1] == Do(trace[i], steps[i]);
  }

  /** A `Send` call can always go on, unless its message is an event, a command result or
      a screenshot and the channel is full. */
  lemma {:induction false} SendBlocksIff(s: State, id: nat)
    requires id in s.senders
    ensures Enabled(s, SendFinish(id)) <==>
            !(s.senders[id].kind in {EventReport, CommandResult, ScreenshotResult} && |s.queue| >= 256)
  {
  }

  lemma {:induction false} NoneRefused(log: seq<Refusal>, m: Message)
    requires Critical(m.kind) && forall i :: 0 <= i < |log| ==> MayRefuse(log[i])
    ensures RefusedOf(log, m) == 0
  {
    if log != [] {
      NoneRefused(log[..|log| - 1], m);
    }
  }

  /** `Send` never discards an event, a command result or a screenshot: in every run each
      one offered was accepted or is still waiting in its `Send` call. */
  lemma {:induction false} CriticalIsNeverDiscarded(trace: seq<State>, steps: seq<Step>, i: nat, m: Message)
    requires IsRun(trace, steps) && i < |trace| && m.kind in {EventReport, CommandResult, ScreenshotResult}
    ensures OfferedBy(steps, i, m) ==
            AcceptedOf(trace[i].accepted, m) + |set id | id in trace[i].senders && trace[i].senders[id] == m|
  {
    OffersAreAccountedFor(trace, steps, i, m);
    Reachable(trace, steps, i);
    NoneRefused(trace[i].refused, m);
    assert Having(trace[i].senders, m) == set id | id in trace[i].senders && trace[i].senders[id] == m;
  }
}
