/**
 * The cloud message protocol drains: sending, acknowledging, timing out and withdrawing use up a
 * measure that only new messages and nacks refill.
 */
module CloudProtocolDrain {
  import opened Seqs
  import opened CloudProtocol

  /** Retries left, two for each: one send and one timeout. */
  function InFlightWeight(m: Message): nat {
    2 * (if m.tries <= MAX_TRIES then MAX_TRIES - m.tries else 0) + 1
  }

  function QueuedWeight(m: Message): nat {
    if m.policy.SendOnly? then 1 else InFlightWeight(m) + 1
  }

  function QueueMeasure(queue: seq<Message>): nat {
    if queue == [] then 0 else QueuedWeight(queue[0]) + QueueMeasure(queue[1..])
  }

  ghost function SentMeasure(sent: map<Txn, Message>): nat
    decreases |sent|
  {
    if sent == map[] then 0
    else
      var t :| t in sent;
      InFlightWeight(sent[t]) + SentMeasure(sent - {t})
  }

  ghost function Measure(s: State): nat {
    QueueMeasure(s.queue) + SentMeasure(s.sent)
  }

  lemma {:induction false} QueueAppend(q: seq<Message>, r: seq<Message>)
    ensures QueueMeasure(q + r) == QueueMeasure(q) + QueueMeasure(r)
  {
    if q == [] {
      assert q + r == r;
    } else {
      QueueAppend(q[1..], r);
      assert (q + r)[1..] == q[1..] + r;
    }
  }

  lemma {:induction false} QueueRemoveAt(q: seq<Message>, i: nat)
    requires i < |q|
    ensures QueueMeasure(q) == QueueMeasure(RemoveAt(q, i)) + QueuedWeight(q[i])
  {
    var before, rest := q[..i], q[i..];
    assert q == before + rest;
    QueueAppend(before, rest);
    assert rest[0] == q[i] && rest[1..] == q[i + 1..];
    QueueAppend(before, rest[1..]);
  }

  lemma {:induction false} QueueFilter(q: seq<Message>, keep: Message -> bool)
    ensures QueueMeasure(Filter(q, keep)) + (|q| - |Filter(q, keep)|) <= QueueMeasure(q)
  {
    if q != [] {
      QueueFilter(q[1..], keep);
    }
  }

  /** The sum over the map does not depend on the order of the summands. */
  lemma {:induction false} SentRemove(sent: map<Txn, Message>, t: Txn)
    requires t in sent
    ensures SentMeasure(sent) == InFlightWeight(sent[t]) + SentMeasure(sent - {t})
    decreases |sent|
  {
    var u :| u in sent && SentMeasure(sent) == InFlightWeight(sent[u]) + SentMeasure(sent - {u});
    if u != t {
      SentRemove(sent - {u}, t);
      SentRemove(sent - {t}, u);
      assert sent - {u} - {t} == sent - {t} - {u};
    }
  }

  lemma SentAdd(sent: map<Txn, Message>, t: Txn, m: Message)
    requires t !in sent
    ensures SentMeasure(sent[t := m]) == InFlightWeight(m) + SentMeasure(sent)
  {
    SentRemove(sent[t := m], t);
    assert sent[t := m] - {t} == sent;
  }

  // Each step against the measure

  predicate Expired(m: Message, now: int, wait: int) {
    m.timestamp + wait <= now
  }

  /** The step moves the protocol on: a message is sent, acknowledged, timed out or withdrawn. */
  ghost predicate Progress(s: State, a: Step) {
    match a
    case DoSend(now, sendOk) => sendOk && FirstDue(s.queue, now, 0).Some?
    case DoAck(txn) => txn in s.sent
    case DoCheck(_, now, wait) => exists t | t in s.sent :: Expired(s.sent[t], now, wait)
    case DoDequeue(txn, _) => txn in s.sent || exists m | m in s.queue :: m.txn == txn
    case _ => false
  }

  lemma SendDrains(s: State, i: nat)
    requires i < |s.queue|
    ensures Measure(SendAt(s, i)) + 1 <= Measure(s)
  {
    QueueRemoveAt(s.queue, i);
    if s.queue[i].txn !in s.sent {
      SentAdd(s.sent, s.queue[i].txn, s.queue[i]);
    }
  }

  lemma SentForget(sent: map<Txn, Message>, t: Txn)
    ensures SentMeasure(sent - {t}) + One(t in sent) <= SentMeasure(sent)
  {
    if t in sent {
      SentRemove(sent, t);
    } else {
      assert sent - {t} == sent;
    }
  }

  lemma CheckOneDrains(s: State, txn: Txn, now: int, wait: int)
    requires txn in s.sent
    ensures Measure(CheckOne(s, txn, now, wait)) + One(Expired(s.sent[txn], now, wait)) <= Measure(s)
  {
    var m := s.sent[txn];
    SentRemove(s.sent, txn);
    QueueAppend(s.queue, [m.(timestamp := now, tries := m.tries + 1)]);
  }

  lemma {:induction false} CheckDrains(s: State, order: seq<Txn>, now: int, wait: int)
    requires NoDup(order) && forall t | t in order :: t in s.sent
    ensures Measure(Check(s, order, now, wait)) + One(exists t | t in order :: Expired(s.sent[t], now, wait))
            <= Measure(s)
    decreases order
  {
    if order != [] {
      var first := order[0];
      assert first in order && forall t | t in order[1..] :: t in order && t != first;
      var s1 := CheckOne(s, first, now, wait);
      CheckOneDrains(s, first, now, wait);
      CheckDrains(s1, order[1..], now, wait);
      if t :| t in order && Expired(s.sent[t], now, wait) {
        assert t == first || (t in order[1..] && s1.sent[t] == s.sent[t]);
      }
    }
  }

  lemma {:induction false} FilterShorter(q: seq<Message>, keep: Message -> bool, m: Message)
    requires m in q && !keep(m)
    ensures |Filter(q, keep)| < |q|
  {
    if q[0] != m {
      assert m in q[1..];
      FilterShorter(q[1..], keep, m);
    }
  }

  lemma DequeueDrains(s: State, txn: Txn, c: CorrelationID)
    ensures Measure(Dequeue(s, txn, c)) + One(Progress(s, DoDequeue(txn, c))) <= Measure(s)
  {
    QueueFilter(s.queue, OtherTxn(txn));
    SentForget(s.sent, txn);
    if m :| m in s.queue && m.txn == txn {
      FilterShorter(s.queue, OtherTxn(txn), m);
    }
  }

  /** What a step can add to the measure: the four sends and timeouts of a new message, one for a nack. */
  function Fuel(a: Step): nat {
    match a
    case DoEnqueue(_, _) => 2 * MAX_TRIES + 2
    case DoNack(_, _) => 1
    case _ => 0
  }

  lemma StepDrains(s: State, a: Step)
    requires Possible(s, a)
    ensures Measure(Apply(s, a)) + One(Progress(s, a)) <= Measure(s) + Fuel(a)
  {
    match a
    case DoEnqueue(m, _) => QueueAppend(s.queue, [m]);
    case DoSend(now, sendOk) =>
      if Progress(s, a) {
        SendDrains(s, FirstDue(s.queue, now, 0).value);
      }
    case DoAck(txn) => SentForget(s.sent, txn);
    case DoNack(txn, retryAt) =>
      QueueAppend(s.queue, [s.sent[txn].(timestamp := retryAt)]);
      SentRemove(s.sent, txn);
    case DoCheck(order, now, wait) => CheckDrains(s, order, now, wait);
    case DoDequeue(txn, c) => DequeueDrains(s, txn, c);
    case DoTakeHandler(_) =>
  }

  ghost function ProgressSteps(states: seq<State>, steps: seq<Step>, i: nat, j: nat): nat
    requires IsRun(states, steps) && i <= j <= |steps|
    decreases j
  {
    if i == j then 0 else ProgressSteps(states, steps, i, j - 1) + One(Progress(states[j - 1], steps[j - 1]))
  }

  function TotalFuel(steps: seq<Step>, i: nat, j: nat): nat
    requires i <= j <= |steps|
    decreases j
  {
    if i == j then 0 else TotalFuel(steps, i, j - 1) + Fuel(steps[j - 1])
  }

  /**
   * Between any two points of a run there is no more progress than the messages at hand allow, with eight
   * steps for each new message and one for each nack. Without those, every run comes to rest.
   */
  lemma {:induction false} RunsDrain(states: seq<State>, steps: seq<Step>, i: nat, j: nat)
    requires IsRun(states, steps) && i <= j <= |steps|
    ensures ProgressSteps(states, steps, i, j) + Measure(states[j]) <= Measure(states[i]) + TotalFuel(steps, i, j)
    decreases j
  {
    if i < j {
      RunsDrain(states, steps, i, j - 1);
      StepDrains(states[j - 1], steps[j - 1]);
    }
  }
}
