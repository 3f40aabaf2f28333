/**
 * The cloud message protocol: send queue, messages in flight, retries and response handlers
 * (src/cm/communication/communication.cpp). Every step is one section under the mutex.
 */
module CloudProtocol {
  import opened Seqs
  import opened Wrappers

  type Txn = string
  type CorrelationID = string
  type Handler = nat

  const MAX_TRIES: nat := 3

  datatype Policy = ExpectAck | SendOnly

  datatype Message = Message(
    txn: Txn, payload: string, policy: Policy, correlationID: CorrelationID, timestamp: int, tries: nat)
  {
    predicate RetryAllowed() {
      tries < MAX_TRIES
    }
  }

  /** What happened so far to the messages that expect an ack; nothing of it influences the protocol. */
  datatype Ledger = Ledger(
    enqueued: set<Txn>, acked: set<Txn>, givenUp: set<Txn>, withdrawn: set<Txn>,
    sends: map<Txn, nat>, nacks: map<Txn, nat>,
    correlation: map<Txn, CorrelationID>, owner: map<CorrelationID, Txn>,
    taken: seq<CorrelationID>, dequeued: set<CorrelationID>)

  datatype State = State(
    queue: seq<Message>, sent: map<Txn, Message>, handlers: map<CorrelationID, Handler>, ledger: Ledger)

  const START: State :=
    State([], map[], map[], Ledger({}, {}, {}, {}, map[], map[], map[], map[], [], {}))

  function Count(counts: map<Txn, nat>, t: Txn): nat {
    if t in counts then counts[t] else 0
  }

  // The steps

  function Enqueue(s: State, m: Message, handler: Option<Handler>): State {
    var handlers :=
      if handler.Some? && m.correlationID !in s.handlers then s.handlers[m.correlationID := handler.value]
      else s.handlers;
    var l := s.ledger;
    State(s.queue + [m], s.sent, handlers,
          if m.policy.SendOnly? then l
          else l.(enqueued := l.enqueued + {m.txn},
                  correlation := l.correlation[m.txn := m.correlationID],
                  owner := if handler.Some? then l.owner[m.correlationID := m.txn] else l.owner))
  }

  predicate Due(m: Message, now: int) {
    m.timestamp < now
  }

  /** The first message whose time has come when the scan reads the clock for it; now(i) is that reading. */
  function FirstDue(queue: seq<Message>, now: nat -> int, from: nat): (i: Option<nat>)
    requires from <= |queue|
    ensures i.Some? ==> from <= i.value < |queue| && Due(queue[i.value], now(i.value))
    ensures i.Some? ==> forall k | from <= k < i.value :: !Due(queue[k], now(k))
    ensures i.None? ==> forall k | from <= k < |queue| :: !Due(queue[k], now(k))
    decreases |queue| - from
  {
    if from == |queue| then None
    else if Due(queue[from], now(from)) then Some(from)
    else FirstDue(queue, now, from + 1)
  }

  function SendAt(s: State, i: nat): State
    requires i < |s.queue|
  {
    var m := s.queue[i];
    var l := s.ledger;
    if m.policy.SendOnly? then s.(queue := RemoveAt(s.queue, i))
    else
      s.(queue := RemoveAt(s.queue, i),
         sent := if m.txn in s.sent then s.sent else s.sent[m.txn := m],
         ledger := l.(sends := l.sends[m.txn := Count(l.sends, m.txn) + 1]))
  }

  /** Sends one message. An entry in flight is never overwritten. */
  function Send(s: State, now: nat -> int, sendOk: bool): State {
    match FirstDue(s.queue, now, 0)
    case None => s
    case Some(i) =>
      if !sendOk then s else SendAt(s, i)
  }

  function Ack(s: State, txn: Txn): State {
    var l := s.ledger;
    s.(sent := s.sent - {txn}, ledger := if txn in s.sent then l.(acked := l.acked + {txn}) else l)
  }

  /** The message returns to the queue with a new time and its old number of tries. */
  function Nack(s: State, txn: Txn, retryAt: int): State {
    if txn !in s.sent then s
    else
      var l := s.ledger;
      s.(queue := s.queue + [s.sent[txn].(timestamp := retryAt)], sent := s.sent - {txn},
         ledger := l.(nacks := l.nacks[txn := Count(l.nacks, txn) + 1]))
  }

  /** One message in flight at a timeout check. */
  function CheckOne(s: State, txn: Txn, now: int, wait: int): State
    requires txn in s.sent
  {
    var m := s.sent[txn];
    var l := s.ledger;
    if m.timestamp + wait > now then s
    else if !m.RetryAllowed() then
      s.(sent := s.sent - {txn}, handlers := s.handlers - {m.correlationID}, ledger := l.(givenUp := l.givenUp + {txn}))
    else
      s.(queue := s.queue + [m.(timestamp := now, tries := m.tries + 1)], sent := s.sent - {txn})
  }

  function Check(s: State, order: seq<Txn>, now: int, wait: int): State
    requires NoDup(order) && forall t | t in order :: t in s.sent
    decreases order
  {
    if order == [] then s
    else
      assert order[0] in order && forall t | t in order[1..] :: t in order && t != order[0];
      Check(CheckOne(s, order[0], now, wait), order[1..], now, wait)
  }

  function OtherTxn(txn: Txn): Message -> bool {
    (m: Message) => m.txn != txn
  }

  /** The copies of a message that wait in the queue. */
  function Copies(queue: seq<Message>, t: Txn): nat {
    if queue == [] then 0
    else (if queue[0].policy.ExpectAck? && queue[0].txn == t then 1 else 0) + Copies(queue[1..], t)
  }

  /** Withdraws a message after its sender has waited long enough. */
  function Dequeue(s: State, txn: Txn, correlationID: CorrelationID): State {
    var l := s.ledger;
    State(Filter(s.queue, OtherTxn(txn)), s.sent - {txn}, s.handlers - {correlationID},
          l.(dequeued := l.dequeued + {correlationID},
             withdrawn := if Copies(s.queue, txn) > 0 || txn in s.sent then l.withdrawn + {txn} else l.withdrawn))
  }

  /** Takes the handler of a response out, for calling it. */
  function TakeHandler(s: State, c: CorrelationID): State {
    var l := s.ledger;
    if c !in s.handlers then s
    else s.(handlers := s.handlers - {c}, ledger := l.(taken := l.taken + [c]))
  }

  // Conservation

  function One(b: bool): nat {
    if b then 1 else 0
  }

  /** A message is in as many places as it was enqueued: one, or none. */
  ghost predicate InOnePlace(s: State, t: Txn) {
    var l := s.ledger;
    Copies(s.queue, t) + One(t in s.sent) + One(t in l.acked) + One(t in l.givenUp) + One(t in l.withdrawn)
    == One(t in l.enqueued)
  }

  /** Sends, tries and nacks of one message agree. */
  ghost predicate CountsAgree(s: State, t: Txn) {
    var l := s.ledger;
    var (sends, nacks) := (Count(l.sends, t), Count(l.nacks, t));
    && (t !in l.enqueued ==> sends == 0 && nacks == 0)
    && (t in s.sent ==> s.sent[t].txn == t && s.sent[t].policy.ExpectAck? && s.sent[t].tries <= MAX_TRIES
                        && sends == s.sent[t].tries + nacks + 1)
    && (t in l.givenUp ==> sends == MAX_TRIES + 1 + nacks)
    && (t in l.acked ==> nacks + 1 <= sends <= nacks + MAX_TRIES + 1)
  }

  ghost predicate QueuedAgrees(l: Ledger, m: Message) {
    if m.policy.SendOnly? then m.correlationID == ""
    else
      && m.tries <= MAX_TRIES && Count(l.sends, m.txn) == m.tries + Count(l.nacks, m.txn)
      && m.txn in l.correlation && l.correlation[m.txn] == m.correlationID
  }

  ghost predicate SentAgrees(l: Ledger, m: Message) {
    m.txn in l.correlation && l.correlation[m.txn] == m.correlationID
  }

  /** A handler waits exactly until it is taken, its message is given up or its sender withdraws. */
  ghost predicate HandlerAgrees(s: State, c: CorrelationID) {
    var l := s.ledger;
    && (c in s.handlers <==> c in l.owner && c !in l.taken && l.owner[c] !in l.givenUp && c !in l.dequeued)
    && (c in l.taken || (c in l.dequeued && c != "") ==> c in l.owner)
    && (c in l.owner ==> c != "" && l.owner[c] in l.enqueued && l.owner[c] in l.correlation)
    && (c in l.owner ==> l.correlation[l.owner[c]] == c && (l.owner[c] in l.withdrawn ==> c in l.dequeued))
  }

  ghost predicate LedgerOk(l: Ledger) {
    && NoDup(l.taken)
    && l.correlation.Keys == l.enqueued
    && (forall t | t in l.correlation && l.correlation[t] != "" ::
          l.correlation[t] in l.owner && l.owner[l.correlation[t]] == t)
  }

  ghost predicate Inv(s: State) {
    && (forall t :: InOnePlace(s, t))
    && (forall t :: CountsAgree(s, t))
    && (forall m | m in s.queue :: QueuedAgrees(s.ledger, m))
    && (forall t | t in s.sent :: SentAgrees(s.ledger, s.sent[t]))
    && (forall c :: HandlerAgrees(s, c))
    && LedgerOk(s.ledger)
  }

  lemma {:induction false} CopiesAppend(q: seq<Message>, r: seq<Message>, t: Txn)
    ensures Copies(q + r, t) == Copies(q, t) + Copies(r, t)
  {
    if q == [] {
      assert q + r == r;
    } else {
      CopiesAppend(q[1..], r, t);
      assert (q + r)[1..] == q[1..] + r;
    }
  }

  lemma CopiesOne(m: Message, t: Txn)
    ensures Copies([m], t) == One(m.policy.ExpectAck? && m.txn == t)
  {
  }

  lemma CopiesRemoveAt(q: seq<Message>, i: nat, t: Txn)
    requires i < |q|
    ensures Copies(q, t) == Copies(RemoveAt(q, i), t) + One(q[i].policy.ExpectAck? && q[i].txn == t)
  {
    assert q == q[..i] + ([q[i]] + q[i + 1..]);
    CopiesAppend(q[..i], [q[i]] + q[i + 1..], t);
    CopiesAppend([q[i]], q[i + 1..], t);
    CopiesAppend(q[..i], q[i + 1..], t);
  }

  lemma {:induction false} CopiesFilter(q: seq<Message>, txn: Txn, t: Txn)
    ensures Copies(Filter(q, OtherTxn(txn)), t) == if t == txn then 0 else Copies(q, t)
  {
    if q != [] {
      CopiesFilter(q[1..], txn, t);
    }
  }

  lemma {:induction false} CopiesPositive(q: seq<Message>, t: Txn)
    ensures Copies(q, t) > 0 <==> exists m | m in q :: m.policy.ExpectAck? && m.txn == t
  {
    if q != [] {
      CopiesPositive(q[1..], t);
      assert q == [q[0]] + q[1..];
    }
  }

  // Each step keeps the invariant

  /** New transactions are fresh; only a message with a handler carries a correlation ID, also fresh. */
  ghost predicate Fresh(s: State, m: Message, handler: Option<Handler>) {
    && m.tries == 0
    && (m.policy.ExpectAck? ==> m.txn !in s.ledger.enqueued)
    && (handler.Some? ==> m.policy.ExpectAck? && m.correlationID != "" && m.correlationID !in s.ledger.owner)
    && (handler.None? ==> m.correlationID == "")
  }

  lemma EnqueueKeepsPlaces(s: State, m: Message, handler: Option<Handler>, t: Txn)
    requires InOnePlace(s, t) && CountsAgree(s, t) && Fresh(s, m, handler)
    ensures InOnePlace(Enqueue(s, m, handler), t) && CountsAgree(Enqueue(s, m, handler), t)
  {
    CopiesAppend(s.queue, [m], t);
    CopiesOne(m, t);
  }

  /** A fresh handler waits for a fresh message. */
  lemma EnqueueKeepsHandlers(s: State, m: Message, handler: Option<Handler>, c: CorrelationID)
    requires HandlerAgrees(s, c) && HandlerAgrees(s, m.correlationID) && InOnePlace(s, m.txn) && Fresh(s, m, handler)
    ensures HandlerAgrees(Enqueue(s, m, handler), c)
  {
  }

  lemma EnqueueKeepsQueue(s: State, m: Message, handler: Option<Handler>)
    requires CountsAgree(s, m.txn) && (forall n | n in s.queue :: QueuedAgrees(s.ledger, n)) && Fresh(s, m, handler)
    requires s.ledger.correlation.Keys == s.ledger.enqueued
    ensures forall n | n in Enqueue(s, m, handler).queue :: QueuedAgrees(Enqueue(s, m, handler).ledger, n)
  {
    var s' := Enqueue(s, m, handler);
    forall n | n in s'.queue
      ensures QueuedAgrees(s'.ledger, n)
    {
      if n in s.queue {
        assert QueuedAgrees(s.ledger, n);
      } else {
        assert n == m;
      }
    }
  }

  lemma EnqueueKeepsLedger(s: State, m: Message, handler: Option<Handler>)
    requires LedgerOk(s.ledger) && (forall t | t in s.sent :: SentAgrees(s.ledger, s.sent[t])) && Fresh(s, m, handler)
    ensures var s' := Enqueue(s, m, handler);
            LedgerOk(s'.ledger) && forall t | t in s'.sent :: SentAgrees(s'.ledger, s'.sent[t])
  {
  }

  lemma EnqueueKeepsInv(s: State, m: Message, handler: Option<Handler>)
    requires Inv(s) && Fresh(s, m, handler)
    ensures Inv(Enqueue(s, m, handler))
  {
    var s' := Enqueue(s, m, handler);
    forall t
      ensures InOnePlace(s', t) && CountsAgree(s', t)
    {
      EnqueueKeepsPlaces(s, m, handler, t);
    }
    forall c
      ensures HandlerAgrees(s', c)
    {
      EnqueueKeepsHandlers(s, m, handler, c);
    }
    EnqueueKeepsQueue(s, m, handler);
    EnqueueKeepsLedger(s, m, handler);
  }

  lemma SendAtKeepsInv(s: State, i: nat)
    requires Inv(s) && i < |s.queue|
    ensures Inv(SendAt(s, i))
    ensures s.queue[i].policy.ExpectAck? ==> s.queue[i].txn !in s.sent
  {
    var m, s' := s.queue[i], SendAt(s, i);
    assert m in s.queue && QueuedAgrees(s.ledger, m);
    CopiesRemoveAt(s.queue, i, m.txn);
    assert InOnePlace(s, m.txn);
    forall t
      ensures InOnePlace(s', t) && CountsAgree(s', t)
    {
      assert InOnePlace(s, t) && CountsAgree(s, t);
      CopiesRemoveAt(s.queue, i, t);
    }
    forall n | n in s'.queue
      ensures QueuedAgrees(s'.ledger, n)
    {
      assert n in s.queue && QueuedAgrees(s.ledger, n);
      if m.policy.ExpectAck? && n.policy.ExpectAck? && n.txn == m.txn {
        CopiesPositive(s'.queue, n.txn);
        assert false;
      }
    }
    forall c
      ensures HandlerAgrees(s', c)
    {
      assert HandlerAgrees(s, c);
    }
  }

  lemma AckKeepsInv(s: State, txn: Txn)
    requires Inv(s)
    ensures Inv(Ack(s, txn))
  {
    var s' := Ack(s, txn);
    forall t
      ensures InOnePlace(s', t) && CountsAgree(s', t)
    {
      assert InOnePlace(s, t) && CountsAgree(s, t);
    }
    forall c
      ensures HandlerAgrees(s', c)
    {
      assert HandlerAgrees(s, c);
    }
  }

  lemma NackKeepsInv(s: State, txn: Txn, retryAt: int)
    requires Inv(s) && txn in s.sent
    ensures Inv(Nack(s, txn, retryAt))
  {
    var s' := Nack(s, txn, retryAt);
    var m := s.sent[txn].(timestamp := retryAt);
    assert InOnePlace(s, txn) && CountsAgree(s, txn) && SentAgrees(s.ledger, s.sent[txn]);
    forall t
      ensures InOnePlace(s', t) && CountsAgree(s', t)
    {
      assert InOnePlace(s, t) && CountsAgree(s, t);
      CopiesAppend(s.queue, [m], t);
      CopiesOne(m, t);
    }
    forall n | n in s'.queue
      ensures QueuedAgrees(s'.ledger, n)
    {
      if n != m {
        assert n in s.queue && QueuedAgrees(s.ledger, n);
        CopiesPositive(s.queue, txn);
      }
    }
    forall c
      ensures HandlerAgrees(s', c)
    {
      assert HandlerAgrees(s, c);
    }
  }

  lemma CheckOneKeepsPlaces(s: State, txn: Txn, now: int, wait: int, t: Txn)
    requires txn in s.sent && InOnePlace(s, t) && CountsAgree(s, t) && InOnePlace(s, txn) && CountsAgree(s, txn)
    ensures InOnePlace(CheckOne(s, txn, now, wait), t) && CountsAgree(CheckOne(s, txn, now, wait), t)
  {
    var m := s.sent[txn];
    var again := m.(timestamp := now, tries := m.tries + 1);
    CopiesAppend(s.queue, [again], t);
    CopiesOne(again, t);
  }

  lemma CheckOneKeepsHandlers(s: State, txn: Txn, now: int, wait: int, c: CorrelationID)
    requires txn in s.sent && HandlerAgrees(s, c) && SentAgrees(s.ledger, s.sent[txn]) && s.sent[txn].txn == txn
    requires LedgerOk(s.ledger)
    ensures HandlerAgrees(CheckOne(s, txn, now, wait), c)
  {
  }

  lemma CheckOneKeepsQueue(s: State, txn: Txn, now: int, wait: int)
    requires txn in s.sent && CountsAgree(s, txn) && SentAgrees(s.ledger, s.sent[txn])
    requires forall n | n in s.queue :: QueuedAgrees(s.ledger, n)
    ensures var s' := CheckOne(s, txn, now, wait); forall n | n in s'.queue :: QueuedAgrees(s'.ledger, n)
  {
    var (s', m) := (CheckOne(s, txn, now, wait), s.sent[txn]);
    forall n | n in s'.queue
      ensures QueuedAgrees(s'.ledger, n)
    {
      if n in s.queue {
        assert QueuedAgrees(s.ledger, n);
      } else {
        assert n == m.(timestamp := now, tries := m.tries + 1);
      }
    }
  }

  lemma CheckOneKeepsInv(s: State, txn: Txn, now: int, wait: int)
    requires Inv(s) && txn in s.sent
    ensures Inv(CheckOne(s, txn, now, wait))
    ensures forall t | t in s.sent && t != txn :: t in CheckOne(s, txn, now, wait).sent
  {
    var s' := CheckOne(s, txn, now, wait);
    assert InOnePlace(s, txn) && CountsAgree(s, txn) && SentAgrees(s.ledger, s.sent[txn]);
    forall t
      ensures InOnePlace(s', t) && CountsAgree(s', t)
    {
      CheckOneKeepsPlaces(s, txn, now, wait, t);
    }
    forall c
      ensures HandlerAgrees(s', c)
    {
      CheckOneKeepsHandlers(s, txn, now, wait, c);
    }
    CheckOneKeepsQueue(s, txn, now, wait);
  }

  lemma {:induction false} CheckKeepsInv(s: State, order: seq<Txn>, now: int, wait: int)
    requires Inv(s) && NoDup(order) && forall t | t in order :: t in s.sent
    ensures Inv(Check(s, order, now, wait))
    decreases order
  {
    if order != [] {
      assert order[0] in order && forall t | t in order[1..] :: t in order && t != order[0];
      CheckOneKeepsInv(s, order[0], now, wait);
      CheckKeepsInv(CheckOne(s, order[0], now, wait), order[1..], now, wait);
    }
  }

  lemma DequeueKeepsInv(s: State, txn: Txn, c: CorrelationID)
    requires Inv(s) && txn in s.ledger.enqueued && s.ledger.correlation[txn] == c
    ensures Inv(Dequeue(s, txn, c))
  {
    var s' := Dequeue(s, txn, c);
    forall t
      ensures InOnePlace(s', t) && CountsAgree(s', t)
    {
      assert InOnePlace(s, t) && CountsAgree(s, t);
      CopiesFilter(s.queue, txn, t);
    }
    forall m | m in s'.queue
      ensures QueuedAgrees(s'.ledger, m)
    {
      FilterMember(s.queue, OtherTxn(txn), m);
      assert QueuedAgrees(s.ledger, m);
    }
    forall d
      ensures HandlerAgrees(s', d)
    {
      assert HandlerAgrees(s, d);
    }
  }

  lemma TakeHandlerKeepsInv(s: State, c: CorrelationID)
    requires Inv(s)
    ensures Inv(TakeHandler(s, c))
  {
    var s' := TakeHandler(s, c);
    forall d
      ensures HandlerAgrees(s', d)
    {
      assert HandlerAgrees(s, d) && HandlerAgrees(s, c);
    }
    forall t
      ensures InOnePlace(s', t) && CountsAgree(s', t)
    {
      assert InOnePlace(s, t) && CountsAgree(s, t);
    }
    assert HandlerAgrees(s, c);
  }

  // What a timeout check does

  /** The time to answer has run out for a message in flight. */
  ghost predicate Overdue(s: State, t: Txn, now: int, wait: int) {
    t in s.sent && s.sent[t].timestamp + wait <= now
  }

  /** x is the copy of an overdue message that is sent once more. */
  ghost predicate Repeats(s: State, t: Txn, now: int, wait: int, x: Message) {
    Overdue(s, t, now, wait) && s.sent[t].tries < 3 && x == s.sent[t].(timestamp := now, tries := s.sent[t].tries + 1)
  }

  ghost predicate Exhausted(s: State, t: Txn, now: int, wait: int) {
    Overdue(s, t, now, wait) && s.sent[t].tries >= 3
  }

  ghost predicate LosesHandler(s: State, order: seq<Txn>, now: int, wait: int, c: CorrelationID) {
    exists t | t in order :: Exhausted(s, t, now, wait) && s.sent[t].correlationID == c
  }

  ghost predicate Requeued(s: State, order: seq<Txn>, now: int, wait: int, x: Message) {
    exists t | t in order :: Repeats(s, t, now, wait, x)
  }

  /** Overdue messages among the given ones leave flight, for the end of the queue or for good. */
  ghost predicate Checked(s: State, order: seq<Txn>, now: int, wait: int, s': State) {
    && s.queue <= s'.queue
    && (forall x :: x in s'.queue[|s.queue|..] <==> Requeued(s, order, now, wait, x))
    && (forall t :: t in s'.sent <==> t in s.sent && !(t in order && Overdue(s, t, now, wait)))
    && (forall t | t in s'.sent :: s'.sent[t] == s.sent[t])
    && (forall c :: c in s'.handlers <==> c in s.handlers && !LosesHandler(s, order, now, wait, c))
    && (forall c | c in s'.handlers :: s'.handlers[c] == s.handlers[c])
    && s'.ledger == s.ledger.(givenUp := s'.ledger.givenUp)
    && (forall t :: t in s'.ledger.givenUp <==>
                    t in s.ledger.givenUp || (t in order && Exhausted(s, t, now, wait)))
  }

  lemma CheckedOne(s: State, t: Txn, now: int, wait: int)
    requires t in s.sent
    ensures Checked(s, [t], now, wait, CheckOne(s, t, now, wait))
  {
    var s' := CheckOne(s, t, now, wait);
    assert t in [t];
    forall x
      ensures Requeued(s, [t], now, wait, x) <==> Repeats(s, t, now, wait, x)
    {
    }
    forall c
      ensures LosesHandler(s, [t], now, wait, c) <==> Exhausted(s, t, now, wait) && s.sent[t].correlationID == c
    {
    }
  }

  lemma CheckedJoin(s: State, t: Txn, rest: seq<Txn>, now: int, wait: int, s1: State, s2: State)
    requires t in s.sent && t !in rest && forall u | u in rest :: u in s.sent
    requires Checked(s, [t], now, wait, s1) && Checked(s1, rest, now, wait, s2)
    ensures Checked(s, [t] + rest, now, wait, s2)
  {
    assert t in [t];
    forall u | u in rest
      ensures Overdue(s1, u, now, wait) == Overdue(s, u, now, wait) && u in s1.sent && s1.sent[u] == s.sent[u]
    {
    }
    assert s2.queue[|s.queue|..] == s1.queue[|s.queue|..] + s2.queue[|s1.queue|..];
    forall x
      ensures Requeued(s, [t] + rest, now, wait, x) <==>
              Requeued(s, [t], now, wait, x) || Requeued(s1, rest, now, wait, x)
    {
      forall u | u in rest
        ensures Repeats(s1, u, now, wait, x) <==> Repeats(s, u, now, wait, x)
      {
      }
    }
    forall c
      ensures LosesHandler(s, [t] + rest, now, wait, c) <==>
              LosesHandler(s, [t], now, wait, c) || LosesHandler(s1, rest, now, wait, c)
    {
    }
  }

  lemma {:induction false} CheckEffect(s: State, order: seq<Txn>, now: int, wait: int)
    requires NoDup(order) && forall t | t in order :: t in s.sent
    ensures Checked(s, order, now, wait, Check(s, order, now, wait))
    decreases order
  {
    if order != [] {
      var (t, rest) := (order[0], order[1..]);
      assert order == [t] + rest && t in order && t !in rest;
      var s1 := CheckOne(s, t, now, wait);
      CheckedOne(s, t, now, wait);
      CheckEffect(s1, rest, now, wait);
      CheckedJoin(s, t, rest, now, wait, s1, Check(s1, rest, now, wait));
    }
  }

  lemma CheckedFlight(s: State, order: seq<Txn>, now: int, wait: int)
    requires NoDup(order) && forall t :: t in order <==> t in s.sent
    ensures var s' := Check(s, order, now, wait);
            && (forall t :: t in s'.sent <==> t in s.sent && s.sent[t].timestamp + wait > now)
            && (forall t | t in s'.sent :: s'.sent[t] == s.sent[t])
            && s.queue <= s'.queue
  {
    CheckEffect(s, order, now, wait);
  }

  /** A message in flight is not queued as well; one that is no longer in flight and was not given up has one copy. */
  lemma CopiesAfterCheck(s: State, order: seq<Txn>, now: int, wait: int, t: Txn)
    requires Inv(s) && NoDup(order) && (forall u :: u in order <==> u in s.sent) && t in s.sent
    ensures Copies(s.queue, t) == 0 && t !in s.ledger.givenUp
    ensures var s' := Check(s, order, now, wait);
            Copies(s'.queue, t) == One(Overdue(s, t, now, wait) && s.sent[t].tries < 3)
  {
    var s' := Check(s, order, now, wait);
    CheckEffect(s, order, now, wait);
    CheckKeepsInv(s, order, now, wait);
    assert InOnePlace(s, t) && InOnePlace(s', t);
  }

  /** Only the handler of a message that is given up goes. */
  lemma HandlersAfterCheck(s: State, order: seq<Txn>, now: int, wait: int, t: Txn)
    requires Inv(s) && (forall u :: u in order <==> u in s.sent) && t in s.sent
    requires s.sent[t].correlationID in s.handlers
    ensures LosesHandler(s, order, now, wait, s.sent[t].correlationID) <==> Exhausted(s, t, now, wait)
  {
    var c := s.sent[t].correlationID;
    assert HandlerAgrees(s, c) && SentAgrees(s.ledger, s.sent[t]) && CountsAgree(s, t);
    forall u | u in order && s.sent[u].correlationID == c
      ensures u == t
    {
      assert SentAgrees(s.ledger, s.sent[u]) && CountsAgree(s, u);
    }
  }

  /** The queue grows at its end, by repeated messages only; nothing else comes in flight or gets a handler. */
  lemma CheckAddsRepeats(s: State, order: seq<Txn>, now: int, wait: int)
    requires Inv(s) && NoDup(order) && forall t :: t in order <==> t in s.sent
    ensures var s' := Check(s, order, now, wait);
            && s.queue <= s'.queue
            && (forall x | x in s'.queue[|s.queue|..] ::
                  && x.txn in s.sent && s.sent[x.txn].timestamp + wait <= now && s.sent[x.txn].tries < 3
                  && x == s.sent[x.txn].(timestamp := now, tries := s.sent[x.txn].tries + 1))
            && s'.sent.Keys <= s.sent.Keys
            && (forall c | c in s'.handlers :: c in s.handlers && s'.handlers[c] == s.handlers[c])
  {
    var s' := Check(s, order, now, wait);
    CheckEffect(s, order, now, wait);
    forall x | x in s'.queue[|s.queue|..]
      ensures x.txn in s.sent && Repeats(s, x.txn, now, wait, x)
    {
      var t :| t in order && Repeats(s, t, now, wait, x);
      assert CountsAgree(s, t);
    }
  }

  /**
   * A message in flight whose time to answer has not run out stays as it is. Any other leaves flight: after fewer
   * than three retries for the end of the queue, with the time of the check and one more try, else for good.
   */
  lemma CheckExact(s: State, order: seq<Txn>, now: int, wait: int, t: Txn)
    requires Inv(s) && NoDup(order) && (forall u :: u in order <==> u in s.sent) && t in s.sent
    ensures var (s', m) := (Check(s, order, now, wait), s.sent[t]);
            && s.queue <= s'.queue
            && if m.timestamp + wait > now then
                 && t in s'.sent && s'.sent[t] == m && Copies(s'.queue, t) == 0 && t !in s'.ledger.givenUp
                 && (m.correlationID in s.handlers ==> m.correlationID in s'.handlers)
               else if m.tries < 3 then
                 && t !in s'.sent && Copies(s'.queue, t) == 1 && t !in s'.ledger.givenUp
                 && m.(timestamp := now, tries := m.tries + 1) in s'.queue[|s.queue|..]
                 && (m.correlationID in s.handlers ==> m.correlationID in s'.handlers)
               else
                 && t !in s'.sent && Copies(s'.queue, t) == 0 && t in s'.ledger.givenUp
                 && m.correlationID !in s'.handlers
  {
    var (s', m) := (Check(s, order, now, wait), s.sent[t]);
    CheckEffect(s, order, now, wait);
    CopiesAfterCheck(s, order, now, wait, t);
    if m.correlationID in s.handlers {
      HandlersAfterCheck(s, order, now, wait, t);
    }
    if Overdue(s, t, now, wait) && m.tries < 3 {
      var x := m.(timestamp := now, tries := m.tries + 1);
      assert t in order && Repeats(s, t, now, wait, x);
      assert Requeued(s, order, now, wait, x);
    }
  }

  // Runs

  datatype Step =
    | DoEnqueue(m: Message, handler: Option<Handler>)
    | DoSend(clock: nat -> int, sendOk: bool)
    | DoAck(txn: Txn)
    | DoNack(txn: Txn, retryAt: int)
    | DoCheck(order: seq<Txn>, now: int, wait: int)
    | DoDequeue(txn: Txn, correlationID: CorrelationID)
    | DoTakeHandler(correlationID: CorrelationID)

  /** A nack waits for its message to be in flight; a sender withdraws its own message. */
  ghost predicate Possible(s: State, a: Step) {
    match a
    case DoEnqueue(m, handler) => Fresh(s, m, handler)
    case DoNack(txn, _) => txn in s.sent
    case DoCheck(order, _, _) => NoDup(order) && forall t :: t in order <==> t in s.sent
    case DoDequeue(txn, c) => txn in s.ledger.correlation && s.ledger.correlation[txn] == c
    case _ => true
  }

  ghost function Apply(s: State, a: Step): State
    requires Possible(s, a)
  {
    match a
    case DoEnqueue(m, handler) => Enqueue(s, m, handler)
    case DoSend(now, sendOk) => Send(s, now, sendOk)
    case DoAck(txn) => Ack(s, txn)
    case DoNack(txn, retryAt) => Nack(s, txn, retryAt)
    case DoCheck(order, now, wait) => Check(s, order, now, wait)
    case DoDequeue(txn, c) => Dequeue(s, txn, c)
    case DoTakeHandler(c) => TakeHandler(s, c)
  }

  lemma ApplyKeepsInv(s: State, a: Step)
    requires Inv(s) && Possible(s, a)
    ensures Inv(Apply(s, a))
  {
    match a
    case DoEnqueue(m, handler) => EnqueueKeepsInv(s, m, handler);
    case DoSend(now, sendOk) =>
      if sendOk && FirstDue(s.queue, now, 0).Some? {
        SendAtKeepsInv(s, FirstDue(s.queue, now, 0).value);
      }
    case DoAck(txn) => AckKeepsInv(s, txn);
    case DoNack(txn, retryAt) => NackKeepsInv(s, txn, retryAt);
    case DoCheck(order, now, wait) => CheckKeepsInv(s, order, now, wait);
    case DoDequeue(txn, c) => DequeueKeepsInv(s, txn, c);
    case DoTakeHandler(c) => TakeHandlerKeepsInv(s, c);
  }

  ghost predicate IsRun(states: seq<State>, steps: seq<Step>) {
    && |states| == |steps| + 1
    && states[0] == START
    && forall i | 0 <= i < |steps| :: Possible(states[i], steps[i]) && states[i + 1] == Apply(states[i], steps[i])
  }

  lemma {:induction false} RunsKeepInv(states: seq<State>, steps: seq<Step>, i: nat)
    requires IsRun(states, steps) && i < |states|
    ensures Inv(states[i])
  {
    if i > 0 {
      RunsKeepInv(states, steps, i - 1);
      ApplyKeepsInv(states[i - 1], steps[i - 1]);
    }
  }

  /**
   * In every interleaving an enqueued message that expects an ack is in exactly one of five places, and it
   * was given up only after four transmissions and one more for each nack.
   */
  lemma NoMessageLost(states: seq<State>, steps: seq<Step>, i: nat, t: Txn)
    requires IsRun(states, steps) && i < |states|
    ensures var (s, l) := (states[i], states[i].ledger);
            && Copies(s.queue, t) + One(t in s.sent) + One(t in l.acked) + One(t in l.givenUp) + One(t in l.withdrawn)
               == One(t in l.enqueued)
            && (t in l.givenUp ==> Count(l.sends, t) == 4 + Count(l.nacks, t))
            && (t in s.sent ==> Count(l.sends, t) == s.sent[t].tries + Count(l.nacks, t) + 1 && s.sent[t].tries <= 3)
            && (forall m | m in s.queue && m.policy.ExpectAck? && m.txn == t ::
                  Count(l.sends, t) == m.tries + Count(l.nacks, t) && m.tries <= 3)
  {
    RunsKeepInv(states, steps, i);
    var s := states[i];
    assert InOnePlace(s, t) && CountsAgree(s, t);
    forall m | m in s.queue && m.policy.ExpectAck? && m.txn == t
      ensures Count(s.ledger.sends, t) == m.tries + Count(s.ledger.nacks, t) && m.tries <= 3
    {
      assert QueuedAgrees(s.ledger, m);
    }
  }

  /** Sending never meets an entry of the same transaction in flight, so the plain insertion loses nothing. */
  lemma SendNeverDrops(states: seq<State>, steps: seq<Step>, i: nat, now: nat -> int)
    requires IsRun(states, steps) && i < |states|
    requires FirstDue(states[i].queue, now, 0).Some?
    ensures var m := states[i].queue[FirstDue(states[i].queue, now, 0).value];
            m.policy.ExpectAck? ==>
              var sent := Send(states[i], now, true).sent;
              m.txn !in states[i].sent && m.txn in sent && sent[m.txn] == m
  {
    RunsKeepInv(states, steps, i);
    SendAtKeepsInv(states[i], FirstDue(states[i].queue, now, 0).value);
  }

  /** A handler is taken at most once, and is gone once its message is given up or withdrawn. */
  lemma HandlersTakenOnce(states: seq<State>, steps: seq<Step>, i: nat, c: CorrelationID)
    requires IsRun(states, steps) && i < |states|
    ensures var (s, l) := (states[i], states[i].ledger);
            && NoDup(l.taken)
            && (c in s.handlers ==> c !in l.taken)
            && (c in l.owner && (l.owner[c] in l.givenUp || l.owner[c] in l.withdrawn) ==> c !in s.handlers)
            && (c in l.owner && c !in l.taken && c !in l.dequeued && l.owner[c] !in l.givenUp ==> c in s.handlers)
  {
    RunsKeepInv(states, steps, i);
    assert HandlerAgrees(states[i], c);
  }

  /** The fields that the threads share; each method is what one thread does under the mutex. */
  class Communication {
    var sendQueue: seq<Message>
    var sentMessages: map<Txn, Message>
    var responseHandlers: map<CorrelationID, Handler>
    ghost var ledger: Ledger

    ghost function Model(): State
      reads this
    {
      State(sendQueue, sentMessages, responseHandlers, ledger)
    }

    constructor ()
      ensures Model() == START
    {
      sendQueue, sentMessages, responseHandlers, ledger := [], map[], map[], START.ledger;
    }

    method EnqueueMessage(m: Message, handler: Option<Handler>)
      modifies this
      ensures Model() == Enqueue(old(Model()), m, handler)
      ensures sendQueue == old(sendQueue) + [m] && sentMessages == old(sentMessages)
      ensures responseHandlers ==
              if handler.Some? && m.correlationID !in old(responseHandlers)
              then old(responseHandlers)[m.correlationID := handler.value] else old(responseHandlers)
    {
      ledger := Enqueue(Model(), m, handler).ledger;
      if handler.Some? && m.correlationID !in responseHandlers {
        responseHandlers := responseHandlers[m.correlationID := handler.value];
      }
      sendQueue := sendQueue + [m];
    }

    method DequeueMessage(txn: Txn, correlationID: CorrelationID)
      modifies this
      ensures Model() == Dequeue(old(Model()), txn, correlationID)
      ensures forall x :: multiset(sendQueue)[x] == if x.txn == txn then 0 else multiset(old(sendQueue))[x]
      ensures sentMessages == old(sentMessages) - {txn}
      ensures responseHandlers == old(responseHandlers) - {correlationID}
    {
      ledger := Dequeue(Model(), txn, correlationID).ledger;
      var queue, kept := sendQueue, [];
      for i := 0 to |queue|
        invariant Model() == old(Model()).(ledger := Dequeue(old(Model()), txn, correlationID).ledger)
        invariant kept == Filter(queue[..i], OtherTxn(txn))
      {
        FilterNext(queue, i, OtherTxn(txn));
        if queue[i].txn != txn {
          kept := kept + [queue[i]];
        }
      }
      assert queue[..|queue|] == queue;
      forall x: Message
        ensures multiset(kept)[x] == if x.txn == txn then 0 else multiset(queue)[x]
      {
        FilterCount(queue, OtherTxn(txn), x);
      }
      sendQueue := kept;
      sentMessages := sentMessages - {txn};
      responseHandlers := responseHandlers - {correlationID};
    }

    /** One turn of the send thread; the clock is read for each message, and sendOk is whether the frame was written. */
    method HandleSendQueue(now: nat -> int, sendOk: bool)
      modifies this
      ensures Model() == Send(old(Model()), now, sendOk)
      ensures responseHandlers == old(responseHandlers)
      ensures (exists i | 0 <= i < |old(sendQueue)| :: old(sendQueue)[i].timestamp < now(i)) && sendOk ==>
                exists i | 0 <= i < |old(sendQueue)| ::
                  && old(sendQueue)[i].timestamp < now(i)
                  && (forall k | 0 <= k < i :: old(sendQueue)[k].timestamp >= now(k))
                  && sendQueue == old(sendQueue)[..i] + old(sendQueue)[i + 1..]
                  && var m := old(sendQueue)[i];
                     sentMessages == if m.policy.ExpectAck? && m.txn !in old(sentMessages)
                                     then old(sentMessages)[m.txn := m] else old(sentMessages)
      ensures !sendOk || (forall i | 0 <= i < |old(sendQueue)| :: old(sendQueue)[i].timestamp >= now(i)) ==>
                sendQueue == old(sendQueue) && sentMessages == old(sentMessages)
    {
      var it := 0;
      while it < |sendQueue| && !Due(sendQueue[it], now(it))
        invariant 0 <= it <= |sendQueue| && Model() == old(Model())
        invariant FirstDue(sendQueue, now, 0) == FirstDue(sendQueue, now, it)
      {
        it := it + 1;
      }
      if it == |sendQueue| || !sendOk {
        return;
      }
      assert FirstDue(sendQueue, now, 0) == Some(it);
      ledger := Send(Model(), now, true).ledger;
      var m := sendQueue[it];
      if m.policy.ExpectAck? && m.txn !in sentMessages {
        sentMessages := sentMessages[m.txn := m];
      }
      sendQueue := RemoveAt(sendQueue, it);
    }

    method CheckMessage(txn: Txn, now: int, wait: int)
      requires txn in sentMessages
      modifies this
      ensures Model() == CheckOne(old(Model()), txn, now, wait)
      ensures var m := old(sentMessages)[txn];
              if m.timestamp + wait > now then
                sendQueue == old(sendQueue) && sentMessages == old(sentMessages) &&
                responseHandlers == old(responseHandlers)
              else
                && sentMessages == old(sentMessages) - {txn}
                && sendQueue == (if m.tries < 3 then old(sendQueue) + [m.(timestamp := now, tries := m.tries + 1)]
                                 else old(sendQueue))
                && responseHandlers == (if m.tries < 3 then old(responseHandlers)
                                        else old(responseHandlers) - {m.correlationID})
    {
      var m := sentMessages[txn];
      if m.timestamp + wait > now {
        return;
      }
      ledger := CheckOne(Model(), txn, now, wait).ledger;
      if !m.RetryAllowed() {
        responseHandlers := responseHandlers - {m.correlationID};
      } else {
        sendQueue := sendQueue + [m.(timestamp := now, tries := m.tries + 1)];
      }
      sentMessages := sentMessages - {txn};
    }

    /** One turn of the timeout thread over the messages in flight, in any order of the map. */
    method HandleUnacknowledgedMessages(order: seq<Txn>, now: int, wait: int)
      requires NoDup(order) && forall t :: t in order <==> t in sentMessages
      modifies this
      ensures Model() == Check(old(Model()), order, now, wait)
      ensures forall t :: t in sentMessages <==>
                          t in old(sentMessages) && old(sentMessages)[t].timestamp + wait > now
      ensures forall t | t in sentMessages :: sentMessages[t] == old(sentMessages)[t]
      ensures old(sendQueue) <= sendQueue
    {
      for i := 0 to |order|
        invariant forall t | t in order[i..] :: t in sentMessages
        invariant Check(old(Model()), order, now, wait) == Check(Model(), order[i..], now, wait)
      {
        assert order[i..][0] == order[i] && order[i..][1..] == order[i + 1..];
        assert order[i] in order[i..] && forall t | t in order[i + 1..] :: t in order[i..] && t != order[i];
        CheckMessage(order[i], now, wait);
      }
      assert order[|order|..] == [];
      CheckedFlight(old(Model()), order, now, wait);
    }

    method HandleAck(txn: Txn)
      modifies this
      ensures Model() == Ack(old(Model()), txn)
      ensures sentMessages == old(sentMessages) - {txn}
      ensures sendQueue == old(sendQueue) && responseHandlers == old(responseHandlers)
    {
      ledger := Ack(Model(), txn).ledger;
      sentMessages := sentMessages - {txn};
    }

    method HandleNack(txn: Txn, retryAt: int)
      modifies this
      ensures Model() == Nack(old(Model()), txn, retryAt)
      ensures sentMessages == old(sentMessages) - {txn} && responseHandlers == old(responseHandlers)
      ensures sendQueue ==
              if txn in old(sentMessages) then
                var m := old(sentMessages)[txn];
                old(sendQueue) + [Message(m.txn, m.payload, m.policy, m.correlationID, retryAt, m.tries)]
              else old(sendQueue)
    {
      if txn !in sentMessages {
        return;
      }
      ledger := Nack(Model(), txn, retryAt).ledger;
      sendQueue := sendQueue + [sentMessages[txn].(timestamp := retryAt)];
      sentMessages := sentMessages - {txn};
    }

    /** The handler is called after the mutex is released. */
    method OnResponseReceived(correlationID: CorrelationID) returns (callback: Option<Handler>)
      modifies this
      ensures Model() == TakeHandler(old(Model()), correlationID)
      ensures callback == if correlationID in old(responseHandlers)
                          then Some(old(responseHandlers)[correlationID]) else None
      ensures responseHandlers == old(responseHandlers) - {correlationID}
      ensures sendQueue == old(sendQueue) && sentMessages == old(sentMessages)
    {
      if correlationID !in responseHandlers {
        return None;
      }
      ledger := TakeHandler(Model(), correlationID).ledger;
      callback := Some(responseHandlers[correlationID]);
      responseHandlers := responseHandlers - {correlationID};
    }
  }
}
