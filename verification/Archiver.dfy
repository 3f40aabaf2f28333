/**
 * Splitting a log into parts of limited size and number (src/common/logging/archiver.cpp).
 * Compression is left out: a stream holds what was written to it.
 */
module LogArchiver {

  datatype Config = Config(maxPartSize: nat, maxPartCount: nat)

  /** The messages of each stream, the last one still open. */
  datatype State = State(partCount: nat, partSize: nat, streams: seq<seq<string>>)

  const START: State := State(0, 0, [[]])

  datatype Status = OK | Empty

  datatype PushLog = PushLog(partsCount: nat, part: nat, status: Status, content: string)

  function Concat(messages: seq<string>): string {
    if messages == [] then "" else Concat(messages[..|messages| - 1]) + messages[|messages| - 1]
  }

  /** All messages of the streams, in order. */
  function Flatten(streams: seq<seq<string>>): seq<string> {
    if streams == [] then [] else Flatten(streams[..|streams| - 1]) + streams[|streams| - 1]
  }

  function Append(streams: seq<seq<string>>, message: string): seq<seq<string>>
    requires streams != []
  {
    streams[..|streams| - 1] + [streams[|streams| - 1] + [message]]
  }

  /** The parts are full, or a stream that must be closed first cannot be closed. */
  predicate Rejects(config: Config, s: State, message: string, closeOk: bool) {
    s.partCount >= config.maxPartCount || (s.partSize + |message| > config.maxPartSize && !closeOk)
  }

  function Added(config: Config, s: State, message: string, closeOk: bool): (State, bool)
    requires s.streams != []
  {
    if Rejects(config, s, message, closeOk) then (s, false)
    else if s.partSize + |message| > config.maxPartSize then
      (State(s.partCount + 1, |message|, Append(s.streams + [[]], message)), true)
    else (State(s.partCount, s.partSize + |message|, Append(s.streams, message)), true)
  }

  /** A part is within the limit or one single message. */
  ghost predicate PartOk(config: Config, part: seq<string>) {
    |Concat(part)| <= config.maxPartSize || |part| == 1
  }

  ghost predicate Inv(config: Config, s: State) {
    && |s.streams| == s.partCount + 1
    && s.partCount <= config.maxPartCount
    && s.partSize == |Concat(s.streams[s.partCount])|
    && (forall part | part in s.streams :: PartOk(config, part))
  }

  lemma AppendFlattens(streams: seq<seq<string>>, message: string)
    requires streams != []
    ensures Flatten(Append(streams, message)) == Flatten(streams) + [message]
  {
    var last := |streams| - 1;
    assert Append(streams, message)[..last] == streams[..last];
    assert Flatten(streams[..last]) + (streams[last] + [message]) == Flatten(streams) + [message];
  }

  lemma AppendToNewStream(streams: seq<seq<string>>, message: string)
    ensures Append(streams + [[]], message) == streams + [[message]]
  {
    assert (streams + [[]])[..|streams|] == streams;
    assert [] + [message] == [message];
  }

  lemma ConcatSnoc(messages: seq<string>, message: string)
    ensures Concat(messages + [message]) == Concat(messages) + message
  {
    assert (messages + [message])[..|messages|] == messages;
  }

  /** Writing to the last stream keeps every part within the limit when the written part is. */
  lemma AppendKeepsParts(config: Config, streams: seq<seq<string>>, message: string)
    requires streams != []
    requires forall part | part in streams[..|streams| - 1] :: PartOk(config, part)
    requires PartOk(config, streams[|streams| - 1] + [message])
    ensures forall part | part in Append(streams, message) :: PartOk(config, part)
  {
  }

  /** A message that opens the next part stands behind all others. */
  lemma NewPart(config: Config, s: State, message: string)
    requires Inv(config, s) && s.partCount < config.maxPartCount
    ensures Inv(config, State(s.partCount + 1, |message|, s.streams + [[message]]))
    ensures Flatten(s.streams + [[message]]) == Flatten(s.streams) + [message]
  {
    var part := [message];
    assert Concat(part) == message by {
      ConcatSnoc([], message);
      assert [] + part == part && "" + message == message;
    }
    assert (s.streams + [part])[..|s.streams|] == s.streams;
  }

  lemma AddedToOpenPart(config: Config, s: State, message: string, closeOk: bool)
    requires Inv(config, s)
    requires s.partCount < config.maxPartCount && s.partSize + |message| <= config.maxPartSize
    ensures Inv(config, Added(config, s, message, closeOk).0)
    ensures Flatten(Added(config, s, message, closeOk).0.streams) == Flatten(s.streams) + [message]
  {
    AppendFlattens(s.streams, message);
    ConcatSnoc(s.streams[s.partCount], message);
    AppendKeepsParts(config, s.streams, message);
  }

  /** A message is added behind all others, or rejected without a trace. */
  lemma AddedKeepsInv(config: Config, s: State, message: string, closeOk: bool)
    requires Inv(config, s)
    ensures var r := Added(config, s, message, closeOk);
            && Inv(config, r.0)
            && (r.1 <==> !Rejects(config, s, message, closeOk))
            && (if r.1 then Flatten(r.0.streams) == Flatten(s.streams) + [message] else r.0 == s)
  {
    if !Rejects(config, s, message, closeOk) {
      if s.partSize + |message| > config.maxPartSize {
        AppendToNewStream(s.streams, message);
        NewPart(config, s, message);
      } else {
        AddedToOpenPart(config, s, message, closeOk);
      }
    }
  }

  // Sequences of calls

  /** The state after a sequence of AddLog calls, and the messages that were accepted; closeOk(i) is for call i. */
  function AddAll(config: Config, messages: seq<string>, closeOk: nat -> bool): (r: (State, seq<string>))
    ensures r.0.streams != []
  {
    if messages == [] then (START, [])
    else
      var last := |messages| - 1;
      var (s, accepted) := AddAll(config, messages[..last], closeOk);
      var (s', ok) := Added(config, s, messages[last], closeOk(last));
      (s', if ok then accepted + [messages[last]] else accepted)
  }

  lemma {:induction false} AddAllConserves(config: Config, messages: seq<string>, closeOk: nat -> bool)
    ensures var (s, accepted) := AddAll(config, messages, closeOk);
            Inv(config, s) && Flatten(s.streams) == accepted
  {
    if messages == [] {
      assert Concat([]) == "" && Flatten([[]][..0]) == [];
    } else {
      var last := |messages| - 1;
      AddAllConserves(config, messages[..last], closeOk);
      AddedKeepsInv(config, AddAll(config, messages[..last], closeOk).0, messages[last], closeOk(last));
    }
  }

  /** The part before did not have room for the first message of the part at i. */
  ghost predicate Filled(config: Config, streams: seq<seq<string>>, i: nat)
    requires 0 < i < |streams|
  {
    streams[i] != [] && |Concat(streams[i - 1])| + |streams[i][0]| > config.maxPartSize
  }

  lemma AddedFills(config: Config, s: State, message: string, closeOk: bool)
    requires Inv(config, s) && forall i | 0 < i < |s.streams| :: Filled(config, s.streams, i)
    ensures var s' := Added(config, s, message, closeOk).0;
            forall i | 0 < i < |s'.streams| :: Filled(config, s'.streams, i)
  {
    var s', last := Added(config, s, message, closeOk).0, s.partCount;
    if s' != s {
      forall i | 0 < i < |s'.streams|
        ensures Filled(config, s'.streams, i)
      {
        AppendToNewStream(s.streams, message);
        if i <= last {
          assert Filled(config, s.streams, i);
          assert s'.streams[i - 1] == s.streams[i - 1];
          assert s'.streams[i][0] == s.streams[i][0];
        } else {
          assert s'.streams[i - 1] == s.streams[last] && s'.streams[i] == [message];
        }
      }
    }
  }

  /** A part is closed only for a message that does not fit into it; that message opens the next part. */
  lemma {:induction false} PartsFilled(config: Config, messages: seq<string>, closeOk: nat -> bool)
    ensures var streams := AddAll(config, messages, closeOk).0.streams;
            forall i | 0 < i < |streams| ::
              streams[i] != [] && |Concat(streams[i - 1])| + |streams[i][0]| > config.maxPartSize
  {
    var streams := AddAll(config, messages, closeOk).0.streams;
    if messages != [] {
      var last := |messages| - 1;
      var s := AddAll(config, messages[..last], closeOk).0;
      AddAllConserves(config, messages[..last], closeOk);
      PartsFilled(config, messages[..last], closeOk);
      assert forall i | 0 < i < |s.streams| :: Filled(config, s.streams, i);
      AddedFills(config, s, messages[last], closeOk(last));
      forall i | 0 < i < |streams|
        ensures streams[i] != [] && |Concat(streams[i - 1])| + |streams[i][0]| > config.maxPartSize
      {
        assert Filled(config, streams, i);
      }
    }
  }

  /** While nothing with content has been accepted, no part has been closed and the open one is empty. */
  lemma {:induction false} NothingAccepted(config: Config, messages: seq<string>, closeOk: nat -> bool)
    ensures var (s, accepted) := AddAll(config, messages, closeOk);
            Concat(accepted) == "" ==> s.partCount == 0 && s.partSize == 0
  {
    if messages != [] {
      var last := |messages| - 1;
      NothingAccepted(config, messages[..last], closeOk);
      ConcatSnoc(AddAll(config, messages[..last], closeOk).1, messages[last]);
    }
  }

  /** What SendLog hands to the sender. */
  function Pushes(s: State): seq<PushLog> {
    if s.partCount == 0 && s.partSize == 0 then [PushLog(1, 1, Empty, "")]
    else
      seq(|s.streams|, i requires 0 <= i < |s.streams| => PushLog(|s.streams|, i + 1, OK, Concat(s.streams[i])))
  }

  function Contents(pushes: seq<PushLog>): string {
    if pushes == [] then "" else Contents(pushes[..|pushes| - 1]) + pushes[|pushes| - 1].content
  }

  lemma {:induction false} ConcatAppend(a: seq<string>, b: seq<string>)
    ensures Concat(a + b) == Concat(a) + Concat(b)
  {
    if b == [] {
      assert a + b == a;
    } else {
      var last := |b| - 1;
      ConcatAppend(a, b[..last]);
      assert (a + b)[..|a + b| - 1] == a + b[..last];
      assert Concat(a) + Concat(b[..last]) + b[last] == Concat(a) + (Concat(b[..last]) + b[last]);
    }
  }

  lemma {:induction false} PushedContents(s: State, n: nat)
    requires n <= |s.streams| && !(s.partCount == 0 && s.partSize == 0)
    ensures Contents(Pushes(s)[..n]) == Concat(Flatten(s.streams[..n]))
  {
    if n > 0 {
      PushedContents(s, n - 1);
      assert Pushes(s)[..n][..n - 1] == Pushes(s)[..n - 1];
      assert s.streams[..n][..n - 1] == s.streams[..n - 1];
      ConcatAppend(Flatten(s.streams[..n - 1]), s.streams[n - 1]);
    }
  }

  lemma {:induction false} InFlatten(streams: seq<seq<string>>, i: nat, message: string)
    requires i < |streams| && message in streams[i]
    ensures message in Flatten(streams)
  {
    var last := |streams| - 1;
    if i < last {
      InFlatten(streams[..last], i, message);
    }
  }

  /** A pushed part over the size limit is one accepted message. */
  lemma OversizePart(config: Config, s: State, i: nat)
    requires Inv(config, s) && i < |s.streams| && |Concat(s.streams[i])| > config.maxPartSize
    ensures Concat(s.streams[i]) in Flatten(s.streams)
  {
    var part := s.streams[i];
    assert part in s.streams && PartOk(config, part);
    assert part == [] + [part[0]];
    ConcatSnoc([], part[0]);
    assert "" + part[0] == part[0];
    InFlatten(s.streams, i, part[0]);
  }

  lemma PushesHoldAll(s: State)
    requires |s.streams| == s.partCount + 1 && s.partSize == |Concat(s.streams[s.partCount])|
    ensures Contents(Pushes(s)) == Concat(Flatten(s.streams))
  {
    var pushes, n := Pushes(s), |s.streams|;
    if s.partCount == 0 && s.partSize == 0 {
      assert pushes[..0] == [] && s.streams[..0] == [];
      assert Flatten(s.streams) == [] + s.streams[0] == s.streams[0];
      assert Contents(pushes) == "";
    } else {
      PushedContents(s, n);
      assert pushes[..n] == pushes && s.streams[..n] == s.streams;
    }
  }

  /**
   * Whatever is logged, the pushed parts are numbered 1 to n of n with n at most one more than the limit,
   * together they hold exactly the accepted messages, and each is within the size limit or one message.
   * A log without content is sent as one empty part.
   */
  lemma LogArrives(config: Config, messages: seq<string>, closeOk: nat -> bool)
    ensures var r := AddAll(config, messages, closeOk);
            var pushes := Pushes(r.0);
            && |pushes| <= config.maxPartCount + 1
            && Contents(pushes) == Concat(r.1)
            && (forall i | 0 <= i < |pushes| :: pushes[i].part == i + 1 && pushes[i].partsCount == |pushes|)
            && (forall p | p in pushes && |p.content| > config.maxPartSize :: p.content in r.1)
            && (if Concat(r.1) == "" then pushes == [PushLog(1, 1, Empty, "")]
                else forall p | p in pushes :: p.status.OK?)
  {
    var r := AddAll(config, messages, closeOk);
    var s := r.0;
    AddAllConserves(config, messages, closeOk);
    var pushes := Pushes(s);
    PushesHoldAll(s);
    NothingAccepted(config, messages, closeOk);
    if s.partCount == 0 && s.partSize == 0 {
      assert pushes[..0] == [];
      assert Contents(pushes) == "";
    } else {
      forall p | p in pushes && |p.content| > config.maxPartSize
        ensures p.content in r.1
      {
        var i :| 0 <= i < |pushes| && pushes[i] == p;
        OversizePart(config, s, i);
      }
    }
  }

  class Archiver {
    const config: Config
    var partCount: nat
    var partSize: nat
    var logStreams: seq<seq<string>>

    function Model(): State
      reads this
    {
      State(partCount, partSize, logStreams)
    }

    constructor (config: Config)
      ensures this.config == config && Model() == START
    {
      this.config := config;
      partCount, partSize, logStreams := 0, 0, [[]];
    }

    method AddLogPart(closeOk: bool) returns (ok: bool)
      modifies this
      ensures ok == closeOk
      ensures Model() == if ok then State(old(partCount) + 1, 0, old(logStreams) + [[]]) else old(Model())
    {
      if !closeOk {
        return false;
      }
      partCount := partCount + 1;
      partSize := 0;
      logStreams := logStreams + [[]];
      return true;
    }

    method AddLog(message: string, closeOk: bool) returns (ok: bool)
      requires logStreams != []
      modifies this
      ensures (Model(), ok) == Added(config, old(Model()), message, closeOk)
      ensures ok <==> old(partCount) < config.maxPartCount &&
                      (old(partSize) + |message| <= config.maxPartSize || closeOk)
      ensures ok && old(partSize) + |message| <= config.maxPartSize ==>
                && partCount == old(partCount) && partSize == old(partSize) + |message|
                && logStreams == old(logStreams)[..|old(logStreams)| - 1]
                                 + [old(logStreams)[|old(logStreams)| - 1] + [message]]
      ensures ok && old(partSize) + |message| > config.maxPartSize ==>
                && partCount == old(partCount) + 1 && partSize == |message|
                && logStreams == old(logStreams) + [[message]]
      ensures !ok ==> Model() == old(Model())
    {
      if partCount >= config.maxPartCount {
        return false;
      }
      if partSize + |message| > config.maxPartSize {
        AppendToNewStream(logStreams, message);
        ok := AddLogPart(closeOk);
        if !ok {
          return;
        }
      }
      logStreams := Append(logStreams, message);
      partSize := partSize + |message|;
      return true;
    }

    /** A part that does not fit into a message stops the sending. */
    method SendLog(capacity: nat) returns (pushes: seq<PushLog>, ok: bool)
      modifies this`partCount
      ensures pushes <= Pushes(old(Model()))
      ensures forall p | p in pushes :: |p.content| <= capacity
      ensures if ok then pushes == Pushes(old(Model()))
              else |pushes| < |Pushes(old(Model()))| && |Pushes(old(Model()))[|pushes|].content| > capacity
      ensures forall i | 0 <= i < |pushes| ::
                pushes[i] == if old(partCount) == 0 && partSize == 0 then PushLog(1, 1, Empty, "")
                             else PushLog(|logStreams|, i + 1, OK, Concat(logStreams[i]))
      ensures ok ==> |pushes| == if old(partCount) == 0 && partSize == 0 then 1 else |logStreams|
      ensures partCount == old(partCount) + (if old(partSize) > 0 then 1 else 0)
    {
      ghost var all := Pushes(Model());
      if partSize > 0 {
        partCount := partCount + 1;
      }
      if partCount == 0 {
        return [PushLog(1, 1, Empty, "")], true;
      }
      pushes := [];
      for i := 0 to |logStreams|
        invariant pushes == all[..i]
        invariant forall p | p in pushes :: |p.content| <= capacity
      {
        var content := Concat(logStreams[i]);
        if |content| > capacity {
          return pushes, false;
        }
        pushes := pushes + [PushLog(|logStreams|, i + 1, OK, content)];
      }
      return pushes, true;
    }
  }
}
