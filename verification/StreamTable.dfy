/**
 * The table of update streams, one per node, and the calls that keep it
 * (src/cm/smcontroller/smcontroller.cpp).
 */
module StreamTable {
  import opened Wrappers

  type NodeID = string
  type CallID = nat
  type Writer = nat

  /** A subscription that has not returned; its writer is an address that may be used again later. */
  datatype Call = Call(nodeID: NodeID, writer: Writer, cancelled: bool)

  /** newest remembers the last call that subscribed for a node, and seen all calls ever made. */
  datatype State = State(
    streams: map<NodeID, Writer>, live: map<CallID, Call>, newest: map<NodeID, CallID>, seen: set<CallID>)

  const START: State := State(map[], map[], map[], {})

  datatype Step =
    | Subscribe(call: CallID, nodeID: NodeID, writer: Writer)
    | Cancel(call: CallID)
    | Exit(call: CallID)
    | Push(nodeID: NodeID)

  /** Calls that are under way have writers of their own; a call returns only after it was cancelled. */
  ghost predicate Possible(s: State, a: Step) {
    match a
    case Subscribe(c, _, w) => c !in s.seen && forall d | d in s.live :: s.live[d].writer != w
    case Cancel(c) => c in s.live
    case Exit(c) => c in s.live && s.live[c].cancelled
    case Push(_) => true
  }

  function Apply(s: State, a: Step): State {
    match a
    case Subscribe(c, n, w) =>
      State(s.streams[n := w], s.live[c := Call(n, w, false)], s.newest[n := c], s.seen + {c})
    case Cancel(c) =>
      if c in s.live then s.(live := s.live[c := s.live[c].(cancelled := true)]) else s
    case Exit(c) =>
      if c !in s.live then s
      else
        var n := s.live[c].nodeID;
        s.(streams := if n in s.streams && s.streams[n] == s.live[c].writer then s.streams - {n} else s.streams,
           live := s.live - {c})
    case Push(_) => s
  }

  /** A node has a stream exactly while its newest call is under way, and it is that call's. */
  ghost predicate NodeOk(s: State, n: NodeID) {
    && (n in s.streams <==> n in s.newest && s.newest[n] in s.live)
    && (n in s.newest && s.newest[n] in s.live ==>
          s.live[s.newest[n]].nodeID == n && s.streams[n] == s.live[s.newest[n]].writer)
  }

  ghost predicate Inv(s: State) {
    && (forall n :: NodeOk(s, n))
    && (forall c, d | c in s.live && d in s.live && c != d :: s.live[c].writer != s.live[d].writer)
    && s.live.Keys <= s.seen && s.newest.Values <= s.seen
    && (forall c | c in s.live :: s.live[c].nodeID in s.newest)
  }

  lemma ApplyKeepsInv(s: State, a: Step)
    requires Inv(s) && Possible(s, a)
    ensures Inv(Apply(s, a))
  {
    var s' := Apply(s, a);
    forall n
      ensures NodeOk(s', n)
    {
      assert NodeOk(s, n);
      if n in s.newest {
        assert s.newest[n] in s.newest.Values;
      }
    }
    forall v | v in s'.newest.Values
      ensures v in s'.seen
    {
      var n :| n in s'.newest && s'.newest[n] == v;
      if n in s.newest {
        assert s.newest[n] in s.newest.Values;
      }
    }
  }

  ghost predicate IsRun(states: seq<State>, steps: seq<Step>) {
    && |states| == |steps| + 1
    && states[0] == START
    && forall i | 0 <= i < |steps| :: Possible(states[i], steps[i]) && states[i + 1] == Apply(states[i], steps[i])
  }

  lemma {:induction false} RunsKeepInv(states: seq<State>, steps: seq<Step>, i: nat)
    requires IsRun(states, steps) && i < |states|
    ensures Inv(states[i])
  {
    if i > 0 {
      RunsKeepInv(states, steps, i - 1);
      ApplyKeepsInv(states[i - 1], steps[i - 1]);
    }
  }

  /** In every run a writer in the table belongs to a call for that node that has not returned. */
  lemma NoDanglingWriter(states: seq<State>, steps: seq<Step>, i: nat, n: NodeID)
    requires IsRun(states, steps) && i < |states| && n in states[i].streams
    ensures exists c | c in states[i].live ::
              states[i].live[c].nodeID == n && states[i].live[c].writer == states[i].streams[n]
  {
    RunsKeepInv(states, steps, i);
    assert NodeOk(states[i], n);
    assert states[i].newest[n] in states[i].live;
  }

  /** The exit of an older call leaves the newer subscription of its node, and every other node, alone. */
  lemma OlderExitHarmless(states: seq<State>, steps: seq<Step>, i: nat, c: CallID, n: NodeID)
    requires IsRun(states, steps) && i < |states| && Possible(states[i], Exit(c))
    requires n in states[i].newest && states[i].newest[n] != c
    ensures var (s, s') := (states[i], Apply(states[i], Exit(c)));
            (n in s'.streams <==> n in s.streams) && (n in s.streams ==> s'.streams[n] == s.streams[n])
  {
    RunsKeepInv(states, steps, i);
    assert NodeOk(states[i], n);
  }

  class SMController {
    var networkUpdateStreams: map<NodeID, Writer>
    ghost var live: map<CallID, Call>
    ghost var newest: map<NodeID, CallID>
    ghost var seen: set<CallID>

    ghost function Model(): State
      reads this
    {
      State(networkUpdateStreams, live, newest, seen)
    }

    constructor ()
      ensures Model() == START
    {
      networkUpdateStreams, live, newest, seen := map[], map[], map[], {};
    }

    /** The first section of SubscribeInstanceNetworkUpdates. */
    method Register(nodeID: NodeID, writer: Writer, ghost call: CallID)
      modifies this
      ensures Model() == Apply(old(Model()), Subscribe(call, nodeID, writer))
      ensures networkUpdateStreams == old(networkUpdateStreams)[nodeID := writer]
      ensures live == old(live)[call := Call(nodeID, writer, false)] && newest == old(newest)[nodeID := call]
    {
      networkUpdateStreams := networkUpdateStreams[nodeID := writer];
      live, newest, seen := live[call := Call(nodeID, writer, false)], newest[nodeID := call], seen + {call};
    }

    /** The last section: only the stream of this very call is erased. */
    method Unregister(nodeID: NodeID, writer: Writer, ghost call: CallID)
      requires call in live && live[call].nodeID == nodeID && live[call].writer == writer
      modifies this
      ensures Model() == Apply(old(Model()), Exit(call))
      ensures networkUpdateStreams ==
              if nodeID in old(networkUpdateStreams) && old(networkUpdateStreams)[nodeID] == writer
              then old(networkUpdateStreams) - {nodeID} else old(networkUpdateStreams)
      ensures live == old(live) - {call} && newest == old(newest)
    {
      if nodeID in networkUpdateStreams && networkUpdateStreams[nodeID] == writer {
        networkUpdateStreams := networkUpdateStreams - {nodeID};
      }
      live := live - {call};
    }

    /** The writer that an update is written to; one that cannot be converted or written is dropped. */
    method OnPendingFirewallUpdate(nodeID: NodeID, convertOk: bool, writeOk: bool) returns (written: Option<Writer>)
      requires Inv(Model())
      ensures written.Some? <==> nodeID in newest && newest[nodeID] in live && convertOk && writeOk
      ensures written.Some? ==> live[newest[nodeID]] == Call(nodeID, written.value, live[newest[nodeID]].cancelled)
    {
      assert NodeOk(Model(), nodeID);
      if nodeID !in networkUpdateStreams || !convertOk || !writeOk {
        return None;
      }
      return Some(networkUpdateStreams[nodeID]);
    }
  }
}
