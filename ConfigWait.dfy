/**
 * The config-wait protocol: match a waiting node against the pending config
 * messages, holding back the ones meant for other nodes, and after repeated
 * misses with nothing pending register the node without a config message.
 */
module ConfigWait {
  import opened Wrappers
  import opened Queues
  import opened Messages

  /** Miss markers a node may collect before a dry call registers it instead. */
  const MAX_MISSES := 2

  /** A miss marker in hold_q is the bare node id. */
  function Marker(nodeId: string): Wire {
    Text(nodeId)
  }

  /** hold_q.count(node_id): the misses recorded for a node. */
  function Misses(hold: seq<Wire>, nodeId: string): nat {
    multiset(hold)[Marker(nodeId)]
  }

  /** The config messages among `s` (every JSON object), in order; miss markers are left behind. */
  function Configs(s: seq<Wire>): (r: seq<Wire>)
    ensures |r| <= |s|
  {
    if s == [] then []
    else (if s[0].Object? then [s[0]] else []) + Configs(s[1..])
  }

  lemma {:induction false} ConfigsAppend(a: seq<Wire>, b: seq<Wire>)
    ensures Configs(a + b) == Configs(a) + Configs(b)
    decreases |a|
  {
    if a == [] {
      assert a + b == b;
    } else {
      assert (a + b)[0] == a[0];
      assert (a + b)[1..] == a[1..] + b;
      ConfigsAppend(a[1..], b);
    }
  }

  lemma {:induction false} ConfigsIdempotent(s: seq<Wire>)
    ensures Configs(Configs(s)) == Configs(s)
    decreases |s|
  {
    if s != [] {
      var head := if s[0].Object? then [s[0]] else [];
      ConfigsAppend(head, Configs(s[1..]));
      ConfigsIdempotent(s[1..]);
      if head != [] {
        assert head[1..] == [];
      }
    }
  }

  /** The three queues the protocol works on. */
  datatype CfgState = CfgState(cfg: seq<Wire>, hold: seq<Wire>, reg: seq<Entry>)

  /** What a call returns (the matched config message, if any) and the queues after it. */
  datatype WaitResult = WaitResult(reply: Option<Wire>, after: CfgState)

  /**
   * One wait_for_cfg_msg call for `nodeId`. With a config message pending,
   * pop it: return it if it is for this node, else hold it back together with
   * one miss marker. With none pending, add a miss marker while the node has
   * fewer than MAX_MISSES; once it has that many, put every held config
   * message back on cfg_q, empty hold_q and register the node.
   */
  function WaitStep(s: CfgState, nodeId: string): WaitResult {
    if s.cfg != [] then
      var head := s.cfg[0];
      if CfgNodeId(head) == Some(nodeId) then WaitResult(Some(head), s.(cfg := s.cfg[1..]))
      else WaitResult(None, s.(cfg := s.cfg[1..], hold := s.hold + [head, Marker(nodeId)]))
    else if Misses(s.hold, nodeId) < MAX_MISSES then
      WaitResult(None, s.(hold := s.hold + [Marker(nodeId)]))
    else
      WaitResult(None, CfgState(s.cfg + Configs(s.hold), [], s.reg + [Id(nodeId)]))
  }

  /**
   * The flush of hold_q: every held config message goes back to the tail of
   * `cfgQ` in its held order, and `holdQ` ends empty.
   */
  method RequeueHeld(cfgQ: Deque<Wire>, holdQ: Deque<Wire>)
    requires cfgQ != holdQ
    modifies cfgQ, holdQ
    ensures cfgQ.items == old(cfgQ.items) + Configs(old(holdQ.items))
    ensures holdQ.items == []
  {
    while holdQ.items != []
      invariant cfgQ.items + Configs(holdQ.items) == old(cfgQ.items) + Configs(old(holdQ.items))
      decreases |holdQ.items|
    {
      var msg := holdQ.PopLeft();
      if msg.Object? {
        cfgQ.Append(msg);
      }
    }
  }

  /** wait_for_cfg_msg: one step of the protocol on the real queues. */
  method WaitForCfgMsg(cfgQ: Deque<Wire>, holdQ: Deque<Wire>, regQ: Deque<Entry>, nodeId: string)
    returns (reply: Option<Wire>)
    requires cfgQ != holdQ
    modifies cfgQ, holdQ, regQ
    ensures WaitResult(reply, CfgState(cfgQ.items, holdQ.items, regQ.items))
            == WaitStep(CfgState(old(cfgQ.items), old(holdQ.items), old(regQ.items)), nodeId)
  {
    if cfgQ.items != [] {
      var msg := cfgQ.PopLeft();
      if CfgNodeId(msg) == Some(nodeId) {
        return Some(msg);
      }
      holdQ.Append(msg);
      holdQ.Append(Marker(nodeId));
      return None;
    }
    if multiset(holdQ.items)[Marker(nodeId)] < MAX_MISSES {
      holdQ.Append(Marker(nodeId));
      return None;
    }
    RequeueHeld(cfgQ, holdQ);
    regQ.Append(Id(nodeId));
    reply := None;
  }

  /** A config message is returned only when it heads cfg_q and names the node. */
  lemma WaitStepReply(s: CfgState, nodeId: string)
    ensures var r := WaitStep(s, nodeId);
      && (r.reply.Some? <==> s.cfg != [] && CfgNodeId(s.cfg[0]) == Some(nodeId))
      && (r.reply.Some? ==> r.reply.value == s.cfg[0] && r.after == s.(cfg := s.cfg[1..]))
  {
  }

  /**
   * Config messages are never dropped: every one is still pending, held, or
   * the one returned.
   */
  lemma ConfigsNeverDropped(s: CfgState, nodeId: string)
    ensures var r := WaitStep(s, nodeId);
      multiset(Configs(r.after.cfg)) + multiset(Configs(r.after.hold))
        + (if r.reply.Some? then multiset{r.reply.value} else multiset{})
      == multiset(Configs(s.cfg)) + multiset(Configs(s.hold))
  {
    if s.cfg != [] {
      PoppedConfigKept(s, nodeId);
    } else if Misses(s.hold, nodeId) < MAX_MISSES {
      assert WaitStep(s, nodeId) == WaitResult(None, s.(hold := s.hold + [Marker(nodeId)]));
      assert Configs(s.hold + [Marker(nodeId)]) == Configs(s.hold) by {
        ConfigsAppend(s.hold, [Marker(nodeId)]);
        assert Configs([Marker(nodeId)]) == [];
      }
    } else {
      assert WaitStep(s, nodeId) == WaitResult(None, CfgState(Configs(s.hold), [], s.reg + [Id(nodeId)]));
      ConfigsIdempotent(s.hold);
    }
  }

  /** The popped head of cfg_q is either returned or held back; nothing else moves. */
  lemma PoppedConfigKept(s: CfgState, nodeId: string)
    requires s.cfg != []
    ensures var r := WaitStep(s, nodeId);
      multiset(Configs(r.after.cfg)) + multiset(Configs(r.after.hold))
        + (if r.reply.Some? then multiset{r.reply.value} else multiset{})
      == multiset(Configs(s.cfg)) + multiset(Configs(s.hold))
  {
    ConfigsOfPopped(s.cfg);
    if CfgNodeId(s.cfg[0]) == Some(nodeId) {
      PoppedReturned(s, nodeId);
    } else {
      PoppedHeld(s, nodeId);
    }
  }

  lemma PoppedReturned(s: CfgState, nodeId: string)
    requires s.cfg != [] && CfgNodeId(s.cfg[0]) == Some(nodeId)
    ensures var r := WaitStep(s, nodeId);
      r.reply == Some(s.cfg[0]) && s.cfg[0].Object? && r.after.cfg == s.cfg[1..] && r.after.hold == s.hold
  {
  }

  lemma PoppedHeld(s: CfgState, nodeId: string)
    requires s.cfg != [] && CfgNodeId(s.cfg[0]) != Some(nodeId)
    ensures var r := WaitStep(s, nodeId);
      && r.reply == None && r.after.cfg == s.cfg[1..]
      && multiset(Configs(r.after.hold)) == multiset(Configs(s.hold)) + multiset(if s.cfg[0].Object? then [s.cfg[0]] else [])
  {
    HeldConfigsCount(s.hold, s.cfg[0], nodeId);
  }

  lemma ConfigsOfPopped(cfg: seq<Wire>)
    requires cfg != []
    ensures multiset(Configs(cfg)) == multiset(if cfg[0].Object? then [cfg[0]] else []) + multiset(Configs(cfg[1..]))
  {
  }

  lemma HeldConfigsCount(hold: seq<Wire>, head: Wire, nodeId: string)
    ensures multiset(Configs(hold + [head, Marker(nodeId)]))
      == multiset(Configs(hold)) + multiset(if head.Object? then [head] else [])
  {
    HoldBackKeepsConfigs(hold, head, nodeId);
  }

  /** Holding back a popped message with a miss marker holds back exactly its config, if it is one. */
  lemma HoldBackKeepsConfigs(hold: seq<Wire>, head: Wire, nodeId: string)
    ensures Configs(hold + [head, Marker(nodeId)]) == Configs(hold) + (if head.Object? then [head] else [])
  {
    ConfigsAppend(hold, [head, Marker(nodeId)]);
    assert [head, Marker(nodeId)][1..] == [Marker(nodeId)];
    assert Configs([Marker(nodeId)]) == [];
  }

  /**
   * reg_q changes only when a dry call finds the node already at MAX_MISSES;
   * then the node is appended to reg_q and hold_q is emptied.
   */
  lemma RegistersOnlyAtThreshold(s: CfgState, nodeId: string)
    ensures var r := WaitStep(s, nodeId);
      && (r.after.reg != s.reg <==> s.cfg == [] && Misses(s.hold, nodeId) >= MAX_MISSES)
      && (r.after.reg != s.reg ==> r.after.reg == s.reg + [Id(nodeId)] && r.after.hold == [])
  {
    var r := WaitStep(s, nodeId);
    if s.cfg == [] && Misses(s.hold, nodeId) >= MAX_MISSES {
      assert |r.after.reg| == |s.reg| + 1;
    }
  }

  /** Until it is registered, every unanswered call adds at least one miss for the node. */
  lemma MissesAccumulate(s: CfgState, nodeId: string)
    ensures var r := WaitStep(s, nodeId);
      r.reply.None? && r.after.reg == s.reg ==> Misses(r.after.hold, nodeId) > Misses(s.hold, nodeId)
  {
    var r := WaitStep(s, nodeId);
    if s.cfg != [] && r.reply.None? {
      assert multiset(s.hold + [s.cfg[0], Marker(nodeId)]) == multiset(s.hold) + multiset{s.cfg[0], Marker(nodeId)};
    } else if s.cfg == [] && Misses(s.hold, nodeId) >= MAX_MISSES {
      assert |r.after.reg| == |s.reg| + 1;
    }
  }

  /** The queues after `n` calls for the same node. */
  function Run(s: CfgState, nodeId: string, n: nat): CfgState
    decreases n
  {
    if n == 0 then s else Run(WaitStep(s, nodeId).after, nodeId, n - 1)
  }

  /**
   * With no config message pending, a node that keeps asking is registered
   * after at most MAX_MISSES + 1 calls (fewer when it already holds misses),
   * and not before.
   */
  lemma {:induction false} DryWaitRegisters(s: CfgState, nodeId: string)
    requires s.cfg == []
    ensures var k := if Misses(s.hold, nodeId) >= MAX_MISSES then 1 else MAX_MISSES + 1 - Misses(s.hold, nodeId);
      && Run(s, nodeId, k).reg == s.reg + [Id(nodeId)]
      && Run(s, nodeId, k).hold == []
      && (forall j :: 0 <= j < k ==> Run(s, nodeId, j).reg == s.reg)
    decreases MAX_MISSES - Misses(s.hold, nodeId)
  {
    var m := Misses(s.hold, nodeId);
    var s1 := WaitStep(s, nodeId).after;
    if m >= MAX_MISSES {
      assert Run(s, nodeId, 1) == Run(s1, nodeId, 0);
      assert Run(s, nodeId, 0) == s;
    } else {
      assert s1 == s.(hold := s.hold + [Marker(nodeId)]);
      assert Misses(s1.hold, nodeId) == m + 1;
      DryWaitRegisters(s1, nodeId);
      var k := MAX_MISSES + 1 - m;
      assert Run(s, nodeId, k) == Run(s1, nodeId, k - 1);
      forall j | 0 <= j < k ensures Run(s, nodeId, j).reg == s.reg {
        if j > 0 {
          assert Run(s, nodeId, j) == Run(s1, nodeId, j - 1);
        }
      }
    }
  }
}
