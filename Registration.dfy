/**
 * The registration state machine: announced ids move from node_q to wait_q,
 * ids found registered in reg_q have their waiting copies purged, and ids that
 * have waited too many times expire from wait_q.
 */
module Registration {
  import opened Wrappers
  import opened Queues

  /**
   * An id with this many copies in wait_q has waited out its turn and is
   * dropped from wait_q at the start of the next manage_incoming_nodes pass.
   */
  const STALE_COPIES := 3

  /** `s` without the entries in `gone`, the rest in their order. */
  function Without(s: seq<Entry>, gone: set<Entry>): (r: seq<Entry>)
    ensures |r| <= |s|
  {
    if s == [] then []
    else Without(s[..|s| - 1], gone) + (if s[|s| - 1] in gone then [] else [s[|s| - 1]])
  }

  lemma {:induction false} WithoutCounts(s: seq<Entry>, gone: set<Entry>, y: Entry)
    ensures multiset(Without(s, gone))[y] == if y in gone then 0 else multiset(s)[y]
    decreases |s|
  {
    if s != [] {
      assert s == s[..|s| - 1] + [s[|s| - 1]];
      WithoutCounts(s[..|s| - 1], gone, y);
    }
  }

  /** Purging one more id from a filtered queue is filtering by one more id. */
  lemma {:induction false} WithoutThenRemove(s: seq<Entry>, gone: set<Entry>, x: Entry)
    ensures RemoveAll(Without(s, gone), x) == Without(s, gone + {x})
    decreases |s|
  {
    if s != [] {
      var init, last := s[..|s| - 1], s[|s| - 1];
      WithoutThenRemove(init, gone, x);
      var kept := if last in gone then [] else [last];
      RemoveAllAppend(Without(init, gone), kept, x);
      assert RemoveAll(kept, x) == if last in gone + {x} then [] else [last] by {
        if kept != [] {
          assert kept[..|kept| - 1] == [];
        }
      }
    }
  }

  /** The ids among `upto` that have STALE_COPIES or more copies in `w`. */
  function StaleIds(w: seq<Entry>, upto: seq<Entry>): set<Entry> {
    set e | e in upto && multiset(w)[e] >= STALE_COPIES
  }

  /** wait_q after expiry: every id with STALE_COPIES or more copies gone, all other entries kept in order. */
  function ExpireStale(w: seq<Entry>): seq<Entry> {
    Without(w, StaleIds(w, w))
  }

  /** Expiry removes all copies of a stale id and keeps every copy of any other. */
  lemma ExpireStaleCounts(w: seq<Entry>, y: Entry)
    ensures multiset(ExpireStale(w))[y] == if multiset(w)[y] >= STALE_COPIES then 0 else multiset(w)[y]
  {
    WithoutCounts(w, StaleIds(w, w), y);
    assert y !in w ==> multiset(w)[y] == 0;
  }

  /**
   * The expiry pass of manage_incoming_nodes: for each entry of a snapshot of
   * `waitQ`, purge it when `waitQ` still holds STALE_COPIES or more of it.
   */
  method ExpireWaiting(waitQ: Deque<Entry>)
    modifies waitQ
    ensures waitQ.items == ExpireStale(old(waitQ.items))
  {
    var snap := waitQ.items;
    var i := 0;
    assert StaleIds(snap, snap[..0]) == {};
    WithoutNone(snap);
    while i < |snap|
      invariant 0 <= i <= |snap|
      invariant waitQ.items == Without(snap, StaleIds(snap, snap[..i]))
    {
      ExpireEntry(waitQ, snap, i);
      i := i + 1;
    }
    assert snap[..i] == snap;
  }

  /** One step of the expiry pass: the snapshot's entry `i` is purged when it has STALE_COPIES or more copies left. */
  method ExpireEntry(waitQ: Deque<Entry>, snap: seq<Entry>, i: nat)
    requires i < |snap|
    requires waitQ.items == Without(snap, StaleIds(snap, snap[..i]))
    modifies waitQ
    ensures waitQ.items == Without(snap, StaleIds(snap, snap[..i + 1]))
  {
    var x := snap[i];
    ExpireStep(snap, i, waitQ.items);
    if multiset(waitQ.items)[x] >= STALE_COPIES {
      CleanFromQueue(x, waitQ);
    }
  }

  /** Scanning one more snapshot entry adds it to the stale set exactly when it has enough copies. */
  lemma StaleIdsStep(w: seq<Entry>, i: nat)
    requires i < |w|
    ensures StaleIds(w, w[..i + 1]) ==
      if multiset(w)[w[i]] >= STALE_COPIES then StaleIds(w, w[..i]) + {w[i]} else StaleIds(w, w[..i])
  {
    assert w[..i + 1] == w[..i] + [w[i]];
  }

  /** One iteration of the expiry pass keeps the queue equal to the snapshot filtered by the ids seen stale so far. */
  lemma ExpireStep(snap: seq<Entry>, i: nat, cur: seq<Entry>)
    requires i < |snap|
    requires cur == Without(snap, StaleIds(snap, snap[..i]))
    ensures (if multiset(cur)[snap[i]] >= STALE_COPIES then RemoveAll(cur, snap[i]) else cur)
            == Without(snap, StaleIds(snap, snap[..i + 1]))
  {
    var x, gone := snap[i], StaleIds(snap, snap[..i]);
    WithoutCounts(snap, gone, x);
    StaleIdsStep(snap, i);
    if multiset(cur)[x] >= STALE_COPIES {
      WithoutThenRemove(snap, gone, x);
    } else if x in gone {
      assert gone + {x} == gone;
    }
  }

  lemma {:induction false} WithoutNone(s: seq<Entry>)
    ensures Without(s, {}) == s
    decreases |s|
  {
    if s != [] {
      WithoutNone(s[..|s| - 1]);
    }
  }

  /** One popped id: purge it from wait_q when registered, else append it to wait_q. */
  function ReconcileOne(w: seq<Entry>, x: Entry, reg: seq<Entry>): seq<Entry> {
    if x in reg then RemoveAll(w, x) else w + [x]
  }

  /** wait_q after every id of `nodes` has been handled, first to last. */
  function Reconcile(w: seq<Entry>, nodes: seq<Entry>, reg: seq<Entry>): seq<Entry>
    decreases |nodes|
  {
    if nodes == [] then w else Reconcile(ReconcileOne(w, nodes[0], reg), nodes[1..], reg)
  }

  /**
   * After a pass, a registered id that came through node_q has no waiting
   * copy left; a registered id that did not keeps its copies; an unregistered
   * id gains one waiting copy per announce.
   */
  lemma {:induction false} ReconcileCounts(w: seq<Entry>, nodes: seq<Entry>, reg: seq<Entry>, y: Entry)
    ensures multiset(Reconcile(w, nodes, reg))[y] ==
      if y in reg then (if y in nodes then 0 else multiset(w)[y])
      else multiset(w)[y] + multiset(nodes)[y]
    decreases |nodes|
  {
    if nodes != [] {
      var x, rest := nodes[0], nodes[1..];
      assert nodes == [x] + rest;
      var w' := ReconcileOne(w, x, reg);
      ReconcileCounts(w', rest, reg, y);
      if x in reg {
        RemoveAllCounts(w, x, y);
      }
    }
  }

  /** With no announced id registered, the pass appends node_q to wait_q unchanged and in order. */
  lemma {:induction false} ReconcileUnregistered(w: seq<Entry>, nodes: seq<Entry>, reg: seq<Entry>)
    requires forall x :: x in nodes ==> x !in reg
    ensures Reconcile(w, nodes, reg) == w + nodes
    decreases |nodes|
  {
    if nodes != [] {
      assert forall x :: x in nodes[1..] ==> x in nodes;
      ReconcileUnregistered(w + [nodes[0]], nodes[1..], reg);
      assert w + [nodes[0]] + nodes[1..] == w + nodes;
    }
  }

  /**
   * One manage_incoming_nodes call, counted per id: stale ids expire first,
   * then registered arrivals are purged and unregistered arrivals queued.
   */
  lemma ManageIncomingCounts(w: seq<Entry>, nodes: seq<Entry>, reg: seq<Entry>, y: Entry)
    ensures var kept := if multiset(w)[y] >= STALE_COPIES then 0 else multiset(w)[y];
      multiset(Reconcile(ExpireStale(w), nodes, reg))[y] ==
        if y in reg then (if y in nodes then 0 else kept) else kept + multiset(nodes)[y]
  {
    ExpireStaleCounts(w, y);
    ReconcileCounts(ExpireStale(w), nodes, reg, y);
  }

  /**
   * manage_incoming_nodes: expire stale waiting ids, then pop every id from
   * `nodeQ`; a registered one has all its copies purged from `waitQ`, any
   * other is appended to `waitQ`. `regQ` is only read.
   */
  method ManageIncomingNodes(nodeQ: Deque<Entry>, regQ: Deque<Entry>, waitQ: Deque<Entry>)
    requires nodeQ != regQ && nodeQ != waitQ && regQ != waitQ
    modifies nodeQ, waitQ
    ensures nodeQ.items == []
    ensures waitQ.items == Reconcile(ExpireStale(old(waitQ.items)), old(nodeQ.items), regQ.items)
  {
    ExpireWaiting(waitQ);
    ghost var expired := waitQ.items;
    while nodeQ.items != []
      invariant Reconcile(waitQ.items, nodeQ.items, regQ.items) == Reconcile(expired, old(nodeQ.items), regQ.items)
      decreases |nodeQ.items|
    {
      var x := nodeQ.PopLeft();
      if x in regQ.items {
        CleanFromQueue(x, waitQ);
      } else {
        waitQ.Append(x);
      }
    }
  }

  datatype RegistrationError = NotAnnounced(nodeId: string)

  /**
   * handle_announce_msg: register an id that is waiting in `nodeQ` by
   * appending it to `regQ` (a repeat registration adds a repeat entry); an id
   * never announced is refused. `nodeQ` and `waitQ` are left as they are.
   */
  method HandleAnnounceMsg(nodeQ: Deque<Entry>, regQ: Deque<Entry>, waitQ: Deque<Entry>, msg: string)
    returns (r: Outcome<RegistrationError>)
    requires regQ != nodeQ && regQ != waitQ
    modifies regQ
    ensures r.Pass? <==> Id(msg) in nodeQ.items
    ensures r.Fail? ==> r.error == NotAnnounced(msg)
    ensures regQ.items == if r.Pass? then old(regQ.items) + [Id(msg)] else old(regQ.items)
  {
    if Id(msg) in nodeQ.items {
      regQ.Append(Id(msg));
      r := Pass;
    } else {
      r := Fail(NotAnnounced(msg));
    }
  }
}
