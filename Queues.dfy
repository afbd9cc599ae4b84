/**
 * Queue utilities over ordered, duplicate-permitting queues: remove every
 * match, find the first entry keyed by a node id, and drain one queue into
 * another.
 */
module Queues {
  import opened Wrappers

  /** A queue entry: a bare node id, or a one-key record `{key: value}`. */
  datatype Entry = Id(id: string) | Keyed(key: string, value: string)

  /** An entry answers to `nodeId` when it is that bare id or is keyed by it. */
  predicate Matches(e: Entry, nodeId: string) {
    match e
    case Id(x) => x == nodeId
    case Keyed(k, _) => k == nodeId
  }

  /**
   * The persistent double-ended queue the controller is handed: append to the
   * tail, pop from the head, clear. Durability is not modelled.
   */
  class Deque<T> {
    var items: seq<T>

    constructor ()
      ensures items == []
    {
      items := [];
    }

    method Append(x: T)
      modifies this
      ensures items == old(items) + [x]
    {
      items := items + [x];
    }

    method PopLeft() returns (x: T)
      requires items != []
      modifies this
      ensures x == old(items)[0] && items == old(items)[1..]
    {
      x := items[0];
      items := items[1..];
    }

    method Clear()
      modifies this
      ensures items == []
    {
      items := [];
    }
  }

  /** `s` with every occurrence of `x` dropped, the rest in their order. */
  function RemoveAll<T(==)>(s: seq<T>, x: T): (r: seq<T>)
    ensures x !in r
    ensures |r| <= |s|
  {
    if s == [] then []
    else
      var init := s[..|s| - 1];
      assert s == init + [s[|s| - 1]];
      RemoveAll(init, x) + (if s[|s| - 1] == x then [] else [s[|s| - 1]])
  }

  /** Removing commutes with concatenation, so the survivors keep their relative order. */
  lemma {:induction false} RemoveAllAppend<T>(a: seq<T>, b: seq<T>, x: T)
    ensures RemoveAll(a + b, x) == RemoveAll(a, x) + RemoveAll(b, x)
    decreases |b|
  {
    if b == [] {
      assert a + b == a;
    } else {
      var b' := b[..|b| - 1];
      assert (a + b)[..|a + b| - 1] == a + b';
      RemoveAllAppend(a, b', x);
    }
  }

  /** Exactly the copies of `x` go: every other entry keeps its multiplicity. */
  lemma {:induction false} RemoveAllCounts<T>(s: seq<T>, x: T, y: T)
    ensures multiset(RemoveAll(s, x))[y] == if y == x then 0 else multiset(s)[y]
    decreases |s|
  {
    if s != [] {
      var init := s[..|s| - 1];
      assert s == init + [s[|s| - 1]];
      RemoveAllCounts(init, x, y);
    }
  }

  /** Nothing to remove leaves the queue as it was. */
  lemma {:induction false} RemoveAllAbsent<T>(s: seq<T>, x: T)
    requires x !in s
    ensures RemoveAll(s, x) == s
    decreases |s|
  {
    if s != [] {
      var init := s[..|s| - 1];
      assert s == init + [s[|s| - 1]];
      RemoveAllAbsent(init, x);
    }
  }

  /**
   * clean_from_queue: purge every entry equal to `x` from `q` in place, by
   * rotating the queue once and re-appending the survivors.
   */
  method CleanFromQueue<T(==)>(x: T, q: Deque<T>)
    modifies q
    ensures q.items == RemoveAll(old(q.items), x)
  {
    ghost var start := q.items;
    var n := |q.items|;
    var i := 0;
    while i < n
      invariant 0 <= i <= n == |start|
      invariant q.items == start[i..] + RemoveAll(start[..i], x)
    {
      ghost var kept := RemoveAll(start[..i], x);
      var y := q.PopLeft();
      assert y == start[i] && q.items == start[i + 1..] + kept;
      assert RemoveAll(start[..i + 1], x) == kept + (if y == x then [] else [y]) by {
        assert start[..i + 1][..i] == start[..i];
      }
      if y != x {
        q.Append(y);
      }
      i := i + 1;
    }
    assert start[..n] == start;
  }

  /**
   * lookup_node_id: the first entry of `q` answering to `nodeId`, or None when
   * there is none.
   */
  function LookupNodeId(nodeId: string, q: seq<Entry>): (r: Option<Entry>)
    ensures r.None? <==> forall e :: e in q ==> !Matches(e, nodeId)
    ensures r.Some? ==> exists i :: 0 <= i < |q| && q[i] == r.value && Matches(r.value, nodeId)
                           && forall j :: 0 <= j < i ==> !Matches(q[j], nodeId)
  {
    if q == [] then None
    else if Matches(q[0], nodeId) then Some(q[0])
    else
      var r := LookupNodeId(nodeId, q[1..]);
      assert r.Some? ==> exists i :: 0 <= i < |q| && q[i] == r.value && Matches(r.value, nodeId)
                           && forall j :: 0 <= j < i ==> !Matches(q[j], nodeId) by {
        if r.Some? {
          var i :| 0 <= i < |q[1..]| && q[1..][i] == r.value && Matches(r.value, nodeId)
                   && forall j :: 0 <= j < i ==> !Matches(q[1..][j], nodeId);
          assert q[i + 1] == r.value;
          forall j | 0 <= j < i + 1 ensures !Matches(q[j], nodeId) {
            if j > 0 { assert q[j] == q[1..][j - 1]; }
          }
        }
      }
      r
  }

  /**
   * handle_node_queues: move every entry of `nodeQ` to the tail of `waitQ`,
   * in order, leaving `nodeQ` empty.
   */
  method HandleNodeQueues<T>(nodeQ: Deque<T>, waitQ: Deque<T>)
    requires nodeQ != waitQ
    modifies nodeQ, waitQ
    ensures nodeQ.items == []
    ensures waitQ.items == old(waitQ.items) + old(nodeQ.items)
  {
    while nodeQ.items != []
      invariant waitQ.items + nodeQ.items == old(waitQ.items) + old(nodeQ.items)
      decreases |nodeQ.items|
    {
      ghost var before := nodeQ.items;
      var x := nodeQ.PopLeft();
      waitQ.Append(x);
      assert [x] + nodeQ.items == before;
    }
  }
}
