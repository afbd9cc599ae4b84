/**
 * The membership trie: node ids and network ids (used interchangeably as
 * keys) mapped to a peer list and a pair of reconciliation flags, with the
 * sweep that reports dangling entries.
 */
module Trie {
  import opened Wrappers

  /** What a key maps to: its peer ids and its `needs` flags. */
  datatype TrieValue = TrieValue(peers: seq<string>, needs: seq<bool>)

  datatype TrieError =
    | BadNeeds(given: nat)       // a `needs` list that is neither empty nor a pair
    | EmptyKeyList               // the list that should supply the key has no element
    | UnknownKey(key: string)    // a lookup of a key that is not stored
    | NoPeer(key: string)        // a dangling entry whose peer list is empty

  /** An entry is dangling when its second flag is set: the other side has not answered yet. */
  predicate IsDangling(v: TrieValue) {
    |v.needs| == 2 && v.needs[1]
  }

  /** The process-wide id trie, as a map plus the order in which keys were first stored (the sweep order this model assumes). */
  class IdTrie {
    var entries: map<string, TrieValue>
    var order: seq<string>

    ghost predicate Valid()
      reads this
    {
      && (forall i, j :: 0 <= i < j < |order| ==> order[i] != order[j])
      && (forall k :: k in entries <==> k in order)
    }

    constructor ()
      ensures Valid() && entries == map[] && order == []
    {
      entries := map[];
      order := [];
    }

    /** `trie[key] = value`: a new key goes to the end of the order, an old one keeps its place. */
    method Put(key: string, value: TrieValue)
      requires Valid()
      modifies this
      ensures Valid()
      ensures entries == old(entries)[key := value]
      ensures order == if key in old(entries) then old(order) else old(order) + [key]
    {
      if key !in entries {
        order := order + [key];
      }
      entries := entries[key := value];
    }

    method Clear()
      modifies this
      ensures Valid() && entries == map[] && order == []
    {
      entries := map[];
      order := [];
    }
  }

  /**
   * update_id_trie: with `nw` false the first node id is the key and the
   * network list its peers; with `nw` true the first network id is the key and
   * the node list its peers. `needs` must be empty or a pair.
   */
  method UpdateIdTrie(trie: IdTrie, nwId: seq<string>, nodeId: seq<string>,
                      needs: seq<bool> := [], nw: bool := false)
    returns (r: Outcome<TrieError>)
    requires trie.Valid()
    modifies trie
    ensures trie.Valid()
    ensures r.Pass? <==> (|needs| == 0 || |needs| == 2) && (if nw then nwId else nodeId) != []
    ensures r == Fail(BadNeeds(|needs|)) <==> |needs| != 0 && |needs| != 2
    ensures r.Pass? && !nw ==> trie.entries == old(trie.entries)[nodeId[0] := TrieValue(nwId, needs)]
    ensures r.Pass? && nw ==> trie.entries == old(trie.entries)[nwId[0] := TrieValue(nodeId, needs)]
    ensures r.Pass? ==> var key := (if nw then nwId else nodeId)[0];
      trie.order == if key in old(trie.entries) then old(trie.order) else old(trie.order) + [key]
    ensures r.Fail? ==> trie.entries == old(trie.entries) && trie.order == old(trie.order)
  {
    if |needs| != 0 && |needs| != 2 {
      return Fail(BadNeeds(|needs|));
    }
    var keys, peers := if nw then nwId else nodeId, if nw then nodeId else nwId;
    if keys == [] {
      return Fail(EmptyKeyList);
    }
    trie.Put(keys[0], TrieValue(peers, needs));
    r := Pass;
  }

  /** trie_is_empty */
  function TrieIsEmpty(trie: IdTrie): (r: bool)
    reads trie
    requires trie.Valid()
    ensures r <==> trie.order == []
  {
    assert trie.order != [] ==> trie.order[0] in trie.entries;
    trie.entries.Keys == {}
  }

  /**
   * The dangling sweep over `keys` in order: for each dangling entry, its key
   * followed by its first peer, all in one flat list.
   */
  function DanglingPairs(keys: seq<string>, entries: map<string, TrieValue>): Result<seq<string>, TrieError>
    requires forall k :: k in keys ==> k in entries
  {
    if keys == [] then Ok([])
    else
      var init, k := keys[..|keys| - 1], keys[|keys| - 1];
      assert forall j :: j in init ==> j in keys;
      match DanglingPairs(init, entries)
      case Err(e) => Err(e)
      case Ok(acc) =>
        if !IsDangling(entries[k]) then Ok(acc)
        else if entries[k].peers == [] then Err(NoPeer(k))
        else Ok(acc + [k, entries[k].peers[0]])
  }

  /** find_dangling_nets: the dangling sweep over the whole trie, in key order. */
  method FindDanglingNets(trie: IdTrie) returns (r: Result<seq<string>, TrieError>)
    requires trie.Valid()
    ensures r == DanglingPairs(trie.order, trie.entries)
  {
    var order, entries := trie.order, trie.entries;
    var acc: seq<string> := [];
    var i := 0;
    while i < |order|
      invariant 0 <= i <= |order|
      invariant DanglingPairs(order[..i], entries) == Ok(acc)
    {
      var k := order[i];
      DanglingPairsStep(order, entries, i);
      var v := entries[k];
      if IsDangling(v) {
        if v.peers == [] {
          assert order[..i + 1] + order[i + 1..] == order;
          DanglingPairsErrSticks(order[..i + 1], order[i + 1..], entries);
          return Err(NoPeer(k));
        }
        acc := acc + [k, v.peers[0]];
      }
      i := i + 1;
    }
    assert order[..i] == order;
    r := Ok(acc);
  }

  /** The sweep over one more key, given that the sweep so far succeeded. */
  lemma DanglingPairsStep(keys: seq<string>, entries: map<string, TrieValue>, i: nat)
    requires forall k :: k in keys ==> k in entries
    requires i < |keys| && DanglingPairs(keys[..i], entries).Ok?
    ensures keys[i] in entries
    ensures var acc, v := DanglingPairs(keys[..i], entries).value, entries[keys[i]];
      DanglingPairs(keys[..i + 1], entries) ==
        if !IsDangling(v) then Ok(acc)
        else if v.peers == [] then Err(NoPeer(keys[i]))
        else Ok(acc + [keys[i], v.peers[0]])
  {
    assert keys[..i + 1][..i] == keys[..i];
  }

  lemma {:induction false} DanglingPairsErrSticks(keys: seq<string>, more: seq<string>, entries: map<string, TrieValue>)
    requires forall k :: k in keys + more ==> k in entries
    requires DanglingPairs(keys, entries).Err?
    ensures DanglingPairs(keys + more, entries) == DanglingPairs(keys, entries)
    decreases |more|
  {
    if more == [] {
      assert keys + more == keys;
    } else {
      var m' := more[..|more| - 1];
      assert (keys + more)[..|keys + more| - 1] == keys + m';
      assert forall k :: k in keys + m' ==> k in keys + more;
      DanglingPairsErrSticks(keys, m', entries);
      assert DanglingPairs(keys + more, entries) == DanglingPairs(keys + m', entries);
    }
  }

  /** With no dangling entry the sweep finds nothing. */
  lemma {:induction false} NoDanglingNoPairs(keys: seq<string>, entries: map<string, TrieValue>)
    requires forall k :: k in keys ==> k in entries
    requires forall k :: k in keys ==> !IsDangling(entries[k])
    ensures DanglingPairs(keys, entries) == Ok([])
    decreases |keys|
  {
    if keys != [] {
      var init := keys[..|keys| - 1];
      assert forall j :: j in init ==> j in keys;
      NoDanglingNoPairs(init, entries);
    }
  }

  /**
   * What a successful sweep holds: pairs (key, first peer) of dangling
   * entries whose keys were swept.
   */
  lemma {:induction false} DanglingPairsSound(keys: seq<string>, entries: map<string, TrieValue>)
    requires forall k :: k in keys ==> k in entries
    requires DanglingPairs(keys, entries).Ok?
    ensures var out := DanglingPairs(keys, entries).value;
      && |out| % 2 == 0
      && (forall i :: 0 <= i < |out| / 2 ==>
            out[2 * i] in keys && IsDangling(entries[out[2 * i]])
            && entries[out[2 * i]].peers != [] && out[2 * i + 1] == entries[out[2 * i]].peers[0])
    decreases |keys|
  {
    if keys != [] {
      var init, k := keys[..|keys| - 1], keys[|keys| - 1];
      assert keys == init + [k];
      assert forall j :: j in init ==> j in keys;
      assert DanglingPairs(init, entries).Ok?;
      DanglingPairsSound(init, entries);
      var acc := DanglingPairs(init, entries).value;
      var out := DanglingPairs(keys, entries).value;
      if IsDangling(entries[k]) {
        assert out == acc + [k, entries[k].peers[0]];
        forall i | 0 <= i < |acc| / 2
          ensures out[2 * i] == acc[2 * i] && out[2 * i + 1] == acc[2 * i + 1]
        {
        }
      } else {
        assert out == acc;
      }
    }
  }

  /** A successful sweep misses no dangling key: each one heads some pair. */
  lemma {:induction false} DanglingPairsComplete(keys: seq<string>, entries: map<string, TrieValue>)
    requires forall k :: k in keys ==> k in entries
    requires DanglingPairs(keys, entries).Ok?
    ensures var out := DanglingPairs(keys, entries).value;
      forall k :: k in keys && IsDangling(entries[k]) ==>
        exists i :: 0 <= i < |out| / 2 && out[2 * i] == k
    decreases |keys|
  {
    if keys != [] {
      var init, k := keys[..|keys| - 1], keys[|keys| - 1];
      assert keys == init + [k];
      assert forall j :: j in init ==> j in keys;
      assert DanglingPairs(init, entries).Ok?;
      DanglingPairsComplete(init, entries);
      DanglingPairsSound(init, entries);
      var acc := DanglingPairs(init, entries).value;
      var out := DanglingPairs(keys, entries).value;
      if IsDangling(entries[k]) {
        assert out == acc + [k, entries[k].peers[0]];
        assert out[2 * (|acc| / 2)] == k;
        forall i | 0 <= i < |acc| / 2
          ensures out[2 * i] == acc[2 * i]
        {
        }
      } else {
        assert out == acc;
      }
    }
  }

  /** Exactly one dangling entry gives exactly its (key, first peer) pair. */
  lemma {:induction false} OneDanglingPair(keys: seq<string>, entries: map<string, TrieValue>, d: string)
    requires forall k :: k in keys ==> k in entries
    requires d in keys && IsDangling(entries[d]) && entries[d].peers != []
    requires forall i, j :: 0 <= i < j < |keys| ==> keys[i] != keys[j]
    requires forall k :: k in keys && k != d ==> !IsDangling(entries[k])
    ensures DanglingPairs(keys, entries) == Ok([d, entries[d].peers[0]])
    decreases |keys|
  {
    var init, k := keys[..|keys| - 1], keys[|keys| - 1];
    assert keys == init + [k];
    assert forall j :: j in init ==> j in keys;
    if k == d {
      assert d !in init by {
        forall i | 0 <= i < |init| ensures init[i] != d {
          assert keys[i] != keys[|keys| - 1];
        }
      }
      NoDanglingNoPairs(init, entries);
      var p := entries[d].peers[0];
      assert DanglingPairs(keys, entries) == Ok([] + [d, p]);
      assert [] + [d, p] == [d, p];
    } else {
      assert d in init;
      assert forall i, j :: 0 <= i < j < |init| ==> init[i] != init[j] by {
        forall i, j | 0 <= i < j < |init| ensures init[i] != init[j] {
          assert init[i] == keys[i] && init[j] == keys[j];
        }
      }
      OneDanglingPair(init, entries, d);
    }
  }
}
