/**
 * The concrete before/after cases of the controller's own test suite
 * (test/test_node_msgs.py), replayed against the model. Each lemma or method
 * follows one test function and states or asserts what that test asserts.
 */
module Scenarios {
  import opened Wrappers
  import opened Queues
  import opened Trie
  import opened Messages
  import opened Versions
  import opened Registration
  import opened ConfigWait

  /** test_invalid_msg (lines 30-34): a non-hex character, one character short, one too many. */
  lemma AnnounceMessagesInvalid()
    ensures ValidAnnounceMsg("deadbeeh00").Fail?
    ensures ValidAnnounceMsg("deadbeef0").Fail?
    ensures ValidAnnounceMsg("deadbeef000").Fail?
  {
    assert !IsHexDigit("deadbeeh00"[7]);
  }

  /** test_valid_msg (lines 37-39). */
  lemma AnnounceMessageValid()
    ensures ValidAnnounceMsg("deadbeef00").Pass?
  {
    var s := "deadbeef00";
    assert forall i :: 0 <= i < |s| ==> IsHexDigit(s[i]);
  }

  const NET0 := ["7ac4235ec5d3d938"]

  /** test_invalid_cfg_msg (lines 42-54): the messages missing or misnaming a key. */
  lemma ConfigMessagesBadKeys()
    ensures ValidCfgMsg(Object(map["node_id" := Str("02beefdead")])).Fail?
    ensures ValidCfgMsg(Object(map["node_id" := Str("02beefdead"), "net0_id" := StrList(NET0)])).Fail?
    ensures ValidCfgMsg(Object(map["node" := Str("02beefdead"), "networks" := StrList(NET0)])).Fail?
  {
  }

  /** test_invalid_cfg_msg (lines 42-54): an eleven-character node id. */
  lemma ConfigMessageLongId()
    ensures ValidCfgMsg(Object(map["node_id" := Str("022beefdead"), "networks" := StrList(NET0)])).Fail?
  {
  }

  /** test_invalid_cfg_msg (lines 42-54): a node id with a non-hex character. */
  lemma ConfigMessageBadHex()
    ensures ValidCfgMsg(CfgObject("02beefhead", NET0)).Fail?
  {
    var m := CfgObject("02beefhead", NET0);
    assert m.fields.Keys == {NODE_ID_KEY, NETWORKS_KEY};
    assert m.fields[NODE_ID_KEY] == Str("02beefhead");
    assert !IsHexDigit("02beefhead"[6]);
    assert CheckHexId("02beefhead", NODE_ID_LEN).Fail?;
  }

  /** test_valid_cfg_msg (lines 57-59). */
  lemma ConfigMessageValid()
    ensures ValidCfgMsg(CfgObject("02beefdead", NET0)).Pass?
  {
    assert IsNodeId("02beefdead");
    assert IsNetId(NET0[0]);
    ValidCfgMsgAccepts(CfgObject("02beefdead", NET0));
  }

  /** "1.0" has two parts and "1.1.b" a non-numeric third part, so neither is a version. */
  lemma MalformedVersions()
    ensures ParseVersion("1.0").None?
    ensures ParseVersion("1.1.b").None?
  {
    assert Join(["1", "0"], '.') == "1.0";
    SplitJoin(["1", "0"], '.');
    assert Join(["1", "1", "b"], '.') == "1.1.b";
    SplitJoin(["1", "1", "b"], '.');
    assert !IsDigit("b"[0]);
  }

  /** test_invalid_version (lines 62-69): no version and malformed versions. */
  lemma VersionChecksInvalid()
    ensures !ValidVersion("0.9.5", None)
    ensures !ValidVersion("0.9.5", Some("1.0"))
    ensures !ValidVersion("0.9.5", Some("1.1.b"))
  {
    MalformedVersions();
  }

  /** An older reported version than the base is refused. */
  lemma OlderVersionInvalid()
    ensures !ValidVersion("0.9.5", Some("0.9.4"))
  {
    assert FormatVersion(Version(0, 9, 5)) == "0.9.5";
    assert FormatVersion(Version(0, 9, 4)) == "0.9.4";
    ValidVersionIsOrder(Version(0, 9, 5), Version(0, 9, 4));
  }


  /** test_valid_version (lines 72-79): a newer version, an older one and the same version. */
  lemma VersionChecksValid()
    ensures ValidVersion("0.9.5", Some("0.9.6"))
    ensures !ValidVersion("0.9.5", Some("0.9.4"))
    ensures ValidVersion("0.9.5", Some("0.9.5"))
  {
    assert ValidVersion("0.9.5", Some("0.9.6")) && ValidVersion("0.9.5", Some("0.9.5")) by {
      NewerOrSameVersionValid();
    }
    OlderVersionInvalid();
  }

  /** A newer reported version, or the base itself, is accepted. */
  lemma NewerOrSameVersionValid()
    ensures ValidVersion("0.9.5", Some("0.9.6"))
    ensures ValidVersion("0.9.5", Some("0.9.5"))
  {
    assert FormatVersion(Version(0, 9, 5)) == "0.9.5";
    assert FormatVersion(Version(0, 9, 6)) == "0.9.6";
    ValidVersionIsOrder(Version(0, 9, 5), Version(0, 9, 6));
    ValidVersionIsOrder(Version(0, 9, 5), Version(0, 9, 5));
  }

  /** test_make_cfg_msg (lines 82-99). */
  method MakeConfigMessage() returns (msg: Result<Wire, TrieError>)
    ensures msg == Ok(CfgObject("02beefdead", NET0)) && ValidCfgMsg(msg.value).Pass?
  {
    var trie := new IdTrie();
    assert TrieIsEmpty(trie);
    var nodeId := "02beefdead";
    trie.Put(nodeId, TrieValue(NET0, [false, true]));
    msg := MakeCfgMsg(trie, nodeId);
    assert msg == Ok(CfgObject(nodeId, NET0));
    ConfigMessageValid();
    trie.Clear();
    assert TrieIsEmpty(trie);
  }

  /** test_make_version_msg and test_parse_version_msg (lines 102-141); `buildVersion` stands for `__version__`. */
  method VersionMessages(buildVersion: string) returns (parsed: Result<VersionReply, ValidationError>, bare: Result<VersionReply, ValidationError>)
    ensures parsed == Ok(VersionReply("02beefdead", Some(buildVersion)))
    ensures bare == Ok(VersionReply("02beefdead", None))
  {
    var nodeId := "02beefdead";
    var res := MakeVersionMsg(nodeId, buildVersion);
    assert res == Object(map["node_id" := Str(nodeId), "version" := Str(buildVersion)]);
    res := MakeVersionMsg(nodeId, buildVersion, Some("0.9.4"));
    assert res.fields["version"] == Str("0.9.4");
    res := MakeVersionMsg(nodeId, buildVersion, Some(UPGRADE_REQUIRED));
    assert res.fields["version"] == Str("UPGRADE_REQUIRED");

    parsed := ParseVersionMsg(MakeVersionMsg(nodeId, buildVersion));
    bare := ParseVersionMsg(Text(nodeId));
  }

  /** Removal unfolds one entry at the tail. */
  lemma RemoveAllSnoc(s: seq<Entry>, y: Entry, x: Entry)
    ensures RemoveAll(s + [y], x) == RemoveAll(s, x) + (if y == x then [] else [y])
  {
    assert (s + [y])[..|s|] == s;
  }

  /** Filtering unfolds one entry at the tail. */
  lemma WithoutSnoc(s: seq<Entry>, y: Entry, gone: set<Entry>)
    ensures Without(s + [y], gone) == Without(s, gone) + (if y in gone then [] else [y])
  {
    assert (s + [y])[..|s|] == s;
  }

  /** A wait queue where every id has fewer than STALE_COPIES copies survives expiry whole. */
  lemma NoStaleIds(w: seq<Entry>)
    requires forall e :: e in w ==> multiset(w)[e] < STALE_COPIES
    ensures ExpireStale(w) == w
  {
    assert StaleIds(w, w) == {};
    WithoutNone(w);
  }

  /** First pass of test_manage_fpn_nodes: node1 is registered, so only node2 waits. */
  lemma RegisteredFirstPass(n1: Entry, n2: Entry)
    requires n1 != n2
    ensures Reconcile(ExpireStale([]), [n1, n2], [n1]) == [n2]
  {
    assert ExpireStale([]) == [];
    assert Reconcile([], [n1, n2], [n1]) == Reconcile(RemoveAll([], n1), [n2], [n1]) by {
      assert [n1, n2][1..] == [n2];
    }
    assert RemoveAll([], n1) == [];
    assert Reconcile([], [n2], [n1]) == Reconcile([n2], [], [n1]) by {
      assert n2 !in [n1];
      assert [] + [n2] == [n2];
    }
  }

  /** Second pass of test_manage_fpn_nodes: node2 registers and leaves wait_q. */
  lemma RegisteredSecondPass(n1: Entry, n2: Entry)
    ensures Reconcile(ExpireStale([n2]), [n2], [n1, n2]) == []
  {
    NoStaleIds([n2]);
    RemoveAllSnoc([], n2, n2);
    assert Reconcile([n2], [n2], [n1, n2]) == Reconcile(RemoveAll([n2], n2), [], [n1, n2]);
  }


  /** Three copies of one id make that id, and only it, stale. */
  lemma ThreeCopiesStale(n: Entry)
    ensures StaleIds([n, n, n], [n, n, n]) == {n}
  {
    var w := [n, n, n];
    assert multiset(w) == multiset{n, n, n};
    assert n in w;
    forall e | e in StaleIds(w, w) ensures e == n {
      assert e in w;
    }
  }

  lemma ThreeCopiesExpire(n: Entry)
    ensures ExpireStale([n, n, n]) == []
  {
    ThreeCopiesStale(n);
    assert Without([n], {n}) == [] by {
      WithoutSnoc([], n, {n});
      assert [] + [n] == [n];
    }
    assert Without([n, n], {n}) == [] by {
      WithoutSnoc([n], n, {n});
      assert [n] + [n] == [n, n];
    }
    WithoutSnoc([n, n], n, {n});
    assert [n, n] + [n] == [n, n, n];
    assert ExpireStale([n, n, n]) == Without([n, n, n], {n});
  }

  lemma LatePurge(n1: Entry, n2: Entry)
    requires n1 != n2
    ensures RemoveAll([n1, n2, n1, n2, n1], n2) == [n1, n1, n1]
  {
    PurgeSecondTwice(n1, n2);
    PurgeKeepsTail(n1, n2, [n1, n2] + [n1, n2]);
    assert [n1, n2] + [n1, n2] + [n1] == [n1, n2, n1, n2, n1];
  }

  lemma PurgeSecondTwice(n1: Entry, n2: Entry)
    requires n1 != n2
    ensures RemoveAll([n1, n2] + [n1, n2], n2) == [n1, n1]
  {
    PurgeSecond(n1, n2);
    RemoveAllAppend([n1, n2], [n1, n2], n2);
  }

  lemma PurgeKeepsTail(n1: Entry, n2: Entry, h: seq<Entry>)
    requires n1 != n2
    requires RemoveAll(h, n2) == [n1, n1]
    ensures RemoveAll(h + [n1], n2) == [n1, n1, n1]
  {
    RemoveAllAbsent([n1], n2);
    RemoveAllAppend(h, [n1], n2);
  }

  /** Purging the second of two different entries leaves the first. */
  lemma PurgeSecond(n1: Entry, n2: Entry)
    requires n1 != n2
    ensures RemoveAll([n1, n2], n2) == [n1]
  {
    RemoveAllAbsent([n1], n2);
    assert [n1, n2][..1] == [n1];
  }

  lemma LatePass(n1: Entry, n2: Entry)
    requires n1 != n2
    ensures Reconcile(ExpireStale([n1, n2, n1, n2]), [n1, n2], [n2]) == [n1, n1, n1]
  {
    assert ExpireStale([n1, n2, n1, n2]) == [n1, n2, n1, n2] by {
      TwoPairsNotStale(n1, n2);
    }
    LateReconcile(n1, n2, [n1, n2, n1, n2]);
  }

  /** Two copies of each id are below the expiry threshold. */
  lemma TwoPairsNotStale(n1: Entry, n2: Entry)
    requires n1 != n2
    ensures ExpireStale([n1, n2, n1, n2]) == [n1, n2, n1, n2]
  {
    var w := [n1, n2, n1, n2];
    assert multiset(w)[n1] == 2 && multiset(w)[n2] == 2;
    NoStaleIds(w);
  }

  /** The late pass: the unregistered id waits once more, the registered one is purged. */
  lemma LateReconcile(n1: Entry, n2: Entry, w: seq<Entry>)
    requires n1 != n2
    requires w == [n1, n2, n1, n2]
    ensures Reconcile(w, [n1, n2], [n2]) == [n1, n1, n1]
  {
    assert Reconcile(w, [n1, n2], [n2]) == Reconcile(w + [n1], [n2], [n2]) by {
      assert n1 !in [n2];
      assert [n1, n2][1..] == [n2];
    }
    assert Reconcile(w + [n1], [n2], [n2]) == RemoveAll(w + [n1], n2);
    assert RemoveAll(w + [n1], n2) == [n1, n1, n1] by {
      assert w + [n1] == [n1, n2, n1, n2, n1];
      LatePurge(n1, n2);
    }
  }



  lemma FirstPass(n1: Entry, n2: Entry)
    ensures Reconcile(ExpireStale([]), [n1, n2], []) == [n1, n2]
  {
    assert ExpireStale([]) == [];
    ReconcileUnregistered([], [n1, n2], []);
  }

  lemma SecondPass(n1: Entry, n2: Entry)
    requires n1 != n2
    ensures Reconcile(ExpireStale([n1, n2]), [n1, n2], []) == [n1, n2, n1, n2]
  {
    NoStaleIds([n1, n2]);
    ReconcileUnregistered([n1, n2], [n1, n2], []);
  }


  lemma ExpiryPass(n1: Entry, n2: Entry)
    ensures Reconcile(ExpireStale([n1, n1, n1]), [], [n2]) == []
  {
    ThreeCopiesExpire(n1);
  }

  /** QueueHandlingTest.test_clean_from_queue (lines 290-313). */
  method CleanAndLookup(node1: string, node2: string, node3: string)
    requires node1 != node2 && node1 != node3
  {
    var q := new Deque<Entry>();
    q.Append(Id(node1));
    q.Append(Id(node2));
    q.Append(Id(node3));
    q.Append(Id(node1));
    assert q.items == [Id(node1), Id(node2), Id(node3), Id(node1)];
    CleanFromQueue(Id(node1), q);
    assert Id(node1) !in q.items;
    assert q.items == [Id(node2), Id(node3)] by {
      var a, b, c := Id(node1), Id(node2), Id(node3);
      RemoveAllSnoc([], a, a);
      RemoveAllSnoc([a], b, a);
      RemoveAllSnoc([a, b], c, a);
      RemoveAllSnoc([a, b, c], a, a);
    }
    LookupAndCleanKeyed(q, node1, node2, node3);
  }

  /** Looking node1 up behind two other ids finds its first keyed entry. */
  lemma FirstKeyedMatch(node1: string, node2: string, node3: string)
    requires node1 != node2 && node1 != node3
    ensures var dict1, dict2 := Keyed(node1, "127.0.0.1"), Keyed(node2, "127.0.0.1");
      LookupNodeId(node1, [Id(node2), Id(node3), dict1, dict2, dict1, dict2]) == Some(dict1)
  {
    var dict1, dict2 := Keyed(node1, "127.0.0.1"), Keyed(node2, "127.0.0.1");
    var full := [Id(node2), Id(node3), dict1, dict2, dict1, dict2];
    var tail := full[1..];
    assert LookupNodeId(node1, full) == LookupNodeId(node1, tail);
    assert LookupNodeId(node1, tail) == LookupNodeId(node1, tail[1..]);
    assert tail[1..][0] == dict1;
  }

  /** Purging the first of two different entries leaves the second. */
  lemma PurgePair(dict1: Entry, dict2: Entry)
    requires dict1 != dict2
    ensures RemoveAll([dict1, dict2], dict1) == [dict2]
  {
    RemoveAllSnoc([], dict1, dict1);
    RemoveAllSnoc([dict1], dict2, dict1);
  }

  /** Purging node1's keyed entry keeps every other entry in order. */
  lemma KeyedPurge(dict1: Entry, dict2: Entry, id2: Entry, id3: Entry)
    requires dict1 != dict2 && dict1 != id2 && dict1 != id3
    ensures RemoveAll([id2, id3, dict1, dict2, dict1, dict2], dict1) == [id2, id3, dict2, dict2]
  {
    var ids, pair := [id2, id3], [dict1, dict2];
    var half := ids + pair;
    PurgePair(dict1, dict2);
    assert RemoveAll(half, dict1) == ids + [dict2] by {
      RemoveAllAbsent(ids, dict1);
      RemoveAllAppend(ids, pair, dict1);
    }
    RemoveAllAppend(half, pair, dict1);
    assert half + pair == [id2, id3, dict1, dict2, dict1, dict2];
  }

  /** After the purge no entry left behind matches node1. */
  lemma PurgedLookupMisses(node1: string, node2: string, node3: string)
    requires node1 != node2 && node1 != node3
    ensures var dict2 := Keyed(node2, "127.0.0.1");
      LookupNodeId(node1, [Id(node2), Id(node3), dict2, dict2]) == None
  {
    var dict2 := Keyed(node2, "127.0.0.1");
    var rest := [Id(node2), Id(node3), dict2, dict2];
    assert forall e :: e in rest ==> !Matches(e, node1);
  }

  /** The second half of test_clean_from_queue: keyed entries, looked up and purged. */
  method LookupAndCleanKeyed(q: Deque<Entry>, node1: string, node2: string, node3: string)
    requires node1 != node2 && node1 != node3
    requires q.items == [Id(node2), Id(node3)]
    modifies q
  {
    var dict1, dict2 := Keyed(node1, "127.0.0.1"), Keyed(node2, "127.0.0.1");
    q.Append(dict1);
    q.Append(dict2);
    q.Append(dict1);
    q.Append(dict2);
    var full := [Id(node2), Id(node3), dict1, dict2, dict1, dict2];
    assert q.items == full;
    var res := LookupNodeId(node1, q.items);
    assert res == Some(dict1) by {
      FirstKeyedMatch(node1, node2, node3);
    }
    CleanFromQueue(dict1, q);
    assert q.items == [Id(node2), Id(node3), dict2, dict2] by {
      KeyedPurge(dict1, dict2, Id(node2), Id(node3));
    }
    res := LookupNodeId(node1, q.items);
    assert res == None by {
      PurgedLookupMisses(node1, node2, node3);
    }
    assert dict1 !in q.items;
    assert dict2 in q.items;
  }

  /** QueueHandlingTest.test_handle_node_queues (lines 315-325). */
  method DrainNodeQueue() returns (drained: seq<Entry>, waiting: seq<Entry>)
    ensures drained == [] && waiting == [Id("deadbeef01"), Id("20beefdead")]
  {
    var node1, node2 := "deadbeef01", "20beefdead";
    var nodeQ := new Deque<Entry>();
    var waitQ := new Deque<Entry>();
    nodeQ.Append(Id(node1));
    nodeQ.Append(Id(node2));
    HandleNodeQueues(nodeQ, waitQ);
    drained, waiting := nodeQ.items, waitQ.items;
  }

  /** One manage_incoming_nodes call whose outcome on wait_q has been worked out beforehand. */
  method ManagePass(nodeQ: Deque<Entry>, regQ: Deque<Entry>, waitQ: Deque<Entry>,
                    nodes: seq<Entry>, reg: seq<Entry>, w: seq<Entry>, expected: seq<Entry>)
    requires nodeQ != regQ && nodeQ != waitQ && regQ != waitQ
    requires nodeQ.items == nodes && regQ.items == reg && waitQ.items == w
    requires Reconcile(ExpireStale(w), nodes, reg) == expected
    modifies nodeQ, waitQ
    ensures nodeQ.items == [] && regQ.items == reg && waitQ.items == expected
  {
    ManageIncomingNodes(nodeQ, regQ, waitQ);
  }

  /** QueueHandlingTest.test_manage_fpn_nodes (lines 327-350). */
  method ManageRegisteredNodes(n1: Entry, n2: Entry)
    requires n1 != n2
  {
    var nodeQ := new Deque<Entry>();
    var regQ := new Deque<Entry>();
    var waitQ := new Deque<Entry>();
    nodeQ.Append(n1);
    nodeQ.Append(n2);
    regQ.Append(n1);
    assert Reconcile(ExpireStale([]), [n1, n2], [n1]) == [n2] by {
      RegisteredFirstPass(n1, n2);
    }
    ManagePass(nodeQ, regQ, waitQ, [n1, n2], [n1], [], [n2]);
    assert waitQ.items == [n2];

    nodeQ.Append(n2);
    regQ.Append(n2);
    assert Reconcile(ExpireStale([n2]), [n2], [n1, n2]) == [] by {
      RegisteredSecondPass(n1, n2);
    }
    ManagePass(nodeQ, regQ, waitQ, [n2], [n1, n2], [n2], []);
    assert nodeQ.items == [] && regQ.items == [n1, n2];
    assert waitQ.items == [];
  }

  /** QueueHandlingTest.test_manage_other_nodes (lines 352-394). */
  method ManageUnregisteredNodes(n1: Entry, n2: Entry)
    requires n1 != n2
  {
    var nodeQ := new Deque<Entry>();
    var regQ := new Deque<Entry>();
    var waitQ := new Deque<Entry>();
    nodeQ.Append(n1);
    nodeQ.Append(n2);
    assert Reconcile(ExpireStale([]), [n1, n2], []) == [n1, n2] by {
      FirstPass(n1, n2);
    }
    ManagePass(nodeQ, regQ, waitQ, [n1, n2], [], [], [n1, n2]);
    assert nodeQ.items == [] && regQ.items == [];
    assert waitQ.items == [n1, n2];

    // unregistered nodes are still peers
    nodeQ.Append(n1);
    nodeQ.Append(n2);
    assert Reconcile(ExpireStale([n1, n2]), [n1, n2], []) == [n1, n2, n1, n2] by {
      SecondPass(n1, n2);
    }
    ManagePass(nodeQ, regQ, waitQ, [n1, n2], [], [n1, n2], [n1, n2, n1, n2]);
    assert waitQ.items == [n1, n2, n1, n2];
    LateRegistrationAndExpiry(nodeQ, regQ, waitQ, n1, n2);
  }

  /** The last two passes of test_manage_other_nodes: a late registration, then an expiry. */
  method LateRegistrationAndExpiry(nodeQ: Deque<Entry>, regQ: Deque<Entry>, waitQ: Deque<Entry>, n1: Entry, n2: Entry)
    requires nodeQ != regQ && nodeQ != waitQ && regQ != waitQ
    requires n1 != n2
    requires nodeQ.items == [] && regQ.items == [] && waitQ.items == [n1, n2, n1, n2]
    modifies nodeQ, regQ, waitQ
  {
    // node1 still not seen yet, late register from node2
    nodeQ.Append(n1);
    nodeQ.Append(n2);
    regQ.Append(n2);
    assert Reconcile(ExpireStale([n1, n2, n1, n2]), [n1, n2], [n2]) == [n1, n1, n1] by {
      LatePass(n1, n2);
    }
    ManagePass(nodeQ, regQ, waitQ, [n1, n2], [n2], [n1, n2, n1, n2], [n1, n1, n1]);
    assert waitQ.items == [n1, n1, n1];

    // node2 registered and node1 expired
    assert Reconcile(ExpireStale([n1, n1, n1]), [], [n2]) == [] by {
      ExpiryPass(n1, n2);
    }
    ManagePass(nodeQ, regQ, waitQ, [], [n2], [n1, n1, n1], []);
    assert nodeQ.items == [] && regQ.items == [n2];
    assert waitQ.items == [];
  }

  /** QueueMsgHandlingTest.test_handle_msgs (lines 419-443). */
  method AnnounceRegisters(node1: string, node2: string, node3: string)
    requires node1 != node2 && node1 != node3 && node2 != node3
  {
    var nodeQ := new Deque<Entry>();
    var regQ := new Deque<Entry>();
    var waitQ := new Deque<Entry>();
    nodeQ.Append(Id(node1));
    nodeQ.Append(Id(node2));
    nodeQ.Append(Id(node3));
    waitQ.Append(Id(node3));
    AnnounceAll(nodeQ, regQ, waitQ, node1, node2, node3);
  }

  /** The three announces of test_handle_msgs, on queues already filled. */
  method AnnounceAll(nodeQ: Deque<Entry>, regQ: Deque<Entry>, waitQ: Deque<Entry>, node1: string, node2: string, node3: string)
    requires nodeQ != regQ && regQ != waitQ
    requires nodeQ.items == [Id(node1), Id(node2), Id(node3)]
    requires regQ.items == [] && waitQ.items == [Id(node3)]
    modifies regQ
  {
    var r := HandleAnnounceMsg(nodeQ, regQ, waitQ, node1);
    assert r == Pass && regQ.items == [Id(node1)];
    r := HandleAnnounceMsg(nodeQ, regQ, waitQ, node2);
    assert r == Pass && regQ.items == [Id(node1), Id(node2)];
    r := HandleAnnounceMsg(nodeQ, regQ, waitQ, node3);
    assert r == Pass && Id(node3) in regQ.items;
    assert nodeQ.items == [Id(node1), Id(node2), Id(node3)];
    assert waitQ.items == [Id(node3)];
  }

  /** The two sweeps of test_find_dangling_nets, on the trie contents each one sees. */
  lemma DanglingSweeps(id1: string, id2: string, netId1: string, netId2: string)
    requires id1 != netId1 && id1 != netId2 && netId1 != netId2
    ensures var before := map[id1 := TrieValue([netId1], [false, false]), netId2 := TrieValue([id1, id2], [false, false])];
      && DanglingPairs([id1, netId2], before) == Ok([])
      && DanglingPairs([id1, netId2, netId1], before[netId1 := TrieValue([id1], [false, true])]) == Ok([netId1, id1])
  {
    var before := map[id1 := TrieValue([netId1], [false, false]), netId2 := TrieValue([id1, id2], [false, false])];
    var after := before[netId1 := TrieValue([id1], [false, true])];
    NoDanglingNoPairs([id1, netId2], before);
    OneDanglingPair([id1, netId2, netId1], after, netId1);
  }

  /** TrieHandlingTest.test_find_dangling_nets (lines 475-483). */
  method DanglingNets(id1: string, id2: string, netId1: string, netId2: string)
    requires id1 != netId1 && id1 != netId2 && netId1 != netId2
  {
    var trie := new IdTrie();
    var r := UpdateIdTrie(trie, [netId1], [id1], [false, false]);
    assert trie.entries == map[id1 := TrieValue([netId1], [false, false])];
    assert trie.order == [id1];
    EarlyDanglingNet(trie, id1, id2, netId1, netId2);
  }

  /** The first sweep of test_find_dangling_nets: nothing dangles yet. */
  method EarlyDanglingNet(trie: IdTrie, id1: string, id2: string, netId1: string, netId2: string)
    requires id1 != netId1 && id1 != netId2 && netId1 != netId2
    requires trie.Valid() && trie.order == [id1]
    requires trie.entries == map[id1 := TrieValue([netId1], [false, false])]
    modifies trie
  {
    var r := UpdateIdTrie(trie, [netId2], [id1, id2], [false, false], nw := true);
    assert trie.entries == map[id1 := TrieValue([netId1], [false, false]), netId2 := TrieValue([id1, id2], [false, false])];
    assert trie.order == [id1, netId2];
    var res := FindDanglingNets(trie);
    assert res == Ok([]) by {
      DanglingSweeps(id1, id2, netId1, netId2);
    }
    LateDanglingNet(trie, id1, id2, netId1, netId2);
  }

  /** The second half of test_find_dangling_nets: a network that needs a peer shows up in the sweep. */
  method LateDanglingNet(trie: IdTrie, id1: string, id2: string, netId1: string, netId2: string)
    requires id1 != netId1 && id1 != netId2 && netId1 != netId2
    requires trie.Valid() && trie.order == [id1, netId2]
    requires trie.entries == map[id1 := TrieValue([netId1], [false, false]), netId2 := TrieValue([id1, id2], [false, false])]
    modifies trie
  {
    var r := UpdateIdTrie(trie, [netId1], [id1], [false, true], nw := true);
    assert trie.order == [id1, netId2, netId1];
    var res := FindDanglingNets(trie);
    assert res == Ok([netId1, id1]) by {
      DanglingSweeps(id1, id2, netId1, netId2);
    }
  }

  /**
   * TrieHandlingTest.test_update_id_trie_net, _node and _none (lines 485-505).
   * The list handed over as `node2` is taken here as the flat peer list.
   */
  method UpdateTrie() returns (netValue: TrieValue, nodeValue: TrieValue, r: Outcome<TrieError>)
    ensures netValue == TrieValue(["beef02dead"], [])
    ensures nodeValue == TrieValue(["7ac4235ec5d3d938", "7ac4235ec5d3d947"], [])
    ensures r == Fail(BadNeeds(1))
  {
    var node1, node2 := ["beef01dead"], ["beef02dead"];
    var net1 := ["7ac4235ec5d3d938"];
    var nets := ["7ac4235ec5d3d938", "7ac4235ec5d3d947"];
    var trie := new IdTrie();
    r := UpdateIdTrie(trie, net1, node2, nw := true);
    netValue := trie.entries[net1[0]];

    r := UpdateIdTrie(trie, nets, node1);
    nodeValue := trie.entries[node1[0]];

    r := UpdateIdTrie(trie, net1, node1, needs := [true]);
  }

  /** WaitForMsgHandlingTest.test_wait_for_cfg (lines 544-551). */
  method WaitMatchesHead() returns (res: Option<Wire>, pending: seq<Wire>)
    ensures res == Some(CfgObject("beef01dead", ["7ac4235ec5d3d938", "bb8dead3c63cea29"]))
    ensures CfgObject("beef01dead", ["7ac4235ec5d3d938", "bb8dead3c63cea29"]) !in pending
    ensures |CfgNetworks(res.value).value| == 2
  {
    var cfg1 := CfgObject("beef01dead", ["7ac4235ec5d3d938", "bb8dead3c63cea29"]);
    var cfg2 := CfgObject("02beefdead", ["7ac4235ec5d3d938"]);
    var cfgQ := new Deque<Wire>();
    var holdQ := new Deque<Wire>();
    var regQ := new Deque<Entry>();
    cfgQ.Append(cfg1);
    cfgQ.Append(cfg2);
    res := WaitForCfgMsg(cfgQ, holdQ, regQ, "beef01dead");
    assert CfgNodeId(cfg1) == Some("beef01dead");
    assert cfg1 != cfg2;
    pending := cfgQ.items;
  }

  /** WaitForMsgHandlingTest.test_wait_for_cfg_none (lines 553-574). */
  method WaitLadder(node1: string, node2: string, node3: string, net1: string, net2: string)
    returns (miss: Option<Wire>, hit: Option<Wire>, hold: seq<Wire>, reg: seq<Entry>)
    requires node1 != node3 && node2 != node3
    ensures miss == None && hit == Some(CfgObject(node2, [net1]))
    ensures hold == [Marker(node3)] && reg == [Id(node3)]
  {
    var cfg1 := CfgObject(node1, [net1, net2]);
    var cfg2 := CfgObject(node2, [net1]);
    var cfgQ := new Deque<Wire>();
    var holdQ := new Deque<Wire>();
    var regQ := new Deque<Entry>();
    cfgQ.Append(cfg1);
    cfgQ.Append(cfg2);

    miss := WaitForCfgMsg(cfgQ, holdQ, regQ, node3);
    assert miss == None;
    assert cfg2 in cfgQ.items;
    assert holdQ.items == [cfg1, Marker(node3)];

    hit := WaitForCfgMsg(cfgQ, holdQ, regQ, node2);
    assert hit == Some(cfg2) && cfgQ.items == [];
    assert |CfgNetworks(hit.value).value| == 1;
    WaitLadderDry(cfgQ, holdQ, regQ, cfg1, node3);
    hold, reg := holdQ.items, regQ.items;
  }

  /** The dry calls of test_wait_for_cfg_none: two more misses register the node and requeue the held config. */
  method WaitLadderDry(cfgQ: Deque<Wire>, holdQ: Deque<Wire>, regQ: Deque<Entry>, cfg1: Wire, node3: string)
    requires cfgQ != holdQ
    requires cfg1.Object?
    requires cfgQ.items == [] && holdQ.items == [cfg1, Marker(node3)] && regQ.items == []
    modifies cfgQ, holdQ, regQ
    ensures holdQ.items == [Marker(node3)] && regQ.items == [Id(node3)]
  {
    assert Misses(holdQ.items, node3) == 1;
    var res := WaitForCfgMsg(cfgQ, holdQ, regQ, node3);
    assert res == None;
    assert holdQ.items == [cfg1] + [Marker(node3), Marker(node3)];
    WaitLadderRegisters(cfgQ, holdQ, regQ, cfg1, node3);
  }

  /** The third miss in a row registers the node and requeues the held config. */
  lemma ThirdMiss(cfg1: Wire, node3: string)
    requires cfg1.Object?
    ensures WaitStep(CfgState([], [cfg1] + [Marker(node3), Marker(node3)], []), node3)
            == WaitResult(None, CfgState([cfg1], [], [Id(node3)]))
  {
    var held := [cfg1] + [Marker(node3), Marker(node3)];
    assert Misses(held, node3) == 2 by {
      TwoMarkers(cfg1, node3);
    }
    assert Configs(held) == [cfg1] by {
      HeldConfigs(cfg1, Marker(node3));
    }
  }

  /** A config followed by two miss markers counts two misses. */
  lemma TwoMarkers(cfg1: Wire, node3: string)
    requires cfg1.Object?
    ensures Misses([cfg1] + [Marker(node3), Marker(node3)], node3) == 2
  {
    assert multiset([cfg1] + [Marker(node3), Marker(node3)]) == multiset{cfg1, Marker(node3), Marker(node3)};
    assert cfg1 != Marker(node3);
  }

  /** A config followed by two miss markers holds just that config. */
  lemma HeldConfigs(cfg1: Wire, m: Wire)
    requires cfg1.Object? && !m.Object?
    ensures Configs([cfg1] + [m, m]) == [cfg1]
  {
    assert Configs([m]) == [] by {
      assert [m][1..] == [];
    }
    assert Configs([m, m]) == [] by {
      assert [m, m][1..] == [m];
    }
    ConfigsAppend([cfg1], [m, m]);
    assert Configs([cfg1]) == [cfg1] by {
      assert [cfg1][1..] == [];
    }
  }


  /** The third miss of test_wait_for_cfg_none registers the node; a later miss starts a new count. */
  method WaitLadderRegisters(cfgQ: Deque<Wire>, holdQ: Deque<Wire>, regQ: Deque<Entry>, cfg1: Wire, node3: string)
    requires cfgQ != holdQ
    requires cfg1.Object?
    requires cfgQ.items == [] && holdQ.items == [cfg1] + [Marker(node3), Marker(node3)] && regQ.items == []
    modifies cfgQ, holdQ, regQ
    ensures holdQ.items == [Marker(node3)] && regQ.items == [Id(node3)]
  {
    var res := WaitForCfgMsg(cfgQ, holdQ, regQ, node3);
    assert res == None && cfgQ.items == [cfg1] && holdQ.items == [] && regQ.items == [Id(node3)] by {
      ThirdMiss(cfg1, node3);
    }

    cfgQ.Clear();
    res := WaitForCfgMsg(cfgQ, holdQ, regQ, node3);
    assert res == None;
    assert holdQ.items == [Marker(node3)];
  }


}
