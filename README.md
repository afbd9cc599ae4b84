# fpnd membership core, modelled in Dafny

fpnd is a peer-to-peer overlay network. Its controller admits nodes through a
small set of queues and a membership trie. This project models that
membership logic as its test suite (`test/test_node_msgs.py`) pins it down:

- the three wire messages and their checks:
  - the announce id (`valid_announce_msg`)
  - the config message (`valid_cfg_msg`, `make_cfg_msg`)
  - the version message (`make_version_msg`, `parse_version_msg`, `valid_version`)
- the queue handlers over persistent double-ended queues:
  - `clean_from_queue`, `lookup_node_id` and `handle_node_queues`
  - `manage_incoming_nodes` and `handle_announce_msg`
  - `wait_for_cfg_msg`
- the id trie: `update_id_trie`, `find_dangling_nets` and `trie_is_empty`.

The implementation modules, `node_tools/msg_queues.py` and
`node_tools/trie_funcs.py`, are not part of this model. Each operation does
what the test assertions fix. Where the tests leave a choice open, the choice
is named below.

Layout, one module per component:

| file | module | what |
|---|---|---|
| Wrappers.dfy | Wrappers | `Option`, `Result`, and `Outcome` (pass, or fail with an error) |
| Queues.dfy | Queues | queue entries, the `Deque` class, `clean_from_queue`, `lookup_node_id`, `handle_node_queues` |
| Trie.dfy | Trie | the `IdTrie` class, `update_id_trie`, `find_dangling_nets`, `trie_is_empty` |
| Messages.dfy | Messages | the announce, config and version messages |
| Versions.dfy | Versions | dotted version strings and `valid_version` |
| Registration.dfy | Registration | `manage_incoming_nodes` and `handle_announce_msg` |
| ConfigWait.dfy | ConfigWait | `wait_for_cfg_msg` and its retry ladder |
| Scenarios.dfy | Scenarios | each test function replayed against the model |

How the model represents things:

- **Queues.** Each queue (`node_q`, `reg_q`, `wait_q`, `cfg_q`, `hold_q`) is a
  `Deque` object, a class whose `items` sequence the handlers change in place
  with append, pop-left and clear. The handlers take the queues as arguments,
  as the originals do. Every handler method is proved against a
  specification function:
  - `RemoveAll` for `CleanFromQueue`
  - `ExpireStale` and `Reconcile` for `ManageIncomingNodes`
  - `WaitStep` for `WaitForCfgMsg`
  - `DanglingPairs` for `FindDanglingNets`
- **Entries.** A queue entry is a bare id or a one-key record `{id: address}`.
- **Messages.** A message on `cfg_q` or `hold_q` is either bare text (a node
  id, which serves as a miss marker) or a decoded JSON object. JSON text
  itself is not modelled.
- **Trie.** The trie is an `IdTrie` object: a map plus the order in which keys
  were first stored. The dangling sweep visits keys in that order. This is an
  assumption of the model: the original id trie is a character trie over
  `string.hexdigits` (test line 83), and its own key order is not modelled
  (see "## Left out").

Choices the tests leave open, and how the model settles them:

- **`update_id_trie` default for `needs`.** Test lines 492 and 501 store `[]`
  when `needs` is omitted, and the model does the same.
  - `needs` is accepted when it is empty or a pair; line 505 refuses a
    one-element `needs`.
  - An empty key list is an error (`EmptyKeyList`): there is no first element
    to use as the key. The tests do not reach this input.
- **Dangling entries.** An entry is dangling when it has a pair of flags and
  the second is set. A dangling entry with no peer is an error (`NoPeer`).
- **Id alphabet.** Ids are hex digits in either case, following the
  `string.hexdigits` note at test line 83.
- **Expiry in `manage_incoming_nodes`.** The rule is inferred, because the
  tests fix only its outcome. Before `node_q` is drained, every id with three
  or more copies in `wait_q` is dropped. This is the simplest rule that
  agrees with all four passes of lines 352-394.
- **Versions.** A version is three dot-separated decimal numerals. Anything
  else, including a malformed base version, makes `valid_version` false.
- **Unannounced ids.** `handle_announce_msg` refuses an id that is not in
  `node_q` (`NotAnnounced`). It does not check the id's format.
- **Malformed version messages.** The tests do not fix what
  `parse_version_msg` does with a JSON object that lacks `node_id` or
  `version`. The model returns an error value for it.
- **Malformed config entries.** `wait_for_cfg_msg` treats a `cfg_q` entry
  without a string `node_id` as a message for some other node: it is held
  back.

## Model

| member | source | states |
|---|---|---|
| Queues.RemoveAllCounts | test/test_node_msgs.py:290-297 | purging `x` leaves no copy of `x` and keeps every other entry with its multiplicity |
| Queues.RemoveAllAppend | test/test_node_msgs.py:308-313 | purging commutes with concatenation, so the survivors keep their relative order |
| Queues.CleanFromQueue | test/test_node_msgs.py:290-313 | afterwards the deque holds exactly the old entries other than `x`, in order (the model's loop gets there by rotating the deque once) |
| Queues.LookupNodeId | test/test_node_msgs.py:306-311 | the result is None exactly when no entry answers to the id; otherwise it is the first entry that does |
| Queues.HandleNodeQueues | test/test_node_msgs.py:315-325 | node_q ends empty and wait_q gains node_q's old entries at its tail, in order |
| Messages.ValidAnnounceMsg | test/test_node_msgs.py:30-39 | an announce passes exactly when it is ten hex characters; a failure names the wrong length or the first non-hex position |
| Messages.CheckHexId | test/test_node_msgs.py:30-54 | an id passes exactly at the given length with only hex characters; the wrong length is reported as such, and otherwise the reported position is the first non-hex character |
| Messages.ValidCfgMsg | test/test_node_msgs.py:42-59 | bare text is refused as not an object, and a passing message has a string node_id and a list of networks |
| Messages.ValidCfgMsgAccepts | test/test_node_msgs.py:42-59 | valid_cfg_msg accepts exactly the objects `{node_id, networks}` with a node id and a non-empty list of network ids, and nothing else |
| Messages.MakeCfgMsg | test/test_node_msgs.py:88-96 | for a stored node, the message carries that node id and the node's peer list as networks; an absent node is an UnknownKey error |
| Messages.MakeCfgMsgIsValid | test/test_node_msgs.py:94-97 | what make_cfg_msg builds from a well-formed node id and network list passes valid_cfg_msg |
| Messages.MakeVersionMsg | test/test_node_msgs.py:102-120 | the message parses back to the node id and the given version (UPGRADE_REQUIRED included), or the build version when none is given |
| Messages.ParseVersionMsg | test/test_node_msgs.py:123-141 | bare text parses to that text as node id with no version, and only bare text gives no version |
| Versions.ParseFormatVersion | test/test_node_msgs.py:72-79 | reading back a formatted version gives the same version |
| Versions.ValidVersion | test/test_node_msgs.py:62-69 | an absent candidate is refused, and an accepted candidate is a well-formed three-part version |
| Versions.ValidVersionIsOrder | test/test_node_msgs.py:72-79 | on well-formed versions, valid_version holds exactly when the candidate is not older than the base |
| Versions.ValidVersionMonotone | test/test_node_msgs.py:72-79 | a version is accepted against itself; of two different versions, the newer is accepted against the older and the older is refused against the newer |
| Versions.UpgradeRequiredIsNotAVersion | test/test_node_msgs.py:117-120 | the UPGRADE_REQUIRED reply is never an acceptable version |
| Trie.IdTrie.Put | test/test_node_msgs.py:91 | storing a key updates the map; a new key goes to the end of the key order and an old one keeps its place |
| Trie.IdTrie.Clear | test/test_node_msgs.py:98-99 | the trie ends with no entries and no keys |
| Trie.UpdateIdTrie | test/test_node_msgs.py:485-505 | needs that is neither empty nor a pair is refused with the trie unchanged; otherwise the first node id (or, with nw, the first network id) is stored with the other list and needs, and the key order is kept |
| Trie.TrieIsEmpty | test/test_node_msgs.py:86-99 | the trie is empty exactly when no key is stored |
| Trie.FindDanglingNets | test/test_node_msgs.py:475-483 | the sweep over the keys in order returns the dangling-pair specification of the trie |
| Trie.NoDanglingNoPairs | test/test_node_msgs.py:476-479 | with no dangling entry, the sweep returns the empty list |
| Trie.DanglingPairsSound | test/test_node_msgs.py:480-483 | a successful sweep is a flat list of pairs; each pair is a swept dangling key followed by its first peer |
| Trie.DanglingPairsComplete | test/test_node_msgs.py:480-483 | every dangling key heads some pair of a successful sweep |
| Trie.OneDanglingPair | test/test_node_msgs.py:480-483 | with exactly one dangling key among distinct keys, the sweep is exactly that key and its first peer |
| Registration.ExpireStaleCounts | test/test_node_msgs.py:390-394 | expiry removes every copy of an id with three or more copies and keeps every copy of any other id |
| Registration.ExpireWaiting | test/test_node_msgs.py:386-394 | the in-place expiry pass leaves wait_q equal to the expiry specification of its old contents |
| Registration.ReconcileCounts | test/test_node_msgs.py:327-350 | after a pass, a registered id that arrived has no waiting copy, a registered id that did not arrive keeps its copies, and an unregistered id gains one copy per arrival |
| Registration.ReconcileUnregistered | test/test_node_msgs.py:361-376 | when no arriving id is registered, the pass appends node_q to wait_q unchanged |
| Registration.ManageIncomingCounts | test/test_node_msgs.py:327-394 | per id, one manage_incoming_nodes call first expires stale copies and then purges registered arrivals or queues unregistered ones |
| Registration.ManageIncomingNodes | test/test_node_msgs.py:327-394 | node_q ends empty, reg_q is not modified, and wait_q becomes the expired old wait_q reconciled with the old node_q |
| Registration.HandleAnnounceMsg | test/test_node_msgs.py:419-443 | an id present in node_q is appended to reg_q (repeats allowed); any other id is refused with NotAnnounced and reg_q unchanged; node_q and wait_q are never modified |
| ConfigWait.WaitForCfgMsg | test/test_node_msgs.py:544-574 | one call on the three queues produces the reply and queues of the one-step protocol function |
| ConfigWait.RequeueHeld | test/test_node_msgs.py:565-569 | the flush puts every held config message back at the tail of cfg_q in held order and empties hold_q |
| ConfigWait.WaitStepReply | test/test_node_msgs.py:544-561 | a config message is returned exactly when cfg_q's head names the node; it is that head, and only cfg_q loses it |
| ConfigWait.HoldBackKeepsConfigs | test/test_node_msgs.py:555-557 | holding back a popped message with a miss marker holds back exactly that message's config, if it is one |
| ConfigWait.ConfigsNeverDropped | test/test_node_msgs.py:553-569 | no config message is ever lost: each is still pending, held, or the one returned |
| ConfigWait.RegistersOnlyAtThreshold | test/test_node_msgs.py:562-569 | reg_q changes exactly when a dry call finds the node at two misses; it then gains the node and hold_q empties |
| ConfigWait.MissesAccumulate | test/test_node_msgs.py:555-564 | each unanswered call that does not register the node adds a miss for it |
| ConfigWait.DryWaitRegisters | test/test_node_msgs.py:562-574 | with nothing pending, a node that keeps asking is registered after at most three calls (fewer if it already has misses) and not before |
| Scenarios.AnnounceMessagesInvalid | test/test_node_msgs.py:30-34 | the non-hex, nine-character and eleven-character announces are refused |
| Scenarios.AnnounceMessageValid | test/test_node_msgs.py:37-39 | the ten-hex announce is accepted |
| Scenarios.ConfigMessagesBadKeys | test/test_node_msgs.py:44-48 | the messages missing networks or with a misnamed key are refused |
| Scenarios.ConfigMessageLongId | test/test_node_msgs.py:47 | an eleven-character node id is refused |
| Scenarios.ConfigMessageBadHex | test/test_node_msgs.py:49 | a node id with a non-hex character is refused |
| Scenarios.ConfigMessageValid | test/test_node_msgs.py:57-59 | the well-formed config message is accepted |
| Scenarios.VersionChecksInvalid | test/test_node_msgs.py:62-69 | no version, "1.0" and "1.1.b" are refused against 0.9.5 |
| Scenarios.VersionChecksValid | test/test_node_msgs.py:72-79 | 0.9.6 and 0.9.5 are accepted against 0.9.5, and 0.9.4 is refused |
| Scenarios.FirstKeyedMatch | test/test_node_msgs.py:300-307 | behind two bare ids, the lookup finds node1's first keyed entry |
| Scenarios.KeyedPurge | test/test_node_msgs.py:308-313 | purging node1's keyed entry keeps the bare ids and both copies of node2's entry, in order |
| Scenarios.PurgedLookupMisses | test/test_node_msgs.py:310-311 | after the purge the lookup of node1 finds nothing |
| Scenarios.RegisteredFirstPass | test/test_node_msgs.py:335-341 | with node1 registered, the first pass leaves only node2 waiting |
| Scenarios.RegisteredSecondPass | test/test_node_msgs.py:343-350 | once node2 registers, the second pass empties wait_q |
| Scenarios.FirstPass | test/test_node_msgs.py:354-364 | with nothing registered, both ids wait |
| Scenarios.SecondPass | test/test_node_msgs.py:366-376 | unregistered ids arriving again gain a second waiting copy each |
| Scenarios.LatePass | test/test_node_msgs.py:378-388 | node2's late registration purges its copies while node1 gains a third |
| Scenarios.ExpiryPass | test/test_node_msgs.py:390-394 | three waiting copies of node1 expire on the next pass |
| Scenarios.DanglingSweeps | test/test_node_msgs.py:475-483 | the first sweep finds nothing; after net1 is re-keyed with its second flag set, the sweep is exactly [net1, node1] |
| Scenarios.MakeConfigMessage | test/test_node_msgs.py:82-99 | a node stored with one network gives the config message `{node_id, networks}`, which passes valid_cfg_msg; the trie is empty before and after |
| Scenarios.VersionMessages | test/test_node_msgs.py:102-141 | the default version message parses to the node id and the build version; a bare id parses to that id with no version |
| Scenarios.DrainNodeQueue | test/test_node_msgs.py:315-325 | after handle_node_queues, node_q is empty and wait_q is [node1, node2] |
| Scenarios.UpdateTrie | test/test_node_msgs.py:485-505 | with nw, net1 maps to (node2, []); without, node1 maps to (nets, []); a one-element needs is refused |
| Scenarios.WaitMatchesHead | test/test_node_msgs.py:544-551 | node1's call returns cfg1, which leaves cfg_q and carries two networks |
| Scenarios.WaitLadder | test/test_node_msgs.py:553-574 | node3's first call misses, node2's returns cfg2, and after the dry calls and the clear, hold_q is [node3] and reg_q is [node3] |
| Scenarios.ThirdMiss | test/test_node_msgs.py:565-569 | a dry call at two misses requeues the held config, empties hold_q and registers the node |

## Left out

- Publish/subscribe transport is not modelled: `Subscriber`, `Publisher`, `drain_msg_queue`, `publish_cfg_msg` and their callbacks (test lines 171-265). They are socket I/O.
- Durability of the persistent deques and their on-disk directories is not modelled. Each queue is an in-memory sequence.
- JSON text is not modelled. Messages are the decoded records (`Wire`), so the JSON encoding and decoding of the original are not part of the model.
- The module-global `ctlr_data.id_trie` becomes an explicit `IdTrie` argument.
- `check_return_status` is not modelled. It belongs to the scheduler, and the tests call it once, at line 353, on an empty `node_q`, expecting False.
- `process_hold_queue` is not modelled. The tests import it and never call it.
- The build version `__version__` is the parameter `buildVersion`.
- The calls at test lines 506-507 are not modelled, because line 505 raises first and they never run.
- Aliasing is not modelled. The handlers require their queues to be distinct objects, although the Python functions would also run on one deque passed twice.
- Trie.UpdateIdTrie: test line 486 passes a list containing `node2`, itself a list. The model takes the flat peer list (`node2`), since the test reads back what it stored and a nested value is not expressible in the model's types.
- Scenarios.AnnounceRegisters, Scenarios.CleanAndLookup, Scenarios.ManageRegisteredNodes, Scenarios.ManageUnregisteredNodes, Scenarios.DanglingNets and Scenarios.WaitLadder replay their tests for any distinct ids rather than for the literal ids of the test, which covers the literals as one instance.
- Messages.ParseVersionMsg: the tests do not fix its result on a JSON object without `node_id` or `version`. The model returns an error value, which is its own choice and not a claim about the original.
- Trie.FindDanglingNets: the sweep visits keys in first-stored order. The original character trie's key order is not modelled, so with two dangling keys the model's pair order may differ from the original's. The trie's refusal of keys outside `string.hexdigits` is not modelled either: `UpdateIdTrie` stores any key.
- ConfigWait.WaitForCfgMsg: a `cfg_q` entry that is an object without a string `node_id` is held back as a message for another node; the tests do not fix what the original does with it.
