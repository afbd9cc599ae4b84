/**
 * The three wire messages (announce, config, version): their validators,
 * builders and the version-message parser. A message is modelled after JSON
 * decoding: either text that is not a JSON object, or an object's fields.
 */
module Messages {
  import opened Wrappers
  import opened Trie

  const NODE_ID_LEN := 10
  const NET_ID_LEN := 16
  const NODE_ID_KEY := "node_id"
  const NETWORKS_KEY := "networks"
  const VERSION_KEY := "version"
  /** The version a controller sends to a peer whose protocol version is too old. */
  const UPGRADE_REQUIRED := "UPGRADE_REQUIRED"

  /** A decoded JSON field value: a string or a list of strings. */
  datatype Value = Str(s: string) | StrList(items: seq<string>)

  /** A message as received: bare text (an announce id, a miss marker) or a JSON object. */
  datatype Wire = Text(raw: string) | Object(fields: map<string, Value>)

  /** Why a message was refused; each kind is the failed check. */
  datatype ValidationError =
    | BadLength(actual: nat)
    | BadHex(at: nat)
    | NotAnObject
    | MissingKey(key: string)
    | UnexpectedKeys
    | WrongType(key: string)
    | NoNetworks

  /** The id alphabet: decimal digits and hex letters in either case. */
  predicate IsHexDigit(c: char) {
    '0' <= c <= '9' || 'a' <= c <= 'f' || 'A' <= c <= 'F'
  }

  predicate AllHex(s: string) {
    forall i :: 0 <= i < |s| ==> IsHexDigit(s[i])
  }

  predicate IsNodeId(s: string) {
    |s| == NODE_ID_LEN && AllHex(s)
  }

  predicate IsNetId(s: string) {
    |s| == NET_ID_LEN && AllHex(s)
  }

  /** A config message's network list: at least one network, every one a network id. */
  predicate IsNetworkList(nets: seq<string>) {
    |nets| > 0 && forall i :: 0 <= i < |nets| ==> IsNetId(nets[i])
  }

  /** Position of the first character outside the id alphabet, or |s| when there is none. */
  function FirstNonHex(s: string): (k: nat)
    ensures k <= |s|
    ensures forall i :: 0 <= i < k ==> IsHexDigit(s[i])
    ensures k < |s| ==> !IsHexDigit(s[k])
  {
    if s == [] || !IsHexDigit(s[0]) then 0 else 1 + FirstNonHex(s[1..])
  }

  /** An id of `len` hex characters, or the first check it fails. */
  function CheckHexId(s: string, len: nat): (r: Outcome<ValidationError>)
    ensures r.Pass? <==> |s| == len && AllHex(s)
    ensures r == Fail(BadLength(|s|)) <==> |s| != len
    ensures r.Fail? && |s| == len ==>
      && r.error.BadHex? && r.error.at < |s| && !IsHexDigit(s[r.error.at])
      && forall i :: 0 <= i < r.error.at ==> IsHexDigit(s[i])
  {
    if |s| != len then Fail(BadLength(|s|))
    else
      var k := FirstNonHex(s);
      if k < |s| then Fail(BadHex(k)) else Pass
  }

  /** valid_announce_msg: an announce is exactly one node id. */
  function ValidAnnounceMsg(msg: string): (r: Outcome<ValidationError>)
    ensures r.Pass? <==> IsNodeId(msg)
    ensures r.Fail? && |msg| != NODE_ID_LEN ==> r.error == BadLength(|msg|)
    ensures r.Fail? && |msg| == NODE_ID_LEN ==>
      && r.error.BadHex? && r.error.at < |msg| && !IsHexDigit(msg[r.error.at])
      && forall i :: 0 <= i < r.error.at ==> IsHexDigit(msg[i])
  {
    CheckHexId(msg, NODE_ID_LEN)
  }

  /** Every network id in `nets` is well formed, or the failure of the first one that is not. */
  function CheckNetIds(nets: seq<string>): (r: Outcome<ValidationError>)
    ensures r.Pass? <==> forall i :: 0 <= i < |nets| ==> IsNetId(nets[i])
  {
    if nets == [] then Pass
    else
      match CheckHexId(nets[0], NET_ID_LEN)
      case Fail(e) => Fail(e)
      case Pass =>
        var r := CheckNetIds(nets[1..]);
        assert forall i :: 1 <= i < |nets| ==> nets[i] == nets[1..][i - 1];
        r
  }

  /** The config message for `nodeId` and its networks. */
  function CfgObject(nodeId: string, nets: seq<string>): Wire {
    Object(map[NODE_ID_KEY := Str(nodeId), NETWORKS_KEY := StrList(nets)])
  }

  /** The `node_id` field of a decoded message, when it has one holding a string. */
  function CfgNodeId(msg: Wire): Option<string> {
    if msg.Object? && NODE_ID_KEY in msg.fields && msg.fields[NODE_ID_KEY].Str?
    then Some(msg.fields[NODE_ID_KEY].s) else None
  }

  /** The `networks` field of a decoded message, when it has one holding a list. */
  function CfgNetworks(msg: Wire): Option<seq<string>> {
    if msg.Object? && NETWORKS_KEY in msg.fields && msg.fields[NETWORKS_KEY].StrList?
    then Some(msg.fields[NETWORKS_KEY].items) else None
  }

  /**
   * valid_cfg_msg: a JSON object with exactly the keys `node_id` and
   * `networks`, a node id under the first and a non-empty list of network
   * ids under the second.
   */
  function ValidCfgMsg(msg: Wire): (r: Outcome<ValidationError>)
    ensures r.Pass? ==> CfgNodeId(msg).Some? && CfgNetworks(msg).Some?
    ensures msg.Text? ==> r == Fail(NotAnObject)
  {
    match msg
    case Text(_) => Fail(NotAnObject)
    case Object(f) =>
      if NODE_ID_KEY !in f then Fail(MissingKey(NODE_ID_KEY))
      else if NETWORKS_KEY !in f then Fail(MissingKey(NETWORKS_KEY))
      else if f.Keys != {NODE_ID_KEY, NETWORKS_KEY} then Fail(UnexpectedKeys)
      else if !f[NODE_ID_KEY].Str? then Fail(WrongType(NODE_ID_KEY))
      else if !f[NETWORKS_KEY].StrList? then Fail(WrongType(NETWORKS_KEY))
      else
        match CheckHexId(f[NODE_ID_KEY].s, NODE_ID_LEN)
        case Fail(e) => Fail(e)
        case Pass =>
          if f[NETWORKS_KEY].items == [] then Fail(NoNetworks)
          else CheckNetIds(f[NETWORKS_KEY].items)
  }

  /**
   * The messages `valid_cfg_msg` accepts are exactly the config objects
   * built from a node id and a network list.
   */
  lemma ValidCfgMsgAccepts(msg: Wire)
    ensures ValidCfgMsg(msg).Pass? <==>
      exists nodeId, nets :: IsNodeId(nodeId) && IsNetworkList(nets) && msg == CfgObject(nodeId, nets)
  {
    if ValidCfgMsg(msg).Pass? {
      var f := msg.fields;
      var nodeId, nets := f[NODE_ID_KEY].s, f[NETWORKS_KEY].items;
      assert f.Keys == {NODE_ID_KEY, NETWORKS_KEY};
      assert f == map[NODE_ID_KEY := Str(nodeId), NETWORKS_KEY := StrList(nets)];
      assert IsNodeId(nodeId) && IsNetworkList(nets);
    }
    if exists nodeId, nets :: IsNodeId(nodeId) && IsNetworkList(nets) && msg == CfgObject(nodeId, nets) {
      var nodeId, nets :| IsNodeId(nodeId) && IsNetworkList(nets) && msg == CfgObject(nodeId, nets);
      assert NODE_ID_KEY != NETWORKS_KEY;
      assert msg.fields.Keys == {NODE_ID_KEY, NETWORKS_KEY};
      assert msg.fields[NODE_ID_KEY] == Str(nodeId);
      assert msg.fields[NETWORKS_KEY] == StrList(nets);
    }
  }

  /**
   * make_cfg_msg: the config message for a node stored in the trie, carrying
   * its peer list as `networks`; an absent node is a lookup error.
   */
  function MakeCfgMsg(trie: IdTrie, nodeId: string): (r: Result<Wire, TrieError>)
    reads trie
    ensures nodeId !in trie.entries ==> r == Err(UnknownKey(nodeId))
    ensures nodeId in trie.entries ==>
      r.Ok? && CfgNodeId(r.value) == Some(nodeId) && CfgNetworks(r.value) == Some(trie.entries[nodeId].peers)
  {
    if nodeId in trie.entries then Ok(CfgObject(nodeId, trie.entries[nodeId].peers))
    else Err(UnknownKey(nodeId))
  }

  /** What make_cfg_msg builds for a well-formed node and peer list passes valid_cfg_msg. */
  lemma MakeCfgMsgIsValid(trie: IdTrie, nodeId: string)
    requires nodeId in trie.entries
    requires IsNodeId(nodeId) && IsNetworkList(trie.entries[nodeId].peers)
    ensures MakeCfgMsg(trie, nodeId).Ok? && ValidCfgMsg(MakeCfgMsg(trie, nodeId).value).Pass?
  {
    ValidCfgMsgAccepts(MakeCfgMsg(trie, nodeId).value);
  }

  /** What parse_version_msg hands back: the node id and, for a version message, its version. */
  datatype VersionReply = VersionReply(nodeId: string, version: Option<string>)

  /**
   * parse_version_msg: a version object gives its node id and version; text
   * that is not a JSON object is taken to be a bare node id, with no version.
   */
  function ParseVersionMsg(msg: Wire): (r: Result<VersionReply, ValidationError>)
    ensures msg.Text? ==> r == Ok(VersionReply(msg.raw, None))
    ensures r.Ok? && r.value.version.None? ==> msg.Text?
  {
    match msg
    case Text(raw) => Ok(VersionReply(raw, None))
    case Object(f) =>
      if NODE_ID_KEY !in f then Err(MissingKey(NODE_ID_KEY))
      else if VERSION_KEY !in f then Err(MissingKey(VERSION_KEY))
      else if !f[NODE_ID_KEY].Str? then Err(WrongType(NODE_ID_KEY))
      else if !f[VERSION_KEY].Str? then Err(WrongType(VERSION_KEY))
      else Ok(VersionReply(f[NODE_ID_KEY].s, Some(f[VERSION_KEY].s)))
  }

  /**
   * make_version_msg: `{node_id, version}`, the version defaulting to the
   * controller's build version; whatever version is given (UPGRADE_REQUIRED
   * included) comes back unchanged through parse_version_msg.
   */
  function MakeVersionMsg(nodeId: string, buildVersion: string, version: Option<string> := None): (r: Wire)
    ensures ParseVersionMsg(r) == Ok(VersionReply(nodeId, Some(if version.Some? then version.value else buildVersion)))
  {
    var v := if version.Some? then version.value else buildVersion;
    Object(map[NODE_ID_KEY := Str(nodeId), VERSION_KEY := Str(v)])
  }
}
