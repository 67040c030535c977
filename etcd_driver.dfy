/**
 * The etcd driver's pure rules: the streaming parser of the snapshot
 * response, the cluster-id check made on every etcd response, the loading of
 * a config directory, the guard on updates to the ready key, and the URL of a
 * key.
 */
module EtcdDriver {
  import opened Wrappers
  import opened Strings

  // ---------------------------------------------------------------------
  // Streaming snapshot parser
  // ---------------------------------------------------------------------

  datatype Scalar = Str(s: string) | Num(n: int) | Bool(b: bool)

  /**
   * One event of the incremental JSON parser. A `MapKey` carries the key's
   * name as its value, an `Atom` its scalar; every other event (and JSON
   * null) carries Python's None.
   */
  datatype Token = StartMap | EndMap | StartArray | EndArray | MapKey(name: string) | Null | Atom(v: Scalar)

  function ValueOf(t: Token): Option<Scalar>
  {
    match t
    case MapKey(name) => Some(Str(name))
    case Atom(v) => Some(v)
    case _ => None
  }

  /** One call of the snapshot callback: `callback(mod_index, node_key, node_value)`. */
  datatype Emit = Emit(modifiedIndex: Scalar, key: Scalar, value: Scalar)

  /**
   * Why parsing stopped early: an "errorCode" key or a bad status or first
   * token (ResyncRequired), a stray event inside "nodes" (ValueError), or the
   * token stream running dry (StopIteration from `next`).
   */
  datatype ParseError = ResyncRequired | UnexpectedToken(t: Token) | StopIteration

  /** The callbacks made, the tokens not consumed, and the error raised if any. */
  datatype Outcome = Outcome(emitted: seq<Emit>, rest: seq<Token>, error: Option<ParseError>)

  /** The three locals `_parse_map` accumulates for the map it is reading. */
  datatype NodeFields = NodeFields(modIndex: Option<Scalar>, key: Option<Scalar>, value: Option<Scalar>)

  const NoFields := NodeFields(None, None, None)

  function Prepend(e: seq<Emit>, o: Outcome): (r: Outcome)
    ensures r.rest == o.rest && r.error == o.error && r.emitted == e + o.emitted
  {
    o.(emitted := e + o.emitted)
  }

  /** What `_parse_map` emits when it meets the map's `end_map`. */
  function Finished(f: NodeFields): seq<Emit>
  {
    if f.key.Some? && f.value.Some? && f.modIndex.Some? then [Emit(f.modIndex.value, f.key.value, f.value.value)] else []
  }

  /**
   * The `while True` loop of `_parse_map`, from the tokens still to read and
   * the fields gathered so far.
   */
  function MapLoop(toks: seq<Token>, f: NodeFields): (r: Outcome)
    ensures |r.rest| < |toks| || (|toks| == 0 && r.rest == [])
    decreases |toks|
  {
    if |toks| == 0 then Outcome([], [], Some(StopIteration))
    else match toks[0]
      case MapKey(k) =>
        if |toks| == 1 then Outcome([], [], Some(StopIteration))
        else
          var v := ValueOf(toks[1]);
          var rest := toks[2..];
          if k == "modifiedIndex" then MapLoop(rest, f.(modIndex := v))
          else if k == "key" then MapLoop(rest, f.(key := v))
          else if k == "value" then MapLoop(rest, f.(value := v))
          else if k == "errorCode" then Outcome([], rest, Some(ResyncRequired))
          else if k == "nodes" then
            var inner := NodesLoop(rest);
            if inner.error.Some? then inner else Prepend(inner.emitted, MapLoop(inner.rest, f))
          else MapLoop(rest, f)
      case EndMap => Outcome(Finished(f), toks[1..], None)
      case _ => MapLoop(toks[1..], f)
  }

  /** The inner loop over the "nodes" array: each `start_map` is parsed recursively. */
  function NodesLoop(toks: seq<Token>): (r: Outcome)
    ensures |r.rest| < |toks| || (|toks| == 0 && r.rest == [])
    decreases |toks|
  {
    if |toks| == 0 then Outcome([], [], Some(StopIteration))
    else match toks[0]
      case StartMap =>
        var inner := MapLoop(toks[1..], NoFields);
        if inner.error.Some? then inner else Prepend(inner.emitted, NodesLoop(inner.rest))
      case EndArray => Outcome([], toks[1..], None)
      case t => Outcome([], toks[1..], Some(UnexpectedToken(t)))
  }

  /** `parse_snapshot`: the HTTP status and the whole token stream of the response. */
  function Snapshot(status: int, toks: seq<Token>): (r: Outcome)
    ensures status != 200 ==> r.error == Some(ResyncRequired) && r.emitted == []
    ensures status == 200 && |toks| > 0 && toks[0] != StartMap ==> r.error == Some(ResyncRequired) && r.emitted == []
  {
    if status != 200 then Outcome([], toks, Some(ResyncRequired))
    else if |toks| == 0 then Outcome([], [], Some(StopIteration))
    else if toks[0] == StartMap then MapLoop(toks[1..], NoFields)
    else Outcome([], toks[1..], Some(ResyncRequired))
  }

  lemma PrependPrepend(a: seq<Emit>, b: seq<Emit>, o: Outcome)
    ensures Prepend(a, Prepend(b, o)) == Prepend(a + b, o)
  {
    assert a + (b + o.emitted) == (a + b) + o.emitted;
  }

  /**
   * `_parse_map`: consumes tokens from `start` (just after the map's
   * `start_map`) up to and including its `end_map`, recursing into each map
   * of a "nodes" array. Returns where it stopped, the callbacks made in order,
   * and the error raised if any.
   */
  method ParseMap(toks: seq<Token>, start: nat) returns (pos: nat, emitted: seq<Emit>, err: Option<ParseError>)
    requires start <= |toks|
    ensures start <= pos <= |toks|
    ensures Outcome(emitted, toks[pos..], err) == MapLoop(toks[start..], NoFields)
    decreases |toks| - start
  {
    var fields := NoFields;
    pos, emitted, err := start, [], None;
    ghost var goal := MapLoop(toks[start..], NoFields);
    ghost var rest := toks[start..];
    while true
      invariant start <= pos <= |toks| && rest == toks[pos..]
      invariant Prepend(emitted, MapLoop(rest, fields)) == goal
      decreases |toks| - pos
    {
      if pos == |toks| {
        err := Some(StopIteration);
        return;
      }
      var tok := toks[pos];
      assert tok == rest[0];
      pos := pos + 1;
      if tok.MapKey? {
        if pos == |toks| {
          err := Some(StopIteration);
          return;
        }
        var value := ValueOf(toks[pos]);
        assert value == ValueOf(rest[1]);
        pos := pos + 1;
        assert rest[2..] == toks[pos..];
        rest := rest[2..];
        if tok.name == "modifiedIndex" {
          fields := fields.(modIndex := value);
        } else if tok.name == "key" {
          fields := fields.(key := value);
        } else if tok.name == "value" {
          fields := fields.(value := value);
        } else if tok.name == "errorCode" {
          err := Some(ResyncRequired);
          return;
        } else if tok.name == "nodes" {
          var p, e, er := ParseNodes(toks, pos);
          PrependPrepend(emitted, e, MapLoop(toks[p..], fields));
          pos, emitted := p, emitted + e;
          rest := toks[p..];
          if er.Some? {
            err := er;
            return;
          }
        }
      } else if tok == EndMap {
        emitted := emitted + Finished(fields);
        assert rest[1..] == toks[pos..];
        return;
      } else {
        assert rest[1..] == toks[pos..];
        rest := rest[1..];
      }
    }
  }

  /**
   * The inner `while True` of `_parse_map` over a "nodes" array, from just
   * after the array's `start_array` up to its `end_array`.
   */
  method ParseNodes(toks: seq<Token>, start: nat) returns (pos: nat, emitted: seq<Emit>, err: Option<ParseError>)
    requires start <= |toks|
    ensures start <= pos <= |toks|
    ensures Outcome(emitted, toks[pos..], err) == NodesLoop(toks[start..])
    decreases |toks| - start
  {
    pos, emitted, err := start, [], None;
    ghost var goal := NodesLoop(toks[start..]);
    ghost var rest := toks[start..];
    while true
      invariant start <= pos <= |toks| && rest == toks[pos..]
      invariant Prepend(emitted, NodesLoop(rest)) == goal
      decreases |toks| - pos
    {
      if pos == |toks| {
        err := Some(StopIteration);
        return;
      }
      var t := toks[pos];
      assert t == rest[0];
      pos := pos + 1;
      assert rest[1..] == toks[pos..];
      if t == StartMap {
        var p, e, er := ParseMap(toks, pos);
        PrependPrepend(emitted, e, NodesLoop(toks[p..]));
        pos, emitted := p, emitted + e;
        rest := toks[p..];
        if er.Some? {
          err := er;
          return;
        }
      } else if t == EndArray {
        return;
      } else {
        err := Some(UnexpectedToken(t));
        return;
      }
    }
  }

  /** `parse_snapshot`, calling `ParseMap` after checking the status and the first token. */
  method ParseSnapshot(status: int, toks: seq<Token>) returns (emitted: seq<Emit>, err: Option<ParseError>)
    ensures emitted == Snapshot(status, toks).emitted && err == Snapshot(status, toks).error
  {
    if status != 200 {
      return [], Some(ResyncRequired);
    }
    if |toks| == 0 {
      return [], Some(StopIteration);
    }
    if toks[0] == StartMap {
      var pos;
      pos, emitted, err := ParseMap(toks, 1);
    } else {
      emitted, err := [], Some(ResyncRequired);
    }
  }

  // ---------------------------------------------------------------------
  // What the parser makes of a well-formed etcd response
  // ---------------------------------------------------------------------

  /** A node of etcd's recursive GET response: a key with a value, or a directory with children. */
  datatype EtcdNode = EtcdNode(key: string, value: Option<string>, modifiedIndex: int, isDir: bool, children: seq<EtcdNode>)

  /** The events of a node's JSON object after its `start_map`, ending with its `end_map`. */
  function NodeBody(n: EtcdNode): seq<Token>
    decreases n, 2
  {
    [MapKey("key"), Atom(Str(n.key))] + ValuePart(n) + DirPart(n) + [MapKey("modifiedIndex"), Atom(Num(n.modifiedIndex)), EndMap]
  }

  function ValuePart(n: EtcdNode): seq<Token>
  {
    if n.value.Some? then [MapKey("value"), Atom(Str(n.value.value))] else []
  }

  function DirPart(n: EtcdNode): seq<Token>
    decreases n, 1
  {
    if n.isDir then [MapKey("dir"), Atom(Bool(true)), MapKey("nodes"), StartArray] + ChildrenTokens(n.children) + [EndArray] else []
  }

  /** The events of the maps inside a "nodes" array, without the brackets. */
  function ChildrenTokens(cs: seq<EtcdNode>): seq<Token>
    decreases cs, 0
  {
    if |cs| == 0 then [] else [StartMap] + NodeBody(cs[0]) + ChildrenTokens(cs[1..])
  }

  /** The keys with values under a node, children in document order before the node itself. */
  function Flatten(n: EtcdNode): seq<Emit>
    decreases n, 1
  {
    (if n.isDir then FlattenAll(n.children) else [])
    + (if n.value.Some? then [Emit(Num(n.modifiedIndex), Str(n.key), Str(n.value.value))] else [])
  }

  function FlattenAll(cs: seq<EtcdNode>): seq<Emit>
    decreases cs, 0
  {
    if |cs| == 0 then [] else Flatten(cs[0]) + FlattenAll(cs[1..])
  }

  /** The effect of one key of a map other than "errorCode" and "nodes" on the fields gathered. */
  function Assign(f: NodeFields, k: string, v: Option<Scalar>): NodeFields
  {
    if k == "modifiedIndex" then f.(modIndex := v)
    else if k == "key" then f.(key := v)
    else if k == "value" then f.(value := v)
    else f
  }

  lemma MapLoopPair(k: string, x: Token, t: seq<Token>, f: NodeFields)
    requires k != "errorCode" && k != "nodes"
    ensures MapLoop([MapKey(k), x] + t, f) == MapLoop(t, Assign(f, k, ValueOf(x)))
  {
    assert ([MapKey(k), x] + t)[2..] == t;
  }

  lemma MapLoopTail(mi: int, rest: seq<Token>, f: NodeFields)
    ensures MapLoop([MapKey("modifiedIndex"), Atom(Num(mi)), EndMap] + rest, f)
         == Outcome(Finished(f.(modIndex := Some(Num(mi)))), rest, None)
  {
    MapLoopPair("modifiedIndex", Atom(Num(mi)), [EndMap] + rest, f);
    assert ([MapKey("modifiedIndex"), Atom(Num(mi))] + ([EndMap] + rest)) == [MapKey("modifiedIndex"), Atom(Num(mi)), EndMap] + rest;
    assert ([EndMap] + rest)[1..] == rest;
  }

  /** The directory part of a node: its children's callbacks, then the rest of the map. */
  lemma {:induction false} MapOfDirPart(n: EtcdNode, tail: seq<Token>, f: NodeFields)
    ensures MapLoop(DirPart(n) + tail, f) == Prepend(if n.isDir then FlattenAll(n.children) else [], MapLoop(tail, f))
    decreases n, 1
  {
    if n.isDir {
      var kids := ChildrenTokens(n.children) + [EndArray] + tail;
      assert DirPart(n) + tail == [MapKey("dir"), Atom(Bool(true))] + ([MapKey("nodes"), StartArray] + kids);
      MapLoopPair("dir", Atom(Bool(true)), [MapKey("nodes"), StartArray] + kids, f);
      assert ([MapKey("nodes"), StartArray] + kids)[2..] == kids;
      NodesOfChildren(n.children, tail);
    } else {
      assert DirPart(n) + tail == tail;
    }
  }

  /**
   * `_parse_map` reads a whole node, calls back for every key with a value in
   * it, children first and in document order, and stops right after the
   * node's `end_map`.
   */
  lemma {:induction false} MapOfNode(n: EtcdNode, rest: seq<Token>)
    ensures MapLoop(NodeBody(n) + rest, NoFields) == Outcome(Flatten(n), rest, None)
    decreases n, 2
  {
    var tail := [MapKey("modifiedIndex"), Atom(Num(n.modifiedIndex)), EndMap] + rest;
    assert NodeBody(n) + rest == [MapKey("key"), Atom(Str(n.key))] + (ValuePart(n) + (DirPart(n) + tail));
    MapLoopPair("key", Atom(Str(n.key)), ValuePart(n) + (DirPart(n) + tail), NoFields);
    var f1 := NodeFields(None, Some(Str(n.key)), None);
    var f2 := if n.value.Some? then f1.(value := Some(Str(n.value.value))) else f1;
    if n.value.Some? {
      MapLoopPair("value", Atom(Str(n.value.value)), DirPart(n) + tail, f1);
    } else {
      assert ValuePart(n) + (DirPart(n) + tail) == DirPart(n) + tail;
    }
    MapOfDirPart(n, tail, f2);
    MapLoopTail(n.modifiedIndex, rest, f2);
  }

  /** The inner "nodes" loop reads every child map and stops right after the `end_array`. */
  lemma {:induction false} NodesOfChildren(cs: seq<EtcdNode>, rest: seq<Token>)
    ensures NodesLoop(ChildrenTokens(cs) + [EndArray] + rest) == Outcome(FlattenAll(cs), rest, None)
    decreases cs, 0
  {
    if |cs| == 0 {
      assert ChildrenTokens(cs) + [EndArray] + rest == [EndArray] + rest;
      assert ([EndArray] + rest)[1..] == rest;
    } else {
      var after := ChildrenTokens(cs[1..]) + [EndArray] + rest;
      assert ChildrenTokens(cs) + [EndArray] + rest == [StartMap] + (NodeBody(cs[0]) + after);
      assert ([StartMap] + (NodeBody(cs[0]) + after))[1..] == NodeBody(cs[0]) + after;
      MapOfNode(cs[0], after);
      NodesOfChildren(cs[1..], rest);
    }
  }

  /**
   * For a successful recursive GET, `{"action": "get", "node": {...}}`,
   * `parse_snapshot` calls back once for every key with a value in the tree,
   * children before parents, and raises nothing; only the outer `end_map` is
   * left unread.
   */
  lemma SnapshotOfTree(root: EtcdNode)
    ensures Snapshot(200, [StartMap, MapKey("action"), Atom(Str("get")), MapKey("node"), StartMap] + NodeBody(root) + [EndMap])
         == Outcome(Flatten(root), [EndMap], None)
  {
    var toks := [StartMap, MapKey("action"), Atom(Str("get")), MapKey("node"), StartMap] + NodeBody(root) + [EndMap];
    var body := NodeBody(root) + [EndMap];
    assert toks[1..] == [MapKey("action"), Atom(Str("get"))] + ([MapKey("node"), StartMap] + body);
    MapLoopPair("action", Atom(Str("get")), [MapKey("node"), StartMap] + body, NoFields);
    MapLoopPair("node", StartMap, body, NoFields);
    MapOfNode(root, [EndMap]);
  }

  /** An etcd error body, `{"errorCode": ...}`, raises ResyncRequired before any callback. */
  lemma ErrorResponseResyncs(code: Token, rest: seq<Token>)
    ensures Snapshot(200, [StartMap, MapKey("errorCode"), code] + rest) == Outcome([], rest, Some(ResyncRequired))
  {
    var toks := [StartMap, MapKey("errorCode"), code] + rest;
    assert toks[1..][2..] == rest;
  }

  /** Inside "nodes", any event but `start_map` and `end_array` raises ValueError. */
  lemma StrayTokenInNodes(t: Token, rest: seq<Token>)
    requires t != StartMap && t != EndArray
    ensures NodesLoop([t] + rest) == Outcome([], rest, Some(UnexpectedToken(t)))
  {
    assert ([t] + rest)[1..] == rest;
  }

  // ---------------------------------------------------------------------
  // Loading a config directory
  // ---------------------------------------------------------------------

  /** A decoded JSON document. */
  datatype Json = JNull | JBool(b: bool) | JNum(n: int) | JStr(s: string) | JArray(items: seq<Json>) | JObject(fields: map<string, Json>)

  /**
   * How `_load_config` can fail: ResyncRequired for the TypeError, ValueError
   * and KeyError it catches, Crash for an AttributeError it lets through
   * (a body that is not an object, or a node key that is not a string).
   */
  datatype LoadError = LoadResync | Crash

  /** Python's `sub in s` on strings. */
  predicate HasSubstring(s: string, sub: string)
    decreases |s|
  {
    |sub| <= |s| && (s[..|sub|] == sub || HasSubstring(s[1..], sub))
  }

  /** The name a config node is stored under: the last "/"-separated piece of its key. */
  function ConfigName(key: string): (r: string)
    ensures '/' !in r
  {
    LastPiece(key, '/')
  }

  /** The config entry one element of the "nodes" list contributes, if any. */
  predicate Contributes(e: Json)
  {
    e.JObject? && "key" in e.fields && "value" in e.fields && e.fields["key"].JStr?
  }

  /**
   * One turn of the loop over the nodes: `"key" in node and "value" in node`
   * means a dict test for an object, a substring test for a string and a
   * membership test for a list; a number, a boolean or null cannot be
   * searched, and a string or list that passes the test cannot be indexed
   * by "key".
   */
  function AddNode(config: map<string, Json>, e: Json): Result<map<string, Json>, LoadError>
  {
    match e
    case JObject(m) =>
      if "key" in m && "value" in m then
        if m["key"].JStr? then Success(config[ConfigName(m["key"].s) := m["value"]])
        else Failure(Crash)
      else Success(config)
    case JStr(s) => if HasSubstring(s, "key") && HasSubstring(s, "value") then Failure(LoadResync) else Success(config)
    case JArray(xs) => if JStr("key") in xs && JStr("value") in xs then Failure(LoadResync) else Success(config)
    case _ => Failure(LoadResync)
  }

  /** The loop over a list of nodes, from the config gathered so far. */
  function ConfigFrom(config: map<string, Json>, items: seq<Json>): Result<map<string, Json>, LoadError>
    decreases |items|
  {
    if |items| == 0 then Success(config)
    else match AddNode(config, items[0])
      case Failure(err) => Failure(err)
      case Success(next) => ConfigFrom(next, items[1..])
  }

  /**
   * Iterating over `etcd_resp["node"]["nodes"]` when it is not a list: the
   * keys of an object behave as strings, the characters of a string never
   * pass the test, anything else cannot be iterated.
   */
  function ConfigFromOther(nodes: Json): Result<map<string, Json>, LoadError>
    requires !nodes.JArray?
  {
    match nodes
    case JObject(m) =>
      if exists k :: k in m && HasSubstring(k, "key") && HasSubstring(k, "value") then Failure(LoadResync)
      else Success(map[])
    case JStr(_) => Success(map[])
    case _ => Failure(LoadResync)
  }

  /**
   * `_load_config` on the response body: None when `json.loads` rejects it.
   * etcd's "key not found" (error code 100) gives an empty config.
   */
  function LoadConfigSpec(body: Option<Json>): Result<map<string, Json>, LoadError>
  {
    match body
    case None => Failure(LoadResync)
    case Some(resp) =>
      if !resp.JObject? then Failure(Crash)
      else if "errorCode" in resp.fields && resp.fields["errorCode"] == JNum(100) then Success(map[])
      else if "node" !in resp.fields then Failure(LoadResync)
      else
        var node := resp.fields["node"];
        if !node.JObject? || "nodes" !in node.fields then Failure(LoadResync)
        else
          var nodes := node.fields["nodes"];
          if nodes.JArray? then ConfigFrom(map[], nodes.items) else ConfigFromOther(nodes)
  }

  /** `_load_config`, with its loop over the nodes of the config directory. */
  method LoadConfig(body: Option<Json>) returns (r: Result<map<string, Json>, LoadError>)
    ensures r == LoadConfigSpec(body)
  {
    if body.None? {
      return Failure(LoadResync);
    }
    var resp := body.value;
    if !resp.JObject? {
      return Failure(Crash);
    }
    if "errorCode" in resp.fields && resp.fields["errorCode"] == JNum(100) {
      return Success(map[]);
    }
    if "node" !in resp.fields || !resp.fields["node"].JObject? || "nodes" !in resp.fields["node"].fields {
      return Failure(LoadResync);
    }
    var nodes := resp.fields["node"].fields["nodes"];
    if !nodes.JArray? {
      return ConfigFromOther(nodes);
    }
    var config: map<string, Json> := map[];
    var i := 0;
    while i < |nodes.items|
      invariant 0 <= i <= |nodes.items|
      invariant ConfigFrom(config, nodes.items[i..]) == ConfigFrom(map[], nodes.items)
    {
      var e := nodes.items[i];
      assert nodes.items[i..][1..] == nodes.items[i + 1..];
      match AddNode(config, e)
      case Failure(err) =>
        return Failure(err);
      case Success(next) =>
        config := next;
      i := i + 1;
    }
    return Success(config);
  }

  /** A node contributes the entry named `name`. */
  predicate Names(e: Json, name: string)
  {
    Contributes(e) && ConfigName(e.fields["key"].s) == name
  }

  /** A loaded config holds exactly the names already gathered or contributed by some node. */
  lemma {:induction false} ConfigFromNames(config: map<string, Json>, items: seq<Json>, name: string)
    requires ConfigFrom(config, items).Success?
    ensures name in ConfigFrom(config, items).value <==>
      name in config || exists i :: 0 <= i < |items| && Names(items[i], name)
    decreases |items|
  {
    if |items| > 0 {
      var next := AddNode(config, items[0]).value;
      ConfigFromNames(next, items[1..], name);
      if exists i :: 0 <= i < |items| && Names(items[i], name) {
        var i :| 0 <= i < |items| && Names(items[i], name);
        if i > 0 {
          assert Names(items[1..][i - 1], name);
        }
      }
      if exists i :: 0 <= i < |items[1..]| && Names(items[1..][i], name) {
        var i :| 0 <= i < |items[1..]| && Names(items[1..][i], name);
        assert Names(items[i + 1], name);
      }
    }
  }

  /** A name no node contributes keeps what the config already held. */
  lemma {:induction false} ConfigFromKeeps(config: map<string, Json>, items: seq<Json>, name: string)
    requires ConfigFrom(config, items).Success?
    requires forall i :: 0 <= i < |items| ==> !Names(items[i], name)
    ensures name in ConfigFrom(config, items).value <==> name in config
    ensures name in config ==> ConfigFrom(config, items).value[name] == config[name]
    decreases |items|
  {
    if |items| > 0 {
      var next := AddNode(config, items[0]).value;
      assert !Names(items[0], name);
      assert forall i :: 0 <= i < |items[1..]| ==> !Names(items[1..][i], name) by {
        forall i | 0 <= i < |items[1..]| ensures !Names(items[1..][i], name) {
          assert items[1..][i] == items[i + 1];
        }
      }
      ConfigFromKeeps(next, items[1..], name);
    }
  }

  /** When several nodes share a name, the last of them wins. */
  lemma {:induction false} ConfigFromLastWins(config: map<string, Json>, items: seq<Json>, name: string, i: nat)
    requires ConfigFrom(config, items).Success?
    requires i < |items| && Names(items[i], name)
    requires forall j :: i < j < |items| ==> !Names(items[j], name)
    ensures name in ConfigFrom(config, items).value
    ensures ConfigFrom(config, items).value[name] == items[i].fields["value"]
    decreases |items|
  {
    var next := AddNode(config, items[0]).value;
    if i == 0 {
      assert forall j :: 0 <= j < |items[1..]| ==> !Names(items[1..][j], name) by {
        forall j | 0 <= j < |items[1..]| ensures !Names(items[1..][j], name) {
          assert items[1..][j] == items[j + 1];
        }
      }
      ConfigFromKeeps(next, items[1..], name);
    } else {
      assert items[1..][i - 1] == items[i];
      assert forall j :: i - 1 < j < |items[1..]| ==> !Names(items[1..][j], name) by {
        forall j | i - 1 < j < |items[1..]| ensures !Names(items[1..][j], name) {
          assert items[1..][j] == items[j + 1];
        }
      }
      ConfigFromLastWins(next, items[1..], name, i - 1);
    }
  }

  /** etcd's "key not found" for the directory loads as an empty config, whatever else the body holds. */
  lemma MissingDirIsEmpty(fields: map<string, Json>)
    requires "errorCode" in fields && fields["errorCode"] == JNum(100)
    ensures LoadConfigSpec(Some(JObject(fields))) == Success(map[])
  {
  }

  /** A config node stored at `<dir>/<name>` is loaded under `name`. */
  lemma ConfigNameOfPath(dir: string, name: string)
    requires '/' !in name
    ensures ConfigName(dir + "/" + name) == name
  {
    assert dir + "/" + name == dir + ['/'] + name;
    LastPieceAfterSep(dir, '/', name);
  }

  // ---------------------------------------------------------------------
  // Key URLs
  // ---------------------------------------------------------------------

  const KeysPath := "/v2/keys/"

  /** The base URL kept from Felix's init message: its trailing slashes dropped. */
  function BaseUrl(etcdUrl: string): (r: string)
    ensures |r| <= |etcdUrl| && r == etcdUrl[..|r|]
    ensures |r| > 0 ==> r[|r| - 1] != '/'
    ensures forall i :: |r| <= i < |etcdUrl| ==> etcdUrl[i] == '/'
  {
    RStrip(etcdUrl, {'/'})
  }

  /** `_calculate_url`: the base URL, then "/v2/keys/", then the key without outer slashes. */
  function KeyUrl(base: string, key: string): (r: string)
    ensures |r| == |base| + |KeysPath| + |Strip(key, {'/'})|
    ensures r[..|base|] == base && r[|base|..|base| + |KeysPath|] == KeysPath
    ensures r[|base| + |KeysPath|..] == Strip(key, {'/'})
  {
    base + KeysPath + Strip(key, {'/'})
  }

  /** Two keys give the same URL exactly when they agree once their outer slashes are dropped. */
  lemma KeyUrlInjective(base: string, k1: string, k2: string)
    ensures KeyUrl(base, k1) == KeyUrl(base, k2) <==> Strip(k1, {'/'}) == Strip(k2, {'/'})
  {
    if KeyUrl(base, k1) == KeyUrl(base, k2) {
      var n := |base| + |KeysPath|;
      assert KeyUrl(base, k1)[n..] == KeyUrl(base, k2)[n..];
    }
  }

  /** A trailing slash on the URL Felix configures changes no key's URL. */
  lemma {:induction false} TrailingSlashIgnored(etcdUrl: string, key: string)
    ensures KeyUrl(BaseUrl(etcdUrl + "/"), key) == KeyUrl(BaseUrl(etcdUrl), key)
  {
    assert etcdUrl + "/" == etcdUrl + ['/'];
    RStripAppend(etcdUrl, {'/'}, '/');
  }

  // ---------------------------------------------------------------------
  // Driver state
  // ---------------------------------------------------------------------

  /** One MSG_TYPE_UPDATE sent to Felix; a None value is a deletion. */
  datatype Update = Update(key: string, value: Option<string>)

  /**
   * The part of `EtcdDriver` these rules touch. calico/datamodel_v1.py is not
   * part of this model, so the ready key is given at construction.
   */
  class Driver {
    const readyKey: string
    var baseUrl: string
    var hostname: string
    var initReceived: bool
    /** The first non-empty cluster id seen; None before any. */
    var clusterId: Option<string>
    /** Set by `stop()`. */
    var stopped: bool
    /** Updates written to Felix, in order. */
    var sent: seq<Update>

    predicate Valid()
      reads this
    {
      clusterId.Some? ==> clusterId.value != ""
    }

    constructor(readyKey: string)
      ensures Valid()
      ensures this.readyKey == readyKey && !initReceived && clusterId.None? && !stopped && sent == []
    {
      this.readyKey := readyKey;
      baseUrl, hostname, initReceived := "", "", false;
      clusterId, stopped, sent := None, false, [];
    }

    /** `_handle_init`: remember the etcd URL without its trailing slashes, and the hostname. */
    method HandleInit(etcdUrl: string, host: string)
      modifies this
      ensures baseUrl == BaseUrl(etcdUrl) && hostname == host && initReceived
      ensures clusterId == old(clusterId) && stopped == old(stopped) && sent == old(sent)
    {
      baseUrl, hostname, initReceived := BaseUrl(etcdUrl), host, true;
    }

    /** `_calculate_url`, once the init message has given the base URL. */
    function Url(key: string): string
      reads this
      requires initReceived
    {
      KeyUrl(baseUrl, key)
    }

    /**
     * `_check_cluster_id` on the x-etcd-cluster-id header of a response
     * (None when absent). The first id seen is kept; a later, different id
     * stops the driver and raises DriverShutdown.
     */
    method CheckClusterId(header: Option<string>) returns (shutdown: bool)
      requires Valid()
      modifies this
      ensures Valid()
      ensures (clusterId, shutdown) == ClusterStep(old(clusterId), header)
      ensures stopped == (old(stopped) || shutdown)
      ensures baseUrl == old(baseUrl) && hostname == old(hostname) && sent == old(sent) && initReceived == old(initReceived)
    {
      shutdown := false;
      if header.Some? && header.value != "" {
        if clusterId.Some? {
          if clusterId != header {
            stopped := true;
            shutdown := true;
          }
        } else {
          clusterId := header;
        }
      }
    }

    /**
     * `_on_key_updated`: a ready key whose value is not "true" raises
     * ResyncRequired and sends nothing; any other update is sent to Felix.
     */
    method OnKeyUpdated(key: string, value: Option<string>) returns (resync: bool)
      modifies this
      ensures resync <==> key == readyKey && value != Some("true")
      ensures resync ==> sent == old(sent)
      ensures !resync ==> sent == old(sent) + [Update(key, value)]
      ensures baseUrl == old(baseUrl) && hostname == old(hostname) && clusterId == old(clusterId)
      ensures stopped == old(stopped) && initReceived == old(initReceived)
    {
      if key == readyKey && value != Some("true") {
        return true;
      }
      sent := sent + [Update(key, value)];
      return false;
    }
  }

  /**
   * One cluster-id check: the id kept afterwards and whether the driver shuts
   * down. A missing or empty header changes nothing; the first id is kept;
   * a later, different one shuts the driver down.
   */
  function ClusterStep(stored: Option<string>, header: Option<string>): (r: (Option<string>, bool))
    ensures header.None? || header.value == "" ==> r == (stored, false)
    ensures header.Some? && header.value != "" && stored.None? ==> r == (header, false)
    ensures stored.Some? ==> r.0 == stored && (r.1 <==> header.Some? && header.value != "" && header != stored)
  {
    if header.Some? && header.value != "" then
      if stored.Some? then (stored, stored != header) else (header, false)
    else (stored, false)
  }

  /** The id kept and whether any check shut the driver down, after a run of responses. */
  function Checks(stored: Option<string>, headers: seq<Option<string>>): (Option<string>, bool)
    decreases |headers|
  {
    if |headers| == 0 then (stored, false)
    else
      var step := ClusterStep(stored, headers[0]);
      var rest := Checks(step.0, headers[1..]);
      (rest.0, step.1 || rest.1)
  }

  /** The first non-empty header of a run of responses. */
  function FirstClusterId(headers: seq<Option<string>>): (r: Option<string>)
    ensures r.Some? ==> r.value != "" && r in headers
    ensures r.None? ==> forall i :: 0 <= i < |headers| ==> headers[i].None? || headers[i].value == ""
  {
    if |headers| == 0 then None
    else if headers[0].Some? && headers[0].value != "" then headers[0]
    else FirstClusterId(headers[1..])
  }

  /** Some non-empty header names a different cluster than `id`. */
  predicate DiffersFrom(headers: seq<Option<string>>, id: Option<string>)
  {
    exists i :: 0 <= i < |headers| && headers[i].Some? && headers[i].value != "" && headers[i] != id
  }

  /** Once an id is kept, it stays, and a shutdown happens exactly when a header names another cluster. */
  lemma {:induction false} ChecksAfterFirst(id: string, headers: seq<Option<string>>)
    requires id != ""
    ensures Checks(Some(id), headers) == (Some(id), DiffersFrom(headers, Some(id)))
    decreases |headers|
  {
    if |headers| > 0 {
      ChecksAfterFirst(id, headers[1..]);
      DiffersFromCons(headers, Some(id));
    }
  }

  lemma DiffersFromCons(headers: seq<Option<string>>, id: Option<string>)
    requires |headers| > 0
    ensures DiffersFrom(headers, id) <==>
      (headers[0].Some? && headers[0].value != "" && headers[0] != id) || DiffersFrom(headers[1..], id)
  {
    if DiffersFrom(headers[1..], id) {
      var i :| 0 <= i < |headers[1..]| && headers[1..][i].Some? && headers[1..][i].value != "" && headers[1..][i] != id;
      assert headers[i + 1] == headers[1..][i];
    }
    if DiffersFrom(headers, id) {
      var i :| 0 <= i < |headers| && headers[i].Some? && headers[i].value != "" && headers[i] != id;
      if i > 0 {
        assert headers[1..][i - 1] == headers[i];
      }
    }
  }

  /**
   * Over a driver's life, starting with no id, the cluster-id checks keep the
   * first non-empty id seen and shut the driver down exactly when a later
   * header names a different cluster.
   */
  lemma {:induction false} ChecksFromStart(headers: seq<Option<string>>)
    ensures Checks(None, headers) == (FirstClusterId(headers), DiffersFrom(headers, FirstClusterId(headers)))
    decreases |headers|
  {
    if |headers| > 0 {
      var h := headers[0];
      if h.Some? && h.value != "" {
        ChecksAfterFirst(h.value, headers[1..]);
        DiffersFromCons(headers, h);
      } else {
        ChecksFromStart(headers[1..]);
        DiffersFromCons(headers, FirstClusterId(headers));
      }
    }
  }
}
