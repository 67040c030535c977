/**
 * Helpers shared by the etcd-facing parts of the agent: the action mapping,
 * the path dispatcher (a trie of key segments with named `<capture>`
 * wildcards), authority parsing on reconnect, the watch-index advance rule and
 * the bottom-up deletion of empty parent directories.
 */
module EtcdUtils {
  import opened Wrappers
  import opened Strings

  // ---------------------------------------------------------------------------
  // ACTION_MAPPING

  /** `ACTION_MAPPING.get(action)`: the effect an etcd action has, None for an unknown action. */
  function ActionMapping(action: string): (r: Option<string>)
    ensures r.Some? ==> r.value in {"set", "delete"}
  {
    if action in {"set", "compareAndSwap", "create", "update"} then Some("set")
    else if action in {"delete", "compareAndDelete", "expire"} then Some("delete")
    else None
  }

  /** The seven known actions map as documented and nothing else maps at all. */
  lemma ActionMappingTable(action: string)
    ensures ActionMapping(action) == Some("set") <==> action in {"set", "compareAndSwap", "create", "update"}
    ensures ActionMapping(action) == Some("delete") <==> action in {"delete", "compareAndDelete", "expire"}
    ensures ActionMapping(action).None? <==>
      action !in {"set", "compareAndSwap", "create", "update", "delete", "compareAndDelete", "expire"}
  {
  }

  // ---------------------------------------------------------------------------
  // Path dispatcher

  /** A key or registered path, as the list of its segments between slashes. */
  function KeyParts(key: string): (parts: seq<string>)
    ensures |parts| >= 1
  {
    Split(Strip(key, {'/'}), '/')
  }

  /** Surrounding slashes are ignored: `/k/` and `k` give the same segments. */
  lemma KeyPartsIgnoreSlashes(k: string)
    requires |k| > 0 ==> k[0] != '/' && k[|k| - 1] != '/'
    ensures KeyParts("/" + k + "/") == KeyParts(k)
    ensures KeyParts("/" + k) == KeyParts(k)
  {
    StripNoOp(k, {'/'});
    StripLeading(k, {'/'}, '/');
    RStripAppend("/" + k, {'/'}, '/');
  }

  /** The index of the first line break at or after `from`, or `|s|` when there is none. */
  function LineEnd(s: string, from: nat): (e: nat)
    requires from <= |s|
    ensures from <= e <= |s|
    ensures forall i :: from <= i < e ==> s[i] != '\n'
    ensures e < |s| ==> s[e] == '\n'
    decreases |s| - from
  {
    if from == |s| || s[from] == '\n' then from else LineEnd(s, from + 1)
  }

  /** The largest index in `[lo, hi)` holding `c`, if any. */
  function LastIndexIn(s: string, c: char, lo: nat, hi: nat): (r: Option<nat>)
    requires lo <= hi <= |s|
    ensures r.Some? ==> lo <= r.value < hi && s[r.value] == c
    ensures r.Some? ==> forall i :: r.value < i < hi ==> s[i] != c
    ensures r.None? ==> forall i :: lo <= i < hi ==> s[i] != c
    decreases hi - lo
  {
    if hi == lo then None else if s[hi - 1] == c then Some(hi - 1) else LastIndexIn(s, c, lo, hi - 1)
  }

  /**
   * `re.match(r'<(.*)>', part)`: the segment must start with "<"; the greedy
   * group runs to the last ">" before any line break.
   */
  function CaptureName(part: string): (r: Option<string>)
    ensures r.Some? ==> |part| >= 2 && part[0] == '<' && '\n' !in r.value
  {
    if |part| == 0 || part[0] != '<' then None
    else match LastIndexIn(part, '>', 1, LineEnd(part, 1))
      case None => None
      case Some(j) => Some(part[1..j])
  }

  /** A bracketed name is a capture of exactly that name; a segment not starting with "<" never is. */
  lemma CaptureNameOf(name: string, literal: string)
    requires '\n' !in name
    requires |literal| == 0 || literal[0] != '<'
    ensures CaptureName("<" + name + ">") == Some(name)
    ensures CaptureName(literal) == None
  {
    var part := "<" + name + ">";
    assert forall i :: 1 <= i < |part| - 1 ==> part[i] == name[i - 1];
    assert LineEnd(part, 1) == |part|;
    assert part[1..|part| - 1] == name;
  }

  /** An edge of the trie: a literal segment, or the single capture child of a node. */
  datatype Edge = Lit(segment: string) | CaptureEdge

  /** A trie node, named by the edges that lead to it from the root. */
  type Pos = seq<Edge>

  /**
   * The nested handler dicts, flattened: the positions of the literal-child
   * dicts, the capture name stored at each node that has a "capture" entry
   * (its child is at `p + [CaptureEdge]`), and the "set"/"delete" handlers.
   */
  datatype Trie = Trie(nodes: set<Pos>, captureNames: map<Pos, string>, handlers: map<(Pos, string), nat>)

  /** The edge a registered path segment adds. */
  function EdgeOf(part: string): Edge
  {
    if CaptureName(part).Some? then CaptureEdge else Lit(part)
  }

  /** One iteration of the loop in `register`: `setdefault` on the literal or the capture entry. */
  function RegisterStep(t: Trie, p: Pos, part: string): (r: (Trie, Pos, bool))
  {
    match CaptureName(part)
    case Some(name) =>
      if p in t.captureNames then (t, p + [CaptureEdge], t.captureNames[p] == name)
      else (t.(captureNames := t.captureNames[p := name], nodes := t.nodes + {p + [CaptureEdge]}), p + [CaptureEdge], true)
    case None =>
      (t.(nodes := t.nodes + {p + [Lit(part)]}), p + [Lit(part)], true)
  }

  /**
   * The loop of `register` from position `p` over the remaining segments: the
   * trie afterwards, whether every capture-name assertion held, and the final
   * position. A failed assertion stops the loop with the trie as it stands.
   */
  function RegisterFrom(t: Trie, p: Pos, rest: seq<string>): (r: (Trie, bool, Pos))
    decreases |rest|
  {
    if |rest| == 0 then (t, true, p)
    else
      var (t1, p1, ok) := RegisterStep(t, p, rest[0]);
      if !ok then (t1, false, p1) else RegisterFrom(t1, p1, rest[1..])
  }

  /**
   * Registration only adds: existing nodes and capture names stay, handlers
   * are untouched, and new captures sit no higher than the starting node.
   */
  lemma {:induction false} RegisterFromGrows(t: Trie, p: Pos, rest: seq<string>)
    ensures var r := RegisterFrom(t, p, rest).0;
      r.handlers == t.handlers && t.nodes <= r.nodes
      && (forall q :: q in t.captureNames ==> q in r.captureNames && r.captureNames[q] == t.captureNames[q])
      && (forall q :: q in r.captureNames && q !in t.captureNames ==> |q| >= |p|)
    ensures RegisterFrom(t, p, rest).1 ==> |RegisterFrom(t, p, rest).2| == |p| + |rest|
    decreases |rest|
  {
    if |rest| > 0 {
      var (t1, p1, ok) := RegisterStep(t, p, rest[0]);
      if ok {
        RegisterFromGrows(t1, p1, rest[1..]);
      }
    }
  }

  /** A registered path's literal segments are not hidden behind a capture at the node before them. */
  predicate Unshadowed(t: Trie, p: Pos, parts: seq<string>)
    decreases |parts|
  {
    |parts| == 0
    || ((CaptureName(parts[0]).None? ==> p !in t.captureNames)
        && Unshadowed(t, p + [EdgeOf(parts[0])], parts[1..]))
  }

  /** Adding a capture above every position of a path keeps the path unshadowed. */
  lemma {:induction false} UnshadowedKept(t: Trie, t1: Trie, p: Pos, parts: seq<string>, depth: nat)
    requires Unshadowed(t, p, parts) && |p| >= depth
    requires forall q :: q in t1.captureNames && q !in t.captureNames ==> |q| < depth
    ensures Unshadowed(t1, p, parts)
    decreases |parts|
  {
    if |parts| > 0 {
      UnshadowedKept(t, t1, p + [EdgeOf(parts[0])], parts[1..], depth);
    }
  }

  /** A registration leaves its own path unshadowed when it was before: it adds captures only where the path has one. */
  lemma {:induction false} RegisterKeepsUnshadowed(t: Trie, p: Pos, parts: seq<string>)
    requires Unshadowed(t, p, parts) && RegisterFrom(t, p, parts).1
    ensures Unshadowed(RegisterFrom(t, p, parts).0, p, parts)
    decreases |parts|
  {
    if |parts| > 0 {
      var (t1, p1, ok) := RegisterStep(t, p, parts[0]);
      UnshadowedKept(t, t1, p1, parts[1..], |p1|);
      RegisterKeepsUnshadowed(t1, p1, parts[1..]);
      RegisterFromGrows(t1, p1, parts[1..]);
    }
  }

  /** `register` on the segments of a path: the trie afterwards and whether it completed. */
  function RegisterParts(t: Trie, parts: seq<string>, onSet: Option<nat>, onDel: Option<nat>): (r: (Trie, bool))
  {
    var (t1, ok, p) := RegisterFrom(t, [], parts);
    if !ok then (t1, false)
    else
      var h1 := if onSet.Some? then t1.handlers[(p, "set") := onSet.value] else t1.handlers;
      var h2 := if onDel.Some? then h1[(p, "delete") := onDel.value] else h1;
      (t1.(handlers := h2), true)
  }

  /** `register(path, on_set, on_del)`: leading and trailing slashes of the path are ignored. */
  function RegisterPath(t: Trie, path: string, onSet: Option<nat>, onDel: Option<nat>): (r: (Trie, bool))
  {
    RegisterParts(t, KeyParts(path), onSet, onDel)
  }

  /**
   * The loop of `_handle`: consume key segments from position `p`, a capture
   * taking precedence over literal children; None when the key leaves the trie.
   * Returns the final position and the captured values.
   */
  function Walk(t: Trie, p: Pos, parts: seq<string>, caps: map<string, string>): Option<(Pos, map<string, string>)>
    decreases |parts|
  {
    if |parts| == 0 then Some((p, caps))
    else if p in t.captureNames then Walk(t, p + [CaptureEdge], parts[1..], caps[t.captureNames[p] := parts[0]])
    else if p + [Lit(parts[0])] in t.nodes then Walk(t, p + [Lit(parts[0])], parts[1..], caps)
    else None
  }

  /** A handler invocation: which handler, with which keyword captures. */
  datatype Call = Call(handler: nat, captures: map<string, string>)

  /** `_handle` from the root: the handler call an event with these key segments and action leads to, if any. */
  function DispatchParts(t: Trie, parts: seq<string>, action: string): Option<Call>
  {
    match Walk(t, [], parts, map[])
    case None => None
    case Some((p, caps)) =>
      var a := ActionMapping(action);
      if a.Some? && (p, a.value) in t.handlers then Some(Call(t.handlers[(p, a.value)], caps)) else None
  }

  /** `handle_event`: leading and trailing slashes of the key are ignored. */
  function Dispatch(t: Trie, key: string, action: string): Option<Call>
  {
    DispatchParts(t, KeyParts(key), action)
  }

  /** The captures a key binds against a registered path, later names overriding earlier ones. */
  function CapturesFrom(parts: seq<string>, key: seq<string>, caps: map<string, string>): map<string, string>
    requires |parts| == |key|
    decreases |parts|
  {
    if |parts| == 0 then caps
    else match CaptureName(parts[0])
      case Some(name) => CapturesFrom(parts[1..], key[1..], caps[name := key[0]])
      case None => CapturesFrom(parts[1..], key[1..], caps)
  }

  /** A key matches a registered path when it has as many segments and agrees on every literal one. */
  predicate Matches(parts: seq<string>, key: seq<string>)
  {
    |parts| == |key| && forall i :: 0 <= i < |parts| && CaptureName(parts[i]).None? ==> key[i] == parts[i]
  }

  /**
   * In any trie that keeps what the registration from `p` built (its nodes and
   * capture names) and has no capture shadowing the path, a matching key walks
   * from `p` to the registration's end, binding the path's captures.
   */
  lemma {:induction false} WalkFollowsRegistration(t: Trie, p: Pos, parts: seq<string>, key: seq<string>,
                                                   caps: map<string, string>, final: Trie)
    requires RegisterFrom(t, p, parts).1 && Matches(parts, key) && Unshadowed(final, p, parts)
    requires RegisterFrom(t, p, parts).0.nodes <= final.nodes
    requires forall q :: q in RegisterFrom(t, p, parts).0.captureNames ==>
      q in final.captureNames && final.captureNames[q] == RegisterFrom(t, p, parts).0.captureNames[q]
    ensures Walk(final, p, key, caps) == Some((RegisterFrom(t, p, parts).2, CapturesFrom(parts, key, caps)))
    decreases |parts|
  {
    if |parts| > 0 {
      var (t1, p1, ok) := RegisterStep(t, p, parts[0]);
      RegisterFromGrows(t1, p1, parts[1..]);
      assert Matches(parts[1..], key[1..]) by {
        forall i | 0 <= i < |parts| - 1 ensures parts[1..][i] == parts[i + 1] && key[1..][i] == key[i + 1] {}
      }
      match CaptureName(parts[0]) {
        case Some(name) =>
          assert p in t1.captureNames && t1.captureNames[p] == name;
          WalkFollowsRegistration(t1, p1, parts[1..], key[1..], caps[name := key[0]], final);
        case None =>
          assert key[0] == parts[0];
          assert p + [Lit(parts[0])] in t1.nodes;
          WalkFollowsRegistration(t1, p1, parts[1..], key[1..], caps, final);
      }
    }
  }

  /** The handler registered for the action an event maps to. */
  function HandlerFor(action: string, onSet: Option<nat>, onDel: Option<nat>): Option<nat>
  {
    if ActionMapping(action) == Some("set") then onSet
    else if ActionMapping(action) == Some("delete") then onDel
    else None
  }

  /** The segment-level form of `RegisteredPathDispatches`. */
  lemma RegisteredPartsDispatch(t: Trie, parts: seq<string>, onSet: Option<nat>, onDel: Option<nat>,
                                key: seq<string>, action: string)
    requires RegisterParts(t, parts, onSet, onDel).1
    requires Unshadowed(t, [], parts) && Matches(parts, key)
    requires HandlerFor(action, onSet, onDel).Some?
    ensures DispatchParts(RegisterParts(t, parts, onSet, onDel).0, key, action)
      == Some(Call(HandlerFor(action, onSet, onDel).value, CapturesFrom(parts, key, map[])))
  {
    var t1 := RegisterFrom(t, [], parts).0;
    var end := RegisterFrom(t, [], parts).2;
    var t2 := RegisterParts(t, parts, onSet, onDel).0;
    assert t2.nodes == t1.nodes && t2.captureNames == t1.captureNames;
    assert Unshadowed(t2, [], parts) by {
      RegisterKeepsUnshadowed(t, [], parts);
      UnshadowedKept(t1, t2, [], parts, 0);
    }
    assert Walk(t2, [], key, map[]) == Some((end, CapturesFrom(parts, key, map[]))) by {
      WalkFollowsRegistration(t, [], parts, key, map[], t2);
    }
    var a := ActionMapping(action).value;
    assert (end, a) in t2.handlers && t2.handlers[(end, a)] == HandlerFor(action, onSet, onDel).value;
  }

  /**
   * After `register(path, on_set, on_del)` completes, an event whose key
   * matches the path segment for segment calls the handler of its mapped
   * action, passing every capture name bound to the key's segment there;
   * this needs no earlier registration to have put a capture where the path
   * has a literal, since a capture takes precedence.
   */
  lemma RegisteredPathDispatches(t: Trie, path: string, onSet: Option<nat>, onDel: Option<nat>, key: string, action: string)
    requires RegisterPath(t, path, onSet, onDel).1
    requires Unshadowed(t, [], KeyParts(path))
    requires Matches(KeyParts(path), KeyParts(key))
    requires HandlerFor(action, onSet, onDel).Some?
    ensures Dispatch(RegisterPath(t, path, onSet, onDel).0, key, action)
      == Some(Call(HandlerFor(action, onSet, onDel).value, CapturesFrom(KeyParts(path), KeyParts(key), map[])))
  {
    RegisteredPartsDispatch(t, KeyParts(path), onSet, onDel, KeyParts(key), action);
  }

  /** At a node with a capture, the capture consumes the next segment even when a literal child matches it. */
  lemma CaptureTakesPrecedence(t: Trie, p: Pos, seg: string, rest: seq<string>, caps: map<string, string>)
    requires p in t.captureNames && p + [Lit(seg)] in t.nodes
    ensures Walk(t, p, [seg] + rest, caps) == Walk(t, p + [CaptureEdge], rest, caps[t.captureNames[p] := seg])
  {
    assert ([seg] + rest)[1..] == rest;
  }

  /** A key that leaves the trie, an unmapped action, or a node without that handler calls nothing. */
  lemma NoHandlerCalled(t: Trie, key: string, action: string)
    requires Walk(t, [], KeyParts(key), map[]).None?
      || ActionMapping(action).None?
      || (Walk(t, [], KeyParts(key), map[]).Some?
          && (Walk(t, [], KeyParts(key), map[]).value.0, ActionMapping(action).value) !in t.handlers
          && ActionMapping(action).Some?)
    ensures Dispatch(t, key, action).None?
  {
  }

  /** Registering a different capture name where a capture already sits fails the assertion. */
  lemma ConflictingCaptureFails(t: Trie, name: string, rest: string, onSet: Option<nat>, onDel: Option<nat>)
    requires [] in t.captureNames && t.captureNames[[]] != name
    requires '\n' !in name && '/' !in name
    requires |rest| == 0 || rest[0] == '/'
    ensures !RegisterPath(t, "<" + name + ">" + rest, onSet, onDel).1
  {
    var parts := KeyParts("<" + name + ">" + rest);
    CaptureFirstSegment(name, rest);
    CaptureNameOf(name, "");
    assert CaptureName(parts[0]) == Some(name);
    assert !RegisterStep(t, [], parts[0]).2;
    assert !RegisterFrom(t, [], parts).1;
  }

  /** A path starting with a bracketed name has that bracketed name as its first segment. */
  lemma CaptureFirstSegment(name: string, rest: string)
    requires '/' !in name
    requires |rest| == 0 || rest[0] == '/'
    ensures KeyParts("<" + name + ">" + rest)[0] == "<" + name + ">"
  {
    var path := "<" + name + ">" + rest;
    assert path[0] == '<';
    StripNoOpFirst(path, {'/'});
    var s := Strip(path, {'/'});
    assert |s| > 0 && s[0] == '<';
    var n := |name| + 2;
    assert path[n - 1] == '>';
    assert |s| >= n;
    assert s[..n] == "<" + name + ">" by {
      assert s == path[..|s|];
      assert path[..n] == "<" + name + ">";
    }
    SplitFirstPiece(s, '/', n);
  }

  /** Stripping characters a string does not start with keeps its first character. */
  lemma StripNoOpFirst(s: string, cs: set<char>)
    requires |s| > 0 && s[0] !in cs
    ensures |Strip(s, cs)| > 0 && Strip(s, cs) == RStrip(s, cs) && Strip(s, cs) == s[..|Strip(s, cs)|]
  {
    assert |RStrip(s, cs)| > 0;
  }

  /** The first piece of a split, when the separator does not occur in the first `n` characters and `s[n-1]` is followed by it or by the end. */
  lemma {:induction false} SplitFirstPiece(s: string, c: char, n: nat)
    requires n <= |s| && c !in s[..n]
    requires n < |s| ==> s[n] == c
    ensures Split(s, c)[0] == s[..n]
  {
    if n == |s| {
      SplitNoSep(s, c);
      assert s[..n] == s;
    } else {
      assert s == s[..n] + [c] + s[n + 1..];
      SplitPieceThenSep(s[..n], c, s[n + 1..]);
    }
  }

  /** `PathDispatcher`: the handler trie, grown in place by `register`. */
  class PathDispatcher {
    var nodes: set<Pos>
    var captureNames: map<Pos, string>
    var handlers: map<(Pos, string), nat>

    function Current(): Trie
      reads this
    {
      Trie(nodes, captureNames, handlers)
    }

    constructor ()
      ensures Current() == Trie({}, map[], map[])
    {
      nodes, captureNames, handlers := {}, map[], map[];
    }

    /**
     * `register(path, on_set, on_del)`. Returns false when a segment's capture
     * name conflicts with the one already at that node (the assertion fails);
     * the nodes added before the conflict stay.
     */
    method Register(path: string, onSet: Option<nat>, onDel: Option<nat>) returns (ok: bool)
      modifies this
      ensures (Current(), ok) == RegisterPath(old(Current()), path, onSet, onDel)
    {
      ok := RegisterSegments(KeyParts(path), onSet, onDel);
    }

    /** The body of `register` once the path is split into segments. */
    method RegisterSegments(parts: seq<string>, onSet: Option<nat>, onDel: Option<nat>) returns (ok: bool)
      modifies this
      ensures (Current(), ok) == RegisterParts(old(Current()), parts, onSet, onDel)
    {
      var p: Pos := [];
      var i := 0;
      while i < |parts|
        invariant 0 <= i <= |parts|
        invariant RegisterFrom(Current(), p, parts[i..]) == RegisterFrom(old(Current()), [], parts)
      {
        var part := parts[i];
        assert parts[i..][0] == part && parts[i..][1..] == parts[i + 1..];
        var name := CaptureName(part);
        if name.Some? {
          if p in captureNames {
            if captureNames[p] != name.value {
              return false;
            }
          } else {
            captureNames := captureNames[p := name.value];
            nodes := nodes + {p + [CaptureEdge]};
          }
          p := p + [CaptureEdge];
        } else {
          nodes := nodes + {p + [Lit(part)]};
          p := p + [Lit(part)];
        }
        i := i + 1;
      }
      assert parts[i..] == [];
      if onSet.Some? {
        handlers := handlers[(p, "set") := onSet.value];
      }
      if onDel.Some? {
        handlers := handlers[(p, "delete") := onDel.value];
      }
      ok := true;
    }

    /** `handle_event`: the handler call the event leads to, if any. */
    method HandleEvent(key: string, action: string) returns (call: Option<Call>)
      ensures call == Dispatch(Current(), key, action)
    {
      var parts := KeyParts(key);
      var p: Pos := [];
      var caps: map<string, string> := map[];
      while |parts| > 0
        invariant Walk(Current(), p, parts, caps) == Walk(Current(), [], KeyParts(key), map[])
        decreases |parts|
      {
        var next := parts[0];
        parts := parts[1..];
        if p in captureNames {
          caps := caps[captureNames[p] := next];
          p := p + [CaptureEdge];
        } else if p + [Lit(next)] in nodes {
          p := p + [Lit(next)];
        } else {
          return None;
        }
      }
      var a := ActionMapping(action);
      if a.Some? && (p, a.value) in handlers {
        call := Some(Call(handlers[(p, a.value)], caps));
      } else {
        call := None;
      }
    }
  }

  // ---------------------------------------------------------------------------
  // EtcdClientOwner.reconnect: authority parsing

  const DefaultEtcdPort: int := 4001

  /**
   * The host and port `reconnect` connects to: an authority holding ":" must
   * split into exactly two parts with an integer port (otherwise the unpacking
   * or `int()` raises ValueError); without ":" the port is 4001.
   */
  function ParseAuthority(authority: string): (r: Result<(string, int), string>)
    ensures ':' !in authority ==> r == Success((authority, DefaultEtcdPort))
    ensures r.Success? && ':' in authority ==> |Split(authority, ':')| == 2 && r.value.0 == Split(authority, ':')[0]
  {
    if ':' in authority then
      var parts := Split(authority, ':');
      if |parts| != 2 then Failure("ValueError")
      else match ParseInt(parts[1])
        case None => Failure("ValueError")
        case Some(port) => Success((parts[0], port))
    else Success((authority, DefaultEtcdPort))
  }

  /** `host:port` parses back into the host and the port. */
  lemma ParseAuthorityRoundTrip(host: string, port: nat)
    requires ':' !in host
    ensures ParseAuthority(host + ":" + NatToString(port)) == Success((host, port as int))
  {
    var d := NatToString(port);
    var a := host + ":" + d;
    assert ':' !in d by {
      forall i | 0 <= i < |d| ensures d[i] != ':' {
        assert IsDigit(d[i]);
      }
    }
    assert a == host + [':'] + d;
    SplitPieceThenSep(host, ':', d);
    SplitNoSep(d, ':');
    assert Split(a, ':') == [host, d];
    assert ':' in a by { assert a[|host|] == ':'; }
    ParseIntOfNat(port);
    assert ParseInt(Split(a, ':')[1]) == Some(port as int);
  }

  /** An authority with two or more colons (an unbracketed IPv6 address, say) is refused. */
  lemma ParseAuthorityManyColons(a: string, b: string, c: string)
    requires ':' !in a && ':' !in b
    ensures ParseAuthority(a + ":" + b + ":" + c).Failure?
  {
    var s := a + ":" + b + ":" + c;
    assert s == a + [':'] + (b + [':'] + c);
    SplitPieceThenSep(a, ':', b + [':'] + c);
    SplitPieceThenSep(b, ':', c);
    assert s[|a|] == ':';
  }

  /** The client a reconnect builds. */
  datatype Client = Client(host: string, port: int, expectedClusterId: Option<string>)

  /** `EtcdClientOwner`: owns one client, rebuilt by `reconnect`. */
  class ClientOwner {
    const authority: string
    var client: Option<Client>

    constructor (authority: string)
      ensures this.authority == authority && client.None?
    {
      this.authority := authority;
      client := None;
    }

    /**
     * `reconnect(copy_cluster_id)`: a new client for the parsed authority,
     * keeping the old client's expected cluster id only when asked to and
     * when there was a client. A malformed authority raises and leaves the
     * old client in place.
     */
    method Reconnect(copyClusterId: bool) returns (error: Option<string>)
      modifies this`client
      ensures ParseAuthority(authority).Failure? ==> error.Some? && client == old(client)
      ensures ParseAuthority(authority).Success? ==>
        error.None?
        && client == Some(Client(ParseAuthority(authority).value.0, ParseAuthority(authority).value.1,
             if old(client).Some? && copyClusterId then old(client).value.expectedClusterId else None))
    {
      var hostPort := ParseAuthority(authority);
      if hostPort.Failure? {
        return Some(hostPort.error);
      }
      var oldClusterId := if client.Some? && copyClusterId then client.value.expectedClusterId else None;
      client := Some(Client(hostPort.value.0, hostPort.value.1, oldClusterId));
      error := None;
    }
  }

  // ---------------------------------------------------------------------------
  // EtcdWatcher: the watch index

  /** The index to wait on after an event: one past the larger of the current index and the event's. */
  function NextIndex(next: int, modifiedIndex: int): (n: int)
    ensures n > next && n > modifiedIndex
    ensures n == next + 1 || n == modifiedIndex + 1
  {
    (if next >= modifiedIndex then next else modifiedIndex) + 1
  }

  /** The index after a run of events. */
  function NextIndexAfter(next: int, modifiedIndexes: seq<int>): int
    decreases |modifiedIndexes|
  {
    if |modifiedIndexes| == 0 then next
    else NextIndexAfter(NextIndex(next, modifiedIndexes[0]), modifiedIndexes[1..])
  }

  /** After any non-empty run of events the index has grown and lies past every event seen. */
  lemma {:induction false} NextIndexPassesEvents(next: int, modifiedIndexes: seq<int>)
    ensures |modifiedIndexes| > 0 ==> NextIndexAfter(next, modifiedIndexes) >= next + |modifiedIndexes|
    ensures forall i :: 0 <= i < |modifiedIndexes| ==> NextIndexAfter(next, modifiedIndexes) > modifiedIndexes[i]
    ensures NextIndexAfter(next, modifiedIndexes) >= next
    decreases |modifiedIndexes|
  {
    if |modifiedIndexes| > 0 {
      var n1 := NextIndex(next, modifiedIndexes[0]);
      NextIndexPassesEvents(n1, modifiedIndexes[1..]);
      forall i | 1 <= i < |modifiedIndexes| ensures modifiedIndexes[i] == modifiedIndexes[1..][i - 1] {}
    }
  }

  /** What one read of the watch can give. */
  datatype ReadOutcome =
    | Response(modifiedIndex: int)
    | ReadTimedOut        // connection failed because the read timed out
    | ConnectionFailed    // any other connection failure
    | OutOfSync           // cluster id changed or the event index was cleared
    | OtherEtcdError
    | Unexpected          // any other exception, re-raised as is

  /** How `wait_for_etcd_event` ends. */
  datatype WaitResult = Event(modifiedIndex: int) | ResyncRequired | Raised | NoResponseYet

  /** The reads after which the poll loop simply reconnects and tries again. */
  predicate Retried(o: ReadOutcome)
  {
    o.ReadTimedOut? || o.ConnectionFailed?
  }

  /** How the poll ends on a given sequence of polls, when no resync was requested. */
  function PollOutcome(polls: seq<ReadOutcome>): (r: WaitResult)
    ensures r.NoResponseYet? <==> forall i :: 0 <= i < |polls| ==> Retried(polls[i])
  {
    if |polls| == 0 then NoResponseYet
    else match polls[0]
      case Response(m) => Event(m)
      case ReadTimedOut => PollOutcome(polls[1..])
      case ConnectionFailed => PollOutcome(polls[1..])
      case OutOfSync => ResyncRequired
      case OtherEtcdError => ResyncRequired
      case Unexpected => Raised
  }

  /** Number of reconnects the poll makes on a given sequence of polls. */
  function PollReconnects(polls: seq<ReadOutcome>): nat
  {
    if |polls| == 0 then 0
    else match polls[0]
      case Response(_) => 0
      case ReadTimedOut => 1 + PollReconnects(polls[1..])
      case ConnectionFailed => 1 + PollReconnects(polls[1..])
      case OutOfSync => 0
      case OtherEtcdError => 1
      case Unexpected => 0
  }

  /** `EtcdWatcher`: the index bookkeeping of the watch loop. */
  class Watcher {
    var nextEtcdIndex: Option<int>
    var resyncAfterCurrentPoll: bool
    var reconnects: nat

    constructor ()
      ensures nextEtcdIndex.None? && !resyncAfterCurrentPoll && reconnects == 0
    {
      nextEtcdIndex := None;
      resyncAfterCurrentPoll := false;
      reconnects := 0;
    }

    /** `load_initial_dump`: polling resumes one past the snapshot's index. */
    method LoadInitialDump(etcdIndex: int)
      modifies this`nextEtcdIndex
      ensures nextEtcdIndex == Some(etcdIndex + 1)
    {
      nextEtcdIndex := Some(etcdIndex + 1);
    }

    /**
     * `wait_for_etcd_event` over the reads the poll loop makes, in order. A
     * requested resync ends the wait before any read; an event moves the index
     * past both the old index and the event's own.
     */
    method WaitForEtcdEvent(polls: seq<ReadOutcome>) returns (r: WaitResult)
      requires nextEtcdIndex.Some?
      modifies this`nextEtcdIndex, this`resyncAfterCurrentPoll, this`reconnects
      ensures !resyncAfterCurrentPoll
      ensures old(resyncAfterCurrentPoll) ==> r == ResyncRequired && unchanged(this`nextEtcdIndex, this`reconnects)
      ensures !old(resyncAfterCurrentPoll) ==> r == PollOutcome(polls) && reconnects == old(reconnects) + PollReconnects(polls)
      ensures r.Event? && !old(resyncAfterCurrentPoll) ==>
        nextEtcdIndex == Some(NextIndex(old(nextEtcdIndex.value), r.modifiedIndex))
      ensures !r.Event? ==> nextEtcdIndex == old(nextEtcdIndex)
    {
      var i := 0;
      while true
        invariant 0 <= i <= |polls|
        invariant !old(resyncAfterCurrentPoll) ==> forall k :: 0 <= k < i ==> Retried(polls[k])
        invariant !old(resyncAfterCurrentPoll) ==> PollOutcome(polls) == PollOutcome(polls[i..])
        invariant !old(resyncAfterCurrentPoll) ==> old(reconnects) + PollReconnects(polls) == reconnects + PollReconnects(polls[i..])
        invariant i > 0 ==> !old(resyncAfterCurrentPoll)
        invariant nextEtcdIndex == old(nextEtcdIndex)
        invariant resyncAfterCurrentPoll == (old(resyncAfterCurrentPoll) && i == 0)
        invariant i == 0 ==> reconnects == old(reconnects)
        decreases |polls| - i
      {
        if resyncAfterCurrentPoll {
          resyncAfterCurrentPoll := false;
          return ResyncRequired;
        }
        if i == |polls| {
          return NoResponseYet;
        }
        assert polls[i..][1..] == polls[i + 1..];
        match polls[i] {
          case Response(m) =>
            nextEtcdIndex := Some(NextIndex(nextEtcdIndex.value, m));
            return Event(m);
          case ReadTimedOut =>
            reconnects := reconnects + 1;
          case ConnectionFailed =>
            reconnects := reconnects + 1;
          case OutOfSync =>
            return ResyncRequired;
          case OtherEtcdError =>
            reconnects := reconnects + 1;
            return ResyncRequired;
          case Unexpected =>
            return Raised;
        }
        i := i + 1;
      }
    }
  }

  // ---------------------------------------------------------------------------
  // delete_empty_parents

  /** What the client's directory delete does for one key. */
  datatype DeleteOutcome = Deleted | KeyNotFound | DirNotEmpty | OtherEtcdFailure

  /** The outcomes that end the loop: a non-empty directory or any other etcd error. */
  predicate GivesUp(o: DeleteOutcome)
  {
    o.DirNotEmpty? || o.OtherEtcdFailure?
  }

  /** The keys the loop would try, deepest first, down to (not including) the root. */
  function DeleteOrder(segments: seq<string>, rootLen: nat): (keys: seq<string>)
    requires rootLen <= |segments|
    ensures |keys| == |segments| - rootLen
    ensures forall k :: 0 <= k < |keys| ==> keys[k] == Join(segments[..|segments| - k], "/")
  {
    seq(|segments| - rootLen, k requires 0 <= k < |segments| - rootLen => Join(segments[..|segments| - k], "/"))
  }

  /** The keys actually tried: up to and including the first that gives up, past missing keys. */
  function Attempted(keys: seq<string>, outcome: string -> DeleteOutcome): seq<string>
  {
    if |keys| == 0 then []
    else if GivesUp(outcome(keys[0])) then [keys[0]]
    else [keys[0]] + Attempted(keys[1..], outcome)
  }

  /**
   * The tries are a prefix of the keys, in order; every try but the last
   * deleted its key or found it already gone; and the loop stops early only
   * on a key that gives up.
   */
  lemma {:induction false} AttemptedStopsAtFirstGiveUp(keys: seq<string>, outcome: string -> DeleteOutcome)
    ensures var r := Attempted(keys, outcome);
      |r| <= |keys| && (forall i :: 0 <= i < |r| ==> r[i] == keys[i])
      && (forall i :: 0 <= i < |r| - 1 ==> !GivesUp(outcome(r[i])))
      && (|r| < |keys| ==> |r| > 0 && GivesUp(outcome(r[|r| - 1])))
    decreases |keys|
  {
    if |keys| > 0 && !GivesUp(outcome(keys[0])) {
      AttemptedStopsAtFirstGiveUp(keys[1..], outcome);
      var rest := Attempted(keys[1..], outcome);
      assert forall i :: 1 <= i < |rest| + 1 ==> ([keys[0]] + rest)[i] == rest[i - 1];
    }
  }

  /** Whether `root`'s segments start `path`'s (Python's `path[:len(root)] == root`). */
  predicate StartsWith(path: seq<string>, root: seq<string>)
  {
    |root| <= |path| && path[..|root|] == root
  }

  /** The loop of `delete_empty_parents` over the segments of the child, stopping at the root's depth. */
  method DeleteDown(pathSegments: seq<string>, rootLen: nat, outcome: string -> DeleteOutcome) returns (tried: seq<string>)
    requires rootLen <= |pathSegments|
    ensures tried == Attempted(DeleteOrder(pathSegments, rootLen), outcome)
  {
    ghost var keys := DeleteOrder(pathSegments, rootLen);
    tried := [];
    var numSegToStrip := 0;
    while numSegToStrip < |pathSegments| - rootLen
      invariant 0 <= numSegToStrip <= |pathSegments| - rootLen
      invariant Attempted(keys, outcome) == tried + Attempted(keys[numSegToStrip..], outcome)
    {
      var keyToDelete := Join(pathSegments[..|pathSegments| - numSegToStrip], "/");
      ghost var remaining := keys[numSegToStrip..];
      assert remaining[0] == keyToDelete;
      assert remaining[1..] == keys[numSegToStrip + 1..];
      var o := outcome(keyToDelete);
      tried := tried + [keyToDelete];
      if o.DirNotEmpty? || o.OtherEtcdFailure? {
        assert Attempted(remaining, outcome) == [keyToDelete];
        return;
      }
      assert Attempted(remaining, outcome) == [keyToDelete] + Attempted(remaining[1..], outcome);
      numSegToStrip := numSegToStrip + 1;
    }
    assert keys[numSegToStrip..] == [];
  }

  /**
   * `delete_empty_parents(client, child_dir, root_key)`: Failure("ValueError")
   * unless the root's segments start the child's; otherwise the keys whose
   * deletion was attempted, in order.
   */
  method DeleteEmptyParents(childDir: string, rootKey: string, outcome: string -> DeleteOutcome)
    returns (r: Result<seq<string>, string>)
    ensures r.Failure? <==> !StartsWith(KeyParts(childDir), KeyParts(rootKey))
    ensures r.Success? ==>
      r.value == Attempted(DeleteOrder(KeyParts(childDir), |KeyParts(rootKey)|), outcome)
  {
    var pathSegments := KeyParts(childDir);
    var rootSegments := KeyParts(rootKey);
    if !(|rootSegments| <= |pathSegments| && pathSegments[..|rootSegments|] == rootSegments) {
      return Failure("ValueError");
    }
    var tried := DeleteDown(pathSegments, |rootSegments|, outcome);
    return Success(tried);
  }

  /** A join of non-empty, slash-free segments neither starts nor ends with a slash. */
  lemma {:induction false} JoinNoOuterSlash(parts: seq<string>)
    requires |parts| >= 1 && forall j :: 0 <= j < |parts| ==> '/' !in parts[j] && parts[j] != ""
    ensures var k := Join(parts, "/"); |k| > 0 && k[0] != '/' && k[|k| - 1] != '/'
    decreases |parts|
  {
    if |parts| > 1 {
      JoinNoOuterSlash(parts[1..]);
      var rest := Join(parts[1..], "/");
      var k := Join(parts, "/");
      assert k == parts[0] + "/" + rest;
      assert k[0] == parts[0][0];
      assert k[|k| - 1] == rest[|rest| - 1];
    }
  }

  /** Re-splitting a key built from non-empty, slash-free segments gives back the segments. */
  lemma KeyPartsOfJoin(parts: seq<string>)
    requires |parts| >= 1 && forall j :: 0 <= j < |parts| ==> '/' !in parts[j] && parts[j] != ""
    ensures KeyParts(Join(parts, "/")) == parts
  {
    var k := Join(parts, "/");
    JoinNoOuterSlash(parts);
    StripNoOp(k, {'/'});
    assert "/" == ['/'];
    SplitJoin(parts, '/');
  }

  /** The segments of a key are slash-free. */
  lemma KeyPartsSlashFree(key: string)
    ensures forall j :: 0 <= j < |KeyParts(key)| ==> '/' !in KeyParts(key)[j]
  {
  }

  /**
   * Every key tried lies strictly below the root: when the child has no empty
   * segment, the i-th try has the child's first `|child| - i` segments, more
   * than the root has, so the root itself is never deleted.
   */
  lemma DeleteNeverReachesRoot(path: seq<string>, root: seq<string>, outcome: string -> DeleteOutcome)
    requires StartsWith(path, root)
    requires forall j :: 0 <= j < |path| ==> '/' !in path[j] && path[j] != ""
    ensures var tried := Attempted(DeleteOrder(path, |root|), outcome);
      |tried| <= |path| - |root|
      && forall i :: 0 <= i < |tried| ==> |path| - i > |root| && KeyParts(tried[i]) == path[..|path| - i]
  {
    var tried := Attempted(DeleteOrder(path, |root|), outcome);
    AttemptedStopsAtFirstGiveUp(DeleteOrder(path, |root|), outcome);
    forall i | 0 <= i < |tried| ensures KeyParts(tried[i]) == path[..|path| - i] {
      var prefix := path[..|path| - i];
      assert tried[i] == Join(prefix, "/");
      KeyPartsOfJoin(prefix);
    }
  }
}
