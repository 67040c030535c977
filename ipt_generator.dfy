/**
 * The default iptables generator plugin: the fragments Felix programs into
 * its global chains, its per-endpoint chains and its per-profile chains.
 * Every fragment is an `iptables-restore` line such as
 * "--append felix-INPUT --jump ACCEPT".
 */
module IptGenerator {
  import opened Wrappers
  import opened Strings

  // ---------------------------------------------------------------------
  // Configuration
  // ---------------------------------------------------------------------

  /**
   * The chain names the generator takes from calico/felix/frules.py, which
   * is not part of this model: they are given as values.
   */
  datatype ChainNames = ChainNames(
    felixPrefix: string,
    toPrefix: string,
    fromPrefix: string,
    toEndpoint: string,
    fromEndpoint: string,
    prerouting: string,
    postrouting: string,
    input: string,
    forward: string,
    fipDnat: string,
    fipSnat: string)

  /**
   * The global config the plugin stores once in `store_and_validate_config`.
   * `shorten` stands for `futils.uniquely_shorten(s, 16)`, which is not part
   * of this model.
   */
  datatype Config = Config(
    names: ChainNames,
    ifacePrefix: string,
    metadataIp: Option<string>,
    metadataPort: string,
    defaultInputAction: string,
    markAccept: string,
    markNextTier: string,
    shorten: string -> string)

  /** `IFACE_MATCH`: the interface prefix with iptables' wildcard. */
  function IfaceMatch(cfg: Config): string
  {
    cfg.ifacePrefix + "+"
  }

  // ---------------------------------------------------------------------
  // drop_rules
  // ---------------------------------------------------------------------

  /** iptables refuses comments longer than this. */
  const MaxCommentLength := 255

  const Space := " "
  const Quote := "\""
  const CommentMatch := "-m comment --comment \""
  const JumpDrop := "--jump DROP"

  /** The comment match for a comment cut to iptables' limit. */
  function CommentArg(comment: string): string
  {
    CommentMatch + Prefix(comment, MaxCommentLength) + Quote
  }

  function CommentSuffix(comment: Option<string>): string
  {
    if comment.Some? then Space + CommentArg(comment.value) else ""
  }

  function SpecInfix(ruleSpec: Option<string>): string
  {
    if ruleSpec.Some? then ruleSpec.value + Space else ""
  }

  /**
   * `drop_rules`: one fragment made of the parts that are not None among the
   * action, the chain, the rule spec, "--jump DROP" and the comment, joined
   * by single spaces.
   */
  function DropRules(action: string, chain: string, ruleSpec: Option<string>, comment: Option<string>): (r: seq<string>)
    ensures |r| == 1
  {
    var commentStr := if comment.Some? then [CommentArg(comment.value)] else [];
    var spec := if ruleSpec.Some? then [ruleSpec.value] else [];
    [Join([action] + ([chain] + (spec + ([JumpDrop] + commentStr))), Space)]
  }

  /** The fragment is the action, the chain, the optional spec, "--jump DROP" and the optional comment, space-separated. */
  lemma DropRulesText(action: string, chain: string, ruleSpec: Option<string>, comment: Option<string>)
    ensures DropRules(action, chain, ruleSpec, comment)[0]
         == action + (Space + (chain + (Space + (SpecInfix(ruleSpec) + (JumpDrop + CommentSuffix(comment))))))
  {
    var commentStr := if comment.Some? then [CommentArg(comment.value)] else [];
    var spec := if ruleSpec.Some? then [ruleSpec.value] else [];
    JoinDropParts(action, chain, spec, JumpDrop, commentStr, Space);
  }

  lemma JoinDropParts(action: string, chain: string, spec: seq<string>, drop: string, commentStr: seq<string>, sp: string)
    requires |spec| <= 1 && |commentStr| <= 1
    ensures Join([action] + ([chain] + (spec + ([drop] + commentStr))), sp)
         == action + (sp + (chain + (sp + ((if |spec| == 1 then spec[0] + sp else [])
            + (drop + (if |commentStr| == 1 then sp + commentStr[0] else []))))))
  {
    var tail := [drop] + commentStr;
    var rest := spec + tail;
    JoinOptionalTail(drop, commentStr, sp);
    JoinOptionalHead(spec, tail, sp);
    JoinFirstTwo(action, chain, rest, sp);
  }

  lemma JoinFirstTwo(action: string, chain: string, rest: seq<string>, sp: string)
    requires |rest| >= 1
    ensures Join([action] + ([chain] + rest), sp) == action + (sp + (chain + (sp + Join(rest, sp))))
  {
    JoinCons(chain, rest, sp);
    JoinCons(action, [chain] + rest, sp);
  }

  lemma JoinOptionalTail(drop: string, commentStr: seq<string>, sp: string)
    requires |commentStr| <= 1
    ensures Join([drop] + commentStr, sp) == drop + (if |commentStr| == 1 then sp + commentStr[0] else [])
  {
    if |commentStr| == 1 {
      JoinCons(drop, commentStr, sp);
    } else {
      assert [drop] + commentStr == [drop];
      assert drop + [] == drop;
    }
  }

  lemma JoinOptionalHead(spec: seq<string>, tail: seq<string>, sp: string)
    requires |spec| <= 1 && |tail| >= 1
    ensures Join(spec + tail, sp) == (if |spec| == 1 then spec[0] + sp else []) + Join(tail, sp)
  {
    if |spec| == 1 {
      assert spec + tail == [spec[0]] + tail;
      JoinCons(spec[0], tail, sp);
    } else {
      assert spec + tail == tail;
    }
  }

  /** Only the first 255 characters of a comment ever reach iptables. */
  lemma DropCommentTruncated(action: string, chain: string, ruleSpec: Option<string>, comment: string, extra: string)
    requires |comment| >= MaxCommentLength
    ensures DropRules(action, chain, ruleSpec, Some(comment + extra)) == DropRules(action, chain, ruleSpec, Some(comment))
  {
    assert Prefix(comment + extra, MaxCommentLength) == Prefix(comment, MaxCommentLength);
  }

  // ---------------------------------------------------------------------
  // _split_port_lists
  // ---------------------------------------------------------------------

  /** At most this many ports go in one multiport match; a range counts twice. */
  const MaxMultiportEntries := 15

  /** A port as the rule gives it: a number or a string such as "1024:6000". */
  datatype Port = PortNumber(n: nat) | PortText(s: string)

  /** `str(port_or_range)`. */
  function PortString(p: Port): string
  {
    match p
    case PortNumber(n) => NatToString(n)
    case PortText(s) => s
  }

  function PortStrings(ports: seq<Port>): (r: seq<string>)
    ensures |r| == |ports|
    ensures forall i :: 0 <= i < |ports| ==> r[i] == PortString(ports[i])
  {
    if |ports| == 0 then [] else [PortString(ports[0])] + PortStrings(ports[1..])
  }

  /** A range ("a:b") takes two multiport entries, a single port one. */
  function EntryWeight(e: string): nat
  {
    if ':' in e then 2 else 1
  }

  function Weight(chunk: seq<string>): nat
  {
    if |chunk| == 0 then 0 else Weight(chunk[..|chunk| - 1]) + EntryWeight(chunk[|chunk| - 1])
  }

  /**
   * The loop of `_split_port_lists` from its state: the chunks closed so far,
   * the open chunk and its weight, and the ports still to place.
   */
  function Chunking(chunks: seq<seq<string>>, chunk: seq<string>, entries: nat, rest: seq<Port>): seq<seq<string>>
    decreases |rest|
  {
    if |rest| == 0 then
      if |chunk| > 0 || |chunks| == 0 then chunks + [chunk] else chunks
    else
      var e := PortString(rest[0]);
      var n := EntryWeight(e);
      if entries + n > MaxMultiportEntries then Chunking(chunks + [chunk], [e], n, rest[1..])
      else Chunking(chunks, chunk + [e], entries + n, rest[1..])
  }

  function PortChunks(ports: seq<Port>): seq<seq<string>>
  {
    Chunking([], [], 0, ports)
  }

  /** `_split_port_lists`: the ports, as strings, cut into chunks that fit one multiport match. */
  method SplitPortLists(ports: seq<Port>) returns (chunks: seq<seq<string>>)
    ensures chunks == PortChunks(ports)
  {
    chunks := [];
    var chunk: seq<string> := [];
    var entries: nat := 0;
    for i := 0 to |ports|
      invariant Chunking(chunks, chunk, entries, ports[i..]) == PortChunks(ports)
    {
      assert ports[i..][1..] == ports[i + 1..];
      var portOrRange := PortString(ports[i]);
      var numEntries := if ':' in portOrRange then 2 else 1;
      assert Chunking(chunks, chunk, entries, ports[i..])
          == if entries + numEntries > MaxMultiportEntries then Chunking(chunks + [chunk], [portOrRange], numEntries, ports[i + 1..])
             else Chunking(chunks, chunk + [portOrRange], entries + numEntries, ports[i + 1..]);
      if entries + numEntries > MaxMultiportEntries {
        chunks := chunks + [chunk];
        chunk := [];
        entries := 0;
        assert chunk + [portOrRange] == [portOrRange];
      }
      chunk := chunk + [portOrRange];
      entries := entries + numEntries;
    }
    if |chunk| > 0 || |chunks| == 0 {
      chunks := chunks + [chunk];
    }
  }

  function Concat(chunks: seq<seq<string>>): seq<string>
  {
    if |chunks| == 0 then [] else Concat(chunks[..|chunks| - 1]) + chunks[|chunks| - 1]
  }

  lemma ConcatAppend(chunks: seq<seq<string>>, c: seq<string>)
    ensures Concat(chunks + [c]) == Concat(chunks) + c
  {
    assert (chunks + [c])[..|chunks|] == chunks;
  }

  /** The loop loses, adds and reorders nothing. */
  lemma {:induction false} ChunkingFlattens(chunks: seq<seq<string>>, chunk: seq<string>, entries: nat, rest: seq<Port>)
    ensures Concat(Chunking(chunks, chunk, entries, rest)) == Concat(chunks) + chunk + PortStrings(rest)
    decreases |rest|
  {
    if |rest| == 0 {
      ConcatAppend(chunks, chunk);
      assert PortStrings(rest) == [];
    } else {
      var e := PortString(rest[0]);
      var n := EntryWeight(e);
      assert PortStrings(rest) == [e] + PortStrings(rest[1..]);
      if entries + n > MaxMultiportEntries {
        ChunkingFlattens(chunks + [chunk], [e], n, rest[1..]);
        ConcatAppend(chunks, chunk);
        SeqAssoc3(Concat(chunks), chunk, [e], PortStrings(rest[1..]));
      } else {
        ChunkingFlattens(chunks, chunk + [e], entries + n, rest[1..]);
        SeqAssoc3(Concat(chunks), chunk, [e], PortStrings(rest[1..]));
      }
    }
  }

  lemma SeqAssoc3(a: seq<string>, b: seq<string>, c: seq<string>, d: seq<string>)
    ensures (a + b) + c + d == a + b + (c + d)
    ensures a + (b + c) + d == a + b + (c + d)
  {
  }

  /** Flattening the chunks gives back the ports, as strings, in their order. */
  lemma SplitPortListsFlattens(ports: seq<Port>)
    ensures Concat(PortChunks(ports)) == PortStrings(ports)
  {
    ChunkingFlattens([], [], 0, ports);
  }

  /**
   * Chunks that are all non-empty and fit one match, and that are cut only
   * when needed: the first entry of each chunk would not have fitted in the
   * one before.
   */
  predicate WellChunked(chunks: seq<seq<string>>)
  {
    (forall i :: 0 <= i < |chunks| ==> |chunks[i]| > 0 && Weight(chunks[i]) <= MaxMultiportEntries)
    && (forall i :: 0 < i < |chunks| ==> CutWhenFull(chunks, i))
  }

  /** The chunk at `i` starts with an entry that would not have fitted in the chunk before it. */
  predicate CutWhenFull(chunks: seq<seq<string>>, i: nat)
    requires 0 < i < |chunks| && |chunks[i]| > 0
  {
    Weight(chunks[i - 1]) + EntryWeight(chunks[i][0]) > MaxMultiportEntries
  }

  /** Closing a chunk that fits and that was cut only when needed keeps the chunks well cut. */
  lemma WellChunkedAppend(chunks: seq<seq<string>>, chunk: seq<string>)
    requires WellChunked(chunks)
    requires |chunk| > 0 && Weight(chunk) <= MaxMultiportEntries
    requires |chunks| > 0 ==> Weight(chunks[|chunks| - 1]) + EntryWeight(chunk[0]) > MaxMultiportEntries
    ensures WellChunked(chunks + [chunk])
  {
    var all := chunks + [chunk];
    forall i | 0 <= i < |all|
      ensures |all[i]| > 0 && Weight(all[i]) <= MaxMultiportEntries
    {
      if i < |chunks| {
        assert all[i] == chunks[i];
      }
    }
    forall i | 0 < i < |all|
      ensures CutWhenFull(all, i)
    {
      assert all[i - 1] == chunks[i - 1];
      if i < |chunks| {
        assert all[i] == chunks[i];
        assert CutWhenFull(chunks, i);
      }
    }
  }

  lemma {:induction false} ChunkingWellChunked(chunks: seq<seq<string>>, chunk: seq<string>, entries: nat, rest: seq<Port>)
    requires WellChunked(chunks)
    requires entries == Weight(chunk) <= MaxMultiportEntries
    requires |chunks| > 0 ==> |chunk| > 0 && Weight(chunks[|chunks| - 1]) + EntryWeight(chunk[0]) > MaxMultiportEntries
    requires |chunk| > 0 || |rest| > 0
    ensures WellChunked(Chunking(chunks, chunk, entries, rest))
    decreases |rest|
  {
    if |rest| == 0 {
      assert |chunk| > 0;
      assert Chunking(chunks, chunk, entries, rest) == chunks + [chunk];
      WellChunkedAppend(chunks, chunk);
    } else {
      var e := PortString(rest[0]);
      var n := EntryWeight(e);
      if entries + n > MaxMultiportEntries {
        assert Chunking(chunks, chunk, entries, rest) == Chunking(chunks + [chunk], [e], n, rest[1..]);
        assert WellChunked(chunks + [chunk]) && (chunks + [chunk])[|chunks|] == chunk by {
          WellChunkedAppend(chunks, chunk);
        }
        assert Weight([e]) == n by {
          assert [e][..0] == [];
        }
        ChunkingWellChunked(chunks + [chunk], [e], n, rest[1..]);
      } else {
        assert Chunking(chunks, chunk, entries, rest) == Chunking(chunks, chunk + [e], entries + n, rest[1..]);
        assert Weight(chunk + [e]) == entries + n by {
          assert (chunk + [e])[..|chunk|] == chunk;
        }
        assert |chunk| > 0 ==> (chunk + [e])[0] == chunk[0];
        ChunkingWellChunked(chunks, chunk + [e], entries + n, rest[1..]);
      }
    }
  }

  /**
   * `_split_port_lists` turns no ports into one empty chunk, and any other
   * list into non-empty chunks of weight at most 15, each cut only when the
   * next entry would not fit.
   */
  lemma SplitPortListsChunks(ports: seq<Port>)
    ensures |ports| == 0 ==> PortChunks(ports) == [[]]
    ensures |ports| > 0 ==> WellChunked(PortChunks(ports))
  {
    if |ports| > 0 {
      ChunkingWellChunked([], [], 0, ports);
    }
  }

  // ---------------------------------------------------------------------
  // Profile chain names
  // ---------------------------------------------------------------------

  /** A profile, or a policy within a tier. */
  datatype ProfileId = ProfileId(id: string) | TieredPolicyId(tier: string, policyId: string)

  function ProfileIdString(p: ProfileId): string
  {
    match p
    case ProfileId(id) => id
    case TieredPolicyId(tier, policyId) => tier + "/" + policyId
  }

  /** `CHAIN_PROFILE_PREFIX`. */
  function ProfilePrefix(cfg: Config): string
  {
    cfg.names.felixPrefix + "p-"
  }

  /**
   * `_profile_to_chain_name`: the profile prefix, the shortened id, a dash
   * and the first letter of the direction.
   */
  function ProfileToChainName(cfg: Config, direction: string, p: ProfileId): (r: string)
    requires |direction| > 0
    ensures |r| > 0 && r[|r| - 1] == direction[0]
  {
    ProfilePrefix(cfg) + cfg.shorten(ProfileIdString(p)) + DirectionSuffix(direction)
  }

  function DirectionSuffix(direction: string): (r: string)
    requires |direction| > 0
    ensures |r| == 2 && r[1] == direction[0]
  {
    "-" + Prefix(direction, 1)
  }

  /** The inbound and outbound chains of one profile never share a name. */
  lemma InboundOutboundDiffer(cfg: Config, p: ProfileId)
    ensures ProfileToChainName(cfg, "inbound", p) != ProfileToChainName(cfg, "outbound", p)
  {
  }

  /** `profile_chain_names`: the two chains of a profile. */
  function ProfileChainNames(cfg: Config, p: ProfileId): (r: set<string>)
    ensures |r| == 2
    ensures ProfileToChainName(cfg, "inbound", p) in r && ProfileToChainName(cfg, "outbound", p) in r
  {
    InboundOutboundDiffer(cfg, p);
    {ProfileToChainName(cfg, "inbound", p), ProfileToChainName(cfg, "outbound", p)}
  }

  lemma MiddleCancels(a: string, x: string, y: string, b: string)
    requires a + x + b == a + y + b
    requires |x| == |y|
    ensures x == y
  {
    assert x == (a + x + b)[|a|..|a| + |x|];
    assert y == (a + y + b)[|a|..|a| + |y|];
  }

  /**
   * Two profiles get the same chain in a direction exactly when
   * `uniquely_shorten` maps their ids to the same string: the prefix and the
   * direction suffix neither merge nor separate names.
   */
  lemma DistinctProfilesDistinctChains(cfg: Config, direction: string, p: ProfileId, q: ProfileId)
    requires |direction| > 0
    ensures ProfileToChainName(cfg, direction, p) == ProfileToChainName(cfg, direction, q)
        <==> cfg.shorten(ProfileIdString(p)) == cfg.shorten(ProfileIdString(q))
  {
    var x := cfg.shorten(ProfileIdString(p));
    var y := cfg.shorten(ProfileIdString(q));
    var tail := DirectionSuffix(direction);
    if ProfileToChainName(cfg, direction, p) == ProfileToChainName(cfg, direction, q) {
      assert ProfilePrefix(cfg) + x + tail == ProfilePrefix(cfg) + y + tail;
      assert |x| == |y|;
      MiddleCancels(ProfilePrefix(cfg), x, y, tail);
    }
  }

  // ---------------------------------------------------------------------
  // _build_to_or_from_chain and endpoint_updates
  // ---------------------------------------------------------------------

  // The fixed text of the endpoint chain's fragments.
  const Append := "--append"
  const AppendPrefix := "--append "
  const SetMarkZero := " --jump MARK --set-mark 0/"
  const TierStartComment := " --match comment --comment \"Start of tier "
  const MatchMarkZero := " --match mark --mark 0/"
  const Jump := " --jump "
  const MatchMark := " --match mark --mark "
  const Slash := "/"
  const ReturnIfPolicyAccepted := " --match comment --comment \"Return if policy accepted\" --jump RETURN"
  const DropIfNoPolicyPassed := " --match comment --comment \"Drop if no policy in tier passed\" --jump DROP"
  const ReturnIfProfileAccepted := " --match comment --comment \"Profile accepted packet\" --jump RETURN"
  const MacMatch := "--match mac ! --mac-source "
  const MacComment := "Incorrect source MAC"
  const NoProfileComment := "Packet did not match any profile (endpoint "
  const CloseParen := ")"

  function ZeroAcceptMark(cfg: Config, chain: string): string
  {
    Format([AppendPrefix, chain, SetMarkZero, cfg.markAccept])
  }

  function MacDrop(chain: string, mac: string): string
  {
    DropRules(Append, chain, Some(MacMatch + mac), Some(MacComment))[0]
  }

  function TierStart(cfg: Config, chain: string, tier: string): string
  {
    Format([AppendPrefix, chain, SetMarkZero, cfg.markNextTier, TierStartComment, tier, Quote])
  }

  function PolicyJump(cfg: Config, chain: string, policyChain: string): string
  {
    Format([AppendPrefix, chain, MatchMarkZero, cfg.markNextTier, Jump, policyChain])
  }

  function PolicyReturn(cfg: Config, chain: string): string
  {
    Format([AppendPrefix, chain, MatchMark, cfg.markAccept, Slash, cfg.markAccept, ReturnIfPolicyAccepted])
  }

  function TierDrop(cfg: Config, chain: string): string
  {
    Format([AppendPrefix, chain, MatchMarkZero, cfg.markNextTier, DropIfNoPolicyPassed])
  }

  function ProfileJump(chain: string, profileChain: string): string
  {
    Format([AppendPrefix, chain, Jump, profileChain])
  }

  function ProfileReturn(cfg: Config, chain: string): string
  {
    Format([AppendPrefix, chain, MatchMark, cfg.markAccept, Slash, cfg.markAccept, ReturnIfProfileAccepted])
  }

  function DefaultDrop(chain: string, endpointId: string): string
  {
    DropRules(Append, chain, None, Some(NoProfileComment + endpointId + CloseParen))[0]
  }

  /** The jump and the return-on-accept for each policy of a tier, in order. */
  function PolicyFragments(cfg: Config, chain: string, direction: string, pols: seq<ProfileId>): (r: seq<string>)
    requires |direction| > 0
    ensures |r| == 2 * |pols|
  {
    if |pols| == 0 then []
    else
      var last := pols[|pols| - 1];
      PolicyFragments(cfg, chain, direction, pols[..|pols| - 1])
      + [PolicyJump(cfg, chain, ProfileToChainName(cfg, direction, last)), PolicyReturn(cfg, chain)]
  }

  /** Fragment `2k` jumps to the `k`th policy's chain, fragment `2k + 1` returns if it accepted. */
  lemma {:induction false} PolicyFragmentsAt(cfg: Config, chain: string, direction: string, pols: seq<ProfileId>, k: nat)
    requires |direction| > 0 && k < |pols|
    ensures PolicyFragments(cfg, chain, direction, pols)[2 * k] == PolicyJump(cfg, chain, ProfileToChainName(cfg, direction, pols[k]))
    ensures PolicyFragments(cfg, chain, direction, pols)[2 * k + 1] == PolicyReturn(cfg, chain)
  {
    if k < |pols| - 1 {
      PolicyFragmentsAt(cfg, chain, direction, pols[..|pols| - 1], k);
    }
  }

  /** The fragments of one tier: zero the next-tier mark, its policies, then drop if none passed. */
  function TierFragment(cfg: Config, chain: string, direction: string, tier: (string, seq<ProfileId>)): (r: seq<string>)
    requires |direction| > 0
    ensures |r| == 2 * |tier.1| + 2
  {
    [TierStart(cfg, chain, tier.0)] + PolicyFragments(cfg, chain, direction, tier.1) + [TierDrop(cfg, chain)]
  }

  function TierFragments(cfg: Config, chain: string, direction: string, tiers: seq<(string, seq<ProfileId>)>): seq<string>
    requires |direction| > 0
  {
    if |tiers| == 0 then []
    else TierFragments(cfg, chain, direction, tiers[..|tiers| - 1]) + TierFragment(cfg, chain, direction, tiers[|tiers| - 1])
  }

  /** The jump and the return-on-accept for each directly referenced profile, in order. */
  function ProfileFragments(cfg: Config, chain: string, direction: string, profiles: seq<ProfileId>): (r: seq<string>)
    requires |direction| > 0
    ensures |r| == 2 * |profiles|
  {
    if |profiles| == 0 then []
    else
      var last := profiles[|profiles| - 1];
      ProfileFragments(cfg, chain, direction, profiles[..|profiles| - 1])
      + [ProfileJump(chain, ProfileToChainName(cfg, direction, last)), ProfileReturn(cfg, chain)]
  }

  /** Fragment `2k` jumps to the `k`th profile's chain, fragment `2k + 1` returns if it accepted. */
  lemma {:induction false} ProfileFragmentsAt(cfg: Config, chain: string, direction: string, profiles: seq<ProfileId>, k: nat)
    requires |direction| > 0 && k < |profiles|
    ensures ProfileFragments(cfg, chain, direction, profiles)[2 * k] == ProfileJump(chain, ProfileToChainName(cfg, direction, profiles[k]))
    ensures ProfileFragments(cfg, chain, direction, profiles)[2 * k + 1] == ProfileReturn(cfg, chain)
  {
    if k < |profiles| - 1 {
      ProfileFragmentsAt(cfg, chain, direction, profiles[..|profiles| - 1], k);
    }
  }

  /** The chains of a sequence of profiles or policies, in one direction. */
  function ChainsOf(cfg: Config, direction: string, ps: seq<ProfileId>): set<string>
    requires |direction| > 0
  {
    if |ps| == 0 then {}
    else ChainsOf(cfg, direction, ps[..|ps| - 1]) + {ProfileToChainName(cfg, direction, ps[|ps| - 1])}
  }

  /** A chain is among the dependencies exactly when one of the ids maps to it. */
  lemma {:induction false} ChainsOfMembers(cfg: Config, direction: string, ps: seq<ProfileId>, x: string)
    requires |direction| > 0
    ensures x in ChainsOf(cfg, direction, ps) <==> exists k :: 0 <= k < |ps| && x == ProfileToChainName(cfg, direction, ps[k])
  {
    if |ps| > 0 {
      var init := ps[..|ps| - 1];
      ChainsOfMembers(cfg, direction, init, x);
      if x in ChainsOf(cfg, direction, init) {
        var k :| 0 <= k < |init| && x == ProfileToChainName(cfg, direction, init[k]);
        assert init[k] == ps[k];
      }
      if exists k :: 0 <= k < |ps| && x == ProfileToChainName(cfg, direction, ps[k]) {
        var k :| 0 <= k < |ps| && x == ProfileToChainName(cfg, direction, ps[k]);
        if k < |init| {
          assert init[k] == ps[k];
        }
      }
    }
  }

  function TierChains(cfg: Config, direction: string, tiers: seq<(string, seq<ProfileId>)>): set<string>
    requires |direction| > 0
  {
    if |tiers| == 0 then {}
    else TierChains(cfg, direction, tiers[..|tiers| - 1]) + ChainsOf(cfg, direction, tiers[|tiers| - 1].1)
  }

  lemma TierStep(cfg: Config, chain: string, direction: string, tiers: seq<(string, seq<ProfileId>)>, t: nat)
    requires |direction| > 0 && t < |tiers|
    ensures TierFragments(cfg, chain, direction, tiers[..t + 1])
         == TierFragments(cfg, chain, direction, tiers[..t]) + TierFragment(cfg, chain, direction, tiers[t])
    ensures TierChains(cfg, direction, tiers[..t + 1])
         == TierChains(cfg, direction, tiers[..t]) + ChainsOf(cfg, direction, tiers[t].1)
  {
    assert tiers[..t + 1][..t] == tiers[..t];
  }

  lemma TierAppend(head: seq<string>, done: seq<string>, start: string, pols: seq<string>, drop: string)
    ensures head + done + [start] + pols + [drop] == head + (done + ([start] + pols + [drop]))
  {
  }

  lemma PolicyStep(cfg: Config, chain: string, direction: string, pols: seq<ProfileId>, k: nat)
    requires |direction| > 0 && k < |pols|
    ensures PolicyFragments(cfg, chain, direction, pols[..k + 1])
         == PolicyFragments(cfg, chain, direction, pols[..k])
            + [PolicyJump(cfg, chain, ProfileToChainName(cfg, direction, pols[k])), PolicyReturn(cfg, chain)]
    ensures ChainsOf(cfg, direction, pols[..k + 1]) == ChainsOf(cfg, direction, pols[..k]) + {ProfileToChainName(cfg, direction, pols[k])}
  {
    assert pols[..k + 1][..k] == pols[..k];
  }

  lemma ProfileStep(cfg: Config, chain: string, direction: string, profiles: seq<ProfileId>, k: nat)
    requires |direction| > 0 && k < |profiles|
    ensures ProfileFragments(cfg, chain, direction, profiles[..k + 1])
         == ProfileFragments(cfg, chain, direction, profiles[..k])
            + [ProfileJump(chain, ProfileToChainName(cfg, direction, profiles[k])), ProfileReturn(cfg, chain)]
    ensures ChainsOf(cfg, direction, profiles[..k + 1]) == ChainsOf(cfg, direction, profiles[..k]) + {ProfileToChainName(cfg, direction, profiles[k])}
  {
    assert profiles[..k + 1][..k] == profiles[..k];
  }

  /** `if expected_mac:` */
  predicate HasMac(mac: Option<string>)
  {
    mac.Some? && mac.value != ""
  }

  /** The fragments `_build_to_or_from_chain` returns. */
  function ToOrFromChain(cfg: Config, endpointId: string, profiles: seq<ProfileId>, tiers: seq<(string, seq<ProfileId>)>,
                         chain: string, direction: string, mac: Option<string>): seq<string>
    requires |direction| > 0
  {
    [ZeroAcceptMark(cfg, chain)]
    + (if HasMac(mac) then [MacDrop(chain, mac.value)] else [])
    + TierFragments(cfg, chain, direction, tiers)
    + ProfileFragments(cfg, chain, direction, profiles)
    + [DefaultDrop(chain, endpointId)]
  }

  /** The chains `_build_to_or_from_chain` reports its chain as jumping to. */
  function ToOrFromDeps(cfg: Config, profiles: seq<ProfileId>, tiers: seq<(string, seq<ProfileId>)>, direction: string): set<string>
    requires |direction| > 0
  {
    TierChains(cfg, direction, tiers) + ChainsOf(cfg, direction, profiles)
  }

  /**
   * `_build_to_or_from_chain`: zero the accept mark, police the source MAC
   * if one is given, run each tier, jump to each profile, then drop.
   */
  method BuildToOrFromChain(cfg: Config, endpointId: string, profiles: seq<ProfileId>, tiers: seq<(string, seq<ProfileId>)>,
                            chainName: string, direction: string, mac: Option<string>)
    returns (chain: seq<string>, deps: set<string>)
    requires |direction| > 0
    ensures chain == ToOrFromChain(cfg, endpointId, profiles, tiers, chainName, direction, mac)
    ensures deps == ToOrFromDeps(cfg, profiles, tiers, direction)
  {
    chain := [ZeroAcceptMark(cfg, chainName)];
    if HasMac(mac) {
      chain := chain + [MacDrop(chainName, mac.value)];
    }
    ghost var head := chain;
    assert head == [ZeroAcceptMark(cfg, chainName)] + (if HasMac(mac) then [MacDrop(chainName, mac.value)] else []);
    deps := {};
    for t := 0 to |tiers|
      invariant chain == head + TierFragments(cfg, chainName, direction, tiers[..t])
      invariant deps == TierChains(cfg, direction, tiers[..t])
    {
      var (tier, polIds) := tiers[t];
      ghost var depsBefore := deps;
      chain := chain + [TierStart(cfg, chainName, tier)];
      ghost var start := chain;
      for k := 0 to |polIds|
        invariant chain == start + PolicyFragments(cfg, chainName, direction, polIds[..k])
        invariant deps == depsBefore + ChainsOf(cfg, direction, polIds[..k])
      {
        var policyChain := ProfileToChainName(cfg, direction, polIds[k]);
        deps := deps + {policyChain};
        chain := chain + [PolicyJump(cfg, chainName, policyChain), PolicyReturn(cfg, chainName)];
        assert chain == start + PolicyFragments(cfg, chainName, direction, polIds[..k + 1]) by {
          PolicyStep(cfg, chainName, direction, polIds, k);
          SeqAssoc(start, PolicyFragments(cfg, chainName, direction, polIds[..k]), [PolicyJump(cfg, chainName, policyChain), PolicyReturn(cfg, chainName)]);
        }
        assert deps == depsBefore + ChainsOf(cfg, direction, polIds[..k + 1]) by {
          PolicyStep(cfg, chainName, direction, polIds, k);
        }
      }
      assert polIds[..|polIds|] == polIds;
      chain := chain + [TierDrop(cfg, chainName)];
      assert chain == head + TierFragments(cfg, chainName, direction, tiers[..t + 1]) by {
        TierStep(cfg, chainName, direction, tiers, t);
        TierAppend(head, TierFragments(cfg, chainName, direction, tiers[..t]), TierStart(cfg, chainName, tier),
                   PolicyFragments(cfg, chainName, direction, polIds), TierDrop(cfg, chainName));
      }
      assert deps == TierChains(cfg, direction, tiers[..t + 1]) by {
        TierStep(cfg, chainName, direction, tiers, t);
      }
    }
    assert tiers[..|tiers|] == tiers;
    ghost var afterTiers := chain;
    ghost var depsAfterTiers := deps;
    for k := 0 to |profiles|
      invariant chain == afterTiers + ProfileFragments(cfg, chainName, direction, profiles[..k])
      invariant deps == depsAfterTiers + ChainsOf(cfg, direction, profiles[..k])
    {
      var profileChain := ProfileToChainName(cfg, direction, profiles[k]);
      deps := deps + {profileChain};
      chain := chain + [ProfileJump(chainName, profileChain), ProfileReturn(cfg, chainName)];
      assert chain == afterTiers + ProfileFragments(cfg, chainName, direction, profiles[..k + 1]) by {
        ProfileStep(cfg, chainName, direction, profiles, k);
        SeqAssoc(afterTiers, ProfileFragments(cfg, chainName, direction, profiles[..k]), [ProfileJump(chainName, profileChain), ProfileReturn(cfg, chainName)]);
      }
      assert deps == depsAfterTiers + ChainsOf(cfg, direction, profiles[..k + 1]) by {
        ProfileStep(cfg, chainName, direction, profiles, k);
      }
    }
    assert profiles[..|profiles|] == profiles;
    chain := chain + [DefaultDrop(chainName, endpointId)];
    assert chain == head + TierFragments(cfg, chainName, direction, tiers) + ProfileFragments(cfg, chainName, direction, profiles)
                    + [DefaultDrop(chainName, endpointId)];
  }

  /**
   * The ends of an endpoint chain: the mark reset first, the MAC check second
   * when a MAC is expected, the default drop last, with the tiers and two
   * fragments per profile in between.
   */
  lemma ToOrFromChainEnds(cfg: Config, endpointId: string, profiles: seq<ProfileId>, tiers: seq<(string, seq<ProfileId>)>,
                          chain: string, direction: string, mac: Option<string>)
    requires |direction| > 0
    ensures var c := ToOrFromChain(cfg, endpointId, profiles, tiers, chain, direction, mac);
            |c| == (if HasMac(mac) then 3 else 2) + |TierFragments(cfg, chain, direction, tiers)| + 2 * |profiles|
            && c[0] == ZeroAcceptMark(cfg, chain)
            && (HasMac(mac) ==> c[1] == MacDrop(chain, mac.value))
            && c[|c| - 1] == DefaultDrop(chain, endpointId)
  {
  }

  /**
   * After the mark reset, the MAC check and the tiers, the chain jumps to each
   * profile in order, each jump followed by a return if that profile accepted.
   */
  lemma ToOrFromChainProfiles(cfg: Config, endpointId: string, profiles: seq<ProfileId>, tiers: seq<(string, seq<ProfileId>)>,
                              chain: string, direction: string, mac: Option<string>, k: nat)
    requires |direction| > 0 && k < |profiles|
    ensures var c := ToOrFromChain(cfg, endpointId, profiles, tiers, chain, direction, mac);
            var off := (if HasMac(mac) then 2 else 1) + |TierFragments(cfg, chain, direction, tiers)|;
            c[off + 2 * k] == ProfileJump(chain, ProfileToChainName(cfg, direction, profiles[k]))
            && c[off + 2 * k + 1] == ProfileReturn(cfg, chain)
  {
    var head := [ZeroAcceptMark(cfg, chain)] + (if HasMac(mac) then [MacDrop(chain, mac.value)] else [])
                + TierFragments(cfg, chain, direction, tiers);
    var pf := ProfileFragments(cfg, chain, direction, profiles);
    ProfileFragmentsAt(cfg, chain, direction, profiles, k);
    IndexInMiddle(head, pf, [DefaultDrop(chain, endpointId)], 2 * k);
    IndexInMiddle(head, pf, [DefaultDrop(chain, endpointId)], 2 * k + 1);
  }

  lemma IndexInMiddle(a: seq<string>, b: seq<string>, c: seq<string>, i: nat)
    requires i < |b|
    ensures (a + b + c)[|a| + i] == b[i]
  {
  }

  /** A chain is a dependency of a tier list exactly when some policy of some tier maps to it. */
  lemma {:induction false} TierChainsMembers(cfg: Config, direction: string, tiers: seq<(string, seq<ProfileId>)>, x: string)
    requires |direction| > 0
    ensures x in TierChains(cfg, direction, tiers)
        <==> exists t, k :: 0 <= t < |tiers| && 0 <= k < |tiers[t].1| && x == ProfileToChainName(cfg, direction, tiers[t].1[k])
  {
    if |tiers| > 0 {
      var init := tiers[..|tiers| - 1];
      var last := tiers[|tiers| - 1];
      TierChainsMembers(cfg, direction, init, x);
      ChainsOfMembers(cfg, direction, last.1, x);
      if x in TierChains(cfg, direction, init) {
        var t, k :| 0 <= t < |init| && 0 <= k < |init[t].1| && x == ProfileToChainName(cfg, direction, init[t].1[k]);
        assert init[t] == tiers[t];
      }
      if x in ChainsOf(cfg, direction, last.1) {
        var k :| 0 <= k < |last.1| && x == ProfileToChainName(cfg, direction, last.1[k]);
        assert 0 <= |tiers| - 1 < |tiers| && 0 <= k < |tiers[|tiers| - 1].1|;
      }
      if exists t, k :: 0 <= t < |tiers| && 0 <= k < |tiers[t].1| && x == ProfileToChainName(cfg, direction, tiers[t].1[k]) {
        var t, k :| 0 <= t < |tiers| && 0 <= k < |tiers[t].1| && x == ProfileToChainName(cfg, direction, tiers[t].1[k]);
        if t < |init| {
          assert init[t] == tiers[t];
        }
      }
    }
  }

  /**
   * The dependencies of an endpoint chain are exactly the chains of its
   * profiles and of the policies in its tiers.
   */
  lemma ToOrFromChainDeps(cfg: Config, profiles: seq<ProfileId>, tiers: seq<(string, seq<ProfileId>)>,
                          direction: string, x: string)
    requires |direction| > 0
    ensures x in ToOrFromDeps(cfg, profiles, tiers, direction)
        <==> (exists k :: 0 <= k < |profiles| && x == ProfileToChainName(cfg, direction, profiles[k]))
             || (exists t, k :: 0 <= t < |tiers| && 0 <= k < |tiers[t].1| && x == ProfileToChainName(cfg, direction, tiers[t].1[k]))
  {
    TierChainsMembers(cfg, direction, tiers, x);
    ChainsOfMembers(cfg, direction, profiles, x);
  }

  /** `endpoint_chain_names`: the to-endpoint and from-endpoint chains. */
  function EndpointChainNames(cfg: Config, suffix: string): (r: set<string>)
    ensures cfg.names.toPrefix != cfg.names.fromPrefix ==> |r| == 2
  {
    assert cfg.names.toPrefix != cfg.names.fromPrefix ==> cfg.names.toPrefix + suffix != cfg.names.fromPrefix + suffix by {
      if cfg.names.toPrefix != cfg.names.fromPrefix {
        PrefixesKeepApart(cfg.names.toPrefix, cfg.names.fromPrefix, suffix);
      }
    }
    {cfg.names.toPrefix + suffix, cfg.names.fromPrefix + suffix}
  }

  lemma PrefixesKeepApart(p: string, q: string, suffix: string)
    requires p != q
    ensures p + suffix != q + suffix
  {
    if |p| == |q| {
      assert (p + suffix)[..|p|] == p;
      assert (q + suffix)[..|q|] == q;
    } else {
      assert |p + suffix| != |q + suffix|;
    }
  }

  /**
   * `endpoint_updates`: the to-endpoint chain (inbound, no MAC check) and
   * the from-endpoint chain (outbound, checking the MAC), keyed by name,
   * with the chains each one jumps to.
   */
  method EndpointUpdates(cfg: Config, endpointId: string, suffix: string, mac: Option<string>,
                         profiles: seq<ProfileId>, tiers: seq<(string, seq<ProfileId>)>)
    returns (updates: map<string, seq<string>>, deps: map<string, set<string>>)
    ensures updates.Keys == EndpointChainNames(cfg, suffix) && deps.Keys == updates.Keys
    ensures var fromName := cfg.names.fromPrefix + suffix;
            updates[fromName] == ToOrFromChain(cfg, endpointId, profiles, tiers, fromName, "outbound", mac)
            && deps[fromName] == ToOrFromDeps(cfg, profiles, tiers, "outbound")
    ensures var toName := cfg.names.toPrefix + suffix;
            cfg.names.toPrefix != cfg.names.fromPrefix ==>
              updates[toName] == ToOrFromChain(cfg, endpointId, profiles, tiers, toName, "inbound", None)
              && deps[toName] == ToOrFromDeps(cfg, profiles, tiers, "inbound")
  {
    var toChainName := cfg.names.toPrefix + suffix;
    var fromChainName := cfg.names.fromPrefix + suffix;
    var toChain, toDeps := BuildToOrFromChain(cfg, endpointId, profiles, tiers, toChainName, "inbound", None);
    var fromChain, fromDeps := BuildToOrFromChain(cfg, endpointId, profiles, tiers, fromChainName, "outbound", mac);
    updates := map[toChainName := toChain, fromChainName := fromChain];
    deps := map[toChainName := toDeps, fromChainName := fromDeps];
    if cfg.names.toPrefix != cfg.names.fromPrefix {
      PrefixesKeepApart(cfg.names.toPrefix, cfg.names.fromPrefix, suffix);
    }
  }

  /** Only the from-endpoint chain polices the source MAC: the to-endpoint chain never has the MAC check. */
  lemma ToEndpointChainHasNoMacCheck(cfg: Config, endpointId: string, profiles: seq<ProfileId>,
                                     tiers: seq<(string, seq<ProfileId>)>, toName: string)
    ensures var c := ToOrFromChain(cfg, endpointId, profiles, tiers, toName, "inbound", None);
            forall k :: 0 <= k < |c| ==> !MacChecked(toName, c[k])
  {
    MacCheckOnlyWithMac(cfg, endpointId, profiles, tiers, toName, "inbound", None);
  }

  // ---------------------------------------------------------------------
  // The multiport check on one chunk
  // ---------------------------------------------------------------------

  /** How many times `ch` occurs in `s` (`s.count(ch)`). */
  function Count(s: string, ch: char): nat
  {
    multiset(s)[ch]
  }

  /** The number of multiport entries the rule translator computes for a port list. */
  function MultiportEntries(ports: string): nat
  {
    Count(ports, ',') + Count(ports, ':') + 1
  }

  /** A port entry the multiport check counts the same way as the splitter. */
  predicate SimpleEntry(e: string)
  {
    ',' !in e && Count(e, ':') <= 1
  }

  lemma {:induction false} WeightCons(e: string, rest: seq<string>)
    ensures Weight([e] + rest) == EntryWeight(e) + Weight(rest)
    decreases |rest|
  {
    if |rest| > 0 {
      var init := rest[..|rest| - 1];
      assert ([e] + rest)[..|rest|] == [e] + init;
      WeightCons(e, init);
    } else {
      assert [e] + rest == [e];
      assert Weight([e][..0]) == 0;
    }
  }

  /**
   * For simple entries, the count the translator checks against 15 on the
   * comma-joined chunk is exactly the chunk's weight in the splitter.
   */
  lemma {:induction false} MultiportEntriesIsWeight(chunk: seq<string>)
    requires |chunk| > 0
    requires forall i :: 0 <= i < |chunk| ==> SimpleEntry(chunk[i])
    ensures MultiportEntries(Join(chunk, ",")) == Weight(chunk)
    decreases |chunk|
  {
    var e := chunk[0];
    assert ':' in e <==> Count(e, ':') > 0;
    if |chunk| == 1 {
      assert Join(chunk, ",") == e;
      assert chunk[..0] == [];
    } else {
      var rest := chunk[1..];
      assert chunk == [e] + rest;
      MultiportEntriesIsWeight(rest);
      JoinCons(e, rest, ",");
      assert multiset(e + "," + Join(rest, ",")) == multiset(e) + multiset(",") + multiset(Join(rest, ","));
      WeightCons(e, rest);
    }
  }

  /** Port entries the generator can be given: numbers, or text with no comma and at most one colon. */
  predicate SimplePorts(ports: seq<Port>)
  {
    forall i :: 0 <= i < |ports| ==> ports[i].PortText? ==> SimpleEntry(ports[i].s)
  }

  lemma PortStringSimple(p: Port)
    requires p.PortText? ==> SimpleEntry(p.s)
    ensures SimpleEntry(PortString(p))
  {
    if p.PortNumber? {
      var r := NatToString(p.n);
      assert ',' !in r;
      assert ':' !in r;
    }
  }

  lemma {:induction false} InConcat(chunks: seq<seq<string>>, i: nat, j: nat)
    requires i < |chunks| && j < |chunks[i]|
    ensures chunks[i][j] in Concat(chunks)
    decreases |chunks|
  {
    var n := |chunks| - 1;
    ConcatAppend(chunks[..n], chunks[n]);
    assert chunks[..n] + [chunks[n]] == chunks;
    if i < n {
      InConcat(chunks[..n], i, j);
    }
  }

  /**
   * Every chunk the splitter produces from ordinary ports passes the
   * translator's "at most 15 entries" check: the split and the check agree.
   */
  lemma SplitChunksPassMultiportCheck(ports: seq<Port>, i: nat)
    requires SimplePorts(ports)
    requires i < |PortChunks(ports)| && |PortChunks(ports)[i]| > 0
    ensures MultiportEntries(Join(PortChunks(ports)[i], ",")) <= MaxMultiportEntries
  {
    var chunks := PortChunks(ports);
    var chunk := chunks[i];
    SplitPortListsChunks(ports);
    SplitPortListsFlattens(ports);
    forall j | 0 <= j < |chunk| ensures SimpleEntry(chunk[j]) {
      InConcat(chunks, i, j);
      var k :| 0 <= k < |ports| && PortStrings(ports)[k] == chunk[j];
      PortStringSimple(ports[k]);
    }
    MultiportEntriesIsWeight(chunk);
  }

  // ---------------------------------------------------------------------
  // _rule_to_iptables_fragments_inner
  // ---------------------------------------------------------------------

  /** A rule field that the rule dict may hold as an int, a string or None. */
  datatype Value = VInt(i: int) | VStr(s: string) | VNull

  /**
   * A profile rule. An absent key is `None` (for the lists, empty); the
   * selectors are given by the text that keys `selector_to_ipset`.
   */
  datatype Rule = Rule(
    protocol: Option<string>,
    srcNet: Option<string>,
    dstNet: Option<string>,
    srcTag: Option<string>,
    dstTag: Option<string>,
    srcSelector: Option<string>,
    dstSelector: Option<string>,
    srcPorts: seq<Port>,
    dstPorts: seq<Port>,
    icmpType: Option<Value>,
    icmpCode: Option<Value>,
    action: Option<string>,
    ipVersion: Option<int>)

  /** Why the translator gave up on a rule; each is an exception the caller catches. */
  datatype RuleError =
    | MissingIpset(key: string)
    | PortsNeedTcpOrUdp
    | TooManyPorts
    | UnsupportedIcmpType
    | IcmpNotInt
    | IcmpV6NeedsIcmpV6Protocol
    | UnknownAction(action: string)

  datatype Dirn = Src | Dst

  function DirnName(d: Dirn): string
  {
    match d
    case Src => "src"
    case Dst => "dst"
  }

  /** The long form of the direction, as in `--source`. */
  function DirectionName(d: Dirn): string
  {
    match d
    case Src => "source"
    case Dst => "destination"
  }

  const DashDash := "--"
  const ProtocolFlag := "--protocol"
  const MatchSet := "--match set"
  const MatchSetFlag := "--match-set"
  const MatchMultiport := "--match multiport"
  const PortsFlagSuffix := "-ports"
  const MatchIcmp := "--match icmp"
  const IcmpTypeFlag := "--icmp-type"
  const MatchIcmp6 := "--match icmp6"
  const Icmp6TypeFlag := "--icmpv6-type"
  const JumpFlag := "--jump"
  const SetMarkTarget := "MARK --set-mark "
  const JumpReturn := " --jump RETURN"
  const Drop := "DROP"

  /** Python's `str(i)` for any integer. */
  function IntString(i: int): string
  {
    if i < 0 then "-" + NatToString(-i) else NatToString(i)
  }

  /** `if proto:` — the protocol match when the rule names one. */
  function ProtocolPart(rule: Rule): seq<string>
  {
    if rule.protocol.Some? && rule.protocol.value != "" then [ProtocolFlag, rule.protocol.value] else []
  }

  function Net(rule: Rule, d: Dirn): Option<string>
  {
    match d
    case Src => rule.srcNet
    case Dst => rule.dstNet
  }

  function Tag(rule: Rule, d: Dirn): Option<string>
  {
    match d
    case Src => rule.srcTag
    case Dst => rule.dstTag
  }

  function Selector(rule: Rule, d: Dirn): Option<string>
  {
    match d
    case Src => rule.srcSelector
    case Dst => rule.dstSelector
  }

  /** The CIDR match, only when the CIDR's family is the chain's IP version. */
  function NetPart(net: Option<string>, d: Dirn, ipVersion: int): seq<string>
  {
    if net.Some? && ((':' in net.value) == (ipVersion == 6)) then [DashDash + DirectionName(d), net.value] else []
  }

  /** The ipset match for a tag or a selector; a key with no ipset is an error. */
  function IpsetPart(key: Option<string>, ipsets: map<string, string>, d: Dirn): (r: Result<seq<string>, RuleError>)
    ensures r.Failure? <==> key.Some? && key.value !in ipsets
  {
    if key.None? then Success([])
    else if key.value !in ipsets then Failure(MissingIpset(key.value))
    else Success([MatchSet, MatchSetFlag, ipsets[key.value], DirnName(d)])
  }

  /** The multiport match for a non-empty list of ports. */
  function PortsPart(protocol: Option<string>, ports: seq<string>, d: Dirn): (r: Result<seq<string>, RuleError>)
    ensures r.Failure? <==> |ports| > 0 && ((protocol != Some("tcp") && protocol != Some("udp"))
                                            || MultiportEntries(Join(ports, ",")) > MaxMultiportEntries)
  {
    if |ports| == 0 then Success([])
    else if protocol != Some("tcp") && protocol != Some("udp") then Failure(PortsNeedTcpOrUdp)
    else
      var joined := Join(ports, ",");
      if MultiportEntries(joined) > MaxMultiportEntries then Failure(TooManyPorts)
      else Success([MatchMultiport, DashDash + DirectionName(d) + PortsFlagSuffix, joined])
  }

  /** The matches for one direction: network, tag, selector, then ports. */
  function DirectionPart(rule: Rule, d: Dirn, ports: seq<string>, ipVersion: int,
                         tagToIpset: map<string, string>, selectorToIpset: map<string, string>): Result<seq<string>, RuleError>
  {
    var net := NetPart(Net(rule, d), d, ipVersion);
    match IpsetPart(Tag(rule, d), tagToIpset, d)
    case Failure(e) => Failure(e)
    case Success(tag) =>
      match IpsetPart(Selector(rule, d), selectorToIpset, d)
      case Failure(e) => Failure(e)
      case Success(sel) =>
        match PortsPart(rule.protocol, ports, d)
        case Failure(e) => Failure(e)
        case Success(portMatch) => Success(net + tag + sel + portMatch)
  }

  /** The ICMP type (and code) match. */
  function IcmpPart(rule: Rule, ipVersion: int): Result<seq<string>, RuleError>
  {
    match rule.icmpType
    case None => Success([])
    case Some(VNull) => Success([])
    case Some(t) =>
      if t == VInt(255) then Failure(UnsupportedIcmpType)
      else if !t.VInt? then Failure(IcmpNotInt)
      else
        var filter :=
          match rule.icmpCode
          case None => Success(IntString(t.i))
          case Some(VInt(code)) => Success(IntString(t.i) + Slash + IntString(code))
          case Some(_) => Failure(IcmpNotInt);
        match filter
        case Failure(e) => Failure(e)
        case Success(f) =>
          if rule.protocol == Some("icmp") && ipVersion == 4 then Success([MatchIcmp, IcmpTypeFlag, f])
          else if ipVersion == 6 then
            if rule.protocol != Some("icmpv6") then Failure(IcmpV6NeedsIcmpV6Protocol)
            else Success([MatchIcmp6, Icmp6TypeFlag, f])
          else Success([])
  }

  /** The whole match part of a rule, in the order the translator appends it. */
  function RuleSpec(rule: Rule, srcPorts: seq<string>, dstPorts: seq<string>, ipVersion: int,
                    tagToIpset: map<string, string>, selectorToIpset: map<string, string>): Result<seq<string>, RuleError>
  {
    match DirectionPart(rule, Src, srcPorts, ipVersion, tagToIpset, selectorToIpset)
    case Failure(e) => Failure(e)
    case Success(src) =>
      match DirectionPart(rule, Dst, dstPorts, ipVersion, tagToIpset, selectorToIpset)
      case Failure(e) => Failure(e)
      case Success(dst) =>
        match IcmpPart(rule, ipVersion)
        case Failure(e) => Failure(e)
        case Success(icmp) => Success(ProtocolPart(rule) + src + dst + icmp)
  }

  /** `action = rule.get("action", "allow")`. */
  function Action(rule: Rule): string
  {
    if rule.action.Some? then rule.action.value else "allow"
  }

  /** The rule that returns a packet a next-tier rule marked. */
  function NextTierReturn(cfg: Config, chain: string): string
  {
    Format([AppendPrefix, chain, MatchMark, cfg.markNextTier, Slash, cfg.markNextTier, JumpReturn])
  }

  /** The jump target for the action, and the extra rule `next-tier` needs. */
  function Target(cfg: Config, chain: string, action: string, onAllow: string, onDeny: string)
    : (r: Result<(string, Option<string>), RuleError>)
    ensures r.Failure? <==> action !in {"allow", "deny", "next-tier"}
    ensures r.Success? ==> (r.value.1.Some? <==> action == "next-tier")
  {
    if action == "allow" then Success((onAllow, None))
    else if action == "deny" then Success((onDeny, None))
    else if action == "next-tier" then
      Success((SetMarkTarget + cfg.markNextTier + Slash + cfg.markNextTier, Some(NextTierReturn(cfg, chain))))
    else Failure(UnknownAction(action))
  }

  /** `" ".join(["--append", chain_name, rule_spec_str, "--jump", ipt_target])`. */
  function AppendRule(chain: string, spec: string, target: string): string
  {
    Join([Append, chain, spec, JumpFlag, target], Space)
  }

  /**
   * `_rule_to_iptables_fragments_inner`: the fragments for one rule whose
   * port lists each fit one multiport match.
   */
  function RuleFragmentsInner(cfg: Config, chain: string, rule: Rule, srcPorts: seq<string>, dstPorts: seq<string>,
                              ipVersion: int, tagToIpset: map<string, string>, selectorToIpset: map<string, string>,
                              onAllow: string, onDeny: string): Result<seq<string>, RuleError>
  {
    match RuleSpec(rule, srcPorts, dstPorts, ipVersion, tagToIpset, selectorToIpset)
    case Failure(e) => Failure(e)
    case Success(spec) =>
      match Target(cfg, chain, Action(rule), onAllow, onDeny)
      case Failure(e) => Failure(e)
      case Success((target, extra)) =>
        var specStr := Join(spec, Space);
        if target == Drop then Success(DropRules(Append, chain, Some(specStr), None))
        else Success([AppendRule(chain, specStr, target)] + (if extra.Some? then [extra.value] else []))
  }

  /** `_rule_to_iptables_fragments_inner` never marks-and-returns except for `next-tier`, and emits one or two fragments. */
  lemma InnerFragmentCount(cfg: Config, chain: string, rule: Rule, srcPorts: seq<string>, dstPorts: seq<string>,
                           ipVersion: int, tagToIpset: map<string, string>, selectorToIpset: map<string, string>,
                           onAllow: string, onDeny: string)
    requires RuleFragmentsInner(cfg, chain, rule, srcPorts, dstPorts, ipVersion, tagToIpset, selectorToIpset, onAllow, onDeny).Success?
    ensures var f := RuleFragmentsInner(cfg, chain, rule, srcPorts, dstPorts, ipVersion, tagToIpset, selectorToIpset, onAllow, onDeny).value;
            (|f| == 1 || |f| == 2)
            && (|f| == 2 <==> Action(rule) == "next-tier")
            && (|f| == 2 ==> f[1] == NextTierReturn(cfg, chain))
  {
    if Action(rule) == "next-tier" {
      var markTarget := SetMarkTarget + cfg.markNextTier + Slash + cfg.markNextTier;
      assert |markTarget| > |Drop|;
    }
  }

  /** The DROP target goes through `drop_rules`, which writes the very same text as the generic path. */
  lemma DropTargetSameText(chain: string, spec: string)
    ensures DropRules(Append, chain, Some(spec), None)[0] == AppendRule(chain, spec, Drop)
  {
    DropRulesText(Append, chain, Some(spec), None);
    JoinCons(Append, [chain, spec, JumpFlag, Drop], Space);
    JoinCons(chain, [spec, JumpFlag, Drop], Space);
    JoinCons(spec, [JumpFlag, Drop], Space);
    JoinCons(JumpFlag, [Drop], Space);
    assert JumpFlag + Space + Drop == JumpDrop;
  }

  // ---------------------------------------------------------------------
  // _rule_to_iptables_fragments
  // ---------------------------------------------------------------------

  const ParseErrorComment := "ERROR failed to parse rules"

  /** `itertools.product`: every source chunk with every destination chunk, source-major. */
  function Product(a: seq<seq<string>>, b: seq<seq<string>>): (r: seq<(seq<string>, seq<string>)>)
    ensures |r| == |a| * |b|
    ensures forall k :: 0 <= k < |r| ==> r[k].0 in a && r[k].1 in b
  {
    if |a| == 0 then []
    else seq(|b|, j requires 0 <= j < |b| => (a[0], b[j])) + Product(a[1..], b)
  }

  /** Every combination of a source chunk and a destination chunk is translated. */
  lemma {:induction false} ProductCovers(a: seq<seq<string>>, b: seq<seq<string>>, i: nat, j: nat)
    requires i < |a| && j < |b|
    ensures (a[i], b[j]) in Product(a, b)
    decreases |a|
  {
    var head := seq(|b|, j requires 0 <= j < |b| => (a[0], b[j]));
    if i == 0 {
      assert head[j] == (a[0], b[j]);
    } else {
      ProductCovers(a[1..], b, i - 1, j);
      assert a[1..][i - 1] == a[i];
    }
  }

  /** The loop over the product: the fragments of each combination in turn, or the first failure. */
  function FragmentsOver(cfg: Config, chain: string, rule: Rule, pairs: seq<(seq<string>, seq<string>)>,
                         ipVersion: int, tagToIpset: map<string, string>, selectorToIpset: map<string, string>,
                         onAllow: string, onDeny: string): Result<seq<string>, RuleError>
  {
    if |pairs| == 0 then Success([])
    else
      var last := pairs[|pairs| - 1];
      match FragmentsOver(cfg, chain, rule, pairs[..|pairs| - 1], ipVersion, tagToIpset, selectorToIpset, onAllow, onDeny)
      case Failure(e) => Failure(e)
      case Success(done) =>
        match RuleFragmentsInner(cfg, chain, rule, last.0, last.1, ipVersion, tagToIpset, selectorToIpset, onAllow, onDeny)
        case Failure(e) => Failure(e)
        case Success(frags) => Success(done + frags)
  }

  /** The loop fails exactly when some combination fails. */
  lemma {:induction false} FragmentsOverFails(cfg: Config, chain: string, rule: Rule, pairs: seq<(seq<string>, seq<string>)>,
                                              ipVersion: int, tagToIpset: map<string, string>, selectorToIpset: map<string, string>,
                                              onAllow: string, onDeny: string)
    ensures FragmentsOver(cfg, chain, rule, pairs, ipVersion, tagToIpset, selectorToIpset, onAllow, onDeny).Failure?
        <==> exists k :: 0 <= k < |pairs|
               && RuleFragmentsInner(cfg, chain, rule, pairs[k].0, pairs[k].1, ipVersion, tagToIpset, selectorToIpset, onAllow, onDeny).Failure?
  {
    if FragmentsOver(cfg, chain, rule, pairs, ipVersion, tagToIpset, selectorToIpset, onAllow, onDeny).Failure? {
      FailureHasCause(cfg, chain, rule, pairs, ipVersion, tagToIpset, selectorToIpset, onAllow, onDeny);
    }
    if exists k :: 0 <= k < |pairs|
         && RuleFragmentsInner(cfg, chain, rule, pairs[k].0, pairs[k].1, ipVersion, tagToIpset, selectorToIpset, onAllow, onDeny).Failure? {
      var k :| 0 <= k < |pairs|
         && RuleFragmentsInner(cfg, chain, rule, pairs[k].0, pairs[k].1, ipVersion, tagToIpset, selectorToIpset, onAllow, onDeny).Failure?;
      FailureAtFails(cfg, chain, rule, pairs, k, ipVersion, tagToIpset, selectorToIpset, onAllow, onDeny);
    }
  }

  /** A combination that fails makes the whole walk fail. */
  lemma {:induction false} FailureAtFails(cfg: Config, chain: string, rule: Rule, pairs: seq<(seq<string>, seq<string>)>, k: nat,
                                          ipVersion: int, tagToIpset: map<string, string>, selectorToIpset: map<string, string>,
                                              onAllow: string, onDeny: string)
    requires k < |pairs| && RuleFragmentsInner(cfg, chain, rule, pairs[k].0, pairs[k].1, ipVersion, tagToIpset, selectorToIpset, onAllow, onDeny).Failure?
    ensures FragmentsOver(cfg, chain, rule, pairs, ipVersion, tagToIpset, selectorToIpset, onAllow, onDeny).Failure?
  {
    var init := pairs[..|pairs| - 1];
    if k < |init| {
      assert init[k] == pairs[k];
      FailureAtFails(cfg, chain, rule, init, k, ipVersion, tagToIpset, selectorToIpset, onAllow, onDeny);
    }
  }

  /** A failed walk has a combination that failed. */
  lemma {:induction false} FailureHasCause(cfg: Config, chain: string, rule: Rule, pairs: seq<(seq<string>, seq<string>)>,
                                           ipVersion: int, tagToIpset: map<string, string>, selectorToIpset: map<string, string>,
                                              onAllow: string, onDeny: string)
    requires FragmentsOver(cfg, chain, rule, pairs, ipVersion, tagToIpset, selectorToIpset, onAllow, onDeny).Failure?
    ensures exists k :: 0 <= k < |pairs|
              && RuleFragmentsInner(cfg, chain, rule, pairs[k].0, pairs[k].1, ipVersion, tagToIpset, selectorToIpset, onAllow, onDeny).Failure?
  {
    var init := pairs[..|pairs| - 1];
    if FragmentsOver(cfg, chain, rule, init, ipVersion, tagToIpset, selectorToIpset, onAllow, onDeny).Failure? {
      FailureHasCause(cfg, chain, rule, init, ipVersion, tagToIpset, selectorToIpset, onAllow, onDeny);
      var k :| 0 <= k < |init| && RuleFragmentsInner(cfg, chain, rule, init[k].0, init[k].1, ipVersion, tagToIpset, selectorToIpset, onAllow, onDeny).Failure?;
      assert init[k] == pairs[k];
    } else {
      assert RuleFragmentsInner(cfg, chain, rule, pairs[|pairs| - 1].0, pairs[|pairs| - 1].1, ipVersion, tagToIpset, selectorToIpset, onAllow, onDeny).Failure?;
    }
  }

  /** The single fragment that replaces a rule the translator could not handle. */
  function ParseErrorDrop(chain: string): seq<string>
  {
    DropRules(Append, chain, None, Some(ParseErrorComment))
  }

  /** What `_rule_to_iptables_fragments` returns. */
  function RuleToFragments(cfg: Config, chain: string, rule: Rule, ipVersion: int,
                           tagToIpset: map<string, string>, selectorToIpset: map<string, string>,
                           onAllow: string, onDeny: string): seq<string>
  {
    var pairs := Product(PortChunks(rule.srcPorts), PortChunks(rule.dstPorts));
    match FragmentsOver(cfg, chain, rule, pairs, ipVersion, tagToIpset, selectorToIpset, onAllow, onDeny)
    case Success(fragments) => fragments
    case Failure(_) => ParseErrorDrop(chain)
  }

  lemma {:induction false} FailureSticks(cfg: Config, chain: string, rule: Rule, pairs: seq<(seq<string>, seq<string>)>, i: nat,
                                         ipVersion: int, tagToIpset: map<string, string>, selectorToIpset: map<string, string>,
                                         onAllow: string, onDeny: string)
    requires i <= |pairs|
    requires FragmentsOver(cfg, chain, rule, pairs[..i], ipVersion, tagToIpset, selectorToIpset, onAllow, onDeny).Failure?
    ensures FragmentsOver(cfg, chain, rule, pairs, ipVersion, tagToIpset, selectorToIpset, onAllow, onDeny).Failure?
    decreases |pairs| - i
  {
    if i < |pairs| {
      assert pairs[..i + 1][..i] == pairs[..i];
      FailureSticks(cfg, chain, rule, pairs, i + 1, ipVersion, tagToIpset, selectorToIpset, onAllow, onDeny);
    } else {
      assert pairs[..i] == pairs;
    }
  }

  /** One more combination: a failure ends the walk, a success appends its fragments. */
  lemma FragmentsOverExtend(cfg: Config, chain: string, rule: Rule, pairs: seq<(seq<string>, seq<string>)>, i: nat,
                            fragments: seq<string>,
                            ipVersion: int, tagToIpset: map<string, string>, selectorToIpset: map<string, string>,
                            onAllow: string, onDeny: string)
    requires i < |pairs|
    requires FragmentsOver(cfg, chain, rule, pairs[..i], ipVersion, tagToIpset, selectorToIpset, onAllow, onDeny) == Success(fragments)
    ensures match RuleFragmentsInner(cfg, chain, rule, pairs[i].0, pairs[i].1, ipVersion, tagToIpset, selectorToIpset, onAllow, onDeny)
            case Failure(_) => FragmentsOver(cfg, chain, rule, pairs[..i + 1], ipVersion, tagToIpset, selectorToIpset, onAllow, onDeny).Failure?
            case Success(frags) => FragmentsOver(cfg, chain, rule, pairs[..i + 1], ipVersion, tagToIpset, selectorToIpset, onAllow, onDeny) == Success(fragments + frags)
  {
    assert pairs[..i + 1][..i] == pairs[..i];
  }

  /**
   * `_rule_to_iptables_fragments`: split both port lists into chunks,
   * translate every combination, and replace the whole rule by one DROP
   * fragment if any combination fails.
   */
  method RuleToIptablesFragments(cfg: Config, chain: string, rule: Rule, ipVersion: int,
                                 tagToIpset: map<string, string>, selectorToIpset: map<string, string>,
                                 onAllow: string, onDeny: string)
    returns (fragments: seq<string>)
    ensures fragments == RuleToFragments(cfg, chain, rule, ipVersion, tagToIpset, selectorToIpset, onAllow, onDeny)
  {
    var srcChunks := SplitPortLists(rule.srcPorts);
    var dstChunks := SplitPortLists(rule.dstPorts);
    var pairs := Product(srcChunks, dstChunks);
    fragments := [];
    for i := 0 to |pairs|
      invariant FragmentsOver(cfg, chain, rule, pairs[..i], ipVersion, tagToIpset, selectorToIpset, onAllow, onDeny) == Success(fragments)
    {
      var frags := RuleFragmentsInner(cfg, chain, rule, pairs[i].0, pairs[i].1, ipVersion, tagToIpset, selectorToIpset, onAllow, onDeny);
      FragmentsOverExtend(cfg, chain, rule, pairs, i, fragments, ipVersion, tagToIpset, selectorToIpset, onAllow, onDeny);
      if frags.Failure? {
        FailureSticks(cfg, chain, rule, pairs, i + 1, ipVersion, tagToIpset, selectorToIpset, onAllow, onDeny);
        return ParseErrorDrop(chain);
      }
      fragments := fragments + frags.value;
    }
    assert pairs[..|pairs|] == pairs;
  }

  /** Splitting never loses the rule: there is always at least one chunk. */
  lemma PortChunksNonEmpty(ports: seq<Port>)
    ensures |PortChunks(ports)| >= 1
  {
    SplitPortListsChunks(ports);
    SplitPortListsFlattens(ports);
  }

  /** A rule without ports is translated once, with both port lists empty. */
  lemma RuleWithoutPorts(cfg: Config, chain: string, rule: Rule, ipVersion: int,
                         tagToIpset: map<string, string>, selectorToIpset: map<string, string>,
                         onAllow: string, onDeny: string)
    requires rule.srcPorts == [] && rule.dstPorts == []
    ensures RuleToFragments(cfg, chain, rule, ipVersion, tagToIpset, selectorToIpset, onAllow, onDeny)
         == match RuleFragmentsInner(cfg, chain, rule, [], [], ipVersion, tagToIpset, selectorToIpset, onAllow, onDeny)
            case Success(f) => f
            case Failure(_) => ParseErrorDrop(chain)
  {
    SplitPortListsChunks(rule.srcPorts);
    SplitPortListsChunks(rule.dstPorts);
    var pairs := Product([[]], [[]]);
    assert pairs == [([], [])];
    assert pairs[..0] == [];
    var inner := RuleFragmentsInner(cfg, chain, rule, [], [], ipVersion, tagToIpset, selectorToIpset, onAllow, onDeny);
    assert PortChunks(rule.srcPorts) == [[]] && PortChunks(rule.dstPorts) == [[]];
    assert FragmentsOver(cfg, chain, rule, pairs[..0], ipVersion, tagToIpset, selectorToIpset, onAllow, onDeny) == Success([]);
    if inner.Success? {
      assert [] + inner.value == inner.value;
      assert FragmentsOver(cfg, chain, rule, pairs, ipVersion, tagToIpset, selectorToIpset, onAllow, onDeny) == Success(inner.value);
    }
  }

  /**
   * A rule naming a tag with no ipset is replaced as a whole by the
   * parse-error DROP, whatever its ports.
   */
  lemma MissingTagDropsRule(cfg: Config, chain: string, rule: Rule, ipVersion: int,
                            tagToIpset: map<string, string>, selectorToIpset: map<string, string>,
                            onAllow: string, onDeny: string)
    requires rule.srcTag.Some? && rule.srcTag.value !in tagToIpset
    ensures RuleToFragments(cfg, chain, rule, ipVersion, tagToIpset, selectorToIpset, onAllow, onDeny) == ParseErrorDrop(chain)
  {
    var a := PortChunks(rule.srcPorts);
    var b := PortChunks(rule.dstPorts);
    PortChunksNonEmpty(rule.srcPorts);
    PortChunksNonEmpty(rule.dstPorts);
    var pairs := Product(a, b);
    ProductCovers(a, b, 0, 0);
    var k :| 0 <= k < |pairs| && pairs[k] == (a[0], b[0]);
    assert RuleFragmentsInner(cfg, chain, rule, pairs[k].0, pairs[k].1, ipVersion, tagToIpset, selectorToIpset, onAllow, onDeny).Failure?;
    FragmentsOverFails(cfg, chain, rule, pairs, ipVersion, tagToIpset, selectorToIpset, onAllow, onDeny);
  }

  /**
   * The chunks the splitter makes never trip the translator's "too many
   * ports" check: for a TCP or UDP rule with ordinary ports, every source
   * chunk yields its multiport match.
   */
  lemma SplitPortsAlwaysFit(protocol: Option<string>, ports: seq<Port>, d: Dirn, i: nat)
    requires protocol == Some("tcp") || protocol == Some("udp")
    requires SimplePorts(ports)
    requires i < |PortChunks(ports)|
    ensures PortsPart(protocol, PortChunks(ports)[i], d).Success?
  {
    if |PortChunks(ports)[i]| > 0 {
      SplitChunksPassMultiportCheck(ports, i);
    }
  }

  // ---------------------------------------------------------------------
  // profile_updates
  // ---------------------------------------------------------------------

  /** A profile's rules; a missing rules key is an empty list. */
  datatype Profile = Profile(inboundRules: seq<Rule>, outboundRules: seq<Rule>)

  const NoMatchComment := " --match comment --comment \"No match, fall through to next profile\""
  const SetMark := " --jump MARK --set-mark "

  /** Mark every packet entering the profile chain as accepted. */
  function SetAcceptMark(cfg: Config, chain: string): string
  {
    Format([AppendPrefix, chain, SetMark, cfg.markAccept, Slash, cfg.markAccept])
  }

  /** At the end of the profile chain, clear the mark again: no rule matched. */
  function ClearAcceptMark(cfg: Config, chain: string): string
  {
    Format([AppendPrefix, chain, NoMatchComment, SetMarkZero, cfg.markAccept])
  }

  /** A rule applies to the chain when it names no IP version or the chain's one. */
  predicate AppliesTo(rule: Rule, ipVersion: int)
  {
    rule.ipVersion.None? || rule.ipVersion == Some(ipVersion)
  }

  /** The fragments of the rules that apply, in order. */
  function RulesFragments(cfg: Config, chain: string, rules: seq<Rule>, ipVersion: int,
                          tagToIpset: map<string, string>, selectorToIpset: map<string, string>,
                          onAllow: string, onDeny: string): seq<string>
  {
    if |rules| == 0 then []
    else
      var last := rules[|rules| - 1];
      RulesFragments(cfg, chain, rules[..|rules| - 1], ipVersion, tagToIpset, selectorToIpset, onAllow, onDeny)
      + (if AppliesTo(last, ipVersion) then RuleToFragments(cfg, chain, last, ipVersion, tagToIpset, selectorToIpset, onAllow, onDeny)
         else [])
  }

  /** The chain `profile_updates` programs for one direction of a profile. */
  function ProfileChain(cfg: Config, chain: string, rules: seq<Rule>, ipVersion: int,
                        tagToIpset: map<string, string>, selectorToIpset: map<string, string>,
                        onAllow: string, onDeny: string): seq<string>
  {
    [SetAcceptMark(cfg, chain)]
    + RulesFragments(cfg, chain, rules, ipVersion, tagToIpset, selectorToIpset, onAllow, onDeny)
    + [ClearAcceptMark(cfg, chain)]
  }

  function DirectionRules(profile: Profile, direction: string): seq<Rule>
  {
    if direction == "inbound" then profile.inboundRules else profile.outboundRules
  }

  /**
   * `profile_updates`: the inbound and the outbound chain of a profile,
   * keyed by name; a profile chain depends on no other chain.
   */
  method ProfileUpdates(cfg: Config, pid: ProfileId, profile: Profile, ipVersion: int,
                        tagToIpset: map<string, string>, selectorToIpset: map<string, string>,
                        onAllow: string, onDeny: string)
    returns (updates: map<string, seq<string>>, deps: map<string, set<string>>)
    ensures updates.Keys == ProfileChainNames(cfg, pid)
    ensures forall direction :: direction in {"inbound", "outbound"} ==>
              var chain := ProfileToChainName(cfg, direction, pid);
              updates[chain] == ProfileChain(cfg, chain, DirectionRules(profile, direction), ipVersion,
                                             tagToIpset, selectorToIpset, onAllow, onDeny)
    ensures deps == map[]
  {
    updates := map[];
    deps := map[];
    var directions := ["inbound", "outbound"];
    ghost var inChain := ProfileToChainName(cfg, "inbound", pid);
    ghost var outChain := ProfileToChainName(cfg, "outbound", pid);
    InboundOutboundDiffer(cfg, pid);
    for d := 0 to |directions|
      invariant updates.Keys == if d == 0 then {} else if d == 1 then {inChain} else {inChain, outChain}
      invariant d >= 1 ==> updates[inChain] == ProfileChain(cfg, inChain, profile.inboundRules, ipVersion,
                                                            tagToIpset, selectorToIpset, onAllow, onDeny)
      invariant d == 2 ==> updates[outChain] == ProfileChain(cfg, outChain, profile.outboundRules, ipVersion,
                                                             tagToIpset, selectorToIpset, onAllow, onDeny)
    {
      var direction := directions[d];
      var chainName := ProfileToChainName(cfg, direction, pid);
      var rules := DirectionRules(profile, direction);
      var fragments := [SetAcceptMark(cfg, chainName)];
      for i := 0 to |rules|
        invariant fragments == [SetAcceptMark(cfg, chainName)]
                               + RulesFragments(cfg, chainName, rules[..i], ipVersion, tagToIpset, selectorToIpset, onAllow, onDeny)
      {
        var r := rules[i];
        ghost var before := fragments;
        if r.ipVersion.None? || r.ipVersion == Some(ipVersion) {
          var ruleFragments := RuleToIptablesFragments(cfg, chainName, r, ipVersion, tagToIpset, selectorToIpset, onAllow, onDeny);
          fragments := fragments + ruleFragments;
        }
        assert fragments == [SetAcceptMark(cfg, chainName)]
                            + RulesFragments(cfg, chainName, rules[..i + 1], ipVersion, tagToIpset, selectorToIpset, onAllow, onDeny) by {
          RulesStep(cfg, chainName, rules, i, ipVersion, tagToIpset, selectorToIpset, onAllow, onDeny);
          SeqAssoc([SetAcceptMark(cfg, chainName)],
                   RulesFragments(cfg, chainName, rules[..i], ipVersion, tagToIpset, selectorToIpset, onAllow, onDeny),
                   fragments[|before|..]);
        }
      }
      assert rules[..|rules|] == rules;
      fragments := fragments + [ClearAcceptMark(cfg, chainName)];
      updates := updates[chainName := fragments];
    }
  }

  lemma RulesStep(cfg: Config, chain: string, rules: seq<Rule>, i: nat, ipVersion: int,
                  tagToIpset: map<string, string>, selectorToIpset: map<string, string>,
                  onAllow: string, onDeny: string)
    requires i < |rules|
    ensures RulesFragments(cfg, chain, rules[..i + 1], ipVersion, tagToIpset, selectorToIpset, onAllow, onDeny)
         == RulesFragments(cfg, chain, rules[..i], ipVersion, tagToIpset, selectorToIpset, onAllow, onDeny)
            + (if AppliesTo(rules[i], ipVersion) then RuleToFragments(cfg, chain, rules[i], ipVersion, tagToIpset, selectorToIpset, onAllow, onDeny)
               else [])
  {
    assert rules[..i + 1][..i] == rules[..i];
  }

  /** Rules for the other IP version leave a profile chain with only its two mark fragments. */
  lemma {:induction false} OtherVersionRulesIgnored(cfg: Config, chain: string, rules: seq<Rule>, ipVersion: int,
                                                    tagToIpset: map<string, string>, selectorToIpset: map<string, string>,
                                                    onAllow: string, onDeny: string)
    requires forall i :: 0 <= i < |rules| ==> !AppliesTo(rules[i], ipVersion)
    ensures ProfileChain(cfg, chain, rules, ipVersion, tagToIpset, selectorToIpset, onAllow, onDeny)
         == [SetAcceptMark(cfg, chain), ClearAcceptMark(cfg, chain)]
  {
    if |rules| > 0 {
      OtherVersionRulesIgnored(cfg, chain, rules[..|rules| - 1], ipVersion, tagToIpset, selectorToIpset, onAllow, onDeny);
    }
  }

  // ---------------------------------------------------------------------
  // The global chains
  // ---------------------------------------------------------------------

  const RpfilterComment := "IPv6 rpfilter failed"

  /** `raw_rpfilter_failed_chain`: only programmed for IPv6; drop what failed the reverse-path check. */
  function RawRpfilterFailedChain(cfg: Config, ipVersion: int): (r: (seq<string>, set<string>))
    requires ipVersion == 6
    ensures |r.0| == 1 && r.1 == {}
  {
    (DropRules(Append, cfg.names.prerouting, None, Some(RpfilterComment)), {})
  }

  const MetadataDnat := " --protocol tcp --dport 80 --destination 169.254.169.254/32 --jump DNAT --to-destination "
  const Colon := ":"

  /** `nat_prerouting_chain`: jump to the floating-IP DNAT chain, and expose the metadata server on IPv4. */
  function NatPreroutingChain(cfg: Config, ipVersion: int): (r: (seq<string>, set<string>))
    ensures r.1 == {cfg.names.fipDnat}
    ensures |r.0| == if ipVersion == 4 && cfg.metadataIp.Some? then 2 else 1
    ensures r.0[0] == ProfileJump(cfg.names.prerouting, cfg.names.fipDnat)
  {
    var chain := [ProfileJump(cfg.names.prerouting, cfg.names.fipDnat)];
    if ipVersion == 4 && cfg.metadataIp.Some? then
      (chain + [Format([AppendPrefix, cfg.names.prerouting, MetadataDnat, cfg.metadataIp.value, Colon, cfg.metadataPort])],
       {cfg.names.fipDnat})
    else (chain, {cfg.names.fipDnat})
  }

  /** `nat_postrouting_chain`: jump to the floating-IP SNAT chain. */
  function NatPostroutingChain(cfg: Config, ipVersion: int): (r: (seq<string>, set<string>))
    ensures r == ([ProfileJump(cfg.names.postrouting, cfg.names.fipSnat)], {cfg.names.fipSnat})
  {
    ([ProfileJump(cfg.names.postrouting, cfg.names.fipSnat)], {cfg.names.fipSnat})
  }

  const IpipMatch := "--protocol 4 --match set ! --match-set "
  const SrcSuffix := " src"
  const NotFromInterface := " ! --in-interface "
  const JumpReturnSuffix := " --jump RETURN"
  const ConntrackInvalid := "--match conntrack --ctstate INVALID"
  const ConntrackEstablished := " --match conntrack --ctstate RELATED,ESTABLISHED --jump ACCEPT"
  const AcceptIcmp6 := " --jump ACCEPT --protocol ipv6-icmp --icmpv6-type "
  const MetadataAccept := " --protocol tcp --destination "
  const DportFlag := " --dport "
  const JumpAccept := " --jump ACCEPT"
  const UdpSport := " --protocol udp --sport "
  const DnsAccept := " --protocol udp --dport 53 --jump ACCEPT"
  const DropToHostComment := "Drop all packets from endpoints to the host"

  /** The ICMPv6 types a router must accept: multicast listener query, report and done, router and neighbour solicitation, neighbour advertisement. */
  const RouterIcmp6Types: seq<string> := ["130", "131", "132", "133", "135", "136"]

  function Icmp6Accept(cfg: Config, icmpType: string): string
  {
    Format([AppendPrefix, cfg.names.input, AcceptIcmp6, icmpType])
  }

  function Icmp6Accepts(cfg: Config, types: seq<string>): (r: seq<string>)
    ensures |r| == |types|
  {
    if |types| == 0 then [] else Icmp6Accepts(cfg, types[..|types| - 1]) + [Icmp6Accept(cfg, types[|types| - 1])]
  }

  /** `if hosts_set_name:` */
  predicate HasHostsSet(hostsSet: Option<string>)
  {
    hostsSet.Some? && hostsSet.value != ""
  }

  /** The INPUT chain up to and including the conntrack rules. */
  function InputHead(cfg: Config, hostsSet: Option<string>): seq<string>
  {
    (if HasHostsSet(hostsSet) then DropRules(Append, cfg.names.input, Some(IpipMatch + hostsSet.value + SrcSuffix), None) else [])
    + [Format([AppendPrefix, cfg.names.input, NotFromInterface, IfaceMatch(cfg), JumpReturnSuffix])]
    + DropRules(Append, cfg.names.input, Some(ConntrackInvalid), None)
    + [Format([AppendPrefix, cfg.names.input, ConntrackEstablished])]
  }

  /** The metadata, DHCP and DNS accepts. */
  function InputServices(cfg: Config, ipVersion: int): seq<string>
  {
    var dhcpSrc := if ipVersion == 4 then "68" else "546";
    var dhcpDst := if ipVersion == 4 then "67" else "547";
    (if ipVersion == 4 && cfg.metadataIp.Some?
     then [Format([AppendPrefix, cfg.names.input, MetadataAccept, cfg.metadataIp.value, DportFlag, cfg.metadataPort, JumpAccept])]
     else [])
    + [Format([AppendPrefix, cfg.names.input, UdpSport, dhcpSrc, DportFlag, dhcpDst, JumpAccept])]
    + [Format([AppendPrefix, cfg.names.input, DnsAccept])]
  }

  /** The jump to the from-endpoint chain, unless everything is dropped anyway. */
  function InputFromEndpoint(cfg: Config): seq<string>
  {
    if cfg.defaultInputAction != Drop then [ProfileJump(cfg.names.input, cfg.names.fromEndpoint)] else []
  }

  /** The default action, unless it is RETURN, which the end of the chain does anyway. */
  function InputDefault(cfg: Config): seq<string>
  {
    if cfg.defaultInputAction == "RETURN" then []
    else if cfg.defaultInputAction == Drop then DropRules(Append, cfg.names.input, None, Some(DropToHostComment))
    else [ProfileJump(cfg.names.input, cfg.defaultInputAction)]
  }

  /** What `filter_input_chain` returns. */
  function InputChain(cfg: Config, ipVersion: int, hostsSet: Option<string>): (seq<string>, set<string>)
  {
    (InputHead(cfg, hostsSet)
     + (if ipVersion == 6 then Icmp6Accepts(cfg, RouterIcmp6Types) else [])
     + InputServices(cfg, ipVersion)
     + InputFromEndpoint(cfg)
     + InputDefault(cfg),
     if cfg.defaultInputAction != Drop then {cfg.names.fromEndpoint} else {})
  }

  /** `filter_input_chain`: the Felix INPUT chain for traffic from the endpoints to the host. */
  method FilterInputChain(cfg: Config, ipVersion: int, hostsSet: Option<string>) returns (chain: seq<string>, deps: set<string>)
    ensures chain == InputChain(cfg, ipVersion, hostsSet).0
    ensures deps == InputChain(cfg, ipVersion, hostsSet).1
  {
    chain := [];
    deps := {};
    if HasHostsSet(hostsSet) {
      chain := chain + DropRules(Append, cfg.names.input, Some(IpipMatch + hostsSet.value + SrcSuffix), None);
    }
    chain := chain + [Format([AppendPrefix, cfg.names.input, NotFromInterface, IfaceMatch(cfg), JumpReturnSuffix])];
    chain := chain + DropRules(Append, cfg.names.input, Some(ConntrackInvalid), None);
    chain := chain + [Format([AppendPrefix, cfg.names.input, ConntrackEstablished])];
    assert chain == InputHead(cfg, hostsSet);
    ghost var head := chain;
    if ipVersion == 6 {
      for i := 0 to |RouterIcmp6Types|
        invariant chain == head + Icmp6Accepts(cfg, RouterIcmp6Types[..i])
      {
        chain := chain + [Icmp6Accept(cfg, RouterIcmp6Types[i])];
        assert RouterIcmp6Types[..i + 1][..i] == RouterIcmp6Types[..i];
      }
      assert RouterIcmp6Types[..|RouterIcmp6Types|] == RouterIcmp6Types;
    }
    ghost var afterIcmp := chain;
    assert afterIcmp == head + (if ipVersion == 6 then Icmp6Accepts(cfg, RouterIcmp6Types) else []);
    var dhcpSrcPort := if ipVersion == 4 then "68" else "546";
    var dhcpDstPort := if ipVersion == 4 then "67" else "547";
    if ipVersion == 4 && cfg.metadataIp.Some? {
      chain := chain + [Format([AppendPrefix, cfg.names.input, MetadataAccept, cfg.metadataIp.value, DportFlag, cfg.metadataPort, JumpAccept])];
    }
    chain := chain + [Format([AppendPrefix, cfg.names.input, UdpSport, dhcpSrcPort, DportFlag, dhcpDstPort, JumpAccept])];
    chain := chain + [Format([AppendPrefix, cfg.names.input, DnsAccept])];
    assert chain == afterIcmp + InputServices(cfg, ipVersion);
    ghost var afterServices := chain;
    if cfg.defaultInputAction != Drop {
      chain := chain + [ProfileJump(cfg.names.input, cfg.names.fromEndpoint)];
      deps := deps + {cfg.names.fromEndpoint};
    }
    assert chain == afterServices + InputFromEndpoint(cfg);
    ghost var afterJump := chain;
    if cfg.defaultInputAction != "RETURN" {
      if cfg.defaultInputAction == Drop {
        chain := chain + DropRules(Append, cfg.names.input, None, Some(DropToHostComment));
      } else {
        chain := chain + [ProfileJump(cfg.names.input, cfg.defaultInputAction)];
      }
    }
    assert chain == afterJump + InputDefault(cfg);
    assert chain == head + (if ipVersion == 6 then Icmp6Accepts(cfg, RouterIcmp6Types) else []) + InputServices(cfg, ipVersion)
                    + InputFromEndpoint(cfg) + InputDefault(cfg);
  }

  /**
   * How the INPUT chain ends: with a DROP default, the drop and no jump to
   * the from-endpoint chain; with RETURN, that jump last; otherwise that
   * jump then a jump to the default action.
   */
  lemma InputChainEnd(cfg: Config, ipVersion: int, hostsSet: Option<string>)
    ensures var (c, deps) := InputChain(cfg, ipVersion, hostsSet);
            var jump := ProfileJump(cfg.names.input, cfg.names.fromEndpoint);
            |c| >= 6
            && (deps == {} <==> cfg.defaultInputAction == Drop)
            && (cfg.defaultInputAction == Drop ==> c[|c| - 1] == DropRules(Append, cfg.names.input, None, Some(DropToHostComment))[0])
            && (cfg.defaultInputAction == "RETURN" ==> c[|c| - 1] == jump)
            && (cfg.defaultInputAction != Drop && cfg.defaultInputAction != "RETURN" ==>
                  c[|c| - 2] == jump && c[|c| - 1] == ProfileJump(cfg.names.input, cfg.defaultInputAction))
  {
  }

  /** The IPv6 INPUT chain accepts the six router ICMPv6 types right after the conntrack rules. */
  lemma {:induction false} InputChainIcmp6(cfg: Config, hostsSet: Option<string>, k: nat)
    requires k < |RouterIcmp6Types|
    ensures InputChain(cfg, 6, hostsSet).0[|InputHead(cfg, hostsSet)| + k] == Icmp6Accept(cfg, RouterIcmp6Types[k])
  {
    var head := InputHead(cfg, hostsSet);
    var icmp := Icmp6Accepts(cfg, RouterIcmp6Types);
    Icmp6AcceptsAt(cfg, RouterIcmp6Types, k);
    IndexInMiddle(head, icmp, InputServices(cfg, 6) + InputFromEndpoint(cfg) + InputDefault(cfg), k);
    assert InputChain(cfg, 6, hostsSet).0 == head + icmp + (InputServices(cfg, 6) + InputFromEndpoint(cfg) + InputDefault(cfg));
  }

  lemma {:induction false} Icmp6AcceptsAt(cfg: Config, types: seq<string>, k: nat)
    requires k < |types|
    ensures Icmp6Accepts(cfg, types)[k] == Icmp6Accept(cfg, types[k])
  {
    if k < |types| - 1 {
      Icmp6AcceptsAt(cfg, types[..|types| - 1], k);
    }
  }

  const InInterfaceInvalid := " --match conntrack --ctstate INVALID"
  const InInterface := "--in-interface "
  const OutInterface := "--out-interface "
  const EstablishedReturn := " --match conntrack --ctstate RELATED,ESTABLISHED --jump RETURN"
  const InInterfaceFlag := " --in-interface "
  const OutInterfaceFlag := " --out-interface "
  const JumpAcceptFlag := " --jump ACCEPT"

  /**
   * `filter_forward_chain`: drop invalid packets to or from the endpoints,
   * let established flows return, send packets from an endpoint through the
   * from-endpoint chain and packets to one through the to-endpoint chain,
   * then accept.
   */
  function FilterForwardChain(cfg: Config, ipVersion: int): (r: (seq<string>, set<string>))
    ensures |r.0| == 8
    ensures r.1 == {cfg.names.fromEndpoint, cfg.names.toEndpoint}
    ensures r.0[4] == Format([AppendPrefix, cfg.names.forward, Jump, cfg.names.fromEndpoint, InInterfaceFlag, IfaceMatch(cfg)])
    ensures r.0[5] == Format([AppendPrefix, cfg.names.forward, Jump, cfg.names.toEndpoint, OutInterfaceFlag, IfaceMatch(cfg)])
  {
    var fwd := cfg.names.forward;
    var iface := IfaceMatch(cfg);
    (DropRules(Append, fwd, Some(InInterface + iface + InInterfaceInvalid), None)
     + DropRules(Append, fwd, Some(OutInterface + iface + InInterfaceInvalid), None)
     + [Format([AppendPrefix, fwd, InInterfaceFlag, iface, EstablishedReturn]),
        Format([AppendPrefix, fwd, OutInterfaceFlag, iface, EstablishedReturn]),
        Format([AppendPrefix, fwd, Jump, cfg.names.fromEndpoint, InInterfaceFlag, iface]),
        Format([AppendPrefix, fwd, Jump, cfg.names.toEndpoint, OutInterfaceFlag, iface]),
        Format([AppendPrefix, fwd, JumpAcceptFlag, InInterfaceFlag, iface]),
        Format([AppendPrefix, fwd, JumpAcceptFlag, OutInterfaceFlag, iface])],
     {cfg.names.fromEndpoint, cfg.names.toEndpoint})
  }

  // ---------------------------------------------------------------------
  // Every fragment appends to the chain being built
  // ---------------------------------------------------------------------

  /** The fragment is an `--append` to `chain`. */
  predicate AppendsTo(chain: string, fragment: string)
  {
    AppendPrefix + chain <= fragment
  }

  predicate AllAppendTo(chain: string, fragments: seq<string>)
  {
    forall i :: 0 <= i < |fragments| ==> AppendsTo(chain, fragments[i])
  }

  lemma AllAppendToConcat(chain: string, a: seq<string>, b: seq<string>)
    requires AllAppendTo(chain, a) && AllAppendTo(chain, b)
    ensures AllAppendTo(chain, a + b)
  {
    forall i | 0 <= i < |a + b| ensures AppendsTo(chain, (a + b)[i]) {
      if i >= |a| {
        assert (a + b)[i] == b[i - |a|];
      }
    }
  }

  lemma PrefixOfConcat(p: string, q: string, rest: string)
    ensures p + q <= p + (q + rest)
  {
    assert (p + (q + rest))[..|p + q|] == p + q;
  }

  lemma FormatAppends(chain: string, pieces: seq<string>)
    requires |pieces| >= 2 && pieces[0] == AppendPrefix && pieces[1] == chain
    ensures AppendsTo(chain, Format(pieces))
  {
    assert pieces[1..][1..] == pieces[2..];
    assert Format(pieces) == AppendPrefix + (chain + Format(pieces[2..]));
    PrefixOfConcat(AppendPrefix, chain, Format(pieces[2..]));
  }

  lemma AppendSpace()
    ensures Append + Space == AppendPrefix
  {
  }

  lemma DropAppends(chain: string, ruleSpec: Option<string>, comment: Option<string>)
    ensures AppendsTo(chain, DropRules(Append, chain, ruleSpec, comment)[0])
  {
    var rest := Space + (SpecInfix(ruleSpec) + (JumpDrop + CommentSuffix(comment)));
    AppendSpace();
    DropRulesText(Append, chain, ruleSpec, comment);
    assert DropRules(Append, chain, ruleSpec, comment)[0] == Append + (Space + (chain + rest));
    StrAssoc(Append, Space, chain + rest);
    PrefixOfConcat(AppendPrefix, chain, rest);
  }

  lemma AppendRuleAppends(chain: string, spec: string, target: string)
    ensures AppendsTo(chain, AppendRule(chain, spec, target))
  {
    var rest := Join([spec, JumpFlag, target], Space);
    JoinCons(Append, [chain, spec, JumpFlag, target], Space);
    JoinCons(chain, [spec, JumpFlag, target], Space);
    AppendSpace();
    assert AppendRule(chain, spec, target) == Append + Space + (chain + Space + rest);
    assert Append + Space + (chain + Space + rest) == AppendPrefix + (chain + (Space + rest));
    PrefixOfConcat(AppendPrefix, chain, Space + rest);
  }

  lemma InnerAppends(cfg: Config, chain: string, rule: Rule, srcPorts: seq<string>, dstPorts: seq<string>,
                     ipVersion: int, tagToIpset: map<string, string>, selectorToIpset: map<string, string>,
                     onAllow: string, onDeny: string)
    requires RuleFragmentsInner(cfg, chain, rule, srcPorts, dstPorts, ipVersion, tagToIpset, selectorToIpset, onAllow, onDeny).Success?
    ensures AllAppendTo(chain, RuleFragmentsInner(cfg, chain, rule, srcPorts, dstPorts, ipVersion, tagToIpset, selectorToIpset, onAllow, onDeny).value)
  {
    var f := RuleFragmentsInner(cfg, chain, rule, srcPorts, dstPorts, ipVersion, tagToIpset, selectorToIpset, onAllow, onDeny).value;
    var spec := RuleSpec(rule, srcPorts, dstPorts, ipVersion, tagToIpset, selectorToIpset).value;
    var (target, extra) := Target(cfg, chain, Action(rule), onAllow, onDeny).value;
    var specStr := Join(spec, Space);
    if target == Drop {
      assert f == DropRules(Append, chain, Some(specStr), None);
      DropAppends(chain, Some(specStr), None);
    } else {
      assert f == [AppendRule(chain, specStr, target)] + (if extra.Some? then [extra.value] else []);
      AppendRuleAppends(chain, specStr, target);
      if extra.Some? {
        assert extra.value == NextTierReturn(cfg, chain);
        FormatAppends(chain, [AppendPrefix, chain, MatchMark, cfg.markNextTier, Slash, cfg.markNextTier, JumpReturn]);
      }
    }
  }

  lemma {:induction false} FragmentsOverAppends(cfg: Config, chain: string, rule: Rule, pairs: seq<(seq<string>, seq<string>)>,
                                                ipVersion: int, tagToIpset: map<string, string>, selectorToIpset: map<string, string>,
                                                onAllow: string, onDeny: string)
    requires FragmentsOver(cfg, chain, rule, pairs, ipVersion, tagToIpset, selectorToIpset, onAllow, onDeny).Success?
    ensures AllAppendTo(chain, FragmentsOver(cfg, chain, rule, pairs, ipVersion, tagToIpset, selectorToIpset, onAllow, onDeny).value)
  {
    if |pairs| > 0 {
      var last := pairs[|pairs| - 1];
      var init := pairs[..|pairs| - 1];
      FragmentsOverAppends(cfg, chain, rule, init, ipVersion, tagToIpset, selectorToIpset, onAllow, onDeny);
      InnerAppends(cfg, chain, rule, last.0, last.1, ipVersion, tagToIpset, selectorToIpset, onAllow, onDeny);
      AllAppendToConcat(chain,
        FragmentsOver(cfg, chain, rule, init, ipVersion, tagToIpset, selectorToIpset, onAllow, onDeny).value,
        RuleFragmentsInner(cfg, chain, rule, last.0, last.1, ipVersion, tagToIpset, selectorToIpset, onAllow, onDeny).value);
    }
  }

  /** Whatever the rule, its fragments all append to the profile chain, the parse-error DROP included. */
  lemma RuleToFragmentsAppends(cfg: Config, chain: string, rule: Rule, ipVersion: int,
                               tagToIpset: map<string, string>, selectorToIpset: map<string, string>,
                               onAllow: string, onDeny: string)
    ensures AllAppendTo(chain, RuleToFragments(cfg, chain, rule, ipVersion, tagToIpset, selectorToIpset, onAllow, onDeny))
  {
    var pairs := Product(PortChunks(rule.srcPorts), PortChunks(rule.dstPorts));
    if FragmentsOver(cfg, chain, rule, pairs, ipVersion, tagToIpset, selectorToIpset, onAllow, onDeny).Success? {
      FragmentsOverAppends(cfg, chain, rule, pairs, ipVersion, tagToIpset, selectorToIpset, onAllow, onDeny);
    } else {
      DropAppends(chain, None, Some(ParseErrorComment));
    }
  }

  lemma {:induction false} RulesFragmentsAppend(cfg: Config, chain: string, rules: seq<Rule>, ipVersion: int,
                                                tagToIpset: map<string, string>, selectorToIpset: map<string, string>,
                                                onAllow: string, onDeny: string)
    ensures AllAppendTo(chain, RulesFragments(cfg, chain, rules, ipVersion, tagToIpset, selectorToIpset, onAllow, onDeny))
  {
    if |rules| > 0 {
      var last := rules[|rules| - 1];
      RulesFragmentsAppend(cfg, chain, rules[..|rules| - 1], ipVersion, tagToIpset, selectorToIpset, onAllow, onDeny);
      RuleToFragmentsAppends(cfg, chain, last, ipVersion, tagToIpset, selectorToIpset, onAllow, onDeny);
      AllAppendToConcat(chain,
        RulesFragments(cfg, chain, rules[..|rules| - 1], ipVersion, tagToIpset, selectorToIpset, onAllow, onDeny),
        if AppliesTo(last, ipVersion) then RuleToFragments(cfg, chain, last, ipVersion, tagToIpset, selectorToIpset, onAllow, onDeny) else []);
    }
  }

  /** Every fragment of a profile chain is appended to that chain. */
  lemma ProfileChainAppends(cfg: Config, chain: string, rules: seq<Rule>, ipVersion: int,
                            tagToIpset: map<string, string>, selectorToIpset: map<string, string>,
                            onAllow: string, onDeny: string)
    ensures AllAppendTo(chain, ProfileChain(cfg, chain, rules, ipVersion, tagToIpset, selectorToIpset, onAllow, onDeny))
  {
    var body := RulesFragments(cfg, chain, rules, ipVersion, tagToIpset, selectorToIpset, onAllow, onDeny);
    RulesFragmentsAppend(cfg, chain, rules, ipVersion, tagToIpset, selectorToIpset, onAllow, onDeny);
    FormatAppends(chain, [AppendPrefix, chain, SetMark, cfg.markAccept, Slash, cfg.markAccept]);
    FormatAppends(chain, [AppendPrefix, chain, NoMatchComment, SetMarkZero, cfg.markAccept]);
    AllAppendToConcat(chain, [SetAcceptMark(cfg, chain)], body);
    AllAppendToConcat(chain, [SetAcceptMark(cfg, chain)] + body, [ClearAcceptMark(cfg, chain)]);
  }

  lemma {:induction false} PolicyFragmentsAppend(cfg: Config, chain: string, direction: string, pols: seq<ProfileId>)
    requires |direction| > 0
    ensures AllAppendTo(chain, PolicyFragments(cfg, chain, direction, pols))
  {
    if |pols| > 0 {
      var last := pols[|pols| - 1];
      PolicyFragmentsAppend(cfg, chain, direction, pols[..|pols| - 1]);
      FormatAppends(chain, [AppendPrefix, chain, MatchMarkZero, cfg.markNextTier, Jump, ProfileToChainName(cfg, direction, last)]);
      FormatAppends(chain, [AppendPrefix, chain, MatchMark, cfg.markAccept, Slash, cfg.markAccept, ReturnIfPolicyAccepted]);
      AllAppendToConcat(chain, PolicyFragments(cfg, chain, direction, pols[..|pols| - 1]),
        [PolicyJump(cfg, chain, ProfileToChainName(cfg, direction, last)), PolicyReturn(cfg, chain)]);
    }
  }

  lemma {:induction false} TierFragmentsAppend(cfg: Config, chain: string, direction: string, tiers: seq<(string, seq<ProfileId>)>)
    requires |direction| > 0
    ensures AllAppendTo(chain, TierFragments(cfg, chain, direction, tiers))
  {
    if |tiers| > 0 {
      var last := tiers[|tiers| - 1];
      TierFragmentsAppend(cfg, chain, direction, tiers[..|tiers| - 1]);
      PolicyFragmentsAppend(cfg, chain, direction, last.1);
      FormatAppends(chain, [AppendPrefix, chain, SetMarkZero, cfg.markNextTier, TierStartComment, last.0, Quote]);
      FormatAppends(chain, [AppendPrefix, chain, MatchMarkZero, cfg.markNextTier, DropIfNoPolicyPassed]);
      AllAppendToConcat(chain, [TierStart(cfg, chain, last.0)], PolicyFragments(cfg, chain, direction, last.1));
      AllAppendToConcat(chain, [TierStart(cfg, chain, last.0)] + PolicyFragments(cfg, chain, direction, last.1), [TierDrop(cfg, chain)]);
      AllAppendToConcat(chain, TierFragments(cfg, chain, direction, tiers[..|tiers| - 1]), TierFragment(cfg, chain, direction, last));
    }
  }

  lemma {:induction false} ProfileFragmentsAppend(cfg: Config, chain: string, direction: string, profiles: seq<ProfileId>)
    requires |direction| > 0
    ensures AllAppendTo(chain, ProfileFragments(cfg, chain, direction, profiles))
  {
    if |profiles| > 0 {
      var last := profiles[|profiles| - 1];
      ProfileFragmentsAppend(cfg, chain, direction, profiles[..|profiles| - 1]);
      FormatAppends(chain, [AppendPrefix, chain, Jump, ProfileToChainName(cfg, direction, last)]);
      FormatAppends(chain, [AppendPrefix, chain, MatchMark, cfg.markAccept, Slash, cfg.markAccept, ReturnIfProfileAccepted]);
      AllAppendToConcat(chain, ProfileFragments(cfg, chain, direction, profiles[..|profiles| - 1]),
        [ProfileJump(chain, ProfileToChainName(cfg, direction, last)), ProfileReturn(cfg, chain)]);
    }
  }

  /** Every fragment of an endpoint chain is appended to that chain. */
  lemma ToOrFromChainAppends(cfg: Config, endpointId: string, profiles: seq<ProfileId>, tiers: seq<(string, seq<ProfileId>)>,
                             chain: string, direction: string, mac: Option<string>)
    requires |direction| > 0
    ensures AllAppendTo(chain, ToOrFromChain(cfg, endpointId, profiles, tiers, chain, direction, mac))
  {
    var head := [ZeroAcceptMark(cfg, chain)] + (if HasMac(mac) then [MacDrop(chain, mac.value)] else []);
    var tf := TierFragments(cfg, chain, direction, tiers);
    var pf := ProfileFragments(cfg, chain, direction, profiles);
    FormatAppends(chain, [AppendPrefix, chain, SetMarkZero, cfg.markAccept]);
    if HasMac(mac) {
      DropAppends(chain, Some(MacMatch + mac.value), Some(MacComment));
    }
    DropAppends(chain, None, Some(NoProfileComment + endpointId + CloseParen));
    assert AllAppendTo(chain, head);
    TierFragmentsAppend(cfg, chain, direction, tiers);
    ProfileFragmentsAppend(cfg, chain, direction, profiles);
    AllAppendToConcat(chain, head, tf);
    AllAppendToConcat(chain, head + tf, pf);
    AllAppendToConcat(chain, head + tf + pf, [DefaultDrop(chain, endpointId)]);
  }

  // ---------------------------------------------------------------------
  // Only the MAC drop matches on the source MAC
  // ---------------------------------------------------------------------

  const MacInfix := " --match mac"
  const MacTail := " ! --mac-source "

  /** The fragment appends to `chain` a rule matching on the source MAC. */
  predicate MacChecked(chain: string, fragment: string)
  {
    AppendPrefix + chain + MacInfix <= fragment
  }

  predicate NoneMacChecked(chain: string, fragments: seq<string>)
  {
    forall i :: 0 <= i < |fragments| ==> !MacChecked(chain, fragments[i])
  }

  lemma NoneMacCheckedConcat(chain: string, a: seq<string>, b: seq<string>)
    requires NoneMacChecked(chain, a) && NoneMacChecked(chain, b)
    ensures NoneMacChecked(chain, a + b)
  {
    forall i | 0 <= i < |a + b| ensures !MacChecked(chain, (a + b)[i]) {
      if i >= |a| {
        assert (a + b)[i] == b[i - |a|];
      }
    }
  }

  /** A fragment whose text after `--append chain` departs from " --match mac" does not match on the MAC. */
  lemma NotMacCheckedAt(chain: string, x: string, rest: string, j: nat)
    requires j < |x| && j < |MacInfix| && x[j] != MacInfix[j]
    ensures !MacChecked(chain, AppendPrefix + (chain + (x + rest)))
  {
    var n := |AppendPrefix| + |chain|;
    var f := AppendPrefix + (chain + (x + rest));
    var m := AppendPrefix + chain + MacInfix;
    assert f[n + j] == x[j];
    assert m[n + j] == MacInfix[j];
  }

  lemma FormatNotMacChecked(chain: string, pieces: seq<string>, j: nat)
    requires |pieces| >= 3 && pieces[0] == AppendPrefix && pieces[1] == chain
    requires j < |pieces[2]| && j < |MacInfix| && pieces[2][j] != MacInfix[j]
    ensures !MacChecked(chain, Format(pieces))
  {
    assert pieces[1..][1..] == pieces[2..];
    assert pieces[2..][1..] == pieces[3..];
    assert Format(pieces) == AppendPrefix + (chain + Format(pieces[2..]));
    assert Format(pieces[2..]) == pieces[2] + Format(pieces[3..]);
    NotMacCheckedAt(chain, pieces[2], Format(pieces[3..]), j);
  }

  lemma MacDropIsMacChecked(chain: string, mac: string)
    ensures MacChecked(chain, MacDrop(chain, mac))
  {
    var t := JumpDrop + CommentSuffix(Some(MacComment));
    DropRulesText(Append, chain, Some(MacMatch + mac), Some(MacComment));
    assert SpecInfix(Some(MacMatch + mac)) + t == MacMatch + (mac + Space + t);
    MacMatchPrefix(MacDrop(chain, mac), chain, mac + Space + t);
  }

  lemma MacMatchPrefix(f: string, chain: string, rest: string)
    requires f == Append + (Space + (chain + (Space + (MacMatch + rest))))
    ensures MacChecked(chain, f)
  {
    AppendSpace();
    SpaceMacMatch();
    Regroup(Append, Space, chain, MacMatch, rest);
    Regroup2(AppendPrefix, chain, MacInfix, MacTail + rest);
    PrefixOfConcat(AppendPrefix + chain + MacInfix, [], MacTail + rest);
  }

  lemma SpaceMacMatch()
    ensures Space + MacMatch == MacInfix + MacTail
  {
  }

  /** Regrouping the text `drop_rules` produces around a rule spec. */
  lemma Regroup(a: string, sp: string, c: string, m: string, r: string)
    ensures a + (sp + (c + (sp + (m + r)))) == (a + sp) + (c + ((sp + m) + r))
  {
  }

  lemma Regroup2(a: string, c: string, x: string, r: string)
    ensures a + (c + ((x + r))) == (a + c + x) + r
  {
  }

  lemma DefaultDropNotMacChecked(chain: string, endpointId: string)
    ensures !MacChecked(chain, DefaultDrop(chain, endpointId))
  {
    var t := CommentSuffix(Some(NoProfileComment + endpointId + CloseParen));
    DropRulesText(Append, chain, None, Some(NoProfileComment + endpointId + CloseParen));
    assert SpecInfix(None) + (JumpDrop + t) == JumpDrop + t;
    JumpDropNotMacChecked(DefaultDrop(chain, endpointId), chain, t);
  }

  lemma JumpDropNotMacChecked(f: string, chain: string, rest: string)
    requires f == Append + (Space + (chain + (Space + (JumpDrop + rest))))
    ensures !MacChecked(chain, f)
  {
    AppendSpace();
    Regroup(Append, Space, chain, JumpDrop, rest);
    assert (Space + JumpDrop)[3] != MacInfix[3];
    NotMacCheckedAt(chain, Space + JumpDrop, rest, 3);
  }

  lemma {:induction false} PolicyFragmentsNoMac(cfg: Config, chain: string, direction: string, pols: seq<ProfileId>)
    requires |direction| > 0
    ensures NoneMacChecked(chain, PolicyFragments(cfg, chain, direction, pols))
  {
    if |pols| > 0 {
      var last := pols[|pols| - 1];
      PolicyFragmentsNoMac(cfg, chain, direction, pols[..|pols| - 1]);
      FormatNotMacChecked(chain, [AppendPrefix, chain, MatchMarkZero, cfg.markNextTier, Jump, ProfileToChainName(cfg, direction, last)], 11);
      FormatNotMacChecked(chain, [AppendPrefix, chain, MatchMark, cfg.markAccept, Slash, cfg.markAccept, ReturnIfPolicyAccepted], 11);
      NoneMacCheckedConcat(chain, PolicyFragments(cfg, chain, direction, pols[..|pols| - 1]),
        [PolicyJump(cfg, chain, ProfileToChainName(cfg, direction, last)), PolicyReturn(cfg, chain)]);
    }
  }

  lemma {:induction false} TierFragmentsNoMac(cfg: Config, chain: string, direction: string, tiers: seq<(string, seq<ProfileId>)>)
    requires |direction| > 0
    ensures NoneMacChecked(chain, TierFragments(cfg, chain, direction, tiers))
  {
    if |tiers| > 0 {
      var last := tiers[|tiers| - 1];
      TierFragmentsNoMac(cfg, chain, direction, tiers[..|tiers| - 1]);
      PolicyFragmentsNoMac(cfg, chain, direction, last.1);
      FormatNotMacChecked(chain, [AppendPrefix, chain, SetMarkZero, cfg.markNextTier, TierStartComment, last.0, Quote], 3);
      FormatNotMacChecked(chain, [AppendPrefix, chain, MatchMarkZero, cfg.markNextTier, DropIfNoPolicyPassed], 11);
      NoneMacCheckedConcat(chain, [TierStart(cfg, chain, last.0)], PolicyFragments(cfg, chain, direction, last.1));
      NoneMacCheckedConcat(chain, [TierStart(cfg, chain, last.0)] + PolicyFragments(cfg, chain, direction, last.1), [TierDrop(cfg, chain)]);
      NoneMacCheckedConcat(chain, TierFragments(cfg, chain, direction, tiers[..|tiers| - 1]), TierFragment(cfg, chain, direction, last));
    }
  }

  lemma {:induction false} ProfileFragmentsNoMac(cfg: Config, chain: string, direction: string, profiles: seq<ProfileId>)
    requires |direction| > 0
    ensures NoneMacChecked(chain, ProfileFragments(cfg, chain, direction, profiles))
  {
    if |profiles| > 0 {
      var last := profiles[|profiles| - 1];
      ProfileFragmentsNoMac(cfg, chain, direction, profiles[..|profiles| - 1]);
      FormatNotMacChecked(chain, [AppendPrefix, chain, Jump, ProfileToChainName(cfg, direction, last)], 3);
      FormatNotMacChecked(chain, [AppendPrefix, chain, MatchMark, cfg.markAccept, Slash, cfg.markAccept, ReturnIfProfileAccepted], 11);
      NoneMacCheckedConcat(chain, ProfileFragments(cfg, chain, direction, profiles[..|profiles| - 1]),
        [ProfileJump(chain, ProfileToChainName(cfg, direction, last)), ProfileReturn(cfg, chain)]);
    }
  }

  /**
   * The only fragment of an endpoint chain that matches on the source MAC is
   * the MAC drop, second in the chain, and it is there exactly when a MAC is
   * expected.
   */
  lemma MacCheckOnlyWithMac(cfg: Config, endpointId: string, profiles: seq<ProfileId>, tiers: seq<(string, seq<ProfileId>)>,
                            chain: string, direction: string, mac: Option<string>)
    requires |direction| > 0
    ensures var c := ToOrFromChain(cfg, endpointId, profiles, tiers, chain, direction, mac);
            forall k :: 0 <= k < |c| ==> (MacChecked(chain, c[k]) <==> HasMac(mac) && k == 1)
  {
    var c := ToOrFromChain(cfg, endpointId, profiles, tiers, chain, direction, mac);
    var macPart := if HasMac(mac) then [MacDrop(chain, mac.value)] else [];
    var tf := TierFragments(cfg, chain, direction, tiers);
    var pf := ProfileFragments(cfg, chain, direction, profiles);
    var rest := tf + pf + [DefaultDrop(chain, endpointId)];
    assert c == [ZeroAcceptMark(cfg, chain)] + macPart + rest;
    FormatNotMacChecked(chain, [AppendPrefix, chain, SetMarkZero, cfg.markAccept], 3);
    TierFragmentsNoMac(cfg, chain, direction, tiers);
    ProfileFragmentsNoMac(cfg, chain, direction, profiles);
    DefaultDropNotMacChecked(chain, endpointId);
    NoneMacCheckedConcat(chain, tf, pf);
    NoneMacCheckedConcat(chain, tf + pf, [DefaultDrop(chain, endpointId)]);
    if HasMac(mac) {
      MacDropIsMacChecked(chain, mac.value);
    }
    forall k | 0 <= k < |c| ensures MacChecked(chain, c[k]) <==> HasMac(mac) && k == 1 {
      if k > 0 && !(HasMac(mac) && k == 1) {
        assert c[k] == rest[k - 1 - |macPart|];
      }
    }
  }

  /** Every fragment of the INPUT chain is appended to the INPUT chain. */
  lemma InputChainAppends(cfg: Config, ipVersion: int, hostsSet: Option<string>)
    ensures AllAppendTo(cfg.names.input, InputChain(cfg, ipVersion, hostsSet).0)
  {
    var input := cfg.names.input;
    if HasHostsSet(hostsSet) {
      DropAppends(input, Some(IpipMatch + hostsSet.value + SrcSuffix), None);
    }
    FormatAppends(input, [AppendPrefix, input, NotFromInterface, IfaceMatch(cfg), JumpReturnSuffix]);
    DropAppends(input, Some(ConntrackInvalid), None);
    FormatAppends(input, [AppendPrefix, input, ConntrackEstablished]);
    var head := InputHead(cfg, hostsSet);
    assert AllAppendTo(input, head);
    var icmp := if ipVersion == 6 then Icmp6Accepts(cfg, RouterIcmp6Types) else [];
    forall k | 0 <= k < |icmp| ensures AppendsTo(input, icmp[k]) {
      Icmp6AcceptsAt(cfg, RouterIcmp6Types, k);
      FormatAppends(input, [AppendPrefix, input, AcceptIcmp6, RouterIcmp6Types[k]]);
    }
    var dhcpSrc := if ipVersion == 4 then "68" else "546";
    var dhcpDst := if ipVersion == 4 then "67" else "547";
    if ipVersion == 4 && cfg.metadataIp.Some? {
      FormatAppends(input, [AppendPrefix, input, MetadataAccept, cfg.metadataIp.value, DportFlag, cfg.metadataPort, JumpAccept]);
    }
    FormatAppends(input, [AppendPrefix, input, UdpSport, dhcpSrc, DportFlag, dhcpDst, JumpAccept]);
    FormatAppends(input, [AppendPrefix, input, DnsAccept]);
    var services := InputServices(cfg, ipVersion);
    assert AllAppendTo(input, services);
    FormatAppends(input, [AppendPrefix, input, Jump, cfg.names.fromEndpoint]);
    FormatAppends(input, [AppendPrefix, input, Jump, cfg.defaultInputAction]);
    DropAppends(input, None, Some(DropToHostComment));
    assert AllAppendTo(input, InputFromEndpoint(cfg));
    assert AllAppendTo(input, InputDefault(cfg));
    AllAppendToConcat(input, head, icmp);
    AllAppendToConcat(input, head + icmp, services);
    AllAppendToConcat(input, head + icmp + services, InputFromEndpoint(cfg));
    AllAppendToConcat(input, head + icmp + services + InputFromEndpoint(cfg), InputDefault(cfg));
  }

  /** Every fragment of the FORWARD chain is appended to the FORWARD chain. */
  lemma ForwardChainAppends(cfg: Config, ipVersion: int)
    ensures AllAppendTo(cfg.names.forward, FilterForwardChain(cfg, ipVersion).0)
  {
    var fwd := cfg.names.forward;
    var iface := IfaceMatch(cfg);
    var c := FilterForwardChain(cfg, ipVersion).0;
    DropAppends(fwd, Some(InInterface + iface + InInterfaceInvalid), None);
    DropAppends(fwd, Some(OutInterface + iface + InInterfaceInvalid), None);
    FormatAppends(fwd, [AppendPrefix, fwd, InInterfaceFlag, iface, EstablishedReturn]);
    FormatAppends(fwd, [AppendPrefix, fwd, OutInterfaceFlag, iface, EstablishedReturn]);
    FormatAppends(fwd, [AppendPrefix, fwd, Jump, cfg.names.fromEndpoint, InInterfaceFlag, iface]);
    FormatAppends(fwd, [AppendPrefix, fwd, Jump, cfg.names.toEndpoint, OutInterfaceFlag, iface]);
    FormatAppends(fwd, [AppendPrefix, fwd, JumpAcceptFlag, InInterfaceFlag, iface]);
    FormatAppends(fwd, [AppendPrefix, fwd, JumpAcceptFlag, OutInterfaceFlag, iface]);
  }
}
