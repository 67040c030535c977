# Calico Felix agent core, modelled in Dafny

This project models the sequential core of two generations of Calico's
per-host agent, Felix, and proves properties of that model.

- **The ZeroMQ-era agent** (`calico/felix/felix.py`, module `Felix`). `FelixAgent`
  keeps a registry of endpoints keyed by endpoint id, a retry set of endpoints
  whose programming failed, and a resync session (`resync_id`, `resync_recd`,
  `resync_expected`, `resync_time`). It handles ENDPOINTCREATED,
  ENDPOINTUPDATED, ENDPOINTDESTROYED, RESYNCSTATE, GETACLSTATE, ACLUPDATE and
  HEARTBEAT messages, and one `run` tick reconnects timed-out sockets, decides
  on an endpoint or ACL resync, sends keepalives and retries failed endpoints.
  The agent is a class whose methods update these fields. Everything it does
  to the outside world (socket sends, (re)connects, keepalives, ACL
  subscriptions, endpoint programming and removal) is appended to an effect
  trace. The ACL_REQ queue is a `seq` field that `clear_queue` empties.
- **The iptables fragment generator** (`calico/felix/plugins/fiptgenerator.py`,
  module `IptGenerator`). This covers port-list chunking under the 15-entry
  multiport limit, `drop_rules`, the per-endpoint to/from chains, the
  per-profile chains, rule-to-fragment translation, and the INPUT, FORWARD and
  NAT chains. Code that builds lists in loops is a method proved equal to a
  specification function. The lemmas state the chain layout in terms of that
  function.
- **The etcd helpers** (`calico/etcdutils.py`, module `EtcdUtils`). These are
  the `PathDispatcher` trie with `<capture>` segments, `ACTION_MAPPING`, the
  authority parsing of `reconnect`, the watch-index rule of
  `wait_for_etcd_event`, and `delete_empty_parents` with the etcd client as an
  oracle.
- **The etcd driver rules** (`calico/etcddriver/driver.py`, module
  `EtcdDriver`). These are the streaming snapshot parser (`parse_snapshot`,
  `_parse_map`) over a JSON token sequence, `_load_config`,
  `_check_cluster_id`, `_on_key_updated` with its ready-key guard, and the key
  URL.
- **Status reporting and config changes** (`calico/felix/fetcd.py`, module
  `FelixEtcd`). These are `combine_statuses`, the two-set, rate-limited dirty
  queue of `EtcdStatusReporter`, and the decisions `_FelixEtcdWatcher` takes on
  config loads, on the first in-sync status and on the hostname-to-IP map.
- **The ipset helpers** (`calico/felix/ipsets.py`, module `Ipsets`). Each
  helper returns the `ipset` commands it issues. A small reference model of the
  `ipset` tool (`Exec`, `Run`) states what those commands do. `list_names` is a
  loop over the lines of `ipset list` output.

Shared helpers live in `wrappers.dfy` (`Option`, `Result`) and `strings.dfy`
(`Module Strings`: Python's `join`, `split`, `strip`, whitespace `split()`,
digit parsing, with their round-trip lemmas).

Abstractions used throughout:

- The clock is a parameter `now` (milliseconds), one value per tick.
- `sock.timed_out()` is an input set of timed-out sockets.
- `program_endpoint()` fails exactly for the ids in an input set `failing`.
- A UUID for a resync is the number of resyncs issued before it. A fresh id
  therefore differs from every earlier one.
- The etcd client's delete is a function from key to outcome.
- The return code of the `ipset list NAME` probe is a parameter.
- A JSON document is a `Json` value, and a streamed one is a sequence of
  `Token`s.

The periodic resync interval is measured from `resync_time`
(`calico/felix/felix.py:620-626`), which `complete_endpoint_resync` sets when a
session ends; `Felix.PeriodicResyncFromCompletion` states this.

## Model

| member | source | states |
|---|---|---|
| `Felix.FelixAgent.constructor` | calico/felix/felix.py:57-135 | the four sockets are connected in order, the first resync (id 0) is sent on EP_REQ, then the global rules are installed; the registry, retry set and ACL queue start empty |
| `Felix.FelixAgent.ResyncEndpoints` | calico/felix/felix.py:165-193 | a fresh session id greater than every earlier one, `resync_recd = 0`, `resync_expected = None`, every endpoint marked pending, the ACL_REQ queue cleared, and exactly one RESYNCSTATE sent on EP_REQ carrying the new id |
| `Felix.FelixAgent.MarkAllPending` | calico/felix/felix.py:175-177 | every registered endpoint gets `pending_resync = True` and nothing else about it changes |
| `Felix.FelixAgent.ResyncAcls` | calico/felix/felix.py:195-212 | the ACL_REQ queue is cleared, then holds exactly one GETACLSTATE request per registered endpoint, with no id twice |
| `Felix.FelixAgent.CompleteEndpointResync` | calico/felix/felix.py:214-232 | id/recd/expected become None and `resync_time = now`; only a successful session removes the endpoints still pending, and it removes exactly those |
| `Felix.FelixAgent.RemovePending` | calico/felix/felix.py:224-232 | the removal loop drops exactly the pending endpoints, keeps the others unchanged, and issues one removal per dropped endpoint |
| `Felix.SessionKeepsExactlyConfirmed` | calico/felix/felix.py:274-275 | across a whole session (mark pending, reconfirm a set of ids, complete successfully) the surviving endpoints are exactly the earlier ones that were reconfirmed, each with its data intact |
| `Felix.DropPendingChanges` | calico/felix/felix.py:224-232 | the successful-completion pruning changes the registry if and only if some endpoint is still pending, and keeps exactly the non-pending ids |
| `Felix.PeriodicResyncFromCompletion` | calico/felix/felix.py:620-626 | a periodic resync is due if and only if no session runs and `now >= completion + RESYNC_INT_SEC*1000 + 1`; after a completion at 1000 ms with a 5 s interval, there is none at 5999 ms and there is one at 6001 ms |
| `Felix.AddressSet` | calico/felix/felix.py:541-546 | the address set is absent exactly when some `addrs` entry lacks an IP, and otherwise holds exactly the listed IPs |
| `Felix.UpdateCheckAccepts` | calico/felix/felix.py:535-561 | `_update_endpoint` accepts exactly when addrs is present with every entry carrying an IP, mac and state are present, and state is a known state; the endpoint then takes exactly those addresses, mac and state |
| `Felix.Reply` | calico/felix/felix.py:279-297 | the reply to ENDPOINTCREATED/ENDPOINTUPDATED has rc SUCCESS exactly when validation passed and INVALID exactly when it failed, with the InvalidRequest text as message |
| `Felix.NullMacCreatedThenRejected` | calico/felix/felix.py:262-277 | a null `mac` does not raise: an unknown endpoint is created without a mac, the reply is INVALID, and it names the mac once the addresses are valid |
| `Felix.RegisteredConfirms` | calico/felix/felix.py:267-275 | an ENDPOINTCREATED for a known endpoint with a resync id reconfirms exactly that endpoint and nothing else |
| `Felix.FelixAgent.CreateEndpoint` | calico/felix/felix.py:503-533 | the new endpoint is registered, subscribed on ACL_SUB, and one GETACLSTATE request for it is queued on ACL_REQ |
| `Felix.FelixAgent.UpdateEndpoint` | calico/felix/felix.py:535-575 | the outcome is the validation result; a rejected request changes nothing; an accepted one stores addresses, mac and state, programs the endpoint, and adds it to `ep_retry` exactly when programming fails |
| `Felix.FelixAgent.HandleEndpointCreated` | calico/felix/felix.py:251-331 | a request whose `mac` key is absent raises KeyError and changes nothing; otherwise (a null `mac` included) the endpoint is created or reconfirmed and updated, a SUCCESS/INVALID reply is always sent on EP_REP, and the session is counted and completed exactly when the resync id matches and this is the last expected ENDPOINTCREATED; a mismatched id leaves the session unchanged |
| `Felix.FelixAgent.AnswerCreated` | calico/felix/felix.py:266-297 | once `mac` has been read: registration, update and exactly one reply on EP_REP, in that order |
| `Felix.FelixAgent.RegisterEndpoint` | calico/felix/felix.py:266-277 | an unknown endpoint is created; a known one carrying a resync id is marked not pending; a known one without an id is left alone |
| `Felix.FelixAgent.CountTowardsResync` | calico/felix/felix.py:299-329 | a matching resync id increments `resync_recd` and completes the session successfully exactly when the new count equals `resync_expected`; any other id changes no counter |
| `Felix.FelixAgent.HandleEndpointUpdated` | calico/felix/felix.py:333-376 | an unknown id gets a NOTEXIST reply and is not created; a known one is validated and updated and gets SUCCESS or INVALID |
| `Felix.FelixAgent.HandleEndpointDestroyed` | calico/felix/felix.py:378-407 | a known endpoint is removed from the registry, unsubscribed, removed and acknowledged; an unknown id changes nothing and sends no reply |
| `Felix.FelixAgent.HandleHeartbeat` | calico/felix/felix.py:409-419 | a heartbeat on EP_REP is answered with a heartbeat, one on a request socket is not |
| `Felix.FelixAgent.HandleResyncState` | calico/felix/felix.py:421-449 | an rc other than SUCCESS ends the session unsuccessfully; a count of 0 or equal to `resync_recd` ends it successfully; otherwise only `resync_expected` is recorded |
| `Felix.FelixAgent.HandleAclUpdate` | calico/felix/felix.py:475-501 | the ACLs of a known endpoint are stored and applied unless it awaits a retry; an unknown id changes nothing |
| `Felix.FelixAgent.Dispatch` | calico/felix/felix.py:593-594 | the new state and the exception are exactly those of the message's handler: the ENDPOINTCREATED, ENDPOINTUPDATED, ENDPOINTDESTROYED, HEARTBEAT, RESYNCSTATE and ACLUPDATE steps, KeyError for an ENDPOINTCREATED without `mac`, and no change for GETACLSTATE; no handler issues a resync |
| `Felix.FelixAgent.DispatchReceived` | calico/felix/felix.py:588-594 | the received entries are handled in order, each one taking the state left by the previous one; an entry without a message changes nothing; the first exception ends the loop and is returned, otherwise every entry is handled |
| `Felix.FelixAgent.ReconnectTimedOut` | calico/felix/felix.py:596-616 | every timed-out socket is reconnected once, in socket order; an endpoint resync is called for exactly when EP_REP timed out, and an ACL resync exactly when ACL_SUB timed out |
| `Felix.ReconnectsExactly` | calico/felix/felix.py:603-616 | a socket is reconnected in a tick if and only if it timed out, and a tick's reconnections are nothing but reconnections |
| `Felix.FelixAgent.ResyncIfNeeded` | calico/felix/felix.py:618-637 | an endpoint resync happens exactly when EP_REP timed out or the periodic rule fires; an ACL resync happens only when ACL_SUB timed out and no endpoint resync happened; otherwise the session, registry and queue are unchanged |
| `Felix.FelixAgent.SendKeepalives` | calico/felix/felix.py:639-642 | one keepalive per socket, in socket order |
| `Felix.FelixAgent.RetryFailed` | calico/felix/felix.py:644-665 | every id of the old retry set is visited once; afterwards `ep_retry` holds exactly the old ids that still exist and failed programming again; effects are the retry trace of that visit order |
| `Felix.FelixAgent.RetryOne` | calico/felix/felix.py:653-665 | a vanished id is dropped silently; an existing one is reprogrammed and either goes back into `ep_retry` (failed) or gets its ACLs applied |
| `Felix.RetryTraceEffects` | calico/felix/felix.py:651-665 | whatever the visit order, the retry pass reprograms exactly the existing endpoints of the retry set and applies ACLs exactly to those whose programming succeeded |
| `Felix.FelixAgent.ServiceSockets` | calico/felix/felix.py:596-665 | the maintenance part of a tick: reconnections, then the resync decision, then keepalives, then the retry pass, with the exact resulting state and effect trace |
| `Felix.FelixAgent.Run` | calico/felix/felix.py:577-665 | the received messages are handled in order as in `DispatchReceived`; an exception ends the tick in the state the raising handler left, with no socket maintenance; otherwise the maintenance of `ServiceSockets` runs on the state the last message left: exact session, registry, ACL queue, retry set (the old one ∩ existing ∩ failing) and effect trace, so a timed-out EP_REP always starts a fresh session with every endpoint pending and the ACL queue empty |
| `Felix.AddressErrorRaisesAttributeError` | calico/felix/felix.py:541-546 | as written, `_update_endpoint` rejects exactly the inputs the intended check rejects, but the missing-address case raises AttributeError (`self.uuid`) instead of InvalidRequest |
| `Felix.MissingAddrsCrashes` | calico/felix/felix.py:541-546 | an ENDPOINTCREATED without `addrs`: the intended reply is INVALID "No valid address…", while as written the agent raises AttributeError |
| `Felix.AsWrittenNeverRepliesInvalid` | calico/felix/felix.py:287-292 | as written, the handlers reply SUCCESS exactly when the intended reply is SUCCESS, and in every other case raise AttributeError instead of replying INVALID (`error.value` does not exist) |
| `Felix.MissingMacCrashes` | calico/felix/felix.py:362-367 | an ENDPOINTUPDATED without a mac: the intended reply is INVALID "No mac address…", while as written the agent raises AttributeError |
| `Felix.CompleteAsWrittenCrashes` | calico/felix/felix.py:224-232 | as written (`del self.endpoints[ep]`), a successful completion survives only when the intended pruning would remove nothing |
| `Felix.UnconfirmedEndpointCrashes` | calico/felix/felix.py:224-232 | one endpoint nobody reconfirms: the intended completion drops it, while as written it raises KeyError |
| `IptGenerator.DropRules` | calico/felix/plugins/fiptgenerator.py:478-509 | `drop_rules` always returns exactly one fragment |
| `IptGenerator.DropRulesText` | calico/felix/plugins/fiptgenerator.py:496-509 | that fragment is the action, the chain, the rule spec if given, "--jump DROP" and the comment argument if given, separated by single spaces |
| `IptGenerator.DropCommentTruncated` | calico/felix/plugins/fiptgenerator.py:497-498 | only the first 255 characters of the comment reach the fragment: extending a 255-character comment does not change the output |
| `IptGenerator.SplitPortLists` | calico/felix/plugins/fiptgenerator.py:723-752 | the chunking loop returns exactly the chunks of the specification function `PortChunks` |
| `IptGenerator.SplitPortListsFlattens` | calico/felix/plugins/fiptgenerator.py:733-752 | concatenating the chunks gives the stringified ports in input order |
| `IptGenerator.SplitPortListsChunks` | calico/felix/plugins/fiptgenerator.py:733-752 | empty input gives `[[]]`; otherwise every chunk is non-empty with weight at most 15 (an entry with ":" weighs 2), and a chunk is cut only when the next entry would exceed 15 |
| `IptGenerator.SplitChunksPassMultiportCheck` | calico/felix/plugins/fiptgenerator.py:818-822 | the translator's count (commas + colons + 1) of every chunk equals its weight, so it is at most 15 |
| `IptGenerator.SplitPortsAlwaysFit` | calico/felix/plugins/fiptgenerator.py:814-823 | for a tcp/udp rule every chunk passes the translator's port checks and yields a multiport match |
| `IptGenerator.InboundOutboundDiffer` | calico/felix/plugins/fiptgenerator.py:635-653 | a profile's inbound and outbound chain names differ |
| `IptGenerator.ProfileChainNames` | calico/felix/plugins/fiptgenerator.py:404-414 | `profile_chain_names` holds exactly two names, the inbound and the outbound chain |
| `IptGenerator.DistinctProfilesDistinctChains` | calico/felix/plugins/fiptgenerator.py:635-653 | in one direction, two profiles share a chain name exactly when `uniquely_shorten` gives their ids the same string |
| `IptGenerator.BuildToOrFromChain` | calico/felix/plugins/fiptgenerator.py:511-633 | the loops building an endpoint chain return exactly the specification chain `ToOrFromChain` and its dependency set `ToOrFromDeps` |
| `IptGenerator.ToOrFromChainEnds` | calico/felix/plugins/fiptgenerator.py:535-633 | the first fragment zeroes the accept mark, the MAC drop is the second fragment exactly when a MAC is expected, and the last fragment is the default DROP; the length is fixed by the tiers and two fragments per profile |
| `IptGenerator.ToOrFromChainProfiles` | calico/felix/plugins/fiptgenerator.py:607-622 | after the tiers, each profile contributes a jump to its chain followed by a return-on-accept, in profile order |
| `IptGenerator.PolicyFragmentsAt` | calico/felix/plugins/fiptgenerator.py:563-586 | within a tier each policy contributes a jump to its chain followed by a return-if-accepted, in order |
| `IptGenerator.ToOrFromChainDeps` | calico/felix/plugins/fiptgenerator.py:553-633 | `deps` holds exactly the chain names of the endpoint's profiles and of the policies in its tiers |
| `IptGenerator.EndpointChainNames` | calico/felix/plugins/fiptgenerator.py:341-353 | with distinct prefixes, there are exactly two endpoint chain names |
| `IptGenerator.EndpointUpdates` | calico/felix/plugins/fiptgenerator.py:355-402 | exactly two chains keyed `to-prefix+suffix` and `from-prefix+suffix`, the names `endpoint_chain_names` gives; the from chain is the outbound chain with the expected MAC, the to chain the inbound chain without one |
| `IptGenerator.MacCheckOnlyWithMac` | calico/felix/plugins/fiptgenerator.py:535-547 | a fragment of an endpoint chain matches on the source MAC exactly when a MAC is expected and it is the second fragment |
| `IptGenerator.ToEndpointChainHasNoMacCheck` | calico/felix/plugins/fiptgenerator.py:372-380 | no fragment of the to-endpoint chain matches on the source MAC |
| `IptGenerator.IpsetPart` | calico/felix/plugins/fiptgenerator.py:802-811 | a tag or selector match fails exactly when its key has no ipset |
| `IptGenerator.PortsPart` | calico/felix/plugins/fiptgenerator.py:813-823 | a port match fails exactly when ports are given and the protocol is not tcp/udp or the multiport count exceeds 15 |
| `IptGenerator.Target` | calico/felix/plugins/fiptgenerator.py:851-874 | the action maps to a target for allow, deny and next-tier, and is an error exactly for any other action; only next-tier adds an extra rule |
| `IptGenerator.InnerFragmentCount` | calico/felix/plugins/fiptgenerator.py:851-885 | a translated rule gives one fragment, or two exactly for next-tier, the second being the RETURN on the next-tier mark |
| `IptGenerator.DropTargetSameText` | calico/felix/plugins/fiptgenerator.py:876-885 | a DROP target routed through `drop_rules` writes the same text as the generic append |
| `IptGenerator.Product` | calico/felix/plugins/fiptgenerator.py:698-699 | the cross product has `|src chunks| * |dst chunks|` pairs, each made of a source chunk and a destination chunk |
| `IptGenerator.ProductCovers` | calico/felix/plugins/fiptgenerator.py:698-699 | every (source chunk, destination chunk) pair appears in the product |
| `IptGenerator.FragmentsOverFails` | calico/felix/plugins/fiptgenerator.py:697-721 | if any pair fails to translate, the whole walk fails |
| `IptGenerator.FailureHasCause` | calico/felix/plugins/fiptgenerator.py:697-721 | a failed walk has a pair whose translation failed |
| `IptGenerator.RuleToIptablesFragments` | calico/felix/plugins/fiptgenerator.py:655-721 | the loop over the product returns exactly `RuleToFragments`: the concatenated translations, or the single "ERROR failed to parse rules" DROP when any pair fails |
| `IptGenerator.RuleWithoutPorts` | calico/felix/plugins/fiptgenerator.py:686-699 | a rule without ports is translated exactly once, with empty port lists |
| `IptGenerator.MissingTagDropsRule` | calico/felix/plugins/fiptgenerator.py:802-805 | a rule whose source tag has no ipset becomes the parse-error DROP as a whole |
| `IptGenerator.ProfileUpdates` | calico/felix/plugins/fiptgenerator.py:416-476 | exactly the two profile chains, each the specification chain: set-accept-mark, the fragments of the rules that apply to the IP version in order, then the "No match" unmark; no dependencies |
| `IptGenerator.OtherVersionRulesIgnored` | calico/felix/plugins/fiptgenerator.py:445-452 | rules for the other IP version contribute nothing: the chain is just the two mark fragments |
| `IptGenerator.RawRpfilterFailedChain` | calico/felix/plugins/fiptgenerator.py:90-113 | one DROP fragment and no dependencies |
| `IptGenerator.NatPreroutingChain` | calico/felix/plugins/fiptgenerator.py:115-145 | the jump to the floating-IP DNAT chain first, plus the metadata DNAT only for IPv4 with a metadata IP; depends on the DNAT chain |
| `IptGenerator.NatPostroutingChain` | calico/felix/plugins/fiptgenerator.py:147-165 | the single jump to the floating-IP SNAT chain, depending on it |
| `IptGenerator.FilterInputChain` | calico/felix/plugins/fiptgenerator.py:167-295 | the INPUT chain builder returns exactly the specification chain `InputChain` and its dependencies |
| `IptGenerator.InputChainEnd` | calico/felix/plugins/fiptgenerator.py:266-293 | the jump to the from-endpoint chain and its dependency appear exactly when the default is not DROP; a DROP default ends with the `drop_rules` DROP, RETURN adds no final rule, any other default ends with a jump to it |
| `IptGenerator.InputChainIcmp6` | calico/felix/plugins/fiptgenerator.py:235-242 | the IPv6 INPUT chain accepts ICMPv6 types 130, 131, 132 (section 3 of RFC 2710) and 133, 135, 136 (sections 4.1, 4.3 and 4.4 of RFC 4861) right after the conntrack rules |
| `IptGenerator.FilterForwardChain` | calico/felix/plugins/fiptgenerator.py:297-339 | eight fragments; the fifth sends traffic from endpoint interfaces to the from-endpoint chain, the sixth traffic to them to the to-endpoint chain; depends on exactly those two chains |
| `IptGenerator.ToOrFromChainAppends` | calico/felix/plugins/fiptgenerator.py:535-633 | every fragment of an endpoint chain appends to that chain |
| `IptGenerator.ProfileChainAppends` | calico/felix/plugins/fiptgenerator.py:438-476 | every fragment of a profile chain appends to that chain |
| `IptGenerator.InputChainAppends` | calico/felix/plugins/fiptgenerator.py:167-295 | every fragment of the INPUT chain appends to the Felix INPUT chain |
| `IptGenerator.ForwardChainAppends` | calico/felix/plugins/fiptgenerator.py:297-339 | every fragment of the FORWARD chain appends to the Felix FORWARD chain |
| `EtcdUtils.ActionMappingTable` | calico/etcdutils.py:19-28 | set/compareAndSwap/create/update map to "set", delete/compareAndDelete/expire map to "delete", and every other action maps to nothing |
| `EtcdUtils.KeyPartsIgnoreSlashes` | calico/etcdutils.py:40 | leading and trailing "/" do not change a key's segments |
| `EtcdUtils.CaptureNameOf` | calico/etcdutils.py:45-46 | a `<name>` segment is a capture called `name`; a literal segment is not a capture |
| `EtcdUtils.PathDispatcher.constructor` | calico/etcdutils.py:35-36 | the dispatcher starts with an empty trie |
| `EtcdUtils.PathDispatcher.Register` | calico/etcdutils.py:38-55 | registration updates the trie in place exactly as the specification `RegisterPath` does, and fails exactly when a capture name conflicts |
| `EtcdUtils.PathDispatcher.RegisterSegments` | calico/etcdutils.py:41-55 | the loop over segments with `setdefault` and the handler stores, equal to `RegisterParts` |
| `EtcdUtils.PathDispatcher.HandleEvent` | calico/etcdutils.py:57-91 | the walk of `_handle` calls exactly the handler the specification `Dispatch` selects, with its captures |
| `EtcdUtils.RegisteredPathDispatches` | calico/etcdutils.py:38-84 | after `register(path, on_set, on_del)`, an event whose key matches the path segment for segment calls the handler of its mapped action with every capture name bound to the key's segment |
| `EtcdUtils.CaptureTakesPrecedence` | calico/etcdutils.py:71-75 | at a node with a capture, the capture consumes the next segment even when a literal child matches it |
| `EtcdUtils.NoHandlerCalled` | calico/etcdutils.py:76-87 | a key that leaves the trie, an unmapped action, or a node without that handler calls nothing |
| `EtcdUtils.ConflictingCaptureFails` | calico/etcdutils.py:45-48 | registering a different capture name where one already sits fails the assertion |
| `EtcdUtils.ParseAuthority` | calico/etcdutils.py:109-114 | an authority without ":" gets port 4001; one with ":" must split into exactly host and integer port |
| `EtcdUtils.ParseAuthorityRoundTrip` | calico/etcdutils.py:109-114 | `host:port` parses back into that host and port |
| `EtcdUtils.ParseAuthorityManyColons` | calico/etcdutils.py:110-111 | an authority with two or more colons raises ValueError |
| `EtcdUtils.ClientOwner.Reconnect` | calico/etcdutils.py:105-127 | a well-formed authority gives a new client for its host and port, keeping the old expected cluster id only when asked to and when there was a client; a malformed one leaves the old client |
| `EtcdUtils.NextIndex` | calico/etcdutils.py:309-310 | the next index is `max(next, modifiedIndex) + 1`, strictly above both |
| `EtcdUtils.NextIndexPassesEvents` | calico/etcdutils.py:309-310 | after n events the index has grown by at least n and lies past every event seen |
| `EtcdUtils.PollOutcome` | calico/etcdutils.py:255-307 | the poll ends without a response exactly when every read timed out or failed to connect |
| `EtcdUtils.Watcher.LoadInitialDump` | calico/etcdutils.py:214-240 | polling resumes one past the snapshot's index |
| `EtcdUtils.Watcher.WaitForEtcdEvent` | calico/etcdutils.py:242-311 | a requested resync ends the wait before any read; otherwise the outcome and reconnect count follow the reads, and only an event moves the index, to `NextIndex` |
| `EtcdUtils.DeleteOrder` | calico/etcdutils.py:364-366 | the keys tried are the child's prefixes from the deepest upward, one per level below the root |
| `EtcdUtils.AttemptedStopsAtFirstGiveUp` | calico/etcdutils.py:364-374 | the deletes tried are a prefix of that order; each but the last deleted its key or found it missing; the loop stops early only at DirNotEmpty or another etcd error |
| `EtcdUtils.DeleteDown` | calico/etcdutils.py:364-374 | the delete loop tries exactly the keys `Attempted` describes |
| `EtcdUtils.DeleteEmptyParents` | calico/etcdutils.py:338-374 | ValueError exactly when the root's segments do not start the child's; otherwise the deletes of the loop |
| `EtcdUtils.DeleteNeverReachesRoot` | calico/etcdutils.py:354-374 | no delete is ever attempted on the root itself or above it |
| `EtcdDriver.ParseMap` | calico/etcddriver/driver.py:697-740 | the token loop of `_parse_map` consumes and emits exactly what the specification `MapLoop` says |
| `EtcdDriver.ParseNodes` | calico/etcddriver/driver.py:725-733 | the loop over a "nodes" array, equal to `NodesLoop` |
| `EtcdDriver.ParseSnapshot` | calico/etcddriver/driver.py:673-695 | emits and fails exactly as `Snapshot` |
| `EtcdDriver.Snapshot` | calico/etcddriver/driver.py:681-694 | a non-200 status, or a first token other than `start_map`, raises ResyncRequired and emits nothing |
| `EtcdDriver.MapOfNode` | calico/etcddriver/driver.py:706-739 | parsing the map of any node tree emits exactly its leaves that have a value, in document order, children before the enclosing map finishes; a directory without a value emits nothing itself |
| `EtcdDriver.NodesOfChildren` | calico/etcddriver/driver.py:725-733 | a "nodes" array of children emits their flattened leaves in order and stops after its end |
| `EtcdDriver.SnapshotOfTree` | calico/etcddriver/driver.py:673-740 | a well-formed 200 response whose root node is any tree emits exactly that tree's leaves, without error |
| `EtcdDriver.ErrorResponseResyncs` | calico/etcddriver/driver.py:722-724 | an "errorCode" key raises ResyncRequired before anything is emitted |
| `EtcdDriver.StrayTokenInNodes` | calico/etcddriver/driver.py:733 | any token other than `start_map` or `end_array` inside "nodes" raises ValueError |
| `EtcdDriver.LoadConfig` | calico/etcddriver/driver.py:296-317 | the loop of `_load_config` returns exactly `LoadConfigSpec`: errorCode 100 gives {}, malformed JSON or a missing field gives ResyncRequired |
| `EtcdDriver.ConfigFromNames` | calico/etcddriver/driver.py:305-316 | the loaded config holds exactly the names of the nodes that have both key and value |
| `EtcdDriver.ConfigFromLastWins` | calico/etcddriver/driver.py:305-316 | a name maps to the value of the last node carrying it |
| `EtcdDriver.MissingDirIsEmpty` | calico/etcddriver/driver.py:310-311 | an etcd "key not found" (errorCode 100) loads as an empty config |
| `EtcdDriver.ConfigNameOfPath` | calico/etcddriver/driver.py:313-314 | a node's name is the last "/"-segment of its key |
| `EtcdDriver.BaseUrl` | calico/etcddriver/driver.py:171 | the base URL is the configured URL with every trailing "/" removed |
| `EtcdDriver.KeyUrl` | calico/etcddriver/driver.py:582-583 | the key URL is the base URL, then "/v2/keys/", then the key stripped of "/" at both ends |
| `EtcdDriver.KeyUrlInjective` | calico/etcddriver/driver.py:582-583 | two keys give the same URL exactly when they are equal once stripped of "/" |
| `EtcdDriver.TrailingSlashIgnored` | calico/etcddriver/driver.py:171 | a trailing "/" on the configured URL does not change any key URL |
| `EtcdDriver.Driver.HandleInit` | calico/etcddriver/driver.py:163-174 | the init message sets the normalised base URL and the hostname and changes nothing else |
| `EtcdDriver.Driver.CheckClusterId` | calico/etcddriver/driver.py:378-401 | the first cluster id is stored, the same id passes, a different id stops the driver and shuts down, and a missing header changes nothing |
| `EtcdDriver.ClusterStep` | calico/etcddriver/driver.py:385-401 | the same rule as a function of the stored id and the header |
| `EtcdDriver.FirstClusterId` | calico/etcddriver/driver.py:392-393 | the id remembered is a non-empty header seen, and none is remembered when no header was non-empty |
| `EtcdDriver.ChecksFromStart` | calico/etcddriver/driver.py:385-401 | over any sequence of responses the driver keeps the first non-empty id and shuts down exactly when a later header differs from it |
| `EtcdDriver.Driver.OnKeyUpdated` | calico/etcddriver/driver.py:549-568 | the ready key with a value other than "true" raises ResyncRequired and sends nothing; any other update sends exactly one UPDATE with that key and value |
| `FelixEtcd.CombineStatuses` | calico/felix/fetcd.py:852-870 | an absent side yields the other; two present reports give a known status word |
| `FelixEtcd.CombineIsWorst` | calico/felix/fetcd.py:864-870 | the merged severity is the maximum of the two (error over down over up); with both present the result is error exactly when either side is |
| `FelixEtcd.CombineSymmetric` | calico/felix/fetcd.py:852-870 | the merge does not depend on argument order |
| `FelixEtcd.CombineAssociative` | calico/felix/fetcd.py:852-870 | merging three reports does not depend on grouping |
| `FelixEtcd.StatusReporter.constructor` | calico/felix/fetcd.py:676-692 | no statuses, empty dirty sets, reporting allowed, no timer and no cleanup pending |
| `FelixEtcd.StatusReporter.MarkEndpointDirty` | calico/felix/fetcd.py:724-735 | the endpoint is added to the newer set only if it is not already in the older set |
| `FelixEtcd.StatusReporter.OnEndpointStatusChanged` | calico/felix/fetcd.py:694-703 | a present status is stored and an absent one removed, for the given IP version only, and the endpoint is marked dirty in both cases |
| `FelixEtcd.StatusReporter.MarkAllDirty` | calico/felix/fetcd.py:708-713 | every endpoint of the set not in the older set joins the newer set |
| `FelixEtcd.StatusReporter.Resync` | calico/felix/fetcd.py:705-713 | every endpoint with a v4 or v6 status is marked dirty |
| `FelixEtcd.StatusReporter.OnTimerPop` | calico/felix/fetcd.py:715-719 | the rate limit lifts and the timer is no longer scheduled |
| `FelixEtcd.StatusReporter.CleanUpEndpointStatuses` | calico/felix/fetcd.py:737-742 | a cleanup becomes pending |
| `FelixEtcd.StatusReporter.AttemptCleanup` | calico/felix/fetcd.py:753-761 | a successful read marks every status found dirty and clears the pending cleanup; a failed read keeps it pending |
| `FelixEtcd.StatusReporter.ReportOne` | calico/felix/fetcd.py:763-787 | when allowed and something is dirty, newer is promoted only if older is empty, at most one endpoint is popped and its combined status written, reporting is then disallowed, and a failed write puts it back into the newer set; when not allowed nothing changes |
| `FelixEtcd.StatusReporter.FinishMsgBatch` | calico/felix/fetcd.py:744-797 | with reporting disabled both status maps and both dirty sets are cleared; otherwise the cleanup result decides the pending flag, then the reporting step runs exactly as in `ReportOne` on the older set and the newer set plus what the cleanup found, and a timer is scheduled exactly when none was and the rate limit is closed or a cleanup is owed |
| `FelixEtcd.Lookup` | calico/felix/fetcd.py:773-774 | `dict.get`: present exactly for a stored key, with its value |
| `FelixEtcd.Watcher.constructor` | calico/felix/fetcd.py:272-314 | not configured, never in sync, no host IPs; its status-reporting flag is the reporter's |
| `FelixEtcd.Watcher.OnConfigLoaded` | calico/felix/fetcd.py:425-483 | the first load stores both dicts, sends the config message once and sets `configured`; a later load asks for a restart exactly when either dict differs |
| `FelixEtcd.Watcher.UpdateHostsIpset` | calico/felix/fetcd.py:634-639 | the hosts ipset is replaced by the current host IPs only once in sync |
| `FelixEtcd.Watcher.OnStatusFromDriver` | calico/felix/fetcd.py:485-513 | the in-sync side effects (splitter notification, status cleanup, hosts ipset) run on the first IN_SYNC status only |
| `FelixEtcd.Watcher.OnHostIpSet` | calico/felix/fetcd.py:610-623 | with IP-in-IP enabled a valid IP is stored and an invalid one deletes the host's entry, then the ipset is updated; otherwise nothing changes |
| `FelixEtcd.Watcher.OnHostIpDelete` | calico/felix/fetcd.py:625-632 | the entry is removed, and the ipset is updated only if an entry was actually removed |
| `FelixEtcd.Watcher.OnConfigUpdated` | calico/felix/fetcd.py:641-647 | once the configuration is loaded, a global parameter whose value differs from the loaded one asks for a restart |
| `FelixEtcd.Watcher.OnHostConfigUpdated` | calico/felix/fetcd.py:649-658 | the same rule for this host's parameters; other hosts are ignored, even before the configuration is loaded |
| `Ipsets.Swap` | calico/felix/ipsets.py:26-30 | exactly one command, the two names in argument order |
| `Ipsets.Flush` | calico/felix/ipsets.py:32-36 | exactly one command naming the set |
| `Ipsets.Create` | calico/felix/ipsets.py:38-49 | the probe first, then the create command exactly when the probe returned non-zero |
| `Ipsets.Destroy` | calico/felix/ipsets.py:51-56 | the probe first, then the destroy command exactly when the probe returned 0 |
| `Ipsets.Add` | calico/felix/ipsets.py:58-62 | always one command, ending in "-exist" |
| `Ipsets.CreateLeavesSetPresent` | calico/felix/ipsets.py:38-49 | after `create` the set exists, and an existing set is left untouched |
| `Ipsets.DestroyLeavesSetAbsent` | calico/felix/ipsets.py:51-56 | after `destroy` the set is gone and nothing else changed, whether or not it existed |
| `Ipsets.AddIdempotent` | calico/felix/ipsets.py:58-62 | `add` succeeds exactly on an existing set, adds the value, and adding it again changes nothing |
| `Ipsets.SwapTwice` | calico/felix/ipsets.py:26-30 | `swap` succeeds exactly on two existing sets of the same type and family, exchanges them, and swapping twice restores the table |
| `Ipsets.FlushEmpties` | calico/felix/ipsets.py:32-36 | `flush` succeeds exactly on an existing set and empties it, keeping its type and family |
| `Ipsets.ListNames` | calico/felix/ipsets.py:64-79 | the loop returns exactly `NamesIn` of the output's lines |
| `Ipsets.NameLines` | calico/felix/ipsets.py:74-77 | a "Name: n" line gives n; a bare "Name:" line and a line starting with any other word give nothing |
| `Ipsets.NamesInAppend` | calico/felix/ipsets.py:74-79 | names are collected line by line in input order |
| `Ipsets.ListNamesOfHeaders` | calico/felix/ipsets.py:64-79 | for output made of "Name: n" lines, `list_names` returns exactly those names in order |

## Left out

- Sockets and the fsocket module are not modelled: `fsocket.poll`, `sock.receive`, send queues, `keepalive` and `communicate`. Their effects are entries in the agent's effect trace, and `timed_out()` is an input.
- Endpoint programming, ACL compilation and `frules` are not part of this model. `program_endpoint` is the input set `failing`, `update_acls` and `remove` are effects, and the rule cleanup at the end of `complete_endpoint_resync` (calico/felix/felix.py:234-249) is left out.
- Felix.FelixAgent.Run: an exception from a handler propagates out of `run` in the source and ends the process; here it is returned as `raised` and the tick stops there.
- Felix.FelixAgent.Run: the order in which `run` visits its sockets is fixed as EP_REQ, EP_REP, ACL_REQ, ACL_SUB, because the Python dict order is not specified. The visit order of the retry set and of the endpoint dict is arbitrary.
- Felix.FelixAgent.Dispatch: GETACLSTATE only logs in the source, so it changes nothing here. An unknown message type, which raises KeyError in the source, cannot be represented.
- Felix.FelixAgent.HandleHeartbeat: the source asserts that no heartbeat arrives on ACL_SUB. That is a precondition here.
- UUIDs are a counter: `resync_id` is the number of resyncs issued before it.
- `futils.time_ms()` is the single `now` of the tick. The source reads the clock again inside the handlers.
- `_update_endpoint`'s `Address(addr)` construction is reduced to taking the address's IP. Gateways are not kept.
- Felix.FelixAgent.UpdateEndpoint: the UnicodeEncodeError that `mac.encode('ascii')` and `state.encode('ascii')` (calico/felix/felix.py:566-567) raise on non-ASCII text is not modelled. Strings are stored as given.
- Felix.FelixAgent.HandleEndpointCreated: of the mandatory fields the handler reads directly, only an absent `mac` is modelled, as KeyError; a null `mac` is modelled and reaches validation. The endpoint id is always present in a decoded message here.
- Felix.FelixAgent.UpdateEndpoint: an `addrs` that is present but null is treated like a missing one (INVALID "No valid address"). In the source, iterating over null raises TypeError, which the `except KeyError` does not catch, so the handler escapes after the endpoint was created and sends no reply. Likewise, an `addrs` entry that is not a dict is not representable.
- IptGenerator.DistinctProfilesDistinctChains: `futils.uniquely_shorten` is not part of this model. It is a parameter `shorten`, so chain names are distinct only up to its collisions.
- `drop_rules`' comment assertion is not modelled. The regular expression `[\w: ]{,255}` always matches a prefix, so the assertion never fires.
- `store_and_validate_config` is not modelled. The chain names and marks are fields of `Config`, set once.
- `KNOWN_RULE_KEYS`, the unknown-keys assertion, and the `str()` of non-string protocols are not modelled. A rule is a typed record here.
- Only the translation errors the model can name are caught as failures: a missing tag or selector ipset, ports with a protocol other than tcp/udp, too many ports, ICMP type 255, a non-integer ICMP type or code, ICMPv6 without protocol icmpv6, and an unknown action. Any other Python exception is not modelled.
- The tier dict of `_build_to_or_from_chain` is a sequence of (tier, policies) pairs in the dict's iteration order.
- IptGenerator.EndpointChainNames: the two-name property is stated only when the to- and from-prefixes differ, which holds for the configured prefixes.
- EtcdUtils.PathDispatcher.Register: the nested dicts are flattened into node positions. A literal path segment spelled "capture", "set" or "delete" would collide with the dict's reserved keys in the source, and this is not modelled.
- EtcdUtils.PathDispatcher.HandleEvent returns the handler call instead of making it. The handler functions are opaque numbers.
- EtcdUtils.Watcher.WaitForEtcdEvent: the HTTP requests, `_on_pre_resync`, and the cluster-id and index-cleared checks are reduced to a sequence of read outcomes.
- `EtcdWatcher.loop` and `wait_for_ready` (retry loops with sleeps) are not modelled.
- EtcdUtils.Watcher.LoadInitialDump: the retry loop of `load_initial_dump` (calico/etcdutils.py:222-233) is not modelled. That loop sleeps while the directory is missing and re-raises EtcdKeyNotFound once the watcher is stopped. The index of the snapshot finally read is an input.
- FelixEtcd.Watcher.OnConfigUpdated and OnHostConfigUpdated require the configuration to be loaded for this host's parameters. Before that, the source reads `None.get` and raises AttributeError, which the driver's message order rules out.
- `ijson`, `json` and `msgpack` are not modelled. The JSON token stream and the parsed JSON value are inputs.
- The driver's greenlets, threads, queues and sockets are not modelled: `start`, `_resync_and_merge`, `watch_etcd`, `_handle_next_watcher_event`, `_scan_for_deletions`, `_process_snapshot_and_events` and the HighWaterTracker. calico/etcddriver/protocol.py is not part of this model.
- The status reporter's and watcher's greenlets, gevent timers, the random jitter of timeouts and the periodic loops (`_periodically_*`) are not modelled. The timer is the `timerScheduled` flag.
- FelixEtcd.StatusReporter.AttemptCleanup: the deletion of empty status directories (`delete_empty_parents`) is not modelled. `get_endpoint_id_from_key` is reduced to the set of endpoints found.
- FelixEtcd.StatusReporter.ReportOne: the etcd write or delete itself is an entry in `writes`, and its failure is the input `writeOk`.
- FelixEtcd.Watcher.OnConfigLoaded: `die_and_restart` is the `restartRequested` flag, and the message sent to the driver is a counter.
- FelixEtcd.Watcher.OnHostIpSet: `canonicalise_ip` and `validate_ipv4_addr` are reduced to an optional parsed IP.
- `parse_if_*` and `parse_*` in fetcd.py and the other `on_*_set/delete` handlers only forward to the splitter, so they are not modelled.
- The swapped "deleted"/"updated" stat labels in `on_endpoint_status_changed` (calico/felix/fetcd.py:697-700) are not modelled, because statistics counters are left out.
- Ipsets: `futils.check_call` and `call_silent` are abstracted. A command is its argument vector, and a failed checked command is `None` in the reference model.
- Logging and statistics are not modelled.

## Findings

| source | as written | input that shows it | evidently intended | confidence | as-written member | corrected member |
|---|---|---|---|---|---|---|
| calico/felix/felix.py:543-546 | the handler for a missing `addrs` list logs `self.uuid`, an attribute the agent does not have | ENDPOINTCREATED with `mac` and `state` but no `addrs` | raise InvalidRequest "No valid address for endpoint %s", reply INVALID | high, not executed | `Felix.MissingAddrsCrashes` | `Felix.UpdateCheckAccepts` |
| calico/felix/felix.py:287-292 | `except InvalidRequest as error` reads `error.value`, which the exception class (calico/felix/felix.py:704-708) does not define | ENDPOINTUPDATED for a known endpoint with `addrs` and `state` but no `mac` | reply rc INVALID with the exception's message | high, not executed | `Felix.AsWrittenNeverRepliesInvalid` | `Felix.Reply` |
| calico/felix/felix.py:232 | `del self.endpoints[ep]` deletes by the endpoint object instead of its id | a successful resync that leaves one endpoint unconfirmed | remove that endpoint's id from the registry | high, not executed | `Felix.UnconfirmedEndpointCrashes` | `Felix.SessionKeepsExactlyConfirmed` |
