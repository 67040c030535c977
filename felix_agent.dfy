/**
 * The ZeroMQ-era Felix agent: a registry of endpoints keyed by endpoint id,
 * a set of endpoints whose programming must be retried, and a resync session
 * (id, ENDPOINTCREATED count, expected count, time of the last completion)
 * driven by the messages that arrive on four sockets and by one `run` tick.
 *
 * Sockets, the clock, endpoint programming and UUID generation are abstracted:
 * everything the agent does to the outside world is appended to `effects`,
 * requests for ACL state are appended to `aclQueue` (the ACL_REQ socket's
 * queue, which `clear_queue` empties), the time of a tick is a parameter
 * `now`, `program_endpoint` fails exactly for the ids in a parameter
 * `failing`, and a resync id is the number of resyncs issued before it.
 */
module Felix {
  import opened Wrappers

  const RcSuccess: string := "SUCCESS"
  const RcInvalid: string := "INVALID"
  const RcNotExist: string := "NOTEXIST"

  /** The four sockets the agent owns. */
  datatype SocketType = EpReq | EpRep | AclReq | AclSub

  /** The order in which `run` visits its sockets. */
  const SocketOrder: seq<SocketType> := [EpReq, EpRep, AclReq, AclSub]

  /**
   * The `resync_id` field of an ENDPOINTCREATED: absent (None), present but
   * empty (not None, yet false), or the id of some resync.
   */
  datatype ResyncTag = NoTag | EmptyTag | Tag(id: nat)

  /**
   * A field of a JSON request that is read both by indexing, which fails
   * only on a missing key, and by `get`, which gives None for a missing key
   * and for null alike.
   */
  datatype Field<T> = Missing | Null | Given(value: T)
  {
    /** The field as `fields.get(key)` sees it. */
    function Get(): Option<T>
    {
      if Given? then Some(value) else None
    }
  }

  /**
   * The fields of an ENDPOINTCREATED or ENDPOINTUPDATED request. None marks a
   * missing or null `state`, a missing `addrs` list, or an entry of that list
   * without an IP.
   */
  datatype EpFields = EpFields(
    endpointId: string,
    mac: Field<string>,
    state: Option<string>,
    addrs: Option<seq<Option<string>>>,
    resyncTag: ResyncTag)

  /** The ACL document of an ACLUPDATE; only stored here. */
  type AclData = string

  /** An incoming message, already decoded. */
  datatype Message =
    | Heartbeat
    | EndpointCreated(fields: EpFields)
    | EndpointUpdated(fields: EpFields)
    | EndpointDestroyed(endpointId: string)
    | ResyncState(endpointCount: int, rc: string, text: string)
    | GetAclState(rc: string, text: string)
    | AclUpdate(endpointId: string, acls: AclData)

  datatype ReplyKind = CreatedReply | UpdatedReply | DestroyedReply

  /** A message the agent sends on EP_REQ or EP_REP. */
  datatype Outgoing =
    | ResyncRequest(resyncId: nat, issued: int, hostname: string)
    | Response(kind: ReplyKind, rc: string, text: string)
    | HeartbeatReply

  /** A GETACLSTATE request waiting in the ACL_REQ queue. */
  datatype AclRequest = AclRequest(endpointId: string, issued: int)

  /** What the agent does to its sockets, its endpoints and the firewall. */
  datatype Effect =
    | Connect(sock: SocketType)
    | Reconnect(sock: SocketType)
    | Keepalive(sock: SocketType)
    | Send(sock: SocketType, msg: Outgoing)
    | Subscribe(id: string)
    | Unsubscribe(id: string)
    | Program(id: string)
    | UpdateAcls(id: string)
    | Remove(id: string)
    | SetGlobalRules

  /** The agent's view of one endpoint. */
  datatype Endpoint = Endpoint(
    mac: Option<string>,
    pendingResync: bool,
    addresses: set<string>,
    state: Option<string>,
    acls: Option<AclData>)

  /** An endpoint just learnt of: not awaiting a resync, no addresses, state or ACLs yet. */
  function NewEndpoint(mac: Option<string>): Endpoint
  {
    Endpoint(mac, false, {}, None, None)
  }

  type Registry = map<string, Endpoint>

  /** Every endpoint marked as awaiting confirmation by the new resync. */
  function MarkPending(eps: Registry): Registry
  {
    map id | id in eps :: eps[id].(pendingResync := true)
  }

  /** The ids in `confirmed` reconfirmed by ENDPOINTCREATED messages of the running resync. */
  function Confirm(eps: Registry, confirmed: set<string>): Registry
  {
    map id | id in eps :: if id in confirmed then eps[id].(pendingResync := false) else eps[id]
  }

  /** The registry after a successful resync: endpoints still awaiting confirmation are gone. */
  function DropPending(eps: Registry): Registry
  {
    map id | id in eps && !eps[id].pendingResync :: eps[id]
  }

  function PendingIds(eps: Registry): set<string>
  {
    set id | id in eps && eps[id].pendingResync
  }

  /**
   * A resync started from any registry and completed successfully keeps
   * exactly the endpoints reconfirmed during it, each with its data intact.
   */
  lemma SessionKeepsExactlyConfirmed(eps: Registry, confirmed: set<string>)
    ensures DropPending(Confirm(MarkPending(eps), confirmed)).Keys == eps.Keys * confirmed
    ensures forall id :: id in DropPending(Confirm(MarkPending(eps), confirmed)) ==>
      DropPending(Confirm(MarkPending(eps), confirmed))[id] == eps[id].(pendingResync := false)
  {
    var r := DropPending(Confirm(MarkPending(eps), confirmed));
    forall id | id in eps.Keys * confirmed
      ensures id in r
    {
      assert Confirm(MarkPending(eps), confirmed)[id] == eps[id].(pendingResync := false);
    }
  }

  /** Dropping the unconfirmed endpoints changes the registry exactly when one is awaiting confirmation. */
  lemma DropPendingChanges(eps: Registry)
    ensures DropPending(eps) == eps <==> PendingIds(eps) == {}
    ensures DropPending(eps).Keys == eps.Keys - PendingIds(eps)
  {
    if PendingIds(eps) != {} {
      var id :| id in PendingIds(eps);
      assert id !in DropPending(eps);
    } else {
      forall id | id in eps
        ensures id in DropPending(eps)
      {
        assert id !in PendingIds(eps);
      }
    }
  }

  /**
   * The periodic resync rule of `run`: no resync is running and more than
   * the interval has passed since the last one completed.
   */
  predicate ResyncDue(resyncId: Option<nat>, resyncTime: Option<int>, now: int, intervalSec: int)
    requires resyncId.None? ==> resyncTime.Some?
  {
    resyncId.None? && now - resyncTime.value > intervalSec * 1000
  }

  /** The interval counts from the completion of the last resync, and never while one runs. */
  lemma PeriodicResyncFromCompletion(done: int, now: int, intervalSec: int, running: nat, t: Option<int>)
    ensures ResyncDue(None, Some(done), now, intervalSec) <==> now >= done + intervalSec * 1000 + 1
    ensures !ResyncDue(Some(running), t, now, intervalSec)
    ensures !ResyncDue(None, Some(1000), 5999, 5) && ResyncDue(None, Some(1000), 6001, 5)
  {
  }

  /** The addresses of an `addrs` list; None as soon as one entry carries no IP. */
  function AddressSet(addrs: seq<Option<string>>): (r: Option<set<string>>)
    ensures r.None? <==> exists i :: 0 <= i < |addrs| && addrs[i].None?
    ensures r.Some? ==> forall a :: a in r.value <==> exists i :: 0 <= i < |addrs| && addrs[i] == Some(a)
  {
    if addrs == [] then Some({})
    else
      var init := addrs[..|addrs| - 1];
      var last := addrs[|addrs| - 1];
      assert forall i :: 0 <= i < |init| ==> init[i] == addrs[i];
      match AddressSet(init)
      case None => None
      case Some(s) => if last.None? then None else Some(s + {last.value})
  }

  const NoAddressText: string := "No valid address for endpoint %s"
  const NoMacText: string := "No mac address for endpoint %s"
  const NoStateText: string := "No state for endpoint %s"

  function InvalidStateText(state: string, uuid: string): string
  {
    "Invalid state " + state + " for endpoint " + uuid
  }

  function NotExistText(id: string): string
  {
    "Endpoint " + id + " does not exist"
  }

  /** The new data of an endpoint, once a request has passed validation. */
  datatype Update = Update(addresses: set<string>, mac: string, state: string)

  /**
   * The validation of `_update_endpoint`: the InvalidRequest text it raises
   * or the data it stores. Checks run in order: addresses, mac, state, known state.
   */
  function UpdateCheck(f: EpFields, states: set<string>, uuid: string): (r: Result<Update, string>)
  {
    if f.addrs.None? || AddressSet(f.addrs.value).None? then Failure(NoAddressText)
    else if !f.mac.Given? then Failure(NoMacText)
    else if f.state.None? then Failure(NoStateText)
    else if f.state.value !in states then Failure(InvalidStateText(f.state.value, uuid))
    else Success(Update(AddressSet(f.addrs.value).value, f.mac.value, f.state.value))
  }

  /**
   * A request passes validation exactly when it lists addresses that all
   * carry an IP, a mac and a known state; the endpoint then takes exactly
   * those addresses, that mac and that state.
   */
  lemma UpdateCheckAccepts(f: EpFields, states: set<string>, uuid: string)
    ensures UpdateCheck(f, states, uuid).Success? <==>
      && f.addrs.Some? && (forall i :: 0 <= i < |f.addrs.value| ==> f.addrs.value[i].Some?)
      && f.mac.Given? && f.state.Some? && f.state.value in states
    ensures UpdateCheck(f, states, uuid).Success? ==>
      && UpdateCheck(f, states, uuid).value.mac == f.mac.value
      && UpdateCheck(f, states, uuid).value.state == f.state.value
      && (forall a :: a in UpdateCheck(f, states, uuid).value.addresses <==>
            exists i :: 0 <= i < |f.addrs.value| && f.addrs.value[i] == Some(a))
  {
  }

  /** The reply to an ENDPOINTCREATED or ENDPOINTUPDATED that reached validation. */
  function Reply(kind: ReplyKind, c: Result<Update, string>): (m: Outgoing)
    ensures m.Response? && m.kind == kind
    ensures m.rc == RcSuccess <==> c.Success?
    ensures m.rc == RcInvalid <==> c.Failure?
    ensures c.Failure? ==> m.text == c.error
  {
    if c.Success? then Response(kind, RcSuccess, "") else Response(kind, RcInvalid, c.error)
  }

  /** The endpoint's data after validation: replaced on success, untouched otherwise. */
  function Applied(eps: Registry, id: string, c: Result<Update, string>): Registry
    requires id in eps
  {
    if c.Success? then
      eps[id := eps[id].(addresses := c.value.addresses, mac := Some(c.value.mac), state := Some(c.value.state))]
    else eps
  }

  /**
   * The registry after the first step of ENDPOINTCREATED: an unknown id is
   * created; a known one carrying a resync tag is reconfirmed.
   */
  function Registered(eps: Registry, f: EpFields): Registry
  {
    var id := f.endpointId;
    if id !in eps then eps[id := NewEndpoint(f.mac.Get())]
    else if f.resyncTag != NoTag then eps[id := eps[id].(pendingResync := false)]
    else eps
  }

  /**
   * A `mac` that is present but null passes the read of ENDPOINTCREATED: an
   * unknown endpoint is created without a mac, and validation then rejects
   * the request, for its mac once its addresses are valid.
   */
  lemma NullMacCreatedThenRejected(eps: Registry, f: EpFields, states: set<string>, uuid: string)
    requires f.mac.Null?
    ensures f.endpointId !in eps ==> Registered(eps, f) == eps[f.endpointId := NewEndpoint(None)]
    ensures Reply(CreatedReply, UpdateCheck(f, states, uuid)).rc == RcInvalid
    ensures f.addrs.Some? && AddressSet(f.addrs.value).Some? ==> UpdateCheck(f, states, uuid) == Failure(NoMacText)
  {
  }

  /** Reconfirming a known endpoint is the one-id case of `Confirm`. */
  lemma RegisteredConfirms(eps: Registry, f: EpFields)
    requires f.endpointId in eps && f.resyncTag != NoTag
    ensures Registered(eps, f) == Confirm(eps, {f.endpointId})
  {
    assert Registered(eps, f).Keys == Confirm(eps, {f.endpointId}).Keys;
  }

  /** An ENDPOINTCREATED counts towards the running resync when it carries that resync's id. */
  predicate Counts(tag: ResyncTag, resyncId: Option<nat>)
  {
    tag.Tag? && resyncId == Some(tag.id)
  }

  /** The counted ENDPOINTCREATED is the last one the resync response announced. */
  predicate Completes(recd: Option<nat>, expected: Option<int>)
  {
    recd.Some? && expected == Some(recd.value + 1)
  }

  /** What ENDPOINTCREATED does before any completion of the resync. */
  function CreatedEffects(isNew: bool, id: string, c: Result<Update, string>): seq<Effect>
  {
    (if isNew then [Subscribe(id)] else []) + (if c.Success? then [Program(id)] else [])
      + [Send(EpRep, Reply(CreatedReply, c))]
  }

  /** `es` removes exactly the endpoints `ids`. */
  ghost predicate Removals(es: seq<Effect>, ids: set<string>)
  {
    (forall e :: e in es ==> e.Remove? && e.id in ids) && (forall id :: id in ids ==> Remove(id) in es)
  }

  /** `es` reprograms every endpoint of `ids` and applies ACLs to those that now succeed. */
  ghost predicate RetryEffects(es: seq<Effect>, ids: set<string>, failing: set<string>)
  {
    && (forall e :: e in es ==> (e.Program? && e.id in ids) || (e.UpdateAcls? && e.id in ids && e.id !in failing))
    && (forall id :: id in ids ==> Program(id) in es)
    && (forall id :: id in ids && id !in failing ==> UpdateAcls(id) in es)
  }

  /** One GETACLSTATE request per id of `ids`, each issued at `now`. */
  ghost predicate OneRequestEach(q: seq<AclRequest>, ids: set<string>, now: int)
  {
    && (forall i :: 0 <= i < |q| ==> q[i].endpointId in ids && q[i].issued == now)
    && (forall id :: id in ids ==> AclRequest(id, now) in q)
    && (forall i, j :: 0 <= i < j < |q| ==> q[i].endpointId != q[j].endpointId)
  }

  /** The reconnections of one `run` tick: every timed-out socket, in socket order. */
  function Reconnects(socks: seq<SocketType>, timedOut: set<SocketType>): seq<Effect>
  {
    if socks == [] then []
    else
      var last := socks[|socks| - 1];
      Reconnects(socks[..|socks| - 1], timedOut) + (if last in timedOut then [Reconnect(last)] else [])
  }

  /** One keepalive per socket, in socket order. */
  function Keepalives(socks: seq<SocketType>): seq<Effect>
  {
    if socks == [] then [] else Keepalives(socks[..|socks| - 1]) + [Keepalive(socks[|socks| - 1])]
  }

  /** A timed-out socket is reconnected exactly once in a tick; others are left alone. */
  lemma {:induction false} ReconnectsExactly(socks: seq<SocketType>, timedOut: set<SocketType>, s: SocketType)
    requires forall i, j :: 0 <= i < j < |socks| ==> socks[i] != socks[j]
    ensures Reconnect(s) in Reconnects(socks, timedOut) <==> s in timedOut && s in socks
    ensures forall e :: e in Reconnects(socks, timedOut) ==> e.Reconnect?
  {
    if socks != [] {
      var init := socks[..|socks| - 1];
      ReconnectsExactly(init, timedOut, s);
      assert socks == init + [socks[|socks| - 1]];
    }
  }

  /** Raised by `_update_endpoint` and its callers as written. */
  datatype Raised = InvalidRequest(text: string) | AttributeError(name: string) | KeyError(key: string)

  /**
   * `_update_endpoint` as written: the handler for a missing address list
   * or an address without an IP reads `self.uuid`, which the agent does not
   * have, so it raises AttributeError instead of InvalidRequest.
   */
  function UpdateCheckAsWritten(f: EpFields, states: set<string>, uuid: string): (r: Result<Update, Raised>)
  {
    if f.addrs.None? || AddressSet(f.addrs.value).None? then Failure(AttributeError("uuid"))
    else
      match UpdateCheck(f, states, uuid)
      case Success(u) => Success(u)
      case Failure(t) => Failure(InvalidRequest(t))
  }

  /** As written, exactly the requests the intended check rejects for their addresses crash the agent. */
  lemma AddressErrorRaisesAttributeError(f: EpFields, states: set<string>, uuid: string)
    ensures UpdateCheckAsWritten(f, states, uuid).Failure? <==> UpdateCheck(f, states, uuid).Failure?
    ensures UpdateCheckAsWritten(f, states, uuid) == Failure(AttributeError("uuid")) <==>
      UpdateCheck(f, states, uuid) == Failure(NoAddressText)
  {
    if f.addrs.Some? && AddressSet(f.addrs.value).Some? && f.mac.Given? && f.state.Some? && f.state.value !in states {
      assert InvalidStateText(f.state.value, uuid)[0] == 'I' != NoAddressText[0];
    }
  }

  /** An ENDPOINTCREATED without an address list: the intended reply is INVALID; as written the agent crashes. */
  lemma MissingAddrsCrashes()
    ensures UpdateCheck(EpFields("ep1", Given("aa:bb"), Some("enabled"), None, NoTag), {"enabled"}, "ep1")
      == Failure(NoAddressText)
    ensures UpdateCheckAsWritten(EpFields("ep1", Given("aa:bb"), Some("enabled"), None, NoTag), {"enabled"}, "ep1")
      == Failure(AttributeError("uuid"))
  {
  }

  /**
   * The reply of ENDPOINTCREATED/ENDPOINTUPDATED as written: the handler for
   * InvalidRequest reads `error.value`, which the exception does not have.
   */
  function ReplyAsWritten(kind: ReplyKind, r: Result<Update, Raised>): (m: Result<Outgoing, Raised>)
  {
    match r
    case Success(_) => Success(Response(kind, RcSuccess, ""))
    case Failure(InvalidRequest(_)) => Failure(AttributeError("value"))
    case Failure(e) => Failure(e)
  }

  /**
   * As written, the agent never replies INVALID: it replies SUCCESS exactly
   * when the intended reply is SUCCESS, and otherwise raises AttributeError.
   */
  lemma AsWrittenNeverRepliesInvalid(kind: ReplyKind, f: EpFields, states: set<string>, uuid: string)
    ensures var m := ReplyAsWritten(kind, UpdateCheckAsWritten(f, states, uuid));
      && (m.Success? <==> Reply(kind, UpdateCheck(f, states, uuid)).rc == RcSuccess)
      && (m.Success? ==> m.value == Reply(kind, UpdateCheck(f, states, uuid)))
      && (m.Failure? ==> m.error.AttributeError?)
  {
    AddressErrorRaisesAttributeError(f, states, uuid);
  }

  /** An ENDPOINTUPDATED without a mac: the intended reply is INVALID; as written the agent crashes. */
  lemma MissingMacCrashes()
    ensures Reply(UpdatedReply, UpdateCheck(EpFields("ep1", Missing, Some("enabled"), Some([Some("10.0.0.1")]), NoTag), {"enabled"}, "ep1"))
      == Response(UpdatedReply, RcInvalid, NoMacText)
    ensures ReplyAsWritten(UpdatedReply, UpdateCheckAsWritten(EpFields("ep1", Missing, Some("enabled"), Some([Some("10.0.0.1")]), NoTag), {"enabled"}, "ep1"))
      == Failure(AttributeError("value"))
  {
    var addrs := [Some("10.0.0.1")];
    assert AddressSet(addrs).Some? by {
      assert addrs[0].Some?;
    }
  }

  /**
   * The removal loop of `complete_endpoint_resync` as written: it deletes
   * the endpoint object rather than its id, so a successful resync that
   * finds any endpoint still awaiting confirmation raises KeyError.
   */
  function CompleteAsWritten(eps: Registry, successful: bool): (r: Result<Registry, string>)
  {
    if successful && PendingIds(eps) != {} then Failure("KeyError") else Success(eps)
  }

  /** As written, a successful resync only survives when the intended one would remove nothing. */
  lemma CompleteAsWrittenCrashes(eps: Registry)
    ensures CompleteAsWritten(eps, true).Success? <==> DropPending(eps) == eps
    ensures CompleteAsWritten(eps, true).Success? ==> CompleteAsWritten(eps, true).value == DropPending(eps)
  {
    DropPendingChanges(eps);
  }

  /** A resync that nobody reconfirms: intended, the endpoint is dropped; as written the agent crashes. */
  lemma UnconfirmedEndpointCrashes()
    ensures CompleteAsWritten(MarkPending(map["ep1" := NewEndpoint(None)]), true) == Failure("KeyError")
    ensures DropPending(MarkPending(map["ep1" := NewEndpoint(None)])) == map[]
  {
    var m := MarkPending(map["ep1" := NewEndpoint(None)]);
    assert m["ep1"].pendingResync;
    assert "ep1" in PendingIds(m);
  }

  /** Reprogramming one more endpoint extends the retry pass's effects by that endpoint. */
  lemma RetryEffectsGrow(es: seq<Effect>, ids: set<string>, failing: set<string>, id: string, es2: seq<Effect>)
    requires RetryEffects(es, ids, failing)
    requires es2 == es + (if id in failing then [Program(id)] else [Program(id), UpdateAcls(id)])
    ensures RetryEffects(es2, ids + {id}, failing)
  {
  }

  /** What retrying one id does: nothing for a vanished endpoint, a reprogram, and ACLs once it succeeds. */
  function RetryStepEffects(id: string, keys: set<string>, failing: set<string>): seq<Effect>
  {
    if id !in keys then [] else if id in failing then [Program(id)] else [Program(id), UpdateAcls(id)]
  }

  /** The effects of retrying the ids of `order`, one after the other. */
  function RetryTrace(order: seq<string>, keys: set<string>, failing: set<string>): seq<Effect>
  {
    if order == [] then []
    else RetryTrace(order[..|order| - 1], keys, failing) + RetryStepEffects(order[|order| - 1], keys, failing)
  }

  /** Four appends in a row, regrouped around the middle three. */
  lemma AppendChain<T>(e0: seq<T>, e1: seq<T>, e2: seq<T>, e3: seq<T>, e4: seq<T>)
    requires e0 <= e1 <= e2 <= e3 <= e4
    ensures e4 == e0 + (e1[|e0|..] + e2[|e1|..] + e3[|e2|..]) + e4[|e3|..]
  {
  }

  /** Retrying one more id appends that id's effects to the trace. */
  lemma RetryTraceSnoc(e0: seq<Effect>, order: seq<string>, id: string, keys: set<string>, failing: set<string>)
    ensures e0 + RetryTrace(order + [id], keys, failing) == e0 + RetryTrace(order, keys, failing) + RetryStepEffects(id, keys, failing)
  {
    assert (order + [id])[..|order|] == order;
  }

  /** Retrying the ids in any order reprograms exactly the live ones and applies ACLs to those that succeed. */
  lemma {:induction false} RetryTraceEffects(order: seq<string>, keys: set<string>, failing: set<string>)
    ensures RetryEffects(RetryTrace(order, keys, failing), (set x | x in order) * keys, failing)
  {
    if order != [] {
      var init := order[..|order| - 1];
      var id := order[|order| - 1];
      RetryTraceEffects(init, keys, failing);
      assert (set x | x in order) == (set x | x in init) + {id} by {
        assert order == init + [id];
      }
      if id in keys {
        RetryEffectsGrow(RetryTrace(init, keys, failing), (set x | x in init) * keys, failing, id,
                         RetryTrace(order, keys, failing));
        assert (set x | x in order) * keys == (set x | x in init) * keys + {id};
      } else {
        assert (set x | x in order) * keys == (set x | x in init) * keys;
      }
    }
  }

  /** The resync session: its id, how many ENDPOINTCREATED it has counted, how many it expects, and when the last one ended. */
  datatype SessionState = SessionState(id: Option<nat>, recd: Option<nat>, expected: Option<int>, time: Option<int>)

  /**
   * The session after an ENDPOINTCREATED with tag `tag`: counted and
   * completed at `now` when it is the last one announced, counted when it
   * carries the running resync's id, untouched otherwise.
   */
  predicate SessionCounted(tag: ResyncTag, now: int, before: SessionState, after: SessionState)
  {
    if Counts(tag, before.id) && Completes(before.recd, before.expected) then
      after == SessionState(None, None, None, Some(now))
    else if Counts(tag, before.id) then
      before.recd.Some? && after == before.(recd := Some(before.recd.value + 1))
    else
      after == before
  }

  /** A snapshot of the agent's mutable state. */
  datatype AgentState = AgentState(
    endpoints: Registry,
    epRetry: set<string>,
    session: SessionState,
    resyncsIssued: nat,
    aclQueue: seq<AclRequest>,
    effects: seq<Effect>)

  /**
   * `handle_endpointcreated` once the `mac` field has been read: the endpoint
   * is registered or reconfirmed, validated and updated, a SUCCESS or
   * INVALID reply goes out on EP_REP, and the request is counted towards the
   * running resync, whose completion removes the endpoints still pending.
   */
  ghost predicate CreatedStep(f: EpFields, now: int, failing: set<string>, states: set<string>,
                              b: AgentState, a: AgentState, removed: seq<Effect>)
  {
    var id := f.endpointId;
    var c := UpdateCheck(f, states, id);
    var ap := Applied(Registered(b.endpoints, f), id, c);
    var completes := Counts(f.resyncTag, b.session.id) && Completes(b.session.recd, b.session.expected);
    && a.endpoints == (if completes then DropPending(ap) else ap)
    && a.effects == b.effects + CreatedEffects(id !in b.endpoints, id, c) + removed
    && Removals(removed, if completes then PendingIds(ap) else {})
    && a.aclQueue == b.aclQueue + (if id in b.endpoints then [] else [AclRequest(id, now)])
    && a.epRetry == b.epRetry + (if c.Success? && id in failing then {id} else {})
    && SessionCounted(f.resyncTag, now, b.session, a.session)
    && a.resyncsIssued == b.resyncsIssued
  }

  /**
   * `handle_endpointupdated`: an unknown id gets a NOTEXIST reply and is not
   * created; a known one is validated and updated and gets SUCCESS or INVALID.
   */
  predicate UpdatedStep(f: EpFields, failing: set<string>, states: set<string>, b: AgentState, a: AgentState)
  {
    var id := f.endpointId;
    if id !in b.endpoints then
      a == b.(effects := b.effects + [Send(EpRep, Response(UpdatedReply, RcNotExist, NotExistText(id)))])
    else
      var c := UpdateCheck(f, states, id);
      a == b.(endpoints := Applied(b.endpoints, id, c),
              epRetry := b.epRetry + (if c.Success? && id in failing then {id} else {}),
              effects := b.effects + (if c.Success? then [Program(id)] else []) + [Send(EpRep, Reply(UpdatedReply, c))])
  }

  /** `handle_endpointdestroyed`: a known endpoint is dropped, unsubscribed, removed and acknowledged. */
  predicate DestroyedStep(id: string, b: AgentState, a: AgentState)
  {
    a == b.(endpoints := b.endpoints - {id},
            effects := b.effects +
              if id in b.endpoints then [Unsubscribe(id), Remove(id), Send(EpRep, Response(DestroyedReply, RcSuccess, ""))]
              else [])
  }

  /** `handle_heartbeat`: only a heartbeat on EP_REP is answered. */
  predicate HeartbeatStep(sock: SocketType, b: AgentState, a: AgentState)
  {
    a == b.(effects := b.effects + if sock == EpRep then [Send(EpRep, HeartbeatReply)] else [])
  }

  /**
   * `handle_resyncstate`: a refused resync ends unsuccessfully; one that
   * announces no endpoints, or exactly as many as have already arrived, ends
   * successfully and removes the endpoints still pending; otherwise the
   * announced count is recorded.
   */
  ghost predicate ResyncStateStep(endpointCount: int, rc: string, now: int, b: AgentState, a: AgentState, removed: seq<Effect>)
  {
    var ends := rc != RcSuccess || endpointCount == 0 || b.session.recd == Some(endpointCount);
    var success := rc == RcSuccess;
    && a.effects == b.effects + removed
    && Removals(removed, if ends && success then PendingIds(b.endpoints) else {})
    && a.epRetry == b.epRetry && a.aclQueue == b.aclQueue && a.resyncsIssued == b.resyncsIssued
    && if ends then
         && a.session == SessionState(None, None, None, Some(now))
         && a.endpoints == if success then DropPending(b.endpoints) else b.endpoints
       else
         a.session == b.session.(expected := Some(endpointCount)) && a.endpoints == b.endpoints
  }

  /** `handle_aclupdate`: a known endpoint's ACLs are stored, and applied unless it awaits a retry. */
  predicate AclUpdateStep(id: string, acls: AclData, b: AgentState, a: AgentState)
  {
    if id !in b.endpoints then a == b
    else a == b.(endpoints := b.endpoints[id := b.endpoints[id].(acls := Some(acls))],
                 effects := b.effects + if id in b.epRetry then [] else [UpdateAcls(id)])
  }

  /**
   * The handler table of `run`: what handling `msg`, received on `sock`,
   * does to the state and what it raises. An ENDPOINTCREATED without a
   * `mac` field raises KeyError before anything happens; GETACLSTATE is only
   * logged.
   */
  ghost predicate Handled(sock: SocketType, msg: Message, now: int, failing: set<string>, states: set<string>,
                          b: AgentState, a: AgentState, raised: Option<Raised>)
  {
    match msg
    case Heartbeat => raised.None? && HeartbeatStep(sock, b, a)
    case EndpointCreated(f) =>
      if f.mac.Missing? then raised == Some(KeyError("mac")) && a == b
      else raised.None? && exists removed :: CreatedStep(f, now, failing, states, b, a, removed)
    case EndpointUpdated(f) => raised.None? && UpdatedStep(f, failing, states, b, a)
    case EndpointDestroyed(id) => raised.None? && DestroyedStep(id, b, a)
    case ResyncState(count, rc, _) => raised.None? && exists removed :: ResyncStateStep(count, rc, now, b, a, removed)
    case GetAclState(_, _) => raised.None? && a == b
    case AclUpdate(id, acls) => raised.None? && AclUpdateStep(id, acls, b, a)
  }

  /** One entry of the received list: nothing for a socket that gave no message, else its handling. */
  ghost predicate ReceivedStep(entry: (SocketType, Option<Message>), now: int, failing: set<string>, states: set<string>,
                               b: AgentState, a: AgentState, raised: Option<Raised>)
  {
    if entry.1.None? then raised.None? && a == b
    else Handled(entry.0, entry.1.value, now, failing, states, b, a, raised)
  }

  /**
   * `trace` is the state before each handled entry of `received` and after
   * the last; entries are handled in order until one raises, which ends
   * the loop with that exception.
   */
  ghost predicate HandledInOrder(received: seq<(SocketType, Option<Message>)>, now: int, failing: set<string>,
                                 states: set<string>, trace: seq<AgentState>, raised: Option<Raised>)
  {
    && 1 <= |trace| <= |received| + 1
    && (raised.None? ==> |trace| == |received| + 1)
    && (raised.Some? ==> |trace| >= 2)
    && forall i :: 0 <= i < |trace| - 1 ==>
         ReceivedStep(received[i], now, failing, states, trace[i], trace[i + 1],
                      if i == |trace| - 2 then raised else None)
  }

  /** `FelixAgent`: the endpoint registry, the retry set and the resync session. */
  class FelixAgent {
    const hostname: string
    const resyncIntSec: int
    /** The endpoint states the agent accepts. */
    const states: set<string>
    var endpoints: Registry
    var epRetry: set<string>
    var resyncId: Option<nat>
    var resyncRecd: Option<nat>
    var resyncExpected: Option<int>
    var resyncTime: Option<int>
    /** How many resyncs have been issued; the next resync takes this as its id. */
    var resyncsIssued: nat
    var aclQueue: seq<AclRequest>
    var effects: seq<Effect>

    /**
     * A running resync has a count and an id older than every later one;
     * once none is running, the time of the last completion is known.
     */
    ghost predicate Valid()
      reads this
    {
      && (resyncId.Some? <==> resyncRecd.Some?)
      && (resyncId.None? ==> resyncTime.Some?)
      && (resyncId.Some? ==> resyncId.value < resyncsIssued)
    }

    /** Connects the four sockets, starts the first resync and installs the global rules. */
    constructor (hostname: string, resyncIntSec: int, states: set<string>, now: int)
      ensures Valid()
      ensures this.hostname == hostname && this.resyncIntSec == resyncIntSec && this.states == states
      ensures endpoints == map[] && epRetry == {} && aclQueue == []
      ensures resyncId == Some(0) && resyncRecd == Some(0) && resyncExpected.None? && resyncTime.None?
      ensures resyncsIssued == 1
      ensures effects == [Connect(EpReq), Connect(EpRep), Connect(AclReq), Connect(AclSub),
                          Send(EpReq, ResyncRequest(0, now, hostname)), SetGlobalRules]
    {
      this.hostname := hostname;
      this.resyncIntSec := resyncIntSec;
      this.states := states;
      endpoints := map[];
      epRetry := {};
      resyncId, resyncRecd, resyncExpected, resyncTime := None, None, None, None;
      resyncsIssued := 0;
      aclQueue := [];
      effects := [Connect(EpReq), Connect(EpRep), Connect(AclReq), Connect(AclSub)];
      new;
      ResyncEndpoints(now);
      effects := effects + [SetGlobalRules];
    }

    /**
     * `resync_endpoints`: a fresh session, every endpoint awaiting
     * confirmation, the ACL_REQ queue cleared and one RESYNCSTATE sent.
     */
    method ResyncEndpoints(now: int)
      modifies this`endpoints, this`effects, this`aclQueue
      modifies this`resyncId, this`resyncRecd, this`resyncExpected, this`resyncsIssued
      ensures Valid()
      ensures resyncId == Some(old(resyncsIssued)) && resyncsIssued == old(resyncsIssued) + 1
      ensures old(Valid()) && old(resyncId).Some? ==> old(resyncId).value < resyncId.value
      ensures resyncRecd == Some(0) && resyncExpected.None?
      ensures endpoints == MarkPending(old(endpoints))
      ensures aclQueue == []
      ensures effects == old(effects) + [Send(EpReq, ResyncRequest(old(resyncsIssued), now, hostname))]
    {
      resyncId := Some(resyncsIssued);
      resyncsIssued := resyncsIssued + 1;
      resyncRecd := Some(0);
      resyncExpected := None;
      MarkAllPending();
      aclQueue := [];
      effects := effects + [Send(EpReq, ResyncRequest(resyncsIssued - 1, now, hostname))];
    }

    /** The loop of `resync_endpoints`: every endpoint awaits confirmation. */
    method MarkAllPending()
      modifies this`endpoints
      ensures endpoints == MarkPending(old(endpoints))
    {
      var todo := endpoints.Keys;
      while todo != {}
        invariant todo <= old(endpoints).Keys && endpoints.Keys == old(endpoints).Keys
        invariant forall id :: id in endpoints ==>
          endpoints[id] == if id in todo then old(endpoints)[id] else old(endpoints)[id].(pendingResync := true)
        decreases |todo|
      {
        var id :| id in todo;
        endpoints := endpoints[id := endpoints[id].(pendingResync := true)];
        todo := todo - {id};
      }
    }

    /** `resync_acls`: the ACL_REQ queue holds one fresh request per known endpoint. */
    method ResyncAcls(now: int)
      modifies this`aclQueue
      ensures OneRequestEach(aclQueue, endpoints.Keys, now)
    {
      aclQueue := [];
      var todo := endpoints.Keys;
      while todo != {}
        modifies this`aclQueue
        invariant todo <= endpoints.Keys
        invariant OneRequestEach(aclQueue, endpoints.Keys - todo, now)
        decreases |todo|
      {
        var id :| id in todo;
        aclQueue := aclQueue + [AclRequest(id, now)];
        todo := todo - {id};
      }
    }

    /**
     * `complete_endpoint_resync`: the session is closed at `now`; a
     * successful one removes the endpoints nobody reconfirmed.
     */
    method CompleteEndpointResync(successful: bool, now: int) returns (ghost removed: seq<Effect>)
      modifies this`resyncId, this`resyncRecd, this`resyncExpected, this`resyncTime, this`endpoints, this`effects
      ensures Valid()
      ensures resyncId.None? && resyncRecd.None? && resyncExpected.None? && resyncTime == Some(now)
      ensures endpoints == if successful then DropPending(old(endpoints)) else old(endpoints)
      ensures effects == old(effects) + removed
      ensures Removals(removed, if successful then PendingIds(old(endpoints)) else {})
    {
      resyncId, resyncRecd, resyncExpected := None, None, None;
      resyncTime := Some(now);
      removed := [];
      if successful {
        removed := RemovePending();
      }
    }

    /** The removal loop of `complete_endpoint_resync`: every endpoint still awaiting confirmation is removed. */
    method RemovePending() returns (ghost removed: seq<Effect>)
      modifies this`endpoints, this`effects
      ensures endpoints == DropPending(old(endpoints))
      ensures effects == old(effects) + removed
      ensures Removals(removed, PendingIds(old(endpoints)))
    {
      removed := [];
      var todo := endpoints.Keys;
      while todo != {}
        invariant todo <= old(endpoints).Keys
        invariant forall id :: id in endpoints <==> id in old(endpoints) && (id in todo || !old(endpoints)[id].pendingResync)
        invariant forall id :: id in endpoints ==> endpoints[id] == old(endpoints)[id]
        invariant effects == old(effects) + removed
        invariant Removals(removed, PendingIds(old(endpoints)) - todo)
        decreases |todo|
      {
        var id :| id in todo;
        if endpoints[id].pendingResync {
          effects := effects + [Remove(id)];
          removed := removed + [Remove(id)];
          endpoints := endpoints - {id};
        }
        todo := todo - {id};
      }
      assert endpoints.Keys == DropPending(old(endpoints)).Keys;
    }

    /**
     * `_create_endpoint`: registers an unknown endpoint, subscribes to its
     * ACL updates and queues a request for its ACL state.
     */
    method CreateEndpoint(id: string, mac: Option<string>, now: int)
      requires id !in endpoints
      modifies this`endpoints, this`effects, this`aclQueue
      ensures endpoints == old(endpoints)[id := NewEndpoint(mac)]
      ensures effects == old(effects) + [Subscribe(id)]
      ensures aclQueue == old(aclQueue) + [AclRequest(id, now)]
    {
      endpoints := endpoints[id := NewEndpoint(mac)];
      effects := effects + [Subscribe(id)];
      aclQueue := aclQueue + [AclRequest(id, now)];
    }

    /**
     * `_update_endpoint`: validates the request and, when it passes, stores
     * the endpoint's addresses, mac and state, programs it and queues it for
     * a retry if programming fails. A rejected request changes nothing.
     */
    method UpdateEndpoint(id: string, f: EpFields, failing: set<string>) returns (outcome: Result<Update, string>)
      requires id in endpoints
      modifies this`endpoints, this`effects, this`epRetry
      ensures outcome == UpdateCheck(f, states, id)
      ensures endpoints == Applied(old(endpoints), id, outcome)
      ensures effects == old(effects) + (if outcome.Success? then [Program(id)] else [])
      ensures epRetry == old(epRetry) + (if outcome.Success? && id in failing then {id} else {})
    {
      if f.addrs.None? {
        return Failure(NoAddressText);
      }
      var addrs := f.addrs.value;
      var addresses: set<string> := {};
      var i := 0;
      while i < |addrs|
        invariant 0 <= i <= |addrs|
        invariant AddressSet(addrs[..i]) == Some(addresses)
      {
        if addrs[i].None? {
          assert AddressSet(addrs).None?;
          return Failure(NoAddressText);
        }
        assert addrs[..i + 1][..i] == addrs[..i];
        addresses := addresses + {addrs[i].value};
        i := i + 1;
      }
      assert addrs[..i] == addrs;
      if !f.mac.Given? {
        return Failure(NoMacText);
      }
      if f.state.None? {
        return Failure(NoStateText);
      }
      if f.state.value !in states {
        return Failure(InvalidStateText(f.state.value, id));
      }
      outcome := Success(Update(addresses, f.mac.value, f.state.value));
      endpoints := endpoints[id := endpoints[id].(addresses := addresses, mac := Some(f.mac.value), state := f.state)];
      effects := effects + [Program(id)];
      if id in failing {
        epRetry := epRetry + {id};
      }
    }

    /**
     * `handle_endpointcreated`: reads the `mac` field first, so a request
     * without one raises KeyError and changes nothing; otherwise registers or
     * reconfirms the endpoint, applies the request, always replies SUCCESS or
     * INVALID on EP_REP, and counts the request towards the running resync
     * when it carries that resync's id, completing the resync when it is the
     * last one announced. A request for another resync leaves the session alone.
     */
    method HandleEndpointCreated(f: EpFields, now: int, failing: set<string>)
      returns (raised: Option<Raised>, ghost removed: seq<Effect>)
      requires Valid()
      modifies this`endpoints, this`effects, this`aclQueue, this`epRetry
      modifies this`resyncId, this`resyncRecd, this`resyncExpected, this`resyncTime
      ensures Valid()
      ensures raised == if f.mac.Missing? then Some(KeyError("mac")) else None
      ensures f.mac.Missing? ==> State() == old(State())
      ensures !f.mac.Missing? ==> CreatedStep(f, now, failing, states, old(State()), State(), removed)
    {
      if f.mac.Missing? {
        return Some(KeyError("mac")), [];
      }
      raised := None;
      var outcome := AnswerCreated(f, now, failing);
      removed := CountTowardsResync(f.resyncTag, now);
    }

    /** Registration, the update and the reply of `handle_endpointcreated`, reached once `mac` has been read. */
    method AnswerCreated(f: EpFields, now: int, failing: set<string>) returns (outcome: Result<Update, string>)
      requires !f.mac.Missing?
      modifies this`endpoints, this`effects, this`aclQueue, this`epRetry
      ensures outcome == UpdateCheck(f, states, f.endpointId)
      ensures endpoints == Applied(Registered(old(endpoints), f), f.endpointId, outcome)
      ensures effects == old(effects) + CreatedEffects(f.endpointId !in old(endpoints), f.endpointId, outcome)
      ensures aclQueue == old(aclQueue) + (if f.endpointId in old(endpoints) then [] else [AclRequest(f.endpointId, now)])
      ensures epRetry == old(epRetry) + (if outcome.Success? && f.endpointId in failing then {f.endpointId} else {})
    {
      var id := f.endpointId;
      RegisterEndpoint(f, now);
      outcome := UpdateEndpoint(id, f, failing);
      effects := effects + [Send(EpRep, Reply(CreatedReply, outcome))];
    }

    /**
     * The first step of `handle_endpointcreated`: an unknown endpoint is
     * created; a known one with a resync tag is reconfirmed.
     */
    method RegisterEndpoint(f: EpFields, now: int)
      modifies this`endpoints, this`effects, this`aclQueue
      ensures endpoints == Registered(old(endpoints), f)
      ensures effects == old(effects) + (if f.endpointId in old(endpoints) then [] else [Subscribe(f.endpointId)])
      ensures aclQueue == old(aclQueue) + (if f.endpointId in old(endpoints) then [] else [AclRequest(f.endpointId, now)])
    {
      var id := f.endpointId;
      if id in endpoints {
        if f.resyncTag != NoTag {
          endpoints := endpoints[id := endpoints[id].(pendingResync := false)];
        }
      } else {
        CreateEndpoint(id, f.mac.Get(), now);
      }
    }

    /** The four fields of the resync session. */
    ghost function Session(): SessionState
      reads this
    {
      SessionState(resyncId, resyncRecd, resyncExpected, resyncTime)
    }

    /** All of the agent's mutable state. */
    ghost function State(): AgentState
      reads this
    {
      AgentState(endpoints, epRetry, Session(), resyncsIssued, aclQueue, effects)
    }

    /** The resync bookkeeping of `handle_endpointcreated`. */
    method CountTowardsResync(tag: ResyncTag, now: int) returns (ghost removed: seq<Effect>)
      requires Valid()
      modifies this`resyncId, this`resyncRecd, this`resyncExpected, this`resyncTime, this`endpoints, this`effects
      ensures Valid()
      ensures SessionCounted(tag, now, old(Session()), Session())
      ensures var completes := Counts(tag, old(resyncId)) && Completes(old(resyncRecd), old(resyncExpected));
        && endpoints == (if completes then DropPending(old(endpoints)) else old(endpoints))
        && effects == old(effects) + removed
        && Removals(removed, if completes then PendingIds(old(endpoints)) else {})
    {
      removed := [];
      if tag.Tag? && resyncId == Some(tag.id) {
        resyncRecd := Some(resyncRecd.value + 1);
        if resyncExpected == Some(resyncRecd.value) {
          removed := CompleteEndpointResync(true, now);
        }
      }
    }

    /**
     * `handle_endpointupdated`: an unknown id gets a NOTEXIST reply and is
     * not created; a known one is updated and gets SUCCESS or INVALID.
     */
    method HandleEndpointUpdated(f: EpFields, failing: set<string>)
      requires Valid()
      modifies this`endpoints, this`effects, this`epRetry
      ensures Valid()
      ensures UpdatedStep(f, failing, states, old(State()), State())
    {
      var id := f.endpointId;
      if id !in endpoints {
        effects := effects + [Send(EpRep, Response(UpdatedReply, RcNotExist, NotExistText(id)))];
        return;
      }
      var outcome := UpdateEndpoint(id, f, failing);
      effects := effects + [Send(EpRep, Reply(UpdatedReply, outcome))];
    }

    /**
     * `handle_endpointdestroyed`: a known endpoint is dropped, unsubscribed,
     * removed and acknowledged; an unknown id changes nothing and gets no reply.
     */
    method HandleEndpointDestroyed(id: string)
      requires Valid()
      modifies this`endpoints, this`effects
      ensures Valid()
      ensures DestroyedStep(id, old(State()), State())
    {
      if id !in endpoints {
        return;
      }
      endpoints := endpoints - {id};
      effects := effects + [Unsubscribe(id), Remove(id), Send(EpRep, Response(DestroyedReply, RcSuccess, ""))];
    }

    /**
     * `handle_heartbeat`: a heartbeat response on a request socket needs
     * nothing; a heartbeat on EP_REP is answered. The source asserts that
     * no heartbeat arrives on ACL_SUB.
     */
    method HandleHeartbeat(sock: SocketType)
      requires sock != AclSub
      modifies this`effects
      ensures HeartbeatStep(sock, old(State()), State())
    {
      if sock == EpRep {
        effects := effects + [Send(EpRep, HeartbeatReply)];
      }
    }

    /**
     * `handle_resyncstate`: a refused resync ends unsuccessfully; one that
     * announces no endpoints, or exactly as many as have already arrived,
     * ends successfully; otherwise the announced count is recorded.
     */
    method HandleResyncState(endpointCount: int, rc: string, now: int) returns (ghost removed: seq<Effect>)
      requires Valid()
      modifies this`resyncId, this`resyncRecd, this`resyncExpected, this`resyncTime, this`endpoints, this`effects
      ensures Valid()
      ensures ResyncStateStep(endpointCount, rc, now, old(State()), State(), removed)
    {
      if rc != RcSuccess {
        removed := CompleteEndpointResync(false, now);
        return;
      }
      if endpointCount == 0 || (resyncRecd.Some? && endpointCount == resyncRecd.value) {
        removed := CompleteEndpointResync(true, now);
        return;
      }
      removed := [];
      resyncExpected := Some(endpointCount);
    }

    /**
     * `handle_aclupdate`: stores the ACLs of a known endpoint and applies them
     * unless the endpoint awaits a programming retry; an unknown id is ignored.
     */
    method HandleAclUpdate(id: string, acls: AclData)
      requires Valid()
      modifies this`endpoints, this`effects
      ensures Valid()
      ensures AclUpdateStep(id, acls, old(State()), State())
    {
      if id !in endpoints {
        return;
      }
      endpoints := endpoints[id := endpoints[id].(acls := Some(acls))];
      if id !in epRetry {
        effects := effects + [UpdateAcls(id)];
      }
    }

    /** The handler table of `run`: each message goes to its handler, which may raise. */
    method Dispatch(sock: SocketType, msg: Message, now: int, failing: set<string>) returns (raised: Option<Raised>)
      requires Valid()
      requires msg.Heartbeat? ==> sock != AclSub
      modifies this
      ensures Valid()
      ensures Handled(sock, msg, now, failing, states, old(State()), State(), raised)
      ensures resyncsIssued == old(resyncsIssued)
    {
      raised := None;
      match msg
      case Heartbeat => HandleHeartbeat(sock);
      case EndpointCreated(f) => { ghost var removed; raised, removed := HandleEndpointCreated(f, now, failing); }
      case EndpointUpdated(f) => HandleEndpointUpdated(f, failing);
      case EndpointDestroyed(id) => HandleEndpointDestroyed(id);
      case ResyncState(count, rc, _) => { ghost var removed := HandleResyncState(count, rc, now); }
      case GetAclState(_, _) =>
      case AclUpdate(id, acls) => HandleAclUpdate(id, acls);
    }

    /**
     * The first loop of `run`: the messages received on the active sockets
     * are handled in order; an exception from a handler leaves the loop and
     * is returned. `trace` holds the state before and after each entry handled.
     */
    method DispatchReceived(received: seq<(SocketType, Option<Message>)>, now: int, failing: set<string>)
      returns (raised: Option<Raised>, ghost trace: seq<AgentState>)
      requires Valid()
      requires forall i :: 0 <= i < |received| && received[i].1 == Some(Heartbeat) ==> received[i].0 != AclSub
      modifies this
      ensures Valid()
      ensures HandledInOrder(received, now, failing, states, trace, raised)
      ensures trace[0] == old(State()) && trace[|trace| - 1] == State()
      ensures resyncsIssued == old(resyncsIssued)
    {
      raised := None;
      trace := [State()];
      for i := 0 to |received|
        invariant Valid()
        invariant |trace| == i + 1 && trace[0] == old(State()) && trace[i] == State()
        invariant resyncsIssued == old(resyncsIssued)
        invariant forall j :: 0 <= j < i ==> ReceivedStep(received[j], now, failing, states, trace[j], trace[j + 1], None)
      {
        var (sock, msg) := received[i];
        var r: Option<Raised> := None;
        if msg.Some? {
          r := Dispatch(sock, msg.value, now, failing);
        }
        trace := trace + [State()];
        if r.Some? {
          raised := r;
          return;
        }
      }
    }

    /**
     * The second loop of `run`: every timed-out socket is reconnected, in
     * socket order; losing EP_REP calls for an endpoint resync and losing
     * ACL_SUB for an ACL resync.
     */
    method ReconnectTimedOut(timedOut: set<SocketType>) returns (epResync: bool, aclResync: bool)
      modifies this`effects
      ensures epResync == (EpRep in timedOut) && aclResync == (AclSub in timedOut)
      ensures effects == old(effects) + Reconnects(SocketOrder, timedOut)
    {
      epResync, aclResync := false, false;
      for i := 0 to |SocketOrder|
        invariant effects == old(effects) + Reconnects(SocketOrder[..i], timedOut)
        invariant epResync == (EpRep in timedOut && EpRep in SocketOrder[..i])
        invariant aclResync == (AclSub in timedOut && AclSub in SocketOrder[..i])
      {
        var sock := SocketOrder[i];
        assert SocketOrder[..i + 1][..i] == SocketOrder[..i];
        if sock in timedOut {
          effects := effects + [Reconnect(sock)];
          if sock == EpRep {
            epResync := true;
          } else if sock == AclSub {
            aclResync := true;
          }
        }
      }
      assert SocketOrder[..|SocketOrder|] == SocketOrder;
    }

    /** The keepalive loop of `run`: one keepalive per socket. */
    method SendKeepalives()
      modifies this`effects
      ensures effects == old(effects) + Keepalives(SocketOrder)
    {
      for i := 0 to |SocketOrder|
        invariant effects == old(effects) + Keepalives(SocketOrder[..i])
      {
        assert SocketOrder[..i + 1][..i] == SocketOrder[..i];
        effects := effects + [Keepalive(SocketOrder[i])];
      }
      assert SocketOrder[..|SocketOrder|] == SocketOrder;
    }

    /**
     * The retry pass of `run`: every id in the retry set that still names an
     * endpoint is reprogrammed; those that fail again stay in the set, the
     * others get their ACLs applied; ids of vanished endpoints are dropped.
     */
    method RetryFailed(failing: set<string>) returns (ghost order: seq<string>)
      modifies this`epRetry, this`effects
      ensures forall x :: x in order <==> x in old(epRetry)
      ensures epRetry == old(epRetry) * endpoints.Keys * failing
      ensures effects == old(effects) + RetryTrace(order, endpoints.Keys, failing)
    {
      var todo := epRetry;
      epRetry := {};
      order := [];
      ghost var keys := endpoints.Keys;
      ghost var e0 := effects;
      while todo != {}
        invariant todo <= old(epRetry) && keys == endpoints.Keys
        invariant forall x :: x in order <==> x in old(epRetry) && x !in todo
        invariant forall x :: x in epRetry <==> x in order && x in keys && x in failing
        invariant effects == e0 + RetryTrace(order, keys, failing)
        decreases |todo|
      {
        var id :| id in todo;
        ghost var step := RetryOne(id, failing);
        RetryTraceSnoc(e0, order, id, keys, failing);
        order := order + [id];
        todo := todo - {id};
      }
      assert epRetry == old(epRetry) * keys * failing;
    }

    /** One iteration of the retry pass. */
    method RetryOne(id: string, failing: set<string>) returns (ghost step: seq<Effect>)
      modifies this`epRetry, this`effects
      ensures step == RetryStepEffects(id, endpoints.Keys, failing)
      ensures effects == old(effects) + step
      ensures epRetry == old(epRetry) + (if id in endpoints && id in failing then {id} else {})
    {
      step := [];
      if id in endpoints {
        if id in failing {
          step := [Program(id)];
          effects := effects + [Program(id)];
          epRetry := epRetry + {id};
        } else {
          step := [Program(id), UpdateAcls(id)];
          effects := effects + [Program(id), UpdateAcls(id)];
        }
      }
    }

    /**
     * `run` after the messages are handled: reconnections, the resync
     * decision (an endpoint resync when EP_REP timed out or the periodic
     * resync is due; otherwise an ACL resync when ACL_SUB timed out),
     * keepalives and the retry pass.
     */
    method ServiceSockets(timedOut: set<SocketType>, now: int, failing: set<string>) returns (ghost order: seq<string>)
      requires Valid()
      modifies this`endpoints, this`effects, this`aclQueue, this`epRetry
      modifies this`resyncId, this`resyncRecd, this`resyncExpected, this`resyncsIssued
      ensures Valid()
      ensures var epNeeded := EpRep in timedOut || ResyncDue(old(resyncId), old(resyncTime), now, resyncIntSec);
        && (epNeeded ==>
              && resyncId == Some(old(resyncsIssued)) && resyncsIssued == old(resyncsIssued) + 1
              && resyncRecd == Some(0) && resyncExpected.None?
              && endpoints == MarkPending(old(endpoints)) && aclQueue == [])
        && (!epNeeded ==>
              && resyncId == old(resyncId) && resyncsIssued == old(resyncsIssued)
              && resyncRecd == old(resyncRecd) && resyncExpected == old(resyncExpected)
              && endpoints == old(endpoints))
        && (!epNeeded && AclSub in timedOut ==> OneRequestEach(aclQueue, endpoints.Keys, now))
        && (!epNeeded && AclSub !in timedOut ==> aclQueue == old(aclQueue))
        && epRetry == old(epRetry) * endpoints.Keys * failing
        && effects == old(effects) + ServiceEffects(timedOut, epNeeded, old(resyncsIssued), now)
                      + RetryTrace(order, endpoints.Keys, failing)
        && (forall x :: x in order <==> x in old(epRetry))
    {
      ghost var e0 := effects;
      var epResync, aclResync := ReconnectTimedOut(timedOut);
      ghost var e1 := effects;
      var epNeeded := ResyncIfNeeded(epResync, aclResync, now);
      ghost var e2 := effects;
      SendKeepalives();
      ghost var e3 := effects;
      order := RetryFailed(failing);
      assert effects == e0 + ServiceEffects(timedOut, epNeeded, old(resyncsIssued), now)
                        + RetryTrace(order, endpoints.Keys, failing) by {
        AppendChain(e0, e1, e2, e3, effects);
      }
    }

    /**
     * The resync decision of `run`: an endpoint resync when EP_REP timed out
     * or the periodic resync is due, otherwise an ACL resync when ACL_SUB
     * timed out.
     */
    method ResyncIfNeeded(epResync: bool, aclResync: bool, now: int) returns (epNeeded: bool)
      requires Valid()
      modifies this`endpoints, this`effects, this`aclQueue
      modifies this`resyncId, this`resyncRecd, this`resyncExpected, this`resyncsIssued
      ensures Valid()
      ensures epNeeded == (epResync || ResyncDue(old(resyncId), old(resyncTime), now, resyncIntSec))
      ensures epNeeded ==>
        && resyncId == Some(old(resyncsIssued)) && resyncsIssued == old(resyncsIssued) + 1
        && resyncRecd == Some(0) && resyncExpected.None?
        && endpoints == MarkPending(old(endpoints)) && aclQueue == []
      ensures !epNeeded ==>
        && resyncId == old(resyncId) && resyncsIssued == old(resyncsIssued)
        && resyncRecd == old(resyncRecd) && resyncExpected == old(resyncExpected)
        && endpoints == old(endpoints)
      ensures !epNeeded && aclResync ==> OneRequestEach(aclQueue, endpoints.Keys, now)
      ensures !epNeeded && !aclResync ==> aclQueue == old(aclQueue)
      ensures effects == old(effects) + (if epNeeded then [Send(EpReq, ResyncRequest(old(resyncsIssued), now, hostname))] else [])
    {
      epNeeded := epResync;
      if resyncId.None? && now - resyncTime.value > resyncIntSec * 1000 {
        epNeeded := true;
      }
      if epNeeded {
        ResyncEndpoints(now);
      } else if aclResync {
        ResyncAcls(now);
      }
    }

    function ServiceEffects(timedOut: set<SocketType>, epNeeded: bool, id: nat, now: int): seq<Effect>
      reads this
    {
      Reconnects(SocketOrder, timedOut)
        + (if epNeeded then [Send(EpReq, ResyncRequest(id, now, hostname))] else [])
        + Keepalives(SocketOrder)
    }

    /**
     * One `run` tick: the messages received on the active sockets, in order,
     * then the socket maintenance. An exception from a handler ends the tick
     * where it was raised. Otherwise the maintenance starts from the state
     * the last message left: losing EP_REP always starts a fresh resync, and
     * after the tick the retry set holds only endpoints that exist and whose
     * programming failed again.
     */
    method Run(received: seq<(SocketType, Option<Message>)>, timedOut: set<SocketType>, now: int, failing: set<string>)
      returns (raised: Option<Raised>, ghost trace: seq<AgentState>, ghost order: seq<string>)
      requires Valid()
      requires forall i :: 0 <= i < |received| && received[i].1 == Some(Heartbeat) ==> received[i].0 != AclSub
      modifies this
      ensures Valid()
      ensures HandledInOrder(received, now, failing, states, trace, raised) && trace[0] == old(State())
      ensures raised.Some? ==> State() == trace[|trace| - 1]
      ensures trace[|trace| - 1].session.id.None? ==> trace[|trace| - 1].session.time.Some?
      ensures raised.None? ==>
        var m := trace[|trace| - 1];
        var epNeeded := EpRep in timedOut || ResyncDue(m.session.id, m.session.time, now, resyncIntSec);
        && (epNeeded ==>
              && Session() == SessionState(Some(m.resyncsIssued), Some(0), None, m.session.time)
              && resyncsIssued == m.resyncsIssued + 1
              && endpoints == MarkPending(m.endpoints) && aclQueue == [])
        && (!epNeeded ==>
              && Session() == m.session && resyncsIssued == m.resyncsIssued && endpoints == m.endpoints)
        && (!epNeeded && AclSub in timedOut ==> OneRequestEach(aclQueue, endpoints.Keys, now))
        && (!epNeeded && AclSub !in timedOut ==> aclQueue == m.aclQueue)
        && epRetry == m.epRetry * endpoints.Keys * failing
        && effects == m.effects + ServiceEffects(timedOut, epNeeded, m.resyncsIssued, now)
                      + RetryTrace(order, endpoints.Keys, failing)
        && (forall x :: x in order <==> x in m.epRetry)
      ensures raised.Some? ==> resyncsIssued == old(resyncsIssued)
      ensures raised.None? ==> epRetry <= endpoints.Keys * failing
      ensures resyncsIssued == old(resyncsIssued) || resyncsIssued == old(resyncsIssued) + 1
      ensures raised.None? && EpRep in timedOut ==>
        && resyncId == Some(old(resyncsIssued)) && resyncRecd == Some(0) && resyncExpected.None?
        && aclQueue == [] && PendingIds(endpoints) == endpoints.Keys
    {
      raised, trace := DispatchReceived(received, now, failing);
      order := [];
      if raised.Some? {
        return;
      }
      ghost var mid := endpoints;
      order := ServiceSockets(timedOut, now, failing);
      assert EpRep in timedOut ==> endpoints == MarkPending(mid);
    }
  }
}
