/**
 * The status-reporting and configuration-change logic of the etcd-era agent:
 * the "worst status wins" merge of an endpoint's IPv4 and IPv6 reports, the
 * rate-limited, double-buffered queue of endpoints whose status must be
 * rewritten, and the watcher's decisions on configuration loads, the first
 * in-sync status and the hostname-to-IP map behind the hosts ipset.
 */
module FelixEtcd {
  import opened Wrappers

  /** Combined endpoint identifier; only compared for equality here. */
  type EndpointId = string

  const StatusUp: string := "up"
  const StatusDown: string := "down"
  const StatusError: string := "error"

  /**
   * A status report is a dict `{"status": word}`; None stands for Python's
   * None (no report for that IP version).
   */
  type Report = Option<string>

  /** How bad a present report is: error beats down, down beats anything else. */
  function Severity(r: Report): nat
  {
    match r
    case None => 0
    case Some(w) => if w == StatusError then 3 else if w == StatusDown then 2 else 1
  }

  /** `combine_statuses(a, b)`: an absent side yields the other; otherwise the worst status wins. */
  function CombineStatuses(a: Report, b: Report): (r: Report)
    ensures a.None? ==> r == b
    ensures b.None? ==> r == a
    ensures a.Some? && b.Some? ==> r.Some? && r.value in {StatusUp, StatusDown, StatusError}
  {
    if a.None? then b
    else if b.None? then a
    else if a.value == StatusError || b.value == StatusError then Some(StatusError)
    else if a.value == StatusDown || b.value == StatusDown then Some(StatusDown)
    else Some(StatusUp)
  }

  /** The merge is the worse of the two reports: its severity is the maximum of theirs. */
  lemma CombineIsWorst(a: Report, b: Report)
    ensures Severity(CombineStatuses(a, b)) == if Severity(a) >= Severity(b) then Severity(a) else Severity(b)
    ensures a.Some? && b.Some? ==>
      (CombineStatuses(a, b) == Some(StatusError) <==> a == Some(StatusError) || b == Some(StatusError))
  {
  }

  /** The merge does not depend on which version's report comes first. */
  lemma CombineSymmetric(a: Report, b: Report)
    ensures CombineStatuses(a, b) == CombineStatuses(b, a)
  {
  }

  /** Merging three reports gives the same answer however they are grouped. */
  lemma CombineAssociative(a: Report, b: Report, c: Report)
    ensures CombineStatuses(CombineStatuses(a, b), c) == CombineStatuses(a, CombineStatuses(b, c))
  {
  }

  /** One attempted write of a combined status: a set of the key, or its deletion when the status is None. */
  datatype StatusWrite = StatusWrite(endpoint: EndpointId, status: Report)

  /** Taking one more endpoint off the to-do list adds it to the done part unless it is excluded. */
  lemma DoneGrows(eps: set<EndpointId>, todo: set<EndpointId>, older: set<EndpointId>, ep: EndpointId)
    requires ep in todo
    ensures (eps - (todo - {ep})) - older == ((eps - todo) - older) + (if ep in older || ep !in eps then {} else {ep})
  {
  }

  /**
   * The newer dirty set after the cleanup step of `_finish_msg_batch`: a
   * pending cleanup whose read succeeded marks every endpoint found dirty,
   * except those already in the older set.
   */
  function Cleaned(pending: bool, found: Option<set<EndpointId>>, newer: set<EndpointId>, older: set<EndpointId>): set<EndpointId>
  {
    if pending && found.Some? then newer + (found.value - older) else newer
  }

  /**
   * The reporting step of `_finish_msg_batch`, from the rate-limit flag, the
   * two dirty sets and the writes before it (`allowed0`, `older0`, `newer0`,
   * `writes0`) to those after it. When allowed and something is dirty, the
   * older set, or the newer one promoted in its place, loses one endpoint,
   * whose combined status is written; a failed write requeues it in the newer
   * set; the rate limit closes. Otherwise nothing changes.
   */
  predicate Reported(allowed0: bool, older0: set<EndpointId>, newer0: set<EndpointId>, writes0: seq<StatusWrite>,
                     statusV4: map<EndpointId, string>, statusV6: map<EndpointId, string>, writeOk: bool,
                     allowed1: bool, older1: set<EndpointId>, newer1: set<EndpointId>, writes1: seq<StatusWrite>,
                     written: Option<EndpointId>)
  {
    if !allowed0 || (older0 == {} && newer0 == {}) then
      written.None? && allowed1 == allowed0 && older1 == older0 && newer1 == newer0 && writes1 == writes0
    else
      var queue := if older0 == {} then newer0 else older0;
      var rest := if older0 == {} then {} else newer0;
      && written.Some? && written.value in queue
      && older1 == queue - {written.value}
      && newer1 == (if writeOk then rest else rest + {written.value})
      && !allowed1
      && writes1 == writes0 + [StatusWrite(written.value,
           CombineStatuses(Lookup(statusV4, written.value), Lookup(statusV6, written.value)))]
  }

  /** `EtcdStatusReporter`: the dirty-endpoint queue and its rate limit. */
  class StatusReporter {
    const reportEnabled: bool
    var statusV4: map<EndpointId, string>
    var statusV6: map<EndpointId, string>
    /** Endpoints queued to be written after the older set is done. */
    var newer: set<EndpointId>
    /** Endpoints currently being written, one per batch. */
    var older: set<EndpointId>
    var cleanupPending: bool
    var timerScheduled: bool
    var reportingAllowed: bool
    /** Every write to etcd attempted so far, in order. */
    var writes: seq<StatusWrite>

    /** An endpoint is never queued in both sets at once. */
    ghost predicate Valid()
      reads this
    {
      older !! newer
    }

    constructor (reportEnabled: bool)
      ensures Valid()
      ensures this.reportEnabled == reportEnabled
      ensures statusV4 == map[] && statusV6 == map[] && newer == {} && older == {}
      ensures !cleanupPending && !timerScheduled && reportingAllowed && writes == []
    {
      this.reportEnabled := reportEnabled;
      statusV4, statusV6 := map[], map[];
      newer, older := {}, {};
      cleanupPending, timerScheduled, reportingAllowed := false, false, true;
      writes := [];
    }

    /** `_mark_endpoint_dirty`: queue into the newer set unless already queued in the older one. */
    method MarkEndpointDirty(ep: EndpointId)
      requires Valid()
      modifies this`newer
      ensures Valid()
      ensures newer == if ep in older then old(newer) else old(newer) + {ep}
    {
      if ep !in older {
        newer := newer + {ep};
      }
    }

    /** `on_endpoint_status_changed`: store or forget the report, and mark the endpoint dirty either way. */
    method OnEndpointStatusChanged(ep: EndpointId, isV6: bool, status: Report)
      requires Valid()
      modifies this`statusV4, this`statusV6, this`newer
      ensures Valid()
      ensures isV6 ==>
        statusV4 == old(statusV4)
        && statusV6 == (if status.Some? then old(statusV6)[ep := status.value] else old(statusV6) - {ep})
      ensures !isV6 ==>
        statusV6 == old(statusV6)
        && statusV4 == (if status.Some? then old(statusV4)[ep := status.value] else old(statusV4) - {ep})
      ensures newer == if ep in older then old(newer) else old(newer) + {ep}
    {
      if isV6 {
        statusV6 := if status.Some? then statusV6[ep := status.value] else statusV6 - {ep};
      } else {
        statusV4 := if status.Some? then statusV4[ep := status.value] else statusV4 - {ep};
      }
      MarkEndpointDirty(ep);
    }

    /** Marks each endpoint of `eps` dirty, one at a time. */
    method MarkAllDirty(eps: set<EndpointId>)
      requires Valid()
      modifies this`newer
      ensures Valid()
      ensures newer == old(newer) + (eps - older)
    {
      var todo := eps;
      while todo != {}
        invariant Valid()
        invariant todo <= eps
        invariant newer == old(newer) + ((eps - todo) - older)
        decreases |todo|
      {
        var ep :| ep in todo;
        MarkEndpointDirty(ep);
        DoneGrows(eps, todo, older, ep);
        todo := todo - {ep};
      }
    }

    /** `resync`: every endpoint with an IPv4 or IPv6 report is marked dirty. */
    method Resync()
      requires Valid()
      modifies this`newer
      ensures Valid()
      ensures newer == old(newer) + ((statusV4.Keys + statusV6.Keys) - older)
    {
      MarkAllDirty(statusV4.Keys);
      MarkAllDirty(statusV6.Keys);
    }

    /** `_on_timer_pop`: lifts the rate limit. */
    method OnTimerPop()
      modifies this`timerScheduled, this`reportingAllowed
      ensures !timerScheduled && reportingAllowed
    {
      timerScheduled := false;
      reportingAllowed := true;
    }

    /** `clean_up_endpoint_statuses`: note that a cleanup is owed. */
    method CleanUpEndpointStatuses()
      modifies this`cleanupPending
      ensures cleanupPending
    {
      cleanupPending := true;
    }

    /**
     * The cleanup step of `_finish_msg_batch`. `found` is what reading this
     * host's status directory yields: None when the read raises an etcd error,
     * otherwise the endpoints that have a status key (empty when the directory
     * does not exist).
     */
    method AttemptCleanup(found: Option<set<EndpointId>>)
      requires Valid()
      modifies this`newer, this`cleanupPending
      ensures Valid()
      ensures cleanupPending == (old(cleanupPending) && found.None?)
      ensures newer == Cleaned(old(cleanupPending), found, old(newer), older)
    {
      if cleanupPending {
        if found.Some? {
          MarkAllDirty(found.value);
          cleanupPending := false;
        }
      }
    }

    /**
     * The reporting step of `_finish_msg_batch`: promote the newer set when the
     * older one is empty, then write at most one endpoint and close the rate
     * limit; a failed write requeues that endpoint in the newer set.
     */
    method ReportOne(writeOk: bool) returns (written: Option<EndpointId>)
      requires Valid()
      modifies this`newer, this`older, this`reportingAllowed, this`writes
      ensures Valid()
      ensures Reported(old(reportingAllowed), old(older), old(newer), old(writes), statusV4, statusV6, writeOk,
                       reportingAllowed, older, newer, writes, written)
    {
      written := None;
      if reportingAllowed {
        if older == {} && newer != {} {
          older := newer;
          newer := {};
        }
        if older != {} {
          var ep :| ep in older;
          older := older - {ep};
          var status := CombineStatuses(Lookup(statusV4, ep), Lookup(statusV6, ep));
          writes := writes + [StatusWrite(ep, status)];
          if !writeOk {
            newer := newer + {ep};
          }
          reportingAllowed := false;
          written := Some(ep);
        }
      }
    }

    /**
     * `_finish_msg_batch`. With reporting disabled every report and both dirty
     * sets are dropped. Otherwise a pending cleanup is attempted, at most one
     * endpoint is written, and a timer is scheduled when none is and either
     * the rate limit is closed or a cleanup is still owed.
     */
    method FinishMsgBatch(found: Option<set<EndpointId>>, writeOk: bool) returns (written: Option<EndpointId>)
      requires Valid()
      modifies this
      ensures Valid()
      ensures !reportEnabled ==>
        statusV4 == map[] && statusV6 == map[] && newer == {} && older == {} && written.None?
        && writes == old(writes) && cleanupPending == old(cleanupPending)
        && timerScheduled == old(timerScheduled) && reportingAllowed == old(reportingAllowed)
      ensures reportEnabled ==> statusV4 == old(statusV4) && statusV6 == old(statusV6)
      ensures reportEnabled ==> cleanupPending == (old(cleanupPending) && found.None?)
      ensures reportEnabled ==>
        Reported(old(reportingAllowed), old(older), Cleaned(old(cleanupPending), found, old(newer), old(older)),
                 old(writes), statusV4, statusV6, writeOk, reportingAllowed, older, newer, writes, written)
      ensures reportEnabled ==>
        timerScheduled == (old(timerScheduled) || !reportingAllowed || cleanupPending)
    {
      written := None;
      if !reportEnabled {
        statusV4, statusV6 := map[], map[];
        newer, older := {}, {};
        return;
      }
      AttemptCleanup(found);
      written := ReportOne(writeOk);
      if !timerScheduled && (!reportingAllowed || cleanupPending) {
        timerScheduled := true;
      }
    }
  }

  /** Python's `d.get(k)`. */
  function Lookup(m: map<EndpointId, string>, k: EndpointId): (r: Report)
    ensures r.Some? <==> k in m
    ensures r.Some? ==> r.value == m[k]
  {
    if k in m then Some(m[k]) else None
  }

  /** Driver status meaning the snapshot has been processed. */
  const StatusInSync: string := "in-sync"

  /** `_FelixEtcdWatcher`: the decisions it takes on configuration, sync status and host IPs. */
  class Watcher {
    const ipInIpEnabled: bool
    const reportEndpointStatus: bool
    const hostname: string
    const reporter: StatusReporter
    var configured: bool
    var lastGlobalConfig: map<string, string>
    var lastHostConfig: map<string, string>
    /** Number of MSG_TYPE_CONFIG messages sent to the driver. */
    var configMessagesSent: nat
    /** Set once `die_and_restart` has been called. */
    var restartRequested: bool
    var beenInSync: bool
    /** Number of in-sync notifications handed to the splitter. */
    var inSyncNotifications: nat
    var ipv4ByHostname: map<string, string>
    /** Member lists handed to the hosts ipset, in order. */
    var hostsIpsetUpdates: seq<set<string>>

    /** Both flags stand for the one REPORT_ENDPOINT_STATUS setting. */
    constructor (ipInIpEnabled: bool, reportEndpointStatus: bool, hostname: string, reporter: StatusReporter)
      requires reportEndpointStatus == reporter.reportEnabled
      ensures this.ipInIpEnabled == ipInIpEnabled && this.reportEndpointStatus == reportEndpointStatus
      ensures this.hostname == hostname && this.reporter == reporter
      ensures !configured && configMessagesSent == 0 && !restartRequested
      ensures !beenInSync && inSyncNotifications == 0
      ensures ipv4ByHostname == map[] && hostsIpsetUpdates == []
    {
      this.ipInIpEnabled := ipInIpEnabled;
      this.reportEndpointStatus := reportEndpointStatus;
      this.hostname := hostname;
      this.reporter := reporter;
      configured := false;
      lastGlobalConfig, lastHostConfig := map[], map[];
      configMessagesSent := 0;
      restartRequested := false;
      beenInSync := false;
      inSyncNotifications := 0;
      ipv4ByHostname := map[];
      hostsIpsetUpdates := [];
    }

    /**
     * `_on_config_loaded_from_driver`: the first load keeps both dicts, sends
     * the config message once and marks the watcher configured; a later load
     * asks for a restart exactly when either dict differs from the first.
     */
    method OnConfigLoaded(globalConfig: map<string, string>, hostConfig: map<string, string>)
      modifies this`configured, this`lastGlobalConfig, this`lastHostConfig, this`configMessagesSent, this`restartRequested
      ensures configured
      ensures !old(configured) ==>
        lastGlobalConfig == globalConfig && lastHostConfig == hostConfig
        && configMessagesSent == old(configMessagesSent) + 1 && restartRequested == old(restartRequested)
      ensures old(configured) ==>
        lastGlobalConfig == old(lastGlobalConfig) && lastHostConfig == old(lastHostConfig)
        && configMessagesSent == old(configMessagesSent)
        && restartRequested == (old(restartRequested)
             || hostConfig != old(lastHostConfig) || globalConfig != old(lastGlobalConfig))
    {
      if configured {
        if hostConfig != lastHostConfig || globalConfig != lastGlobalConfig {
          restartRequested := true;
        }
      } else {
        lastHostConfig := hostConfig;
        lastGlobalConfig := globalConfig;
        configMessagesSent := configMessagesSent + 1;
        configured := true;
      }
    }

    /** `_update_hosts_ipset`: hand the current host IPs to the ipset, but only once in sync. */
    method UpdateHostsIpset()
      modifies this`hostsIpsetUpdates
      ensures hostsIpsetUpdates == if beenInSync then old(hostsIpsetUpdates) + [ipv4ByHostname.Values] else old(hostsIpsetUpdates)
    {
      if beenInSync {
        hostsIpsetUpdates := hostsIpsetUpdates + [ipv4ByHostname.Values];
      }
    }

    /**
     * `_on_status_from_driver`: the start-of-day side effects run on the first
     * in-sync status only, and every other status changes nothing.
     */
    method OnStatusFromDriver(status: string)
      modifies this`beenInSync, this`inSyncNotifications, this`hostsIpsetUpdates, reporter`cleanupPending
      ensures beenInSync == (old(beenInSync) || status == StatusInSync)
      ensures status == StatusInSync && !old(beenInSync) ==>
        inSyncNotifications == old(inSyncNotifications) + 1
        && reporter.cleanupPending == (old(reporter.cleanupPending) || reportEndpointStatus)
        && hostsIpsetUpdates == old(hostsIpsetUpdates) + [ipv4ByHostname.Values]
      ensures !(status == StatusInSync && !old(beenInSync)) ==>
        inSyncNotifications == old(inSyncNotifications) && hostsIpsetUpdates == old(hostsIpsetUpdates)
        && reporter.cleanupPending == old(reporter.cleanupPending)
    {
      if status == StatusInSync && !beenInSync {
        beenInSync := true;
        inSyncNotifications := inSyncNotifications + 1;
        if reportEndpointStatus {
          reporter.CleanUpEndpointStatuses();
        }
        UpdateHostsIpset();
      }
    }

    /**
     * `on_host_ip_set`. `ip` is the parsed address, None when the value is not
     * a valid IPv4 address, in which case the entry is removed instead.
     */
    method OnHostIpSet(host: string, ip: Option<string>)
      modifies this`ipv4ByHostname, this`hostsIpsetUpdates
      ensures !ipInIpEnabled ==> ipv4ByHostname == old(ipv4ByHostname) && hostsIpsetUpdates == old(hostsIpsetUpdates)
      ensures ipInIpEnabled ==>
        ipv4ByHostname == (if ip.Some? && ip.value != "" then old(ipv4ByHostname)[host := ip.value] else old(ipv4ByHostname) - {host})
        && hostsIpsetUpdates == (if beenInSync then old(hostsIpsetUpdates) + [ipv4ByHostname.Values] else old(hostsIpsetUpdates))
    {
      if !ipInIpEnabled {
        return;
      }
      if ip.Some? && ip.value != "" {
        ipv4ByHostname := ipv4ByHostname[host := ip.value];
      } else {
        ipv4ByHostname := ipv4ByHostname - {host};
      }
      UpdateHostsIpset();
    }

    /** `on_host_ip_delete`: the ipset is updated only when an entry was actually removed. */
    method OnHostIpDelete(host: string)
      modifies this`ipv4ByHostname, this`hostsIpsetUpdates
      ensures !ipInIpEnabled ==> ipv4ByHostname == old(ipv4ByHostname) && hostsIpsetUpdates == old(hostsIpsetUpdates)
      ensures ipInIpEnabled ==> ipv4ByHostname == old(ipv4ByHostname) - {host}
      ensures ipInIpEnabled ==>
        hostsIpsetUpdates == if host in old(ipv4ByHostname) && old(ipv4ByHostname)[host] != "" && beenInSync
        then old(hostsIpsetUpdates) + [ipv4ByHostname.Values] else old(hostsIpsetUpdates)
    {
      if !ipInIpEnabled {
        return;
      }
      var removed := Lookup(ipv4ByHostname, host);
      ipv4ByHostname := ipv4ByHostname - {host};
      if removed.Some? && removed.value != "" {
        UpdateHostsIpset();
      }
    }

    /**
     * `_on_config_updated`: a global parameter whose value differs from the
     * loaded one forces a restart. The loaded dict exists only once the
     * driver has sent the configuration, which it does before any update.
     */
    method OnConfigUpdated(param: string, value: Option<string>)
      requires configured
      modifies this`restartRequested
      ensures restartRequested == (old(restartRequested) || Lookup(lastGlobalConfig, param) != value)
    {
      if Lookup(lastGlobalConfig, param) != value {
        restartRequested := true;
      }
    }

    /**
     * `_on_host_config_updated`: the same rule for this host's parameters;
     * other hosts are ignored, before the configuration is loaded too.
     */
    method OnHostConfigUpdated(host: string, param: string, value: Option<string>)
      requires host == hostname ==> configured
      modifies this`restartRequested
      ensures restartRequested ==
        (old(restartRequested) || (host == hostname && Lookup(lastHostConfig, param) != value))
    {
      if host != hostname {
        return;
      }
      if Lookup(lastHostConfig, param) != value {
        restartRequested := true;
      }
    }
  }
}
