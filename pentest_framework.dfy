/**
 * The sequential parts of `PentestFramework` (app.py): the scan-option lookup
 * of `network_scan_workflow` and the result aggregation of
 * `process_scan_results`. The scan engine's stored results are an input value.
 */
module PentestFramework {
  import opened Wrappers
  import opened ScanReport
  import opened ReportGenerator
  import opened ReportOutline

  /**
   * The menu identifiers of the four scan types offered by the workflow:
   * SYN, UDP, full (aggressive) and vulnerability-script scans.
   */
  const ScanChoices: set<string> := {"1", "2", "3", "4"}

  /**
   * The nmap argument string for a scan-type choice; any answer other than a
   * listed identifier falls back to a SYN scan.
   */
  function ScanArguments(choice: string): (args: string)
    ensures args in {"-sS", "-sU", "-A -T4", "--script vuln"}
    ensures choice == "1" ==> args == "-sS"
    ensures choice == "2" ==> args == "-sU"
    ensures choice == "3" ==> args == "-A -T4"
    ensures choice == "4" ==> args == "--script vuln"
    ensures choice !in ScanChoices ==> args == "-sS"
  {
    var options := map["1" := "-sS", "2" := "-sU", "3" := "-A -T4", "4" := "--script vuln"];
    if choice in options then options[choice] else "-sS"
  }

  /** The SYN scan is chosen exactly by "1" and by every unlisted answer; every other choice is its own. */
  lemma ScanArgumentsChoice(choice: string, other: string)
    ensures ScanArguments(choice) == "-sS" <==> choice == "1" || choice !in ScanChoices
    ensures choice in ScanChoices && other in ScanChoices && choice != other ==>
      ScanArguments(choice) != ScanArguments(other)
  {
  }

  // ---------------------------------------------------------------------------
  // The scan engine's stored results (`nm[host][proto][port]`)

  /** The attribute dictionary of one scanned port: `name` may be absent, `state` is always present. */
  datatype PortRecord = PortRecord(name: Option<string>, state: string)

  /** One port key of a protocol table with its attributes. */
  datatype PortBinding = PortBinding(port: nat, record: PortRecord)

  /** One protocol of a host, with its port table in key order. */
  datatype ProtocolTable = ProtocolTable(protocol: string, ports: seq<PortBinding>)

  /**
   * What the engine holds after a scan: for each recorded host, its protocols
   * in the order `all_protocols()` lists them.
   */
  type Engine = map<string, seq<ProtocolTable>>

  /** Looking up a host the engine has no record for (Python's `KeyError`). */
  datatype AggregateError = UnknownHost(host: string)

  /** The report entry for one port: a missing `name` becomes "unknown", `state` is copied. */
  function Entry(b: PortBinding): PortEntry
  {
    PortEntry(b.port, b.record.name.GetOr("unknown"), b.record.state)
  }

  /** The entries of one protocol's ports, in port order. */
  function ProtocolEntries(ports: seq<PortBinding>): seq<PortEntry>
  {
    if ports == [] then [] else ProtocolEntries(ports[..|ports| - 1]) + [Entry(ports[|ports| - 1])]
  }

  /** The `ports` list of one host: protocol by protocol, port by port. */
  function HostPorts(protocols: seq<ProtocolTable>): seq<PortEntry>
  {
    if protocols == [] then []
    else HostPorts(protocols[..|protocols| - 1]) + ProtocolEntries(protocols[|protocols| - 1].ports)
  }

  /** The host entries for `hosts`, all of which the engine has records for. */
  function HostEntries(engine: Engine, hosts: seq<string>): seq<HostEntry>
    requires forall h :: h in hosts ==> h in engine
  {
    if hosts == [] then []
    else
      var last := hosts[|hosts| - 1];
      HostEntries(engine, hosts[..|hosts| - 1]) + [HostEntry(last, HostPorts(engine[last]))]
  }

  /**
   * `process_scan_results` without its final report-writing call: for each
   * host of `results`, in order, reads the engine's record and appends
   * `{ip, ports}`, where `ports` lists every port of every protocol. Fails on
   * the first host the engine holds no record for.
   */
  method ProcessScanResults(engine: Engine, results: seq<string>) returns (r: Result<Report, AggregateError>)
    ensures r.Success? <==> forall h :: h in results ==> h in engine
    ensures r.Success? ==> r.value == Report(HostEntries(engine, results))
    ensures r.Failure? ==> exists k :: (0 <= k < |results| && r.error == UnknownHost(results[k]) &&
                                        results[k] !in engine && forall j :: 0 <= j < k ==> results[j] in engine)
  {
    var hosts: seq<HostEntry> := [];
    var i := 0;
    while i < |results|
      invariant 0 <= i <= |results|
      invariant forall j :: 0 <= j < i ==> results[j] in engine
      invariant hosts == HostEntries(engine, results[..i])
    {
      var host := results[i];
      if host !in engine {
        return Failure(UnknownHost(host));
      }
      var hostInfo := engine[host];
      var ports: seq<PortEntry> := [];
      var p := 0;
      while p < |hostInfo|
        invariant 0 <= p <= |hostInfo|
        invariant ports == HostPorts(hostInfo[..p])
      {
        var table := hostInfo[p].ports;
        var q := 0;
        while q < |table|
          invariant 0 <= q <= |table|
          invariant ports == HostPorts(hostInfo[..p]) + ProtocolEntries(table[..q])
        {
          var attrs := table[q].record;
          var service := attrs.name.GetOr("unknown");
          var state := attrs.state;
          ports := ports + [PortEntry(table[q].port, service, state)];
          assert table[..q + 1][..q] == table[..q];
          q := q + 1;
        }
        assert table[..q] == table;
        assert hostInfo[..p + 1][..p] == hostInfo[..p];
        p := p + 1;
      }
      assert hostInfo[..p] == hostInfo;
      hosts := hosts + [HostEntry(host, ports)];
      assert results[..i + 1][..i] == results[..i];
      i := i + 1;
    }
    assert results[..i] == results;
    r := Success(Report(hosts));
  }

  // ---------------------------------------------------------------------------
  // Properties of the aggregation

  /** One host entry per input host, in input order, carrying that host as `ip`. */
  lemma {:induction false} HostEntriesAt(engine: Engine, hosts: seq<string>)
    requires forall h :: h in hosts ==> h in engine
    ensures |HostEntries(engine, hosts)| == |hosts|
    ensures forall k :: 0 <= k < |hosts| ==>
      HostEntries(engine, hosts)[k] == HostEntry(hosts[k], HostPorts(engine[hosts[k]]))
  {
    if hosts != [] {
      var init := hosts[..|hosts| - 1];
      HostEntriesAt(engine, init);
      assert forall k :: 0 <= k < |init| ==> init[k] == hosts[k];
    }
  }

  /** Distinct hosts give distinct `ip` fields: no host is reported twice. */
  lemma DistinctHostsDistinctEntries(engine: Engine, hosts: seq<string>)
    requires forall h :: h in hosts ==> h in engine
    requires forall i, j :: 0 <= i < j < |hosts| ==> hosts[i] != hosts[j]
    ensures var entries := HostEntries(engine, hosts);
      forall i, j :: 0 <= i < j < |entries| ==> entries[i].ip != entries[j].ip
  {
    HostEntriesAt(engine, hosts);
  }

  /**
   * One entry per port of a protocol table, in table order, with the port and
   * state copied and the service defaulting to "unknown" when there is no name.
   */
  lemma {:induction false} ProtocolEntriesAt(ports: seq<PortBinding>)
    ensures |ProtocolEntries(ports)| == |ports|
    ensures forall k :: 0 <= k < |ports| ==>
      var e := ProtocolEntries(ports)[k];
      && e.port == ports[k].port
      && e.state == ports[k].record.state
      && (ports[k].record.name.None? ==> e.service == "unknown")
      && (ports[k].record.name.Some? ==> e.service == ports[k].record.name.value)
  {
    if ports != [] {
      var init := ports[..|ports| - 1];
      ProtocolEntriesAt(init);
      assert forall k :: 0 <= k < |init| ==> init[k] == ports[k];
    }
  }

  /** The number of ports recorded over a sequence of protocols. */
  function PortCount(protocols: seq<ProtocolTable>): nat
  {
    if protocols == [] then 0 else PortCount(protocols[..|protocols| - 1]) + |protocols[|protocols| - 1].ports|
  }

  /** Aggregating two runs of protocols is aggregating each and concatenating. */
  lemma {:induction false} HostPortsAppend(a: seq<ProtocolTable>, b: seq<ProtocolTable>)
    ensures HostPorts(a + b) == HostPorts(a) + HostPorts(b)
    ensures PortCount(a + b) == PortCount(a) + PortCount(b)
    decreases |b|
  {
    if b != [] {
      var init := b[..|b| - 1];
      assert (a + b)[..|a + b| - 1] == a + init;
      HostPortsAppend(a, init);
    } else {
      assert a + b == a;
    }
  }

  /**
   * A host's `ports` list has one entry per port over all its protocols, and
   * the entry for port `j` of protocol `p` sits after the entries of every
   * earlier protocol and every earlier port of protocol `p`.
   */
  lemma HostPortsAt(protocols: seq<ProtocolTable>, p: nat, j: nat)
    requires p < |protocols| && j < |protocols[p].ports|
    ensures |HostPorts(protocols)| == PortCount(protocols)
    ensures PortCount(protocols[..p]) + j < PortCount(protocols)
    ensures HostPorts(protocols)[PortCount(protocols[..p]) + j] == Entry(protocols[p].ports[j])
  {
    var before, rest := protocols[..p], protocols[p + 1..];
    var mine := ProtocolEntries(protocols[p].ports);
    assert HostPorts(protocols) == HostPorts(before) + mine + HostPorts(rest) by {
      var upTo := protocols[..p + 1];
      assert upTo[..p] == before;
      assert protocols == upTo + rest;
      HostPortsAppend(upTo, rest);
    }
    assert |HostPorts(before)| == PortCount(before) && |HostPorts(protocols)| == PortCount(protocols) by {
      HostPortsLength(before);
      HostPortsLength(protocols);
    }
    ProtocolEntriesExact(protocols[p].ports, j);
    IndexMiddle(HostPorts(before), mine, HostPorts(rest), j);
  }

  lemma IndexMiddle(a: seq<PortEntry>, b: seq<PortEntry>, c: seq<PortEntry>, j: nat)
    requires j < |b|
    ensures |a| + j < |a + b + c| && (a + b + c)[|a| + j] == b[j]
  {
  }

  lemma {:induction false} HostPortsLength(protocols: seq<ProtocolTable>)
    ensures |HostPorts(protocols)| == PortCount(protocols)
  {
    if protocols != [] {
      HostPortsLength(protocols[..|protocols| - 1]);
      ProtocolEntriesAt(protocols[|protocols| - 1].ports);
    }
  }

  lemma {:induction false} ProtocolEntriesExact(ports: seq<PortBinding>, j: nat)
    requires j < |ports|
    ensures |ProtocolEntries(ports)| == |ports| && ProtocolEntries(ports)[j] == Entry(ports[j])
  {
    var init := ports[..|ports| - 1];
    ProtocolEntriesAt(init);
    if j < |ports| - 1 {
      ProtocolEntriesExact(init, j);
    }
  }

  /** The engine record `10.0.0.1: tcp: {22: open/ssh, 80: closed/http}` gives one host with two ports in engine order. */
  lemma SingleHostExample()
    ensures var engine: Engine := map["10.0.0.1" := [ProtocolTable("tcp", [
                PortBinding(22, PortRecord(Some("ssh"), "open")),
                PortBinding(80, PortRecord(Some("http"), "closed"))])]];
      HostEntries(engine, ["10.0.0.1"]) ==
        [HostEntry("10.0.0.1", [PortEntry(22, "ssh", "open"), PortEntry(80, "http", "closed")])]
  {
    var ports := [PortBinding(22, PortRecord(Some("ssh"), "open")), PortBinding(80, PortRecord(Some("http"), "closed"))];
    assert ports[..1][..0] == [];
    assert ProtocolEntries(ports) == [PortEntry(22, "ssh", "open"), PortEntry(80, "http", "closed")];
    var protocols := [ProtocolTable("tcp", ports)];
    assert protocols[..0] == [];
    assert HostPorts(protocols) == ProtocolEntries(ports);
    var hosts := ["10.0.0.1"];
    assert hosts[..0] == [];
  }

  // ---------------------------------------------------------------------------
  // The network report written at the end of `process_scan_results`

  /** Engine texts that the HTML report can carry without a `<`. */
  predicate PlainRecords(protocols: seq<ProtocolTable>)
  {
    forall t, b :: t in protocols && b in t.ports ==>
      Plain(b.record.state) && (b.record.name.Some? ==> Plain(b.record.name.value))
  }

  lemma {:induction false} ProtocolEntriesPlain(ports: seq<PortBinding>)
    requires forall b :: b in ports ==> Plain(b.record.state) && (b.record.name.Some? ==> Plain(b.record.name.value))
    ensures forall e :: e in ProtocolEntries(ports) ==> Plain(e.service) && Plain(e.state)
  {
    ProtocolEntriesAt(ports);
    forall e | e in ProtocolEntries(ports)
      ensures Plain(e.service) && Plain(e.state)
    {
      var k :| 0 <= k < |ProtocolEntries(ports)| && ProtocolEntries(ports)[k] == e;
      assert ports[k] in ports;
    }
  }

  lemma {:induction false} HostPortsPlain(protocols: seq<ProtocolTable>)
    requires PlainRecords(protocols)
    ensures forall e :: e in HostPorts(protocols) ==> Plain(e.service) && Plain(e.state)
  {
    if protocols != [] {
      var init, last := protocols[..|protocols| - 1], protocols[|protocols| - 1];
      assert PlainRecords(init) by {
        forall t | t in init ensures t in protocols { }
      }
      HostPortsPlain(init);
      assert last in protocols;
      ProtocolEntriesPlain(last.ports);
    }
  }

  lemma {:induction false} SectionsOfAt(hosts: seq<HostEntry>)
    ensures |SectionsOf(hosts)| == |hosts|
    ensures forall k :: 0 <= k < |hosts| ==> SectionsOf(hosts)[k] == Section(hosts[k].ip, ItemTexts(hosts[k].ports))
  {
    if hosts != [] {
      SectionsOfAt(hosts[1..]);
    }
  }

  /**
   * The network report written for aggregated results reads back as one
   * section per result host, in result order, headed by that host and
   * listing one `port (service) - state` item per port the engine recorded
   * for it, protocol by protocol.
   */
  lemma NetworkReportReadsBack(engine: Engine, results: seq<string>, timestamp: string)
    requires forall h :: h in results ==> h in engine && Plain(h) && PlainRecords(engine[h])
    requires Plain(timestamp)
    ensures var outline := ParseReport(ReportHtml(Report(HostEntries(engine, results)), "network", timestamp));
      && outline.Some?
      && outline.value.title == Capitalize("network")
      && outline.value.generatedAt == timestamp
      && |outline.value.sections| == |results|
      && forall k :: 0 <= k < |results| ==>
           outline.value.sections[k] == Section(results[k], ItemTexts(HostPorts(engine[results[k]])))
  {
    var entries := HostEntries(engine, results);
    HostEntriesAt(engine, results);
    assert PlainReport(Report(entries)) by {
      forall h | h in entries
        ensures Plain(h.ip) && forall p :: p in h.ports ==> Plain(p.service) && Plain(p.state)
      {
        var k :| 0 <= k < |entries| && entries[k] == h;
        assert results[k] in results;
        HostPortsPlain(engine[results[k]]);
      }
    }
    ReportRoundTrip(Report(entries), "network", timestamp);
    SectionsOfAt(entries);
  }
}
