/** The backend's process-wide session state (the module globals of
    net-man-backend/src/backend.py) and the request handlers that change it. */
module Backend {
  import opened Base
  import opened Text
  import Locator
  import PingReport
  import Flows

  /** The before/after samples `stats()` reports (its arithmetic on them is not modelled). */
  datatype StatsReport = StatsReport(timeBefore: string, timeAfter: string)

  datatype StopMessage = NetworkStopped | NetworkAlreadyStopped

  /** The flow list that `../flowsLog.json` reloads to at start-up (lines 58-64):
      `None` stands for a file `json.load` rejects, which leaves the list empty. */
  function Reload(snapshot: Option<seq<string>>): seq<string>
  {
    match snapshot
    case Some(urls) => urls
    case None => []
  }

  /** The text of a controller GET response says the flow is missing (line 374). */
  predicate ReportsMissing(response: string)
  {
    Contains(response, "errors")
  }

  /** `ping_between_hosts_and_get_avrg_time` (lines 386-442), given whether a
      network is up, the recorded topology, the stored path and the text the
      emulator's ping printed: locate both ends of the path, then read the mean
      round-trip time out of the report. */
  function Measure(up: bool, topo: Option<Locator.Topology>, path: seq<string>, report: string): (r: Result<string>)
    ensures r.Ok? ==> up && topo.Some? && path != []
    ensures r.Ok? ==> '/' !in r.value
    ensures Locator.Endpoints(up, topo, path).Ok? ==> r == PingReport.ExtractAverage(report)
    ensures Locator.Endpoints(up, topo, path).Err? ==> r == Err(Locator.Endpoints(up, topo, path).fault)
  {
    match Locator.Endpoints(up, topo, path)
    case Err(f) => Err(f)
    case Ok(_) => PingReport.ExtractAverage(report)
  }

  class Session {
    /** global_net is not None */
    var up: bool
    /** gtopo_type, gswitch_num, gnodes_per_switch; None until a network is created */
    var topology: Option<Locator.Topology>
    /** gshortest_path */
    var shortestPath: seq<string>
    /** gflows_list */
    var flows: seq<string>
    /** gstats_list, each sample kept as the text ping reported */
    var stats: seq<string>
    /** the flow list last written to ../flowsLog.json */
    var snapshot: Option<seq<string>>

    /** The flow log always reloads to the current flow list, and without a
        network there is neither a stored path nor a latency sample. */
    ghost predicate Valid()
      reads this
    {
      Reload(snapshot) == flows && (!up ==> shortestPath == [] && stats == [])
    }

    /** Module start-up, given what `json.load` made of the flow log. */
    constructor (loaded: Option<seq<string>>)
      ensures Valid()
      ensures !up && topology == None && shortestPath == [] && stats == []
      ensures flows == Reload(loaded) && snapshot == loaded
    {
      up := false;
      topology := None;
      shortestPath := [];
      flows := Reload(loaded);
      stats := [];
      snapshot := loaded;
    }

    /** `network_exists` (lines 199-206). */
    function Status(): (s: string)
      reads this
      ensures s == "up" <==> up
      ensures s == "down" <==> !up
    {
      if up then "up" else "down"
    }

    /** `clean_up_everything` (lines 159-180): a DELETE for every recorded flow,
        in order, then every list emptied and the log rewritten as empty. */
    method CleanUpEverything() returns (deleted: seq<string>)
      modifies this
      ensures Valid()
      ensures deleted == old(flows)
      ensures shortestPath == [] && flows == [] && stats == [] && snapshot == Some([])
      ensures up == old(up) && topology == old(topology)
    {
      deleted := [];
      var urls := flows;
      var i := 0;
      while i < |urls|
        invariant 0 <= i <= |urls|
        invariant deleted == urls[..i]
      {
        deleted := deleted + [urls[i]];
        i := i + 1;
      }
      shortestPath := [];
      flows := [];
      snapshot := Some([]);
      stats := [];
    }

    /** `delete_flows` (lines 250-260): after the clean-up the success test always holds. */
    method DeleteFlows() returns (deleted: seq<string>, success: bool)
      modifies this
      ensures Valid()
      ensures success
      ensures deleted == old(flows)
      ensures shortestPath == [] && flows == [] && stats == [] && snapshot == Some([])
      ensures up == old(up) && topology == old(topology)
    {
      deleted := CleanUpEverything();
      success := |shortestPath| == 0 && |flows| == 0 && |stats| == 0;
    }

    /** `create_network` (lines 112-153): records the topology, clears the
        session as `delete_flows` does, and starts the emulated network. */
    method CreateNetwork(topo: Locator.Topology) returns (deleted: seq<string>)
      requires Valid()
      modifies this
      ensures Valid()
      ensures up && topology == Some(topo)
      ensures deleted == old(flows)
      ensures shortestPath == [] && flows == [] && stats == [] && snapshot == Some([])
    {
      topology := Some(topo);
      var cleared;
      deleted, cleared := DeleteFlows();
      up := true;
    }

    /** `delete_network` (lines 184-196). */
    method DeleteNetwork() returns (msg: StopMessage, deleted: seq<string>)
      requires Valid()
      modifies this
      ensures Valid()
      ensures old(up) ==> msg == NetworkStopped && !up && deleted == old(flows) && topology == old(topology)
      ensures old(up) ==> shortestPath == [] && flows == [] && stats == [] && snapshot == Some([])
      ensures !old(up) ==> msg == NetworkAlreadyStopped && deleted == []
      ensures !old(up) ==> unchanged(this)
    {
      if up {
        deleted := CleanUpEverything();
        up := false;
        msg := NetworkStopped;
      } else {
        deleted := [];
        msg := NetworkAlreadyStopped;
      }
    }

    /** `delete_shortest_path` (lines 210-213). */
    method DeleteShortestPath() returns (success: bool)
      requires Valid()
      modifies this
      ensures Valid() && success
      ensures shortestPath == []
      ensures up == old(up) && topology == old(topology) && flows == old(flows)
      ensures stats == old(stats) && snapshot == old(snapshot)
    {
      shortestPath := [];
      success := true;
    }

    /** `find_shortest_path` (lines 217-241), given the path the graph library
        computed: stored only while a network is up. */
    method FindShortestPath(computed: seq<string>) returns (r: Option<seq<string>>)
      requires Valid()
      modifies this
      ensures Valid()
      ensures old(up) ==> r == Some(computed) && shortestPath == computed
      ensures !old(up) ==> r == None && shortestPath == old(shortestPath)
      ensures up == old(up) && topology == old(topology) && flows == old(flows)
      ensures stats == old(stats) && snapshot == old(snapshot)
    {
      if up {
        shortestPath := computed;
        r := Some(computed);
      } else {
        r := None;
      }
    }

    /** `stats` (lines 276-287): the first two samples, whatever follows them. */
    function Stats(): (r: StatsReport)
      reads this
      requires |stats| >= 2
      ensures r.timeBefore == stats[0] && r.timeAfter == stats[1]
    {
      StatsReport(stats[0], stats[1])
    }

    /** `stat_flows` (lines 269-273): a report only when exactly two samples are recorded. */
    function StatFlows(): (r: Option<StatsReport>)
      reads this
      ensures r.Some? <==> |stats| == 2
      ensures r.Some? ==> r.value.timeBefore == stats[0] && r.value.timeAfter == stats[1]
    {
      if |stats| != 2 then None else Some(Stats())
    }

    /** `flow_exists` (lines 366-377): GETs the recorded flows in order and stops
        at the first response that reports an error. `fetch` gives the text of
        the controller's response to a GET of a URL. */
    method FlowExists(fetch: string -> string) returns (present: bool, probed: seq<string>)
      ensures present <==> forall i :: 0 <= i < |flows| ==> !ReportsMissing(fetch(flows[i]))
      ensures probed <= flows
      ensures present ==> probed == flows
      ensures !present ==> probed != [] && ReportsMissing(fetch(probed[|probed| - 1]))
      ensures forall i :: 0 <= i < |probed| - 1 ==> !ReportsMissing(fetch(probed[i]))
    {
      probed := [];
      var i := 0;
      while i < |flows|
        invariant 0 <= i <= |flows|
        invariant probed == flows[..i]
        invariant forall k :: 0 <= k < i ==> !ReportsMissing(fetch(flows[k]))
      {
        probed := probed + [flows[i]];
        if ReportsMissing(fetch(flows[i])) {
          return false, probed;
        }
        i := i + 1;
      }
      present := true;
    }

    /** `create_flow` (lines 330-363): records the flow's URL, then PUTs the rule
        there and checks every recorded flow with `flow_exists`. */
    method CreateFlow(openflowId: string, tableId: string, flowId: string, srcMac: string, destMac: string,
                      port: string, fetch: string -> string)
      returns (put: Flows.PutRequest, success: bool)
      modifies this`flows
      ensures flows == old(flows) + [Flows.FlowUrl(openflowId, tableId, flowId)]
      ensures put == Flows.PutRequest(flows[|flows| - 1], Flows.RuleFor(flowId, srcMac, destMac, port, tableId))
      ensures success <==> forall i :: 0 <= i < |flows| ==> !ReportsMissing(fetch(flows[i]))
    {
      var url := Flows.FlowUrl(openflowId, tableId, flowId);
      flows := flows + [url];
      put := Flows.PutRequest(url, Flows.RuleFor(flowId, srcMac, destMac, port, tableId));
      var probed;
      success, probed := FlowExists(fetch);
    }

    /** `gstats_list.append(...)` (lines 296 and 325). */
    method AddSample(sample: string)
      modifies this`stats
      ensures stats == old(stats) + [sample]
      ensures up == old(up) && topology == old(topology) && shortestPath == old(shortestPath)
      ensures flows == old(flows) && snapshot == old(snapshot)
    {
      stats := stats + [sample];
    }

    /** The middle of `create_flows` (lines 306-320): one `create_flow` per switch
        entry, each with flow id '0' and the entry's table and output port, then
        the flow list written to the log. */
    method PushFlows(srcMac: string, destMac: string, nodesInfo: seq<Flows.SwitchInfo>, fetch: string -> string)
      returns (puts: seq<Flows.PutRequest>)
      modifies this`flows, this`snapshot
      ensures flows == old(flows) + Flows.FlowUrls(nodesInfo) && snapshot == Some(flows)
      ensures puts == Flows.FlowRequests(srcMac, destMac, nodesInfo)
      ensures up == old(up) && topology == old(topology) && shortestPath == old(shortestPath)
      ensures stats == old(stats)
    {
      puts := [];
      var i := 0;
      while i < |nodesInfo|
        invariant 0 <= i <= |nodesInfo|
        invariant flows == old(flows) + Flows.FlowUrls(nodesInfo[..i])
        invariant puts == Flows.FlowRequests(srcMac, destMac, nodesInfo[..i])
      {
        var info := nodesInfo[i];
        Flows.FlowsOneMore(srcMac, destMac, nodesInfo, i);
        var put, created := CreateFlow(info.switchId, info.tableId, Flows.NewFlowId, srcMac, destMac, info.portNumber, fetch);
        puts := puts + [put];
        i := i + 1;
      }
      assert nodesInfo[..i] == nodesInfo;
      snapshot := Some(flows);
    }

    /** `create_flows` (lines 291-327): a sample before, one flow per switch
        entry, the flow log rewritten, a sample after, and the first two samples
        reported. A failing probe stops the request where it fails. The probes
        read only the network, topology and path, which the request leaves as
        they were. */
    method CreateFlows(srcMac: string, destMac: string, nodesInfo: seq<Flows.SwitchInfo>,
                       reportBefore: string, reportAfter: string, fetch: string -> string)
      returns (r: Result<StatsReport>, puts: seq<Flows.PutRequest>)
      requires Valid()
      modifies this
      ensures Valid()
      ensures up == old(up) && topology == old(topology) && shortestPath == old(shortestPath)
      ensures Measure(up, topology, shortestPath, reportBefore).Err? ==>
        r == Err(Measure(up, topology, shortestPath, reportBefore).fault) && puts == [] && unchanged(this)
      ensures Measure(up, topology, shortestPath, reportBefore).Ok? ==>
        flows == old(flows) + Flows.FlowUrls(nodesInfo) && snapshot == Some(flows) &&
        puts == Flows.FlowRequests(srcMac, destMac, nodesInfo)
      ensures Measure(up, topology, shortestPath, reportBefore).Ok? && Measure(up, topology, shortestPath, reportAfter).Err? ==>
        r == Err(Measure(up, topology, shortestPath, reportAfter).fault) && stats == old(stats) + [Measure(up, topology, shortestPath, reportBefore).value]
      ensures Measure(up, topology, shortestPath, reportBefore).Ok? && Measure(up, topology, shortestPath, reportAfter).Ok? ==>
        stats == old(stats) + [Measure(up, topology, shortestPath, reportBefore).value, Measure(up, topology, shortestPath, reportAfter).value]
      ensures r.Ok? <==> Measure(up, topology, shortestPath, reportBefore).Ok? && Measure(up, topology, shortestPath, reportAfter).Ok?
      ensures r.Ok? ==> |stats| >= 2 && r == Ok(Stats())
      ensures r.Ok? && old(stats) == [] ==> StatFlows() == Some(r.value)
      ensures r.Ok? && old(stats) != [] ==> StatFlows() == None
    {
      var before := Measure(up, topology, shortestPath, reportBefore);
      if before.Err? {
        return Err(before.fault), [];
      }
      AddSample(before.value);
      puts := PushFlows(srcMac, destMac, nodesInfo, fetch);
      var after := Measure(up, topology, shortestPath, reportAfter);
      if after.Err? {
        return Err(after.fault), puts;
      }
      AddSample(after.value);
      r := Ok(Stats());
    }
  }
}
