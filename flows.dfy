/** Flow rules and the RESTCONF URLs under which the backend creates them on the
    OpenDaylight controller (`create_flow`, `create_flows` in net-man-backend/src/backend.py). */
module Flows {
  import opened Base
  import opened Text

  const UrlPrefix: string := "http://localhost:8181/restconf/config/opendaylight-inventory:nodes/node/"

  /** Every flow `create_flows` pushes has flow id '0'. */
  const NewFlowId: string := "0"

  /** One entry of the request's `nodesInfo`, with its numbers already passed through `str()`. */
  datatype SwitchInfo = SwitchInfo(switchId: string, portNumber: string, tableId: string)

  /** The flow document sent in the PUT body (lines 331-340). */
  datatype FlowRule = FlowRule(
    id: string,
    srcMac: string,
    destMac: string,
    etherType: string,
    outputPort: string,
    actionOrder: string,
    instructionOrder: string,
    installHw: string,
    tableId: string)

  datatype PutRequest = PutRequest(url: string, rule: FlowRule)

  /** Forward IPv4 frames from `srcMac` to `destMac` out of `port`. */
  function RuleFor(flowId: string, srcMac: string, destMac: string, port: string, tableId: string): (rule: FlowRule)
    ensures rule.id == flowId && rule.tableId == tableId
    ensures rule.srcMac == srcMac && rule.destMac == destMac && rule.etherType == "0x800"
    ensures rule.outputPort == port && rule.installHw == "false"
  {
    FlowRule(flowId, srcMac, destMac, "0x800", port, "1", "1", "false", tableId)
  }

  /** The URL of flow `flowId` in table `tableId` of switch `switchId` (lines 346-347). */
  function FlowUrl(switchId: string, tableId: string, flowId: string): (url: string)
    ensures UrlPrefix <= url
  {
    UrlPrefix + switchId + "/table/" + tableId + "/flow/" + flowId
  }

  /** `s` without the ending `suffix`, when it ends so. */
  function StripSuffix(s: string, suffix: string): (r: Option<string>)
    ensures r.Some? <==> |suffix| <= |s| && s[|s| - |suffix|..] == suffix
    ensures r.Some? ==> s == r.value + suffix
  {
    if |suffix| <= |s| && s[|s| - |suffix|..] == suffix then Some(s[..|s| - |suffix|]) else None
  }

  /** Reads switch, table and flow id back out of a flow URL, splitting at the last two '/'. */
  function ParseFlowUrl(url: string): Option<(string, string, string)>
  {
    if !(UrlPrefix <= url) then None
    else
      match SplitLast(url[|UrlPrefix|..], '/')
      case None => None
      case Some((head, flowId)) =>
        match StripSuffix(head, "/flow")
        case None => None
        case Some(body) =>
          match SplitLast(body, '/')
          case None => None
          case Some((start, tableId)) =>
            match StripSuffix(start, "/table")
            case None => None
            case Some(switchId) => Some((switchId, tableId, flowId))
  }

  /** Parsing a composed URL gives back its three ids, when the table and flow ids hold no '/'. */
  lemma FlowUrlRoundTrip(switchId: string, tableId: string, flowId: string)
    requires '/' !in tableId && '/' !in flowId
    ensures ParseFlowUrl(FlowUrl(switchId, tableId, flowId)) == Some((switchId, tableId, flowId))
  {
    var url := FlowUrl(switchId, tableId, flowId);
    var start := switchId + "/table";
    var body := start + "/" + tableId;
    var head := body + "/flow";
    assert url[|UrlPrefix|..] == head + ['/'] + flowId;
    SplitLastOf(head, flowId, '/');
    assert head[|head| - 5..] == "/flow";
    assert StripSuffix(head, "/flow").value + "/flow" == body + "/flow";
    assert StripSuffix(head, "/flow") == Some(body);
    SplitLastOf(start, tableId, '/');
    assert start[|start| - 6..] == "/table";
    assert StripSuffix(start, "/table").value + "/table" == switchId + "/table";
    assert StripSuffix(start, "/table") == Some(switchId);
  }

  /** A flow URL is the prefix followed by the switch id, its "/table"
      suffix, the table id, its "/flow" suffix and the flow id, in that nesting. */
  lemma FlowUrlNesting(switchId: string, tableId: string, flowId: string)
    ensures FlowUrl(switchId, tableId, flowId) ==
      UrlPrefix + ((((switchId + "/table") + ['/'] + tableId) + "/flow") + ['/'] + flowId)
  {
  }

  /** Whatever parses is the URL of the ids it parses to. */
  lemma ParseFlowUrlSound(url: string)
    requires ParseFlowUrl(url).Some?
    ensures var ids := ParseFlowUrl(url).value;
      FlowUrl(ids.0, ids.1, ids.2) == url && '/' !in ids.1 && '/' !in ids.2
  {
    var rest := url[|UrlPrefix|..];
    var (head, flowId) := SplitLast(rest, '/').value;
    var body := StripSuffix(head, "/flow").value;
    var (start, tableId) := SplitLast(body, '/').value;
    var switchId := StripSuffix(start, "/table").value;
    assert ParseFlowUrl(url) == Some((switchId, tableId, flowId));
    assert rest == (((switchId + "/table") + ['/'] + tableId) + "/flow") + ['/'] + flowId;
    assert url == UrlPrefix + rest;
    FlowUrlNesting(switchId, tableId, flowId);
  }

  /** Two flow URLs with the same flow id are equal exactly when their switch
      and table ids are. */
  lemma FlowUrlInjective(s1: string, t1: string, s2: string, t2: string, flowId: string)
    requires '/' !in t1 && '/' !in t2 && '/' !in flowId
    ensures FlowUrl(s1, t1, flowId) == FlowUrl(s2, t2, flowId) <==> s1 == s2 && t1 == t2
  {
    FlowUrlRoundTrip(s1, t1, flowId);
    FlowUrlRoundTrip(s2, t2, flowId);
  }

  /** The URLs `create_flows` records, one per switch entry, in order. */
  function FlowUrls(nodes: seq<SwitchInfo>): seq<string>
  {
    seq(|nodes|, i requires 0 <= i < |nodes| => FlowUrl(nodes[i].switchId, nodes[i].tableId, NewFlowId))
  }

  /** The PUT requests `create_flows` sends, one per switch entry, in order. */
  function FlowRequests(srcMac: string, destMac: string, nodes: seq<SwitchInfo>): seq<PutRequest>
  {
    seq(|nodes|, i requires 0 <= i < |nodes| =>
      PutRequest(FlowUrl(nodes[i].switchId, nodes[i].tableId, NewFlowId),
                 RuleFor(NewFlowId, srcMac, destMac, nodes[i].portNumber, nodes[i].tableId)))
  }

  /** Each request goes to the URL recorded for the same entry, and forwards
      out of that entry's port in that entry's table. */
  lemma RequestsMatchUrls(srcMac: string, destMac: string, nodes: seq<SwitchInfo>)
    ensures |FlowRequests(srcMac, destMac, nodes)| == |FlowUrls(nodes)| == |nodes|
    ensures forall i :: 0 <= i < |nodes| ==>
      FlowRequests(srcMac, destMac, nodes)[i].url == FlowUrls(nodes)[i] &&
      FlowRequests(srcMac, destMac, nodes)[i].rule.outputPort == nodes[i].portNumber &&
      FlowRequests(srcMac, destMac, nodes)[i].rule.tableId == nodes[i].tableId
  {
  }

  /** Handling one more switch entry appends its URL and its request. */
  lemma FlowsOneMore(srcMac: string, destMac: string, nodes: seq<SwitchInfo>, i: nat)
    requires i < |nodes|
    ensures FlowUrls(nodes[..i + 1]) == FlowUrls(nodes[..i]) + [FlowUrl(nodes[i].switchId, nodes[i].tableId, NewFlowId)]
    ensures FlowRequests(srcMac, destMac, nodes[..i + 1]) == FlowRequests(srcMac, destMac, nodes[..i]) +
      [PutRequest(FlowUrl(nodes[i].switchId, nodes[i].tableId, NewFlowId),
                  RuleFor(NewFlowId, srcMac, destMac, nodes[i].portNumber, nodes[i].tableId))]
  {
    assert nodes[..i + 1][..i] == nodes[..i];
  }

  /** Two switch entries record the same URL only when they name the same switch
      and table, since every flow id is '0'. */
  lemma FlowUrlsDistinct(nodes: seq<SwitchInfo>, i: nat, j: nat)
    requires i < |nodes| && j < |nodes|
    requires '/' !in nodes[i].tableId && '/' !in nodes[j].tableId
    ensures FlowUrls(nodes)[i] == FlowUrls(nodes)[j] <==>
      nodes[i].switchId == nodes[j].switchId && nodes[i].tableId == nodes[j].tableId
  {
    var urls := FlowUrls(nodes);
    var a, b := nodes[i], nodes[j];
    assert urls[i] == FlowUrl(a.switchId, a.tableId, NewFlowId);
    assert urls[j] == FlowUrl(b.switchId, b.tableId, NewFlowId);
    FlowUrlInjective(a.switchId, a.tableId, b.switchId, b.tableId, NewFlowId);
  }
}
