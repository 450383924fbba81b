/** Turning the two ends of the stored shortest path into emulator host names
    (`ping_between_hosts_and_get_avrg_time`, net-man-backend/src/backend.py). */
module Locator {
  import opened Base
  import opened Text
  import opened Numerals

  /** The topology recorded by `create_network`: gtopo_type, gswitch_num, gnodes_per_switch. */
  datatype Topology = Topology(topoType: string, switchNum: int, nodesPerSwitch: int)

  /** Python's `name[-2:]`: the last two characters, or the whole name when it is shorter. */
  function LastTwo(name: string): (u: string)
    ensures |u| == if |name| < 2 then |name| else 2
    ensures name == name[..|name| - |u|] + u
  {
    if |name| < 2 then name else name[|name| - 2..]
  }

  /** Python 2.7's `int("0x" + s, 16)`: one or more hex digits, then optional
      trailing whitespace; anything else raises ValueError. The number fits in
      as many hex places as the text has characters. */
  function HexInt(s: string): (r: Result<nat>)
    ensures r.Ok? ==> r.value < Pow16(|s|)
    ensures r.Err? ==> r.fault == InvalidHostId
  {
    var digits := TrimRight(s);
    if digits != [] && forall i :: 0 <= i < |digits| ==> IsHexDigit(digits[i]) then
      Pow16Monotone(|digits|, |s|);
      Ok(HexNumber(digits))
    else
      Err(InvalidHostId)
  }

  /** The host id of a node name (lines 392-394): `int("0x" + name[-2:], 16)`,
      written out for the at most two characters it reads. */
  function HostId(name: string): (r: Result<nat>)
    ensures r.Ok? ==> r.value < 256
    ensures r.Err? ==> r.fault == InvalidHostId
  {
    var u := LastTwo(name);
    if |u| == 2 && IsHexDigit(u[0]) && IsHexDigit(u[1]) then Ok(16 * HexValue(u[0]) + HexValue(u[1]))
    else if |u| >= 1 && IsHexDigit(u[0]) && (|u| == 1 || IsSpace(u[1])) then Ok(HexValue(u[0]))
    else Err(InvalidHostId)
  }

  /** Python's hex parse of one character. */
  lemma HexIntOneChar(c: char)
    ensures HexInt([c]) == if IsHexDigit(c) then Ok(HexValue(c)) else Err(InvalidHostId)
  {
    if IsSpace(c) {
      assert TrimRight([c]) == TrimRight([]);
    } else {
      assert TrimRight([c]) == [c];
      assert [c][..0] == [];
    }
  }

  /** Python's hex parse of two characters: trailing whitespace is dropped,
      otherwise both must be hex digits. */
  lemma HexIntTwoChars(a: char, b: char)
    ensures HexInt([a, b]) ==
      if IsSpace(b) then HexInt([a])
      else if IsHexDigit(a) && IsHexDigit(b) then Ok(16 * HexValue(a) + HexValue(b))
      else Err(InvalidHostId)
  {
    if IsSpace(b) {
      assert [a, b][..1] == [a];
      assert TrimRight([a, b]) == TrimRight([a]);
    } else {
      assert TrimRight([a, b]) == [a, b];
      assert [a, b][..1] == [a];
      if IsHexDigit(a) && IsHexDigit(b) {
        HexIntOneChar(a);
        assert HexNumber([a, b]) == 16 * HexNumber([a]) + HexValue(b);
      } else {
        assert !IsHexDigit([a, b][0]) || !IsHexDigit([a, b][1]);
      }
    }
  }

  /** No whitespace character is a hex digit. */
  lemma SpaceNotHex(c: char)
    ensures IsSpace(c) ==> !IsHexDigit(c)
  {
  }

  /** The host id is exactly Python's hex parse of the name's last two characters. */
  lemma HostIdIsHexInt(name: string)
    ensures HostId(name) == HexInt(LastTwo(name))
  {
    var u := LastTwo(name);
    if |u| == 2 {
      assert u == [u[0], u[1]];
      SpaceNotHex(u[1]);
      HexIntTwoChars(u[0], u[1]);
      HexIntOneChar(u[0]);
    } else if |u| == 1 {
      assert u == [u[0]];
      HexIntOneChar(u[0]);
    } else {
      assert TrimRight(u) == [];
    }
  }

  /** A name that ends in the two hex digits of a byte (as a MAC address does)
      is read back as that byte. */
  lemma HostIdOfByte(prefix: string, n: nat)
    requires n < 256
    ensures HostId(prefix + [HexChar(n / 16), HexChar(n % 16)]) == Ok(n)
  {
    var name := prefix + [HexChar(n / 16), HexChar(n % 16)];
    assert LastTwo(name) == [HexChar(n / 16), HexChar(n % 16)];
  }

  /** The emulator name of host `id` in a tree topology: `'h' + str(id)`. */
  function TreeHostName(id: nat): (name: string)
    ensures |name| >= 2 && name[0] == 'h' && name[1..] == Decimal(id)
  {
    "h" + Decimal(id)
  }

  /** A tree host name reads back as its host id. */
  lemma TreeHostNameReadsBack(id: nat)
    ensures forall i :: 1 <= i < |TreeHostName(id)| ==> IsDigit(TreeHostName(id)[i])
    ensures DecimalValue(TreeHostName(id)[1..]) == id
  {
    DecimalRoundTrip(id);
  }

  /** Different host ids give different tree host names. */
  lemma TreeHostNameInjective(a: nat, b: nat)
    requires TreeHostName(a) == TreeHostName(b)
    ensures a == b
  {
    TreeHostNameReadsBack(a);
    TreeHostNameReadsBack(b);
  }

  /** `x`, except that a computed 0 becomes 1 (lines 410-413 and 418-421). */
  function OneIfZero(x: int): (r: int)
    ensures x == 0 ==> r == 1
    ensures x != 0 ==> r == x
  {
    if x == 0 then 1 else x
  }

  /** The (switch, host) suffixes of host `id` in a linear topology, with the
      expressions parsed as Python parses them: `id - (1 // switchNum)` and
      `id - (1 % nodesPerSwitch)`, then a 0 coerced to 1. */
  function LinearSuffixes(id: nat, switchNum: int, nodesPerSwitch: int): (r: Result<(int, int)>)
    ensures r.Err? <==> switchNum == 0 || nodesPerSwitch == 0
    ensures r.Err? ==> r.fault == DivisionByZero
    ensures r.Ok? ==> r.value.0 != 0 && r.value.1 != 0
  {
    if switchNum == 0 || nodesPerSwitch == 0 then Err(DivisionByZero)
    else Ok((OneIfZero(id - FloorDiv(1, switchNum)), OneIfZero(id - FloorMod(1, nodesPerSwitch))))
  }

  /** The suffixes case by case. With two or more switches and two or more hosts
      per switch the switch suffix is the id itself and the host suffix is id - 1,
      each with a 0 coerced to 1 (so id 0 gets switch suffix 1 and id 1 gets host
      suffix 1); neither is a quotient or remainder of (id - 1). */
  lemma LinearSuffixValues(id: nat, switchNum: int, nodesPerSwitch: int)
    requires switchNum != 0 && nodesPerSwitch != 0
    ensures LinearSuffixes(id, switchNum, nodesPerSwitch).Ok?
    ensures LinearSuffixes(id, switchNum, nodesPerSwitch).value.0 ==
      if switchNum == 1 then (if id == 1 then 1 else id - 1)
      else if switchNum > 1 then (if id == 0 then 1 else id)
      else id + 1
    ensures LinearSuffixes(id, switchNum, nodesPerSwitch).value.1 ==
      if nodesPerSwitch == 1 || nodesPerSwitch == -1 then (if id == 0 then 1 else id)
      else if nodesPerSwitch > 1 then (if id == 1 then 1 else id - 1)
      else id - 1 - nodesPerSwitch
  {
    OneDividedBy(switchNum);
    OneDividedBy(nodesPerSwitch);
  }

  /** Python's `1 // b` and `1 % b` for every nonzero divisor. */
  lemma OneDividedBy(b: int)
    requires b != 0
    ensures FloorDiv(1, b) == if b == 1 then 1 else if b > 1 then 0 else -1
    ensures FloorMod(1, b) == if b == 1 || b == -1 then 0 else if b > 1 then 1 else 1 + b
  {
    if b > 1 {
      assert 1 / b == 0;
    } else if b < -1 {
      assert (-1) / (-b) == -1;
    }
  }

  /** For any host id of 1 or more, neither suffix is ever 0 or negative. */
  lemma LinearSuffixesPositive(id: nat, switchNum: int, nodesPerSwitch: int)
    requires id >= 1 && switchNum != 0 && nodesPerSwitch != 0
    ensures LinearSuffixes(id, switchNum, nodesPerSwitch).Ok?
    ensures LinearSuffixes(id, switchNum, nodesPerSwitch).value.0 >= 1
    ensures LinearSuffixes(id, switchNum, nodesPerSwitch).value.1 >= 1
  {
    LinearSuffixValues(id, switchNum, nodesPerSwitch);
  }

  /** The emulator name of a host in a linear topology: `'h' + str(host) + 's' + str(switch)`. */
  function LinearHostName(host: int, switch: int): (name: string)
    ensures |name| >= 4 && name[0] == 'h'
  {
    "h" + IntString(host) + "s" + IntString(switch)
  }

  /** A printed integer holds no 's'. */
  lemma NoSInIntString(i: int)
    ensures 's' !in IntString(i)
  {
    IntStringShape(i);
    var mag := if i < 0 then -i else i;
    assert forall k :: 0 <= k < |Decimal(mag)| ==> Decimal(mag)[k] != 's';
    if i < 0 {
      assert forall k :: 1 <= k < |IntString(i)| ==> IntString(i)[k] == Decimal(mag)[k - 1];
    }
  }

  /** Different (host, switch) suffix pairs give different linear host names:
      the first 's' ends the host part. */
  lemma LinearHostNameInjective(h1: int, s1: int, h2: int, s2: int)
    requires LinearHostName(h1, s1) == LinearHostName(h2, s2)
    ensures h1 == h2 && s1 == s2
  {
    var a1, b1, a2, b2 := IntString(h1), IntString(s1), IntString(h2), IntString(s2);
    NoSInIntString(h1);
    NoSInIntString(s1);
    NoSInIntString(h2);
    NoSInIntString(s2);
    var n1 := "h" + a1 + "s" + b1;
    var n2 := "h" + a2 + "s" + b2;
    assert n1 == n2;
    assert n1[1 + |a1|] == 's' && n2[1 + |a2|] == 's';
    assert |a1| == |a2|;
    assert a1 == n1[1..1 + |a1|] == n2[1..1 + |a2|] == a2;
    assert b1 == n1[2 + |a1|..] == n2[2 + |a2|..] == b2;
    IntStringInjective(h1, h2);
    IntStringInjective(s1, s2);
  }

  /** Host ids of the first and last node of the path (lines 388-394); the
      source's id is converted first, so its error wins. */
  function HostIds(path: seq<string>): (r: Result<(nat, nat)>)
    ensures r.Ok? <==> path != [] && HostId(path[0]).Ok? && HostId(path[|path| - 1]).Ok?
    ensures r.Ok? ==> r.value == (HostId(path[0]).value, HostId(path[|path| - 1]).value)
    ensures path == [] ==> r == Err(EmptyPath)
  {
    if path == [] then Err(EmptyPath)
    else
      var src := HostId(path[0]);
      var dest := HostId(path[|path| - 1]);
      if src.Err? then Err(src.fault)
      else if dest.Err? then Err(dest.fault)
      else Ok((src.value, dest.value))
  }

  predicate IsTree(topo: Topology)
  {
    topo.topoType == "tree"
  }

  /** The emulator names of the probe's source and destination hosts, with the
      destination in a linear topology named from `host_dest_suffix` (the name
      the source evidently meant at line 425). `up` says whether global_net is set. */
  function Endpoints(up: bool, topo: Option<Topology>, path: seq<string>): (r: Result<(string, string)>)
    ensures r.Ok? <==>
      up && topo.Some? && HostIds(path).Ok? &&
      (IsTree(topo.value) || (topo.value.switchNum != 0 && topo.value.nodesPerSwitch != 0))
    ensures HostIds(path).Err? ==> r == Err(HostIds(path).fault)
    ensures up && topo.Some? && IsTree(topo.value) && HostIds(path).Ok? ==>
      r == Ok((TreeHostName(HostIds(path).value.0), TreeHostName(HostIds(path).value.1)))
  {
    match HostIds(path)
    case Err(f) => Err(f)
    case Ok((src, dest)) =>
      match topo
      case None => Err(NoTopology)
      case Some(t) =>
        if IsTree(t) then
          if up then Ok((TreeHostName(src), TreeHostName(dest))) else Err(NoNetwork)
        else
          match (LinearSuffixes(src, t.switchNum, t.nodesPerSwitch), LinearSuffixes(dest, t.switchNum, t.nodesPerSwitch))
          case (Err(f), _) => Err(f)
          case (_, Err(f)) => Err(f)
          case (Ok((srcSwitch, srcHost)), Ok((destSwitch, destHost))) =>
            if up then Ok((LinearHostName(srcHost, srcSwitch), LinearHostName(destHost, destSwitch))) else Err(NoNetwork)
  }

  /** Lines 386-425 as written: in a linear topology the destination lookup reads
      `h_dest_suffix`, a local bound only in the tree branch, so every linear probe
      that gets that far raises UnboundLocalError. */
  function EndpointsAsWritten(up: bool, topo: Option<Topology>, path: seq<string>): (r: Result<(string, string)>)
    ensures r.Ok? <==> up && topo.Some? && IsTree(topo.value) && HostIds(path).Ok?
    ensures r.Ok? ==> r.value == (TreeHostName(HostIds(path).value.0), TreeHostName(HostIds(path).value.1))
    ensures HostIds(path).Err? ==> r == Err(HostIds(path).fault)
  {
    match Endpoints(up, topo, path)
    case Err(f) => Err(f)
    case Ok(names) => if IsTree(topo.value) then Ok(names) else Err(UnboundName)
  }

  /** As written, no linear topology ever yields a probe pair. */
  lemma LinearProbeNeverLocated(up: bool, topo: Option<Topology>, path: seq<string>)
    requires topo.Some? && !IsTree(topo.value)
    ensures EndpointsAsWritten(up, topo, path).Err?
  {
  }

  /** A concrete input: a running 2-switch, 2-hosts-per-switch linear network and
      a path between the hosts whose MAC addresses end in 01 and 02. */
  lemma LinearProbeCounterexample()
    ensures var topo := Some(Topology("linear", 2, 2));
      var path := ["host:00:00:00:00:00:01", "host:00:00:00:00:00:02"];
      EndpointsAsWritten(true, topo, path) == Err(UnboundName) &&
      Endpoints(true, topo, path) == Ok((LinearHostName(1, 1), LinearHostName(1, 2)))
  {
    var path := ["host:00:00:00:00:00:01", "host:00:00:00:00:00:02"];
    HostIdOfByte("host:00:00:00:00:00:", 1);
    HostIdOfByte("host:00:00:00:00:00:", 2);
    assert path[0] == "host:00:00:00:00:00:" + [HexChar(1 / 16), HexChar(1 % 16)];
    assert path[1] == "host:00:00:00:00:00:" + [HexChar(2 / 16), HexChar(2 % 16)];
    LinearSuffixValues(1, 2, 2);
    LinearSuffixValues(2, 2, 2);
  }

  /** With the destination named from its own suffixes, the destination of a
      path is located exactly as the source of a one-node path holding it would be. */
  lemma {:induction false} DestinationLocatedLikeSource(up: bool, topo: Option<Topology>, path: seq<string>)
    requires Endpoints(up, topo, path).Ok?
    ensures Endpoints(up, topo, [path[|path| - 1]]).Ok?
    ensures Endpoints(up, topo, path).value.1 == Endpoints(up, topo, [path[|path| - 1]]).value.0
  {
    var last := [path[|path| - 1]];
    var ids := HostIds(path).value;
    assert HostIds(last) == Ok((ids.1, ids.1));
    var t := topo.value;
    if !IsTree(t) {
      var s := LinearSuffixes(ids.0, t.switchNum, t.nodesPerSwitch);
      var d := LinearSuffixes(ids.1, t.switchNum, t.nodesPerSwitch);
      assert s.Ok? && d.Ok?;
      assert Endpoints(up, topo, path).value.1 == LinearHostName(d.value.1, d.value.0);
      assert Endpoints(up, topo, last).value.0 == LinearHostName(d.value.1, d.value.0);
    }
  }

  /** In a running linear network with nonzero counts, every path whose two ends
      carry host ids is located, both ends by the same naming rule. */
  lemma LinearEndpointsLocated(topo: Topology, path: seq<string>)
    requires !IsTree(topo) && topo.switchNum != 0 && topo.nodesPerSwitch != 0
    requires path != [] && HostId(path[0]).Ok? && HostId(path[|path| - 1]).Ok?
    ensures Endpoints(true, Some(topo), path).Ok?
    ensures var s := LinearSuffixes(HostId(path[0]).value, topo.switchNum, topo.nodesPerSwitch).value;
      var d := LinearSuffixes(HostId(path[|path| - 1]).value, topo.switchNum, topo.nodesPerSwitch).value;
      Endpoints(true, Some(topo), path).value == (LinearHostName(s.1, s.0), LinearHostName(d.1, d.0))
  {
  }
}
