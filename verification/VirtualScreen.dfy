/** Look-ups in the virtual screen definition. */
module VirtualScreen {
  import opened Basics

  datatype UclNode = UclNode(ip: string, port: int, hostName: string)

  datatype Host = Host(nodeId: int, hostName: string, ip: string)
  /** A framework node: the port of its ucl-node and the listen ports of its compositors. */
  datatype Framework = Framework(nodeId: int, port: int, compositors: seq<int>)
  datatype VScrnDef = VScrnDef(nodes: seq<Host>, framework: seq<Framework>)

  // ---- specification ----------------------------------------------------------------

  /** The first framework entry of a node decides its port. */
  function PortOf(framework: seq<Framework>, nodeId: int): Option<int> {
    if framework == [] then None
    else if framework[0].nodeId == nodeId then Some(framework[0].port)
    else PortOf(framework[1..], nodeId)
  }

  function FrameworkNodes(nodes: seq<Host>, framework: seq<Framework>): seq<UclNode> {
    if nodes == [] then []
    else
      (match PortOf(framework, nodes[0].nodeId)
       case None => []
       case Some(port) => [UclNode(nodes[0].ip, port, nodes[0].hostName)])
      + FrameworkNodes(nodes[1..], framework)
  }

  /** What an alias of this host stands for; a host that is no framework node gets port 0. */
  function AliasOf(host: Host, framework: seq<Framework>): UclNode {
    UclNode(host.ip, match PortOf(framework, host.nodeId) case None => 0 case Some(port) => port, "")
  }

  /** The last host of that name decides. */
  function LastHost(nodes: seq<Host>, name: string): Option<Host> {
    if nodes == [] then None
    else if nodes[|nodes| - 1].hostName == name then Some(nodes[|nodes| - 1])
    else LastHost(nodes[..|nodes| - 1], name)
  }

  ghost predicate IsAliasMap(aip: map<string, UclNode>, nodes: seq<Host>, framework: seq<Framework>) {
    && (forall name :: name in aip <==> LastHost(nodes, name).Some?)
    && (forall name :: name in aip ==> aip[name] == AliasOf(LastHost(nodes, name).value, framework))
  }

  ghost predicate UniqueNames(nodes: seq<Host>) {
    forall i, j :: 0 <= i < j < |nodes| ==> nodes[i].hostName != nodes[j].hostName
  }

  ghost predicate OwnsPort(framework: seq<Framework>, port: int) {
    exists f :: f in framework && port in f.compositors
  }

  // ---- what the look-ups find -------------------------------------------------------

  /** Entry `k` is the first of this node. */
  predicate IsFirstEntry(framework: seq<Framework>, nodeId: int, k: int) {
    0 <= k < |framework| && framework[k].nodeId == nodeId && forall l :: 0 <= l < k ==> framework[l].nodeId != nodeId
  }

  /** Host `k` is the last of this name. */
  predicate IsLastHost(nodes: seq<Host>, name: string, k: int) {
    0 <= k < |nodes| && nodes[k].hostName == name && forall l :: k < l < |nodes| ==> nodes[l].hostName != name
  }

  lemma {:induction false} PortOfIsFirst(framework: seq<Framework>, nodeId: int)
    ensures PortOf(framework, nodeId).None? <==> forall f :: f in framework ==> f.nodeId != nodeId
    ensures forall k :: IsFirstEntry(framework, nodeId, k) ==> PortOf(framework, nodeId) == Some(framework[k].port)
  {
    if framework != [] {
      PortOfIsFirst(framework[1..], nodeId);
      assert forall f :: f in framework <==> f == framework[0] || f in framework[1..];
      forall k | IsFirstEntry(framework, nodeId, k) ensures PortOf(framework, nodeId) == Some(framework[k].port) {
        if k > 0 { assert IsFirstEntry(framework[1..], nodeId, k - 1); }
      }
    }
  }

  lemma {:induction false} LastHostIsLast(nodes: seq<Host>, name: string)
    ensures LastHost(nodes, name).None? <==> forall h :: h in nodes ==> h.hostName != name
    ensures forall k :: IsLastHost(nodes, name, k) ==> LastHost(nodes, name) == Some(nodes[k])
    decreases |nodes|
  {
    if nodes != [] {
      var front := nodes[..|nodes| - 1];
      LastHostIsLast(front, name);
      assert nodes == front + [nodes[|nodes| - 1]];
      forall k | IsLastHost(nodes, name, k) ensures LastHost(nodes, name) == Some(nodes[k]) {
        if k < |nodes| - 1 { assert IsLastHost(front, name, k); }
      }
    }
  }

  /** What a name stands for, entry by entry: the address of the last host of that name, with the
      port of that host's first framework entry, or 0 when it has none. */
  lemma AliasMapMeans(aip: map<string, UclNode>, nodes: seq<Host>, framework: seq<Framework>, name: string)
    requires IsAliasMap(aip, nodes, framework)
    ensures name in aip <==> exists h :: h in nodes && h.hostName == name
    ensures forall k, j :: IsLastHost(nodes, name, k) && IsFirstEntry(framework, nodes[k].nodeId, j) ==>
              name in aip && aip[name] == UclNode(nodes[k].ip, framework[j].port, "")
    ensures forall k :: IsLastHost(nodes, name, k) && (forall f :: f in framework ==> f.nodeId != nodes[k].nodeId) ==>
              name in aip && aip[name] == UclNode(nodes[k].ip, 0, "")
  {
    LastHostIsLast(nodes, name);
    forall k | IsLastHost(nodes, name, k)
      ensures forall j :: IsFirstEntry(framework, nodes[k].nodeId, j) ==> PortOf(framework, nodes[k].nodeId) == Some(framework[j].port)
      ensures PortOf(framework, nodes[k].nodeId).None? <==> forall f :: f in framework ==> f.nodeId != nodes[k].nodeId
    {
      PortOfIsFirst(framework, nodes[k].nodeId);
    }
  }

  /** Framework nodes are listed host by host, so in the order of the hosts and each as often. */
  lemma {:induction false} FrameworkNodesConcat(a: seq<Host>, b: seq<Host>, framework: seq<Framework>)
    ensures FrameworkNodes(a + b, framework) == FrameworkNodes(a, framework) + FrameworkNodes(b, framework)
  {
    if a == [] {
      assert a + b == b;
    } else {
      assert (a + b)[1..] == a[1..] + b;
      FrameworkNodesConcat(a[1..], b, framework);
    }
  }

  /** A host is listed exactly when it has a framework entry, with the port of the first one. */
  lemma HostIsListed(h: Host, framework: seq<Framework>)
    ensures (forall f :: f in framework ==> f.nodeId != h.nodeId) <==> FrameworkNodes([h], framework) == []
    ensures forall k :: IsFirstEntry(framework, h.nodeId, k) ==>
              FrameworkNodes([h], framework) == [UclNode(h.ip, framework[k].port, h.hostName)]
  {
    PortOfIsFirst(framework, h.nodeId);
    assert [h][1..] == [] && FrameworkNodes([], framework) == [];
  }

  // ---- the source's loops -----------------------------------------------------------

  lemma PortOfDrop(framework: seq<Framework>, nodeId: int, i: nat)
    requires i < |framework| && framework[i].nodeId != nodeId
    ensures PortOf(framework[i..], nodeId) == PortOf(framework[i + 1..], nodeId)
  {
    assert framework[i..][1..] == framework[i + 1..];
  }

  method GetNodePort(nodeId: int, def: VScrnDef) returns (r: Option<int>)
    ensures r == PortOf(def.framework, nodeId)
    ensures r.None? <==> forall f :: f in def.framework ==> f.nodeId != nodeId
    ensures forall k :: IsFirstEntry(def.framework, nodeId, k) ==> r == Some(def.framework[k].port)
  {
    PortOfIsFirst(def.framework, nodeId);
    var i := 0;
    while i < |def.framework|
      invariant i <= |def.framework|
      invariant PortOf(def.framework[i..], nodeId) == PortOf(def.framework, nodeId)
    {
      if nodeId == def.framework[i].nodeId {
        return Some(def.framework[i].port);
      }
      PortOfDrop(def.framework, nodeId, i);
      i := i + 1;
    }
    return None;
  }

  method IsRecvCompositor(listenPort: int, def: VScrnDef) returns (r: bool)
    ensures r <==> OwnsPort(def.framework, listenPort)
  {
    var i := 0;
    while i < |def.framework|
      invariant i <= |def.framework|
      invariant forall f :: f in def.framework[..i] ==> listenPort !in f.compositors
    {
      var j := 0;
      while j < |def.framework[i].compositors|
        invariant j <= |def.framework[i].compositors|
        invariant listenPort !in def.framework[i].compositors[..j]
      {
        if listenPort == def.framework[i].compositors[j] {
          assert def.framework[i] in def.framework;
          return true;
        }
        j := j + 1;
      }
      i := i + 1;
    }
    return false;
  }

  lemma FrameworkNodesAppend(nodes: seq<Host>, framework: seq<Framework>, i: nat)
    requires i < |nodes|
    ensures FrameworkNodes(nodes[..i + 1], framework) ==
            FrameworkNodes(nodes[..i], framework) + FrameworkNodes([nodes[i]], framework)
  {
    assert nodes[..i + 1] == nodes[..i] + [nodes[i]];
    FrameworkNodesConcat(nodes[..i], [nodes[i]], framework);
  }

  method GetFrameworkNode(def: VScrnDef) returns (dNodes: seq<UclNode>)
    ensures dNodes == FrameworkNodes(def.nodes, def.framework)
  {
    dNodes := [];
    var i := 0;
    while i < |def.nodes|
      invariant i <= |def.nodes|
      invariant dNodes == FrameworkNodes(def.nodes[..i], def.framework)
    {
      var r1 := def.nodes[i];
      ghost var before := dNodes;
      assert FrameworkNodes([r1], def.framework) ==
        match PortOf(def.framework, r1.nodeId) case None => [] case Some(port) => [UclNode(r1.ip, port, r1.hostName)];
      var j := 0;
      while j < |def.framework|
        invariant j <= |def.framework| && dNodes == before
        invariant PortOf(def.framework[j..], r1.nodeId) == PortOf(def.framework, r1.nodeId)
      {
        if r1.nodeId == def.framework[j].nodeId {
          dNodes := dNodes + [UclNode(r1.ip, def.framework[j].port, r1.hostName)];
          break;
        }
        PortOfDrop(def.framework, r1.nodeId, j);
        j := j + 1;
      }
      FrameworkNodesAppend(def.nodes, def.framework, i);
      i := i + 1;
    }
    assert def.nodes[..i] == def.nodes;
  }

  method ReadAliasIp(def: VScrnDef) returns (aip: map<string, UclNode>)
    ensures IsAliasMap(aip, def.nodes, def.framework)
  {
    aip := map[];
    var i := 0;
    while i < |def.nodes|
      invariant i <= |def.nodes|
      invariant IsAliasMap(aip, def.nodes[..i], def.framework)
    {
      var r1 := def.nodes[i];
      var uclNode := UclNode(r1.ip, 0, "");
      var j := 0;
      while j < |def.framework|
        invariant j <= |def.framework| && uclNode == UclNode(r1.ip, 0, "")
        invariant PortOf(def.framework[j..], r1.nodeId) == PortOf(def.framework, r1.nodeId)
      {
        if r1.nodeId == def.framework[j].nodeId {
          uclNode := uclNode.(port := def.framework[j].port);
          break;
        }
        PortOfDrop(def.framework, r1.nodeId, j);
        j := j + 1;
      }
      assert uclNode == AliasOf(r1, def.framework);
      aip := aip[r1.hostName := uclNode];
      assert def.nodes[..i + 1][..i] == def.nodes[..i];
      i := i + 1;
    }
    assert def.nodes[..i] == def.nodes;
  }

  predicate IsMe(h: Host, ipAddrs: seq<string>, hostName: string) { h.hostName == hostName && h.ip in ipAddrs }

  predicate FirstMe(nodes: seq<Host>, k: int, h: Host, ipAddrs: seq<string>, hostName: string) {
    && 0 <= k < |nodes| && nodes[k] == h && IsMe(h, ipAddrs, hostName)
    && forall l :: 0 <= l < k ==> !IsMe(nodes[l], ipAddrs, hostName)
  }

  predicate ListensAt(h: Host, framework: seq<Framework>, ip: string, port: int) {
    h.ip == ip && PortOf(framework, h.nodeId) == Some(port)
  }

  /** GetNodeIdAndIpAddr: where a node finds itself, given its name and its addresses. */
  method GetNodeIdAndIpAddr(ipAddrs: seq<string>, hostName: string, def: VScrnDef) returns (r: Option<Host>)
    ensures r.Some? ==> r.value.hostName == hostName && r.value.ip in ipAddrs
    ensures r.Some? ==> exists k :: FirstMe(def.nodes, k, r.value, ipAddrs, hostName)
    ensures r.None? ==> forall h :: h in def.nodes ==> h.hostName != hostName || h.ip !in ipAddrs
  {
    var i := 0;
    while i < |def.nodes|
      invariant i <= |def.nodes|
      invariant forall k :: 0 <= k < i ==> !IsMe(def.nodes[k], ipAddrs, hostName)
    {
      if hostName == def.nodes[i].hostName {
        var j := 0;
        while j < |ipAddrs|
          invariant j <= |ipAddrs| && def.nodes[i].ip !in ipAddrs[..j]
        {
          if ipAddrs[j] == def.nodes[i].ip {
            assert FirstMe(def.nodes, i, def.nodes[i], ipAddrs, hostName);
            return Some(def.nodes[i]);
          }
          j := j + 1;
        }
      }
      i := i + 1;
    }
    return None;
  }

  /** GetNodeAddr: the address a node listens on. With unique host names it is the address
      the manager dials for the node's name. */
  method GetNodeAddr(ipAddrs: seq<string>, hostName: string, def: VScrnDef) returns (r: Option<(string, int)>)
    ensures r.Some? ==>
      exists h :: h in def.nodes && IsMe(h, ipAddrs, hostName) && ListensAt(h, def.framework, r.value.0, r.value.1)
    ensures r.Some? && UniqueNames(def.nodes) ==>
      LastHost(def.nodes, hostName).Some?
      && (var alias := AliasOf(LastHost(def.nodes, hostName).value, def.framework); r.value == (alias.ip, alias.port))
    ensures r.None? ==>
      forall h :: h in def.nodes && IsMe(h, ipAddrs, hostName) ==>
        exists g :: g in def.nodes && IsMe(g, ipAddrs, hostName) && PortOf(def.framework, g.nodeId).None?
  {
    var me := GetNodeIdAndIpAddr(ipAddrs, hostName, def);
    if me.None? { return None; }
    var port := GetNodePort(me.value.nodeId, def);
    assert me.value in def.nodes;
    if port.None? { return None; }
    if UniqueNames(def.nodes) { OnlyHost(def.nodes, me.value); }
    return Some((me.value.ip, port.value));
  }

  lemma OnlyHost(nodes: seq<Host>, h: Host)
    requires UniqueNames(nodes) && h in nodes
    ensures LastHost(nodes, h.hostName) == Some(h)
  {
    LastHostIsHost(nodes, h.hostName);
    var l := LastHost(nodes, h.hostName).value;
    var i :| 0 <= i < |nodes| && nodes[i] == h;
    var j :| 0 <= j < |nodes| && nodes[j] == l;
    assert i == j;
  }

  // ---- the two look-ups agree -------------------------------------------------------

  lemma {:induction false} LastHostIsHost(nodes: seq<Host>, name: string)
    ensures LastHost(nodes, name).Some? ==> LastHost(nodes, name).value in nodes && LastHost(nodes, name).value.hostName == name
    ensures LastHost(nodes, name).None? ==> forall h :: h in nodes ==> h.hostName != name
    decreases |nodes|
  {
    if nodes != [] {
      LastHostIsHost(nodes[..|nodes| - 1], name);
      assert nodes == nodes[..|nodes| - 1] + [nodes[|nodes| - 1]];
    }
  }

  lemma {:induction false} FrameworkNodeOrigin(nodes: seq<Host>, framework: seq<Framework>, n: UclNode)
    requires n in FrameworkNodes(nodes, framework)
    ensures exists h :: h in nodes && h.hostName == n.hostName && h.ip == n.ip && PortOf(framework, h.nodeId) == Some(n.port)
  {
    if n in FrameworkNodes(nodes[1..], framework) {
      FrameworkNodeOrigin(nodes[1..], framework, n);
    } else {
      assert nodes[0] in nodes && nodes[0].hostName == n.hostName;
    }
  }

  /** The alias of this framework node's name has its address. */
  predicate AgreesOn(def: VScrnDef, n: UclNode) {
    var h := LastHost(def.nodes, n.hostName);
    h.Some? && AliasOf(h.value, def.framework) == UclNode(n.ip, n.port, "")
  }

  ghost predicate NamesAgree(def: VScrnDef) {
    forall n :: n in FrameworkNodes(def.nodes, def.framework) ==> AgreesOn(def, n)
  }

  /** Unique host names agree. Others can, too: only the last host of a name matters. */
  lemma UniqueNamesAgree(def: VScrnDef)
    requires UniqueNames(def.nodes)
    ensures NamesAgree(def)
  {
    forall n | n in FrameworkNodes(def.nodes, def.framework) ensures AgreesOn(def, n) {
      FrameworkNodeOrigin(def.nodes, def.framework, n);
      var h :| h in def.nodes && h.hostName == n.hostName && h.ip == n.ip && PortOf(def.framework, h.nodeId) == Some(n.port);
      OnlyHost(def.nodes, h);
    }
  }

  /** Two hosts of one name can agree: here the last is the framework node. */
  lemma AgreeingDuplicates()
    ensures var def := VScrnDef([Host(0, "h", "10.0.0.2"), Host(1, "h", "10.0.0.1")], [Framework(1, 7654, [])]);
      NamesAgree(def) && !UniqueNames(def.nodes)
  {
    var nodes := [Host(0, "h", "10.0.0.2"), Host(1, "h", "10.0.0.1")];
    assert nodes[1].hostName == nodes[0].hostName;
    assert nodes[1..] == [nodes[1]] && nodes[1..][1..] == [];
  }

  /** Every host with a framework entry is a framework node. */
  lemma HostIsFrameworkNode(nodes: seq<Host>, framework: seq<Framework>, h: Host, port: int)
    requires h in nodes && PortOf(framework, h.nodeId) == Some(port)
    ensures UclNode(h.ip, port, h.hostName) in FrameworkNodes(nodes, framework)
  {
    var i :| 0 <= i < |nodes| && nodes[i] == h;
    assert nodes == nodes[..i] + ([h] + nodes[i + 1..]);
    FrameworkNodesConcat(nodes[..i], [h] + nodes[i + 1..], framework);
    assert ([h] + nodes[i + 1..])[1..] == nodes[i + 1..];
  }

  lemma HostOf(def: VScrnDef, n: UclNode)
    requires n in FrameworkNodes(def.nodes, def.framework)
    ensures LastHost(def.nodes, n.hostName).Some?
  {
    FrameworkNodeOrigin(def.nodes, def.framework, n);
    LastHostIsHost(def.nodes, n.hostName);
  }

  lemma AliasMapExists(nodes: seq<Host>, framework: seq<Framework>) returns (aip: map<string, UclNode>)
    ensures IsAliasMap(aip, nodes, framework)
  {
    var names := set h | h in nodes :: h.hostName;
    forall name ensures name in names <==> LastHost(nodes, name).Some? {
      LastHostIsHost(nodes, name);
    }
    aip := map name | name in names :: AliasOf(LastHost(nodes, name).value, framework);
  }

  /** When names agree, and so with unique host names, the alias of a listed framework node has
      that node's address. */
  lemma AliasMatchesFramework(def: VScrnDef, aip: map<string, UclNode>, n: UclNode)
    requires NamesAgree(def) || UniqueNames(def.nodes)
    requires IsAliasMap(aip, def.nodes, def.framework)
    requires n in FrameworkNodes(def.nodes, def.framework)
    ensures n.hostName in aip && aip[n.hostName] == UclNode(n.ip, n.port, "")
  {
    if UniqueNames(def.nodes) { UniqueNamesAgree(def); }
    assert AgreesOn(def, n);
  }
}
