/** What reaches the nodes when a command is dispatched, and when an app listed as executable can be. */
module CommandTheorems {
  import opened Basics
  import opened VirtualScreen
  import opened CommandSplit

  // ---- filters keep order and multiplicity ------------------------------------------

  lemma {:induction false} ConnectableSubsequence(rs: seq<Receiver>, cNodes: seq<UclNode>)
    ensures Subsequence(Connectable(rs, cNodes), rs)
  {
    if rs != [] {
      ConnectableSubsequence(rs[1..], cNodes);
      var c := Connectable(rs[1..], cNodes);
      assert ([rs[0]] + c)[1..] == c && [] + c == c;
    }
  }

  lemma {:induction false} ConnectableFilters(rs: seq<Receiver>, cNodes: seq<UclNode>, r: Receiver)
    ensures multiset(Connectable(rs, cNodes))[r] == if Reaches(r, cNodes) then multiset(rs)[r] else 0
  {
    if rs != [] {
      ConnectableFilters(rs[1..], cNodes, r);
      MultisetCons(rs);
      var c := Connectable(rs[1..], cNodes);
      if Reaches(rs[0], cNodes) {
        assert Connectable(rs, cNodes) == [rs[0]] + c;
        assert multiset([rs[0]] + c) == multiset{rs[0]} + multiset(c);
      } else {
        assert [] + c == c;
      }
    }
  }

  lemma {:induction false} LaunchedSubsequence(kind: Kind, rs: seq<Receiver>, def: VScrnDef)
    ensures Subsequence(Launched(kind, rs, def), rs)
  {
    if rs != [] {
      LaunchedSubsequence(kind, rs[1..], def);
      var l := Launched(kind, rs[1..], def);
      assert ([rs[0]] + l)[1..] == l && [] + l == l;
    }
  }

  lemma {:induction false} LaunchedFilters(kind: Kind, rs: seq<Receiver>, def: VScrnDef, r: Receiver)
    ensures multiset(Launched(kind, rs, def))[r] == if Launches(kind, r, def) then multiset(rs)[r] else 0
  {
    if rs != [] {
      LaunchedFilters(kind, rs[1..], def, r);
      MultisetCons(rs);
      var l := Launched(kind, rs[1..], def);
      if Launches(kind, rs[0], def) {
        assert multiset([rs[0]] + l) == multiset{rs[0]} + multiset(l);
      } else {
        assert [] + l == l;
      }
    }
  }

  lemma {:induction false} ReceiverCommandsAt(doc: Doc, rs: seq<Receiver>)
    ensures |ReceiverCommands(doc, rs)| == |rs|
    ensures forall i :: 0 <= i < |rs| ==> ReceiverCommands(doc, rs)[i] == ReceiverCommand(doc, rs[i])
  {
    if rs != [] { ReceiverCommandsAt(doc, rs[1..]); }
  }

  /** getConnectableNode keeps the order, and each node that answers as often as it occurs. */
  lemma {:induction false} AnsweringFilters(dNodes: seq<UclNode>, reach: set<(string, int)>, n: UclNode)
    ensures Subsequence(Answering(dNodes, reach), dNodes)
    ensures multiset(Answering(dNodes, reach))[n] == if (n.ip, n.port) in reach then multiset(dNodes)[n] else 0
  {
    if dNodes != [] {
      AnsweringFilters(dNodes[1..], reach, n);
      MultisetCons(dNodes);
      var a := Answering(dNodes[1..], reach);
      if (dNodes[0].ip, dNodes[0].port) in reach {
        assert Answering(dNodes, reach) == [dNodes[0]] + a && ([dNodes[0]] + a)[1..] == a;
        assert multiset([dNodes[0]] + a) == multiset{dNodes[0]} + multiset(a);
      } else {
        assert [] + a == a;
      }
    }
  }

  // ---- the split --------------------------------------------------------------------

  function One(b: bool): nat { if b then 1 else 0 }

  /** The receivers that get a command of their own. */
  ghost function OwnCommands(doc: Doc, cNodes: seq<UclNode>, def: VScrnDef): seq<Receiver> {
    if doc.receivers.Some? then Launched(doc.kind, Connectable(doc.receivers.value, cNodes), def) else []
  }

  function ConnectableOf(doc: Doc, cNodes: seq<UclNode>): Option<seq<Receiver>> {
    if doc.receivers.Some? then Some(Connectable(doc.receivers.value, cNodes)) else None
  }

  lemma SplitShape(doc: Doc, cNodes: seq<UclNode>, def: VScrnDef)
    requires WellFormed(doc) && Reduced(doc, cNodes).Some?
    ensures var red, own := Reduced(doc, cNodes).value, OwnCommands(doc, cNodes, def);
      && red == doc.(receivers := ConnectableOf(doc, cNodes))
      && Commands(red, def) == SenderCommand(red) + ReceiverCommands(red, own) + LocalCommand(red)
  {
  }

  /** One command for the sender, carrying every connectable receiver in the original order, one
      per connectable receiver to be launched, and one for the local program. */
  ghost predicate HasParts(doc: Doc, cNodes: seq<UclNode>, def: VScrnDef, cmds: seq<Doc>) {
    var own, k := OwnCommands(doc, cNodes, def), One(doc.sender.Some?);
    && |cmds| == k + |own| + One(doc.local.Some?)
    && (doc.sender.Some? ==> cmds[0] == Doc(doc.kind, doc.appName, doc.sender, ConnectableOf(doc, cNodes), None))
    && (forall i :: 0 <= i < |own| ==> cmds[k + i] == Doc(doc.kind, doc.appName, None, Some([own[i]]), None))
    && (doc.local.Some? ==> cmds == [Doc(doc.kind, doc.appName, None, None, doc.local)])
  }

  /** Each goes to the node of the part it launches, which is connectable. */
  ghost predicate GoesToItsNode(doc: Doc, cNodes: seq<UclNode>, def: VScrnDef, cmds: seq<Doc>)
    requires HasParts(doc, cNodes, def, cmds)
  {
    var own, k := OwnCommands(doc, cNodes, def), One(doc.sender.Some?);
    && (doc.sender.Some? ==> Addressee(cmds[0]) == Some(doc.sender.value.launcher))
    && (forall i :: 0 <= i < |own| ==> Addressee(cmds[k + i]) == Some(own[i].launcher))
    && (doc.local.Some? ==> Addressee(cmds[0]) == Some(doc.local.value.launcher))
    && (forall c :: c in cmds ==> Addressee(c).Some? && Addressee(c).value.At? && Addressee(c).value.node in cNodes)
  }

  ghost predicate IsSplit(doc: Doc, cNodes: seq<UclNode>, def: VScrnDef, cmds: seq<Doc>) {
    HasParts(doc, cNodes, def, cmds) && GoesToItsNode(doc, cNodes, def, cmds)
  }

  lemma SplitCorrect(doc: Doc, cNodes: seq<UclNode>, def: VScrnDef)
    requires WellFormed(doc) && CanRun(doc, cNodes)
    ensures Reduced(doc, cNodes).Some? && IsSplit(doc, cNodes, def, Commands(Reduced(doc, cNodes).value, def))
  {
    ReducedIffCanRun(doc, cNodes);
    SplitParts(doc, cNodes, def);
    SplitAddressed(doc, cNodes, def);
  }

  lemma SplitParts(doc: Doc, cNodes: seq<UclNode>, def: VScrnDef)
    requires WellFormed(doc) && Reduced(doc, cNodes).Some?
    ensures HasParts(doc, cNodes, def, Commands(Reduced(doc, cNodes).value, def))
  {
    SplitShape(doc, cNodes, def);
    ReceiverCommandsAt(Reduced(doc, cNodes).value, OwnCommands(doc, cNodes, def));
  }

  lemma SplitAddressed(doc: Doc, cNodes: seq<UclNode>, def: VScrnDef)
    requires WellFormed(doc) && Reduced(doc, cNodes).Some?
    ensures forall c :: c in Commands(Reduced(doc, cNodes).value, def) ==>
              Addressee(c).Some? && Addressee(c).value.At? && Addressee(c).value.node in cNodes
  {
    var red, own := Reduced(doc, cNodes).value, OwnCommands(doc, cNodes, def);
    SplitShape(doc, cNodes, def);
    forall i | 0 <= i < |own| ensures Reaches(own[i], cNodes) {
      OwnIsConnectable(doc, cNodes, def, i);
    }
    SubsAddressed(red, own, cNodes);
  }

  lemma SubsAddressed(doc: Doc, own: seq<Receiver>, cNodes: seq<UclNode>)
    requires forall i :: 0 <= i < |own| ==> Reaches(own[i], cNodes)
    ensures forall c :: c in ReceiverCommands(doc, own) ==>
              Addressee(c).Some? && Addressee(c).value.At? && Addressee(c).value.node in cNodes
  {
    ReceiverCommandsAt(doc, own);
    forall c | c in ReceiverCommands(doc, own)
      ensures Addressee(c).Some? && Addressee(c).value.At? && Addressee(c).value.node in cNodes
    {
      var i :| 0 <= i < |own| && ReceiverCommands(doc, own)[i] == c;
      assert Reaches(own[i], cNodes);
    }
  }

  lemma OwnIsConnectable(doc: Doc, cNodes: seq<UclNode>, def: VScrnDef, i: nat)
    requires i < |OwnCommands(doc, cNodes, def)|
    ensures Reaches(OwnCommands(doc, cNodes, def)[i], cNodes)
  {
    var rs := doc.receivers.value;
    var r := OwnCommands(doc, cNodes, def)[i];
    LaunchedFilters(doc.kind, Connectable(rs, cNodes), def, r);
    ConnectableFilters(rs, cNodes, r);
    assert r in multiset(OwnCommands(doc, cNodes, def));
    assert r in multiset(Connectable(rs, cNodes));
  }

  /** The receivers' commands come in the original order: they are what is left of the command's
      receivers without the unreachable ones and those not to be launched. */
  lemma ReceiversKeepOrder(doc: Doc, cNodes: seq<UclNode>, def: VScrnDef)
    requires doc.receivers.Some?
    ensures Subsequence(OwnCommands(doc, cNodes, def), doc.receivers.value)
    ensures forall r :: multiset(OwnCommands(doc, cNodes, def))[r] ==
              if r.launcher.At? && r.launcher.node in cNodes
                 && (doc.kind == LaunchCompositors || forall f :: f in def.framework ==> r.listenPort !in f.compositors)
              then multiset(doc.receivers.value)[r] else 0
  {
    var rs := doc.receivers.value;
    var c := Connectable(rs, cNodes);
    ConnectableSubsequence(rs, cNodes);
    LaunchedSubsequence(doc.kind, c, def);
    SubsequenceTransitive(OwnCommands(doc, cNodes, def), c, rs);
    forall r ensures multiset(OwnCommands(doc, cNodes, def))[r] ==
              if Reaches(r, cNodes) && Launches(doc.kind, r, def) then multiset(rs)[r] else 0
    {
      LaunchedFilters(doc.kind, c, def, r);
      ConnectableFilters(rs, cNodes, r);
    }
  }

  // ---- the compositors' own command -------------------------------------------------

  function FirstName(nodes: seq<Host>, nodeId: int): string {
    if nodes == [] then "" else if nodes[0].nodeId == nodeId then nodes[0].hostName else FirstName(nodes[1..], nodeId)
  }

  /** Host `k` is the first with this id. */
  predicate IsFirstHost(nodes: seq<Host>, nodeId: int, k: int) {
    0 <= k < |nodes| && nodes[k].nodeId == nodeId && forall l :: 0 <= l < k ==> nodes[l].nodeId != nodeId
  }

  lemma {:induction false} FirstNameIsFirst(nodes: seq<Host>, nodeId: int)
    ensures forall k :: IsFirstHost(nodes, nodeId, k) ==> FirstName(nodes, nodeId) == nodes[k].hostName
    ensures (forall h :: h in nodes ==> h.nodeId != nodeId) ==> FirstName(nodes, nodeId) == ""
  {
    if nodes != [] {
      FirstNameIsFirst(nodes[1..], nodeId);
      assert forall h :: h in nodes <==> h == nodes[0] || h in nodes[1..];
      forall k | IsFirstHost(nodes, nodeId, k) ensures FirstName(nodes, nodeId) == nodes[k].hostName {
        if k > 0 { assert IsFirstHost(nodes[1..], nodeId, k - 1); }
      }
    }
  }

  function CompositorReceivers(launcher: string, ports: seq<int>): (r: seq<Receiver>)
    ensures |r| == |ports| && forall j :: 0 <= j < |ports| ==> r[j] == Receiver(Alias(launcher), ports[j], "compositor")
  {
    if ports == [] then [] else [Receiver(Alias(launcher), ports[0], "compositor")] + CompositorReceivers(launcher, ports[1..])
  }

  function AllCompositors(nodes: seq<Host>, framework: seq<Framework>): seq<Receiver> {
    if framework == [] then []
    else CompositorReceivers(FirstName(nodes, framework[0].nodeId), framework[0].compositors)
         + AllCompositors(nodes, framework[1..])
  }

  ghost predicate MissesPort(def: VScrnDef) {
    exists f :: f in def.framework && exists p :: p in f.compositors && p <= 0
  }

  /** generateLaunchCompsitorsComm: nothing when a port is missing, else all compositors. */
  ghost function LaunchCommand(def: VScrnDef): Option<Doc> {
    if MissesPort(def) then None
    else
      var rs := AllCompositors(def.nodes, def.framework);
      Some(Doc(LaunchCompositors, "manageCompositors", None, if rs == [] then None else Some(rs), None))
  }

  /** The launcher of node `nodeId`'s compositors: the first host with that id, no name if there is none. */
  ghost predicate Hosts(nodes: seq<Host>, nodeId: int, launcher: Launcher) {
    && (forall k :: IsFirstHost(nodes, nodeId, k) ==> launcher == Alias(nodes[k].hostName))
    && ((forall h :: h in nodes ==> h.nodeId != nodeId) ==> launcher == Alias(""))
  }

  lemma CompositorsOfOne(nodes: seq<Host>, f: Framework)
    ensures var rs := AllCompositors(nodes, [f]);
      |rs| == |f.compositors|
      && forall j :: 0 <= j < |rs| ==> rs[j].listenPort == f.compositors[j] && Hosts(nodes, f.nodeId, rs[j].launcher)
  {
    FirstNameIsFirst(nodes, f.nodeId);
    assert [f][1..] == [] && AllCompositors(nodes, []) == [];
  }

  lemma {:induction false} AllCompositorsConcat(nodes: seq<Host>, a: seq<Framework>, b: seq<Framework>)
    ensures AllCompositors(nodes, a + b) == AllCompositors(nodes, a) + AllCompositors(nodes, b)
  {
    if a == [] {
      assert a + b == b;
    } else {
      assert (a + b)[1..] == a[1..] + b;
      AllCompositorsConcat(nodes, a[1..], b);
    }
  }

  ghost predicate IsCompositorOf(nodes: seq<Host>, f: Framework, r: Receiver) {
    r.listenPort in f.compositors && Hosts(nodes, f.nodeId, r.launcher)
  }

  /** The command has a receiver for every compositor of every framework node, on its port and
      launched by that node's host, and every receiver is one of these. */
  lemma {:induction false} EveryCompositorIsLaunched(nodes: seq<Host>, framework: seq<Framework>)
    ensures forall f, p :: f in framework && p in f.compositors ==>
              exists r :: r in AllCompositors(nodes, framework) && r.listenPort == p && IsCompositorOf(nodes, f, r)
    ensures forall r :: r in AllCompositors(nodes, framework) ==> exists f :: f in framework && IsCompositorOf(nodes, f, r)
  {
    if framework != [] {
      var g, rest := framework[0], framework[1..];
      var head := CompositorReceivers(FirstName(nodes, g.nodeId), g.compositors);
      EveryCompositorIsLaunched(nodes, rest);
      FirstNameIsFirst(nodes, g.nodeId);
      forall f, p | f in framework && p in f.compositors
        ensures exists r :: r in AllCompositors(nodes, framework) && r.listenPort == p && IsCompositorOf(nodes, f, r)
      {
        if f == g {
          var j :| 0 <= j < |g.compositors| && g.compositors[j] == p;
          assert head[j] in AllCompositors(nodes, framework) && IsCompositorOf(nodes, g, head[j]);
        } else {
          assert f in rest;
          var r :| r in AllCompositors(nodes, rest) && r.listenPort == p && IsCompositorOf(nodes, f, r);
          assert r in AllCompositors(nodes, framework);
        }
      }
      forall r | r in AllCompositors(nodes, framework) ensures exists f :: f in framework && IsCompositorOf(nodes, f, r) {
        if r in head {
          assert IsCompositorOf(nodes, g, r) && g in framework;
        } else {
          var f :| f in rest && IsCompositorOf(nodes, f, r);
          assert f in framework;
        }
      }
    }
  }

  lemma CompositorReceiversAppend(launcher: string, ports: seq<int>, j: nat)
    requires j < |ports|
    ensures CompositorReceivers(launcher, ports[..j + 1]) ==
            CompositorReceivers(launcher, ports[..j]) + [Receiver(Alias(launcher), ports[j], "compositor")]
  {
  }

  lemma AllCompositorsAppend(nodes: seq<Host>, framework: seq<Framework>, i: nat)
    requires i < |framework|
    ensures AllCompositors(nodes, framework[..i + 1]) ==
            AllCompositors(nodes, framework[..i])
            + CompositorReceivers(FirstName(nodes, framework[i].nodeId), framework[i].compositors)
  {
    assert framework[..i + 1] == framework[..i] + [framework[i]];
    AllCompositorsConcat(nodes, framework[..i], [framework[i]]);
    assert [framework[i]][1..] == [];
  }

  /** The command for manageCompositors: a receiver for every compositor, and no other. */
  ghost predicate IsLaunchCommand(def: VScrnDef, doc: Doc) {
    var rs := if doc.receivers.Some? then doc.receivers.value else [];
    && doc.kind == LaunchCompositors && doc.appName == "manageCompositors" && doc.sender.None? && doc.local.None?
    && (forall f, p :: f in def.framework && p in f.compositors ==>
          exists r :: r in rs && r.listenPort == p && IsCompositorOf(def.nodes, f, r))
    && (forall r :: r in rs ==> exists f :: f in def.framework && IsCompositorOf(def.nodes, f, r))
  }

  lemma LaunchCommandMeans(def: VScrnDef)
    ensures LaunchCommand(def).None? <==> exists f, p :: f in def.framework && p in f.compositors && p <= 0
    ensures LaunchCommand(def).Some? ==> IsLaunchCommand(def, LaunchCommand(def).value)
  {
    EveryCompositorIsLaunched(def.nodes, def.framework);
  }

  /** The loop that finds the launcher's name. */
  method FindName(nodes: seq<Host>, nodeId: int) returns (name: string)
    ensures name == FirstName(nodes, nodeId)
  {
    var i := 0;
    while i < |nodes|
      invariant i <= |nodes| && FirstName(nodes[i..], nodeId) == FirstName(nodes, nodeId)
    {
      if nodeId == nodes[i].nodeId { return nodes[i].hostName; }
      assert nodes[i..][1..] == nodes[i + 1..];
      i := i + 1;
    }
    return "";
  }

  /** The loops over the framework nodes and their compositors. */
  method CompositorList(def: VScrnDef) returns (r: Option<seq<Receiver>>)
    ensures r == if MissesPort(def) then None else Some(AllCompositors(def.nodes, def.framework))
  {
    var receivers := [];
    var i := 0;
    while i < |def.framework|
      invariant i <= |def.framework|
      invariant receivers == AllCompositors(def.nodes, def.framework[..i])
      invariant forall k :: 0 <= k < i ==> forall p :: p in def.framework[k].compositors ==> p > 0
    {
      var fwn := def.framework[i];
      ghost var before := receivers;
      var j := 0;
      while j < |fwn.compositors|
        invariant j <= |fwn.compositors|
        invariant receivers == before + CompositorReceivers(FirstName(def.nodes, fwn.nodeId), fwn.compositors[..j])
        invariant forall k :: 0 <= k < j ==> fwn.compositors[k] > 0
      {
        var launcherName := FindName(def.nodes, fwn.nodeId);
        if fwn.compositors[j] <= 0 {
          assert fwn in def.framework && fwn.compositors[j] in fwn.compositors;
          return None;
        }
        CompositorReceiversAppend(launcherName, fwn.compositors, j);
        receivers := receivers + [Receiver(Alias(launcherName), fwn.compositors[j], "compositor")];
        j := j + 1;
      }
      assert fwn.compositors[..j] == fwn.compositors;
      AllCompositorsAppend(def.nodes, def.framework, i);
      i := i + 1;
    }
    assert def.framework[..i] == def.framework;
    return Some(receivers);
  }

  method GenerateLaunchCompositorsComm(def: VScrnDef) returns (r: Option<Doc>)
    ensures r == LaunchCommand(def)
    ensures r.None? <==> exists f, p :: f in def.framework && p in f.compositors && p <= 0
    ensures r.Some? ==> IsLaunchCommand(def, r.value)
  {
    LaunchCommandMeans(def);
    var receivers := CompositorList(def);
    if receivers.None? {
      return None;
    }
    var rs := receivers.value;
    return Some(Doc(LaunchCompositors, "manageCompositors", None, if rs == [] then None else Some(rs), None));
  }

  lemma {:induction false} CompositorPorts(launcher: string, ports: seq<int>, port: int)
    ensures port in ports <==> exists r :: r in CompositorReceivers(launcher, ports) && r.listenPort == port
  {
    if ports != [] {
      CompositorPorts(launcher, ports[1..], port);
      var head := Receiver(Alias(launcher), ports[0], "compositor");
      assert forall r :: r in CompositorReceivers(launcher, ports) <==> r == head || r in CompositorReceivers(launcher, ports[1..]);
    }
  }

  lemma {:induction false} AllCompositorPorts(nodes: seq<Host>, framework: seq<Framework>, port: int)
    ensures OwnsPort(framework, port) <==> exists r :: r in AllCompositors(nodes, framework) && r.listenPort == port
  {
    if framework != [] {
      var name := FirstName(nodes, framework[0].nodeId);
      CompositorPorts(name, framework[0].compositors, port);
      AllCompositorPorts(nodes, framework[1..], port);
      assert forall f :: f in framework <==> f == framework[0] || f in framework[1..];
      assert forall r :: r in AllCompositors(nodes, framework) <==>
        r in CompositorReceivers(name, framework[0].compositors) || r in AllCompositors(nodes, framework[1..]);
    }
  }

  ghost predicate CompositorPort(def: VScrnDef, port: int) {
    LaunchCommand(def).Some? && LaunchCommand(def).value.receivers.Some?
    && exists r :: r in LaunchCommand(def).value.receivers.value && r.listenPort == port
  }

  /** When the compositors can be launched, an app run and launch_compositors divide the
      receivers between them: no port is served by both, and none is left out. */
  lemma PortsAreDivided(doc: Doc, def: VScrnDef, r: Receiver)
    requires LaunchCommand(def).Some? && doc.kind != LaunchCompositors
    requires doc.receivers.Some? && r in doc.receivers.value
    ensures r in Launched(doc.kind, doc.receivers.value, def) <==> !CompositorPort(def, r.listenPort)
  {
    AllCompositorPorts(def.nodes, def.framework, r.listenPort);
    LaunchedFilters(doc.kind, doc.receivers.value, def, r);
    assert r in multiset(doc.receivers.value);
    assert r in Launched(doc.kind, doc.receivers.value, def) <==> r in multiset(Launched(doc.kind, doc.receivers.value, def));
  }

  // ---- executable apps --------------------------------------------------------------

  predicate LauncherExists(launcher: string, nodes: seq<UclNode>) {
    exists n :: n in nodes && launcher == n.hostName
  }

  /** An app.json as stored on a node: launchers are host names. */
  predicate Raw(doc: Doc) {
    && (doc.sender.Some? ==> doc.sender.value.launcher.Alias?)
    && (doc.receivers.Some? ==> forall r :: r in doc.receivers.value ==> r.launcher.Alias?)
    && (doc.local.Some? ==> doc.local.value.launcher.Alias?)
  }

  /** validateAppInfo */
  predicate ValidateAppInfo(doc: Doc, nodes: seq<UclNode>)
    requires Raw(doc)
  {
    match doc.kind
    case RemoteVirtioGpu | Transport =>
      && doc.sender.Some? && LauncherExists(doc.sender.value.launcher.name, nodes)
      && doc.receivers.Some? && forall r :: r in doc.receivers.value ==> LauncherExists(r.launcher.name, nodes)
    case LocalKind => doc.local.Some? && LauncherExists(doc.local.value.launcher.name, nodes)
    case _ => false
  }

  /** A local app, or one that names a receiver. */
  predicate RunsSomewhere(doc: Doc) { doc.kind == LocalKind || doc.receivers != Some([]) }

  /** What a listed launcher's name stands for at dispatch. */
  lemma ListedLauncher(def: VScrnDef, aip: map<string, UclNode>, reach: set<(string, int)>, name: string)
    requires NamesAgree(def) && IsAliasMap(aip, def.nodes, def.framework)
    requires LauncherExists(name, Answering(FrameworkNodes(def.nodes, def.framework), reach))
    ensures name in aip && (aip[name].ip, aip[name].port) in reach
  {
    var n :| n in Answering(FrameworkNodes(def.nodes, def.framework), reach) && name == n.hostName;
    AliasMatchesFramework(def, aip, n);
  }

  lemma {:induction false} AllConnectable(rs: seq<Receiver>, cNodes: seq<UclNode>)
    requires forall r :: r in rs ==> r.launcher.At? && r.launcher.node in cNodes
    ensures Connectable(rs, cNodes) == rs
  {
    if rs != [] {
      assert rs[0] in rs;
      AllConnectable(rs[1..], cNodes);
    }
  }

  /** When names agree, an app the nodes list as executable, dispatched while the same nodes
      answer, passes the disconnect filter with nothing dropped: exactly when it is local or has
      a receiver. */
  lemma ExecutableIsDispatched(doc: Doc, def: VScrnDef, aip: map<string, UclNode>, reach: set<(string, int)>, dNodes: seq<UclNode>)
    requires WellFormed(doc) && Raw(doc)
    requires NamesAgree(def) && IsAliasMap(aip, def.nodes, def.framework)
    requires ValidateAppInfo(doc, Answering(FrameworkNodes(def.nodes, def.framework), reach))
    requires forall n :: n in dNodes <==> Names(ExpandDoc(doc, aip), n)
    ensures Reduced(ExpandDoc(doc, aip), Answering(dNodes, reach)) == Some(ExpandDoc(doc, aip)) <==> RunsSomewhere(doc)
  {
    var red, cNodes := ExpandDoc(doc, aip), Answering(dNodes, reach);
    if doc.kind == LocalKind {
      ListedLauncher(def, aip, reach, doc.local.value.launcher.name);
      assert Names(red, red.local.value.launcher.node);
    } else {
      ListedLauncher(def, aip, reach, doc.sender.value.launcher.name);
      assert Names(red, red.sender.value.launcher.node);
      var raw, rs := doc.receivers.value, red.receivers.value;
      forall r | r in rs ensures r.launcher.At? && r.launcher.node in cNodes {
        var i :| 0 <= i < |rs| && rs[i] == r;
        assert raw[i] in raw;
        ListedLauncher(def, aip, reach, raw[i].launcher.name);
        assert Names(red, r.launcher.node);
      }
      AllConnectable(rs, cNodes);
    }
  }

  /** Conversely an app with a sender and receivers, or a local one, that passes undiminished is
      listed, as long as nothing answers on port 0, which stands for a host without ucl-node. */
  lemma DispatchedIsListed(doc: Doc, def: VScrnDef, aip: map<string, UclNode>, reach: set<(string, int)>, dNodes: seq<UclNode>)
    requires WellFormed(doc) && Raw(doc) && IsAliasMap(aip, def.nodes, def.framework)
    requires forall address :: address in reach ==> address.1 != 0
    requires forall n :: n in dNodes <==> Names(ExpandDoc(doc, aip), n)
    requires Reduced(ExpandDoc(doc, aip), Answering(dNodes, reach)) == Some(ExpandDoc(doc, aip))
    requires doc.kind == RemoteVirtioGpu || doc.kind == Transport ==> doc.sender.Some? && doc.receivers.Some?
    ensures doc.kind != LaunchCompositors ==> ValidateAppInfo(doc, Answering(FrameworkNodes(def.nodes, def.framework), reach))
  {
    var exp, cNodes := ExpandDoc(doc, aip), Answering(dNodes, reach);
    ReducedIffCanRun(exp, cNodes);
    if doc.kind == LocalKind {
      AnsweringLauncher(def, aip, reach, doc.local.value.launcher.name);
    } else if doc.kind != LaunchCompositors {
      AnsweringLauncher(def, aip, reach, doc.sender.value.launcher.name);
      var raw, rs := doc.receivers.value, exp.receivers.value;
      forall r | r in raw ensures LauncherExists(r.launcher.name, Answering(FrameworkNodes(def.nodes, def.framework), reach)) {
        var i :| 0 <= i < |raw| && raw[i] == r;
        ConnectableFilters(rs, cNodes, rs[i]);
        assert rs[i] in multiset(rs);
        assert Reaches(rs[i], cNodes);
        AnsweringLauncher(def, aip, reach, r.launcher.name);
      }
    }
  }

  /** A name whose node answers belongs to a framework node that answers. */
  lemma AnsweringLauncher(def: VScrnDef, aip: map<string, UclNode>, reach: set<(string, int)>, name: string)
    requires IsAliasMap(aip, def.nodes, def.framework)
    requires forall address :: address in reach ==> address.1 != 0
    requires var n := if name in aip then aip[name] else NOWHERE; (n.ip, n.port) in reach
    ensures LauncherExists(name, Answering(FrameworkNodes(def.nodes, def.framework), reach))
  {
    assert name in aip;
    LastHostIsHost(def.nodes, name);
    var h := LastHost(def.nodes, name).value;
    HostIsFrameworkNode(def.nodes, def.framework, h, aip[name].port);
  }

  /** When names disagree, some local app is listed and not dispatched: the list looks at
      every host of a name, the alias only at the last. */
  lemma DisagreementBreaksDispatch(def: VScrnDef) returns (doc: Doc, reach: set<(string, int)>)
    requires !NamesAgree(def)
    ensures WellFormed(doc) && Raw(doc) && doc.kind == LocalKind
    ensures ValidateAppInfo(doc, Answering(FrameworkNodes(def.nodes, def.framework), reach))
    ensures forall aip, dNodes :: Expands(def, doc, aip, dNodes) ==>
              Reduced(ExpandDoc(doc, aip), Answering(dNodes, reach)).None?
  {
    var n :| n in FrameworkNodes(def.nodes, def.framework) && !AgreesOn(def, n);
    HostOf(def, n);
    doc := Doc(LocalKind, "app", None, None, Some(Local(Alias(n.hostName), "")));
    reach := {(n.ip, n.port)};
    assert n in Answering(FrameworkNodes(def.nodes, def.framework), reach);
  }

  /** What expandAliasNode and getDistribNode make of a command. */
  ghost predicate Expands(def: VScrnDef, doc: Doc, aip: map<string, UclNode>, dNodes: seq<UclNode>) {
    IsAliasMap(aip, def.nodes, def.framework) && forall n :: n in dNodes <==> Names(ExpandDoc(doc, aip), n)
  }

  /** Every app listed under some reachability passes the filter undiminished under the same,
      unless it is to run on no receiver. */
  ghost predicate ListingIsReliable(def: VScrnDef) {
    forall doc, reach, aip, dNodes ::
      WellFormed(doc) && Raw(doc) && ValidateAppInfo(doc, Answering(FrameworkNodes(def.nodes, def.framework), reach))
      && Expands(def, doc, aip, dNodes) ==>
        (Reduced(ExpandDoc(doc, aip), Answering(dNodes, reach)) == Some(ExpandDoc(doc, aip)) <==> RunsSomewhere(doc))
  }

  /** The list of executable apps can be relied on exactly when names agree. */
  lemma ReliableIffNamesAgree(def: VScrnDef)
    ensures ListingIsReliable(def) <==> NamesAgree(def)
  {
    if NamesAgree(def) {
      forall doc, reach, aip, dNodes |
        WellFormed(doc) && Raw(doc) && ValidateAppInfo(doc, Answering(FrameworkNodes(def.nodes, def.framework), reach))
        && Expands(def, doc, aip, dNodes)
        ensures Reduced(ExpandDoc(doc, aip), Answering(dNodes, reach)) == Some(ExpandDoc(doc, aip)) <==> RunsSomewhere(doc)
      {
        ExecutableIsDispatched(doc, def, aip, reach, dNodes);
      }
    } else {
      var doc, reach := DisagreementBreaksDispatch(def);
      var aip := AliasMapExists(def.nodes, def.framework);
      var dNodes := [ExpandDoc(doc, aip).local.value.launcher.node];
      assert Expands(def, doc, aip, dNodes);
    }
  }

  /** One such definition, with a name given to two hosts. */
  lemma DuplicateNamesBreakDispatch(body: string)
    ensures var def := VScrnDef([Host(0, "h", "10.0.0.1"), Host(1, "h", "10.0.0.2")], [Framework(0, 7654, [])]);
      var doc := Doc(LocalKind, "app", None, None, Some(Local(Alias("h"), body)));
      var aip := map["h" := UclNode("10.0.0.2", 0, "")];
      && IsAliasMap(aip, def.nodes, def.framework)
      && ValidateAppInfo(doc, Answering(FrameworkNodes(def.nodes, def.framework), {("10.0.0.1", 7654)}))
      && forall dNodes :: (forall n :: n in dNodes <==> Names(ExpandDoc(doc, aip), n)) ==>
           Reduced(ExpandDoc(doc, aip), Answering(dNodes, {("10.0.0.1", 7654)})).None?
  {
    var nodes := [Host(0, "h", "10.0.0.1"), Host(1, "h", "10.0.0.2")];
    assert nodes[..1] == [nodes[0]] && nodes[1..] == [nodes[1]];
    assert LastHost([], "h").None?;
    forall name ensures LastHost(nodes, name) == if name == "h" then Some(nodes[1]) else None {
      assert nodes[1].hostName == "h" && nodes[0].hostName == "h";
      assert nodes[..1][..0] == [] && LastHost([], name).None?;
      assert LastHost(nodes[..1], name) == if name == "h" then Some(nodes[0]) else None;
    }
    assert UclNode("10.0.0.1", 7654, "h") in FrameworkNodes(nodes, [Framework(0, 7654, [])]);
  }

  // ---- the pipeline -----------------------------------------------------------------

  lemma ExpandedDoc(doc: Doc, alias: map<string, UclNode>)
    requires WellFormed(doc)
    ensures Expanded(ExpandDoc(doc, alias)) && WellFormed(ExpandDoc(doc, alias))
  {
    var red := ExpandDoc(doc, alias);
    if Distributed(doc.kind) && red.receivers.Some? {
      forall r | r in red.receivers.value ensures r.launcher.At? {
        var i :| 0 <= i < |red.receivers.value| && red.receivers.value[i] == r;
      }
    }
  }

  /** The command as dispatched: expanded with the alias map of the definition, and the named
      nodes that answer. */
  ghost predicate Dispatches(doc: Doc, def: VScrnDef, reach: set<(string, int)>, exp: Doc, cNodes: seq<UclNode>) {
    && (exists aip :: IsAliasMap(aip, def.nodes, def.framework) && IsExpansion(doc, exp, aip))
    && forall n :: n in cNodes <==> Names(exp, n) && (n.ip, n.port) in reach
  }

  /** dispatchCommToNodes up to the commands it hands to its connections; None is the error
      that cancels the task. */
  method PrepareDispatch(doc: Doc, def: VScrnDef, reach: set<(string, int)>) returns (r: Option<seq<Doc>>)
    requires WellFormed(doc) && Raw(doc)
    ensures doc.kind == OtherKind ==> r.None?
    ensures exists exp, cNodes :: Dispatches(doc, def, reach, exp, cNodes)
              && (r.Some? <==> CanRun(exp, cNodes)) && (r.Some? ==> IsSplit(exp, cNodes, def, r.value))
    ensures r.Some? ==> forall c :: c in r.value ==>
      Addressee(c).Some? && Addressee(c).value.At? && (Addressee(c).value.node.ip, Addressee(c).value.node.port) in reach
    ensures NamesAgree(def) && ValidateAppInfo(doc, Answering(FrameworkNodes(def.nodes, def.framework), reach)) ==>
      (r.Some? <==> RunsSomewhere(doc))
  {
    var aip := ReadAliasIp(def);
    var mJson := new MJson(doc);
    mJson.ExpandAliasNode(aip);
    ghost var exp := mJson.Value();
    ExpandedDoc(doc, aip);
    var dNodes := mJson.GetDistribNode();
    var cNodes := GetConnectableNode(dNodes, reach);
    assert Dispatches(doc, def, reach, exp, cNodes);
    var ok := mJson.RemoveDisconnectNode(cNodes);
    ghost var listed := ValidateAppInfo(doc, Answering(FrameworkNodes(def.nodes, def.framework), reach));
    if listed && NamesAgree(def) {
      ExecutableIsDispatched(doc, def, aip, reach, dNodes);
    }
    if !ok {
      return None;
    }
    var subs := mJson.SplitCommandForEachNode(def);
    SplitCorrect(exp, cNodes, def);
    return Some(subs);
  }
}
