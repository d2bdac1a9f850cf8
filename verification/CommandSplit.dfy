/**
 From an app.json to one command per node: alias expansion, node collection, the filter of
 unreachable nodes and the split, with the node-side test that lists an app as executable.
 Members of the JSON objects that these functions only carry along are kept in `body`.
 */
module CommandSplit {
  import opened Basics
  import opened VirtualScreen

  datatype Kind = RemoteVirtioGpu | Transport | LaunchCompositors | LocalKind | OtherKind

  /** `launcher` is a host name until expandAliasNode replaces it by a node. */
  datatype Launcher = Alias(name: string) | At(node: UclNode)
  datatype Sender = Sender(launcher: Launcher, body: string)
  datatype Receiver = Receiver(launcher: Launcher, listenPort: int, body: string)
  datatype Local = Local(launcher: Launcher, body: string)

  datatype Doc = Doc(kind: Kind, appName: string, sender: Option<Sender>, receivers: Option<seq<Receiver>>, local: Option<Local>)

  predicate Distributed(kind: Kind) { kind == RemoteVirtioGpu || kind == Transport || kind == LaunchCompositors }

  /** A command whose members fit its type, if it has a known one; the source panics when it
      comes to use a member whose alias has not been expanded, or misses the local program. */
  predicate WellFormed(doc: Doc) {
    && (Distributed(doc.kind) ==> doc.local.None?)
    && (doc.kind == LocalKind ==> doc.local.Some? && doc.sender.None? && (doc.receivers.None? || doc.receivers == Some([])))
  }

  // ---- specification ----------------------------------------------------------------

  const NOWHERE := UclNode("", 0, "")

  /** A Go map gives the zero value for a key it does not have. */
  function Expand(l: Launcher, alias: map<string, UclNode>): Launcher {
    match l
    case At(_) => l
    case Alias(name) => At(if name in alias then alias[name] else NOWHERE)
  }

  function ExpandReceivers(rs: seq<Receiver>, alias: map<string, UclNode>): (r: seq<Receiver>)
    ensures |r| == |rs| && forall i :: 0 <= i < |r| ==> r[i] == rs[i].(launcher := Expand(rs[i].launcher, alias))
  {
    if rs == [] then [] else [rs[0].(launcher := Expand(rs[0].launcher, alias))] + ExpandReceivers(rs[1..], alias)
  }

  function ExpandDoc(doc: Doc, alias: map<string, UclNode>): Doc {
    if Distributed(doc.kind) then
      doc.(sender := if doc.sender.Some? then Some(doc.sender.value.(launcher := Expand(doc.sender.value.launcher, alias))) else None,
           receivers := if doc.receivers.Some? then Some(ExpandReceivers(doc.receivers.value, alias)) else None)
    else if doc.kind == LocalKind && doc.local.Some? then
      doc.(local := Some(doc.local.value.(launcher := Expand(doc.local.value.launcher, alias))))
    else doc
  }

  /** The launchers that count for this type of command are nodes. */
  predicate Expanded(doc: Doc) {
    && (Distributed(doc.kind) && doc.sender.Some? ==> doc.sender.value.launcher.At?)
    && (Distributed(doc.kind) && doc.receivers.Some? ==> forall r :: r in doc.receivers.value ==> r.launcher.At?)
    && (doc.kind == LocalKind && doc.local.Some? ==> doc.local.value.launcher.At?)
  }

  /** The launchers a command names. */
  ghost predicate Names(doc: Doc, n: UclNode) {
    if Distributed(doc.kind) then
      || (doc.sender.Some? && doc.sender.value.launcher == At(n))
      || (doc.receivers.Some? && exists r :: r in doc.receivers.value && r.launcher == At(n))
    else doc.kind == LocalKind && doc.local.Some? && doc.local.value.launcher == At(n)
  }

  function Connectable(rs: seq<Receiver>, cNodes: seq<UclNode>): seq<Receiver> {
    if rs == [] then []
    else (if rs[0].launcher.At? && rs[0].launcher.node in cNodes then [rs[0]] else []) + Connectable(rs[1..], cNodes)
  }

  /** removeDisconnectNode: the command with unreachable receivers taken out, or nothing. */
  function Reduced(doc: Doc, cNodes: seq<UclNode>): Option<Doc> {
    if Distributed(doc.kind) then
      if doc.sender.Some? && !(doc.sender.value.launcher.At? && doc.sender.value.launcher.node in cNodes) then None
      else if doc.receivers.None? then Some(doc)
      else
        var rs := Connectable(doc.receivers.value, cNodes);
        if rs == [] then None else Some(doc.(receivers := Some(rs)))
    else if doc.kind == LocalKind && doc.local.Some? && doc.local.value.launcher.At? && doc.local.value.launcher.node in cNodes
    then Some(doc)
    else None
  }

  /** The receivers a command launches: not those on a compositor's port, unless it is the
      compositors' own command. */
  ghost predicate Launches(kind: Kind, r: Receiver, def: VScrnDef) {
    kind == LaunchCompositors || !OwnsPort(def.framework, r.listenPort)
  }

  ghost function Launched(kind: Kind, rs: seq<Receiver>, def: VScrnDef): seq<Receiver> {
    if rs == [] then []
    else (if Launches(kind, rs[0], def) then [rs[0]] else []) + Launched(kind, rs[1..], def)
  }

  function SenderCommand(doc: Doc): seq<Doc> {
    if doc.sender.Some? then [doc.(local := None)] else []
  }

  function ReceiverCommand(doc: Doc, r: Receiver): Doc {
    Doc(doc.kind, doc.appName, None, Some([r]), None)
  }

  function ReceiverCommands(doc: Doc, rs: seq<Receiver>): seq<Doc> {
    if rs == [] then [] else [ReceiverCommand(doc, rs[0])] + ReceiverCommands(doc, rs[1..])
  }

  function LocalCommand(doc: Doc): seq<Doc> {
    if doc.local.Some? then [doc.(sender := None, receivers := None)] else []
  }

  ghost function Commands(doc: Doc, def: VScrnDef): seq<Doc> {
    SenderCommand(doc)
    + (if doc.receivers.Some? then ReceiverCommands(doc, Launched(doc.kind, doc.receivers.value, def)) else [])
    + LocalCommand(doc)
  }

  /** getDistribNodeAddr: the node a command is sent to. */
  function Addressee(doc: Doc): Option<Launcher> {
    if doc.sender.Some? then Some(doc.sender.value.launcher)
    else if doc.receivers.Some? && doc.receivers.value != [] then Some(doc.receivers.value[0].launcher)
    else if doc.local.Some? then Some(doc.local.value.launcher)
    else None
  }

  // ---- what expansion and filter do -------------------------------------------------

  /** A name is looked up, a node stays; a Go map gives the zero value for an unknown name. */
  ghost predicate Resolves(l: Launcher, l': Launcher, alias: map<string, UclNode>) {
    match l
    case At(_) => l' == l
    case Alias(name) => l' == At(if name in alias then alias[name] else UclNode("", 0, ""))
  }

  /** Each launcher that counts for this type of command is replaced by what its own name stands
      for; nothing else changes. */
  ghost predicate IsExpansion(doc: Doc, doc': Doc, alias: map<string, UclNode>) {
    && doc'.kind == doc.kind && doc'.appName == doc.appName
    && (doc.kind == LocalKind || doc.kind == OtherKind ==> doc'.sender == doc.sender && doc'.receivers == doc.receivers)
    && (doc.kind != LocalKind ==> doc'.local == doc.local)
    && (doc.kind != LocalKind && doc.kind != OtherKind ==>
          && (doc'.sender.Some? <==> doc.sender.Some?)
          && (doc.sender.Some? ==> doc'.sender.value.body == doc.sender.value.body
                                   && Resolves(doc.sender.value.launcher, doc'.sender.value.launcher, alias))
          && (doc'.receivers.Some? <==> doc.receivers.Some?)
          && (doc.receivers.Some? ==> |doc'.receivers.value| == |doc.receivers.value|)
          && (doc.receivers.Some? ==> forall i :: 0 <= i < |doc.receivers.value| ==>
               var r, r' := doc.receivers.value[i], doc'.receivers.value[i];
               r'.listenPort == r.listenPort && r'.body == r.body && Resolves(r.launcher, r'.launcher, alias)))
    && (doc.kind == LocalKind ==>
          && (doc'.local.Some? <==> doc.local.Some?)
          && (doc.local.Some? ==> doc'.local.value.body == doc.local.value.body
                                  && Resolves(doc.local.value.launcher, doc'.local.value.launcher, alias)))
  }

  lemma ExpandsEachLauncher(doc: Doc, alias: map<string, UclNode>)
    ensures IsExpansion(doc, ExpandDoc(doc, alias), alias)
  {
  }

  /** There is no other expansion. */
  lemma ExpansionIsUnique(doc: Doc, doc': Doc, alias: map<string, UclNode>)
    requires IsExpansion(doc, doc', alias)
    ensures doc' == ExpandDoc(doc, alias)
  {
    var e := ExpandDoc(doc, alias);
    if doc.kind != LocalKind && doc.kind != OtherKind && doc.receivers.Some? {
      assert doc'.receivers.value == e.receivers.value;
    }
  }

  predicate Reaches(r: Receiver, cNodes: seq<UclNode>) { r.launcher.At? && r.launcher.node in cNodes }

  lemma {:induction false} ConnectableEmpty(rs: seq<Receiver>, cNodes: seq<UclNode>)
    ensures Connectable(rs, cNodes) == [] <==> forall r :: r in rs ==> !Reaches(r, cNodes)
  {
    if rs != [] {
      ConnectableEmpty(rs[1..], cNodes);
      assert [] + Connectable(rs[1..], cNodes) == Connectable(rs[1..], cNodes);
      assert Reaches(rs[0], cNodes) ==> Connectable(rs, cNodes)[0] == rs[0];
      assert forall r :: r in rs <==> r == rs[0] || r in rs[1..];
    }
  }

  /** A command can run when its sender's node is connectable and, if it names receivers, at
      least one of theirs is; a local one when its node is; one of unknown type cannot. */
  ghost predicate CanRun(doc: Doc, cNodes: seq<UclNode>) {
    match doc.kind
    case LocalKind => doc.local.Some? && doc.local.value.launcher.At? && doc.local.value.launcher.node in cNodes
    case OtherKind => false
    case _ =>
      && (doc.sender.Some? ==> doc.sender.value.launcher.At? && doc.sender.value.launcher.node in cNodes)
      && (doc.receivers.Some? ==> exists r :: r in doc.receivers.value && Reaches(r, cNodes))
  }

  /** The filter accepts exactly the commands that can run, and changes nothing but the list of
      receivers. */
  lemma ReducedIffCanRun(doc: Doc, cNodes: seq<UclNode>)
    ensures Reduced(doc, cNodes).Some? <==> CanRun(doc, cNodes)
    ensures Reduced(doc, cNodes).Some? ==> var red := Reduced(doc, cNodes).value;
      && red == doc.(receivers := red.receivers) && (red.receivers.Some? <==> doc.receivers.Some?)
      && (doc.kind != LocalKind && red.receivers.Some? ==> red.receivers.value != [])
  {
    if doc.receivers.Some? { ConnectableEmpty(doc.receivers.value, cNodes); }
  }

  // ---- the source's loops -----------------------------------------------------------

  method IsExistNode(dNodes: seq<UclNode>, chk: UclNode) returns (r: bool)
    ensures r <==> chk in dNodes
  {
    var i := 0;
    while i < |dNodes|
      invariant i <= |dNodes| && chk !in dNodes[..i]
    {
      if dNodes[i] == chk { return true; }
      i := i + 1;
    }
    return false;
  }

  /** getConnectableNode: the nodes that answer, in order; `reach` stands for the network. */
  function Answering(dNodes: seq<UclNode>, reach: set<(string, int)>): (r: seq<UclNode>)
    ensures forall n :: n in r <==> n in dNodes && (n.ip, n.port) in reach
  {
    if dNodes == [] then []
    else (if (dNodes[0].ip, dNodes[0].port) in reach then [dNodes[0]] else []) + Answering(dNodes[1..], reach)
  }

  lemma AnsweringDrop(dNodes: seq<UclNode>, i: nat, reach: set<(string, int)>, before: seq<UclNode>)
    requires i < |dNodes|
    ensures before + Answering(dNodes[i..], reach) ==
      (if (dNodes[i].ip, dNodes[i].port) in reach then before + [dNodes[i]] else before) + Answering(dNodes[i + 1..], reach)
  {
    assert dNodes[i..][1..] == dNodes[i + 1..];
  }

  /** getConnectableNode gathers the answers in order. */
  method GetConnectableNode(dNodes: seq<UclNode>, reach: set<(string, int)>) returns (cNodes: seq<UclNode>)
    ensures cNodes == Answering(dNodes, reach)
  {
    cNodes := [];
    var i := 0;
    while i < |dNodes|
      invariant i <= |dNodes|
      invariant Answering(dNodes, reach) == cNodes + Answering(dNodes[i..], reach)
    {
      var connectable := (dNodes[i].ip, dNodes[i].port) in reach;
      AnsweringDrop(dNodes, i, reach, cNodes);
      if connectable {
        cNodes := cNodes + [dNodes[i]];
      }
      i := i + 1;
    }
    assert Answering(dNodes[i..], reach) == [];
  }

  lemma ConnectableDrop(rs: seq<Receiver>, i: nat, cNodes: seq<UclNode>, before: seq<Receiver>)
    requires i < |rs| && rs[i].launcher.At?
    ensures before + Connectable(rs[i..], cNodes) ==
      (if rs[i].launcher.node in cNodes then before + [rs[i]] else before) + Connectable(rs[i + 1..], cNodes)
  {
    assert rs[i..][1..] == rs[i + 1..];
  }

  /** The loop of removeDisconnectNode. */
  method ConnectableReceivers(receivers: seq<Receiver>, cNodes: seq<UclNode>) returns (recvs: seq<Receiver>)
    requires forall r :: r in receivers ==> r.launcher.At?
    ensures recvs == Connectable(receivers, cNodes)
  {
    recvs := [];
    var i := 0;
    while i < |receivers|
      invariant i <= |receivers|
      invariant Connectable(receivers, cNodes) == recvs + Connectable(receivers[i..], cNodes)
    {
      var known := IsExistNode(cNodes, receivers[i].launcher.node);
      ConnectableDrop(receivers, i, cNodes, recvs);
      if known {
        recvs := recvs + [receivers[i]];
      }
      i := i + 1;
    }
    assert Connectable(receivers[i..], cNodes) == [];
  }

  /** The loop of splitCommandforEachNode over the receivers. */
  method SplitReceivers(doc: Doc, receivers: seq<Receiver>, def: VScrnDef) returns (output: seq<Doc>)
    ensures output == ReceiverCommands(doc, Launched(doc.kind, receivers, def))
  {
    output := [];
    var i := 0;
    while i < |receivers|
      invariant i <= |receivers|
      invariant ReceiverCommands(doc, Launched(doc.kind, receivers, def))
        == output + ReceiverCommands(doc, Launched(doc.kind, receivers[i..], def))
    {
      var isComp := false;
      if doc.kind != LaunchCompositors {
        isComp := IsRecvCompositor(receivers[i].listenPort, def);
      }
      LaunchedDrop(doc, receivers, i, def, output);
      if !isComp {
        output := output + [Doc(doc.kind, doc.appName, None, Some([receivers[i]]), None)];
      }
      i := i + 1;
    }
    assert ReceiverCommands(doc, Launched(doc.kind, receivers[i..], def)) == [];
  }

  lemma LaunchedDrop(doc: Doc, rs: seq<Receiver>, i: nat, def: VScrnDef, before: seq<Doc>)
    requires i < |rs|
    ensures before + ReceiverCommands(doc, Launched(doc.kind, rs[i..], def)) ==
      (if Launches(doc.kind, rs[i], def) then before + [ReceiverCommand(doc, rs[i])] else before)
      + ReceiverCommands(doc, Launched(doc.kind, rs[i + 1..], def))
  {
    assert rs[i..][1..] == rs[i + 1..];
    var rest := Launched(doc.kind, rs[i + 1..], def);
    assert ([rs[i]] + rest)[1..] == rest;
    assert [] + rest == rest;
  }

  /** The decoded command, rewritten in place. */
  class MJson {
    const kind: Kind
    const appName: string
    var sender: Option<Sender>
    var receivers: Option<seq<Receiver>>
    var local: Option<Local>

    constructor (doc: Doc)
      ensures Value() == doc
    {
      kind, appName := doc.kind, doc.appName;
      sender, receivers, local := doc.sender, doc.receivers, doc.local;
    }

    function Value(): Doc
      reads this
    {
      Doc(kind, appName, sender, receivers, local)
    }

    method ExpandAliasNode(alias: map<string, UclNode>)
      requires kind == LocalKind ==> local.Some?
      modifies this
      ensures Value() == ExpandDoc(old(Value()), alias)
      ensures IsExpansion(old(Value()), Value(), alias)
    {
      ExpandsEachLauncher(Value(), alias);
      if kind == RemoteVirtioGpu || kind == Transport || kind == LaunchCompositors {
        if sender.Some? {
          sender := Some(sender.value.(launcher := Expand(sender.value.launcher, alias)));
        }
        if receivers.Some? {
          var rs := receivers.value;
          var i := 0;
          while i < |rs|
            invariant receivers == old(receivers) && i <= |rs| == |receivers.value|
            invariant forall j :: 0 <= j < i ==>
              rs[j] == receivers.value[j].(launcher := Expand(receivers.value[j].launcher, alias))
            invariant forall j :: i <= j < |rs| ==> rs[j] == receivers.value[j]
          {
            rs := rs[i := rs[i].(launcher := Expand(rs[i].launcher, alias))];
            i := i + 1;
          }
          assert rs == ExpandReceivers(receivers.value, alias);
          receivers := Some(rs);
        }
      } else if kind == LocalKind {
        local := Some(local.value.(launcher := Expand(local.value.launcher, alias)));
      }
    }

    /** Each launcher once. */
    method GetDistribNode() returns (dNodes: seq<UclNode>)
      requires Expanded(Value())
      ensures forall n :: n in dNodes <==> Names(Value(), n)
      ensures kind != LocalKind && kind != OtherKind ==> forall n :: n in dNodes <==>
                (sender.Some? && sender.value.launcher == At(n))
                || (receivers.Some? && exists r :: r in receivers.value && r.launcher == At(n))
      ensures kind == LocalKind ==> forall n :: n in dNodes <==> local.Some? && local.value.launcher == At(n)
      ensures forall i, j :: 0 <= i < j < |dNodes| ==> dNodes[i] != dNodes[j]
    {
      dNodes := [];
      if kind == RemoteVirtioGpu || kind == Transport || kind == LaunchCompositors {
        if sender.Some? {
          dNodes := dNodes + [sender.value.launcher.node];
        }
        if receivers.Some? {
          var i := 0;
          while i < |receivers.value|
            invariant i <= |receivers.value|
            invariant forall n :: n in dNodes <==>
              (sender.Some? && sender.value.launcher == At(n)) || exists r :: r in receivers.value[..i] && r.launcher == At(n)
            invariant forall i, j :: 0 <= i < j < |dNodes| ==> dNodes[i] != dNodes[j]
          {
            var r := receivers.value[i];
            var known := IsExistNode(dNodes, r.launcher.node);
            if !known {
              dNodes := dNodes + [r.launcher.node];
            }
            assert receivers.value[..i + 1] == receivers.value[..i] + [r];
            i := i + 1;
          }
          assert receivers.value[..i] == receivers.value;
        }
      } else if kind == LocalKind {
        if local.Some? {
          dNodes := [local.value.launcher.node];
        }
      }
    }

    method RemoveDisconnectNode(cNodes: seq<UclNode>) returns (ok: bool)
      requires Expanded(Value()) && (kind == LocalKind ==> local.Some?)
      modifies this
      ensures ok <==> CanRun(old(Value()), cNodes)
      ensures ok <==> Reduced(old(Value()), cNodes).Some?
      ensures Value() == if ok then Reduced(old(Value()), cNodes).value else old(Value())
    {
      ReducedIffCanRun(Value(), cNodes);
      if kind == RemoteVirtioGpu || kind == Transport || kind == LaunchCompositors {
        if sender.Some? {
          var known := IsExistNode(cNodes, sender.value.launcher.node);
          if !known { return false; }
        }
        if receivers.Some? {
          var recvs := ConnectableReceivers(receivers.value, cNodes);
          if |recvs| == 0 { return false; }
          receivers := Some(recvs);
        }
        return true;
      } else if kind == LocalKind {
        ok := IsExistNode(cNodes, local.value.launcher.node);
      } else {
        return false;
      }
    }

    method SplitCommandForEachNode(def: VScrnDef) returns (output: seq<Doc>)
      ensures output == Commands(Value(), def)
    {
      output := [];
      if sender.Some? {
        output := output + [Doc(kind, appName, sender, receivers, None)];
      }
      if receivers.Some? {
        var subs := SplitReceivers(Doc(kind, appName, sender, receivers, local), receivers.value, def);
        output := output + subs;
      }
      if local.Some? {
        output := output + [Doc(kind, appName, None, None, local)];
      }
    }
  }
}
