# Verified model of the unified clustering tools

The lifecycle manager launches an application on several nodes at once: it splits the
command of an `app.json`, connects to one `ucl-node` per part, holds senders back until
every target has checked in, watches all of them with heartbeats, and reclaims everything
when one of them ends. This project models that in Dafny and proves what the README of the
tools promises: startup order, monitoring, and reliable reclaiming; the last one with its
exact limits.

`dafny verify dfyconfig.toml` checks the whole project.

## The modules

| file | models |
|---|---|
| `LaunchProtocol.dfy` | one task as a state machine over any number of targets: dispatch, NcountMaster, and per target handleNodeConnection, NkeepMaster, handleConnection, TimingWrapper, NkeepWorker, processExitHandler, waitProcess and the process |
| `LaunchInvariants.dfy` | what every step keeps |
| `LaunchTheorems.dfy` | safety in every state of every run |
| `LaunchTeardown.dfy` | what is torn down when nothing more happens |
| `LaunchCompletion.dfy` | that a task that settles without being cancelled is up |
| `LaunchProgress.dfy` | that tasks settle in a bounded number of steps |
| `LaunchLimits.dfy` | runs in which reclaiming does not reach everyone, and one that comes up |
| `Heartbeat.dfy` | NkeepMaster with its clock, and that it refines the untimed one |
| `Registry.dfy` | the task registry as a class |
| `RegistryRuns.dfy` | all interleavings of requests on the registry with the launches of its tasks |
| `Framing.dfy` | the wire format and its readers and writers |
| `EnvVars.dfy` | the environment-string parser |
| `ArgLine.dfy` | the sender's command line |
| `VirtualScreen.dfy`, `CommandSplit.dfy`, `CommandTheorems.dfy` | from `app.json` to one command per node |
| `CardIndex.dfy` | reserving a card number under the lock file |

## How a launch is modelled

One step is one channel operation, one select branch, one frame written or received, one
timer or one process event; the program counters name the source's blocking points. All
interleavings of steps are runs. Channels have the source's capacities, and a send on a
full channel is not enabled. Each ConnReadLoop is folded into the direction of the
connection it reads (its own behaviour is proved in `Framing.dfy`): frames arrive in order,
then its nil. The magic code of the handshake is the step `Greet`; a frame that overtakes
it is `GreetFail`, which is always possible. JSON encoding is taken as the identity, so a
message is its `type` and, for a check-in, its `data`.

`Internal` steps happen eventually while they stay enabled. The others belong to the
environment: failed connections, reads, writes and starts, a node refusing a command, a
process ending by itself, a client cancelling.

Barrier, echo, lifetimes and the registry (every theorem that only asks for a `Run`) need no
assumption on timing or progress. The rest assumes:

* `OnTime`: NkeepMaster serves its reply timer before its retry ticker fires, so it sends no
  heartbeat while one is unanswered. `Heartbeat.Refines` derives this from the clock, where
  timers are served when they fire. All results on heartbeats, settled tasks and what becomes
  of them ask for it.
* what `Settled` takes for granted by counting these steps as internal: a process ends on
  SIGTERM (`Obey`), ConnectTarget and the handshake come to an end, and frames and the close
  of a connection arrive at the other end (`Recv`, `RecvEof`, `NRecv`, `NRecvEof`).

A task is *settled* when no internal step but the periodic heartbeat of a handler in its loop
is enabled. `LaunchProgress.Settles` bounds how long a task can go on without such
heartbeats, failures included. Then there are two cases. If nobody has cancelled,
`LaunchCompletion.LaunchCompletes`: the barrier is open, all handlers are connected, and every
process runs unless its node is deaf. After an ended process or a cancellation,
`LaunchTeardown.TeardownReachesEveryone`: the manager's context is cancelled, and every target
is torn down exactly when neither of two things happened to it, a parked NkeepMaster or a deaf
node. These, and a parked NcountMaster, do happen: `LaunchLimits` gives a run for each. So the
"reliably reclaims" of the tools' own README.md holds with these exceptions only:

* NkeepMaster blocks on `sendNodeChan` (internal/ucl/ucl_consistency_keeper.go:141, 150)
  after its handler has left: the handler never closes the connection and the remote
  process runs on. What it finds there is the release, so the barrier has opened
  (`LaunchTeardown.ParkingCauses`).
* A failed write ends the node's loop without cancelling (cmd/ucl-node/ucl_node.go:431-436):
  the handler waits for a process nobody stops. `LaunchTeardown.DeafNeedsFailedWrite` shows
  there is no other way.
* NcountMaster blocks on `sendNodeChan` (internal/ucl/ucl_consistency_keeper.go:80-82), on a
  heartbeat: `dispatchCommToNodes` never returns and the name stays busy.

A barrier that failed always reclaims, up to deaf nodes
(`LaunchTeardown.FailedBarrierReclaims`).

In `RegistryRuns` every task carries such a launch: its context is the launch's, it removes its
entry when the launch's dispatchCommToNodes has returned, and stops are client cancels. So the
theorems about launches hold of every task in every run of the registry.

## Other places where a promise has an exact condition

* A frame is read back exactly when its length is 1 to 0x10000 (`Framing.RoundTrip`).
* A list of pairs, each value bare or between quotes of either kind, is parsed back exactly
  when, in all pairs but the last, a quoted value has an even number of the other kind of
  quote and a bare one is not empty (`EnvVars.RoundTrip`).
* The command line is split into the intended words exactly when command, name and
  addresses hold no space (`ArgLine.ArgumentVector`).
* An app listed as executable passes the disconnect filter exactly when it is local or has
  a receiver, for all apps exactly when names agree: the last host of each framework node's
  name has that node's address and port (`CommandTheorems.ReliableIffNamesAgree`). Unique
  host names agree; `CommandTheorems.DuplicateNamesBreakDispatch` is a definition that does not.
* NkeepMaster cancels exactly when a heartbeat is 4 s old and unanswered, or was answered in
  that very moment and the stopped ticker's tick was left behind, as Go does before version
  1.23 (`Heartbeat.CancelsOnlyUnanswered`).

## Model

| member | source | states |
|---|---|---|
| LaunchTheorems.StartOrder | internal/ucl/ucl_consistency_keeper.go:236-286 | a sender or local process is only started after every target has checked in and every receiver's process was started, in every run with any number of targets |
| LaunchTheorems.FailureIsFinal | internal/ucl/ucl_consistency_keeper.go:55-82 | once NcountMaster gave up, the task stays cancelled, nobody is released and no waiting process ever starts |
| LaunchTheorems.EchoAgreement | cmd/ucl-lifecycle-manager/ucl_lifecycle_manager.go:415-437 | every ncount on its way to or from a worker is that worker's own; a release never finds the stored reply empty; the worker never sees a mismatch |
| LaunchTheorems.CheckInsHaveRoom | internal/ucl/ucl_consistency_keeper.go:55-82 | check-ins consumed and queued never exceed the targets, so their sends have room, even after NcountMaster has gone; so has the node's waitNCountChan |
| LaunchTheorems.SendsHaveRoom | cmd/ucl-lifecycle-manager/ucl_lifecycle_manager.go:434-439 | with timers served on time, no goroutine is ever about to send on a full channel except on sendNodeChan |
| LaunchTheorems.ReturnsOnlyWhenCancelled | cmd/ucl-lifecycle-manager/ucl_lifecycle_manager.go:655-699 | dispatchCommToNodes returns only when its context is cancelled, however it ends |
| LaunchTheorems.NoOrphans | cmd/ucl-node/ucl_node.go:412-460 | a started, unreaped process has an unfinished TimingWrapper and an open connection; behind a closed one there is no process and the context is cancelled |
| LaunchTheorems.ManagerCancels | cmd/ucl-lifecycle-manager/ucl_lifecycle_manager.go:376-454 | exactly which steps cancel the manager's context; a failed connect, handshake or write does not |
| LaunchTheorems.NodeCancels | internal/ucl/ucl_consistency_keeper.go:213-286 | exactly which steps cancel a node's context in a run |
| LaunchInvariants.StepInv | cmd/ucl-lifecycle-manager/ucl_lifecycle_manager.go:376-454 | every step of every goroutine keeps the flow of check-ins and of the release, which is not lost before one end leaves its loop, the echo, the control states and the count of the barrier |
| LaunchInvariants.StepPulse | internal/ucl/ucl_consistency_keeper.go:141-160 | every step that is on time keeps at most one heartbeat in existence, and none while NkeepMaster is sending or answered |
| LaunchInvariants.ReturnCancelled | cmd/ucl-lifecycle-manager/ucl_lifecycle_manager.go:687-698 | when NcountMaster and all handlers are done, the context is cancelled |
| LaunchTeardown.TeardownReachesEveryone | internal/ucl/ucl_consistency_keeper.go:198-228 | after an ended process or a cancellation, a settled task is cancelled; each target is down iff its NkeepMaster is not parked and its node not deaf; dispatch has returned iff no goroutine of the manager is parked |
| LaunchTeardown.ExitCancels | cmd/ucl-lifecycle-manager/ucl_lifecycle_manager.go:443-450 | in a settled task, an ended process or a cancelled node has cancelled the manager's context |
| LaunchTeardown.DeafNeedsFailedWrite | cmd/ucl-node/ucl_node.go:428-459 | a node's handler only leaves its loop uncancelled after a failed write |
| LaunchTeardown.ParkingCauses | internal/ucl/ucl_consistency_keeper.go:80-82 | a parked NkeepMaster is blocked by the release, so the barrier has reached its target; a parked NcountMaster is blocked by a heartbeat |
| LaunchTeardown.FailedBarrierReclaims | internal/ucl/ucl_consistency_keeper.go:57-73 | once a task whose barrier failed has settled, dispatch has returned and every target is down iff its node is not deaf |
| LaunchCompletion.LaunchCompletes | internal/ucl/ucl_consistency_keeper.go:248-286 | a task that settles uncancelled has its barrier open, all handlers connected and answered, and each process released and running iff its node is not deaf |
| LaunchProgress.StepRanked | internal/ucl/ucl_consistency_keeper.go:143-162 | every step but a heartbeat of a looping handler and a client cancel lowers the rank |
| LaunchProgress.Settles | internal/ucl/ucl_consistency_keeper.go:143-162 | a run without such heartbeats is at most as long as the rank it starts from |
| LaunchLimits.ParkedIsReachable | internal/ucl/ucl_consistency_keeper.go:141 | a settled, cancelled task with NkeepMaster parked and the process running is reachable |
| LaunchLimits.DeafIsReachable | cmd/ucl-node/ucl_node.go:431-436 | a settled task whose dispatch has returned while a node's process runs on is reachable |
| LaunchLimits.BlockedBarrierIsReachable | internal/ucl/ucl_consistency_keeper.go:80-82 | a settled task whose dispatch never returns although its node is down is reachable |
| LaunchLimits.UpIsReachable | internal/ucl/ucl_consistency_keeper.go:248-286 | a settled, uncancelled task with its process running is reachable |
| Heartbeat.SilenceIsBounded | internal/ucl/ucl_consistency_keeper.go:128-162 | while uncancelled, the clock is at most 14 s past the later of the start and the last response |
| Heartbeat.RetriesAfterTenSeconds | internal/ucl/ucl_consistency_keeper.go:128-160 | once answered, the next heartbeat is due exactly 10 s after the response |
| Heartbeat.CancelsOnlyUnanswered | internal/ucl/ucl_consistency_keeper.go:153-160 | NkeepMaster can cancel iff the last heartbeat is exactly 4 s old and is in flight, or was answered at that instant leaving the tick of the stopped timer |
| Heartbeat.NeverCancelsWhenAnswered | internal/ucl/ucl_consistency_keeper.go:149-160 | if every heartbeat is answered in less than 4 s, NkeepMaster never cancels |
| Heartbeat.OneHeartbeat | internal/ucl/ucl_consistency_keeper.go:141-160 | at most one heartbeat exists, and every channel it goes to next is empty |
| Heartbeat.Refines | internal/ucl/ucl_consistency_keeper.go:120-163 | each step of the clocked NkeepMaster is a step of the one in LaunchProtocol with the same effect on its state, its context, sendNodeChan and waitNKeepChan; a retry only fires when the last heartbeat was answered |
| Registry.CommTaskMap.Update | cmd/ucl-lifecycle-manager/ucl_lifecycle_manager.go:44-55 | a taken or empty name is refused, else a fresh uncancelled context is filed under it and nothing else changes |
| Registry.CommTaskMap.Delete | cmd/ucl-lifecycle-manager/ucl_lifecycle_manager.go:57-68 | exactly the entry of that name goes, an error iff there is none |
| Registry.CommTaskMap.CancelOne | cmd/ucl-lifecycle-manager/ucl_lifecycle_manager.go:70-81 | exactly the context of that name is cancelled, an error iff there is none |
| Registry.CommTaskMap.CancelAllExceptCompositors | cmd/ucl-lifecycle-manager/ucl_lifecycle_manager.go:83-93 | every context but manageCompositors is cancelled, in any order of visiting |
| RegistryRuns.AcceptedIffFree | cmd/ucl-lifecycle-manager/ucl_lifecycle_manager.go:44-55 | a run request creates a live task iff its name is not empty and no live task has it, else it changes nothing |
| RegistryRuns.OneLiveTask | cmd/ucl-lifecycle-manager/ucl_lifecycle_manager.go:802-812 | a name is taken iff a live task has it, and at most one does |
| RegistryRuns.DeletesItsOwn | cmd/ucl-lifecycle-manager/ucl_lifecycle_manager.go:655-657 | a task that ends or finds no command removes its own entry and no other |
| RegistryRuns.StopHitsItsTask | cmd/ucl-lifecycle-manager/ucl_lifecycle_manager.go:860-871 | a stop cancels the task it looked up and no other, never a later run of the name |
| RegistryRuns.StopAllSparesCompositors | cmd/ucl-lifecycle-manager/ucl_lifecycle_manager.go:873-879 | stop-all cancels every live task except manageCompositors and changes nothing else |
| RegistryRuns.BlockingRunsReturn | cmd/ucl-lifecycle-manager/ucl_lifecycle_manager.go:821-833 | Finish is answered only for a cancelled context; a task whose dispatch has returned is cancelled, so a blocking run whose task is gone can answer |
| RegistryRuns.OneConnectedTask | cmd/ucl-lifecycle-manager/ucl_lifecycle_manager.go:655-699 | of all runs of one name at most one holds connections to nodes |
| RegistryRuns.StoppedTaskEnds | cmd/ucl-lifecycle-manager/ucl_lifecycle_manager.go:860-871 | a cancelled task whose launch has settled frees its name, or has, iff no goroutine of the manager is parked |
| Framing.ReadFrameInverse | internal/ucl/ucl_node_conn.go:178-197 | a stream yields a frame and a rest iff it is that frame as written, of an accepted length, before that rest |
| Framing.BigEndian | internal/ucl/ucl_node_conn.go:132-147 | the most significant byte of a length comes first |
| Framing.RoundTrip | internal/ucl/ucl_node_conn.go:132-147 | a written message is read back iff its length is 1 to 0x10000, the 32-bit wrap of the length included |
| Framing.AllRoundTrip | internal/ucl/ucl_node_conn.go:149-159 | messages written in sequence are delivered in sequence, whatever follows |
| Framing.NothingInvented | internal/ucl/ucl_node_conn.go:149-159 | the delivered frames, written again, are a prefix of the stream after which no frame can be read |
| Framing.CommandLayout | internal/ucl/ucl_node_conn.go:79-97 | a command is the four letters UHMI, then type and data, each after its length |
| Framing.CommandInverse | internal/ucl/ucl_node_conn.go:59-97 | ReadCommand accepts exactly what SendCommand writes and leaves the rest of the stream |
| Framing.ConnRead | internal/ucl/ucl_node_conn.go:161-176 | exactly the requested bytes or an error, for every way Read chunks the stream |
| Framing.ConnReadWithSize | internal/ucl/ucl_node_conn.go:178-197 | one frame of the stream, or an error for an empty, oversized or cut one |
| Framing.ConnReadLoop | internal/ucl/ucl_node_conn.go:149-159 | all frames up to the first failure, independent of chunking |
| Framing.ConnWriteWithSize | internal/ucl/ucl_node_conn.go:132-147 | the whole frame, or an error after a prefix of it; an empty message is an error |
| Framing.SendCommand | internal/ucl/ucl_node_conn.go:79-97 | magic code and both frames, or an error after a prefix of them |
| Framing.ReadCommand | internal/ucl/ucl_node_conn.go:59-77 | the command the stream starts with, and the stream after it |
| EnvVars.ConvertEnvVars | cmd/ucl-node/ucl_node.go:264-332 | the two loops compute the specified segments with their outermost quotes removed |
| EnvVars.QuotesComeOff | cmd/ucl-node/ucl_node.go:318-329 | a value between two double or two single quotes loses them, whatever it holds |
| EnvVars.OthersStay | cmd/ucl-node/ucl_node.go:318-329 | any other value stays as it is |
| EnvVars.SegmentsHaveEquals | cmd/ucl-node/ucl_node.go:318-329 | for every input each segment holds a '=', so the second pass never indexes out of range |
| EnvVars.Conservation | cmd/ucl-node/ucl_node.go:278-316 | the segments and the dropped key together are the input without its unquoted spaces |
| EnvVars.RoundTrip | cmd/ucl-node/ucl_node.go:264-332 | printed pairs, bare or in quotes of either kind, come back in order iff all but the last have the other kind of quote closed and no bare value is empty |
| ArgLine.MakeQtCmdParams | cmd/ucl-node/ucl_node.go:203-213 | appends the Qt flags and numbers as separate words |
| ArgLine.MakeSenderCmdParams | cmd/ucl-node/ucl_node.go:215-233 | appends the screen, one -n word pair per receiver in order, the name, then the application line |
| ArgLine.SenderExecComm | cmd/ucl-node/ucl_node.go:370-373 | the command line is the intended words joined by single spaces, then the application line |
| ArgLine.SplitJoins | internal/ucl/ucl_consistency_keeper.go:255-256 | splitting gives parts without spaces which, joined by spaces, are the text |
| ArgLine.ArgumentVector | internal/ucl/ucl_consistency_keeper.go:255-256 | splitting the line gives the intended words and the application's own iff command, name and addresses hold no space |
| ArgLine.WordsLayout | cmd/ucl-node/ucl_node.go:203-233 | which word stands where: command, -S and the surface, -L and the layer, -s and the screen, -n and ip:port of each receiver in order, --appli_name and the name |
| ArgLine.SizeRoundTrip | cmd/ucl-virtio-gpu-wl-send/ucl_virtio_gpu_wl_send.go:322-328 | the size parsed from the screen argument is the size printed into it, negative numbers included |
| ArgLine.ScreenExample | cmd/ucl-node/ucl_node.go:219-221 | numbers are decimal and stand in the order width, height, x, y |
| VirtualScreen.GetNodePort | internal/ucl/virtual_screen_def.go:186-195 | the port of the first framework entry of the node, none iff it has no entry |
| VirtualScreen.IsRecvCompositor | internal/ucl/virtual_screen_def.go:250-261 | true iff some compositor owns the port |
| VirtualScreen.GetFrameworkNode | internal/ucl/virtual_screen_def.go:263-279 | the loops compute the specified list of framework nodes |
| VirtualScreen.FrameworkNodesConcat | internal/ucl/virtual_screen_def.go:263-279 | that list goes host by host, so in the order of the hosts |
| VirtualScreen.HostIsListed | internal/ucl/virtual_screen_def.go:263-279 | a host is listed iff it has a framework entry, with the port of the first one |
| VirtualScreen.ReadAliasIp | internal/ucl/virtual_screen_def.go:281-297 | the loops build the specified alias map |
| VirtualScreen.AliasMapMeans | internal/ucl/virtual_screen_def.go:281-297 | each name stands for the address of its last host, with the port of that host's first framework entry, or 0 when it has none |
| VirtualScreen.GetNodeIdAndIpAddr | internal/ucl/virtual_screen_def.go:171-184 | the first host with the name and one of the addresses, or none |
| VirtualScreen.GetNodeAddr | internal/ucl/virtual_screen_def.go:197-223 | where a node listens; with unique names it is where the manager dials for its name |
| VirtualScreen.UniqueNamesAgree | internal/ucl/virtual_screen_def.go:263-297 | with unique host names, the alias of every framework node's name has that node's address and port |
| VirtualScreen.AliasMatchesFramework | internal/ucl/virtual_screen_def.go:263-297 | when names agree, in particular when they are unique, alias map and framework list give a launcher the same address and port |
| CommandSplit.GetConnectableNode | cmd/ucl-lifecycle-manager/ucl_lifecycle_manager.go:150-174 | the loop gathers the listed nodes that answer |
| CommandTheorems.AnsweringFilters | cmd/ucl-lifecycle-manager/ucl_lifecycle_manager.go:150-174 | these are the nodes that answer, in their order and as often as listed |
| CommandSplit.MJson.ExpandAliasNode | cmd/ucl-lifecycle-manager/ucl_lifecycle_manager.go:337-374 | each launcher that counts for the type is replaced by what its own name stands for, an unknown one by the zero node; nothing else changes |
| CommandSplit.ExpandsEachLauncher | cmd/ucl-lifecycle-manager/ucl_lifecycle_manager.go:337-374 | the same of the specification: sender, each receiver and local program by its own name |
| CommandSplit.ExpansionIsUnique | cmd/ucl-lifecycle-manager/ucl_lifecycle_manager.go:337-374 | that determines the result |
| CommandSplit.MJson.GetDistribNode | cmd/ucl-lifecycle-manager/ucl_lifecycle_manager.go:244-274 | exactly the launchers the command names, each once |
| CommandSplit.MJson.RemoveDisconnectNode | cmd/ucl-lifecycle-manager/ucl_lifecycle_manager.go:176-218 | accepts iff the sender's or local node is connectable and, of named receivers, at least one; keeps the connectable receivers, and changes nothing when it refuses |
| CommandSplit.ReducedIffCanRun | cmd/ucl-lifecycle-manager/ucl_lifecycle_manager.go:176-218 | the same of the specification: it accepts exactly the commands that can run, leaves a receiver if any were named, and touches nothing but the receivers |
| CommandSplit.MJson.SplitCommandForEachNode | cmd/ucl-lifecycle-manager/ucl_lifecycle_manager.go:276-335 | the commands of the specification, in order |
| CommandTheorems.SplitCorrect | cmd/ucl-lifecycle-manager/ucl_lifecycle_manager.go:220-335 | one command for the sender with every connectable receiver in order, one per launched receiver, one for the local program; each is addressed to the node of the sender, that receiver or the local program, which is connectable |
| CommandTheorems.ReceiversKeepOrder | cmd/ucl-lifecycle-manager/ucl_lifecycle_manager.go:293-320 | the receivers with a command of their own are the connectable ones, without those on a compositor's port unless launch_compositors runs, in the original order and as often as they occur |
| CommandTheorems.ConnectableFilters | cmd/ucl-lifecycle-manager/ucl_lifecycle_manager.go:190-197 | the filter keeps each connectable receiver as often as it occurs and no other |
| CommandTheorems.ConnectableSubsequence | cmd/ucl-lifecycle-manager/ucl_lifecycle_manager.go:190-197 | the filter keeps the original order |
| CommandTheorems.GenerateLaunchCompositorsComm | cmd/ucl-lifecycle-manager/ucl_lifecycle_manager.go:456-531 | nothing iff a port is missing, else the manageCompositors command, which launches every compositor of every framework node on its port from that node's host, and nothing else |
| CommandTheorems.EveryCompositorIsLaunched | cmd/ucl-lifecycle-manager/ucl_lifecycle_manager.go:464-510 | a receiver for each compositor with the name of the first host of its node, empty when there is none, and each receiver arises so |
| CommandTheorems.AllCompositorsConcat | cmd/ucl-lifecycle-manager/ucl_lifecycle_manager.go:464-510 | the receivers go framework node by framework node |
| CommandTheorems.CompositorsOfOne | cmd/ucl-lifecycle-manager/ucl_lifecycle_manager.go:464-510 | those of one node are its compositors in order, each once |
| CommandTheorems.PortsAreDivided | cmd/ucl-lifecycle-manager/ucl_lifecycle_manager.go:297-309 | an app run launches exactly the receivers whose port launch_compositors does not own |
| CommandTheorems.ExecutableIsDispatched | cmd/ucl-node/ucl_node.go:103-138 | when names agree, an app listed for answering nodes passes the filter undiminished iff it is local or has a receiver |
| CommandTheorems.DispatchedIsListed | cmd/ucl-node/ucl_node.go:94-138 | conversely, an app with sender and receivers, or a local one, that passes undiminished is listed, if nothing answers on port 0 |
| CommandTheorems.DisagreementBreaksDispatch | internal/ucl/virtual_screen_def.go:281-297 | when they do not, some local app is listed and its dispatch fails |
| CommandTheorems.ReliableIffNamesAgree | cmd/ucl-node/ucl_node.go:103-138 | the list can be relied on for all apps and all reachabilities iff names agree |
| CommandTheorems.DuplicateNamesBreakDispatch | internal/ucl/virtual_screen_def.go:281-297 | with a duplicated host name a listed app can fail to be dispatched |
| CommandTheorems.PrepareDispatch | cmd/ucl-lifecycle-manager/ucl_lifecycle_manager.go:655-679 | the pipeline from app.json to commands: with names expanded and unreachable nodes dropped it succeeds iff the command can run, and gives exactly the commands of the split, each for a node that answers; when names agree it succeeds for listed apps iff they are local or have a receiver |
| CardIndex.FileSystem.ReserveRvgpuIndex | cmd/ucl-virtio-gpu-wl-send/ucl_virtio_gpu_wl_send.go:213-241 | the lowest card without a device, alone in the index file; -1 iff there is none or a system call fails |
| CardIndexRuns.UniqueCards | cmd/ucl-virtio-gpu-wl-send/ucl_virtio_gpu_wl_send.go:340-395 | two running senders past waitRvgpuDevices have different cards below 65 |
| CardIndexRuns.RunningHasAllDevices | cmd/ucl-virtio-gpu-wl-send/ucl_virtio_gpu_wl_send.go:64-83 | a running sender has all five devices of its card |
| CardIndexRuns.OneHolder | cmd/ucl-virtio-gpu-wl-send/ucl_virtio_gpu_wl_send.go:340-395 | one sender at a time is between taking the lock and having found its devices |

## Left out

- gRPC, the generated stubs, the client wrappers and the C library: thin calls.
- JSON encoding and decoding, and commands whose members do not fit their type: the source panics on those (`WellFormed`, `Raw`, `Expanded` are what it demands), except on a local command whose receivers all belong to compositors.
- The members of the JSON objects that are only carried along: kept as one string `body`.
- Real sockets, dialling with its retries, signals other than SIGTERM, and the random number of the magic code: an arbitrary code per worker, outcomes as environment steps.
- ConnReadLoop goroutines left behind on a full receive channel once their handler has gone: nothing waits for them.
- Goroutine creation order: all goroutines of a task exist from the step that spawns them, each before its first action.
- waitProcess reaping and cancelling are one step; the window between them has no other effect.
- A frame partly written when a write fails is lost as a whole in the launch model.
- LaunchProtocol.Greet: does not order the magic code among the node's frames; a frame that comes first is GreetFail.
- Lifetime claims about a removed registry entry: its remote processes need not be dead yet.
- getRunningAppFromCommTaskCtxMap, the executable-app listing over directories, getAppInfoFromNode: formatting and collection; the last one may never reply.
- CommandTheorems.GenerateLaunchCompositorsComm: does not state the scan-out size, surface id and socket name of each receiver, which later steps only carry along, nor the panic on a compositor without virtual displays.
- RegistryRuns.Event: the targets of a dispatched launch are arbitrary, not tied to the commands of CommandTheorems.PrepareDispatch.
- CardIndexRuns.UniqueCards: assumes the device file a running sender has found stays while it runs; real device creation is the environment's.
- Strings are sequences of characters: invalid UTF-8, which the source's range loop replaces, is not modelled.
- Logging, flags, usage texts, Makefiles, the compositor and receiver launchers.
