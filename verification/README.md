# QCNode: a verified model

QCNode is a hardware abstraction layer for perception pipelines. This project models the parts of it whose behaviour is
decided by visible code, in Dafny 4.11, and proves what they are for. `dafny verify dfyconfig.toml` checks everything.

Each part comes as a specification on values (`*Spec`, `*Format`), proofs about it (`*Proofs`), and, where the source
changes objects or buffers step by step, a class or a method with loops that is proved against the specification.

| part | files | what is proved |
|---|---|---|
| Local memory manager | `MemorySpec`, `MemoryProofs`, `MemoryCalls`, `MemoryPools`, `ManagerLocal` | Over every run of one life: the registry is injective, the buffers out are exactly the disjoint union of the nodes' sets, and each node has exactly the pools made for it and not removed since. What each call answers, and what a reclaim, an UnRegister and a DeInitialize do for every answer of the allocators. |
| Video buffers | `VidcBufferSpec`, `VidcBufferProofs`, `VidcDrvClient` | For every interleaving of threads, ioctls, done events and registrations: no double submission, one answer per accepted submission with its own data, no growth past the negotiated count. It takes that no buffer is registered while in flight, which is the exact condition. |
| Video node life cycle | `VidcLifecycleSpec`, `VidcLifecycleProofs`, `VidcFatalProofs`, `VidcLives`, `VidcFailures`, `VidcNodeBase` | For every interleaving of API calls with the event thread, at each single read and write of the state: exactly when a frame is accepted, what every message leads to, exactly when a fatal error stays, and exactly how a Stop that races with its response ends. Whole lives in which every call succeeds, and how each call fails. |
| Inference cluster | `ClusterSpec`, `ClusterProofs`, `ClusterFifo`, `ClusterInputs`, `InferenceCluster` | For every batch, number of workers and interleaving, from whatever earlier calls have left in the queues: which reply answers which item, termination, no wait in vain, and exactly when the queues end up clean. From the inputs to the result: row by row. |
| Colour converters | `ColourSpec`, `ColourConvert`, `ColourProofs`, `ColourUyvy`, `ColourBt601` | Coverage, bounds and contents of the flat block loop; every byte lies within one step of ITU-R BT.601; the 10-bit output refines the 8-bit one. |
| Trace file | `Bytes`, `TraceFormat`, `TraceProofs`, `ByteLayouts`, `NodeTrace`, `TraceRepair`, `TraceRows`, `Systrace` | Where every byte lies; round trip of whole traces and how files fail to parse; begin/end repair of every file, row by row and exactly where needed. |
| DataTree | `DataTreeSpec`, `DataTreeProofs`, `DataTree` | Lens laws for dotted keys, when Set throws, and that a throwing Set changes nothing although it writes through a pointer. |
| Wire format | `WireFormat`, `WireProofs`, `ByteLayouts`, `DataOnline` | Where every field lies; round trip of messages under every segmentation and exactly which payloads are malformed; consecutive messages stay framed. |
| Image layout | `ImageLayoutSpec`, `ImageLayoutProofs`, `ImageAccepted`, `ImageDescriptor` | Which properties are accepted, format by format; when a conversion to a tensor moves no sample, when sizes add up, and that slices tile a batch, in the source's 32- and 64-bit arithmetic. |
| FADAS service | `FadasSpec`, `FadasProofs`, `FadasSlots`, `FadasCounts`, `FadasSrv` | Over every run of any number of clients, with an own answer for each call of the library: use count, initialisation and registration cache agree; exactly when the library holds what the cache says; a conservation law for the calls, and exactly when all that was registered was taken back. |

Everything the code cannot decide is a parameter or a free step: answers of allocators, ioctls and libraries, random
numbers, clocks, how many bytes a socket delivers, the order in which threads run. The manager's and the service's locks
make their calls atomic steps; the video and cluster models interleave at the level of queue operations, critical
sections, and single reads and writes of the node state.

In the life cycle, API calls are made by one application thread at a time, while frames may be submitted by any thread
at any time. A returned `Fail` stands for FAIL or TIMEOUT. A failing Initialize writes Error once or more often, which
is left open. In the service, a buffer counts as held from the first accepted call that registers a part of it until
all calls to take it back were accepted; a stop of the library is not taken to release buffers. `FillBuffer` resets the
flag after a refused ioctl without its lock (source/Library/VideoCodec/VidcDrvClient.cpp:817), as `SetBuffer` writes
its entries; both are single steps here, which is what they are as long as no two threads touch the map's structure at
once.

## What the proofs found

- `ReclaimResources` stops freeing at the first `Free` that answers Fail, because that puts the manager into the Error
  state which the public methods test; the pools then stay as well (`MemoryProofs.ReclaimIs`). The capacity test in
  `Register` decides nothing (`MemoryProofs.RegisterIs`).
- `SetBuffer` clears the flags of the buffers it registers: safe exactly when none of them is in flight; every other
  registration lets the driver be given a handle that it holds (`VidcBufferProofs.RegisterKeepsIff`,
  `RegisteredInFlightIff`). The output reconfiguration of a decoder in static mode is such an occasion
  (`DoubleSubmissionAfterSetBuffer`).
- A handle submitted again in dynamic mode with another buffer keeps the first buffer in its entry: the callback for an
  input reports that one (`CallbackDescriptor`, `StaleDescriptor`), and an output frame ends in an error event, because
  the addresses differ (`VidcDrvClient.OutputDone`).
- A refused DeInitialize, and a refused second Initialize, put the node into Error, so a running encoder stops accepting
  frames (`VidcLifecycleProofs.RefusedDeInitialize`, `RefusedInitialize`).
- The callback tests the state and writes it without a lock. A start response that is tested in time and written too
  late overwrites the Error of a Start that has failed, and frames are accepted (`LateStart`); `EncoderAcceptsIff` says
  exactly when.
- The decoder's own `EventCallback` enters Running from any state, also after a fatal error (`DecoderAcceptsIff`,
  `DecoderRunsAfterFatal`).
- A fatal error stays, short of a DeInitialize, exactly from the places that `VidcFatalProofs.FatalKeptIff` names. A
  Start that has made its test loses it with its next write, one that has entered does not; a Stop under way loses it
  exactly when it goes on to return Ok (`FatalLostIff`; a run in `FatalLostInStop`).
- A response to a Stop that is tested after Stop's own last write leads to Error although the caller got Ok; one that is
  tested before and written after makes a failed Stop end in Ready (`StopRaceIff`, `ResponseIs`; runs in `StopRace`).
- When a reply lacks an output, `Execute` raises and leaves work in the queues unless it was the last reply; items of
  that worker are then answered with replies to older ones in every later call, and the queues never become clean again
  (`ClusterProofs.AbortLeavesWork`, `AbortRun`, `StaleReply`, `ClusterFifo.AnsweredIff`, `CleanIff`).
- A tree that is set into itself holds what it was with the nodes made on the way (`DataTreeProofs.SetIntoItself`).
- The 32-bit products in `ImageToTensor` let through images whose samples move; the stride of the chroma plane is not
  checked at all (`ImageLayoutProofs.ImageToTensorMovesNothing`, `ChromaMovesNothing`). Sizes and plane sizes disagree
  exactly when a computed plane size exceeds 32 bits (`SizeAddsUp`). Accepted inputs of each kind: `WideImageMoves`,
  `WideLumaMoves`, `PaddedChromaMoves`, `LargePlaneIsLost`.
- `Read` that rejects a header leaves the payload in the stream (`DataOnlineModule.RejectedMessageFraming`). The header
  field that `Write` means to set is misspelt there; the command is zero, which is the intended value.
- The result of registering the first plane of an NV12 input is overwritten by that of the second
  (`FadasProofs.RefusedPlaneIsMissed`). The other way round, and whenever a batch is refused after its first element,
  the accepted part stays registered although the caller is told that it was refused (`PartIsLeftBehind`,
  `PlaneLeftBehindRun`); a null buffer is never taken back (`NullIsNeverTakenBack`, `NullStays`).
- An NV12 input is registered by two calls and taken back by one, so a plane stays registered although every call was
  accepted (`FadasCounts.AllTakenBack`, `SecondPlaneStays`); an input that is a batch would be taken back more often
  than registered (`BatchTakenBackTwice`).
- A library that starts but does not tell its version is started again (`StartedTwiceRun`).

## Model

| member | source | states |
|---|---|---|
| MemoryManagerLocal.ManagerLocal.Initialize | source/Infras/Memory/ManagerLocal.cpp:23-64 | One life starts from the Initial state with as many empty nodes as configured; every other state or a bad configuration is refused. |
| MemoryManagerLocal.ManagerLocal.IsNodeIdUnique | source/Infras/Memory/ManagerLocal.cpp:908-923 | The scan of the registry answers whether the id is taken, without changing anything. |
| MemoryManagerLocal.ManagerLocal.Register | source/Infras/Memory/ManagerLocal.cpp:127-223 | The object's new state and status are those of the specification for every random handle. |
| MemoryManagerLocal.ManagerLocal.CreatePool | source/Infras/Memory/ManagerLocal.cpp:291-413 | The pool enters the map of the handle's node, or nothing does and the status says why. |
| MemoryManagerLocal.ManagerLocal.DestroyPool | source/Infras/Memory/ManagerLocal.cpp:415-478 | Exactly the named pool leaves the map of its node. |
| MemoryManagerLocal.ManagerLocal.AllocateBuffer | source/Infras/Memory/ManagerLocal.cpp:596-672 | A buffer the allocator handed out is noted in the node's set, and only then. |
| MemoryManagerLocal.ManagerLocal.FreeBuffer | source/Infras/Memory/ManagerLocal.cpp:674-734 | A buffer leaves the set exactly when its allocator accepts it back; a Fail answer leads to the Error state. |
| MemoryManagerLocal.ManagerLocal.FreeNodeBuffers | source/Infras/Memory/ManagerLocal.cpp:774-823 | The first reclaim loop visits each buffer of a copy once, while the calls inside erase from the set itself. |
| MemoryManagerLocal.ManagerLocal.DestroyNodePools | source/Infras/Memory/ManagerLocal.cpp:825-878 | The second reclaim loop visits each pool of a copy once. |
| MemoryManagerLocal.ManagerLocal.ReclaimResources | source/Infras/Memory/ManagerLocal.cpp:737-889 | It terminates and does what the specification says for some order of the two walks. |
| MemoryManagerLocal.ManagerLocal.UnRegister | source/Infras/Memory/ManagerLocal.cpp:225-287 | The handle goes exactly when the reclaim succeeded; a failed reclaim leads to the Error state. |
| MemoryManagerLocal.ManagerLocal.ReclaimRegistered | source/Infras/Memory/ManagerLocal.cpp:90-103 | The loop of DeInitialize reclaims every registered handle once. |
| MemoryManagerLocal.ManagerLocal.DeInitialize | source/Infras/Memory/ManagerLocal.cpp:76-124 | The end of a life: all nodes reclaimed, the vectors emptied, the registry left as it is. |
| MemoryProofs.RegisterIs | source/Infras/Memory/ManagerLocal.cpp:127-223 | Register succeeds if and only if the type is valid, the id is free and in range, and the handle is new; the size test never decides. |
| MemoryProofs.Pigeonhole | source/Infras/Memory/ManagerLocal.cpp:127-223 | An injective registry into the node ids never exceeds their number. |
| MemoryProofs.FreeAllIs | source/Infras/Memory/ManagerLocal.cpp:774-823 | Which buffers the first reclaim loop gives back, for every sequence of answers. |
| MemoryProofs.DestroyAllIs | source/Infras/Memory/ManagerLocal.cpp:825-878 | What the second loop removes, depending on the state the first one left. |
| MemoryProofs.ReclaimIs | source/Infras/Memory/ManagerLocal.cpp:737-889 | A reclaim succeeds if and only if the allocators accept every buffer of the node; then both its sets are empty, each buffer was freed once, and nothing else changed; otherwise exactly what is left. |
| MemoryProofs.UnRegisterFreesId | source/Infras/Memory/ManagerLocal.cpp:225-287 | After a successful UnRegister the id can be registered again, unless the random handle collides, and the invariant holds. |
| MemoryProofs.DeInitializeIs | source/Infras/Memory/ManagerLocal.cpp:76-124 | DeInitialize succeeds if and only if every live buffer is accepted; then none is live and each was freed as often as handed out. |
| MemoryProofs.ApplyKeeps | source/Infras/Memory/ManagerLocal.cpp:127-734 | Every call keeps registry, pool, holder and ledger invariants. |
| MemoryProofs.Safety | source/Infras/Memory/ManagerLocal.cpp:127-413 | Every reachable state of one life satisfies the invariant: injective registry below numOfNodes, pools of registered nodes within the bound, live buffers the disjoint union of the sets. |
| MemoryProofs.NoLeak | source/Infras/Memory/ManagerLocal.cpp:76-124 | Whatever the life was, a DeInitialize that returns OK leaves no live buffer. |
| MemoryPools.PoolsConserved | source/Infras/Memory/ManagerLocal.cpp:291-478 | Over every run of one life, a node has exactly the pools whose memory handle is registered to it and that were made and neither destroyed nor dropped by a reclaim since. |
| MemoryPools.StandsIs | source/Infras/Memory/ManagerLocal.cpp:291-478 | The same in terms of when pools were made and removed. |
| MemoryPools.CallPools | source/Infras/Memory/ManagerLocal.cpp:127-889 | What each call does to the pools of all nodes. |
| MemoryCalls.InitializeIs | source/Infras/Memory/ManagerLocal.cpp:23-64 | Exactly when a life starts, and with what. |
| MemoryCalls.RegisterRefusals | source/Infras/Memory/ManagerLocal.cpp:127-223 | Which refusal Register gives, and the fields of the handle it makes. |
| MemoryCalls.CreatePoolIs | source/Infras/Memory/ManagerLocal.cpp:291-413 | Exactly when a pool is made, and the answer otherwise. |
| MemoryCalls.CreatePoolAdds | source/Infras/Memory/ManagerLocal.cpp:291-413 | The node keeps its pools and has one more; other nodes keep theirs; the sequence number is used up. |
| MemoryCalls.DestroyPoolIs | source/Infras/Memory/ManagerLocal.cpp:415-478 | Exactly when a pool is destroyed, and that no other goes. |
| MemoryCalls.UsePoolIs | source/Infras/Memory/ManagerLocal.cpp:480-594 | The answer of the pool decides; nothing else changes. |
| MemoryCalls.AllocateIs | source/Infras/Memory/ManagerLocal.cpp:596-672 | Exactly when a buffer is handed out, and which node has it. |
| MemoryCalls.FreeIs | source/Infras/Memory/ManagerLocal.cpp:674-734 | Exactly when a buffer is taken back, and that no other goes. |
| MemoryCalls.UnRegisterIs | source/Infras/Memory/ManagerLocal.cpp:225-287 | UnRegister succeeds if and only if the manager is ready, the handle registered and every buffer of its node accepted. |
| MemoryCalls.ReclaimTells | source/Infras/Memory/ManagerLocal.cpp:737-889 | A failing reclaim answers what the last refused Free answered, or BAD_STATE when the pools are refused after a Fail. |
| MemoryCalls.EndsAre | source/Infras/Memory/ManagerLocal.cpp:76-124 | What a reclaim of an unknown handle and a DeInitialize in any state do. |
| VidcBufferProofs.MarkIs | source/Library/VideoCodec/VidcDrvClient.cpp:657-708 | When the critical section accepts a submission, and that it then changes that entry only. |
| VidcBufferProofs.MarkStores | source/Library/VideoCodec/VidcDrvClient.cpp:657-792 | Which time stamp and mark data an accepted submission stores, by direction and mode. |
| VidcBufferProofs.DoneIs | source/Library/VideoCodec/VidcDrvClient.cpp:972-1020 | A done event clears one flag and copies that entry; an unknown handle changes nothing; registering stores the buffer as given. |
| VidcBufferProofs.RegisterKeepsIff | source/Library/VideoCodec/VidcDrvClient.cpp:538-582 | Registering a buffer keeps the invariant if and only if it is not in flight. |
| VidcBufferProofs.StepKeeps | source/Library/VideoCodec/VidcDrvClient.cpp:520-830 | Every step of a thread or of the driver, and every registration of a buffer not in flight, keeps the invariant. |
| VidcBufferProofs.Safety | source/Library/VideoCodec/VidcDrvClient.cpp:520-830 | Over every interleaving that registers no buffer in flight, a flag is set exactly while its handle is being submitted or held, and the map never outgrows the negotiated count. |
| VidcBufferProofs.NoDoubleSubmission | source/Library/VideoCodec/VidcDrvClient.cpp:960-1049 | The driver gets and returns each handle in strict alternation. |
| VidcBufferProofs.OneAnswerEach | source/Library/VideoCodec/VidcDrvClient.cpp:972-995 | Each accepted input submission has at most one answer, with its own mark data and its time rounded down to a microsecond. |
| VidcBufferProofs.AnswersStay | source/Library/VideoCodec/VidcDrvClient.cpp:972-995 | The answer stays the same when the handle is submitted again before the callback. |
| VidcBufferProofs.SetBufferSafe | source/Library/VideoCodec/VidcDrvClient.cpp:520-586 | SetBuffer as a whole keeps the flags right if and only if no registered buffer is in flight. |
| VidcBufferProofs.RegisteredInFlightIff | source/Library/VideoCodec/VidcDrvClient.cpp:520-586 | After a registration there is a way to go on, without further ones, to a thread that gives the driver a handle it holds, if and only if the buffer was in flight. |
| VidcBufferProofs.DoubleSubmissionAfterSetBuffer | source/Node/VideoDecoder/VideoDecoder.cpp:369-429 | On every idle output port in static mode, the steps of an output reconfiguration give the driver a handle twice without a return. |
| VidcBufferProofs.CallbackDescriptor | source/Library/VideoCodec/VidcDrvClient.cpp:657-708 | The callback gets the descriptor of the submission, time rounded, if and only if that describes the buffer of the handle's entry. |
| VidcBufferProofs.StaleDescriptor | source/Library/VideoCodec/VidcDrvClient.cpp:661-674 | A run in dynamic mode whose second callback reports the buffer of the first submission. |
| VidcBufferProofs.EntriesStay | source/Library/VideoCodec/VidcDrvClient.cpp:657-708 | Between registrations no entry comes to describe another buffer, and every answer describes that of its entry. |
| VidcBufferProofs.NegotiateIs | source/Library/VideoCodec/VidcDrvClient.cpp:385-440 | After a successful negotiation client and driver agree on a count that is at least the requested one. |
| VidcDrvClientModule.VidcDrvClient.MarkInput | source/Library/VideoCodec/VidcDrvClient.cpp:657-708 | The locked section changes the input map as specified. |
| VidcDrvClientModule.VidcDrvClient.MarkOutput | source/Library/VideoCodec/VidcDrvClient.cpp:743-792 | The same for the output map. |
| VidcDrvClientModule.VidcDrvClient.EmptyBuffer | source/Library/VideoCodec/VidcDrvClient.cpp:630-731 | Marking, ioctl and the reset after a refused ioctl, as one call. |
| VidcDrvClientModule.VidcDrvClient.FillBuffer | source/Library/VideoCodec/VidcDrvClient.cpp:733-830 | The same for output buffers. |
| VidcDrvClientModule.VidcDrvClient.InputDone | source/Library/VideoCodec/VidcDrvClient.cpp:960-996 | A done event clears the flag and hands the callback a copy of the entry, if there is one. |
| VidcDrvClientModule.VidcDrvClient.OutputDone | source/Library/VideoCodec/VidcDrvClient.cpp:997-1056 | The output side: the callback comes if and only if the driver names the address of the entry, and gets the entry with the driver's size, mark data, time stamp, flags and frame type. |
| VidcDrvClientModule.VidcDrvClient.SetBuffer | source/Library/VideoCodec/VidcDrvClient.cpp:520-586 | For either direction the loop registers buffers until an ioctl fails, and leaves the other direction alone. |
| VidcDrvClientModule.VidcDrvClient.NegotiateBufferReq | source/Library/VideoCodec/VidcDrvClient.cpp:385-440 | For either direction: status, the count that is noted and handed back, and the size the driver reported. |
| VidcLifecycleProofs.StepKeeps | source/Library/VideoCodec/VidcNodeBase.cpp:158-294 | Every read and write of an API call or of the event thread keeps: pausing states are never written, Starting by Start only, Running only after a test that found the Starting of a Start (or by the decoder's two messages), with what may have been written since. |
| VidcLifecycleProofs.Safety | source/Library/VideoCodec/VidcNodeBase.cpp:712-800 | The same over every interleaving. |
| VidcLifecycleProofs.EncoderAcceptsIff | source/Library/VideoCodec/VidcNodeBase.cpp:379-413 | Over every interleaving an encoder accepts a frame if and only if the last write of its state acknowledged a Start; that Start was still under way if and only if nothing was written between the callback's test and its write, and had failed otherwise. |
| VidcLifecycleProofs.DecoderAcceptsIff | source/Library/VideoCodec/VidcNodeBase.cpp:379-413 | The same for a decoder, which also accepts frames after its two start-done messages. |
| VidcLifecycleProofs.EntersRunningIff | source/Library/VideoCodec/VidcNodeBase.cpp:712-800 | When a callback is about to write Running, for both kinds of node; Resuming is unreachable. |
| VidcLifecycleProofs.RefusedDeInitialize | source/Library/VideoCodec/VidcNodeBase.cpp:236-294 | DeInitialize is refused exactly outside Ready and Error; the refused call puts the node into Error. |
| VidcLifecycleProofs.RefusedInitialize | source/Node/VideoEncoder/VideoEncoder.cpp:325-335 | Initialize of a node that is not new is refused and puts it into Error. |
| VidcLifecycleProofs.Initializes | source/Node/VideoEncoder/VideoEncoder.cpp:134-335 | A run from a new encoder to the end of a successful Initialize. |
| VidcLifecycleProofs.LateStart | source/Library/VideoCodec/VidcNodeBase.cpp:712-800 | A run from a new encoder to one that accepts frames although its Start failed. |
| VidcLifecycleProofs.DecoderRunsAfterFatal | source/Node/VideoDecoder/VideoDecoder.cpp:546-570 | A run in which a decoder accepts frames after a fatal error. |
| VidcFatalProofs.FatalKeptIff | source/Library/VideoCodec/VidcNodeBase.cpp:712-724 | Over every run of either kind of node, the Error written for a fatal error stays, whatever happens short of a DeInitialize (and of a decoder's start-done message), if and only if the application is then at one of the places named. |
| VidcFatalProofs.FatalLostIff | source/Library/VideoCodec/VidcNodeBase.cpp:158-234 | Over every run after it, a Start or Stop between test and first write loses the Error with its next write; a Stop under way loses it if and only if it goes on to return Ok; a call that tests later, or a Start that has entered, never does. |
| VidcFatalProofs.StartAndStop | source/Library/VideoCodec/VidcNodeBase.cpp:158-234 | Inside Start and Stop, the Error stays exactly from a Start that has entered or a call that has given up; all other places are those of the row above. |
| VidcFatalProofs.ResponseIs | source/Library/VideoCodec/VidcNodeBase.cpp:712-800 | Over every run, in terms of what was written before the test: the responses to load, start, stop and release lead to Ready, Running, Ready and Initial if and only if the entering write of their own call was the last one, and to Error otherwise; all other messages by table. |
| VidcFatalProofs.EveryMessageIsAnswered | source/Library/VideoCodec/VidcNodeBase.cpp:712-800 | Every message that concerns the state is answered, whatever the state is. |
| VidcLives.LifeRuns | source/Library/VideoCodec/VidcNodeBase.cpp:158-294 | For either kind of node a run from a new node through Initialize, Start, Stop and DeInitialize, each returning Ok, to Initial. |
| VidcLives.InitializeRuns | source/Node/VideoEncoder/VideoEncoder.cpp:134-335 | From any node in Initial, Initialize can succeed. |
| VidcLives.StartRuns | source/Library/VideoCodec/VidcNodeBase.cpp:158-199 | From any node that is ready, Start can succeed, on the response of its kind. |
| VidcLives.ReconfigureRuns | source/Node/VideoDecoder/VideoDecoder.cpp:369-411 | A running decoder can be reconfigured and keeps running. |
| VidcLives.StopRuns | source/Library/VideoCodec/VidcNodeBase.cpp:201-234 | From any node that runs, Stop can succeed; a decoder drains, then stops input and output. |
| VidcLives.DeInitializeRuns | source/Library/VideoCodec/VidcNodeBase.cpp:236-294 | From any node that is ready, DeInitialize can succeed: its release response, tested in DeInitializing, leads to Initial. |
| VidcFailures.ReceiveIs | source/Library/VideoCodec/VidcDrvClient.cpp:934-1110 | Which messages complete a command, reach the callback of the node, or note the drain. |
| VidcFailures.ReconfigureIs | source/Node/VideoDecoder/VideoDecoder.cpp:369-411 | A reconfiguration forgets the completed command once its start was issued, and leads to Error when it fails. |
| VidcFailures.NothingStale | source/Library/VideoCodec/VidcDrvClient.cpp:832-860 | What was completed or drained before a command does not count for it. |
| VidcFailures.AcceptsIff | source/Library/VideoCodec/VidcNodeBase.cpp:379-413 | A frame is accepted if and only if the node runs and the frame has a buffer and, if demanded, a size. |
| VidcFailures.ReleasesFromError | source/Library/VideoCodec/VidcNodeBase.cpp:236-294 | DeInitialize of a node in Error frees its buffers and ends in Initial, or in Error when they are refused, for each of its three callers. |
| VidcFailures.ReleaseFails | source/Library/VideoCodec/VidcNodeBase.cpp:243-262 | A release that is refused, not answered or not seen ends in Error. |
| VidcFailures.ThirdTest | source/Library/VideoCodec/VidcNodeBase.cpp:240-249 | A response written between its tests makes DeInitialize release the resources after all. |
| VidcFailures.GivesUp | source/Node/VideoEncoder/VideoEncoder.cpp:325-335 | A failing Initialize deinitialises the node if its base class was initialised, leaves Error and answers with its status. |
| VidcFailures.PostFails | source/Library/VideoCodec/VidcNodeBase.cpp:434-460 | A failed PostInit deinitialises the node itself before that. |
| VidcFailures.ConfigRefused | source/Node/VideoEncoder/VideoEncoder.cpp:134-165 | A bad configuration is refused in any state. |
| VidcFailures.OnlyFromInitial | source/Library/VideoCodec/VidcNodeBase.cpp:24-47 | Only a node in Initial is initialised; any other is told BAD_STATE. |
| VidcFailures.InitializeFails | source/Node/VideoEncoder/VideoEncoder.cpp:134-335 | Where each of the other failures of Initialize leads. |
| VidcFailures.StartStopRefused | source/Library/VideoCodec/VidcNodeBase.cpp:158-234 | Start is refused exactly outside Ready and Stop exactly outside Running, without a write. |
| VidcFailures.StartStopFails | source/Library/VideoCodec/VidcNodeBase.cpp:158-234 | A command that is refused or not answered, or a state not seen in time, ends the call with Error and a failure. |
| VidcFailures.DrainMissing | source/Library/VideoCodec/VidcDrvClient.cpp:832-860 | A decoder whose last frame comes without a drain since does not stop. |
| VidcFatalProofs.StopRaceIff | source/Library/VideoCodec/VidcNodeBase.cpp:201-234 | For every interleaving of the rest of a Stop with its response, the node ends in Error if and only if the response was tested after Stop's own last write, or Stop gave up and wrote last. |
| VidcFatalProofs.StopRace | source/Library/VideoCodec/VidcNodeBase.cpp:201-234 | Three runs from a new encoder: Ok and Error, Ok and Ready, Fail and Ready. |
| VidcFatalProofs.FatalLostInStop | source/Library/VideoCodec/VidcNodeBase.cpp:201-234 | A run from a new encoder in which a Stop overwrites a fatal error, returns Ok and leaves the node Ready. |
| VidcNodeBaseModule.VidcNodeBase.EventCallback | source/Library/VideoCodec/VidcNodeBase.cpp:712-800 | What is written after the test, by the table of transitions: the expected state leads on, any other to Error. |
| VidcNodeBaseModule.VidcNodeBase.Start | source/Library/VideoCodec/VidcNodeBase.cpp:158-199 | With the event thread running between any two accesses, the call is a run of the model with the returned status; a failed one leaves Error. |
| VidcNodeBaseModule.VidcNodeBase.Stop | source/Library/VideoCodec/VidcNodeBase.cpp:201-234 | The same; success leaves Ready, and failure Error. |
| VidcNodeBaseModule.VidcNodeBase.DeInitialize | source/Library/VideoCodec/VidcNodeBase.cpp:236-294 | The same with its three tests; success leaves Initial, and anything else, a refusal included, Error. |
| VidcNodeBaseModule.VidcNodeBase.Initialize | source/Node/VideoEncoder/VideoEncoder.cpp:134-335 | The same, with the clean-up of a failed one; anything but success leaves Error. |
| VidcNodeBaseModule.VidcNodeBase.WaitForState | source/Library/VideoCodec/VidcNodeBase.cpp:415-432 | The polling loop ends, by a read that finds the state or by giving up. |
| VidcNodeBaseModule.VidcNodeBase.StopDecoder | source/Library/VideoCodec/VidcDrvClient.cpp:832-899 | Drain, stop of the input and stop of the output, each waited for, are the steps of the model. |
| VidcNodeBaseModule.VidcNodeBase.ValidateFrameSubmission | source/Library/VideoCodec/VidcNodeBase.cpp:379-413 | A frame is accepted if and only if the node runs and the frame has a buffer and, where demanded, a size. |
| ClusterProofs.StepKeeps | scripts/utils/data_online/online_inference_cluster.py:27-75 | Every queue operation keeps: each worker holds exactly the items it owes, oldest first. |
| ClusterProofs.Safety | scripts/utils/data_online/online_inference_cluster.py:27-75 | The same over every interleaving. |
| ClusterProofs.MergeAllIs | scripts/utils/data_online/online_inference_cluster.py:65-75 | Gathering concatenates each output of all replies in order, and raises if and only if a later reply lacks an output of the first. |
| ClusterProofs.StepCounts | scripts/utils/data_online/online_inference_cluster.py:27-75 | Every step uses up one of four operations per item, so every run ends. |
| ClusterProofs.WaitIsOwed | scripts/utils/data_online/online_inference_cluster.py:67-69 | A worker that Execute waits for holds the awaited item, and some step is possible. |
| ClusterProofs.FinishedClean | scripts/utils/data_online/online_inference_cluster.py:65-75 | When everything is gathered all queues are empty. |
| ClusterProofs.ExecuteInOrder | scripts/utils/data_online/online_inference_cluster.py:34-75 | The whole call: input order, bounded length, progress and clean queues for every interleaving. |
| ClusterProofs.AbortLeavesWork | scripts/utils/data_online/online_inference_cluster.py:72-74 | After a missing output the queues are clean if and only if it was the last reply. |
| ClusterProofs.AbortRun | scripts/utils/data_online/online_inference_cluster.py:65-75 | A run to a missing output with a request left in the queue. |
| ClusterProofs.StaleReply | scripts/utils/data_online/online_inference_cluster.py:65-75 | The next call is then answered with the reply to that old request, and leaves its own behind. |
| ClusterProofs.ServedIs | scripts/utils/data_online/online_inference_cluster.py:65-75 | Taking replies until there are no more or an output is missing gives what all of them give, and tells how many were taken. |
| ClusterProofs.SessionInOrder | scripts/utils/data_online/online_inference_cluster.py:34-75 | Calls in a row, each gathering all its replies, do not mix: each result merges the replies to its own items in order. |
| ClusterFifo.TakesHead | scripts/utils/data_online/online_inference_cluster.py:34-75 | Over every run from any queues, the reply Execute takes for an item is the one at the head of its worker's line of old and new requests. |
| ClusterFifo.HeadIs | scripts/utils/data_online/online_inference_cluster.py:67-69 | The awaited worker holds that request, and some step is possible. |
| ClusterFifo.AnsweredIff | scripts/utils/data_online/online_inference_cluster.py:34-75 | An item is answered by its own reply if and only if its worker had nothing left from earlier calls; otherwise by an older one. |
| ClusterFifo.CleanAnswers | scripts/utils/data_online/online_inference_cluster.py:34-75 | From clean queues every item is answered by its own reply. |
| ClusterFifo.CleanIff | scripts/utils/data_online/online_inference_cluster.py:34-75 | The queues are clean after a call if and only if they were before and it took all its replies. |
| ClusterFifo.StaysStale | scripts/utils/data_online/online_inference_cluster.py:34-75 | What a call leaves is old by the next one, and nothing else is in the queues. |
| ClusterFifo.PutGoes | scripts/utils/data_online/online_inference_cluster.py:41-50 | Item i is queued to worker i modulo their number, behind what is there, and nowhere else. |
| ClusterInputs.SplitIs | scripts/utils/data_online/online_inference_cluster.py:37-50 | A call is refused exactly when there are no inputs or their lengths differ; otherwise item i is row i of every input, in order. |
| ClusterInputs.SplitJoined | scripts/utils/data_online/online_inference_cluster.py:37-50 | Batches joined row by row split into the items of the one and then of the other. |
| ClusterInputs.MergedRows | scripts/utils/data_online/online_inference_cluster.py:65-75 | Replies with one row each are merged into those rows, in order. |
| ClusterInputs.RowByRow | scripts/utils/data_online/online_inference_cluster.py:34-75 | From clean queues, row i of a merged output is computed from row i of every input, for every i below the common length. |
| InferenceCluster.OnlineInferenceCluster.WorkerStep | scripts/utils/data_online/online_inference_cluster.py:27-32 | One operation of a worker thread is a step of the model. |
| InferenceCluster.OnlineInferenceCluster.AwaitReply | scripts/utils/data_online/online_inference_cluster.py:67-69 | The blocking get ends with a reply in the queue. |
| InferenceCluster.OnlineInferenceCluster.Get | scripts/utils/data_online/online_inference_cluster.py:67-69 | What it takes is the reply to the request at the head of the worker's line. |
| InferenceCluster.OnlineInferenceCluster.Execute | scripts/utils/data_online/online_inference_cluster.py:34-75 | From whatever queues and however the workers run between any two operations, the result merges the replies at the heads of the lines, up to a missing output; what is left is the rest of the lines; the queues end up clean if and only if they were and all replies were taken; unequal batches are refused before anything is queued. |
| ColourConvert.BlockInBounds | scripts/utils/data_reader/rgb2yuv.c:127-158 | All positions of a block are in bounds, and the loop ends exactly behind the last block. |
| ColourConvert.NextBlock | scripts/utils/data_reader/rgb2yuv.c:127-158 | The index bump inside the body leads to the next block of the row, or to the next pair of rows. |
| ColourConvert.BlockAdds | scripts/utils/data_reader/rgb2yuv.c:127-158 | The four luma positions of a block are exactly those that are new. |
| ColourConvert.BlockChroma | scripts/utils/data_reader/rgb2yuv.c:127-158 | The chroma pair of a block stands where its lower right pixel says. |
| ColourConvert.Convert | scripts/utils/data_reader/rgb2yuv.c:127-158 | The loop terminates, stays in bounds and stores each sample once. |
| ColourConvert.RgbToNv12 | scripts/utils/data_reader/rgb2yuv.c:127-158 | For every even size, also empty, the output is the planar image and each of its samples is stored exactly once. |
| ColourConvert.RgbToNv21 | scripts/utils/data_reader/rgb2yuv.c:93-125 | The same with the chroma samples exchanged. |
| ColourConvert.RgbToP010 | scripts/utils/data_reader/rgb2yuv.c:161-192 | The same with 16-bit samples. |
| ColourConvert.PlanarLuma | scripts/utils/data_reader/rgb2yuv.c:127-158 | The luma of pixel (x, y) is at y*width + x. |
| ColourConvert.PlanarChroma | scripts/utils/data_reader/rgb2yuv.c:127-158 | At width*height + r*width + 2c stand U and V of pixel (2c+1, 2r+1). |
| ColourProofs.SamplesInRange | scripts/utils/data_reader/rgb2yuv.c:11-38 | No conversion wraps; the 8-bit ranges of luma and chroma. |
| ColourBt601.PixelIsBt601 | scripts/utils/data_reader/rgb2yuv.c:11-21 | Each 8-bit sample of each pixel lies within one step of BT.601, in exact fractions. |
| ColourBt601.GreyIsNeutral | scripts/utils/data_reader/rgb2yuv.c:11-21 | Every grey has U = V = 128, and black and white have luma 16 and 235. |
| ColourBt601.Primaries | scripts/utils/data_reader/rgb2yuv.c:11-21 | Red, green and blue have the values of the standard. |
| ColourBt601.Monotone | scripts/utils/data_reader/rgb2yuv.c:11-21 | More of any colour never lowers Y, more blue never lowers U nor raises V, more red never lowers V nor raises U. |
| ColourBt601.PixelIsBt601In10 | scripts/utils/data_reader/rgb2yuv.c:24-37 | The 10-bit samples are the ten upper bits of the 16-bit sums, and their high bytes within one step of BT.601. |
| ColourBt601.Nv12Luma | scripts/utils/data_reader/rgb2yuv.c:127-158 | The luma byte of the pixel at every coordinate of an NV12 image. |
| ColourBt601.Nv12Chroma | scripts/utils/data_reader/rgb2yuv.c:127-158 | The bytes of every block: Cb, then Cr, of its lower right pixel. |
| ColourBt601.Nv21Colour | scripts/utils/data_reader/rgb2yuv.c:93-125 | The same with Cr first. |
| ColourBt601.P010Colour | scripts/utils/data_reader/rgb2yuv.c:161-192 | The same for the high bytes of P010. |
| ColourBt601.UyvyColour | scripts/utils/data_reader/rgb2yuv.c:63-91 | The bytes of every pixel of a UYVY image. |
| ColourProofs.PixelRefines | scripts/utils/data_reader/rgb2yuv.c:11-38 | Every 10-bit sample has the 8-bit one as its high byte and its low six bits clear. |
| ColourProofs.P010RefinesNv12 | scripts/utils/data_reader/rgb2yuv.c:161-192 | The same for whole images, index by index. |
| ColourProofs.Nv21SwapsNv12 | scripts/utils/data_reader/rgb2yuv.c:93-125 | NV21 and NV12 differ in the order of each chroma pair only. |
| ColourUyvy.RgbToUyvy | scripts/utils/data_reader/rgb2yuv.c:63-91 | For every size, each pair of pixels of a row has its group of four bytes. |
| ColourUyvy.UyvySamples | scripts/utils/data_reader/rgb2yuv.c:63-91 | For even widths, where luma and chroma of pixel (x, y) stand. |
| Bytes.DecodeEncode | scripts/utils/systrace/systrace.py:16-40 | A little-endian field read back is the value modulo its width, so the value if it fits. |
| Bytes.EncodeDecode | scripts/utils/systrace/systrace.py:16-40 | Writing a field that was read gives the same bytes. |
| Bytes.SignedUnsigned | scripts/utils/systrace/systrace.py:122-129 | Two's complement in any width comes back as the same number. |
| TraceProofs.BitSetBit | source/Infras/NodeTrace/NodeTrace.cpp:158-161 | OR-ing a shifted bit sets that bit and keeps the others. |
| TraceProofs.CoreIdsAre | scripts/utils/systrace/systrace.py:67-72 | toCoreIds lists exactly the set bits, increasing. |
| TraceProofs.ValueRoundTrip | scripts/utils/systrace/systrace.py:108-129 | Each of the eleven argument types comes back as its Python value. |
| TraceProofs.RecordRoundTrip | source/Infras/NodeTrace/NodeTrace.cpp:187-242 | One record, anywhere in a file, parses to its call, and the parser stops right behind it. |
| TraceProofs.FileRoundTrip | scripts/utils/systrace/systrace.py:75-130 | A whole trace, of any number of nodes, parses back call by call, consuming the file exactly. |
| TraceProofs.ValueIs | scripts/utils/systrace/systrace.py:108-129 | Which bytes a value is read from, and exactly when there are too few. |
| TraceProofs.RecordFails | scripts/utils/systrace/systrace.py:75-97 | A record fails for a cut header, an unknown kind, or with its arguments. |
| TraceProofs.ArgumentFails | scripts/utils/systrace/systrace.py:97-129 | The arguments fail with the first that is cut off or too short. |
| TraceProofs.FileFails | scripts/utils/systrace/systrace.py:75-206 | A file fails with its first record that does. |
| ByteLayouts.FieldsAre | source/Infras/NodeTrace/NodeTrace.cpp:187-242 | A field is the little-endian number at its place. |
| ByteLayouts.RecordLayout | source/Infras/NodeTrace/NodeTrace.cpp:187-218 | Where the fields and texts of a record lie, and the codes of its kinds. |
| ByteLayouts.ArgumentLayout | source/Infras/NodeTrace/NodeTrace.cpp:220-239 | Where the fields, name and value of an argument lie. |
| ByteLayouts.ValueLayout | source/Infras/NodeTrace/NodeTrace.cpp:220-239 | The codes of the types, and the bytes of a value. |
| ByteLayouts.UpperIs | scripts/utils/systrace/systrace.py:82-84 | Small letters become capitals; every other byte stays. |
| ByteLayouts.OwnKeys | scripts/utils/systrace/systrace.py:97-99 | The two keys of the parser, letter by letter, and the core ids. |
| ByteLayouts.BitIs | scripts/utils/systrace/systrace.py:67-72 | Bit i of the mask as a remainder after i halvings. |
| TraceProofs.ArgsKept | scripts/utils/systrace/systrace.py:97-130 | The arguments survive in the dictionary if and only if their names are distinct and not taken. |
| TraceProofs.ExpectedArgs | scripts/utils/systrace/systrace.py:97-130 | The same for a call, with the parser's own keys named; coreIds is reserved only when the mask is not zero. |
| NodeTraceModule.NodeTrace.Configure | source/Infras/NodeTrace/NodeTrace.cpp:138-163 | The mask gets exactly the configured cores in addition to those it had; nothing changes while tracing is off. |
| NodeTraceModule.NodeTrace.Copy | source/Infras/NodeTrace/NodeTrace.cpp:208-238 | Each memcpy stays inside the record and extends what is written by exactly its bytes. |
| NodeTraceModule.NodeTrace.WriteArg | source/Infras/NodeTrace/NodeTrace.cpp:220-239 | One argument grows the record by its header, name and value, and fills it exactly. |
| NodeTraceModule.NodeTrace.Trace | source/Infras/NodeTrace/NodeTrace.cpp:187-242 | The file grows by exactly the record of the call, or not at all when tracing is off. |
| Systrace.ToCoreIds | scripts/utils/systrace/systrace.py:67-72 | The loop computes the specified list. |
| Systrace.ReadTrace | scripts/utils/systrace/systrace.py:75-206 | The script's loop yields the repaired list of all parsed records, or the first error. |
| TraceRepair.OrderKept | scripts/utils/systrace/systrace.py:133-206 | No event of the file is lost, repeated or moved. |
| TraceRepair.RepairedIsWellPaired | scripts/utils/systrace/systrace.py:133-158 | For every file, each begin of Execute in the emitted list follows an end or nothing in its row; the cache is the last begin or end of each row. |
| TraceRepair.InsertionsJustified | scripts/utils/systrace/systrace.py:146-155 | Each inserted end closes the begin before it and is followed at once by a begin of Execute in the same row. |
| TraceRepair.RepairsOnlyIfNeeded | scripts/utils/systrace/systrace.py:146-155 | Nothing is inserted if and only if the file is well paired already. |
| TraceRepair.RepairIsIdempotent | scripts/utils/systrace/systrace.py:133-206 | Repairing a repaired list changes nothing. |
| TraceRows.KeyIsRow | scripts/utils/systrace/systrace.py:137-140 | The cache tells events apart exactly by node, processor and title, the title being the frameId argument or else the event name. |
| TraceRows.RowsAreRepaired | scripts/utils/systrace/systrace.py:133-158 | With the row spelled out: every begin of Execute in the emitted list follows an end or nothing in its row, and nothing is inserted if and only if that holds of the file. |
| TraceRows.InsertedInRow | scripts/utils/systrace/systrace.py:146-155 | Each inserted end ends the last begin of the row of the begin of Execute behind it. |
| TraceRows.RowByRow | scripts/utils/systrace/systrace.py:133-206 | Keeping one row of a repaired file is repairing that row's records alone. |
| DataTreeProofs.TokensOfJoin | source/Node/Base/DataTree.cpp:41-62 | Splitting a joined path gives it back if and only if its last token is not empty. |
| DataTreeProofs.SetSucceedsIff | source/Node/Base/DataTree.cpp:372-393 | Set throws if and only if a proper prefix leads to something that is neither object nor null. |
| DataTreeProofs.EmptyKey | source/Node/Base/DataTree.cpp:372-393 | A key without tokens sets nothing. |
| DataTreeProofs.GetAfterSet | source/Node/Base/DataTree.cpp:372-393 | At the key and at every extension of it, what is found is what was set. |
| DataTreeProofs.SetKeepsOthers | source/Node/Base/DataTree.cpp:372-393 | Paths that are neither prefix nor extension are found, or missing, as before. |
| DataTreeProofs.SetOnTheWay | source/Node/Base/DataTree.cpp:372-393 | The nodes on the way become objects that differ in the next token only. |
| DataTreeProofs.SetAgain | source/Node/Base/DataTree.cpp:372-393 | A later Set of the same key wins. |
| DataTreeProofs.SetWhatIsThere | source/Node/Base/DataTree.cpp:372-393 | Setting what is found changes nothing. |
| DataTreeProofs.SetsCommute | source/Node/Base/DataTree.cpp:372-393 | Sets of independent keys commute, or throw in either order. |
| DataTreeProofs.WayIs | source/Node/Base/DataTree.cpp:395-421 | The tree as it is read at the last token differs by nodes on the way only: setting the key in it is setting it in the tree. |
| DataTreeProofs.SetIntoItself | source/Node/Base/DataTree.cpp:395-421 | A tree set into itself below missing nodes holds a copy with a null. |
| DataTreeModule.DataTree.Exists | source/Node/Base/DataTree.cpp:41-62 | The loop answers whether the path leads anywhere. |
| DataTreeModule.DataTree.Get | source/Node/Base/DataTree.cpp:64-90 | The subtree, or OUT_OF_BOUND with the argument untouched; also when a tree is read into itself. |
| DataTreeModule.DataTree.GetList | source/Node/Base/DataTree.cpp:92-128 | The elements of an array are appended; the two errors are told apart. |
| DataTreeModule.DataTree.Set | source/Node/Base/DataTree.cpp:372-393 | The pointer walk that writes step by step does what the recursive specification says, and changes nothing when it throws; a tree set into itself is read at the last token. |
| DataTreeModule.DataTree.SetList | source/Node/Base/DataTree.cpp:395-421 | The same with an array of the trees' values, each read at the last token. |
| WireProofs.NameRoundTrip | scripts/utils/data_online/data_online.py:301-302 | A name of at most 64 bytes comes back if and only if it neither begins nor ends with a zero byte. |
| WireProofs.TensorRoundTrip | scripts/utils/data_online/data_online.py:157-166 | A tensor's description comes back field by field. |
| WireProofs.ImageRoundTrip | scripts/utils/data_online/data_online.py:109-120 | An image's description comes back field by field. |
| WireProofs.HeaderRoundTrip | scripts/utils/data_online/data_online.py:91-97 | The header comes back and announces exactly the payload. |
| WireProofs.MessageRoundTrip | scripts/utils/data_online/data_online.py:284-317 | Identifier, time, descriptions and raw data of all items come back. |
| ByteLayouts.HeaderLayout | scripts/utils/data_online/data_online.py:91-97 | Where the fields of the header lie. |
| ByteLayouts.ImageLayout | scripts/utils/data_online/data_online.py:109-120 | Where the fields of an image description lie. |
| ByteLayouts.TensorLayout | scripts/utils/data_online/data_online.py:157-166 | Where the fields, dimensions and name of a tensor description lie. |
| WireProofs.ItemFails | scripts/utils/data_online/data_online.py:365-383 | Which descriptions are tensors, images, or malformed. |
| WireProofs.PayloadFails | scripts/utils/data_online/data_online.py:360-383 | A payload fails if and only if a description is cut off or has more than eight dimensions. |
| WireProofs.KeysAre | scripts/utils/data_online/data_online.py:365-383 | Tensors are kept under their names, images under their positions. |
| WireProofs.ReceivedIsSent | scripts/utils/data_online/data_online.py:361-383 | The items are those sent if and only if no name begins or ends with a zero byte. |
| WireProofs.NothingReplaced | scripts/utils/data_online/data_online.py:365-383 | The dictionary has an entry per item if and only if their keys are distinct. |
| WireProofs.AllFound | scripts/utils/data_online/data_online.py:365-383 | Under every key the last item with it is found. |
| DataOnlineModule.ReadsOneMessage | scripts/utils/data_online/data_online.py:339-384 | From a message followed by anything, the message is read and the rest left. |
| DataOnlineModule.ReadsAllMessages | scripts/utils/data_online/data_online.py:339-384 | Consecutive messages stay framed. |
| DataOnlineModule.RejectedMessageFraming | scripts/utils/data_online/data_online.py:348-351 | After a rejected header the stream is framed if and only if the payload is empty. |
| DataOnlineModule.ReadFromIs | scripts/utils/data_online/data_online.py:339-384 | Exactly when a read waits in vain, refuses the header, or decodes a payload, and what it leaves. |
| DataOnlineModule.DataOnline.RecvAll | scripts/utils/data_online/data_online.py:342-347 | However recv cuts the stream, exactly the wanted bytes are taken. |
| DataOnlineModule.DataOnline.ReadItems | scripts/utils/data_online/data_online.py:360-383 | The loop fills the dictionary of the specified items, or raises where a description is malformed. |
| DataOnlineModule.DataOnline.Read | scripts/utils/data_online/data_online.py:339-384 | For any segmentation the result is that of the specification, and the stream is left where it says. |
| DataOnlineModule.DataOnline.ReadPayload | scripts/utils/data_online/data_online.py:319-337 | The bytes of exactly one message are handed on, if and only if they all arrive when the clock does not run out. |
| DataOnlineModule.DataOnline.Write | scripts/utils/data_online/data_online.py:284-317 | The three loops send exactly the bytes of the message. |
| ImageLayoutProofs.ImageToTensorMovesNothing | source/Infras/Memory/ImageDescriptor.cpp:22-92 | An accepted image keeps every sample in place if and only if the 32-bit products are the true ones wherever a row or an image follows another. |
| ImageLayoutProofs.WideImageMoves | source/Infras/Memory/ImageDescriptor.cpp:22-92 | An accepted image whose samples move. |
| ImageLayoutProofs.TensorVolume | source/Infras/Memory/ImageDescriptor.cpp:78-90 | Dimensions times element size is validSize if and only if it fits 64 bits. |
| ImageLayoutProofs.LumaMovesNothing | source/Infras/Memory/ImageDescriptor.cpp:94-190 | The luma samples stay in place if and only if a row fits 32 bits. |
| ImageLayoutProofs.WideLumaMoves | source/Infras/Memory/ImageDescriptor.cpp:94-190 | An accepted image whose luma samples move. |
| ImageLayoutProofs.ChromaMovesNothing | source/Infras/Memory/ImageDescriptor.cpp:94-190 | The chroma samples stay in place if and only if the second stride is that of packed rows, or there is one row at most. |
| ImageLayoutProofs.PaddedChromaMoves | source/Infras/Memory/ImageDescriptor.cpp:94-190 | An accepted small image whose chroma samples move. |
| ImageLayoutProofs.LumaChromaVolume | source/Infras/Memory/ImageDescriptor.cpp:140-186 | Dimensions account for validSize of both tensors, and chroma is half of luma. |
| ImageLayoutProofs.LumaChromaApart | source/Infras/Memory/ImageDescriptor.cpp:140-186 | The two ranges are disjoint if and only if the first plane holds the whole luma. |
| ImageLayoutProofs.SliceIs | source/Infras/Memory/ImageDescriptor.cpp:192-232 | Where a slice of a batch lies, and that it stays inside the buffer. |
| ImageLayoutProofs.SlicesTile | source/Infras/Memory/ImageDescriptor.cpp:192-232 | Slices over consecutive ranges follow each other without gap or overlap, and fill the buffer if and only if its size is a multiple of the batch size. |
| ImageLayoutProofs.SizeAddsUp | source/Infras/Memory/UtilsBase.cpp:264-410 | Size is the batch size times the descriptor's plane sizes if and only if no computed plane size exceeds 32 bits. |
| ImageLayoutProofs.LargePlaneIsLost | source/Infras/Memory/UtilsBase.cpp:264-410 | Accepted properties whose plane counts into the size and is noted as empty. |
| ImageLayoutProofs.AcceptedImageTiles | source/Infras/Memory/UtilsBase.cpp:264-410 | So the slices of such a descriptor tile exactly its size. |
| ImageAccepted.AcceptedIff | source/Infras/Memory/UtilsBase.cpp:264-360 | Properties are accepted if and only if no measure is zero and every plane of the format holds its part. |
| ImageAccepted.TightIsAccepted | source/Infras/Memory/UtilsBase.cpp:264-360 | An NV12 or P010 image without padding is accepted. |
| ImageAccepted.SizeIs | source/Infras/Memory/UtilsBase.cpp:360-410 | The size written back, for every format and batch, and the plane sizes noted. |
| ImageAccepted.ConvertibleIff | source/Infras/Memory/ImageDescriptor.cpp:22-140 | Exactly which images are converted, and the answer otherwise. |
| ImageAccepted.TensorsAre | source/Infras/Memory/ImageDescriptor.cpp:78-186 | Dimensions, element types and offsets of the tensors. |
| ImageAccepted.SlicedIff | source/Infras/Memory/ImageDescriptor.cpp:192-232 | Exactly which slices are taken, and the answer otherwise. |
| ImageDescriptorModule.ImageDescriptor.ImageToTensor | source/Infras/Memory/ImageDescriptor.cpp:22-92 | Status and all assigned fields of the tensor; an error leaves it untouched. |
| ImageDescriptorModule.ImageDescriptor.ImageToLumaChroma | source/Infras/Memory/ImageDescriptor.cpp:94-190 | The same for the two tensors; one tensor passed for both becomes that of the chroma plane. |
| ImageDescriptorModule.ImageDescriptor.GetImageDesc | source/Infras/Memory/ImageDescriptor.cpp:192-232 | The slice's fields, also when a descriptor is sliced into itself. |
| ImageDescriptorModule.ImageDescriptor.Assign | source/Infras/Memory/ImageDescriptor.cpp:241-258 | Planes in use, at most four, are copied, the others keep their values. |
| ImageDescriptorModule.SetImageDescFromImageProp | source/Infras/Memory/UtilsBase.cpp:264-410 | Which properties are accepted, the size written back, and every field of the descriptor. |
| FadasProofs.StepKeeps | source/Library/FadasIface/FadasSrv.cpp:336-474 | Every call of every client keeps the service invariant, for every answer of the library to each of its calls. |
| FadasProofs.Safety | source/Library/FadasIface/FadasSrv.cpp:336-474 | Over every run: initialised if and only if in use, the count is the number of live clients, entries are keyed by their own pointer and are what the library holds but for what was left behind; the library is called only while it runs, and started again only when astray. |
| FadasSlots.SupportedIff | source/Library/FadasIface/FadasSrv.cpp:350-364 | Which processors are supported. |
| FadasSlots.SlotsApart | source/Library/FadasIface/FadasSrv.cpp:368-376 | Two clients share a slot if and only if they use the same processor and, where cores count, the same core. |
| FadasSlots.InitIs | source/Library/FadasIface/FadasSrv.cpp:376-406 | Exactly when Init succeeds, and what it counts and asks. |
| FadasSlots.DeinitIs | source/Library/FadasIface/FadasSrv.cpp:412-474 | What each Deinit does, by the uses that are left. |
| FadasSlots.RegBufIs | source/Library/FadasIface/FadasSrv.cpp:726-861 | What a registration answers and records, by the answers of mapping and library. |
| FadasSlots.RegBufRefuses | source/Library/FadasIface/FadasSrv.cpp:684-724 | Other descriptors and buffer types are refused without a call. |
| FadasSlots.DeregBufIs | source/Library/FadasIface/FadasSrv.cpp:863-960 | Exactly one entry goes, and how many calls take it back. |
| FadasProofs.LeftBehindIs | source/Library/FadasIface/FadasSrv.cpp:579-682 | A buffer is held without an entry if and only if a registration was accepted in part, a call to take it back refused, or null was held at a stop, and it was not completely registered since. |
| FadasProofs.HeldIsCached | source/Library/FadasIface/FadasSrv.cpp:336-474 | At every moment of every run, the library holds exactly the cached buffers if and only if that happened to none, and runs exactly while in use if and only if it is not astray. |
| FadasProofs.DeregAllKeeps | source/Library/FadasIface/FadasSrv.cpp:421-431 | Visiting all entries leaves at most that of a null pointer. |
| FadasProofs.NothingLeft | source/Library/FadasIface/FadasSrv.cpp:412-474 | Without live clients nothing is cached; the library holds nothing if and only if no buffer was left behind, and is stopped if and only if it is not astray. |
| FadasProofs.RegisteredTwice | source/Library/FadasIface/FadasSrv.cpp:726-861 | However long after, over every run in between that does not take the buffer back, a repeated registration asks for nothing; when it returns the stored descriptor. |
| FadasProofs.RefusedPlaneIsMissed | source/Library/FadasIface/FadasSrv.cpp:745-786 | A buffer not taken completely is reported as registered in exactly one case. |
| FadasProofs.MissedPlane | source/Library/FadasIface/FadasSrv.cpp:745-786 | Such a call. |
| FadasProofs.PartIsLeftBehind | source/Library/FadasIface/FadasSrv.cpp:745-822 | Exactly when a buffer reported as refused is held in part, for planes, batches and mappings. |
| FadasProofs.PlaneLeftBehindRun | source/Library/FadasIface/FadasSrv.cpp:764-786 | A run after which no client lives and the library still holds a first plane. |
| FadasProofs.NullIsNeverTakenBack | source/Library/FadasIface/FadasSrv.cpp:863-869 | The last Deinit ends with nothing held if and only if null was not held, nothing was left behind, and every buffer was taken back completely. |
| FadasProofs.NullStays | source/Library/FadasIface/FadasSrv.cpp:863-869 | A run after which no client lives and null is still held. |
| FadasProofs.StaleRegistration | source/Library/FadasIface/FadasSrv.cpp:684-861 | Exactly when a registration through a client that is no longer live breaks the invariant. |
| FadasProofs.StartedTwiceRun | source/Library/FadasIface/FadasSrv.cpp:307-335 | A run in which a library that runs is started again. |
| FadasCounts.SurplusIs | source/Library/FadasIface/FadasSrv.cpp:726-861 | How many registering calls each registration leaves over, beyond those it will be taken back with. |
| FadasCounts.Conservation | source/Library/FadasIface/FadasSrv.cpp:336-474 | At every moment of every run, accepted registering calls less those taken back are what the entry is owed and what was left over. |
| FadasCounts.AllTakenBack | source/Library/FadasIface/FadasSrv.cpp:412-474 | Without live clients, as many calls were taken back as accepted for a buffer if and only if nothing was left over; never more. |
| FadasCounts.NullCount | source/Library/FadasIface/FadasSrv.cpp:863-869 | For null this is so if and only if no part of it was ever accepted. |
| FadasCounts.SecondPlaneStays | source/Library/FadasIface/FadasSrv.cpp:764-786 | A run in which every call is accepted and a plane stays registered. |
| FadasCounts.BatchTakenBackTwice | source/Library/FadasIface/FadasSrv.cpp:745-786 | A run with an input that is a batch, which is taken back more often than registered. |
| FadasSrvModule.FadasSrv.Init | source/Library/FadasIface/FadasSrv.cpp:336-410 | Which slot a processor and core get, and how it changes with the answers to start and version. |
| FadasSrvModule.FadasSrv.Deinit | source/Library/FadasIface/FadasSrv.cpp:412-474 | The loop of the last use deregisters every entry; errors of the library are dropped. |
| FadasSrvModule.FadasSrv.RegBuf | source/Library/FadasIface/FadasSrv.cpp:684-724 | Dispatch by buffer kind, to the specified result and log. |
| FadasSrvModule.FadasSrv.RegisterBuf | source/Library/FadasIface/FadasSrv.cpp:579-682 | The loop over a batch asks for one element after the other up to the first refusal. |
| FadasSrvModule.FadasSrv.RegisterImage | source/Library/FadasIface/FadasSrv.cpp:726-822 | A new image is recorded when accepted, each call being logged with its answer; a known one is compared. |
| FadasSrvModule.FadasSrv.RegisterTensor | source/Library/FadasIface/FadasSrv.cpp:824-861 | A new tensor is recorded when accepted; a known one is not compared. |
| FadasSrvModule.FadasSrv.DeregBuf | source/Library/FadasIface/FadasSrv.cpp:863-960 | The entry goes and the library is told; null is ignored. |

## Left out

- Reuse of a memory manager after DeInitialize, which does not clear the handle registry; the pools' own memory and the
  two methods that take buffers from a pool and put them back, which touch no index of the manager (in the model a pool
  use only checks the state).
- Allocators are assumed not to hand out a buffer that is still out.
- Switching between dynamic and static mode, a change of the negotiated count while frames are exchanged, and done events
  without a frame address or for handles the driver does not hold.
- What the node checks of a buffer before it calls the driver client, and pausing and resuming, which no call reaches.
- InferenceCluster.OnlineInferenceCluster.Execute: exceptions of the inference itself, arrays of unequal shape and a
  cluster without workers are not modelled, and an input is a list of rows (a dictionary of inputs differs in how rows
  are packed only).
- ColourUyvy.RgbToUyvy: its row counters are unbounded here, where the source uses `int`.
- Loading and saving of images and trace files; decoding of UTF-8, and upper-casing of letters outside ASCII.
- Systrace.ReadTrace: the rows and names that systrace gives to counter and single events, and its failure on a counter
  without arguments, are not stated; nor are numeric row titles that Python takes for equal although one is a float, or
  frame ids that are NaN, each of which is a row of its own in the script and all of which are one row here.
- Bytes beyond the end that ctypes would copy when a header is cut off: the model reports an error there.
- NodeTraceModule.NodeTrace.Configure: parsing of the configuration string; core ids of 32 and more, whose shift is
  undefined.
- DataTree: scalar getters with defaults and the enumeration tables, which would add only easier members.
- DataOnlineModule.DataOnline.Write: partial sends, which the source ignores; names over 64 bytes or more than eight
  dimensions, which do not fit the structure.
- DataOnlineModule.DataOnline.ReadItems: ends at the raw bytes, like `Read`, so that an element type unknown to the
  conversion is no error here.
- DataOnlineModule.DataOnline.Read: ends at the raw bytes; conversion to arrays, reshaping and dequantisation are not
  modelled. A peer that closes the connection is a time-out.
- The model-information request of DataOnline, which is another instance of the same framing.
- Slicing a slice: the size is not updated by the first slice, so slices do not compose.
- Tensor descriptors from properties, image properties by vendor plane definitions, compressed image contents, and the
  name, cache and identifier fields that all descriptors share and copy.
- FadasProofs.Safety: the order in which the last Deinit visits the entries is left open; calls are counted, but the
  addresses and sizes they name are not compared. The mapping calls below FadasIface_mmap are one call here.
- FadasProofs.HeldIsCached: a buffer counts as taken back when all calls to take it back were accepted; the calls
  themselves are counted in `FadasCounts`, which shows when one is left over then.
- FadasProofs.NothingLeft: the same.
- Logging, environment variables, generated RPC stubs, vendor libraries, the node factory, allocator wrappers and the
  OpenCL caches.
