# Verification model of the UDE USB device, its host driver and the USB gadget

Dafny models of the stateful protocols in this repository, with proofs of what they
keep over every run. Where the C code changes state step by step the model is a class
whose methods are proved against pure functions; the properties over whole runs,
interleavings and both ends of a connection are lemmas about those functions.

`dafny verify dfyconfig.toml` verifies the project with Dafny 4.11.

## What is modelled

**The write/read rendezvous** (`UDEFX2/Misc.c`, `UDEFX2/BackChannel.c`,
`UDEFX2/USBCom.c`), on three levels. `WriteList` is the intrusive circular list of
parked writes on the heap. `Misc` and `BackChannel` are the queue and its request
handlers, proved to take the atomic steps of `Rendezvous`, which implements a FIFO
matcher. `RendezvousSteps` splits each push and pull at its two atomic points, with one
of each in flight and arbitrary cancellation between the steps, embeds every atomic run,
and proves what is left of the atomic guarantees: conservation, and tight bounds on how
many writes and reads can miss each other and on how often a write is overtaken.

**The interrupt path.** `DeviceLatch` is the mailbox and the deferred URBs of the device
with sleep and wake, `HostLatch` the host's mailbox and waiting IOCTLs;
`DeviceLatchSteps` and `HostLatchSteps` are the operations of the two at their real
granularity. `InterruptPipeline` joins the two ends by the URBs in flight, with every
operation one atomic step, and numbers the raises, so that order and freshness mean
something even between equal values. `PipelineSteps` joins the device at its real
granularity to the wire and the host.

**The mission protocol** of `testapp.c`. `MissionText` is the arithmetic of the 250-byte
buffers, `Mission` the state machine of one AutoBot and successive CommandTrip sessions
over the two rendezvous queues at their real granularity and the pipeline of atomic
interrupt operations; sessions whose IOCTL fails leave early.

**The USB loopback function** (`f_one.c`). `LoopbackPackets` relates requests and packets
(section 5.8.3 of USB 2.0, and the gadget API's zero flag). `LoopbackMachine` is the state
machine of host traffic, completions, errors and the two disables in every interleaving.
`LoopbackTransparency` proves that the host gets its own packets back and exactly when.
`LoopbackDriver` is the driver on the heap together with the controller that fills,
empties, completes and aborts its requests: context pointers, shared buffers and endpoint
queues. Each step of the machine has a method proved to take it from any valid heap to a
valid heap (`Perform`), so that whole runs do (`Run`), and from a successful enable on the
theorems about the machine's runs hold of the heap (`Session`). `LoopbackOptions` is the
option store.

**Two algorithms.** `Descriptors` is the configuration-descriptor walk of `dump.c` over
interfaces, endpoints and descriptors of other types between them, with its round trip, and `AutoResume` the wake-up back-off of `one.c` with its closed form.

The frameworks are small environments: a manual queue is a FIFO with an accepting flag
(`Wdf.ManualQueue`), a USB endpoint a FIFO with an enabled flag
(`LoopbackDriver.Endpoint`). Allocation failures, refused requests and controller errors
are parameters of the operations, or steps of the machines.

## What the proofs found

Where the code does less than its structure suggests, the theorem states exactly when.

- A value raised while the device sleeps does not go to the first usable interrupt URB
  submitted afterwards. It goes to the next URB of any kind, and is lost if that one's
  buffer is not 4 bytes long (`DeviceLatch.RaisedAsleep`,
  `DeviceLatch.UnreadableUrbSwallows`).
- With every operation atomic the IOCTLs observe raise order
  (`InterruptPipeline.RaiseOrderObserved`). In the code they need not: a raise and a URB
  submission that overlap can leave a value cached beside a deferred URB, and then an older
  value follows a newer one (`DeviceLatchSteps.OrderInverted`). Order is kept exactly as
  long as no raise delivers its value while an older one is cached or fetched
  (`DeviceLatchSteps.InOrderInRun`, `DeviceLatchSteps.InvertsExactly`). Cached updates and
  deferred URBs miss each other by at most one of either
  (`DeviceLatchSteps.AtMostOneMissed`).
- With every operation atomic the freshest interrupt is lost in exactly two ways
  (`InterruptPipeline.FreshestInRun`): a reader failure other than a cancellation erases it
  from the host's mailbox (`InterruptPipeline.FailureErases`), or it is taken by IOCTLs none
  of which has room for 4 bytes, which fail and empty the mailbox all the same
  (`InterruptPipeline.ShortBufferSwallows`). The device's only source of such a failure is a
  URB submitted while it sleeps with nothing cached
  (`InterruptPipeline.OnlySourceOfErrors`). Where raises and submissions overlap there is
  one more, even if nothing fails and everything has room: the inverted order lets the older
  value overwrite the newer one in the host's mailbox
  (`PipelineSteps.OlderOverwritesNewest`). These, and a URB without a 4-byte buffer, are all
  (`PipelineSteps.NewestInRun`); without overtaking the last one does not happen
  (`PipelineSteps.OrderInRun`, `PipelineSteps.NewestNeverLost`).
- A mission and AutoBot's read can miss each other, and then its session waits for ever
  (`Mission.MissionStranded`). With the interrupt operations atomic, an open session can
  still finish exactly when it has been told of a signal, or a signal is under way or
  AutoBot can still come to raise one, and no failed URB is next to end its wait
  (`Mission.FinishesExactly`); until a session has left early that means that its mission
  is not stranded and its signal not lost (`Mission.FinishesUnlessStranded`).
- A session that leaves with a failed IOCTL leaves its response behind: every session that
  finishes later reads the response to the mission as many sessions before its own as had
  left (`Mission.StaleByThoseThatLeft`, `Mission.StaleHappens`).
- Because a push and a pull each look first and park later, a write and a read can both
  be left parked for ever; the shorter side never exceeds one, the longer is unbounded
  (`RendezvousSteps.AtMostOneStranded`, `RendezvousSteps.StrandingHappens`). The host
  latch has the same gap, closed by the next interrupt
  (`HostLatchSteps.BothStranded`, `HostLatchSteps.NextInterruptInRun`).
- The loopback is transparent exactly when the request length is a positive multiple of
  the maximum packet size; otherwise full packets overflow a buffer, which loses them and
  frees the pair for good (`LoopbackTransparency.TransparentExactly`).
- The auto-resume closed form holds exactly when no step past the limit wraps at 2^32 to
  anything but the first delay (`AutoResume.ClosedFormExactly`), and a harmful wrap can take
  the delay below the first one (`AutoResume.HarmfulWrapHappens`). A first delay above the
  limit is kept exactly when the next step, modulo 2^32, is above the limit as well or the
  first delay again (`AutoResume.StartAboveLimit`, `AutoResume.StartAboveLimitWraps`).
- The descriptor walk shows the interfaces and endpoints of a well-formed configuration
  exactly when it has an interface and no descriptor of another type
  (`Descriptors.RoundTrip`). Without interfaces it shows one that is not there
  (`Descriptors.EmptyConfigInBuffer`); the OTG descriptor that this repository's loopback
  gadget puts first it takes for an interface with four endpoints, the last of them past
  `wTotalLength` (`Descriptors.OtgMisread`).
- When the creation of the read queue fails, the error exit of WRQueueInit deletes a NULL
  queue (`Misc.WriteReadQueue.Init`).

## Model

| member | source | states |
|---|---|---|
| WriteList.WriteBufferList.InsertTail | UDEFX2/Misc.c:146-164 | appends one record: links mutually inverse round the sentinel, all records distinct, contents extended by the buffer |
| WriteList.WriteBufferList.RemoveHead | UDEFX2/Misc.c:202-206 | takes the oldest record off, and returns the sentinel itself exactly when the list is empty |
| WriteList.WriteBufferList.Free | UDEFX2/Misc.c:225-225 | only a removed record that is still allocated may be freed, so no double free, and never the sentinel, which is not among the allocated records |
| WriteList.WriteBufferList.Destroy | UDEFX2/Misc.c:102-108 | terminates with every record freed once, in list order, and none left allocated |
| Misc.WriteReadQueue.constructor | UDEFX2/Misc.c:51-51 | the cleared structure is the empty rendezvous, without lock or queue |
| Misc.WriteReadQueue.Init | UDEFX2/Misc.c:44-89 | for each outcome of the two creations: the status, an empty queue that exists exactly on success, and a NULL queue deleted exactly when the lock was created and the queue was not |
| Misc.WriteReadQueue.Destroy | UDEFX2/Misc.c:91-116 | at any stage of its life: nothing before initialisation, otherwise all parked writes freed and all parked reads given up, in order, and a NULL queue deleted exactly when there was none |
| Misc.WriteReadQueue.PushWrite | UDEFX2/Misc.c:119-170 | returns the oldest parked read if there is one, otherwise parks the bytes; every status, including missing result pointer and failed allocation, and what stays unchanged |
| Misc.WriteReadQueue.PullRead | UDEFX2/Misc.c:173-231 | copies the oldest parked write, cut to the shorter length, and frees it, otherwise parks the read; every status and what stays unchanged |
| BackChannel.MissionPort.HandleWrite | UDEFX2/BackChannel.c:121-184 | a write request is always completed and takes the atomic push step, a matching read receiving exactly the bytes of the delivery; if the buffer of that read cannot be had, the read ends with the error as if cancelled and the bytes are gone |
| BackChannel.MissionPort.Forward | UDEFX2/USBCom.c:168-198 | the push and the hand-off to a waiting read are one push of the rendezvous, or its cancel step when the hand-off fails |
| BackChannel.MissionPort.HandOff | UDEFX2/USBCom.c:176-194 | the waiting read is completed with the write's bytes cut to the shorter length, or with the error and an untouched buffer |
| BackChannel.MissionPort.HandleRead | UDEFX2/BackChannel.c:72-119 | a read request takes the atomic pull step: completed with the oldest write, or parked uncompleted; it is left alone, neither completed nor parked, if its buffer cannot be had or it cannot be parked |
| BackChannel.MissionPort.HandleCancel | UDEFX2/Misc.c:21-41 | cancelling a parked read completes it with STATUS_CANCELLED and is the cancel step of the rendezvous |
| Rendezvous.FifoMatching | UDEFX2/Misc.c:119-231 | over every run of pushes, pulls and cancels the i-th surviving read receives the i-th write, truncated, on both paths; what is parked is the rest, and one side is empty |
| Rendezvous.WritesInOrder | UDEFX2/Misc.c:161-165 | the matcher's write log is the pushes in order |
| Rendezvous.ReadsInOrder | UDEFX2/Misc.c:206-209 | without cancellation its read log is the pulls in order |
| Rendezvous.ServedInOrder | UDEFX2/USBCom.c:176-193 | without cancellation the i-th served read is the i-th read made and gets the i-th write made, cut to min(write length, read length) |
| Rendezvous.CancelOnlyRemoves | UDEFX2/Misc.c:21-41 | a cancellation takes the read out of its place and changes nothing else |
| Rendezvous.CancelledNeverServed | UDEFX2/Misc.c:21-41 | after any run, a read cancelled while parked is not served by whatever follows |
| RendezvousSteps.AtMostOneStranded | UDEFX2/Misc.c:202-214 | in every interleaving the smaller of parked writes and parked reads is at most one |
| RendezvousSteps.StrandingHappens | UDEFX2/Misc.c:137-166 | the bound is tight: with nothing in flight one read and any number of writes can be parked together |
| RendezvousSteps.PushUninterrupted | UDEFX2/Misc.c:137-166 | the two steps of a push, run back to back, are the atomic push, state and deliveries alike |
| RendezvousSteps.PullUninterrupted | UDEFX2/Misc.c:202-214 | the two steps of a pull, run back to back, are the atomic pull, state and deliveries alike |
| RendezvousSteps.NotParked | UDEFX2/Misc.c:148-158 | a push whose allocation fails and a pull that cannot be parked leave the atomic state as it was |
| RendezvousSteps.CancelIsAtomic | UDEFX2/Misc.c:21-41 | the cancel step on the first parked read with an id is the atomic cancellation of that id |
| RendezvousSteps.AtomicRuns | UDEFX2/Misc.c:119-231 | every atomic run, with its whole delivery log, is the run of this machine in which nothing is interrupted |
| RendezvousSteps.Conservation | UDEFX2/Misc.c:119-231 | in every interleaving each write is in exactly one of delivered, parked, about to park or refused, and each read in exactly one of served, parked, about to park, cancelled or dropped |
| RendezvousSteps.DeliveredAtMostOnce | UDEFX2/BackChannel.c:147-175 | no write goes to two reads, no read gets two writes, a cancelled read gets none |
| RendezvousSteps.BoundedOvertaking | UDEFX2/Misc.c:138-141 | while a write stays parked only writes handed to reads already parked or committed to park pass it, at most (parked reads) + 1 of them |
| RendezvousSteps.OvertakenInAnyRun | UDEFX2/Device.c:193-193 | the same bound from the start of any run, given one pusher and one puller in flight |
| RendezvousSteps.OvertakingHappens | UDEFX2/Misc.c:137-166 | the bound is reached: for every k a run in which a write parked beside k reads is passed by exactly k + 1 later ones |
| DeviceLatch.Device.CompletePendingRequest | UDEFX2/USBCom.c:285-321 | a URB is completed with the flags exactly when its buffer has 4 bytes, otherwise with the error |
| DeviceLatch.Device.RaiseInterrupt | UDEFX2/USBCom.c:325-354 | the value goes to the oldest deferred URB if there is one, otherwise into the mailbox, counted up to 100, and only then is wake signalled; this is the raise step |
| DeviceLatch.Device.InterruptInUrb | UDEFX2/USBCom.c:358-421 | empties the mailbox; cached data completes the URB, otherwise it is deferred, or failed while purged; this is the submit step |
| DeviceLatch.Device.CancelInterruptInUrb | UDEFX2/USBCom.c:273-282 | the deferred URB that is cancelled, and no other, is completed once with STATUS_CANCELLED and taken out of its place |
| DeviceLatch.Device.LinkPowerExit | UDEFX2/usbdevice.c:545-560 | every deferred URB is completed once, in order, with STATUS_CANCELLED, the queue is empty and closed, and the mailbox stays; this is the sleep step |
| DeviceLatch.Device.LinkPowerEntry | UDEFX2/usbdevice.c:530-543 | takes the wake step and completes nothing |
| DeviceLatch.Device.GenerateInterrupt | UDEFX2/BackChannel.c:206-235 | for an input of exactly 4 bytes takes the raise step, completions included, with the value whose base-256 digits are those bytes, lowest first; otherwise changes nothing |
| DeviceLatch.DigitsOf | UDEFX2/BackChannel.c:218-224 | the digits of the value read from four bytes are those bytes |
| DeviceLatch.BytesRoundTrip | UDEFX2/BackChannel.c:218-224 | every four bytes round-trip through the value |
| DeviceLatch.ValueRoundTrip | UDEFX2/BackChannel.c:218-224 | and every value through its four bytes |
| DeviceLatch.Conservation | UDEFX2/USBCom.c:273-421 | in every atomic run, through sleeps, wakes and cancellations, each URB submitted is exactly once deferred or completed, and no other URB is |
| DeviceLatch.CarriesFourBytes | UDEFX2/USBCom.c:301-309 | a completion carries the value exactly when the buffer has the 4 bytes of one, and which error it has otherwise |
| DeviceLatch.RaiseReachesUrb | UDEFX2/USBCom.c:325-421 | for every value: raised before or after the submission of a 4-byte URB, that URB is completed with it |
| DeviceLatch.LatchInvariant | UDEFX2/USBCom.c:326-421 | in every atomic run: asleep or data cached implies no deferred URB, the counter is min(100, raises cached since the last URB asked), latestStatus is the last of them or 0 |
| DeviceLatch.CachedValueGoesToNextUrb | UDEFX2/USBCom.c:391-405 | across sleeps, wakes and cancellations a cached value goes to the next URB submitted, and whatever happens afterwards starts from a latch that does not remember it |
| DeviceLatch.RaisedAsleep | UDEFX2/USBCom.c:336-348 | two values raised while asleep give the host different completions if and only if the next URB submitted has a 4-byte buffer, and then only that URB's differs, whatever is raised or submitted after it |
| DeviceLatch.UnreadableUrbSwallows | UDEFX2/USBCom.c:301-307 | a concrete run in which a 2-byte URB swallows the value and the valid URB behind it waits |
| DeviceLatchSteps.RaiseUninterrupted | UDEFX2/USBCom.c:325-354 | the two steps of a raise, run back to back, are the atomic raise |
| DeviceLatchSteps.SubmitUninterrupted | UDEFX2/USBCom.c:358-421 | the two steps of a submission, run back to back, are the atomic submission |
| DeviceLatchSteps.SingleSteps | UDEFX2/USBCom.c:476-488 | cancellations, sleeps and wakes are the atomic ones, completions included |
| DeviceLatchSteps.UrbConservation | UDEFX2/USBCom.c:273-421 | in every interleaving each URB submitted is in exactly one of deferred, completed, retrieved by a raise or in its own submission, and no other is anywhere |
| DeviceLatchSteps.AtMostOneMissed | UDEFX2/USBCom.c:333-345 | with one raise and one submission in flight, in every interleaving with sleeps, wakes and cancellations, the smaller of cached updates and deferred URBs is at most one |
| DeviceLatchSteps.MissingHappens | UDEFX2/USBCom.c:392-409 | the bound is tight both ways: one cached update beside any number of deferred URBs, and one deferred URB beside any number of cached updates |
| DeviceLatchSteps.OrderInverted | UDEFX2/USBCom.c:392-409 | for any two values a run that delivers the second before the first |
| DeviceLatchSteps.InOrderInRun | UDEFX2/USBCom.c:325-421 | over every run: what is delivered, fetched and cached stays in raise order throughout if and only if no raise delivers into a URB it retrieved while an older value is cached or fetched |
| DeviceLatchSteps.InvertsExactly | UDEFX2/USBCom.c:325-421 | such a step is exactly one after which submissions alone can deliver values out of order |
| DeviceLatchSteps.NoneOvertakes | UDEFX2/USBCom.c:333-338 | none does if no raise retrieves a URB while an older value is cached or being served |
| DeviceLatchSteps.NewestLostExactly | UDEFX2/USBCom.c:301-307 | at the device end: the newest value, once raised, stays delivered, cached or about to be, until it is completed into a URB without a 4-byte buffer, and then stays lost until the next raise |
| DeviceLatchSteps.NewestInRun | UDEFX2/USBCom.c:325-421 | the same over every run of the interleaved steps, as an equivalence |
| DeviceLatchSteps.NewestNeverLost | UDEFX2/USBCom.c:325-421 | at the device end, in every interleaving in which all URBs have 4 bytes: the newest value is delivered to a URB, cached or about to be, and no value is delivered twice |
| PipelineSteps.NewestLostExactly | UDEFX_host/driver/ioctl.c:436-472 | from the device at its real granularity to the IOCTLs: a step loses the newest value if and only if it spends it on a URB without a 4-byte buffer, erases it by a reader failure, takes it for IOCTLs without room, or delivers an older value into the mailbox that holds it unread; and lost it stays until the next raise |
| PipelineSteps.NewestInRun | UDEFX_host/driver/ioctl.c:436-472 | the same over every run, as an equivalence |
| PipelineSteps.OrderInRun | UDEFX2/USBCom.c:325-421 | in every run in which no raise overtakes an older value the IOCTLs observe raise order and the mailbox is never overwritten by an older value |
| PipelineSteps.NewestNeverLost | UDEFX_host/driver/interrupt.c:54-57 | in such a run with 4-byte URBs, room in every IOCTL and no reader failure but cancellations, the newest value has been received, or is in the mailbox, in flight or in the device |
| PipelineSteps.OlderOverwritesNewest | UDEFX_host/driver/ioctl.c:447-453 | for any two values a run without failures or short buffers after which an IOCTL has received the first and the second, raised last, is nowhere |
| HostLatch.Host.CompleteInterruptRequest | UDEFX_host/driver/ioctl.c:339-402 | without room for 4 bytes the waiter fails for that reason and is told 4, whatever the reader says; otherwise it gets the flags, or the reader's error and 0 |
| HostLatch.AnswersFourBytes | UDEFX_host/driver/ioctl.c:363-399 | the same of the specification, for values of any type |
| HostLatch.Conservation | UDEFX_host/driver/ioctl.c:140-480 | in every atomic run each IOCTL is exactly once parked or completed, and no other one is |
| HostLatch.CancelOnlyRemoves | UDEFX_host/driver/ioctl.c:173-174 | a cancellation completes the waiter it names and leaves the others in order and the mailbox as it was |
| HostLatch.Host.GetInterruptMessage | UDEFX_host/driver/ioctl.c:140-183 | completed at once from the mailbox, which it empties, or parked, or failed; this is the ask step |
| HostLatch.Host.UpdateStatus | UDEFX_host/driver/ioctl.c:436-459 | what the lock section leaves in the mailbox for each reader status, with and without a waiter |
| HostLatch.Host.Drain | UDEFX_host/driver/ioctl.c:462-478 | the drain terminates by queue length, completes every waiter once and in order with one status and value, and the trailing loop never iterates |
| HostLatch.Host.HandleReaderCompletion | UDEFX_host/driver/ioctl.c:429-480 | every waiter is completed once, in order, and the mailbox filled, emptied or left alone as the status demands; this is the reader-completion step |
| HostLatch.Host.InterruptPipeReadComplete | UDEFX_host/driver/interrupt.c:110-151 | an empty read changes nothing, one of any other length is a successful reader completion with the first bytes of the buffer |
| HostLatch.Host.InterruptReadersFailed | UDEFX_host/driver/interrupt.c:153-170 | a failure is a reader completion with that status, and the reader restarts |
| HostLatch.LatchInvariant | UDEFX_host/driver/ioctl.c:436-472 | in every atomic run: count at most 100, count positive implies nobody waits, count zero implies status 0, and the mailbox holds the last value cached since it was emptied |
| HostLatchSteps.AskUninterrupted | UDEFX_host/driver/ioctl.c:140-183 | an IOCTL's two steps, run back to back, are the atomic one, mailbox, waiters and completion alike |
| HostLatchSteps.CompletionUninterrupted | UDEFX_host/driver/ioctl.c:429-480 | retrieve, lock section and the whole drain, run back to back, are the atomic reader completion for every status |
| HostLatchSteps.CancelIsAtomic | UDEFX_host/driver/ioctl.c:173-174 | a cancellation is the atomic one |
| HostLatchSteps.AtomicRuns | UDEFX_host/driver/ioctl.c:140-480 | every atomic run, with all its completions, is the run of this machine in which nothing is interrupted |
| HostLatchSteps.MailboxHistory | UDEFX_host/driver/ioctl.c:145-163 | in every interleaving the counter is the number of values cached since the mailbox was last emptied, saturated at 100, and latestStatus the last of them or 0; it is emptied only by an IOCTL that takes a value, a success with a waiter, or a failure other than STATUS_CANCELLED |
| HostLatchSteps.Recorded | UDEFX_host/driver/ioctl.c:363-399 | in every interleaving the deliveries are the completions with a value, in order |
| HostLatchSteps.DeliversTheNewest | UDEFX_host/driver/ioctl.c:145-182 | a step delivers at most one value, the newest through the lock at that moment |
| HostLatchSteps.DeliveriesAreFresh | UDEFX_host/driver/ioctl.c:438-472 | for any number of concurrent IOCTLs every delivery is the newest interrupt at its linearisation point and no older one follows a newer |
| HostLatchSteps.BothStranded | UDEFX_host/driver/ioctl.c:173-174 | data and a waiter can both be left behind when the waiter parks between retrieve and lock |
| HostLatchSteps.Conservation | UDEFX_host/driver/ioctl.c:140-183 | in every interleaving each IOCTL is in exactly one of served, parked, about to park, held by the reader, cancelled or failed |
| HostLatchSteps.DrainServesAll | UDEFX_host/driver/ioctl.c:462-472 | an uninterrupted drain completes the held request and all parked ones, in order: those with room receive the value, the others fail |
| HostLatchSteps.NextInterruptServesAll | UDEFX_host/driver/ioctl.c:438-472 | if nothing interrupts its completion, the next interrupt completes all stranded waiters: those with room receive it, the others fail |
| HostLatchSteps.NextInterruptInRun | UDEFX_host/driver/ioctl.c:429-480 | whatever interrupts it: when the reader is idle again nobody waits, and every waiter parked at its retrieve has received the value, or failed for want of room or by the reader's failure, or was cancelled |
| InterruptPipeline.UnderWayStep | UDEFX_host/driver/interrupt.c:146-149 | every atomic operation but a raise keeps the signals under way, or takes one off at the host's end: taken by IOCTLs, with or without room for it, overwritten by a newer one, or erased |
| InterruptPipeline.GoodStep | UDEFX2/USBCom.c:326-421 | signals under way are genuine, in raise order and newer than any taken, and the IOCTLs received theirs in raise order: inductive through all operations, each one atomic step, and failures |
| InterruptPipeline.RaiseOrderObserved | UDEFX_host/driver/ioctl.c:436-472 | in every run in which each operation is one atomic step, whatever fails, the IOCTLs observe raise order without an older value after a newer |
| InterruptPipeline.FreshestLostExactly | UDEFX_host/driver/ioctl.c:455-459 | an atomic operation loses the last raised value if and only if, with nothing newer under way, it erases it by a failure other than cancellation or takes it for IOCTLs that all lack room for 4 bytes; and lost it stays until the next raise |
| InterruptPipeline.FreshestInRun | UDEFX_host/driver/ioctl.c:429-480 | over every run of atomic operations: the last raised value has been received or is cached on the host, in flight or cached on the device if and only if no operation since that raise lost it so |
| InterruptPipeline.ShortBufferSwallows | UDEFX_host/driver/ioctl.c:145-163 | a run from the start, without reader errors, in which an IOCTL with no output buffer takes the only value and fails |
| InterruptPipeline.FailureErases | UDEFX_host/driver/ioctl.c:455-459 | a run from the start in which a URB refused by the sleeping device erases the only value |
| InterruptPipeline.FreshestNeverLost | UDEFX_host/driver/interrupt.c:54-57 | in every run of atomic operations without reader errors other than cancellation, and with room for 4 bytes in every IOCTL, the last raised value has been received by an IOCTL, or is cached on the host, in flight, or cached on the device |
| InterruptPipeline.OnlySourceOfErrors | UDEFX2/USBCom.c:409-415 | such an error arises exactly from a URB submitted to a sleeping device with nothing cached |
| InterruptPipeline.ErrorFreeRun | UDEFX2/USBCom.c:409-415 | so runs without such submissions have no such reader error |
| InterruptPipeline.DeviceWithoutNumbers | UDEFX2/USBCom.c:325-421 | erasing the raise numbers from the pipeline's device end gives exactly the steps that the driver's methods take |
| InterruptPipeline.HostWithoutNumbers | UDEFX_host/driver/ioctl.c:429-480 | the same for the host end |
| MissionText.AutoBot.Answer | UDEFX_host/exe/testapp.c:564-585 | whatever the reused buffer held before, the reply is the mission cut to 249 characters with the suffix, cut again, and its terminator |
| MissionText.AutoBot.AppendSuffix | UDEFX_host/exe/testapp.c:580-582 | the in-place append with truncation yields the concatenation cut to 249 characters |
| MissionText.CommandTrip.Receive | UDEFX_host/exe/testapp.c:671-678 | the text shown is the whole response |
| MissionText.ReadLeavesText | UDEFX_host/exe/testapp.c:570-571 | a read into any buffer leaves the text cut to 249 characters |
| MissionText.ResponseFits | UDEFX_host/exe/testapp.c:671-677 | a response and its terminator fit a 250-byte read |
| MissionText.ResponseInFigures | UDEFX_host/exe/testapp.c:564-585 | the response is at most 249 characters of the mission with "_response" behind them, cut to 249 characters |
| Mission.InvStep | UDEFX_host/exe/testapp.c:560-611 | each step of AutoBot, session or bus keeps both queues, the missions that reached AutoBot, the responses, the sessions and the count of signals in agreement |
| Mission.RaisedInMemory | UDEFX_host/exe/testapp.c:591-601 | the ULONG that AutoBot passes to its IOCTL is the value raised for exactly the bytes 10, 0, 0, 0; the session brings 4 bytes and both programs read up to 250 |
| Mission.EachTripReadsTheNextResponse | UDEFX_host/exe/testapp.c:643-678 | in every run, however the reads and writes of the two programs interleave and whichever IOCTLs fail: the k-th result is the response to the k-th mission that reached AutoBot, it is read by session k plus those that had left, and no session told of a signal has to wait for a response |
| Mission.EachTripReadsItsResponse | UDEFX_host/exe/testapp.c:643-678 | in every such run in which no session left early each one reads the response to its own mission |
| Mission.FifoExactly | UDEFX2/Misc.c:137-141 | missions go on reaching AutoBot in order exactly until one is handed to a read parked beside older ones |
| Mission.StaleByThoseThatLeft | UDEFX_host/exe/testapp.c:651-661 | in every run without such overtaking a session reads the response to the mission as many sessions before its own as had left early, so its own if and only if none had |
| Mission.StaleHappens | UDEFX_host/exe/testapp.c:658-661 | for any two missions a run in which the second session reads the response to the first |
| Mission.MissionStranded | UDEFX2/Misc.c:202-214 | for any mission a run in which it and AutoBot's read miss each other, and its session can no longer finish |
| Mission.OneTrip | UDEFX_host/exe/testapp.c:643-678 | for every mission there is a run in which its session finishes |
| Mission.OpenSessionFinishes | UDEFX_host/exe/testapp.c:643-678 | from every state in which the open session can finish some continuation finishes it, with no session leaving and none other opening |
| Mission.FinishesExactly | UDEFX_host/exe/testapp.c:643-678 | in every reachable state, with atomic interrupt operations: some continuation in which no other session opens finishes the open one if and only if it has been told of a signal, or one is under way or AutoBot can still come to raise one, and no failure is next on the wire while it waits |
| Mission.FinishesUnlessStranded | UDEFX_host/exe/testapp.c:643-678 | until a session has left that condition is: the mission is not stranded, its signal, once raised, is not lost, and no failure is next while it waits |
| LoopbackPackets.EmitFull | rpi/source/simpleufn/f_one.c:268-269 | full packets ahead of more data leave an IN request as they came |
| LoopbackPackets.EmitsWhatWasReceived | rpi/source/simpleufn/f_one.c:253-254 | the IN request made from a finished OUT request emits exactly the packets received, zero-length ones included |
| LoopbackMachine.PlacesStep | rpi/source/simpleufn/f_one.c:239-298 | no step creates, loses or doubles a pair |
| LoopbackMachine.AbortedExactly | rpi/source/simpleufn/f_one.c:267-290 | a run counts as aborted exactly from the first request that the controller ends with an error, or refuses, on an enabled endpoint |
| LoopbackMachine.Ownership | rpi/source/simpleufn/f_one.c:245-297 | in every run each pair is at every moment in exactly one of queued on out_ep, queued on in_ep, inside a completion, or freed once; live and freed pairs make qlen |
| LoopbackMachine.TeardownTerminates | rpi/source/simpleufn/f_one.c:309-330 | after both disables at most two steps per live pair remain |
| LoopbackMachine.FinishedExactly | rpi/source/simpleufn/f_one.c:323-330 | nothing is left to happen if and only if both endpoints are disabled and no pair is live |
| LoopbackMachine.Teardown | rpi/source/simpleufn/f_one.c:268-296 | however completions, errors and the two disables interleave, at the end every pair and its buffer has been freed exactly once |
| LoopbackTransparency.FinishedCarries | rpi/source/simpleufn/f_one.c:246-257 | a request ended by a short or buffer-filling packet comes back as the packets that filled it |
| LoopbackTransparency.TransparentStep | rpi/source/simpleufn/f_one.c:239-298 | every step keeps the packet pipeline equal to what the host sent |
| LoopbackTransparency.Transparency | rpi/source/simpleufn/f_one.c:239-298 | over an aligned buffer, in every run without aborted requests, the OUT packet stream is the IN packets read, then those in_ep will emit, then the partly filled OUT buffer |
| LoopbackTransparency.Overflows | rpi/source/simpleufn/f_one.c:278-296 | over any other buffer there is a run that loses packets |
| LoopbackTransparency.TransparentExactly | rpi/source/simpleufn/f_one.c:357-357 | every run is transparent if and only if the request length is a positive multiple of the maximum packet size |
| LoopbackDriver.Endpoint.Queue | rpi/source/simpleufn/f_one.c:267-275 | queueing appends, and fails without effect on a disabled endpoint or by the controller's own error |
| LoopbackDriver.OwnedNext | rpi/source/simpleufn/f_one.c:245-297 | the driver's ownership invariant survives every step of the machine |
| LoopbackDriver.OutDoneCompletes | rpi/source/simpleufn/f_one.c:246-257 | a pair whose OUT request is being reported is on no queue, in no other completion and not freed, and its next place is that of the machine's step |
| LoopbackDriver.InDoneCompletes | rpi/source/simpleufn/f_one.c:258-275 | the same for an IN request |
| LoopbackDriver.FailedCompletes | rpi/source/simpleufn/f_one.c:278-296 | the same for a request that ended with an error |
| LoopbackDriver.PacketReceived | rpi/source/simpleufn/f_one.c:239-298 | where a packet of the host takes the first OUT request is the machine's step, ownership included |
| LoopbackDriver.PacketSent | rpi/source/simpleufn/f_one.c:239-298 | the same for a packet read by the host |
| LoopbackDriver.Loopback.FreeRequest | rpi/source/simpleufn/f_one.c:292-294 | only a request that is still allocated may be freed |
| LoopbackDriver.Loopback.FreeEpReq | rpi/source/simpleufn/f_one.c:295-295 | only a buffer and a request that are still allocated may be freed |
| LoopbackDriver.Loopback.FreePair | rpi/source/simpleufn/f_one.c:291-296 | the error exit frees both requests and the shared buffer of the pair, and nothing else |
| LoopbackDriver.Loopback.Prepare | rpi/source/simpleufn/f_one.c:252-257 | the IN request of the pair carries exactly the bytes received, with the zero flag of a short transfer |
| LoopbackDriver.Loopback.LoopOut | rpi/source/simpleufn/f_one.c:247-275 | a finished OUT request hands its bytes to the IN request of the pair, which is queued, or the pair is freed when queueing fails |
| LoopbackDriver.Loopback.LoopIn | rpi/source/simpleufn/f_one.c:258-275 | a finished IN request hands the buffer back to the OUT request, which is queued, or the pair is freed when queueing fails |
| LoopbackDriver.Loopback.Complete | rpi/source/simpleufn/f_one.c:239-298 | loopback_complete, for any request and status: pointers stay an involution, buffers stay unshared between pairs, and the pair goes where the machine says |
| LoopbackDriver.Loopback.CompleteOut | rpi/source/simpleufn/f_one.c:239-275 | from every valid heap with a finished OUT request, reporting it takes the machine's step to a valid heap |
| LoopbackDriver.Loopback.CompleteIn | rpi/source/simpleufn/f_one.c:258-275 | the same for any finished IN request |
| LoopbackDriver.Loopback.CompleteFailed | rpi/source/simpleufn/f_one.c:278-296 | the same for any failed request, which frees its pair |
| LoopbackDriver.Loopback.HostOut | rpi/source/simpleufn/f_one.c:246-257 | the controller writes a packet behind the bytes already in the first OUT buffer, and ends the request when the packet is short, fills the buffer or overflows it: the machine's step, from every valid heap to a valid heap |
| LoopbackDriver.Loopback.HostIn | rpi/source/simpleufn/f_one.c:259-264 | the host reads the next packet of the first IN request, zero-length one included, and the last one ends it: the machine's step, and the packet is the machine's |
| LoopbackDriver.Loopback.AbortOut | rpi/source/simpleufn/f_one.c:288-290 | any queued OUT request can be taken off with an error: the machine's step |
| LoopbackDriver.Loopback.AbortIn | rpi/source/simpleufn/f_one.c:288-290 | the same for any queued IN request |
| LoopbackDriver.Loopback.Perform | rpi/source/simpleufn/f_one.c:239-330 | every step the machine can take, driver and controller take on the heap, from any valid heap to a valid one, and the packet handed to the host is the machine's |
| LoopbackDriver.Loopback.Run | rpi/source/simpleufn/f_one.c:239-330 | and so every run, returning the packets the host reads |
| LoopbackDriver.Loopback.Session | rpi/source/simpleufn/f_one.c:239-330 | from a successful enable, after any run: the requests and buffers allocated are those of the pairs not freed; over an aligned buffer, unless a request was aborted, the packets the host has read are the first of those it wrote; and when nothing is left to happen nothing is allocated |
| LoopbackDriver.Loopback.DisableOut | rpi/source/simpleufn/f_one.c:300-307 | disabling out_ep completes and frees everything queued there, in order, and nothing else |
| LoopbackDriver.Loopback.DisableIn | rpi/source/simpleufn/f_one.c:300-307 | the same for in_ep |
| LoopbackDriver.Loopback.Settle | rpi/source/simpleufn/f_one.c:284-296 | with both endpoints disabled and empty, running the completions under way frees every pair |
| LoopbackDriver.Loopback.DisableLoopback | rpi/source/simpleufn/f_one.c:323-330 | from every valid heap, whatever is queued or under way: both endpoints end up disabled and empty and nothing stays allocated |
| LoopbackDriver.Loopback.QueueFirst | rpi/source/simpleufn/f_one.c:369-382 | the new pair is queued, or its requests and buffer are freed again |
| LoopbackDriver.Loopback.AllocPair | rpi/source/simpleufn/f_one.c:350-384 | one round of allocation adds one linked pair with a buffer of its own, or nothing, for each point of failure |
| LoopbackDriver.Loopback.AllocRequests | rpi/source/simpleufn/f_one.c:337-385 | when round i fails exactly the i earlier pairs are live; on success exactly qlen are queued; the result code says which |
| LoopbackDriver.Loopback.EnableLoopback | rpi/source/simpleufn/f_one.c:406-432 | success leaves the machine's start state; any failure leaves nothing allocated and both endpoints disabled |
| LoopbackDriver.Loopback.SetAlt | rpi/source/simpleufn/f_one.c:434-443 | whatever was queued or under way before, the function starts afresh or is left disabled with nothing allocated |
| LoopbackOptions.Options.Alloc | rpi/source/simpleufn/f_one.c:452-481 | a function takes the current options, with 32 pairs for none, and is counted |
| LoopbackOptions.Options.Free | rpi/source/simpleufn/f_one.c:225-237 | freeing a function uncounts exactly it |
| LoopbackOptions.Options.StoreQlen | rpi/source/simpleufn/f_one.c:512-534 | the queue length cannot change while a function made from it lives |
| LoopbackOptions.Options.StoreBuflen | rpi/source/simpleufn/f_one.c:550-572 | neither can the buffer length |
| Descriptors.Dumper.DumpEndpoints | UDEFX_host/exe/dump.c:426-433 | the inner loop shows what the walk over the bytes yields and stops where it does, for any bytes over which it stays inside the 256-byte buffer |
| Descriptors.Dumper.Dump | UDEFX_host/exe/dump.c:411-436 | the outer loop terminates and shows what the walk yields, for any contents over which it stays inside the 256-byte buffer and makes progress, past wTotalLength or not |
| Descriptors.Dumper.DumpConfiguration | UDEFX_host/exe/dump.c:411-436 | for a buffer that starts with any well-formed configuration the program shows its interfaces and endpoints, in order and nothing else, if and only if there is an interface and no descriptor of another type |
| Descriptors.InterfaceRoundTrip | UDEFX_host/exe/dump.c:421-434 | one turn of the loop recovers one interface with its endpoints and ends at its last byte, if no other descriptor is among them |
| Descriptors.ConfigOffsets | UDEFX2/usbdevice.c:59-67 | each field of the configuration descriptor stands at its offset in table 9-10 of USB 2.0 |
| Descriptors.InterfaceOffsets | UDEFX2/usbdevice.c:69-78 | the same for the interface descriptor, table 9-12 |
| Descriptors.EndpointOffsets | UDEFX2/usbdevice.c:80-102 | the same for the endpoint descriptor, table 9-13 |
| Descriptors.Dumper.ReadInterfaceAt | UDEFX_host/exe/dump.c:421-424 | the program reads each field of an interface descriptor at its offset |
| Descriptors.Dumper.ReadEndpointAt | UDEFX_host/exe/dump.c:426-433 | the same for an endpoint descriptor |
| Descriptors.RoundTrip | UDEFX_host/exe/dump.c:411-436 | for every well-formed configuration, with descriptors of other types anywhere behind the first, and whatever lies behind it in the buffer: the walk recovers all interfaces and endpoints, in order and nothing else, if and only if there is an interface and no descriptor of another type; it then ends exactly at wTotalLength |
| Descriptors.Walked | UDEFX_host/exe/dump.c:411-436 | the walk takes one descriptor for each line it shows, and stops only at or past wTotalLength |
| Descriptors.EmptyConfigInBuffer | UDEFX_host/exe/dump.c:381-436 | for one without interfaces the program shows one interface made of zeros |
| Descriptors.Udefx2Bytes | UDEFX2/usbdevice.c:57-103 | the shipped descriptor set is the serialisation of one interface with three endpoints |
| Descriptors.Udefx2RoundTrip | UDEFX2/usbdevice.c:57-103 | and the walk over it shows exactly those |
| Descriptors.OtgBytes | rpi/source/simplegadget/one.c:271-285 | the configuration of the loopback gadget on an OTG controller, byte for byte |
| Descriptors.OtgMisread | rpi/source/simplegadget/one.c:271-285 | over it the walk leaves wTotalLength, and in a longer buffer shows one interface with four endpoints |
| AutoResume.Gadget.constructor | rpi/source/simplegadget/one.c:262-268 | the step starts at autoresume * 1000 in 32 bits |
| AutoResume.Gadget.Suspend | rpi/source/simplegadget/one.c:146-164 | schedules the step, or autoresume * 1000 once the step exceeds max_autoresume * 1000, and adds the interval, all in 32 bits; so the n-th wake-up has the n-th delay of the recurrence; otherwise nothing changes |
| AutoResume.Gadget.RampInParameters | rpi/source/simplegadget/one.c:146-164 | with 0 < autoresume <= max_autoresume and no harmful wrap the n-th delay is autoresume * 1000 + (n mod ((max_autoresume - autoresume) * 1000 / interval + 1)) * interval |
| AutoResume.Gadget.NoLimitInParameters | rpi/source/simplegadget/one.c:146-164 | with max_autoresume 0 it is (autoresume * 1000 + n * interval) modulo 2^32 |
| AutoResume.ClosedForm | rpi/source/simplegadget/one.c:151-161 | the n-th delay is A + (n mod ((M-A)/I + 1))*I |
| AutoResume.DelayWithinLimit | rpi/source/simplegadget/one.c:152-154 | no delay exceeds M, whatever wraps |
| AutoResume.DelayAtLeastFirst | rpi/source/simplegadget/one.c:152-161 | no delay falls below A if no harmful wrap occurs |
| AutoResume.LowerBoundExactly | rpi/source/simplegadget/one.c:161-161 | if M + I is less than 2^32 + A, all delays stay at or above A if and only if no harmful wrap occurs |
| AutoResume.ClosedFormExactly | rpi/source/simplegadget/one.c:161-161 | the closed form holds for all n if and only if no harmful 32-bit wrap occurs |
| AutoResume.WrapSurfaces | rpi/source/simplegadget/one.c:161-161 | a harmful wrap shows in the delay after the first period |
| AutoResume.HarmfulWrapHappens | rpi/source/simplegadget/one.c:161-161 | settings the driver accepts whose second delay lies below the first |
| AutoResume.StartAboveLimit | rpi/source/simplegadget/one.c:152-161 | a first delay above the limit is scheduled every time if and only if the step after it, modulo 2^32, is above the limit or that delay again |
| AutoResume.StartAboveLimitWraps | rpi/source/simplegadget/one.c:152-161 | settings for which it is not |
| AutoResume.NoInterval | rpi/source/simplegadget/one.c:161-161 | without an interval every delay is the first one |
| AutoResume.NoLimit | rpi/source/simplegadget/one.c:151-161 | without a limit the n-th delay is A + n*I modulo 2^32 |

## Left out

- Misc.WriteReadQueue.PushWrite: a NULL write buffer and pool internals are not modelled; the bytes come as a value.
- BackChannel.MissionPort.HandleWrite: the byte count reported for a write whose buffer cannot be retrieved is unspecified, as the source leaves the variable uninitialised on the back channel; the invalid control code of the bulk OUT handler is the same exit.
- DeviceLatch.Device.InterruptInUrb: an invalid control code drops the URB uncompleted, as in the source; that such a URB is never completed is not stated further.
- HostLatchSteps.DeliveriesAreFresh: reader completions are serialised; completions of several continuous readers in parallel are not modelled.
- InterruptPipeline.RaiseOrderObserved: holds of atomic operations; PipelineSteps takes the device apart and shows what then remains, DeviceLatchSteps.OrderInverted that order does not.
- InterruptPipeline.GoodStep: every operation is one atomic step, as above.
- PipelineSteps.NewestInRun: the host's operations are one step each; HostLatchSteps takes them apart without the wire and the device.
- InterruptPipeline.FreshestNeverLost: every operation is one atomic step, and the continuous reader's URBs have 4 bytes, as configured.
- Mission.EachTripReadsTheNextResponse: the interrupt operations are one atomic step each; failed opens, reads and writes of the two programs, and programs that are killed, are excluded. A failed IOCTL is included.
- LoopbackMachine.Ownership: a run goes from a successful enable to the end of teardown; disabling an endpoint is taken to complete everything queued on it, in any order, before the next enable.
- LoopbackTransparency.Transparency: says nothing once the controller has completed a request with an error, or refused one, on an enabled endpoint; that request's packets are lost.
- LoopbackTransparency.TransparentExactly: the request length is that of the allocated OUT request; alloc_ep_req and free_ep_req of the kernel's u_f.h are not part of this model, and where alloc_ep_req rounds the length up to the packet size every length but zero is aligned.
- LoopbackDriver.Loopback.DisableLoopback: usb_ep_disable is taken to return only when the completions of the endpoint's requests have run, in the order OUT, IN, failed.
- LoopbackOptions.Options.StoreQlen: the parsing of the text is a parameter, and the lock is taken for granted.
- Descriptors.Dumper.Dump: contents over which the source would leave its 256-byte buffer, or never come to an end, are excluded by the precondition.
- AutoResume.DelayAtLeastFirst: one direction where M + I is 2^32 + A or more; a wrap can then land above A, and which later ones break the bound is not characterised.
- AutoResume.Gadget.Suspend: the timer and the conversion to jiffies are not modelled; the delay is the one asked for.
- NTSTATUS codes are a datatype of the cases the code distinguishes, not their numbers.
- Device and driver creation, endpoint registration, string and control transfers, and the bulk read/write path of the host driver: straight-line framework calls.
- Framework internals (WDF, UdeCx, the gadget core), power policy, IRQLs, pool types and tracing.
- Console parsing, printing, device lookup and the interactive commands of testapp.c and dump.c.
