# Hyperbug: verified models of the machine monitor's state machines

Hyperbug is a small KVM virtual machine monitor. This project models the parts of it that keep
state a guest, a debugger or another process can drive: virtqueues, PCI configuration space and the
address bus, the GDB stub's breakpoints, the boot page tables, the snapshot stream and the
migration handoff, and record/replay. Each model is verified with Dafny 4.11:
`dafny verify dfyconfig.toml`.

The models have two layers. Specification functions say what an operation does to a value (a memory
image, a queue, a configuration space), and lemmas prove what holds over all inputs, all runs or
all reachable states. Where the source changes fields, buffers or guest memory step by step, a
class or a method with loops does the same and is proved to refine the specification function.

| file | source | main results |
|---|---|---|
| `Memory.dfy`, `Bytes.dfy`, `Seqs.dfy` | `src/mem.rs` | bounds test without overflow; checked writes are all or nothing |
| `VirtQueue.dfy`, `Posting.dfy` | `src/virtio.rs` | the bounded descriptor walk accepts exactly the well-formed chains; what a driver posts, byte by byte, is what is popped |
| `UsedRing.dfy` | `src/virtio.rs` | the ring holds the last completions in order, for every interleaving, exactly when the size divides 65536 |
| `Drain.dfy` | `src/virtio.rs` | a drain handles the available chains in ring order although memory changes under it |
| `Deliver.dfy` | `src/virtio.rs` | the two delivery paths agree exactly when no empty buffer is in the way; delivered data reads back |
| `Legacy.dfy`, `LegacyDevice.dfy` | `src/virtio.rs` | reachable queues have the legacy layout; a restored device is bisimilar to the saved one |
| `Gpio.dfy` | `src/virtio_gpio.rs` | event buffers are conserved over every run, and their status goes into the driver's buffers |
| `Bus.dfy`, `Pci.dfy`, `PciBus.dfy` | `src/device.rs`, `src/pci.rs` | BARs and both buses agree after any port traffic |
| `PciHeader.dfy`, `PciSizing.dfy`, `PciMsi.dfy` | `src/pci.rs` | what a driver reads of the configuration header, byte by byte; BAR sizing is invisible; MSI programming |
| `PciRestore.dfy`, `PciContest.dfy` | `src/pci.rs` | what a restore builds, exactly when that is the saved machine, and a machine it does not bring back |
| `GdbStub.dfy` | `src/gdbstub.rs` | a debugger cannot tell the stub from one on memory without breakpoints |
| `PageTables.dfy` | `src/gdt.rs` | the processor's walk is the identity up to the memory size and faults beyond |
| `Snapshot.dfy`, `Handoff.dfy` | `src/snapshot.rs`, `src/migrate.rs`, `src/reactor.rs`, `src/vcpu.rs`, `src/error.rs`, `src/fork.rs` | apart from forked copies the guest runs in at most one process, in every interleaving |
| `Record.dfy`, `Replay.dfy` | `src/record.rs` | crash prefixes; the RNG stream re-served in any amounts |

Standards referred to: split virtqueues, section 2.6 of Virtio 1.1 (legacy layout 2.6.2, descriptors 2.6.5,
available ring 2.6.6); GPIO, section 5.18 of
Virtio 1.2; configuration header, BAR sizing and MSI, sections 6.1, 6.2.5.1
and 6.8.1 of PCI Local Bus 3.0; 4-level paging,
section 4.5 of the Intel SDM, volume 3A.

Some properties one might expect do not hold of the code. Each is stated with the exact condition
under which it does:

- On a used ring whose size does not divide 65536, a completion overwrites one the driver still
  expects when the index wraps (`UsedRings.RingOrderExactly`).
- `try_deliver_rx` passes over an empty device-writable buffer, `try_deliver_async` stops at it
  (`Deliveries.SameScatterExactly`).
- Setting a breakpoint where one is already set takes the trap byte for the program's own
  (`GdbStubs.GdbStub.InsertBreakpoint`).
- The comment on `detach` (`src/gdbstub.rs:360-363`) says that guest debugging is disabled. The code
  leaves it as it was last armed: it is off only if the guest was never let go, and stepping is off
  only if the last stop was not a step's (`GdbStubs.GdbStub.Detach`). After a step, a stop and a
  detach every instruction still exits, and each exit is injected into the guest as a breakpoint
  (`GdbStubs.GdbStub.StepStopDetach`).
- Of two devices given the same window, the saved state does not say which one has it. A restore
  gives it to the one in the earlier slot, so it brings back the saved machine exactly if every
  device that lost its window lost it to a fixed region or to an earlier slot, and no BAR was being
  sized (`PciRestores.RestoreAfterSave`, `PciContests.RestoreMayChangeHands`).
- A GPIO event buffer of length 0 is held like any other, and its status byte then goes outside every
  buffer of the chain; it goes into the buffer exactly if the buffer has room
  (`GpioDevice.EmptyEventBuffer`, `GpioDevice.StatusInBuffers`).
- A recorded payload of 4 GiB or more does not survive the file, because its length field is
  truncated to 32 bits (`Recordings.RoundTripExactly`).

## Model

| member | source | states |
|---|---|---|
| Memory.GuestMemory.InBounds | src/mem.rs:156-162 | The range test is the mathematical one, also where address plus length exceeds 64 bits |
| Memory.GuestMemory.ReadChecked | src/mem.rs:165-179 | Succeeds exactly for ranges inside RAM, and then returns those bytes |
| Memory.GuestMemory.WriteChecked | src/mem.rs:182-192 | Replaces exactly the range when it fits and otherwise changes nothing |
| Memory.GuestMemory.ReadU16Checked | src/mem.rs:195-198 | The little-endian value at the address, if both bytes are in RAM |
| Bytes.LittleEndian2 | src/mem.rs:195-225 | The 16-bit accessors mean numbers with the least significant byte first |
| Bytes.LittleEndian4 | src/mem.rs:208-229 | The same for 32 bits |
| Bytes.LittleEndian8 | src/mem.rs:216-219 | The same for 64 bits |
| VirtQueues.VirtQueue.SetPfn | src/virtio.rs:137-148 | The new queue is the legacy layout of the page frame; frame 0 disables it and keeps the addresses |
| VirtQueues.VirtQueue.WalkTable | src/virtio.rs:205-243 | The loop over descriptors in memory is the bounded walk of the descriptor table, malformed chains included |
| VirtQueues.WalkAcceptsExactlyChains | src/virtio.rs:185-243 | The walk yields buffers if and only if they are the path through the table from the head: each descriptor inside the table, each buffer in RAM, all together no larger than RAM, ending at the first without a next or cut at the queue size |
| VirtQueues.VirtQueue.TryPop | src/virtio.rs:185-243 | A pop returns the next chain exactly when one is there and well formed; a malformed chain consumes its ring entry, an empty or unreadable ring moves nothing |
| Postings.PopsWhatWasPosted | src/virtio.rs:185-243 | A chain in the driver's own bytes (descriptors with address, length, flags 1 for next and 2 for writable, and next index; head in its ring slot; index two bytes into the ring) is popped with exactly its buffers, and its ring entry is used up |
| Postings.EntryUsedUp | src/virtio.rs:187-200 | Any entry made available is used up, and popped if and only if it heads a well-formed chain; without one the queue stays where it is |
| UsedRings.PushPublishes | src/virtio.rs:254-264 | The three stores of a push are one publication on the ring the driver sees, and nothing outside the ring changes |
| UsedRings.PushBytes | src/virtio.rs:254-264 | In bytes: head and length in the entry at the index modulo the size, eight bytes each from the fourth on; the index two bytes in, one further; every other byte as it was |
| UsedRings.PublishedInOrder | src/virtio.rs:254-264 | After any number of publications the index has advanced by their number modulo 65536 and each of the last `size` is in the slot the driver looks in |
| UsedRings.RingOrderExactly | src/virtio.rs:254-264 | That holds for all rings and all publications if and only if the size divides 65536 |
| UsedRings.UsedRingHistory | src/virtio.rs:245-264 | The same in guest memory, for any interleaving of completions with stores that avoid the ring |
| Drains.PushUsedHead | src/virtio.rs:254-264 | Memory after the method is the specified push; a queue not in use is left alone |
| Drains.HandleChain | src/virtio.rs:466-478 | The device's stores, then the used entry unless the chain was deferred |
| Drains.CompletedLast | src/virtio.rs:466-478 | A chain is published after everything stored for it, with the length the device reports; a deferred one is not published |
| Drains.HandledInRingOrder | src/virtio.rs:445-479 | The chains handled are those at consecutive ring positions from the device's index, at most up to the driver's; the drain stops earlier only at a position that does not pop, and leaves the index just past a malformed one |
| Drains.SamePop | src/virtio.rs:185-243 | A pop depends only on the descriptor table and the available ring |
| Drains.DrainQueue | src/virtio.rs:445-479 | For a device that stores into its chains' device-writable buffers, when the available chains' buffers and the used ring lie apart from descriptor table and available ring: the loop, which re-reads memory that is changing, terminates and comes to serving the chains read at the start; it reports whether anything was completed at once; a queue that wants no notification is not drained |
| Drains.DrainPublishesInOrder | src/virtio.rs:445-479 | After a drain the driver finds the completed chains on the used ring in the order they were made available, when no available chain has a device-writable buffer over the ring |
| Drains.ChainKeepsArea | src/virtio.rs:466-478 | Serving a chain whose buffers lie apart from the rings leaves what the next pop reads unchanged |
| Deliveries.PoppedInRam | src/virtio.rs:225-228 | Every buffer of a popped chain lies in RAM |
| Deliveries.FillBuffer | src/virtio.rs:531-549 | One buffer filled from header and frame holds the next bytes of the two put together |
| Deliveries.ScatterRx | src/virtio.rs:522-553 | The header-and-frame loop lays the packet out over the leading writable buffers and counts the bytes that fitted |
| Deliveries.ScatterFlat | src/virtio.rs:941-957 | The flat loop does the same over the buffers before the first without room |
| Deliveries.TryDeliverRx | src/virtio.rs:515-558 | Pops one chain, fills it and publishes it with the length written, modulo 2^32; without a chain memory is unchanged |
| Deliveries.TryDeliverAsync | src/virtio.rs:935-961 | The same for data in one piece |
| Deliveries.SameScatterExactly | src/virtio.rs:515-558 | The two loops report the same length if and only if no empty writable buffer stands before room the data still needs, and then leave the same memory |
| Deliveries.NoEmptyNoGap | src/virtio.rs:935-961 | A chain without empty writable buffers meets that condition for data of every length |
| Deliveries.DeliveriesAgree | src/virtio.rs:935-961 | Whole deliveries by the two paths, used ring included, are then the same |
| Deliveries.GatherScatter | src/virtio.rs:515-558 | With disjoint buffers, the chain read back in order is the data that fitted followed by what was there |
| Deliveries.CapacityIsLeading | src/virtio.rs:524-530 | What fits is the total length of the device-writable buffers before the first that is not |
| Deliveries.ScatterConfined | src/virtio.rs:524-553 | A delivery stores nothing outside the chain's device-writable buffers |
| Deliveries.DeliveredEntry | src/virtio.rs:515-558 | After a whole delivery the newest used-ring entry is the chain's head with the number of bytes that fitted |
| Deliveries.DeliveredReadsBack | src/virtio.rs:515-558 | And the chain read back holds the data that fitted followed by what was there, the used-ring update notwithstanding |
| LegacyTransport.WrittenReadsBack | src/virtio.rs:676-738 | Features, queue selector, status and page frame read back as written; a page frame enables its queue exactly when it is not zero |
| LegacyTransport.RegisterMap | src/virtio.rs:677-697 | What each register offset reads at its natural width; reading the interrupt status clears it; from 0x14 on the device's own configuration |
| LegacyTransport.OtherWidths | src/virtio.rs:671-674 | A narrower read gives the low bytes of a register, a wider one zeros after them |
| LegacyTransport.OtherWrites | src/virtio.rs:699-738 | Writes from 0x14 on go to the device; writes of other widths or to other registers do nothing |
| LegacyTransport.SizesShown | src/virtio.rs:688-688 | After any run the queue-size register shows the configured size of the selected queue |
| LegacyTransport.CompletionShows | src/virtio.rs:717-723 | A notification that completed a chain sets bit 0 of the interrupt status for one read |
| LegacyTransport.DeliveryShows | src/virtio.rs:515-558 | So does a delivery that found a chain; one that did not changes neither memory nor status |
| LegacyTransport.CompletionPublished | src/virtio.rs:488-501 | A deferred completion stores its status byte, publishes its head with one more than its length, and shows in the interrupt status |
| LegacyTransport.ResetStartsOver | src/virtio.rs:724-734 | After status 0 each queue, given a page frame, is what it would be on a new device |
| LegacyTransport.FirstChainAfterReset | src/virtio.rs:724-734 | So a driver starting at index 0 after a reset has its first chain popped |
| LegacyTransport.StepKeepsOk | src/virtio.rs:137-148 | Every operation keeps each queue enabled exactly when it has a page frame, and then in the layout of that frame |
| LegacyTransport.LayoutDisjoint | src/virtio.rs:137-148 | In that layout the three parts do not overlap and no address overflows 64 bits |
| LegacyTransport.ReachableQueues | src/virtio.rs:676-738 | Both hold of every queue after every run of operations on a new device |
| LegacyTransport.RestoredBisimilar | src/virtio.rs:577-608 | A saved blob restores into a new device of the same configuration, giving the saved registers and queues up to the addresses of disabled queues |
| LegacyTransport.OtherCountRejected | src/virtio.rs:597-601 | A blob saved with another number of queues is refused |
| LegacyTransport.BisimilarStep | src/virtio.rs:676-738 | No operation tells such devices apart, and they stay alike |
| LegacyTransport.RestoredRunsTheSame | src/virtio.rs:577-608 | After any past, save and restore: every later register read, pop, delivery, chain handling and all of guest memory are those of the original |
| LegacyTransport.NotifyIsTurns | src/virtio.rs:717-723 | A notification's drain is a run of single turns: one more than the chains to handle leaves the drained queue, device, memory and interrupt status |
| LegacyDevices.VirtioLegacyPci.constructor | src/virtio.rs:418-434 | A new device has fresh, disabled queues of the configured sizes |
| LegacyDevices.VirtioLegacyPci.Read | src/virtio.rs:677-697 | Register reads, with the interrupt status cleared by reading it |
| LegacyDevices.VirtioLegacyPci.Write | src/virtio.rs:699-738 | Register writes of the right width, all others ignored; status 0 resets; a notification drains its queue and asks for an interrupt exactly if a chain was completed |
| LegacyDevices.VirtioLegacyPci.Notify | src/virtio.rs:717-723 | Device, queue, memory and interrupt status after the drain; nothing at all on a queue the device does not want to hear of |
| LegacyDevices.VirtioLegacyPci.TryDeliverRx | src/virtio.rs:515-558 | The delivery on the device's own queue, memory and interrupt status |
| LegacyDevices.VirtioLegacyPci.DrainCompletions | src/virtio.rs:488-501 | Each finished request in turn, and one interrupt for all |
| LegacyDevices.VirtioLegacyPci.ResetQueues | src/virtio.rs:724-735 | The reset loop disables and rewinds every queue |
| LegacyDevices.VirtioLegacyPci.SaveState | src/virtio.rs:577-589 | The loop produces the specified blob |
| LegacyDevices.VirtioLegacyPci.RestoreState | src/virtio.rs:591-608 | Succeeds exactly on complete blobs for this number of queues, and then holds what they encode |
| GpioDevice.IrqTypeRequest | src/virtio_gpio.rs:124-187 | A well-formed interrupt-type request enables or disables just its line, leaves the held buffers alone and is answered with OK |
| GpioDevice.RequestAnswered | src/virtio_gpio.rs:152-187 | For every other message, line and value: the call the plugin receives and the two bytes of the answer, errors included |
| GpioDevice.NamesAnswered | src/virtio_gpio.rs:141-151 | The names are answered with an OK status and as many of their bytes as there is room for |
| GpioDevice.VirtioGpio.HandleRequest | src/virtio_gpio.rs:124-187 | The method's effect on device state, on the plugin and on memory is the specified reply, malformed requests included |
| GpioDevice.PluginAskedSensibly | src/virtio_gpio.rs:152-181 | Over every run, whatever the guest requests, the plugin is only asked about lines it has and only told directions and values that exist |
| GpioDevice.RequestsStoreInBuffers | src/virtio_gpio.rs:124-187 | The request device stores only into the response buffer of the chain at hand |
| GpioDevice.RequestsAllAnswered | src/virtio_gpio.rs:240-246 | Serving any chains completes each at once, in order |
| GpioDevice.DrainRequests | src/virtio.rs:1008-1032 | A kick answers every available request, in the order made, although the answers go into the memory the requests are read from; an interrupt is asked for exactly if there was one |
| GpioDevice.VirtioGpio.HandleEventArm | src/virtio_gpio.rs:189-205 | A well-formed event buffer is held for its line, replacing an earlier one; any other is finished at once |
| GpioDevice.EventArmed | src/virtio_gpio.rs:189-205 | A chain naming a line in its two bytes is held for that line with its device-writable buffer's address; any other is finished at once with length 0 |
| GpioDevice.EventTurnServes | src/virtio.rs:1008-1032 | A turn of the runs below is the drain's serving of the chain popped |
| GpioDevice.VirtioGpio.PollCompletions | src/virtio_gpio.rs:248-269 | The loop over fired lines is the specified poll |
| GpioDevice.PollConserves | src/virtio_gpio.rs:248-269 | Each buffer a poll publishes is one it stops holding; it stops holding those of the lines that fired while enabled, and no others |
| GpioDevice.PollConcat | src/virtio_gpio.rs:248-269 | Lines complete in the order they fired |
| GpioDevice.PollOne | src/virtio_gpio.rs:248-269 | One line completes its held buffer exactly if it is enabled and has one |
| GpioDevice.StatusInBuffers | src/virtio_gpio.rs:189-205 | Over every run, each completion is of a popped event chain: the byte 1 goes to the start of that chain's device-writable buffer (inside it exactly if it has room), then its head is published with length 1 |
| GpioDevice.PublishedWereEnabled | src/virtio_gpio.rs:248-269 | Each completion is the held buffer of a line that fired and is enabled |
| GpioDevice.EveryRunConserves | src/virtio_gpio.rs:189-205 | Over every run, the heads popped from the event queue are, with multiplicity, those published, those held and those displaced by a re-arm |
| GpioDevice.StepSupersedes | src/virtio_gpio.rs:189-205 | A step displaces a held buffer exactly if it serves an event chain naming a line that is armed |
| GpioDevice.NothingLost | src/virtio_gpio.rs:189-205 | If no served event chain names a line that is armed, a buffer popped once is published exactly once or still held |
| GpioDevice.HeldUntilFired | src/virtio_gpio.rs:248-269 | A held buffer is let go only by its own enabled line firing, or by being displaced |
| GpioDevice.DrainCompletions | src/virtio.rs:985-998 | Each completion stores its status byte and then its used entry, in order; an interrupt is raised exactly if there was one |
| GpioDevice.PublishedOnRing | src/virtio.rs:985-1032 | Over every run, the used ring in guest memory holds just the publications of the history |
| GpioDevice.EmptyEventBuffer | src/virtio_gpio.rs:189-205 | An input on which the status byte lands outside the chain's buffers: an event buffer of length 0 |
| Buses.Bus.Register | src/device.rs:172-201 | The device's own region goes first; the new one is added exactly if it is not empty and overlaps no other; regions stay disjoint, one per device |
| Buses.Bus.Unregister | src/device.rs:203-206 | Exactly the device's region is gone |
| Buses.Bus.FindClash | src/device.rs:185-196 | Reports an overlap exactly if there is one |
| Buses.Bus.FindDevice | src/device.rs:208-228 | The device whose region covers the address, with offset and interrupt; nothing exactly if none does |
| Buses.AnswerUnique | src/device.rs:208-228 | On disjoint regions the answer does not depend on their order |
| Buses.OverlapsExactly | src/device.rs:184-186 | Ranges are taken to overlap exactly if they share an address |
| Buses.LastOfExactly | src/device.rs:183-183 | A region covers exactly its `size` addresses, as far as there are any |
| Buses.RegisteredExactly | src/device.rs:172-197 | The device has the region asked for exactly if it is not empty and lies clear of every other device's; otherwise none; no other region changes |
| PciSpace.WriteBarKeepsInv | src/pci.rs:577-606 | A BAR write keeps slots and both buses in agreement |
| PciSpace.OutKeepsInv | src/pci.rs:414-422 | So does every port write, of any width and to any register |
| PciSpace.InKeepsInv | src/pci.rs:424-432 | So does every port read, which may end a sizing |
| PciSpace.EveryRunKeepsInv | src/pci.rs:530-606 | After any traffic on the two ports, for devices with any BARs, both buses hold disjoint regions, one per device, each device only at exactly the range of one of its BARs with a non-zero base, and mappings that are not PCI's are untouched |
| PciSpace.BarWriteExactly | src/pci.rs:577-606 | A BAR write stores the address without its flag bits and leaves its device unmapped if and only if that is zero or overlaps another device; otherwise it is mapped at exactly its range with its interrupt; nothing else changes |
| PciSpace.SecondBarDisplacesFirst | src/device.rs:172-174 | Mapping a second BAR of the same space removes the first one's mapping |
| PciHeaders.HeaderRead | src/pci.rs:458-505 | After selecting a device and register, a read of any width at any data port gives the bytes of the type 0 header, the MSI capability and the device's own capabilities from there on, then ones; nothing changes but a sizing ended by a whole dword |
| PciHeaders.NobodyAnswers | src/pci.rs:434-451 | Disabled, on another bus or without a device, reads give ones and writes do nothing |
| PciHeaders.AddressPort | src/pci.rs:414-432 | The address port reads back what was written |
| PciHeaders.CommandWritten | src/pci.rs:548-550 | The command register takes the word written and nothing else changes |
| PciHeaders.MessageWritten | src/pci.rs:557-566 | Message control keeps the enable bit, message data the word; nothing else changes |
| PciHeaders.OtherWritesIgnored | src/pci.rs:547-575 | Writes of other widths, at other offsets or to other registers do nothing |
| PciSizing.SizingIsInvisible | src/pci.rs:517-606 | For a mapped BAR: read, all ones, read, write back; the mask decodes to the size if and only if the size is a multiple of the alignment, and slots, latch and both buses end as they were |
| PciMsi.MsiProgrammed | src/pci.rs:530-575 | Writing address, data and enable bit through the ports makes the device's message just that, and changes nothing else |
| PciMsi.MsiDisabled | src/pci.rs:638-643 | With the enable bit off the device has no message |
| PciRestores.RestoreBuilds | src/pci.rs:681-716 | What a restore of any saved machine builds: every slot as it was with no sizing under way, and on each bus the BARs mapped afresh in slot order |
| PciRestores.BusRebuilt | src/pci.rs:577-606 | Mapped afresh in slot order, a bus is what it was if and only if every BAR that had lost its address overlaps a fixed region or that of an earlier slot |
| PciRestores.RestoreAfterSave | src/pci.rs:651-716 | Restoring the saved blob into a newly wired machine gives the saved machine if and only if no BAR is being sized and every BAR that lost its address overlaps a fixed region or that of an earlier slot |
| PciRestores.UnknownSlotRejected | src/pci.rs:697-705 | A snapshot with a device that this machine does not have is refused |
| PciContests.RestoreMayChangeHands | src/pci.rs:651-716 | Two programming orders of one window save the same bytes but map different devices; restored, the first slot's device has it, also where the second's had |
| PciRestores.RestoredIsIndistinguishable | src/pci.rs:651-716 | From such states, the same MSI state, and after a re-select the same state after any further traffic |
| PciBuses.PciBus.Register | src/pci.rs:368-412 | Adds a blank slot exactly if its device number is free |
| PciBuses.PciBus.SlotOf | src/pci.rs:448-451 | The first slot with the device number, if any |
| PciBuses.PciBus.WriteBar | src/pci.rs:577-606 | The method, registering on the real bus objects, refines the specified BAR write |
| PciBuses.PciBus.ReadBar | src/pci.rs:517-528 | Shows the address, or during sizing the mask; only a full read of the mask ends the sizing |
| PciBuses.PciBus.ConfigWrite | src/pci.rs:530-575 | The dispatch over registers, offsets and widths refines the specified write |
| PciBuses.PciBus.IoOut | src/pci.rs:414-422 | The port write refines the specified one on slots, selector and both buses |
| PciBuses.PciBus.IoIn | src/pci.rs:424-528 | The port read returns the specified bytes and may only clear a sizing latch |
| PciBuses.PciBus.SaveState | src/pci.rs:651-672 | The loop produces the specified blob |
| PciBuses.PciBus.RestoreState | src/pci.rs:681-716 | Succeeds exactly where the specified restore does, with its result on slots and buses |
| GdbStubs.GdbStub.Resume | src/gdbstub.rs:337-358 | On an armed address the original byte is back and a step is forced; with stepping off every armed address holds the trap |
| GdbStubs.GdbStub.HandleDebugExit | src/gdbstub.rs:200-240 | A step taken for a continue reports nothing and the guest goes on freely, stepping only over a further breakpoint; after a continue a stop is reported only at an armed pc, after a step always; a stop leaves all traps armed; a foreign trap goes to the guest; through a stop stepping stays armed exactly if the stop was a step's |
| GdbStubs.GdbStub.InsertBreakpoint | src/gdbstub.rs:375-386 | Arms the address; the program's view changes if and only if the address was already armed over another byte |
| GdbStubs.GdbStub.RemoveBreakpoint | src/gdbstub.rs:388-395 | Disarms just that address |
| GdbStubs.GdbStub.ReadMemory | src/gdbstub.rs:400-418 | The reply of a debugger on memory without traps |
| GdbStubs.GdbStub.WriteMemory | src/gdbstub.rs:425-446 | A plain write of the program's memory under which every breakpoint stays armed |
| GdbStubs.GdbStub.Detach | src/gdbstub.rs:364-373 | Real memory is the program's own again; stepping is off if and only if the last stop was not a step's, guest debugging if and only if the guest was never let go |
| GdbStubs.GdbStub.StepStopDetach | src/gdbstub.rs:364-373 | After a step, its stop and a detach, stepping is still armed and every later debug exit is forwarded to the guest |
| GdbStubs.GdbStub.AfterDetach | src/gdbstub.rs:229-239 | After a detach every debug exit goes to the guest, and guest debugging stays as it was |
| GdbStubs.GdbStub.HandlePacket | src/gdbstub.rs:258-300 | Each command acts on the program's memory and answers as on plain memory, unless it sets a breakpoint where one is; and arms stepping exactly for a step or a continue from an armed address, wherever the command or an earlier register write has put rip |
| GdbStubs.GdbStub.ServeUntilResume | src/gdbstub.rs:246-256 | A whole conversation, up to the command that ends it, gives the replies and memory of a debugger without breakpoints |
| GdbStubs.GdbStub.Session | src/gdbstub.rs:200-300 | Over any interleaving of stores, debug exits and conversations, up to the first that is impossible or re-arms an address, the program's memory is what it would be without breakpoints; every stop reported is a step asked for or at an armed pc, and a step asked for is reported at the next exit; a pending step-over means stepping is armed, and with stepping off every trap is in place |
| PageTables.SetupPageTables | src/gdt.rs:93-125 | Refuses exactly sizes above the maximum, without a write; otherwise writes the specified entries and nothing below the tables or from 1 MiB on |
| PageTables.MapPages | src/gdt.rs:112-117 | The inner loop fills one page directory |
| PageTables.IdentityMapped | src/gdt.rs:93-125 | For every admitted size, the processor's walk, writes allowed at every level, takes every address below the size rounded up to 2 MiB to itself |
| PageTables.NothingElseMapped | src/gdt.rs:93-125 | From zeroed table pages, every other 48-bit address faults |
| PageTables.MaxIsLargest | src/gdt.rs:28-32 | The maximum is the largest number of gibibytes whose page directories fit between 0xb000 and 1 MiB and one table |
| Snapshots.WriteTo | src/snapshot.rs:356-393 | The stream built piece by piece is the specified encoding |
| Snapshots.ReadFrom | src/snapshot.rs:421-484 | Reading from a stream accepts just what the specified decoder does and consumes just its bytes |
| Snapshots.RoundTrip | src/snapshot.rs:356-484 | Reading what was written gives exactly the captured state and memory, blobs told apart, and leaves exactly the bytes behind it |
| Snapshots.DecodeMore | src/snapshot.rs:421-484 | The decoder never looks past what it consumes |
| Snapshots.StrictPrefixRejected | src/snapshot.rs:421-484 | Every strict prefix of a stream is an error |
| Snapshots.StreamLayout | src/snapshot.rs:356-393 | The order of the stream's fields, counts and blobs |
| Snapshots.AcceptedMagic | src/snapshot.rs:421-430 | Only a stream that starts with the magic is accepted |
| Handoff.PauseInvKept | src/reactor.rs:126-166 | In every interleaving, a granted pause means a parked reactor, and a reactor parked without a pause has been woken |
| Handoff.PauseGranted | src/reactor.rs:143-166 | An acknowledged request, to migrate or to fork, finds the reactor parked, where it stays until a resume or a further request; after a time-out the state is running and no reactor stays parked |
| Handoff.ResumedInvKept | src/migrate.rs:122-132 | Every step keeps: a source that still has its guest and is not migrating or forking it has no pause in force |
| Handoff.ReactorNotStranded | src/migrate.rs:122-132 | So in every run, however a migration or fork failed or ended, a reactor still parked has been woken and goes back to serving devices |
| Handoff.AcceptsOnlyWhole | src/migrate.rs:143-150 | A destination that accepts has received the whole stream |
| Handoff.InvHolds | src/migrate.rs:97-134 | The invariant of pause, streams and departure holds in every reachable state |
| Handoff.GuestRunsInOneProcess | src/vcpu.rs:127-186 | In every run, with any commands behind a migrate: a destination that took the guest over excludes the source and every other destination; and what a source in the guest has sent is rejected |
| Handoff.NeverReturns | src/migrate.rs:97-134 | Once a stream is complete no step enters the guest, opens another stream or forks a copy |
| Handoff.GoneForGood | src/fork.rs:121-153 | The same over whatever the source does from then on: it stays departed, and the number of forked copies stays what it was |
| Handoff.MigrationSucceeds | src/migrate.rs:97-134 | For every captured state and memory there is a run in which the whole stream is accepted and the source leaves with the migration as its cause |
| Handoff.ForkSucceeds | src/fork.rs:121-153 | And one in which a copy is forked and both go on |
| Handoff.FirstCauseStays | src/error.rs:168-176 | The first exit request is recorded and never changes; from then on the vCPU loop cannot enter the guest, and is left only with a cause |
| Recordings.ReadAll | src/record.rs:235-282 | The reading loop accepts just what the specified decoder does |
| Recordings.CrashPrefix | src/record.rs:235-282 | A recording cut at or after its header is readable if and only if the cut is between events, and then gives exactly those before it |
| Recordings.RoundTripExactly | src/record.rs:217-223 | A recording reads back as written if and only if every payload is shorter than 4 GiB |
| Recordings.HeaderLayout | src/record.rs:186-190 | The bytes of the file header |
| Recordings.EventLayout | src/record.rs:217-223 | The bytes of an event: kind 1, 2 or 3, branch count, milliseconds, length, payload |
| Recordings.AcceptedMagic | src/record.rs:235-282 | Only files with the magic, version 2 and known kinds are accepted |
| Replays.Replayer.constructor | src/record.rs:345-354 | The three kinds of event are told apart in order |
| Replays.StreamsByKind | src/record.rs:345-354 | The three streams are the events of each kind, in recorded order |
| Replays.PartitionExactly | src/record.rs:345-354 | And every recorded event is in exactly one of them |
| Replays.Replayer.PollKeyboard | src/record.rs:391-401 | The next key event is handed out exactly when its position or its time is reached |
| Replays.Replayer.NextRngBytes | src/record.rs:409-432 | Exactly the next `want` recorded bytes if that many are left, whatever the chunks; otherwise nothing is taken |
| Replays.Replayer.TakeFront | src/record.rs:422-430 | The refill loop ends, also with empty chunks, and what it took followed by what is left is what there was |
| Replays.Replayer.Run | src/record.rs:391-432 | For any interleaving of calls, bytes served and bytes left make up the recording, and keyboard payloads come in recorded order, each once |

## Left out

- The modern virtio transport's register file, its save and restore, and its outbox; its drain and delivery loops are the ones modelled.
- KVM calls, interrupt delivery, irqfd and ioeventfd, perf counters and mmap; branch counts and clocks are parameters.
- Python, native and WASM plugins, the sandbox process, sockets and TAP; remote serial protocol framing, hex and the contents of register packets other than rip.
- Block, network, RNG, vsock and I2C devices: `process_chain` is an arbitrary device, constrained only in that it stores into its chain's buffers.
- ACPI and SMBIOS tables, kernel loading, UART, CPUID, GDT descriptors, command line: short or fixed layouts.
- Whether the page tables stay clear of other structures below 1 MiB: for large memories they do not.
- That captured device state and memory are of one instant: the state is captured before the reactor is paused. `validate_capturable`, which also limits migration to one vCPU, is taken as given.
- Handoff: a source process that dies, and what a forked child does; a failed send has sent a strict prefix, and the flush of a TCP stream cannot fail.
- Restore-time checks of memory size and device set beyond the blobs themselves; snapshot structures are opaque bytes whose sizes are parameters.
- VirtQueues.VirtQueue.TryPop: requires that the addresses of a queue in use do not overflow 64 bits; `LegacyTransport.ReachableQueues` proves it for legacy queues, while a modern driver chooses its addresses.
- Drains.DrainQueue: requires the same, and the layout its row names; a driver that puts buffers over its own rings gets what the loop happens to read.
- LegacyDevices.VirtioLegacyPci.Write: a notification requires the layout that `Drains.DrainQueue` does.
- PciRestores.RestoreAfterSave: for devices with at most one implemented BAR per address space, as a bus holds one region per device; `PciRestores.RestoreBuilds` says what happens to others.
- GpioDevice.VirtioGpio.HandleRequest: the plugin's answers depend on the calls made to it, not on anything outside.
- GdbStubs.GdbStub.Session: guest and device stores to a byte that holds a breakpoint are excluded, as they overwrite the trap; rip and memory addresses are one space, as in the code.
- PageTables.SetupPageTables: the boot-only writes assert that they are in RAM, so RAM must hold the tables.
- Deliveries.DeliveredEntry: for a number of bytes below 2^32, beyond which the 32-bit length in the entry wraps.
- The order in which a driver on another CPU sees the stores of one operation: guest memory changes one store at a time.
- Bit masks on aligned values are written as remainders and sums.
