# Verified models of a small kernel's hardest parts

A Dafny project that models six parts of the kernel, its flash file system and its bus drivers, and proves what
they are for. Every part has a model on values, on which the theorems are stated, and an imperative form of the
code (classes, arrays and loops) that is proved to compute that model. `dafny verify dfyconfig.toml` checks
everything.

**Copy-on-write memory** (`cow_*.dfy`, `page_map.dfy`, `page_free.dfy`, `bit_words.dfy`). Processes, page tables,
reference-counted slots, a free map and a software-refilled TLB. A page-table entry is private with a frame or
shared with a slot. The main result is a refinement: the machine with sharing and faults shows each process what a
machine that copies every page at fork would show. The exact counts, the free map and the TLB agreement are the
invariant behind it. The TLB is a finite map; which pairs a refill evicts is left open. `cow_run.dfy` carries the
result over to runs on the class that is changed in place. `cow_access.dfy` and `cow_fork.dfy` say exactly when an
access, a fork and every other operation is carried out: by the regions of the space and by the pages and slots
that are free. `cow_words.dfy` proves that the handlers, which see 32-bit words, take the branches and store the
entries of the model, and `page_free.dfy` that the bitmap of the page allocator is its free set.

**CEC and A1 buses** (`cec_*.dfy`, `a1_*.dfy`, `shift_bits.dfy`). Each station is a function of the pin level at
every pin interrupt and timer expiry; two stations share a wired-AND line with exact timers, and each time two
timers expire together either may be served first. What one station sends, the other delivers, and two driver
objects with flag words, shift registers and byte buffers do the same (`CecPair.Transfer`, `A1Pair.Transfer`). For
CEC (bit timing of section CEC 5.2 of Supplement 1 to the HDMI specification) the receiver is also proved right for
every waveform inside its timer windows, and to give up at the first cell outside them (`cec_faults.dfy`); the
sender reports a message as sent exactly if every acknowledge is right (`cec_sender.dfy`). For A1 both rings are
followed over every run.

**Scheduler, timing wheel, process tree** (`sched_*.dfy`, `proctree.dfy`). Four ready lists and 1024 wheel slots,
first as sequences, then as chains of links with tail pointers. Sleep, wakeup, tic and switch are atomic steps. The
invariant, the due tic of every sleeper and the round-robin bound hold over whole runs, and `sched_effects.dfy`
says what every step does to the tasks, the lists and the wheel. A sleep is exact if and only if it asks for 1 to
1024 tics, because the wheel has no round counter.

**Checkpoint stream** (`checkpt_*.dfy`, `words.dfy`). Bytes are cut into self-checking chunks on whatever blocks
were empty and found again through hints. Round trip over any split of writes and reads, and block accounting over
whole runs, with the exact conditions under which closing leaves the counters wrong. On a flash that holds anything
else a read hands out the bytes of genuine chunks only (`checkpt_guard.dfy`).

**YAFFS algorithms** (`qsort.dfy`, `nameval*.dfy`, `ecc*.dfy`, `word_bytes.dfy`). The Bentley-McIlroy sort with its
logarithmic depth and the balance of its pivot, the packed name/value store as a finite map, and the SmartMedia
code over 256 bytes and over any length, bit by bit (`ecc_code.dfy`), in what it corrects, and with every two wrong
bits of data and code detected (`ecc_pairs.dfy`).

**Image blit** (`image_bits.dfy`, `image_blit.dfy`). The pixel path, bit for bit, writes every pixel of the bitmap
and nothing else, and the table-driven path, where it is taken, writes the same bits.

Where a property is false of the code it is stated with its exact condition. The name/value store is a map only as
long as every set leaves a byte free: a record that fills the buffer to its last byte is hidden
(`NamevalRun.RunOps`, `NamevalRun.FilledDiffers`), and a set on the full buffer keeps it in order only under the
condition of `NamevalStore.SafeExact`. Of A1 frames that follow each other without idle line only the last of an
odd number arrives (`A1Burst.Burst`), and a frame that ends while the receive ring is full destroys the first
unread one (`A1Unread.RunExact`). A CEC listener that sees the line held low beyond the end of a frame stays in its
guard state (`CecReceiver.IdleAgain`), and a fifth unread message is written over the first
(`CecLoopback.DeliveredUnread`). Closing a checkpoint after a failed open subtracts the last blocks again
(`CheckptAccounting.CloseAfterFailedOpen`). A sleep below 10 ms or above 10249 ms wakes at another tic
(`SchedTiming.SleepWakes`), and a wakeup of the running task is forgotten if the task is switched out before it
sleeps (`SchedEffects.WakeupLasts`, `SchedEffects.LostWakeup`). A read of a checkpoint that follows one that was
refused a chunk hands out that chunk (`CheckptGuard.SessionExact`, `CheckptGuard.AfterRefusal`). The rows of an
image are in place only if a line is a whole number of words (`ImageBits.InPlace`). The test of the checkpoint
close against the size of a size never spares the last flush, so a stream is always filled up by one more chunk;
the model does the same.

## Model

| member | source | states |
|---|---|---|
| CowRefinement.BootRunRefines | bl2/arch/mips/mm_tlb.c:239-786 | From boot, over every run of process creation, forks, user loads and stores with their faults, unmaps, address-space frees and TLB evictions, every process sees exactly the bytes it would see had each fork copied all pages at once |
| CowRefinement.RunRefines | bl2/arch/mips/mm_tlb.c:239-786 | The same from any state of the invariant |
| CowRefinement.StepRefines | bl2/arch/mips/mm_tlb.c:239-786 | Each single operation is one step of the eager-copy machine, with the same observation |
| CowRefinement.UnshareView | bl2/arch/mips/mm_tlb.c:302-323 | Copying a shared page, or taking over the frame of the last user, changes what no process reads |
| CowRefinement.FaultView | bl2/arch/mips/mm_tlb.c:354-454 | A miss changes at most the missing page, which becomes zeros |
| CowRefinement.StoreCompletes | bl2/arch/mips/mm_tlb.c:239-454 | A store that is retried after its faults succeeds by the third attempt, and its effect is that of the plain write on the eager-copy machine |
| CowRefinement.LoadCompletes | bl2/arch/mips/mm_tlb.c:354-454 | A load that is retried after its fault gives by the second attempt the byte that the process sees on the eager-copy machine, and changes what no process sees but a page that was missing, which becomes zeros |
| CowRun.RunVm | bl2/arch/mips/mm_tlb.c:239-786 | Any sequence of operations on the machine that is changed in place, with its tables, slots and TLB, observes what the model run observes, and is a run of the eager-copy machine |
| CowRun.BootAndRun | bl2/arch/mips/mm_tlb.c:239-786 | From boot on every process that runs on it reads what eager copying would have given it |
| CowRun.DoOp | bl2/arch/mips/mm_tlb.c:239-786 | One operation on it is one step of the model, with the same observation or the same reason to stop |
| CowRefinement.NoDeadLoop | bl2/arch/mips/mm_tlb.c:239-301 | The dead loops of the write-fault handler for a missing table, a missing entry or an entry that is dirty already are unreachable: an access stops only outside the address space or out of pages |
| CowAccess.SegvExactly | bl2/arch/mips/mm_tlb.c:392-402 | An access of a live space whose pair is not in the TLB is a segmentation violation if and only if its address is neither in the stack area, nor in the heap below the break, nor in the mapped area below it, nor in the program |
| CowAccess.LoadGoes | bl2/arch/mips/mm_tlb.c:354-454 | A load that is retried after its fault is carried out if and only if a valid half is in the TLB, or the address is legal and there is a free page for each of the table and the page that are missing |
| CowAccess.StoreGoes | bl2/arch/mips/mm_tlb.c:239-454 | A store that is retried after its faults is carried out if and only if there is a free page besides for the copy that it needs, which it needs exactly when the slot of the page has more than one reference |
| CowAccess.OthersStay | bl2/arch/mips/mm_tlb.c:325-454 | An access with its faults leaves every other pair of the TLB in place if its own pair is there, and otherwise takes out no pair but those that the refill evicts |
| CowFork.StepGoes | bl2/arch/mips/mm_tlb.c:239-786 | Every operation is carried out if and only if its spaces live or are unused as it asks, its address is legal and there are pages and slots enough, counted exactly |
| CowFork.ForkGoes | bl2/os/sys.c:507-515 | A fork is carried out if and only if there are two pages for the kernel, one for each table of the parent and one for the slots on the first sharing of all, and a slot for each private page of the parent |
| CowFork.ForkLegal | bl2/os/sys.c:507-515 | The child may use the stack, the program and the heap up to the break of its parent |
| CowFork.CreateTakes | bl2/arch/mips/switch.c:17-46 | A new space takes two pages, has no page mapped and the break that it is given |
| CowFork.TightStep | bl2/arch/mips/mm_tlb.c:144-197 | Over every step the slot in front of the index stays in use: slots that nobody refers to are given back as far down as they go |
| CowFork.ExitKernel | bl2/os/sys.c:702-709 | The end of a space gives back its directory |
| CowRefinement.FreeExactly | bl2/arch/mips/jz_mm.c:41-81 | A page is free exactly when neither the kernel, nor a page table, nor any process entry holds it: no leak and no double free |
| CowInvariant.StepInv | bl2/arch/mips/mm_tlb.c:144-786 | Every operation keeps reference counts equal to the number of entries naming a slot, unused slots at and above the index unreferenced, the free map a partition, and the TLB in agreement with the page tables |
| CowInvariant.BootInv | bl2/arch/mips/mm_tlb.c:144-236 | The invariant holds of the empty system |
| CowInvariant.UnshareInv | bl2/arch/mips/mm_tlb.c:302-323 | The write-fault handler keeps the invariant once the stale TLB pair is gone |
| CowInvariant.ReclaimInv | bl2/arch/mips/mm_tlb.c:302-312 | Taking over the frame of a slot with one reference left keeps the invariant once the stale TLB pair is gone |
| CowInvariant.CopyInv | bl2/arch/mips/mm_tlb.c:312-323 | Copying a page out of a slot with more references keeps the invariant: one reference less, no frame both private and shared |
| CowInvariant.TlbModifiedInv | bl2/arch/mips/mm_tlb.c:239-352 | The whole handler with its TLB refill keeps the invariant |
| CowInvariant.FaultInv | bl2/arch/mips/mm_tlb.c:354-454 | Making the table, the zeroed page and the TLB pair of a miss keeps the invariant |
| CowInvariant.RefillInv | bl2/arch/mips/mm_tlb.c:330-352 | After a refill the TLB agrees with the page tables again, the new pair included |
| CowInvariant.TlbHit | bl2/arch/mips/mm_tlb.c:239-454 | A valid TLB half has the frame of its entry, and is dirty exactly when the entry is private |
| CowInvariant.ShareUpToInv | bl2/arch/mips/mm_tlb.c:709-749 | After sharing the first n pages the child maps exactly the frames of those pages of the parent and nothing else has moved |
| CowInvariant.ForkInv | bl2/arch/mips/mm_tlb.c:709-763 | Fork gives the child the frame of every page of the parent and changes no memory |
| CowInvariant.DropPteInv | bl2/arch/mips/mm_tlb.c:220-236 | Releasing an entry, private or shared, keeps counts, free map and TLB exact |
| CowInvariant.UnmapInv | bl2/arch/mips/mm_tlb.c:648-676 | unmapmem keeps the invariant |
| CowInvariant.FreePagesInv | bl2/arch/mips/mm_tlb.c:765-786 | Freeing an address space leaves no entry, no table and no TLB pair of it, and every other mapping as it was |
| CowInvariant.ExitInv | bl2/os/sys.c:702-709 | Ending a space keeps the invariant, removes that space and exactly its mappings |
| CowInvariant.GetPageInv | bl2/arch/mips/jz_mm.c:41-56 | A page from the allocator was held by nobody |
| PteWords.RoundTrip | bl2/arch/mips/mm_tlb.c:169-218 | An entry is known by its 32-bit word: kind, frame or slot come back, the flag bits tell private from shared, and no word of an entry is that of an empty one |
| PteWords.WordLayout | bl2/arch/mips/mm_tlb.c:169-218 | The word of an entry bit by bit: the frame in the upper bits and the flags of a private page, or the slot and the mark of a shared one |
| PteWords.LoadDecodes | bl2/arch/mips/mm_tlb.c:327-340 | In every state that fits, the word loaded into the TLB, directly or through a slot, says exactly what the page table of the model says: frame, validity and write permission |
| PteWords.Tlb1Branches | bl2/arch/mips/mm_tlb.c:277-303 | In every reachable state the tests of the write-fault handler on the word choose the branch of the model; the branch for a clean private entry is never taken |
| PteWords.Tlb1Stores | bl2/arch/mips/mm_tlb.c:302-323 | The word that the handler stores, taken over from the slot or made from the address of the copy, is the word of the entry that the model leaves |
| PteWords.DeallocBranches | bl2/arch/mips/mm_tlb.c:220-236 | The tests of dealloc_pte_page choose the branch of the model and its frame; the branch for mapped addresses is never taken |
| PteWords.ShareStored | bl2/arch/mips/mm_tlb.c:726-746 | The two words that fork stores are those of the entries that the model leaves |
| PteWords.InvFits | bl2/arch/mips/mm_tlb.c:144-218 | Every entry of a reachable state fits its word |
| PteWords.ThroughSlot | bl2/arch/mips/mm_tlb.c:174-218 | The word that the TLB gets through a slot is the private word without the dirty bit |
| BitWords.WordNum | bl2/arch/mips/mm_tlb.c:174-218 | A number below 2^32 is the number of its word |
| BitWords.NumWord | bl2/arch/mips/mm_tlb.c:174-218 | A word is the word of its number |
| CowVm.Vm.GetShPage | bl2/arch/mips/mm_tlb.c:144-158 | A new slot, making the slot page on first use; refuses past slot 510 |
| CowVm.Vm.MkSharedPte | bl2/arch/mips/mm_tlb.c:174-183 | The private frame moves to a slot with one reference |
| CowVm.Vm.DelSharedPte | bl2/arch/mips/mm_tlb.c:185-197 | An unreferenced slot lets the index retreat over all unreferenced slots below it |
| CowVm.Vm.DeallocPtePage | bl2/arch/mips/mm_tlb.c:220-236 | Gives the page or the reference of an entry back |
| CowVm.Vm.HandleTlbMiss | bl2/arch/mips/mm_tlb.c:354-454 | Computes the model miss: table, zeroed page, refill, and the refusal outside the regions |
| CowVm.Vm.UnsharePage | bl2/arch/mips/mm_tlb.c:302-323 | Computes the model copy or takeover |
| CowVm.Vm.HandleTlb1 | bl2/arch/mips/mm_tlb.c:239-352 | Computes the model write fault |
| CowVm.Vm.Unmapmem | bl2/arch/mips/mm_tlb.c:648-676 | Computes the model unmap |
| CowVm.Vm.SharePage | bl2/arch/mips/mm_tlb.c:727-747 | Shares one page, private or shared already |
| CowVm.Vm.SharePtPages | bl2/arch/mips/mm_tlb.c:709-749 | The loop over one table is the model sharing of its 1024 pages |
| CowVm.Vm.ShareProcessPages | bl2/arch/mips/mm_tlb.c:751-763 | The loop over the directory is the model fork |
| CowVm.Vm.Fork | bl2/os/sys.c:507-515 | Creates the space and shares all pages |
| CowVm.Vm.FreePt | bl2/arch/mips/mm_tlb.c:765-780 | Releases the entries of one table and the table |
| CowVm.Vm.FreeAspPages | bl2/arch/mips/mm_tlb.c:765-786 | The nested loops are the model free of an address space |
| CecLoopback.Loopback | bl2/cec_a1_ctrl/cec_drv.c:164-520 | Every message of 1 to 16 bytes sent by an idle station arrives in the ring of an idle station that answers its address, or of any station for broadcast: same bytes, same length, no NO_ACK, after exactly 40 timer expiries for each byte and 5 more, whichever timer is served first each time two expire together |
| CecLoopback.GuardOver | bl2/cec_a1_ctrl/cec_drv.c:634-647 | After the guard times both stations are idle, the receiver can receive again and the sender can send again once its result is fetched |
| CecLoopback.DeliveredUnread | bl2/cec_a1_ctrl/cec_drv.c:426-431 | A delivered message joins the unread ones in order if and only if one of the four lines was free; else it is written over the first of them |
| CecLoopback.ReadFirst | bl2/cec_a1_ctrl/cec_drv.c:837-848 | A reader gets the first unread message, cut to its buffer, and the others stay in order |
| CecLoopback.ReadBack | bl2/cec_a1_ctrl/cec_drv.c:837-848 | After the messages that were unread before it, the delivered message is read byte for byte |
| CecLoopback.Unanswered | bl2/cec_a1_ctrl/cec_drv.c:738-769 | With nobody at the address the sender stops after the header with the no-ack result and a non-promiscuous receiver stores nothing |
| CecSender.Reported | bl2/cec_a1_ctrl/cec_drv.c:738-769 | Whatever the line does: the sender reports the length if and only if the acknowledge of every byte is right, low for one station and high for a broadcast; otherwise it stops after the first byte whose acknowledge is not, and the result is -2 |
| CecSender.SendAnswers | bl2/cec_a1_ctrl/cec_drv.c:771-810 | A message is taken if and only if it has at most 16 bytes, the bus is idle and no result is waiting; the two refusals differ and change nothing |
| CecSender.ResultOnce | bl2/cec_a1_ctrl/cec_drv.c:874-885 | A result is handed out once |
| CecFaults.StartExact | bl2/cec_a1_ctrl/cec_drv.c:164-268 | A low line is taken for a start bit if and only if it comes back up and goes down again inside the two windows; otherwise the station gives it up and waits for the next one |
| CecFaults.BitExact | bl2/cec_a1_ctrl/cec_drv.c:278-387 | A data cell is taken if and only if its edges fall inside the windows of a zero or of a one; any other makes the receiver give the frame up |
| CecFaults.EomExact | bl2/cec_a1_ctrl/cec_drv.c:389-404 | The same for the end-of-message cell |
| CecFaults.PassiveExact | bl2/cec_a1_ctrl/cec_drv.c:405-434 | The same for the acknowledge cell of a listener, in which the line may be held as long as the cell lasts |
| CecFaults.ActiveExact | bl2/cec_a1_ctrl/cec_drv.c:291-312 | The same for the acknowledge cell of the station that is addressed |
| CecFaults.CellExact | bl2/cec_a1_ctrl/cec_drv.c:278-520 | For every cell of a frame: the receiver goes on to the next one if and only if the cell has the shape that is due, and otherwise stores nothing and lets the line go |
| CecFaults.OnlyWanted | bl2/cec_a1_ctrl/cec_drv.c:345-434 | A message joins the ring only if it is a broadcast, addressed to the station, or the station listens to all |
| CecFaults.GuardHears | bl2/cec_a1_ctrl/cec_drv.c:534-542 | In its guard time a station hears a start bit as an idle one does |
| CecLoopback.LaterByte | bl2/cec_a1_ctrl/cec_drv.c:345-387 | The header bits left in the shift register are shifted out of the next byte |
| CecLoopback.FirstByte | bl2/cec_a1_ctrl/cec_drv.c:345-387 | The header byte selects active or passive reception |
| CecLoopback.EndOfByte | bl2/cec_a1_ctrl/cec_drv.c:389-434 | End-of-message and acknowledge cells lead to the next byte or end the frame |
| CecBus.DataCell | bl2/cec_a1_ctrl/cec_drv.c:660-704 | A data cell moves one bit between the stations with the exact timers |
| CecBus.EomCell | bl2/cec_a1_ctrl/cec_drv.c:660-720 | The end-of-message cell is one exactly after the last byte |
| CecBus.ActiveAck | bl2/cec_a1_ctrl/cec_drv.c:291-312 | The addressed receiver holds the line past the sample of the sender |
| CecBus.PassiveAck | bl2/cec_a1_ctrl/cec_drv.c:405-434 | A listener leaves the line high |
| CecBus.StartBit | bl2/cec_a1_ctrl/cec_drv.c:164-236 | The start bit brings the receiver to the first cell |
| CecReceiver.AnyWaveform | bl2/cec_a1_ctrl/cec_drv.c:164-520 | Any waveform whose edges fall into the timer windows of a receiver, addressed, listening to a broadcast or promiscuous, delivers the frame it encodes, however long the others hold the line in the acknowledge cell of a listener; the guard timer runs afterwards unless a listener saw the line held beyond the end of the frame |
| CecReceiver.IdleAgain | bl2/cec_a1_ctrl/cec_drv.c:534-542 | While the line stays high the station becomes idle again if and only if that did not happen; otherwise it refuses to send |
| CecReceiver.AnyPassiveAck | bl2/cec_a1_ctrl/cec_drv.c:405-434 | The acknowledge cell of a listener, of any length in its window |
| CecReceiver.FrameReceived | bl2/cec_a1_ctrl/cec_drv.c:314-520 | Byte by byte: after n bytes the ring line holds the first n of them |
| CecReceiver.AnyByte | bl2/cec_a1_ctrl/cec_drv.c:314-387 | Eight cells inside their windows give their byte |
| CecReceiver.AnyBit | bl2/cec_a1_ctrl/cec_drv.c:278-387 | A cell gives a one or a zero for every pair of edges inside the windows |
| CecPair.Transfer | bl2/cec_a1_ctrl/cec_drv.c:771-882 | Two drivers with their flag words, shift registers and byte buffers on one line: after the send call and the timer expiries of the message the result is its length, and the reader of the other driver gets the first unread message, which is this one if there was none |
| CecPair.RunPair | bl2/cec_a1_ctrl/cec_drv.c:525-578 | Any number of timer expiries moves the two drivers as the stations of the model move |
| CecDriver.HeaderTests | bl2/cec_a1_ctrl/cec_drv.c:363-371 | The tests of the header word for broadcast and against the acknowledge mask are those of its address and of the set of addresses |
| BitWords.TwiceNum | bl2/cec_a1_ctrl/cec_drv.c:349-354 | Shifting a bit into a 32-bit register doubles its number, adds the bit and drops the top bit |
| BitWords.TestTop | bl2/cec_a1_ctrl/cec_drv.c:676 | The test of bit 7 is the eighth binary digit of the register |
| A1Loopback.Loopback | bl2/cec_a1_ctrl/a1_drv.c:177-463 | Every frame written on an idle station arrives in the ring of the other, which is idle: exactly its bytes and length behind the unread ones, when it fits the free space; then both are idle, or the other starts the first frame that it has waiting itself |
| A1Pair.Transfer | bl2/cec_a1_ctrl/a1_drv.c:490-540 | Two drivers with their shift registers and rings on one line: after the write call and the timer expiries of the frame the reader of the other driver gets the first unread frame, which is this one if there was none |
| A1Unread.DeliveredUnread | bl2/cec_a1_ctrl/a1_drv.c:201-206 | A delivered frame joins the unread ones in order |
| A1Unread.ReadFirst | bl2/cec_a1_ctrl/a1_drv.c:500-520 | A reader with room gets the first unread frame and the others stay; one without room changes nothing |
| A1Unread.RunFifo | bl2/cec_a1_ctrl/a1_drv.c:147-540 | Over every run of writes, reads, pin and timer events at any line level in which no frame ends while the receive ring is full, readers get the frames that came in, each once and in order, and the rest is still in the ring |
| A1Unread.RunExact | bl2/cec_a1_ctrl/a1_drv.c:147-540 | The receive ring holds whole frames after every step of a run if and only if no frame ends while it is full |
| A1Unread.PublishExact | bl2/cec_a1_ctrl/a1_drv.c:201-206 | A frame joins the ring if and only if a byte is left for its length |
| A1Unread.FirstLost | bl2/cec_a1_ctrl/a1_drv.c:201-206 | On a full ring the length of the empty frame is written over that of the first unread frame, and the next reader gets no bytes |
| A1Burst.Burst | bl2/cec_a1_ctrl/a1_drv.c:177-540 | A frame on an idle line and any frames that are written behind it, at any steps at which the sender is transmitting: when the sender is idle again the ring of the other has gained exactly the last one that was accepted, if their number is odd and it fits, and nothing if it is even |
| A1Burst.FromFrame | bl2/cec_a1_ctrl/a1_drv.c:177-540 | The same from the start bit of any frame on, whether the receiver hears it or is inside the frame before |
| A1Burst.Reply | bl2/cec_a1_ctrl/a1_drv.c:193-212 | A receiver with frames of its own takes the frame of the other station and then sends them; what that brings is what any burst brings |
| A1Writes.RunGrown | bl2/cec_a1_ctrl/a1_drv.c:402-540 | Up to the end of the frame that is going out, frames written meanwhile only join the ring: the line, the timers and the other station are as without them |
| A1Writes.WriteGrown | bl2/cec_a1_ctrl/a1_drv.c:521-540 | A write during a transmission is not seen on the line and is refused or joins the ring behind the others |
| A1Burst.TwoLost | bl2/cec_a1_ctrl/a1_drv.c:177-443 | Two frames written behind each other on stations that have just been started leave the ring of the receiver empty |
| A1Burst.LostInside | bl2/cec_a1_ctrl/a1_drv.c:265-379 | A frame whose start bit finds the receiver inside another frame is lost whatever follows, and so is the other |
| A1Burst.Dropped | bl2/cec_a1_ctrl/a1_drv.c:336-357 | The start bit of the next frame counts four periods where one or two make a bit, and the receiver gives up |
| A1Burst.DeafBits | bl2/cec_a1_ctrl/a1_drv.c:265-303 | The bits of a frame that the receiver does not follow are no start bits to it: it is idle at the end and has stored nothing |
| A1Burst.HeardAgain | bl2/cec_a1_ctrl/a1_drv.c:265-280 | The start bit after such a frame is heard |
| A1Receiver.StartExact | bl2/cec_a1_ctrl/a1_drv.c:265-312 | An idle station takes a pulse of 2100 to 2700 microseconds, and no other, for a start bit |
| A1Receiver.PulseExact | bl2/cec_a1_ctrl/a1_drv.c:314-400 | A pulse of 300 to 900 microseconds is a zero, one of 900 to 1500 a one, and any other ends the reception with nothing stored |
| A1Receiver.GapExact | bl2/cec_a1_ctrl/a1_drv.c:193-212 | A high line shorter than the idle time changes nothing; after it whole bytes are published, and a frame inside a byte or without any bit is dropped |
| A1Loopback.Bits | bl2/cec_a1_ctrl/a1_drv.c:402-443 | From any bit of the frame on the rest of its bits goes over |
| A1Loopback.Cell | bl2/cec_a1_ctrl/a1_drv.c:314-400 | One bit with its two or three timer periods |
| A1Loopback.StartBit | bl2/cec_a1_ctrl/a1_drv.c:265-334 | Four counted periods of low line open a frame |
| A1Loopback.Finish | bl2/cec_a1_ctrl/a1_drv.c:193-212 | After 2400 microseconds of idle line the frame is published, and a frame of the receiver goes out if one is waiting |
| A1Ring.RunRing | bl2/cec_a1_ctrl/a1_drv.c:402-540 | Over every run of writes, reads, pin and timer events at any line level the transmit ring holds whole length-prefixed frames in at most 64 bytes, and they are the last of those written, in order |
| A1Ring.CollisionResends | bl2/cec_a1_ctrl/a1_drv.c:220-245 | A collision before the last bit starts the same frame again from its first bit; after it, the next frame |
| A1Ring.ReactOk | bl2/cec_a1_ctrl/a1_drv.c:147-540 | Each event keeps the ring in order and the transmitter inside the frame at its head |
| A1Ring.WriteQueue | bl2/cec_a1_ctrl/a1_drv.c:518-538 | A written frame joins the ring behind the others and disturbs none |
| A1Driver.Driver.WriteFrame | bl2/cec_a1_ctrl/a1_drv.c:521-540 | WR_CHAR on the byte ring: the driver stands for what the model does |
| A1Driver.Driver.ReadFrame | bl2/cec_a1_ctrl/a1_drv.c:500-520 | RD_CHAR on the byte ring: the driver stands for what the model does |
| ShiftBits.ValueStep | bl2/cec_a1_ctrl/cec_drv.c:345-360 | Shifting the next bit in keeps the value the register will have at the end of the byte |
| ShiftBits.TopIsBit | bl2/cec_a1_ctrl/cec_drv.c:660-688 | The top bit of the sending register is the next bit of the byte |
| SchedInvariant.RunInv | bl2/os/sys.c:119-2129 | Over every run of create, fork, sleep, wakeup, tic, switch and resume: the ready lists hold exactly the READY tasks of their priority, each once; the wheel holds exactly the sleepers; only the current one runs; with no switch pending nothing READY outranks it |
| SchedInvariant.StepInv | bl2/os/sys.c:119-2129 | Each step keeps this |
| SchedInvariant.DispatchInv | bl2/arch/mips/switch.c:70-134 | A dispatch restores the ranks, never picks the outgoing task, and picks idle if and only if all ready lists are empty |
| SchedInvariant.CreateInv | bl2/os/sys.c:366-433 | Creating a task keeps the invariant, so a switch is pending whenever the new one outranks the running one |
| SchedInvariant.ForkInv | bl2/os/sys.c:551-556 | Forking keeps the invariant |
| SchedInvariant.SleepInv | bl2/os/sys.c:1942-1994 | Going to sleep with or without a timeout, an early wakeup or a ready device keeps the invariant |
| SchedInvariant.WakeupInv | bl2/os/sys.c:2053-2129 | Waking any task in any state keeps the invariant: it is in one list at most and in no slot |
| SchedInvariant.TickInv | bl2/os/sys.c:119-193 | A tic keeps the invariant: no sleeper is lost between its slot and the ready lists, and no rank is left without a pending switch |
| SchedInvariant.BootInv | bl2/os/sys.c:58-59 | The invariant holds of the first task beside idle |
| SchedEffects.WakeupReadies | bl2/os/sys.c:2053-2129 | A wakeup of a sleeper, with or without a timeout, makes it READY, last in the list of its priority and in no slot of the wheel; a switch is pending afterwards if and only if one was, idle runs, or it outranks the running task; nothing else changes |
| SchedEffects.WakeupNoted | bl2/os/sys.c:2053-2080 | A wakeup of the running task is noted and takes it out of the wheel; one of a READY task changes nothing |
| SchedEffects.SleepReturns | bl2/os/sys.c:1942-1966 | A sleep returns with the caller still running if a wakeup was noted, which is used up, or its device is ready |
| SchedEffects.SleepLeaves | bl2/os/sys.c:1942-1994 | Any other sleep puts the caller at the end of the slot of its tic, or in none without a timeout, and the first task of the best list runs |
| SchedEffects.WakeupLasts | bl2/os/sys.c:2053-2080 | Over every run of tics, wakeups, forks, new tasks, switches and sleeps of others: a wakeup noted for the running task makes its next sleep return if and only if it has not been switched out before that sleep |
| SchedEffects.LostWakeup | bl2/arch/mips/switch.c:108-129 | A run from boot on in which a wakeup is noted, the task is switched out and back, and its sleep does not return |
| SchedEffects.SwitchDoes | bl2/arch/mips/switch.c:70-134 | A switch that was asked for puts the running task at the end of its list with a fresh slice and runs the first of the best list; no other task changes |
| SchedEffects.TickDoes | bl2/os/sys.c:119-193 | A tic empties the slot that is due into the ends of the ready lists in its order and asks for a switch exactly if a woken task outranks the running one, idle runs, or its second tic is over while others of its rank wait |
| SchedEffects.TickOthers | bl2/os/sys.c:119-193 | It changes no other task |
| SchedEffects.CreateDoes | bl2/os/sys.c:366-433 | A new task is READY at the end of its list, a switch is asked for exactly if it outranks its creator, and a priority that does not exist changes nothing |
| SchedEffects.ForkDoes | bl2/os/sys.c:551-556 | The child has the priority of its parent and is READY at the end of its list |
| SchedTiming.SleepsUntilDue | bl2/os/sys.c:119-181 | Without a wakeup a sleeper stays asleep up to its due tic, and exactly that tic makes it ready |
| SchedTiming.SleepWakes | bl2/os/sys.c:119-181 | From every state of the invariant and over every run in which nobody wakes it, a task that sleeps for ms is asleep after each step before tic tic + ((ms/10 - 1) mod 1024) + 1, and that tic makes it ready; it is the tic asked for if and only if 1 <= ms/10 <= 1024 |
| SchedTiming.SleepSets | bl2/os/sys.c:1967-1974 | Going to sleep records the tic asked for |
| SchedTiming.TickWakes | bl2/os/sys.c:130-181 | A tic wakes the sleepers that are due and those only |
| SchedTiming.RoundRobinBound | bl2/os/sys.c:184-193 | A task at place i of the list of the running priority is passed over for at most 2(i+1) tics, and after that many it is the next to be dispatched |
| SchedTiming.RoundRobin | bl2/os/sys.c:184-193 | The tics that pass and those still left never exceed those left at first, while nothing of higher priority becomes ready |
| SchedTiming.StepProgress | bl2/arch/mips/switch.c:116-129 | Every step leaves a waiting task where it is or moves it up |
| SchedKernel.Kernel.PutLast | bl2/os/sys.c:421-426 | Enqueue through the tail pointer: the chain gains exactly that task at its end |
| SchedKernel.Kernel.SetTimer | bl2/os/sys.c:1897-1910 | Links a blocker at the end of its slot |
| SchedKernel.Kernel.FindLink | bl2/os/sys.c:1914-1928 | Walks a slot to a blocker and the one before |
| SchedKernel.Kernel.RemoveTimer | bl2/os/sys.c:1912-1932 | Unlinks a blocker: first, last and the chain stay consistent |
| SchedKernel.Kernel.TakeBest | bl2/arch/mips/switch.c:76-84 | Takes the head of the first list that is not empty |
| SchedKernel.Kernel.HandleSwitch | bl2/arch/mips/switch.c:70-134 | Is the model dispatch, on the links |
| SchedKernel.Kernel.CreateTask | bl2/os/sys.c:366-433 | Is the model create; -1 for a bad priority |
| SchedKernel.Kernel.ForkTask | bl2/os/sys.c:551-556 | Is the model fork |
| SchedKernel.Kernel.SleepOn | bl2/os/sys.c:1942-1994 | Is the model sleep |
| SchedKernel.Kernel.WakeUp | bl2/os/sys.c:2053-2129 | Is the model wakeup |
| SchedKernel.Kernel.WakeSlot | bl2/os/sys.c:140-181 | The loop over a slot whose links it clears on the way is the model emptying of that slot |
| SchedKernel.Kernel.SysTick | bl2/os/sys.c:119-193 | Is the model tic |
| SchedLinks.JoinedLinked | bl2/os/sys.c:421-426 | Linking behind the tail pointer spells out the list with one more element, and leaves every other list alone |
| SchedLinks.BridgedLinked | bl2/os/sys.c:1912-1932 | Bridging an element spells out the list without it, tail pointer included |
| SchedLinks.PopLinked | bl2/arch/mips/switch.c:76-84 | Moving the head on spells out the rest of the list |
| ProcTree.RunTree | bl2/os/sys.c:545-615 | After any sequence of forks and terminations the address spaces form a tree under the root |
| ProcTree.FromRoot | bl2/os/sys.c:545-549 | Every live address space is in exactly one child list, that of its parent, and descends from the root |
| ProcTree.SameAncestors | bl2/os/sys.c:589-615 | A termination does not change who descends from whom among the others |
| ProcTree.ChildrenMoved | bl2/os/sys.c:596-615 | The children of the terminated process follow those of its parent, each with that parent, none lost or repeated, and every other list is as it was |
| ProcTree.ForkAdds | bl2/os/sys.c:545-549 | Forking adds the child first in the list of its parent and changes no other list |
| ProcTree.ExitRanked | bl2/os/sys.c:589-615 | Terminating keeps the tree |
| ProcTree.ForkRanked | bl2/os/sys.c:545-549 | Forking keeps the tree |
| ProcTree.Processes.ForkProcess | bl2/os/sys.c:545-549 | The links after fork spell out the new child first in the list of its parent |
| ProcTree.Processes.LinkOut | bl2/os/sys.c:598-606 | The pointer-to-pointer walk takes the process out of the list and ends at its last element |
| ProcTree.Processes.Adopt | bl2/os/sys.c:608-615 | The second loop gives every child the new parent |
| ProcTree.Processes.ProcessTerminated | bl2/os/sys.c:589-615 | The links and parents after both loops are those of the model |
| CheckptRoundTrip.WrittenIsRead | bl2/fs/yaffs2/yaffs_checkptrw.c:238-475 | What is written in any pieces between open and close is read back in any pieces by any later session on that flash, up to the blocks a reader may take, with the same running sum and xor at every position; all of it when no more blocks were used than allowed |
| CheckptRoundTrip.ReadSteps | bl2/fs/yaffs2/yaffs_checkptrw.c:391-475 | Reading n bytes from inside the stream gives the next n, or stops exactly at the limit |
| CheckptRoundTrip.WriteSteps | bl2/fs/yaffs2/yaffs_checkptrw.c:361-389 | Writing n bytes extends the stream on the flash and in the buffer by them |
| CheckptRoundTrip.ClosedStored | bl2/fs/yaffs2/yaffs_checkptrw.c:477-486 | Closing leaves the stream on the flash, filled up with zeros to the end of its chunk |
| CheckptRoundTrip.LoadReader | bl2/fs/yaffs2/yaffs_checkptrw.c:405-455 | Every chunk that is due is found with a header that fits the sums read so far |
| CheckptRoundTrip.HeadOk | bl2/fs/yaffs2/yaffs_checkptrw.c:55-83 | A written header checks against the same sequence number and sums, in either byte order |
| CheckptGuard.ReadGuard | bl2/fs/yaffs2/yaffs_checkptrw.c:391-475 | One read on any flash, also a spoilt one: every byte handed out is one of a chunk whose sixteen header bytes are the version, its number and the sum and exclusive or of all bytes read before it; the read ends at the first chunk that is not such a one, and only there or where there is none |
| CheckptGuard.EachGuard | bl2/fs/yaffs2/yaffs_checkptrw.c:391-475 | The same for a session of any reads in which none follows one that was refused a chunk |
| CheckptGuard.SessionExact | bl2/fs/yaffs2/yaffs_checkptrw.c:391-475 | A session that has been refused a chunk hands out just the bytes of genuine chunks if and only if no later call asks for a byte |
| CheckptGuard.AfterRefusal | bl2/fs/yaffs2/yaffs_checkptrw.c:405-475 | A read after one that was refused a chunk hands out the bytes of that chunk, its header first |
| CheckptGuard.HandedOut | bl2/fs/yaffs2/yaffs_checkptrw.c:405-455 | At the start of a chunk a byte is handed out if and only if the page that is due carries the tags, the header and a byte |
| CheckptGuard.HeaderBytes | bl2/fs/yaffs2/yaffs_checkptrw.c:55-83 | A header is accepted if and only if its bytes are those of the version, the number, the sum and the exclusive or, in the byte order of the device |
| CheckptGuard.SpoiltRefused | bl2/fs/yaffs2/yaffs_checkptrw.c:55-83 | After one wrong byte anywhere the chunk that was written next is refused |
| CheckptGuard.FlushGoes | bl2/fs/yaffs2/yaffs_checkptrw.c:304-359 | A flush writes its chunk if and only if the block at hand has room, or the reserve is kept and an empty block follows the hint |
| CheckptGuard.OpenGoes | bl2/fs/yaffs2/yaffs_checkptrw.c:238-274 | Opening for writing succeeds if and only if more blocks are erased than the reserve |
| CheckptGuard.FindGoes | bl2/fs/yaffs2/yaffs_checkptrw.c:188-236 | A reader finds a block if and only if it has one at hand, or may take another, a sixteenth of all and two more, and one of the checkpoint follows the hint |
| CheckptGuard.EraseDoes | bl2/fs/yaffs2/yaffs_checkptrw.c:115-152 | Erasing empties every block of the checkpoint, or marks it dead if that fails, and touches no other |
| CheckptTape.FlushTape | bl2/fs/yaffs2/yaffs_checkptrw.c:304-359 | A flush that finds a block appends the buffer to the chunks on the flash and disturbs none |
| CheckptTape.LoadTape | bl2/fs/yaffs2/yaffs_checkptrw.c:405-455 | Loading follows the block hints to the chunks in the order in which they were written, wherever the empty blocks lay |
| CheckptTape.FoundNext | bl2/fs/yaffs2/yaffs_checkptrw.c:188-236 | The search from the hint ends at the next block of the checkpoint and no other |
| CheckptAccounting.RunExact | bl2/fs/yaffs2/yaffs_checkptrw.c:115-522 | Over every run of open, write, open for reading, read, close and invalidate, failed erasures and failed opens included, n_erased_blocks is the number of EMPTY blocks, plus blocks_in_checkpt while writing, and n_free_chunks moves with it; the two closings that may not settle are steps exactly when they do |
| CheckptAccounting.CloseAfterFailedOpen | bl2/fs/yaffs2/yaffs_checkptrw.c:477-511 | Closing after an open that failed for lack of space keeps the counters exact if and only if blocks_in_checkpt is zero and its flush takes no block or one that is EMPTY |
| CheckptAccounting.OutOfSpace | bl2/fs/yaffs2/yaffs_checkptrw.c:238-511 | On two blocks with one in reserve, a session and a failed open lead to a state in which a close would subtract a block twice |
| CheckptAccounting.CloseReadExact | bl2/fs/yaffs2/yaffs_checkptrw.c:477-511 | Closing a read session keeps them exact if and only if every block found was still counted EMPTY, and found once |
| CheckptAccounting.EraseExact | bl2/fs/yaffs2/yaffs_checkptrw.c:115-152 | Erasing keeps the counters exact whichever erasures fail |
| CheckptAccounting.FlushExact | bl2/fs/yaffs2/yaffs_checkptrw.c:304-359 | A flush keeps them exact whether or not it finds a block |
| CheckptDevice.Device.Erase | bl2/fs/yaffs2/yaffs_checkptrw.c:115-152 | The loop over the blocks: the counters, the buffer and the flash change exactly as in the model |
| CheckptDevice.Device.FindErasedBlock | bl2/fs/yaffs2/yaffs_checkptrw.c:154-186 | The first empty block from the hint on: the counters, the buffer and the flash change exactly as in the model |
| CheckptDevice.Device.FindNextBlock | bl2/fs/yaffs2/yaffs_checkptrw.c:188-236 | The next tagged block: the counters, the buffer and the flash change exactly as in the model |
| CheckptDevice.Device.OpenForWriting | bl2/fs/yaffs2/yaffs_checkptrw.c:238-274 | Open for writing: the counters, the buffer and the flash change exactly as in the model |
| CheckptDevice.Device.FlushBuffer | bl2/fs/yaffs2/yaffs_checkptrw.c:304-359 | Flush: the counters, the buffer and the flash change exactly as in the model |
| CheckptDevice.Device.WriteBytes | bl2/fs/yaffs2/yaffs_checkptrw.c:361-389 | The byte loop of wr, refused in a read session: the counters, the buffer and the flash change exactly as in the model |
| CheckptDevice.Device.ReadBytes | bl2/fs/yaffs2/yaffs_checkptrw.c:391-475 | The byte loop of rd, refused in a write session: the counters, the buffer and the flash change exactly as in the model |
| CheckptDevice.Device.CloseSession | bl2/fs/yaffs2/yaffs_checkptrw.c:477-511 | Close: the counters, the buffer and the flash change exactly as in the model |
| Words.RoundTrip | bl2/fs/yaffs2/yaffs_checkptrw.c:44-83 | A 32-bit word is read back, in either byte order |
| Words.LowFirst | bl2/fs/yaffs2/yaffs_checkptrw.c:44-83 | A word is stored lowest byte first, or highest byte first on the other byte order |
| Qsort.QSort | bl2/fs/yaffs2/yaffs_drv.c:119-205 | For every array and every total preorder: the range is sorted, a permutation of itself, nothing else moves, and the recursion depth d satisfies d = 0 or 2^d <= n |
| Qsort.Turn | bl2/fs/yaffs2/yaffs_drv.c:176-204 | One pass sorts the smaller side by recursion and leaves a strictly smaller window with everything outside it in place |
| Qsort.Partition | bl2/fs/yaffs2/yaffs_drv.c:138-186 | The range splits into smaller, equal and larger than the pivot |
| QsortBalance.Balanced | bl2/fs/yaffs2/yaffs_drv.c:138-186 | However the elements lie, neither side of a pass gets more than all but two of more than seven elements, or all but four of more than forty |
| Qsort.Separate | bl2/fs/yaffs2/yaffs_drv.c:151-174 | The two scans with equal elements parked at both ends |
| Qsort.VecSwap | bl2/fs/yaffs2/yaffs_drv.c:86-107 | Exchanges two stretches of equal length and nothing else |
| Qsort.InsertionSort | bl2/fs/yaffs2/yaffs_drv.c:131-137 | Short ranges are sorted in place |
| Qsort.Med3IsMedian | bl2/fs/yaffs2/yaffs_drv.c:109-117 | med3 picks a median of the three |
| Qsort.MovePivot | bl2/fs/yaffs2/yaffs_drv.c:138-150 | The pivot is moved to the front, and the rest only exchanged with it |
| NamevalRun.RunOps | bl2/fs/yaffs2/yaffs_nameval.c:32-182 | Every run of nval_set, nval_get and nval_del on a buffer, up to and with the first set that fills it: the replies are those of a finite map with a byte budget, the buffer is back to back records and zeros as long as a byte is free, and it holds the map if and only if every set has left a byte free |
| NamevalStore.RunStore | bl2/fs/yaffs2/yaffs_nameval.c:32-182 | Every run of nval_set, nval_get and nval_del, on a buffer in good order or full, up to the first set that SafeExact excludes: the replies are those of the map that can be read with one hidden record, and the buffer holds both |
| NamevalStore.SafeExact | bl2/fs/yaffs2/yaffs_nameval.c:99-142 | A set that passes the checks is carried out in good order if and only if the buffer is not full, or the record is no longer than the one it replaces, or nothing but zeros stays of the hidden record that it is written over |
| NamevalStore.DoStep | bl2/fs/yaffs2/yaffs_nameval.c:32-182 | One operation on a full buffer or one in good order: the reply, and what is there afterwards |
| NamevalStore.RoomyStore | bl2/fs/yaffs2/yaffs_nameval.c:32-182 | As long as every set leaves a byte free this is the run of the map |
| NamevalRun.FirstFill | bl2/fs/yaffs2/yaffs_nameval.c:99-142 | A run in which not every set leaves a byte free has a first step that fills the buffer, and it is a set |
| NamevalRun.FilledDiffers | bl2/fs/yaffs2/yaffs_nameval.c:32-182 | After it the store denies the name that the map has, and takes a record for another name, no longer than the hidden one, where the map has no room |
| NamevalRun.DoOp | bl2/fs/yaffs2/yaffs_nameval.c:32-182 | One operation on the buffer: the reply of the map, and the records that can be read afterwards |
| NamevalRun.FilledFull | bl2/fs/yaffs2/yaffs_nameval.c:118-141 | A set that fills the buffer leaves the new record hidden behind the others |
| NamevalRun.FullDeleted | bl2/fs/yaffs2/yaffs_nameval.c:81-97 | On a full buffer, deleting another record brings the hidden one back |
| NamevalRun.FullSetNew | bl2/fs/yaffs2/yaffs_nameval.c:99-142 | On a full buffer, a set of a new name goes over the hidden record if it is no longer, and what the hidden record had beyond it stays |
| NamevalRun.FullSetAgain | bl2/fs/yaffs2/yaffs_nameval.c:113-142 | On a full buffer, a set of a name that can be read passes the check of the room for records up to the length of the hidden one too long; it has room exactly if the record is no longer than the one it replaces, and then all three are in order |
| NamevalMap.SetSeen | bl2/fs/yaffs2/yaffs_nameval.c:99-142 | A set is visible afterwards if it leaves a byte free; one that fills the buffer exactly reports success, yet the name is gone |
| NamevalMap.SetAnswers | bl2/fs/yaffs2/yaffs_nameval.c:99-142 | The reply of a set, case by case: -EEXIST and -ENODATA by the flags, -ENOSPC by the room, otherwise 0 |
| NamevalMap.GetAnswers | bl2/fs/yaffs2/yaffs_nameval.c:144-182 | The reply of a get, case by case: the value with its length, the length alone for no room, -ERANGE, -ENODATA |
| NamevalMap.ListsFirst | bl2/fs/yaffs2/yaffs_nameval.c:184-224 | The list names the first records, as many as leave a byte of the room free, and no more would |
| NamevalMap.ListsAll | bl2/fs/yaffs2/yaffs_nameval.c:184-224 | With room the list names every record once, in order |
| NamevalModel.ReadOneWay | bl2/fs/yaffs2/yaffs_nameval.c:32-60 | A buffer holds one list of records only, so what the routines find is a function of the buffer |
| NamevalModel.ScanAt | bl2/fs/yaffs2/yaffs_nameval.c:40-56 | The scan condition holds exactly while records are left, and the length leads from each to the next |
| NamevalModel.PackedReadable | bl2/fs/yaffs2/yaffs_nameval.c:40-56 | A zero tail ends the scan |
| Nameval.Find | bl2/fs/yaffs2/yaffs_nameval.c:32-60 | Position and length of the record of a name, or -ENODATA |
| Nameval.Used | bl2/fs/yaffs2/yaffs_nameval.c:62-79 | The end of the last record |
| Nameval.Del | bl2/fs/yaffs2/yaffs_nameval.c:81-97 | On every buffer that can be read: the record is gone, the others and what followed them are shifted over it and zeros follow; an error leaves the buffer alone |
| Nameval.Set | bl2/fs/yaffs2/yaffs_nameval.c:99-142 | On every buffer that can be read: the return code by flags and room, the old record deleted and the new one written behind those that can be read then, if it ends inside the buffer, which is stated exactly; an error leaves the buffer alone |
| Nameval.GetValue | bl2/fs/yaffs2/yaffs_nameval.c:144-182 | The value and its length, a size query for no room, -ERANGE, -ENODATA |
| Nameval.List | bl2/fs/yaffs2/yaffs_nameval.c:184-224 | The names that fit with a byte to spare, each with its NUL |
| Nameval.MemMove | bl2/arch/mips/string.c:4-23 | The overlapping copy moves the old bytes |
| Nameval.SameString | bl2/arch/mips/string.c:76-86 | strncmp is zero exactly for the same name |
| Nameval.StrCopy | bl2/arch/mips/string.c:98-106 | strncpy writes the name and its NUL and nothing more |
| Ecc.SingleCorrected | bl2/fs/yaffs2/yaffs_ecc.c:134-187 | 256 bytes: every single wrong bit of the data is restored with result 1 |
| Ecc.DoubleDetected | bl2/fs/yaffs2/yaffs_ecc.c:134-199 | Every two wrong bits give -1 and the data is left alone |
| Ecc.CodeErrorIgnored | bl2/fs/yaffs2/yaffs_ecc.c:189-196 | A single wrong bit anywhere in the three stored bytes gives 1, the data is left alone and the code repaired |
| EccPairs.MixedDetected | bl2/fs/yaffs2/yaffs_ecc.c:134-199 | A wrong bit of the data together with a wrong bit of the stored code gives -1 and nothing is touched; with one of the two bits that stand for nothing the data is put right |
| EccPairs.CodeDetected | bl2/fs/yaffs2/yaffs_ecc.c:134-199 | Two wrong bits of the stored code give -1 and nothing is touched |
| Ecc.NoError | bl2/fs/yaffs2/yaffs_ecc.c:144-145 | Matching codes give 0 |
| Ecc.CalcBlock | bl2/fs/yaffs2/yaffs_ecc.c:71-130 | The loop and the bit packing compute the packed sums |
| EccCode.CalcBits | bl2/fs/yaffs2/yaffs_ecc.c:71-130 | Each of the 22 stored bits is the complement of the parity of the data bits that it stands for, bytes by one bit of their number or bits by one bit of their place, and the two low bits of the third byte are ones |
| Ecc.CorrectBlock | bl2/fs/yaffs2/yaffs_ecc.c:134-199 | The corrector in place computes the model correction |
| EccOther.SingleCorrected | bl2/fs/yaffs2/yaffs_ecc.c:230-269 | Blocks of any length below 2^32: every single wrong bit is restored with result 1 |
| EccOther.DoubleDetected | bl2/fs/yaffs2/yaffs_ecc.c:230-280 | Every two wrong bits give -1 and the data is left alone |
| EccOther.CodeErrorIgnored | bl2/fs/yaffs2/yaffs_ecc.c:271-276 | A single wrong bit of the stored code gives 1 and the data is left alone |
| EccPairs.OtherMixedDetected | bl2/fs/yaffs2/yaffs_ecc.c:230-280 | A wrong bit of the data together with a wrong bit of the stored code gives -1 and nothing is touched; with one of the two bits that stand for nothing the data is put right |
| EccPairs.OtherCodeDetected | bl2/fs/yaffs2/yaffs_ecc.c:230-280 | Two wrong bits of the stored code give -1 and nothing is touched |
| EccPairs.OutsideDetected | bl2/fs/yaffs2/yaffs_ecc.c:247-264 | A difference that names a byte behind the block gives -1 |
| EccOther.NoError | bl2/fs/yaffs2/yaffs_ecc.c:244-245 | Matching codes give 0 |
| EccOther.CalcBlock | bl2/fs/yaffs2/yaffs_ecc.c:204-228 | The loop computes the sums |
| EccCode.OtherBits | bl2/fs/yaffs2/yaffs_ecc.c:204-228 | Each bit of the sums over a block of any length is the parity of the bytes whose number has that bit set or clear, and each bit of the columns that of the bits whose place has |
| EccOther.CorrectBlock | bl2/fs/yaffs2/yaffs_ecc.c:230-280 | The corrector in place computes the model correction |
| EccSums.FoldFlip | bl2/fs/yaffs2/yaffs_ecc.c:80-89 | Changing bits of one byte changes the sums by the share of those bits alone |
| EccSums.DoubleColumns | bl2/fs/yaffs2/yaffs_ecc.c:29-67 | Two wrong bits of one byte show in the column parities in more than one place |
| EccTable.TableLinear | bl2/fs/yaffs2/yaffs_ecc.c:34-67 | The column table is linear under exclusive or |
| EccTable.Table | bl2/fs/yaffs2/yaffs_ecc.c:34-67 | Each of the 256 entries is the exclusive or of the entries of its bits |
| ImageBits.ImageShown | bl2/drivers/fb/cfbimgblt.c:103-169 | The pixel-by-pixel blit of any bitmap, with pixels of 1 to 32 bits, from any bit of a word on and for lines of any number of bytes, gives every bit of every pixel that of its colour, in the place where the code puts its row |
| ImageBits.ImageElse | bl2/drivers/fb/cfbimgblt.c:103-169 | It changes no other bit of the framebuffer |
| ImageBits.InPlace | bl2/drivers/fb/cfbimgblt.c:159-166 | That place is the right one, each row one line of bytes below the one before, if and only if a line is a whole number of words or the row is the first one, with one more case of lines of one byte; otherwise the bytes of a line are counted as words |
| ImageBits.SlowBlit | bl2/drivers/fb/cfbimgblt.c:103-169 | The loops over rows, pixels and words, with the words shared at both ends and pixels that cross words, write these bits, whatever the two 32-bit colours are |
| ImageBits.SlowLine | bl2/drivers/fb/cfbimgblt.c:124-157 | One row of it, from any bit on |
| ImageBlit.RowBytes | bl2/drivers/fb/cfbimgblt.c:117-166 | The rows of the bitmap follow each other, each of as few bytes as hold its bits |
| ImageBits.DrawnBit | bl2/drivers/fb/cfbimgblt.c:138-150 | A bit of a pixel is that of its colour when colours have no more bits than a pixel |
| ImageBits.FirstBits | bl2/drivers/fb/cfbimgblt.c:138-150 | The pixels of a byte of the bitmap are its bits from the highest down, and those of a word of the framebuffer begin at its lowest |
| ImageBits.FastIsSlow | bl2/drivers/fb/cfbimgblt.c:253-262 | Where the fast path is taken it writes exactly the bits that the pixel path would write |
| ImageBlit.FastBlit | bl2/drivers/fb/cfbimgblt.c:171-220 | For 8, 16 and 32 bits, colours in range and whole words, the table-driven blit writes exactly the pixels of the bitmap for every bitmap and height |
| ImageBlit.LineShown | bl2/drivers/fb/cfbimgblt.c:194-219 | A row written by the fast path has in every byte that of the colour of its pixel; every other byte is as it was |
| ImageBlit.FastWord | bl2/drivers/fb/cfbimgblt.c:207-214 | One table entry gives the word its pixels give |
| ImageBlit.Pixels8 | bl2/drivers/fb/cfbimgblt.c:138-150 | A word of four pixels has the colour of each in its own byte, the first in the lowest |
| ImageBlit.Pixels16 | bl2/drivers/fb/cfbimgblt.c:138-150 | A word of two pixels has the colour of each in its own half, the first in the lower |
| ImageBlit.FastPathFits | bl2/drivers/fb/cfbimgblt.c:253-259 | The guard of the fast path holds exactly when the pixel size has a table and no pixel is split |
| PageMap.GetPage | bl2/arch/mips/jz_mm.c:41-56 | The lowest free page, now in use; none only if none is free |
| PageMap.PutUndoesGet | bl2/arch/mips/jz_mm.c:78-81 | Putting a page back restores the map |
| PageMap.PutPage | bl2/arch/mips/jz_mm.c:78-81 | Exactly that page becomes free |
| PageMap.TakenFree | bl2/arch/mips/jz_mm.c:9-10 | Taking and giving a page changes that page alone |
| PageMap.BitOrder | bl2/arch/mips/jz_mm.c:9-10 | The pages of a word are its bits, the lowest first |
| PageMap.GetPages | bl2/arch/mips/jz_mm.c:83-123 | 2^order consecutive pages that were all free, exactly those now in use, from the lowest run of full words; -1 if and only if there is no such run |
| PageFree.Allocate | bl2/arch/mips/jz_mm.c:41-56 | On a bitmap that is the free set of the virtual-memory machine, get_page takes the page that the machine takes and leaves its new free set, or fails when it does |
| PageFree.Release | bl2/arch/mips/jz_mm.c:78-81 | put_page on the bitmap gives the page back to the machine |
| PageMap.FindRun | bl2/arch/mips/jz_mm.c:95-112 | The first run of full words, or none |
| PageMap.RunFree | bl2/arch/mips/jz_mm.c:95-112 | A run of full words is a run of free pages |

## Left out

- CowRefinement.BootRunRefines: a run stops where the code would run out of pages or slots or hit its dead loops; a failed fork and pages mapped with mapmem are not part of it, because the error path leaves references behind and the mark of such pages is dropped
- CowInvariant.ForkInv: the heap break and mmap area of a process, its open files and the page of its first task are not modelled
- Two-level page tables are one map from address space and page number, with the tables as a map of their own; caches and coprocessor hazards are not modelled
- CecLoopback.Loopback: the timers are exact
- CecDriver.Driver.PutByte: a byte behind the sixteenth of a message is dropped, where the code would store it behind the ring line
- CEC command handling, LEDs and wakeups of the users of both drivers are not modelled
- A1Loopback.Loopback: the receiver is idle and has room for the frame
- A1Burst.Burst: a write after the end of the last frame, while the receiver still waits out its 2400 microseconds, is not part of a burst; what has become of a last frame that is heard and does not fit is not stated
- A1Loopback.Frame: frames without bytes, of which the sender would send eight bits, are outside the loopback and burst theorems; the ring theorems include them
- Ring positions of both drivers are numbers without bound, where the code has 32-bit counters that wrap
- SchedInvariant.RunInv: blocking, unblocking, changing priorities and killing tasks are not steps, because they do not repair the tail pointer when the tail of a longer list is removed; device and list sleeps appear as sleeps without a timeout
- SchedTiming.SleepWakes: tic numbers have no bound in the model, where the code has 32-bit counters that wrap
- SchedTiming.RoundRobinBound: assumes that a requested switch is served before the next tic and that nothing above the priority becomes ready
- SchedKernel.Kernel.SysTick: interrupts that the handler lets in between two sleepers are not modelled
- SchedKernel.Kernel.CreateTask: the stack, the name and the page of the new task are not modelled, and the page leaked for a bad priority is not either
- Links between tasks are maps from task to task rather than fields of heap objects; null is number 0
- ProcTree.Processes.ProcessTerminated: waking the waiting tasks of the parent is not modelled
- CheckptRoundTrip.WrittenIsRead: flash reads report no uncorrected error, the version 2 format is not modelled, and chunk numbers fit 32 bits; erasing may fail for any set of blocks
- CheckptAccounting.RunExact: the counters are only changed by checkpoint operations during a run
- Qsort.QSort: elements are array slots of any type rather than byte strings of a size, so the choice of the swap width is not modelled
- Nameval.Set: names are free of NUL and lengths fit 31 bits; buffers whose bytes behind the records would be taken for a record without a NUL are not considered, since the code would read outside the buffer; a record that would end outside the buffer is not written
- NamevalRun.RunOps: nval_list is not a step of the run because it changes nothing; NamevalMap.ListsAll and Nameval.List state what it gives
- EccOther.SingleCorrected: a 32-bit word is modelled as its four bytes
- ImageBits.SlowBlit: words of 32 bits with the lowest first, a framebuffer that begins on a word; colour images are not modelled
- ImageBits.ImageShown: colours of more bits than a pixel, whose bits fall into other pixels, are covered by SlowBlit only
- PageMap.GetPages: orders up to 30; count_free_pages, which skips bit 31 of partial words, is not modelled
- Copying and filling rectangles, extended attributes, the system call table, USB, console and loader are left out
