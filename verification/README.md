# Verified models of the ADI MSP Ethernet, AD9545 clock and time-of-day drivers

This Dafny project models three Linux drivers of the SoC and proves what they are meant to guarantee.

**MSP Ethernet (`adi-msp.c`).** Three rings of 128 descriptors are shared between the CPU and autonomous DMA
engines. `Ring` is a transition system for a ring an engine writes into, used for both the Rx ring and the Tx status
ring: one step is one access to memory or to a register that the other side can touch. `RingProofs` proves its
invariant and `RingSafety` what follows. `Reassembly` and `RxPath` put frame reassembly on top. `TxTags`, `TxChain`,
`TxPath`, `TxProofs` and `TxResults` model senders, the pending Tx chain, the frame tags, the Tx DMA and the status
poll, a send and the poll interleaved access by access; `WakeRace` says exactly when stopping and waking the queue works
on that model, and `WakeRuns` gives two runs in which it does not. `RingDevice`, `RxDriver` and `TxDriver` are
the drivers as classes over arrays, each access tied to one protocol step, with the other parties running in between.
Everything about "every run" is a statement over all interleavings.

**AD9545 clock (`clk-ad9545.c`).** `Registers` and `ProfileCodec` are the register file and the profile layout in it;
`RegisterLayout` sets the tables of profiles, outputs and NCOs apart.
`PllMath` is the M / N / FRAC / MOD decomposition, `Rational` the approximation it relies on, `NcoSetup` the translation
of the active profile to one fed by an auxiliary NCO, `OutDivider` the output dividers and their phase, `AuxNco` the NCO
frequency registers.

**PTP hardware clock (`ptp_adi.c`, `ptp_adi_clk.c`).** `TimeOfDay` is the 96-bit time stamp (48-bit seconds and 32-bit
nanoseconds as in section 5.3.3 of IEEE 1588-2008, plus a 16-bit fraction), its packing and its adjustment.
`FineTuning` is the frequency adjustment through the NCO. Integers are unbounded; every truncation, wrap-around and
unsigned conversion of the C code that can matter is written out.

## Assumptions about the environment

- The MSP writes one status per submitted frame, in submission order, echoing its tag and PTP bit, and only after the
  Tx DMA has read the frame.
- Completing a STOP descriptor, latching IRQDONE and halting are one step; the flow field and the address are sampled
  when a descriptor is fetched; the first byte of a unit becomes nonzero before the rest, and the tag of a Tx status
  lands together with it.
- The header byte of every Rx unit the engine writes is nonzero. After a unit is complete `addr_cur` may or may not
  still point into it.
- Buffers are identified by numbers; a newly allocated one has a number never used before, not even by a buffer that
  was freed. This is stronger than what an allocator does, and loses nothing but the reuse of freed numbers.
- The network core passes one packet at a time and holds `lp->lock` for it throughout; that it passes none to a stopped
  queue is used in `WakeRace` and `WakeRuns` only (`Lawful`).
- A check that reads several counters is one step. While it runs the other side moves each of them one way only, so its
  outcome is the one it would have had at one of its reads.
- The DMADONE interrupt is enabled when the rings are started: open does not write the enable register itself.
- The optional send workaround that rounds work units up to 8 bytes is on and Tx padding is off; both only change
  lengths, which are not modelled.
- The kernel's `rational_best_approximation` is not part of this model; what is asked of it is the predicate
  `Approximates` - a fraction within the limits, none within them closer - and `Rational` shows that continued fractions
  meet it.

## What turned out not to hold

- **Receive after a failed allocation.** A poll that ends because no buffer could be had leaves a completed unit that
  may have no interrupt to fetch it (`RxStall.FailedAllocationStalls`). This is the only way to stall: idle with nothing
  latched, a unit is missing if and only if that happened (`RxPath.RxNothingLost`, `RxPath.RxNeverStalls`).
- **A poll on a halted ring with no memory.** It goes back to the loop head without leaving, as often as allocations
  fail (`RxStall.AllocationLivelock`); each failure costs at most six steps (`RxPath.RxPollTerminates`).
- **Queue wake-up.** The wake check of the status poll is not under `lp->lock`. Between a send's decision to stop the
  queue and the end of that send it can wake a queue that then has no tag left (`WakeRuns.RunningWithoutTag`), or miss
  a queue that is then stopped with nothing outstanding (`WakeRuns.StoppedForGood`, `WakeRuns.DeadForEver`). The harm is
  done by exactly the steps that are not `Harmless`, and a run is sound if and only if it has none of them
  (`WakeRace.SereneStep`, `WakeRace.SoundIffHarmless`).
- **Lower clamp on N.** `div_u64` takes a 32-bit divisor, so 255 * parent_rate is cut to 32 bits for parents above
  16.8 MHz and the clamp can replace a correct N (`PllMath.FastParentClamped`). The decomposition holds if and only if
  the clamp leaves the quotient alone (`PllMath.Decomposition`); where it does not, the output is far off
  (`PllMath.AccurateIffUnclamped`).
- **NCO translation.** `ref_rate * n` overflows for a PLL in its range with a large modulus
  (`NcoSetup.OverflowExample`); when exactly the frequency is preserved is `NcoSetup.FrequencyPreserved`.
- **Output rounding.** With a quotient of 2^32 or more, and only then, the rounded rate is not the closest one
  (`OutDivider.RoundsUpClosely`), and rounding keeps the order of rates for exactly the parents of
  `OutDivider.RoundMonotone`. `ad9545_calc_pll_params` casts the rate it returns to 32 bits (`clk-ad9545.c:2443`), so a
  quotient of 2^32 takes a parent the chip cannot give.
- **Time adjustment.** The branch that carries a second does not add the whole seconds of the delta, so the clock moves
  by its nanoseconds only (`TimeOfDay.AdjustedExact`, `TimeOfDay.CarryLosesSeconds`).
- **Phase and NCO rates.** The 33rd phase bit is lost on reading: every angle reads back if and only if the divider is
  below 2^31 (`OutDivider.PhaseReadBack`). NCO rates above 65535 Hz store the center frequency in the wrong unit
  (`AuxNco.HertzReadBack`).

## Model

| member | source | states |
|---|---|---|
| RingProofs.InitInv | intel-fpga/recipes-kernel/linux-socfpga/files/drivers/net/ethernet/adi-msp.c:2161-2208 | The rings as allocated, with STOP on the last descriptor only, satisfy the ring invariant. |
| RingProofs.StepInv | intel-fpga/recipes-kernel/linux-socfpga/files/drivers/net/ethernet/adi-msp.c:1202-1521 | Every step of the engine, the interrupt handler and the poll keeps the ring invariant: pairwise distinct buffers, untaken units intact, everything else empty, STOP markers in place, the engine between them, and what the poll knows at each program point. |
| RingSafety.OneStopBetweenIterations | intel-fpga/recipes-kernel/linux-socfpga/files/drivers/net/ethernet/adi-msp.c:1457-1464 | Between iterations a descriptor is STOP if and only if it is the one before the next to be done. |
| RingSafety.StopGuardsUntaken | intel-fpga/recipes-kernel/linux-socfpga/files/drivers/net/ethernet/adi-msp.c:1457-1464 | At every instant some STOP descriptor lies between the engine and the first slot not yet emptied. |
| RingSafety.EngineNeverOverwrites | intel-fpga/recipes-kernel/linux-socfpga/files/drivers/net/ethernet/adi-msp.c:1245-1282 | No step of the engine changes a completed unit the driver has not taken; it only starts writing into an empty buffer. |
| RingSafety.RestartResumes | intel-fpga/recipes-kernel/linux-socfpga/files/drivers/net/ethernet/adi-msp.c:1493-1505 | A restart points the engine at exactly the descriptor it stopped in front of. |
| RingSafety.IdleHasInterrupt | intel-fpga/recipes-kernel/linux-socfpga/files/drivers/net/ethernet/adi-msp.c:1523-1536 | When the poll is idle the interrupt is enabled, and latched whenever a unit waits (no failed allocation) or the engine is halted. |
| RingSafety.StarvingStep | intel-fpga/recipes-kernel/linux-socfpga/files/drivers/net/ethernet/adi-msp.c:1256-1273 | Along every run, a failed allocation noted as the end of the last pass goes with a completed unit not taken, and the poll is on its way out or idle. |
| RingSafety.PollStepShrinks | intel-fpga/recipes-kernel/linux-socfpga/files/drivers/net/ethernet/adi-msp.c:1486-1516 | Each step of a poll, the backward jump included, lowers a measure of the work left. |
| RingSafety.EngineStepGrows | intel-fpga/recipes-kernel/linux-socfpga/files/drivers/net/ethernet/adi-msp.c:1213-1217 | The engine adds to that measure only when it completes a unit, and then a bounded amount. |
| Reassembly.HeaderBytes | intel-fpga/recipes-kernel/linux-socfpga/files/drivers/net/ethernet/adi-msp.c:1284-1362 | Of the 256 header bytes, 5 starts a frame, 1 continues one, 2 and 10 end one without error, 6, 14, 18, 22, 26 and 30 report an error or a drop; all others are invalid. |
| Reassembly.ProcessInBytes | intel-fpga/recipes-kernel/linux-socfpga/files/drivers/net/ethernet/adi-msp.c:1284-1453 | In header bytes and the number of units held: a frame is delivered and counted exactly for a 2 or 10 with one unit held; a 5 is held alone, a 1 joins one to four; anything else empties prev_rx_skb, and all that loses units counts an error. One of the budget is used exactly for a delivered frame, an error status, or a 2 or 10 that finds more than one unit. |
| Reassembly.HoldsSuffix | intel-fpga/recipes-kernel/linux-socfpga/files/drivers/net/ethernet/adi-msp.c:1289-1326 | prev_rx_skb holds exactly the unfinished suffix of the unit stream, always fewer than PREV_RX_SKB_NUM units; it is a single unit if and only if the last one was a SOF. |
| Reassembly.DeliversFrames | intel-fpga/recipes-kernel/linux-socfpga/files/drivers/net/ethernet/adi-msp.c:1284-1453 | Processing a stream delivers exactly its frames - a SOF data unit directly followed by an error-free status unit - in order; rx_packets, rx_bytes and rx_errors are the number of frames, the sum of their lengths and the number of grammar faults. |
| Reassembly.FramesInBytes | intel-fpga/recipes-kernel/linux-socfpga/files/drivers/net/ethernet/adi-msp.c:1284-1453 | The frames of a stream, in header bytes: a 5 directly followed by a 2 or a 10, and nothing else. |
| Reassembly.CostsOne | intel-fpga/recipes-kernel/linux-socfpga/files/drivers/net/ethernet/adi-msp.c:1345-1438 | Over a stream the budget used adds up to the frames delivered and the statuses that report an error or find more than one unit held. |
| Reassembly.ProcessConserves | intel-fpga/recipes-kernel/linux-socfpga/files/drivers/net/ethernet/adi-msp.c:1189-1200 | One unit in, and its buffer turns up exactly once more among held, delivered and freed. |
| Reassembly.FeedConserves | intel-fpga/recipes-kernel/linux-socfpga/files/drivers/net/ethernet/adi-msp.c:1284-1453 | Over a whole stream the buffers fed in are, as a multiset, those held, delivered or freed. |
| RxPath.RxStepInv | intel-fpga/recipes-kernel/linux-socfpga/files/drivers/net/ethernet/adi-msp.c:1202-1521 | Every step of the receive path keeps the ring invariant, the buffer ledger, and that what was taken is a prefix of what the engine wrote, assembled as such. |
| RxPath.RxDelivery | intel-fpga/recipes-kernel/linux-socfpga/files/drivers/net/ethernet/adi-msp.c:1284-1453 | In every run the delivered frames, the counters and the held units are those of the stream of completed units, whatever the interleaving, the number of polls and their budgets. |
| RxPath.LatchFollowsRun | intel-fpga/recipes-kernel/linux-socfpga/files/drivers/net/ethernet/adi-msp.c:1457-1466 | In every run IRQDONE is latched if and only if a unit has been completed since the driver last cleared it. |
| RxPath.RxHistoryGrows | intel-fpga/recipes-kernel/linux-socfpga/files/drivers/net/ethernet/adi-msp.c:1202-1521 | In every run, what any part of it has taken, delivered, freed and seen written is a prefix of what the whole has. |
| RxPath.RxNothingLost | intel-fpga/recipes-kernel/linux-socfpga/files/drivers/net/ethernet/adi-msp.c:1486-1516 | Idle with no interrupt latched, the engine runs, and a completed unit is missing if and only if the last poll ended on a failed allocation. |
| RxPath.RxNeverStalls | intel-fpga/recipes-kernel/linux-socfpga/files/drivers/net/ethernet/adi-msp.c:1523-1536 | With the poll idle, a waiting unit or a halted engine lacks an interrupt that can be taken if and only if the last poll ended on a failed allocation and nothing has been latched since. |
| RxPath.RxBuffersConserved | intel-fpga/recipes-kernel/linux-socfpga/files/drivers/net/ethernet/adi-msp.c:1256-1282 | In every run each buffer ever allocated is in exactly one place - ring, held, delivered, freed, or abandoned by the misalignment branch - and the ring holds N distinct buffers. |
| RxPath.RxReturnsWithinBudget | intel-fpga/recipes-kernel/linux-socfpga/files/drivers/net/ethernet/adi-msp.c:1505-1520 | The value a poll returns never exceeds its budget. |
| RxPath.RxCounts | intel-fpga/recipes-kernel/linux-socfpga/files/drivers/net/ethernet/adi-msp.c:1215-1520 | In every run, from the start of a poll on, its count is the number of frames it has delivered plus the statuses that failed or came too late, and at most its budget; only a restart of the engine cuts it, from the budget to one less. |
| RxPath.CompletionsAreWritten | intel-fpga/recipes-kernel/linux-socfpga/files/drivers/net/ethernet/adi-msp.c:1213-1217 | The units written by a run are the completions in it. |
| RxPath.RxHandledBound | intel-fpga/recipes-kernel/linux-socfpga/files/drivers/net/ethernet/adi-msp.c:1213-1217 | However it is scheduled, the driver handles at most N units more than the engine completes meanwhile. |
| RxPath.RxPollTerminates | intel-fpga/recipes-kernel/linux-socfpga/files/drivers/net/ethernet/adi-msp.c:1486-1516 | A poll takes at most 16 N + 31 + 32 K + 6 F steps while the engine completes K units and F allocations fail, backward jumps included. |
| RxStall.FailedAllocationStalls | intel-fpga/recipes-kernel/linux-socfpga/files/drivers/net/ethernet/adi-msp.c:1256-1273 | From every initial state there is a run in which an allocation fails after IRQDONE was cleared and a completed unit is left waiting with no interrupt that could fetch it. |
| RxStall.AllocationRound | intel-fpga/recipes-kernel/linux-socfpga/files/drivers/net/ethernet/adi-msp.c:1486-1496 | On a halted ring, a failed allocation leads in six steps back to the same state, apart from the mark of a failed allocation. |
| RxStall.AllocationLivelock | intel-fpga/recipes-kernel/linux-socfpga/files/drivers/net/ethernet/adi-msp.c:1486-1496 | From every initial state, and for every number of rounds, there is a run in which one poll goes round that often and is where it was. |
| TxTags.FullPoolOk | intel-fpga/recipes-kernel/linux-socfpga/files/drivers/net/ethernet/adi-msp.c:2340-2348 | The pools set up by open satisfy the tag invariant. |
| TxTags.TagAtIs | intel-fpga/recipes-kernel/linux-socfpga/files/drivers/net/ethernet/adi-msp.c:698-736 | The i-th frame of a class carries tag 1 + i mod 247, or 248 + i mod 8 with PTP. |
| TxTags.GetKeepsPool | intel-fpga/recipes-kernel/linux-socfpga/files/drivers/net/ethernet/adi-msp.c:698-736 | get_frame_tag keeps the invariant: frames of a class carry consecutive cyclic tags, and the tag handed out is not 0. |
| TxTags.OtherKeepsPool | intel-fpga/recipes-kernel/linux-socfpga/files/drivers/net/ethernet/adi-msp.c:698-736 | A frame of the other class does not disturb a pool. |
| TxTags.NextReturnIsExpected | intel-fpga/recipes-kernel/linux-socfpga/files/drivers/net/ethernet/adi-msp.c:759-776 | The oldest frame of a class carries exactly the tag put_frame_tag expects, and it is in range. |
| TxTags.ReturnKeepsPool | intel-fpga/recipes-kernel/linux-socfpga/files/drivers/net/ethernet/adi-msp.c:765-765 | Counting a tag as available again keeps the invariant. |
| TxTags.RecordKeepsPool | intel-fpga/recipes-kernel/linux-socfpga/files/drivers/net/ethernet/adi-msp.c:778-778 | Recording a tag as the last one returned keeps the invariant. |
| TxTags.OutstandingTagsDiffer | intel-fpga/recipes-kernel/linux-socfpga/files/drivers/net/ethernet/adi-msp.c:284-288 | Tags of any two frames not yet given back differ, within and across the classes, and are not 0. |
| TxChain.AppendOk | intel-fpga/recipes-kernel/linux-socfpga/files/drivers/net/ethernet/adi-msp.c:998-1075 | All four branches of the chain code keep the chain invariant: each descriptor handed to DMA or pending leads to the next, and the last of either part is STOP. |
| TxChain.KickOk | intel-fpga/recipes-kernel/linux-socfpga/files/drivers/net/ethernet/adi-msp.c:1805-1830 | The locked restart in adi_msp_status keeps the chain invariant and leaves no chain pending on a halted DMA. |
| TxChain.FinishOk | intel-fpga/recipes-kernel/linux-socfpga/files/drivers/net/ethernet/adi-msp.c:1018-1052 | An engine that halts at STOP and otherwise follows dscptr_nxt keeps the chain invariant. |
| TxChain.HandedWalk | intel-fpga/recipes-kernel/linux-socfpga/files/drivers/net/ethernet/adi-msp.c:1037-1044 | From any descriptor handed to DMA, following dscptr_nxt while the flow is DSCL visits the remaining handed frames in acceptance order and stops. |
| TxChain.AppendStartsPending | intel-fpga/recipes-kernel/linux-socfpga/files/drivers/net/ethernet/adi-msp.c:1018-1055 | A send that finds the DMA halted starts it on exactly the pending frames followed by its own. |
| TxChain.KickStartsPending | intel-fpga/recipes-kernel/linux-socfpga/files/drivers/net/ethernet/adi-msp.c:1808-1819 | The status poll's restart starts it on exactly the pending frames. |
| TxChain.HandedIsFrozen | intel-fpga/recipes-kernel/linux-socfpga/files/drivers/net/ethernet/adi-msp.c:1009-1075 | Neither a send nor the restart writes a descriptor handed to DMA and not yet read. |
| TxProofs.TxInitInv | intel-fpga/recipes-kernel/linux-socfpga/files/drivers/net/ethernet/adi-msp.c:2147-2159 | The initial Tx state satisfies the transmit invariant. |
| TxProofs.TxStepInv | intel-fpga/recipes-kernel/linux-socfpga/files/drivers/net/ethernet/adi-msp.c:1631-1872 | Every step of senders, both engines, the interrupt and the status poll - a send and the poll each going access by access - keeps the transmit invariant (ring, chain, tx_skb table, tag pools, sender, statistics, skbs). |
| TxProofs.CurrentAnswers | intel-fpga/recipes-kernel/linux-socfpga/files/drivers/net/ethernet/adi-msp.c:1659-1663 | A status found done answers the oldest frame not yet retired: its tag and PTP bit are that frame's. |
| TxProofs.ResetUnreachable | intel-fpga/recipes-kernel/linux-socfpga/files/drivers/net/ethernet/adi-msp.c:1688-1747 | In a state that satisfies the invariant none of the four reset branches can be taken. |
| TxResults.TxNeverResets | intel-fpga/recipes-kernel/linux-socfpga/files/drivers/net/ethernet/adi-msp.c:1688-1747 | With one in-order status per frame no run ever counts a Tx reset or enables one. |
| TxResults.TxTagsDistinct | intel-fpga/recipes-kernel/linux-socfpga/files/drivers/net/ethernet/adi-msp.c:974-994 | In every run, frames whose tag is not yet given back carry pairwise different, nonzero tags. |
| TxResults.TxRingShape | intel-fpga/recipes-kernel/linux-socfpga/files/drivers/net/ethernet/adi-msp.c:2155-2159 | In every run, between two statuses: the tail is tx_next_done + tx_count, tx_skb is set exactly on that circular interval, an empty chain has head = tail, a filled one has 1..tx_count frames pending from its head, and its head meets the tail only when all N slots are pending. |
| TxResults.TxTransmitsInOrder | intel-fpga/recipes-kernel/linux-socfpga/files/drivers/net/ethernet/adi-msp.c:1009-1075 | The Tx DMA reads the accepted frames in acceptance order, each once. |
| TxResults.TxKickStartsPending | intel-fpga/recipes-kernel/linux-socfpga/files/drivers/net/ethernet/adi-msp.c:1808-1819 | In every run, a restart by the status poll makes the engine read exactly the pending frames and stop. |
| TxResults.TxSendStartsPending | intel-fpga/recipes-kernel/linux-socfpga/files/drivers/net/ethernet/adi-msp.c:1018-1055 | In every run, a send that starts the DMA as it commits makes it read exactly the pending frames and its own, and stop. |
| TxResults.TxHandedIsFrozen | intel-fpga/recipes-kernel/linux-socfpga/files/drivers/net/ethernet/adi-msp.c:1009-1075 | In every run, no step rewrites a descriptor handed to DMA and not yet read. |
| TxResults.TxConservation | intel-fpga/recipes-kernel/linux-socfpga/files/drivers/net/ethernet/adi-msp.c:857-1092 | Sends = packets + errors + dropped + out + the one in a sender's hands; tx_errors counts the statuses with the error bit; each skb passed in is accepted, discarded or in hand, exactly once; each accepted one is freed once, in acceptance order. |
| TxResults.TxHistoryGrows | intel-fpga/recipes-kernel/linux-socfpga/files/drivers/net/ethernet/adi-msp.c:857-1872 | In every run, the frames accepted, discarded, read and given back by any part of it are a prefix of those of the whole. |
| TxResults.TxTagsConserved | intel-fpga/recipes-kernel/linux-socfpga/files/drivers/net/ethernet/adi-msp.c:719-733 | Between two statuses, tx_count, the free tags of both classes and the tag of a frame about to be committed add up to 255. |
| TxResults.TxChainNotStranded | intel-fpga/recipes-kernel/linux-socfpga/files/drivers/net/ethernet/adi-msp.c:1804-1830 | With the status poll idle, a pending chain on a halted DMA implies a handed frame whose status is still to be handled. |
| TxResults.TxQuiescentMeansDone | intel-fpga/recipes-kernel/linux-socfpga/files/drivers/net/ethernet/adi-msp.c:1804-1867 | If the poll is idle, nothing is latched, the DMA is halted and every frame read has its status, then nothing is pending and all frames are settled. Nothing is said of the queue. |
| TxResults.TxStatusNeverStalls | intel-fpga/recipes-kernel/linux-socfpga/files/drivers/net/ethernet/adi-msp.c:1876-1890 | With the status poll idle, a written status or a halted status engine has an interrupt that can be taken. |
| WakeRace.WakesWhenNoneDropped | intel-fpga/recipes-kernel/linux-socfpga/files/drivers/net/ethernet/adi-msp.c:1730-1733 | In every reachable state the wake condition, but for the stopped queue, holds if and only if a send would drop no packet but one longer than 65535. |
| WakeRace.StopsWhenLast | intel-fpga/recipes-kernel/linux-socfpga/files/drivers/net/ethernet/adi-msp.c:913-915 | The stop condition holds if and only if the send, uninterrupted, would leave no room or no tag for another packet of its class. |
| WakeRace.SereneStep | intel-fpga/recipes-kernel/linux-socfpga/files/drivers/net/ethernet/adi-msp.c:913-996 | From a state in which the queue is in order so far, a step keeps it so if and only if it is harmless: the commit leaves room and a tag or the queue is stopped; the drop leaves the queue running or something that will wake it; the wake-up finds its condition still true. Otherwise the step ends in a state that is not sound. |
| WakeRace.SoundIffHarmless | intel-fpga/recipes-kernel/linux-socfpga/files/drivers/net/ethernet/adi-msp.c:904-918 | In every run, the queue is sound whenever no send is in progress - it runs only with room and tags of both classes, and is stopped only with a frame out or the poll about to look - if and only if every step of the run is harmless. |
| WakeRace.QueueNeverStuck | intel-fpga/recipes-kernel/linux-socfpga/files/drivers/net/ethernet/adi-msp.c:904-918 | As long as the steps have been harmless, a running queue drops only packets longer than 0xffff, and a stopped one has something that will evaluate the wake condition. |
| WakeRace.QuiescentRuns | intel-fpga/recipes-kernel/linux-socfpga/files/drivers/net/ethernet/adi-msp.c:1730-1736 | As long as the steps have been harmless, the queue runs once everything is settled. |
| WakeRace.ShieldedIsHarmless | intel-fpga/recipes-kernel/linux-socfpga/files/drivers/net/ethernet/adi-msp.c:913-918 | A run in which the poll changes no counter and does not look or wake between a send's decision to stop the queue and the end of that send is harmless. |
| WakeRuns.RunningWithoutTag | intel-fpga/recipes-kernel/linux-socfpga/files/drivers/net/ethernet/adi-msp.c:1730-1736 | From every initial state, a run with in-order statuses (one non-PTP and seven PTP frames; the non-PTP one is retired and wakes the queue between stop and tag) after which the queue runs without a PTP tag and drops every PTP packet. |
| WakeRuns.StoppedForGood | intel-fpga/recipes-kernel/linux-socfpga/files/drivers/net/ethernet/adi-msp.c:913-991 | From every initial state, a run (seven PTP frames retired between decision and stop, then the packet dropped) after which the queue is stopped with nothing out, nothing latched and the DMA halted. |
| WakeRuns.DeadForEver | intel-fpga/recipes-kernel/linux-socfpga/files/drivers/net/ethernet/adi-msp.c:1876-1890 | From there the only step anybody can take is a descriptor fetch by the idle status engine, and the queue stays stopped. |
| RingDevice.RingDma.constructor | intel-fpga/recipes-kernel/linux-socfpga/files/drivers/net/ethernet/adi-msp.c:2161-2208 | Allocating a ring yields the initial state of the protocol, its buffers being all there is. |
| RingDevice.RingDma.HwComplete | intel-fpga/recipes-kernel/linux-socfpga/files/drivers/net/ethernet/adi-msp.c:1239-1254 | Completion by the engine writes the unit, updates dscptr_prv, latches IRQDONE and halts at STOP, as the protocol step does. |
| RingDevice.RingDma.Take | intel-fpga/recipes-kernel/linux-socfpga/files/drivers/net/ethernet/adi-msp.c:1278-1282 | An emptied buffer takes the slot in the driver's table. |
| RingDevice.RingDma.WriteStop | intel-fpga/recipes-kernel/linux-socfpga/files/drivers/net/ethernet/adi-msp.c:1458-1458 | The current descriptor becomes STOP; nothing else changes. |
| RingDevice.RingDma.LinkPrev | intel-fpga/recipes-kernel/linux-socfpga/files/drivers/net/ethernet/adi-msp.c:1460-1461 | The descriptor before becomes DSCL; nothing else changes. |
| RingDevice.RingDma.Advance | intel-fpga/recipes-kernel/linux-socfpga/files/drivers/net/ethernet/adi-msp.c:1463-1466 | The poll moves on to the next slot and clears IRQDONE. |
| RingDevice.RingDma.RestartDma | intel-fpga/recipes-kernel/linux-socfpga/files/drivers/net/ethernet/adi-msp.c:1500-1505 | The engine is started at the next slot to be done. |
| RxDriverCode.RxDriver.constructor | intel-fpga/recipes-kernel/linux-socfpga/files/drivers/net/ethernet/adi-msp.c:2161-2204 | The receiver starts in a state the protocol reaches. |
| RxDriverCode.RxDriver.FindUnit | intel-fpga/recipes-kernel/linux-socfpga/files/drivers/net/ethernet/adi-msp.c:1223-1254 | The loop head, with the engine running between its reads, ends ready to take a unit or done with the loop, in a state the protocol reaches. |
| RxDriverCode.RxDriver.DropPrev | intel-fpga/recipes-kernel/linux-socfpga/files/drivers/net/ethernet/adi-msp.c:1189-1200 | Dropping frees every held buffer, in order. |
| RxDriverCode.RxDriver.ProcessUnit | intel-fpga/recipes-kernel/linux-socfpga/files/drivers/net/ethernet/adi-msp.c:1284-1453 | The nested branches on a work unit, with prev_rx_skb accessed in bounds, compute the reassembly function - in header bytes by ProcessInBytes - and whether budget is used. |
| RxDriverCode.RxDriver.TakeOne | intel-fpga/recipes-kernel/linux-socfpga/files/drivers/net/ethernet/adi-msp.c:1256-1282 | Exactly one step is taken: the unit waiting is added to those taken and reassembled, or the loop is left on one of the three ways an allocation can fail. |
| RxDriverCode.RxDriver.PutBack | intel-fpga/recipes-kernel/linux-socfpga/files/drivers/net/ethernet/adi-msp.c:1457-1466 | The slot goes back to the engine in the order address, STOP, link, advance. |
| RxDriverCode.RxDriver.Drain | intel-fpga/recipes-kernel/linux-socfpga/files/drivers/net/ethernet/adi-msp.c:1215-1467 | One pass of the loop terminates with the count it reports, grown by the frames delivered and the statuses that failed or came too late, and not beyond the budget; the recorded run of the protocol goes on from where it was. |
| RxDriverCode.RxDriver.Rx | intel-fpga/recipes-kernel/linux-socfpga/files/drivers/net/ethernet/adi-msp.c:1202-1521 | adi_msp_rx terminates; all frames received so far are delivered and counted, those of before among them and in front, at most N units more than the engine completed meanwhile were handled, no more frames than the budget were delivered, and the count returned is what was delivered, failed or came too late, or one less when all the budget was used and the engine restarted. |
| RxDriverCode.RxDriver.Poll | intel-fpga/recipes-kernel/linux-socfpga/files/drivers/net/ethernet/adi-msp.c:1523-1536 | The poll delivers at most its budget, returns the number of frames delivered and of statuses failed or too late (one less when that is the budget and the engine was restarted), and keeps what was taken and delivered before; it completes if and only if it returns less than its budget, and if it does so with no interrupt latched, the engine runs and a completed unit has not been taken if and only if an allocation failed in its last pass. |
| RxDriverCode.RxDriver.Interrupt | intel-fpga/recipes-kernel/linux-socfpga/files/drivers/net/ethernet/adi-msp.c:1097-1110 | The handler masks the interrupt and schedules the poll. |
| TxDriverCode.TxDriver.constructor | intel-fpga/recipes-kernel/linux-socfpga/files/drivers/net/ethernet/adi-msp.c:2147-2159 | The transmitter starts in a state the protocol reaches. |
| TxDriverCode.TxDriver.GetFrameTag | intel-fpga/recipes-kernel/linux-socfpga/files/drivers/net/ethernet/adi-msp.c:698-736 | The tag cursor and count are updated in place as the tag function says; no tag is reported as 0. |
| TxDriverCode.TxDriver.AppendToChain | intel-fpga/recipes-kernel/linux-socfpga/files/drivers/net/ethernet/adi-msp.c:998-1075 | The four branches on DMA state and chain state compute the chain function on the descriptor array. |
| TxDriverCode.TxDriver.SendPacket | intel-fpga/recipes-kernel/linux-socfpga/files/drivers/net/ethernet/adi-msp.c:857-1092 | adi_msp_send_packet, with the status poll and the engines running between its accesses: it drops only for the length, for want of room or a tag on entry, or because the packet cannot be prepared, and otherwise accepts it with the next tag of its class. |
| TxDriverCode.TxDriver.EnterStep | intel-fpga/recipes-kernel/linux-socfpga/files/drivers/net/ethernet/adi-msp.c:886-912 | The checks on entry drop the packet exactly for its length, a full ring or no tag; this is the protocol's entry step. |
| TxDriverCode.TxDriver.ThresholdStep | intel-fpga/recipes-kernel/linux-socfpga/files/drivers/net/ethernet/adi-msp.c:913-915 | The queue is to be stopped if and only if it runs and at most one slot or tag of the class is left; this is the protocol's threshold step. |
| TxDriverCode.TxDriver.StopStep | intel-fpga/recipes-kernel/linux-socfpga/files/drivers/net/ethernet/adi-msp.c:917-917 | The queue is stopped; nothing else changes but where the sender is. |
| TxDriverCode.TxDriver.AbandonStep | intel-fpga/recipes-kernel/linux-socfpga/files/drivers/net/ethernet/adi-msp.c:947-991 | A packet that cannot be prepared is discarded; if the queue was stopped for it, it stays so. |
| TxDriverCode.TxDriver.TakeTagStep | intel-fpga/recipes-kernel/linux-socfpga/files/drivers/net/ethernet/adi-msp.c:975-994 | The header's tag is the next of its class, and is the one taken from the pool; this is the protocol's tag step. |
| TxDriverCode.TxDriver.CommitStep | intel-fpga/recipes-kernel/linux-socfpga/files/drivers/net/ethernet/adi-msp.c:996-1075 | tx_count goes up by one, the skb is in the table at the old tail, and the chain is the chain function of the old one. |
| TxDriverCode.TxDriver.TakeLock | intel-fpga/recipes-kernel/linux-socfpga/files/drivers/net/ethernet/adi-msp.c:1805-1805 | The poll waits for the lock until the sender is done; the wait ends. |
| TxDriverCode.TxDriver.Look | intel-fpga/recipes-kernel/linux-socfpga/files/drivers/net/ethernet/adi-msp.c:1730-1733 | The wake condition comes out as the queue being stopped, a slot free and a tag of each class free. |
| TxDriverCode.TxDriver.WakeUp | intel-fpga/recipes-kernel/linux-socfpga/files/drivers/net/ethernet/adi-msp.c:1735-1735 | The queue is woken if and only if the condition held when evaluated. |
| TxDriverCode.TxDriver.PutFrameTag | intel-fpga/recipes-kernel/linux-socfpga/files/drivers/net/ethernet/adi-msp.c:738-783 | put_frame_tag never fails; others may run between its two halves. |
| TxDriverCode.TxDriver.Release | intel-fpga/recipes-kernel/linux-socfpga/files/drivers/net/ethernet/adi-msp.c:1688-1719 | The type check and the NULL check succeed, and the slot's skb is released. |
| TxDriverCode.TxDriver.Settle | intel-fpga/recipes-kernel/linux-socfpga/files/drivers/net/ethernet/adi-msp.c:1738-1784 | The tag check succeeds, and statistics and ownership of the skb are settled. |
| TxDriverCode.TxDriver.Retire | intel-fpga/recipes-kernel/linux-socfpga/files/drivers/net/ethernet/adi-msp.c:1688-1791 | A status is retired, senders, step by step, and engines running between its accesses, in a state the protocol reaches. |
| TxDriverCode.TxDriver.KickChain | intel-fpga/recipes-kernel/linux-socfpga/files/drivers/net/ethernet/adi-msp.c:1805-1830 | The chain becomes what the restart function makes of it: a halted DMA is started on the pending chain, anything else is left alone. |
| TxDriverCode.TxDriver.HandleStatuses | intel-fpga/recipes-kernel/linux-socfpga/files/drivers/net/ethernet/adi-msp.c:1631-1872 | adi_msp_status terminates without a reset, whatever sends go on meanwhile, keeps the frames accepted and given back before, and returns the number of statuses retired, at most its budget (one less when that is the budget and the engine was restarted). |
| TxDriverCode.TxDriver.Poll | intel-fpga/recipes-kernel/linux-socfpga/files/drivers/net/ethernet/adi-msp.c:1876-1890 | The status poll keeps the books balanced (sends, skbs, tags, errors) and the histories it found, settles at most its budget of frames and returns that number (one less when it is the budget and the engine was restarted), handles at most N statuses more than were written meanwhile, and if it completes with no interrupt latched, all statuses are handled and the status engine runs. |
| PllMath.PfdRange | intel-fpga/recipes-kernel/linux-socfpga/files/drivers/clk/adi/clk-ad9545.c:2291-2304 | For every 64-bit rate, M brings rate/M into 162-350 MHz if and only if the rate is at least 162 MHz, below 256 * 256 MHz and in neither of two gaps. |
| PllMath.ApllPfd | intel-fpga/recipes-kernel/linux-socfpga/files/drivers/clk/adi/clk-ad9545.c:2291-2304 | For doubled rates in the APLL range, 9 <= M <= 15 and rate/M is in 162-350 MHz. |
| PllMath.SlowParentUnclamped | intel-fpga/recipes-kernel/linux-socfpga/files/drivers/clk/adi/clk-ad9545.c:2429-2431 | For parents with 255 * parent < 2^32 the lower clamp on N is inactive; the exact condition is UnclampedIff. |
| PllMath.FastParentClamped | intel-fpga/recipes-kernel/linux-socfpga/files/drivers/clk/adi/clk-ad9545.c:2429-2431 | For a parent of 16843010 Hz the 32-bit divisor wraps to 254 and N is clamped to 9543307 instead of 16. |
| PllMath.UnclampedIff | intel-fpga/recipes-kernel/linux-socfpga/files/drivers/clk/adi/clk-ad9545.c:2429-2431 | The clamp leaves the quotient alone if and only if M * parent fits in 64 bits, 255 * parent is not 0 modulo 2^32, and the lowest APLL rate over that remainder does not exceed the doubled rate over M * parent. |
| PllMath.Decomposition | intel-fpga/recipes-kernel/linux-socfpga/files/drivers/clk/adi/clk-ad9545.c:2411-2434 | For every 64-bit parent for which neither divisor is 0: den = M * parent, doubled rate = den * N + num and 0 <= num < den if and only if M * parent fits in 64 bits and the lower clamp leaves the quotient alone; M is the doubled rate over 256 MHz, and N is within its limit in any case. |
| PllMath.BuildoutRate | intel-fpga/recipes-kernel/linux-socfpga/files/drivers/clk/adi/clk-ad9545.c:2436-2443 | Where it does, the returned rate is the requested one when any fraction within the limits is exact; otherwise the doubled output is off by less than den / (2 MAX_MOD) + 1 Hz and the returned rate by less than den / (4 MAX_MOD) + 1 Hz. |
| PllMath.AccurateIffUnclamped | intel-fpga/recipes-kernel/linux-socfpga/files/drivers/clk/adi/clk-ad9545.c:2423-2442 | For parents below 2^28 Hz the output is that accurate if and only if the clamp leaves the quotient alone. |
| PllMath.ClampedRate | intel-fpga/recipes-kernel/linux-socfpga/files/drivers/clk/adi/clk-ad9545.c:2429-2442 | Where it does not, the remainder wraps around, the fraction becomes the largest there is, and the output is too high by more than MAX_FRAC * den. |
| PllMath.WithinHalfStep | intel-fpga/recipes-kernel/linux-socfpga/files/drivers/clk/adi/clk-ad9545.c:2436-2436 | The closest fraction is off by at most half a step of the largest denominator. |
| Rational.BestOfTwo | intel-fpga/recipes-kernel/linux-socfpga/files/drivers/clk/adi/clk-ad9545.c:2436-2436 | Of all fractions within the limits, none is closer than both the last convergent and the largest semiconvergent. |
| Rational.TestIsRight | intel-fpga/recipes-kernel/linux-socfpga/files/drivers/clk/adi/clk-ad9545.c:2436-2436 | Twice the multiplier against the quotient, and the remainders on a tie, decide which of the two is closer. |
| Rational.BestApproximation | intel-fpga/recipes-kernel/linux-socfpga/files/drivers/clk/adi/clk-ad9545.c:2436-2436 | Continued fractions, the last convergent replaced by the largest semiconvergent within the limits when the test says so, give a fraction within the limits such that none within the limits is closer. |
| NcoSetup.NcoDecomposition | intel-fpga/recipes-kernel/linux-socfpga/files/drivers/clk/adi/clk-ad9545.c:4753-4757 | The nested floor is the floor of the quotient by factor * freq, and num is its remainder, in [0, den). |
| NcoSetup.StoredQuotient | intel-fpga/recipes-kernel/linux-socfpga/files/drivers/clk/adi/clk-ad9545.c:4779-4781 | Decoding the stored N-1, frac and mod-or-0 gives N as cut to 32 bits plus num/den, whatever the quotient. |
| NcoSetup.FrequencyPreserved | intel-fpga/recipes-kernel/linux-socfpga/files/drivers/clk/adi/clk-ad9545.c:4744-4781 | With an exact fraction, freq * (N + frac/mod) == ref * n / factor if and only if factor * freq and ref * n fit in 64 bits and N in 1 .. 2^32, or N is 0, wraps to 2^32 and that and the fraction make up exactly for what the products have lost. |
| NcoSetup.WrongIfLarge | intel-fpga/recipes-kernel/linux-socfpga/files/drivers/clk/adi/clk-ad9545.c:4753-4757 | For reference rates up to 2^39 Hz, a factor * freq of more than 64 bits always gives another frequency. |
| NcoSetup.OverflowExample | intel-fpga/recipes-kernel/linux-socfpga/files/drivers/clk/adi/clk-ad9545.c:4754-4756 | A 10 MHz reference divided by 10000 behind N = 219903 and modulus 2^23, a PLL at 219.9 MHz, and an NCO of 1 Hz: the fraction left, 4448/10000, is exact and the PLL's frequency is wrong. |
| NcoSetup.SameFrequencyInHz | intel-fpga/recipes-kernel/linux-socfpga/files/drivers/clk/adi/clk-ad9545.c:4744-4757 | What is to be preserved, over the reals: freq * (N + frac/mod) of the NCO profile equals ref / R * (N + frac/mod) of the active one. |
| NcoSetup.SetupCopies | intel-fpga/recipes-kernel/linux-socfpga/files/drivers/clk/adi/clk-ad9545.c:4730-4781 | A profile set up has its own source, 8 or 9, and every field of the driver's active profile but the divider. |
| NcoSetup.SetupKeepsFrequency | intel-fpga/recipes-kernel/linux-socfpga/files/drivers/clk/adi/clk-ad9545.c:4744-4781 | The same equivalence for a whole profile derived by the setup, whenever some fraction within the limits is exact. |
| NcoSetup.PostSetup | intel-fpga/recipes-kernel/linux-socfpga/files/drivers/clk/adi/clk-ad9545.c:4698-4788 | Nothing is written unless the PLL is locked and the active profile is a phase-buildout one with a reference input below 4 that has a rate. Then exactly the profiles fed by an NCO with a requested rate are rewritten in order, each with its translated divider as decoded from the registers, up to the first that stops the setup - one with no requested rate that is not enabled, or one with a rate whose NCO does not turn valid - and it fails if and only if there is one; the rest are untouched. |
| ProfileCodec.EncodedLayout | intel-fpga/recipes-kernel/linux-socfpga/files/drivers/clk/adi/clk-ad9545.c:175-185 | Each field is at the offset of its register from 0x1200, the shared registers being made up of their fields bit by bit. |
| ProfileCodec.DecodeEncode | intel-fpga/recipes-kernel/linux-socfpga/files/drivers/clk/adi/clk-ad9545.c:2986-3151 | Reading back a written profile returns every field, for all values in width. |
| ProfileCodec.EncodeDecode | intel-fpga/recipes-kernel/linux-socfpga/files/drivers/clk/adi/clk-ad9545.c:2986-3151 | Writing back what was read leaves the registers unchanged if and only if their bits outside the fields are 0. |
| ProfileCodec.WindowsApart | intel-fpga/recipes-kernel/linux-socfpga/files/drivers/clk/adi/clk-ad9545.c:175-185 | The register windows of different profiles are disjoint. |
| ProfileCodec.WriteIsLocal | intel-fpga/recipes-kernel/linux-socfpga/files/drivers/clk/adi/clk-ad9545.c:3071-3151 | Over arbitrary registers, writing a profile leaves every byte of every other profile's window as it was, fills its own and reads back. |
| ProfileCodec.WriteProfile | intel-fpga/recipes-kernel/linux-socfpga/files/drivers/clk/adi/clk-ad9545.c:3071-3151 | The register writes fill exactly the profile's window with its encoding. |
| ProfileCodec.ReadProfile | intel-fpga/recipes-kernel/linux-socfpga/files/drivers/clk/adi/clk-ad9545.c:2986-3068 | The register reads return the decoding of the window, whatever it holds. |
| Registers.ValueOfBytes | intel-fpga/recipes-kernel/linux-socfpga/files/drivers/clk/adi/clk-ad9545.c:3099-3135 | A little-endian bulk write of n bytes reads back as the value modulo 256^n. |
| Registers.ByteOrder | intel-fpga/recipes-kernel/linux-socfpga/files/drivers/clk/adi/clk-ad9545.c:3099-3135 | Byte k of a value written is its k-th digit in base 256. |
| RegisterLayout.TablesApart | intel-fpga/recipes-kernel/linux-socfpga/files/drivers/clk/adi/clk-ad9545.c:146-218 | The registers of profiles, outputs and NCOs do not overlap, within a kind or across. |
| RegisterLayout.OtherTablesKept | intel-fpga/recipes-kernel/linux-socfpga/files/drivers/clk/adi/clk-ad9545.c:146-218 | What is written inside one of these tables leaves every other as it was. |
| OutDivider.OthersKept | intel-fpga/recipes-kernel/linux-socfpga/files/drivers/clk/adi/clk-ad9545.c:147-171 | What is written inside the 9 registers of one output leaves divider, phase and half-divide bit of every other output as they were. |
| OutDivider.RoundsUpClosely | intel-fpga/recipes-kernel/linux-socfpga/files/drivers/clk/adi/clk-ad9545.c:1372-1385 | The rounded rate is the lowest output not below the rate that any divider gives (the parent's for higher rates) if and only if parent / rate fits in 32 bits. |
| OutDivider.RoundMonotone | intel-fpga/recipes-kernel/linux-socfpga/files/drivers/clk/adi/clk-ad9545.c:1372-1385 | A higher rate is never rounded to a lower one, over all pairs of rates, if and only if the parent is below 2^32 Hz or strictly between 3 * 2^31 and 2^33. |
| OutDivider.RoundIdempotent | intel-fpga/recipes-kernel/linux-socfpga/files/drivers/clk/adi/clk-ad9545.c:1372-1385 | Rounding a rounded rate changes nothing, for all rates and parents, truncated quotients included. |
| OutDivider.OrderReversed | intel-fpga/recipes-kernel/linux-socfpga/files/drivers/clk/adi/clk-ad9545.c:1378-1378 | For every other parent, two neighbouring rates whose order rounding reverses: 1 and 2 below 2^33 Hz, parent / 2^32 and the next one from there on. |
| OutDivider.OutClock.SetRate | intel-fpga/recipes-kernel/linux-socfpga/files/drivers/clk/adi/clk-ad9545.c:1387-1396 | After set_rate the divider is the low 32 bits of parent / rate, or 1 for 0, and the rate recalculated from it is the one rounding promised; phase and half-divide bit stay, and so do those and the divider of every other output. |
| OutDivider.OutClock.RecalcRate | intel-fpga/recipes-kernel/linux-socfpga/files/drivers/clk/adi/clk-ad9545.c:1357-1370 | The rate is the parent's divided by the register. |
| OutDivider.PhaseReadBack | intel-fpga/recipes-kernel/linux-socfpga/files/drivers/clk/adi/clk-ad9545.c:1398-1471 | Every angle reads back - defined, at most the one set, short by at most ceil(360/E) - if and only if the divider is below 2^31. |
| OutDivider.NarrowReadsBack | intel-fpga/recipes-kernel/linux-socfpga/files/drivers/clk/adi/clk-ad9545.c:1398-1471 | Below 2^31 the bound holds for each angle, and the phase read back equals the one set if and only if 360 divides E * degrees. |
| OutDivider.WideDividerPhase | intel-fpga/recipes-kernel/linux-socfpga/files/drivers/clk/adi/clk-ad9545.c:1461-1464 | For every divider from 2^31 on, the number of edges wraps around, and half a turn reads back as at least 181 degrees or divides by zero. |
| OutDivider.OutClock.SetPhase | intel-fpga/recipes-kernel/linux-socfpga/files/drivers/clk/adi/clk-ad9545.c:1398-1437 | set_phase stores the low 32 bits of (2 Q + half) * degrees / 360 and sets the 33rd if the code has it, never clearing it; divider and half-divide bit stay, and so does every other output. |
| OutDivider.OutClock.GetPhase | intel-fpga/recipes-kernel/linux-socfpga/files/drivers/clk/adi/clk-ad9545.c:1439-1471 | get_phase returns 360 times the low 32 bits of the code over 2 Q + half cut to 32 bits. |
| AuxNco.HertzClosest | intel-fpga/recipes-kernel/linux-socfpga/files/drivers/clk/adi/clk-ad9545.c:3765-3777 | The rate in Hz is the closest to the tuning word in units of 2^-40 Hz, a tie going up. |
| AuxNco.StoredTuning | intel-fpga/recipes-kernel/linux-socfpga/files/drivers/clk/adi/clk-ad9545.c:3779-3805 | The tuning word a rate ends up as: rate * 2^40 up to 65535 Hz, 65535 + (rate - 65535) * 2^40 above. |
| AuxNco.ReadBackIsCenter | intel-fpga/recipes-kernel/linux-socfpga/files/drivers/clk/adi/clk-ad9545.c:3643-3660 | The tuning word read back is the center frequency if and only if the offset is 0. |
| AuxNco.HertzReadBack | intel-fpga/recipes-kernel/linux-socfpga/files/drivers/clk/adi/clk-ad9545.c:3765-3805 | A rate set in Hz reads back if and only if it is at most 65535 Hz; above, it reads back 65535 Hz too low. |
| AuxNco.Nco.SetCenter | intel-fpga/recipes-kernel/linux-socfpga/files/drivers/clk/adi/clk-ad9545.c:3602-3613 | A center frequency is accepted if and only if it is below 2^56; only its 7 registers change, and the other NCO does not. |
| AuxNco.Nco.GetCenter | intel-fpga/recipes-kernel/linux-socfpga/files/drivers/clk/adi/clk-ad9545.c:3586-3599 | The 7 registers read as a 56-bit value, whatever the eighth byte of the variable held. |
| AuxNco.Nco.GetTuning | intel-fpga/recipes-kernel/linux-socfpga/files/drivers/clk/adi/clk-ad9545.c:3662-3678 | The tuning word is the center plus 2^16 times the offset. |
| AuxNco.Nco.SetHertz | intel-fpga/recipes-kernel/linux-socfpga/files/drivers/clk/adi/clk-ad9545.c:3779-3805 | A rate above 65790 Hz is refused, the center being overwritten all the same; otherwise the tuning word is the one of StoredTuning. The other NCO does not change. |
| FineTuning.AdjustmentError | intel-fpga/recipes-kernel/linux-socfpga/files/drivers/ptp/adi_ptp/ptp_adi_clk.c:226-228 | The adjustment is within half a unit of the exact product if and only if freq * magnitude is below (2^64 - 500000) * 2^16, that is, the 64-bit intermediate does not overflow. |
| FineTuning.OddSymmetric | intel-fpga/recipes-kernel/linux-socfpga/files/drivers/ptp/adi_ptp/ptp_adi_clk.c:230-233 | Opposite corrections move the word by the same amount in opposite directions if and only if both sums or neither fit their 64 bits. |
| FineTuning.Monotone | intel-fpga/recipes-kernel/linux-socfpga/files/drivers/ptp/adi_ptp/ptp_adi_clk.c:205-236 | For every tuning word and every k, a larger correction never gives a smaller word among those up to k in either direction, if and only if freq * k is below that limit and below ((freq + 1) * 10^6 - 500000) * 2^16, where the word would become negative. |
| FineTuning.ZeroIsNominal | intel-fpga/recipes-kernel/linux-socfpga/files/drivers/ptp/adi_ptp/ptp_adi_clk.c:205-236 | A correction of 0 restores the nominal word. |
| FineTuning.HwClk.AdjFine | intel-fpga/recipes-kernel/linux-socfpga/files/drivers/ptp/adi_ptp/ptp_adi_clk.c:205-236 | The word written depends on the nominal word and this call alone, and below that limit is within half a unit of the exact product whenever it is accepted; a word of more than 56 bits is refused with the registers unchanged. |
| TimeOfDay.Layout | intel-fpga/recipes-kernel/linux-socfpga/files/drivers/ptp/adi_ptp/ptp_adi.c:295-306 | The three registers as one 96-bit number hold the fraction in the low 16 bits, the nanoseconds in the next 32 and 48 bits of seconds above. |
| TimeOfDay.UnpackPack | intel-fpga/recipes-kernel/linux-socfpga/files/drivers/ptp/adi_ptp/ptp_adi.c:295-319 | Packing and unpacking keeps everything but seconds above 48 bits, so it is the identity if and only if seconds < 2^48. |
| TimeOfDay.PackUnpack | intel-fpga/recipes-kernel/linux-socfpga/files/drivers/ptp/adi_ptp/ptp_adi.c:308-319 | Unpacking and packing registers is the identity. |
| TimeOfDay.PlusExact | intel-fpga/recipes-kernel/linux-socfpga/files/drivers/ptp/adi_ptp/ptp_adi.c:275-293 | Adding the delay is exact in 2^-16 ns if and only if the nanoseconds with fractions, and the whole sum, are less than 2^64 nanoseconds and 2^64 seconds. |
| TimeOfDay.AdjustedExact | intel-fpga/recipes-kernel/linux-socfpga/files/drivers/ptp/adi_ptp/ptp_adi.c:387-401 | The adjustment is exact, through the registers, if and only if delta < 10^9 or ns + delta mod 10^9 < 10^9; otherwise the time moves by delta mod 10^9 only. The nanoseconds are right in any case. |
| TimeOfDay.AdjtimeExact | intel-fpga/recipes-kernel/linux-socfpga/files/drivers/ptp/adi_ptp/ptp_adi.c:371-406 | Including the lead: the registers get latched time + lead + delta if and only if the delay does not take the nanoseconds to 2^64 and delta < 10^9 or the nanoseconds of latched time + lead plus delta mod 10^9 are below 10^9. |
| TimeOfDay.CarryLosesSeconds | intel-fpga/recipes-kernel/linux-socfpga/files/drivers/ptp/adi_ptp/ptp_adi.c:398-401 | Adding 1.9 s to 0.2 s gives 1.1 s. |
| TimeOfDay.Tstamp.AddDelay | intel-fpga/recipes-kernel/linux-socfpga/files/drivers/ptp/adi_ptp/ptp_adi.c:275-293 | The time stamp is updated in place to the normalised sum. |
| TimeOfDay.Tstamp.Adjust | intel-fpga/recipes-kernel/linux-socfpga/files/drivers/ptp/adi_ptp/ptp_adi.c:387-401 | The time stamp is updated in place as the adjustment function says, and is exact in just the cases of AdjustedExact. |
| TimeOfDay.Tod.AdjTime | intel-fpga/recipes-kernel/linux-socfpga/files/drivers/ptp/adi_ptp/ptp_adi.c:371-406 | adjtime writes latched time + lead + delta in exactly the cases above; a failed read writes nothing; errors are reported. |
| TimeOfDay.FieldAccess | intel-fpga/recipes-kernel/linux-socfpga/files/drivers/ptp/adi_ptp/ptp_adi.c:116-153 | A value that fits its field, shifted into place, reads back, and fields with disjoint masks do not disturb each other. |

## Left out

- PllMath.BuildoutRate: takes parents below 2^40 Hz, where the products of the output fit in 64 bits, and says nothing
  of a clamped one; for parents below 2^28 Hz `ClampedRate` does.
- PllMath.Decomposition: a divisor that is 0 when cut to its width makes `div64_u64` or `div_u64` divide by zero.
- NcoSetup.FrequencyPreserved: a factor * freq that is a multiple of 2^64 leaves no fraction to approximate.
- NcoSetup.PostSetup: takes the reference rates, R dividers and the validity of the NCOs as inputs.
- TxDriverCode.TxDriver.HandleStatuses: the reset branches appear as dead branches, proved unreachable; the reset
  itself is not implemented in the source.
- Fairness: a poll is bounded by the completions and failed allocations while it runs, which are not bounded themselves.
- Liveness of transmission: it depends on when the Tx DMA halts relative to the status writes.
- skb contents, DMA mapping of Tx data, time stamps in status units, tx_bytes, setting prev_rx_skb entries to NULL,
  debug dumps, ethtool, ioctl and device-tree handling.
- Zero-delay mode of the PLL, feedback tagging, TDC dividers, the free-running tuning word, set_rate of the PLLs.
- Errors of the register transport, I/O updates, trigger and poll registers of the time-of-day block and the golden
  counter: a time-out is an input of the adjustment.
- The conversion of the trigger delay from the device tree and the time-out ratio.
