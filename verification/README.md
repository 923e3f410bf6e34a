# Ibex: proofs of the core's state machines

This project models the deterministic state machines of the Ibex core (SystemVerilog) and its C++
CSR reference model in Dafny, and proves what they promise over all operands, all runs and all
environment timings.

Every clocked unit has two forms. A function `Step` gives the registers after one clock edge from the
registers before it and the inputs; a class holds the registers as fields and its `Clock` method
overwrites them as the `always_ff` blocks do, with `State() == Step(old(State()), i)` as its contract.
What the unit promises is proved of `Step`, for whole input sequences, against an independent
description: integer arithmetic, a sequential machine, a memory, an abstract queue.

`dafny verify dfyconfig.toml` checks the whole project.

| file | what it holds |
|---|---|
| `Bits.dfy` | fixed-width fields as bounded integers, floor-division facts |
| `MultDivSpec.dfy` | RV32M as integer arithmetic (sections 7.1 and 7.2 of the RISC-V Unprivileged ISA 20190608); division by magnitudes, restoring division |
| `MultDivSlow.dfy`, `MultDivSlowProofs.dfy` | Baugh-Wooley multiplier and divider |
| `MultDivFast.dfy`, `MultDivFastProofs.dfy`, `MultDivAgreement.dfy` | 17x17 MAC multipliers (3/4-cycle and single-cycle) and divider; agreement of all implementations |
| `FetchFifo.dfy`, `PrefetchBuffer.dfy`, `PrefetchProofs.dfy`, `PrefetchErrors.dfy` | fetch FIFO, prefetch buffer, delivery of memory's instructions, attribution of errors |
| `ICache.dfy`, `ICacheProofs.dfy`, `ICacheData.dfy` | instruction cache: age matrix, response attribution, content of the RAMs |
| `ICacheOutput.dfy`, `ICacheDelivery.dfy` | the cache's output stage, delivery of memory's instructions |
| `ICacheHandshake.dfy`, `ICacheProgress.dfy` | stable output, no deadlock, bounded waiting in bus events and in cycles |
| `ICacheFaults.dfy`, `ICacheWitness.dfy` | which instructions carry an error when errors depend on the address; a run in which the error flag rises |
| `LoadStoreUnit.dfy`, `LoadStoreProofs.dfy` | load/store unit and its byte-level memory semantics, PMP and bus errors included |
| `Pipeline.dfy` | ID/EX and writeback stage against a sequential register machine |
| `RegisterModel.dfy`, `PmpCsrs.dfy`, `PmpAgreement.dfy`, `ModelLocks.dfy` | C++ register model, PMP part of the CSR block, when they agree, permanence of locks on both sides |
| `Traps.dfy`, `TrapProofs.dfy` | controller FSM and trap CSRs: debug mode, NMI and MRET |
| `Alu.dfy` | reversing shifter, two-cycle rotates and funnel shifts, generalised reverse and or-combine, shuffle network, bit counting |

## How the hardware is represented

* The `secure.sv` gating macros are undefined. The clearing of `rdata_q` in the load/store unit has no
  switch and is part of the model.
* Two-valued logic, one step per clock, reset as an initial state. Registers without a reset value
  start with any value.
* Fixed-width registers are bounded integers with explicit `%`; wrap-around, truncation and sign
  extension are written out. The FIFO's address register is kept in halfwords, as the RTL keeps bits
  31:1. Words of the register model are four bytes, words of the shifter 32 booleans.
* One-hot registers of the cache are kept as the number of the set bit, bit vectors over fill buffers as
  sets. The one-hot multiplexers are modelled as picking the granted buffer;
  `ICacheProofs.GrantsAreOneHot` and `ICacheDelivery.OneHead` are what justifies that.
* The environment (bus, PMP answer, operands held by the ID stage, LSU answers) is a predicate `Legal`
  on the inputs of each cycle. It leaves every delay free.

## Results that go against the code's own description

* **Split loads** (`LoadStoreProofs.LoadIsExactIff`, `SplitLoadMayLoseBytes`). `doc/load_store_unit.rst:53`
  says misaligned accesses are handled. `rtl/ibex_load_store_unit.sv:193-197` clears the kept first word
  after one cycle, so a split load is right exactly when its second answer comes in the cycle after the
  first, or the lost bytes are zero anyway.
* **Cache handshake** (`ICacheWitness.ErrorMayRise`, `ICacheHandshake.OutputIsStable`). `doc/icache.rst:225` has
  the output stable while it is not taken. A buffer that hits still hears the answer to its speculative
  request, and an error in it raises the error flag of an instruction already on offer.
  Validity, address and error-free bits do stay; the flag rises exactly if an error arrives for the wanted
  beat of a buffer that hits, and never when errors depend on the address alone
  (`ICacheFaults.DocumentedHandshake`).
* **Reference model** (`PmpAgreement.AgreementIff`). The C++ model is faithful exactly without a PMP, or
  with granularity 0 and a number of regions divisible by four; two lemmas give the access sequences
  that tell it apart otherwise.

## Where a property stops, exactly

* **Trap in an NMI handler** (`TrapProofs.TrapInNmiHandlerReturnsIff`, `TrapInNmiHandlerMayLoseContext`).
  `doc/exception_interrupts.rst` rules nesting out. The single `mstack` level is overwritten; the
  lemmas give exactly the contexts that survive, and a run from reset whose context does not.
* **First cycle of the instruction cache** (`ICacheData.FirstCycleIsSafeIff`). A lookup before the reset
  sweep begins can hit on what the tag RAM held at power-up. In every configuration the cache is safe
  exactly if it is disabled or not asked in that cycle; the enable bit, which resets to zero, sees to it.

## Model

| member | source | states |
|---|---|---|
| MultDivSpec.TruncDivRem | rtl/ibex_multdiv_slow.sv:202-303 | the reference quotient and remainder recompose the dividend, the remainder is smaller than the divisor and never has the opposite sign |
| MultDivSpec.LowWordIgnoresSigns | rtl/ibex_multdiv_slow.sv:188-194 | signed and unsigned products have the same low word |
| RestoringDivision.ComparisonIsExact | rtl/ibex_multdiv_slow.sv:131-137 | the comparison of two words by sign bits and a truncated difference is exact for all divisors, those above 2^31 included |
| RestoringDivision.PartialBound | rtl/ibex_multdiv_fast.sv:433-447 | the partial remainder never exceeds the numerator prefix, hence fits a word |
| RestoringDivision.PartialFinish | rtl/ibex_multdiv_fast.sv:448-465 | after the last bit the invariant gives exactly quotient and remainder |
| MultDivSlow.MultDivUnit.Clock | rtl/ibex_multdiv_slow.sv:81-129 | the flops of the slow unit move as the step function says and stay within their widths |
| MultDivSlow.WidthsStep | rtl/ibex_multdiv_slow.sv:158-174 | no register of the slow unit leaves its width |
| MultDivSlowProofs.BiasedShift | rtl/ibex_multdiv_slow.sv:139-149 | one Baugh-Wooley step keeps accumulator = 2^32 + floor((2^32 + A * low bits of B) / 2^(j+1)) |
| MultDivSlowProofs.BiasedInRange | rtl/ibex_multdiv_slow.sv:139-149 | that accumulator fits 33 bits: no carry is lost |
| MultDivSlowProofs.MulhComp | rtl/ibex_multdiv_slow.sv:195-201 | a MULH cycle keeps the invariant |
| MultDivSlowProofs.MullComp | rtl/ibex_multdiv_slow.sv:237-242 | a MUL cycle keeps accumulated part plus remaining product congruent to the product, early exit included |
| MultDivSlowProofs.MulhFinish | rtl/ibex_multdiv_slow.sv:266-273 | the last MULH cycle yields the high word of the signed product |
| MultDivSlowProofs.DivComp | rtl/ibex_multdiv_slow.sv:248-256 | a division cycle produces the next quotient bit and brings down the next numerator bit |
| MultDivSlowProofs.DivSign | rtl/ibex_multdiv_slow.sv:284-296 | the sign fix-up gives the truncated quotient or the remainder's sign, -2^31 by -1 included |
| MultDivSlowProofs.HeldUntilReady | rtl/ibex_multdiv_slow.sv:257-303 | a finished result stays for any number of not-ready cycles |
| MultDivSlowProofs.MeetsSpecification | rtl/ibex_multdiv_slow.sv:176-314 | over every run of an operation without a gap in its enables, valid rises after exactly the latency and shows what RV32M specifies, for all operands, modes and zero divisors |
| MultDivSlowProofs.CycleCounts | rtl/ibex_multdiv_slow.sv:188-303 | MULH takes 33 cycles, division 37 or 2, MUL max(1, bits of b) + 1 |
| MultDivFast.MultDivUnit.Clock | rtl/ibex_multdiv_fast.sv:96-118 | the flops of the fast units move as the step function says |
| MultDivFastProofs.SumsFit | rtl/ibex_multdiv_fast.sv:253-345 | no sum of the MAC leaves 34 signed bits, so dropping bit 34 loses nothing |
| MultDivFastProofs.ProductBySums | rtl/ibex_multdiv_fast.sv:273-338 | the four partial sums recompose the full product |
| MultDivFastProofs.MacForms | rtl/ibex_multdiv_fast.sv:143-227 | the MAC of each state computes its sum exactly, in both multiplier forms |
| MultDivFastProofs.MeetsSpecification | rtl/ibex_multdiv_fast.sv:143-494 | both multipliers and the divider show what RV32M specifies after exactly their latency (last cycle included: MUL 3 or 1, MULH 4 or 2, division 37 or 2), with enables withheld anywhere |
| MultDivAgreement.ImplementationsAgree | rtl/ibex_multdiv_fast.sv:192-226 | all implementations show the same result on every request |
| FetchFifo.Fifo.Clock | rtl/ibex_fetch_fifo.sv:177-230 | shifting entry by entry in place gives the FIFO's next state |
| FetchFifoQueue.OutputIsHeadOfQueue | rtl/ibex_fetch_fifo.sv:68-131 | valid, data, size and error attribution are those of the instruction cut from the head of the queue, the bypassed word included |
| FetchFifoQueue.StepIsQueueStep | rtl/ibex_fetch_fifo.sv:168-209 | one edge appends the incoming word and drops the head when it is used up |
| FetchFifoQueue.PopLeavesWord | rtl/ibex_fetch_fifo.sv:137-175 | an entry is dropped exactly when the address leaves its word |
| PrefetchBuffer.Prefetcher.Clock | rtl/ibex_prefetch_buffer.sv:230-244 | the buffer's flops and the FIFO inside it move as the step function says |
| PrefetchProofs.OrderedStep | rtl/ibex_prefetch_buffer.sv:184-224 | discarded requests are the oldest, and FIFO entries, live requests and the held request together never exceed the FIFO's depth |
| PrefetchProofs.TrackedStep | rtl/ibex_prefetch_buffer.sv:184-224 | the outstanding bits count exactly the bus transactions and faked PMP responses still to come, in order |
| PrefetchProofs.LiveMoves | rtl/ibex_prefetch_buffer.sv:111-178 | without a branch the queue of live requests loses its answered head and gains the next word |
| PrefetchProofs.LiveBranch | rtl/ibex_prefetch_buffer.sv:126-178 | after a branch only requests for the target are live |
| PrefetchProofs.InvStep | rtl/ibex_prefetch_buffer.sv:111-224 | entries, live requests and next address stay consecutive words from the program counter |
| PrefetchProofs.DeliversMemory | rtl/ibex_fetch_fifo.sv:83-131 | output without an error is memory's instruction at the program counter; with an error of the second half only, its first half is memory's and the first half of a 32-bit instruction that crosses a word |
| PrefetchProofs.FetchesMemory | rtl/ibex_prefetch_buffer.sv:111-224 | from reset, for every memory, bus timing, readiness and branch pattern, and PMP answers and bus errors that may differ each time, the accepted instructions since a branch follow each other and those without an error are memory's |
| PrefetchErrors.OutputCarriesItsErrors | rtl/ibex_fetch_fifo.sv:83-131 | the output carries an error iff one of its own words was answered with one, said to be in the second half iff the first half's word was not |
| PrefetchErrors.ErrorsAreAttributed | rtl/ibex_prefetch_buffer.sv:184-224 | from reset, with PMP answers and bus errors free at every request: the answers to the requests of a stream are for consecutive words, and every accepted instruction carries exactly the errors its own words were answered with |
| PrefetchProofs.NeverOverfull | rtl/ibex_fetch_fifo.sv:236-242 | no push into a full FIFO after any inputs at all |
| PrefetchProofs.RequestIsHeld | rtl/ibex_prefetch_buffer.sv:122-155 | an ungranted request stays up at the same word-aligned address, across branches |
| PrefetchProofs.AlwaysProgress | rtl/ibex_prefetch_buffer.sv:111-120 | while fetching is enabled something is requested, on its way or ready |
| PrefetchProofs.RankFalls | rtl/ibex_prefetch_buffer.sv:184-224 | while no instruction is ready every grant and every response brings it nearer, and waiting loses nothing |
| PrefetchProofs.InstructionWithinThirteen | rtl/ibex_prefetch_buffer.sv:111-224 | however slow the bus, without a branch an instruction is ready after at most 13 grants and responses, leftovers of cancelled requests included |
| ICache.InstructionCache.Clock | rtl/ibex_icache.sv:689-766 | buffers, RAMs, lookup pipeline and sweep move as the step function says |
| ICacheProofs.ShapeStep | rtl/ibex_icache.sv:567-619 | counters, addresses and RAMs keep their widths for every configuration |
| ICacheProofs.AgeStep | rtl/ibex_icache.sv:523-544 | each buffer's older set stays exactly the buffers allocated before it and still busy |
| ICacheProofs.AgeIsTotalOrder | rtl/ibex_icache.sv:533-535 | older among busy buffers is a strict total order, for any number of buffers |
| ICacheProofs.GrantsAreOneHot | rtl/ibex_icache.sv:651-660 | external, response, RAM and output grants go to at most one buffer |
| ICacheProofs.SomeExtArb | rtl/ibex_icache.sv:652 | whenever a buffer requests, one is granted the bus |
| ICacheProofs.ExtDoneIsStable | rtl/ibex_icache.sv:574-585 | a busy buffer that has finished requesting never requests again |
| ICacheProofs.ResponseReachesOwner | rtl/ibex_icache.sv:586-593 | with an in-order bus a response goes to the buffer it was fetched for, as the beat it was fetched for |
| ICacheProofs.BusInvStep | rtl/ibex_icache.sv:509-593 | requests issue in age order and the bus owes exactly the responses the counters wait for |
| ICacheProofs.RequestIsHeld | rtl/ibex_icache.sv:573-585 | an ungranted request, speculative or not, is repeated at the same address |
| ICacheData.OrOfEqualLines | rtl/ibex_icache.sv:354-362 | or-ing any number of matching ways that hold one line gives that line |
| ICacheData.HitReturnsMemory | rtl/ibex_icache.sv:346-362 | a hit returns memory's line at the looked-up address |
| ICacheData.DataStep | rtl/ibex_icache.sv:734-766 | every received beat of a buffer is memory's or marked as an error, hits that race with responses included |
| ICacheData.WritesMemory | rtl/ibex_icache.sv:625-633 | what a buffer writes to the RAMs is a complete line of memory |
| ICacheData.RamsStep | rtl/ibex_icache.sv:236-251 | every valid way of an initialised index keeps holding memory's line, through fills and sweeps |
| ICacheData.CacheHoldsMemory | rtl/ibex_icache.sv:956-978 | from reset, once a sweep is over all valid ways hold memory's lines and every hit returns them; what is asked of the first cycle is exact (`FirstCycleIsSafeIff`) |
| ICacheData.ResponsesAreAttributed | rtl/ibex_icache.sv:564-593 | from reset, after any run, attribution and age order hold |
| ICacheData.PowerUpHits | rtl/ibex_icache.sv:240 | for every configuration and address there is a power-up content of the RAMs that a first-cycle lookup hits on |
| ICacheData.FirstCycleIsSafeIff | rtl/ibex_icache.sv:240 | for every configuration: all hits of all runs are memory's iff the cache is disabled or not asked in the first cycle |
| ICacheOutput.OutputStage.Clock | rtl/ibex_icache.sv:856-916 | skid buffer and output address move as the step function says |
| ICacheOutput.OutputStage.ClockCache | rtl/ibex_icache.sv:820-916 | output stage and fill buffers move together, each on the other's state before the edge |
| ICacheDelivery.OutputIsWanted | rtl/ibex_icache.sv:653-658 | the buffer granted the output holds the line and beat the stream has reached |
| ICacheDelivery.HeadSource | rtl/ibex_icache.sv:662-679 | bypass, hit and data register are never selected for any other buffer, and one of them is for that one |
| ICacheDelivery.HeadIsMemory | rtl/ibex_icache.sv:823-846 | what the multiplexers put out is memory's beat unless an error is flagged |
| ICacheDelivery.ErrorIsReported | rtl/ibex_icache.sv:893-902 | an error taken from the buffers is at once part of an instruction handed over with an error |
| ICacheDelivery.StageMoves | rtl/ibex_icache.sv:871-916 | the stage moves on by exactly the beats it takes and keeps the half it still needs |
| ICacheDelivery.DeliversMemory | rtl/ibex_icache.sv:918-945 | realignment hands over the instruction at the output address, across beats and lines |
| ICacheDelivery.ChainStep | rtl/ibex_icache.sv:599-619 | buffers with data to output always hold consecutive lines from the stream's position to the prefetch address |
| ICacheDelivery.ChainBranch | rtl/ibex_icache.sv:546-552 | after a branch only the target's line is left in the stream |
| ICacheDelivery.NoneAheadStep | rtl/ibex_icache.sv:603-615 | no buffer's output count runs ahead of its data |
| ICacheDelivery.SkipCounts | rtl/ibex_icache.sv:904-916 | the output address steps by one or two halfwords modulo the address space |
| ICacheDelivery.CacheDeliversMemory | rtl/ibex_icache.sv:799-950 | from reset, for every configuration, memory, bus timing, readiness, branch and invalidation pattern, the instructions accepted since a branch are memory's, one after the other, up to the first with an error |
| ICacheDelivery.ErrorFreeRun | rtl/ibex_icache.sv:734-766 | without a bus or PMP error no instruction carries one |
| ICacheDelivery.AddrOfHalfNumber | rtl/ibex_icache.sv:908-916 | the halfword number determines tag, index, beat and half of the output address |
| ICacheFaults.HitIsFaultless | rtl/ibex_icache.sv:625-633 | with errors that depend on the address, no line with one is ever hit |
| ICacheFaults.BufferFlaggedStep | rtl/ibex_icache.sv:734-766 | a buffer flags only beats with a fault, and every such beat it has received |
| ICacheFaults.OutputErrIff | rtl/ibex_icache.sv:823-846 | what is put out is an error iff the beat the stream has reached has a fault |
| ICacheFaults.ErrorIff | rtl/ibex_icache.sv:893-950 | a valid instruction carries an error iff one of its halves has a fault, and says the second half iff the first has none |
| ICacheFaults.CacheReportsFaults | rtl/ibex_icache.sv:799-950 | from reset, every instruction since a branch up to the first with an error carries one iff one of its halves has a fault |
| ICacheFaults.DocumentedHandshake | doc/icache.rst:222-232 | with errors that depend on the address, a valid instruction that is not taken stays valid with the same address, error and bits |
| ICacheHandshake.FlagAgainstOutput | rtl/ibex_icache.sv:734-766 | the error flag of the wanted beat after the edge is what is put out now, or an error that arrives for it while its buffer hits |
| ICacheHandshake.OutputIsStable | doc/icache.rst:222-232 | from reset, with any errors: a valid instruction that is not taken stays valid with the same address, keeps its error, without an error keeps its bits, and gains an error iff one arrives for the wanted beat of a buffer that hits |
| ICacheWitness.ErrorMayRise | doc/icache.rst:222-232 | a run from reset in which an instruction on offer without an error carries one in the next cycle |
| ICacheHandshake.NeverStuck | rtl/ibex_icache.sv:546-660 | from reset, with any errors, while fetching is enabled there is data, a request, an answer to come, or the cache moves by itself |
| ICacheHandshake.WaitIsBounded | rtl/ibex_icache.sv:546-609 | a stretch without data and branch sees at most 4 grants or responses per beat of the buffers, whatever the timing |
| ICacheProgress.PotentialFalls | rtl/ibex_icache.sv:546-660 | every grant, denial and response, and every lookup, hit, line write, sweep step and freed buffer, leaves less to happen before there is data |
| ICacheProgress.DataComesInTime | rtl/ibex_icache.sv:546-660 | from reset, if the bus is never idle for more than n cycles in a row while it has something to do, data comes within a number of cycles fixed by n and the configuration |
| LoadStoreUnit.LoadStore.Clock | rtl/ibex_load_store_unit.sv:189-223 | the registers move as the step function says |
| LoadStoreUnit.LoadStore.ClockFsm | rtl/ibex_load_store_unit.sv:338-473 | the case-by-case FSM gives next state, errors and update strobes |
| LoadStoreProofs.StoredBytes | rtl/ibex_load_store_unit.sv:118-183 | the reference store changes the bytes of its range and no other |
| LoadStoreProofs.LanesOfAccess | rtl/ibex_load_store_unit.sv:118-183 | byte enables and rotated data of each half put each byte of the access in its place |
| LoadStoreProofs.FirstWrite | rtl/ibex_load_store_unit.sv:118-183 | the first bus write is the bytes of the store that lie in the addressed word |
| LoadStoreProofs.SecondWrite | rtl/ibex_load_store_unit.sv:129-151 | the second bus write is the remaining bytes |
| LoadStoreProofs.AppliedBytes | rtl/ibex_core.sv:715 | a store of which some halves were denied or failed leaves in memory exactly the bytes of the halves that took effect |
| LoadStoreProofs.InvStep | rtl/ibex_load_store_unit.sv:333-456 | in every FSM state, error states included, registers, bus and memory hold what the access has done so far |
| LoadStoreProofs.MemoryIsSequential | rtl/ibex_load_store_unit.sv:333-456 | from reset, for every timing, PMP verdict and bus error, memory is always as if exactly the halves that took effect had been stored byte by byte in program order: never a denied half, always one answered without an error, the second half also after the first has failed; no byte lane is driven twice, each answered access had one response, and without errors memory is the program's |
| LoadStoreProofs.ErrorFreeIsProgram | rtl/ibex_load_store_unit.sv:333-456 | answered accesses without errors leave memory as the program's plain stores do |
| LoadStoreProofs.LoadAnswer | rtl/ibex_load_store_unit.sv:226-326 | a load answered without an error returns the extended bytes of memory, those of a first word kept too long read as zero |
| LoadStoreProofs.LoadIsExactIff | rtl/ibex_load_store_unit.sv:189-198 | such a load is exact iff it is not split, or answered in the cycle after the first half, or the lost bytes are zero |
| LoadStoreProofs.LoadsOfRunsAreExactIff | rtl/ibex_load_store_unit.sv:390-450 | the same for every load of every run from reset, whatever errors earlier accesses met |
| LoadStoreProofs.ResponseIsAttributed | rtl/ibex_load_store_unit.sv:479-502 | every access gets one response, which reports an error of its kind iff a half was denied or answered with one; addr_last_o is then the address of the first such half, and a load writes its register iff there was none |
| LoadStoreProofs.ResponsesOfRunsAreAttributed | rtl/ibex_load_store_unit.sv:333-502 | the same for every response of every run from reset |
| LoadStoreProofs.SplitLoadMayLoseBytes | rtl/ibex_load_store_unit.sv:193-197 | a run whose split load returns other bytes than memory holds |
| Pipeline.Stages.Clock | rtl/ibex_wb_stage.sv:72-95 | both stages and the register file move as the step function says |
| PipelineProofs.EnWbImpliesReady | rtl/ibex_id_stage.sv:911-916 | an instruction is never done while writeback is not ready, so loading the flops on the enable alone is safe |
| PipelineProofs.OperandsAreSequential | rtl/ibex_id_stage.sv:889-905 | in every executing cycle the forwarded operands are those of the sequential machine |
| PipelineProofs.OneWriteSource | rtl/ibex_wb_stage.sv:152-160 | the two sources of the write port never collide |
| PipelineProofs.RunsOn | rtl/ibex_id_stage.sv:868-871 | a multi-cycle instruction executes without interruption until it leaves |
| PipelineProofs.RequestCompletesInstruction | rtl/ibex_id_stage.sv:829-846 | a completed request takes its instruction out of ID at once, so data_req_complete_q is never set |
| PipelineProofs.LeavesWhenDone | rtl/ibex_id_stage.sv:702-784 | the FSM's second state is kept exactly by an instruction that has not left |
| PipelineProofs.DrainedStep | rtl/ibex_wb_stage.sv:72-117 | writing back leaves the drained register file alone, leaving ID adds the instruction's result |
| PipelineProofs.PipelineIsSequential | rtl/ibex_id_stage.sv:829-917 | from reset, for every program, latency, stall and intermediate EX result, operands are sequential and the register file drains to the sequential one |
| RegisterModel.Model.constructor | dv/cs_registers/model/register_model.cc:9-94 | the loops build the register map entry by entry |
| RegisterModel.Model.RegisterReset | dv/cs_registers/model/register_model.cc:96-100 | every register gets its reset value |
| RegisterModel.Model.PmpAddrLockMask | dv/cs_registers/model/base_register.cc:141-169 | the search through the map finds the lock of a region and of the TOR region above it |
| RegisterModel.Model.Mutate | dv/cs_registers/model/base_register.cc:85-139 | write, set and clear under lock masks, with reserved bits and combinations taken out |
| RegisterModel.Model.NewTransaction | dv/cs_registers/model/register_model.cc:102-119 | one register is updated, and a stop is asked for on a read mismatch or a missing error |
| RegisterModel.MapIsDistinct | dv/cs_registers/model/register_model.cc:9-94 | no two registers of the map share an address |
| PmpCsrs.CsrBlock.Clock | rtl/ibex_cs_registers.sv:804-830 | the PMP and mcountinhibit registers move as the step function says, and the read data is returned |
| PmpCsrProofs.LockIsPermanent | rtl/ibex_cs_registers.sv:783-830 | no access sequence, whatever else it touches, moves a locked region, nor configuration or either address of a locked TOR region, in any configuration (section 3.6.1 of RISC-V Privileged v1.11) |
| PmpCsrProofs.NeverReserved | rtl/ibex_cs_registers.sv:800-802 | no region is ever writable without being readable |
| PmpAgreement.CfgByteAgrees | dv/cs_registers/model/base_register.cc:98-139 | the model's masked update of a configuration byte is the guarded one of the RTL |
| PmpAgreement.LocksAgree | dv/cs_registers/model/base_register.cc:141-169 | the model's lock of an address register is the RTL's, at the last region too |
| PmpAgreement.InhibitStep | rtl/ibex_cs_registers.sv:852-858 | mcountinhibit stays the same on both sides, always-one and always-zero bits included |
| PmpAgreement.ReadsAgree | rtl/ibex_cs_registers.sv:310-364 | states in step return the same data at every address |
| PmpAgreement.InStepStep | rtl/ibex_cs_registers.sv:625-641 | every read, write, set and clear keeps the two in step |
| PmpAgreement.OtherAccess | dv/cs_registers/model/register_model.cc:102-119 | an access to any other address keeps the two in step while the RTL's registers stay as they are |
| PmpAgreement.GranularityDisagrees | rtl/ibex_cs_registers.sv:748-769 | a sequence that tells them apart for every granularity above zero |
| PmpAgreement.RegionsDisagree | dv/cs_registers/model/register_model.cc:11-20 | a sequence that tells them apart for every number of regions not divisible by four |
| PmpAgreement.AgreementIff | dv/cs_registers/model/register_model.cc:11-38 | model and RTL agree on the reads of all sequences of resets and accesses to any addresses iff there is no PMP, or granularity is zero and the regions fill their registers |
| ModelLocks.AddrKept | dv/cs_registers/model/base_register.cc:141-169 | the lock mask found through the map keeps the address of a locked region and the base of a TOR region |
| ModelLocks.ModelLockIsPermanent | dv/cs_registers/model/base_register.cc:85-169 | from reset, after any past, in every configuration and under every access sequence to any addresses: a locked region, and configuration and both addresses of a locked TOR region, keep their values until a reset |
| TrapUnit.TrapState.Clock | rtl/ibex_cs_registers.sv:661-715 | controller and trap registers move as the step function says |
| TrapProofs.DebugSaveOnlyOutsideDebug | rtl/ibex_controller.sv:481-539 | from reset the debug registers are never saved in debug mode |
| TrapProofs.DebugModeKeepsTrapState | rtl/ibex_cs_registers.sv:574-596 | in debug mode the trap and debug registers change only by CSR writes and MRET |
| TrapProofs.NmiModeMoves | rtl/ibex_controller.sv:453-476 | NMI mode is entered by taking an NMI and left by MRET and in no other way |
| TrapProofs.NmiReturnsToContext | rtl/ibex_cs_registers.sv:555-622 | a handler of any length that neither traps nor writes mstatus returns to exactly the interrupted context |
| TrapProofs.TrapInNmiHandlerMayLoseContext | rtl/ibex_cs_registers.sv:590-611 | a run from reset with a trap in the NMI handler whose two returns leave another context |
| TrapProofs.TrapInNmiHandlerReturnsIff | rtl/ibex_cs_registers.sv:590-611 | after a trap inside the handler the two returns restore the context iff it was already of the form they leave |
| TrapProofs.InterruptPriority | rtl/ibex_controller.sv:254-271 | the cause taken is the highest-priority one, the highest line among fast interrupts |
| AluShifterProofs.StagesReverse | rtl/ibex_alu.sv:292-321 | the five swap stages together reverse the word |
| AluShifterProofs.ShiftsAreShifts | rtl/ibex_alu.sv:256-282 | the reversing right shifter does all five single-cycle shifts |
| AluShifterProofs.FunnelLeft | rtl/ibex_alu.sv:544-557 | two cycles deliver the left funnel shift for all 64 amounts |
| AluShifterProofs.FunnelRight | rtl/ibex_alu.sv:544-557 | two cycles deliver the right funnel shift for all 64 amounts |
| AluShifterProofs.RotateLeft | rtl/ibex_alu.sv:205-240 | two cycles rotate left |
| AluShifterProofs.RotateRight | rtl/ibex_alu.sv:205-240 | two cycles rotate right |
| AluReverseProofs.GrevIsXor | rtl/ibex_alu.sv:284-321 | GREV takes each bit from its position exclusive-or the amount |
| AluReverseProofs.GrevTwice | rtl/ibex_alu.sv:284-321 | GREV undoes itself |
| AluReverseProofs.GorcIsOr | rtl/ibex_alu.sv:284-321 | GORC ors together the bits of all positions a submask of the amount away |
| AluShifterProofs.FlipMirrors | rtl/ibex_alu.sv:444-463 | the flip turns each shuffle stage into its mirror image |
| AluShifterProofs.UnshuffleForm | rtl/ibex_alu.sv:467-511 | the flips turn each stage into its mirror image, so the unshuffle is the stages in reverse order |
| AluShifterProofs.ShuffleInverse | rtl/ibex_alu.sv:464-513 | UNSHFL and SHFL undo each other for every control value |
| AluBitCount.BitCount | rtl/ibex_alu.sv:599-609 | the enable chain counts leading zeros, trailing zeros and ones |

## Left out

- MultDivSlowProofs.MeetsSpecification: assumes no enable gap inside an operation, because the unit writes its intermediate register without an enable; `PipelineProofs.RunsOn` shows the ID stage makes no gap.
- PipelineProofs.PipelineIsSequential: error-free, trap-free runs with WritebackStage set, one write per instruction; the third operand of ternary instructions is not part of the register machine.
- LoadStoreProofs.MemoryIsSequential: a bus transaction takes effect as a whole, at its grant, or not at all; the PMP's verdict on a half holds while its access is in ID, as no CSR can be written meanwhile.
- ICacheData.CacheHoldsMemory: the cache is not asked in the first cycle after reset, as `FirstCycleIsSafeIff` shows it must not be; memory is constant, so data older than a FENCE.I sweep is not distinguished.
- PmpAgreement.AgreementIff: machine mode; accesses to any address, but only reads of the PMP, mcountinhibit and mhpmevent registers are compared, the counters running with the clock.
- ICacheDelivery.CacheDeliversMemory: says nothing of instructions after one handed over with an error and before the next branch; `doc/icache.rst:247` has the core branch there.
- ICacheProgress.DataComesInTime: no new sweep is asked for during the wait, since sweeps asked for again and again hold up the writing of lines.
- ICacheFaults.CacheReportsFaults: errors that are a fixed function of the address; with errors that change, `ICacheHandshake.OutputIsStable` and `FlagAgainstOutput` say when the flag moves.
- ICacheDelivery.ErrorFreeRun: the error-free case only; `ICacheFaults.CacheReportsFaults` has the others.
- Instruction cache ECC (ICacheECC = 0) and bus widths above 32 bits.
- Program counter multiplexers, sleep and clock gating, trigger registers of the controller and CSR block.
- Performance counters, RVFI, tracer, top-level wiring.
- Compressed decoder and the gating tables of the `secure.sv` macros.
- PMP address matcher.
- Adder, comparator, single-bit, pack and min/max operations of the ALU: each is one expression.
- Asynchronous reset, unknown values, duplicated flops for timing.
- Simulation harness, DPI drivers, UVM and Python tooling, synthesis scripts.
