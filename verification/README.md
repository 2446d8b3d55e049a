# Wire-bonding gateway: a verified model

The gateway captures sampled-value frames of a wire bonder's voltage and current, decodes them, turns
the samples into phasors, tracks the impedance and the bond strength, and raises alarms. This project
models its algorithmic core in Dafny and proves what the core promises. Verify everything with
`dafny verify dfyconfig.toml`.

| modules | what they model |
|---|---|
| `Basics` | optional values, machine words and the sample interval the others share |
| `Slots`, `TaggedRing`, `TaggedRingProof`, `TaggedRingTheorems`, `TaggedRingSolo`, `TaggedRingProgress`, `TaggedRingBuffer` | the concurrent bounded queue: a transition system over any number of threads, its invariant, its refinement of a FIFO, which calls return, and the ring as an object updated in place |
| `Hazard`, `HazardPool`, `HazardDomain` | hazard-pointer reclamation with a scan that reads its slots one by one, the block pool on top of it, and the domain and its guards as objects |
| `PhasorMath`, `Goertzel`, `SlidingDft`, `DualPhasor` | the two single-bin transforms over the reals, and the pair of them the gateway runs |
| `Ber`, `SvDecoder`, `SvFrame` | the definite-form BER reader and writer (sections 8.1.3 and 8.3 of ITU-T X.690), the sampled-value decoder, and the frame builder |
| `RingWindow`, `EnergyTracker`, `SofteningTracker`, `MeyerPredictor` | circular buffers against histories, the two windowed trackers, the predictor they feed |
| `Models`, `Impedance`, `Matrix`, `Pipeline`, `Channel` | smoothing and baseline as functions of the quotients seen, the impedance matrix, the pipeline behind the phasors, and one channel end to end |
| `CrcFuse`, `CanId` | the 16-bit check of the fuse bus over GF(2), and its identifiers |
| `Gateway` | the three loops, their two rings and their counters under every schedule |

How the model is set up:

* **Concurrency.** A step is one atomic load, compare-and-swap, plain access or store. Threads keep the
  position they loaded, however old. Atomics are sequentially consistent, tickets are unbounded.
  Histories (who claimed which ticket with what, who is in flight) are variables no step tests.
* **Histories.** Every circular buffer is tied to the sequence of everything written to it by
  `RingWindow.Holds`, and what a reader gets is stated about that sequence.
* **Arithmetic.** Floating point is `real`. Cosine and sine come in as the rotations by k/n of a turn,
  of which only what makes them roots of unity is used (`PhasorMath.IsTurn`); `sqrt` is the nonnegative
  root; `atan2` is only passed along. 32- and 64-bit wrap-around is written out where the source relies
  on it.
* **Errors** are `Result` or `Option` values, one for each error return.

What the proofs turned up, with the member that states it:

* Both loops of the queue retry a failed CAS with their old position, so a call spins exactly while the
  winner of its ticket is between its CAS and its store (`EnqSpinsIff`, `DeqSpinsIff`). It does not return
  in any schedule in which the winner takes no step (`StuckRun`), and left alone a call returns if and only
  if it is not in that position (`ReturnsIff`): the queue is not lock-free. `ContentionSpins` leads two
  producers there from a new ring.
* `Goertzel.Result` takes the sine from a square root and loses its sign (`ResultIsBinIff`): a target of
  75 kHz at 100 kHz and N = 4 reports -1/2 for +1/2 (`SecondHalfFlips`).
* The builder writes lengths in at most two octets, so frames survive up to 8186 samples and no further
  (`RoundTripIff`). The decoder refuses a second 802.1Q tag (`DoubleTagRefused`), so a tag changes nothing
  exactly for untagged frames and those of a foreign type anyway (`VlanHarmlessIff`).
* The smoothing takes a value of exactly zero for none at all: under a steady quotient the distance shrinks by
  15/16 each time if and only if the way there does not lead through zero (`SteadyIff`), which it does not
  for a quotient that does not point away from where it began (`SteadyClosed`).
* `SpatiotemporalMatrix.Reset` leaves the baseline accumulators as they are: the next lock is the mean if
  and only if no row had been recorded before the reset (`BaselineLocked`), and at a steady impedance of
  one it comes out as 1 + k/256 after k earlier samples (`ResetKeepsSums`). The alarm rule skips a row
  that lands on the cell of the last alarm, which silences a one-row matrix for good
  (`OneRowNeverAlarms`).
* The energy eviction subtracts the old power over the current time step. One push keeps the sum right if
  and only if nothing is evicted, or what is evicted carried no power, or its step was that of the push,
  or the step grew and nothing in the new window carries power (`EvictionExactIff`, and for whole runs
  `ExactRunIff`); a single late sample at a steady watt breaks it for every capacity
  (`SkippedSampleDrifts`). The predictor inherits the condition on its accepted pairs (`EnergyRightIff`),
  and a late sample breaks it there too (`LateSampleDrifts`). The time of a rejected sample is charged to
  nobody: the steps of the accepted pairs add up to the time covered if and only if none was rejected
  (`StepsTelescope`).
* A Hann window of two samples has weights that sum to zero, and the source divides by that sum; a longer
  one sums to (N - 1)/2 (`HannSum`).
* `DualPhasorPipeline.Reset` keeps the tracked frequency (`DualPhasor.Reset`).

## Model

| member | source | states |
|---|---|---|
| `TaggedRingProof.StepInv` | internal/ringbuf/tagged.go:44-89 | Every single step of any thread of any number of threads, with stale positions and separate value accesses, keeps the queue invariant |
| `TaggedRingTheorems.Reachable` | internal/ringbuf/tagged.go:29-89 | From a new ring, every interleaving of enqueues and dequeues stays inside the invariant |
| `TaggedRingTheorems.StepRefines` | internal/ringbuf/tagged.go:44-89 | Forward simulation of a bounded FIFO: a step is silent, an append below capacity at the enqueue CAS, or the removal of the head at the dequeue CAS |
| `TaggedRingTheorems.Simulation` | internal/ringbuf/tagged.go:44-89 | Whole runs refine runs of the abstract bounded FIFO, event for event |
| `TaggedRingTheorems.DeliveredThenQueued` | internal/ringbuf/tagged.go:61-62 | In a state with no dequeuer between its CAS and its release: what was delivered in ticket order, followed by the queue, is everything accepted, in claim order |
| `TaggedRingTheorems.ValueAccounted` | internal/ringbuf/tagged.go:61-87 | In every reachable state each accepted value is in exactly one place: queued at its turn, delivered as it was claimed, or in exactly one reader's hands |
| `TaggedRingTheorems.DeliversOnce` | internal/ringbuf/tagged.go:84-88 | A dequeue returns the value its ticket was claimed with, and no ticket delivers twice |
| `TaggedRingTheorems.ProducerOrder` | internal/ringbuf/tagged.go:44-64 | After every run, the tickets of one producer carry its successful values in call order |
| `TaggedRingTheorems.NoRace` | internal/ringbuf/tagged.go:61-86 | No two threads are ever at a plain access (write, read or zeroing) of the same cell |
| `TaggedRingProof.OwnersApart` | internal/ringbuf/tagged.go:61-87 | Two threads past their CAS never own tickets that map to the same cell |
| `TaggedRingTheorems.InFlight` | internal/ringbuf/tagged.go:52-62 | A claimed ticket is unpublished (or unreleased) exactly while some thread stands between its CAS and its store |
| `TaggedRingTheorems.CellSequence` | internal/ringbuf/tagged.go:48-62 | A cell's sequence is determined by the one window ticket that maps to it and by who is in flight |
| `TaggedRingTheorems.EnqFailsIff` | internal/ringbuf/tagged.go:48-57 | An enqueue fails at its sequence load if and only if its (possibly old) pos is current and the ring is full or the dequeuer of ticket pos - cap is in flight |
| `TaggedRingTheorems.DeqFailsIff` | internal/ringbuf/tagged.go:70-79 | A dequeue fails if and only if its pos is current and the ring is empty or the enqueuer of ticket pos is in flight |
| `TaggedRingTheorems.QuietFailures` | internal/ringbuf/tagged.go:48-79 | With every other thread at rest, false means exactly full and exactly empty |
| `TaggedRingTheorems.EnqSpinsIff` | internal/ringbuf/tagged.go:47-60 | The retry after a failed CAS keeps the old pos: alone, an enqueuer returns to the very same state if and only if its ticket was won by a thread that has not published, so the queue is not lock-free |
| `TaggedRingTheorems.EnqSpins` | internal/ringbuf/tagged.go:51-54 | The family of states in which the retry loop makes no progress |
| `TaggedRingTheorems.DeqSpinsIff` | internal/ringbuf/tagged.go:69-83 | The dequeue loop likewise returns to the same state if and only if the dequeuer that won its ticket has not released the cell |
| `TaggedRingTheorems.NeverReturns` | internal/ringbuf/tagged.go:47-83 | In those states a call scheduled any number of times in a row never returns; `StuckRun` has it for the schedules of all threads |
| `TaggedRingTheorems.ContentionSpins` | internal/ringbuf/tagged.go:44-60 | From a new ring of two cells one round of contention between two producers leads into such a state, with a cell still free |
| `TaggedRingProgress.StuckRun` | internal/ringbuf/tagged.go:44-89 | A call behind an unfinished winner does not return in any schedule of all threads in which that winner takes no step, and stays behind the same winner |
| `TaggedRingProgress.ReturnsIff` | internal/ringbuf/tagged.go:44-89 | Left alone at any point of the program, a call returns if and only if no unfinished winner holds its ticket, and then within eight steps |
| `TaggedRingSolo.CurrentSequences` | internal/ringbuf/tagged.go:48-79 | What a thread with current positions finds in the cells, from whether there is room and whether there is something |
| `TaggedRingSolo.SoloEnqStep` | internal/ringbuf/tagged.go:44-64 | An uninterrupted enqueue makes progress at every step and its answer is decided by the state it started in |
| `TaggedRingSolo.SoloDeqStep` | internal/ringbuf/tagged.go:66-89 | The same for an uninterrupted dequeue |
| `TaggedRingBuffer.TaggedRingBuffer.constructor` | internal/ringbuf/tagged.go:29-42 | The capacity becomes the least power of two that is at least 2 and not below the request; the new ring is an initial state of the protocol |
| `TaggedRingBuffer.TaggedRingBuffer.CellIndex` | internal/ringbuf/tagged.go:48 | pos & mask is the cell of the ticket, pos modulo the capacity |
| `TaggedRingBuffer.TaggedRingBuffer.Step` | internal/ringbuf/tagged.go:44-89 | The in-place step of a thread on cells and counters is the step of the transition system, and keeps the invariant |
| `TaggedRingBuffer.TaggedRingBuffer.ClaimEnqueue` | internal/ringbuf/tagged.go:46-60 | Position load, sequence load and CAS of an enqueue, in place |
| `TaggedRingBuffer.TaggedRingBuffer.PublishEnqueue` | internal/ringbuf/tagged.go:61-62 | Value write and sequence store of an enqueue, in place |
| `TaggedRingBuffer.TaggedRingBuffer.ClaimDequeue` | internal/ringbuf/tagged.go:68-83 | Position load, sequence load and CAS of a dequeue, in place |
| `TaggedRingBuffer.TaggedRingBuffer.ReleaseDequeue` | internal/ringbuf/tagged.go:84-87 | Value read, zeroing and sequence store of a dequeue, in place |
| `TaggedRingBuffer.TaggedRingBuffer.Enqueue` | internal/ringbuf/tagged.go:44-64 | Run alone it terminates and appends, and returns true, exactly when the ring has room and the cell is released |
| `TaggedRingBuffer.TaggedRingBuffer.Dequeue` | internal/ringbuf/tagged.go:66-89 | Run alone it terminates and returns the head exactly when there is one and it is published; otherwise the zero value and an unchanged queue |
| `TaggedRingBuffer.TaggedRingBuffer.EnqueueBatch` | internal/ringbuf/tagged.go:235-242 | Appends a prefix of the values: all of them unless room ran out, and with no dequeuer suspended inside, exactly as many as fit |
| `TaggedRingBuffer.TaggedRingBuffer.DequeueBatch` | internal/ringbuf/tagged.go:244-253 | Moves the head of the queue in order into the front of the destination: as much as there is or as fits |
| `Slots.MaskIsSlot` | internal/ringbuf/tagged.go:48 | For a power-of-two capacity, masking with capacity - 1 is the remainder |
| `Slots.RoundUpPow2` | internal/ringbuf/tagged.go:113-123 | For 1 <= v <= 2^63 the least power of two not below v; zero and larger words wrap to zero |
| `Slots.SlotNext` | internal/ringbuf/tagged.go:48 | Tickets less than one lap apart never share a cell |
| `Hazard.StepInv` | internal/ringbuf/hazard.go:48-115 | Every step of every interleaving, with the scan reading slots one load at a time, keeps the hazard invariant |
| `Hazard.NeverReclaimsHeld` | internal/ringbuf/hazard.go:57-115 | After any run, a scan never reclaims a pointer some guard published before its retirement began and has not cleared, re-protected or released since |
| `Hazard.ReclaimSafe` | internal/ringbuf/hazard.go:94-111 | The same at every reachable state |
| `Hazard.ProtectHolds` | internal/ringbuf/hazard.go:57-70 | Publishing makes the hold that the safety theorem speaks of, and only the guard's own operations end it |
| `Hazard.ReclaimedOnce` | internal/ringbuf/hazard.go:76-115 | Each retirement is reclaimed at most once, and retirements = reclaimed + pending |
| `Hazard.SurvivorsBounded` | internal/ringbuf/hazard.go:103-114 | With distinct pointers at most 128 nodes survive a scan, all of them hazardous |
| `HazardDomain.HazardDomain.constructor` | internal/ringbuf/hazard.go:44-46 | A new domain: no slot taken, nothing published or retired |
| `HazardDomain.HazardDomain.Acquire` | internal/ringbuf/hazard.go:48-55 | Takes the lowest free slot; none exactly when all 128 are taken, where the original panics |
| `HazardDomain.HazardDomain.Scan` | internal/ringbuf/hazard.go:89-115 | Keeps exactly the hazardous nodes and reclaims exactly the others, both in order |
| `HazardDomain.HazardDomain.Retire` | internal/ringbuf/hazard.go:76-87 | Appends under the next number; the 64th pending node triggers a scan |
| `HazardDomain.HazardGuard.Protect` | internal/ringbuf/hazard.go:57-60 | Publishes the pointer and remembers what the slot held |
| `HazardDomain.HazardGuard.Clear` | internal/ringbuf/hazard.go:62-65 | Puts back what the slot held before |
| `HazardDomain.HazardGuard.Release` | internal/ringbuf/hazard.go:67-70 | Withdraws the pointer and frees the slot |
| `HazardDomain.ProtectThenClear` | internal/ringbuf/hazard.go:57-65 | Protect then Clear leaves every slot as it was |
| `HazardDomain.SelectPartition` | internal/ringbuf/hazard.go:103-112 | A sweep splits the list: every node is kept or reclaimed, as often as it was listed |
| `HazardDomain.SelectIff` | internal/ringbuf/hazard.go:103-112 | What a sweep keeps is what is hazardous, and what it reclaims is not |
| `HazardDomain.ScanAlone` | internal/ringbuf/hazard.go:89-115 | Run without interruption, the protocol's slot-by-slot scan does to a domain exactly what the method does to the object |
| `HazardPool.PoolStepInv` | internal/ringbuf/hazard.go:187-206 | Every step of clients, guards and scans keeps the pool invariant |
| `HazardPool.OnePlace` | internal/ringbuf/hazard.go:187-206 | For clients that free each live block once with its own size, every block is in exactly one of live, retiring, pooled, and in the pool once, under one size |
| `HazardPool.AllocSafe` | internal/ringbuf/hazard.go:187-198 | Alloc never hands out a block that is live, pending retirement, or held by a guard since before its Free |
| `Goertzel.TurnedIsBin` | internal/dsp/dual_phasor.go:128-133 | For any number of samples the two registers, turned once, are the transform bin turned by w^n |
| `PhasorMath.RoundNearest` | internal/dsp/dual_phasor.go:112 | Rounding is to the nearest integer, halves away from zero |
| `Goertzel.MagnitudeIsBin` | internal/dsp/dual_phasor.go:150-152 | MagnitudeSquared is the squared magnitude of sum x_n e^{-iwn}, for any number of samples |
| `Goertzel.ResultIsTurnedBin` | internal/dsp/dual_phasor.go:154-171 | Result from N samples on is (2/N) times the bin turned by w^count, conjugated when the sine is negative, and its angle is that number's |
| `Goertzel.ResultIsBin` | internal/dsp/dual_phasor.go:154-171 | After a whole number of turns Result is (2/N) times the bin in both parts |
| `Goertzel.ResultIsBinIff` | internal/dsp/dual_phasor.go:158-159 | Exactly when: unless the imaginary part vanishes, sin w must not be negative, because the square root loses its sign |
| `Goertzel.SecondHalfFlips` | internal/dsp/dual_phasor.go:105-159 | A target in the second half of the bins, 75 kHz at 100 kHz with N = 4, whose imaginary part is reported as -1/2 instead of +1/2 |
| `Goertzel.ResultMagnitude` | internal/dsp/dual_phasor.go:158-169 | The reported parts square to (2/N)^2 times MagnitudeSquared for either sign, and the magnitude is their root |
| `Goertzel.NearestBin` | internal/dsp/dual_phasor.go:112 | The bin is the one whose frequency k rate / N lies nearest to the target, at most half a bin away |
| `Goertzel.Goertzel.constructor` | internal/dsp/dual_phasor.go:105-120 | The two defaults, the target rounded to the nearest bin, and the coefficient 2 cos w of that bin |
| `Goertzel.Goertzel.Reset` | internal/dsp/dual_phasor.go:122-126 | Forgets every sample |
| `Goertzel.Goertzel.AddSample` | internal/dsp/dual_phasor.go:128-133 | The registers are those of the history with the sample appended |
| `Goertzel.Goertzel.AddBatch` | internal/dsp/dual_phasor.go:135-139 | The same for a batch |
| `Goertzel.Goertzel.MagnitudeSquaredIsBin` | internal/dsp/dual_phasor.go:150-152 | The value read off the object is the squared magnitude of the bin of everything fed to it |
| `Goertzel.Goertzel.Read` | internal/dsp/dual_phasor.go:154-171 | Complete from N samples on, and then both parts, the angle and the magnitude are those of the scaled bin of the history, conjugated when the sine is negative |
| `SlidingDft.ClampInterior` | internal/dsp/slidingdft.go:67-73 | The two clamps leave interior bins alone and move the others to the nearest of them from four samples up, and to N/2 - 1 below |
| `SlidingDft.WindowedBinIs` | internal/dsp/slidingdft.go:88-102 | For weights that do not sum to zero, what the weighted tables and the gain compute is 2 / sum of the weights times the bin of the samples, each times its weight |
| `SlidingDft.RectangularIsBin` | internal/dsp/slidingdft.go:162-173 | With the rectangular window the output is (2/N) times the bin of the newest N samples |
| `SlidingDft.TwoAlgorithmsAgree` | internal/dsp/slidingdft.go:142-184 | At any time after warm-up the rectangular sliding transform equals a reset Goertzel fed the newest N samples, for 1 <= k <= N/2 - 1 |
| `SlidingDft.ObjectsAgree` | internal/dsp/slidingdft.go:142-184 | A rectangular sliding transform and a reset detector of the same size and rate, fed its newest N samples, report the same two parts for a target in the interior bins |
| `SlidingDft.BuildWindow` | internal/dsp/slidingdft.go:105-129 | Every weight of the four shapes, written out in the cosine of its turn |
| `SlidingDft.HannIsChord` | internal/dsp/slidingdft.go:115-118 | A Hann weight is a quarter of the squared chord from one to its turn |
| `SlidingDft.WindowEnds` | internal/dsp/slidingdft.go:115-128 | At both ends of the window the weights are 0 (Hann), 0.08 (Hamming) and 0 (Blackman) |
| `SlidingDft.HannSum` | internal/dsp/slidingdft.go:115-118 | The weights of a Hann window sum to zero for two samples and to (N - 1)/2 for more, because a full set of roots of unity sums to zero |
| `SlidingDft.FillTables` | internal/dsp/slidingdft.go:88-102 | The plain tables hold the powers of one rotation, the weighted ones those powers times the window, and the sum is the window sum |
| `SlidingDft.Correlate` | internal/dsp/slidingdft.go:162-170 | The ring read from the head round gives the dot products of the newest N samples with the tables |
| `SlidingDft.SlidingDft.constructor` | internal/dsp/slidingdft.go:57-103 | The three defaults, the target rounded to a bin and clamped, the tables and an empty ring |
| `SlidingDft.SlidingDft.Reset` | internal/dsp/slidingdft.go:131-140 | Restarts the history |
| `SlidingDft.SlidingDft.Update` | internal/dsp/slidingdft.go:142-184 | Ready from the N-th sample on; then, unless the weights sum to zero, both parts are 2 / sum of the weights times the bin of the newest N samples, each times its weight, and magnitude, angle and frequency follow; the place in the window is the count modulo N |
| `SlidingDft.SlidingDft.HannShows` | internal/dsp/slidingdft.go:115-118 | With a Hann window of three samples or more both parts are 4/(N - 1) times the bin of the newest N samples, each times its weight, without exception |
| `DualPhasor.TrackClosed` | internal/dsp/dual_phasor.go:60-62 | After n ready results the frequency estimate is (1 - alpha)^n of the way off the bin frequency |
| `DualPhasor.DualPhasor.constructor` | internal/dsp/dual_phasor.go:23-33 | Both transforms get the same window, bin and Hann weights; the estimate starts at the target |
| `DualPhasor.DualPhasor.Reset` | internal/dsp/dual_phasor.go:35-43 | Restarts both windows; the frequency estimate carries on |
| `DualPhasor.DualPhasor.ProcessSample` | internal/dsp/dual_phasor.go:45-79 | Ready exactly from the N-th sample on; each phasor is then the bin of its newest N samples, each times its weight, at twice the mean weighted sample, and both carry the estimate after its next round |
| `Ber.ReadBerLength` | internal/iec61850/ber.go:13-34 | The loop computes the short or long form length, most significant octet first, and refuses 0x80, everything above 0x84, and truncated forms |
| `Ber.ReadTlv` | internal/iec61850/ber.go:36-50 | A successful read advances at least two octets and stays inside the buffer |
| `Ber.DecodeInteger32` | internal/iec61850/ber.go:63-75 | Sign-extending and shifting gives the two's complement value of one to four octets as a 32-bit word |
| `Ber.DecodeIntegerSigned32` | internal/iec61850/ber.go:77-89 | The signed value itself, without wrap-around |
| `Ber.TwosComplement` | internal/iec61850/ber.go:63-89 | The signed value of n octets is the number they spell or that less 256^n, whichever lies within n octets of two's complement |
| `Ber.ReadWrittenLength` | internal/packetcap/capture_nocgo.go:160-168 | Reading a written length gives it back, modulo 65536 once the third form is reached |
| `Ber.ReadWrittenTlv` | internal/iec61850/ber.go:36-50 | Reading a written TLV gives it back wherever it stands, through short and long lengths |
| `Ber.ListRoundTrip` | internal/iec61850/ber.go:36-50 | A printed list of TLVs reads back as that list |
| `Ber.ReadShift` | internal/iec61850/ber.go:36-50 | Reading is translation invariant |
| `Ber.ReadPrefix` | internal/iec61850/ber.go:36-50 | A TLV reads the same whatever stands after it |
| `Ber.ListInsert` | internal/iec61850/ber.go:36-50 | Inserting a TLV at a boundary inserts it in the list and changes nothing else |
| `Ber.ReadOversizedTlv` | internal/packetcap/capture_nocgo.go:160-168 | A TLV of 65536 octets or more is read back cut to its length modulo 65536 |
| `SvDecoder.ParseSvAsdu` | internal/iec61850/decoder.go:42-111 | The result is a fold over the TLV list: the special first-element step is redundant, and parsing stops at the first TLV that does not read |
| `SvDecoder.TagsMean` | internal/iec61850/decoder.go:65-107 | What each tag sets: count, revision, rate, the first of them that is still zero, data, identifier, reference time in seconds and thousands of nanoseconds, synchronisation |
| `SvDecoder.UnknownTlvIgnored` | internal/iec61850/decoder.go:106-107 | Inserting a well-formed TLV with an unrecognised tag at any boundary leaves the ASDU unchanged |
| `SvDecoder.AsduWithin` | internal/iec61850/decoder.go:42-111 | Identifier and sequence data are no longer than the buffer, and the sample count is what the data hold |
| `SvDecoder.ParseApdu` | internal/iec61850/decoder.go:113-184 | Claimed count, optional sequence, framed or guessed pieces and the fallback, as a function of the bytes, and the offset behind the outer TLV |
| `SvDecoder.PayloadSays` | internal/iec61850/decoder.go:119-181 | No ASDU means that the fallback holds no sample either; without a count in front one ASDU is claimed; several are never more than claimed |
| `SvDecoder.CutAsdus` | internal/iec61850/decoder.go:147-173 | The loop collects exactly the parsable ASDUs of the pieces, in order |
| `SvDecoder.GuessSays` | internal/iec61850/decoder.go:156-162 | An unframed ASDU takes an even share of what remains, rounded down, or all of it when that would be less than sixteen octets |
| `SvDecoder.PiecesTile` | internal/iec61850/decoder.go:147-173 | For any claimed count the pieces are disjoint, in order, nonempty, inside the buffer and leave no gap |
| `SvDecoder.PiecesExhaust` | internal/iec61850/decoder.go:147-173 | The loop stops only because the count is reached, the bytes are used up, or a framed ASDU does not read |
| `SvDecoder.ParseEthernetHeader` | internal/iec61850/decoder.go:10-29 | Accepts the types 0x88BA and 0x88B8 behind at most one tag 0x8100, and writes addresses and type into the frame |
| `SvDecoder.ExtractSamples` | internal/iec61850/decoder.go:193-219 | One sample for each whole eight octets: four of current and four of voltage, each a signed word times its scale, numbered modulo 2^32 and stamped 10000 ns apart modulo 2^64 |
| `SvDecoder.DecodeFull` | internal/iec61850/decoder.go:221-268 | The composition of the parsers, with the first error of any of them; the data elements repeat the samples 10000 ns apart from the reference time, or from the clock when there is none |
| `SvDecoder.DecodedCarries` | internal/iec61850/decoder.go:241-268 | Where each field of the result comes from: the low octet of the application identifier and the first ASDU; the data elements repeat the samples 10000 ns apart |
| `SvDecoder.DecodeShift` | internal/iec61850/decoder.go:31-40 | Everything after the Ethernet header depends only on what follows the offset: equal suffixes decode equally, whatever precedes them |
| `SvDecoder.VlanTransparent` | internal/iec61850/decoder.go:16-24 | Inserting an 802.1Q tag after the addresses of an untagged frame changes neither samples nor fields nor errors |
| `SvDecoder.DoubleTagRefused` | internal/iec61850/decoder.go:18-27 | A second tag is always refused |
| `SvDecoder.VlanHarmlessIff` | internal/iec61850/decoder.go:16-27 | Inserting a tag leaves the result as it was if and only if the frame was untagged or refused for its type anyway |
| `SvFrame.BuildFrame` | internal/packetcap/capture_nocgo.go:98-158 | The builder appends exactly the nested TLVs behind the two headers, and fills in length, type and both addresses |
| `SvFrame.FrameStarts` | internal/packetcap/capture_nocgo.go:98-158 | The fixed octets of a frame: addresses, type, application identifier, the length of what follows, and the APDU tag |
| `SvFrame.AsduLayout` | internal/packetcap/capture_nocgo.go:99-122 | The ASDU block is the printed list of its five TLVs |
| `SvFrame.FoldBuilt` | internal/packetcap/capture_nocgo.go:99-122 | What the decoder finds in a built ASDU: the identifier, count, revision one, synchronisation one and the sequence data |
| `SvFrame.WordRoundTrip` | internal/packetcap/capture_nocgo.go:105 | Four octets of a 32-bit word read back as the word, unsigned and signed |
| `SvFrame.RoundTrip` | internal/packetcap/capture_nocgo.go:98-158 | Every list of at most 8186 raw pairs comes back exactly: scaled, SeqNo = smpcnt + i mod 2^32, stamps rxNs + 10000 i mod 2^64 |
| `SvFrame.RoundTripIff` | internal/packetcap/capture_nocgo.go:125-128 | The round trip holds if and only if there are at most 8186 pairs, because lengths are written in at most two octets |
| `SvFrame.TooManyComeBackShort` | internal/packetcap/capture_nocgo.go:160-168 | Past 8186 pairs the decoder never returns as many samples as were put in |
| `RingWindow.Push` | internal/impedance/matrix.go:188-191 | Writing at the head of a ring and advancing it with the wrapped flag appends to the history it holds |
| `RingWindow.View` | internal/impedance/matrix.go:276-288 | A reader's i-th cell holds the i-th of the newest n entries, across the wrap |
| `RingWindow.Latest` | internal/impedance/matrix.go:219-233 | The newest entry sits just behind the head |
| `RingWindow.Rotation` | internal/pullstrength/meyer.go:181-186 | Before the wrap the cells in use are the history, after it the window, rotated |
| `EnergyTracker.WindowSlides` | internal/pullstrength/meyer.go:222-234 | Sliding the window adds the newest energy and subtracts that of the oldest |
| `EnergyTracker.EvictionExactIff` | internal/pullstrength/meyer.go:222-234 | From an accumulator equal to the windowed sum, with each row's energy over its own step, the next one is equal to it if and only if the push is harmless: a condition on the evicted power, the two steps and the powers in the new window |
| `EnergyTracker.ExactRunIff` | internal/pullstrength/meyer.go:222-240 | The accumulator equals the windowed sum after every push of a run if and only if every push of it was harmless |
| `EnergyTracker.SkippedSampleDrifts` | internal/pullstrength/meyer.go:225-234 | For every capacity: a full window of one watt each and one sample that comes late leave a wrong sum |
| `EnergyTracker.SteadyRun` | internal/pullstrength/meyer.go:222-240 | With one positive time step throughout the accumulator is the sum over the window after any run |
| `EnergyTracker.SteadyUnclamped` | internal/pullstrength/meyer.go:235-237 | And then the clamp at zero never acts |
| `EnergyTracker.WattsAddUp` | internal/pullstrength/meyer.go:222-240 | One watt over 10000 ns is 0.00001 J: after n such pushes there are n of them, and never more than the tracker holds |
| `EnergyTracker.EnergyTracker.constructor` | internal/pullstrength/meyer.go:215-220 | An empty window with no energy |
| `EnergyTracker.EnergyTracker.Push` | internal/pullstrength/meyer.go:222-240 | The accumulator is that of the whole run of pushes; and if it was the windowed sum, it is again if and only if the push is harmless |
| `SofteningTracker.ScanRotated` | internal/pullstrength/meyer.go:185-203 | The scan gives the same tally wherever in the window it starts |
| `SofteningTracker.ScanTallies` | internal/pullstrength/meyer.go:185-203 | The scan counts, sums and bounds exactly the rows that qualify |
| `SofteningTracker.MeanBetween` | internal/pullstrength/meyer.go:207-208 | min <= mean <= max |
| `SofteningTracker.MeansSay` | internal/pullstrength/meyer.go:207-208 | Reported means times the number of qualifying rows are the sums |
| `SofteningTracker.SofteningSays` | internal/pullstrength/meyer.go:209-211 | The reported degree times the greatest hardness is what the least one lacks of it, for a greatest hardness above 1e-9, and the degree is zero otherwise |
| `SofteningTracker.SofteningIsFraction` | internal/pullstrength/meyer.go:209-211 | For positive hardness the softening degree is in [0, 1), and zero exactly when the hardness did not vary or was too small |
| `SofteningTracker.DescribesIff` | internal/pullstrength/meyer.go:204-213 | What is reported about the qualifying rows is their statistics and nothing else, so a prediction is a function of what was fed |
| `SofteningTracker.QualifiesIff` | internal/pullstrength/meyer.go:187-192 | For positive stamps not past now, a row qualifies exactly when it lies within the window |
| `SofteningTracker.FutureQualifiesIff` | internal/pullstrength/meyer.go:190 | When a stamp from the future still qualifies, because the 64-bit difference wraps |
| `SofteningTracker.UnstampedNever` | internal/pullstrength/meyer.go:187-192 | A row without a stamp never qualifies, and at time zero every stamped one does |
| `SofteningTracker.KeptIsSuffix` | internal/pullstrength/meyer.go:185-203 | For non-decreasing stamps what qualifies is a suffix: the newest rows, none skipped |
| `SofteningTracker.OutsideIsPrefix` | internal/pullstrength/meyer.go:190-192 | Which rows those are |
| `SofteningTracker.SofteningTracker.Push` | internal/pullstrength/meyer.go:168-174 | Appends to the history |
| `SofteningTracker.SofteningTracker.ScanIsWindow` | internal/pullstrength/meyer.go:181-186 | Scanning the cells in ring order tallies the newest capacity pushes |
| `SofteningTracker.SofteningTracker.Sweep` | internal/pullstrength/meyer.go:176-203 | The loop tallies the newest capacity pushes that qualify |
| `SofteningTracker.SofteningTracker.Stats` | internal/pullstrength/meyer.go:176-213 | Succeeds exactly when at least four of the newest capacity pushes lie in the window, with their mean, phase mean and softening |
| `MeyerPredictor.PowerIsApparent` | internal/pullstrength/meyer.go:223 | By the two-square identity the power is the product of the magnitudes of V and I |
| `MeyerPredictor.EnergyAgrees` | internal/pullstrength/meyer.go:222-234 | The tracker's window energy is the sum of abs(V) abs(I) dt over the pairs |
| `MeyerPredictor.EnergyRightIff` | internal/pullstrength/meyer.go:222-264 | For any run of forward steps: the accumulator is the sum of abs(V) abs(I) dt over the newest pairs after every pair if and only if every pair was harmless when it came |
| `MeyerPredictor.StepIs` | internal/pullstrength/meyer.go:252-264 | The step of an accepted pair is the time since the sample before it, and 10000 ns when there was none or its stamp was not smaller |
| `MeyerPredictor.StepsTelescope` | internal/pullstrength/meyer.go:252-264 | For any run with increasing stamps the steps of the accepted pairs add up to last stamp - first stamp + 10000 if and only if no sample was rejected, and to less otherwise |
| `MeyerPredictor.LateSampleDrifts` | internal/pullstrength/meyer.go:225-264 | For every setup: after a full window of one volt and one ampere each and one late sample the accumulator is not the energy of the newest pairs |
| `MeyerPredictor.HardnessIff` | internal/pullstrength/meyer.go:176-203 | The rows a prediction looks at: the newest pushes, as many as the tracker holds, no further back than the softening window |
| `MeyerPredictor.ForecastSays` | internal/pullstrength/meyer.go:275-312 | A prediction's features in terms of those rows: means as sums over their number, softening through their least and greatest hardness, the energy in the accumulator, and the redline comparison |
| `MeyerPredictor.EnergyRatioSays` | internal/pullstrength/meyer.go:291-293 | The energy ratio times 1 + hardness / 1000 is the energy, unless that is at most 1e-12 |
| `MeyerPredictor.DefaultsFill` | internal/pullstrength/meyer.go:116-143 | The nine defaults, for what is not positive and nothing else |
| `MeyerPredictor.MeyerPredictor.constructor` | internal/pullstrength/meyer.go:116-159 | Defaults, and tracker capacities of at least 16 and 64 |
| `MeyerPredictor.MeyerPredictor.Reset` | internal/pullstrength/meyer.go:395-406 | New trackers of the same capacities, all counters at zero |
| `MeyerPredictor.MeyerPredictor.Advance` | internal/pullstrength/meyer.go:252-256 | The time since the last sample when its stamp was positive and smaller, 10000 ns otherwise, and whether stamps still step by exactly 10000 ns; the stamp advances for rejected samples too |
| `MeyerPredictor.MeyerPredictor.SteadyEnergy` | internal/pullstrength/meyer.go:242-264 | After any run of steady stamps the accumulator is the sum of abs(V) abs(I) dt over the newest accepted pairs |
| `MeyerPredictor.MeyerPredictor.EnergyExactIff` | internal/pullstrength/meyer.go:222-264 | The accumulator of the object is that of its accepted pairs, and was their windowed sum all along if and only if every accepted pair was harmless when it came |
| `MeyerPredictor.MeyerPredictor.Predict` | internal/pullstrength/meyer.go:275-312 | A prediction exactly when four hardness values qualify; its features are the statistics of both trackers; counters follow |
| `MeyerPredictor.MeyerPredictor.PushPhasor` | internal/pullstrength/meyer.go:246-313 | Both windows, the accepted pairs and the predictions are a function of what was fed before and of the sample: which samples reach which tracker, which yield a prediction and with which features; a rejected low-current sample leaves the energy alone; totals and redline hits count the predictions |
| `MeyerPredictor.Statistics` | internal/pullstrength/meyer.go:207-211 | The features of a prediction: a mean no smaller than the least hardness and a softening in [0, 1) |
| `Models.ApparentSq` | internal/pullstrength/meyer.go:262-263 | The squares of the in-phase and quadrature products add up to the product of the squared magnitudes of V and I |
| `Impedance.OhmsLaw` | internal/impedance/matrix.go:112-120 | The quotient times the current is the voltage |
| `Impedance.SmoothedMoves` | internal/impedance/matrix.go:122-128 | Sixteen times the new smoothed value is fifteen times the old one and the quotient, in both parts; with no value yet it is the quotient |
| `Impedance.SteadyIff` | internal/impedance/matrix.go:122-128 | Under a steady quotient the distance from it has shrunk to (15/16)^n after n of them, for all of them up to n, if and only if the way there does not lead through zero |
| `Impedance.SteadyClosed` | internal/impedance/matrix.go:122-128 | It never does when the inner product of quotient and starting value is not negative |
| `Impedance.SmoothedInHull` | internal/impedance/matrix.go:122-128 | Every smoothed value lies in any half-plane that holds all raw quotients so far, and so in their convex hull |
| `Impedance.PointsInHull` | internal/impedance/matrix.go:122-135 | So does every solvable point |
| `Impedance.LocksAt256` | internal/impedance/matrix.go:138-150 | The 256th solvable point locks the baseline at the mean, offset by whatever the accumulators started with |
| `Impedance.FrozenAfter256` | internal/impedance/matrix.go:138-150 | Locked exactly from the 256th point on, and frozen from then on |
| `Impedance.LockedIsMeanIff` | internal/impedance/matrix.go:138-150 | The locked baseline is the mean of the first 256 points and of their magnitudes if and only if the accumulators started empty |
| `Impedance.ResetKeepsSums` | internal/impedance/matrix.go:89-108 | k samples at impedance one, a reset, and 256 more lock the baseline at 1 + k/256 |
| `Impedance.MeanTriangle` | internal/impedance/matrix.go:139-147 | The magnitude of the mean is at most the mean of the magnitudes |
| `Matrix.SameCellIff` | internal/impedance/matrix.go:197 | A row falls on the cell of the last alarm exactly when whole laps lie between them, also when a reset has put the rows behind it |
| `Matrix.OutOfLineIff` | internal/impedance/matrix.go:193-196 | Out of line is more than the jump threshold of the mean magnitude away from it, either way and whatever the phase, or more than the phase threshold away from the baseline's angle, whatever the magnitude |
| `Matrix.WatchedIff` | internal/impedance/matrix.go:193-209 | A recorded point raises an alarm if and only if the baseline is locked, no whole laps lie between its row and that of the last alarm, and magnitude or phase is out of line, written out |
| `Matrix.AlarmSays` | internal/impedance/matrix.go:198-209 | The reported percentage times (mean + 1e-18) is 100 times the signed difference of the magnitudes, the reported degrees are the angle between the phases, and the other fields are the point's and the baseline's |
| `Matrix.SpatiotemporalMatrix.constructor` | internal/impedance/matrix.go:66-87 | An empty matrix, 2048 rows by default, with empty accumulators |
| `Matrix.SpatiotemporalMatrix.SolveImpedance` | internal/impedance/matrix.go:110-152 | Solvable exactly when the current can be divided by and the smoothed quotient is not negligible; the value has moved one sixteenth of the way to the quotient; smoothing and baseline are those of the whole history |
| `Matrix.SpatiotemporalMatrix.Check` | internal/impedance/matrix.go:193-212 | The alarm rule written out in magnitudes and angles, including that a row on the cell of the last alarm raises none, and the percentage reported |
| `Matrix.SpatiotemporalMatrix.AppendRow` | internal/impedance/matrix.go:165-214 | Records exactly the solvable pairs, in order; the alarms after it are a function of the alarms, the count of rows and the baseline before it and of the new point, and one more exactly when the locked baseline is left; alarm numbers are consecutive |
| `Matrix.SpatiotemporalMatrix.RowsInHull` | internal/impedance/matrix.go:122-135 | Every recorded pair of resistance and reactance lies in any half-plane that holds the raw quotients seen since the reset, and so in their convex hull |
| `Matrix.SpatiotemporalMatrix.RowsMove` | internal/impedance/matrix.go:122-135 | Sixteen times the newest row is fifteen times the one before and the quotient between them |
| `Matrix.SpatiotemporalMatrix.SteadyRows` | internal/impedance/matrix.go:122-135 | After n equal quotients that do not point away from the smoothed value before them, the newest row is (15/16)^n of the way off |
| `Matrix.SpatiotemporalMatrix.BaselineLocked` | internal/impedance/matrix.go:89-150 | Locked exactly from the 256th row on, and then the mean of the first 256 points since the reset if and only if no row was recorded before it; its magnitude is then at most the mean magnitude |
| `Matrix.SpatiotemporalMatrix.OneRowNeverAlarms` | internal/impedance/matrix.go:197 | A matrix of one row never raises an alarm |
| `Matrix.SpatiotemporalMatrix.LatestRow` | internal/impedance/matrix.go:216-233 | The newest row, if any was written |
| `Matrix.SpatiotemporalMatrix.SnapshotRecent` | internal/impedance/matrix.go:250-290 | The newest rows in order across the wrap, or all that are kept when the number asked for is not possible |
| `Matrix.SpatiotemporalMatrix.Reset` | internal/impedance/matrix.go:89-108 | Empties rows, lock and alarms; the baseline accumulators and the row of the last alarm stay |
| `Pipeline.NewPipeline` | internal/impedance/pipeline.go:67-105 | All of it but the phasor stage: defaults, matrix, predictor with its redline and bonding frequency, and empty rings, which share no memory with anything older |
| `Pipeline.Pipeline.Process` | internal/impedance/pipeline.go:132-186 | A frame exactly when the phasors are ready, the current can be divided by and the smoothed quotient is not negligible, with that quotient as its impedance, and then its row; an alarm exactly when one is due for the row; the predictor is fed exactly with the frame, and an event is exactly a new prediction below the redline. Frame, alarm, prediction and event are functions of the sample and of the state before it |
| `Pipeline.FramesArePoints` | internal/impedance/pipeline.go:145-155 | The frames of any run of samples have the usable smoothed quotients as their impedances, one for one and in order |
| `Pipeline.Pipeline.Predict` | internal/impedance/pipeline.go:164-182 | The predictor has been fed the frame's own number, stamp, phasors and impedance, which determines its prediction; a new prediction below the redline, and no other, becomes an event with the next number |
| `Pipeline.Pipeline.Aligned` | internal/impedance/pipeline.go:156-181 | Anomalies recorded since a reset equal alarmCount, pull events equal redlineHits, and both are numbered without gaps |
| `Pipeline.Pipeline.Reset` | internal/impedance/pipeline.go:107-130 | Matrix, predictor, rings and counters start over; the event number does not, so later events are numbered above all earlier ones |
| `Pipeline.Pipeline.ProcessBatch` | internal/impedance/pipeline.go:188-207 | Frames, rows, alarms, predictions and events of a batch are a function of the samples and the state before it: frames of the quotients, alarms and predictions of the frames, events of the predictions below the redline; each buffer holds the first of its kind, as many as fit, and the rings take in all of them |
| `Pipeline.Pipeline.RecentAnomalies` | internal/impedance/pipeline.go:222-242 | The newest anomalies in order across the wrap |
| `Pipeline.Pipeline.RecentPullEvents` | internal/impedance/pipeline.go:295-315 | The newest pull events in order across the wrap |
| `Channel.Channel.Process` | internal/impedance/pipeline.go:132-186 | One sample of both waves: the windows move by it, phasors are ready from the N-th sample on, and frame, alarm, prediction and event are those of the windowed bins they show |
| `Channel.Channel.Reset` | internal/impedance/pipeline.go:107-130 | Both windows and everything behind them start over, but for the event number |
| `Channel.NewChannel` | internal/impedance/pipeline.go:67-105 | The phasor stage for the defaulted window, target and sampling rate, and the pipeline behind it with its sizes, redline and bonding frequency |
| `CrcFuse.CRC16Fuse` | internal/canbus/fuse.go:155-168 | The nested loop computes the check, byte by byte and bit by bit |
| `CrcFuse.KnownChecks` | internal/canbus/fuse.go:155-168 | The empty message checks to 0xFFFF, a zero byte to 0x40BF, and the digits one to nine to 0x4B37 |
| `CrcFuse.LeadingZeroDetected` | internal/canbus/fuse.go:156 | A zero byte in front of a message always alters the check |
| `CrcFuse.Affine` | internal/canbus/fuse.go:155-168 | Equal-length messages have a CRC difference that depends only on their XOR |
| `CrcFuse.UndetectedIff` | internal/canbus/fuse.go:155-168 | A change goes unnoticed exactly when its own check from an empty register is zero |
| `CrcFuse.FeedBijective` | internal/canbus/fuse.go:158-165 | Feeding a byte is one-to-one and onto on the register |
| `CrcFuse.AdjacentDetected` | internal/canbus/fuse.go:155-168 | Any change confined to one byte or two adjacent bytes of a message of any length alters the CRC |
| `CrcFuse.BurstDetected` | internal/canbus/fuse.go:155-168 | Any change confined to 16 consecutive bits in register order, wherever it begins and whatever the length of the message, alters the CRC |
| `CrcFuse.SeventeenMissed` | internal/canbus/fuse.go:155-168 | Sixteen is the most: the taps of the polynomial, four bits within seventeen, flipped from any bit of any message on, go unnoticed |
| `CrcFuse.ResidueIff` | internal/canbus/fuse.go:155-168 | A message followed by two bytes checks to zero if and only if they are its CRC, low byte first |
| `CrcFuse.OddFlipsDetected` | internal/canbus/fuse.go:155-168 | Any odd number of flipped bits alters the CRC |
| `CrcFuse.CrcParity` | internal/canbus/fuse.go:155-168 | The parity of the register after a message is that of the register and the message together |
| `CanId.UnpackPack` | internal/canbus/fuse.go:118-135 | Unpacking a packed identifier returns the fields, the priority modulo 4 and the device modulo 64 |
| `CanId.PackUnpack` | internal/canbus/fuse.go:118-135 | Every identifier is the packing of its fields |
| `CanId.PackInjective` | internal/canbus/fuse.go:118-126 | Identifiers agree exactly when the trimmed fields do |
| `CanId.PackLayout` | internal/canbus/fuse.go:118-126 | Where each field stands: two bits of priority and six of device in the top octet, then an octet each |
| `Gateway.StepInv` | internal/gateway/gateway.go:242-385 | Every step of every schedule of the three loops keeps the invariant |
| `Gateway.Conservation` | internal/gateway/gateway.go:254-303 | At every moment: captured = dropped + in ring + in batch + parse errors + decoded, and RingEnqFails = dropped frames + dropped sample messages, give or take the counter updates under way |
| `Gateway.QuietConservation` | internal/gateway/gateway.go:254-303 | With both loops between updates the counters are exact, FramesRx and SamplesRx included |
| `Gateway.ProcessedInOrder` | internal/gateway/gateway.go:271-325 | The samples given to the pipeline are the decoding of a subsequence of the captured frames, in capture order |
| `Gateway.BuiltFrameSpeaks` | internal/gateway/gateway.go:286-299 | A built frame of at most 8186 samples is never a parse error and contributes exactly its raw pairs |

## Left out

- `VersionedRingBuffer` and `SafeQueue`: their tests are skipped as under refactoring, and the stamps written do not match those expected.
- Wrap-around of the 64-bit tickets of the ring, and weak memory: tickets are unbounded and atomics sequentially consistent.
- The scan that `Retire` starts after dropping the list lock: in the concurrent model a scan may start at any time, which covers it, and that the sixty-fourth retirement does start one is stated for the object only (`HazardDomain.Retire`).
- Other users of the shared hazard domain beside one pool, and calls of a nil reclaim callback.
- Clients of `HazardPool` that free a block twice or with another size.
- Floating-point rounding, infinities and NaN: arithmetic is exact over the reals.
- SlidingDft.SlidingDft.Update: where the weights sum to zero, as those of a Hann window of two samples do, the source's gain is infinite; only readiness, stamp, frequency and place in the window are then promised. A raised cosine over a single sample divides zero by zero in the source and is left unspecified.
- Cosine and sine themselves: any family of rotations that are roots of unity. Angles and phases are whatever `atan2` returns.
- The sine of the frame builder: arbitrary 32-bit raw samples.
- The wall clock: a data element without a reference time says only how long after the clock's reading it is.
- SvDecoder.ParseApdu: the source first allocates capacity for as many ASDUs as the APDU claims (internal/iec61850/decoder.go:145), up to 2^32 - 1; memory is not modelled.
- `decodeBitString` for a synchronisation octet: the only call that could succeed there is on data the code has already handled.
- `solveMaxwellMeyer`: any function of configuration and features.
- The setters of redline and thresholds, and other getters and setters: single-branch facts.
- SpatiotemporalMatrix: its eight column slices are one array of rows, so that columns of different lengths or shared columns cannot be expressed.
- Pipeline.NewPipeline: the window, the target and the sampling rate belong to the phasor stage, which `Channel` puts in front; the source keeps both in one object.
- Pipeline: the predictor object exists even when predictions are disabled, and is then never fed.
- `Gateway`: the rings are bounded queues that may refuse or seem empty without cause, which is what the queue guarantees; byte and latency counters, the callbacks, and the fuse frames sent for pull events are not modelled.
- The CAN payload: scaling a negative deviation to an unsigned integer is implementation-defined.
- `FuseChannel`, `FuseDispatcher`: sequence numbers and per-device bookkeeping around the identifiers.
- Locks of the sequential objects, logging, tickers, signals, flags and the command line.
- The capture code in C and its headers: sockets and memory mapping.
