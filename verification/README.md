# WAIL, verified

WAIL joins Ableton Link sessions over the internet the way NINJAM does: each musician's audio is captured in intervals
of a few bars, sent in 20 ms windows, rebuilt at every receiver, and played one interval later on the receiver's own
beat grid. This project models the parts of WAIL whose correctness is bookkeeping (offsets, order, counters, stamps,
interleavings) and proves what they promise.

**The interval audio path.** Capture lays buffers down sample-contiguously, steers drift with micro-slews, and emits
windows, holding back a short final one until the next interval's head can pad it. The reassembler rebuilds rounds from
frames in any order. A cursor per sender picks the freshest ready round at each local boundary. The feeder keeps a bounded
cushion ahead of the playhead and hands over between rounds.

| file | contents |
|---|---|
| `Audio.dfy`, `Interval.dfy` | frames, the resampler, the mapping from beats to intervals and frames |
| `AssemblerModel.dfy`, `Assembler.dfy` | the capture assembler as functions on values, and the object that updates its fields and buffers in place |
| `AssemblerStream.dfy`, `AssemblerRuns.dfy`, `AssemblerOrder.dfy` | its windows are the laid-down stream's; order, uniqueness, independence of buffering |
| `DriftControl.dfy`, `AssemblerBatch.dfy` | the drift bound, streaming against batch |
| `AssemblerReanchor.dfy`, `AssemblerContent.dfy`, `AssemblerOwed.dfy`, `AssemblerCalls.dfy`, `AssemblerLoss.dfy` | whatever re-anchors: no window twice, what each carries, none lost but as said, order within a call |
| `AssemblerAdd.dfy` | what the batch operations report |
| `PacedReader.dfy`, `FeederModel.dfy`, `FeederRuns.dfy`, `FeederBooks.dfy`, `FeederTempo.dfy`, `Emit.dfy` | readers and feeders as values, their safety, their books and their tempo over runs, and the objects |
| `Reassembly.dfy`, `SlotContents.dfy` | rounds from out-of-order and concealed frames, and what they read back as |
| `Playback.dfy`, `PlaybackRuns.dfy`, `PlaybackStamps.dfy`, `PlaybackLoss.dfy` | one tick of the emit loop; contiguous playback, in frames and in stamps; what a late tick loses |
| `EndToEnd.dfy`, `EndToEndExample.dfy` | from capture to the sink, and a small run of it |
| `Playout.dfy`, `Rounds.dfy`, `RoundRuns.dfy`, `SenderRounds.dfy` | the adaptive cursor and one sender's rounds: machine, laws, object |
| `StreamLives.dfy` | when a stream ends, and what a release leaves |
| `RoundPlayback.dfy` | the cursor and the feeders together |
| `EngineEndToEnd.dfy`, `EngineExample.dfy` | end to end through a run of the engine, and a small run of it |
| `Common.dfy` | options and bounds shared by all of them |

**Small protocols.** `Tempo.dfy`: tempo declarations over a network that reorders and repeats. `CaptureRing.dfy`: the
lock-free capture ring, every single access interleaved. `TempoDetector.dfy`, `TempoReports.dfy`: the
hold-down tempo detector. `SlotTable.dfy`, `SlotPorts.dfy`: the Receive plugin's ports over discovery polls.

**Exact results.** `TokenBucket.dfy`: the relay's rate limiter. `LossWalk.dfy`: which slots a sequence gap lost.
`Waif.dfy`, `WaifBytes.dfy`: the frame format, its printer and its two parsers.

Code that updates objects is modelled as classes whose methods are proved equal, on the whole state, to functions on
values; the theorems about runs are about those functions.

## Where the code and its promises differ

- **Ticks shorter than the cushion are not enough for seamless playback.** When a round is played through its padding, a
  tick that lands between the cushion's end and the padding's end hands over with frames unplayed, and counts no underrun
  (`PlaybackLoss.TicksWithinTheCushionCanLoseFrames`). `PlaybackLoss.SeamlessIff` gives the exact condition, tick by tick;
  the run theorems assume just that, and `PlaybackLoss.BrokenCadenceLosesFrames` shows that frames are lost without it.
- **A first stamp may round to the very end of an interval.** `FrameOffset` can return the interval's length, which its
  comment excludes (`AssemblerOrder.AnchorAtEndHappens`); a short final window is then flushed zero-padded at once.
  `AssemblerOrder.WindowsAreTheWholeStreamIff` gives the exact effect; order, independence of buffering, the drift bound,
  streaming against batch and end to end hold for such a stamp too.
- **A held final window can be lost.** A stamp that puts the cursor at the end of the next interval strands a window still
  held for its padding; the next one held replaces it (`AssemblerLoss.HeldWindowIsLost`). `AssemblerOwed.EveryWindowComesOut`
  says exactly which windows are missing, `AssemblerCalls.NothingIsLost` from which stamps none ever is.
- **A live channel can lose its port to a stale name.** A slot whose channel is no longer listed keeps its last name for
  five more polls; a live channel renamed to that name, in a higher slot, is freed as a duplicate
  (`SlotTable.StaleNameFreesTheLiveChannel`). `SlotTable.KeepsPortIff` gives the exact condition.
- **The skip list of a re-pin is not oldest first.** The old era's rounds follow in the order the caller listed them
  (`Playout.OldEraIsListedAsFound`). `Playout.SkippedOldestFirstIff` gives the exact condition.
- **A sender restart hides the last round's losses.** The old era's rounds are removed before the round just played is
  measured (`RoundRuns.RestartHidesLosses`). `RoundRuns.UnheardIsCountedIff` says exactly when they are counted.
- **A rescale can mint capacity.** `rescale` clamps only to the new maximum (`TokenBucket.RescaleGivesMoreIff`, `TokenBucket.RescaleCanGiveMore`).
- **A stray frame can fake completeness.** `Complete` counts real frames without asking where they lie
  (`Reassembly.CompleteIff`).
- **A report may say nothing new.** The integer snap is wider than the reporting bar below 200 BPM
  (`TempoDetector.ReportRepeatsBaselineIff`).
- **The header parser accepts a cut-short non-final frame** (`Waif.PeekAcceptsMoreIff`, `Waif.PeekAcceptsCutShort`).

## Conventions

`float64` is `real`; `math.Round` is rounding to nearest, halves away from zero. Integers are unbounded except in the
WAIF format, where widths are the format's. Times are integers or reals supplied by the caller. A stereo or mono sample
pair is one `Frame`; channel interleaving is not modelled. The Opus codec is the identity and its lookahead 0. Sample
getters, sink callbacks and `makeNext` closures are parameters and results: the rounds as they stand, the chunks sent,
and the values the closure captures.

## Model

| member | source | states |
|---|---|---|
| `Audio.ReadsInBounds` | wail-app/internal/dsp/resample.go:20-27 | for any rates and any buffer, every output frame of the resampler reads a source frame that exists |
| `Audio.BlendStaysBetween` | wail-app/internal/dsp/resample.go:24-30 | an interpolated sample lies between its two neighbours, so the conversion back to int16 cannot overflow |
| `Audio.ResampleExactLength` | wail-app/internal/dsp/resample.go:17-19 | resampling n frames from rate n to rate m gives exactly m frames: what lets a slew of k add exactly k |
| `Audio.ResampleLinear` | wail-app/internal/dsp/resample.go:10-35 | channel by channel, every output frame is the truncated linear interpolation of the two source frames around i*srcRate/dstRate, the source frame itself where that is whole; equal rates, a non-positive source rate and empty input give the source back |
| `Interval.Config.IndexIsTheWindowHoldingTheBeat` | wail-app/internal/interval/interval.go:42-53 | a beat's interval index is the one index whose [start, end) window holds the beat, negative beats included |
| `Interval.Config.OffsetIsRoundedPosition` | wail-app/internal/interval/interval.go:70-90 | inside its own interval a beat's frame offset is the rounded distance from the interval's start, never cut by the clamp |
| `Interval.CeilBounds` | wail-app/interval_codec.go:63-68 | rounding up to whole windows overhangs by less than one window, by nothing exactly when the length divides |
| `Assembler.CaptureAssembler.ReadyWindows` | wail-app/internal/capture/assembler.go:417-438 | emits the covered windows not emitted yet, withholding a short final one, and moves `emitted` with them |
| `Assembler.CaptureAssembler.RemainingWindows` | wail-app/internal/capture/assembler.go:441-449 | emits every window still owed by the open interval |
| `Assembler.CaptureAssembler.FinalWindow` | wail-app/internal/capture/assembler.go:380-397 | a held final window is its interval's tail, then the continuation, then zeros up to a full window |
| `Assembler.CaptureAssembler.ReleasePending` | wail-app/internal/capture/assembler.go:352-367 | the held window leaves once the next interval's head covers its padding, and only then |
| `Assembler.CaptureAssembler.FlushPending` | wail-app/internal/capture/assembler.go:369-378 | the held window leaves zero-padded |
| `Assembler.CaptureAssembler.Place` | wail-app/internal/capture/assembler.go:185-228 | which of the paths a stamp takes (open, contiguous with or without a slew, late, re-anchor) and everything it changes |
| `Assembler.CaptureAssembler.SlewAdjust` | wail-app/internal/capture/assembler.go:143-158 | the armed correction is counted and cleared; all but the last 64 frames stay as and where they were, and those come out resampled to 64 + k; short buffers pass through |
| `Assembler.CaptureAssembler.Write` | wail-app/internal/capture/assembler.go:485-502 | frames are copied in place at the cursor, coverage is recorded, the cursor moves, nothing else changes |
| `Assembler.CaptureAssembler.Add` | wail-app/internal/capture/assembler.go:234-262 | the batch step on the whole state: the new assembler and the first interval completed |
| `Assembler.CaptureAssembler.AddWindows` | wail-app/internal/capture/assembler.go:305-346 | the streaming step on the whole state: the new assembler and the windows released, in order |
| `Assembler.CaptureAssembler.Flush` | wail-app/internal/capture/assembler.go:266-273 | hands back what is accumulating and closes it |
| `Assembler.CaptureAssembler.FlushWindows` | wail-app/internal/capture/assembler.go:399-411 | the held final window and everything still owed come out; nothing stays open |
| `Assembler.CaptureAssembler.SetConfig` | wail-app/internal/capture/assembler.go:113-121 | a changed grid drops both the open and the held interval and forgets the anchor; an equal one changes nothing |
| `AssemblerModel.SlewedIs` | wail-app/internal/capture/assembler.go:143-158 | what a slewed buffer holds: its own frames up to the last 64, then those read off by interpolation at 64 + k positions |
| `AssemblerAdd.AddReportsWhatItLeaves` | wail-app/internal/capture/assembler.go:185-262 | whatever the stamp, Add reports an interval exactly when it leaves the one at hand, and then that one: its samples, topped up with the buffer's head unless a stamp cut it short, its length, and how far it was covered |
| `AssemblerAdd.FlushReportsTheRest` | wail-app/internal/capture/assembler.go:266-273 | Flush reports what is open, as it stands, and closes it |
| `AssemblerAdd.ColdAgain` | wail-app/internal/capture/assembler.go:113-121 | a final flush or a new grid leaves an assembler as cold as a new one, so what holds of runs from a cold start holds again |
| `AssemblerStream.FinalWindowIsStream` | wail-app/internal/capture/assembler.go:356-397 | a short final window padded with the next interval's head is exactly the stream's own window there |
| `AssemblerStream.LayTracks` | wail-app/internal/capture/assembler.go:334-344 | one write and the releases after it extend the stream by the frames written and emit exactly the windows they completed |
| `AssemblerStream.FillTracks` | wail-app/internal/capture/assembler.go:314-345 | the whole loop: a buffer, over any number of interval ends, extends the stream and emits exactly the newly covered windows |
| `AssemblerRuns.WindowsAreTheStream` | wail-app/internal/capture/assembler.go:305-346 | THE STREAM THEOREM: over any run without a re-anchor, buffers dropped as late included, whatever the tempos and wherever the first stamp falls, the emitted windows are the laid-down stream's own windows on the chain of opened intervals, after the zero-padded interval an anchor at an interval's very end flushes at once |
| `AssemblerOrder.RunIsInOrder` | wail-app/internal/capture/assembler.go:305-395 | such a run, late-dropped buffers included, emits 0..Total-1 of each interval in order, interval after interval, each once, IsFinal exactly on the last |
| `AssemblerOrder.WindowsDependOnlyOnTheStream` | wail-app/internal/capture/assembler.go:196-206 | with stamps inside the deadband, two runs carrying the same frames emit the same windows however the frames were cut into buffers |
| `AssemblerOrder.WindowsAreTheWholeStreamIff` | wail-app/internal/capture/assembler.go:314-322 | those windows are the stream's on every interval, the anchor's own included, exactly when the anchor lies inside its interval or the stream happens to be silent where the flushed final window ran over it |
| `AssemblerOrder.AnchorAtEndHappens` | wail-app/internal/interval/interval.go:70-90 | a concrete stamp at 48 kHz and 20 ms windows that does this: the offset can equal the interval length, which the comment above FrameOffset excludes |
| `DriftControl.DivergenceIsPosition` | wail-app/internal/capture/assembler.go:194-196 | on a constant grid a stamp's divergence is its position on the grid minus the length of the stream so far |
| `DriftControl.SlewedLength` | wail-app/internal/capture/assembler.go:143-158 | a slewed buffer of at least 68 frames has exactly numFrames + k frames |
| `DriftControl.DriftStaysBounded` | wail-app/internal/capture/assembler.go:126-212 | THE DRIFT BOUND: from the first buffer on, if stamps drift by at most 4 frames a buffer, no divergence ever exceeds deadband + 4 and nothing ever re-anchors |
| `AssemblerBatch.OutOfInterval` | wail-app/internal/capture/assembler.go:305-346 | the emitted windows carrying an interval's index are exactly that interval's due windows |
| `AssemblerBatch.StreamingRefinesBatch` | wail-app/internal/capture/assembler.go:234-262 | STREAMING REFINES BATCH: for buffers no longer than an interval, some of them dropped as late or not, Add completes, in order, every interval the stream has moved past; all of its windows are out, or all but a final one that overhangs the stream so far, and joined and cut at its frame count they equal what Add completes |
| `AssemblerReanchor.NeverTwice` | wail-app/internal/capture/assembler.go:185-228 | over any run of buffers, stamps, tempos, losses and re-anchors, and the flush that ends it, no (interval, number) pair is emitted twice |
| `AssemblerContent.WindowsCarryWhatWasLaid` | wail-app/internal/capture/assembler.go:305-411 | CONTENT UNDER RE-ANCHORS: over any such run and its flush, every emitted window holds at each place of its interval the frame last laid there in the whole run, or silence where none was; past its interval's end it is silent, or holds the next interval's head as it stood at some moment |
| `AssemblerContent.BufferIsLaid` | wail-app/internal/capture/assembler.go:185-346 | A BUFFER LIES WHERE IT BELONGS: slewed as its divergence asks, in order and without a gap, at the cursor while its stamp is within a quarter of a second of it, else at the interval and offset the stamp gives, less only a head that falls behind what has been emitted; one whose interval has been left lays nothing |
| `AssemblerContent.StampWinsAfterALoss` | wail-app/internal/capture/assembler.go:160-175 | after the capture hop has lost buffers the next one lies where its stamp says, uncorrected |
| `AssemblerContent.CountersTell` | wail-app/internal/capture/assembler.go:160-229 | after every buffer the four counters have moved by exactly what happened: late, re-anchored, frames slewed, a head dropped behind emitted windows |
| `AssemblerOwed.EveryWindowComesOut` | wail-app/internal/capture/assembler.go:185-411 | NOTHING OWED IS LOST BUT AS SAID: over any run of buffers, losses and re-anchors and the flush that ends it, the windows emitted are exactly all windows of all intervals opened, less the held final windows that were replaced: those still held when another short interval ends with only its own final window owed |
| `AssemblerCalls.NothingIsLost` | wail-app/internal/capture/assembler.go:185-411 | so every window comes out in any run in which no stamp puts the cursor at or past its interval's end while a final window is held |
| `AssemblerCalls.EveryCallIsInOrder` | wail-app/internal/capture/assembler.go:305-346 | whatever the stamps, the windows of one call come out interval by interval, number by number |
| `AssemblerLoss.HeldWindowIsLost` | wail-app/internal/capture/assembler.go:318-325 | it happens that one is lost: two buffers and a capture loss after which the last window of interval 0 never comes out |
| `PacedReader.FrameAtBeatInverts` | wail-app/internal/emit/pacedreader.go:116-140 | FrameAtBeat inverts beatAt exactly, at every frame and after any rebase |
| `PacedReader.RebaseKeepsStamp` | wail-app/internal/emit/pacedreader.go:122-134 | a rebase leaves the stamp at the cursor where it was |
| `PacedReader.StampsIncrease` | wail-app/internal/emit/pacedreader.go:50-140 | through any mix of Next, Skip, SetTotalFrames and Rebase, emitted stamps strictly increase |
| `PacedReader.BoundaryStampsMeet` | wail-app/audio_engine_real.go:1408-1412 | for tempos of at least 1 BPM the outgoing and the incoming reader's stamps at a handoff differ by at most half a frame, with or without the pad, at every boundary, without accumulating |
| `Emit.PacedReader.Next` | wail-app/internal/emit/pacedreader.go:50-74 | the chunk is the buffer's frames at the cursor, silence where they have not arrived, stamped with its first frame's beat; the cursor moves past it |
| `Emit.PacedReader.Skip` | wail-app/internal/emit/pacedreader.go:104-114 | forward only, clamped to the end |
| `Emit.PacedReader.SetTotalFrames` | wail-app/internal/emit/pacedreader.go:93-102 | extends or shortens, never below the cursor |
| `Emit.PacedReader.Rebase` | wail-app/internal/emit/pacedreader.go:122-134 | moves the anchor to the cursor and takes over the new tempo and length where given |
| `FeederModel.ChunksCover` | wail-app/internal/emit/feeder.go:175-184 | what fill sends is gapless, in order, in chunks of at most chunkFrames carrying the buffer's own frames, each stamped with its first frame's beat |
| `FeederModel.PadIsPlayedIff` | wail-app/audio_engine_real.go:1491-1508 | the pre-roll plays the current round through its padding if and only if some frame of it is louder than the floor, and only then starts the next reader past as many frames; the next reader has the next round's length, tempo and start beat |
| `FeederModel.CushionTakesEffect` | wail-app/internal/emit/feeder.go:51-56 | the depth set, floored at one chunk, is how far ahead of the playhead the next fill goes |
| `FeederModel.FillBalances` | wail-app/internal/emit/feeder.go:159-185 | a fill moves the cursor by frames emitted plus frames skipped, and counts exactly the skips made away from frame 0 |
| `FeederRuns.AdvanceIsSafe` | wail-app/internal/emit/feeder.go:115-149 | everything one Advance emits, across the interval end too, lies past everything committed before, in order, inside [play, play + cushion), shifted on only by what a rebase has left the current reader past its own end |
| `FeederRuns.NeverTwiceNeverBack` | wail-app/internal/emit/feeder.go:73-185 | FEEDER SAFETY: over any run of ticks, handovers, rebases and cushion changes every stream position is sent at most once, in increasing order |
| `FeederRuns.SetCurrentStartsARun` | wail-app/internal/emit/feeder.go:64-68 | a feeder just given a reader satisfies the invariant of those runs |
| `FeederBooks.UnderrunsAreExact` | wail-app/internal/emit/feeder.go:102-185 | THE UNDERRUN COUNTER IS EXACT: over any such run the positions moved past are those sent, plus those counted as underruns, plus those given up by design: skipped by a reader that had sent nothing yet, or left over in a round when the next takes over |
| `Emit.Feeder.SetCushion` | wail-app/internal/emit/feeder.go:51-56 | the new depth, floored at one chunk |
| `Emit.Feeder.Promote` | wail-app/internal/emit/feeder.go:73-81 | adopts the pre-rolled reader exactly when it is for the round asked for, and says so |
| `Emit.Feeder.HandOver` | wail-app/audio_engine_real.go:1509-1520 | a stream's boundary handover: the pre-rolled reader, going on at the boundary's tempo from the stamp it had reached and with the new length if the tempo has moved, or a fresh one |
| `FeederRuns.AdoptionTakesOver` | wail-app/audio_engine_real.go:1509-1514 | an adopted reader keeps its cursor and the stamp there, runs at the boundary's tempo from then on, and takes the new length where the tempo has changed |
| `FeederTempo.TempoHoldsFromTheHandoverOn` | wail-app/audio_engine_real.go:1509-1568 | A NEW TEMPO HOLDS: under any ticks after such a handover every chunk sent of the round carries the round's own frames and a stamp that advances at that tempo from the frame the boundary found it at |
| `Emit.Feeder.RollNext` | wail-app/audio_engine_real.go:1491-1508 | builds the next reader, playing the current one through its padding exactly when that carries audio |
| `Emit.Feeder.FillReader` | wail-app/internal/emit/feeder.go:159-185 | the skip, the counters and every chunk of one fill |
| `Emit.Feeder.Advance` | wail-app/internal/emit/feeder.go:115-149 | the whole tick: both readers, the handoff, the counters, and the chunks in order |
| `Emit.Feeder.SkipFrames` | wail-app/internal/emit/feeder.go:90-100 | each reader moves on by the frames asked for, or to its end, and nothing else changes; no underrun is counted |
| `Playback.TickEmits` | wail-app/audio_engine_real.go:1544-1568 | inside an interval a tick's emission starts exactly where the last one ended and ends with the sink topped up |
| `PlaybackRuns.HandsOver` | wail-app/audio_engine_real.go:1407-1521 | at a boundary in reach the pre-rolled reader is adopted, or at the very frame the round ends a fresh one installed, with nothing repeated or lost, whichever handoff was chosen |
| `PlaybackRuns.SoonIsInReach` | wail-app/internal/emit/feeder.go:115-149 | a tick within the cushion less the padding and two frames is in reach, whatever the padding holds |
| `PlaybackRuns.PlaybackIsContiguous` | wail-app/audio_engine_real.go:1407-1568 | CONTIGUOUS PLAYBACK: over any number of ticks and boundaries, none out of reach of the one before, the emission is one contiguous run of the stream, without underruns |
| `PlaybackRuns.SoonTicksKeepCadence` | wail-app/internal/emit/feeder.go:115-149 | ticks that all follow soon enough are such a run |
| `PlaybackRuns.WholeRunIsContiguous` | wail-app/audio_engine_real.go:1407-1568 | the same from a stream's first boundary on, with where the run starts and how far ahead of the playhead it ends |
| `PlaybackStamps.WholeRunStampsMeet` | wail-app/emit_boundary_test.go:183-227 | NO SPLICE: over a whole such playback each chunk is stamped, to within half a frame, with the beat at which the chunk before it ends, over any number of boundaries and without accumulating |
| `PlaybackLoss.SeamlessIff` | wail-app/audio_engine_real.go:1485-1520 | exactly when a tick leaves no gap: the first frame Advance sends lies where the last emission ended if and only if the tick is in reach, past it otherwise; the underrun counter rises by what the playhead overtook and not by what the boundary cut off |
| `PlaybackLoss.TicksNeverGoBack` | wail-app/audio_engine_real.go:1407-1568 | under any ticks at all, late or early, fallback to a fresh reader included, each stream position is sent at most once, in increasing order |
| `PlaybackLoss.BrokenCadenceLosesFrames` | wail-app/internal/emit/feeder.go:115-149 | the converse: at the first tick out of reach a nonempty stretch of the stream is lost, and nothing sent before or ever after overlaps it |
| `PlaybackLoss.TicksWithinTheCushionCanLoseFrames` | wail-app/internal/emit/feeder.go:115-149 | ticks merely shorter than the cushion are not enough: two top-ups 27 frames apart under a cushion of 30 send frames 600-630 and 640-657, with no underrun counted |
| `Reassembly.AddKeepsBooks` | wail-app/internal/emit/reassembler.go:71-91 | after a real frame, received and concealed still equal the number of real and concealed slots, and unfilled slots are silent |
| `Reassembly.ConcealKeepsBooks` | wail-app/internal/emit/reassembler.go:95-107 | the same after concealment, which fills only an empty slot |
| `Reassembly.ArrivalsDetermine` | wail-app/internal/emit/reassembler.go:71-107 | what a run of arrivals leaves (real slots, their content, the count, the total) is determined by the set of real frames |
| `Reassembly.OrderDoesNotMatter` | wail-app/internal/emit/reassembler.go:71-164 | ORDER INDEPENDENCE: two runs with the same real frames, whatever the order, duplicates and concealment, agree on every real slot and on completeness |
| `SlotContents.RoundReadsBack` | wail-app/internal/emit/reassembler.go:71-181 | WHAT A ROUND HOLDS after any arrivals of any lengths: it reaches past the highest frame that came, or to the length the last final frame gave; a slot is real once a real frame came for it, concealed if only concealment did; every place reads back as the last frame laid there by a real arrival, or by the concealment that came first |
| `SlotContents.ConcealmentReadsBack` | wail-app/internal/emit/reassembler.go:95-107 | a slot no real frame came for reads back as the first concealment that did |
| `SlotContents.ConcealmentStaysInItsSlot` | wail-app/internal/emit/reassembler.go:95-107 | concealment changes no other slot, and nothing at all where its slot is taken |
| `SlotContents.HolesAreUntouched` | wail-app/internal/emit/reassembler.go:112-128 | the slots counted as missing are those nothing came for |
| `Reassembly.CompleteIff` | wail-app/internal/emit/reassembler.go:160-164 | exactly when a round counts as complete: its holes below the total are no more than the real frames numbered at or beyond it |
| `Reassembly.CompleteMeansAllReal` | wail-app/internal/emit/reassembler.go:160-164 | with every frame numbered below the total: exactly when every slot below it is real |
| `Reassembly.StrayFrameFakesComplete` | wail-app/internal/emit/reassembler.go:160-164 | one frame numbered beyond the total completes a round over a hole |
| `Reassembly.RealSlotsReadBack` | wail-app/internal/emit/reassembler.go:172-181 | a run of real slots from the first on reads back as the stretch of stream it was cut from |
| `Reassembly.Reassembler.Add` | wail-app/internal/emit/reassembler.go:71-91 | on the map of partials: the one round changes as specified, no other does, negative frame numbers change nothing |
| `Reassembly.Reassembler.AddPLC` | wail-app/internal/emit/reassembler.go:95-107 | on the map of partials: the one round changes as concealment does, no other; negative frame numbers change nothing |
| `Reassembly.Reassembler.Missing` | wail-app/internal/emit/reassembler.go:112-128 | the empty slots below the total (or the highest frame seen), and the concealed ones |
| `Reassembly.Reassembler.IsComplete` | wail-app/internal/emit/reassembler.go:160-164 | complete needs a known total and at least as many distinct real frames |
| `Reassembly.Reassembler.Interval` | wail-app/internal/emit/reassembler.go:172-181 | returns the round padded to its full frame count and keeps it, changing no round's content |
| `Reassembly.Reassembler.Take` | wail-app/internal/emit/reassembler.go:183-191 | removes the one round and returns it with its counts, or nothing |
| `Reassembly.Reassembler.Drop` | wail-app/internal/emit/reassembler.go:236-244 | removes exactly the rounds up to and including the index |
| `EndToEnd.RoundCarriesStream` | wail-app/internal/emit/reassembler.go:142-181 | once its first windows have arrived, a reassembled round's head is the sender's stream |
| `EndToEnd.SentOnTheGrid` | wail-app/internal/capture/assembler.go:305-346 | at a constant tempo every window sent carries its own stretch of the stream, on equal intervals from the anchor's on; a first interval flushed at its end carries silence |
| `EndToEnd.WhatComesOutIsWhatWentIn` | wail-app/emit_boundary_test.go:183-227 | END TO END: windows of any buffers, delivered in any order with duplicates and concealment but before they are needed, play out over any number of boundaries in reach as one contiguous piece of the stream, with stamps that meet from chunk to chunk and no underrun counted |
| `EngineEndToEnd.EnginePlaysTheSource` | wail-app/audio_engine_real.go:1407-1568 | END TO END THROUGH THE ENGINE: the same of an engine run, in which the windows reach one stream among any other events and what has arrived is what the engine has placed, less what came too late and what a release dropped |
| `EngineExample.EngineHypothesesAreMet` | wail-app/audio_engine_real.go:1407-1568 | a concrete engine, sender and pair of ticks across a boundary meet every hypothesis of it |
| `EndToEnd.StreamIsSource` | wail-app/internal/capture/assembler.go:196-206 | and while stamps stay in the deadband that stream is the source itself, after the silence that places its first frame |
| `EndToEndExample.HypothesesAreMet` | wail-app/emit_boundary_test.go:183-227 | a concrete sender, delivery, feeder and pair of ticks across a boundary with 15 frames of padding meet every hypothesis of the end-to-end theorem |
| `Playout.OnFrame` | wail-app/internal/playout/adaptive.go:56-67 | a frame is too late exactly when its round lies below the playing one by less than the restart gap, live-appends exactly for the playing round, and buffers otherwise |
| `Playout.OutcomeIsNewestReady` | wail-app/internal/playout/adaptive.go:74-117 | something is released exactly when a candidate is ready, and it is the newest ready one |
| `Playout.ReleaseMovesLawfully` | wail-app/internal/playout/adaptive.go:86-107 | a release moves up, or down by at least 8; down only when nothing lies above |
| `Playout.Adaptive.Dispose` | wail-app/internal/playout/adaptive.go:56-67 | the disposition, on the object |
| `Playout.Adaptive.OnBoundary` | wail-app/internal/playout/adaptive.go:74-132 | candidate lists, sort, choice, re-pin and skip list together release the newest ready candidate and report exactly the rounds passed over for good, oldest first up to the release, then after a re-pin the old era as listed; a repeated boundary changes nothing |
| `Playout.SkippedOldestFirstIff` | wail-app/internal/playout/adaptive.go:69-73 | what a release skips is listed oldest first if and only if something buffered lies above the cursor, or the rounds above the release happen to be listed in order themselves |
| `Playout.OldEraIsListedAsFound` | wail-app/internal/playout/adaptive.go:69-73 | so after a re-pin the skip list need not be oldest first: a concrete buffer |
| `Rounds.NobodyInv` | wail-app/audio_engine_real.go:391-398 | a sender not heard of yet satisfies the invariant every step keeps, so the run theorems cover everything after |
| `Rounds.PlaceAllKeeps` | wail-app/audio_engine_real.go:1033-1057 | placing frames keeps every mark, buffers nothing in the straggler gap, and moves no cursor |
| `Rounds.SweepSparesWhatIsDue` | wail-app/audio_engine_real.go:1120-1153 | retirement removes only streams whose sender stopped claiming them, never one holding a round above the cursor; a sender with nothing left is forgotten whole |
| `Rounds.StepKeepsInv` | wail-app/audio_engine_real.go:385-425 | every step keeps: a first-seen mark for every buffered round but the playing one, no buffered round strictly between playing-8 and playing, every installed feeder on the cursor's round |
| `StreamLives.StreamEndsIff` | wail-app/audio_engine_real.go:1120-1153 | a stream ends at a boundary if and only if its sender has let go of it for longer than the grace that applies and nothing of it lies above the cursor; the others go on untouched |
| `StreamLives.EndedStaysEnded` | wail-app/audio_engine_real.go:1024-1032 | AN ENDED STREAM STAYS ENDED: over any later run a frame still being decoded for it is dropped, whatever has been published under its number since |
| `StreamLives.FrameKeepsAlive` | wail-app/audio_engine_real.go:900-945 | a frame restarts its stream's idle clock; a stream not there yet is published empty, under a birth number never used, with the cushion asked for; nothing else changes |
| `StreamLives.BoundaryPicksTheFreshest` | wail-app/audio_engine_real.go:1407-1439 | THE FRESHEST ROUND THAT MAY PLAY: a new boundary moves the cursor to the newest round that lies above it, or at least 8 below it with nothing above, and that every stream holding it has whole or that was first seen at an earlier boundary; with none it stays; a repeated boundary changes nothing |
| `StreamLives.FirstSeenIsFirst` | wail-app/audio_engine_real.go:403-416 | a round is marked when its first frame arrives, with the boundary count of that moment, and keeps that mark |
| `StreamLives.ReleaseLeaves` | wail-app/audio_engine_real.go:1440-1490 | what a release leaves of every stream: the released round and, unless the cursor has dropped, those above it, untouched; a round released without all its frames is counted; marks at or below it go |
| `RoundRuns.UnheardIsCountedIff` | wail-app/audio_engine_real.go:1450-1472 | a release counts as missed every slot still empty in the round that was playing, in every stream holding it, if and only if something above that round is buffered or no slot is empty; otherwise the sender has restarted and nothing is counted |
| `RoundRuns.RestartHidesLosses` | wail-app/audio_engine_real.go:1450-1472 | it happens: round 60 playing with a frame missing, a restarted sender's round 3 released, and the counter still 0 |
| `RoundRuns.BoundaryIsLawful` | wail-app/audio_engine_real.go:1407-1521 | a boundary obeys the law of the cursor, and when it moves it the released round is the newest ready one and every stream plays it |
| `RoundRuns.CursorLaw` | wail-app/audio_engine_real.go:1407-1521 | THE CURSOR LAW, at every step of every run: the cursor stays, is forgotten with its sender, starts, rises, or drops by at least 8; it drops only when nothing above is buffered, and then nothing but the released round stays buffered |
| `RoundRuns.NothingStarves` | wail-app/audio_engine_real.go:1407-1472 | NO STARVATION: a round buffered above the cursor and first seen at boundary b is played or passed by the first processed boundary after b, whatever else happens in between |
| `RoundPlayback.NextIsReleased` | wail-app/audio_engine_real.go:1407-1521 | when the next round is ready and nothing newer is, a boundary releases exactly it, to every stream's feeder |
| `RoundPlayback.StreamsPlayRoundAfterRound` | wail-app/audio_engine_real.go:1386-1391 | ROUND AFTER ROUND: over any run of the engine in which every boundary finds the next round so, each stream is played exactly as the single-stream loop of the playback theorems: the same feeder and the same chunks sent |
| `RoundPlayback.StreamsPlayContiguously` | wail-app/audio_engine_real.go:1407-1568 | so over such a run, with no tick out of reach, what the engine sends for a stream is one contiguous piece of its source, and no underrun is counted |
| `SenderRounds.SenderState.Mint` | wail-app/audio_engine_real.go:900-945 | a first frame publishes the stream; any frame restarts its idle clock |
| `SenderRounds.SenderState.Place` | wail-app/audio_engine_real.go:1024-1058 | frames of a stream retired while decoding are dropped; the rest are placed, marked or found too late, in order |
| `SenderRounds.SenderState.CloseIdle` | wail-app/audio_engine_real.go:1120-1136 | closes exactly the idle, unclaimed streams with nothing due |
| `SenderRounds.SenderState.Sweep` | wail-app/audio_engine_real.go:1120-1153 | and forgets a sender with no streams left |
| `SenderRounds.SenderState.States` | wail-app/audio_engine_real.go:1423-1438 | the candidates are the union of the streams' rounds, complete only where every stream holding one has all of it |
| `SenderRounds.SenderState.DropFirstSeenThrough` | wail-app/audio_engine_real.go:418-425 | forgets exactly the marks at or below the release |
| `SenderRounds.SenderState.TakeOldEra` | wail-app/audio_engine_real.go:1450-1462 | rounds passed over above the release leave every stream, and their marks go |
| `SenderRounds.SenderState.OnBoundary` | wail-app/audio_engine_real.go:1407-1521 | the whole boundary for one sender, on the whole state |
| `SenderRounds.SenderState.TopUpAll` | wail-app/audio_engine_real.go:1544-1568 | every stream's feeder advances, nothing else changes |
| `Tempo.LaterWins` | wail-app/protocol.go:101-115 | the rule itself: the later origin wins; on a tie a named owner beats none, and of two the one whose id comes first |
| `Tempo.ArbitrationIsTotal` | wail-app/protocol.go:101-115 | the rule is irreflexive, asymmetric and decides any two different stamps, empty owners included |
| `Tempo.ArbitrationIsTransitive` | wail-app/protocol.go:101-115 | and transitive: a strict total order |
| `Tempo.NewStampIsNew` | wail-app/session.go:337-345 | a new declaration beats everything its maker has made or seen and carries a stamp no declaration ever had |
| `Tempo.QuietInv` | wail-app/session.go:331-332 | a room in which nothing has been declared satisfies the invariant every step keeps |
| `Tempo.StepKeepsInv` | wail-app/session.go:853-866 | every peer's stamp is the maximum it has made or seen, its tempo that declaration's to within 0.01 |
| `Tempo.StampsClimb` | wail-app/session.go:853-866 | stamps only ever climb |
| `Tempo.EchoIsInert` | wail-app/protocol.go:101-115 | a declaration already made or seen changes nothing when delivered again |
| `Tempo.RoomsConverge` | wail-app/session.go:331-345 | TEMPO CONVERGENCE: for every interleaving, reordering and duplication, once all declarations are delivered all peers share the stamp of the one no other beats, and each tempo is within 0.01 BPM of its own |
| `Tempo.ChangeIsDeclared` | wail-app/session.go:1047-1060 | a tempo set in WAIL, or one observed to have moved by more than 0.01, is declared: sent to the room under a stamp that beats all its maker knew, and held by its maker; any other observation changes nothing |
| `Tempo.ChangeReachesEveryone` | wail-app/session.go:331-345 | A CHANGE REACHES THE ROOM: where everyone has heard everything, once a peer's change has been delivered to all, all hold its stamp and a tempo within 0.01 of it |
| `Tempo.Session.DeclareTempo` | wail-app/session.go:337-345 | a declaration of that tempo by this peer, stamped with the clock or one past the stamp held, whichever is later |
| `Tempo.Session.ChangeBpm` | wail-app/session.go:428-437 | a UI change sets the tempo and always declares it, under a stamp that beats the one held |
| `Tempo.Session.LinkTempoChanged` | wail-app/session.go:1047-1060 | a declaration is made if and only if the tempo observed differs by more than 0.01: of that tempo, under a stamp that beats the one held, both of which the session then holds; otherwise nothing changes |
| `Tempo.Session.TempoDeclare` | wail-app/session.go:853-866 | adopts the stamp by the rule, and the tempo only where it differs |
| `CaptureRing.StepKeepsInv` | wail-app/internal/abllink/capture.c:67-151 | every single access of either thread, under every staleness of the indices, keeps the ring's invariant |
| `CaptureRing.RingIsSafe` | wail-app/internal/abllink/capture.c:67-151 | THE RING: pops are an in-order, untorn prefix of what was accepted; produced = popped + in the ring + dropped; no access touches a slot the other thread writes |
| `CaptureRing.PopStartsIff` | wail-app/internal/abllink/capture.c:104-120 | a pop takes a buffer if and only if the index it loads is ahead of its own |
| `CaptureRing.PopFinishes` | wail-app/internal/abllink/capture.c:121-145 | each of its accesses leaves fewer to make, whatever the callback does meanwhile; the last hands over the oldest buffer, cut to the room given, and frees its slot |
| `CaptureRing.PushFinishes` | wail-app/internal/abllink/capture.c:80-99 | a callback not turned away publishes its buffer likewise |
| `CaptureRing.NoClash` | wail-app/internal/abllink/capture.c:85-99 | the slot being written is never the slot being read |
| `CaptureRing.DropsOnlyWhenFull` | wail-app/internal/abllink/capture.c:76-83 | a full ring always drops and counts; with the true read index and a free slot a buffer is accepted, clipped to the slot |
| `TempoDetector.CandidateHolds` | wail-app/link_types.go:216-232 | a pending candidate always stands for an unbroken case, and no echo guard is armed while one is pending |
| `TempoDetector.ReportsAreHeld` | wail-app/link_types.go:176-232 | HOLD-DOWN: every report ends an unbroken run of readings spanning at least holdDown, each judged within steadyBand of the first and beyond the bar from an unmoved baseline, unguarded |
| `TempoReports.LastingChangeIsReported` | wail-app/link_types.go:196-232 | the converse: an unbroken case for a new tempo that reaches a reading at least holdDown after its first has been reported by then |
| `TempoReports.CaseOpens` | wail-app/link_types.go:207-220 | such a case opens at any unguarded reading judged beyond the bar while none is pending, or none within the steady band |
| `TempoReports.JudgedOn` | wail-app/link_types.go:176-206 | a reading is judged as it is when far from the baseline, on the average over the window when near it |
| `TempoReports.WindowIsRecent` | wail-app/link_types.go:268-276 | the window holds exactly the readings no older than its length, the new one included |
| `TempoReports.ReportBecomesBaseline` | wail-app/link_types.go:222-231 | what is reported becomes the baseline and closes the case; no other reading moves the baseline |
| `TempoReports.BarIs` | wail-app/link_types.go:247-252 | the bar is the fixed one, or the larger of the floor and 0.05% of the baseline |
| `TempoReports.SnapsToTheNearest` | wail-app/link_types.go:234-242 | a report is the nearest whole tempo where one lies within the radius, else the tempo judged |
| `TempoReports.GuardSilences` | wail-app/link_types.go:165-195 | from the moment an echo guard is armed, nothing read before it runs out is reported, moves the baseline or counts towards a case |
| `TempoReports.GuardRunsOut` | wail-app/link_types.go:187-195 | the first reading at its expiry or later lays it down |
| `TempoDetector.ReportsAreApart` | wail-app/link_types.go:222-231 | two reports are at least holdDown apart |
| `TempoDetector.WobbleIsNeverReported` | wail-app/link_types.go:196-214 | from a fresh detector, or any whose window holds only samples inside the bar, readings that stay inside the bar are never reported, and never move baseline or bar |
| `TempoDetector.FreshIsCalm` | wail-app/link_types.go:153-163 | a new detector is such a one |
| `TempoDetector.ReportRepeatsBaselineIff` | wail-app/link_types.go:234-242 | a report equals the baseline exactly when that is a whole tempo and the judged value rounds to it within the snap radius |
| `TempoDetector.SteadyOffsetIsReportedAsBaseline` | wail-app/link_types.go:176-242 | it happens: at 120 BPM a steady 120.08 is reported as 120 |
| `TempoDetector.TempoChangeDetector.Fold` | wail-app/link_types.go:268-276 | the window gains the reading and loses what has aged out at its front |
| `TempoDetector.TempoChangeDetector.MeanOfWindow` | wail-app/link_types.go:254-264 | the mean of the window, or the baseline when it is empty |
| `TempoDetector.TempoChangeDetector.CheckReading` | wail-app/link_types.go:176-232 | one reading on the whole state, and what it reports |
| `TempoDetector.TempoChangeDetector.Arm` | wail-app/link_types.go:165-171 | arming the echo guard drops the candidate |
| `TempoDetector.TempoChangeDetector.SetLast` | wail-app/link_types.go:285-294 | a valid baseline replaces the old one and drops the candidate; an invalid one changes nothing |
| `TokenBucket.AdmitsExactly` | signaling-server/main.go:148-161 | THE BUCKET IS EXACT: from full, a sequence of arrivals is admitted whole if and only if every window of them holds at most burst + rate x elapsed |
| `TokenBucket.NothingIsMinted` | signaling-server/main.go:134-161 | CONSERVATION: across any rescales, admitted plus left never exceeds the initial tokens plus the sum of rate x elapsed, and what is left is never negative |
| `TokenBucket.RescaleGivesMoreIff` | signaling-server/main.go:134-146 | exactly when a rescale leaves more than the bucket could have held: the refill overflows the old maximum and the new one is larger, which the comment above rescale rules out |
| `TokenBucket.RescaleCanGiveMore` | signaling-server/main.go:134-146 | it happens: 20 tokens at most become 40 |
| `TokenBucket.Limiter.Admit` | signaling-server/main.go:148-161 | refill, clamp, and take one token if there is one |
| `TokenBucket.Limiter.Reconfigure` | signaling-server/main.go:137-146 | refill at the old rate, clamp only to the new maximum |
| `LossWalk.WalkIsPlaces` | wail-app/internal/emit/plc.go:26-36 | walking k slots reaches exactly the slot k places on in the sender's linear order, and exists exactly as far as lengths are known |
| `LossWalk.LostIsExact` | wail-app/internal/emit/plc.go:12-21 | SOUND AND COMPLETE: slots are named exactly when a gap is claimed, room is given and next lies gap + 1 places after prev; they are the first min(gap, max) places after prev |
| `LossWalk.MissingSlots` | wail-app/internal/emit/plc.go:22-55 | the loop computes that walk |
| `SlotTable.PollKeeps` | plugins/wail_recv.c:396-500 | ids of taken slots stay distinct through every poll, and after every poll names are too |
| `SlotTable.GoneAtSixth` | plugins/wail_recv.c:413-421 | a slot is freed as gone at exactly the sixth poll in a row without its id |
| `SlotTable.KeptUnlessTwin` | plugins/wail_recv.c:480-492 | otherwise it is freed exactly when a lower slot has come to carry its name, and keeps its channel if not |
| `SlotTable.MissesAreAStreak` | plugins/wail_recv.c:413-421 | the miss counter is exactly the number of latest polls in a row without the slot's channel: that many missed it, and the poll before them listed it |
| `SlotTable.ChannelsAreDroppedForCause` | plugins/wail_recv.c:396-500 | THE SLOT TABLE: over any sequence of polls a slot loses its channel only after six polls in a row without it or to a lower slot of the same name |
| `SlotTable.KeepsPortIff` | plugins/wail_recv.c:427-492 | exactly when a slot whose channel is listed, once, under a name of its own keeps it through a poll, whatever name that is: every lower slot still carrying that name has its own channel listed too, or is freed as gone by this very poll |
| `SlotTable.PortSurvivesRenamesIff` | plugins/wail_recv.c:427-492 | and over any number of polls: it keeps its port throughout exactly when no poll finds a stale lower slot of its new name |
| `SlotTable.StaleNameFreesTheLiveChannel` | plugins/wail_recv.c:480-492 | a concrete poll at which it does not: the only live channel of a name loses its port to a slot of a channel no longer listed |
| `SlotPorts.NewChannelGetsAPort` | plugins/wail_recv.c:424-478 | a listed channel of the room under an id and name no port and no other channel has gets a port of its own, if its subscription succeeds and free ports outnumber the newcomers before it; the first newcomer gets the lowest one free |
| `SlotPorts.TakesOnePort` | plugins/wail_recv.c:424-478 | a channel takes at most one port, and none if it has one, is none of the room's, or its subscription fails |
| `SlotPorts.FirstComeIsServed` | plugins/wail_recv.c:446-457 | FIRST COME, FIRST SERVED: a channel still listed under the name it carries keeps its port whatever newcomers are listed under that name, and none of them gets one |
| `SlotPorts.OnlyTheRoomIsCarried` | plugins/wail_recv.c:424-426 | over any polls every port taken carries a channel of the room |
| `SlotTable.Manager.Age` | plugins/wail_recv.c:412-421 | the first pass, in place |
| `SlotTable.Manager.Assign` | plugins/wail_recv.c:424-478 | the second pass for one channel: relabel its owner, refuse a carried name, or take the first free slot |
| `SlotTable.Manager.Reconcile` | plugins/wail_recv.c:480-492 | the third pass frees exactly the slots with a lower twin |
| `SlotTable.Manager.PollOnce` | plugins/wail_recv.c:396-495 | the three passes together |
| `Waif.Encode` | wail-app/wire.go:85-120 | the fields land at their offsets: the buffer is the header, the payload, and the trailer of a final frame |
| `WaifBytes.FrameBytes` | wail-app/wire.go:8-18 | every byte on the wire: the magic, the two flag bits, each field little-endian at its offset, negative interval indices in two's complement, the payload, and the trailer of a final frame |
| `Waif.RoundTripIff` | wail-app/wire.go:85-174 | THE CODEC: decoding an encoded frame returns it if and only if it is mono or stereo, its payload is under 65536 bytes, and only a final frame has a trailer |
| `Waif.ReEncodes` | wail-app/wire.go:85-174 | re-encoding what was decoded gives back the bytes read, but for undefined flag bits |
| `Waif.PeekAgrees` | wail-app/wire.go:34-66 | whenever decoding succeeds the header parser succeeds with the same header |
| `Waif.PeekAcceptsMoreIff` | wail-app/wire.go:34-66 | it accepts more in exactly one case, a non-final frame whose payload is cut short; so on final frames the two succeed together |
| `Waif.PeekAcceptsCutShort` | wail-app/wire.go:34-66 | it happens: a concrete 25-byte frame |

## Left out

- Ableton Link, Opus, WebSockets, SQLite, HTTP, the UI, logging, plugin installation, file rotation and the recorder: not part of this model.
- Metronome and test-tone synthesis, the programme generator, offset estimation and round-trip medians: no exact specification.
- `float64` rounding and the wrap-around of 64-bit indices, counters and the ring's `size_t` indices.
- Windows and completed intervals are copies; the original returns slices of the interval's buffer, to be used before more audio is added. A buffer's `numFrames` is its own length.
- Intervals shorter than one window, or of no frames: required absent, as the original's loops do not terminate or overwrite a held window there.
- Order across calls under re-anchors: order is claimed within a call (`AssemblerCalls.EveryCallIsInOrder`); across calls a stranded window may come out after later ones.
- AssemblerContent.WindowsCarryWhatWasLaid: an interval's length is known to it only through its number of windows.
- DriftControl.DriftStaysBounded: asks for a sample rate at which the deadband plus 4 lies below the re-anchor threshold, which every rate of at least 20 Hz meets.
- PacedReader.BoundaryStampsMeet: tempos below 1 BPM, at which interval lengths are clamped but stamps are not, fall outside it.
- EndToEnd.WhatComesOutIsWhatWentIn: consecutive rounds are released at consecutive boundaries of a grid equal to the sender's, and what has arrived is handed to each tick; EngineEndToEnd.EnginePlaysTheSource states both of a run of the engine.
- PlaybackLoss.SeamlessIff: ticks in the same local interval or the next; a stall over a whole interval is covered only by PlaybackLoss.TicksNeverGoBack.
- FeederRuns.NeverTwiceNeverBack: covers the readers between two `SetCurrent` calls; a fresh reader after a failed promotion restarts at frame 0. Where a rebase leaves the reader past its own end, the next round's positions are counted from where it stands. `SkipFrames`, which nothing in the engine calls, is specified but not an event of these runs.
- Reassembler partials, the sender's streams and their feeders inside `SenderState` are values in a map the methods reassign, not objects shared by pointer.
- SenderRounds.SenderState.OnBoundary: the logs of skipped and incomplete rounds, and the folding of a retired stream's counters into the engine's totals, are not modelled.
- Playout.Adaptive.OnBoundary: the original sorts with the standard library; the model sorts by insertion.
- LossWalk.MissingSlots: nil and empty results are not told apart.
- The second Link Audio ring in plugins/wail_link.cpp, `ShiftedPCM`, the retired scheduler and the legacy `TempoChange`, anchor-adoption and founding paths.
- CaptureRing.RingIsSafe: the ring is a machine on values that takes one access at a time, not arrays updated by methods, as the interleaving is the point; slot contents are read in program order; that this is what acquire and release give rests on the absence of a clash, which is proved.
- SlotTable.Manager.PollOnce: subscribing is a flag of the listed channel saying whether it would succeed; port labels, audio sources and render state are not modelled.
- Peer names, the tempo detector's mutex, room-configuration values and the pacing of the sender.
