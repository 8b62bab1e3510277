# Queues, protocols and timestamps of the FFmpeg tools

A Dafny model of the plumbing in `fftools/` that moves packets and frames between threads and
keeps their timestamps in order, with proofs of what that code promises. `dafny verify
dfyconfig.toml` checks everything.

State-changing C code is a class with the same fields and loops; each method is proved to compute
a specification function, and the lemmas are about those functions, over every run. Code that is
run by several threads is a state machine besides: one step per mutex-held section, or per single
assignment where the code moves indices outside the mutex.

| file | what it models |
|---|---|
| Time, Rescale64, Gcd | Timestamps as instants; `av_rescale_rnd` and `av_compare_ts` on 64-bit words, with the 128-bit division written out; `av_gcd`. `Rescale64` proves when the 64-bit results are the exact ones `Time` uses. |
| SyncModel, SyncHeads, SyncSamples, SyncRuns, SyncSetup, SyncCounters, SyncDelivery, SyncLimits, HeartbeatRounding, SyncBuffering, SyncBeats, SyncFinish, SyncAnswers, SyncExamples, SyncQueue | The sync queue: N FIFOs released in step, the cached head stream, the finish closure, the audio re-chunker, the overflow heartbeat. |
| ThreadQueue, ThreadQueueRuns, ObjPool | The bounded multi-stream queue with one condition variable and spurious wake-ups, and the object pool. |
| DecoderProtocol, DecoderProgress | Main thread and decoder thread over two thread queues: what every step keeps, and that every call ends. |
| FrameQueue | The player's frame ring at the granularity of single index moves. |
| FrameRate | Frame-rate conversion: decision, duplicate and drop counters, emission loop. |
| MuxTimestamps, PreStart | DTS repair before muxing and in the player's copy path; packets buffered before the muxer starts. |
| LoopTiling, SampleRate | Timestamps of looped input; the time base of decoded audio. |

Conventions: NOPTS is the 64-bit sentinel, so that the end of a frame without pts is what the C
code computes. Code that is not modelled (the alignment test of a buffer, the allocator, the
muxer's `tq_send`, what a decoder makes of a packet) answers through an arbitrary parameter.

## What turned out not to hold

Each of these has a concrete input, beside a lemma that says exactly when the code is right:

- A change of a stream's time base can move its head back behind frames already released
  (`SyncExamples.RoundedBaseMovesBack`, a run from a new queue). `SyncHeads.SendFrameSoundIff` says
  which sends keep heads and finish closure in order; the results over runs that speak of heads are
  about those (`SafeRun`), the others about all runs.
- A frame limit of zero set between two `sq_add_stream` calls, as the muxer set-up can do, ends the
  whole queue (`SyncSetup.LimitBeforeAddEndsQueue`). `SetupInvIff` says which lists of streams and
  limits the set-up loop gets right, `AddStreamInvIff` when a stream may be added at all.
- With a frame size, more frames come out than the frame limit says
  (`SyncExamples.LimitOvershoots`). `SyncLimits.LimitHoldsIff` says when the limit holds,
  `SamplesLimited` and `DrainedCount` how many come out.
- A new frame size after EOF can bring a stream back (`SyncExamples.ResizeRevives`, a run from a new
  queue). `SyncDelivery.FinalIff` is the exact condition: none of the sizes set revives the stream,
  which `RevivesIff` reads off the queue before the call. The transcoder itself sets the size once,
  when the encoder is opened (`fftools/ffmpeg_enc.c:328`).
- With time bases of very different ticks a heartbeat can round to before the tail it is meant to
  release (`SyncBuffering.CoarseBaseStalls`). `HeartbeatRounding.FineEnoughIff` and `FineForwardIff`
  give the exact ratios, and `CoarseStalls` and `ForwardStalls` a run from a new queue that stalls,
  for every pair of bases beyond them. A limiting stream that finished before the tail blocks it too
  (`RetryGotIff`), and so can a frame size. `SyncBeats.RetryIff` is the exact condition for every queue.
- The duplicate and drop counters are wrong after some first frames
  (`FrameRateProofs.FirstFrameMiscounted`); `CountersTrueIff` says after which runs.
- A packet without dts lets the following dts go back (`MuxTimestamps.MissingDtsForgets`);
  `DtsInOrderIff` says for which input none does.
- The copy path of the player does not make dts increase as its comment says: the last dts is read
  from the packet after `av_interleaved_write_frame`, which leaves it blank
  (libavformat/avformat.h:2351-2352), so none is ever kept (`MuxTimestamps.NothingKept`) and a dts
  that goes back is handed on (`CopyGoesBack`, whose packet libavformat/mux.c:567-576 refuses).
  `CopyIncreasesIff`: the dts handed over strictly increase if and only if those of the input do.
- A ring of one slot with `keep_last` locks up (`FrameRing.OneSlotLocksUp`), by `NotBothWait` no
  other does. The sizes in use are 3, 9 and 16.
- `av_compare_ts` calls a timestamp that overflows in the other base the earlier one
  (`Rescale64.FarTimestampMisordered`); `CompareRightIff` is the exact condition.
- With the 1/28224000 fallback, an audio timestamp can be lost
  (`SampleRateModel.FallbackLosesInstant`); `FallbackExactIff` says when it is kept.

## Model

| member | source | states |
|---|---|---|
| Time.CompareIsCross | libavutil/mathematics.c:147-158 | The comparison of timestamps in different bases gives the exact sign of the cross-multiplied difference, also where it rounds first. |
| Time.CompareIsOrder | libavutil/mathematics.c:147-158 | Comparing timestamps orders them by the instants (seconds) they stand for. |
| Time.RescaleClose | libavutil/mathematics.c:142-145 | Rescaling moves an instant by at most half a tick of the new base. |
| Time.RescaleExact | libavutil/mathematics.c:142-145 | Rescaling keeps the instant if and only if it is a whole number of ticks of the new base. |
| Time.RescaleSame | libavutil/mathematics.c:142-145 | Rescaling to the same base changes nothing. |
| Rescale64.RoundedMeans | libavutil/mathematics.c:74-84 | What each rounding mode means for a * b / c: floor, ceiling, towards zero, away from zero, nearest with halves away, for both signs. |
| Rescale64.WideProduct | libavutil/mathematics.c:94-105 | The half-word products with their carries give a * b + r exactly, in two 64-bit words. |
| Rescale64.LongDivision | libavutil/mathematics.c:107-117 | The shift-and-subtract loop divides two words by c, although its quotient word starts with leftover bits; a quotient over 64 bits leaves the top bit set. |
| Rescale64.DividingStep | libavutil/mathematics.c:107-114 | One turn of the loop keeps the division invariant: quotient, remainder and the bits not yet shifted in still make up the dividend. |
| Rescale64.RescaleSmall | libavutil/mathematics.c:82-91 | Both computations for int-range factors give the exact quotient, or INT64_MIN exactly if it is out of range. |
| Rescale64.DivideFirst | libavutil/mathematics.c:86-90 | Dividing by c before multiplying by b, and rescaling the remainder, gives the same quotient. |
| Rescale64.OverflowTest | libavutil/mathematics.c:86-90 | The overflow test holds if and only if the sum exceeds the 64-bit range. |
| Rescale64.RescaleRnd | libavutil/mathematics.c:58-121 | For all 64-bit arguments and all rounding modes: the exactly rounded value if it is in range, INT64_MIN if not or for a bad factor; the pass-through flag; the clamping of the least number. |
| Rescale64.RescaleQ | libavutil/mathematics.c:134-145 | For all 64-bit timestamps the rescaling between time bases agrees with that of `Time` wherever the result is in range, and is INT64_MIN elsewhere; the least number is rescaled as the next one. |
| Rescale64.CompareTs64 | libavutil/mathematics.c:147-158 | The comparison on all 64-bit words, with the saturating rescaling underneath. |
| Rescale64.CompareRightIff | libavutil/mathematics.c:147-158 | For all 64-bit timestamps: the comparison agrees with the exact order if and only if the operands are small, or the first timestamp in ticks of the second base is in range; and what that means where one of them is INT64_MIN. |
| Rescale64.SameBaseRightIff | libavutil/mathematics.c:147-158 | Timestamps of one base are ordered rightly if and only if they are not INT64_MIN and the number after it. |
| Rescale64.FarTimestampMisordered | libavutil/mathematics.c:147-158 | An input for which the comparison is wrong: the greatest timestamp in seconds counts as earlier than zero milliseconds. |
| SyncHeads.HeadUpdateOk | fftools/sync_queue.c:218-250 | The recomputed head stream is a limiting stream of least head, or none exactly until every limiting stream has a timestamp. |
| SyncHeads.FinishStreamOk | fftools/sync_queue.c:171-216 | Finishing a stream: the finished head is the least finished limiting stream with a timestamp, every stream at or beyond it is finished, the queue is finished exactly if all streams are; no head moves. |
| SyncHeads.FinishExact | fftools/sync_queue.c:171-216 | finish_stream finishes exactly the stream itself and, if it limits and has a head, the timed streams at or past the finished head, which is the old one or this stream; every other stream stays open. |
| SyncHeads.FinishStreamSound | fftools/sync_queue.c:171-216 | Finishing a stream keeps the cached head and the finish closure, and un-finishes nothing. |
| SyncHeads.SettleSound | fftools/sync_queue.c:253-275 | The rest of stream_update_ts after a head has been set: once the head of an unfinished stream has moved forward, in whatever base, the cached head and the finish closure are right again. |
| SyncHeads.UpdateTsSound | fftools/sync_queue.c:253-275 | Moving a head keeps the cached head stream right although it is recomputed only when the head stream itself moves; the new head is at or after the given timestamp. |
| SyncHeads.BeatSound | fftools/sync_queue.c:319-338 | Fake timestamps for lagging streams keep all of this, and heads only move forward. |
| SyncHeads.HeartbeatSound | fftools/sync_queue.c:282-341 | So does a whole overflow check, whichever stream it looks at. |
| SyncHeads.BaseChangeExact | fftools/sync_queue.c:151-169 | A change of time base keeps a stream's head instant if and only if the head is a whole number of new ticks. |
| SyncHeads.DefaultBaseSafe | fftools/sync_queue.c:636-640 | The default base 1/1 can give way to any base 1/d. |
| SyncHeads.SendFrameSoundIff | fftools/sync_queue.c:343-407 | Sending a frame keeps the cached head and the finish closure and moves no head back if and only if its time base is the old one, or the head that comes of the new one (the end of the frame, or the old head rescaled) is not before the old head and, where it is the old head rounded forward, passes nothing it decides. |
| SyncHeads.SafeBaseSends | fftools/sync_queue.c:151-169 | A change of base by which the head stays a whole number of ticks is always safe. |
| SyncHeads.LimitFramesSound | fftools/sync_queue.c:649-659 | So does setting a frame limit. |
| SyncHeads.ReceiveSound | fftools/sync_queue.c:608-618 | So does receiving, with its heartbeat and retry. |
| SyncSamples.TakeSamplesSplits | fftools/sync_queue.c:489-511 | Taking n samples splits the queued samples after the n-th, whether a frame is cut, used up or joined with the next. |
| SyncSamples.TakeSamplesLeaves | fftools/sync_queue.c:489-511 | What is left begins right behind the n-th sample, with a whole frame or the trimmed rest of one. |
| SyncSamples.TakeOutputFrame | fftools/sync_queue.c:448-522 | All but its samples and their length an output frame has from the first frame queued; without a frame size it is that frame. |
| SyncSamples.TakeOutputSplits | fftools/sync_queue.c:530-570 | An output frame carries the front samples of the FIFO, in order, and ends at the timestamp the release test looked at; the counter stays exact. |
| SyncSamples.CutMatchesCopy | fftools/sync_queue.c:459-471 | Cutting by reference and copying hand out the same samples and leave the same FIFO. |
| SyncSamples.SendFrameBuffers | fftools/sync_queue.c:343-407 | Sending appends the frame, its duration set from its samples, to its own FIFO and touches no other. |
| SyncSamples.ReceiveForBuffers | fftools/sync_queue.c:524-582 | A release takes the front of one FIFO and touches no other. |
| SyncSamples.OnlyHeadsKeepsBuffers | fftools/sync_queue.c:171-341 | Finishing, head moves and heartbeats leave all buffers alone. |
| SyncRuns.NewQueueInv | fftools/sync_queue.c:620-647 | The queue with all its streams added satisfies the invariant. |
| SyncRuns.NewQueueAdds | fftools/sync_queue.c:620-647 | That queue is what adding the streams one by one gives. |
| SyncRuns.StepInv | fftools/sync_queue.c:171-673 | Every operation keeps the head, finish and sample invariants, and heads never move back, unless a change of time base upsets them. |
| SyncRuns.StepInvIff | fftools/sync_queue.c:171-673 | And that is the exact condition, for every operation. |
| SyncRuns.StepBasic | fftools/sync_queue.c:343-673 | Every operation, changes of time base included, keeps the buffers and their counts in order. |
| SyncRuns.RunInv | fftools/sync_queue.c:171-673 | So does every run of safe operations, in any order of sends, ends, receives, limits and frame sizes. |
| SyncRuns.NoOvertaking | fftools/sync_queue.c:524-578 | Over every run whose changes of time base are safe, each timestamped frame released ends no later than the final head of every limiting stream. |
| SyncRuns.ReceiveNotOvertaking | fftools/sync_queue.c:608-618 | A received frame ends no later than the heads at that moment, also after a heartbeat. |
| SyncSetup.AddStreamInvIff | fftools/sync_queue.c:620-647 | Adding a stream to a queue in order, at any time, leaves it in order if and only if the queue has not finished and, for a limiting stream, no head has been determined. |
| SyncSetup.SetupState | fftools/ffmpeg_mux_init.c:1893-1937 | What the set-up loop makes of any list of streams and limits: nothing but the first limit decides whether the queue counts as finished. |
| SyncSetup.SetupInvIff | fftools/ffmpeg_mux_init.c:1893-1937 | The set-up loop ends in order if and only if the first stream is not limited to no frames or all streams are. |
| SyncSetup.SetupInOrderIff | fftools/ffmpeg_mux_init.c:1893-1937 | Every state on the way is in order as well if and only if the first stream is not limited to no frames or no stream follows it. |
| SyncSetup.SetupAtEof | fftools/ffmpeg_mux_init.c:1893-1937 | Otherwise every stream not limited to no frames is at EOF before its first frame. |
| SyncSetup.LimitBeforeAddEndsQueue | fftools/ffmpeg_mux_init.c:1893-1937 | The smallest such input: a limit of zero on the first of two streams. |
| SyncSetup.Reachable | fftools/sync_queue.c:171-275 | From a set-up in order, over every run whose changes of base are safe, the cached head agrees with full recomputation and the finish closure holds. |
| SyncDelivery.StepStream | fftools/sync_queue.c:343-618 | What any operation does to one stream's FIFO: append, take an output frame, or nothing. |
| SyncDelivery.SampleConservation | fftools/sync_queue.c:391-578 | Over every run, samples put out followed by samples queued are the samples sent, in order, and the counter is their exact number; changes of time base do not matter. |
| SyncDelivery.FrameConservation | fftools/sync_queue.c:556-568 | Without a frame size, whole frames pass through unchanged and in order over every run. |
| SyncDelivery.StepEofIsDead | fftools/sync_queue.c:580-605 | A stream for which EOF is reported is finished and has nothing more to release. |
| SyncDelivery.DeadStays | fftools/sync_queue.c:343-618 | No operation makes a stream release again that has finished and cannot release, but a new frame size that revives it; and none changes which sizes do. |
| SyncDelivery.DoneStays | fftools/sync_queue.c:343-618 | A finished and drained stream stays so whatever follows, a new frame size included. |
| SyncDelivery.RevivesIff | fftools/sync_queue.c:524-553 | What a caller of sq_frame_samples can look at: a size revives a finished stream if and only if frames are queued and the end of the first one, cut to that size or to what is queued, is unknown or not after the head of the queue. |
| SyncDelivery.EofIsFinal | fftools/sync_queue.c:580-605 | Once EOF was returned for an index, or for all, no later call of the run yields a frame of it, unless a later frame size revives it, as the queue stood at the EOF. |
| SyncDelivery.ResizeReleases | fftools/sync_queue.c:661-673 | And one that revives it makes the next receive for the stream yield a frame. |
| SyncDelivery.FinalIff | fftools/sync_queue.c:580-605 | So the end of a stream is final, over all runs that set its frame size to values of a given set only, if and only if no value of the set revives it. |
| SyncDelivery.Reframing | fftools/sync_queue.h:78-79 | With non-empty input frames and a constant frame size, every output frame has exactly that many samples, except possibly the last. |
| SyncDelivery.ReframedStarts | fftools/sync_queue.c:409-522 | With contiguous input in base 1/rate, the k-th output frame starts exactly k frame sizes after the first queued sample. |
| SyncCounters.StepCounters | fftools/sync_queue.c:391-404 | What each operation does to a stream's counters and limit; a stream at its limit is finished. |
| SyncCounters.StepFlag | fftools/sync_queue.c:208-213 | No operation calls the queue finished while a stream is not. |
| SyncLimits.LimitFinishes | fftools/sync_queue.c:391-404 | In every reachable state a stream that has sent its limit of frames is finished. |
| SyncLimits.LimitObeyed | fftools/sync_queue.c:391-404 | Without a frame size, frames_sent is the number of frames accepted over the run, never more than the limit. |
| SyncLimits.SamplesCounted | fftools/sync_queue.c:391-397 | samples_sent is the number of samples accepted over the run, and frames_sent the whole output frames in them. |
| SyncLimits.SamplesLimited | fftools/sync_queue.c:391-404 | With a frame size the limit counts whole output frames in the samples sent, so the samples before the last frame accepted are fewer than the limit allows. |
| SyncLimits.DrainedCount | fftools/sync_queue.h:78-79 | A drained stream has put out exactly the samples sent divided by the frame size, rounded up. |
| SyncLimits.LimitHoldsIff | fftools/sync_queue.c:399-404 | So no more frames come out than a limit allows if and only if the samples sent fit in that many frames. |
| SyncExamples.RoundedBaseMovesBack | fftools/sync_queue.c:151-169 | A run from a new queue in which an unsafe change of base breaks this: a fake head of 17 s in base 1/1, a frame released up to it, then a first frame in base 1001/30000. |
| SyncExamples.LimitOvershoots | fftools/sync_queue.c:399-404 | A run with a limit of one frame of 100 samples in which one frame of 250 makes three come out. |
| SyncExamples.ResizeRevives | fftools/sync_queue.c:661-673 | A run from a new queue: EOF is returned for a stream with 10 samples left, its frame size goes from 10 to 5, and a frame of it comes out. |
| HeartbeatRounding.FineEnoughIff | fftools/sync_queue.c:319-332 | A fake timestamp, one tick past the tail and rescaled to the lagging stream's base, reaches the tail for all timestamps if and only if half of p is at most q, where p/q in lowest terms is the ratio of the two ticks. |
| HeartbeatRounding.FineForwardIff | fftools/sync_queue.c:319-332 | For fake timestamps after zero, where ties round up, the exact condition is that half of p less one is at most q. |
| HeartbeatRounding.FineNeverLoses | fftools/sync_queue.c:319-332 | The one direction, timestamp by timestamp. |
| HeartbeatRounding.CoarseLoses | fftools/sync_queue.c:319-332 | The other: beyond that ratio some timestamp is rounded to before the tail. |
| HeartbeatRounding.TwoTicksFine | fftools/sync_queue.c:319-332 | One shared base, or a tick of at most two of the other's, is fine enough. |
| SyncBuffering.MostAheadIsLatest | fftools/sync_queue.c:288-305 | Without a given stream the one checked has the latest head; there is none exactly if no stream has a timestamp. |
| SyncBuffering.BeatReaches | fftools/sync_queue.c:319-338 | After the heartbeat loop every other limiting stream is at or past the tail that was held back, if those that had finished were and the others have a base fine enough. |
| SyncBuffering.HeartbeatReleases | fftools/sync_queue.c:608-618 | A fired heartbeat makes the retry return a frame, in the setting of the bound. |
| SyncBuffering.BoundedBuffering | fftools/sync_queue.c:282-341 | Whenever a receive asks for more input, the checked stream buffers less than the limit between tail and head, and nothing changed; limiting streams may have finished at or past the tail, and a frame of a fixed size may not end after it. `SyncBeats.RetryIff` is the exact condition. |
| SyncBuffering.RetryGotIff | fftools/sync_queue.c:608-618 | Without a frame size and with bases fine enough, the retry for a given stream returns a frame if and only if every other limiting stream that has finished is at or past the tail. |
| SyncBuffering.CoarseStalls | fftools/sync_queue.c:314-338 | For every pair of bases not fine enough and every buffer size a run of four operations from a new queue reaches one whose heartbeat fires and whose retry still asks for more. |
| SyncBuffering.ForwardStalls | fftools/sync_queue.c:314-338 | And one with a tail at or after zero beyond the ratio for those. |
| SyncBuffering.CoarseBaseStalls | fftools/sync_queue.c:314-338 | An input: tenths of a second against whole seconds. |
| SyncBeats.BeatIs | fftools/sync_queue.c:319-338 | The heartbeat loop in closed form: every stream ends as a function of the queue before the loop, whatever the loop did to the streams before it. |
| SyncBeats.UpdateOne | fftools/sync_queue.c:253-275 | Where the finish closure holds, moving a head finishes its own stream, exactly when it meets the finished head, and no other. |
| SyncBeats.InternalGotIff | fftools/sync_queue.c:524-605 | A receive yields a frame if and only if a stream it asks has enough samples queued, or finished, and a first output that ends at or before every limiting head: the cached head decides the same. |
| SyncBeats.RetryIff | fftools/sync_queue.c:608-618 | After a heartbeat the retry yields a frame if and only if one ends at or before every limiting head with the fake timestamps in place, for every queue, mix of bases, frame size and set of finished streams. |
| SyncFinish.StepFinishedIff | fftools/sync_queue.c:171-673 | After any safe operation a stream has finished if and only if it had, or the operation ends it (its end of file, or a send or a limit at which its limit is reached), or its head is at or past the finished head. |
| SyncFinish.FinishedIff | fftools/sync_queue.c:171-673 | Over every safe run a stream has finished if and only if it has ended itself in that sense, or a limiting stream that has ended itself lies at or before its head. |
| SyncAnswers.SendHeads | fftools/sync_queue.c:343-397 | An accepted frame puts its stream's head at the end of the frame unless the head, in the frame's base, is there or further; no other head moves. |
| SyncAnswers.BaseChangeClose | fftools/sync_queue.c:151-169 | A change of base moves a head by at most half a tick of the new base. |
| SyncAnswers.TicksClose | fftools/sync_queue.c:129-133 | The length of n samples is right to half a tick in any base. |
| SyncAnswers.TrimClose | fftools/sync_queue.c:409-430 | What is left of a cut frame has the remaining samples, starts where the cut ended and lasts as long as they do, each to half a tick, in any base. |
| SyncAnswers.EnoughReleases | fftools/sync_queue.c:534-556 | With samples of one frame size queued and no limiting head before their end, a receive yields a frame. |
| SyncAnswers.TooFewHeld | fftools/sync_queue.c:534-535 | With fewer, as long as the stream is open, it is told to try again. |
| SyncAnswers.InternalAnswer | fftools/sync_queue.c:524-605 | What a receive answers, for one stream or all: a frame of the first stream asked that passes; else EOF if each has finished and is drained, or all have finished; else EAGAIN. |
| SyncAnswers.AnsweredAtOnce | fftools/sync_queue.c:608-618 | Where that is not EAGAIN, no heartbeat follows and no head moves. |
| SyncAnswers.HeartbeatIff | fftools/sync_queue.c:282-317 | A heartbeat is due if and only if the stream asked for, or the first of those most ahead, has queued a first frame of known end that lies the length of the buffer behind its head, to the nearest microsecond. |
| SyncAnswers.QuietBelow | fftools/sync_queue.c:314-317 | Below that limit the heads stay and the receive is one without a heartbeat. |
| SyncAnswers.FakeTimestamp | fftools/sync_queue.c:319-338 | A heartbeat moves exactly the other open streams without a head or with one before the tick past the tail, to half a tick of there, and a tick on at least. |
| SyncQueues.SyncQueue.constructor | fftools/sync_queue.c:675-697 | A new queue has no streams, no head and no finished head. |
| SyncQueues.SyncQueue.AddStream | fftools/sync_queue.c:620-647 | Appends a stream with no timestamp, base 1/1 and no frame limit, and returns its index. |
| SyncQueues.SyncQueue.FinishStream | fftools/sync_queue.c:171-216 | The code with its two loops computes `SyncModel.FinishStream`. |
| SyncQueues.SyncQueue.MarkLoop | fftools/sync_queue.c:191-205 | The marking loop finishes exactly the timed streams at or beyond the finished head. |
| SyncQueues.SyncQueue.QueueHeadUpdate | fftools/sync_queue.c:218-250 | The two loops compute `SyncModel.HeadUpdate`. |
| SyncQueues.SyncQueue.StreamUpdateTs | fftools/sync_queue.c:253-275 | Computes `SyncModel.UpdateTs`. |
| SyncQueues.SyncQueue.OverflowHeartbeat | fftools/sync_queue.c:282-341 | Computes `SyncModel.Heartbeat`, new state and answer. |
| SyncQueues.SyncQueue.FindMostAhead | fftools/sync_queue.c:288-305 | Finds the first stream with the latest head, or -1. |
| SyncQueues.SyncQueue.FindTail | fftools/sync_queue.c:309-312 | Finds the end of the first queued frame that has one. |
| SyncQueues.SyncQueue.BeatLoop | fftools/sync_queue.c:319-338 | Sends fake timestamps to exactly the lagging streams, in order. |
| SyncQueues.SyncQueue.SendEof | fftools/sync_queue.c:353-357 | A null frame finishes the stream. |
| SyncQueues.SyncQueue.Send | fftools/sync_queue.c:343-407 | Computes `SyncModel.SendFrame`; refuses exactly a finished stream and then changes nothing. |
| SyncQueues.SyncQueue.Limit | fftools/sync_queue.c:649-659 | Computes `SyncModel.LimitFrames`. |
| SyncQueues.SyncQueue.SetFrameSamples | fftools/sync_queue.c:661-673 | Sets the frame size of one stream only. |
| SyncQueues.SyncQueue.ReceiveSamples | fftools/sync_queue.c:448-522 | By reference or by copying, whatever the alignment: the first n queued samples with the first frame's properties and their own duration. |
| SyncQueues.SyncQueue.CopySamples | fftools/sync_queue.c:489-511 | The joining and cutting loop hands out the first n samples and leaves the rest, never reading an empty FIFO. |
| SyncQueues.SyncQueue.ReceiveForStream | fftools/sync_queue.c:524-582 | Computes `SyncModel.ReceiveFor`, whatever the alignment. |
| SyncQueues.SyncQueue.TestRelease | fftools/sync_queue.c:532-556 | Decides whether the next frame may be released and how many samples it takes. |
| SyncQueues.SyncQueue.TakeFrame | fftools/sync_queue.c:557-568 | Moving a frame out whole and re-chunking give the same frame and the same rest. |
| SyncQueues.SyncQueue.ReceiveAny | fftools/sync_queue.c:584-606 | Computes `SyncModel.ReceiveInternal`: the first stream with output, EOF exactly if all are at EOF. |
| SyncQueues.SyncQueue.Receive | fftools/sync_queue.c:608-618 | Computes `SyncModel.Receive`: one retry if heartbeats were sent. |
| ThreadQueues.ThreadQueue.constructor | fftools/thread_queue.c:79-118 | A new queue is empty with no stream finished. |
| ThreadQueues.ThreadQueue.Send | fftools/thread_queue.c:120-159 | A mutex-held section of a send: new state, answer, and a broadcast exactly if the FIFO changed. |
| ThreadQueues.ThreadQueue.Receive | fftools/thread_queue.c:196-224 | A turn of a receive: new state, answer, and a broadcast exactly if the FIFO length changed. |
| ThreadQueues.ThreadQueue.ReceiveSection | fftools/thread_queue.c:161-194 | Items of closed streams are dropped, then the first other item, a first end of stream, all done, or nothing yet. |
| ThreadQueues.ThreadQueue.ReceiveEnded | fftools/thread_queue.c:177-193 | Reports and marks the first stream that ended and was not yet reported. |
| ThreadQueues.ThreadQueue.SendFinish | fftools/thread_queue.c:226-239 | Sets one send flag, nothing else. |
| ThreadQueues.ThreadQueue.ReceiveFinish | fftools/thread_queue.c:241-254 | Sets one receive flag, nothing else. |
| ThreadQueueAnswers.SendMeans | fftools/thread_queue.c:120-159 | EINVAL exactly after the end was sent, EOF exactly if the receiver has closed the stream, a wait exactly if the queue is full, else the item is queued last. |
| ThreadQueueAnswers.ReceiveMeans | fftools/thread_queue.c:161-194 | The first queued item of an open stream, in the order of the sends over all streams; else the first unreported end; else all done, or a wait exactly while a stream is open. |
| ThreadQueueRuns.SameFifo | fftools/thread_queue.c:161-213 | A receive that leaves the FIFO length alone, and so broadcasts nothing, found it empty. |
| ThreadQueueRuns.ApplyKeeps | fftools/thread_queue.c:120-254 | Every section and wake-up, also a spurious one, keeps: an unsignalled waiting sender faces a full FIFO of an open stream, an unsignalled waiting receiver would get EAGAIN. |
| ThreadQueueRuns.NoWakeupLost | fftools/thread_queue.c:120-254 | Over every interleaving of any number of threads no wake-up is lost, and never do a sender and a receiver both wait unsignalled. |
| ThreadQueueRuns.DeliveredInOrder | fftools/thread_queue.h:69-73 | Over every interleaving each accepted item is delivered once and in per-stream order unless the receiver closed the stream; an end is reported at most once and nothing of the stream follows. |
| ThreadQueueRuns.FromStart | fftools/thread_queue.c:79-254 | Both hold of every run of any number of threads over a new queue. |
| ThreadQueueRuns.ReceiveStream | fftools/thread_queue.c:161-194 | What a receive does to one stream: its first item, its end once it is empty, or nothing. |
| ThreadQueueRuns.ClosedIsRefused | fftools/thread_queue.h:49-54 | Sending for a stream the receiver has closed gets EOF once and EINVAL from then on; nothing is queued. |
| ThreadQueueRuns.ReceiveProgress | fftools/thread_queue.c:161-194 | Once all senders have finished, every receive that is not told "all done" makes the FIFO length plus the open streams smaller, and none blocks. |
| ThreadQueueRuns.Drains | fftools/thread_queue.c:161-224 | So a consumer alone reaches index -1 within that many receives. |
| ThreadQueueRuns.ApplyLoad | fftools/thread_queue.c:120-254 | Once all senders have finished, no action adds to items, open streams and waiting senders together, and every receive not told "all done" takes from them and never waits. |
| ThreadQueueRuns.DrainsInterleaved | fftools/thread_queue.c:120-254 | Over every interleaving from there, with senders still waiting, at most that many receives are not told "all done". |
| ThreadQueueRuns.AllToldIsFinal | fftools/thread_queue.c:161-194 | And being told so is for good. |
| ObjPoolModel.ExclusiveAndClean | fftools/objpool.c:67-91 | After any run an object handed out is held by nobody else and holds no data. |
| ObjPoolModel.NoneLost | fftools/objpool.c:67-91 | Objects lent and pooled are those allocated less those freed: none leaks, none is freed twice. |
| ObjPoolModel.ReleaseThenGet | fftools/objpool.c:67-91 | Releasing into a pool with room and getting again yields the same object, reset. |
| ObjPools.ObjPool.Get | fftools/objpool.c:67-76 | Takes the last pooled object, or the allocator's answer from an empty pool. |
| ObjPools.ObjPool.Release | fftools/objpool.c:78-91 | Keeps the object if there is room and frees it exactly if not; a null pointer does nothing. |
| DecoderProtocol.StepInv | fftools/ffmpeg_dec.c:689-838 | Every step of either thread keeps the protocol invariant. |
| DecoderProtocol.NeverBothBlocked | fftools/ffmpeg_dec.c:689-838 | In every reachable state, if the main thread has to wait, the decoder has not exited and can go on. |
| DecoderProtocol.Lockstep | fftools/ffmpeg_dec.c:767-811 | Every frame is received in the call whose packet produced it; when dec_packet returns 0 both queues are empty and every frame has been received. |
| DecoderProtocol.StopReachesExit | fftools/ffmpeg_dec.c:80-96 | After the stop signals the decoder is never blocked, every step of it comes closer to its exit, and the join then returns. |
| DecoderProgress.StreamStaysOpen | fftools/ffmpeg_dec.c:689-765 | From the start, over every interleaving in which no end is sent, every frame is processed and decoding neither fails nor ends but in a flush, no side is ever closed, the decoder stays in its loop and dec_packet never begins to stop it. |
| DecoderProgress.ReturnsByMark | fftools/ffmpeg_dec.c:767-813 | Such a call returns in one way only: it takes the mark of its own packet, and has taken every frame produced. |
| DecoderProgress.CallEnds | fftools/ffmpeg_dec.c:689-859 | Every call of dec_packet or dec_free ends, whatever the decoder makes of it and in any interleaving: after 15 steps of the two threads and three more a frame at most, and until then some step is always enabled. |
| DecoderProgress.EndDrains | fftools/ffmpeg_dec.c:786-818 | The call that sends the end has taken every frame when it begins to stop the decoder, which has exited. |
| DecoderProgress.TakenMeans | fftools/ffmpeg_dec.c:793-813 | What dec_packet takes decides how it goes on: the mark returns 0, a frame that was processed goes on, the end or a failed frame begins to stop the decoder. |
| DecoderProgress.FailureEndsStream | fftools/ffmpeg_dec.c:712-744 | A call during which decoding does not succeed, nor end in a flush, never returns 0: the end of the decoder and every error end the stream, in any interleaving after any run. |
| FrameRing.StepInv | fftools/ffplay.c:1085-1161 | Every single index move, size update, fill and clear keeps the ring invariant, in any interleaving. |
| FrameRing.RingSafety | fftools/ffplay.c:1085-1161 | Over every interleaving the slot being written is never one the reader may touch. |
| FrameRing.ReadInOrder | fftools/ffplay.c:1085-1093 | The peeked frame is the one at the reader's position in push order, and the one after it the next. |
| FrameRing.NextMovesByOne | fftools/ffplay.c:1132-1155 | frame_queue_next moves that position by one, nothing else moves it. |
| FrameRing.KeptAfterNext | fftools/ffplay.c:1142-1155 | With keep_last the frame that was in front is the one kept, in slot rindex, after frame_queue_next. |
| FrameRing.KeptPointer | fftools/ffplay.c:2720-2722 | The slot peeked before frame_queue_next is slot rindex after it, whatever the writer did meanwhile: a pointer to the frame stays good. |
| FrameRing.KeptUntilNext | fftools/ffplay.c:2720-2808 | It stays intact, whatever the writer does, until the next frame_queue_next. |
| FrameRing.FreeSlotsEmpty | fftools/ffplay.c:1095-1155 | Over every interleaving every slot that holds no frame still to be shown or kept is empty, and the one the writer gets is. |
| FrameRing.WaitsIff | fftools/ffplay.c:1100-1130 | The writer waits exactly if no slot is free, the reader exactly if every completed push has been passed. |
| FrameRing.NotBothWait | fftools/ffplay.c:1100-1130 | Writer and reader never wait for each other in a ring of two slots or more. |
| FrameRing.OneSlotLocksUp | fftools/ffplay.c:1100-1130 | A run that locks up a ring of one slot that keeps the last frame. |
| FrameQueues.FrameQueue.constructor | fftools/ffplay.c:1045-1064 | A new ring is empty. |
| FrameQueues.FrameQueue.Peek | fftools/ffplay.c:1085-1088 | The slot of the frame in front of the reader, within the ring. |
| FrameQueues.FrameQueue.Push | fftools/ffplay.c:1132-1140 | Run to its end, the code does the two writer steps of `FrameRing`. |
| FrameQueues.FrameQueue.Next | fftools/ffplay.c:1142-1155 | Run to its end, the code does the reader steps of `FrameRing`. |
| FrameRateProofs.PrevWithin | fftools/ffmpeg_filter.c:2000-2050 | With a non-negative duration no more copies of the previous frame are asked for than writes: rounding is monotone. |
| FrameRateProofs.StepBalance | fftools/ffmpeg_filter.c:2060-2082 | A frame keeps written + dropped + pending - duplicated in balance if and only if it asks for no more copies of the previous frame than of all, or at the cutoff leaves no pending frame. |
| FrameRateProofs.Conservation | fftools/ffmpeg_filter.c:1969-2147 | Over every run: written + dropped + pending = received + duplicated. |
| FrameRateProofs.CountersTrueIff | fftools/ffmpeg_filter.c:2060-2082 | Over every run the drop counter is the number of earlier frames never written, and the dup counter the number of writes beyond the first of each, if and only if the first frame is not written only as copies of a missing previous frame or the second asks for copies of it. |
| FrameRateProofs.FirstCount | fftools/ffmpeg_filter.c:2060-2082 | After the first frame the counters are right if and only if it is not itself written only as copies of a missing previous frame. |
| FrameRateProofs.FirstFrameMiscounted | fftools/ffmpeg_filter.c:2033-2082 | An input for which they are wrong: a first frame written twice counts as two duplicates and as pending. |
| FrameRateProofs.Drift | fftools/ffmpeg_filter.c:1990-2052 | In constant-rate mode the input end less the next output position stays in [-2.1, 0.5]. |
| FrameRateProofs.CfrConsecutive | fftools/ffmpeg_filter.c:2097-2136 | Constant rate: output timestamps are consecutive integers. |
| FrameRateProofs.VfrIncreasing | fftools/ffmpeg_filter.c:2039-2044 | Variable rate: output timestamps strictly increase. |
| FrameRateProofs.VfrPlaced | fftools/ffmpeg_filter.c:2039-2044 | Variable rate: a frame is dropped if and only if it ends 0.6 ticks or more before the next position, and otherwise written once, at most 0.6 ticks outside its own time. |
| FrameRateProofs.VfrRunPlaced | fftools/ffmpeg_filter.c:1969-2147 | Over every run exactly those frames are written, once each and in order, each within 0.6 ticks of its time. |
| FrameRateProofs.CfrPlaced | fftools/ffmpeg_filter.c:2026-2037 | Constant rate: which frames are dropped, how often the others are written, how many copies of the previous one fill a gap, and where the frame's own begin and end. |
| FrameRateProofs.WritesIff | fftools/ffmpeg_filter.c:2060-2070 | A frame is written as often as decided unless that is over the limit and not just for itself and a pending one. |
| FrameRateModel.RoundTies | fftools/ffmpeg_filter.c:2030-2047 | Halves go to the even integer. |
| FrameRateConversion.OutputFilter.VideoSync | fftools/ffmpeg_filter.c:1969-2083 | The code computes the decision and the counters of `FrameRateModel`. |
| FrameRateConversion.OutputFilter.Count | fftools/ffmpeg_filter.c:2054-2082 | The counters after a decision. |
| FrameRateConversion.OutputFilter.OutputFrame | fftools/ffmpeg_filter.c:2085-2155 | The emission loop writes the frames `FrameRateModel.Process` names, at consecutive positions. |
| FrameRateProofs.PassthroughOneToOne | fftools/ffmpeg_filter.c:2045-2049 | Passthrough and drop modes write every frame once, at its own rounded time, and count nothing. |
| FrameRateProofs.VscfrIsCfr | fftools/ffmpeg_filter.c:2018-2037 | After the first write the variable-start mode is constant-rate conversion, over every run. |
| FrameRateProofs.LaterVscfr | fftools/ffmpeg_filter.c:2018-2037 | And so it is before it, for a frame less than half a tick ahead. |
| FrameRateProofs.VscfrStart | fftools/ffmpeg_filter.c:2018-2037 | Before it, a gap of half a tick or more moves the output to the frame; no copies fill the gap. |
| MuxTimestamps.GuessIsNearest | fftools/ffmpeg_mux.c:100-110 | The guess for a dts after its pts is the place between the two nearest to the next expected dts. |
| MuxTimestamps.RepairIsLeast | fftools/ffmpeg_mux.c:111-134 | The repair of an ordered packet moves its timestamps no further than any valid repair must. |
| MuxTimestamps.CopyUnchangedIff | fftools/ffplay.c:733-746 | One packet against a given last dts, which the running program never has (`NothingKept`): it is changed beyond filling in a timestamp if and only if its dts is not after the last, and then put one duration behind that. |
| MuxTimestamps.RepairValid | fftools/ffmpeg_mux.c:99-136 | A repaired packet follows the last dts and has pts >= dts; no timestamp is lost or invented. |
| MuxTimestamps.UnchangedIff | fftools/ffmpeg_mux.c:99-136 | A packet passes unchanged if and only if it needs no repair. |
| MuxTimestamps.RefusedIff | fftools/ffmpeg_mux.c:99-136 | A format without timestamps takes every packet as it is, other streams than audio, video and subtitles get the guess only, and a packet is refused if and only if errors are fatal and its dts, the guess included, is too early. |
| MuxTimestamps.DtsIncrease | fftools/ffmpeg_mux.c:99-136 | Over any run, among packets not separated by one without dts, dts strictly increase (do not decrease where the format allows equal ones). |
| MuxTimestamps.DtsInOrderIff | fftools/ffmpeg_mux.c:99-136 | Over any run from the start of a stream, any two dts written are in order, packets without dts between them or not, if and only if every packet that follows such a gap has its dts (or an earlier pts) after the last dts written before it. |
| MuxTimestamps.OrderedIff | fftools/ffmpeg_mux.c:99-136 | The same from any state of the muxer on. |
| MuxTimestamps.PtsNotBeforeDts | fftools/ffmpeg_mux.c:99-136 | Over any run no packet written has pts < dts. |
| MuxTimestamps.ValidUnchanged | fftools/ffmpeg_mux.c:99-136 | Exactly the valid sequences are written unchanged. |
| MuxTimestamps.MissingDtsForgets | fftools/ffmpeg_mux.c:136 | A run in which a packet without dts lets the dts go back, and so not of that kind. |
| MuxTimestamps.CopyKeepsDistance | fftools/ffplay.c:733-746 | One packet against a given last dts, which the running program never has (`NothingKept`): pts - dts is kept, a missing one filled in, and dts put after the last. |
| MuxTimestamps.NothingKept | fftools/ffplay.c:749-755 | No write changes the last dts of any stream: the muxer call leaves the packet blank (libavformat/avformat.h:2351-2352) before its dts is looked at. |
| MuxTimestamps.FilledOnly | fftools/ffplay.c:733-755 | Over every run from the start, every packet is handed to the muxer with its missing timestamp filled in and otherwise as it came; none is ever moved. |
| MuxTimestamps.CopyIncreasesIff | fftools/ffplay.c:732-755 | So the dts handed over for a stream strictly increase if and only if those of its input do, read off in one pass. |
| MuxTimestamps.CopyGoesBack | fftools/ffplay.c:739-755 | A run in which they do not: 10, then 5, where one bumped behind the first would be 11. |
| MuxWriters.MuxStream.WritePacket | fftools/ffmpeg_mux.c:99-136 | The code computes `MuxTimestamps.Repair` and remembers the written dts. |
| MuxWriters.OutputState.WritePacketCopy | fftools/ffplay.c:733-755 | The code hands the muxer the filled-in, possibly bumped packet, and remembers the dts that the packet has after the call. |
| PreStartModel.RefusedIff | fftools/ffmpeg_mux.c:289-329 | ENOSPC exactly if the queue is full, its data over the threshold and the packet limit reached; the capacity bound holds. |
| PreStartModel.SubmitMeans | fftools/ffmpeg_mux.c:267-287 | A packet of an open stream goes to tq_send and only one that is taken leaves it open; an end mark closes it; only another error than EOF is passed on. |
| PreStartModel.QueueMeans | fftools/ffmpeg_mux.c:289-329 | A packet taken is appended and its data counted; a full queue doubles, but to the packet limit at most once its data is over the threshold, and refuses if that is no growth. |
| PreStartModel.QueuesOk | fftools/ffmpeg_mux.c:289-329 | Over every run before the start the data size is that of the queued packets. |
| PreStartModel.DirectIs | fftools/ffmpeg_mux.c:267-287 | Direct submission hands over the packets up to the first end mark, or up to the first that is not taken, that one included. |
| PreStartModel.FlushIsDirect | fftools/ffmpeg_mux.c:515-530 | Flushing a queue hands out what direct submission would have. |
| PreStartModel.FlushStops | fftools/ffmpeg_mux.c:515-530 | A flush takes entries off the queue up to the first that fails, as direct submission of them would, and leaves the others queued. |
| PreStartModel.FlushAllStops | fftools/ffmpeg_mux.c:515-530 | If a start fails, one queue has failed, those of the streams before it are flushed, those behind it untouched. |
| PreStartModel.FlushAllStream | fftools/ffmpeg_mux.c:515-530 | The flush of all streams flushes each on its own. |
| PreStartModel.BufferingIsDirect | fftools/ffmpeg_mux.c:267-348 | Wherever the muxer starts, and whatever fails after it, tq_send gets for every stream the packets, in order, that it would have got with the muxer running from the start, if no packet of that stream was refused before and the start succeeded. |
| PreStartMuxer.Muxer.SubmitPacket | fftools/ffmpeg_mux.c:331-348 | Queues before the start and sends after it. |
| PreStartMuxer.Muxer.ThreadSubmitPacket | fftools/ffmpeg_mux.c:267-287 | Sends a packet of an open stream; anything else, or a refusal, ends the stream; only other errors are passed on. |
| PreStartMuxer.Muxer.Queue | fftools/ffmpeg_mux.c:289-329 | Grows a full queue within its limits and appends, or refuses and changes nothing. |
| PreStartMuxer.Muxer.ThreadStart | fftools/ffmpeg_mux.c:493-533 | Flushes stream by stream and stops at the first error. |
| PreStartMuxer.Muxer.FlushStream | fftools/ffmpeg_mux.c:520-529 | Flushes one queue in order. |
| LoopProofs.PassShifts | fftools/ffmpeg_demux.c:404-428 | A pass shifts every timestamp by the duration it began with. |
| LoopProofs.PassStart | fftools/ffmpeg_demux.c:182-186 | The k-th pass begins with a shift of exactly k file lengths, although minimum and maximum are updated from shifted values. |
| LoopProofs.LoopTiling | fftools/ffmpeg_demux.c:404-428 | Pass k shifts every timestamp of the file by k * (greatest end - least pts). |
| LoopProofs.PassesDisjoint | fftools/ffmpeg_demux.c:404-428 | Every packet of a pass ends before any packet of the next starts. |
| LoopProofs.ExtentExists | fftools/ffmpeg_demux.c:411-424 | Every file with a timestamp has such a length. |
| LoopProofs.NeverShifted | fftools/ffmpeg_demux.c:156-192 | A file without pts is never shifted. |
| LoopDemuxer.Demuxer.SeekToStart | fftools/ffmpeg_demux.c:156-192 | The code computes the next shift and counts the loop down. |
| LoopDemuxer.Demuxer.TsFixup | fftools/ffmpeg_demux.c:404-428 | The code shifts a packet and updates minimum and maximum. |
| GcdModel.AvGcd | libavutil/mathematics.c:37-56 | The binary algorithm computes the greatest common divisor; with a zero argument, the other argument. |
| GcdModel.GcdDivides | libavutil/mathematics.c:37-56 | The gcd divides both numbers. |
| GcdModel.GcdGreatest | libavutil/mathematics.c:37-56 | Every common divisor divides it. |
| GcdModel.GcdTwos | libavutil/mathematics.c:44-48 | Common factors two can be taken out first: as many as the smaller number of trailing zeros. |
| GcdModel.GcdOddPart | libavutil/mathematics.c:52-53 | The gcd with an odd number does not change when factors two are shifted out. |
| GcdModel.Bezout | libavutil/mathematics.c:37-56 | It is a combination of the two numbers. |
| GcdModel.LeastCommonMultiple | fftools/ffmpeg_dec.c:179-189 | prev / gcd * rate divides every common multiple. |
| SampleRateModel.OverflowsIff | fftools/ffmpeg_dec.c:181 | The fallback is taken if and only if the new denominator plus one more sample rate would leave the int range. |
| SampleRateModel.CoarsestBase | fftools/ffmpeg_dec.c:179-189 | The base is the coarsest in which the old base and the new rate both fit. |
| SampleRateModel.OwnBaseIff | fftools/ffmpeg_dec.c:181-194 | The frame's own base is taken if and only if it counts in units 1/den and old base and rate fit into it (at the fallback, the fallback base), and the coarsest one otherwise. |
| SampleRateModel.SameRateKeeps | fftools/ffmpeg_dec.c:175-176 | A frame of the rate in use changes nothing. |
| SampleRateModel.NewBaseMultiple | fftools/ffmpeg_dec.c:179-195 | Old base and new rate both divide the new denominator, also where the frame's own base is kept; the rate's own product is below INT_MAX. |
| SampleRateModel.UpdateExact | fftools/ffmpeg_dec.c:197-201 | Without the fallback the last timestamp and duration are carried over exactly. |
| SampleRateModel.FallbackIsCommon | fftools/ffmpeg_dec.c:186-187 | The fallback denominator is the least common multiple of 192000 and 44100, so every rate dividing one of them fits. |
| SampleRateModel.FallbackExactIff | fftools/ffmpeg_dec.c:181-201 | With it, the timestamp is kept if and only if it is a whole number of new ticks. |
| SampleRateModel.FallbackLosesInstant | fftools/ffmpeg_dec.c:181-201 | An input for which it is not: 48000, 44056, then 44100 Hz, and a last timestamp of one tick. |
| SampleRateModel.EveryRateFits | fftools/ffmpeg_dec.c:166-207 | Over any sequence of rates, until the fallback, every rate seen divides the denominator. |
| SampleRateModel.EveryChangeExact | fftools/ffmpeg_dec.c:166-207 | And each change of base in it is exact. |
| SampleRates.AudioDecoder.SamplerateUpdate | fftools/ffmpeg_dec.c:166-207 | The code computes `SampleRateModel.Update` and returns the base in use. |

## Left out

- SyncFinish.FinishedIff: for runs whose changes of time base are safe, like `NoOvertaking`.
- SyncRuns.NoOvertaking: for runs whose changes of time base are safe; `RoundedBaseMovesBack` is a run that is not.
- SyncDelivery.EofIsFinal: unless a later frame size revives the stream; `FinalIff` shows that the condition is exact.
- SyncDelivery.Reframing: input frames are non-empty and the size is set before the first send, as the header of the queue asks.
- ThreadQueueRuns.DrainsInterleaved: bounds the receives; that the scheduler lets the consumer receive is taken for granted.
- SyncBuffering.BoundedBuffering: needs bases fine enough, finished limiting streams at or past the tail, and with a frame size enough samples and a frame that does not end after the tail; `CoarseStalls` shows why, and `SyncBeats.RetryIff` says exactly which queues it leaves out.
- FrameRateProofs.Conservation: not claimed beyond the duplication cutoff, where the code drops a frame from the books on purpose; `StepBalance` says what happens there.
- MuxTimestamps.CopyIncreasesIff: that the copy path orders the dts of its output whatever the input is not promised, because the code never keeps a last dts. What the muxer does with a packet is an arbitrary answer, but for leaving it blank.
- MuxTimestamps.DtsIncrease: between packets that carry a dts; `DtsInOrderIff` is about all packets.
- PreStartModel.BufferingIsDirect: as long as nothing of the stream is refused before the start and the start succeeds; the answers of `tq_send` depend on the stream and the number of packets handed over for it only.
- ThreadQueueRuns.NoWakeupLost: for a capacity of at least 1; a queue of capacity 0 never accepts anything.
- DecoderProtocol.StopReachesExit: states that every decoder step makes progress and one is always enabled; that the scheduler runs the decoder at all is taken for granted.
- 64-bit overflow of timestamp sums outside `Rescale64`: integers are unbounded there.
- Sync queue: the contents of the sample buffers beyond a sequence of samples (planes, offsets, channel layouts), `frame_is_aligned` (an arbitrary predicate), `sq_free`, allocation failure and its roll-back, and the object pool behind the FIFO, which `ObjPool` models on its own.
- Sync queue: operations between the set-up of a queue and a stream added later are not steps of one run; `AddStreamInvIff` says when such a stream leaves the queue in order, and a run may begin there.
- Thread queue: allocation failure in `tq_send`, `tq_free`, and the move of data between objects.
- Decoder: what `packet_decode` does to a packet (any number of frames, then success, end or error), failure to set up the thread, the audio duration queue, and the calls down-stream when the decoder has ended.
- Frame ring: `abort_request`, `frame_queue_last_pos`, memory ordering between the threads (steps are sequentially consistent), and the packet queue feeding the decoder.
- Frame-rate conversion: the conversion of timestamps to output ticks (times come in as reals), the precision of doubles and of `llrintf` on a float, key-frame flags, the duration of output frames, the warning threshold, the flush with a null frame and its history, and encoder errors.
- Muxing: rescaling to the stream's base (`av_rescale_delta` for copied audio), the file-size limit, the removal of timestamps for VSYNC_DROP, bitstream filters, and the data size kept during the flush.
- Looping: several time bases, the audio duration queue, wrap-around and discontinuity correction, the offset and scale applied before the loop part, and the seek itself.
- Sample rate: `audio_ts_process` around the base, which sets the last timestamp and duration anew (arbitrary values here).
- Option parsing, codec, filter and muxer calls, and everything for display: string plumbing, libraries and user interface.
