# Verified model of the getstream-go-webrtc core

A Dafny model of the parts of the SDK whose behaviour unfolds over unbounded runs, with
proofs of what those parts promise:

- the streaming resampler: a stream delivered in arbitrary pieces, an exact rational read
  cursor, a self-compacting buffer and a frame cutter (`Resample*.dfy`);
- the WAV printer and parser, and the incremental writer that seeks back to patch sizes
  (`Wav.dfy`, `WavWriter.dfy`), over PCM buffers and 32-bit float patterns (`Pcm.dfy`,
  `Float32.dfy`);
- the offer/answer transport: negotiation, deferred ICE restarts, negotiation ids on a
  32-bit ring, candidates that overtake their description, and the event loop with its
  wake-up tokens (`NegotiationId.dfy`, `Transport*.dfy`, `RequestLaws.dfy`, `AnswererLaws.dfy`,
  `DeferralLaws.dfy`, `EventLoop.dfy`);
- RTP timelines on 32-bit and 16-bit rings, sending and receiving (`SampleClock.dfy`,
  `TrackReader.dfy`);
- delta compression of stats reports with its carried baseline (`RtcStats.dfy`);
- the recovery controllers: ICE restarts, the rate limiter, and the reconnect loop
  (`IceRecovery.dfy`, `SlidingWindow.dfy`, `Reconnect.dfy`).

`Bits.dfy`, `Arith.dfy` and `Wrappers.dfy` hold machine integers, the little arithmetic the
proofs share and the option type.

## How it is built

Code that updates state is a class or a method with loops, proved against a specification
function; the laws are lemmas about those functions over every run. The resampler class,
for example, is proved to compute functions of the whole stream so far (`ResampleSpec`),
in which an output frame is a direct convolution over the zero-extended signal and nothing
is ever compacted; `ResampleLaws` then speaks of runs. Protocols are state machines whose
steps are the critical sections and events of the source, with the outside world (pion,
clocks, timers, the network, results of calls) as inputs of each step, so that a law over
all action sequences is a law over all interleavings and all failures.

Floating point arithmetic and the filter kernel are parameters (`FloatOps`): every law of
the resampler holds bit for bit, whatever they compute. What the filter and the downmix
compute is stated by a sample marked among zeros, and where it is heard
(`ImpulseResponse`, `EchoHears`). Samples are 32-bit patterns, and
the two conversions between 16-bit and float samples are modelled down to their bits. The
kernel's reach is the exact rational ceiling of 16 / (0.95 * min(1, outRate / inRate)).

Properties that the code does not have everywhere are stated with their exact condition,
for all inputs, and an input on which they fail:

- pieces cut inside a whole frame lose it, except where the filter keeps partial frames
  (`SplitInvarianceIff`);
- timestamps of the resampler overflow once frames * 10^9 reaches 2^63 (`PtsExactIff`,
  `PtsWraps`), and those of the reader after 2^32 ticks (`TrackReader.PtsExactIff`);
- malformed packets make times repeat or fall back (`TimesIncreaseIff`,
  `MalformedFirstWraps`);
- answers without an id open the "was stable" branch, also to a later one with an id
  (`ReachesStableIff`);
- an owed ICE restart is dropped when CreateOffer or SetLocalDescription fails in the step
  that tries it (`RestartLostIff`), and a request to negotiate when every event that tries
  it ends so (`RequestLostIff`);
- an answer that pion refuses takes the timeout of the outstanding offer with it
  (`WatchAlways`);
- an unchanged stats field cannot be told from one that disappeared (`DeterminedIff`,
  `DeterminedByKeepingIff`);
- onConnected does not reach a timer that a late callback made the controller forget, a
  callback that has fired, or a call about to enter tryRestart (`ConnectedCancelsIff`);
  escalations after close (`EscalationsAfterClose`);
- a found connection resets none of the reconnect loop's outage clock, fast attempts,
  backoff and limiter (`HonoursFastIff`, `WaitsAsDocumentedIff`, `RejoinsLimited`,
  `FoundConnectionKeepsClock`);
- the reconnect backoff wraps below zero if doubling leaves int64 before the cap
  (`BackoffExactIff`); strategies outside the named ones (`LaterAttemptsRejoinIff`,
  `UnnamedLoops`, `BelowNamedStops`).

Three comments of the source say more than the code does. The one on
`escalateReconnectStrategy` says that failures walk towards REJOIN, which holds from FAST,
REJOIN and MIGRATE only (`EscalateReachesIff`); the one on `onDisconnected` says that a
later onConnected cancels the restart, which needs the condition of `ConnectedCancelsIff`;
and the one on `markDisconnected` speaks of the start of an outage, which is that of the
first one since the last successful attempt. The model follows the code.

## Model

| member | source | states |
|---|---|---|
| `ResampleSplit.SplitInvarianceIff` | audio/resample.go:165-206 | for every shape and every list of piece lengths: dividing a stream so gives the same samples as one Write of it, and with a frame size the same buffers and timestamps, for all samples and all arithmetic, if and only if every piece begins between two frames or in the partial frame that ends the stream, or the filter keeps partial frames |
| `ResampleLaws.SplitInvariance` | audio/resample.go:165-206 | any two such divisions of the same samples, in any formats, give the same samples, and with a frame size the same buffers and timestamps; pieces may be empty |
| `ResampleSplit.GoodLengthsSuffice` | audio/resample.go:165-206 | the condition is sufficient, against one Write of the whole |
| `ResampleSplit.BadLengthsShow` | audio/resample.go:249-341 | and necessary: otherwise a mark in the first sample of the first split frame is lost from the division and heard in the whole, with and without downmix and filter |
| `ResampleLaws.BuffersOfRun` | audio/resample.go:173-206 | with a frame size, the exact list of buffers of any run, across any changes of rate or channels, is that of its maximal constant-shape segments resampled and cut independently |
| `ResampleLaws.SamplesOfRun` | audio/resample.go:173-206 | for every frame size, the samples of any run are those of its segments resampled one by one: no segment loses or repeats samples |
| `ResampleLaws.UniformSegments` | audio/resample.go:165-189 | a well-cut stream of one shape is a single segment that depends on its samples alone |
| `ResampleLaws.MixConcat` | audio/resample.go:249-274 | downmixing distributes over a division at a frame boundary |
| `ResampleLaws.MixTail` | audio/resample.go:249-274 | and over one in the partial frame that ends the stream |
| `ResampleLaws.LengthClosedForm` | audio/resample.go:194-206 | N frames and a flush give ceil(N * outRate / inRate) frames; before the flush N when rates match, else ceil((N - halfTaps) * outRate / inRate) or 0 |
| `ResampleLaws.RunLength` | audio/resample.go:165-206 | the number of samples of a whole run over one stream, however divided |
| `ResampleLaws.PassThrough` | audio/resample.go:332-341 | with matching rate and channels the output is the input |
| `ResampleLaws.MatchingRun` | audio/resample.go:332-341 | a whole run with matching rate and channels is the format conversion of the stream's whole frames |
| `ResampleImpulse.ImpulseResponse` | audio/resample.go:249-350 | for every run over one shape: with one sample marked in a silent stream, in any arithmetic where zeros are neutral, every output sample is what the position of the mark, the kernel and the counts of channels say, and the marked channel is heard in the channels that repeat it and in no other |
| `ResampleImpulse.EchoHears` | audio/resample.go:293-317 | where multiplying by the mark gives the weight: a mark at input frame f is heard at output n as the kernel at distance floor(n * num / den) - f and phase n * num mod den, and as silence out of reach or in another channel |
| `ResampleImpulse.RunConvolves` | audio/resample.go:278-321 | every output sample of a run is the sum of the products over all 2 * halfTaps distances at the exact phase, divided by the sum of the kernel over them, or by one where that is zero |
| `ResampleImpulse.DownmixIs` | audio/resample.go:256-274 | a mixed sample is the sum of exactly the channels congruent to its own, divided by their count |
| `ResampleImpulse.StridesCount` | audio/resample.go:263-271 | that count is the number of such channels, in closed form |
| `ResampleImpulse.StereoToMono` | audio/resample.go:263-271 | two channels become ((0 + left) + right) / 2 |
| `ResampleLaws.CutSplit` | audio/resample.go:354-386 | cutting what earlier rounds left gives the spans of cutting everything at once |
| `ResampleLaws.AudioOfCut` | audio/resample.go:354-386 | a round of cutting hands out exactly the frames it takes, each once |
| `ResampleLaws.FixedBuffers` | audio/resample.go:165-206 | with a frame size F, a run over one stream, however divided, gives ceil(total / F) buffers in the configured shape: the i-th begins at frame i * F and has F frames, the last what is left, and its timestamp is its exact position while that fits |
| `ResampleLaws.CutFixed` | audio/resample.go:354-386 | one round of cutting: whole frames only until the flush, then the remainder too |
| `ResampleLaws.CutWhole` | audio/resample.go:354-386 | without a frame size one buffer takes everything there is |
| `ResampleLaws.PtsExactIff` | audio/resample.go:354-386 | a buffer's timestamp is its exact position if and only if frames * 10^9 fits an int64 |
| `ResampleLaws.PtsWraps` | audio/resample.go:354-386 | at 48 kHz, frame 9223372037 has a negative timestamp |
| `ResampleSpec.GcdDivides` | audio/resample.go:241-246 | the gcd divides both rates |
| `ResampleSpec.GcdGreatest` | audio/resample.go:241-246 | every common divisor divides the gcd |
| `ResampleSpec.StepExact` | audio/resample.go:218-239 | reducing the step by the gcd is exact |
| `ResampleSpec.HalfTapsCoverStep` | audio/resample.go:416-432 | the kernel reaches at least one whole step, the bound behind every index and every compaction |
| `ResampleSpec.HalfTapsExact` | audio/resample.go:416-432 | the reach is the least whole number of frames that covers 16 / (0.95 * min(1, outRate / inRate)) |
| `ResampleSpec.CursorStep` | audio/resample.go:318-320 | adding the step with a carried fraction moves the cursor to exactly (n + 1) * stepNum / stepDen |
| `ResampleSpec.OutputsExact` | audio/resample.go:293-321 | output n can be computed from k readable frames if and only if n is below the closed form |
| `ResampleSpec.OutputStable` | audio/resample.go:278-328 | an output frame that is ready never changes, whatever is written later |
| `ResampleSpec.EmittedAgain` | audio/resample.go:354-386 | rounds of cutting compose over a growing stream |
| `ResampleSpec.MakePlan` | audio/resample.go:218-239 | the derived parameters are valid and satisfy the covering bound |
| `Resample.EuclidLoop` | audio/resample.go:241-246 | the loop computes the gcd |
| `Resample.StreamResampler.constructor` | audio/resample.go:135-148 | a new resampler is fresh |
| `Resample.StreamResampler.Write` | audio/resample.go:165-189 | new state and result are those of the whole-stream form: nothing for an empty buffer, an error that changes nothing for an invalid one, else the drained tail of the old shape and the buffers now ready |
| `Resample.StreamResampler.Flush` | audio/resample.go:194-206 | exactly the buffers still due, and a fresh resampler |
| `Resample.StreamResampler.Reset` | audio/resample.go:209-216 | a fresh resampler |
| `Resample.StreamResampler.Configure` | audio/resample.go:218-239 | an empty stream of the given shape, primed with silence |
| `Resample.StreamResampler.Feed` | audio/resample.go:249-274 | the buffer grows by the downmixed samples |
| `Resample.StreamResampler.DownmixLoop` | audio/resample.go:249-274 | the averaging loops compute the per-channel averages of each whole frame |
| `Resample.StreamResampler.TapInRange` | audio/resample.go:293-321 | every tap read lies inside the buffer and is the stream sample at the exact cursor |
| `Resample.StreamResampler.TapLoop` | audio/resample.go:293-321 | the tap loop is the convolution at the exact position |
| `Resample.StreamResampler.ProduceFrame` | audio/resample.go:293-321 | one iteration appends the next output frame and keeps the cursor exact |
| `Resample.StreamResampler.ProduceFiltered` | audio/resample.go:278-328 | everything readable is produced, the cursor stays exact and posInt ends at halfTaps - 1 |
| `Resample.StreamResampler.KeepInRange` | audio/resample.go:323-327 | compaction never slices past the end of the buffer |
| `Resample.StreamResampler.Compact` | audio/resample.go:323-327 | dropping frames moves the base and leaves the absolute position unchanged |
| `Resample.StreamResampler.ProduceDirect` | audio/resample.go:332-341 | with matching rates every whole frame passes through |
| `Resample.StreamResampler.SpreadChannels` | audio/resample.go:346-350 | extra channels repeat the first ones in turn, and earlier frames are untouched |
| `Resample.StreamResampler.Collect` | audio/resample.go:354-386 | the buffers cut from the pending output, their timestamps, and what stays pending |
| `Resample.StreamResampler.CutLoop` | audio/resample.go:354-386 | the loop cuts exactly the specified spans |
| `Resample.RunStream` | audio/resample.go:165-206 | writing any pieces and flushing returns what the whole-stream form says |
| `Resample.ResampleOnce` | audio/resample.go:41-74 | fails exactly on an invalid buffer, keeps the timestamp, and agrees with streaming the buffer if and only if the shapes differ or it holds whole frames |
| `Float32.S16ToF32Exact` | audio/format.go:82-84 | the float of a 16-bit sample v denotes exactly v / 32768 |
| `Float32.S16RoundTrip` | audio/format.go:82-97 | 16-bit to float and back is the identity on every sample |
| `Float32.NarrowsToNearest` | audio/format.go:86-97 | every finite float narrows to the 16-bit sample nearest to 32768 times it, ties away from zero, and beyond the range to the nearer bound |
| `Float32.NearestUnique` | audio/format.go:86-97 | there is only one such sample |
| `Float32.NarrowsSpecials` | audio/format.go:86-97 | the infinities narrow to the bounds and NaN to zero |
| `Float32.NarrowsInOrder` | audio/format.go:86-97 | narrowing keeps the order of all floats, the infinities included |
| `Float32.PatternsInOrder` | audio/format.go:82-97 | positive patterns denote increasing numbers up to infinity, and the sign bit negates |
| `Pcm.ToFloat32` | audio/pcm.go:199-211 | samples widened one by one, everything else kept |
| `Pcm.ToInt16` | audio/pcm.go:183-195 | samples narrowed one by one, everything else kept |
| `Pcm.NarrowWiden` | audio/format.go:82-97 | widening then narrowing gives every 16-bit buffer back |
| `Pcm.Bytes` | audio/pcm.go:164-179 | the loop writes the little-endian encoding |
| `Pcm.FromBytes` | audio/pcm.go:78-100 | decodes whole frames, drops trailing bytes, and fails exactly as validation does |
| `Pcm.BytesRoundTrip` | audio/pcm.go:78-179 | decoding the bytes gives the buffer back if and only if it holds whole frames |
| `Wav.WriteWAV` | audio/wav.go:30-81 | the header, "fmt ", "fact" for floats, and "data", or the validation error |
| `Wav.WriteChunk` | audio/wav.go:83-90 | id, size, payload and a pad byte after odd payloads |
| `Wav.BodySizeExact` | audio/wav.go:30-81 | the announced RIFF size is the number of bytes that follow |
| `Wav.HeaderFields` | audio/wav.go:30-90 | every header field at its offset: tag, channels, rate, byte rate, block align, bits, frame count, and each size as written in its width; then the samples |
| `Wav.ScanSerialised` | audio/wav.go:115-146 | scanning written chunks visits exactly those chunks, in order, whatever their ids, odd sizes and padding |
| `Wav.ApplyAllFails` | audio/wav.go:115-146 | the scan fails if and only if some "fmt " chunk is under 16 bytes |
| `Wav.LastChunkWins` | audio/wav.go:115-146 | after any list of chunks the tag, channels, rate and depth are those the bytes of the last "fmt " chunk say, with the tag 24 bytes in when it is extensible and long enough, and the payload is that of the last "data" chunk |
| `Wav.ReadWAV` | audio/wav.go:98-168 | the scan loop ends on every input and yields the specified parse |
| `Wav.NotWavIff` | audio/wav.go:98-105 | that error means under 12 bytes, or other marks than RIFF and WAVE, and nothing else |
| `Wav.TruncatedTail` | audio/wav.go:115-127 | a last chunk that announces more bytes than there are is read as far as it goes |
| `Wav.ReadableIff` | audio/wav.go:148-168 | a scan is readable if and only if both chunks were seen, rate and channels are positive and the encoding is one of the supported ones; which error otherwise |
| `Wav.FinishRead` | audio/wav.go:148-168 | the checks and conversions after the scan, with each error |
| `Wav.WavFromInt` | audio/wav.go:171-199 | the loops of every integer width |
| `Wav.IntSamplesOneByOne` | audio/wav.go:171-199 | 8-, 24- and 32-bit payloads give one sample for each group of bytes, in order, and a trailing partial frame is dropped |
| `Wav.DoublesOneByOne` | audio/wav.go:201-210 | so do 64-bit floats, each narrowed by itself |
| `Wav.IntSampleTopBytes` | audio/wav.go:171-199 | 24- and 32-bit samples keep their two most significant bytes; an 8-bit sample is the high byte with its bias of 128 taken off |
| `Wav.ParseChunks` | audio/wav.go:98-168 | any list of chunks behind a RIFF/WAVE header parses to what its chunks say |
| `Wav.RoundTrip` | audio/wav.go:30-168 | reading what was written gives the same format, rate, channels and samples if and only if the buffer holds whole frames and its channels and rate fit their header fields |
| `WavWriter.WAVWriter.constructor` | audio/wavwriter.go:47-62 | a header of the final layout with no data yet |
| `WavWriter.WAVWriter.Write` | audio/wavwriter.go:81-90 | emits exactly what the resampler returns; an error changes nothing that was emitted |
| `WavWriter.WAVWriter.Emit` | audio/wavwriter.go:92-103 | appends the bytes of every buffer and counts them |
| `WavWriter.WAVWriter.Close` | audio/wavwriter.go:117-136 | emits the tail and patches the sizes; a second call does nothing |
| `WavWriter.WAVWriter.PatchSizes` | audio/wavwriter.go:138-165 | afterwards the file is the one-shot file of everything emitted |
| `WavWriter.WAVWriter.Patch` | audio/wavwriter.go:167-175 | overwrites four bytes at an offset |
| `WavWriter.PatchRiff` | audio/wavwriter.go:138-165 | patching the RIFF size changes that field of the layout alone |
| `WavWriter.PatchSize` | audio/wavwriter.go:138-165 | the same for the data size, in both formats |
| `WavWriter.PatchFact` | audio/wavwriter.go:138-165 | the same for the frame count of float files |
| `WavWriter.WavLayout` | audio/wav.go:30-81 | the one-shot file has the incremental writer's layout |
| `WavWriter.Record` | audio/wavwriter.go:81-175 | after any Writes and Close the file is byte for byte WriteWAV of the concatenated resampler output |
| `WavWriter.RecordMatching` | audio/wavwriter.go:81-175 | with matching rate and channels it is WriteWAV of the concatenated input in the writer's format |
| `NegotiationId.Next` | pc/negotiation_id.go:9-15 | never the id that means none |
| `NegotiationId.NthStep` | pc/negotiation_id.go:9-15 | counting walks the ring of 2^32 - 1 ids in order, for ever |
| `NegotiationId.AcceptsOnlyOutstanding` | pc/negotiation_id.go:32-57 | against the last accepted id and its successor, an answer is accepted if and only if it answers the outstanding offer, over the wrap too |
| `TransportLaws.OffererAlways` | pc/pc.go:517-672 | in every run of an offerer, with any calls failing anywhere: Idle if and only if signalling is stable; no offer is created over an outstanding one; restartAtNextOffer implies RenegotiatePending with gathering complete; no restart offer is created while gathering; a live timer belongs to an outstanding offer |
| `TransportLaws.OffererStep` | pc/pc.go:517-672 | every event keeps that invariant |
| `TransportLaws.RestartKeeps` | pc/pc.go:554-583 | so does a restart request, and its "no local description" error is unreachable |
| `TransportLaws.IdsAlways` | pc/pc.go:517-672 | when answers carry ids, the offers sent are numbered in ring order and the answers applied are those of the offers in order, each once |
| `TransportLaws.IdRing` | pc/pc.go:541-661 | Idle if and only if local equals remote; otherwise local is its successor |
| `TransportLaws.AcceptedIff` | pc/pc.go:634-661 | an answer is accepted if and only if it answers the outstanding offer, and then signalling is not stable |
| `TransportLaws.AnswerEffect` | pc/pc.go:634-672 | in every reachable state the outstanding offer's answer is applied and any other id changes nothing |
| `TransportLaws.LooseIdsAlways` | pc/pc.go:517-672 | in every offerer run, with and without ids: one answer applied per offer, local is the last offer's id on the ring and remote the last id an applied answer carried |
| `TransportLaws.ReachesStableIff` | pc/pc.go:634-672 | in every offerer run an answer reaches the "was stable" branch if and only if nothing is outstanding and it carries no id, or the last offer's id when that offer's answer carried none; it then starts an offer |
| `TransportLaws.AheadWithin` | pc/negotiation_id.go:32-57 | the ring proviso of that condition holds for fewer than 2^31 - 1 offers since an id last came back |
| `TransportLaws.AnswersWithoutIds` | pc/pc.go:634-672 | both kinds of answer occur |
| `TransportLaws.RequestTaken` | pc/pc.go:554-583 | a restart request after the first gathering is deferred, covered or sent |
| `TransportLaws.RestartHonoured` | pc/pc.go:554-672 | with pion's calls succeeding, a restart asked for is at every later point still owed, or a restart offer has been sent since, or one outstanding then covered it |
| `TransportLaws.RestartProgress` | pc/pc.go:585-672 | the next gathering completion moves a deferred restart on, and the next applied answer sends a held one |
| `TransportLaws.RestartLostIff` | pc/pc.go:526-549 | an event drops an owed restart if and only if it tries it and CreateOffer or SetLocalDescription fails |
| `RequestLaws.RequestHonoured` | pc/pc.go:517-672 | over every run with the offer calls succeeding, from a request to negotiate on: at every later point an offer has been sent after it, or it is still pending and no answer has been applied |
| `RequestLaws.RequestProgress` | pc/pc.go:517-672 | a request in Idle sends an offer at once, and the next applied answer sends the pending one |
| `RequestLaws.RequestLostIff` | pc/pc.go:517-672 | with any calls failing anywhere, a request is neither pending nor followed by an offer if and only if an event since has tried to make one and in all that tried CreateOffer or SetLocalDescription failed |
| `RequestLaws.AttemptsCreate` | pc/pc.go:517-672 | the events that try are exactly those that call CreateOffer |
| `RequestLaws.WatchAlways` | pc/pc.go:517-753 | over every offerer run each offer sent is given one timeout, and the outstanding one still has its own if and only if no answer to it was refused by pion |
| `RequestLaws.TimeoutReports` | pc/pc.go:729-745 | that timeout can fire, and reports if and only if the peer is connected |
| `RequestLaws.ResendsOutstanding` | pc/pc.go:554-583 | in every reachable state the last offer sent goes out again, under its own id, exactly when a restart is asked for over an outstanding offer with gathering complete |
| `RequestLaws.ReportsIff` | pc/pc.go:517-753 | an event reports an error if and only if it tries an offer and a call fails, asks again and sending fails, has its answer refused, or is the timeout in force |
| `TransportLaws.TimeoutMeansOutstanding` | pc/pc.go:729-753 | a timeout is reported only while an offer is outstanding |
| `AnswererLaws.AnswererAlways` | pc/pc.go:585-630 | in every run of an answerer the exchange is orderly: only the latest offer is applied, under its own id, never while gathering if it changes credentials; only an applied offer is answered |
| `AnswererLaws.RenewalWaits` | pc/pc.go:598-630 | in every run an offer whose credential differs from that of the offer applied before it is never applied while gathering |
| `AnswererLaws.AnswersLatestOffer` | pc/pc.go:585-630 | every answer is to the latest offer received, with that offer's id; a superseded offer is never answered and none twice |
| `DeferralLaws.DeferredWaits` | pc/pc.go:585-630 | in every answerer run, while an offer is deferred gathering is in progress or a completion is queued |
| `DeferralLaws.CompletionAnswers` | pc/pc.go:585-630 | with the calls succeeding, the completion that finds gathering over extends the exchange by exactly the deferred offer applied and answered, under its id; one that finds a new gathering leaves it deferred |
| `DeferralLaws.LatestOfferSettled` | pc/pc.go:585-630 | in every answerer run the latest readable offer has been answered as the last thing done, is still deferred, or was taken up by a step whose own call failed; a deferred one is neither of the others |
| `DeferralLaws.SettledAlways` | pc/pc.go:585-630 | the invariant behind it, over every run |
| `DeferralLaws.StableIffAnswered` | pc/pc.go:585-630 | signalling is stable if and only if the exchange leaves no applied offer unanswered |
| `DeferralLaws.ReportsIff` | pc/pc.go:585-630 | a step of the answerer reports an error if and only if its offer is unreadable, or it takes an offer up and a call for that fails |
| `AnswererLaws.CandidatesAlways` | pc/pc.go:674-727 | in every run each received candidate is exactly one of applied, dropped or pending; one is applied if and only if its ufrag fits; those naming one ufrag are settled in arrival order; with a description set everything pending mismatches it |
| `AnswererLaws.TrickleKeeps` | pc/pc.go:705-727 | adding a candidate keeps those laws |
| `AnswererLaws.DescribeKeeps` | pc/pc.go:674-701 | setting a description keeps them |
| `AnswererLaws.UfragInForce` | pc/pc.go:674-701 | in every run the ufrag that candidates are matched against is that of the description set last, none where it names none |
| `AnswererLaws.SettledByForce` | pc/pc.go:674-711 | what a step settles is judged by that description: a candidate that belongs to it is settled on arrival, and setting one leaves nothing pending |
| `TransportLoop.Transport.SendOffer` | pc/pc.go:517-549 | refines the specified step, errors included |
| `TransportLoop.Transport.RestartIce` | pc/pc.go:554-583 | refines the specified step |
| `TransportLoop.Transport.OnGatheringComplete` | pc/pc.go:585-595 | refines the specified step |
| `TransportLoop.Transport.OnOffer` | pc/pc.go:598-630 | refines the specified step |
| `TransportLoop.Transport.OnAnswer` | pc/pc.go:634-672 | refines the specified step |
| `TransportLoop.Transport.SetRemoteDescription` | pc/pc.go:674-701 | refines the specified step, with its loop over pending candidates |
| `TransportLoop.Transport.AddRemoteCandidate` | pc/pc.go:705-711 | refines the specified step |
| `TransportLoop.Transport.ArmNegotiationTimeout` | pc/pc.go:729-745 | a new generation with its timer |
| `TransportLoop.Transport.StopNegotiationTimeout` | pc/pc.go:747-753 | a new generation without a timer |
| `TransportLoop.Transport.OnNegotiationTimeout` | pc/pc.go:729-745 | stale generations are ignored |
| `TransportLoop.RunEvents` | pc/pc.go:467-504 | a transport fed any events ends where the state machine does, so the laws hold of it |
| `EventLoop.StepKeeps` | pc/pc.go:412-491 | every atomic action keeps: a waiting goroutine with work has a token or a producer about to send one; FIFO; candidates in order |
| `EventLoop.InvAlways` | pc/pc.go:412-491 | so it holds over every interleaving |
| `EventLoop.OrderAlways` | pc/pc.go:412-491 | events start in the order they were accepted, each at most once, and candidates go out in gathering order |
| `EventLoop.Quiesces` | pc/pc.go:412-491 | from every reachable open state, whatever order the two goroutines move in, they stop after boundedly many moves, and where neither can move every accepted event has run and every candidate has gone out: no wake-up is lost |
| `EventLoop.EnqueuedRuns` | pc/pc.go:447-491 | so an event enqueued in an open state runs after all that were accepted before it |
| `EventLoop.FailureRuns` | pc/pc.go:424-445 | and a candidate that could not be sent is reported through the loop in the same way |
| `EventLoop.CloseStops` | pc/pc.go:424-491 | after close no event starts and none is accepted, and at most the candidate then in the hands of the sender goes out |
| `EventLoop.InternalProgress` | pc/pc.go:412-491 | every move of either goroutine is progress |
| `SampleClock.PlaceRefines` | track/local.go:589-625 | with steps under 2^31 ticks the 32-bit clock refuses exactly what the unbounded timeline refuses, passes on the true skip and span, and stays that timeline modulo 2^32 |
| `SampleClock.Place` | track/local.go:589-625 | a refused sample leaves the clock unchanged |
| `SampleClock.RefusedIffHalfRingAhead` | track/local.go:600-612 | a timestamp d ticks ahead is refused if and only if d is half the ring or more |
| `SampleClock.StampsFollowTimeline` | track/local.go:376-386 | over every run the RTP timestamps are the true starts plus one constant: skips and spans telescope |
| `SampleClock.StampDistance` | track/local.go:376-386 | two RTP timestamps differ by the true distance of their samples |
| `SampleClock.SpotsInOrder` | track/local.go:589-625 | over every run, a fresh clock included, each sample starts no earlier than the previous end plus the dropped packets, and exactly at its own timestamp when that is not too early; without a timestamp a sample starts where the last one ended after its dropped packets or, if later, as far behind the previous start as the two wall clocks are apart |
| `SampleClock.KeptIff` | track/local.go:589-625 | after any samples, the next is placed if and only if its duration is not negative and it does not go back: by its packet timestamp before the previous start, or without one by its wall clock before the previous one |
| `SampleClock.Binding.PlaceSample` | track/local.go:589-625 | the in-place clock computes the specified placement |
| `SampleClock.Binding.WriteSample` | track/local.go:368-392 | advances clock, packetizer and sequence numbers as specified |
| `TrackReader.NumbersFollow` | audio/rtc/reader.go:198-231 | a packet within half the sequence ring is taken if and only if it is not older than expected; an older one changes nothing |
| `TrackReader.FedFollows` | audio/rtc/reader.go:198-231 | over every run, with any decode errors, the decoder sees exactly the numbers taken |
| `TrackReader.TakenIncreases` | audio/rtc/reader.go:198-231 | each number at most once and in increasing order |
| `TrackReader.GapFilled` | audio/rtc/reader.go:198-255 | whatever the decoder makes of the packet that ends a gap, exactly min(gap, maxConceal) concealed buffers with times leading up to its timestamp come before its own, and the decoder is reset if and only if the gap exceeds the cap |
| `TrackReader.GapCutShort` | audio/rtc/reader.go:235-255 | a gap in which the decoder can conceal k frames only is filled with the earliest k, at their own times, and the packet is still heard |
| `TrackReader.ErrorIff` | audio/rtc/reader.go:198-231 | an error means that concealment is off and a packet neither late nor repeated is malformed |
| `TrackReader.SteadyStep` | audio/rtc/reader.go:198-267 | on a constant-tick stream every packet adds its frames at their own times, whatever the decoder makes of it |
| `TrackReader.SteadyRun` | audio/rtc/reader.go:198-267 | a constant-tick run, with any decode errors, gives exactly the frames of the sender's numbering |
| `TrackReader.CleanStream` | audio/rtc/reader.go:198-267 | from the first packet on: times strictly increase within 2^32 ticks, and if no gap exceeds the cap there is a buffer for every number |
| `TrackReader.ItemsOrdered` | audio/rtc/reader.go:198-255 | frames come in increasing order, gap-free if gaps are within the cap |
| `TrackReader.PtsExactIff` | audio/rtc/reader.go:264-267 | a frame's time is exact if and only if fewer than 2^32 ticks have passed |
| `TrackReader.PtsFits` | audio/rtc/reader.go:264-267 | the product behind a time never leaves int64 |
| `TrackReader.PtsIncreases` | audio/rtc/reader.go:264-267 | later frames have later times in that range |
| `TrackReader.TimesIncreaseIff` | audio/rtc/reader.go:198-267 | with concealment, within 2^32 ticks, over every constant-tick stream: times strictly increase if and only if no malformed packet ends a gap or follows a packet that was heard and, should the first packet be malformed, every packet taken after it is next in sequence and decodes to silence |
| `TrackReader.OnlySilenceIff` | audio/rtc/reader.go:198-255 | those are exactly the packets that leave no buffer |
| `TrackReader.NoClashMeansFrames` | audio/rtc/reader.go:198-267 | where no packet decodes to silence that means that every packet taken after the first decodes |
| `TrackReader.MalformedRepeatsTime` | audio/rtc/reader.go:218-227 | a malformed packet in sequence is concealed at the time of the frame before it |
| `TrackReader.MalformedFirstWraps` | audio/rtc/reader.go:218-227 | as the first packet it gets a time near the end of the 32-bit range |
| `TrackReader.TrackReader.HandlePacket` | audio/rtc/reader.go:198-231 | the handler computes the specified step and error |
| `TrackReader.TrackReader.FillGap` | audio/rtc/reader.go:235-255 | the concealment loop, with its cap and decoder reset |
| `TrackReader.TrackReader.TakePending` | audio/rtc/reader.go:130-139 | buffers are returned in order |
| `RtcStats.DeterminedIff` | rtcstats/rtcstats.go:267-313 | no other well-formed report has the same compressed form, so that any receiver with the previous report could recover this one, if and only if no field is ambiguous: every field a record had is there with another value, up to timestamps that only one report explains |
| `RtcStats.DeterminedByKeepingIff` | rtcstats/rtcstats.go:267-313 | for a receiver who knows that records keep their fields the report is determined if and only if it keeps its own, or has lost a timestamp above the hoisted one |
| `RtcStats.LosslessIff` | rtcstats/rtcstats.go:267-313 | filling in from the previous report recovers the new one if and only if every record keeps the fields it had |
| `RtcStats.EntryRoundTrip` | rtcstats/rtcstats.go:272-300 | the same for one record |
| `RtcStats.NothingToSpare` | rtcstats/rtcstats.go:294-299 | every field that compression keeps is needed |
| `RtcStats.LostIsInvisible` | rtcstats/rtcstats.go:293-298 | for every report and every lost field, other than a timestamp above the hoisted one, the report with the field put back compresses to the same thing |
| `RtcStats.UnchangedIsInvisible` | rtcstats/rtcstats.go:293-298 | for every unchanged field, other than the only copy of the hoisted timestamp, so does the report without it |
| `RtcStats.LatestUnique` | rtcstats/rtcstats.go:271-283 | the hoisted timestamp is determined by the report |
| `RtcStats.ReplayTracksBaselineIff` | call.go:1837-1855 | over every run a receiver that replays every tick equals the sender's baseline after each tick if and only if no record ever loses a field |
| `RtcStats.StripRecord` | rtcstats/rtcstats.go:279-299 | the inner loop removes the id and exactly the unchanged fields |
| `RtcStats.FirstPass` | rtcstats/rtcstats.go:272-300 | the first loop strips every record and finds the largest timestamp |
| `RtcStats.SecondPass` | rtcstats/rtcstats.go:302-311 | the second loop zeroes every copy of it |
| `RtcStats.DeltaCompress` | rtcstats/rtcstats.go:267-313 | the report becomes its compressed form in place; the old report is outside the frame, so it is never altered |
| `RtcStats.Decode` | call.go:1817-1835 | the report and a copy that shares no record with it |
| `RtcStats.Snapshot` | call.go:1827-1834 | a fresh copy of the top two levels with the same contents |
| `RtcStats.Reporter.Tick` | call.go:1837-1851 | emits the report compressed against the old baseline and keeps the full report as the new one; a failed encoding changes nothing |
| `RtcStats.Session` | call.go:1837-1851 | every tick of a session in turn, as the run law assumes |
| `IceRecovery.StepKeepsInv` | ice_recovery.go:97-177 | every critical section and outside move keeps the invariant |
| `IceRecovery.Budget` | ice_recovery.go:97-177 | over every interleaving: restarts granted since the last onConnected equal attempts and stay within the maximum; each trigger's outcome is a restart while the budget lasts, then an escalation, nothing after close; every trigger has exactly one outcome or is still on its way |
| `IceRecovery.NothingAfterClose` | ice_recovery.go:140-170 | after close nothing is granted and no budget escalation happens |
| `IceRecovery.EscalationsAfterClose` | ice_recovery.go:125-170 | over every interleaving, whatever escalates after close is a connection that never came up, or a restart granted before close that had not failed yet |
| `IceRecovery.EscalatesAfterClose` | ice_recovery.go:125-162 | both occur |
| `IceRecovery.ConnectedCancelsIff` | ice_recovery.go:97-162 | over every interleaving: after onConnected no continuation without a new disconnection or failure is granted a restart, if and only if the controller is closed, or every armed timer was the one in the field, no callback had fired and no call was about to enter tryRestart |
| `IceRecovery.LateCallbackLosesTimer` | ice_recovery.go:106-120 | a run in which that fails |
| `IceRecovery.PromptKeepsTimer` | ice_recovery.go:97-177 | without late triggers at most one restart is scheduled and the field names it, over every run |
| `IceRecovery.PromptCancels` | ice_recovery.go:97-177 | so in such runs onConnected cancels every scheduled restart |
| `IceRecovery.PromptCloses` | ice_recovery.go:165-177 | nor does close leave one |
| `IceRecovery.Controller.OnConnected` | ice_recovery.go:97-102 | stops the timer and replenishes the budget |
| `IceRecovery.Controller.OnDisconnected` | ice_recovery.go:106-120 | arms a timer if open and none is set |
| `IceRecovery.Controller.TryRestart` | ice_recovery.go:140-162 | the verdict, and one more attempt exactly when it is a grant |
| `IceRecovery.Controller.Close` | ice_recovery.go:165-177 | closed, and the timer stopped |
| `IceRecovery.RunSchedule` | ice_recovery.go:81-177 | a controller under any schedule follows the machine, so the laws hold of it |
| `SlidingWindow.AdmitRefines` | internal/ratelimit/sliding_window.go:47-60 | the pruned list grants if and only if fewer than `limit` of all grants lie in the window, and keeps grants spaced |
| `SlidingWindow.SpacedIff` | internal/ratelimit/sliding_window.go:11-22 | spacing is exactly the promise: no period of length window, wherever it lies, holds more than `limit` grants |
| `SlidingWindow.LiveGrants` | internal/ratelimit/sliding_window.go:85-97 | what eviction leaves is what the whole history has in the window |
| `SlidingWindow.Limiter.EvictLocked` | internal/ratelimit/sliding_window.go:85-97 | the loop drops exactly the events at or before the cutoff |
| `SlidingWindow.Limiter.Allow` | internal/ratelimit/sliding_window.go:47-60 | granted if and only if fewer than `limit` of all grants since the last reset lie in the window that ends now; every grant is recorded, a refusal is not; without a limit everything is allowed |
| `SlidingWindow.Limiter.Remaining` | internal/ratelimit/sliding_window.go:63-75 | what the window has left, and zero exactly when Allow would refuse |
| `SlidingWindow.Limiter.Reset` | internal/ratelimit/sliding_window.go:79-83 | forgets everything |
| `Reconnect.BackoffExactIff` | reconnect.go:113-118 | the k-th wait is min(2^k * initial, max) for every k if and only if doubling reaches the cap before it leaves int64; every cap up to 2^62 does |
| `Reconnect.EveryEventIsDue` | call.go:1564-1636 | over every run and interleaving, all counted from the last successful attempt: an attempt is FAST if and only if FAST was asked for, attempts are left, the deadline has not passed and both peers are healthy; the k-th wait is the k-th backoff; the call is given up for lasting too long only past its timeout |
| `Reconnect.FastInTime` | call.go:1594-1611 | over every run whose wall clock does not go back, FAST is never dispatched with its attempts spent, or past its deadline counted from the first moment of the outage, found connections included |
| `Reconnect.HonoursFastIff` | call.go:1564-1636 | when an outage begins with FAST stored, FAST is tried whenever it is due by that outage, rather than refused or the call given up, if and only if the outage clock stands where the outage began and attempts are left |
| `Reconnect.HonoursFastByClock` | call.go:1564-1636 | over every run whose wall clock moves between readings the clock alone decides: where it stands at the beginning of the outage no attempt has been spent |
| `Reconnect.FoundConnectionKeepsClock` | call.go:1638-1668 | the run in which it does not: a failed rejoin leaves a connection, found and lost hours later; the call is given up at once, or FAST is refused and the next wait is doubled |
| `Reconnect.StretchWaits` | call.go:1620-1626 | the waits of a stretch double from the backoff it begins with |
| `Reconnect.WaitsAsDocumentedIff` | call.go:1620-1635 | in every reachable state the waits of all stretches are min(2^k * initial, max) if and only if the backoff is at its initial value when the stretch begins |
| `Reconnect.BackoffAtInitialIff` | call.go:1620-1635 | which is if and only if no attempt has failed since one last ended well, or the cap is that value |
| `Reconnect.RejoinsLimited` | call.go:1602-1608 | over every run no window holds more than the limit of rejoins and migrations since the last successful attempt; one is dispatched only with room and the call abandoned for it only without |
| `Reconnect.StepKeeps` | call.go:1564-1670 | every step keeps the invariant behind both |
| `Reconnect.LaterAttemptsRejoin` | call.go:1564-1627 | in a stretch without connection or outside change the first attempt is FAST, REJOIN or MIGRATE and all later ones are REJOIN |
| `Reconnect.LaterAttemptsRejoinIff` | reconnect.go:124-136 | that holds for all stretches if and only if the stored strategy is not above the named ones |
| `Reconnect.ToldIsTried` | call.go:1568-1693 | a strategy told to a looking loop is the next one tried: REJOIN or above as it is, FAST if it is possible and REJOIN if not, and DISCONNECT ends the loop |
| `Reconnect.FoundIsTriedFast` | call.go:1638-1656 | a found connection that is lost is tried FAST first, whatever was stored, if that is possible and REJOIN if not |
| `Reconnect.MigrateIsTried` | call.go:1657-1664 | a request to migrate is tried as such |
| `Reconnect.GivingUpDisconnects` | call.go:1543-1608 | giving up stores DISCONNECT and ends the loop |
| `Reconnect.StoppedStays` | call.go:1564-1670 | nothing happens after that, whatever else is told |
| `Reconnect.UnnamedLoops` | call.go:537-556 | a strategy above the named ones counts as success: it is dispatched pass after pass with no connection, no wait and no limiter, and every budget is replenished each time |
| `Reconnect.EscalateReachesIff` | reconnect.go:124-136 | failures reach REJOIN if and only if the strategy is FAST, REJOIN or MIGRATE |
| `Reconnect.BelowNamedStops` | reconnect.go:124-136 | from DISCONNECT or below, UNSPECIFIED included, a stretch ends by itself after as many failures as there are steps to DISCONNECT |
| `Reconnect.NamedStopsOnlyByGivingUp` | call.go:1564-1627 | from FAST, REJOIN or MIGRATE it ends only by giving up |
| `Reconnect.NamedAlways` | call.go:1676-1693 | as long as the strategies told are named so is the stored one, and UNSPECIFIED is never stored |
| `Reconnect.Monitor.CanFastReconnect` | reconnect.go:154-178 | as specified, in its order of checks |
| `Reconnect.Monitor.SelectStrategy` | reconnect.go:182-191 | FAST becomes REJOIN exactly when it cannot work |
| `Reconnect.Monitor.MarkDisconnected` | call.go:1520-1522 | only the first moment of an outage is kept |
| `Reconnect.Monitor.MarkConnected` | call.go:1525-1529 | clears the outage and every budget |
| `Reconnect.Monitor.FindNone` | call.go:1568-1613 | a pass without a connection, up to the attempt or giving up |
| `Reconnect.Monitor.BeginAttempt` | call.go:1594-1613 | the strategy chosen, its budget spent, and the attempt begun or the call abandoned |
| `Reconnect.Monitor.AttemptEnds` | call.go:1613-1636 | wait, next backoff and escalation on failure; everything replenished on success |
| `Reconnect.Monitor.Play` | call.go:1564-1693 | every move of the loop or of the rest of the program |
| `Reconnect.MonitorHealth` | call.go:1553-1670 | the loop under any schedule follows the machine, so every event is due |

## Left out

- Accuracy of the sinc/Kaiser kernel and of float arithmetic: both are parameters; the table interpolation in audio/resample.go is not modelled.
- I/O errors of the WAV writer and the readers and writers around ReadWAV and WriteWAV; files are byte sequences.
- `PCM.Append` outside its use in Resample: adopting the parameters of the first buffer, and resampling what it appends.
- Buffers of samples are sequences, not Go slices: capacity and aliasing of the backing arrays are not modelled.
- pion: an environment with a signalling state, a gathering state and calls that may fail and then change nothing; gathering starts only from SetLocalDescription.
- The guards of Negotiate and ICERestart (debounce, closed checks), the connect timers and the state-change callbacks of pc/pc.go.
- Ufrags are plain names: reading credentials out of SDP text is not modelled.
- The RTP packetizer: a sample is taken to advance its timestamp by its span, also when it makes no packet; RED recovery is left out.
- Nested and non-scalar stats values, on which the comparison of the source can panic, and the JSON round trip itself.
- Nanosecond clocks are unbounded integers in the recovery controllers; the saturation of time.Since is not modelled there.
- The connection state shown to callers, the unretryable error handler and the cancelling of the call in monitorHealth.
- Restart and escalation callbacks of ICE recovery are events; what they do is not modelled.
- g711, chunking, stream adapters, the RTP writer, event dispatch, the participant store, HTTP, websocket and RPC clients, tracing, options: easier members of the same families, or plumbing.
