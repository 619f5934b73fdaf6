# Verified model of the audio-timeline kernel

This project models the stateful core of the speech service in Dafny: the code that turns a byte
stream into utterances, stamps them on a timeline, splits them by speaker, and promises not to lose,
duplicate or reorder audio; and beside it the job store, the diarization session, the resampler, the
repetition filter and the edit distance. It proves what this code guarantees over all inputs, all runs
and all interleavings. `dafny verify dfyconfig.toml` checks everything.

## How it is built

A component that updates fields in place is a class with those fields. Each method is proved equal, on
results and on the whole new state, to a step function on values; the theorems are about all runs of
those steps. Algorithms over lists keep their loops and are proved against a specification that does not
mention the loop (a set of frames, a tiling, a convolution sum, a shortest script).

| module | what it holds |
|---|---|
| `Basics`, `Events` | samples, PCM decoding, Python's `round` and `ceil`, stream events |
| `Vad`, `Smoothing` | the start/stop machine, and the weighted average behind its decisions |
| `AudioStream`, `StreamRuns`, `Timeline`, `Seams`, `Snapshots` | the carry-buffered stream around it, what holds over every run, what becomes of the audio that was fed, and when a snapshot is taken |
| `Transcribe`, `OfflineRuns`, `ForceCut`, `OfflineAgreement`, `OfflineDisagreement` | the offline replay, its bounds, when it cuts by force, and when it agrees with the live stream |
| `SilenceRemoval`, `SpeechFilter`, `ClipSelection` | the two frame-level passes before recognition, told by frames and by samples |
| `Turns`, `TurnProperties`, `TurnAttribution`, `GapAttribution` | speaker-turn reconciliation: the tiling, and to whom each instant goes |
| `SplitSegment`, `SplitAttribution` | PCM splitting: what is kept, and who speaks in each piece |
| `K2Stream`, `K2Runs`, `K2Voice`, `K2Cuts` | the k2 stream: two tasks over one buffer, one id and one event queue; when its gate has heard a voice, and when it cuts |
| `Resampler` | the streaming 48 kHz to 16 kHz filter |
| `Repetition`, `RepetitionBounds`, `JoinedText`, `FinishedText` | collapse of decode loops in a transcript, how many copies one pass can leave, and how many all passes together |
| `JobStore`, `JobStoreRuns`, `JobConcurrency`, `JobRetention` | the job store as an interleaving of steps, how many jobs run at once, and how long a finished one stays |
| `Diarization`, `DiarizationRuns`, `DiarizationTraces`, `DiarizationCalls` | the diarization session as an interleaving of steps, which sidecars give stable answers, and what a caller sees |
| `EditDistance` | the rolling-row distance behind the character error rate |

## Modelling decisions

- Samples, taps and probabilities are exact reals. A VAD backend is an arbitrary function of every frame
  it has ever been given; a `_reset` does not clear that native state, as in the original.
- The monotonic clock and `time.time()` are parameters of the steps that read them. So are the room in
  a bounded request queue and the time-out of a wait.
- An asynchronous object is a step system. A step is the code between two suspensions, and a run is any
  sequence of steps. Puts on the unbounded event queue of the k2 stream do not suspend, so each event of
  its receive loop is one step.
- An offline replay is a run, so what holds of runs holds of it.
- Theorems about runs of the VAD stream hold for a configuration that stays fixed during the run; every
  admissible configuration and every backend is covered.

## Where the code and its documentation part

Each of these properties fails; what is proved is when it holds.

- `segment_pcm_offline` says that no audio is lost at a force-cut seam (`backend/asr/transcribe.py:83-85`).
  All audio from the cut to the end of the next utterance is kept exactly when that utterance is confirmed
  within the pre-speech length of the cut and is long enough or closed by a forced flush
  (`Seams.SeamIsTight`); if nothing is confirmed again, all of it is lost (`Seams.UnconfirmedIsLost`).
  `Seams.ShortRestartLosesSpeech` and `Seams.LateRestartLosesSpeech` lose a frame of speech, one each way.
- A recording is not cut alike in a file and in a stream. With the same pause in frames the two agree exactly
  when the force-cut never fires with a whole frame still to come (`OfflineAgreement.SamePauseAgrees`). They agree
  on every recording, for every backend, exactly if no probability counts as speech, or there is no cap and
  either the pauses are the same or no pause can be heard (`OfflineDisagreement.AlwaysAgree`). The shipped
  settings fail both ways (`OfflineDisagreement.ShippedSettingsDisagree`).
- The repetition filter does not leave every unit at most `threshold` times in a row. One pass does so for
  every text exactly for units of one character (`RepetitionBounds.ObviousBound`); a longer unit of its length
  can be left `threshold + 1` times and never more (`Repetition.PassBound`). Later passes can join what earlier
  ones left apart. So in the finished text, too, single characters and no other units stay at the threshold
  (`FinishedText.ThresholdKept`). From a threshold of ten on, units of 1, 2, 4, 8 and 16 characters, whose
  length divides the longest unit tried, keep some bound, and no other units keep any
  (`FinishedText.BoundedFromTen`): at the threshold of twenty that the function is called with, three
  characters can be left any number of times in a row (`FinishedText.CalledThresholdUnbounded`).
- The resampler is seamless exactly for kernels of two taps or more (`Resampler.StreamRefinesBatch`);
  with one tap the slice that should empty the overlap keeps all of it.
- A partial result of the k2 stream can stay without its segment. While the receive loop is at work and the
  voice gate is enabled, the next cut answers it (`K2Runs.PartialIsAnswered`); over whole runs it is answered
  exactly unless the call just ended, without any last event, while it was open (`K2Runs.AnsweredUnlessCallEnds`,
  `K2Runs.EndedCallLosesPartial`). With the gate disabled a cut of an empty buffer loses it as well
  (`K2Runs.LostExactly`, `K2Runs.UngatedPartialIsLost`).
- `configure_limits` installs a fresh semaphore, and each submission with a configuration calls it. While the
  limits stay the same, `max_concurrent` bounds the running jobs exactly if the queue limit does not exceed it
  (`JobConcurrency.MaxConcurrentHolds`).
- The diarization session answers one window in one way, whoever asks and whenever, exactly if no message of
  the sidecar finalizes a new turn that starts before the watermark published so far
  (`DiarizationTraces.StableExactly`).

## Model

| member | source | states |
|---|---|---|
| Vad.FramesFor | backend/audio/vad.py:119-121 | The frame count of a duration is the least one, not below the floor, whose frames last at least that many milliseconds. |
| Vad.MakeTunables | backend/audio/vad.py:98-121 | Whatever a client sends, the clamped knobs are admissible: alpha in [0, 1], at least one frame to start, to stop and of pre-speech. |
| Vad.KnobsFollowSettings | backend/audio/vad.py:98-121 | Each knob comes from its own setting: threshold and clamped alpha as they are, the start length in frames, and pause, pre-speech and tail as the fewest frames, with their floors, that last as long. |
| Vad.VADProcessor.Process | backend/audio/vad.py:189-238 | One frame moves the machine by `Step`: new buffers, counters, smoothed probability and the finished segment, with the frame added to what the backend has heard. |
| Vad.VADProcessor.Flush | backend/audio/vad.py:251-266 | An open utterance comes back whole and everything but the knobs and the backend is reset. |
| Vad.VADProcessor.ApplyConfig | backend/audio/vad.py:123-138 | New knobs replace the old ones; buffers and counters in flight are left alone. |
| Vad.StepRemembers | backend/audio/vad.py:189-238 | Every frame keeps the invariant: the buffers are exactly the newest frames since the last reset, reaching back `pre_speech_frames` before the confirmation; counters are exactly the current streak of equal decisions. |
| Vad.TurnsExactly | backend/audio/vad.py:205-236 | An utterance opens on the frame that ends `start_frames` speech decisions in a row since the reset, and closes on the frame that ends `silence_frames` silent ones in a row since it opened: both directions, told by the decisions alone. |
| Vad.StepWatches | backend/audio/vad.py:205-223 | Every frame keeps it true that an open utterance opened at the first place since the reset where the decisions allow it, and that while none is open no such place exists. |
| Vad.CutIsSlice | backend/audio/vad.py:225-236 | A closed utterance is a non-empty slice of the history from `pre_speech_frames` before its confirmation, or from the reset. It is closed behind exactly `silence_frames` decisions against speech that follow one for it, and keeps exactly the first min(`keep_tail_frames`, `silence_frames`) frames of that silence. |
| Smoothing.SmoothedIsAverage | backend/audio/vad.py:195-203 | Smoothing answer by answer is the weighted average in which the newest answer counts 1 - alpha, each older one alpha times as much, and the first the rest. |
| Smoothing.DecisionIsAverage | backend/audio/vad.py:189-205 | A frame is decided as speech if and only if that average of the backend's answers since the last reset is above the threshold. |
| Smoothing.EveryRunSmooths | backend/audio/vad.py:189-275 | In every reachable state of the stream the smoothed probability in force is that of the answers since the last reset. |
| Smoothing.ProbsAreAverages | backend/audio/vad.py:517-528 | The frame probabilities of the two clip passes are such averages from the start of the clip. |
| AudioStream.VadSegmentedStream.FeedFrames | backend/streaming/audio_stream.py:119-177 | The loop over whole frames with its local clock equals the recursive drain of the buffer: same events, carry, clock and VAD state. |
| AudioStream.VadSegmentedStream.MaybePartial | backend/streaming/audio_stream.py:179-185 | A snapshot appears only while speaking, past the throttle interval and the first-partial floor, and only the time of the last one changes. |
| AudioStream.VadSegmentedStream.Feed | backend/streaming/audio_stream.py:115-187 | A feed of an even number of bytes decodes them, drains carry and samples together and may end with a snapshot. |
| AudioStream.VadSegmentedStream.Flush | backend/streaming/audio_stream.py:189-216 | The open utterance ends as a segment or as a retraction, by the minimum length and the force flag; carry and clock stay. |
| StreamRuns.DrainAppend | backend/streaming/audio_stream.py:119-177 | Cutting a buffer anywhere, even inside a frame, changes neither the events nor the final state, because the carry makes up for it. |
| StreamRuns.ChunkingInvariance | backend/streaming/audio_stream.py:115-187 | However bytes are cut into even chunks and whenever they arrive, events and final state are those of one feed of all of them; only snapshots and the time of the last one may differ, and with snapshots off nothing does. |
| Timeline.RunIsStream | backend/streaming/audio_stream.py:115-216 | The record kept for the theorems does not disturb the stream: each recorded action is the action of the class. |
| Timeline.StampIsExact | backend/streaming/audio_stream.py:218-231 | A stamp is the true position of the slice shifted right by exactly the trimmed frames, and the clamp at zero never fires. |
| Timeline.FrameEvents | backend/streaming/audio_stream.py:143-175 | One frame emits at most one event, fixed by the VAD's transition: an opening announces, a close emits a segment or, if it is too short, retracts. |
| Timeline.RunFrameKeeps | backend/streaming/audio_stream.py:142-177 | Every frame keeps the invariant: grammatical events, `_announced_speech` equal to `is_speaking`, and a true record of every utterance, handed on or dropped. |
| Timeline.RunFeedKeeps | backend/streaming/audio_stream.py:115-187 | A feed of any bytes at any time keeps that invariant. |
| Timeline.RunFlushKeeps | backend/streaming/audio_stream.py:189-216 | A flush keeps it and closes the open utterance with exactly one event, or is silent if none is open. |
| Timeline.FeedAccounts | backend/streaming/audio_stream.py:119-126 | Processed frames and carry together stay the audio that was fed: all of it, once and in order. |
| Timeline.EveryRun | backend/streaming/audio_stream.py:115-216 | Over every run of feeds and flushes the frames and the carry are the audio of the feeds, events form (SpeechStarted Partial* (SegmentReady or SpeechDropped))*, and every utterance is a slice of those frames that became a segment unless it was too short. |
| Seams.UtteranceIsRange | backend/streaming/audio_stream.py:218-231 | A segment holds exactly a range of the samples that were fed, and its stamp is that range shifted right by the trimmed tail. |
| Seams.SegmentsAreOrdered | backend/streaming/audio_stream.py:142-231 | The utterances of a run are disjoint ranges of the audio of its feeds, in order, and the stamps of their segments are in order and do not overlap. |
| Seams.TailIsKept | backend/audio/vad.py:225-236 | Over every run a segment closed by silence holds the fed samples from its first frame to min(`keep_tail_frames`, `silence_frames`) silent frames behind its last one decided as speech; its start stamp is shifted right by exactly the frames cut off, its end stamp is the cut. |
| Seams.SeamIsTight | backend/asr/transcribe.py:83-85 | Behind a cut at frame c, every frame up to the end of the next utterance is in a segment if and only if that utterance is confirmed within `pre_speech_frames` of c and is long enough or closed by a forced flush; where it is confirmed is settled by the decisions. |
| Seams.SeamJoins | backend/asr/transcribe.py:83-85 | Two segments that meet at a flush are together one range of the audio. |
| Seams.UnconfirmedIsLost | backend/audio/vad.py:205-223 | While nothing has been confirmed since a reset, no frame behind it is in a segment, and no `start_frames` speech decisions in a row have come. |
| Seams.ShortRestartLosesSpeech | backend/streaming/audio_stream.py:160-173 | A run with a forced cut in which a frame of speech behind it is dropped, though confirmed at once, because the utterance is too short. |
| Seams.LateRestartLosesSpeech | backend/audio/vad.py:206-219 | A run with a forced cut in which a frame of speech behind it is lost because the confirmation comes too late for the pre-speech buffer. |
| Snapshots.FeedShows | backend/streaming/audio_stream.py:178-187 | A feed ends with a snapshot if and only if snapshots are on, somebody is speaking, the interval since the last one of this utterance is over and the utterance has its least length; the snapshot is the range of fed samples of the utterance so far. |
| Snapshots.SnapshotsAreThrottled | backend/streaming/audio_stream.py:143-187 | In every run two snapshots of one utterance are at least the interval apart, whatever happens between them. |
| Transcribe.SegmentPcmOffline | backend/asr/transcribe.py:67-130 | The replay loop returns, numbered from zero, the segments among the events of chunked feeding with force-cuts and a final forced flush. |
| Transcribe.FeedChunk | backend/asr/transcribe.py:117-127 | One chunk is a feed, followed by a forced flush exactly when speech is open and its buffer has reached a positive cap. |
| Transcribe.Collect | backend/asr/transcribe.py:105-115 | The usable segments of an event list are appended under consecutive indexes. |
| Transcribe.NumberedKeeps | backend/asr/transcribe.py:105-115 | A collected segment has its place in the file as index, and keeps audio and stamps. |
| Transcribe.MaxSpeechSamples | backend/asr/transcribe.py:98-100 | The cap in samples is the most that last no longer than the configured seconds, and none if these are not positive. |
| ForceCut.ForceCutsAtCap | backend/asr/transcribe.py:117-130 | In the replay of any recording every utterance closed by a flush before the final one holds at least a positive cap, behind the last chunk no open utterance has reached it, and the final flush closes what is still open, whole. |
| ForceCut.LoopWaits | backend/asr/transcribe.py:117-127 | From any state of which that holds, it holds behind every chunk; without a cap no flush but the final one closes anything. |
| ForceCut.ChunkCuts | backend/asr/transcribe.py:119-127 | Behind a chunk an open utterance whose buffered frames have reached a positive cap is closed there with all of them, and otherwise nothing happens. |
| OfflineRuns.OfflineVersusLive | backend/asr/transcribe.py:117-130 | From any reachable state, replay and live stream emit the same segments unless the cap fires early, and then they differ at some position. |
| OfflineRuns.OfflineEqualsStream | backend/asr/transcribe.py:117-130 | Under one configuration a recording is cut alike by the replay and by a live stream, for every chunking and with or without snapshots, if and only if the force-cut never fires with a whole frame still to come. |
| OfflineAgreement.SamePauseAgrees | backend/asr/transcribe.py:67-130 | What `segment_pcm_offline` returns for a client's configuration is what its live stream returns, if the offline pause is as many frames, exactly when the cut never fires early. |
| OfflineAgreement.DrainIgnoresPause | backend/audio/vad.py:195-236 | If smoothing and threshold let no silence follow speech, the length of the pause changes nothing. |
| OfflineDisagreement.CapDisagrees | backend/asr/transcribe.py:98-127 | For every configuration that can hear and every positive cap, uninterrupted speech long enough is cut differently in a file. |
| OfflineDisagreement.PauseDisagrees | backend/asr/transcribe.py:87-96 | For every configuration that can hear a pause and every offline pause of other length, some recording is cut differently in a file. |
| OfflineDisagreement.AlwaysAgree | backend/asr/transcribe.py:67-130 | File and stream agree for all backends, recordings and chunkings if and only if nothing can be heard, or there is no cap and the pauses are the same or none can be heard. |
| OfflineDisagreement.ShippedSettingsDisagree | config.yaml:77-164 | Under the shipped settings some recording is cut differently by the cap, and some by the pause alone. |
| OfflineRuns.OfflineRunIsTail | backend/asr/transcribe.py:117-130 | The offline replay is a run: its segments obey the invariant of every run, so seams and stamps are covered. |
| OfflineRuns.SegmentsAreBounded | backend/asr/transcribe.py:79-85 | From any state within the bound, the replay keeps every segment below max(cap, pre-speech) plus one feed chunk plus one hop. |
| OfflineRuns.OfflineSegmentsAreBounded | backend/asr/transcribe.py:79-130 | With a positive cap every segment of a recording is a range of the recording's samples, stamped there, non-empty and below that bound. |
| SilenceRemoval.ComputeProbs | backend/audio/vad.py:517-528 | The loop over whole hops yields the smoothed, clamped probability of every hop from a fresh backend. |
| SilenceRemoval.SpeechAround | backend/audio/vad.py:533-543 | The two flag lists say, for every frame, whether there is speech strictly before it and strictly after it. |
| SilenceRemoval.RemoveLongSilence | backend/audio/vad.py:545-581 | The scan deletes exactly the maximal silent runs of at least the minimum with speech on both sides, keeps the rest and the sub-hop residue in order, counts those runs, and removed plus kept samples are the input. |
| SilenceRemoval.TrimLongSilenceForAsr | backend/audio/vad.py:479-581 | The whole pass meets that specification on every clip, and a disabled pass returns the clip untouched. |
| SilenceRemoval.NothingLong | backend/audio/vad.py:530-531 | For a clip without any speech, or without a whole frame, the specification is the untouched clip. |
| SilenceRemoval.NoLongRunRemains | backend/audio/vad.py:485-491 | Among the kept frames no removable pause is left: removal is complete in one pass. |
| SilenceRemoval.ChopIsClip | backend/audio/vad.py:517-522 | The hops laid end to end are the clip up to its residue. |
| SilenceRemoval.MinSilenceLasts | backend/audio/vad.py:512-515 | The minimum in frames is the least number, at least one, that lasts as long as the configured seconds. |
| ClipSelection.RemovalSelects | backend/audio/vad.py:545-581 | Exactly the samples come back that lie in no maximal silent run of at least the minimum with speech on both sides, and the residue. |
| ClipSelection.LongRunsAreStarts | backend/audio/vad.py:545-581 | The reported number of removed ranges is the number of places where a removed run begins. |
| SpeechFilter.Dilate | backend/audio/vad.py:441-447 | The flag array marks frame j exactly when some speech frame i has i - pre <= j <= i + tail. |
| SpeechFilter.KeepRuns | backend/audio/vad.py:449-469 | The output is the marked frames in order, with the residue exactly when the last frame is marked, and the count is the number of maximal marked runs. |
| SpeechFilter.KeptRunsBounded | backend/audio/vad.py:441-463 | A dilation never has more runs than the speech it comes from. |
| SpeechFilter.Bypass | backend/audio/vad.py:341-355 | A clip that cannot be judged passes whole without the gate and is rejected, with the reason, with it. |
| SpeechFilter.FilterSpeechForAsr | backend/audio/vad.py:307-476 | The reason is the first that speaks against the clip, with the frames counted; a rejected clip yields nothing, and an accepted one comes back whole or as exactly the runs near its speech, no more of them than runs of speech. |
| SpeechFilter.AdmittedByVerdict | backend/audio/vad.py:410-421 | A clip is admitted exactly when no reason speaks against it. |
| SpeechFilter.KeepsAround | backend/audio/vad.py:439-447 | A frame is kept if and only if a frame of speech follows it within the fewest frames that last the pre length, or precedes it within those that last the tail length. |
| ClipSelection.FilterSelects | backend/audio/vad.py:449-469 | Exactly the samples of the kept frames come back, and the residue together with the last frame. |
| ClipSelection.RunsAreStarts | backend/audio/vad.py:449-463 | The reported number of kept ranges is the number of places where a run of kept frames begins. |
| ClipSelection.AdmitsExactly | backend/audio/vad.py:341-421 | An enabled gate admits a clip if and only if it is loud enough, has whole frames, and the frames above the threshold last the least time and make up the least share. |
| ClipSelection.VerdictIsFirst | backend/audio/vad.py:326-421 | The reported reason is the first, in this order, that holds: empty, too quiet, too short, too few voiced frames, too small a share. |
| ClipSelection.FiltersExactly | backend/audio/vad.py:434-437 | An admitted clip is filtered if and only if filtering is on, the clip is loud enough and some frame is above the filter's threshold. |
| Turns.DominantTurn | backend/diarization/turns.py:27-52 | Nothing exactly if no turn overlaps the interval; otherwise a speaker who beats all others by overlap, then occupancy, then index. |
| Turns.NearestTurn | backend/diarization/turns.py:124-131 | The speaker of the result has an end of a turn as near to the midpoint as any end of any turn, and on a tie the lowest index. |
| Turns.ChoosePiece | backend/diarization/turns.py:116-132 | A boundary interval goes to its dominant speaker, or in a gap to the nearest one. |
| Turns.ChosenIsUnique | backend/diarization/turns.py:116-132 | That choice is determined: two speakers that meet it are the same. |
| Turns.MergeAdjacent | backend/diarization/turns.py:55-67 | Neighbours of one speaker are joined, from left to right. |
| Turns.ClipAndTotal | backend/diarization/turns.py:85-111 | Clipping keeps the turns of known speakers that meet the segment; totals and sorted boundaries are those of the clipped turns. |
| Turns.SweepTurns | backend/diarization/turns.py:112-137 | The sweep gives every interval between consecutive boundaries its chosen speaker and merges as it goes. |
| Turns.AbsorbShort | backend/diarization/turns.py:139-170 | The rewriting loop ends, and ends in the list that absorbing the first short piece again and again gives. |
| Turns.NormalizeTurns | backend/diarization/turns.py:70-170 | The result is the absorbed, merged sweep of the clipped turns. |
| TurnProperties.MergedKeeps | backend/diarization/turns.py:55-67 | Merging keeps the tiling and the speaker of every instant, and leaves no equal neighbours. |
| TurnProperties.AbsorbStepKeeps | backend/diarization/turns.py:141-168 | One absorption hands exactly the short piece's time to its longer neighbour; every other instant keeps its speaker. |
| TurnProperties.AbsorbedKeeps | backend/diarization/turns.py:139-170 | Absorption keeps the tiling, alternates speakers, invents none, and leaves no short piece unless only one is left. |
| TurnProperties.NormalizedShape | backend/diarization/turns.py:70-170 | Nothing exactly if no turn is relevant or the segment is empty; otherwise a gap-free tiling of the segment, alternating, by speakers of the clipped turns, every piece long enough unless alone. |
| TurnAttribution.ClipKeepsActivity | backend/diarization/turns.py:85-95 | Inside the segment clipping changes nobody's number of active turns, apart from dropping unknown speakers. |
| TurnAttribution.DominantIsMostPresent | backend/diarization/turns.py:27-52 | At every instant of a boundary interval the dominant speaker is active with maximal multiplicity, then occupancy, then lowest index. |
| TurnAttribution.OccupancyIsPresence | backend/diarization/turns.py:99-105 | A speaker's total is the number of turns active for that speaker, added up over the instants of the segment. |
| TurnAttribution.Attribution | backend/diarization/turns.py:99-137 | Before absorption, an instant at which somebody speaks goes to the most present speaker; any other to the speaker with the end of a turn nearest to the midpoint of its interval, the lowest index on a tie. |
| GapAttribution.GapGoesToNeighbour | backend/diarization/turns.py:122-132 | Among well-formed turns a longest stretch without a speaker goes, at each instant, to the lowest of the speakers who stop where it begins or start where it ends; at the edges of the segment only the inner side counts. |
| GapAttribution.ResultAttribution | backend/diarization/turns.py:70-170 | Without a minimum length the reconciled list itself attributes every instant in these ways. |
| TurnAttribution.OrderDoesNotMatter | backend/diarization/turns.py:70-170 | Every permutation of the turns is reconciled to the same list. |
| SplitSegment.PieceIsExact | backend/diarization/turns.py:200-212 | Rounding a millisecond offset to samples is exact, so a piece holds exactly its sixteen samples per millisecond, as far as the clip reaches. |
| SplitSegment.SplitSegmentBySpeaker | backend/diarization/turns.py:173-214 | The pieces of the reconciled turns, or the segment itself if it has no stamps, no turns or nothing to cut. |
| SplitAttribution.SplitAttributes | backend/diarization/turns.py:173-214 | Unless there are no stamps, no time, no audio or no known speaker in it, a segment comes back as pieces that follow one another without gap from its start, each with another speaker than the one before; a piece carries the speaker whom the reconciled turns give all its instants, the id of its number, and exactly the audio between its stamps as far as the clip reaches. |
| SplitAttribution.DecimalIsValue | backend/diarization/turns.py:208 | The number in a piece's id can be read back, so ids of different pieces differ. |
| SplitSegment.SplitConserves | backend/diarization/turns.py:173-214 | The pieces join to the clip's first 16 * (end - start) samples, or all of it if shorter; nothing is lost between them or repeated. |
| SplitSegment.AlignedSplitKeepsAll | backend/diarization/turns.py:77-83 | With stamps aligned to milliseconds and matching the clip, no sample is discarded. |
| SplitSegment.StopMark | backend/diarization/turns.py:207 | The stop mark sits on no piece but the last, and is there exactly when the clip reaches into the last turn. |
| SplitSegment.StopMarkSurvives | backend/diarization/turns.py:198-214 | With stamps within a millisecond of the clip and a minimum of two, exactly the last piece carries the mark. |
| SplitSegment.NormalizedIsFixed | backend/diarization/turns.py:70-170 | A list that already meets the promise is reconciled to itself. |
| K2Stream.K2VoiceGate.Feed | backend/streaming/k2_stream.py:62-96 | The gate drains carry and new samples frame by frame, whatever the chunking, and latches on enough speech in a row; a disabled gate ignores audio. |
| K2Stream.K2VoiceGate.Reset | backend/streaming/k2_stream.py:56-60 | Counters and carry are cleared and a disabled gate stays open; the backend keeps its native state. |
| K2Voice.GateHearsVoice | backend/streaming/k2_stream.py:56-96 | Fed any chunks since a reset, an enabled gate has heard a voice if and only if, in their audio cut into hops, some `start_frames` frames in a row have a smoothed probability above the threshold. |
| K2Voice.LoudIsAverage | backend/streaming/k2_stream.py:85-91 | That probability is the weighted average of the backend's answers since the reset. |
| K2Stream.K2SegmentedStream.Feed | backend/streaming/k2_stream.py:148-174 | An accepted chunk, without a trailing odd byte, is buffered, measured, gated, trimmed and cut in that order; a full request queue raises after buffering and before trimming. |
| K2Stream.K2SegmentedStream.TrimIdleBufferIfNeeded | backend/streaming/k2_stream.py:306-317 | While idle only the newest samples stay, and the start of the buffer moves with them. |
| K2Stream.K2SegmentedStream.ForceCutIfNeeded | backend/streaming/k2_stream.py:338-350 | A buffer at a positive cap is cut, any other is left. |
| K2Stream.K2SegmentedStream.EmitBufferedSegment | backend/streaming/k2_stream.py:352-393 | A cut spends the id, empties the buffer and queues the segment unless it is digital silence without a partial or the gate heard no voice. |
| K2Stream.K2SegmentedStream.ReceivePartial | backend/streaming/k2_stream.py:242-261 | A partial marks the segment as heard and is queued under its id if it has text and the gate is open. |
| K2Stream.K2SegmentedStream.ReceiveEndpoint | backend/streaming/k2_stream.py:262-263 | An endpoint or final result cuts, marked as a stop flush exactly if the stream is closing. |
| K2Stream.K2SegmentedStream.ReceiveEnd | backend/streaming/k2_stream.py:264-279 | An error, an end of session or a failed call cuts once more, may queue the failure, and closes the queue behind it. |
| K2Runs.StepIsStream | backend/streaming/k2_stream.py:148-279 | The recorded steps are the steps of the class, and a stopped receive loop does nothing more. |
| K2Runs.CutBalances | backend/streaming/k2_stream.py:352-393 | A cut moves the whole buffer into one piece with one fate and leaves the buffer empty. |
| K2Runs.StepBalances | backend/streaming/k2_stream.py:148-393 | In every step the accepted samples stay partitioned into emitted, idle-trimmed, silence-dropped and gate-dropped pieces and the buffer, and each segment's audio is the slice its stamps name. |
| K2Runs.StepKeepsOrder | backend/streaming/k2_stream.py:238-304 | In every step ids of events never decrease, segment ids strictly increase, nothing at or below a finished id follows, and nothing follows the end of the queue. |
| K2Runs.CutAnswers | backend/streaming/k2_stream.py:352-393 | A cut answers an outstanding partial with its segment if and only if audio is buffered. |
| K2Voice.CutQueuesVoice | backend/streaming/k2_stream.py:242-393 | In every reachable state with the gate enabled a cut queues the buffer if and only if the audio accepted since the last cut holds such a voice and the buffer is louder than digital silence or a partial came; a partial is shown only behind such a voice. |
| K2Cuts.CutSpendsId | backend/streaming/k2_stream.py:352-367 | In every reachable state a cut of buffered audio spends one id, queued or dropped, and an empty cut none. |
| K2Runs.StepKeepsPromises | backend/streaming/k2_stream.py:148-393 | With the gate enabled, every step keeps it true that while the loop is at work each shown partial is answered or outstanding over buffered audio. |
| K2Runs.EveryRun | backend/streaming/k2_stream.py:148-393 | Conservation, order and promises hold in every reachable state of the two tasks. |
| K2Runs.PartialIsAnswered | backend/streaming/k2_stream.py:242-268 | With the gate enabled and the loop at work, after a PartialText k the next cut of any kind queues SegmentReady k, neither dropped as silence nor by the gate. |
| K2Runs.AnsweredUnlessCallEnds | backend/streaming/k2_stream.py:238-279 | Over every run with the gate enabled whose loop has stopped, a shown partial is answered if and only if the loop did not stop by the bare end of the call while it was unanswered. |
| K2Runs.EndedCallLosesPartial | backend/streaming/k2_stream.py:272-279 | A run with the gate enabled whose call just ends, leaving a shown partial without its segment over buffered audio. |
| K2Runs.LostExactly | backend/streaming/k2_stream.py:238-371 | With or without the gate, a step loses an outstanding partial if and only if it is the bare end of the call or a cut that finds no audio. |
| K2Runs.UngatedPartialIsLost | backend/streaming/k2_stream.py:352-367 | A concrete run with the gate disabled in which a shown partial never gets its segment. |
| K2Runs.FeedIsBounded | backend/streaming/k2_stream.py:306-350 | After a successful feed the buffer is below the force-cut cap and, while idle, at most the idle keep, each where that limit is positive. |
| K2Cuts.FeedTakes | backend/streaming/k2_stream.py:148-174 | Every accepted chunk is buffered, with or without room in the request queue; what a feed takes from the buffer is an idle trim down to exactly the idle keep, or a cut of at least a positive cap, and a buffer that has reached the cap is cut. |
| K2Cuts.IdleMeansQuiet | backend/streaming/k2_stream.py:283-327 | In every reachable state the idle flag says whether some chunk since the last cut was at least as loud as idle speech. |
| K2Cuts.OnlyQuietAudioIsDropped | backend/streaming/k2_stream.py:306-317 | In every reachable state idle audio is dropped only while k2 has shown nothing and no chunk since the last cut was loud. |
| Resampler.Resampler48to16.Process | backend/audio/utils.py:36-52 | One chunk yields the outputs and the new overlap and tail of the overlap-save step. |
| Resampler.ChunkState | backend/audio/utils.py:38-51 | After any signal the state is a function of that signal: its unfinished triple, and the taps before it with zero history. |
| Resampler.ChunkIsBatch | backend/audio/utils.py:36-52 | The outputs of one more chunk are exactly the next outputs of the one-shot filter. |
| Resampler.StreamFrom | backend/audio/utils.py:36-52 | For every chunking the concatenated outputs are y[k] = sum of h[j] * x[3k - j] with zero history, for k below a third of the samples. |
| Resampler.StreamRefinesBatch | backend/audio/utils.py:16 | Every chunking agrees with the one-shot filter, with less than a triple kept back, if and only if the kernel has at least two taps. |
| Resampler.OneTapRepeats | backend/audio/utils.py:51 | With one tap the overlap is never dropped, and two chunks of silence already give too many outputs. |
| Repetition.CountCopies | backend/asr/client.py:220-224 | The inner loop counts the copies of a unit that follow one another and finds where they end. |
| Repetition.OnePass | backend/asr/client.py:212-233 | The scan for one unit length keeps a unit once if it stands more than `threshold` times in a row and copies everything else. |
| Repetition.DetectAndFixRepetitions | backend/asr/client.py:203-234 | The passes for all unit lengths up to the limit run one after the other, and all loops end. |
| Repetition.PassBound | backend/asr/client.py:204-233 | One pass leaves no unit of its length `threshold + 2` times in a row anywhere, for any text and any threshold of at least one. |
| Repetition.FixedBound | backend/asr/client.py:210-234 | The final text keeps that bound for the longest unit tried. |
| Repetition.FixedIsSubsequence | backend/asr/client.py:203-234 | The result is a subsequence of the input: nothing is invented or moved. |
| Repetition.FixedUnchanged | backend/asr/client.py:204-234 | The text comes back unchanged if and only if no unit of at most 16 characters stands more than `threshold` times in a row. |
| RepetitionBounds.OneCharacterBound | backend/asr/client.py:211-233 | The pass for single characters leaves none more than `threshold` times in a row. |
| RepetitionBounds.ObviousBound | backend/asr/client.py:211-233 | A pass leaves every text with at most `threshold` copies in a row of each unit of its length if and only if that length is one. |
| JoinedText.WitnessFinished | backend/asr/client.py:210-234 | For every unit length from two to sixteen there is a transcript that only the pass of that length changes, and later passes leave what it made. |
| JoinedText.ApartFinished | backend/asr/client.py:210-234 | Pieces of sixteen characters, each standing `threshold + 1` times, pass all shorter lengths unchanged, and the pass for sixteen joins them to one stretch of a shorter period. |
| FinishedText.RunComesFrom | backend/asr/client.py:211-233 | No pass, of whatever length, lengthens a run of one character: a run in its output is there in its input. |
| FinishedText.OneCharacterFinished | backend/asr/client.py:203-234 | The finished text holds no character more than `threshold` times in a row. |
| FinishedText.ThresholdKept | backend/asr/client.py:203-234 | No finished text holds a unit of a length more than `threshold` times in a row if and only if that length is one. |
| FinishedText.DividingUnitsBounded | backend/asr/client.py:203-234 | A unit whose length L divides sixteen never stands `(threshold + 2) * 16 / L` times in a row in a finished text. |
| FinishedText.BoundedExactly | backend/asr/client.py:203-234 | Some number of copies is never reached in a finished text if and only if the length divides sixteen, where `threshold + 1` copies fill more than 32 characters. |
| FinishedText.BoundedFromTen | backend/asr/client.py:203-234 | From a threshold of ten on, exactly units of 1, 2, 4, 8 and 16 characters keep some bound in the finished text. |
| FinishedText.CalledThresholdUnbounded | backend/asr/client.py:317 | At the threshold transcripts are cleaned with, a unit of three characters can be left any number of times in a row. |
| JobStore.JobStore.ConfigureLimits | backend/jobstore.py:100-106 | Limits are clamped and a fresh semaphore is installed beside the old ones still in use. |
| JobStore.JobStore.PurgeExpired | backend/jobstore.py:153-163 | Exactly the finished jobs older than the time to live disappear. |
| JobStore.JobStore.EnqueueJob | backend/jobstore.py:127-144 | After a purge a job is refused when as many active ones as the limit are there, else queued with a runner of its own. |
| JobStore.JobStore.GetJob | backend/jobstore.py:146-149 | A lookup purges first and returns what is left under the id. |
| JobStore.JobStore.AdvanceRunner | backend/jobstore.py:165-225 | Each stretch of a runner between suspensions: look-up, waiting for a permit, marking as running, executing, writing the outcome if the job is still there, releasing. |
| JobStoreRuns.StepKeeps | backend/jobstore.py:100-225 | Every step keeps job and runner in step, one outcome per finished job, and no semaphore overdrawn. |
| JobStoreRuns.EveryRun | backend/jobstore.py:100-225 | That invariant holds after every interleaving. |
| JobStoreRuns.ConcurrencyPerGeneration | backend/jobstore.py:171-175 | Jobs running under one semaphore never outnumber its permits. |
| JobStoreRuns.ConcurrencyOfStore | backend/jobstore.py:100-106 | All running jobs together are bounded by the permits of every semaphore ever installed, and by the maximum if there was only one. |
| JobConcurrency.QueueBoundsRunning | backend/jobstore.py:131-140 | While the limits stay the same, the queue limit bounds the active jobs, and so the running ones, however often the store is configured. |
| JobConcurrency.ReconfiguringExceeds | backend/asr/jobs.py:93-106 | For every maximum and every longer queue, configuring the store twice with the same limits reaches a state with one running job more than the maximum. |
| JobConcurrency.MaxConcurrentHolds | backend/asr/jobs.py:93-106 | While the limits stay the same, running jobs never exceed `max_concurrent` if and only if the queue limit does not exceed it. |
| JobStoreRuns.JobsMoveForward | backend/jobstore.py:153-225 | A job only goes from queued to running to one end, a finished one never changes again, and only a purge later than `updated_at` plus the time to live takes a finished one, never one whose runner may still write it. |
| JobRetention.PurgedExactly | backend/jobstore.py:153-163 | After a purge a job is there, unchanged, if and only if it is queued or running or `updated_at` plus the time to live has not passed. |
| JobRetention.SubmittedExactly | backend/jobstore.py:127-144 | A submission purges, and is taken if and only if fewer jobs than the queue limit are queued or running; all other jobs are those the purge left. |
| JobRetention.EndedJobStays | backend/jobstore.py:146-163 | Whatever else happens to the store, a finished job stays as it is until its time to live is over. |
| JobRetention.OutcomeIsServed | backend/jobstore.py:146-225 | What a payload ended with is written later, after any steps of others, and every lookup up to the time to live after that write returns the job with exactly that result or error; a later one does not. |
| JobRetention.WritesAreStamped | backend/jobstore.py:165-225 | A step that writes a job stamps it with its time, and no other step changes it. |
| JobRetention.TimeToLiveInForce | backend/jobstore.py:96-105 | Over every run the time to live in force is the last one configured, at least a minute, and an hour before the first. |
| JobStoreRuns.FinishedJobs | backend/jobstore.py:59-70 | In every reachable state a job has a result exactly if it succeeded and an error exactly if it failed. |
| JobStoreRuns.QueueIsBounded | backend/jobstore.py:131-140 | Admitted active jobs never exceed the largest queue limit configured so far. |
| Diarization.OrderIsUnique | backend/diarization/client.py:191-198 | Start, end and speaker order a set of turns in only one way. |
| Diarization.DiarizationSession.Receive | backend/diarization/client.py:226-253 | Finalized turns are filed under their start, end and speaker, the watermark takes the maximum, and an error degrades and ends the loop. |
| Diarization.DiarizationSession.EndLoop | backend/diarization/client.py:254-266 | A stream that ends or fails by itself degrades the session at once. |
| Diarization.DiarizationSession.DegradeLocked | backend/diarization/client.py:272-281 | Only the first reason is kept. |
| Diarization.DiarizationSession.Feed | backend/diarization/client.py:162-168 | Audio that finds the request queue full degrades an available session. |
| Diarization.DiarizationSession.AskTurns | backend/diarization/client.py:170-176 | A call on a session that is not available is answered with nothing at once; any other gets its deadline and waits. |
| Diarization.DiarizationSession.ResumeWaiter | backend/diarization/client.py:177-198 | A waiting call returns when the watermark has reached its end or the session is degraded, degrades it at its deadline, and else waits on. |
| Diarization.DiarizationSession.SortedTurns | backend/diarization/client.py:191-198 | The turns that overlap the window, in order. |
| DiarizationRuns.RunsGrow | backend/diarization/client.py:238-243 | Over every run the watermark never decreases, a degradation keeps its first reason, and no turn and no answer is taken back. |
| DiarizationRuns.NoWaitingOnceDegraded | backend/diarization/client.py:171-189 | After a degradation a new call is answered with nothing at once and a waiting one the next time it runs. |
| DiarizationRuns.DeadlineEndsWaiting | backend/diarization/client.py:178-187 | Past its deadline a call returns the next time it runs: with turns only if the watermark is there, else with the session degraded. |
| DiarizationRuns.EveryAnswer | backend/diarization/client.py:188-198 | In every run each answer is the ordered window of what was known when the watermark had passed its end, or empty after a degradation. |
| DiarizationCalls.LiveAnswerLists | backend/diarization/client.py:188-198 | In every run a live answer lists exactly the known turns that end behind the rounded start and start before the rounded end of its window, by start, end and speaker, and comes when the watermark has reached that end. |
| DiarizationCalls.AskedExactly | backend/diarization/client.py:170-176 | A call on a session that is not started, closed or degraded is answered with nothing at once, and any other waits. |
| DiarizationCalls.AnsweredExactly | backend/diarization/client.py:170-198 | A call that waits is answered the next time it runs if and only if the watermark has reached the end it asked for, the session is degraded, or the time-out counted from the call is over. |
| DiarizationCalls.DegradesExactly | backend/diarization/client.py:125-281 | A session is degraded by exactly these: an error of the sidecar, an unexpected end of the stream, audio without room, a late connection, and a call that gives up. |
| DiarizationCalls.ReasonTells | backend/diarization/client.py:125-281 | The reason names which of these it was, with the code of the sidecar or the call. |
| DiarizationCalls.StoppedIsDegraded | backend/diarization/client.py:226-266 | In every run a session whose loop has stopped is degraded, unless it was closed or the sidecar ended it. |
| DiarizationRuns.AnswersAreStable | backend/diarization/client.py:170-249 | If no message finalizes a new turn before a published watermark, answers for one window are equal and list exactly the turns of the final timeline that overlap it, in order. |
| DiarizationTraces.HonestTracesAreStable | backend/diarization/client.py:170-249 | If no message finalizes a new turn before the watermark published so far, all live answers for one window are the same, in every run that reads these messages. |
| DiarizationTraces.LateTurnIsNoticed | backend/diarization/client.py:230-243 | After any message that finalizes a new turn before the watermark, some window that starts before it ends, asked just before and just after it, is answered in two ways. |
| DiarizationTraces.StableExactly | backend/diarization/client.py:170-249 | So answers for windows of segments are stable for every caller and every interleaving if and only if the messages keep the watermark. |
| EditDistance.ComputeDistance | scripts/bench_asr_vllm.py:291-306 | The rolling rows and the three shortcuts compute the distance recurrence. |
| EditDistance.NextRow | scripts/bench_asr_vllm.py:299-305 | From the row of one prefix the inner loop makes the row of the next. |
| EditDistance.NoScriptIsShorter | scripts/bench_asr_vllm.py:291-306 | No script of insertions, deletions and substitutions, anywhere in the string and in any order, is shorter than the distance. |
| EditDistance.ShortestScript | scripts/bench_asr_vllm.py:291-306 | Some script has exactly that length. |
| EditDistance.DistanceIsLeast | scripts/bench_asr_vllm.py:291-306 | The distance is the least number of edits that turn one string into the other. |
| EditDistance.Symmetric | scripts/bench_asr_vllm.py:291-306 | The distance is symmetric. |
| EditDistance.Triangle | scripts/bench_asr_vllm.py:291-306 | The distance satisfies the triangle inequality. |
| EditDistance.ZeroOnlyForEqual | scripts/bench_asr_vllm.py:291-292 | The distance is zero exactly for equal strings. |
| Basics.Round | backend/diarization/turns.py:187-188 | Python's `round`: never more than half away, ties to the even number. |
| Basics.DecodeOfEncode | backend/streaming/audio_stream.py:54-55 | Decoding int16 samples sent low byte first gives each back, in its place, in units of 1/32768. |
| Basics.DecodePcmAppend | backend/streaming/audio_stream.py:54-55 | Decoding even chunks one by one is decoding them together. |

## Left out

- Floating-point rounding: samples, probabilities and milliseconds are exact; only `round` and `ceil` round.
- The neural backends, the energy fallback, RMS values, k2 decoding and the sidecar's model are arbitrary inputs; the int16 conversion in front of the TEN backend is part of the backend.
- Changing the VAD configuration in the middle of a run: `Vad.VADProcessor.ApplyConfig` is modelled, the theorems about runs keep one configuration.
- `WholeUtteranceStream`, which only concatenates.
- Feeds of an odd number of bytes to `VadSegmentedStream`: NumPy raises, and the model requires an even number.
- Fields of the voice evidence that are only reported: speech duration, ratio, RMS, maximum and mean probability; the ratio and the RMS do decide acceptance.
- `vad_trim_audio` and `analyze_speech_presence`: one scan each, easier than the two passes modelled.
- The design of the resampler kernel; a kernel is any non-empty list of taps.
- A negative `threshold` of `detect_and_fix_repetitions`, whose only caller uses the default of twenty; the bounds of the repetition filter are for a threshold of at least one.
- FinishedText.BoundedExactly: at thresholds below ten it leaves open the short units of which `threshold + 1` copies fit into two pieces of sixteen characters, since an earlier pass then cuts the pieces; no caller uses such a threshold. That single characters and no others keep the threshold, and that lengths dividing sixteen keep a bound, is proved for every threshold of at least one.
- The contents and order of the bounded request queues of the k2 and diarization clients: only whether there is room.
- A second `start` of a diarization session; `finish` only closes the request side.
- Connecting, health checks, gRPC and cancellation; `aclose` of a k2 stream that was never started. A cancelled or failed call appears as the end of the receive loop.
- k2 and segment ids are numbers, the original's `seg-n` with its counter.
- Job ids are taken to be fresh, as the random tokens intend; `release_payload` is taken not to fail, so `_run_job` never reaches its outer handler.
- Recognition of the segments, prompts, hotwords, text clean-up, ITN, HTTP and WebSocket routes.
- The speaker-embedding call and the enrollment caches.
