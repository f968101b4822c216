# Verified model of the FFmpeg 2.7.2 tools

The editor bundles the command-line tools of FFmpeg 2.7.2. This project models
their state machines and transducers in Dafny and proves what they are for.

- **ffplay** (`ffplay.c`): the packet queues between the reader and the
  decoders (`PacketQueue`), the serial numbers and flush packets that separate
  seeks (`SeekIsolation`) and the delivery of every packet (`SeekDelivery`); the
  loop that stops reading when the queues are full (`BackPressure`); the ring of
  frames whose indices move outside the lock (`FrameRing`); the external clock
  (`ExternalClock`); the unrolled subtitle blender (`SubtitleBlend`,
  `SubtitlePairs`, `SubtitlePicture`, `SubtitleLaws`, `SubtitleShift`,
  `SubtitleEmpty`, `SubtitleColours`); the key that steps through the streams
  (`ChannelCycle`, `ChannelOrder`).
- **ffmpeg** (`ffmpeg.c`): the frame-rate controller (`VideoSync`,
  `VideoSyncLaws`, `VideoSyncCounts`, `VideoSyncTimes`), the repair of decode
  timestamps (`DtsRepair`) and the re-basing of inputs whose timestamps jump
  (`Discontinuity`, `DiscontinuityRules`).
- **ffprobe** (`ffprobe.c`): the writer API with its JSON writer, read back by a
  parser of RFC 8259 (`JsonText`, `JsonWriter`, `JsonRoundTrip`, `JsonRuns`), the
  escapers (`Escapers`, `EscaperLaws`) and the selection of sections
  (`Sections`).
- **cmdutils** (`cmdutils.c`): the command-line splitter (`CommandLine`,
  `CommandLineTokens`, `CommandLineLaws`).
- **ffserver** (`ffserver_config.c`): the tags of the configuration file and its
  two linked lists (`ConfigLists`, `ConfigNames`), the language of accepted files
  (`ConfigGrammar`) and of files that end the reading early (`ConfigFailures`).
- **the DXVA2 decoder** (`ffmpeg_dxva2.c`): the pool of surfaces
  (`SurfacePool`, `SurfaceOrder`).

## How the model is built

Code that updates fields in place is a class whose methods are proved against a
specification function of the old state; the laws are lemmas about that function
over every run. Threads are state machines: each region under a lock, and each
unlocked access to a shared index, is one atomic step, and an action list stands
for an interleaving. Codecs, demuxers, muxers, the string validation and the
option tables of the libraries are parameters. `double` is `real`, `lrint` is
rounding half to even, 64-bit timestamps are unbounded integers with
`AV_NOPTS_VALUE` as a value of its own.

Some promises hold only under a condition, which is stated and proved:

- A C-escaped field can be read back exactly if its separator is none of
  `b`, `f`, `n`, `r` (`Escapers.CEscapeInvertibleIff`), a CSV record exactly if
  the separator is not the quote (`Escapers.CsvRoundTripIff`).
- JSON output is a JSON text exactly if no object starts with a string that
  failed validation before something shown, and every element of
  `packets_and_frames` starts with something shown
  (`JsonRoundTrip.JsonRoundTripIff`, with `JsonRuns.EmptyFrameUnreadable` and
  `JsonRuns.BadFirstUnreadable` as the failing runs).
- A configuration file crashes the parser exactly if a feed or a redirect is
  opened without a `>` while no tag is open and no line before has failed
  (`ConfigFailures.CrashesIff`, with `FeedWithoutBracket` as the failing file);
  it is accepted exactly if it is a document of well-formed blocks
  (`ConfigGrammar.AcceptedIff`).
- Emptying a queue without the flush packet that follows breaks the isolation of
  seeks (`SeekIsolation.ClearAloneBreaksIsolation`). Every queued packet carries
  the queue's serial throughout a run exactly if the serial is raised on an empty
  queue each time (`SeekIsolation.AlwaysCurrentIff`, with `OpeningDuringSeek` as
  the failing run).
- Frames are conserved throughout a run exactly if each call skips a too large
  duplication only for a new picture with none pending, and otherwise has a
  picture and time for the last frame it plans
  (`VideoSyncLaws.FramesConservedIff`, with `CountedTwiceOnSkip` as the failing
  run). The counters of dropped and duplicated frames are exact over a run and
  its flush exactly if the first plan leaves no late copy pending or the second
  has late copies (`VideoSyncCounts.DropsAndDupsIff`, with `LateFirstPicture` as
  the failing run).
- All decode timestamps of a run rise exactly if each packet after a gap of
  packets without one comes high enough by itself (`DtsRepair.AllRiseIff`, with
  `GapForgets` as the failing run).
- Each chroma sample under a subtitle is mixed with what it covers exactly if
  the rectangle starts at an even line, has one line, or leaves no column over in
  its first row; else the chroma rows below the first are written one sample too
  early (`SubtitleShift.ChromaLawIff`). In the last row of an odd height a pair of
  columns is coloured by its right pixel alone, as the code has it.
- Each luma sample under a subtitle is blended once and no other exactly if an odd
  first column and an odd first line belong to the clipped rectangle, or nothing
  is taken of it: an empty rectangle at an odd place is blended all the same
  (`SubtitleEmpty.LumaLawIff`, with `NoColumnBlends` as the failing picture).
- Pressing the key reaches every stream if the program lists none twice, as
  libavformat sees to (`ChannelCycle.EveryChannelReached`,
  `ChannelCycle.ProgramAddStreamIndex`); a stream listed twice can trap it
  (`ChannelCycle.RepeatedEntryTraps`).
- With -vsync vscfr the clock may be set at the start, and the drift bound
  is one tick instead of half a tick (`VideoSyncLaws.DriftBound`).
- A command line splits back into the same context when it is printed with the
  trailing options last if the last of them was read from the last token, and
  with the global options last otherwise: an option without its optional argument
  and a negated option that the libraries know too are read as such only there.

## Model

| member | source | states |
|---|---|---|
| PacketQueue.PacketList.PutPrivate | ffmpeg-2.7.2/ffplay.c:388-414 | refines appending to a sequence: nothing when aborted, a flush packet starts a new serial, nb_packets and size follow, the other nodes stay linked in order |
| PacketQueue.PacketList.Flush | ffmpeg-2.7.2/ffplay.c:453-468 | leaves the empty sequence and keeps serial and abort flag; the walk over the list ends |
| PacketQueue.PacketList.AbortQueue | ffmpeg-2.7.2/ffplay.c:477-486 | sets the abort flag and nothing else |
| PacketQueue.PacketList.StartQueue | ffmpeg-2.7.2/ffplay.c:488-494 | clears the abort flag and queues a flush packet with a new serial |
| PacketQueue.PacketList.Get | ffmpeg-2.7.2/ffplay.c:497-532 | takes the first entry with the serial it was queued under; abort first, then the first packet, then wait or give up |
| PacketQueue.BytesAppend | ffmpeg-2.7.2/ffplay.c:409-410 | queueing a packet raises the byte count by its size and one node |
| SeekIsolation.SeekIsolation | ffmpeg-2.7.2/ffplay.c:453-568 | in every interleaving of a reader that follows each emptying by a flush packet, the codec is flushed between any two data packets of different serials |
| SeekIsolation.DecodedInOrder | ffmpeg-2.7.2/ffplay.c:497-620 | in every interleaving packets reach the codec in file order, whatever is discarded |
| SeekDelivery.NothingLost | ffmpeg-2.7.2/ffplay.c:542-620 | in every interleaving without a seek, an abort or a failed call the decoder works off the packets of the queue's serial like a list: only the first is given to the codec, again and again until all its bytes are taken, and none is left out |
| SeekDelivery.LeftIsFinished | ffmpeg-2.7.2/ffplay.c:605-616 | a packet that has left that list was taken as a whole or to its last byte |
| SeekDelivery.NoneOvertakes | ffmpeg-2.7.2/ffplay.c:497-620 | while a packet is on the list no packet behind it is given to the codec |
| SeekDelivery.FirstIsTaken | ffmpeg-2.7.2/ffplay.c:550-568 | the first queued packet reaches the codec as it is if it carries the queue's serial, and is passed over otherwise |
| SeekDelivery.PendingComesFirst | ffmpeg-2.7.2/ffplay.c:549-550 | a pending packet is given to the codec again before another is fetched |
| SeekIsolation.NoStaleData | ffmpeg-2.7.2/ffplay.c:542-620 | after a seek raised the serial no packet of an older serial is decoded, except that one packet which had passed the serial check may be the very next the codec is given |
| SeekIsolation.ClearAloneBreaksIsolation | ffmpeg-2.7.2/ffplay.c:3078-3090 | a run in which the flush packet is lost and the codec sees two serials in a row |
| SeekIsolation.StaysCurrentIff | ffmpeg-2.7.2/ffplay.c:388-532 | a step keeps every queued packet at the queue's serial exactly if it raises the serial on an empty queue or not at all |
| SeekIsolation.AlwaysCurrentIff | ffmpeg-2.7.2/ffplay.c:388-532 | throughout a run every queued packet carries the queue's serial exactly if each raise of the serial finds the queue empty |
| SeekIsolation.QueuedSerialsCurrent | ffmpeg-2.7.2/ffplay.c:388-495 | in every orderly run, from the start and through any number of opened streams and seeks, every queued packet carries the queue's serial |
| SeekIsolation.OpeningDuringSeek | ffmpeg-2.7.2/ffplay.c:488-494 | a stream opened between emptying and flush packet leaves two serials queued |
| SeekIsolation.RunKeepsInv | ffmpeg-2.7.2/ffplay.c:388-568 | every run keeps: serials in the queue rise, each change of serial is announced by a queued flush packet, the held packet is of the flushed serial |
| SeekIsolation.StartKeepsInv | ffmpeg-2.7.2/ffplay.c:771-778 | a decoder stopped and started again keeps that invariant |
| SeekIsolation.StepKeepsOrder | ffmpeg-2.7.2/ffplay.c:497-620 | every step keeps the packets queued, held and decoded in file order |
| BackPressure.QueuesBounded | ffmpeg-2.7.2/ffplay.c:3078-3173 | at no moment of any interleaving do the three queues hold more than MAX_QUEUE_SIZE, the largest packet and three nodes |
| BackPressure.StepKeepsBound | ffmpeg-2.7.2/ffplay.c:3115-3128 | each step keeps the excess within one packet and a node for every queue that is not empty, although the sizes are added up one unlocked read at a time, in any order |
| BackPressure.ReadsIff | ffmpeg-2.7.2/ffplay.c:3115-3128 | after summing up the loop reads exactly if the sum is within 15 megabytes and some open stream that is not stopping has at most five packets |
| BackPressure.SumsUp | ffmpeg-2.7.2/ffplay.c:3116 | read in any order without interference, the sum is that of all three queues |
| BackPressure.SeekFlushesAll | ffmpeg-2.7.2/ffplay.c:3078-3092 | a seek that nothing interferes with leaves every open queue with a flush packet of a new serial alone, and touches no other |
| BackPressure.StartBounded | ffmpeg-2.7.2/ffplay.c:488-494 | the loop starts within the bound |
| FrameRing.RingSafe | ffmpeg-2.7.2/ffplay.c:675-759 | over every interleaving of producer and consumer, with index updates outside the lock: the counters agree, every frame not yet dropped is intact, frames are passed in push order |
| FrameRing.RingReaders | ffmpeg-2.7.2/ffplay.c:675-704 | what peek shows is the frame after the last one passed, the kept frame is the last one passed, and the slot being filled is neither |
| FrameRing.WritableNotLive | ffmpeg-2.7.2/ffplay.c:690-704 | the slot handed to the producer is none in the consumer's window |
| FrameRing.NextPassesOne | ffmpeg-2.7.2/ffplay.c:732-759 | between two moments at which the consumer is idle, the number of frames it is told remain rises by the completed pushes, falls by one for each next and rises by one for each prev that found a kept frame |
| FrameRing.ThreadsGoOn | ffmpeg-2.7.2/ffplay.c:690-759 | the producer can go on exactly while there is room and no abort, the consumer exactly while a pushed frame is not passed |
| FrameRing.PeekSlotIs | ffmpeg-2.7.2/ffplay.c:675-683 | the index computed with % is the slot of that frame |
| FrameRing.FrameQueue.constructor | ffmpeg-2.7.2/ffplay.c:638-653 | an empty queue of at most FRAME_QUEUE_SIZE slots |
| FrameRing.FrameQueue.PeekWritable | ffmpeg-2.7.2/ffplay.c:690-704 | the write slot if there is room and no abort; it holds no queued frame |
| FrameRing.FrameQueue.Push | ffmpeg-2.7.2/ffplay.c:722-730 | appends the frame in the write slot |
| FrameRing.FrameQueue.NextFrame | ffmpeg-2.7.2/ffplay.c:732-745 | marks the first frame as shown when it is to be kept, else drops the first |
| FrameRing.FrameQueue.PrevFrame | ffmpeg-2.7.2/ffplay.c:748-753 | unmarks the kept frame and says whether there was one |
| FrameRing.FrameQueue.NbRemaining | ffmpeg-2.7.2/ffplay.c:756-759 | the number of frames not shown yet |
| FrameRing.FrameQueue.Peek | ffmpeg-2.7.2/ffplay.c:675-678 | the slot of the next frame to show |
| FrameRing.FrameQueue.PeekNext | ffmpeg-2.7.2/ffplay.c:680-683 | the slot of the one after it |
| FrameRing.FrameQueue.PeekLast | ffmpeg-2.7.2/ffplay.c:685-688 | the first frame in the queue, which is the one shown last when one is kept |
| FrameRing.FrameQueue.LastPos | ffmpeg-2.7.2/ffplay.c:762-769 | the file position of the frame shown last if it is of the current serial |
| ExternalClock.Clock.GetClock | ffmpeg-2.7.2/ffplay.c:1394-1404 | nothing for another serial; a paused clock stands, a running one drifts with its speed |
| ExternalClock.Clock.SetClockAt | ffmpeg-2.7.2/ffplay.c:1406-1412 | sets value, serial and both times |
| ExternalClock.Clock.SetClockSpeed | ffmpeg-2.7.2/ffplay.c:1420-1424 | re-anchors the clock at what it shows, then changes the speed |
| ExternalClock.Clock.SyncToSlave | ffmpeg-2.7.2/ffplay.c:1434-1440 | takes over the slave's value when unset or too far from it |
| ExternalClock.SyncedIsClose | ffmpeg-2.7.2/ffplay.c:1434-1440 | after a synchronisation the clock shows the slave's time or was within the threshold and is untouched |
| ExternalClock.SyncedIff | ffmpeg-2.7.2/ffplay.c:1434-1440 | the slave is taken over exactly if it is known and the clock is unset or more than ten seconds off; else nothing changes |
| ExternalClock.ExternalClockOwner.CheckExternalClockSpeed | ffmpeg-2.7.2/ffplay.c:1477-1489 | one step slower when a queue runs dry, faster when the queues are full, else one step towards normal |
| ExternalClock.ExternalClockOwner.TogglePause | ffmpeg-2.7.2/ffplay.c:1506-1517 | re-anchors the external clock and flips the pause flags; when playing goes on the frame timer is moved by the time since the video clock was set, and that clock is re-anchored |
| ExternalClock.ResumedShows | ffmpeg-2.7.2/ffplay.c:1508-1514 | when playing goes on, a video clock that could not tell the pause shows what it showed before, one of an obsolete serial nothing |
| ExternalClock.ResumedRunsOn | ffmpeg-2.7.2/ffplay.c:1508-1514 | one that could tell it goes on as if it had run through the pause |
| ExternalClock.SpeedFollowsQueues | ffmpeg-2.7.2/ffplay.c:1477-1489 | a shown queue of at most two packets slows the clock by one step, more than ten in each shown queue speed it up, anything between moves it towards 1 |
| ExternalClock.SpeedStaysOnGrid | ffmpeg-2.7.2/ffplay.c:1477-1489 | every speed is a whole number of steps from 1 and within 0.900 and 1.010 |
| ExternalClock.ReturnsToNormal | ffmpeg-2.7.2/ffplay.c:1485-1488 | over any readings that ask for no correction the speed is exactly 1 again after as many checks as steps |
| ExternalClock.EventsAreContinuous | ffmpeg-2.7.2/ffplay.c:1420-1424 | a speed change or pause toggle makes the clock show what it showed when read |
| ExternalClock.ClockLaw | ffmpeg-2.7.2/ffplay.c:1394-1424 | over every run between resynchronisations the clock advances by exactly the sum of playing time times current speed |
| ExternalClock.ClockRate | ffmpeg-2.7.2/ffplay.c:1477-1489 | hence by between 0.900 and 1.010 of the playing time |
| SubtitlePicture.BlendSubrect | ffmpeg-2.7.2/ffplay.c:858-1056 | for clipped rectangles of any parity and size, whenever the rows the code takes lie inside the planes and the source, the three planes become those of the row-by-row specification, with the pointers moved as the code moves them |
| SubtitleBlend.Picture.BlendOne | ffmpeg-2.7.2/ffplay.c:882-928 | a single row: every luma and chroma sample written once, the chroma pointers one short when a column is left over; of no columns, at an odd one, two are taken |
| SubtitlePairs.BlendTwo | ffmpeg-2.7.2/ffplay.c:929-1013 | two rows at a time: both luma rows and the chroma row they share; of no columns, at an odd one, two are taken |
| SubtitlePairs.Square | ffmpeg-2.7.2/ffplay.c:955-989 | four luma samples and one sample of each chroma plane, from the sums over the four pixels |
| SubtitlePairs.UprightColumn | ffmpeg-2.7.2/ffplay.c:934-954 | a single column of two rows |
| SubtitleBlend.MixRange | ffmpeg-2.7.2/ffplay.c:829-830 | a mixture of values up to a bound stays within 255 times the bound, so every blended sample is 0..255 |
| SubtitlePicture.AllFit | ffmpeg-2.7.2/ffplay.c:867-880 | of a rectangle that contains its odd first column and line every row lies inside the planes and the source, if the picture and the subtitle have room |
| SubtitlePicture.WidthFormula | ffmpeg-2.7.2/ffplay.c:875 | the formula for width2 is the number of chroma samples a row touches |
| SubtitlePicture.ClippedIs | ffmpeg-2.7.2/ffplay.c:867-870 | a rectangle inside the picture is left as it is, any other becomes the nearest one inside, size first |
| SubtitleLaws.LumaRefines | ffmpeg-2.7.2/ffplay.c:858-1056 | the unrolled code makes the luma plane of the simple loop over rows and columns |
| SubtitleLaws.LumaLaw | ffmpeg-2.7.2/ffplay.c:858-1056 | each luma sample of the rectangle is blended once with its own source pixel, every other one is unchanged |
| SubtitleEmpty.LumaLawIff | ffmpeg-2.7.2/ffplay.c:882-1056 | that holds of every subtitle and picture exactly if an odd first column and line belong to the rectangle, or nothing is taken of it |
| SubtitleEmpty.NoColumnBlends | ffmpeg-2.7.2/ffplay.c:1014-1055 | a subtitle without columns at column 1 lights two samples |
| SubtitleLaws.ChromaRefines | ffmpeg-2.7.2/ffplay.c:858-1056 | in every case the unrolled code makes the chroma planes of one row after another, those below a first row alone one sample early when a column was left over |
| SubtitleLaws.ChromaLaw | ffmpeg-2.7.2/ffplay.c:858-1056 | in step, each chroma sample is mixed once with the sum of the pixels it covers, every other one is unchanged; in a tail, with the weight of both and the colour of the right pixel |
| SubtitleColours.LumaArithmetic | ffmpeg-2.7.2/ffplay.c:829-898 | each luma sample becomes (was (255 - a) + y a) / 255 of the palette entry at its own place |
| SubtitleColours.ChromaArithmetic | ffmpeg-2.7.2/ffplay.c:829-1056 | in step each sample of the blue and the red plane becomes (was n (255 - w) + c w) / (255 n), with n the entries covered, w a quarter of their alpha, and c the sum of their u for blue, of their v for red; in a tail that of the right one |
| SubtitleColours.BlueFromU | ffmpeg-2.7.2/ffplay.c:887-1056 | the blue plane depends on nothing of the colours but u and alpha |
| SubtitleColours.RedFromV | ffmpeg-2.7.2/ffplay.c:887-1056 | the red plane on nothing but v and alpha |
| SubtitleShift.ChromaLawIff | ffmpeg-2.7.2/ffplay.c:882-1056 | that holds of every subtitle and picture that clip to the rectangle exactly if it is in step |
| SubtitleShift.LawFails | ffmpeg-2.7.2/ffplay.c:916-926 | out of step an inked subtitle, which the program can be given, leaves the last chroma sample of its second chroma row untouched |
| SubtitleLaws.AlignedIff | ffmpeg-2.7.2/ffplay.c:916-926 | the chroma pointers move exactly one line exactly if the first row alone leaves no column over |
| ChannelCycle.CycleChannel | ffmpeg-2.7.2/ffplay.c:3246-3322 | the stream to show next is the first acceptable one after the last in cyclic order, with the extra "off" for subtitles; without one the last stays |
| ChannelCycle.Search | ffmpeg-2.7.2/ffplay.c:3277-3316 | the search loop ends and returns the first hit |
| ChannelOrder.FirstHitMeans | ffmpeg-2.7.2/ffplay.c:3277-3316 | nothing that plays lies between the start and the hit, upwards and, except for subtitles, from the beginning again |
| ChannelOrder.StartIs | ffmpeg-2.7.2/ffplay.c:3265-3275 | the search starts at the last stream, in a program at its first place there, else before all |
| ChannelOrder.PressedPlays | ffmpeg-2.7.2/ffplay.c:3294-3312 | a press leads to a stream of the kind, with sane audio parameters and in the program, or to "off" for subtitles |
| ChannelCycle.NextExists | ffmpeg-2.7.2/ffplay.c:3277-3316 | as long as another stream can be shown, a press comes strictly nearer to it |
| ChannelCycle.EveryChannelReached | ffmpeg-2.7.2/ffplay.c:3246-3322 | whatever was shown last, a chain of presses, each starting from the stream the one before it left, reaches every stream that can be shown, and "off" |
| ChannelCycle.ProgramAddStreamIndex | ffmpeg-2.7.2/libavformat/utils.c:3798-3823 | a program lists a stream of the file at most once |
| ChannelCycle.RepeatedEntryTraps | ffmpeg-2.7.2/ffplay.c:3267-3276 | in a program that lists a stream twice a press can lead back to it for ever |
| VideoSync.OutputStream.DoVideoOut | ffmpeg-2.7.2/ffmpeg.c:892-1191 | the whole step against its specification: plan, counters, frames written, history and last frame |
| VideoSync.OutputStream.Decide | ffmpeg-2.7.2/ffmpeg.c:931-1003 | how many frames an input asks for in each mode |
| VideoSync.OutputStream.DecideConstantRate | ffmpeg-2.7.2/ffmpeg.c:972-989 | the constant-rate decision, with the drop threshold and late copies |
| VideoSync.OutputStream.PlanFrames | ffmpeg-2.7.2/ffmpeg.c:926-1006 | the plan with the limits, and the median of the history at a flush |
| VideoSync.OutputStream.CountFrames | ffmpeg-2.7.2/ffmpeg.c:1008-1029 | drops, duplicates, history and the "duplication too large" exit |
| VideoSync.OutputStream.EmitFrames | ffmpeg-2.7.2/ffmpeg.c:1031-1183 | which source each frame is written from and with which timestamp |
| VideoSync.OutputStream.CheckRecordingTime | ffmpeg-2.7.2/ffmpeg.c:746-757 | whether the recording time is over, and the finished flag |
| VideoSyncLaws.DriftBound | ffmpeg-2.7.2/ffmpeg.c:932-1006 | at a constant rate, after every call the end of the input lies between 2.1 ticks before and half a tick after the output clock |
| VideoSyncLaws.PlanDrift | ffmpeg-2.7.2/ffmpeg.c:932-989 | one decision brings the clock within those bounds again |
| VideoSyncLaws.ConstantRateConsecutive | ffmpeg-2.7.2/ffmpeg.c:1045-1179 | at a constant rate the timestamps written over any run are consecutive integers |
| VideoSyncLaws.TimestampsRise | ffmpeg-2.7.2/ffmpeg.c:1045-1179 | in every mode that keeps a rate timestamps rise strictly over every run |
| VideoSyncTimes.VfrFollows | ffmpeg-2.7.2/ffmpeg.c:955-994 | at a variable rate, over every run, an input that ends 0.6 ticks before the clock or earlier is dropped, any other is written once: at the clock if it ends at most 0.6 ticks after it, else at the tick nearest to its start |
| VideoSyncTimes.PassedThrough | ffmpeg-2.7.2/ffmpeg.c:995-998 | passed through, every input is written once at the tick nearest to its timestamp |
| VideoSyncTimes.CfrFills | ffmpeg-2.7.2/ffmpeg.c:976-988 | at a constant rate an input is written as often as it reaches past the clock, to the nearest tick, and by the picture before it as long as its own start is more than 1.1 ticks ahead |
| VideoSyncTimes.VsCfrStarts | ffmpeg-2.7.2/ffmpeg.c:968-974 | a late first input sets the clock to the tick nearest to its start and fills its duration |
| VideoSyncTimes.LimitCuts | ffmpeg-2.7.2/ffmpeg.c:1005-1006 | a frame limit cuts a plan just at the limit |
| VideoSyncTimes.FlushIsMedian | ffmpeg-2.7.2/ffmpeg.c:926-930 | a flush repeats the last picture as often as the median of the last three late counts |
| VideoSyncTimes.TimeUpIs | ffmpeg-2.7.2/ffmpeg.c:746-757 | the recording time is over exactly if the tick lies at or after it in seconds |
| VideoSyncTimes.FinishesIff | ffmpeg-2.7.2/ffmpeg.c:746-757 | a call finishes the stream exactly if the time is over by the last frame it plans and has a picture for |
| VideoSyncTimes.SkipsIff | ffmpeg-2.7.2/ffmpeg.c:1020-1027 | a call is given up exactly if it has frames to duplicate and plans more than thirty times the threshold |
| VideoSyncLaws.CallLedger | ffmpeg-2.7.2/ffmpeg.c:1008-1043 | what one call adds to frames written, dropped, pending and duplicated, in every case |
| VideoSyncLaws.CallBalancedIff | ffmpeg-2.7.2/ffmpeg.c:1005-1043 | one call accounts for its input exactly under a guard on the plan, the pending mark, the kept picture and the recording time |
| VideoSyncLaws.FramesConservedIff | ffmpeg-2.7.2/ffmpeg.c:1005-1043 | after each call of a run written + dropped + pending = inputs + duplicates, exactly if every call meets that guard |
| VideoSyncLaws.ConservedAtEndIff | ffmpeg-2.7.2/ffmpeg.c:1005-1043 | without a too large duplication the end of the run alone tells: a frame that goes missing is never made up for |
| VideoSyncLaws.CountedTwiceOnSkip | ffmpeg-2.7.2/ffmpeg.c:1011-1027 | a late picture and then one too long: the skip counts the pending picture as dropped and leaves it pending |
| VideoSyncLaws.FramesConserved | ffmpeg-2.7.2/ffmpeg.c:1005-1043 | so it holds on every run without time limit, too large duplication or flush without a picture |
| VideoSyncCounts.FirstCallIff | ffmpeg-2.7.2/ffmpeg.c:1011-1029 | the counters are true after the first call exactly if it leaves no late copy pending |
| VideoSyncCounts.DropsAndDupsIff | ffmpeg-2.7.2/ffmpeg.c:926-1191 | after a run and its flush drops are exactly the inputs never written and duplicates exactly the copies beyond the first, exactly if the first call leaves no late copy pending or the second, be it the flush, has late copies |
| VideoSyncCounts.LateFirstPicture | ffmpeg-2.7.2/ffmpeg.c:979-1029 | a first picture 2.4 ticks late is written twice and counted as dropped |
| VideoSyncCounts.SourcesInOrder | ffmpeg-2.7.2/ffmpeg.c:1032-1043 | frames are written in input order, over every run without a recording time and over its flush |
| DtsRepair.OutputStream.WriteFrame | ffmpeg-2.7.2/ffmpeg.c:674-709 | the timestamp part of write_frame and the last mux timestamp it leaves |
| DtsRepair.GuessIsMedian | ffmpeg-2.7.2/ffmpeg.c:681-684 | the guess is the median of pts, dts and the next possible dts |
| DtsRepair.RepairAcceptable | ffmpeg-2.7.2/ffmpeg.c:674-709 | one packet is written acceptably after the last, and is left alone exactly if it was |
| DtsRepair.RepairIs | ffmpeg-2.7.2/ffmpeg.c:674-709 | the two timestamps written: the median when decoding would come later, then the least allowed dts, and pts raised along with it |
| DtsRepair.WrittenValid | ffmpeg-2.7.2/ffmpeg.c:674-709 | over every run neighbouring dts rise (never fall where equal ones are allowed), pts is never before dts, and no timestamp appears or disappears |
| DtsRepair.UnchangedIffValid | ffmpeg-2.7.2/ffmpeg.c:674-709 | a run is written unchanged exactly if it was valid |
| DtsRepair.RepairIdempotent | ffmpeg-2.7.2/ffmpeg.c:674-709 | repairing twice is repairing once |
| DtsRepair.StretchRises | ffmpeg-2.7.2/ffmpeg.c:687-709 | dts rise through any stretch of packets that all have one |
| DtsRepair.GapRisesIff | ffmpeg-2.7.2/ffmpeg.c:674-709 | across packets without dts the next dts is above the last one exactly if it, or a pts below it, was |
| DtsRepair.AllRiseIff | ffmpeg-2.7.2/ffmpeg.c:674-709 | all the dts of a run rise exactly if that is so at every gap |
| DtsRepair.LeastRepair | ffmpeg-2.7.2/ffmpeg.c:687-705 | where only dts are raised, no other rising choice raises any of them less |
| Discontinuity.InputFile.ProcessInput | ffmpeg-2.7.2/ffmpeg.c:3648-3769 | the timestamp part of process_input against its specification |
| Discontinuity.InputFile.CorrectWrap | ffmpeg-2.7.2/ffmpeg.c:3648-3681 | wrap correction: which stamps lose one period, and when correction ends |
| Discontinuity.InputFile.FollowPrediction | ffmpeg-2.7.2/ffmpeg.c:3732-3766 | what happens to a packet with a predicted dts, for formats that jump and others |
| Discontinuity.InputFile.TakeOut | ffmpeg-2.7.2/ffmpeg.c:3719-3729 | a jump is moved from the packet into the file's offset |
| Discontinuity.LandsAtOffset | ffmpeg-2.7.2/ffmpeg.c:3704-3769 | a packet leaves at its wrap-corrected dts plus the file's new offset, up to one tick of rounding |
| Discontinuity.LandsExactly | ffmpeg-2.7.2/ffmpeg.c:3704-3769 | and exactly, when offset and jump are whole ticks |
| Discontinuity.StampsMoveTogether | ffmpeg-2.7.2/ffmpeg.c:3704-3769 | pts and dts are moved equally |
| Discontinuity.LandsNearReference | ffmpeg-2.7.2/ffmpeg.c:3714-3749 | a packet leaves within dts_delta_threshold of the prediction, and at it after a jump |
| Discontinuity.OtherFormats | ffmpeg-2.7.2/ffmpeg.c:3750-3765 | other formats never move the offset, and stamps kept are within the error threshold |
| DiscontinuityRules.UnwrapIs | ffmpeg-2.7.2/ffmpeg.c:3667-3679 | while correction is pending a timestamp more than half a period after the start goes back one period, and no other |
| DiscontinuityRules.LeastStartIs | ffmpeg-2.7.2/ffmpeg.c:3655-3662 | that start is a least one |
| DiscontinuityRules.JumpIff | ffmpeg-2.7.2/ffmpeg.c:3714-3749 | a packet jumps exactly if it is off its reference by more than the threshold or 0.1 seconds before what was decoded, and then by all of the difference |
| DiscontinuityRules.KeptIff | ffmpeg-2.7.2/ffmpeg.c:3750-3765 | where timestamps cannot jump one is kept exactly if it is within the threshold of the prediction |
| DiscontinuityRules.LastIsRemembered | ffmpeg-2.7.2/ffmpeg.c:3768-3769 | the file remembers the time of the last packet with a dts |
| Discontinuity.RunLandsAtOffset | ffmpeg-2.7.2/ffmpeg.c:3648-3769 | at any point of a run over any streams a packet leaves at its wrap-corrected dts plus the file's first offset and start correction, less all jumps up to it, up to one tick |
| Discontinuity.RunTakesOutStrays | ffmpeg-2.7.2/ffmpeg.c:3714-3769 | what is taken out by then is what the packets of the jumps had strayed from the times they were measured against, up to half a microsecond a jump |
| Discontinuity.RunDistance | ffmpeg-2.7.2/ffmpeg.c:3704-3769 | two packets of a run, of one stream or two, change their distance by just the jumps and the start correction between them, up to both ticks |
| Discontinuity.DistanceKept | ffmpeg-2.7.2/ffmpeg.c:3704-3769 | packets that leave at the same offset keep their distance, across streams as well, up to both ticks |
| JsonWriter.WriterContext.PrintSectionHeader | ffmpeg-2.7.2/ffprobe.c:507-529 | pushes a level with an item count of zero and prints the header text |
| JsonWriter.WriterContext.PrintSectionFooter | ffmpeg-2.7.2/ffprobe.c:531-546 | counts the section in its parent, prints the footer text and pops the level |
| JsonWriter.WriterContext.PrintInteger | ffmpeg-2.7.2/ffprobe.c:548-557 | prints and counts an item that is shown, else nothing |
| JsonWriter.WriterContext.PrintString | ffmpeg-2.7.2/ffprobe.c:617-651 | the same for strings, with optional ones skipped and validation that may fail and is then counted all the same |
| JsonWriter.WriterContext.JsonPrintSectionHeader | ffmpeg-2.7.2/ffprobe.c:1385-1421 | the comma, indentation, name and opening of a section, and the "type" of an element of packets_and_frames |
| JsonWriter.WriterContext.JsonPrintSectionFooter | ffmpeg-2.7.2/ffprobe.c:1423-1443 | the closing of a section |
| JsonWriter.WriterContext.JsonPrintInt | ffmpeg-2.7.2/ffprobe.c:1468-1481 | separator, key and number |
| JsonWriter.WriterContext.JsonPrintStr | ffmpeg-2.7.2/ffprobe.c:1445-1466 | separator, key and text, both escaped |
| JsonRoundTrip.JsonRoundTripIff | ffmpeg-2.7.2/ffprobe.c:507-1481 | for every well-nested run, compact or not, the text is a JSON text exactly if the run is clean, and then parsing returns the ordered tree of what was shown |
| JsonRoundTrip.JsonRoundTrip | ffmpeg-2.7.2/ffprobe.c:507-1481 | without failed strings and empty packets_and_frames elements the text reads back as the tree |
| JsonRoundTrip.TreeTokens | ffmpeg-2.7.2/ffprobe.c:1385-1481 | nb_item puts every comma where the grammar wants it |
| JsonRoundTrip.UncleanStray | ffmpeg-2.7.2/ffprobe.c:617-651 | a run that is not clean prints a comma no JSON text has |
| JsonRoundTrip.FateIs | ffmpeg-2.7.2/ffprobe.c:548-651 | of an item the writer prints its key and value as validation leaves them, nothing if it is optional or not asked for, and a gap if it is invalid |
| JsonRuns.IntegerReadsBack | ffmpeg-2.7.2/ffprobe.c:548-557 | a number asked for is read back under its key, another is not there |
| JsonRuns.TextReadsBack | ffmpeg-2.7.2/ffprobe.c:617-651 | a string asked for is read back under its key, as it is or as validation leaves both; one that is optional, not asked for or invalid is not there |
| JsonRuns.EmptyFrameUnreadable | ffmpeg-2.7.2/ffprobe.c:1413-1420 | a frame among packets and frames of which nothing is shown makes the output no JSON text |
| JsonRuns.BadFirstUnreadable | ffmpeg-2.7.2/ffprobe.c:617-651 | nor is it one when a string that fails validation comes first in an object |
| JsonRoundTrip.LexTree | ffmpeg-2.7.2/ffprobe.c:1363-1481 | the text of any run read as tokens: strings, numbers and blanks survive |
| JsonText.JsonEscapeStr | ffmpeg-2.7.2/ffprobe.c:1363-1381 | the loop computes the character-wise escape |
| JsonText.ReadStringInverse | ffmpeg-2.7.2/ffprobe.c:1363-1381 | an escaped string between quotes is read back by the string grammar of section 7 of RFC 8259 |
| JsonText.ReadNatInverse | ffmpeg-2.7.2/ffprobe.c:1479 | a printed number is read back by the number grammar of section 6 of RFC 8259 |
| JsonText.ParseInverse | ffmpeg-2.7.2/ffprobe.c:1385-1481 | the parser returns a value from its tokens and leaves what follows |
| JsonText.ParseSound | ffmpeg-2.7.2/ffprobe.c:1385-1481 | and accepts nothing else: a parsed prefix is the tokens of its value |
| Escapers.CEscapeStr | ffmpeg-2.7.2/ffprobe.c:901-919 | the loop computes the character-wise escape |
| Escapers.CEscapeInvertibleIff | ffmpeg-2.7.2/ffprobe.c:901-919 | C escaping loses nothing exactly if the separator is none of b, f, n, r |
| EscaperLaws.CEscapeGuards | ffmpeg-2.7.2/ffprobe.c:901-919 | neither the separator nor a line or page break stands bare, and text without them is left alone |
| Escapers.FlatEscapeValueStr | ffmpeg-2.7.2/ffprobe.c:1156-1172 | the loop computes the character-wise escape |
| Escapers.FlatEscapeInvertible | ffmpeg-2.7.2/ffprobe.c:1156-1172 | flat values can be unescaped |
| EscaperLaws.FlatEscapeGuards | ffmpeg-2.7.2/ffprobe.c:1156-1172 | no quote, backquote, dollar or line break stands bare |
| Escapers.IniEscapeStr | ffmpeg-2.7.2/ffprobe.c:1247-1272 | the loop computes the character-wise escape |
| Escapers.IniEscapeInvertible | ffmpeg-2.7.2/ffprobe.c:1247-1272 | INI values can be unescaped |
| EscaperLaws.IniEscapeGuards | ffmpeg-2.7.2/ffprobe.c:1247-1272 | no comment sign, key separator or control character stands bare |
| Escapers.XmlEscapeStr | ffmpeg-2.7.2/ffprobe.c:1546-1562 | the loop computes the character-wise escape |
| Escapers.XmlEscapeInvertible | ffmpeg-2.7.2/ffprobe.c:1546-1562 | the predefined entities of section 4.6 of XML 1.0 give the text back, and no markup character is left |
| Escapers.CsvEscapeStr | ffmpeg-2.7.2/ffprobe.c:924-940 | quotes a field that needs it and doubles its quotes |
| Escapers.CsvSplitRecord | ffmpeg-2.7.2/ffprobe.c:924-940 | escaped fields joined by any separator but the quote split back into the record by section 2 of RFC 4180 |
| Escapers.CsvRoundTripIff | ffmpeg-2.7.2/ffprobe.c:924-940 | and only then |
| EscaperLaws.CsvQuotesIff | ffmpeg-2.7.2/ffprobe.c:924-940 | a field is quoted exactly if it holds the separator, a quote or a line break |
| Sections.SectionTable.MarkSectionShowEntries | ffmpeg-2.7.2/ffprobe.c:2745-2758 | on any acyclic table, showing all marks exactly the sections reachable; otherwise entries are added to the one section |
| Sections.SectionTable.CheckSectionShowEntries | ffmpeg-2.7.2/ffprobe.c:3117-3127 | true exactly if some reachable section is marked or has entries |
| Sections.SectionTable.MatchSection | ffmpeg-2.7.2/ffprobe.c:2760-2777 | does so for every section of a name, and tells whether there is one |
| Sections.ReachesIff | ffmpeg-2.7.2/ffprobe.c:2745-2758 | reachable means itself or reachable from a child |
| Sections.ProbeTableAcyclic | ffmpeg-2.7.2/ffprobe.c:165-208 | the table of the program is acyclic |
| Sections.ProbeTableLayout | ffmpeg-2.7.2/ffprobe.c:165-208 | in it arrays hold no arrays and the root is below nothing |
| Sections.ProbeDepth | ffmpeg-2.7.2/ffprobe.c:165-208 | sections nested as the program nests them, packets and frames together included (ffprobe.c:2586-2599), never need more levels than a writer has |
| CommandLine.LookUpOption | ffmpeg-2.7.2/cmdutils.c:205-216 | the first table option that is named: by the key itself or the key up to a colon; none exactly if none is |
| CommandLine.MatchGroupSeparator | ffmpeg-2.7.2/cmdutils.c:617-629 | the first group with this separator, -1 exactly if none has it |
| CommandLineTokens.SpecifierIsRead | ffmpeg-2.7.2/cmdutils.c:785-804 | "-name:spec argument" is the table option of that name with that argument, whatever the specifier |
| CommandLineTokens.ReadsSeparator | ffmpeg-2.7.2/cmdutils.c:775-783 | a separator takes the next token as the argument of its group |
| CommandLineTokens.ReadsTable | ffmpeg-2.7.2/cmdutils.c:785-804 | how many tokens a table option takes, and its value |
| CommandLineTokens.ReadsLibrary | ffmpeg-2.7.2/cmdutils.c:806-819 | what is not in the table goes to the libraries with the next token |
| CommandLineTokens.ReadsRest | ffmpeg-2.7.2/cmdutils.c:821-832 | else it is a Boolean option with "no" in front, or refused |
| CommandLineTokens.ReadsOption | ffmpeg-2.7.2/cmdutils.c:751-765 | a token of an option's form is read by its name and the next token |
| CommandLineTokens.ReadsUnnamed | ffmpeg-2.7.2/cmdutils.c:751-762 | any other, or the one after "--", ends a group |
| CommandLine.OptionParseContext.Finish | ffmpeg-2.7.2/cmdutils.c:637-667 | the current group goes to the end of its list with its argument, and a new one starts |
| CommandLine.OptionParseContext.Add | ffmpeg-2.7.2/cmdutils.c:672-682 | global options and per-file options are appended to their lists |
| CommandLine.OptionParseContext.SplitOption | ffmpeg-2.7.2/cmdutils.c:763-827 | separator, table option, library option, negated option or error, in this order |
| CommandLine.OptionParseContext.SplitCommandline | ffmpeg-2.7.2/cmdutils.c:733-837 | the loop computes the specified context or error for every argv |
| CommandLineLaws.Partition | ffmpeg-2.7.2/cmdutils.c:746-828 | a successful split uses every token once, in order |
| CommandLineLaws.SplitMeaning | ffmpeg-2.7.2/cmdutils.c:733-837 | global options are collected in order, and each group holds exactly the per-file options since the previous separator |
| CommandLineLaws.ProtectsOnlyNext | ffmpeg-2.7.2/cmdutils.c:753-762 | after "--" the next token is unnamed whatever it looks like, and no other token that looks like an option is |
| CommandLineLaws.PrintSplit | ffmpeg-2.7.2/cmdutils.c:733-837 | printing the context of any command line and splitting it again gives the same context |
| CommandLineLaws.SplitStores | ffmpeg-2.7.2/cmdutils.c:672-822 | every split leaves a context whose parts are read back as themselves, except perhaps a last one that needs the end |
| ConfigLists.Config.ParseFfconfig | ffmpeg-2.7.2/ffserver_config.c:1200-1298 | for every list of lines: the verdict, a crash included, and the sections of the line-by-line specification; at most one tag is open and is the last section; the next chain lists all sections in file order without a cycle, and the next_feed chain exactly the feeds among them |
| ConfigLists.Config.ParseLine | ffmpeg-2.7.2/ffserver_config.c:1228-1286 | what one line does in each state |
| ConfigLists.Config.FeedLine | ffmpeg-2.7.2/ffserver_config.c:1238-1253 | a line that opens a feed or comes inside one |
| ConfigLists.Config.StreamLine | ffmpeg-2.7.2/ffserver_config.c:1254-1267 | the same for streams |
| ConfigLists.Config.RedirectLine | ffmpeg-2.7.2/ffserver_config.c:1268-1282 | the same for redirects |
| ConfigLists.SectionLists.Link | ffmpeg-2.7.2/ffserver_config.c:1246-1252 | a section is linked at the end of the list, a feed at the end of both, through the tail pointers |
| ConfigLists.SectionLists.CountRivals | ffmpeg-2.7.2/ffserver_config.c:704-707 | the duplicates found: a feed is compared with every section from the first feed on, a stream with all |
| ConfigLists.SectionLists.FindFeed | ffmpeg-2.7.2/ffserver_config.c:843-856 | the walk over next_feed finds a feed of the name exactly if there is one |
| ConfigNames.NameIs | ffmpeg-2.7.2/ffserver_config.c:699-702 | the name is what stands before the last bracket |
| ConfigNames.TakenIff | ffmpeg-2.7.2/ffserver_config.c:704-707 | a new name is refused exactly if it is taken: by any section for a stream, from the first feed on for a feed, never for a redirect |
| ConfigLists.Config.InsideFeed | ffmpeg-2.7.2/ffserver_config.c:719-791 | directives inside a feed |
| ConfigLists.Config.InsideStream | ffmpeg-2.7.2/ffserver_config.c:842-1154 | directives inside a stream that matter here |
| ConfigLists.Config.InsideRedirect | ffmpeg-2.7.2/ffserver_config.c:1186-1197 | directives inside a redirect |
| ConfigGrammar.AcceptedIff | ffmpeg-2.7.2/ffserver_config.c:1200-1298 | a file is accepted exactly if it is the rendering of loose lines and well-formed blocks |
| ConfigGrammar.ReadsBack | ffmpeg-2.7.2/ffserver_config.c:1200-1298 | and reading such a document gives its sections, without errors |
| ConfigFailures.CrashesIff | ffmpeg-2.7.2/ffserver_config.c:691-702 | a file makes the parser follow a null pointer exactly if a feed or redirect tag without a bracket is the first line to fail under no open tag; which tag is open depends on the tags alone |
| ConfigFailures.OutOfMemoryIff | ffmpeg-2.7.2/ffserver_config.c:1228-1286 | and it runs out of memory exactly if a line that does so is the first to fail |
| ConfigFailures.FeedWithoutBracket | ffmpeg-2.7.2/ffserver_config.c:700-702 | a file that starts with such a feed tag crashes it |
| ConfigFailures.StreamWithoutBracket | ffmpeg-2.7.2/ffserver_config.c:820-822 | a stream tag without a bracket is accepted |
| SurfacePool.Dxva2Context.GetBuffer | ffmpeg-2.7.2/ffmpeg_dxva2.c:203-250 | the free surface of least age, marked used and newest; null only if there is none |
| SurfacePool.Dxva2Context.ReleaseBuffer | ffmpeg-2.7.2/ffmpeg_dxva2.c:186-201 | frees the surface in the pool that has the wrapper's identity, if any, and gives back the wrapper's references to its surface and decoder |
| SurfacePool.Dxva2Context.DestroyDecoder | ffmpeg-2.7.2/ffmpeg_dxva2.c:124-145 | drops the pool's references to surfaces and decoder and its surfaces |
| SurfacePool.Dxva2Context.CreateDecoder | ffmpeg-2.7.2/ffmpeg_dxva2.c:541-605 | a pool of as many surfaces as the codec and the frame threads ask for, none of them used, or, when the driver fails, an empty pool with everything given back |
| SurfacePool.Oldest | ffmpeg-2.7.2/ffmpeg_dxva2.c:210-223 | the choice is free and of minimal age, the first of equals |
| SurfaceOrder.LongestAgoFirst | ffmpeg-2.7.2/ffmpeg_dxva2.c:203-250 | over the life of a decoder the surface handed out next is free, and no free one was handed out before it; of those the first |
| SurfacePool.PoolExclusive | ffmpeg-2.7.2/ffmpeg_dxva2.c:124-250 | in every run through any number of decoders a surface is used exactly if one outstanding wrapper of the current pool holds it, and the reference counts of surfaces and decoders are exact |
| SurfacePool.PoolAnswers | ffmpeg-2.7.2/ffmpeg_dxva2.c:186-250 | get fails exactly when all are held, a stale wrapper frees nothing, and with every wrapper back all are free |
| Rounding.RoundHalfEven | ffmpeg-2.7.2/ffmpeg.c:976-983 | lrint and lrintf: the nearest integer, the even one of two |
| Rounding.RoundHalfAway | ffmpeg-2.7.2/ffmpeg.c:3704-3727 | av_rescale_q: the nearest integer, away from zero of two |

## Left out

- Decoders, demuxers, muxers, filters and resamplers; UTF-8 validation of strings and the option tables of the libraries are parameters, and that these know a name whatever its value (`cmdutils.c:540-610`) is assumed.
- Floating-point rounding and 64-bit overflow: reals and unbounded integers.
- Running out of memory, except where the configuration parser returns it.
- ffplay's video refresh, audio output, frame timer, the video and audio clocks, attached pictures, opening and closing of streams while packets are counted; SDL, keyboard and terminal.
- SeekIsolation.SeekIsolation and FrameRing.RingSafe model threads as steps on values, since other threads interleave between them; the classes PacketList and FrameQueue cover the code of each operation in place.
- SubtitlePicture.BlendSubrect: palette words are taken as already split into their bytes.
- VideoSync.OutputStream.DoVideoOut: the choice of the mode for -vsync auto and the computation of the duration are inputs; encoding, statistics and the forced key frames are not modelled.
- VideoSync.OutputStream.CheckRecordingTime: under -shortest the end of one stream shortens the recording time of the others (`close_output_stream`); it is an input here.
- VideoSyncLaws.DriftBound: for a run without time or frame limit and without a too large duplication.
- DtsRepair.OutputStream.WriteFrame: the bitstream filters and the interleaving call around the timestamps.
- Discontinuity.InputFile.ProcessInput: the scaling of timestamps by -itsscale and the decoding afterwards.
- Discontinuity.LandsAtOffset: within one tick, because two rescaled shifts are rounded; LandsExactly has the case without rounding.
- JSON sections whose names need escaping in "type", which the program prints unescaped; the section table has none.
- The default, compact, flat, INI and XML writers beyond their escapers; compact keys are not escaped and flat keys collapse characters, so their text cannot be read back in general, and XML attributes can follow subsections.
- The packet and frame counters of sections, and the show_* functions that call the writers.
- ConfigLists.Config.ParseFfconfig: lines come with their first word and argument split off, cut to no length; the effect of other directives is a number of errors.
- ConfigLists.Config.InsideFeed: directives other than the file name and the closing tag are a number of errors.
- ConfigLists.Config.InsideStream: the same, but for the feed's name and the closing tag.
- CommandLine.OptionParseContext.SplitCommandline: options of the libraries are kept as a list in order, where the program keeps dictionaries in which a later value replaces an earlier one; parse_optgroup, which applies the groups.
- SurfacePool.Dxva2Context.CreateDecoder: whether the driver makes the surfaces and the decoder is an input; the choice of its format and configuration, and running out of memory for the arrays.
- The Direct3D calls and the retrieval of surface data; VDA, VDPAU and OpenCL.
- Option parsing of ffmpeg, filter graph configuration, help, version and progress output, host name resolution and file reading.
- The dialog of the editor.
