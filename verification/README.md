# NebulaDisplay, modelled and proved

NebulaDisplay streams a screen over an encrypted protocol. This project models its
state machines and incremental algorithms in Dafny and proves what they are for.
`dafny verify dfyconfig.toml` checks everything.

| file | what it models |
|---|---|
| `FrameRing.dfy`, `FrameProgress.dfy` | the shared-memory frame ring: seqlock, three slots, auto-reset event, one store or load per step; that what is published is delivered |
| `VideoPipeline.dfy`, `VideoProgress.dfy` | pump, video task and writer around `force_keyframe`, the latest-only slot and `consumed_seq`; what they get done, and when they do not |
| `ViewerGate.dfy` | the web viewer's skip-until-keyframe gate |
| `Envelope.dfy` | sealed envelopes, per-channel counters, the client's receive loop |
| `ColourConversion.dfy`, `ColourMeaning.dfy`, `VideoEncoder.dfy`, `Nv12.dfy`, `HardwareEncoder.dfy` | dirty rows, in-place partial conversion, the standard it stands for, the two encoders around it |
| `AnnexB.dfy` | the two NAL splitters and the host's header scan |
| `Boxes.dfy`, `Fragments.dfy`, `Muxer.dfy`, `MuxerRuns.dfy` | the fragmented MP4 writer against a reader, and its runs |
| `FileNames.dfy`, `FileReceive.dfy`, `DesktopReceiver.dfy` | file names, senders, what a receiver of one file does, the desktop viewer's |
| `SharedDirectory.dfy`, `HostTransfers.dfy`, `HostHistory.dfy`, `HostRuns.dfy`, `HostCrossings.dfy`, `HostDeliveries.dfy`, `HostAnswers.dfy` | host sessions on one directory, pump and supervisor access by access: steps, invariant, runs, what goes wrong between the two, whole transfers, answers to offers |
| `OfferQueue.dfy` | the panel's queue of offers |
| `Adaptive.dfy`, `AdaptiveHistory.dfy`, `AdaptiveMoves.dfy` | the bitrate controller, its hysteresis, and where bitrate and frame rate go |
| `Touch.dfy` | the multi-touch tracker |
| `Resampler.dfy` | the streaming resampler |
| `Spake2.dfy`, `Handshake.dfy`, `HandshakeRuns.dfy`, `HandshakeExpiry.dfy`, `PinOverlaps.dfy` | the key exchange, the phase machine and the PIN, whole runs of them, the PIN's lifetime, and its single lock accesses |
| `Bytes.dfy`, `Options.dfy` | bytes, big-endian numbers, optional values |

Code that works in place is a class or a method over arrays, proved against a
specification function; interleavings and runs are folds of a step function over any
list of choices, so that a lemma about them covers every schedule.

## Assumptions

- The frame ring: sequentially consistent memory, one producer, no wrap of the 32-bit
  stamp, `slot_stride` as the header file fixes it, and a pitch the driver wrote.
- AES-GCM is ideal: what opens was sealed with the same key, nonce and associated data.
  SHA-256 is a function of the bytes, fed piece by piece.
- P-256 is any group of prime order with an encoding that reads back; the scalar
  derivation and the key schedule are functions. `Spake2.AssumptionsCanBeMet` gives an
  instance.
- In `Handshake.dfy` and `HandshakeRuns.dfy` one message is handled in one step across
  connections. The source takes separate locks to read the PIN, to consume or rotate it
  and to count failures (host/service/src/pairing.rs:183-376), so results there about
  one PIN (`Handshake.LegacyPinsAreSingleUse`, `HandshakeRuns.PinsAreReusedIff`) rest on
  this; `PinOverlaps.SingleUseIffApart` says exactly what holds without it.
- A PIN is its generation number: two rotations never give the same digits.
- Storage does what a call asks or fails as a whole; nobody else writes to the receive
  directory.
- The encoder answers a forced request with a payload (`VideoPipeline.EncoderAnswers`).
  The software JPEG encoder does not force or promise this
  (host/service/src/encode/jpeg.rs:36-51 elides unchanged frames); `VideoPipeline.LostIff`
  says exactly when a request is lost without it.

## Where the code falls short of its own words

- The video task is to notice a keyframe request on a static screen, where a resyncing
  decoder "would wait for on-screen activity" (host/service/src/session.rs:591-594). It
  looks at the flag before it sleeps (host/service/src/session.rs:595-603), so a request
  that comes while it sleeps with the flag seen down waits for the next new frame
  (`VideoProgress.SleepMissesRequest`); any other is acted on within eleven steps
  (`VideoProgress.RequestIsEncodedIff`).
- The muxer's patch searches for the bytes "trun" and can find them in the sequence
  number or the decode time before it (viewer/web/src/fmp4.ts:310-325), as after six hours
  (`MuxerRuns.SpellingRunFails`). Fragments read back exactly when they do not spell it
  (`Fragments.FragmentReadsBack`).
- The muxer's comment says an init segment comes first and again after a change of
  parameter sets (viewer/web/src/fmp4.ts:115-121). A change that comes without media is
  forgotten (`MuxerRuns.SetsAloneGoUnannounced`); the comment holds exactly on the runs
  of `MuxerRuns.ToldIffInTime`.
- `annexb_any_nal` steps over short units (`AnnexB.ShortDelimiterHidesIdr`); it reads
  every header exactly when the lengths let it (`AnnexB.ScanReadsHeads`).
- PINs are called single-use (host/service/src/pin.rs:3), but a SPAKE2 exchange keeps the
  PIN it started with, so two can complete on one (`HandshakeRuns.TwoPairingsOnOnePin`).
  A PIN is reused exactly by such late confirms (`HandshakeRuns.PinsAreReusedIff`). Between
  the separate locks two legacy confirms can do the same (`PinOverlaps.TwoReadsPairTwice`).
- A fresh PIN after a failure is to keep one PIN from being ground, five tries an address
  (host/service/src/pin.rs:5-7, docs/SECURITY.md:88). The gate is asked only when an
  exchange opens, so exchanges opened in advance give one address any number of refused
  proofs against one PIN (`HandshakeRuns.BoundIsReached`); their number bounds the tries
  (`HandshakeRuns.TriesAreBounded`).
- "No false clean rows, ever" (host/service/src/encode/dirty.rs:17) holds exactly on
  frames of whole row pairs (`ColourConversion.CleanMeansSameFrame`,
  `ColourConversion.LastRowGoesUnseen`). The JPEG encoder also compares others.
- Elision rests on decoders holding the last frame
  (host/service/src/encode/h264.rs:349-350), which fails after a skipped frame
  (`VideoEncoder.SkippedThenElided`; the exact condition is
  `VideoEncoder.ElidedIsShownIff`).
- `unique_destination` is called non-clobbering
  (shared/protocol/src/files.rs:27); it is, exactly unless all names are taken
  (`FileNames.ClobbersIffAllTaken`, with such a directory in
  `FileNames.CrowdedDirectory`).
- A chunk with a foreign id ends the host's transfer in progress
  (host/service/src/session.rs:1031-1041, `HostTransfers.ForeignChunkEndsIt`,
  `HostTransfers.SurvivesIff`); the desktop viewer ignores it.
- "Exactly one active transfer per session" (host/service/src/transfers.rs:16) and the
  deletion of partial files at the end (host/service/src/session.rs:83-89) fail when the
  pump checks an offer between the supervisor's clear of the flag and its store of the
  transfer (host/service/src/session.rs:349-355, 996-1015): both wait, and accepting the
  offer drops the transfer with its file left behind (`HostCrossings.CrossingRun`,
  `HostCrossings.LitterRun`, `HostCrossings.AcceptDropsTheOther`). The exact conditions
  are `HostCrossings.BesideIffCrossed` and `HostRuns.NoLitterIffNoneDropped`; without
  such a crossing all is as meant (`HostCrossings.UncrossedIsAsMeant`).
- The flag that rate-limits offers can stay up for good, after which the session takes
  none: when the panel answers before the pump raises it, or an offer is withdrawn
  (`HostCrossings.EarlyAnswerRun`, `HostCrossings.FlagLeftIff`,
  `HostCrossings.FlagLeftForGood`).
- A cap of 4 GiB or more lets the host's u32 chunk counter overflow
  (`HostDeliveries.CounterReaches`); below, it cannot
  (`HostRuns.CounterNeverOverflows`).

## Model

| member | source | states |
|---|---|---|
| `FrameRing.EveryReachableStateIsSound` | host/windows-driver/src/Driver.cpp:208-237 | under every interleaving of single producer stores and consumer loads the ring invariant holds, by both program counters: whole frames in idle slots, stamps odd exactly while a slot is written, reads matching an undisturbed slot |
| `FrameRing.NoTornFrame` | host/service/src/capture/windows_idd.rs:193-229 | `Ok(true)` means size, number and every byte of `out` come from one PublishFrame call |
| `FrameRing.ReadsStayInPayload` | host/service/src/capture/windows_idd.rs:209-223 | every read offset, also on an attempt whose header mixes two frames, lies in that slot's payload |
| `FrameRing.DeliveryIsFresh` | host/service/src/capture/windows_idd.rs:186-229 | a delivered frame is no older than the one `latest_slot` named when sampled and differs from the last delivered |
| `FrameRing.DeliveredNumbersStayRecent` | host/service/src/capture/windows_idd.rs:193-229 | over a run consecutive delivered numbers differ and never fall by more than one |
| `FrameRing.NoLostWakeup` | host/windows-driver/src/Driver.cpp:234-236 | with producer and consumer at rest the event is set, or the newest frame was delivered, or it has no pixels |
| `FrameRing.GeometryErrorMeansEmptyOrDisturbed` | host/service/src/capture/windows_idd.rs:209-211 | the geometry error is answered to a header only, and arises only from a frame without pixels or from a header read during a rewrite |
| `FrameProgress.PublishedIsDelivered` | host/windows-driver/src/Driver.cpp:208-237 | from every reachable state at rest, a frame that fits is accepted, and once its stores are done the consumer's next call alone delivers it under the next number, whole, bytes stored and loaded in any order |
| `FrameProgress.SetEventDelivers` | host/service/src/capture/windows_idd.rs:182-231 | whenever the producer rests, the consumer waits, the event is set and the newest frame has pixels and was not delivered last, consumer loads alone deliver its number, size and bytes |
| `FrameProgress.RetryDelivers` | host/service/src/capture/windows_idd.rs:193-229 | a call disturbed once or twice delivers with its next attempt once the producer rests |
| `FrameProgress.RestLeavesNothingDue` | host/service/src/capture/windows_idd.rs:182-231 | so at rest one more call leaves no frame undelivered |
| `FrameProgress.EmptyFrameIsRefused` | host/service/src/capture/windows_idd.rs:209-211 | a newest frame without pixels is answered with the geometry error, and nothing is delivered for it |
| `FrameProgress.AtMostThreeAttempts` | host/service/src/capture/windows_idd.rs:193-231 | over every interleaving a call reads the header three times at most |
| `FrameRing.AreaIsProduct` | host/windows-driver/include/ndsp_frame_ring.h:64-70 | payload sizes summed row by row are width * height * 4 |
| `FrameRing.OffsetFits` | host/windows-driver/include/ndsp_frame_ring.h:15-70 | a plausible geometry with a bounded pitch keeps every pitched offset below the payload size |
| `FrameRing.CopyRows` | host/windows-driver/src/Driver.cpp:221-226 | the row copy loop writes the packed rows of a pitched image and leaves the rest of the buffer |
| `FrameRing.PackedReadsPitchedOffsets` | host/service/src/capture/windows_idd.rs:216-223 | the packed image is, byte by byte, what the step model reads at the pitched offsets |
| `VideoPipeline.EveryReachableStateIsSound` | host/service/src/session.rs:575-734 | slot, sequence and obligation invariants hold in every interleaving of pump, video task and writer |
| `VideoPipeline.RequestsStayOwed` | host/service/src/session.rs:679-732 | while the newest request is newer than the last empty forced answer, each request is flagged, held by the video task, parked as an untaken keyframe, or answered |
| `VideoPipeline.KeyframeObligation` | host/service/src/session.rs:679-732 | with an encoder that answers forced requests, no interleaving loses a keyframe request |
| `VideoPipeline.QuietMeansAnswered` | host/service/src/session.rs:506-564 | when nothing is in flight every request has its keyframe taken by the writer |
| `VideoPipeline.SentNumbersIncrease` | host/service/src/session.rs:506-564 | slot numbers the writer takes strictly increase |
| `VideoPipeline.EmptyAnswerLosesTheRequest` | host/service/src/session.rs:679-712 | the encoder contract is needed: an empty forced answer leaves a request owed by nobody |
| `VideoPipeline.LostIff` | host/service/src/session.rs:575-734 | over any run some request is owed by nobody if and only if a forced encode for the newest one came to nothing and no request, resize, keyframe or overwriting of a keyframe has come since |
| `VideoProgress.RequestIsEncoded` | host/service/src/session.rs:590-679 | from every reachable state with the flag up and the task not asleep, or woken by a new frame, eleven task steps reach a forced encode for the newest request, whatever pump, writer and encoder do meanwhile |
| `VideoProgress.RequestIsEncodedIff` | host/service/src/session.rs:591-602 | on a static screen a request is acted on within that bound if and only if the task is not asleep, having seen the flag down |
| `VideoProgress.SleepMissesRequest` | host/service/src/session.rs:595-602 | a run in which a request that comes in the task's sleep is never encoded on a static screen |
| `VideoProgress.RequestIsAnswered` | host/service/src/session.rs:590-732 | with a task that is awake and an encoder that answers, sixteen task steps and two writes put a keyframe newer than every request on the wire, on a static screen |
| `VideoProgress.KeyframeReachesSlot` | host/service/src/session.rs:686-732 | a coded keyframe lies in the slot after four more task steps, whatever the others do meanwhile |
| `VideoProgress.WriterTakes` | host/service/src/session.rs:533-546 | an idle writer's next step takes an untaken slot; a busy one's step after that does |
| `VideoProgress.NewFramesAreEncoded` | host/service/src/session.rs:596-643 | while new frames come, ten task steps reach an encode |
| `VideoProgress.EncodesHaveFrames` | host/service/src/session.rs:635-643 | over any run encodes are at most the forced ones and those with a new frame: nothing is coded unasked on a static screen |
| `VideoProgress.NewEncoderIsForced` | host/service/src/session.rs:647-679 | the first encode of a recreated encoder is forced, whatever happens between |
| `VideoProgress.ForcedHaveCauses` | host/service/src/session.rs:668-727 | over any run forced encodes are at most one and one for each request, recreated encoder, delta in answer to a force, and delta coded over an unfinished keyframe |
| `VideoProgress.SentIsCoded` | host/service/src/session.rs:686-732 | what the writer takes as number n is the n-th coded frame, a keyframe exactly if the encoder made one, numbered by the requests made when its flag was taken |
| `ViewerGate.Renderer.PushVideo` | viewer/web/src/decoder.ts:204-253 | the gate decides and updates its fields as the step specification says |
| `ViewerGate.Renderer.OnDecoderError` | viewer/web/src/decoder.ts:185-200 | a decoder error closes the gate and asks for a keyframe, or reports failure on a streak |
| `ViewerGate.DeltasNeverFollowAGap` | viewer/web/src/decoder.ts:218-245 | a delta frame reaches the decoder only after a keyframe with no error and no dropped frame since |
| `ViewerGate.PassesIff` | viewer/web/src/decoder.ts:204-245 | a frame reaches the decoder if and only if it is a keyframe, or the queue is at most eight and a keyframe came since which there was no decoder error and no delta met a longer queue |
| `ViewerGate.EveryLossIsReported` | viewer/web/src/decoder.ts:225-240 | every dropped frame and every decoder error leads to one keyframe request or one failure report |
| `ViewerGate.EachLossIsAnswered` | viewer/web/src/decoder.ts:185-245 | at each event: one keyframe request if and only if it is a withheld frame or one of the first four decoder errors in a row, one failure report if and only if it is a later one |
| `Envelope.NonceIsInjective` | shared/protocol/src/envelope.rs:52-58 | direction, channel and counter can be read off a nonce |
| `Envelope.Sealer.SealParts` | shared/protocol/src/envelope.rs:85-104 | sealing uses the channel's counter once and moves it on; the last u64 is refused |
| `Envelope.Opener.OpenEnvelope` | shared/protocol/src/envelope.rs:124-147 | opening agrees with the specification; a rejected envelope changes no state |
| `Envelope.EveryReachableWorldIsSound` | shared/protocol/src/envelope.rs:61-147 | counters, logs and opened streams stay linked under any loss, duplication, reordering or injection |
| `Envelope.OpenedWasSent` | shared/protocol/src/envelope.rs:124-147 | what opens was sealed by this very link on this channel with this counter |
| `Envelope.ChannelsAreFaithful` | shared/protocol/src/envelope.rs:124-147 | a channel's opened plaintexts are a subsequence of those sealed on it, in order, none twice |
| `Envelope.NoncesNeverRepeat` | shared/protocol/src/envelope.rs:85-104 | no nonce is used twice over both directions |
| `Envelope.OpenNeverOverflows` | shared/protocol/src/envelope.rs:140-147 | `counter + 1` in open fits a u64 |
| `Envelope.HonestEnvelopeOpens` | shared/protocol/src/envelope.rs:124-147 | an honest envelope opens to what was sealed or is stale |
| `Envelope.EveryEnvelopeIsJudged` | shared/protocol/src/envelope.rs:124-147 | in every reachable world and for any bytes: too short, no channel, too old, opened if and only if it is byte for byte an envelope this link sealed, and else a forgery |
| `Envelope.LayoutIs` | shared/protocol/src/envelope.rs:20-104 | where channel, counter, ciphertext, direction and counter lie in envelope and nonce, and the codes that go there |
| `Envelope.Session.RecvNext` | shared/client/src/lib.rs:347-395 | the receive loop consumes the inbound queue as specified, skipping only stale QUIC video |
| `Envelope.RecvIs` | shared/client/src/lib.rs:347-395 | it passes over envelopes refused as too old on the video channel, over QUIC only, and ends with the first other one, yielding what that opens to and failing on anything else |
| `Envelope.LatestOnlyVideo` | shared/client/src/lib.rs:347-395 | over QUIC with an honest host recv never errors, yields all control and audio in order and exactly the video newer than all video before |
| `ColourMeaning.LumaIsNear` | host/service/src/encode/h264.rs:104-106 | luma is the BT.601 value of the colour rounded down, to 0.27 above and 0.13 below that |
| `ColourMeaning.ChromaUIsNear` | host/service/src/encode/h264.rs:133-139 | U is within 1.5 below and 0.5 above the BT.601 value |
| `ColourMeaning.ChromaVIsNear` | host/service/src/encode/h264.rs:133-139 | V is within 1.5 below and 0.5 above the BT.601 value |
| `ColourMeaning.GreysAreGrey` | host/service/src/encode/h264.rs:104-139 | greys have U = V = 128, black is luma 16 and white 235 |
| `ColourMeaning.LumaPlaneIsStandard` | host/service/src/encode/h264.rs:98-142 | in a converted frame the luma byte at every pixel's place is that near the standard's luma of this pixel |
| `ColourMeaning.ChromaPlanesAreStandard` | host/service/src/encode/h264.rs:112-141 | the chroma bytes at every block's place are within two of the standard's chroma of the mean colour of its four pixels |
| `ColourMeaning.OneColourBlock` | host/service/src/encode/h264.rs:112-141 | a block of one colour has exactly that colour's chroma |
| `ColourConversion.RowBounds` | host/service/src/encode/dirty.rs:52-57 | the dirty span is exactly from the first to the last dirty pair; none on a static frame |
| `ColourConversion.DirtyTracker.Update` | host/service/src/encode/dirty.rs:72-117 | for every height and every width but 0: everything is dirty at first and after a resize, else exactly the changed pairs; what was compared is retained and the count is exact |
| `ColourConversion.DirtyTracker.DiffPairs` | host/service/src/encode/dirty.rs:96-112 | the compare-and-copy loop flags exactly the differing pairs and leaves the new rows behind, an odd last row aside, which it never reads |
| `ColourConversion.NoneDirtyMeansEqual` | host/service/src/encode/dirty.rs:43-47 | a map is clean if and only if the rows that pairs cover are equal, at any size |
| `ColourConversion.CleanMeansSameFrame` | host/service/src/encode/dirty.rs:16-17 | on frames of whole pairs a map is clean if and only if the frame is the previous one, byte for byte |
| `ColourConversion.LastRowGoesUnseen` | host/service/src/encode/dirty.rs:96-112 | at every other size two different frames have a clean map |
| `ColourConversion.FramePairs` | host/service/src/encode/dirty.rs:72-96 | pairs cover a whole frame exactly when its height is even |
| `ColourConversion.DiffOfEqual` | host/service/src/encode/dirty.rs:96-112 | an unchanged frame has no dirty pair |
| `ColourConversion.PartialIsFull` | host/service/src/encode/h264.rs:98-142 | converting the changed pairs over the previous conversion is converting everything |
| `ColourConversion.AllDirtyIsFull` | host/service/src/encode/h264.rs:98-142 | a map with every pair dirty, or none at all, converts everything |
| `ColourConversion.FrameSizes` | host/service/src/encode/h264.rs:78-90 | planes of an even frame have w*h, w*h/4 (or w*h/2 interleaved) bytes |
| `ColourConversion.ConvertPair` | host/service/src/encode/h264.rs:112-141 | the inner loops put one row pair's conversion in place and touch nothing else |
| `ColourConversion.I420Buffer.Ensure` | host/service/src/encode/h264.rs:78-90 | planes are resized, keeping their bytes, only when the size changes |
| `ColourConversion.I420Buffer.FillFromBgra` | host/service/src/encode/h264.rs:98-142 | the planes become the partial conversion over what they held |
| `VideoEncoder.H264Encoder.Prepare` | host/service/src/encode/h264.rs:333-345 | a new size or failing rates rebuild the encoder, which then owes a keyframe |
| `VideoEncoder.H264Encoder.Feed` | host/service/src/encode/h264.rs:347-370 | a frame is elided if and only if it is the frame last compared and no keyframe is asked for; else the codec gets the full conversion |
| `VideoEncoder.H264Encoder.Encode` | host/service/src/encode/h264.rs:325-399 | the result, the rebuilds and the owed keyframe are exactly the source's; the codec is fed the full conversion of this frame, an intra frame forced exactly when asked for, owed or rebuilt; a frame is elided if and only if none of these holds and it is the one last compared |
| `VideoEncoder.CacheIsExact` | host/service/src/encode/h264.rs:98-142 | partial conversion of any dirty map over the cache gives the full conversion |
| `VideoEncoder.EncodeAll` | host/service/src/encode/h264.rs:325-399 | over any run of calls whatever the codec is fed is the full conversion of that call's frame, and every elided frame is the one it was fed last |
| `VideoEncoder.ElidedIsShownIff` | host/service/src/encode/h264.rs:347-358 | given that an elided frame is the one last fed: decoders hold it if and only if that run of the codec made a payload of it, or the newest payload shows the frame last fed already; the frame last fed stands for the elided one throughout |
| `VideoEncoder.SkippedThenElided` | host/service/src/encode/h264.rs:347-399 | a frame the rate controller skips is elided when it comes again, while the newest payload shows another |
| `Nv12.ChromaIsInterleaved` | host/service/src/encode/mf_video.rs:230-270 | NV12 chroma is I420 chroma interleaved |
| `Nv12.ConvertNv12Pair` | host/service/src/encode/mf_video.rs:249-268 | the inner loop puts one pair's luma and chroma in place in the one array |
| `Nv12.Nv12Buffer.FillFromBgra` | host/service/src/encode/mf_video.rs:230-270 | the array becomes the partial conversion over what it held |
| `Nv12.PartialIsFullNv12` | host/service/src/encode/mf_video.rs:230-270 | partial over the previous frame is the I420 luma followed by its interleaved chroma |
| `HardwareEncoder.FullNv12IsI420` | host/service/src/encode/mf_video.rs:230-270 | a whole NV12 frame is the I420 luma and the interleaved I420 chroma |
| `HardwareEncoder.ArrayIsExact` | host/service/src/encode/mf_video.rs:230-270 | partial conversion of any dirty map over the array gives the whole NV12 frame |
| `HardwareEncoder.MfVideoEncoder.Encode` | host/service/src/encode/mf_video.rs:553-613 | the transform gets the whole conversion of this frame, a frame is elided if and only if it is the one last compared and no keyframe is asked for, and no row changed outside the rows of interest it is told |
| `HardwareEncoder.EncodeAll` | host/service/src/encode/mf_video.rs:553-613 | over any run of calls whatever the transform is fed is the whole conversion of that call's frame, and forced calls that meet no error feed it |
| `AnnexB.SplitNals` | viewer/web/src/fmp4.ts:75-91 | the splitter's loop computes the units of the stream |
| `AnnexB.SplitAnnexB` | viewer/ios/NebulaViewer/StreamDecoder.swift:141-157 | the iOS splitter's loop computes them too, with an empty last unit after a final start code |
| `AnnexB.SplittersAgree` | viewer/ios/NebulaViewer/StreamDecoder.swift:141-157 | on every input the two splitters agree but for that empty last unit |
| `AnnexB.SplitInvertsJoin` | viewer/web/src/fmp4.ts:75-91 | units joined with any mix of start codes are split into exactly those units, by both |
| `AnnexB.AnnexbAnyNal` | host/service/src/encode/mf_video.rs:515-536 | the scan finds a header exactly when one of the bytes it reads qualifies |
| `AnnexB.HeadersAreUnits` | host/service/src/encode/mf_video.rs:515-536 | on every input a header it reads, unless 0, heads a unit |
| `AnnexB.ScanReadsHeads` | host/service/src/encode/mf_video.rs:515-536 | on joined units it reads every header if and only if the lengths let it |
| `AnnexB.SeesAllIffReaches` | host/service/src/encode/mf_video.rs:515-536 | the same, entered some bytes late |
| `AnnexB.LongUnitsAreReached` | host/service/src/encode/mf_video.rs:515-536 | units of four bytes or more are all reached |
| `AnnexB.IdrTest` | host/service/src/encode/mf_video.rs:539-541 | the IDR test is exact on reached units |
| `AnnexB.IdrTestIsSound` | host/service/src/encode/mf_video.rs:539-541 | the IDR test has no false alarm on any input |
| `AnnexB.NalTypeIs` | viewer/web/src/fmp4.ts:131-133 | the type is the low five bits of a header |
| `AnnexB.ShortDelimiterHidesIdr` | host/service/src/encode/mf_video.rs:515-536 | a two-byte unit before an IDR makes the scan miss it |
| `Boxes.ParseInvertsPrint` | viewer/web/src/fmp4.ts:34-51 | a tree of boxes reads back as written |
| `Boxes.PrintInvertsParse` | viewer/web/src/fmp4.ts:34-51 | boxes read from bytes tile every byte |
| `Boxes.PrefixedReadsBack` | viewer/web/src/fmp4.ts:168-174 | a length-prefixed sample reads back as its NAL units |
| `Fragments.Be64IsBigEndian` | viewer/web/src/fmp4.ts:61-68 | the two halves of a 64-bit field are its eight big-endian bytes |
| `Fragments.MoofLayout` | viewer/web/src/fmp4.ts:272-300 | the nested moof box is 100 bytes with the trun body at 80 |
| `Fragments.PatchTrunDataOffset` | viewer/web/src/fmp4.ts:310-325 | the search-and-patch loop patches behind the first match and fails only beyond the buffer |
| `Fragments.SearchLands` | viewer/web/src/fmp4.ts:310-325 | the search reaches the trun box exactly when no field spells "trun" |
| `Fragments.FragmentReadsBack` | viewer/web/src/fmp4.ts:272-307 | a fragment reads back (boxes, number, flags, time, data offset 108, duration, sample) if and only if neither number nor time spells "trun" |
| `Fragments.FlagsTellSync` | viewer/web/src/fmp4.ts:274-276 | the flags of a keyframe say sync sample that depends on no other, those of any other frame the opposite |
| `Fragments.SmallNumbersAreSearchable` | viewer/web/src/fmp4.ts:310-325 | below 0x7472756e nothing spells it |
| `Fragments.SixHoursIn` | viewer/web/src/fmp4.ts:310-325 | a decode time of 0x7472756e, six hours in, is not read back |
| `Muxer.Fmp4Muxer.Push` | viewer/web/src/fmp4.ts:122-178 | push keeps parameter sets, decides on an init segment and appends a fragment as specified |
| `Muxer.InitReadsBack` | viewer/web/src/fmp4.ts:180-270 | an init segment gives a decoder its parameter sets exactly when they fit 16-bit lengths |
| `Muxer.InitTellsSizeAndClock` | viewer/web/src/fmp4.ts:180-270 | it also gives the picture size and the 90 kHz clock |
| `Muxer.InitTellsProfile` | viewer/web/src/fmp4.ts:180-248 | it names the set's profile, constraints and level and four-byte lengths, and the track has the picture's size |
| `MuxerRuns.RunsAreSound` | viewer/web/src/fmp4.ts:97-178 | over any run number, decode time and log agree with the units accepted so far |
| `MuxerRuns.OneFragmentEach` | viewer/web/src/fmp4.ts:122-178 | one fragment per unit with media once both parameter sets are known, and no other |
| `MuxerRuns.EveryFragmentReadsBack` | viewer/web/src/fmp4.ts:272-325 | fragment i reads back with number i+1 and the sum of earlier durations, if and only if these do not spell "trun"; its sample is the unit's media in order |
| `MuxerRuns.EarlyFragmentsReadBack` | viewer/web/src/fmp4.ts:272-325 | so it does for six hours and 1.9 billion frames |
| `MuxerRuns.DurationIsGap` | viewer/web/src/fmp4.ts:158-167 | a duration is the gap in capture time in 90 kHz ticks to the nearest; 3000 at first and for gaps out of bounds |
| `MuxerRuns.ClockFollowsCapture` | viewer/web/src/fmp4.ts:158-178 | while gaps are in bounds the decode time of every fragment is the capture time of the frame before it, to half a tick a frame |
| `MuxerRuns.SpellingRunFails` | viewer/web/src/fmp4.ts:134-325 | a run of 651 221 units whose last decode time spells "trun", and whose last fragment does not read back |
| `MuxerRuns.SuchPayloadExists` | viewer/web/src/fmp4.ts:75-91 | bytes of which that run can be made |
| `MuxerRuns.ToldIffInTime` | viewer/web/src/fmp4.ts:115-158 | in any run every fragment follows an init segment with its parameter sets if and only if, at each unit sent, the newest sets are those of the last sent unit that brought one or was the first and a keyframe |
| `MuxerRuns.SetsAloneGoUnannounced` | viewer/web/src/fmp4.ts:122-158 | parameter sets in a unit of their own before a delta unit are never told |
| `MuxerRuns.SuchUnitsExist` | viewer/web/src/fmp4.ts:75-91 | bytes whose units are such |
| `FileNames.SanitizedIsSafe` | shared/protocol/src/files.rs:8-25 | a sanitized name is one component, not empty, not starting or ending in a dot or space |
| `FileNames.FixedIffSafe` | shared/protocol/src/files.rs:8-25 | sanitizing leaves exactly the safe names alone |
| `FileNames.SanitizeIsIdempotent` | shared/protocol/src/files.rs:8-25 | sanitizing twice is sanitizing once |
| `FileNames.SanitizedIs` | shared/protocol/src/files.rs:8-25 | the result is the last component, its ends trimmed of dots and spaces and each reserved character replaced; the placeholder exactly when nothing is left |
| `FileNames.UniqueDestination` | shared/protocol/src/files.rs:28-48 | the loop returns the first free of the ten thousand names, else the one numbered by the clock |
| `FileNames.FreeNameIs` | shared/protocol/src/files.rs:28-48 | that is the name if free, else the first free of its numbered forms up to 9999, else the clock's |
| `FileNames.NumberedIs` | shared/protocol/src/files.rs:33-40 | the number stands in decimal, in parentheses, before the last dot's extension |
| `FileNames.NumbersDiffer` | shared/protocol/src/files.rs:33-40 | different numbers give different names |
| `FileNames.ClobbersIffAllTaken` | shared/protocol/src/files.rs:28-48 | the destination exists already if and only if every candidate does |
| `FileNames.CrowdedDirectory` | shared/protocol/src/files.rs:28-48 | a directory that holds the ten thousand names and the clock's is one in which the destination exists |
| `FileNames.DestinationIsVisible` | shared/protocol/src/files.rs:28-48 | a destination is one component and never a partial file's name |
| `FileNames.SanePartName` | host/service/src/session.rs:791 | the host's partial file name is the desktop viewer's for every id the host accepts |
| `FileNames.PartNameIs` | viewer/desktop/src/receive.rs:109-135 | a partial file is a dot, the first 64 characters the id keeps, and .part |
| `FileNames.IdCharsJoin` | viewer/desktop/src/receive.rs:109-135 | what an id keeps is what its parts keep, in order |
| `FileNames.IdCharsOne` | viewer/desktop/src/receive.rs:109-135 | and of one character, that if it is a letter, digit or dash |
| `FileReceive.SendFileChunks` | host/service/src/session.rs:1119-1180 | for any read sizes the messages are the file cut into chunks in order, then the end |
| `FileReceive.SendSlices` | viewer/web/src/filedrop.ts:109-127 | so are those of the slice and chunk loops |
| `FileReceive.HashSlices` | viewer/web/src/filedrop.ts:85-90 | hashing slice by slice feeds the whole file |
| `FileReceive.AppendKeepsSound` | host/service/src/session.rs:1186-1209 | a chunk keeps written, hashed and counted bytes equal, or discards the transfer |
| `FileReceive.TakenIffInTurn` | host/service/src/session.rs:1186-1209 | a transfer outlives chunks if and only if they are numbered from 0, not empty, at most 256 KiB, within the size offered and all stored; its file then holds what they carry, and else the directory is as before the offer |
| `FileReceive.SameHashIff` | host/service/src/session.rs:1212-1225 | two hashes count as the same exactly when they write the same digits, in either case |
| `FileReceive.FinishDelivers` | host/service/src/session.rs:1212-1240 | a transfer ends in a delivery exactly when size and hash are as offered and storage obeys; it replaces a file only when all names are taken |
| `DesktopReceiver.FileReceiver.HandleMessage` | viewer/desktop/src/receive.rs:60-89 | each message changes receiver and directory as specified |
| `DesktopReceiver.OfferTakenIff` | viewer/desktop/src/receive.rs:91-150 | an offer is accepted exactly when receiving is on, none is in progress, size and hash are in order and its partial file can be made; any other changes nothing |
| `DesktopReceiver.OnlyOwnMessagesCount` | viewer/desktop/src/receive.rs:60-89 | messages under another id change nothing; an abort discards the transfer with its file |
| `DesktopReceiver.EveryRunIsSound` | viewer/desktop/src/receive.rs:60-264 | under any messages and storage failures the directory is what it was, plus verified deliveries, plus the one transfer in progress |
| `DesktopReceiver.TeardownLeavesNoLitter` | viewer/desktop/src/receive.rs:266-272 | no partial file survives the session |
| `DesktopReceiver.CounterNeverOverflows` | viewer/desktop/src/receive.rs:168-196 | next_seq <= received <= expected size, so the u32 cannot overflow |
| `DesktopReceiver.DoneMeansVerified` | viewer/desktop/src/receive.rs:215-264 | FileDone is sent exactly for a file of the offered size and hash put in place |
| `DesktopReceiver.FileArrives` | viewer/desktop/src/receive.rs:109-264 | a file within the cap, cut in any way, ends in FileDone with the same bytes in place and no abort |
| `HostTransfers.Session.Incoming` | host/service/src/session.rs:975-1093 | the pump's first access for each message, the whole of a chunk or abort under the slot's lock, changes session and directory as specified |
| `HostTransfers.Session.Continue` | host/service/src/session.rs:996-1079 | the pump's later accesses (flag check, registering, raising the flag, finishing) change session and directory as specified |
| `HostTransfers.Session.Answered` | host/service/src/session.rs:349-372 | the supervisor's accesses (clear the flag, open, store, and tear down) change session and directory as specified |
| `HostTransfers.SurvivesIff` | host/service/src/session.rs:1017-1093 | a transfer in progress outlives a message if and only if that is its own next chunk and storage takes it, an offer, another's end or abort, or no file message |
| `HostTransfers.ForeignChunkEndsIt` | host/service/src/session.rs:1031-1041 | a chunk under another id ends the transfer, whose own next chunk is then refused |
| `HostTransfers.OfferIsJudged` | host/service/src/session.rs:975-1000 | an offer is looked at further exactly when id, hash and size are in order and the slot is free; any other is declined and changes nothing |
| `HostTransfers.FiledIffNoDuplicate` | host/service/src/session.rs:1001-1015 | it is filed with the panel exactly when none with its id waits there |
| `HostTransfers.FileMessagesAreAnswered` | host/service/src/session.rs:1017-1093 | every chunk not taken and every end of no transfer is answered with an abort under its id |
| `HostAnswers.EveryOfferIsAnsweredOnce` | host/service/src/session.rs:349-1015 | over every interleaving each offer looked at further is in exactly one place on its way, or was answered exactly once under its own id, or left the panel unanswered once |
| `HostRuns.EveryInterleavingIsSound` | host/service/src/session.rs:349-1093 | in every interleaving of single accesses by pumps and supervisors of any number of sessions, the directory is what it was, verified deliveries, and one partial file with its own bytes for exactly the transfers in a slot, being opened or finished, or dropped |
| `HostRuns.NoLitterIffNoneDropped` | host/service/src/session.rs:83-89 | with no transfer in a slot, being opened or finished, the directory is what it was and what was delivered if and only if no transfer was dropped; other names are exactly the dropped ones' files |
| `HostRuns.TeardownLeavesTheDropped` | host/service/src/session.rs:476-483 | after a session's teardown its partial files are exactly those of the transfers it dropped |
| `HostRuns.EqualIdsAreDeclined` | host/service/src/session.rs:784-807 | accepting an offer with the id of any transfer that has a file declines it and changes no file |
| `HostRuns.NothingWithoutAccept` | host/service/src/transfers.rs:1-20 | in any run without a panel accept nothing touches the directory |
| `HostRuns.CounterNeverOverflows` | host/service/src/session.rs:1186-1209 | in any run next_seq <= received <= expected size <= cap, so below a 4 GiB cap the u32 fits |
| `HostRuns.DoneMeansVerified` | host/service/src/session.rs:1052-1079 | FileDone is sent exactly for a file of the offered size and hash put in place |
| `HostCrossings.BesideIffCrossed` | host/service/src/session.rs:349-355 | over any run an offer waits beside a stored transfer at some time if and only if its transfer check precedes the store, the clear of the flag for the transfer precedes its flag check, and by then neither is lost, dropped or torn down |
| `HostCrossings.DropsAreCrossed` | host/service/src/session.rs:349-355 | a store drops a transfer only when its offer crossed it so |
| `HostCrossings.UncrossedIsAsMeant` | host/service/src/transfers.rs:14-20 | on a run where none crosses, no transfer is dropped, the session has at most one with a file, and no offer waits beside it |
| `HostCrossings.AcceptDropsTheOther` | host/service/src/session.rs:349-355 | from any reachable state, accepting an offer that waits beside a transfer drops the transfer, whose file outlives the session |
| `HostCrossings.CrossingRun` | host/service/src/session.rs:996-1015 | a run in which an offer comes to wait beside a transfer |
| `HostCrossings.LitterRun` | host/service/src/session.rs:349-483 | its continuation, after which a partial file is left in the directory |
| `HostCrossings.FlagLeftIff` | host/service/src/session.rs:996-1015 | over any run the flag is up with nothing waiting if and only if an offer raised it after its answer cleared it, or left the queue unanswered |
| `HostCrossings.FlagLeftForGood` | host/service/src/session.rs:996-1015 | from then on no offer passes the flag check, whatever else happens |
| `HostCrossings.EarlyAnswerRun` | host/service/src/session.rs:996-1015 | a run in which the panel answers before the flag is raised |
| `HostDeliveries.FileArrives` | host/service/src/session.rs:975-1079 | offer, accept, chunks of any cut and end finish in FileDone with the same bytes in place |
| `HostDeliveries.CounterReaches` | host/service/src/session.rs:1186-1209 | chunks of one byte take the counter to every number up to the cap, 2^32 too when the cap allows it |
| `SharedDirectory.LitterIsFiles` | host/service/src/session.rs:784-807 | the directory is what it was and what was delivered if and only if no transfer has a partial file |
| `OfferQueue.TransferManager.Prune` | host/service/src/transfers.rs:130-145 | exactly the expired offers are removed and denied |
| `OfferQueue.TransferManager.Register` | host/service/src/transfers.rs:67-77 | an offer is queued unless a live one has its id |
| `OfferQueue.TransferManager.Decide` | host/service/src/transfers.rs:81-101 | a decision reaches the live offer of that id and removes it |
| `OfferQueue.TransferManager.List` | host/service/src/transfers.rs:111-128 | listing shows the live offers and denies the expired ones |
| `OfferQueue.EveryOfferIsAccounted` | host/service/src/transfers.rs:60-145 | over registrations, decisions, listings and disconnects each registered offer is waiting, accepted in time, denied or dropped, exactly one of these, and answered at most once |
| `OfferQueue.OfferWaits` | host/service/src/transfers.rs:60-145 | an offer waits for two minutes unless it is decided or its device drops, whatever else happens |
| `OfferQueue.WaitingIsDecided` | host/service/src/transfers.rs:60-145 | within them the panel's answer accepts or denies it; from then on the first call that looks denies it |
| `Adaptive.AdaptiveController.TryDecrease` | host/service/src/adapt.rs:234-259 | nothing while cooling down; above the floor a lower bitrate, the proposed one where that is in range; at the floor the same bitrate and the frame rate kept, halved or at its minimum |
| `Adaptive.AdaptiveController.OnTick` | host/service/src/adapt.rs:211-231 | a tick raises or restores as specified |
| `Adaptive.AdaptiveController.ChangeProfile` | host/service/src/adapt.rs:141-155 | a profile change re-baselines as specified |
| `Adaptive.RunsStayInEnvelope` | host/service/src/adapt.rs:36-82 | bitrate and frame rate never leave the envelope in force, in any run |
| `Adaptive.TwelveRaisesDouble` | host/service/src/adapt.rs:220-222 | twelve raises double the bitrate or reach the maximum |
| `Adaptive.TwelveTicksDouble` | host/service/src/adapt.rs:211-231 | so do twelve effective ticks from any reachable state with no decrease asked for |
| `Adaptive.RecoveryIsBounded` | host/service/src/adapt.rs:211-231 | sixty-one such ticks bring back full bitrate and full frame rate |
| `AdaptiveHistory.ActsAreSpaced` | host/service/src/adapt.rs:211-241 | cuts are 1.5 s apart, effective ticks 1 s apart and 2 s after the latest decrease asked for or profile change; a frame rate restore 8 s |
| `AdaptiveHistory.FrameRateFallsLast` | host/service/src/adapt.rs:243-252 | the frame rate falls only at the second cut in a row at the floor, with no raise or profile change between |
| `AdaptiveHistory.OnlySustainedSignalsCut` | host/service/src/adapt.rs:165-208 | a decrease is asked for by every 4th bloated sample and 2nd deep queue in a row and 3rd late send between effective ticks, by nothing else |
| `AdaptiveMoves.CutsGoDown` | host/service/src/adapt.rs:234-259 | over any run, told by earlier cuts: a decrease asked for within 1.5 s of a cut changes nothing; any other lowers the bitrate and keeps the frame rate, or at the floor keeps the bitrate and halves the frame rate exactly after a cut that found it there too |
| `AdaptiveMoves.TicksGoUp` | host/service/src/adapt.rs:211-231 | over any run a tick counts exactly when 2 s were clean and 1 s passed since one that counted; it raises by a twelfth, 100 at least, or restores the frame rate once 8 s were clean |
| `AdaptiveMoves.OtherCallsMove` | host/service/src/adapt.rs:141-208 | a change of profile restores the frame rate and keeps the bitrate between the new start and maximum; other signals move neither |
| `AdaptiveMoves.SessionsStart` | host/service/src/adapt.rs:25-135 | sessions start at the profile's own bitrate and full frame rate; the figures of each profile, and of JPEG against H.264 |
| `Touch.TouchTracker.Apply` | host/service/src/input/touch_frame.rs:70-96 | an event changes slots and yields a frame as specified |
| `Touch.TouchTracker.Reset` | host/service/src/input/touch_frame.rs:100-121 | cancelling empties every slot and lists each active contact as cancelled |
| `Touch.FramesAreFull` | host/service/src/input/touch_frame.rs:145-159 | every frame lists each contact active before or after the event exactly once and no other, at its newest point, a lifted contact at the point it lifted |
| `Touch.SlotsFollowProtocol` | host/service/src/input/touch_frame.rs:70-121 | in every run each slot's actions are downs, updates and lifts in order, and a contact that is down is in every frame |
| `Touch.IdKeepsSlot` | host/service/src/input/touch_frame.rs:127-143 | an id keeps its slot from down to lift |
| `Touch.TrackerRefinesMap` | host/service/src/input/touch_frame.rs:70-143 | the slots refine a map from id to point capped at ten |
| `Touch.TouchIsTold` | host/service/src/input/touch_frame.rs:70-96 | in every run a touch adds one frame in which its contact alone is a down, lift or cancel, as its phase says and by what is down so far, or changes nothing |
| `Touch.CancelIsTold` | host/service/src/input/touch_frame.rs:100-121 | cancelling adds one frame that cancels every contact, or none when there is none |
| `Resampler.LinearResampler.Process` | host/service/src/audio/mod.rs:218-260 | a call appends exactly the outputs its input completes and carries position and last frame over |
| `Resampler.ProcessAll` | host/service/src/audio/mod.rs:218-260 | for any split into calls the outputs are those of one call on everything |
| `Resampler.OutputCount` | host/service/src/audio/mod.rs:242-252 | N >= 1 frames in make ceil((N-1) * 48000 / rate) out |
| `Resampler.OutputsLieBetween` | host/service/src/audio/mod.rs:246-250 | each output sample lies between its two input neighbours |
| `Resampler.RampsStayRamps` | host/service/src/audio/mod.rs:242-252 | a linear ramp comes out as the same ramp read every rate / 48000 frames |
| `Resampler.WholePositionsPass` | host/service/src/audio/mod.rs:242-252 | an output at a whole position is that input frame |
| `Spake2.BothEndsAgree` | shared/protocol/src/spake2.rs:254-304 | with the same PIN and nonce both ends get the same secret, transcript and keys, exactly when neither share is the identity |
| `Spake2.RespondIs` | shared/protocol/src/spake2.rs:282-304 | the server's secret is y*x*G, and it answers exactly when the client's share is not the identity |
| `Spake2.FinishIs` | shared/protocol/src/spake2.rs:254-271 | the client's secret is x*y*G, likewise |
| `Spake2.WrongPinDiffers` | shared/protocol/src/spake2.rs:154-172 | different password scalars give different transcripts |
| `Spake2.Transcript` | shared/protocol/src/spake2.rs:154-172 | the loop writes each part behind its length |
| `Spake2.TranscriptIsInjective` | shared/protocol/src/spake2.rs:154-172 | equal transcripts have equal nonce, shares, secret and scalar |
| `Spake2.TranscriptReads` | shared/protocol/src/spake2.rs:154-172 | read back, the transcript is context, identities, nonce, shares, secret and scalar in this order |
| `Spake2.MacEqual` | shared/protocol/src/spake2.rs:214-223 | the xor/or loop is equality |
| `Spake2.WScalar` | shared/protocol/src/spake2.rs:99-116 | the sampling loop returns the first digest that is a non-zero scalar, if one of 256 is |
| `Spake2.AssumptionsCanBeMet` | shared/protocol/src/spake2.rs:1-50 | the assumptions on the curve are consistent |
| `Handshake.PinManager.CurrentPin` | host/service/src/pin.rs:59-68 | an unused PIN within its lifetime is given out and nothing changes; any other is rotated first, and the new one is issued now |
| `Handshake.PinManager.Gate` | host/service/src/pin.rs:80-96 | a lockout holds until its time and is then forgotten |
| `Handshake.PinManager.RecordFailure` | host/service/src/pin.rs:100-116 | a failure is counted, may lock out, and rotates the PIN |
| `Handshake.ServerHandshake.Handle` | host/service/src/pairing.rs:118-492 | each message moves the phase and the PIN as specified |
| `Handshake.EveryReachableWorldIsSound` | host/service/src/pairing.rs:118-492 | over any connections and messages each decided proof closed its connection, matches its declared method and spent its PIN |
| `Handshake.OneProofEach` | host/service/src/pairing.rs:118-492 | a connection decides at most one proof, so completes at most once |
| `Handshake.OnlyTheDeclaredPath` | host/service/src/pairing.rs:118-492 | it does so only by the path of its declared method, and by legacy pairing only where that is allowed |
| `HandshakeRuns.CompletionsAreProven` | host/service/src/pairing.rs:118-492 | in every run each completed entry was preceded, on its own connection, by a hello that declared its path and then by that path's genuine proof, made with its PIN and stored |
| `HandshakeExpiry.OnlyFreshPins` | host/service/src/pin.rs:59-68 | over any run every legacy proof decided and every SPAKE2 exchange opened is on a PIN that came in no longer ago than its lifetime and that no proof was decided on before |
| `HandshakeExpiry.ShownIsInForce` | host/service/src/pin.rs:59-68 | showing the PIN gives the one in force, read off issue times and verified proofs, and changes nothing while that is the old one |
| `HandshakeExpiry.ConfirmCompletesIff` | host/service/src/pairing.rs:337-385 | a legacy confirm completes if and only if it was made with the PIN in force and is stored |
| `HandshakeExpiry.StartOpensIff` | host/service/src/pairing.rs:165-210 | a SPAKE2 start opens an exchange on the PIN in force, if and only if the share is good and the address not locked out |
| `HandshakeExpiry.GoesOnIff` | host/service/src/pairing.rs:118-335 | which messages take a handshake further, and where to |
| `HandshakeExpiry.HonestHandshakesComplete` | host/service/src/pairing.rs:118-492 | from every reachable world an address not locked out pairs with the PIN in force on either path, and a genuine token gets in |
| `Handshake.RefusalRotates` | host/service/src/pin.rs:100-116 | every refused PIN proof leaves a new PIN behind |
| `Handshake.LegacyPinsAreSingleUse` | host/service/src/pin.rs:1-7 | each PIN decides at most one legacy proof, and none after any other use |
| `HandshakeRuns.PinsAreReusedIff` | host/service/src/pin.rs:1-7 | over any run two proofs are decided on one PIN, or two pairings completed on it, if and only if a SPAKE2 confirm was decided, or paired, on a PIN already used so |
| `HandshakeRuns.OpenExchangePairsAgain` | host/service/src/pairing.rs:212-284 | a SPAKE2 exchange open on a PIN that already paired, on any path, pairs on it once more |
| `HandshakeRuns.TwoPairingsOnOnePin` | host/service/src/pairing.rs:165-284 | a run with two SPAKE2 pairings on one PIN |
| `PinOverlaps.SingleUseIffApart` | host/service/src/pin.rs:59-127 | under single lock accesses, over any run, each PIN decides at most one proof if and only if no proof reads it between another's read and decision with no new PIN in between |
| `PinOverlaps.SharedIffNoneBetween` | host/service/src/pin.rs:59-78 | two proofs read one PIN if and only if none came in between the reads |
| `PinOverlaps.ReadTakesNewIff` | host/service/src/pin.rs:59-68 | a read takes a new PIN if and only if the old one has expired or a proof has matched since it came in |
| `PinOverlaps.TwoReadsPairTwice` | host/service/src/pairing.rs:337-385 | two confirms that both read before either is decided pair on one PIN |
| `HandshakeRuns.TriesAreBounded` | host/service/src/pin.rs:1-7 | in any run the proofs decided on a PIN are at most the SPAKE2 exchanges opened on it and one more |
| `HandshakeRuns.BoundIsReached` | host/service/src/pin.rs:1-7 | for every n and all limits one address can have n proofs refused against one PIN |
| `HandshakeRuns.LockedOutIff` | host/service/src/pin.rs:80-127 | over any run an address is locked out if and only if its failures since it last proved itself or sat a lockout out reach the limit and the lockout since the last of them has not passed |
| `HandshakeRuns.LockoutLastsIff` | host/service/src/pin.rs:80-127 | while it lasts, one message lifts a lockout if and only if it is the address's own verified proof, and opens no PIN exchange for that address |
| `HandshakeRuns.LockoutHolds` | host/service/src/pin.rs:80-127 | over any run before its time with no such proof the lockout holds and no exchange of that address opens |
| `HandshakeRuns.OnlyOldExchangesLift` | host/service/src/pairing.rs:212-284 | the proof that lifts a lockout comes on an exchange that was open when the lockout began |

## Left out

- Sockets, QUIC streams, task scheduling and TLS: the network starts at the inbound queue.
- The client half of the handshake, beyond its SPAKE2 computation: a straight sequence of messages.
- The strength of AES-GCM, HKDF, HMAC, SHA-256 and P-256: abstract functions stand for them.
- OpenH264, Media Foundation, WebCodecs, MSE, D3D and IddCx calls: outcomes chosen outside.
- Frames of odd width or height: conversion is modelled for even sizes, as the encoders need; the frame differ for all.
- The JPEG encoder around the frame differ, and the hardware encoder's transform, texture upload and rate control.
- Driver restart onto an old mapping, two producers, weak memory order, wrap of the slot stamp.
- f32 rounding: the 0.7 cut is any value below the old bitrate, smoothing of round-trip times is an arbitrary verdict.
- Resampler.LinearResampler.Process: positions and samples are exact and interleaved samples are frames, so f64 and f32 rounding and the index arithmetic of interleaving are not captured.
- Muxer.Fmp4Muxer.Push: numbers are unbounded, so the 2^53 limit of JavaScript numbers is not captured.
- FileReceive.SendFileChunks: storage errors of the sender and its pauses are not modelled.
- HostRuns.EveryInterleavingIsSound: finishing a transfer is one step, so two sessions between the existence check and the rename of one destination are not modelled.
- HostRuns.DoneMeansVerified: likewise, so a name counts as taken at the one time of check and rename.
- Handshake.LegacyPinsAreSingleUse: one message is one step; the single lock accesses are those of `PinOverlaps.dfy`.
- OfferQueue.TransferManager.List: the order by offer time and the fields shown are not modelled.
- OfferQueue.TransferManager.Prune: the channel to a session may be full, which loses an answer; sends are counted, not delivered.
- The web viewer's file receiver and the media-source queue of its video path.
- Grants, clipboard echo, audio listeners, discovery, panel, tray, configuration and key tables.
