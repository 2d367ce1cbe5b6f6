# A verified model of the Tenkile media server's stateful core

Tenkile decides how each device plays each item, caches the segments it produces, and guards itself
with breakers, limiters and lockouts. This project models those parts in Dafny and proves what they
keep over every run.

Code that updates fields in place is a class here, with the program's methods and loops. Each method
is proved equal to a step on values, and the properties are proved about the steps, over all
sequences of them. Times are integers that do not run backwards, `float64` is `real`, and sizes and
counts are unbounded integers, except where a property is about 64-bit arithmetic.

| files | part of the server |
|---|---|
| `SegmentCacheSpec`, `SegmentCacheSections`, `SegmentCacheRuns`, `SegmentCacheRecency`, `SegmentCacheCleanup`, `SegmentCacheInterleaved`, `SegmentCache` | the two-tier segment cache: recency list, byte counters, disk tier, cleanup, interleaved calls |
| `Codec`, `Spellings`, `Encoders`, `EncoderPreference`, `Playback`, `PlaybackTheorems`, `PlaybackRules`, `HdrKept`, `Orchestrator` | from an item and a device to a decision: names, encoders, the rules and the engine |
| `FFmpeg`, `CommandLine`, `Delivery`, `PictureSize`, `Decimal` | from a decision to a command line, and what the device gets |
| `CircuitBreaker`, `CircuitBreakerHistory` | the circuit breaker |
| `RateLimiter`, `Lockout`, `LockoutAnswers` | request rate limit and login lockout |
| `Feedback`, `FeedbackTheorems`, `FeedbackOutcomes` | playback feedback counters and the trust adjustment |
| `CuratedIndex`, `CuratedTheorems`, `CuratedHashes`, `CuratedVotes` | the curated device database: indexes, loads and votes |
| `CapabilityCache`, `CapabilityCacheAnswers` | the capability cache without a database |
| `Hub` | the WebSocket hub as an interleaved protocol |
| `Strings`, `Resolution`, `Mime` | printers and their parsers |
| `Options` | the one datatype that all of them share |

## Where the code does not do what it says

The model follows the code. Each of these is a lemma, with the exact condition beside it.

- `InvalidateMedia` is documented to remove all segments of an item. It leaves the disk tier alone, so
  the next `Get` finds them (`InvalidateMediaLeavesDisk`); it reaches other items whose id starts
  with the same id and a colon (`InvalidatedIff`); and the list nodes it leaves behind can evict
  segments stored later (`LeftoverTakesNewerEntry`; exactly when: `KeptIffNotExposed`).
- The disk byte counter only ever drifts upwards. Overwriting never takes the drift over the limit,
  Gets that remove expired segments do (`OverdriftNeedsExpiry`, `OverdriftHappens`). From then on
  every `Set` empties the directory (`DriftFlushesForever`), and only from then on (`NoTwoStayIff`).
- A `Get` that promotes a segment while other calls run can bring back what they replaced or removed:
  whatever it can read from disk, it can store after an `Invalidate` (`StaleAfterInvalidate`; exactly
  when hits are stale: `AlwaysFreshIff`, `SplitGetIsFreshIff`).
- The breaker's default configuration allows one probe and asks for three successes, so it never
  closes again under `Do` (`DefaultNeverRecovers`; exactly when: `RecoversIff`). The decision engine
  never calls `Allow`, so its breaker never closes at all once it is open (`OnceOpenAlwaysDegraded`),
  and then every decision says direct play, playable or not (`DirectPlayIsPlayableIff`), and burn-ins
  are dropped (`BurnInKeptIff`).
- A breaker that has recovered still remembers the failures that opened it: whatever the threshold, the
  next failure opens it again, unless a success comes first (`OneFailureAfterRecovery`). The successes
  that close it need not come in a row (`FailedProbeKeepsCount`).
- A device that can do more can end up without HDR (`MoreCapableMayLoseHdr`; exactly when:
  `MoreCapableKeepsHdrIff`). The last-resort decision drops HDR without tone mapping (`HdrIsIgnored`),
  and is the only one that does (`HdrHandledIff`). Dolby Vision without the HDR flag is tone-mapped in
  name only (`MappedInName`; exactly when: `ToneMapFilterIff`, `MappedInNameIff`). A re-encode that
  keeps HDR always says that it keeps the bit depth, and asks for a ten-bit pixel format, whether or
  not the selected encoder has ten bits (`KeptHdrIsTenBitIff`).
- The audio ladder looks at codec lists only. DTS and Atmos can be copied to a device without the flag
  for them, and AAC sent to a device that does not list it (`DtsIsCopied`; exactly when:
  `AudioPlaysIff`). A picture too large for the device is re-encoded, and no command that is built
  makes it smaller (`OversizeIsReencoded`, `PictureKeepsItsSize`).
- The audio ladders name some codecs twice, with fewer channels the second time. The second rung is
  never used (`Eac3First`, `AacFirst`). TrueHD, DTS and ALAC with more than eight channels are said to
  be re-encoded to themselves, and the command makes AAC (`EncoderMakesTargetIff`).
- A policy of never tone-mapping is not kept where Dolby Vision loses its base layer or the encoder has
  no HDR (`HdrOfReencode`).
- A remux into `mkv` or `ts` passes these names to FFmpeg as format names, which they are not
  (`RemuxedIntoMkv`; exactly when: `RemuxFormatIff`).
- The default minimum of the trust adjustment is 0, so penalties never take a device below its base
  score (`DefaultNeverPenalizes`; exactly when: `PenalizesIff`).
- Lookups by hash can miss a device that is there (`HashLookupCanMiss`) or find one with another hash,
  after a load (`FoundUnderOldHash`) or a removal (`FoundAfterRemoval`). `AlwaysRightIff` and
  `AlwaysFoundIff` name the operations to blame, exactly.
- The lockout cleanup forgets attempts, so an address gets more of them than without it, unless the
  first failure already locks (`CleanupKeepsBoundIff`). The delay that doubles up to 16 seconds goes
  wrong when the limit is above 35 attempts (`DelaysExactIff`).
- A closed send channel can still be met by the reply of a client's own read pump
  (`ReaderOutlivesChannel`; exactly when: `ReaderMeetsClosedIff`).

## Model

| member | source | states |
|---|---|---|
| SegmentCacheSections.StructureAlways | internal/metrics/segment_cache.go:156-274 | Under every interleaving of the memory tier's critical sections, including a move-to-front that comes long after its lookup: the counter is the size of all list nodes, every map entry owns its own node, the item limit holds, and the byte limit holds unless the list has one node |
| SegmentCacheSections.BijectionWithoutForget | internal/metrics/segment_cache.go:179-274 | Without InvalidateMedia, map and list always hold the same entries |
| SegmentCacheSpec.PutKeeps | internal/metrics/segment_cache.go:205-240 | Storing keeps the structure, whether the key is new, present, or evicted while room is made |
| SegmentCacheSpec.ForgetKeeps | internal/metrics/segment_cache.go:156-168 | Removing an item's map entries keeps the structure although nodes and counter stay |
| SegmentCacheSpec.CleanKeeps | internal/metrics/segment_cache.go:409-422 | Removing expired entries keeps the structure |
| SegmentCacheRecency.RecentlyUsedKept | internal/metrics/segment_cache.go:179-274 | An entry whose key no other node carries stays while what was used after it, and every later critical section about other keys, fit the limits next to it: their bytes the byte limit, and each section, whatever it does, one place of the item limit |
| SegmentCacheRecency.HitAfterOthers | internal/metrics/segment_cache.go:179-240 | A segment just set, without leftover nodes of its key, is found with its bytes after any such sequence |
| SegmentCacheRecency.KeptIffNotExposed | internal/metrics/segment_cache.go:156-274 | In every state, empty segments and full maps included: a segment just set survives every single other Set that fits next to it iff eviction up to what fits reaches no node of its key |
| SegmentCacheRecency.LeftoverTakesNewerEntry | internal/metrics/segment_cache.go:255-274 | A concrete run in which evicting a leftover node deletes the newer entry of the same key |
| SegmentCacheRuns.HitIsFresh | internal/metrics/segment_cache.go:112-153 | In every run a hit is exactly the bytes of the latest Set of the key, not invalidated since, and no older than the lifetime: the time to live, or twice that with a disk tier |
| SegmentCacheRuns.PromotionRestartsClock | internal/metrics/segment_cache.go:112-168 | The double lifetime is reached: a run from the new cache after which the segment is returned at that very age |
| SegmentCacheRuns.SetThenGet | internal/metrics/segment_cache.go:134-146 | A segment is found, with its bytes, until its time to live has run, right after it was set |
| SegmentCacheCleanup.CleanupChangesNoAnswer | internal/metrics/segment_cache.go:409-451 | Whatever a later Get returns after the cleanup of both tiers, it would have returned without it |
| SegmentCacheCleanup.CleanupLeavesFresh | internal/metrics/segment_cache.go:409-451 | The cleanup leaves exactly the segments on disk whose time to live has not passed, no expired map entry, and what it leaves unchanged |
| SegmentCacheRuns.InvalidateMediaLeavesDisk | internal/metrics/segment_cache.go:155-168 | After InvalidateMedia a key of the item hits iff the disk tier still has it unexpired |
| SegmentCacheRuns.SplitGetIsFreshIff | internal/metrics/segment_cache.go:112-153 | After any run: a Get that reads from disk, lets any operations run and then promotes leaves what was set last iff the last of them on the key, if any, is a Set of the same bytes; an Invalidate in between is undone |
| SegmentCacheInterleaved.HitIsLastStored | internal/metrics/segment_cache.go:112-329 | Under every interleaving of the parts of all calls, late deletions, evictions and both cleanups among them, a memory hit is what was stored in memory last under the key, by a Set or a promotion, and a disk hit what was written last |
| SegmentCacheInterleaved.HitWasSet | internal/metrics/segment_cache.go:112-329 | Under every interleaving a hit in either tier returns bytes that some Set of the same key was given |
| SegmentCacheInterleaved.DiskAnswers | internal/metrics/segment_cache.go:278-342 | Under every interleaving the disk tier answers with what was written last under the key and not removed since, until its time to live has passed, and with nothing otherwise |
| SegmentCacheInterleaved.AlwaysFreshIff | internal/metrics/segment_cache.go:112-153 | Every memory hit throughout an interleaved run is what was set last and not invalidated since, iff every Get that promotes what it found on disk does so while the same bytes are still set; the condition is over the sequence of parts alone |
| SegmentCacheInterleaved.StaleWasPromoted | internal/metrics/segment_cache.go:121-127 | A stale entry was promoted, from bytes that the disk held when its Get read them, and no Set or Invalidate touched memory since |
| SegmentCacheInterleaved.StaleAfterInvalidate | internal/metrics/segment_cache.go:112-153 | After every run and for every segment that a Get can then read from disk, an Invalidate between its read and its store leaves nothing set, and memory hits all the same |
| SegmentCacheInterleaved.DiskIsRead | internal/metrics/segment_cache.go:121-168 | A run after which a Get reads from disk: the segment was set, and InvalidateMedia took it from memory |
| SegmentCacheRuns.SameKeyIff | internal/metrics/segment_cache.go:171-175 | Under a digest without collisions, two segments of an item share a key iff variant and segment id read the same once joined by a colon |
| SegmentCacheRuns.InvalidatedIff | internal/metrics/segment_cache.go:156-175 | Which items InvalidateMedia reaches, exactly |
| SegmentCacheRuns.DiskBound | internal/metrics/segment_cache.go:302-329 | In every run, after every Set the stored bytes are within the limit or the directory holds the new segment only |
| SegmentCacheRuns.DriftOnlyGrows | internal/metrics/segment_cache.go:278-456 | In every run the counter is never below the stored bytes, and the difference never shrinks |
| SegmentCacheRuns.OverdriftNeedsExpiry | internal/metrics/segment_cache.go:278-329 | The difference exceeds the limit only if some Get has removed an expired segment: overwrites alone never get it there |
| SegmentCacheRuns.OverdriftHappens | internal/metrics/segment_cache.go:278-329 | It does get there, for every limit and every segment that is not empty: a run of Sets and late Gets of that one segment |
| SegmentCacheRuns.DriftFlushesForever | internal/metrics/segment_cache.go:302-391 | From then on every later Set leaves its own segment only |
| SegmentCacheRuns.NoTwoStayIff | internal/metrics/segment_cache.go:302-391 | From a state on, two segments set in a row never stay together iff the difference exceeds the limit |
| SegmentCacheRuns.EvictsOldest | internal/metrics/segment_cache.go:348-391 | What the eviction loop removes is never newer than what it keeps |
| SegmentCacheRuns.PutDiskAccounts | internal/metrics/segment_cache.go:302-329 | One disk write: bytes, counter, drift and the bound |
| SegmentCache.SegmentCache.Get | internal/metrics/segment_cache.go:112-131 | The object answers and changes as the two-tier step says |
| SegmentCache.SegmentCache.Set | internal/metrics/segment_cache.go:134-146 | The object takes a Set step in both tiers |
| SegmentCache.SegmentCache.Invalidate | internal/metrics/segment_cache.go:149-153 | The object takes an Invalidate step in both tiers |
| SegmentCache.SegmentCache.InvalidateMedia | internal/metrics/segment_cache.go:156-168 | The map loses the item's keys; nodes, counter and disk stay |
| SegmentCache.SegmentCache.CleanupExpired | internal/metrics/segment_cache.go:409-456 | Both loops together remove what is expired, in both tiers |
| SegmentCache.SegmentCache.SetL1 | internal/metrics/segment_cache.go:205-240 | Map, list and counter become those of the memory step: evict, then overwrite in place or push a new node |
| SegmentCache.SegmentCache.GetL1 | internal/metrics/segment_cache.go:179-203 | Hit, expiry and miss, with the list moved to front or the entry deleted |
| SegmentCache.SegmentCache.EvictL1 | internal/metrics/segment_cache.go:255-274 | The last node goes, and with it whatever entry the map has under its key |
| SegmentCache.SegmentCache.SetL2 | internal/metrics/segment_cache.go:302-329 | The eviction loop ends, and leaves what oldest-first eviction may leave |
| SegmentCache.SegmentCache.EvictL2 | internal/metrics/segment_cache.go:348-391 | One oldest file goes, false iff there is none |
| PlaybackTheorems.MoreCapableNeverWorse | internal/transcode/orchestrator.go:163-485 | Superset lists, no lower trust, no tighter limits and no flag turned off never give a worse kind of decision, whichever encoders tie |
| PlaybackRules.VideoKeptIff | internal/transcode/matcher.go:21-55 | With the breaker not open, the video is kept as it is iff trust, codec, width, height, bit rate, HDR and Dolby Vision fit the device, the policy does not map it, nothing is burned in, and the server could encode some video or nothing else needs it |
| PlaybackRules.AudioKeptIff | internal/transcode/matcher.go:58-74 | The audio is kept iff everything is, or the ladder copies it: by codec list and number of channels |
| PlaybackRules.KindIs | internal/transcode/orchestrator.go:163-432 | Which kind of decision it is, from the fields of item and device: direct play, remux, transcode or fallback |
| PlaybackRules.ContainerOfCopies | internal/transcode/orchestrator.go:242-317 | What is sent as it is stays in its container if the device lists it, and goes into the first of the device's containers that holds both streams otherwise |
| PlaybackRules.ContainerOfTranscode | internal/transcode/orchestrator.go:319-532 | A transcode goes out in the best container for both targets; the fallback is H.264 and stereo AAC in MP4 |
| PlaybackRules.VideoTargetIs | internal/transcode/orchestrator.go:434-459 | The video ladders come down to this: HEVC or VP9, if the source is worth it and both sides know it, and H.264 otherwise |
| PlaybackRules.AudioForIs | internal/transcode/orchestrator.go:461-485 | The audio ladders come down to this: the source codec if it may stay, or else E-AC-3, AC-3 or AAC, each with at most so many channels, and stereo AAC unasked |
| PlaybackRules.AudioSent | internal/transcode/orchestrator.go:242-485 | Codec and channels of the audio that is sent, for all inputs |
| PlaybackRules.Eac3First | internal/transcode/codec_ladder.go:33-85 | What rules out the first rung of E-AC-3 rules out the second, which is never used |
| PlaybackRules.ContainerIs | internal/transcode/orchestrator.go:487-512 | The order in which containers are tried, and what is left if none suits |
| PlaybackRules.SubtitleIs | internal/transcode/subtitle.go:59-131 | What becomes of a subtitle, by the name of its format: passed on, converted, burned in or dropped |
| PlaybackRules.HdrOfReencode | internal/transcode/orchestrator.go:319-425 | A re-encode keeps HDR iff the policy wants it for the device and the encoder has it; it maps every other HDR source and Dolby Vision that loses its base layer, and nothing else |
| HdrKept.ReencodesIff | internal/transcode/orchestrator.go:191-432 | When a decision re-encodes to a ladder codec, before any encoder is selected |
| HdrKept.SelectedHasHdrIff | internal/server/encoder.go:26-105 | The selector is bound to return an HDR encoder iff one offers HDR with ten bits, or none offers ten bits and every one with the best score offers HDR |
| HdrKept.HdrKeptIff | internal/transcode/orchestrator.go:319-425 | A re-encode keeps HDR, whichever encoder ties, iff the policy wants it for the device and the selector is bound to return an HDR encoder for the target |
| HdrKept.KeptHdrIsTenBitIff | internal/transcode/orchestrator.go:355-425 | A re-encode that keeps HDR always says the bit depth is kept; the selected encoder has ten bits iff some encoder of the target offers HDR with ten bits |
| HdrKept.MoreCapableKeepsHdrIff | internal/transcode/orchestrator.go:319-459 | Where a lesser device keeps HDR, a more capable one keeps it iff it does not re-encode or the selector is bound to return an HDR encoder for its target |
| HdrKept.MoreCapableMayLoseHdr | internal/transcode/orchestrator.go:366-459 | That condition can fail: a device given one more codec loses HDR |
| PlaybackTheorems.ReencodeIsSound | internal/transcode/orchestrator.go:319-432 | A re-encode names an encoder of the server for its target; HDR is kept only by one that passes it through, and an HDR source is kept or tone-mapped, never both or neither |
| PlaybackTheorems.HdrConsistent | internal/transcode/orchestrator.go:163-532 | No decision of any kind claims both HDR and tone mapping, or HDR for an SDR source |
| PlaybackTheorems.BurnInReencodes | internal/transcode/orchestrator.go:191-216 | With the breaker not open, a burn-in always means a video re-encode |
| PlaybackTheorems.BurnInIff | internal/transcode/subtitle.go:59-131 | Which subtitles are burned in, exactly |
| PlaybackTheorems.StyledIsBurnedIn | internal/transcode/subtitle.go:59-131 | ASS subtitles are burned in under the configuration that asks for it, whatever the device |
| PlaybackTheorems.BurnInKeptIff | internal/transcode/orchestrator.go:180-200 | A burn-in reaches the decision iff the breaker is not open |
| PlaybackTheorems.OpenBreakerDegrades | internal/transcode/orchestrator.go:179-189 | With the breaker open every decision says direct play, and is the zero decision if that is impossible |
| PlaybackRules.OpenBreakerSaysNothing | internal/transcode/orchestrator.go:179-189 | With the breaker open, in full: a direct play of item and container where that is possible, and of nothing where it is not |
| PlaybackTheorems.DirectPlayIsPlayableIff | internal/transcode/orchestrator.go:179-205 | Direct-play decisions are playable for every item and device iff the breaker is not open |
| PlaybackTheorems.ContainerHoldsIff | internal/transcode/orchestrator.go:487-512 | The chosen container holds both codecs iff a preferred container of the device, MPEG-TS or MP4 does |
| PlaybackTheorems.TargetsAreSendable | internal/transcode/orchestrator.go:242-485 | With the breaker not open, the codecs that a decision names are on the lists of the device, but for the last resorts H.264 and AAC |
| Delivery.CopiesAudioIff | internal/transcode/orchestrator.go:191-432 | For which inputs the audio is sent as it is, whatever encoder is selected |
| Delivery.AudioPlaysIff | internal/transcode/orchestrator.go:242-485 | For which inputs the device can play the audio it is sent: wherever direct play and remux fail, the flags allow the DTS or Atmos that the ladder copies, and AAC is listed where it is the last resort |
| Delivery.CopiedAudioPlaysIff | internal/transcode/matcher.go:58-74 | Where the audio is copied, the device passes the direct-play test for it under the same condition; the ladder does not repeat the test |
| Delivery.DtsIsCopied | internal/transcode/orchestrator.go:417-485 | It fails: DTS is copied to a device that lists it and does not have the flag |
| PictureSize.OversizeIsReencoded | internal/transcode/matcher.go:31-37 | With the breaker not open, a picture wider or higher than a limit of the device is re-encoded |
| PictureSize.PictureKeepsItsSize | internal/transcode/ffmpeg.go:26-242 | No command built for a decision changes the size of the picture: the -vf value is the text of filters none of which resizes, and no argument but the paths is -s |
| PlaybackTheorems.KeepsAudioMore | internal/transcode/codec_ladder.go:31-105 | A device that can do more keeps the audio whenever the lesser one does, for every source and ladder |
| Orchestrator.Orchestrator.Decide | internal/transcode/orchestrator.go:163-231 | The decision object ends as the decision on values says, for some encoder that the selector may return |
| Orchestrator.Orchestrator.TryDirectPlay | internal/transcode/orchestrator.go:242-282 | True iff direct play is allowed; the decision is filled in then and untouched otherwise |
| Orchestrator.Orchestrator.TryRemux | internal/transcode/orchestrator.go:284-317 | True iff some container of the device holds both codecs and the streams can be copied |
| Orchestrator.Orchestrator.BuildTranscode | internal/transcode/orchestrator.go:319-432 | Fallback, transcode or remux with every field of the plan |
| Orchestrator.Orchestrator.SelectAudioTarget | internal/transcode/orchestrator.go:461-485 | The first usable rung of the source's ladder, with its channels limited by the source |
| Orchestrator.Orchestrator.FindCompatibleContainer | internal/transcode/orchestrator.go:514-521 | The first container of the list that holds both codecs |
| Orchestrator.OnceOpenAlwaysDegraded | internal/transcode/orchestrator.go:157-240 | After any results that open the breaker, no later results make another decision than direct play |
| Encoders.SelectEncoder | internal/server/encoder.go:26-67 | An encoder of the first tier that is not empty with the best score of that tier; none iff the codec cannot be encoded |
| Encoders.TierNotEmpty | internal/server/encoder.go:39-57 | Relaxing the requirements always ends in a tier that is not empty |
| EncoderPreference.SelectedIff | internal/server/encoder.go:26-105 | An encoder may be selected iff it is a candidate and no other candidate beats its speed rank after 100 ranks for hardware, 20 for HDR, 15 for 4K, 10 for ten bits and 5 for 1080p |
| EncoderPreference.HardwareFirst | internal/server/encoder.go:85-105 | A software encoder is selected over a hardware one only if it is faster by at least 50 ranks |
| EncoderPreference.FiftyRanksSuffice | internal/server/encoder.go:85-105 | Fifty ranks are just enough for that |
| EncoderPreference.FeatureIsWorth | internal/server/encoder.go:85-105 | Of two candidates that differ in one feature, the one without it is selected only if it is faster by what the feature is worth |
| EncoderPreference.DominatedNeverSelected | internal/server/encoder.go:85-105 | A candidate is not selected if another has all that it has, is no slower, and has more or is faster |
| Codec.EqualPlain | pkg/codec/database.go:98-100 | ASCII names without capitals and white space, as the tables write them, are equal only if they are the same |
| Spellings.EqualIff | pkg/codec/database.go:98-100 | Two spellings of a name are equal iff what stands between the blanks around them differs at most in the case of ASCII letters |
| Spellings.Splits | pkg/codec/database.go:98-100 | Every text is blanks, a text without blanks at its ends, and blanks |
| FFmpeg.HdrReachesCommand | internal/transcode/ffmpeg.go:66-181 | From decision to arguments: a re-encoded HDR source is ten-bit and unmapped through an encoder with HDR, or mapped by exactly one filter |
| Delivery.HdrHandledIff | internal/transcode/ffmpeg.go:66-181 | Whatever re-encodes an HDR source makes it ten-bit or maps it iff the server can encode a target for the device, that is, unless the decision is the fallback |
| Delivery.HdrIsIgnored | internal/transcode/orchestrator.go:319-353 | It fails: with no server capabilities an HDR source is neither kept nor mapped |
| Delivery.ToneMapFilterIff | internal/transcode/ffmpeg.go:109-121 | A decision that says tone-mapped gets its filter iff the source is flagged as HDR |
| Delivery.MappedInNameIff | internal/transcode/orchestrator.go:330-425 | Re-encodes of a source without that flag say tone-mapped iff they lose the base layer of Dolby Vision |
| Delivery.MappedInName | internal/transcode/orchestrator.go:330-425 | It happens: such a re-encode says tone-mapped, and its arguments have no tone-map filter |
| FFmpeg.VideoArgsFollowPlan | internal/transcode/ffmpeg.go:92-181 | For every decision and encoder: ten-bit pixel format iff HDR is kept, and one tone-map filter iff a source flagged as HDR is mapped |
| FFmpeg.BurnInReachesCommand | internal/transcode/ffmpeg.go:26-90 | With the breaker not open and a stream selected, the built command has a real video encoder and a -vf value that spells out the subtitle filter |
| FFmpeg.RejectedIff | internal/transcode/ffmpeg.go:216-242 | A decision is rejected iff it burns in a subtitle of which no stream is selected |
| FFmpeg.FFmpegArgs.Build | internal/transcode/ffmpeg.go:26-63 | The command line in its order, with copy where there is no encoder |
| FFmpeg.BuildFFmpegArgs | internal/transcode/ffmpeg.go:66-90 | Nothing for direct play, an error for a bad stream, and otherwise the arguments that the decision stands for |
| Delivery.TranscodeFormat | internal/transcode/ffmpeg.go:66-90 | A re-encode is written in the format that FFmpeg has for its container |
| Delivery.RemuxFormatIff | internal/transcode/ffmpeg.go:66-90 | A remux is told a format that FFmpeg has iff its container is neither mkv nor ts |
| Delivery.RemuxedIntoMkv | internal/transcode/orchestrator.go:242-317 | It fails: a device whose only container is mkv is sent a remux with a format name that FFmpeg lacks |
| FFmpeg.JoinHolds | internal/transcode/ffmpeg.go:36-38 | Every filter is spelled out in the joined text |
| CommandLine.TranscodeCommand | internal/transcode/ffmpeg.go:26-303 | The command of a transcode, word for word: filters in order, colours, pixel format, preset, audio encoder with bit rate and channels, no subtitle stream, and the format |
| CommandLine.RemuxCommand | internal/transcode/ffmpeg.go:26-80 | The command of a remux, word for word |
| FilterText.FiltersSplit | internal/transcode/ffmpeg.go:36-38 | The value of -vf, taken apart at its commas, is the steps of all filters in order |
| FilterText.FilterWords | internal/transcode/ffmpeg.go:156-172 | The name and the options of each step of each filter, word for word |
| FilterText.StepSplits | internal/transcode/ffmpeg.go:156-236 | The options of a step are found between the colons after its name |
| CommandLine.EncoderMakesTargetIff | internal/transcode/ffmpeg.go:183-214 | The audio encoder of the command makes the codec that the decision names, unless that is TrueHD, DTS or ALAC with more than eight channels |
| CircuitBreaker.FailuresCountHistory | internal/circuitbreaker/breaker.go:158-199 | The failure counter is the number of failures recorded while closed since the last success recorded while closed, across open episodes |
| CircuitBreaker.RunBounds | internal/circuitbreaker/breaker.go:124-199 | In every run the successes stay below their threshold, and the failures are at theirs whenever the breaker is not closed |
| CircuitBreakerHistory.StateIs | internal/circuitbreaker/breaker.go:124-199 | After any history, which event changes the state, and to what: the failure that reaches the threshold, Allow after the timeout, any failed probe, and the last probe that is needed |
| CircuitBreakerHistory.CountersAre | internal/circuitbreaker/breaker.go:158-199 | What both counters count, in terms of the history; a failed probe does not clear the successes |
| CircuitBreakerHistory.AllowedIff | internal/circuitbreaker/breaker.go:124-155 | What Allow answers after any history, in every state |
| CircuitBreakerHistory.RefusesUntilTimeout | internal/circuitbreaker/breaker.go:124-199 | A failure of a breaker that is not closed opens it; whatever happens until the timeout has passed, it stays open and refuses |
| CircuitBreakerHistory.TripsAtThreshold | internal/circuitbreaker/breaker.go:178-189 | A failure opens a closed breaker iff it is the one that reaches the threshold, and then Allow refuses until the timeout has passed |
| CircuitBreakerHistory.OneFailureAfterRecovery | internal/circuitbreaker/breaker.go:158-199 | The first failure after recovery opens the breaker again whatever the threshold, unless a success comes first |
| CircuitBreakerHistory.FailedProbeKeepsCount | internal/circuitbreaker/breaker.go:158-199 | Successes before a failed probe still count towards closing |
| CircuitBreakerHistory.CallsAreEvents | internal/circuitbreaker/breaker.go:202-214 | Calls of Do are such histories |
| CircuitBreaker.OpenUntilTimeout | internal/circuitbreaker/breaker.go:124-155 | From Open, Allow says yes iff the latest failure of the whole history is more than the timeout ago |
| CircuitBreaker.OpenWithoutAllow | internal/circuitbreaker/breaker.go:157-199 | Results alone never leave Open |
| CircuitBreaker.OpenCloses | internal/circuitbreaker/breaker.go:124-214 | With enough probes, exactly the missing number of successful calls closes an open breaker, and no fewer |
| CircuitBreaker.HalfOpenStuck | internal/circuitbreaker/breaker.go:141-155 | With its probes used up, a half-open breaker never changes again under Do |
| CircuitBreaker.RecoversIff | internal/circuitbreaker/breaker.go:86-214 | Some use of Do alone trips and closes a breaker iff it may probe as often as it needs successes |
| CircuitBreaker.DefaultNeverRecovers | internal/circuitbreaker/breaker.go:75-83 | The default configuration never recovers under Do |
| CircuitBreaker.Breaker.Allow | internal/circuitbreaker/breaker.go:124-155 | The answer and the new fields |
| CircuitBreaker.Breaker.RecordSuccess | internal/circuitbreaker/breaker.go:158-176 | The new fields in each of the three states |
| CircuitBreaker.Breaker.RecordFailure | internal/circuitbreaker/breaker.go:179-199 | The new fields in each of the three states |
| CircuitBreaker.Breaker.Do | internal/circuitbreaker/breaker.go:202-214 | Rejection without change, or both halves of the call |
| RateLimiter.ExactWindow | internal/api/router.go:939-987 | After any history a request is allowed iff fewer than the limit of all requests ever allowed are in the window: pruning and cleanup never change an answer |
| RateLimiter.NeverMoreThanLimit | internal/api/router.go:963-987 | No interval as long as the window holds more than the limit of allowed requests |
| RateLimiter.RateLimiter.Allow | internal/api/router.go:963-987 | Answer and stored times |
| RateLimiter.RateLimiter.Cleanup | internal/api/router.go:940-961 | Every key pruned, keys without times removed |
| RateLimiter.CleanupLeaves | internal/api/router.go:940-961 | Cleanup leaves the keys with a request inside the window, and of each exactly the requests inside it |
| Lockout.AlwaysSound | internal/api/auth/ratelimit.go:115-151 | In every run an address has a lock time iff it reached the limit, and it is the latest counted failure plus the lockout |
| LockoutAnswers.RecordIs | internal/api/auth/ratelimit.go:115-264 | After any history the record of an address is the list of the failures that count against it: made while not locked, since the latest success or forgetting cleanup |
| LockoutAnswers.LockedIff | internal/api/auth/ratelimit.go:80-96 | An address is locked iff there are `maxAttempts` of these, until the lockout after the last |
| LockoutAnswers.FailureIsAnswered | internal/api/auth/ratelimit.go:115-151 | What a failure is answered after any history: the time left, the lockout, or the delay that doubles up to 16 seconds |
| Lockout.GuessesWithoutCleanup | internal/api/auth/ratelimit.go:115-151 | Without a success, an address has the limit of guesses and one more per lockout |
| Lockout.GuessesBounded | internal/api/auth/ratelimit.go:115-264 | Whenever cleanup runs, an address has at most the limit of guesses per lockout period, or per day if that is shorter |
| Lockout.CleanupKeepsBoundIff | internal/api/auth/ratelimit.go:115-264 | The bound that holds without cleanup holds with it, in every run without a success, iff one attempt is allowed |
| Lockout.CleanupKeepsLocks | internal/api/auth/ratelimit.go:242-264 | Cleanup never changes whether an address is locked, then or later |
| Lockout.CleanupChangesAnswer | internal/api/auth/ratelimit.go:115-264 | Cleanup changes the answer to a later failure iff it dropped the record and more than one attempt is allowed |
| Lockout.CleanupsUnnoticed | internal/api/auth/ratelimit.go:80-264 | A whole run with cleanups has the same locks as without them, unless an address fails again after it could have been dropped |
| Lockout.CleanupsNoticedIff | internal/api/auth/ratelimit.go:80-264 | After such a run the answer to the next failure is another than without cleanups iff the record was dropped and more than one attempt is allowed |
| Lockout.DelaysExactIff | internal/api/auth/ratelimit.go:146-151 | In 64-bit arithmetic every delay short of a lockout is 1, 2, 4, 8, then 16 seconds iff at most 35 attempts are allowed |
| Lockout.DelayWraps | internal/api/auth/ratelimit.go:146-151 | The 35th delay is negative, and from the 56th on there is none |
| Lockout.BruteForceProtector.RecordFailure | internal/api/auth/ratelimit.go:115-151 | Record, lock and answer, and that the answer says whether the address is now locked |
| Lockout.BruteForceProtector.GetLockoutRemaining | internal/api/auth/ratelimit.go:97-112 | The time after which, and not before, the address is unlocked |
| Lockout.BruteForceProtector.Cleanup | internal/api/auth/ratelimit.go:242-264 | Exactly the stale records are dropped |
| FeedbackTheorems.CountersRefineHistory | internal/probes/feedback.go:205-407 | Each counter is the number of reports in the history that it is named after |
| FeedbackTheorems.CountersAddUp | internal/probes/feedback.go:321-407 | Outcome counts sum to the total, attempts to successes and failures, for every codec and overall |
| FeedbackTheorems.StreaksAreTrailing | internal/probes/feedback.go:321-429 | The consecutive counters are the trailing runs of the codec-bearing results since the last reset, never both positive |
| FeedbackOutcomes.TrustAfterReport | internal/probes/feedback.go:297-407 | What each outcome does to the adjustment after any history, the bonus of a streak included |
| FeedbackOutcomes.DefaultCosts | internal/probes/feedback.go:146-159 | What each outcome costs under the default configuration |
| FeedbackOutcomes.NeedsReProbeIff | internal/probes/feedback.go:205-429 | A device is to be probed again iff after some report since the last reset so many failures in a row, or more failures than half of at least ten reports, stood behind it |
| FeedbackOutcomes.AfterReset | internal/probes/feedback.go:607-618 | What a reset forgets and what it keeps |
| FeedbackTheorems.StoredAreLast | internal/probes/feedback.go:205-264 | While nothing is expired, the events that the manager stores of a device are the last of its whole history |
| FeedbackTheorems.StoredAreRecent | internal/probes/feedback.go:205-558 | With expiries, they are the last of those newer than what the latest expiry left, over every history in order of time |
| FeedbackTheorems.TrustInRange | internal/probes/feedback.go:388-406 | The adjustment never leaves its limits, whatever is reported, decayed and reset |
| FeedbackTheorems.TrustLipschitz | internal/probes/feedback.go:297-406 | From two starting adjustments the same reports keep the order and never widen the distance |
| FeedbackTheorems.DecaysToZero | internal/probes/feedback_integration.go:382-418 | Any adjustment between -1 and 1 is exactly 0 after 44 decay runs |
| FeedbackTheorems.FortyThreeAreNotEnough | internal/probes/feedback_integration.go:382-418 | 43 runs do not do |
| FeedbackTheorems.PenalizesIff | internal/probes/feedback.go:297-407 | For every configuration: some history of reports, decay runs and resets takes a device below its base score iff one report takes the adjustment below zero from zero, at the start or in a streak |
| FeedbackTheorems.PenalizesOutcomesIff | internal/probes/feedback.go:297-407 | Where zero lies within the limits and streaks do not penalize, that is: the minimum is negative and some outcome is penalized |
| FeedbackTheorems.DefaultNeverPenalizes | internal/probes/feedback_integration.go:168-203 | So under the default configuration none does |
| Feedback.FeedbackManager.RecordFeedback | internal/probes/feedback.go:205-285 | Stored events, counters and trust of the device after one report; other devices untouched |
| Feedback.FeedbackManager.UpdateStats | internal/probes/feedback.go:321-407 | The counters and the clamped adjustment, field by field |
| Feedback.FeedbackManager.RunDecay | internal/probes/feedback_integration.go:382-418 | Every device decays once |
| CuratedTheorems.LookupIsScan | internal/probes/curated.go:156-282 | After any history of adding, removing, voting, verifying and loading without merging, lookups by platform and codec give what a scan of the live devices gives, in order and with multiplicity, although codec entries are never removed |
| CuratedTheorems.HashFindsOldest | internal/probes/curated.go:156-240 | After any such history a lookup by hash gives the oldest live device with the hash, or none if there is none |
| CuratedTheorems.AlwaysComplete | internal/probes/curated.go:156-225 | With the merging loader in the mix, each live device is listed under its hash, its platform and its codecs |
| CuratedVotes.VotesAreCounted | internal/probes/curated.go:156-548 | After every history, loads included, a device has the votes it was entered with and every one cast since, and is verified iff it came verified or was verified since |
| CuratedVotes.LoadMeets | internal/probes/curated.go:180-198 | A load that finds its hash taken replaces the device under its own id and tally if it is verified or brings more votes, and changes nothing else |
| CuratedVotes.LookupsIgnoreCase | internal/probes/curated.go:243-303 | Lookups by platform and codec give the same for every spelling |
| CuratedHashes.MissedIff | internal/probes/curated.go:156-240 | After any history the hash of a live device is missed iff the first id listed under it is dead |
| CuratedHashes.HashLookupCanMiss | internal/probes/curated.go:156-240 | It happens: a run after which a live device is not found by its hash |
| CuratedHashes.FoundUnderOldHash | internal/probes/curated.go:156-240 | A run after which a lookup finds a device with another hash |
| CuratedHashes.FoundAfterRemoval | internal/probes/curated.go:156-240 | A run in which every lookup is right until a removal brings a device with another hash to the front |
| CuratedHashes.LookupsRightAfterWriteIff | internal/probes/curated.go:208-240 | Writing a device makes a lookup find another hash than the one asked for iff its id is the first one listed under another hash |
| CuratedHashes.LookupsRightAfterRemoveIff | internal/probes/curated.go:477-510 | Removing a device does iff its id is the first one listed under its hash, and the next one is of a live device with another |
| CuratedHashes.AlwaysRightIff | internal/probes/curated.go:156-240 | Throughout a run every device found has the hash asked for, iff no operation is such a write or such a removal |
| CuratedHashes.LookupsFindAfterRemoveIff | internal/probes/curated.go:477-510 | Removing a device makes a lookup miss another one iff a dead id is left first under the hash of that one |
| CuratedHashes.AlwaysFoundIff | internal/probes/curated.go:156-240 | Throughout a run the hash of every live device finds something, iff no operation is such a removal or writes a device behind a dead id |
| CuratedHashes.HashLookupsExact | internal/probes/curated.go:156-240 | In a run without any of these, merging included, a lookup by hash finds a live device with the hash, and none only if there is none |
| CuratedIndex.CuratedDatabase.RemoveDevice | internal/probes/curated.go:477-510 | Error for an unknown id; otherwise the first hash and platform entries go and the codec entries stay |
| CuratedIndex.CuratedDatabase.AddDevice | internal/probes/curated.go:437-455 | The device and its entries in the three indexes |
| CuratedIndex.CuratedDatabase.LoadDevice | internal/probes/curated.go:156-205 | Add, merge into the device with the same hash, or drop |
| CuratedIndex.CuratedDatabase.GetByDeviceHash | internal/probes/curated.go:228-240 | The device of the first id, if it is still there |
| CapabilityCache.NeverOverfull | internal/probes/cache.go:295-326 | In every run the cache holds at most its capacity |
| CapabilityCache.FullSetEvicts | internal/probes/cache.go:295-453 | A Set of a full cache drops exactly a tenth, but at least one, even when it overwrites |
| CapabilityCache.HitIsLastSet | internal/probes/cache.go:156-189 | A hit is what the latest Set of the device stored, not deleted since and within the time to live |
| CapabilityCacheAnswers.GetAnswers | internal/probes/cache.go:156-189 | After every run Get answers what the latest Set of the device stored, until its time to live has passed, unless the device was deleted or evicted since, and nothing otherwise |
| CapabilityCacheAnswers.FoundWhileFewTouched | internal/probes/cache.go:156-453 | A device is found with its capabilities as long as fewer others than one eviction leaves have been stored or found since |
| CapabilityCacheAnswers.SweepLeaves | internal/probes/cache.go:370-396 | DeleteExpired leaves exactly the entries whose time to live has not passed |
| CapabilityCacheAnswers.EntryRecords | internal/probes/cache.go:156-326 | What an entry records: when and where it was stored, and how often it was found since |
| CapabilityCache.KeptWhileFewTouched | internal/probes/cache.go:156-453 | An entry just stored or found stays, until deleted or expired, while fewer other devices than an eviction leaves are stored or found |
| CapabilityCache.CapabilityCache.EvictOldest | internal/probes/cache.go:420-453 | The right number of entries goes, each used no later than every one that stays |
| CapabilityCache.CapabilityCache.Set | internal/probes/cache.go:295-326 | Error without change, or room made and the new entry stored |
| CapabilityCache.CapabilityCache.Get | internal/probes/cache.go:156-189 | Hit, miss and expiry, with the access time and the statistics |
| CapabilityCache.CapabilityCache.DeleteExpired | internal/probes/cache.go:370-396 | Exactly the expired entries go, and their number is returned |
| Hub.HubIsSafe | internal/events/websocket.go:121-247 | Under every interleaving a send channel is closed at most once, never while its client is in the map, and no broadcast sends on a closed one |
| Hub.SendsMeetOpenChannels | internal/events/websocket.go:121-247 | In every reachable state each broadcast that can be under way sends on an open channel |
| Hub.FlagIff | internal/events/websocket.go:121-247 | The flag of HubIsSafe records exactly the runs in which a broadcast meets a closed channel |
| Hub.MembershipIff | internal/events/websocket.go:121-160 | Whenever the hub is idle, the map holds exactly the clients that have connected and not lost a pump |
| Hub.BroadcastReachesAll | internal/events/websocket.go:205-247 | Whatever runs in between, a broadcast turns exactly once to every client that was in the map when it began, and to no other |
| Hub.HubBroadcastReachesAll | internal/events/websocket.go:121-160 | The same for a broadcast of the hub itself |
| Hub.HubNeverDeadlocks | internal/events/websocket.go:121-247 | From every state what is under way can be finished and the hub be idle again; a client being added is then in the map, one being removed is not |
| Hub.LockExcludes | internal/events/websocket.go:121-247 | While the hub holds the lock for writing, no other broadcast is under way |
| Hub.GoneMeansClosed | internal/events/websocket.go:130-137 | Once a pump has unsubscribed and the hub is idle, the client is out of the map and its channel closed exactly once |
| Hub.ReaderMeetsClosedIff | internal/events/websocket.go:121-375 | In every reachable state, while the read pump of a client runs, its channel is closed iff the write pump is gone and the hub has dealt with it |
| Hub.ReaderOutlivesChannel | internal/events/websocket.go:240-375 | Such a state is reachable |
| Resolution.ReadsBackIffPositive | internal/probes/parser.go:222-239 | Every positive size is parsed back from its printed form, and no other size is |
| Decimal.AtoiPrint | internal/probes/types.go:145-150 | Exactly the 64-bit integers are read back as printed |
| Decimal.SignsAlone | internal/probes/types.go:145-150 | A plus sign is read over; a sign alone or nothing is no number |
| Mime.RoundTripIff | pkg/codec/mime.go:23-160 | Printing and parsing gives a MIME type back iff it is canonical |
| Mime.ReparsedIff | pkg/codec/mime.go:23-160 | What was parsed survives printing and parsing iff it has no parameters and no white space at the end of a quoted codec |
| Mime.ParametersAre | pkg/codec/mime.go:145-158 | Which parameters a parsed type has, and which of several codecs |
| Mime.ParseMIME | pkg/codec/mime.go:118-160 | The fields and the two errors, for every text |
| Mime.Print | pkg/codec/mime.go:23-29 | The printed text |

## Left out

- HTTP handlers, authentication, the SQLite stores, FFmpeg execution, hardware probing, scanning and the web client: input and output, or library wrappers.
- One instant per operation: where a method reads the clock twice, both reads give the same time.
- File errors: the disk is a map in which every segment has its .meta file; segment counters and files change together. Path characters in keys are not modelled.
- SegmentCache.Close, eviction callbacks, access counts and hit metrics of the segment cache: they influence nothing that is proved. Its properties are about positive limits; the constructor replaces zero ones, and negative ones are not covered.
- The 8-byte digest in segment keys: a function without collisions where a lemma says so.
- Races within one access to a segment on disk, which the source does not lock: SegmentCacheInterleaved takes each read with its check of the time, each write with its .meta file, and each removal as one part. A memory hit is judged at its lookup. The class and SegmentCacheRuns take whole calls one after the other.
- Breaker.StoreState, state-change callbacks, MultiBreaker and concurrent calls of one breaker: calls run one after the other.
- Reasons, timings and published events of decisions, and the in-place reset of an invalid subtitle index: Decide takes the item as a value and returns the reset one.
- The sorts of the encoder selector and of the capability cache: a library sort that leaves equal elements in any order; here an insertion sort, and lemmas that hold for every order.
- Case folding beyond ASCII in codec names, platforms and MIME types; Codec.EqualPlain is about ASCII names only.
- Rounding of floating-point numbers and the wrap-around of 32-bit counters.
- Lockout durations that overflow 64 bits, GetStatus, callbacks and the parsing of client addresses.
- The texts and callbacks of feedback, success rates, and the resolver's base score, which is a parameter.
- UpdateDevice, the pointers that lookups hand out, Search, statistics, vendor rules and file parsing of the curated database: changing an indexed field through a pointer is not reindexed, so nothing is claimed there. Ids that AddDevice makes are taken to be new where a lemma says so, and hashes not empty.
- The database half, the cancelled context and GetStats of the capability cache.
- Messages, subscriptions and buffer sizes of the WebSocket hub: a send may be skipped at any time. Replies of the read pump are not a step; that they can meet a closed channel is what Hub.ReaderOutlivesChannel shows.
- The bitrate limit of a device after a re-encode: no argument sets one, and what the encoder makes of its quality setting is not modelled.
- What filters do to a picture. That a filter keeps the size is read off its name and options: FFmpeg itself is not modelled.
- CircuitBreaker.OpenUntilTimeout: about the state Open only; a half-open breaker answers by its probes.
- The tables from codecs and containers to MIME types, and the mapping back: constants without a law between them.
- The table of what each container can hold: it is data, which the properties of containers look up.
