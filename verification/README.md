# rtpbridge, verified

rtpbridge is a media server for voice calls. This project models the parts of it whose correctness is
hardest to see from the code, and proves what they promise for all inputs and all runs.

- `Srtp`, `SrtpContext`, `SrtpEndToEnd`, `Srtcp`, `ReplayWindow`, `Rtp`: packet protection. The
  contexts are classes whose methods are proved against step functions. Whole runs of a sender, a channel
  and a receiver are compared with an ideal receiver that keeps the set of accepted numbers.
- `FileCache`, `FileCacheInvariant`, `FileCacheCancel`, `FileCacheState`: the download cache as a state machine over its
  critical sections and atomic steps, with one invariant kept by every action, and as the object behind
  the mutex, each of whose methods amounts to actions of that machine.
- `RtcpWire`, `RtcpStats`: the strict validator and the tolerant parser of RTCP, the report builder, and
  the loss and jitter statistics.
- `Resample`, `PcmFrames`, `Transcode`: streaming audio, whose output must not depend on the way packets
  cut the input.
- `Epochs`, `Timeline`: rebuilding a recording from its packets.
- `Dtmf`, `DtmfRoundTrip`: telephone events through a lossy channel.
- `Sdp`: choosing and answering media sections.
- `Drain`, `Ports`: waiting for the last session, and handing out port pairs.
- `Words`, `Arithmetic`, `Sequences`, `MapSum`: bits, quotients, concatenations and sums.

Conventions. Bytes and words are bounded integers; wrap-around is written out with `%`, and the bit
operations of the replay bitmap and the IV are defined bit by bit. Cipher, authentication and codecs
are function-valued parameters. Clocks, randomness, bind results and the storage system are parameters
or nondeterministic choices. A value that a hash map owns is a datatype in a `map` field. Durations of
telephone events are in milliseconds, capture times in nanoseconds.

Where code and documentation differ, the model follows the code.

- `src/media/srtp.rs:66-83`: a forward step of exactly half a cycle is not always seen as a wrap
  (`Srtp.HalfCycleStepIsMissed`); `Srtp.UpdateRocIsExact` gives the exact bound.
- `src/playback/file_cache.rs:100-107`: the test at line 1268 promises that one owner's cancellation
  leaves a shared download alone. An owner that joins in the middle of the last drop is cancelled all the
  same (`FileCacheCancel.JoinerCanBeCancelled`, `FileCacheCancel.CancelledWhileOwned`).
- `src/media/dtmf.rs:177-190`: a digit longer than 65535 ticks is reported shorter than it was asked
  for, and so is one that is not a whole number of ticks (`DtmfRoundTrip.DurationsCutShort`);
  `DtmfRoundTrip.DurationSurvives` says exactly when a duration survives.
- `src/media/sdp.rs:245-257`: `docs/protocol/endpoints.md:450` promises that an offer with secure sections
  but no usable key fails rather than falling back to plain RTP. A section under a profile that the endpoint
  does not know, such as SRTP keyed over DTLS, is passed over instead, with or without crypto
  (`Sdp.TlsIsPassedOver`); `Sdp.PlainIsNoDowngradeExactly` says exactly when the promise holds.

## Model

| member | source | states |
|---|---|---|
| `SrtpEndToEnd.EndToEnd` | src/media/srtp.rs:248-381 | For every sender that starts in cycle 0 and moves forward by 1 to 0x7FFF per SSRC, malformed packets and refusals by the SSRC limit or the key lifetime included, and every channel that drops, reorders and repeats what was protected within half a cycle of the highest number: each answer of the receiver is the original packet, byte for byte, if its number is new and at most 63 behind, and a rejection otherwise |
| `SrtpEndToEnd.UnprotectAllIsIdeal` | src/media/srtp.rs:316-381 | The same for a receiver in any state that holds a known set of accepted numbers |
| `SrtpEndToEnd.UnprotectSealed` | src/media/srtp.rs:316-381 | One delivery: accepted exactly when the ideal receiver accepts, returned unchanged, and the state represents the enlarged set; a rejection leaves the set alone |
| `SrtpEndToEnd.ReceiveStepIsIdeal` | src/media/srtp.rs:87-145 | Rollover estimate, bitmap, SSRC limit and lifetime together accept exactly the ideal set of numbers |
| `SrtpEndToEnd.ProtectAllSeals` | src/media/srtp.rs:248-293 | Whatever was refused before it, a packet that a forward-moving sender protects is sealed at its true 48-bit index, and a refused one uses no index |
| `SrtpEndToEnd.SendStepTracks` | src/media/srtp.rs:248-293 | Whatever the answer, every stream stays at its last number or is exhausted, an SSRC without a stream has met a full table, and an index handed out is the packet's own number |
| `SrtpEndToEnd.IvsPairwiseDistinct` | src/media/srtp.rs:248-293 | No two packets of a run, on any mix of SSRCs and with any refusals, are encrypted under the same IV |
| `Srtp.EstimateIsExact` | src/media/srtp.rs:87-106 | The receiver's estimate is the true index if and only if the packet is within half a cycle of the highest one, indices taken modulo 2^48; the boundary case depends on the half the highest number is in |
| `Srtp.UpdateRocIsExact` | src/media/srtp.rs:66-83 | The sender stamps packet x with its true index if and only if the step from the highest index is inside the bounds that the wrap test can tell, which depend on the highest sequence number: half a cycle at 0x8000, up to a whole one at 0; and a forward step becomes the highest index exactly below that bound |
| `Srtp.ForwardStepTracks` | src/media/srtp.rs:66-83 | So steps of 1 to 0x7FFF keep the sender's index true from everywhere, across wraps |
| `Srtp.HalfCycleStepIsMissed` | src/media/srtp.rs:66-83 | A concrete step of 0x8000 for which the rollover is missed |
| `Srtp.CheckReplayIsAdmit` | src/media/srtp.rs:108-145 | `check_replay` is the 64-bit window applied to the estimated index: same verdict, same error, same new window |
| `Srtp.ReplayRunRefinesSet` | src/media/srtp.rs:87-145 | For every sequence of 16-bit inputs, rollover past 2^48 included: the bitmap shows exactly the indices returned, and none is returned twice |
| `Srtp.ResetStartsOver` | src/media/srtp.rs:58-63 | A reset stream has seen nothing, takes any sequence number as one of cycle 0 on either side, and keeps its packet counts, hence its key lifetime |
| `ReplayWindow.AdmitRefinesSet` | src/media/srtp.rs:108-145 | One step of the bitmap accepts an index if and only if it is new and less than 64 behind everything accepted, and then shows the enlarged set |
| `ReplayWindow.AdmitAllRefinesSet` | src/media/srtp.rs:406-435 | The same over whole runs: every answer is the ideal filter's, and bit k is set exactly when highest-k was accepted |
| `ReplayWindow.NeverTwice` | src/media/srtp.rs:406-435 | No index is admitted twice in a run from a fresh window |
| `SrtpContext.ComputeIv` | src/media/srtp.rs:736-755 | The byte loop computes the salted SSRC and index layout |
| `SrtpContext.IvInjective` | src/media/srtp.rs:736-755 | Under one salt, two equal IVs come from the same SSRC and the same 48-bit index |
| `SrtpContext.ApplyKeystreamTwice` | src/media/srtp.rs:248-293 | Encrypting twice under one IV gives the bytes back |
| `SrtpContext.SealUnseal` | src/media/srtp.rs:248-293 | A sealed packet keeps its clear header, authenticates under its own cycle, and unseals to the packet |
| `SrtpContext.KdfIvsDiffer` | src/media/srtp.rs:709-727 | Different labels derive from different IVs, so no two session keys of a master key share a keystream |
| `SrtpContext.SrtpContext.Open` | src/media/srtp.rs:176-233 | A context is made if and only if the lifetime is between 1 and 2^48 and the key material is 30 bytes, with keys derived at labels 0 to 2, no stream and no packet counted; otherwise the error names the first check that failed |
| `SrtpContext.SrtpContext.Protect` | src/media/srtp.rs:248-293 | Result and new stream table are those of the sending step, failures included |
| `SrtpContext.SrtpContext.BeginProtect` | src/media/srtp.rs:248-293 | SSRC limit, lifetime and rollover update in the source's order, on the object's own table |
| `SrtpContext.SrtpContext.Unprotect` | src/media/srtp.rs:316-381 | Result and new stream table are those of the receiving step: nothing changes before authentication |
| `SrtpContext.SrtpContext.CommitUnprotect` | src/media/srtp.rs:316-381 | SSRC limit, lifetime, replay check and commit in the source's order |
| `SrtpContext.SrtpContext.ResetSequenceState` | src/media/srtp.rs:304-311 | Every stream starts over: it has seen nothing and accepts any number again; none is dropped and no lifetime is renewed |
| `Rtp.HeaderLenAgreesWithParse` | src/media/rtp.rs:23-71 | The RTP parser accepts a datagram if and only if it is version 2 and the SRTP header scan accepts it, and both delimit the same header |
| `Rtp.HeaderLenReadsOnlyHeader` | src/media/srtp.rs:761-785 | The scan depends on the bytes of the header alone, so encrypting the payload moves nothing |
| `Rtp.BuildParses` | src/media/rtp.rs:87-112 | A built packet parses back to its fields and its whole payload |
| `Srtcp.RtcpEndToEnd` | src/media/srtp.rs:539-667 | A sender on any mix of SSRCs, refusals included, any selection, order and multiplicity of deliveries of what it protected: each answer is the original packet, byte for byte, exactly when its index is new on its SSRC and at most 63 behind |
| `Srtcp.ProtectRtcpAllSeals` | src/media/srtp.rs:539-594 | Whatever was refused before it, a protected packet is sealed at the number of packets protected before it |
| `Srtcp.UnprotectRtcpAllIsIdeal` | src/media/srtp.rs:597-667 | The receiving half, for a receiver in any state that holds a known set of accepted indices |
| `Srtcp.SrtcpContext.Open` | src/media/srtp.rs:475-529 | A context is made under the same conditions as for SRTP, with keys derived at labels 3 to 5 and the lifetime cut to 2^31 |
| `Srtcp.UnprotectSealedRtcp` | src/media/srtp.rs:597-667 | One delivery of that, with the state it leaves |
| `Srtcp.ReceiveRtcpIsIdeal` | src/media/srtp.rs:597-667 | The per-SSRC windows, limits and lifetime accept exactly the ideal set of indices |
| `Srtcp.SealUnsealRtcp` | src/media/srtp.rs:539-594 | A sealed compound keeps its SSRC, carries flag and index, authenticates, and unseals to the packet |
| `Srtcp.SendRtcpCounts` | src/media/srtp.rs:539-594 | The wire index is the number of packets protected so far over all SSRCs; a refusal consumes none; after 2^31 every send is refused |
| `Srtcp.SendAllNumbersConsecutively` | src/media/srtp.rs:539-594 | For any interleaving of SSRCs the k-th protected packet carries index k-1 |
| `Srtcp.SrtcpIvsPairwiseDistinct` | src/media/srtp.rs:684-703 | No SRTCP IV is used twice under one key |
| `Srtcp.SrtcpContext.ProtectRtcp` | src/media/srtp.rs:539-594 | Result and new state are those of the sending step, and the counts stay consistent |
| `Srtcp.SrtcpContext.TakeIndex` | src/media/srtp.rs:539-594 | The checks and counter updates of `protect_rtcp` in order |
| `Srtcp.SrtcpContext.SealBytes` | src/media/srtp.rs:539-594 | The bytes pushed are header, ciphertext, flagged index and tag |
| `Srtcp.SrtcpContext.UnprotectRtcp` | src/media/srtp.rs:597-667 | Result and new state are those of the receiving step |
| `FileCacheInvariant.LeasedFilesAreSafe` | src/playback/file_cache.rs:140-158 | In every state of every interleaving: a leased file is in `entries`, not in `garbage`, complete on disk, and selected for deletion by no cleanup pass |
| `FileCacheInvariant.SingleFlight` | src/playback/file_cache.rs:267-303 | An unfinished download is the one in flight for its key, and its key is in `entries` exactly once its own result is ready |
| `FileCacheInvariant.NoWaiterIsStranded` | src/playback/file_cache.rs:109-158 | A waiter's download has a result or is still in flight |
| `FileCacheInvariant.CapacityHolds` | src/playback/file_cache.rs:250-326 | Keys, downloads in flight and files stay within their limits, an unpublished download counted twice |
| `FileCacheInvariant.DiskAccounting` | src/playback/file_cache.rs:339-353 | Bytes on disk, cancelled writers included, fit the live reservations; these sum to the shared counter except between the two steps of a shrink; the counter never exceeds the limit |
| `FileCacheInvariant.NoUnderflow` | src/playback/file_cache.rs:41-58 | No counter that the source decrements goes below zero |
| `FileCacheInvariant.StepKeeps` | src/playback/file_cache.rs:13-158 | Every action of every task keeps the invariant |
| `FileCacheInvariant.RunKeeps` | src/playback/file_cache.rs:248-522 | So it holds in every state of every run |
| `FileCacheInvariant.StartKeeps` | src/playback/file_cache.rs:250-326 | A request that hits, joins or begins a download keeps it |
| `FileCacheInvariant.PublishKeeps` | src/playback/file_cache.rs:368-394 | Publication moves a finished download into `entries` and keeps it |
| `FileCacheInvariant.CloseKeeps` | src/playback/file_cache.rs:134-158 | The guard's drop, with or without publication, keeps it |
| `FileCacheInvariant.ExpireKeeps` | src/playback/file_cache.rs:481-495 | Moving an expired, unreferenced entry to `garbage` keeps it |
| `FileCacheInvariant.DeleteKeeps` | src/playback/file_cache.rs:496-522 | Deleting a selected file keeps it |
| `FileCacheInvariant.ConfirmKeeps` | src/playback/file_cache.rs:496-522 | Forgetting a deleted file and releasing its reservation keeps it |
| `FileCacheInvariant.MoveKeepsRecord` | src/playback/file_cache.rs:397-478 | Every step of a download task and its storage jobs keeps the download's own record consistent |
| `FileCacheCancel.JoinerCanBeCancelled` | src/playback/file_cache.rs:100-107 | A run in which a request joins between the two steps of the last owner's drop and is cancelled although it owns the download |
| `FileCacheCancel.CancelledWhileOwned` | src/playback/file_cache.rs:100-107 | Over every run: between the two steps of a last owner's drop, the cancellation hits an owned download if and only if some request joined that download after the decrement and has not begun to drop |
| `FileCacheCancel.OwnedIfJoined` | src/playback/file_cache.rs:100-107 | A download that nobody owned at one state of a run is owned at a later one if and only if a request joined in between and stayed |
| `FileCacheState.CacheState.StartDownload` | src/playback/file_cache.rs:267-303 | The critical section answers from the table, joins, refuses or begins, and is one action of the state machine; a refusal changes nothing |
| `FileCacheState.CacheState.ReleaseOwner` | src/playback/file_cache.rs:100-107 | The decrement of a dropped request; the cancellation is due exactly when no live request is left |
| `FileCacheState.CacheState.CancelDownload` | src/playback/file_cache.rs:100-107 | The cancellation by the last owner, whose request is then gone |
| `FileCacheState.CacheState.ReserveDisk` | src/playback/file_cache.rs:339-352 | A reservation is made exactly when a whole download still fits, and the counter stays between zero and the limit |
| `FileCacheState.CacheState.PublishFile` | src/playback/file_cache.rs:368-386 | A finished download is published exactly when its token is not cancelled, and then its key is answered with a file that is whole on disk |
| `FileCacheState.CacheState.DropGuard` | src/playback/file_cache.rs:140-158 | Afterwards the waiters have a result, the key is free, and every file left on disk is published or due for deletion |
| `FileCacheState.CacheState.CollectExpired` | src/playback/file_cache.rs:482-495 | The loop moves exactly the expired entries that nobody referred to when it began to `garbage`, one file each, and every removal is an expiry action of its own |
| `FileCacheState.CacheState.ClaimGarbage` | src/playback/file_cache.rs:496-504 | Every garbage file that nobody else refers to is claimed exactly once, each by an action of its own |
| `FileCacheState.CacheState.Retain` | src/playback/file_cache.rs:514-520 | After a confirmed deletion the file is neither on disk nor in any table |
| `FileCacheState.PathKeeps` | src/playback/file_cache.rs:481-505 | The invariant holds along any stretch of actions |
| `RtcpWire.ValidCompound` | src/media/rtcp.rs:447-515 | The validator's loop accepts exactly the compounds that are well formed packet by packet |
| `RtcpWire.ValidSdes` | src/media/rtcp.rs:480-507 | The chunk loop accepts exactly the SDES bodies whose chunks end at the last byte |
| `RtcpWire.ParseRtcp` | src/media/rtcp.rs:517-656 | The parser's loop returns the packets of its tolerant reading |
| `RtcpWire.Decode` | src/media/rtcp.rs:517-656 | One packet contributes a report, a BYE or nothing |
| `RtcpWire.ParseBye` | src/media/rtcp.rs:614-643 | SSRCs while there is data, then the reason if it fits |
| `RtcpWire.ParseSsrcs` | src/media/rtcp.rs:614-629 | As many declared SSRCs as there is data for |
| `RtcpWire.ParseReportBlocks` | src/media/rtcp.rs:658-704 | As many declared blocks as there is data for |
| `RtcpWire.ValidIsParsedWhole` | src/media/rtcp.rs:447-656 | Every validated datagram is consumed to its last byte, and gives one entry per SR, RR and BYE, in order, with exactly the declared blocks, SSRCs and reason |
| `RtcpWire.DecodersAgree` | src/media/rtcp.rs:517-656 | On a well-formed packet the tolerant and the strict reading are the same |
| `RtcpWire.BlocksAgree` | src/media/rtcp.rs:658-704 | Exactly the declared number of report blocks, each with its own fields |
| `RtcpWire.SsrcsAgree` | src/media/rtcp.rs:614-629 | Exactly the declared number of SSRCs |
| `RtcpWire.BuiltReportParses` | src/media/rtcp.rs:361-442 | Every built report is valid and parses back to its fields |
| `RtcpWire.LossSurvivesExactly` | src/media/rtcp.rs:361-442 | The loss counter survives its 24-bit field if and only if it is below 2^23 |
| `RtcpStats.AdvanceIsExact` | src/media/rtcp.rs:156-237 | The high-water mark follows the true number if and only if it is less than half a cycle ahead, or at most half a cycle behind modulo whole cycles |
| `RtcpStats.MarkIsTrueMaximum` | src/media/rtcp.rs:156-237 | After any trace within half a cycle of the highest, the mark is the true maximum and the base the first number, across wraps |
| `RtcpStats.LossIsMissingCount` | src/media/rtcp.rs:241-258 | Without duplicates and late early packets, the loss is the number of sequence numbers that never arrived |
| `RtcpStats.CumulativeIsSumOfGenerations` | src/media/rtcp.rs:156-258 | Over any change of SSRCs, the loss of the leg is the sum of the losses each generation has on its own |
| `RtcpStats.FractionIsExact` | src/media/rtcp.rs:262-274 | In every reachable state the lost packets of an interval are fewer than the expected ones, so the fraction is floor(256 lost / expected) and the cap never acts |
| `RtcpStats.IntervalsStayOk` | src/media/rtcp.rs:156-274 | In every interleaving of arrivals and reports, what is newly expected comes with something newly received |
| `RtcpStats.JitterStepIsBetween` | src/media/rtcp.rs:211-237 | An update lies between the old jitter and the deviation, falls strictly when that is smaller, and stands still exactly when that is less than 16 above |
| `RtcpStats.JitterIsBounded` | src/media/rtcp.rs:211-237 | Jitter never exceeds the largest deviation of the current generation, however noisy the earlier ones were |
| `RtcpStats.JitterApproaches` | src/media/rtcp.rs:211-237 | Along any packets of constant deviation, jitter nears it by at least one a packet from above, and from below until fewer than sixteen are missing |
| `RtcpStats.JitterSettles` | src/media/rtcp.rs:211-237 | Packets of a constant smaller deviation bring the jitter down to exactly that |
| `RtcpStats.RtcpStats.RecordReceived` | src/media/rtcp.rs:156-237 | The field updates amount to one recording step |
| `RtcpStats.RtcpStats.FractionLostAndUpdate` | src/media/rtcp.rs:262-274 | The fraction and the two priors are those of one reporting step |
| `Resample.Resampler.Process` | src/media/resample.rs:35-69 | Whatever was heard before, a call emits exactly what the longer stream adds to its whole-stream resampling |
| `Resample.Emit` | src/media/resample.rs:54-66 | The loop emits every sample that has become due, and leaves the position of the next one |
| `Resample.ProcessAll` | src/media/resample.rs:35-69 | The concatenated output of any split into calls is the unsplit output, and after n input samples it is exactly ceil(n to / from) samples long |
| `Resample.ResampledGrows` | src/media/resample.rs:35-69 | More input only appends output |
| `Resample.OutputIsBetweenNeighbours` | src/media/resample.rs:54-66 | Every output sample lies between the two inputs around its instant |
| `Resample.EpsilonDecidesNothing` | src/media/resample.rs:54-54 | Below 10^9 Hz the epsilon in the loop guard changes no decision |
| `Resample.EpsilonDecides` | src/media/resample.rs:54-54 | From 10^9 Hz on it does, for every input length |
| `PcmFrames.FramesPartition` | src/media/pcm_frames.rs:23-35 | Frames and tail together are the input, every frame has exact size, the tail is shorter than one |
| `PcmFrames.FramesAppend` | src/media/pcm_frames.rs:23-35 | What more input adds depends on the tail alone |
| `PcmFrames.PcmFrames.Push` | src/media/pcm_frames.rs:23-35 | A push of at most 120 ms returns exactly the frames that it completes; any other is refused and changes nothing |
| `PcmFrames.PcmFrames.Clear` | src/media/pcm_frames.rs:17-19 | Nothing heard is left |
| `Transcode.TranscodeAll` | src/media/transcode.rs:124-145 | For any codecs: the packets of a run are those of encoding the frames of the resampled whole audio, and the run succeeds if and only if every prefix decodes, fits 120 ms and encodes |
| `Transcode.Pipeline.ProcessFrames` | src/media/transcode.rs:124-145 | One call appends its audio and its packets; passthrough returns its input; an undecodable packet changes no audio state; success is characterised exactly |
| `Transcode.Pipeline.Reframe` | src/media/transcode.rs:132-144 | Resampling, reframing and encoding keep packets and audio in step, or record that audio was dropped |
| `Transcode.Pipeline.EncodeFrames` | src/media/transcode.rs:140-144 | Frames are encoded in order until the first failure |
| `Transcode.EncodeAllAppend` | src/media/transcode.rs:140-144 | Encoding frames in two goes, with the state kept, is encoding them in one |
| `Epochs.EpochKeys` | src/bin/pcap2audio.rs:552-576 | One pass gives the accumulated signed steps of the longest run of arrivals that stays in descriptor, SSRC and window |
| `Epochs.KeysAreTrueNumbers` | src/bin/pcap2audio.rs:552-576 | If every arrival is at most 512 behind and 16384 ahead of the running maximum, the keys are the true sequence numbers across any number of wraps, and none is cut off |
| `Epochs.EpochsPartition` | src/bin/pcap2audio.rs:457-463 | Epochs partition the arrivals in order, each non-empty and whole by itself |
| `Epochs.WindowedIsOneEpoch` | src/bin/pcap2audio.rs:457-463 | Arrivals within the window form a single epoch |
| `Epochs.StableOrderIsInOrder` | src/bin/pcap2audio.rs:462-463 | The sort orders by key, equal keys in arrival order |
| `Epochs.StableOrderHasAll` | src/bin/pcap2audio.rs:462-463 | The sort loses no index |
| `Epochs.ReorderedNeverStepsBack` | src/bin/pcap2audio.rs:457-463 | Decoding order follows the sender's numbers, repeats in arrival order |
| `Epochs.SenderOrderIsRestored` | src/bin/pcap2audio.rs:457-463 | Whatever was lost or reordered, decoding meets the sender's packets exactly in the sender's order |
| `Timeline.DecodeChannel` | src/bin/pcap2audio.rs:429-543 | The nested loops write the bytes of the whole-channel timeline, two per returned sample, and fail exactly when it does: no decoder, a packet over 120 ms, or too long a recording |
| `Timeline.RenderEpoch` | src/bin/pcap2audio.rs:464-538 | The same for the packets of one epoch |
| `Timeline.RenderPacket` | src/bin/pcap2audio.rs:479-536 | The same for one packet |
| `Timeline.WriteSilence` | src/bin/pcap2audio.rs:669-680 | Blocks of at most 8192 bytes add up to two zero bytes per sample |
| `Timeline.ChannelIsRendered` | src/bin/pcap2audio.rs:446-541 | The channel is within the hour and the budget; each packet starts at the later of its target and the previous end; each target is within two seconds of capture time; samples outside all packets are zero |
| `Timeline.PlacementsAreDisjoint` | src/bin/pcap2audio.rs:525-536 | Packets occupy disjoint intervals in decoding order |
| `Timeline.TargetIsNear` | src/bin/pcap2audio.rs:504-525 | The chosen target is within two seconds of the capture position |
| `Timeline.RtpSpacingIsKept` | src/bin/pcap2audio.rs:504-524 | Packets placed by RTP time are laid exactly as far apart as their timestamps say, across a timestamp wrap |
| `Timeline.ChannelPlacesAll` | src/bin/pcap2audio.rs:457-541 | The placed packets are all the decodable ones, epoch by epoch in decoding order |
| `Dtmf.Generate` | src/media/dtmf.rs:163-208 | One packet per interval with its elapsed ticks, the last one three times with the end bit, the marker on the first only; none for an unknown digit or a zero rate |
| `Dtmf.DtmfDetector.Receive` | src/media/dtmf.rs:46-118 | The field updates amount to one detection step: timeout, interruption, end, repeated end |
| `Dtmf.DtmfDetector.DrainIfTimedOut` | src/media/dtmf.rs:132-148 | A digit silent for over three seconds is reported and forgotten |
| `DtmfRoundTrip.RoundTrip` | src/media/dtmf.rs:46-208 | With any loss and repetition that keeps one end packet per digit, in order, polls anywhere, no gap over 3 s inside a digit: a fresh detector reports exactly the digits sent, if and only if no two neighbours share event and timestamp |
| `DtmfRoundTrip.RunReportsSurvivors` | src/media/dtmf.rs:46-208 | In general it reports the digits that do not repeat the key of the one before |
| `DtmfRoundTrip.DigitIsReportedOnce` | src/media/dtmf.rs:46-118 | A digit is reported once, at its first end packet, with its volume and final duration |
| `DtmfRoundTrip.DurationSurvives` | src/media/dtmf.rs:163-190 | At every clock rate a duration is never reported longer than asked for, and as asked if and only if it is a whole number of ticks that fits the 16-bit field |
| `DtmfRoundTrip.DurationsCutShort` | src/media/dtmf.rs:163-190 | 8192 ms at 8000 Hz is reported as 8191, and 100 ms at 11025 Hz as 99 |
| `Sdp.Choose` | src/media/sdp.rs:390-399 | The selected section is the first of maximal preference, none if no audio section is active, and the active ones are counted |
| `Sdp.ChoiceIsUnique` | src/media/sdp.rs:390-399 | That determines the selection |
| `Sdp.ParseSdp` | src/media/sdp.rs:356-450 | Both passes over the lines give the sections, the selection and the selected section's own attributes |
| `Sdp.PassesAgree` | src/media/sdp.rs:401-450 | The second pass is inside exactly the section that the first one selected, and reads its profile |
| `Sdp.ScanReadsSelected` | src/media/sdp.rs:335-560 | It ends with the crypto that applies to the selected section: present if and only if an attribute stands in it or before any section, and then the last one that could be parsed |
| `Sdp.PlainOffersNoSecurity` | src/media/sdp.rs:192-231 | An offer accepted without crypto has no active audio section with a secure profile, or a plain one with crypto |
| `Sdp.PlainIsNoDowngradeExactly` | src/media/sdp.rs:192-257 | For every reading of the profile names that the endpoint does not know: such an offer asked for security in no active audio section, by profile or by crypto, if and only if no section that asks falls to the lowest preference |
| `Sdp.TlsIsPassedOver` | src/media/sdp.rs:245-257 | A section keyed over DTLS before a plain one, with or without a crypto attribute: the offer is accepted as plain RTP |
| `Sdp.GenerateAnswer` | src/media/sdp.rs:706-828 | An answer is made if and only if the selected section exists and is audio, section by section in offer order |
| `Sdp.AnswerParses` | src/media/sdp.rs:810-828 | The answer's lines parse back to one section per offered section |
| `Sdp.AnswerMirrorsOffer` | src/media/sdp.rs:706-828 | For every validated offer, the answer parsed again keeps number, order, media and protocol of all sections, only the selected one is active, and it is selected again |
| `Drain.NeverLosesWakeup` | src/shutdown.rs:68-123 | In every interleaving a waiter that sleeps un-notified has an active session, or an ender between decrement and notification, left to wake it |
| `Drain.DrainedWaitersReturn` | src/shutdown.rs:113-123 | Once no session is active and no notification outstanding, every waiter returns within three steps of its own |
| `Drain.ReturnsOnlyWhenDrained` | src/shutdown.rs:113-123 | In every run, a waiter that has returned registered first and then found no session active in a step of its own |
| `Ports.MakeRange` | src/net/socket_pool.rs:27-58 | The range made is the largest one of whole even and odd pairs inside the configured one |
| `Ports.RacingThreadsWalk` | src/net/socket_pool.rs:114-132 | In every interleaving of loads and compare-exchanges by any number of threads, the ports are handed out in counter order, none skipped or repeated |
| `Ports.RacingThreadsShare` | src/net/socket_pool.rs:114-132 | Among any as many consecutive successful swaps as there are pairs, every even port of the range occurs exactly once |
| `Ports.EveryPairOnce` | src/net/socket_pool.rs:114-132 | From any port of the range, as many steps of the counter as there are pairs meet every even port exactly once |
| `Ports.SocketPool.NextEvenPort` | src/net/socket_pool.rs:114-132 | The retry loop returns the counter's value after whatever swaps other threads made during its tries, and stores the successor |
| `Ports.SocketPool.AllocatePair` | src/net/socket_pool.rs:62-112 | Over a fixed set of busy ports a returned pair is free, and exhaustion is reported only if no pair is |

## Left out

- SrtpContext.SrtpContext.Open: takes the result of base64 decoding; `zeroize` has no counterpart.
- AES, HMAC and base64 are uninterpreted; an HMAC key is never refused. Forged packets are
  outside the end-to-end theorems, which are about what the sender sealed.
- SRTP and SRTCP: tightening a lifetime in mid-run.
- RtcpStats.RtcpStats.RecordReceived: counters are unbounded, so the 32-bit wrap of packet counts and of the
  cumulative loss is not modelled; octet counts are left out.
- RTCP round-trip time, NTP time, remote receiver reports and sent-packet counts: they depend on the clock.
- RtcpWire.ParseBye: a BYE reason is kept as bytes; its UTF-8 decoding is not modelled.
- FileCacheState.CacheState.StartDownload: URL policy, timeout range and the owner permit are checked before
  the critical section and are not modelled.
- FileCache: download tasks and storage jobs are relations on values, not methods. HTTP, redirects, retries,
  header hashing and file names are left out; a task that waits for a permit may wait for ever; expiry
  times are compared, not computed.
- Resample.Resampler.Process: positions are exact rationals, so `f64` rounding is not modelled, and the
  output rate is below 10^9 Hz.
- Transcode: `process`, `encode_pcm` and `map_timestamp`; the codecs themselves.
- Timeline.DecodeChannel: capture positions are rounded in exact arithmetic; decoder and resampler of an
  epoch are one function of the packets met so far; output bytes written before a failure are not specified.
- pcap2audio: capture framing, descriptors, mixing of channels and the WAV header.
- Dtmf: detection with reordered packets or timeouts inside a digit is modelled as a step, but no
  theorem covers it, since late copies may legitimately be reported again; `rescale_event_duration`.
- Sdp.ParseSdp: splitting lines into tokens, codecs, payload types, addresses, RTCP destinations and
  direction attributes. A tab after `m=audio` reads differently in the two passes; at token level it cannot.
- Sdp.IsValidOffer takes the address checks as one flag.
- Drain: the shutdown flag and its signal, and `sleep_or_shutdown`.
- Ports.SocketPool.AllocatePair: is uncontended, over a fixed set of busy ports.
- Sessions, mixing, routing, playout, VAD, fax detection, the control protocol, configuration and metrics:
  plumbing, signal analysis or per-field checks.
