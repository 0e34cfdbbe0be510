# Multiroom AirPlay output: verification model

The repository is an output component that sends one PCM timeline to many AirPlay 2
receivers. This project models its stateful core in Dafny and proves what that core
promises over whole histories, with sockets, cryptography, clocks and the host as
explicit inputs.

| file | part of the program |
|---|---|
| `Receiver.dfy`, `Sessions.dfy`, `SessionManager.dfy`, `GroupSync.dfy`, `Transport.dfy`, `Engine.dfy` | group timing: connections, the session state machine, the transport with its lazily captured anchor, the engine with its frame cursor |
| `Timing.dfy`, `Scheduler.dfy` | clock conversion (section 6 of RFC 5905) and fixed-offset scheduling |
| `FrameCipher.dfy`, `EventStream.dfy` | the encrypted frame channel and the event messages inside it |
| `RenderQueue.dfy` | the playback queue shared by the host and the render thread |
| `AudioPath.dfy` | from the playback queue to a receiver's decoder |
| `Workers.dfy` | the refresh and control workers and the playback open/stop flags |
| `Cancellation.dfy` | `PendingOpens`, `OpenCancellation` and `SocketOwnership`: cancelling an open, when the cancel flag is reset, and who closes a socket |
| `Registry.dfy`, `Identity.dfy`, `Devices.dfy`, `KeyOrder.dfy` | discovery identities, the output registry and the ordered maps under them |
| `Alac.dfy`, `Dns.dfy`, `SpeakerGroups.dfy` | bit and byte codecs |
| `Activation.dfy` | speaker-group activation against the matching predicates |

How the model is built:

- A method that can throw is a function to a new state and an `Outcome`; the state a
  throw leaves behind is part of the result. The objects (`AirPlayTransport`,
  `AirPlaySessionManager`, `Connection`, `MultiroomEngine`, `AirPlay2FrameCipher`,
  `EventLoop`, `MultiroomOutput`, `MultiroomComponentState`, `OutputRegistry`,
  `AirPlayDiscovery`, `BitWriter`) are classes that update the same fields in place
  and are proved to follow those functions, on which the run theorems are stated.
- What the environment decides is an argument: whether a negotiation, send, volume,
  flush or metadata request succeeds, whether a cancellation is seen, the clock, and
  whether a host text is a numeric address.
- Threads are interleaved steps cut at lock boundaries and at atomic accesses; the
  theorems quantify over every sequence of steps.
- The AEAD (section 2.8 of RFC 8439) is any pair of functions with
  `open(seal(p)) == p` and a 16-byte tag. Body lengths of event messages come from an
  arbitrary function of the header block (section 4.4 of RFC 2326).
- Unsigned fields wrap where the source's do: stream positions, anchors and nonces
  modulo 2^64, RTP timestamps modulo 2^32, sequence numbers modulo 2^16. The scheduler
  saturates instead. C++ division is `TruncDiv`.
- A walk over a `std::map` takes the least pending key until none is left; `KeyOrder`
  is the order of the keys.

What the proofs found out about the code:

- `open_stream` forgets the anchor without touching the sessions. The new stream is
  coherent if and only if no Ready receiver still has a started sync
  (`GroupSync.OpenStreamCoherentIff`; `GroupSync.StaleAnchor` is a history that fails);
  the component guarantees it by stopping first.
- The session manager accepts 48 kHz streams and the control client then refuses them:
  every selected output of such a stream fails and the call throws
  (`Sessions.OtherRateFails`); an output can be opened exactly in the 44.1 kHz format
  (`Sessions.OpensIffStreamFormat`).
- A registered id can resolve to another output: three announcements do it
  (`Identity.SelectedIdNamesAnother`). It resolves to itself if and only if no earlier
  key of the discovery map lists it as an alias (`Identity.DiscoveredResolvesToItselfIff`).
- A `stop_playback` from elsewhere (the one queued after a playback failure) can let the
  refresh worker into discovery while an open publishes. The exact condition is on its
  last section: it does no harm if and only if no open is in progress when that section
  runs (`Workers.StrayStopIsSafeIff`); that nothing was in progress when the stop began
  is not enough (`Workers.StrayStopLetsDiscoveryIn`).
- A reset of the open-cancel flag can lose a cancellation. It loses none if and only if
  every pending open that has yet to read a set flag has been cancelled or is in some
  canceller's remaining work (`PendingOpens.ResetLosesNothingIff`); every reset the
  component makes is such a one (`OpenCancellation.ComponentResetsAreSafe`).
- A write or flush that finds playback stopped returns normally and sends nothing, so the
  render thread can go on taking frames that are lost (`RenderQueue.SwallowedFrame`). A
  stop loses none if and only if no render thread runs, or it has yet to open playback, or
  the output itself is stopping (`RenderQueue.CloseLosesNothingIff`).
- A DNS name that is accepted by the writer reads back unchanged if and only if it has no
  NUL and no trailing dot (`Dns.NameIdentity`, `Dns.NamesThatChange`).

## Model

| member | source | states |
|---|---|---|
| `GroupSync.GroupSyncCoherence` | transports/airplay/airplay_transport.cpp:88-184 | over every history of calls in which a stream is opened only while no Ready receiver has a started sync, every Ready receiver that has started sync started from the current, valid anchor, and all structural invariants hold; failing opens, sends, volumes and half-way flushes included |
| `GroupSync.StepKeeps` | transports/airplay/airplay_transport.cpp:55-190 | each public call, returning or throwing, keeps the structure and the timing invariant |
| `GroupSync.OpenStreamCoherentIff` | transports/airplay/airplay_transport.cpp:88-97 | opening a stream yields a coherent group if and only if no Ready receiver still has a started sync |
| `GroupSync.StaleAnchor` | transports/airplay/airplay_transport.cpp:88-97 | a history from the start (discover, select, open, connect, write) after which opening again without a stop leaves a Ready receiver with a started sync on a forgotten anchor |
| `GroupSync.EqualPresentationEqualNtp` | transports/airplay/airplay_rtsp.cpp:1871-1894 | two sync packets sent to any two Ready receivers since their last flush for one presentation time p carry the same NTP time, that of the shared anchor, and the same RTP times, p and p + 88200 modulo 2^32 |
| `GroupSync.AnchorIsWallClock` | transports/airplay/airplay_transport.cpp:149-156 | the first write of a timeline fixes the anchor so that the NTP time told for the frame d frames away, before or after, is the wall clock of that write moved by d/44100 seconds, never ahead and less than 2 * 2^-16 seconds and one frame behind, inside the NTP era |
| `GroupSync.SyncsTellTheTime` | transports/airplay/airplay_rtsp.cpp:1871-1894 | over any history: every sync packet of every Ready receiver tells, for the frame it is about, the wall clock of the write that began the timeline moved by the distance between the two frames, until the next open, stop or completed flush |
| `GroupSync.SyncsTellTheStream` | transports/airplay/airplay_rtsp.cpp:1871-1894 | after every legal history every sync packet of every Ready receiver for a presentation time p carries p mod 2^32 and (p + 88200) mod 2^32, and the latter is what an audio packet made for p is stamped with |
| `GroupSync.WriteKeeps` | transports/airplay/airplay_transport.cpp:120-170 | a write on a coherent group stays coherent and never meets the not-ready, no-connection or missing-anchor errors |
| `GroupSync.WriteRefusedIff` | transports/airplay/airplay_transport.cpp:120-147 | a write is refused as closed without a stream, for a missing buffer, and for no ready output exactly when something is selected and nothing selected is ready; otherwise the timeline has an anchor |
| `GroupSync.FlushKeeps` | transports/airplay/airplay_transport.cpp:172-176 | a flush keeps coherence even when a receiver refuses it half way, and one that returns leaves no receiver with a started sync |
| `GroupSync.StopKeeps` | transports/airplay/airplay_transport.cpp:178-184 | stop leaves nothing Ready and no sync started, from any structurally sound state |
| `GroupSync.TargetsAreReady` | transports/airplay/airplay_transport.cpp:128-146 | the targets of a write are exactly the selected outputs with a ready session |
| `GroupSync.PacketsCarryAnchor` | transports/airplay/airplay_transport.cpp:149-169 | a write schedules one packet per target, each for a ready id and carrying the current anchor |
| `GroupSync.LeadOfWrites` | transports/airplay/airplay_transport.cpp:149-169 | at 44.1 kHz a packet may go out 250 ms and its receiver's measured latency before its presentation time |
| `GroupSync.UnknownOutputIff` | transports/airplay/airplay_transport.cpp:62-76 | volume and offset calls throw unknown-output exactly for ids that discovery never knew |
| `GroupSync.SettingsAreStored` | transports/airplay/airplay_transport.cpp:62-76 | a volume or an offset given for any name the receiver ever had is stored, within 0 to 100 percent or two seconds, in the record it resolves to and changes nothing else; setting the volume fails exactly when the receiver is Ready and refuses |
| `GroupSync.SelectionByHistoricIds` | transports/airplay/airplay_transport.cpp:55-60 | selecting by any mix of current and historic ids never throws unknown-output and selects exactly the outputs those ids resolve to |
| `GroupSync.DeselectedOutputsClose` | transports/airplay/airplay_session.cpp:162-181 | after a selection that went through every session whose output was not chosen is Closed with nothing queued, and the connection of one that was Ready is dropped |
| `StreamEngine.PlaybackIsCoherent` | components/foo_out_multiroom_bridge/multiroom_output.cpp:216-221 | when the host opens only while no stream is open, every history of engine and transport calls stays coherent and engine and transport agree on the open stream |
| `StreamEngine.ClosedStaysQuiet` | transports/airplay/airplay_transport.cpp:99-118 | while no stream is open no call can make a receiver Ready |
| `StreamEngine.RtpContiguity` | transports/airplay/airplay_rtsp.cpp:1147-1180 | while whole-packet writes succeed at one unsaturated offset, each receiver that stays selected and reusable gets one packet per write with timestamp +352 mod 2^32, sequence +1 mod 2^16 and nonce +1 mod 2^64, through every wrap, and the cursor counts the frames written; selection changes, connects, user settings and discovery in between are allowed, and other receivers may join, fail and leave |
| `StreamEngine.WriteSendsOnce` | transports/airplay/airplay_transport.cpp:120-170 | a successful write adds exactly one audio packet to the connection of each target, stamped with its scheduled presentation time |
| `StreamEngine.OpensIffWholeBytes` | components/foo_out_multiroom_bridge/core/multiroom_engine.cpp:94-101 | a stream opens exactly with a rate, a channel and samples of whole bytes; then engine and transport hold the format, the cursor is 0 and the anchor is to be taken anew, and otherwise nothing changes |
| `StreamEngine.WriteCountsFrames` | components/foo_out_multiroom_bridge/core/multiroom_engine.cpp:46-58 | in every reachable state a write is counted in frames of channels * bits / 8 bytes: a rest, a missing buffer or a closed stream is refused with nothing changed, and otherwise the cursor moves by the frames modulo 2^64 and the transport gets the position before |
| `StreamEngine.LeftAlone` | transports/airplay/airplay_transport.cpp:55-60 | a selection change that keeps a receiver selected, a connect that finds its session reusable, and every user setting or discovery refresh leave its connection and its stream counters as they were |
| `Transport.AirPlayTransport.OpenStream` | transports/airplay/airplay_transport.cpp:88-97 | in-place update equal to the specified open: format recorded, anchor forgotten, zero formats rejected unchanged; the group stays coherent when no Ready receiver has a started sync |
| `Transport.AirPlayTransport.ConnectSelectedOutputs` | transports/airplay/airplay_transport.cpp:99-110 | in-place update equal to the specified connect, which does nothing while no stream is open; structure and coherence are kept, failures included |
| `Transport.AirPlayTransport.WriteFrames` | transports/airplay/airplay_transport.cpp:120-170 | in-place update equal to the specified write: guards, lazy anchor, scheduling, then sends in order up to the first failure; a valid transport stays coherent and never throws the not-ready, no-connection or missing-anchor errors |
| `Transport.AirPlayTransport.Flush` | transports/airplay/airplay_transport.cpp:172-176 | in-place update equal to the specified flush; a throw leaves the anchor and the group coherent |
| `Transport.AirPlayTransport.Stop` | transports/airplay/airplay_transport.cpp:178-184 | in-place update equal to the specified stop, after which the transport is valid again |
| `Transport.AirPlayTransport.SetEnabledOutputs` | transports/airplay/airplay_transport.cpp:55-60 | in-place update equal to the specified selection: sync, resolve, all-or-nothing select, prepare, close the rest; coherence is kept |
| `Transport.AirPlayTransport.SetOutputVolume` | transports/airplay/airplay_transport.cpp:62-67 | in-place update equal to the specified volume change; the registry keeps the clamped volume even when the request then fails |
| `Transport.AirPlayTransport.ResolveOutputId` | transports/airplay/airplay_transport.cpp:238-246 | the listing walk returns the first record matching the id, or the id itself |
| `Transport.AirPlayTransport.ResolveOutputIds` | transports/airplay/airplay_transport.cpp:248-258 | the resolved ids without repetition |
| `StreamEngine.MultiroomEngine.OpenStream` | components/foo_out_multiroom_bridge/core/multiroom_engine.cpp:38-44 | called while no stream is open, an in-place update equal to the specified engine open that keeps the engine and the transport agreeing on the stream and the group coherent |
| `StreamEngine.MultiroomEngine.WriteInterleavedPcm` | components/foo_out_multiroom_bridge/core/multiroom_engine.cpp:46-58 | in-place update equal to the specified write; the cursor moves before the transport is asked, the returned timestamp is the cursor before, and the internal transport errors cannot come out |
| `StreamEngine.MultiroomEngine.Flush` | components/foo_out_multiroom_bridge/core/multiroom_engine.cpp:60-63 | in-place update equal to the specified flush; the cursor restarts even when the transport throws |
| `StreamEngine.MultiroomEngine.Stop` | components/foo_out_multiroom_bridge/core/multiroom_engine.cpp:65-69 | in-place update equal to the specified stop, which leaves the engine valid and nothing Ready |
| `Receiver.SendAudioKeeps` | transports/airplay/airplay_rtsp.cpp:1147-1180 | sending keeps packet i numbered i mod 2^16 and i mod 2^64, and every sync packet derived from the connection's own start |
| `Receiver.SendAudioStart` | transports/airplay/airplay_rtsp.cpp:1852-1863 | a started sync never moves while sending; an unstarted one can only take the packet's valid anchor |
| `Receiver.SendAudioDelivers` | transports/airplay/airplay_rtsp.cpp:1147-1180 | a send that returns spends exactly one sequence number and nonce and stamps the presentation time plus two seconds |
| `Receiver.SendAudioThrows` | transports/airplay/airplay_rtsp.cpp:1852-1863 | a send that throws delivers nothing, and throws missing-anchor exactly for real data on an unstarted connection with an invalid anchor |
| `Receiver.NoncesAreUnique` | transports/airplay/airplay_rtsp.cpp:1162-1174 | no nonce repeats before 2^64 packets, and the sequence number is the nonce mod 2^16 |
| `Receiver.TimestampAdvances` | transports/airplay/airplay_rtsp.cpp:1159-1161 | frames written back to back advance the 32-bit RTP clock by their count through 64-bit and 32-bit wraps |
| `Receiver.SyncClock` | transports/airplay/airplay_rtsp.cpp:1871-1894 | a sync packet for presentation time p carries p and p + 88200 modulo 2^32, the latter being the timestamp of the audio packet for p |
| `Receiver.StreamStart` | transports/airplay/airplay_rtsp.cpp:1147-1170 | the marker is on the first audio packet after an open or a flush and on no other; the SSRC is the session's, or 0x46424d52 when that is zero |
| `Receiver.Connection.SendAudioPacket` | transports/airplay/airplay_rtsp.cpp:1147-1180 | in-place update of the connection fields equal to the specified send |
| `Receiver.Connection.Flush` | transports/airplay/airplay_rtsp.cpp:1245-1268 | in-place update equal to the specified flush: the start is forgotten only when the request went through |
| `Sessions.OpenKeeps` | transports/airplay/airplay_session.cpp:79-160 | after open_for_outputs, normal or throwing, no session is Connecting, Ready means open, a non-Ready session has no id, URI, ports or queue, and a Ready queue is exactly what its connection delivered |
| `Sessions.PrepareRecords` | transports/airplay/airplay_session.cpp:59-77 | preparing a selected output records its name and endpoint and makes a failed session a closed one without an error, and changes nothing else |
| `Sessions.EnqueueDelivers` | transports/airplay/airplay_session.cpp:237-252 | on a Ready session the packet joins the queue exactly when the send returned, and the closed-session errors cannot occur |
| `Sessions.FlushFromKeeps` | transports/airplay/airplay_session.cpp:254-263 | a flush that throws half way keeps every invariant and touches only the sessions it reached; one that returns empties every queue and forgets every sync start |
| `Sessions.FlushThrowsIff` | transports/airplay/airplay_session.cpp:254-263 | a flush throws exactly when some Ready receiver refuses it |
| `Sessions.CloseKeeps` | transports/airplay/airplay_session.cpp:162-181 | closing any set of sessions keeps structure and timing |
| `Sessions.DeselectedIsClosed` | transports/airplay/airplay_session.cpp:162-181 | a session whose output is not selected ends Closed and blank, its connection dropped exactly if it was Ready; every other is untouched |
| `Sessions.StopLeavesNothingReady` | transports/airplay/airplay_session.cpp:275-285 | after stop no receiver is Ready |
| `Sessions.OpenThrowsIff` | transports/airplay/airplay_session.cpp:79-160 | the open loop throws exactly when something was selected and nothing became Ready |
| `Sessions.OpenReuses` | transports/airplay/airplay_session.cpp:99-113 | a reusable Ready session keeps its queue and connection and the client is not asked to open it |
| `Sessions.PartialOpenIsIsolated` | transports/airplay/airplay_session.cpp:79-160 | absent cancellation every selected output ends Ready or Failed with an error, unselected sessions are untouched, reusable ones are kept without a client open, and the call throws exactly when something was selected and nothing became Ready |
| `Sessions.OpenReadyIff` | transports/airplay/airplay_session.cpp:79-160 | absent cancellation a selected output ends Ready exactly when the client can drive it and it was reusable, or the format is the 44.1 kHz one and both of its own requests succeed, whatever happens to the other outputs |
| `Sessions.OpenRecords` | transports/airplay/airplay_session.cpp:79-160 | absent cancellation the call leaves for every selected output a session with its name and endpoint that holds what was negotiated before, if it was reused, what its receiver answered, on a connection that has sent nothing, if it was opened, and no trace of a stream, if it failed |
| `Sessions.ReusableIff` | transports/airplay/airplay_session.cpp:99-113 | a session is reusable exactly when it is Ready and open at the same endpoint for the same format and its output can be driven |
| `Sessions.OtherRateFails` | transports/airplay/airplay_rtsp.cpp:1291-1293 | in a supported format other than the 44.1 kHz one every selected output fails and a selection that is not empty makes the call throw, whatever the receivers answer |
| `Sessions.OpensIffStreamFormat` | transports/airplay/airplay_session.cpp:18-22 | an output the client can drive can be made Ready by an open exactly when the format is the 44.1 kHz one |
| `Sessions.OpenKeepsConnection` | transports/airplay/airplay_session.cpp:79-160 | an open loop, cancelled or not, leaves the connection of a reusable or unselected output as it was |
| `SessionManager.AirPlaySessionManager.PrepareOutputs` | transports/airplay/airplay_session.cpp:59-77 | in-place update equal to the specified prepare loop |
| `SessionManager.AirPlaySessionManager.OpenForOutputs` | transports/airplay/airplay_session.cpp:79-160 | in-place update equal to the specified open loop, failures and cancellation included |
| `SessionManager.AirPlaySessionManager.CloseMissingOutputs` | transports/airplay/airplay_session.cpp:162-181 | in-place update equal to the specified closing of unselected sessions |
| `SessionManager.AirPlaySessionManager.EnqueuePacket` | transports/airplay/airplay_session.cpp:237-252 | in-place update equal to the specified enqueue |
| `SessionManager.AirPlaySessionManager.FlushSessions` | transports/airplay/airplay_session.cpp:254-263 | in-place update equal to the specified flush loop, stopping at the first throw |
| `SessionManager.AirPlaySessionManager.Stop` | transports/airplay/airplay_session.cpp:275-285 | in-place update equal to closing every session |
| `SessionManager.AirPlaySessionManager.UpdateMetadata` | transports/airplay/airplay_session.cpp:202-235 | in-place update equal to the specified metadata pass: errors are recorded per session and never thrown |
| `Sessions.MetadataIsRecorded` | transports/airplay/airplay_session.cpp:202-235 | a metadata pass asks the Ready sessions only; a refusal is recorded beside the session and an answer clears the record |
| `Sessions.ReadyMeansDeliverable` | transports/airplay/airplay_session.cpp:310-320 | an enqueue for an id is refused as not ready exactly when the id is not in the ready set, and is never refused for a missing connection |
| `FrameCipher.RoundTrip` | transports/airplay/airplay2_external_crypto.cpp:94-148 | whatever encrypt_frame wrote is read back as the same plaintext, nothing is left over and the counter moved by the number of 1024-byte chunks |
| `FrameCipher.ParsePrefix` | transports/airplay/airplay2_external_crypto.cpp:114-148 | reading any prefix of an authentic stream yields exactly the complete frames in order, the counter one higher per frame, and the unconsumed suffix |
| `FrameCipher.ParseAppend` | transports/airplay/airplay2_external_crypto.cpp:114-148 | the frame reader is incremental: reading a longer buffer is reading the shorter one, then its leftover with the new bytes |
| `FrameCipher.FrameLayout` | transports/airplay/airplay2_external_crypto.cpp:94-113 | a frame is two length bytes, low byte first, that are also the additional data, then the sealed chunk of that length with its 16-byte tag |
| `FrameCipher.ChunksAreCut` | transports/airplay/airplay2_external_crypto.cpp:94-113 | a plaintext is cut into chunks of 1024 bytes, the last one shorter or equal |
| `FrameCipher.AirPlay2FrameCipher.Create` | transports/airplay/airplay2_external_crypto.cpp:86-92 | keys other than 32 bytes are rejected; counters start at zero |
| `FrameCipher.AirPlay2FrameCipher.EncryptFrame` | transports/airplay/airplay2_external_crypto.cpp:94-113 | the chunk loop writes the sealed chunks and advances the 64-bit counter once per chunk |
| `FrameCipher.AirPlay2FrameCipher.DecryptAvailable` | transports/airplay/airplay2_external_crypto.cpp:114-148 | the frame loop returns the complete frames and trims the buffer; on an authentication failure nothing is returned, the buffer is kept and the counter has moved |
| `EventStream.HeaderEndIsStable` | transports/airplay/airplay_rtsp.cpp:2089-2095 | a header end found in a buffer stays the header end of every longer buffer |
| `EventStream.ExtractAppend` | transports/airplay/airplay_rtsp.cpp:2088-2121 | the message extractor is incremental on arbitrary bytes |
| `EventStream.ExtractTakes` | transports/airplay/airplay_rtsp.cpp:2088-2121 | on every buffer what is taken is a row of messages, each a header block that ends at its first CR LF CR LF and a body of the announced length, what is left begins with no complete message, and together they are the buffer |
| `EventStream.TakesFirst` | transports/airplay/airplay_rtsp.cpp:2088-2121 | such a message at the front is taken off whole, whatever bytes follow it |
| `EventStream.SegmentationIndependence` | transports/airplay/airplay_rtsp.cpp:2006-2049 | for every stream that authenticates, feeding the bytes in any pieces gives the messages and the state of feeding them at once |
| `EventStream.EndToEnd` | transports/airplay/airplay_rtsp.cpp:2006-2121 | for requests of a header block without an empty line, CR LF CR LF and a body of the announced length, sealed one by one, and any prefix of the stream cut in any way: exactly the complete ones, once each and in order, counter equal to the frames opened, both buffers holding exactly the unconsumed bytes, nothing complete held back |
| `EventStream.WholeStream` | transports/airplay/airplay_rtsp.cpp:2006-2121 | when the whole stream of such requests has arrived in any pieces, all have been answered and both buffers are empty |
| `EventStream.EventLoop.RespondToEventMessages` | transports/airplay/airplay_rtsp.cpp:2088-2121 | the erase-in-place loop takes complete messages off the front of any buffer, byte for byte, until none is left there |
| `EventStream.EventLoop.OnReceived` | transports/airplay/airplay_rtsp.cpp:2030-2046 | one receive of the loop: append and extract per frame; a failed authentication clears the plain buffer |
| `RenderQueue.FramesAreConserved` | components/foo_out_multiroom_bridge/multiroom_output.cpp:139-175 | in every interleaving of host calls, stops and render steps: in the current epoch frames handed to the transport, then frames swallowed by a stopped playback, in hand and queued are the frames write accepted, in order; in every epoch what was taken is a prefix of what was accepted; the queue never exceeds its capacity |
| `RenderQueue.FramesReachTheTransport` | components/foo_out_multiroom_bridge/multiroom_component_state.cpp:1337-1350 | as long as playback is only stopped while no render thread runs, before it has opened playback, or while the output itself is stopping, every accepted frame of the current epoch is handed to the transport, in hand or queued |
| `RenderQueue.CloseLosesNothingIff` | components/foo_out_multiroom_bridge/multiroom_component_state.cpp:1337-1350 | the condition on a stop is exact: in every state reached with such stops only, the next one costs no accepted frame of the epoch then current, in any continuation, if and only if it is such a stop itself |
| `RenderQueue.SwallowedFrame` | components/foo_out_multiroom_bridge/multiroom_component_state.cpp:1337-1350 | a history that loses a frame: playback is stopped under a running output, and a frame of the current epoch is swallowed |
| `RenderQueue.PacketsAreWhole` | components/foo_out_multiroom_bridge/multiroom_output.cpp:313-334 | every packet handed over has 352 frames of one epoch counting its padding, and padding only under force-play |
| `RenderQueue.FlushSafety` | components/foo_out_multiroom_bridge/multiroom_output.cpp:194-205 | nothing sent after the transport flush that serves an on_flush was written before that on_flush, also when a packet passed the currency check before it |
| `RenderQueue.FlushGoesFirst` | components/foo_out_multiroom_bridge/multiroom_output.cpp:292-302 | nothing written in the epoch that an on_flush begins is sent before its transport flush has gone out, also when a stopped playback swallows the flush |
| `RenderQueue.AcceptedFramesHaveAThread` | components/foo_out_multiroom_bridge/multiroom_output.cpp:152-163 | whenever write accepts frames a render thread is alive, in every interleaving of stops, failures and opens |
| `RenderQueue.DropsAreStale` | components/foo_out_multiroom_bridge/multiroom_output.cpp:351-361 | a packet is thrown away only after its epoch has ended |
| `RenderQueue.PausedTakesNothing` | components/foo_out_multiroom_bridge/multiroom_output.cpp:286-303 | a paused output accepts no frame and takes no packet, whatever else happens: what was queued stays queued until a flush or a stop |
| `RenderQueue.PlayingSends` | components/foo_out_multiroom_bridge/multiroom_output.cpp:286-361 | with 352 frames queued, or anything under force-play, an uninterrupted round of the render thread hands over exactly the first frames, up to 352, and leaves the rest |
| `RenderQueue.FlushIsServed` | components/foo_out_multiroom_bridge/multiroom_output.cpp:292-302 | a flush that was asked for goes out before anything else and changes nothing else |
| `RenderQueue.SendFailureIsReported` | components/foo_out_multiroom_bridge/multiroom_output.cpp:365-375 | a send that fails ends the thread; unless the output was stopping the failure is kept for the host, and no further frame is accepted |
| `RenderQueue.OpenFailureIsReported` | components/foo_out_multiroom_bridge/multiroom_output.cpp:365-375 | so is an open that fails, and playback is not open after it |
| `RenderQueue.OpenWithoutThread` | components/foo_out_multiroom_bridge/multiroom_output.cpp:249-263 | when the thread cannot be created the output is left stopped with nothing to close, and can be opened again |
| `RenderQueue.StepKeeps` | components/foo_out_multiroom_bridge/multiroom_output.cpp:267-392 | every host call and every render step keeps conservation, epoch tags, packet shape and both flush orders |
| `RenderQueue.MultiroomOutput.Write` | components/foo_out_multiroom_bridge/multiroom_output.cpp:139-175 | accepts exactly the frames that fit when started, running and unpaused, and reports a format change or a failed worker |
| `RenderQueue.MultiroomOutput.CanWriteSamples` | components/foo_out_multiroom_bridge/multiroom_output.cpp:177-181 | the room write would use |
| `RenderQueue.MultiroomOutput.GetLatencySamples` | components/foo_out_multiroom_bridge/multiroom_output.cpp:183-192 | queued plus in-flight frames, saturating at the largest count |
| `RenderQueue.MultiroomOutput.OnFlushRequested` | components/foo_out_multiroom_bridge/multiroom_output.cpp:194-205 | empties the queue, withdraws force-play, asks for a transport flush and starts a new epoch |
| `RenderQueue.MultiroomOutput.OnForcePlayRequested` | components/foo_out_multiroom_bridge/multiroom_output.cpp:207-214 | sets force-play and nothing else |
| `RenderQueue.MultiroomOutput.BeginStop` | components/foo_out_multiroom_bridge/multiroom_output.cpp:394-408 | the locked section of stop |
| `RenderQueue.MultiroomOutput.BeginOpen` | components/foo_out_multiroom_bridge/multiroom_output.cpp:226-245 | the locked section of open |
| `RenderQueue.MultiroomOutput.TakePacket` | components/foo_out_multiroom_bridge/multiroom_output.cpp:313-335 | the pop-and-pad loops produce 1408 bytes: of each of up to 352 queued frames the left and then the right sample, low byte first, and zeros after them |
| `AudioPath.DecodesToTheQueue` | components/foo_out_multiroom_bridge/multiroom_output.cpp:313-334 | what a receiver decodes from the ALAC frame of a taken packet is the queued samples, left before right, and silence after them |
| `AudioPath.HandedPacketsDecode` | components/foo_out_multiroom_bridge/multiroom_output.cpp:313-359 | the same for every packet handed to the transport in any history |
| `AudioPath.PacketIsOneWrite` | components/foo_out_multiroom_bridge/multiroom_output.cpp:25-26 | a packet of the queue is 1408 bytes, which the engine counts as the 352 frames by which a receiver's RTP clock advances |
| `Workers.NoDiscoveryDuringPlayback` | components/foo_out_multiroom_bridge/multiroom_component_state.cpp:521-545 | in every interleaving in which no stop from elsewhere ends while an open is in progress, the refresh worker is never inside discovery while playback is open |
| `Workers.StrayStopIsSafeIff` | components/foo_out_multiroom_bridge/multiroom_component_state.cpp:1388-1395 | at every reachable state with a stop from elsewhere at its last section: all continuations are safe if and only if no open is in progress then |
| `Workers.StrayStopLetsDiscoveryIn` | components/foo_out_multiroom_bridge/multiroom_component_state.cpp:1430-1446 | a stop from elsewhere that begins with nothing in progress can still break it: an open prepared between its sections loses the connecting flag and ends open with discovery running |
| `Workers.ConnectsOnlyWhileOpen` | components/foo_out_multiroom_bridge/multiroom_component_state.cpp:758-795 | in every interleaving the control worker connects only while playback is open, to the end of its transport-locked section |
| `Workers.ConnectsIff` | components/foo_out_multiroom_bridge/multiroom_component_state.cpp:738-792 | over every history the work being applied is what was pending at the worker's last snapshot, and connects if and only if playback was open with a valid format at that moment and open when the worker, holding the transport mutex, looked again |
| `Workers.FullUpdateConnects` | components/foo_out_multiroom_bridge/multiroom_component_state.cpp:655-863 | from every reachable state with an open, valid playback, an idle worker and a free mutex a full update without interference gets to connecting, and afterwards everything is as it was |
| `Workers.LesserUpdates` | components/foo_out_multiroom_bridge/multiroom_component_state.cpp:758-792 | a metadata update is applied under the mutex without connecting anyone; volumes alone are sent without the mutex |
| `Workers.ControlDrains` | components/foo_out_multiroom_bridge/multiroom_component_state.cpp:845-863 | from every reachable state in which the mutex is free or the worker's own, two rounds of the worker leave nothing pending and the worker ended |
| `Workers.RequestsHaveWorkers` | components/foo_out_multiroom_bridge/multiroom_component_state.cpp:655-703 | pending full, volume or metadata work implies a control worker before its final check; a coalesced refresh implies a refresh in progress |
| `Workers.NoRefreshIsForgotten` | components/foo_out_multiroom_bridge/multiroom_component_state.cpp:497-560 | over every history a refresh that was asked for and has not led to a scan is remembered: by a worker before its check, a coalesced request, the deferral to the next stop, or a stop that has taken it up |
| `Workers.RefreshScans` | components/foo_out_multiroom_bridge/multiroom_component_state.cpp:497-560 | with nothing playing, an idle worker and a free mutex a refresh gets into discovery, and afterwards everything is as it was |
| `Workers.OpensAndStops` | components/foo_out_multiroom_bridge/multiroom_component_state.cpp:1216-1395 | from closed, with a free mutex, an open ends open and valid with nothing connecting, and the stop after it with every flag clear, asking for the deferred refresh if there is one |
| `Workers.FailureCleansUp` | components/foo_out_multiroom_bridge/multiroom_component_state.cpp:1316-1333 | an open that throws at any point ends with nothing open, connecting or valid and the mutex free, and can be stopped |
| `Workers.NothingScheduledIsLost` | components/foo_out_multiroom_bridge/multiroom_component_state.cpp:655-703 | over every history what was ever asked of the control worker is exactly what its snapshots took together with what is still pending, and while anything is pending a worker has yet to look |
| `Workers.MultiroomComponentState.RefreshOutputs` | components/foo_out_multiroom_bridge/multiroom_component_state.cpp:497-519 | defers while playback is active, coalesces while a worker runs, otherwise starts one |
| `Workers.MultiroomComponentState.RecheckRefresh` | components/foo_out_multiroom_bridge/multiroom_component_state.cpp:529-545 | the check under both mutexes lets the worker into discovery only when playback is inactive |
| `Workers.MultiroomComponentState.TakeControlWork` | components/foo_out_multiroom_bridge/multiroom_component_state.cpp:738-756 | the snapshot takes all pending work at once and decides whether to connect |
| `Workers.MultiroomComponentState.FinishControlWork` | components/foo_out_multiroom_bridge/multiroom_component_state.cpp:845-863 | the worker ends exactly when nothing is pending |
| `Workers.MultiroomComponentState.PublishOpen` | components/foo_out_multiroom_bridge/multiroom_component_state.cpp:1301-1313 | open is published and connecting withdrawn in one locked section |
| `Workers.MultiroomComponentState.FinishStop` | components/foo_out_multiroom_bridge/multiroom_component_state.cpp:1388-1395 | the last section of stop_playback, run by the host or from elsewhere, withdraws the flags and tells whether to ask for the deferred refresh |
| `PendingOpens.CancellationIsNeverLost` | transports/airplay/airplay_rtsp.cpp:2386-2391 | in every interleaving of opens, cancellers and resets: once a canceller has finished with no reset since it began, every connection still pending whose open has read the flag, and acted on it, is cancelled |
| `PendingOpens.CancellerFinishes` | transports/airplay/airplay_rtsp.cpp:2514-2527 | a canceller left to itself cancels every connection pending when it looks, in any order, and changes nothing else |
| `PendingOpens.OpenHeedsTheFlag` | transports/airplay/airplay_rtsp.cpp:2382-2391 | an open that finds the flag set cancels its own connection, one that does not leaves it alone, and either can end |
| `PendingOpens.NothingCancelledUnasked` | transports/airplay/airplay_rtsp.cpp:2514-2527 | in no history without a canceller is anything cancelled |
| `PendingOpens.DemandsAreMet` | transports/airplay/airplay_rtsp.cpp:2386-2391 | over any number of cancellers and resets, when no reset takes a set flag back from a pending connection that has yet to read it and that nobody will cancel: every connection owed a cancellation that has read the flag is cancelled or in the work of a canceller, and cancelled once the cancellers have finished |
| `PendingOpens.ResetLosesNothingIff` | transports/airplay/airplay_rtsp.cpp:2510-2512 | in every state so reached, the next reset loses no cancellation in any continuation if and only if no pending connection that has yet to read a set flag lies outside what was cancelled and what the cancellers have still to cancel |
| `OpenCancellation.ComponentResetsAreSafe` | components/foo_out_multiroom_bridge/multiroom_component_state.cpp:1216-1236 | in every interleaving of opens under the transport mutex, the output's own cancel, join, stop and prepare, and stops from elsewhere, every reset the component makes is one that loses no cancellation, so every connection owed one that has read the flag is cancelled or in the work of a canceller |
| `OpenCancellation.HostTakesUpAll` | components/foo_out_multiroom_bridge/multiroom_output.cpp:413-415 | the output's cancel sets the flag and takes up every pending connection, whoever is opening |
| `OpenCancellation.HostStopsThrough` | components/foo_out_multiroom_bridge/multiroom_output.cpp:394-423 | from every reachable state between its calls, with the mutex free, the output's stop runs through from the cancel to the reset and leaves the flag clear |
| `SocketOwnership.ClosedAtMostOnce` | transports/airplay/airplay_rtsp.cpp:1048-1076 | in every interleaving of connect_to with any number of cancels no socket is closed twice |
| `SocketOwnership.NothingLeftOpen` | transports/airplay/airplay_rtsp.cpp:1032-1079 | once connect_to and all cancels have finished, no socket is open if anything was cancelled or nothing connected; otherwise exactly the connected one is, in the slot |
| `SocketOwnership.ConnectTriesOn` | transports/airplay/airplay_rtsp.cpp:1032-1068 | connect_to goes on when no socket can be made, closes a refused one and goes on, and ends with an accepted one open in the slot |
| `SocketOwnership.CancelInterrupts` | transports/airplay/airplay_rtsp.cpp:1070-1079 | a cancel during the connect closes that socket and connect_to gives up, whatever the call inside returns |
| `Identity.NoIdentityForgotten` | transports/airplay/airplay_discovery.cpp:498-527 | over any sequence of upserts map keys stay device ids, and the known ids are exactly those known before or announced |
| `Identity.UpsertKnows` | transports/airplay/airplay_discovery.cpp:498-527 | one upsert, merging or promoting, keeps keys equal to ids and loses and invents no id |
| `Identity.SyncAgrees` | transports/airplay/airplay_transport.cpp:212-236 | after a sync registry and discovery have the same ids, discovery's own fields are current, unchanged ids keep their user state and new ids inherit from their first registered alias |
| `Identity.HistoricIdsResolve` | transports/airplay/airplay_transport.cpp:238-246 | after a sync every id discovery knows resolves to a registered output carrying it; any other id stays itself and unregistered |
| `Identity.HistorySurvivesPromotions` | transports/airplay/airplay_transport.cpp:212-246 | any number of promotions between syncs: every id known before or announced since names a registered output |
| `Identity.PromotedIdInherits` | transports/airplay/airplay_transport.cpp:212-231 | a registered receiver keeps its user state under the id it ends up with, over any announcements between two syncs (refreshes, absorptions, any number of promotions, other receivers) none of which puts another registered or discovered id in front of the registered one among the names of its entry, or promotes it to an id with a registered state of its own |
| `Identity.InheritsIff` | transports/airplay/airplay_transport.cpp:212-236 | for whatever discovery holds, after any announcements: an output takes over the user state of a registered id, whatever that state is, if and only if the walk through first held names, which can be made before the sync, ends at that id |
| `Identity.UserStateOrigin` | transports/airplay/airplay_transport.cpp:212-236 | after a sync every output has the user state of the registered or discovered id where that walk ends |
| `Identity.ResolvesToItselfIff` | transports/airplay/airplay_transport.cpp:238-246 | a registered id resolves to itself exactly when no earlier record lists it as an alias |
| `Identity.DiscoveredResolvesToItselfIff` | transports/airplay/airplay_transport.cpp:238-246 | the same condition on what discovery holds before the sync: no earlier key lists the id as an alias |
| `Identity.MovedIdNamesAnother` | transports/airplay/airplay_discovery.cpp:498-527 | how announcements lead there: an id absorbed as an alias of a lesser key and then announced as a receiver of its own is registered, and resolves to another output |
| `Identity.SelectedIdNamesAnother` | transports/airplay/airplay_discovery.cpp:498-527 | three announcements after which selecting b selects a |
| `Identity.AirPlayDiscovery.FindPhysical` | transports/airplay/airplay_discovery.cpp:501-503 | the first other entry that is the same physical receiver |
| `Identity.AirPlayDiscovery.UpsertDevice` | transports/airplay/airplay_discovery.cpp:1098-1107 | in-place update equal to the specified upsert; an empty id is rejected |
| `Identity.BetterRecordIsKept` | transports/airplay/airplay_discovery.cpp:473-513 | of two records of one receiver the kept one supports AirPlay 2 if either does; with equal support it has a public key if either has; with both equal its id is the longer; the legacy format is supported if either supports it |
| `Identity.SupportIsKept` | transports/airplay/airplay_discovery.cpp:498-527 | over any announcements the entry a receiver ends under supports AirPlay 2 exactly when it did at first or some announcement for it did and no later one under the entry's own id withdrew it |
| `Identity.SameReceiverIff` | transports/airplay/airplay_discovery.cpp:461-466 | two announcements are for one receiver exactly when both have a name and a host and these are equal up to the case of ASCII letters |
| `Identity.SyncDiscoveredOutputs` | transports/airplay/airplay_transport.cpp:212-236 | the update loop and the retain bring the registry to the specified sync |
| `Registry.ListIsComplete` | components/foo_out_multiroom_bridge/core/output_registry.cpp:46-56 | a listing holds every record once |
| `Registry.RangeIs` | components/foo_out_multiroom_bridge/core/output_registry.cpp:12-18 | stored volumes are clamped to 0 to 100 and offsets to two seconds either way, and nothing else is changed |
| `Registry.OutputRegistry.Upsert` | components/foo_out_multiroom_bridge/core/output_registry.cpp:22-32 | inserts or replaces with volume and offset clamped; an empty id changes nothing |
| `Registry.OutputRegistry.Retain` | components/foo_out_multiroom_bridge/core/output_registry.cpp:34-44 | keeps exactly the records whose id is listed |
| `Registry.OutputRegistry.SetEnabledOutputs` | components/foo_out_multiroom_bridge/core/output_registry.cpp:69-80 | all or nothing: an unknown id changes nothing, otherwise exactly the listed ids are selected |
| `Alac.BitWriter.PutBits` | transports/airplay/airplay_rtsp.cpp:276-285 | the bit loop keeps written bytes and pending bits equal to the concatenated big-endian fields |
| `Alac.MakeAlacUncompressedFrame` | transports/airplay/airplay_rtsp.cpp:260-299 | the frame is 1412 bytes whose bits are the header fields, 704 samples, the end tag and the padding |
| `Alac.FrameMarks` | transports/airplay/airplay_rtsp.cpp:287-298 | every frame begins with the 23 bits 001, nineteen zeros and the uncompressed flag, and ends with 111 and zeros |
| `Alac.DecodeInvertsPacking` | transports/airplay/airplay_rtsp.cpp:287-294 | the 16 bits at offset 23 + 16 i of a frame spell sample i of the input |
| `Alac.DecodedBytes` | transports/airplay/airplay_rtsp.cpp:260-299 | the decoded samples written back are the input cut or zero-filled to 352 frames |
| `Alac.WholePacketSurvives` | transports/airplay/airplay_rtsp.cpp:260-299 | a packet of 352 frames comes back from the decoder byte for byte |
| `Alac.MakePcmPayload` | transports/airplay/airplay_rtsp.cpp:302-311 | the byte-swapping loop yields 1408 bytes whose big-endian samples are the input's little-endian ones, zero past its end |
| `Alac.EncodingsAgree` | transports/airplay/airplay_rtsp.cpp:260-311 | both encodings carry the same samples whatever the input length |
| `Dns.ReadSucceedsIff` | transports/airplay/airplay_discovery.cpp:141-173 | on every byte string read_name succeeds exactly when a decoding with at most 12 jumps exists |
| `Dns.ReadGives` | transports/airplay/airplay_discovery.cpp:141-173 | it then returns the dotted labels of that decoding and moves the offset past the bytes of the name, inside the packet |
| `Dns.PathIsUnique` | transports/airplay/airplay_discovery.cpp:141-173 | a position has at most one decoding |
| `Dns.ReadName` | transports/airplay/airplay_discovery.cpp:141-173 | the loop terminates on every packet and returns the specified result, moved offset and partial text of a failure included |
| `Dns.AppendDnsName` | transports/airplay/airplay_discovery.cpp:110-123 | the label loop writes the specified name or rejects it |
| `Dns.NameRoundTrip` | transports/airplay/airplay_discovery.cpp:110-173 | every name the writer accepts reads back anywhere in a packet, without its trailing dots and cut at a NUL, and the offset ends just past it |
| `Dns.NameIdentity` | transports/airplay/airplay_discovery.cpp:110-173 | an accepted name reads back unchanged if and only if it contains no NUL and does not end in a dot |
| `Dns.NamesThatChange` | transports/airplay/airplay_discovery.cpp:110-173 | two accepted names, one ending in a dot and one with a NUL, that are written alike and both read back as another text |
| `Dns.MakeDnsQuery` | transports/airplay/airplay_discovery.cpp:125-135 | builds the specified query or rejects the name |
| `Dns.QueryIsConsumed` | transports/airplay/airplay_discovery.cpp:125-135 | a built query announces one question, whose name, type and class read back and end exactly at the end of the packet |
| `Dns.ParseTxt` | transports/airplay/airplay_discovery.cpp:189-205 | the item loop stays inside its range and returns the specified map |
| `Dns.ItemMeans` | transports/airplay/airplay_discovery.cpp:196-203 | key=value stores the value under the key in lower case, a key alone stores an empty value, and an item without a key nothing |
| `Dns.TxtFoldsItems` | transports/airplay/airplay_discovery.cpp:189-205 | that map is the fold of the length-prefixed items inside the range, in order: lower-cased keys, a later value replacing an earlier one, an item past the end dropped |
| `Dns.ItemsRoundTrip` | transports/airplay/airplay_discovery.cpp:189-205 | items written one after the other are read back, wherever they stand |
| `Dns.RecordsStayInside` | transports/airplay/airplay_discovery.cpp:265-280 | records follow one another without overlap with headers inside the packet, and only a last one can announce data past the end |
| `Dns.WalkAppliesRecords` | transports/airplay/airplay_discovery.cpp:265-322 | the record loop applies the records in order, each once, and the host addresses only when all were read |
| `Dns.PortIsLastSrv` | transports/airplay/airplay_discovery.cpp:288-300 | the port and the target host of a service are those of the last usable SRV record for its name |
| `Dns.ServicesAreDescribed` | transports/airplay/airplay_discovery.cpp:265-305 | a service ends with the port and target of the last SRV record, the type and instance of the last PTR record that points to it, for each TXT key the first value told, and the responder's address when an SRV record came and none was known |
| `Dns.HostsAreAddressed` | transports/airplay/airplay_discovery.cpp:306-316 | a host, in any case, has the address of the last usable A record for it, else the one known, else that of the first usable AAAA record |
| `Dns.ServicesAreComplete` | transports/airplay/airplay_discovery.cpp:265-322 | when every record was read a service also takes the address of its target host, if that has one |
| `Dns.RecordRoundTrip` | transports/airplay/airplay_discovery.cpp:265-275 | a record written as name, type, class, time to live, length and data reads back with these fields |
| `Dns.ServicesAreNamed` | transports/airplay/airplay_discovery.cpp:279-305 | a service that no usable PTR, SRV or TXT record names is neither created nor changed |
| `Dns.Ipv4Wins` | transports/airplay/airplay_discovery.cpp:306-316 | without a later A record for a host its known address stays: an AAAA record never replaces it |
| `Dns.ParseResponse` | transports/airplay/airplay_discovery.cpp:243-322 | every read of the three loops is inside the packet on arbitrary bytes, and the result is the specified one |
| `SpeakerGroups.NormalizeIsIdempotent` | components/foo_out_multiroom_bridge/core/speaker_groups.cpp:65-80 | normalizing twice is normalizing once |
| `SpeakerGroups.TrimCutsBlanks` | components/foo_out_multiroom_bridge/core/speaker_groups.cpp:10-17 | trimming cuts off white space, and all there is of it, at both ends and nothing else |
| `SpeakerGroups.NormalizeIdsKeeps` | components/foo_out_multiroom_bridge/core/speaker_groups.cpp:65-80 | the normal list has exactly the trimmed ids that are not blank |
| `SpeakerGroups.PrintParse` | components/foo_out_multiroom_bridge/core/speaker_groups.cpp:82-124 | for arbitrary byte strings, parsing what was printed gives the complete groups in normal form, the first of each id |
| `SpeakerGroups.PrintingSettles` | components/foo_out_multiroom_bridge/core/speaker_groups.cpp:82-124 | for any stored text, printing and parsing what was parsed gives the same groups, and printing again the same text |
| `SpeakerGroups.HexRoundTrip` | components/foo_out_multiroom_bridge/core/speaker_groups.cpp:19-48 | decoding an encoded text gives it back |
| `SpeakerGroups.HexDigitsAre` | components/foo_out_multiroom_bridge/core/speaker_groups.cpp:19-48 | small hexadecimal letters are written, small and capital ones read, and nothing else |
| `SpeakerGroups.OneGroupText` | components/foo_out_multiroom_bridge/core/speaker_groups.cpp:82-96 | the text of one group, character by character |
| `SpeakerGroups.VersionIsNeeded` | components/foo_out_multiroom_bridge/core/speaker_groups.cpp:98-104 | a line that does not begin with v1 and a bar is skipped |
| `SpeakerGroups.NormalizeSpeakerGroup` | components/foo_out_multiroom_bridge/core/speaker_groups.cpp:65-80 | the loop trims, drops empties and keeps the first of equal ids, as specified |
| `SpeakerGroups.SerializeSpeakerGroups` | components/foo_out_multiroom_bridge/core/speaker_groups.cpp:82-96 | the printing loops write the specified text |
| `SpeakerGroups.DeserializeSpeakerGroups` | components/foo_out_multiroom_bridge/core/speaker_groups.cpp:98-124 | the parsing loops return the specified groups |
| `SpeakerGroups.Split` | components/foo_out_multiroom_bridge/core/speaker_groups.cpp:50-56 | repeated getline: no field after a final separator |
| `Activation.ActivationMatchesPersisted` | components/foo_out_multiroom_bridge/multiroom_component_state.cpp:211-236 | after replacing the stored selection for a group the persisted predicate holds for it if and only if it has members, under any known outputs and aliases |
| `Activation.ReplacingTwice` | components/foo_out_multiroom_bridge/multiroom_component_state.cpp:211-236 | a second replacement changes nothing |
| `Activation.StoredStateIsKept` | components/foo_out_multiroom_bridge/multiroom_component_state.cpp:211-236 | activation changes nothing stored but the selection, in place, and appends only members of the group, selected, visible and at volume 50 |
| `Activation.MatchesSelectionIff` | components/foo_out_multiroom_bridge/core/speaker_groups.cpp:178-191 | over outputs with distinct ids the live predicate holds exactly when some member is present and the selected outputs are the members present |
| `Activation.MatchesPersistedIff` | components/foo_out_multiroom_bridge/core/speaker_groups.cpp:141-176 | the persisted predicate holds exactly when the selection is not empty, every id in it is a member or names, as the first known output that answers to it, one that answers to a member, and every member is named by some id in it |
| `Activation.ActivationMatchesSelection` | components/foo_out_multiroom_bridge/core/speaker_groups.cpp:126-191 | selecting exactly the resolved ids makes the live predicate true if and only if some member resolves |
| `Activation.ResolveFindsMembers` | components/foo_out_multiroom_bridge/core/speaker_groups.cpp:126-139 | the resolved ids are exactly the outputs answering to a member, each once |
| `Activation.ReplaceStoredSelection` | components/foo_out_multiroom_bridge/multiroom_component_state.cpp:211-236 | the two loops compute the specified state list |
| `Activation.SpeakerGroupMatchesSelection` | components/foo_out_multiroom_bridge/core/speaker_groups.cpp:178-191 | sorting both lists decides the specified predicate |
| `KeyOrder.SortSorts` | components/foo_out_multiroom_bridge/core/speaker_groups.cpp:183-190 | the sorted list is ascending and a rearrangement |
| `KeyOrder.SortEqualIffPermutation` | components/foo_out_multiroom_bridge/core/speaker_groups.cpp:182-190 | two id lists sort to the same list exactly when one is a rearrangement of the other |
| `Timing.NoOverflowIffRate` | transports/airplay/airplay_timing.h:18-20 | the scaling product fits 64 bits for every NTP value exactly for rates up to 65536 |
| `Timing.NtpRoundTrip` | transports/airplay/airplay_timing.h:18-24 | NTP to RTP and back never increases and loses less than (ceil(65535/rate)+1) * 2^16 units |
| `Timing.StreamRateLoss` | transports/airplay/airplay_timing.h:18-24 | at 44100 and 48000 the loss is below 3 * 2^16 units |
| `Timing.RtpRoundTrip` | transports/airplay/airplay_timing.h:18-24 | RTP to NTP and back gives r when the rate divides the scaled count and r - 1 otherwise |
| `Timing.NtpToRtpMonotone` | transports/airplay/airplay_timing.h:18-20 | NTP to RTP is monotone |
| `Timing.RtpToNtpMonotone` | transports/airplay/airplay_timing.h:22-24 | RTP to NTP is monotone within the NTP era |
| `Timing.RtpFitsIffInEra` | transports/airplay/airplay_timing.h:22-24 | RTP to NTP is free of wrap-around exactly for counts inside the 2^32-second NTP era |
| `Timing.EraEnds` | transports/airplay/airplay_timing.h:22-24 | the first count past the era maps to NTP zero, so monotonicity ends exactly there |
| `Scheduler.FramesForMsBounds` | components/foo_out_multiroom_bridge/core/packet_scheduler.cpp:52-58 | milliseconds scale to frames without leaving 64 bits, truncated toward zero symmetrically |
| `Scheduler.ApplyOffsetIsClamp` | components/foo_out_multiroom_bridge/core/packet_scheduler.cpp:60-73 | offsets saturate at both ends of the 64-bit timeline |
| `Scheduler.PacketTimes` | components/foo_out_multiroom_bridge/core/packet_scheduler.cpp:9-50 | presentation is the offset stream time clamped to the timeline, and the earliest send time is one lead before it and never later |
| `Scheduler.Schedule` | components/foo_out_multiroom_bridge/core/packet_scheduler.cpp:9-50 | one packet per selected output in order; a zero sample rate is rejected |

## Left out

- Sockets, Winsock, address lookup, service browsing, timeouts and thread creation: they appear only as success or failure inputs, handle ownership and steps.
- ChaCha20-Poly1305, SRP, HKDF, Ed25519, property lists and the pairing transcripts: library code; only the AEAD law is used.
- The legacy L16 send branch: it needs a connection without an AirPlay 2 audio key, which `open` never returns.
- The retry with PCM after a rejected ALAC setup: `close()` latches `cancelled_`, so the second `connect_to` throws; the negotiation is one success or failure.
- Pairing every control-client open with a close: a volume failure right after an open marks the session Failed and leaves its connection in the client's table, as modelled.
- Error message texts, methods and server names beyond being cleared and set with the session.
- Volume arithmetic in floating point, tone generation, sample conversion from floats: `Write` takes 16-bit frames.
- `FrameCipher.AirPlay2FrameCipher.DecryptAvailable`: a stream after a failed authentication is specified for one call only; the stream theorems are about authentic streams.
- `EventStream.EventLoop.RespondToEventMessages`: the answers sent back and the remote-command handler are not modelled, and neither is a Content-Length so large that the message size wraps.
- `Identity.PromotedIdInherits`: a sufficient condition on the announcements one by one; the exact one, on what they leave in discovery, is `Identity.InheritsIff`.
- `RenderQueue.FramesAreConserved`: the stream epoch is a natural, so its wrap after 2^64 flushes is not modelled; pacing is the choice of when the timer step happens.
- `OpenCancellation.ComponentResetsAreSafe`: says nothing about a connection made only after a stop from elsewhere has taken the flag back; such an open is not owed a cancellation.
- `Workers.NoDiscoveryDuringPlayback`: a `stop_playback` whose engine stop throws, and which then clears the flags in its handler, is not modelled.
- `Workers.RequestsHaveWorkers`: thread creation that throws, which would leave the in-progress flag set, is not modelled.
- `SocketOwnership.NothingLeftOpen`: covers the control socket; the event socket follows the same protocol in `connect_event_channel`. Descriptor reuse by the system is not modelled.
- `PendingOpens.CancellationIsNeverLost`: opens for one output follow one another, as the transport mutex makes them.
- Two registry entries for one physical receiver: numeric-host carry-over runs after the duplicate check, so their absence is not an invariant and is not claimed.
- Settings text of the output states (ids with `|` or a newline would not survive it): activation is proved on the parsed state lists.
- `Dns.ParseResponse`: address printing and the cutting of an instance name out of a full name are parameters.
- The remote-command window, toggling, preferences, drawing and the host callbacks: user interface.
- The DMAP writer, RTSP header formatting and the device record built from TXT entries: straight-line text assembly.
