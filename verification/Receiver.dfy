/**
 * One AirPlay 2 receiver connection: the RTP sequence, nonce and timestamp
 * counters, and the sync start taken from the shared group anchor.
 *
 * Conn is the connection as a value; class Connection updates the same fields in
 * place and is proved to follow the functions on Conn. What leaves on the two
 * UDP sockets is recorded in audio and syncs; delivered records the packets
 * whose send returned normally.
 */
module Receiver {
  import opened Common
  import opened Scheduler
  import Timing

  const FRAMES_PER_PACKET: u32 := 352
  const STREAM_RATE: u32 := 44100
  const LATENCY_FRAMES: u64 := 88200   // two seconds at STREAM_RATE
  const DEFAULT_SSRC: u32 := 0x46424d52

  /** The exceptions the modelled calls can throw. */
  datatype Error =
    | NullBuffer | MissingAnchor | SendFailed | NoStreamUri | RequestFailed | EmptySessionId
    | NoConnection | NotReady | Cancelled | BadFormat | NotAirplay2 | NoEndpoint | UnsupportedRate
    | OpenFailed | VolumeFailed | NothingOpened | MetadataFailed | UnknownOutput | StreamClosed
    | NoReadyOutput | PartialFrame

  datatype Outcome = Done | Thrown(error: Error)

  datatype AudioPacket = AudioPacket(sequence: u16, timestamp: u32, marker: bool, ssrc: u32, nonce: u64)

  /** rtp fields as sent; presentation is the stream time the packet was made for. */
  datatype SyncPacket = SyncPacket(first: bool, presentation: u64, rtpNow: u32, ntp: u64, rtpNext: u32)

  datatype Conn = Conn(
    streamUri: string,
    sessionId: string,
    ssrc: u32,
    controlPort: u16,
    syncStarted: bool,
    syncStartRtp: u64,
    firstAudio: bool,
    nextSequence: u16,
    nonce: u64,
    clockInitialized: bool,
    nextTimestamp: u32,
    audio: seq<AudioPacket>,
    syncs: seq<SyncPacket>,
    delivered: seq<ScheduledPacket>)

  /** How the network answers one send_audio call. */
  datatype SendFate = SendFate(firstSyncOk: bool, syncDue: bool, syncOk: bool, audioOk: bool)

  function NewConn(streamUri: string, sessionId: string, ssrc: u32, controlPort: u16): Conn {
    Conn(streamUri, sessionId, ssrc, controlPort, false, 0, true, 0, 0, false, 0, [], [], [])
  }

  function RtpTimestamp(presentation: u64): u32 { (presentation + LATENCY_FRAMES) % U64 % U32 }

  function SyncNtp(start: u64, presentation: u64): u64 {
    Timing.RtpToNtp((start + presentation) % U64, STREAM_RATE)
  }

  function SyncFor(start: u64, first: bool, presentation: u64): SyncPacket {
    SyncPacket(
      first, presentation,
      (RtpTimestamp(presentation) - LATENCY_FRAMES) % U32,
      SyncNtp(start, presentation),
      RtpTimestamp(presentation))
  }

  function SendSync(c: Conn, first: bool, presentation: u64, ok: bool): (Conn, Outcome) {
    if c.controlPort == 0 then (c, Done)
    else if !ok then (c, Thrown(SendFailed))
    else (c.(syncs := c.syncs + [SyncFor(c.syncStartRtp, first, presentation)]), Done)
  }

  function EnsureSync(c: Conn, packet: ScheduledPacket, ok: bool): (Conn, Outcome) {
    if c.syncStarted then (c, Done)
    else if !packet.groupSyncAnchorValid then (c, Thrown(MissingAnchor))
    else
      SendSync(
        c.(syncStartRtp := packet.groupSyncStartRtp, syncStarted := true),
        true, packet.presentationTimestamp, ok)
  }

  function AudioFor(c: Conn, presentation: u64): AudioPacket {
    AudioPacket(
      c.nextSequence, RtpTimestamp(presentation), c.firstAudio,
      if c.ssrc == 0 then DEFAULT_SSRC else c.ssrc, c.nonce)
  }

  /** Sequence and nonce are spent before the socket can fail. */
  function SendRtp(c: Conn, packet: ScheduledPacket, ok: bool): (Conn, Outcome) {
    var p := AudioFor(c, packet.presentationTimestamp);
    var spent := c.(
      nextSequence := (c.nextSequence + 1) % U16,
      nonce := (c.nonce + 1) % U64,
      firstAudio := false,
      audio := c.audio + [p]);
    if !ok then (spent, Thrown(SendFailed))
    else
      (spent.(
         clockInitialized := true,
         nextTimestamp := (p.timestamp + FRAMES_PER_PACKET) % U32,
         delivered := c.delivered + [packet]),
       Done)
  }

  function SendAudio(c: Conn, packet: ScheduledPacket, hasBuffer: bool, bytes: nat, fate: SendFate): (Conn, Outcome) {
    if !hasBuffer && bytes != 0 then (c, Thrown(NullBuffer))
    else if bytes == 0 then (c.(delivered := c.delivered + [packet]), Done)
    else
      var (c1, o1) := EnsureSync(c, packet, fate.firstSyncOk);
      if o1.Thrown? then (c1, o1) else
      var (c2, o2) := if fate.syncDue then SendSync(c1, false, packet.presentationTimestamp, fate.syncOk) else (c1, Done);
      if o2.Thrown? then (c2, o2) else
      SendRtp(c2, packet, fate.audioOk)
  }

  /** FLUSH forgets the sync start only when the request went through. */
  function FlushConn(c: Conn, ok: bool): (Conn, Outcome) {
    if c.streamUri == "" then (c, Thrown(NoStreamUri))
    else if !ok then (c, Thrown(RequestFailed))
    else (c.(syncStarted := false, syncStartRtp := 0, firstAudio := true, syncs := [], delivered := []), Done)
  }

  // ---- what every call on a connection keeps

  /** Packet i of the connection carries sequence i mod 2^16 and nonce i mod 2^64. */
  ghost predicate Counted(c: Conn) {
    && c.nextSequence == |c.audio| % U16
    && c.nonce == |c.audio| % U64
    && (forall i :: 0 <= i < |c.audio| ==> c.audio[i].sequence == i % U16 && c.audio[i].nonce == i % U64)
  }

  /** Every sync packet since the last flush maps its presentation time through
    * the connection's own start. */
  ghost predicate SyncsFromStart(c: Conn) {
    && (!c.syncStarted ==> c.syncs == [])
    && (forall i :: 0 <= i < |c.syncs| ==> c.syncs[i] == SyncFor(c.syncStartRtp, c.syncs[i].first, c.syncs[i].presentation))
  }

  ghost predicate ConnOk(c: Conn) { Counted(c) && SyncsFromStart(c) }

  lemma SendSyncKeeps(c: Conn, first: bool, presentation: u64, ok: bool)
    requires ConnOk(c) && c.syncStarted
    ensures ConnOk(SendSync(c, first, presentation, ok).0)
  {
  }

  /** One more packet numbered from the counters, and the counters moved past it. */
  lemma CountedSnoc(c: Conn, d: Conn, p: AudioPacket)
    requires Counted(c)
    requires d.audio == c.audio + [p] && p.sequence == c.nextSequence && p.nonce == c.nonce
    requires d.nextSequence == (c.nextSequence + 1) % U16 && d.nonce == (c.nonce + 1) % U64
    ensures Counted(d)
  {
    ModAdd(|c.audio|, 1, U16);
    ModAdd(|c.audio|, 1, U64);
    forall i | 0 <= i < |d.audio| ensures d.audio[i].sequence == i % U16 && d.audio[i].nonce == i % U64 {
      if i < |c.audio| { assert d.audio[i] == c.audio[i]; }
    }
  }

  lemma SendRtpKeeps(c: Conn, packet: ScheduledPacket, ok: bool)
    requires ConnOk(c)
    ensures ConnOk(SendRtp(c, packet, ok).0)
  {
    var d := SendRtp(c, packet, ok).0;
    CountedSnoc(c, d, AudioFor(c, packet.presentationTimestamp));
    assert d.syncs == c.syncs && d.syncStartRtp == c.syncStartRtp && d.syncStarted == c.syncStarted;
  }

  lemma SendAudioKeeps(c: Conn, packet: ScheduledPacket, hasBuffer: bool, bytes: nat, fate: SendFate)
    requires ConnOk(c)
    ensures ConnOk(SendAudio(c, packet, hasBuffer, bytes, fate).0)
  {
    if bytes != 0 && hasBuffer && (c.syncStarted || packet.groupSyncAnchorValid) {
      var started := if c.syncStarted then c
                     else c.(syncStartRtp := packet.groupSyncStartRtp, syncStarted := true);
      SendSyncKeeps(started, true, packet.presentationTimestamp, fate.firstSyncOk);
      var (c1, o1) := EnsureSync(c, packet, fate.firstSyncOk);
      SendSyncKeeps(c1, false, packet.presentationTimestamp, fate.syncOk);
      SendRtpKeeps(c1, packet, fate.audioOk);
      SendRtpKeeps(SendSync(c1, false, packet.presentationTimestamp, fate.syncOk).0, packet, fate.audioOk);
    }
  }

  /** A connection that has started sync never moves its start while sending; one
    * that has not can only take the packet's anchor. */
  lemma SendAudioStart(c: Conn, packet: ScheduledPacket, hasBuffer: bool, bytes: nat, fate: SendFate)
    ensures var c' := SendAudio(c, packet, hasBuffer, bytes, fate).0;
      && c'.streamUri == c.streamUri && c'.sessionId == c.sessionId
      && (c.syncStarted ==> c'.syncStarted && c'.syncStartRtp == c.syncStartRtp)
      && (!c.syncStarted && c'.syncStarted ==>
            packet.groupSyncAnchorValid && c'.syncStartRtp == packet.groupSyncStartRtp)
  {
  }

  /** A successful send with a started, or startable, sync spends exactly one
    * sequence number and nonce and stamps the scheduled presentation time. */
  lemma SendAudioDelivers(c: Conn, packet: ScheduledPacket, hasBuffer: bool, bytes: nat, fate: SendFate)
    requires SendAudio(c, packet, hasBuffer, bytes, fate).1 == Done
    ensures var c' := SendAudio(c, packet, hasBuffer, bytes, fate).0;
      && c'.delivered == c.delivered + [packet]
      && (bytes != 0 ==>
            && c'.audio == c.audio + [AudioFor(c, packet.presentationTimestamp)]
            && c'.nextSequence == (c.nextSequence + 1) % U16
            && c'.nonce == (c.nonce + 1) % U64
            && !c'.firstAudio && c'.ssrc == c.ssrc)
  {
  }

  lemma SendAudioThrows(c: Conn, packet: ScheduledPacket, hasBuffer: bool, bytes: nat, fate: SendFate)
    requires SendAudio(c, packet, hasBuffer, bytes, fate).1.Thrown?
    ensures SendAudio(c, packet, hasBuffer, bytes, fate).0.delivered == c.delivered
    ensures SendAudio(c, packet, hasBuffer, bytes, fate).1.error == MissingAnchor
       <==> hasBuffer && bytes != 0 && !c.syncStarted && !packet.groupSyncAnchorValid
  {
  }

  lemma FlushConnKeeps(c: Conn, ok: bool)
    requires ConnOk(c)
    ensures ConnOk(FlushConn(c, ok).0)
  {
  }

  /** No nonce is used twice on a connection before 2^64 packets were built. */
  lemma NoncesAreUnique(c: Conn, i: nat, j: nat)
    requires Counted(c) && |c.audio| <= U64
    requires i < j < |c.audio|
    ensures c.audio[i].nonce != c.audio[j].nonce
    ensures c.audio[i].sequence == c.audio[i].nonce % U16
  {
  }

  /** The two RTP times of a sync packet: the presentation time itself, and two seconds
    * of frames later, which is what the audio packet made for it is stamped with. */
  lemma SyncClock(c: Conn, start: u64, first: bool, presentation: u64)
    ensures SyncFor(start, first, presentation).rtpNow == presentation % 0x1_0000_0000
    ensures SyncFor(start, first, presentation).rtpNext == (presentation + 88200) % 0x1_0000_0000
    ensures AudioFor(c, presentation).timestamp == (presentation + 88200) % 0x1_0000_0000
  {
    Mod64Then32(presentation + 88200);
    ModAdd(presentation + 88200, -88200, U32);
  }

  /** What an audio packet says about its stream: the marker on the first packet after
    * an open or a flush and on no other, and the session's SSRC or the default one. */
  lemma StreamStart(c: Conn, packet: ScheduledPacket, ok: bool)
    ensures var d := SendRtp(c, packet, ok).0; var p := d.audio[|c.audio|];
      && |d.audio| == |c.audio| + 1
      && (p.marker <==> c.firstAudio) && !d.firstAudio
      && p.ssrc == (if c.ssrc != 0 then c.ssrc else 0x46424d52)
    ensures FlushConn(c, ok).1 == Done ==> FlushConn(c, ok).0.firstAudio
    ensures FlushConn(c, ok).1.Thrown? ==> FlushConn(c, ok).0 == c
    ensures NewConn(c.streamUri, c.sessionId, c.ssrc, c.controlPort).firstAudio
  {
  }

  /** Frames written back to back advance the stamped RTP clock by one packet,
    * modulo 2^32, through any 64-bit or 32-bit wrap. */
  lemma TimestampAdvances(presentation: u64, later: u64, frames: nat)
    requires later == (presentation + frames) % U64
    ensures RtpTimestamp(later) == (RtpTimestamp(presentation) + frames) % U32
  {
    Mod64Then32(presentation + LATENCY_FRAMES);
    Mod64Then32(later + LATENCY_FRAMES);
    Mod64Then32(presentation + frames);
    ModAdd(later, LATENCY_FRAMES, U32);
    ModAdd(presentation + frames, LATENCY_FRAMES, U32);
    ModAdd(presentation + LATENCY_FRAMES, frames, U32);
  }

  class Connection {
    const streamUri: string
    const sessionId: string
    const ssrc: u32
    const controlPort: u16
    var syncStarted: bool
    var syncStartRtp: u64
    var firstAudio: bool
    var nextSequence: u16
    var nonce: u64
    var clockInitialized: bool
    var nextTimestamp: u32
    ghost var audio: seq<AudioPacket>
    ghost var syncs: seq<SyncPacket>
    ghost var delivered: seq<ScheduledPacket>

    ghost function Model(): Conn
      reads this
    {
      Conn(streamUri, sessionId, ssrc, controlPort, syncStarted, syncStartRtp, firstAudio, nextSequence,
           nonce, clockInitialized, nextTimestamp, audio, syncs, delivered)
    }

    constructor (streamUri: string, sessionId: string, ssrc: u32, controlPort: u16)
      ensures Model() == NewConn(streamUri, sessionId, ssrc, controlPort)
    {
      this.streamUri, this.sessionId, this.ssrc, this.controlPort := streamUri, sessionId, ssrc, controlPort;
      syncStarted, syncStartRtp, firstAudio := false, 0, true;
      nextSequence, nonce, clockInitialized, nextTimestamp := 0, 0, false, 0;
      audio, syncs, delivered := [], [], [];
    }

    method SendSyncPacket(first: bool, presentation: u64, ok: bool) returns (o: Outcome)
      modifies this
      ensures (Model(), o) == SendSync(old(Model()), first, presentation, ok)
    {
      if controlPort == 0 {
        return Done;
      }
      if !ok {
        return Thrown(SendFailed);
      }
      syncs := syncs + [SyncFor(syncStartRtp, first, presentation)];
      o := Done;
    }

    method EnsureSyncStarted(packet: ScheduledPacket, ok: bool) returns (o: Outcome)
      modifies this
      ensures (Model(), o) == EnsureSync(old(Model()), packet, ok)
    {
      if syncStarted {
        return Done;
      }
      if !packet.groupSyncAnchorValid {
        return Thrown(MissingAnchor);
      }
      syncStartRtp := packet.groupSyncStartRtp;
      syncStarted := true;
      o := SendSyncPacket(true, packet.presentationTimestamp, ok);
    }

    method SendAudioPacket(packet: ScheduledPacket, hasBuffer: bool, bytes: nat, fate: SendFate) returns (o: Outcome)
      modifies this
      ensures (Model(), o) == SendAudio(old(Model()), packet, hasBuffer, bytes, fate)
    {
      if !hasBuffer && bytes != 0 {
        return Thrown(NullBuffer);
      }
      if bytes == 0 {
        delivered := delivered + [packet];
        return Done;
      }
      o := EnsureSyncStarted(packet, fate.firstSyncOk);
      if o.Thrown? {
        return;
      }
      if fate.syncDue {
        o := SendSyncPacket(false, packet.presentationTimestamp, fate.syncOk);
        if o.Thrown? {
          return;
        }
      }
      o := SendRtpPacket(packet, fate.audioOk);
    }

    method SendRtpPacket(packet: ScheduledPacket, ok: bool) returns (o: Outcome)
      modifies this
      ensures (Model(), o) == SendRtp(old(Model()), packet, ok)
    {
      var timestamp := RtpTimestamp(packet.presentationTimestamp);
      audio := audio + [AudioFor(Model(), packet.presentationTimestamp)];
      nextSequence := (nextSequence + 1) % U16;
      firstAudio := false;
      nonce := (nonce + 1) % U64;
      if !ok {
        return Thrown(SendFailed);
      }
      clockInitialized := true;
      nextTimestamp := (timestamp + FRAMES_PER_PACKET) % U32;
      delivered := delivered + [packet];
      o := Done;
    }

    method Flush(ok: bool) returns (o: Outcome)
      modifies this
      ensures (Model(), o) == FlushConn(old(Model()), ok)
    {
      if streamUri == "" {
        return Thrown(NoStreamUri);
      }
      if !ok {
        return Thrown(RequestFailed);
      }
      syncStarted := false;
      syncStartRtp := 0;
      firstAudio := true;
      syncs, delivered := [], [];
      o := Done;
    }
  }
}
