/**
 * The engine above the transport: it turns byte counts into a frame cursor and
 * stamps every write with it. Engine is the state as a value; the class below
 * owns the transport and is proved to follow the functions.
 */
module StreamEngine {
  import opened Common
  import opened Devices
  import opened KeyOrder
  import opened Registry
  import opened Scheduler
  import opened Receiver
  import opened Sessions
  import opened GroupSync
  import opened Transport

  datatype Engine = Engine(group: Group, format: PcmFormat, cursor: u64, streamOpen: bool)

  const NEW_ENGINE := Engine(EMPTY_GROUP, NO_FORMAT, 0, false)

  function ValidatePcm(f: PcmFormat): Outcome {
    if ZeroFormat(f) || f.bitsPerSample % 8 != 0 then Thrown(BadFormat) else Done
  }

  function BytesPerFrame(f: PcmFormat): nat { f.channels * (f.bitsPerSample / 8) }

  function Open(e: Engine, format: PcmFormat): (Engine, Outcome) {
    if ValidatePcm(format).Thrown? then (e, ValidatePcm(format))
    else
      var (g, o) := OpenStream(e.group, format);
      (Engine(g, format, 0, e.streamOpen || o == Done), o)
  }

  /** The cursor moves before the transport is called, so it moves even when the
    * write is then refused by the transport. */
  function WritePcm(e: Engine, hasBuffer: bool, bytes: nat, now: u64, fates: nat -> SendFate): (Engine, Outcome) {
    if !e.streamOpen then (e, Thrown(StreamClosed))
    else if !hasBuffer && bytes != 0 then (e, Thrown(NullBuffer))
    else if ValidatePcm(e.format).Thrown? || BytesPerFrame(e.format) == 0 then (e, Thrown(BadFormat))
    else if bytes % BytesPerFrame(e.format) != 0 then (e, Thrown(PartialFrame))
    else
      var (g, o) := WriteFrames(e.group, hasBuffer, bytes, e.cursor, now, fates);
      (e.(group := g, cursor := (e.cursor + bytes / BytesPerFrame(e.format)) % U64), o)
  }

  /** The cursor restarts even when a receiver refuses the flush. */
  function FlushStream(e: Engine, oks: Id -> bool): (Engine, Outcome) {
    var (g, o) := FlushGroup(e.group, oks);
    (e.(group := g, cursor := 0), o)
  }

  function StopStream(e: Engine, oks: Id -> bool): Engine {
    Engine(StopGroup(e.group, oks), e.format, 0, false)
  }

  datatype Call =
    | CallOpen(format: PcmFormat)
    | CallWrite(hasBuffer: bool, bytes: nat, now: u64, sendFates: nat -> SendFate)
    | CallFlush(oks: Id -> bool)
    | CallStop(oks: Id -> bool)
    | CallTransport(op: Op)     // selection, connection, user settings, discovery

  /** Calls the engine passes straight through. */
  predicate PassThrough(op: Op) { !op.OpOpenStream? && !op.OpWrite? && !op.OpFlush? && !op.OpStop? }

  function Apply(e: Engine, call: Call): (Engine, Outcome) {
    match call
    case CallOpen(f) => Open(e, f)
    case CallWrite(hasBuffer, bytes, now, fates) => WritePcm(e, hasBuffer, bytes, now, fates)
    case CallFlush(oks) => FlushStream(e, oks)
    case CallStop(oks) => (StopStream(e, oks), Done)
    case CallTransport(op) => var (g, o) := Step(e.group, op); (e.(group := g), o)
  }

  function Play(e: Engine, calls: seq<Call>): Engine
    decreases |calls|
  {
    if calls == [] then e else Play(Apply(e, calls[0]).0, calls[1..])
  }

  /** What the host promises: a stream is opened only while none is open. */
  predicate LegalCall(e: Engine, call: Call) {
    && (call.CallOpen? ==> !e.streamOpen)
    && (call.CallTransport? ==> PassThrough(call.op))
  }

  predicate LegalPlay(e: Engine, calls: seq<Call>)
    decreases |calls|
  {
    calls == [] || (LegalCall(e, calls[0]) && LegalPlay(Apply(e, calls[0]).0, calls[1..]))
  }

  // ---- the invariant of a played history

  ghost predicate EngineOk(e: Engine) {
    && GroupOk(e.group) && Coherent(e.group)
    && e.streamOpen == e.group.streamOpen
    && (e.streamOpen ==> e.format == e.group.format && ValidatePcm(e.format) == Done)
    && (!e.streamOpen ==> ReadyIds(e.group.net) == {})
  }

  lemma {:induction false} PrepareAddsNoReady(n: Net, outputs: seq<OutputDevice>, i: nat, cancels: nat -> bool)
    requires i <= |outputs|
    ensures ReadyIds(PrepareFrom(n, outputs, i, cancels).0) <= ReadyIds(n)
    decreases |outputs| - i
  {
    if i == |outputs| {
    } else {
      PrepareAddsNoReady(PrepareOne(n, outputs[i], cancels(i)).0, outputs, i + 1, cancels);
    }
  }

  lemma {:induction false} FlushAddsNoReady(n: Net, pending: set<Id>, oks: Id -> bool)
    requires pending <= n.sessions.Keys
    ensures ReadyIds(FlushFrom(n, pending, oks).0) == ReadyIds(n)
    decreases |pending|
  {
    if pending == {} {
    } else {
      var k := Least(pending);
      var (m, o) := FlushOne(n, k, oks(k));
      assert ReadyIds(m) == ReadyIds(n);
      if o == Done { FlushAddsNoReady(m, pending - {k}, oks); }
    }
  }

  lemma ReconcileAddsNoReady(n: Net, outputs: seq<OutputDevice>, cancels: nat -> bool)
    ensures ReadyIds(Reconcile(n, outputs, cancels).0) <= ReadyIds(n)
  {
    PrepareAddsNoReady(n, outputs, 0, cancels);
  }

  lemma SetEnabledAddsNoReady(g: Group, ids: seq<Id>, cancels: nat -> bool)
    ensures ReadyIds(SetEnabled(g, ids, cancels).0.net) <= ReadyIds(g.net)
    ensures SetEnabled(g, ids, cancels).0.streamOpen == g.streamOpen
  {
    var s := Synced(g);
    ReconcileAddsNoReady(
      s.net, ListOf(WithSelection(s.registry, (set id | id in ResolveIds(s.registry, ids)))), cancels);
  }

  /** Without an open stream no call but open can make a receiver Ready. */
  lemma ClosedStaysQuiet(g: Group, op: Op)
    requires !g.streamOpen && ReadyIds(g.net) == {} && !op.OpOpenStream?
    ensures !Step(g, op).0.streamOpen && ReadyIds(Step(g, op).0.net) == {}
  {
    match op
    case OpFlush(oks) => FlushAddsNoReady(g.net, g.net.sessions.Keys, oks);
    case OpSetEnabled(ids, cancels) => SetEnabledAddsNoReady(g, ids, cancels);
    case _ =>
  }

  lemma StreamFlagKept(g: Group, op: Op)
    requires PassThrough(op) || op.OpWrite? || op.OpFlush?
    ensures Step(g, op).0.streamOpen == g.streamOpen && Step(g, op).0.format == g.format
  {
  }

  lemma ApplyKeeps(e: Engine, call: Call)
    requires EngineOk(e) && LegalCall(e, call)
    ensures EngineOk(Apply(e, call).0)
  {
    match call
    case CallOpen(f) => OpenKeepsEngine(e, f);
    case CallWrite(hasBuffer, bytes, now, fates) => WriteKeepsEngine(e, hasBuffer, bytes, now, fates);
    case CallFlush(oks) => PassKeeps(e, OpFlush(oks));
    case CallStop(oks) => StopKeepsEngine(e, oks);
    case CallTransport(op) => PassKeeps(e, op);
  }

  lemma WriteKeepsEngine(e: Engine, hasBuffer: bool, bytes: nat, now: u64, fates: nat -> SendFate)
    requires EngineOk(e)
    ensures EngineOk(WritePcm(e, hasBuffer, bytes, now, fates).0)
    ensures var o := WritePcm(e, hasBuffer, bytes, now, fates).1;
      o != Thrown(NotReady) && o != Thrown(NoConnection) && o != Thrown(MissingAnchor)
  {
    WriteKeeps(e.group, hasBuffer, bytes, e.cursor, now, fates);
    StreamFlagKept(e.group, OpWrite(hasBuffer, bytes, e.cursor, now, fates));
  }

  lemma StopKeepsEngine(e: Engine, oks: Id -> bool)
    requires EngineOk(e)
    ensures EngineOk(StopStream(e, oks))
  {
    StopKeeps(e.group, oks);
    StopLeavesNothingReady(MetadataKeys(e.group.net, e.group.net.sessions.Keys, oks));
  }

  lemma PassKeeps(e: Engine, op: Op)
    requires EngineOk(e) && (PassThrough(op) || op.OpFlush?)
    ensures EngineOk(e.(group := Step(e.group, op).0))
  {
    StepKeeps(e.group, op);
    StreamFlagKept(e.group, op);
    if !e.streamOpen { ClosedStaysQuiet(e.group, op); }
  }

  lemma OpenKeepsEngine(e: Engine, format: PcmFormat)
    requires EngineOk(e) && !e.streamOpen
    ensures EngineOk(Open(e, format).0)
  {
    NothingReadyNothingStarted(e.group.net);
    OpenStreamKeeps(e.group, format);
  }

  lemma {:induction false} PlayKeeps(e: Engine, calls: seq<Call>)
    requires EngineOk(e) && LegalPlay(e, calls)
    ensures EngineOk(Play(e, calls))
    decreases |calls|
  {
    if calls == [] {
    } else {
      ApplyKeeps(e, calls[0]);
      PlayKeeps(Apply(e, calls[0]).0, calls[1..]);
    }
  }

  /** Every history in which the host opens and stops in turn keeps the group
    * coherent, whatever fails in between. */
  lemma PlaybackIsCoherent(calls: seq<Call>)
    requires LegalPlay(NEW_ENGINE, calls)
    ensures EngineOk(Play(NEW_ENGINE, calls))
  {
    PlayKeeps(NEW_ENGINE, calls);
  }

  // ---- which formats and byte counts are taken

  predicate WholeBytes(bits: nat, bytes: nat) { bits == 8 * bytes }

  /** A stream opens exactly with a rate, a channel and a sample of whole bytes. Then
    * the engine and the transport have the format, the cursor is 0 and the anchor is
    * to be taken anew; otherwise nothing changes. */
  lemma OpensIffWholeBytes(e: Engine, f: PcmFormat)
    ensures var (h, o) := Open(e, f);
      if f.sampleRate > 0 && f.channels > 0 && exists bytes: nat :: bytes > 0 && WholeBytes(f.bitsPerSample, bytes)
      then o == Done && h.streamOpen && h.format == f && h.cursor == 0
        && h.group == e.group.(format := f, streamOpen := true, anchorValid := false, anchor := 0)
      else o == Thrown(BadFormat) && h == e
  {
    var bits := f.bitsPerSample as nat;
    if bits % 8 == 0 { assert WholeBytes(bits, bits / 8); }
    if bytes: nat :| WholeBytes(bits, bytes) { assert bits % 8 == 0; }
  }

  lemma FrameSize(f: PcmFormat, size: nat)
    requires ValidatePcm(f) == Done && 8 * size == f.channels * f.bitsPerSample
    ensures BytesPerFrame(f) == size
  {
    var whole := f.bitsPerSample / 8;
    assert 8 * (f.channels * whole) == f.channels * (8 * whole);
  }

  /** A write needs an open stream and, for any bytes, a buffer. It is counted in frames
    * of channels * bits / 8 bytes: a rest is refused, and every refusal changes nothing;
    * without a rest the cursor moves by the frames and the transport is given the
    * position it had before. */
  lemma WriteCountsFrames(
    e: Engine, hasBuffer: bool, bytes: nat, now: u64, fates: nat -> SendFate, size: nat, frames: nat, rest: nat)
    requires EngineOk(e)
    requires 8 * size == e.format.channels * e.format.bitsPerSample
    requires bytes == frames * size + rest && rest < size
    ensures var (h, o) := WritePcm(e, hasBuffer, bytes, now, fates);
      && (!e.streamOpen ==> (h, o) == (e, Thrown(StreamClosed)))
      && (e.streamOpen && !hasBuffer && bytes > 0 ==> (h, o) == (e, Thrown(NullBuffer)))
      && (e.streamOpen && (hasBuffer || bytes == 0) && rest > 0 ==> (h, o) == (e, Thrown(PartialFrame)))
      && (e.streamOpen && (hasBuffer || bytes == 0) && rest == 0 ==>
            && h.cursor == (e.cursor + frames) % 0x1_0000_0000_0000_0000
            && (h.group, o) == WriteFrames(e.group, hasBuffer, bytes, e.cursor, now, fates))
  {
    if e.streamOpen {
      FrameSize(e.format, size);
      ModUnique(bytes, size, frames, rest);
    }
  }

  // ---- contiguity of one receiver's RTP packets

  lemma {:induction false} EnqueueTouchesOnly(
    n: Net, packets: seq<ScheduledPacket>, i: nat, hasBuffer: bool, bytes: nat, fates: nat -> SendFate, k: Id)
    requires i <= |packets| && SessionsOk(n)
    requires forall j :: i <= j < |packets| ==> packets[j].outputId in ReadyIds(n) && packets[j].outputId != k
    ensures Unchanged(n, EnqueueFrom(n, packets, i, hasBuffer, bytes, fates).0, k)
    decreases |packets| - i
  {
    if i == |packets| {
    } else {
      EnqueueDelivers(n, packets[i], hasBuffer, bytes, fates(i));
      EnqueueOk(n, packets[i], hasBuffer, bytes, fates(i));
      EnqueueTouchesOnly(Enqueue(n, packets[i], hasBuffer, bytes, fates(i)).0, packets, i + 1, hasBuffer, bytes, fates, k);
    }
  }

  ghost predicate UniqueTargets(packets: seq<ScheduledPacket>) {
    forall i, j :: 0 <= i < j < |packets| ==> packets[i].outputId != packets[j].outputId
  }

  /** The receiver a packet is addressed to has sent exactly one more audio packet. */
  ghost predicate SentOnce(n: Net, m: Net, p: ScheduledPacket) {
    && p.outputId in n.conns && p.outputId in m.conns
    && m.conns[p.outputId].audio
         == n.conns[p.outputId].audio + [AudioFor(n.conns[p.outputId], p.presentationTimestamp)]
  }

  lemma SentLater(n: Net, m: Net, end: Net, p: ScheduledPacket)
    requires Unchanged(n, m, p.outputId) && SentOnce(m, end, p)
    ensures SentOnce(n, end, p)
  {
  }

  /** The turn that addresses k, then the turns that do not. */
  lemma EnqueueHere(
    n: Net, packets: seq<ScheduledPacket>, i: nat, hasBuffer: bool, bytes: nat, fates: nat -> SendFate)
    requires i < |packets| && SessionsOk(n) && UniqueTargets(packets) && bytes != 0
    requires AllReady(n, packets, i)
    requires EnqueueFrom(n, packets, i, hasBuffer, bytes, fates).1 == Done
    ensures SentOnce(n, EnqueueFrom(n, packets, i, hasBuffer, bytes, fates).0, packets[i])
  {
    var k := packets[i].outputId;
    EnqueueDelivers(n, packets[i], hasBuffer, bytes, fates(i));
    EnqueueOk(n, packets[i], hasBuffer, bytes, fates(i));
    SendAudioDelivers(n.conns[k], packets[i], hasBuffer, bytes, fates(i));
    EnqueueTouchesOnly(Enqueue(n, packets[i], hasBuffer, bytes, fates(i)).0, packets, i + 1, hasBuffer, bytes, fates, k);
  }

  ghost predicate AllReady(n: Net, packets: seq<ScheduledPacket>, i: nat) {
    forall l :: i <= l < |packets| ==> packets[l].outputId in ReadyIds(n)
  }

  /** A round of sends from packet i on that returns, and the state it ends in. */
  ghost predicate Round(
    n: Net, packets: seq<ScheduledPacket>, i: nat, hasBuffer: bool, bytes: nat, fates: nat -> SendFate, end: Net)
    requires i <= |packets|
  {
    && SessionsOk(n) && AllReady(n, packets, i)
    && EnqueueFrom(n, packets, i, hasBuffer, bytes, fates) == (end, Done)
  }

  lemma RoundStep(
    n: Net, packets: seq<ScheduledPacket>, i: nat, hasBuffer: bool, bytes: nat, fates: nat -> SendFate, end: Net, k: Id)
    returns (m: Net)
    requires i < |packets| && Round(n, packets, i, hasBuffer, bytes, fates, end) && packets[i].outputId != k
    ensures Round(m, packets, i + 1, hasBuffer, bytes, fates, end) && Unchanged(n, m, k)
  {
    m := Enqueue(n, packets[i], hasBuffer, bytes, fates(i)).0;
    EnqueueDelivers(n, packets[i], hasBuffer, bytes, fates(i));
    EnqueueOk(n, packets[i], hasBuffer, bytes, fates(i));
  }

  /** Such a round gives each addressed receiver one audio packet. */
  lemma {:induction false} EnqueueSendsOnce(
    n: Net, packets: seq<ScheduledPacket>, i: nat, hasBuffer: bool, bytes: nat, fates: nat -> SendFate, end: Net, j: nat)
    requires i <= j < |packets| && UniqueTargets(packets) && bytes != 0
    requires Round(n, packets, i, hasBuffer, bytes, fates, end)
    ensures SentOnce(n, end, packets[j])
    decreases |packets| - i
  {
    if i == j {
      EnqueueHere(n, packets, i, hasBuffer, bytes, fates);
    } else {
      var m := RoundStep(n, packets, i, hasBuffer, bytes, fates, end, packets[j].outputId);
      EnqueueSendsOnce(m, packets, i + 1, hasBuffer, bytes, fates, end, j);
      SentLater(n, m, end, packets[j]);
    }
  }

  /** k is a ready target with the given offset, which does not saturate now. */
  ghost predicate TargetAt(e: Engine, k: Id, offsetMs: i32) {
    && e.streamOpen && k in e.group.registry && k in ReadyIds(e.group.net)
    && e.group.registry[k].selected && e.group.registry[k].offsetMs == offsetMs
    && 0 <= e.cursor + FramesForMs(offsetMs, e.format.sampleRate) < U64
  }

  /** The packets of a write: one per target, and one of them is for k. */
  lemma PacketForTarget(registry: Outputs, ready: set<Id>, request: Request, k: Id) returns (j: nat)
    requires RegistryOk(registry) && k in registry && registry[k].selected && k in ready
    ensures var packets := Scheduled(Targets(ListOf(registry), ready), request);
      && UniqueTargets(packets)
      && (forall l :: 0 <= l < |packets| ==> packets[l].outputId in ready)
      && j < |packets| && packets[j] == PacketFor(registry[k], request)
  {
    var targets := Targets(ListOf(registry), ready);
    ListIsComplete(registry);
    TargetsAreReady(ListOf(registry), ready);
    TargetsUnique(ListOf(registry), ready);
    assert registry[k] in targets;
    j :| 0 <= j < |targets| && targets[j] == registry[k];
    PacketsMatchTargets(targets, request);
  }

  lemma PacketsMatchTargets(targets: seq<OutputDevice>, request: Request)
    requires forall o: OutputDevice :: o in targets ==> o.selected
    ensures var packets := Scheduled(targets, request);
      |packets| == |targets| && forall l :: 0 <= l < |packets| ==> packets[l] == PacketFor(targets[l], request)
  {
    assert forall i :: 0 <= i < |targets| ==> targets[i] in targets;
    if targets != [] { ScheduledAt(targets, request, 0); }
    forall l | 0 <= l < |targets| ensures Scheduled(targets, request)[l] == PacketFor(targets[l], request) {
      ScheduledAt(targets, request, l);
    }
  }

  /** One successful write of whole packets: the target's connection sends one
    * audio packet stamped from the cursor and the offset. */
  lemma WriteSendsOnce(g: Group, bytes: nat, cursor: u64, now: u64, fates: nat -> SendFate, k: Id)
    requires SessionsOk(g.net) && RegistryOk(g.registry) && bytes != 0
    requires k in g.registry && g.registry[k].selected && k in ReadyIds(g.net)
    requires WriteFrames(g, true, bytes, cursor, now, fates).1 == Done
    ensures var m := WriteFrames(g, true, bytes, cursor, now, fates).0.net;
      var due := PacketFor(g.registry[k], RequestFor(Anchoring(g, cursor, now), bytes, cursor));
      && k in g.net.conns && k in m.conns
      && m.conns[k].audio == g.net.conns[k].audio + [AudioFor(g.net.conns[k], due.presentationTimestamp)]
  {
    var request := RequestFor(Anchoring(g, cursor, now), bytes, cursor);
    var packets := Scheduled(Targets(ListOf(g.registry), ReadyIds(g.net)), request);
    var j := PacketForTarget(g.registry, ReadyIds(g.net), request, k);
    EnqueueSendsOnce(g.net, packets, 0, true, bytes, fates, EnqueueFrom(g.net, packets, 0, true, bytes, fates).0, j);
  }

  /** A transport call between two writes that does not take k away: the selection
    * still holds k afterwards, and a connect finds k's session reusable (Ready, same
    * endpoint, same format). Other receivers may join, fail and leave. */
  ghost predicate LeavesAlone(g: Group, op: Op, k: Id) {
    PassThrough(op) && match op
      case OpSetEnabled(_, _) => StillSelected(Step(g, op).0.registry, k)
      case OpConnect(_, _) => StillSelected(g.registry, k) ==> Reusable(g.net, g.registry[k], g.format)
      case _ => true
  }

  predicate StillSelected(registry: Outputs, k: Id) { k in registry && registry[k].selected }

  /** Whole-packet writes that all succeed while k stays a target at one offset,
    * with calls in between that leave k alone. */
  ghost predicate Streaming(e: Engine, calls: seq<Call>, k: Id, offsetMs: i32)
    decreases |calls|
  {
    calls == [] || (
      && (calls[0].CallWrite? || (calls[0].CallTransport? && LeavesAlone(e.group, calls[0].op, k)))
      && (calls[0].CallWrite? ==>
            && TargetAt(e, k, offsetMs) && calls[0].hasBuffer
            && calls[0].bytes == FRAMES_PER_PACKET * BytesPerFrame(e.format)
            && Apply(e, calls[0]).1 == Done)
      && Streaming(Apply(e, calls[0]).0, calls[1..], k, offsetMs))
  }

  function Writes(calls: seq<Call>): nat {
    if calls == [] then 0 else (if calls[0].CallWrite? then 1 else 0) + Writes(calls[1..])
  }

  /** The RTP time of the i-th packet after a cursor position. */
  function Stamp(cursor: int, offsetFrames: int, i: int): u32 {
    (cursor + offsetFrames + LATENCY_FRAMES + FRAMES_PER_PACKET * i) % U32
  }

  lemma StampShift(cursor: u64, offsetFrames: int, i: nat)
    ensures Stamp((cursor + FRAMES_PER_PACKET) % U64, offsetFrames, i) == Stamp(cursor, offsetFrames, i + 1)
  {
    var c := cursor + FRAMES_PER_PACKET;
    var rest := offsetFrames + LATENCY_FRAMES + FRAMES_PER_PACKET * i;
    Mod64Then32(c);
    ModAdd(c % U64, rest, U32);
    ModAdd(c, rest, U32);
  }

  lemma StampIsRtp(cursor: u64, offsetFrames: int)
    requires 0 <= cursor + offsetFrames < U64
    ensures RtpTimestamp(cursor + offsetFrames) == Stamp(cursor, offsetFrames, 0)
  {
    Mod64Then32(cursor + offsetFrames + LATENCY_FRAMES);
  }

  /** The audio packets a run of writes adds to a connection. */
  ghost predicate Contiguous(before: Conn, after: Conn, cursor: int, offsetFrames: int, n: nat) {
    && |after.audio| == |before.audio| + n
    && before.audio <= after.audio
    && forall i :: 0 <= i < n ==> NumberedAt(after.audio[|before.audio| + i], |before.audio| + i, Stamp(cursor, offsetFrames, i))
  }

  predicate NumberedAt(p: AudioPacket, index: nat, timestamp: u32) {
    p.sequence == index % U16 && p.nonce == index % U64 && p.timestamp == timestamp
  }

  ghost predicate OneMore(before: Conn, after: Conn, timestamp: u32) {
    && |after.audio| == |before.audio| + 1 && before.audio <= after.audio
    && NumberedAt(after.audio[|before.audio|], |before.audio|, timestamp)
  }

  lemma ContiguousCons(before: Conn, mid: Conn, after: Conn, cursor: u64, offsetFrames: int, n: nat)
    requires OneMore(before, mid, Stamp(cursor, offsetFrames, 0))
    requires Contiguous(mid, after, (cursor + FRAMES_PER_PACKET) % U64, offsetFrames, n)
    ensures Contiguous(before, after, cursor, offsetFrames, n + 1)
  {
    forall i | 0 <= i < n + 1
      ensures NumberedAt(after.audio[|before.audio| + i], |before.audio| + i, Stamp(cursor, offsetFrames, i))
    {
      if i > 0 {
        StampShift(cursor, offsetFrames, i - 1);
        assert NumberedAt(after.audio[|mid.audio| + (i - 1)], |mid.audio| + (i - 1),
                          Stamp((cursor + FRAMES_PER_PACKET) % U64, offsetFrames, i - 1));
      }
    }
  }

  lemma ConnectLeavesAlone(g: Group, fates: nat -> OpenFate, oks: Id -> bool, k: Id)
    requires RegistryOk(g.registry)
    requires StillSelected(g.registry, k) ==> Reusable(g.net, g.registry[k], g.format)
    ensures SameConnection(g.net, ConnectSelected(g, fates, oks).0.net, k)
  {
    var outputs := ListOf(g.registry);
    ListIsComplete(g.registry);
    forall j | 0 <= j < |outputs| && outputs[j].selected && outputs[j].id == k
      ensures Reusable(g.net, outputs[j], g.format)
    {
      assert outputs[j] in outputs;
    }
    OpenKeepsConnection(g.net, outputs, 0, g.format, fates, 0, 0, 0, k);
  }

  lemma {:induction false} PrepareKeepsConnections(n: Net, outputs: seq<OutputDevice>, i: nat, cancels: nat -> bool)
    requires i <= |outputs|
    requires forall j :: j in n.sessions ==> n.sessions[j].outputId == j
    ensures var m := PrepareFrom(n, outputs, i, cancels).0;
      m.conns == n.conns && forall j :: j in m.sessions ==> m.sessions[j].outputId == j
    decreases |outputs| - i
  {
    if i == |outputs| {
    } else {
      PrepareKeepsConnections(PrepareOne(n, outputs[i], cancels(i)).0, outputs, i + 1, cancels);
    }
  }

  /** Closing what is not selected spares the connection of a selected output. */
  lemma ReconcileLeavesAlone(n: Net, outputs: seq<OutputDevice>, cancels: nat -> bool, k: Id)
    requires SessionsOk(n) && k in SelectedIds(outputs)
    ensures SameConnection(n, Reconcile(n, outputs, cancels).0, k)
  {
    forall j | j in n.sessions ensures n.sessions[j].outputId == j { assert SessionOk(n, j); }
    PrepareKeepsConnections(n, outputs, 0, cancels);
  }

  lemma SetEnabledLeavesAlone(g: Group, ids: seq<Id>, cancels: nat -> bool, k: Id)
    requires GroupOk(g) && StillSelected(SetEnabled(g, ids, cancels).0.registry, k)
    ensures SameConnection(g.net, SetEnabled(g, ids, cancels).0.net, k)
  {
    SyncedOk(g);
    var s := Synced(g);
    var chosen := set id | id in ResolveIds(s.registry, ids);
    if chosen <= s.registry.Keys {
      SelectEnds(s.registry, chosen);
      var listed := ListOf(WithSelection(s.registry, chosen));
      ListIsComplete(WithSelection(s.registry, chosen));
      assert WithSelection(s.registry, chosen)[k] in listed;
      ReconcileLeavesAlone(g.net, listed, cancels, k);
    }
  }

  lemma LeftAlone(g: Group, op: Op, k: Id)
    requires GroupOk(g) && LeavesAlone(g, op, k)
    ensures SameConnection(g.net, Step(g, op).0.net, k)
  {
    match op
    case OpConnect(fates, oks) => ConnectLeavesAlone(g, fates, oks, k);
    case OpSetEnabled(ids, cancels) => SetEnabledLeavesAlone(g, ids, cancels, k);
    case _ =>
  }

  lemma CursorStep(e: Engine, call: Call)
    requires ValidatePcm(e.format) == Done && call.CallWrite? && Apply(e, call).1 == Done
    requires call.bytes == FRAMES_PER_PACKET * BytesPerFrame(e.format)
    ensures Apply(e, call).0.cursor == (e.cursor + FRAMES_PER_PACKET) % U64 && Apply(e, call).0.format == e.format
    ensures call.bytes != 0
  {
    ModUnique(call.bytes, BytesPerFrame(e.format), FRAMES_PER_PACKET, 0);
  }

  lemma SentIsOneMore(before: Conn, after: Conn, cursor: u64, offsetFrames: int)
    requires ConnOk(before) && 0 <= cursor + offsetFrames < U64
    requires after.audio == before.audio + [AudioFor(before, cursor + offsetFrames)]
    ensures OneMore(before, after, Stamp(cursor, offsetFrames, 0))
  {
    StampIsRtp(cursor, offsetFrames);
  }

  /** A successful write, seen from a target whose offset does not saturate. */
  lemma WriteStamps(g: Group, bytes: nat, cursor: u64, now: u64, fates: nat -> SendFate, k: Id)
    requires SessionsOk(g.net) && RegistryOk(g.registry) && bytes != 0
    requires k in g.registry && g.registry[k].selected && k in ReadyIds(g.net)
    requires 0 <= cursor + FramesForMs(g.registry[k].offsetMs, g.format.sampleRate) < U64
    requires WriteFrames(g, true, bytes, cursor, now, fates).1 == Done
    ensures var m := WriteFrames(g, true, bytes, cursor, now, fates).0.net;
      && k in g.net.conns && k in m.conns
      && OneMore(g.net.conns[k], m.conns[k], Stamp(cursor, FramesForMs(g.registry[k].offsetMs, g.format.sampleRate), 0))
  {
    WriteSendsOnce(g, bytes, cursor, now, fates, k);
    PacketTimes(g.registry[k], RequestFor(Anchoring(g, cursor, now), bytes, cursor));
    SentIsOneMore(g.net.conns[k], WriteFrames(g, true, bytes, cursor, now, fates).0.net.conns[k], cursor,
                  FramesForMs(g.registry[k].offsetMs, g.format.sampleRate));
  }

  lemma WriteGoesThrough(e: Engine, bytes: nat, now: u64, fates: nat -> SendFate)
    requires WritePcm(e, true, bytes, now, fates).1 == Done
    ensures WriteFrames(e.group, true, bytes, e.cursor, now, fates).1 == Done
    ensures WritePcm(e, true, bytes, now, fates).0.group == WriteFrames(e.group, true, bytes, e.cursor, now, fates).0
  {
  }

  /** The first write of a streaming run, seen from its target. */
  lemma StreamingWrite(e: Engine, call: Call, k: Id, offsetMs: i32)
    requires SessionsOk(e.group.net) && RegistryOk(e.group.registry) && e.format == e.group.format
    requires call.CallWrite? && call.hasBuffer && call.bytes != 0 && TargetAt(e, k, offsetMs)
    requires Apply(e, call).1 == Done
    ensures var f := Apply(e, call).0;
      && k in e.group.net.conns && k in f.group.net.conns
      && OneMore(e.group.net.conns[k], f.group.net.conns[k], Stamp(e.cursor, FramesForMs(offsetMs, e.format.sampleRate), 0))
  {
    WriteGoesThrough(e, call.bytes, call.now, call.sendFates);
    WriteStamps(e.group, call.bytes, e.cursor, call.now, call.sendFates, k);
  }

  /** One call of a streaming run: what it does to k's connection and the cursor. */
  ghost predicate StreamedOn(e: Engine, f: Engine, call: Call, k: Id, offsetMs: i32) {
    && k in e.group.net.conns && k in f.group.net.conns && f.format == e.format
    && (call.CallWrite? ==>
          && f.cursor == (e.cursor + FRAMES_PER_PACKET) % U64
          && OneMore(e.group.net.conns[k], f.group.net.conns[k],
                     Stamp(e.cursor, FramesForMs(offsetMs, e.format.sampleRate), 0)))
    && (!call.CallWrite? ==> f.cursor == e.cursor && f.group.net.conns[k] == e.group.net.conns[k])
  }

  lemma StreamingStep(e: Engine, calls: seq<Call>, k: Id, offsetMs: i32)
    requires EngineOk(e) && k in e.group.net.conns && calls != [] && Streaming(e, calls, k, offsetMs)
    ensures StreamedOn(e, Apply(e, calls[0]).0, calls[0], k, offsetMs)
    ensures EngineOk(Apply(e, calls[0]).0) && Streaming(Apply(e, calls[0]).0, calls[1..], k, offsetMs)
  {
    ApplyKeeps(e, calls[0]);
    if calls[0].CallWrite? {
      CursorStep(e, calls[0]);
      StreamingWrite(e, calls[0], k, offsetMs);
    } else {
      LeftAlone(e.group, calls[0].op, k);
      StreamFlagKept(e.group, calls[0].op);
    }
  }

  /** Every call of the run does that. */
  ghost predicate StreamedAll(e: Engine, calls: seq<Call>, k: Id, offsetMs: i32)
    decreases |calls|
  {
    && k in e.group.net.conns
    && (calls == [] || (
          && StreamedOn(e, Apply(e, calls[0]).0, calls[0], k, offsetMs)
          && StreamedAll(Apply(e, calls[0]).0, calls[1..], k, offsetMs)))
  }

  lemma {:induction false} StreamingStreams(e: Engine, calls: seq<Call>, k: Id, offsetMs: i32)
    requires EngineOk(e) && k in e.group.net.conns && Streaming(e, calls, k, offsetMs)
    ensures StreamedAll(e, calls, k, offsetMs)
    decreases |calls|
  {
    if calls == [] {
    } else {
      StreamingStep(e, calls, k, offsetMs);
      StreamingStreams(Apply(e, calls[0]).0, calls[1..], k, offsetMs);
    }
  }

  lemma ContiguousStep(e: Engine, f: Engine, h: Engine, call: Call, k: Id, offsetMs: i32, n: nat)
    requires StreamedOn(e, f, call, k, offsetMs) && k in h.group.net.conns
    requires Contiguous(f.group.net.conns[k], h.group.net.conns[k], f.cursor, FramesForMs(offsetMs, f.format.sampleRate), n)
    ensures Contiguous(e.group.net.conns[k], h.group.net.conns[k], e.cursor, FramesForMs(offsetMs, e.format.sampleRate),
                       n + if call.CallWrite? then 1 else 0)
  {
    if call.CallWrite? {
      ContiguousCons(e.group.net.conns[k], f.group.net.conns[k], h.group.net.conns[k], e.cursor,
                     FramesForMs(offsetMs, e.format.sampleRate), n);
    }
  }

  lemma {:induction false} StreamedIsContiguous(e: Engine, calls: seq<Call>, k: Id, offsetMs: i32)
    requires StreamedAll(e, calls, k, offsetMs)
    ensures k in Play(e, calls).group.net.conns
    ensures Contiguous(e.group.net.conns[k], Play(e, calls).group.net.conns[k], e.cursor,
                       FramesForMs(offsetMs, e.format.sampleRate), Writes(calls))
    decreases |calls|
  {
    if calls == [] {
    } else {
      var f := Apply(e, calls[0]).0;
      StreamedIsContiguous(f, calls[1..], k, offsetMs);
      ContiguousStep(e, f, Play(f, calls[1..]), calls[0], k, offsetMs, Writes(calls[1..]));
    }
  }

  /** The stream position n packets further on. */
  function Moved(cursor: int, n: nat): u64 { (cursor + FRAMES_PER_PACKET * n) % U64 }

  lemma MovedOn(cursor: u64, n: nat)
    ensures Moved(Moved(cursor, 1), n) == Moved(cursor, n + 1)
    ensures Moved(cursor, 0) == cursor
  {
    ModAdd(cursor + FRAMES_PER_PACKET, FRAMES_PER_PACKET * n, U64);
  }

  lemma {:induction false} StreamedMoves(e: Engine, calls: seq<Call>, k: Id, offsetMs: i32)
    requires StreamedAll(e, calls, k, offsetMs)
    ensures Play(e, calls).cursor == Moved(e.cursor, Writes(calls))
    decreases |calls|
  {
    if calls == [] {
      MovedOn(e.cursor, 0);
    } else {
      StreamedMoves(Apply(e, calls[0]).0, calls[1..], k, offsetMs);
      MovedOn(e.cursor, Writes(calls[1..]));
    }
  }

  /** Between flushes each receiver's packets are contiguous: sequence numbers
    * step by one modulo 2^16, nonces by one modulo 2^64, timestamps by one
    * packet of frames modulo 2^32, through every wrap; and the cursor ends at the
    * frame after the last one written. */
  lemma RtpContiguity(e: Engine, calls: seq<Call>, k: Id, offsetMs: i32)
    requires EngineOk(e) && k in e.group.net.conns && Streaming(e, calls, k, offsetMs)
    ensures k in Play(e, calls).group.net.conns
    ensures Contiguous(e.group.net.conns[k], Play(e, calls).group.net.conns[k], e.cursor,
                       FramesForMs(offsetMs, e.format.sampleRate), Writes(calls))
    ensures Play(e, calls).cursor == Moved(e.cursor, Writes(calls))
  {
    StreamingStreams(e, calls, k, offsetMs);
    StreamedIsContiguous(e, calls, k, offsetMs);
    StreamedMoves(e, calls, k, offsetMs);
  }

  lemma NothingReadyNothingStarted(n: Net)
    requires ReadyIds(n) == {}
    ensures NoSyncStarted(n)
  {
    forall k ensures !Starting(n, k) { assert k !in ReadyIds(n); }
  }

  class MultiroomEngine {
    const transport: AirPlayTransport
    var format: PcmFormat
    var cursor: u64
    var streamOpen: bool

    /** What every call keeps: the transport's own invariant, the engine and the
      * transport agree on the stream, and without a stream no receiver is Ready. */
    ghost predicate Valid()
      reads this, transport, transport.discovery, transport.registry, transport.sessions, transport.sessions.client,
            transport.sessions.client.connections.Values
    {
      transport.Linked() && EngineOk(Model())
    }

    ghost function Model(): Engine
      reads this, transport, transport.discovery, transport.registry, transport.sessions, transport.sessions.client,
            transport.sessions.client.connections.Values
    {
      Engine(transport.Model(), format, cursor, streamOpen)
    }

    constructor (numeric: string -> bool)
      ensures Valid() && fresh(transport) && Model() == NEW_ENGINE
    {
      transport := new AirPlayTransport(numeric);
      format, cursor, streamOpen := NO_FORMAT, 0, false;
    }

    /** The host opens a stream only while none is open. */
    method OpenStream(f: PcmFormat) returns (o: Outcome)
      requires Valid() && !streamOpen
      modifies this, transport
      ensures Valid()
      ensures (Model(), o) == Open(old(Model()), f)
    {
      OpenKeepsEngine(Model(), f);
      NothingReadyNothingStarted(transport.Model().net);
      o := OpenTransport(f);
    }

    method OpenTransport(f: PcmFormat) returns (o: Outcome)
      requires transport.Valid() && NoSyncStarted(transport.Model().net)
      modifies this, transport
      ensures transport.Linked()
      ensures (Model(), o) == Open(old(Model()), f)
    {
      if ValidatePcm(f).Thrown? {
        return ValidatePcm(f);
      }
      StartClock(f);
      ghost var e := Model();
      o := transport.OpenStream(f);
      assert Model() == e.(group := transport.Model());
      if o == Done {
        streamOpen := true;
      }
    }

    method StartClock(f: PcmFormat)
      modifies `format, `cursor
      ensures Model() == old(Model()).(format := f, cursor := 0)
    {
      format := f;
      cursor := 0;
    }

    method RestartCursor()
      modifies `cursor
      ensures Model() == old(Model()).(cursor := 0)
    {
      cursor := 0;
    }

    method CloseClock()
      modifies `streamOpen, `cursor
      ensures Model() == old(Model()).(streamOpen := false, cursor := 0)
    {
      streamOpen := false;
      cursor := 0;
    }

    /** The timestamp returned is the stream position of the first frame written. */
    method WriteInterleavedPcm(hasBuffer: bool, bytes: nat, now: u64, fates: nat -> SendFate)
      returns (o: Outcome, timestamp: u64)
      requires Valid()
      modifies this, transport, transport.sessions, transport.sessions.client.connections.Values
      ensures Valid()
      ensures (Model(), o) == WritePcm(old(Model()), hasBuffer, bytes, now, fates)
      ensures timestamp == old(cursor)
      ensures o != Thrown(NotReady) && o != Thrown(NoConnection) && o != Thrown(MissingAnchor)
    {
      WriteKeepsEngine(Model(), hasBuffer, bytes, now, fates);
      o, timestamp := WriteTransport(hasBuffer, bytes, now, fates);
    }

    method WriteTransport(hasBuffer: bool, bytes: nat, now: u64, fates: nat -> SendFate)
      returns (o: Outcome, timestamp: u64)
      requires transport.Valid()
      modifies this, transport, transport.sessions, transport.sessions.client.connections.Values
      ensures transport.Linked()
      ensures (Model(), o) == WritePcm(old(Model()), hasBuffer, bytes, now, fates)
      ensures timestamp == old(cursor)
    {
      timestamp := cursor;
      if !streamOpen {
        return Thrown(StreamClosed), timestamp;
      }
      if !hasBuffer && bytes != 0 {
        return Thrown(NullBuffer), timestamp;
      }
      var frameBytes := BytesPerFrame(format);
      if ValidatePcm(format).Thrown? || frameBytes == 0 {
        return Thrown(BadFormat), timestamp;
      }
      if bytes % frameBytes != 0 {
        return Thrown(PartialFrame), timestamp;
      }
      o := SendFrames(hasBuffer, bytes, bytes / frameBytes, now, fates);
    }

    /** The cursor moves on before the transport is called. */
    method SendFrames(hasBuffer: bool, bytes: nat, frames: nat, now: u64, fates: nat -> SendFate) returns (o: Outcome)
      requires transport.Valid()
      modifies this, transport, transport.sessions, transport.sessions.client.connections.Values
      ensures transport.Linked()
      ensures var (g, r) := WriteFrames(old(transport.Model()), hasBuffer, bytes, old(cursor), now, fates);
        o == r && Model() == old(Model()).(group := g, cursor := (old(cursor) + frames) % U64)
    {
      var timestamp := cursor;
      Advance(frames);
      ghost var e := Model();
      o := transport.WriteFrames(hasBuffer, bytes, timestamp, now, fates);
      assert Model() == e.(group := transport.Model());
    }

    method Advance(frames: nat)
      modifies `cursor
      ensures cursor == (old(cursor) + frames) % U64
    {
      cursor := (cursor + frames) % U64;
    }

    method Flush(oks: Id -> bool) returns (o: Outcome)
      requires Valid()
      modifies this, transport, transport.sessions, transport.sessions.client.connections.Values
      ensures Valid()
      ensures (Model(), o) == FlushStream(old(Model()), oks)
    {
      ApplyKeeps(Model(), CallFlush(oks));
      o := FlushTransport(oks);
    }

    method FlushTransport(oks: Id -> bool) returns (o: Outcome)
      requires transport.Valid()
      modifies this, transport, transport.sessions, transport.sessions.client.connections.Values
      ensures transport.Linked()
      ensures (Model(), o) == FlushStream(old(Model()), oks)
    {
      RestartCursor();
      ghost var e := Model();
      o := transport.Flush(oks);
      assert Model() == e.(group := transport.Model());
    }

    method Stop(oks: Id -> bool)
      requires Valid()
      modifies this, transport, transport.sessions, transport.sessions.client
      ensures Valid()
      ensures Model() == StopStream(old(Model()), oks)
    {
      StopKeepsEngine(Model(), oks);
      StopTransport(oks);
    }

    method StopTransport(oks: Id -> bool)
      requires transport.Valid()
      modifies this, transport, transport.sessions, transport.sessions.client
      ensures transport.Linked()
      ensures Model() == StopStream(old(Model()), oks)
    {
      CloseClock();
      ghost var e := Model();
      transport.Stop(oks);
      assert Model() == e.(group := transport.Model());
    }
  }
}
