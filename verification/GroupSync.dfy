/**
 * The AirPlay transport over all receivers: one lazily captured sync anchor
 * shared by sessions that open, fail, close, are reused and flush on their own.
 * Group is the state as a value; Step is one public call; Run a whole history.
 */
module GroupSync {
  import opened Common
  import opened Devices
  import opened KeyOrder
  import opened Registry
  import opened Identity
  import opened Scheduler
  import opened Receiver
  import opened Sessions
  import Timing

  datatype Group = Group(
    devices: Outputs,
    registry: Outputs,
    net: Net,
    format: PcmFormat,
    streamOpen: bool,
    anchorValid: bool,
    anchor: u64,
    hasMetadata: bool)

  const EMPTY_GROUP := Group(map[], map[], Net(map[], map[], false, []), NO_FORMAT, false, false, 0, false)

  const MINIMUM_LEAD_MS: u32 := 250

  predicate ZeroFormat(f: PcmFormat) { f.sampleRate == 0 || f.channels == 0 || f.bitsPerSample == 0 }

  function Synced(g: Group): Group { g.(registry := Sync(g.registry, g.devices)) }

  function WithNet(g: Group, r: (Net, Outcome)): (Group, Outcome) { (g.(net := r.0), r.1) }

  function OpenStream(g: Group, format: PcmFormat): (Group, Outcome) {
    if ZeroFormat(format) then (g, Thrown(BadFormat))
    else (g.(format := format, streamOpen := true, anchorValid := false, anchor := 0), Done)
  }

  function ConnectSelected(g: Group, fates: nat -> OpenFate, metadataOks: Id -> bool): (Group, Outcome) {
    if !g.streamOpen then (g, Done)
    else
      var (m, o) := OpenForOutputs(g.net, ListOf(g.registry), g.format, fates);
      if o.Thrown? then (g.(net := m), o)
      else (g.(net := MetadataKeys(m, m.sessions.Keys, metadataOks)), Done)
  }

  /** The selected outputs that have a ready session, in registry order. */
  function Targets(outputs: seq<OutputDevice>, ready: set<Id>): seq<OutputDevice> {
    if outputs == [] then []
    else (if outputs[0].selected && outputs[0].id in ready then [outputs[0]] else []) + Targets(outputs[1..], ready)
  }

  function SelectedCount(outputs: seq<OutputDevice>): nat {
    if outputs == [] then 0 else (if outputs[0].selected then 1 else 0) + SelectedCount(outputs[1..])
  }

  /** The first write of a timeline fixes the anchor: the RTP time of stream frame 0. */
  function Anchoring(g: Group, streamTimestamp: u64, now: u64): Group {
    if g.anchorValid then g
    else g.(anchorValid := true, anchor := (Timing.NtpToRtp(now, g.format.sampleRate) - streamTimestamp) % U64)
  }

  function RequestFor(g: Group, bytes: nat, streamTimestamp: u64): Request {
    Request(streamTimestamp, bytes, g.format.sampleRate, MINIMUM_LEAD_MS, g.anchor, g.anchorValid)
  }

  function WriteFrames(
    g: Group, hasBuffer: bool, bytes: nat, streamTimestamp: u64, now: u64, fates: nat -> SendFate): (Group, Outcome)
  {
    if !g.streamOpen then (g, Thrown(StreamClosed))
    else if !hasBuffer && bytes != 0 then (g, Thrown(NullBuffer))
    else
      var outputs := ListOf(g.registry);
      var targets := Targets(outputs, ReadyIds(g.net));
      if SelectedCount(outputs) != 0 && targets == [] then (g, Thrown(NoReadyOutput))
      else WriteTo(g, targets, hasBuffer, bytes, streamTimestamp, now, fates)
  }

  function WriteTo(
    g: Group, targets: seq<OutputDevice>, hasBuffer: bool, bytes: nat, streamTimestamp: u64, now: u64,
    fates: nat -> SendFate): (Group, Outcome)
  {
    var a := Anchoring(g, streamTimestamp, now);
    WithNet(a, EnqueueFrom(a.net, Scheduled(targets, RequestFor(a, bytes, streamTimestamp)), 0, hasBuffer, bytes, fates))
  }

  /** A flush that throws leaves the anchor as it was. */
  function FlushGroup(g: Group, oks: Id -> bool): (Group, Outcome) {
    var (m, o) := Sessions.Flush(g.net, oks);
    if o.Thrown? then (g.(net := m), o) else (g.(net := m, anchorValid := false, anchor := 0), Done)
  }

  function StopGroup(g: Group, metadataOks: Id -> bool): Group {
    g.(net := StopAll(MetadataKeys(g.net, g.net.sessions.Keys, metadataOks)),
       streamOpen := false, anchorValid := false, anchor := 0)
  }

  function ResolveIds(registry: Outputs, ids: seq<Id>): seq<Id> {
    seq(|ids|, i requires 0 <= i < |ids| => Resolve(registry, ids[i]))
  }

  function SetEnabled(g: Group, ids: seq<Id>, cancels: nat -> bool): (Group, Outcome) {
    EnableOn(Synced(g), ids, cancels)
  }

  function EnableOn(s: Group, ids: seq<Id>, cancels: nat -> bool): (Group, Outcome) {
    EnableExactly(s, (set id | id in ResolveIds(s.registry, ids)), cancels)
  }

  function EnableExactly(s: Group, ids: set<Id>, cancels: nat -> bool): (Group, Outcome) {
    if !(ids <= s.registry.Keys) then (s, Thrown(UnknownOutput)) else Select(s, ids, cancels)
  }

  function Select(g: Group, ids: set<Id>, cancels: nat -> bool): (Group, Outcome) {
    var selected := WithSelection(g.registry, ids);
    WithNet(g.(registry := selected), Reconcile(g.net, ListOf(selected), cancels))
  }

  /** prepare_outputs, then close_missing_outputs unless it threw. */
  function Reconcile(n: Net, outputs: seq<OutputDevice>, cancels: nat -> bool): (Net, Outcome) {
    var (m, o) := PrepareFrom(n, outputs, 0, cancels);
    if o.Thrown? then (m, o) else (CloseMissing(m, outputs), Done)
  }

  function SetVolume(g: Group, id: Id, volume: i32, ok: bool): (Group, Outcome) { VolumeOn(Synced(g), id, volume, ok) }

  function WithVolume(s: Group, id: Id, volume: i32): Group
    requires id in s.registry
  {
    s.(registry := s.registry[id := s.registry[id].(volume := ClampVolume(volume))])
  }

  function VolumeOn(s: Group, id: Id, volume: i32, ok: bool): (Group, Outcome) {
    VolumeAt(s, Resolve(s.registry, id), volume, ok)
  }

  function VolumeAt(s: Group, r: Id, volume: i32, ok: bool): (Group, Outcome) {
    if r !in s.registry then (s, Thrown(UnknownOutput)) else (WithVolume(s, r, volume), VolumeOutcome(s.net, r, ok))
  }

  function SetOffset(g: Group, id: Id, offsetMs: i32): (Group, Outcome) { OffsetOn(Synced(g), id, offsetMs) }

  function OffsetOn(s: Group, id: Id, offsetMs: i32): (Group, Outcome) {
    var r := Resolve(s.registry, id);
    if r !in s.registry then (s, Thrown(UnknownOutput))
    else (s.(registry := s.registry[r := s.registry[r].(offsetMs := ClampOffset(offsetMs))]), Done)
  }

  function SetMetadata(g: Group, present: bool, oks: Id -> bool): Group {
    g.(hasMetadata := present, net := MetadataKeys(g.net, g.net.sessions.Keys, oks))
  }

  /** A discovery refresh: some announcements, then the sync. Announcements
    * without an id are rejected one by one. */
  function Discover(g: Group, announced: seq<OutputDevice>, numeric: string -> bool): Group {
    Synced(g.(devices := UpsertAll(g.devices, WithIds(announced), numeric)))
  }

  function WithIds(announced: seq<OutputDevice>): (r: seq<OutputDevice>)
    ensures forall d: OutputDevice :: d in r ==> d.id != NO_ID
  {
    if announced == [] then []
    else (if announced[0].id == NO_ID then [] else [announced[0]]) + WithIds(announced[1..])
  }

  lemma DiscoverOne(g: Group, device: OutputDevice, numeric: string -> bool)
    requires device.id != NO_ID
    ensures Discover(g, [device], numeric) == Synced(g.(devices := Upsert(g.devices, device, numeric)))
  {
    assert [device][1..] == [];
    assert WithIds([device]) == [device];
    assert [device][..0] == [];
    assert UpsertAll(g.devices, [device], numeric) == Upsert(g.devices, device, numeric);
  }

  // ---- runs

  datatype Op =
    | OpOpenStream(format: PcmFormat)
    | OpConnect(fates: nat -> OpenFate, metadataOks: Id -> bool)
    | OpWrite(hasBuffer: bool, bytes: nat, streamTimestamp: u64, now: u64, sendFates: nat -> SendFate)
    | OpFlush(oks: Id -> bool)
    | OpStop(metadataOks: Id -> bool)
    | OpSetEnabled(ids: seq<Id>, cancels: nat -> bool)
    | OpSetVolume(id: Id, volume: i32, ok: bool)
    | OpSetOffset(id: Id, offsetMs: i32)
    | OpSetMetadata(present: bool, oks: Id -> bool)
    | OpDiscover(announced: seq<OutputDevice>, numeric: string -> bool)
    | OpCancelPendingOpen
    | OpResetPendingOpenCancel

  function Step(g: Group, op: Op): (Group, Outcome) {
    match op
    case OpOpenStream(f) => OpenStream(g, f)
    case OpConnect(fates, oks) => ConnectSelected(g, fates, oks)
    case OpWrite(hasBuffer, bytes, ts, now, fates) => WriteFrames(g, hasBuffer, bytes, ts, now, fates)
    case OpFlush(oks) => FlushGroup(g, oks)
    case OpStop(oks) => (StopGroup(g, oks), Done)
    case OpSetEnabled(ids, cancels) => SetEnabled(g, ids, cancels)
    case OpSetVolume(id, volume, ok) => SetVolume(g, id, volume, ok)
    case OpSetOffset(id, ms) => SetOffset(g, id, ms)
    case OpSetMetadata(present, oks) => (SetMetadata(g, present, oks), Done)
    case OpDiscover(ds, numeric) => (Discover(g, ds, numeric), Done)
    case OpCancelPendingOpen => (g.(net := g.net.(cancelRequested := true)), Done)
    case OpResetPendingOpenCancel => (g.(net := g.net.(cancelRequested := false)), Done)
  }

  function Run(g: Group, ops: seq<Op>): Group
    decreases |ops|
  {
    if ops == [] then g else Run(Step(g, ops[0]).0, ops[1..])
  }

  /** The one demand on callers: a stream is opened only when no Ready receiver
    * still has a started sync, which stopping first guarantees. */
  ghost predicate LegalRun(g: Group, ops: seq<Op>)
    decreases |ops|
  {
    ops == [] || (
      && (ops[0].OpOpenStream? ==> NoSyncStarted(g.net))
      && LegalRun(Step(g, ops[0]).0, ops[1..]))
  }

  // ---- the invariant

  /** Structure: holds after every call, normal or throwing, legal or not. */
  ghost predicate GroupOk(g: Group) {
    && RegistryOk(g.registry)
    && KeysAreIds(g.devices)
    && SessionsOk(g.net)
    && (g.streamOpen ==> g.format.sampleRate != 0)
  }

  /** Timing: every Ready receiver that has started sync started from the anchor. */
  ghost predicate Coherent(g: Group) { Anchored(g.net, g.anchorValid, g.anchor) }

  lemma SyncedOk(g: Group)
    requires GroupOk(g)
    ensures GroupOk(Synced(g))
  {
    SyncAgrees(g.registry, g.devices);
  }

  lemma {:induction false} TargetsAreReady(outputs: seq<OutputDevice>, ready: set<Id>)
    ensures forall o: OutputDevice :: o in Targets(outputs, ready) <==> o in outputs && o.selected && o.id in ready
  {
    if outputs == [] {
    } else {
      assert outputs == [outputs[0]] + outputs[1..];
      TargetsAreReady(outputs[1..], ready);
    }
  }

  lemma {:induction false} TargetsUnique(outputs: seq<OutputDevice>, ready: set<Id>)
    requires UniqueIds(outputs)
    ensures UniqueIds(Targets(outputs, ready))
  {
    if outputs == [] {
    } else {
      var rest := Targets(outputs[1..], ready);
      TargetsUnique(outputs[1..], ready);
      TargetsAreReady(outputs[1..], ready);
      forall j | 0 <= j < |rest| ensures rest[j].id != outputs[0].id {
        assert rest[j] in rest;
        var i :| 0 <= i < |outputs[1..]| && outputs[1..][i] == rest[j];
        assert outputs[i + 1] == rest[j];
      }
    }
  }

  /** The packets of one write: one per target, all carrying the anchor. */
  lemma PacketsCarryAnchor(g: Group, bytes: nat, streamTimestamp: u64, outputs: seq<OutputDevice>, ready: set<Id>, j: nat)
    requires j < |Scheduled(Targets(outputs, ready), RequestFor(g, bytes, streamTimestamp))|
    ensures |Scheduled(Targets(outputs, ready), RequestFor(g, bytes, streamTimestamp))| == |Targets(outputs, ready)|
    ensures var p := Scheduled(Targets(outputs, ready), RequestFor(g, bytes, streamTimestamp))[j];
      && p == PacketFor(Targets(outputs, ready)[j], RequestFor(g, bytes, streamTimestamp))
      && p.outputId == Targets(outputs, ready)[j].id && p.outputId in ready
      && p.groupSyncAnchorValid == g.anchorValid && p.groupSyncStartRtp == g.anchor
  {
    var targets := Targets(outputs, ready);
    TargetsAreReady(outputs, ready);
    assert forall i :: 0 <= i < |targets| ==> targets[i] in targets;
    if targets != [] { ScheduledAt(targets, RequestFor(g, bytes, streamTimestamp), 0); }
    ScheduledAt(targets, RequestFor(g, bytes, streamTimestamp), j);
  }

  /** Every packet of a write may go out a quarter of a second, and what its receiver was
    * measured to need beyond, before its presentation time. */
  lemma LeadOfWrites(g: Group, output: OutputDevice, bytes: nat, streamTimestamp: u64)
    requires g.format.sampleRate == 44100 && 0 <= output.measuredLatencyMs <= 10000
    ensures PacketFor(output, RequestFor(g, bytes, streamTimestamp)).leadFrames
         == ((250 + output.measuredLatencyMs) * 441) / 10
  {
    PacketTimes(output, RequestFor(g, bytes, streamTimestamp));
  }

  lemma WriteKeeps(g: Group, hasBuffer: bool, bytes: nat, streamTimestamp: u64, now: u64, fates: nat -> SendFate)
    requires GroupOk(g) && Coherent(g)
    ensures var (h, o) := WriteFrames(g, hasBuffer, bytes, streamTimestamp, now, fates);
      && GroupOk(h) && Coherent(h)
      && o != Thrown(NotReady) && o != Thrown(NoConnection) && o != Thrown(MissingAnchor)
  {
    var outputs := ListOf(g.registry);
    var a := Anchoring(g, streamTimestamp, now);
    var packets := Scheduled(Targets(outputs, ReadyIds(g.net)), RequestFor(a, bytes, streamTimestamp));
    forall k ensures AnchoredAt(a.net, k, true, a.anchor) {
      assert AnchoredAt(g.net, k, g.anchorValid, g.anchor);
    }
    forall j | 0 <= j < |packets|
      ensures packets[j].groupSyncAnchorValid && packets[j].groupSyncStartRtp == a.anchor
           && packets[j].outputId in ReadyIds(a.net)
    {
      PacketsCarryAnchor(a, bytes, streamTimestamp, outputs, ReadyIds(g.net), j);
    }
    EnqueueFromKeeps(a.net, packets, 0, hasBuffer, bytes, fates, a.anchor);
  }

  lemma ConnectKeeps(g: Group, fates: nat -> OpenFate, oks: Id -> bool)
    requires GroupOk(g) && Coherent(g)
    ensures GroupOk(ConnectSelected(g, fates, oks).0) && Coherent(ConnectSelected(g, fates, oks).0)
  {
    if g.streamOpen && ValidateFormat(g.format) == Done {
      OpenKeeps(g.net, ListOf(g.registry), 0, g.format, fates, 0, 0, 0, g.anchorValid, g.anchor);
      var m := OpenForOutputs(g.net, ListOf(g.registry), g.format, fates).0;
      MetadataKeeps(m, m.sessions.Keys, oks, g.anchorValid, g.anchor);
    }
  }

  /** Whether or not the flush got through to everyone, coherence holds after it. */
  lemma FlushKeeps(g: Group, oks: Id -> bool)
    requires GroupOk(g) && Coherent(g)
    ensures GroupOk(FlushGroup(g, oks).0) && Coherent(FlushGroup(g, oks).0)
    ensures FlushGroup(g, oks).1 == Done ==> NoSyncStarted(FlushGroup(g, oks).0.net)
  {
    FlushFromKeeps(g.net, g.net.sessions.Keys, oks, g.anchorValid, g.anchor);
    var (h, o) := FlushGroup(g, oks);
    if o == Done {
      forall k ensures !Starting(h.net, k) {
        if k in h.net.sessions { assert Flushed(g.net, h.net, k); }
      }
    }
  }

  lemma StopKeeps(g: Group, oks: Id -> bool)
    requires GroupOk(g)
    ensures GroupOk(StopGroup(g, oks)) && Coherent(StopGroup(g, oks)) && NoSyncStarted(StopGroup(g, oks).net)
  {
    var m := g.net;
    forall k | k in m.sessions ensures SessionOk(m, k) { assert SessionOk(g.net, k); }
    var c := MetadataKeys(m, m.sessions.Keys, oks);
    forall k | k in c.sessions ensures SessionOk(c, k) { assert SessionOk(m, k); }
    CloseOk(c, c.sessions.Keys);
    StopLeavesNothingReady(c);
  }

  lemma ReconcileKeeps(n: Net, outputs: seq<OutputDevice>, cancels: nat -> bool, valid: bool, anchor: u64)
    requires SessionsOk(n) && Anchored(n, valid, anchor)
    ensures SessionsOk(Reconcile(n, outputs, cancels).0) && Anchored(Reconcile(n, outputs, cancels).0, valid, anchor)
  {
    PrepareKeeps(n, outputs, 0, cancels, valid, anchor);
    var m := PrepareFrom(n, outputs, 0, cancels).0;
    CloseKeeps(m, m.sessions.Keys - SelectedIds(outputs), valid, anchor);
  }

  lemma SetEnabledKeeps(g: Group, ids: seq<Id>, cancels: nat -> bool)
    requires GroupOk(g) && Coherent(g)
    ensures GroupOk(SetEnabled(g, ids, cancels).0) && Coherent(SetEnabled(g, ids, cancels).0)
  {
    SyncedOk(g);
    var s := Synced(g);
    SelectKeeps(s, (set id | id in ResolveIds(s.registry, ids)), cancels);
  }

  lemma SelectKeeps(g: Group, ids: set<Id>, cancels: nat -> bool)
    requires GroupOk(g) && Coherent(g)
    ensures GroupOk(Select(g, ids, cancels).0) && Coherent(Select(g, ids, cancels).0)
  {
    SelectEnds(g.registry, ids);
    ReconcileKeeps(g.net, ListOf(WithSelection(g.registry, ids)), cancels, g.anchorValid, g.anchor);
  }

  lemma DiscoverKeeps(g: Group, announced: seq<OutputDevice>, numeric: string -> bool)
    requires GroupOk(g) && Coherent(g)
    ensures GroupOk(Discover(g, announced, numeric)) && Coherent(Discover(g, announced, numeric))
  {
    NoIdentityForgotten(g.devices, WithIds(announced), numeric, Id("x"));
    SyncAgrees(g.registry, UpsertAll(g.devices, WithIds(announced), numeric));
  }

  lemma SetVolumeKeeps(g: Group, id: Id, volume: i32, ok: bool)
    requires GroupOk(g) && Coherent(g)
    ensures GroupOk(SetVolume(g, id, volume, ok).0) && Coherent(SetVolume(g, id, volume, ok).0)
  {
    SyncedOk(g);
    var s := Synced(g);
    var r := Resolve(s.registry, id);
    if r in s.registry { PutKeepsRegistryOk(s.registry, s.registry[r].(volume := ClampVolume(volume))); }
  }

  lemma SetOffsetKeeps(g: Group, id: Id, offsetMs: i32)
    requires GroupOk(g) && Coherent(g)
    ensures GroupOk(SetOffset(g, id, offsetMs).0) && Coherent(SetOffset(g, id, offsetMs).0)
  {
    SyncedOk(g);
    var s := Synced(g);
    var r := Resolve(s.registry, id);
    if r in s.registry { PutKeepsRegistryOk(s.registry, s.registry[r].(offsetMs := ClampOffset(offsetMs))); }
  }

  lemma OpenStreamKeeps(g: Group, format: PcmFormat)
    requires GroupOk(g) && Coherent(g) && (ZeroFormat(format) || NoSyncStarted(g.net))
    ensures GroupOk(OpenStream(g, format).0) && Coherent(OpenStream(g, format).0)
  {
    if !ZeroFormat(format) { OpenStreamCoherentIff(g, format); }
  }

  lemma SetMetadataKeeps(g: Group, present: bool, oks: Id -> bool)
    requires GroupOk(g) && Coherent(g)
    ensures GroupOk(SetMetadata(g, present, oks)) && Coherent(SetMetadata(g, present, oks))
  {
    MetadataKeeps(g.net, g.net.sessions.Keys, oks, g.anchorValid, g.anchor);
  }

  lemma CancelKeeps(g: Group, requested: bool)
    requires GroupOk(g) && Coherent(g)
    ensures GroupOk(g.(net := g.net.(cancelRequested := requested)))
    ensures Coherent(g.(net := g.net.(cancelRequested := requested)))
  {
    SameTablesKeep(g.net, g.net.(cancelRequested := requested), g.anchorValid, g.anchor);
  }

  /** One public call keeps structure and timing, on every normal and throwing path. */
  lemma StepKeeps(g: Group, op: Op)
    requires GroupOk(g) && Coherent(g)
    requires op.OpOpenStream? ==> NoSyncStarted(g.net)
    ensures GroupOk(Step(g, op).0) && Coherent(Step(g, op).0)
  {
    match op
    case OpOpenStream(f) => OpenStreamKeeps(g, f);
    case OpConnect(fates, oks) => ConnectKeeps(g, fates, oks);
    case OpWrite(hasBuffer, bytes, ts, now, fates) => WriteKeeps(g, hasBuffer, bytes, ts, now, fates);
    case OpFlush(oks) => FlushKeeps(g, oks);
    case OpStop(oks) => StopKeeps(g, oks);
    case OpSetEnabled(ids, cancels) => SetEnabledKeeps(g, ids, cancels);
    case OpSetVolume(id, volume, ok) => SetVolumeKeeps(g, id, volume, ok);
    case OpSetOffset(id, ms) => SetOffsetKeeps(g, id, ms);
    case OpSetMetadata(present, oks) => SetMetadataKeeps(g, present, oks);
    case OpDiscover(ds, numeric) => DiscoverKeeps(g, ds, numeric);
    case OpCancelPendingOpen => CancelKeeps(g, true);
    case OpResetPendingOpenCancel => CancelKeeps(g, false);
  }

  /** Group sync coherence over every legal history from the start. */
  lemma {:induction false} RunKeeps(g: Group, ops: seq<Op>)
    requires GroupOk(g) && Coherent(g) && LegalRun(g, ops)
    ensures GroupOk(Run(g, ops)) && Coherent(Run(g, ops))
    decreases |ops|
  {
    if ops == [] {
    } else {
      StepKeeps(g, ops[0]);
      RunKeeps(Step(g, ops[0]).0, ops[1..]);
    }
  }

  lemma GroupSyncCoherence(ops: seq<Op>)
    requires LegalRun(EMPTY_GROUP, ops)
    ensures GroupOk(Run(EMPTY_GROUP, ops)) && Coherent(Run(EMPTY_GROUP, ops))
  {
    RunKeeps(EMPTY_GROUP, ops);
  }

  /** The condition on open_stream is exact: the new stream is coherent if and
    * only if no Ready receiver still has a started sync. */
  lemma OpenStreamCoherentIff(g: Group, format: PcmFormat)
    requires !ZeroFormat(format)
    ensures Coherent(OpenStream(g, format).0) <==> NoSyncStarted(g.net)
  {
    var h := OpenStream(g, format).0;
    if NoSyncStarted(g.net) {
      forall k ensures AnchoredAt(h.net, k, false, 0) { assert !Starting(g.net, k); }
    } else {
      var k :| Starting(g.net, k);
      assert !AnchoredAt(h.net, k, false, 0);
    }
  }

  // ---- a stream opened over a started sync

  const RECEIVER: OutputDevice := Announcement("a", "Den", "h")
  const SELECTED: OutputDevice := RECEIVER.(selected := true)
  const NO_CANCELS: nat -> bool := (i: nat) => false
  const OPENED: nat -> OpenFate :=
    (i: nat) => OpenFate(false, Some(NegotiatedText.Negotiated("1", "rtsp://h/1", "", [], NO_PORTS, 1, 1)), true)
  const ANSWERED: Id -> bool := (id: Id) => true
  const SENT: nat -> SendFate := (i: nat) => SendFate(true, true, true, true)

  /** One receiver is discovered, selected and connected, and a packet is written to it. */
  function FirstStream(numeric: string -> bool): seq<Op> {
    [OpDiscover([RECEIVER], numeric), OpSetEnabled([RECEIVER.id], NO_CANCELS), OpOpenStream(STREAM_FORMAT),
     OpConnect(OPENED, ANSWERED), OpWrite(true, 1408, 0, 0, SENT)]
  }

  lemma ListOfOne(d: OutputDevice)
    ensures ListOf(map[d.id := d]) == [d]
  {
    var m := map[d.id := d];
    LeastIsLeast({d.id});
    assert m.Keys == {d.id};
    assert ListFrom(m, {d.id} - {d.id}) == [];
  }

  lemma ReceiverIsSynced(registry: Outputs)
    requires registry == map[] || registry == map[RECEIVER.id := RECEIVER]
    ensures Sync(registry, map[RECEIVER.id := RECEIVER]) == map[RECEIVER.id := RECEIVER]
  {
    var devices := map[RECEIVER.id := RECEIVER];
    var after := Sync(registry, devices);
    SyncAgrees(registry, devices);
    UserStateOrigin(registry, devices, RECEIVER.id);
    assert SyncedAt(after, registry, devices, RECEIVER.id);
    assert UserStateOf(after[RECEIVER.id]) == UserStateOf(RECEIVER);
    assert after[RECEIVER.id] == RECEIVER;
  }

  lemma Discovered(numeric: string -> bool)
    ensures var g := Discover(EMPTY_GROUP, [RECEIVER], numeric);
      g == EMPTY_GROUP.(devices := map[RECEIVER.id := RECEIVER], registry := map[RECEIVER.id := RECEIVER])
  {
    DiscoverOne(EMPTY_GROUP, RECEIVER, numeric);
    FirstOfAll(RECEIVER, numeric);
    ReceiverIsSynced(map[]);
  }

  lemma Selects(g: Group)
    requires g.devices == g.registry == map[RECEIVER.id := RECEIVER]
    requires g.net == Net(map[], map[], false, [])
    ensures var h := SetEnabled(g, [RECEIVER.id], NO_CANCELS).0;
      && h == g.(registry := map[RECEIVER.id := SELECTED], net := h.net)
      && h.net.conns == map[] && !h.net.cancelRequested
  {
    ReceiverIsSynced(g.registry);
    var ids := [RECEIVER.id];
    LeastIsLeast({RECEIVER.id});
    assert g.registry.Keys == {RECEIVER.id};
    assert Resolve(g.registry, RECEIVER.id) == RECEIVER.id;
    assert ResolveIds(g.registry, ids) == ids;
    assert (set id | id in ids) == {RECEIVER.id};
    assert WithSelection(g.registry, {RECEIVER.id}) == map[RECEIVER.id := SELECTED];
    ListOfOne(SELECTED);
    PreparesOne(g.net);
  }

  lemma PreparesOne(n: Net)
    requires n == Net(map[], map[], false, [])
    ensures var r := Reconcile(n, [SELECTED], NO_CANCELS); r.0.conns == map[] && !r.0.cancelRequested
  {
    var m := PrepareOne(n, SELECTED, NO_CANCELS(0)).0;
    assert PrepareFrom(n, [SELECTED], 0, NO_CANCELS) == PrepareFrom(m, [SELECTED], 1, NO_CANCELS) == (m, Done);
  }

  lemma Connects(g: Group)
    requires g.registry == map[RECEIVER.id := SELECTED] && g.streamOpen && g.format == STREAM_FORMAT
    requires GroupOk(g) && !g.net.cancelRequested
    ensures var h := ConnectSelected(g, OPENED, ANSWERED).0;
      && RECEIVER.id in ReadyIds(h.net) && h == g.(net := h.net)
  {
    ListOfOne(SELECTED);
    var outputs := [SELECTED];
    OpenReadyIff(g.net, outputs, 0, g.format, OPENED, 0, 0, 0, 0);
    PartialOpenIsIsolated(g.net, outputs, g.format, OPENED);
    var m := OpenForOutputs(g.net, outputs, g.format, OPENED).0;
    assert IsReady(m.sessions[RECEIVER.id]);
  }

  lemma OnePacket(ready: set<Id>, r: Request)
    requires RECEIVER.id in ready
    ensures Targets([SELECTED], ready) == [SELECTED]
    ensures Scheduled([SELECTED], r) == [PacketFor(SELECTED, r)]
  {
    assert [SELECTED][1..] == [];
  }

  lemma SendStarts(n: Net, p: ScheduledPacket)
    requires SessionsOk(n) && p.outputId in ReadyIds(n) && p.groupSyncAnchorValid
    ensures Starting(EnqueueFrom(n, [p], 0, true, 1408, SENT).0, p.outputId)
  {
    EnqueueDelivers(n, p, true, 1408, SENT(0));
    var m := Enqueue(n, p, true, 1408, SENT(0)).0;
    assert EnqueueFrom(n, [p], 0, true, 1408, SENT) == EnqueueFrom(m, [p], 1, true, 1408, SENT) == (m, Done);
  }

  lemma Starts(g: Group)
    requires g.registry == map[RECEIVER.id := SELECTED] && g.streamOpen
    requires SessionsOk(g.net) && RECEIVER.id in ReadyIds(g.net)
    ensures Starting(WriteFrames(g, true, 1408, 0, 0, SENT).0.net, RECEIVER.id)
  {
    var request := RequestFor(Anchoring(g, 0, 0), 1408, 0);
    ListOfOne(SELECTED);
    OnePacket(ReadyIds(g.net), request);
    SendStarts(g.net, PacketFor(SELECTED, request));
  }

  /** The first two calls. */
  lemma UntilSelected(g: Group, ops: seq<Op>, numeric: string -> bool)
    requires g == EMPTY_GROUP && ops == FirstStream(numeric)
    ensures var h := Step(Step(g, ops[0]).0, ops[1]).0;
      && GroupOk(h) && Coherent(h) && NoSyncStarted(h.net)
      && h.registry == map[RECEIVER.id := SELECTED] && !h.net.cancelRequested
  {
    Discovered(numeric);
    DiscoverKeeps(EMPTY_GROUP, [RECEIVER], numeric);
    var d := Discover(EMPTY_GROUP, [RECEIVER], numeric);
    Selects(d);
    SetEnabledKeeps(d, [RECEIVER.id], NO_CANCELS);
  }

  /** The other three. */
  lemma UntilWritten(g: Group, ops: seq<Op>, numeric: string -> bool)
    requires ops == FirstStream(numeric)
    requires GroupOk(g) && Coherent(g) && NoSyncStarted(g.net)
    requires g.registry == map[RECEIVER.id := SELECTED] && !g.net.cancelRequested
    ensures Starting(Step(Step(Step(g, ops[2]).0, ops[3]).0, ops[4]).0.net, RECEIVER.id)
  {
    var o := OpenStream(g, STREAM_FORMAT).0;
    OpenStreamKeeps(g, STREAM_FORMAT);
    Connects(o);
    ConnectKeeps(o, OPENED, ANSWERED);
    Starts(ConnectSelected(o, OPENED, ANSWERED).0);
  }

  /** The condition can fail: over a stream that was not stopped, a second open leaves a
    * Ready receiver on an anchor that has been forgotten. */
  lemma StaleAnchor(g: Group, ops: seq<Op>, numeric: string -> bool)
    requires g == EMPTY_GROUP && ops == FirstStream(numeric)
    ensures LegalRun(g, ops)
    ensures Starting(Run(g, ops).net, RECEIVER.id)
    ensures !Coherent(OpenStream(Run(g, ops), STREAM_FORMAT).0)
  {
    UntilSelected(g, ops, numeric);
    UntilWritten(Step(Step(g, ops[0]).0, ops[1]).0, ops, numeric);
    RunFive(g, ops);
    StartedIsForgotten(Run(g, ops), RECEIVER.id);
  }

  lemma StartedIsForgotten(g: Group, k: Id)
    requires Starting(g.net, k)
    ensures !Coherent(OpenStream(g, STREAM_FORMAT).0)
  {
    OpenStreamCoherentIff(g, STREAM_FORMAT);
  }

  lemma RunOne(g: Group, ops: seq<Op>)
    requires ops != []
    ensures Run(g, ops) == Run(Step(g, ops[0]).0, ops[1..])
    ensures LegalRun(g, ops)
       <==> (ops[0].OpOpenStream? ==> NoSyncStarted(g.net)) && LegalRun(Step(g, ops[0]).0, ops[1..])
  {
  }

  lemma RunFive(g: Group, ops: seq<Op>)
    requires |ops| == 5 && forall i :: 0 <= i < 5 && i != 2 ==> !ops[i].OpOpenStream?
    ensures var h := Step(Step(g, ops[0]).0, ops[1]).0;
      && Run(g, ops) == Step(Step(Step(h, ops[2]).0, ops[3]).0, ops[4]).0
      && (NoSyncStarted(h.net) ==> LegalRun(g, ops))
  {
    var a := Step(g, ops[0]).0;
    var h := Step(a, ops[1]).0;
    var b := Step(h, ops[2]).0;
    var c := Step(b, ops[3]).0;
    RunOne(g, ops);
    RunOne(a, ops[1..]);
    RunOne(h, ops[2..]);
    RunOne(b, ops[3..]);
    RunOne(c, ops[4..]);
    assert ops[1..][1..] == ops[2..] && ops[2..][1..] == ops[3..] && ops[3..][1..] == ops[4..] && ops[4..][1..] == [];
  }

  /** What coherence means on the wire: any two sync packets sent to any two
    * receivers since the last flush for the same presentation time carry the
    * same NTP instant and the same RTP times. */
  lemma EqualPresentationEqualNtp(g: Group, j: Id, k: Id, a: nat, b: nat)
    requires GroupOk(g) && Coherent(g)
    requires j in ReadyIds(g.net) && k in ReadyIds(g.net)
    requires j in g.net.conns && a < |g.net.conns[j].syncs|
    requires k in g.net.conns && b < |g.net.conns[k].syncs|
    requires g.net.conns[j].syncs[a].presentation == g.net.conns[k].syncs[b].presentation
    ensures g.net.conns[j].syncs[a].ntp == g.net.conns[k].syncs[b].ntp
         == SyncNtp(g.anchor, g.net.conns[j].syncs[a].presentation)
    ensures g.net.conns[j].syncs[a].rtpNow == g.net.conns[k].syncs[b].rtpNow
         == g.net.conns[j].syncs[a].presentation % 0x1_0000_0000
    ensures g.net.conns[j].syncs[a].rtpNext == g.net.conns[k].syncs[b].rtpNext
         == (g.net.conns[j].syncs[a].presentation + 88200) % 0x1_0000_0000
  {
    SyncClock(g.net.conns[j], g.anchor, g.net.conns[j].syncs[a].first, g.net.conns[j].syncs[a].presentation);
    SyncClock(g.net.conns[k], g.anchor, g.net.conns[k].syncs[b].first, g.net.conns[k].syncs[b].presentation);
    assert AnchoredAt(g.net, j, g.anchorValid, g.anchor) && AnchoredAt(g.net, k, g.anchorValid, g.anchor);
    assert ConnOk(g.net.conns[j]) && ConnOk(g.net.conns[k]);
  }

  /** The RTP clock receivers are told, in every sync packet of every Ready receiver
    * after any legal history: the frame presented now, and the one two seconds on that
    * audio packets made for the same time are stamped with. */
  lemma SyncsTellTheStream(ops: seq<Op>, k: Id, i: nat)
    requires LegalRun(EMPTY_GROUP, ops)
    requires var n := Run(EMPTY_GROUP, ops).net; k in ReadyIds(n) && k in n.conns && i < |n.conns[k].syncs|
    ensures var c := Run(EMPTY_GROUP, ops).net.conns[k]; var p := c.syncs[i].presentation;
      && c.syncs[i].rtpNow == p % 0x1_0000_0000
      && c.syncs[i].rtpNext == (p + 88200) % 0x1_0000_0000 == AudioFor(c, p).timestamp
  {
    GroupSyncCoherence(ops);
    var c := Run(EMPTY_GROUP, ops).net.conns[k];
    assert ConnOk(c);
    SyncClock(c, c.syncStartRtp, c.syncs[i].first, c.syncs[i].presentation);
  }

  /** What the anchor means: once the first write of a timeline has fixed it at frame
    * streamTimestamp, the NTP time told for the frame d frames away from there is the
    * wall clock at that write moved by d / 44100 seconds, less than 2 * 2^-16 seconds
    * and one frame behind and never ahead, as long as it lies in the era. */
  lemma AnchorIsWallClock(g: Group, streamTimestamp: u64, now: u64, presentation: u64, d: int)
    requires !g.anchorValid && g.format.sampleRate == STREAM_RATE
    requires presentation == (streamTimestamp + d) % U64
    requires Timing.InEra(Timing.NtpToRtp(now, STREAM_RATE) + d, STREAM_RATE)
    ensures var a := Anchoring(g, streamTimestamp, now);
      a.anchorValid && TellsTime(now, d, SyncNtp(a.anchor, presentation))
  {
    AnchorMoves(Timing.NtpToRtp(now, STREAM_RATE), streamTimestamp, d);
    Timing.StreamClock(now, d);
  }

  /** ntp is now plus d frames, in units of a 44100th of 2^-32 seconds. */
  predicate TellsTime(now: u64, d: int, ntp: u64) {
    && ntp * STREAM_RATE <= now * STREAM_RATE + d * U32
    && now * STREAM_RATE + d * U32 - (2 * STREAM_RATE + U16) * U16 < ntp * STREAM_RATE
  }

  lemma AnchorMoves(rtp: u64, streamTimestamp: u64, d: int)
    requires 0 <= rtp + d < U64
    ensures ((rtp - streamTimestamp) % U64 + (streamTimestamp + d) % U64) % U64 == rtp + d
  {
    ModAdd(rtp - streamTimestamp, (streamTimestamp + d) % U64, U64);
    ModAdd(streamTimestamp + d, rtp - streamTimestamp, U64);
    ModUnique(rtp + d, U64, 0, rtp + d);
  }

  /** Calls that leave a captured anchor alone: no open, no stop, no flush that got
    * through to every receiver. */
  ghost predicate KeepsAnchor(g: Group, ops: seq<Op>)
    decreases |ops|
  {
    ops == [] || (
      && !ops[0].OpOpenStream? && !ops[0].OpStop?
      && (ops[0].OpFlush? ==> Step(g, ops[0]).1.Thrown?)
      && KeepsAnchor(Step(g, ops[0]).0, ops[1..]))
  }

  lemma AnchorStays(g: Group, op: Op)
    requires g.anchorValid && !op.OpOpenStream? && !op.OpStop? && (op.OpFlush? ==> Step(g, op).1.Thrown?)
    ensures Step(g, op).0.anchorValid && Step(g, op).0.anchor == g.anchor
  {
  }

  lemma {:induction false} AnchorStaysOverRun(g: Group, ops: seq<Op>)
    requires g.anchorValid && KeepsAnchor(g, ops)
    ensures Run(g, ops).anchorValid && Run(g, ops).anchor == g.anchor && LegalRun(g, ops)
    decreases |ops|
  {
    if ops == [] {
    } else {
      AnchorStays(g, ops[0]);
      AnchorStaysOverRun(Step(g, ops[0]).0, ops[1..]);
    }
  }

  /** Over any history: every sync packet of every Ready receiver tells, for the frame
    * it is about, the wall clock of the write that began the timeline moved by the
    * distance of the two frames, whichever calls came in between. */
  lemma SyncsTellTheTime(ops: seq<Op>, write: Op, more: seq<Op>, k: Id, i: nat, d: int)
    requires LegalRun(EMPTY_GROUP, ops) && write.OpWrite?
    requires var g := Run(EMPTY_GROUP, ops); !g.anchorValid && g.format.sampleRate == STREAM_RATE
    requires var h := Step(Run(EMPTY_GROUP, ops), write).0; h.anchorValid && KeepsAnchor(h, more)
    requires var n := Run(Step(Run(EMPTY_GROUP, ops), write).0, more).net;
      && k in ReadyIds(n) && k in n.conns && i < |n.conns[k].syncs|
      && n.conns[k].syncs[i].presentation == (write.streamTimestamp + d) % U64
    requires Timing.InEra(Timing.NtpToRtp(write.now, STREAM_RATE) + d, STREAM_RATE)
    ensures var n := Run(Step(Run(EMPTY_GROUP, ops), write).0, more).net;
      TellsTime(write.now, d, n.conns[k].syncs[i].ntp)
  {
    var g := Run(EMPTY_GROUP, ops);
    var h := Step(g, write).0;
    GroupSyncCoherence(ops);
    StepKeeps(g, write);
    AnchorStaysOverRun(h, more);
    RunKeeps(h, more);
    FirstWriteAnchors(g, write);
    var end := Run(h, more);
    EqualPresentationEqualNtp(end, k, k, i, i);
    AnchorIsWallClock(g, write.streamTimestamp, write.now, end.net.conns[k].syncs[i].presentation, d);
  }

  lemma FirstWriteAnchors(g: Group, write: Op)
    requires write.OpWrite? && !g.anchorValid && Step(g, write).0.anchorValid
    ensures Step(g, write).0.anchor == Anchoring(g, write.streamTimestamp, write.now).anchor
  {
  }

  /** A stale id never makes volume or offset calls throw unknown-output: they
    * throw it exactly for ids discovery never knew. */
  lemma UnknownOutputIff(g: Group, id: Id, volume: i32, ok: bool)
    requires GroupOk(g)
    ensures SetVolume(g, id, volume, ok).1 == Thrown(UnknownOutput) <==> !Knows(g.devices, id)
    ensures SetOffset(g, id, volume).1 == Thrown(UnknownOutput) <==> !Knows(g.devices, id)
  {
    HistoricIdsResolve(g.registry, g.devices, id);
  }

  lemma ResolvedAreKnown(g: Group, ids: seq<Id>, r: Id)
    requires GroupOk(g)
    requires forall id :: id in ids ==> Knows(g.devices, id)
    requires r in ResolveIds(Sync(g.registry, g.devices), ids)
    ensures r in Sync(g.registry, g.devices)
  {
    var resolved := ResolveIds(Sync(g.registry, g.devices), ids);
    var i :| 0 <= i < |resolved| && resolved[i] == r;
    assert ids[i] in ids;
    HistoricIdsResolve(g.registry, g.devices, ids[i]);
  }

  ghost predicate ResolvesTo(registry: Outputs, ids: seq<Id>, k: Id) {
    exists id :: id in ids && Resolve(registry, id) == k
  }

  lemma ResolvedIff(registry: Outputs, ids: seq<Id>, k: Id)
    ensures k in ResolveIds(registry, ids) <==> ResolvesTo(registry, ids, k)
  {
    var resolved := ResolveIds(registry, ids);
    if k in resolved {
      var i :| 0 <= i < |resolved| && resolved[i] == k;
      assert ids[i] in ids && Resolve(registry, ids[i]) == k;
    }
    if id :| id in ids && Resolve(registry, id) == k {
      var i :| 0 <= i < |ids| && ids[i] == id;
      assert resolved[i] == k;
    }
  }

  lemma SelectResult(s: Group, ids: set<Id>, cancels: nat -> bool)
    ensures Select(s, ids, cancels).0.registry == WithSelection(s.registry, ids)
    ensures Select(s, ids, cancels).1 in {Done, Thrown(Cancelled)}
  {
    PrepareOutcome(s.net, ListOf(WithSelection(s.registry, ids)), 0, cancels);
  }

  /** When every id resolves, the registry afterwards is the synced one with
    * exactly the resolved outputs selected. */
  lemma EnabledRegistry(g: Group, ids: seq<Id>, cancels: nat -> bool)
    requires GroupOk(g)
    requires forall id :: id in ids ==> Knows(g.devices, id)
    ensures SetEnabled(g, ids, cancels).1 != Thrown(UnknownOutput)
    ensures var before := Sync(g.registry, g.devices);
      SetEnabled(g, ids, cancels).0.registry == WithSelection(before, (set id | id in ResolveIds(before, ids)))
  {
    var s := Synced(g);
    var resolved := ResolveIds(s.registry, ids);
    forall r | r in resolved ensures r in s.registry { ResolvedAreKnown(g, ids, r); }
    SelectResult(s, (set id | id in resolved), cancels);
  }

  /** Selecting by any mix of current and historic ids never throws unknown-output
    * and selects exactly the outputs they resolve to. */
  lemma SelectionByHistoricIds(g: Group, ids: seq<Id>, cancels: nat -> bool)
    requires GroupOk(g)
    requires forall id :: id in ids ==> Knows(g.devices, id)
    ensures SetEnabled(g, ids, cancels).1 != Thrown(UnknownOutput)
    ensures SetEnabled(g, ids, cancels).0.registry.Keys == Sync(g.registry, g.devices).Keys
    ensures forall k :: k in Sync(g.registry, g.devices) ==>
      (SetEnabled(g, ids, cancels).0.registry[k].selected <==> ResolvesTo(Sync(g.registry, g.devices), ids, k))
  {
    var before := Sync(g.registry, g.devices);
    EnabledRegistry(g, ids, cancels);
    forall k | k in before
      ensures WithSelection(before, (set id | id in ResolveIds(before, ids)))[k].selected <==> ResolvesTo(before, ids, k)
    {
      ResolvedIff(before, ids, k);
    }
  }

  /** A selection that went through leaves every session whose output was not chosen
    * Closed with nothing queued, and drops the connection of one that was Ready. */
  lemma DeselectedOutputsClose(g: Group, ids: seq<Id>, cancels: nat -> bool, k: Id)
    requires GroupOk(g) && Coherent(g) && forall id :: id in ids ==> Knows(g.devices, id)
    requires SetEnabled(g, ids, cancels).1 == Done
    requires k in g.net.sessions && !ResolvesTo(Sync(g.registry, g.devices), ids, k)
    ensures var m := SetEnabled(g, ids, cancels).0.net;
      && k in m.sessions && m.sessions[k].phase == Closed && !m.sessions[k].open && m.sessions[k].queue == []
      && (IsReady(g.net.sessions[k]) ==> k !in m.conns)
  {
    var before := Sync(g.registry, g.devices);
    var chosen := set id | id in ResolveIds(before, ids);
    var selected := WithSelection(before, chosen);
    EnabledRegistry(g, ids, cancels);
    SyncAgrees(g.registry, g.devices);
    SelectEnds(before, chosen);
    ListIsComplete(selected);
    ResolvedIff(before, ids, k);
    forall o: OutputDevice | o in ListOf(selected) && o.selected ensures o.id != k { assert selected[o.id] == o; }
    var n := PrepareFrom(g.net, ListOf(selected), 0, cancels).0;
    PrepareTouchesOnlySelected(g.net, ListOf(selected), 0, cancels, k);
    PrepareKeeps(g.net, ListOf(selected), 0, cancels, g.anchorValid, g.anchor);
    DeselectedIsClosed(n, ListOf(selected), k);
  }

  /** A write is refused before anything is sent without a stream, without a buffer for
    * its bytes, and when something is selected but nothing selected is ready; and for no
    * other reason. */
  lemma WriteRefusedIff(g: Group, hasBuffer: bool, bytes: nat, streamTimestamp: u64, now: u64, fates: nat -> SendFate)
    requires GroupOk(g) && Coherent(g)
    ensures var (h, o) := WriteFrames(g, hasBuffer, bytes, streamTimestamp, now, fates);
      && (!g.streamOpen ==> o == Thrown(StreamClosed) && h == g)
      && (g.streamOpen && !hasBuffer && bytes != 0 ==> o == Thrown(NullBuffer) && h == g)
      && (g.streamOpen && (hasBuffer || bytes == 0) ==>
            if (exists k :: k in g.registry && g.registry[k].selected)
               && forall k :: k in g.registry && g.registry[k].selected ==> k !in ReadyIds(g.net)
            then o == Thrown(NoReadyOutput) && h == g
            else h.anchorValid)
  {
    var outputs := ListOf(g.registry);
    ListIsComplete(g.registry);
    CountsSelected(outputs);
    TargetsAreReady(outputs, ReadyIds(g.net));
    if k :| k in g.registry && g.registry[k].selected && k in ReadyIds(g.net) {
      assert g.registry[k] in Targets(outputs, ReadyIds(g.net));
    }
    if Targets(outputs, ReadyIds(g.net)) != [] { assert Targets(outputs, ReadyIds(g.net))[0] in Targets(outputs, ReadyIds(g.net)); }
    if k :| k in g.registry && g.registry[k].selected { assert g.registry[k] in outputs; }
  }

  lemma {:induction false} CountsSelected(outputs: seq<OutputDevice>)
    ensures SelectedCount(outputs) != 0 <==> exists o: OutputDevice :: o in outputs && o.selected
  {
    if outputs == [] {
    } else {
      CountsSelected(outputs[1..]);
      assert outputs == [outputs[0]] + outputs[1..];
    }
  }

  /** A user setting by any name the receiver ever had is stored, in range, in the record
    * of the output it resolves to, and changes nothing else there or elsewhere. */
  lemma SettingsAreStored(g: Group, id: Id, x: i32, ok: bool)
    requires GroupOk(g) && Knows(g.devices, id)
    ensures var before := Sync(g.registry, g.devices); var r := Resolve(before, id);
      && r in before && MatchesId(before[r], id)
      && SetVolume(g, id, x, ok).0.registry
           == before[r := before[r].(volume := if x < 0 then 0 else if x > 100 then 100 else x)]
      && SetOffset(g, id, x).0.registry
           == before[r := before[r].(offsetMs := if x < -2000 then -2000 else if x > 2000 then 2000 else x)]
      && SetOffset(g, id, x).1 == Done
      && SetVolume(g, id, x, ok).0.net == SetOffset(g, id, x).0.net == g.net
      && (SetVolume(g, id, x, ok).1.Thrown? <==> r in ReadyIds(g.net) && !ok)
  {
    HistoricIdsResolve(g.registry, g.devices, id);
    var r := Resolve(Sync(g.registry, g.devices), id);
    if r in g.net.sessions { assert SessionOk(g.net, r); }
  }

  lemma {:induction false} PrepareTouchesOnlySelected(
    n: Net, outputs: seq<OutputDevice>, i: nat, cancels: nat -> bool, k: Id)
    requires i <= |outputs| && forall o: OutputDevice :: o in outputs && o.selected ==> o.id != k
    ensures Unchanged(n, PrepareFrom(n, outputs, i, cancels).0, k)
    decreases |outputs| - i
  {
    if i == |outputs| {
    } else {
      var m := PrepareOne(n, outputs[i], cancels(i)).0;
      assert Unchanged(n, m, k);
      PrepareTouchesOnlySelected(m, outputs, i + 1, cancels, k);
    }
  }

  lemma {:induction false} PrepareOutcome(n: Net, outputs: seq<OutputDevice>, i: nat, cancels: nat -> bool)
    requires i <= |outputs|
    ensures PrepareFrom(n, outputs, i, cancels).1 in {Done, Thrown(Cancelled)}
    decreases |outputs| - i
  {
    if i == |outputs| {
    } else {
      PrepareOutcome(PrepareOne(n, outputs[i], cancels(i)).0, outputs, i + 1, cancels);
    }
  }
}
