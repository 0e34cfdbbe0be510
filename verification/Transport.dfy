/**
 * AirPlayTransport as an object over the discovery map, the registry and the
 * session manager. Every method is one Step of GroupSync.
 */
module Transport {
  import opened Common
  import opened Devices
  import opened KeyOrder
  import opened Registry
  import opened Identity
  import opened Scheduler
  import opened Receiver
  import opened Sessions
  import opened SessionManager
  import opened GroupSync
  import Timing

  class AirPlayTransport {
    const discovery: AirPlayDiscovery
    const registry: OutputRegistry
    const sessions: AirPlaySessionManager
    var format: PcmFormat
    var streamOpen: bool
    var anchorValid: bool
    var anchor: u64
    var hasMetadata: bool

    /** The objects are tied together and hold well-formed records. */
    ghost predicate Linked()
      reads this, discovery, registry, sessions, sessions.client
    {
      && sessions.Valid()
      && RegistryOk(registry.outputs)
      && KeysAreIds(discovery.devices)
      && (streamOpen ==> format.sampleRate != 0)
    }

    ghost function Model(): Group
      reads this, discovery, registry, sessions, sessions.client, sessions.client.connections.Values
    {
      Group(discovery.devices, registry.outputs, sessions.Model(), format, streamOpen, anchorValid, anchor, hasMetadata)
    }

    /** What every public call keeps: the objects agree with each other, the sessions
      * with the connections and their queues, and the receivers with the anchor. */
    ghost predicate Valid()
      reads this, discovery, registry, sessions, sessions.client, sessions.client.connections.Values
    {
      Linked() && GroupOk(Model()) && Coherent(Model())
    }

    constructor (numeric: string -> bool)
      ensures Valid() && fresh(discovery) && fresh(registry) && fresh(sessions) && fresh(sessions.client)
      ensures discovery.numeric == numeric
      ensures Model() == EMPTY_GROUP
    {
      discovery := new AirPlayDiscovery(numeric);
      registry := new OutputRegistry();
      sessions := new AirPlaySessionManager();
      format, streamOpen, anchorValid, anchor, hasMetadata := NO_FORMAT, false, false, 0, false;
    }

    method SyncOutputs()
      requires Linked()
      modifies registry
      ensures Linked()
      ensures Model() == Synced(old(Model()))
    {
      SyncDiscoveredOutputs(registry, discovery);
    }

    /** resolve_output_id: the walk over the listing, stopping at the first match. */
    method ResolveOutputId(id: Id) returns (r: Id)
      requires Linked()
      ensures r == Resolve(registry.outputs, id)
    {
      var outputs := registry.outputs;
      var pending := outputs.Keys;
      while pending != {}
        invariant pending <= outputs.Keys
        invariant ResolveFrom(outputs, pending, id) == Resolve(outputs, id)
        decreases |pending|
      {
        var k := Least(pending);
        if MatchesId(outputs[k], id) {
          return outputs[k].id;
        }
        pending := pending - {k};
      }
      r := id;
    }

    method ResolveOutputIds(ids: seq<Id>) returns (r: seq<Id>)
      requires Linked()
      ensures forall id :: id in r <==> id in ResolveIds(registry.outputs, ids)
      ensures forall i, j :: 0 <= i < j < |r| ==> r[i] != r[j]
    {
      r := [];
      for i := 0 to |ids|
        invariant forall id :: id in r <==> id in ResolveIds(registry.outputs, ids)[..i]
        invariant forall i, j :: 0 <= i < j < |r| ==> r[i] != r[j]
      {
        var canonical := ResolveOutputId(ids[i]);
        var all := ResolveIds(registry.outputs, ids);
        assert all[..i+1] == all[..i] + [canonical];
        if canonical !in r {
          r := r + [canonical];
        }
      }
      var all := ResolveIds(registry.outputs, ids);
      assert all[..|ids|] == all;
    }

    method OpenStream(f: PcmFormat) returns (o: Outcome)
      requires Valid()
      requires ZeroFormat(f) || NoSyncStarted(Model().net)
      modifies this
      ensures Valid()
      ensures (Model(), o) == GroupSync.OpenStream(old(Model()), f)
    {
      OpenStreamKeeps(Model(), f);
      o := OpenTimeline(f);
    }

    method OpenTimeline(f: PcmFormat) returns (o: Outcome)
      requires Linked()
      modifies this
      ensures Linked()
      ensures (Model(), o) == GroupSync.OpenStream(old(Model()), f)
    {
      if f.sampleRate == 0 || f.channels == 0 || f.bitsPerSample == 0 {
        return Thrown(BadFormat);
      }
      format := f;
      streamOpen := true;
      ResetAnchor(false, 0);
      o := Done;
    }

    method ConnectSelectedOutputs(fates: nat -> OpenFate, metadataOks: Id -> bool) returns (o: Outcome)
      requires Valid()
      modifies sessions, sessions.client
      ensures Valid() && fresh(sessions.client.connections.Values - old(sessions.client.connections.Values))
      ensures (Model(), o) == ConnectSelected(old(Model()), fates, metadataOks)
    {
      ConnectKeeps(Model(), fates, metadataOks);
      o := ConnectSessions(fates, metadataOks);
    }

    method ConnectSessions(fates: nat -> OpenFate, metadataOks: Id -> bool) returns (o: Outcome)
      requires Linked()
      modifies sessions, sessions.client
      ensures Linked() && fresh(sessions.client.connections.Values - old(sessions.client.connections.Values))
      ensures (Model(), o) == ConnectSelected(old(Model()), fates, metadataOks)
    {
      if !streamOpen {
        return Done;
      }
      var outputs := registry.List();
      o := sessions.OpenForOutputs(outputs, format, fates);
      if o.Thrown? {
        return;
      }
      sessions.UpdateMetadata(metadataOks);
    }

    method WriteFrames(hasBuffer: bool, bytes: nat, streamTimestamp: u64, now: u64, fates: nat -> SendFate)
      returns (o: Outcome)
      requires Valid()
      modifies this, sessions, sessions.client.connections.Values
      ensures Valid() && sessions.client.connections == old(sessions.client.connections)
      ensures (Model(), o) == GroupSync.WriteFrames(old(Model()), hasBuffer, bytes, streamTimestamp, now, fates)
      ensures o != Thrown(NotReady) && o != Thrown(NoConnection) && o != Thrown(MissingAnchor)
    {
      WriteKeeps(Model(), hasBuffer, bytes, streamTimestamp, now, fates);
      o := WriteTimeline(hasBuffer, bytes, streamTimestamp, now, fates);
    }

    /** The guards of write_frames, then the send to the ready targets. */
    method WriteTimeline(hasBuffer: bool, bytes: nat, streamTimestamp: u64, now: u64, fates: nat -> SendFate)
      returns (o: Outcome)
      requires Linked()
      modifies this, sessions, sessions.client.connections.Values
      ensures Linked() && sessions.client.connections == old(sessions.client.connections)
      ensures (Model(), o) == GroupSync.WriteFrames(old(Model()), hasBuffer, bytes, streamTimestamp, now, fates)
    {
      if !streamOpen {
        return Thrown(StreamClosed);
      }
      if !hasBuffer && bytes != 0 {
        return Thrown(NullBuffer);
      }
      var outputs, selectedCount := WriteTargets();
      if selectedCount != 0 && outputs == [] {
        return Thrown(NoReadyOutput);
      }
      o := WriteToTargets(outputs, hasBuffer, bytes, streamTimestamp, now, fates);
    }

    method WriteTargets() returns (outputs: seq<OutputDevice>, selectedCount: nat)
      requires Linked()
      ensures outputs == Targets(ListOf(registry.outputs), ReadyIds(sessions.Model()))
      ensures selectedCount == SelectedCount(ListOf(registry.outputs))
    {
      var listed := registry.List();
      var ready := sessions.ReadyOutputIds();
      outputs, selectedCount := SelectTargets(listed, ready);
    }

    /** Anchor the timeline if this is its first write, then send to every target. */
    method WriteToTargets(
      outputs: seq<OutputDevice>, hasBuffer: bool, bytes: nat, streamTimestamp: u64, now: u64, fates: nat -> SendFate)
      returns (o: Outcome)
      requires Linked() && format.sampleRate != 0
      modifies `anchorValid, `anchor, sessions, sessions.client.connections.Values
      ensures Linked() && sessions.client.connections == old(sessions.client.connections)
      ensures (Model(), o) == WriteTo(old(Model()), outputs, hasBuffer, bytes, streamTimestamp, now, fates)
    {
      AnchorTimeline(streamTimestamp, now);
      ghost var a := Model();
      var packets := Schedule(
        outputs,
        Request(streamTimestamp, bytes, format.sampleRate, MINIMUM_LEAD_MS, anchor, anchorValid));
      o := EnqueueAll(packets.value, hasBuffer, bytes, fates);
      assert Model() == a.(net := sessions.Model());
    }

    method AnchorTimeline(streamTimestamp: u64, now: u64)
      requires Linked() && format.sampleRate != 0
      modifies `anchorValid, `anchor
      ensures Linked() && Model() == Anchoring(old(Model()), streamTimestamp, now)
    {
      if !anchorValid {
        var nowRtp := Timing.NtpToRtp(now, format.sampleRate);
        anchor := (nowRtp - streamTimestamp) % U64;
        anchorValid := true;
      }
    }

    method EnqueueAll(packets: seq<ScheduledPacket>, hasBuffer: bool, bytes: nat, fates: nat -> SendFate)
      returns (o: Outcome)
      requires Linked()
      modifies sessions, sessions.client.connections.Values
      ensures Linked() && sessions.client.connections == old(sessions.client.connections)
      ensures (sessions.Model(), o) == EnqueueFrom(old(sessions.Model()), packets, 0, hasBuffer, bytes, fates)
    {
      for i := 0 to |packets|
        invariant Linked() && sessions.client.connections == old(sessions.client.connections)
        invariant EnqueueFrom(sessions.Model(), packets, i, hasBuffer, bytes, fates)
               == EnqueueFrom(old(sessions.Model()), packets, 0, hasBuffer, bytes, fates)
      {
        o := sessions.EnqueuePacket(packets[i], hasBuffer, bytes, fates(i));
        if o.Thrown? {
          return;
        }
      }
      o := Done;
    }

    static method SelectTargets(listed: seq<OutputDevice>, ready: set<Id>)
      returns (outputs: seq<OutputDevice>, selectedCount: nat)
      ensures outputs == Targets(listed, ready) && selectedCount == SelectedCount(listed)
    {
      outputs, selectedCount := [], 0;
      for i := 0 to |listed|
        invariant outputs + Targets(listed[i..], ready) == Targets(listed, ready)
        invariant selectedCount + SelectedCount(listed[i..]) == SelectedCount(listed)
      {
        assert listed[i..][1..] == listed[i+1..];
        if listed[i].selected {
          selectedCount := selectedCount + 1;
          if listed[i].id in ready {
            outputs := outputs + [listed[i]];
          }
        }
      }
    }

    method Flush(oks: Id -> bool) returns (o: Outcome)
      requires Valid()
      modifies this, sessions, sessions.client.connections.Values
      ensures Valid() && sessions.client.connections == old(sessions.client.connections)
      ensures (Model(), o) == FlushGroup(old(Model()), oks)
    {
      FlushKeeps(Model(), oks);
      o := FlushTimeline(oks);
    }

    /** The anchor is forgotten only when every receiver took the flush. */
    method FlushTimeline(oks: Id -> bool) returns (o: Outcome)
      requires Linked()
      modifies this, sessions, sessions.client.connections.Values
      ensures Linked() && sessions.client.connections == old(sessions.client.connections)
      ensures (Model(), o) == FlushGroup(old(Model()), oks)
    {
      o := sessions.FlushSessions(oks);
      if o.Thrown? {
        return;
      }
      ResetAnchor(false, 0);
    }

    method Stop(metadataOks: Id -> bool)
      requires Valid()
      modifies this, sessions, sessions.client
      ensures Valid() && sessions.client.connections.Values <= old(sessions.client.connections.Values)
      ensures Model() == StopGroup(old(Model()), metadataOks)
    {
      StopKeeps(Model(), metadataOks);
      CloseTimeline();
      StopSessions(metadataOks);
    }

    /** The field resets of stop; the sessions are independent of them. */
    method CloseTimeline()
      requires Linked()
      modifies `streamOpen, `anchorValid, `anchor
      ensures Linked()
      ensures Model() == old(Model()).(streamOpen := false, anchorValid := false, anchor := 0)
    {
      streamOpen := false;
      anchorValid := false;
      anchor := 0;
    }

    method ResetAnchor(valid: bool, rtp: u64)
      modifies `anchorValid, `anchor
      ensures anchorValid == valid && anchor == rtp
    {
      anchorValid := valid;
      anchor := rtp;
    }

    method StopSessions(metadataOks: Id -> bool)
      requires Linked()
      modifies sessions, sessions.client
      ensures Linked() && sessions.client.connections.Values <= old(sessions.client.connections.Values)
      ensures var n := old(sessions.Model());
        sessions.Model() == StopAll(MetadataKeys(n, n.sessions.Keys, metadataOks))
    {
      sessions.UpdateMetadata(metadataOks);
      sessions.Stop();
    }

    method SetEnabledOutputs(ids: seq<Id>, cancels: nat -> bool) returns (o: Outcome)
      requires Valid()
      modifies registry, sessions, sessions.client
      ensures Valid() && sessions.client.connections.Values <= old(sessions.client.connections.Values)
      ensures (Model(), o) == SetEnabled(old(Model()), ids, cancels)
    {
      SetEnabledKeeps(Model(), ids, cancels);
      SyncOutputs();
      o := EnableSynced(ids, cancels);
    }

    method EnableSynced(ids: seq<Id>, cancels: nat -> bool) returns (o: Outcome)
      requires Linked()
      modifies registry, sessions, sessions.client
      ensures Linked() && sessions.client.connections.Values <= old(sessions.client.connections.Values)
      ensures (Model(), o) == EnableOn(old(Model()), ids, cancels)
    {
      var resolved := ResolveOutputIds(ids);
      assert (set id | id in resolved) == (set id | id in ResolveIds(registry.outputs, ids));
      o := EnableResolved(resolved, cancels);
    }

    method EnableResolved(ids: seq<Id>, cancels: nat -> bool) returns (o: Outcome)
      requires Linked()
      modifies registry, sessions, sessions.client
      ensures Linked() && sessions.client.connections.Values <= old(sessions.client.connections.Values)
      ensures (Model(), o) == EnableExactly(old(Model()), (set id | id in ids), cancels)
    {
      var known := StoreSelection(ids);
      if !known {
        return Thrown(UnknownOutput);
      }
      ghost var s := Model();
      o := ReconcileSessions(cancels);
      assert Model() == s.(net := sessions.Model());
    }

    method StoreSelection(ids: seq<Id>) returns (known: bool)
      requires Linked()
      modifies registry
      ensures Linked() && known == ((set id | id in ids) <= old(registry.outputs).Keys)
      ensures Model() == if known then old(Model()).(registry :=
        WithSelection(old(registry.outputs), (set id | id in ids))) else old(Model())
    {
      ghost var s := Model();
      known := registry.SetEnabledOutputs(ids);
      assert Model() == s.(registry := registry.outputs);
    }

    method ReconcileSessions(cancels: nat -> bool) returns (o: Outcome)
      requires Linked()
      modifies sessions, sessions.client
      ensures Linked() && sessions.client.connections.Values <= old(sessions.client.connections.Values)
      ensures (sessions.Model(), o) == Reconcile(old(sessions.Model()), ListOf(registry.outputs), cancels)
    {
      var outputs := registry.List();
      o := sessions.PrepareOutputs(outputs, cancels);
      if o.Thrown? {
        return;
      }
      sessions.CloseMissingOutputs(outputs);
    }

    method SetOutputVolume(id: Id, volume: i32, ok: bool) returns (o: Outcome)
      requires Valid()
      modifies registry
      ensures Valid()
      ensures (Model(), o) == SetVolume(old(Model()), id, volume, ok)
    {
      SetVolumeKeeps(Model(), id, volume, ok);
      SyncOutputs();
      o := VolumeSynced(id, volume, ok);
    }

    method VolumeSynced(id: Id, volume: i32, ok: bool) returns (o: Outcome)
      requires Linked()
      modifies registry
      ensures Linked()
      ensures (Model(), o) == VolumeOn(old(Model()), id, volume, ok)
    {
      var resolved := ResolveOutputId(id);
      o := VolumeResolved(resolved, volume, ok);
    }

    method VolumeResolved(id: Id, volume: i32, ok: bool) returns (o: Outcome)
      requires Linked()
      modifies registry
      ensures Linked()
      ensures (Model(), o) == VolumeAt(old(Model()), id, volume, ok)
    {
      var known := StoreVolume(id, volume);
      if !known {
        return Thrown(UnknownOutput);
      }
      o := SendVolume(id, ok);
    }

    method SendVolume(id: Id, ok: bool) returns (o: Outcome)
      requires Linked()
      ensures o == VolumeOutcome(Model().net, id, ok)
    {
      o := sessions.SetVolume(id, ok);
    }

    method StoreVolume(id: Id, volume: i32) returns (known: bool)
      requires Linked()
      modifies registry
      ensures Linked() && known == (id in old(registry.outputs))
      ensures Model() == if known then WithVolume(old(Model()), id, volume) else old(Model())
    {
      ghost var s := Model();
      known := registry.SetOutputVolume(id, volume);
      assert Model() == s.(registry := registry.outputs);
    }

    method SetOutputOffset(id: Id, offsetMs: i32) returns (o: Outcome)
      requires Valid()
      modifies registry
      ensures Valid()
      ensures (Model(), o) == SetOffset(old(Model()), id, offsetMs)
    {
      SetOffsetKeeps(Model(), id, offsetMs);
      SyncOutputs();
      o := OffsetSynced(id, offsetMs);
    }

    method OffsetSynced(id: Id, offsetMs: i32) returns (o: Outcome)
      requires Linked()
      modifies registry
      ensures Linked()
      ensures (Model(), o) == OffsetOn(old(Model()), id, offsetMs)
    {
      ghost var s := Model();
      var resolved := ResolveOutputId(id);
      var known := registry.SetOutputOffset(resolved, offsetMs);
      assert Model() == s.(registry := registry.outputs);
      o := if known then Done else Thrown(UnknownOutput);
    }

    method SetPlaybackMetadata(present: bool, oks: Id -> bool)
      requires Valid()
      modifies this, sessions
      ensures Valid()
      ensures Model() == SetMetadata(old(Model()), present, oks)
    {
      SetMetadataKeeps(Model(), present, oks);
      hasMetadata := present;
      sessions.UpdateMetadata(oks);
    }

    /** One announced device, then the sync; without an id it is rejected. */
    method AddDiscoveredOutput(device: OutputDevice)
      requires Valid()
      modifies discovery, registry
      ensures Valid()
      ensures device.id != NO_ID ==> Model() == Discover(old(Model()), [device], discovery.numeric)
      ensures device.id == NO_ID ==> Model() == old(Model())
    {
      DiscoverKeeps(Model(), [device], discovery.numeric);
      if device.id == NO_ID {
        return;
      }
      DiscoverOne(Model(), device, discovery.numeric);
      Announce(device);
    }

    method Announce(device: OutputDevice)
      requires Linked() && device.id != NO_ID
      modifies discovery, registry
      ensures Linked()
      ensures var g := old(Model()); Model() == Synced(g.(devices := Upsert(g.devices, device, discovery.numeric)))
    {
      ghost var g := Model();
      UpsertKnows(g.devices, device, discovery.numeric, device.id);
      var ok := discovery.UpsertDevice(device);
      assert Model() == g.(devices := discovery.devices);
      SyncOutputs();
    }

    method CancelPendingOpen()
      requires Valid()
      modifies sessions
      ensures Valid()
      ensures (Model(), Done) == Step(old(Model()), OpCancelPendingOpen)
    {
      CancelKeeps(Model(), true);
      sessions.CancelPendingOpen();
    }

    method ResetPendingOpenCancel()
      requires Valid()
      modifies sessions
      ensures Valid()
      ensures (Model(), Done) == Step(old(Model()), OpResetPendingOpenCancel)
    {
      CancelKeeps(Model(), false);
      sessions.ResetPendingOpenCancel();
    }
  }
}
