/**
 * The session manager and its control client as objects updated in place. Every
 * method is proved to follow the function of the same name in Sessions.
 */
module SessionManager {
  import opened Common
  import opened Devices
  import opened KeyOrder
  import opened Scheduler
  import opened Receiver
  import opened Sessions

  /** The RTSP client: one connection object per opened output. */
  class ControlClient {
    var connections: map<Id, Connection>
    ghost var opens: seq<Id>

    /** No two outputs share a connection object. */
    ghost predicate Valid()
      reads this
    {
      forall j, k :: j in connections && k in connections && connections[j] == connections[k] ==> j == k
    }

    ghost function Conns(): map<Id, Conn>
      reads this, connections.Values
    {
      map k | k in connections :: connections[k].Model()
    }

    constructor ()
      ensures Valid() && connections == map[] && Conns() == map[] && opens == []
    {
      connections, opens := map[], [];
    }

    method Open(output: OutputDevice, format: PcmFormat, fate: OpenFate) returns (neg: Option<Negotiated>, e: Error)
      requires Valid()
      modifies this
      ensures Valid() && fresh(connections.Values - old(connections.Values))
      ensures (neg, e) == ClientOpen(output, format, fate)
      ensures opens == old(opens) + [output.id]
      ensures Conns() == match neg
        case None => old(Conns())
        case Some(g) => old(Conns())[output.id := NewConn(g.streamUri, g.sessionId, g.ssrc, g.controlPort)]
    {
      opens := opens + [output.id];
      if !output.supportsAirplay2 {
        return None, NotAirplay2;
      }
      if format != STREAM_FORMAT {
        return None, UnsupportedRate;
      }
      neg, e := fate.negotiated, OpenFailed;
      if neg.Some? {
        var g := neg.value;
        var connection := new Connection(g.streamUri, g.sessionId, g.ssrc, g.controlPort);
        connections := connections[output.id := connection];
      }
    }

    method SendAudioTo(id: Id, p: ScheduledPacket, hasBuffer: bool, bytes: nat, fate: SendFate) returns (o: Outcome)
      requires Valid()
      modifies connections.Values
      ensures id !in connections ==> o == Thrown(NoConnection) && Conns() == old(Conns())
      ensures id in connections ==>
        var (c, r) := SendAudio(old(Conns())[id], p, hasBuffer, bytes, fate);
        o == r && Conns() == old(Conns())[id := c]
    {
      if id !in connections {
        return Thrown(NoConnection);
      }
      o := connections[id].SendAudioPacket(p, hasBuffer, bytes, fate);
    }

    method FlushTo(id: Id, rtspSessionId: string, ok: bool) returns (o: Outcome)
      requires Valid()
      modifies connections.Values
      ensures rtspSessionId == "" ==> o == Thrown(EmptySessionId) && Conns() == old(Conns())
      ensures rtspSessionId != "" && id !in connections ==> o == Done && Conns() == old(Conns())
      ensures rtspSessionId != "" && id in connections ==>
        var (c, r) := FlushConn(old(Conns())[id], ok);
        o == r && Conns() == old(Conns())[id := c]
    {
      if rtspSessionId == "" {
        return Thrown(EmptySessionId);
      }
      if id !in connections {
        return Done;
      }
      o := connections[id].Flush(ok);
    }

    /** TEARDOWN failures are swallowed; the connection is dropped either way. */
    method Close(id: Id)
      requires Valid()
      modifies this
      ensures Valid() && connections == old(connections) - {id}
      ensures opens == old(opens)
      ensures Conns() == old(Conns()) - {id}
    {
      connections := connections - {id};
    }

    method SetVolume(id: Id, rtspSessionId: string, ok: bool) returns (o: Outcome)
      requires Valid()
      ensures o ==
        if rtspSessionId == "" then Thrown(EmptySessionId)
        else if id !in connections || connections[id].sessionId != rtspSessionId then Done
        else if connections[id].streamUri == "" then Thrown(NoStreamUri)
        else if ok then Done else Thrown(RequestFailed)
    {
      if rtspSessionId == "" {
        return Thrown(EmptySessionId);
      }
      if id !in connections || connections[id].sessionId != rtspSessionId {
        return Done;
      }
      if connections[id].streamUri == "" {
        return Thrown(NoStreamUri);
      }
      o := if ok then Done else Thrown(RequestFailed);
    }

    /** A metadata exchange; true when it did not throw. */
    method SetMetadata(id: Id, rtspSessionId: string, ok: bool) returns (sent: bool)
      requires Valid()
      ensures sent <==> rtspSessionId != "" && (id in connections ==> connections[id].streamUri != "" && ok)
    {
      sent := rtspSessionId != "" && (id !in connections || (connections[id].streamUri != "" && ok));
    }
  }

  class AirPlaySessionManager {
    const client: ControlClient
    var sessions: map<Id, Session>
    var cancelRequested: bool

    ghost predicate Valid()
      reads this, client
    {
      client.Valid()
    }

    ghost function Model(): Net
      reads this, client, client.connections.Values
    {
      Net(sessions, client.Conns(), cancelRequested, client.opens)
    }

    constructor ()
      ensures Valid() && fresh(client) && client.connections == map[]
      ensures Model() == Net(map[], map[], false, [])
    {
      client := new ControlClient();
      sessions, cancelRequested := map[], false;
    }

    method PrepareOutputs(outputs: seq<OutputDevice>, cancels: nat -> bool) returns (o: Outcome)
      requires Valid()
      modifies this
      ensures Valid()
      ensures (Model(), o) == PrepareFrom(old(Model()), outputs, 0, cancels)
    {
      for i := 0 to |outputs|
        invariant Valid()
        invariant PrepareFrom(Model(), outputs, i, cancels) == PrepareFrom(old(Model()), outputs, 0, cancels)
      {
        var output := outputs[i];
        if cancelRequested || cancels(i) {
          cancelRequested := true;
          return Thrown(Cancelled);
        }
        if output.selected {
          var session := Updated(if output.id in sessions then sessions[output.id] else NEW_SESSION, output);
          if session.phase == Failed {
            session := session.(phase := Closed, lastError := None);
          }
          sessions := sessions[output.id := session];
        }
      }
      o := Done;
    }

    /** The body of the open loop for one selected output. */
    method OpenOutput(output: OutputDevice, format: PcmFormat, fate: OpenFate) returns (o: Outcome)
      requires Valid()
      modifies this, client
      ensures Valid() && fresh(client.connections.Values - old(client.connections.Values))
      ensures (Model(), o) == OpenOne(old(Model()), output, format, fate)
    {
      var session := if output.id in sessions then sessions[output.id] else NEW_SESSION;
      var reuse := CanReuse(session, output, format);
      session := Updated(session, output);
      o := ValidateOutput(output);
      if o.Thrown? {
        sessions := sessions[output.id := FailedSession(session, o.error)];
        return;
      }
      if reuse {
        sessions := sessions[output.id := session.(lastError := None)];
        return;
      }
      o := Connect(output, session, format, fate);
    }

    /** The client call of one open turn and the session it leaves. */
    method Connect(output: OutputDevice, session: Session, format: PcmFormat, fate: OpenFate) returns (o: Outcome)
      requires Valid()
      modifies this, client
      ensures Valid() && fresh(client.connections.Values - old(client.connections.Values))
      ensures (Model(), o) == ConnectOne(old(Model()), output, session, format, fate)
    {
      var neg, e := client.Open(output, format, fate);
      var settled;
      if neg.None? {
        settled, o := FailedSession(session, e), Thrown(e);
      } else if !fate.volumeOk {
        settled, o := FailedSession(session, VolumeFailed), Thrown(VolumeFailed);
      } else {
        settled, o := ReadySession(session, format, neg.value), Done;
      }
      sessions := sessions[output.id := settled];
    }

    method OpenForOutputs(outputs: seq<OutputDevice>, format: PcmFormat, fates: nat -> OpenFate) returns (o: Outcome)
      requires Valid()
      modifies this, client
      ensures Valid() && fresh(client.connections.Values - old(client.connections.Values))
      ensures (Model(), o) == Sessions.OpenForOutputs(old(Model()), outputs, format, fates)
    {
      o := ValidateFormat(format);
      if o.Thrown? {
        return;
      }
      var selected, ready, errors := 0, 0, 0;
      for i := 0 to |outputs|
        invariant Valid() && fresh(client.connections.Values - old(client.connections.Values))
        invariant OpenFrom(Model(), outputs, i, format, fates, selected, ready, errors)
               == OpenFrom(old(Model()), outputs, 0, format, fates, 0, 0, 0)
      {
        if cancelRequested || fates(i).cancelSeen {
          cancelRequested := true;
          return Thrown(Cancelled);
        }
        if outputs[i].selected {
          selected := selected + 1;
          var r := OpenOutput(outputs[i], format, fates(i));
          if r == Done {
            ready := ready + 1;
          } else {
            errors := errors + 1;
          }
        }
      }
      o := if selected != 0 && ready == 0 && errors != 0 then Thrown(NothingOpened) else Done;
    }

    method CloseSession(k: Id)
      requires Valid() && k in sessions
      modifies this, client
      ensures Valid() && client.connections.Values <= old(client.connections.Values)
      ensures Model() == CloseOne(old(Model()), k)
    {
      var session := sessions[k];
      if HasControl(session) {
        client.Close(session.outputId);
      }
      sessions := sessions[k := ClosedSession(session)];
    }

    /** The teardown loop shared by close_missing_outputs and stop. */
    method CloseSessions(keys: set<Id>)
      requires Valid() && keys <= sessions.Keys
      modifies this, client
      ensures Valid() && client.connections.Values <= old(client.connections.Values)
      ensures Model() == CloseKeys(old(Model()), keys)
    {
      var pending := keys;
      ghost var was := Model();
      CloseKeysEnds(was);
      while pending != {}
        invariant pending <= keys && keys <= was.sessions.Keys
        invariant Valid() && client.connections.Values <= old(client.connections.Values)
        invariant Model() == CloseKeys(was, keys - pending)
        decreases |pending|
      {
        var k := Least(pending);
        CloseKeysStep(was, keys - pending, k);
        CloseSession(k);
        assert keys - pending + {k} == keys - (pending - {k});
        pending := pending - {k};
      }
      assert keys - pending == keys;
    }

    method CloseMissingOutputs(outputs: seq<OutputDevice>)
      requires Valid()
      modifies this, client
      ensures Valid() && client.connections.Values <= old(client.connections.Values)
      ensures Model() == CloseMissing(old(Model()), outputs)
    {
      CloseSessions(sessions.Keys - SelectedIds(outputs));
    }

    method Stop()
      requires Valid()
      modifies this, client
      ensures Valid() && client.connections.Values <= old(client.connections.Values)
      ensures Model() == StopAll(old(Model()))
    {
      CloseSessions(sessions.Keys);
    }

    method SetVolume(id: Id, ok: bool) returns (o: Outcome)
      requires Valid()
      ensures o == VolumeOutcome(Model(), id, ok)
    {
      if id !in sessions || !IsReady(sessions[id]) {
        return Done;
      }
      o := client.SetVolume(sessions[id].outputId, sessions[id].rtspSessionId, ok);
    }

    method UpdateSessionMetadata(k: Id, ok: bool)
      requires Valid() && k in sessions
      modifies this
      ensures Valid()
      ensures Model() == MetadataOne(old(Model()), k, ok)
    {
      var session := sessions[k];
      if IsReady(session) {
        var sent := client.SetMetadata(session.outputId, session.rtspSessionId, ok);
        sessions := sessions[k := session.(lastError := if sent then None else Some(MetadataFailed))];
      }
    }

    /** set_metadata and clear_metadata: errors are recorded, never thrown. */
    method UpdateMetadata(oks: Id -> bool)
      requires Valid()
      modifies this
      ensures Valid()
      ensures Model() == MetadataKeys(old(Model()), old(sessions).Keys, oks)
    {
      var pending := sessions.Keys;
      ghost var was := Model();
      MetadataKeysEnds(was, oks);
      while pending != {}
        invariant Valid() && pending <= was.sessions.Keys
        invariant Model() == MetadataKeys(was, was.sessions.Keys - pending, oks)
        decreases |pending|
      {
        var k := Least(pending);
        MetadataKeysStep(was, was.sessions.Keys - pending, k, oks);
        UpdateSessionMetadata(k, oks(k));
        assert was.sessions.Keys - pending + {k} == was.sessions.Keys - (pending - {k});
        pending := pending - {k};
      }
      assert was.sessions.Keys - pending == was.sessions.Keys;
    }

    method EnqueuePacket(p: ScheduledPacket, hasBuffer: bool, bytes: nat, fate: SendFate) returns (o: Outcome)
      requires Valid()
      modifies this, client.connections.Values
      ensures Valid()
      ensures (Model(), o) == Enqueue(old(Model()), p, hasBuffer, bytes, fate)
    {
      if p.outputId !in sessions || sessions[p.outputId].phase != Ready {
        return Thrown(NotReady);
      }
      var session := sessions[p.outputId];
      o := client.SendAudioTo(session.outputId, p, hasBuffer, bytes, fate);
      if o == Done {
        sessions := sessions[p.outputId := session.(queue := session.queue + [p])];
      }
    }

    method FlushSession(k: Id, ok: bool) returns (o: Outcome)
      requires Valid() && k in sessions
      modifies this, client.connections.Values
      ensures Valid() && sessions.Keys == old(sessions.Keys)
      ensures (Model(), o) == FlushOne(old(Model()), k, ok)
    {
      var session := sessions[k];
      if IsReady(session) {
        o := client.FlushTo(session.outputId, session.rtspSessionId, ok);
        if o.Thrown? {
          return;
        }
      }
      sessions := sessions[k := session.(queue := [])];
      o := Done;
    }

    method FlushSessions(oks: Id -> bool) returns (o: Outcome)
      requires Valid()
      modifies this, client.connections.Values
      ensures Valid()
      ensures (Model(), o) == Sessions.Flush(old(Model()), oks)
    {
      var pending := sessions.Keys;
      while pending != {}
        invariant Valid() && pending <= sessions.Keys
        invariant FlushFrom(Model(), pending, oks) == Sessions.Flush(old(Model()), oks)
        decreases |pending|
      {
        var k := Least(pending);
        o := FlushSession(k, oks(k));
        if o.Thrown? {
          return;
        }
        pending := pending - {k};
      }
      o := Done;
    }

    method CancelPendingOpen()
      modifies this
      ensures Model() == old(Model()).(cancelRequested := true)
    {
      cancelRequested := true;
    }

    method ResetPendingOpenCancel()
      modifies this
      ensures Model() == old(Model()).(cancelRequested := false)
    {
      cancelRequested := false;
    }

    /** The ids a packet can be queued for: with the invariant, exactly those for
      * which an enqueue is not refused as not ready (ReadyMeansDeliverable). */
    method ReadyOutputIds() returns (ids: set<Id>)
      ensures ids == ReadyIds(Model())
    {
      ids := {};
      var pending := sessions.Keys;
      while pending != {}
        invariant pending <= sessions.Keys
        invariant forall k :: k in ids <==> k in sessions && k !in pending && sessions[k].phase == Ready && sessions[k].open
        decreases |pending|
      {
        var k := Least(pending);
        if sessions[k].phase == Ready && sessions[k].open {
          ids := ids + {k};
        }
        pending := pending - {k};
      }
    }
  }

  lemma CloseKeysEnds(n: Net)
    ensures CloseKeys(n, {}) == n
  {
    assert CloseKeys(n, {}).sessions == n.sessions;
    assert CloseKeys(n, {}).conns == n.conns;
  }

  function CloseOne(n: Net, k: Id): Net
    requires k in n.sessions
  {
    WithSession(n, k, ClosedSession(n.sessions[k])).(
      conns := if HasControl(n.sessions[k]) then n.conns - {n.sessions[k].outputId} else n.conns)
  }

  lemma CloseKeysStep(n: Net, keys: set<Id>, k: Id)
    requires k in n.sessions && k !in keys
    ensures k in CloseKeys(n, keys).sessions
    ensures CloseKeys(n, keys + {k}) == CloseOne(CloseKeys(n, keys), k)
  {
    var before, after := CloseKeys(n, keys), CloseKeys(n, keys + {k});
    assert after.sessions == before.sessions[k := ClosedSession(n.sessions[k])];
    assert after.conns == CloseOne(before, k).conns;
  }

  lemma MetadataKeysEnds(n: Net, oks: Id -> bool)
    ensures MetadataKeys(n, {}, oks) == n
    ensures n.sessions.Keys - n.sessions.Keys == {}
  {
    assert MetadataKeys(n, {}, oks).sessions == n.sessions;
  }

  function MetadataOne(n: Net, k: Id, ok: bool): Net
    requires k in n.sessions
  {
    if !IsReady(n.sessions[k]) then n
    else
      WithSession(n, k, n.sessions[k].(
        lastError := if MetadataOk(n, n.sessions[k], ok) then None else Some(MetadataFailed)))
  }

  lemma MetadataKeysStep(n: Net, keys: set<Id>, k: Id, oks: Id -> bool)
    requires k in n.sessions && k !in keys
    ensures k in MetadataKeys(n, keys, oks).sessions
    ensures MetadataKeys(n, keys + {k}, oks) == MetadataOne(MetadataKeys(n, keys, oks), k, oks(k))
  {
    var before, after := MetadataKeys(n, keys, oks), MetadataKeys(n, keys + {k}, oks);
    assert after.sessions == MetadataOne(before, k, oks(k)).sessions;
  }
}
