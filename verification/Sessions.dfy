/**
 * The session state machine over all receivers: setup, reuse, failure, delivery,
 * flush and teardown, with a control client that may fail at every call.
 *
 * Net is the state as a value and the functions on it are the specification; the
 * environment's answers (the fates) are explicit arguments. A thrown exception
 * is an Outcome beside the state it left behind.
 */
module Sessions {
  import opened Common
  import opened Devices
  import opened KeyOrder
  import opened Scheduler
  import opened Receiver

  datatype Phase = Closed | Connecting | Ready | Failed

  datatype Ports = Ports(
    localData: u16, localControl: u16, localTiming: u16, serverData: u16, serverControl: u16, serverTiming: u16)

  const NO_PORTS := Ports(0, 0, 0, 0, 0, 0)

  datatype Session = Session(
    outputId: Id,
    outputName: string,
    endpointHost: string,
    endpointPort: u16,
    phase: Phase,
    open: bool,
    format: PcmFormat,
    rtspSessionId: string,
    streamUri: string,
    server: string,
    methods: seq<string>,
    ports: Ports,
    lastError: Option<Error>,
    queue: seq<ScheduledPacket>)

  const NEW_SESSION := Session(NO_ID, "", "", 0, Closed, false, NO_FORMAT, "", "", "", [], NO_PORTS, None, [])

  /** A completed negotiation. The session id is a printed number and the stream
    * URI starts with its scheme, so neither is ever empty. */
  datatype NegotiatedText = Negotiated(
    sessionId: string, streamUri: string, server: string, methods: seq<string>, ports: Ports, ssrc: u32,
    controlPort: u16)

  type Negotiated = n: NegotiatedText | n.sessionId != "" && n.streamUri != ""
    witness NegotiatedText.Negotiated("1", "rtsp://h/1", "", [], NO_PORTS, 1, 1)

  /** How the world answers one turn of the open loop: a cancellation seen at its
    * head, the negotiation (None when it throws), and the volume request. */
  datatype OpenFate = OpenFate(cancelSeen: bool, negotiated: Option<Negotiated>, volumeOk: bool)

  datatype Net = Net(
    sessions: map<Id, Session>, conns: map<Id, Conn>, cancelRequested: bool, opens: seq<Id>)

  // ---- one session

  function SessionOf(n: Net, id: Id): Session {
    if id in n.sessions then n.sessions[id] else NEW_SESSION
  }

  function WithSession(n: Net, id: Id, s: Session): Net { n.(sessions := n.sessions[id := s]) }

  function Updated(s: Session, o: OutputDevice): Session {
    s.(outputId := o.id, outputName := o.name, endpointHost := o.endpointHost, endpointPort := o.endpointPort)
  }

  function FailedSession(s: Session, e: Error): Session {
    s.(phase := Failed, open := false, format := NO_FORMAT, rtspSessionId := "", streamUri := "", server := "",
       methods := [], ports := NO_PORTS, lastError := Some(e), queue := [])
  }

  function ReadySession(s: Session, format: PcmFormat, neg: Negotiated): Session {
    s.(phase := Ready, open := true, format := format, rtspSessionId := neg.sessionId, streamUri := neg.streamUri,
       server := neg.server, methods := neg.methods, ports := neg.ports, lastError := None, queue := [])
  }

  function ClosedSession(s: Session): Session {
    s.(phase := Closed, open := false, rtspSessionId := "", streamUri := "", server := "", methods := [],
       ports := NO_PORTS, lastError := None, queue := [])
  }

  predicate CanReuse(s: Session, o: OutputDevice, format: PcmFormat) {
    s.phase == Ready && s.open && s.endpointHost == o.endpointHost && s.endpointPort == o.endpointPort
    && s.format == format
  }

  predicate IsReady(s: Session) { s.phase == Ready && s.open }

  // ---- prepare_outputs

  function PrepareOne(n: Net, o: OutputDevice, cancelSeen: bool): (Net, Outcome) {
    if n.cancelRequested || cancelSeen then (n.(cancelRequested := true), Thrown(Cancelled))
    else if !o.selected then (n, Done)
    else
      var s := Updated(SessionOf(n, o.id), o);
      (WithSession(n, o.id, if s.phase == Failed then s.(phase := Closed, lastError := None) else s), Done)
  }

  function PrepareFrom(n: Net, outputs: seq<OutputDevice>, i: nat, cancels: nat -> bool): (Net, Outcome)
    requires i <= |outputs|
    decreases |outputs| - i
  {
    if i == |outputs| then (n, Done)
    else
      var (m, o) := PrepareOne(n, outputs[i], cancels(i));
      if o.Thrown? then (m, o) else PrepareFrom(m, outputs, i + 1, cancels)
  }

  // ---- open_for_outputs

  function ValidateFormat(format: PcmFormat): Outcome {
    if format.channels != 2 || format.bitsPerSample != 16 || (format.sampleRate != 44100 && format.sampleRate != 48000)
    then Thrown(BadFormat) else Done
  }

  function ValidateOutput(o: OutputDevice): Outcome {
    if !o.supportsAirplay2 then Thrown(NotAirplay2)
    else if o.endpointHost == "" || o.endpointPort == 0 then Thrown(NoEndpoint)
    else Done
  }

  const STREAM_FORMAT := PcmFormat(STREAM_RATE, 2, 16)

  /** The client's own open: it negotiates 44.1 kHz only. */
  function ClientOpen(o: OutputDevice, format: PcmFormat, fate: OpenFate): (Option<Negotiated>, Error) {
    if !o.supportsAirplay2 then (None, NotAirplay2)
    else if format != STREAM_FORMAT then (None, UnsupportedRate)
    else (fate.negotiated, OpenFailed)
  }

  /** The client call of one open turn: the connection it adds, if any, and the
    * session that results. A volume failure leaves the connection behind. */
  function ConnectOne(n: Net, o: OutputDevice, u: Session, format: PcmFormat, fate: OpenFate): (Net, Outcome) {
    var called := n.(opens := n.opens + [o.id]);
    var (neg, e) := ClientOpen(o, format, fate);
    match neg
    case None => (WithSession(called, o.id, FailedSession(u, e)), Thrown(e))
    case Some(g) =>
      var linked := called.(conns := n.conns[o.id := NewConn(g.streamUri, g.sessionId, g.ssrc, g.controlPort)]);
      if !fate.volumeOk then (WithSession(linked, o.id, FailedSession(u, VolumeFailed)), Thrown(VolumeFailed))
      else (WithSession(linked, o.id, ReadySession(u, format, g)), Done)
  }

  function OpenOne(n: Net, o: OutputDevice, format: PcmFormat, fate: OpenFate): (Net, Outcome) {
    var s := SessionOf(n, o.id);
    var u := Updated(s, o);
    var v := ValidateOutput(o);
    if v.Thrown? then (WithSession(n, o.id, FailedSession(u, v.error)), v)
    else if CanReuse(s, o, format) then (WithSession(n, o.id, u.(lastError := None)), Done)
    else ConnectOne(n, o, u, format, fate)
  }

  /** The open loop from output i on: counts of selected, ready and failed so far. */
  function OpenFrom(
    n: Net, outputs: seq<OutputDevice>, i: nat, format: PcmFormat, fates: nat -> OpenFate,
    selected: nat, ready: nat, errors: nat): (Net, Outcome)
    requires i <= |outputs|
    decreases |outputs| - i
  {
    if i == |outputs| then
      (n, if selected != 0 && ready == 0 && errors != 0 then Thrown(NothingOpened) else Done)
    else if n.cancelRequested || fates(i).cancelSeen then (n.(cancelRequested := true), Thrown(Cancelled))
    else if !outputs[i].selected then OpenFrom(n, outputs, i + 1, format, fates, selected, ready, errors)
    else
      var (m, o) := OpenOne(n, outputs[i], format, fates(i));
      if o.Thrown? then OpenFrom(m, outputs, i + 1, format, fates, selected + 1, ready, errors + 1)
      else OpenFrom(m, outputs, i + 1, format, fates, selected + 1, ready + 1, errors)
  }

  function OpenForOutputs(n: Net, outputs: seq<OutputDevice>, format: PcmFormat, fates: nat -> OpenFate): (Net, Outcome) {
    if ValidateFormat(format).Thrown? then (n, ValidateFormat(format))
    else OpenFrom(n, outputs, 0, format, fates, 0, 0, 0)
  }

  // ---- closing, metadata, volume

  predicate HasControl(s: Session) { s.open || s.rtspSessionId != "" }

  function CloseKeys(n: Net, keys: set<Id>): Net {
    n.(sessions := map k | k in n.sessions :: if k in keys then ClosedSession(n.sessions[k]) else n.sessions[k],
       conns := n.conns - set k | k in keys && k in n.sessions && HasControl(n.sessions[k]) :: n.sessions[k].outputId)
  }

  function SelectedIds(outputs: seq<OutputDevice>): set<Id> {
    set o | o in outputs && o.selected :: o.id
  }

  function CloseMissing(n: Net, outputs: seq<OutputDevice>): Net {
    CloseKeys(n, n.sessions.Keys - SelectedIds(outputs))
  }

  function StopAll(n: Net): Net { CloseKeys(n, n.sessions.Keys) }

  predicate MetadataOk(n: Net, s: Session, ok: bool) {
    s.rtspSessionId != "" && (s.outputId in n.conns ==> n.conns[s.outputId].streamUri != "" && ok)
  }

  function MetadataKeys(n: Net, keys: set<Id>, oks: Id -> bool): Net {
    n.(sessions := map k | k in n.sessions ::
      var s := n.sessions[k];
      if k !in keys || !IsReady(s) then s
      else s.(lastError := if MetadataOk(n, s, oks(k)) then None else Some(MetadataFailed)))
  }

  /** A volume request changes no session state; it can only throw. */
  function VolumeOutcome(n: Net, id: Id, ok: bool): Outcome {
    if id !in n.sessions || !IsReady(n.sessions[id]) then Done
    else
      var s := n.sessions[id];
      if s.rtspSessionId == "" then Thrown(EmptySessionId)
      else if s.outputId !in n.conns || n.conns[s.outputId].sessionId != s.rtspSessionId then Done
      else if n.conns[s.outputId].streamUri == "" then Thrown(NoStreamUri)
      else if ok then Done else Thrown(RequestFailed)
  }

  // ---- enqueue and flush

  function Enqueue(n: Net, p: ScheduledPacket, hasBuffer: bool, bytes: nat, fate: SendFate): (Net, Outcome) {
    if p.outputId !in n.sessions || n.sessions[p.outputId].phase != Ready then (n, Thrown(NotReady))
    else
      var s := n.sessions[p.outputId];
      if s.outputId !in n.conns then (n, Thrown(NoConnection))
      else
        var (c, o) := SendAudio(n.conns[s.outputId], p, hasBuffer, bytes, fate);
        var sent := n.(conns := n.conns[s.outputId := c]);
        if o.Thrown? then (sent, o) else (WithSession(sent, p.outputId, s.(queue := s.queue + [p])), Done)
  }

  function EnqueueFrom(
    n: Net, packets: seq<ScheduledPacket>, i: nat, hasBuffer: bool, bytes: nat, fates: nat -> SendFate): (Net, Outcome)
    requires i <= |packets|
    decreases |packets| - i
  {
    if i == |packets| then (n, Done)
    else
      var (m, o) := Enqueue(n, packets[i], hasBuffer, bytes, fates(i));
      if o.Thrown? then (m, o) else EnqueueFrom(m, packets, i + 1, hasBuffer, bytes, fates)
  }

  function ClientFlush(n: Net, s: Session, ok: bool): (Net, Outcome) {
    if s.rtspSessionId == "" then (n, Thrown(EmptySessionId))
    else if s.outputId !in n.conns then (n, Done)
    else
      var (c, o) := FlushConn(n.conns[s.outputId], ok);
      (n.(conns := n.conns[s.outputId := c]), o)
  }

  function FlushOne(n: Net, k: Id, ok: bool): (Net, Outcome)
    requires k in n.sessions
  {
    var s := n.sessions[k];
    var (m, o) := if IsReady(s) then ClientFlush(n, s, ok) else (n, Done);
    if o.Thrown? then (m, o) else (WithSession(m, k, s.(queue := [])), Done)
  }

  /** The flush loop over the sessions still pending, stopping at the first throw. */
  function FlushFrom(n: Net, pending: set<Id>, oks: Id -> bool): (Net, Outcome)
    requires pending <= n.sessions.Keys
    decreases |pending|
  {
    if pending == {} then (n, Done)
    else
      var k := Least(pending);
      var (m, o) := FlushOne(n, k, oks(k));
      if o.Thrown? then (m, o) else FlushFrom(m, pending - {k}, oks)
  }

  function Flush(n: Net, oks: Id -> bool): (Net, Outcome) { FlushFrom(n, n.sessions.Keys, oks) }

  function ReadyIds(n: Net): set<Id> { set k | k in n.sessions && IsReady(n.sessions[k]) }

  // ---- the invariant

  /** One session between calls, with the connection recorded for its output. */
  ghost predicate SessionOk(n: Net, k: Id)
    requires k in n.sessions
  {
    var s := n.sessions[k];
    && s.outputId == k
    && s.phase != Connecting
    && (s.phase == Ready <==> s.open)
    && (s.phase == Failed ==> s.lastError.Some?)
    && (s.phase != Ready ==>
          s.rtspSessionId == "" && s.streamUri == "" && s.server == "" && s.methods == []
          && s.ports == Ports(0, 0, 0, 0, 0, 0) && s.queue == [])
    && (s.phase == Ready ==>
          && k in n.conns
          && s.rtspSessionId != "" && n.conns[k].sessionId == s.rtspSessionId
          && s.streamUri != "" && n.conns[k].streamUri == s.streamUri
          && s.format == STREAM_FORMAT
          && s.queue == n.conns[k].delivered)
  }

  ghost predicate SessionsOk(n: Net) {
    && (forall k :: k in n.sessions ==> SessionOk(n, k))
    && (forall k :: k in n.conns ==> ConnOk(n.conns[k]))
  }

  /** Every Ready receiver that has started sync started from the given anchor. */
  ghost predicate Anchored(n: Net, valid: bool, anchor: u64) {
    forall k :: AnchoredAt(n, k, valid, anchor)
  }

  ghost predicate AnchoredAt(n: Net, k: Id, valid: bool, anchor: u64) {
    Starting(n, k) ==> valid && n.conns[k].syncStartRtp == anchor
  }

  /** A Ready receiver whose connection has started sync. */
  predicate Starting(n: Net, k: Id) {
    k in n.sessions && IsReady(n.sessions[k]) && k in n.conns && n.conns[k].syncStarted
  }

  ghost predicate NoSyncStarted(n: Net) {
    forall k :: !Starting(n, k)
  }

  // ---- what a partial open may touch

  ghost predicate SelectedFrom(outputs: seq<OutputDevice>, i: nat, k: Id) {
    exists j :: i <= j < |outputs| && outputs[j].selected && outputs[j].id == k
  }

  ghost predicate Unchanged(n: Net, m: Net, k: Id) {
    && (k in m.sessions <==> k in n.sessions) && (k in n.sessions ==> m.sessions[k] == n.sessions[k])
    && (k in m.conns <==> k in n.conns) && (k in n.conns ==> m.conns[k] == n.conns[k])
  }

  /** Ready, or Failed with an error. */
  ghost predicate Settled(m: Net, k: Id) {
    && k in m.sessions
    && (IsReady(m.sessions[k]) || (m.sessions[k].phase == Failed && m.sessions[k].lastError.Some?))
  }

  predicate Reusable(n: Net, o: OutputDevice, format: PcmFormat) {
    ValidateOutput(o) == Done && CanReuse(SessionOf(n, o.id), o, format)
  }

  ghost predicate NoCancel(n: Net, fates: nat -> OpenFate) {
    !n.cancelRequested && forall i :: !fates(i).cancelSeen
  }

  // ---- preservation

  /** Steps on one id: the invariant needs checking only there. */
  lemma FrameOk(n: Net, m: Net, id: Id)
    requires SessionsOk(n)
    requires id in m.sessions ==> SessionOk(m, id)
    requires id in m.conns ==> ConnOk(m.conns[id])
    requires forall k :: k != id ==> Unchanged(n, m, k)
    ensures SessionsOk(m)
  {
    forall k | k in m.sessions ensures SessionOk(m, k) {
      if k != id { assert Unchanged(n, m, k); assert SessionOk(n, k); }
    }
    forall k | k in m.conns ensures ConnOk(m.conns[k]) {
      if k != id { assert Unchanged(n, m, k); }
    }
  }

  lemma FrameAnchored(n: Net, m: Net, id: Id, valid: bool, anchor: u64)
    requires Anchored(n, valid, anchor) && AnchoredAt(m, id, valid, anchor)
    requires forall k :: k != id ==> Unchanged(n, m, k)
    ensures Anchored(m, valid, anchor)
  {
    forall k ensures AnchoredAt(m, k, valid, anchor) {
      if k != id { assert Unchanged(n, m, k) && AnchoredAt(n, k, valid, anchor); }
    }
  }

  lemma SameTablesKeep(n: Net, m: Net, valid: bool, anchor: u64)
    requires SessionsOk(n) && Anchored(n, valid, anchor)
    requires m.sessions == n.sessions && m.conns == n.conns
    ensures SessionsOk(m) && Anchored(m, valid, anchor)
  {
    forall k | k in m.sessions ensures SessionOk(m, k) { assert SessionOk(n, k); }
    forall k ensures AnchoredAt(m, k, valid, anchor) { assert AnchoredAt(n, k, valid, anchor); }
  }

  lemma PrepareOneKeeps(n: Net, o: OutputDevice, cancelSeen: bool, valid: bool, anchor: u64)
    requires SessionsOk(n) && Anchored(n, valid, anchor)
    ensures SessionsOk(PrepareOne(n, o, cancelSeen).0) && Anchored(PrepareOne(n, o, cancelSeen).0, valid, anchor)
  {
    var m := PrepareOne(n, o, cancelSeen).0;
    if o.id in n.sessions { assert SessionOk(n, o.id); }
    assert AnchoredAt(n, o.id, valid, anchor);
    FrameOk(n, m, o.id);
    FrameAnchored(n, m, o.id, valid, anchor);
  }

  lemma {:induction false} PrepareKeeps(
    n: Net, outputs: seq<OutputDevice>, i: nat, cancels: nat -> bool, valid: bool, anchor: u64)
    requires i <= |outputs|
    requires SessionsOk(n) && Anchored(n, valid, anchor)
    ensures SessionsOk(PrepareFrom(n, outputs, i, cancels).0)
    ensures Anchored(PrepareFrom(n, outputs, i, cancels).0, valid, anchor)
    decreases |outputs| - i
  {
    if i == |outputs| {
    } else {
      PrepareOneKeeps(n, outputs[i], cancels(i), valid, anchor);
      PrepareKeeps(PrepareOne(n, outputs[i], cancels(i)).0, outputs, i + 1, cancels, valid, anchor);
    }
  }

  lemma NewConnOk(g: Negotiated)
    ensures ConnOk(NewConn(g.streamUri, g.sessionId, g.ssrc, g.controlPort))
  {
  }

  /** Everything one turn of the open loop says about its own output and the others. */
  ghost predicate TurnIsLocal(n: Net, id: Id, m: Net, out: Outcome) {
    && id in m.sessions
    && m.cancelRequested == n.cancelRequested
    && (if out == Done then IsReady(m.sessions[id])
        else m.sessions[id].phase == Failed && m.sessions[id].lastError == Some(out.error))
    && (forall k :: k != id ==> Unchanged(n, m, k))
    && (m.opens == n.opens || m.opens == n.opens + [id])
  }

  ghost predicate OpenOneLocal(n: Net, o: OutputDevice, format: PcmFormat, fate: OpenFate) {
    var (m, out) := OpenOne(n, o, format, fate);
    && TurnIsLocal(n, o.id, m, out)
    && (Reusable(n, o, format) ==>
          out == Done && m.opens == n.opens && m.conns == n.conns && m.sessions[o.id].queue == n.sessions[o.id].queue)
  }

  lemma ConnectOneIsLocal(n: Net, o: OutputDevice, u: Session, format: PcmFormat, fate: OpenFate)
    ensures TurnIsLocal(n, o.id, ConnectOne(n, o, u, format, fate).0, ConnectOne(n, o, u, format, fate).1)
  {
  }

  /** Opening one receiver leaves it Ready, or Failed with the error reported. */
  lemma OpenOneIsLocal(n: Net, o: OutputDevice, format: PcmFormat, fate: OpenFate)
    ensures OpenOneLocal(n, o, format, fate)
  {
    ConnectOneIsLocal(n, o, Updated(SessionOf(n, o.id), o), format, fate);
  }

  lemma ConnectOneOk(n: Net, o: OutputDevice, u: Session, format: PcmFormat, fate: OpenFate)
    requires SessionsOk(n) && u.outputId == o.id
    ensures SessionsOk(ConnectOne(n, o, u, format, fate).0)
  {
    ConnectOneIsLocal(n, o, u, format, fate);
    if fate.negotiated.Some? { NewConnOk(fate.negotiated.value); }
    FrameOk(n, ConnectOne(n, o, u, format, fate).0, o.id);
  }

  lemma PutSessionOk(n: Net, id: Id, s: Session)
    requires SessionsOk(n) && SessionOk(WithSession(n, id, s), id)
    ensures SessionsOk(WithSession(n, id, s))
  {
    FrameOk(n, WithSession(n, id, s), id);
  }

  lemma OpenOneOk(n: Net, o: OutputDevice, format: PcmFormat, fate: OpenFate)
    requires SessionsOk(n)
    ensures SessionsOk(OpenOne(n, o, format, fate).0)
  {
    var s := SessionOf(n, o.id);
    var u := Updated(s, o);
    if ValidateOutput(o).Thrown? {
      PutSessionOk(n, o.id, FailedSession(u, ValidateOutput(o).error));
    } else if CanReuse(s, o, format) {
      assert SessionOk(n, o.id);
      PutSessionOk(n, o.id, u.(lastError := None));
    } else {
      ConnectOneOk(n, o, u, format, fate);
    }
  }

  lemma OpenOneAnchored(n: Net, o: OutputDevice, format: PcmFormat, fate: OpenFate, valid: bool, anchor: u64)
    requires Anchored(n, valid, anchor)
    ensures Anchored(OpenOne(n, o, format, fate).0, valid, anchor)
  {
    OpenOneIsLocal(n, o, format, fate);
    assert AnchoredAt(n, o.id, valid, anchor);
    FrameAnchored(n, OpenOne(n, o, format, fate).0, o.id, valid, anchor);
  }

  lemma {:induction false} OpenKeeps(
    n: Net, outputs: seq<OutputDevice>, i: nat, format: PcmFormat, fates: nat -> OpenFate,
    selected: nat, ready: nat, errors: nat, valid: bool, anchor: u64)
    requires i <= |outputs|
    requires SessionsOk(n) && Anchored(n, valid, anchor)
    ensures SessionsOk(OpenFrom(n, outputs, i, format, fates, selected, ready, errors).0)
    ensures Anchored(OpenFrom(n, outputs, i, format, fates, selected, ready, errors).0, valid, anchor)
    decreases |outputs| - i
  {
    SameTablesKeep(n, n.(cancelRequested := true), valid, anchor);
    if i < |outputs| && !(n.cancelRequested || fates(i).cancelSeen) {
      if !outputs[i].selected {
        OpenKeeps(n, outputs, i + 1, format, fates, selected, ready, errors, valid, anchor);
      } else {
        var (m, o) := OpenOne(n, outputs[i], format, fates(i));
        OpenOneOk(n, outputs[i], format, fates(i));
        OpenOneAnchored(n, outputs[i], format, fates(i), valid, anchor);
        if o.Thrown? {
          OpenKeeps(m, outputs, i + 1, format, fates, selected + 1, ready, errors + 1, valid, anchor);
        } else {
          OpenKeeps(m, outputs, i + 1, format, fates, selected + 1, ready + 1, errors, valid, anchor);
        }
      }
    }
  }

  lemma CloseOk(n: Net, keys: set<Id>)
    requires SessionsOk(n)
    ensures SessionsOk(CloseKeys(n, keys))
  {
    var m := CloseKeys(n, keys);
    forall j | j in keys && j in n.sessions ensures n.sessions[j].outputId == j { assert SessionOk(n, j); }
    forall k | k in m.sessions ensures SessionOk(m, k) {
      assert SessionOk(n, k);
    }
  }

  /** A session whose output is not selected ends Closed and blank, and its connection
    * is dropped if it was Ready; the others are untouched. */
  lemma DeselectedIsClosed(n: Net, outputs: seq<OutputDevice>, k: Id)
    requires SessionsOk(n)
    ensures var m := CloseMissing(n, outputs);
      if k in n.sessions && !exists o: OutputDevice :: o in outputs && o.selected && o.id == k
      then
        && k in m.sessions && m.sessions[k].phase == Closed && !m.sessions[k].open && m.sessions[k].rtspSessionId == ""
        && m.sessions[k].streamUri == "" && m.sessions[k].queue == [] && m.sessions[k].lastError == None
        && m.sessions[k].outputId == n.sessions[k].outputId
        && (k in m.conns <==> k in n.conns && !IsReady(n.sessions[k]))
      else Unchanged(n, m, k)
  {
    var keys := n.sessions.Keys - SelectedIds(outputs);
    forall j | j in keys ensures n.sessions[j].outputId == j { assert SessionOk(n, j); }
    if k in n.sessions { assert SessionOk(n, k); }
    if o: OutputDevice :| o in outputs && o.selected && o.id == k { assert k in SelectedIds(outputs); }
  }

  lemma CloseKeeps(n: Net, keys: set<Id>, valid: bool, anchor: u64)
    requires SessionsOk(n) && Anchored(n, valid, anchor)
    ensures SessionsOk(CloseKeys(n, keys)) && Anchored(CloseKeys(n, keys), valid, anchor)
  {
    CloseOk(n, keys);
    forall k ensures AnchoredAt(CloseKeys(n, keys), k, valid, anchor) {
      assert AnchoredAt(n, k, valid, anchor);
    }
  }

  /** After stop no receiver is Ready, whatever happened before. */
  lemma StopLeavesNothingReady(n: Net)
    ensures NoSyncStarted(StopAll(n)) && ReadyIds(StopAll(n)) == {}
  {
  }

  lemma MetadataKeeps(n: Net, keys: set<Id>, oks: Id -> bool, valid: bool, anchor: u64)
    requires SessionsOk(n) && Anchored(n, valid, anchor)
    ensures SessionsOk(MetadataKeys(n, keys, oks)) && Anchored(MetadataKeys(n, keys, oks), valid, anchor)
  {
    var m := MetadataKeys(n, keys, oks);
    forall k | k in m.sessions ensures SessionOk(m, k) {
      assert SessionOk(n, k);
    }
    forall k ensures AnchoredAt(m, k, valid, anchor) {
      assert AnchoredAt(n, k, valid, anchor);
    }
  }

  /** A metadata pass asks the Ready sessions only, and what it leaves of a refusal is an
    * error beside the session. */
  lemma MetadataIsRecorded(n: Net, oks: Id -> bool, k: Id)
    requires SessionsOk(n) && k in n.sessions
    ensures var m := MetadataKeys(n, n.sessions.Keys, oks);
      && m.conns == n.conns && m.sessions.Keys == n.sessions.Keys
      && m.sessions[k] == if k !in ReadyIds(n) then n.sessions[k]
           else n.sessions[k].(lastError := if oks(k) then None else Some(MetadataFailed))
  {
    assert SessionOk(n, k);
  }

  /** Preparing a selected output records its name and endpoint and turns a failed
    * session into a closed one; one in any other phase is otherwise as it was. */
  lemma PrepareRecords(n: Net, o: OutputDevice)
    requires !n.cancelRequested
    ensures var (m, r) := PrepareOne(n, o, false); var was := SessionOf(n, o.id);
      && r == Done
      && (!o.selected ==> m == n)
      && (o.selected ==>
            && o.id in m.sessions
            && m.sessions[o.id].outputName == o.name && m.sessions[o.id].outputId == o.id
            && m.sessions[o.id].endpointHost == o.endpointHost && m.sessions[o.id].endpointPort == o.endpointPort
            && m.sessions[o.id].phase == (if was.phase == Failed then Closed else was.phase)
            && m.sessions[o.id].lastError == (if was.phase == Failed then None else was.lastError)
            && m.sessions[o.id].rtspSessionId == was.rtspSessionId && m.sessions[o.id].queue == was.queue
            && m.conns == n.conns)
  {
  }

  /** Delivery to one Ready receiver: the packet joins the queue exactly when the
    * send returned, and none of the closed-session errors can occur. */
  lemma EnqueueDelivers(n: Net, p: ScheduledPacket, hasBuffer: bool, bytes: nat, fate: SendFate)
    requires SessionsOk(n) && p.outputId in ReadyIds(n)
    ensures var (m, o) := Enqueue(n, p, hasBuffer, bytes, fate);
      && p.outputId in m.conns && p.outputId in n.conns
      && (m.conns[p.outputId], o) == SendAudio(n.conns[p.outputId], p, hasBuffer, bytes, fate)
      && o != Thrown(NotReady) && o != Thrown(NoConnection)
      && (o == Thrown(MissingAnchor) ==> !p.groupSyncAnchorValid)
      && m.sessions == n.sessions[p.outputId :=
           n.sessions[p.outputId].(queue := n.sessions[p.outputId].queue + if o == Done then [p] else [])]
      && m.conns == n.conns[p.outputId := m.conns[p.outputId]]
  {
    assert SessionOk(n, p.outputId);
    var c := n.conns[p.outputId];
    var o := SendAudio(c, p, hasBuffer, bytes, fate).1;
    if o.Thrown? {
      SendAudioThrows(c, p, hasBuffer, bytes, fate);
      var s := n.sessions[p.outputId];
      assert s.queue + [] == s.queue;
      assert n.sessions[p.outputId := s] == n.sessions;
    }
  }

  /** What being listed as ready means for a sender: an enqueue for the id is refused
    * as not ready exactly when the id is not listed. */
  lemma ReadyMeansDeliverable(n: Net, p: ScheduledPacket, hasBuffer: bool, bytes: nat, fate: SendFate)
    requires SessionsOk(n)
    ensures p.outputId in ReadyIds(n) <==> Enqueue(n, p, hasBuffer, bytes, fate).1 != Thrown(NotReady)
    ensures Enqueue(n, p, hasBuffer, bytes, fate).1 != Thrown(NoConnection)
  {
    if p.outputId in ReadyIds(n) { EnqueueDelivers(n, p, hasBuffer, bytes, fate); }
    else if p.outputId in n.sessions { assert SessionOk(n, p.outputId); }
  }

  lemma EnqueueOk(n: Net, p: ScheduledPacket, hasBuffer: bool, bytes: nat, fate: SendFate)
    requires SessionsOk(n)
    ensures SessionsOk(Enqueue(n, p, hasBuffer, bytes, fate).0)
    ensures ReadyIds(Enqueue(n, p, hasBuffer, bytes, fate).0) == ReadyIds(n)
  {
    var id := p.outputId;
    if id in n.sessions && n.sessions[id].phase == Ready {
      assert SessionOk(n, id);
      var m := Enqueue(n, p, hasBuffer, bytes, fate).0;
      EnqueueDelivers(n, p, hasBuffer, bytes, fate);
      var c := n.conns[id];
      SendAudioKeeps(c, p, hasBuffer, bytes, fate);
      SendAudioStart(c, p, hasBuffer, bytes, fate);
      if SendAudio(c, p, hasBuffer, bytes, fate).1 == Done { SendAudioDelivers(c, p, hasBuffer, bytes, fate); }
      else { SendAudioThrows(c, p, hasBuffer, bytes, fate); }
      assert SessionOk(m, id);
      FrameOk(n, m, id);
    }
  }

  lemma EnqueueAnchored(n: Net, p: ScheduledPacket, hasBuffer: bool, bytes: nat, fate: SendFate)
    requires SessionsOk(n) && p.groupSyncAnchorValid && Anchored(n, true, p.groupSyncStartRtp)
    ensures Anchored(Enqueue(n, p, hasBuffer, bytes, fate).0, true, p.groupSyncStartRtp)
  {
    var id := p.outputId;
    if id in n.sessions && n.sessions[id].phase == Ready {
      assert SessionOk(n, id);
      EnqueueDelivers(n, p, hasBuffer, bytes, fate);
      SendAudioStart(n.conns[id], p, hasBuffer, bytes, fate);
      assert AnchoredAt(n, id, true, p.groupSyncStartRtp);
      FrameAnchored(n, Enqueue(n, p, hasBuffer, bytes, fate).0, id, true, p.groupSyncStartRtp);
    }
  }

  lemma {:induction false} EnqueueFromKeeps(
    n: Net, packets: seq<ScheduledPacket>, i: nat, hasBuffer: bool, bytes: nat, fates: nat -> SendFate, anchor: u64)
    requires i <= |packets|
    requires SessionsOk(n) && Anchored(n, true, anchor)
    requires forall j :: i <= j < |packets| ==>
      packets[j].groupSyncAnchorValid && packets[j].groupSyncStartRtp == anchor && packets[j].outputId in ReadyIds(n)
    ensures var (m, o) := EnqueueFrom(n, packets, i, hasBuffer, bytes, fates);
      && SessionsOk(m) && Anchored(m, true, anchor)
      && o != Thrown(NotReady) && o != Thrown(NoConnection) && o != Thrown(MissingAnchor)
    decreases |packets| - i
  {
    if i == |packets| {
    } else {
      EnqueueOk(n, packets[i], hasBuffer, bytes, fates(i));
      EnqueueAnchored(n, packets[i], hasBuffer, bytes, fates(i));
      EnqueueDelivers(n, packets[i], hasBuffer, bytes, fates(i));
      EnqueueFromKeeps(Enqueue(n, packets[i], hasBuffer, bytes, fates(i)).0, packets, i + 1, hasBuffer, bytes, fates, anchor);
    }
  }

  /** Flushing one session either throws and changes nothing, or empties its queue
    * and, when it is Ready, makes its receiver forget the sync start. */
  lemma FlushOneIsLocal(n: Net, k: Id, ok: bool)
    requires SessionsOk(n) && k in n.sessions
    ensures var (m, o) := FlushOne(n, k, ok);
      && m.sessions.Keys == n.sessions.Keys
      && (forall j :: j != k ==> Unchanged(n, m, j))
      && (o.Thrown? ==> m == n && IsReady(n.sessions[k]) && !ok)
      && (o == Done ==>
            && m.sessions[k] == n.sessions[k].(queue := [])
            && (IsReady(n.sessions[k]) ==>
                  k in n.conns && k in m.conns && m.conns[k] == FlushConn(n.conns[k], true).0)
            && (!IsReady(n.sessions[k]) ==> m.conns == n.conns))
  {
    assert SessionOk(n, k);
    if k in n.conns && FlushOne(n, k, ok).1.Thrown? { assert n.conns[k := n.conns[k]] == n.conns; }
  }

  lemma FlushOneKeeps(n: Net, k: Id, ok: bool, valid: bool, anchor: u64)
    requires SessionsOk(n) && Anchored(n, valid, anchor) && k in n.sessions
    ensures SessionsOk(FlushOne(n, k, ok).0) && Anchored(FlushOne(n, k, ok).0, valid, anchor)
  {
    FlushOneIsLocal(n, k, ok);
    assert SessionOk(n, k);
    var (m, o) := FlushOne(n, k, ok);
    if o == Done {
      if k in n.conns { FlushConnKeeps(n.conns[k], true); }
      assert AnchoredAt(n, k, valid, anchor);
      FrameOk(n, m, k);
      FrameAnchored(n, m, k, valid, anchor);
    }
  }

  lemma FlushOneOk(n: Net, k: Id, ok: bool)
    requires SessionsOk(n) && k in n.sessions
    ensures SessionsOk(FlushOne(n, k, ok).0) && ReadyIds(FlushOne(n, k, ok).0) == ReadyIds(n)
    ensures FlushOne(n, k, ok).1.Thrown? <==> k in ReadyIds(n) && !ok
  {
    FlushOneIsLocal(n, k, ok);
    assert SessionOk(n, k);
    var (m, o) := FlushOne(n, k, ok);
    if o == Done {
      if k in n.conns { FlushConnKeeps(n.conns[k], true); }
      FrameOk(n, m, k);
      forall j ensures j in ReadyIds(m) <==> j in ReadyIds(n) { if j != k { assert Unchanged(n, m, j); } }
    }
  }

  /** A flush fails exactly when some Ready receiver refuses it. */
  lemma {:induction false} FlushThrowsIff(n: Net, pending: set<Id>, oks: Id -> bool)
    requires SessionsOk(n) && pending <= n.sessions.Keys
    ensures FlushFrom(n, pending, oks).1.Thrown? <==> exists k :: k in pending && k in ReadyIds(n) && !oks(k)
    decreases |pending|
  {
    if pending == {} {
    } else {
      var k := Least(pending);
      FlushOneIsLocal(n, k, oks(k));
      FlushOneOk(n, k, oks(k));
      if FlushOne(n, k, oks(k)).1 == Done {
        FlushThrowsIff(FlushOne(n, k, oks(k)).0, pending - {k}, oks);
      }
    }
  }

  /** A flush that throws half way is still safe, and one that returns leaves no
    * receiver with a sync start and no packet queued. */
  /** The flush of k, then that of the rest. */
  lemma FlushFirst(n: Net, m1: Net, m: Net, pending: set<Id>, k: Id, all: bool)
    requires k in pending && forall j :: j != k ==> Unchanged(n, m1, j)
    requires Flushed(n, m1, k)
    requires forall j :: j !in pending - {k} ==> Unchanged(m1, m, j)
    requires all ==> forall j :: j in pending - {k} ==> Flushed(m1, m, j)
    ensures forall j :: j !in pending ==> Unchanged(n, m, j)
    ensures all ==> forall j :: j in pending ==> Flushed(n, m, j)
  {
    assert Unchanged(m1, m, k);
    if all {
      forall j | j in pending ensures Flushed(n, m, j) {
        if j != k { assert Unchanged(n, m1, j); assert Flushed(m1, m, j); }
      }
    }
    forall j | j !in pending ensures Unchanged(n, m, j) {
      assert Unchanged(n, m1, j) && Unchanged(m1, m, j);
    }
  }

  lemma {:induction false} FlushFromKeeps(n: Net, pending: set<Id>, oks: Id -> bool, valid: bool, anchor: u64)
    requires SessionsOk(n) && Anchored(n, valid, anchor) && pending <= n.sessions.Keys
    ensures var (m, o) := FlushFrom(n, pending, oks);
      && SessionsOk(m) && Anchored(m, valid, anchor) && m.sessions.Keys == n.sessions.Keys
      && (forall k :: k !in pending ==> Unchanged(n, m, k))
      && (o == Done ==> forall k :: k in pending ==> Flushed(n, m, k))
    decreases |pending|
  {
    if pending == {} {
    } else {
      var k := Least(pending);
      FlushOneIsLocal(n, k, oks(k));
      FlushOneKeeps(n, k, oks(k), valid, anchor);
      var (m1, o1) := FlushOne(n, k, oks(k));
      if o1 == Done {
        FlushFromKeeps(m1, pending - {k}, oks, valid, anchor);
        var (m, o) := FlushFrom(n, pending, oks);
        FlushFirst(n, m1, m, pending, k, o == Done);
      } else {
        forall j ensures Unchanged(n, m1, j) { }
      }
    }
  }

  /** One session after a completed flush. */
  ghost predicate Flushed(n: Net, m: Net, k: Id) {
    && k in n.sessions && k in m.sessions
    && m.sessions[k] == n.sessions[k].(queue := [])
    && (IsReady(n.sessions[k]) ==>
          k in n.conns && k in m.conns && m.conns[k] == FlushConn(n.conns[k], true).0
          && !m.conns[k].syncStarted && m.conns[k].delivered == [])
  }

  // ---- isolation of partial opens

  lemma {:induction false} OpenTouchesOnlySelected(
    n: Net, outputs: seq<OutputDevice>, i: nat, format: PcmFormat, fates: nat -> OpenFate,
    selected: nat, ready: nat, errors: nat, k: Id)
    requires i <= |outputs| && !SelectedFrom(outputs, i, k)
    ensures Unchanged(n, OpenFrom(n, outputs, i, format, fates, selected, ready, errors).0, k)
    decreases |outputs| - i
  {
    if i < |outputs| && !n.cancelRequested && !fates(i).cancelSeen {
      if !outputs[i].selected {
        OpenTouchesOnlySelected(n, outputs, i + 1, format, fates, selected, ready, errors, k);
      } else {
        OpenOneIsLocal(n, outputs[i], format, fates(i));
        var (m, o) := OpenOne(n, outputs[i], format, fates(i));
        var d := if o.Thrown? then 1 else 0;
        OpenTouchesOnlySelected(m, outputs, i + 1, format, fates, selected + 1, ready + 1 - d, errors + d, k);
      }
    }
  }

  lemma {:induction false} OpenSettles(
    n: Net, outputs: seq<OutputDevice>, i: nat, format: PcmFormat, fates: nat -> OpenFate,
    selected: nat, ready: nat, errors: nat, j: nat)
    requires i <= j < |outputs| && UniqueIds(outputs) && outputs[j].selected
    requires NoCancel(n, fates)
    ensures Settled(OpenFrom(n, outputs, i, format, fates, selected, ready, errors).0, outputs[j].id)
    decreases |outputs| - i
  {
    if !outputs[i].selected {
      OpenSettles(n, outputs, i + 1, format, fates, selected, ready, errors, j);
    } else {
      OpenOneIsLocal(n, outputs[i], format, fates(i));
      var (m1, o1) := OpenOne(n, outputs[i], format, fates(i));
      var d := if o1.Thrown? then 1 else 0;
      if i < j {
        OpenSettles(m1, outputs, i + 1, format, fates, selected + 1, ready + 1 - d, errors + d, j);
      } else {
        OpenTouchesOnlySelected(m1, outputs, i + 1, format, fates, selected + 1, ready + 1 - d, errors + d, outputs[j].id);
        assert Unchanged(m1, OpenFrom(n, outputs, i, format, fates, selected, ready, errors).0, outputs[j].id);
      }
    }
  }

  /** Something at or after i was selected, or became Ready. */
  ghost predicate AnyReady(m: Net, outputs: seq<OutputDevice>, i: nat) {
    exists j :: i <= j < |outputs| && outputs[j].selected && IsReady(SessionOf(m, outputs[j].id))
  }

  ghost predicate NoneSelected(outputs: seq<OutputDevice>, i: nat) {
    forall j :: i <= j < |outputs| ==> !outputs[j].selected
  }

  lemma AnyReadyStep(m: Net, outputs: seq<OutputDevice>, i: nat)
    requires i < |outputs|
    ensures AnyReady(m, outputs, i)
       <==> (outputs[i].selected && IsReady(SessionOf(m, outputs[i].id))) || AnyReady(m, outputs, i + 1)
    ensures NoneSelected(outputs, i) <==> !outputs[i].selected && NoneSelected(outputs, i + 1)
  {
  }

  /** The call throws exactly when something was selected and nothing became Ready. */
  lemma {:induction false} OpenThrowsIff(
    n: Net, outputs: seq<OutputDevice>, i: nat, format: PcmFormat, fates: nat -> OpenFate,
    selected: nat, ready: nat, errors: nat)
    requires i <= |outputs| && UniqueIds(outputs)
    requires NoCancel(n, fates)
    requires selected == ready + errors
    ensures var (m, o) := OpenFrom(n, outputs, i, format, fates, selected, ready, errors);
      && !m.cancelRequested
      && (o == Done <==> ready != 0 || AnyReady(m, outputs, i) || (selected == 0 && NoneSelected(outputs, i)))
      && (o.Thrown? ==> o.error == NothingOpened)
    decreases |outputs| - i
  {
    if i == |outputs| {
    } else {
      var head := outputs[i];
      var m := OpenFrom(n, outputs, i, format, fates, selected, ready, errors).0;
      AnyReadyStep(m, outputs, i);
      if !head.selected {
        OpenThrowsIff(n, outputs, i + 1, format, fates, selected, ready, errors);
      } else {
        OpenOneIsLocal(n, head, format, fates(i));
        var (m1, o1) := OpenOne(n, head, format, fates(i));
        var d := if o1.Thrown? then 1 else 0;
        OpenThrowsIff(m1, outputs, i + 1, format, fates, selected + 1, ready + 1 - d, errors + d);
        assert !SelectedFrom(outputs, i + 1, head.id);
        OpenTouchesOnlySelected(m1, outputs, i + 1, format, fates, selected + 1, ready + 1 - d, errors + d, head.id);
        assert Unchanged(m1, m, head.id);
        assert SessionOf(m, head.id) == m1.sessions[head.id];
      }
    }
  }

  /** Still Ready with the same queue and connection, and not opened again. */
  ghost predicate KeptOpen(n: Net, m: Net, id: Id) {
    && IsReady(SessionOf(m, id)) && SessionOf(m, id).queue == SessionOf(n, id).queue
    && (id in m.conns <==> id in n.conns) && (id in n.conns ==> m.conns[id] == n.conns[id])
    && n.opens <= m.opens && id !in m.opens[|n.opens|..]
  }

  lemma OpenReusesHere(
    n: Net, outputs: seq<OutputDevice>, i: nat, format: PcmFormat, fates: nat -> OpenFate,
    selected: nat, ready: nat, errors: nat)
    requires i < |outputs| && UniqueIds(outputs) && NoCancel(n, fates)
    requires outputs[i].selected && Reusable(n, outputs[i], format)
    ensures KeptOpen(n, OpenFrom(n, outputs, i, format, fates, selected, ready, errors).0, outputs[i].id)
  {
    var id := outputs[i].id;
    OpenOneIsLocal(n, outputs[i], format, fates(i));
    var m1 := OpenOne(n, outputs[i], format, fates(i)).0;
    assert !SelectedFrom(outputs, i + 1, id);
    OpenTouchesOnlySelected(m1, outputs, i + 1, format, fates, selected + 1, ready + 1, errors, id);
    OpensOnlySelected(m1, outputs, i + 1, format, fates, selected + 1, ready + 1, errors);
  }

  /** A reusable session keeps its queue and its connection, and the client is not
    * asked to open it again; the client is only ever asked for selected outputs. */
  lemma {:induction false} OpenReuses(
    n: Net, outputs: seq<OutputDevice>, i: nat, format: PcmFormat, fates: nat -> OpenFate,
    selected: nat, ready: nat, errors: nat, j: nat)
    requires i <= j < |outputs| && UniqueIds(outputs)
    requires NoCancel(n, fates)
    requires outputs[j].selected && Reusable(n, outputs[j], format)
    ensures KeptOpen(n, OpenFrom(n, outputs, i, format, fates, selected, ready, errors).0, outputs[j].id)
    decreases |outputs| - i
  {
    var id := outputs[j].id;
    if i == j {
      OpenReusesHere(n, outputs, i, format, fates, selected, ready, errors);
    } else if !outputs[i].selected {
      OpenReuses(n, outputs, i + 1, format, fates, selected, ready, errors, j);
    } else {
      OpenOneIsLocal(n, outputs[i], format, fates(i));
      var (m1, o1) := OpenOne(n, outputs[i], format, fates(i));
      var d := if o1.Thrown? then 1 else 0;
      assert Unchanged(n, m1, id);
      OpenReuses(m1, outputs, i + 1, format, fates, selected + 1, ready + 1 - d, errors + d, j);
      OpensSplit(n.opens, m1.opens, OpenFrom(n, outputs, i, format, fates, selected, ready, errors).0.opens, id);
    }
  }

  lemma OpensSplit(a: seq<Id>, b: seq<Id>, c: seq<Id>, id: Id)
    requires a <= b <= c && id !in b[|a|..] && id !in c[|b|..]
    ensures id !in c[|a|..]
  {
    assert c[|a|..] == b[|a|..] + c[|b|..];
  }

  /** The client calls in after beyond before were made for outputs selected at or after i. */
  ghost predicate AddsSelected(before: seq<Id>, after: seq<Id>, outputs: seq<OutputDevice>, i: nat) {
    before <= after && forall x :: x in after[|before|..] ==> SelectedFrom(outputs, i, x)
  }

  lemma AddsSelectedCons(a: seq<Id>, b: seq<Id>, c: seq<Id>, outputs: seq<OutputDevice>, i: nat)
    requires i < |outputs| && AddsSelected(b, c, outputs, i + 1)
    requires b == a || (outputs[i].selected && b == a + [outputs[i].id])
    ensures AddsSelected(a, c, outputs, i)
  {
    assert c[|a|..] == b[|a|..] + c[|b|..];
  }

  lemma {:induction false} OpensOnlySelected(
    n: Net, outputs: seq<OutputDevice>, i: nat, format: PcmFormat, fates: nat -> OpenFate,
    selected: nat, ready: nat, errors: nat)
    requires i <= |outputs|
    ensures AddsSelected(n.opens, OpenFrom(n, outputs, i, format, fates, selected, ready, errors).0.opens, outputs, i)
    decreases |outputs| - i
  {
    if i < |outputs| && !n.cancelRequested && !fates(i).cancelSeen {
      var after := OpenFrom(n, outputs, i, format, fates, selected, ready, errors).0.opens;
      if !outputs[i].selected {
        OpensOnlySelected(n, outputs, i + 1, format, fates, selected, ready, errors);
        AddsSelectedCons(n.opens, n.opens, after, outputs, i);
      } else {
        OpenOneIsLocal(n, outputs[i], format, fates(i));
        var (m1, o1) := OpenOne(n, outputs[i], format, fates(i));
        var d := if o1.Thrown? then 1 else 0;
        OpensOnlySelected(m1, outputs, i + 1, format, fates, selected + 1, ready + 1 - d, errors + d);
        AddsSelectedCons(n.opens, m1.opens, after, outputs, i);
      }
    }
  }

  /** An open loop leaves the connection of an output that is reusable, or not
    * selected at all, as it was, whatever happens to the others and whether or not
    * it is cancelled on the way. */
  lemma {:induction false} OpenKeepsConnection(
    n: Net, outputs: seq<OutputDevice>, i: nat, format: PcmFormat, fates: nat -> OpenFate,
    selected: nat, ready: nat, errors: nat, k: Id)
    requires i <= |outputs| && UniqueIds(outputs)
    requires forall j :: i <= j < |outputs| && outputs[j].selected && outputs[j].id == k ==> Reusable(n, outputs[j], format)
    ensures SameConnection(n, OpenFrom(n, outputs, i, format, fates, selected, ready, errors).0, k)
    decreases |outputs| - i
  {
    if i < |outputs| && !n.cancelRequested && !fates(i).cancelSeen {
      if !outputs[i].selected {
        OpenKeepsConnection(n, outputs, i + 1, format, fates, selected, ready, errors, k);
      } else {
        OpenOneIsLocal(n, outputs[i], format, fates(i));
        var (m1, o1) := OpenOne(n, outputs[i], format, fates(i));
        var d := if o1.Thrown? then 1 else 0;
        if outputs[i].id != k { assert Unchanged(n, m1, k); }
        OpenKeepsConnection(m1, outputs, i + 1, format, fates, selected + 1, ready + 1 - d, errors + d, k);
      }
    }
  }

  ghost predicate SameConnection(n: Net, m: Net, k: Id) {
    (k in m.conns <==> k in n.conns) && (k in n.conns ==> m.conns[k] == n.conns[k])
  }

  /** Partial open isolation for the public call, absent cancellation. */
  lemma PartialOpenIsIsolated(n: Net, outputs: seq<OutputDevice>, format: PcmFormat, fates: nat -> OpenFate)
    requires UniqueIds(outputs) && NoCancel(n, fates) && ValidateFormat(format) == Done
    ensures var (m, o) := OpenForOutputs(n, outputs, format, fates);
      && (forall k :: k !in SelectedIds(outputs) ==> Unchanged(n, m, k))
      && (forall j :: 0 <= j < |outputs| && outputs[j].selected ==> Settled(m, outputs[j].id))
      && (forall j :: 0 <= j < |outputs| && outputs[j].selected && Reusable(n, outputs[j], format) ==>
            KeptOpen(n, m, outputs[j].id))
      && (o.Thrown? <==>
            && SelectedIds(outputs) != {}
            && (forall j :: 0 <= j < |outputs| && outputs[j].selected ==> !IsReady(SessionOf(m, outputs[j].id))))
  {
    OpenThrowsIff(n, outputs, 0, format, fates, 0, 0, 0);
    forall j | 0 <= j < |outputs| && outputs[j].selected
      ensures Settled(OpenForOutputs(n, outputs, format, fates).0, outputs[j].id)
    {
      OpenSettles(n, outputs, 0, format, fates, 0, 0, 0, j);
    }
    assert forall j :: 0 <= j < |outputs| ==> outputs[j] in outputs;
    forall k | k !in SelectedIds(outputs) ensures Unchanged(n, OpenForOutputs(n, outputs, format, fates).0, k) {
      OpenTouchesOnlySelected(n, outputs, 0, format, fates, 0, 0, 0, k);
    }
    forall j | 0 <= j < |outputs| && outputs[j].selected && Reusable(n, outputs[j], format)
      ensures KeptOpen(n, OpenForOutputs(n, outputs, format, fates).0, outputs[j].id)
    {
      OpenReuses(n, outputs, 0, format, fates, 0, 0, 0, j);
    }
    assert SelectedIds(outputs) == {} <==> forall j :: 0 <= j < |outputs| ==> !outputs[j].selected by {
      forall j | 0 <= j < |outputs| && outputs[j].selected ensures outputs[j].id in SelectedIds(outputs) {
        assert outputs[j] in outputs;
      }
    }
  }

  // ---- which outputs an open makes Ready

  /** The output is one the client can drive, and is either Ready already for this
    * format or the format is the one the client negotiates and both of its requests
    * succeed. */
  predicate Admitted(n: Net, o: OutputDevice, format: PcmFormat, fate: OpenFate) {
    && ValidateOutput(o) == Done
    && (CanReuse(SessionOf(n, o.id), o, format)
        || (format == STREAM_FORMAT && fate.negotiated.Some? && fate.volumeOk))
  }

  lemma OpenOneAdmits(n: Net, o: OutputDevice, format: PcmFormat, fate: OpenFate)
    ensures OpenOne(n, o, format, fate).1 == Done <==> Admitted(n, o, format, fate)
  {
  }

  /** Absent cancellation a selected output ends Ready exactly when it is admitted on
    * its own: what happens to the outputs before and after it plays no part. */
  lemma {:induction false} OpenReadyIff(
    n: Net, outputs: seq<OutputDevice>, i: nat, format: PcmFormat, fates: nat -> OpenFate,
    selected: nat, ready: nat, errors: nat, j: nat)
    requires i <= j < |outputs| && UniqueIds(outputs) && outputs[j].selected
    requires NoCancel(n, fates)
    ensures IsReady(SessionOf(OpenFrom(n, outputs, i, format, fates, selected, ready, errors).0, outputs[j].id))
       <==> Admitted(n, outputs[j], format, fates(j))
    decreases |outputs| - i
  {
    var id := outputs[j].id;
    if !outputs[i].selected {
      OpenReadyIff(n, outputs, i + 1, format, fates, selected, ready, errors, j);
    } else {
      OpenOneIsLocal(n, outputs[i], format, fates(i));
      var (m1, o1) := OpenOne(n, outputs[i], format, fates(i));
      var d := if o1.Thrown? then 1 else 0;
      if i < j {
        assert Unchanged(n, m1, id);
        OpenReadyIff(m1, outputs, i + 1, format, fates, selected + 1, ready + 1 - d, errors + d, j);
      } else {
        OpenOneAdmits(n, outputs[i], format, fates(i));
        OpenTouchesOnlySelected(m1, outputs, i + 1, format, fates, selected + 1, ready + 1 - d, errors + d, id);
        assert Unchanged(m1, OpenFrom(n, outputs, i, format, fates, selected, ready, errors).0, id);
      }
    }
  }

  predicate Describes(s: Session, o: OutputDevice) {
    s.outputId == o.id && s.outputName == o.name && s.endpointHost == o.endpointHost && s.endpointPort == o.endpointPort
  }

  /** What a turn of the open loop records for an output: its name and endpoint; when a
    * session was reused everything it had negotiated before; when it was opened, what the
    * receiver answered, on a connection that has sent nothing yet; when it failed, no
    * trace of a stream. */
  ghost predicate Recorded(n: Net, m: Net, o: OutputDevice, format: PcmFormat, fate: OpenFate) {
    && o.id in m.sessions && Describes(m.sessions[o.id], o)
    && var s := m.sessions[o.id];
    if Reusable(n, o, format) then
      var was := n.sessions[o.id];
      && s.rtspSessionId == was.rtspSessionId && s.streamUri == was.streamUri && s.server == was.server
      && s.methods == was.methods && s.ports == was.ports && s.queue == was.queue && s.format == was.format
      && s.lastError == None && IsReady(s)
    else if Admitted(n, o, format, fate) then
      var g := fate.negotiated.value;
      && s.rtspSessionId == g.sessionId && s.streamUri == g.streamUri && s.server == g.server
      && s.methods == g.methods && s.ports == g.ports && s.queue == [] && s.format == format
      && s.lastError == None && IsReady(s)
      && o.id in m.conns && m.conns[o.id].audio == [] && m.conns[o.id].syncs == [] && !m.conns[o.id].syncStarted
      && m.conns[o.id].firstAudio && m.conns[o.id].ssrc == g.ssrc && m.conns[o.id].controlPort == g.controlPort
      && m.conns[o.id].streamUri == g.streamUri && m.conns[o.id].sessionId == g.sessionId
    else
      && s.phase == Failed && !s.open && s.lastError.Some? && s.rtspSessionId == "" && s.streamUri == ""
      && s.server == "" && s.methods == [] && s.ports == Ports(0, 0, 0, 0, 0, 0) && s.queue == []
      && s.format == PcmFormat(48000, 2, 16)
  }

  lemma ConnectRecords(n: Net, o: OutputDevice, format: PcmFormat, fate: OpenFate)
    requires ValidateOutput(o) == Done && !Reusable(n, o, format)
    ensures Recorded(n, ConnectOne(n, o, Updated(SessionOf(n, o.id), o), format, fate).0, o, format, fate)
  {
    if ClientOpen(o, format, fate).0.Some? { } else { }
  }

  lemma ReuseRecords(n: Net, o: OutputDevice, format: PcmFormat, fate: OpenFate)
    requires Reusable(n, o, format)
    ensures Recorded(n, WithSession(n, o.id, Updated(SessionOf(n, o.id), o).(lastError := None)), o, format, fate)
  {
  }

  lemma RefusalRecords(n: Net, o: OutputDevice, format: PcmFormat, fate: OpenFate, e: Error)
    requires ValidateOutput(o).Thrown?
    ensures Recorded(n, WithSession(n, o.id, FailedSession(Updated(SessionOf(n, o.id), o), e)), o, format, fate)
  {
  }

  lemma OpenOneRecords(n: Net, o: OutputDevice, format: PcmFormat, fate: OpenFate)
    ensures Recorded(n, OpenOne(n, o, format, fate).0, o, format, fate)
  {
    if ValidateOutput(o).Thrown? {
      RefusalRecords(n, o, format, fate, ValidateOutput(o).error);
    } else if Reusable(n, o, format) {
      ReuseRecords(n, o, format, fate);
    } else {
      ConnectRecords(n, o, format, fate);
    }
  }

  /** Absent cancellation that is what the whole call leaves for every selected output. */
  lemma {:induction false} OpenRecords(
    n: Net, outputs: seq<OutputDevice>, i: nat, format: PcmFormat, fates: nat -> OpenFate,
    selected: nat, ready: nat, errors: nat, j: nat)
    requires i <= j < |outputs| && UniqueIds(outputs) && outputs[j].selected
    requires NoCancel(n, fates)
    ensures Recorded(n, OpenFrom(n, outputs, i, format, fates, selected, ready, errors).0, outputs[j], format, fates(j))
    decreases |outputs| - i
  {
    var id := outputs[j].id;
    if !outputs[i].selected {
      OpenRecords(n, outputs, i + 1, format, fates, selected, ready, errors, j);
    } else {
      OpenOneIsLocal(n, outputs[i], format, fates(i));
      var (m1, o1) := OpenOne(n, outputs[i], format, fates(i));
      var d := if o1.Thrown? then 1 else 0;
      var end := OpenFrom(n, outputs, i, format, fates, selected, ready, errors).0;
      if i < j {
        assert Unchanged(n, m1, id);
        OpenRecords(m1, outputs, i + 1, format, fates, selected + 1, ready + 1 - d, errors + d, j);
        RecordedSince(n, m1, end, outputs[j], format, fates(j));
      } else {
        OpenOneRecords(n, outputs[i], format, fates(i));
        OpenTouchesOnlySelected(m1, outputs, i + 1, format, fates, selected + 1, ready + 1 - d, errors + d, id);
        assert Unchanged(m1, end, id);
      }
    }
  }

  lemma RecordedSince(n: Net, m: Net, end: Net, o: OutputDevice, format: PcmFormat, fate: OpenFate)
    requires Unchanged(n, m, o.id) && Recorded(m, end, o, format, fate)
    ensures Recorded(n, end, o, format, fate)
  {
  }

  /** A session is reused only for the same format at the same endpoint, of an output
    * the client can drive, and only while it is Ready. */
  lemma ReusableIff(n: Net, o: OutputDevice, format: PcmFormat)
    ensures Reusable(n, o, format) <==>
      && o.supportsAirplay2 && o.endpointHost != "" && o.endpointPort != 0
      && o.id in n.sessions && n.sessions[o.id].phase == Ready && n.sessions[o.id].open
      && n.sessions[o.id].endpointHost == o.endpointHost && n.sessions[o.id].endpointPort == o.endpointPort
      && n.sessions[o.id].format == format
  {
  }

  /** Formats and the two reasons an output is refused before anything is sent. */
  lemma FormatsAndOutputs(format: PcmFormat, o: OutputDevice)
    ensures ValidateFormat(format) == Done <==> format == PcmFormat(44100, 2, 16) || format == PcmFormat(48000, 2, 16)
    ensures ValidateOutput(o) == Done <==> o.supportsAirplay2 && o.endpointHost != "" && o.endpointPort != 0
    ensures STREAM_FORMAT == PcmFormat(44100, 2, 16)
  {
  }

  /** The two supported rates are not equal: at 48 kHz every selected output fails and
    * a selection that is not empty makes the call throw, whatever the receivers answer. */
  lemma OtherRateFails(n: Net, outputs: seq<OutputDevice>, format: PcmFormat, fates: nat -> OpenFate)
    requires SessionsOk(n) && UniqueIds(outputs) && NoCancel(n, fates)
    requires ValidateFormat(format) == Done && format != STREAM_FORMAT
    ensures var (m, o) := OpenForOutputs(n, outputs, format, fates);
      && (forall j :: 0 <= j < |outputs| && outputs[j].selected ==>
            outputs[j].id in m.sessions && m.sessions[outputs[j].id].phase == Failed)
      && o == if SelectedIds(outputs) == {} then Done else Thrown(NothingOpened)
  {
    PartialOpenIsIsolated(n, outputs, format, fates);
    OpenThrowsIff(n, outputs, 0, format, fates, 0, 0, 0);
    var m := OpenForOutputs(n, outputs, format, fates).0;
    forall j | 0 <= j < |outputs| && outputs[j].selected
      ensures Settled(m, outputs[j].id) && !IsReady(SessionOf(m, outputs[j].id))
    {
      if outputs[j].id in n.sessions { assert SessionOk(n, outputs[j].id); }
      OpenReadyIff(n, outputs, 0, format, fates, 0, 0, 0, j);
    }
  }

  /** An output the client can drive can be made Ready exactly in the 44.1 kHz format. */
  lemma OpensIffStreamFormat(n: Net, outputs: seq<OutputDevice>, format: PcmFormat, j: nat)
    requires SessionsOk(n) && UniqueIds(outputs) && !n.cancelRequested
    requires j < |outputs| && outputs[j].selected && ValidateOutput(outputs[j]) == Done
    ensures (exists fates: nat -> OpenFate :: NoCancel(n, fates)
               && IsReady(SessionOf(OpenForOutputs(n, outputs, format, fates).0, outputs[j].id))
               && OpenForOutputs(n, outputs, format, fates).1 == Done)
       <==> format == STREAM_FORMAT
  {
    if format == STREAM_FORMAT {
      var g: Negotiated := Negotiated("1", "rtsp://h/1", "", [], NO_PORTS, 1, 1);
      var fates := (i: nat) => OpenFate(false, Some(g), true);
      OpenReadyIff(n, outputs, 0, format, fates, 0, 0, 0, j);
      PartialOpenIsIsolated(n, outputs, format, fates);
      assert NoCancel(n, fates);
    } else if ValidateFormat(format) == Done {
      forall fates: nat -> OpenFate | NoCancel(n, fates)
        ensures !IsReady(SessionOf(OpenForOutputs(n, outputs, format, fates).0, outputs[j].id))
      {
        OtherRateFails(n, outputs, format, fates);
      }
    }
  }
}
