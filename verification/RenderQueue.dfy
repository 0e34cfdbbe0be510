/**
 * The playback queue and its render thread, as interleaved steps cut at the
 * places where the queue mutex is taken or released.
 *
 * Shared is what the mutex protects; Worker is where the render thread stands.
 * Frames carry the stream epoch they were written in, and a log records what
 * reached the transport, so that conservation and flush safety can be stated
 * over whole histories. The epoch is a natural: its 64-bit wrap is not modelled.
 */
module RenderQueue {
  import opened Common

  const PACKET_FRAMES := 352

  /** At least a quarter of a second of frames, so never zero. */
  type Capacity = x: int | 0 < x witness 1

  type i16 = x: int | -0x8000 <= x < 0x8000

  datatype Pcm = Pcm(left: i16, right: i16)

  /** A frame and the epoch it was written in. */
  datatype Tagged = Tagged(pcm: Pcm, epoch: nat)

  /** Frames taken from the queue for one send; forced is the force-play flag then. */
  datatype Packet = Packet(frames: seq<Tagged>, padding: nat, epoch: nat, forced: bool)

  datatype Shared = Shared(
    queue: seq<Tagged>,
    capacity: Capacity,
    epoch: nat,
    paused: bool,
    stopping: bool,
    started: bool,
    streamOpen: bool,
    forcePlay: bool,
    flushRequested: bool,
    pacingReset: bool,
    workerError: bool,
    failureStop: bool)

  datatype Worker =
    | NoThread
    | Launched                  // before the first look at stopping
    | Opening                   // inside open_playback_stream
    | Waiting                   // at the head of the loop
    | Flushing(epoch: nat)      // request taken, inside the transport flush
    | Pacing(epoch: nat)        // waiting for the send time
    | InHand(packet: Packet)    // popped, before the currency check
    | Sending(packet: Packet)   // found current, before the transport write
    | Exited

  /** What became of a packet: it reached the transport, it was found stale, or the
    * write returned without sending because playback had been stopped. */
  datatype Event =
    | Handed(packet: Packet, ok: bool)
    | Dropped(packet: Packet)
    | Skipped(packet: Packet)
    | Flushed(epoch: nat)

  /** accepted lists the frames write took; flushEpochs the epochs on_flush began;
    * playbackOpen is the flag of the component state, which anyone may clear. */
  datatype State = State(
    shared: Shared, worker: Worker, playbackOpen: bool, accepted: seq<Tagged>, log: seq<Event>, flushEpochs: set<nat>)

  const IDLE := Shared([], 44100, 0, false, true, false, false, false, false, true, false, false)

  const INITIAL := State(IDLE, NoThread, false, [], [], {})

  // ---- the locked sections

  function TagAll(frames: seq<Pcm>, epoch: nat): (r: seq<Tagged>)
    ensures |r| == |frames|
  {
    seq(|frames|, i requires 0 <= i < |frames| => Tagged(frames[i], epoch))
  }

  function Room(s: Shared): nat { if s.capacity > |s.queue| then s.capacity - |s.queue| else 0 }

  predicate Accepts(s: Shared) { !s.workerError && s.started && !s.stopping && !s.paused }

  function CanWrite(s: Shared): nat { if Accepts(s) then Room(s) else 0 }

  /** The frames of a write that fit. */
  function Fitting(s: Shared, frames: seq<Pcm>): seq<Tagged> {
    TagAll(frames[..Min(|frames|, CanWrite(s))], s.epoch)
  }

  function Written(s: Shared, frames: seq<Pcm>): Shared { s.(queue := s.queue + Fitting(s, frames)) }

  /** What on_flush, open and stop all begin with. */
  function NewEpoch(s: Shared): Shared {
    s.(queue := [], forcePlay := false, pacingReset := true, epoch := s.epoch + 1)
  }

  function FlushRequested(s: Shared): Shared { NewEpoch(s).(flushRequested := true) }

  function PauseSet(s: Shared, on: bool): Shared { s.(paused := on, pacingReset := true) }

  function StopBegun(s: Shared): Shared {
    NewEpoch(s).(
      stopping := true, started := false, streamOpen := false, workerError := false, flushRequested := false,
      failureStop := false)
  }

  function Opened(s: Shared, capacity: Capacity): Shared {
    Shared([], capacity, s.epoch + 1, false, false, true, true, false, false, true, false, false)
  }

  /** The thread could not be created. */
  function OpenFailed(s: Shared): Shared { s.(started := false, stopping := true, streamOpen := false) }

  function WorkerFailed(s: Shared): Shared {
    if s.stopping then s.(started := false) else s.(workerError := true, failureStop := true, started := false)
  }

  predicate WakeNow(s: Shared) {
    s.stopping || s.flushRequested || (!s.paused && (|s.queue| >= PACKET_FRAMES || (s.forcePlay && s.queue != [])))
  }

  predicate PacingBroken(s: Shared, epoch: nat) { s.stopping || s.paused || s.epoch != epoch || s.pacingReset }

  predicate Takes(s: Shared) { s.queue != [] && (|s.queue| >= PACKET_FRAMES || s.forcePlay) }

  function TakenPacket(s: Shared, epoch: nat): Packet {
    var n := Min(PACKET_FRAMES, |s.queue|);
    Packet(s.queue[..n], PACKET_FRAMES - n, epoch, s.forcePlay)
  }

  function AfterTake(s: Shared): Shared {
    var n := Min(PACKET_FRAMES, |s.queue|);
    s.(queue := s.queue[n..], forcePlay := s.forcePlay && s.queue[n..] != [])
  }

  predicate Current(s: Shared, p: Packet) { !s.stopping && s.epoch == p.epoch }

  // ---- steps

  datatype Op =
    | Write(frames: seq<Pcm>)
    | OnFlush
    | OnForcePlay
    | Pause(on: bool)
    | Open(capacity: Capacity, threadOk: bool)   // after the stop inside open
    | StopBegin
    | StopJoin
    | ClosePlayback           // stop_playback, by the output's own stop or by anyone else
    | RenderBegin
    | RenderOpened(ok: bool)
    | RenderWake
    | RenderTimer
    | RenderCheck
    | RenderSent(ok: bool)
    | RenderFlushed(ok: bool)

  function Fail(s: State): State { s.(shared := WorkerFailed(s.shared), worker := Exited) }

  /** A step that is not enabled leaves the state alone. */
  function Step(s: State, op: Op): State {
    var h := s.shared;
    match op
    case Write(frames) => s.(shared := Written(h, frames), accepted := s.accepted + Fitting(h, frames))
    case OnFlush => s.(shared := FlushRequested(h), flushEpochs := s.flushEpochs + {h.epoch + 1})
    case OnForcePlay => s.(shared := h.(forcePlay := true))
    case Pause(on) => s.(shared := PauseSet(h, on))
    case Open(capacity, threadOk) =>
      if !s.worker.NoThread? then s
      else if threadOk then s.(shared := Opened(h, capacity), worker := Launched)
      else s.(shared := OpenFailed(Opened(h, capacity)))
    case StopBegin => s.(shared := StopBegun(h))
    case StopJoin => if s.worker.Exited? then s.(worker := NoThread) else s
    case ClosePlayback => s.(playbackOpen := false)
    case RenderBegin =>
      if !s.worker.Launched? then s else s.(worker := if h.stopping then Exited else Opening)
    case RenderOpened(ok) =>
      if !s.worker.Opening? then s
      else if ok then s.(worker := Waiting, playbackOpen := true)
      else Fail(s.(playbackOpen := false))
    case RenderWake =>
      if !s.worker.Waiting? || !WakeNow(h) then s
      else if h.stopping then s.(worker := Exited)
      else if h.flushRequested then
        s.(shared := h.(flushRequested := false, pacingReset := true), worker := Flushing(h.epoch))
      else s.(shared := h.(pacingReset := false), worker := Pacing(h.epoch))
    case RenderTimer =>
      if !s.worker.Pacing? then s
      else if PacingBroken(h, s.worker.epoch) || !Takes(h) then s.(worker := Waiting)
      else s.(shared := AfterTake(h), worker := InHand(TakenPacket(h, s.worker.epoch)))
    case RenderCheck =>
      if !s.worker.InHand? then s
      else if Current(h, s.worker.packet) then s.(worker := Sending(s.worker.packet))
      else s.(worker := Waiting, log := s.log + [Dropped(s.worker.packet)])
    case RenderSent(ok) =>
      if !s.worker.Sending? then s
      else if !s.playbackOpen then s.(worker := Waiting, log := s.log + [Skipped(s.worker.packet)])
      else
        var t := s.(log := s.log + [Handed(s.worker.packet, ok)]);
        if ok then t.(worker := Waiting) else Fail(t)
    case RenderFlushed(ok) =>
      if !s.worker.Flushing? then s
      else if !s.playbackOpen then s.(worker := Waiting)
      else if ok then s.(worker := Waiting, log := s.log + [Flushed(s.worker.epoch)]) else Fail(s)
  }

  function Run(s: State, ops: seq<Op>): State
    decreases |ops|
  {
    if ops == [] then s else Run(Step(s, ops[0]), ops[1..])
  }

  // ---- conservation

  /** The accepted frames of one epoch, in order. */
  function Of(frames: seq<Tagged>, epoch: nat): seq<Tagged> {
    if frames == [] then []
    else Of(frames[..|frames|-1], epoch) + if frames[|frames|-1].epoch == epoch then [frames[|frames|-1]] else []
  }

  /** The frames handed to the transport for one epoch, padding left out. */
  function HandedFrames(log: seq<Event>, epoch: nat): seq<Tagged> {
    if log == [] then []
    else
      var v := log[|log|-1];
      HandedFrames(log[..|log|-1], epoch) + if v.Handed? && v.packet.epoch == epoch then v.packet.frames else []
  }

  /** The frames a stopped playback swallowed. */
  function SkippedFrames(log: seq<Event>, epoch: nat): seq<Tagged> {
    if log == [] then []
    else
      var v := log[|log|-1];
      SkippedFrames(log[..|log|-1], epoch) + if v.Skipped? && v.packet.epoch == epoch then v.packet.frames else []
  }

  function FramesOf(v: Event, epoch: nat): seq<Tagged> {
    if (v.Handed? || v.Skipped?) && v.packet.epoch == epoch then v.packet.frames else []
  }

  /** The frames of one epoch that write_playback_pcm was called with. */
  function TakenFrames(log: seq<Event>, epoch: nat): seq<Tagged> {
    if log == [] then [] else TakenFrames(log[..|log|-1], epoch) + FramesOf(log[|log|-1], epoch)
  }

  function Holding(w: Worker, epoch: nat): seq<Tagged> {
    if (w.InHand? || w.Sending?) && w.packet.epoch == epoch then w.packet.frames else []
  }

  /** In the current epoch every accepted frame is taken, in hand or queued;
    * in every epoch what was taken is a prefix of what was accepted. */
  ghost predicate Conserved(s: State, epoch: nat) {
    var taken := TakenFrames(s.log, epoch) + Holding(s.worker, epoch);
    && taken <= Of(s.accepted, epoch)
    && (epoch == s.shared.epoch ==> taken + s.shared.queue == Of(s.accepted, epoch))
  }

  lemma OfSnoc(frames: seq<Tagged>, f: Tagged, epoch: nat)
    ensures Of(frames + [f], epoch) == Of(frames, epoch) + if f.epoch == epoch then [f] else []
  {
    assert (frames + [f])[..|frames|] == frames;
  }

  lemma {:induction false} OfAppend(frames: seq<Tagged>, more: seq<Tagged>, tag: nat, epoch: nat)
    requires forall i :: 0 <= i < |more| ==> more[i].epoch == tag
    ensures Of(frames + more, epoch) == Of(frames, epoch) + if epoch == tag then more else []
    decreases |more|
  {
    if more == [] {
      assert frames + more == frames;
    } else {
      var init, last := more[..|more|-1], more[|more|-1];
      assert more == init + [last];
      assert frames + more == (frames + init) + [last];
      OfAppend(frames, init, tag, epoch);
      OfSnoc(frames + init, last, epoch);
    }
  }

  lemma TakenSnoc(log: seq<Event>, v: Event, epoch: nat)
    ensures TakenFrames(log + [v], epoch) == TakenFrames(log, epoch) + FramesOf(v, epoch)
  {
    assert (log + [v])[..|log|] == log;
  }

  // ---- the invariant

  /** 352 frames with their padding, padding only under force-play, one epoch. */
  predicate PacketOk(p: Packet) {
    && p.frames != [] && |p.frames| + p.padding == PACKET_FRAMES
    && (p.padding > 0 ==> p.forced)
    && forall i :: 0 <= i < |p.frames| ==> p.frames[i].epoch == p.epoch
  }

  ghost predicate QueueOk(s: State) {
    && |s.shared.queue| <= s.shared.capacity
    && (forall i :: 0 <= i < |s.shared.queue| ==> s.shared.queue[i].epoch == s.shared.epoch)
    && (forall i :: 0 <= i < |s.accepted| ==> s.accepted[i].epoch <= s.shared.epoch)
    && (forall e :: e in s.flushEpochs ==> e <= s.shared.epoch)
  }

  function WorkerEpoch(w: Worker): Option<nat> {
    match w
    case Pacing(e) => Some(e)
    case InHand(p) => Some(p.epoch)
    case Sending(p) => Some(p.epoch)
    case _ => None
  }

  ghost predicate WorkerOk(s: State) {
    && (s.worker.InHand? || s.worker.Sending? ==> PacketOk(s.worker.packet))
    && (s.worker.Flushing? ==> s.worker.epoch <= s.shared.epoch)
    && (WorkerEpoch(s.worker).Some? ==>
          && WorkerEpoch(s.worker).value <= s.shared.epoch
          && (WorkerEpoch(s.worker).value == s.shared.epoch ==> !s.shared.stopping))
  }

  ghost predicate LogOk(s: State) {
    forall i :: 0 <= i < |s.log| ==>
      && (s.log[i].Flushed? ==> s.log[i].epoch <= s.shared.epoch)
      && (!s.log[i].Flushed? ==> PacketOk(s.log[i].packet) && s.log[i].packet.epoch <= s.shared.epoch)
      && (s.log[i].Dropped? ==> s.log[i].packet.epoch < s.shared.epoch)
  }

  /** Nothing older than a transport flush is sent after it. */
  ghost predicate Ordered(log: seq<Event>) {
    forall i, j :: 0 <= i < j < |log| && log[i].Flushed? && log[j].Handed? ==> log[i].epoch <= log[j].packet.epoch
  }

  ghost predicate FlushedBefore(s: State) {
    && Ordered(s.log)
    && (forall i :: 0 <= i < |s.log| && s.log[i].Flushed? && WorkerEpoch(s.worker).Some? ==>
          s.log[i].epoch <= WorkerEpoch(s.worker).value)
  }

  predicate Live(w: Worker) { !w.NoThread? && !w.Exited? }

  /** Nothing of an epoch that on_flush began is sent before its transport flush. */
  ghost predicate Announced(log: seq<Event>, flushEpochs: set<nat>) {
    forall j :: 0 <= j < |log| && log[j].Handed? && log[j].packet.epoch in flushEpochs ==>
      Flushed(log[j].packet.epoch) in log[..j]
  }

  /** Once playback is stopped no flush goes out, but then nothing is sent either. */
  ghost predicate FlushFirst(s: State) {
    && Announced(s.log, s.flushEpochs)
    && (s.playbackOpen && WorkerEpoch(s.worker).Some? && WorkerEpoch(s.worker).value in s.flushEpochs ==>
          Flushed(WorkerEpoch(s.worker).value) in s.log)
    && (s.playbackOpen && Live(s.worker) && s.shared.epoch in s.flushEpochs && !s.shared.flushRequested ==>
          s.worker == Flushing(s.shared.epoch) || Flushed(s.shared.epoch) in s.log)
    && (Starting(s.worker) && s.shared.epoch in s.flushEpochs ==> s.shared.flushRequested)
  }

  predicate Starting(w: Worker) { w.Launched? || w.Opening? }

  /** After a swallowed packet nothing more of its epoch is sent. */
  ghost predicate SkipsLast(log: seq<Event>) {
    forall i, j :: 0 <= i < j < |log| && log[i].Skipped? && log[j].Handed? ==>
      log[i].packet.epoch < log[j].packet.epoch
  }

  /** What has been swallowed is older than anything an open playback can send. */
  ghost predicate SkipsOk(s: State) {
    && SkipsLast(s.log)
    && forall i :: 0 <= i < |s.log| && s.log[i].Skipped? ==>
         && (s.playbackOpen || Starting(s.worker) ==> s.log[i].packet.epoch < s.shared.epoch)
         && (s.playbackOpen && WorkerEpoch(s.worker).Some? ==> s.log[i].packet.epoch < WorkerEpoch(s.worker).value)
  }

  /** A started stream has a running thread and no failure. */
  predicate ThreadOk(s: State) {
    s.shared.started ==> Live(s.worker) && !s.shared.stopping && !s.shared.workerError
  }

  ghost predicate Inv(s: State) {
    && QueueOk(s) && WorkerOk(s) && LogOk(s) && FlushedBefore(s) && FlushFirst(s) && SkipsOk(s) && ThreadOk(s)
    && forall e: nat :: Conserved(s, e)
  }

  // ---- preservation

  /** Steps that move neither frames nor epochs. */
  lemma ConservedFrame(s: State, t: State)
    requires forall e: nat :: Conserved(s, e)
    requires t.accepted == s.accepted && t.log == s.log
    requires t.shared.epoch == s.shared.epoch && t.shared.queue == s.shared.queue
    requires forall e: nat :: Holding(t.worker, e) == Holding(s.worker, e)
    ensures forall e: nat :: Conserved(t, e)
  {
    forall e: nat ensures Conserved(t, e) { assert Conserved(s, e); }
  }

  /** A new epoch starts with an empty queue and nothing taken or accepted. */
  lemma ConservedNewEpoch(s: State, t: State)
    requires forall e: nat :: Conserved(s, e)
    requires QueueOk(s) && WorkerOk(s) && LogOk(s)
    requires t.accepted == s.accepted && t.log == s.log && Holding(t.worker, t.shared.epoch) == []
    requires forall e: nat :: Holding(t.worker, e) == Holding(s.worker, e)
    requires t.shared.epoch == s.shared.epoch + 1 && t.shared.queue == []
    ensures forall e: nat :: Conserved(t, e)
  {
    NothingAccepted(s.accepted, t.shared.epoch);
    NothingTaken(s.log, t.shared.epoch);
    forall e: nat ensures Conserved(t, e) { assert Conserved(s, e); }
  }

  lemma {:induction false} NothingAccepted(frames: seq<Tagged>, epoch: nat)
    requires forall i :: 0 <= i < |frames| ==> frames[i].epoch < epoch
    ensures Of(frames, epoch) == []
  {
    if frames == [] {
    } else {
      NothingAccepted(frames[..|frames|-1], epoch);
    }
  }

  lemma {:induction false} NothingTaken(log: seq<Event>, epoch: nat)
    requires forall i :: 0 <= i < |log| && !log[i].Flushed? ==> log[i].packet.epoch < epoch
    ensures TakenFrames(log, epoch) == []
  {
    if log == [] {
    } else {
      NothingTaken(log[..|log|-1], epoch);
    }
  }

  lemma WriteConserves(s: State, frames: seq<Pcm>, e: nat)
    requires Conserved(s, e)
    ensures Conserved(Step(s, Write(frames)), e)
  {
    var more := Fitting(s.shared, frames);
    OfAppend(s.accepted, more, s.shared.epoch, e);
    var taken := TakenFrames(s.log, e) + Holding(s.worker, e);
    assert (taken + s.shared.queue) + more == taken + (s.shared.queue + more);
  }

  lemma WriteKeeps(s: State, frames: seq<Pcm>)
    requires Inv(s)
    ensures Inv(Step(s, Write(frames)))
  {
    forall e: nat ensures Conserved(Step(s, Write(frames)), e) {
      assert Conserved(s, e);
      WriteConserves(s, frames, e);
    }
  }

  lemma NewEpochKeeps(s: State, t: State)
    requires Inv(s)
    requires t.accepted == s.accepted && t.log == s.log && t.playbackOpen == s.playbackOpen
    requires t.shared.epoch == s.shared.epoch + 1 && t.shared.queue == []
    requires t.worker == s.worker || (s.worker.NoThread? && t.worker.Launched?)
    requires t.flushEpochs == s.flushEpochs
          || (t.flushEpochs == s.flushEpochs + {t.shared.epoch} && t.shared.flushRequested)
    requires ThreadOk(t)
    ensures Inv(t)
  {
    ConservedNewEpoch(s, t);
    assert t.shared.epoch !in s.flushEpochs;
  }

  /** Only flags of the shared state move. */
  lemma FlagsKeep(s: State, t: State)
    requires Inv(s)
    requires t == s.(shared := t.shared)
    requires t.shared.epoch == s.shared.epoch && t.shared.queue == s.shared.queue
    requires t.shared.capacity == s.shared.capacity && t.shared.flushRequested == s.shared.flushRequested
    requires t.shared.stopping == s.shared.stopping && ThreadOk(t)
    ensures Inv(t)
  {
    ConservedFrame(s, t);
  }

  lemma OpenKeeps(s: State, capacity: Capacity, threadOk: bool)
    requires Inv(s)
    ensures Inv(Step(s, Open(capacity, threadOk)))
  {
    if s.worker.NoThread? { NewEpochKeeps(s, Step(s, Open(capacity, threadOk))); }
  }

  /** The worker moves without taking or handing anything. */
  lemma MoveKeeps(s: State, t: State)
    requires Inv(s)
    requires t == s.(shared := t.shared, worker := t.worker, playbackOpen := t.playbackOpen)
    requires t.shared.epoch == s.shared.epoch && t.shared.queue == s.shared.queue
    requires t.shared.capacity == s.shared.capacity
    requires !s.worker.InHand? && !s.worker.Sending? && !t.worker.InHand? && !t.worker.Sending?
    requires WorkerOk(t) && FlushedBefore(t) && FlushFirst(t) && SkipsOk(t) && ThreadOk(t)
    ensures Inv(t)
  {
    ConservedFrame(s, t);
  }

  lemma FailKeeps(s: State)
    requires Inv(s) && !s.worker.InHand? && !s.worker.Sending?
    ensures Inv(Fail(s))
  {
    MoveKeeps(s, Fail(s));
  }

  lemma RenderWakeKeeps(s: State)
    requires Inv(s)
    ensures Inv(Step(s, RenderWake))
  {
    if s.worker.Waiting? && WakeNow(s.shared) { MoveKeeps(s, Step(s, RenderWake)); }
  }

  lemma RenderTimerKeeps(s: State)
    requires Inv(s)
    ensures Inv(Step(s, RenderTimer))
  {
    if s.worker.Pacing? {
      var t := Step(s, RenderTimer);
      if t.worker.Waiting? {
        MoveKeeps(s, t);
      } else {
        TakeKeeps(s);
      }
    }
  }

  /** Popping a packet moves a prefix of the queue into the worker's hands. */
  lemma TakeConserves(s: State, e: nat)
    requires Conserved(s, e) && s.worker.Pacing? && s.worker.epoch == s.shared.epoch
    ensures Conserved(s.(shared := AfterTake(s.shared), worker := InHand(TakenPacket(s.shared, s.worker.epoch))), e)
  {
    var q := s.shared.queue;
    var n := Min(PACKET_FRAMES, |q|);
    var taken := TakenFrames(s.log, e);
    assert q == q[..n] + q[n..];
    assert (taken + q[..n]) + q[n..] == taken + q;
    assert taken + [] == taken;
  }

  lemma TakeKeeps(s: State)
    requires Inv(s) && s.worker.Pacing? && !PacingBroken(s.shared, s.worker.epoch) && Takes(s.shared)
    ensures Inv(Step(s, RenderTimer))
  {
    forall e: nat ensures Conserved(Step(s, RenderTimer), e) {
      assert Conserved(s, e);
      TakeConserves(s, e);
    }
  }

  /** A packet leaves the worker's hands for the log. */
  lemma LoggedConserves(s: State, t: State, v: Event)
    requires forall e: nat :: Conserved(s, e)
    requires s.worker.InHand? || s.worker.Sending?
    requires t.log == s.log + [v] && t.accepted == s.accepted && !t.worker.InHand? && !t.worker.Sending?
    requires t.shared.epoch == s.shared.epoch && t.shared.queue == s.shared.queue
    requires ((v.Handed? || v.Skipped?) && v.packet == s.worker.packet)
          || (v.Dropped? && v.packet == s.worker.packet && v.packet.epoch != s.shared.epoch)
    ensures forall e: nat :: Conserved(t, e)
  {
    forall e: nat ensures Conserved(t, e) {
      assert Conserved(s, e);
      TakenSnoc(s.log, v, e);
      var h, p := TakenFrames(s.log, e), FramesOf(v, e);
      assert (h + p) + [] == h + p && h + [] == h;
    }
  }

  lemma LogGrows(log: seq<Event>, v: Event, flushEpochs: set<nat>)
    requires Ordered(log) && Announced(log, flushEpochs) && SkipsLast(log)
    requires v.Handed? ==> forall i :: 0 <= i < |log| && log[i].Flushed? ==> log[i].epoch <= v.packet.epoch
    requires v.Handed? && v.packet.epoch in flushEpochs ==> Flushed(v.packet.epoch) in log
    requires v.Handed? ==> forall i :: 0 <= i < |log| && log[i].Skipped? ==> log[i].packet.epoch < v.packet.epoch
    ensures Ordered(log + [v]) && Announced(log + [v], flushEpochs) && SkipsLast(log + [v])
  {
    forall j | 0 <= j <= |log| ensures (log + [v])[..j] == log[..j] { }
  }

  lemma RenderCheckKeeps(s: State)
    requires Inv(s)
    ensures Inv(Step(s, RenderCheck))
  {
    if s.worker.InHand? {
      var t := Step(s, RenderCheck);
      if t.worker.Sending? {
        ConservedFrame(s, t);
      } else {
        LoggedConserves(s, t, Dropped(s.worker.packet));
        LogGrows(s.log, Dropped(s.worker.packet), s.flushEpochs);
      }
    }
  }

  lemma SkipKeeps(s: State, ok: bool)
    requires Inv(s) && s.worker.Sending? && !s.playbackOpen
    ensures Inv(Step(s, RenderSent(ok)))
  {
    var v := Skipped(s.worker.packet);
    LoggedConserves(s, Step(s, RenderSent(ok)), v);
    LogGrows(s.log, v, s.flushEpochs);
  }

  lemma HandKeeps(s: State, ok: bool)
    requires Inv(s) && s.worker.Sending? && s.playbackOpen
    ensures Inv(Step(s, RenderSent(ok)))
  {
    var v := Handed(s.worker.packet, ok);
    LoggedConserves(s, Step(s, RenderSent(ok)), v);
    LogGrows(s.log, v, s.flushEpochs);
  }

  lemma RenderSentKeeps(s: State, ok: bool)
    requires Inv(s)
    ensures Inv(Step(s, RenderSent(ok)))
  {
    if s.worker.Sending? {
      if s.playbackOpen { HandKeeps(s, ok); } else { SkipKeeps(s, ok); }
    }
  }

  lemma RenderFlushedKeeps(s: State, ok: bool)
    requires Inv(s)
    ensures Inv(Step(s, RenderFlushed(ok)))
  {
    if s.worker.Flushing? {
      if !s.playbackOpen {
        MoveKeeps(s, Step(s, RenderFlushed(ok)));
      } else if ok {
        var v := Flushed(s.worker.epoch);
        var t := Step(s, RenderFlushed(ok));
        LogGrows(s.log, v, s.flushEpochs);
        forall e: nat ensures Conserved(t, e) {
          assert Conserved(s, e);
          TakenSnoc(s.log, v, e);
          assert TakenFrames(s.log, e) + [] == TakenFrames(s.log, e);
        }
      } else {
        FailKeeps(s);
      }
    }
  }

  lemma StopJoinKeeps(s: State)
    requires Inv(s)
    ensures Inv(Step(s, StopJoin))
  {
    if s.worker.Exited? { MoveKeeps(s, Step(s, StopJoin)); }
  }

  lemma RenderBeginKeeps(s: State)
    requires Inv(s)
    ensures Inv(Step(s, RenderBegin))
  {
    if s.worker.Launched? { MoveKeeps(s, Step(s, RenderBegin)); }
  }

  lemma RenderOpenedKeeps(s: State, ok: bool)
    requires Inv(s)
    ensures Inv(Step(s, RenderOpened(ok)))
  {
    if s.worker.Opening? {
      MoveKeeps(s, Step(s, RenderOpened(ok)));
    }
  }

  /** The host's short locked sections. */
  lemma HostKeeps(s: State, op: Op)
    requires Inv(s) && (op.OnFlush? || op.OnForcePlay? || op.Pause? || op.StopBegin?)
    ensures Inv(Step(s, op))
  {
    if op.OnFlush? || op.StopBegin? { NewEpochKeeps(s, Step(s, op)); } else { FlagsKeep(s, Step(s, op)); }
  }

  lemma StepKeeps(s: State, op: Op)
    requires Inv(s)
    ensures Inv(Step(s, op))
  {
    match op
    case Write(frames) => WriteKeeps(s, frames);
    case OnFlush => HostKeeps(s, op);
    case OnForcePlay => HostKeeps(s, op);
    case Pause(on) => HostKeeps(s, op);
    case Open(capacity, threadOk) => OpenKeeps(s, capacity, threadOk);
    case StopBegin => HostKeeps(s, op);
    case StopJoin => StopJoinKeeps(s);
    case ClosePlayback => ConservedFrame(s, Step(s, op));
    case RenderBegin => RenderBeginKeeps(s);
    case RenderOpened(ok) => RenderOpenedKeeps(s, ok);
    case RenderWake => RenderWakeKeeps(s);
    case RenderTimer => RenderTimerKeeps(s);
    case RenderCheck => RenderCheckKeeps(s);
    case RenderSent(ok) => RenderSentKeeps(s, ok);
    case RenderFlushed(ok) => RenderFlushedKeeps(s, ok);
  }

  lemma {:induction false} RunKeeps(s: State, ops: seq<Op>)
    requires Inv(s)
    ensures Inv(Run(s, ops))
    decreases |ops|
  {
    if ops == [] {
    } else {
      StepKeeps(s, ops[0]);
      RunKeeps(Step(s, ops[0]), ops[1..]);
    }
  }

  lemma InitialOk()
    ensures Inv(INITIAL)
  {
    forall e: nat ensures Conserved(INITIAL, e) { }
  }

  lemma {:induction false} NoneSkipped(log: seq<Event>, epoch: nat)
    requires forall i :: 0 <= i < |log| && log[i].Skipped? ==> log[i].packet.epoch != epoch
    ensures SkippedFrames(log, epoch) == []
  {
    if log == [] {
    } else {
      NoneSkipped(log[..|log|-1], epoch);
    }
  }

  /** What was taken is what was handed over and then, if playback was stopped under
    * the render thread, what was swallowed. */
  lemma {:induction false} TakenSplits(log: seq<Event>, epoch: nat)
    requires SkipsLast(log)
    ensures TakenFrames(log, epoch) == HandedFrames(log, epoch) + SkippedFrames(log, epoch)
  {
    if log == [] {
    } else {
      var before, v := log[..|log|-1], log[|log|-1];
      var f := FramesOf(v, epoch);
      TakenSplits(before, epoch);
      if v.Handed? && v.packet.epoch == epoch {
        NoneSkipped(before, epoch);
        AppendToFirst(HandedFrames(before, epoch), f);
      } else {
        AppendToSecond(HandedFrames(before, epoch), SkippedFrames(before, epoch), f);
      }
    }
  }

  lemma AppendToFirst(a: seq<Tagged>, f: seq<Tagged>)
    ensures (a + []) + f == (a + f) + []
  {
  }

  lemma AppendToSecond(a: seq<Tagged>, b: seq<Tagged>, f: seq<Tagged>)
    ensures (a + b) + f == a + (b + f)
    ensures f == [] ==> (a + b) + f == a + b && a + f == a && b + f == b
  {
  }

  /** Every interleaving of host calls, stops and render steps, from the beginning:
    * no frame of the current epoch is lost, repeated or reordered on its way from
    * write to the transport, and no frame of any epoch is repeated or reordered.
    * Frames swallowed by a stopped playback come after all that was sent. */
  lemma FramesAreConserved(ops: seq<Op>, epoch: nat)
    ensures var s := Run(INITIAL, ops);
      && HandedFrames(s.log, epoch) + SkippedFrames(s.log, epoch) + Holding(s.worker, epoch) <= Of(s.accepted, epoch)
      && HandedFrames(s.log, s.shared.epoch) + SkippedFrames(s.log, s.shared.epoch)
           + Holding(s.worker, s.shared.epoch) + s.shared.queue == Of(s.accepted, s.shared.epoch)
      && |s.shared.queue| <= s.shared.capacity
  {
    InitialOk();
    RunKeeps(INITIAL, ops);
    var s := Run(INITIAL, ops);
    TakenSplits(s.log, epoch);
    TakenSplits(s.log, s.shared.epoch);
    assert Conserved(s, epoch) && Conserved(s, s.shared.epoch);
  }

  /** A stop of playback that costs nothing: no render thread is running, or it has yet
    * to open playback, or the output itself is stopping. */
  predicate Harmless(s: State) { !Live(s.worker) || Starting(s.worker) || s.shared.stopping }

  predicate HarmlessCloses(s: State, ops: seq<Op>)
    decreases |ops|
  {
    ops == [] || ((ops[0].ClosePlayback? ==> Harmless(s)) && HarmlessCloses(Step(s, ops[0]), ops[1..]))
  }

  /** Every accepted frame of the current epoch has reached the transport, or is in
    * hand or queued. */
  ghost predicate Reached(s: State) {
    HandedFrames(s.log, s.shared.epoch) + Holding(s.worker, s.shared.epoch) + s.shared.queue
      == Of(s.accepted, s.shared.epoch)
  }

  /** Whatever was swallowed is of an ended epoch. */
  ghost predicate NothingLost(s: State) {
    forall i :: 0 <= i < |s.log| && s.log[i].Skipped? ==> s.log[i].packet.epoch != s.shared.epoch
  }

  lemma {:induction false} SomeSkipped(log: seq<Event>, i: nat)
    requires i < |log| && log[i].Skipped? && log[i].packet.frames != []
    ensures SkippedFrames(log, log[i].packet.epoch) != []
  {
    if i == |log| - 1 {
    } else {
      SomeSkipped(log[..|log|-1], i);
    }
  }

  lemma ReachedIffNothingLost(s: State)
    requires Inv(s)
    ensures Reached(s) <==> NothingLost(s)
  {
    var e := s.shared.epoch;
    TakenSplits(s.log, e);
    assert Conserved(s, e);
    if NothingLost(s) {
      NoneSkipped(s.log, e);
      assert HandedFrames(s.log, e) + [] == HandedFrames(s.log, e);
    } else {
      var i :| 0 <= i < |s.log| && s.log[i].Skipped? && s.log[i].packet.epoch == e;
      SomeSkipped(s.log, i);
    }
  }

  /** While playback was only stopped harmlessly. */
  ghost predicate KeptOpen(s: State) {
    && NothingLost(s)
    && (Live(s.worker) && !Starting(s.worker) && !s.shared.stopping ==> s.playbackOpen)
    && (Live(s.worker) && !s.shared.stopping ==> s.shared.started && !s.shared.workerError)
  }

  lemma KeptOpenStep(s: State, op: Op)
    requires Inv(s) && KeptOpen(s) && (op.ClosePlayback? ==> Harmless(s))
    ensures KeptOpen(Step(s, op))
  {
    assert LogOk(s);
  }

  lemma {:induction false} KeptOpenRun(s: State, ops: seq<Op>)
    requires Inv(s) && KeptOpen(s) && HarmlessCloses(s, ops)
    ensures Inv(Run(s, ops)) && KeptOpen(Run(s, ops))
    decreases |ops|
  {
    if ops == [] {
    } else {
      KeptOpenStep(s, ops[0]);
      StepKeeps(s, ops[0]);
      KeptOpenRun(Step(s, ops[0]), ops[1..]);
    }
  }

  /** As long as playback is only stopped harmlessly every accepted frame of the current
    * epoch reaches the transport, or is in hand or queued. */
  lemma FramesReachTheTransport(ops: seq<Op>)
    requires HarmlessCloses(INITIAL, ops)
    ensures Reached(Run(INITIAL, ops))
  {
    InitialOk();
    KeptOpenRun(INITIAL, ops);
    ReachedIffNothingLost(Run(INITIAL, ops));
  }

  /** The render thread finishes what it has in hand and serves a flush, and a frame
    * written then is swallowed. */
  const SETTLE: seq<Op> := [OnFlush, RenderFlushed(true), RenderCheck, RenderSent(true), RenderTimer]
  const SERVE: seq<Op> := [RenderWake, RenderFlushed(true), Pause(false)]
  const SWALLOW: seq<Op> :=
    [Write([SILENCE]), OnForcePlay, RenderWake, RenderTimer, RenderCheck, RenderSent(true)]
  const LOSING: seq<Op> := SETTLE + (SERVE + SWALLOW)

  /** A running render thread over a playback that someone has stopped. */
  ghost predicate Orphaned(s: State) {
    && Live(s.worker) && !Starting(s.worker) && !s.playbackOpen
    && s.shared.started && !s.shared.stopping && !s.shared.workerError
  }

  /** After the on_flush: nothing queued, and what the thread is at is older. */
  ghost predicate Settling(s: State) {
    && Orphaned(s) && s.shared.queue == [] && s.shared.flushRequested
    && (WorkerEpoch(s.worker).Some? ==> WorkerEpoch(s.worker).value != s.shared.epoch)
  }

  lemma SettleStep(s: State, op: Op)
    requires Settling(s) && (op.RenderFlushed? || op.RenderCheck? || op.RenderSent? || op.RenderTimer?)
    ensures var t := Step(s, op);
      && Settling(t)
      && t.worker == if (op.RenderFlushed? && s.worker.Flushing?) || (op.RenderCheck? && s.worker.InHand?)
                        || (op.RenderSent? && s.worker.Sending?) || (op.RenderTimer? && s.worker.Pacing?)
                     then Waiting else s.worker
  {
  }

  lemma Settles(s: State)
    requires Inv(s) && Orphaned(s)
    ensures Settling(Run(s, SETTLE)) && Run(s, SETTLE).worker.Waiting?
  {
    RunFive(s, SETTLE);
    var a := Step(s, SETTLE[0]);
    var b := Step(a, SETTLE[1]);
    var c := Step(b, SETTLE[2]);
    SettleStep(a, SETTLE[1]);
    SettleStep(b, SETTLE[2]);
    SettleStep(c, SETTLE[3]);
    SettleStep(Step(c, SETTLE[3]), SETTLE[4]);
  }

  lemma Serves(s: State)
    requires Orphaned(s) && s.worker.Waiting? && s.shared.queue == [] && s.shared.flushRequested
    ensures var t := Run(s, SERVE);
      && Orphaned(t) && t.worker.Waiting? && t.shared.queue == [] && !t.shared.flushRequested && !t.shared.paused
      && t.shared.capacity == s.shared.capacity
  {
    RunThree(s, SERVE);
  }

  lemma Swallows(s: State)
    requires Orphaned(s) && s.worker.Waiting? && s.shared.queue == []
    requires !s.shared.flushRequested && !s.shared.paused
    ensures !NothingLost(Run(s, SWALLOW))
  {
    RunSix(s, SWALLOW);
    var written := Step(Step(s, SWALLOW[0]), SWALLOW[1]);
    assert written.shared.queue == [Tagged(SILENCE, s.shared.epoch)];
    var taken := Step(Step(written, SWALLOW[2]), SWALLOW[3]);
    assert taken.worker.InHand?;
    var end := Run(s, SWALLOW);
    assert end.log[|s.log|] == Skipped(taken.worker.packet);
  }

  lemma RunThree(s: State, ops: seq<Op>)
    requires |ops| == 3
    ensures Run(s, ops) == Step(Step(Step(s, ops[0]), ops[1]), ops[2])
  {
    RunOne(s, ops);
    RunOne(Step(s, ops[0]), ops[1..]);
    RunOne(Step(Step(s, ops[0]), ops[1]), ops[2..]);
  }

  lemma RunOne(s: State, ops: seq<Op>)
    requires ops != []
    ensures Run(s, ops) == Run(Step(s, ops[0]), ops[1..])
    ensures |ops| == 1 ==> Run(s, ops) == Step(s, ops[0])
  {
  }

  lemma RunFive(s: State, ops: seq<Op>)
    requires |ops| == 5
    ensures Run(s, ops) == Step(Step(Step(Step(Step(s, ops[0]), ops[1]), ops[2]), ops[3]), ops[4])
  {
    RunOne(s, ops);
    RunOne(Step(s, ops[0]), ops[1..]);
    RunThree(Step(Step(s, ops[0]), ops[1]), ops[2..]);
  }

  lemma RunSix(s: State, ops: seq<Op>)
    requires |ops| == 6
    ensures Run(s, ops) == Step(Step(Step(Step(Step(Step(s, ops[0]), ops[1]), ops[2]), ops[3]), ops[4]), ops[5])
  {
    RunOne(s, ops);
    RunFive(Step(s, ops[0]), ops[1..]);
  }

  lemma OrphanLoses(s: State)
    requires Inv(s) && Orphaned(s)
    ensures !NothingLost(Run(s, LOSING))
  {
    var a := Run(s, SETTLE);
    Settles(s);
    Serves(a);
    Swallows(Run(a, SERVE));
    RunAppend(a, SERVE, SWALLOW);
    RunAppend(s, SETTLE, SERVE + SWALLOW);
  }

  lemma {:induction false} NoCloseIsHarmless(s: State, ops: seq<Op>)
    requires forall op: Op :: op in ops ==> !op.ClosePlayback?
    ensures HarmlessCloses(s, ops)
    decreases |ops|
  {
    if ops == [] {
    } else {
      NoCloseIsHarmless(Step(s, ops[0]), ops[1..]);
    }
  }

  /** The condition on a stop is exact. In every state reached with harmless stops only,
    * the next one costs no frame, however the run goes on, if and only if it is
    * harmless itself. */
  lemma CloseLosesNothingIff(ops: seq<Op>)
    requires HarmlessCloses(INITIAL, ops)
    ensures var s := Run(INITIAL, ops); var t := Step(s, ClosePlayback);
      Harmless(s) <==> forall more :: HarmlessCloses(t, more) ==> Reached(Run(t, more))
  {
    var s := Run(INITIAL, ops);
    var t := Step(s, ClosePlayback);
    InitialOk();
    KeptOpenRun(INITIAL, ops);
    StepKeeps(s, ClosePlayback);
    if Harmless(s) {
      KeptOpenStep(s, ClosePlayback);
      forall more | HarmlessCloses(t, more) ensures Reached(Run(t, more)) {
        KeptOpenRun(t, more);
        ReachedIffNothingLost(Run(t, more));
      }
    } else {
      OrphanLoses(t);
      NoCloseIsHarmless(t, LOSING);
      RunKeeps(t, LOSING);
      ReachedIffNothingLost(Run(t, LOSING));
    }
  }

  const CLOSED_UNDER: seq<Op> := [Open(44100, true), RenderBegin, RenderOpened(true), ClosePlayback]

  /** A history that loses a frame: playback is stopped under a running output. */
  lemma SwallowedFrame()
    ensures var s := Run(INITIAL, CLOSED_UNDER + LOSING);
      && !Reached(s)
      && SkippedFrames(s.log, s.shared.epoch) != []
  {
    var t := Run(INITIAL, CLOSED_UNDER);
    var ops := CLOSED_UNDER;
    RunOne(INITIAL, ops);
    RunThree(Step(INITIAL, ops[0]), ops[1..]);
    RunAppend(INITIAL, CLOSED_UNDER, LOSING);
    InitialOk();
    RunKeeps(INITIAL, CLOSED_UNDER);
    RunKeeps(t, LOSING);
    OrphanLoses(t);
    var s := Run(t, LOSING);
    ReachedIffNothingLost(s);
    var i :| 0 <= i < |s.log| && s.log[i].Skipped? && s.log[i].packet.epoch == s.shared.epoch;
    SomeSkipped(s.log, i);
  }

  /** Every packet that reaches the transport is 352 frames of one epoch, and only
    * force-play pads it. */
  lemma PacketsAreWhole(ops: seq<Op>, i: nat)
    requires i < |Run(INITIAL, ops).log| && Run(INITIAL, ops).log[i].Handed?
    ensures PacketOk(Run(INITIAL, ops).log[i].packet)
  {
    InitialOk();
    RunKeeps(INITIAL, ops);
    var s := Run(INITIAL, ops);
    assert s.log[i].Handed?;
  }

  lemma {:induction false} RunAppend(s: State, a: seq<Op>, b: seq<Op>)
    ensures Run(s, a + b) == Run(Run(s, a), b)
    decreases |a|
  {
    if a == [] {
      assert a + b == b;
    } else {
      assert (a + b)[1..] == a[1..] + b;
      RunAppend(Step(s, a[0]), a[1..], b);
    }
  }

  /** Flush safety. Take any on_flush of a history and the transport flush that
    * serves it: everything sent after that flush was written after the on_flush.
    * This holds although a packet may pass the currency check before the on_flush
    * and be sent after it. */
  lemma FlushSafety(before: seq<Op>, after: seq<Op>, i: nat, j: nat, k: nat, m: nat)
    requires var s := Run(INITIAL, before + [OnFlush] + after);
      && i < j < |s.log| && s.log[i].Flushed? && s.log[i].epoch > Run(INITIAL, before).shared.epoch
      && s.log[j].Handed? && k < |s.log[j].packet.frames| && m < |Run(INITIAL, before).accepted|
    ensures var s := Run(INITIAL, before + [OnFlush] + after);
      Run(INITIAL, before).accepted[m].epoch < s.log[j].packet.frames[k].epoch
  {
    InitialOk();
    RunKeeps(INITIAL, before);
    RunKeeps(INITIAL, before + [OnFlush] + after);
    var s := Run(INITIAL, before + [OnFlush] + after);
    assert PacketOk(s.log[j].packet);
  }

  lemma {:induction false} FlushEpochsStay(s: State, ops: seq<Op>, e: nat)
    requires e in s.flushEpochs
    ensures e in Run(s, ops).flushEpochs
    decreases |ops|
  {
    if ops == [] {
    } else {
      FlushEpochsStay(Step(s, ops[0]), ops[1..], e);
    }
  }

  /** The other half: nothing written in the epoch that an on_flush begins is sent
    * before its transport flush has gone out. */
  lemma FlushGoesFirst(before: seq<Op>, after: seq<Op>, j: nat)
    requires var s := Run(INITIAL, before + [OnFlush] + after); j < |s.log| && s.log[j].Handed?
    requires Run(INITIAL, before + [OnFlush] + after).log[j].packet.epoch == Run(INITIAL, before).shared.epoch + 1
    ensures var s := Run(INITIAL, before + [OnFlush] + after); Flushed(s.log[j].packet.epoch) in s.log[..j]
  {
    var b := Run(INITIAL, before);
    RunAppend(INITIAL, before + [OnFlush], after);
    RunAppend(INITIAL, before, [OnFlush]);
    assert Run(b, [OnFlush]) == Step(b, OnFlush) by { assert [OnFlush][1..] == []; }
    FlushEpochsStay(Step(b, OnFlush), after, b.shared.epoch + 1);
    InitialOk();
    RunKeeps(INITIAL, before + [OnFlush] + after);
  }

  /** Whenever write accepts frames, a render thread is alive to send them. */
  lemma AcceptedFramesHaveAThread(ops: seq<Op>)
    ensures Accepts(Run(INITIAL, ops).shared) ==> Live(Run(INITIAL, ops).worker)
  {
    InitialOk();
    RunKeeps(INITIAL, ops);
  }

  /** A packet is thrown away only after its epoch has ended. */
  lemma DropsAreStale(ops: seq<Op>, i: nat)
    requires i < |Run(INITIAL, ops).log| && Run(INITIAL, ops).log[i].Dropped?
    ensures Run(INITIAL, ops).log[i].packet.epoch < Run(INITIAL, ops).shared.epoch
  {
    InitialOk();
    RunKeeps(INITIAL, ops);
    var s := Run(INITIAL, ops);
    assert s.log[i].Dropped?;
  }

  // ---- pausing, sending and flushing

  /** Neither resumed nor opened again. */
  predicate StaysPaused(ops: seq<Op>) {
    forall i :: 0 <= i < |ops| ==> !ops[i].Open? && (ops[i].Pause? ==> ops[i].on)
  }

  /** What pausing holds still. */
  predicate Held(s: State, t: State) {
    && t.shared.paused && t.accepted == s.accepted && t.shared.epoch >= s.shared.epoch
    && (t.shared.epoch == s.shared.epoch ==> t.shared.queue == s.shared.queue)
    && (t.worker.InHand? ==> s.worker.InHand?)
  }

  lemma PausedWrite(s: State, frames: seq<Pcm>)
    requires s.shared.paused
    ensures Step(s, Write(frames)) == s
  {
    assert Fitting(s.shared, frames) == [];
    assert s.shared.queue + [] == s.shared.queue && s.accepted + [] == s.accepted;
  }

  lemma PausedStep(s: State, op: Op)
    requires s.shared.paused && !op.Open? && (op.Pause? ==> op.on)
    ensures Held(s, Step(s, op))
  {
    if op.Write? { PausedWrite(s, op.frames); }
  }

  /** A paused output accepts no frame and takes no packet, whatever else happens: what
    * was queued stays queued until a flush or a stop throws it away. */
  lemma {:induction false} PausedTakesNothing(s: State, ops: seq<Op>)
    requires s.shared.paused && StaysPaused(ops)
    ensures Held(s, Run(s, ops))
    decreases |ops|
  {
    if ops == [] {
    } else {
      PausedStep(s, ops[0]);
      assert StaysPaused(ops[1..]);
      PausedTakesNothing(Step(s, ops[0]), ops[1..]);
    }
  }

  const SEND: seq<Op> := [RenderWake, RenderTimer, RenderCheck]

  /** An output that is playing sends: with a whole packet queued, or anything at all
    * under force-play, an uninterrupted round of the render thread hands exactly the
    * first frames over, up to 352 of them, and leaves the rest queued. */
  lemma PlayingSends(s: State)
    requires s.worker.Waiting? && s.playbackOpen && !s.shared.stopping && !s.shared.paused && !s.shared.flushRequested
    requires |s.shared.queue| >= 352 || (s.shared.forcePlay && s.shared.queue != [])
    ensures var t := Step(Run(s, SEND), RenderSent(true)); var n := Min(352, |s.shared.queue|);
      && t.worker.Waiting? && t.shared.queue == s.shared.queue[n..] && |t.log| == |s.log| + 1
      && t.log[|s.log|].Handed? && t.log[|s.log|].packet.frames == s.shared.queue[..n]
      && t.log[|s.log|].packet.epoch == s.shared.epoch
      && (t.shared.forcePlay <==> s.shared.forcePlay && t.shared.queue != [])
  {
    RunThree(s, SEND);
  }

  /** Without a whole packet or force-play it waits. */
  lemma PlayingWaits(s: State)
    requires s.worker.Waiting? && !s.shared.stopping && !s.shared.flushRequested
    requires |s.shared.queue| < 352 && !s.shared.forcePlay
    ensures Step(s, RenderWake) == s
  {
  }

  /** A flush that was asked for goes out first, with everything else left as it is. */
  lemma FlushIsServed(s: State)
    requires s.worker.Waiting? && s.playbackOpen && !s.shared.stopping && s.shared.flushRequested
    ensures Step(Step(s, RenderWake), RenderFlushed(true))
      == s.(shared := s.shared.(flushRequested := false, pacingReset := true), log := s.log + [Flushed(s.shared.epoch)])
  {
  }

  /** A send that fails ends the thread. Unless the output was already stopping, the
    * failure is kept for the host to see and no further frame is accepted. */
  lemma SendFailureIsReported(s: State)
    requires s.worker.Sending? && s.playbackOpen
    ensures var t := Step(s, RenderSent(false));
      && t.worker.Exited? && !t.shared.started && CanWrite(t.shared) == 0 && t.shared.queue == s.shared.queue
      && (!s.shared.stopping ==> t.shared.workerError && t.shared.failureStop)
      && (s.shared.stopping ==> t.shared.workerError == s.shared.workerError && t.shared.failureStop == s.shared.failureStop)
  {
  }

  /** An open that fails is reported in the same way, and playback is not open. */
  lemma OpenFailureIsReported(s: State)
    requires s.worker.Opening?
    ensures var t := Step(s, RenderOpened(false));
      && t.worker.Exited? && !t.playbackOpen && CanWrite(t.shared) == 0
      && (!s.shared.stopping ==> t.shared.workerError && t.shared.failureStop)
  {
  }

  /** Without a thread the output is left stopped, with nothing to close, and can be
    * opened again. */
  lemma OpenWithoutThread(s: State, capacity: Capacity)
    requires s.worker.NoThread?
    ensures var t := Step(s, Open(capacity, false));
      && t.worker.NoThread? && t.shared.stopping && !t.shared.started && !t.shared.streamOpen && t.shared.queue == []
      && Step(t, Open(capacity, true)).worker.Launched? && Accepts(Step(t, Open(capacity, true)).shared)
  {
  }

  /** A stop takes the render thread down from wherever it waits or works. */
  lemma StopEndsTheThread(s: State)
    requires s.worker.Launched? || s.worker.Waiting? || s.worker.Pacing?
    ensures var t := Step(s, StopBegin);
      Step(Step(Step(t, RenderBegin), RenderTimer), RenderWake).worker.Exited? && t.shared.queue == [] && !Accepts(t.shared)
  {
  }

  // ---- the shared state as an object

  function Le16Sample(x: i16): Bytes { [x % U16 % 256, x % U16 / 256] }

  function FrameBytes(f: Pcm): Bytes { Le16Sample(f.left) + Le16Sample(f.right) }

  /** Interleaved little-endian samples. */
  function FramesBytes(frames: seq<Pcm>): (b: Bytes)
    ensures |b| == 4 * |frames|
  {
    if frames == [] then [] else FramesBytes(frames[..|frames|-1]) + FrameBytes(frames[|frames|-1])
  }

  function Untagged(frames: seq<Tagged>): (r: seq<Pcm>)
    ensures |r| == |frames|
  {
    seq(|frames|, i requires 0 <= i < |frames| => frames[i].pcm)
  }

  const SILENCE := Pcm(0, 0)

  function Silent(n: nat): (r: seq<Pcm>)
    ensures |r| == n
  {
    seq(n, i requires 0 <= i < n => SILENCE)
  }

  /** What write_playback_pcm is given: the frames, then zeros up to 352. */
  function PacketBytes(p: Packet): (b: Bytes)
    ensures |b| == 4 * (|p.frames| + p.padding)
  {
    FramesBytes(Untagged(p.frames) + Silent(p.padding))
  }

  lemma FramesBytesSnoc(frames: seq<Pcm>, f: Pcm)
    ensures FramesBytes(frames + [f]) == FramesBytes(frames) + FrameBytes(f)
  {
    assert (frames + [f])[..|frames|] == frames;
  }

  /** A packet's bytes hold the given frames first, each sample low byte before high
    * byte and left before right, and zeros up to 352 frames. */
  ghost predicate Holds(bytes: Bytes, frames: seq<Pcm>) {
    && |bytes| == 1408 && |frames| <= 352
    && (forall i :: 0 <= i < |frames| ==> SampleIs(bytes, 4 * i, frames[i].left) && SampleIs(bytes, 4 * i + 2, frames[i].right))
    && (forall k :: 4 * |frames| <= k < 1408 ==> bytes[k] == 0)
  }

  predicate SampleIs(bytes: Bytes, at: nat, x: i16)
    requires at + 2 <= |bytes|
  {
    bytes[at] as int + 256 * (bytes[at + 1] as int) == x % 65536
  }

  lemma {:induction false} FramesBytesAt(frames: seq<Pcm>, i: nat)
    requires i < |frames|
    ensures SampleIs(FramesBytes(frames), 4 * i, frames[i].left)
    ensures SampleIs(FramesBytes(frames), 4 * i + 2, frames[i].right)
  {
    if i == |frames| - 1 {
    } else {
      FramesBytesAt(frames[..|frames|-1], i);
    }
  }

  lemma ZeroSample(b: Bytes, at: nat, k: nat)
    requires at <= k < at + 2 <= |b| && SampleIs(b, at, 0)
    ensures b[k] == 0
  {
  }

  lemma SilentFrame(b: Bytes, i: nat, k: nat)
    requires 4 * i <= k < 4 * i + 4 <= |b| && SampleIs(b, 4 * i, 0) && SampleIs(b, 4 * i + 2, 0)
    ensures b[k] == 0
  {
    if k < 4 * i + 2 { ZeroSample(b, 4 * i, k); } else { ZeroSample(b, 4 * i + 2, k); }
  }

  lemma PaddingIsZero(frames: seq<Pcm>, i: nat, k: nat)
    requires |frames| <= i < PACKET_FRAMES && 4 * i <= k < 4 * i + 4
    ensures FramesBytes(frames + Silent(PACKET_FRAMES - |frames|))[k] == 0
  {
    var all := frames + Silent(PACKET_FRAMES - |frames|);
    FramesBytesAt(all, i);
    SilentFrame(FramesBytes(all), i, k);
  }

  /** Little-endian samples, read from the bytes alone. */
  lemma PacketBytesHold(frames: seq<Pcm>)
    requires |frames| <= PACKET_FRAMES
    ensures Holds(FramesBytes(frames + Silent(PACKET_FRAMES - |frames|)), frames)
  {
    var all := frames + Silent(PACKET_FRAMES - |frames|);
    var b := FramesBytes(all);
    forall i | 0 <= i < |frames| ensures SampleIs(b, 4 * i, frames[i].left) && SampleIs(b, 4 * i + 2, frames[i].right) {
      FramesBytesAt(all, i);
      assert all[i] == frames[i];
    }
    forall k | 4 * |frames| <= k < 1408 ensures b[k] == 0 {
      PaddingIsZero(frames, k / 4, k);
    }
  }

  lemma TagAllAppend(a: seq<Pcm>, b: seq<Pcm>, epoch: nat)
    ensures TagAll(a + b, epoch) == TagAll(a, epoch) + TagAll(b, epoch)
  {
  }

  lemma TagAllSlices(q: seq<Pcm>, epoch: nat, n: nat)
    requires n <= |q|
    ensures TagAll(q, epoch)[..n] == TagAll(q[..n], epoch) && TagAll(q, epoch)[n..] == TagAll(q[n..], epoch)
    ensures Untagged(TagAll(q[..n], epoch)) == q[..n]
  {
  }

  lemma SilentSnoc(n: nat)
    ensures Silent(n + 1) == Silent(n) + [SILENCE]
  {
  }

  datatype WriteResult = WriteDone | FormatChanged | RenderFailed

  class MultiroomOutput {
    var pcmQueue: seq<Pcm>
    var capacityFrames: Capacity
    var streamEpoch: nat
    var paused: bool
    var stopping: bool
    var started: bool
    var streamOpen: bool
    var forcePlay: bool
    var flushRequested: bool
    var pacingReset: bool
    var workerError: bool
    var failureStop: bool
    var inFlightFrames: nat

    ghost function Model(): Shared
      reads this
    {
      Shared(TagAll(pcmQueue, streamEpoch), capacityFrames, streamEpoch, paused, stopping, started, streamOpen,
             forcePlay, flushRequested, pacingReset, workerError, failureStop)
    }

    constructor ()
      ensures Model() == IDLE && inFlightFrames == 0
    {
      pcmQueue, capacityFrames, streamEpoch := [], 44100, 0;
      paused, stopping, started, streamOpen := false, true, false, false;
      forcePlay, flushRequested, pacingReset, workerError, failureStop := false, false, true, false, false;
      inFlightFrames := 0;
    }

    method Write(channels: nat, samples: seq<Pcm>) returns (r: WriteResult)
      modifies `pcmQueue
      ensures Model() == if channels == 2 then Written(old(Model()), samples) else old(Model())
      ensures r == if samples == [] then WriteDone
                   else if channels != 2 then FormatChanged
                   else if workerError then RenderFailed else WriteDone
    {
      if samples == [] {
        assert TagAll(pcmQueue, streamEpoch) + [] == TagAll(pcmQueue, streamEpoch);
        return WriteDone;
      }
      if channels != 2 {
        return FormatChanged;
      }
      if !workerError && started && !stopping && !paused {
        PushFitting(samples);
      } else {
        assert TagAll(pcmQueue, streamEpoch) + [] == TagAll(pcmQueue, streamEpoch);
      }
      r := if workerError then RenderFailed else WriteDone;
    }

    method PushFitting(samples: seq<Pcm>)
      requires Accepts(Model())
      modifies `pcmQueue
      ensures Model() == Written(old(Model()), samples)
    {
      var available := if capacityFrames > |pcmQueue| then capacityFrames - |pcmQueue| else 0;
      var toCopy := Min(|samples|, available);
      for frame := 0 to toCopy
        invariant pcmQueue == old(pcmQueue) + samples[..frame]
      {
        assert samples[..frame+1] == samples[..frame] + [samples[frame]];
        pcmQueue := pcmQueue + [samples[frame]];
      }
      TagAllAppend(old(pcmQueue), samples[..toCopy], streamEpoch);
    }

    method CanWriteSamples() returns (n: nat)
      ensures n == CanWrite(Model())
    {
      if !started || stopping || paused || workerError {
        return 0;
      }
      n := if capacityFrames > |pcmQueue| then capacityFrames - |pcmQueue| else 0;
    }

    /** Saturates at the largest sample count instead of overflowing. */
    method GetLatencySamples(maxLatency: nat) returns (n: nat)
      ensures n == Min(maxLatency, |pcmQueue| + inFlightFrames)
    {
      var queued := |pcmQueue|;
      if queued >= maxLatency || inFlightFrames > maxLatency - queued {
        return maxLatency;
      }
      n := queued + inFlightFrames;
    }

    method BeginEpoch()
      modifies `pcmQueue, `forcePlay, `pacingReset, `streamEpoch
      ensures Model() == NewEpoch(old(Model()))
    {
      pcmQueue := [];
      forcePlay := false;
      pacingReset := true;
      streamEpoch := streamEpoch + 1;
      assert TagAll(pcmQueue, streamEpoch) == [];
    }

    method OnFlushRequested()
      modifies this
      ensures Model() == FlushRequested(old(Model())) && inFlightFrames == old(inFlightFrames)
    {
      BeginEpoch();
      flushRequested := true;
    }

    method OnForcePlayRequested()
      modifies this
      ensures Model() == old(Model()).(forcePlay := true) && inFlightFrames == old(inFlightFrames)
    {
      forcePlay := true;
    }

    method SetPaused(on: bool)
      modifies this
      ensures Model() == PauseSet(old(Model()), on) && inFlightFrames == old(inFlightFrames)
    {
      paused := on;
      pacingReset := true;
    }

    method BeginStop()
      modifies this
      ensures Model() == StopBegun(old(Model())) && inFlightFrames == old(inFlightFrames)
    {
      BeginEpoch();
      stopping, started, streamOpen := true, false, false;
      workerError, flushRequested, failureStop := false, false, false;
    }

    method BeginOpen(capacity: Capacity)
      modifies this
      ensures Model() == Opened(old(Model()), capacity) && inFlightFrames == old(inFlightFrames)
    {
      BeginEpoch();
      capacityFrames := capacity;
      workerError, failureStop, flushRequested := false, false, false;
      paused, stopping, started, streamOpen := false, false, true, true;
    }

    /** The pop, pad and hand-over section of the render loop. */
    method TakePacket() returns (packet: Bytes)
      requires Takes(Model())
      modifies this
      ensures packet == PacketBytes(TakenPacket(old(Model()), old(streamEpoch)))
      ensures Holds(packet, old(pcmQueue)[..Min(352, |old(pcmQueue)|)])
      ensures Model() == AfterTake(old(Model()))
      ensures inFlightFrames == PACKET_FRAMES
    {
      var frameCount := Min(PACKET_FRAMES, |pcmQueue|);
      TagAllSlices(pcmQueue, streamEpoch, frameCount);
      ghost var taken := pcmQueue[..frameCount];
      packet := PopFrames(frameCount);
      if forcePlay && pcmQueue == [] {
        forcePlay := false;
      }
      inFlightFrames := PACKET_FRAMES;
      packet := PadPacket(packet, taken);
    }

    static method PadPacket(popped: Bytes, ghost taken: seq<Pcm>) returns (packet: Bytes)
      requires popped == FramesBytes(taken) && |taken| <= PACKET_FRAMES
      ensures packet == FramesBytes(taken + Silent(PACKET_FRAMES - |taken|)) && Holds(packet, taken)
    {
      packet := AppendZeros(popped, taken);
      PacketBytesHold(taken);
    }

    static method AppendZeros(popped: Bytes, ghost taken: seq<Pcm>) returns (packet: Bytes)
      requires popped == FramesBytes(taken) && |taken| <= PACKET_FRAMES
      ensures packet == FramesBytes(taken + Silent(PACKET_FRAMES - |taken|))
    {
      packet := popped;
      ghost var padded := 0;
      assert taken + Silent(0) == taken;
      while |packet| < 4 * PACKET_FRAMES
        invariant packet == FramesBytes(taken + Silent(padded)) && |taken| + padded <= PACKET_FRAMES
        decreases 4 * PACKET_FRAMES - |packet|
      {
        SilentSnoc(padded);
        FramesBytesSnoc(taken + Silent(padded), SILENCE);
        assert taken + Silent(padded + 1) == (taken + Silent(padded)) + [SILENCE];
        packet := packet + FrameBytes(SILENCE);
        padded := padded + 1;
      }
    }

    method PopFrames(count: nat) returns (packet: Bytes)
      requires count <= |pcmQueue|
      modifies `pcmQueue
      ensures pcmQueue == old(pcmQueue)[count..] && packet == FramesBytes(old(pcmQueue)[..count])
    {
      packet := [];
      for frame := 0 to count
        invariant pcmQueue == old(pcmQueue)[frame..] && packet == FramesBytes(old(pcmQueue)[..frame])
      {
        FramesBytesSnoc(old(pcmQueue)[..frame], old(pcmQueue)[frame]);
        assert old(pcmQueue)[..frame+1] == old(pcmQueue)[..frame] + [old(pcmQueue)[frame]];
        packet := packet + FrameBytes(pcmQueue[0]);
        pcmQueue := pcmQueue[1..];
      }
    }
  }
}
