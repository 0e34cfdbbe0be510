/**
 * The component's refresh worker, control worker and playback open/stop path, as
 * atomic steps cut at the places where the state mutex or the transport mutex is
 * taken or released. Each step is one locked section, one atomic access outside
 * the locks, or one stretch of work under the transport mutex.
 */
module Workers {
  import opened Common

  /** The owner of the transport mutex. */
  datatype Owner = Nobody | RefreshWorker | ControlWorker | Playback | Stray | Other

  datatype RefreshPc = RNone | RSpawning | RWaiting | RLocked | RDiscovering | RReporting

  /** What one snapshot of the control worker took to apply. */
  datatype Work = Work(full: bool, volumes: set<Id>, metadata: bool, connect: bool)

  datatype ControlPc =
    | CNone | CSpawning | CReady
    | CWaiting(work: Work)     // for the transport mutex
    | CHeld(work: Work)        // holding it, before playback_open is read again
    | CApplying(work: Work)    // selecting and, if work.connect, connecting receivers
    | CFinishing

  /** PPrepared: connecting is set and the render thread has not entered the open;
    * PAbandoned: it never will, being stopped first or not created at all. */
  datatype PlaybackPc =
    | PClosed | PPrepared | PAbandoned | PRefreshing | PLoaded | PWaiting | PSetup | PSetupDone | POpen
    | PFailWaiting | PFailHeld | PFailCleared | PFailed
    | PStopHeld | PStopCleared | PRerun

  /** The stop_playback that a playback failure queues to the main thread. It is not
    * ordered with the host's own calls, and only one is queued at a time. */
  datatype StrayPc = SNone | SHeld | SCleared | SRerun

  /** The playback flags: playback_open_, playback_connecting_,
    * playback_format_valid_ and refresh_deferred_until_stop_. */
  datatype Flags = Flags(open: bool, connecting: bool, formatValid: bool, deferred: bool)

  datatype Refresh = Refresh(inProgress: bool, requested: bool, pc: RefreshPc)

  /** Pending control work beside the worker's own state. */
  datatype Control = Control(full: bool, volumes: set<Id>, metadata: bool, inProgress: bool, pc: ControlPc)

  datatype State = State(flags: Flags, refresh: Refresh, control: Control, owner: Owner, playback: PlaybackPc, stray: StrayPc)

  const INITIAL := State(
    Flags(false, false, false, false), Refresh(false, false, RNone), Control(false, {}, false, false, CNone), Nobody,
    PClosed, SNone)

  predicate Busy(f: Flags) { f.open || f.connecting }

  predicate Pending(c: Control) { c.full || c.volumes != {} || c.metadata }

  // ---- the refresh worker

  datatype RefreshOp = Request | Spawn | StartFails | Acquire | Recheck | Scanned | Report

  /** refresh_outputs: defer, coalesce or start a worker. */
  function RequestRefresh(s: State): State {
    if Busy(s.flags) then s.(flags := s.flags.(deferred := true))
    else if s.refresh.inProgress then s.(refresh := s.refresh.(requested := true))
    else s.(refresh := Refresh(true, false, RSpawning))
  }

  function RefreshStep(s: State, op: RefreshOp): State {
    var r := s.refresh;
    match op
    case Request => RequestRefresh(s)
    case Spawn => if r.pc.RSpawning? then s.(refresh := r.(pc := RWaiting)) else s
    case StartFails => if r.pc.RWaiting? then s.(refresh := r.(pc := RReporting)) else s
    case Acquire =>
      if r.pc.RWaiting? && s.owner.Nobody? then s.(refresh := r.(pc := RLocked), owner := RefreshWorker) else s
    case Recheck =>
      if !r.pc.RLocked? then s
      else if Busy(s.flags) then
        s.(flags := s.flags.(deferred := true), refresh := Refresh(false, false, RNone), owner := Nobody)
      else s.(refresh := r.(pc := RDiscovering))
    case Scanned => if r.pc.RDiscovering? then s.(refresh := r.(pc := RReporting), owner := Nobody) else s
    case Report =>
      if !r.pc.RReporting? then s
      else if r.requested then s.(refresh := r.(requested := false, pc := RWaiting))
      else s.(refresh := r.(inProgress := false, pc := RNone))
  }

  // ---- the control worker

  datatype ControlOp =
    | ScheduleFull | ScheduleVolumes(ids: set<Id>) | ScheduleMetadata
    | SpawnControl | Snapshot | AcquireControl | RecheckOpen | Applied | ApplyFails | FinalCheck

  function Started(c: Control): Control {
    if c.inProgress then c else c.(inProgress := true, pc := CSpawning)
  }

  /** The snapshot takes all pending work at once. */
  function Snapped(c: Control, f: Flags): Control {
    c.(full := false, volumes := {}, metadata := false,
       pc := CWaiting(Work(c.full, c.volumes, c.metadata, f.open && f.formatValid)))
  }

  function ControlStep(s: State, op: ControlOp): State {
    var c := s.control;
    match op
    case ScheduleFull => s.(control := Started(c.(full := true)))
    case ScheduleVolumes(ids) => if ids == {} then s else s.(control := Started(c.(volumes := c.volumes + ids)))
    case ScheduleMetadata => s.(control := Started(c.(metadata := true)))
    case SpawnControl => if c.pc.CSpawning? then s.(control := c.(pc := CReady)) else s
    case Snapshot => if c.pc.CReady? then s.(control := Snapped(c, s.flags)) else s
    case AcquireControl =>
      if !c.pc.CWaiting? then s
      else if !c.pc.work.full && !c.pc.work.metadata then s.(control := c.(pc := CFinishing))
      else if s.owner.Nobody? then s.(control := c.(pc := CHeld(c.pc.work)), owner := ControlWorker)
      else s
    case RecheckOpen =>
      if !c.pc.CHeld? then s
      else s.(control := c.(pc := CApplying(c.pc.work.(connect := c.pc.work.connect && s.flags.open))))
    case Applied => if c.pc.CApplying? then s.(control := c.(pc := CFinishing), owner := Nobody) else s
    case ApplyFails =>
      if c.pc.CWaiting? then s.(control := c.(pc := CFinishing))
      else if c.pc.CApplying? then s.(control := c.(pc := CFinishing), owner := Nobody)
      else s
    case FinalCheck =>
      if !c.pc.CFinishing? then s
      else if Pending(c) then s.(control := c.(pc := CReady))
      else s.(control := c.(inProgress := false, pc := CNone))
  }

  // ---- playback open, failure and stop

  datatype PlaybackOp =
    | Prepare | Abandon | OwnRefresh | OwnRefreshed | Ready | SetupBegin | SetupEnd | Publish
    | Throw | FailAcquire | FailClear | FailFlags
    | StopAcquire | StopClear | StopFlags | Rerun

  /** The last section of stop_playback clears every flag but the open one, which an
    * earlier section cleared. */
  function FlagsCleared(f: Flags): Flags { Flags(f.open, false, false, false) }

  function PlaybackStep(s: State, op: PlaybackOp): State {
    var f, p := s.flags, s.playback;
    match op
    case Prepare => if p.PClosed? then s.(flags := f.(connecting := true), playback := PPrepared) else s
    case Abandon => if p.PPrepared? then s.(playback := PAbandoned) else s
    case OwnRefresh => if p.PPrepared? && s.owner.Nobody? then s.(playback := PRefreshing, owner := Playback) else s
    case OwnRefreshed => if p.PRefreshing? then s.(playback := PLoaded, owner := Nobody) else s
    case Ready =>
      if p.PPrepared? || p.PLoaded? then s.(flags := f.(formatValid := true), playback := PWaiting) else s
    case SetupBegin => if p.PWaiting? && s.owner.Nobody? then s.(playback := PSetup, owner := Playback) else s
    case SetupEnd => if p.PSetup? then s.(playback := PSetupDone, owner := Nobody) else s
    case Publish =>
      if p.PSetupDone? then s.(flags := f.(open := true, connecting := false), playback := POpen) else s
    case Throw =>
      if p.PPrepared? || p.PLoaded? || p.PWaiting? || p.PSetupDone? || p.POpen? then s.(playback := PFailWaiting)
      else if p.PRefreshing? || p.PSetup? then s.(playback := PFailWaiting, owner := Nobody)
      else s
    case FailAcquire => if p.PFailWaiting? && s.owner.Nobody? then s.(playback := PFailHeld, owner := Playback) else s
    case FailClear =>
      if p.PFailHeld? then s.(flags := f.(open := false), playback := PFailCleared, owner := Nobody) else s
    case FailFlags =>
      if p.PFailCleared? then s.(flags := f.(formatValid := false, connecting := false), playback := PFailed) else s
    case StopAcquire =>
      if (p.PClosed? || p.PAbandoned? || p.POpen? || p.PFailed?) && s.owner.Nobody? then
        s.(playback := PStopHeld, owner := Playback)
      else s
    case StopClear => if p.PStopHeld? then s.(flags := f.(open := false), playback := PStopCleared) else s
    case StopFlags =>
      if !p.PStopCleared? then s
      else s.(flags := FlagsCleared(f), owner := Nobody, playback := if f.deferred then PRerun else PClosed)
    case Rerun => if p.PRerun? then RequestRefresh(s).(playback := PClosed) else s
  }

  // ---- the stray stop, cut at the same places

  datatype StrayOp = StrayAcquire | StrayClear | StrayFlags | StrayRerun

  function StrayStep(s: State, op: StrayOp): State {
    match op
    case StrayAcquire => if s.stray.SNone? && s.owner.Nobody? then s.(stray := SHeld, owner := Stray) else s
    case StrayClear => if s.stray.SHeld? then s.(flags := s.flags.(open := false), stray := SCleared) else s
    case StrayFlags =>
      if !s.stray.SCleared? then s
      else s.(flags := FlagsCleared(s.flags), owner := Nobody, stray := if s.flags.deferred then SRerun else SNone)
    case StrayRerun => if s.stray.SRerun? then RequestRefresh(s).(stray := SNone) else s
  }

  // ---- all threads

  /** OtherAcquire and OtherRelease stand for writing, flushing and pairing, which
    * also take the transport mutex. */
  datatype Op =
    | OnRefresh(refreshOp: RefreshOp)
    | OnControl(controlOp: ControlOp)
    | OnPlayback(playbackOp: PlaybackOp)
    | OnStray(strayOp: StrayOp)
    | OtherAcquire
    | OtherRelease

  function Step(s: State, op: Op): State {
    match op
    case OnRefresh(r) => RefreshStep(s, r)
    case OnControl(c) => ControlStep(s, c)
    case OnPlayback(p) => PlaybackStep(s, p)
    case OnStray(t) => StrayStep(s, t)
    case OtherAcquire => if s.owner.Nobody? then s.(owner := Other) else s
    case OtherRelease => if s.owner.Other? then s.(owner := Nobody) else s
  }

  function Run(s: State, ops: seq<Op>): State
    decreases |ops|
  {
    if ops == [] then s else Run(Step(s, ops[0]), ops[1..])
  }

  /** From prepare to publish. */
  predicate InProgress(p: PlaybackPc) {
    p.PPrepared? || p.PRefreshing? || p.PLoaded? || p.PWaiting? || p.PSetup? || p.PSetupDone?
  }

  /** The last section of a stray stop runs now, with an open in progress. */
  predicate LandsInProgress(s: State, op: Op) {
    op == OnStray(StrayFlags) && s.stray.SCleared? && InProgress(s.playback)
  }

  /** Open and stop come in turn: no stray stop ends inside an open. */
  ghost predicate InTurn(s: State, ops: seq<Op>)
    decreases |ops|
  {
    ops == [] || (!LandsInProgress(s, ops[0]) && InTurn(Step(s, ops[0]), ops[1..]))
  }

  // ---- the invariant

  predicate RefreshHolds(r: RefreshPc) { r.RLocked? || r.RDiscovering? }

  predicate ControlHolds(c: ControlPc) { c.CHeld? || c.CApplying? }

  predicate PlaybackHolds(p: PlaybackPc) {
    p.PRefreshing? || p.PSetup? || p.PFailHeld? || p.PStopHeld? || p.PStopCleared?
  }

  /** The transport mutex has the owner the program counters say it has. */
  predicate OwnerOk(s: State) {
    && (RefreshHolds(s.refresh.pc) <==> s.owner.RefreshWorker?)
    && (ControlHolds(s.control.pc) <==> s.owner.ControlWorker?)
    && (PlaybackHolds(s.playback) <==> s.owner.Playback?)
    && (s.stray.SHeld? || s.stray.SCleared? <==> s.owner.Stray?)
  }

  predicate RefreshOk(r: Refresh) { (r.inProgress <==> !r.pc.RNone?) && (r.requested ==> r.inProgress) }

  predicate ControlOk(c: Control) { (c.inProgress <==> !c.pc.CNone?) && (Pending(c) ==> c.inProgress) }

  predicate ConnectOk(s: State) { s.control.pc.CApplying? && s.control.pc.work.connect ==> s.flags.open }

  /** Only a published stream is open, until something starts to close it. */
  predicate OpenOk(s: State) {
    s.flags.open ==> s.playback.POpen? || s.playback.PFailWaiting? || s.playback.PFailHeld? || s.playback.PStopHeld?
  }

  /** Holds whatever stops land when. */
  predicate Inv(s: State) {
    OwnerOk(s) && RefreshOk(s.refresh) && ControlOk(s.control) && ConnectOk(s) && OpenOk(s)
  }

  predicate DiscoveryOk(s: State) {
    && (InProgress(s.playback) ==> s.flags.connecting)
    && (s.refresh.pc.RDiscovering? ==> !s.flags.open && !s.playback.PSetupDone?)
  }

  lemma RefreshKeeps(s: State, op: RefreshOp)
    requires Inv(s)
    ensures Inv(RefreshStep(s, op))
    ensures DiscoveryOk(s) ==> DiscoveryOk(RefreshStep(s, op))
  {
  }

  lemma ControlKeeps(s: State, op: ControlOp)
    requires Inv(s)
    ensures Inv(ControlStep(s, op))
    ensures DiscoveryOk(s) ==> DiscoveryOk(ControlStep(s, op))
  {
  }

  lemma PlaybackKeeps(s: State, op: PlaybackOp)
    requires Inv(s)
    ensures Inv(PlaybackStep(s, op))
    ensures DiscoveryOk(s) ==> DiscoveryOk(PlaybackStep(s, op))
  {
  }

  lemma StrayKeeps(s: State, op: StrayOp)
    requires Inv(s)
    ensures Inv(StrayStep(s, op))
    ensures DiscoveryOk(s) && !LandsInProgress(s, OnStray(op)) ==> DiscoveryOk(StrayStep(s, op))
  {
  }

  lemma StepKeeps(s: State, op: Op)
    requires Inv(s)
    ensures Inv(Step(s, op))
    ensures DiscoveryOk(s) && !LandsInProgress(s, op) ==> DiscoveryOk(Step(s, op))
  {
    match op
    case OnRefresh(r) => RefreshKeeps(s, r);
    case OnControl(c) => ControlKeeps(s, c);
    case OnPlayback(p) => PlaybackKeeps(s, p);
    case OnStray(t) => StrayKeeps(s, t);
    case _ =>
  }

  lemma {:induction false} RunKeeps(s: State, ops: seq<Op>)
    requires Inv(s)
    ensures Inv(Run(s, ops))
    ensures DiscoveryOk(s) && InTurn(s, ops) ==> DiscoveryOk(Run(s, ops))
    decreases |ops|
  {
    if ops == [] {
    } else {
      StepKeeps(s, ops[0]);
      RunKeeps(Step(s, ops[0]), ops[1..]);
    }
  }

  /** The refresh worker is not inside discovery while playback is open. */
  predicate Safe(s: State) { s.flags.open ==> !s.refresh.pc.RDiscovering? }

  /** It never is, in any interleaving in which open and stop come in turn. */
  lemma NoDiscoveryDuringPlayback(ops: seq<Op>)
    requires InTurn(INITIAL, ops)
    ensures Safe(Run(INITIAL, ops))
  {
    RunKeeps(INITIAL, ops);
  }

  /** No request is stranded: pending control work or a coalesced refresh always
    * has a worker that has not yet made its final check. */
  lemma RequestsHaveWorkers(ops: seq<Op>)
    ensures var s := Run(INITIAL, ops);
      && (Pending(s.control) ==> s.control.inProgress && !s.control.pc.CNone?)
      && (s.refresh.requested ==> s.refresh.inProgress && !s.refresh.pc.RNone?)
  {
    RunKeeps(INITIAL, ops);
  }

  /** The control worker connects receivers only while playback is open, from the
    * recheck to the end of its locked section, whatever the other threads do. */
  lemma ConnectsOnlyWhileOpen(ops: seq<Op>)
    ensures var s := Run(INITIAL, ops);
      s.control.pc.CApplying? && s.control.pc.work.connect ==> s.flags.open && s.owner.ControlWorker?
  {
    RunKeeps(INITIAL, ops);
  }

  // ---- runs taken apart

  lemma {:induction false} RunAppend(s: State, a: seq<Op>, b: seq<Op>)
    ensures Run(s, a + b) == Run(Run(s, a), b)
    decreases |a|
  {
    if a == [] {
      assert a + b == b;
    } else {
      assert (a + b)[1..] == a[1..] + b;
      RunAppend(Step(s, a[0]), a[1..], b);
    }
  }

  lemma RunCons(s: State, op: Op, ops: seq<Op>)
    ensures Run(s, [op] + ops) == Run(Step(s, op), ops)
  {
    assert ([op] + ops)[1..] == ops;
  }

  lemma RunThree(s: State, a: Op, b: Op, c: Op)
    ensures Run(s, [a, b, c]) == Step(Step(Step(s, a), b), c)
  {
    assert [a, b, c] == [a] + [b, c] && [b, c] == [b] + [c] && [c] == [c] + [];
    RunCons(s, a, [b, c]);
    RunCons(Step(s, a), b, [c]);
    RunCons(Step(Step(s, a), b), c, []);
  }

  lemma RunFive(s: State, a: Op, b: Op, c: Op, d: Op, e: Op)
    ensures Run(s, [a, b, c, d, e]) == Step(Step(Step(Step(Step(s, a), b), c), d), e)
  {
    assert [a, b, c, d, e] == [a] + [b, c, d, e] && [b, c, d, e] == [b] + [c, d, e];
    RunCons(s, a, [b, c, d, e]);
    RunCons(Step(s, a), b, [c, d, e]);
    RunThree(Step(Step(s, a), b), c, d, e);
  }

  lemma RunLast(s: State, ops: seq<Op>)
    requires ops != []
    ensures Run(s, ops) == Step(Run(s, ops[..|ops|-1]), ops[|ops|-1])
  {
    var n := |ops| - 1;
    assert ops == ops[..n] + [ops[n]];
    RunAppend(s, ops[..n], [ops[n]]);
    RunOne(Run(s, ops[..n]), ops[n]);
  }

  lemma RunOne(s: State, op: Op)
    ensures Run(s, [op]) == Step(s, op)
  {
    RunCons(s, op, []);
    assert [op] + [] == [op];
  }

  // ---- what a control update does

  /** The state before step i of a history. */
  function At(ops: seq<Op>, i: nat): State
    requires i <= |ops|
  {
    Run(INITIAL, ops[..i])
  }

  /** The last time the worker looked at what was asked of it. */
  function LastSnapshot(ops: seq<Op>): (r: Option<nat>)
    ensures r.Some? ==> r.value < |ops|
  {
    if ops == [] then None
    else
      var n, op := |ops| - 1, ops[|ops|-1];
      if op.OnControl? && op.controlOp.Snapshot? && At(ops, n).control.pc.CReady? then Some(n) else LastSnapshot(ops[..n])
  }

  /** The last time it read the open flag again, holding the transport mutex. */
  function LastRecheck(ops: seq<Op>): (r: Option<nat>)
    ensures r.Some? ==> r.value < |ops|
  {
    if ops == [] then None
    else
      var n, op := |ops| - 1, ops[|ops|-1];
      if op.OnControl? && op.controlOp.RecheckOpen? && At(ops, n).control.pc.CHeld? then Some(n) else LastRecheck(ops[..n])
  }

  /** The work is everything that was pending at step i, and is to connect exactly when
    * playback was then open with a valid format. */
  predicate TakenAt(ops: seq<Op>, i: nat, w: Work)
    requires i <= |ops|
  {
    var s := At(ops, i);
    && w.full == s.control.full && w.volumes == s.control.volumes && w.metadata == s.control.metadata
    && (w.connect <==> s.flags.open && s.flags.formatValid)
  }

  /** The same once the open flag was read again at step j. */
  predicate ConfirmedAt(ops: seq<Op>, i: nat, j: nat, w: Work)
    requires i < j <= |ops|
  {
    var s := At(ops, i);
    && w.full == s.control.full && w.volumes == s.control.volumes && w.metadata == s.control.metadata
    && (w.connect <==> s.flags.open && s.flags.formatValid && At(ops, j).flags.open)
  }

  ghost predicate HistoryOk(ops: seq<Op>) {
    var c := Run(INITIAL, ops).control;
    && (c.pc.CWaiting? || c.pc.CHeld? ==>
          LastSnapshot(ops).Some? && TakenAt(ops, LastSnapshot(ops).value, c.pc.work))
    && (c.pc.CApplying? ==>
          && LastSnapshot(ops).Some? && LastRecheck(ops).Some? && LastSnapshot(ops).value < LastRecheck(ops).value
          && ConfirmedAt(ops, LastSnapshot(ops).value, LastRecheck(ops).value, c.pc.work))
  }

  lemma SameBefore(ops: seq<Op>, i: nat)
    requires i < |ops|
    ensures At(ops, i) == At(ops[..|ops|-1], i)
  {
    assert ops[..|ops|-1][..i] == ops[..i];
  }

  predicate IsSnapshot(s: State, op: Op) { op.OnControl? && op.controlOp.Snapshot? && s.control.pc.CReady? }

  predicate IsRecheck(s: State, op: Op) { op.OnControl? && op.controlOp.RecheckOpen? && s.control.pc.CHeld? }

  /** How the worker can have come to hold a piece of work. */
  lemma WorkComesFrom(s: State, op: Op)
    ensures var t := Step(s, op);
      && (t.control.pc.CWaiting? || t.control.pc.CHeld? ==>
            if IsSnapshot(s, op) then
              t.control.pc.work
                == Work(s.control.full, s.control.volumes, s.control.metadata, s.flags.open && s.flags.formatValid)
            else (s.control.pc.CWaiting? || s.control.pc.CHeld?) && t.control.pc.work == s.control.pc.work)
      && (t.control.pc.CApplying? ==>
            !IsSnapshot(s, op) && if IsRecheck(s, op) then
              t.control.pc.work == s.control.pc.work.(connect := s.control.pc.work.connect && s.flags.open)
            else t.control.pc == s.control.pc)
  {
  }

  lemma HistoryStep(ops: seq<Op>)
    requires ops != [] && HistoryOk(ops[..|ops|-1])
    ensures HistoryOk(ops)
  {
    var n := |ops| - 1;
    var init := ops[..n];
    RunLast(INITIAL, ops);
    WorkComesFrom(At(ops, n), ops[n]);
    if LastSnapshot(init).Some? { SameBefore(ops, LastSnapshot(init).value); }
    if LastRecheck(init).Some? { SameBefore(ops, LastRecheck(init).value); }
  }

  lemma {:induction false} HistoryKept(ops: seq<Op>)
    ensures HistoryOk(ops)
  {
    if ops == [] {
    } else {
      HistoryKept(ops[..|ops|-1]);
      HistoryStep(ops);
    }
  }

  /** Over every history: the work being applied is what was pending at the last
    * snapshot, and it connects exactly when playback was open with a valid format at
    * that moment and still open when the worker, holding the mutex, looked again. */
  lemma ConnectsIff(ops: seq<Op>)
    requires Run(INITIAL, ops).control.pc.CApplying?
    ensures LastSnapshot(ops).Some? && LastRecheck(ops).Some? && LastSnapshot(ops).value < LastRecheck(ops).value
    ensures ConfirmedAt(ops, LastSnapshot(ops).value, LastRecheck(ops).value, Run(INITIAL, ops).control.pc.work)
  {
    HistoryKept(ops);
  }

  /** Receivers are connected by a full update only. */
  predicate IsConnecting(pc: ControlPc) { pc.CApplying? && pc.work.full && pc.work.connect }

  const FULL_UPDATE: seq<Op> :=
    [OnControl(ScheduleFull), OnControl(SpawnControl), OnControl(Snapshot), OnControl(AcquireControl), OnControl(RecheckOpen)]

  lemma FullUpdateFrom(s: State)
    requires Inv(s) && s.flags.open && s.flags.formatValid && s.control.pc.CNone? && s.owner.Nobody?
    ensures var t := Run(s, FULL_UPDATE);
      && t == s.(control := t.control, owner := ControlWorker) && IsConnecting(t.control.pc) && !Pending(t.control)
  {
    assert FULL_UPDATE == [FULL_UPDATE[0], FULL_UPDATE[1], FULL_UPDATE[2], FULL_UPDATE[3], FULL_UPDATE[4]];
    RunFive(s, FULL_UPDATE[0], FULL_UPDATE[1], FULL_UPDATE[2], FULL_UPDATE[3], FULL_UPDATE[4]);
  }

  /** A full update asked for over an open, valid playback gets to connecting when
    * nothing interferes, from every reachable state with an idle worker and a free
    * mutex, and afterwards everything is as it was. */
  lemma FullUpdateConnects(ops: seq<Op>)
    requires var s := Run(INITIAL, ops);
      s.flags.open && s.flags.formatValid && s.control.pc.CNone? && s.owner.Nobody?
    ensures var s := Run(INITIAL, ops); var t := Run(s, FULL_UPDATE);
      && IsConnecting(t.control.pc) && t.owner.ControlWorker?
      && Run(t, [OnControl(Applied), OnControl(FinalCheck)]) == s
  {
    var s := Run(INITIAL, ops);
    RunKeeps(INITIAL, ops);
    FullUpdateReturns(s);
  }

  lemma FullUpdateReturns(s: State)
    requires Inv(s) && s.flags.open && s.flags.formatValid && s.control.pc.CNone? && s.owner.Nobody?
    ensures var t := Run(s, FULL_UPDATE);
      && IsConnecting(t.control.pc) && t.owner.ControlWorker?
      && Run(t, [OnControl(Applied), OnControl(FinalCheck)]) == s
  {
    FullUpdateFrom(s);
    RunTwo(Run(s, FULL_UPDATE), OnControl(Applied), OnControl(FinalCheck));
  }

  /** A metadata update is applied under the mutex too, and connects nobody; volumes
    * alone are sent without it. */
  lemma LesserUpdates(s: State, ids: set<Id>)
    requires Inv(s) && s.control.pc.CNone? && s.owner.Nobody? && ids != {}
    ensures var t := Run(s, [OnControl(ScheduleMetadata)] + FULL_UPDATE[1..]);
      t.control.pc.CApplying? && t.control.pc.work.metadata && !t.control.pc.work.full && !IsConnecting(t.control.pc)
    ensures var t := Run(s, [OnControl(ScheduleVolumes(ids))] + FULL_UPDATE[1..]);
      t.control.pc.CFinishing? && t.owner.Nobody?
  {
    assert [OnControl(ScheduleMetadata)] + FULL_UPDATE[1..]
      == [OnControl(ScheduleMetadata), FULL_UPDATE[1], FULL_UPDATE[2], FULL_UPDATE[3], FULL_UPDATE[4]];
    assert [OnControl(ScheduleVolumes(ids))] + FULL_UPDATE[1..]
      == [OnControl(ScheduleVolumes(ids)), FULL_UPDATE[1], FULL_UPDATE[2], FULL_UPDATE[3], FULL_UPDATE[4]];
    RunFive(s, OnControl(ScheduleMetadata), FULL_UPDATE[1], FULL_UPDATE[2], FULL_UPDATE[3], FULL_UPDATE[4]);
    RunFive(s, OnControl(ScheduleVolumes(ids)), FULL_UPDATE[1], FULL_UPDATE[2], FULL_UPDATE[3], FULL_UPDATE[4]);
  }

  lemma RunTwo(s: State, a: Op, b: Op)
    ensures Run(s, [a, b]) == Step(Step(s, a), b)
  {
    assert [a, b] == [a] + [b] && [b] == [b] + [];
    RunCons(s, a, [b]);
    RunCons(Step(s, a), b, []);
  }

  /** One round of the control worker on its own, from wherever it stands. */
  const ROUND: seq<Op> := [OnControl(SpawnControl), OnControl(Snapshot), OnControl(AcquireControl)]
  const REST: seq<Op> := [OnControl(RecheckOpen), OnControl(Applied), OnControl(FinalCheck)]

  predicate MutexIsFree(s: State) { s.owner.Nobody? || s.owner.ControlWorker? }

  lemma RoundTakes(s: State)
    requires Inv(s) && MutexIsFree(s)
    ensures var t := Run(s, ROUND); var c := t.control;
      && Inv(t) && MutexIsFree(t) && (c.pc.CNone? || c.pc.CHeld? || c.pc.CApplying? || c.pc.CFinishing?)
      && (s.control.pc.CNone? || s.control.pc.CSpawning? || s.control.pc.CReady? ==> !Pending(c))
  {
    RunThree(s, ROUND[0], ROUND[1], ROUND[2]);
    assert ROUND == [ROUND[0], ROUND[1], ROUND[2]];
    RunKeepsInv(s, ROUND);
  }

  lemma RestEnds(s: State)
    requires Inv(s) && MutexIsFree(s)
    requires var c := s.control; c.pc.CNone? || c.pc.CHeld? || c.pc.CApplying? || c.pc.CFinishing?
    ensures var t := Run(s, REST);
      && Inv(t) && t.owner.Nobody? && (if Pending(s.control) then t.control.pc.CReady? else t.control.pc.CNone?)
  {
    RunThree(s, REST[0], REST[1], REST[2]);
    assert REST == [REST[0], REST[1], REST[2]];
    RunKeepsInv(s, REST);
  }

  lemma {:induction false} RunKeepsInv(s: State, ops: seq<Op>)
    requires Inv(s)
    ensures Inv(Run(s, ops))
  {
    RunKeeps(s, ops);
  }

  /** From every reachable state in which the mutex is free or the worker's own, two
    * rounds of the worker leave nothing pending and the worker ended. */
  lemma ControlDrains(ops: seq<Op>)
    requires MutexIsFree(Run(INITIAL, ops))
    ensures var t := Run(Run(Run(Run(Run(INITIAL, ops), ROUND), REST), ROUND), REST);
      t.control.pc.CNone? && !t.control.inProgress && !Pending(t.control) && t.owner.Nobody?
  {
    var s := Run(INITIAL, ops);
    RunKeeps(INITIAL, ops);
    RoundTakes(s);
    RestEnds(Run(s, ROUND));
    var t := Run(Run(s, ROUND), REST);
    RoundTakes(t);
    RestEnds(Run(t, ROUND));
  }

  // ---- what a refresh, an open and a stop do

  /** With nothing playing, an idle worker and a free mutex a refresh request gets into
    * discovery, and after it everything is as it was. */
  lemma RefreshScans(s: State)
    requires Inv(s) && !Busy(s.flags) && s.refresh.pc.RNone? && s.owner.Nobody?
    ensures var t := Step(Run(s, [OnRefresh(Request), OnRefresh(Spawn), OnRefresh(Acquire)]), OnRefresh(Recheck));
      && t.refresh.pc.RDiscovering? && t.owner.RefreshWorker?
      && Run(t, [OnRefresh(Scanned), OnRefresh(Report)]) == s
  {
    RunThree(s, OnRefresh(Request), OnRefresh(Spawn), OnRefresh(Acquire));
    var t := Step(Run(s, [OnRefresh(Request), OnRefresh(Spawn), OnRefresh(Acquire)]), OnRefresh(Recheck));
    RunTwo(t, OnRefresh(Scanned), OnRefresh(Report));
  }

  /** From closed, with a free mutex, an open ends with playback open and valid and
    * nothing connecting; and the stop after it ends with every flag clear, and asks for
    * the refresh that was put off if there is one. */
  lemma OpensAndStops(s: State)
    requires Inv(s) && s.playback.PClosed? && s.owner.Nobody? && s.stray.SNone?
    ensures var a := Run(s, [OnPlayback(Prepare), OnPlayback(OwnRefresh), OnPlayback(OwnRefreshed)]);
      var b := Run(a, [OnPlayback(Ready), OnPlayback(SetupBegin), OnPlayback(SetupEnd)]);
      var t := Step(b, OnPlayback(Publish));
      var u := Run(t, [OnPlayback(StopAcquire), OnPlayback(StopClear), OnPlayback(StopFlags)]);
      && (InProgress(a.playback) && a.flags.connecting && InProgress(b.playback) && b.flags.connecting)
      && t.playback.POpen? && t.flags == Flags(true, false, true, s.flags.deferred) && t.owner.Nobody?
      && u.flags == Flags(false, false, false, false) && u.owner.Nobody?
      && (if s.flags.deferred then u.playback.PRerun? else u == s.(flags := u.flags))
  {
    RunThree(s, OnPlayback(Prepare), OnPlayback(OwnRefresh), OnPlayback(OwnRefreshed));
    var a := Run(s, [OnPlayback(Prepare), OnPlayback(OwnRefresh), OnPlayback(OwnRefreshed)]);
    RunThree(a, OnPlayback(Ready), OnPlayback(SetupBegin), OnPlayback(SetupEnd));
    var b := Run(a, [OnPlayback(Ready), OnPlayback(SetupBegin), OnPlayback(SetupEnd)]);
    RunThree(Step(b, OnPlayback(Publish)), OnPlayback(StopAcquire), OnPlayback(StopClear), OnPlayback(StopFlags));
  }

  /** An open that throws anywhere, also after it was published, ends with nothing open,
    * connecting or valid and with the mutex free, and can be stopped. */
  lemma FailureCleansUp(s: State)
    requires Inv(s) && (InProgress(s.playback) || s.playback.POpen?) && (s.owner.Nobody? || s.owner.Playback?)
    ensures var t := Run(Step(s, OnPlayback(Throw)), [OnPlayback(FailAcquire), OnPlayback(FailClear), OnPlayback(FailFlags)]);
      && t.playback.PFailed? && t.owner.Nobody? && t.flags == Flags(false, false, false, s.flags.deferred)
      && Step(t, OnPlayback(StopAcquire)).playback.PStopHeld?
  {
    RunThree(Step(s, OnPlayback(Throw)), OnPlayback(FailAcquire), OnPlayback(FailClear), OnPlayback(FailFlags));
  }

  /** A stop from elsewhere, run through with the mutex free, clears every flag. */
  lemma StrayStopClears(s: State)
    requires Inv(s) && s.stray.SNone? && s.owner.Nobody?
    ensures var t := Run(s, [OnStray(StrayAcquire), OnStray(StrayClear), OnStray(StrayFlags)]);
      && t.flags == Flags(false, false, false, false) && t.owner.Nobody?
      && t.stray == (if s.flags.deferred then SRerun else SNone)
  {
    RunThree(s, OnStray(StrayAcquire), OnStray(StrayClear), OnStray(StrayFlags));
  }

  // ---- no refresh is forgotten

  /** A refresh was asked for, and no scan has begun, or failed to, since. */
  predicate Owed(ops: seq<Op>) {
    if ops == [] then false
    else
      var n, op := |ops| - 1, ops[|ops|-1];
      var s := At(ops, n);
      if op.OnRefresh? && op.refreshOp.Request? then true
      else if op.OnRefresh? && op.refreshOp.Recheck? && s.refresh.pc.RLocked? && !Busy(s.flags) then false
      else if op.OnRefresh? && op.refreshOp.StartFails? && s.refresh.pc.RWaiting? then false
      else Owed(ops[..n])
  }

  /** Something will still start one: a worker before its check, a request it will find
    * when it reports, the deferral a stop takes up, or a stop that has taken it up. */
  predicate Remembered(s: State) {
    || s.refresh.pc.RSpawning? || s.refresh.pc.RWaiting? || s.refresh.pc.RLocked?
    || s.refresh.requested || s.flags.deferred || s.playback.PRerun? || s.stray.SRerun?
  }

  lemma RememberedStays(s: State, op: Op)
    requires Inv(s) && Remembered(s)
    requires !(op.OnRefresh? && op.refreshOp.Recheck? && s.refresh.pc.RLocked? && !Busy(s.flags))
    requires !(op.OnRefresh? && op.refreshOp.StartFails? && s.refresh.pc.RWaiting?)
    ensures Remembered(Step(s, op))
  {
  }

  /** Over every history a refresh that is owed is remembered, through deferrals to the
    * next stop, coalescing and stops from elsewhere. */
  lemma {:induction false} NoRefreshIsForgotten(ops: seq<Op>)
    requires Owed(ops)
    ensures Remembered(Run(INITIAL, ops))
  {
    if ops == [] {
    } else {
      var n, op := |ops| - 1, ops[|ops|-1];
      RunLast(INITIAL, ops);
      RunKeeps(INITIAL, ops[..n]);
      if !(op.OnRefresh? && op.refreshOp.Request?) {
        NoRefreshIsForgotten(ops[..n]);
        RememberedStays(At(ops, n), op);
      }
    }
  }

  // ---- no request is lost

  function Both(a: Work, b: Work): Work {
    Work(a.full || b.full, a.volumes + b.volumes, a.metadata || b.metadata, false)
  }

  const NO_WORK := Work(false, {}, false, false)

  function WorkOf(c: Control): Work { Work(c.full, c.volumes, c.metadata, false) }

  lemma BothAssociates(a: Work, b: Work, c: Work)
    ensures Both(Both(a, b), c) == Both(a, Both(b, c))
  {
    assert (a.volumes + b.volumes) + c.volumes == a.volumes + (b.volumes + c.volumes);
  }

  function RequestedBy(op: Op): Work {
    match op
    case OnControl(ScheduleFull) => NO_WORK.(full := true)
    case OnControl(ScheduleVolumes(ids)) => NO_WORK.(volumes := ids)
    case OnControl(ScheduleMetadata) => NO_WORK.(metadata := true)
    case _ => NO_WORK
  }

  function TakenBy(s: State, op: Op): Work {
    if op == OnControl(Snapshot) && s.control.pc.CReady? then WorkOf(s.control) else NO_WORK
  }

  /** Everything the calls of a history asked for. */
  function Requested(ops: seq<Op>): Work {
    if ops == [] then NO_WORK else Both(RequestedBy(ops[0]), Requested(ops[1..]))
  }

  /** Everything the snapshots of a history took for the worker to apply. */
  function Taken(s: State, ops: seq<Op>): Work
    decreases |ops|
  {
    if ops == [] then NO_WORK else Both(TakenBy(s, ops[0]), Taken(Step(s, ops[0]), ops[1..]))
  }

  lemma StepConservesWork(s: State, op: Op)
    ensures Both(WorkOf(s.control), RequestedBy(op)) == Both(TakenBy(s, op), WorkOf(Step(s, op).control))
  {
    var c := s.control.volumes;
    assert c + {} == c == {} + c;
    if op.OnControl? && op.controlOp.ScheduleVolumes? { assert {} + (c + op.controlOp.ids) == c + op.controlOp.ids; }
  }

  lemma {:induction false} WorkIsConserved(s: State, ops: seq<Op>)
    ensures Both(WorkOf(s.control), Requested(ops)) == Both(Taken(s, ops), WorkOf(Run(s, ops).control))
    decreases |ops|
  {
    if ops == [] {
      assert s.control.volumes + {} == {} + s.control.volumes;
    } else {
      var t := Step(s, ops[0]);
      WorkIsConserved(t, ops[1..]);
      StepConservesWork(s, ops[0]);
      BothAssociates(WorkOf(s.control), RequestedBy(ops[0]), Requested(ops[1..]));
      BothAssociates(TakenBy(s, ops[0]), WorkOf(t.control), Requested(ops[1..]));
      BothAssociates(TakenBy(s, ops[0]), Taken(t, ops[1..]), WorkOf(Run(s, ops).control));
    }
  }

  /** Over every history: what was ever asked of the control worker is exactly what
    * its snapshots took and what is still pending, and while anything is pending
    * there is a worker that has yet to look. */
  lemma NothingScheduledIsLost(ops: seq<Op>)
    ensures var s := Run(INITIAL, ops);
      && Requested(ops) == Both(Taken(INITIAL, ops), WorkOf(s.control))
      && (Pending(s.control) ==> !s.control.pc.CNone?)
  {
    WorkIsConserved(INITIAL, ops);
    RequestedIsPlain(ops);
    RunKeeps(INITIAL, ops);
  }

  lemma {:induction false} RequestedIsPlain(ops: seq<Op>)
    ensures !Requested(ops).connect && Both(NO_WORK, Requested(ops)) == Requested(ops)
  {
    if ops == [] {
      assert {} + Requested(ops).volumes == Requested(ops).volumes;
    } else {
      RequestedIsPlain(ops[1..]);
      assert {} + Requested(ops).volumes == Requested(ops).volumes;
    }
  }

  // ---- why open and stop must come in turn

  /** What the open goes on to do, then what a refresh request leads to, then the
    * publishing; steps that are already behind do nothing. */
  const OPEN_ON: seq<Op> := [OnPlayback(Ready), OnPlayback(SetupBegin), OnPlayback(SetupEnd)]
  const REFRESH_ON: seq<Op> := [
    OnRefresh(Request), OnRefresh(Report), OnRefresh(Spawn), OnRefresh(Acquire), OnRefresh(Recheck)]
  const VIOLATION: seq<Op> := OPEN_ON + REFRESH_ON + [OnPlayback(Publish)]

  predicate Quiet(s: State) { s.owner.Nobody? && !Busy(s.flags) }

  lemma OpenGoesOn(s: State)
    requires Quiet(s) && InProgress(s.playback) && Inv(s)
    ensures var t := Step(Step(Step(s, OPEN_ON[0]), OPEN_ON[1]), OPEN_ON[2]);
      Quiet(t) && t.playback.PSetupDone? && t.refresh == s.refresh
  {
  }

  lemma RefreshGoesOn(s: State)
    requires Quiet(s) && RefreshOk(s.refresh) && !RefreshHolds(s.refresh.pc)
    ensures var a := Step(Step(Step(s, REFRESH_ON[0]), REFRESH_ON[1]), REFRESH_ON[2]);
      var t := Step(Step(a, REFRESH_ON[3]), REFRESH_ON[4]);
      t.refresh.pc.RDiscovering? && t.playback == s.playback
  {
  }

  /** With nothing connecting any more, the open in progress publishes over a
    * discovery that a refresh request started. */
  lemma QuietOpenIsViolated(s: State)
    requires Quiet(s) && InProgress(s.playback) && Inv(s)
    ensures !Safe(Run(s, VIOLATION))
  {
    var t := Run(s, OPEN_ON);
    RunThree(s, OPEN_ON[0], OPEN_ON[1], OPEN_ON[2]);
    assert OPEN_ON == [OPEN_ON[0], OPEN_ON[1], OPEN_ON[2]];
    OpenGoesOn(s);
    var first, last := [REFRESH_ON[0], REFRESH_ON[1], REFRESH_ON[2]], [REFRESH_ON[3], REFRESH_ON[4], OnPlayback(Publish)];
    assert VIOLATION == OPEN_ON + (first + last);
    RunAppend(s, OPEN_ON, first + last);
    RunAppend(t, first, last);
    RunThree(t, REFRESH_ON[0], REFRESH_ON[1], REFRESH_ON[2]);
    RunThree(Run(t, first), REFRESH_ON[3], REFRESH_ON[4], OnPlayback(Publish));
    RefreshGoesOn(t);
  }

  lemma {:induction false} NoStrayIsInTurn(s: State, ops: seq<Op>)
    requires forall i :: 0 <= i < |ops| ==> !ops[i].OnStray?
    ensures InTurn(s, ops)
    decreases |ops|
  {
    if ops == [] {
    } else {
      NoStrayIsInTurn(Step(s, ops[0]), ops[1..]);
    }
  }

  /** The condition is exact, at every reachable state in which a stray stop is about
    * to end: every continuation that keeps the turn is safe if and only if no open is
    * in progress at that moment. */
  lemma StrayStopIsSafeIff(ops: seq<Op>)
    requires InTurn(INITIAL, ops) && Run(INITIAL, ops).stray.SCleared?
    ensures var s := Run(INITIAL, ops); var t := Step(s, OnStray(StrayFlags));
      (forall more :: InTurn(t, more) ==> Safe(Run(t, more))) <==> !InProgress(s.playback)
  {
    var s := Run(INITIAL, ops);
    var t := Step(s, OnStray(StrayFlags));
    RunKeeps(INITIAL, ops);
    StepKeeps(s, OnStray(StrayFlags));
    if InProgress(s.playback) {
      QuietOpenIsViolated(t);
      NoStrayIsInTurn(t, VIOLATION);
    } else {
      forall more | InTurn(t, more) ensures Safe(Run(t, more)) { RunKeeps(t, more); }
    }
  }

  const STRAY_ENTRY: seq<Op> := [OnStray(StrayAcquire), OnStray(StrayClear), OnPlayback(Prepare)]

  /** It can be broken although the stray stop began while nothing was in progress:
    * an open prepared between its sections loses its connecting flag, and ends open
    * with the refresh worker inside discovery. */
  lemma StrayStopLetsDiscoveryIn()
    ensures !Safe(Run(INITIAL, STRAY_ENTRY + ([OnStray(StrayFlags)] + VIOLATION)))
  {
    var s := Run(INITIAL, STRAY_ENTRY);
    RunThree(INITIAL, STRAY_ENTRY[0], STRAY_ENTRY[1], STRAY_ENTRY[2]);
    assert STRAY_ENTRY == [STRAY_ENTRY[0], STRAY_ENTRY[1], STRAY_ENTRY[2]];
    RunAppend(INITIAL, STRAY_ENTRY, [OnStray(StrayFlags)] + VIOLATION);
    RunCons(s, OnStray(StrayFlags), VIOLATION);
    RunKeeps(INITIAL, STRAY_ENTRY);
    StepKeeps(s, OnStray(StrayFlags));
    QuietOpenIsViolated(Step(s, OnStray(StrayFlags)));
  }

  // ---- the locked sections as an object

  /** The program counters are ghost: they say which section a thread is at. */
  class MultiroomComponentState {
    var playbackOpen: bool
    var playbackConnecting: bool
    var playbackFormatValid: bool
    var refreshDeferredUntilStop: bool
    var refreshInProgress: bool
    var refreshRequested: bool
    var controlFullUpdateRequested: bool
    var controlVolumeUpdateIds: set<Id>
    var controlMetadataUpdateRequested: bool
    var controlInProgress: bool
    ghost var owner: Owner
    ghost var refreshPc: RefreshPc
    ghost var controlPc: ControlPc
    ghost var playbackPc: PlaybackPc
    ghost var strayPc: StrayPc

    ghost function TheFlags(): Flags
      reads this
    {
      Flags(playbackOpen, playbackConnecting, playbackFormatValid, refreshDeferredUntilStop)
    }

    ghost function TheRefresh(): Refresh
      reads this
    {
      Refresh(refreshInProgress, refreshRequested, refreshPc)
    }

    ghost function TheControl(): Control
      reads this
    {
      Control(controlFullUpdateRequested, controlVolumeUpdateIds, controlMetadataUpdateRequested, controlInProgress, controlPc)
    }

    ghost function Model(): State
      reads this
    {
      State(TheFlags(), TheRefresh(), TheControl(), owner, playbackPc, strayPc)
    }

    constructor ()
      ensures Model() == INITIAL
    {
      playbackOpen, playbackConnecting, playbackFormatValid, refreshDeferredUntilStop := false, false, false, false;
      refreshInProgress, refreshRequested := false, false;
      controlFullUpdateRequested, controlVolumeUpdateIds, controlMetadataUpdateRequested := false, {}, false;
      controlInProgress := false;
      owner, refreshPc, controlPc, playbackPc, strayPc := Nobody, RNone, CNone, PClosed, SNone;
    }

    /** spawn tells the caller to start the worker thread. */
    method RefreshOutputs() returns (spawn: bool)
      modifies this
      ensures Model() == RequestRefresh(old(Model()))
      ensures spawn <==> !old(Busy(TheFlags())) && !old(refreshInProgress)
    {
      if playbackOpen || playbackConnecting {
        refreshDeferredUntilStop := true;
        return false;
      }
      if refreshInProgress {
        refreshRequested := true;
        return false;
      }
      refreshInProgress := true;
      refreshRequested := false;
      refreshPc := RSpawning;
      spawn := true;
    }

    /** The check under both mutexes; go lets the worker enter discovery. */
    method RecheckRefresh() returns (go: bool)
      requires refreshPc.RLocked?
      modifies this
      ensures Model() == RefreshStep(old(Model()), Recheck)
      ensures go <==> refreshPc.RDiscovering?
    {
      if playbackOpen || playbackConnecting {
        refreshDeferredUntilStop := true;
        refreshRequested := false;
        refreshInProgress := false;
        refreshPc, owner := RNone, Nobody;
        return false;
      }
      refreshPc := RDiscovering;
      go := true;
    }

    method FinishRefresh() returns (runAgain: bool)
      requires refreshPc.RReporting?
      modifies this
      ensures Model() == RefreshStep(old(Model()), Report)
      ensures runAgain <==> old(refreshRequested)
    {
      if refreshRequested {
        refreshRequested := false;
        refreshPc := RWaiting;
        return true;
      }
      refreshInProgress := false;
      refreshPc := RNone;
      runAgain := false;
    }

    method ScheduleControlUpdate() returns (spawn: bool)
      modifies this
      ensures Model() == ControlStep(old(Model()), ScheduleFull)
      ensures spawn <==> !old(controlInProgress)
    {
      controlFullUpdateRequested := true;
      spawn := StartControlWorker();
    }

    method ScheduleVolumeUpdate(ids: set<Id>) returns (spawn: bool)
      modifies this
      ensures Model() == ControlStep(old(Model()), ScheduleVolumes(ids))
      ensures spawn <==> ids != {} && !old(controlInProgress)
    {
      if ids == {} {
        return false;
      }
      controlVolumeUpdateIds := controlVolumeUpdateIds + ids;
      spawn := StartControlWorker();
    }

    method ScheduleMetadataUpdate() returns (spawn: bool)
      modifies this
      ensures Model() == ControlStep(old(Model()), ControlOp.ScheduleMetadata)
      ensures spawn <==> !old(controlInProgress)
    {
      controlMetadataUpdateRequested := true;
      spawn := StartControlWorker();
    }

    method StartControlWorker() returns (spawn: bool)
      modifies `controlInProgress, `controlPc
      ensures TheControl() == Started(old(TheControl()))
      ensures spawn <==> !old(controlInProgress)
    {
      if controlInProgress {
        return false;
      }
      controlInProgress := true;
      controlPc := CSpawning;
      spawn := true;
    }

    method TakeControlWork() returns (work: Work)
      requires controlPc.CReady?
      modifies this
      ensures Model() == ControlStep(old(Model()), Snapshot)
      ensures controlPc == CWaiting(work)
    {
      work := Work(controlFullUpdateRequested, controlVolumeUpdateIds, controlMetadataUpdateRequested,
                   playbackOpen && playbackFormatValid);
      controlMetadataUpdateRequested := false;
      controlFullUpdateRequested := false;
      controlVolumeUpdateIds := {};
      controlPc := CWaiting(work);
    }

    method FinishControlWork() returns (runAgain: bool)
      requires controlPc.CFinishing?
      modifies this
      ensures Model() == ControlStep(old(Model()), FinalCheck)
      ensures runAgain <==> Pending(old(TheControl()))
    {
      runAgain := controlFullUpdateRequested || controlVolumeUpdateIds != {} || controlMetadataUpdateRequested;
      if !runAgain {
        controlInProgress := false;
      }
      controlPc := if runAgain then CReady else CNone;
    }

    method PreparePlaybackOpen()
      requires playbackPc.PClosed?
      modifies this
      ensures Model() == PlaybackStep(old(Model()), Prepare)
    {
      playbackConnecting := true;
      playbackPc := PPrepared;
    }

    /** Open is published before Connecting is cleared, under one lock. */
    method PublishOpen()
      requires playbackPc.PSetupDone?
      modifies this
      ensures Model() == PlaybackStep(old(Model()), Publish)
    {
      playbackOpen := true;
      playbackConnecting := false;
      playbackPc := POpen;
    }

    /** The last section of stop_playback, run by the host or by a stray stop; rerun
      * asks for the refresh that was put off. */
    method FinishStop(ghost isStray: bool) returns (rerun: bool)
      requires if isStray then strayPc.SCleared? else playbackPc.PStopCleared?
      modifies this
      ensures Model() == if isStray then StrayStep(old(Model()), StrayFlags) else PlaybackStep(old(Model()), StopFlags)
      ensures rerun <==> old(refreshDeferredUntilStop)
    {
      playbackFormatValid := false;
      playbackConnecting := false;
      rerun := refreshDeferredUntilStop;
      refreshDeferredUntilStop := false;
      owner := Nobody;
      if isStray {
        strayPc := if rerun then SRerun else SNone;
      } else {
        playbackPc := if rerun then PRerun else PClosed;
      }
    }
  }
}
