/**
 * Cancelling an open from another thread: an open inserts its connection into
 * the pending table and then reads the cancel flag; a canceller sets the flag and
 * then cancels what it finds in the table. Steps are the atomic accesses and the
 * table's locked sections.
 */
module PendingOpens {
  import opened Common

  /** Inserted has yet to read the flag; Caught found it set and has yet to cancel its
    * own connection. */
  datatype OpenPc = Inserted | Caught | Checked | Ended

  /** A canceller: flag set, then the connections it copied and has yet to cancel.
    * mark is the number of resets seen when the flag was set. */
  datatype CancelPc = FlagSet(mark: nat) | Cancelling(mark: nat, todo: set<nat>)

  /** Connections are numbered in the order they are made; those below demanded were
    * made before a reset took a set flag back. */
  datatype State = State(
    flag: bool,
    pending: map<Id, nat>,
    opens: seq<OpenPc>,
    cancelled: set<nat>,
    cancellers: seq<CancelPc>,
    resets: nat,
    demanded: nat)

  const INITIAL := State(false, map[], [], {}, [], 0, 0)

  datatype Op =
    | OpenInsert(id: Id)
    | OpenRead(connection: nat)
    | OpenCancel(connection: nat)
    | OpenEnd(id: Id)
    | CancelFlag
    | CancelSnapshot(canceller: nat)
    | CancelOne(canceller: nat, connection: nat)
    | Reset

  /** Opens for one output follow one another, so an insert never replaces a
    * connection that is still pending. */
  function Step(s: State, op: Op): State {
    match op
    case OpenInsert(id) =>
      if id in s.pending then s else s.(pending := s.pending[id := |s.opens|], opens := s.opens + [Inserted])
    case OpenRead(c) =>
      if c >= |s.opens| || !s.opens[c].Inserted? then s
      else s.(opens := s.opens[c := if s.flag then Caught else Checked])
    case OpenCancel(c) =>
      if c >= |s.opens| || !s.opens[c].Caught? then s
      else s.(opens := s.opens[c := Checked], cancelled := s.cancelled + {c})
    case OpenEnd(id) =>
      if id !in s.pending || s.pending[id] >= |s.opens| || !s.opens[s.pending[id]].Checked? then s
      else s.(opens := s.opens[s.pending[id] := Ended], pending := s.pending - {id})
    case CancelFlag => s.(flag := true, cancellers := s.cancellers + [FlagSet(s.resets)])
    case CancelSnapshot(i) =>
      if i >= |s.cancellers| || !s.cancellers[i].FlagSet? then s
      else s.(cancellers := s.cancellers[i := Cancelling(s.cancellers[i].mark, s.pending.Values)])
    case CancelOne(i, c) =>
      if i >= |s.cancellers| || !s.cancellers[i].Cancelling? || c !in s.cancellers[i].todo then s
      else
        var k := s.cancellers[i];
        s.(cancelled := s.cancelled + {c}, cancellers := s.cancellers[i := k.(todo := k.todo - {c})])
    case Reset => s.(flag := false, resets := s.resets + 1, demanded := if s.flag then |s.opens| else s.demanded)
  }

  function Run(s: State, ops: seq<Op>): State
    decreases |ops|
  {
    if ops == [] then s else Run(Step(s, ops[0]), ops[1..])
  }

  ghost predicate TableOk(s: State) {
    && (forall id :: id in s.pending ==> s.pending[id] < |s.opens| && !s.opens[s.pending[id]].Ended?)
    && (forall a, b :: a in s.pending && b in s.pending && a != b ==> s.pending[a] != s.pending[b])
  }

  /** No reset has happened since this canceller set the flag. */
  predicate Fresh(s: State, k: CancelPc) { k.mark == s.resets }

  /** Connection c is taken care of by the canceller, or still will be. */
  predicate Covered(s: State, k: CancelPc, c: nat)
    requires c < |s.opens|
  {
    k.FlagSet? || s.opens[c].Inserted? || s.opens[c].Caught? || c in s.cancelled || c in k.todo
  }

  ghost predicate Inv(s: State) {
    && TableOk(s)
    && (forall i :: 0 <= i < |s.cancellers| ==> s.cancellers[i].mark <= s.resets)
    && (forall i :: 0 <= i < |s.cancellers| && Fresh(s, s.cancellers[i]) ==> s.flag)
    && (forall i, id :: 0 <= i < |s.cancellers| && Fresh(s, s.cancellers[i]) && id in s.pending ==>
          Covered(s, s.cancellers[i], s.pending[id]))
  }

  lemma InsertKeeps(s: State, id: Id)
    requires Inv(s)
    ensures Inv(Step(s, OpenInsert(id)))
  {
    var t := Step(s, OpenInsert(id));
    if id !in s.pending {
      forall x | x in t.pending ensures t.pending[x] < |t.opens| && !t.opens[t.pending[x]].Ended? {
        assert x != id ==> x in s.pending;
      }
      forall i, x | 0 <= i < |t.cancellers| && Fresh(t, t.cancellers[i]) && x in t.pending
        ensures Covered(t, t.cancellers[i], t.pending[x])
      {
        if x != id { assert Covered(s, s.cancellers[i], s.pending[x]); }
      }
    }
  }

  lemma ReadKeeps(s: State, op: Op)
    requires Inv(s) && (op.OpenRead? || op.OpenCancel?)
    ensures Inv(Step(s, op))
  {
    var t := Step(s, op);
    forall i, x | 0 <= i < |t.cancellers| && Fresh(t, t.cancellers[i]) && x in t.pending
      ensures Covered(t, t.cancellers[i], t.pending[x])
    {
      assert Covered(s, s.cancellers[i], s.pending[x]);
    }
  }

  lemma EndKeeps(s: State, id: Id)
    requires Inv(s)
    ensures Inv(Step(s, OpenEnd(id)))
  {
    var t := Step(s, OpenEnd(id));
    forall i, x | 0 <= i < |t.cancellers| && Fresh(t, t.cancellers[i]) && x in t.pending
      ensures Covered(t, t.cancellers[i], t.pending[x])
    {
      assert Covered(s, s.cancellers[i], s.pending[x]);
    }
  }

  lemma SnapshotKeeps(s: State, i: nat)
    requires Inv(s)
    ensures Inv(Step(s, CancelSnapshot(i)))
  {
    var t := Step(s, CancelSnapshot(i));
    forall j, x | 0 <= j < |t.cancellers| && Fresh(t, t.cancellers[j]) && x in t.pending
      ensures Covered(t, t.cancellers[j], t.pending[x])
    {
      assert s.pending[x] in s.pending.Values;
      if j != i { assert t.cancellers[j] == s.cancellers[j]; }
      assert Covered(s, s.cancellers[j], s.pending[x]);
    }
  }

  lemma CancelOneKeeps(s: State, i: nat, c: nat)
    requires Inv(s)
    ensures Inv(Step(s, CancelOne(i, c)))
  {
    var t := Step(s, CancelOne(i, c));
    forall j, x | 0 <= j < |t.cancellers| && Fresh(t, t.cancellers[j]) && x in t.pending
      ensures Covered(t, t.cancellers[j], t.pending[x])
    {
      if j != i { assert t.cancellers[j] == s.cancellers[j]; }
      assert Covered(s, s.cancellers[j], s.pending[x]);
    }
  }

  lemma StepKeeps(s: State, op: Op)
    requires Inv(s)
    ensures Inv(Step(s, op))
  {
    match op
    case OpenInsert(id) => InsertKeeps(s, id);
    case OpenRead(c) => ReadKeeps(s, op);
    case OpenCancel(c) => ReadKeeps(s, op);
    case OpenEnd(id) => EndKeeps(s, id);
    case CancelFlag =>
      var t := Step(s, op);
      forall j, x | 0 <= j < |t.cancellers| && Fresh(t, t.cancellers[j]) && x in t.pending
        ensures Covered(t, t.cancellers[j], t.pending[x])
      {
        if j < |s.cancellers| { assert Covered(s, s.cancellers[j], s.pending[x]); }
      }
    case CancelSnapshot(i) => SnapshotKeeps(s, i);
    case CancelOne(i, c) => CancelOneKeeps(s, i, c);
    case Reset =>
  }

  lemma {:induction false} RunKeeps(s: State, ops: seq<Op>)
    requires Inv(s)
    ensures Inv(Run(s, ops))
    decreases |ops|
  {
    if ops == [] {
    } else {
      StepKeeps(s, ops[0]);
      RunKeeps(Step(s, ops[0]), ops[1..]);
    }
  }

  /** In every interleaving of opens, cancellers and resets: once a canceller has
    * finished and no reset came after it began, every connection still pending
    * whose open has read the flag is cancelled, by one side or the other. */
  lemma CancellationIsNeverLost(ops: seq<Op>, i: nat, id: Id)
    requires var s := Run(INITIAL, ops);
      && i < |s.cancellers| && s.cancellers[i].Cancelling? && s.cancellers[i].todo == {} && Fresh(s, s.cancellers[i])
      && id in s.pending && s.pending[id] < |s.opens| && s.opens[s.pending[id]].Checked?
    ensures var s := Run(INITIAL, ops); s.pending[id] in s.cancelled
  {
    RunKeeps(INITIAL, ops);
    var s := Run(INITIAL, ops);
    assert Covered(s, s.cancellers[i], s.pending[id]);
  }

  // ---- what each side gets done

  /** An open that finds the flag set cancels its own connection, and one that does not
    * leaves it alone; afterwards it can end. */
  lemma OpenHeedsTheFlag(s: State, id: Id)
    requires TableOk(s) && id in s.pending && s.opens[s.pending[id]].Inserted?
    ensures var c := s.pending[id]; var t := Step(s, OpenRead(c));
      && (if s.flag then
            Step(t, OpenCancel(c)).opens[c].Checked? && Step(t, OpenCancel(c)).cancelled == s.cancelled + {c}
          else t.opens[c].Checked? && t.cancelled == s.cancelled)
      && (var u := if s.flag then Step(t, OpenCancel(c)) else t;
          Step(u, OpenEnd(id)).pending == s.pending - {id} && Step(u, OpenEnd(id)).opens[c].Ended?)
  {
  }

  function CancelEach(i: nat, connections: seq<nat>): (r: seq<Op>)
    ensures |r| == |connections|
  {
    seq(|connections|, k requires 0 <= k < |connections| => CancelOne(i, connections[k]))
  }

  lemma {:induction false} CancelsEach(s: State, i: nat, connections: seq<nat>)
    requires i < |s.cancellers| && s.cancellers[i].Cancelling?
    requires s.cancellers[i].todo == (set c | c in connections)
    requires forall j, k :: 0 <= j < k < |connections| ==> connections[j] != connections[k]
    ensures var t := Run(s, CancelEach(i, connections));
      && t == s.(cancelled := s.cancelled + (set c | c in connections),
                 cancellers := s.cancellers[i := s.cancellers[i].(todo := {})])
    decreases |connections|
  {
    if connections == [] {
      assert (set c | c in connections) == {};
      assert s.cancellers[i].(todo := {}) == s.cancellers[i];
      assert s.cancelled + (set c | c in connections) == s.cancelled;
    } else {
      var first, rest := connections[0], connections[1..];
      var t := Step(s, CancelOne(i, first));
      assert CancelEach(i, connections)[1..] == CancelEach(i, rest);
      assert forall c :: c in connections <==> c == first || c in rest;
      assert (set c | c in connections) - {first} == (set c | c in rest);
      CancelsEach(t, i, rest);
      assert (s.cancelled + {first}) + (set c | c in rest) == s.cancelled + (set c | c in connections);
      assert t.cancellers[i := t.cancellers[i].(todo := {})] == s.cancellers[i := s.cancellers[i].(todo := {})];
    }
  }

  /** A canceller left to itself cancels every connection that is pending when it looks,
    * in any order, and changes nothing else. */
  lemma CancellerFinishes(s: State, i: nat, connections: seq<nat>)
    requires i < |s.cancellers| && s.cancellers[i].FlagSet?
    requires s.pending.Values == (set c | c in connections)
    requires forall j, k :: 0 <= j < k < |connections| ==> connections[j] != connections[k]
    ensures Run(Step(s, CancelSnapshot(i)), CancelEach(i, connections))
         == s.(cancelled := s.cancelled + s.pending.Values,
               cancellers := s.cancellers[i := Cancelling(s.cancellers[i].mark, {})])
  {
    var t := Step(s, CancelSnapshot(i));
    CancelsEach(t, i, connections);
    assert t.cancellers[i := Cancelling(s.cancellers[i].mark, {})] == s.cancellers[i := Cancelling(s.cancellers[i].mark, {})];
  }

  ghost predicate NeverAsked(s: State) {
    !s.flag && s.cancellers == [] && s.cancelled == {} && forall c :: 0 <= c < |s.opens| ==> !s.opens[c].Caught?
  }

  /** Nothing is cancelled unless a canceller came. */
  lemma {:induction false} NothingCancelledUnasked(s: State, ops: seq<Op>)
    requires NeverAsked(s) && forall op: Op :: op in ops ==> !op.CancelFlag?
    ensures NeverAsked(Run(s, ops))
    decreases |ops|
  {
    if ops == [] {
    } else {
      assert ops[0] in ops;
      NothingCancelledUnasked(Step(s, ops[0]), ops[1..]);
    }
  }

  // ---- resets

  /** A cancellation was asked for while connection c was there. */
  predicate Owed(s: State, c: nat) { s.flag || c < s.demanded }

  /** Cancelled already, or in the work its open or some canceller has still to do. */
  ghost predicate LookedAfter(s: State, c: nat) {
    || c in s.cancelled
    || (c < |s.opens| && s.opens[c].Caught?)
    || exists i :: 0 <= i < |s.cancellers| && WillCancel(s.cancellers[i], c)
  }

  predicate WillCancel(k: CancelPc, c: nat) { k.FlagSet? || c in k.todo }

  /** The output's open is under way and has read the flag, or has yet to. */
  predicate HasRead(s: State, id: Id) {
    id in s.pending && s.pending[id] < |s.opens| && s.opens[s.pending[id]].Checked?
  }

  predicate HasToRead(s: State, id: Id) {
    id in s.pending && s.pending[id] < |s.opens| && s.opens[s.pending[id]].Inserted?
  }

  /** Every connection still pending that is owed a cancellation, and whose open has
    * read the flag, has been cancelled or will be. */
  ghost predicate Met(s: State) {
    forall id :: HasRead(s, id) && Owed(s, s.pending[id]) ==> LookedAfter(s, s.pending[id])
  }

  /** No pending connection whose open has yet to read the flag is outside what has
    * been, or will be, cancelled. */
  ghost predicate NoneAtRisk(s: State) {
    forall id :: HasToRead(s, id) ==> LookedAfter(s, s.pending[id])
  }

  /** What the caller of a reset can check before it. */
  ghost predicate MayReset(s: State) { s.flag ==> NoneAtRisk(s) }

  /** Every reset of the history was allowed. */
  ghost predicate SafeHistory(s: State, ops: seq<Op>)
    decreases |ops|
  {
    ops == [] || ((ops[0].Reset? ==> MayReset(s)) && SafeHistory(Step(s, ops[0]), ops[1..]))
  }

  /** An owed connection is looked after, or its open will still find the flag set. */
  ghost predicate DemandOk(s: State, id: Id)
    requires id in s.pending && s.pending[id] < |s.opens|
  {
    Owed(s, s.pending[id]) ==> LookedAfter(s, s.pending[id]) || (s.flag && s.opens[s.pending[id]].Inserted?)
  }

  ghost predicate DemandInv(s: State) {
    && TableOk(s) && s.demanded <= |s.opens|
    && forall id :: id in s.pending ==> DemandOk(s, id)
  }

  /** Cancellers never drop work: what is looked after stays so while it is pending. */
  lemma LookedAfterStays(s: State, op: Op, id: Id)
    requires id in s.pending && LookedAfter(s, s.pending[id])
    ensures LookedAfter(Step(s, op), s.pending[id])
  {
    var c := s.pending[id];
    var t := Step(s, op);
    if c !in s.cancelled && !(c < |s.opens| && s.opens[c].Caught?) {
      var i :| 0 <= i < |s.cancellers| && WillCancel(s.cancellers[i], c);
      assert c in s.pending.Values;
      if c !in t.cancelled { assert WillCancel(t.cancellers[i], c); }
    }
  }

  lemma DemandStepKeeps(s: State, op: Op)
    requires Inv(s) && DemandInv(s) && (op.Reset? ==> MayReset(s))
    ensures DemandInv(Step(s, op))
  {
    var t := Step(s, op);
    StepKeeps(s, op);
    forall id | id in t.pending ensures DemandOk(t, id) {
      if id in s.pending {
        assert DemandOk(s, id);
        if LookedAfter(s, s.pending[id]) { LookedAfterStays(s, op, id); }
        if op.CancelFlag? { assert WillCancel(t.cancellers[|s.cancellers|], t.pending[id]); }
      }
    }
  }

  lemma {:induction false} DemandRunKeeps(s: State, ops: seq<Op>)
    requires Inv(s) && DemandInv(s) && SafeHistory(s, ops)
    ensures Inv(Run(s, ops)) && DemandInv(Run(s, ops)) && Met(Run(s, ops))
    decreases |ops|
  {
    if ops == [] {
      forall id | id in s.pending ensures DemandOk(s, id) { }
    } else {
      DemandStepKeeps(s, ops[0]);
      StepKeeps(s, ops[0]);
      DemandRunKeeps(Step(s, ops[0]), ops[1..]);
    }
  }

  /** Over any number of cancellers and resets, as long as every reset is allowed: a
    * connection owed a cancellation is looked after once its open has read the flag,
    * and is cancelled by the time the cancellers have finished. */
  lemma DemandsAreMet(ops: seq<Op>)
    requires SafeHistory(INITIAL, ops)
    ensures var s := Run(INITIAL, ops);
      && Met(s)
      && ((forall i :: 0 <= i < |s.cancellers| ==> s.cancellers[i].Cancelling? && s.cancellers[i].todo == {}) ==>
            forall id :: HasRead(s, id) && Owed(s, s.pending[id]) ==> s.pending[id] in s.cancelled)
  {
    DemandRunKeeps(INITIAL, ops);
  }

  /** A reset with a connection at risk is lost by the very next read of the flag. */
  lemma ResetAtRiskLoses(s: State, id: Id)
    requires TableOk(s) && s.flag
    requires HasToRead(s, id) && !LookedAfter(s, s.pending[id])
    ensures var more := [OpenRead(s.pending[id])];
      SafeHistory(Step(s, Reset), more) && !Met(Run(Step(s, Reset), more))
  {
    var c := s.pending[id];
    var u := Step(s, Reset);
    var t := Step(u, OpenRead(c));
    assert t.cancelled == s.cancelled && t.cancellers == s.cancellers;
    assert !LookedAfter(t, c);
    assert HasRead(t, id) && Owed(t, c);
    var more := [OpenRead(c)];
    assert more[1..] == [] && Run(t, []) == t && SafeHistory(t, []);
  }

  /** In every state reached with allowed resets, the next reset loses nothing,
    * however the run goes on, exactly when it is allowed itself. */
  lemma ResetLosesNothingIff(ops: seq<Op>)
    requires SafeHistory(INITIAL, ops)
    ensures var s := Run(INITIAL, ops);
      MayReset(s) <==> forall more :: SafeHistory(Step(s, Reset), more) ==> Met(Run(Step(s, Reset), more))
  {
    var s := Run(INITIAL, ops);
    var u := Step(s, Reset);
    DemandRunKeeps(INITIAL, ops);
    if MayReset(s) {
      StepKeeps(s, Reset);
      DemandStepKeeps(s, Reset);
      forall more | SafeHistory(u, more) ensures Met(Run(u, more)) { DemandRunKeeps(u, more); }
    } else {
      var id :| HasToRead(s, id) && !LookedAfter(s, s.pending[id]);
      ResetAtRiskLoses(s, id);
    }
  }

  const RESET_HISTORY: seq<Op> := [CancelFlag, CancelSnapshot(0), OpenInsert(Id("a")), Reset, OpenRead(0)]

  /** A history that ends so: the canceller found nothing to cancel, and the open
    * finds the flag cleared. */
  lemma ResetLosesIt()
    ensures var s := Run(INITIAL, RESET_HISTORY);
      && s.cancellers == [Cancelling(0, {})] && s.resets == 1
      && s.pending == map[Id("a") := 0] && s.opens == [Checked] && s.cancelled == {}
  {
    assert INITIAL.pending.Values == {};
  }
}

/**
 * When the component resets the cancel flag. Every open runs under the transport
 * mutex. The output's own stop cancels, joins the render thread, and resets under the
 * mutex; preparing an open resets without it; a stop from elsewhere resets under it.
 */
module OpenCancellation {
  import opened Common
  import P = PendingOpens

  datatype Holder = Nobody | Opener | HostHolds | StrayHolds

  /** The output's thread: between calls, inside cancel_pending_playback_open as the
    * given canceller, after the join, inside the locked section of stop_playback. */
  datatype HostPc = Idle | Cancelling(canceller: nat) | Joined | Stopping

  datatype State = State(opens: P.State, holder: Holder, host: HostPc)

  const INITIAL := State(P.INITIAL, Nobody, Idle)

  datatype Op =
    | OpenerAcquire                    // the render thread or the control worker
    | OpenerWork(op: P.Op)
    | OpenerRelease
    | HostCancel
    | HostWork(op: P.Op)
    | HostJoin
    | HostStop                         // locks the transport mutex
    | HostReset
    | HostPrepare                      // reset by prepare_playback_open, without the mutex
    | StrayStop
    | StrayReset
    | StrayRelease

  predicate IsOpening(op: P.Op) { op.OpenInsert? || op.OpenRead? || op.OpenCancel? || op.OpenEnd? }

  predicate IsCancelling(op: P.Op, i: nat) {
    (op.CancelSnapshot? && op.canceller == i) || (op.CancelOne? && op.canceller == i)
  }

  /** The access to the table and the flag that a step makes, if it is enabled. */
  function Access(s: State, op: Op): Option<P.Op> {
    match op
    case OpenerWork(p) => if s.holder.Opener? && IsOpening(p) then Some(p) else None
    case HostCancel => if s.host.Idle? then Some(P.CancelFlag) else None
    case HostWork(p) => if s.host.Cancelling? && IsCancelling(p, s.host.canceller) then Some(p) else None
    case HostReset => if s.host.Stopping? then Some(P.Reset) else None
    case HostPrepare => if s.host.Idle? then Some(P.Reset) else None
    case StrayReset => if s.holder.StrayHolds? then Some(P.Reset) else None
    case _ => None
  }

  predicate Finished(k: P.CancelPc) { k.Cancelling? && k.todo == {} }

  function Moved(s: State, op: Op): State {
    match op
    case OpenerAcquire => if s.holder.Nobody? then s.(holder := Opener) else s
    case OpenerRelease => if s.holder.Opener? && s.opens.pending == map[] then s.(holder := Nobody) else s
    case HostCancel => if s.host.Idle? then s.(host := Cancelling(|s.opens.cancellers|)) else s
    case HostJoin =>
      if s.host.Cancelling? && s.host.canceller < |s.opens.cancellers| && Finished(s.opens.cancellers[s.host.canceller])
      then s.(host := Joined) else s
    case HostStop =>
      if s.holder.Nobody? && (s.host.Idle? || s.host.Joined?) then s.(holder := HostHolds, host := Stopping) else s
    case HostReset => if s.host.Stopping? then s.(holder := Nobody, host := Idle) else s
    case StrayStop => if s.holder.Nobody? then s.(holder := StrayHolds) else s
    case StrayRelease => if s.holder.StrayHolds? then s.(holder := Nobody) else s
    case _ => s
  }

  function Step(s: State, op: Op): State {
    var t := Moved(s, op);
    match Access(s, op) case None => t case Some(p) => t.(opens := P.Step(s.opens, p))
  }

  function Run(s: State, ops: seq<Op>): State
    decreases |ops|
  {
    if ops == [] then s else Run(Step(s, ops[0]), ops[1..])
  }

  /** What the table and the flag see of a run. */
  function Accesses(s: State, ops: seq<Op>): seq<P.Op>
    decreases |ops|
  {
    if ops == [] then []
    else (match Access(s, ops[0]) case None => [] case Some(p) => [p]) + Accesses(Step(s, ops[0]), ops[1..])
  }

  /** Only an opener has anything pending, and the flag is set only between a cancel
    * and the reset of the stop that follows it. */
  predicate Inv(s: State) {
    && (!s.holder.Opener? ==> s.opens.pending == map[])
    && (s.host.Stopping? <==> s.holder.HostHolds?)
    && (s.host.Idle? ==> !s.opens.flag)
  }

  lemma StepKeeps(s: State, op: Op)
    requires Inv(s)
    ensures Inv(Step(s, op))
    ensures Access(s, op).Some? && Access(s, op).value.Reset? ==> P.MayReset(s.opens)
  {
  }

  lemma AccessFirst(t: P.State, p: P.Op, rest: seq<P.Op>)
    requires p.Reset? ==> P.MayReset(t)
    ensures P.Run(t, [p] + rest) == P.Run(P.Step(t, p), rest)
    ensures P.SafeHistory(P.Step(t, p), rest) ==> P.SafeHistory(t, [p] + rest)
  {
    assert ([p] + rest)[1..] == rest;
  }

  /** One step, then accesses that are safe from there. */
  lemma AccessThen(s: State, op: Op, rest: seq<P.Op>)
    requires Inv(s)
    ensures var all := (match Access(s, op) case None => [] case Some(p) => [p]) + rest;
      && P.Run(s.opens, all) == P.Run(Step(s, op).opens, rest)
      && (P.SafeHistory(Step(s, op).opens, rest) ==> P.SafeHistory(s.opens, all))
  {
    StepKeeps(s, op);
    match Access(s, op)
    case None => assert [] + rest == rest;
    case Some(p) => AccessFirst(s.opens, p, rest);
  }

  lemma {:induction false} RunIsSafe(s: State, ops: seq<Op>)
    requires Inv(s)
    ensures Run(s, ops).opens == P.Run(s.opens, Accesses(s, ops))
    ensures P.SafeHistory(s.opens, Accesses(s, ops))
    decreases |ops|
  {
    if ops == [] {
    } else {
      var t := Step(s, ops[0]);
      StepKeeps(s, ops[0]);
      RunIsSafe(t, ops[1..]);
      AccessThen(s, ops[0], Accesses(t, ops[1..]));
    }
  }

  /** In every interleaving of opens, the output's own calls and stops from elsewhere,
    * every reset the component makes is allowed, so no cancellation of a connection
    * already made is lost. */
  lemma ComponentResetsAreSafe(ops: seq<Op>)
    ensures P.SafeHistory(P.INITIAL, Accesses(INITIAL, ops))
    ensures P.Met(Run(INITIAL, ops).opens)
  {
    RunIsSafe(INITIAL, ops);
    P.DemandsAreMet(Accesses(INITIAL, ops));
  }

  /** From between two calls of the output, whoever is opening: its cancel sets the flag
    * and takes up everything pending, to cancel it. */
  lemma HostTakesUpAll(s: State, c: nat)
    requires s.host.Idle? && c in s.opens.pending.Values
    ensures var n := |s.opens.cancellers|;
      var t := Step(Step(s, HostCancel), HostWork(P.CancelSnapshot(n)));
      && t.opens.flag && t.opens.pending == s.opens.pending && t.holder == s.holder
      && t.host == Cancelling(n) && t.opens.cancellers[n] == P.Cancelling(s.opens.resets, s.opens.pending.Values)
      && c in Step(t, HostWork(P.CancelOne(n, c))).opens.cancelled
  {
  }

  /** With the mutex free its stop runs through, from cancelling to the reset, and leaves
    * it between calls with the flag clear and the mutex free. */
  lemma HostStopsThrough(ops: seq<Op>)
    requires var s := Run(INITIAL, ops); s.host.Idle? && s.holder.Nobody?
    ensures var s := Run(INITIAL, ops); var n := |s.opens.cancellers|;
      var t := Step(Step(Step(s, HostCancel), HostWork(P.CancelSnapshot(n))), HostJoin);
      var u := Step(t, HostStop);
      && t.host.Joined? && u.host.Stopping? && u.holder.HostHolds?
      && Step(u, HostReset).host.Idle? && Step(u, HostReset).holder.Nobody? && !Step(u, HostReset).opens.flag
      && Step(s, HostStop).host.Stopping?
  {
    RunIsSafe(INITIAL, ops);
    RunKeepsInv(INITIAL, ops);
    var s := Run(INITIAL, ops);
    assert s.opens.pending.Values == {};
  }

  lemma {:induction false} RunKeepsInv(s: State, ops: seq<Op>)
    requires Inv(s)
    ensures Inv(Run(s, ops))
    decreases |ops|
  {
    if ops == [] {
    } else {
      StepKeeps(s, ops[0]);
      RunKeepsInv(Step(s, ops[0]), ops[1..]);
    }
  }

  /** An open that arrives after the cancel finds the flag set. */
  lemma LateOpenIsCaught(s: State, id: Id)
    requires s.opens.flag && s.holder.Opener? && id !in s.opens.pending
    ensures var c := |s.opens.opens|;
      var t := Step(Step(Step(s, OpenerWork(P.OpenInsert(id))), OpenerWork(P.OpenRead(c))), OpenerWork(P.OpenCancel(c)));
      c in t.opens.cancelled && t.opens.opens[c].Checked?
  {
  }
}

/**
 * Who closes a socket: connect_to creates one per address and publishes it in an
 * atomic slot; cancel, from any number of threads, sets the flag and empties the
 * slot. Whoever exchanges a socket out of the slot closes it.
 */
module SocketOwnership {
  import opened Common

  /** Where connect_to stands; left counts the addresses still to try. */
  datatype ConnectPc =
    | Trying(left: nat)                   // before reading the flag
    | Creating(left: nat)                 // flag found clear
    | Created(socket: nat, left: nat)     // before the store
    | Stored(left: nat)                   // inside ::connect
    | Connected(left: nat)                // connect returned 0, flag not yet read again
    | Rejected(left: nat)                 // before the exchange
    | Closing(socket: nat, left: nat)     // exchanged out, not yet closed
    | Succeeded
    | Threw

  datatype CancelPc = FlagSet | CancelClosing(socket: nat) | CancelDone

  /** live sockets are open; closes lists every close_socket call. */
  datatype State = State(
    cancelled: bool,
    slot: Option<nat>,
    live: set<nat>,
    closes: seq<nat>,
    next: nat,
    connect: ConnectPc,
    cancels: seq<CancelPc>)

  function INITIAL(addresses: nat): State { State(false, None, {}, [], 0, Trying(addresses), []) }

  datatype Op =
    | ReadFlag
    | MakeSocket(made: bool)      // false: wrong family, or socket() failed
    | StoreSocket
    | ConnectReturns(ok: bool)
    | ReadFlagAgain
    | TakeBack
    | CloseTaken
    | CancelSet
    | CancelTake(canceller: nat)
    | CancelClose(canceller: nat)

  function Closed(s: State, socket: nat): State { s.(live := s.live - {socket}, closes := s.closes + [socket]) }

  function ConnectStep(s: State, op: Op): State {
    var p := s.connect;
    match op
    case ReadFlag =>
      if !p.Trying? then s
      else if p.left == 0 || s.cancelled then s.(connect := Threw)
      else s.(connect := Creating(p.left - 1))
    case MakeSocket(made) =>
      if !p.Creating? then s
      else if !made then s.(connect := Trying(p.left))
      else s.(live := s.live + {s.next}, next := s.next + 1, connect := Created(s.next, p.left))
    case StoreSocket => if p.Created? then s.(slot := Some(p.socket), connect := Stored(p.left)) else s
    case ConnectReturns(ok) =>
      if p.Stored? then s.(connect := if ok then Connected(p.left) else Rejected(p.left)) else s
    case ReadFlagAgain =>
      if p.Connected? then s.(connect := if s.cancelled then Rejected(p.left) else Succeeded) else s
    case TakeBack =>
      if !p.Rejected? then s
      else s.(slot := None, connect := if s.slot.Some? then Closing(s.slot.value, p.left) else Trying(p.left))
    case CloseTaken => if p.Closing? then Closed(s, p.socket).(connect := Trying(p.left)) else s
    case _ => s
  }

  function CancelStep(s: State, op: Op): State {
    match op
    case CancelSet => s.(cancelled := true, cancels := s.cancels + [FlagSet])
    case CancelTake(i) =>
      if i >= |s.cancels| || !s.cancels[i].FlagSet? then s
      else s.(slot := None,
              cancels := s.cancels[i := if s.slot.Some? then CancelClosing(s.slot.value) else CancelDone])
    case CancelClose(i) =>
      if i >= |s.cancels| || !s.cancels[i].CancelClosing? then s
      else Closed(s, s.cancels[i].socket).(cancels := s.cancels[i := CancelDone])
    case _ => s
  }

  function Step(s: State, op: Op): State {
    if op.CancelSet? || op.CancelTake? || op.CancelClose? then CancelStep(s, op) else ConnectStep(s, op)
  }

  function Run(s: State, ops: seq<Op>): State
    decreases |ops|
  {
    if ops == [] then s else Run(Step(s, ops[0]), ops[1..])
  }

  /** The socket connect_to holds outside the slot. */
  function Held(p: ConnectPc): Option<nat> {
    if p.Created? || p.Closing? then Some(p.socket) else None
  }

  /** Every live socket has exactly one owner: the slot, connect_to or a canceller. */
  ghost predicate OwnersOk(s: State) {
    && (forall x :: x in s.live ==>
          s.slot == Some(x) || Held(s.connect) == Some(x) || exists i :: 0 <= i < |s.cancels| && s.cancels[i] == CancelClosing(x))
    && (s.slot.Some? ==> s.slot.value in s.live && s.slot != Held(s.connect))
    && (Held(s.connect).Some? ==> Held(s.connect).value in s.live)
    && (forall i :: 0 <= i < |s.cancels| && s.cancels[i].CancelClosing? ==>
          && s.cancels[i].socket in s.live
          && s.slot != Some(s.cancels[i].socket) && Held(s.connect) != Some(s.cancels[i].socket))
    && (forall i, j :: 0 <= i < j < |s.cancels| && s.cancels[i].CancelClosing? ==> s.cancels[i] != s.cancels[j])
  }

  ghost predicate ClosesOk(s: State) {
    && (forall x :: x in s.live ==> x < s.next)
    && (forall i :: 0 <= i < |s.closes| ==> s.closes[i] < s.next && s.closes[i] !in s.live)
    && (forall i, j :: 0 <= i < j < |s.closes| ==> s.closes[i] != s.closes[j])
  }

  predicate Published(p: ConnectPc) { p.Stored? || p.Connected? || p.Rejected? || p.Succeeded? }

  /** The slot is empty except between a store and its exchange, and a success
    * that no canceller has seen yet. */
  ghost predicate SlotOk(s: State) {
    && (!Published(s.connect) ==> s.slot.None?)
    && (Published(s.connect) && s.cancels == [] ==> s.slot.Some?)
    && (s.cancels != [] <==> s.cancelled)
    && (s.connect.Succeeded? && s.slot.Some? ==> forall i :: 0 <= i < |s.cancels| ==> s.cancels[i].FlagSet?)
  }

  ghost predicate Inv(s: State) { OwnersOk(s) && ClosesOk(s) && SlotOk(s) }

  lemma ConnectKeepsOwners(s: State, op: Op)
    requires Inv(s)
    ensures OwnersOk(ConnectStep(s, op))
  {
  }

  lemma ConnectKeepsCloses(s: State, op: Op)
    requires Inv(s)
    ensures ClosesOk(ConnectStep(s, op)) && SlotOk(ConnectStep(s, op))
  {
  }

  lemma CancelKeeps(s: State, op: Op)
    requires Inv(s)
    ensures Inv(CancelStep(s, op))
  {
    var t := CancelStep(s, op);
    forall x | x in t.live
      ensures t.slot == Some(x) || Held(t.connect) == Some(x)
           || exists i :: 0 <= i < |t.cancels| && t.cancels[i] == CancelClosing(x)
    {
      if s.slot == Some(x) && t.slot.None? {
        assert t.cancels[op.canceller] == CancelClosing(x);
      } else if i :| 0 <= i < |s.cancels| && s.cancels[i] == CancelClosing(x) {
        assert t.cancels[i] == CancelClosing(x);
      }
    }
  }

  lemma {:induction false} RunKeeps(s: State, ops: seq<Op>)
    requires Inv(s)
    ensures Inv(Run(s, ops))
    decreases |ops|
  {
    if ops == [] {
    } else {
      if ops[0].CancelSet? || ops[0].CancelTake? || ops[0].CancelClose? { CancelKeeps(s, ops[0]); }
      else { ConnectKeepsOwners(s, ops[0]); ConnectKeepsCloses(s, ops[0]); }
      RunKeeps(Step(s, ops[0]), ops[1..]);
    }
  }

  // ---- what each side gets done

  /** Left to itself, connect_to goes on to the next address when no socket can be made,
    * closes the socket and goes on when the address refuses it, and ends with the
    * connected socket open in the slot when one accepts it. */
  lemma ConnectTriesOn(s: State)
    requires s.connect.Trying? && s.connect.left > 0 && !s.cancelled && s.slot.None? && s.next !in s.live
    ensures var left := s.connect.left - 1; var made := Step(Step(Step(s, ReadFlag), MakeSocket(true)), StoreSocket);
      && Step(Step(s, ReadFlag), MakeSocket(false)) == s.(connect := Trying(left))
      && made.slot == Some(s.next) && made.live == s.live + {s.next}
      && Step(Step(made, ConnectReturns(true)), ReadFlagAgain) == made.(connect := Succeeded)
      && Step(Step(Step(made, ConnectReturns(false)), TakeBack), CloseTaken)
           == s.(connect := Trying(left), next := s.next + 1, closes := s.closes + [s.next])
  {
    assert s.live + {s.next} - {s.next} == s.live;
  }

  /** With no address left, or cancelled, it throws. */
  lemma ConnectGivesUp(s: State)
    requires s.connect.Trying? && (s.connect.left == 0 || s.cancelled)
    ensures Step(s, ReadFlag) == s.(connect := Threw)
  {
  }

  /** A cancel that comes while the socket is connecting closes it, and connect_to gives
    * up, whatever the call inside which it was returns. */
  lemma CancelInterrupts(s: State, ok: bool)
    requires s.connect.Stored? && s.slot.Some?
    ensures var n := |s.cancels|; var t := Step(Step(Step(s, CancelSet), CancelTake(n)), CancelClose(n));
      && t.cancelled && t.slot.None? && t.live == s.live - {s.slot.value} && t.closes == s.closes + [s.slot.value]
      && t.connect == s.connect && t.cancels == s.cancels + [CancelDone]
      && Step(Step(Step(Step(t, ConnectReturns(ok)), ReadFlagAgain), TakeBack), ReadFlag).connect.Threw?
  {
    var n := |s.cancels|;
    var a := Step(s, CancelSet);
    assert a.cancels[n := CancelDone] == s.cancels + [CancelDone];
    assert a.cancels[n := CancelClosing(s.slot.value)][n := CancelDone] == s.cancels + [CancelDone];
  }

  /** No socket is closed twice, in any interleaving with any number of cancels. */
  lemma ClosedAtMostOnce(addresses: nat, ops: seq<Op>, i: nat, j: nat)
    requires i < j < |Run(INITIAL(addresses), ops).closes|
    ensures Run(INITIAL(addresses), ops).closes[i] != Run(INITIAL(addresses), ops).closes[j]
  {
    RunKeeps(INITIAL(addresses), ops);
  }

  /** Once connect_to has returned or thrown and every cancel has finished, no
    * socket is open exactly when something was cancelled or nothing connected;
    * otherwise the one open socket is the one in the slot. */
  lemma NothingLeftOpen(addresses: nat, ops: seq<Op>)
    requires var s := Run(INITIAL(addresses), ops);
      && (s.connect.Succeeded? || s.connect.Threw?)
      && forall i :: 0 <= i < |s.cancels| ==> s.cancels[i].CancelDone?
    ensures var s := Run(INITIAL(addresses), ops);
      && (s.cancels != [] || s.connect.Threw? ==> s.live == {})
      && (s.cancels == [] && s.connect.Succeeded? ==> s.slot.Some? && s.live == {s.slot.value})
  {
    RunKeeps(INITIAL(addresses), ops);
    var s := Run(INITIAL(addresses), ops);
    if s.cancels != [] { assert s.cancels[0].CancelDone?; }
  }
}
