/** The keyed output registry: one record per canonical id, user state kept in range. */
module Registry {
  import opened Common
  import opened Devices
  import opened KeyOrder

  type Outputs = map<Id, OutputDevice>

  function ClampVolume(v: i32): i32 { Clamp(v, 0, 100) }

  function ClampOffset(v: i32): i32 { Clamp(v, -2000, 2000) }

  function InRange(d: OutputDevice): OutputDevice {
    d.(volume := ClampVolume(d.volume), offsetMs := ClampOffset(d.offsetMs))
  }

  /** What every registry operation keeps. */
  predicate RegistryOk(outputs: Outputs) {
    forall k | k in outputs :: k != NO_ID && outputs[k].id == k && InRange(outputs[k]) == outputs[k]
  }

  /** User settings are kept at 0 to 100 percent and within two seconds either way. */
  lemma RangeIs(d: OutputDevice)
    ensures InRange(d) == d.(
      volume := if d.volume < 0 then 0 else if d.volume > 100 then 100 else d.volume,
      offsetMs := if d.offsetMs < -2000 then -2000 else if d.offsetMs > 2000 then 2000 else d.offsetMs)
  {
  }

  /** Every stored record is in range. */
  lemma StoredInRange(outputs: Outputs, k: Id)
    requires RegistryOk(outputs) && k in outputs
    ensures 0 <= outputs[k].volume <= 100 && -2000 <= outputs[k].offsetMs <= 2000
  {
  }

  /** The records under the given keys, in key order. */
  function ListFrom(outputs: Outputs, keys: set<Id>): (l: seq<OutputDevice>)
    requires keys <= outputs.Keys
  {
    if keys == {} then [] else [outputs[Least(keys)]] + ListFrom(outputs, keys - {Least(keys)})
  }

  function ListOf(outputs: Outputs): seq<OutputDevice> { ListFrom(outputs, outputs.Keys) }

  lemma {:induction false} ListFromIsComplete(outputs: Outputs, keys: set<Id>)
    requires keys <= outputs.Keys
    requires forall k :: k in keys ==> outputs[k].id == k
    ensures forall o: OutputDevice :: o in ListFrom(outputs, keys) <==> o.id in keys && outputs[o.id] == o
    ensures UniqueIds(ListFrom(outputs, keys))
  {
    if keys == {} {
    } else {
      var k := Least(keys);
      var rest := ListFrom(outputs, keys - {k});
      ListFromIsComplete(outputs, keys - {k});
      assert ListFrom(outputs, keys) == [outputs[k]] + rest;
      forall j | 0 <= j < |rest| ensures rest[j].id != k {
        assert rest[j] in rest;
      }
    }
  }

  /** A listing holds every record once. */
  lemma ListIsComplete(outputs: Outputs)
    requires forall k :: k in outputs ==> outputs[k].id == k
    ensures forall o: OutputDevice :: o in ListOf(outputs) <==> o.id in outputs && outputs[o.id] == o
    ensures UniqueIds(ListOf(outputs))
  {
    ListFromIsComplete(outputs, outputs.Keys);
  }

  function WithSelection(outputs: Outputs, selected: set<Id>): (r: Outputs)
    ensures r.Keys == outputs.Keys
  {
    map k | k in outputs :: Selecting(outputs[k], k in selected)
  }

  function Selecting(d: OutputDevice, on: bool): OutputDevice { d.(selected := on) }

  /** The entries whose key is retained or still pending. */
  function Kept(outputs: Outputs, ids: set<Id>, pending: set<Id>): Outputs {
    map k | k in outputs && (k in ids || k in pending) :: outputs[k]
  }

  lemma KeptStep(outputs: Outputs, ids: set<Id>, pending: set<Id>, k: Id)
    requires k in pending && k in outputs
    ensures Kept(outputs, ids, pending - {k})
         == if k in ids then Kept(outputs, ids, pending) else Kept(outputs, ids, pending) - {k}
  {
  }

  function PartlySelected(outputs: Outputs, selected: set<Id>, pending: set<Id>): Outputs {
    map k | k in outputs :: if k in pending then outputs[k] else Selecting(outputs[k], k in selected)
  }

  lemma SelectStep(outputs: Outputs, selected: set<Id>, pending: set<Id>, k: Id)
    requires k in pending && k in outputs
    ensures PartlySelected(outputs, selected, pending - {k})
         == PartlySelected(outputs, selected, pending)[k := Selecting(outputs[k], k in selected)]
  {
  }

  lemma SelectEnds(outputs: Outputs, selected: set<Id>)
    ensures PartlySelected(outputs, selected, outputs.Keys) == outputs
    ensures PartlySelected(outputs, selected, {}) == WithSelection(outputs, selected)
    ensures RegistryOk(outputs) ==> RegistryOk(WithSelection(outputs, selected))
  {
  }

  class OutputRegistry {
    var outputs: Outputs

    constructor ()
      ensures outputs == map[] && RegistryOk(outputs)
    {
      outputs := map[];
    }

    /** false stands for the rejected empty id. */
    method Upsert(device: OutputDevice) returns (ok: bool)
      requires RegistryOk(outputs)
      modifies this
      ensures RegistryOk(outputs)
      ensures ok <==> device.id != NO_ID
      ensures outputs == if ok then old(outputs)[device.id := InRange(device)] else old(outputs)
    {
      if device.id == NO_ID {
        return false;
      }
      outputs := outputs[device.id := InRange(device)];
      ok := true;
    }

    /** Erases, one entry at a time, everything outside ids. */
    method Retain(ids: set<Id>)
      requires RegistryOk(outputs)
      modifies this
      ensures RegistryOk(outputs)
      ensures outputs == Kept(old(outputs), ids, {})
    {
      var pending := outputs.Keys;
      ghost var was := outputs;
      while pending != {}
        invariant pending <= was.Keys
        invariant outputs == Kept(was, ids, pending)
        decreases |pending|
      {
        var k := Least(pending);
        KeptStep(was, ids, pending, k);
        pending := pending - {k};
        if k !in ids {
          outputs := outputs - {k};
        }
      }
    }

    method List() returns (l: seq<OutputDevice>)
      ensures l == ListOf(outputs)
    {
      l := [];
      var pending := outputs.Keys;
      while pending != {}
        invariant pending <= outputs.Keys
        invariant l + ListFrom(outputs, pending) == ListOf(outputs)
        decreases |pending|
      {
        var k := Least(pending);
        l := l + [outputs[k]];
        pending := pending - {k};
      }
    }

    /** All or nothing: one unknown id leaves every selection as it was. */
    method SetEnabledOutputs(ids: seq<Id>) returns (ok: bool)
      requires RegistryOk(outputs)
      modifies this
      ensures RegistryOk(outputs)
      ensures ok <==> forall id :: id in ids ==> id in outputs
      ensures outputs == if ok then WithSelection(old(outputs), set id | id in ids) else old(outputs)
    {
      for i := 0 to |ids|
        invariant forall j :: 0 <= j < i ==> ids[j] in outputs
      {
        if ids[i] !in outputs {
          return false;
        }
      }
      var selected := set id | id in ids;
      var pending := outputs.Keys;
      ghost var was := outputs;
      SelectEnds(was, selected);
      while pending != {}
        invariant pending <= was.Keys
        invariant outputs == PartlySelected(was, selected, pending)
        decreases |pending|
      {
        var k := Least(pending);
        SelectStep(was, selected, pending, k);
        pending := pending - {k};
        outputs := outputs[k := Selecting(outputs[k], k in selected)];
      }
      ok := true;
    }

    method SetOutputVolume(id: Id, volume: i32) returns (ok: bool)
      requires RegistryOk(outputs)
      modifies this
      ensures RegistryOk(outputs)
      ensures ok <==> id in old(outputs)
      ensures outputs == if ok then old(outputs)[id := old(outputs)[id].(volume := ClampVolume(volume))] else old(outputs)
    {
      ok := id in outputs;
      if ok {
        outputs := outputs[id := outputs[id].(volume := ClampVolume(volume))];
      }
    }

    method SetOutputOffset(id: Id, offsetMs: i32) returns (ok: bool)
      requires RegistryOk(outputs)
      modifies this
      ensures RegistryOk(outputs)
      ensures ok <==> id in old(outputs)
      ensures outputs == if ok then old(outputs)[id := old(outputs)[id].(offsetMs := ClampOffset(offsetMs))] else old(outputs)
    {
      ok := id in outputs;
      if ok {
        outputs := outputs[id := outputs[id].(offsetMs := ClampOffset(offsetMs))];
      }
    }

    method SetMeasuredLatency(id: Id, latencyMs: i32) returns (ok: bool)
      requires RegistryOk(outputs)
      modifies this
      ensures RegistryOk(outputs)
      ensures ok <==> id in old(outputs)
      ensures outputs == if ok then old(outputs)[id := old(outputs)[id].(measuredLatencyMs := Max(0, latencyMs))] else old(outputs)
    {
      ok := id in outputs;
      if ok {
        outputs := outputs[id := outputs[id].(measuredLatencyMs := Max(0, latencyMs))];
      }
    }
  }
}
