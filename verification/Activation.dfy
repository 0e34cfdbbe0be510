/**
 * Speaker-group activation against the matching predicates. Ids are compared
 * modulo aliases: an output answers to its id and to every alias it has had.
 * members stands for the output ids of the group.
 */
module Activation {
  import opened Common
  import opened Devices
  import opened KeyOrder

  datatype StoredState = StoredState(outputId: Id, selected: bool, volume: i32, visible: bool)

  predicate IsMember(members: seq<Id>, o: OutputDevice) {
    exists i :: 0 <= i < |members| && MatchesId(o, members[i])
  }

  // ---- resolving a group to the outputs present

  /** The ids of the outputs that answer to a member, each once, in listing order. */
  function ResolveMembers(members: seq<Id>, outputs: seq<OutputDevice>): seq<Id> {
    if outputs == [] then []
    else
      var rest, o := ResolveMembers(members, outputs[..|outputs|-1]), outputs[|outputs|-1];
      if IsMember(members, o) && o.id !in rest then rest + [o.id] else rest
  }

  ghost predicate AnyMember(members: seq<Id>, outputs: seq<OutputDevice>, id: Id) {
    exists i :: 0 <= i < |outputs| && outputs[i].id == id && IsMember(members, outputs[i])
  }

  predicate Unique(ids: seq<Id>) { forall i, j :: 0 <= i < j < |ids| ==> ids[i] != ids[j] }

  lemma {:induction false} ResolveFindsMembers(members: seq<Id>, outputs: seq<OutputDevice>, id: Id)
    ensures id in ResolveMembers(members, outputs) <==> AnyMember(members, outputs, id)
    ensures Unique(ResolveMembers(members, outputs))
  {
    if outputs == [] {
    } else {
      var init := outputs[..|outputs|-1];
      ResolveFindsMembers(members, init, id);
      ResolveFindsMembers(members, init, outputs[|outputs|-1].id);
      if AnyMember(members, init, id) {
        var i :| 0 <= i < |init| && init[i].id == id && IsMember(members, init[i]);
        assert outputs[i] == init[i];
      }
      if i :| 0 <= i < |outputs| && outputs[i].id == id && IsMember(members, outputs[i]) {
        if i < |init| { assert init[i] == outputs[i]; }
      }
    }
  }

  method ResolveSpeakerGroup(members: seq<Id>, outputs: seq<OutputDevice>) returns (ids: seq<Id>)
    ensures ids == ResolveMembers(members, outputs)
  {
    ids := [];
    for i := 0 to |outputs|
      invariant ids == ResolveMembers(members, outputs[..i])
    {
      assert outputs[..i+1][..i] == outputs[..i];
      if IsMember(members, outputs[i]) && outputs[i].id !in ids {
        ids := ids + [outputs[i].id];
      }
    }
    assert outputs[..|outputs|] == outputs;
  }

  // ---- does the live selection match

  function SelectedList(outputs: seq<OutputDevice>): seq<Id> {
    if outputs == [] then []
    else
      SelectedList(outputs[..|outputs|-1])
      + if outputs[|outputs|-1].selected then [outputs[|outputs|-1].id] else []
  }

  predicate MatchesSelection(members: seq<Id>, outputs: seq<OutputDevice>) {
    ResolveMembers(members, outputs) != []
    && SortIds(SelectedList(outputs)) == SortIds(ResolveMembers(members, outputs))
  }

  method SpeakerGroupMatchesSelection(members: seq<Id>, outputs: seq<OutputDevice>) returns (r: bool)
    ensures r == MatchesSelection(members, outputs)
  {
    var expected := ResolveSpeakerGroup(members, outputs);
    if expected == [] {
      return false;
    }
    expected := SortIds(expected);
    var selected: seq<Id> := [];
    for i := 0 to |outputs|
      invariant selected == SelectedList(outputs[..i])
    {
      assert outputs[..i+1][..i] == outputs[..i];
      if outputs[i].selected {
        selected := selected + [outputs[i].id];
      }
    }
    assert outputs[..|outputs|] == outputs;
    selected := SortIds(selected);
    r := selected == expected;
  }

  ghost predicate AnySelected(outputs: seq<OutputDevice>, id: Id) {
    exists i :: 0 <= i < |outputs| && outputs[i].id == id && outputs[i].selected
  }

  lemma {:induction false} SelectedListFinds(outputs: seq<OutputDevice>, id: Id)
    ensures id in SelectedList(outputs) <==> AnySelected(outputs, id)
  {
    if outputs == [] {
    } else {
      var init, last := outputs[..|outputs|-1], outputs[|outputs|-1];
      SelectedListFinds(init, id);
      if AnySelected(init, id) {
        var i :| 0 <= i < |init| && init[i].id == id && init[i].selected;
        assert outputs[i] == init[i];
      }
      if i :| 0 <= i < |outputs| && outputs[i].id == id && outputs[i].selected {
        if i < |init| { assert init[i] == outputs[i]; }
      }
    }
  }

  lemma {:induction false} SelectedListUnique(outputs: seq<OutputDevice>)
    requires UniqueIds(outputs)
    ensures Unique(SelectedList(outputs))
  {
    if outputs == [] {
    } else {
      var init, last := outputs[..|outputs|-1], outputs[|outputs|-1];
      SelectedListUnique(init);
      forall i | 0 <= i < |SelectedList(init)| ensures SelectedList(init)[i] != last.id {
        SelectedListFinds(init, SelectedList(init)[i]);
        var j :| 0 <= j < |init| && init[j].id == SelectedList(init)[i];
        assert outputs[j] == init[j];
      }
    }
  }

  lemma {:induction false} UniqueCounts(ids: seq<Id>, id: Id)
    requires Unique(ids)
    ensures multiset(ids)[id] == if id in ids then 1 else 0
  {
    if ids == [] {
    } else {
      var init, last := ids[..|ids|-1], ids[|ids|-1];
      assert ids == init + [last];
      UniqueCounts(init, id);
      assert last !in init;
    }
  }

  /** Some member is present, and the selected outputs are the members present. */
  ghost predicate SelectionIsMembers(members: seq<Id>, outputs: seq<OutputDevice>) {
    && (exists i :: 0 <= i < |outputs| && IsMember(members, outputs[i]))
    && (forall i :: 0 <= i < |outputs| ==> (outputs[i].selected <==> IsMember(members, outputs[i])))
  }

  /** Over outputs with distinct ids the group matches exactly when some member is
    * present and the selected outputs are the members present. */
  lemma MatchesSelectionIff(members: seq<Id>, outputs: seq<OutputDevice>)
    requires UniqueIds(outputs)
    ensures MatchesSelection(members, outputs) <==> SelectionIsMembers(members, outputs)
  {
    var expected, selected := ResolveMembers(members, outputs), SelectedList(outputs);
    SelectedListUnique(outputs);
    SortEqualIffPermutation(selected, expected);
    forall i | 0 <= i < |outputs|
      ensures outputs[i].id in expected <==> IsMember(members, outputs[i])
      ensures outputs[i].id in selected <==> outputs[i].selected
    {
      ResolveFindsMembers(members, outputs, outputs[i].id);
      SelectedListFinds(outputs, outputs[i].id);
    }
    if expected != [] {
      ResolveFindsMembers(members, outputs, expected[0]);
      assert expected[0] in expected;
    }
    SameWhenSameElements(members, outputs);
  }

  lemma SameWhenSameElements(members: seq<Id>, outputs: seq<OutputDevice>)
    requires UniqueIds(outputs)
    ensures multiset(SelectedList(outputs)) == multiset(ResolveMembers(members, outputs))
       <==> (forall i :: 0 <= i < |outputs| ==>
              (outputs[i].id in SelectedList(outputs) <==> outputs[i].id in ResolveMembers(members, outputs)))
  {
    var expected, selected := ResolveMembers(members, outputs), SelectedList(outputs);
    SelectedListUnique(outputs);
    forall id ensures multiset(selected)[id] == (if id in selected then 1 else 0)
                   && multiset(expected)[id] == (if id in expected then 1 else 0)
    {
      ResolveFindsMembers(members, outputs, id);
      UniqueCounts(selected, id);
      UniqueCounts(expected, id);
    }
    if multiset(selected) != multiset(expected) {
      var id :| multiset(selected)[id] != multiset(expected)[id];
      ResolveFindsMembers(members, outputs, id);
      SelectedListFinds(outputs, id);
    } else {
      forall i | 0 <= i < |outputs|
        ensures outputs[i].id in selected <==> outputs[i].id in expected
      {
        assert multiset(selected)[outputs[i].id] == multiset(expected)[outputs[i].id];
      }
    }
  }

  /** What activation does to the listing: exactly the resolved ids are selected. */
  function SelectResolved(members: seq<Id>, outputs: seq<OutputDevice>): seq<OutputDevice> {
    var resolved := ResolveMembers(members, outputs);
    seq(|outputs|, i requires 0 <= i < |outputs| => outputs[i].(selected := outputs[i].id in resolved))
  }

  /** Activating a group makes the live predicate true whenever any member resolves. */
  lemma ActivationMatchesSelection(members: seq<Id>, outputs: seq<OutputDevice>)
    requires UniqueIds(outputs)
    ensures MatchesSelection(members, SelectResolved(members, outputs)) <==> ResolveMembers(members, outputs) != []
  {
    var after := SelectResolved(members, outputs);
    assert UniqueIds(after);
    MatchesSelectionIff(members, after);
    forall i | 0 <= i < |outputs|
      ensures IsMember(members, after[i]) <==> IsMember(members, outputs[i])
      ensures after[i].selected <==> IsMember(members, outputs[i])
    {
      ResolveFindsMembers(members, outputs, outputs[i].id);
    }
    var resolved := ResolveMembers(members, outputs);
    if resolved != [] {
      ResolveFindsMembers(members, outputs, resolved[0]);
      assert resolved[0] in resolved;
      var i :| 0 <= i < |outputs| && outputs[i].id == resolved[0] && IsMember(members, outputs[i]);
      assert IsMember(members, after[i]);
    }
    if i :| 0 <= i < |after| && IsMember(members, after[i]) {
      ResolveFindsMembers(members, outputs, outputs[i].id);
    }
  }

  // ---- the persisted selection

  function FirstMatch(known: seq<OutputDevice>, id: Id): Option<OutputDevice> {
    if known == [] then None else if MatchesId(known[0], id) then Some(known[0]) else FirstMatch(known[1..], id)
  }

  /** speaker_group_contains_persisted_output. */
  predicate Contains(members: seq<Id>, persisted: Id, known: seq<OutputDevice>) {
    persisted in members || (FirstMatch(known, persisted).Some? && IsMember(members, FirstMatch(known, persisted).value))
  }

  /** The same id, or two names of one known output. */
  predicate SameOutput(a: Id, b: Id, known: seq<OutputDevice>) {
    a == b || exists i :: 0 <= i < |known| && MatchesId(known[i], a) && MatchesId(known[i], b)
  }

  predicate AnySame(ids: seq<Id>, m: Id, known: seq<OutputDevice>) {
    exists i :: 0 <= i < |ids| && SameOutput(ids[i], m, known)
  }

  /** speaker_group_matches_persisted_selection. */
  predicate MatchesPersisted(members: seq<Id>, selected: seq<Id>, known: seq<OutputDevice>) {
    && selected != []
    && (forall i :: 0 <= i < |selected| ==> Contains(members, selected[i], known))
    && (forall i :: 0 <= i < |members| ==> AnySame(selected, members[i], known))
  }

  /** By its id or by an alias. */
  predicate Answers(o: OutputDevice, name: Id) { o.id == name || name in o.aliases }

  /** The id is a member's, or the first known output it names also answers to a member. */
  ghost predicate NamesMember(members: seq<Id>, id: Id, known: seq<OutputDevice>) {
    id in members || exists i :: 0 <= i < |known| && IsFirst(known, i, id) && exists m :: m in members && Answers(known[i], m)
  }

  predicate IsFirst(known: seq<OutputDevice>, i: nat, id: Id)
    requires i < |known|
  {
    Answers(known[i], id) && forall j :: 0 <= j < i ==> !Answers(known[j], id)
  }

  ghost predicate OneOutput(a: Id, b: Id, known: seq<OutputDevice>) {
    a == b || exists o: OutputDevice :: o in known && Answers(o, a) && Answers(o, b)
  }

  lemma IsMemberIff(members: seq<Id>, o: OutputDevice)
    ensures IsMember(members, o) <==> exists m :: m in members && Answers(o, m)
  {
    if m :| m in members && Answers(o, m) {
      var i :| 0 <= i < |members| && members[i] == m;
    }
    if IsMember(members, o) {
      var i :| 0 <= i < |members| && MatchesId(o, members[i]);
      assert members[i] in members && Answers(o, members[i]);
    }
  }

  lemma {:induction false} FirstMatchIs(known: seq<OutputDevice>, id: Id) returns (i: nat)
    ensures FirstMatch(known, id).None? <==> forall j :: 0 <= j < |known| ==> !Answers(known[j], id)
    ensures FirstMatch(known, id).Some? ==> i < |known| && IsFirst(known, i, id) && FirstMatch(known, id).value == known[i]
  {
    i := 0;
    if known == [] || MatchesId(known[0], id) {
    } else {
      i := FirstMatchIs(known[1..], id);
      assert forall j :: 0 < j < |known| ==> known[j] == known[1..][j - 1];
      i := i + 1;
    }
  }

  lemma ContainsIff(members: seq<Id>, id: Id, known: seq<OutputDevice>)
    ensures Contains(members, id, known) <==> NamesMember(members, id, known)
  {
    var i := FirstMatchIs(known, id);
    if FirstMatch(known, id).Some? { IsMemberIff(members, known[i]); }
    if j :| 0 <= j < |known| && IsFirst(known, j, id) && exists m :: m in members && Answers(known[j], m) {
      assert FirstMatch(known, id).Some?;
      assert i == j;
    }
  }

  lemma SameOutputIff(a: Id, b: Id, known: seq<OutputDevice>)
    ensures SameOutput(a, b, known) <==> OneOutput(a, b, known)
  {
    if i :| 0 <= i < |known| && MatchesId(known[i], a) && MatchesId(known[i], b) {
      assert known[i] in known && Answers(known[i], a) && Answers(known[i], b);
    }
    if o: OutputDevice :| o in known && Answers(o, a) && Answers(o, b) {
      var i :| 0 <= i < |known| && known[i] == o;
    }
  }

  /** The persisted selection is the group's exactly when it is not empty, every id in it
    * names a member, and every member is named by some id in it. */
  lemma MatchesPersistedIff(members: seq<Id>, selected: seq<Id>, known: seq<OutputDevice>)
    ensures MatchesPersisted(members, selected, known) <==>
      && selected != []
      && (forall s :: s in selected ==> NamesMember(members, s, known))
      && (forall m :: m in members ==> exists s :: s in selected && OneOutput(s, m, known))
  {
    forall s ensures Contains(members, s, known) <==> NamesMember(members, s, known) { ContainsIff(members, s, known); }
    forall m ensures AnySame(selected, m, known) <==> exists s :: s in selected && OneOutput(s, m, known) {
      if s :| s in selected && OneOutput(s, m, known) {
        SameOutputIff(s, m, known);
        var i :| 0 <= i < |selected| && selected[i] == s;
      }
      if i :| 0 <= i < |selected| && SameOutput(selected[i], m, known) {
        SameOutputIff(selected[i], m, known);
        assert selected[i] in selected;
      }
    }
    assert forall i :: 0 <= i < |selected| ==> selected[i] in selected;
    assert forall i :: 0 <= i < |members| ==> members[i] in members;
  }

  predicate RepresentedBy(s: StoredState, m: Id, members: seq<Id>, known: seq<OutputDevice>) {
    Contains(members, s.outputId, known) && SameOutput(s.outputId, m, known)
  }

  predicate Represented(states: seq<StoredState>, m: Id, members: seq<Id>, known: seq<OutputDevice>) {
    exists i :: 0 <= i < |states| && RepresentedBy(states[i], m, members, known)
  }

  function Reselected(states: seq<StoredState>, members: seq<Id>, known: seq<OutputDevice>): (r: seq<StoredState>)
    ensures |r| == |states|
  {
    seq(|states|, i requires 0 <= i < |states| =>
      states[i].(selected := Contains(members, states[i].outputId, known)))
  }

  /** The loop over the group's ids from i on: those not represented are added. */
  function Completed(states: seq<StoredState>, members: seq<Id>, i: nat, known: seq<OutputDevice>): seq<StoredState>
    requires i <= |members|
    decreases |members| - i
  {
    if i == |members| then states
    else
      Completed(
        if Represented(states, members[i], members, known) then states
        else states + [Added(members[i])],
        members, i + 1, known)
  }

  /** replace_stored_output_selection on the parsed state list. */
  function Replaced(states: seq<StoredState>, members: seq<Id>, known: seq<OutputDevice>): seq<StoredState> {
    Completed(Reselected(states, members, known), members, 0, known)
  }

  method ReplaceStoredSelection(states: seq<StoredState>, members: seq<Id>, known: seq<OutputDevice>)
    returns (r: seq<StoredState>)
    ensures r == Replaced(states, members, known)
  {
    r := [];
    for i := 0 to |states|
      invariant r == Reselected(states[..i], members, known)
    {
      r := r + [states[i].(selected := Contains(members, states[i].outputId, known))];
    }
    assert states[..|states|] == states;
    for i := 0 to |members|
      invariant Completed(r, members, i, known) == Replaced(states, members, known)
    {
      if !Represented(r, members[i], members, known) {
        r := r + [Added(members[i])];
      }
    }
  }

  /** The persisted ids the matching predicate is asked about. */
  function SelectedStates(states: seq<StoredState>): seq<Id> {
    if states == [] then []
    else
      SelectedStates(states[..|states|-1])
      + if states[|states|-1].selected then [states[|states|-1].outputId] else []
  }

  /** Selected exactly when the group contains it. */
  predicate InStep(states: seq<StoredState>, members: seq<Id>, known: seq<OutputDevice>) {
    forall i :: 0 <= i < |states| ==> (states[i].selected <==> Contains(members, states[i].outputId, known))
  }

  lemma RepresentedGrows(states: seq<StoredState>, more: StoredState, m: Id, members: seq<Id>, known: seq<OutputDevice>)
    requires Represented(states, m, members, known) || RepresentedBy(more, m, members, known)
    ensures Represented(states + [more], m, members, known)
  {
    if i :| 0 <= i < |states| && RepresentedBy(states[i], m, members, known) {
      assert (states + [more])[i] == states[i];
    } else {
      assert (states + [more])[|states|] == more;
    }
  }

  /** The first n members are represented. */
  ghost predicate RepresentedUpTo(states: seq<StoredState>, members: seq<Id>, n: nat, known: seq<OutputDevice>)
    requires n <= |members|
  {
    forall j :: 0 <= j < n ==> Represented(states, members[j], members, known)
  }

  function Added(m: Id): StoredState { StoredState(m, true, 50, true) }

  lemma AddingKeeps(states: seq<StoredState>, members: seq<Id>, i: nat, known: seq<OutputDevice>)
    requires i < |members| && InStep(states, members, known) && RepresentedUpTo(states, members, i, known)
    ensures InStep(states + [Added(members[i])], members, known)
    ensures RepresentedUpTo(states + [Added(members[i])], members, i + 1, known)
  {
    assert RepresentedBy(Added(members[i]), members[i], members, known);
    forall j | 0 <= j < i + 1 ensures Represented(states + [Added(members[i])], members[j], members, known) {
      RepresentedGrows(states, Added(members[i]), members[j], members, known);
    }
  }

  lemma {:induction false} CompletedIsComplete(states: seq<StoredState>, members: seq<Id>, i: nat, known: seq<OutputDevice>)
    requires i <= |members| && InStep(states, members, known) && RepresentedUpTo(states, members, i, known)
    ensures InStep(Completed(states, members, i, known), members, known)
    ensures RepresentedUpTo(Completed(states, members, i, known), members, |members|, known)
    decreases |members| - i
  {
    if i == |members| {
    } else {
      if Represented(states, members[i], members, known) {
        CompletedIsComplete(states, members, i + 1, known);
      } else {
        AddingKeeps(states, members, i, known);
        CompletedIsComplete(states + [Added(members[i])], members, i + 1, known);
      }
    }
  }

  lemma ReplacedIsComplete(states: seq<StoredState>, members: seq<Id>, known: seq<OutputDevice>)
    ensures InStep(Replaced(states, members, known), members, known)
    ensures RepresentedUpTo(Replaced(states, members, known), members, |members|, known)
  {
    CompletedIsComplete(Reselected(states, members, known), members, 0, known);
  }

  lemma {:induction false} CompletedExtends(states: seq<StoredState>, members: seq<Id>, i: nat, known: seq<OutputDevice>)
    requires i <= |members|
    ensures states <= Completed(states, members, i, known)
    ensures forall j :: |states| <= j < |Completed(states, members, i, known)| ==>
      Completed(states, members, i, known)[j].outputId in members
      && Completed(states, members, i, known)[j] == StoredState(Completed(states, members, i, known)[j].outputId, true, 50, true)
    decreases |members| - i
  {
    if i == |members| {
    } else {
      if Represented(states, members[i], members, known) {
        CompletedExtends(states, members, i + 1, known);
      } else {
        CompletedExtends(states + [Added(members[i])], members, i + 1, known);
      }
    }
  }

  /** Activation changes nothing stored but the selection, in place, and appends only
    * members of the group, selected, visible and at volume 50. */
  lemma StoredStateIsKept(states: seq<StoredState>, members: seq<Id>, known: seq<OutputDevice>, i: nat)
    requires i < |Replaced(states, members, known)|
    ensures |states| <= |Replaced(states, members, known)|
    ensures var r := Replaced(states, members, known)[i];
      if i < |states| then
        r.outputId == states[i].outputId && r.volume == states[i].volume && r.visible == states[i].visible
      else r.outputId in members && r.selected && r.volume == 50 && r.visible
  {
    CompletedExtends(Reselected(states, members, known), members, 0, known);
  }

  lemma {:induction false} CompletedStays(states: seq<StoredState>, members: seq<Id>, i: nat, known: seq<OutputDevice>)
    requires i <= |members| && forall j :: i <= j < |members| ==> Represented(states, members[j], members, known)
    ensures Completed(states, members, i, known) == states
    decreases |members| - i
  {
    if i == |members| {
    } else {
      CompletedStays(states, members, i + 1, known);
    }
  }

  /** A second activation changes nothing. */
  lemma ReplacingTwice(states: seq<StoredState>, members: seq<Id>, known: seq<OutputDevice>)
    ensures Replaced(Replaced(states, members, known), members, known) == Replaced(states, members, known)
  {
    var r := Replaced(states, members, known);
    ReplacedIsComplete(states, members, known);
    assert Reselected(r, members, known) == r;
    CompletedStays(r, members, 0, known);
  }

  lemma {:induction false} SelectedStatesHas(states: seq<StoredState>, i: nat)
    requires i < |states| && states[i].selected
    ensures states[i].outputId in SelectedStates(states)
  {
    if i < |states| - 1 { SelectedStatesHas(states[..|states|-1], i); }
  }

  lemma {:induction false} SelectedStatesContained(states: seq<StoredState>, members: seq<Id>, known: seq<OutputDevice>)
    requires InStep(states, members, known)
    ensures forall i :: 0 <= i < |SelectedStates(states)| ==> Contains(members, SelectedStates(states)[i], known)
  {
    if states == [] {
    } else {
      assert states[|states|-1].selected ==> Contains(members, states[|states|-1].outputId, known);
      SelectedStatesContained(states[..|states|-1], members, known);
    }
  }

  lemma ContainsNeedsMembers(members: seq<Id>, id: Id, known: seq<OutputDevice>)
    requires Contains(members, id, known)
    ensures members != []
  {
  }

  /** Activation implies matching: after the stored selection has been replaced for
    * a group with members, the persisted predicate holds for that group, under any
    * known outputs and aliases and whatever was stored before. */
  lemma ActivationMatchesPersisted(states: seq<StoredState>, members: seq<Id>, known: seq<OutputDevice>)
    ensures MatchesPersisted(members, SelectedStates(Replaced(states, members, known)), known) <==> members != []
  {
    var r := Replaced(states, members, known);
    var selected := SelectedStates(r);
    ReplacedIsComplete(states, members, known);
    SelectedStatesContained(r, members, known);
    forall j | 0 <= j < |members| ensures AnySame(selected, members[j], known) {
      var i :| 0 <= i < |r| && RepresentedBy(r[i], members[j], members, known);
      SelectedStatesHas(r, i);
      var k :| 0 <= k < |selected| && selected[k] == r[i].outputId;
    }
    if members != [] { assert AnySame(selected, members[0], known); }
    if selected != [] { ContainsNeedsMembers(members, selected[0], known); }
  }
}
