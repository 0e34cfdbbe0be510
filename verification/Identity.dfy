/**
 * Discovery identities. One physical receiver can be announced under several
 * ids; the map keeps one entry per receiver and remembers the other ids as
 * aliases, promoting a better identity to be the key.
 */
module Identity {
  import opened Common
  import opened Devices
  import opened KeyOrder
  import opened Registry

  function LowerChar(c: char): char {
    if 'A' <= c <= 'Z' then ((c as int) + 32) as char else c
  }

  function LowerAscii(s: string): string {
    seq(|s|, i requires 0 <= i < |s| => LowerChar(s[i]))
  }

  predicate SamePhysicalReceiver(left: OutputDevice, right: OutputDevice) {
    && left.name != ""
    && left.endpointHost != ""
    && LowerAscii(left.name) == LowerAscii(right.name)
    && LowerAscii(left.endpointHost) == LowerAscii(right.endpointHost)
  }

  /** One ASCII letter in two cases, or the same character. */
  predicate SameLetter(c: char, d: char) {
    c == d || ('A' <= c <= 'Z' && d as int == c as int + 32) || ('A' <= d <= 'Z' && c as int == d as int + 32)
  }

  predicate SameIgnoringCase(a: string, b: string) {
    |a| == |b| && forall i :: 0 <= i < |a| ==> SameLetter(a[i], b[i])
  }

  lemma LowerFolds(a: string, b: string)
    ensures LowerAscii(a) == LowerAscii(b) <==> SameIgnoringCase(a, b)
  {
    if LowerAscii(a) == LowerAscii(b) {
      forall i | 0 <= i < |a| ensures SameLetter(a[i], b[i]) { assert LowerAscii(a)[i] == LowerAscii(b)[i]; }
    }
    if SameIgnoringCase(a, b) {
      forall i | 0 <= i < |a| ensures LowerAscii(a)[i] == LowerAscii(b)[i] { assert SameLetter(a[i], b[i]); }
    }
  }

  /** Two announcements are for one receiver exactly when both have a name and a host,
    * and these are the same up to the case of ASCII letters. */
  lemma SameReceiverIff(a: OutputDevice, b: OutputDevice)
    ensures SamePhysicalReceiver(a, b) <==>
      && a.name != "" && b.name != "" && a.endpointHost != "" && b.endpointHost != ""
      && SameIgnoringCase(a.name, b.name) && SameIgnoringCase(a.endpointHost, b.endpointHost)
  {
    LowerFolds(a.name, b.name);
    LowerFolds(a.endpointHost, b.endpointHost);
  }

  predicate PreferDeviceIdentity(candidate: OutputDevice, current: OutputDevice) {
    if candidate.supportsAirplay2 != current.supportsAirplay2 then candidate.supportsAirplay2
    else if (candidate.publicKey != "") != (current.publicKey != "") then candidate.publicKey != ""
    else |candidate.id.text| > |current.id.text|
  }

  function AppendAlias(device: OutputDevice, alias: Id): (r: OutputDevice)
    ensures r.(aliases := device.aliases) == device
    ensures device.aliases <= r.aliases
    ensures alias != NO_ID ==> MatchesId(r, alias)
    ensures forall a :: a in r.aliases ==> a in device.aliases || a == alias
  {
    if alias == NO_ID || alias == device.id || alias in device.aliases then device
    else device.(aliases := device.aliases + [alias])
  }

  function AppendAll(device: OutputDevice, aliases: seq<Id>): (r: OutputDevice)
    ensures r.(aliases := device.aliases) == device
    ensures device.aliases <= r.aliases
    ensures forall a :: a in aliases && a != NO_ID ==> MatchesId(r, a)
    ensures forall a :: a in r.aliases ==> a in device.aliases || a in aliases
    decreases |aliases|
  {
    if aliases == [] then device
    else
      var d := AppendAll(AppendAlias(device, aliases[0]), aliases[1..]);
      assert forall a :: a in aliases ==> a == aliases[0] || a in aliases[1..];
      d
  }

  function AppendAliases(device: OutputDevice, source: OutputDevice): OutputDevice {
    AppendAll(AppendAlias(device, source.id), source.aliases)
  }

  function Candidates(devices: Outputs, device: OutputDevice): set<Id> {
    set k | k in devices && k != device.id && SamePhysicalReceiver(devices[k], device)
  }

  /** The entry that find_if stops at: the least other key naming the same receiver. */
  function FirstMatch(devices: Outputs, device: OutputDevice): (r: Option<Id>)
    ensures r.Some? ==> r.value in devices && r.value != device.id
  {
    var ks := Candidates(devices, device);
    if ks == {} then None else Some(Least(ks))
  }

  /** The announced device carrying over what the entry under its own id knew. */
  function CarryOver(devices: Outputs, device: OutputDevice, numeric: string -> bool): (r: OutputDevice)
    ensures r.id == device.id
  {
    if device.id !in devices then device
    else
      var existing := devices[device.id];
      var d := AppendAll(device, existing.aliases);
      if numeric(existing.endpointHost) && !numeric(d.endpointHost) then d.(endpointHost := existing.endpointHost) else d
  }

  /** The current entry absorbs a less preferred identity. */
  function Absorb(current: OutputDevice, device: OutputDevice): OutputDevice {
    AppendAliases(current.(supportsLegacyL16 := current.supportsLegacyL16 || device.supportsLegacyL16), device)
  }

  /** The preferred identity takes over a current entry. */
  function TakeOver(device: OutputDevice, current: OutputDevice): OutputDevice {
    AppendAliases(device.(supportsLegacyL16 := device.supportsLegacyL16 || current.supportsLegacyL16), current)
  }

  /** numeric tells whether a host parses as an IPv4 or IPv6 address. */
  function Upsert(devices: Outputs, device: OutputDevice, numeric: string -> bool): Outputs {
    match FirstMatch(devices, device)
    case None =>
      devices[device.id := CarryOver(devices, device, numeric)]
    case Some(k) =>
      if !PreferDeviceIdentity(device, devices[k]) then
        devices[k := Absorb(devices[k], device)]
      else
        var rest := devices - {k};
        rest[device.id := CarryOver(rest, TakeOver(device, devices[k]), numeric)]
  }

  predicate KeysAreIds(devices: Outputs) {
    forall k | k in devices :: k != NO_ID && devices[k].id == k
  }

  /** The id is a key or an alias of some entry. */
  ghost predicate Knows(devices: Outputs, id: Id) {
    exists k :: k in devices && MatchesId(devices[k], id)
  }

  /** One announcement: the key discipline stays, and the known non-empty ids are
    * exactly the old ones together with the ids the announcement carries. */
  lemma UpsertKnows(devices: Outputs, device: OutputDevice, numeric: string -> bool, id: Id)
    requires KeysAreIds(devices) && device.id != NO_ID && id != NO_ID
    ensures KeysAreIds(Upsert(devices, device, numeric))
    ensures Knows(Upsert(devices, device, numeric), id) <==> Knows(devices, id) || MatchesId(device, id)
  {
    var after := Upsert(devices, device, numeric);
    var m := FirstMatch(devices, device);
    if m == None {
      CarryOverKnows(devices, device, numeric, id);
      PutKnows(devices, CarryOver(devices, device, numeric), id);
    } else {
      var k := m.value;
      if !PreferDeviceIdentity(device, devices[k]) {
        PutKnows(devices, Absorb(devices[k], device), id);
      } else {
        var rest := devices - {k};
        var d := TakeOver(device, devices[k]);
        CarryOverKnows(rest, d, numeric, id);
        PutKnows(rest, CarryOver(rest, d, numeric), id);
        assert Knows(devices, id) <==> Knows(rest, id) || MatchesId(devices[k], id) by {
          if Knows(devices, id) {
            var j :| j in devices && MatchesId(devices[j], id);
            if j != k { assert rest[j] == devices[j]; }
          }
          if Knows(rest, id) {
            var j :| j in rest && MatchesId(rest[j], id);
            assert devices[j] == rest[j];
          }
        }
      }
    }
  }

  lemma CarryOverKnows(devices: Outputs, device: OutputDevice, numeric: string -> bool, id: Id)
    requires KeysAreIds(devices) && id != NO_ID
    ensures MatchesId(CarryOver(devices, device, numeric), id)
       <==> MatchesId(device, id) || (device.id in devices && MatchesId(devices[device.id], id))
  {
  }

  lemma PutKnows(devices: Outputs, device: OutputDevice, id: Id)
    requires device.id in devices && MatchesId(devices[device.id], id) ==> MatchesId(device, id)
    ensures Knows(devices[device.id := device], id) <==> Knows(devices, id) || MatchesId(device, id)
  {
    var after := devices[device.id := device];
    if Knows(devices, id) {
      var j :| j in devices && MatchesId(devices[j], id);
      assert MatchesId(after[j], id);
    }
    if MatchesId(device, id) { assert MatchesId(after[device.id], id); }
    if Knows(after, id) {
      var j :| j in after && MatchesId(after[j], id);
      if j != device.id { assert MatchesId(devices[j], id); }
    }
  }

  /** A whole discovery history, announcement by announcement. */
  function UpsertAll(devices: Outputs, announced: seq<OutputDevice>, numeric: string -> bool): Outputs {
    if announced == [] then devices
    else
      Upsert(UpsertAll(devices, announced[..|announced|-1], numeric), announced[|announced|-1], numeric)
  }

  ghost predicate Announced(announced: seq<OutputDevice>, id: Id) {
    exists i :: 0 <= i < |announced| && MatchesId(announced[i], id)
  }

  /** No identity is forgotten and none is invented: after any history the known
    * ids are exactly those known before or ever announced. */
  lemma {:induction false} NoIdentityForgotten(
    devices: Outputs, announced: seq<OutputDevice>, numeric: string -> bool, id: Id)
    requires KeysAreIds(devices) && id != NO_ID
    requires forall d: OutputDevice :: d in announced ==> d.id != NO_ID
    ensures KeysAreIds(UpsertAll(devices, announced, numeric))
    ensures Knows(UpsertAll(devices, announced, numeric), id) <==> Knows(devices, id) || Announced(announced, id)
  {
    if announced == [] {
    } else {
      var n := |announced| - 1;
      var before, last := announced[..n], announced[n];
      NoIdentityForgotten(devices, before, numeric, id);
      UpsertKnows(UpsertAll(devices, before, numeric), last, numeric, id);
      AnnouncedLast(announced, id);
    }
  }

  lemma AnnouncedLast(announced: seq<OutputDevice>, id: Id)
    requires announced != []
    ensures Announced(announced, id)
       <==> Announced(announced[..|announced|-1], id) || MatchesId(announced[|announced|-1], id)
  {
    var before := announced[..|announced|-1];
    if Announced(announced, id) {
      var i :| 0 <= i < |announced| && MatchesId(announced[i], id);
      if i < |before| { assert before[i] == announced[i]; }
    }
    if Announced(before, id) {
      var i :| 0 <= i < |before| && MatchesId(before[i], id);
      assert announced[i] == before[i];
    }
  }

  // ---- which record is kept

  /** The key an entry is found under once a device was announced. */
  function KeyAfter(devices: Outputs, device: OutputDevice, k: Id): Id
    requires k in devices
  {
    if FirstMatch(devices, device) == Some(k) && PreferDeviceIdentity(device, devices[k]) then device.id else k
  }

  predicate HasKey(d: OutputDevice) { d.publicKey != "" }

  /** The fields that say what a receiver is, whatever names it has collected. */
  predicate SameReceiver(a: OutputDevice, b: OutputDevice) {
    && a.id == b.id && a.supportsAirplay2 == b.supportsAirplay2 && a.publicKey == b.publicKey
    && a.supportsLegacyL16 == b.supportsLegacyL16
  }

  lemma AppendKeepsReceiver(device: OutputDevice, source: OutputDevice, devices: Outputs, numeric: string -> bool)
    ensures SameReceiver(AppendAliases(device, source), device)
    ensures SameReceiver(CarryOver(devices, device, numeric), device)
  {
    var first := AppendAlias(device, source.id);
    assert first.(aliases := device.aliases) == device;
    assert AppendAll(first, source.aliases).(aliases := first.aliases) == first;
    if device.id in devices {
      assert AppendAll(device, devices[device.id].aliases).(aliases := device.aliases) == device;
    }
  }

  /** The record under the key afterwards, up to names and address. */
  lemma KeptRecord(devices: Outputs, device: OutputDevice, numeric: string -> bool, k: Id)
    requires KeysAreIds(devices) && FirstMatch(devices, device) == Some(k)
    ensures KeyAfter(devices, device, k) in Upsert(devices, device, numeric)
    ensures SameReceiver(Upsert(devices, device, numeric)[KeyAfter(devices, device, k)],
      (if PreferDeviceIdentity(device, devices[k]) then device else devices[k]).(
        supportsLegacyL16 := device.supportsLegacyL16 || devices[k].supportsLegacyL16))
  {
    var legacy := device.supportsLegacyL16 || devices[k].supportsLegacyL16;
    AppendKeepsReceiver(devices[k].(supportsLegacyL16 := legacy), device, devices, numeric);
    AppendKeepsReceiver(device.(supportsLegacyL16 := legacy), devices[k], devices, numeric);
    AppendKeepsReceiver(TakeOver(device, devices[k]), device, devices - {k}, numeric);
  }

  /** Of two records of one receiver the kept one supports AirPlay 2 if either does;
    * with equal support it has a public key if either has; with both equal its id is
    * the longer. The legacy format is supported if either record supports it. */
  lemma BetterRecordIsKept(devices: Outputs, device: OutputDevice, numeric: string -> bool, k: Id)
    requires KeysAreIds(devices) && FirstMatch(devices, device) == Some(k)
    ensures KeyAfter(devices, device, k) in Upsert(devices, device, numeric)
    ensures var kept := Upsert(devices, device, numeric)[KeyAfter(devices, device, k)]; var other := devices[k];
      && (kept.supportsAirplay2 <==> device.supportsAirplay2 || other.supportsAirplay2)
      && (kept.supportsLegacyL16 <==> device.supportsLegacyL16 || other.supportsLegacyL16)
      && (device.supportsAirplay2 == other.supportsAirplay2 ==> (HasKey(kept) <==> HasKey(device) || HasKey(other)))
      && (device.supportsAirplay2 == other.supportsAirplay2 && HasKey(device) == HasKey(other) ==>
            |kept.id.text| == Max(|device.id.text|, |k.text|))
  {
    KeptRecord(devices, device, numeric, k);
  }

  /** The announcement is stored under k as it is, in the place of what was there. */
  predicate Refreshes(devices: Outputs, device: OutputDevice, k: Id)
    requires k in devices
  {
    device.id == k && match FirstMatch(devices, device)
      case None => true
      case Some(j) => PreferDeviceIdentity(device, devices[j])
  }

  lemma RefreshedRecord(devices: Outputs, device: OutputDevice, numeric: string -> bool, k: Id)
    requires KeysAreIds(devices) && k in devices && Refreshes(devices, device, k)
    ensures k in Upsert(devices, device, numeric)
    ensures Upsert(devices, device, numeric)[k].supportsAirplay2 == device.supportsAirplay2
  {
    AppendKeepsReceiver(device, device, devices, numeric);
    var m := FirstMatch(devices, device);
    if m.Some? {
      var j := m.value;
      var d := device.(supportsLegacyL16 := device.supportsLegacyL16 || devices[j].supportsLegacyL16);
      AppendKeepsReceiver(d, devices[j], devices, numeric);
      AppendKeepsReceiver(TakeOver(device, devices[j]), device, devices - {j}, numeric);
    }
  }

  lemma UntouchedRecord(devices: Outputs, device: OutputDevice, numeric: string -> bool, k: Id)
    requires KeysAreIds(devices) && k in devices
    requires !Refreshes(devices, device, k) && FirstMatch(devices, device) != Some(k)
    ensures k in Upsert(devices, device, numeric) && Upsert(devices, device, numeric)[k] == devices[k]
  {
  }

  /** Any announcement: what becomes of one entry's support. */
  lemma SupportStep(devices: Outputs, device: OutputDevice, numeric: string -> bool, k: Id)
    requires KeysAreIds(devices) && k in devices
    ensures KeyAfter(devices, device, k) in Upsert(devices, device, numeric)
    ensures Upsert(devices, device, numeric)[KeyAfter(devices, device, k)].supportsAirplay2 <==>
      if Refreshes(devices, device, k) then device.supportsAirplay2
      else devices[k].supportsAirplay2 || (FirstMatch(devices, device) == Some(k) && device.supportsAirplay2)
  {
    if Refreshes(devices, device, k) {
      RefreshedRecord(devices, device, numeric, k);
    } else if FirstMatch(devices, device) == Some(k) {
      KeptRecord(devices, device, numeric, k);
    } else {
      UntouchedRecord(devices, device, numeric, k);
    }
  }

  /** The key an entry is found under after a history. */
  function KeyAt(devices: Outputs, announced: seq<OutputDevice>, numeric: string -> bool, k: Id): (r: Id)
    requires KeysAreIds(devices) && k in devices && forall d: OutputDevice :: d in announced ==> d.id != NO_ID
    ensures KeysAreIds(UpsertAll(devices, announced, numeric)) && r in UpsertAll(devices, announced, numeric)
  {
    if announced == [] then k
    else
      var n := |announced| - 1;
      var before := UpsertAll(devices, announced[..n], numeric);
      var here := KeyAt(devices, announced[..n], numeric, k);
      SupportStep(before, announced[n], numeric, here);
      UpsertKnows(before, announced[n], numeric, announced[n].id);
      KeyAfter(before, announced[n], here)
  }

  /** What one announcement says about the support of the receiver under a key. */
  datatype Say = Gains | Withdraws | Silent

  /** Withdraws is a record without AirPlay 2 under the entry's own id. */
  function SayOf(devices: Outputs, device: OutputDevice, k: Id): Say
    requires k in devices
  {
    if Refreshes(devices, device, k) then if device.supportsAirplay2 then Gains else Withdraws
    else if FirstMatch(devices, device) == Some(k) && device.supportsAirplay2 then Gains
    else Silent
  }

  /** What every announcement of a history says about the receiver k began as. */
  function Says(devices: Outputs, announced: seq<OutputDevice>, numeric: string -> bool, k: Id): (r: seq<Say>)
    requires KeysAreIds(devices) && k in devices && forall d: OutputDevice :: d in announced ==> d.id != NO_ID
    ensures |r| == |announced|
  {
    if announced == [] then []
    else
      var init := announced[..|announced|-1];
      Says(devices, init, numeric, k)
      + [SayOf(UpsertAll(devices, init, numeric), announced[|announced|-1], KeyAt(devices, init, numeric, k))]
  }

  /** On at first or switched on at some point, and not withdrawn later. */
  ghost predicate StaysOn(start: bool, says: seq<Say>) {
    || (start && forall j :: 0 <= j < |says| ==> !says[j].Withdraws?)
    || exists i :: 0 <= i < |says| && says[i].Gains? && NoneWithdraws(says, i)
  }

  predicate NoneWithdraws(says: seq<Say>, i: nat) { forall j :: i < j < |says| ==> !says[j].Withdraws? }

  lemma StaysOnSnoc(start: bool, says: seq<Say>, x: Say)
    ensures StaysOn(start, says + [x]) <==> x.Gains? || (StaysOn(start, says) && !x.Withdraws?)
  {
    var all := says + [x];
    assert all[|says|] == x;
    forall i: nat | i < |says| ensures NoneWithdraws(all, i) <==> NoneWithdraws(says, i) && !x.Withdraws? {
      assert forall j :: i < j < |says| ==> all[j] == says[j];
    }
    assert NoneWithdraws(all, |says|);
    assert forall j :: 0 <= j < |says| ==> all[j] == says[j];
  }

  /** Over any history: the entry a receiver ends under supports AirPlay 2 exactly when
    * it did at first, or some announcement for it did, and no later one under the
    * entry's own id withdrew it. Other records of the receiver never do. */
  lemma {:induction false} SupportIsKept(
    devices: Outputs, announced: seq<OutputDevice>, numeric: string -> bool, k: Id)
    requires KeysAreIds(devices) && k in devices && forall d: OutputDevice :: d in announced ==> d.id != NO_ID
    ensures UpsertAll(devices, announced, numeric)[KeyAt(devices, announced, numeric, k)].supportsAirplay2
       <==> StaysOn(devices[k].supportsAirplay2, Says(devices, announced, numeric, k))
  {
    if announced == [] {
    } else {
      var n := |announced| - 1;
      var init, last := announced[..n], announced[n];
      var before, here := UpsertAll(devices, init, numeric), KeyAt(devices, init, numeric, k);
      SupportIsKept(devices, init, numeric, k);
      SupportStep(before, last, numeric, here);
      StaysOnSnoc(devices[k].supportsAirplay2, Says(devices, init, numeric, k), SayOf(before, last, here));
    }
  }

  // ---- synchronising the registry with discovery

  datatype UserState = UserState(selected: bool, volume: int, offsetMs: int, measuredLatencyMs: int, visible: bool)

  function UserStateOf(d: OutputDevice): UserState {
    UserState(d.selected, d.volume, d.offsetMs, d.measuredLatencyMs, d.visibleInDropdown)
  }

  function WithUserStateOf(device: OutputDevice, existing: OutputDevice): OutputDevice {
    device.(
      selected := existing.selected,
      volume := existing.volume,
      offsetMs := existing.offsetMs,
      measuredLatencyMs := existing.measuredLatencyMs,
      visibleInDropdown := existing.visibleInDropdown)
  }

  /** The first of the ids that the registry holds. */
  function FirstHeld(held: set<Id>, ids: seq<Id>): (r: Option<Id>)
    ensures r.Some? ==> r.value in held && r.value in ids
    ensures r.None? ==> forall a :: a in ids ==> a !in held
  {
    if ids == [] then None else if ids[0] in held then Some(ids[0]) else FirstHeld(held, ids[1..])
  }

  /** The id whose user state a device inherits. */
  function Heir(held: set<Id>, device: OutputDevice): (r: Option<Id>)
    ensures r.Some? ==> r.value in held
  {
    if device.id in held then Some(device.id) else FirstHeld(held, device.aliases)
  }

  function Merged(registry: Outputs, device: OutputDevice): (r: OutputDevice)
    ensures r.id == device.id && InRange(r) == r
  {
    var h := Heir(registry.Keys, device);
    InRange(if h.Some? then WithUserStateOf(device, registry[h.value]) else device)
  }

  /** The loop over the discovered devices still pending, in key order. */
  function SyncFrom(registry: Outputs, devices: Outputs, pending: set<Id>): Outputs
    requires pending <= devices.Keys
    decreases |pending|
  {
    if pending == {} then registry
    else
      var k := Least(pending);
      SyncFrom(registry[k := Merged(registry, devices[k])], devices, pending - {k})
  }

  function Sync(registry: Outputs, devices: Outputs): Outputs {
    Kept(SyncFrom(registry, devices, devices.Keys), devices.Keys, {})
  }

  /** Discovery owns every field except the user state and the clamping. */
  predicate SameDevice(a: OutputDevice, b: OutputDevice) {
    WithUserStateOf(a, b) == b
  }

  /** What the registry holds when the loop reaches key k: the old ids and the
    * discovered ids before k. */
  ghost predicate HeldAt(held: set<Id>, registry: Outputs, devices: Outputs, k: Id) {
    forall j :: j in held <==> j in registry || (j in devices && Less(j, k))
  }

  /** The record a sync leaves under key k. */
  ghost predicate SyncedAt(after: Outputs, registry: Outputs, devices: Outputs, k: Id) {
    && k in after
    && k in devices
    && after[k].id == k
    && InRange(after[k]) == after[k]
    && SameDevice(after[k], devices[k])
    && (k in registry ==> UserStateOf(after[k]) == UserStateOf(registry[k]))
    && (k !in registry ==>
          forall held :: HeldAt(held, registry, devices, k) ==>
            match FirstHeld(held, devices[k].aliases)
            case None => UserStateOf(after[k]) == UserStateOf(InRange(devices[k]))
            case Some(a) =>
              a in after + registry
              && UserStateOf(after[k]) == UserStateOf(if a in registry then registry[a] else after[a]))
  }

  lemma HeldIsNow(registry: Outputs, now: Outputs, devices: Outputs, pending: set<Id>, held: set<Id>)
    requires pending <= devices.Keys && pending != {}
    requires SyncInvariant(registry, now, devices, pending)
    requires HeldAt(held, registry, devices, Least(pending))
    ensures held == now.Keys
  {
    var k := Least(pending);
    LeastIsLeast(pending);
    forall j ensures j in held <==> j in now {
      if j in devices && j in pending && Less(j, k) { Asymmetric(j, k); Irreflexive(k); }
    }
  }

  /** The record stored for the least pending key. */
  lemma MergedAgrees(registry: Outputs, now: Outputs, devices: Outputs, pending: set<Id>)
    requires RegistryOk(registry) && KeysAreIds(devices)
    requires pending <= devices.Keys && pending != {}
    requires SyncInvariant(registry, now, devices, pending)
    ensures SyncedAt(now[Least(pending) := Merged(now, devices[Least(pending)])], registry, devices, Least(pending))
  {
    var k := Least(pending);
    var d := devices[k];
    var m := Merged(now, d);
    if k in registry {
      assert UserStateOf(now[k]) == UserStateOf(registry[k]);
      assert InRange(registry[k]) == registry[k];
    } else {
      assert k !in now;
      forall held | HeldAt(held, registry, devices, k) ensures held == now.Keys {
        HeldIsNow(registry, now, devices, pending, held);
      }
      var h := FirstHeld(now.Keys, d.aliases);
      if h.Some? {
        assert InRange(now[h.value]) == now[h.value];
        assert UserStateOf(m) == UserStateOf(now[h.value]);
      }
    }
  }

  /** Records stored earlier are not disturbed. */
  lemma SyncedStays(
    registry: Outputs, now: Outputs, devices: Outputs, pending: set<Id>, record: OutputDevice, j: Id)
    requires pending <= devices.Keys && pending != {}
    requires SyncInvariant(registry, now, devices, pending)
    requires j in devices && j !in pending
    ensures SyncedAt(now[Least(pending) := record], registry, devices, j)
  {
    var k := Least(pending);
    var next := now[k := record];
    assert SyncedAt(now, registry, devices, j);
    assert Less(j, k);
    forall held | j !in registry && HeldAt(held, registry, devices, j)
      ensures match FirstHeld(held, devices[j].aliases)
        case None => UserStateOf(next[j]) == UserStateOf(InRange(devices[j]))
        case Some(a) =>
          a in next + registry && UserStateOf(next[j]) == UserStateOf(if a in registry then registry[a] else next[a])
    {
      var h := FirstHeld(held, devices[j].aliases);
      if h.Some? && h.value == k && k !in registry { Asymmetric(j, k); }
    }
  }

  lemma VisitedRecords(registry: Outputs, now: Outputs, devices: Outputs, pending: set<Id>, j: Id)
    requires RegistryOk(registry) && KeysAreIds(devices)
    requires pending <= devices.Keys && pending != {}
    requires SyncInvariant(registry, now, devices, pending)
    requires j in devices && j !in pending - {Least(pending)}
    ensures SyncedAt(now[Least(pending) := Merged(now, devices[Least(pending)])], registry, devices, j)
  {
    MergedAgrees(registry, now, devices, pending);
    if j != Least(pending) {
      SyncedStays(registry, now, devices, pending, Merged(now, devices[Least(pending)]), j);
    }
  }

  lemma UserStateStays(registry: Outputs, now: Outputs, devices: Outputs, pending: set<Id>, j: Id)
    requires RegistryOk(registry) && KeysAreIds(devices)
    requires pending <= devices.Keys && pending != {}
    requires SyncInvariant(registry, now, devices, pending)
    requires j in registry
    ensures UserStateOf(now[Least(pending) := Merged(now, devices[Least(pending)])][j]) == UserStateOf(registry[j])
  {
    if j == Least(pending) { VisitedRecords(registry, now, devices, pending, j); }
  }

  lemma VisitedComeFirst(devices: Outputs, pending: set<Id>, j: Id, i: Id)
    requires pending <= devices.Keys && pending != {}
    requires forall j, k :: j in devices && j !in pending && k in pending ==> Less(j, k)
    requires j in devices && j !in pending - {Least(pending)} && i in pending - {Least(pending)}
    ensures Less(j, i)
  {
    LeastIsLeast(pending);
    if j == Least(pending) { assert LessEq(j, i); }
  }

  lemma SyncStepKeys(registry: Outputs, now: Outputs, devices: Outputs, pending: set<Id>)
    requires KeysAreIds(devices) && RegistryOk(now)
    requires pending <= devices.Keys && pending != {} && now.Keys == registry.Keys + (devices.Keys - pending)
    ensures var record := Merged(now, devices[Least(pending)]); var next := now[record.id := record];
      record.id == Least(pending) && RegistryOk(next)
      && next.Keys == registry.Keys + (devices.Keys - (pending - {record.id}))
  {
    PutKeepsRegistryOk(now, Merged(now, devices[Least(pending)]));
  }

  lemma SyncStep(registry: Outputs, now: Outputs, devices: Outputs, pending: set<Id>)
    requires RegistryOk(registry) && KeysAreIds(devices)
    requires pending <= devices.Keys && pending != {}
    requires SyncInvariant(registry, now, devices, pending)
    ensures SyncInvariant(registry, now[Least(pending) := Merged(now, devices[Least(pending)])], devices, pending - {Least(pending)})
  {
    var record := Merged(now, devices[Least(pending)]);
    SyncStepKeys(registry, now, devices, pending);
    forall j | j in registry ensures UserStateOf(now[record.id := record][j]) == UserStateOf(registry[j]) {
      UserStateStays(registry, now, devices, pending, j);
    }
    forall j, i | j in devices && j !in pending - {record.id} && i in pending - {record.id} ensures Less(j, i) {
      VisitedComeFirst(devices, pending, j, i);
    }
    forall j | j in devices && j !in pending - {record.id}
      ensures SyncedAt(now[record.id := record], registry, devices, j)
    {
      VisitedRecords(registry, now, devices, pending, j);
    }
  }

  lemma PutKeepsRegistryOk(registry: Outputs, record: OutputDevice)
    requires RegistryOk(registry) && record.id != NO_ID && InRange(record) == record
    ensures RegistryOk(registry[record.id := record])
  {
  }

  /** While the loop runs: visited keys are final, the others are as before. */
  ghost predicate SyncInvariant(registry: Outputs, now: Outputs, devices: Outputs, pending: set<Id>) {
    && RegistryOk(now)
    && now.Keys == registry.Keys + (devices.Keys - pending)
    && (forall j, k :: j in devices && j !in pending && k in pending ==> Less(j, k))
    && (forall k :: k in registry ==> UserStateOf(now[k]) == UserStateOf(registry[k]))
    && (forall k :: k in devices && k !in pending ==> SyncedAt(now, registry, devices, k))
  }

  lemma {:induction false} SyncFromAgrees(registry: Outputs, now: Outputs, devices: Outputs, pending: set<Id>)
    requires RegistryOk(registry) && KeysAreIds(devices)
    requires pending <= devices.Keys
    requires SyncInvariant(registry, now, devices, pending)
    ensures SyncInvariant(registry, SyncFrom(now, devices, pending), devices, {})
    decreases |pending|
  {
    if pending == {} {
    } else {
      var k := Least(pending);
      SyncStep(registry, now, devices, pending);
      SyncFromAgrees(registry, now[k := Merged(now, devices[k])], devices, pending - {k});
    }
  }

  /** The registry agrees with discovery: same ids, discovery's own fields, user
    * state kept under an unchanged id and inherited from the first held alias
    * under a new one. */
  lemma SyncAgrees(registry: Outputs, devices: Outputs)
    requires RegistryOk(registry) && KeysAreIds(devices)
    ensures RegistryOk(Sync(registry, devices))
    ensures Sync(registry, devices).Keys == devices.Keys
    ensures forall k :: k in devices ==> SyncedAt(Sync(registry, devices), registry, devices, k)
  {
    SyncFromAgrees(registry, registry, devices, devices.Keys);
    var full := SyncFrom(registry, devices, devices.Keys);
    var after := Sync(registry, devices);
    forall k | k in devices ensures SyncedAt(after, registry, devices, k) {
      assert SyncedAt(full, registry, devices, k);
    }
  }

  // ---- resolving historic ids

  /** The listing walk of resolve_output_id: the first record matching the id. */
  function ResolveFrom(registry: Outputs, keys: set<Id>, id: Id): Id
    requires keys <= registry.Keys
    decreases |keys|
  {
    if keys == {} then id
    else if MatchesId(registry[Least(keys)], id) then registry[Least(keys)].id
    else ResolveFrom(registry, keys - {Least(keys)}, id)
  }

  function Resolve(registry: Outputs, id: Id): Id { ResolveFrom(registry, registry.Keys, id) }

  lemma {:induction false} ResolveFromFinds(registry: Outputs, keys: set<Id>, id: Id)
    requires keys <= registry.Keys
    requires forall k :: k in registry ==> registry[k].id == k
    ensures var r := ResolveFrom(registry, keys, id);
      if exists k :: k in keys && MatchesId(registry[k], id)
      then r in keys && MatchesId(registry[r], id)
           && forall k :: k in keys && MatchesId(registry[k], id) ==> LessEq(r, k)
      else r == id
    decreases |keys|
  {
    if keys == {} {
    } else {
      LeastIsLeast(keys);
      if !MatchesId(registry[Least(keys)], id) {
        ResolveFromFinds(registry, keys - {Least(keys)}, id);
      }
    }
  }

  /** After a sync every id discovery ever knew resolves to a registered output
    * that carries it; any other id comes back unchanged and unregistered. */
  lemma HistoricIdsResolve(registry: Outputs, devices: Outputs, id: Id)
    requires RegistryOk(registry) && KeysAreIds(devices)
    ensures var after := Sync(registry, devices);
      if Knows(devices, id)
      then Resolve(after, id) in after && MatchesId(after[Resolve(after, id)], id)
      else Resolve(after, id) == id && id !in after
  {
    var after := Sync(registry, devices);
    SyncAgrees(registry, devices);
    ResolveFromFinds(after, after.Keys, id);
    forall k | k in devices ensures MatchesId(after[k], id) <==> MatchesId(devices[k], id) {
      assert SyncedAt(after, registry, devices, k);
    }
  }

  /** Any number of promotions between two syncs: every id known before or
    * announced since still names a registered output afterwards. */
  lemma HistorySurvivesPromotions(
    registry: Outputs, devices: Outputs, announced: seq<OutputDevice>, numeric: string -> bool, id: Id)
    requires RegistryOk(registry) && KeysAreIds(devices) && id != NO_ID
    requires forall d: OutputDevice :: d in announced ==> d.id != NO_ID
    requires Knows(devices, id) || Announced(announced, id)
    ensures Resolve(Sync(registry, UpsertAll(devices, announced, numeric)), id)
         in Sync(registry, UpsertAll(devices, announced, numeric))
  {
    NoIdentityForgotten(devices, announced, numeric, id);
    HistoricIdsResolve(registry, UpsertAll(devices, announced, numeric), id);
  }

  // ---- where a user state comes from

  /** The registered id, or the discovered one, whose user state an entry ends up with. */
  datatype Origin = Registered(id: Id) | Discovered(id: Id)

  function Before(devices: Outputs, k: Id): set<Id> { set j | j in devices && Less(j, k) }

  lemma BeforeShrinks(devices: Outputs, j: Id, k: Id)
    requires j in Before(devices, k)
    ensures Before(devices, j) < Before(devices, k)
  {
    Irreflexive(j);
    forall i | i in Before(devices, j) ensures i in Before(devices, k) { Transitive(i, j, k); }
  }

  /** The walk through first held names; it only goes to lesser keys. */
  function OriginOf(registered: set<Id>, devices: Outputs, k: Id): (o: Origin)
    requires k in devices
    ensures if o.Registered? then o.id in registered else o.id in devices
    decreases Before(devices, k)
  {
    if k in registered then Registered(k)
    else
      match FirstHeld(registered + Before(devices, k), devices[k].aliases)
      case None => Discovered(k)
      case Some(b) =>
        if b in registered then Registered(b)
        else
          BeforeShrinks(devices, b, k);
          OriginOf(registered, devices, b)
  }

  function StateFrom(registry: Outputs, devices: Outputs, o: Origin): UserState
    requires if o.Registered? then o.id in registry else o.id in devices
  {
    if o.Registered? then UserStateOf(registry[o.id]) else UserStateOf(InRange(devices[o.id]))
  }

  lemma {:induction false} SyncedFrom(after: Outputs, registry: Outputs, devices: Outputs, k: Id)
    requires k in devices && after.Keys == devices.Keys
    requires forall j :: j in devices ==> SyncedAt(after, registry, devices, j)
    ensures UserStateOf(after[k]) == StateFrom(registry, devices, OriginOf(registry.Keys, devices, k))
    decreases Before(devices, k)
  {
    assert SyncedAt(after, registry, devices, k);
    if k in registry {
    } else {
      var held := registry.Keys + Before(devices, k);
      assert HeldAt(held, registry, devices, k);
      var h := FirstHeld(held, devices[k].aliases);
      if h.Some? && h.value !in registry {
        BeforeShrinks(devices, h.value, k);
        SyncedFrom(after, registry, devices, h.value);
      }
    }
  }

  /** After a sync every output has the user state of its origin. */
  lemma UserStateOrigin(registry: Outputs, devices: Outputs, k: Id)
    requires RegistryOk(registry) && KeysAreIds(devices) && k in devices
    ensures k in Sync(registry, devices)
    ensures UserStateOf(Sync(registry, devices)[k]) == StateFrom(registry, devices, OriginOf(registry.Keys, devices, k))
  {
    SyncAgrees(registry, devices);
    SyncedFrom(Sync(registry, devices), registry, devices, k);
  }

  /** The output under k takes over what the user set for the registered id a. */
  ghost predicate Inherits(registry: Outputs, devices: Outputs, k: Id, a: Id) {
    k in Sync(registry, devices) && a in registry
    && UserStateOf(Sync(registry, devices)[k]) == UserStateOf(registry[a])
  }

  /** A registry with the same ids in which a alone has the given visibility. */
  function Marked(registry: Outputs, a: Id, on: bool): Outputs {
    map j | j in registry :: registry[j].(visibleInDropdown := if j == a then on else !on)
  }

  lemma OriginInherits(registry: Outputs, devices: Outputs, k: Id, a: Id)
    requires RegistryOk(registry) && KeysAreIds(devices) && k in devices
    requires OriginOf(registry.Keys, devices, k) == Registered(a)
    ensures Inherits(registry, devices, k, a)
  {
    UserStateOrigin(registry, devices, k);
  }

  lemma OtherOriginDiffers(registry: Outputs, devices: Outputs, k: Id, a: Id) returns (r: Outputs)
    requires RegistryOk(registry) && KeysAreIds(devices) && k in devices && a in registry
    requires OriginOf(registry.Keys, devices, k) != Registered(a)
    ensures RegistryOk(r) && r.Keys == registry.Keys && !Inherits(r, devices, k, a)
  {
    var o := OriginOf(registry.Keys, devices, k);
    r := Marked(registry, a, if o.Registered? then true else !devices[o.id].visibleInDropdown);
    assert r.Keys == registry.Keys;
    UserStateOrigin(r, devices, k);
  }

  /** Whatever the user had set: the output under k inherits from a if and only if a is
    * its origin. */
  lemma InheritsIff(registry: Outputs, devices: Outputs, k: Id, a: Id)
    requires RegistryOk(registry) && KeysAreIds(devices) && k in devices && a in registry
    ensures (forall r: Outputs :: RegistryOk(r) && r.Keys == registry.Keys ==> Inherits(r, devices, k, a))
       <==> OriginOf(registry.Keys, devices, k) == Registered(a)
  {
    if OriginOf(registry.Keys, devices, k) == Registered(a) {
      forall r: Outputs | RegistryOk(r) && r.Keys == registry.Keys ensures Inherits(r, devices, k, a) {
        OriginInherits(r, devices, k, a);
      }
    } else {
      var r := OtherOriginDiffers(registry, devices, k, a);
    }
  }

  // ---- user state across promotions

  lemma {:induction false} FirstHeldSubset(big: set<Id>, small: set<Id>, ids: seq<Id>, a: Id)
    requires FirstHeld(big, ids) == Some(a) && a in small
    requires forall x :: x in ids && x in small ==> x in big
    ensures FirstHeld(small, ids) == Some(a)
  {
    if ids[0] !in big { FirstHeldSubset(big, small, ids[1..], a); }
  }

  lemma {:induction false} FirstHeldPrefix(held: set<Id>, ids: seq<Id>, more: seq<Id>)
    requires ids <= more && FirstHeld(held, ids).Some?
    ensures FirstHeld(held, more) == FirstHeld(held, ids)
  {
    if ids[0] !in held { FirstHeldPrefix(held, ids[1..], more[1..]); }
  }

  /** Appending aliases to a device that has no held one finds the held one they have. */
  lemma {:induction false} FirstHeldAppended(held: set<Id>, device: OutputDevice, aliases: seq<Id>)
    requires FirstHeld(held, device.aliases).None? && FirstHeld(held, aliases).Some?
    requires device.id !in held && NO_ID !in held
    ensures FirstHeld(held, AppendAll(device, aliases).aliases) == FirstHeld(held, aliases)
    decreases |aliases|
  {
    var next := AppendAlias(device, aliases[0]);
    if aliases[0] in held {
      assert next.aliases == device.aliases + [aliases[0]];
      FirstHeldLast(held, device.aliases, aliases[0]);
      FirstHeldPrefix(held, next.aliases, AppendAll(device, aliases).aliases);
    } else {
      assert FirstHeld(held, next.aliases).None?;
      FirstHeldAppended(held, next, aliases[1..]);
    }
  }

  lemma {:induction false} FirstHeldLast(held: set<Id>, ids: seq<Id>, a: Id)
    requires FirstHeld(held, ids).None? && a in held
    ensures FirstHeld(held, ids + [a]) == Some(a)
  {
    if ids == [] {
    } else {
      assert (ids + [a])[1..] == ids[1..] + [a];
      FirstHeldLast(held, ids[1..], a);
    }
  }

  /** What a sync looks at when it reaches the new key k. */
  function HeldBeside(registry: Outputs, devices: Outputs, k: Id): set<Id> {
    registry.Keys + devices.Keys - {k}
  }

  /** The entry under k stands for the registered id a: it is a, or it is new and a
    * is the first of its aliases that names a registered or a discovered output. */
  ghost predicate StandsFor(registry: Outputs, devices: Outputs, k: Id, a: Id) {
    && k in devices && a in registry
    && (k == a || (k !in registry && FirstHeld(HeldBeside(registry, devices, k), devices[k].aliases) == Some(a)))
  }

  /** An entry that stands for a registered id has it for its origin. */
  lemma StandingOrigin(registry: Outputs, devices: Outputs, k: Id, a: Id)
    requires StandsFor(registry, devices, k, a)
    ensures OriginOf(registry.Keys, devices, k) == Registered(a)
  {
    if k != a {
      Irreflexive(k);
      FirstHeldSubset(
        HeldBeside(registry, devices, k), registry.Keys + Before(devices, k), devices[k].aliases, a);
    }
  }

  /** The names that would come in front of an entry's own name no held id but a. */
  predicate FrontOk(held: set<Id>, front: seq<Id>, a: Id) {
    FirstHeld(held, front).None? || FirstHeld(held, front) == Some(a)
  }

  /** An announcement under another id does not become an entry that comes before a
    * among the names of entry k. */
  predicate NoNewName(registry: Outputs, devices: Outputs, id: Id, k: Id, a: Id)
    requires k in devices
  {
    k == a || id in registry || id !in devices[k].aliases
  }

  /** What an announcement may do to the receiver under key k that stands for a: refresh
    * it, be absorbed by it or by another, promote it, or concern any other receiver.
    * Excluded is only what puts another held id before a among its names, and a
    * promotion to an id with a registered state of its own. */
  predicate Compatible(registry: Outputs, devices: Outputs, device: OutputDevice, k: Id, a: Id)
    requires k in devices
  {
    && device.id != NO_ID
    && match FirstMatch(devices, device)
       case None =>
         if device.id == k then k == a || FrontOk(HeldBeside(registry, devices, k), device.aliases, a)
         else NoNewName(registry, devices, device.id, k, a)
       case Some(j) =>
         PreferDeviceIdentity(device, devices[j]) ==>
           if j == k then
             device.id == a
             || (device.id !in registry && FrontOk(HeldBeside(registry, devices - {k}, device.id), device.aliases, a))
           else if device.id == k then
             k == a || FrontOk(HeldBeside(registry, devices - {j}, k), TakeOver(device, devices[j]).aliases, a)
           else NoNewName(registry, devices, device.id, k, a)
  }

  /** Names that pass FrontOk, followed by names of which a is the first held one. */
  lemma FrontThenOwn(held: set<Id>, device: OutputDevice, own: seq<Id>, a: Id)
    requires device.id !in held && NO_ID !in held
    requires FrontOk(held, device.aliases, a) && FirstHeld(held, own) == Some(a)
    ensures FirstHeld(held, AppendAll(device, own).aliases) == Some(a)
  {
    if FirstHeld(held, device.aliases).None? {
      FirstHeldAppended(held, device, own);
    } else {
      FirstHeldPrefix(held, device.aliases, AppendAll(device, own).aliases);
    }
  }

  /** A new record under the entry's key that carries over the entry's names. */
  lemma CarriedStands(registry: Outputs, devices: Outputs, rest: Outputs, device: OutputDevice, numeric: string -> bool, a: Id)
    requires RegistryOk(registry) && KeysAreIds(devices) && StandsFor(registry, devices, device.id, a)
    requires rest.Keys <= devices.Keys && device.id in rest && rest[device.id] == devices[device.id]
    requires device.id == a || FrontOk(HeldBeside(registry, rest, device.id), device.aliases, a)
    ensures StandsFor(registry, rest[device.id := CarryOver(rest, device, numeric)], device.id, a)
  {
    var k := device.id;
    var after := rest[k := CarryOver(rest, device, numeric)];
    var held := HeldBeside(registry, rest, k);
    assert HeldBeside(registry, after, k) == held;
    if k != a {
      FirstHeldSubset(HeldBeside(registry, devices, k), held, devices[k].aliases, a);
      FrontThenOwn(held, device, devices[k].aliases, a);
    }
  }

  lemma TakenOverHeld(held: set<Id>, device: OutputDevice, current: OutputDevice, a: Id)
    requires device.id !in held && NO_ID !in held && a in held
    requires FrontOk(held, device.aliases, a) && current.id != NO_ID && current.id != device.id
    requires current.id == a || (current.id !in held && FirstHeld(held, current.aliases) == Some(a))
    ensures FirstHeld(held, TakeOver(device, current).aliases) == Some(a)
  {
    var first := AppendAlias(device.(supportsLegacyL16 := device.supportsLegacyL16 || current.supportsLegacyL16), current.id);
    if FirstHeld(held, device.aliases).None? && current.id == a {
      FirstHeldLast(held, device.aliases, a);
    } else if FirstHeld(held, device.aliases).None? {
      assert FirstHeld(held, first.aliases).None?;
    } else {
      FirstHeldPrefix(held, device.aliases, first.aliases);
    }
    if FirstHeld(held, first.aliases).Some? {
      FirstHeldPrefix(held, first.aliases, TakeOver(device, current).aliases);
    } else {
      FirstHeldAppended(held, first, current.aliases);
    }
  }

  lemma PromotionStands(registry: Outputs, devices: Outputs, device: OutputDevice, numeric: string -> bool, k: Id, a: Id)
    requires RegistryOk(registry) && KeysAreIds(devices) && StandsFor(registry, devices, k, a)
    requires device.id != NO_ID && device.id !in registry
    requires FrontOk(HeldBeside(registry, devices - {k}, device.id), device.aliases, a)
    requires FirstMatch(devices, device) == Some(k) && PreferDeviceIdentity(device, devices[k])
    ensures StandsFor(registry, Upsert(devices, device, numeric), device.id, a)
  {
    var after := Upsert(devices, device, numeric);
    var rest := devices - {k};
    var taken := TakeOver(device, devices[k]);
    var held := HeldBeside(registry, rest, device.id);
    assert after == rest[device.id := CarryOver(rest, taken, numeric)];
    assert HeldBeside(registry, after, device.id) == held;
    if k != a {
      FirstHeldSubset(HeldBeside(registry, devices, k), held, devices[k].aliases, a);
    }
    TakenOverHeld(held, device, devices[k], a);
    CarryOverExtends(rest, taken, numeric);
    FirstHeldPrefix(held, taken.aliases, after[device.id].aliases);
  }

  lemma CarryOverExtends(devices: Outputs, device: OutputDevice, numeric: string -> bool)
    ensures device.aliases <= CarryOver(devices, device, numeric).aliases
  {
  }

  /** The entry keeps its key and its aliases, and no key equal to one of them appears. */
  lemma BesideStands(registry: Outputs, devices: Outputs, after: Outputs, k: Id, a: Id)
    requires StandsFor(registry, devices, k, a)
    requires k in after && devices[k].aliases <= after[k].aliases
    requires k == a || forall x :: x in after && x !in devices && x !in registry ==> x !in devices[k].aliases
    ensures StandsFor(registry, after, k, a)
  {
    if k != a {
      var held := HeldBeside(registry, after, k);
      FirstHeldSubset(HeldBeside(registry, devices, k), held, devices[k].aliases, a);
      FirstHeldPrefix(held, devices[k].aliases, after[k].aliases);
    }
  }

  /** The announcement stores a record under k, or removes the one there. */
  predicate Replaces(devices: Outputs, device: OutputDevice, k: Id) {
    match FirstMatch(devices, device)
    case None => device.id == k
    case Some(j) => PreferDeviceIdentity(device, devices[j]) && (j == k || device.id == k)
  }

  lemma OthersStand(registry: Outputs, devices: Outputs, device: OutputDevice, numeric: string -> bool, k: Id, a: Id)
    requires StandsFor(registry, devices, k, a) && Compatible(registry, devices, device, k, a)
    requires !Replaces(devices, device, k)
    ensures StandsFor(registry, Upsert(devices, device, numeric), k, a)
  {
    BesideStands(registry, devices, Upsert(devices, device, numeric), k, a);
  }

  lemma UpsertStands(registry: Outputs, devices: Outputs, device: OutputDevice, numeric: string -> bool, k: Id, a: Id)
    requires RegistryOk(registry) && KeysAreIds(devices)
    requires StandsFor(registry, devices, k, a) && Compatible(registry, devices, device, k, a)
    ensures StandsFor(registry, Upsert(devices, device, numeric), KeyAfter(devices, device, k), a)
  {
    var m := FirstMatch(devices, device);
    if !Replaces(devices, device, k) {
      OthersStand(registry, devices, device, numeric, k, a);
    } else if m.None? {
      CarriedStands(registry, devices, devices, device, numeric, a);
    } else if m.value != k {
      CarriedStands(registry, devices, devices - {m.value}, TakeOver(device, devices[m.value]), numeric, a);
    } else if device.id != a {
      PromotionStands(registry, devices, device, numeric, k, a);
    }
  }

  /** The key the receiver registered as a is found under, announcement by
    * announcement, or None once an announcement was not compatible with it. */
  function KeyAfterAll(
    registry: Outputs, devices: Outputs, announced: seq<OutputDevice>, numeric: string -> bool, a: Id): (r: Option<Id>)
    ensures r.Some? ==> r.value in UpsertAll(devices, announced, numeric)
  {
    if announced == [] then if a in devices then Some(a) else None
    else
      var n := |announced| - 1;
      var before := UpsertAll(devices, announced[..n], numeric);
      var k := KeyAfterAll(registry, devices, announced[..n], numeric, a);
      if k.Some? && Compatible(registry, before, announced[n], k.value, a)
      then Some(KeyAfter(before, announced[n], k.value)) else None
  }

  lemma {:induction false} ChainStands(
    registry: Outputs, devices: Outputs, announced: seq<OutputDevice>, numeric: string -> bool, a: Id)
    requires RegistryOk(registry) && KeysAreIds(devices) && a in registry
    requires KeyAfterAll(registry, devices, announced, numeric, a).Some?
    ensures KeysAreIds(UpsertAll(devices, announced, numeric))
    ensures StandsFor(registry, UpsertAll(devices, announced, numeric),
              KeyAfterAll(registry, devices, announced, numeric, a).value, a)
  {
    if announced == [] {
    } else {
      var n := |announced| - 1;
      var before := UpsertAll(devices, announced[..n], numeric);
      var k := KeyAfterAll(registry, devices, announced[..n], numeric, a);
      ChainStands(registry, devices, announced[..n], numeric, a);
      UpsertKnows(before, announced[n], numeric, announced[n].id);
      UpsertStands(registry, before, announced[n], numeric, k.value, a);
    }
  }

  /** A registered receiver that is promoted any number of times between two syncs,
    * refreshed, absorbed and with other receivers announced in between, keeps its
    * user state under the id it ends up with. */
  lemma PromotedIdInherits(
    registry: Outputs, devices: Outputs, announced: seq<OutputDevice>, numeric: string -> bool, a: Id)
    requires RegistryOk(registry) && KeysAreIds(devices) && a in registry
    requires KeyAfterAll(registry, devices, announced, numeric, a).Some?
    ensures var k := KeyAfterAll(registry, devices, announced, numeric, a).value;
      var after := Sync(registry, UpsertAll(devices, announced, numeric));
      && k in after
      && UserStateOf(after[k]) == UserStateOf(registry[a])
  {
    var k := KeyAfterAll(registry, devices, announced, numeric, a).value;
    ChainStands(registry, devices, announced, numeric, a);
    StandingOrigin(registry, UpsertAll(devices, announced, numeric), k, a);
    UserStateOrigin(registry, UpsertAll(devices, announced, numeric), k);
  }

  // ---- a registered id that names another output

  /** A registered id resolves to itself exactly when no earlier record lists it
    * as an alias. */
  lemma ResolvesToItselfIff(registry: Outputs, id: Id)
    requires RegistryOk(registry) && id in registry
    ensures Resolve(registry, id) == id
       <==> forall k :: k in registry && Less(k, id) ==> id !in registry[k].aliases
  {
    ResolveFromFinds(registry, registry.Keys, id);
    var r := Resolve(registry, id);
    assert MatchesId(registry[id], id);
    if r == id {
      forall k | k in registry && Less(k, id) ensures id !in registry[k].aliases {
        if id in registry[k].aliases {
          assert MatchesId(registry[k], id);
          Asymmetric(k, id);
          Irreflexive(id);
        }
      }
    }
  }

  /** The same condition on what discovery holds, before the sync. */
  lemma DiscoveredResolvesToItselfIff(registry: Outputs, devices: Outputs, id: Id)
    requires RegistryOk(registry) && KeysAreIds(devices) && id in devices
    ensures Resolve(Sync(registry, devices), id) == id
       <==> forall k :: k in devices && Less(k, id) ==> id !in devices[k].aliases
  {
    var after := Sync(registry, devices);
    SyncAgrees(registry, devices);
    ResolvesToItselfIff(after, id);
    forall k | k in devices ensures after[k].aliases == devices[k].aliases {
      assert SyncedAt(after, registry, devices, k);
    }
  }

  /** How announcements lead there: an id is absorbed as another name of a lesser key,
    * and is then announced as a receiver that is like no other entry. */
  lemma MovedIdNamesAnother(
    registry: Outputs, devices: Outputs, device: OutputDevice, moved: OutputDevice, numeric: string -> bool, k: Id)
    requires RegistryOk(registry) && KeysAreIds(devices) && device.id != NO_ID && moved.id == device.id
    requires FirstMatch(devices, device) == Some(k) && !PreferDeviceIdentity(device, devices[k]) && Less(k, device.id)
    requires FirstMatch(devices[k := Absorb(devices[k], device)], moved).None?
    ensures var after := Upsert(Upsert(devices, device, numeric), moved, numeric);
      && after.Keys == devices.Keys + {device.id} && KeysAreIds(after)
      && device.id in Sync(registry, after)
      && Resolve(Sync(registry, after), device.id) in after.Keys - {device.id}
  {
    var absorbed := devices[k := Absorb(devices[k], device)];
    var after := absorbed[moved.id := CarryOver(absorbed, moved, numeric)];
    assert Upsert(Upsert(devices, device, numeric), moved, numeric) == after;
    Irreflexive(k);
    assert after[k] == Absorb(devices[k], device);
    ListedElsewhere(registry, after, k, device.id);
  }

  lemma ListedElsewhere(registry: Outputs, devices: Outputs, k: Id, id: Id)
    requires RegistryOk(registry) && KeysAreIds(devices)
    requires k in devices && id in devices && Less(k, id) && MatchesId(devices[k], id)
    ensures id in Sync(registry, devices)
    ensures Resolve(Sync(registry, devices), id) in devices.Keys - {id}
  {
    Irreflexive(k);
    SyncAgrees(registry, devices);
    DiscoveredResolvesToItselfIff(registry, devices, id);
    HistoricIdsResolve(registry, devices, id);
  }

  function Announcement(id: string, name: string, host: string): OutputDevice {
    OutputDevice(Id(id), name, false, true, false, 50, 0, 0, host, 7000, "", [], true)
  }

  /** Three announcements after which selecting the output b selects a: b is first
    * taken for another name of a, and then turns out to have a host of its own. */
  lemma SelectedIdNamesAnother(registry: Outputs, numeric: string -> bool)
    requires RegistryOk(registry)
    ensures var devices := UpsertAll(map[],
              [Announcement("a", "Den", "h"), Announcement("b", "Den", "h"), Announcement("b", "Den", "x")], numeric);
      && devices.Keys == {Id("a"), Id("b")}
      && Id("b") in Sync(registry, devices)
      && Resolve(Sync(registry, devices), Id("b")) == Id("a")
  {
    var first, second, third := Announcement("a", "Den", "h"), Announcement("b", "Den", "h"), Announcement("b", "Den", "x");
    var one: Outputs := map[Id("a") := first];
    FirstOfAll(first, numeric);
    SameNameOtherHost(first, second, third);
    MatchOnly(one, second);
    MatchOnly(one[Id("a") := Absorb(first, second)], third);
    UpsertAllThree(map[], first, second, third, numeric);
    MovedIdNamesAnother(registry, one, second, third, numeric, Id("a"));
  }

  lemma FirstOfAll(device: OutputDevice, numeric: string -> bool)
    ensures Upsert(map[], device, numeric) == map[device.id := device]
  {
  }

  lemma SameNameOtherHost(first: OutputDevice, second: OutputDevice, third: OutputDevice)
    requires first.name == second.name == third.name == "Den"
    requires first.endpointHost == second.endpointHost == "h" && third.endpointHost == "x"
    ensures SamePhysicalReceiver(first, second) && !SamePhysicalReceiver(Absorb(first, second), third)
  {
    assert LowerAscii("h")[0] != LowerAscii("x")[0];
  }

  lemma MatchOnly(devices: Outputs, device: OutputDevice)
    requires devices.Keys == {Id("a")} && device.id != Id("a")
    ensures FirstMatch(devices, device) == if SamePhysicalReceiver(devices[Id("a")], device) then Some(Id("a")) else None
  {
    if SamePhysicalReceiver(devices[Id("a")], device) {
      assert Candidates(devices, device) == {Id("a")};
      LeastIsLeast({Id("a")});
    }
  }

  lemma UpsertLast(devices: Outputs, announced: seq<OutputDevice>, last: OutputDevice, numeric: string -> bool)
    ensures UpsertAll(devices, announced + [last], numeric) == Upsert(UpsertAll(devices, announced, numeric), last, numeric)
  {
    assert (announced + [last])[..|announced|] == announced;
  }

  lemma UpsertAllTwo(devices: Outputs, first: OutputDevice, second: OutputDevice, numeric: string -> bool)
    ensures UpsertAll(devices, [first, second], numeric) == Upsert(Upsert(devices, first, numeric), second, numeric)
  {
    assert [first] + [second] == [first, second] && [] + [first] == [first];
    UpsertLast(devices, [first], second, numeric);
    UpsertLast(devices, [], first, numeric);
  }

  lemma UpsertAllThree(
    devices: Outputs, first: OutputDevice, second: OutputDevice, third: OutputDevice, numeric: string -> bool)
    ensures UpsertAll(devices, [first, second, third], numeric)
         == Upsert(Upsert(Upsert(devices, first, numeric), second, numeric), third, numeric)
  {
    assert [first, second] + [third] == [first, second, third];
    UpsertLast(devices, [first, second], third, numeric);
    UpsertAllTwo(devices, first, second, numeric);
  }

  class AirPlayDiscovery {
    var devices: Outputs
    const numeric: string -> bool

    constructor (numeric: string -> bool)
      ensures devices == map[] && this.numeric == numeric
    {
      this.numeric := numeric;
      devices := map[];
    }

    /** The find_if scan over the map in key order. */
    method FindPhysical(device: OutputDevice) returns (r: Option<Id>)
      ensures r == FirstMatch(devices, device)
    {
      var pending := devices.Keys;
      ghost var hits := Candidates(devices, device);
      r := None;
      while pending != {} && r.None?
        invariant pending <= devices.Keys
        invariant r.None? ==> hits <= pending
        invariant r.Some? ==> r == FirstMatch(devices, device)
        decreases |pending|, r.None?
      {
        var k := Least(pending);
        if k != device.id && SamePhysicalReceiver(devices[k], device) {
          r := Some(k);
          LeastOfSubset(hits, pending);
        }
        pending := pending - {k};
      }
    }

    method UpsertDevice(device: OutputDevice) returns (ok: bool)
      modifies this
      ensures ok <==> device.id != NO_ID
      ensures devices == if ok then Upsert(old(devices), device, numeric) else old(devices)
    {
      if device.id == NO_ID {
        return false;
      }
      ok := true;
      var incoming, rest := device, devices;
      var hit := FindPhysical(device);
      if hit.Some? {
        var current := devices[hit.value];
        var legacy := current.supportsLegacyL16 || incoming.supportsLegacyL16;
        if !PreferDeviceIdentity(incoming, current) {
          current := AppendedAliases(current.(supportsLegacyL16 := legacy), incoming);
          devices := devices[hit.value := current];
          return;
        }
        incoming := AppendedAliases(incoming.(supportsLegacyL16 := legacy), current);
        rest := rest - {hit.value};
      }
      incoming := Carried(rest, incoming, numeric);
      devices := rest[incoming.id := incoming];
    }

    static method Carried(devices: Outputs, device: OutputDevice, numeric: string -> bool) returns (r: OutputDevice)
      ensures r == CarryOver(devices, device, numeric)
    {
      r := device;
      if device.id in devices {
        var existing := devices[device.id];
        r := AppendedAll(device, existing.aliases);
        if numeric(existing.endpointHost) && !numeric(r.endpointHost) {
          r := r.(endpointHost := existing.endpointHost);
        }
      }
    }

    static method AppendedAll(device: OutputDevice, aliases: seq<Id>) returns (r: OutputDevice)
      ensures r == AppendAll(device, aliases)
    {
      r := device;
      for i := 0 to |aliases|
        invariant AppendAll(device, aliases) == AppendAll(r, aliases[i..])
      {
        assert aliases[i..][1..] == aliases[i+1..];
        r := AppendAlias(r, aliases[i]);
      }
    }

    static method AppendedAliases(device: OutputDevice, source: OutputDevice) returns (r: OutputDevice)
      ensures r == AppendAliases(device, source)
    {
      r := AppendedAll(AppendAlias(device, source.id), source.aliases);
    }
  }

  lemma LeastOfSubset(s: set<Id>, t: set<Id>)
    requires s <= t && t != {} && Least(t) in s
    ensures Least(s) == Least(t)
  {
    LeastIsLeast(s);
    LeastIsLeast(t);
    if Least(s) != Least(t) { Asymmetric(Least(s), Least(t)); }
  }

  /** sync_discovered_outputs: upsert every discovered device with the user state
    * it inherits, then drop the ids discovery no longer lists. */
  method SyncDiscoveredOutputs(registry: OutputRegistry, discovery: AirPlayDiscovery)
    requires RegistryOk(registry.outputs) && KeysAreIds(discovery.devices)
    modifies registry
    ensures RegistryOk(registry.outputs)
    ensures registry.outputs == Sync(old(registry.outputs), discovery.devices)
  {
    var devices := discovery.devices;
    var pending := devices.Keys;
    while pending != {}
      invariant pending <= devices.Keys
      invariant RegistryOk(registry.outputs)
      invariant SyncFrom(registry.outputs, devices, pending) == SyncFrom(old(registry.outputs), devices, devices.Keys)
      decreases |pending|
    {
      var k := Least(pending);
      var device := devices[k];
      var heir := Heir(registry.outputs.Keys, device);
      if heir.Some? {
        device := WithUserStateOf(device, registry.outputs[heir.value]);
      }
      var ok := registry.Upsert(device);
      pending := pending - {k};
    }
    registry.Retain(devices.Keys);
  }
}
