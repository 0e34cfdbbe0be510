/** The value records that travel between discovery, the registry and the sessions. */
module Devices {
  import opened Common

  datatype OutputDevice = OutputDevice(
    id: Id,
    name: string,
    selected: bool,
    supportsAirplay2: bool,
    supportsLegacyL16: bool,
    volume: i32,
    offsetMs: i32,
    measuredLatencyMs: i32,
    endpointHost: string,
    endpointPort: u16,
    publicKey: string,          // the "pk" TXT record, "" when absent
    aliases: seq<Id>,
    visibleInDropdown: bool)

  datatype PcmFormat = PcmFormat(sampleRate: u32, channels: u32, bitsPerSample: u32)

  const NO_FORMAT := PcmFormat(48000, 2, 16)

  function Ids(outputs: seq<OutputDevice>): (ids: seq<Id>)
    ensures |ids| == |outputs|
    ensures forall i :: 0 <= i < |ids| ==> ids[i] == outputs[i].id
  {
    seq(|outputs|, i requires 0 <= i < |outputs| => outputs[i].id)
  }

  ghost predicate UniqueIds(outputs: seq<OutputDevice>) {
    forall i, j :: 0 <= i < j < |outputs| ==> outputs[i].id != outputs[j].id
  }

  /** Either the current id or a name the device was known by before. */
  predicate MatchesId(output: OutputDevice, id: Id) {
    output.id == id || id in output.aliases
  }
}
