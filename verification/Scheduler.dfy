/** Fixed-offset packet scheduling against the shared group timeline. */
module Scheduler {
  import opened Common
  import opened Devices

  datatype Request = Request(
    streamTimestamp: u64,
    bytes: nat,
    sampleRate: u32,
    minimumLeadMs: u32,
    groupSyncStartRtp: u64,
    groupSyncAnchorValid: bool)

  datatype ScheduledPacket = ScheduledPacket(
    outputId: Id,
    streamTimestamp: u64,
    presentationTimestamp: u64,
    earliestSendTimestamp: u64,
    leadFrames: u64,
    bytes: nat,
    volume: i32,
    offsetMs: i32,
    measuredLatencyMs: i32,
    groupSyncStartRtp: u64,
    groupSyncAnchorValid: bool)

  const INT_MAX: i32 := 0x7FFF_FFFF

  function FramesForMs(milliseconds: i32, sampleRate: u32): int {
    TruncDiv(milliseconds * sampleRate, 1000)
  }

  function ApplyOffset(timestamp: u64, offsetFrames: int): u64
    requires -U64 < offsetFrames < U64
  {
    if offsetFrames < 0 then
      if -offsetFrames > timestamp then 0 else timestamp + offsetFrames
    else if offsetFrames > U64 - 1 - timestamp then U64 - 1
    else timestamp + offsetFrames
  }

  lemma ProductBound(a: int, b: nat, k: nat)
    requires 0 - k <= a <= k
    ensures 0 - k * b <= a * b <= k * b
  {
    if a >= 0 {
      assert k * b == a * b + (k - a) * b;
      assert (k - a) * b >= 0;
    } else {
      assert k * b == (-a) * b + (k + a) * b;
      assert (k + a) * b >= 0;
      assert a * b == -((-a) * b);
    }
  }

  /** Milliseconds scale to frames without leaving the signed 64-bit range,
    * rounding toward zero symmetrically for early and late offsets. */
  lemma FramesForMsBounds(ms: i32, rate: u32)
    ensures -0x8000_0000_0000_0000 <= ms * rate < 0x8000_0000_0000_0000
    ensures var f := FramesForMs(ms, rate);
            if ms >= 0 then f * 1000 <= ms * rate < f * 1000 + 1000 && f >= 0
            else f * 1000 - 1000 < ms * rate <= f * 1000 && f <= 0
    ensures ms != -0x8000_0000 ==> FramesForMs(-ms, rate) == -FramesForMs(ms, rate)
  {
    ProductBound(ms, rate, 0x8000_0000);
    var m: int := ms;
    assert (0 - m) * rate == 0 - m * rate;
    if m < 0 { assert (0 - m) * rate >= 0; }
  }

  lemma FramesFit(ms: i32, rate: u32)
    ensures -U64 < FramesForMs(ms, rate) < U64
    ensures ms >= 0 ==> FramesForMs(ms, rate) >= 0
  {
    FramesForMsBounds(ms, rate);
  }

  /** Offsets saturate at both ends of the unsigned 64-bit timeline. */
  lemma ApplyOffsetIsClamp(timestamp: u64, offsetFrames: int)
    requires -U64 < offsetFrames < U64
    ensures ApplyOffset(timestamp, offsetFrames) == Clamp(timestamp + offsetFrames, 0, U64 - 1)
  {
  }

  function LeadMs(output: OutputDevice, request: Request): i32 {
    Min(request.minimumLeadMs + Max(0, output.measuredLatencyMs), INT_MAX)
  }

  function PacketFor(output: OutputDevice, request: Request): ScheduledPacket {
    FramesFit(output.offsetMs, request.sampleRate);
    FramesFit(LeadMs(output, request), request.sampleRate);
    var presentation := ApplyOffset(request.streamTimestamp, FramesForMs(output.offsetMs, request.sampleRate));
    var lead: u64 := FramesForMs(LeadMs(output, request), request.sampleRate);
    ScheduledPacket(
      output.id,
      request.streamTimestamp,
      presentation,
      if presentation > lead then presentation - lead else 0,
      lead,
      request.bytes,
      output.volume,
      output.offsetMs,
      output.measuredLatencyMs,
      request.groupSyncStartRtp,
      request.groupSyncAnchorValid)
  }

  /** Presentation time is the stream time moved by the user offset and clamped
    * to the timeline; the send window opens one lead earlier, never later. */
  lemma PacketTimes(output: OutputDevice, request: Request)
    ensures var p := PacketFor(output, request);
            && p.presentationTimestamp
                 == Clamp(request.streamTimestamp + FramesForMs(output.offsetMs, request.sampleRate), 0, U64 - 1)
            && p.earliestSendTimestamp == Max(0, p.presentationTimestamp - p.leadFrames)
            && p.earliestSendTimestamp <= p.presentationTimestamp
            && p.leadFrames * 1000 <= LeadMs(output, request) * request.sampleRate < p.leadFrames * 1000 + 1000
            && LeadMs(output, request)
                 == Min(0x7FFF_FFFF, request.minimumLeadMs + if output.measuredLatencyMs > 0 then output.measuredLatencyMs else 0)
  {
    FramesFit(output.offsetMs, request.sampleRate);
    FramesFit(LeadMs(output, request), request.sampleRate);
    FramesForMsBounds(LeadMs(output, request), request.sampleRate);
    ApplyOffsetIsClamp(request.streamTimestamp, FramesForMs(output.offsetMs, request.sampleRate));
  }

  /** One packet for every selected output, in the order given. */
  function Scheduled(outputs: seq<OutputDevice>, request: Request): seq<ScheduledPacket> {
    if outputs == [] then []
    else (if outputs[0].selected then [PacketFor(outputs[0], request)] else []) + Scheduled(outputs[1..], request)
  }

  lemma {:induction false} ScheduledSnoc(outputs: seq<OutputDevice>, o: OutputDevice, request: Request)
    ensures Scheduled(outputs + [o], request)
         == Scheduled(outputs, request) + (if o.selected then [PacketFor(o, request)] else [])
  {
    if outputs == [] {
      assert [o][1..] == [];
    } else {
      assert (outputs + [o])[1..] == outputs[1..] + [o];
      ScheduledSnoc(outputs[1..], o, request);
    }
  }

  /** When every output given is selected, packet i belongs to output i. */
  lemma {:induction false} ScheduledAt(outputs: seq<OutputDevice>, request: Request, i: nat)
    requires forall j :: 0 <= j < |outputs| ==> outputs[j].selected
    requires i < |outputs|
    ensures |Scheduled(outputs, request)| == |outputs|
    ensures Scheduled(outputs, request)[i] == PacketFor(outputs[i], request)
  {
    if |outputs| == 1 {
      assert outputs[1..] == [];
    } else {
      ScheduledAt(outputs[1..], request, if i > 0 then i - 1 else 0);
    }
  }

  /** None stands for the rejected zero sample rate. */
  method Schedule(outputs: seq<OutputDevice>, request: Request) returns (result: Option<seq<ScheduledPacket>>)
    ensures result == if request.sampleRate == 0 then None else Some(Scheduled(outputs, request))
  {
    if request.sampleRate == 0 {
      return None;
    }
    var packets: seq<ScheduledPacket> := [];
    for i := 0 to |outputs|
      invariant packets == Scheduled(outputs[..i], request)
    {
      ScheduledSnoc(outputs[..i], outputs[i], request);
      assert outputs[..i+1] == outputs[..i] + [outputs[i]];
      if outputs[i].selected {
        packets := packets + [PacketFor(outputs[i], request)];
      }
    }
    assert outputs[..|outputs|] == outputs;
    result := Some(packets);
  }
}
