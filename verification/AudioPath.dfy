/** From the playback queue to a receiver's decoder, across the packet format. */
module AudioPath {
  import opened Common
  import Alac
  import opened RenderQueue
  import Devices
  import Receiver
  import StreamEngine

  lemma HeldAt(frames: seq<Pcm>, packet: Bytes, i: nat)
    requires Holds(packet, frames) && i < 352
    ensures SampleIs(packet, 4 * i, if i < |frames| then frames[i].left else 0)
    ensures SampleIs(packet, 4 * i + 2, if i < |frames| then frames[i].right else 0)
  {
  }

  lemma DecodesSample(packet: Bytes, encoded: Bytes, j: nat, at: nat, x: i16)
    requires |packet| == 1408 && j < 704 && at == 2 * j && SampleIs(packet, at, x)
    requires |encoded| == Alac.FRAME_BYTES && Alac.Bits(encoded) == Alac.FrameBits(Alac.Samples(packet))
    ensures Alac.DecodeSample(encoded, j) == x % 65536
  {
    Alac.DecodedSample(packet, encoded, j);
  }

  /** What a receiver decodes from a packet of queued frames is those frames, left
    * before right, and silence after them. */
  lemma DecodesToTheQueue(frames: seq<Pcm>, packet: Bytes, encoded: Bytes, i: nat)
    requires Holds(packet, frames) && i < 352
    requires |encoded| == Alac.FRAME_BYTES && Alac.Bits(encoded) == Alac.FrameBits(Alac.Samples(packet))
    ensures Alac.DecodeSample(encoded, 2 * i) == (if i < |frames| then frames[i].left else 0) % 65536
    ensures Alac.DecodeSample(encoded, 2 * i + 1) == (if i < |frames| then frames[i].right else 0) % 65536
  {
    HeldAt(frames, packet, i);
    DecodesSample(packet, encoded, 2 * i, 4 * i, if i < |frames| then frames[i].left else 0);
    DecodesSample(packet, encoded, 2 * i + 1, 4 * i + 2, if i < |frames| then frames[i].right else 0);
  }

  /** A packet of the queue is one write of whole frames, the number by which the RTP
    * clock of a receiver advances. */
  lemma PacketIsOneWrite(p: Packet)
    requires PacketOk(p)
    ensures |PacketBytes(p)| == 1408
         == Receiver.FRAMES_PER_PACKET * StreamEngine.BytesPerFrame(Devices.PcmFormat(44100, 2, 16))
    ensures Receiver.FRAMES_PER_PACKET == PACKET_FRAMES == 352
  {
  }

  /** The same for the packets that reach the transport, in any history. */
  lemma HandedPacketsDecode(ops: seq<Op>, j: nat, encoded: Bytes, i: nat)
    requires j < |Run(INITIAL, ops).log| && Run(INITIAL, ops).log[j].Handed? && i < 352
    requires |encoded| == Alac.FRAME_BYTES
    requires Alac.Bits(encoded) == Alac.FrameBits(Alac.Samples(PacketBytes(Run(INITIAL, ops).log[j].packet)))
    ensures var frames := Run(INITIAL, ops).log[j].packet.frames;
      && Alac.DecodeSample(encoded, 2 * i) == (if i < |frames| then frames[i].pcm.left else 0) % 65536
      && Alac.DecodeSample(encoded, 2 * i + 1) == (if i < |frames| then frames[i].pcm.right else 0) % 65536
  {
    var p := Run(INITIAL, ops).log[j].packet;
    PacketsAreWhole(ops, j);
    PacketBytesHold(Untagged(p.frames));
    DecodesToTheQueue(Untagged(p.frames), PacketBytes(p), encoded, i);
  }
}
