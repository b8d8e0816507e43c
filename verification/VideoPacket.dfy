/** The packets that carry video to the browser (internal/calling/media.go, encodeVideoFrame). */
module VideoPacket {
  import opened Wrappers
  import opened Pcm

  const VIDEO_KIND: Byte := 2
  const ORIENTED_KIND: Byte := 3
  const PARTICIPANT_KIND: Byte := 4

  /** participant: the bytes of its id, none for a call of two. */
  datatype Frame = Frame(data: seq<Byte>, micros: nat, orientation: Byte, participant: seq<Byte>, ssrc: nat)

  function Little(value: nat, bytes: nat): (r: seq<Byte>)
    ensures |r| == bytes
  {
    if bytes == 0 then [] else [value % 256] + Little(value / 256, bytes - 1)
  }

  function FromLittle(bytes: seq<Byte>): nat {
    if bytes == [] then 0 else bytes[0] + 256 * FromLittle(bytes[1..])
  }

  function Power256(bytes: nat): nat {
    if bytes == 0 then 1 else 256 * Power256(bytes - 1)
  }

  lemma {:induction false} ReadsBack(value: nat, bytes: nat)
    requires value < Power256(bytes)
    ensures FromLittle(Little(value, bytes)) == value
  {
    if bytes > 0 {
      ReadsBack(value / 256, bytes - 1);
      assert Little(value, bytes)[1..] == Little(value / 256, bytes - 1);
    }
  }

  function EncodeFrame(frame: Frame, orientation: bool): seq<Byte> {
    if frame.participant != [] then
      [PARTICIPANT_KIND, frame.orientation] + Little(frame.micros % 0x1_0000_0000, 4) + Little(frame.ssrc % 0x1_0000_0000, 4)
        + Little(|frame.participant| % 0x1_0000, 2) + frame.participant + frame.data
    else if orientation then [ORIENTED_KIND, frame.orientation] + Little(frame.micros % 0x1_0000_0000, 4) + frame.data
    else [VIDEO_KIND] + Little(frame.micros % 0x1_0000_0000, 4) + frame.data
  }

  /** A reader of the three kinds. */
  function DecodeFrame(packet: seq<Byte>): Option<Frame> {
    if |packet| >= 12 && packet[0] == PARTICIPANT_KIND && |packet| >= 12 + FromLittle(packet[10..12]) then
      var n := FromLittle(packet[10..12]);
      Some(Frame(packet[12 + n..], FromLittle(packet[2..6]), packet[1], packet[12..12 + n], FromLittle(packet[6..10])))
    else if |packet| >= 6 && packet[0] == ORIENTED_KIND then Some(Frame(packet[6..], FromLittle(packet[2..6]), packet[1], [], 0))
    else if |packet| >= 5 && packet[0] == VIDEO_KIND then Some(Frame(packet[5..], FromLittle(packet[1..5]), 0, [], 0))
    else None
  }

  /** The frame as far as its packet can tell it. */
  function Told(frame: Frame, orientation: bool): Frame {
    var micros := frame.micros % 0x1_0000_0000;
    if frame.participant != [] then frame.(micros := micros, ssrc := frame.ssrc % 0x1_0000_0000)
    else Frame(frame.data, micros, if orientation then frame.orientation else 0, [], 0)
  }

  /** A packet read back gives its frame, for every id its two length bytes can measure; the bridge
      takes ids of at most 100 bytes. */
  lemma FrameReadsBack(frame: Frame, orientation: bool)
    requires |frame.participant| < 0x1_0000
    ensures DecodeFrame(EncodeFrame(frame, orientation)) == Some(Told(frame, orientation))
  {
    var packet := EncodeFrame(frame, orientation);
    var micros := frame.micros % 0x1_0000_0000;
    assert Power256(4) == 0x1_0000_0000 && Power256(2) == 0x1_0000;
    ReadsBack(micros, 4);
    if frame.participant != [] {
      var n := |frame.participant|;
      ReadsBack(frame.ssrc % 0x1_0000_0000, 4);
      ReadsBack(n, 2);
      assert packet[2..6] == Little(micros, 4);
      assert packet[6..10] == Little(frame.ssrc % 0x1_0000_0000, 4);
      assert packet[10..12] == Little(n, 2);
      assert packet[12..12 + n] == frame.participant;
      assert packet[12 + n..] == frame.data;
    } else if orientation {
      assert packet[2..6] == Little(micros, 4);
      assert packet[6..] == frame.data;
    } else {
      assert packet[1..5] == Little(micros, 4);
      assert packet[5..] == frame.data;
    }
  }

  function FromFour(a: int, b: int, c: int, d: int): int {
    a + 0x100 * b + 0x1_0000 * c + 0x100_0000 * d
  }

  predicate IsUint32(value: nat, a: Byte, b: Byte, c: Byte, d: Byte) {
    value % 0x1_0000_0000 == FromFour(a, b, c, d)
  }

  lemma FourBytes(value: nat)
    ensures var r := Little(value % 0x1_0000_0000, 4); IsUint32(value, r[0], r[1], r[2], r[3])
  {
    var r := Little(value % 0x1_0000_0000, 4);
    assert Power256(4) == 0x1_0000_0000;
    ReadsBack(value % 0x1_0000_0000, 4);
    LowFirst(r);
  }

  lemma LowFirst(r: seq<Byte>)
    requires |r| == 4
    ensures FromLittle(r) == FromFour(r[0], r[1], r[2], r[3])
  {
    assert r[1..][0] == r[1] && r[1..][1..] == r[2..];
    assert r[2..][0] == r[2] && r[2..][1..] == r[3..];
    assert r[3..][0] == r[3] && r[3..][1..] == [];
    assert FromLittle(r[3..]) == r[3];
    assert FromLittle(r[2..]) == r[2] + 256 * FromLittle(r[3..]);
    assert FromLittle(r[1..]) == r[1] + 256 * FromLittle(r[2..]);
  }

  /** A call of two: the kind, how the device is turned if the browser asked for that, the duration in
      four bytes, the low one first, and the data. */
  lemma PacketOfTwo(frame: Frame, orientation: bool)
    requires frame.participant == []
    ensures var p := EncodeFrame(frame, orientation);
      if orientation
      then |p| >= 6 && p[0] == 3 && p[1] == frame.orientation && IsUint32(frame.micros, p[2], p[3], p[4], p[5]) && p[6..] == frame.data
      else |p| >= 5 && p[0] == 2 && IsUint32(frame.micros, p[1], p[2], p[3], p[4]) && p[5..] == frame.data
  {
    FourBytes(frame.micros);
  }

  /** A group: besides, the stream's number in four bytes, and the person's id after its length in two. */
  lemma PacketOfGroup(frame: Frame, orientation: bool)
    requires 0 < |frame.participant| < 0x1_0000
    ensures IsGroupPacket(EncodeFrame(frame, orientation), frame)
  {
    var micros, ssrc := Little(frame.micros % 0x1_0000_0000, 4), Little(frame.ssrc % 0x1_0000_0000, 4);
    FourBytes(frame.micros);
    FourBytes(frame.ssrc);
    TwoBytes(|frame.participant|);
    HeaderBytes(frame, micros, ssrc, Little(|frame.participant|, 2));
    GroupShape(frame, orientation);
  }

  lemma GroupShape(frame: Frame, orientation: bool)
    requires 0 < |frame.participant| < 0x1_0000
    ensures EncodeFrame(frame, orientation) ==
      [4, frame.orientation] + Little(frame.micros % 0x1_0000_0000, 4) + Little(frame.ssrc % 0x1_0000_0000, 4)
        + Little(|frame.participant|, 2) + frame.participant + frame.data
  {
    assert |frame.participant| % 0x1_0000 == |frame.participant|;
  }

  ghost predicate IsGroupPacket(p: seq<Byte>, frame: Frame) {
    && |p| >= 12 && p[0] == 4 && p[1] == frame.orientation
    && IsUint32(frame.micros, p[2], p[3], p[4], p[5]) && IsUint32(frame.ssrc, p[6], p[7], p[8], p[9])
    && FromTwo(p[10], p[11]) == |frame.participant| && p[12..] == frame.participant + frame.data
  }

  lemma HeaderBytes(frame: Frame, a: seq<Byte>, b: seq<Byte>, c: seq<Byte>)
    requires |a| == 4 && |b| == 4 && |c| == 2
    requires IsUint32(frame.micros, a[0], a[1], a[2], a[3]) && IsUint32(frame.ssrc, b[0], b[1], b[2], b[3])
    requires FromTwo(c[0], c[1]) == |frame.participant|
    ensures IsGroupPacket([4, frame.orientation] + a + b + c + frame.participant + frame.data, frame)
  {
    var head := [4, frame.orientation] + a + b + c;
    HeadBytes(frame.orientation, a, b, c);
    assert (head + frame.participant + frame.data)[..12] == head;
    assert (head + frame.participant + frame.data)[12..] == frame.participant + frame.data;
  }

  lemma HeadBytes(orientation: Byte, a: seq<Byte>, b: seq<Byte>, c: seq<Byte>)
    requires |a| == 4 && |b| == 4 && |c| == 2
    ensures var head := [4, orientation] + a + b + c;
      |head| == 12 && head[2..6] == a && head[6..10] == b && head[10..] == c && head[0] == 4 && head[1] == orientation
  {
  }

  lemma TwoBytes(n: nat)
    requires n < 0x1_0000
    ensures var r := Little(n, 2); FromTwo(r[0], r[1]) == n
  {
    assert Little(n, 2)[1..] == Little(n / 256, 1);
    assert Little(n / 256, 1)[0] == n / 256;
  }
}
