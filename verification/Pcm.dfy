/** The 16-bit audio of the media bridge (internal/calling/media.go): samples to bytes and back,
    and the cutting of a stream of bytes into packets. */
module Pcm {

  type Byte = b: int | 0 <= b < 256

  const AUDIO_KIND: Byte := 1

  predicate IsInt16(v: int) {
    -32768 <= v <= 32767
  }

  // ---------- One sample ----------

  /** A conversion to an integer drops the fraction. */
  function Truncate(x: real): int {
    if x >= 0.0 then x.Floor else -((-x).Floor)
  }

  /** WriteFrame's conversion: scaled, clamped, truncated. */
  function Quantise(sample: real): (v: int)
    ensures IsInt16(v)
  {
    var scaled := sample * 32768.0;
    Truncate(if scaled <= -32768.0 then -32768.0 else if scaled >= 32767.0 then 32767.0 else scaled)
  }

  /** The two bytes of a word in two's complement, low byte first. */
  function Encode(v: int): seq<Byte> {
    [v % 256, (v / 256) % 256]
  }

  /** receive's reading of two bytes. */
  function Decode(lo: Byte, hi: Byte): int {
    var u := lo + 256 * hi;
    if u >= 0x8000 then u - 0x10000 else u
  }

  function ToSample(v: int): real {
    v as real / 32768.0
  }

  lemma DecodeEncode(v: int)
    requires IsInt16(v)
    ensures Decode(Encode(v)[0], Encode(v)[1]) == v
  {
  }

  lemma EncodeDecode(lo: Byte, hi: Byte)
    ensures IsInt16(Decode(lo, hi)) && Encode(Decode(lo, hi)) == [lo, hi]
  {
  }

  /** A received sample written back is the same word: nothing is lost to the clamp. */
  lemma QuantiseSample(v: int)
    requires IsInt16(v)
    ensures Quantise(ToSample(v)) == v
  {
    assert ToSample(v) * 32768.0 == v as real;
    if v < 0 {
      assert (-(v as real)) == (-v) as real;
    }
  }

  function FromTwo(lo: int, hi: int): int {
    lo + 0x100 * hi
  }

  /** The bytes are the word modulo 65536, the low one first. */
  lemma LowByteFirst(v: int)
    requires IsInt16(v)
    ensures |Encode(v)| == 2 && FromTwo(Encode(v)[0], Encode(v)[1]) == if v < 0 then v + 0x1_0000 else v
  {
  }

  lemma FloorsInOrder(a: real, b: real)
    requires a <= b
    ensures a.Floor <= b.Floor
  {
  }

  /** Every sample, words or not: from 32767/32768 of full scale up it is the highest word, from minus
      full scale down the lowest, and between them it goes toward zero by less than one. */
  lemma QuantiseWithin(sample: real)
    ensures sample * 32768.0 >= 32767.0 ==> Quantise(sample) == 32767
    ensures sample <= -1.0 ==> Quantise(sample) == -32768
    ensures 0.0 <= sample * 32768.0 <= 32767.0 ==> Quantise(sample) as real <= sample * 32768.0 < Quantise(sample) as real + 1.0
    ensures -1.0 <= sample <= 0.0 ==> Quantise(sample) as real - 1.0 < sample * 32768.0 <= Quantise(sample) as real
  {
    var scaled := sample * 32768.0;
    if sample <= -1.0 {
      assert scaled <= -32768.0;
      assert (-(-32768.0)).Floor == 32768;
    } else if scaled < 0.0 {
      assert Quantise(sample) == -((-scaled).Floor);
    }
  }

  /** A louder sample is never a lower word. */
  lemma QuantiseInOrder(a: real, b: real)
    requires a <= b
    ensures Quantise(a) <= Quantise(b)
  {
    QuantiseWithin(a);
    QuantiseWithin(b);
    assert a * 32768.0 <= b * 32768.0;
  }

  // ---------- A stream ----------

  function EncodeAll(samples: seq<real>): seq<Byte> {
    if samples == [] then []
    else EncodeAll(samples[..|samples| - 1]) + Encode(Quantise(samples[|samples| - 1]))
  }

  /** However the samples come in chunks, their bytes are those of the whole. */
  lemma {:induction false} EncodeAllConcat(first: seq<real>, second: seq<real>)
    ensures EncodeAll(first + second) == EncodeAll(first) + EncodeAll(second)
  {
    if second == [] {
      assert first + second == first;
    } else {
      var n := |second| - 1;
      EncodeAllConcat(first, second[..n]);
      assert (first + second)[..|first + second| - 1] == first + second[..n];
    }
  }

  /** Each sample's word, in order, and no byte besides. */
  lemma {:induction false} EncodeAllAt(samples: seq<real>, i: nat)
    requires i < |samples|
    ensures |EncodeAll(samples)| == 2 * |samples|
    ensures EncodeAll(samples)[2 * i..2 * i + 2] == Encode(Quantise(samples[i]))
  {
    var n := |samples| - 1;
    EncodeAllSize(samples[..n]);
    if i < n {
      EncodeAllAt(samples[..n], i);
      assert EncodeAll(samples)[2 * i..2 * i + 2] == EncodeAll(samples[..n])[2 * i..2 * i + 2];
    }
  }

  lemma {:induction false} EncodeAllSize(samples: seq<real>)
    ensures |EncodeAll(samples)| == 2 * |samples|
  {
    if samples != [] {
      EncodeAllSize(samples[..|samples| - 1]);
    }
  }

  function DecodeAll(bytes: seq<Byte>): seq<int> {
    if |bytes| < 2 then [] else [Decode(bytes[0], bytes[1])] + DecodeAll(bytes[2..])
  }

  function EncodeWords(words: seq<int>): seq<Byte> {
    if words == [] then [] else Encode(words[0]) + EncodeWords(words[1..])
  }

  /** What receive decodes is exactly what the browser encoded, and the other way around. */
  lemma {:induction false} DecodeEncodeAll(words: seq<int>)
    requires forall i :: 0 <= i < |words| ==> IsInt16(words[i])
    ensures DecodeAll(EncodeWords(words)) == words
  {
    if words != [] {
      var bytes := EncodeWords(words);
      DecodeEncode(words[0]);
      assert bytes[2..] == EncodeWords(words[1..]);
      DecodeEncodeAll(words[1..]);
    }
  }

  lemma {:induction false} EncodeDecodeAll(bytes: seq<Byte>)
    requires |bytes| % 2 == 0
    ensures EncodeWords(DecodeAll(bytes)) == bytes && 2 * |DecodeAll(bytes)| == |bytes|
  {
    if bytes != [] {
      EncodeDecode(bytes[0], bytes[1]);
      EncodeDecodeAll(bytes[2..]);
      assert DecodeAll(bytes)[1..] == DecodeAll(bytes[2..]);
    }
  }

  /** Each two bytes give their word, in order. */
  lemma {:induction false} DecodeAllAt(bytes: seq<Byte>, i: nat)
    requires 2 * i + 2 <= |bytes|
    ensures |DecodeAll(bytes)| == |bytes| / 2 && DecodeAll(bytes)[i] == Decode(bytes[2 * i], bytes[2 * i + 1])
  {
    if i > 0 {
      DecodeAllAt(bytes[2..], i - 1);
    } else {
      DecodeAllSize(bytes);
    }
  }

  lemma {:induction false} DecodeAllSize(bytes: seq<Byte>)
    ensures |DecodeAll(bytes)| == |bytes| / 2
  {
    if |bytes| >= 2 {
      DecodeAllSize(bytes[2..]);
    }
  }

  // ---------- Packets ----------

  predicate IsPacket(packet: seq<Byte>, size: nat) {
    |packet| == 1 + size && packet[0] == AUDIO_KIND
  }

  function Body(packet: seq<Byte>): seq<Byte> {
    if packet == [] then [] else packet[1..]
  }

  /** The bytes that packets carry. */
  function Payload(packets: seq<seq<Byte>>): seq<Byte> {
    if packets == [] then [] else Payload(packets[..|packets| - 1]) + Body(packets[|packets| - 1])
  }

  /** Bytes cut into packets: all sent, but for less than a packet still pending. */
  ghost predicate Framed(bytes: seq<Byte>, packets: seq<seq<Byte>>, pending: seq<Byte>, size: nat) {
    && (forall i :: 0 <= i < |packets| ==> IsPacket(packets[i], size))
    && |pending| < size
    && Payload(packets) + pending == bytes
  }

  /** Two bytes more: a packet goes out when they fill it. */
  lemma FramedGrows(bytes: seq<Byte>, packets: seq<seq<Byte>>, pending: seq<Byte>, word: seq<Byte>, size: nat)
    requires Framed(bytes, packets, pending, size) && |pending + word| <= size
    ensures |pending + word| < size ==> Framed(bytes + word, packets, pending + word, size)
    ensures |pending + word| == size && size > 0 ==> Framed(bytes + word, packets + [[AUDIO_KIND] + (pending + word)], [], size)
  {
    var packet := [AUDIO_KIND] + (pending + word);
    assert Body(packet) == pending + word;
    assert (packets + [packet])[..|packets|] == packets;
    assert Payload(packets) + (pending + word) == bytes + word;
    assert Payload(packets + [packet]) + [] == bytes + word;
  }

  lemma {:induction false} PayloadSize(packets: seq<seq<Byte>>, size: nat)
    requires forall i :: 0 <= i < |packets| ==> IsPacket(packets[i], size)
    ensures |Payload(packets)| == |packets| * size
  {
    if packets != [] {
      var n := |packets| - 1;
      PayloadSize(packets[..n], size);
      assert IsPacket(packets[n], size);
      OneMore(n, size);
    }
  }

  lemma OneMore(n: nat, size: nat)
    ensures (n + 1) * size == n * size + size
  {
  }

  lemma {:induction false} AtLeastOnce(k: nat, size: nat)
    requires k > 0
    ensures k * size >= size
  {
    if k > 1 {
      AtLeastOnce(k - 1, size);
      assert k * size == (k - 1) * size + size;
    }
  }

  lemma NoTimes(k: nat, size: nat)
    requires size > 0 && k * size == 0
    ensures k == 0
  {
    if k > 0 {
      AtLeastOnce(k, size);
    }
  }

  lemma NotFewer(m: nat, n: nat, p: nat, q: nat, size: nat)
    requires p < size && m * size + p == n * size + q
    ensures m >= n
  {
    if m < n {
      assert n * size == m * size + (n - m) * size;
      AtLeastOnce(n - m, size);
    }
  }

  /** The cut is unique, so the packets depend on the bytes alone and not on the calls that brought them. */
  lemma {:induction false} FramedOnce(
    bytes: seq<Byte>, first: seq<seq<Byte>>, p: seq<Byte>, second: seq<seq<Byte>>, q: seq<Byte>, size: nat)
    requires Framed(bytes, first, p, size) && Framed(bytes, second, q, size)
    ensures first == second && p == q
  {
    PayloadSize(first, size);
    PayloadSize(second, size);
    NotFewer(|first|, |second|, |p|, |q|, size);
    NotFewer(|second|, |first|, |q|, |p|, size);
    assert bytes[|Payload(first)|..] == p && bytes[|Payload(second)|..] == q;
    assert bytes[..|Payload(first)|] == Payload(first) && bytes[..|Payload(second)|] == Payload(second);
    SamePackets(first, second, size);
  }

  lemma PayloadSplits(packets: seq<seq<Byte>>, size: nat)
    requires packets != [] && forall i :: 0 <= i < |packets| ==> IsPacket(packets[i], size)
    ensures var n := |packets| - 1;
      var k := n * size;
      && k <= |Payload(packets)|
      && Payload(packets)[..k] == Payload(packets[..n]) && Payload(packets)[k..] == Body(packets[n])
  {
    PayloadSize(packets[..|packets| - 1], size);
  }

  lemma SamePacket(a: seq<Byte>, b: seq<Byte>, size: nat)
    requires IsPacket(a, size) && IsPacket(b, size) && Body(a) == Body(b)
    ensures a == b
  {
    assert a == [a[0]] + Body(a) && b == [b[0]] + Body(b);
  }

  lemma {:induction false} SamePackets(first: seq<seq<Byte>>, second: seq<seq<Byte>>, size: nat)
    requires |first| == |second|
    requires forall i :: 0 <= i < |first| ==> IsPacket(first[i], size) && IsPacket(second[i], size)
    requires Payload(first) == Payload(second)
    ensures first == second
  {
    if first != [] {
      var n := |first| - 1;
      PayloadSplits(first, size);
      PayloadSplits(second, size);
      assert Payload(first[..n]) == Payload(second[..n]) && Body(first[n]) == Body(second[n]);
      SamePackets(first[..n], second[..n], size);
      SamePacket(first[n], second[n], size);
      assert first == first[..n] + [first[n]] && second == second[..n] + [second[n]];
    }
  }
}
