/** The media bridge of a call (internal/calling/media.go): audio gated by acceptance, queues that
    never block, and participants' video in turn with a token that wakes its writer. */
module MediaBridges {
  import opened Wrappers
  import opened Pcm
  import opened VideoPacket
  import opened MediaQueues

  const AUDIO_QUEUE_SIZE: nat := 5
  const MAX_VIDEO_BYTES := 512 * 1024
  const MAX_MEDIA_BYTES := MAX_VIDEO_BYTES + 5
  /** Microseconds. */
  const VIDEO_DURATION: nat := 33333

  /** H.264 in Annex B: a start code, then a unit whose first bit is clear and whose type is not zero. */
  predicate ValidAnnexB(data: seq<Byte>) {
    && 4 <= |data| <= MAX_VIDEO_BYTES
    && if |data| >= 5 && data[..4] == [0, 0, 0, 1] then data[4] < 0x80 && data[4] % 32 != 0
       else data[..3] == [0, 0, 1] && data[3] < 0x80 && data[3] % 32 != 0
  }

  /** A start code of two or three zero bytes and a one, and after it a unit. */
  predicate StartsUnit(data: seq<Byte>, zeros: nat) {
    && zeros + 1 < |data| && (forall i :: 0 <= i < zeros ==> data[i] == 0) && data[zeros] == 1
    && data[zeros + 1] < 128 && data[zeros + 1] % 32 != 0
  }

  lemma AnnexBIff(data: seq<Byte>)
    ensures ValidAnnexB(data) <==> 4 <= |data| <= 524288 && (StartsUnit(data, 2) || StartsUnit(data, 3))
  {
    if |data| >= 5 {
      assert data[..4] == [0, 0, 0, 1] <==> data[0] == 0 && data[1] == 0 && data[2] == 0 && data[3] == 1;
    }
    if |data| >= 4 {
      assert data[..3] == [0, 0, 1] <==> data[0] == 0 && data[1] == 0 && data[2] == 1;
    }
  }

  /** What `receive` takes for video. */
  predicate IsVideoFrame(frame: seq<Byte>) {
    && 0 < |frame| <= MAX_MEDIA_BYTES && frame[0] == VIDEO_KIND && DecodeFrame(frame).Some?
    && 1000 <= DecodeFrame(frame).value.micros <= 1000000 && ValidAnnexB(DecodeFrame(frame).value.data)
  }

  /** The packet that encodeVideoFrame makes of a frame of a call of two is one `receive` takes. */
  lemma OwnPacketIsTaken(frame: Frame)
    requires frame.participant == [] && ValidAnnexB(frame.data) && 1000 <= frame.micros <= 1000000
    ensures IsVideoFrame(EncodeFrame(frame, false))
    ensures DecodeFrame(EncodeFrame(frame, false)) == Some(Frame(frame.data, frame.micros, 0, [], 0))
  {
    FrameReadsBack(frame, false);
  }

  /** The kind, a duration of a millisecond to a second in four bytes, the low one first, and the data. */
  lemma VideoFrameIff(frame: seq<Byte>)
    ensures IsVideoFrame(frame) <==>
      && 9 <= |frame| && frame[0] == 2
      && 1000 <= FromFour(frame[1], frame[2], frame[3], frame[4]) <= 1000000
      && ValidAnnexB(frame[5..])
  {
    if |frame| >= 5 && frame[0] == 2 {
      LowFirst(frame[1..5]);
      assert DecodeFrame(frame) == Some(Frame(frame[5..], FromLittle(frame[1..5]), 0, [], 0));
    }
  }

  // ---------- Orientation ----------

  /** A clockwise quarter turn the peer told of, with its video or by signalling. */
  datatype Rotation = Rotation(turns: int, rtp: bool)

  /** The last of one kind that is a quarter turn. */
  function LastTurn(rotations: seq<Rotation>, rtp: bool): Option<Byte> {
    if rotations == [] then None
    else
      var last := rotations[|rotations| - 1];
      if last.rtp == rtp && 0 <= last.turns <= 3 then Some(last.turns) else LastTurn(rotations[..|rotations| - 1], rtp)
  }

  /** What came with the video goes before anything signalled. */
  function Facing(rotations: seq<Rotation>): Byte {
    match LastTurn(rotations, true)
    case Some(o) => o
    case None => if LastTurn(rotations, false).Some? then LastTurn(rotations, false).value else 0
  }

  lemma TurnedOnce(rotations: seq<Rotation>, r: Rotation, rtp: bool)
    ensures LastTurn(rotations + [r], rtp) == if r.rtp == rtp && 0 <= r.turns <= 3 then Some(r.turns) else LastTurn(rotations, rtp)
  {
    assert (rotations + [r])[..|rotations|] == rotations;
  }

  /** Once a turn has come with the video, nothing signalled later turns it. */
  lemma {:induction false} SignalsNeverTurn(rotations: seq<Rotation>, more: seq<Rotation>)
    requires LastTurn(rotations, true).Some? && forall i :: 0 <= i < |more| ==> !more[i].rtp
    ensures Facing(rotations + more) == Facing(rotations) && LastTurn(rotations + more, true) == LastTurn(rotations, true)
  {
    if more == [] {
      assert rotations + more == rotations;
    } else {
      var n := |more| - 1;
      SignalsNeverTurn(rotations, more[..n]);
      TurnedOnce(rotations + more[..n], more[n], true);
      assert rotations + more[..n] + [more[n]] == rotations + more;
    }
  }

  datatype Verdict = Invalid | Closed | Ignored | Audio(words: seq<int>) | Video(frame: Frame)

  datatype ReadResult = EndOfStream | Silence | Heard(words: seq<int>)

  // ---------- The participants' queues, as values ----------

  /** Each queue is the last of what its person wrote; frames wait only behind an open gate; and
      while any waits on an open bridge, a token is there or the writer is awake. */
  ghost predicate TurnsOk(t: Turns<Frame>, written: map<Id, seq<Frame>>, gate: bool, closed: bool, awake: bool) {
    && t.Valid()
    && written.Keys == t.out.Keys
    && (forall id :: id in t.out ==> IsSuffix(t.out[id], written[id]))
    && (forall id :: id in t.out && t.out[id] != [] ==> gate && (closed || awake))
  }

  lemma WriteOk(t: Turns<Frame>, written: map<Id, seq<Frame>>, closed: bool, awake: bool, id: Id, frame: Frame)
    requires TurnsOk(t, written, true, closed, awake) && id in t.out
    ensures TurnsOk(t.Write(id, frame), written[id := written[id] + [frame]], true, closed, true)
  {
    WriteKeepsWaiting(t, id, frame);
    SuffixGrows(t.out[id], written[id], frame, if |t.out[id]| == VIDEO_QUEUE_SIZE then 1 else 0);
    assert t.out[id][0..] == t.out[id];
  }

  lemma ServeOk(t: Turns<Frame>, written: map<Id, seq<Frame>>, gate: bool, closed: bool, awake: bool, more: bool)
    requires TurnsOk(t, written, gate, closed, awake)
    requires t.Serve().0.AnyWaiting() ==> more
    ensures TurnsOk(t.Serve().0, written, gate, closed, more)
  {
    ServeKeepsValid(t);
    var served := t.Serve().1;
    if served.Some? {
      var id := t.order[served.value];
      SuffixGrows(t.out[id], written[id], t.out[id][0], 1);
    }
  }

  lemma GateOpens(t: Turns<Frame>, written: map<Id, seq<Frame>>, gate: bool, wider: bool, closed: bool, awake: bool)
    requires TurnsOk(t, written, gate, closed, awake) && (gate ==> wider)
    ensures TurnsOk(t, written, wider, closed, awake)
  {
  }

  lemma SleepOk(t: Turns<Frame>, written: map<Id, seq<Frame>>, gate: bool, closed: bool, awake: bool, more: bool)
    requires TurnsOk(t, written, gate, closed, awake) && (closed || !gate)
    ensures TurnsOk(t, written, gate, closed, more)
  {
  }

  lemma TurnsStart()
    ensures TurnsOk(Turns([], map[], 0), map[], false, false, false)
  {
  }

  function Kept(queues: map<Id, seq<Frame>>, ids: seq<Id>): map<Id, seq<Frame>> {
    map id | id in ids :: if id in queues then queues[id] else []
  }

  lemma SyncOk(t: Turns<Frame>, written: map<Id, seq<Frame>>, gate: bool, closed: bool, awake: bool, ids: seq<Id>)
    requires TurnsOk(t, written, gate, closed, awake)
    ensures TurnsOk(t.Sync(ids), Kept(written, ids), gate, closed, awake)
  {
    SyncIsValid(t, ids);
    var next := t.Sync(ids);
    assert Kept(written, ids).Keys == next.out.Keys;
    forall id | id in next.out
      ensures IsSuffix(next.out[id], Kept(written, ids)[id]) && (next.out[id] != [] ==> id in t.out && t.out[id] != [])
    {
    }
  }

  // ---------- The audio, as values ----------

  /** The bytes heard are the packets emitted and the pending rest; each queue is the last of what
      was ever put on it; and before audio is allowed there is nothing of either. */
  ghost predicate AudioOk(
    size: nat, heard: seq<Byte>, emitted: seq<seq<Byte>>, pending: seq<Byte>, out: seq<seq<Byte>>,
    received: seq<seq<int>>, queue: seq<seq<int>>, enabled: bool)
  {
    && size > 0 && size % 2 == 0 && |pending| % 2 == 0
    && Framed(heard, emitted, pending, size)
    && IsSuffix(out, emitted) && |out| <= AUDIO_QUEUE_SIZE
    && IsSuffix(queue, received) && |queue| <= AUDIO_QUEUE_SIZE
    && (!enabled ==> received == [] && heard == [])
  }

  lemma AudioStarts(size: nat, received: seq<seq<int>>, enabled: bool)
    requires size > 0 && size % 2 == 0 && (!enabled ==> received == [])
    ensures AudioOk(size, [], [], [], [], received, [], enabled)
  {
    var none: seq<Byte> := [];
    assert none + [] == [];
    assert Payload([]) + [] == [];
  }

  lemma AudioOpens(
    size: nat, heard: seq<Byte>, emitted: seq<seq<Byte>>, pending: seq<Byte>, out: seq<seq<Byte>>,
    received: seq<seq<int>>, queue: seq<seq<int>>, enabled: bool)
    requires AudioOk(size, heard, emitted, pending, out, received, queue, enabled)
    ensures AudioOk(size, heard, emitted, pending, out, received, queue, true)
  {
  }

  lemma NothingHeard(
    size: nat, heard: seq<Byte>, emitted: seq<seq<Byte>>, pending: seq<Byte>, out: seq<seq<Byte>>,
    received: seq<seq<int>>, queue: seq<seq<int>>)
    requires AudioOk(size, heard, emitted, pending, out, received, queue, false)
    ensures pending == [] && emitted == [] && out == [] && queue == []
  {
    PayloadSize(emitted, size);
    assert |Payload(emitted) + pending| == |heard|;
    NoTimes(|emitted|, size);
  }

  class MediaBridge {
    /** audioBytes, and the most samples one call may bring. */
    const size: nat
    const maxSamples: nat
    var audioPending: seq<Byte>
    var audioIn: seq<seq<int>>
    var audioOut: seq<seq<Byte>>
    var videoIn: seq<Frame>
    var videoOut: seq<Frame>
    /** participantOut, participantOrder and participantCursor. */
    var turns: Turns<Frame>
    var participantReady: bool
    var closed: bool
    var used: bool
    var participants: bool
    var group: bool
    var audioEnabled: bool
    var videoOrientation: Byte
    var rtpOrientation: bool
    /** Every rotation told of while open. */
    ghost var rotations: seq<Rotation>
    /** The bytes of every sample since audio was allowed, and the packets made of them. */
    ghost var heard: seq<Byte>
    ghost var emitted: seq<seq<Byte>>
    /** The browser's audio frames queued since audio was allowed. */
    ghost var received: seq<seq<int>>
    /** Every frame written for a person since the roster first held them. */
    ghost var written: map<Id, seq<Frame>>
    /** The writer took the token, and has not looked for a frame yet. */
    ghost var woken: bool

    ghost predicate AudioValid()
      reads `audioPending, `heard, `emitted, `audioOut, `audioIn, `received, `audioEnabled
    {
      AudioOk(size, heard, emitted, audioPending, audioOut, received, audioIn, audioEnabled)
    }

    ghost predicate VideoValid()
      reads `videoIn, `videoOut, `audioEnabled, `group
    {
      && |videoIn| <= VIDEO_QUEUE_SIZE && |videoOut| <= VIDEO_QUEUE_SIZE
      && (!audioEnabled ==> videoIn == [] && videoOut == [])
      && (group ==> videoOut == [])
    }

    ghost predicate TurnsValid()
      reads `turns, `participantReady, `closed, `participants, `group, `audioEnabled, `written, `woken
    {
      TurnsOk(turns, written, audioEnabled && group && participants, closed, participantReady || woken)
    }

    ghost predicate OrientationValid()
      reads `videoOrientation, `rtpOrientation, `rotations
    {
      videoOrientation == Facing(rotations) && (rtpOrientation <==> LastTurn(rotations, true).Some?)
    }

    ghost predicate Valid()
      reads this
    {
      AudioValid() && VideoValid() && TurnsValid() && OrientationValid()
    }

    constructor (size: nat, maxSamples: nat)
      requires size > 0 && size % 2 == 0
      ensures Valid() && this.size == size && !closed && !used && !audioEnabled && !group && !participants
    {
      this.size, this.maxSamples := size, maxSamples;
      audioPending, audioIn, audioOut, videoIn, videoOut := [], [], [], [], [];
      turns, participantReady := Turns([], map[], 0), false;
      closed, used, participants, group, audioEnabled := false, false, false, false, false;
      videoOrientation, rtpOrientation, rotations := 0, false, [];
      heard, emitted, received, written, woken := [], [], [], map[], false;
      AudioStarts(size, [], false);
      TurnsStart();
      new;
      assert AudioValid();
      assert TurnsValid();
    }

    // ---------- Life ----------

    /** One connection is bound at most, and none once closed. */
    method Bind() returns (bound: bool)
      modifies this`used
      ensures bound == (!closed && !old(used)) && used == (old(used) || bound)
    {
      if closed || used {
        return false;
      }
      used := true;
      return true;
    }

    method Close()
      requires TurnsValid()
      modifies this`closed
      ensures TurnsValid() && closed
    {
      closed := true;
    }

    /** Nothing from before the acceptance is kept. */
    method AllowAudio()
      requires Valid()
      modifies this`audioIn, this`audioOut, this`audioPending, this`audioEnabled, this`heard, this`emitted
      ensures Valid()
      ensures !closed ==> audioEnabled && audioIn == [] && audioOut == [] && heard == [] && emitted == []
      ensures closed ==> audioEnabled == old(audioEnabled) && audioIn == old(audioIn) && audioOut == old(audioOut) && heard == old(heard)
    {
      if closed {
        return;
      }
      DrainAudio();
      OpenGate();
    }

    method OpenGate()
      requires Valid()
      modifies this`audioEnabled
      ensures Valid() && audioEnabled
    {
      AudioOpens(size, heard, emitted, audioPending, audioOut, received, audioIn, audioEnabled);
      GateOpens(turns, written, audioEnabled && group && participants, group && participants, closed, participantReady || woken);
      audioEnabled := true;
      assert AudioValid();
      assert TurnsValid();
      assert VideoValid();
    }

    method DrainAudio()
      requires AudioValid()
      modifies this`audioIn, this`audioOut, this`audioPending, this`heard, this`emitted
      ensures AudioValid() && audioIn == [] && audioOut == [] && heard == [] && emitted == []
    {
      audioIn, audioOut, audioPending := [], [], [];
      heard, emitted := [], [];
      AudioStarts(size, received, audioEnabled);
    }

    // ---------- Audio ----------

    /** What the peer hears is silence, or the oldest frame queued since audio was allowed. */
    method ReadFrame() returns (r: ReadResult)
      requires AudioValid()
      modifies this`audioIn
      ensures AudioValid()
      ensures r == EndOfStream <==> closed
      ensures r.Heard? ==> audioEnabled && old(audioIn) != [] && r.words == old(audioIn)[0] && r.words in received
      ensures audioIn == if r.Heard? then old(audioIn)[1..] else old(audioIn)
      ensures r == Silence ==> !audioEnabled || old(audioIn) == []
    {
      if closed {
        return EndOfStream;
      }
      if !audioEnabled || audioIn == [] {
        return Silence;
      }
      r := Heard(audioIn[0]);
      assert received[|received| - |audioIn|..][0] == audioIn[0];
      SuffixGrows(audioIn, received, audioIn[0], 1);
      audioIn := audioIn[1..];
    }

    /** The peer's samples, cut into the browser's packets. busy: the browser's writer takes packets
        meanwhile; otherwise the queue, which has the last of the packets, has as many as it can. */
    method WriteFrame(frame: seq<real>, busy: bool) returns (ok: bool)
      requires AudioValid()
      modifies this`audioPending, this`audioOut, this`heard, this`emitted
      ensures AudioValid()
      ensures ok <==> !closed && 0 < |frame| <= maxSamples
      ensures heard == if ok && audioEnabled then old(heard) + EncodeAll(frame) else old(heard)
      ensures old(emitted) <= emitted && IsQueued(|old(audioOut)|, |emitted| - |old(emitted)|, |audioOut|, busy)
    {
      if closed || |frame| == 0 || |frame| > maxSamples {
        return false;
      }
      ok := true;
      if !audioEnabled {
        NothingHeard(size, heard, emitted, audioPending, audioOut, received, audioIn);
        audioPending := [];
        return;
      }
      WriteWords(frame, busy);
    }

    method WriteWords(frame: seq<real>, busy: bool)
      requires AudioValid() && audioEnabled
      modifies this`audioPending, this`audioOut, this`heard, this`emitted
      ensures AudioValid() && heard == old(heard) + EncodeAll(frame)
      ensures old(emitted) <= emitted && IsQueued(|old(audioOut)|, |emitted| - |old(emitted)|, |audioOut|, busy)
    {
      var i := 0;
      while i < |frame|
        invariant 0 <= i <= |frame| && AudioValid() && audioEnabled
        invariant heard == old(heard) + EncodeAll(frame[..i]) && old(emitted) <= emitted
        invariant IsQueued(|old(audioOut)|, |emitted| - |old(emitted)|, |audioOut|, busy)
      {
        assert frame[..i + 1][..i] == frame[..i];
        WriteWord(Quantise(frame[i]), busy);
        i := i + 1;
      }
      assert frame[..i] == frame;
    }

    method WriteWord(v: int, busy: bool)
      requires AudioValid() && audioEnabled && IsInt16(v)
      modifies this`audioPending, this`audioOut, this`heard, this`emitted
      ensures AudioValid() && heard == old(heard) + Encode(v)
      ensures old(emitted) <= emitted && IsQueued(|old(audioOut)|, |emitted| - |old(emitted)|, |audioOut|, busy)
    {
      var bytes := Encode(v);
      FramedGrows(heard, emitted, audioPending, bytes, size);
      audioPending := audioPending + bytes;
      heard := heard + bytes;
      if |audioPending| == size {
        var packet := [AUDIO_KIND] + audioPending;
        audioOut := Offer(audioOut, AUDIO_QUEUE_SIZE, packet, busy);
        emitted := emitted + [packet];
        audioPending := [];
      }
    }

    /** The browser's frame, judged before anything of it is decoded or queued. */
    method Judge(frame: seq<Byte>, video: bool) returns (r: Verdict)
      ensures r == Closed <==> closed
      ensures r.Audio? <==> !closed && audioEnabled && 1 + size == |frame| <= MAX_MEDIA_BYTES && frame[0] == 1
      ensures r.Audio? ==> r.words == DecodeAll(frame[1..])
      ensures r.Video? <==> !closed && audioEnabled && video && IsVideoFrame(frame)
      ensures r.Video? ==> DecodeFrame(frame) == Some(r.frame)
      ensures r == Invalid <==>
        !closed && !(1 + size == |frame| <= MAX_MEDIA_BYTES && frame[0] == 1) && !(video && IsVideoFrame(frame))
    {
      if closed {
        return Closed;
      }
      if |frame| == 0 || |frame| > MAX_MEDIA_BYTES {
        return Invalid;
      }
      if frame[0] == AUDIO_KIND {
        if |frame| != 1 + size {
          return Invalid;
        }
        return if audioEnabled then Audio(DecodeAll(frame[1..])) else Ignored;
      }
      if frame[0] == VIDEO_KIND {
        if !video || |frame| < 9 {
          return Invalid;
        }
        var micros := FromLittle(frame[1..5]);
        if micros < 1000 || micros > 1000000 || !ValidAnnexB(frame[5..]) {
          return Invalid;
        }
        return if audioEnabled then Video(Frame(frame[5..], micros, 0, [], 0)) else Ignored;
      }
      return Invalid;
    }

    /** The judged frame queued, later and outside the lock; audio once allowed stays allowed. busy:
        the reader takes from the queue meanwhile. */
    method QueueAudio(words: seq<int>, busy: bool)
      requires AudioValid() && audioEnabled
      modifies this`audioIn, this`received
      ensures AudioValid() && received == old(received) + [words] && audioIn != [] && audioIn[|audioIn| - 1] == words
      ensures !busy ==> audioIn == Newest(old(audioIn) + [words], 5)
    {
      audioIn := Offer(audioIn, AUDIO_QUEUE_SIZE, words, busy);
      received := received + [words];
    }

    method QueueVideo(frame: Frame, busy: bool)
      requires VideoValid() && audioEnabled
      modifies this`videoIn
      ensures VideoValid() && videoIn != [] && videoIn[|videoIn| - 1] == frame
      ensures !busy ==> videoIn == Newest(old(videoIn) + [frame], 3)
    {
      videoIn := Offer(videoIn, VIDEO_QUEUE_SIZE, frame, busy);
    }

    // ---------- Video ----------

    /** A rotation with the video, just before the frame it is of. */
    method SetOrientation(turns: int)
      requires OrientationValid()
      modifies this`videoOrientation, this`rtpOrientation, this`rotations
      ensures OrientationValid() && rotations == if closed then old(rotations) else old(rotations) + [Rotation(turns, true)]
      ensures if !closed && 0 <= turns <= 3 then videoOrientation == turns && rtpOrientation
        else videoOrientation == old(videoOrientation) && rtpOrientation == old(rtpOrientation)
    {
      if !closed {
        TurnedOnce(rotations, Rotation(turns, true), true);
        TurnedOnce(rotations, Rotation(turns, true), false);
        rotations := rotations + [Rotation(turns, true)];
      }
      if turns < 0 || turns > 3 {
        return;
      }
      if !closed {
        videoOrientation, rtpOrientation := turns, true;
      }
    }

    /** A rotation signalled, perhaps late. */
    method SetVideoState(turns: int)
      requires OrientationValid()
      modifies this`videoOrientation, this`rotations
      ensures OrientationValid() && rotations == if closed then old(rotations) else old(rotations) + [Rotation(turns, false)]
      ensures videoOrientation == if !closed && !rtpOrientation && 0 <= turns <= 3 then turns else old(videoOrientation)
    {
      if !closed {
        TurnedOnce(rotations, Rotation(turns, false), true);
        TurnedOnce(rotations, Rotation(turns, false), false);
        rotations := rotations + [Rotation(turns, false)];
      }
      if turns < 0 || turns > 3 {
        return;
      }
      if !closed && !rtpOrientation {
        videoOrientation := turns;
      }
    }

    /** The peer's video of a call of two, each frame as the peer's device was turned. */
    method WriteVideo(accessUnit: seq<Byte>, busy: bool) returns (ok: bool)
      requires VideoValid() && OrientationValid()
      modifies this`videoOut
      ensures VideoValid()
      ensures ok <==> !closed && ValidAnnexB(accessUnit)
      ensures if ok && audioEnabled && !group
              then videoOut != [] && videoOut[|videoOut| - 1] == Frame(accessUnit, 33333, videoOrientation, [], 0)
              else videoOut == old(videoOut)
      ensures ok && audioEnabled && !group && !busy ==> videoOut == Newest(old(videoOut) + [videoOut[|videoOut| - 1]], 3)
    {
      ok := !closed && ValidAnnexB(accessUnit);
      if ok && audioEnabled && !group {
        videoOut := Offer(videoOut, VIDEO_QUEUE_SIZE, Frame(accessUnit, VIDEO_DURATION, videoOrientation, [], 0), busy);
      }
    }

    method EnableGroup()
      requires VideoValid() && TurnsValid()
      modifies this`group, this`videoOut
      ensures VideoValid() && TurnsValid() && group && videoOut == []
    {
      if !group {
        group := true;
        videoOut := [];
      }
    }

    /** Said once, by the one connection that was bound. */
    method SetParticipants(yes: bool)
      requires TurnsValid() && !participants
      modifies this`participants
      ensures TurnsValid() && participants == yes
    {
      participants := yes;
    }

    method WriteParticipantVideo(frame: Frame)
      requires TurnsValid()
      modifies this`turns, this`participantReady, this`written
      ensures TurnsValid()
      ensures var taken := ValidAnnexB(frame.data) && 0 < |frame.participant| <= 100 && !closed && audioEnabled && group && participants
          && Id(frame.participant) in old(turns).out;
        && turns == (if taken then old(turns).Write(Id(frame.participant), frame) else old(turns))
        && (taken ==> participantReady && written == old(written)[Id(frame.participant) := old(written)[Id(frame.participant)] + [frame]])
    {
      if !ValidAnnexB(frame.data) || |frame.participant| == 0 || |frame.participant| > 100 {
        return;
      }
      if closed || !audioEnabled || !group || !participants {
        return;
      }
      var id := Id(frame.participant);
      if id !in turns.out {
        return;
      }
      WriteOk(turns, written, closed, participantReady || woken, id, frame);
      var queue := turns.out[id];
      if |queue| == VIDEO_QUEUE_SIZE {
        queue := queue[1..];
      }
      turns := turns.(out := turns.out[id := queue + [frame]]);
      written := written[id := written[id] + [frame]];
      participantReady := true;
    }

    /** The writer takes the token; until it has looked for a frame, it is the one awake. */
    method TakeToken() returns (taken: bool)
      requires TurnsValid()
      modifies this`participantReady, this`woken
      ensures TurnsValid() && taken == old(participantReady) && !participantReady
      ensures woken == (old(woken) || taken)
    {
      taken := participantReady;
      participantReady := false;
      if taken {
        woken := true;
      }
    }

    /** The first waiting person from the cursor on, once round at most. */
    method FindTurn() returns (found: Option<nat>)
      requires turns.Valid()
      ensures found == turns.Pick(turns.cursor, |turns.order|)
    {
      var i, n := 0, |turns.order|;
      var at: nat := turns.cursor;
      while i < n
        invariant 0 <= i <= n && (n > 0 ==> at < n)
        invariant turns.Pick(turns.cursor, n) == turns.Pick(at, n - i)
      {
        if turns.out[turns.order[at]] != [] {
          return Some(at);
        }
        at := if at + 1 == n then 0 else at + 1;
        i := i + 1;
      }
      return None;
    }

    /** The frame whose turn it is. The writer may sleep after it: whoever still waits has the token. */
    method NextParticipantVideo() returns (r: Option<Frame>)
      requires TurnsValid()
      modifies this`turns, this`participantReady, this`woken
      ensures TurnsValid() && !woken
      ensures if closed || !group || !participants then r.None? && turns == old(turns) else IsTurn(old(turns), turns, r)
    {
      if closed || !group || !participants {
        SleepOk(turns, written, audioEnabled && group && participants, closed, participantReady || woken, participantReady);
        woken := false;
        return None;
      }
      ghost var start, awake := turns, participantReady || woken;
      r := TakeTurn();
      ServeKeepsValid(start);
      ServeOk(start, written, audioEnabled && group && participants, closed, awake, participantReady);
      woken := false;
    }

    method TakeTurn() returns (r: Option<Frame>)
      requires turns.Valid()
      modifies this`turns, this`participantReady
      ensures IsTurn(old(turns), turns, r)
      ensures participantReady == (old(participantReady) || (r.Some? && turns.AnyWaiting()))
    {
      ghost var start := turns;
      ServeKeepsValid(start);
      var found := FindTurn();
      if found.None? {
        return None;
      }
      var i := found.value;
      var queue := turns.out[turns.order[i]];
      turns := turns.(out := turns.out[turns.order[i] := queue[1..]], cursor := if i + 1 == |turns.order| then 0 else i + 1);
      assert turns == start.Take(i);
      if turns.AnyWaiting() {
        participantReady := true;
      }
      return Some(queue[0]);
    }

    /** The connected people as a group state has them: who stays keeps their queue. */
    method SyncGroupParticipants(ids: seq<Id>)
      requires TurnsValid()
      modifies this`turns, this`written
      ensures TurnsValid() && turns == old(turns).Sync(ids)
      ensures turns.order == ids && turns.cursor == 0
      ensures forall id :: id in turns.out <==> id in ids
      ensures forall id :: id in ids ==> turns.out[id] == if id in old(turns).out then old(turns).out[id] else []
    {
      ghost var was, before := turns, written;
      Rebuild(ids);
      SyncOk(was, before, audioEnabled && group && participants, closed, participantReady || woken, ids);
    }

    method Rebuild(ids: seq<Id>)
      modifies this`turns, this`written
      ensures turns == old(turns).Sync(ids) && written == Kept(old(written), ids)
    {
      var next := Carry(ids);
      turns := Turns(ids, next, 0);
      written := Kept(written, ids);
    }

    method Carry(ids: seq<Id>) returns (next: map<Id, seq<Frame>>)
      ensures next == turns.Sync(ids).out
    {
      next := map[];
      var i := 0;
      while i < |ids|
        invariant 0 <= i <= |ids| && next == turns.Sync(ids[..i]).out
      {
        next := next[ids[i] := if ids[i] in turns.out then turns.out[ids[i]] else []];
        assert ids[..i + 1] == ids[..i] + [ids[i]];
        i := i + 1;
      }
      assert ids[..i] == ids;
    }
  }

  /** offerLatest, by whether the queue's reader takes anything meanwhile. */
  method Offer<T>(queue: seq<T>, capacity: nat, value: T, busy: bool) returns (next: seq<T>)
    requires 0 < capacity && |queue| <= capacity
    ensures 0 < |next| <= capacity && next[|next| - 1] == value
    ensures !busy ==> next == Newest(queue + [value], capacity)
    ensures forall all: seq<T> :: IsSuffix(queue, all) ==> IsSuffix(next, all + [value])
  {
    var early: nat, late: nat := 0, 0;
    if busy {
      early, late := *, *;
    }
    var gone;
    next, gone := OfferLatest(queue, capacity, value, early, late);
  }

  /** The packets on the queue, out of as many as there were and more: the last of them at least, and
      as many as there is room for if nobody takes any meanwhile. */
  ghost predicate IsQueued(before: nat, more: int, queued: nat, busy: bool) {
    && more >= 0 && (more == 0 ==> queued == before) && (more > 0 ==> queued > 0)
    && (!busy ==> queued == if before + more <= 5 then before + more else 5)
  }

  /** One turn taken, and the frame it yields, if anybody waits. */
  ghost predicate IsTurn(t: Turns<Frame>, next: Turns<Frame>, r: Option<Frame>)
    requires t.Valid()
  {
    && next == t.Serve().0
    && (r.Some? <==> t.Serve().1.Some?)
    && (r.Some? ==> t.Waiting(t.Serve().1.value) && r.value == t.out[t.order[t.Serve().1.value]][0])
  }
}
