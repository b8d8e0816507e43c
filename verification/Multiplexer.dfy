/** One websocket shared by requests and a stream (cmd/wsctl/client.go): the read loop, the requests
    and the stream's reader, step by step in any order. A request may take any id. */
module Multiplexer {
  const STREAM_DEPTH: nat := 256

  type Tid = nat

  const ERROR: nat := 0

  /** What frames are routed by: the request's id and the frame's type. */
  datatype Key = Key(id: nat, kind: nat)

  datatype Frame = Frame(key: Key, payload: nat)

  /** The two channels of a request, each of capacity one. */
  datatype Chan = Reply(t: Tid) | ErrorReply(t: Tid)

  /** A request waits, then takes its waiters out again, then is done. */
  datatype Request = Request(id: nat, want: nat, phase: Phase)

  datatype Phase = Waiting | Cleaning | Done

  /** The read loop: between frames, holding one, sending it to a waiter or the stream, or ended. */
  datatype Reader = Reading | Got(f: Frame) | Handing(f: Frame, ch: Chan) | Streaming(f: Frame) | Stopped

  datatype Route = ToWaiter(ch: Chan) | ToStream

  /** frames: every frame read, in order; routes: where each went; streamed: all the stream was sent.
      finished: the flag of `once`; closes: how often the stream was closed. */
  datatype Sys = Sys(
    waiters: map<Key, Chan>, chans: map<Chan, seq<Frame>>, requests: map<Tid, Request>, reader: Reader,
    stream: seq<Frame>, streamed: seq<Frame>, finished: bool, closes: nat, frames: seq<Frame>, routes: seq<Route>)

  const INIT: Sys := Sys(map[], map[], map[], Reading, [], [], false, 0, [], [])

  datatype Step =
    | Register(t: Tid, id: nat, want: nat)
    | Read(f: Frame)
    | Lookup
    | Hand
    | SendStream
    | TakeStream
    | End
    | Finish
    | TakeReply(t: Tid, failure: bool)
    | GiveUp(t: Tid)
    | Cleanup(t: Tid)

  function Registered(s: Sys, t: Tid, id: nat, want: nat): Sys {
    var key, errKey := Key(id, want), Key(id, ERROR);
    if key in s.waiters then s
    else
      var waiters := s.waiters[key := Reply(t)];
      s.(waiters := if errKey in waiters then waiters else waiters[errKey := ErrorReply(t)],
         chans := s.chans[Reply(t) := []][ErrorReply(t) := []],
         requests := s.requests[t := Request(id, want, Waiting)])
  }

  function Routed(s: Sys, f: Frame): Sys {
    if f.key in s.waiters then s.(waiters := s.waiters - {f.key}, reader := Handing(f, s.waiters[f.key]))
    else s.(reader := Streaming(f))
  }

  /** The keys a request registers under, and takes out again whoever they are registered for by then. */
  function KeysOf(r: Request): set<Key> {
    {Key(r.id, r.want), Key(r.id, ERROR)}
  }

  function Cleaned(s: Sys, t: Tid): Sys
    requires t in s.requests
  {
    var r := s.requests[t];
    s.(waiters := s.waiters - KeysOf(r), requests := s.requests[t := r.(phase := Done)])
  }

  /** finish: the stream and `done` are closed together, by the first call. */
  function Finished(s: Sys): Sys {
    if s.finished then s else s.(finished := true, closes := s.closes + 1)
  }

  /** Whether a step can be taken; a send to a full channel cannot. finish is called by the read loop
      alone once nothing more is read, and again by its deferred call: any number of times here. */
  predicate Enabled(s: Sys, step: Step) {
    match step
    case Register(t, _, _) => t !in s.requests
    case Read(f) => s.reader == Reading
    case Lookup => s.reader.Got?
    case Hand => s.reader.Handing? && s.reader.ch in s.chans && |s.chans[s.reader.ch]| < 1
    case SendStream => s.reader.Streaming? && |s.stream| < STREAM_DEPTH
    case TakeStream => s.stream != []
    case End => s.reader == Reading || s.reader.Streaming?
    case Finish => s.reader == Stopped
    case TakeReply(t, failure) =>
      && t in s.requests && s.requests[t].phase == Waiting
      && var ch := if failure then ErrorReply(t) else Reply(t);
      && ch in s.chans && s.chans[ch] != []
    case GiveUp(t) => t in s.requests && s.requests[t].phase == Waiting
    case Cleanup(t) => t in s.requests && s.requests[t].phase == Cleaning
  }

  function Do(s: Sys, step: Step): Sys
    requires Enabled(s, step)
  {
    match step
    case Register(t, id, want) => Registered(s, t, id, want)
    case Read(f) => s.(reader := Got(f), frames := s.frames + [f])
    case Lookup => Routed(s, s.reader.f)
    case Hand =>
      var ch := s.reader.ch;
      s.(reader := Reading, chans := s.chans[ch := s.chans[ch] + [s.reader.f]], routes := s.routes + [ToWaiter(ch)])
    case SendStream =>
      s.(reader := Reading, stream := s.stream + [s.reader.f], streamed := s.streamed + [s.reader.f], routes := s.routes + [ToStream])
    case TakeStream => s.(stream := s.stream[1..])
    case End => s.(reader := Stopped)
    case Finish => Finished(s)
    case TakeReply(t, failure) => s.(requests := s.requests[t := s.requests[t].(phase := Cleaning)])
    case GiveUp(t) => s.(requests := s.requests[t := s.requests[t].(phase := Cleaning)])
    case Cleanup(t) => Cleaned(s, t)
  }

  function Run(steps: seq<Step>): Sys {
    if steps == [] then INIT
    else
      var s := Run(steps[..|steps| - 1]);
      if Enabled(s, steps[|steps| - 1]) then Do(s, steps[|steps| - 1]) else s
  }

  // ---------- The invariant ----------

  /** The key a channel is registered under. */
  function KeyOf(requests: map<Tid, Request>, ch: Chan): Key
    requires ch.t in requests
  {
    if ch.Reply? then Key(requests[ch.t].id, requests[ch.t].want) else Key(requests[ch.t].id, ERROR)
  }

  /** A registered channel is a request's in flight, under its key, empty, and not being sent to. */
  ghost predicate WaitersInv(waiters: map<Key, Chan>, chans: map<Chan, seq<Frame>>, requests: map<Tid, Request>, reader: Reader) {
    forall k :: k in waiters ==>
      && waiters[k].t in requests && requests[waiters[k].t].phase != Done && KeyOf(requests, waiters[k]) == k
      && waiters[k] in chans && chans[waiters[k]] == []
      && (reader.Handing? ==> reader.ch != waiters[k])
  }

  ghost predicate ReaderInv(chans: map<Chan, seq<Frame>>, requests: map<Tid, Request>, reader: Reader) {
    reader.Handing? ==>
      reader.ch.t in requests && KeyOf(requests, reader.ch) == reader.f.key && reader.ch in chans && chans[reader.ch] == []
  }

  ghost predicate ChansInv(chans: map<Chan, seq<Frame>>, requests: map<Tid, Request>) {
    && (forall t :: t in requests ==> Reply(t) in chans && ErrorReply(t) in chans)
    && (forall ch :: ch in chans ==> ch.t in requests)
  }

  /** Every frame read is routed, in order, but for one still in hand or lost with the context. */
  ghost predicate OrderInv(reader: Reader, frames: seq<Frame>, routes: seq<Route>) {
    && |routes| <= |frames| <= |routes| + 1
    && (reader == Reading ==> |frames| == |routes|)
    && (reader.Got? || reader.Handing? || reader.Streaming? ==> |frames| == |routes| + 1 && frames[|routes|] == reader.f)
  }

  ghost predicate OnceInv(reader: Reader, finished: bool, closes: nat) {
    closes == (if finished then 1 else 0) && (finished ==> reader == Stopped)
  }

  /** A frame routed to a waiter is of the waiter's key, and the only thing its channel ever held. */
  ghost predicate DeliveredInv(requests: map<Tid, Request>, chans: map<Chan, seq<Frame>>, frames: seq<Frame>, routes: seq<Route>) {
    && |routes| <= |frames|
    && (forall i :: 0 <= i < |routes| && routes[i].ToWaiter? ==>
          && routes[i].ch.t in requests && KeyOf(requests, routes[i].ch) == frames[i].key
          && routes[i].ch in chans && chans[routes[i].ch] == [frames[i]])
    && (forall i, j :: 0 <= i < j < |routes| && routes[i].ToWaiter? ==> routes[i] != routes[j])
  }

  /** The frames routed to the stream, in order. */
  function Unclaimed(frames: seq<Frame>, routes: seq<Route>): seq<Frame>
    requires |routes| <= |frames|
  {
    if routes == [] then []
    else
      var n := |routes| - 1;
      Unclaimed(frames, routes[..n]) + if routes[n].ToStream? then [frames[n]] else []
  }

  /** The frames before the n-th that went to the stream. */
  ghost function StreamedBefore(routes: seq<Route>, n: nat): set<nat>
    requires n <= |routes|
  {
    set i: nat | i < n && routes[i].ToStream?
  }

  lemma StreamedNext(routes: seq<Route>, n: nat)
    requires n < |routes|
    ensures |StreamedBefore(routes, n + 1)| == |StreamedBefore(routes, n)| + (if routes[n].ToStream? then 1 else 0)
  {
    assert StreamedBefore(routes, n + 1) == StreamedBefore(routes, n) + (if routes[n].ToStream? then {n} else {});
  }

  lemma {:induction false} UnclaimedSize(frames: seq<Frame>, routes: seq<Route>)
    requires |routes| <= |frames|
    ensures |Unclaimed(frames, routes)| == |StreamedBefore(routes, |routes|)|
  {
    if routes != [] {
      var n := |routes| - 1;
      UnclaimedSize(frames, routes[..n]);
      assert StreamedBefore(routes[..n], n) == StreamedBefore(routes, n);
      StreamedNext(routes, n);
    } else {
      assert StreamedBefore(routes, 0) == {};
    }
  }

  /** The stream has each of them in its place: after as many as went there before it. */
  lemma {:induction false} UnclaimedAt(frames: seq<Frame>, routes: seq<Route>, i: nat)
    requires i < |routes| <= |frames| && routes[i].ToStream?
    ensures var k := |StreamedBefore(routes, i)|;
      k < |Unclaimed(frames, routes)| && Unclaimed(frames, routes)[k] == frames[i]
  {
    var n := |routes| - 1;
    UnclaimedSize(frames, routes[..n]);
    assert StreamedBefore(routes[..n], n) == StreamedBefore(routes, n);
    if i < n {
      UnclaimedAt(frames, routes[..n], i);
      assert StreamedBefore(routes[..n], i) == StreamedBefore(routes, i);
    }
  }

  ghost predicate Inv(s: Sys) {
    && WaitersInv(s.waiters, s.chans, s.requests, s.reader)
    && ReaderInv(s.chans, s.requests, s.reader)
    && ChansInv(s.chans, s.requests)
    && OrderInv(s.reader, s.frames, s.routes)
    && OnceInv(s.reader, s.finished, s.closes)
    && DeliveredInv(s.requests, s.chans, s.frames, s.routes)
    && s.streamed == Unclaimed(s.frames, s.routes)
  }

  lemma RegisterKeepsWaiters(s: Sys, t: Tid, id: nat, want: nat)
    requires WaitersInv(s.waiters, s.chans, s.requests, s.reader) && ReaderInv(s.chans, s.requests, s.reader)
    requires t !in s.requests
    ensures var next := Registered(s, t, id, want); WaitersInv(next.waiters, next.chans, next.requests, next.reader)
  {
    var next := Registered(s, t, id, want);
    forall k | k in next.waiters
      ensures k in s.waiters ==> s.waiters[k] == next.waiters[k] && s.waiters[k].t != t && KeyOf(s.requests, s.waiters[k]) == k
      ensures k !in s.waiters ==> next.waiters[k].t == t && KeyOf(next.requests, next.waiters[k]) == k && next.chans[next.waiters[k]] == []
    {
    }
  }

  lemma RegisterKeepsInv(s: Sys, t: Tid, id: nat, want: nat)
    requires Inv(s) && t !in s.requests
    ensures Inv(Registered(s, t, id, want))
  {
    var next := Registered(s, t, id, want);
    RegisterKeepsWaiters(s, t, id, want);
    RegisterKeepsDelivered(s, t, id, want);
  }

  lemma RegisterKeepsDelivered(s: Sys, t: Tid, id: nat, want: nat)
    requires DeliveredInv(s.requests, s.chans, s.frames, s.routes) && ChansInv(s.chans, s.requests) && t !in s.requests
    ensures var next := Registered(s, t, id, want);
      DeliveredInv(next.requests, next.chans, next.frames, next.routes) && ChansInv(next.chans, next.requests)
  {
  }

  lemma ReadKeepsInv(s: Sys, f: Frame)
    requires Inv(s) && s.reader == Reading
    ensures Inv(Do(s, Read(f)))
  {
    var next := Do(s, Read(f));
    UnclaimedPrefix(s.frames, [f], s.routes);
    assert DeliveredInv(next.requests, next.chans, next.frames, next.routes);
  }

  lemma LookupKeepsInv(s: Sys)
    requires Inv(s) && s.reader.Got?
    ensures Inv(Do(s, Lookup))
  {
    var next := Do(s, Lookup);
    var f := s.reader.f;
    if f.key in s.waiters {
      forall k | k in next.waiters
        ensures next.waiters[k] != s.waiters[f.key]
      {
        assert KeyOf(s.requests, s.waiters[k]) == k && KeyOf(s.requests, s.waiters[f.key]) == f.key;
      }
      assert WaitersInv(next.waiters, next.chans, next.requests, next.reader);
    }
  }

  lemma HandDelivers(s: Sys)
    requires Inv(s) && Enabled(s, Hand)
    ensures var next := Do(s, Hand); DeliveredInv(next.requests, next.chans, next.frames, next.routes)
  {
    var next := Do(s, Hand);
    var ch, n := s.reader.ch, |s.routes|;
    assert s.chans[ch] + [s.reader.f] == [s.reader.f];
    assert next.chans == s.chans[ch := [s.reader.f]];
    assert forall i :: 0 <= i < n ==> next.routes[i] == s.routes[i] && s.routes[i] != ToWaiter(ch);
    assert next.routes[n] == ToWaiter(ch) && s.frames[n] == s.reader.f;
  }

  lemma HandKeepsInv(s: Sys)
    requires Inv(s) && Enabled(s, Hand)
    ensures Inv(Do(s, Hand))
  {
    var next := Do(s, Hand);
    var n := |s.routes|;
    HandDelivers(s);
    assert next.routes[..n] == s.routes && next.routes[n].ToWaiter?;
    assert Unclaimed(next.frames, next.routes) == Unclaimed(s.frames, s.routes) + [];
    assert WaitersInv(next.waiters, next.chans, next.requests, next.reader);
  }

  lemma SendDelivers(requests: map<Tid, Request>, chans: map<Chan, seq<Frame>>, frames: seq<Frame>, routes: seq<Route>)
    requires DeliveredInv(requests, chans, frames, routes) && |routes| < |frames|
    ensures DeliveredInv(requests, chans, frames, routes + [ToStream])
  {
  }

  lemma SendKeepsInv(s: Sys)
    requires Inv(s) && Enabled(s, SendStream)
    ensures Inv(Do(s, SendStream))
  {
    var next := Do(s, SendStream);
    assert next.routes[..|s.routes|] == s.routes;
    SendDelivers(s.requests, s.chans, s.frames, s.routes);
  }

  /** A request moved on takes no channel and no key from another. */
  lemma PhaseKeepsInv(s: Sys, t: Tid)
    requires Inv(s) && t in s.requests && s.requests[t].phase == Waiting
    ensures Inv(s.(requests := s.requests[t := s.requests[t].(phase := Cleaning)]))
  {
    var requests := s.requests[t := s.requests[t].(phase := Cleaning)];
    assert WaitersInv(s.waiters, s.chans, requests, s.reader);
    assert DeliveredInv(requests, s.chans, s.frames, s.routes);
  }

  lemma CleanupKeepsInv(s: Sys, t: Tid)
    requires Inv(s) && Enabled(s, Cleanup(t))
    ensures Inv(Cleaned(s, t))
  {
    var next := Cleaned(s, t);
    forall k | k in next.waiters
      ensures next.waiters[k].t != t
    {
      assert KeyOf(s.requests, s.waiters[k]) == k;
    }
    assert WaitersInv(next.waiters, next.chans, next.requests, next.reader);
    assert DeliveredInv(next.requests, next.chans, next.frames, next.routes);
  }

  lemma {:induction false} UnclaimedPrefix(frames: seq<Frame>, more: seq<Frame>, routes: seq<Route>)
    requires |routes| <= |frames|
    ensures Unclaimed(frames + more, routes) == Unclaimed(frames, routes)
  {
    if routes != [] {
      UnclaimedPrefix(frames, more, routes[..|routes| - 1]);
    }
  }

  lemma StepKeepsInv(s: Sys, step: Step)
    requires Inv(s) && Enabled(s, step)
    ensures Inv(Do(s, step))
  {
    match step
    case Register(t, id, want) => RegisterKeepsInv(s, t, id, want);
    case Read(f) => ReadKeepsInv(s, f);
    case Lookup => LookupKeepsInv(s);
    case Hand => HandKeepsInv(s);
    case TakeReply(t, _) => PhaseKeepsInv(s, t);
    case GiveUp(t) => PhaseKeepsInv(s, t);
    case Cleanup(t) => CleanupKeepsInv(s, t);
    case SendStream => SendKeepsInv(s);
    case _ =>
  }

  lemma {:induction false} InvAlways(steps: seq<Step>)
    ensures Inv(Run(steps))
  {
    if steps != [] {
      InvAlways(steps[..|steps| - 1]);
      if Enabled(Run(steps[..|steps| - 1]), steps[|steps| - 1]) {
        StepKeepsInv(Run(steps[..|steps| - 1]), steps[|steps| - 1]);
      }
    }
  }

  // ---------- Routing ----------

  /** The read loop never blocks on a waiter: a frame in its hand can always be sent. */
  lemma WaiterNeverBlocks(steps: seq<Step>)
    requires Run(steps).reader.Handing?
    ensures Enabled(Run(steps), Hand)
  {
    InvAlways(steps);
  }

  /** Every frame read went to one place, in order, but for the last while the loop holds it or when
      the context ended on it: a waiter of its own key, whose only frame it is, or the stream. */
  lemma {:induction false} EveryFrameRouted(steps: seq<Step>, i: nat)
    requires i < |Run(steps).frames|
    ensures var s := Run(steps);
      && |s.frames| - 1 <= |s.routes| <= |s.frames|
      && (s.reader == Reading ==> |s.routes| == |s.frames|)
      && (i < |s.routes| && s.routes[i].ToWaiter? ==>
            && s.routes[i].ch.t in s.requests && KeyOf(s.requests, s.routes[i].ch) == s.frames[i].key
            && s.routes[i].ch in s.chans && s.chans[s.routes[i].ch] == [s.frames[i]]
            && forall j :: 0 <= j < |s.routes| && j != i ==> s.routes[j] != s.routes[i])
      && s.streamed == Unclaimed(s.frames, s.routes)
  {
    InvAlways(steps);
  }

  // ---------- Who is still waited for ----------

  /** The channel is registered under its request's key. */
  predicate Listens(s: Sys, ch: Chan)
    requires ch.t in s.requests
  {
    var k := KeyOf(s.requests, ch); k in s.waiters && s.waiters[k] == ch
  }

  /** The channel has its frame, or the read loop is about to send it. */
  predicate Served(s: Sys, ch: Chan) {
    (ch in s.chans && s.chans[ch] != []) || (s.reader.Handing? && s.reader.ch == ch)
  }

  /** The step takes whatever is registered under the key out. */
  predicate TakesOut(s: Sys, step: Step, k: Key) {
    match step
    case Lookup => s.reader.Got? && s.reader.f.key == k
    case Cleanup(u) => u in s.requests && k in KeysOf(s.requests[u])
    case _ => false
  }

  /** The request stays what it is, and once done stays done. */
  ghost predicate Stays(s: Sys, next: Sys, t: Tid)
    requires t in s.requests
  {
    && t in next.requests
    && next.requests[t].id == s.requests[t].id && next.requests[t].want == s.requests[t].want
    && (s.requests[t].phase == Done ==> next.requests[t].phase == Done)
  }

  /** What one step does to a request that is there, and to its channels. */
  ghost predicate Heeds(s: Sys, step: Step, next: Sys, ch: Chan)
    requires ch.t in s.requests
  {
    && Stays(s, next, ch.t)
    && (step == Cleanup(ch.t) ==> next.requests[ch.t].phase == Done)
    && (Listens(next, ch) <==> Listens(s, ch) && !TakesOut(s, step, KeyOf(s.requests, ch)))
    && (Served(next, ch) <==> Served(s, ch) || (Listens(s, ch) && step.Lookup? && TakesOut(s, step, KeyOf(s.requests, ch))))
  }

  lemma RegisterListens(s: Sys, t: Tid, id: nat, want: nat, ch: Chan)
    requires ChansInv(s.chans, s.requests) && t !in s.requests && ch.t in s.requests
    ensures Heeds(s, Register(t, id, want), Registered(s, t, id, want), ch)
  {
  }

  lemma LookupListens(s: Sys, ch: Chan)
    requires WaitersInv(s.waiters, s.chans, s.requests, s.reader) && s.reader.Got? && ch.t in s.requests
    ensures Heeds(s, Lookup, Routed(s, s.reader.f), ch)
  {
    var k := s.reader.f.key;
    assert k in s.waiters ==> KeyOf(s.requests, s.waiters[k]) == k;
  }

  lemma HandListens(s: Sys, ch: Chan)
    requires Enabled(s, Hand) && ch.t in s.requests
    ensures Heeds(s, Hand, Do(s, Hand), ch)
  {
  }

  lemma RequestListens(s: Sys, step: Step, ch: Chan)
    requires Enabled(s, step) && (step.TakeReply? || step.GiveUp? || step.Cleanup?) && ch.t in s.requests
    ensures Heeds(s, step, Do(s, step), ch)
  {
  }

  lemma StepListens(s: Sys, step: Step, ch: Chan)
    requires Inv(s) && Enabled(s, step) && ch.t in s.requests
    ensures Heeds(s, step, Do(s, step), ch)
  {
    match step
    case Register(t, id, want) => RegisterListens(s, t, id, want, ch);
    case Lookup => LookupListens(s, ch);
    case Hand => HandListens(s, ch);
    case TakeReply(_, _) => RequestListens(s, step, ch);
    case GiveUp(_) => RequestListens(s, step, ch);
    case Cleanup(_) => RequestListens(s, step, ch);
    case _ =>
  }

  /** The call at j is another request's cleanup, which takes the key of request t. */
  ghost predicate CutsAt(steps: seq<Step>, j: nat, t: Tid, k: Key)
    requires j < |steps|
  {
    var s := Run(steps[..j]);
    && t in s.requests && Enabled(s, steps[j])
    && steps[j].Cleanup? && steps[j].t != t && k in KeysOf(s.requests[steps[j].t])
  }

  ghost predicate Cut(steps: seq<Step>, t: Tid, k: Key) {
    exists j :: 0 <= j < |steps| && CutsAt(steps, j, t, k)
  }

  /** Request t came at j, and no other was then registered for the errors of its id. */
  ghost predicate ListensFromAt(steps: seq<Step>, j: nat, t: Tid)
    requires j < |steps|
  {
    var s := Run(steps[..j]);
    && steps[j].Register? && steps[j].t == t && t !in s.requests && steps[j].want != ERROR
    && Key(steps[j].id, steps[j].want) !in s.waiters && Key(steps[j].id, ERROR) !in s.waiters
  }

  ghost predicate ListensFromStart(steps: seq<Step>, t: Tid) {
    exists j :: 0 <= j < |steps| && ListensFromAt(steps, j, t)
  }

  lemma CutStep(before: seq<Step>, step: Step, t: Tid, k: Key)
    ensures Cut(before + [step], t, k) <==> Cut(before, t, k) || CutsAt(before + [step], |before|, t, k)
  {
    var steps := before + [step];
    forall j | 0 <= j < |before|
      ensures CutsAt(steps, j, t, k) <==> CutsAt(before, j, t, k)
    {
      assert steps[..j] == before[..j];
    }
    if Cut(before, t, k) {
      var j :| 0 <= j < |before| && CutsAt(before, j, t, k);
      assert CutsAt(steps, j, t, k);
    }
  }

  lemma ListensFromStep(before: seq<Step>, step: Step, t: Tid)
    ensures ListensFromStart(before + [step], t) <==> ListensFromStart(before, t) || ListensFromAt(before + [step], |before|, t)
  {
    var steps := before + [step];
    forall j | 0 <= j < |before|
      ensures ListensFromAt(steps, j, t) <==> ListensFromAt(before, j, t)
    {
      assert steps[..j] == before[..j];
    }
    if ListensFromStart(before, t) {
      var j :| 0 <= j < |before| && ListensFromAt(before, j, t);
      assert ListensFromAt(steps, j, t);
    }
  }

  /** Nothing names a request before it has come. */
  lemma {:induction false} NothingBefore(steps: seq<Step>, t: Tid, k: Key)
    requires t !in Run(steps).requests
    ensures !Cut(steps, t, k) && !ListensFromStart(steps, t)
  {
    if steps != [] {
      var before, step := steps[..|steps| - 1], steps[|steps| - 1];
      assert before + [step] == steps && steps[..|before|] == before;
      InvAlways(before);
      if t in Run(before).requests {
        if Enabled(Run(before), step) {
          StepListens(Run(before), step, Reply(t));
        }
      } else {
        NothingBefore(before, t, k);
        CutStep(before, step, t, k);
        ListensFromStep(before, step, t);
      }
    }
  }

  /** Exactly when a request not yet done is still registered: it has no frame on the channel, no
      other request that shares the key has cleaned up since it came and, for errors, no other was
      registered for those of its id when it came. */
  lemma {:induction false} ListensIff(steps: seq<Step>, ch: Chan)
    requires ch.t in Run(steps).requests && Run(steps).requests[ch.t].phase != Done
    ensures var s := Run(steps);
      Listens(s, ch) <==>
        && (ch.Reply? || ListensFromStart(steps, ch.t))
        && !Served(s, ch)
        && !Cut(steps, ch.t, KeyOf(s.requests, ch))
  {
    var before, step := steps[..|steps| - 1], steps[|steps| - 1];
    assert before + [step] == steps && steps[..|before|] == before;
    var s, k := Run(before), KeyOf(Run(steps).requests, ch);
    InvAlways(before);
    CutStep(before, step, ch.t, k);
    ListensFromStep(before, step, ch.t);
    if ch.t !in s.requests {
      NothingBefore(before, ch.t, k);
      FirstListens(s, step, ch);
    } else if Enabled(s, step) {
      StepListens(s, step, ch);
      ListensIff(before, ch);
    } else {
      ListensIff(before, ch);
    }
  }

  lemma FirstListens(s: Sys, step: Step, ch: Chan)
    requires Inv(s) && Enabled(s, step) && ch.t !in s.requests && ch.t in Do(s, step).requests
    ensures step.Register? && step.t == ch.t && Key(step.id, step.want) !in s.waiters
    ensures var next := Do(s, step);
      && !Served(next, ch)
      && (Listens(next, ch) <==> ch.Reply? || (step.want != ERROR && Key(step.id, ERROR) !in s.waiters))
  {
  }

  /** Where the read loop takes a reply: to the request that waits for it, unless it has one, or
      another request of its id and type has cleaned up since it came. */
  lemma ReplyIsHandedIff(steps: seq<Step>, t: Tid)
    requires var s := Run(steps);
      && t in s.requests && s.requests[t].phase == Waiting
      && s.reader.Got? && s.reader.f.key == KeyOf(s.requests, Reply(t))
    ensures var s := Run(steps);
      Do(s, Lookup).reader == Handing(s.reader.f, Reply(t)) <==>
        !Served(s, Reply(t)) && !Cut(steps, t, KeyOf(s.requests, Reply(t)))
  {
    ListensIff(steps, Reply(t));
  }

  /** And an error of its id: another request of it must not have been registered for errors before
      it, nor have cleaned up since. */
  lemma ErrorIsHandedIff(steps: seq<Step>, t: Tid)
    requires var s := Run(steps);
      && t in s.requests && s.requests[t].phase == Waiting
      && s.reader.Got? && s.reader.f.key == KeyOf(s.requests, ErrorReply(t))
    ensures var s := Run(steps);
      Do(s, Lookup).reader == Handing(s.reader.f, ErrorReply(t)) <==>
        ListensFromStart(steps, t) && !Served(s, ErrorReply(t)) && !Cut(steps, t, KeyOf(s.requests, ErrorReply(t)))
  {
    ListensIff(steps, ErrorReply(t));
  }

  // ---------- Distinct ids ----------

  predicate InFlight(s: Sys, id: nat) {
    exists t :: t in s.requests && s.requests[t].id == id && s.requests[t].phase != Done
  }

  /** Nobody takes the id of a request that is not done. */
  ghost predicate DistinctIds(steps: seq<Step>) {
    forall j :: 0 <= j < |steps| && steps[j].Register? ==> !InFlight(Run(steps[..j]), steps[j].id)
  }

  predicate Rivals(a: Request, b: Request) {
    a.id == b.id && a.phase != Done && b.phase != Done
  }

  ghost predicate NoRivals(s: Sys) {
    forall t, u :: t in s.requests && u in s.requests && Rivals(s.requests[t], s.requests[u]) ==> t == u
  }

  lemma DistinctPrefix(steps: seq<Step>, n: nat)
    requires DistinctIds(steps) && n <= |steps|
    ensures DistinctIds(steps[..n])
  {
    forall j | 0 <= j < n && steps[..n][j].Register?
      ensures !InFlight(Run(steps[..n][..j]), steps[..n][j].id)
    {
      assert steps[..n][..j] == steps[..j];
    }
  }

  lemma {:induction false} DistinctMeansNoRivals(steps: seq<Step>)
    requires DistinctIds(steps)
    ensures NoRivals(Run(steps))
  {
    if steps != [] {
      var n := |steps| - 1;
      DistinctPrefix(steps, n);
      DistinctMeansNoRivals(steps[..n]);
      if Enabled(Run(steps[..n]), steps[n]) {
        StepMakesNoRivals(Run(steps[..n]), steps[n]);
      }
    }
  }

  lemma StepMakesNoRivals(s: Sys, step: Step)
    requires NoRivals(s) && Enabled(s, step) && (step.Register? ==> !InFlight(s, step.id))
    ensures NoRivals(Do(s, step))
  {
    var next := Do(s, step);
    forall t, u | t in next.requests && u in next.requests && Rivals(next.requests[t], next.requests[u])
      ensures t == u
    {
      assert t in s.requests && u in s.requests ==> Rivals(s.requests[t], s.requests[u]);
    }
  }

  lemma StepStays(s: Sys, step: Step, t: Tid)
    requires Enabled(s, step) && t in s.requests
    ensures Stays(s, Do(s, step), t)
  {
  }

  lemma {:induction false} DoneForGood(steps: seq<Step>, n: nat, t: Tid)
    requires n <= |steps| && t in Run(steps[..n]).requests
    ensures Stays(Run(steps[..n]), Run(steps), t)
    decreases |steps|
  {
    if n == |steps| {
      assert steps[..n] == steps;
    } else {
      var m := |steps| - 1;
      assert steps[..m][..n] == steps[..n];
      DoneForGood(steps[..m], n, t);
      if Enabled(Run(steps[..m]), steps[m]) {
        StepStays(Run(steps[..m]), steps[m], t);
      }
    }
  }

  lemma DistinctMeansUncut(steps: seq<Step>, t: Tid, k: Key)
    requires DistinctIds(steps) && t in Run(steps).requests && Run(steps).requests[t].phase != Done
    requires k.id == Run(steps).requests[t].id
    ensures !Cut(steps, t, k)
  {
    forall j | 0 <= j < |steps|
      ensures !CutsAt(steps, j, t, k)
    {
      if t in Run(steps[..j]).requests {
        DistinctPrefix(steps, j);
        DistinctMeansNoRivals(steps[..j]);
        DoneForGood(steps, j, t);
        NoRivalCuts(Run(steps[..j]), steps[j], t, k);
      }
    }
  }

  lemma NoRivalCuts(s: Sys, step: Step, t: Tid, k: Key)
    requires NoRivals(s) && t in s.requests && s.requests[t].phase != Done && k.id == s.requests[t].id
    ensures Enabled(s, step) && step.Cleanup? && k in KeysOf(s.requests[step.t]) ==> step.t == t
  {
    assert step.Cleanup? && step.t in s.requests && k in KeysOf(s.requests[step.t]) && s.requests[step.t].phase != Done ==>
      Rivals(s.requests[t], s.requests[step.t]);
  }

  lemma {:induction false} DistinctMeansFromStart(steps: seq<Step>, t: Tid)
    requires DistinctIds(steps) && t in Run(steps).requests && Run(steps).requests[t].want != ERROR
    ensures ListensFromStart(steps, t)
  {
    var n := |steps| - 1;
    var before := steps[..n];
    assert before + [steps[n]] == steps;
    InvAlways(before);
    ListensFromStep(before, steps[n], t);
    if t in Run(before).requests {
      DistinctPrefix(steps, n);
      DoneForGood(steps, n, t);
      DistinctMeansFromStart(before, t);
    } else {
      FirstListens(Run(before), steps[n], Reply(t));
      assert ListensFromAt(steps, n, t);
    }
  }

  /** So with distinct ids a request waits for its reply, and for an error, until it has one. */
  lemma {:induction false} DistinctIdsSuffice(steps: seq<Step>, t: Tid)
    requires DistinctIds(steps) && t in Run(steps).requests && Run(steps).requests[t].phase != Done
    ensures var s := Run(steps);
      && (Listens(s, Reply(t)) <==> !Served(s, Reply(t)))
      && (s.requests[t].want != ERROR ==> (Listens(s, ErrorReply(t)) <==> !Served(s, ErrorReply(t))))
  {
    var s := Run(steps);
    ListensIff(steps, Reply(t));
    DistinctMeansUncut(steps, t, KeyOf(s.requests, Reply(t)));
    if s.requests[t].want != ERROR {
      ListensIff(steps, ErrorReply(t));
      DistinctMeansUncut(steps, t, KeyOf(s.requests, ErrorReply(t)));
      DistinctMeansFromStart(steps, t);
    }
  }

  // ---------- Two requests of one id ----------

  lemma RunOne(steps: seq<Step>, step: Step)
    requires Enabled(Run(steps), step)
    ensures Run(steps + [step]) == Do(Run(steps), step)
  {
    assert (steps + [step])[..|steps|] == steps;
  }

  function Known(waiters: map<Key, Chan>, chans: map<Chan, seq<Frame>>, requests: map<Tid, Request>): Sys {
    INIT.(waiters := waiters, chans := chans, requests := requests)
  }

  const ONE_WAITS: Sys := Known(
    map[Key(7, 3) := Reply(1), Key(7, ERROR) := ErrorReply(1)], map[Reply(1) := [], ErrorReply(1) := []], map[1 := Request(7, 3, Waiting)])

  lemma SecondGivesUp(steps: seq<Step>)
    requires Run(steps) == ONE_WAITS
    ensures var s := Run(steps + [Register(2, 7, 4)] + [GiveUp(2)] + [Cleanup(2)]);
      && s.waiters == map[Key(7, 3) := Reply(1)] && s.reader == Reading && s.stream == s.streamed == []
      && s.requests == map[1 := Request(7, 3, Waiting), 2 := Request(7, 4, Done)]
      && s.chans == ONE_WAITS.chans[Reply(2) := []][ErrorReply(2) := []]
  {
    RunOne(steps, Register(2, 7, 4));
    var two := Registered(ONE_WAITS, 2, 7, 4);
    assert two.waiters == map[Key(7, 3) := Reply(1), Key(7, ERROR) := ErrorReply(1), Key(7, 4) := Reply(2)];
    GivesUp(steps + [Register(2, 7, 4)], 2);
    assert two.waiters - {Key(7, 4), Key(7, ERROR)} == map[Key(7, 3) := Reply(1)];
  }

  lemma GivesUp(steps: seq<Step>, t: Tid)
    requires t in Run(steps).requests && Run(steps).requests[t].phase == Waiting
    ensures var s := Run(steps);
      Run(steps + [GiveUp(t)] + [Cleanup(t)]) ==
        s.(requests := s.requests[t := s.requests[t].(phase := Done)], waiters := s.waiters - KeysOf(s.requests[t]))
  {
    var s := Run(steps);
    RunOne(steps, GiveUp(t));
    RunOne(steps + [GiveUp(t)], Cleanup(t));
    assert s.requests[t := s.requests[t].(phase := Cleaning)][t := s.requests[t].(phase := Done)] == s.requests[t := s.requests[t].(phase := Done)];
  }

  /** The second request of id 7 gives up, and takes the first one's registration for errors with it:
      the error of the first goes to the stream. */
  lemma ErrorGoesAstray(f: Frame)
    requires f.key == Key(7, ERROR)
    ensures var steps := [Register(1, 7, 3)] + [Register(2, 7, 4)] + [GiveUp(2)] + [Cleanup(2)] + [Read(f)] + [Lookup] + [SendStream];
      var s := Run(steps);
      && ListensFromStart(steps, 1) && 1 in s.requests && s.requests[1].phase == Waiting && !Served(s, ErrorReply(1))
      && s.streamed == [f]
  {
    var before := [Register(1, 7, 3)] + [Register(2, 7, 4)] + [GiveUp(2)] + [Cleanup(2)];
    SecondGivesUp([Register(1, 7, 3)]);
    Astray(before, f);
    FirstFromStart(before + [Read(f)] + [Lookup] + [SendStream]);
  }

  lemma FirstFromStart(steps: seq<Step>)
    requires steps != [] && steps[0] == Register(1, 7, 3)
    ensures ListensFromStart(steps, 1)
  {
    assert steps[..0] == [];
    assert ListensFromAt(steps, 0, 1);
  }

  /** A frame nobody is registered for goes to the stream. */
  lemma Astray(steps: seq<Step>, f: Frame)
    requires Run(steps).reader == Reading && f.key !in Run(steps).waiters && |Run(steps).stream| < STREAM_DEPTH
    ensures var s := Run(steps);
      Run(steps + [Read(f)] + [Lookup] + [SendStream]) ==
        s.(frames := s.frames + [f], stream := s.stream + [f], streamed := s.streamed + [f], routes := s.routes + [ToStream])
  {
    RunOne(steps, Read(f));
    RunOne(steps + [Read(f)], Lookup);
    RunOne(steps + [Read(f)] + [Lookup], SendStream);
  }

  /** And one somebody is registered for goes there. */
  lemma Answered(steps: seq<Step>, f: Frame, ch: Chan)
    requires var s := Run(steps);
      s.reader == Reading && f.key in s.waiters && s.waiters[f.key] == ch && ch in s.chans && s.chans[ch] == []
    ensures var s := Run(steps);
      Run(steps + [Read(f)] + [Lookup] + [Hand]) ==
        s.(waiters := s.waiters - {f.key}, chans := s.chans[ch := [f]], frames := s.frames + [f], routes := s.routes + [ToWaiter(ch)])
  {
    RunOne(steps, Read(f));
    RunOne(steps + [Read(f)], Lookup);
    RunOne(steps + [Read(f)] + [Lookup], Hand);
    assert Run(steps).chans[ch] + [f] == [f];
  }

  /** The first request has its reply and has yet to clean up when another of its id and type comes;
      its cleanup takes the other's registration, and the other's reply goes to the stream. */
  lemma ReplyGoesAstray(f: Frame, g: Frame)
    requires f.key == g.key == Key(7, 3)
    ensures var steps := [Register(1, 7, 3)] + [Read(f)] + [Lookup] + [Hand] + [TakeReply(1, false)] + [Register(2, 7, 3)] + [Cleanup(1)]
        + [Read(g)] + [Lookup] + [SendStream];
      var s := Run(steps);
      && 1 in s.requests && s.requests[1].phase == Done && Reply(1) in s.chans && s.chans[Reply(1)] == [f]
      && 2 in s.requests && s.requests[2].phase == Waiting && !Served(s, Reply(2)) && s.streamed == [g]
  {
    var a := [Register(1, 7, 3)] + [Read(f)] + [Lookup] + [Hand];
    Answered([Register(1, 7, 3)], f, Reply(1));
    assert Run(a).waiters == map[Key(7, ERROR) := ErrorReply(1)];
    FirstIsLate(a);
    Astray(a + [TakeReply(1, false)] + [Register(2, 7, 3)] + [Cleanup(1)], g);
  }

  lemma FirstIsLate(steps: seq<Step>)
    requires var s := Run(steps);
      && s.waiters == map[Key(7, ERROR) := ErrorReply(1)] && s.requests == map[1 := Request(7, 3, Waiting)]
      && Reply(1) in s.chans && s.chans[Reply(1)] != []
    ensures var s, next := Run(steps), Run(steps + [TakeReply(1, false)] + [Register(2, 7, 3)] + [Cleanup(1)]);
      next == s.(waiters := map[], chans := s.chans[Reply(2) := []][ErrorReply(2) := []],
                 requests := map[1 := Request(7, 3, Done), 2 := Request(7, 3, Waiting)])
  {
    var s := Run(steps);
    RunOne(steps, TakeReply(1, false));
    assert s.requests[1 := Request(7, 3, Cleaning)] == map[1 := Request(7, 3, Cleaning)];
    OtherComes(steps + [TakeReply(1, false)]);
  }

  lemma OtherComes(steps: seq<Step>)
    requires Run(steps).waiters == map[Key(7, ERROR) := ErrorReply(1)] && Run(steps).requests == map[1 := Request(7, 3, Cleaning)]
    ensures var s, next := Run(steps), Run(steps + [Register(2, 7, 3)] + [Cleanup(1)]);
      next == s.(waiters := map[], chans := s.chans[Reply(2) := []][ErrorReply(2) := []],
                 requests := map[1 := Request(7, 3, Done), 2 := Request(7, 3, Waiting)])
  {
    var late := Registered(Run(steps), 2, 7, 3);
    assert late.waiters == map[Key(7, ERROR) := ErrorReply(1), Key(7, 3) := Reply(2)];
    assert late.requests == map[1 := Request(7, 3, Cleaning), 2 := Request(7, 3, Waiting)];
    RunOne(steps, Register(2, 7, 3));
    RunOne(steps + [Register(2, 7, 3)], Cleanup(1));
  }

  // ---------- The end ----------

  /** However often finish is called, the stream is closed once, and not before the loop is over. */
  lemma {:induction false} ClosedAtMostOnce(steps: seq<Step>)
    ensures var s := Run(steps);
      s.closes <= 1 && (s.closes == 1 ==> s.reader == Stopped) && (s.closes == 1 <==> s.finished)
  {
    InvAlways(steps);
  }

  /** Closed, and nothing sent on the stream, or to a waiter, since. */
  predicate Over(s: Sys, later: Sys) {
    && later.reader == Stopped && later.finished && later.closes == s.closes
    && later.streamed == s.streamed && later.routes == s.routes
  }

  lemma StepStaysOver(s: Sys, later: Sys, step: Step)
    requires Over(s, later) && Enabled(later, step)
    ensures Over(s, Do(later, step))
  {
  }

  lemma {:induction false} ClosedForGood(steps: seq<Step>, more: seq<Step>)
    requires Run(steps).closes > 0
    ensures Over(Run(steps), Run(steps + more))
  {
    if more == [] {
      assert steps + more == steps;
      ClosedAtMostOnce(steps);
    } else {
      var n := |more| - 1;
      ClosedForGood(steps, more[..n]);
      assert (steps + more)[..|steps + more| - 1] == steps + more[..n];
      if Enabled(Run(steps + more[..n]), more[n]) {
        StepStaysOver(Run(steps), Run(steps + more[..n]), more[n]);
      }
    }
  }

  /** The deferred finish of a read loop that ended on an error comes second, and closes nothing. */
  lemma FinishedTwice(steps: seq<Step>)
    requires Run(steps).reader == Stopped && !Run(steps).finished
    ensures Run(steps + [Finish] + [Finish]) == Run(steps + [Finish]) && Run(steps + [Finish]).closes == 1
  {
    InvAlways(steps);
    RunOne(steps, Finish);
    RunOne(steps + [Finish], Finish);
  }
}
