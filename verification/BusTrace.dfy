/** What one subscription puts on its queue, said without running it: each offered event is
    judged by the subscription's flags at its offer and, if a replay captured it, at the handover. */
module EventBusTrace {
  import opened Wrappers
  import opened EventBus

  /** The flags and the filter alone. They never depend on an event or on a queue. */
  datatype Control = Control(filter: Filter, replaying: bool, closed: bool, ended: bool) {
    predicate Takes(device: Uuid) {
      !closed && !ended && filter.Allows(device)
    }

    function Next(op: Op): Control {
      match op
      case ReplayEnded(_) => this.(replaying := false)
      case DeviceDropped(d) =>
        if closed || ended || filter.all || d !in filter.devices then this
        else if filter.devices == {d} then this.(ended := true)
        else this.(filter := Filter(filter.devices - {d}, false))
      case Closed => this.(closed := true)
      case _ => this
    }
  }

  function ControlAfter(filter: Filter, ops: seq<Op>): Control {
    if ops == [] then Control(filter, true, false, false)
    else ControlAfter(filter, ops[..|ops| - 1]).Next(ops[|ops| - 1])
  }

  function ControlOf(s: Sub): Control {
    Control(s.filter, s.replaying, s.closed, s.ended)
  }

  lemma {:induction false} HandoverKeepsControl(s: Sub, buffered: seq<Event>, t: int)
    ensures ControlOf(Handover(s, buffered, t)) == ControlOf(s)
  {
    if buffered != [] {
      HandoverKeepsControl(s, buffered[..|buffered| - 1], t);
    }
  }

  lemma ApplyControl(s: Sub, op: Op)
    ensures ControlOf(Apply(s, op)) == ControlOf(s).Next(op)
  {
    match op {
      case ReplayEnded(t) => HandoverKeepsControl(s.(replaying := false, buffer := []), s.buffer, t);
      case DeviceDropped(d) => assert d in s.filter.devices ==> (s.filter.devices - {d} == {} <==> s.filter.devices == {d});
      case _ =>
    }
  }

  lemma {:induction false} LiveControl(filter: Filter, ops: seq<Op>)
    ensures ControlOf(Live(filter, ops).sub) == ControlAfter(filter, ops)
  {
    if ops != [] {
      var n := |ops| - 1;
      LiveControl(filter, ops[..n]);
      ApplyControl(Live(filter, ops[..n]).sub, ops[n]);
    }
  }

  // ---------- The reference ----------

  /** The call at j ends the replay and passes ev on. */
  ghost predicate HandsOver(filter: Filter, ops: seq<Op>, j: nat, ev: Event)
    requires j < |ops|
  {
    && ops[j].ReplayEnded?
    && var c := ControlAfter(filter, ops[..j]);
    && c.replaying && c.Takes(ev.device) && ev.seqNo > ops[j].throughSeq
  }

  ghost predicate Handed(filter: Filter, ops: seq<Op>, i: nat)
    requires i < |ops| && ops[i].Offered?
  {
    exists j :: i < j < |ops| && HandsOver(filter, ops, j, ops[i].ev)
  }

  /** The event offered at i is owed to the reader. */
  ghost predicate Wanted(filter: Filter, ops: seq<Op>, i: nat)
    requires i < |ops| && ops[i].Offered?
  {
    var c, ev := ControlAfter(filter, ops[..i]), ops[i].ev;
    && c.Takes(ev.device)
    && (c.replaying ==> !ev.ephemeral && Handed(filter, ops, i))
  }

  /** There was room for the event offered at i: in the buffer during the replay, else on the queue. */
  predicate RoomAt(filter: Filter, ops: seq<Op>, i: nat)
    requires i < |ops|
  {
    var s := Live(filter, ops[..i]).sub;
    if s.replaying then |s.buffer| < QUEUE_DEPTH else |s.queue| < QUEUE_DEPTH
  }

  /** Of each call, whether it offers an event that is owed and not refused. */
  ghost function Due(filter: Filter, ops: seq<Op>): (r: seq<bool>)
    ensures |r| == |ops|
  {
    seq(|ops|, i requires 0 <= i < |ops| => ops[i].Offered? && Wanted(filter, ops, i) && RoomAt(filter, ops, i))
  }

  /** The events of some of the calls, in their order. */
  function Chosen(ops: seq<Op>, due: seq<bool>): seq<Event>
    requires |due| == |ops| && forall i :: 0 <= i < |ops| && due[i] ==> ops[i].Offered?
  {
    if ops == [] then []
    else Chosen(ops[..|ops| - 1], due[..|ops| - 1]) + if due[|ops| - 1] then [ops[|ops| - 1].ev] else []
  }

  /** The events owed and not refused, in offer order. */
  ghost function Expected(filter: Filter, ops: seq<Op>): seq<Event> {
    Chosen(ops, Due(filter, ops))
  }

  // ---------- Every fate agrees with the reference ----------

  /** What the fate of the event offered at i must be, by the reference. */
  ghost predicate Judged(filter: Filter, ops: seq<Op>, i: nat, fate: Fate)
    requires i < |ops| && ops[i].Offered?
  {
    var ev := ops[i].ev;
    var at, now := ControlAfter(filter, ops[..i]), ControlAfter(filter, ops);
    if !at.Takes(ev.device) || (at.replaying && ev.ephemeral) then fate == Ignored
    else if !RoomAt(filter, ops, i) then if ev.ephemeral then fate == Skipped else fate == Refused || fate == Cleared
    else if !at.replaying then fate == Queued
    else
      match fate
      case Held => now.replaying && !now.ended && now.filter.Allows(ev.device)
      case Queued => !now.replaying && Handed(filter, ops, i)
      case Covered => !now.replaying && !Handed(filter, ops, i)
      case Removed => (!now.replaying || !now.Takes(ev.device)) && !Handed(filter, ops, i)
      case _ => false
  }

  lemma HandedStep(filter: Filter, ops: seq<Op>, op: Op, i: nat)
    requires i < |ops| && ops[i].Offered?
    ensures Handed(filter, ops + [op], i) <==> Handed(filter, ops, i) || HandsOver(filter, ops + [op], |ops|, ops[i].ev)
  {
    var all := ops + [op];
    forall j | i < j < |ops|
      ensures HandsOver(filter, all, j, ops[i].ev) <==> HandsOver(filter, ops, j, ops[i].ev)
    {
      assert all[..j] == ops[..j];
    }
    if Handed(filter, ops, i) {
      var j :| i < j < |ops| && HandsOver(filter, ops, j, ops[i].ev);
      assert HandsOver(filter, all, j, all[i].ev);
    }
  }

  lemma {:induction false} NoHandoverInReplay(filter: Filter, ops: seq<Op>, i: nat)
    requires i < |ops| && ops[i].Offered? && ControlAfter(filter, ops).replaying
    ensures !Handed(filter, ops, i)
  {
    var n := |ops| - 1;
    if i < n {
      NoHandoverInReplay(filter, ops[..n], i);
      assert ops[..n] + [ops[n]] == ops;
      HandedStep(filter, ops[..n], ops[n], i);
    }
  }

  /** A call moves a judged fate to a judged one. */
  lemma MovedIsJudged(filter: Filter, ops: seq<Op>, op: Op, i: nat, s: Sub, fate: Fate)
    requires i < |ops| && ops[i].Offered?
    requires ControlOf(s) == ControlAfter(filter, ops) && Judged(filter, ops, i, fate)
    ensures Judged(filter, ops + [op], i, Moved(s, op, ops[i].ev, fate))
  {
    var all := ops + [op];
    assert all[..|ops|] == ops && all[..i] == ops[..i];
    HandedStep(filter, ops, op, i);
    if ControlAfter(filter, ops).replaying {
      NoHandoverInReplay(filter, ops, i);
    }
    assert RoomAt(filter, all, i) == RoomAt(filter, ops, i);
    assert ControlAfter(filter, all) == ControlAfter(filter, ops).Next(op);
    if fate == Held && op.DeviceDropped? && s.DropTakesEffect(op.device) {
      assert s.filter.devices - {op.device} == {} <==> s.filter.devices == {op.device};
    }
  }

  lemma {:induction false} FateIsJudged(filter: Filter, ops: seq<Op>, i: nat)
    requires i < |ops| && ops[i].Offered?
    ensures Judged(filter, ops, i, Live(filter, ops).fates[i])
  {
    var n := |ops| - 1;
    var before, op := ops[..n], ops[n];
    assert before + [op] == ops;
    LiveControl(filter, before);
    if i == n {
      assert ControlAfter(filter, ops) == ControlAfter(filter, before);
    } else {
      FateIsJudged(filter, before, i);
      MovedIsJudged(filter, before, op, i, Live(filter, before).sub, Live(filter, before).fates[i]);
    }
  }

  // ---------- The theorem ----------

  lemma {:induction false} ChosenByFate(ops: seq<Op>, due: seq<bool>, fates: seq<Fate>)
    requires |due| == |ops| == |fates|
    requires forall i :: 0 <= i < |ops| ==> (due[i] <==> ops[i].Offered? && fates[i] == Queued)
    ensures Chosen(ops, due) == EventsOf(ops, fates, Queued)
  {
    if ops != [] {
      var n := |ops| - 1;
      ChosenByFate(ops[..n], due[..n], fates[..n]);
    }
  }

  /** The exact trace. Everything the queue ever held, in order, is what the reference owes the
      reader, less what found no room. */
  lemma {:induction false} ExactTrace(filter: Filter, ops: seq<Op>)
    ensures Live(filter, ops).Output() == Expected(filter, ops)
  {
    var l := Live(filter, ops);
    NothingLost(filter, ops);
    forall i | 0 <= i < |ops|
      ensures Due(filter, ops)[i] <==> ops[i].Offered? && l.fates[i] == Queued
    {
      if ops[i].Offered? {
        QueuedIffWanted(filter, ops, i);
      }
    }
    ChosenByFate(ops, Due(filter, ops), l.fates);
  }

  lemma QueuedIffWanted(filter: Filter, ops: seq<Op>, i: nat)
    requires i < |ops| && ops[i].Offered?
    ensures Live(filter, ops).fates[i] == Queued <==> Wanted(filter, ops, i) && RoomAt(filter, ops, i)
  {
    FateIsJudged(filter, ops, i);
    if ControlAfter(filter, ops).replaying {
      NoHandoverInReplay(filter, ops, i);
    }
  }

  // ---------- Device drop ----------

  lemma {:induction false} TakesOnlyShrinks(filter: Filter, before: seq<Op>, after: seq<Op>, device: Uuid)
    requires ControlAfter(filter, before + after).Takes(device)
    ensures ControlAfter(filter, before).Takes(device)
  {
    if after == [] {
      assert before + after == before;
    } else {
      var n := |after| - 1;
      assert (before + after)[..|before + after| - 1] == before + after[..n];
      TakesOnlyShrinks(filter, before, after[..n], device);
    }
  }

  /** More was put on the queue, none of it of the device. */
  ghost predicate GrowsWithout(output: seq<Event>, next: seq<Event>, device: Uuid) {
    output <= next && forall k :: |output| <= k < |next| ==> next[k].device != device
  }

  /** Once an effective drop of a device has been made, whatever follows adds to the queue no
      event of it, by a live offer or at the handover. */
  lemma {:induction false} DropIsFinal(filter: Filter, before: seq<Op>, device: Uuid, after: seq<Op>)
    requires !filter.all
    ensures var l, next := Live(filter, before + [DeviceDropped(device)]), Live(filter, before + [DeviceDropped(device)] + after);
      && !next.sub.Takes(device)
      && l.Output() <= next.Output()
      && forall k :: |l.Output()| <= k < |next.Output()| ==> next.Output()[k].device != device
  {
    var start := before + [DeviceDropped(device)];
    DropStopsTaking(filter, before, device);
    TakesNoMore(filter, start, device, after);
    LiveControl(filter, start + after);
  }

  lemma {:induction false} TakesNoMore(filter: Filter, start: seq<Op>, device: Uuid, after: seq<Op>)
    requires !ControlAfter(filter, start).Takes(device)
    ensures !ControlAfter(filter, start + after).Takes(device)
    ensures GrowsWithout(Live(filter, start).Output(), Live(filter, start + after).Output(), device)
  {
    if after == [] {
      assert start + after == start;
    } else {
      var n := |after| - 1;
      var mid := start + after[..n];
      assert mid + [after[n]] == start + after;
      TakesNoMore(filter, start, device, after[..n]);
      OutputGrowsBy(filter, mid, after[n], device);
      if ControlAfter(filter, start + after).Takes(device) {
        TakesOnlyShrinks(filter, start, after, device);
        assert false;
      }
    }
  }

  lemma OutputGrowsBy(filter: Filter, ops: seq<Op>, op: Op, device: Uuid)
    requires !ControlAfter(filter, ops).Takes(device)
    ensures GrowsWithout(Live(filter, ops).Output(), Live(filter, ops + [op]).Output(), device)
  {
    LiveControl(filter, ops);
    QueueIsBounded(filter, ops);
    LiveStep(filter, ops, op);
    OutputGrows(Live(filter, ops), op, device);
  }

  lemma DropStopsTaking(filter: Filter, before: seq<Op>, device: Uuid)
    requires !filter.all
    ensures !ControlAfter(filter, before + [DeviceDropped(device)]).Takes(device)
  {
    assert (before + [DeviceDropped(device)])[..|before|] == before;
    NeverAll(filter, before);
  }

  lemma {:induction false} NeverAll(filter: Filter, ops: seq<Op>)
    requires !filter.all
    ensures !ControlAfter(filter, ops).filter.all
  {
    if ops != [] {
      NeverAll(filter, ops[..|ops| - 1]);
    }
  }

  lemma {:induction false} PassedAllows(buffer: seq<Event>, filter: Filter, t: int)
    ensures forall ev :: ev in Passed(buffer, filter, t) ==> filter.Allows(ev.device) && ev.seqNo > t && ev in buffer
  {
    if buffer != [] {
      PassedAllows(buffer[..|buffer| - 1], filter, t);
    }
  }

  lemma OutputGrows(l: Life, op: Op, device: Uuid)
    requires Bounded(l) && !l.sub.Takes(device)
    ensures var queue := Apply(l.sub, op).queue;
      var taken := if op.Received? && l.sub.queue != [] then l.taken + [l.sub.queue[0]] else l.taken;
      && l.Output() <= taken + queue
      && forall k :: |l.Output()| <= k < |taken + queue| ==> (taken + queue)[k].device != device
  {
    var s := l.sub;
    match op {
      case ReplayEnded(t) =>
        if s.replaying && !s.closed && !s.ended {
          HandoverFits(s.(replaying := false, buffer := []), s.buffer, t);
          PassedAllows(s.buffer, s.filter, t);
        }
      case Received =>
        if s.queue != [] {
          assert [s.queue[0]] + s.queue[1..] == s.queue;
          assert l.taken + [s.queue[0]] + s.queue[1..] == l.taken + ([s.queue[0]] + s.queue[1..]);
        }
      case Offered(ev) => OfferByFate(s, ev);
      case _ => assert Apply(s, op).queue == s.queue;
    }
  }

  lemma {:induction false} ControlNeverEmpties(filter: Filter, ops: seq<Op>)
    requires filter.all || filter.devices != {}
    ensures var c := ControlAfter(filter, ops); c.filter.all || c.filter.devices != {}
  {
    if ops != [] {
      ControlNeverEmpties(filter, ops[..|ops| - 1]);
    }
  }

  /** A filter that starts with a device keeps one: the last drop ends the subscription instead. */
  lemma {:induction false} FilterNeverEmpties(filter: Filter, ops: seq<Op>)
    requires filter.all || filter.devices != {}
    ensures var s := Live(filter, ops).sub; s.filter.all || s.filter.devices != {}
  {
    ControlNeverEmpties(filter, ops);
    LiveControl(filter, ops);
  }

  // ---------- A history that never lagged ----------

  /** The events that carry a sequence. */
  function Lasting(events: seq<Event>): seq<Event> {
    if events == [] then []
    else
      var n := |events| - 1;
      Lasting(events[..n]) + if events[n].ephemeral then [] else [events[n]]
  }

  lemma LastingOneMore(events: seq<Event>, ev: Event)
    ensures Lasting(events + [ev]) == Lasting(events) + if ev.ephemeral then [] else [ev]
  {
    assert (events + [ev])[..|events|] == events;
  }

  /** Of each call, whether it offers an event that is owed and carries a sequence. */
  ghost function Promised(filter: Filter, ops: seq<Op>): (r: seq<bool>)
    ensures |r| == |ops|
  {
    seq(|ops|, i requires 0 <= i < |ops| => ops[i].Offered? && !ops[i].ev.ephemeral && Wanted(filter, ops, i))
  }

  lemma {:induction false} LastingChosen(ops: seq<Op>, due: seq<bool>, lasting: seq<bool>)
    requires |due| == |ops| == |lasting|
    requires forall i :: 0 <= i < |ops| ==> (due[i] ==> ops[i].Offered?)
    requires forall i :: 0 <= i < |ops| ==> (lasting[i] <==> due[i] && !ops[i].ev.ephemeral)
    ensures Lasting(Chosen(ops, due)) == Chosen(ops, lasting)
  {
    if ops != [] {
      var n := |ops| - 1;
      var chosen := Chosen(ops[..n], due[..n]);
      LastingChosen(ops[..n], due[..n], lasting[..n]);
      if due[n] {
        LastingOneMore(chosen, ops[n].ev);
      } else {
        assert Chosen(ops, due) == chosen + [] == chosen;
      }
    }
  }

  /** Whoever takes an event that carries a sequence and has no room for it, lags. */
  lemma NoRoomIsLag(filter: Filter, ops: seq<Op>, i: nat)
    requires i < |ops| && ops[i].Offered? && !ops[i].ev.ephemeral
    requires ControlAfter(filter, ops[..i]).Takes(ops[i].ev.device) && !RoomAt(filter, ops, i)
    ensures Live(filter, ops[..i + 1]).sub.lagged
  {
    assert ops[..i + 1] == ops[..i] + [ops[i]];
    LiveControl(filter, ops[..i]);
    LiveStep(filter, ops[..i], ops[i]);
    OfferByFate(Live(filter, ops[..i]).sub, ops[i].ev);
  }

  /** Without a lag there is no gap: of the events that carry a sequence the queue has had, in order,
      every one that is owed, with nothing said of how long it or the buffer ever was. */
  lemma {:induction false} NoLagNoGap(filter: Filter, ops: seq<Op>)
    requires forall n :: 0 <= n <= |ops| ==> !Live(filter, ops[..n]).sub.lagged
    ensures Lasting(Live(filter, ops).Output()) == Chosen(ops, Promised(filter, ops))
  {
    ExactTrace(filter, ops);
    forall i | 0 <= i < |ops| && ops[i].Offered? && !ops[i].ev.ephemeral && Wanted(filter, ops, i)
      ensures RoomAt(filter, ops, i)
    {
      if !RoomAt(filter, ops, i) {
        NoRoomIsLag(filter, ops, i);
        assert false;
      }
    }
    LastingChosen(ops, Due(filter, ops), Promised(filter, ops));
  }

  // ---------- The lag marker ----------

  ghost predicate LeastMissed(s: Sub, missed: seq<Event>) {
    s.lagged ==> forall k :: 0 <= k < |missed| ==> s.laggedAt <= missed[k].seqNo
  }

  function Missed(filter: Filter, ops: seq<Op>): seq<Event> {
    EventsOf(ops, Live(filter, ops).fates, Refused)
  }

  /** The package promises the lowest sequence missed; the marker keeps the first one refused.
      One more offer leaves it the lowest exactly when nothing is refused, or nothing was before,
      or the refused event does not precede the marker. */
  lemma MarkerStaysLowest(filter: Filter, ops: seq<Op>, ev: Event)
    requires LeastMissed(Live(filter, ops).sub, Missed(filter, ops))
    ensures var s := Live(filter, ops).sub;
      LeastMissed(Live(filter, ops + [Offered(ev)]).sub, Missed(filter, ops + [Offered(ev)]))
      <==> (OfferFate(s, ev) == Refused && s.lagged ==> s.laggedAt <= ev.seqNo)
  {
    var l, op := Live(filter, ops), Offered(ev);
    var next := Live(filter, ops + [op]);
    LiveStep(filter, ops, op);
    NothingLost(filter, ops);
    NothingLost(filter, ops + [op]);
    var moved := MovedAll(l.sub, op, ops, l.fates);
    SameEvents(ops, l.fates, moved, Refused);
    EventsOfAppend(ops, moved, op, OfferFate(l.sub, ev), Refused);
    var missed := Missed(filter, ops + [op]);
    assert OfferFate(l.sub, ev) == Refused ==> missed[|missed| - 1] == ev;
    assert forall k :: 0 <= k < |Missed(filter, ops)| ==> missed[k] == Missed(filter, ops)[k];
  }

  /** Offers that carry a sequence arrive in its order. */
  ghost predicate InOrder(ops: seq<Op>) {
    forall i, j :: 0 <= i < j < |ops| && ops[i].Offered? && ops[j].Offered? && !ops[i].ev.ephemeral && !ops[j].ev.ephemeral
      ==> ops[i].ev.seqNo < ops[j].ev.seqNo
  }

  /** Every event an offer ever refused carries a sequence and was offered. */
  lemma {:induction false} EventsOfOffered(ops: seq<Op>, fates: seq<Fate>, fate: Fate)
    requires |ops| == |fates|
    ensures forall ev :: ev in EventsOf(ops, fates, fate) ==>
      exists i :: 0 <= i < |ops| && ops[i] == Offered(ev) && fates[i] == fate
  {
    if ops != [] {
      var n := |ops| - 1;
      EventsOfOffered(ops[..n], fates[..n], fate);
      forall ev | ev in EventsOf(ops, fates, fate)
        ensures exists i :: 0 <= i < |ops| && ops[i] == Offered(ev) && fates[i] == fate
      {
        if ev in EventsOf(ops[..n], fates[..n], fate) {
          var i :| 0 <= i < n && ops[..n][i] == Offered(ev) && fates[..n][i] == fate;
          assert ops[i] == Offered(ev) && fates[i] == fate;
        } else {
          assert ops[n] == Offered(ev) && fates[n] == fate;
        }
      }
    }
  }

  /** With a publisher that offers in sequence order the marker is the lowest sequence missed. */
  lemma {:induction false} MarkerIsLowestInOrder(filter: Filter, ops: seq<Op>)
    requires InOrder(ops)
    ensures LeastMissed(Live(filter, ops).sub, Missed(filter, ops))
  {
    if ops != [] {
      var n := |ops| - 1;
      var before, op := ops[..n], ops[n];
      assert before + [op] == ops;
      MarkerIsLowestInOrder(filter, before);
      if op.Offered? {
        MarkerStaysLowest(filter, before, op.ev);
        RefusedInOrder(filter, before, op.ev);
      } else {
        MarkerOutlives(filter, before, op);
      }
    }
  }

  lemma RefusedInOrder(filter: Filter, ops: seq<Op>, ev: Event)
    requires InOrder(ops + [Offered(ev)])
    ensures var s := Live(filter, ops).sub; OfferFate(s, ev) == Refused && s.lagged ==> s.laggedAt <= ev.seqNo
  {
    var l := Live(filter, ops);
    if OfferFate(l.sub, ev) == Refused && l.sub.lagged {
      NothingLost(filter, ops);
      EventsOfOffered(ops, l.fates, Refused);
      var first := Missed(filter, ops)[0];
      assert first in Missed(filter, ops);
      var i :| 0 <= i < |ops| && ops[i] == Offered(first) && l.fates[i] == Refused;
      FateIsJudged(filter, ops, i);
      var all := ops + [Offered(ev)];
      assert all[i] == Offered(first) && all[|ops|] == Offered(ev);
    }
  }

  lemma MissedStays(filter: Filter, ops: seq<Op>, op: Op)
    requires !op.Offered? && !op.LagCleared?
    ensures Missed(filter, ops + [op]) == Missed(filter, ops)
  {
    var l := Live(filter, ops);
    var moved := MovedAll(l.sub, op, ops, l.fates);
    LiveStep(filter, ops, op);
    EventsOfAppend(ops, moved, op, Ignored, Refused);
    SameEvents(ops, l.fates, moved, Refused);
  }

  lemma MarkerOutlives(filter: Filter, ops: seq<Op>, op: Op)
    requires !op.Offered? && LeastMissed(Live(filter, ops).sub, Missed(filter, ops))
    ensures LeastMissed(Live(filter, ops + [op]).sub, Missed(filter, ops + [op]))
  {
    LiveStep(filter, ops, op);
    if !op.LagCleared? {
      MissedStays(filter, ops, op);
      QueueIsBounded(filter, ops);
      ApplyKeepsMarker(Live(filter, ops), op);
    }
  }

  // ---------- The marker over a whole history ----------

  /** The offer at i found no room, and is of an event that a client must hear of. */
  ghost predicate RefusedAt(filter: Filter, ops: seq<Op>, i: nat)
    requires i < |ops|
  {
    ops[i].Offered? && !ops[i].ev.ephemeral && ControlAfter(filter, ops[..i]).Takes(ops[i].ev.device) && !RoomAt(filter, ops, i)
  }

  /** Where the present lag began: at the first such offer since the last ClearLag. */
  ghost function LagStart(filter: Filter, ops: seq<Op>): Option<nat> {
    if ops == [] then None
    else
      var n := |ops| - 1;
      if ops[n].LagCleared? then None
      else if LagStart(filter, ops[..n]).Some? then LagStart(filter, ops[..n])
      else if RefusedAt(filter, ops, n) then Some(n)
      else None
  }

  lemma RefusedByFate(filter: Filter, ops: seq<Op>, ev: Event)
    ensures RefusedAt(filter, ops + [Offered(ev)], |ops|) <==> OfferFate(Live(filter, ops).sub, ev) == Refused
  {
    assert (ops + [Offered(ev)])[..|ops|] == ops;
    LiveControl(filter, ops);
  }

  lemma OfferKeepsMarker(s: Sub, ev: Event)
    ensures var next := Offer(s, ev);
      (next.lagged, next.laggedAt) == if OfferFate(s, ev) == Refused && !s.lagged then (true, ev.seqNo) else (s.lagged, s.laggedAt)
  {
    OfferByFate(s, ev);
  }

  lemma RefusedInPrefix(filter: Filter, ops: seq<Op>, op: Op, i: nat)
    requires i < |ops|
    ensures RefusedAt(filter, ops + [op], i) <==> RefusedAt(filter, ops, i)
  {
    assert (ops + [op])[..i] == ops[..i];
  }

  /** The marker stands exactly while there is such a beginning, and is its sequence. */
  lemma {:induction false} LagStartsThere(filter: Filter, ops: seq<Op>)
    ensures var s, start := Live(filter, ops).sub, LagStart(filter, ops);
      && (s.lagged <==> start.Some?)
      && (start.Some? ==> start.value < |ops| && RefusedAt(filter, ops, start.value) && s.laggedAt == ops[start.value].ev.seqNo)
  {
    if ops != [] {
      var before, op := ops[..|ops| - 1], ops[|ops| - 1];
      assert before + [op] == ops;
      LagStartsThere(filter, before);
      LiveStep(filter, before, op);
      if LagStart(filter, before).Some? {
        RefusedInPrefix(filter, before, op, LagStart(filter, before).value);
      }
      if op.Offered? {
        RefusedByFate(filter, before, op.ev);
        OfferKeepsMarker(Live(filter, before).sub, op.ev);
      } else if !op.LagCleared? {
        QueueIsBounded(filter, before);
        ApplyKeepsMarker(Live(filter, before), op);
      }
    }
  }

  /** No offer refused in a lag has a lower sequence than the one that began it. */
  ghost predicate NoneUndercuts(filter: Filter, ops: seq<Op>) {
    forall j :: 0 <= j < |ops| && RefusedAt(filter, ops, j) ==> !Undercuts(filter, ops, j)
  }

  ghost predicate Undercuts(filter: Filter, ops: seq<Op>, j: nat)
    requires j < |ops| && ops[j].Offered?
  {
    var start := LagStart(filter, ops[..j]);
    start.Some? && start.value < j && ops[start.value].Offered? && ops[j].ev.seqNo < ops[start.value].ev.seqNo
  }

  ghost predicate AlwaysLowest(filter: Filter, ops: seq<Op>) {
    forall n :: 0 <= n <= |ops| ==> LowestAfter(filter, ops, n)
  }

  ghost predicate LowestAfter(filter: Filter, ops: seq<Op>, n: nat)
    requires n <= |ops|
  {
    LeastMissed(Live(filter, ops[..n]).sub, Missed(filter, ops[..n]))
  }

  /** The promise over whole histories: the marker is the lowest sequence missed, at every moment, if
      and only if no offer that finds no room in a lag has a lower sequence than the one that began it. */
  lemma {:induction false} MarkerIsLowestIff(filter: Filter, ops: seq<Op>)
    ensures AlwaysLowest(filter, ops) <==> NoneUndercuts(filter, ops)
  {
    if ops == [] {
      assert LowestAfter(filter, ops, 0);
    } else {
      var m := |ops| - 1;
      MarkerIsLowestIff(filter, ops[..m]);
      LowestIffOneMore(filter, ops[..m], ops[m]);
      assert ops[..m] + [ops[m]] == ops;
    }
  }

  lemma LowestIffOneMore(filter: Filter, ops: seq<Op>, op: Op)
    requires AlwaysLowest(filter, ops) <==> NoneUndercuts(filter, ops)
    ensures AlwaysLowest(filter, ops + [op]) <==> NoneUndercuts(filter, ops + [op])
  {
    LowestOneMore(filter, ops, op);
    UndercutsOneMore(filter, ops, op);
    if AlwaysLowest(filter, ops) {
      assert LowestAfter(filter, ops, |ops|);
      LowestAtEnd(filter, ops);
      LowestOnceMoreIff(filter, ops, op);
      LowestAtEnd(filter, ops + [op]);
    }
  }

  lemma LowestAtEnd(filter: Filter, ops: seq<Op>)
    ensures LowestAfter(filter, ops, |ops|) <==> LeastMissed(Live(filter, ops).sub, Missed(filter, ops))
  {
    assert ops[..|ops|] == ops;
  }

  lemma LowestOnceMoreIff(filter: Filter, ops: seq<Op>, op: Op)
    requires LeastMissed(Live(filter, ops).sub, Missed(filter, ops))
    ensures LeastMissed(Live(filter, ops + [op]).sub, Missed(filter, ops + [op]))
      <==> (RefusedAt(filter, ops + [op], |ops|) ==> !Undercuts(filter, ops + [op], |ops|))
  {
    if op.Offered? {
      MarkerStaysLowest(filter, ops, op.ev);
      RefusedByFate(filter, ops, op.ev);
      LagStartsThere(filter, ops);
      assert (ops + [op])[..|ops|] == ops;
    } else {
      MarkerOutlives(filter, ops, op);
    }
  }

  lemma LowestOneMore(filter: Filter, ops: seq<Op>, op: Op)
    ensures AlwaysLowest(filter, ops + [op]) <==> AlwaysLowest(filter, ops) && LowestAfter(filter, ops + [op], |ops| + 1)
  {
    forall n | 0 <= n <= |ops|
      ensures LowestAfter(filter, ops + [op], n) <==> LowestAfter(filter, ops, n)
    {
      assert (ops + [op])[..n] == ops[..n];
    }
  }

  lemma UndercutsOneMore(filter: Filter, ops: seq<Op>, op: Op)
    ensures NoneUndercuts(filter, ops + [op]) <==>
      NoneUndercuts(filter, ops) && (RefusedAt(filter, ops + [op], |ops|) ==> !Undercuts(filter, ops + [op], |ops|))
  {
    forall j | 0 <= j < |ops|
      ensures RefusedAt(filter, ops + [op], j) <==> RefusedAt(filter, ops, j)
      ensures ops[j].Offered? ==> (Undercuts(filter, ops + [op], j) <==> Undercuts(filter, ops, j))
    {
      RefusedInPrefix(filter, ops, op, j);
      assert (ops + [op])[..j] == ops[..j];
    }
  }

  // ---------- What the client is told ----------

  /** The sequence the reader has read in the present lag, to tell its client. */
  function Telling(filter: Filter, ops: seq<Op>): Option<int> {
    if ops == [] then None
    else
      var n := |ops| - 1;
      if ops[n].LagCleared? then None
      else if ops[n].LagRead? && Live(filter, ops[..n]).sub.lagged then Some(Live(filter, ops[..n]).sub.laggedAt)
      else Telling(filter, ops[..n])
  }

  /** The reader clears a lag only once it has read it. */
  ghost predicate ReadsFirst(filter: Filter, ops: seq<Op>) {
    forall c :: 0 <= c < |ops| && ops[c].LagCleared? ==> Telling(filter, ops[..c]).Some?
  }

  lemma ReadsFirstOneMore(filter: Filter, ops: seq<Op>, op: Op)
    requires ReadsFirst(filter, ops) && (op.LagCleared? ==> Telling(filter, ops).Some?)
    ensures ReadsFirst(filter, ops + [op])
  {
    forall c | 0 <= c <= |ops|
      ensures (ops + [op])[..c] == ops[..c]
    {
    }
    assert ops[..|ops|] == ops;
  }

  /** The lag the offer was part of was cleared at c, and told as one that goes back to it. */
  ghost predicate ToldAt(filter: Filter, ops: seq<Op>, i: nat, c: nat)
    requires i < |ops| && ops[i].Offered? && c < |ops|
  {
    && ClearsFirst(ops, i, c)
    && Telling(filter, ops[..c]).Some? && Telling(filter, ops[..c]).value <= ops[i].ev.seqNo
  }

  predicate ClearsFirst(ops: seq<Op>, i: nat, c: nat)
    requires c < |ops|
  {
    i < c && ops[c].LagCleared? && NoClearing(ops, i, c)
  }

  predicate NoClearing(ops: seq<Op>, i: nat, n: nat)
    requires n <= |ops|
  {
    forall j :: i < j < n ==> !ops[j].LagCleared?
  }

  ghost predicate ToldOf(filter: Filter, ops: seq<Op>, i: nat)
    requires i < |ops| && ops[i].Offered?
  {
    exists c :: 0 <= c < |ops| && ToldAt(filter, ops, i, c)
  }

  /** What was read of a lag is still its marker. */
  lemma {:induction false} TellingIsMarker(filter: Filter, ops: seq<Op>)
    ensures Telling(filter, ops).Some? ==>
      Live(filter, ops).sub.lagged && Live(filter, ops).sub.laggedAt == Telling(filter, ops).value
  {
    if ops != [] {
      var before, op := ops[..|ops| - 1], ops[|ops| - 1];
      assert before + [op] == ops;
      TellingIsMarker(filter, before);
      LiveStep(filter, before, op);
      if op.Offered? {
        OfferKeepsMarker(Live(filter, before).sub, op.ev);
      } else if !op.LagCleared? {
        QueueIsBounded(filter, before);
        ApplyKeepsMarker(Live(filter, before), op);
      }
    }
  }

  /** A lag goes on from where it began until it is cleared. */
  lemma {:induction false} LagGoesOn(filter: Filter, ops: seq<Op>, i: nat, n: nat)
    requires i < n <= |ops| && RefusedAt(filter, ops, i) && NoClearing(ops, i, n)
    ensures LagStart(filter, ops[..n]) == if LagStart(filter, ops[..i]).Some? then LagStart(filter, ops[..i]) else Some(i)
    decreases n
  {
    assert ops[..n][..n - 1] == ops[..n - 1];
    if n == i + 1 {
      assert ops[..n - 1] + [ops[n - 1]] == ops[..n] && ops[..n][..i] == ops[..i];
      assert RoomAt(filter, ops[..n], i) == RoomAt(filter, ops, i);
    } else {
      LagGoesOn(filter, ops, i, n - 1);
    }
  }

  /** So its marker covers the refused offer exactly when that does not undercut it. */
  lemma MarkerCoversIff(filter: Filter, ops: seq<Op>, i: nat, n: nat)
    requires i < n <= |ops| && RefusedAt(filter, ops, i) && NoClearing(ops, i, n)
    ensures var s := Live(filter, ops[..n]).sub;
      s.lagged && (s.laggedAt <= ops[i].ev.seqNo <==> !Undercuts(filter, ops, i))
  {
    LagGoesOn(filter, ops, i, n);
    LagStartsThere(filter, ops[..n]);
    LagStartsThere(filter, ops[..i]);
  }

  /** A refused offer is of the present lag until that is cleared. */
  lemma {:induction false} RefusedUntilCleared(filter: Filter, ops: seq<Op>, i: nat)
    requires i < |ops| && RefusedAt(filter, ops, i)
    ensures Live(filter, ops).fates[i] == if NoClearing(ops, i, |ops|) then Refused else Cleared
  {
    var n := |ops| - 1;
    var before, op := ops[..n], ops[n];
    assert before + [op] == ops;
    if i == n {
      LiveStep(filter, before, op);
      RefusedByFate(filter, before, op.ev);
    } else {
      RefusedInPrefix(filter, before, op, i);
      RefusedUntilCleared(filter, before, i);
    }
  }

  lemma RefusedFates(filter: Filter, ops: seq<Op>, i: nat)
    requires i < |ops| && ops[i].Offered?
    ensures Live(filter, ops).fates[i] in {Refused, Cleared} <==> RefusedAt(filter, ops, i)
  {
    FateIsJudged(filter, ops, i);
  }

  lemma {:induction false} FirstClearing(ops: seq<Op>, i: nat, n: nat) returns (c: nat)
    requires i < n <= |ops| && !NoClearing(ops, i, n)
    ensures c < n && ClearsFirst(ops, i, c)
    decreases n
  {
    if NoClearing(ops, i, n - 1) {
      c := n - 1;
    } else {
      c := FirstClearing(ops, i, n - 1);
    }
  }

  /** Told of a lag that covers it, if its lag was cleared, exactly when it does not undercut that.
      What is refused between the reading and the clearing is covered too. */
  lemma ToldIff(filter: Filter, ops: seq<Op>, i: nat)
    requires ReadsFirst(filter, ops) && i < |ops| && RefusedAt(filter, ops, i)
    ensures ToldOf(filter, ops, i) <==> !NoClearing(ops, i, |ops|) && !Undercuts(filter, ops, i)
  {
    if !NoClearing(ops, i, |ops|) {
      var c := FirstClearing(ops, i, |ops|);
      MarkerCoversIff(filter, ops, i, c);
      TellingIsMarker(filter, ops[..c]);
      assert ToldAt(filter, ops, i, c) <==> !Undercuts(filter, ops, i);
      forall d | 0 <= d < |ops| && ToldAt(filter, ops, i, d)
        ensures d == c
      {
        assert ClearsFirst(ops, i, d) && ClearsFirst(ops, i, c);
      }
    }
  }

  // ---------- A history whose marker is not the lowest ----------

  function BurstEvents(n: nat): (r: seq<Event>)
    ensures |r| == n
  {
    if n == 0 then [] else BurstEvents(n - 1) + [Event(0, n, false)]
  }

  function Burst(n: nat): (r: seq<Op>)
    ensures |r| == n
  {
    if n == 0 then [] else Burst(n - 1) + [Offered(Event(0, n, false))]
  }

  lemma {:induction false} BurstFillsBuffer(n: nat)
    requires n <= QUEUE_DEPTH
    ensures Live(Filter({}, true), Burst(n)).sub == Fresh(Filter({}, true)).(buffer := BurstEvents(n))
  {
    if n > 0 {
      BurstFillsBuffer(n - 1);
      OneBuffered(Burst(n - 1), BurstEvents(n - 1), Event(0, n, false));
    }
  }

  lemma OneBuffered(ops: seq<Op>, buffer: seq<Event>, ev: Event)
    requires Live(Filter({}, true), ops).sub == Fresh(Filter({}, true)).(buffer := buffer)
    requires |buffer| < QUEUE_DEPTH && !ev.ephemeral
    ensures Live(Filter({}, true), ops + [Offered(ev)]).sub == Fresh(Filter({}, true)).(buffer := buffer + [ev])
  {
    LiveStep(Filter({}, true), ops, Offered(ev));
  }

  /** Behind a full buffer 514 is refused, then 513, and the client is told to resume from 514. */
  lemma MarkerCanSkipAMissedEvent()
    ensures var filter, late, early := Filter({}, true), Event(0, QUEUE_DEPTH + 2, false), Event(0, QUEUE_DEPTH + 1, false);
      var ops := Burst(QUEUE_DEPTH) + [Offered(late)] + [Offered(early)];
      Live(filter, ops).sub.lagged && Live(filter, ops).sub.laggedAt == late.seqNo && early in Missed(filter, ops)
  {
    var filter, late, early := Filter({}, true), Event(0, QUEUE_DEPTH + 2, false), Event(0, QUEUE_DEPTH + 1, false);
    BurstFillsBuffer(QUEUE_DEPTH);
    var first := Burst(QUEUE_DEPTH) + [Offered(late)];
    LiveStep(filter, Burst(QUEUE_DEPTH), Offered(late));
    LiveStep(filter, first, Offered(early));
    var l := Live(filter, first + [Offered(early)]);
    EventsOfMember(first + [Offered(early)], l.fates, Refused, |first|);
  }

  lemma ApplyKeepsMarker(l: Life, op: Op)
    requires Bounded(l) && !op.Offered? && !op.LagCleared?
    ensures var s := Apply(l.sub, op); (s.lagged, s.laggedAt) == (l.sub.lagged, l.sub.laggedAt)
  {
    if op.ReplayEnded? && l.sub.replaying && !l.sub.closed && !l.sub.ended {
      HandoverFits(l.sub.(replaying := false, buffer := []), l.sub.buffer, op.throughSeq);
    }
  }
}
