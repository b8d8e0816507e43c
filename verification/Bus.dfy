/** One subscription of the event bus (internal/bus/bus.go) as a value: the fields that its
    mutex guards, one function per critical section, and what a whole history of calls does. */
module EventBus {

  const QUEUE_DEPTH: nat := 512

  type Uuid = nat

  datatype Event = Event(device: Uuid, seqNo: int, ephemeral: bool)

  datatype Filter = Filter(devices: set<Uuid>, all: bool) {
    predicate Allows(device: Uuid) {
      all || device in devices
    }
  }

  datatype Sub = Sub(
    filter: Filter, replaying: bool, buffer: seq<Event>, queue: seq<Event>, closed: bool, ended: bool,
    lagged: bool, laggedAt: int, dropped: nat)
  {
    predicate Takes(device: Uuid) {
      !closed && !ended && filter.Allows(device)
    }

    predicate DropTakesEffect(device: Uuid) {
      !closed && !ended && !filter.all && device in filter.devices
    }
  }

  function Fresh(filter: Filter): Sub {
    Sub(filter, true, [], [], false, false, false, 0, 0)
  }

  // ---------- The critical sections ----------

  /** dropLocked: an event that found no room. */
  function Refuse(s: Sub, ev: Event): Sub {
    if ev.ephemeral then s
    else s.(lagged := true, laggedAt := if s.lagged then s.laggedAt else ev.seqNo, dropped := s.dropped + 1)
  }

  /** deliverLocked: a send that never blocks. */
  function Deliver(s: Sub, ev: Event): Sub {
    if s.closed || s.ended then s
    else if |s.queue| < QUEUE_DEPTH then s.(queue := s.queue + [ev])
    else Refuse(s, ev)
  }

  function Offer(s: Sub, ev: Event): Sub {
    if !s.Takes(ev.device) then s
    else if !s.replaying then Deliver(s, ev)
    else if ev.ephemeral then s
    else if |s.buffer| < QUEUE_DEPTH then s.(buffer := s.buffer + [ev])
    else Refuse(s, ev)
  }

  function Handover(s: Sub, buffered: seq<Event>, throughSeq: int): Sub {
    if buffered == [] then s
    else
      var n := |buffered| - 1;
      var before := Handover(s, buffered[..n], throughSeq);
      if buffered[n].seqNo <= throughSeq || !before.filter.Allows(buffered[n].device) then before
      else Deliver(before, buffered[n])
  }

  function EndReplay(s: Sub, throughSeq: int): Sub {
    var live := s.(replaying := false, buffer := []);
    if !s.replaying || s.closed || s.ended then live else Handover(live, s.buffer, throughSeq)
  }

  function Without(buffer: seq<Event>, device: Uuid): seq<Event> {
    if buffer == [] then []
    else
      var n := |buffer| - 1;
      Without(buffer[..n], device) + if buffer[n].device == device then [] else [buffer[n]]
  }

  function DropDevice(s: Sub, device: Uuid): Sub {
    if !s.DropTakesEffect(device) then s
    else if s.filter.devices - {device} == {} then s.(ended := true, buffer := [])
    else s.(filter := Filter(s.filter.devices - {device}, false), buffer := Without(s.buffer, device))
  }

  /** The reader takes the queue's first event; a closed channel is drained all the same. */
  function Receive(s: Sub): Sub {
    if s.queue == [] then s else s.(queue := s.queue[1..])
  }

  function ClearLag(s: Sub): Sub {
    s.(lagged := false, laggedAt := 0, dropped := 0)
  }

  function Close(s: Sub): Sub {
    s.(closed := true)
  }

  datatype Op =
    | Offered(ev: Event)
    | ReplayEnded(throughSeq: int)
    | DeviceDropped(device: Uuid)
    | Received
    | LagRead
    | LagCleared
    | Closed

  function Apply(s: Sub, op: Op): Sub {
    match op
    case Offered(ev) => Offer(s, ev)
    case ReplayEnded(t) => EndReplay(s, t)
    case DeviceDropped(d) => DropDevice(s, d)
    case Received => Receive(s)
    case LagRead => s
    case LagCleared => ClearLag(s)
    case Closed => Close(s)
  }

  /** Several calls, one after another. */
  function Carried(s: Sub, ops: seq<Op>): Sub {
    if ops == [] then s else Apply(Carried(s, ops[..|ops| - 1]), ops[|ops| - 1])
  }

  // ---------- A whole history, with the fate of every offered event ----------

  /** Where an offered event is. Refused: it is part of the present lag; Cleared: of a lag since
      cleared. Skipped: a presence event that found no room. */
  datatype Fate = Ignored | Skipped | Held | Queued | Refused | Cleared | Covered | Removed

  /** `fates[i]` is the fate of `ops[i].ev`, and Ignored where `ops[i]` is no offer. */
  datatype Life = Life(sub: Sub, taken: seq<Event>, fates: seq<Fate>) {
    /** Everything ever put on the queue, in order. */
    function Output(): seq<Event> {
      taken + sub.queue
    }
  }

  function OfferFate(s: Sub, ev: Event): Fate {
    if !s.Takes(ev.device) then Ignored
    else if s.replaying then
      if ev.ephemeral then Ignored else if |s.buffer| < QUEUE_DEPTH then Held else Refused
    else if |s.queue| < QUEUE_DEPTH then Queued
    else if ev.ephemeral then Skipped
    else Refused
  }

  /** How a later call moves an event that was offered earlier. */
  function Moved(s: Sub, op: Op, ev: Event, fate: Fate): Fate {
    match op
    case ReplayEnded(t) =>
      if fate != Held then fate
      else if !s.replaying || !s.Takes(ev.device) then Removed
      else if ev.seqNo <= t then Covered
      else Queued
    case DeviceDropped(d) =>
      if fate != Held || !s.DropTakesEffect(d) then fate
      else if ev.device == d || s.filter.devices - {d} == {} then Removed
      else fate
    case LagCleared => if fate == Refused then Cleared else fate
    case _ => fate
  }

  function MovedAll(s: Sub, op: Op, ops: seq<Op>, fates: seq<Fate>): (r: seq<Fate>)
    requires |ops| == |fates|
    ensures |r| == |fates|
    ensures forall i :: 0 <= i < |r| ==> r[i] == if ops[i].Offered? then Moved(s, op, ops[i].ev, fates[i]) else fates[i]
  {
    seq(|fates|, i requires 0 <= i < |fates| =>
      if ops[i].Offered? then Moved(s, op, ops[i].ev, fates[i]) else fates[i])
  }

  function Live(filter: Filter, ops: seq<Op>): (l: Life)
    ensures |l.fates| == |ops|
  {
    if ops == [] then Life(Fresh(filter), [], [])
    else
      var n := |ops| - 1;
      var l := Live(filter, ops[..n]);
      Life(
        Apply(l.sub, ops[n]),
        if ops[n].Received? && l.sub.queue != [] then l.taken + [l.sub.queue[0]] else l.taken,
        MovedAll(l.sub, ops[n], ops[..n], l.fates)
          + [if ops[n].Offered? then OfferFate(l.sub, ops[n].ev) else Ignored])
  }

  lemma LiveStep(filter: Filter, ops: seq<Op>, op: Op)
    ensures var l, next := Live(filter, ops), Live(filter, ops + [op]);
      && next.sub == Apply(l.sub, op)
      && next.taken == (if op.Received? && l.sub.queue != [] then l.taken + [l.sub.queue[0]] else l.taken)
      && next.fates == MovedAll(l.sub, op, ops, l.fates) + [if op.Offered? then OfferFate(l.sub, op.ev) else Ignored]
  {
    assert (ops + [op])[..|ops|] == ops;
  }

  /** Calls that follow a history make a longer one. */
  lemma {:induction false} LiveCarried(filter: Filter, ops: seq<Op>, more: seq<Op>)
    ensures Live(filter, ops + more).sub == Carried(Live(filter, ops).sub, more)
  {
    if more == [] {
      assert ops + more == ops;
    } else {
      var n := |more| - 1;
      LiveCarried(filter, ops, more[..n]);
      assert (ops + more)[..|ops + more| - 1] == ops + more[..n];
    }
  }

  /** The offered events that have one fate, in offer order. */
  function EventsOf(ops: seq<Op>, fates: seq<Fate>, fate: Fate): seq<Event>
    requires |ops| == |fates|
  {
    if ops == [] then []
    else
      var n := |ops| - 1;
      EventsOf(ops[..n], fates[..n], fate) + if ops[n].Offered? && fates[n] == fate then [ops[n].ev] else []
  }

  lemma EventsOfAppend(ops: seq<Op>, fates: seq<Fate>, op: Op, last: Fate, fate: Fate)
    requires |ops| == |fates|
    ensures EventsOf(ops + [op], fates + [last], fate)
         == EventsOf(ops, fates, fate) + if op.Offered? && last == fate then [op.ev] else []
  {
    assert (ops + [op])[..|ops|] == ops && (fates + [last])[..|ops|] == fates;
  }

  lemma {:induction false} SameEvents(ops: seq<Op>, fates: seq<Fate>, after: seq<Fate>, fate: Fate)
    requires |ops| == |fates| == |after|
    requires forall i :: 0 <= i < |ops| && ops[i].Offered? ==> (fates[i] == fate <==> after[i] == fate)
    ensures EventsOf(ops, fates, fate) == EventsOf(ops, after, fate)
  {
    if ops != [] {
      var n := |ops| - 1;
      SameEvents(ops[..n], fates[..n], after[..n], fate);
    }
  }

  lemma {:induction false} NoEvents(ops: seq<Op>, fates: seq<Fate>, fate: Fate)
    requires |ops| == |fates|
    requires forall i :: 0 <= i < |ops| && ops[i].Offered? ==> fates[i] != fate
    ensures EventsOf(ops, fates, fate) == []
  {
    if ops != [] {
      NoEvents(ops[..|ops| - 1], fates[..|ops| - 1], fate);
    }
  }

  lemma {:induction false} NoEventsConverse(ops: seq<Op>, fates: seq<Fate>, fate: Fate)
    requires |ops| == |fates| && EventsOf(ops, fates, fate) == []
    ensures forall i :: 0 <= i < |ops| && ops[i].Offered? ==> fates[i] != fate
  {
    if ops != [] {
      NoEventsConverse(ops[..|ops| - 1], fates[..|ops| - 1], fate);
    }
  }

  lemma {:induction false} EventsOfMember(ops: seq<Op>, fates: seq<Fate>, fate: Fate, i: nat)
    requires |ops| == |fates| && i < |ops| && ops[i].Offered? && fates[i] == fate
    ensures ops[i].ev in EventsOf(ops, fates, fate)
  {
    var n := |ops| - 1;
    if i < n {
      EventsOfMember(ops[..n], fates[..n], fate, i);
    }
  }

  // ---------- The handover ----------

  /** What a handover passes on. */
  function Passed(buffer: seq<Event>, filter: Filter, throughSeq: int): seq<Event> {
    if buffer == [] then []
    else
      var n := |buffer| - 1;
      Passed(buffer[..n], filter, throughSeq)
        + if buffer[n].seqNo <= throughSeq || !filter.Allows(buffer[n].device) then [] else [buffer[n]]
  }

  lemma {:induction false} PassedSize(buffer: seq<Event>, filter: Filter, throughSeq: int)
    ensures |Passed(buffer, filter, throughSeq)| <= |buffer|
  {
    if buffer != [] {
      PassedSize(buffer[..|buffer| - 1], filter, throughSeq);
    }
  }

  lemma {:induction false} HandoverFits(s: Sub, buffered: seq<Event>, throughSeq: int)
    requires !s.closed && !s.ended && |s.queue| + |buffered| <= QUEUE_DEPTH
    ensures Handover(s, buffered, throughSeq) == s.(queue := s.queue + Passed(buffered, s.filter, throughSeq))
  {
    if buffered != [] {
      var n := |buffered| - 1;
      HandoverFits(s, buffered[..n], throughSeq);
      PassedSize(buffered[..n], s.filter, throughSeq);
    }
  }

  lemma {:induction false} HandoverRelabels(s: Sub, t: int, ops: seq<Op>, fates: seq<Fate>)
    requires |ops| == |fates|
    requires s.replaying && !s.closed && !s.ended
    requires forall i :: 0 <= i < |ops| && ops[i].Offered? ==> fates[i] != Queued
    ensures EventsOf(ops, MovedAll(s, ReplayEnded(t), ops, fates), Queued)
         == Passed(EventsOf(ops, fates, Held), s.filter, t)
  {
    if ops != [] {
      var n := |ops| - 1;
      HandoverRelabels(s, t, ops[..n], fates[..n]);
      var after := MovedAll(s, ReplayEnded(t), ops, fates);
      assert after[..n] == MovedAll(s, ReplayEnded(t), ops[..n], fates[..n]);
      var held := EventsOf(ops[..n], fates[..n], Held);
      var tail := if ops[n].Offered? && fates[n] == Held then [ops[n].ev] else [];
      assert (held + tail)[..|held|] == held;
      assert tail == [] ==> held + tail == held;
    }
  }

  lemma {:induction false} DropRelabels(s: Sub, d: Uuid, ops: seq<Op>, fates: seq<Fate>)
    requires |ops| == |fates|
    requires s.DropTakesEffect(d) && s.filter.devices - {d} != {}
    ensures EventsOf(ops, MovedAll(s, DeviceDropped(d), ops, fates), Held) == Without(EventsOf(ops, fates, Held), d)
  {
    if ops != [] {
      var n := |ops| - 1;
      DropRelabels(s, d, ops[..n], fates[..n]);
      var after := MovedAll(s, DeviceDropped(d), ops, fates);
      assert after[..n] == MovedAll(s, DeviceDropped(d), ops[..n], fates[..n]);
      var held := EventsOf(ops[..n], fates[..n], Held);
      var tail := if ops[n].Offered? && fates[n] == Held then [ops[n].ev] else [];
      assert (held + tail)[..|held|] == held;
      assert tail == [] ==> held + tail == held;
    }
  }

  // ---------- Conservation, over every history ----------

  /** The buffer, the queue and the lag marker hold exactly the events whose fate says so. */
  ghost predicate Accounted(ops: seq<Op>, l: Life)
    requires |ops| == |l.fates|
  {
    && l.sub.buffer == EventsOf(ops, l.fates, Held)
    && l.Output() == EventsOf(ops, l.fates, Queued)
    && l.sub.dropped == |EventsOf(ops, l.fates, Refused)|
    && (l.sub.lagged <==> l.sub.dropped > 0)
    && l.sub.laggedAt == (if l.sub.lagged then EventsOf(ops, l.fates, Refused)[0].seqNo else 0)
  }

  ghost predicate Bounded(l: Life) {
    && |l.sub.buffer| <= QUEUE_DEPTH
    && |l.sub.queue| <= QUEUE_DEPTH
    && (l.sub.replaying ==> l.Output() == [])
    && (!l.sub.replaying || l.sub.ended ==> l.sub.buffer == [])
  }

  lemma {:induction false} WithoutSize(buffer: seq<Event>, d: Uuid)
    ensures |Without(buffer, d)| <= |buffer|
  {
    if buffer != [] {
      WithoutSize(buffer[..|buffer| - 1], d);
    }
  }

  lemma OfferIsBounded(s: Sub, ev: Event)
    requires |s.buffer| <= QUEUE_DEPTH && |s.queue| <= QUEUE_DEPTH && (s.replaying ==> s.queue == [])
    requires !s.replaying || s.ended ==> s.buffer == []
    ensures var next := Offer(s, ev);
      && |next.buffer| <= QUEUE_DEPTH && |next.queue| <= QUEUE_DEPTH && (next.replaying ==> next.queue == [])
      && (!next.replaying || next.ended ==> next.buffer == [])
  {
    OfferByFate(s, ev);
  }

  lemma StepIsBounded(l: Life, op: Op)
    requires Bounded(l)
    ensures Bounded(Life(Apply(l.sub, op), if op.Received? && l.sub.queue != [] then l.taken + [l.sub.queue[0]] else l.taken, []))
  {
    match op
    case Offered(ev) => OfferIsBounded(l.sub, ev);
    case ReplayEnded(t) =>
      if l.sub.replaying && !l.sub.closed && !l.sub.ended {
        HandoverFits(l.sub.(replaying := false, buffer := []), l.sub.buffer, t);
        PassedSize(l.sub.buffer, l.sub.filter, t);
      }
    case DeviceDropped(d) => WithoutSize(l.sub.buffer, d);
    case _ =>
  }

  lemma {:induction false} QueueIsBounded(filter: Filter, ops: seq<Op>)
    ensures Bounded(Live(filter, ops))
  {
    if ops != [] {
      var n := |ops| - 1;
      QueueIsBounded(filter, ops[..n]);
      StepIsBounded(Live(filter, ops[..n]), ops[n]);
      LiveStep(filter, ops[..n], ops[n]);
      assert ops[..n] + [ops[n]] == ops;
    }
  }

  /** Handing over can refuse nothing: a replay implies an empty queue and a buffer that fits. */
  lemma EndReplayNeverOverflows(filter: Filter, ops: seq<Op>, t: int)
    ensures var l := Live(filter, ops);
      var after := EndReplay(l.sub, t);
      && (after.lagged, after.laggedAt, after.dropped) == (l.sub.lagged, l.sub.laggedAt, l.sub.dropped)
      && (l.sub.replaying && !l.sub.closed && !l.sub.ended ==> after.queue == Passed(l.sub.buffer, l.sub.filter, t))
  {
    QueueIsBounded(filter, ops);
    var s := Live(filter, ops).sub;
    if s.replaying && !s.closed && !s.ended {
      HandoverFits(s.(replaying := false, buffer := []), s.buffer, t);
    }
  }

  lemma {:induction false} NothingLost(filter: Filter, ops: seq<Op>)
    ensures Accounted(ops, Live(filter, ops))
  {
    if ops != [] {
      var n := |ops| - 1;
      var before, op := ops[..n], ops[n];
      NothingLost(filter, before);
      QueueIsBounded(filter, before);
      LiveStep(filter, before, op);
      assert before + [op] == ops;
      StepIsAccounted(before, Live(filter, before), op, Live(filter, ops));
    }
  }

  /** An offer does to the subscription what the event's fate says. */
  lemma OfferByFate(s: Sub, ev: Event)
    ensures Offer(s, ev) ==
      match OfferFate(s, ev)
      case Held => s.(buffer := s.buffer + [ev])
      case Queued => s.(queue := s.queue + [ev])
      case Refused => Refuse(s, ev)
      case _ => s
    ensures OfferFate(s, ev) == Refused ==> !ev.ephemeral
  {
  }

  lemma StepIsAccounted(ops: seq<Op>, l: Life, op: Op, next: Life)
    requires |ops| == |l.fates|
    requires Accounted(ops, l) && Bounded(l)
    requires next.sub == Apply(l.sub, op)
    requires next.taken == if op.Received? && l.sub.queue != [] then l.taken + [l.sub.queue[0]] else l.taken
    requires next.fates == MovedAll(l.sub, op, ops, l.fates) + [if op.Offered? then OfferFate(l.sub, op.ev) else Ignored]
    ensures Accounted(ops + [op], next)
  {
    if op.Offered? {
      assert MovedAll(l.sub, op, ops, l.fates) == l.fates;
    } else {
      MoveIsAccounted(ops, l, op);
      OthersAreAccounted(ops, l, op, next);
    }
  }

  lemma OthersAreAccounted(ops: seq<Op>, l: Life, op: Op, next: Life)
    requires |ops| == |l.fates| && !op.Offered? && next.sub == Apply(l.sub, op)
    requires next.taken == if op.Received? && l.sub.queue != [] then l.taken + [l.sub.queue[0]] else l.taken
    requires next.fates == MovedAll(l.sub, op, ops, l.fates) + [Ignored]
    requires MovedAccounted(ops, l, op)
    ensures Accounted(ops + [op], next)
  {
    var moved := MovedAll(l.sub, op, ops, l.fates);
    NoOfferAdds(ops, moved, op, Held);
    NoOfferAdds(ops, moved, op, Queued);
    NoOfferAdds(ops, moved, op, Refused);
    if op.Received? {
      ReceivedIsSame(l, next);
    }
  }

  lemma NoOfferAdds(ops: seq<Op>, fates: seq<Fate>, op: Op, fate: Fate)
    requires |ops| == |fates| && !op.Offered?
    ensures EventsOf(ops + [op], fates + [Ignored], fate) == EventsOf(ops, fates, fate)
  {
    EventsOfAppend(ops, fates, op, Ignored, fate);
  }

  /** What the reader takes from the queue is still of all that was put on it. */
  lemma ReceivedIsSame(l: Life, next: Life)
    requires next.sub == Receive(l.sub)
    requires next.taken == if l.sub.queue != [] then l.taken + [l.sub.queue[0]] else l.taken
    ensures next.Output() == l.Output()
  {
  }

  ghost predicate MovedAccounted(ops: seq<Op>, l: Life, op: Op)
    requires |ops| == |l.fates|
  {
    var moved := MovedAll(l.sub, op, ops, l.fates);
    var after := Apply(l.sub, op);
    && after.buffer == EventsOf(ops, moved, Held)
    && (if op.Received? then l.Output() else l.taken + after.queue) == EventsOf(ops, moved, Queued)
    && after.dropped == |EventsOf(ops, moved, Refused)|
    && (after.lagged <==> after.dropped > 0)
    && after.laggedAt == (if after.lagged then EventsOf(ops, moved, Refused)[0].seqNo else 0)
  }

  /** The half of a step that moves the events offered before it. */
  lemma MoveIsAccounted(ops: seq<Op>, l: Life, op: Op)
    requires |ops| == |l.fates|
    requires Accounted(ops, l) && Bounded(l) && !op.Offered?
    ensures MovedAccounted(ops, l, op)
  {
    match op
    case ReplayEnded(t) => EndIsAccounted(ops, l, t);
    case DeviceDropped(d) => DropIsAccounted(ops, l, d);
    case LagCleared => ClearIsAccounted(ops, l);
    case _ => RestIsAccounted(ops, l, op);
  }

  lemma EndIsAccounted(ops: seq<Op>, l: Life, t: int)
    requires |ops| == |l.fates| && Accounted(ops, l) && Bounded(l)
    ensures MovedAccounted(ops, l, ReplayEnded(t))
  {
    var s, moved := l.sub, MovedAll(l.sub, ReplayEnded(t), ops, l.fates);
    NoEvents(ops, moved, Held);
    SameEvents(ops, l.fates, moved, Refused);
    if s.replaying && !s.closed && !s.ended {
      var held := EventsOf(ops, l.fates, Held);
      NoEventsConverse(ops, l.fates, Queued);
      HandoverRelabels(s, t, ops, l.fates);
      HandoverFits(s.(replaying := false, buffer := []), s.buffer, t);
      assert l.taken == [] && s.queue == [] && s.buffer == held;
      assert EndReplay(s, t) == s.(replaying := false, buffer := [], queue := Passed(held, s.filter, t));
    } else {
      SameEvents(ops, l.fates, moved, Queued);
      assert EndReplay(s, t) == s.(replaying := false, buffer := []);
    }
  }

  lemma DropIsAccounted(ops: seq<Op>, l: Life, d: Uuid)
    requires |ops| == |l.fates| && Accounted(ops, l)
    ensures MovedAccounted(ops, l, DeviceDropped(d))
  {
    var s, moved := l.sub, MovedAll(l.sub, DeviceDropped(d), ops, l.fates);
    SameEvents(ops, l.fates, moved, Queued);
    SameEvents(ops, l.fates, moved, Refused);
    if !s.DropTakesEffect(d) {
      SameEvents(ops, l.fates, moved, Held);
    } else if s.filter.devices - {d} == {} {
      NoEvents(ops, moved, Held);
    } else {
      DropRelabels(s, d, ops, l.fates);
    }
  }

  lemma ClearIsAccounted(ops: seq<Op>, l: Life)
    requires |ops| == |l.fates| && Accounted(ops, l)
    ensures MovedAccounted(ops, l, LagCleared)
  {
    var moved := MovedAll(l.sub, LagCleared, ops, l.fates);
    SameEvents(ops, l.fates, moved, Held);
    SameEvents(ops, l.fates, moved, Queued);
    NoEvents(ops, moved, Refused);
  }

  lemma RestIsAccounted(ops: seq<Op>, l: Life, op: Op)
    requires |ops| == |l.fates| && Accounted(ops, l) && (op.Received? || op.LagRead? || op.Closed?)
    ensures MovedAccounted(ops, l, op)
  {
    assert MovedAll(l.sub, op, ops, l.fates) == l.fates;
  }
}
