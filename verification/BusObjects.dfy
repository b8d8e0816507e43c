/** The bus and its subscriptions as the objects they are, each method one critical section
    (Publish and DropDevice several), proved against the functions of EventBus. */
module EventBusObjects {
  import opened EventBus
  import opened EventBusTrace

  lemma {:induction false} CarriedOn(s: Sub, first: seq<Op>, second: seq<Op>)
    ensures Carried(Carried(s, first), second) == Carried(s, first + second)
  {
    if second == [] {
      assert first + second == first;
    } else {
      var n, all := |second| - 1, first + second;
      CarriedOn(s, first, second[..n]);
      assert all[..|all| - 1] == first + second[..n];
      assert all[|all| - 1] == second[n];
    }
  }

  /** A subscription with a history then has a longer one, with this call in it exactly once more:
      what is proved of every history holds of it. */
  lemma {:induction false} CallInHistory(filter: Filter, ops: seq<Op>, before: seq<Op>, op: Op, after: seq<Op>)
    ensures Carried(Live(filter, ops).sub, before + [op] + after) == Live(filter, ops + before + [op] + after).sub
  {
    LiveCarried(filter, ops, before + [op] + after);
    assert ops + (before + [op] + after) == ops + before + [op] + after;
  }

  lemma {:induction false} NeverTakesAgain(s: Sub, device: Uuid, ops: seq<Op>)
    ensures !s.filter.all ==> !Carried(s, ops).filter.all
    ensures !s.Takes(device) ==> !Carried(s, ops).Takes(device)
  {
    if ops != [] {
      var n := |ops| - 1;
      NeverTakesAgain(s, device, ops[..n]);
      ApplyControl(Carried(s, ops[..n]), ops[n]);
    }
  }

  /** A drop among other calls stops the device whatever they are. */
  lemma DroppedIsNotTaken(s: Sub, before: seq<Op>, device: Uuid, after: seq<Op>)
    requires !s.filter.all
    ensures !Carried(s, before + [DeviceDropped(device)] + after).Takes(device)
  {
    var mid := before + [DeviceDropped(device)];
    NeverTakesAgain(s, device, before);
    assert mid[..|before|] == before;
    ApplyControl(Carried(s, before), DeviceDropped(device));
    NeverTakesAgain(Carried(s, mid), device, after);
    CarriedOn(s, mid, after);
  }

  class Subscription {
    const tenant: Uuid
    var filter: Filter
    var replaying: bool
    var buffer: seq<Event>
    var queue: seq<Event>
    var closed: bool
    var ended: bool
    var lagged: bool
    var laggedAt: int
    var dropped: nat
    // The two channels: a send on a closed one, or a second close, would panic.
    var eventsClosed: bool
    var doneClosed: bool

    function View(): Sub
      reads this
    {
      Sub(filter, replaying, buffer, queue, closed, ended, lagged, laggedAt, dropped)
    }

    ghost predicate Valid()
      reads this
    {
      eventsClosed == closed && doneClosed == ended
    }

    constructor (tenant: Uuid, filter: Filter)
      ensures Valid() && View() == Fresh(filter) && this.tenant == tenant
    {
      this.tenant := tenant;
      this.filter := filter;
      replaying := true;
      buffer, queue := [], [];
      closed, ended, eventsClosed, doneClosed := false, false, false, false;
      lagged, laggedAt, dropped := false, 0, 0;
    }

    method TrySend(ev: Event) returns (sent: bool)
      requires !eventsClosed
      modifies this`queue
      ensures sent == (|old(queue)| < QUEUE_DEPTH)
      ensures queue == if sent then old(queue) + [ev] else old(queue)
    {
      sent := |queue| < QUEUE_DEPTH;
      if sent {
        queue := queue + [ev];
      }
    }

    method CloseEvents()
      requires !eventsClosed
      modifies this`eventsClosed
      ensures eventsClosed
    {
      eventsClosed := true;
    }

    method CloseDone()
      requires !doneClosed
      modifies this`doneClosed
      ensures doneClosed
    {
      doneClosed := true;
    }

    method DropLocked(ev: Event)
      modifies this`lagged, this`laggedAt, this`dropped
      ensures View() == Refuse(old(View()), ev)
    {
      if ev.ephemeral {
        return;
      }
      if !lagged {
        lagged, laggedAt := true, ev.seqNo;
      }
      dropped := dropped + 1;
    }

    method DeliverLocked(ev: Event)
      requires Valid()
      modifies this`queue, this`lagged, this`laggedAt, this`dropped
      ensures Valid() && View() == Deliver(old(View()), ev)
    {
      if closed || ended {
        return;
      }
      var sent := TrySend(ev);
      if !sent {
        DropLocked(ev);
      }
    }

    method Offer(ev: Event)
      requires Valid()
      modifies this
      ensures Valid() && View() == EventBus.Offer(old(View()), ev)
    {
      if closed || ended || !filter.Allows(ev.device) {
        return;
      }
      if replaying {
        if ev.ephemeral {
          return;
        }
        if |buffer| < QUEUE_DEPTH {
          buffer := buffer + [ev];
          return;
        }
        DropLocked(ev);
        return;
      }
      DeliverLocked(ev);
    }

    method EndReplay(throughSeq: int)
      requires Valid()
      modifies this
      ensures Valid() && View() == EventBus.EndReplay(old(View()), throughSeq)
    {
      if !replaying || closed || ended {
        replaying := false;
        buffer := [];
        return;
      }
      replaying := false;
      var buffered := buffer;
      buffer := [];
      ghost var start := View();
      var i := 0;
      while i < |buffered|
        invariant 0 <= i <= |buffered|
        invariant Valid() && View() == Handover(start, buffered[..i], throughSeq)
      {
        assert buffered[..i + 1][..i] == buffered[..i];
        var ev := buffered[i];
        if ev.seqNo > throughSeq && filter.Allows(ev.device) {
          DeliverLocked(ev);
        }
        i := i + 1;
      }
      assert buffered[..i] == buffered;
    }

    method Drop(device: Uuid)
      requires Valid()
      modifies this
      ensures Valid() && View() == DropDevice(old(View()), device)
    {
      if closed || ended || filter.all || device !in filter.devices {
        return;
      }
      var next := filter.devices - {device};
      if next == {} {
        ended := true;
        buffer := [];
        CloseDone();
        return;
      }
      filter := Filter(next, false);
      var kept: seq<Event>, i := [], 0;
      while i < |buffer|
        invariant 0 <= i <= |buffer|
        invariant kept == Without(buffer[..i], device)
      {
        assert buffer[..i + 1][..i] == buffer[..i];
        if buffer[i].device != device {
          kept := kept + [buffer[i]];
        }
        i := i + 1;
      }
      assert buffer[..i] == buffer;
      buffer := kept;
    }

    method Allows(device: Uuid) returns (yes: bool)
      ensures yes == View().Takes(device)
    {
      if closed || ended {
        return false;
      }
      return filter.Allows(device);
    }

    method Lagged() returns (lag: bool, at: int, count: nat)
      ensures (lag, at, count) == (View().lagged, View().laggedAt, View().dropped)
    {
      return lagged, laggedAt, dropped;
    }

    method ClearLag()
      modifies this`lagged, this`laggedAt, this`dropped
      ensures View() == EventBus.ClearLag(old(View()))
    {
      lagged, laggedAt, dropped := false, 0, 0;
    }

    method Receive() returns (ev: Event, ok: bool)
      requires Valid()
      modifies this`queue
      ensures Valid() && View() == EventBus.Receive(old(View()))
      ensures ok == (old(queue) != []) && (ok ==> ev == old(queue)[0])
    {
      ok := queue != [];
      ev := Event(0, 0, true);
      if ok {
        ev, queue := queue[0], queue[1..];
      }
    }

    /** The second half of Close, under the subscription's own lock. */
    method MarkClosed()
      requires Valid()
      modifies this`closed, this`eventsClosed
      ensures Valid() && View() == EventBus.Close(old(View()))
    {
      if !closed {
        closed := true;
        CloseEvents();
      }
    }

    /** Some call of another goroutine. */
    method Perform(op: Op)
      requires Valid()
      modifies this
      ensures Valid() && View() == Apply(old(View()), op)
    {
      match op
      case Offered(ev) => Offer(ev);
      case ReplayEnded(t) => EndReplay(t);
      case DeviceDropped(d) => Drop(d);
      case Received => var _, _ := Receive();
      case LagRead => var _, _, _ := Lagged();
      case LagCleared => ClearLag();
      case Closed => MarkClosed();
    }
  }

  // ---------- A call on each of some subscriptions, among what other goroutines do ----------

  datatype Act = Act(sub: Subscription, op: Op)

  /** The calls on one subscription. */
  ghost function Mine(acts: seq<Act>, s: Subscription): seq<Op> {
    if acts == [] then []
    else Mine(acts[..|acts| - 1], s) + if acts[|acts| - 1].sub == s then [acts[|acts| - 1].op] else []
  }

  lemma {:induction false} MineConcat(first: seq<Act>, second: seq<Act>, s: Subscription)
    ensures Mine(first + second, s) == Mine(first, s) + Mine(second, s)
  {
    if second == [] {
      assert first + second == first;
    } else {
      var n, all := |second| - 1, first + second;
      MineConcat(first, second[..n], s);
      assert all[..|all| - 1] == first + second[..n];
    }
  }

  /** This goroutine's calls, one on each of `order`, each after the gap in which others act. */
  ghost function Calls(gaps: seq<seq<Act>>, order: seq<Subscription>, op: Op): seq<Act>
    requires |order| <= |gaps|
  {
    if order == [] then []
    else
      var n := |order| - 1;
      Calls(gaps, order[..n], op) + gaps[n] + [Act(order[n], op)]
  }

  /** What others do in the gaps from one up to another. */
  ghost function Joined(gaps: seq<seq<Act>>, first: nat, end: nat): seq<Act>
    requires end <= |gaps|
    decreases end
  {
    if end <= first then [] else Joined(gaps, first, end - 1) + gaps[end - 1]
  }

  ghost predicate Scheduled(gaps: seq<seq<Act>>, subs: set<Subscription>) {
    |gaps| == |subs| + 1 && forall i, j :: 0 <= i < |gaps| && 0 <= j < |gaps[i]| ==> gaps[i][j].sub in subs
  }

  /** Nobody else does anything. */
  ghost predicate Alone(gaps: seq<seq<Act>>) {
    forall i :: 0 <= i < |gaps| ==> gaps[i] == []
  }

  lemma {:induction false} NothingJoined(gaps: seq<seq<Act>>, first: nat, end: nat)
    requires Alone(gaps) && end <= |gaps|
    ensures Joined(gaps, first, end) == []
    decreases end
  {
    if end > first {
      NothingJoined(gaps, first, end - 1);
    }
  }

  ghost predicate Distinct(order: seq<Subscription>) {
    forall i, j :: 0 <= i < j < |order| ==> order[i] != order[j]
  }

  /** Of somebody not called: only what others do. */
  lemma {:induction false} NotCalled(gaps: seq<seq<Act>>, order: seq<Subscription>, op: Op, s: Subscription)
    requires |order| <= |gaps| && s !in order
    ensures Mine(Calls(gaps, order, op), s) == Mine(Joined(gaps, 0, |order|), s)
  {
    if order != [] {
      var n := |order| - 1;
      var before := Calls(gaps, order[..n], op) + gaps[n];
      NotCalled(gaps, order[..n], op, s);
      MineConcat(Calls(gaps, order[..n], op), gaps[n], s);
      MineConcat(Joined(gaps, 0, n), gaps[n], s);
      assert (before + [Act(order[n], op)])[..|before|] == before;
    }
  }

  /** Of the one called at k: what others do up to then, this call once, and what others do after. */
  lemma {:induction false} CalledOnce(gaps: seq<seq<Act>>, order: seq<Subscription>, op: Op, k: nat)
    requires |order| <= |gaps| && Distinct(order) && k < |order|
    ensures Mine(Calls(gaps, order, op), order[k]) ==
      Mine(Joined(gaps, 0, k + 1), order[k]) + [op] + Mine(Joined(gaps, k + 1, |order|), order[k])
  {
    var n, s := |order| - 1, order[k];
    var before := Calls(gaps, order[..n], op) + gaps[n];
    assert (before + [Act(order[n], op)])[..|before|] == before;
    MineConcat(Calls(gaps, order[..n], op), gaps[n], s);
    if k == n {
      NotCalled(gaps, order[..n], op, s);
      MineConcat(Joined(gaps, 0, n), gaps[n], s);
    } else {
      CalledOnce(gaps, order[..n], op, k);
      MineConcat(Joined(gaps, k + 1, n), gaps[n], s);
      Associate(Mine(Joined(gaps, 0, k + 1), s) + [op], Mine(Joined(gaps, k + 1, n), s), Mine(gaps[n], s));
    }
  }

  ghost function Views(subs: set<Subscription>): map<Subscription, Sub>
    reads subs
  {
    map s | s in subs :: s.View()
  }

  /** What was done is the log. */
  ghost predicate Logged(was: map<Subscription, Sub>, now: map<Subscription, Sub>, log: seq<Act>) {
    was.Keys == now.Keys && forall s :: s in was ==> now[s] == Carried(was[s], Mine(log, s))
  }

  lemma LogOne(was: map<Subscription, Sub>, now: map<Subscription, Sub>, log: seq<Act>, act: Act)
    requires Logged(was, now, log) && act.sub in now
    ensures Logged(was, now[act.sub := Apply(now[act.sub], act.op)], log + [act])
  {
    assert (log + [act])[..|log|] == log;
    var mine := Mine(log, act.sub);
    assert (mine + [act.op])[..|mine|] == mine;
    forall s | s in was && s != act.sub
      ensures Mine(log + [act], s) == Mine(log, s)
    {
    }
  }

  method Call(subs: set<Subscription>, sub: Subscription, op: Op)
    requires (forall s :: s in subs ==> s.Valid()) && sub in subs
    modifies sub
    ensures forall s :: s in subs ==> s.Valid()
    ensures Views(subs) == old(Views(subs))[sub := Apply(old(Views(subs))[sub], op)]
  {
    sub.Perform(op);
  }

  /** What other goroutines do in one gap. */
  method Others(subs: set<Subscription>, acts: seq<Act>, ghost was: map<Subscription, Sub>, ghost log: seq<Act>)
    requires (forall s :: s in subs ==> s.Valid()) && (forall j :: 0 <= j < |acts| ==> acts[j].sub in subs)
    requires Logged(was, Views(subs), log)
    modifies subs
    ensures (forall s :: s in subs ==> s.Valid()) && Logged(was, Views(subs), log + acts)
  {
    var i := 0;
    ghost var done := log + acts[..0];
    assert done == log;
    while i < |acts|
      invariant 0 <= i <= |acts| && done == log + acts[..i]
      invariant Logged(was, Views(subs), done)
      invariant forall s :: s in subs ==> s.Valid()
    {
      PrefixOne(log, acts, i);
      LogOne(was, Views(subs), done, acts[i]);
      Call(subs, acts[i].sub, acts[i].op);
      done := done + [acts[i]];
      i := i + 1;
    }
    assert acts[..i] == acts;
  }

  lemma PrefixOne(log: seq<Act>, acts: seq<Act>, i: nat)
    requires i < |acts|
    ensures log + acts[..i] + [acts[i]] == log + acts[..i + 1]
  {
  }

  /** Others act, and then this goroutine makes its next call. */
  method CallNext(
    subs: set<Subscription>, sub: Subscription, op: Op, gaps: seq<seq<Act>>, at: nat, ghost was: map<Subscription, Sub>,
    ghost order: seq<Subscription>)
    requires (forall s :: s in subs ==> s.Valid()) && sub in subs && Scheduled(gaps, subs) && at == |order| < |gaps|
    requires Logged(was, Views(subs), Calls(gaps, order, op))
    modifies subs
    ensures (forall s :: s in subs ==> s.Valid()) && Logged(was, Views(subs), Calls(gaps, order + [sub], op))
  {
    ghost var log := Calls(gaps, order, op);
    assert (order + [sub])[..at] == order;
    Others(subs, gaps[at], was, log);
    LogOne(was, Views(subs), log + gaps[at], Act(sub, op));
    Call(subs, sub, op);
  }

  /** The loop of Publish and of DropDevice over their snapshot, in whatever order the map gives it;
      later subscriptions and ends of subscriptions do not change it. `gaps` is what other goroutines
      do before each call, and after the last. */
  method CallEach(subs: set<Subscription>, op: Op, gaps: seq<seq<Act>>) returns (ghost order: seq<Subscription>)
    requires (forall s :: s in subs ==> s.Valid()) && Scheduled(gaps, subs)
    modifies subs
    ensures forall s :: s in subs ==> s.Valid()
    ensures CalledEach(op, gaps, old(Views(subs)), Views(subs), order)
  {
    ghost var was := Views(subs);
    var todo, at := subs, 0;
    order := [];
    while todo != {}
      invariant at == |order| && |order| + |todo| == |subs| && todo <= subs && Distinct(order)
      invariant forall s :: s in subs ==> (s in order <==> s !in todo)
      invariant forall s :: s in order ==> s in subs
      invariant Logged(was, Views(subs), Calls(gaps, order, op))
      invariant forall s :: s in subs ==> s.Valid()
      decreases todo
    {
      var sub :| sub in todo;
      CallNext(subs, sub, op, gaps, at, was, order);
      order, todo, at := order + [sub], todo - {sub}, at + 1;
    }
    Others(subs, gaps[at], was, Calls(gaps, order, op));
  }

  /** Each subscription was called exactly once, in `order`, and others did in the gaps what they did. */
  ghost predicate CalledEach(
    op: Op, gaps: seq<seq<Act>>, was: map<Subscription, Sub>, now: map<Subscription, Sub>, order: seq<Subscription>)
  {
    && |order| + 1 == |gaps| && Distinct(order) && (forall s :: s in order ==> s in was) && (forall s :: s in was ==> s in order)
    && Logged(was, now, Calls(gaps, order, op) + gaps[|order|])
  }

  lemma Associate(a: seq<Op>, b: seq<Op>, c: seq<Op>)
    ensures a + b + c == a + (b + c)
  {
  }

  lemma OnceInLog(op: Op, gaps: seq<seq<Act>>, order: seq<Subscription>, k: nat)
    requires |gaps| == |order| + 1 && Distinct(order) && k < |order|
    ensures Mine(Calls(gaps, order, op) + gaps[|order|], order[k]) ==
      Mine(Joined(gaps, 0, k + 1), order[k]) + [op] + Mine(Joined(gaps, k + 1, |gaps|), order[k])
  {
    var n, s := |order|, order[k];
    CalledOnce(gaps, order, op, k);
    MineConcat(Calls(gaps, order, op), gaps[n], s);
    MineConcat(Joined(gaps, k + 1, n), gaps[n], s);
    Associate(Mine(Joined(gaps, 0, k + 1), s) + [op], Mine(Joined(gaps, k + 1, n), s), Mine(gaps[n], s));
  }

  /** So each has had, once, this call, among what others did to it before and after. */
  lemma CallAmongOthers(
    op: Op, gaps: seq<seq<Act>>, was: map<Subscription, Sub>, now: map<Subscription, Sub>, order: seq<Subscription>, k: nat)
    requires CalledEach(op, gaps, was, now, order) && k < |order|
    ensures var s := order[k];
      && s in was && s in now
      && now[s] == Carried(was[s], Mine(Joined(gaps, 0, k + 1), s) + [op] + Mine(Joined(gaps, k + 1, |gaps|), s))
  {
    var s, log := order[k], Calls(gaps, order, op) + gaps[|order|];
    assert s in order;
    OnceInLog(op, gaps, order, k);
    InLog(was, now, log, s);
  }

  lemma InLog(was: map<Subscription, Sub>, now: map<Subscription, Sub>, log: seq<Act>, s: Subscription)
    requires Logged(was, now, log) && s in was
    ensures s in now && now[s] == Carried(was[s], Mine(log, s))
  {
  }

  /** With nobody else about, that call is all that was done. */
  lemma CallAlone(op: Op, gaps: seq<seq<Act>>, was: map<Subscription, Sub>, now: map<Subscription, Sub>, order: seq<Subscription>)
    requires CalledEach(op, gaps, was, now, order) && Alone(gaps)
    ensures forall s :: s in was ==> s in now && now[s] == Apply(was[s], op)
  {
    forall s | s in was
      ensures s in now && now[s] == Apply(was[s], op)
    {
      var k :| 0 <= k < |order| && order[k] == s;
      CallAmongOthers(op, gaps, was, now, order, k);
      NothingJoined(gaps, 0, k + 1);
      NothingJoined(gaps, k + 1, |gaps|);
      OneCarried(was[s], op);
    }
  }

  lemma OneCarried(s: Sub, op: Op)
    ensures Carried(s, [] + [op] + []) == Apply(s, op)
  {
    assert [] + [op] + [] == [op] && [op][..0] == [];
  }

  lemma DropAlone(device: Uuid, gaps: seq<seq<Act>>, was: map<Subscription, Sub>, now: map<Subscription, Sub>, order: seq<Subscription>)
    requires CalledEach(DeviceDropped(device), gaps, was, now, order)
    ensures Alone(gaps) ==> forall s :: s in was ==> s in now && now[s] == DropDevice(was[s], device)
  {
    if Alone(gaps) {
      CallAlone(DeviceDropped(device), gaps, was, now, order);
    }
  }

  lemma NoneTakes(device: Uuid, gaps: seq<seq<Act>>, was: map<Subscription, Sub>, now: map<Subscription, Sub>, order: seq<Subscription>)
    requires CalledEach(DeviceDropped(device), gaps, was, now, order)
    ensures forall s :: s in was ==> s in now && (!was[s].filter.all ==> !now[s].Takes(device))
  {
    forall s | s in was
      ensures s in now && (!was[s].filter.all ==> !now[s].Takes(device))
    {
      var k :| 0 <= k < |order| && order[k] == s;
      CallAmongOthers(DeviceDropped(device), gaps, was, now, order, k);
      if !was[s].filter.all {
        DroppedIsNotTaken(was[s], Mine(Joined(gaps, 0, k + 1), s), device, Mine(Joined(gaps, k + 1, |gaps|), s));
      }
    }
  }

  class Bus {
    var subs: map<Uuid, set<Subscription>>

    function Of(tenant: Uuid): set<Subscription>
      reads this
    {
      if tenant in subs then subs[tenant] else {}
    }

    function Members(): set<Subscription>
      reads this
    {
      set t, s | t in subs && s in subs[t] :: s
    }

    /** A tenant has an entry only while it has a subscription, and each is its tenant's. */
    ghost predicate Valid()
      reads this, Members()
    {
      forall t :: t in subs ==> subs[t] != {} && forall s :: s in subs[t] ==> s in Members() && s.tenant == t && s.Valid()
    }

    constructor ()
      ensures Valid() && subs == map[]
    {
      subs := map[];
    }

    method Subscribe(tenant: Uuid, filter: Filter) returns (sub: Subscription)
      requires Valid()
      modifies this
      ensures Valid() && fresh(sub) && sub.tenant == tenant && sub.Valid() && sub.View() == Fresh(filter)
      ensures Of(tenant) == old(Of(tenant)) + {sub}
      ensures forall t :: t != tenant ==> Of(t) == old(Of(t))
    {
      sub := new Subscription(tenant, filter);
      if tenant !in subs {
        subs := subs[tenant := {}];
      }
      subs := subs[tenant := subs[tenant] + {sub}];
    }

    /** Each subscription registered when it begins is offered the event exactly once, among what
        other goroutines do to it in the gaps; no other tenant's is touched. */
    method Publish(tenant: Uuid, ev: Event, gaps: seq<seq<Act>>) returns (ghost order: seq<Subscription>)
      requires Valid() && Scheduled(gaps, Of(tenant))
      modifies Of(tenant)
      ensures Valid()
      ensures CalledEach(Offered(ev), gaps, old(Views(Of(tenant))), Views(Of(tenant)), order)
      ensures Alone(gaps) ==> forall s :: s in Of(tenant) ==> s.View() == Offer(old(s.View()), ev)
    {
      ghost var was := Views(Of(tenant));
      order := CallEach(Of(tenant), Offered(ev), gaps);
      if Alone(gaps) {
        CallAlone(Offered(ev), gaps, was, Views(Of(tenant)), order);
        assert forall s :: s in Of(tenant) ==> Views(Of(tenant))[s] == s.View();
      }
    }

    /** Likewise, and none of them that names its devices delivers this one any more. */
    method DropDevice(tenant: Uuid, device: Uuid, gaps: seq<seq<Act>>) returns (ghost order: seq<Subscription>)
      requires Valid() && Scheduled(gaps, Of(tenant))
      modifies Of(tenant)
      ensures Valid()
      ensures CalledEach(DeviceDropped(device), gaps, old(Views(Of(tenant))), Views(Of(tenant)), order)
      ensures Alone(gaps) ==> forall s :: s in Of(tenant) ==> s.View() == EventBus.DropDevice(old(s.View()), device)
      ensures forall s :: s in Of(tenant) && !old(s.filter.all) ==> !s.View().Takes(device)
    {
      ghost var was := Views(Of(tenant));
      order := CallEach(Of(tenant), DeviceDropped(device), gaps);
      DropAlone(device, gaps, was, Views(Of(tenant)), order);
      NoneTakes(device, gaps, was, Views(Of(tenant)), order);
      assert forall s :: s in Of(tenant) ==> Views(Of(tenant))[s] == s.View();
    }

    /** Close, run twice or not: the events channel is closed once. */
    method Close(sub: Subscription)
      requires Valid() && sub.Valid()
      modifies this, sub
      ensures Valid() && sub.Valid() && sub.View() == EventBus.Close(old(sub.View()))
      ensures Of(sub.tenant) == old(Of(sub.tenant)) - {sub}
      ensures forall t :: t != sub.tenant ==> Of(t) == old(Of(t))
    {
      if sub.tenant in subs {
        var left := subs[sub.tenant] - {sub};
        subs := if left == {} then subs - {sub.tenant} else subs[sub.tenant := left];
      }
      sub.MarkClosed();
    }

    method Subscribers(tenant: Uuid) returns (n: nat)
      ensures n == |Of(tenant)|
    {
      n := |Of(tenant)|;
    }
  }
}
