/** One tenant's committers, publishers, subscribers and readers, interleaved step by step.
    Publish reads the set of subscriptions under one lock and offers under others, so its
    snapshot and each of its offers are separate steps; so are the two halves of Close. */
module EventBusSystem {
  import opened Wrappers
  import opened EventBus
  import opened EventBusTrace

  type SubId = nat

  /** prior: the events whose publisher had read the set of subscriptions before this one was in it.
      history, rowsRead: the highest sequence its reader has taken from history, and how many
      rows were committed when it last read. */
  datatype Member = Member(filter: Filter, ops: seq<Op>, prior: set<nat>, bornAt: nat, history: int, rowsRead: nat) {
    function Life(): Life {
      Live(filter, ops)
    }
  }

  /** log: the committed events; publishing: for each published one, by its place in the log, the
      subscriptions still to be offered it. */
  datatype Sys = Sys(log: seq<Event>, publishing: map<nat, set<SubId>>, members: map<SubId, Member>, registered: set<SubId>)

  const INIT: Sys := Sys([], map[], map[], {})

  function LastSeq(log: seq<Event>): int {
    if log == [] then 0 else log[|log| - 1].seqNo
  }

  datatype Step =
    | Commit(ev: Event)
    | Snapshot(k: nat)
    | OfferTo(k: nat, x: SubId)
    | OfferPresence(x: SubId, ev: Event)
    | Subscribe(x: SubId, filter: Filter)
    | ReadHistory(x: SubId, throughSeq: int)
    | Call(x: SubId, op: Op)
    | Unregister(x: SubId)

  /** Sequences are allocated in commit order. A reader reads no further than what is committed, ends
      its replay at no more than it has read, and clears a lag only once it has read it. */
  predicate Enabled(s: Sys, step: Step) {
    match step
    case Commit(ev) => !ev.ephemeral && LastSeq(s.log) < ev.seqNo
    case Snapshot(k) => k < |s.log| && k !in s.publishing
    case OfferTo(k, x) => k < |s.log| && k in s.publishing && x in s.publishing[k] && x in s.members
    case OfferPresence(x, ev) => ev.ephemeral && x in s.members
    case Subscribe(x, _) => x !in s.members
    case ReadHistory(x, t) => x in s.members && s.members[x].history <= t <= LastSeq(s.log)
    case Call(x, op) =>
      && x in s.members && !op.Offered?
      && (op.ReplayEnded? ==> op.throughSeq <= s.members[x].history)
      && (op.LagCleared? ==> Telling(s.members[x].filter, s.members[x].ops).Some?)
      && (op.Closed? ==> x !in s.registered)
    case Unregister(x) => x in s.registered
  }

  function Calling(s: Sys, x: SubId, op: Op): Sys
    requires x in s.members
  {
    s.(members := s.members[x := s.members[x].(ops := s.members[x].ops + [op])])
  }

  function Do(s: Sys, step: Step): Sys
    requires Enabled(s, step)
  {
    match step
    case Commit(ev) => s.(log := s.log + [ev])
    case Snapshot(k) => s.(publishing := s.publishing[k := s.registered])
    case OfferTo(k, x) => Calling(s.(publishing := s.publishing[k := s.publishing[k] - {x}]), x, Offered(s.log[k]))
    case OfferPresence(x, ev) => Calling(s, x, Offered(ev))
    case Subscribe(x, f) =>
      s.(members := s.members[x := Member(f, [], s.publishing.Keys, |s.log|, 0, 0)], registered := s.registered + {x})
    case ReadHistory(x, t) =>
      s.(members := s.members[x := s.members[x].(history := t, rowsRead := |s.log|)])
    case Call(x, op) => Calling(s, x, op)
    case Unregister(x) => s.(registered := s.registered - {x})
  }

  /** A schedule is any sequence of steps; one that is not enabled does nothing. */
  function Run(steps: seq<Step>): Sys {
    if steps == [] then INIT
    else
      var s := Run(steps[..|steps| - 1]);
      var step := steps[|steps| - 1];
      if Enabled(s, step) then Do(s, step) else s
  }

  // ---------- The invariant ----------

  ghost predicate LogInv(s: Sys) {
    && (forall i, j :: 0 <= i < j < |s.log| ==> s.log[i].seqNo < s.log[j].seqNo)
    && (forall i :: 0 <= i < |s.log| ==> !s.log[i].ephemeral && 0 < s.log[i].seqNo)
    && (forall k :: k in s.publishing ==> k < |s.log|)
    && s.registered <= s.members.Keys
    && (forall k, x :: k in s.publishing && x in s.publishing[k] ==> x in s.members)
  }

  ghost predicate WasOffered(m: Member, ev: Event) {
    exists i :: 0 <= i < |m.ops| && m.ops[i] == Offered(ev)
  }

  /** The publisher of log[k] found x registered, and has made its offer. */
  ghost predicate Due(s: Sys, x: SubId, k: nat)
    requires x in s.members
  {
    k in s.publishing && k !in s.members[x].prior && x !in s.publishing[k]
  }

  ghost predicate ReaderInv(s: Sys, x: SubId)
    requires x in s.members
  {
    var m := s.members[x];
    && m.bornAt <= |s.log| && m.rowsRead <= |s.log| && 0 <= m.history <= LastSeq(s.log)
    && (forall k :: m.rowsRead <= k < |s.log| ==> m.history < s.log[k].seqNo)
    && (forall i :: 0 <= i < |m.ops| && m.ops[i].ReplayEnded? ==> m.ops[i].throughSeq <= m.history)
    && (x in s.registered ==> forall i :: 0 <= i < |m.ops| ==> !m.ops[i].Closed?)
  }

  ghost predicate OfferInv(s: Sys, x: SubId)
    requires x in s.members
  {
    var m := s.members[x];
    && (forall k :: k in m.prior ==> k in s.publishing && k < m.bornAt && x !in s.publishing[k])
    && (forall k :: 0 <= k < |s.log| && WasOffered(m, s.log[k]) ==> Due(s, x, k))
    && (x in s.registered ==> forall k :: 0 <= k < |s.log| && Due(s, x, k) ==> WasOffered(m, s.log[k]))
  }

  ghost predicate MemberInv(s: Sys, x: SubId)
    requires x in s.members
  {
    && ReaderInv(s, x)
    && OfferInv(s, x)
    && OfferedOnce(s.members[x].ops)
    && ReadsFirst(s.members[x].filter, s.members[x].ops)
    && (forall i :: 0 <= i < |s.members[x].ops| && s.members[x].ops[i].Offered? && !s.members[x].ops[i].ev.ephemeral
          ==> s.members[x].ops[i].ev in s.log)
  }

  ghost predicate OfferedOnce(ops: seq<Op>) {
    forall i, j :: 0 <= i < j < |ops| && ops[i].Offered? && !ops[i].ev.ephemeral ==> ops[i] != ops[j]
  }

  ghost predicate Inv(s: Sys) {
    LogInv(s) && forall x :: x in s.members ==> MemberInv(s, x)
  }

  lemma WasOfferedStep(m: Member, op: Op, ev: Event)
    ensures WasOffered(m.(ops := m.ops + [op]), ev) <==> WasOffered(m, ev) || op == Offered(ev)
  {
    var next := m.(ops := m.ops + [op]);
    if WasOffered(m, ev) {
      var i :| 0 <= i < |m.ops| && m.ops[i] == Offered(ev);
      assert next.ops[i] == Offered(ev);
    }
    if op == Offered(ev) {
      assert next.ops[|m.ops|] == Offered(ev);
    }
  }

  /** A step that leaves x, the log and what is due to x alone. */
  lemma OthersKeepInv(s: Sys, next: Sys, x: SubId)
    requires x in s.members && x in next.members && MemberInv(s, x)
    requires next.members[x] == s.members[x] && next.log == s.log && (x in next.registered ==> x in s.registered)
    requires forall k :: k in s.publishing ==> k in next.publishing && (x in next.publishing[k] <==> x in s.publishing[k])
    requires forall k :: k in next.publishing && k !in s.publishing ==> x in next.publishing[k] || x !in s.registered
    ensures MemberInv(next, x)
  {
    forall k | 0 <= k < |s.log|
      ensures Due(s, x, k) ==> Due(next, x, k)
      ensures x in s.registered && Due(next, x, k) ==> Due(s, x, k)
    {
    }
    assert ReaderInv(next, x);
    assert OfferInv(next, x);
  }

  lemma CallKeepsMember(s: Sys, x: SubId, op: Op)
    requires LogInv(s) && x in s.members && MemberInv(s, x)
    requires op.Offered? ==> op.ev.ephemeral
    requires op.ReplayEnded? ==> op.throughSeq <= s.members[x].history
    requires op.LagCleared? ==> Telling(s.members[x].filter, s.members[x].ops).Some?
    requires op.Closed? ==> x !in s.registered
    ensures MemberInv(Calling(s, x, op), x)
  {
    var next := Calling(s, x, op);
    forall k | 0 <= k < |s.log|
      ensures WasOffered(next.members[x], s.log[k]) <==> WasOffered(s.members[x], s.log[k])
      ensures Due(next, x, k) <==> Due(s, x, k)
    {
      WasOfferedStep(s.members[x], op, s.log[k]);
    }
    ReadsFirstOneMore(s.members[x].filter, s.members[x].ops, op);
    assert ReaderInv(next, x) && OfferInv(next, x);
  }

  lemma CallKeepsInv(s: Sys, x: SubId, op: Op)
    requires Inv(s) && x in s.members
    requires op.Offered? ==> op.ev.ephemeral
    requires op.ReplayEnded? ==> op.throughSeq <= s.members[x].history
    requires op.LagCleared? ==> Telling(s.members[x].filter, s.members[x].ops).Some?
    requires op.Closed? ==> x !in s.registered
    ensures Inv(Calling(s, x, op))
  {
    var next := Calling(s, x, op);
    assert MemberInv(s, x);
    CallKeepsMember(s, x, op);
    forall y | y in next.members && y != x
      ensures MemberInv(next, y)
    {
      OthersKeepInv(s, next, y);
    }
  }

  lemma OfferKeepsInv(s: Sys, k: nat, x: SubId)
    requires Inv(s) && Enabled(s, OfferTo(k, x))
    ensures Inv(Do(s, OfferTo(k, x)))
  {
    var next := Do(s, OfferTo(k, x));
    assert MemberInv(s, x);
    OfferKeepsMember(s, k, x);
    forall y | y in next.members && y != x
      ensures MemberInv(next, y)
    {
      OthersKeepInv(s, next, y);
    }
  }

  lemma OfferKeepsMember(s: Sys, k: nat, x: SubId)
    requires LogInv(s) && Enabled(s, OfferTo(k, x)) && MemberInv(s, x)
    ensures MemberInv(Do(s, OfferTo(k, x)), x)
  {
    var next := Do(s, OfferTo(k, x));
    var m, after := s.members[x], next.members[x];
    forall i | 0 <= i < |s.log|
      ensures WasOffered(after, s.log[i]) <==> WasOffered(m, s.log[i]) || i == k
      ensures Due(next, x, i) <==> Due(s, x, i) || i == k
    {
      WasOfferedStep(m, Offered(s.log[k]), s.log[i]);
    }
    assert !Due(s, x, k);
    assert !WasOffered(m, s.log[k]);
    ReadsFirstOneMore(m.filter, m.ops, Offered(s.log[k]));
    assert OfferInv(next, x);
    assert ReaderInv(next, x);
  }

  lemma CommitKeepsInv(s: Sys, ev: Event)
    requires Inv(s) && Enabled(s, Commit(ev))
    ensures Inv(Do(s, Commit(ev)))
  {
    var next := Do(s, Commit(ev));
    assert ev !in s.log;
    forall x | x in next.members
      ensures MemberInv(next, x)
    {
      assert MemberInv(s, x);
      assert !WasOffered(s.members[x], ev);
      forall k | 0 <= k < |s.log|
        ensures Due(next, x, k) <==> Due(s, x, k)
      {
      }
      assert ReaderInv(next, x);
      assert OfferInv(next, x);
    }
  }

  lemma SubscribeKeepsInv(s: Sys, x: SubId, filter: Filter)
    requires Inv(s) && Enabled(s, Subscribe(x, filter))
    ensures Inv(Do(s, Subscribe(x, filter)))
  {
    var next := Do(s, Subscribe(x, filter));
    assert forall k :: k in s.publishing ==> x !in s.publishing[k];
    assert ReaderInv(next, x);
    assert OfferInv(next, x);
    forall y | y in next.members && y != x
      ensures MemberInv(next, y)
    {
      OthersKeepInv(s, next, y);
    }
  }

  lemma ReadKeepsInv(s: Sys, x: SubId, t: int)
    requires Inv(s) && Enabled(s, ReadHistory(x, t))
    ensures Inv(Do(s, ReadHistory(x, t)))
  {
    var next := Do(s, ReadHistory(x, t));
    assert MemberInv(s, x);
    assert ReaderInv(next, x);
    forall k | 0 <= k < |s.log|
      ensures Due(next, x, k) <==> Due(s, x, k)
      ensures WasOffered(next.members[x], s.log[k]) <==> WasOffered(s.members[x], s.log[k])
    {
    }
    assert OfferInv(next, x);
    forall y | y in next.members && y != x
      ensures MemberInv(next, y)
    {
      OthersKeepInv(s, next, y);
    }
  }

  lemma RegistryKeepsInv(s: Sys, step: Step)
    requires Inv(s) && Enabled(s, step) && (step.Snapshot? || step.Unregister?)
    ensures Inv(Do(s, step))
  {
    var next := Do(s, step);
    forall y | y in next.members
      ensures MemberInv(next, y)
    {
      OthersKeepInv(s, next, y);
    }
  }

  lemma StepKeepsInv(s: Sys, step: Step)
    requires Inv(s) && Enabled(s, step)
    ensures Inv(Do(s, step))
  {
    match step
    case Commit(ev) => CommitKeepsInv(s, ev);
    case OfferTo(k, x) => OfferKeepsInv(s, k, x);
    case OfferPresence(x, ev) => CallKeepsInv(s, x, Offered(ev));
    case Call(x, op) => CallKeepsInv(s, x, op);
    case Subscribe(x, filter) => SubscribeKeepsInv(s, x, filter);
    case ReadHistory(x, t) => ReadKeepsInv(s, x, t);
    case _ => RegistryKeepsInv(s, step);
  }

  lemma {:induction false} InvAlways(steps: seq<Step>)
    ensures Inv(Run(steps))
  {
    if steps != [] {
      var s := Run(steps[..|steps| - 1]);
      InvAlways(steps[..|steps| - 1]);
      if Enabled(s, steps[|steps| - 1]) {
        StepKeepsInv(s, steps[|steps| - 1]);
      }
    }
  }

  // ---------- No loss ----------

  /** The reader has the event, or will have it, or is to be told, or was told, of a lag that goes
      back to it. */
  ghost predicate Reached(m: Member, k: nat, ev: Event) {
    var l := m.Life();
    || (k < m.rowsRead && ev.seqNo <= m.history)
    || ev in l.sub.buffer
    || ev in l.Output()
    || (ev in EventsOf(m.ops, l.fates, Refused) && l.sub.laggedAt <= ev.seqNo)
    || exists i :: 0 <= i < |m.ops| && m.ops[i] == Offered(ev) && ToldOf(m.filter, m.ops, i)
  }

  /** Its offer found no room in a lag that a higher sequence began. */
  ghost predicate Undercut(m: Member, ev: Event) {
    exists i :: 0 <= i < |m.ops| && m.ops[i] == Offered(ev) && RefusedAt(m.filter, m.ops, i) && Undercuts(m.filter, m.ops, i)
  }

  /** A replay that has ended without passing ev on ended at or past its sequence. */
  lemma {:induction false} EndedPast(filter: Filter, ops: seq<Op>, i: nat, n: nat)
    requires i <= n <= |ops| && i < |ops| && ops[i].Offered?
    requires ControlAfter(filter, ops[..i]).replaying && !ControlAfter(filter, ops[..n]).replaying
    requires ControlAfter(filter, ops).Takes(ops[i].ev.device) && !Handed(filter, ops, i)
    ensures exists j :: i < j < n && ops[j].ReplayEnded? && ops[i].ev.seqNo <= ops[j].throughSeq
    decreases n
  {
    assert ops[..n][..n - 1] == ops[..n - 1];
    if ControlAfter(filter, ops[..n - 1]).replaying {
      assert ops[..n - 1] + ops[n - 1..] == ops;
      TakesOnlyShrinks(filter, ops[..n - 1], ops[n - 1..], ops[i].ev.device);
      assert ops[n - 1].ReplayEnded? && n - 1 > i;
      assert !HandsOver(filter, ops, n - 1, ops[i].ev);
    } else {
      EndedPast(filter, ops, i, n - 1);
    }
  }

  /** Of an event still allowed, no fate but these is left. */
  lemma FateOfAllowed(filter: Filter, ops: seq<Op>, i: nat)
    requires i < |ops| && ops[i].Offered? && !ops[i].ev.ephemeral
    requires Live(filter, ops).sub.Takes(ops[i].ev.device)
    ensures Live(filter, ops).fates[i] in {Held, Queued, Refused, Cleared, Covered, Removed}
    ensures Live(filter, ops).fates[i] in {Covered, Removed} ==>
      exists j :: i < j < |ops| && ops[j].ReplayEnded? && ops[i].ev.seqNo <= ops[j].throughSeq
  {
    FateIsJudged(filter, ops, i);
    LiveControl(filter, ops);
    assert ops[..i] + ops[i..] == ops;
    TakesOnlyShrinks(filter, ops[..i], ops[i..], ops[i].ev.device);
    if Live(filter, ops).fates[i] in {Covered, Removed} {
      assert ops[..|ops|] == ops;
      EndedPast(filter, ops, i, |ops|);
    }
  }

  /** An event offered once has the one fate. */
  lemma OnlyFate(m: Member, i: nat, fate: Fate)
    requires i < |m.ops| && m.ops[i].Offered? && !m.ops[i].ev.ephemeral && OfferedOnce(m.ops)
    ensures m.ops[i].ev in EventsOf(m.ops, m.Life().fates, fate) <==> m.Life().fates[i] == fate
  {
    EventsOfOffered(m.ops, m.Life().fates, fate);
    if m.Life().fates[i] == fate {
      EventsOfMember(m.ops, m.Life().fates, fate, i);
    }
  }

  lemma OnlyOffer(m: Member, i: nat)
    requires i < |m.ops| && m.ops[i].Offered? && !m.ops[i].ev.ephemeral && OfferedOnce(m.ops)
    ensures Undercut(m, m.ops[i].ev) <==> RefusedAt(m.filter, m.ops, i) && Undercuts(m.filter, m.ops, i)
    ensures (exists j :: 0 <= j < |m.ops| && m.ops[j] == Offered(m.ops[i].ev) && ToldOf(m.filter, m.ops, j)) <==> ToldOf(m.filter, m.ops, i)
  {
  }

  /** A refused event is covered by the marker of its lag exactly when it does not undercut it. */
  lemma RefusedReachedIff(m: Member, i: nat)
    requires i < |m.ops| && m.ops[i].Offered? && ReadsFirst(m.filter, m.ops) && RefusedAt(m.filter, m.ops, i)
    ensures var l := m.Life();
      !Undercuts(m.filter, m.ops, i) <==>
        (l.fates[i] == Refused && l.sub.laggedAt <= m.ops[i].ev.seqNo) || ToldOf(m.filter, m.ops, i)
  {
    RefusedUntilCleared(m.filter, m.ops, i);
    ToldIff(m.filter, m.ops, i);
    if NoClearing(m.ops, i, |m.ops|) {
      MarkerCoversIff(m.filter, m.ops, i, |m.ops|);
      assert m.ops[..|m.ops|] == m.ops;
    }
  }

  /** What the fate of a wanted event, not read from history, says of its reaching the reader. */
  lemma UnreadReachedIff(m: Member, i: nat, k: nat)
    requires i < |m.ops| && m.ops[i].Offered? && !m.ops[i].ev.ephemeral && OfferedOnce(m.ops) && ReadsFirst(m.filter, m.ops)
    requires m.Life().sub.Takes(m.ops[i].ev.device) && m.history < m.ops[i].ev.seqNo
    requires forall j :: 0 <= j < |m.ops| && m.ops[j].ReplayEnded? ==> m.ops[j].throughSeq <= m.history
    ensures Reached(m, k, m.ops[i].ev) <==> !Undercut(m, m.ops[i].ev)
  {
    FateOfAllowed(m.filter, m.ops, i);
    NothingLost(m.filter, m.ops);
    OnlyFate(m, i, Held);
    OnlyFate(m, i, Queued);
    OnlyFate(m, i, Refused);
    OnlyOffer(m, i);
    RefusedFates(m.filter, m.ops, i);
    if RefusedAt(m.filter, m.ops, i) {
      RefusedReachedIff(m, i);
    }
  }

  /** No loss, exactly. At any moment of any schedule, take a subscription that still delivers an
      event's device and has no offer of that event pending. The event has reached it if and only if
      the history read goes as far, or its publisher found the subscription registered and it was not
      refused in a lag that a higher sequence began. */
  lemma {:induction false} NoLoss(steps: seq<Step>, x: SubId, k: nat)
    requires var s := Run(steps);
      && x in s.registered && x in s.members && k < |s.log| && k in s.publishing && x !in s.publishing[k]
      && s.members[x].Life().sub.Takes(s.log[k].device)
    ensures var s := Run(steps);
      var m := s.members[x];
      Reached(m, k, s.log[k]) <==> s.log[k].seqNo <= m.history || (k !in m.prior && !Undercut(m, s.log[k]))
  {
    var s := Run(steps);
    InvAlways(steps);
    assert MemberInv(s, x) && ReaderInv(s, x) && OfferInv(s, x);
    var m, ev := s.members[x], s.log[k];
    if ev.seqNo <= m.history {
      assert k < m.rowsRead;
    } else if k !in m.prior {
      assert WasOffered(m, ev);
      var i :| 0 <= i < |m.ops| && m.ops[i] == Offered(ev);
      UnreadReachedIff(m, i, k);
    } else {
      NeverOffered(m, ev);
    }
  }

  lemma NeverOffered(m: Member, ev: Event)
    requires !WasOffered(m, ev)
    ensures ev !in m.Life().sub.buffer && ev !in m.Life().Output() && ev !in EventsOf(m.ops, m.Life().fates, Refused)
  {
    NothingLost(m.filter, m.ops);
    forall fate | ev in EventsOf(m.ops, m.Life().fates, fate)
      ensures false
    {
      EventsOfOffered(m.ops, m.Life().fates, fate);
    }
  }

  /** The reader's order of work is enough: a history read as far as the log stood when the
      subscription registered leaves no gap, but for refusals that undercut their lag. */
  lemma {:induction false} ReplayLeavesNoGap(steps: seq<Step>, x: SubId, k: nat)
    requires var s := Run(steps);
      && x in s.registered && x in s.members && k < |s.log| && k in s.publishing && x !in s.publishing[k]
      && s.members[x].Life().sub.Takes(s.log[k].device)
      && s.members[x].bornAt <= |s.log|
      && LastSeq(s.log[..s.members[x].bornAt]) <= s.members[x].history
    ensures var s := Run(steps);
      Reached(s.members[x], k, s.log[k]) || (s.members[x].history < s.log[k].seqNo && Undercut(s.members[x], s.log[k]))
  {
    var s := Run(steps);
    InvAlways(steps);
    assert MemberInv(s, x);
    NoLoss(steps, x, k);
    var m := s.members[x];
    if k in m.prior {
      assert s.log[..m.bornAt][|s.log[..m.bornAt]| - 1] == s.log[m.bornAt - 1];
      assert k == m.bornAt - 1 || s.log[k].seqNo < s.log[m.bornAt - 1].seqNo;
    }
  }

  /** And nothing undercuts a lag whose offers come in sequence order. */
  lemma InOrderNeverUndercut(m: Member, ev: Event)
    requires InOrder(m.ops)
    ensures !Undercut(m, ev)
  {
    forall i | 0 <= i < |m.ops| && m.ops[i] == Offered(ev) && RefusedAt(m.filter, m.ops, i)
      ensures !Undercuts(m.filter, m.ops, i)
    {
      LagStartsThere(m.filter, m.ops[..i]);
      var start := LagStart(m.filter, m.ops[..i]);
      if start.Some? {
        assert m.ops[..i][start.value] == m.ops[start.value] && !m.ops[start.value].ev.ephemeral;
      }
    }
  }

  /** The order matters: a replay ended at 0 because its history could not be read loses an event
      published before the subscription registered. */
  lemma UnreadHistoryIsLost()
    ensures var ev := Event(1, 5, false);
      var s := Run([Commit(ev), Snapshot(0), Subscribe(7, Filter({1}, false)), Call(7, ReplayEnded(0))]);
      && 7 in s.registered && 7 in s.members && s.log == [ev] && 0 in s.publishing && 7 !in s.publishing[0]
      && s.members[7].Life().sub.Takes(ev.device)
      && !Reached(s.members[7], 0, ev)
  {
    var ev := Event(1, 5, false);
    var a, b, c, d := Commit(ev), Snapshot(0), Subscribe(7, Filter({1}, false)), Call(7, ReplayEnded(0));
    assert [a, b, c, d][..3] == [a, b, c] && [a, b, c][..2] == [a, b] && [a, b][..1] == [a] && [a][..0] == [];
    assert Run([a]) == Sys([ev], map[], map[], {});
    assert Run([a, b]) == Sys([ev], map[0 := {}], map[], {});
    var m := Member(Filter({1}, false), [], {0}, 1, 0, 0);
    var nobody: set<SubId> := {};
    assert map[0 := nobody].Keys == {0};
    assert Run([a, b, c]) == Sys([ev], map[0 := {}], map[7 := m], {7});
    assert Run([a, b, c, d]).members[7] == m.(ops := [] + [ReplayEnded(0)]);
    LiveStep(m.filter, [], ReplayEnded(0));
    NoLoss([a, b, c, d], 7, 0);
  }

  /** Nothing committed is ever queued twice: an event is offered to a subscription at most once. */
  lemma OfferedAtMostOnce(steps: seq<Step>, x: SubId, i: nat, j: nat)
    requires x in Run(steps).members
    requires i < j < |Run(steps).members[x].ops| && Run(steps).members[x].ops[i].Offered?
    requires Run(steps).members[x].ops[i] == Run(steps).members[x].ops[j]
    ensures Run(steps).members[x].ops[i].ev.ephemeral
  {
    InvAlways(steps);
    assert MemberInv(Run(steps), x);
  }

  // ---------- Two publishers that overtake each other ----------

  lemma RunOne(steps: seq<Step>, step: Step)
    requires Enabled(Run(steps), step)
    ensures Run(steps + [step]) == Do(Run(steps), step)
  {
    assert (steps + [step])[..|steps|] == steps;
  }

  const EVERYTHING: Filter := Filter({}, true)

  function EventAt(k: nat): Event {
    Event(0, k + 1, false)
  }

  function Publishing(n: nat): (r: map<nat, set<SubId>>)
    ensures forall k: nat :: k in r <==> k < n
  {
    if n == 0 then map[] else Publishing(n - 1)[n - 1 := {}]
  }

  /** The state once subscriber 7 has been offered the first n events, and has read none. */
  function Filled(n: nat): Sys {
    Sys(BurstEvents(n), Publishing(n), map[7 := Member(EVERYTHING, Burst(n), {}, 0, 0, 0)], {7})
  }

  function Filling(n: nat): seq<Step> {
    if n == 0 then [Subscribe(7, EVERYTHING)]
    else Filling(n - 1) + [Commit(EventAt(n - 1))] + [Snapshot(n - 1)] + [OfferTo(n - 1, 7)]
  }

  lemma {:induction false} FillingFills(n: nat)
    ensures Run(Filling(n)) == Filled(n)
  {
    if n == 0 {
      RunOne([], Subscribe(7, EVERYTHING));
      assert [] + [Subscribe(7, EVERYTHING)] == [Subscribe(7, EVERYTHING)];
      assert Run([]) == INIT && INIT.publishing.Keys == {};
      assert Run(Filling(0)) == Filled(0);
    } else {
      FillingFills(n - 1);
      FillOne(Filling(n - 1), n - 1);
    }
  }

  lemma FillOne(steps: seq<Step>, n: nat)
    requires Run(steps) == Filled(n)
    ensures Run(steps + [Commit(EventAt(n))] + [Snapshot(n)] + [OfferTo(n, 7)]) == Filled(n + 1)
  {
    RunOne(steps, Commit(EventAt(n)));
    RunOne(steps + [Commit(EventAt(n))], Snapshot(n));
    var s := Run(steps + [Commit(EventAt(n))] + [Snapshot(n)]);
    RunOne(steps + [Commit(EventAt(n))] + [Snapshot(n)], OfferTo(n, 7));
    assert BurstEvents(n + 1) == BurstEvents(n) + [EventAt(n)] && s.log == BurstEvents(n + 1);
    assert (BurstEvents(n) + [EventAt(n)])[n] == EventAt(n);
    var seven: set<SubId> := {7};
    assert s.publishing == Publishing(n)[n := seven] && seven - {7} == {};
    assert Publishing(n)[n := seven][n := seven - {7}] == Publishing(n)[n := {}];
    assert Publishing(n + 1) == Publishing(n)[n := {}];
  }

  /** The publishers of 513 and 514 have both found the subscriber; the second makes its offer first. */
  lemma Overtaken(steps: seq<Step>, n: nat)
    requires Run(steps) == Filled(n)
    ensures var next := Run(steps + [Commit(EventAt(n))] + [Commit(EventAt(n + 1))] + [Snapshot(n)] + [Snapshot(n + 1)]
                            + [OfferTo(n + 1, 7)] + [OfferTo(n, 7)]);
      7 in next.members
      && next.members[7] == Member(EVERYTHING, Burst(n) + [Offered(EventAt(n + 1))] + [Offered(EventAt(n))], {}, 0, 0, 0)
  {
    var a := steps + [Commit(EventAt(n))] + [Commit(EventAt(n + 1))];
    RunOne(steps, Commit(EventAt(n)));
    RunOne(steps + [Commit(EventAt(n))], Commit(EventAt(n + 1)));
    assert Run(a) == Filled(n).(log := BurstEvents(n) + [EventAt(n)] + [EventAt(n + 1)]);
    OvertakenAfterCommits(a, n);
  }

  lemma OvertakenAfterCommits(steps: seq<Step>, n: nat)
    requires Run(steps) == Filled(n).(log := BurstEvents(n) + [EventAt(n)] + [EventAt(n + 1)])
    ensures var next := Run(steps + [Snapshot(n)] + [Snapshot(n + 1)] + [OfferTo(n + 1, 7)] + [OfferTo(n, 7)]);
      7 in next.members
      && next.members[7] == Member(EVERYTHING, Burst(n) + [Offered(EventAt(n + 1))] + [Offered(EventAt(n))], {}, 0, 0, 0)
  {
    RunOne(steps, Snapshot(n));
    RunOne(steps + [Snapshot(n)], Snapshot(n + 1));
    var b := steps + [Snapshot(n)] + [Snapshot(n + 1)];
    RunOne(b, OfferTo(n + 1, 7));
    RunOne(b + [OfferTo(n + 1, 7)], OfferTo(n, 7));
  }

  /** A run in which the client will be told to resume from 514 and has missed 513. */
  lemma OvertakingSkipsAMissedEvent()
    ensures var n := QUEUE_DEPTH;
      var s := Run(Filling(n) + [Commit(EventAt(n))] + [Commit(EventAt(n + 1))] + [Snapshot(n)] + [Snapshot(n + 1)]
                   + [OfferTo(n + 1, 7)] + [OfferTo(n, 7)]);
      && 7 in s.members
      && var m := s.members[7];
      && m.Life().sub.lagged && m.Life().sub.laggedAt == n + 2
      && EventAt(n) in Missed(m.filter, m.ops) && EventAt(n).seqNo == n + 1
  {
    FillingFills(QUEUE_DEPTH);
    Overtaken(Filling(QUEUE_DEPTH), QUEUE_DEPTH);
    MarkerCanSkipAMissedEvent();
  }
}
