/** What every interleaving of the call service keeps. */
module CallSafety {
  import opened Wrappers
  import opened CallService

  // ---------- The invariant, part by part ----------

  ghost predicate Answering(th: Thread, r: RecId) {
    (th.AnswerWaiting? || th.AnswerHolding?) && th.r == r
  }

  ghost predicate Holds(th: Thread, r: RecId) {
    (th.AnswerHolding? || th.Other?) && th.r == r
  }

  /** A record by itself. */
  ghost predicate LocalInv(rec: Rec) {
    && (rec.incoming ==> rec.call.Some? && !rec.pending)
    && (!rec.incoming ==> rec.owner.Some?)
    && (rec.id.Some? || rec.peerAccepted ==> rec.call.Some?)
    && (rec.pending ==> rec.call.None?)
    && (rec.phase == Connecting || rec.phase == Active ==> Agreed(rec))
    && (rec.phase == Active ==> rec.mediaActive)
    && (rec.audioDue || rec.audioEnabled ==> if rec.incoming then rec.answered else rec.peerAccepted)
    && rec.bound <= 1
  }

  ghost predicate RecsInv(recs: map<RecId, Rec>, active: map<DevId, RecId>, threads: map<Tid, Thread>) {
    forall r :: r in recs ==>
      && LocalInv(recs[r])
      && (recs[r].pending || (recs[r].phase != Ended && recs[r].call.Some?) ==> recs[r].dev in active && active[recs[r].dev] == r)
      && (recs[r].op.Some? ==> recs[r].op.value in threads && Holds(threads[recs[r].op.value], r))
  }

  /** A reservation is held for a live call, or for one that Start has not returned from. */
  ghost predicate ActiveInv(active: map<DevId, RecId>, recs: map<RecId, Rec>) {
    forall d :: d in active ==>
      active[d] in recs && recs[active[d]].dev == d && (recs[active[d]].phase != Ended || recs[active[d]].pending)
  }

  ghost predicate TicketInv(
    tickets: map<Token, Ticket>, issued: set<Token>, consumed: set<Token>, owners: set<Owner>, recs: map<RecId, Rec>)
  {
    && (forall k :: k in tickets ==>
          && k in issued && k !in consumed && tickets[k].owner in owners
          && tickets[k].r in recs && recs[tickets[k].r].phase != Ended && recs[tickets[k].r].owner == Some(tickets[k].owner))
    && (forall k, l :: k in tickets && l in tickets && tickets[k].r == tickets[l].r ==> k == l)
    && consumed <= issued
  }

  /** A native call is one record's, or nobody's. */
  ghost predicate CallInv(recs: map<RecId, Rec>, threads: map<Tid, Thread>, trace: map<Native, seq<Signal>>) {
    && (forall r :: r in recs && recs[r].call.Some? ==> recs[r].call.value in trace)
    && (forall r, q :: r in recs && q in recs && recs[r].call.Some? && recs[r].call == recs[q].call ==> r == q)
    && (forall t :: t in threads && threads[t].Orphan? ==>
          threads[t].c in trace && trace[threads[t].c] == [] && threads[t].signal != AnswerSent)
    && (forall t, r :: t in threads && threads[t].Orphan? && r in recs ==> recs[r].call != Some(threads[t].c))
  }

  /** Everything the service may ever tell the engine about one call. */
  ghost predicate Orderly(trace: seq<Signal>) {
    trace == [] || trace == [AnswerSent] || trace == [RejectSent] || trace == [HangupSent] || trace == [AnswerSent, HangupSent]
  }

  /** The signals sent for a record, against the goroutines that still have one to send. */
  ghost predicate Signals(r: RecId, rec: Rec, trace: seq<Signal>, threads: map<Tid, Thread>) {
    && (rec.phase != Ended ==> trace == [] || trace == [AnswerSent])
    && (rec.phase == Ringing || !rec.incoming ==> AnswerSent !in trace)
    && (forall t :: t in threads && Answering(threads[t], r) ==> trace == [] || trace == [HangupSent])
    && (forall t :: t in threads && threads[t].AnswerHolding? && threads[t].r == r ==> trace == [])
    && (forall t :: t in threads && threads[t] == Signalling(r, false) ==> trace == [] || trace == [AnswerSent])
    && (forall t :: t in threads && threads[t] == Signalling(r, true) ==> trace == [])
  }

  ghost predicate SignalInv(recs: map<RecId, Rec>, threads: map<Tid, Thread>, trace: map<Native, seq<Signal>>) {
    && (forall c :: c in trace ==> Orderly(trace[c]))
    && (forall r :: r in recs && recs[r].call.Some? && recs[r].call.value in trace ==>
          Signals(r, recs[r], trace[recs[r].call.value], threads))
  }

  ghost predicate ThreadInv(t: Tid, th: Thread, recs: map<RecId, Rec>) {
    match th
    case Starting(r, owner) => r in recs && recs[r].pending && recs[r].owner == Some(owner)
    case AnswerWaiting(r, _) => r in recs && recs[r].incoming && recs[r].phase != Ringing
    case AnswerHolding(r, _) => r in recs && recs[r].incoming && recs[r].phase != Ringing && recs[r].op == Some(t)
    case Other(r) => r in recs && recs[r].op == Some(t)
    case Signalling(r, _) => r in recs && recs[r].phase == Ended && recs[r].call.Some?
    case Orphan(_, _) => true
    case Binding(r) => r in recs
    case Owing(r, _) => r in recs
    case Releasing(todo) => todo <= recs.Keys
  }

  ghost predicate Rivals(a: Thread, b: Thread) {
    || (a.Starting? && b.Starting? && a.r == b.r)
    || ((a.AnswerWaiting? || a.AnswerHolding?) && (Answering(b, a.r) || b == Signalling(a.r, true)))
    || (a.Signalling? && b.Signalling? && a.r == b.r)
    || (a.Orphan? && b.Orphan? && a.c == b.c)
  }

  ghost predicate ThreadsInv(threads: map<Tid, Thread>, recs: map<RecId, Rec>) {
    && (forall t :: t in threads ==> ThreadInv(t, threads[t], recs))
    && (forall t, u :: t in threads && u in threads && t != u ==> !Rivals(threads[t], threads[u]))
  }

  /** Bound first, so that it is proved as the one fact it is. */
  ghost predicate Inv(s: Sys) {
    var all :=
      && RecsInv(s.recs, s.active, s.threads)
      && ActiveInv(s.active, s.recs)
      && TicketInv(s.tickets, s.issued, s.consumed, s.owners, s.recs)
      && CallInv(s.recs, s.threads, s.trace)
      && SignalInv(s.recs, s.threads, s.trace)
      && ThreadsInv(s.threads, s.recs);
    all
  }

  // ---------- Small changes that keep it ----------

  /** A record changed in place, neither ended by it nor called or reserved otherwise. */
  ghost predicate Alike(rec: Rec, next: Rec) {
    && next.dev == rec.dev && next.call == rec.call && next.incoming == rec.incoming && next.id == rec.id
    && next.pending == rec.pending
    && (next.phase == Ended <==> rec.phase == Ended)
    && (next.phase == Ringing ==> rec.phase == Ringing)
    && (rec.owner.Some? ==> next.owner == rec.owner)
  }

  /** Nor locked otherwise. */
  ghost predicate InPlace(rec: Rec, next: Rec) {
    Alike(rec, next) && next.op == rec.op
  }

  lemma ChangeInRecs(recs: map<RecId, Rec>, active: map<DevId, RecId>, threads: map<Tid, Thread>, r: RecId, next: Rec)
    requires RecsInv(recs, active, threads) && r in recs && InPlace(recs[r], next) && LocalInv(next)
    ensures RecsInv(recs[r := next], active, threads)
  {
  }

  lemma ChangeInActive(active: map<DevId, RecId>, recs: map<RecId, Rec>, r: RecId, next: Rec)
    requires ActiveInv(active, recs) && r in recs && Alike(recs[r], next)
    ensures ActiveInv(active, recs[r := next])
  {
  }

  lemma ChangeInTickets(s: Sys, r: RecId, next: Rec)
    requires TicketInv(s.tickets, s.issued, s.consumed, s.owners, s.recs) && r in s.recs && Alike(s.recs[r], next)
    ensures TicketInv(s.tickets, s.issued, s.consumed, s.owners, s.recs[r := next])
  {
  }

  lemma ChangeInCalls(recs: map<RecId, Rec>, threads: map<Tid, Thread>, trace: map<Native, seq<Signal>>, r: RecId, next: Rec)
    requires CallInv(recs, threads, trace) && r in recs && next.call == recs[r].call
    ensures CallInv(recs[r := next], threads, trace)
  {
  }

  lemma ChangeInSignals(recs: map<RecId, Rec>, threads: map<Tid, Thread>, trace: map<Native, seq<Signal>>, r: RecId, next: Rec)
    requires SignalInv(recs, threads, trace) && r in recs && InPlace(recs[r], next)
    ensures SignalInv(recs[r := next], threads, trace)
  {
    var after := recs[r := next];
    forall q | q in after && after[q].call.Some? && after[q].call.value in trace
      ensures Signals(q, after[q], trace[after[q].call.value], threads)
    {
      assert Signals(q, recs[q], trace[recs[q].call.value], threads);
    }
  }

  lemma ChangeInThreads(threads: map<Tid, Thread>, recs: map<RecId, Rec>, r: RecId, next: Rec)
    requires ThreadsInv(threads, recs) && r in recs && InPlace(recs[r], next)
    ensures ThreadsInv(threads, recs[r := next])
  {
    forall t | t in threads
      ensures ThreadInv(t, threads[t], recs[r := next])
    {
      assert ThreadInv(t, threads[t], recs);
    }
  }

  lemma ChangeRec(s: Sys, r: RecId, next: Rec)
    requires Inv(s) && r in s.recs && InPlace(s.recs[r], next) && LocalInv(next)
    ensures Inv(s.With(r, next))
  {
    ChangeInRecs(s.recs, s.active, s.threads, r, next);
    ChangeInActive(s.active, s.recs, r, next);
    ChangeInTickets(s, r, next);
    ChangeInCalls(s.recs, s.threads, s.trace, r, next);
    ChangeInSignals(s.recs, s.threads, s.trace, r, next);
    ChangeInThreads(s.threads, s.recs, r, next);
  }

  /** Goroutines that came or went, none of them with an orphaned call. */
  lemma OtherThreadsInCalls(recs: map<RecId, Rec>, threads: map<Tid, Thread>, after: map<Tid, Thread>, trace: map<Native, seq<Signal>>)
    requires CallInv(recs, threads, trace)
    requires forall t :: t in after && after[t].Orphan? ==> t in threads && threads[t] == after[t]
    ensures CallInv(recs, after, trace)
  {
  }

  lemma RemoveThread(s: Sys, t: Tid)
    requires Inv(s) && t in s.threads && !s.threads[t].AnswerHolding? && !s.threads[t].Other?
    ensures Inv(s.(threads := s.threads - {t}))
  {
    var threads := s.threads - {t};
    assert RecsInv(s.recs, s.active, threads);
    assert SignalInv(s.recs, threads, s.trace);
  }

  /** What a new thread needs of the record, the call and the other threads. */
  ghost predicate Welcome(s: Sys, t: Tid, th: Thread) {
    && t !in s.threads
    && ThreadInv(t, th, s.recs)
    && !th.AnswerHolding? && !th.Other?
    && (forall u :: u in s.threads ==> !Rivals(th, s.threads[u]) && !Rivals(s.threads[u], th))
    && match th
       case AnswerWaiting(r, _) => s.recs[r].call.Some? && s.recs[r].call.value in s.trace && s.trace[s.recs[r].call.value] == []
       case Signalling(r, reject) => s.recs[r].call.value in s.trace && s.trace[s.recs[r].call.value] in {[], [AnswerSent]}
           && (reject ==> s.trace[s.recs[r].call.value] == [])
       case Orphan(c, signal) => c in s.trace && s.trace[c] == [] && signal != AnswerSent
           && forall r :: r in s.recs ==> s.recs[r].call != Some(c)
       case _ => true
  }

  lemma AddToSignals(s: Sys, t: Tid, th: Thread)
    requires SignalInv(s.recs, s.threads, s.trace) && Welcome(s, t, th)
    ensures SignalInv(s.recs, s.threads[t := th], s.trace)
  {
    var threads := s.threads[t := th];
    forall r | r in s.recs && s.recs[r].call.Some? && s.recs[r].call.value in s.trace
      ensures Signals(r, s.recs[r], s.trace[s.recs[r].call.value], threads)
    {
      assert Signals(r, s.recs[r], s.trace[s.recs[r].call.value], s.threads);
    }
  }

  lemma AddToCalls(s: Sys, t: Tid, th: Thread)
    requires CallInv(s.recs, s.threads, s.trace) && Welcome(s, t, th)
    ensures CallInv(s.recs, s.threads[t := th], s.trace)
  {
  }

  lemma AddToThreads(s: Sys, t: Tid, th: Thread)
    requires ThreadsInv(s.threads, s.recs) && Welcome(s, t, th)
    ensures ThreadsInv(s.threads[t := th], s.recs)
  {
  }

  lemma AddThread(s: Sys, t: Tid, th: Thread)
    requires Inv(s) && Welcome(s, t, th)
    ensures Inv(s.(threads := s.threads[t := th]))
  {
    assert RecsInv(s.recs, s.active, s.threads[t := th]);
    AddToSignals(s, t, th);
    AddToCalls(s, t, th);
    AddToThreads(s, t, th);
  }

  /** A signal sent for a record by nobody whose turn it still is. */
  lemma SendFor(s: Sys, r: RecId, signal: Signal)
    requires Inv(s) && r in s.recs && s.recs[r].call.Some? && s.recs[r].call.value in s.trace
    requires var trace := s.trace[s.recs[r].call.value] + [signal];
      Orderly(trace) && Signals(r, s.recs[r], trace, s.threads)
    ensures Inv(s.Sent(s.recs[r].call.value, signal))
  {
    var next := s.Sent(s.recs[r].call.value, signal);
    assert CallInv(s.recs, s.threads, next.trace);
    assert SignalInv(s.recs, s.threads, next.trace) by {
      forall q | q in s.recs && s.recs[q].call.Some? && s.recs[q].call.value in next.trace
        ensures Signals(q, s.recs[q], next.trace[s.recs[q].call.value], s.threads)
      {
        assert Signals(q, s.recs[q], s.trace[s.recs[q].call.value], s.threads);
      }
    }
  }

  lemma NewCall(s: Sys, c: Native)
    requires Inv(s) && c !in s.trace
    ensures Inv(s.(trace := s.trace[c := []]))
  {
    var trace := s.trace[c := []];
    assert CallInv(s.recs, s.threads, trace);
    assert SignalInv(s.recs, s.threads, trace);
  }

  /** A record's call is nobody else's. */
  ghost predicate OwnCall(s: Sys, call: Option<Native>) {
    call.Some? ==>
      && call.value in s.trace && s.trace[call.value] == []
      && (forall q :: q in s.recs ==> s.recs[q].call != call)
      && (forall t :: t in s.threads && s.threads[t].Orphan? ==> Some(s.threads[t].c) != call)
  }

  lemma AddToCallsAndSignals(s: Sys, r: RecId, rec: Rec)
    requires CallInv(s.recs, s.threads, s.trace) && SignalInv(s.recs, s.threads, s.trace) && ThreadsInv(s.threads, s.recs)
    requires r !in s.recs && rec.phase == Ringing && OwnCall(s, rec.call)
    ensures CallInv(s.recs[r := rec], s.threads, s.trace) && SignalInv(s.recs[r := rec], s.threads, s.trace)
  {
    var recs := s.recs[r := rec];
    assert forall t :: t in s.threads ==> ThreadInv(t, s.threads[t], s.recs);
    forall q | q in recs && recs[q].call.Some? && recs[q].call.value in s.trace
      ensures Signals(q, recs[q], s.trace[recs[q].call.value], s.threads)
    {
      if q != r {
        assert Signals(q, s.recs[q], s.trace[s.recs[q].call.value], s.threads);
      }
    }
  }

  lemma AddUnderThreads(threads: map<Tid, Thread>, recs: map<RecId, Rec>, r: RecId, rec: Rec)
    requires ThreadsInv(threads, recs) && r !in recs
    ensures ThreadsInv(threads, recs[r := rec])
  {
    forall t | t in threads
      ensures ThreadInv(t, threads[t], recs[r := rec])
    {
      assert ThreadInv(t, threads[t], recs);
    }
  }

  lemma AddRec(s: Sys, r: RecId, rec: Rec)
    requires Inv(s) && r !in s.recs && rec.dev !in s.active && LocalInv(rec) && rec.phase == Ringing && rec.op.None?
    requires OwnCall(s, rec.call)
    ensures Inv(s.(recs := s.recs[r := rec], active := s.active[rec.dev := r], listed := s.listed + {r}))
  {
    var recs, active := s.recs[r := rec], s.active[rec.dev := r];
    assert RecsInv(recs, active, s.threads);
    assert ActiveInv(active, recs);
    assert TicketInv(s.tickets, s.issued, s.consumed, s.owners, recs);
    AddToCallsAndSignals(s, r, rec);
    AddUnderThreads(s.threads, s.recs, r, rec);
  }

  lemma FewerTickets(s: Sys, tickets: map<Token, Ticket>)
    requires Inv(s) && tickets.Keys <= s.tickets.Keys && forall k :: k in tickets ==> tickets[k] == s.tickets[k]
    ensures Inv(s.(tickets := tickets))
  {
    assert TicketInv(tickets, s.issued, s.consumed, s.owners, s.recs);
  }

  // ---------- The steps ----------

  lemma ReleaseTickets(s: Sys, owner: Owner)
    requires TicketInv(s.tickets, s.issued, s.consumed, s.owners, s.recs)
    ensures TicketInv(WithoutTickets(s.tickets, (ticket: Ticket) => ticket.owner == owner), s.issued, s.consumed, s.owners - {owner}, s.recs)
  {
  }

  /** A thread that owes an end, or several, is welcome. */
  lemma DebtorIsWelcome(s: Sys, t: Tid, th: Thread)
    requires t !in s.threads && if th.Owing? then th.r in s.recs else th.Releasing? && th.todo <= s.recs.Keys
    ensures Welcome(s, t, th)
  {
  }

  lemma AddDebtor(s: Sys, t: Tid, th: Thread)
    requires Inv(s) && t !in s.threads && if th.Owing? then th.r in s.recs else th.Releasing? && th.todo <= s.recs.Keys
    ensures Inv(s.(threads := s.threads[t := th]))
  {
    DebtorIsWelcome(s, t, th);
    AddThread(s, t, th);
  }

  lemma ReleaseKeepsInv(s: Sys, t: Tid, owner: Owner)
    requires Inv(s) && t !in s.threads
    ensures Inv(Release(s, t, owner))
  {
    var gone := s.(owners := s.owners - {owner}, tickets := WithoutTickets(s.tickets, (ticket: Ticket) => ticket.owner == owner));
    ReleaseTickets(s, owner);
    assert Inv(gone);
    AddDebtor(gone, t, Releasing(Owned(s, owner)));
  }

  lemma ReplaceReleasing(s: Sys, t: Tid, todo: set<RecId>)
    requires Inv(s) && t in s.threads && s.threads[t].Releasing? && todo <= s.threads[t].todo
    ensures Inv(s.(threads := s.threads[t := Releasing(todo)]))
  {
    assert ThreadInv(t, s.threads[t], s.recs);
    RemoveThread(s, t);
    var gone := s.(threads := s.threads - {t});
    AddDebtor(gone, t, Releasing(todo));
    assert (s.threads - {t})[t := Releasing(todo)] == s.threads[t := Releasing(todo)];
  }

  lemma ReleaseNextKeepsInv(s: Sys, t: Tid, u: Tid, r: RecId)
    requires Inv(s) && t in s.threads && s.threads[t].Releasing? && u !in s.threads
    ensures Inv(ReleaseOne(s, t, u, r))
  {
    var todo := s.threads[t].todo;
    if todo == {} {
      RemoveThread(s, t);
    } else if r in todo && r in s.recs {
      ReplaceReleasing(s, t, todo - {r});
      EndKeepsInv(s.(threads := s.threads[t := Releasing(todo - {r})]), u, r, true);
    }
  }

  lemma EndOwedKeepsInv(s: Sys, t: Tid, u: Tid)
    requires Inv(s) && t in s.threads && s.threads[t].Owing? && s.threads[t].r in s.recs && u !in s.threads
    ensures Inv(EndCall(s.(threads := s.threads - {t}), u, s.threads[t].r, s.threads[t].tell))
  {
    RemoveThread(s, t);
    EndKeepsInv(s.(threads := s.threads - {t}), u, s.threads[t].r, s.threads[t].tell);
  }

  lemma DetachKeepsInv(s: Sys, t: Tid, d: DevId)
    requires Inv(s) && t !in s.threads
    ensures Inv(DetachDevice(s, t, d))
  {
    var gone := if s.Attached(d) then s.(devices := s.devices - {s.keys[d]}) else s;
    AsideKeepsInv(s, gone);
    if d in s.active {
      AddDebtor(gone, t, Owing(s.active[d], true));
    }
  }

  /** What is attached or listed is no part of it. */
  lemma AsideKeepsInv(s: Sys, next: Sys)
    requires Inv(s)
    requires next == s.(devices := next.devices, keys := next.keys, listed := next.listed)
    ensures Inv(next)
  {
  }

  lemma OwnerKeepsInv(s: Sys, owner: Owner)
    requires Inv(s)
    ensures Inv(s.(owners := s.owners + {owner}))
  {
    assert TicketInv(s.tickets, s.issued, s.consumed, s.owners + {owner}, s.recs);
  }

  lemma ChangePhaseInPlace(rec: Rec, phase: CallPhase)
    requires LocalInv(rec)
    ensures LocalInv(ChangePhase(rec, phase)) && InPlace(rec, ChangePhase(rec, phase))
  {
  }

  lemma PhaseKeepsInv(s: Sys, r: RecId, phase: CallPhase)
    requires Inv(s) && r in s.recs
    ensures Inv(s.With(r, ChangePhase(s.recs[r], phase)))
  {
    assert LocalInv(s.recs[r]);
    ChangePhaseInPlace(s.recs[r], phase);
    ChangeRec(s, r, ChangePhase(s.recs[r], phase));
  }

  lemma AcceptKeepsInv(s: Sys, r: RecId)
    requires Inv(s)
    ensures Inv(Accepted(s, r))
  {
    if Accepted(s, r) != s {
      assert LocalInv(s.recs[r]);
      ChangeRec(s, r, s.recs[r].(peerAccepted := true, audioDue := true));
    }
  }

  lemma AudioKeepsInv(s: Sys, r: RecId)
    requires Inv(s)
    ensures Inv(LetAudio(s, r))
  {
    if LetAudio(s, r) != s {
      assert LocalInv(s.recs[r]);
      ChangeRec(s, r, s.recs[r].(audioEnabled := true));
    }
  }

  lemma CloseKeepsInv(s: Sys, r: RecId)
    requires Inv(s)
    ensures Inv(CloseBridge(s, r))
  {
    if CloseBridge(s, r) != s {
      assert LocalInv(s.recs[r]);
      ChangeRec(s, r, s.recs[r].(bridgeClosed := true));
    }
  }

  lemma RejectKeepsInv(s: Sys, t: Tid, r: RecId, owner: Owner)
    requires Inv(s) && t !in s.threads
    ensures Inv(ClaimReject(s, t, r, owner))
  {
    if Claimable(s, r, owner) {
      var next := s.recs[r].(owner := Some(owner));
      assert LocalInv(s.recs[r]);
      ChangeRec(s, r, next);
      AddDebtor(s.With(r, next), t, Owing(r, true));
    }
  }

  lemma ReserveKeepsInv(s: Sys, t: Tid, r: RecId, d: DevId, owner: Owner)
    requires Inv(s) && t !in s.threads && r !in s.recs
    ensures Inv(Reserve(s, t, r, d, owner))
  {
    if Reserve(s, t, r, d, owner) != s {
      var rec := OutgoingRec(d, owner);
      AddRec(s, r, rec);
      NobodyStarts(s, r, owner);
      AddThread(s.(recs := s.recs[r := rec], active := s.active[d := r], listed := s.listed + {r}), t, Starting(r, owner));
    }
  }

  lemma NobodyStarts(s: Sys, r: RecId, owner: Owner)
    requires ThreadsInv(s.threads, s.recs) && r !in s.recs
    ensures forall u :: u in s.threads ==> !Rivals(Starting(r, owner), s.threads[u]) && !Rivals(s.threads[u], Starting(r, owner))
  {
    forall u | u in s.threads
      ensures !Rivals(Starting(r, owner), s.threads[u]) && !Rivals(s.threads[u], Starting(r, owner))
    {
      assert ThreadInv(u, s.threads[u], s.recs);
    }
  }

  lemma NewOrphan(s: Sys, t: Tid, c: Native, signal: Signal)
    requires Inv(s) && t !in s.threads && c !in s.trace && signal != AnswerSent
    ensures Inv(s.(trace := s.trace[c := []], threads := s.threads[t := Orphan(c, signal)]))
  {
    NewCall(s, c);
    var mid := s.(trace := s.trace[c := []]);
    assert CallInv(s.recs, s.threads, s.trace);
    AddThread(mid, t, Orphan(c, signal));
    assert s.(trace := s.trace[c := []], threads := s.threads[t := Orphan(c, signal)])
        == mid.(threads := mid.threads[t := Orphan(c, signal)]);
  }

  lemma RingKeepsInv(s: Sys, t: Tid, r: RecId, d: DevId, c: Native, id: Option<CallId>)
    requires Inv(s) && t !in s.threads && r !in s.recs && c !in s.trace
    ensures Inv(Ring(s, t, r, d, c, id))
  {
    if !s.Attached(d) || d in s.active {
      NewOrphan(s, t, c, RejectSent);
    } else {
      assert CallInv(s.recs, s.threads, s.trace);
      NewCall(s, c);
      AddRec(s.(trace := s.trace[c := []]), r, IncomingRec(d, c, id));
    }
  }

  /** Nobody answers or signals for a call that still rings. */
  lemma RingingIsQuiet(s: Sys, r: RecId)
    requires Inv(s) && r in s.recs && s.recs[r].phase == Ringing && s.recs[r].call.Some?
    ensures s.recs[r].call.value in s.trace && s.trace[s.recs[r].call.value] == []
    ensures forall t :: t in s.threads ==> !Answering(s.threads[t], r) && !(s.threads[t].Signalling? && s.threads[t].r == r)
  {
    assert Signals(r, s.recs[r], s.trace[s.recs[r].call.value], s.threads);
    forall t | t in s.threads
      ensures !Answering(s.threads[t], r) && !(s.threads[t].Signalling? && s.threads[t].r == r)
    {
      assert ThreadInv(t, s.threads[t], s.recs);
    }
  }

  lemma ClaimerIsWelcome(s: Sys, t: Tid, r: RecId, owner: Owner)
    requires Inv(s) && t !in s.threads && Claimable(s, r, owner) && s.recs[r].call.Some?
    ensures Welcome(s.With(r, s.recs[r].(owner := Some(owner), phase := Connecting)), t, AnswerWaiting(r, owner))
  {
    RingingIsQuiet(s, r);
  }

  lemma ClaimKeepsInv(s: Sys, t: Tid, r: RecId, owner: Owner)
    requires Inv(s) && t !in s.threads
    ensures Inv(ClaimAnswer(s, t, r, owner))
  {
    if Claimable(s, r, owner) {
      var next := s.recs[r].(owner := Some(owner), phase := Connecting);
      assert LocalInv(s.recs[r]);
      ClaimerIsWelcome(s, t, r, owner);
      ChangeRec(s, r, next);
      AddThread(s.With(r, next), t, AnswerWaiting(r, owner));
    }
  }

  /** The lock taken and its holder put in its place. */
  lemma TakeLock(s: Sys, t: Tid, r: RecId, th: Thread)
    requires Inv(s) && r in s.recs && s.recs[r].op.None? && Holds(th, r)
    requires if th.Other? then t !in s.threads
             else t in s.threads && s.threads[t] == AnswerWaiting(r, th.owner) && s.recs[r].phase != Ended
    ensures Inv(s.With(r, s.recs[r].(op := Some(t))).(threads := s.threads[t := th]))
  {
    var next := s.recs[r].(op := Some(t));
    TakeLockRecs(s.recs, s.active, s.threads, t, r, th);
    ChangeInActive(s.active, s.recs, r, next);
    ChangeInTickets(s, r, next);
    ChangeInCalls(s.recs, s.threads, s.trace, r, next);
    OtherThreadsInCalls(s.recs[r := next], s.threads, s.threads[t := th], s.trace);
    TakeLockSignals(s, t, r, th);
    TakeLockThreads(s, t, r, th);
  }

  lemma TakeLockRecs(recs: map<RecId, Rec>, active: map<DevId, RecId>, threads: map<Tid, Thread>, t: Tid, r: RecId, th: Thread)
    requires RecsInv(recs, active, threads) && r in recs && Holds(th, r)
    requires t in threads ==> threads[t].AnswerWaiting?
    ensures RecsInv(recs[r := recs[r].(op := Some(t))], active, threads[t := th])
  {
  }

  lemma TakeLockSignals(s: Sys, t: Tid, r: RecId, th: Thread)
    requires SignalInv(s.recs, s.threads, s.trace) && r in s.recs && Holds(th, r)
    requires th.AnswerHolding? ==> t in s.threads && s.threads[t] == AnswerWaiting(r, th.owner) && s.recs[r].phase != Ended
    requires th.Other? ==> t !in s.threads
    ensures SignalInv(s.recs[r := s.recs[r].(op := Some(t))], s.threads[t := th], s.trace)
  {
    var recs, threads := s.recs[r := s.recs[r].(op := Some(t))], s.threads[t := th];
    forall q | q in recs && recs[q].call.Some? && recs[q].call.value in s.trace
      ensures Signals(q, recs[q], s.trace[recs[q].call.value], threads)
    {
      assert Signals(q, s.recs[q], s.trace[s.recs[q].call.value], s.threads);
      if q == r && th.AnswerHolding? {
        assert Answering(s.threads[t], r);
      }
    }
  }

  lemma TakeLockThreads(s: Sys, t: Tid, r: RecId, th: Thread)
    requires ThreadsInv(s.threads, s.recs) && r in s.recs && s.recs[r].op.None? && Holds(th, r)
    requires th.AnswerHolding? ==> t in s.threads && s.threads[t] == AnswerWaiting(r, th.owner)
    requires th.Other? ==> t !in s.threads
    ensures ThreadsInv(s.threads[t := th], s.recs[r := s.recs[r].(op := Some(t))])
  {
    var recs, threads := s.recs[r := s.recs[r].(op := Some(t))], s.threads[t := th];
    forall u | u in threads
      ensures ThreadInv(u, threads[u], recs)
    {
      if u in s.threads {
        assert ThreadInv(u, s.threads[u], s.recs);
      }
    }
    forall u, v | u in threads && v in threads && u != v
      ensures !Rivals(threads[u], threads[v])
    {
      if u in s.threads && v in s.threads {
        assert !Rivals(s.threads[u], s.threads[v]);
      }
    }
  }

  /** The lock given back and its holder gone. */
  lemma DropLock(s: Sys, t: Tid)
    requires Inv(s) && t in s.threads && (s.threads[t].AnswerHolding? || s.threads[t].Other?)
    ensures var r := s.threads[t].r; r in s.recs && Inv(s.With(r, s.recs[r].(op := None)).(threads := s.threads - {t}))
  {
    assert ThreadInv(t, s.threads[t], s.recs);
    var r := s.threads[t].r;
    var next := s.recs[r].(op := None);
    DropLockRecs(s.recs, s.active, s.threads, t, r);
    ChangeInActive(s.active, s.recs, r, next);
    ChangeInTickets(s, r, next);
    ChangeInCalls(s.recs, s.threads, s.trace, r, next);
    OtherThreadsInCalls(s.recs[r := next], s.threads, s.threads - {t}, s.trace);
    DropLockSignals(s, t, r);
    DropLockThreads(s.threads, s.recs, t, r);
  }

  lemma DropLockRecs(recs: map<RecId, Rec>, active: map<DevId, RecId>, threads: map<Tid, Thread>, t: Tid, r: RecId)
    requires RecsInv(recs, active, threads) && r in recs && t in threads && Holds(threads[t], r)
    ensures RecsInv(recs[r := recs[r].(op := None)], active, threads - {t})
  {
  }

  lemma DropLockThreads(threads: map<Tid, Thread>, recs: map<RecId, Rec>, t: Tid, r: RecId)
    requires ThreadsInv(threads, recs) && r in recs && t in threads && Holds(threads[t], r)
    ensures ThreadsInv(threads - {t}, recs[r := recs[r].(op := None)])
  {
    var after := recs[r := recs[r].(op := None)];
    assert ThreadInv(t, threads[t], recs);
    forall u | u in threads && u != t
      ensures ThreadInv(u, threads[u], after)
    {
      assert ThreadInv(u, threads[u], recs);
    }
  }

  lemma DropLockSignals(s: Sys, t: Tid, r: RecId)
    requires SignalInv(s.recs, s.threads, s.trace) && r in s.recs
    ensures SignalInv(s.recs[r := s.recs[r].(op := None)], s.threads - {t}, s.trace)
  {
    var recs := s.recs[r := s.recs[r].(op := None)];
    forall q | q in recs && recs[q].call.Some? && recs[q].call.value in s.trace
      ensures Signals(q, recs[q], s.trace[recs[q].call.value], s.threads - {t})
    {
      assert Signals(q, s.recs[q], s.trace[s.recs[q].call.value], s.threads);
    }
  }

  lemma EnterKeepsInv(s: Sys, t: Tid)
    requires Inv(s) && t in s.threads && s.threads[t].AnswerWaiting? && s.threads[t].r in s.recs
    ensures Inv(EnterAnswer(s, t, s.threads[t].r, s.threads[t].owner))
  {
    var AnswerWaiting(r, owner) := s.threads[t];
    if s.recs[r].op.None? {
      if owner !in s.owners || s.recs[r].phase == Ended {
        RemoveThread(s, t);
      } else {
        TakeLock(s, t, r, AnswerHolding(r, owner));
      }
    }
  }

  lemma TakeKeepsInv(s: Sys, t: Tid, r: RecId)
    requires Inv(s) && t !in s.threads
    ensures Inv(TakeOp(s, t, r))
  {
    if r in s.recs && s.recs[r].op.None? {
      TakeLock(s, t, r, Other(r));
    }
  }

  /** Before the holder of the lock answers: nothing was sent, and nobody else is to answer. */
  lemma HolderIsFirst(s: Sys, t: Tid)
    requires Inv(s) && t in s.threads && s.threads[t].AnswerHolding?
    ensures var r := s.threads[t].r;
      && r in s.recs && s.recs[r].incoming && s.recs[r].phase != Ringing && s.recs[r].call.Some?
      && s.recs[r].call.value in s.trace && s.trace[s.recs[r].call.value] == []
      && forall u :: u in s.threads && u != t ==> !Answering(s.threads[u], r) && s.threads[u] != Signalling(r, true)
  {
    assert ThreadInv(t, s.threads[t], s.recs);
    var r := s.threads[t].r;
    assert LocalInv(s.recs[r]);
    assert Signals(r, s.recs[r], s.trace[s.recs[r].call.value], s.threads);
    forall u | u in s.threads && u != t
      ensures !Answering(s.threads[u], r) && s.threads[u] != Signalling(r, true)
    {
      assert !Rivals(s.threads[t], s.threads[u]);
    }
  }

  lemma AnswerSent1(s: Sys, t: Tid)
    requires Inv(s) && t in s.threads && s.threads[t].AnswerHolding?
    ensures var r := s.threads[t].r;
      && r in s.recs && s.recs[r].call.Some? && s.recs[r].call.value in s.trace
      && Inv(s.With(r, s.recs[r].(op := None)).(threads := s.threads - {t}).Sent(s.recs[r].call.value, AnswerSent))
  {
    HolderIsFirst(s, t);
    DropLock(s, t);
    var r := s.threads[t].r;
    SendFor(s.With(r, s.recs[r].(op := None)).(threads := s.threads - {t}), r, AnswerSent);
  }

  lemma MarkAnswered(s: Sys, r: RecId)
    requires Inv(s) && r in s.recs && s.recs[r].incoming
    ensures Inv(s.With(r, s.recs[r].(answered := true, audioDue := true)))
  {
    assert LocalInv(s.recs[r]);
    ChangeRec(s, r, s.recs[r].(answered := true, audioDue := true));
  }

  function AnswerMade(s: Sys, t: Tid, r: RecId): Sys
    requires r in s.recs && s.recs[r].call.Some? && s.recs[r].call.value in s.trace
  {
    s.With(r, s.recs[r].(op := None)).(threads := s.threads - {t}).Sent(s.recs[r].call.value, AnswerSent)
  }

  lemma AnswerShape(s: Sys, t: Tid)
    requires t in s.threads && s.threads[t].AnswerHolding? && s.threads[t].r in s.recs
    requires s.recs[s.threads[t].r].call.Some? && s.recs[s.threads[t].r].call.value in s.trace
    ensures var r := s.threads[t].r;
      var sent := AnswerMade(s, t, r);
      && SendAnswer(s, t, r, false) == sent.(threads := sent.threads[t := Owing(r, true)])
      && SendAnswer(s, t, r, true) == sent.With(r, sent.recs[r].(answered := true, audioDue := true))
  {
    var r := s.threads[t].r;
    var free := s.recs[r].(op := None);
    assert s.recs[r := free][r := free.(answered := true, audioDue := true)] == s.recs[r := free.(answered := true, audioDue := true)];
    assert (s.threads - {t})[t := Owing(r, true)] == s.threads[t := Owing(r, true)];
  }

  lemma AnswerStep(s: Sys, t: Tid, ok: bool)
    requires Inv(s) && t in s.threads && s.threads[t].AnswerHolding? && s.threads[t].r in s.recs
    ensures Inv(SendAnswer(s, t, s.threads[t].r, ok))
  {
    var r := s.threads[t].r;
    HolderIsFirst(s, t);
    AnswerSent1(s, t);
    AnswerShape(s, t);
    if ok {
      MarkAnswered(AnswerMade(s, t, r), r);
    } else {
      AddDebtor(AnswerMade(s, t, r), t, Owing(r, true));
    }
  }

  /** Before a goroutine signals the end: it is the only one to, and no Answer is under way. */
  lemma EnderIsAlone(s: Sys, t: Tid)
    requires Inv(s) && t in s.threads && s.threads[t].Signalling? && s.threads[t].r in s.recs && s.recs[s.threads[t].r].op.None?
    ensures var r := s.threads[t].r;
      && s.recs[r].phase == Ended && s.recs[r].call.Some? && s.recs[r].call.value in s.trace
      && var trace := s.trace[s.recs[r].call.value]
            + [if s.threads[t].reject then RejectSent else HangupSent];
      && Orderly(trace) && Signals(r, s.recs[r], trace, s.threads - {t})
  {
    var Signalling(r, reject) := s.threads[t];
    assert ThreadInv(t, s.threads[t], s.recs);
    var c := s.recs[r].call.value;
    assert Signals(r, s.recs[r], s.trace[c], s.threads);
    forall u | u in s.threads && u != t
      ensures !(s.threads[u].Signalling? && s.threads[u].r == r)
      ensures !(s.threads[u].AnswerHolding? && s.threads[u].r == r)
      ensures reject ==> !Answering(s.threads[u], r)
    {
      assert !Rivals(s.threads[t], s.threads[u]) && !Rivals(s.threads[u], s.threads[t]);
      assert ThreadInv(u, s.threads[u], s.recs);
    }
  }

  lemma SendEndKeepsInv(s: Sys, t: Tid, r: RecId, reject: bool)
    requires Inv(s) && t in s.threads && s.threads[t] == Signalling(r, reject)
    ensures Inv(SendEnd(s, t, r, reject))
  {
    if SendEnd(s, t, r, reject) != s {
      EnderIsAlone(s, t);
      RemoveThread(s, t);
      SendFor(s.(threads := s.threads - {t}), r, if reject then RejectSent else HangupSent);
    }
  }

  lemma SendKeepsInv(s: Sys, t: Tid)
    requires Inv(s) && t in s.threads
    ensures Inv(SendLast(s, t))
  {
    match s.threads[t]
    case Orphan(c, signal) => if c in s.trace { SendOrphan(s, t, c, signal); }
    case Signalling(r, reject) => SendEndKeepsInv(s, t, r, reject);
    case _ =>
  }

  lemma SendOrphan(s: Sys, t: Tid, c: Native, signal: Signal)
    requires Inv(s) && t in s.threads && s.threads[t] == Orphan(c, signal) && c in s.trace
    ensures Inv(s.Sent(c, signal).(threads := s.threads - {t}))
  {
    RemoveThread(s, t);
    var threads, trace := s.threads - {t}, s.trace[c := s.trace[c] + [signal]];
    forall u | u in threads && threads[u].Orphan?
      ensures threads[u].c != c
    {
      assert !Rivals(s.threads[t], s.threads[u]);
    }
    assert CallInv(s.recs, threads, trace);
    assert forall r :: r in s.recs ==> s.recs[r].call != Some(c);
    assert SignalInv(s.recs, threads, s.trace);
    assert SignalInv(s.recs, threads, trace);
  }

  lemma BindOnce(s: Sys, r: RecId)
    requires Inv(s) && r in s.recs && s.recs[r].bound == 0
    ensures Inv(s.With(r, s.recs[r].(bound := 1)))
  {
    assert LocalInv(s.recs[r]);
    ChangeRec(s, r, s.recs[r].(bound := 1));
  }

  lemma BindShape(s: Sys, t: Tid, r: RecId)
    requires r in s.recs
    ensures var done := s.(threads := s.threads - {t});
      BindMedia(s, t, r) == if s.recs[r].bridgeClosed || s.recs[r].bound > 0 then done else done.With(r, s.recs[r].(bound := 1))
  {
  }

  lemma BindKeepsInv(s: Sys, t: Tid, r: RecId)
    requires Inv(s) && t in s.threads && s.threads[t] == Binding(r)
    ensures Inv(BindMedia(s, t, r))
  {
    if r in s.recs {
      BindShape(s, t, r);
      RemoveThread(s, t);
      if !s.recs[r].bridgeClosed && s.recs[r].bound == 0 {
        BindOnce(s.(threads := s.threads - {t}), r);
      }
    }
  }

  lemma IssueTickets(s: Sys, token: Token, r: RecId, owner: Owner, now: int)
    requires TicketInv(s.tickets, s.issued, s.consumed, s.owners, s.recs) && token !in s.issued
    ensures var next := Issue(s, token, r, owner, now); TicketInv(next.tickets, next.issued, next.consumed, next.owners, next.recs)
  {
  }

  lemma IssueKeepsInv(s: Sys, token: Token, r: RecId, owner: Owner, now: int)
    requires Inv(s) && token !in s.issued
    ensures Inv(Issue(s, token, r, owner, now))
  {
    IssueTickets(s, token, r, owner, now);
  }

  lemma SpendTicket(s: Sys, token: Token)
    requires Inv(s) && token in s.tickets
    ensures Inv(s.(tickets := s.tickets - {token}, consumed := s.consumed + {token}))
  {
    assert TicketInv(s.tickets - {token}, s.issued, s.consumed + {token}, s.owners, s.recs);
  }

  lemma ConsumeKeepsInv(s: Sys, t: Tid, token: Token, now: int)
    requires Inv(s) && t !in s.threads
    ensures Inv(Consume(s, t, token, now))
  {
    if TicketHolds(s, token, now) {
      SpendTicket(s, token);
      AddThread(s.(tickets := s.tickets - {token}, consumed := s.consumed + {token}), t, Binding(s.tickets[token].r));
    } else {
      FewerTickets(s, s.tickets - {token});
    }
  }

  /** A record ended: the tickets for it are gone, and its device is free once Start is done with it. */
  function EndedQuietly(s: Sys, r: RecId): Sys
    requires r in s.recs
  {
    var rec := s.recs[r];
    s.(recs := s.recs[r := rec.(phase := Ended)],
       active := if rec.dev in s.active && s.active[rec.dev] == r && !rec.pending then s.active - {rec.dev} else s.active,
       tickets := WithoutTickets(s.tickets, (ticket: Ticket) => ticket.r == r))
  }

  lemma EndThreads(threads: map<Tid, Thread>, recs: map<RecId, Rec>, r: RecId)
    requires ThreadsInv(threads, recs) && r in recs
    ensures ThreadsInv(threads, recs[r := recs[r].(phase := Ended)])
  {
    forall t | t in threads
      ensures ThreadInv(t, threads[t], recs[r := recs[r].(phase := Ended)])
    {
      assert ThreadInv(t, threads[t], recs);
    }
  }

  lemma EndSignals(recs: map<RecId, Rec>, threads: map<Tid, Thread>, trace: map<Native, seq<Signal>>, r: RecId)
    requires SignalInv(recs, threads, trace) && r in recs
    ensures SignalInv(recs[r := recs[r].(phase := Ended)], threads, trace)
  {
    var after := recs[r := recs[r].(phase := Ended)];
    forall q | q in after && after[q].call.Some? && after[q].call.value in trace
      ensures Signals(q, after[q], trace[after[q].call.value], threads)
    {
      assert Signals(q, recs[q], trace[recs[q].call.value], threads);
    }
  }

  lemma EndRecs(s: Sys, r: RecId)
    requires RecsInv(s.recs, s.active, s.threads) && ActiveInv(s.active, s.recs) && r in s.recs
    ensures var next := EndedQuietly(s, r);
      RecsInv(next.recs, next.active, next.threads) && ActiveInv(next.active, next.recs)
  {
    assert LocalInv(s.recs[r]);
  }

  lemma EndTickets(s: Sys, r: RecId)
    requires TicketInv(s.tickets, s.issued, s.consumed, s.owners, s.recs) && r in s.recs
    ensures var next := EndedQuietly(s, r);
      TicketInv(next.tickets, next.issued, next.consumed, next.owners, next.recs)
  {
  }

  lemma EndQuietly(s: Sys, r: RecId)
    requires Inv(s) && r in s.recs
    ensures Inv(EndedQuietly(s, r))
  {
    EndRecs(s, r);
    EndTickets(s, r);
    ChangeInCalls(s.recs, s.threads, s.trace, r, s.recs[r].(phase := Ended));
    EndSignals(s.recs, s.threads, s.trace, r);
    EndThreads(s.threads, s.recs, r);
  }

  lemma EndShape(s: Sys, t: Tid, r: RecId, signal: bool)
    requires r in s.recs && s.recs[r].phase != Ended
    ensures var quiet := EndedQuietly(s, r);
      EndCall(s, t, r, signal) ==
        if signal && s.recs[r].call.Some?
        then quiet.(threads := quiet.threads[t := Signalling(r, s.recs[r].incoming && s.recs[r].phase == Ringing)]) else quiet
  {
  }

  lemma EnderIsWelcome(s: Sys, t: Tid, r: RecId)
    requires Inv(s) && t !in s.threads && r in s.recs && s.recs[r].phase != Ended && s.recs[r].call.Some?
    ensures Welcome(EndedQuietly(s, r), t, Signalling(r, s.recs[r].incoming && s.recs[r].phase == Ringing))
  {
    NobodyEnds(s, r);
    if s.recs[r].phase == Ringing {
      RingingIsQuiet(s, r);
    }
  }

  lemma EndKeepsInv(s: Sys, t: Tid, r: RecId, signal: bool)
    requires Inv(s) && t !in s.threads && r in s.recs
    ensures Inv(EndCall(s, t, r, signal))
  {
    if s.recs[r].phase != Ended {
      EndShape(s, t, r, signal);
      EndQuietly(s, r);
      if signal && s.recs[r].call.Some? {
        EnderIsWelcome(s, t, r);
        AddThread(EndedQuietly(s, r), t, Signalling(r, s.recs[r].incoming && s.recs[r].phase == Ringing));
      }
    }
  }

  lemma NobodyEnds(s: Sys, r: RecId)
    requires Inv(s) && r in s.recs && s.recs[r].phase != Ended && s.recs[r].call.Some?
    ensures s.recs[r].call.value in s.trace && s.trace[s.recs[r].call.value] in {[], [AnswerSent]}
    ensures forall t :: t in s.threads ==> !(s.threads[t].Signalling? && s.threads[t].r == r)
  {
    assert Signals(r, s.recs[r], s.trace[s.recs[r].call.value], s.threads);
    forall t | t in s.threads
      ensures !(s.threads[t].Signalling? && s.threads[t].r == r)
    {
      assert ThreadInv(t, s.threads[t], s.recs);
    }
  }

  // ---------- Start, once the engine has returned ----------

  /** The second critical section of Start, but for the call it may have been given. */
  function Unpended(s: Sys, t: Tid, keep: bool): Sys
    requires t in s.threads && s.threads[t].Starting? && s.threads[t].r in s.recs
  {
    var r := s.threads[t].r;
    var rec := s.recs[r].(pending := false);
    s.(recs := s.recs[r := rec],
       active := if !keep && rec.dev in s.active && s.active[rec.dev] == r then s.active - {rec.dev} else s.active,
       threads := s.threads - {t})
  }

  lemma UnpendRecs(s: Sys, t: Tid, keep: bool)
    requires RecsInv(s.recs, s.active, s.threads) && ActiveInv(s.active, s.recs)
    requires t in s.threads && s.threads[t].Starting? && s.threads[t].r in s.recs && s.recs[s.threads[t].r].pending
    requires keep ==> s.recs[s.threads[t].r].phase != Ended
    ensures var next := Unpended(s, t, keep); RecsInv(next.recs, next.active, next.threads)
  {
    var r := s.threads[t].r;
    assert LocalInv(s.recs[r]);
  }

  lemma UnpendActive(s: Sys, t: Tid, keep: bool)
    requires ActiveInv(s.active, s.recs)
    requires t in s.threads && s.threads[t].Starting? && s.threads[t].r in s.recs && s.recs[s.threads[t].r].pending
    requires keep ==> s.recs[s.threads[t].r].phase != Ended
    ensures var next := Unpended(s, t, keep); ActiveInv(next.active, next.recs)
  {
  }

  lemma UnpendTickets(s: Sys, r: RecId)
    requires TicketInv(s.tickets, s.issued, s.consumed, s.owners, s.recs) && r in s.recs
    ensures TicketInv(s.tickets, s.issued, s.consumed, s.owners, s.recs[r := s.recs[r].(pending := false)])
  {
  }

  lemma UnpendThreads(threads: map<Tid, Thread>, recs: map<RecId, Rec>, t: Tid, r: RecId)
    requires ThreadsInv(threads, recs) && t in threads && threads[t].Starting? && threads[t].r == r && r in recs
    ensures ThreadsInv(threads - {t}, recs[r := recs[r].(pending := false)])
  {
    var after := recs[r := recs[r].(pending := false)];
    forall u | u in threads && u != t
      ensures ThreadInv(u, threads[u], after)
    {
      assert ThreadInv(u, threads[u], recs);
      assert !Rivals(threads[t], threads[u]);
    }
  }

  lemma UnpendSignals(s: Sys, t: Tid, r: RecId)
    requires SignalInv(s.recs, s.threads, s.trace) && r in s.recs
    ensures SignalInv(s.recs[r := s.recs[r].(pending := false)], s.threads - {t}, s.trace)
  {
    var recs := s.recs[r := s.recs[r].(pending := false)];
    forall q | q in recs && recs[q].call.Some? && recs[q].call.value in s.trace
      ensures Signals(q, recs[q], s.trace[recs[q].call.value], s.threads - {t})
    {
      assert Signals(q, s.recs[q], s.trace[s.recs[q].call.value], s.threads);
    }
  }

  lemma Unpend(s: Sys, t: Tid, keep: bool)
    requires Inv(s) && t in s.threads && s.threads[t].Starting? && s.threads[t].r in s.recs
    requires keep ==> s.recs[s.threads[t].r].phase != Ended
    ensures Inv(Unpended(s, t, keep))
  {
    var r := s.threads[t].r;
    var next := Unpended(s, t, keep);
    assert ThreadInv(t, s.threads[t], s.recs);
    UnpendRecs(s, t, keep);
    UnpendActive(s, t, keep);
    UnpendThreads(s.threads, s.recs, t, r);
    UnpendSignals(s, t, r);
    UnpendTickets(s, r);
    ChangeInCalls(s.recs, s.threads, s.trace, r, s.recs[r].(pending := false));
    OtherThreadsInCalls(next.recs, s.threads, next.threads, s.trace);
  }

  /** A call given to a record that has none, and holds its device. */
  lemma GiveCall(s: Sys, r: RecId, c: Native, id: Option<CallId>)
    requires Inv(s) && r in s.recs && c !in s.trace && s.recs[r].call.None? && !s.recs[r].incoming && !s.recs[r].pending
    requires s.recs[r].dev in s.active && s.active[s.recs[r].dev] == r
    ensures Inv(s.With(r, s.recs[r].(call := Some(c), id := id)).(trace := s.trace[c := []]))
  {
    var rec := s.recs[r].(call := Some(c), id := id);
    assert LocalInv(s.recs[r]);
    GiveCallRecs(s.recs, s.active, s.threads, r, rec);
    GiveCallOthers(s, r, rec);
    GiveCallCalls(s.recs, s.threads, s.trace, r, c, rec);
    GiveCallSignals(s, r, c, rec);
    EndlessThreads(s.threads, s.recs, r, rec);
  }

  lemma GiveCallRecs(recs: map<RecId, Rec>, active: map<DevId, RecId>, threads: map<Tid, Thread>, r: RecId, rec: Rec)
    requires RecsInv(recs, active, threads) && r in recs && rec == recs[r].(call := rec.call, id := rec.id)
    requires rec.call.Some? && !rec.pending && rec.dev in active && active[rec.dev] == r
    ensures RecsInv(recs[r := rec], active, threads)
  {
    assert LocalInv(recs[r]);
  }

  lemma GiveCallOthers(s: Sys, r: RecId, rec: Rec)
    requires ActiveInv(s.active, s.recs) && TicketInv(s.tickets, s.issued, s.consumed, s.owners, s.recs)
    requires r in s.recs && rec == s.recs[r].(call := rec.call, id := rec.id)
    ensures ActiveInv(s.active, s.recs[r := rec]) && TicketInv(s.tickets, s.issued, s.consumed, s.owners, s.recs[r := rec])
  {
  }

  lemma GiveCallCalls(recs: map<RecId, Rec>, threads: map<Tid, Thread>, trace: map<Native, seq<Signal>>, r: RecId, c: Native, rec: Rec)
    requires CallInv(recs, threads, trace) && r in recs && c !in trace && rec.call == Some(c)
    ensures CallInv(recs[r := rec], threads, trace[c := []])
  {
  }

  lemma GiveCallSignals(s: Sys, r: RecId, c: Native, rec: Rec)
    requires Inv(s) && r in s.recs && c !in s.trace && s.recs[r].call.None? && rec.call == Some(c) && !s.recs[r].incoming
    ensures SignalInv(s.recs[r := rec], s.threads, s.trace[c := []])
  {
    var recs, trace := s.recs[r := rec], s.trace[c := []];
    forall q | q in recs && recs[q].call.Some? && recs[q].call.value in trace
      ensures Signals(q, recs[q], trace[recs[q].call.value], s.threads)
    {
      if q != r {
        assert Signals(q, s.recs[q], s.trace[s.recs[q].call.value], s.threads);
      }
    }
  }

  lemma EndlessThreads(threads: map<Tid, Thread>, recs: map<RecId, Rec>, r: RecId, rec: Rec)
    requires ThreadsInv(threads, recs) && r in recs && recs[r].call.None?
    requires rec == recs[r].(call := rec.call, id := rec.id)
    ensures ThreadsInv(threads, recs[r := rec])
  {
    forall t | t in threads
      ensures ThreadInv(t, threads[t], recs[r := rec])
    {
      assert ThreadInv(t, threads[t], recs);
    }
  }

  /** What Settle comes to: the record settled, the call given or orphaned, and an end owed. */
  lemma SettleShape(s: Sys, t: Tid, u: Tid, result: Option<Native>, id: Option<CallId>, cancelled: bool)
    requires t in s.threads && s.threads[t].Starting? && s.threads[t].r in s.recs && u !in s.threads
    ensures var r := s.threads[t].r;
      var alive := StillWanted(s, r, s.threads[t].owner, cancelled);
      var mid := Unpended(s, t, alive);
      var owing := mid.(threads := mid.threads[t := Owing(r, false)]);
      Settle(s, t, u, result, id, cancelled) ==
        if result.None? then owing
        else if alive then mid.With(r, mid.recs[r].(call := result, id := id)).(trace := mid.trace[result.value := []])
        else owing.(trace := owing.trace[result.value := []], threads := owing.threads[u := Orphan(result.value, HangupSent)])
  {
    var r := s.threads[t].r;
    var rec := s.recs[r].(pending := false);
    assert s.recs[r := rec][r := rec.(call := result, id := id)] == s.recs[r := rec.(call := result, id := id)];
    assert (s.threads - {t})[t := Owing(r, false)] == s.threads[t := Owing(r, false)];
  }

  lemma StarterHolds(s: Sys, t: Tid)
    requires Inv(s) && t in s.threads && s.threads[t].Starting?
    ensures var r := s.threads[t].r;
      && r in s.recs && s.recs[r].pending && s.recs[r].call.None? && !s.recs[r].incoming
      && s.recs[r].dev in s.active && s.active[s.recs[r].dev] == r
  {
    assert ThreadInv(t, s.threads[t], s.recs);
    assert LocalInv(s.recs[s.threads[t].r]);
  }

  lemma SettleStep(s: Sys, t: Tid, u: Tid, result: Option<Native>, id: Option<CallId>, cancelled: bool)
    requires Inv(s) && t in s.threads && s.threads[t].Starting? && s.threads[t].r in s.recs && u !in s.threads
    requires result.Some? ==> result.value !in s.trace
    ensures Inv(Settle(s, t, u, result, id, cancelled))
  {
    var r := s.threads[t].r;
    var alive := StillWanted(s, r, s.threads[t].owner, cancelled);
    var mid := Unpended(s, t, alive);
    StarterHolds(s, t);
    Unpend(s, t, alive);
    SettleShape(s, t, u, result, id, cancelled);
    if result.Some? && alive {
      GiveCall(mid, r, result.value, id);
    } else {
      FailedSettle(mid, t, u, r, result);
    }
  }

  lemma FailedSettle(s: Sys, t: Tid, u: Tid, r: RecId, result: Option<Native>)
    requires Inv(s) && t !in s.threads && u !in s.threads && t != u && r in s.recs && (result.Some? ==> result.value !in s.trace)
    ensures var owing := s.(threads := s.threads[t := Owing(r, false)]);
      && Inv(owing)
      && (result.Some? ==> Inv(owing.(trace := owing.trace[result.value := []], threads := owing.threads[u := Orphan(result.value, HangupSent)])))
  {
    AddDebtor(s, t, Owing(r, false));
    if result.Some? {
      NewOrphan(s.(threads := s.threads[t := Owing(r, false)]), u, result.value, HangupSent);
    }
  }

  lemma CallbackKeepsInv(s: Sys, step: Step)
    requires Inv(s) && (step.PhaseChange? || step.PeerAccept? || step.AllowAudio? || step.BridgeClose?)
    ensures Inv(Do(s, step))
  {
    match step
    case PhaseChange(r, phase) => if r in s.recs { PhaseKeepsInv(s, r, phase); }
    case PeerAccept(r) => AcceptKeepsInv(s, r);
    case AllowAudio(r) => AudioKeepsInv(s, r);
    case BridgeClose(r) => CloseKeepsInv(s, r);
    case _ =>
  }

  lemma SignalKeepsInv(s: Sys, step: Step)
    requires Inv(s) && (step.SendSignal? || step.HoldOp? || step.DropOp?)
    ensures Inv(Do(s, step))
  {
    match step
    case SendSignal(t) => if t in s.threads { SendKeepsInv(s, t); }
    case HoldOp(t, r) => if t !in s.threads { TakeKeepsInv(s, t, r); }
    case DropOp(t) => if t in s.threads && s.threads[t].Other? { DropLock(s, t); }
    case _ =>
  }

  lemma MediaKeepsInv(s: Sys, step: Step)
    requires Inv(s) && (step.IssueTicket? || step.ConsumeTicket? || step.Bind?)
    ensures Inv(Do(s, step))
  {
    match step
    case IssueTicket(token, r, owner, now) => if token !in s.issued { IssueKeepsInv(s, token, r, owner, now); }
    case ConsumeTicket(t, token, now) => if t !in s.threads { ConsumeKeepsInv(s, t, token, now); }
    case Bind(t) => if t in s.threads && s.threads[t].Binding? { BindKeepsInv(s, t, s.threads[t].r); }
    case _ =>
  }

  lemma SessionKeepsInv(s: Sys, step: Step)
    requires Inv(s) && (step.RegisterOwner? || step.ReleaseOwner? || step.Detach?)
    ensures Inv(Do(s, step))
  {
    match step
    case RegisterOwner(owner) => OwnerKeepsInv(s, owner);
    case ReleaseOwner(t, owner) => if t !in s.threads { ReleaseKeepsInv(s, t, owner); }
    case Detach(t, d) => if t !in s.threads { DetachKeepsInv(s, t, d); }
    case _ =>
  }

  lemma EndingKeepsInv(s: Sys, step: Step)
    requires Inv(s) && (step.End? || step.EndOwed? || step.ReleaseNext?)
    ensures Inv(Do(s, step))
  {
    match step
    case End(t, r, signal) => if t !in s.threads && r in s.recs { EndKeepsInv(s, t, r, signal); }
    case EndOwed(t, u) =>
      if t in s.threads && s.threads[t].Owing? && s.threads[t].r in s.recs && u !in s.threads { EndOwedKeepsInv(s, t, u); }
    case ReleaseNext(t, u, r) =>
      if t in s.threads && s.threads[t].Releasing? && u !in s.threads { ReleaseNextKeepsInv(s, t, u, r); }
    case _ =>
  }

  lemma RequestKeepsInv(s: Sys, step: Step)
    requires Inv(s)
    requires step.StartReserve? || step.StartSettle? || step.Incoming? || step.AnswerClaim? || step.AnswerEnter? || step.AnswerSignal? || step.RejectClaim?
    ensures Inv(Do(s, step))
  {
    match step
    case StartReserve(t, r, d, owner) => if t !in s.threads && r !in s.recs { ReserveKeepsInv(s, t, r, d, owner); }
    case StartSettle(t, u, result, id, cancelled) =>
      if t in s.threads && u !in s.threads && s.threads[t].Starting? && s.threads[t].r in s.recs && (result.Some? ==> result.value !in s.trace) {
        SettleStep(s, t, u, result, id, cancelled);
      }
    case Incoming(t, r, d, c, id) => if t !in s.threads && r !in s.recs && c !in s.trace { RingKeepsInv(s, t, r, d, c, id); }
    case AnswerClaim(t, r, owner) => if t !in s.threads { ClaimKeepsInv(s, t, r, owner); }
    case AnswerEnter(t) => if t in s.threads && s.threads[t].AnswerWaiting? && s.threads[t].r in s.recs { EnterKeepsInv(s, t); }
    case AnswerSignal(t, ok) => if t in s.threads && s.threads[t].AnswerHolding? && s.threads[t].r in s.recs { AnswerStep(s, t, ok); }
    case RejectClaim(t, r, owner) => if t !in s.threads { RejectKeepsInv(s, t, r, owner); }
    case _ =>
  }

  lemma StepKeepsInv(s: Sys, step: Step)
    requires Inv(s)
    ensures Inv(Do(s, step))
  {
    if step.PhaseChange? || step.PeerAccept? || step.AllowAudio? || step.BridgeClose? {
      CallbackKeepsInv(s, step);
    } else if step.SendSignal? || step.HoldOp? || step.DropOp? {
      SignalKeepsInv(s, step);
    } else if step.IssueTicket? || step.ConsumeTicket? || step.Bind? {
      MediaKeepsInv(s, step);
    } else if step.RegisterOwner? || step.ReleaseOwner? || step.Detach? {
      SessionKeepsInv(s, step);
    } else if step.End? || step.EndOwed? || step.ReleaseNext? {
      EndingKeepsInv(s, step);
    } else if step.Attach? || step.Unlist? {
      AsideKeepsInv(s, Do(s, step));
    } else {
      RequestKeepsInv(s, step);
    }
  }

  lemma {:induction false} InvAlways(steps: seq<Step>)
    ensures Inv(Run(steps))
  {
    if steps != [] {
      InvAlways(steps[..|steps| - 1]);
      StepKeepsInv(Run(steps[..|steps| - 1]), steps[|steps| - 1]);
    }
  }
}
