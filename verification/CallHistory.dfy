/** What the state of a call, its signals and its tickets tell of the run that led to them. */
module CallHistory {
  import opened Wrappers
  import opened CallService
  import opened CallSafety
  import opened CallProperties

  // ---------- When a call becomes active ----------

  /** Media has been seen of a live call exactly if it had been, or the engine has reported it since. */
  lemma {:induction false} MediaSeenIff(steps: seq<Step>, more: seq<Step>, r: RecId)
    requires r in Run(steps).recs && r in Run(steps + more).recs && Run(steps + more).recs[r].phase != Ended
    ensures Run(steps + more).recs[r].mediaActive <==> Run(steps).recs[r].mediaActive || PhaseChange(r, NativeActive) in more
  {
    if more == [] {
      assert steps + more == steps;
    } else {
      var before, last := more[..|more| - 1], more[|more| - 1];
      assert steps + more == steps + before + [last] && more == before + [last];
      LifeOnlyAdvances(steps, before, r);
      RunMoves(steps + before, last, r);
      MediaSeenIff(steps, before, r);
      if last.PhaseChange? && last.r == r {
        ReportedPhase(steps + before, r, last.phase);
      }
    }
  }

  /** What a phase change makes of r. */
  lemma ReportedPhase(steps: seq<Step>, r: RecId, phase: CallPhase)
    requires r in Run(steps).recs && Run(steps).recs[r].phase != Ended
    ensures var rec := Run(steps).recs[r];
      var s := Run(steps + [PhaseChange(r, phase)]);
      && r in s.recs
      && (s.recs[r].mediaActive <==> rec.mediaActive || phase == NativeActive)
      && (Agreed(rec) && s.recs[r].mediaActive ==> s.recs[r].phase == Active)
      && (s.recs[r].phase == Active ==> s.recs[r].mediaActive && Agreed(rec))
  {
    var rec := Run(steps).recs[r];
    assert (steps + [PhaseChange(r, phase)])[..|steps|] == steps;
    PhaseStep(Run(steps), r, phase);
    InvAlways(steps);
    assert LocalInv(rec);
    PhaseIsFollowed(rec, phase);
  }

  /** One of these steps was a phase change of r by which media had been seen. */
  ghost predicate Reported(seen: bool, more: seq<Step>, r: RecId) {
    exists i :: 0 <= i < |more| && more[i].PhaseChange? && more[i].r == r && (seen || PhaseChange(r, NativeActive) in more[..i + 1])
  }

  lemma ReportedGrows(seen: bool, more: seq<Step>, last: Step, r: RecId)
    ensures Reported(seen, more + [last], r) <==>
      || Reported(seen, more, r)
      || (last.PhaseChange? && last.r == r && (seen || PhaseChange(r, NativeActive) in more + [last]))
  {
    var all := more + [last];
    assert all[..|more| + 1] == all;
    if Reported(seen, more, r) {
      var i :| 0 <= i < |more| && more[i].PhaseChange? && more[i].r == r && (seen || PhaseChange(r, NativeActive) in more[..i + 1]);
      assert all[i] == more[i] && all[..i + 1] == more[..i + 1];
    }
    if Reported(seen, all, r) {
      var i :| 0 <= i < |all| && all[i].PhaseChange? && all[i].r == r && (seen || PhaseChange(r, NativeActive) in all[..i + 1]);
      if i < |more| {
        assert all[i] == more[i] && all[..i + 1] == more[..i + 1];
      }
    }
    if last.PhaseChange? && last.r == r && (seen || PhaseChange(r, NativeActive) in all) {
      assert all[|more|] == last;
    }
  }

  lemma ActiveStep(steps: seq<Step>, step: Step, r: RecId)
    requires r in Run(steps).recs && Agreed(Run(steps).recs[r])
    ensures r in Run(steps + [step]).recs
    ensures var rec := Run(steps + [step]).recs[r];
      rec.phase != Ended ==>
        (rec.phase == Active <==> Run(steps).recs[r].phase == Active || (step.PhaseChange? && step.r == r && rec.mediaActive))
  {
    RunMoves(steps, step, r);
    if step.PhaseChange? && step.r == r {
      if Run(steps).recs[r].phase != Ended {
        ReportedPhase(steps, r, step.phase);
        WasActiveHasMedia(steps, step, r);
      }
    }
  }

  lemma WasActiveHasMedia(steps: seq<Step>, step: Step, r: RecId)
    requires r in Run(steps).recs && Run(steps).recs[r].phase == Active ==> r in Run(steps + [step]).recs
    ensures r in Run(steps).recs && Run(steps).recs[r].phase == Active ==>
      Run(steps + [step]).recs[r].phase == Active ==> Run(steps + [step]).recs[r].mediaActive
  {
    if r in Run(steps).recs && Run(steps).recs[r].phase == Active && Run(steps + [step]).recs[r].phase == Active {
      ActiveMeansAccepted(steps + [step], r);
    }
  }

  /** A live call that was claimed, or accepted by the peer, is active exactly if it was, or a phase
      change has come since by which media had been seen. */
  lemma {:induction false} ActiveIff(steps: seq<Step>, more: seq<Step>, r: RecId)
    requires r in Run(steps).recs && Agreed(Run(steps).recs[r])
    requires r in Run(steps + more).recs && Run(steps + more).recs[r].phase != Ended
    ensures Run(steps + more).recs[r].phase == Active <==>
      Run(steps).recs[r].phase == Active || Reported(Run(steps).recs[r].mediaActive, more, r)
  {
    if more == [] {
      assert steps + more == steps;
    } else {
      var before, last := more[..|more| - 1], more[|more| - 1];
      assert steps + more == steps + before + [last] && more == before + [last];
      LifeOnlyAdvances(steps, before, r);
      ActiveStep(steps + before, last, r);
      RunMoves(steps + before, last, r);
      ActiveIff(steps, before, r);
      ReportedGrows(Run(steps).recs[r].mediaActive, before, last, r);
      MediaSeenIff(steps, more, r);
    }
  }

  /** A call neither claimed nor accepted rings until it ends. */
  lemma {:induction false} RingsUntilAgreed(steps: seq<Step>, r: RecId)
    requires r in Run(steps).recs && Run(steps).recs[r].phase != Ended && !Agreed(Run(steps).recs[r])
    ensures Run(steps).recs[r].phase == Ringing
  {
    InvAlways(steps);
    assert LocalInv(Run(steps).recs[r]);
  }

  /** So a call whose media came before its Answer is not active until another phase change comes. */
  lemma {:induction false} AnsweredAfterMedia(steps: seq<Step>, t: Tid, r: RecId, owner: Owner, more: seq<Step>)
    requires t !in Run(steps).threads && Claimable(Run(steps), r, owner)
    requires forall i :: 0 <= i < |more| && more[i].PhaseChange? ==> more[i].r != r
    ensures var s := Run(steps + [AnswerClaim(t, r, owner)] + more); r in s.recs && s.recs[r].phase in {Connecting, Ended}
  {
    var claimed := steps + [AnswerClaim(t, r, owner)];
    assert claimed[..|claimed| - 1] == steps;
    assert Run(claimed).recs[r] == Run(steps).recs[r].(owner := Some(owner), phase := Connecting);
    LifeOnlyAdvances(claimed, more, r);
    if Run(claimed + more).recs[r].phase != Ended {
      ActiveIff(claimed, more, r);
    }
  }

  // ---------- How long a ticket holds ----------

  /** The step takes the ticket k away although its call lives on: a use of it, another one issued for
      the call, or for any call once it has expired, or the release of its session. */
  ghost predicate Spends(s: Sys, step: Step, k: Token, ticket: Ticket) {
    match step
    case ConsumeTicket(t, token, _) => t !in s.threads && token == k
    case IssueTicket(token, r, owner, now) =>
      && token !in s.issued && Found(s, r, owner, false) && s.recs[r].bound == 0
      && (r == ticket.r || ticket.expires <= now)
    case ReleaseOwner(t, owner) => t !in s.threads && owner == ticket.owner
    case _ => false
  }

  ghost predicate Ends(s: Sys, next: Sys, r: RecId) {
    r in s.recs && r in next.recs && s.recs[r].phase != Ended && next.recs[r].phase == Ended
  }

  /** The ticket k, once issued, is not made anew; it stays unless it is spent or its call ends. */
  ghost predicate TicketKept(s: Sys, step: Step, next: Sys, k: Token) {
    && k in next.issued
    && (k in next.tickets <==> k in s.tickets && !Spends(s, step, k, s.tickets[k]) && !Ends(s, next, s.tickets[k].r))
    && (k in next.tickets ==> next.tickets[k] == s.tickets[k])
  }

  ghost predicate SameTickets(s: Sys, next: Sys) {
    next.tickets == s.tickets && next.issued == s.issued
  }

  lemma StartTickets(s: Sys, step: Step)
    requires step.StartReserve? || step.StartSettle? || step.Incoming?
    ensures SameTickets(s, Do(s, step))
  {
  }

  lemma AnswerTickets(s: Sys, step: Step)
    requires step.AnswerClaim? || step.RejectClaim? || step.AnswerEnter? || step.AnswerSignal?
    ensures SameTickets(s, Do(s, step))
  {
  }

  lemma CallbackTickets(s: Sys, step: Step)
    requires step.PhaseChange? || step.PeerAccept? || step.AllowAudio? || step.BridgeClose?
    ensures SameTickets(s, Do(s, step))
  {
  }

  lemma LockTickets(s: Sys, step: Step)
    requires step.HoldOp? || step.DropOp? || step.Bind?
    ensures SameTickets(s, Do(s, step))
  {
  }

  lemma AsideTickets(s: Sys, step: Step)
    requires step.RegisterOwner? || step.Attach? || step.Detach?
      || step.Unlist? || step.SendSignal?
    ensures SameTickets(s, Do(s, step))
  {
  }

  lemma PlainTickets(s: Sys, step: Step)
    requires !EndsCalls(step) && !step.IssueTicket? && !step.ConsumeTicket? && !step.ReleaseOwner?
    ensures SameTickets(s, Do(s, step))
  {
    if step.StartReserve? || step.StartSettle? || step.Incoming? {
      StartTickets(s, step);
    } else if step.AnswerClaim? || step.RejectClaim? || step.AnswerEnter? || step.AnswerSignal? {
      AnswerTickets(s, step);
    } else if step.PhaseChange? || step.PeerAccept? || step.AllowAudio? || step.BridgeClose? {
      CallbackTickets(s, step);
    } else if step.HoldOp? || step.DropOp? || step.Bind? {
      LockTickets(s, step);
    } else {
      AsideTickets(s, step);
    }
  }

  lemma EndTickets(s: Sys, t: Tid, q: RecId, signal: bool, k: Token)
    requires q in s.recs && k in s.issued
    ensures var next := EndCall(s, t, q, signal);
      && k in next.issued
      && (k in next.tickets <==> k in s.tickets && !Ends(s, next, s.tickets[k].r))
      && (k in next.tickets ==> next.tickets[k] == s.tickets[k])
  {
  }

  lemma EndOwedTickets(s: Sys, t: Tid, u: Tid, k: Token)
    requires k in s.issued
    ensures TicketKept(s, EndOwed(t, u), Do(s, EndOwed(t, u)), k)
  {
    if t in s.threads && s.threads[t].Owing? && s.threads[t].r in s.recs {
      EndTickets(s.(threads := s.threads - {t}), u, s.threads[t].r, s.threads[t].tell, k);
    }
  }

  lemma ReleaseNextTickets(s: Sys, t: Tid, u: Tid, q: RecId, k: Token)
    requires k in s.issued
    ensures TicketKept(s, ReleaseNext(t, u, q), Do(s, ReleaseNext(t, u, q)), k)
  {
    if t in s.threads && s.threads[t].Releasing? && q in s.recs {
      EndTickets(s.(threads := s.threads[t := Releasing(s.threads[t].todo - {q})]), u, q, true, k);
    }
  }

  lemma EndingTickets(s: Sys, step: Step, k: Token)
    requires EndsCalls(step) && k in s.issued
    ensures TicketKept(s, step, Do(s, step), k)
  {
    match step
    case End(t, q, signal) => if q in s.recs { EndTickets(s, t, q, signal, k); }
    case EndOwed(t, u) => EndOwedTickets(s, t, u, k);
    case ReleaseNext(t, u, q) => ReleaseNextTickets(s, t, u, q, k);
    case _ =>
  }

  lemma IssueTickets(s: Sys, token: Token, q: RecId, owner: Owner, now: int, k: Token)
    requires k in s.issued
    ensures TicketKept(s, IssueTicket(token, q, owner, now), Do(s, IssueTicket(token, q, owner, now)), k)
  {
  }

  lemma ConsumeTickets(s: Sys, t: Tid, token: Token, now: int, k: Token)
    requires k in s.issued
    ensures TicketKept(s, ConsumeTicket(t, token, now), Do(s, ConsumeTicket(t, token, now)), k)
  {
  }

  lemma ReleaseTickets(s: Sys, t: Tid, owner: Owner, k: Token)
    requires k in s.issued
    ensures TicketKept(s, ReleaseOwner(t, owner), Do(s, ReleaseOwner(t, owner)), k)
  {
  }

  lemma TicketSteps(s: Sys, step: Step, k: Token)
    requires k in s.issued && (EndsCalls(step) || step.IssueTicket? || step.ConsumeTicket? || step.ReleaseOwner?)
    ensures TicketKept(s, step, Do(s, step), k)
  {
    match step
    case IssueTicket(token, q, owner, now) => IssueTickets(s, token, q, owner, now, k);
    case ConsumeTicket(t, token, now) => ConsumeTickets(s, t, token, now, k);
    case ReleaseOwner(t, owner) => ReleaseTickets(s, t, owner, k);
    case _ => EndingTickets(s, step, k);
  }

  lemma StepTickets(steps: seq<Step>, step: Step, k: Token)
    requires k in Run(steps).issued
    ensures TicketKept(Run(steps), step, Run(steps + [step]), k)
  {
    RunOneMore(steps, step);
    if EndsCalls(step) || step.IssueTicket? || step.ConsumeTicket? || step.ReleaseOwner? {
      TicketSteps(Run(steps), step, k);
    } else {
      PlainTickets(Run(steps), step);
      if k in Run(steps).tickets {
        InvAlways(steps);
        RunMoves(steps, step, Run(steps).tickets[k].r);
      }
    }
  }

  /** One of these steps spent the ticket k. */
  ghost predicate Spent(steps: seq<Step>, more: seq<Step>, k: Token, ticket: Ticket) {
    exists i :: 0 <= i < |more| && Spends(Run(steps + more[..i]), more[i], k, ticket)
  }

  lemma SpentGrows(steps: seq<Step>, more: seq<Step>, last: Step, k: Token, ticket: Ticket)
    ensures Spent(steps, more + [last], k, ticket) <==> Spent(steps, more, k, ticket) || Spends(Run(steps + more), last, k, ticket)
  {
    var all := more + [last];
    assert all[..|more|] == more && all[|more|] == last;
    assert forall i :: 0 <= i < |more| ==> all[..i] == more[..i] && all[i] == more[i];
  }

  /** The ticket, once issued for r, is there exactly if it was not spent and r lives. */
  ghost predicate TicketLasts(s: Sys, k: Token, ticket: Ticket, spent: bool) {
    && k in s.issued && ticket.r in s.recs
    && (k in s.tickets <==> !spent && s.recs[ticket.r].phase != Ended)
    && (k in s.tickets ==> s.tickets[k] == ticket)
  }

  lemma TicketLastsStep(steps: seq<Step>, step: Step, k: Token, ticket: Ticket, spent: bool)
    requires TicketLasts(Run(steps), k, ticket, spent)
    ensures TicketLasts(Run(steps + [step]), k, ticket, spent || Spends(Run(steps), step, k, ticket))
  {
    StepTickets(steps, step, k);
    RunMoves(steps, step, ticket.r);
  }

  lemma {:induction false} TicketStays(steps: seq<Step>, more: seq<Step>, k: Token, ticket: Ticket)
    requires TicketLasts(Run(steps), k, ticket, false)
    ensures TicketLasts(Run(steps + more), k, ticket, Spent(steps, more, k, ticket))
  {
    if more == [] {
      assert steps + more == steps;
    } else {
      var before, last := more[..|more| - 1], more[|more| - 1];
      assert steps + more == steps + before + [last] && more == before + [last];
      TicketStays(steps, before, k, ticket);
      TicketLastsStep(steps + before, last, k, ticket, Spent(steps, before, k, ticket));
      SpentGrows(steps, before, last, k, ticket);
    }
  }

  /** A ticket issued for a call that its session may use, and that has no connection yet, lets a
      connection through exactly if it comes less than thirty seconds later, the ticket has not been
      spent, the call lives, and its device is attached. */
  lemma {:induction false} TicketHoldsIff(steps: seq<Step>, k: Token, r: RecId, owner: Owner, now: int, more: seq<Step>, later: int)
    requires k !in Run(steps).issued && Found(Run(steps), r, owner, false) && Run(steps).recs[r].bound == 0
    ensures var issued := steps + [IssueTicket(k, r, owner, now)];
      var s := Run(issued + more);
      && r in s.recs
      && (TicketHolds(s, k, later) <==>
            && later < now + 30
            && !Spent(issued, more, k, Ticket(r, owner, now + 30))
            && s.recs[r].phase != Ended
            && s.Attached(s.recs[r].dev))
  {
    var issued := steps + [IssueTicket(k, r, owner, now)];
    assert issued[..|steps|] == steps;
    assert k in Run(issued).tickets && Run(issued).tickets[k] == Ticket(r, owner, now + 30);
    TicketStays(issued, more, k, Ticket(r, owner, now + 30));
    InvAlways(issued + more);
  }

  /** No other ticket lets anybody through: each was issued so. */
  lemma {:induction false} TicketWasIssued(steps: seq<Step>, k: Token)
    requires k in Run(steps).tickets
    ensures exists i, now :: 0 <= i < |steps| && Issues(steps, i, k, Run(steps).tickets[k], now)
  {
    var before, last := steps[..|steps| - 1], steps[|steps| - 1];
    assert steps == before + [last];
    if k in Run(before).issued {
      StepTickets(before, last, k);
      TicketWasIssued(before, k);
      var i, now :| 0 <= i < |before| && Issues(before, i, k, Run(before).tickets[k], now);
      assert before[..i] == steps[..i];
      assert Issues(steps, i, k, Run(steps).tickets[k], now);
    } else {
      IssuedNow(before, last, k);
      assert Issues(steps, |before|, k, Run(steps).tickets[k], last.now);
    }
  }

  ghost predicate Issues(steps: seq<Step>, i: nat, k: Token, ticket: Ticket, now: int)
    requires i < |steps|
  {
    && steps[i] == IssueTicket(k, ticket.r, ticket.owner, now) && ticket.expires == now + 30
    && Found(Run(steps[..i]), ticket.r, ticket.owner, false) && Run(steps[..i]).recs[ticket.r].bound == 0
  }

  lemma IssuedNow(steps: seq<Step>, step: Step, k: Token)
    requires k !in Run(steps).issued && k in Run(steps + [step]).tickets
    ensures step.IssueTicket? && step.token == k && Found(Run(steps), step.r, step.owner, false) && Run(steps).recs[step.r].bound == 0
    ensures Run(steps + [step]).tickets[k] == Ticket(step.r, step.owner, step.now + 30)
  {
    InvAlways(steps);
    assert (steps + [step])[..|steps|] == steps;
    if EndsCalls(step) || step.ConsumeTicket? || step.ReleaseOwner? {
      NoneIssued(Run(steps), step, k);
    } else if !step.IssueTicket? {
      PlainTickets(Run(steps), step);
    }
  }

  lemma NoneIssued(s: Sys, step: Step, k: Token)
    requires k !in s.tickets && (EndsCalls(step) || step.ConsumeTicket? || step.ReleaseOwner?)
    ensures k !in Do(s, step).tickets
  {
    if EndsCalls(step) {
      EndsIssueNone(s, step, k);
    }
  }

  lemma EndsIssueNone(s: Sys, step: Step, k: Token)
    requires k !in s.tickets && EndsCalls(step)
    ensures k !in Do(s, step).tickets
  {
  }

  // ---------- What the engine is told of an end ----------

  /** The goroutines that are still to tell the engine of the end of r. */
  ghost predicate SameTellers(before: map<Tid, Thread>, after: map<Tid, Thread>, r: RecId) {
    forall t, reject ::
      t in after && after[t] == Signalling(r, reject) <==> t in before && before[t] == Signalling(r, reject)
  }

  lemma StartCalm(s: Sys, step: Step, r: RecId)
    requires step.StartReserve? || step.StartSettle? || step.Incoming?
    ensures SameTellers(s.threads, Do(s, step).threads, r)
  {
  }

  lemma ClaimCalm(s: Sys, step: Step, r: RecId)
    requires step.AnswerClaim? || step.RejectClaim?
    ensures SameTellers(s.threads, Do(s, step).threads, r)
  {
  }

  lemma AnswerCalm(s: Sys, step: Step, r: RecId)
    requires step.AnswerEnter? || step.AnswerSignal?
    ensures SameTellers(s.threads, Do(s, step).threads, r)
  {
  }

  lemma CallbackCalm(s: Sys, step: Step, r: RecId)
    requires step.PhaseChange? || step.PeerAccept? || step.AllowAudio? || step.BridgeClose?
    ensures SameTellers(s.threads, Do(s, step).threads, r)
  {
  }

  lemma BindCalm(s: Sys, t: Tid, r: RecId)
    ensures SameTellers(s.threads, Do(s, Bind(t)).threads, r)
  {
  }

  lemma LockCalm(s: Sys, step: Step, r: RecId)
    requires step.HoldOp? || step.DropOp?
    ensures SameTellers(s.threads, Do(s, step).threads, r)
  {
  }

  lemma AsideCalm(s: Sys, step: Step, r: RecId)
    requires step.RegisterOwner? || step.Attach? || step.Detach? || step.Unlist?
    ensures SameTellers(s.threads, Do(s, step).threads, r)
  {
  }

  lemma ConsumeCalm(s: Sys, t: Tid, token: Token, now: int, r: RecId)
    ensures SameTellers(s.threads, Do(s, ConsumeTicket(t, token, now)).threads, r)
  {
  }

  lemma IssueCalm(s: Sys, token: Token, q: RecId, owner: Owner, now: int)
    ensures Do(s, IssueTicket(token, q, owner, now)).threads == s.threads
  {
  }

  lemma ReleaseCalm(s: Sys, t: Tid, owner: Owner, r: RecId)
    ensures SameTellers(s.threads, Do(s, ReleaseOwner(t, owner)).threads, r)
  {
  }

  lemma SendTellers(s: Sys, t: Tid, r: RecId)
    requires t in s.threads && !(s.threads[t].Signalling? && s.threads[t].r == r)
    ensures SameTellers(s.threads, SendLast(s, t).threads, r)
  {
  }

  lemma EndTellers(s: Sys, t: Tid, q: RecId, signal: bool, r: RecId)
    requires q in s.recs && t !in s.threads && (q == r ==> s.recs[r].phase == Ended)
    ensures SameTellers(s.threads, EndCall(s, t, q, signal).threads, r)
  {
  }

  lemma EndOwedCalm(s: Sys, t: Tid, u: Tid, r: RecId)
    requires r in s.recs && s.recs[r].phase == Ended
    ensures SameTellers(s.threads, Do(s, EndOwed(t, u)).threads, r)
  {
    if t in s.threads && s.threads[t].Owing? && s.threads[t].r in s.recs && u !in s.threads {
      EndTellers(s.(threads := s.threads - {t}), u, s.threads[t].r, s.threads[t].tell, r);
    }
  }

  lemma ReleaseOneCalm(s: Sys, t: Tid, u: Tid, q: RecId, r: RecId)
    requires r in s.recs && s.recs[r].phase == Ended && t in s.threads && s.threads[t].Releasing? && u !in s.threads
    ensures SameTellers(s.threads, ReleaseOne(s, t, u, q).threads, r)
  {
    if q in s.threads[t].todo && q in s.recs {
      EndTellers(s.(threads := s.threads[t := Releasing(s.threads[t].todo - {q})]), u, q, true, r);
    }
  }

  lemma ReleaseNextCalm(s: Sys, t: Tid, u: Tid, q: RecId, r: RecId)
    requires r in s.recs && s.recs[r].phase == Ended
    ensures SameTellers(s.threads, Do(s, ReleaseNext(t, u, q)).threads, r)
  {
    if t in s.threads && s.threads[t].Releasing? && u !in s.threads {
      ReleaseOneCalm(s, t, u, q, r);
    }
  }

  lemma EndingCalm(s: Sys, step: Step, r: RecId)
    requires EndsCalls(step) && r in s.recs && s.recs[r].phase == Ended
    ensures SameTellers(s.threads, Do(s, step).threads, r)
  {
    match step
    case End(t, q, signal) => if t !in s.threads && q in s.recs { EndTellers(s, t, q, signal, r); }
    case EndOwed(t, u) => EndOwedCalm(s, t, u, r);
    case ReleaseNext(t, u, q) => ReleaseNextCalm(s, t, u, q, r);
    case _ =>
  }

  /** Until it is told, or does not concern r, nobody else comes to tell of the end of r. */
  lemma StepCalm(s: Sys, step: Step, r: RecId)
    requires r in s.recs && s.recs[r].phase == Ended
    requires !(step.SendSignal? && step.t in s.threads && s.threads[step.t].Signalling? && s.threads[step.t].r == r)
    ensures SameTellers(s.threads, Do(s, step).threads, r)
  {
    if EndsCalls(step) {
      EndingCalm(s, step, r);
    } else if step.SendSignal? {
      if step.t in s.threads {
        SendTellers(s, step.t, r);
      }
    } else if step.StartReserve? || step.StartSettle? || step.Incoming? {
      StartCalm(s, step, r);
    } else if step.AnswerClaim? || step.RejectClaim? {
      ClaimCalm(s, step, r);
    } else if step.AnswerEnter? || step.AnswerSignal? {
      AnswerCalm(s, step, r);
    } else if step.PhaseChange? || step.PeerAccept? || step.AllowAudio? || step.BridgeClose? {
      CallbackCalm(s, step, r);
    } else if step.HoldOp? || step.DropOp? {
      LockCalm(s, step, r);
    } else if step.Bind? {
      BindCalm(s, step.t, r);
    } else if step.IssueTicket? {
      IssueCalm(s, step.token, step.r, step.owner, step.now);
    } else if step.ReleaseOwner? {
      ReleaseCalm(s, step.t, step.owner, r);
    } else if step.ConsumeTicket? {
      ConsumeCalm(s, step.t, step.token, step.now, r);
    } else {
      AsideCalm(s, step, r);
    }
  }

  /** Of the call c nothing more is told, but an Answer perhaps. */
  ghost predicate SameEnds(s: Sys, next: Sys, c: Native) {
    c in s.trace ==>
      && c in next.trace
      && (RejectSent in next.trace[c] <==> RejectSent in s.trace[c])
      && (HangupSent in next.trace[c] <==> HangupSent in s.trace[c])
  }

  lemma StartEnds(s: Sys, step: Step, c: Native)
    requires step.StartReserve? || step.StartSettle? || step.Incoming?
    ensures SameEnds(s, Do(s, step), c)
  {
  }

  lemma AnswerEnds(s: Sys, step: Step, c: Native)
    requires step.AnswerClaim? || step.RejectClaim? || step.AnswerEnter? || step.AnswerSignal?
    ensures SameEnds(s, Do(s, step), c)
  {
  }

  lemma CallbackEnds(s: Sys, step: Step, c: Native)
    requires step.PhaseChange? || step.PeerAccept? || step.AllowAudio? || step.BridgeClose? || step.HoldOp? || step.DropOp? || step.Bind?
    ensures SameEnds(s, Do(s, step), c)
  {
  }

  lemma EndingEnds(s: Sys, step: Step, c: Native)
    requires EndsCalls(step) || step.ReleaseOwner?
    ensures SameEnds(s, Do(s, step), c)
  {
  }

  lemma AsideEnds(s: Sys, step: Step, c: Native)
    requires step.RegisterOwner? || step.Attach? || step.Detach? || step.Unlist? || step.IssueTicket? || step.ConsumeTicket?
    ensures SameEnds(s, Do(s, step), c)
  {
  }

  lemma StepEnds(s: Sys, step: Step, c: Native)
    requires !step.SendSignal?
    ensures SameEnds(s, Do(s, step), c)
  {
    if step.StartReserve? || step.StartSettle? || step.Incoming? {
      StartEnds(s, step, c);
    } else if step.AnswerClaim? || step.RejectClaim? || step.AnswerEnter? || step.AnswerSignal? {
      AnswerEnds(s, step, c);
    } else if step.PhaseChange? || step.PeerAccept? || step.AllowAudio? || step.BridgeClose? || step.HoldOp? || step.DropOp? || step.Bind? {
      CallbackEnds(s, step, c);
    } else if EndsCalls(step) || step.ReleaseOwner? {
      EndingEnds(s, step, c);
    } else {
      AsideEnds(s, step, c);
    }
  }

  /** Somebody is still to tell the engine that r has ended. */
  ghost predicate Telling(threads: map<Tid, Thread>, r: RecId, reject: bool) {
    exists t :: t in threads && threads[t] == Signalling(r, reject)
  }

  /** Of an ended call, with an end to be told or not: the right end has been told, or somebody is
      still to tell it, and the wrong one is never told. */
  ghost predicate EndTold(s: Sys, r: RecId, c: Native, reject: bool, tells: bool) {
    && r in s.recs && s.recs[r].phase == Ended && s.recs[r].call == Some(c) && c in s.trace
    && (if reject then HangupSent else RejectSent) !in s.trace[c]
    && !Telling(s.threads, r, !reject)
    && (Telling(s.threads, r, reject) ==> tells)
    && ((if reject then RejectSent else HangupSent) in s.trace[c] <==> tells && !Telling(s.threads, r, reject))
  }

  lemma SameStaysTold(s: Sys, next: Sys, r: RecId, c: Native, reject: bool, tells: bool)
    requires EndTold(s, r, c, reject, tells)
    requires SameTellers(s.threads, next.threads, r) && SameEnds(s, next, c)
    requires r in next.recs && next.recs[r].phase == Ended && next.recs[r].call == Some(c)
    ensures EndTold(next, r, c, reject, tells)
  {
    forall b: bool
      ensures Telling(next.threads, r, b) <==> Telling(s.threads, r, b)
    {
      if Telling(next.threads, r, b) {
        var t :| t in next.threads && next.threads[t] == Signalling(r, b);
        assert s.threads[t] == Signalling(r, b);
      }
      if Telling(s.threads, r, b) {
        var t :| t in s.threads && s.threads[t] == Signalling(r, b);
        assert next.threads[t] == Signalling(r, b);
      }
    }
  }

  /** The end of another call is told. */
  lemma OtherIsTold(s: Sys, t: Tid, r: RecId, c: Native)
    requires Inv(s) && r in s.recs && s.recs[r].call == Some(c) && t in s.threads
    requires !(s.threads[t].Signalling? && s.threads[t].r == r)
    ensures SameEnds(s, SendLast(s, t), c)
  {
    assert CallInv(s.recs, s.threads, s.trace);
  }

  /** Its own end is told. */
  lemma OwnIsTold(s: Sys, t: Tid, r: RecId, c: Native, reject: bool, tells: bool)
    requires Inv(s) && EndTold(s, r, c, reject, tells) && t in s.threads && s.threads[t].Signalling? && s.threads[t].r == r
    ensures EndTold(SendLast(s, t), r, c, reject, tells)
  {
    var next := SendLast(s, t);
    assert s.threads[t] == Signalling(r, reject) by {
      assert s.threads[t] == Signalling(r, s.threads[t].reject);
    }
    if next != s {
      assert next.threads == s.threads - {t};
      assert next.trace[c] == s.trace[c] + [if reject then RejectSent else HangupSent];
      assert forall u :: u in s.threads && u != t ==> !Rivals(s.threads[u], s.threads[t]);
    }
  }

  lemma ToldStep(steps: seq<Step>, step: Step, r: RecId, c: Native, reject: bool, tells: bool)
    requires EndTold(Run(steps), r, c, reject, tells)
    ensures EndTold(Run(steps + [step]), r, c, reject, tells)
  {
    var s := Run(steps);
    InvAlways(steps);
    RunOneMore(steps, step);
    RunMoves(steps, step, r);
    if !step.SendSignal? {
      StepCalm(s, step, r);
      StepEnds(s, step, c);
      SameStaysTold(s, Do(s, step), r, c, reject, tells);
    } else if step.t !in s.threads {
    } else if s.threads[step.t].Signalling? && s.threads[step.t].r == r {
      OwnIsTold(s, step.t, r, c, reject, tells);
    } else {
      StepCalm(s, step, r);
      OtherIsTold(s, step.t, r, c);
      SameStaysTold(s, Do(s, step), r, c, reject, tells);
    }
  }

  /** The engine is to be told of the end that comes with this step. */
  predicate Tells(s: Sys, step: Step) {
    match step
    case End(_, _, signal) => signal
    case EndOwed(t, _) => t in s.threads && s.threads[t].Owing? && s.threads[t].tell
    case ReleaseNext(_, _, _) => true
    case _ => false
  }

  lemma EndIsOwed(s: Sys, t: Tid, r: RecId, signal: bool, c: Native)
    requires r in s.recs && s.recs[r].phase != Ended && s.recs[r].call == Some(c) && t !in s.threads && c in s.trace
    requires RejectSent !in s.trace[c] && HangupSent !in s.trace[c]
    requires forall u :: u in s.threads ==> !(s.threads[u].Signalling? && s.threads[u].r == r)
    ensures EndTold(EndCall(s, t, r, signal), r, c, s.recs[r].incoming && s.recs[r].phase == Ringing, signal)
  {
    var next := EndCall(s, t, r, signal);
    var reject := s.recs[r].incoming && s.recs[r].phase == Ringing;
    if signal {
      assert next.threads == s.threads[t := Signalling(r, reject)];
      assert next.threads[t] == Signalling(r, reject);
    } else {
      assert next.threads == s.threads;
    }
  }

  lemma EndedOther(s: Sys, t: Tid, q: RecId, signal: bool, r: RecId)
    requires q in s.recs && r in s.recs && EndCall(s, t, q, signal).recs[r].phase == Ended && s.recs[r].phase != Ended
    ensures q == r
  {
  }

  /** The end of r, in whichever of the three ways. */
  lemma EndingIsOwed(s: Sys, step: Step, r: RecId, c: Native)
    requires r in s.recs && s.recs[r].phase != Ended && s.recs[r].call == Some(c) && c in s.trace
    requires RejectSent !in s.trace[c] && HangupSent !in s.trace[c]
    requires forall u :: u in s.threads ==> !(s.threads[u].Signalling? && s.threads[u].r == r)
    requires EndsCalls(step) && r in Do(s, step).recs && Do(s, step).recs[r].phase == Ended
    ensures EndTold(Do(s, step), r, c, s.recs[r].incoming && s.recs[r].phase == Ringing, Tells(s, step))
  {
    match step
    case End(t, q, signal) =>
      EndedOther(s, t, q, signal, r);
      EndIsOwed(s, t, r, signal, c);
    case EndOwed(t, u) =>
      var left := s.(threads := s.threads - {t});
      EndedOther(left, u, s.threads[t].r, s.threads[t].tell, r);
      EndIsOwed(left, u, r, s.threads[t].tell, c);
    case ReleaseNext(t, u, q) =>
      var left := s.(threads := s.threads[t := Releasing(s.threads[t].todo - {q})]);
      EndedOther(left, u, q, true, r);
      EndIsOwed(left, u, r, true, c);
    case _ =>
  }

  lemma {:induction false} StaysTold(steps: seq<Step>, more: seq<Step>, r: RecId, c: Native, reject: bool, tells: bool)
    requires EndTold(Run(steps), r, c, reject, tells)
    ensures EndTold(Run(steps + more), r, c, reject, tells)
  {
    if more == [] {
      assert steps + more == steps;
    } else {
      var before, last := more[..|more| - 1], more[|more| - 1];
      assert steps + more == steps + before + [last];
      StaysTold(steps, before, r, c, reject, tells);
      ToldStep(steps + before, last, r, c, reject, tells);
    }
  }

  lemma LiveIsUntold(steps: seq<Step>, r: RecId, c: Native)
    requires r in Run(steps).recs && Run(steps).recs[r].phase != Ended && Run(steps).recs[r].call == Some(c)
    ensures var s := Run(steps);
      && c in s.trace && RejectSent !in s.trace[c] && HangupSent !in s.trace[c]
      && forall u :: u in s.threads ==> !(s.threads[u].Signalling? && s.threads[u].r == r)
  {
    InvAlways(steps);
    SignalsMatchLife(steps, r);
    assert forall u :: u in Run(steps).threads ==> ThreadInv(u, Run(steps).threads[u], Run(steps).recs);
  }

  /** Of a call that the step ended, ever after: Reject is told if it was incoming and ringing then, and
      Hangup otherwise, never the other; and it is told exactly if the end was to be told and nobody is
      still to tell it. */
  lemma {:induction false} EndIsTold(before: seq<Step>, step: Step, after: seq<Step>, r: RecId, c: Native)
    requires r in Run(before).recs && Run(before).recs[r].phase != Ended && Run(before).recs[r].call == Some(c)
    requires r in Run(before + [step]).recs && Run(before + [step]).recs[r].phase == Ended
    ensures var reject := Run(before).recs[r].incoming && Run(before).recs[r].phase == Ringing;
      var s := Run(before + [step] + after);
      && c in s.trace
      && (RejectSent in s.trace[c] <==> reject && Tells(Run(before), step) && !Telling(s.threads, r, true))
      && (HangupSent in s.trace[c] <==> !reject && Tells(Run(before), step) && !Telling(s.threads, r, false))
  {
    var s := Run(before);
    LiveIsUntold(before, r, c);
    RunOneMore(before, step);
    RunMoves(before, step, r);
    EndingIsOwed(s, step, r, c);
    StaysTold(before + [step], after, r, c, s.recs[r].incoming && s.recs[r].phase == Ringing, Tells(s, step));
  }

  /** An engine call without a record, one that Start cannot take or that rings at a busy or detached
      device, is told nothing until its own goroutine tells it that it is hung up or rejected. */
  lemma {:induction false} OrphanIsTold(steps: seq<Step>, t: Tid)
    requires t in Run(steps).threads && Run(steps).threads[t].Orphan?
    ensures var th, s := Run(steps).threads[t], Run(steps + [SendSignal(t)]);
      && th.signal != AnswerSent
      && th.c in Run(steps).trace && Run(steps).trace[th.c] == []
      && th.c in s.trace && s.trace[th.c] == [th.signal] && t !in s.threads
  {
    InvAlways(steps);
    RunOneMore(steps, SendSignal(t));
    assert CallInv(Run(steps).recs, Run(steps).threads, Run(steps).trace);
  }
}
