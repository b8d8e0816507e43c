/** The promises of the call service, for every interleaving. */
module CallProperties {
  import opened Wrappers
  import opened CallService
  import opened CallSafety

  /** Whatever the interleaving, an engine call is told at most one Answer, at most one Reject or
      Hangup, nothing after it, and no Answer if it is ever told Reject. */
  lemma {:induction false} SignalsInOrder(steps: seq<Step>, c: Native)
    requires c in Run(steps).trace
    ensures Orderly(Run(steps).trace[c])
  {
    InvAlways(steps);
  }

  /** And nothing is told of the end of a call that has not ended, nor an Answer of one that rings. */
  lemma {:induction false} SignalsMatchLife(steps: seq<Step>, r: RecId)
    requires r in Run(steps).recs && Run(steps).recs[r].call.Some?
    ensures var s := Run(steps);
      var rec := s.recs[r];
      && rec.call.value in s.trace
      && (rec.phase != Ended ==> RejectSent !in s.trace[rec.call.value] && HangupSent !in s.trace[rec.call.value])
      && (rec.phase == Ringing || !rec.incoming ==> AnswerSent !in s.trace[rec.call.value])
  {
    InvAlways(steps);
    var s := Run(steps);
    assert Signals(r, s.recs[r], s.trace[s.recs[r].call.value], s.threads);
  }

  // ---------- Life ----------

  /** The rank of the state never falls, an end is for good, the owner is written once, and so is the
      call: what a record has of it when Start has settled is final. */
  ghost predicate Advances(rec: Rec, next: Rec) {
    && rec.phase.Rank() <= next.phase.Rank()
    && (rec.owner.Some? ==> next.owner == rec.owner)
    && (rec.call.Some? ==> next.call == rec.call)
    && (!rec.pending ==> !next.pending && next.call == rec.call && next.id == rec.id)
    && next.dev == rec.dev && next.incoming == rec.incoming
    && (rec.answered ==> next.answered) && (rec.peerAccepted ==> next.peerAccepted) && (rec.bound <= next.bound)
  }

  ghost predicate RecordAdvances(s: Sys, next: Sys, r: RecId)
    requires r in s.recs
  {
    r in next.recs && Advances(s.recs[r], next.recs[r])
  }

  /** Neither what media has been seen changes, nor whether the call is active, nor whether it has ended. */
  ghost predicate Quiet(rec: Rec, next: Rec) {
    && next.mediaActive == rec.mediaActive
    && (next.phase == rec.phase || (rec.phase == Ringing && next.phase == Connecting))
  }

  ghost predicate RecordMoves(s: Sys, next: Sys, r: RecId)
    requires r in s.recs
  {
    RecordAdvances(s, next, r) && Quiet(s.recs[r], next.recs[r])
  }

  /** Nothing changes but that the call ends. */
  ghost predicate RecordEnds(s: Sys, next: Sys, r: RecId)
    requires r in s.recs
  {
    r in next.recs && (next.recs[r] == s.recs[r] || next.recs[r] == s.recs[r].(phase := Ended))
  }

  predicate EndsCalls(step: Step) {
    step.End? || step.EndOwed? || step.ReleaseNext?
  }

  /** What a step does to a record: one that ends calls, a phase change of r, any other. */
  ghost predicate StepTells(s: Sys, step: Step, next: Sys, r: RecId)
    requires r in s.recs
  {
    && RecordAdvances(s, next, r)
    && (EndsCalls(step) ==> RecordEnds(s, next, r))
    && (!EndsCalls(step) ==> (next.recs[r].phase == Ended <==> s.recs[r].phase == Ended))
    && (!EndsCalls(step) && !(step.PhaseChange? && step.r == r) ==> RecordMoves(s, next, r))
  }

  lemma SettleAdvances(s: Sys, t: Tid, u: Tid, result: Option<Native>, id: Option<CallId>, cancelled: bool, r: RecId)
    requires r in s.recs && t in s.threads && s.threads[t].Starting? && s.threads[t].r in s.recs
    requires s.threads[t].r == r ==> s.recs[r].call.None? && s.recs[r].pending
    ensures RecordMoves(s, Settle(s, t, u, result, id, cancelled), r)
  {
  }

  lemma WithAdvances(s: Sys, next: Sys, q: RecId, rec: Rec, r: RecId)
    requires r in s.recs && next.recs == s.recs[q := rec] && (q in s.recs ==> Advances(s.recs[q], rec) && Quiet(s.recs[q], rec))
    ensures RecordMoves(s, next, r)
  {
  }

  lemma EnterAdvances(s: Sys, t: Tid, q: RecId, owner: Owner, r: RecId)
    requires r in s.recs && q in s.recs
    ensures RecordMoves(s, EnterAnswer(s, t, q, owner), r)
  {
    var held := s.recs[q].(op := Some(t));
    assert EnterAnswer(s, t, q, owner).recs in {s.recs, s.recs[q := held]};
    WithAdvances(s, s.With(q, held), q, held, r);
  }

  lemma AnswerAdvances(s: Sys, t: Tid, q: RecId, ok: bool, r: RecId)
    requires r in s.recs && q in s.recs
    ensures RecordMoves(s, SendAnswer(s, t, q, ok), r)
  {
  }

  lemma ClaimAdvances(s: Sys, t: Tid, q: RecId, owner: Owner, r: RecId)
    requires r in s.recs
    ensures RecordMoves(s, ClaimAnswer(s, t, q, owner), r)
  {
    if Claimable(s, q, owner) {
      var claimed := s.recs[q].(owner := Some(owner), phase := Connecting);
      assert ClaimAnswer(s, t, q, owner).recs == s.recs[q := claimed];
      WithAdvances(s, ClaimAnswer(s, t, q, owner), q, claimed, r);
    } else {
      assert ClaimAnswer(s, t, q, owner) == s;
    }
  }

  lemma RejectAdvances(s: Sys, t: Tid, q: RecId, owner: Owner, r: RecId)
    requires r in s.recs
    ensures RecordMoves(s, ClaimReject(s, t, q, owner), r)
  {
    if Claimable(s, q, owner) {
      var claimed := s.recs[q].(owner := Some(owner));
      assert ClaimReject(s, t, q, owner).recs == s.recs[q := claimed];
      WithAdvances(s, ClaimReject(s, t, q, owner), q, claimed, r);
    } else {
      assert ClaimReject(s, t, q, owner) == s;
    }
  }

  lemma EndAdvances(s: Sys, t: Tid, q: RecId, signal: bool, r: RecId)
    requires r in s.recs && q in s.recs
    ensures RecordEnds(s, EndCall(s, t, q, signal), r)
  {
  }

  lemma EndOwedAdvances(s: Sys, t: Tid, u: Tid, r: RecId)
    requires r in s.recs
    ensures RecordEnds(s, Do(s, EndOwed(t, u)), r)
  {
    if t in s.threads && s.threads[t].Owing? && s.threads[t].r in s.recs {
      EndAdvances(s.(threads := s.threads - {t}), u, s.threads[t].r, s.threads[t].tell, r);
    }
  }

  lemma ReleaseNextAdvances(s: Sys, t: Tid, u: Tid, q: RecId, r: RecId)
    requires r in s.recs
    ensures RecordEnds(s, Do(s, ReleaseNext(t, u, q)), r)
  {
    if t in s.threads && s.threads[t].Releasing? && q in s.recs {
      EndAdvances(s.(threads := s.threads[t := Releasing(s.threads[t].todo - {q})]), u, q, true, r);
    }
  }

  lemma LockAdvances(s: Sys, t: Tid, q: RecId, op: Option<Tid>, r: RecId)
    requires r in s.recs
    ensures q in s.recs ==> RecordMoves(s, s.With(q, s.recs[q].(op := op)), r)
  {
  }

  lemma TakeAdvances(s: Sys, t: Tid, q: RecId, r: RecId)
    requires r in s.recs
    ensures RecordMoves(s, TakeOp(s, t, q), r) && RecordMoves(s, GiveOp(s, t, q), r)
  {
    LockAdvances(s, t, q, Some(t), r);
    LockAdvances(s, t, q, None, r);
    if q in s.recs {
      assert GiveOp(s, t, q).recs == s.With(q, s.recs[q].(op := None)).recs;
      assert s.recs[q].op.None? ==> TakeOp(s, t, q).recs == s.With(q, s.recs[q].(op := Some(t))).recs;
    }
  }

  lemma BindAdvances(s: Sys, t: Tid, q: RecId, r: RecId)
    requires r in s.recs
    ensures RecordMoves(s, BindMedia(s, t, q), r)
  {
    if q in s.recs {
      var rec := s.recs[q].(bound := s.recs[q].bound + 1);
      assert BindMedia(s, t, q).recs in {s.recs, s.recs[q := rec]};
      WithAdvances(s, s.With(q, rec), q, rec, r);
    }
  }

  lemma AcceptAdvances(s: Sys, q: RecId, r: RecId)
    requires r in s.recs
    ensures RecordMoves(s, Accepted(s, q), r)
  {
    if Accepted(s, q) != s {
      var rec := s.recs[q].(peerAccepted := true, audioDue := true);
      assert Accepted(s, q).recs == s.recs[q := rec];
      WithAdvances(s, Accepted(s, q), q, rec, r);
    }
  }

  lemma AudioAdvances(s: Sys, q: RecId, r: RecId)
    requires r in s.recs
    ensures RecordMoves(s, LetAudio(s, q), r)
  {
    if LetAudio(s, q) != s {
      var rec := s.recs[q].(audioEnabled := true);
      assert LetAudio(s, q).recs == s.recs[q := rec];
      WithAdvances(s, LetAudio(s, q), q, rec, r);
    }
  }

  lemma CloseAdvances(s: Sys, q: RecId, r: RecId)
    requires r in s.recs
    ensures RecordMoves(s, CloseBridge(s, q), r)
  {
    if CloseBridge(s, q) != s {
      var rec := s.recs[q].(bridgeClosed := true);
      assert CloseBridge(s, q).recs == s.recs[q := rec];
      WithAdvances(s, CloseBridge(s, q), q, rec, r);
    }
  }

  lemma PhaseAdvances(rec: Rec, phase: CallPhase)
    requires LocalInv(rec)
    ensures Advances(rec, ChangePhase(rec, phase))
    ensures ChangePhase(rec, phase).phase == Ended <==> rec.phase == Ended
  {
  }

  lemma PhaseStep(s: Sys, r: RecId, phase: CallPhase)
    ensures Do(s, PhaseChange(r, phase)).recs == if r in s.recs then s.recs[r := ChangePhase(s.recs[r], phase)] else s.recs
  {
  }

  lemma PhaseChangeAdvances(s: Sys, q: RecId, phase: CallPhase, r: RecId)
    requires r in s.recs && LocalInv(s.recs[r])
    ensures StepTells(s, PhaseChange(q, phase), Do(s, PhaseChange(q, phase)), r)
  {
    PhaseStep(s, q, phase);
    var next := Do(s, PhaseChange(q, phase));
    if q == r {
      PhaseAdvances(s.recs[r], phase);
      assert next.recs[r] == ChangePhase(s.recs[r], phase);
    } else {
      assert r in next.recs && next.recs[r] == s.recs[r];
    }
  }

  lemma CallbackAdvances(s: Sys, step: Step, r: RecId)
    requires r in s.recs && LocalInv(s.recs[r])
    requires step.PhaseChange? || step.PeerAccept? || step.AllowAudio? || step.BridgeClose?
    ensures StepTells(s, step, Do(s, step), r)
  {
    match step
    case PhaseChange(q, phase) => PhaseChangeAdvances(s, q, phase, r);
    case PeerAccept(q) => AcceptAdvances(s, q, r);
    case AllowAudio(q) => AudioAdvances(s, q, r);
    case BridgeClose(q) => CloseAdvances(s, q, r);
    case _ =>
  }

  lemma RequestAdvances(s: Sys, step: Step, r: RecId)
    requires r in s.recs && (step.AnswerClaim? || step.RejectClaim? || step.AnswerEnter? || step.AnswerSignal?)
    ensures RecordMoves(s, Do(s, step), r)
  {
    match step
    case AnswerClaim(t, q, owner) => ClaimAdvances(s, t, q, owner, r);
    case RejectClaim(t, q, owner) => RejectAdvances(s, t, q, owner, r);
    case AnswerEnter(t) =>
      if t in s.threads && s.threads[t].AnswerWaiting? && s.threads[t].r in s.recs {
        EnterAdvances(s, t, s.threads[t].r, s.threads[t].owner, r);
      }
    case AnswerSignal(t, ok) =>
      if t in s.threads && s.threads[t].AnswerHolding? && s.threads[t].r in s.recs {
        AnswerAdvances(s, t, s.threads[t].r, ok, r);
      }
    case _ =>
  }

  lemma EndingAdvances(s: Sys, step: Step, r: RecId)
    requires r in s.recs && EndsCalls(step)
    ensures RecordEnds(s, Do(s, step), r)
  {
    match step
    case End(t, q, signal) => if q in s.recs { EndAdvances(s, t, q, signal, r); }
    case EndOwed(t, u) => EndOwedAdvances(s, t, u, r);
    case ReleaseNext(t, u, q) => ReleaseNextAdvances(s, t, u, q, r);
    case _ =>
  }

  lemma ThreadAdvances(s: Sys, step: Step, r: RecId)
    requires r in s.recs && (step.HoldOp? || step.DropOp? || step.Bind?)
    ensures RecordMoves(s, Do(s, step), r)
  {
    match step
    case HoldOp(t, q) => TakeAdvances(s, t, q, r);
    case DropOp(t) => if t in s.threads && s.threads[t].Other? { TakeAdvances(s, t, s.threads[t].r, r); }
    case Bind(t) => if t in s.threads && s.threads[t].Binding? { BindAdvances(s, t, s.threads[t].r, r); }
    case _ =>
  }

  lemma MovingAdvances(s: Sys, step: Step, r: RecId)
    requires r in s.recs
    requires !EndsCalls(step) && !step.PhaseChange? && !step.PeerAccept? && !step.AllowAudio? && !step.BridgeClose?
    requires step.StartSettle? && step.t in s.threads && s.threads[step.t].Starting? && s.threads[step.t].r == r ==>
      s.recs[r].call.None? && s.recs[r].pending
    ensures RecordMoves(s, Do(s, step), r)
  {
    if step.StartSettle? {
      if step.t in s.threads && s.threads[step.t].Starting? && s.threads[step.t].r in s.recs {
        SettleAdvances(s, step.t, step.u, step.result, step.id, step.cancelled, r);
      }
    } else if step.AnswerClaim? || step.RejectClaim? || step.AnswerEnter? || step.AnswerSignal? {
      RequestAdvances(s, step, r);
    } else if step.HoldOp? || step.DropOp? || step.Bind? {
      ThreadAdvances(s, step, r);
    } else {
      PlainAdvances(s, step, r);
    }
  }

  lemma MovesTell(s: Sys, step: Step, next: Sys, r: RecId)
    requires r in s.recs
    requires if EndsCalls(step) then RecordEnds(s, next, r) else RecordMoves(s, next, r)
    ensures StepTells(s, step, next, r)
  {
  }

  lemma StepAdvances(s: Sys, step: Step, r: RecId)
    requires r in s.recs && LocalInv(s.recs[r])
    requires step.StartSettle? && step.t in s.threads && s.threads[step.t].Starting? && s.threads[step.t].r == r ==>
      s.recs[r].call.None? && s.recs[r].pending
    ensures StepTells(s, step, Do(s, step), r)
  {
    if step.PhaseChange? || step.PeerAccept? || step.AllowAudio? || step.BridgeClose? {
      CallbackAdvances(s, step, r);
    } else if EndsCalls(step) {
      EndingAdvances(s, step, r);
      MovesTell(s, step, Do(s, step), r);
    } else {
      MovingAdvances(s, step, r);
      MovesTell(s, step, Do(s, step), r);
    }
  }

  lemma PlainAdvances(s: Sys, step: Step, r: RecId)
    requires r in s.recs
    requires step.StartReserve? || step.Incoming? || step.IssueTicket? || step.ConsumeTicket? || step.RegisterOwner? || step.Attach?
      || step.Detach? || step.SendSignal? || step.ReleaseOwner? || step.Unlist?
    ensures RecordMoves(s, Do(s, step), r)
  {
    if step.StartReserve? || step.Incoming? {
      NewAdvances(s, step, r);
    } else if step.IssueTicket? || step.ConsumeTicket? {
      TicketAdvances(s, step, r);
    } else if step.RegisterOwner? || step.Attach? || step.Detach? {
      DeviceAdvances(s, step, r);
    } else {
      OtherAdvances(s, step, r);
    }
  }

  lemma NewAdvances(s: Sys, step: Step, r: RecId)
    requires r in s.recs && (step.StartReserve? || step.Incoming?)
    ensures RecordMoves(s, Do(s, step), r)
  {
    assert r in Do(s, step).recs && Do(s, step).recs[r] == s.recs[r];
  }

  lemma IssueKeepsRecs(s: Sys, token: Token, q: RecId, owner: Owner, now: int)
    ensures Issue(s, token, q, owner, now).recs == s.recs
  {
  }

  lemma ConsumeKeepsRecs(s: Sys, t: Tid, token: Token, now: int)
    ensures Consume(s, t, token, now).recs == s.recs
  {
  }

  lemma TicketAdvances(s: Sys, step: Step, r: RecId)
    requires r in s.recs && (step.IssueTicket? || step.ConsumeTicket?)
    ensures RecordMoves(s, Do(s, step), r)
  {
    match step
    case IssueTicket(token, q, owner, now) => IssueKeepsRecs(s, token, q, owner, now);
    case ConsumeTicket(t, token, now) => ConsumeKeepsRecs(s, t, token, now);
    case _ =>
  }

  lemma DeviceAdvances(s: Sys, step: Step, r: RecId)
    requires r in s.recs && (step.RegisterOwner? || step.Attach? || step.Detach?)
    ensures RecordMoves(s, Do(s, step), r)
  {
    assert Do(s, step).recs == s.recs;
  }

  lemma OtherAdvances(s: Sys, step: Step, r: RecId)
    requires r in s.recs && (step.SendSignal? || step.ReleaseOwner? || step.Unlist?)
    ensures RecordMoves(s, Do(s, step), r)
  {
    assert Do(s, step).recs == s.recs;
  }

  lemma RunOneMore(steps: seq<Step>, step: Step)
    ensures Run(steps + [step]) == Do(Run(steps), step)
  {
    assert (steps + [step])[..|steps|] == steps;
  }

  lemma RunMoves(steps: seq<Step>, step: Step, r: RecId)
    requires r in Run(steps).recs
    ensures StepTells(Run(steps), step, Run(steps + [step]), r)
  {
    var s := Run(steps);
    assert (steps + [step])[..|steps|] == steps;
    InvAlways(steps);
    assert LocalInv(s.recs[r]);
    if step.StartSettle? && step.t in s.threads && s.threads[step.t].Starting? {
      StarterHolds(s, step.t);
    }
    StepAdvances(s, step, r);
  }

  lemma {:induction false} LifeOnlyAdvances(steps: seq<Step>, more: seq<Step>, r: RecId)
    requires r in Run(steps).recs
    ensures RecordAdvances(Run(steps), Run(steps + more), r)
  {
    if more == [] {
      assert steps + more == steps;
    } else {
      var before, last := more[..|more| - 1], more[|more| - 1];
      LifeOnlyAdvances(steps, before, r);
      assert steps + more == steps + before + [last];
      RunMoves(steps + before, last, r);
    }
  }

  /** A call is active only with media, and once claimed or, outgoing, accepted by the peer. */
  lemma {:induction false} ActiveMeansAccepted(steps: seq<Step>, r: RecId)
    requires r in Run(steps).recs && Run(steps).recs[r].phase == Active
    ensures var rec := Run(steps).recs[r];
      rec.mediaActive && if rec.incoming then rec.owner.Some? else rec.peerAccepted
  {
    InvAlways(steps);
    assert LocalInv(Run(steps).recs[r]);
  }

  // ---------- Reservation ----------

  /** A live call, or a reservation for one that Start has not returned from. */
  predicate Occupies(rec: Rec) {
    rec.pending || (rec.phase != Ended && rec.call.Some?)
  }

  /** A device has one of these at most, and it is the one that holds the device. */
  lemma {:induction false} OneLiveCall(steps: seq<Step>, r: RecId, q: RecId)
    requires r in Run(steps).recs && q in Run(steps).recs
    requires var s := Run(steps);
      s.recs[r].dev == s.recs[q].dev && Occupies(s.recs[r]) && Occupies(s.recs[q])
    ensures r == q && Run(steps).recs[r].dev in Run(steps).active && Run(steps).active[Run(steps).recs[r].dev] == r
  {
    InvAlways(steps);
  }

  /** No ended call keeps a device once its Start has returned. */
  lemma {:induction false} EndedCallsLetGo(steps: seq<Step>, d: DevId)
    requires d in Run(steps).active
    ensures var s := Run(steps);
      && s.active[d] in s.recs && s.recs[s.active[d]].dev == d
      && (s.recs[s.active[d]].phase == Ended ==> s.recs[s.active[d]].pending)
  {
    InvAlways(steps);
  }

  // ---------- Tickets and media ----------

  /** A ticket is for a live record and the live session that owns it, and a record has one at most. */
  lemma {:induction false} TicketsAreOwned(steps: seq<Step>, k: Token, l: Token)
    requires k in Run(steps).tickets
    ensures var s := Run(steps);
      var ticket := s.tickets[k];
      && ticket.owner in s.owners && ticket.r in s.recs
      && s.recs[ticket.r].phase != Ended && s.recs[ticket.r].owner == Some(ticket.owner)
      && (l in s.tickets && s.tickets[l].r == ticket.r ==> l == k)
  {
    InvAlways(steps);
  }

  lemma RequestsConsumeNothing(s: Sys, step: Step)
    requires step.StartReserve? || step.StartSettle? || step.Incoming? || step.AnswerClaim? || step.AnswerEnter? || step.AnswerSignal?
      || step.RejectClaim? || step.End?
    ensures Do(s, step).consumed == s.consumed
  {
  }

  lemma ConsumedGrows(s: Sys, step: Step)
    ensures s.consumed <= Do(s, step).consumed
  {
    if step.StartReserve? || step.StartSettle? || step.Incoming? || step.AnswerClaim? || step.AnswerEnter? || step.AnswerSignal?
      || step.RejectClaim? || step.End? {
      RequestsConsumeNothing(s, step);
    }
  }

  lemma {:induction false} ConsumedForGood(steps: seq<Step>, more: seq<Step>, k: Token)
    requires k in Run(steps).consumed
    ensures k in Run(steps + more).consumed
  {
    if more == [] {
      assert steps + more == steps;
    } else {
      ConsumedForGood(steps, more[..|more| - 1], k);
      assert (steps + more)[..|steps + more| - 1] == steps + more[..|more| - 1];
      ConsumedGrows(Run(steps + more[..|more| - 1]), more[|more| - 1]);
    }
  }

  /** A token that let a connection through lets no other through, at whatever time, ever after. */
  lemma TokenOnce(steps: seq<Step>, t: Tid, k: Token, now: int, more: seq<Step>, later: int)
    requires t !in Run(steps).threads && TicketHolds(Run(steps), k, now)
    ensures !TicketHolds(Run(steps + [ConsumeTicket(t, k, now)] + more), k, later)
  {
    var used := steps + [ConsumeTicket(t, k, now)];
    assert used[..|used| - 1] == steps;
    ConsumedForGood(used, more, k);
    InvAlways(used + more);
  }

  /** However many connections hold a ticket's record, one at most is ever bound. */
  lemma {:induction false} OneMediaConnection(steps: seq<Step>, r: RecId)
    requires r in Run(steps).recs
    ensures Run(steps).recs[r].bound <= 1
  {
    InvAlways(steps);
    assert LocalInv(Run(steps).recs[r]);
  }

  /** No audio before the call was answered, or accepted by the peer. */
  lemma {:induction false} AudioAfterAcceptance(steps: seq<Step>, r: RecId)
    requires r in Run(steps).recs && Run(steps).recs[r].audioEnabled
    ensures var rec := Run(steps).recs[r]; if rec.incoming then rec.answered else rec.peerAccepted
  {
    InvAlways(steps);
    assert LocalInv(Run(steps).recs[r]);
  }
}
