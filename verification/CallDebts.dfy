/** What the call service still owes: whoever fails to start or to answer a call, rejects one, detaches
    a device or ends a session is left to end the calls it leaves, and until it has, it has not returned. */
module CallDebts {
  import opened Wrappers
  import opened CallService
  import opened CallSafety
  import opened CallProperties

  /** The goroutine is still to end the call. */
  predicate OwesEnd(th: Thread, r: RecId) {
    (th.Owing? && th.r == r) || (th.Releasing? && r in th.todo)
  }

  ghost predicate Owed(threads: map<Tid, Thread>, r: RecId) {
    exists t :: t in threads && OwesEnd(threads[t], r)
  }

  ghost predicate Begun(threads: map<Tid, Thread>, r: RecId) {
    exists t :: t in threads && threads[t].Starting? && threads[t].r == r
  }

  /** Start has the engine's result, and no call. */
  predicate Failed(rec: Rec) {
    !rec.incoming && !rec.pending && rec.call.None?
  }

  /** The engine was told to answer, and could not. */
  predicate Unanswered(rec: Rec, trace: map<Native, seq<Signal>>) {
    rec.incoming && !rec.answered && rec.call.Some? && rec.call.value in trace && AnswerSent in trace[rec.call.value]
  }

  /** Its session is over. */
  predicate Abandoned(rec: Rec, owners: set<Owner>) {
    rec.owner.Some? && rec.owner.value !in owners
  }

  /** A live call that must be ended. */
  predicate Due(rec: Rec, trace: map<Native, seq<Signal>>, owners: set<Owner>) {
    rec.phase != Ended && (Failed(rec) || Unanswered(rec, trace) || Abandoned(rec, owners))
  }

  /** Somebody owes every end that is due, a pending call has its Start, and live calls are listed. */
  ghost predicate DebtAt(s: Sys, r: RecId) {
    r in s.recs ==>
      && (Due(s.recs[r], s.trace, s.owners) ==> Owed(s.threads, r))
      && (s.recs[r].pending ==> Begun(s.threads, r))
      && (s.recs[r].phase != Ended ==> r in s.listed)
  }

  ghost predicate DebtInv(s: Sys) {
    forall r :: r in s.recs ==> DebtAt(s, r)
  }

  /** Goroutines that come, or go and owe nothing of r. */
  ghost predicate StillThere(threads: map<Tid, Thread>, after: map<Tid, Thread>, r: RecId) {
    forall t :: t in threads && (OwesEnd(threads[t], r) || (threads[t].Starting? && threads[t].r == r)) ==>
      t in after && after[t] == threads[t]
  }

  lemma OwedStays(threads: map<Tid, Thread>, after: map<Tid, Thread>, r: RecId)
    requires StillThere(threads, after, r)
    ensures Owed(threads, r) ==> Owed(after, r)
    ensures Begun(threads, r) ==> Begun(after, r)
  {
    if Owed(threads, r) {
      var t :| t in threads && OwesEnd(threads[t], r);
      assert OwesEnd(after[t], r);
    }
    if Begun(threads, r) {
      var t :| t in threads && threads[t].Starting? && threads[t].r == r;
      assert after[t].Starting? && after[t].r == r;
    }
  }

  /** A step that makes nothing due, and takes no debtor of r away. */
  lemma DebtStays(s: Sys, next: Sys, r: RecId)
    requires DebtAt(s, r) && r in s.recs && r in next.recs && StillThere(s.threads, next.threads, r)
    requires Due(next.recs[r], next.trace, next.owners) ==> Due(s.recs[r], s.trace, s.owners)
    requires (next.recs[r].pending ==> s.recs[r].pending) && (next.recs[r].phase != Ended ==> s.recs[r].phase != Ended)
    requires s.listed <= next.listed
    ensures DebtAt(next, r)
  {
    OwedStays(s.threads, next.threads, r);
  }

  /** Changes in place, as ChangeRec allows them, with a goroutine more or one less that owes nothing. */
  lemma InPlaceDebts(s: Sys, next: Sys, q: RecId, rec: Rec, r: RecId)
    requires DebtAt(s, r) && r in s.recs && q in s.recs && StillThere(s.threads, next.threads, r)
    requires next.recs == s.recs[q := rec] && Alike(s.recs[q], rec) && next.trace == s.trace && next.owners == s.owners && next.listed == s.listed
    requires (s.recs[q].answered ==> rec.answered) && rec.owner == s.recs[q].owner
    ensures DebtAt(next, r)
  {
    DebtStays(s, next, r);
  }

  lemma LockedDebts(s: Sys, next: Sys, q: RecId, op: Option<Tid>, r: RecId)
    requires DebtAt(s, r) && r in s.recs && q in s.recs && StillThere(s.threads, next.threads, r)
    requires next.recs == s.recs[q := s.recs[q].(op := op)] && next.trace == s.trace && next.owners == s.owners && next.listed == s.listed
    ensures DebtAt(next, r)
  {
    InPlaceDebts(s, next, q, s.recs[q].(op := op), r);
  }

  lemma SameRecsDebts(s: Sys, next: Sys, r: RecId)
    requires DebtAt(s, r) && r in s.recs && StillThere(s.threads, next.threads, r)
    requires next.recs == s.recs && next.trace == s.trace && s.owners <= next.owners && next.listed == s.listed
    ensures DebtAt(next, r)
  {
    OwedStays(s.threads, next.threads, r);
  }

  // ---------- Start ----------

  lemma ReserveDebts(s: Sys, t: Tid, q: RecId, d: DevId, owner: Owner, r: RecId)
    requires DebtAt(s, r) && t !in s.threads && q !in s.recs
    ensures DebtAt(Reserve(s, t, q, d, owner), r)
  {
    var next := Reserve(s, t, q, d, owner);
    if next != s {
      if r == q {
        assert next.threads[t] == Starting(q, owner);
      } else if r in s.recs {
        DebtStays(s, next, r);
      }
    }
  }

  /** A call that was given, or an end that is owed. */
  lemma SettledDebts(s: Sys, t: Tid, u: Tid, c: Option<Native>, id: Option<CallId>, cancelled: bool)
    requires t in s.threads && s.threads[t].Starting? && s.threads[t].r in s.recs && u !in s.threads
    requires DebtAt(s, s.threads[t].r)
    requires var rec := s.recs[s.threads[t].r]; !rec.incoming && rec.pending && rec.owner == Some(s.threads[t].owner)
    ensures DebtAt(Settle(s, t, u, c, id, cancelled), s.threads[t].r)
  {
    var next, r := Settle(s, t, u, c, id, cancelled), s.threads[t].r;
    if StillWanted(s, r, s.threads[t].owner, cancelled) && c.Some? {
      assert !Due(next.recs[r], next.trace, next.owners);
    } else {
      assert next.threads[t] == Owing(r, false);
      assert OwesEnd(next.threads[t], r);
    }
  }

  lemma SettleOtherDebts(s: Sys, t: Tid, u: Tid, c: Option<Native>, id: Option<CallId>, cancelled: bool, r: RecId)
    requires DebtAt(s, r) && t in s.threads && s.threads[t].Starting? && s.threads[t].r in s.recs && u !in s.threads
    requires r in s.recs && r != s.threads[t].r && (s.recs[r].call.Some? ==> s.recs[r].call.value in s.trace)
    requires c.Some? ==> c.value !in s.trace
    ensures DebtAt(Settle(s, t, u, c, id, cancelled), r)
  {
    var next := Settle(s, t, u, c, id, cancelled);
    if c.Some? {
      NewCallDue(s.recs[r], s.trace, s.owners, c.value);
    }
    OwedStays(s.threads, next.threads, r);
  }

  lemma SettleDebts(s: Sys, t: Tid, u: Tid, c: Option<Native>, id: Option<CallId>, cancelled: bool, r: RecId)
    requires Inv(s) && DebtAt(s, r) && t in s.threads && s.threads[t].Starting? && s.threads[t].r in s.recs && u !in s.threads
    requires c.Some? ==> c.value !in s.trace
    ensures DebtAt(Settle(s, t, u, c, id, cancelled), r)
  {
    assert ThreadInv(t, s.threads[t], s.recs);
    if r == s.threads[t].r {
      assert LocalInv(s.recs[r]);
      SettledDebts(s, t, u, c, id, cancelled);
    } else if r in s.recs {
      assert s.recs[r].call.Some? ==> s.recs[r].call.value in s.trace;
      SettleOtherDebts(s, t, u, c, id, cancelled, r);
    } else {
      assert r !in Settle(s, t, u, c, id, cancelled).recs;
    }
  }

  // ---------- Answer and Reject ----------

  lemma ClaimDebts(s: Sys, t: Tid, q: RecId, owner: Owner, r: RecId)
    requires DebtAt(s, r) && t !in s.threads
    ensures DebtAt(ClaimAnswer(s, t, q, owner), r)
  {
    if Claimable(s, q, owner) && r in s.recs {
      DebtStays(s, ClaimAnswer(s, t, q, owner), r);
    }
  }

  lemma RejectDebts(s: Sys, t: Tid, q: RecId, owner: Owner, r: RecId)
    requires DebtAt(s, r) && t !in s.threads
    ensures DebtAt(ClaimReject(s, t, q, owner), r)
  {
    if Claimable(s, q, owner) && r in s.recs {
      DebtStays(s, ClaimReject(s, t, q, owner), r);
    }
  }

  lemma EnterDebts(s: Sys, t: Tid, q: RecId, owner: Owner, r: RecId)
    requires DebtAt(s, r) && r in s.recs && q in s.recs && t in s.threads && s.threads[t].AnswerWaiting?
    ensures DebtAt(EnterAnswer(s, t, q, owner), r)
  {
    if s.recs[q].op.None? {
      if owner !in s.owners || s.recs[q].phase == Ended {
        SameRecsDebts(s, s.(threads := s.threads - {t}), r);
      } else {
        LockedDebts(s, s.With(q, s.recs[q].(op := Some(t))).(threads := s.threads[t := AnswerHolding(q, owner)]), q, Some(t), r);
      }
    }
  }

  lemma AnswerDebts(s: Sys, t: Tid, q: RecId, ok: bool, r: RecId)
    requires Inv(s) && DebtAt(s, r) && t in s.threads && s.threads[t].AnswerHolding? && s.threads[t].r == q && q in s.recs
    ensures DebtAt(SendAnswer(s, t, q, ok), r)
  {
    assert ThreadInv(t, s.threads[t], s.recs);
    if SendAnswer(s, t, q, ok) != s && r in s.recs {
      if r == q {
        OwnAnswerDebts(s, t, q, ok);
      } else {
        OtherAnswerDebts(s, t, q, ok, r);
      }
    }
  }

  lemma OwnAnswerDebts(s: Sys, t: Tid, q: RecId, ok: bool)
    requires DebtAt(s, q) && t in s.threads && s.threads[t].AnswerHolding? && q in s.recs && SendAnswer(s, t, q, ok) != s
    ensures DebtAt(SendAnswer(s, t, q, ok), q)
  {
    var next := SendAnswer(s, t, q, ok);
    if ok {
      DebtStays(s, next, q);
    } else {
      OwedStays(s.threads, next.threads, q);
      assert OwesEnd(next.threads[t], q);
    }
  }

  lemma OtherAnswerDebts(s: Sys, t: Tid, q: RecId, ok: bool, r: RecId)
    requires DebtAt(s, r) && t in s.threads && s.threads[t].AnswerHolding? && q in s.recs && r in s.recs && r != q
    requires SendAnswer(s, t, q, ok) != s && s.recs[r].call != s.recs[q].call
    ensures DebtAt(SendAnswer(s, t, q, ok), r)
  {
    DebtStays(s, SendAnswer(s, t, q, ok), r);
  }

  // ---------- Ends ----------

  lemma EndDebts(s: Sys, u: Tid, q: RecId, signal: bool, r: RecId)
    requires u !in s.threads && q in s.recs && r in s.recs && (r != q ==> DebtAt(s, r))
    requires s.recs[q].pending ==> Begun(s.threads, q)
    ensures DebtAt(EndCall(s, u, q, signal), r)
  {
    var next := EndCall(s, u, q, signal);
    if r != q {
      DebtStays(s, next, r);
    } else {
      OwedStays(s.threads, next.threads, r);
    }
  }

  /** A debtor gone, or one debt of it paid, is one that owes nothing of any other call. */
  lemma PaidDebts(s: Sys, t: Tid, after: map<Tid, Thread>, q: RecId, r: RecId)
    requires DebtAt(s, r) && r in s.recs && r != q && t in s.threads
    requires forall v :: v in s.threads && v != t ==> v in after && after[v] == s.threads[v]
    requires !s.threads[t].Starting?
    requires OwesEnd(s.threads[t], r) ==> t in after && OwesEnd(after[t], r)
    ensures DebtAt(s.(threads := after), r)
  {
    if Owed(s.threads, r) {
      var v :| v in s.threads && OwesEnd(s.threads[v], r);
      assert OwesEnd(after[v], r);
    }
    if Begun(s.threads, r) {
      var v :| v in s.threads && s.threads[v].Starting? && s.threads[v].r == r;
      assert after[v].Starting?;
    }
  }

  lemma BegunStays(s: Sys, t: Tid, after: map<Tid, Thread>, q: RecId)
    requires Begun(s.threads, q) && t in s.threads && !s.threads[t].Starting?
    requires forall v :: v in s.threads && v != t ==> v in after && after[v] == s.threads[v]
    ensures Begun(after, q)
  {
    var v :| v in s.threads && s.threads[v].Starting? && s.threads[v].r == q;
    assert after[v].Starting?;
  }

  lemma EndOwedDebts(s: Sys, t: Tid, u: Tid, r: RecId)
    requires DebtInv(s) && r in s.recs && t in s.threads && s.threads[t].Owing? && s.threads[t].r in s.recs && u !in s.threads
    ensures DebtAt(EndCall(s.(threads := s.threads - {t}), u, s.threads[t].r, s.threads[t].tell), r)
  {
    var q, after := s.threads[t].r, s.threads - {t};
    assert DebtAt(s, q) && DebtAt(s, r);
    if s.recs[q].pending {
      BegunStays(s, t, after, q);
    }
    if r != q {
      PaidDebts(s, t, after, q, r);
    }
    EndDebts(s.(threads := after), u, q, s.threads[t].tell, r);
  }

  lemma ReleaseNextDebts(s: Sys, t: Tid, u: Tid, q: RecId, r: RecId)
    requires DebtInv(s) && r in s.recs && t in s.threads && s.threads[t].Releasing? && u !in s.threads
    ensures DebtAt(ReleaseOne(s, t, u, q), r)
  {
    var todo := s.threads[t].todo;
    assert DebtAt(s, r);
    if todo == {} {
      DebtStays(s, s.(threads := s.threads - {t}), r);
    } else if q in todo && q in s.recs {
      var after := s.threads[t := Releasing(todo - {q})];
      assert DebtAt(s, q);
      if s.recs[q].pending {
        BegunStays(s, t, after, q);
      }
      if r != q {
        PaidDebts(s, t, after, q, r);
      }
      EndDebts(s.(threads := after), u, q, true, r);
    }
  }

  /** The end of a session leaves every live call of it to be ended. */
  lemma ReleaseDebts(s: Sys, t: Tid, owner: Owner, r: RecId)
    requires DebtAt(s, r) && r in s.recs && t !in s.threads
    ensures DebtAt(Release(s, t, owner), r)
  {
    var next := Release(s, t, owner);
    OwedStays(s.threads, next.threads, r);
    if s.recs[r].owner == Some(owner) && s.recs[r].phase != Ended {
      assert OwesEnd(next.threads[t], r);
    }
  }

  // ---------- Everything else ----------

  /** A call the engine has just made says nothing of any other. */
  lemma NewCallDue(rec: Rec, trace: map<Native, seq<Signal>>, owners: set<Owner>, c: Native)
    requires c !in trace && (rec.call.Some? ==> rec.call.value in trace)
    ensures Due(rec, trace[c := []], owners) <==> Due(rec, trace, owners)
  {
  }

  lemma RingDebts(s: Sys, t: Tid, q: RecId, d: DevId, c: Native, id: Option<CallId>, r: RecId)
    requires Inv(s) && DebtAt(s, r) && t !in s.threads && q !in s.recs && c !in s.trace
    ensures DebtAt(Ring(s, t, q, d, c, id), r)
  {
    if r in s.recs {
      assert s.recs[r].call.Some? ==> s.recs[r].call.value in s.trace;
      RingOtherDebts(s, t, q, d, c, id, r);
    }
  }

  lemma RingOtherDebts(s: Sys, t: Tid, q: RecId, d: DevId, c: Native, id: Option<CallId>, r: RecId)
    requires DebtAt(s, r) && r in s.recs && t !in s.threads && q !in s.recs && c !in s.trace
    requires s.recs[r].call.Some? ==> s.recs[r].call.value in s.trace
    ensures DebtAt(Ring(s, t, q, d, c, id), r)
  {
    NewCallDue(s.recs[r], s.trace, s.owners, c);
    OwedStays(s.threads, Ring(s, t, q, d, c, id).threads, r);
  }

  lemma SendDebts(s: Sys, t: Tid, r: RecId)
    requires DebtAt(s, r) && t in s.threads && r in s.recs
    requires s.threads[t].Orphan? ==> s.threads[t].signal != AnswerSent
    ensures DebtAt(SendLast(s, t), r)
  {
    DebtStays(s, SendLast(s, t), r);
  }

  lemma PhaseDebts(s: Sys, q: RecId, phase: CallPhase, r: RecId)
    requires DebtAt(s, r) && r in s.recs && q in s.recs && LocalInv(s.recs[q])
    ensures DebtAt(s.With(q, ChangePhase(s.recs[q], phase)), r)
  {
    ChangePhaseInPlace(s.recs[q], phase);
    InPlaceDebts(s, s.With(q, ChangePhase(s.recs[q], phase)), q, ChangePhase(s.recs[q], phase), r);
  }

  lemma AcceptDebts(s: Sys, q: RecId, r: RecId)
    requires DebtAt(s, r) && r in s.recs
    ensures DebtAt(Accepted(s, q), r)
  {
    if Accepted(s, q) != s {
      InPlaceDebts(s, Accepted(s, q), q, s.recs[q].(peerAccepted := true, audioDue := true), r);
    }
  }

  lemma AudioDebts(s: Sys, q: RecId, r: RecId)
    requires DebtAt(s, r) && r in s.recs
    ensures DebtAt(LetAudio(s, q), r)
  {
    if LetAudio(s, q) != s {
      InPlaceDebts(s, LetAudio(s, q), q, s.recs[q].(audioEnabled := true), r);
    }
  }

  lemma BridgeDebts(s: Sys, q: RecId, r: RecId)
    requires DebtAt(s, r) && r in s.recs
    ensures DebtAt(CloseBridge(s, q), r)
  {
    if CloseBridge(s, q) != s {
      InPlaceDebts(s, CloseBridge(s, q), q, s.recs[q].(bridgeClosed := true), r);
    }
  }

  lemma CallbackDebts(s: Sys, step: Step, r: RecId)
    requires Inv(s) && DebtAt(s, r) && r in s.recs
    requires step.PhaseChange? || step.PeerAccept? || step.AllowAudio? || step.BridgeClose?
    ensures DebtAt(Do(s, step), r)
  {
    match step
    case PhaseChange(q, phase) =>
      if q in s.recs {
        assert LocalInv(s.recs[q]);
        PhaseDebts(s, q, phase, r);
      }
    case PeerAccept(q) => AcceptDebts(s, q, r);
    case AllowAudio(q) => AudioDebts(s, q, r);
    case BridgeClose(q) => BridgeDebts(s, q, r);
    case _ =>
  }

  lemma TakeDebts(s: Sys, t: Tid, q: RecId, r: RecId)
    requires DebtAt(s, r) && r in s.recs && t !in s.threads
    ensures DebtAt(TakeOp(s, t, q), r)
  {
    if TakeOp(s, t, q) != s {
      LockedDebts(s, TakeOp(s, t, q), q, Some(t), r);
    }
  }

  lemma GiveDebts(s: Sys, t: Tid, q: RecId, r: RecId)
    requires DebtAt(s, r) && r in s.recs && t in s.threads && s.threads[t].Other?
    ensures DebtAt(GiveOp(s, t, q), r)
  {
    if q in s.recs {
      LockedDebts(s, GiveOp(s, t, q), q, None, r);
    }
  }

  lemma BindDebts(s: Sys, t: Tid, q: RecId, r: RecId)
    requires DebtAt(s, r) && r in s.recs && t in s.threads && s.threads[t].Binding?
    ensures DebtAt(BindMedia(s, t, q), r)
  {
    if q in s.recs {
      if s.recs[q].bridgeClosed || s.recs[q].bound > 0 {
        SameRecsDebts(s, BindMedia(s, t, q), r);
      } else {
        InPlaceDebts(s, BindMedia(s, t, q), q, s.recs[q].(bound := s.recs[q].bound + 1), r);
      }
    }
  }

  lemma LockDebts(s: Sys, step: Step, r: RecId)
    requires DebtAt(s, r) && r in s.recs && (step.HoldOp? || step.DropOp? || step.Bind?)
    ensures DebtAt(Do(s, step), r)
  {
    match step
    case HoldOp(t, q) => if t !in s.threads { TakeDebts(s, t, q, r); }
    case DropOp(t) => if t in s.threads && s.threads[t].Other? { GiveDebts(s, t, s.threads[t].r, r); }
    case Bind(t) => if t in s.threads && s.threads[t].Binding? { BindDebts(s, t, s.threads[t].r, r); }
    case _ =>
  }

  lemma DetachDebts(s: Sys, t: Tid, d: DevId, r: RecId)
    requires DebtAt(s, r) && r in s.recs && t !in s.threads
    ensures DebtAt(DetachDevice(s, t, d), r)
  {
    SameRecsDebts(s, DetachDevice(s, t, d), r);
  }

  lemma IssueDebts(s: Sys, token: Token, q: RecId, owner: Owner, now: int, r: RecId)
    requires DebtAt(s, r) && r in s.recs
    ensures DebtAt(Issue(s, token, q, owner, now), r)
  {
    SameRecsDebts(s, Issue(s, token, q, owner, now), r);
  }

  lemma ConsumeDebts(s: Sys, t: Tid, token: Token, now: int, r: RecId)
    requires DebtAt(s, r) && r in s.recs && t !in s.threads
    ensures DebtAt(Consume(s, t, token, now), r)
  {
    SameRecsDebts(s, Consume(s, t, token, now), r);
  }

  lemma TicketDebts(s: Sys, step: Step, r: RecId)
    requires DebtAt(s, r) && r in s.recs && (step.IssueTicket? || step.ConsumeTicket?)
    ensures DebtAt(Do(s, step), r)
  {
    match step
    case IssueTicket(token, q, owner, now) => IssueDebts(s, token, q, owner, now, r);
    case ConsumeTicket(t, token, now) => if t !in s.threads { ConsumeDebts(s, t, token, now, r); }
    case _ =>
  }

  lemma AsideDebts(s: Sys, step: Step, r: RecId)
    requires DebtAt(s, r) && r in s.recs && (step.RegisterOwner? || step.Attach? || step.Detach?)
    ensures DebtAt(Do(s, step), r)
  {
    match step
    case RegisterOwner(owner) => SameRecsDebts(s, s.(owners := s.owners + {owner}), r);
    case Attach(d, key) => SameRecsDebts(s, AttachDevice(s, d, key), r);
    case Detach(t, d) => if t !in s.threads { DetachDebts(s, t, d, r); }
    case _ =>
  }

  lemma UnlistDebts(s: Sys, q: RecId, r: RecId)
    requires DebtAt(s, r)
    ensures DebtAt(Do(s, Unlist(q)), r)
  {
  }

  lemma EndStepDebts(s: Sys, step: Step, r: RecId)
    requires DebtInv(s) && r in s.recs && (step.End? || step.EndOwed?)
    ensures DebtAt(Do(s, step), r)
  {
    assert DebtAt(s, r);
    match step
    case End(t, q, signal) =>
      if t !in s.threads && q in s.recs {
        assert DebtAt(s, q);
        EndDebts(s, t, q, signal, r);
      }
    case EndOwed(t, u) => if t in s.threads && s.threads[t].Owing? && s.threads[t].r in s.recs && u !in s.threads { EndOwedDebts(s, t, u, r); }
    case _ =>
  }

  lemma ReleaseStepDebts(s: Sys, step: Step, r: RecId)
    requires DebtInv(s) && r in s.recs && (step.ReleaseNext? || step.ReleaseOwner?)
    ensures DebtAt(Do(s, step), r)
  {
    assert DebtAt(s, r);
    match step
    case ReleaseNext(t, u, q) => if t in s.threads && s.threads[t].Releasing? && u !in s.threads { ReleaseNextDebts(s, t, u, q, r); }
    case ReleaseOwner(t, owner) => if t !in s.threads { ReleaseDebts(s, t, owner, r); }
    case _ =>
  }

  lemma StartStepDebts(s: Sys, step: Step, r: RecId)
    requires Inv(s) && DebtAt(s, r) && (step.StartReserve? || step.StartSettle? || step.Incoming?)
    ensures DebtAt(Do(s, step), r)
  {
    match step
    case StartReserve(t, q, d, owner) => if t !in s.threads && q !in s.recs { ReserveDebts(s, t, q, d, owner, r); }
    case StartSettle(t, u, c, id, cancelled) =>
      if t in s.threads && u !in s.threads && s.threads[t].Starting? && s.threads[t].r in s.recs && (c.Some? ==> c.value !in s.trace) {
        SettleDebts(s, t, u, c, id, cancelled, r);
      }
    case Incoming(t, q, d, c, id) => if t !in s.threads && q !in s.recs && c !in s.trace { RingDebts(s, t, q, d, c, id, r); }
    case _ =>
  }

  lemma AnswerStepDebts(s: Sys, step: Step, r: RecId)
    requires Inv(s) && DebtAt(s, r) && r in s.recs && (step.AnswerClaim? || step.AnswerEnter? || step.AnswerSignal? || step.RejectClaim?)
    ensures DebtAt(Do(s, step), r)
  {
    match step
    case AnswerClaim(t, q, owner) => if t !in s.threads { ClaimDebts(s, t, q, owner, r); }
    case RejectClaim(t, q, owner) => if t !in s.threads { RejectDebts(s, t, q, owner, r); }
    case AnswerEnter(t) =>
      if t in s.threads && s.threads[t].AnswerWaiting? && s.threads[t].r in s.recs { EnterDebts(s, t, s.threads[t].r, s.threads[t].owner, r); }
    case AnswerSignal(t, ok) =>
      if t in s.threads && s.threads[t].AnswerHolding? && s.threads[t].r in s.recs { AnswerDebts(s, t, s.threads[t].r, ok, r); }
    case _ =>
  }

  /** What a step leaves of the debts of a call that is there. */
  lemma StepDebts(s: Sys, step: Step, r: RecId)
    requires Inv(s) && DebtInv(s) && r in s.recs
    ensures DebtAt(Do(s, step), r)
  {
    assert DebtAt(s, r);
    if step.End? || step.EndOwed? {
      EndStepDebts(s, step, r);
    } else if step.ReleaseNext? || step.ReleaseOwner? {
      ReleaseStepDebts(s, step, r);
    } else if step.SendSignal? {
      if step.t in s.threads {
        SendDebts(s, step.t, r);
      }
    } else if step.PhaseChange? || step.PeerAccept? || step.AllowAudio? || step.BridgeClose? {
      CallbackDebts(s, step, r);
    } else if step.HoldOp? || step.DropOp? || step.Bind? {
      LockDebts(s, step, r);
    } else if step.IssueTicket? || step.ConsumeTicket? {
      TicketDebts(s, step, r);
    } else if step.RegisterOwner? || step.Attach? || step.Detach? {
      AsideDebts(s, step, r);
    } else if step.Unlist? {
      UnlistDebts(s, step.r, r);
    } else if step.StartReserve? || step.StartSettle? || step.Incoming? {
      StartStepDebts(s, step, r);
    } else {
      AnswerStepDebts(s, step, r);
    }
  }

  /** A new record is made by Start or by an incoming call. */
  lemma NewRecordDebts(s: Sys, step: Step, r: RecId)
    requires Inv(s) && r !in s.recs
    ensures DebtAt(Do(s, step), r)
  {
    if step.StartReserve? || step.StartSettle? || step.Incoming? {
      StartStepDebts(s, step, r);
    } else {
      NoneNew(s, step, r);
    }
  }

  lemma NoneNew(s: Sys, step: Step, r: RecId)
    requires r !in s.recs && !step.StartReserve? && !step.StartSettle? && !step.Incoming?
    ensures r !in Do(s, step).recs
  {
  }

  lemma {:induction false} DebtsAlways(steps: seq<Step>)
    ensures DebtInv(Run(steps))
  {
    if steps != [] {
      var before, step := steps[..|steps| - 1], steps[|steps| - 1];
      DebtsAlways(before);
      InvAlways(before);
      forall r | r in Run(steps).recs
        ensures DebtAt(Run(steps), r)
      {
        if r in Run(before).recs {
          StepDebts(Run(before), step, r);
        } else {
          NewRecordDebts(Run(before), step, r);
        }
      }
    }
  }

  // ---------- The promises ----------

  /** Nobody is at the call's Start, or still to end it. */
  ghost predicate Returned(s: Sys, r: RecId) {
    !Begun(s.threads, r) && !Owed(s.threads, r)
  }

  /** Once a Start without a call has returned, whichever of error, cancellation, session end or
      detaching came first, its record has ended and its device is free of it. */
  lemma {:induction false} FailedStartLetsGo(steps: seq<Step>, r: RecId)
    requires r in Run(steps).recs && !Run(steps).recs[r].incoming && Run(steps).recs[r].call.None? && Returned(Run(steps), r)
    ensures var s := Run(steps);
      s.recs[r].phase == Ended && !(s.recs[r].dev in s.active && s.active[s.recs[r].dev] == r)
  {
    DebtsAlways(steps);
    InvAlways(steps);
    assert DebtAt(Run(steps), r);
  }

  /** Once an Answer that the engine failed has returned, its call has ended. */
  lemma {:induction false} FailedAnswerEnds(steps: seq<Step>, r: RecId)
    requires r in Run(steps).recs && Unanswered(Run(steps).recs[r], Run(steps).trace) && Returned(Run(steps), r)
    ensures Run(steps).recs[r].phase == Ended
  {
    DebtsAlways(steps);
    assert DebtAt(Run(steps), r);
  }

  /** Once ReleaseOwner has returned, the session owns no live call, whatever came between. */
  lemma {:induction false} ReleasedOwnsNothing(steps: seq<Step>, r: RecId, owner: Owner)
    requires r in Run(steps).recs && Run(steps).recs[r].owner == Some(owner) && owner !in Run(steps).owners
    requires !Owed(Run(steps).threads, r)
    ensures Run(steps).recs[r].phase == Ended
  {
    DebtsAlways(steps);
    assert DebtAt(Run(steps), r);
  }

  // ---------- Who is left to end one call ----------

  /** Nobody else takes a debtor's debt away. */
  ghost predicate LeavesDebtor(s: Sys, next: Sys, t: Tid) {
    t in s.threads && s.threads[t].Owing? ==> t in next.threads && next.threads[t] == s.threads[t]
  }

  lemma RequestLeaves(s: Sys, step: Step, t: Tid)
    requires step.StartReserve? || step.StartSettle? || step.Incoming? || step.AnswerClaim? || step.AnswerEnter? || step.RejectClaim?
    ensures LeavesDebtor(s, Do(s, step), t)
  {
  }

  lemma EndLeaves(s: Sys, step: Step, t: Tid)
    requires step.End? || step.ReleaseNext? || step.ReleaseOwner? || step.Detach?
    ensures LeavesDebtor(s, Do(s, step), t)
  {
  }

  lemma SignalLeaves(s: Sys, step: Step, t: Tid)
    requires step.AnswerSignal? || step.SendSignal?
    ensures LeavesDebtor(s, Do(s, step), t)
  {
  }

  lemma LockLeaves(s: Sys, step: Step, t: Tid)
    requires step.HoldOp? || step.DropOp? || step.Bind?
    ensures LeavesDebtor(s, Do(s, step), t)
  {
  }

  lemma CallbackLeaves(s: Sys, step: Step, t: Tid)
    requires step.PhaseChange? || step.PeerAccept? || step.AllowAudio? || step.BridgeClose?
    ensures LeavesDebtor(s, Do(s, step), t)
  {
  }

  lemma AsideLeaves(s: Sys, step: Step, t: Tid)
    requires step.RegisterOwner? || step.Attach? || step.Unlist? || step.IssueTicket? || step.ConsumeTicket?
    ensures LeavesDebtor(s, Do(s, step), t)
  {
  }

  lemma StepLeaves(s: Sys, step: Step, t: Tid)
    requires !step.EndOwed?
    ensures LeavesDebtor(s, Do(s, step), t)
  {
    if step.StartReserve? || step.StartSettle? || step.Incoming? || step.AnswerClaim? || step.AnswerEnter? || step.RejectClaim? {
      RequestLeaves(s, step, t);
    } else if step.End? || step.ReleaseNext? || step.ReleaseOwner? || step.Detach? {
      EndLeaves(s, step, t);
    } else if step.AnswerSignal? || step.SendSignal? {
      SignalLeaves(s, step, t);
    } else if step.HoldOp? || step.DropOp? || step.Bind? {
      LockLeaves(s, step, t);
    } else if step.PhaseChange? || step.PeerAccept? || step.AllowAudio? || step.BridgeClose? {
      CallbackLeaves(s, step, t);
    } else {
      AsideLeaves(s, step, t);
    }
  }

  /** The call has ended, or t is still to end it. */
  ghost predicate EndsOrOwes(s: Sys, t: Tid, r: RecId) {
    r in s.recs && (s.recs[r].phase == Ended || (t in s.threads && s.threads[t] == Owing(r, true)))
  }

  lemma PayingEnds(s: Sys, step: Step, t: Tid, r: RecId)
    requires step.EndOwed? && r in s.recs && t in s.threads && s.threads[t] == Owing(r, true)
    ensures EndsOrOwes(Do(s, step), t, r)
  {
  }

  lemma {:induction false} DebtorEnds(steps: seq<Step>, more: seq<Step>, t: Tid, r: RecId)
    requires EndsOrOwes(Run(steps), t, r)
    ensures EndsOrOwes(Run(steps + more), t, r)
  {
    if more == [] {
      assert steps + more == steps;
    } else {
      var mid, step := steps + more[..|more| - 1], more[|more| - 1];
      DebtorEnds(steps, more[..|more| - 1], t, r);
      assert mid + [step] == steps + more;
      assert (mid + [step])[..|mid|] == mid;
      LifeOnlyAdvances(mid, [step], r);
      if Run(mid).recs[r].phase != Ended {
        if step.EndOwed? {
          PayingEnds(Run(mid), step, t, r);
        } else {
          StepLeaves(Run(mid), step, t);
        }
      }
    }
  }

  /** Once a Reject has returned, its call has ended, whatever came between. */
  lemma {:induction false} RejectedHasEnded(before: seq<Step>, t: Tid, r: RecId, owner: Owner, after: seq<Step>)
    requires t !in Run(before).threads && Claimable(Run(before), r, owner)
    requires t !in Run(before + [RejectClaim(t, r, owner)] + after).threads
    ensures var s := Run(before + [RejectClaim(t, r, owner)] + after);
      r in s.recs && s.recs[r].phase == Ended && s.recs[r].owner == Some(owner)
  {
    var claimed := before + [RejectClaim(t, r, owner)];
    assert claimed[..|before|] == before;
    DebtorEnds(claimed, after, t, r);
    LifeOnlyAdvances(claimed, after, r);
  }

  // ---------- A device that was detached ----------

  ghost predicate Gone(s: Sys, d: DevId) {
    d in s.keys && !s.Attached(d)
  }

  /** A device, once gone, is not attached again, and takes no call. */
  lemma StaysGone(s: Sys, step: Step, d: DevId)
    requires Gone(s, d)
    ensures Gone(Do(s, step), d)
  {
    if !step.Attach? && !step.Detach? {
      DevicesStay(s, step);
    }
  }

  ghost predicate SameDevices(s: Sys, next: Sys) {
    next.devices == s.devices && next.keys == s.keys
  }

  lemma DevicesStay(s: Sys, step: Step)
    requires !step.Attach? && !step.Detach?
    ensures SameDevices(s, Do(s, step))
  {
  }

  lemma NewIsAttached(s: Sys, step: Step, r: RecId)
    requires r !in s.recs
    ensures r in Do(s, step).recs ==> s.Attached(Do(s, step).recs[r].dev)
  {
    if !step.StartReserve? && !step.StartSettle? && !step.Incoming? {
      NoneNew(s, step, r);
    }
  }

  lemma {:induction false} GoneTakesNone(steps: seq<Step>, more: seq<Step>, d: DevId, r: RecId)
    requires Gone(Run(steps), d) && r !in Run(steps).recs
    ensures var s := Run(steps + more); Gone(s, d) && (r in s.recs ==> s.recs[r].dev != d)
  {
    if more == [] {
      assert steps + more == steps;
    } else {
      var mid, step := steps + more[..|more| - 1], more[|more| - 1];
      GoneTakesNone(steps, more[..|more| - 1], d, r);
      assert mid + [step] == steps + more;
      assert (mid + [step])[..|mid|] == mid;
      StaysGone(Run(mid), step, d);
      if r in Run(mid).recs {
        LifeOnlyAdvances(mid, [step], r);
      } else {
        NewIsAttached(Run(mid), step, r);
      }
    }
  }

  /** detach finds the device's live call, if it has one. */
  lemma LiveCallHolds(s: Sys, r: RecId)
    requires Inv(s) && r in s.recs && s.recs[r].phase != Ended && !Failed(s.recs[r])
    ensures s.recs[r].dev in s.active && s.active[s.recs[r].dev] == r
  {
    assert LocalInv(s.recs[r]);
  }

  lemma DetachGoes(s: Sys, t: Tid, d: DevId)
    requires d in s.keys && t !in s.threads
    ensures var next := Do(s, Detach(t, d));
      Gone(next, d) && next.recs == s.recs && (d in s.active ==> t in next.threads && next.threads[t] == Owing(s.active[d], true))
  {
  }

  /** It leaves each call of its device ended, to be ended by it, or without a call from its Start. */
  lemma DetachOwes(before: seq<Step>, t: Tid, d: DevId, r: RecId)
    requires d in Run(before).keys && t !in Run(before).threads
    ensures var s := Run(before + [Detach(t, d)]);
      Gone(s, d) && (r in s.recs && s.recs[r].dev == d ==> EndsOrOwes(s, t, r) || Failed(s.recs[r]))
  {
    var s := Run(before);
    InvAlways(before);
    RunOneMore(before, Detach(t, d));
    DetachGoes(s, t, d);
    if r in s.recs && s.recs[r].phase != Ended && !Failed(s.recs[r]) {
      LiveCallHolds(s, r);
    }
  }

  /** A Start that failed stays so, and its end is owed until it has come. */
  lemma FailedIsOwed(steps: seq<Step>, more: seq<Step>, r: RecId)
    requires r in Run(steps).recs && Failed(Run(steps).recs[r])
    ensures var s := Run(steps + more); r in s.recs && Failed(s.recs[r]) && (s.recs[r].phase == Ended || Owed(s.threads, r))
  {
    LifeOnlyAdvances(steps, more, r);
    DebtsAlways(steps + more);
    assert DebtAt(Run(steps + more), r);
  }

  lemma LeftBehind(steps: seq<Step>, more: seq<Step>, t: Tid, r: RecId)
    requires r in Run(steps).recs && (EndsOrOwes(Run(steps), t, r) || Failed(Run(steps).recs[r]))
    requires t !in Run(steps + more).threads
    ensures var s := Run(steps + more); r in s.recs && (s.recs[r].phase == Ended || (Failed(s.recs[r]) && Owed(s.threads, r)))
  {
    if EndsOrOwes(Run(steps), t, r) {
      DebtorEnds(steps, more, t, r);
    } else {
      FailedIsOwed(steps, more, r);
    }
  }

  /** Once detach has returned, its device has no live call, and none comes to it any more, whatever
      came between. A record of it that lives on has no call: its Start, which failed, has not returned. */
  lemma {:induction false} DetachedHasNoCall(before: seq<Step>, t: Tid, d: DevId, after: seq<Step>, r: RecId)
    requires d in Run(before).keys && t !in Run(before).threads
    requires t !in Run(before + [Detach(t, d)] + after).threads
    requires var s := Run(before + [Detach(t, d)] + after); r in s.recs && s.recs[r].dev == d
    ensures var s := Run(before + [Detach(t, d)] + after);
      s.recs[r].phase == Ended || (Failed(s.recs[r]) && Owed(s.threads, r))
  {
    var detached := before + [Detach(t, d)];
    DetachOwes(before, t, d, r);
    if r in Run(detached).recs {
      LifeOnlyAdvances(detached, after, r);
      LeftBehind(detached, after, t, r);
    } else {
      GoneTakesNone(detached, after, d, r);
    }
  }
}
