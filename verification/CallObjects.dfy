/** The call service as the object it is: one method for each critical section under its lock,
    updating the maps in place, proved against the functions of CallService. */
module CallObjects {
  import opened Wrappers
  import opened CallService

  datatype Error = Unavailable | Conflict | NotFound | Invalid

  class Service {
    var devices: map<Key, DevId>
    var keys: map<DevId, Key>
    var active: map<DevId, RecId>
    var recs: map<RecId, Rec>
    var calls: set<RecId>
    var owners: set<Owner>
    var tickets: map<Token, Ticket>
    ghost var issued: set<Token>
    ghost var consumed: set<Token>
    ghost var threads: map<Tid, Thread>
    ghost var trace: map<Native, seq<Signal>>

    ghost function View(): Sys
      reads this
    {
      Sys(devices, keys, active, recs, calls, owners, tickets, issued, consumed, threads, trace)
    }

    constructor ()
      ensures View() == INIT
    {
      devices, keys, active, recs, calls := map[], map[], map[], map[], {};
      owners, tickets, issued, consumed, threads, trace := {}, map[], {}, {}, map[], map[];
    }

    method RegisterOwner(owner: Owner)
      modifies this`owners
      ensures View() == Do(old(View()), CallService.RegisterOwner(owner)) && owners == old(owners) + {owner}
    {
      owners := owners + {owner};
    }

    /** The call of this device with this id, if the session may use it, or claim it. */
    method Lookup(key: Key, owner: Owner, id: CallId, claim: bool) returns (r: Result<RecId, Error>)
      ensures r.Success? ==> Found(View(), r.value, owner, claim)
      ensures r.Success? ==> owner in owners && IsCall(r.value, key, id) && recs[r.value].phase != Ended && Open(recs[r.value], owner, claim)
      ensures r.Failure? ==> r.error in {Unavailable, NotFound, Conflict}
      ensures r == Failure(Unavailable) <==> owner !in owners
      ensures r == Failure(NotFound) ==>
        (forall q :: q in calls ==> !IsCall(q, key, id)) || exists q :: IsCall(q, key, id) && recs[q].phase == Ended
      ensures r == Failure(Conflict) ==> exists q :: IsCall(q, key, id) && recs[q].phase != Ended && !Open(recs[q], owner, claim)
      ensures OneOpen(key, owner, id, claim) ==> r.Success?
    {
      if owner !in owners {
        return Failure(Unavailable);
      }
      var todo := calls;
      while todo != {}
        invariant todo <= calls
        invariant forall q :: q in calls && Named(q, key, id) ==> q in todo
        invariant owner in owners
        decreases todo
      {
        var q :| q in todo;
        if !Named(q, key, id) {
          todo := todo - {q};
          continue;
        }
        if recs[q].phase == Ended {
          return Failure(NotFound);
        }
        if !Open(recs[q], owner, claim) {
          return Failure(Conflict);
        }
        return Success(q);
      }
      return Failure(NotFound);
    }

    predicate Named(q: RecId, key: Key, id: CallId)
      reads this
    {
      q in recs && recs[q].dev in keys && keys[recs[q].dev] == key && recs[q].id == Some(id)
    }

    /** A listed call of the device with this id. */
    ghost predicate IsCall(q: RecId, key: Key, id: CallId)
      reads this
      ensures IsCall(q, key, id) <==>
        q in calls && q in recs && recs[q].dev in keys && keys[recs[q].dev] == key && recs[q].id == Some(id)
    {
      q in calls && Named(q, key, id)
    }

    predicate Open(rec: Rec, owner: Owner, claim: bool)
      ensures Open(rec, owner, claim) <==> rec.owner == Some(owner) || (claim && rec.owner == None)
    {
      rec.owner == Some(owner) || (claim && rec.owner.None?)
    }

    /** The session is alive, the device has such a call, and every one it has is live and open to it. */
    ghost predicate OneOpen(key: Key, owner: Owner, id: CallId, claim: bool)
      reads this
    {
      && owner in owners
      && (exists q :: IsCall(q, key, id))
      && forall q :: IsCall(q, key, id) ==> recs[q].phase != Ended && Open(recs[q], owner, claim)
    }

    /** Its client is the one the device's key has now. */
    predicate AttachedNow(d: DevId)
      reads this
      ensures AttachedNow(d) <==> d in keys && keys[d] in devices && devices[keys[d]] == d
    {
      d in keys && keys[d] in devices && devices[keys[d]] == d
    }

    /** Start, before the engine is asked: of a device that is online, and not for its own number. */
    method Reserve(ghost t: Tid, r: RecId, d: DevId, owner: Owner, online: bool, own: bool) returns (why: Result<(), Error>)
      requires r !in recs && t !in threads
      modifies this
      ensures View() == if online && !own then CallService.Reserve(old(View()), t, r, d, owner) else old(View())
      ensures why.Success? <==> owner in owners && AttachedNow(d) && online && !own && d !in old(active)
      ensures why.Failure? ==> View() == old(View())
      ensures why == Failure(Unavailable) <==> owner !in owners || !AttachedNow(d) || !online
      ensures why == Failure(Invalid) <==> owner in owners && AttachedNow(d) && online && own
      ensures why.Success? ==>
        && recs.Keys == old(recs).Keys + {r} && recs[r].dev == d && !recs[r].incoming && recs[r].phase == Ringing
        && recs[r].owner == Some(owner) && recs[r].pending && recs[r].call == None
        && d in active && active[d] == r && r in calls && t in threads && threads[t] == Starting(r, owner)
    {
      if owner !in owners {
        return Failure(Unavailable);
      }
      if d !in keys || keys[d] !in devices || devices[keys[d]] != d || !online {
        return Failure(Unavailable);
      }
      if own {
        return Failure(Invalid);
      }
      if d in active {
        return Failure(Conflict);
      }
      recs := recs[r := OutgoingRec(d, owner)];
      active := active[d := r];
      calls := calls + {r};
      threads := threads[t := Starting(r, owner)];
      return Success(());
    }

    /** Start, when the engine has returned. It is left to end the record if it failed, and to have
        the call hung up that it cannot take. */
    method Settle(ghost t: Tid, ghost u: Tid, r: RecId, owner: Owner, c: Option<Native>, id: Option<CallId>, cancelled: bool) returns (alive: bool)
      requires r in recs && t in threads && threads[t] == Starting(r, owner) && u !in threads
      modifies this
      ensures View() == CallService.Settle(old(View()), t, u, c, id, cancelled)
      ensures alive <==> old(AttachedNow(recs[r].dev)) && owner in owners && old(recs[r]).phase != Ended && !cancelled
    {
      alive := AttachedNow(recs[r].dev) && owner in owners && recs[r].phase != Ended && !cancelled;
      assert alive == StillWanted(View(), r, owner, cancelled);
      if !alive {
        Free(recs[r].dev, r);
      }
      var rec := recs[r].(pending := false);
      if alive && c.Some? {
        rec := rec.(call := c, id := id);
      }
      recs := recs[r := rec];
      Leave(t, u, r, c, alive);
    }

    /** The device is free of the call. */
    method Free(d: DevId, r: RecId)
      modifies this`active
      ensures active == if d in old(active) && old(active)[d] == r then old(active) - {d} else old(active)
    {
      if d in active && active[d] == r {
        active := active - {d};
      }
    }

    /** What Start has still to do when it leaves its second section. */
    ghost method Leave(t: Tid, u: Tid, r: RecId, c: Option<Native>, alive: bool)
      modifies this`threads, this`trace
      ensures trace == if c.Some? then old(trace)[c.value := []] else old(trace)
      ensures alive && c.Some? ==> threads == old(threads) - {t}
      ensures alive && c.None? ==> threads == old(threads)[t := Owing(r, false)]
      ensures !alive && c.Some? ==> threads == old(threads)[t := Owing(r, false)][u := Orphan(c.value, HangupSent)]
      ensures !alive && c.None? ==> threads == old(threads)[t := Owing(r, false)]
    {
      threads := if alive && c.Some? then threads - {t} else threads[t := Owing(r, false)];
      if c.Some? {
        trace := trace[c.value := []];
        if !alive {
          threads := threads[u := Orphan(c.value, HangupSent)];
        }
      }
    }

    method Incoming(ghost t: Tid, r: RecId, d: DevId, c: Native, id: Option<CallId>) returns (taken: bool)
      requires r !in recs && t !in threads
      modifies this
      ensures View() == Ring(old(View()), t, r, d, c, id)
      ensures taken <==> AttachedNow(d) && d !in old(active)
      ensures taken ==>
        && recs.Keys == old(recs).Keys + {r} && recs[r].dev == d && recs[r].incoming && recs[r].phase == Ringing
        && recs[r].owner == None && recs[r].call == Some(c) && recs[r].id == id && !recs[r].pending
        && d in active && active[d] == r && r in calls && threads == old(threads)
      ensures !taken ==> recs == old(recs) && active == old(active) && t in threads && threads[t] == Orphan(c, RejectSent)
    {
      trace := trace[c := []];
      if d !in keys || keys[d] !in devices || devices[keys[d]] != d || d in active {
        threads := threads[t := Orphan(c, RejectSent)];
        return false;
      }
      recs := recs[r := IncomingRec(d, c, id)];
      active := active[d := r];
      calls := calls + {r};
      return true;
    }

    method PhaseChanged(r: RecId, phase: CallPhase)
      requires r in recs
      modifies this`recs
      ensures View() == old(View()).With(r, ChangePhase(old(recs[r]), phase))
    {
      var rec := recs[r];
      if rec.phase == Ended {
        assert recs == recs[r := rec];
        return;
      }
      if phase == NativeActive {
        rec := rec.(mediaActive := true);
      }
      if (rec.incoming && rec.owner.None?) || (!rec.incoming && !rec.peerAccepted) {
      } else if rec.mediaActive {
        rec := rec.(phase := Active);
      } else if phase == NativeConnecting || rec.peerAccepted {
        rec := rec.(phase := Connecting);
      }
      assert rec == ChangePhase(recs[r], phase);
      recs := recs[r := rec];
    }

    /** A ringing incoming call, nobody's yet or this session's already. */
    ghost predicate MayClaim(q: RecId, key: Key, owner: Owner, id: CallId)
      reads this
      ensures MayClaim(q, key, owner, id) ==>
        && owner in owners && IsCall(q, key, id) && recs[q].incoming && recs[q].phase == Ringing
        && (recs[q].owner == None || recs[q].owner == Some(owner))
    {
      owner in owners && IsCall(q, key, id) && recs[q].incoming && recs[q].phase == Ringing && Open(recs[q], owner, true)
    }

    /** The device has such a call, and every one of this id it has may be claimed. */
    ghost predicate OneClaimable(key: Key, owner: Owner, id: CallId)
      reads this
    {
      (exists q :: IsCall(q, key, id)) && forall q :: IsCall(q, key, id) ==> MayClaim(q, key, owner, id)
    }

    /** Answer, under the service's lock: the call is found, and claimed. */
    method ClaimAnswer(ghost t: Tid, key: Key, owner: Owner, id: CallId) returns (r: Result<RecId, Error>)
      requires t !in threads
      modifies this`recs, this`threads
      ensures r.Success? ==> Claimable(old(View()), r.value, owner) && View() == CallService.ClaimAnswer(old(View()), t, r.value, owner)
      ensures r.Success? ==> old(MayClaim(r.value, key, owner, id))
      ensures r.Success? ==> recs == old(recs)[r.value := old(recs)[r.value].(owner := Some(owner), phase := Connecting)]
      ensures r.Success? ==> threads == old(threads)[t := AnswerWaiting(r.value, owner)]
      ensures r.Failure? ==> View() == old(View()) && r.error in {Unavailable, NotFound, Conflict}
      ensures old(OneClaimable(key, owner, id)) ==> r.Success?
    {
      r := Lookup(key, owner, id, true);
      if r.Failure? {
        return;
      }
      var q := r.value;
      if !recs[q].incoming || recs[q].phase != Ringing {
        return Failure(Conflict);
      }
      recs := recs[q := recs[q].(owner := Some(owner), phase := Connecting)];
      threads := threads[t := AnswerWaiting(q, owner)];
    }

    /** Reject, before it ends the call. */
    method ClaimReject(ghost t: Tid, key: Key, owner: Owner, id: CallId) returns (r: Result<RecId, Error>)
      requires t !in threads
      modifies this`recs, this`threads
      ensures r.Success? ==> Claimable(old(View()), r.value, owner) && View() == CallService.ClaimReject(old(View()), t, r.value, owner)
      ensures r.Success? ==> old(MayClaim(r.value, key, owner, id))
      ensures r.Success? ==> recs == old(recs)[r.value := old(recs)[r.value].(owner := Some(owner))]
      ensures r.Success? ==> threads == old(threads)[t := Owing(r.value, true)]
      ensures r.Failure? ==> View() == old(View()) && r.error in {Unavailable, NotFound, Conflict}
      ensures old(OneClaimable(key, owner, id)) ==> r.Success?
    {
      r := Lookup(key, owner, id, true);
      if r.Failure? {
        return;
      }
      var q := r.value;
      if !recs[q].incoming || recs[q].phase != Ringing {
        return Failure(Conflict);
      }
      recs := recs[q := recs[q].(owner := Some(owner))];
      threads := threads[t := Owing(q, true)];
    }

    /** Answer, once it has the call's lock: is the call still wanted? */
    method EnterAnswer(t: Tid, r: RecId, owner: Owner) returns (entered: bool)
      requires r in recs && recs[r].op.None? && t in threads
      modifies this`recs, this`threads
      ensures View() == CallService.EnterAnswer(old(View()), t, r, owner)
      ensures entered <==> owner in owners && old(recs[r]).phase != Ended
      ensures entered ==> recs == old(recs)[r := old(recs[r]).(op := Some(t))] && threads == old(threads)[t := AnswerHolding(r, owner)]
      ensures !entered ==> recs == old(recs) && threads == old(threads) - {t}
    {
      if owner !in owners || recs[r].phase == Ended {
        threads := threads - {t};
        return false;
      }
      recs := recs[r := recs[r].(op := Some(t))];
      threads := threads[t := AnswerHolding(r, owner)];
      return true;
    }

    /** The Answer itself, and the lock given back; failed, the call is to be ended. */
    method SendAnswer(ghost t: Tid, r: RecId, ok: bool)
      requires r in recs && recs[r].call.Some? && recs[r].call.value in trace && t in threads
      modifies this`recs, this`threads, this`trace
      ensures View() == CallService.SendAnswer(old(View()), t, r, ok)
      ensures var c := recs[r].call.value; trace == old(trace)[c := old(trace)[c] + [AnswerSent]]
      ensures recs[r].op == None && (ok ==> recs[r].answered && recs[r].audioDue && t !in threads)
      ensures !ok ==> recs[r] == old(recs[r]).(op := None) && threads == old(threads)[t := Owing(r, true)]
    {
      var rec := recs[r].(op := None);
      trace := trace[rec.call.value := trace[rec.call.value] + [AnswerSent]];
      if ok {
        recs := recs[r := rec.(answered := true, audioDue := true)];
        threads := threads - {t};
      } else {
        recs := recs[r := rec];
        threads := threads[t := Owing(r, true)];
      }
    }

    /** The goroutine that tells the engine of an end, under the call's lock. */
    method SendEnd(ghost t: Tid, r: RecId, reject: bool)
      requires r in recs && recs[r].op.None? && recs[r].call.Some? && recs[r].call.value in trace && t in threads
      modifies this`threads, this`trace
      ensures View() == CallService.SendEnd(old(View()), t, r, reject)
      ensures var c := recs[r].call.value; trace == old(trace)[c := old(trace)[c] + [if reject then RejectSent else HangupSent]]
      ensures threads == old(threads) - {t}
    {
      var c := recs[r].call.value;
      trace := trace[c := trace[c] + [if reject then RejectSent else HangupSent]];
      threads := threads - {t};
    }

    /** configure and Invite hold the lock while they work, and give it back. */
    method TakeOp(t: Tid, r: RecId)
      requires r in recs && recs[r].op.None?
      modifies this`recs, this`threads
      ensures View() == CallService.TakeOp(old(View()), t, r)
      ensures recs == old(recs)[r := old(recs[r]).(op := Some(t))] && threads == old(threads)[t := Other(r)]
    {
      recs := recs[r := recs[r].(op := Some(t))];
      threads := threads[t := Other(r)];
    }

    method GiveOp(ghost t: Tid, r: RecId)
      requires r in recs
      modifies this`recs, this`threads
      ensures View() == CallService.GiveOp(old(View()), t, r)
      ensures recs == old(recs)[r := old(recs[r]).(op := None)] && threads == old(threads) - {t}
    {
      recs := recs[r := recs[r].(op := None)];
      threads := threads - {t};
    }

    /** OnPeerAccept. */
    method PeerAccepts(r: RecId) returns (allowed: bool)
      requires r in recs && recs[r].call.Some?
      modifies this`recs
      ensures View() == CallService.Accepted(old(View()), r)
      ensures allowed <==> !old(recs[r]).incoming && old(recs[r]).phase != Ended && old(recs[r]).owner.Some? && old(recs[r]).owner.value in owners
      ensures recs == if allowed then old(recs)[r := old(recs[r]).(peerAccepted := true, audioDue := true)] else old(recs)
    {
      var rec := recs[r];
      allowed := !rec.incoming && rec.owner.Some? && rec.owner.value in owners && rec.phase != Ended;
      if allowed {
        recs := recs[r := rec.(peerAccepted := true, audioDue := true)];
      }
    }

    method LetAudioThrough(r: RecId)
      requires r in recs && recs[r].audioDue
      modifies this`recs
      ensures View() == CallService.LetAudio(old(View()), r)
      ensures recs[r].audioEnabled <==> old(recs[r]).audioEnabled || !old(recs[r]).bridgeClosed
    {
      if !recs[r].bridgeClosed {
        recs := recs[r := recs[r].(audioEnabled := true)];
      }
    }

    method CloseBridge(r: RecId)
      requires r in recs && recs[r].phase == Ended
      modifies this`recs
      ensures View() == CallService.CloseBridge(old(View()), r) && recs[r].bridgeClosed
    {
      recs := recs[r := recs[r].(bridgeClosed := true)];
    }

    method BindMedia(ghost t: Tid, r: RecId) returns (bound: bool)
      requires r in recs && t in threads
      modifies this`recs, this`threads
      ensures View() == CallService.BindMedia(old(View()), t, r)
      ensures bound <==> !old(recs[r]).bridgeClosed && old(recs[r]).bound == 0
      ensures recs[r].bound == (if bound then 1 else old(recs[r]).bound) && t !in threads
    {
      bound := !recs[r].bridgeClosed && recs[r].bound == 0;
      if bound {
        recs := recs[r := recs[r].(bound := recs[r].bound + 1)];
      }
      threads := threads - {t};
    }

    method Detach(ghost t: Tid, d: DevId) returns (r: Option<RecId>)
      modifies this`devices, this`threads
      ensures View() == DetachDevice(old(View()), t, d)
      ensures r == if d in active then Some(active[d]) else None
      ensures !AttachedNow(d) && forall k :: k in old(devices) && old(devices)[k] != d ==> k in devices && devices[k] == old(devices)[k]
      ensures threads == if d in active then old(threads)[t := Owing(active[d], true)] else old(threads)
    {
      if d in keys && keys[d] in devices && devices[keys[d]] == d {
        devices := devices - {keys[d]};
      }
      r := if d in active then Some(active[d]) else None;
      if r.Some? {
        threads := threads[t := Owing(r.value, true)];
      }
    }

    method DropTickets(gone: Ticket -> bool)
      modifies this`tickets
      ensures tickets == WithoutTickets(old(tickets), gone)
      ensures forall k :: k in tickets <==> k in old(tickets) && !gone(old(tickets)[k])
      ensures forall k :: k in tickets ==> tickets[k] == old(tickets)[k]
    {
      var todo := tickets.Keys;
      while todo != {}
        invariant todo <= tickets.Keys <= old(tickets).Keys
        invariant forall k :: k in tickets ==> tickets[k] == old(tickets)[k]
        invariant forall k :: k in old(tickets) && k !in todo ==> (k in tickets <==> !gone(old(tickets)[k]))
        decreases todo
      {
        var k :| k in todo;
        if gone(tickets[k]) {
          tickets := tickets - {k};
        }
        todo := todo - {k};
      }
    }

    /** The session's first section; its calls are then ended one by one. */
    method ReleaseOwner(ghost t: Tid, owner: Owner) returns (owned: set<RecId>)
      modifies this`owners, this`tickets, this`threads
      ensures View() == Release(old(View()), t, owner)
      ensures owned == set q | q in calls && q in recs && recs[q].owner == Some(owner)
      ensures owners == old(owners) - {owner} && threads == old(threads)[t := Releasing(owned)]
      ensures forall k :: k in tickets <==> k in old(tickets) && old(tickets)[k].owner != owner
    {
      owners := owners - {owner};
      owned := set q | q in calls && q in recs && recs[q].owner == Some(owner);
      DropTickets((ticket: Ticket) => ticket.owner == owner);
      threads := threads[t := Releasing(owned)];
    }

    method End(ghost t: Tid, r: RecId, signal: bool)
      requires r in recs && t !in threads
      modifies this
      ensures View() == EndCall(old(View()), t, r, signal)
    {
      var rec := recs[r];
      if rec.phase == Ended {
        return;
      }
      var reject := rec.incoming && rec.phase == Ringing;
      recs := recs[r := rec.(phase := Ended)];
      if rec.dev in active && active[rec.dev] == r && !rec.pending {
        active := active - {rec.dev};
      }
      DropTickets((ticket: Ticket) => ticket.r == r);
      if signal && rec.call.Some? {
        threads := threads[t := Signalling(r, reject)];
      }
    }

    method MediaTicket(key: Key, owner: Owner, id: CallId, token: Token, now: int) returns (r: Result<RecId, Error>)
      modifies this`tickets, this`issued
      ensures r.Success? ==> View() == Issue(old(View()), token, r.value, owner, now)
      ensures r.Success? ==>
        && IsCall(r.value, key, id) && recs[r.value].phase != Ended && recs[r.value].owner == Some(owner) && recs[r.value].bound == 0
        && token in tickets && tickets[token] == Ticket(r.value, owner, now + 30)
        && forall k :: k in tickets && k != token <==>
             k in old(tickets) && k != token && old(tickets)[k].r != r.value && old(tickets)[k].expires > now
      ensures r.Failure? ==> View() == old(View()) && r.error in {Unavailable, NotFound, Conflict}
      ensures OneOpen(key, owner, id, false) && (forall q :: IsCall(q, key, id) ==> recs[q].bound == 0) ==> r.Success?
    {
      r := Lookup(key, owner, id, false);
      if r.Failure? {
        return;
      }
      var q := r.value;
      if recs[q].bound > 0 {
        return Failure(Conflict);
      }
      DropTickets((ticket: Ticket) => ticket.r == q || ticket.expires <= now);
      tickets := tickets[token := Ticket(q, owner, now + TICKET_LIFETIME)];
      issued := issued + {token};
    }

    method ConsumeTicket(ghost t: Tid, token: Token, now: int) returns (r: Option<RecId>)
      requires forall k :: k in tickets ==> tickets[k].r in recs
      modifies this`tickets, this`consumed, this`threads
      ensures View() == Consume(old(View()), t, token, now)
      ensures r.Some? <==>
        && token in old(tickets) && now < old(tickets)[token].expires && old(tickets)[token].owner in owners
        && var rec := recs[old(tickets)[token].r];
        && rec.owner == Some(old(tickets)[token].owner) && rec.phase != Ended && AttachedNow(rec.dev)
      ensures tickets == old(tickets) - {token}
      ensures r.Some? ==> token in consumed && threads == old(threads)[t := Binding(r.value)]
      ensures r.Some? ==> r.value == old(tickets)[token].r
    {
      if token !in tickets {
        assert tickets - {token} == tickets;
        return None;
      }
      var ticket := tickets[token];
      tickets := tickets - {token};
      var rec := recs[ticket.r];
      if now >= ticket.expires || ticket.owner !in owners || rec.owner != Some(ticket.owner) || rec.phase == Ended
         || rec.dev !in keys || keys[rec.dev] !in devices || devices[keys[rec.dev]] != rec.dev {
        return None;
      }
      consumed := consumed + {token};
      threads := threads[t := Binding(ticket.r)];
      return Some(ticket.r);
    }
  }
}
