/** The call service (internal/calling/service.go): its critical sections as functions of one
    shared state, and every interleaving of requests, native callbacks, timers and teardown. */
module CallService {
  import opened Wrappers

  type Key = nat
  type DevId = nat
  type RecId = nat
  type Owner = nat
  type Token = nat
  type Native = nat
  type CallId = nat
  type Tid = nat

  datatype Phase = Ringing | Connecting | Active | Ended {
    function Rank(): nat {
      match this
      case Ringing => 0
      case Connecting => 1
      case Active => 2
      case Ended => 3
    }
  }

  /** What the service tells the engine about a call. */
  datatype Signal = AnswerSent | RejectSent | HangupSent

  /** op: who holds the lock that orders signalling. bound: how often a media connection was bound.
      answered: the engine's Answer succeeded. audioDue: somebody is about to let audio through. */
  datatype Rec = Rec(
    dev: DevId, call: Option<Native>, id: Option<CallId>, incoming: bool, phase: Phase, owner: Option<Owner>,
    pending: bool, mediaActive: bool, peerAccepted: bool, answered: bool, audioDue: bool, audioEnabled: bool,
    bound: nat, bridgeClosed: bool, op: Option<Tid>)

  /** Seconds. */
  const TICKET_LIFETIME := 30

  datatype Ticket = Ticket(r: RecId, owner: Owner, expires: int)

  /** A request, or a goroutine, between two critical sections. Orphan: a signal to a call that has
      no record. Owing: it is still to end a call. Releasing: ReleaseOwner, with calls still to end.
      Other: configure or Invite, which hold the lock and send none of the signals. */
  datatype Thread =
    | Starting(r: RecId, owner: Owner)
    | AnswerWaiting(r: RecId, owner: Owner)
    | AnswerHolding(r: RecId, owner: Owner)
    | Other(r: RecId)
    | Signalling(r: RecId, reject: bool)
    | Orphan(c: Native, signal: Signal)
    | Binding(r: RecId)
    | Owing(r: RecId, tell: bool)
    | Releasing(todo: set<RecId>)

  datatype Sys = Sys(
    devices: map<Key, DevId>, keys: map<DevId, Key>, active: map<DevId, RecId>, recs: map<RecId, Rec>,
    listed: set<RecId>, owners: set<Owner>, tickets: map<Token, Ticket>, issued: set<Token>, consumed: set<Token>,
    threads: map<Tid, Thread>, trace: map<Native, seq<Signal>>)
  {
    predicate Attached(d: DevId) {
      d in keys && keys[d] in devices && devices[keys[d]] == d
    }

    function With(r: RecId, rec: Rec): Sys {
      this.(recs := recs[r := rec])
    }

    function Sent(c: Native, signal: Signal): Sys
      requires c in trace
    {
      this.(trace := trace[c := trace[c] + [signal]])
    }
  }

  const INIT: Sys := Sys(map[], map[], map[], map[], {}, {}, map[], {}, {}, map[], map[])

  datatype CallPhase = NativeConnecting | NativeActive | NativeOther

  /** r, t, u, c: the record, goroutines or native call a step makes, when it makes one. End is any
      end that nobody owes: a hangup, a timer, a callback, a media connection gone. */
  datatype Step =
    | RegisterOwner(owner: Owner)
    | Attach(d: DevId, key: Key)
    | Detach(t: Tid, d: DevId)
    | StartReserve(t: Tid, r: RecId, d: DevId, owner: Owner)
    | StartSettle(t: Tid, u: Tid, result: Option<Native>, id: Option<CallId>, cancelled: bool)
    | Incoming(t: Tid, r: RecId, d: DevId, c: Native, id: Option<CallId>)
    | PhaseChange(r: RecId, phase: CallPhase)
    | PeerAccept(r: RecId)
    | AllowAudio(r: RecId)
    | AnswerClaim(t: Tid, r: RecId, owner: Owner)
    | AnswerEnter(t: Tid)
    | AnswerSignal(t: Tid, ok: bool)
    | RejectClaim(t: Tid, r: RecId, owner: Owner)
    | ReleaseOwner(t: Tid, owner: Owner)
    | ReleaseNext(t: Tid, u: Tid, r: RecId)
    | EndOwed(t: Tid, u: Tid)
    | End(t: Tid, r: RecId, signal: bool)
    | BridgeClose(r: RecId)
    | SendSignal(t: Tid)
    | HoldOp(t: Tid, r: RecId)
    | DropOp(t: Tid)
    | Unlist(r: RecId)
    | IssueTicket(token: Token, r: RecId, owner: Owner, now: int)
    | ConsumeTicket(t: Tid, token: Token, now: int)
    | Bind(t: Tid)

  /** lookup: the record a request names, open to this owner. */
  predicate Found(s: Sys, r: RecId, owner: Owner, claim: bool) {
    && owner in s.owners
    && r in s.listed && r in s.recs
    && s.recs[r].id.Some? && s.recs[r].phase != Ended
    && (s.recs[r].owner == Some(owner) || (claim && s.recs[r].owner.None?))
  }

  function OutgoingRec(d: DevId, owner: Owner): Rec {
    Rec(d, None, None, false, Ringing, Some(owner), true, false, false, false, false, false, 0, false, None)
  }

  function IncomingRec(d: DevId, c: Native, id: Option<CallId>): Rec {
    Rec(d, Some(c), id, true, Ringing, None, false, false, false, false, false, false, 0, false, None)
  }

  function Reserve(s: Sys, t: Tid, r: RecId, d: DevId, owner: Owner): (next: Sys)
    ensures next.devices == s.devices && next.keys == s.keys
  {
    if owner !in s.owners || !s.Attached(d) || d in s.active then s
    else
      s.(recs := s.recs[r := OutgoingRec(d, owner)], active := s.active[d := r], listed := s.listed + {r},
         threads := s.threads[t := Starting(r, owner)])
  }

  predicate StillWanted(s: Sys, r: RecId, owner: Owner, cancelled: bool)
    requires r in s.recs
  {
    s.Attached(s.recs[r].dev) && owner in s.owners && s.recs[r].phase != Ended && !cancelled
  }

  /** The engine has returned the call c, or none. A Start that fails is still to end its record, and
      leaves the hangup of a call it cannot take to another goroutine. */
  function Settle(s: Sys, t: Tid, u: Tid, c: Option<Native>, id: Option<CallId>, cancelled: bool): (next: Sys)
    requires t in s.threads && s.threads[t].Starting? && s.threads[t].r in s.recs
    ensures next.devices == s.devices && next.keys == s.keys && forall q :: q in next.recs ==> q in s.recs
  {
    var r := s.threads[t].r;
    var alive := StillWanted(s, r, s.threads[t].owner, cancelled);
    var rec := s.recs[r].(pending := false);
    var d := rec.dev;
    var settled := if alive && c.Some? then rec.(call := c, id := id) else rec;
    var left := if alive && c.Some? then s.threads - {t} else s.threads[t := Owing(r, false)];
    s.(recs := s.recs[r := settled],
       active := if !alive && d in s.active && s.active[d] == r then s.active - {d} else s.active,
       trace := if c.Some? then s.trace[c.value := []] else s.trace,
       threads := if c.Some? && !alive then left[u := Orphan(c.value, HangupSent)] else left)
  }

  /** Start takes its call, or it is left to end its record, has its device freed unless the engine
      made no call for it, and has the call it cannot take hung up. */
  ghost predicate SettleFollows(s: Sys, t: Tid, u: Tid, r: RecId, c: Option<Native>, id: Option<CallId>, alive: bool, next: Sys)
    requires r in s.recs
  {
    var d := s.recs[r].dev;
    var rec := s.recs[r].(pending := false);
    && next.recs == s.recs[r := if alive && c.Some? then rec.(call := c, id := id) else rec]
    && (forall k :: k in next.active <==> k in s.active && (alive || k != d || s.active[d] != r))
    && (if alive && c.Some? then t !in next.threads else t in next.threads && next.threads[t] == Owing(r, false))
    && (!alive && c.Some? ==> u in next.threads && next.threads[u] == Orphan(c.value, HangupSent))
    && next.threads.Keys <= s.threads.Keys + (if !alive && c.Some? then {u} else {})
  }

  lemma SettleIsFollowed(s: Sys, t: Tid, u: Tid, c: Option<Native>, id: Option<CallId>, cancelled: bool)
    requires t in s.threads && s.threads[t].Starting? && s.threads[t].r in s.recs && u !in s.threads
    ensures var r := s.threads[t].r;
      SettleFollows(s, t, u, r, c, id, StillWanted(s, r, s.threads[t].owner, cancelled), Settle(s, t, u, c, id, cancelled))
  {
  }

  function Ring(s: Sys, t: Tid, r: RecId, d: DevId, c: Native, id: Option<CallId>): (next: Sys)
    ensures next.devices == s.devices && next.keys == s.keys
  {
    var s1 := s.(trace := s.trace[c := []]);
    if !s.Attached(d) || d in s.active then s1.(threads := s.threads[t := Orphan(c, RejectSent)])
    else s1.(recs := s.recs[r := IncomingRec(d, c, id)], active := s.active[d := r], listed := s.listed + {r})
  }

  /** An incoming call somebody has claimed, or an outgoing one the peer has accepted. */
  predicate Agreed(rec: Rec)
    ensures Agreed(rec) <==> if rec.incoming then rec.owner.Some? else rec.peerAccepted
  {
    if rec.incoming then rec.owner.Some? else rec.peerAccepted
  }

  function ChangePhase(rec: Rec, phase: CallPhase): Rec {
    if rec.phase == Ended then rec
    else
      var media := rec.(mediaActive := rec.mediaActive || phase == NativeActive);
      if (rec.incoming && rec.owner.None?) || (!rec.incoming && !rec.peerAccepted) then media
      else if media.mediaActive then media.(phase := Active)
      else if phase == NativeConnecting || rec.peerAccepted then media.(phase := Connecting)
      else media
  }

  /** A live call agreed upon is active once media has been seen, and connecting before it as soon as
      the engine connects or the peer accepts; any other call keeps its state. */
  lemma PhaseIsFollowed(rec: Rec, phase: CallPhase)
    requires rec.phase != Ended
    ensures ChangePhase(rec, phase).mediaActive <==> rec.mediaActive || phase == NativeActive
    ensures Agreed(rec) && (rec.mediaActive || phase == NativeActive) ==> ChangePhase(rec, phase).phase == Active
    ensures Agreed(rec) && !rec.mediaActive && phase != NativeActive && (phase == NativeConnecting || rec.peerAccepted) ==>
      ChangePhase(rec, phase).phase == Connecting
    ensures !Agreed(rec) || (!rec.mediaActive && !rec.peerAccepted && phase == NativeOther) ==> ChangePhase(rec, phase).phase == rec.phase
  {
  }

  /** And nothing else of it changes. */
  lemma PhaseChangesThat(rec: Rec, phase: CallPhase)
    ensures var next := ChangePhase(rec, phase); next == rec.(phase := next.phase, mediaActive := next.mediaActive)
    ensures rec.phase == Ended ==> ChangePhase(rec, phase) == rec
  {
  }

  function WithoutTickets(tickets: map<Token, Ticket>, gone: Ticket -> bool): map<Token, Ticket> {
    map token | token in tickets && !gone(tickets[token]) :: tickets[token]
  }

  function EndCall(s: Sys, t: Tid, r: RecId, signal: bool): (next: Sys)
    requires r in s.recs
    ensures next.devices == s.devices && next.keys == s.keys && forall q :: q in next.recs ==> q in s.recs
  {
    var rec := s.recs[r];
    if rec.phase == Ended then s
    else
      s.(recs := s.recs[r := rec.(phase := Ended)],
         active := if rec.dev in s.active && s.active[rec.dev] == r && !rec.pending then s.active - {rec.dev} else s.active,
         tickets := WithoutTickets(s.tickets, (ticket: Ticket) => ticket.r == r),
         threads := if signal && rec.call.Some? then s.threads[t := Signalling(r, rec.incoming && rec.phase == Ringing)] else s.threads)
  }

  /** An end ends the call once, takes its tickets and frees its device, unless Start has not returned;
      Reject is to be told of a ringing incoming call and Hangup of any other, if the engine has it. */
  ghost predicate EndFollows(s: Sys, t: Tid, r: RecId, signal: bool, next: Sys)
    requires r in s.recs
  {
    var rec := s.recs[r];
    && (rec.phase == Ended ==> next == s)
    && next.recs == s.recs[r := rec.(phase := Ended)]
    && (forall k :: k in next.tickets <==> k in s.tickets && (rec.phase == Ended || s.tickets[k].r != r))
    && (forall d :: d in next.active <==> d in s.active && (rec.phase == Ended || d != rec.dev || s.active[d] != r || rec.pending))
    && (forall u :: u in next.threads <==> u in s.threads || (u == t && rec.phase != Ended && signal && rec.call.Some?))
    && (rec.phase != Ended && signal && rec.call.Some? ==> next.threads[t] == Signalling(r, rec.incoming && rec.phase == Ringing))
  }

  lemma EndIsFollowed(s: Sys, t: Tid, r: RecId, signal: bool)
    requires r in s.recs
    ensures EndFollows(s, t, r, signal, EndCall(s, t, r, signal))
  {
    if s.recs[r].phase == Ended {
      assert s.recs == s.recs[r := s.recs[r].(phase := Ended)];
    }
  }

  function Issue(s: Sys, token: Token, r: RecId, owner: Owner, now: int): (next: Sys)
    ensures next.devices == s.devices && next.keys == s.keys && forall q :: q in next.recs ==> q in s.recs
  {
    if !Found(s, r, owner, false) || s.recs[r].bound > 0 then s
    else
      s.(tickets := WithoutTickets(s.tickets, (ticket: Ticket) => ticket.r == r || ticket.expires <= now)
                      [token := Ticket(r, owner, now + TICKET_LIFETIME)],
         issued := s.issued + {token})
  }

  predicate TicketHolds(s: Sys, token: Token, now: int) {
    && token in s.tickets
    && var ticket := s.tickets[token];
    && now < ticket.expires && ticket.owner in s.owners && ticket.r in s.recs
    && s.recs[ticket.r].owner == Some(ticket.owner) && s.recs[ticket.r].phase != Ended && s.Attached(s.recs[ticket.r].dev)
  }

  function Consume(s: Sys, t: Tid, token: Token, now: int): (next: Sys)
    ensures next.devices == s.devices && next.keys == s.keys && forall q :: q in next.recs ==> q in s.recs
  {
    var left := s.(tickets := s.tickets - {token});
    if TicketHolds(s, token, now)
    then left.(consumed := s.consumed + {token}, threads := s.threads[t := Binding(s.tickets[token].r)])
    else left
  }

  function AttachDevice(s: Sys, d: DevId, key: Key): Sys {
    if d in s.keys then s else s.(keys := s.keys[d := key], devices := s.devices[key := d])
  }

  function DetachDevice(s: Sys, t: Tid, d: DevId): Sys {
    var gone := if s.Attached(d) then s.(devices := s.devices - {s.keys[d]}) else s;
    if d in s.active then gone.(threads := s.threads[t := Owing(s.active[d], true)]) else gone
  }

  function Accepted(s: Sys, r: RecId): (next: Sys)
    ensures next.devices == s.devices && next.keys == s.keys && forall q :: q in next.recs ==> q in s.recs
  {
    if r !in s.recs || s.recs[r].incoming || s.recs[r].phase == Ended || s.recs[r].owner.None?
       || s.recs[r].owner.value !in s.owners || s.recs[r].call.None? then s
    else s.With(r, s.recs[r].(peerAccepted := true, audioDue := true))
  }

  function LetAudio(s: Sys, r: RecId): (next: Sys)
    ensures next.devices == s.devices && next.keys == s.keys && forall q :: q in next.recs ==> q in s.recs
  {
    if r !in s.recs || !s.recs[r].audioDue || s.recs[r].bridgeClosed then s else s.With(r, s.recs[r].(audioEnabled := true))
  }

  /** Only a ringing incoming call, unclaimed or claimed by the same session, can be claimed. */
  predicate Claimable(s: Sys, r: RecId, owner: Owner) {
    Found(s, r, owner, true) && s.recs[r].incoming && s.recs[r].phase == Ringing
  }

  function ClaimAnswer(s: Sys, t: Tid, r: RecId, owner: Owner): (next: Sys)
    ensures next.devices == s.devices && next.keys == s.keys && forall q :: q in next.recs ==> q in s.recs
  {
    if !Claimable(s, r, owner) then s
    else s.With(r, s.recs[r].(owner := Some(owner), phase := Connecting)).(threads := s.threads[t := AnswerWaiting(r, owner)])
  }

  function ClaimReject(s: Sys, t: Tid, r: RecId, owner: Owner): (next: Sys)
    ensures next.devices == s.devices && next.keys == s.keys && forall q :: q in next.recs ==> q in s.recs
  {
    if !Claimable(s, r, owner) then s
    else s.With(r, s.recs[r].(owner := Some(owner))).(threads := s.threads[t := Owing(r, true)])
  }

  /** The lock taken, the claimed call is looked at once more. */
  function EnterAnswer(s: Sys, t: Tid, r: RecId, owner: Owner): (next: Sys)
    requires r in s.recs
    ensures next.devices == s.devices && next.keys == s.keys && forall q :: q in next.recs ==> q in s.recs
  {
    if s.recs[r].op.Some? then s
    else if owner !in s.owners || s.recs[r].phase == Ended then s.(threads := s.threads - {t})
    else s.With(r, s.recs[r].(op := Some(t))).(threads := s.threads[t := AnswerHolding(r, owner)])
  }

  function SendAnswer(s: Sys, t: Tid, r: RecId, ok: bool): (next: Sys)
    requires r in s.recs
    ensures next.devices == s.devices && next.keys == s.keys && forall q :: q in next.recs ==> q in s.recs
  {
    if s.recs[r].call.None? || s.recs[r].call.value !in s.trace then s
    else
      var rec := s.recs[r].(op := None);
      s.With(r, if ok then rec.(answered := true, audioDue := true) else rec)
       .(threads := if ok then s.threads - {t} else s.threads[t := Owing(r, true)]).Sent(rec.call.value, AnswerSent)
  }

  /** The calls of a session. */
  function Owned(s: Sys, owner: Owner): set<RecId> {
    set r | r in s.listed && r in s.recs && s.recs[r].owner == Some(owner)
  }

  function Release(s: Sys, t: Tid, owner: Owner): (next: Sys)
    ensures next.devices == s.devices && next.keys == s.keys && forall q :: q in next.recs ==> q in s.recs
  {
    s.(owners := s.owners - {owner}, tickets := WithoutTickets(s.tickets, (ticket: Ticket) => ticket.owner == owner),
       threads := s.threads[t := Releasing(Owned(s, owner))])
  }

  /** One more of the calls ended; when none is left, ReleaseOwner returns. */
  function ReleaseOne(s: Sys, t: Tid, u: Tid, r: RecId): (next: Sys)
    requires t in s.threads && s.threads[t].Releasing?
    ensures next.devices == s.devices && next.keys == s.keys && forall q :: q in next.recs ==> q in s.recs
  {
    var todo := s.threads[t].todo;
    if todo == {} then s.(threads := s.threads - {t})
    else if r !in todo || r !in s.recs then s
    else EndCall(s.(threads := s.threads[t := Releasing(todo - {r})]), u, r, true)
  }

  function CloseBridge(s: Sys, r: RecId): (next: Sys)
    ensures next.devices == s.devices && next.keys == s.keys && forall q :: q in next.recs ==> q in s.recs
  {
    if r !in s.recs || s.recs[r].phase != Ended then s else s.With(r, s.recs[r].(bridgeClosed := true))
  }

  function SendEnd(s: Sys, t: Tid, r: RecId, reject: bool): (next: Sys)
    ensures next.devices == s.devices && next.keys == s.keys && forall q :: q in next.recs ==> q in s.recs
  {
    if r !in s.recs || s.recs[r].op.Some? || s.recs[r].call.None? || s.recs[r].call.value !in s.trace then s
    else s.Sent(s.recs[r].call.value, if reject then RejectSent else HangupSent).(threads := s.threads - {t})
  }

  function SendLast(s: Sys, t: Tid): (next: Sys)
    requires t in s.threads
    ensures next.devices == s.devices && next.keys == s.keys && forall q :: q in next.recs ==> q in s.recs
  {
    match s.threads[t]
    case Orphan(c, signal) => if c in s.trace then s.Sent(c, signal).(threads := s.threads - {t}) else s
    case Signalling(r, reject) => SendEnd(s, t, r, reject)
    case _ => s
  }

  function TakeOp(s: Sys, t: Tid, r: RecId): (next: Sys)
    ensures next.devices == s.devices && next.keys == s.keys && forall q :: q in next.recs ==> q in s.recs
  {
    if r !in s.recs || s.recs[r].op.Some? then s
    else s.With(r, s.recs[r].(op := Some(t))).(threads := s.threads[t := Other(r)])
  }

  function GiveOp(s: Sys, t: Tid, r: RecId): (next: Sys)
    ensures next.devices == s.devices && next.keys == s.keys && forall q :: q in next.recs ==> q in s.recs
  {
    if r !in s.recs then s else s.With(r, s.recs[r].(op := None)).(threads := s.threads - {t})
  }

  function BindMedia(s: Sys, t: Tid, r: RecId): (next: Sys)
    ensures next.devices == s.devices && next.keys == s.keys && forall q :: q in next.recs ==> q in s.recs
  {
    var done := s.(threads := s.threads - {t});
    if r !in s.recs then s
    else if s.recs[r].bridgeClosed || s.recs[r].bound > 0 then done
    else done.With(r, s.recs[r].(bound := s.recs[r].bound + 1))
  }

  /** A step whose thread, record or call is not as it must be does nothing; names it makes are new. */
  function Do(s: Sys, step: Step): Sys {
    match step
    case RegisterOwner(owner) => s.(owners := s.owners + {owner})
    case Attach(d, key) => AttachDevice(s, d, key)
    case Detach(t, d) => if t in s.threads then s else DetachDevice(s, t, d)
    case StartReserve(t, r, d, owner) => if t in s.threads || r in s.recs then s else Reserve(s, t, r, d, owner)
    case StartSettle(t, u, c, id, cancelled) =>
      if t !in s.threads || u in s.threads || !s.threads[t].Starting? || s.threads[t].r !in s.recs || (c.Some? && c.value in s.trace) then s
      else Settle(s, t, u, c, id, cancelled)
    case Incoming(t, r, d, c, id) => if t in s.threads || r in s.recs || c in s.trace then s else Ring(s, t, r, d, c, id)
    case PhaseChange(r, phase) => if r in s.recs then s.With(r, ChangePhase(s.recs[r], phase)) else s
    case PeerAccept(r) => Accepted(s, r)
    case AllowAudio(r) => LetAudio(s, r)
    case AnswerClaim(t, r, owner) => if t in s.threads then s else ClaimAnswer(s, t, r, owner)
    case AnswerEnter(t) =>
      if t in s.threads && s.threads[t].AnswerWaiting? && s.threads[t].r in s.recs
      then EnterAnswer(s, t, s.threads[t].r, s.threads[t].owner) else s
    case AnswerSignal(t, ok) =>
      if t in s.threads && s.threads[t].AnswerHolding? && s.threads[t].r in s.recs then SendAnswer(s, t, s.threads[t].r, ok) else s
    case RejectClaim(t, r, owner) => if t in s.threads then s else ClaimReject(s, t, r, owner)
    case ReleaseOwner(t, owner) => if t in s.threads then s else Release(s, t, owner)
    case ReleaseNext(t, u, r) =>
      if t in s.threads && s.threads[t].Releasing? && u !in s.threads then ReleaseOne(s, t, u, r) else s
    case EndOwed(t, u) =>
      if t in s.threads && s.threads[t].Owing? && s.threads[t].r in s.recs && u !in s.threads
      then EndCall(s.(threads := s.threads - {t}), u, s.threads[t].r, s.threads[t].tell) else s
    case End(t, r, signal) => if t in s.threads || r !in s.recs then s else EndCall(s, t, r, signal)
    case BridgeClose(r) => CloseBridge(s, r)
    case SendSignal(t) => if t in s.threads then SendLast(s, t) else s
    case HoldOp(t, r) => if t in s.threads then s else TakeOp(s, t, r)
    case DropOp(t) => if t in s.threads && s.threads[t].Other? then GiveOp(s, t, s.threads[t].r) else s
    case Unlist(r) => if r in s.recs && s.recs[r].phase == Ended then s.(listed := s.listed - {r}) else s
    case IssueTicket(token, r, owner, now) => if token in s.issued then s else Issue(s, token, r, owner, now)
    case ConsumeTicket(t, token, now) => if t in s.threads then s else Consume(s, t, token, now)
    case Bind(t) => if t in s.threads && s.threads[t].Binding? then BindMedia(s, t, s.threads[t].r) else s
  }

  function Run(steps: seq<Step>): Sys {
    if steps == [] then INIT else Do(Run(steps[..|steps| - 1]), steps[|steps| - 1])
  }
}
