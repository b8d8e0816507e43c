/** The roster as its call holds it: rows put, renamed, evicted and rebuilt in place. Every method
    keeps each row under its own id and the slots within the limit, in whatever order they are
    called; the one exception is ActivateRows, which PhaseKeepsLimitIff is about. */
module RosterObjects {
  import opened Wrappers
  import opened Roster

  datatype Code = Reserved | IsSelf | Duplicate | Interrupted | Limit

  datatype Outcome = Applied | Stale | Unsupported | OverLimit

  class CallRoster {
    const own: set<Jid>
    var rows: Rows
    var order: nat
    var group: bool
    var transaction: nat

    ghost predicate Valid()
      reads this
    {
      Keyed(rows)
    }

    constructor (own: set<Jid>, rows: Rows, order: nat)
      requires Keyed(rows)
      ensures Valid() && this.own == own && this.rows == rows && this.order == order && !group && transaction == 0
    {
      this.own, this.rows, this.order, group, transaction := own, rows, order, false, 0;
    }

    /** Some row that one of the ids names; the map is read in no order. */
    method Find(id: Jid, pn: Option<Jid>) returns (found: Option<Jid>)
      ensures found.Some? ==> found.value in rows && Matches(rows[found.value], id, pn)
      ensures found.None? ==> forall k :: k in rows ==> !Matches(rows[k], id, pn)
    {
      var todo := rows.Keys;
      while todo != {}
        invariant todo <= rows.Keys
        invariant forall k :: k in rows && k !in todo ==> !Matches(rows[k], id, pn)
        decreases todo
      {
        var k :| k in todo;
        if Matches(rows[k], id, pn) {
          return Some(k);
        }
        todo := todo - {k};
      }
      return None;
    }

    method Oldest() returns (oldest: Option<Jid>)
      ensures oldest.Some? ==> IsOldest(rows, oldest.value)
      ensures oldest.Some? ==> oldest.value in rows && !rows[oldest.value].self && rows[oldest.value].state in {Left, Failed}
      ensures oldest.Some? ==> forall q :: q in rows && !rows[q].self && rows[q].state in {Left, Failed} ==> rows[oldest.value].order <= rows[q].order
      ensures oldest.None? ==> forall k :: k in rows ==> !Evictable(rows[k])
    {
      oldest := None;
      var todo := rows.Keys;
      while todo != {}
        invariant todo <= rows.Keys
        invariant oldest.Some? ==> oldest.value in rows && Evictable(rows[oldest.value])
        invariant forall k :: k in rows && k !in todo && Evictable(rows[k]) ==>
          oldest.Some? && rows[oldest.value].order <= rows[k].order
        decreases todo
      {
        var k :| k in todo;
        if Evictable(rows[k]) && (oldest.None? || rows[k].order < rows[oldest.value].order) {
          oldest := Some(k);
        }
        todo := todo - {k};
      }
    }

    ghost predicate NoneMatches(id: Jid, pn: Option<Jid>)
      reads this
    {
      forall k :: k in rows ==> !Matches(rows[k], id, pn)
    }

    /** One of the matching rows, under the hidden id if that is known, and with the latest number. */
    ghost predicate WasRow(was: Rows, row: Row, id: Jid, pn: Option<Jid>) {
      exists k :: k in was && Matches(was[k], id, pn)
        && row == was[k].(id := if id.Lid? then id else k, pn := if pn.Some? then pn else was[k].pn)
    }

    ghost predicate OldestGone(was: Rows, k: Jid) {
      && k in was && !was[k].self && was[k].state in {Left, Failed}
      && forall q :: q in was && !was[q].self && was[q].state in {Left, Failed} ==> was[k].order <= was[q].order
    }

    method Put(id: Jid, pn: Option<Jid>) returns (key: Jid)
      requires Valid()
      modifies this`rows, this`order
      ensures Valid() && key in rows
      ensures IsPut(old(rows), rows, key, id, pn, old(order) + 1)
      ensures forall q :: q in rows && q != key ==> q in old(rows) && rows[q] == old(rows)[q]
      ensures old(NoneMatches(id, pn)) ==> key == id && rows[key] == Row(id, pn, false, Invited, old(order) + 1, None, false)
      ensures !old(NoneMatches(id, pn)) ==> key in rows && WasRow(old(rows), rows[key], id, pn)
      ensures forall q :: q in old(rows) && q !in rows && !Matches(old(rows)[q], id, pn) ==> |old(rows)| >= 32 && OldestGone(old(rows), q)
    {
      ghost var was := rows;
      var found := Find(id, pn);
      if found.Some? {
        key := found.value;
        var row := rows[key];
        if id.Lid? && row.id != id {
          rows := rows - {key};
          key := id;
        }
        rows := rows[key := row.(id := key, pn := if pn.Some? then pn else row.pn)];
        assert Renamed(was, rows, found.value, key, id, pn);
        PutTouchesOne(was, rows, key, id, pn, order + 1);
        return;
      }
      if |rows| >= HISTORY_LIMIT {
        var oldest := Oldest();
        if oldest.Some? {
          rows := rows - {oldest.value};
        }
      }
      order := order + 1;
      key := id;
      rows := rows[id := NewRow(id, pn, order)];
      assert Added(was, rows, key, id, pn, order);
      PutTouchesOne(was, rows, key, id, pn, order);
    }

    method ParticipantCount() returns (count: nat)
      ensures count == Count(rows)
      ensures count == |set k | k in rows && (rows[k].self || rows[k].state == Connected || rows[k].state == Invited)|
    {
      count := 0;
      var todo := rows.Keys;
      while todo != {}
        invariant todo <= rows.Keys
        invariant count == |CountedIds(rows) - todo|
        decreases todo
      {
        var k :| k in todo;
        if Counted(rows[k]) {
          count := count + 1;
          assert CountedIds(rows) - (todo - {k}) == CountedIds(rows) - todo + {k};
        } else {
          assert CountedIds(rows) - (todo - {k}) == CountedIds(rows) - todo;
        }
        todo := todo - {k};
      }
      assert CountedIds(rows) - {} == CountedIds(rows);
      assert CountedIds(rows) == set k | k in rows && (rows[k].self || rows[k].state == Connected || rows[k].state == Invited);
    }

    method ExpireInvites(now: int)
      requires Valid()
      modifies this`rows
      ensures Valid() && rows == Expired(old(rows), now) && Count(rows) <= Count(old(rows))
      ensures forall k :: k in rows <==> k in old(rows)
      ensures forall k :: k in rows && old(rows)[k].state == Invited && old(rows)[k].pendingUntil.Some? && old(rows)[k].pendingUntil.value <= now ==>
        rows[k] == old(rows)[k].(state := Failed, localPending := false)
      ensures forall k :: k in rows && rows[k] != old(rows)[k] ==>
        old(rows)[k].state == Invited && old(rows)[k].pendingUntil.Some? && old(rows)[k].pendingUntil.value <= now
    {
      ghost var was := rows;
      var todo := rows.Keys;
      while todo != {}
        invariant todo <= rows.Keys == was.Keys
        invariant forall k :: k in rows ==> rows[k] == if k in todo then was[k] else ExpiredRow(was[k], now)
        decreases todo
      {
        var k :| k in todo;
        rows := rows[k := ExpiredRow(rows[k], now)];
        todo := todo - {k};
      }
      ExpiryFreesSlots(was, now);
    }

    predicate Own(id: Jid, pn: Option<Jid>)
      ensures Own(id, pn) <==> id in own || (pn.Some? && pn.value in own)
    {
      id in own || (pn.Some? && pn.value in own)
    }

    /** Neither this account nor somebody this Invite has tried. */
    predicate Tried(id: Jid, pn: Option<Jid>, attempted: set<Jid>)
      ensures Tried(id, pn, attempted) <==> id in attempted || (pn.Some? && pn.value in attempted)
    {
      id in attempted || (pn.Some? && pn.value in attempted)
    }

    predicate Invitable(id: Jid, pn: Option<Jid>, attempted: set<Jid>) {
      !Own(id, pn) && !Tried(id, pn, attempted)
    }

    /** A row that matches is this account's, holds a slot, or has none. */
    ghost predicate SomeSelf(id: Jid, pn: Option<Jid>)
      reads this
    {
      exists k :: k in rows && Matches(rows[k], id, pn) && rows[k].self
    }

    ghost predicate SomeHolds(id: Jid, pn: Option<Jid>)
      reads this
    {
      exists k :: k in rows && Matches(rows[k], id, pn) && !rows[k].self && (rows[k].state == Connected || rows[k].state == Invited)
    }

    ghost predicate SomeGone(id: Jid, pn: Option<Jid>)
      reads this
    {
      exists k :: k in rows && Matches(rows[k], id, pn) && !rows[k].self && (rows[k].state == Left || rows[k].state == Failed)
    }

    /** Who may not be invited: this account, and who already has a slot. */
    method IdentityError(id: Jid, pn: Option<Jid>) returns (code: Code)
      ensures code in {Reserved, IsSelf, Duplicate}
      ensures Own(id, pn) ==> code == IsSelf
      ensures code == IsSelf ==> Own(id, pn) || SomeSelf(id, pn)
      ensures code == Duplicate ==> SomeHolds(id, pn)
      ensures code == Reserved ==> NoneMatches(id, pn) || SomeGone(id, pn)
    {
      if id in own || (pn.Some? && pn.value in own) {
        return IsSelf;
      }
      var found := Find(id, pn);
      if found.Some? {
        if rows[found.value].self {
          return IsSelf;
        }
        if rows[found.value].state == Connected || rows[found.value].state == Invited {
          return Duplicate;
        }
      }
      return Reserved;
    }

    /** Invite, once a target is resolved: its slot is taken, or the code says why not. */
    method ReserveSlot(id: Jid, pn: Option<Jid>, attempted: set<Jid>, interrupted: bool, now: int) returns (code: Code)
      requires Valid() && Count(rows) <= PARTICIPANT_LIMIT
      modifies this`rows, this`order
      ensures Valid() && Count(rows) <= PARTICIPANT_LIMIT
      ensures |old(rows)| <= HISTORY_LIMIT ==> |rows| <= HISTORY_LIMIT
      ensures code != Reserved ==> rows == old(rows)
      ensures code == Interrupted <==> interrupted
      ensures Answers(code, old(rows), old(SomeSelf(id, pn)), old(SomeHolds(id, pn)), old(SomeGone(id, pn)), id, pn, attempted, interrupted)
      ensures code == Reserved ==> SlotTaken(old(rows), rows, id, pn, old(order) + 1, now)
      ensures code == Reserved ==> exists k :: HoldsSlot(k, id, pn, now)
    {
      code := SlotError(id, pn, attempted, interrupted);
      if code != Reserved {
        return;
      }
      ghost var mid, key := TakeSlot(id, pn, now);
    }

    /** Each answer, and what it takes: an interruption comes first, then the person, then the limit.
        Where several rows match one person any of them may be the one found. */
    ghost predicate Answers(code: Code, rows: Rows, self: bool, holds: bool, gone: bool, id: Jid, pn: Option<Jid>, attempted: set<Jid>,
                            interrupted: bool)
    {
      && (code == Interrupted <==> interrupted)
      && (code == IsSelf ==> Own(id, pn) || self)
      && (code == Duplicate ==> !Own(id, pn) && (holds || (Tried(id, pn, attempted) && (gone || !self))))
      && (code == Limit || code == Reserved ==> !Own(id, pn) && !Tried(id, pn, attempted) && (gone || !(self || holds)))
      && (code == Limit ==> Count(rows) >= 8)
      && (code == Reserved ==> Count(rows) < 8)
    }

    /** Somebody not this account, nor tried before, of whom no row holds a slot, gets one exactly if
        one is left; a person's own answers are as certain. */
    lemma AnswersAreExact(code: Code, rows: Rows, self: bool, holds: bool, gone: bool, id: Jid, pn: Option<Jid>, attempted: set<Jid>)
      requires Answers(code, rows, self, holds, gone, id, pn, attempted, false)
      ensures !Own(id, pn) && !Tried(id, pn, attempted) && !self && !holds ==> code == if Count(rows) < 8 then Reserved else Limit
      ensures Own(id, pn) || (self && !holds && !gone) ==> code == IsSelf
      ensures !Own(id, pn) && !self && (Tried(id, pn, attempted) || (holds && !gone)) ==> code == Duplicate
    {
    }

    /** The slot is held for sixty seconds, for an invitation from here. */
    ghost predicate HoldsSlot(k: Jid, id: Jid, pn: Option<Jid>, now: int)
      reads this
    {
      && k in rows && Matches(rows[k], id, pn)
      && rows[k].state == Invited && rows[k].pendingUntil == Some(now + 60) && rows[k].localPending
    }

    method SlotError(id: Jid, pn: Option<Jid>, attempted: set<Jid>, interrupted: bool) returns (code: Code)
      requires Count(rows) <= PARTICIPANT_LIMIT
      ensures Answers(code, rows, SomeSelf(id, pn), SomeHolds(id, pn), SomeGone(id, pn), id, pn, attempted, interrupted)
    {
      code := IdentityError(id, pn);
      if code == Reserved && Tried(id, pn, attempted) {
        code := Duplicate;
      }
      if interrupted {
        code := Interrupted;
      }
      if code == Reserved {
        var count := ParticipantCount();
        if count >= PARTICIPANT_LIMIT {
          code := Limit;
        }
      }
    }

    method TakeSlot(id: Jid, pn: Option<Jid>, now: int) returns (ghost mid: Rows, ghost taken: Jid)
      requires Valid() && Count(rows) < PARTICIPANT_LIMIT
      modifies this`rows, this`order
      ensures Valid() && Count(rows) <= PARTICIPANT_LIMIT
      ensures |old(rows)| <= HISTORY_LIMIT ==> |rows| <= HISTORY_LIMIT
      ensures SlotTakenBy(old(rows), mid, taken, rows, id, pn, old(order) + 1, now)
      ensures HoldsSlot(taken, id, pn, now)
    {
      ghost var was := rows;
      var key := Put(id, pn);
      mid, taken := rows, key;
      var row := Held(rows[key], now);
      PutTakesOneSlot(was, mid, key, row);
      if |was| <= HISTORY_LIMIT {
        PutKeepsHistory(was, mid, key, id, pn, old(order) + 1);
        assert mid[key := row].Keys == mid.Keys;
      }
      rows := rows[key := row];
      assert IsPut(was, mid, key, id, pn, old(order) + 1) && rows == mid[key := Held(mid[key], now)];
    }

    /** Invite, after the engine failed: the current row gives its slot back, if still invited. */
    method FailInvite(id: Jid, pn: Option<Jid>)
      requires Valid()
      modifies this`rows
      ensures Valid() && Count(rows) <= Count(old(rows))
      ensures
        || (exists k ::
              && k in old(rows) && Matches(old(rows)[k], id, pn) && old(rows)[k].state == Invited
              && rows == old(rows)[k := old(rows)[k].(state := Failed, localPending := false)])
        || (rows == old(rows)
            && ((forall k :: k in rows ==> !Matches(rows[k], id, pn))
                || exists k :: k in rows && Matches(rows[k], id, pn) && rows[k].state != Invited))
    {
      var found := Find(id, pn);
      if found.Some? && rows[found.value].state == Invited {
        ghost var was := rows;
        rows := rows[found.value := rows[found.value].(state := Failed, localPending := false)];
        assert CountedIds(rows) <= CountedIds(was);
        SubsetSize(CountedIds(rows), CountedIds(was));
      }
    }

    method ActivateRows()
      requires Valid()
      modifies this`rows
      ensures Valid() && rows == if group then old(rows) else Remarked(old(rows))
      ensures forall k :: k in rows <==> k in old(rows)
      ensures forall k :: k in rows ==> rows[k] == if group then old(rows)[k] else old(rows)[k].(state := Connected)
    {
      if !group {
        rows := map k | k in rows :: rows[k].(state := Connected);
      }
    }

    /** A group state: the next roster is built beside this one, and taken whole or not at all. */
    method GroupState(state: nat, entries: seq<Entry>, usable: bool, now: int) returns (outcome: Outcome, ghost passes: seq<Rows>)
      requires Valid() && Count(rows) <= PARTICIPANT_LIMIT
      modifies this
      ensures Valid() && Count(rows) <= PARTICIPANT_LIMIT
      ensures outcome == Unsupported <==> !usable
      ensures outcome == Stale <==> usable && old(transaction) != 0 && state <= old(transaction)
      ensures outcome in {Unsupported, Stale} ==> rows == old(rows)
      ensures outcome == OverLimit ==> rows == Expired(old(rows), now)
      ensures outcome in {Applied, OverLimit} ==>
        && AllRead(passes, entries, state, now)
        && passes[0] == Carried(Expired(old(rows), now), state, now)
        && (outcome == Applied <==> Count(passes[|entries|]) <= PARTICIPANT_LIMIT)
      ensures outcome == Applied ==> rows == passes[|entries|] && group && transaction == (if state != 0 then state else old(transaction))
      ensures outcome != Applied ==> group == old(group) && transaction == old(transaction)
    {
      passes := [];
      if !usable {
        return Unsupported, passes;
      }
      if state != 0 && transaction != 0 && state <= transaction {
        return Stale, passes;
      }
      if state == 0 && transaction != 0 {
        return Stale, passes;
      }
      ExpireInvites(now);
      var next := new CallRoster(own, Carried(rows, state, now), order);
      passes := [next.rows];
      var i := 0;
      while i < |entries|
        invariant 0 <= i <= |entries|
        invariant next.Valid() && fresh(next)
        invariant |passes| == i + 1 && passes[i] == next.rows && AllRead(passes, entries[..i], state, now)
        invariant passes[0] == Carried(rows, state, now)
        invariant rows == Expired(old(rows), now) && Valid() && Count(rows) <= PARTICIPANT_LIMIT
        invariant group == old(group) && transaction == old(transaction)
      {
        assert entries[..i + 1][..i] == entries[..i];
        next.Read(entries[i], state, now);
        ghost var longer := passes + [next.rows];
        forall j | 0 <= j < i + 1
          ensures EntryRead(longer[j], longer[j + 1], entries[..i + 1][j], state, now)
        {
          assert j < i ==> EntryRead(passes[j], passes[j + 1], entries[..i][j], state, now);
        }
        passes := longer;
        i := i + 1;
      }
      assert entries[..i] == entries;
      var count := next.ParticipantCount();
      if count > PARTICIPANT_LIMIT {
        return OverLimit, passes;
      }
      rows, order, group := next.rows, next.order, true;
      if state != 0 {
        transaction := state;
      }
      return Applied, passes;
    }

    /** The people whose video the bridge takes, before they are sorted: each once, as rows are keyed
        by id. */
    method ConnectedPeople() returns (ids: seq<Jid>)
      requires Valid()
      ensures forall i, j :: 0 <= i < j < |ids| ==> ids[i] != ids[j]
      ensures forall k :: k in ids <==> k in rows && !rows[k].self && rows[k].state == Connected
    {
      ids := [];
      var todo := rows.Keys;
      while todo != {}
        invariant todo <= rows.Keys
        invariant forall i, j :: 0 <= i < j < |ids| ==> ids[i] != ids[j]
        invariant forall k :: k in ids <==> k in rows && k !in todo && !rows[k].self && rows[k].state == Connected
        decreases todo
      {
        var k :| k in todo;
        if !rows[k].self && rows[k].state == Connected {
          ids := ids + [rows[k].id];
        }
        todo := todo - {k};
      }
    }

    method Read(entry: Entry, state: nat, now: int)
      requires Valid()
      modifies this`rows, this`order
      ensures Valid() && EntryRead(old(rows), rows, entry, state, now)
    {
      if entry.id.None? {
        return;
      }
      ghost var was, next := rows, order + 1;
      var key := Put(entry.id.value, entry.pn);
      ghost var mid := rows;
      assert IsPut(was, mid, key, entry.id.value, entry.pn, next) && key in mid;
      rows := rows[key := Reported(rows[key], entry, state, now)];
      assert rows == mid[key := Reported(mid[key], entry, state, now)];
    }
  }
}
