/** The participant roster of a call (internal/calling/groups.go). */
module Roster {
  import opened Wrappers

  const PARTICIPANT_LIMIT := 8
  const HISTORY_LIMIT := 32
  /** Seconds. */
  const RING_TIMEOUT := 60

  /** A phone number, or the hidden id that supersedes it. */
  datatype Jid = Phone(user: nat) | Lid(user: nat)

  datatype RowState = Invited | Connected | Left | Failed

  datatype Row = Row(id: Jid, pn: Option<Jid>, self: bool, state: RowState, order: nat, pendingUntil: Option<int>, localPending: bool)

  type Rows = map<Jid, Row>

  predicate Matches(row: Row, id: Jid, pn: Option<Jid>) {
    row.id == id || row.pn == Some(id) || (pn.Some? && (row.id == pn.value || row.pn == pn))
  }

  /** A person's ids: one, and their phone number if it is known too. */
  function Ids(id: Jid, pn: Option<Jid>): set<Jid> {
    {id} + if pn.Some? then {pn.value} else {}
  }

  lemma MatchesIff(row: Row, id: Jid, pn: Option<Jid>)
    ensures Matches(row, id, pn) <==> exists x :: x in Ids(row.id, row.pn) && x in Ids(id, pn)
  {
    if Matches(row, id, pn) {
      assert id in Ids(id, pn) && row.id in Ids(row.id, row.pn);
      assert pn.Some? ==> pn.value in Ids(id, pn);
    }
  }

  /** A row that takes one of the call's slots. */
  predicate Counted(row: Row)
    ensures Counted(row) <==> row.self || (row.state != Left && row.state != Failed)
  {
    row.self || row.state == Connected || row.state == Invited
  }

  function CountedIds(rows: Rows): set<Jid> {
    set k | k in rows && Counted(rows[k])
  }

  function Count(rows: Rows): nat {
    |CountedIds(rows)|
  }

  ghost predicate Keyed(rows: Rows) {
    forall k :: k in rows ==> rows[k].id == k
  }

  predicate Evictable(row: Row)
    ensures Evictable(row) <==> !Counted(row)
  {
    !row.self && (row.state == Left || row.state == Failed)
  }

  // ---------- Putting a participant ----------

  function NewRow(id: Jid, pn: Option<Jid>, order: nat): Row {
    Row(id, pn, false, Invited, order, None, false)
  }

  ghost predicate IsOldest(rows: Rows, k: Jid) {
    && k in rows && Evictable(rows[k])
    && forall q :: q in rows && Evictable(rows[q]) ==> rows[k].order <= rows[q].order
  }

  /** A known person's row: under the hidden id once that is known, with the latest phone number. */
  ghost predicate Renamed(rows: Rows, next: Rows, k: Jid, key: Jid, id: Jid, pn: Option<Jid>) {
    && k in rows && Matches(rows[k], id, pn)
    && key == (if id.Lid? then id else k)
    && next == (if key == k then rows else rows - {k})[key := rows[k].(id := key, pn := if pn.Some? then pn else rows[k].pn)]
  }

  /** A new person's row, for which a full history gives up its oldest departed row, if it has one. */
  ghost predicate Added(rows: Rows, next: Rows, key: Jid, id: Jid, pn: Option<Jid>, order: nat) {
    && key == id
    && (forall k :: k in rows ==> !Matches(rows[k], id, pn))
    && if |rows| < HISTORY_LIMIT || !exists k :: k in rows && Evictable(rows[k]) then next == rows[id := NewRow(id, pn, order)]
       else exists k :: IsOldest(rows, k) && next == (rows - {k})[id := NewRow(id, pn, order)]
  }

  /** What putting a participant may do; which of several matching rows is found is left open. */
  ghost predicate IsPut(rows: Rows, next: Rows, key: Jid, id: Jid, pn: Option<Jid>, order: nat) {
    || (exists k :: Renamed(rows, next, k, key, id, pn))
    || Added(rows, next, key, id, pn, order)
  }

  /** Every other row stays as it was; a row that goes was departed, or is the person's own. */
  ghost predicate TouchesOne(rows: Rows, next: Rows, key: Jid, id: Jid, pn: Option<Jid>) {
    && Keyed(next) && key in next
    && (forall q :: q in next && q != key ==> q in rows && next[q] == rows[q])
    && (forall q :: q in rows && q !in next ==> Evictable(rows[q]) || Matches(rows[q], id, pn))
    && (forall q :: q in rows && q in next && next[q] != rows[q] ==> Matches(rows[q], id, pn))
  }

  lemma AddedTouchesOne(rows: Rows, next: Rows, key: Jid, id: Jid, pn: Option<Jid>, order: nat)
    requires Keyed(rows) && Added(rows, next, key, id, pn, order)
    ensures TouchesOne(rows, next, key, id, pn)
  {
  }

  lemma PutTouchesOne(rows: Rows, next: Rows, key: Jid, id: Jid, pn: Option<Jid>, order: nat)
    requires Keyed(rows) && IsPut(rows, next, key, id, pn, order)
    ensures TouchesOne(rows, next, key, id, pn)
  {
    if Added(rows, next, key, id, pn, order) {
      AddedTouchesOne(rows, next, key, id, pn, order);
    } else {
      var k :| Renamed(rows, next, k, key, id, pn);
    }
  }

  /** Whatever row is found and whatever is evicted, one slot more is taken at most. */
  lemma PutTakesOneSlot(rows: Rows, next: Rows, key: Jid, row: Row)
    requires forall q :: q in next && q != key ==> q in rows && next[q] == rows[q]
    ensures Count(next[key := row]) <= Count(rows) + 1
  {
    assert CountedIds(next[key := row]) <= CountedIds(rows) + {key};
    SubsetSize(CountedIds(next[key := row]), CountedIds(rows) + {key});
  }

  lemma {:induction false} SubsetSize<T>(a: set<T>, b: set<T>)
    requires a <= b
    ensures |a| <= |b|
  {
    if a != {} {
      var x :| x in a;
      SubsetSize(a - {x}, b - {x});
    }
  }

  /** A roster within the limit always has a departed row to give up for a new one. */
  lemma FullHistoryCanEvict(rows: Rows)
    requires Count(rows) <= PARTICIPANT_LIMIT && |rows| >= HISTORY_LIMIT
    ensures exists k :: k in rows && Evictable(rows[k])
  {
    assert (forall k :: k in rows ==> !Evictable(rows[k])) ==> CountedIds(rows) == rows.Keys;
  }

  lemma GrowSize(rows: Rows, key: Jid, row: Row)
    ensures |rows[key := row]| <= |rows| + 1
  {
    assert rows[key := row].Keys == rows.Keys + {key};
  }

  lemma PutKeepsHistory(rows: Rows, next: Rows, key: Jid, id: Jid, pn: Option<Jid>, order: nat)
    requires Count(rows) <= PARTICIPANT_LIMIT && |rows| <= HISTORY_LIMIT && IsPut(rows, next, key, id, pn, order)
    ensures |next| <= HISTORY_LIMIT
  {
    if k :| Renamed(rows, next, k, key, id, pn) {
      var row := next[key];
      assert next.Keys <= (rows - {k})[key := row].Keys;
      SubsetSize(next.Keys, (rows - {k})[key := row].Keys);
    } else if |rows| < HISTORY_LIMIT {
      GrowSize(rows, id, NewRow(id, pn, order));
    } else {
      FullHistoryCanEvict(rows);
      var k :| IsOldest(rows, k) && next == (rows - {k})[id := NewRow(id, pn, order)];
    }
  }

  /** A slot held for somebody about to be invited. */
  function Held(row: Row, now: int): Row {
    row.(state := Invited, pendingUntil := Some(now + RING_TIMEOUT), localPending := true)
  }

  ghost predicate SlotTaken(rows: Rows, next: Rows, id: Jid, pn: Option<Jid>, order: nat, now: int) {
    exists mid: Rows, key: Jid :: SlotTakenBy(rows, mid, key, next, id, pn, order, now)
  }

  /** The person is put, and their row then holds the slot. */
  ghost predicate SlotTakenBy(rows: Rows, mid: Rows, key: Jid, next: Rows, id: Jid, pn: Option<Jid>, order: nat, now: int) {
    IsPut(rows, mid, key, id, pn, order) && key in mid && next == mid[key := Held(mid[key], now)]
  }

  // ---------- Expiry, and the roster before a group forms ----------

  function ExpiredRow(row: Row, now: int): Row {
    if row.state == Invited && row.pendingUntil.Some? && row.pendingUntil.value <= now
    then row.(state := Failed, localPending := false) else row
  }

  function Expired(rows: Rows, now: int): Rows {
    map k | k in rows :: ExpiredRow(rows[k], now)
  }

  lemma ExpiryFreesSlots(rows: Rows, now: int)
    ensures Count(Expired(rows, now)) <= Count(rows) && (Keyed(rows) ==> Keyed(Expired(rows, now)))
  {
    SubsetSize(CountedIds(Expired(rows, now)), CountedIds(rows));
  }

  /** service.go, phase: until a group forms, an active call marks every row connected. */
  function Remarked(rows: Rows): Rows {
    map k | k in rows :: rows[k].(state := Connected)
  }

  /** So that step keeps the limit exactly when a group has formed or the rows, departed ones too,
      are no more than the limit. */
  lemma PhaseKeepsLimitIff(rows: Rows, group: bool)
    requires Count(rows) <= PARTICIPANT_LIMIT
    ensures Count(if group then rows else Remarked(rows)) <= PARTICIPANT_LIMIT <==> group || |rows| <= PARTICIPANT_LIMIT
  {
    assert CountedIds(Remarked(rows)) == rows.Keys;
  }

  // ---------- A group state ----------

  datatype EntryState = InCall | Departed | CallFailed | OtherState

  /** One participant of a group state. id: none where it is no individual. own: it is this account.
      device: one of its devices can be chosen. */
  datatype Entry = Entry(id: Option<Jid>, pn: Option<Jid>, own: bool, state: EntryState, device: bool)

  /** A row carried over before the entries are read: with a real transaction those not invited
      from here have left, until an entry says otherwise. */
  function CarriedRow(row: Row, transaction: nat, now: int): Row {
    if row.self then row
    else if transaction == 0 then
      if row.state == Connected then row.(state := Invited, pendingUntil := Some(now + RING_TIMEOUT)) else row
    else if !row.localPending && (row.state == Connected || row.state == Invited) then row.(state := Left)
    else row
  }

  function Carried(rows: Rows, transaction: nat, now: int): Rows {
    map k | k in rows :: CarriedRow(rows[k], transaction, now)
  }

  function Reported(row: Row, entry: Entry, transaction: nat, now: int): Row {
    var self := row.self || entry.own;
    var state :=
      if self then Connected
      else if transaction == 0 then Invited
      else match entry.state
        case InCall => if entry.device then Connected else Invited
        case Departed => Left
        case CallFailed => Failed
        case OtherState => Invited;
    var until := if state == Invited && row.pendingUntil.None? then Some(now + RING_TIMEOUT) else row.pendingUntil;
    row.(self := self, localPending := false,
         state := if state == Invited && until.value <= now then Failed else state,
         pendingUntil := if state == Connected then None else until)
  }

  /** One entry read into the roster. */
  ghost predicate EntryRead(rows: Rows, next: Rows, entry: Entry, transaction: nat, now: int) {
    if entry.id.None? then next == rows
    else
      exists mid: Rows, key: Jid, order: nat ::
        IsPut(rows, mid, key, entry.id.value, entry.pn, order) && key in mid
        && next == mid[key := Reported(mid[key], entry, transaction, now)]
  }

  /** Every entry read, one after the other. */
  ghost predicate AllRead(passes: seq<Rows>, entries: seq<Entry>, transaction: nat, now: int) {
    && |passes| == |entries| + 1
    && forall i :: 0 <= i < |entries| ==> EntryRead(passes[i], passes[i + 1], entries[i], transaction, now)
  }

  /** Who no entry names by any of their ids is gone afterwards, whoever else is renamed or evicted. */
  lemma {:induction false} UnnamedHaveLeft(passes: seq<Rows>, entries: seq<Entry>, transaction: nat, now: int, k: Jid, row: Row)
    requires AllRead(passes, entries, transaction, now) && Keyed(passes[0]) && k in passes[0] && passes[0][k] == row
    requires forall i :: 0 <= i < |entries| && entries[i].id.Some? ==> !Matches(row, entries[i].id.value, entries[i].pn)
    ensures var last := passes[|entries|];
      Keyed(last) && (k in last ==> last[k] == row) && (k !in last ==> Evictable(row))
    decreases |entries|
  {
    if entries != [] {
      var n := |entries| - 1;
      UnnamedHaveLeft(passes[..n + 1], entries[..n], transaction, now, k, row);
      assert EntryRead(passes[n], passes[n + 1], entries[n], transaction, now);
      if entries[n].id.Some? {
        var mid: Rows, key: Jid, order: nat :| IsPut(passes[n], mid, key, entries[n].id.value, entries[n].pn, order) && key in mid
          && passes[n + 1] == mid[key := Reported(mid[key], entries[n], transaction, now)];
        PutTouchesOne(passes[n], mid, key, entries[n].id.value, entries[n].pn, order);
      }
    }
  }

  // ---------- A person whom one entry names ----------

  /** The row that an entry is read into, before it is: a new one, or one that it matches, under the
      entry's ids. */
  ghost predicate IsNew(rows: Rows, was: Row, id: Jid, pn: Option<Jid>) {
    was == Row(id, pn, false, Invited, was.order, None, false) && forall q :: q in rows ==> !Matches(rows[q], id, pn)
  }

  ghost predicate IsFrom(rows: Rows, was: Row, k: Jid, id: Jid, pn: Option<Jid>) {
    && k in rows && Matches(rows[k], id, pn) && was == rows[k].(id := was.id, pn := was.pn)
    && Ids(was.id, was.pn) <= Ids(rows[k].id, rows[k].pn) + Ids(id, pn)
  }

  ghost predicate ReadInto(rows: Rows, next: Rows, was: Row, id: Jid, pn: Option<Jid>) {
    && was.id in next && Matches(was, id, pn)
    && (forall q :: q in next && q != was.id ==> q in rows && next[q] == rows[q])
    && (forall q :: q in rows && q !in next && !Matches(rows[q], id, pn) ==> Evictable(rows[q]))
    && (IsNew(rows, was, id, pn) || exists k :: IsFrom(rows, was, k, id, pn) && (k in next ==> k == was.id))
  }

  lemma PutInto(rows: Rows, mid: Rows, key: Jid, id: Jid, pn: Option<Jid>, order: nat)
    requires Keyed(rows) && IsPut(rows, mid, key, id, pn, order)
    ensures key in mid && mid[key].id == key && ReadInto(rows, mid, mid[key], id, pn)
  {
    PutTouchesOne(rows, mid, key, id, pn, order);
    if k :| Renamed(rows, mid, k, key, id, pn) {
      assert IsFrom(rows, mid[key], k, id, pn);
    } else {
      assert IsNew(rows, mid[key], id, pn);
    }
  }

  lemma ReadOnce(rows: Rows, next: Rows, entry: Entry, transaction: nat, now: int) returns (was: Row)
    requires Keyed(rows) && EntryRead(rows, next, entry, transaction, now) && entry.id.Some?
    ensures Keyed(next) && ReadInto(rows, next, was, entry.id.value, entry.pn) && next[was.id] == Reported(was, entry, transaction, now)
  {
    var mid: Rows, key: Jid, order: nat :| IsPut(rows, mid, key, entry.id.value, entry.pn, order) && key in mid
      && next == mid[key := Reported(mid[key], entry, transaction, now)];
    was := mid[key];
    PutInto(rows, mid, key, entry.id.value, entry.pn, order);
    PutTouchesOne(rows, mid, key, entry.id.value, entry.pn, order);
  }

  /** One of the ids is the row's. */
  ghost predicate Named(row: Row, ids: set<Jid>) {
    !(Ids(row.id, row.pn) !! ids)
  }

  lemma NamedBy(rows: Rows, id: Jid, pn: Option<Jid>)
    ensures forall q :: q in rows ==> (Matches(rows[q], id, pn) <==> Named(rows[q], Ids(id, pn)))
  {
    forall q | q in rows
      ensures Matches(rows[q], id, pn) <==> Named(rows[q], Ids(id, pn))
    {
      MatchesIff(rows[q], id, pn);
    }
  }

  /** An entry about other people than these: it has none of the ids. */
  ghost predicate AboutOthers(entry: Entry, ids: set<Jid>) {
    entry.id.Some? ==> Ids(entry.id.value, entry.pn) !! ids
  }

  /** All the ids of one person: a row that has one of them has no others, and they have one row at most. */
  ghost predicate OnePerson(rows: Rows, ids: set<Jid>) {
    && (forall q :: q in rows && Named(rows[q], ids) ==> Ids(rows[q].id, rows[q].pn) <= ids)
    && (forall p, q :: p in rows && q in rows && Named(rows[p], ids) && Named(rows[q], ids) ==> p == q)
  }

  lemma OthersMakeNone(rows: Rows, next: Rows, entry: Entry, transaction: nat, now: int, ids: set<Jid>)
    requires Keyed(rows) && EntryRead(rows, next, entry, transaction, now) && OnePerson(rows, ids) && AboutOthers(entry, ids)
    ensures Keyed(next) && forall q :: q in next && Named(next[q], ids) ==> q in rows && next[q] == rows[q]
    ensures forall q :: q in rows && Named(rows[q], ids) && q !in next ==> Evictable(rows[q])
  {
    if entry.id.Some? {
      var was := ReadOnce(rows, next, entry, transaction, now);
      OthersUnmatched(rows, entry.id.value, entry.pn, ids);
      OthersNotRead(rows, was, entry.id.value, entry.pn, ids);
    }
  }

  lemma OthersUnmatched(rows: Rows, id: Jid, pn: Option<Jid>, ids: set<Jid>)
    requires OnePerson(rows, ids) && Ids(id, pn) !! ids
    ensures forall q :: q in rows && Named(rows[q], ids) ==> !Matches(rows[q], id, pn)
  {
    NamedBy(rows, id, pn);
  }

  lemma OthersNotRead(rows: Rows, was: Row, id: Jid, pn: Option<Jid>, ids: set<Jid>)
    requires IsNew(rows, was, id, pn) || exists k :: IsFrom(rows, was, k, id, pn)
    requires Ids(id, pn) !! ids && forall q :: q in rows && Named(rows[q], ids) ==> !Matches(rows[q], id, pn)
    ensures !Named(was, ids)
  {
    if k :| IsFrom(rows, was, k, id, pn) {
      assert !Named(rows[k], ids);
    }
  }

  /** However many entries about others are read, the person's row stays, or is given up as departed. */
  lemma {:induction false} OthersKeep(passes: seq<Rows>, entries: seq<Entry>, transaction: nat, now: int, ids: set<Jid>)
    requires AllRead(passes, entries, transaction, now) && Keyed(passes[0]) && OnePerson(passes[0], ids)
    requires forall i :: 0 <= i < |entries| ==> AboutOthers(entries[i], ids)
    ensures var last := passes[|entries|];
      && Keyed(last) && OnePerson(last, ids)
      && (forall q :: q in last && Named(last[q], ids) ==> q in passes[0] && last[q] == passes[0][q])
      && (forall q :: q in passes[0] && Named(passes[0][q], ids) && q !in last ==> Evictable(passes[0][q]))
    decreases |entries|
  {
    if entries != [] {
      var n := |entries| - 1;
      OthersKeep(passes[..n + 1], entries[..n], transaction, now, ids);
      assert EntryRead(passes[n], passes[n + 1], entries[n], transaction, now);
      OthersMakeNone(passes[n], passes[n + 1], entries[n], transaction, now, ids);
    }
  }

  /** The entry has only the person's ids, and one that the roster knows the person by, if it does. */
  ghost predicate OwnEntry(rows: Rows, entry: Entry, ids: set<Jid>) {
    && entry.id.Some? && Ids(entry.id.value, entry.pn) <= ids
    && forall q :: q in rows && Named(rows[q], ids) ==> Matches(rows[q], entry.id.value, entry.pn)
  }

  ghost predicate NewPerson(rows: Rows, was: Row, ids: set<Jid>) {
    !was.self && was.pendingUntil.None? && forall q :: q in rows ==> !Named(rows[q], ids)
  }

  ghost predicate KnownPerson(rows: Rows, was: Row, k: Jid, ids: set<Jid>) {
    k in rows && Named(rows[k], ids) && was.self == rows[k].self && was.pendingUntil == rows[k].pendingUntil
  }

  lemma OwnRow(rows: Rows, next: Rows, was: Row, entry: Entry, ids: set<Jid>)
    requires Keyed(rows) && OnePerson(rows, ids) && OwnEntry(rows, entry, ids)
    requires ReadInto(rows, next, was, entry.id.value, entry.pn)
    requires next[was.id].id == was.id && next[was.id].pn == was.pn
    ensures OnePerson(next, ids) && Named(next[was.id], ids)
    ensures NewPerson(rows, was, ids) || exists k :: KnownPerson(rows, was, k, ids)
  {
    NamedBy(rows, entry.id.value, entry.pn);
    MatchesIff(was, entry.id.value, entry.pn);
    if k :| IsFrom(rows, was, k, entry.id.value, entry.pn) && (k in next ==> k == was.id) {
      assert KnownPerson(rows, was, k, ids);
    } else {
      assert NewPerson(rows, was, ids);
    }
  }

  /** The person's own entry finds their row, if they have one, and leaves them one. */
  lemma OwnEntryRead(rows: Rows, next: Rows, entry: Entry, transaction: nat, now: int, ids: set<Jid>) returns (was: Row)
    requires Keyed(rows) && EntryRead(rows, next, entry, transaction, now) && OnePerson(rows, ids) && OwnEntry(rows, entry, ids)
    ensures Keyed(next) && OnePerson(next, ids) && was.id in next && Named(next[was.id], ids)
    ensures next[was.id] == Reported(was, entry, transaction, now)
    ensures NewPerson(rows, was, ids) || exists k :: KnownPerson(rows, was, k, ids)
  {
    was := ReadOnce(rows, next, entry, transaction, now);
    OwnRow(rows, next, was, entry, ids);
  }

  /** The invitation has run out. */
  ghost predicate RunOut(row: Row, now: int) {
    row.pendingUntil.Some? && row.pendingUntil.value <= now
  }

  /** What an entry says of a person: this account is connected; anybody else is what a real
      transaction says, and invited otherwise, for as long as the invitation lasts. */
  ghost predicate Says(entry: Entry, self: bool, transaction: nat, due: bool, state: RowState) {
    var told := !self && transaction != 0;
    && (state == Connected <==> self || (told && entry.state == InCall && entry.device))
    && (state == Left <==> told && entry.state == Departed)
    && (told && entry.state == CallFailed ==> state == Failed)
    && (state == Failed ==> (told && entry.state == CallFailed) || due)
    && (state == Invited ==> !due)
  }

  lemma ReportedSays(was: Row, entry: Entry, transaction: nat, now: int)
    ensures var row := Reported(was, entry, transaction, now);
      && Says(entry, was.self || entry.own, transaction, RunOut(was, now), row.state)
      && row.self == (was.self || entry.own) && !row.localPending
      && row.id == was.id && row.pn == was.pn
  {
  }

  lemma Suffix(passes: seq<Rows>, entries: seq<Entry>, transaction: nat, now: int, n: nat)
    requires AllRead(passes, entries, transaction, now) && n <= |entries|
    ensures AllRead(passes[..n + 1], entries[..n], transaction, now) && AllRead(passes[n..], entries[n..], transaction, now)
  {
    var later, rest := passes[n..], entries[n..];
    forall i | 0 <= i < |rest|
      ensures EntryRead(later[i], later[i + 1], rest[i], transaction, now)
    {
      assert EntryRead(passes[n + i], passes[n + i + 1], entries[n + i], transaction, now);
    }
  }

  /** The row the entry is read into, by what the roster had of the person at first. */
  ghost predicate AtFirst(first: Rows, was: Row, now: int, ids: set<Jid>) {
    && (was.self <==> exists q :: q in first && Named(first[q], ids) && first[q].self)
    && (RunOut(was, now) ==> exists q :: q in first && Named(first[q], ids) && RunOut(first[q], now))
    && (!RunOut(was, now) ==> forall q :: q in first && Named(first[q], ids) && RunOut(first[q], now) ==> Evictable(first[q]))
  }

  lemma WasKnown(first: Rows, rows: Rows, was: Row, now: int, ids: set<Jid>)
    requires Keyed(first) && Keyed(rows) && OnePerson(first, ids)
    requires forall q :: q in rows && Named(rows[q], ids) ==> q in first && rows[q] == first[q]
    requires forall q :: q in first && Named(first[q], ids) && q !in rows ==> Evictable(first[q])
    requires NewPerson(rows, was, ids) || exists k :: KnownPerson(rows, was, k, ids)
    ensures AtFirst(first, was, now, ids)
  {
    if k :| KnownPerson(rows, was, k, ids) {
      assert k in first && first[k] == rows[k];
      assert forall q :: q in first && Named(first[q], ids) ==> q == k;
    } else {
      forall q | q in first && Named(first[q], ids)
        ensures Evictable(first[q])
      {
        assert first[q].id in ids;
        assert q in rows ==> rows[q].id in Ids(rows[q].id, rows[q].pn);
      }
    }
  }

  /** The entries as far as the person's own one. */
  lemma UpToOwn(passes: seq<Rows>, entries: seq<Entry>, transaction: nat, now: int, ids: set<Jid>) returns (was: Row)
    requires AllRead(passes, entries, transaction, now) && Keyed(passes[0]) && OnePerson(passes[0], ids)
    requires entries != [] && OwnEntry(passes[0], entries[|entries| - 1], ids)
    requires forall j :: 0 <= j < |entries| - 1 ==> AboutOthers(entries[j], ids)
    ensures var last := passes[|entries|];
      Keyed(last) && OnePerson(last, ids) && was.id in last && Named(last[was.id], ids)
      && last[was.id] == Reported(was, entries[|entries| - 1], transaction, now)
    ensures AtFirst(passes[0], was, now, ids)
  {
    var n := |entries| - 1;
    Suffix(passes, entries, transaction, now, n);
    OthersKeep(passes[..n + 1], entries[..n], transaction, now, ids);
    assert EntryRead(passes[n], passes[n + 1], entries[n], transaction, now);
    was := OwnEntryRead(passes[n], passes[n + 1], entries[n], transaction, now, ids);
    WasKnown(passes[0], passes[n], was, now, ids);
  }

  /** The entries after it: the row stays, or is given up as departed. */
  lemma FromOwnOn(passes: seq<Rows>, entries: seq<Entry>, transaction: nat, now: int, ids: set<Jid>, k: Jid)
    requires AllRead(passes, entries, transaction, now) && Keyed(passes[0]) && OnePerson(passes[0], ids)
    requires k in passes[0] && Named(passes[0][k], ids)
    requires forall j :: 0 <= j < |entries| ==> AboutOthers(entries[j], ids)
    ensures var last := passes[|entries|];
      && (forall q :: q in last && Named(last[q], ids) ==> last[q] == passes[0][k])
      && (Counted(passes[0][k]) ==> k in last && Named(last[k], ids))
  {
    OthersKeep(passes, entries, transaction, now, ids);
    var last := passes[|entries|];
    if k in last {
      assert passes[0][k].id in ids && last[k].id == k;
      assert k in Ids(last[k].id, last[k].pn);
    }
  }

  /** The person has a row, or had one that was given up as departed, and it is so. */
  ghost predicate StandsAs(rows: Rows, ids: set<Jid>, state: RowState, self: bool) {
    && (forall q :: q in rows && Named(rows[q], ids) ==> rows[q].state == state && rows[q].self == self)
    && (self || state == Connected || state == Invited ==> exists q :: q in rows && Named(rows[q], ids))
  }

  /** Over a whole group state, of a person whom one entry alone names: they stand as the entry says,
      wherever in the list it is and whoever else comes, goes, is renamed or is evicted. was: the row
      the entry was read into, this account's or invited as the roster had the person at first. */
  lemma {:induction false} NamedOnce(passes: seq<Rows>, entries: seq<Entry>, transaction: nat, now: int, i: nat, ids: set<Jid>)
    returns (was: Row, state: RowState)
    requires AllRead(passes, entries, transaction, now) && Keyed(passes[0]) && OnePerson(passes[0], ids)
    requires i < |entries| && OwnEntry(passes[0], entries[i], ids)
    requires forall j :: 0 <= j < |entries| && j != i ==> AboutOthers(entries[j], ids)
    ensures AtFirst(passes[0], was, now, ids)
    ensures Says(entries[i], was.self || entries[i].own, transaction, RunOut(was, now), state)
    ensures StandsAs(passes[|entries|], ids, state, was.self || entries[i].own)
  {
    Suffix(passes, entries, transaction, now, i + 1);
    was := UpToOwn(passes[..i + 2], entries[..i + 1], transaction, now, ids);
    ReportedSays(was, entries[i], transaction, now);
    var rows := passes[i + 1];
    state := rows[was.id].state;
    FromOwnOn(passes[i + 1..], entries[i + 1..], transaction, now, ids, was.id);
  }

  /** So who is reported departed or failed, and is not this account, takes no slot. */
  lemma {:induction false} ReportedGoneTakesNoSlot(passes: seq<Rows>, entries: seq<Entry>, transaction: nat, now: int, i: nat, ids: set<Jid>)
    requires AllRead(passes, entries, transaction, now) && Keyed(passes[0]) && OnePerson(passes[0], ids)
    requires i < |entries| && OwnEntry(passes[0], entries[i], ids) && !entries[i].own && transaction != 0
    requires forall q :: q in passes[0] && Named(passes[0][q], ids) ==> !passes[0][q].self
    requires forall j :: 0 <= j < |entries| && j != i ==> AboutOthers(entries[j], ids)
    requires entries[i].state == Departed || entries[i].state == CallFailed
    ensures forall q :: q in CountedIds(passes[|entries|]) ==> !Named(passes[|entries|][q], ids)
  {
    var was, state := NamedOnce(passes, entries, transaction, now, i, ids);
  }

  /** Who has a slot before the entries are read: in a real transaction this account, and whom Invite
      is inviting; otherwise everybody who had one, this account connected and the others invited. */
  lemma CarriedHolds(rows: Rows, transaction: nat, now: int, k: Jid)
    requires k in rows
    ensures var row := Carried(rows, transaction, now)[k];
      && (Counted(row) <==> Counted(rows[k]) && (transaction == 0 || rows[k].self || rows[k].localPending))
      && (transaction == 0 && !row.self ==> row.state != Connected)
      && (row != rows[k] && transaction == 0 ==> row.pendingUntil == Some(now + 60))
      && row.(state := rows[k].state, pendingUntil := rows[k].pendingUntil) == rows[k]
      && (rows[k].self ==> row == rows[k])
  {
  }

  // ---------- Every roster of a call ----------

  /** The rows of a call, and whether a group has formed. */
  datatype Call = Call(rows: Rows, group: bool)

  datatype Turn =
    | SlotReserved(id: Jid, pn: Option<Jid>, order: nat, now: int)
    | InviteFailed(k: Jid)
    | InvitesExpired(now: int)
    | StateApplied(passes: seq<Rows>, entries: seq<Entry>, transaction: nat, now: int)
    | Activated

  /** What one turn may make of a roster. A slot is reserved below the limit only; a group state is
      taken only when it fits it, and forms the group. */
  ghost predicate Makes(call: Call, next: Call, turn: Turn) {
    var rows := call.rows;
    match turn
    case SlotReserved(id, pn, order, now) =>
      next.group == call.group && Count(rows) < PARTICIPANT_LIMIT && SlotTaken(rows, next.rows, id, pn, order, now)
    case InviteFailed(k) =>
      k in rows && rows[k].state == Invited && next == call.(rows := rows[k := rows[k].(state := Failed, localPending := false)])
    case InvitesExpired(now) => next == call.(rows := Expired(rows, now))
    case StateApplied(passes, entries, transaction, now) =>
      && AllRead(passes, entries, transaction, now) && passes[0] == Carried(Expired(rows, now), transaction, now)
      && next == Call(passes[|entries|], true) && Count(next.rows) <= PARTICIPANT_LIMIT
    case Activated => next == if call.group then call else call.(rows := Remarked(rows))
  }

  ghost predicate StepAt(calls: seq<Call>, turns: seq<Turn>, i: nat)
    requires |calls| == |turns| + 1 && i < |turns|
  {
    Makes(calls[i], calls[i + 1], turns[i])
  }

  ghost predicate IsRun(calls: seq<Call>, turns: seq<Turn>) {
    |calls| == |turns| + 1 && forall i {:trigger StepAt(calls, turns, i)} :: 0 <= i < |turns| ==> StepAt(calls, turns, i)
  }

  lemma SlotKeepsLimit(rows: Rows, next: Rows, id: Jid, pn: Option<Jid>, order: nat, now: int)
    requires Keyed(rows) && Count(rows) < PARTICIPANT_LIMIT && SlotTaken(rows, next, id, pn, order, now)
    ensures Keyed(next) && Count(next) <= PARTICIPANT_LIMIT
  {
    var mid: Rows, key: Jid :| SlotTakenBy(rows, mid, key, next, id, pn, order, now);
    PutTouchesOne(rows, mid, key, id, pn, order);
    PutTakesOneSlot(rows, mid, key, Held(mid[key], now));
  }

  lemma {:induction false} ReadKeepsKeys(passes: seq<Rows>, entries: seq<Entry>, transaction: nat, now: int)
    requires AllRead(passes, entries, transaction, now) && Keyed(passes[0])
    ensures Keyed(passes[|entries|])
    decreases |entries|
  {
    if entries != [] {
      var n := |entries| - 1;
      ReadKeepsKeys(passes[..n + 1], entries[..n], transaction, now);
      assert EntryRead(passes[n], passes[n + 1], entries[n], transaction, now);
      if entries[n].id.Some? {
        var mid: Rows, key: Jid, order: nat :| IsPut(passes[n], mid, key, entries[n].id.value, entries[n].pn, order) && key in mid
          && passes[n + 1] == mid[key := Reported(mid[key], entries[n], transaction, now)];
        PutTouchesOne(passes[n], mid, key, entries[n].id.value, entries[n].pn, order);
      }
    }
  }

  /** Every row is under its own id, and the slots are within the limit. */
  ghost predicate Fits(rows: Rows) {
    Keyed(rows) && Count(rows) <= PARTICIPANT_LIMIT
  }

  /** An activation that finds a group, or no more rows than slots. */
  predicate Harmless(call: Call, turn: Turn) {
    turn.Activated? ==> call.group || |call.rows| <= PARTICIPANT_LIMIT
  }

  lemma TurnFitsIff(call: Call, next: Call, turn: Turn)
    requires Fits(call.rows) && Makes(call, next, turn)
    ensures Fits(next.rows) <==> Harmless(call, turn)
  {
    match turn
    case SlotReserved(id, pn, order, now) => SlotKeepsLimit(call.rows, next.rows, id, pn, order, now);
    case InviteFailed(k) => SubsetSize(CountedIds(next.rows), CountedIds(call.rows));
    case InvitesExpired(now) => ExpiryFreesSlots(call.rows, now);
    case StateApplied(passes, entries, transaction, now) => ReadKeepsKeys(passes, entries, transaction, now);
    case Activated => PhaseKeepsLimitIff(call.rows, call.group);
  }

  ghost predicate AllFit(calls: seq<Call>) {
    forall i :: 0 <= i < |calls| ==> Fits(calls[i].rows)
  }

  ghost predicate AllHarmless(calls: seq<Call>, turns: seq<Turn>)
    requires |turns| < |calls|
  {
    forall i :: 0 <= i < |turns| ==> Harmless(calls[i], turns[i])
  }

  lemma LastOfRun(calls: seq<Call>, turns: seq<Turn>)
    requires IsRun(calls, turns) && turns != []
    ensures var n := |turns| - 1;
      IsRun(calls[..n + 1], turns[..n]) && Makes(calls[n], calls[n + 1], turns[n])
  {
    var n := |turns| - 1;
    var before, sofar := calls[..n + 1], turns[..n];
    assert StepAt(calls, turns, n);
    forall i | 0 <= i < n
      ensures StepAt(before, sofar, i)
    {
      assert StepAt(calls, turns, i);
    }
  }

  /** Over a whole call, whatever is invited, renamed, evicted, failed, expired or reported, in
      whatever order: eight slots are never exceeded and every row is under its own id, if and only
      if no activation before a group finds more than eight rows. */
  lemma {:induction false} LimitHoldsIff(calls: seq<Call>, turns: seq<Turn>)
    requires IsRun(calls, turns) && Fits(calls[0].rows)
    ensures AllFit(calls) <==> AllHarmless(calls, turns)
    decreases |turns|
  {
    if turns != [] {
      var n := |turns| - 1;
      LastOfRun(calls, turns);
      LimitHoldsIff(calls[..n + 1], turns[..n]);
      if AllFit(calls[..n + 1]) {
        assert calls[..n + 1][n] == calls[n];
        TurnFitsIff(calls[n], calls[n + 1], turns[n]);
      }
    }
  }

  // ---------- A call that goes over the limit ----------

  const SELF: Jid := Lid(0)
  const PEER: Jid := Lid(1)

  /** An outgoing call as it starts, and once it is active: this account and the peer. */
  const STARTED: Rows := map[SELF := NewRow(SELF, None, 1).(self := true, state := Connected), PEER := NewRow(PEER, None, 2)]
  const ACTIVE: Rows := STARTED[PEER := NewRow(PEER, None, 2).(state := Connected)]

  function FailedRow(n: nat): Row {
    Held(NewRow(Lid(n + 2), None, n + 3), 0).(state := Failed, localPending := false)
  }

  /** The rows after n invitations, one after the other, each of which failed. */
  function AfterInvites(n: nat): Rows {
    if n == 0 then ACTIVE else AfterInvites(n - 1)[Lid(n + 1) := FailedRow(n - 1)]
  }

  lemma {:induction false} InvitesAre(n: nat)
    ensures var rows := AfterInvites(n);
      && (forall k :: k in rows <==> k in ACTIVE || (k.Lid? && 2 <= k.user < n + 2))
      && forall k :: k in rows ==> rows[k] == if k in ACTIVE then ACTIVE[k] else FailedRow(k.user - 2)
  {
    if n > 0 {
      InvitesAre(n - 1);
    }
  }

  function Turns(n: nat): seq<Turn> {
    if n == 0 then [Activated] else Turns(n - 1) + [SlotReserved(Lid(n + 1), None, n + 2, 0)] + [InviteFailed(Lid(n + 1))]
  }

  lemma {:induction false} InvitesSize(n: nat)
    ensures |AfterInvites(n)| == n + 2
  {
    if n == 0 {
      assert ACTIVE.Keys == {SELF, PEER};
    } else {
      InvitesSize(n - 1);
      InvitesAre(n - 1);
    }
  }

  lemma InvitesCount(n: nat)
    ensures Count(AfterInvites(n)) == 2
  {
    InvitesAre(n);
    assert forall k :: k in AfterInvites(n) ==> (Counted(AfterInvites(n)[k]) <==> k in {SELF, PEER});
    assert CountedIds(AfterInvites(n)) == {SELF, PEER};
  }

  lemma RunOneMore(calls: seq<Call>, turns: seq<Turn>, next: Call, turn: Turn)
    requires IsRun(calls, turns) && Makes(calls[|turns|], next, turn)
    ensures IsRun(calls + [next], turns + [turn])
  {
    var longer, more := calls + [next], turns + [turn];
    forall i | 0 <= i <= |turns|
      ensures StepAt(longer, more, i)
    {
      assert i < |turns| ==> StepAt(calls, turns, i);
    }
  }

  lemma InviteReserved(rows: Rows, id: Jid, order: nat)
    requires |rows| < HISTORY_LIMIT && Count(rows) < PARTICIPANT_LIMIT && forall k :: k in rows ==> !Matches(rows[k], id, None)
    ensures Makes(Call(rows, false), Call(rows[id := Held(NewRow(id, None, order), 0)], false), SlotReserved(id, None, order, 0))
  {
    var added := rows[id := NewRow(id, None, order)];
    assert Added(rows, added, id, id, None, order);
    assert added[id := Held(added[id], 0)] == rows[id := Held(NewRow(id, None, order), 0)];
    assert SlotTakenBy(rows, added, id, rows[id := Held(NewRow(id, None, order), 0)], id, None, order, 0);
  }

  /** Somebody the roster has room for, and does not know. */
  ghost predicate MayJoin(rows: Rows, id: Jid) {
    |rows| < HISTORY_LIMIT && Count(rows) < PARTICIPANT_LIMIT && forall k :: k in rows ==> !Matches(rows[k], id, None)
  }

  lemma NextMayJoin(n: nat)
    requires n + 2 < HISTORY_LIMIT
    ensures MayJoin(AfterInvites(n), Lid(n + 2))
  {
    InvitesSize(n);
    InvitesCount(n);
    InvitesAre(n);
  }

  /** The roster becomes active, and then n invitations fail. */
  lemma {:induction false} InvitesAreARun(n: nat) returns (calls: seq<Call>, turns: seq<Turn>)
    requires n + 2 <= HISTORY_LIMIT
    ensures IsRun(calls, turns) && turns == Turns(n)
    ensures calls[0] == Call(STARTED, false) && calls[|turns|] == Call(AfterInvites(n), false)
  {
    if n == 0 {
      calls, turns := Activation();
    } else {
      var before, sofar := InvitesAreARun(n - 1);
      calls, turns := OneInvite(before, sofar, n - 1);
    }
  }

  lemma Activation() returns (calls: seq<Call>, turns: seq<Turn>)
    ensures IsRun(calls, turns) && turns == [Activated]
    ensures calls[0] == Call(STARTED, false) && calls[1] == Call(ACTIVE, false)
  {
    assert Remarked(STARTED) == ACTIVE;
    assert IsRun([Call(STARTED, false)], []);
    RunOneMore([Call(STARTED, false)], [], Call(ACTIVE, false), Activated);
    calls, turns := [Call(STARTED, false)] + [Call(ACTIVE, false)], [] + [Activated];
  }

  lemma OneInvite(calls: seq<Call>, turns: seq<Turn>, n: nat) returns (longer: seq<Call>, more: seq<Turn>)
    requires IsRun(calls, turns) && turns == Turns(n) && calls[|turns|] == Call(AfterInvites(n), false) && n + 2 < HISTORY_LIMIT
    ensures IsRun(longer, more) && longer[0] == calls[0]
    ensures more == Turns(n + 1) && longer[|more|] == Call(AfterInvites(n + 1), false)
  {
    NextMayJoin(n);
    longer, more := InviteInVain(calls, turns, AfterInvites(n), Lid(n + 2), n + 3);
    assert AfterInvites(n + 1) == AfterInvites(n)[Lid(n + 2) := FailedRow(n)];
    assert Turns(n + 1) == Turns(n) + [SlotReserved(Lid(n + 2), None, n + 3, 0)] + [InviteFailed(Lid(n + 2))];
  }

  lemma InviteInVain(calls: seq<Call>, turns: seq<Turn>, rows: Rows, id: Jid, order: nat) returns (longer: seq<Call>, more: seq<Turn>)
    requires IsRun(calls, turns) && calls[|turns|] == Call(rows, false) && MayJoin(rows, id)
    ensures IsRun(longer, more) && longer[0] == calls[0] && more == turns + [SlotReserved(id, None, order, 0)] + [InviteFailed(id)]
    ensures longer[|more|] == Call(rows[id := Held(NewRow(id, None, order), 0).(state := Failed, localPending := false)], false)
  {
    var row := Held(NewRow(id, None, order), 0);
    InviteReserved(rows, id, order);
    RunOneMore(calls, turns, Call(rows[id := row], false), SlotReserved(id, None, order, 0));
    longer, more := calls + [Call(rows[id := row], false)], turns + [SlotReserved(id, None, order, 0)];
    RunOneMore(longer, more, Call(rows[id := row.(state := Failed, localPending := false)], false), InviteFailed(id));
    longer, more := longer + [Call(rows[id := row.(state := Failed, localPending := false)], false)], more + [InviteFailed(id)];
  }

  /** So a call does go over: active, seven to thirty people invited in vain, one after the other,
      then one more activation, and all of them have a slot. */
  lemma InvitesGoOverLimit(n: nat) returns (calls: seq<Call>, turns: seq<Turn>)
    requires PARTICIPANT_LIMIT - 1 <= n && n + 2 <= HISTORY_LIMIT
    ensures IsRun(calls, turns) && calls[0] == Call(STARTED, false) && turns == Turns(n) + [Activated]
    ensures Count(STARTED) == 2 && Count(calls[|turns|].rows) == n + 2 > PARTICIPANT_LIMIT
  {
    calls, turns := InvitesAreARun(n);
    InvitesSize(n);
    RunOneMore(calls, turns, Call(Remarked(AfterInvites(n)), false), Activated);
    calls, turns := calls + [Call(Remarked(AfterInvites(n)), false)], turns + [Activated];
    assert CountedIds(Remarked(AfterInvites(n))) == AfterInvites(n).Keys;
    assert CountedIds(STARTED) == {SELF, PEER};
  }
}
