/** The bridge's bounded queues (internal/calling/media.go): the newest kept, and the participants'
    served in turn. */
module MediaQueues {
  import opened Wrappers
  import opened Pcm

  /** q is the last |q| of all. */
  ghost predicate IsSuffix<T>(q: seq<T>, all: seq<T>) {
    |q| <= |all| && all[|all| - |q|..] == q
  }

  lemma SuffixGrows<T>(q: seq<T>, all: seq<T>, value: T, drop: nat)
    requires IsSuffix(q, all) && drop <= |q|
    ensures IsSuffix(q[drop..], all) && IsSuffix(q[drop..] + [value], all + [value])
  {
    assert (all + [value])[|all| - |q[drop..]|..] == all[|all| - |q[drop..]|..] + [value];
  }

  /** The last of them that a queue has room for. */
  function Newest<T>(all: seq<T>, capacity: nat): (q: seq<T>)
    ensures |q| == (if |all| <= capacity then |all| else capacity) && |q| <= |all| && q == all[|all| - |q|..]
  {
    if |all| <= capacity then all else all[|all| - capacity..]
  }

  /** offerLatest: three tries of a channel, between which the reader may take some of it. The new
      value is always queued, last; what is left of the old ones is the newest of them, in order. */
  method OfferLatest<T>(queue: seq<T>, capacity: nat, value: T, early: nat, late: nat) returns (next: seq<T>, gone: nat)
    requires 0 < capacity && |queue| <= capacity
    ensures |next| <= capacity && gone <= |queue| && next == queue[gone..] + [value]
    ensures early == 0 && late == 0 ==> next == Newest(queue + [value], capacity)
    ensures |queue| < capacity ==> gone == 0
    ensures gone <= early + late + 1
    ensures forall all: seq<T> :: IsSuffix(queue, all) ==> IsSuffix(next, all + [value])
  {
    next, gone := queue, 0;
    if |next| < capacity {
      next := next + [value];
    } else {
      gone := if early <= |next| then early else |next|;
      next := next[gone..];
      if next != [] {
        gone, next := gone + 1, next[1..];
      }
      var taken := if late <= |next| then late else |next|;
      gone, next := gone + taken, next[taken..];
      next := next + [value];
    }
    forall all: seq<T> | IsSuffix(queue, all)
      ensures IsSuffix(next, all + [value])
    {
      SuffixGrows(queue, all, value, gone);
    }
  }

  // ---------- Participants in turn ----------

  /** A participant, by the bytes of its id. */
  datatype Id = Id(text: seq<Byte>)

  const VIDEO_QUEUE_SIZE: nat := 3

  /** The queues of the connected people, their order, and whose turn is next. */
  datatype Turns<T> = Turns(order: seq<Id>, out: map<Id, seq<T>>, cursor: nat) {
    ghost predicate Valid() {
      && (forall id :: id in order <==> id in out)
      && (forall id :: id in out ==> |out[id]| <= VIDEO_QUEUE_SIZE)
      && (if order == [] then cursor == 0 else cursor < |order|)
    }

    /** The roster's rows are keyed by id, so nobody is in the order twice. */
    ghost predicate Distinct() {
      forall i, j :: 0 <= i < j < |order| ==> order[i] != order[j]
    }

    predicate Waiting(i: nat)
      requires Valid() && i < |order|
    {
      out[order[i]] != []
    }

    /** writeParticipantVideo, for somebody connected: the oldest frame of three gives way. */
    function Write(id: Id, frame: T): Turns<T> {
      if id !in out then this
      else this.(out := out[id := (if |out[id]| == VIDEO_QUEUE_SIZE then out[id][1..] else out[id]) + [frame]])
    }

    /** The first waiting queue from place i on, looking at no more than `left` of them. */
    function Pick(i: nat, left: nat): (picked: Option<nat>)
      requires Valid() && (order != [] ==> i < |order|)
      ensures picked.Some? ==> picked.value < |order| && Waiting(picked.value)
      decreases left
    {
      if left == 0 || order == [] then None
      else if Waiting(i) then Some(i)
      else Pick(if i + 1 == |order| then 0 else i + 1, left - 1)
    }

    /** How many turns place j is behind the cursor. */
    function Behind(j: nat): nat
      requires Valid() && j < |order|
    {
      Ahead(cursor, j)
    }

    function Ahead(i: nat, j: nat): nat
      requires i < |order| && j < |order|
    {
      if i <= j then j - i else j + |order| - i
    }

    /** nextParticipantVideo. */
    function Serve(): (Turns<T>, Option<nat>)
      requires Valid()
    {
      var picked := Pick(cursor, |order|);
      if picked.None? then (this, None)
      else (Take(picked.value), picked)
    }

    /** The oldest frame at place i taken, and the turn passed on. */
    function Take(i: nat): Turns<T>
      requires Valid() && i < |order| && Waiting(i)
    {
      Turns(order, out[order[i] := out[order[i]][1..]], if i + 1 == |order| then 0 else i + 1)
    }

    predicate AnyWaiting() {
      exists id :: id in out && out[id] != []
    }

    /** syncGroupParticipants: people who stay keep their queues. */
    function Sync(ids: seq<Id>): Turns<T> {
      Turns(ids, map id | id in ids :: if id in out then out[id] else [], 0)
    }
  }

  lemma {:induction false} PickFindsWaiting<T>(t: Turns<T>, i: nat, left: nat, j: nat)
    requires t.Valid() && i < |t.order| && j < |t.order| && t.Waiting(j) && t.Ahead(i, j) < left
    ensures var picked := t.Pick(i, left);
      picked.Some? && picked.value < |t.order| && t.Waiting(picked.value) && t.Ahead(i, picked.value) <= t.Ahead(i, j)
    decreases left
  {
    if !t.Waiting(i) {
      PickFindsWaiting(t, if i + 1 == |t.order| then 0 else i + 1, left - 1, j);
    }
  }

  /** A turn serves the oldest frame of a waiting person, if there is one, and brings nearer
      everybody it did not serve. */
  lemma ServeComesNearer<T>(t: Turns<T>, j: nat)
    requires t.Valid() && t.Distinct() && j < |t.order| && t.Waiting(j)
    ensures var (next, served) := t.Serve();
      && next.Valid() && next.order == t.order && served.Some? && served.value < |t.order|
      && (served.value != j ==> next.Waiting(j) && next.Behind(j) < t.Behind(j))
  {
    PickFindsWaiting(t, t.cursor, |t.order|, j);
    ServeKeepsValid(t);
  }

  lemma ServeKeepsValid<T>(t: Turns<T>)
    requires t.Valid()
    ensures var (next, served) := t.Serve();
      && next.Valid() && next.order == t.order
      && (served.Some? ==> served.value < |t.order| && t.Waiting(served.value))
      && (served.None? ==> forall id :: id in t.out ==> t.out[id] == [])
  {
    if t.Serve().1.None? {
      forall id | id in t.out
        ensures t.out[id] == []
      {
        var j :| 0 <= j < |t.order| && t.order[j] == id;
        if t.Waiting(j) {
          PickFindsWaiting(t, t.cursor, |t.order|, j);
        }
      }
    }
  }

  /** Exactly one frame is taken while any waits: that of the first waiting person from the cursor on. */
  lemma ServesTheNext<T>(t: Turns<T>)
    requires t.Valid()
    ensures var (next, served) := t.Serve();
      && (served.Some? <==> exists j :: 0 <= j < |t.order| && |t.out[t.order[j]]| > 0)
      && (served.Some? ==> served.value < |t.order| && |t.out[t.order[served.value]]| > 0)
      && (served.Some? ==> forall j :: 0 <= j < |t.order| && |t.out[t.order[j]]| > 0 ==>
            t.Ahead(t.cursor, served.value) <= t.Ahead(t.cursor, j))
  {
    forall j | 0 <= j < |t.order| && |t.out[t.order[j]]| > 0
      ensures t.Serve().1.Some? && t.Ahead(t.cursor, t.Serve().1.value) <= t.Ahead(t.cursor, j)
    {
      assert t.Waiting(j);
      PickFindsWaiting(t, t.cursor, |t.order|, j);
    }
  }

  /** It is the oldest of theirs, and the cursor is then at the next person; nothing else changes. */
  lemma ServeIsExact<T>(t: Turns<T>)
    requires t.Valid()
    ensures var (next, served) := t.Serve();
      && (served.None? ==> next == t)
      && (served.Some? ==>
            var i := served.value;
            && next.order == t.order && next.out == t.out[t.order[i] := t.out[t.order[i]][1..]]
            && next.cursor == if i == |t.order| - 1 then 0 else i + 1)
  {
    ServeKeepsValid(t);
  }

  /** Round the circle from i, the places come as they are numbered modulo their count. */
  lemma AheadIsModulo<T>(t: Turns<T>, i: nat, j: nat)
    requires i < |t.order| && j < |t.order|
    ensures t.Ahead(i, j) < |t.order| && (i + t.Ahead(i, j)) % |t.order| == j
  {
  }

  /** A frame joins its person's queue, whose oldest of three gives way; nothing else changes. */
  lemma WriteIsExact<T>(t: Turns<T>, id: Id, frame: T)
    requires t.Valid()
    ensures var next := t.Write(id, frame);
      && next.order == t.order && next.cursor == t.cursor && next.out.Keys == t.out.Keys
      && (forall other :: other in t.out && other != id ==> next.out[other] == t.out[other])
      && (id in t.out ==> next.out[id] == Newest(t.out[id] + [frame], 3))
  {
  }

  lemma WriteKeepsWaiting<T>(t: Turns<T>, id: Id, frame: T)
    requires t.Valid()
    ensures var next := t.Write(id, frame);
      && next.Valid() && next.order == t.order && next.cursor == t.cursor
      && forall j :: 0 <= j < |t.order| && t.Waiting(j) ==> next.Waiting(j)
  {
  }

  lemma SyncIsValid<T>(t: Turns<T>, ids: seq<Id>)
    requires t.Valid()
    ensures t.Sync(ids).Valid()
  {
  }

  datatype TurnStep<T> = Written(id: Id, frame: T) | TurnTaken

  /** The state after writes and turns, and who was served at each turn. */
  function After<T>(t: Turns<T>, steps: seq<TurnStep<T>>): (r: Turns<T>)
    requires t.Valid()
    ensures r.Valid() && r.order == t.order
  {
    if steps == [] then t
    else
      var before := After(t, steps[..|steps| - 1]);
      match steps[|steps| - 1]
      case Written(id, frame) => WriteKeepsWaiting(before, id, frame); before.Write(id, frame)
      case TurnTaken => ServeKeepsValid(before); before.Serve().0
  }

  function Served<T>(t: Turns<T>, steps: seq<TurnStep<T>>): seq<Option<nat>>
    requires t.Valid()
  {
    if steps == [] then []
    else
      var before := steps[..|steps| - 1];
      Served(t, before) + if steps[|steps| - 1].TurnTaken? then [After(t, before).Serve().1] else []
  }

  /** How many turns were taken. */
  function TurnCount<T>(steps: seq<TurnStep<T>>): nat {
    if steps == [] then 0
    else TurnCount(steps[..|steps| - 1]) + if steps[|steps| - 1].TurnTaken? then 1 else 0
  }

  /** Until person j is served, every turn brings them nearer, whatever is written meanwhile. */
  lemma {:induction false} NearerEachTurn<T>(t: Turns<T>, steps: seq<TurnStep<T>>, j: nat)
    requires t.Valid() && t.Distinct() && j < |t.order| && t.Waiting(j)
    ensures Some(j) !in Served(t, steps) ==>
      After(t, steps).Waiting(j) && After(t, steps).Behind(j) + TurnCount(steps) <= t.Behind(j)
  {
    if steps != [] {
      var before := steps[..|steps| - 1];
      NearerEachTurn(t, before, j);
      if Some(j) !in Served(t, steps) {
        match steps[|steps| - 1] {
          case Written(id, frame) => WriteKeepsWaiting(After(t, before), id, frame);
          case TurnTaken => ServeComesNearer(After(t, before), j);
        }
      }
    }
  }

  /** A waiting person is served within as many turns as there are people. */
  lemma {:induction false} ServedInTurn<T>(t: Turns<T>, steps: seq<TurnStep<T>>, j: nat)
    requires t.Valid() && t.Distinct() && j < |t.order| && t.Waiting(j)
    requires TurnCount(steps) >= |t.order|
    ensures Some(j) in Served(t, steps)
  {
    NearerEachTurn(t, steps, j);
  }
}
