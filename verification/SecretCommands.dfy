/** The commands as they run: one file operation after another on the directory, any of which may
    fail and end the command there. Each is proved to carry out its plan, or a beginning of it; `did`
    is what it carried out. */
module SecretCommands {
  import opened Wrappers
  import opened SealedDir
  import opened SealedDirRuns
  import opened SecretRotation

  lemma {:induction false} DoAllConcat(disk: Disk, first: seq<Action>, second: seq<Action>)
    ensures DoAll(DoAll(disk, first), second) == DoAll(disk, first + second)
  {
    if second == [] {
      assert first + second == first;
    } else {
      var n, all := |second| - 1, first + second;
      DoAllConcat(disk, first, second[..n]);
      assert all[..|all| - 1] == first + second[..n];
      assert all[|all| - 1] == second[n];
    }
  }

  /** Actions carried out leave the live directory their effect says. */
  lemma {:induction false} DoAllEffect(disk: Disk, actions: seq<Action>)
    ensures DoAll(disk, actions).Live() == Effect(disk.Live(), actions)
    decreases |actions|
  {
    if actions != [] {
      DoAllEffect(disk.Do(actions[0]), actions[1..]);
      DoAllConcat(disk, actions[..1], actions[1..]);
      DoOne(disk, actions);
      assert actions[..1] + actions[1..] == actions;
      LiveDo(disk, actions[0]);
    }
  }

  lemma LiveDo(disk: Disk, a: Action)
    ensures disk.Do(a).Live() == if a.Make? then Apply(disk.Live(), a.change) else disk.Live()
  {
    if a.Make? {
      assert (disk.pending + [a.change])[..|disk.pending|] == disk.pending;
    }
  }

  // ---------- What the file system lets pass ----------

  /** `fate` is what the file system answers to each operation; past its end every one passes. */
  predicate Fails(fate: seq<bool>, at: nat) {
    at < |fate| && !fate[at]
  }

  /** How many of n operations pass, from the one at place `at` on, until one fails. */
  function Passes(fate: seq<bool>, at: nat, n: nat): (k: nat)
    ensures k <= n && forall i :: at <= i < at + k ==> !Fails(fate, i)
    ensures k < n ==> Fails(fate, at + k)
    decreases n
  {
    if n == 0 || Fails(fate, at) then 0 else 1 + Passes(fate, at + 1, n - 1)
  }

  lemma {:induction false} PassesSplit(fate: seq<bool>, at: nat, m: nat, n: nat)
    ensures Passes(fate, at, m + n) == if Passes(fate, at, m) < m then Passes(fate, at, m) else m + Passes(fate, at + m, n)
    decreases m
  {
    if m > 0 && !Fails(fate, at) {
      PassesSplit(fate, at + 1, m - 1, n);
    }
  }

  /** Exactly the operations before the first that fails are carried out. `at` and `left` are how many
      operations the file system had answered, before and after. */
  ghost predicate Performed(
    actions: seq<Action>, fate: seq<bool>, before: Disk, at: nat, after: Disk, left: nat, ok: bool, did: seq<Action>)
  {
    var k := Passes(fate, at, |actions|);
    && did == actions[..k] && after == DoAll(before, did)
    && (ok <==> k == |actions|)
    && left == at + if ok then k else k + 1
  }

  lemma TakeBoth(first: seq<Action>, second: seq<Action>, n: nat)
    requires n <= |second|
    ensures first[..|first|] == first && (first + second)[..|first| + n] == first + second[..n]
  {
  }

  lemma Then(
    first: seq<Action>, second: seq<Action>, fate: seq<bool>, before: Disk, at: nat, mid: Disk, next: nat, did: seq<Action>,
    after: Disk, left: nat, ok: bool, more: seq<Action>)
    requires Performed(first, fate, before, at, mid, next, true, did) && Performed(second, fate, mid, next, after, left, ok, more)
    ensures Performed(first + second, fate, before, at, after, left, ok, did + more)
  {
    PassesSplit(fate, at, |first|, |second|);
    DoAllConcat(before, did, more);
    TakeBoth(first, second, Passes(fate, next, |second|));
  }

  lemma Stops(
    first: seq<Action>, second: seq<Action>, fate: seq<bool>, before: Disk, at: nat, after: Disk, left: nat, did: seq<Action>)
    requires Performed(first, fate, before, at, after, left, false, did)
    ensures Performed(first + second, fate, before, at, after, left, false, did)
  {
    PassesSplit(fate, at, |first|, |second|);
  }

  lemma PerformedNone(fate: seq<bool>, disk: Disk, at: nat)
    ensures Performed([], fate, disk, at, disk, at, true, [])
  {
  }

  lemma DurablyDone(fate: seq<bool>, disk: Disk, at: nat, c: Change)
    ensures Fails(fate, at) ==> Performed(Durably(c), fate, disk, at, disk, at + 1, false, [])
    ensures !Fails(fate, at) && Fails(fate, at + 1) ==> Performed(Durably(c), fate, disk, at, disk.Do(Make(c)), at + 2, false, [Make(c)])
    ensures !Fails(fate, at) && !Fails(fate, at + 1) ==>
      Performed(Durably(c), fate, disk, at, disk.Do(Make(c)).Do(Sync), at + 2, true, Durably(c))
  {
    var n := |Durably(c)|;
    assert Durably(c)[..0] == [] && Durably(c)[..1] == [Make(c)] && Durably(c)[..2] == Durably(c);
    assert Passes(fate, at, n) == if Fails(fate, at) then 0 else 1 + Passes(fate, at + 1, 1);
    assert DoAll(disk, [Make(c)]) == disk.Do(Make(c)) by {
      assert [Make(c)][..0] == [];
    }
  }

  /** The writes of a swap from its exchange on, and from its intent on. */
  ghost function LastWrites(swap: Swap, exchange: bool): seq<Action> {
    (if exchange then Durably(Exchange) else []) + Durably(SetWord(swap.To()))
  }

  ghost function SwapWrites(swap: Swap, starting: bool, exchange: bool, makesCurrent: Envelope): seq<Action> {
    (if starting then Durably(SetWord(Intent(swap, makesCurrent))) else []) + LastWrites(swap, exchange)
  }

  lemma PlanIsWrites(d: Dir, swap: Swap)
    requires Plan(d, SwapFiles(swap)).Success?
    ensures var starting := State(d).Success?;
      var makesCurrent := if starting then d.other.value else d.word.makesCurrent;
      Plan(d, SwapFiles(swap)).value == SwapWrites(swap, starting, Some(makesCurrent) == d.other, makesCurrent)
  {
    if State(d).Success? {
      var intent := Durably(SetWord(Intent(swap, d.other.value)));
      assert intent + Durably(Exchange) + Durably(SetWord(swap.To())) == intent + (Durably(Exchange) + Durably(SetWord(swap.To())));
    } else {
      assert [] + LastWrites(swap, true) == LastWrites(swap, true);
      assert [] + LastWrites(swap, false) == LastWrites(swap, false) == Durably(SetWord(swap.To()));
    }
  }

  ghost function Removal(c: Change, there: bool): seq<Action> {
    if there then Durably(c) else []
  }

  lemma ResetPlan(d: Dir)
    ensures PlanReset(d) ==
      Removal(RemoveWord, d.word != NoWord) + Removal(RemoveOther, d.other.Some?) + Removal(RemoveCurrent, d.current.Some?) + [Sync]
  {
  }

  class SealDirectory {
    var current: Option<Envelope>
    var other: Option<Envelope>
    var word: Word
    /** What the file system answers to each operation, and how many it has answered. */
    const fate: seq<bool>
    var at: nat
    ghost var disk: Disk

    constructor (d: Dir, fate: seq<bool>)
      ensures Valid() && View() == d && disk == Disk(d, []) && this.fate == fate && at == 0
    {
      current, other, word, this.fate, at := d.current, d.other, d.word, fate, 0;
      disk := Disk(d, []);
    }

    function View(): Dir
      reads this
    {
      Dir(current, other, word)
    }

    ghost predicate Valid()
      reads this
    {
      disk.Live() == View()
    }

    method Answer() returns (ok: bool)
      modifies this`at
      ensures ok == !Fails(fate, old(at)) && at == old(at) + 1
    {
      ok := at >= |fate| || fate[at];
      at := at + 1;
    }

    /** A rename, a removal or an exchange: it happens, or it fails and changes nothing. */
    method Alter(c: Change) returns (ok: bool)
      requires Valid()
      modifies this
      ensures Valid() && ok == !Fails(fate, old(at)) && at == old(at) + 1
      ensures disk == if ok then old(disk).Do(Make(c)) else old(disk)
      ensures View() == if ok then Apply(old(View()), c) else old(View())
    {
      ok := Answer();
      if !ok {
        return;
      }
      match c {
        case SetCurrent(e) => current := Some(e);
        case SetOther(e) => other := Some(e);
        case SetWord(w) => word := w;
        case RemoveCurrent => current := None;
        case RemoveOther => other := None;
        case RemoveWord => word := NoWord;
        case Exchange => current, other := other, current;
      }
      assert View() == Apply(old(View()), c);
      LiveDo(disk, Make(c));
      disk := disk.Do(Make(c));
    }

    method SyncDir() returns (ok: bool)
      requires Valid()
      modifies this`disk, this`at
      ensures Valid() && ok == !Fails(fate, old(at)) && at == old(at) + 1
      ensures disk == if ok then old(disk).Do(Sync) else old(disk)
    {
      ok := Answer();
      if ok {
        LiveDo(disk, Sync);
        disk := disk.Do(Sync);
      }
    }

    /** WriteFile, WriteState and Remove: the change, then the directory synced. */
    method Write(c: Change) returns (ok: bool, ghost did: seq<Action>)
      requires Valid()
      modifies this
      ensures Valid() && Performed(Durably(c), fate, old(disk), old(at), disk, at, ok, did)
      ensures View() == if did == [] then old(View()) else Apply(old(View()), c)
    {
      var refused;
      ok, refused, did := TryChange(c);
    }

    /** The same, told apart from a change that was refused, as the exchange is. */
    method TryChange(c: Change) returns (ok: bool, refused: bool, ghost did: seq<Action>)
      requires Valid()
      modifies this
      ensures Valid() && Performed(Durably(c), fate, old(disk), old(at), disk, at, ok, did)
      ensures refused <==> did == []
      ensures View() == if did == [] then old(View()) else Apply(old(View()), c)
    {
      DurablyDone(fate, disk, at, c);
      ok, refused, did := false, false, [];
      var changed := Alter(c);
      if !changed {
        refused := true;
        return;
      }
      ok := SyncDir();
      did := if ok then Durably(c) else [Make(c)];
    }

    /** A file, and then the word that says so. */
    method WriteTwo(c: Change, w: Word) returns (ok: bool, ghost did: seq<Action>)
      requires Valid()
      modifies this
      ensures Valid() && Performed(Durably(c) + Durably(SetWord(w)), fate, old(disk), old(at), disk, at, ok, did)
    {
      ok, did := Write(c);
      if !ok {
        Stops(Durably(c), Durably(SetWord(w)), fate, old(disk), old(at), disk, at, did);
        return;
      }
      ghost var mid, next := disk, at;
      ghost var more;
      ok, more := Write(SetWord(w));
      Then(Durably(c), Durably(SetWord(w)), fate, old(disk), old(at), mid, next, did, disk, at, ok, more);
      did := did + more;
    }

    /** promote and unpromote. back: what was done to put the word back, after a refused exchange. */
    method SwapTwo(swap: Swap) returns (r: Result<(), Refusal>, ghost did: seq<Action>, ghost back: seq<Action>)
      requires Valid()
      modifies this
      ensures Valid()
      ensures var plan := Plan(old(View()), SwapFiles(swap));
        if plan.Failure? then r == Failure(plan.error) && disk == old(disk) && View() == old(View()) && at == old(at)
        else
          && Swapped(plan.value, swap.From(), fate, old(disk), old(at), disk, at, r.Success?, did, back)
          && (r.Failure? ==> r.error == Broken)
      ensures back == Durably(SetWord(swap.From())) ==> View() == old(View()).(word := swap.From())
      ensures r == Failure(Broken) <==> SomeFails(fate, old(at), at)
      ensures r.Success? ==>
        (if State(old(View())).Failure? && old(word).makesCurrent == old(current).value then View() == old(View()).(word := swap.To())
         else View() == Dir(old(other), old(current), swap.To()))
    {
      did, back := [], [];
      var state := State(View());
      var makesCurrent := None;
      if state.Failure? {
        makesCurrent := SwapIntent(View(), swap);
        if makesCurrent.None? {
          return Failure(state.error), did, back;
        }
      } else if state.value != swap.From() {
        return Failure(OutOfTurn), did, back;
      }
      if current.None? || other.None? {
        return Failure(MissingFile), did, back;
      }
      if current == other {
        return Failure(OneEnvelope), did, back;
      }
      var starting := state.Success?;
      makesCurrent := if starting then other else makesCurrent;
      if makesCurrent != current && makesCurrent != other {
        return Failure(IntentMismatch), did, back;
      }
      PlanIsWrites(View(), swap);
      var ok;
      ok, did, back := CarryOutSwap(swap, starting, makesCurrent == other, makesCurrent.value);
      SwapEnds(old(View()), swap, fate, old(disk), old(at), disk, at, ok, did, back);
      return if ok then Success(()) else Failure(Broken), did, back;
    }

    /** The writes of a swap, once nothing is left to refuse. */
    method CarryOutSwap(swap: Swap, starting: bool, exchange: bool, makesCurrent: Envelope)
      returns (ok: bool, ghost did: seq<Action>, ghost back: seq<Action>)
      requires Valid()
      modifies this
      ensures Valid()
      ensures Swapped(
        SwapWrites(swap, starting, exchange, makesCurrent), swap.From(), fate, old(disk), old(at), disk, at, ok, did, back)
      ensures back == Durably(SetWord(swap.From())) ==> View() == old(View()).(word := swap.From())
    {
      ghost var last := LastWrites(swap, exchange);
      ok, did, back := true, [], [];
      PerformedNone(fate, disk, at);
      ghost var intent: seq<Action> := [];
      if starting {
        intent := Durably(SetWord(Intent(swap, makesCurrent)));
        ok, did := Write(SetWord(Intent(swap, makesCurrent)));
        if !ok {
          SwapStops(intent, last, swap.From(), fate, old(disk), old(at), disk, at, did);
          return;
        }
      }
      ghost var mid, next := disk, at;
      ghost var more;
      ok, more, back := FinishSwap(swap, exchange);
      SwapThen(intent, last, swap.From(), fate, old(disk), old(at), mid, next, did, disk, at, ok, more, back);
      did := did + more;
    }

    method FinishSwap(swap: Swap, exchange: bool) returns (ok: bool, ghost did: seq<Action>, ghost back: seq<Action>)
      requires Valid()
      modifies this
      ensures Valid()
      ensures Swapped(LastWrites(swap, exchange), swap.From(), fate, old(disk), old(at), disk, at, ok, did, back)
      ensures back == Durably(SetWord(swap.From())) ==> View() == old(View()).(word := swap.From())
    {
      ghost var to := Durably(SetWord(swap.To()));
      ok, did, back := true, [], [];
      PerformedNone(fate, disk, at);
      ghost var moved: seq<Action> := [];
      if exchange {
        var refused;
        moved := Durably(Exchange);
        ok, refused, did := TryChange(Exchange);
        if refused {
          var restored;
          restored, back := Write(SetWord(swap.From()));
          ExchangeRefused(swap, fate, old(disk), old(at), disk, at, restored, back);
          ok := false;
          return;
        }
        if !ok {
          ExchangeUnsynced(swap, fate, old(disk), old(at), disk, at, did);
          return;
        }
      }
      ghost var mid, next := disk, at;
      ghost var more;
      ok, more := Write(SetWord(swap.To()));
      Then(moved, to, fate, old(disk), old(at), mid, next, did, disk, at, ok, more);
      WordIsLast(swap, exchange, fate, old(disk), old(at), disk, at, ok, did + more);
      did := did + more;
    }

    method Seal(slotOther: bool, input: Input) returns (r: Result<(), Refusal>, ghost did: seq<Action>)
      requires Valid()
      modifies this
      ensures Valid()
      ensures Carried(
        old(View()), if slotOther then SealOther(input) else SealCurrent(input), fate, old(disk), old(at), disk, at, r, did)
      ensures r == Failure(Broken) <==> SomeFails(fate, old(at), at)
      ensures r.Success? ==> input.Piped?
      ensures r.Success? && slotOther ==> View() == Dir(old(current), Some(Envelope(input.secret, input.nonce)), Next)
      ensures r.Success? && !slotOther ==> View() == Dir(Some(Envelope(input.secret, input.nonce)), old(other), Steady)
    {
      did := [];
      var state := State(View());
      var word := if slotOther then Steady else NoWord;
      if state.Failure? && slotOther {
        var replacing := HalfDone(View(), {word}, true, true);
        if replacing.Some? {
          state := Success(replacing.value);
        }
      }
      if state.Failure? {
        return Failure(state.error), did;
      }
      if state.value != word {
        return Failure(OutOfTurn), did;
      }
      if input.Unusable? {
        return Failure(BadInput), did;
      }
      var envelope := Envelope(input.secret, input.nonce);
      if slotOther {
        if current.None? {
          return Failure(MissingFile), did;
        }
        if current.value.secret == input.secret {
          return Failure(SameSecret), did;
        }
      }
      var ok;
      ok, did := WriteTwo(if slotOther then SetOther(envelope) else SetCurrent(envelope), if slotOther then Next else Steady);
      CommandEnds(
        old(View()), if slotOther then SealOther(input) else SealCurrent(input), fate, old(disk), old(at), disk, at, ok, did);
      return if ok then Success(()) else Failure(Broken), did;
    }

    method DropOther() returns (r: Result<(), Refusal>, ghost did: seq<Action>)
      requires Valid()
      modifies this
      ensures Valid()
      ensures Carried(old(View()), Drop, fate, old(disk), old(at), disk, at, r, did)
      ensures r == Failure(Broken) <==> SomeFails(fate, old(at), at)
      ensures r.Success? ==> View() == Dir(old(current), None, Steady)
    {
      did := [];
      var state := State(View());
      var finishing := false;
      if state.Failure? {
        var half := HalfDone(View(), {Next, Promoted}, true, false);
        if half.Some? {
          state, finishing := Success(half.value), true;
        }
      }
      if state.Failure? {
        return Failure(state.error), did;
      }
      if state.value != Next && state.value != Promoted {
        return Failure(OutOfTurn), did;
      }
      var ok;
      if finishing {
        assert [] + Durably(SetWord(Steady)) == Durably(SetWord(Steady));
        ok, did := Write(SetWord(Steady));
      } else {
        ok, did := WriteTwo(RemoveOther, Steady);
      }
      CommandEnds(old(View()), Drop, fate, old(disk), old(at), disk, at, ok, did);
      return if ok then Success(()) else Failure(Broken), did;
    }

    method ResetAll() returns (r: Result<(), Refusal>, ghost did: seq<Action>)
      requires Valid()
      modifies this
      ensures Valid()
      ensures Carried(old(View()), Reset, fate, old(disk), old(at), disk, at, r, did)
      ensures r == Failure(Broken) <==> SomeFails(fate, old(at), at)
      ensures r.Success? ==> View() == Dir(None, None, NoWord)
    {
      ghost var d := View();
      ResetPlan(d);
      var ok;
      ok, did := CarryOutReset(
        Removal(RemoveWord, d.word != NoWord), Removal(RemoveOther, d.other.Some?), Removal(RemoveCurrent, d.current.Some?));
      CommandEnds(old(View()), Reset, fate, old(disk), old(at), disk, at, ok, did);
      return if ok then Success(()) else Failure(Broken), did;
    }

    method CarryOutReset(ghost a: seq<Action>, ghost b: seq<Action>, ghost c: seq<Action>) returns (ok: bool, ghost did: seq<Action>)
      requires Valid()
      requires a == Removal(RemoveWord, word != NoWord) && b == Removal(RemoveOther, other.Some?)
      requires c == Removal(RemoveCurrent, current.Some?)
      modifies this
      ensures Valid() && Performed(a + b + c + [Sync], fate, old(disk), old(at), disk, at, ok, did)
    {
      PerformedNone(fate, disk, at);
      ok, did := Discard(RemoveWord, word != NoWord, disk, at, [], []);
      assert [] + a == a;
      if !ok {
        StopsThrice(a, b, c, fate, old(disk), old(at), disk, at, did);
        return;
      }
      ok, did := Discard(RemoveOther, other.Some?, old(disk), old(at), a, did);
      if !ok {
        StopsTwice(a + b, c, fate, old(disk), old(at), disk, at, did);
        return;
      }
      ok, did := Discard(RemoveCurrent, current.Some?, old(disk), old(at), a + b, did);
      if !ok {
        Stops(a + b + c, [Sync], fate, old(disk), old(at), disk, at, did);
        return;
      }
      ok, did := SyncAfter(old(disk), old(at), a + b + c, did);
    }

    /** A removal that reset skips when there is nothing to remove, after what was done before it. */
    method Discard(c: Change, there: bool, ghost start: Disk, ghost first: nat, ghost plan: seq<Action>, ghost done: seq<Action>)
      returns (ok: bool, ghost did: seq<Action>)
      requires Valid() && (!there ==> Apply(View(), c) == View())
      requires Performed(plan, fate, start, first, disk, at, true, done)
      modifies this
      ensures Valid() && Performed(plan + Removal(c, there), fate, start, first, disk, at, ok, did)
      ensures ok ==> View() == Apply(old(View()), c)
    {
      ok, did := true, done;
      if there {
        ghost var mid, next := disk, at;
        ghost var more;
        ok, more := Write(c);
        Then(plan, Durably(c), fate, start, first, mid, next, done, disk, at, ok, more);
        did := done + more;
        assert ok ==> more == Durably(c);
      } else {
        assert plan + [] == plan;
      }
    }

    /** The last sync, after what was done. */
    method SyncAfter(ghost start: Disk, ghost first: nat, ghost plan: seq<Action>, ghost done: seq<Action>)
      returns (ok: bool, ghost did: seq<Action>)
      requires Valid() && Performed(plan, fate, start, first, disk, at, true, done)
      modifies this`disk, this`at
      ensures Valid() && Performed(plan + [Sync], fate, start, first, disk, at, ok, did)
    {
      ghost var mid, next := disk, at;
      SyncPerformed(fate, mid, next);
      ok := SyncDir();
      ghost var more: seq<Action> := if ok then [Sync] else [];
      Then(plan, [Sync], fate, start, first, mid, next, done, disk, at, ok, more);
      did := done + more;
    }
  }

  lemma SyncPerformed(fate: seq<bool>, disk: Disk, at: nat)
    ensures if Fails(fate, at) then Performed([Sync], fate, disk, at, disk, at + 1, false, [])
      else Performed([Sync], fate, disk, at, disk.Do(Sync), at + 1, true, [Sync])
  {
    assert [Sync][..1] == [Sync] && [Sync][..0] == [];
  }

  lemma StopsTwice(
    first: seq<Action>, c: seq<Action>, fate: seq<bool>, before: Disk, at: nat, after: Disk, left: nat, did: seq<Action>)
    requires Performed(first, fate, before, at, after, left, false, did)
    ensures Performed(first + c + [Sync], fate, before, at, after, left, false, did)
  {
    Stops(first, c, fate, before, at, after, left, did);
    Stops(first + c, [Sync], fate, before, at, after, left, did);
  }

  lemma StopsThrice(
    a: seq<Action>, b: seq<Action>, c: seq<Action>, fate: seq<bool>, before: Disk, at: nat, after: Disk, left: nat, did: seq<Action>)
    requires Performed(a, fate, before, at, after, left, false, did)
    ensures Performed(a + b + c + [Sync], fate, before, at, after, left, false, did)
  {
    Stops(a, b, fate, before, at, after, left, did);
    StopsTwice(a + b, c, fate, before, at, after, left, did);
  }

  /** The writes before the first that fails; and if that is the exchange, the word put back, as far
      as what comes after it passes. */
  ghost predicate Swapped(
    writes: seq<Action>, from: Word, fate: seq<bool>, before: Disk, at: nat, after: Disk, left: nat, ok: bool, did: seq<Action>,
    back: seq<Action>)
  {
    var k := Passes(fate, at, |writes|);
    var refused := k < |writes| && writes[k] == Make(Exchange);
    var m := Passes(fate, at + k + 1, 2);
    && did == writes[..k] && (ok <==> k == |writes|)
    && back == (if refused then Durably(SetWord(from))[..m] else [])
    && after == DoAll(DoAll(before, did), back)
    && left == at + if ok then k else if !refused then k + 1 else if m == 2 then k + 3 else k + m + 2
  }

  lemma SwapStops(
    first: seq<Action>, last: seq<Action>, from: Word, fate: seq<bool>, before: Disk, at: nat, after: Disk, left: nat, did: seq<Action>)
    requires Performed(first, fate, before, at, after, left, false, did)
    requires forall i :: 0 <= i < |first| ==> first[i] != Make(Exchange)
    ensures Swapped(first + last, from, fate, before, at, after, left, false, did, [])
  {
    Stops(first, last, fate, before, at, after, left, did);
    assert DoAll(after, []) == after;
  }

  lemma SwapThen(
    first: seq<Action>, last: seq<Action>, from: Word, fate: seq<bool>, before: Disk, at: nat, mid: Disk, next: nat,
    did: seq<Action>, after: Disk, left: nat, ok: bool, more: seq<Action>, back: seq<Action>)
    requires Performed(first, fate, before, at, mid, next, true, did)
    requires Swapped(last, from, fate, mid, next, after, left, ok, more, back)
    ensures Swapped(first + last, from, fate, before, at, after, left, ok, did + more, back)
  {
    var a, n := |first|, Passes(fate, next, |last|);
    PassesSplit(fate, at, a, |last|);
    TakeBoth(first, last, n);
    DoAllConcat(before, did, more);
    assert did == first && next == at + a && Passes(fate, at, |first + last|) == a + n;
    assert n < |last| ==> (first + last)[a + n] == last[n];
    assert DoAll(DoAll(before, did + more), back) == DoAll(DoAll(mid, more), back);
  }

  lemma ExchangeRefused(
    swap: Swap, fate: seq<bool>, before: Disk, at: nat, after: Disk, left: nat, restored: bool, back: seq<Action>)
    requires Fails(fate, at) && Performed(Durably(SetWord(swap.From())), fate, before, at + 1, after, left, restored, back)
    ensures Swapped(LastWrites(swap, true), swap.From(), fate, before, at, after, left, false, [], back)
  {
    var writes := LastWrites(swap, true);
    assert Passes(fate, at, |writes|) == 0 && writes[..0] == [] && writes[0] == Make(Exchange);
    assert DoAll(before, []) == before;
  }

  lemma ExchangeUnsynced(swap: Swap, fate: seq<bool>, before: Disk, at: nat, after: Disk, left: nat, did: seq<Action>)
    requires Performed(Durably(Exchange), fate, before, at, after, left, false, did) && did != []
    ensures Swapped(LastWrites(swap, true), swap.From(), fate, before, at, after, left, false, did, [])
  {
    Stops(Durably(Exchange), Durably(SetWord(swap.To())), fate, before, at, after, left, did);
    assert LastWrites(swap, true)[1] == Sync;
    assert DoAll(after, []) == after;
  }

  lemma WordIsLast(
    swap: Swap, exchange: bool, fate: seq<bool>, before: Disk, at: nat, after: Disk, left: nat, ok: bool, did: seq<Action>)
    requires Performed(LastWrites(swap, exchange), fate, before, at, after, left, ok, did)
    requires exchange ==> |did| >= 2
    ensures Swapped(LastWrites(swap, exchange), swap.From(), fate, before, at, after, left, ok, did, [])
  {
    assert DoAll(after, []) == after;
  }

  /** The command refused and touched nothing, or made its plan up to the operation that failed; it
      succeeded exactly by making it all, and is broken only by one that failed. */
  ghost predicate Carried(
    d: Dir, c: Command, fate: seq<bool>, before: Disk, at: nat, after: Disk, left: nat, r: Result<(), Refusal>, did: seq<Action>)
  {
    var plan := Plan(d, c);
    if plan.Failure? then r == Failure(plan.error) && after == before && left == at
    else Performed(plan.value, fate, before, at, after, left, r.Success?, did) && (r.Failure? ==> r.error == Broken)
  }

  // ---------- What a command comes to ----------

  /** Of the operations answered, one fails. */
  ghost predicate SomeFails(fate: seq<bool>, at: nat, left: nat) {
    exists i :: at <= i < left && Fails(fate, i)
  }

  lemma CommandEnds(
    d: Dir, c: Command, fate: seq<bool>, before: Disk, at: nat, after: Disk, left: nat, ok: bool, did: seq<Action>)
    requires before.Live() == d && Plan(d, c).Success? && Performed(Plan(d, c).value, fate, before, at, after, left, ok, did)
    ensures !ok <==> SomeFails(fate, at, left)
    ensures ok ==> after.Live() == Effect(d, Plan(d, c).value)
    ensures ok && c.SealCurrent? ==> after.Live() == Dir(Some(Envelope(c.input.secret, c.input.nonce)), d.other, Steady)
    ensures ok && c.SealOther? ==> after.Live() == Dir(d.current, Some(Envelope(c.input.secret, c.input.nonce)), Next)
    ensures ok && c == Drop ==> after.Live() == Dir(d.current, None, Steady)
    ensures ok && c == Reset ==> after.Live() == Dir(None, None, NoWord)
  {
    if ok {
      PlanEffect(d, c);
      DoAllEffect(before, Plan(d, c).value);
      assert Plan(d, c).value[..|Plan(d, c).value|] == Plan(d, c).value;
    }
  }

  lemma SwapEnds(
    d: Dir, swap: Swap, fate: seq<bool>, before: Disk, at: nat, after: Disk, left: nat, ok: bool, did: seq<Action>, back: seq<Action>)
    requires before.Live() == d && Plan(d, SwapFiles(swap)).Success?
    requires Swapped(Plan(d, SwapFiles(swap)).value, swap.From(), fate, before, at, after, left, ok, did, back)
    ensures !ok <==> SomeFails(fate, at, left)
    ensures ok ==>
      (if State(d).Failure? && d.word.makesCurrent == d.current.value then after.Live() == d.(word := swap.To())
       else after.Live() == Dir(d.other, d.current, swap.To()))
  {
    var plan := Plan(d, SwapFiles(swap)).value;
    if ok {
      PlanEffect(d, SwapFiles(swap));
      DoAllEffect(before, plan);
      assert plan[..|plan|] == plan && DoAll(after, []) == after;
    } else {
      assert Fails(fate, at + Passes(fate, at, |plan|));
    }
  }

  /** Where the exchange alone is refused, the word is back where it was and nothing is half done: a
      swap just started leaves the directory it found, one resumed the directory it began with. */
  lemma RefusedExchangeIsUndone(
    d: Dir, swap: Swap, fate: seq<bool>, before: Disk, at: nat, after: Disk, left: nat, ok: bool, did: seq<Action>, back: seq<Action>)
    requires before.Live() == d && Plan(d, SwapFiles(swap)).Success?
    requires Swapped(Plan(d, SwapFiles(swap)).value, swap.From(), fate, before, at, after, left, ok, did, back)
    requires State(d).Success? || Some(d.word.makesCurrent) == d.other
    requires var exchange := at + if State(d).Success? then 2 else 0;
      forall i :: at <= i < exchange + 3 ==> (Fails(fate, i) <==> i == exchange)
    ensures !ok && after.Live() == d.(word := swap.From()) && after.pending == []
    ensures State(d).Success? ==> after.Live() == d
  {
    var plan := Plan(d, SwapFiles(swap)).value;
    var e := if State(d).Success? then 2 else 0;
    assert Fails(fate, at + e) && plan[e] == Make(Exchange);
    assert Passes(fate, at, |plan|) == e && Passes(fate, at + e + 1, 2) == 2;
    var back := Durably(SetWord(swap.From()));
    assert back[..2] == back;
    UndoneLive(before, plan[..e], back);
    if e == 2 {
      EffectOne(d, SetWord(Intent(swap, d.other.value)));
      assert plan[..2] == Durably(SetWord(Intent(swap, d.other.value)));
    }
    EffectOne(Effect(d, plan[..e]), SetWord(swap.From()));
  }

  lemma UndoneLive(before: Disk, did: seq<Action>, back: seq<Action>)
    requires back != [] && back[|back| - 1] == Sync
    ensures var after := DoAll(DoAll(before, did), back);
      after.pending == [] && after.Live() == Effect(Effect(before.Live(), did), back)
  {
    DoAllEffect(before, did);
    DoAllEffect(DoAll(before, did), back);
  }

  // ---------- The methods' runs are runs of the theorems ----------

  function Advances(n: nat): seq<Step> {
    if n == 0 then [] else Advances(n - 1) + [Advance]
  }

  lemma {:induction false} Advanced(ordered: bool, start: Dir, steps: seq<Step>, n: nat)
    requires var s := Run(ordered, start, steps); s.proc.Running? && n <= |s.proc.todo|
    ensures var s, next := Run(ordered, start, steps), Run(ordered, start, steps + Advances(n));
      && next.disk == DoAll(s.disk, s.proc.todo[..n])
      && next.proc == s.proc.(todo := s.proc.todo[n..])
  {
    var s := Run(ordered, start, steps);
    if n == 0 {
      assert steps + Advances(0) == steps && s.proc.todo[..0] == [] && s.proc.todo[0..] == s.proc.todo;
    } else {
      Advanced(ordered, start, steps, n - 1);
      RunAppend(ordered, start, steps + Advances(n - 1), Advance);
      assert steps + Advances(n) == steps + Advances(n - 1) + [Advance];
      assert s.proc.todo[..n][..n - 1] == s.proc.todo[..n - 1];
      assert s.proc.todo[n - 1..][1..] == s.proc.todo[n..];
    }
  }

  /** What a method makes of its plan, an idle system's run makes of it too: so every run's promises,
      whatever is killed or lost after that, are about the methods. */
  lemma CommandIsARun(ordered: bool, start: Dir, steps: seq<Step>, c: Command, n: nat)
    requires var s := Run(ordered, start, steps); s.proc.Idle? && Plan(s.disk.Live(), c).Success?
    requires n <= |Plan(Run(ordered, start, steps).disk.Live(), c).value|
    ensures var s, next := Run(ordered, start, steps), Run(ordered, start, steps + [Start(c)] + Advances(n));
      && next.disk == DoAll(s.disk, Plan(s.disk.Live(), c).value[..n])
      && next.proc == Running(Plan(s.disk.Live(), c).value[n..], FromOf(c), false)
  {
    RunAppend(ordered, start, steps, Start(c));
    Advanced(ordered, start, steps + [Start(c)], n);
  }

  /** And what it does to put the word back after a refused exchange. */
  lemma RefusalIsARun(ordered: bool, start: Dir, steps: seq<Step>, swap: Swap, n: nat, m: nat)
    requires var s := Run(ordered, start, steps); s.proc.Idle? && Plan(s.disk.Live(), SwapFiles(swap)).Success?
    requires var plan := Plan(Run(ordered, start, steps).disk.Live(), SwapFiles(swap)).value;
      n < |plan| && plan[n] == Make(Exchange) && m <= 2
    ensures var s := Run(ordered, start, steps);
      var plan := Plan(s.disk.Live(), SwapFiles(swap)).value;
      Run(ordered, start, steps + [Start(SwapFiles(swap))] + Advances(n) + [RefuseExchange] + Advances(m)).disk
        == DoAll(DoAll(s.disk, plan[..n]), Durably(SetWord(swap.From()))[..m])
  {
    CommandIsARun(ordered, start, steps, SwapFiles(swap), n);
    RunAppend(ordered, start, steps + [Start(SwapFiles(swap))] + Advances(n), RefuseExchange);
    Advanced(ordered, start, steps + [Start(SwapFiles(swap))] + Advances(n) + [RefuseExchange], m);
  }
}
