/** What the contract-secret commands (cmd/whatserverd/contract_secret.go) promise across crashes. */
module SecretRotation {
  import opened Wrappers
  import opened SealedDir
  import opened SealedDirRuns

  /** The directories the commands and crashes can leave. Never an envelope without the current one
      but for nothing at all, an intent only over the two files it names one of, and never one
      secret in both files. */
  predicate Good(d: Dir) {
    && d.word != Blank && d.word != Unknown
    && (d.other.Some? || d.word != NoWord ==> d.current.Some?)
    && (d.word.Intent? ==> d.other.Some? && (Some(d.word.makesCurrent) == d.current || Some(d.word.makesCurrent) == d.other))
    && (d.current.Some? && d.other.Some? ==> d.current.value.secret != d.other.value.secret)
  }

  predicate Clean(d: Dir) {
    State(d).Success?
  }

  predicate Any(c: Command) {
    true
  }

  lemma KeepsDurably(inv: Dir -> bool, goal: Dir -> bool, d: Dir, c: Change, rest: seq<Action>)
    requires inv(d) && Keeps(inv, goal, Apply(d, c), rest)
    ensures Keeps(inv, goal, d, Durably(c) + rest)
  {
    var todo := Durably(c) + rest;
    assert todo[1..] == [Sync] + rest && todo[1..][1..] == rest;
    assert Keeps(inv, goal, Apply(d, c), todo[1..]);
  }

  lemma BacksOutDurably(inv: Dir -> bool, d: Dir, c: Change, rest: seq<Action>, from: Word)
    requires c == Exchange ==> inv(d.(word := from))
    requires BacksOut(inv, Apply(d, c), rest, from)
    ensures BacksOut(inv, d, Durably(c) + rest, from)
  {
    var todo := Durably(c) + rest;
    assert todo[1..] == [Sync] + rest && todo[1..][1..] == rest;
    assert BacksOut(inv, Apply(d, c), todo[1..], from);
  }

  /** One durable change and no more. */
  lemma LastChange(inv: Dir -> bool, goal: Dir -> bool, d: Dir, c: Change, from: Word)
    requires c != Exchange && inv(d) && inv(Apply(d, c)) && goal(Apply(d, c))
    ensures Keeps(inv, goal, d, Durably(c)) && BacksOut(inv, d, Durably(c), from)
  {
    KeepsDurably(inv, goal, d, c, []);
    BacksOutDurably(inv, d, c, [], from);
    assert Durably(c) + [] == Durably(c);
  }

  lemma SwapStays(inv: Dir -> bool, goal: Dir -> bool, d: Dir, swap: Swap)
    requires Plan(d, SwapFiles(swap)).Success? && inv(d)
    requires State(d).Success? ==> inv(d.(word := Intent(swap, d.other.value)))
    requires State(d).Success? || d.word.makesCurrent != d.current.value ==>
      && inv(Dir(d.other, d.current, Intent(swap, d.other.value)))
      && inv(d.(word := swap.From()))
      && inv(Dir(d.other, d.current, swap.To())) && goal(Dir(d.other, d.current, swap.To()))
    requires State(d).Failure? && d.word.makesCurrent == d.current.value ==> inv(d.(word := swap.To())) && goal(d.(word := swap.To()))
    ensures Keeps(inv, goal, d, Plan(d, SwapFiles(swap)).value)
    ensures BacksOut(inv, d, Plan(d, SwapFiles(swap)).value, swap.From())
  {
    var to := Durably(SetWord(swap.To()));
    if State(d).Failure? && d.word.makesCurrent == d.current.value {
      LastChange(inv, goal, d, SetWord(swap.To()), swap.From());
    } else {
      var intended := d.(word := Intent(swap, d.other.value));
      var exchanged := Dir(d.other, d.current, Intent(swap, d.other.value));
      LastChange(inv, goal, exchanged, SetWord(swap.To()), swap.From());
      KeepsDurably(inv, goal, intended, Exchange, to);
      BacksOutDurably(inv, intended, Exchange, to, swap.From());
      if State(d).Success? {
        KeepsDurably(inv, goal, d, SetWord(Intent(swap, d.other.value)), Durably(Exchange) + to);
        BacksOutDurably(inv, d, SetWord(Intent(swap, d.other.value)), Durably(Exchange) + to, swap.From());
        assert Durably(SetWord(Intent(swap, d.other.value))) + (Durably(Exchange) + to) == Plan(d, SwapFiles(swap)).value;
      } else {
        assert intended == d;
      }
    }
  }

  lemma SealStays(d: Dir, c: Command)
    requires Good(d) && (c.SealCurrent? || c.SealOther?) && Plan(d, c).Success?
    ensures Keeps(Good, Clean, d, Plan(d, c).value) && BacksOut(Good, d, Plan(d, c).value, NoWord)
  {
    var e := Envelope(c.input.secret, c.input.nonce);
    var (file, word) := if c.SealCurrent? then (SetCurrent(e), SetWord(Steady)) else (SetOther(e), SetWord(Next));
    LastChange(Good, Clean, Apply(d, file), word, NoWord);
    KeepsDurably(Good, Clean, d, file, Durably(word));
    BacksOutDurably(Good, d, file, Durably(word), NoWord);
  }

  lemma DropStays(d: Dir)
    requires Good(d) && Plan(d, Drop).Success?
    ensures Keeps(Good, Clean, d, Plan(d, Drop).value) && BacksOut(Good, d, Plan(d, Drop).value, NoWord)
  {
    var word := SetWord(Steady);
    if State(d).Success? {
      LastChange(Good, Clean, Apply(d, RemoveOther), word, NoWord);
      KeepsDurably(Good, Clean, d, RemoveOther, Durably(word));
      BacksOutDurably(Good, d, RemoveOther, Durably(word), NoWord);
    } else {
      LastChange(Good, Clean, d, word, NoWord);
      assert [] + Durably(word) == Durably(word);
    }
  }

  /** A change left out because it would change nothing. */
  lemma OptionalChange(d: Dir, c: Change, needed: bool, rest: seq<Action>)
    requires Good(d) && c != Exchange && (!needed ==> Apply(d, c) == d)
    requires Keeps(Good, Clean, Apply(d, c), rest) && BacksOut(Good, Apply(d, c), rest, NoWord)
    ensures var todo := (if needed then Durably(c) else []) + rest;
      Keeps(Good, Clean, d, todo) && BacksOut(Good, d, todo, NoWord)
  {
    if needed {
      KeepsDurably(Good, Clean, d, c, rest);
      BacksOutDurably(Good, d, c, rest, NoWord);
    } else {
      assert [] + rest == rest;
    }
  }

  lemma ResetStays(d: Dir)
    requires Good(d)
    ensures Keeps(Good, Clean, d, PlanReset(d)) && BacksOut(Good, d, PlanReset(d), NoWord)
  {
    var noWord := d.(word := NoWord);
    var noOther := noWord.(other := None);
    var gone := Dir(None, None, NoWord);
    assert Keeps(Good, Clean, gone, []) && [Sync][1..] == [];
    assert Keeps(Good, Clean, gone, [Sync]) && BacksOut(Good, gone, [Sync], NoWord);
    OptionalChange(noOther, RemoveCurrent, d.current.Some?, [Sync]);
    var c := (if d.current.None? then [] else Durably(RemoveCurrent)) + [Sync];
    OptionalChange(noWord, RemoveOther, d.other.Some?, c);
    var b := (if d.other.None? then [] else Durably(RemoveOther)) + c;
    OptionalChange(d, RemoveWord, d.word != NoWord, b);
    assert PlanReset(d) == (if d.word == NoWord then [] else Durably(RemoveWord)) + b;
  }

  lemma GoodIsStable()
    ensures Stable(Good, Clean, Any)
  {
    forall d: Dir, c: Command | Good(d) && Plan(d, c).Success?
      ensures Keeps(Good, Clean, d, Plan(d, c).value) && BacksOut(Good, d, Plan(d, c).value, FromOf(c))
    {
      match c
      case SwapFiles(swap) => SwapStays(Good, Clean, d, swap);
      case Drop => DropStays(d);
      case Reset => ResetStays(d);
      case _ => SealStays(d, c);
    }
  }

  const EMPTY: Dir := Dir(None, None, NoWord)

  /** Every directory a run reaches, at any moment and after any crash from there, is a good one; and
      a command that finished has left a clean one, synced. On a disk that keeps no order, as long as
      each command is started where GoodStartIsSafeIff says it may be. */
  lemma {:induction false} EveryRunIsGood(ordered: bool, steps: seq<Step>, kept: set<nat>)
    requires Careful(ordered, Good, EMPTY, steps)
    ensures var s := Run(ordered, EMPTY, steps);
      && Good(s.disk.Live())
      && (Enabled(ordered, s, PowerLoss(kept)) ==> Good(Recovered(s.disk.durable, s.disk.pending, kept)))
      && (s.finished ==> s.disk.pending == [] && Clean(s.disk.durable))
  {
    GoodIsStable();
    RunKeepsInv(ordered, Good, Clean, Any, EMPTY, steps);
  }

  // ---------- Commands over unsynced changes, on a disk that keeps no order ----------

  /** Beside a directory with a word a crash leaves a current file, and beside an empty one nothing else. */
  predicate Beside(live: Dir, left: Dir) {
    && (live.word != NoWord ==> left.current.Some?)
    && (live.current.None? ==> left.other.None? && left.word == NoWord)
  }

  ghost predicate AllBeside(disk: Disk) {
    forall kept :: Beside(disk.Live(), Recovered(disk.durable, disk.pending, kept))
  }

  lemma MakeKeepsBeside(disk: Disk, c: Change, from: Word)
    requires AllBeside(disk) && MayMake(Good, disk, c, from) && Good(Apply(disk.Live(), c))
    ensures AllBeside(disk.Do(Make(c)))
  {
    var next := disk.Do(Make(c));
    LiveAfterMake(disk, c);
    forall kept
      ensures Beside(next.Live(), Recovered(next.durable, next.pending, kept))
    {
      RecoveredAfterMake(false, disk, c, kept);
      var left := Recovered(disk.durable, disk.pending, kept);
      assert Beside(disk.Live(), left) && MayFollow(Good, left, c, from);
      assert Beside(next.Live(), left) && Beside(next.Live(), Apply(left, c));
    }
  }

  lemma {:induction false} AlwaysBeside(steps: seq<Step>)
    requires Careful(false, Good, EMPTY, steps)
    ensures AllBeside(Run(false, EMPTY, steps).disk)
  {
    if steps != [] {
      var n := |steps| - 1;
      var s, step := Run(false, EMPTY, steps[..n]), steps[n];
      CarefulPrefix(false, Good, EMPTY, steps, n);
      AlwaysBeside(steps[..n]);
      GoodIsStable();
      RunKeepsInv(false, Good, Clean, Any, EMPTY, steps[..n]);
      if step.Advance? && s.proc.Running? && s.proc.todo != [] && s.proc.todo[0].Make? {
        assert Keeps(Good, if s.proc.refused then Good else Clean, Apply(s.disk.Live(), s.proc.todo[0].change), s.proc.todo[1..]);
        MakeKeepsBeside(s.disk, s.proc.todo[0].change, s.proc.from);
      }
    }
  }

  /** What a crash before a command could leave, for the command's first change to be safe over it. */
  predicate Suits(d: Dir, c: Command, left: Dir)
    requires Plan(d, c).Success?
  {
    match c
    case SealCurrent(_) => true
    case SealOther(i) =>
      && left.current.Some? && left.current.value.secret != i.secret
      && (left.word.Intent? ==> Some(left.word.makesCurrent) in {left.current, Some(Envelope(i.secret, i.nonce))})
    case SwapFiles(_) =>
      if State(d).Success? then left.other.Some? && d.other in {left.current, left.other}
      else d.other == Some(d.word.makesCurrent) ==> left.other.Some?
    case Drop => State(d).Success? ==> !left.word.Intent?
    case Reset =>
      if d.word != NoWord then true
      else if d.other.Some? then !left.word.Intent?
      else d.current.Some? ==> left.other.None? && left.word == NoWord
  }

  lemma SuitsIff(d: Dir, c: Command, left: Dir)
    requires Good(d) && Good(left) && Beside(d, left) && Plan(d, c).Success? && Plan(d, c).value[0].Make?
    ensures MayFollow(Good, left, Plan(d, c).value[0].change, FromOf(c)) <==> Suits(d, c, left)
  {
  }

  ghost predicate AllSuit(disk: Disk, c: Command)
    requires Plan(disk.Live(), c).Success?
  {
    forall kept :: Suits(disk.Live(), c, Recovered(disk.durable, disk.pending, kept))
  }

  lemma SuitedIffAllSuit(disk: Disk, c: Command)
    requires DiskInv(false, Good, disk) && AllBeside(disk) && Plan(disk.Live(), c).Success?
    ensures Suited(Good, disk, c) <==> AllSuit(disk, c)
  {
    var plan := Plan(disk.Live(), c).value;
    PlanSyncsEach(disk.Live(), c);
    forall kept
      ensures plan[0].Make? ==> (Suits(disk.Live(), c, Recovered(disk.durable, disk.pending, kept))
        <==> MayFollow(Good, Recovered(disk.durable, disk.pending, kept), plan[0].change, FromOf(c)))
      ensures plan[0].Sync? ==> Suits(disk.Live(), c, Recovered(disk.durable, disk.pending, kept))
    {
      if plan[0].Make? {
        assert MayKeep(false, disk, kept);
        assert Beside(disk.Live(), Recovered(disk.durable, disk.pending, kept));
        SuitsIff(disk.Live(), c, Recovered(disk.durable, disk.pending, kept));
      }
    }
  }

  /** Exactly when a command started over unsynced changes leaves only good directories, whatever is
      killed, refused or lost after it: a first seal, a swap already exchanged and a drop being
      finished always; another when whatever a crash could leave before it suits its first change. */
  lemma {:induction false} GoodStartIsSafeIff(steps: seq<Step>, c: Command)
    requires Careful(false, Good, EMPTY, steps) && Enabled(false, Run(false, EMPTY, steps), Start(c))
    ensures StaysSafe(Good, EMPTY, steps, c) <==> AllSuit(Run(false, EMPTY, steps).disk, c)
  {
    GoodIsStable();
    RunKeepsInv(false, Good, Clean, Any, EMPTY, steps);
    AlwaysBeside(steps);
    StartIsSafeIff(Good, Clean, Any, EMPTY, steps, c);
    SuitedIffAllSuit(Run(false, EMPTY, steps).disk, c);
  }

  /** With nothing unsynced every command is safe, whatever becomes of it. */
  lemma {:induction false} SyncedStartIsSafe(steps: seq<Step>, c: Command)
    requires Careful(false, Good, EMPTY, steps) && Enabled(false, Run(false, EMPTY, steps), Start(c))
    requires Run(false, EMPTY, steps).disk.pending == []
    ensures StaysSafe(Good, EMPTY, steps, c)
  {
    GoodIsStable();
    RunKeepsInv(false, Good, Clean, Any, EMPTY, steps);
    SyncedIsSuited(Good, Clean, Any, Run(false, EMPTY, steps).disk, c);
    StartIsSafeIff(Good, Clean, Any, EMPTY, steps, c);
  }

  /** A host that syncs its disk before each command needs no care, on any disk: such a run is one of
      those that EveryRunIsGood is about. */
  lemma {:induction false} SyncedStartsAreCareful(ordered: bool, steps: seq<Step>)
    requires forall i :: 0 <= i < |steps| && steps[i].Start? ==> Run(ordered, EMPTY, steps[..i]).disk.pending == []
    ensures Careful(ordered, Good, EMPTY, steps)
  {
    if steps != [] && !ordered {
      var n := |steps| - 1;
      forall i | 0 <= i < n && steps[..n][i].Start?
        ensures Run(ordered, EMPTY, steps[..n][..i]).disk.pending == []
      {
        assert steps[..n][..i] == steps[..i];
      }
      SyncedStartsAreCareful(ordered, steps[..n]);
      GoodIsStable();
      RunKeepsInv(ordered, Good, Clean, Any, EMPTY, steps[..n]);
      var s := Run(ordered, EMPTY, steps[..n]);
      if steps[n].Start? && Enabled(ordered, s, steps[n]) {
        SyncedIsSuited(Good, Clean, Any, s.disk, steps[n].command);
      }
      CarefulOneMore(ordered, Good, EMPTY, steps[..n], steps[n]);
      assert steps[..n] + [steps[n]] == steps;
    }
  }

  // ---------- Whose turn it is ----------

  /** Every step but reset, a seal reading the given input. */
  function Steps(input: Input): set<Command> {
    {SealCurrent(input), SealOther(input), SwapFiles(Promoting), SwapFiles(Unpromoting), Drop}
  }

  /** The step that stopped in a directory whose word and files disagree. */
  function Stopped(d: Dir, input: Input): Command {
    match d.word
    case Intent(swap, _) => SwapFiles(swap)
    case Steady => SealOther(input)
    case _ => Drop
  }

  /** The directory that step is after. */
  function Finished(d: Dir, input: Input): Dir
    requires d.word.Intent? ==> d.current.Some? && d.other.Some?
    requires input.Piped?
  {
    match d.word
    case Intent(swap, e) =>
      if d.current == Some(e) then d.(word := swap.To()) else Dir(d.other, d.current, swap.To())
    case Steady => Dir(d.current, Some(Envelope(input.secret, input.nonce)), Next)
    case _ => Dir(d.current, None, Steady)
  }

  lemma EffectDurably(d: Dir, c: Change, rest: seq<Action>)
    ensures Effect(d, Durably(c) + rest) == Effect(Apply(d, c), rest)
  {
    var todo := Durably(c) + rest;
    assert todo[1..] == [Sync] + rest && todo[1..][1..] == rest;
  }

  lemma EffectOne(d: Dir, c: Change)
    ensures Effect(d, Durably(c)) == Apply(d, c)
  {
    EffectDurably(d, c, []);
    assert Durably(c) + [] == Durably(c);
  }

  /** A change, and then the word. */
  lemma EffectTwo(d: Dir, c: Change, w: Word)
    ensures Effect(d, Durably(c) + Durably(SetWord(w))) == Apply(d, c).(word := w)
  {
    EffectDurably(d, c, Durably(SetWord(w)));
    EffectOne(Apply(d, c), SetWord(w));
  }

  lemma SwapEffect(d: Dir, swap: Swap)
    requires Plan(d, SwapFiles(swap)).Success?
    ensures Effect(d, Plan(d, SwapFiles(swap)).value) ==
      if State(d).Failure? && d.word.makesCurrent == d.current.value then d.(word := swap.To())
      else Dir(d.other, d.current, swap.To())
  {
    var to := Durably(SetWord(swap.To()));
    if State(d).Success? {
      var intent := Intent(swap, d.other.value);
      EffectDurably(d, SetWord(intent), Durably(Exchange) + to);
      EffectTwo(d.(word := intent), Exchange, swap.To());
      assert Durably(SetWord(intent)) + (Durably(Exchange) + to) == Plan(d, SwapFiles(swap)).value;
    } else {
      EffectOne(d, SetWord(swap.To()));
      EffectTwo(d, Exchange, swap.To());
    }
  }

  lemma DropEffect(d: Dir)
    requires Plan(d, Drop).Success?
    ensures Effect(d, Plan(d, Drop).value) == Dir(d.current, None, Steady)
  {
    EffectOne(d, SetWord(Steady));
    EffectTwo(d, RemoveOther, Steady);
    assert [] + Durably(SetWord(Steady)) == Durably(SetWord(Steady));
  }

  /** Nothing of the directory is left, whatever it was. */
  lemma ResetEffect(d: Dir)
    ensures Effect(d, PlanReset(d)) == EMPTY
  {
    var current := (if d.current.None? then [] else Durably(RemoveCurrent)) + [Sync];
    var other := (if d.other.None? then [] else Durably(RemoveOther)) + current;
    assert [Sync][1..] == [];
    EffectOptionally(d, RemoveWord, d.word != NoWord, other);
    EffectOptionally(d.(word := NoWord), RemoveOther, d.other.Some?, current);
    EffectOptionally(Dir(d.current, None, NoWord), RemoveCurrent, d.current.Some?, [Sync]);
    assert PlanReset(d) == (if d.word == NoWord then [] else Durably(RemoveWord)) + other;
  }

  lemma EffectOptionally(d: Dir, c: Change, needed: bool, rest: seq<Action>)
    ensures Effect(d, (if needed then Durably(c) else []) + rest) == Effect(if needed then Apply(d, c) else d, rest)
  {
    EffectDurably(d, c, rest);
    assert [] + rest == rest;
  }

  lemma PlanEffect(d: Dir, c: Command)
    requires Plan(d, c).Success?
    ensures Effect(d, Plan(d, c).value) ==
      match c
      case SealCurrent(i) => Dir(Some(Envelope(i.secret, i.nonce)), d.other, Steady)
      case SealOther(i) => Dir(d.current, Some(Envelope(i.secret, i.nonce)), Next)
      case SwapFiles(swap) =>
        if State(d).Failure? && d.word.makesCurrent == d.current.value then d.(word := swap.To())
        else Dir(d.other, d.current, swap.To())
      case Drop => Dir(d.current, None, Steady)
      case Reset => EMPTY
  {
    match c
    case SealCurrent(i) => EffectTwo(d, SetCurrent(Envelope(i.secret, i.nonce)), Steady);
    case SealOther(i) => EffectTwo(d, SetOther(Envelope(i.secret, i.nonce)), Next);
    case SwapFiles(swap) => SwapEffect(d, swap);
    case Drop => DropEffect(d);
    case Reset => ResetEffect(d);
  }

  /** In a half-done directory, of all steps but reset exactly the one that stopped is accepted, and
      run to its end it leaves the clean directory it was after. Where the word is gone (a first
      seal, or a reset, that stopped), none is. */
  lemma ExactlyOneFinishes(d: Dir, input: Input, c: Command)
    requires Good(d) && !Clean(d)
    requires input.Piped? && (d.current.Some? ==> input.secret != d.current.value.secret)
    requires c in Steps(input)
    ensures Plan(d, c).Success? <==> d.word != NoWord && c == Stopped(d, input)
    ensures Plan(d, c).Success? ==> Effect(d, Plan(d, c).value) == Finished(d, input) && Clean(Finished(d, input))
    ensures Plan(d, c).Failure? ==> Plan(d, c).error == Disagree
  {
    if Plan(d, c).Success? {
      PlanEffect(d, c);
    }
  }

  /** A seal in its turn refuses what it cannot use, and the secret that is current already. */
  lemma SealRefusals(d: Dir, input: Input)
    requires Good(d) && Clean(d)
    ensures d.word == NoWord ==> (Plan(d, SealCurrent(input)) == Failure(BadInput) <==> input.Unusable?)
    ensures d.word == NoWord ==> (Plan(d, SealCurrent(input)).Success? <==> input.Piped?)
    ensures d.word == Steady ==> (Plan(d, SealOther(input)) == Failure(BadInput) <==> input.Unusable?)
    ensures d.word == Steady ==>
      (Plan(d, SealOther(input)) == Failure(SameSecret) <==> input.Piped? && input.secret == d.current.value.secret)
    ensures d.word == Steady ==> (Plan(d, SealOther(input)).Success? <==> input.Piped? && input.secret != d.current.value.secret)
  {
  }

  /** Over a state file that says nothing of ours every command but reset refuses. */
  lemma ForeignWordRefused(d: Dir, c: Command)
    requires d.word in {Blank, Unknown} && c != Reset
    ensures Plan(d, c) == Failure(Disagree)
  {
  }

  function Turns(d: Dir, input: Input): set<Command> {
    match d.word
    case NoWord => {SealCurrent(input)}
    case Steady => {SealOther(input)}
    case Next => {SwapFiles(Promoting), Drop}
    case _ => {SwapFiles(Unpromoting), Drop}
  }

  /** In a clean directory each step has its turn, and out of turn says so. */
  lemma CleanTurns(d: Dir, input: Input, c: Command)
    requires Good(d) && Clean(d) && c in Steps(input)
    requires input.Piped? && (d.current.Some? ==> input.secret != d.current.value.secret)
    ensures if c in Turns(d, input) then Plan(d, c).Success? else Plan(d, c) == Failure(OutOfTurn)
  {
  }

  /** The refusals about a swap's own files cannot be met, nor a file that should be there missed. */
  lemma {:induction false} SwapRefusalsUnreachable(ordered: bool, steps: seq<Step>, c: Command)
    requires Careful(ordered, Good, EMPTY, steps)
    ensures var plan := Plan(Run(ordered, EMPTY, steps).disk.Live(), c);
      plan.Failure? ==> plan.error !in {OneEnvelope, IntentMismatch, MissingFile, Broken}
  {
    EveryRunIsGood(ordered, steps, {});
  }

  // ---------- A swap, crashed and run again ----------

  function Before(swap: Swap, a: Envelope, b: Envelope): Dir {
    Dir(Some(a), Some(b), swap.From())
  }

  function After(swap: Swap, a: Envelope, b: Envelope): Dir {
    Dir(Some(b), Some(a), swap.To())
  }

  function Intended(swap: Swap, a: Envelope, b: Envelope): Dir {
    Dir(Some(a), Some(b), Intent(swap, b))
  }

  function Exchanged(swap: Swap, a: Envelope, b: Envelope): Dir {
    Dir(Some(b), Some(a), Intent(swap, b))
  }

  /** The four directories of a swap: before it, its intent written, exchanged, and after it. */
  function Way(swap: Swap, a: Envelope, b: Envelope): Dir -> bool {
    d => d in {Before(swap, a, b), Intended(swap, a, b), Exchanged(swap, a, b), After(swap, a, b)}
  }

  function Done(swap: Swap, a: Envelope, b: Envelope): Dir -> bool {
    d => d == After(swap, a, b)
  }

  function Only(swap: Swap): Command -> bool {
    c => c == SwapFiles(swap)
  }

  lemma WayIsStable(swap: Swap, a: Envelope, b: Envelope)
    requires a != b
    ensures Stable(Way(swap, a, b), Done(swap, a, b), Only(swap))
  {
    forall d: Dir | Way(swap, a, b)(d) && Plan(d, SwapFiles(swap)).Success?
      ensures Keeps(Way(swap, a, b), Done(swap, a, b), d, Plan(d, SwapFiles(swap)).value)
      ensures BacksOut(Way(swap, a, b), d, Plan(d, SwapFiles(swap)).value, swap.From())
    {
      SwapStays(Way(swap, a, b), Done(swap, a, b), d, swap);
    }
  }

  /** From wherever a swap stopped, running it to its end finishes it; and then it is out of turn. */
  lemma SwapFinishes(swap: Swap, a: Envelope, b: Envelope, d: Dir)
    requires a != b && Way(swap, a, b)(d)
    ensures if d == After(swap, a, b) then Plan(d, SwapFiles(swap)) == Failure(OutOfTurn)
            else Plan(d, SwapFiles(swap)).Success? && Effect(d, Plan(d, SwapFiles(swap)).value) == After(swap, a, b)
  {
    if d != After(swap, a, b) {
      PlanEffect(d, SwapFiles(swap));
    }
  }

  // ---------- A swap resumed over unsynced changes, on a disk that keeps no order ----------

  /** The changes of one direction of a swap that lead along its way: the intent, the exchange, and
      the word put back when the exchange was refused. */
  ghost predicate Forward(swap: Swap, a: Envelope, b: Envelope, d: Dir, changes: seq<Change>) {
    changes != [] ==>
      var n := |changes| - 1;
      var before := ApplyAll(d, changes[..n]);
      && Forward(swap, a, b, d, changes[..n])
      && (if before == Before(swap, a, b) then changes[n] == SetWord(Intent(swap, b))
          else before == Intended(swap, a, b) && changes[n] in {Exchange, SetWord(swap.From())})
  }

  /** Whatever part of the resumed plan is made and whatever unsynced changes are kept, the crash
      leaves one of the swap's directories. */
  ghost predicate ResumeIsSafe(swap: Swap, a: Envelope, b: Envelope, disk: Disk)
    requires Plan(disk.Live(), SwapFiles(swap)).Success?
  {
    forall n: nat, kept: set<nat> :: n <= |Plan(disk.Live(), SwapFiles(swap)).value| ==>
      Way(swap, a, b)(CrashAfter(disk, Plan(disk.Live(), SwapFiles(swap)).value, n, kept))
  }

  function DoAll(disk: Disk, actions: seq<Action>): Disk {
    if actions == [] then disk else DoAll(disk, actions[..|actions| - 1]).Do(actions[|actions| - 1])
  }

  function CrashAfter(disk: Disk, actions: seq<Action>, n: nat, kept: set<nat>): Dir
    requires n <= |actions|
  {
    var at := DoAll(disk, actions[..n]);
    Recovered(at.durable, at.pending, kept)
  }

  lemma {:induction false} ForwardStart(swap: Swap, a: Envelope, b: Envelope, d: Dir, changes: seq<Change>)
    requires Forward(swap, a, b, d, changes) && changes != []
    ensures d in {Before(swap, a, b), Dir(Some(a), Some(b), Intent(swap, b))}
  {
    if |changes| > 1 {
      ForwardStart(swap, a, b, d, changes[..|changes| - 1]);
    }
  }

  lemma {:induction false} RecoveredFrom(d: Dir, changes: seq<Change>, kept: set<nat>)
    requires forall i :: 0 <= i < |changes| ==> i !in kept
    ensures Recovered(d, changes, kept) == d
  {
    if changes != [] {
      RecoveredFrom(d, changes[..|changes| - 1], kept);
    }
  }

  lemma DoOne(disk: Disk, actions: seq<Action>)
    requires actions != []
    ensures DoAll(disk, actions[..1]) == disk.Do(actions[0])
  {
    assert actions[..1][..0] == [];
  }

  /** The exchange made and unsynced: the resumed swap writes `to`, and a crash may keep that alone. */
  lemma TornAfterExchange(swap: Swap, a: Envelope, b: Envelope, disk: Disk)
    requires a != b && Forward(swap, a, b, disk.durable, disk.pending) && disk.pending != []
    requires disk.Live() == Dir(Some(b), Some(a), Intent(swap, b))
    ensures Plan(disk.Live(), SwapFiles(swap)).Success?
    ensures CrashAfter(disk, Plan(disk.Live(), SwapFiles(swap)).value, 1, {|disk.pending|}) == Dir(Some(a), Some(b), swap.To())
  {
    var plan := Plan(disk.Live(), SwapFiles(swap)).value;
    var n := |disk.pending|;
    ForwardStart(swap, a, b, disk.durable, disk.pending);
    DoOne(disk, plan);
    var pending := disk.pending + [SetWord(swap.To())];
    assert pending[..n] == disk.pending;
    RecoveredFrom(disk.durable, disk.pending, {n});
    assert Recovered(disk.durable, pending, {n}) == disk.durable.(word := swap.To());
  }

  /** The intent written and unsynced: the resumed swap exchanges, and a crash may keep that without
      the intent. */
  lemma TornBeforeIntent(swap: Swap, a: Envelope, b: Envelope, disk: Disk)
    requires a != b && Forward(swap, a, b, disk.durable, disk.pending) && disk.pending != []
    requires disk.Live() == Dir(Some(a), Some(b), Intent(swap, b))
    ensures Plan(disk.Live(), SwapFiles(swap)).Success?
    ensures exists kept :: CrashAfter(disk, Plan(disk.Live(), SwapFiles(swap)).value, 1, kept) == Dir(Some(b), Some(a), swap.From())
  {
    var plan := Plan(disk.Live(), SwapFiles(swap)).value;
    var n := |disk.pending|;
    DoOne(disk, plan);
    var kept := BeforeIsLeft(swap, a, b, disk.durable, disk.pending);
    var pending := disk.pending + [Exchange];
    assert pending[..n] == disk.pending;
    RecoveredWithLast(disk.durable, disk.pending, kept);
    assert CrashAfter(disk, plan, 1, kept + {n}) == Dir(Some(b), Some(a), swap.From());
  }

  lemma {:induction false} RecoveredWithLast(d: Dir, changes: seq<Change>, kept: set<nat>)
    ensures Recovered(d, changes, kept + {|changes|}) == Recovered(d, changes, kept)
  {
    SameKept(d, changes, kept, kept + {|changes|});
  }

  /** Over an unsynced intent a crash can leave the state before it, whatever it was. */
  lemma BeforeIsLeft(swap: Swap, a: Envelope, b: Envelope, d: Dir, changes: seq<Change>) returns (kept: set<nat>)
    requires a != b && Forward(swap, a, b, d, changes) && changes != [] && ApplyAll(d, changes) == Intended(swap, a, b)
    ensures Recovered(d, changes, kept) == Before(swap, a, b)
  {
    var n := |changes|;
    var earlier := changes[..n - 1];
    assert changes[n - 1] == SetWord(Intent(swap, b)) && ApplyAll(d, earlier) == Before(swap, a, b);
    if n == 1 {
      kept := {};
      RecoveredFrom(d, changes, kept);
    } else {
      kept := {n - 2};
      ForwardStart(swap, a, b, d, changes);
      assert earlier[n - 2] == SetWord(swap.From()) && earlier[..n - 2] == changes[..n - 2];
      RecoveredFrom(d, changes[..n - 2], kept);
      assert Recovered(d, earlier, kept) == d.(word := swap.From());
    }
  }

  /** A plan that starts with nothing unsynced has never more than one unsynced change. */
  lemma {:induction false} CrashKeeps(inv: Dir -> bool, goal: Dir -> bool, d: Dir, todo: seq<Action>, n: nat)
    requires n <= |todo| && SyncsEach(todo) && Keeps(inv, goal, d, todo)
    ensures var at := DoAll(Disk(d, []), todo[..n]);
      && inv(at.durable) && inv(at.Live()) && Keeps(inv, goal, at.Live(), todo[n..])
      && (at.pending == [] || (|at.pending| == 1 && n < |todo| && todo[n].Sync?))
  {
    if n == 0 {
      assert todo[0..] == todo;
    } else {
      CrashKeeps(inv, goal, d, todo, n - 1);
      assert todo[..n][..n - 1] == todo[..n - 1];
      assert todo[n - 1..][1..] == todo[n..];
      var at := DoAll(Disk(d, []), todo[..n - 1]);
      if todo[n - 1].Make? {
        assert [todo[n - 1].change][..0] == [];
        assert at.Do(todo[n - 1]).pending == [todo[n - 1].change];
      }
    }
  }

  lemma OneChangeOrNone(d: Dir, changes: seq<Change>, kept: set<nat>)
    requires |changes| <= 1
    ensures Recovered(d, changes, kept) in {d, ApplyAll(d, changes)}
  {
    if |changes| == 1 {
      assert changes[..0] == [];
    }
  }

  /** On a disk that keeps no order, a stopped swap may be resumed safely exactly when nothing is
      unsynced. The command itself does not sync before it resumes. */
  lemma ResumeIsSafeIffSynced(swap: Swap, a: Envelope, b: Envelope, disk: Disk)
    requires a != b && Forward(swap, a, b, disk.durable, disk.pending)
    requires disk.Live() in {Dir(Some(a), Some(b), Intent(swap, b)), Dir(Some(b), Some(a), Intent(swap, b))}
    ensures Plan(disk.Live(), SwapFiles(swap)).Success?
    ensures ResumeIsSafe(swap, a, b, disk) <==> disk.pending == []
  {
    var plan := Plan(disk.Live(), SwapFiles(swap)).value;
    if disk.pending == [] {
      var inv, goal := Way(swap, a, b), Done(swap, a, b);
      WayIsStable(swap, a, b);
      PlanSyncsEach(disk.durable, SwapFiles(swap));
      assert Only(swap)(SwapFiles(swap)) && inv(disk.durable);
      assert Keeps(inv, goal, disk.durable, plan);
      forall n: nat, kept: set<nat> | n <= |plan|
        ensures inv(CrashAfter(disk, plan, n, kept))
      {
        CrashKeeps(inv, goal, disk.durable, plan, n);
        var at := DoAll(disk, plan[..n]);
        OneChangeOrNone(at.durable, at.pending, kept);
      }
    } else if disk.Live() == Dir(Some(b), Some(a), Intent(swap, b)) {
      TornAfterExchange(swap, a, b, disk);
      assert !Way(swap, a, b)(CrashAfter(disk, plan, 1, {|disk.pending|}));
    } else {
      TornBeforeIntent(swap, a, b, disk);
      var kept :| CrashAfter(disk, plan, 1, kept) == Dir(Some(b), Some(a), swap.From());
      assert !Way(swap, a, b)(CrashAfter(disk, plan, 1, kept));
    }
  }

  // ---------- Every run of a swap ----------

  /** The changes of a swap, by the directory they are made in. */
  predicate NextOnWay(swap: Swap, a: Envelope, b: Envelope, d: Dir, c: Change) {
    if d == Before(swap, a, b) then c == SetWord(Intent(swap, b))
    else if d == Intended(swap, a, b) then c in {Exchange, SetWord(swap.From())}
    else d == Exchanged(swap, a, b) && c == SetWord(swap.To())
  }

  ghost predicate OnWay(swap: Swap, a: Envelope, b: Envelope, d: Dir, todo: seq<Action>)
    decreases |todo|
  {
    todo != [] ==>
      if todo[0].Make? then NextOnWay(swap, a, b, d, todo[0].change) && OnWay(swap, a, b, Apply(d, todo[0].change), todo[1..])
      else OnWay(swap, a, b, d, todo[1..])
  }

  /** Until the swap is through, what is unsynced led along its way. */
  ghost predicate SwapInv(swap: Swap, a: Envelope, b: Envelope, s: Sys) {
    && (s.disk.Live() != After(swap, a, b) ==> Forward(swap, a, b, s.disk.durable, s.disk.pending))
    && (s.proc.Running? ==> OnWay(swap, a, b, s.disk.Live(), s.proc.todo) && s.proc.from == swap.From())
  }

  lemma OnWayDurably(swap: Swap, a: Envelope, b: Envelope, d: Dir, c: Change, rest: seq<Action>)
    requires NextOnWay(swap, a, b, d, c) && OnWay(swap, a, b, Apply(d, c), rest)
    ensures OnWay(swap, a, b, d, Durably(c) + rest)
  {
    var todo := Durably(c) + rest;
    assert todo[1..] == [Sync] + rest && todo[1..][1..] == rest;
    assert OnWay(swap, a, b, Apply(d, c), todo[1..]);
  }

  lemma PlanOnWay(swap: Swap, a: Envelope, b: Envelope, d: Dir)
    requires a != b && Way(swap, a, b)(d) && Plan(d, SwapFiles(swap)).Success?
    ensures OnWay(swap, a, b, d, Plan(d, SwapFiles(swap)).value)
  {
    var to := Durably(SetWord(swap.To()));
    assert to == to + [];
    OnWayDurably(swap, a, b, Exchanged(swap, a, b), SetWord(swap.To()), []);
    OnWayDurably(swap, a, b, Intended(swap, a, b), Exchange, to);
    OnWayDurably(swap, a, b, Before(swap, a, b), SetWord(Intent(swap, b)), Durably(Exchange) + to);
    assert Durably(SetWord(Intent(swap, b))) + Durably(Exchange) + to == Durably(SetWord(Intent(swap, b))) + (Durably(Exchange) + to);
  }

  lemma MakeKeepsForward(swap: Swap, a: Envelope, b: Envelope, disk: Disk, c: Change)
    requires a != b && Forward(swap, a, b, disk.durable, disk.pending) && NextOnWay(swap, a, b, disk.Live(), c)
    ensures var next := disk.Do(Make(c));
      next.Live() != After(swap, a, b) ==> Forward(swap, a, b, next.durable, next.pending)
  {
    LiveAfterMake(disk, c);
    assert (disk.pending + [c])[..|disk.pending|] == disk.pending;
  }

  lemma StepKeepsSwapInv(ordered: bool, swap: Swap, a: Envelope, b: Envelope, s: Sys, step: Step)
    requires a != b && SwapInv(swap, a, b, s) && Enabled(ordered, s, step) && (step.Start? ==> step.command == SwapFiles(swap))
    requires Way(swap, a, b)(s.disk.Live())
    ensures SwapInv(swap, a, b, Do(s, step))
  {
    match step
    case Start(_) => PlanOnWay(swap, a, b, s.disk.Live());
    case Advance =>
      if s.proc.todo != [] && s.proc.todo[0].Make? {
        assert NextOnWay(swap, a, b, s.disk.Live(), s.proc.todo[0].change);
        LiveAfterMake(s.disk, s.proc.todo[0].change);
        MakeKeepsForward(swap, a, b, s.disk, s.proc.todo[0].change);
      }
    case RefuseExchange =>
      assert NextOnWay(swap, a, b, s.disk.Live(), Exchange);
      var back := Durably(SetWord(swap.From()));
      assert back == back + [];
      OnWayDurably(swap, a, b, s.disk.Live(), SetWord(swap.From()), []);
    case _ =>
  }

  /** A swap that resumes does so with nothing unsynced. */
  ghost predicate ResumesSynced(ordered: bool, start: Dir, steps: seq<Step>) {
    ordered || forall i :: 0 <= i < |steps| && steps[i].Start? && Enabled(ordered, Run(ordered, start, steps[..i]), steps[i]) ==>
      SyncedIfIntent(Run(ordered, start, steps[..i]).disk)
  }

  predicate SyncedIfIntent(disk: Disk) {
    disk.Live().word.Intent? ==> disk.pending == []
  }

  /** Before a swap's first change no unsynced one moved a file. */
  lemma {:induction false} OnlyWords(swap: Swap, a: Envelope, b: Envelope, d: Dir, changes: seq<Change>, kept: set<nat>)
    requires a != b && Forward(swap, a, b, d, changes) && ApplyAll(d, changes) in {Before(swap, a, b), Intended(swap, a, b)}
    ensures Recovered(d, changes, kept) in {Before(swap, a, b), Intended(swap, a, b)}
  {
    if changes != [] {
      OnlyWords(swap, a, b, d, changes[..|changes| - 1], kept);
    }
  }

  lemma TornIsUnsuited(swap: Swap, a: Envelope, b: Envelope, disk: Disk, kept: set<nat>)
    requires DiskInv(false, Way(swap, a, b), disk) && Plan(disk.Live(), SwapFiles(swap)).Success?
    requires Plan(disk.Live(), SwapFiles(swap)).value != [] && Plan(disk.Live(), SwapFiles(swap)).value[0].Make?
    requires !Way(swap, a, b)(CrashAfter(disk, Plan(disk.Live(), SwapFiles(swap)).value, 1, kept))
    ensures !Suited(Way(swap, a, b), disk, SwapFiles(swap))
  {
    var plan := Plan(disk.Live(), SwapFiles(swap)).value;
    DoOne(disk, plan);
    RecoveredAfterMake(false, disk, plan[0].change, kept);
    assert !MayFollow(Way(swap, a, b), Recovered(disk.durable, disk.pending, kept), plan[0].change, swap.From());
  }

  lemma SwapSuitedIff(swap: Swap, a: Envelope, b: Envelope, disk: Disk)
    requires a != b && DiskInv(false, Way(swap, a, b), disk) && Plan(disk.Live(), SwapFiles(swap)).Success?
    requires Forward(swap, a, b, disk.durable, disk.pending)
    ensures Suited(Way(swap, a, b), disk, SwapFiles(swap)) <==> SyncedIfIntent(disk)
  {
    var inv, c := Way(swap, a, b), SwapFiles(swap);
    var plan := Plan(disk.Live(), c).value;
    if disk.Live() == Before(swap, a, b) {
      forall kept: set<nat>
        ensures MayFollow(inv, Recovered(disk.durable, disk.pending, kept), plan[0].change, swap.From())
      {
        OnlyWords(swap, a, b, disk.durable, disk.pending, kept);
      }
    } else if disk.pending == [] {
      WayIsStable(swap, a, b);
      assert Only(swap)(c) && inv(disk.Live());
      SyncedMayMake(inv, Done(swap, a, b), disk, plan, swap.From());
    } else if disk.Live() == Exchanged(swap, a, b) {
      TornAfterExchange(swap, a, b, disk);
      TornIsUnsuited(swap, a, b, disk, {|disk.pending|});
    } else {
      TornBeforeIntent(swap, a, b, disk);
      var kept :| CrashAfter(disk, plan, 1, kept) == Dir(Some(b), Some(a), swap.From());
      TornIsUnsuited(swap, a, b, disk, kept);
    }
  }

  lemma SyncedPrefix(ordered: bool, start: Dir, steps: seq<Step>, n: nat)
    requires ResumesSynced(ordered, start, steps) && n <= |steps|
    ensures ResumesSynced(ordered, start, steps[..n])
  {
    forall i | 0 <= i < n
      ensures steps[..n][..i] == steps[..i]
    {
    }
  }

  lemma {:induction false} SyncedIsCareful(ordered: bool, swap: Swap, a: Envelope, b: Envelope, steps: seq<Step>)
    requires a != b && AllowedOnly(steps, Only(swap)) && ResumesSynced(ordered, Before(swap, a, b), steps)
    ensures Careful(ordered, Way(swap, a, b), Before(swap, a, b), steps)
    ensures SwapInv(swap, a, b, Run(ordered, Before(swap, a, b), steps))
  {
    if steps != [] {
      var n, start, inv := |steps| - 1, Before(swap, a, b), Way(swap, a, b);
      var s := Run(ordered, start, steps[..n]);
      SyncedPrefix(ordered, start, steps, n);
      SyncedIsCareful(ordered, swap, a, b, steps[..n]);
      WayIsStable(swap, a, b);
      RunKeepsInv(ordered, inv, Done(swap, a, b), Only(swap), start, steps[..n]);
      if Enabled(ordered, s, steps[n]) {
        StepKeepsSwapInv(ordered, swap, a, b, s, steps[n]);
        if steps[n].Start? && !ordered {
          assert SyncedIfIntent(s.disk);
          SwapSuitedIff(swap, a, b, s.disk);
        }
      }
      CarefulOneMore(ordered, inv, start, steps[..n], steps[n]);
      assert steps[..n] + [steps[n]] == steps;
    }
  }

  /** Promote, or unpromote, run any number of times and crashed anywhere: the directory is always
      one of the swap's four, so no envelope is lost and `to` never stands over files not exchanged,
      now or after any crash; and once a run has finished the envelopes are exchanged, once, for good. */
  lemma SwapExchangesOnce(ordered: bool, swap: Swap, a: Envelope, b: Envelope, steps: seq<Step>, kept: set<nat>)
    requires a != b && AllowedOnly(steps, Only(swap)) && ResumesSynced(ordered, Before(swap, a, b), steps)
    ensures var s := Run(ordered, Before(swap, a, b), steps);
      && Way(swap, a, b)(s.disk.Live()) && Way(swap, a, b)(s.disk.durable)
      && (Enabled(ordered, s, PowerLoss(kept)) ==> Way(swap, a, b)(Recovered(s.disk.durable, s.disk.pending, kept)))
      && (s.finished ==> s.disk == Disk(After(swap, a, b), []))
  {
    SyncedIsCareful(ordered, swap, a, b, steps);
    WayIsStable(swap, a, b);
    var inv, goal := Way(swap, a, b), Done(swap, a, b);
    RunKeepsInv(ordered, inv, goal, Only(swap), Before(swap, a, b), steps);
    var s := Run(ordered, Before(swap, a, b), steps);
    assert MayKeep(ordered, s.disk, {});
    RecoveredFrom(s.disk.durable, s.disk.pending, {});
  }

  /** On a disk that keeps no order: a swap run once more leaves only its four directories, whatever
      becomes of it, exactly when it does not resume over anything unsynced. */
  lemma {:induction false} SwapIsSafeIffSynced(swap: Swap, a: Envelope, b: Envelope, steps: seq<Step>)
    requires a != b && AllowedOnly(steps, Only(swap)) && ResumesSynced(false, Before(swap, a, b), steps)
    requires Enabled(false, Run(false, Before(swap, a, b), steps), Start(SwapFiles(swap)))
    ensures StaysSafe(Way(swap, a, b), Before(swap, a, b), steps, SwapFiles(swap))
      <==> SyncedIfIntent(Run(false, Before(swap, a, b), steps).disk)
  {
    var disk := Run(false, Before(swap, a, b), steps).disk;
    SwapDiskIsForward(swap, a, b, steps);
    SwapIsSafeIffSuited(swap, a, b, steps);
    AfterIsOver(swap, a, b);
    SwapSuitedIff(swap, a, b, disk);
  }

  lemma AfterIsOver(swap: Swap, a: Envelope, b: Envelope)
    ensures Plan(After(swap, a, b), SwapFiles(swap)).Failure?
  {
  }

  lemma SwapIsSafeIffSuited(swap: Swap, a: Envelope, b: Envelope, steps: seq<Step>)
    requires a != b && AllowedOnly(steps, Only(swap)) && Careful(false, Way(swap, a, b), Before(swap, a, b), steps)
    requires Enabled(false, Run(false, Before(swap, a, b), steps), Start(SwapFiles(swap)))
    ensures StaysSafe(Way(swap, a, b), Before(swap, a, b), steps, SwapFiles(swap))
      <==> Suited(Way(swap, a, b), Run(false, Before(swap, a, b), steps).disk, SwapFiles(swap))
  {
    var inv, allowed := Way(swap, a, b), Only(swap);
    WayIsStable(swap, a, b);
    assert allowed(SwapFiles(swap)) && inv(Before(swap, a, b));
    StartIsSafeIff(inv, Done(swap, a, b), allowed, Before(swap, a, b), steps, SwapFiles(swap));
  }

  lemma SwapDiskIsForward(swap: Swap, a: Envelope, b: Envelope, steps: seq<Step>)
    requires a != b && AllowedOnly(steps, Only(swap)) && ResumesSynced(false, Before(swap, a, b), steps)
    ensures Careful(false, Way(swap, a, b), Before(swap, a, b), steps)
    ensures var disk := Run(false, Before(swap, a, b), steps).disk;
      && DiskInv(false, Way(swap, a, b), disk)
      && (disk.Live() != After(swap, a, b) ==> Forward(swap, a, b, disk.durable, disk.pending))
  {
    SyncedIsCareful(false, swap, a, b, steps);
    WayIsStable(swap, a, b);
    RunKeepsInv(false, Way(swap, a, b), Done(swap, a, b), Only(swap), Before(swap, a, b), steps);
  }

  // ---------- Runs that tear a directory ----------

  lemma StartAndMake(start: Dir, steps: seq<Step>, c: Command)
    requires var s := Run(false, start, steps);
      s.proc.Idle? && Plan(s.disk.Live(), c).Success? && Plan(s.disk.Live(), c).value[0].Make?
    ensures var s := Run(false, start, steps);
      var plan := Plan(s.disk.Live(), c).value;
      Run(false, start, steps + [Start(c)] + [Advance])
        == Sys(Disk(s.disk.durable, s.disk.pending + [plan[0].change]), Running(plan[1..], FromOf(c), false), false)
  {
    PlanSyncsEach(Run(false, start, steps).disk.Live(), c);
    RunAppend(false, start, steps, Start(c));
    RunAppend(false, start, steps + [Start(c)], Advance);
  }

  lemma SyncAndMake(start: Dir, steps: seq<Step>)
    requires var s := Run(false, start, steps); s.proc.Running? && |s.proc.todo| > 1 && s.proc.todo[0].Sync? && s.proc.todo[1].Make?
    ensures var s := Run(false, start, steps);
      Run(false, start, steps + [Advance] + [Advance])
        == Sys(Disk(s.disk.Live(), [s.proc.todo[1].change]), Running(s.proc.todo[2..], s.proc.from, s.proc.refused), false)
  {
    var s := Run(false, start, steps);
    RunAppend(false, start, steps, Advance);
    RunAppend(false, start, steps + [Advance], Advance);
    assert s.proc.todo[1..][1..] == s.proc.todo[2..];
    assert [] + [s.proc.todo[1].change] == [s.proc.todo[1].change];
  }

  lemma SyncAndKill(start: Dir, steps: seq<Step>)
    requires var s := Run(false, start, steps); s.proc.Running? && s.proc.todo != [] && s.proc.todo[0].Sync?
    ensures Run(false, start, steps + [Advance] + [Kill]) == Sys(Disk(Run(false, start, steps).disk.Live(), []), Idle, false)
    ensures Run(false, start, steps + [Kill]) == Sys(Run(false, start, steps).disk, Idle, false)
  {
    RunAppend(false, start, steps, Advance);
    RunAppend(false, start, steps + [Advance], Kill);
    RunAppend(false, start, steps, Kill);
  }

  /** One unsynced change, then one more, and a crash that keeps the second alone. */
  lemma LoseAllBut(start: Dir, steps: seq<Step>, first: Change, second: Change)
    requires Run(false, start, steps).disk.pending == [first] + [second]
    ensures Run(false, start, steps + [PowerLoss({1})]).disk == Disk(Apply(Run(false, start, steps).disk.durable, second), [])
  {
    RunAppend(false, start, steps, PowerLoss({1}));
    SecondAlone(Run(false, start, steps).disk.durable, first, second, {1});
  }

  lemma SecondAlone(d: Dir, first: Change, second: Change, kept: set<nat>)
    requires 0 !in kept && 1 in kept
    ensures Recovered(d, [first] + [second], kept) == Apply(d, second)
  {
    var changes := [first] + [second];
    assert changes[..1] == [first] && changes[1] == second;
    RecoveredFrom(d, [first], kept);
    assert |changes| - 1 == 1;
    assert Recovered(d, changes, kept) == Apply(Recovered(d, changes[..1], kept), changes[1]);
  }

  lemma LiveAfterOne(d: Dir, c: Change)
    ensures Disk(d, [c]).Live() == Apply(d, c)
  {
    LiveAfterMake(Disk(d, []), c);
    assert [] + [c] == [c];
  }

  lemma IntentMade(a: Envelope, b: Envelope)
    requires a.secret != b.secret
    ensures var s := Run(false, Before(Promoting, a, b), [] + [Start(SwapFiles(Promoting))] + [Advance]);
      && s.disk == Disk(Before(Promoting, a, b), [SetWord(Intent(Promoting, b))])
      && s.proc == Running([Sync] + Durably(Exchange) + Durably(SetWord(Promoted)), Next, false)
  {
    var start := Before(Promoting, a, b);
    StartAndMake(start, [], SwapFiles(Promoting));
    assert [] + [SetWord(Intent(Promoting, b))] == [SetWord(Intent(Promoting, b))];
    var plan := Plan(start, SwapFiles(Promoting)).value;
    assert plan[1..] == [Sync] + Durably(Exchange) + Durably(SetWord(Promoted));
  }

  lemma ExchangeMade(a: Envelope, b: Envelope)
    requires a.secret != b.secret
    ensures var s := Run(false, Before(Promoting, a, b), [] + [Start(SwapFiles(Promoting))] + [Advance] + [Advance] + [Advance]);
      && s.disk == Disk(Intended(Promoting, a, b), [Exchange])
      && s.proc == Running([Sync] + Durably(SetWord(Promoted)), Next, false)
  {
    IntentMade(a, b);
    LiveAfterOne(Before(Promoting, a, b), SetWord(Intent(Promoting, b)));
    SyncAndMake(Before(Promoting, a, b), [] + [Start(SwapFiles(Promoting))] + [Advance]);
    assert ([Sync] + Durably(Exchange) + Durably(SetWord(Promoted)))[2..] == [Sync] + Durably(SetWord(Promoted));
  }

  /** A promote killed between its exchange and the sync. */
  lemma KilledSwap(a: Envelope, b: Envelope)
    requires a.secret != b.secret
    ensures var steps := [] + [Start(SwapFiles(Promoting))] + [Advance] + [Advance] + [Advance] + [Kill];
      Run(false, Before(Promoting, a, b), steps).disk == Disk(Intended(Promoting, a, b), [Exchange])
  {
    ExchangeMade(a, b);
    SyncAndKill(Before(Promoting, a, b), [] + [Start(SwapFiles(Promoting))] + [Advance] + [Advance] + [Advance]);
  }

  /** A promote killed once its intent is durable; then a reset, killed once the word is removed and
      before the sync; then a reset that removes the other file, and a crash that keeps that alone: an
      intent over one file, which no command but reset accepts. */
  lemma TornReset(a: Envelope, b: Envelope)
    requires a.secret != b.secret
    ensures var steps := [] + [Start(SwapFiles(Promoting))] + [Advance] + [Advance] + [Kill] + [Start(Reset)] + [Advance] + [Kill]
        + [Start(Reset)] + [Advance] + [PowerLoss({1})];
      var d := Run(false, Before(Promoting, a, b), steps).disk.durable;
      d == Dir(Some(a), None, Intent(Promoting, b)) && !Good(d)
  {
    var start := Before(Promoting, a, b);
    var first: seq<Step> := [] + [Start(SwapFiles(Promoting))] + [Advance];
    IntentMade(a, b);
    LiveAfterOne(start, SetWord(Intent(Promoting, b)));
    SyncAndKill(start, first);
    var killed := first + [Advance] + [Kill];
    assert Run(false, start, killed) == Sys(Disk(Intended(Promoting, a, b), []), Idle, false);
    ResetTwice(start, killed, Intended(Promoting, a, b));
  }

  lemma ResetOnce(start: Dir, steps: seq<Step>, d: Dir)
    requires Run(false, start, steps) == Sys(Disk(d, []), Idle, false) && d.word != NoWord
    ensures Run(false, start, steps + [Start(Reset)] + [Advance] + [Kill]) == Sys(Disk(d, [RemoveWord]), Idle, false)
  {
    var once := steps + [Start(Reset)] + [Advance];
    assert PlanReset(d)[0] == Make(RemoveWord) && PlanReset(d)[1] == Sync;
    StartAndMake(start, steps, Reset);
    assert [] + [RemoveWord] == [RemoveWord];
    SyncAndKill(start, once);
  }

  lemma ResetTwice(start: Dir, steps: seq<Step>, d: Dir)
    requires Run(false, start, steps) == Sys(Disk(d, []), Idle, false) && d.word != NoWord && d.other.Some?
    ensures Run(false, start, steps + [Start(Reset)] + [Advance] + [Kill] + [Start(Reset)] + [Advance] + [PowerLoss({1})]).disk
      == Disk(d.(other := None), [])
  {
    ResetOnce(start, steps, d);
    RemovesOther(start, steps + [Start(Reset)] + [Advance] + [Kill], d);
  }

  lemma RemovesOther(start: Dir, steps: seq<Step>, d: Dir)
    requires Run(false, start, steps) == Sys(Disk(d, [RemoveWord]), Idle, false) && d.other.Some?
    ensures Run(false, start, steps + [Start(Reset)] + [Advance] + [PowerLoss({1})]).disk == Disk(d.(other := None), [])
  {
    LiveAfterOne(d, RemoveWord);
    assert PlanReset(d.(word := NoWord))[0] == Make(RemoveOther);
    StartAndMake(start, steps, Reset);
    LoseAllBut(start, steps + [Start(Reset)] + [Advance], RemoveWord, RemoveOther);
  }

  /** A promote killed once the state promoted is written and before the sync; then a drop, and a
      crash that keeps its removal alone. */
  lemma TornDrop(a: Envelope, b: Envelope)
    requires a.secret != b.secret
    ensures var steps := [] + [Start(SwapFiles(Promoting))] + [Advance] + [Advance] + [Advance] + [Advance] + [Advance] + [Kill]
        + [Start(Drop)] + [Advance] + [PowerLoss({1})];
      var d := Run(false, Before(Promoting, a, b), steps).disk.durable;
      d == Dir(Some(b), None, Intent(Promoting, b)) && !Good(d)
  {
    var start := Before(Promoting, a, b);
    var made: seq<Step> := [] + [Start(SwapFiles(Promoting))] + [Advance] + [Advance] + [Advance];
    ExchangeMade(a, b);
    LiveAfterOne(Intended(Promoting, a, b), Exchange);
    SyncAndMake(start, made);
    assert ([Sync] + Durably(SetWord(Promoted)))[2..] == [Sync];
    var promoted := made + [Advance] + [Advance];
    assert Run(false, start, promoted).disk == Disk(Exchanged(Promoting, a, b), [SetWord(Promoted)]);
    SyncAndKill(start, promoted);
    LiveAfterOne(Exchanged(Promoting, a, b), SetWord(Promoted));
    StartAndMake(start, promoted + [Kill], Drop);
    LoseAllBut(start, promoted + [Kill] + [Start(Drop)] + [Advance], SetWord(Promoted), RemoveOther);
  }
}
