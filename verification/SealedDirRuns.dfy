/** Every run of the commands with crashes anywhere: the process killed with the host up, or the
    host's power lost. */
module SealedDirRuns {
  import opened Wrappers
  import opened SealedDir

  /** from: the word a refused exchange goes back to. refused: the exchange was refused. */
  datatype Proc = Idle | Running(todo: seq<Action>, from: Word, refused: bool)

  /** finished: the last command that ran did so to its end, and without a refused exchange. */
  datatype Sys = Sys(disk: Disk, proc: Proc, finished: bool)

  datatype Step = Start(command: Command) | Advance | RefuseExchange | Kill | PowerLoss(kept: set<nat>) | HostSync

  /** `ordered`: a crash keeps unsynced changes in the order they were made, as a journal does. A
      command may be started over unsynced changes, which a killed one leaves. */
  ghost predicate Enabled(ordered: bool, s: Sys, step: Step) {
    match step
    case Start(command) => s.proc.Idle? && Plan(s.disk.Live(), command).Success?
    case Advance => s.proc.Running?
    case RefuseExchange => s.proc.Running? && s.proc.todo != [] && s.proc.todo[0] == Make(Exchange)
    case Kill => true
    case PowerLoss(kept) => MayKeep(ordered, s.disk, kept)
    case HostSync => true
  }

  ghost predicate IsPrefix(kept: set<nat>, n: nat) {
    forall i, j :: 0 <= i < j < n && j in kept ==> i in kept
  }

  ghost predicate MayKeep(ordered: bool, disk: Disk, kept: set<nat>) {
    ordered ==> IsPrefix(kept, |disk.pending|)
  }

  function FromOf(command: Command): Word {
    if command.SwapFiles? then command.swap.From() else NoWord
  }

  function Do(s: Sys, step: Step): Sys {
    match step
    case Start(command) =>
      var plan := Plan(s.disk.Live(), command);
      if plan.Success? then Sys(s.disk, Running(plan.value, FromOf(command), false), false) else s
    case Advance =>
      if s.proc.Idle? then s
      else if s.proc.todo == [] then Sys(s.disk, Idle, !s.proc.refused)
      else Sys(s.disk.Do(s.proc.todo[0]), s.proc.(todo := s.proc.todo[1..]), false)
    case RefuseExchange =>
      if s.proc.Idle? then s
      else Sys(s.disk, Running(Durably(SetWord(s.proc.from)), s.proc.from, true), false)
    case Kill => if s.proc.Idle? then s else Sys(s.disk, Idle, false)
    case PowerLoss(kept) =>
      Sys(Disk(Recovered(s.disk.durable, s.disk.pending, kept), []), Idle, s.proc.Idle? && s.finished)
    case HostSync => s.(disk := s.disk.Do(Sync))
  }

  ghost function Run(ordered: bool, start: Dir, steps: seq<Step>): Sys {
    if steps == [] then Sys(Disk(start, []), Idle, false)
    else
      var s := Run(ordered, start, steps[..|steps| - 1]);
      var step := steps[|steps| - 1];
      if Enabled(ordered, s, step) then Do(s, step) else s
  }

  // ---------- A property of directories that every run keeps ----------

  /** Every directory on the way has the property, and the last one also meets the goal, synced. */
  ghost predicate Keeps(inv: Dir -> bool, goal: Dir -> bool, d: Dir, todo: seq<Action>)
    decreases |todo|
  {
    && inv(d)
    && if todo == [] then goal(d)
       else Keeps(inv, goal, if todo[0].Make? then Apply(d, todo[0].change) else d, todo[1..])
  }

  ghost predicate SyncsEach(todo: seq<Action>) {
    forall i :: 0 <= i < |todo| && todo[i].Make? ==> i + 1 < |todo| && todo[i + 1].Sync?
  }

  /** What makes a property hold over every run of the allowed commands. */
  ghost predicate Stable(inv: Dir -> bool, goal: Dir -> bool, allowed: Command -> bool) {
    && (forall d: Dir, c: Command :: inv(d) && allowed(c) && Plan(d, c).Success? ==> Keeps(inv, goal, d, Plan(d, c).value))
    && (forall d: Dir, c: Command :: inv(d) && allowed(c) && Plan(d, c).Success? ==> BacksOut(inv, d, Plan(d, c).value, FromOf(c)))
  }

  /** Wherever the exchange may be refused, going back to the word `from` keeps the property. */
  ghost predicate BacksOut(inv: Dir -> bool, d: Dir, todo: seq<Action>, from: Word)
    decreases |todo|
  {
    todo != [] ==>
      && (todo[0] == Make(Exchange) ==> inv(d.(word := from)))
      && BacksOut(inv, if todo[0].Make? then Apply(d, todo[0].change) else d, todo[1..], from)
  }

  ghost predicate AllowedOnly(steps: seq<Step>, allowed: Command -> bool) {
    forall i :: 0 <= i < |steps| && steps[i].Start? ==> allowed(steps[i].command)
  }

  /** The directory has the property, and so has whatever a crash leaves of it. */
  ghost predicate DiskInv(ordered: bool, inv: Dir -> bool, disk: Disk) {
    && inv(disk.Live())
    && forall kept :: MayKeep(ordered, disk, kept) ==> inv(Recovered(disk.durable, disk.pending, kept))
  }

  /** The change may be made over the unsynced ones: a crash that keeps it, and any of those, leaves
      the property. An exchange may be refused, and then the word is put back. */
  ghost predicate MayMake(inv: Dir -> bool, disk: Disk, c: Change, from: Word) {
    forall kept: set<nat> :: MayFollow(inv, Recovered(disk.durable, disk.pending, kept), c, from)
  }

  ghost predicate MayFollow(inv: Dir -> bool, left: Dir, c: Change, from: Word) {
    inv(Apply(left, c)) && (c == Exchange ==> inv(left.(word := from)))
  }

  /** The command may be started over what is unsynced. */
  ghost predicate Suited(inv: Dir -> bool, disk: Disk, c: Command) {
    var plan := Plan(disk.Live(), c);
    plan.Success? && plan.value != [] && plan.value[0].Make? ==> MayMake(inv, disk, plan.value[0].change, FromOf(c))
  }

  /** Without order, every command of the run is started where it may be. */
  ghost predicate Careful(ordered: bool, inv: Dir -> bool, start: Dir, steps: seq<Step>) {
    ordered || forall i :: 0 <= i < |steps| && steps[i].Start? && Enabled(ordered, Run(ordered, start, steps[..i]), steps[i]) ==>
      Suited(inv, Run(ordered, start, steps[..i]).disk, steps[i].command)
  }

  ghost predicate ProcInv(ordered: bool, inv: Dir -> bool, goal: Dir -> bool, s: Sys) {
    s.proc.Running? ==>
      && SyncsEach(s.proc.todo)
      && Keeps(inv, if s.proc.refused then inv else goal, s.disk.Live(), s.proc.todo)
      && BacksOut(inv, s.disk.Live(), s.proc.todo, s.proc.from)
      && (!ordered && s.proc.todo != [] && s.proc.todo[0].Make? ==> MayMake(inv, s.disk, s.proc.todo[0].change, s.proc.from))
      && (s.proc.todo == [] ==> s.disk.pending == [])
  }

  ghost predicate RunInv(ordered: bool, inv: Dir -> bool, goal: Dir -> bool, s: Sys) {
    && DiskInv(ordered, inv, s.disk)
    && ProcInv(ordered, inv, goal, s)
    && (s.finished ==> s.proc.Idle? && s.disk.pending == [] && goal(s.disk.durable))
  }

  lemma PlanSyncsEach(d: Dir, c: Command)
    requires Plan(d, c).Success?
    ensures SyncsEach(Plan(d, c).value) && Plan(d, c).value != []
  {
  }

  lemma {:induction false} OrderedRecovery(d: Dir, changes: seq<Change>, kept: set<nat>) returns (n: nat)
    requires IsPrefix(kept, |changes|)
    ensures n <= |changes| && Recovered(d, changes, kept) == ApplyAll(d, changes[..n])
    ensures forall i :: 0 <= i < |changes| ==> (i in kept <==> i < n)
  {
    if changes == [] {
      n := 0;
    } else {
      var m := |changes| - 1;
      n := OrderedRecovery(d, changes[..m], kept);
      assert changes[..m][..n] == changes[..n];
      if m in kept {
        assert n < m ==> n in kept;
        n := m + 1;
        assert changes[..n] == changes;
      }
    }
  }

  lemma LiveAfterMake(disk: Disk, c: Change)
    ensures disk.Do(Make(c)).Live() == Apply(disk.Live(), c)
  {
    assert (disk.pending + [c])[..|disk.pending|] == disk.pending;
  }

  lemma AllIsKept(disk: Disk, kept: set<nat>)
    requires IsPrefix(kept, |disk.pending| + 1) && |disk.pending| in kept
    ensures Recovered(disk.durable, disk.pending, kept) == disk.Live()
  {
    var n := OrderedRecovery(disk.durable, disk.pending, kept);
    assert n < |disk.pending| ==> n in kept;
    assert disk.pending[..|disk.pending|] == disk.pending;
  }

  /** What a crash leaves after one change more: what it left before, and the change or not. */
  lemma RecoveredAfterMake(ordered: bool, disk: Disk, c: Change, kept: set<nat>)
    requires MayKeep(ordered, disk.Do(Make(c)), kept)
    ensures MayKeep(ordered, disk, kept)
    ensures var next := disk.Do(Make(c));
      var left := Recovered(disk.durable, disk.pending, kept);
      && Recovered(next.durable, next.pending, kept) == (if |disk.pending| in kept then Apply(left, c) else left)
      && (ordered && |disk.pending| in kept ==> left == disk.Live())
  {
    assert (disk.pending + [c])[..|disk.pending|] == disk.pending;
    if ordered && |disk.pending| in kept {
      AllIsKept(disk, kept);
    }
  }

  lemma MakeKeepsInv(ordered: bool, inv: Dir -> bool, disk: Disk, c: Change, from: Word)
    requires DiskInv(ordered, inv, disk) && inv(Apply(disk.Live(), c)) && (ordered || MayMake(inv, disk, c, from))
    ensures DiskInv(ordered, inv, disk.Do(Make(c)))
  {
    var next := disk.Do(Make(c));
    LiveAfterMake(disk, c);
    forall kept | MayKeep(ordered, next, kept)
      ensures inv(Recovered(next.durable, next.pending, kept))
    {
      RecoveredAfterMake(ordered, disk, c, kept);
      assert !ordered ==> MayFollow(inv, Recovered(disk.durable, disk.pending, kept), c, from);
    }
  }

  /** Nothing unsynced, every change that is next on the way may be made. */
  lemma SyncedMayMake(inv: Dir -> bool, goal: Dir -> bool, disk: Disk, todo: seq<Action>, from: Word)
    requires disk.pending == [] && todo != [] && todo[0].Make?
    requires Keeps(inv, goal, disk.Live(), todo) && BacksOut(inv, disk.Live(), todo, from)
    ensures MayMake(inv, disk, todo[0].change, from)
  {
    assert Keeps(inv, goal, Apply(disk.Live(), todo[0].change), todo[1..]);
  }

  lemma SyncedIsSuited(inv: Dir -> bool, goal: Dir -> bool, allowed: Command -> bool, disk: Disk, c: Command)
    requires Stable(inv, goal, allowed) && allowed(c) && inv(disk.Live()) && disk.pending == []
    ensures Suited(inv, disk, c)
  {
    var plan := Plan(disk.Live(), c);
    if plan.Success? && plan.value != [] && plan.value[0].Make? {
      SyncedMayMake(inv, goal, disk, plan.value, FromOf(c));
    }
  }

  lemma SyncKeepsInv(ordered: bool, inv: Dir -> bool, goal: Dir -> bool, s: Sys)
    requires RunInv(ordered, inv, goal, s)
    ensures RunInv(ordered, inv, goal, s.(disk := s.disk.Do(Sync)))
  {
    var disk := s.disk.Do(Sync);
    if s.proc.Running? && s.proc.todo != [] && s.proc.todo[0].Make? {
      SyncedMayMake(inv, if s.proc.refused then inv else goal, disk, s.proc.todo, s.proc.from);
    }
  }

  /** The next action carried out, and the rest left to do. */
  lemma ActionKeepsInv(ordered: bool, inv: Dir -> bool, goal: Dir -> bool, s: Sys, rest: seq<Action>)
    requires RunInv(ordered, inv, goal, s) && s.proc.Running? && s.proc.todo != [] && rest == s.proc.todo[1..]
    ensures RunInv(ordered, inv, goal, Sys(s.disk.Do(s.proc.todo[0]), s.proc.(todo := rest), false))
  {
    var a := s.proc.todo[0];
    var end := if s.proc.refused then inv else goal;
    assert Keeps(inv, end, if a.Make? then Apply(s.disk.Live(), a.change) else s.disk.Live(), rest);
    if a.Make? {
      LiveAfterMake(s.disk, a.change);
      MakeKeepsInv(ordered, inv, s.disk, a.change, s.proc.from);
    } else if rest != [] && rest[0].Make? {
      SyncedMayMake(inv, end, s.disk.Do(Sync), rest, s.proc.from);
    }
  }

  lemma RefuseKeepsInv(ordered: bool, inv: Dir -> bool, goal: Dir -> bool, s: Sys)
    requires RunInv(ordered, inv, goal, s) && Enabled(ordered, s, RefuseExchange)
    ensures RunInv(ordered, inv, goal, Do(s, RefuseExchange))
  {
    var back, d := Durably(SetWord(s.proc.from)), s.disk.Live().(word := s.proc.from);
    assert inv(d);
    assert back[1..] == [Sync] && back[1..][1..] == [];
    assert Keeps(inv, inv, d, back[1..]) && BacksOut(inv, d, back[1..], s.proc.from);
    if !ordered {
      forall kept
        ensures MayFollow(inv, Recovered(s.disk.durable, s.disk.pending, kept), SetWord(s.proc.from), s.proc.from)
      {
        assert MayFollow(inv, Recovered(s.disk.durable, s.disk.pending, kept), Exchange, s.proc.from);
      }
    }
  }

  lemma StartKeepsInv(ordered: bool, inv: Dir -> bool, goal: Dir -> bool, allowed: Command -> bool, s: Sys, c: Command)
    requires Stable(inv, goal, allowed) && RunInv(ordered, inv, goal, s) && Enabled(ordered, s, Start(c)) && allowed(c)
    requires ordered || Suited(inv, s.disk, c)
    ensures RunInv(ordered, inv, goal, Do(s, Start(c)))
  {
    PlanSyncsEach(s.disk.Live(), c);
  }

  lemma StepKeepsInv(ordered: bool, inv: Dir -> bool, goal: Dir -> bool, allowed: Command -> bool, s: Sys, step: Step)
    requires Stable(inv, goal, allowed) && RunInv(ordered, inv, goal, s) && Enabled(ordered, s, step)
    requires step.Start? ==> allowed(step.command) && (ordered || Suited(inv, s.disk, step.command))
    ensures RunInv(ordered, inv, goal, Do(s, step))
  {
    match step
    case Start(c) => StartKeepsInv(ordered, inv, goal, allowed, s, c);
    case Advance => if s.proc.Running? && s.proc.todo != [] { ActionKeepsInv(ordered, inv, goal, s, s.proc.todo[1..]); }
    case RefuseExchange => RefuseKeepsInv(ordered, inv, goal, s);
    case Kill =>
    case PowerLoss(kept) =>
    case HostSync => SyncKeepsInv(ordered, inv, goal, s);
  }

  lemma CarefulPrefix(ordered: bool, inv: Dir -> bool, start: Dir, steps: seq<Step>, n: nat)
    requires Careful(ordered, inv, start, steps) && n <= |steps|
    ensures Careful(ordered, inv, start, steps[..n])
  {
    forall i | 0 <= i < n
      ensures steps[..n][..i] == steps[..i]
    {
    }
  }

  lemma CarefulOneMore(ordered: bool, inv: Dir -> bool, start: Dir, steps: seq<Step>, step: Step)
    requires Careful(ordered, inv, start, steps)
    requires var s := Run(ordered, start, steps);
      !ordered && step.Start? && Enabled(ordered, s, step) ==> Suited(inv, s.disk, step.command)
    ensures Careful(ordered, inv, start, steps + [step])
  {
    forall i | 0 <= i <= |steps|
      ensures (steps + [step])[..i] == steps[..i]
    {
    }
    assert steps[..|steps|] == steps;
  }

  lemma {:induction false} RunKeepsInv(
    ordered: bool, inv: Dir -> bool, goal: Dir -> bool, allowed: Command -> bool, start: Dir, steps: seq<Step>)
    requires Stable(inv, goal, allowed) && inv(start) && AllowedOnly(steps, allowed) && Careful(ordered, inv, start, steps)
    ensures RunInv(ordered, inv, goal, Run(ordered, start, steps))
  {
    if steps != [] {
      var n := |steps| - 1;
      CarefulPrefix(ordered, inv, start, steps, n);
      RunKeepsInv(ordered, inv, goal, allowed, start, steps[..n]);
      var s := Run(ordered, start, steps[..n]);
      if Enabled(ordered, s, steps[n]) {
        StepKeepsInv(ordered, inv, goal, allowed, s, steps[n]);
      }
    }
  }

  // ---------- Starting over unsynced changes, on a disk that keeps no order ----------

  ghost predicate NoStarts(steps: seq<Step>) {
    forall i :: 0 <= i < |steps| ==> !steps[i].Start?
  }

  lemma RunAppend(ordered: bool, start: Dir, steps: seq<Step>, step: Step)
    ensures var s := Run(ordered, start, steps);
      Run(ordered, start, steps + [step]) == if Enabled(ordered, s, step) then Do(s, step) else s
  {
    assert (steps + [step])[..|steps|] == steps;
  }

  /** Whatever becomes of the command, its directory and what a crash leaves of it have the property. */
  ghost predicate StaysSafe(inv: Dir -> bool, start: Dir, steps: seq<Step>, c: Command) {
    forall more: seq<Step> :: NoStarts(more) ==> DiskInv(false, inv, Run(false, start, steps + [Start(c)] + more).disk)
  }

  lemma {:induction false} SuitedStaysSafe(
    inv: Dir -> bool, goal: Dir -> bool, allowed: Command -> bool, start: Dir, steps: seq<Step>, c: Command, more: seq<Step>)
    requires Stable(inv, goal, allowed) && allowed(c) && RunInv(false, inv, goal, Run(false, start, steps))
    requires Enabled(false, Run(false, start, steps), Start(c)) && Suited(inv, Run(false, start, steps).disk, c) && NoStarts(more)
    ensures RunInv(false, inv, goal, Run(false, start, steps + [Start(c)] + more))
  {
    var from := steps + [Start(c)];
    if more == [] {
      assert from + more == from;
      RunAppend(false, start, steps, Start(c));
      StepKeepsInv(false, inv, goal, allowed, Run(false, start, steps), Start(c));
    } else {
      var n := |more| - 1;
      SuitedStaysSafe(inv, goal, allowed, start, steps, c, more[..n]);
      assert from + more == from + more[..n] + [more[n]];
      RunAppend(false, start, from + more[..n], more[n]);
      if Enabled(false, Run(false, start, from + more[..n]), more[n]) {
        StepKeepsInv(false, inv, goal, allowed, Run(false, start, from + more[..n]), more[n]);
      }
    }
  }

  /** A change made next, and the crash that keeps it and some of what was unsynced. */
  lemma ChangeIsSafe(inv: Dir -> bool, start: Dir, steps: seq<Step>, c: Change, kept: set<nat>)
    requires var s := Run(false, start, steps); s.proc.Running? && s.proc.todo != [] && s.proc.todo[0] == Make(c)
    requires DiskInv(false, inv, Run(false, start, steps + [Advance]).disk)
    ensures var disk := Run(false, start, steps).disk; inv(Apply(Recovered(disk.durable, disk.pending, kept), c))
  {
    var disk := Run(false, start, steps).disk;
    var all := (set i | i in kept && i < |disk.pending|) + {|disk.pending|};
    RunAppend(false, start, steps, Advance);
    RecoveredAfterMake(false, disk, c, all);
    SameKept(disk.durable, disk.pending, kept, all);
  }

  lemma StartedAndRefused(start: Dir, steps: seq<Step>, c: Command)
    requires Enabled(false, Run(false, start, steps), Start(c))
    requires var disk := Run(false, start, steps).disk; Plan(disk.Live(), c).value != [] && Plan(disk.Live(), c).value[0] == Make(Exchange)
    ensures var s, next := Run(false, start, steps), Run(false, start, steps + [Start(c)] + [RefuseExchange]);
      next.disk == s.disk && next.proc == Running(Durably(SetWord(FromOf(c))), FromOf(c), true)
  {
  }

  lemma SafeRefused(inv: Dir -> bool, start: Dir, steps: seq<Step>, c: Command)
    requires StaysSafe(inv, start, steps, c)
    ensures DiskInv(false, inv, Run(false, start, steps + [Start(c)] + [RefuseExchange] + [Advance]).disk)
  {
    assert DiskInv(false, inv, Run(false, start, steps + [Start(c)] + ([RefuseExchange] + [Advance])).disk);
    assert steps + [Start(c)] + ([RefuseExchange] + [Advance]) == steps + [Start(c)] + [RefuseExchange] + [Advance];
  }

  lemma SafeMayMake(inv: Dir -> bool, start: Dir, steps: seq<Step>, c: Command, kept: set<nat>, change: Change)
    requires Enabled(false, Run(false, start, steps), Start(c)) && StaysSafe(inv, start, steps, c)
    requires var disk := Run(false, start, steps).disk; Plan(disk.Live(), c).value != [] && Plan(disk.Live(), c).value[0] == Make(change)
    ensures var disk := Run(false, start, steps).disk; inv(Apply(Recovered(disk.durable, disk.pending, kept), change))
  {
    ChangeIsSafe(inv, start, steps + [Start(c)], change, kept);
  }

  lemma SafeMayBackOut(inv: Dir -> bool, start: Dir, steps: seq<Step>, c: Command, kept: set<nat>)
    requires Enabled(false, Run(false, start, steps), Start(c)) && StaysSafe(inv, start, steps, c)
    requires var disk := Run(false, start, steps).disk; Plan(disk.Live(), c).value != [] && Plan(disk.Live(), c).value[0] == Make(Exchange)
    ensures var disk := Run(false, start, steps).disk; inv(Recovered(disk.durable, disk.pending, kept).(word := FromOf(c)))
  {
    var disk := Run(false, start, steps).disk;
    StartedAndRefused(start, steps, c);
    SafeRefused(inv, start, steps, c);
    ChangeIsSafe(inv, start, steps + [Start(c)] + [RefuseExchange], SetWord(FromOf(c)), kept);
    assert Apply(Recovered(disk.durable, disk.pending, kept), SetWord(FromOf(c)))
      == Recovered(disk.durable, disk.pending, kept).(word := FromOf(c));
  }

  lemma {:induction false} SameKept(d: Dir, changes: seq<Change>, kept: set<nat>, all: set<nat>)
    requires forall i :: 0 <= i < |changes| ==> (i in kept <==> i in all)
    ensures Recovered(d, changes, kept) == Recovered(d, changes, all)
  {
    if changes != [] {
      SameKept(d, changes[..|changes| - 1], kept, all);
    }
  }

  /** Exactly when a command started over unsynced changes keeps the property, whatever is killed,
      refused or lost after it: when it may be started, by what a crash before it could leave. */
  lemma {:induction false} StartIsSafeIff(inv: Dir -> bool, goal: Dir -> bool, allowed: Command -> bool, start: Dir, steps: seq<Step>, c: Command)
    requires Stable(inv, goal, allowed) && inv(start) && AllowedOnly(steps, allowed) && allowed(c)
    requires Careful(false, inv, start, steps) && Enabled(false, Run(false, start, steps), Start(c))
    ensures StaysSafe(inv, start, steps, c) <==> Suited(inv, Run(false, start, steps).disk, c)
  {
    var disk := Run(false, start, steps).disk;
    RunKeepsInv(false, inv, goal, allowed, start, steps);
    if Suited(inv, disk, c) {
      forall more: seq<Step> | NoStarts(more)
        ensures DiskInv(false, inv, Run(false, start, steps + [Start(c)] + more).disk)
      {
        SuitedStaysSafe(inv, goal, allowed, start, steps, c, more);
      }
    }
    if StaysSafe(inv, start, steps, c) && Plan(disk.Live(), c).value != [] && Plan(disk.Live(), c).value[0].Make? {
      forall kept: set<nat>
        ensures MayFollow(inv, Recovered(disk.durable, disk.pending, kept), Plan(disk.Live(), c).value[0].change, FromOf(c))
      {
        SafeMayMake(inv, start, steps, c, kept, Plan(disk.Live(), c).value[0].change);
        if Plan(disk.Live(), c).value[0].change == Exchange {
          SafeMayBackOut(inv, start, steps, c, kept);
        }
      }
    }
  }
}
