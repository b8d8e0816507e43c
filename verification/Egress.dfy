/** The egress proxy's places (internal/cimdegress/cimdegress.go): many connections at once, each
    taking one of four places at most, and giving it back on every way out. */
module Egress {

  const TUNNELS: nat := 4

  type Conn = nat

  /** Where a connection stands in Serve. Opening: its request is being read. Connecting: it holds
      a place while its host is resolved and dialed. Piping: it holds one while bytes pass. */
  datatype Stage = Opening | Connecting | Piping | Over

  /** places: the filled places of the channel. taken, given: how often each connection took one,
      and gave one back. */
  datatype Sys = Sys(places: nat, stages: map<Conn, Stage>, taken: map<Conn, nat>, given: map<Conn, nat>)

  const INIT: Sys := Sys(0, map[], map[], map[])

  datatype Step =
    | Accept(c: Conn)
    | Refuse(c: Conn)
    | Enter(c: Conn)
    | FailConnect(c: Conn)
    | Connected(c: Conn)
    | Finish(c: Conn)

  predicate At(s: Sys, c: Conn, stage: Stage) {
    c in s.stages && s.stages[c] == stage
  }

  function Give(s: Sys, c: Conn): Sys
    requires c in s.stages && c in s.given
  {
    s.(places := if s.places > 0 then s.places - 1 else 0, stages := s.stages[c := Over], given := s.given[c := s.given[c] + 1])
  }

  /** Enter is the one non-blocking send; full, it refuses as busy. A step out of its stage does nothing. */
  function Do(s: Sys, step: Step): Sys {
    match step
    case Accept(c) => if c in s.stages then s else Sys(s.places, s.stages[c := Opening], s.taken[c := 0], s.given[c := 0])
    case Refuse(c) => if At(s, c, Opening) then s.(stages := s.stages[c := Over]) else s
    case Enter(c) =>
      if !At(s, c, Opening) || c !in s.taken then s
      else if s.places >= TUNNELS then s.(stages := s.stages[c := Over])
      else s.(places := s.places + 1, stages := s.stages[c := Connecting], taken := s.taken[c := s.taken[c] + 1])
    case FailConnect(c) => if At(s, c, Connecting) && c in s.given then Give(s, c) else s
    case Connected(c) => if At(s, c, Connecting) then s.(stages := s.stages[c := Piping]) else s
    case Finish(c) => if At(s, c, Piping) && c in s.given then Give(s, c) else s
  }

  function Run(steps: seq<Step>): Sys {
    if steps == [] then INIT else Do(Run(steps[..|steps| - 1]), steps[|steps| - 1])
  }

  function Holders(stages: map<Conn, Stage>): set<Conn> {
    set c | c in stages && (stages[c] == Connecting || stages[c] == Piping)
  }

  /** What one connection has taken and given back, by its stage. */
  predicate Settled(stage: Stage, taken: nat, given: nat) {
    match stage
    case Opening => taken == given == 0
    case Over => taken == given <= 1
    case _ => taken == 1 && given == 0
  }

  ghost predicate Inv(s: Sys) {
    && s.places == |Holders(s.stages)| <= TUNNELS
    && s.taken.Keys == s.given.Keys == s.stages.Keys
    && forall c :: c in s.stages ==> Settled(s.stages[c], s.taken[c], s.given[c])
  }

  lemma HoldersAfter(stages: map<Conn, Stage>, c: Conn, stage: Stage)
    ensures |Holders(stages[c := stage])| ==
      |Holders(stages)| - (if c in Holders(stages) then 1 else 0) + (if stage == Connecting || stage == Piping then 1 else 0)
  {
    assert Holders(stages[c := stage]) == Holders(stages) - {c} + (if stage == Connecting || stage == Piping then {c} else {});
  }

  lemma StepKeepsInv(s: Sys, step: Step)
    requires Inv(s)
    ensures Inv(Do(s, step))
  {
    var c := step.c;
    match step
    case Accept(_) => HoldersAfter(s.stages, c, Opening);
    case Refuse(_) => HoldersAfter(s.stages, c, Over);
    case Enter(_) =>
      HoldersAfter(s.stages, c, Connecting);
      HoldersAfter(s.stages, c, Over);
    case Connected(_) => HoldersAfter(s.stages, c, Piping);
    case _ => HoldersAfter(s.stages, c, Over);
  }

  /** Over every interleaving: the places filled are the connections between their taking and their
      giving back, four at most; nobody takes twice; and whoever is over has given back what it took. */
  lemma {:induction false} PlacesAreGivenBack(steps: seq<Step>)
    ensures var s := Run(steps);
      && Inv(s)
      && forall c :: c in s.stages && s.stages[c] == Over ==> s.given[c] == s.taken[c] <= 1
  {
    if steps != [] {
      PlacesAreGivenBack(steps[..|steps| - 1]);
      StepKeepsInv(Run(steps[..|steps| - 1]), steps[|steps| - 1]);
    }
  }

  /** A connection gets a place exactly if fewer than four are held when it asks, whatever came before;
      otherwise it is over, and has taken none. */
  lemma {:induction false} EntersIff(steps: seq<Step>, c: Conn)
    requires At(Run(steps), c, Opening)
    ensures var s := Run(steps + [Enter(c)]);
      && c in s.stages && c in s.taken
      && (s.stages[c] == Connecting <==> |Holders(Run(steps).stages)| < 4)
      && (s.stages[c] != Connecting ==> s.stages[c] == Over && s.taken[c] == 0)
      && s.places == |Holders(s.stages)| <= 4
  {
    assert (steps + [Enter(c)])[..|steps|] == steps;
    PlacesAreGivenBack(steps);
    PlacesAreGivenBack(steps + [Enter(c)]);
  }
}
