/** The sealed directory (internal/membership/sealdir.go): two envelopes and a state word, what
    each command does to them, file operation by file operation, and what a crash leaves. */
module SealedDir {
  import opened Wrappers

  /** Two seals of one secret are two envelopes. A fingerprint is modelled by the envelope it names. */
  datatype Envelope = Envelope(secret: string, nonce: nat)

  datatype Swap = Promoting | Unpromoting {
    function From(): Word {
      if Promoting? then Next else Promoted
    }

    function To(): Word {
      if Promoting? then Promoted else Next
    }
  }

  /** The state file. NoWord: there is none. Blank: it is empty. Unknown: no word of ours. */
  datatype Word = NoWord | Steady | Next | Promoted | Intent(swap: Swap, makesCurrent: Envelope) | Blank | Unknown

  datatype Dir = Dir(current: Option<Envelope>, other: Option<Envelope>, word: Word)

  datatype Refusal = Disagree | OutOfTurn | BadInput | SameSecret | MissingFile | OneEnvelope | IntentMismatch | Broken

  function State(d: Dir): Result<Word, Refusal> {
    match d.word
    case NoWord => if d.current.Some? || d.other.Some? then Failure(Disagree) else Success(NoWord)
    case Steady => if d.current.None? || d.other.Some? then Failure(Disagree) else Success(Steady)
    case Next => if d.current.None? || d.other.None? then Failure(Disagree) else Success(Next)
    case Promoted => if d.current.None? || d.other.None? then Failure(Disagree) else Success(Promoted)
    case _ => Failure(Disagree)
  }

  // ---------- File operations ----------

  datatype Change = SetCurrent(e: Envelope) | SetOther(e: Envelope) | SetWord(w: Word) | RemoveCurrent | RemoveOther | RemoveWord | Exchange

  function Apply(d: Dir, c: Change): Dir {
    match c
    case SetCurrent(e) => d.(current := Some(e))
    case SetOther(e) => d.(other := Some(e))
    case SetWord(w) => d.(word := w)
    case RemoveCurrent => d.(current := None)
    case RemoveOther => d.(other := None)
    case RemoveWord => d.(word := NoWord)
    case Exchange => d.(current := d.other, other := d.current)
  }

  datatype Action = Make(change: Change) | Sync

  /** A file written whole or not at all: renamed into place, then the directory synced. */
  function Durably(c: Change): seq<Action> {
    [Make(c), Sync]
  }

  /** The changes made since the last sync, on top of what a crash is sure to leave. */
  datatype Disk = Disk(durable: Dir, pending: seq<Change>) {
    function Live(): Dir {
      ApplyAll(durable, pending)
    }

    function Do(a: Action): Disk {
      match a
      case Make(c) => this.(pending := pending + [c])
      case Sync => Disk(Live(), [])
    }
  }

  function ApplyAll(d: Dir, changes: seq<Change>): Dir {
    if changes == [] then d else Apply(ApplyAll(d, changes[..|changes| - 1]), changes[|changes| - 1])
  }

  /** What a crash leaves when it keeps the unsynced changes at the places in `kept`. */
  function Recovered(d: Dir, changes: seq<Change>, kept: set<nat>): Dir {
    if changes == [] then d
    else
      var n := |changes| - 1;
      var before := Recovered(d, changes[..n], kept);
      if n in kept then Apply(before, changes[n]) else before
  }

  // ---------- The commands ----------

  /** What seal reads: nothing it can use (a terminal, no bytes, a wrong shape, no key), or a
      secret and the nonce its envelope will carry. */
  datatype Input = Unusable | Piped(secret: string, nonce: nat)

  datatype Command = SealCurrent(input: Input) | SealOther(input: Input) | SwapFiles(swap: Swap) | Drop | Reset

  /** The one disagreement a crash leaves inside a step that changes a file and then the word. */
  function HalfDone(d: Dir, before: set<Word>, current: bool, other: bool): Option<Word> {
    if d.word == Blank || d.current.Some? != current || d.other.Some? != other then None
    else if d.word in before then Some(d.word)
    else None
  }

  function SwapIntent(d: Dir, swap: Swap): Option<Envelope> {
    if d.current.None? || d.other.None? then None
    else if d.word.Intent? && d.word.swap == swap then Some(d.word.makesCurrent)
    else None
  }

  /** The file operations of a command started on a directory, or why it refuses. */
  function Plan(d: Dir, command: Command): Result<seq<Action>, Refusal> {
    match command
    case SealCurrent(input) => PlanSealCurrent(d, input)
    case SealOther(input) => PlanSealOther(d, input)
    case SwapFiles(swap) => PlanSwap(d, swap)
    case Drop => PlanDrop(d)
    case Reset => Success(PlanReset(d))
  }

  function PlanSealCurrent(d: Dir, input: Input): Result<seq<Action>, Refusal> {
    var state := State(d);
    if state.Failure? then Failure(state.error)
    else if state.value != NoWord then Failure(OutOfTurn)
    else if input.Unusable? then Failure(BadInput)
    else Success(Durably(SetCurrent(Envelope(input.secret, input.nonce))) + Durably(SetWord(Steady)))
  }

  function PlanSealOther(d: Dir, input: Input): Result<seq<Action>, Refusal> {
    var state := State(d);
    var replacing := HalfDone(d, {Steady}, true, true);
    if state.Failure? && replacing.None? then Failure(state.error)
    else if state.Success? && state.value != Steady then Failure(OutOfTurn)
    else if input.Unusable? then Failure(BadInput)
    else if d.current.None? then Failure(MissingFile)
    else if d.current.value.secret == input.secret then Failure(SameSecret)
    else Success(Durably(SetOther(Envelope(input.secret, input.nonce))) + Durably(SetWord(Next)))
  }

  function PlanSwap(d: Dir, swap: Swap): Result<seq<Action>, Refusal> {
    var state := State(d);
    var intent := SwapIntent(d, swap);
    if state.Failure? && intent.None? then Failure(state.error)
    else if state.Success? && state.value != swap.From() then Failure(OutOfTurn)
    else if d.current.None? || d.other.None? then Failure(MissingFile)
    else if d.current == d.other then Failure(OneEnvelope)
    else if state.Success? then
      Success(Durably(SetWord(Intent(swap, d.other.value))) + Durably(Exchange) + Durably(SetWord(swap.To())))
    else if intent == d.current then Success(Durably(SetWord(swap.To())))
    else if intent == d.other then Success(Durably(Exchange) + Durably(SetWord(swap.To())))
    else Failure(IntentMismatch)
  }

  function PlanDrop(d: Dir): Result<seq<Action>, Refusal> {
    var state := State(d);
    var finishing := HalfDone(d, {Next, Promoted}, true, false);
    if state.Failure? && finishing.None? then Failure(state.error)
    else if state.Success? && state.value != Next && state.value != Promoted then Failure(OutOfTurn)
    else Success((if state.Success? then Durably(RemoveOther) else []) + Durably(SetWord(Steady)))
  }

  function PlanReset(d: Dir): seq<Action> {
    (if d.word == NoWord then [] else Durably(RemoveWord))
      + (if d.other.None? then [] else Durably(RemoveOther))
      + (if d.current.None? then [] else Durably(RemoveCurrent))
      + [Sync]
  }

  function Effect(d: Dir, actions: seq<Action>): Dir
    decreases |actions|
  {
    if actions == [] then d
    else Effect(if actions[0].Make? then Apply(d, actions[0].change) else d, actions[1..])
  }
}
