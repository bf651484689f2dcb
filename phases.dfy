/** The car's operational phase (the firmware's `LiftState`) and its three
    fixed transition tables. */
module Phases {

  datatype Phase =
    | Chime | Arrived | Opening | Waiting | Closing | Checking
    | Checked  // reserved: no transition of the controller enters it
    | Moving

  /** Position of a phase on the seven-phase cycle
      Chime, Arrived, Opening, Waiting, Closing, Checking, Moving. */
  function CyclePosition(p: Phase): (n: nat)
    requires p != Checked
    ensures n < 7
  {
    match p
    case Chime => 0
    case Arrived => 1
    case Opening => 2
    case Waiting => 3
    case Closing => 4
    case Checking => 5
    case Moving => 6
  }

  /** The phase after `p` on the cycle; `Checked` is its own successor. */
  function Next(p: Phase): (r: Phase)
    ensures r == p <==> p == Checked
    ensures p != Checked ==> r != Checked && CyclePosition(r) == (CyclePosition(p) + 1) % 7
  {
    match p
    case Chime => Arrived
    case Arrived => Opening
    case Opening => Waiting
    case Waiting => Closing
    case Closing => Checking
    case Checking => Moving
    case Moving => Chime
    case _ => p
  }

  /** The door-open override: only a closing door reopens. */
  function Open(p: Phase): (r: Phase)
    ensures r != p <==> p == Closing
    ensures p == Closing ==> r == Opening
  {
    match p
    case Closing => Opening
    case _ => p
  }

  /** The door-close override: only an opening or open door starts closing. */
  function Close(p: Phase): (r: Phase)
    ensures r != p <==> p == Opening || p == Waiting
    ensures p == Opening || p == Waiting ==> r == Closing
  {
    match p
    case Opening => Closing
    case Waiting => Closing
    case _ => p
  }

  /** Seven steps of `Next` bring every cycle phase back to itself. */
  lemma NextCycles(p: Phase)
    requires p != Checked
    ensures Next(Next(Next(Next(Next(Next(Next(p))))))) == p
  {
  }
}
