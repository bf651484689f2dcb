/** The floors of the building: eight real floors in order plus the `FloorMax`
    sentinel, which the firmware uses as "no floor yet" and as the size of the
    request board. */
module Floors {

  datatype Floor =
    | Floor1st | Floor2nd | Floor3rd | Floor4th
    | Floor5th | Floor6th | Floor7th | Floor8th
    | FloorMax

  /** Number of real floors, which is also the number of request flags. */
  const FloorCount: nat := 8

  /** The ordinal of a floor: Floor1st is 0, Floor8th is 7, the sentinel is 8.
      Request flags are indexed by this ordinal. */
  function Index(f: Floor): (i: nat)
    ensures i <= FloorCount
    ensures i == FloorCount <==> f == FloorMax
  {
    match f
    case Floor1st => 0
    case Floor2nd => 1
    case Floor3rd => 2
    case Floor4th => 3
    case Floor5th => 4
    case Floor6th => 5
    case Floor7th => 6
    case Floor8th => 7
    case FloorMax => 8
  }

  /** One floor up; the top floor and the sentinel stay where they are. */
  function Up(f: Floor): (r: Floor)
    ensures Index(f) < FloorCount - 1 ==> Index(r) == Index(f) + 1
    ensures Index(f) >= FloorCount - 1 ==> r == f
  {
    match f
    case Floor1st => Floor2nd
    case Floor2nd => Floor3rd
    case Floor3rd => Floor4th
    case Floor4th => Floor5th
    case Floor5th => Floor6th
    case Floor6th => Floor7th
    case Floor7th => Floor8th
    case _ => f
  }

  /** One floor down; the bottom floor and the sentinel stay where they are. */
  function Down(f: Floor): (r: Floor)
    ensures 0 < Index(f) < FloorCount ==> Index(r) == Index(f) - 1
    ensures Index(f) == 0 || f == FloorMax ==> r == f
  {
    match f
    case Floor2nd => Floor1st
    case Floor3rd => Floor2nd
    case Floor4th => Floor3rd
    case Floor5th => Floor4th
    case Floor6th => Floor5th
    case Floor7th => Floor6th
    case Floor8th => Floor7th
    case _ => f
  }

  /** Going up and coming back down returns to the start, below the top floor. */
  lemma DownAfterUp(f: Floor)
    requires Index(f) < FloorCount - 1
    ensures Down(Up(f)) == f
  {
  }

  /** Going down and coming back up returns to the start, above the bottom floor. */
  lemma UpAfterDown(f: Floor)
    requires 0 < Index(f) < FloorCount
    ensures Up(Down(f)) == f
  {
  }
}
