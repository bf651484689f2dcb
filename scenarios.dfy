/** Concrete runs of the controller. */
module Scenarios {
  import Floors
  import Phases
  import opened Dispatch
  import opened Controller

  /** The board with only the flag of ordinal `i` set. */
  function OnlyKey(i: nat): (keys: seq<bool>)
    requires i < Floors.FloorCount
    ensures |keys| == Floors.FloorCount
    ensures forall j :: 0 <= j < |keys| ==> (keys[j] <==> j == i)
  {
    seq(Floors.FloorCount, j => j == i)
  }

  /** From power-on with only the top floor requested, the car opens and
      closes its doors, goes straight from Closing to Moving (the Checking
      phase is skipped because a direction is already known); the climb
      itself is `ClimbToTopFloor`. */
  lemma TripToTopFloor()
    ensures var s0 := SetKey(Init(), Floors.Floor8th, true).0;
            var s1 := Tick(s0);
            var s2 := Tick(s1);
            var s3 := Tick(s2);
            var s4 := Tick(s3);
            s0.keys == OnlyKey(7)
            && s1 == State(Floors.Floor1st, Phases.Opening, Up, OnlyKey(7))
            && s2 == s1.(phase := Phases.Waiting)
            && s3 == s1.(phase := Phases.Closing)
            && s4 == s1.(phase := Phases.Moving)
  {
  }

  /** Climbing with the request at the top: every tick below the top floor
      goes one floor up and stays in Moving; reaching the top chimes. */
  lemma ClimbToTopFloor(f: Floors.Floor)
    requires f != Floors.FloorMax && f != Floors.Floor8th
    ensures var t := Tick(State(f, Phases.Moving, Up, OnlyKey(7)));
            Floors.Index(t.floor) == Floors.Index(f) + 1
            && t.phase == (if t.floor == Floors.Floor8th then Phases.Chime else Phases.Moving)
            && t.direction == Up && t.keys == OnlyKey(7)
  {
  }

  /** Why the request ahead of a moving car needs a driver that never clears
      keys: clearing the only request ahead leaves the car in Moving, and at
      the top floor `Floors.Up` saturates, so every further tick changes
      nothing and the car never leaves Moving. */
  lemma ClearingAheadStrandsCar()
    ensures var s := State(Floors.Floor7th, Phases.Moving, Up, OnlyKey(7));
            var cleared := SetKey(s, Floors.Floor8th, false).0;
            var t := Tick(cleared);
            Inv(s) && Ahead(s)
            && t == State(Floors.Floor8th, Phases.Moving, Up, seq(Floors.FloorCount, _ => false))
            && Tick(t) == t
  {
  }
}
