/** The single car as the firmware keeps it: three fields it reassigns and a
    fixed board of eight request flags it writes in place. Every public
    method is proved to act on the car as the matching function of module
    Controller acts on a snapshot. */
module Lift {
  import Floors
  import Phases
  import opened Dispatch
  import opened Controller

  class Lift {
    var floorState: Floors.Floor
    var liftState: Phases.Phase
    var direction: Direction
    /** One flag per real floor, indexed by `Floors.Index`. */
    const floorKeys: array<bool>

    /** The car as a value, for stating what each method does. */
    ghost function Snapshot(): State
      reads this, floorKeys
    {
      State(floorState, liftState, direction, floorKeys[..])
    }

    /** The invariant every car built by the constructor keeps. */
    ghost predicate Valid()
      reads this, floorKeys
    {
      Inv(Snapshot())
    }

    /** The board has its eight flags and the current floor can index it. */
    ghost predicate Indexable()
      reads this, floorKeys
    {
      floorKeys.Length == Floors.FloorCount && floorState != Floors.FloorMax
    }

    constructor ()
      ensures Valid() && fresh(floorKeys)
      ensures Snapshot() == Init()
    {
      floorState := Floors.Floor1st;
      liftState := Phases.Arrived;
      direction := None;
      floorKeys := new bool[Floors.FloorCount](_ => false);
      new;
      assert floorKeys[..] == Init().keys;
    }

    /** The request board, one flag per real floor. */
    method Keys() returns (k: seq<bool>)
      requires Valid()
      ensures |k| == Floors.FloorCount
      ensures k == Snapshot().keys
    {
      k := floorKeys[..];
    }

    method SetFloorKey(floor: Floors.Floor, key: bool) returns (changed: bool)
      requires floorKeys.Length == Floors.FloorCount && floor != Floors.FloorMax
      modifies floorKeys
      ensures (Snapshot(), changed) == SetKey(old(Snapshot()), floor, key)
      ensures old(Valid()) ==> Valid()
    {
      if key && floorState == floor {
        return false;
      }
      var i := Floors.Index(floor);
      var prev := floorKeys[i];
      floorKeys[i] := key;
      changed := key != prev;
    }

    method HasCurrentByKey() returns (b: bool)
      requires Indexable()
      ensures b == floorKeys[Floors.Index(floorState)]
    {
      b := floorKeys[Floors.Index(floorState)];
    }

    method HasUpperByKey() returns (b: bool)
      requires Indexable()
      ensures b == HasAbove(floorKeys[..], Floors.Index(floorState))
    {
      var cur := Floors.Index(floorState);
      var f := 0;
      while f < floorKeys.Length
        invariant 0 <= f <= floorKeys.Length
        invariant forall j :: 0 <= j < f ==> !(floorKeys[j] && cur < j)
      {
        if floorKeys[f] && cur < f {
          assert floorKeys[..][f];
          return true;
        }
        f := f + 1;
      }
      return false;
    }

    method HasLowerByKey() returns (b: bool)
      requires Indexable()
      ensures b == HasBelow(floorKeys[..], Floors.Index(floorState))
    {
      var cur := Floors.Index(floorState);
      var f := 0;
      while f < floorKeys.Length
        invariant 0 <= f <= floorKeys.Length
        invariant forall j :: 0 <= j < f ==> !(floorKeys[j] && cur > j)
      {
        if floorKeys[f] && cur > f {
          assert floorKeys[..][f];
          return true;
        }
        f := f + 1;
      }
      return false;
    }

    method UpdateDirection()
      requires Indexable()
      modifies this`direction
      ensures direction == Resolve(old(direction), Floors.Index(floorState), floorKeys[..])
    {
      match direction
      case Up =>
        var upper := HasUpperByKey();
        if !upper {
          var lower := HasLowerByKey();
          if lower {
            direction := Down;
          } else {
            direction := None;
          }
        }
      case Down =>
        var lower := HasLowerByKey();
        if !lower {
          var upper := HasUpperByKey();
          if upper {
            direction := Up;
          } else {
            direction := None;
          }
        }
      case None =>
        var upper := HasUpperByKey();
        if upper {
          direction := Up;
        } else {
          var lower := HasLowerByKey();
          if lower {
            direction := Down;
          }
        }
    }

    /** Advances the car by one tick. */
    method Next()
      requires Valid()
      modifies this, floorKeys
      ensures Snapshot() == Tick(old(Snapshot()))
      ensures Valid()
    {
      var isNext: bool;
      match liftState {
        case Chime => isNext := true;
        case Arrived => isNext := LiftArrived();
        case Opening => isNext := true;
        case Waiting => isNext := true;
        case Closing => isNext := LiftClosing();
        case Checking => isNext := LiftChecking();
        case Checked => isNext := false;
        case Moving => isNext := LiftMoving();
      }
      if isNext {
        liftState := Phases.Next(liftState);
      }
    }

    method LiftArrived() returns (advance: bool)
      requires Indexable()
      modifies this`direction, floorKeys
      ensures advance
      ensures floorKeys[..] == old(floorKeys[..])[Floors.Index(floorState) := false]
      ensures direction == Resolve(old(direction), Floors.Index(floorState), floorKeys[..])
    {
      var _ := SetFloorKey(floorState, false);
      UpdateDirection();
      advance := true;
    }

    /** Re-evaluates the direction and, when there is one, already moves the
        phase on to Checking; the caller then advances once more. */
    method LiftClosing() returns (advance: bool)
      requires Indexable() && liftState == Phases.Closing
      modifies this`direction, this`liftState
      ensures advance
      ensures direction == Resolve(old(direction), Floors.Index(floorState), floorKeys[..])
      ensures liftState == if direction != None then Phases.Checking else Phases.Closing
    {
      UpdateDirection();
      if direction != None {
        liftState := Phases.Next(liftState);
      }
      advance := true;
    }

    method LiftChecking() returns (advance: bool)
      requires Indexable()
      modifies this`direction
      ensures direction == Resolve(old(direction), Floors.Index(floorState), floorKeys[..])
      ensures advance <==> direction != None
    {
      UpdateDirection();
      advance := direction != None;
    }

    method LiftMoving() returns (advance: bool)
      requires Indexable() && direction != None
      modifies this`floorState
      ensures floorState == Travel(old(floorState), direction)
      ensures advance == floorKeys[Floors.Index(floorState)]
    {
      MoveFloor();
      advance := HasCurrentByKey();
    }

    /** One floor in the current direction; moving without a direction is a
        fatal defect in the firmware and is excluded by the precondition. */
    method MoveFloor()
      requires Indexable() && direction != None
      modifies this`floorState
      ensures floorState == Travel(old(floorState), direction)
      ensures floorState != Floors.FloorMax
    {
      match direction
      case Up => floorState := Floors.Up(floorState);
      case Down => floorState := Floors.Down(floorState);
    }

    /** Reopens a closing door; in every other phase nothing happens. */
    method Open()
      requires Valid()
      modifies this`liftState
      ensures Snapshot() == OpenDoors(old(Snapshot()))
      ensures Valid()
    {
      liftState := Phases.Open(liftState);
    }

    /** Starts closing an opening or open door; in every other phase nothing
        happens. */
    method Close()
      requires Valid()
      modifies this`liftState
      ensures Snapshot() == CloseDoors(old(Snapshot()))
      ensures Valid()
    {
      liftState := Phases.Close(liftState);
    }
  }
}
