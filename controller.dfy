/** The controller's behaviour stated on values: a snapshot of one car, the
    effect of each of its four operations on a snapshot, runs of operations
    from power-on, and the invariants those runs keep. The `Lift` class is
    proved to act on its fields exactly as these functions do. */
module Controller {
  import Floors
  import Phases
  import opened Dispatch

  /** What the car's four read accessors expose at one moment. */
  datatype State = State(floor: Floors.Floor, phase: Phases.Phase, direction: Direction, keys: seq<bool>)

  /** Ordinal of the car's current floor, the index of its request flag. */
  function Cur(s: State): nat
  {
    Floors.Index(s.floor)
  }

  /** The car at power-on: bottom floor, just arrived, at rest, no requests. */
  function Init(): (s: State)
    ensures s.floor == Floors.Floor1st && s.phase == Phases.Arrived && s.direction == None
    ensures |s.keys| == Floors.FloorCount && forall i :: 0 <= i < |s.keys| ==> !s.keys[i]
  {
    State(Floors.Floor1st, Phases.Arrived, None, seq(Floors.FloorCount, _ => false))
  }

  /** What the controller needs of a snapshot to run without a panic: a full
      board, a real floor to index it with, and a direction whenever moving. */
  predicate Safe(s: State)
  {
    |s.keys| == Floors.FloorCount && s.floor != Floors.FloorMax
    && (s.phase == Phases.Moving ==> s.direction != None)
  }

  /** Phases in which the car stands at, or has just passed, an already
      served floor. */
  predicate AfterArrival(p: Phases.Phase)
  {
    p == Phases.Opening || p == Phases.Waiting || p == Phases.Closing
    || p == Phases.Checking || p == Phases.Moving
  }

  /** The invariant of every snapshot reachable from power-on: safe, never in
      the reserved phase, and no pending request at the current floor once it
      has been served. */
  predicate Inv(s: State)
  {
    Safe(s) && s.phase != Phases.Checked
    && (AfterArrival(s.phase) ==> !s.keys[Cur(s)])
  }

  /** One floor in direction `d`; at the top going up, or at the bottom going
      down, the floor stays the same. */
  function Travel(f: Floors.Floor, d: Direction): (r: Floors.Floor)
    requires d != None
    ensures f != Floors.FloorMax ==> r != Floors.FloorMax
    ensures d == Up && Floors.Index(f) < Floors.FloorCount - 1 ==> Floors.Index(r) == Floors.Index(f) + 1
    ensures d == Down && 0 < Floors.Index(f) < Floors.FloorCount ==> Floors.Index(r) == Floors.Index(f) - 1
    // at the end of the shaft in the direction of travel the car stays put
    ensures d == Up && Floors.Index(f) >= Floors.FloorCount - 1 ==> r == f
    ensures d == Down && (Floors.Index(f) == 0 || f == Floors.FloorMax) ==> r == f
  {
    if d == Up then Floors.Up(f) else Floors.Down(f)
  }

  /** Writing the request flag of `f`; the flag of the floor the car stands at
      cannot be set. The second component says whether anything changed. */
  function SetKey(s: State, f: Floors.Floor, key: bool): (r: (State, bool))
    requires |s.keys| == Floors.FloorCount && f != Floors.FloorMax
    ensures r.0.floor == s.floor && r.0.phase == s.phase && r.0.direction == s.direction
    ensures |r.0.keys| == |s.keys|
    ensures forall j :: 0 <= j < |s.keys| && j != Floors.Index(f) ==> r.0.keys[j] == s.keys[j]
    ensures key && f == s.floor ==> r.0 == s
    ensures !(key && f == s.floor) ==> r.0.keys[Floors.Index(f)] == key
    ensures r.1 <==> r.0 != s
    ensures Safe(s) ==> Safe(r.0)
    ensures Inv(s) ==> Inv(r.0)
  {
    if key && f == s.floor then (s, false)
    else
      var i := Floors.Index(f);
      var prev := s.keys[i];
      var t := s.(keys := s.keys[i := key]);
      assert t == s <==> key == prev by {
        if key == prev { assert t.keys == s.keys; }
        else { assert t.keys[i] != s.keys[i]; }
      }
      (t, key != prev)
  }

  /** The door-open override. */
  function OpenDoors(s: State): (t: State)
    ensures t.floor == s.floor && t.direction == s.direction && t.keys == s.keys
    ensures t != s <==> s.phase == Phases.Closing
    ensures s.phase == Phases.Closing ==> t.phase == Phases.Opening
    ensures Safe(s) ==> Safe(t)
    ensures Inv(s) ==> Inv(t)
  {
    s.(phase := Phases.Open(s.phase))
  }

  /** The door-close override. */
  function CloseDoors(s: State): (t: State)
    ensures t.floor == s.floor && t.direction == s.direction && t.keys == s.keys
    ensures t != s <==> s.phase == Phases.Opening || s.phase == Phases.Waiting
    ensures s.phase == Phases.Opening || s.phase == Phases.Waiting ==> t.phase == Phases.Closing
    ensures Safe(s) ==> Safe(t)
    ensures Inv(s) ==> Inv(t)
  {
    s.(phase := Phases.Close(s.phase))
  }

  /** The net effect of one tick. Closing and Checking behave alike: with a
      direction the car starts moving at once, without one it waits in
      Checking. */
  function Tick(s: State): (t: State)
    requires Safe(s)
    ensures Safe(t)
    ensures Inv(s) ==> Inv(t)
    // the three unconditional phases change nothing but the phase
    ensures s.phase == Phases.Chime || s.phase == Phases.Opening || s.phase == Phases.Waiting
            ==> t == s.(phase := Phases.Next(s.phase))
    // Arrived serves the current floor and re-evaluates the direction
    ensures s.phase == Phases.Arrived ==>
              t.phase == Phases.Opening && t.floor == s.floor && !t.keys[Cur(s)]
              && (forall j :: 0 <= j < |s.keys| && j != Cur(s) ==> t.keys[j] == s.keys[j])
              && t.direction == Resolve(s.direction, Cur(s), s.keys)
    // Closing and Checking re-evaluate the direction and leave only with one
    ensures s.phase == Phases.Closing || s.phase == Phases.Checking ==>
              t.floor == s.floor && t.keys == s.keys
              && t.direction == Resolve(s.direction, Cur(s), s.keys)
              && (t.phase == Phases.Moving <==> t.direction != None)
              && (t.phase == Phases.Checking <==> t.direction == None)
    // Moving steps one floor and stops exactly where a request is pending
    ensures s.phase == Phases.Moving ==>
              t.keys == s.keys && t.direction == s.direction
              && t.floor == Travel(s.floor, s.direction)
              && (t.phase == Phases.Chime <==> t.keys[Cur(t)])
              && (t.phase != Phases.Chime ==> t.phase == Phases.Moving)
    ensures s.phase == Phases.Checked ==> t == s
  {
    var cur := Cur(s);
    match s.phase
    case Chime => s.(phase := Phases.Arrived)
    case Arrived =>
      var keys := s.keys[cur := false];
      ResolveIgnoresCurrent(s.direction, cur, s.keys, false);
      s.(phase := Phases.Opening, direction := Resolve(s.direction, cur, keys), keys := keys)
    case Opening => s.(phase := Phases.Waiting)
    case Waiting => s.(phase := Phases.Closing)
    case Closing =>
      var d := Resolve(s.direction, cur, s.keys);
      s.(direction := d, phase := if d != None then Phases.Moving else Phases.Checking)
    case Checking =>
      var d := Resolve(s.direction, cur, s.keys);
      s.(direction := d, phase := if d != None then Phases.Moving else Phases.Checking)
    case Checked => s
    case Moving =>
      var f := Travel(s.floor, s.direction);
      s.(floor := f, phase := if s.keys[Floors.Index(f)] then Phases.Chime else Phases.Moving)
  }

  /** One call a driver can make between or as ticks. */
  datatype Command = Advance | Key(floor: Floors.Floor, pressed: bool) | DoorOpen | DoorClose

  /** A command the controller accepts: a key names a real floor. */
  predicate Admissible(c: Command)
  {
    c.Key? ==> c.floor != Floors.FloorMax
  }

  predicate AllAdmissible(cmds: seq<Command>)
  {
    forall i :: 0 <= i < |cmds| ==> Admissible(cmds[i])
  }

  /** A driver that only ever presses keys, never clears them. */
  predicate PressesOnly(cmds: seq<Command>)
  {
    AllAdmissible(cmds) && forall i :: 0 <= i < |cmds| ==> (cmds[i].Key? ==> cmds[i].pressed)
  }

  function Apply(s: State, c: Command): (t: State)
    requires Safe(s) && Admissible(c)
    ensures Safe(t)
    ensures Inv(s) ==> Inv(t)
  {
    match c
    case Advance => Tick(s)
    case Key(f, pressed) => SetKey(s, f, pressed).0
    case DoorOpen => OpenDoors(s)
    case DoorClose => CloseDoors(s)
  }

  /** The snapshot after carrying out `cmds` in order. */
  function Run(s: State, cmds: seq<Command>): (t: State)
    requires Safe(s) && AllAdmissible(cmds)
    ensures Safe(t)
    ensures Inv(s) ==> Inv(t)
    decreases |cmds|
  {
    if cmds == [] then s
    else
      assert Admissible(cmds[0]);
      Run(Apply(s, cmds[0]), cmds[1..])
  }

  /** From power-on, whatever the driver does, the car never stands at the
      sentinel floor, never enters the reserved phase and never moves without
      a direction. */
  lemma FromPowerOn(cmds: seq<Command>)
    requires AllAdmissible(cmds)
    ensures var s := Run(Init(), cmds);
            s.floor != Floors.FloorMax && s.phase != Phases.Checked
            && (s.phase == Phases.Moving ==> s.direction != None)
            && (AfterArrival(s.phase) ==> !s.keys[Cur(s)])
  {
  }

  /** While moving, a request lies strictly ahead in the direction of travel. */
  predicate Ahead(s: State)
  {
    s.phase == Phases.Moving ==>
      (s.direction == Up && HasAbove(s.keys, Cur(s)))
      || (s.direction == Down && HasBelow(s.keys, Cur(s)))
  }

  /** A moving car with a request ahead really changes floor: it is never at
      the end of the shaft in its direction of travel. */
  lemma MovingNeverSaturates(s: State)
    requires Inv(s) && Ahead(s) && s.phase == Phases.Moving
    ensures s.direction == Up ==> Floors.Index(Tick(s).floor) == Cur(s) + 1
    ensures s.direction == Down ==> Floors.Index(Tick(s).floor) + 1 == Cur(s)
  {
  }

  lemma TickKeepsAhead(s: State)
    requires Inv(s) && Ahead(s)
    ensures Ahead(Tick(s))
  {
  }

  lemma ApplyKeepsAhead(s: State, c: Command)
    requires Inv(s) && Ahead(s) && Admissible(c) && (c.Key? ==> c.pressed)
    ensures Ahead(Apply(s, c))
  {
    match c
    case Advance => TickKeepsAhead(s);
    case Key(f, _) => PressKeepsRequests(s.keys, Cur(s), Floors.Index(f));
    case DoorOpen =>
    case DoorClose =>
  }

  /** Pressing keys, ticking and the door overrides keep a request ahead of a
      moving car. */
  lemma {:induction false} RunKeepsAhead(s: State, cmds: seq<Command>)
    requires Inv(s) && Ahead(s) && PressesOnly(cmds)
    ensures Ahead(Run(s, cmds))
    decreases |cmds|
  {
    if cmds != [] {
      assert Admissible(cmds[0]) && (cmds[0].Key? ==> cmds[0].pressed);
      ApplyKeepsAhead(s, cmds[0]);
      assert PressesOnly(cmds[1..]) by {
        forall i | 0 <= i < |cmds[1..]|
          ensures Admissible(cmds[1..][i]) && (cmds[1..][i].Key? ==> cmds[1..][i].pressed)
        {
          assert cmds[1..][i] == cmds[i + 1];
        }
      }
      RunKeepsAhead(Apply(s, cmds[0]), cmds[1..]);
    }
  }

  /** For a driver that only presses keys, as the firmware's button loop does,
      every tick in Moving from power-on goes one floor in its direction. */
  lemma FromPowerOnPressesOnly(cmds: seq<Command>)
    requires PressesOnly(cmds)
    ensures var s := Run(Init(), cmds);
            Ahead(s)
            && (s.phase == Phases.Moving && s.direction == Up ==> Floors.Index(Tick(s).floor) == Cur(s) + 1)
            && (s.phase == Phases.Moving && s.direction == Down ==> Floors.Index(Tick(s).floor) + 1 == Cur(s))
  {
    RunKeepsAhead(Init(), cmds);
    var s := Run(Init(), cmds);
    if s.phase == Phases.Moving {
      MovingNeverSaturates(s);
    }
  }
}
