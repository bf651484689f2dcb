# pico-toy-elevator: the lift controller, verified

A Dafny model of the single-car elevator controller of the pico-toy-elevator
firmware (`firmware/pico-toy-elevator/src/lift.rs`). The controller
keeps the car's floor (eight real floors plus the `FloorMax` sentinel), its
operational phase (Chime, Arrived, Opening, Waiting, Closing, Checking, the
reserved Checked, Moving), its travel direction (Up, Down, None) and a board
of eight request flags. A driver calls `next` once per tick, and between ticks
it calls `set_floor_key`, `open` and `close`.

Modules, leaves first:

- `Floors` (floors.dfy): the floor enumeration, its ordinal `Index` (the
  request-board index, with the sentinel at 8), and the saturating `Up`/`Down`.
- `Phases` (phases.dfy): the phase enumeration and the pure tables `Next`,
  `Open` and `Close`.
- `Dispatch` (dispatch.dfy): the direction and the scan policy `Resolve`,
  stated over the board as a sequence of flags.
- `Controller` (controller.dfy): the car as a value (`State`), the net effect
  of each operation on it (`Tick`, `SetKey`, `OpenDoors`, `CloseDoors`), runs
  of commands from power-on, and the invariants those runs keep.
- `Lift` (lift.dfy): class `Lift`, method by method as in the firmware. It
  has three fields it reassigns and an `array<bool>` board written in place.
  Early-return scan loops implement `has_upper_by_key`/`has_lower_by_key`, and
  `next` dispatches to helpers that reassign the phase themselves. Each public
  method is proved to change the car exactly as the matching `Controller`
  function changes a snapshot.
- `Scenarios` (scenarios.dfy): concrete runs.

Two behaviours of `lift.rs` are easy to misread from the phase names alone:

- Closing (lift.rs:212-218). `lift_closing` sets the phase to Checking when
  a direction resolves and then returns `true`, so `next` (lift.rs:201-203)
  advances a second time. One tick in Closing therefore goes to Moving when
  there is a pending request. With no pending request it goes to Checking;
  the car does not stay in Closing. Closing and Checking thus have the same
  net effect on a tick (`Controller.Tick`). A trip from the bottom floor never
  passes through Checking when a request is already pending
  (`Scenarios.TripToTopFloor`).
- Moving with no direction reaches `todo!()` (lift.rs:234), which panics. It
  is modelled as the precondition `direction != None` of `MoveFloor`,
  `LiftMoving` and `Controller.Tick`. The invariant `Controller.Inv` shows
  that it always holds for a car built by `new()`.

## Model

| member | source | states |
|---|---|---|
| `Floors.Index` | firmware/pico-toy-elevator/src/lift.rs:1-12 | floor ordinals run 0..8, and only the sentinel has ordinal 8 (the board's size) |
| `Floors.Up` | firmware/pico-toy-elevator/src/lift.rs:15-26 | below the top floor, moves to the next ordinal; Floor8th and FloorMax are fixed points |
| `Floors.Down` | firmware/pico-toy-elevator/src/lift.rs:28-39 | above the bottom floor, moves to the previous ordinal; Floor1st and FloorMax are fixed points |
| `Floors.DownAfterUp` | firmware/pico-toy-elevator/src/lift.rs:15-39 | `Down(Up(f)) == f` for Floor1st..Floor7th |
| `Floors.UpAfterDown` | firmware/pico-toy-elevator/src/lift.rs:15-39 | `Up(Down(f)) == f` for Floor2nd..Floor8th |
| `Phases.Next` | firmware/pico-toy-elevator/src/lift.rs:59-70 | each cycle phase goes one position on along the seven-phase cycle; Checked is the only fixed point |
| `Phases.Open` | firmware/pico-toy-elevator/src/lift.rs:72-77 | the phase changes if and only if it is Closing, and then it becomes Opening |
| `Phases.Close` | firmware/pico-toy-elevator/src/lift.rs:79-85 | the phase changes if and only if it is Opening or Waiting, and then it becomes Closing |
| `Phases.NextCycles` | firmware/pico-toy-elevator/src/lift.rs:59-70 | seven steps of `Next` return every cycle phase to itself |
| `Dispatch.Resolve` | firmware/pico-toy-elevator/src/lift.rs:160-188 | Up only with a request strictly above; Down only with one strictly below; None exactly when there is neither; Up stays Up while there is a request above, and Down stays Down while there is one below; from None, Up is preferred |
| `Dispatch.ResolveIgnoresCurrent` | firmware/pico-toy-elevator/src/lift.rs:140-158 | the flag at the current floor never changes the resolved direction |
| `Dispatch.ReversalOnlyWhenExhausted` | firmware/pico-toy-elevator/src/lift.rs:161-179 | Up reverses to Down only with nothing above and something below; Down reverses to Up symmetrically |
| `Dispatch.PressKeepsRequests` | firmware/pico-toy-elevator/src/lift.rs:124-158 | setting a flag never removes a request above or below |
| `Controller.Init` | firmware/pico-toy-elevator/src/lift.rs:103-110 | power-on: Floor1st, Arrived, direction None, all eight flags clear |
| `Controller.Travel` | firmware/pico-toy-elevator/src/lift.rs:230-236 | one floor in the given direction, staying on real floors; going up from Floor8th or down from Floor1st the car stays put (`up()`/`down()` saturate) |
| `Controller.SetKey` | firmware/pico-toy-elevator/src/lift.rs:124-133 | pressing the current floor's key changes nothing and reports false; otherwise only that floor's flag is written; the result is true if and only if the car changed; floor, phase and direction are untouched; keeps the invariant |
| `Controller.OpenDoors` | firmware/pico-toy-elevator/src/lift.rs:238-240 | only Closing changes, to Opening; floor, direction and board are untouched |
| `Controller.CloseDoors` | firmware/pico-toy-elevator/src/lift.rs:242-244 | only Opening and Waiting change, to Closing; floor, direction and board are untouched |
| `Controller.Tick` | firmware/pico-toy-elevator/src/lift.rs:190-236 | Chime, Opening and Waiting advance and change nothing else. Arrived clears the current floor's flag, re-resolves the direction and opens, without moving. Closing and Checking re-resolve: Moving if a direction results, else Checking. Moving takes one `Controller.Travel` step (one floor, or none at the end of the shaft) and becomes Chime exactly when the new floor is requested, else stays Moving. Checked is fixed. The invariant is kept |
| `Controller.Apply` | firmware/pico-toy-elevator/src/lift.rs:124-244 | every driver command keeps a safe snapshot safe and keeps the invariant |
| `Controller.Run` | firmware/pico-toy-elevator/src/lift.rs:124-244 | any sequence of commands keeps the invariant |
| `Controller.FromPowerOn` | firmware/pico-toy-elevator/src/lift.rs:103-110 | from `new()`, whatever the driver does: never at FloorMax, never Checked, never Moving without a direction (the `todo!()` is unreachable), and no pending flag at a served floor |
| `Controller.MovingNeverSaturates` | firmware/pico-toy-elevator/src/lift.rs:225-236 | a moving car with a request ahead changes floor by exactly one ordinal in its direction |
| `Controller.TickKeepsAhead` | firmware/pico-toy-elevator/src/lift.rs:190-236 | a tick keeps a request strictly ahead of a moving car |
| `Controller.ApplyKeepsAhead` | firmware/pico-toy-elevator/src/lift.rs:124-244 | ticks, key presses (never clears) and door overrides keep a request ahead of a moving car |
| `Controller.RunKeepsAhead` | firmware/pico-toy-elevator/src/lift.rs:124-244 | the same for any sequence of such commands |
| `Controller.FromPowerOnPressesOnly` | firmware/pico-toy-elevator/src/main.rs:167-191 | with a driver that only presses keys, as the button loop does, every Moving tick from power-on goes one floor in its direction |
| `Lift.Lift.constructor` | firmware/pico-toy-elevator/src/lift.rs:103-110 | the new car is the power-on snapshot and satisfies the invariant |
| `Lift.Lift.Keys` | firmware/pico-toy-elevator/src/lift.rs:246-248 | returns the eight request flags |
| `Lift.Lift.SetFloorKey` | firmware/pico-toy-elevator/src/lift.rs:124-133 | changes the board and answers exactly as `Controller.SetKey`, and keeps the invariant |
| `Lift.Lift.HasCurrentByKey` | firmware/pico-toy-elevator/src/lift.rs:135-138 | the flag of the current floor |
| `Lift.Lift.HasUpperByKey` | firmware/pico-toy-elevator/src/lift.rs:140-148 | the scan answers true if and only if some flag lies strictly above the current floor |
| `Lift.Lift.HasLowerByKey` | firmware/pico-toy-elevator/src/lift.rs:150-158 | the scan answers true if and only if some flag lies strictly below the current floor |
| `Lift.Lift.UpdateDirection` | firmware/pico-toy-elevator/src/lift.rs:160-188 | the new direction is `Dispatch.Resolve` of the old one at the current floor |
| `Lift.Lift.Next` | firmware/pico-toy-elevator/src/lift.rs:190-204 | one tick (dispatch plus second advance) changes the car exactly as `Controller.Tick`, including the double advance out of Closing; keeps the invariant |
| `Lift.Lift.LiftArrived` | firmware/pico-toy-elevator/src/lift.rs:206-210 | clears the current floor's flag, re-resolves the direction, asks to advance |
| `Lift.Lift.LiftClosing` | firmware/pico-toy-elevator/src/lift.rs:212-218 | re-resolves; with a direction it already sets Checking; always asks to advance |
| `Lift.Lift.LiftChecking` | firmware/pico-toy-elevator/src/lift.rs:220-223 | re-resolves; asks to advance exactly when a direction results |
| `Lift.Lift.LiftMoving` | firmware/pico-toy-elevator/src/lift.rs:225-228 | takes one `Controller.Travel` step, so it moves one floor, or stays put at the end of the shaft; asks to advance exactly when the new floor is requested |
| `Lift.Lift.MoveFloor` | firmware/pico-toy-elevator/src/lift.rs:230-236 | one `Controller.Travel` step in the current direction, to a real floor: one floor on, or unchanged at the end of the shaft; never called without a direction |
| `Lift.Lift.Open` | firmware/pico-toy-elevator/src/lift.rs:238-240 | acts exactly as `Controller.OpenDoors` |
| `Lift.Lift.Close` | firmware/pico-toy-elevator/src/lift.rs:242-244 | acts exactly as `Controller.CloseDoors` |
| `Scenarios.TripToTopFloor` | firmware/pico-toy-elevator/src/lift.rs:190-218 | from power-on with only Floor8th pressed: Opening (direction Up), Waiting, Closing, then straight to Moving |
| `Scenarios.ClimbToTopFloor` | firmware/pico-toy-elevator/src/lift.rs:225-236 | climbing towards Floor8th goes up one floor per tick and chimes exactly on reaching Floor8th |
| `Scenarios.ClearingAheadStrandsCar` | firmware/pico-toy-elevator/src/lift.rs:124-236 | if the only request ahead is cleared, the car reaches Floor8th still Moving, and every later tick leaves it unchanged |

## Left out

- `firmware/pico-toy-elevator/src/main.rs` is left out. It is hardware glue: clock, GPIO, UART and I2C set-up, the SSD1306 animation and its frame pacing, the heartbeat LED, the inverted LED writes, and the choice of voice message. Its button loop enters only as the assumption `Controller.PressesOnly`: it only ever calls `set_floor_key(_, true)`, `open` and `close`.
- `firmware/pico-toy-elevator/src/voice.rs` is left out. It is a line writer over a UART, which is foreign I/O.
- The accessors `floor_state`, `lift_state` and `direction` are not modelled as members. They only return a field, which the class exposes directly.
- `Lift.Lift.MoveFloor`: the `todo!()` panic on direction None is a precondition, not an error path. The invariant proves that it is never reached.
- `Lift.Lift.SetFloorKey`: for a car built by `new()`, `set_floor_key(FloorMax, _)` indexes past the eight-flag board and panics. It is excluded by the precondition `floor != FloorMax`. The one exception, pressing `FloorMax` while the car stands at `FloorMax`, returns false before indexing, but `Controller.FromPowerOn` shows that no such car is reachable.
- The `as i32`/`as usize` casts are modelled as the ordinal `Floors.Index`. All values are at most 8, so no width or overflow matters.
- `Controller.RunKeepsAhead`: a request stays ahead of a moving car only for drivers that never clear keys. `Scenarios.ClearingAheadStrandsCar` shows that a clearing driver can leave the car Moving at Floor8th forever.
