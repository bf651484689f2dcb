/** Travel direction and the scan policy that chooses it from the request
    board: keep going while a request lies ahead, then reverse, else stop. */
module Dispatch {

  datatype Direction = Up | Down | None

  /** Some request flag lies strictly above ordinal `cur`. */
  predicate HasAbove(keys: seq<bool>, cur: nat)
  {
    exists i :: cur < i < |keys| && keys[i]
  }

  /** Some request flag lies strictly below ordinal `cur`. */
  predicate HasBelow(keys: seq<bool>, cur: nat)
  {
    exists i :: 0 <= i < cur && i < |keys| && keys[i]
  }

  /** The direction after re-evaluation at the floor with ordinal `cur`, given
      the previous direction `d`. */
  function Resolve(d: Direction, cur: nat, keys: seq<bool>): (r: Direction)
    // sound: a direction is chosen only towards a pending request
    ensures r == Up ==> HasAbove(keys, cur)
    ensures r == Down ==> HasBelow(keys, cur)
    ensures r == None <==> !HasAbove(keys, cur) && !HasBelow(keys, cur)
    // scan: no reversal while requests remain ahead
    ensures d == Up && HasAbove(keys, cur) ==> r == Up
    ensures d == Down && HasBelow(keys, cur) ==> r == Down
    // from rest, upward requests win
    ensures d == None && HasAbove(keys, cur) ==> r == Up
  {
    match d
    case Up =>
      if HasAbove(keys, cur) then Up
      else if HasBelow(keys, cur) then Down
      else None
    case Down =>
      if HasBelow(keys, cur) then Down
      else if HasAbove(keys, cur) then Up
      else None
    case None =>
      if HasAbove(keys, cur) then Up
      else if HasBelow(keys, cur) then Down
      else None
  }

  /** The flag at the current floor never takes part in the decision. */
  lemma ResolveIgnoresCurrent(d: Direction, cur: nat, keys: seq<bool>, b: bool)
    requires cur < |keys|
    ensures Resolve(d, cur, keys[cur := b]) == Resolve(d, cur, keys)
  {
    var keys' := keys[cur := b];
    if HasAbove(keys, cur) {
      var i :| cur < i < |keys| && keys[i];
      assert keys'[i];
    }
    if HasAbove(keys', cur) {
      var i :| cur < i < |keys'| && keys'[i];
      assert keys[i];
    }
    if HasBelow(keys, cur) {
      var i :| 0 <= i < cur && i < |keys| && keys[i];
      assert keys'[i];
    }
    if HasBelow(keys', cur) {
      var i :| 0 <= i < cur && i < |keys'| && keys'[i];
      assert keys[i];
    }
  }

  /** Having a request in the old direction but none in it after a reversal is
      impossible: a reversal means the way ahead was empty. */
  lemma ReversalOnlyWhenExhausted(d: Direction, cur: nat, keys: seq<bool>)
    ensures d == Up && Resolve(d, cur, keys) == Down ==> !HasAbove(keys, cur) && HasBelow(keys, cur)
    ensures d == Down && Resolve(d, cur, keys) == Up ==> !HasBelow(keys, cur) && HasAbove(keys, cur)
  {
  }

  /** Setting more flags never takes away a request above or below. */
  lemma PressKeepsRequests(keys: seq<bool>, cur: nat, j: nat)
    requires j < |keys|
    ensures HasAbove(keys, cur) ==> HasAbove(keys[j := true], cur)
    ensures HasBelow(keys, cur) ==> HasBelow(keys[j := true], cur)
  {
    if HasAbove(keys, cur) {
      var i :| cur < i < |keys| && keys[i];
      assert keys[j := true][i];
    }
    if HasBelow(keys, cur) {
      var i :| 0 <= i < cur && i < |keys| && keys[i];
      assert keys[j := true][i];
    }
  }
}
