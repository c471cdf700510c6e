/** The key handler's decision: which heading a key press leaves the snake with. */
module Input {
  import opened Entities

  const KeyLeft: int := 37
  const KeyUp: int := 38
  const KeyRight: int := 39
  const KeyDown: int := 40

  /** The heading an arrow key asks for; `None` for every other key code. */
  function Requested(keyCode: int): Option<Direction>
  {
    if keyCode == KeyRight then Some(Right)
    else if keyCode == KeyLeft then Some(Left)
    else if keyCode == KeyUp then Some(Up)
    else if keyCode == KeyDown then Some(Down)
    else None
  }

  /** `onkeydown`: the heading after a key press. An arrow key turns the snake
      unless it asks for the reverse of the current heading; every other press,
      and every refused one, leaves the heading as it was. */
  function Turn(current: Direction, keyCode: int): (d: Direction)
    ensures d != Opposite(current)
    ensures Requested(keyCode).None? ==> d == current
    ensures Requested(keyCode).Some? ==>
              (d == Requested(keyCode).value <==> Requested(keyCode).value != Opposite(current))
    ensures Requested(keyCode) == Some(Opposite(current)) ==> d == current
  {
    if keyCode == KeyRight && current != Left then Right
    else if keyCode == KeyLeft && current != Right then Left
    else if keyCode == KeyUp && current != Down then Up
    else if keyCode == KeyDown && current != Up then Down
    else current
  }

  /** Each press is checked only against the heading it finds, so two presses
      between ticks can reverse the snake: right, then up, then left. */
  lemma TwoPressesReverse()
    ensures Turn(Turn(Right, KeyUp), KeyLeft) == Opposite(Right)
  {
  }

  /** The heading changes only when the key asks for a heading other than the
      current one and its reverse. */
  lemma TurnChangesOnlyOnRequest(current: Direction, keyCode: int)
    ensures Turn(current, keyCode) != current <==>
              Requested(keyCode).Some? && Requested(keyCode).value != current
              && Requested(keyCode).value != Opposite(current)
  {
  }
}
