/** The swipe card's decision rules (components/Card.tsx): how a drag offset
    becomes a swipe direction, which card may be dragged, and what the three
    action buttons send. */
module Card {
  import opened Types

  datatype Direction = Left | Right | Up

  /** The three floating action buttons: X, Study and Heart. */
  datatype Button = PassButton | StudyButton | LikeButton

  /** How far (in pixels) a drag must travel before it counts as a swipe. */
  const Threshold: real := 100.0

  /** The direction a released drag with offset (x, y) reports, if any. Screen y grows
      downwards, so a drag upwards has a negative y. */
  function DragDirection(x: real, y: real): (d: Option<Direction>)
    ensures d == Some(Right) <==> x > Threshold
    ensures d == Some(Left) <==> x < -Threshold
    ensures d == Some(Up) <==> -Threshold <= x <= Threshold && y < -Threshold
    ensures d == None <==> -Threshold <= x <= Threshold && y >= -Threshold
  {
    if x > Threshold then Some(Right)
    else if x < -Threshold then Some(Left)
    else if y < -Threshold then Some(Up)
    else None
  }

  /** A horizontal swipe wins over a vertical one: the vertical offset is ignored
      whenever the horizontal one is past the threshold. */
  lemma HorizontalTakesPriority(x: real, y1: real, y2: real)
    requires x > Threshold || x < -Threshold
    ensures DragDirection(x, y1) == DragDirection(x, y2)
  {
  }

  /** Offsets of exactly ±100 do not swipe, nor does any downward drag inside the band. */
  lemma BoundaryDoesNotSwipe(y: real)
    ensures DragDirection(Threshold, 0.0) == None && DragDirection(-Threshold, 0.0) == None
    ensures DragDirection(0.0, -Threshold) == None
    ensures y >= 0.0 ==> DragDirection(Threshold, y) == None && DragDirection(-Threshold, y) == None
  {
  }

  /** Only the card rendered with stacking index 1 reacts to dragging. The index is also the
      card's z-index, so the draggable card is drawn above the base card (index 0). */
  predicate IsDraggable(index: int)
    ensures IsDraggable(index) ==> index > 0
  {
    index == 1
  }

  /** The direction each action button reports; every direction has exactly one button. */
  function ButtonDirection(b: Button): (d: Direction)
    ensures d == Left <==> b == PassButton
    ensures d == Up <==> b == StudyButton
    ensures d == Right <==> b == LikeButton
  {
    match b
    case PassButton => Left
    case StudyButton => Up
    case LikeButton => Right
  }
}
