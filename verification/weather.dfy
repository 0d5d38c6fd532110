/**
 The weather mini-app, reduced to what the host relies on: the hidden flags
 of its two secondary labels and the axis of its main stack view, and how
 `updateDisplayMode(to:)` sets them. Location, network fetch and error
 alerts are not part of this model.
 */
module Weather {
  import opened ModeTokens

  datatype Axis = Horizontal | Vertical

  datatype Visibility = Visibility(coordinatesHidden: bool, infoHidden: bool, axis: Axis)

  /** Both labels are created hidden and the stack view horizontal. */
  const InitialVisibility: Visibility := Visibility(true, true, Horizontal)

  function UpdateDisplayMode(v: Visibility, token: string): (r: Visibility)
    ensures r.coordinatesHidden == r.infoHidden == (token == OneEighth)
    ensures token == OneEighth ==> r.axis == Horizontal
    ensures IsExpanded(token) ==> r.axis == Vertical
    ensures !IsKnown(token) ==> r.axis == v.axis
  {
    match token
    case "oneEighth" => Visibility(true, true, Horizontal)
    case "half" | "fullScreen" => Visibility(false, false, Vertical)
    case _ => Visibility(false, false, v.axis)
  }

  lemma HalfAsFullScreen(v: Visibility)
    ensures UpdateDisplayMode(v, Half) == UpdateDisplayMode(v, FullScreen)
  {
  }

  lemma DisplayIdempotent(v: Visibility, token: string)
    ensures UpdateDisplayMode(UpdateDisplayMode(v, token), token) == UpdateDisplayMode(v, token)
  {
  }

  /** The compact token is already the initial layout. */
  lemma OneEighthKeepsInitial()
    ensures UpdateDisplayMode(InitialVisibility, OneEighth) == InitialVisibility
  {
  }
}
