/** The circular progress indicator: its stored value and the caption drawn
    under the percentage. Drawing itself is not modelled. */
module ProgressBar {

  /** `max(0, min(100, v))`. */
  function Clamp(v: int): (r: int)
    ensures 0 <= r <= 100
    ensures 0 <= v <= 100 ==> r == v
    ensures v < 0 ==> r == 0
    ensures v > 100 ==> r == 100
  {
    if v < 0 then 0 else if v > 100 then 100 else v
  }

  /** Clamping a clamped value changes nothing. */
  lemma ClampIdempotent(v: int)
    ensures Clamp(Clamp(v)) == Clamp(v)
  {
  }

  /** The caption drawn below the percentage. */
  datatype Caption = NoCaption | DownloadingCaption | CompleteCaption

  function CaptionText(c: Caption): string
  {
    match c
    case NoCaption => ""
    case DownloadingCaption => "Downloading..."
    case CompleteCaption => "Complete!"
  }

  /** The caption choice of the paint routine for a stored value. */
  function CaptionFor(value: int): (c: Caption)
    ensures c == DownloadingCaption <==> 0 < value < 100
    ensures c == CompleteCaption <==> value == 100
    ensures c == NoCaption <==> value <= 0 || value > 100
  {
    if value > 0 && value < 100 then DownloadingCaption
    else if value == 100 then CompleteCaption
    else NoCaption
  }

  class CircularProgressBar {
    var value: int

    ghost predicate Valid()
      reads this
    {
      0 <= value <= 100
    }

    constructor ()
      ensures Valid() && value == 0
    {
      value := 0;
    }

    /** Stores the clamped value; the repaint request is not modelled. */
    method SetValue(v: int)
      modifies this
      ensures Valid()
      ensures value == Clamp(v)
    {
      value := if 0 > (if 100 < v then 100 else v) then 0 else (if 100 < v then 100 else v);
    }

    /** The caption for the stored value: none at 0, "Downloading..." strictly between, "Complete!" at 100. */
    function Caption(): (c: Caption)
      reads this
      requires Valid()
      ensures c == NoCaption <==> value == 0
      ensures c == DownloadingCaption <==> 0 < value < 100
      ensures c == CompleteCaption <==> value == 100
    {
      CaptionFor(value)
    }
  }
}
