/** The size and anchor arithmetic of `scale_text` (main.py:24-64): the text's
    tight bounding box, as measured by the font, is rendered to its own
    raster, resized by a pair of scale factors, and pasted so that the chosen
    reference point of the resized box lands on the target coordinates.
    The raster work itself is not modelled; the result is the paste position
    and the resized size. */
module TextPlacement {
  import opened Errors
  import opened Rounding

  /** A tight bounding box `(left, top, right, bottom)` as `font.getbbox` reports it. */
  datatype BBox = BBox(left: int, top: int, right: int, bottom: int)

  /** The font reports a box whose right and bottom do not precede its left and top:
      a raster of negative width or height cannot be created. */
  predicate WellFormed(b: BBox) {
    b.left <= b.right && b.top <= b.bottom
  }

  /** Where the resized text is pasted: the exact top-left corner `(x, y)`
      the anchor arithmetic computes, the integer position `(round(x), round(y))`
      that is handed to `paste`, and the resized raster's size. */
  datatype Placement = Placement(x: real, y: real, pasteX: int, pasteY: int, width: nat, height: nat)

  /** `round(w * s)` for a measured extent `w` and a non-negative factor `s`. */
  function ScaledExtent(extent: nat, factor: real): (n: nat)
    requires factor >= 0.0
    ensures extent as real * factor - 0.5 <= n as real <= extent as real * factor + 0.5
    ensures factor == 1.0 ==> n == extent
  {
    MulMonotone(extent as real, 0.0, factor);
    RoundHalfEven(extent as real * factor)
  }

  /** How far along an extent of 1 an anchor letter puts the reference
      point: `m` at one half, `far` (`r` horizontally, `b` vertically) at 1,
      and any other letter at 0. The near letters `l` and `t` mean 0; any
      other letter builds a ValueError that is never raised (main.py:52-53,
      60-61), so the coordinate is left as it is, exactly as for `l` or `t`. */
  function AnchorFraction(c: char, far: char): (k: real)
    ensures k == 0.0 || k == 0.5 || k == 1.0
  {
    if c == 'm' then 0.5 else if c == far then 1.0 else 0.0
  }

  /** The arithmetic of `scale_text` as the code is written. Unpacking an
      anchor that is not exactly two characters raises; an unknown letter
      does not (see AnchorFraction). */
  function ScaleText(coords: (real, real), bbox: BBox, scale: (real, real), anchor: string): (r: Result<Placement>)
    requires WellFormed(bbox) && scale.0 >= 0.0 && scale.1 >= 0.0
    ensures r.Err? <==> |anchor| != 2
    ensures r.Err? ==> r.error == AnchorUnpack
    ensures r.Ok? ==>
      var p := r.value;
      && p.width == ScaledExtent(bbox.right - bbox.left, scale.0)
      && p.height == ScaledExtent(bbox.bottom - bbox.top, scale.1)
      // the horizontal reference point of the pasted box is the target x
      && (anchor[0] == 'm' ==> p.x + p.width as real / 2.0 == coords.0)
      && (anchor[0] == 'r' ==> p.x + p.width as real == coords.0)
      && (anchor[0] != 'm' && anchor[0] != 'r' ==> p.x == coords.0)
      // the vertical reference point of the pasted box is the target y
      && (anchor[1] == 'm' ==> p.y + p.height as real / 2.0 == coords.1)
      && (anchor[1] == 'b' ==> p.y + p.height as real == coords.1)
      && (anchor[1] != 'm' && anchor[1] != 'b' ==> p.y == coords.1)
      // the paste position is the exact corner rounded half to even
      && p.pasteX == RoundHalfEven(p.x) && p.pasteY == RoundHalfEven(p.y)
  {
    var w := ScaledExtent(bbox.right - bbox.left, scale.0);
    var h := ScaledExtent(bbox.bottom - bbox.top, scale.1);
    if |anchor| != 2 then Err(AnchorUnpack)
    else
      var x := coords.0 - w as real * AnchorFraction(anchor[0], 'r');
      var y := coords.1 - h as real * AnchorFraction(anchor[1], 'b');
      Ok(Placement(x, y, RoundHalfEven(x), RoundHalfEven(y), w, h))
  }

  /** After rounding, the anchor's reference point of the pasted box lies
      within half a pixel of the target, on both axes. */
  lemma PastedAnchorWithinHalfPixel(coords: (real, real), bbox: BBox, scale: (real, real), anchor: string)
    requires WellFormed(bbox) && scale.0 >= 0.0 && scale.1 >= 0.0 && |anchor| == 2
    ensures
      var p := ScaleText(coords, bbox, scale, anchor).value;
      var refX := p.pasteX as real + p.width as real * AnchorFraction(anchor[0], 'r');
      var refY := p.pasteY as real + p.height as real * AnchorFraction(anchor[1], 'b');
      && coords.0 - 0.5 <= refX <= coords.0 + 0.5
      && coords.1 - 0.5 <= refY <= coords.1 + 0.5
  {
  }

  /** A larger factor never gives a smaller resized extent. */
  lemma ScaledExtentMonotone(extent: nat, f1: real, f2: real)
    requires 0.0 <= f1 <= f2
    ensures ScaledExtent(extent, f1) <= ScaledExtent(extent, f2)
  {
    MulMonotone(extent as real, f1, f2);
    RoundHalfEvenMonotone(extent as real * f1, extent as real * f2);
    ScaledExtentUnfold(extent, f1);
    ScaledExtentUnfold(extent, f2);
  }

  lemma MulMonotone(e: real, f1: real, f2: real)
    requires e >= 0.0 && f1 <= f2
    ensures e * f1 <= e * f2
  {
    assert e * f2 - e * f1 == e * (f2 - f1);
  }

  lemma ScaledExtentUnfold(extent: nat, f: real)
    requires f >= 0.0
    ensures ScaledExtent(extent, f) == RoundHalfEven(extent as real * f)
  {
  }

  /** A larger horizontal factor never gives a narrower box and does not
      change the height; symmetrically for the vertical factor. */
  lemma ScaledSizeMonotone(bbox: BBox, sx1: real, sy1: real, sx2: real, sy2: real)
    requires WellFormed(bbox) && 0.0 <= sx1 <= sx2 && 0.0 <= sy1 <= sy2
    ensures
      var p1 := ScaleText((0.0, 0.0), bbox, (sx1, sy1), "lt").value;
      var p2 := ScaleText((0.0, 0.0), bbox, (sx2, sy2), "lt").value;
      && p1.width <= p2.width && p1.height <= p2.height
      && (sy1 == sy2 ==> p1.height == p2.height)
      && (sx1 == sx2 ==> p1.width == p2.width)
  {
    ScaledExtentMonotone(bbox.right - bbox.left, sx1, sx2);
    ScaledExtentMonotone(bbox.bottom - bbox.top, sy1, sy2);
  }

  /** The quirk of main.py:52-53 and 60-61: an unknown anchor letter does not
      stop the drawing; it behaves as `l` (horizontally) or `t` (vertically). */
  lemma UnknownLettersActAsLeftTop(coords: (real, real), bbox: BBox, scale: (real, real), a1: char, a2: char)
    requires WellFormed(bbox) && scale.0 >= 0.0 && scale.1 >= 0.0
    ensures a1 !in "lmr" ==> ScaleText(coords, bbox, scale, [a1, a2]) == ScaleText(coords, bbox, scale, ['l', a2])
    ensures a2 !in "tmb" ==> ScaleText(coords, bbox, scale, [a1, a2]) == ScaleText(coords, bbox, scale, [a1, 't'])
  {
  }

  /** A concrete instance: anchor "xx" draws at the target as if it were "lt". */
  lemma BadAnchorStillDraws()
    ensures ScaleText((10.0, 20.0), BBox(0, 0, 4, 6), (1.0, 1.0), "xx")
         == Ok(Placement(10.0, 20.0, 10, 20, 4, 6))
  {
  }

  /** The nine anchor codes `l/m/r` by `t/m/b`. */
  predicate ValidAnchor(anchor: string) {
    |anchor| == 2 && anchor[0] in "lmr" && anchor[1] in "tmb"
  }

  /** `scale_text` with the evidently intended check: an anchor outside the
      nine codes raises before anything is pasted. For the nine codes it is
      the same arithmetic as ScaleText. */
  function ScaleTextChecked(coords: (real, real), bbox: BBox, scale: (real, real), anchor: string): (r: Result<Placement>)
    requires WellFormed(bbox) && scale.0 >= 0.0 && scale.1 >= 0.0
    ensures r.Err? <==> !ValidAnchor(anchor)
    ensures r.Err? ==> r.error == (if |anchor| != 2 then AnchorUnpack else BadAnchor)
    ensures ValidAnchor(anchor) ==> r == ScaleText(coords, bbox, scale, anchor)
  {
    if |anchor| != 2 then Err(AnchorUnpack)
    else if !ValidAnchor(anchor) then Err(BadAnchor)
    else ScaleText(coords, bbox, scale, anchor)
  }
}
