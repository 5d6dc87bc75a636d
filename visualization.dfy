/** The coordinate conversions of visualization/visualization.py between
    field positions (millimetres, origin at the field centre, y up) and
    window pixels (origin at the top left, y down), and the window size.
    Drawing is not modelled. */
module Visualization {
  import opened Geometry

  /** `gs.FIELD_X_LENGTH` and `gs.FIELD_Y_LENGTH`, as the local copies in
      strategy/strategy.py give them. */
  const FieldXLength: real := 9000.0
  const FieldYLength: real := 6000.0
  const FieldMaxX: real := FieldXLength / 2.0
  const FieldMaxY: real := FieldYLength / 2.0

  /** `SCALE`, pixels per millimetre. */
  const Scale: real := 0.15

  /** `UI_BUFFER_PX`: the strip above the field kept for buttons. */
  const UiBufferPx: int := 50

  /** `WINDOW_BUFFER_PX`: the margin around the field. */
  const WindowBufferPx: int := 15

  /** `TOTAL_SCREEN_WIDTH` and `TOTAL_SCREEN_HEIGHT`. */
  const ScreenWidth: int := Trunc(FieldXLength * Scale) + WindowBufferPx * 2
  const ScreenHeight: int := Trunc(FieldYLength * Scale) + WindowBufferPx * 2 + UiBufferPx

  /** A pixel position. */
  datatype Pixel = Pixel(x: int, y: int)

  lemma ScreenSize()
    ensures ScreenWidth == 1380 && ScreenHeight == 980
  {
    assert FieldXLength * Scale == 1350.0 && FieldYLength * Scale == 900.0;
  }

  /** `field_to_screen`: a 3-element pose is cut to x, y; the position is
      shifted so the field's corner is the origin, scaled, truncated to
      integers, moved in by the margin, and its y is flipped. A pose of any
      other length than 2 or 3 fails numpy's broadcasting (None). */
  function FieldToScreen(pos: Waypoint): (r: Option<Pixel>)
    ensures r.Some? <==> WellFormed(pos)
  {
    if !WellFormed(pos) then None
    else
      var sx := Trunc((pos.x + FieldMaxX) * Scale) + WindowBufferPx;
      var sy := Trunc((pos.y + FieldMaxY) * Scale) + WindowBufferPx;
      Some(Pixel(sx, ScreenHeight - sy))
  }

  /** `screen_to_field`: the steps of `field_to_screen` undone in reverse
      order, without any rounding. */
  function ScreenToField(px: real, py: real): (f: Point)
    ensures (f.x + FieldMaxX) * Scale + WindowBufferPx as real == px
    ensures ScreenHeight as real - ((f.y + FieldMaxY) * Scale + WindowBufferPx as real) == py
  {
    var y := ScreenHeight as real - py;
    var x := px - WindowBufferPx as real;
    var y' := y - WindowBufferPx as real;
    Point(x / Scale - FieldMaxX, y' / Scale - FieldMaxY)
  }

  /** On pixel positions, `field_to_screen` undoes `screen_to_field`
      exactly. */
  lemma ScreenRoundTrip(p: Pixel)
    ensures var f := ScreenToField(p.x as real, p.y as real);
      FieldToScreen(Waypoint(f.x, f.y, [])) == Some(p)
  {
    var f := ScreenToField(p.x as real, p.y as real);
    var kx, ky := p.x - WindowBufferPx, ScreenHeight - p.y - WindowBufferPx;
    assert f.x == kx as real / Scale - FieldMaxX;
    assert f.y == ky as real / Scale - FieldMaxY;
    RescaleWhole(kx, FieldMaxX);
    RescaleWhole(ky, FieldMaxY);
  }

  /** Unscaling and unshifting a whole number of pixels, then shifting and
      scaling it again, truncates back to that number. */
  lemma RescaleWhole(k: int, shift: real)
    ensures Trunc(((k as real / Scale - shift) + shift) * Scale) == k
  {
    assert ((k as real / Scale - shift) + shift) * Scale == k as real;
  }

  /** Going to the screen and back moves a field position by less than one
      pixel's worth of millimetres in each axis. */
  lemma FieldRoundTrip(pos: Waypoint)
    requires WellFormed(pos)
    ensures var s := FieldToScreen(pos).value;
      var f := ScreenToField(s.x as real, s.y as real);
      Near(f.x, pos.x) && Near(f.y, pos.y)
  {
    ScreenSize();
    var u := (pos.x + FieldMaxX) * Scale;
    var v := (pos.y + FieldMaxY) * Scale;
    var s := FieldToScreen(pos).value;
    var f := ScreenToField(s.x as real, s.y as real);
    assert f.x == Trunc(u) as real / Scale - FieldMaxX;
    assert f.y == Trunc(v) as real / Scale - FieldMaxY;
    NearAfterUnscale(u, pos.x, FieldMaxX);
    NearAfterUnscale(v, pos.y, FieldMaxY);
  }

  /** a and b differ by less than one pixel, 1 / Scale millimetres. */
  predicate Near(a: real, b: real)
  {
    -1.0 / Scale < a - b < 1.0 / Scale
  }

  lemma NearAfterUnscale(u: real, c: real, shift: real)
    requires u == (c + shift) * Scale
    ensures Near(Trunc(u) as real / Scale - shift, c)
  {
    var t := Trunc(u) as real;
    assert -1.0 < t - u < 1.0;
    assert t / Scale - shift - c == (t - u) / Scale;
  }

  /** Further up the field is further up the window: a larger field y
      never gives a larger pixel y. */
  lemma ScreenYAntitone(p: Waypoint, q: Waypoint)
    requires WellFormed(p) && WellFormed(q) && p.y <= q.y
    ensures FieldToScreen(q).value.y <= FieldToScreen(p).value.y
  {
    TruncMonotone((p.y + FieldMaxY) * Scale, (q.y + FieldMaxY) * Scale);
  }

  /** Only x and y of a robot pose are drawn: the heading does not matter. */
  lemma PoseHeadingIgnored(x: real, y: real, w: real)
    ensures FieldToScreen(Pose(x, y, w)) == FieldToScreen(Waypoint(x, y, []))
  {
  }

  /** Every point of the field is drawn inside the window, below the
      button strip. */
  lemma FieldInsideWindow(pos: Waypoint)
    requires WellFormed(pos)
    requires -FieldMaxX <= pos.x <= FieldMaxX && -FieldMaxY <= pos.y <= FieldMaxY
    ensures var s := FieldToScreen(pos).value;
      WindowBufferPx <= s.x <= ScreenWidth - WindowBufferPx &&
      UiBufferPx + WindowBufferPx <= s.y <= ScreenHeight - WindowBufferPx
  {
    ScreenSize();
    TruncMonotone(0.0, (pos.x + FieldMaxX) * Scale);
    TruncMonotone((pos.x + FieldMaxX) * Scale, 1350.0);
    TruncMonotone(0.0, (pos.y + FieldMaxY) * Scale);
    TruncMonotone((pos.y + FieldMaxY) * Scale, 900.0);
  }
}
