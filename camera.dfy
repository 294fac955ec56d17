/** The newer generation's camera (core/camera.py): an affine map between
    world metres and screen pixels, with state updated in place by
    `center_on`, `zoom_around_point`, `pan` and `reset`. */
module CoreCamera {
  import opened Config
  import opened Numerics

  /** Screen centre used by `center_on`: `(WINDOW_WIDTH // 2, WINDOW_HEIGHT // 2)`. */
  const CENTER_X: real := (WINDOW_WIDTH / 2) as real
  const CENTER_Y: real := (WINDOW_HEIGHT / 2) as real

  /** Constructor defaults, also restored by `reset`. */
  const DEFAULT_BASE_PIXELS_PER_METER: real := 0.00001

  class Camera {
    var xOffset: real
    var yOffset: real
    var zoom: real
    var basePixelsPerMeter: real

    constructor (xOffset0: real, yOffset0: real, zoom0: real, basePixelsPerMeter0: real)
      ensures xOffset == xOffset0 && yOffset == yOffset0
      ensures zoom == zoom0 && basePixelsPerMeter == basePixelsPerMeter0
    {
      xOffset, yOffset := xOffset0, yOffset0;
      zoom, basePixelsPerMeter := zoom0, basePixelsPerMeter0;
    }

    /** `Camera()` with the default arguments. */
    constructor Default()
      ensures IsDefault()
    {
      xOffset, yOffset := 0.0, 0.0;
      zoom, basePixelsPerMeter := 1.0, DEFAULT_BASE_PIXELS_PER_METER;
    }

    ghost predicate IsDefault()
      reads this
    {
      xOffset == 0.0 && yOffset == 0.0 && zoom == 1.0 &&
      basePixelsPerMeter == DEFAULT_BASE_PIXELS_PER_METER
    }

    /** The `pixels_per_meter` property. */
    function PixelsPerMeter(): real
      reads this
    {
      basePixelsPerMeter * zoom
    }

    /** `world_to_screen`; see `WorldScreenRoundTrip` for its inverse. */
    function WorldToScreen(wx: real, wy: real): (real, real)
      reads this
    {
      (wx * PixelsPerMeter() + xOffset, wy * PixelsPerMeter() + yOffset)
    }

    /** `screen_to_world`, which divides by the scale (Python raises on a zero scale). */
    function ScreenToWorld(sx: real, sy: real): (real, real)
      reads this
      requires PixelsPerMeter() != 0.0
    {
      ((sx - xOffset) / PixelsPerMeter(), (sy - yOffset) / PixelsPerMeter())
    }

    /** After `center_on(wx, wy)` the world point is drawn at the screen centre. */
    method CenterOn(wx: real, wy: real)
      modifies this
      ensures xOffset == -wx * PixelsPerMeter() + CENTER_X
      ensures yOffset == -wy * PixelsPerMeter() + CENTER_Y
      ensures zoom == old(zoom) && basePixelsPerMeter == old(basePixelsPerMeter)
      ensures WorldToScreen(wx, wy).0 == CENTER_X && WorldToScreen(wx, wy).1 == CENTER_Y
    {
      var p := PixelsPerMeter();
      xOffset := -wx * p + CENTER_X;
      yOffset := -wy * p + CENTER_Y;
      NegMulCancel(wx, p, CENTER_X);
      NegMulCancel(wy, p, CENTER_Y);
    }

    /** Multiplies (zoom in) or divides (zoom out) the zoom by `factor` and
        corrects the offsets so that the world point `before` that was under
        the anchor `(ax, ay)` has offset `anchor - before * scale`, which by
        `AnchorFixed` draws it at the anchor again. Python raises on a zero
        scale or a zero factor. */
    method ZoomAroundPoint(zoomIn: bool, ax: real, ay: real, factor: real)
      requires PixelsPerMeter() != 0.0 && factor != 0.0
      modifies this
      ensures zoom == if zoomIn then old(zoom) * factor else old(zoom) / factor
      ensures basePixelsPerMeter == old(basePixelsPerMeter)
      ensures PixelsPerMeter() != 0.0
      ensures xOffset == ax - Mul(old(ScreenToWorld(ax, ay)).0, PixelsPerMeter())
      ensures yOffset == ay - Mul(old(ScreenToWorld(ax, ay)).1, PixelsPerMeter())
    {
      var p0, xo, yo := PixelsPerMeter(), xOffset, yOffset;
      var before := ScreenToWorld(ax, ay);
      zoom := if zoomIn then zoom * factor else zoom / factor;
      var p1 := PixelsPerMeter();
      assert p1 != 0.0 by {
        ScaleNonZero(basePixelsPerMeter, old(zoom), factor, zoomIn);
      }
      var after := ScreenToWorld(ax, ay);
      var dx := (after.0 - before.0) * PixelsPerMeter();
      var dy := (after.1 - before.1) * PixelsPerMeter();
      assert xo + dx == ax - Mul(before.0, p1) by {
        ZoomOffset(ax, xo, p0, p1);
      }
      assert yo + dy == ay - Mul(before.1, p1) by {
        ZoomOffset(ay, yo, p0, p1);
      }
      xOffset := xOffset + dx;
      yOffset := yOffset + dy;
      assert PixelsPerMeter() == p1;
      assert old(ScreenToWorld(ax, ay)) == before;
    }

    /** Adds the pixel deltas to the offsets; nothing else changes. */
    method Pan(dxPixels: real, dyPixels: real)
      modifies this
      ensures xOffset == old(xOffset) + dxPixels && yOffset == old(yOffset) + dyPixels
      ensures zoom == old(zoom) && basePixelsPerMeter == old(basePixelsPerMeter)
    {
      xOffset := xOffset + dxPixels;
      yOffset := yOffset + dyPixels;
    }

    /** Restores the constructor defaults. */
    method Reset()
      modifies this
      ensures IsDefault()
    {
      xOffset, yOffset := 0.0, 0.0;
      zoom := 1.0;
      basePixelsPerMeter := DEFAULT_BASE_PIXELS_PER_METER;
    }
  }

  /** `screen_to_world` undoes `world_to_screen` whenever the scale is non-zero. */
  lemma WorldScreenRoundTrip(c: Camera, wx: real, wy: real)
    requires c.PixelsPerMeter() != 0.0
    ensures var s := c.WorldToScreen(wx, wy);
            c.ScreenToWorld(s.0, s.1).0 == wx && c.ScreenToWorld(s.0, s.1).1 == wy
  {
    AffineInverse(wx, c.PixelsPerMeter(), c.xOffset);
    AffineInverse(wy, c.PixelsPerMeter(), c.yOffset);
  }

  /** ... and `world_to_screen` undoes `screen_to_world`. */
  lemma ScreenWorldRoundTrip(c: Camera, sx: real, sy: real)
    requires c.PixelsPerMeter() != 0.0
    ensures var w := c.ScreenToWorld(sx, sy);
            c.WorldToScreen(w.0, w.1).0 == sx && c.WorldToScreen(w.0, w.1).1 == sy
  {
    DivMul(sx - c.xOffset, c.PixelsPerMeter());
    DivMul(sy - c.yOffset, c.PixelsPerMeter());
  }

  lemma DivMul(a: real, p: real)
    requires p != 0.0
    ensures a / p * p == a
  {
  }

  lemma AffineInverse(w: real, p: real, o: real)
    requires p != 0.0
    ensures (w * p + o - o) / p == w
  {
  }

  lemma NegMulCancel(w: real, p: real, c: real)
    ensures w * p + (-w * p + c) == c
  {
  }

  /** The offset update of `zoom_around_point` on plain numbers: adding
      `(after - before) * q` to the offset `o` gives `a - before * q`. */
  lemma ZoomOffset(a: real, o: real, p: real, q: real)
    requires p != 0.0 && q != 0.0
    ensures o + ((a - o) / q - (a - o) / p) * q == a - (a - o) / p * q
  {
    var b := (a - o) / p;
    var c := (a - o) / q;
    DivMul(a - o, q);
    assert (c - b) * q == c * q - b * q;
  }

  /** An offset of `a - b * scale` (`Mul` is the product) draws the world point `b` at `a`. */
  lemma AnchorFixed(c: Camera, ax: real, ay: real, bx: real, bw: real)
    requires c.xOffset == ax - Mul(bx, c.PixelsPerMeter())
    requires c.yOffset == ay - Mul(bw, c.PixelsPerMeter())
    ensures c.WorldToScreen(bx, bw).0 == ax && c.WorldToScreen(bx, bw).1 == ay
  {
  }

  lemma ScaleNonZero(base: real, zoom: real, factor: real, zoomIn: bool)
    requires base * zoom != 0.0 && factor != 0.0
    ensures base * (if zoomIn then zoom * factor else zoom / factor) != 0.0
  {
    assert base != 0.0 && zoom != 0.0;
  }

  /** `pan(a, b)` followed by `pan(-a, -b)` leaves the camera as it was. */
  method PanAndBack(c: Camera, a: real, b: real)
    modifies c
    ensures c.xOffset == old(c.xOffset) && c.yOffset == old(c.yOffset)
    ensures c.zoom == old(c.zoom) && c.basePixelsPerMeter == old(c.basePixelsPerMeter)
  {
    c.Pan(a, b);
    c.Pan(-a, -b);
  }
}
