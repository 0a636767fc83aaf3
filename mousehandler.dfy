/**
 * The pointer dispatcher of components/Canvas/MouseHandler.tsx: it remembers
 * which mouse button is held, zooms the canvas on the wheel, pans it while the
 * middle button is held and forwards mouse-downs to the drawing logic.
 *
 * The viewport is fabric's transform reduced to what these handlers touch: a
 * scale `zoom` and a translation `(panX, panY)`, so that the canvas point `c`
 * is shown at the screen point `c * zoom + pan`.
 */
module MouseHandler {

  import opened Optional

  const MinZoom: real := 0.01
  const MaxZoom: real := 20.0

  /** fabric's code for the middle button: the one that pans. */
  const PanButton: int := 2

  /** The zoom limits of the wheel handler: first at most 20, then at least 0.01. */
  function Clamp(z: real): (r: real)
    ensures MinZoom <= r <= MaxZoom
    ensures MinZoom <= z <= MaxZoom ==> r == z
    ensures z > MaxZoom ==> r == MaxZoom
    ensures z < MinZoom ==> r == MinZoom
  {
    if z > MaxZoom then MaxZoom else if z < MinZoom then MinZoom else z
  }

  /** Clamping a clamped zoom changes nothing. */
  lemma ClampIdempotent(z: real)
    ensures Clamp(Clamp(z)) == Clamp(z)
  {
  }

  /** A larger wheel result never gives a smaller zoom. */
  lemma ClampMonotone(a: real, b: real)
    requires a <= b
    ensures Clamp(a) <= Clamp(b)
  {
  }

  /** The canvas point shown at the screen coordinate `p` along one axis. */
  function Unproject(p: real, pan: real, zoom: real): (c: real)
    requires zoom > 0.0
    ensures c * zoom + pan == p
  {
    (p - pan) / zoom
  }

  lemma DivCancel(c: real, z: real)
    requires z > 0.0
    ensures (c * z) / z == c
  {
  }

  class Handler {
    /** The `canvas` prop is set. */
    var canvas: bool
    /** The `onMouseDown` prop is set. */
    var listening: bool
    var zoom: real
    var panX: real
    var panY: real
    /** The `button` state: the code of the held button, `undefined` when none. */
    var button: Option<int>

    ghost predicate Valid()
      reads this
    {
      MinZoom <= zoom <= MaxZoom
    }

    /** The first render; fabric starts at zoom 1 with no translation. */
    constructor(canvas: bool, listening: bool)
      ensures Valid()
      ensures this.canvas == canvas && this.listening == listening
      ensures zoom == 1.0 && panX == 0.0 && panY == 0.0 && button == None
    {
      this.canvas := canvas;
      this.listening := listening;
      zoom := 1.0;
      panX, panY := 0.0, 0.0;
      button := None;
    }

    /**
     * fabric's `canvas.zoomToPoint(point, value)`: the zoom becomes `value` and
     * the translation moves so that the canvas point under `point` stays there.
     */
    method ZoomToPoint(px: real, py: real, value: real)
      requires Valid() && MinZoom <= value <= MaxZoom
      modifies this
      ensures Valid() && zoom == value
      ensures Unproject(px, panX, zoom) == Unproject(px, old(panX), old(zoom))
      ensures Unproject(py, panY, zoom) == Unproject(py, old(panY), old(zoom))
      ensures canvas == old(canvas) && listening == old(listening) && button == old(button)
    {
      var cx := Unproject(px, panX, zoom);
      var cy := Unproject(py, panY, zoom);
      zoom := value;
      panX, panY := px - cx * value, py - cy * value;
      DivCancel(cx, value);
      DivCancel(cy, value);
    }

    /** `handleMouseWheel` (MouseHandler.tsx:24-37); `factor` stands for `0.999 ** deltaY`. */
    method Wheel(factor: real, px: real, py: real)
      requires Valid()
      modifies this
      ensures Valid()
      ensures canvas ==> zoom == Clamp(old(zoom) * factor)
      ensures canvas ==> Unproject(px, panX, zoom) == Unproject(px, old(panX), old(zoom))
      ensures canvas ==> Unproject(py, panY, zoom) == Unproject(py, old(panY), old(zoom))
      ensures !canvas ==> zoom == old(zoom) && panX == old(panX) && panY == old(panY)
      ensures canvas == old(canvas) && listening == old(listening) && button == old(button)
    {
      if canvas {
        var z := zoom;
        z := z * factor;
        if z > MaxZoom {
          z := MaxZoom;
        }
        if z < MinZoom {
          z := MinZoom;
        }
        ZoomToPoint(px, py, z);
      }
    }

    /** `handleMouseMove` (MouseHandler.tsx:43-59): `relativePan` while the middle button is held. */
    method Move(movementX: real, movementY: real)
      modifies this
      ensures canvas && button == Some(PanButton) ==> panX == old(panX) + movementX && panY == old(panY) + movementY
      ensures !(canvas && button == Some(PanButton)) ==> panX == old(panX) && panY == old(panY)
      ensures zoom == old(zoom) && canvas == old(canvas) && listening == old(listening) && button == old(button)
    {
      if canvas {
        match button
        case Some(code) =>
          if code == PanButton {
            panX, panY := panX + movementX, panY + movementY;
          }
        case None =>
      }
    }

    /**
     * `handleMouseDown` (MouseHandler.tsx:65-73): with a canvas, the button is
     * recorded and `forward` tells that the event goes on to `onMouseDown`.
     */
    method Down(code: int) returns (forward: bool)
      modifies this
      ensures canvas ==> button == Some(code)
      ensures !canvas ==> button == old(button)
      ensures forward <==> canvas && listening
      ensures zoom == old(zoom) && panX == old(panX) && panY == old(panY)
      ensures canvas == old(canvas) && listening == old(listening)
    {
      forward := false;
      if canvas {
        button := Some(code);
        if listening {
          forward := true;
        }
      }
    }

    /** `handleMouseUp` (MouseHandler.tsx:79-81): whatever was released, no button is held. */
    method Up()
      modifies this
      ensures button == None
      ensures zoom == old(zoom) && panX == old(panX) && panY == old(panY)
      ensures canvas == old(canvas) && listening == old(listening)
    {
      button := None;
    }
  }
}
