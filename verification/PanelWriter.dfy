/**
 The chrome's pixel writer: fills clipped to a panel rectangle, wherever the panel is drawn.
 */
module PanelWriter {
  import opened RotationKernels

  /** What writing one panel point does to the framebuffer place d. */
  function AfterPixel(before: Pixel, d: Point, p: Point, clip: Rect, visible: Rect, rotation: OutputRotation, panel: Panel, color: Pixel): Pixel {
    if clip.Contains(p) && visible.Contains(d) && ToScreen(rotation, panel, p) == d then color else before
  }

  function AfterPixels(before: Pixel, d: Point, points: seq<Point>, clip: Rect, visible: Rect, rotation: OutputRotation, panel: Panel,
                       color: Pixel): Pixel {
    if points == [] then before
    else AfterPixel(AfterPixels(before, d, points[..|points| - 1], clip, visible, rotation, panel, color),
                    d, points[|points| - 1], clip, visible, rotation, panel, color)
  }

  function AfterRect(before: Pixel, d: Point, r: Rect, clip: Rect, visible: Rect, rotation: OutputRotation, panel: Panel, color: Pixel): Pixel {
    var p := ToPanel(rotation, panel, d);
    if r.Contains(p) && clip.Contains(p) && visible.Contains(d) then color else before
  }

  /** Filling a rectangle is writing its points, one by one, in any order, any number of times. */
  lemma FillIsPixelwise(before: Pixel, d: Point, points: seq<Point>, r: Rect, clip: Rect, visible: Rect,
                        rotation: OutputRotation, panel: Panel, color: Pixel)
    requires forall p :: p in points <==> r.Contains(p)
    ensures AfterPixels(before, d, points, clip, visible, rotation, panel, color)
            == AfterRect(before, d, r, clip, visible, rotation, panel, color)
  {
    PaintedByOne(before, d, points, clip, visible, rotation, panel, color);
    OneToOne(rotation, panel, ToPanel(rotation, panel, d));
  }

  lemma {:induction false} PaintedByOne(before: Pixel, d: Point, points: seq<Point>, clip: Rect, visible: Rect,
                                        rotation: OutputRotation, panel: Panel, color: Pixel)
    ensures AfterPixels(before, d, points, clip, visible, rotation, panel, color) ==
            var p := ToPanel(rotation, panel, d);
            if p in points && clip.Contains(p) && visible.Contains(d) then color else before
  {
    if points != [] {
      var n := |points| - 1;
      PaintedByOne(before, d, points[..n], clip, visible, rotation, panel, color);
      MapIsBijective(rotation, panel, points[n], d);
      assert points == points[..n] + [points[n]];
    }
  }

  class PanelPixelWriter {
    const destination: array2<Pixel>
    const destinationWidth: nat
    const destinationHeight: nat
    const panel: Panel
    const rotation: OutputRotation
    var clipX: int
    var clipY: int
    var clipRight: int
    var clipBottom: int

    predicate Valid()
      reads this
    {
      && destinationWidth <= destination.Length1 && destinationHeight <= destination.Length0
      && 0 <= clipX <= clipRight <= panel.width && 0 <= clipY <= clipBottom <= panel.height
    }

    function Clip(): Rect
      reads this
    {
      Rect(clipX, clipY, clipRight, clipBottom)
    }

    function Visible(): Rect {
      Rect(0, 0, destinationWidth, destinationHeight)
    }

    constructor (destination: array2<Pixel>, destinationWidth: nat, destinationHeight: nat, panel: Panel, rotation: OutputRotation)
      requires destinationWidth <= destination.Length1 && destinationHeight <= destination.Length0
      ensures Valid() && Clip() == Rect(0, 0, panel.width, panel.height)
      ensures this.destination == destination && this.panel == panel && this.rotation == rotation
    {
      this.destination, this.destinationWidth, this.destinationHeight := destination, destinationWidth, destinationHeight;
      this.panel, this.rotation := panel, rotation;
      clipX, clipY, clipRight, clipBottom := 0, 0, panel.width, panel.height;
    }

    /** The clip is the part of the rectangle that is on the panel. */
    method SetClipRect(x: int, y: int, width: int, height: int)
      requires Valid()
      modifies this`clipX, this`clipY, this`clipRight, this`clipBottom
      ensures Valid()
      ensures forall p :: Clip().Contains(p) <==>
                Rect(0, 0, panel.width, panel.height).Contains(p) && Rect(x, y, x + width, y + height).Contains(p)
    {
      clipX := Clamp(x, 0, panel.width);
      clipY := Clamp(y, 0, panel.height);
      clipRight := Clamp(x + Max(0, width), clipX, panel.width);
      clipBottom := Clamp(y + Max(0, height), clipY, panel.height);
    }

    method ResetClip()
      requires Valid()
      modifies this`clipX, this`clipY, this`clipRight, this`clipBottom
      ensures Valid() && Clip() == Rect(0, 0, panel.width, panel.height)
    {
      clipX, clipY, clipRight, clipBottom := 0, 0, panel.width, panel.height;
    }

    method SetPixel(x: int, y: int, color: Pixel)
      requires Valid()
      modifies destination
      ensures forall dy, dx :: 0 <= dy < destination.Length0 && 0 <= dx < destination.Length1 ==>
                destination[dy, dx] ==
                AfterPixel(old(destination[dy, dx]), Point(dx, dy), Point(x, y), Clip(), Visible(), rotation, panel, color)
    {
      hide ToScreen;
      if x < clipX || y < clipY || x >= clipRight || y >= clipBottom {
        return;
      }
      var d := ScreenPlace(rotation, panel, Point(x, y));
      if d.x < 0 || d.y < 0 || d.x >= destinationWidth || d.y >= destinationHeight {
        return;
      }
      destination[d.y, d.x] := color;
    }

    method FillRect(x: int, y: int, width: int, height: int, color: Pixel)
      requires Valid()
      modifies destination
      ensures forall dy, dx :: 0 <= dy < destination.Length0 && 0 <= dx < destination.Length1 ==>
                destination[dy, dx] ==
                AfterRect(old(destination[dy, dx]), Point(dx, dy), Rect(x, y, x + width, y + height), Clip(), Visible(), rotation, panel, color)
    {
      hide ToPanel, RotatedDestRect;
      var x1 := Max(x, clipX);
      var y1 := Max(y, clipY);
      var x2 := Min(x + width, clipRight);
      var y2 := Min(y + height, clipBottom);
      if x2 <= x1 || y2 <= y1 {
        return;
      }
      var rect := RotatedDestRect(Rect(x1, y1, x2, y2), panel, rotation, 0);
      DestRectIsOrdered(Rect(x1, y1, x2, y2), panel, rotation);
      var dx1 := Clamp(rect.x1, 0, destinationWidth);
      var dx2 := Clamp(rect.x2, 0, destinationWidth);
      var dy1 := Clamp(rect.y1, 0, destinationHeight);
      var dy2 := Clamp(rect.y2, 0, destinationHeight);
      FillScreenRect(destination, Rect(dx1, dy1, dx2, dy2), color);
    }
  }

  lemma DestRectIsOrdered(r: Rect, panel: Panel, rotation: OutputRotation)
    requires r.x1 <= r.x2 && r.y1 <= r.y2
    ensures var s := RotatedDestRect(r, panel, rotation, 0); s.x1 <= s.x2 && s.y1 <= s.y2
    ensures forall d :: RotatedDestRect(r, panel, rotation, 0).Contains(d) <==> r.Contains(ToPanel(rotation, panel, d))
  {
    forall d
      ensures RotatedDestRect(r, panel, rotation, 0).Contains(d) <==> r.Contains(ToPanel(rotation, panel, d))
    {
      DestRectIsImage(r, panel, rotation, 0, d);
    }
  }
}
