/**
 Where the video plane shows a frame: videoOverlayCommit's placement, fit and clipping, with the source
 window in 16.16 fixed point.
 */
module VideoCrop {
  import opened RotationKernels

  datatype Fit = Contain | Cover | Stretch

  const ONE := 0x1_0000   // one pixel in 16.16

  /** Size of a decoded frame; the display refuses empty ones. */
  datatype Frame = Frame(width: int, height: int)
  {
    predicate Usable() {
      width > 0 && height > 0
    }
  }

  /** The plane's place on the screen and the part of the frame it shows. */
  datatype Window = Window(screen: Rect, x: int, y: int, width: int, height: int)

  datatype Plan = Rejected | OffScreen | Shown(window: Window)

  predicate Within(inner: Rect, outer: Rect) {
    outer.x1 <= inner.x1 && inner.x2 <= outer.x2 && outer.y1 <= inner.y1 && inner.y2 <= outer.y2
  }

  predicate NonEmpty(r: Rect) {
    r.x1 < r.x2 && r.y1 < r.y2
  }

  function Intersection(a: Rect, b: Rect): Rect {
    Rect(Max(a.x1, b.x1), Max(a.y1, b.y1), Min(a.x2, b.x2), Min(a.y2, b.y2))
  }

  // ---------------------------------------------------------------- arithmetic

  lemma DivBounds(a: int, b: int)
    requires b > 0
    ensures a / b * b <= a < a / b * b + b
  {
  }

  lemma DivAtMost(a: int, b: int, c: int)
    requires b > 0 && a <= b * c
    ensures a / b <= c
  {
    DivBounds(a, b);
    if a / b > c {
      MulMono(c + 1, a / b, b);
    }
  }

  lemma DivAtLeast(a: int, b: int, c: int)
    requires b > 0 && a >= b * c
    ensures a / b >= c
  {
    DivBounds(a, b);
    if a / b < c {
      MulMono(a / b, c - 1, b);
    }
  }

  lemma MulMono(a: int, b: int, c: int)
    requires a <= b && c >= 0
    ensures a * c <= b * c
  {
  }

  lemma SmallQuotient(a: int, b: int)
    requires 0 <= a < b
    ensures a / b == 0
  {
    DivAtLeast(a, b, 0);
    DivBounds(a, b);
    if a / b > 0 {
      MulMono(1, a / b, b);
    }
  }

  /** Truncated shares of a whole do not exceed it. */
  lemma SharesFit(whole: int, left: int, part: int, full: int)
    requires full > 0 && whole >= 0 && left >= 0 && part >= 0 && left + part <= full
    ensures 0 <= whole * left / full && 0 <= whole * part / full
    ensures whole * left / full + whole * part / full <= whole
  {
    var a, b := whole * left / full, whole * part / full;
    NonNegative(whole, left);
    NonNegative(whole, part);
    DivAtLeast(whole * left, full, 0);
    DivAtLeast(whole * part, full, 0);
    DivBounds(whole * left, full);
    DivBounds(whole * part, full);
    Distribute(a, b, full);
    Distribute(left, part, whole);
    MulMono(left + part, full, whole);
    Cancel(a + b, whole, full);
  }

  lemma NonNegative(a: int, b: int)
    requires a >= 0 && b >= 0
    ensures a * b >= 0
  {
  }

  lemma Distribute(a: int, b: int, c: int)
    ensures (a + b) * c == a * c + b * c
  {
  }

  lemma Cancel(a: int, b: int, c: int)
    requires c > 0 && a * c <= b * c
    ensures a <= b
  {
    if a > b {
      MulMono(b + 1, a, c);
    }
  }

  /** share is part of whole as cut is part of full, rounded down. */
  predicate IsShare(share: int, whole: int, cut: int, full: int) {
    share * full <= whole * cut < share * full + full
  }

  // ---------------------------------------------------------------- fits

  /** The frame is wider, for its height, than the target. */
  predicate Wider(frame: Frame, width: int, height: int) {
    frame.width * height > frame.height * width
  }

  /** The largest centred part of the target with the frame's shape, to the pixel, and at least one pixel. */
  function ContainTarget(frame: Frame, t: Rect): Rect
    requires frame.Usable()
  {
    var w, h := t.x2 - t.x1, t.y2 - t.y1;
    if Wider(frame, w, h) then
      var fitted := Max(1, w * frame.height / frame.width);
      var top := t.y1 + (h - fitted) / 2;
      Rect(t.x1, top, t.x2, top + fitted)
    else
      var fitted := Max(1, h * frame.width / frame.height);
      var left := t.x1 + (w - fitted) / 2;
      Rect(left, t.y1, left + fitted, t.y2)
  }

  lemma ContainedIsInTarget(frame: Frame, t: Rect)
    requires frame.Usable() && NonEmpty(t)
    ensures var c := ContainTarget(frame, t);
      && Within(c, t) && NonEmpty(c)
      && 0 <= (c.x1 - t.x1) <= (t.x2 - c.x2) <= (c.x1 - t.x1) + 1
      && 0 <= (c.y1 - t.y1) <= (t.y2 - c.y2) <= (c.y1 - t.y1) + 1
  {
    var w, h := t.x2 - t.x1, t.y2 - t.y1;
    if Wider(frame, w, h) {
      DivAtMost(w * frame.height, frame.width, h);
    } else {
      DivAtMost(h * frame.width, frame.height, w);
    }
  }

  /** Contain keeps one side of the target and gives the other the frame's proportions, to the pixel. */
  lemma ContainKeepsShape(frame: Frame, t: Rect)
    requires frame.Usable() && NonEmpty(t)
    ensures var c := ContainTarget(frame, t);
      var w, h, fittedW, fittedH := t.x2 - t.x1, t.y2 - t.y1, c.x2 - c.x1, c.y2 - c.y1;
      if Wider(frame, w, h) then fittedW == w && (fittedH == 1 || IsShare(fittedH, w, frame.height, frame.width))
                                 && (w * frame.height >= frame.width ==> IsShare(fittedH, w, frame.height, frame.width))
      else fittedH == h && (fittedW == 1 || IsShare(fittedW, h, frame.width, frame.height))
           && (h * frame.width >= frame.height ==> IsShare(fittedW, h, frame.width, frame.height))
  {
    var w, h := t.x2 - t.x1, t.y2 - t.y1;
    if Wider(frame, w, h) {
      DivBounds(w * frame.height, frame.width);
      if w * frame.height >= frame.width {
        DivAtLeast(w * frame.height, frame.width, 1);
      }
    } else {
      DivBounds(h * frame.width, frame.height);
      if h * frame.width >= frame.height {
        DivAtLeast(h * frame.width, frame.height, 1);
      }
    }
  }

  /** The part of the frame a cover shows, in 16.16: centred, of the target's shape to the pixel. */
  function CoverSource(frame: Frame, width: int, height: int): Window
    requires width > 0 && height > 0
  {
    var none := Rect(0, 0, 0, 0);
    if Wider(frame, width, height) then
      var cropped := frame.height * width / height;
      Window(none, (frame.width - cropped) * 0x8000, 0, cropped * ONE, frame.height * ONE)
    else
      var cropped := frame.width * height / width;
      Window(none, 0, (frame.height - cropped) * 0x8000, frame.width * ONE, cropped * ONE)
  }

  /** Cover keeps one side of the frame and cuts the other to the target's proportions, to the pixel. */
  lemma CoverKeepsShape(frame: Frame, width: int, height: int)
    requires frame.Usable() && width > 0 && height > 0
    ensures var s := CoverSource(frame, width, height);
      if Wider(frame, width, height) then
        s.height == frame.height * ONE && exists cropped :: s.width == cropped * ONE && IsShare(cropped, frame.height, width, height)
      else
        s.width == frame.width * ONE && exists cropped :: s.height == cropped * ONE && IsShare(cropped, frame.width, height, width)
  {
    if Wider(frame, width, height) {
      DivBounds(frame.height * width, height);
      assert IsShare(frame.height * width / height, frame.height, width, height);
    } else {
      DivBounds(frame.width * height, width);
      assert IsShare(frame.width * height / width, frame.width, height, width);
    }
  }

  predicate InFrame(w: Window, frame: Frame) {
    && 0 <= w.x && 0 <= w.width && w.x + w.width <= frame.width * ONE
    && 0 <= w.y && 0 <= w.height && w.y + w.height <= frame.height * ONE
  }

  lemma CoverSourceIsInFrame(frame: Frame, width: int, height: int)
    requires frame.Usable() && width > 0 && height > 0
    ensures var s := CoverSource(frame, width, height);
      && InFrame(s, frame)
      && 2 * s.x + s.width == frame.width * ONE && 2 * s.y + s.height == frame.height * ONE
  {
    if Wider(frame, width, height) {
      MulMono(0, width, frame.height);
      DivAtLeast(frame.height * width, height, 0);
      DivAtMost(frame.height * width, height, frame.width);
    } else {
      MulMono(0, height, frame.width);
      DivAtLeast(frame.width * height, width, 0);
      DivAtMost(frame.width * height, width, frame.height);
    }
  }

  // ---------------------------------------------------------------- the plan

  /** What the plane shows, before clipping. */
  function Fitted(frame: Frame, target: Rect, fit: Fit): Window
    requires frame.Usable() && NonEmpty(target)
  {
    var all := Window(target, 0, 0, frame.width * ONE, frame.height * ONE);
    match fit
    case Contain => all.(screen := ContainTarget(frame, target))
    case Cover => CoverSource(frame, target.x2 - target.x1, target.y2 - target.y1).(screen := target)
    case Stretch => all
  }

  lemma FittedIsSound(frame: Frame, target: Rect, fit: Fit)
    requires frame.Usable() && NonEmpty(target)
    ensures var f := Fitted(frame, target, fit);
      Within(f.screen, target) && NonEmpty(f.screen) && InFrame(f, frame)
  {
    ContainedIsInTarget(frame, target);
    CoverSourceIsInFrame(frame, target.x2 - target.x1, target.y2 - target.y1);
  }

  /**
   The plane's place lies in the requested rectangle and in the content band, and the source window lies
   in the frame, whatever the rectangle and whatever the rounding.  Unclipped, the window is the fitted one.
   */
  method PlanVideo(frame: Frame, target: Rect, content: Rect, fit: Fit) returns (plan: Plan)
    requires frame.Usable()
    ensures plan.Rejected? <==> !NonEmpty(target)
    ensures NonEmpty(target) ==>
              var fitted := Fitted(frame, target, fit);
              && (plan.OffScreen? <==> !NonEmpty(Intersection(fitted.screen, content)))
              && (plan.Shown? ==>
                    && plan.window.screen == Intersection(fitted.screen, content)
                    && Within(plan.window.screen, target) && Within(plan.window.screen, content)
                    && InFrame(plan.window, frame)
                    && fitted.x <= plan.window.x && plan.window.x + plan.window.width <= fitted.x + fitted.width
                    && fitted.y <= plan.window.y && plan.window.y + plan.window.height <= fitted.y + fitted.height)
              && (plan.Shown? && Within(fitted.screen, content) ==> plan.window == fitted)
              && (plan.Shown? ==> InProportion(plan.window, fitted))
  {
    var dstX1, dstY1, dstX2, dstY2 := target.x1, target.y1, target.x2, target.y2;
    if dstX2 <= dstX1 || dstY2 <= dstY1 {
      return Rejected;
    }
    FittedIsSound(frame, target, fit);
    var fullW, fullH := dstX2 - dstX1, dstY2 - dstY1;
    var srcBaseX, srcBaseY, srcBaseW, srcBaseH := 0, 0, frame.width * ONE, frame.height * ONE;
    if fit == Contain {
      if frame.width * fullH > frame.height * fullW {
        var fittedH := Max(1, fullW * frame.height / frame.width);
        dstY1 := dstY1 + (fullH - fittedH) / 2;
        dstY2 := dstY1 + fittedH;
      } else {
        var fittedW := Max(1, fullH * frame.width / frame.height);
        dstX1 := dstX1 + (fullW - fittedW) / 2;
        dstX2 := dstX1 + fittedW;
      }
      fullW := dstX2 - dstX1;
      fullH := dstY2 - dstY1;
    } else if fit == Cover {
      if frame.width * fullH > frame.height * fullW {
        var croppedWidth := frame.height * fullW / fullH;
        srcBaseX := (frame.width - croppedWidth) * 0x8000;
        srcBaseW := croppedWidth * ONE;
      } else {
        var croppedHeight := frame.width * fullH / fullW;
        srcBaseY := (frame.height - croppedHeight) * 0x8000;
        srcBaseH := croppedHeight * ONE;
      }
    }
    ghost var fitted := Fitted(frame, target, fit);
    assert fitted == Window(Rect(dstX1, dstY1, dstX2, dstY2), srcBaseX, srcBaseY, srcBaseW, srcBaseH);
    plan := Clip(Window(Rect(dstX1, dstY1, dstX2, dstY2), srcBaseX, srcBaseY, srcBaseW, srcBaseH), content);
  }

  /** What is cut off the fitted plane on the screen is cut off its source window, to 1/65536 of a pixel. */
  predicate InProportion(window: Window, fitted: Window) {
    var w, h := fitted.screen.x2 - fitted.screen.x1, fitted.screen.y2 - fitted.screen.y1;
    && IsShare(window.x - fitted.x, fitted.width, window.screen.x1 - fitted.screen.x1, w)
    && IsShare(window.y - fitted.y, fitted.height, window.screen.y1 - fitted.screen.y1, h)
    && IsShare(window.width, fitted.width, window.screen.x2 - window.screen.x1, w)
    && IsShare(window.height, fitted.height, window.screen.y2 - window.screen.y1, h)
  }

  /** The fitted plane cut to the content band; the source window follows in proportion. */
  method Clip(fitted: Window, content: Rect) returns (plan: Plan)
    requires NonEmpty(fitted.screen) && fitted.width >= 0 && fitted.height >= 0
    ensures !plan.Rejected?
    ensures plan.OffScreen? <==> !NonEmpty(Intersection(fitted.screen, content))
    ensures plan.Shown? ==>
              && plan.window.screen == Intersection(fitted.screen, content)
              && fitted.x <= plan.window.x && 0 <= plan.window.width && plan.window.x + plan.window.width <= fitted.x + fitted.width
              && fitted.y <= plan.window.y && 0 <= plan.window.height && plan.window.y + plan.window.height <= fitted.y + fitted.height
    ensures plan.Shown? && Within(fitted.screen, content) ==> plan.window == fitted
    ensures plan.Shown? ==> InProportion(plan.window, fitted)
  {
    var dst := fitted.screen;
    var fullW, fullH := dst.x2 - dst.x1, dst.y2 - dst.y1;
    var clipX1 := Max(dst.x1, content.x1);
    var clipY1 := Max(dst.y1, content.y1);
    var clipX2 := Min(dst.x2, content.x2);
    var clipY2 := Min(dst.y2, content.y2);
    if clipX2 <= clipX1 || clipY2 <= clipY1 {
      return OffScreen;
    }
    SharesFit(fitted.width, clipX1 - dst.x1, clipX2 - clipX1, fullW);
    SharesFit(fitted.height, clipY1 - dst.y1, clipY2 - clipY1, fullH);
    Whole(fitted.width, fullW);
    Whole(fitted.height, fullH);
    DivBounds(fitted.width * (clipX1 - dst.x1), fullW);
    DivBounds(fitted.height * (clipY1 - dst.y1), fullH);
    DivBounds(fitted.width * (clipX2 - clipX1), fullW);
    DivBounds(fitted.height * (clipY2 - clipY1), fullH);
    var srcX := fitted.x + fitted.width * (clipX1 - dst.x1) / fullW;
    var srcY := fitted.y + fitted.height * (clipY1 - dst.y1) / fullH;
    var srcW := fitted.width * (clipX2 - clipX1) / fullW;
    var srcH := fitted.height * (clipY2 - clipY1) / fullH;
    return Shown(Window(Rect(clipX1, clipY1, clipX2, clipY2), srcX, srcY, srcW, srcH));
  }

  lemma Whole(whole: int, full: int)
    requires full > 0 && whole >= 0
    ensures whole * full / full == whole && whole * 0 / full == 0
  {
    DivAtLeast(whole * full, full, whole);
    DivAtMost(whole * full, full, whole);
  }

  /** Cover shows an empty part of the frame exactly when the target is so narrow or so flat that not one pixel fits. */
  lemma CoverCollapses(frame: Frame, width: int, height: int)
    requires frame.Usable() && width > 0 && height > 0
    ensures var s := CoverSource(frame, width, height);
      (s.width == 0 || s.height == 0) <==> frame.height * width < height || frame.width * height < width
  {
    MulMono(1, frame.height, width);
    MulMono(1, frame.width, height);
    if Wider(frame, width, height) {
      if frame.height * width < height {
        SmallQuotient(frame.height * width, height);
      } else {
        DivAtLeast(frame.height * width, height, 1);
      }
    } else {
      if frame.width * height < width {
        SmallQuotient(frame.width * height, width);
      } else {
        DivAtLeast(frame.width * height, width, 1);
      }
    }
  }

  /** A frame 16 pixels high over a target one pixel wide and 17 high. */
  lemma NarrowTargetShowsNothing()
    ensures CoverSource(Frame(16, 16), 1, 17).width == 0
  {
    CoverCollapses(Frame(16, 16), 1, 17);
  }

  // ---------------------------------------------------------------- the place on the screen

  datatype Mode = Mode(hdisplay: nat, vdisplay: nat)

  /** As much as the mode has room for, centred unless another column is configured; -1 for none. */
  function Band(mode: Mode, width: nat, height: nat, configuredX: int): Rect {
    var w, h := Min(width, mode.hdisplay), Min(height, mode.vdisplay);
    var x := if configuredX >= 0 then Min(configuredX, mode.hdisplay - w) else (mode.hdisplay - w) / 2;
    var y := (mode.vdisplay - h) / 2;
    Rect(x, y, x + w, y + h)
  }

  /**
   The requested page rectangle on the screen, and the band of the screen that shows the page: both moved
   by the same offset, and the band inside the mode.
   */
  method PlaceOnScreen(page: Rect, panel: Panel, rotation: OutputRotation, topInset: nat, mode: Mode, native: bool,
                       configuredX: int) returns (target: Rect, content: Rect)
    ensures Within(content, Rect(0, 0, mode.hdisplay, mode.vdisplay)) && content.x1 <= content.x2 && content.y1 <= content.y2
    ensures var image := RotatedDestRect(page, panel, rotation, topInset);
      var dx, dy := (if native then content.x1 else 0), if native then content.y1 else 0;
      target == Rect(image.x1 + dx, image.y1 + dy, image.x2 + dx, image.y2 + dy)
    ensures native ==> content == Band(mode, RotatedWidth(panel, rotation), RotatedHeight(panel, rotation), configuredX)
    ensures !native ==> content == Rect(0, 0, mode.hdisplay, mode.vdisplay)
  {
    var rect := RotatedDestRect(page, panel, rotation, topInset);
    var offsetX, offsetY := 0, 0;
    content := Rect(0, 0, mode.hdisplay, mode.vdisplay);
    if native {
      var fbW := Min(RotatedWidth(panel, rotation), mode.hdisplay);
      var fbH := Min(RotatedHeight(panel, rotation), mode.vdisplay);
      var maxX := if mode.hdisplay > fbW then mode.hdisplay - fbW else 0;
      offsetX := if configuredX >= 0 then Min(configuredX, maxX) else maxX / 2;
      offsetY := if mode.vdisplay > fbH then (mode.vdisplay - fbH) / 2 else 0;
      content := Rect(offsetX, offsetY, offsetX + fbW, offsetY + fbH);
    }
    target := Rect(rect.x1 + offsetX, rect.y1 + offsetY, rect.x2 + offsetX, rect.y2 + offsetY);
  }

  /** With frames up to 16384 pixels and coordinates of 26 bits, no product leaves 64 bits. */
  lemma FitsIn64Bits(frame: Frame, size: int, part: int)
    requires 0 < frame.width <= 0x4000 && 0 < frame.height <= 0x4000
    requires 0 <= part <= size <= 0x400_0000
    ensures frame.width * ONE * part < 0x1_0000_0000_0000_0000 && frame.height * ONE * part < 0x1_0000_0000_0000_0000
    ensures frame.width * size < 0x8000_0000_0000_0000 && frame.height * size < 0x8000_0000_0000_0000
  {
    MulMono(frame.width * ONE, 0x4000 * ONE, part);
    MulMono(frame.height * ONE, 0x4000 * ONE, part);
    MulMono(frame.width, 0x4000, size);
    MulMono(frame.height, 0x4000, size);
  }
}
