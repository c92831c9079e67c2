/**
 The hole in the page and the plane that shows through it: videoOverlayPunchHole and videoOverlayCommit
 take the same rectangle and meet on the screen only if the page's own plane is placed as they expect.
 */
module VideoHole {
  import opened RotationKernels
  import opened ScanoutBuffer
  import opened Wrappers
  import opened VideoCrop

  datatype PageFit = PanelNative | StretchToMode | KeepAspect

  /** At least one pixel, and otherwise to the nearest. */
  function Scaled(size: nat, scale: real): int {
    Max(1, (size as real * scale + 0.5).Floor)
  }

  function Ratio(whole: nat, size: nat): real
    requires size > 0
  {
    whole as real / size as real
  }

  /** destinationRectForBuffer: where the page's plane is on the screen. */
  function DestinationRect(mode: Mode, width: nat, height: nat, fit: PageFit, configuredX: int): Rect {
    if fit == PanelNative then Band(mode, width, height, configuredX)
    else if fit == StretchToMode || width == 0 || height == 0 then Rect(0, 0, mode.hdisplay, mode.vdisplay)
    else
      var scaleX, scaleY := Ratio(mode.hdisplay, width), Ratio(mode.vdisplay, height);
      var scale := if scaleX < scaleY then scaleX else scaleY;
      var w, h := Scaled(width, scale), Scaled(height, scale);
      var x, y := (mode.hdisplay - w) / 2, (mode.vdisplay - h) / 2;
      Rect(x, y, x + w, y + h)
  }

  /** Where a column, or a row, of a framebuffer of the given size begins on the screen. */
  function Edge(start: int, end: int, size: nat, i: int): real
    requires size > 0
  {
    start as real + i as real * (end - start) as real / size as real
  }

  /** Every framebuffer column and row begins where the overlay believes it does. */
  ghost predicate Aligned(page: Rect, width: nat, height: nat, offset: Point)
    requires width > 0 && height > 0
  {
    && (forall i :: Edge(page.x1, page.x2, width, i) == (offset.x + i) as real)
    && (forall i :: Edge(page.y1, page.y2, height, i) == (offset.y + i) as real)
  }

  /** videoOverlayCommit follows the page only when it is not scaled. */
  function OverlayOffset(mode: Mode, width: nat, height: nat, fit: PageFit, configuredX: int): Point {
    if fit == PanelNative then
      var band := Band(mode, width, height, configuredX);
      Point(band.x1, band.y1)
    else Point(0, 0)
  }

  lemma EdgesAligned(start: int, end: int, size: nat, offset: int)
    requires size > 0
    ensures (forall i :: Edge(start, end, size, i) == (offset + i) as real) <==> start == offset && end - start == size
  {
    if forall i :: Edge(start, end, size, i) == (offset + i) as real {
      assert Edge(start, end, size, 0) == offset as real;
      assert Edge(start, end, size, size) == (offset + size) as real;
      assert Edge(start, end, size, size) == start as real + (end - start) as real;
    }
    if start == offset && end - start == size {
      forall i
        ensures Edge(start, end, size, i) == (offset + i) as real
      {
        WholeShare(i as real, size as real);
      }
    }
  }

  lemma WholeShare(a: real, b: real)
    requires b > 0.0
    ensures a * b / b == a
  {
  }

  lemma RatioFacts(whole: nat, size: nat)
    requires size > 0
    ensures Ratio(whole, size) == 1.0 <==> whole == size
    ensures Ratio(whole, size) < 1.0 <==> whole < size
    ensures whole > 0 ==> Scaled(size, Ratio(whole, size)) == whole
    ensures Scaled(size, 1.0) == size
  {
    var r, s := Ratio(whole, size), size as real;
    assert s * r == whole as real;
    if r < 1.0 {
      Scaling(r, 1.0, s);
    } else if r > 1.0 {
      Scaling(1.0, r, s);
    }
  }

  lemma Scaling(a: real, b: real, c: real)
    requires a < b && c > 0.0
    ensures c * a < c * b
  {
  }

  lemma AspectFit(mode: Mode, width: nat, height: nat)
    requires width > 0 && height > 0 && mode.hdisplay > 0 && mode.vdisplay > 0
    ensures DestinationRect(mode, width, height, KeepAspect, -1) == Rect(0, 0, width, height) <==>
              || (width == mode.hdisplay && 0 <= mode.vdisplay - height <= 1)
              || (height == mode.vdisplay && 0 <= mode.hdisplay - width <= 1)
  {
    hide Ratio, Scaled;
    RatioFacts(mode.hdisplay, width);
    RatioFacts(mode.vdisplay, height);
  }

  /** The overlay follows the page exactly when the page is shown pixel by pixel, and where it expects it. */
  lemma AlignedExactly(mode: Mode, width: nat, height: nat, fit: PageFit, configuredX: int)
    requires width > 0 && height > 0 && mode.hdisplay > 0 && mode.vdisplay > 0
    ensures var page := DestinationRect(mode, width, height, fit, configuredX);
      Aligned(page, width, height, OverlayOffset(mode, width, height, fit, configuredX)) <==>
        match fit
        case PanelNative => width <= mode.hdisplay && height <= mode.vdisplay
        case StretchToMode => width == mode.hdisplay && height == mode.vdisplay
        case KeepAspect =>
          || (width == mode.hdisplay && 0 <= mode.vdisplay - height <= 1)
          || (height == mode.vdisplay && 0 <= mode.hdisplay - width <= 1)
  {
    hide Edge;
    var page := DestinationRect(mode, width, height, fit, configuredX);
    var offset := OverlayOffset(mode, width, height, fit, configuredX);
    EdgesAligned(page.x1, page.x2, width, offset.x);
    EdgesAligned(page.y1, page.y2, height, offset.y);
    AspectFit(mode, width, height);
  }

  /** On a screen twice as large the hole of a stretched page is twice as large, and the video is not. */
  lemma StretchedPageMisses()
    ensures var mode := Mode(480, 960);
      !Aligned(DestinationRect(mode, 240, 480, StretchToMode, -1), 240, 480, OverlayOffset(mode, 240, 480, StretchToMode, -1))
  {
    AlignedExactly(Mode(480, 960), 240, 480, StretchToMode, -1);
  }

  /** What PlanVideo and PlaceOnScreen settle for a rectangle's image in the framebuffer. */
  ghost predicate Planned(image: Rect, target: Rect, content: Rect, offset: Point, frame: Frame, fit: Fit, plan: Plan)
    requires frame.Usable()
  {
    && target == Rect(image.x1 + offset.x, image.y1 + offset.y, image.x2 + offset.x, image.y2 + offset.y)
    && (plan.Rejected? <==> !NonEmpty(target))
    && (NonEmpty(target) ==>
          var fitted := Fitted(frame, target, fit).screen;
          && (plan.OffScreen? <==> !NonEmpty(Intersection(fitted, content)))
          && (plan.Shown? ==> plan.window.screen == Intersection(fitted, content) && Within(plan.window.screen, target)))
  }

  predicate Covers(plan: Plan, offset: Point, d: Point) {
    plan.Shown? && plan.window.screen.Contains(Point(offset.x + d.x, offset.y + d.y))
  }

  /** Where the hole's image and the video's plane agree, for framebuffer places that the content band shows. */
  lemma VideoCoversHole(image: Rect, target: Rect, content: Rect, offset: Point, frame: Frame, fit: Fit, plan: Plan, d: Point)
    requires frame.Usable() && Planned(image, target, content, offset, frame, fit, plan)
    requires content.Contains(Point(offset.x + d.x, offset.y + d.y))
    ensures Covers(plan, offset, d) ==> image.Contains(d)
    ensures fit != Contain ==> (Covers(plan, offset, d) <==> image.Contains(d))
  {
  }

  lemma ContentShowsPage(mode: Mode, width: nat, height: nat, fit: PageFit, configuredX: int, content: Rect, d: Point)
    requires width > 0 && height > 0 && mode.hdisplay > 0 && mode.vdisplay > 0
    requires content == if fit == PanelNative then Band(mode, width, height, configuredX)
                        else Rect(0, 0, mode.hdisplay, mode.vdisplay)
    requires Aligned(DestinationRect(mode, width, height, fit, configuredX), width, height,
                     OverlayOffset(mode, width, height, fit, configuredX))
    requires Rect(0, 0, width, height).Contains(d)
    ensures var offset := OverlayOffset(mode, width, height, fit, configuredX);
      content.Contains(Point(offset.x + d.x, offset.y + d.y))
  {
    hide Aligned, DestinationRect;
    AlignedExactly(mode, width, height, fit, configuredX);
  }

  /**
   The hole is punched and the video placed for one rectangle of the page.  On an aligned page a pixel
   becomes transparent exactly where the video is; over a contained video, which may be smaller, at least
   there.  On a panel-native page no video is outside the page.
   */
  method ShowVideo(buffer: DRMScanoutBuffer, page: Rect, panel: Panel, rotation: OutputRotation, topInset: nat,
                   mode: Mode, pageFit: PageFit, configuredX: int, frame: Frame, videoFit: Fit)
    returns (punched: bool, plan: Plan)
    requires buffer.Valid() && frame.Usable()
    requires buffer.width == RotatedWidth(panel, rotation) > 0 && buffer.height == RotatedHeight(panel, rotation) > 0
    requires mode.hdisplay > 0 && mode.vdisplay > 0
    modifies buffer.mapping
    ensures var offset := OverlayOffset(mode, buffer.width, buffer.height, pageFit, configuredX);
      punched && Aligned(DestinationRect(mode, buffer.width, buffer.height, pageFit, configuredX), buffer.width, buffer.height, offset) ==>
        forall y, x :: 0 <= y < buffer.height && 0 <= x < buffer.width ==>
          && (Covers(plan, offset, Point(x, y)) ==> buffer.mapping[y, x] == Transparent(old(buffer.mapping[y, x])))
          && (!Covers(plan, offset, Point(x, y)) && videoFit != Contain ==> buffer.mapping[y, x] == old(buffer.mapping[y, x]))
    ensures buffer.reachable == Always(true) && buffer.argb && !buffer.scanoutOwned && !punched ==>
              forall y, x :: 0 <= y < buffer.height && 0 <= x < buffer.width ==>
                !Rect(page.x1, page.y1, page.x2, page.y2).Contains(SourceOf(rotation, panel, topInset, Point(x, y)))
    ensures pageFit == PanelNative && plan.Shown? ==>
              Within(plan.window.screen, DestinationRect(mode, buffer.width, buffer.height, pageFit, configuredX))
  {
    hide SourceOf, RotatedDestRect, Transparent, Aligned, RotatedWidth, RotatedHeight, Fitted, NonEmpty, Intersection, Within,
         Covers, Band, Scaled;
    var target, content := PlaceOnScreen(page, panel, rotation, topInset, mode, pageFit == PanelNative, configuredX);
    plan := PlanVideo(frame, target, content, videoFit);
    punched := buffer.PunchTransparentRect(page.x1, page.y1, page.x2, page.y2, panel, rotation, topInset);
    ghost var offset := OverlayOffset(mode, buffer.width, buffer.height, pageFit, configuredX);
    ghost var image := RotatedDestRect(page, panel, rotation, topInset);
    assert Planned(image, target, content, offset, frame, videoFit, plan);
    hide Planned;
    if Aligned(DestinationRect(mode, buffer.width, buffer.height, pageFit, configuredX), buffer.width, buffer.height, offset) {
      forall d: Point | Rect(0, 0, buffer.width, buffer.height).Contains(d)
        ensures Covers(plan, offset, d) ==> page.Contains(SourceOf(rotation, panel, topInset, d))
        ensures videoFit != Contain ==> (Covers(plan, offset, d) <==> page.Contains(SourceOf(rotation, panel, topInset, d)))
      {
        ContentShowsPage(mode, buffer.width, buffer.height, pageFit, configuredX, content, d);
        DestRectIsImage(page, panel, rotation, topInset, d);
        VideoCoversHole(image, target, content, offset, frame, videoFit, plan, d);
      }
    }
  }
}
