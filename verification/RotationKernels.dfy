/**
 Turning and placing pages in framebuffers: the kernels of DRMGeometry and DRMFramePixels, proved
 against one pointwise map between the framebuffer and the panel.

 A framebuffer is a matrix of pixels, row by row; its second dimension is the pitch, so there may be
 padding beyond the visible width.
 */
module RotationKernels {

  type Pixel = bv32

  const BLACK: Pixel := 0xff00_0000

  datatype OutputRotation = Rotate0 | Rotate90 | Rotate180 | Rotate270

  datatype Point = Point(x: int, y: int)

  /** Right and bottom edges are exclusive. */
  datatype Rect = Rect(x1: int, y1: int, x2: int, y2: int)
  {
    predicate Contains(p: Point) {
      x1 <= p.x < x2 && y1 <= p.y < y2
    }
  }

  datatype Panel = Panel(width: nat, height: nat)

  function Min(a: int, b: int): int {
    if a < b then a else b
  }

  function Max(a: int, b: int): int {
    if a < b then b else a
  }

  function Clamp(value: int, low: int, high: int): int {
    if value < low then low else if high < value then high else value
  }

  // ---------------------------------------------------------------- the pointwise map

  /** Where a panel point is drawn. */
  function ToScreen(rotation: OutputRotation, panel: Panel, p: Point): Point {
    match rotation
    case Rotate0 => p
    case Rotate90 => Point(panel.height - 1 - p.y, p.x)
    case Rotate180 => Point(panel.width - 1 - p.x, panel.height - 1 - p.y)
    case Rotate270 => Point(p.y, panel.width - 1 - p.x)
  }

  /** The panel point drawn at a place of the framebuffer. */
  function ToPanel(rotation: OutputRotation, panel: Panel, d: Point): Point {
    match rotation
    case Rotate0 => d
    case Rotate90 => Point(d.y, panel.height - 1 - d.x)
    case Rotate180 => Point(panel.width - 1 - d.x, panel.height - 1 - d.y)
    case Rotate270 => Point(panel.width - 1 - d.y, d.x)
  }

  function RotatedWidth(panel: Panel, rotation: OutputRotation): nat {
    if rotation == Rotate90 || rotation == Rotate270 then panel.height else panel.width
  }

  function RotatedHeight(panel: Panel, rotation: OutputRotation): nat {
    if rotation == Rotate90 || rotation == Rotate270 then panel.width else panel.height
  }

  /** A panel point seen from a page that starts inset rows below the top of the panel. */
  function Below(p: Point, inset: nat): Point {
    Point(p.x, p.y - inset)
  }

  /** The image of a page rectangle, inset rows below the top of the panel. */
  function RotatedDestRect(r: Rect, panel: Panel, rotation: OutputRotation, inset: nat): Rect {
    match rotation
    case Rotate0 => Rect(r.x1, r.y1 + inset, r.x2, r.y2 + inset)
    case Rotate90 => Rect(panel.height - inset - r.y2, r.x1, panel.height - inset - r.y1, r.x2)
    case Rotate180 => Rect(panel.width - r.x2, panel.height - inset - r.y2, panel.width - r.x1, panel.height - inset - r.y1)
    case Rotate270 => Rect(inset + r.y1, panel.width - r.x2, inset + r.y2, panel.width - r.x1)
  }

  /** The source pixel a framebuffer place shows: the page is inset rows below the top of the panel. */
  function SourceOf(rotation: OutputRotation, panel: Panel, inset: nat, d: Point): Point {
    Below(ToPanel(rotation, panel, d), inset)
  }

  /** The map is one to one, between the panel and the visible part of the framebuffer. */
  lemma MapIsBijective(rotation: OutputRotation, panel: Panel, p: Point, d: Point)
    ensures ToPanel(rotation, panel, ToScreen(rotation, panel, p)) == p
    ensures ToScreen(rotation, panel, ToPanel(rotation, panel, d)) == d
    ensures Rect(0, 0, panel.width, panel.height).Contains(p) <==>
              Rect(0, 0, RotatedWidth(panel, rotation), RotatedHeight(panel, rotation)).Contains(ToScreen(rotation, panel, p))
  {
  }

  /** RotatedDestRect is exactly the image of the rectangle under the pointwise map. */
  lemma DestRectIsImage(r: Rect, panel: Panel, rotation: OutputRotation, inset: nat, d: Point)
    ensures RotatedDestRect(r, panel, rotation, inset).Contains(d) <==>
              r.Contains(SourceOf(rotation, panel, inset, d))
  {
  }

  /** A page rectangle that fits the panel is drawn inside the framebuffer. */
  lemma DestRectIsVisible(r: Rect, panel: Panel, rotation: OutputRotation, inset: nat)
    requires 0 <= r.x1 <= r.x2 <= panel.width && 0 <= r.y1 <= r.y2 && r.y2 + inset <= panel.height
    ensures var s := RotatedDestRect(r, panel, rotation, inset);
      && 0 <= s.x1 <= s.x2 <= RotatedWidth(panel, rotation) && 0 <= s.y1 <= s.y2 <= RotatedHeight(panel, rotation)
  {
  }

  // ---------------------------------------------------------------- fills

  /** The framebuffer holds what is visible of the panel. */
  predicate Holds(destination: array2<Pixel>, panel: Panel, rotation: OutputRotation) {
    RotatedWidth(panel, rotation) <= destination.Length1 && RotatedHeight(panel, rotation) <= destination.Length0
  }

  method FillRow(destination: array2<Pixel>, y: nat, from: nat, until: nat, color: Pixel)
    requires y < destination.Length0 && from <= until <= destination.Length1
    modifies destination
    ensures forall dy, dx :: 0 <= dy < destination.Length0 && 0 <= dx < destination.Length1 ==>
              destination[dy, dx] == if dy == y && from <= dx < until then color else old(destination[dy, dx])
  {
    for x := from to until
      invariant forall dy, dx :: 0 <= dy < destination.Length0 && 0 <= dx < destination.Length1 ==>
                  destination[dy, dx] == if dy == y && from <= dx < x then color else old(destination[dy, dx])
    {
      destination[y, x] := color;
    }
  }

  method FillARGB8888(destination: array2<Pixel>, width: nat, height: nat, color: Pixel)
    requires width <= destination.Length1 && height <= destination.Length0
    modifies destination
    ensures forall dy, dx :: 0 <= dy < destination.Length0 && 0 <= dx < destination.Length1 ==>
              destination[dy, dx] == if dy < height && dx < width then color else old(destination[dy, dx])
  {
    for y := 0 to height
      invariant forall dy, dx :: 0 <= dy < destination.Length0 && 0 <= dx < destination.Length1 ==>
                  destination[dy, dx] == if dy < y && dx < width then color else old(destination[dy, dx])
    {
      FillRow(destination, y, 0, width, color);
    }
  }

  /** Fills the rows of a rectangle that lies in the framebuffer. */
  method FillScreenRect(destination: array2<Pixel>, r: Rect, color: Pixel)
    requires 0 <= r.x1 <= r.x2 <= destination.Length1 && 0 <= r.y1 <= r.y2 <= destination.Length0
    modifies destination
    ensures forall dy, dx :: 0 <= dy < destination.Length0 && 0 <= dx < destination.Length1 ==>
              destination[dy, dx] == if r.Contains(Point(dx, dy)) then color else old(destination[dy, dx])
  {
    for y := r.y1 to r.y2
      invariant forall dy, dx :: 0 <= dy < destination.Length0 && 0 <= dx < destination.Length1 ==>
                  destination[dy, dx] == if r.(y2 := y).Contains(Point(dx, dy)) then color else old(destination[dy, dx])
    {
      FillRow(destination, y, r.x1, r.x2, color);
    }
  }

  /** Fills exactly the image of a panel rectangle. */
  method FillRotatedPanelRect(destination: array2<Pixel>, panel: Panel, rotation: OutputRotation,
                              x1: nat, y1: nat, x2: nat, y2: nat, color: Pixel)
    requires Holds(destination, panel, rotation) && x2 <= panel.width && y2 <= panel.height
    modifies destination
    ensures forall dy, dx :: 0 <= dy < destination.Length0 && 0 <= dx < destination.Length1 ==>
              destination[dy, dx] == if Rect(x1, y1, x2, y2).Contains(ToPanel(rotation, panel, Point(dx, dy))) then color
                                     else old(destination[dy, dx])
  {
    if x2 <= x1 || y2 <= y1 {
      return;
    }
    var rect := RotatedDestRect(Rect(x1, y1, x2, y2), panel, rotation, 0);
    DestRectIsVisible(Rect(x1, y1, x2, y2), panel, rotation, 0);
    FillScreenRect(destination, rect, color);
    forall dy, dx | 0 <= dy < destination.Length0 && 0 <= dx < destination.Length1
      ensures destination[dy, dx] == if Rect(x1, y1, x2, y2).Contains(ToPanel(rotation, panel, Point(dx, dy))) then color
                                     else old(destination[dy, dx])
    {
      DestRectIsImage(Rect(x1, y1, x2, y2), panel, rotation, 0, Point(dx, dy));
    }
  }

  /** Fills everything visible but one rectangle. */
  method ClearOutsideARGB8888(pixels: array2<Pixel>, width: nat, height: nat, x: nat, y: nat,
                              pageWidth: nat, pageHeight: nat, color: Pixel)
    requires width <= pixels.Length1 && height <= pixels.Length0
    modifies pixels
    ensures forall dy, dx :: 0 <= dy < pixels.Length0 && 0 <= dx < pixels.Length1 ==>
              pixels[dy, dx] ==
              if dy < height && dx < width && !Rect(x, y, x + pageWidth, y + pageHeight).Contains(Point(dx, dy)) then color
              else old(pixels[dy, dx])
  {
    var x0 := Min(x, width);
    var y0 := Min(y, height);
    var x1 := x0 + Min(pageWidth, width - x0);
    var y1 := y0 + Min(pageHeight, height - y0);
    for row := 0 to height
      invariant forall dy, dx :: 0 <= dy < pixels.Length0 && 0 <= dx < pixels.Length1 ==>
                  pixels[dy, dx] ==
                  if dy < row && dx < width && !Rect(x0, y0, x1, y1).Contains(Point(dx, dy)) then color
                  else old(pixels[dy, dx])
    {
      if row < y0 || row >= y1 {
        FillRow(pixels, row, 0, width, color);
      } else {
        FillRow(pixels, row, 0, x0, color);
        FillRow(pixels, row, x1, width, color);
      }
    }
  }

  // ---------------------------------------------------------------- copies

  lemma OneToOne(rotation: OutputRotation, panel: Panel, p: Point)
    ensures forall d :: ToPanel(rotation, panel, d) == p <==> d == ToScreen(rotation, panel, p)
  {
  }

  /** Writes one panel point. */
  method WritePanelPixel(destination: array2<Pixel>, panel: Panel, rotation: OutputRotation, p: Point, color: Pixel)
    requires Holds(destination, panel, rotation) && Rect(0, 0, panel.width, panel.height).Contains(p)
    modifies destination
    ensures forall dy, dx :: 0 <= dy < destination.Length0 && 0 <= dx < destination.Length1 ==>
              destination[dy, dx] == if ToPanel(rotation, panel, Point(dx, dy)) == p then color else old(destination[dy, dx])
  {
    hide ToPanel, ToScreen;
    OneToOne(rotation, panel, p);
    var d := ScreenPlace(rotation, panel, p);
    destination[d.y, d.x] := color;
  }

  method ScreenPlace(rotation: OutputRotation, panel: Panel, p: Point) returns (d: Point)
    ensures d == ToScreen(rotation, panel, p)
    ensures Rect(0, 0, panel.width, panel.height).Contains(p) ==>
              Rect(0, 0, RotatedWidth(panel, rotation), RotatedHeight(panel, rotation)).Contains(d)
  {
    d := p;
    match rotation {
      case Rotate0 =>
      case Rotate90 => d := Point(panel.height - 1 - p.y, p.x);
      case Rotate180 => d := Point(panel.width - 1 - p.x, panel.height - 1 - p.y);
      case Rotate270 => d := Point(p.y, panel.width - 1 - p.x);
    }
  }

  /** Writes one panel row; its pixels and no others. */
  method WriteRotatedPanelRow(source: array2<Pixel>, sourceY: nat, destination: array2<Pixel>, panel: Panel,
                              rotation: OutputRotation, panelY: nat, x0: nat, width: nat)
    requires Holds(destination, panel, rotation) && source != destination
    requires panelY < panel.height && x0 + width <= panel.width
    requires sourceY < source.Length0 && width <= source.Length1
    modifies destination
    ensures forall dy, dx :: 0 <= dy < destination.Length0 && 0 <= dx < destination.Length1 ==>
              var p := ToPanel(rotation, panel, Point(dx, dy));
              destination[dy, dx] == if p.y == panelY && x0 <= p.x < x0 + width then source[sourceY, p.x - x0]
                                     else old(destination[dy, dx])
  {
    hide ToPanel;
    for x := 0 to width
      invariant forall dy, dx :: 0 <= dy < destination.Length0 && 0 <= dx < destination.Length1 ==>
                  var p := ToPanel(rotation, panel, Point(dx, dy));
                  destination[dy, dx] == if p.y == panelY && x0 <= p.x < x0 + x then source[sourceY, p.x - x0]
                                         else old(destination[dy, dx])
    {
      WritePanelPixel(destination, panel, rotation, Point(x0 + x, panelY), source[sourceY, x]);
    }
  }

  const TILE_SIZE := 32

  predicate Covers(source: array2<Pixel>, p: Point) {
    0 <= p.x < source.Length1 && 0 <= p.y < source.Length0
  }

  function PixelAt(source: array2<Pixel>, p: Point): Pixel
    reads source
  {
    if Covers(source, p) then source[p.y, p.x] else BLACK
  }

  /** The rectangle of framebuffer places is filled, row by row, from the source pixels they show. */
  method RotateTile(source: array2<Pixel>, destination: array2<Pixel>, panel: Panel, rotation: OutputRotation, inset: nat,
                    tile: Rect)
    requires source != destination
    requires 0 <= tile.x1 <= tile.x2 <= destination.Length1 && 0 <= tile.y1 <= tile.y2 <= destination.Length0
    requires forall d :: tile.Contains(d) ==> Covers(source, SourceOf(rotation, panel, inset, d))
    modifies destination
    ensures forall dy, dx :: 0 <= dy < destination.Length0 && 0 <= dx < destination.Length1 ==>
              var s := SourceOf(rotation, panel, inset, Point(dx, dy));
              destination[dy, dx] == if tile.Contains(Point(dx, dy)) then PixelAt(source, s) else old(destination[dy, dx])
  {
    hide SourceOf;
    for y := tile.y1 to tile.y2
      invariant forall dy, dx :: 0 <= dy < destination.Length0 && 0 <= dx < destination.Length1 ==>
                  var s := SourceOf(rotation, panel, inset, Point(dx, dy));
                  destination[dy, dx] == if tile.(y2 := y).Contains(Point(dx, dy)) then PixelAt(source, s) else old(destination[dy, dx])
    {
      for x := tile.x1 to tile.x2
        invariant forall dy, dx :: 0 <= dy < destination.Length0 && 0 <= dx < destination.Length1 ==>
                    var s := SourceOf(rotation, panel, inset, Point(dx, dy));
                    destination[dy, dx] == if tile.(y2 := y).Contains(Point(dx, dy))
                                              || (dy == y && tile.(x2 := x).Contains(Point(dx, dy)))
                                           then PixelAt(source, s) else old(destination[dy, dx])
      {
        assert tile.Contains(Point(x, y));
        var s := SourceOf(rotation, panel, inset, Point(x, y));
        destination[y, x] := source[s.y, s.x];
      }
    }
  }

  /** A rectangle in tiles of 32 by 32: the same as in one piece. */
  method RotateTiled(source: array2<Pixel>, destination: array2<Pixel>, panel: Panel, rotation: OutputRotation, inset: nat,
                     area: Rect)
    requires source != destination
    requires 0 <= area.x1 <= area.x2 <= destination.Length1 && 0 <= area.y1 <= area.y2 <= destination.Length0
    requires forall d :: area.Contains(d) ==> Covers(source, SourceOf(rotation, panel, inset, d))
    modifies destination
    ensures forall dy, dx :: 0 <= dy < destination.Length0 && 0 <= dx < destination.Length1 ==>
              var s := SourceOf(rotation, panel, inset, Point(dx, dy));
              destination[dy, dx] == if area.Contains(Point(dx, dy)) then PixelAt(source, s) else old(destination[dy, dx])
  {
    hide SourceOf;
    var tileY := area.y1;
    while tileY < area.y2
      invariant area.y1 <= tileY
      invariant forall dy, dx :: 0 <= dy < destination.Length0 && 0 <= dx < destination.Length1 ==>
                  var s := SourceOf(rotation, panel, inset, Point(dx, dy));
                  destination[dy, dx] == if dy < tileY && area.Contains(Point(dx, dy)) then PixelAt(source, s) else old(destination[dy, dx])
    {
      var tileYEnd := Min(tileY + TILE_SIZE, area.y2);
      var tileX := area.x1;
      while tileX < area.x2
        invariant area.x1 <= tileX
        invariant forall dy, dx :: 0 <= dy < destination.Length0 && 0 <= dx < destination.Length1 ==>
                    var s := SourceOf(rotation, panel, inset, Point(dx, dy));
                    destination[dy, dx] == if (dy < tileY || (dy < tileYEnd && dx < tileX)) && area.Contains(Point(dx, dy))
                                           then PixelAt(source, s) else old(destination[dy, dx])
      {
        var tileXEnd := Min(tileX + TILE_SIZE, area.x2);
        RotateTile(source, destination, panel, rotation, inset, Rect(tileX, tileY, tileXEnd, tileYEnd));
        tileX := tileX + TILE_SIZE;
      }
      tileY := tileY + TILE_SIZE;
    }
  }

  /** One source row, row by row turned, without tiles. */
  method RotateRow(source: array2<Pixel>, destination: array2<Pixel>, panel: Panel, rotation: OutputRotation, inset: nat,
                   x0: nat, y: nat, width: nat)
    requires Holds(destination, panel, rotation) && source != destination
    requires x0 + width <= Min(panel.width, source.Length1) && y < source.Length0 && y + inset < panel.height
    modifies destination
    ensures forall dy, dx :: 0 <= dy < destination.Length0 && 0 <= dx < destination.Length1 ==>
              var s := SourceOf(rotation, panel, inset, Point(dx, dy));
              destination[dy, dx] == if Rect(x0, y, x0 + width, y + 1).Contains(s) then PixelAt(source, s) else old(destination[dy, dx])
  {
    hide ToPanel;
    for i := 0 to width
      invariant forall dy, dx :: 0 <= dy < destination.Length0 && 0 <= dx < destination.Length1 ==>
                  var s := SourceOf(rotation, panel, inset, Point(dx, dy));
                  var done := if rotation == Rotate180 then Rect(x0 + width - i, y, x0 + width, y + 1) else Rect(x0, y, x0 + i, y + 1);
                  destination[dy, dx] == if done.Contains(s) then PixelAt(source, s) else old(destination[dy, dx])
    {
      var x := if rotation == Rotate180 then x0 + width - 1 - i else x0 + i;
      WritePanelPixel(destination, panel, rotation, Point(x, y + inset), source[y, x]);
    }
  }

  /** Writes exactly the image of the source rectangle, each place with the source pixel the pointwise map gives it. */
  method RotateRegionARGB8888(source: array2<Pixel>, destination: array2<Pixel>, panel: Panel, rotation: OutputRotation,
                              topInset: nat, x0: nat, y0: nat, width: nat, height: nat)
    requires Holds(destination, panel, rotation) && source != destination
    requires x0 + width <= Min(panel.width, source.Length1) && y0 + height <= source.Length0
    requires y0 + height + topInset <= panel.height
    modifies destination
    ensures forall dy, dx :: 0 <= dy < destination.Length0 && 0 <= dx < destination.Length1 ==>
              var s := SourceOf(rotation, panel, topInset, Point(dx, dy));
              destination[dy, dx] == if Rect(x0, y0, x0 + width, y0 + height).Contains(s) then PixelAt(source, s)
                                     else old(destination[dy, dx])
  {
    if width == 0 || height == 0 {
      return;
    }
    if rotation == Rotate0 || rotation == Rotate180 {
      RotateRows(source, destination, panel, rotation, topInset, x0, y0, width, height);
      return;
    }
    var area := if rotation == Rotate90
      then Rect(panel.height - topInset - y0 - height, x0, panel.height - topInset - y0, x0 + width)
      else Rect(topInset + y0, panel.width - x0 - width, topInset + y0 + height, panel.width - x0);
    RotateArea(source, destination, panel, rotation, topInset, Rect(x0, y0, x0 + width, y0 + height), area);
  }

  method RotateArea(source: array2<Pixel>, destination: array2<Pixel>, panel: Panel, rotation: OutputRotation,
                    inset: nat, region: Rect, area: Rect)
    requires Holds(destination, panel, rotation) && source != destination
    requires area == RotatedDestRect(region, panel, rotation, inset)
    requires 0 <= region.x1 <= region.x2 <= Min(panel.width, source.Length1)
    requires 0 <= region.y1 <= region.y2 <= source.Length0 && region.y2 + inset <= panel.height
    modifies destination
    ensures forall dy, dx :: 0 <= dy < destination.Length0 && 0 <= dx < destination.Length1 ==>
              var s := SourceOf(rotation, panel, inset, Point(dx, dy));
              destination[dy, dx] == if region.Contains(s) then PixelAt(source, s) else old(destination[dy, dx])
  {
    hide SourceOf, RotatedDestRect, RotatedWidth, RotatedHeight, PixelAt;
    AreaIsImage(region, panel, rotation, inset, area);
    RotateTiled(source, destination, panel, rotation, inset, area);
  }

  lemma AreaIsImage(region: Rect, panel: Panel, rotation: OutputRotation, inset: nat, area: Rect)
    requires 0 <= region.x1 <= region.x2 <= panel.width && 0 <= region.y1 <= region.y2 && region.y2 + inset <= panel.height
    requires area == RotatedDestRect(region, panel, rotation, inset)
    ensures forall d :: area.Contains(d) <==> region.Contains(SourceOf(rotation, panel, inset, d))
    ensures 0 <= area.x1 <= area.x2 <= RotatedWidth(panel, rotation) && 0 <= area.y1 <= area.y2 <= RotatedHeight(panel, rotation)
  {
    DestRectIsVisible(region, panel, rotation, inset);
    hide SourceOf, RotatedDestRect;
    forall d
      ensures area.Contains(d) <==> region.Contains(SourceOf(rotation, panel, inset, d))
    {
      DestRectIsImage(region, panel, rotation, inset, d);
    }
  }

  method RotateRows(source: array2<Pixel>, destination: array2<Pixel>, panel: Panel, rotation: OutputRotation,
                    topInset: nat, x0: nat, y0: nat, width: nat, height: nat)
    requires Holds(destination, panel, rotation) && source != destination
    requires x0 + width <= Min(panel.width, source.Length1) && y0 + height <= source.Length0
    requires y0 + height + topInset <= panel.height
    modifies destination
    ensures forall dy, dx :: 0 <= dy < destination.Length0 && 0 <= dx < destination.Length1 ==>
              var s := SourceOf(rotation, panel, topInset, Point(dx, dy));
              destination[dy, dx] == if Rect(x0, y0, x0 + width, y0 + height).Contains(s) then PixelAt(source, s)
                                     else old(destination[dy, dx])
  {
    hide SourceOf;
    for y := 0 to height
      invariant forall dy, dx :: 0 <= dy < destination.Length0 && 0 <= dx < destination.Length1 ==>
                  var s := SourceOf(rotation, panel, topInset, Point(dx, dy));
                  destination[dy, dx] == if Rect(x0, y0, x0 + width, y0 + y).Contains(s) then PixelAt(source, s) else old(destination[dy, dx])
    {
      RotateRow(source, destination, panel, rotation, topInset, x0, y0 + y, width);
    }
  }

  // ---------------------------------------------------------------- a whole page

  /** How much of a page is copied to a panel, inset rows below the top. */
  datatype Placement = Placement(width: nat, height: nat, available: nat)

  function Place(sourceWidth: nat, sourceHeight: nat, panel: Panel, inset: nat): Placement {
    var available := Max(0, panel.height - inset);
    Placement(Min(sourceWidth, panel.width), Min(sourceHeight, available), available)
  }

  /** What a panel point shows of a page: black in the inset and beside the page, the last row below it. */
  function PagePixel(source: array2<Pixel>, place: Placement, inset: nat, p: Point): Pixel
    reads source
  {
    if place.width == 0 || place.height == 0 || p.y < inset || p.x >= place.width then BLACK
    else PixelAt(source, Point(p.x, Min(p.y - inset, place.height - 1)))
  }

  predicate Visible(panel: Panel, rotation: OutputRotation, d: Point) {
    Rect(0, 0, RotatedWidth(panel, rotation), RotatedHeight(panel, rotation)).Contains(d)
  }

  lemma VisibleIsOnPanel(panel: Panel, rotation: OutputRotation)
    ensures forall d :: Visible(panel, rotation, d) <==> Rect(0, 0, panel.width, panel.height).Contains(ToPanel(rotation, panel, d))
  {
  }

  /** The band above the page and the one beside it. */
  method ClearMargins(destination: array2<Pixel>, panel: Panel, rotation: OutputRotation, topInset: nat, copyWidth: nat)
    requires Holds(destination, panel, rotation) && topInset <= panel.height && copyWidth <= panel.width
    modifies destination
    ensures forall dy, dx :: 0 <= dy < destination.Length0 && 0 <= dx < destination.Length1 ==>
              var p := ToPanel(rotation, panel, Point(dx, dy));
              destination[dy, dx] ==
              if Rect(0, 0, panel.width, panel.height).Contains(p) && (p.y < topInset || p.x >= copyWidth) then BLACK
              else old(destination[dy, dx])
  {
    hide ToPanel;
    FillRotatedPanelRect(destination, panel, rotation, 0, 0, panel.width, topInset, BLACK);
    if copyWidth < panel.width {
      FillRotatedPanelRect(destination, panel, rotation, copyWidth, topInset, panel.width, panel.height, BLACK);
    }
  }

  /** The page itself, and its last row repeated below it. */
  method DrawPage(source: array2<Pixel>, destination: array2<Pixel>, panel: Panel, rotation: OutputRotation, topInset: nat,
                  copyWidth: nat, copyHeight: nat)
    requires Holds(destination, panel, rotation) && source != destination
    requires copyWidth <= Min(panel.width, source.Length1) && 0 < copyHeight <= source.Length0
    requires topInset + copyHeight <= panel.height
    modifies destination
    ensures forall dy, dx :: 0 <= dy < destination.Length0 && 0 <= dx < destination.Length1 ==>
              var p := ToPanel(rotation, panel, Point(dx, dy));
              destination[dy, dx] ==
              if Rect(0, topInset, copyWidth, panel.height).Contains(p)
              then PixelAt(source, Point(p.x, Min(p.y - topInset, copyHeight - 1)))
              else old(destination[dy, dx])
  {
    hide ToPanel;
    RotateRegionARGB8888(source, destination, panel, rotation, topInset, 0, 0, copyWidth, copyHeight);
    if copyHeight < panel.height - topInset {
      ExtendLastRow(source, copyHeight - 1, destination, panel, rotation, topInset + copyHeight, copyWidth);
    }
  }

  method PlacePage(source: array2<Pixel>, destination: array2<Pixel>, panel: Panel, rotation: OutputRotation, topInset: nat,
                   copyWidth: nat, copyHeight: nat)
    requires Holds(destination, panel, rotation) && source != destination
    requires 0 < copyWidth <= Min(panel.width, source.Length1) && 0 < copyHeight <= source.Length0
    requires topInset + copyHeight <= panel.height
    modifies destination
    ensures forall dy, dx :: 0 <= dy < destination.Length0 && 0 <= dx < destination.Length1 ==>
              destination[dy, dx] ==
              if Visible(panel, rotation, Point(dx, dy))
              then PagePixel(source, Placement(copyWidth, copyHeight, panel.height - topInset), topInset, ToPanel(rotation, panel, Point(dx, dy)))
              else old(destination[dy, dx])
  {
    VisibleIsOnPanel(panel, rotation);
    hide ToPanel, PixelAt, Visible;
    ClearMargins(destination, panel, rotation, topInset, copyWidth);
    DrawPage(source, destination, panel, rotation, topInset, copyWidth, copyHeight);
  }

  /** Every visible pixel is defined by the page, whatever the sizes; nothing else is written. */
  method CopyRotatedARGB8888(source: array2<Pixel>, sourceWidth: nat, sourceHeight: nat, destination: array2<Pixel>,
                             panel: Panel, rotation: OutputRotation, topInset: nat)
    requires Holds(destination, panel, rotation) && source != destination
    requires sourceWidth <= source.Length1 && sourceHeight <= source.Length0
    modifies destination
    ensures forall dy, dx :: 0 <= dy < destination.Length0 && 0 <= dx < destination.Length1 ==>
              destination[dy, dx] ==
              if Visible(panel, rotation, Point(dx, dy))
              then PagePixel(source, Place(sourceWidth, sourceHeight, panel, topInset), topInset, ToPanel(rotation, panel, Point(dx, dy)))
              else old(destination[dy, dx])
  {
    hide ToPanel, PixelAt, Visible;
    if topInset != 0 || panel.width != sourceWidth || panel.height != sourceHeight {
      var copyWidth := Min(sourceWidth, panel.width);
      var availableHeight := if panel.height > topInset then panel.height - topInset else 0;
      var copyHeight := Min(sourceHeight, availableHeight);
      if copyWidth == 0 || copyHeight == 0 {
        FillVisible(destination, panel, rotation, BLACK);
        return;
      }
      PlacePage(source, destination, panel, rotation, topInset, copyWidth, copyHeight);
      return;
    }
    PlaceWholePage(source, destination, panel, rotation);
  }

  method FillVisible(destination: array2<Pixel>, panel: Panel, rotation: OutputRotation, color: Pixel)
    requires Holds(destination, panel, rotation)
    modifies destination
    ensures forall dy, dx :: 0 <= dy < destination.Length0 && 0 <= dx < destination.Length1 ==>
              destination[dy, dx] == if Visible(panel, rotation, Point(dx, dy)) then color else old(destination[dy, dx])
  {
    FillARGB8888(destination, RotatedWidth(panel, rotation), RotatedHeight(panel, rotation), color);
  }

  /** A page of the panel's own size. */
  method PlaceWholePage(source: array2<Pixel>, destination: array2<Pixel>, panel: Panel, rotation: OutputRotation)
    requires Holds(destination, panel, rotation) && source != destination
    requires panel.width <= source.Length1 && panel.height <= source.Length0
    modifies destination
    ensures forall dy, dx :: 0 <= dy < destination.Length0 && 0 <= dx < destination.Length1 ==>
              destination[dy, dx] ==
              if Visible(panel, rotation, Point(dx, dy))
              then PagePixel(source, Placement(panel.width, panel.height, panel.height), 0, ToPanel(rotation, panel, Point(dx, dy)))
              else old(destination[dy, dx])
  {
    VisibleIsOnPanel(panel, rotation);
    hide ToPanel, PixelAt, Visible;
    RotateRegionARGB8888(source, destination, panel, rotation, 0, 0, 0, panel.width, panel.height);
  }

  /** Repeats a source row on all panel rows from the given one to the bottom. */
  method ExtendLastRow(source: array2<Pixel>, sourceY: nat, destination: array2<Pixel>, panel: Panel, rotation: OutputRotation,
                       from: nat, width: nat)
    requires Holds(destination, panel, rotation) && source != destination
    requires sourceY < source.Length0 && width <= Min(source.Length1, panel.width) && from <= panel.height
    modifies destination
    ensures forall dy, dx :: 0 <= dy < destination.Length0 && 0 <= dx < destination.Length1 ==>
              var p := ToPanel(rotation, panel, Point(dx, dy));
              destination[dy, dx] == if Rect(0, from, width, panel.height).Contains(p) then PixelAt(source, Point(p.x, sourceY))
                                     else old(destination[dy, dx])
  {
    hide ToPanel;
    for panelY := from to panel.height
      invariant forall dy, dx :: 0 <= dy < destination.Length0 && 0 <= dx < destination.Length1 ==>
                  var p := ToPanel(rotation, panel, Point(dx, dy));
                  destination[dy, dx] == if Rect(0, from, width, panelY).Contains(p) then PixelAt(source, Point(p.x, sourceY))
                                         else old(destination[dy, dx])
    {
      WriteRotatedPanelRow(source, sourceY, destination, panel, rotation, panelY, 0, width);
    }
  }
}
