/**
 A framebuffer as DRMScanoutBuffer draws in it: keeping and restoring the page under the chrome, the
 hole for the video plane, and a page turned by the RGA engine or, failing that, by the CPU.
 */
module ScanoutBuffer {
  import opened FramebufferAccess
  import opened RotationKernels
  import opened Wrappers

  datatype CopyResult = Failed | ByEngine | ByCPU

  /** The colour without its opacity. */
  function Transparent(p: Pixel): Pixel {
    p & 0x00ff_ffff
  }

  /** The colour at full opacity; the fourth byte of an XRGB pixel means nothing. */
  function Opaque(p: Pixel): Pixel {
    p | 0xff00_0000
  }

  /** What the CPU makes of a page pixel. */
  function AsCopied(xrgb: bool, p: Pixel): Pixel {
    if xrgb then Opaque(p) else p
  }

  /** The engine is trusted with the opacity of ARGB pages only. */
  predicate AsEngineDraws(xrgb: bool, drawn: Pixel, p: Pixel) {
    if xrgb then Transparent(drawn) == Transparent(p) else drawn == p
  }

  /** The rows of the visible part. */
  type Base = seq<seq<Pixel>>

  predicate Shaped(base: Base, width: nat, height: nat) {
    |base| == height && forall y :: 0 <= y < height ==> |base[y]| == width
  }

  /** What a panel point shows of a page the engine turned: black wherever the page does not reach. */
  function EnginePixel(source: array2<Pixel>, place: Placement, inset: nat, p: Point): Pixel
    reads source
  {
    if Rect(0, inset, place.width, inset + place.height).Contains(p) then PixelAt(source, Point(p.x, p.y - inset)) else BLACK
  }

  predicate RowIsBlack(source: array2<Pixel>, y: nat, width: nat)
    requires y < source.Length0 && width <= source.Length1
    reads source
  {
    forall x :: 0 <= x < width ==> source[y, x] == BLACK
  }

  /**
   The engine and the CPU draw the same picture exactly when the page reaches the bottom of the panel, or
   its last row is black anyway.
   */
  lemma EngineAgreesWithCPU(source: array2<Pixel>, sourceWidth: nat, sourceHeight: nat, panel: Panel, inset: nat)
    requires sourceWidth <= source.Length1 && sourceHeight <= source.Length0
    ensures var place := Place(sourceWidth, sourceHeight, panel, inset);
      (forall p :: Rect(0, 0, panel.width, panel.height).Contains(p) ==>
         EnginePixel(source, place, inset, p) == PagePixel(source, place, inset, p))
      <==>
      (place.height == 0 || place.height == place.available
       || RowIsBlack(source, place.height - 1, place.width))
  {
    var place := Place(sourceWidth, sourceHeight, panel, inset);
    if 0 < place.height < place.available
      && forall p :: Rect(0, 0, panel.width, panel.height).Contains(p) ==>
           EnginePixel(source, place, inset, p) == PagePixel(source, place, inset, p)
    {
      var last := place.height - 1;
      forall x | 0 <= x < place.width
        ensures source[last, x] == BLACK
      {
        var below := Point(x, inset + place.height);
        assert EnginePixel(source, place, inset, below) == PagePixel(source, place, inset, below);
      }
    }
  }

  /** One white pixel on a panel two rows high: the CPU repeats it below, the engine's row stays black. */
  method ShortPageDiffers() returns (source: array2<Pixel>)
    ensures source.Length0 == source.Length1 == 1
    ensures var place := Place(1, 1, Panel(1, 2), 0);
      EnginePixel(source, place, 0, Point(0, 1)) == BLACK != PagePixel(source, place, 0, Point(0, 1))
  {
    source := new Pixel[1, 1];
    source[0, 0] := 0xffff_ffff;
  }

  class DRMScanoutBuffer {
    const mapping: array2<Pixel>
    const width: nat
    const height: nat
    const argb: bool
    const reachable: Forecast<bool>   // whether the CPU can reach the pixels
    const engine: Forecast<bool>      // whether the engine works
    var scanoutOwned: bool

    ghost predicate Valid()
      reads this
    {
      width <= mapping.Length1 && height <= mapping.Length0
    }

    constructor (mapping: array2<Pixel>, width: nat, height: nat, argb: bool, reachable: Forecast<bool>, engine: Forecast<bool>)
      requires width <= mapping.Length1 && height <= mapping.Length0
      ensures Valid() && !scanoutOwned && this.mapping == mapping && this.width == width && this.height == height
      ensures this.argb == argb && this.reachable == reachable && this.engine == engine
    {
      this.reachable, this.engine := reachable, engine;
      this.mapping, this.width, this.height, this.argb := mapping, width, height, argb;
      scanoutOwned := false;
    }

    method BeginCPUAccess(write: bool) returns (access: Access)
      ensures access == Refused <==> scanoutOwned && write
      ensures access != Refused && reachable.Always? ==> (access == Granted <==> reachable.value)
    {
      if scanoutOwned && write {
        return Refused;
      }
      var works := Ask(reachable);
      return if works then Granted else Faulty;
    }

    /** Keeps the visible pixels; a framebuffer with the display may be read. */
    method CopyBaseTo() returns (ok: bool, base: Base)
      requires Valid()
      ensures ok ==> argb && width > 0 && height > 0 && Shaped(base, width, height)
      ensures reachable.Always? ==> (ok <==> reachable.value && argb && width > 0 && height > 0)
      ensures ok ==> forall y, x :: 0 <= y < height && 0 <= x < width ==> base[y][x] == mapping[y, x]
    {
      base := [];
      if !argb || width == 0 || height == 0 {
        return false, base;
      }
      var access := BeginCPUAccess(false);
      if access != Granted {
        return false, base;
      }
      for y := 0 to height
        invariant Shaped(base, width, y)
        invariant forall j, x :: 0 <= j < y && 0 <= x < width ==> base[j][x] == mapping[j, x]
      {
        var row := seq(width, x requires 0 <= x < width reads mapping => mapping[y, x]);
        base := base + [row];
      }
      ok := Ask(reachable);
    }

    /** Puts kept pixels back; the padding is not touched, and a framebuffer with the display neither. */
    method RestoreBase(base: Base, baseWidth: nat, baseHeight: nat) returns (ok: bool)
      requires Valid() && Shaped(base, baseWidth, baseHeight)
      modifies mapping
      ensures ok ==> argb && !scanoutOwned && baseWidth == width && baseHeight == height
      ensures reachable.Always? ==>
                (ok <==> reachable.value && argb && !scanoutOwned && baseWidth == width && baseHeight == height)
      ensures forall y, x :: 0 <= y < mapping.Length0 && 0 <= x < mapping.Length1 ==>
                mapping[y, x] == if ok && y < height && x < width then base[y][x] else old(mapping[y, x])
    {
      if !argb || baseWidth != width || baseHeight != height {
        return false;
      }
      var access := BeginCPUAccess(true);
      if access != Granted {
        return false;
      }
      for y := 0 to height
        invariant forall j, x :: 0 <= j < mapping.Length0 && 0 <= x < mapping.Length1 ==>
                    mapping[j, x] == if j < y && x < width then base[j][x] else old(mapping[j, x])
      {
        for x := 0 to width
          invariant forall j, i :: 0 <= j < mapping.Length0 && 0 <= i < mapping.Length1 ==>
                      mapping[j, i] == if (j < y && i < width) || (j == y && i < x) then base[j][i] else old(mapping[j, i])
        {
          mapping[y, x] := base[y][x];
        }
      }
      return true;
    }

    /** The page rectangle's image becomes transparent, as far as it is visible; nothing else changes. */
    method PunchTransparentRect(x1: int, y1: int, x2: int, y2: int, panel: Panel, rotation: OutputRotation, topInset: nat)
      returns (ok: bool)
      requires Valid()
      modifies mapping
      ensures ok ==> argb && !scanoutOwned
      ensures reachable == Always(true) && argb && !scanoutOwned && !ok ==>
                forall y, x :: 0 <= y < height && 0 <= x < width ==>
                  !Rect(x1, y1, x2, y2).Contains(SourceOf(rotation, panel, topInset, Point(x, y)))
      ensures forall y, x :: 0 <= y < mapping.Length0 && 0 <= x < mapping.Length1 ==>
                mapping[y, x] ==
                if ok && y < height && x < width && Rect(x1, y1, x2, y2).Contains(SourceOf(rotation, panel, topInset, Point(x, y)))
                then Transparent(old(mapping[y, x])) else old(mapping[y, x])
    {
      hide SourceOf, RotatedDestRect;
      if !argb {
        return false;
      }
      var access := BeginCPUAccess(true);
      if access != Granted {
        return false;
      }
      var image := RotatedDestRect(Rect(x1, y1, x2, y2), panel, rotation, topInset);
      forall d
        ensures image.Contains(d) <==> Rect(x1, y1, x2, y2).Contains(SourceOf(rotation, panel, topInset, d))
      {
        DestRectIsImage(Rect(x1, y1, x2, y2), panel, rotation, topInset, d);
      }
      var left := Clamp(image.x1, 0, width);
      var top := Clamp(image.y1, 0, height);
      var rect := Rect(left, top, Clamp(image.x2, left, width), Clamp(image.y2, top, height));
      if rect.x2 <= rect.x1 || rect.y2 <= rect.y1 {
        return false;
      }
      ClearAlpha(rect);
      return true;
    }

    method ClearAlpha(rect: Rect)
      requires Valid() && 0 <= rect.x1 <= rect.x2 <= width && 0 <= rect.y1 <= rect.y2 <= height
      modifies mapping
      ensures forall y, x :: 0 <= y < mapping.Length0 && 0 <= x < mapping.Length1 ==>
                mapping[y, x] == if rect.Contains(Point(x, y)) then Transparent(old(mapping[y, x])) else old(mapping[y, x])
    {
      hide Transparent;
      for y := rect.y1 to rect.y2
        invariant forall j, x :: 0 <= j < mapping.Length0 && 0 <= x < mapping.Length1 ==>
                    mapping[j, x] == if rect.(y2 := y).Contains(Point(x, j)) then Transparent(old(mapping[j, x])) else old(mapping[j, x])
      {
        for x := rect.x1 to rect.x2
          invariant forall j, i :: 0 <= j < mapping.Length0 && 0 <= i < mapping.Length1 ==>
                      mapping[j, i] == if rect.(y2 := y).Contains(Point(i, j)) || (j == y && rect.(x2 := x).Contains(Point(i, j)))
                                       then Transparent(old(mapping[j, i])) else old(mapping[j, i])
        {
          mapping[y, x] := Transparent(mapping[y, x]);
        }
      }
    }

    /** The engine turns the page into its place; when it fails the place may hold anything. */
    method EngineRotate(source: array2<Pixel>, panel: Panel, rotation: OutputRotation, topInset: nat, copyWidth: nat, copyHeight: nat,
                        xrgb: bool)
      returns (ok: bool)
      requires Valid() && source != mapping && Holds(mapping, panel, rotation)
      requires copyWidth <= Min(panel.width, source.Length1) && copyHeight <= source.Length0 && topInset + copyHeight <= panel.height
      modifies mapping
      ensures engine.Always? ==> ok == engine.value
      ensures forall dy, dx :: 0 <= dy < mapping.Length0 && 0 <= dx < mapping.Length1 ==>
                var s := SourceOf(rotation, panel, topInset, Point(dx, dy));
                if Rect(0, 0, copyWidth, copyHeight).Contains(s) then ok ==> AsEngineDraws(xrgb, mapping[dy, dx], PixelAt(source, s))
                else mapping[dy, dx] == old(mapping[dy, dx])
    {
      ok := Ask(engine);
      if ok {
        RotateRegionARGB8888(source, mapping, panel, rotation, topInset, 0, 0, copyWidth, copyHeight);
        return;
      }
      var junk: Pixel := *;
      var rows :| 0 <= rows <= copyHeight;
      FillRotatedPanelRect(mapping, panel, rotation, 0, topInset, copyWidth, topInset + rows, junk);
    }

    /**
     A page turned into this framebuffer, which the display must not own.  On success every visible pixel
     is defined: as the engine draws it, or as the CPU does.
     */
    method CopyRotatedFromDMABuf(source: array2<Pixel>, sourceWidth: nat, sourceHeight: nat, sourceOffset: nat,
                                 configured: Panel, rotation: OutputRotation, topInset: nat, engineRequired: bool, xrgb: bool)
      returns (result: CopyResult)
      requires Valid() && source != mapping
      requires sourceWidth <= source.Length1 && sourceHeight <= source.Length0
      requires var panel := ScanoutPanelForSource(configured, sourceWidth, sourceHeight);
        width == RotatedWidth(panel, rotation) && height == RotatedHeight(panel, rotation)
      modifies mapping
      ensures scanoutOwned ==> result == Failed
      ensures scanoutOwned ==> forall y, x :: 0 <= y < mapping.Length0 && 0 <= x < mapping.Length1 ==>
                mapping[y, x] == old(mapping[y, x])
      ensures result == ByCPU ==> !engineRequired
      ensures var place := Place(sourceWidth, sourceHeight, ScanoutPanelForSource(configured, sourceWidth, sourceHeight), topInset);
        var whole := sourceOffset == 0 && place.width == sourceWidth > 0 && place.height == sourceHeight > 0;
        && (result == ByEngine ==> whole)
        && (!scanoutOwned && engine == Always(true) && whole ==> result == ByEngine)
        && (!scanoutOwned && (engine == Always(false) || !whole) && reachable.Always? ==>
              result == if reachable.value && !engineRequired then ByCPU else Failed)
      ensures var panel := ScanoutPanelForSource(configured, sourceWidth, sourceHeight);
        var place := Place(sourceWidth, sourceHeight, panel, topInset);
        forall dy, dx :: 0 <= dy < mapping.Length0 && 0 <= dx < mapping.Length1 ==>
          if Visible(panel, rotation, Point(dx, dy)) then
            var p := ToPanel(rotation, panel, Point(dx, dy));
            && (result == ByEngine ==> AsEngineDraws(xrgb, mapping[dy, dx], EnginePixel(source, place, topInset, p)))
            && (result == ByCPU ==> mapping[dy, dx] == AsCopied(xrgb, PagePixel(source, place, topInset, p)))
          else mapping[dy, dx] == old(mapping[dy, dx])
    {
      hide ToPanel, PixelAt, Visible, RotatedWidth, RotatedHeight;
      if scanoutOwned {
        return Failed;
      }
      var panel := ScanoutPanelForSource(configured, sourceWidth, sourceHeight);
      var place := Place(sourceWidth, sourceHeight, panel, topInset);
      var engineAvailable := Ask(engine);
      var geometrySupported := sourceOffset == 0 && place.width == sourceWidth && place.height == sourceHeight
        && place.width > 0 && place.height > 0;
      if geometrySupported && engineAvailable {
        var done := ByEngineIfPossible(source, panel, rotation, topInset, place, xrgb);
        if done {
          return ByEngine;
        }
        if engineRequired {
          return Failed;
        }
      } else if engineRequired {
        return Failed;
      }
      var readable := Ask(reachable);
      var access := BeginCPUAccess(true);
      if access != Granted || !readable {
        return Failed;
      }
      CopyByCPU(source, sourceWidth, sourceHeight, panel, rotation, topInset, xrgb);
      return ByCPU;
    }

    method CopyByCPU(source: array2<Pixel>, sourceWidth: nat, sourceHeight: nat, panel: Panel, rotation: OutputRotation,
                     topInset: nat, xrgb: bool)
      requires Valid() && source != mapping
      requires sourceWidth <= source.Length1 && sourceHeight <= source.Length0
      requires width == RotatedWidth(panel, rotation) && height == RotatedHeight(panel, rotation)
      modifies mapping
      ensures var place := Place(sourceWidth, sourceHeight, panel, topInset);
        forall dy, dx :: 0 <= dy < mapping.Length0 && 0 <= dx < mapping.Length1 ==>
          mapping[dy, dx] ==
          if Visible(panel, rotation, Point(dx, dy))
          then AsCopied(xrgb, PagePixel(source, place, topInset, ToPanel(rotation, panel, Point(dx, dy))))
          else old(mapping[dy, dx])
    {
      hide ToPanel, PixelAt, PagePixel, RotatedWidth, RotatedHeight, Opaque;
      CopyRotatedARGB8888(source, sourceWidth, sourceHeight, mapping, panel, rotation, topInset);
      if xrgb {
        MakeOpaque();
      }
    }

    /** Every visible pixel becomes opaque. */
    method MakeOpaque()
      requires Valid()
      modifies mapping
      ensures forall y, x :: 0 <= y < mapping.Length0 && 0 <= x < mapping.Length1 ==>
                mapping[y, x] == if y < height && x < width then Opaque(old(mapping[y, x])) else old(mapping[y, x])
    {
      hide Opaque;
      for y := 0 to height
        invariant forall j, x :: 0 <= j < mapping.Length0 && 0 <= x < mapping.Length1 ==>
                    mapping[j, x] == if j < y && x < width then Opaque(old(mapping[j, x])) else old(mapping[j, x])
      {
        for x := 0 to width
          invariant forall j, i :: 0 <= j < mapping.Length0 && 0 <= i < mapping.Length1 ==>
                      mapping[j, i] == if (j < y && i < width) || (j == y && i < x) then Opaque(old(mapping[j, i]))
                                       else old(mapping[j, i])
        {
          mapping[y, x] := Opaque(mapping[y, x]);
        }
      }
    }

    /** Clears what the page leaves free, and lets the engine draw the page. */
    method ByEngineIfPossible(source: array2<Pixel>, panel: Panel, rotation: OutputRotation, topInset: nat, place: Placement, xrgb: bool)
      returns (done: bool)
      requires Valid() && source != mapping
      requires width == RotatedWidth(panel, rotation) && height == RotatedHeight(panel, rotation)
      requires 0 < place.width <= Min(panel.width, source.Length1) && 0 < place.height <= source.Length0
      requires topInset + place.available == panel.height && place.height <= place.available
      modifies mapping
      ensures engine.Always? ==> done == engine.value
      ensures forall dy, dx :: 0 <= dy < mapping.Length0 && 0 <= dx < mapping.Length1 ==>
                if Visible(panel, rotation, Point(dx, dy)) then
                  done ==> AsEngineDraws(xrgb, mapping[dy, dx],
                                         EnginePixel(source, place, topInset, ToPanel(rotation, panel, Point(dx, dy))))
                else mapping[dy, dx] == old(mapping[dy, dx])
    {
      hide ToPanel, PixelAt, Visible;
      if topInset != 0 || place.width != panel.width || place.height != place.available {
        ClearAround(panel, rotation, topInset, place);
      }
      VisibleIsOnPanel(panel, rotation);
      done := EngineRotate(source, panel, rotation, topInset, place.width, place.height, xrgb);
    }

    method ClearAround(panel: Panel, rotation: OutputRotation, topInset: nat, place: Placement)
      requires Valid()
      requires width == RotatedWidth(panel, rotation) && height == RotatedHeight(panel, rotation)
      requires place.width <= panel.width && topInset + place.height <= panel.height
      modifies mapping
      ensures forall dy, dx :: 0 <= dy < mapping.Length0 && 0 <= dx < mapping.Length1 ==>
                mapping[dy, dx] ==
                if Visible(panel, rotation, Point(dx, dy))
                   && !Rect(0, topInset, place.width, topInset + place.height).Contains(ToPanel(rotation, panel, Point(dx, dy)))
                then BLACK else old(mapping[dy, dx])
    {
      hide RotatedDestRect, PixelAt, PagePixel, EnginePixel;
      var page := Rect(0, 0, place.width, place.height);
      var rect := RotatedDestRect(page, panel, rotation, topInset);
      DestRectIsVisible(page, panel, rotation, topInset);
      forall d
        ensures rect.Contains(d) <==> Rect(0, topInset, place.width, topInset + place.height).Contains(ToPanel(rotation, panel, d))
      {
        DestRectIsImage(page, panel, rotation, topInset, d);
      }
      hide ToPanel;
      ClearOutsideARGB8888(mapping, width, height, rect.x1, rect.y1, rect.x2 - rect.x1, rect.y2 - rect.y1, BLACK);
    }
  }

  /** The configured panel, unless the page does not fit it. */
  function ScanoutPanelForSource(configured: Panel, sourceWidth: nat, sourceHeight: nat): Panel {
    if configured.width >= sourceWidth && configured.height >= sourceHeight then configured else Panel(sourceWidth, sourceHeight)
  }
}

/** How an attempt to reach a framebuffer's pixels ends; a write is refused while the display owns them. */
module FramebufferAccess {

  datatype Access = Granted | Refused | Faulty
}
