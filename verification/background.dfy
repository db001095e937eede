/** Parallax backgrounds (src/Background.c): a layer texture wide enough to
    span the window, and a horizontal scroll position drawn as two copies
    side by side. */
module Backgrounds {
  import opened Common
  import opened Flags

  /** Bit of the background flag word: set to scroll towards +x. */
  const SCROLL_DIRECTION: Bit := 0

  /** Height of every background copy on screen. */
  const DRAW_HEIGHT: int := 192

  /** The layer texture built from the background image. */
  datatype LayerTexture = LayerTexture(width: int, height: int, copies: seq<Blit>)

  datatype Background = Background(
    layer: LayerTexture,
    flags: Word,
    width: int,
    height: int,
    worldPosX: real,
    worldPosY: real,
    velocity: real)

  /** ceil((double)windowWidth / (double)imageWidth), stored in a uint8_t:
      the least number of image widths that covers the window. For int32
      operands the double quotient is never rounded onto or across an
      integer, so the ceiling of the exact quotient is computed. */
  function WidthFactor(windowWidth: int, imageWidth: int): (f: int)
    requires imageWidth > 0
    ensures f * imageWidth >= windowWidth
    ensures (f - 1) * imageWidth < windowWidth
  {
    CeilingDivision(windowWidth, imageWidth);
    (windowWidth + imageWidth - 1) / imageWidth
  }

  /** Rounding the quotient up by adding `d - 1` before dividing gives the
      least multiple of `d` at or above `a`. */
  lemma CeilingDivision(a: int, d: int)
    requires d > 0
    ensures ((a + d - 1) / d) * d >= a
    ensures ((a + d - 1) / d - 1) * d < a
  {
    var n := a + d - 1;
    var f, r := n / d, n % d;
    assert n == f * d + r && 0 <= r < d;
    assert (f - 1) * d == f * d - d;
  }

  /** Cancelling a positive factor keeps a strict order. */
  lemma MulLessCancel(a: int, b: int, w: int)
    requires w > 0 && a * w < b * w
    ensures a < b
  {
  }

  /** The layer built for a window: a whole number of images, at least as
      wide as the window and less than one image wider. */
  lemma LayerWidthBounds(windowWidth: int, imageWidth: int)
    requires imageWidth > 0
    requires 0 <= windowWidth <= 0xFF * imageWidth
    ensures var f := WidthFactor(windowWidth, imageWidth);
      && 0 <= f < 0x100
      && windowWidth <= f * imageWidth < windowWidth + imageWidth
      && (f * imageWidth) % imageWidth == 0
      && (f * imageWidth) / imageWidth == f
  {
    var f := WidthFactor(windowWidth, imageWidth);
    assert f * imageWidth == (f - 1) * imageWidth + imageWidth;
    MulLessCancel(-1, f, imageWidth);
    MulLessCancel(f - 1, 0xFF, imageWidth);
    DivModOfSum(f, 0, imageWidth);
  }

  /** Copies of the image laid side by side from x = 0: each is the whole
      image, unscaled and unflipped, on the top edge, and each starts where
      the previous one ends. */
  function ImageCopies(n: nat, imageWidth: int, imageHeight: int): (r: seq<Blit>)
    ensures |r| == n
    ensures forall i :: 0 <= i < n ==>
      && r[i].image == BackgroundImage && r[i].src.None? && !r[i].flipH
      && r[i].dst.y == 0.0 && r[i].dst.w == imageWidth && r[i].dst.h == imageHeight
    ensures n > 0 ==> r[0].dst.x == 0.0
    ensures forall i :: 0 < i < n ==> r[i].dst.x == r[i - 1].dst.x + imageWidth as real
    ensures forall i :: 0 <= i < n ==> r[i].dst.x == (i * imageWidth) as real
  {
    seq(n, i => Blit(BackgroundImage, None, Rect((i * imageWidth) as real, 0.0, imageWidth, imageHeight), false))
  }

  /** _RenderLayer: the image, whose size the texture query reports, is
      repeated WidthFactor times into a new texture. Any failing call yields
      no layer. */
  function RenderLayer(imageWidth: int, imageHeight: int, windowWidth: int, be: Backend): (r: Option<LayerTexture>)
    requires imageWidth > 0
    requires 0 <= windowWidth <= 0xFF * imageWidth
    ensures r.Some? <==> be.loadImage && be.queryTexture && be.createTexture && be.setTarget
                         && be.blendMode && be.resetTarget
    ensures r.Some? ==>
      && r.value.width >= windowWidth
      && r.value.width < windowWidth + imageWidth
      && r.value.width % imageWidth == 0
      && r.value.height == imageHeight
      && |r.value.copies| == (if be.copy then r.value.width / imageWidth else 0)
      && forall i :: 0 <= i < |r.value.copies| ==> r.value.copies[i].dst.x == (i * imageWidth) as real
  {
    if !be.loadImage || !be.queryTexture then None
    else
      var factor := WidthFactor(windowWidth, imageWidth);
      LayerWidthBounds(windowWidth, imageWidth);
      var layerWidth := imageWidth * factor;
      if !be.createTexture || !be.setTarget then None
      else
        var copies := if be.copy then ImageCopies(factor, imageWidth, imageHeight) else [];
        if !be.blendMode || !be.resetTarget then None
        else Some(LayerTexture(layerWidth, imageHeight, copies))
  }

  /** InitBackground: no flags, at the origin, at rest, sized as its layer. */
  function InitBackground(imageWidth: int, imageHeight: int, windowWidth: int, allocOk: bool, be: Backend): (r: Option<Background>)
    requires imageWidth > 0
    requires 0 <= windowWidth <= 0xFF * imageWidth
    ensures r.Some? <==> allocOk && RenderLayer(imageWidth, imageHeight, windowWidth, be).Some?
    ensures r.Some? ==>
      && r.value.flags == 0
      && r.value.worldPosX == 0.0 && r.value.worldPosY == 0.0
      && r.value.velocity == 0.0
      && r.value.width == r.value.layer.width && r.value.height == imageHeight
      && r.value.width >= windowWidth
  {
    if !allocOk then None
    else match RenderLayer(imageWidth, imageHeight, windowWidth, be)
      case None => None
      case Some(layer) => Some(Background(layer, 0, layer.width, layer.height, 0.0, 0.0, 0.0))
  }

  /** The wrap step: past one width to the left jumps to +width, past one
      width to the right jumps to -width. */
  function WrapPosition(x: real, w: real): (r: real)
    requires w >= 0.0
    ensures -w <= r <= w
    ensures -w <= x <= w ==> r == x
    ensures x < -w ==> r == w
    ensures x > w ==> r == -w
  {
    var x1 := if x < -w then w else x;
    if x1 > w then -w else x1
  }

  lemma WrapIdempotent(x: real, w: real)
    requires w >= 0.0
    ensures WrapPosition(WrapPosition(x, w), w) == WrapPosition(x, w)
  {
  }

  /** Where the second copy goes: one width away on the other side. */
  function TwinPosition(a: real, w: real): (b: real)
    ensures a > 0.0 ==> b == a - w
    ensures a <= 0.0 ==> b == a + w
    ensures w > 0.0 ==> (b < a <==> a > 0.0)
    ensures 0.0 <= w && -w <= a <= w ==> -w <= b <= w
  {
    if a > 0.0 then a - w else a + w
  }

  /** The two copies, each `w` wide, together cover [0, w]: whatever the
      wrapped position, the screen span of one layer width is filled. */
  lemma TwinCopiesCoverOneWidth(a: real, w: real)
    requires w >= 0.0 && -w <= a <= w
    ensures var b := TwinPosition(a, w);
      && (a - b == w || b - a == w)
      && (if a < b then a else b) <= 0.0
      && (if a < b then b else a) + w >= w
  {
  }

  /** The advance step: only a positive velocity moves the background, in
      the direction the scroll bit gives. */
  function Advance(x: real, velocity: real, flags: Word): (r: real)
    ensures velocity <= 0.0 ==> r == x
    ensures velocity > 0.0 && IsSet(flags, SCROLL_DIRECTION) ==> r > x && r - x == velocity
    ensures velocity > 0.0 && !IsSet(flags, SCROLL_DIRECTION) ==> r < x && x - r == velocity
  {
    if velocity > 0.0 then
      if IsSet(flags, SCROLL_DIRECTION) then x + velocity else x - velocity
    else x
  }

  datatype BackgroundDraw = BackgroundDraw(background: Background, status: int, screen: seq<Blit>)

  /** DrawBackground as Background.c defines it (renderer and background
      only). The width is the layer texture's, as the texture query reports. */
  function DrawBackground(bg: Background, be: Backend): (d: BackgroundDraw)
    requires bg.layer.width >= 0
    ensures d.status == 0 || d.status == -1
    ensures !be.queryTexture ==> d == BackgroundDraw(bg, -1, [])
    ensures be.queryTexture ==>
      var w := bg.layer.width as real;
      var a := WrapPosition(bg.worldPosX, w);
      && d.background == bg.(worldPosX := Advance(a, bg.velocity, bg.flags))
      && -w <= a <= w
      && (d.status == 0 <==> be.copy)
      && d.screen == (if be.copy then
           [Blit(BackgroundLayerImage, None, Rect(a, bg.worldPosY, bg.layer.width, DRAW_HEIGHT), false),
            Blit(BackgroundLayerImage, None, Rect(TwinPosition(a, w), bg.worldPosY, bg.layer.width, DRAW_HEIGHT), false)]
         else [])
  {
    if !be.queryTexture then BackgroundDraw(bg, -1, [])
    else
      var w := bg.layer.width as real;
      var posXa := WrapPosition(bg.worldPosX, w);
      var posXb := TwinPosition(posXa, w);
      var moved := bg.(worldPosX := Advance(posXa, bg.velocity, bg.flags));
      var first := Blit(BackgroundLayerImage, None, Rect(posXa, bg.worldPosY, bg.layer.width, DRAW_HEIGHT), false);
      if !be.copy then BackgroundDraw(moved, -1, [])
      else BackgroundDraw(moved, 0, [first, first.(dst := first.dst.(x := posXb))])
  }

  /** After a draw the stored position stays within one velocity step of
      [-w, w]. */
  lemma DrawKeepsPositionNearRange(bg: Background, be: Backend)
    requires bg.layer.width >= 0 && be.queryTexture
    ensures var x := DrawBackground(bg, be).background.worldPosX;
      var w := bg.layer.width as real;
      var v := if bg.velocity > 0.0 then bg.velocity else 0.0;
      -w - v <= x <= w + v
  {
  }
}
