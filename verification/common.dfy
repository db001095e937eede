/** Shared vocabulary: an optional value (a C reference that may be NULL), the
    C integer widths the program stores into, and the renderer operations the
    drawing code issues. */
module Common {

  datatype Option<+T> = None | Some(value: T)

  type U8 = x: int | 0 <= x < 0x100
  type I8 = x: int | -0x80 <= x < 0x80
  type U32 = x: int | 0 <= x < 0x1_0000_0000
  type I32 = x: int | -0x8000_0000 <= x < 0x8000_0000

  /** Conversion of an int to int8_t as two's-complement compilers perform it. */
  function ToI8(v: int): (r: I8)
    ensures -0x80 <= v < 0x80 ==> r == v
    ensures (v - r) % 0x100 == 0
  {
    (v + 0x80) % 0x100 - 0x80
  }

  /** Conversion of an int to int32_t as two's-complement compilers perform it. */
  function ToI32(v: int): (r: I32)
    ensures -0x8000_0000 <= v < 0x8000_0000 ==> r == v
    ensures (v - r) % 0x1_0000_0000 == 0
  {
    (v + 0x8000_0000) % 0x1_0000_0000 - 0x8000_0000
  }

  /** Unsigned 32-bit arithmetic wraps modulo 2^32. */
  function ToU32(v: int): (r: U32)
    ensures 0 <= v < 0x1_0000_0000 ==> r == v
    ensures (v - r) % 0x1_0000_0000 == 0
  {
    v % 0x1_0000_0000
  }

  function Abs(v: int): (r: nat)
    ensures r == v || r == -v
  {
    if v < 0 then -v else v
  }

  /** Euclidean division recovers quotient and remainder. */
  lemma DivModOfSum(row: nat, col: nat, w: nat)
    requires col < w
    ensures (row * w + col) / w == row && (row * w + col) % w == col
  {
    var k := row * w + col;
    var q, r := k / w, k % w;
    assert (row - q) * w == r - col;
    MultipleBelowModulusIsZero(row - q, w, r - col);
  }

  lemma MultipleBelowModulusIsZero(a: int, w: int, d: int)
    requires w > 0 && a * w == d && -w < d < w
    ensures a == 0
  {
  }

  /** A quotient's floor names the step of width `d` that holds the dividend. */
  lemma FloorLocates(a: real, d: real)
    requires d > 0.0
    ensures a >= 0.0 ==> (a / d).Floor >= 0
    ensures (a / d).Floor as real * d <= a
    ensures a < ((a / d).Floor + 1) as real * d
  {
    var s := a / d;
    assert s * d == a;
    var lo, hi := s.Floor as real, (s.Floor + 1) as real;
    assert lo <= s < hi;
    if a >= 0.0 {
      DivNonNegative(a, d);
    }
    RealMulLeq(lo, s, d);
    RealMulLess(s, hi, d);
    assert a < hi * d;
  }

  lemma DivNonNegative(a: real, d: real)
    requires d > 0.0 && a >= 0.0
    ensures a / d >= 0.0
  {
  }

  /** Conversely, a step of width `d` that holds the dividend is the one the
      quotient's floor names. */
  lemma FloorUnique(a: real, d: real, k: int)
    requires d > 0.0
    requires k as real * d <= a < (k + 1) as real * d
    ensures (a / d).Floor == k
  {
    var s := a / d;
    assert s * d == a;
    var lo, hi := k as real, (k + 1) as real;
    RealMulLeqCancel(lo, s, d);
    RealMulLessCancel(s, hi, d);
    assert lo <= s < hi;
  }

  lemma RealMulLeqCancel(a: real, b: real, d: real)
    requires d > 0.0 && a * d <= b * d
    ensures a <= b
  {
  }

  lemma RealMulLessCancel(a: real, b: real, d: real)
    requires d > 0.0 && a * d < b * d
    ensures a < b
  {
  }

  lemma RealMulLeq(a: real, b: real, d: real)
    requires d > 0.0 && a <= b
    ensures a * d <= b * d
  {
  }

  lemma RealMulLess(a: real, b: real, d: real)
    requires d > 0.0 && a < b
    ensures a * d < b * d
  {
  }

  /** C's conversion of a double to an integer: truncation toward zero. */
  function Truncate(q: real): (n: int)
    ensures q >= 0.0 ==> n >= 0 && n as real <= q < (n + 1) as real
    ensures q < 0.0 ==> n <= 0 && (n - 1) as real < q <= n as real
  {
    if q >= 0.0 then q.Floor else -((-q).Floor)
  }

  /** An SDL_Rect. Positions are kept exact: the truncation of a double to
      the rectangle's int fields is not modelled. */
  datatype Rect = Rect(x: real, y: real, w: int, h: int)

  /** The textures a frame copies from. */
  datatype Image =
    | TilesetImage
    | MapLayerImage(slot: nat)
    | SpriteImage
    | BackgroundImage
    | BackgroundLayerImage

  /** One SDL_RenderCopy/SDL_RenderCopyEx onto the current target; `src` is
      None when the whole texture is copied. */
  datatype Blit = Blit(image: Image, src: Option<Rect>, dst: Rect, flipH: bool)

  /** Outcome of each kind of renderer call during one operation: true when
      the call succeeds. The renderer itself is outside the model. */
  datatype Backend = Backend(
    createTexture: bool,
    loadImage: bool,
    queryTexture: bool,
    setTarget: bool,
    resetTarget: bool,
    blendMode: bool,
    copy: bool,
    logicalSize: bool)
}
