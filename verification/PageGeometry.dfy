/** Page geometry with the machine integers of the reader: points are 32-bit signed
    with saturating arithmetic, sizes are 32-bit unsigned. */
module PageGeometry {
  import opened Options

  const I32_MIN: int := -0x8000_0000
  const I32_MAX: int := 0x7fff_ffff
  const U32_MAX: int := 0xffff_ffff
  const U32_MODULUS: int := 0x1_0000_0000
  const TASK_CHECKBOX_SIZE: u32 := 12

  type i32 = x: int | I32_MIN <= x <= I32_MAX
  type u32 = x: int | 0 <= x <= U32_MAX

  function Saturated(x: int): i32 {
    if x < I32_MIN then I32_MIN else if x > I32_MAX then I32_MAX else x
  }

  function SatAdd(a: i32, b: i32): i32 {
    Saturated(a + b)
  }

  function SatSub(a: i32, b: i32): i32 {
    Saturated(a - b)
  }

  function SatNeg(a: i32): i32 {
    Saturated(0 - a)
  }

  function SatAddU(a: u32, b: u32): u32 {
    if a + b > U32_MAX then U32_MAX else a + b
  }

  function SatSubU(a: u32, b: u32): u32 {
    if a < b then 0 else a - b
  }

  function SatMulU(a: u32, b: u32): u32 {
    if a * b > U32_MAX then U32_MAX else if a * b < 0 then 0 else a * b
  }

  /** `as i32` from an unsigned value. */
  function AsI32(x: u32): i32 {
    if x <= I32_MAX then x else x - U32_MODULUS
  }

  /** `as u32` from a signed value. */
  function AsU32(x: i32): u32 {
    if x >= 0 then x else x + U32_MODULUS
  }

  /** The plain `-` of a release build. */
  function WrapSub(a: i32, b: i32): i32 {
    if a - b > I32_MAX then a - b - U32_MODULUS
    else if a - b < I32_MIN then a - b + U32_MODULUS
    else a - b
  }

  /** Signed division by two, which truncates toward zero. */
  function Half(x: i32): i32 {
    if x >= 0 then x / 2 else (x + 1) / 2
  }

  function Min(a: int, b: int): int {
    if a <= b then a else b
  }

  function Max(a: int, b: int): int {
    if a >= b then a else b
  }

  function MinU(a: u32, b: u32): u32 {
    if a <= b then a else b
  }

  function MaxU(a: u32, b: u32): u32 {
    if a >= b then a else b
  }

  datatype Point = Point(x: i32, y: i32)

  datatype Rect = Rect(x: i32, y: i32, width: u32, height: u32)

  datatype Viewport = Viewport(width: u32, height: u32)

  function Translate(r: Rect, offset: Point): Rect {
    r.(x := SatAdd(r.x, offset.x), y := SatAdd(r.y, offset.y))
  }

  function LineBottom(r: Rect): i32 {
    SatAdd(r.y, MinU(r.height, I32_MAX))
  }

  predicate Covers(r: Rect, x: int, y: int) {
    r.x <= x < r.x + r.width && r.y <= y < r.y + r.height
  }

  predicate InViewport(viewport: Viewport, r: Rect) {
    && 0 <= r.x && r.x + r.width <= viewport.width
    && 0 <= r.y && r.y + r.height <= viewport.height
    && 0 < r.width && 0 < r.height
  }

  /** The non-empty part of a rectangle that a viewport shows. */
  function Clip(viewport: Viewport, r: Rect): (clipped: Option<Rect>)
    ensures clipped.Some? ==> InViewport(viewport, clipped.value)
  {
    var left, top := Max(r.x, 0), Max(r.y, 0);
    var right, bottom := Min(r.x + r.width, viewport.width), Min(r.y + r.height, viewport.height);
    if left < right && top < bottom then Some(Rect(left, top, right - left, bottom - top)) else None
  }

  /** Clipping keeps exactly the points of a rectangle that the viewport has; what it drops
      has none. */
  lemma ClipIsTheIntersection(viewport: Viewport, r: Rect, x: int, y: int)
    ensures (Clip(viewport, r).Some? && Covers(Clip(viewport, r).value, x, y))
       <==> (Covers(r, x, y) && 0 <= x < viewport.width && 0 <= y < viewport.height)
  {
  }
}
