/** The coordinate mapper `map_touch_to_screen` and the compiled-in calibration. */
module Mapper {
  import opened Transport

  /** Calibration bounds: raw ADC values at the panel's usable extremes. */
  const X_MIN: u16 := 180
  const X_MAX: u16 := 1800
  const Y_MIN: u16 := 200
  const Y_MAX: u16 := 1900

  /** The display's resolution in pixels. */
  const SCREEN_WIDTH: u16 := 240
  const SCREEN_HEIGHT: u16 := 320

  function Abs(n: int): nat
  {
    if n < 0 then -n else n
  }

  /** C's `/` on `int`: the quotient truncated toward zero (Dafny's `/` is Euclidean). */
  function CDiv(a: int, b: int): int
    requires b != 0
  {
    if (a < 0) == (b < 0) then Abs(a) / Abs(b) else -(Abs(a) / Abs(b))
  }

  /** The two clamping `if`s: first up to `lo`, then down to `hi`. */
  function Clamp(raw: u16, lo: u16, hi: u16): (c: u16)
    ensures lo <= hi ==> lo <= c <= hi
    ensures lo <= raw <= hi ==> c == raw
    ensures lo <= hi && raw < lo ==> c == lo
    ensures lo <= hi && hi < raw ==> c == hi
    ensures hi < lo ==> c == hi
  {
    var up := if raw < lo then lo else raw;
    if up > hi then hi else up
  }

  /** `map_touch_to_screen`: clamp `raw` into the calibration window, rescale with
      C `int` arithmetic and truncate to `uint16_t` on return. The divisor must be
      non-zero and the promoted product must not overflow C's `int`. */
  function MapTouchToScreen(raw: u16, rawMin: u16, rawMax: u16, screenSize: u16): (pixel: u16)
    requires rawMin != rawMax
    requires Abs(rawMax - rawMin) * screenSize <= INT_MAX
    ensures rawMin < rawMax ==> pixel <= screenSize
    ensures rawMin < rawMax && raw <= rawMin ==> pixel == 0
    ensures rawMin < rawMax && raw >= rawMax ==> pixel == screenSize
    ensures rawMax < rawMin ==> pixel == screenSize
  {
    var clamped := Clamp(raw, rawMin, rawMax);
    ProductBounds(clamped - rawMin, rawMax - rawMin, screenSize);
    var wide := CDiv((clamped - rawMin) * screenSize, rawMax - rawMin);
    assert rawMin < rawMax ==> wide == ((clamped - rawMin) * screenSize) / (rawMax - rawMin);
    assert rawMin < rawMax ==> 0 <= wide <= screenSize;
    wide % 0x1_0000
  }

  /** The scaled numerator never exceeds the divisor times the screen size, and a
      full-scale numerator divides back to the screen size. */
  lemma ProductBounds(n: int, d: int, s: nat)
    requires d != 0
    requires d > 0 ==> 0 <= n <= d
    requires d < 0 ==> n == d
    ensures d > 0 ==> 0 <= n * s <= d * s && 0 <= (n * s) / d <= s
    ensures d > 0 && n == d ==> (n * s) / d == s
    ensures d < 0 ==> CDiv(n * s, d) == s
  {
    if d > 0 {
      MulMonotone(0, n, s);
      MulMonotone(n, d, s);
      DivMonotone(0, n * s, d);
      DivMonotone(n * s, d * s, d);
      DivCancel(d, s);
    } else {
      var m := Abs(d);
      assert n * s == -(m * s);
      MulMonotone(0, m, s);
      DivCancel(m, s);
      if s == 0 {
        assert n * s == 0;
      } else {
        MulMonotone(1, m, s);
        assert n * s < 0;
        assert Abs(n * s) == m * s;
      }
    }
  }

  lemma MulMonotone(a: int, b: int, s: nat)
    requires a <= b
    ensures a * s <= b * s
  {
  }

  /** Euclidean division by a positive divisor is monotone in the dividend. */
  lemma DivMonotone(a: int, b: int, d: int)
    requires a <= b && d > 0
    ensures a / d <= b / d
  {
    var qa, qb := a / d, b / d;
    assert a == d * qa + a % d && 0 <= a % d < d;
    assert b == d * qb + b % d && 0 <= b % d < d;
    if qa > qb {
      MulStep(d, qb, qa);
      assert false;
    }
  }

  /** For `d > 0` and `x < y`, `d * x + d <= d * y`. */
  lemma MulStep(d: int, x: int, y: int)
    requires d > 0 && x < y
    ensures d * x + d <= d * y
  {
    assert d * y == d * x + d * (y - x);
    MulMonotone(1, y - x, d);
  }

  /** Multiplying by a positive divisor and dividing again is the identity. */
  lemma DivCancel(d: int, s: int)
    requires d > 0
    ensures (d * s) / d == s
  {
    var q, r := (d * s) / d, (d * s) % d;
    assert d * s == d * q + r && 0 <= r < d;
    if q < s {
      MulStep(d, q, s);
      assert false;
    } else if q > s {
      MulStep(d, s, q);
      assert false;
    }
  }

  /** Inside a well-ordered window the mapper is the plain scaled quotient: the C
      division truncates like Dafny's, and the result already fits in 16 bits. */
  lemma MapValue(raw: u16, rawMin: u16, rawMax: u16, screenSize: u16)
    requires rawMin < rawMax
    requires Abs(rawMax - rawMin) * screenSize <= INT_MAX
    ensures MapTouchToScreen(raw, rawMin, rawMax, screenSize)
         == ((Clamp(raw, rawMin, rawMax) - rawMin) * screenSize) / (rawMax - rawMin)
  {
    var c, d := Clamp(raw, rawMin, rawMax), rawMax - rawMin;
    var n := (c - rawMin) * screenSize;
    ProductBounds(c - rawMin, d, screenSize);
    assert CDiv(n, d) == n / d;
    assert 0 <= n / d < 0x1_0000;
  }

  /** The mapper never decreases as the raw sample grows. */
  lemma {:induction false} MapMonotone(raw1: u16, raw2: u16, rawMin: u16, rawMax: u16, screenSize: u16)
    requires rawMin != rawMax
    requires Abs(rawMax - rawMin) * screenSize <= INT_MAX
    requires raw1 <= raw2
    ensures MapTouchToScreen(raw1, rawMin, rawMax, screenSize) <= MapTouchToScreen(raw2, rawMin, rawMax, screenSize)
  {
    if rawMin < rawMax {
      var c1, c2 := Clamp(raw1, rawMin, rawMax), Clamp(raw2, rawMin, rawMax);
      assert c1 <= c2;
      MapValue(raw1, rawMin, rawMax, screenSize);
      MapValue(raw2, rawMin, rawMax, screenSize);
      MulMonotone(c1 - rawMin, c2 - rawMin, screenSize);
      DivMonotone((c1 - rawMin) * screenSize, (c2 - rawMin) * screenSize, rawMax - rawMin);
    }
  }

  /** Clamping: every raw value outside the window maps like the nearer bound. */
  lemma MapClamps(raw: u16, rawMin: u16, rawMax: u16, screenSize: u16)
    requires rawMin < rawMax
    requires Abs(rawMax - rawMin) * screenSize <= INT_MAX
    ensures raw <= rawMin ==> MapTouchToScreen(raw, rawMin, rawMax, screenSize) == MapTouchToScreen(rawMin, rawMin, rawMax, screenSize)
    ensures raw >= rawMax ==> MapTouchToScreen(raw, rawMin, rawMax, screenSize) == MapTouchToScreen(rawMax, rawMin, rawMax, screenSize)
  {
  }

  /** The calibration satisfies the mapper's preconditions on both axes. */
  lemma CalibrationValid()
    ensures X_MIN < X_MAX && Abs(X_MAX - X_MIN) * SCREEN_WIDTH <= INT_MAX
    ensures Y_MIN < Y_MAX && Abs(Y_MAX - Y_MIN) * SCREEN_HEIGHT <= INT_MAX
  {
  }

  /** Concrete values with the compiled-in calibration on a 240 x 320 screen. */
  lemma CalibratedValues()
    ensures MapTouchToScreen(980, X_MIN, X_MAX, SCREEN_WIDTH) == 118
    ensures MapTouchToScreen(1050, Y_MIN, Y_MAX, SCREEN_HEIGHT) == 160
    ensures MapTouchToScreen(0, X_MIN, X_MAX, SCREEN_WIDTH) == MapTouchToScreen(X_MIN, X_MIN, X_MAX, SCREEN_WIDTH) == 0
    ensures MapTouchToScreen(5000, X_MIN, X_MAX, SCREEN_WIDTH) == MapTouchToScreen(X_MAX, X_MIN, X_MAX, SCREEN_WIDTH) == SCREEN_WIDTH
  {
  }
}
