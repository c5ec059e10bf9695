/** Types shared by the detection and music modules. */
module Common {

  datatype Option<+T> = None | Some(value: T)

  /** An opaque reference to an object of a foreign library (a Tone.js node,
      a TensorFlow model): the model only records which handle a call used. */
  type Handle = nat

  /** A bounding box in pixels: left, top, width, height. */
  datatype BBox = BBox(x: real, y: real, w: real, h: real)

  /** One object reported by the detector. videoWidth/videoHeight are the
      frame size attached by the detection loop, absent when not attached. */
  datatype Prediction = Prediction(
    cls: string,
    score: real,
    bbox: BBox,
    videoWidth: Option<real>,
    videoHeight: Option<real>)

  /** A JavaScript number as far as the model needs it: a finite value, or the
      Infinity/NaN that a division by zero produces. */
  datatype JsNumber = Finite(v: real) | NonFinite

  /** JavaScript's Math.round for finite numbers: round half up. */
  function Round(x: real): (r: int)
    ensures r as real - 0.5 <= x < r as real + 0.5
  {
    (x + 0.5).Floor
  }

  function Min(a: int, b: int): int { if a <= b then a else b }

  function MaxR(a: real, b: real): real { if a >= b then a else b }

  function MinR(a: real, b: real): real { if a <= b then a else b }

  /** JavaScript's % on integers: the remainder takes the sign of the dividend. */
  function JsRem(a: int, n: int): (r: int)
    requires n > 0
    ensures a >= 0 ==> r == a % n
    ensures a < 0 ==> -n < r <= 0
  {
    if a >= 0 then a % n else -((-a) % n)
  }

  // --- integer division -----------------------------------------------------

  lemma {:induction false} MulAtLeast(n: int, d: int)
    requires n > 0 && d >= 1
    ensures n * d >= n
    decreases d
  {
    if d > 1 {
      MulAtLeast(n, d - 1);
      assert n * d == n * (d - 1) + n;
    }
  }

  lemma DivModUnique(a: int, n: int, q: int, r: int)
    requires n > 0 && 0 <= r < n && a == n * q + r
    ensures a / n == q && a % n == r
  {
    var q0, r0 := a / n, a % n;
    assert a == n * q0 + r0;
    if q0 > q {
      var d := q0 - q;
      assert n * q0 == n * q + n * d;
      MulAtLeast(n, d);
      assert false;
    } else if q0 < q {
      var d := q - q0;
      assert n * q == n * q0 + n * d;
      MulAtLeast(n, d);
      assert false;
    }
  }

  lemma ModShift(a: int, k: int, n: int)
    requires n > 0
    ensures (a + k * n) % n == a % n
    ensures (a + k * n) / n == a / n + k
  {
    DivModUnique(a + k * n, n, a / n + k, a % n);
  }

  /** Adding a multiple of n to the left operand commutes with % n. */
  lemma ModAddLeft(a: int, b: int, n: int)
    requires n > 0
    ensures ((a % n) + b) % n == (a + b) % n
  {
    assert a + b == (a % n + b) + (a / n) * n;
    ModShift(a % n + b, a / n, n);
  }

  /** s[i] of a JavaScript array: undefined (None) outside its bounds. */
  function At<T>(s: seq<T>, i: int): (r: Option<T>)
    ensures r.Some? <==> 0 <= i < |s|
    ensures r.Some? ==> r.value == s[i]
  {
    if 0 <= i < |s| then Some(s[i]) else None
  }
}
