/** The conversions the device drivers apply before writing a number to a
    16-bit holding register: Python's `int()` and `float()` on a bus value,
    and the two's-complement wrap of a negative value
    (`if v < 0: v += 65536`). */
module Int16 {
  import opened Wrappers
  import opened Text
  import opened Values
  import opened Decoder

  /** `int(x)` on a float: truncation toward zero. */
  function Trunc(x: real): (n: int)
    ensures n as real <= x < n as real + 1.0 || n as real - 1.0 < x <= n as real
    ensures x >= 0.0 ==> n >= 0 && n as real <= x
    ensures x < 0.0 ==> n <= 0 && x <= n as real
  {
    if x >= 0.0 then x.Floor else -((-x).Floor)
  }

  lemma TruncOfInt(n: int)
    ensures Trunc(n as real) == n
  {
  }

  /** `if v < 0: v += 65536`. */
  function ToWord(v: int): (w: int)
    ensures v < 0 ==> w == v + 0x1_0000
    ensures v >= 0 ==> w == v
    ensures -0x8000 <= v < 0x8000 ==> 0 <= w < 0x1_0000
  {
    if v < 0 then v + 0x1_0000 else v
  }

  /** A register written with a value in the signed 16-bit range reads back,
      as a `struct` `'h'` field, as that value. */
  lemma ToWordReadsBack(v: int)
    requires -0x8000 <= v < 0x8000
    ensures Signed(ToWord(v), 2) == v
  {
    assert Pow256(2) == 0x1_0000;
  }

  /** `int(v)` on a bus value. Text is accepted when it is an optional
      minus sign followed by digits; the other spellings Python accepts
      (blanks, `+`, `_`) are reported as `NotModelled`. */
  function PyInt(v: Value): (r: Result<int>)
    ensures v.Int? ==> r == Ok(v.i)
    ensures v.Real? ==> r == Ok(Trunc(v.r))
    ensures v.Str? && ParseInt(v.s).Some? ==> r == Ok(ParseInt(v.s).value)
    ensures v.Null? || v.List? || v.Dict? || v.Time? ==> r == Err("TypeError")
  {
    match v
    case Int(i) => Ok(i)
    case Real(x) => Ok(Trunc(x))
    case Bool(b) => Ok(if b then 1 else 0)
    case Str(s) => if ParseInt(s).Some? then Ok(ParseInt(s).value) else Err("NotModelled")
    case JsonText(Int(i)) => Ok(i)
    case JsonText(_) => Err("NotModelled")
    case IsoText(_) => Err("ValueError")
    case Null => Err("TypeError")
    case Time(_) => Err("TypeError")
    case List(_) => Err("TypeError")
    case Dict(_) => Err("TypeError")
  }

  /** `float(v)` on a bus value, with the same reading of text as `PyInt`. */
  function PyFloat(v: Value): (r: Result<real>)
    ensures v.Int? ==> r == Ok(v.i as real)
    ensures v.Real? ==> r == Ok(v.r)
    ensures v.Str? && ParseInt(v.s).Some? ==> r == Ok(ParseInt(v.s).value as real)
    ensures v.Null? || v.List? || v.Dict? || v.Time? ==> r == Err("TypeError")
  {
    match v
    case Int(i) => Ok(i as real)
    case Real(x) => Ok(x)
    case Bool(b) => Ok(if b then 1.0 else 0.0)
    case Str(s) => if ParseInt(s).Some? then Ok(ParseInt(s).value as real) else Err("NotModelled")
    case JsonText(Int(i)) => Ok(i as real)
    case JsonText(_) => Err("NotModelled")
    case IsoText(_) => Err("ValueError")
    case Null => Err("TypeError")
    case Time(_) => Err("TypeError")
    case List(_) => Err("TypeError")
    case Dict(_) => Err("TypeError")
  }

  /** `int(float(v))` and `int(v)` agree wherever both are defined: the
      float path only adds the truncation `int` would do itself. */
  lemma IntOfFloat(v: Value)
    requires PyFloat(v).Ok?
    ensures PyInt(v) == Ok(Trunc(PyFloat(v).value))
  {
    match v
    case Int(i) => TruncOfInt(i);
    case Bool(b) => TruncOfInt(if b then 1 else 0);
    case Str(s) => TruncOfInt(ParseInt(s).value);
    case JsonText(j) => TruncOfInt(j.i);
    case Real(_) =>
  }

  /** Text written by `str(n)` converts back to `n`. */
  lemma PyIntOfText(n: int)
    ensures PyInt(Str(IntToString(n))) == Ok(n)
    ensures PyFloat(Str(IntToString(n))) == Ok(n as real)
  {
    IntToStringRoundTrip(n);
  }
}
