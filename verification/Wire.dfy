/**
 Wire messages and the value codec at both ends: `_encode_value` in
 `src/core/batcher.py` and the decode half in `src/pit/registry_cache.py`.
 Protobuf messages are datatypes; numbers are reals and unbounded integers with
 the wire's integer ranges checked explicitly.
 */
module Wire {
  import opened Basics

  datatype Value = Real(r: real) | Integer(i: int) | Flag(b: bool) | Str(s: string)

  datatype ValueType = Double | Int64 | Boolean | Text | Float | Uint

  /** The oneof arms of a wire sample. */
  datatype WireValue = D(d: real) | I(i: int) | B(b: bool) | S(s: string) | F(f: real) | U(u: int)

  /** How a channel is encoded: `ChannelPolicy` without its name and filter. */
  datatype Coding = Coding(kind: ValueType, scale: real, offset: real) {
    /** What the configuration model accepts (`EncodeConfig`). */
    predicate Configured() {
      && scale >= 0.0
      && (scale != 0.0 ==> kind == Int64 || kind == Uint)
      && (scale == 0.0 ==> offset == 0.0)
    }
  }

  datatype Channel = Channel(id: nat, name: string, sourceRef: string, units: string, coding: Coding)

  datatype ChannelRegistry = ChannelRegistry(registrySeq: nat, channels: seq<Channel>)

  datatype WireSample = WireSample(channelId: nat, offsetUs: int, value: Option<WireValue>)

  datatype SampleBatch = SampleBatch(
    registrySeq: nat, epochUnixMs: int, epochMonoNs: int, formatVersion: nat, samples: seq<WireSample>)

  datatype EncodeError = TypeError | ValueError

  datatype Result<+T> = Ok(value: T) | Err(error: EncodeError)

  // ----- rounding ------------------------------------------------------------

  /** Round half to even. */
  function Round(x: real): (n: int)
    ensures -0.5 <= n as real - x <= 0.5
  {
    var f := x.Floor;
    var d := x - f as real;
    if d < 0.5 || (d == 0.5 && f % 2 == 0) then f else f + 1
  }

  /** Values more than one apart never round to the same integer. */
  lemma RoundSeparates(x: real, y: real)
    requires y - x > 1.0
    ensures Round(x) < Round(y)
  {
  }

  // ----- encoding ------------------------------------------------------------

  function AsReal(v: Value): Option<real> {
    match v
    case Real(r) => Some(r)
    case Integer(i) => Some(i as real)
    case _ => None
  }

  predicate InInt64(n: int) { -0x8000_0000_0000_0000 <= n < 0x8000_0000_0000_0000 }

  predicate InUint64(n: int) { 0 <= n < 0x1_0000_0000_0000_0000 }

  /** The integer put on the wire for an integer channel. */
  function WireInteger(v: Value, c: Coding): Result<int>
    requires c.Configured()
  {
    if AsReal(v).None? then Err(TypeError)
    else if c.scale != 0.0 then Ok(Round((AsReal(v).value - c.offset) / c.scale))
    else
      match v
      case Integer(i) => Ok(i)
      case Real(r) => if r.Floor as real == r then Ok(r.Floor) else Err(TypeError)
      case _ => Err(TypeError)
  }

  /** `_encode_value`. */
  function Encode(v: Value, c: Coding): Result<WireValue>
    requires c.Configured()
  {
    match c.kind
    case Double => (match AsReal(v) case Some(r) => Ok(D(r)) case None => Err(TypeError))
    case Float => (match AsReal(v) case Some(r) => Ok(F(r)) case None => Err(TypeError))
    case Int64 =>
      (match WireInteger(v, c)
       case Err(e) => Err(e)
       case Ok(n) => if InInt64(n) then Ok(I(n)) else Err(ValueError))
    case Uint =>
      (match WireInteger(v, c)
       case Err(e) => Err(e)
       case Ok(n) => if InUint64(n) then Ok(U(n)) else Err(ValueError))
    case Boolean =>
      (match v
       case Flag(b) => Ok(B(b))
       case Str(_) => Err(TypeError)
       case _ => if AsReal(v) == Some(0.0) || AsReal(v) == Some(1.0) then Ok(B(AsReal(v) == Some(1.0))) else Err(TypeError))
    case Text => if v.Str? then Ok(S(v.s)) else Err(TypeError)
  }

  // ----- what a channel can carry --------------------------------------------

  /** The whole number of steps of `scale` from `offset` nearest to `x`, the even one of two equally near. */
  ghost predicate NearestStep(x: real, scale: real, offset: real, n: int)
    requires scale > 0.0
  {
    var miss := Abs(n as real * scale + offset - x);
    miss < scale / 2.0 || (miss == scale / 2.0 && n % 2 == 0)
  }

  /** An integer the channel would put on the wire for the number `x`. */
  ghost predicate StandsFor(x: real, c: Coding, n: int)
    requires c.Configured()
  {
    if c.scale == 0.0 then n as real == x else NearestStep(x, c.scale, c.offset, n)
  }

  ghost predicate InRangeOf(kind: ValueType, n: int) {
    if kind == Uint then 0 <= n < 0x1_0000_0000_0000_0000 else -0x8000_0000_0000_0000 <= n < 0x8000_0000_0000_0000
  }

  /**
   The values a channel can carry. Floating channels: every number. Text: every
   string. Boolean: flags, and the numbers 0 and 1. Integer channels: the
   numbers whose integer, or nearest step where a scale is set, is in the
   wire's range.
   */
  ghost predicate Carriable(v: Value, c: Coding)
    requires c.Configured()
  {
    match c.kind
    case Double => v.Real? || v.Integer?
    case Float => v.Real? || v.Integer?
    case Text => v.Str?
    case Boolean => v.Flag? || v == Integer(0) || v == Integer(1) || v == Real(0.0) || v == Real(1.0)
    case _ =>
      match v
      case Integer(i) => exists n :: StandsFor(i as real, c, n) && InRangeOf(c.kind, n)
      case Real(r) => exists n :: StandsFor(r, c, n) && InRangeOf(c.kind, n)
      case _ => false
  }

  lemma NearestIsRounded(x: real, scale: real, offset: real, n: int)
    requires scale > 0.0
    ensures NearestStep(x, scale, offset, n) <==> n == Round((x - offset) / scale)
  {
    var q := (x - offset) / scale;
    Missed(n as real, q, scale, x - offset);
    Shrunk(n as real - q, scale);
    RoundIsNearest(q, n);
  }

  lemma Missed(n: real, q: real, scale: real, d: real)
    requires scale > 0.0 && q == d / scale
    ensures n * scale - d == (n - q) * scale
  {
    assert q * scale == d;
  }

  lemma RoundIsNearest(q: real, n: int)
    ensures n == Round(q) <==> Abs(n as real - q) < 0.5 || (Abs(n as real - q) == 0.5 && n % 2 == 0)
  {
  }

  lemma Signs(e: real, scale: real)
    requires scale > 0.0
    ensures e > 0.0 ==> e * scale > 0.0
    ensures e < 0.0 ==> e * scale < 0.0
  {
    if e < 0.0 {
      assert (-e) * scale > 0.0;
    }
  }

  lemma Shrunk(e: real, scale: real)
    requires scale > 0.0
    ensures Abs(e * scale) < scale / 2.0 <==> Abs(e) < 0.5
    ensures Abs(e * scale) == scale / 2.0 <==> Abs(e) == 0.5
  {
    var a := Abs(e);
    assert Abs(e * scale) == a * scale by {
      Signs(e, scale);
    }
    Signs(a - 0.5, scale);
    assert (a - 0.5) * scale == a * scale - scale / 2.0;
  }

  /** The wire integer, where there is one, is the only integer that stands for the number. */
  lemma WireIntegerStands(v: Value, c: Coding, n: int)
    requires c.Configured() && (c.kind == Int64 || c.kind == Uint) && AsReal(v).Some?
    ensures WireInteger(v, c) == Ok(n) <==> StandsFor(AsReal(v).value, c, n)
  {
    if c.scale != 0.0 {
      NearestIsRounded(AsReal(v).value, c.scale, c.offset, n);
    }
  }

  lemma IntegerIffCarriable(v: Value, c: Coding, x: real)
    requires c.Configured() && (c.kind == Int64 || c.kind == Uint) && AsReal(v) == Some(x)
    ensures Encode(v, c).Ok? <==> exists n :: StandsFor(x, c, n) && InRangeOf(c.kind, n)
  {
    if Encode(v, c).Ok? {
      var n := WireInteger(v, c).value;
      WireIntegerStands(v, c, n);
      assert StandsFor(x, c, n) && InRangeOf(c.kind, n);
    }
    if n :| StandsFor(x, c, n) && InRangeOf(c.kind, n) {
      WireIntegerStands(v, c, n);
    }
  }

  /** Encoding succeeds exactly on the values the channel can carry. */
  lemma EncodesIffCarriable(v: Value, c: Coding)
    requires c.Configured()
    ensures Encode(v, c).Ok? <==> Carriable(v, c)
  {
    if (c.kind == Int64 || c.kind == Uint) && AsReal(v).Some? {
      IntegerIffCarriable(v, c, AsReal(v).value);
    }
  }

  /** And of the two errors it is the range error exactly where the number has a wire integer but none that fits. */
  lemma RangeErrorIff(v: Value, c: Coding)
    requires c.Configured()
    ensures Encode(v, c) == Err(ValueError) <==>
            (c.kind == Int64 || c.kind == Uint) && AsReal(v).Some? && !Carriable(v, c) && exists n :: StandsFor(AsReal(v).value, c, n)
  {
    EncodesIffCarriable(v, c);
    if (c.kind == Int64 || c.kind == Uint) && AsReal(v).Some? {
      if WireInteger(v, c).Ok? {
        WireIntegerStands(v, c, WireInteger(v, c).value);
      }
      if n :| StandsFor(AsReal(v).value, c, n) {
        WireIntegerStands(v, c, n);
      }
    }
  }

  // ----- decoding ------------------------------------------------------------

  /** The fixed-point convention for integers. */
  function Physical(n: int, c: Coding): Value {
    if c.scale == 0.0 then Integer(n) else Real(n as real * c.scale + c.offset)
  }

  /** The physical value of one wire value: `wire * scale + offset` where a scale is set and the arm is numeric. */
  function Decode(w: WireValue, c: Coding): Value {
    match w
    case D(d) => Real(if c.scale != 0.0 then d * c.scale + c.offset else d)
    case F(f) => Real(if c.scale != 0.0 then f * c.scale + c.offset else f)
    case I(i) => Physical(i, c)
    case U(u) => Physical(u, c)
    case B(b) => Flag(b)
    case S(s) => Str(s)
  }

  // ----- round trip ----------------------------------------------------------

  /** `back` is what `v` may become on a channel coded `c`: itself, except within half a step where a scale is set. */
  ghost predicate Faithful(v: Value, c: Coding, back: Value) {
    match c.kind
    case Text => back == v
    case Boolean => back.Flag? && if v.Flag? then back == v else AsReal(v) == Some(if back.b then 1.0 else 0.0)
    case Double => back.Real? && AsReal(v) == Some(back.r)
    case Float => back.Real? && AsReal(v) == Some(back.r)
    case _ =>
      if c.scale == 0.0 then back.Integer? && AsReal(v) == Some(back.i as real)
      else back.Real? && AsReal(v).Some? && Abs(back.r - AsReal(v).value) <= c.scale / 2.0
  }

  lemma NonNegative(a: real, b: real)
    requires a >= 0.0 && b >= 0.0
    ensures a * b >= 0.0
  {
  }

  lemma Scaled(e: real, scale: real)
    requires -0.5 <= e <= 0.5 && scale > 0.0
    ensures -(scale / 2.0) <= e * scale <= scale / 2.0
  {
    NonNegative(0.5 - e, scale);
    NonNegative(0.5 + e, scale);
    assert (0.5 - e) * scale == scale / 2.0 - e * scale;
    assert (0.5 + e) * scale == scale / 2.0 + e * scale;
  }

  lemma ScaledWithinHalfStep(x: real, scale: real, offset: real, n: int)
    requires scale > 0.0 && n == Round((x - offset) / scale)
    ensures Abs(n as real * scale + offset - x) <= scale / 2.0
  {
    var q := (x - offset) / scale;
    var e := n as real - q;
    Scaled(e, scale);
    assert q * scale == x - offset;
    assert e * scale == n as real * scale - q * scale;
    assert n as real * scale + offset - x == e * scale;
  }

  lemma IntegerRoundTrip(v: Value, c: Coding, n: int)
    requires c.Configured() && (c.kind == Int64 || c.kind == Uint) && WireInteger(v, c) == Ok(n)
    ensures Faithful(v, c, Physical(n, c))
  {
    if c.scale != 0.0 {
      ScaledWithinHalfStep(AsReal(v).value, c.scale, c.offset, n);
    }
  }

  lemma ExactRoundTrip(v: Value, c: Coding)
    requires c.Configured() && c.kind != Int64 && c.kind != Uint && Encode(v, c).Ok?
    ensures Faithful(v, c, Decode(Encode(v, c).value, c))
  {
    assert c.scale == 0.0;
  }

  /** Whatever encodes decodes to itself, or to within half a step of itself on a scaled integer channel. */
  lemma RoundTrip(v: Value, c: Coding)
    requires c.Configured() && Encode(v, c).Ok?
    ensures Faithful(v, c, Decode(Encode(v, c).value, c))
  {
    if c.kind == Int64 || c.kind == Uint {
      var n := WireInteger(v, c).value;
      IntegerRoundTrip(v, c, n);
      assert Decode(Encode(v, c).value, c) == Physical(n, c);
    } else {
      ExactRoundTrip(v, c);
    }
  }
}
