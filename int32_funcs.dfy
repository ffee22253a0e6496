/**
 * The unary `int4` scalar functions (src/expr/src/scalar/func/impls/int32.rs):
 * SQL `-`, `~` and `abs` on a 32-bit signed integer. Rust's `-a` and
 * `a.abs()` overflow for `i32::MIN`, whose negation does not fit; the
 * model reports that case as an error instead of a value. `!a` is the
 * bitwise complement of the two's-complement representation.
 */
module Int32Funcs {
  import opened Wrappers

  const I32_MIN: int := -0x8000_0000
  const I32_MAX: int := 0x7FFF_FFFF

  newtype i32 = x: int | -0x8000_0000 <= x <= 0x7FFF_FFFF

  datatype EvalError = Int32OutOfRange

  /** `neg_int32`: `-a`, which exists exactly when `a` is not `i32::MIN`. */
  function NegInt32(a: i32): (r: Result<i32, EvalError>)
    ensures r.Ok? <==> a as int != I32_MIN
    ensures r.Ok? ==> r.value as int + a as int == 0
    ensures r.Err? ==> -(a as int) > I32_MAX
  {
    if a as int == I32_MIN then Err(Int32OutOfRange) else Ok(-a)
  }

  /** Negating twice gives back the argument whenever the first negation fits. */
  lemma NegInvolution(a: i32)
    requires a as int != I32_MIN
    ensures NegInt32(a).Ok? && NegInt32(NegInt32(a).value) == Ok(a)
  {
  }

  /** `abs_int32`: `|a|`, which exists exactly when `a` is not `i32::MIN`. */
  function AbsInt32(a: i32): (r: Result<i32, EvalError>)
    ensures r.Ok? <==> a as int != I32_MIN
    ensures r.Ok? ==> r.value >= 0 && (r.value == a || r.value as int == -(a as int))
    ensures r.Ok? && a < 0 ==> NegInt32(a) == r
  {
    if a as int == I32_MIN then Err(Int32OutOfRange) else if a < 0 then Ok(-a) else Ok(a)
  }

  function Pow2(n: nat): (p: nat)
    ensures p >= 1
  {
    if n == 0 then 1 else 2 * Pow2(n - 1)
  }

  const WIDTH: nat := 32

  lemma Pow2Width()
    ensures Pow2(WIDTH) == 0x1_0000_0000
  {
    assert Pow2(4) == 16;
    Pow2Add(4, 4);
    Pow2Add(8, 8);
    Pow2Add(16, 16);
  }

  lemma {:induction false} Pow2Add(m: nat, n: nat)
    ensures Pow2(m + n) == Pow2(m) * Pow2(n)
  {
    if m > 0 {
      Pow2Add(m - 1, n);
    }
  }

  /** The value of a bit pattern, least significant bit first. */
  function Unsigned(bits: seq<bool>): (u: nat)
    ensures u < Pow2(|bits|)
  {
    if bits == [] then 0 else (if bits[0] then 1 else 0) + 2 * Unsigned(bits[1..])
  }

  /** The lowest `width` bits of `n`, least significant first. */
  function Encode(n: nat, width: nat): (bits: seq<bool>)
    ensures |bits| == width
  {
    if width == 0 then [] else [n % 2 == 1] + Encode(n / 2, width - 1)
  }

  /** Encoding a number that fits loses nothing. */
  lemma {:induction false} UnsignedEncode(n: nat, width: nat)
    requires n < Pow2(width)
    ensures Unsigned(Encode(n, width)) == n
  {
    if width > 0 {
      UnsignedEncode(n / 2, width - 1);
      assert Encode(n, width)[1..] == Encode(n / 2, width - 1);
    }
  }

  /** The two's-complement bit pattern of `a`. */
  function ToBits(a: i32): (bits: seq<bool>)
    ensures |bits| == WIDTH
  {
    Encode(if a >= 0 then a as int else a as int + 0x1_0000_0000, WIDTH)
  }

  /** The value of a 32-bit two's-complement pattern. */
  function FromBits(bits: seq<bool>): (a: i32)
    requires |bits| == WIDTH
  {
    Pow2Width();
    var u := Unsigned(bits);
    if u <= I32_MAX then u as i32 else (u - 0x1_0000_0000) as i32
  }

  /** Reading back the pattern of `a` gives `a`. */
  lemma FromToBits(a: i32)
    ensures FromBits(ToBits(a)) == a
  {
    Pow2Width();
    UnsignedEncode(if a >= 0 then a as int else a as int + 0x1_0000_0000, WIDTH);
  }

  /** Every bit complemented. */
  function Flip(bits: seq<bool>): (r: seq<bool>)
    ensures |r| == |bits| && forall i :: 0 <= i < |bits| ==> r[i] == !bits[i]
  {
    seq(|bits|, i requires 0 <= i < |bits| => !bits[i])
  }

  /** A pattern and its complement add up to all ones. */
  lemma {:induction false} UnsignedFlip(bits: seq<bool>)
    ensures Unsigned(Flip(bits)) + Unsigned(bits) == Pow2(|bits|) - 1
  {
    if bits != [] {
      UnsignedFlip(bits[1..]);
      assert Flip(bits)[1..] == Flip(bits[1..]);
    }
  }

  /** Writing out the value of a pattern gives the pattern back. */
  lemma {:induction false} EncodeUnsigned(bits: seq<bool>)
    ensures Encode(Unsigned(bits), |bits|) == bits
  {
    if bits != [] {
      EncodeUnsigned(bits[1..]);
      assert Unsigned(bits) / 2 == Unsigned(bits[1..]);
    }
  }

  /** Taking the pattern of the value of a 32-bit pattern gives the pattern back. */
  lemma ToFromBits(bits: seq<bool>)
    requires |bits| == WIDTH
    ensures ToBits(FromBits(bits)) == bits
  {
    Pow2Width();
    EncodeUnsigned(bits);
  }

  /** `bit_not_int32`: the complement of every bit of `a`. */
  function BitNotInt32(a: i32): (r: i32)
    ensures ToBits(r) == Flip(ToBits(a))
  {
    ToFromBits(Flip(ToBits(a)));
    FromBits(Flip(ToBits(a)))
  }

  /** In two's complement, complementing every bit is `-a - 1`, which always fits. */
  lemma BitNotIsNegMinusOne(a: i32)
    ensures BitNotInt32(a) as int == -(a as int) - 1
  {
    Pow2Width();
    UnsignedEncode(if a >= 0 then a as int else a as int + 0x1_0000_0000, WIDTH);
    UnsignedFlip(ToBits(a));
  }

  /** Complementing twice gives back the argument. */
  lemma BitNotInvolution(a: i32)
    ensures BitNotInt32(BitNotInt32(a)) == a
  {
    BitNotIsNegMinusOne(a);
    BitNotIsNegMinusOne(BitNotInt32(a));
  }
}
