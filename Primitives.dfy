/** The C# and .NET primitives the path utilities are built from: fixed-width
    unsigned integers with their shift, unchecked addition and bitwise or;
    indexing and slicing a `ReadOnlySpan<char>` together with the exceptions
    they throw; `LastIndexOf`; and `uint.Parse` restricted to plain decimal
    digits. */
module Primitives {

  /** C#'s `uint`, `ulong` and `byte`. */
  newtype uint32 = x: int | 0 <= x < 0x1_0000_0000
  newtype uint64 = x: int | 0 <= x < 0x1_0000_0000_0000_0000
  newtype byte = x: int | 0 <= x < 0x100

  const UINT32_MODULUS: int := 0x1_0000_0000

  function Pow2(k: nat): (r: nat)
    ensures r > 0
  {
    if k == 0 then 1 else 2 * Pow2(k - 1)
  }

  function Pow10(k: nat): (r: nat)
    ensures r > 0
  {
    if k == 0 then 1 else 10 * Pow10(k - 1)
  }

  lemma Pow2Values()
    ensures Pow2(8) == 0x100 && Pow2(16) == 0x1_0000 && Pow2(32) == UINT32_MODULUS
  {
    Pow2Sum(8, 8);
    Pow2Sum(16, 16);
  }

  lemma {:induction false} Pow2Sum(a: nat, b: nat)
    ensures Pow2(a + b) == Pow2(a) * Pow2(b)
  {
    if a > 0 {
      Pow2Sum(a - 1, b);
      assert Pow2(a + b) == 2 * Pow2(a - 1 + b);
    }
  }

  // ---------------------------------------------------------------------------
  // Exceptions and results
  // ---------------------------------------------------------------------------

  /** The exceptions the utilities can throw. */
  datatype Exception =
    | IndexOutOfRange(index: int)                 // span[index] outside 0 .. Length - 1
    | ArgumentOutOfRange(start: int, length: int) // a slice or range outside the span
    | Format(text: string)                        // uint.Parse of text that is not a number
    | Overflow(text: string)                      // uint.Parse of a number above uint.MaxValue

  /** A value, or the exception thrown instead of producing it. */
  datatype Result<+T> = Ok(value: T) | Throws(error: Exception) {
    predicate IsFailure() {
      Throws?
    }

    function PropagateFailure<U>(): Result<U>
      requires Throws?
    {
      Throws(error)
    }

    function Extract(): T
      requires Ok?
    {
      value
    }
  }

  // ---------------------------------------------------------------------------
  // ReadOnlySpan<char>
  // ---------------------------------------------------------------------------

  /** `span[index]`. */
  function At(span: string, index: int): (r: Result<char>)
    ensures r.Ok? <==> 0 <= index < |span|
    ensures r.Ok? ==> r.value == span[index]
    ensures r.Throws? ==> r.error == IndexOutOfRange(index)
  {
    if 0 <= index < |span| then Ok(span[index]) else Throws(IndexOutOfRange(index))
  }

  /** `span.Slice(start, length)`; C# lowers the range forms `span[a..b]` and
      `span[a..]` to `span.Slice(a, b - a)` and `span.Slice(a, span.Length - a)`. */
  function Slice(span: string, start: int, length: int): (r: Result<string>)
    ensures r.Ok? <==> 0 <= start && 0 <= length && start + length <= |span|
    ensures r.Ok? ==> |r.value| == length && forall i | 0 <= i < length :: r.value[i] == span[start + i]
    ensures r.Throws? ==> r.error == ArgumentOutOfRange(start, length)
  {
    if 0 <= start && 0 <= length && start + length <= |span| then Ok(span[start..start + length])
    else Throws(ArgumentOutOfRange(start, length))
  }

  /** `span.LastIndexOf(value)`: the position of the last occurrence, or -1. */
  function LastIndexOf(span: string, value: char): (r: int)
    ensures -1 <= r < |span|
    ensures 0 <= r ==> span[r] == value
    ensures forall i | r < i < |span| :: span[i] != value
  {
    if |span| == 0 then -1
    else if span[|span| - 1] == value then |span| - 1
    else LastIndexOf(span[..|span| - 1], value)
  }

  // ---------------------------------------------------------------------------
  // Decimal numbers: uint.Parse and its inverse
  // ---------------------------------------------------------------------------

  predicate IsDigit(c: char) {
    '0' <= c <= '9'
  }

  predicate AllDigits(s: string) {
    forall i | 0 <= i < |s| :: IsDigit(s[i])
  }

  function DigitValue(c: char): nat
    requires IsDigit(c)
  {
    c as int - '0' as int
  }

  function DigitChar(d: nat): (c: char)
    requires d < 10
    ensures IsDigit(c) && DigitValue(c) == d
  {
    ('0' as int + d) as char
  }

  /** The number a string of decimal digits denotes, most significant digit first. */
  function DecimalValue(s: string): nat
    requires AllDigits(s)
  {
    if |s| == 0 then 0 else 10 * DecimalValue(s[..|s| - 1]) + DigitValue(s[|s| - 1])
  }

  /** The decimal form of n without leading zeros, as `ToString()` writes it. */
  function Decimal(n: nat): (s: string)
    ensures 0 < |s|
  {
    if n < 10 then [DigitChar(n)] else Decimal(n / 10) + [DigitChar(n % 10)]
  }

  /** `uint.Parse(s)`, accepting exactly the non-empty strings of decimal digits. */
  function ParseUInt(s: string): (r: Result<uint32>)
    ensures r.Ok? ==> r.value as int < Pow10(|s|)
    ensures r.Throws? ==> r.error == Format(s) || r.error == Overflow(s)
  {
    if |s| == 0 || !AllDigits(s) then Throws(Format(s))
    else if DecimalValue(s) >= UINT32_MODULUS then Throws(Overflow(s))
    else
      DecimalValueBound(s);
      Ok(DecimalValue(s) as uint32)
  }

  lemma {:induction false} DecimalValueBound(s: string)
    requires AllDigits(s)
    ensures DecimalValue(s) < Pow10(|s|)
  {
    if |s| > 0 {
      DecimalValueBound(s[..|s| - 1]);
    }
  }

  lemma {:induction false} DecimalRoundTrip(n: nat)
    ensures AllDigits(Decimal(n)) && DecimalValue(Decimal(n)) == n
  {
    if n >= 10 {
      DecimalRoundTrip(n / 10);
      var s := Decimal(n);
      assert s[..|s| - 1] == Decimal(n / 10);
    }
  }

  /** Parsing what `ToString()` writes gives the number back. */
  lemma ParseUIntRoundTrip(n: uint32)
    ensures ParseUInt(Decimal(n as nat)) == Ok(n)
  {
    DecimalRoundTrip(n as nat);
  }

  // ---------------------------------------------------------------------------
  // uint arithmetic: <<, unchecked + and |
  // ---------------------------------------------------------------------------

  /** `x << count` on a uint: the count is taken modulo 32 and bits moved past
      bit 31 are lost. */
  function ShiftLeft(x: uint32, count: int): (r: uint32)
    ensures x as int * Pow2(count % 32) < UINT32_MODULUS ==> r as int == x as int * Pow2(count % 32)
  {
    ((x as int * Pow2(count % 32)) % UINT32_MODULUS) as uint32
  }

  /** `x + y` on uints in an unchecked context: the sum wraps around at 2^32. */
  function WrappingAdd(x: uint32, y: uint32): (r: uint32)
    ensures x as int + y as int < UINT32_MODULUS ==> r as int == x as int + y as int
    ensures x as int + y as int >= UINT32_MODULUS ==> r as int == x as int + y as int - UINT32_MODULUS
  {
    ((x as int + y as int) % UINT32_MODULUS) as uint32
  }

  /** Whether bit i of n is set. */
  predicate Bit(n: nat, i: nat) {
    (n / Pow2(i)) % 2 == 1
  }

  /** Bitwise or of two naturals, built from the least significant bit up. */
  function Or(a: nat, b: nat): nat
    decreases a + b
  {
    if a == 0 then b
    else if b == 0 then a
    else 2 * Or(a / 2, b / 2) + (if a % 2 == 1 || b % 2 == 1 then 1 else 0)
  }

  lemma DivisionUnique(x: int, d: int, q: int, r: int)
    requires 0 < d && 0 <= r < d && x == d * q + r
    ensures x / d == q && x % d == r
  {
    var q', r' := x / d, x % d;
    assert d * (q - q') == r' - r;
    if q - q' >= 1 {
      MulAtLeast(d, q - q');
    } else if q' - q >= 1 {
      MulAtLeast(d, q' - q);
    }
  }

  lemma MulAtLeast(d: int, k: int)
    requires 0 < d && 1 <= k
    ensures d <= d * k
  {
  }

  lemma BitOfHalf(n: nat, i: nat)
    requires 0 < i
    ensures Bit(n, i) == Bit(n / 2, i - 1)
  {
    var m := Pow2(i - 1);
    var q, r := (n / 2) / m, (n / 2) % m;
    assert n == (2 * m) * q + (2 * r + n % 2);
    DivisionUnique(n, 2 * m, q, 2 * r + n % 2);
  }

  /** Or sets exactly the bits set in either operand. */
  lemma {:induction false} OrBits(a: nat, b: nat, i: nat)
    ensures Bit(Or(a, b), i) <==> Bit(a, i) || Bit(b, i)
    decreases i
  {
    if a == 0 {
      assert 0 / Pow2(i) == 0;
    } else if b == 0 {
      assert 0 / Pow2(i) == 0;
    } else if i > 0 {
      var o := Or(a, b);
      assert o / 2 == Or(a / 2, b / 2);
      OrBits(a / 2, b / 2, i - 1);
      BitOfHalf(o, i);
      BitOfHalf(a, i);
      BitOfHalf(b, i);
    }
  }

  /** When no bit of a reaches position k and b has no bit below k, or is addition. */
  lemma {:induction false} OrDisjoint(a: nat, b: nat, k: nat)
    requires a < Pow2(k) && b % Pow2(k) == 0
    ensures Or(a, b) == a + b
  {
    if a != 0 && b != 0 {
      var m := Pow2(k - 1);
      var t := b / (2 * m);
      assert b == (2 * m) * t;
      DivisionUnique(b, 2, m * t, 0);
      DivisionUnique(b / 2, m, t, 0);
      OrDisjoint(a / 2, b / 2, k - 1);
    }
  }

  /** Or of two numbers below 2^k stays below 2^k. */
  lemma {:induction false} OrBound(a: nat, b: nat, k: nat)
    requires a < Pow2(k) && b < Pow2(k)
    ensures Or(a, b) < Pow2(k)
  {
    if a != 0 && b != 0 {
      OrBound(a / 2, b / 2, k - 1);
    }
  }

  /** `x | y` on uints. */
  function BitOr(x: uint32, y: uint32): (r: uint32)
    ensures var n, a, b := r as nat, x as nat, y as nat; forall i: nat :: Bit(n, i) <==> Bit(a, i) || Bit(b, i)
  {
    Pow2Values();
    OrBound(x as nat, y as nat, 32);
    OrBitsAll(x as nat, y as nat);
    Or(x as nat, y as nat) as uint32
  }

  lemma OrBitsAll(a: nat, b: nat)
    ensures forall i: nat :: Bit(Or(a, b), i) <==> Bit(a, i) || Bit(b, i)
  {
    forall i: nat
      ensures Bit(Or(a, b), i) <==> Bit(a, i) || Bit(b, i)
    {
      OrBits(a, b, i);
    }
  }
}
