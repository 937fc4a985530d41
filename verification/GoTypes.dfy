/** Go's fixed-width integers, truncating division and zero-padded decimals. */
module GoTypes {

  datatype Option<+T> = None | Some(value: T)

  type Byte = x: int | 0 <= x < 0x100
  type UInt16 = x: int | 0 <= x < 0x1_0000
  type UInt32 = x: int | 0 <= x < 0x1_0000_0000
  type Int32 = x: int | -0x8000_0000 <= x < 0x8000_0000
  type Int64 = x: int | -0x8000_0000_0000_0000 <= x < 0x8000_0000_0000_0000

  /** Conversion to int32, keeping the low 32 bits. */
  function Wrap32(x: int): Int32 {
    (x + 0x8000_0000) % 0x1_0000_0000 - 0x8000_0000
  }

  /** The value an int64 operation leaves when its exact result is `x`. */
  function Wrap64(x: int): Int64 {
    (x + 0x8000_0000_0000_0000) % 0x1_0000_0000_0000_0000 - 0x8000_0000_0000_0000
  }

  /** The time.Duration since a moment `x` nanoseconds ago: the difference of two times saturates. */
  function Since(x: int): Int64 {
    if x > 0x7FFF_FFFF_FFFF_FFFF then 0x7FFF_FFFF_FFFF_FFFF
    else if x < -0x8000_0000_0000_0000 then -0x8000_0000_0000_0000
    else x
  }

  /** Go's `/` for a positive divisor: truncation toward zero. */
  function Quo(a: int, b: int): int
    requires b > 0
  {
    if a >= 0 then a / b else -((-a) / b)
  }

  function Rem(a: int, b: int): int
    requires b > 0
  {
    a - Quo(a, b) * b
  }

  function Digit(d: nat): char
    requires d < 10
  {
    ('0' as int + d) as char
  }

  function Decimal(n: nat): string {
    if n < 10 then [Digit(n)] else Decimal(n / 10) + [Digit(n % 10)]
  }

  function Zeros(n: nat): string {
    seq(n, _ => '0')
  }

  function ZeroPad(s: string, width: nat): string {
    if |s| >= width then s else Zeros(width - |s|) + s
  }

  /** `fmt.Sprintf("%0<width>d", n)`: the sign counts towards the width. */
  function SprintfPadded(width: nat, n: int): string
    requires width > 0
  {
    if n >= 0 then ZeroPad(Decimal(n), width) else "-" + ZeroPad(Decimal(-n), width - 1)
  }

  /** The number a digit string denotes; leading zeros do not matter. */
  function DecimalValue(s: string): int {
    if s == [] then 0
    else DecimalValue(s[..|s| - 1]) * 10 + (s[|s| - 1] as int - '0' as int)
  }

  ghost predicate AllDigits(s: string) {
    forall i :: 0 <= i < |s| ==> '0' <= s[i] <= '9'
  }

  lemma {:induction false} DecimalRoundTrip(n: nat)
    ensures DecimalValue(Decimal(n)) == n && AllDigits(Decimal(n))
  {
    if n >= 10 {
      DecimalRoundTrip(n / 10);
      assert Decimal(n)[..|Decimal(n)| - 1] == Decimal(n / 10);
    } else {
      assert Decimal(n)[..0] == [];
    }
  }

  lemma {:induction false} ZerosDenoteZero(n: nat)
    ensures DecimalValue(Zeros(n)) == 0
  {
    if n > 0 {
      assert Zeros(n)[..n - 1] == Zeros(n - 1);
      ZerosDenoteZero(n - 1);
    }
  }

  lemma {:induction false} LeadingZeros(n: nat, s: string)
    ensures DecimalValue(Zeros(n) + s) == DecimalValue(s)
  {
    var padded := Zeros(n) + s;
    if s == [] {
      assert padded == Zeros(n);
      ZerosDenoteZero(n);
    } else {
      assert padded[..|padded| - 1] == Zeros(n) + s[..|s| - 1];
      LeadingZeros(n, s[..|s| - 1]);
    }
  }

  /** Padding never loses the number, however many digits it has. */
  lemma PaddedRoundTrip(width: nat, n: nat)
    requires width > 0
    ensures DecimalValue(SprintfPadded(width, n)) == n && AllDigits(SprintfPadded(width, n))
  {
    DecimalRoundTrip(n);
    var s := Decimal(n);
    if |s| < width {
      LeadingZeros(width - |s|, s);
    }
  }

  /** The digits of a number, without leading zeros. */
  lemma {:induction false} DecimalShape(n: nat)
    ensures |Decimal(n)| >= 1 && (|Decimal(n)| > 1 ==> Decimal(n)[0] != '0')
  {
    if n >= 10 {
      DecimalShape(n / 10);
      if n / 10 < 10 {
        assert Decimal(n)[0] == Digit(n / 10);
      } else {
        assert Decimal(n)[0] == Decimal(n / 10)[0];
        DecimalLength(n / 10);
      }
    }
  }

  lemma DecimalLength(n: nat)
    requires n >= 10
    ensures |Decimal(n)| > 1
  {
  }

  /** Padding fills up to the width and never cuts. */
  lemma PaddedShape(width: nat, n: nat)
    requires width > 0
    ensures var s := SprintfPadded(width, n); |s| >= width && (|s| > width ==> s[0] != '0')
  {
    DecimalShape(n);
  }

  /** The digits `d` are the number `n`. */
  ghost predicate Denotes(d: string, n: int) {
    d != "" && AllDigits(d) && DecimalValue(d) == n
  }

  lemma OneMore(n: int, m: int)
    ensures (n + 1) * m == n * m + m
  {
  }
}
