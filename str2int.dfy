/** `str2int` of utils/common.py: decimal or `0x` hexadecimal text to an
    integer that must fit in `bits` bits, signed or unsigned.  The Python
    integer operators it uses (`>>`, `<<`, `~`, `|`) are written out on
    unbounded integers with two's-complement meaning. */
module Common {
  import opened Wrappers
  import opened Digits

  /** The ways `str2int` raises `ValueError`: text `int()` rejects, a value
      that does not fit, a negative value in unsigned mode, and a negative
      shift count (a `bits` argument below what the shifts need). */
  datatype IntError = Malformed | Overflow | NegativeUnsigned | NegativeShift

  function Pow2(k: nat): (p: int)
    ensures p >= 1
  {
    if k == 0 then 1 else 2 * Pow2(k - 1)
  }

  function Abs(n: int): nat {
    if n < 0 then -n else n
  }

  /** Python `n >> k`: floor division by 2^k (Dafny's division by a positive
      divisor rounds down). */
  function ShiftRight(n: int, k: nat): int {
    n / Pow2(k)
  }

  /** Python `n << k`. */
  function ShiftLeft(n: int, k: nat): int {
    n * Pow2(k)
  }

  /** Python `~n`. */
  function BitNot(n: int): int {
    -n - 1
  }

  lemma HalfShrinks(n: int)
    ensures Abs(n / 2) <= Abs(n)
    ensures n != 0 && n != -1 ==> Abs(n / 2) < Abs(n)
  {
  }

  /** Python `a | b` on two's-complement integers of unbounded width: bit by
      bit from the lowest, until both operands are all zeros or all ones. */
  function BitOr(a: int, b: int): int
    decreases Abs(a) + Abs(b)
  {
    if (a == 0 || a == -1) && (b == 0 || b == -1) then
      (if a == -1 || b == -1 then -1 else 0)
    else
      HalfShrinks(a);
      HalfShrinks(b);
      2 * BitOr(a / 2, b / 2) + (if a % 2 == 1 || b % 2 == 1 then 1 else 0)
  }

  /** Bit `k` of `n`. */
  predicate BitSet(n: int, k: nat) {
    ShiftRight(n, k) % 2 == 1
  }

  predicate HasHexPrefix(s: string) {
    |s| >= 2 && s[0] == '0' && (s[1] == 'x' || s[1] == 'X')
  }

  /** `int(s, 16)` for text that starts with `0x` or `0X`: accepted exactly
      when one or more hexadecimal digits follow the prefix, and then below
      2^(4 * number of digits), four bits per digit. */
  function ParseHex(s: string): (r: Option<nat>)
    requires HasHexPrefix(s)
    ensures r.Some? <==> |s| > 2 && AllHexDigits(s[2..])
    ensures r.Some? ==> r.value < Pow2(4 * (|s| - 2))
  {
    var ds := s[2..];
    if ds != [] && AllHexDigits(ds) then
      HexValueBound(ds);
      Some(HexValue(ds))
    else None
  }

  /** `int(s)`: an optional sign and one or more decimal digits.  Only a
      leading minus sign gives a negative value. */
  function ParseDecimal(s: string): (r: Option<int>)
    ensures r.Some? <==> (s != [] && AllDigits(s))
                         || (|s| > 1 && (s[0] == '-' || s[0] == '+') && AllDigits(s[1..]))
    ensures r.Some? && r.value < 0 ==> s[0] == '-'
    ensures r.Some? && s[0] != '-' ==> r.value >= 0
  {
    if s != [] && (s[0] == '-' || s[0] == '+') then
      var ds := s[1..];
      if ds != [] && AllDigits(ds) then
        Some(if s[0] == '-' then -(DecimalValue(ds) as int) else DecimalValue(ds))
      else None
    else if s != [] && AllDigits(s) then Some(DecimalValue(s))
    else None
  }

  /** `str2int(s, is_signed, bits)`.  A result fits in `bits` bits: in
      [0, 2^bits) unsigned, in [-2^(bits-1), 2^(bits-1)) signed; where
      `bits` leaves no room at all, only zero is accepted. */
  function Str2Int(s: string, isSigned: bool, bits: int): (r: Result<int, IntError>)
    ensures r.Success? && !isSigned ==> 0 <= r.value && (bits >= 0 ==> r.value < Pow2(bits))
    ensures r.Success? && isSigned && bits >= 1 ==> -Pow2(bits - 1) <= r.value < Pow2(bits - 1)
    ensures r.Success? && (if isSigned then bits < 1 else bits < 0) ==> r.value == 0
  {
    if HasHexPrefix(s) then
      match ParseHex(s)
      case None => Failure(Malformed)
      case Some(num) =>
        if bits < 0 then Failure(NegativeShift)
        else if ShiftRight(num, bits) != 0 then Failure(Overflow)
        else if !isSigned then
          ShiftRightZero(num, bits);
          Success(num)
        else if bits - 1 < 0 then Failure(NegativeShift)
        else
          var sign := ShiftRight(num, bits - 1);
          ShiftRightZero(num, bits);
          SignExtend(num, bits);
          Success(BitOr(num, BitNot(ShiftLeft(sign, bits) - 1)))
    else
      match ParseDecimal(s)
      case None => Failure(Malformed)
      case Some(num) =>
        var b := if isSigned then bits - 1 else bits;
        if !isSigned && num < 0 then Failure(NegativeUnsigned)
        else if num > 0 && b < 0 then Failure(NegativeShift)
        else if num > 0 && Abs(num) >= Pow2(b) then Failure(Overflow)
        else if num < 0 && b < 0 then Failure(NegativeShift)
        else if num < 0 && Abs(num) > Pow2(b) then Failure(Overflow)
        else Success(num)
  }

  // ------------------------------------------------------------ arithmetic

  lemma Pow2Step(k: nat)
    requires k >= 1
    ensures Pow2(k) == 2 * Pow2(k - 1)
  {
  }

  /** A non-negative number shifted right by `k` is zero exactly when it is
      below 2^k. */
  lemma ShiftRightZero(n: nat, k: nat)
    ensures ShiftRight(n, k) == 0 <==> n < Pow2(k)
  {
    DivZero(n, Pow2(k));
  }

  lemma DivZero(n: nat, p: int)
    requires p >= 1
    ensures n / p == 0 <==> n < p
  {
    var q, r := n / p, n % p;
    assert n == p * q + r && 0 <= r < p;
    if q >= 1 {
      MulGrows(p, q);
    } else if q < 0 {
      MulGrows(p, -q);
    }
  }

  lemma DivOne(n: nat, p: int)
    requires p >= 1 && p <= n < 2 * p
    ensures n / p == 1
  {
    var q, r := n / p, n % p;
    assert n == p * q + r && 0 <= r < p;
    if q >= 2 {
      MulGrows(p, q - 1);
    } else if q < 0 {
      MulGrows(p, -q);
    }
  }

  lemma MulGrows(p: int, q: int)
    requires p >= 1 && q >= 1
    ensures p * q >= p
  {
  }

  /** Below 2^k, the top bit `k-1` is set exactly when the number reaches
      2^(k-1), and the shift by k-1 leaves just that bit. */
  lemma TopBit(n: nat, k: nat)
    requires k >= 1 && n < Pow2(k)
    ensures ShiftRight(n, k - 1) == (if n >= Pow2(k - 1) then 1 else 0)
    ensures BitSet(n, k - 1) <==> n >= Pow2(k - 1)
  {
    var p := Pow2(k - 1);
    Pow2Step(k);
    if n >= p {
      DivOne(n, p);
    } else {
      DivZero(n, p);
    }
  }

  /** Or-ing with zero changes nothing. */
  lemma {:induction false} BitOrZero(n: nat)
    ensures BitOr(n, 0) == n
    decreases n
  {
    if n != 0 {
      BitOrZero(n / 2);
    }
  }

  /** Or-ing a k-bit number with the mask of all bits from k upwards, which
      is -2^k, subtracts 2^k: the sign extension `str2int` performs. */
  lemma {:induction false} BitOrHighMask(n: nat, k: nat)
    requires n < Pow2(k)
    ensures BitOr(n, -Pow2(k)) == n - Pow2(k)
    decreases k
  {
    if k > 0 {
      Pow2Step(k);
      var p := Pow2(k - 1);
      assert -Pow2(k) / 2 == -p;
      assert -Pow2(k) % 2 == 0;
      BitOrHighMask(n / 2, k - 1);
    }
  }

  /** Four bits per hexadecimal digit. */
  lemma {:induction false} HexValueBound(ds: string)
    requires AllHexDigits(ds)
    ensures HexValue(ds) < Pow2(4 * |ds|)
    decreases |ds|
  {
    if ds != [] {
      var n := |ds|;
      HexValueBound(ds[..n - 1]);
      assert Pow2(4 * n) == 16 * Pow2(4 * (n - 1)) by {
        Pow2Step(4 * n);
        Pow2Step(4 * n - 1);
        Pow2Step(4 * n - 2);
        Pow2Step(4 * n - 3);
      }
    }
  }

  /** The sign extension of a `k`-bit number: a set top bit `k-1` makes it
      `n - 2^k`, otherwise it is kept; either way it lies in
      [-2^(k-1), 2^(k-1)). */
  lemma SignExtend(n: nat, k: nat)
    requires k >= 1 && n < Pow2(k)
    ensures var v := BitOr(n, BitNot(ShiftLeft(ShiftRight(n, k - 1), k) - 1));
      && v == (if BitSet(n, k - 1) then n - Pow2(k) else n)
      && -Pow2(k - 1) <= v < Pow2(k - 1)
  {
    TopBit(n, k);
    Pow2Step(k);
    if BitSet(n, k - 1) {
      assert BitNot(ShiftLeft(1, k) - 1) == -Pow2(k);
      BitOrHighMask(n, k);
    } else {
      assert BitNot(ShiftLeft(0, k) - 1) == 0;
      BitOrZero(n);
    }
  }

  // ------------------------------------------------------ str2int contract

  /** With a hexadecimal prefix, any bit set at or above position `bits`
      is an overflow, and only then. */
  lemma HexOverflow(s: string, isSigned: bool, bits: nat)
    requires HasHexPrefix(s) && ParseHex(s).Some?
    ensures Str2Int(s, isSigned, bits) == Failure(Overflow) <==> ParseHex(s).value >= Pow2(bits)
  {
    ShiftRightZero(ParseHex(s).value, bits);
  }

  /** Unsigned hexadecimal, the default mode: a value that fits is
      returned as `int(s, 16)` read it; any other is an overflow. */
  lemma HexUnsigned(s: string, bits: nat)
    requires HasHexPrefix(s) && ParseHex(s).Some?
    ensures Str2Int(s, false, bits)
            == if ParseHex(s).value < Pow2(bits) then Success(ParseHex(s).value) else Failure(Overflow)
  {
    ShiftRightZero(ParseHex(s).value, bits);
  }

  /** Signed hexadecimal: a value whose top bit `bits-1` is set is read as
      the negative two's-complement number `num - 2^bits`; any other value
      is kept. */
  lemma HexSignExtend(s: string, bits: nat)
    requires bits >= 1
    requires HasHexPrefix(s) && ParseHex(s).Some?
    requires ParseHex(s).value < Pow2(bits)
    ensures var num := ParseHex(s).value;
      Str2Int(s, true, bits) == Success(if BitSet(num, bits - 1) then num - Pow2(bits) else num)
  {
    var num := ParseHex(s).value;
    ShiftRightZero(num, bits);
    SignExtend(num, bits);
  }

  /** Signed hexadecimal results lie in [-2^(bits-1), 2^(bits-1)). */
  lemma HexSignedRange(s: string, bits: int)
    requires HasHexPrefix(s)
    requires Str2Int(s, true, bits).Success?
    ensures bits >= 1
    ensures -Pow2(bits - 1) <= Str2Int(s, true, bits).value < Pow2(bits - 1)
  {
    var num := ParseHex(s).value;
    ShiftRightZero(num, bits);
    HexSignExtend(s, bits);
    TopBit(num, bits);
    Pow2Step(bits);
  }

  /** Unsigned hexadecimal results lie in [0, 2^bits). */
  lemma HexUnsignedRange(s: string, bits: int)
    requires HasHexPrefix(s)
    requires Str2Int(s, false, bits).Success?
    ensures bits >= 0
    ensures 0 <= Str2Int(s, false, bits).value < Pow2(bits)
  {
    ShiftRightZero(ParseHex(s).value, bits);
  }

  /** Decimal unsigned mode refuses every negative value. */
  lemma DecimalUnsignedNegative(s: string, bits: int)
    requires !HasHexPrefix(s) && ParseDecimal(s).Some? && ParseDecimal(s).value < 0
    ensures Str2Int(s, false, bits) == Failure(NegativeUnsigned)
  {
  }

  /** Decimal unsigned mode: exactly the values in [0, 2^bits) are
      accepted; a larger one is an overflow. */
  lemma DecimalUnsignedRange(s: string, bits: nat)
    requires !HasHexPrefix(s) && ParseDecimal(s).Some? && ParseDecimal(s).value >= 0
    ensures Str2Int(s, false, bits).Success? <==> ParseDecimal(s).value < Pow2(bits)
    ensures Str2Int(s, false, bits).Failure? ==> Str2Int(s, false, bits).error == Overflow
  {
  }

  /** Decimal signed mode: exactly the values in [-2^(bits-1), 2^(bits-1))
      are accepted; anything outside is an overflow. */
  lemma DecimalSignedRange(s: string, bits: nat)
    requires bits >= 1
    requires !HasHexPrefix(s) && ParseDecimal(s).Some?
    ensures var num := ParseDecimal(s).value;
      Str2Int(s, true, bits).Success? <==> -Pow2(bits - 1) <= num < Pow2(bits - 1)
    ensures Str2Int(s, true, bits).Failure? ==> Str2Int(s, true, bits).error == Overflow
  {
  }

  /** In decimal mode a successful result is the parsed integer itself. */
  lemma DecimalUnchanged(s: string, isSigned: bool, bits: int)
    requires !HasHexPrefix(s) && Str2Int(s, isSigned, bits).Success?
    ensures ParseDecimal(s) == Some(Str2Int(s, isSigned, bits).value)
  {
  }

  /** Round trip: the decimal text of any value that fits is read back as
      that value, in both modes, and with a minus sign in signed mode. */
  lemma DecimalTextRoundTrip(n: nat, bits: nat)
    requires bits >= 1 && n < Pow2(bits - 1)
    ensures Str2Int(DecimalText(n), false, bits) == Success(n)
    ensures Str2Int(DecimalText(n), true, bits) == Success(n)
    ensures n >= 1 ==> Str2Int("-" + DecimalText(n), true, bits) == Success(-(n as int))
  {
    var t := DecimalText(n);
    DecimalRoundTrip(n);
    Pow2Step(bits);
    assert !HasHexPrefix(t) by {
      if |t| >= 2 { assert IsDigit(t[1]); }
    }
    assert ParseDecimal(t) == Some(n) by {
      assert IsDigit(t[0]);
    }
    var m := "-" + t;
    assert m[1..] == t;
    assert ParseDecimal(m) == Some(-(n as int));
  }
}
