/** machine/mipssim.cc: MULT and MULTU, and the overflow tests of ADD, ADDI and SUB. */
module Mips {
  import opened Bits
  import opened Bytes

  const SIGN_BIT := 0x8000_0000

  /** C's int arithmetic, with overflow taken as wrapping */
  function Wrap(x: int): int32 {
    FromWord(x % WORD_LIMIT)
  }

  /** The double-length value of two unsigned words */
  function Double(hi: word, lo: word): nat {
    hi * WORD_LIMIT + lo
  }

  lemma MulMono(x: nat, y: nat, m: nat, n: nat)
    requires x <= m && y <= n
    ensures x * y <= m * n
  {
  }

  /** One round of the loop, in numbers: bit `top % 2` decides whether `b * pow` is added. */
  lemma Round(b: nat, low: nat, pow: nat, top: nat)
    ensures b * (low + pow) == b * low + b * pow
    ensures b * (2 * pow) == 2 * (b * pow)
    ensures low + pow * top == low + (if top % 2 == 1 then pow else 0) + (2 * pow) * (top / 2)
  {
  }

  /** Where the loop stands after `i` rounds: the low `i` bits `low` of the multiplier have
      been used, `top` are the rest, and `a` is the sign-extended remainder in the register. */
  ghost predicate Progress(whole: nat, b: nat, i: nat, low: nat, top: nat, a: int, negative: bool, acc: nat, shifted: nat) {
    && i <= 32 && whole < WORD_LIMIT && b < WORD_LIMIT
    && whole == low + Pow2(i) * top
    && top < Pow2(32 - i)
    && a == top - (if negative then Pow2(32 - i) else 0)
    && acc == b * low && shifted == b * Pow2(i)
  }

  /** The partial sum stays within two words. */
  lemma SumFits(whole: nat, b: nat, low: nat, pow: nat, top: nat)
    requires whole == low + pow * top && whole < WORD_LIMIT && b < WORD_LIMIT && top > 0
    ensures b * low + b * pow < WORD_LIMIT * WORD_LIMIT
  {
    assert pow * top >= pow by {
      MulMono(pow, 1, pow, top);
    }
    MulMono(b, low + pow, WORD_LIMIT - 1, WORD_LIMIT - 1);
    assert b * (low + pow) == b * low + b * pow;
  }

  lemma PowersBelow(i: nat)
    requires i < 32
    ensures 2 * Pow2(i) <= WORD_LIMIT && Pow2(32 - i) == 2 * Pow2(31 - i)
  {
    WordWidth();
    if i + 1 < 32 {
      Pow2Mono(i + 1, 32);
    }
  }

  lemma Twice(b: nat, pow: nat)
    ensures b * (2 * pow) == 2 * (b * pow)
  {
  }

  /** So does the multiplicand shifted once more. */
  lemma ShiftFits(b: nat, pow: nat)
    requires b < WORD_LIMIT && 2 * pow <= WORD_LIMIT
    ensures 2 * (b * pow) < WORD_LIMIT * WORD_LIMIT
  {
    MulMono(b, 2 * pow, WORD_LIMIT - 1, WORD_LIMIT);
    Twice(b, pow);
  }

  lemma Fits(whole: nat, b: nat, i: nat, low: nat, top: nat, a: int, negative: bool, acc: nat, shifted: nat)
    requires Progress(whole, b, i, low, top, a, negative, acc, shifted) && i < 32
    ensures top % 2 == 1 ==> acc + shifted < WORD_LIMIT * WORD_LIMIT
    ensures 2 * shifted < WORD_LIMIT * WORD_LIMIT && a % 2 == top % 2
  {
    hide Pow2;
    if top % 2 == 1 {
      SumFits(whole, b, low, Pow2(i), top);
    }
    PowersBelow(i);
    ShiftFits(b, Pow2(i));
  }

  lemma NextRound(whole: nat, b: nat, i: nat, low: nat, top: nat, a: int, negative: bool, acc: nat, shifted: nat)
    requires Progress(whole, b, i, low, top, a, negative, acc, shifted) && i < 32
    ensures Progress(whole, b, i + 1, low + (if top % 2 == 1 then Pow2(i) else 0), top / 2, a / 2, negative,
                     acc + (if top % 2 == 1 then shifted else 0), 2 * shifted)
  {
    Round(b, low, Pow2(i), top);
    assert Pow2(32 - i) == 2 * Pow2(31 - i);
  }

  lemma LastBit(b: nat, low: nat, pow: nat)
    ensures b * low + b * pow == (low + pow) * b
  {
  }

  /** When only bit 0 of the register is left, the bits used so far and this one are all. */
  lemma EarlyExit(whole: nat, b: nat, i: nat, low: nat, top: nat, a: int, negative: bool, acc: nat, shifted: nat)
    requires Progress(whole, b, i, low, top, a, negative, acc, shifted) && a == 1
    ensures acc + shifted == whole * b
  {
    hide Pow2;
    assert !negative && top == 1;
    LastBit(b, low, Pow2(i));
  }

  lemma AllBits(whole: nat, b: nat, low: nat, top: nat, a: int, negative: bool, acc: nat, shifted: nat)
    requires Progress(whole, b, 32, low, top, a, negative, acc, shifted)
    ensures acc == whole * b
  {
  }

  /** The main loop: shift and add, leaving early once no multiplier bits are left. */
  method MultLoop(a0: int32, b: word) returns (hi: word, lo: word)
    ensures Double(hi, lo) == ToWord(a0) * b
  {
    var a := a0;
    var bLo: word, bHi: word := b, 0;
    lo, hi := 0, 0;
    ghost var low: nat, top: nat := 0, ToWord(a0);
    WordWidth();
    var i := 0;
    while i < 32
      invariant 0 <= i <= 32
      invariant Progress(ToWord(a0), b, i, low, top, a, a0 < 0, Double(hi, lo), Double(bHi, bLo))
    {
      Fits(ToWord(a0), b, i, low, top, a, a0 < 0, Double(hi, lo), Double(bHi, bLo));
      NextRound(ToWord(a0), b, i, low, top, a, a0 < 0, Double(hi, lo), Double(bHi, bLo));
      if a % 2 == 1 {
        if a == 1 {
          EarlyExit(ToWord(a0), b, i, low, top, a, a0 < 0, Double(hi, lo), Double(bHi, bLo));
        }
        hi, lo := AddDouble(hi, lo, bHi, bLo);
        if a == 1 {
          return;
        }
        low := low + Pow2(i);
      }
      bHi, bLo := ShiftDouble(bHi, bLo);
      top := top / 2;
      a := a / 2;
      i := i + 1;
    }
    AllBits(ToWord(a0), b, low, top, a, a0 < 0, Double(hi, lo), Double(bHi, bLo));
  }

  /** Add two double words, carrying when the low sum wrapped round. */
  /** The low sum, and whether it wrapped, which is when it is less than an addend */
  lemma LowSum(lo: word, bLo: word)
    ensures var sum := (lo + bLo) % WORD_LIMIT;
      if sum < bLo then lo + bLo == sum + WORD_LIMIT else lo + bLo == sum
  {
  }

  method AddDouble(hi: word, lo: word, bHi: word, bLo: word) returns (hi': word, lo': word)
    ensures Double(hi, lo) + Double(bHi, bLo) < WORD_LIMIT * WORD_LIMIT ==>
      Double(hi', lo') == Double(hi, lo) + Double(bHi, bLo)
  {
    lo' := (lo + bLo) % WORD_LIMIT;
    LowSum(lo, bLo);
    hi' := hi;
    if lo' < bLo {
      hi' := (hi' + 1) % WORD_LIMIT;
    }
    hi' := (hi' + bHi) % WORD_LIMIT;
  }

  method ShiftDouble(bHi: word, bLo: word) returns (bHi': word, bLo': word)
    ensures 2 * Double(bHi, bLo) < WORD_LIMIT * WORD_LIMIT ==> Double(bHi', bLo') == 2 * Double(bHi, bLo)
  {
    bHi' := (2 * bHi) % WORD_LIMIT;
    if bLo >= SIGN_BIT {
      bHi' := bHi' + 1;
    }
    bLo' := (2 * bLo) % WORD_LIMIT;
  }

  /** The signed double-length value of HI:LO */
  function SignedDouble(hi: int32, lo: int32): int {
    hi * WORD_LIMIT + ToWord(lo)
  }

  /** The two's complement of a double word */
  method Complement(hi: word, lo: word) returns (hi': word, lo': word)
    ensures Double(hi, lo) > 0 ==> Double(hi', lo') == WORD_LIMIT * WORD_LIMIT - Double(hi, lo)
  {
    hi' := WORD_LIMIT - 1 - hi;
    lo' := WORD_LIMIT - 1 - lo;
    lo' := (lo' + 1) % WORD_LIMIT;
    if lo' == 0 {
      hi' := (hi' + 1) % WORD_LIMIT;
    }
  }

  /** Reading HI as signed gives back any product whose magnitude is at most 2^62. */
  lemma AsSigned(hi: word, lo: word, p: int)
    requires -SIGN_BIT * SIGN_BIT <= p <= SIGN_BIT * SIGN_BIT
    requires Double(hi, lo) == if p < 0 then WORD_LIMIT * WORD_LIMIT + p else p
    ensures SignedDouble(FromWord(hi), FromWord(lo)) == p
  {
  }

  /** Put the sign back on the product of the magnitudes. */
  method Conclude(uHi: word, uLo: word, negative: bool, ghost product: int) returns (hi: int32, lo: int32)
    requires Double(uHi, uLo) == if negative then -product else product
    requires negative ==> product < 0
    ensures -SIGN_BIT * SIGN_BIT <= product <= SIGN_BIT * SIGN_BIT ==> SignedDouble(hi, lo) == product
    ensures !negative ==> Double(ToWord(hi), ToWord(lo)) == product
  {
    var h, l := uHi, uLo;
    if negative {
      h, l := Complement(h, l);
    }
    if -SIGN_BIT * SIGN_BIT <= product <= SIGN_BIT * SIGN_BIT {
      AsSigned(h, l, product);
    }
    return FromWord(h), FromWord(l);
  }

  /** Negation, wrapping for the minimum integer, leaves the magnitude as an unsigned word. */
  lemma NegatedWord(x: int32)
    ensures ToWord(Wrap(-(x as int))) == if x <= 0 then -(x as int) else WORD_LIMIT - x
  {
  }

  /** The sign of a signed product, and both factors made positive */
  method StripSigns(a: int32, b: int32) returns (x: int32, y: int32, negative: bool)
    requires a != 0 && b != 0
    ensures ToWord(x) * ToWord(y) == if negative then -(a * b) else a * b
    ensures negative ==> a * b < 0
    ensures -SIGN_BIT * SIGN_BIT <= a * b <= SIGN_BIT * SIGN_BIT
  {
    NegatedWord(a);
    NegatedWord(b);
    negative := false;
    x, y := a, b;
    if x < 0 {
      negative := !negative;
      x := Wrap(-(x as int));
    }
    if y < 0 {
      negative := !negative;
      y := Wrap(-(y as int));
    }
    hide Wrap;
    Magnitudes(a, b, ToWord(x), ToWord(y));
  }

  /** R2000 multiplication: HI:LO is the exact 64-bit product. */
  method Mult(a: int32, b: int32, signedArith: bool) returns (hi: int32, lo: int32)
    ensures signedArith ==> SignedDouble(hi, lo) == a * b
    ensures !signedArith ==> Double(ToWord(hi), ToWord(lo)) == ToWord(a) * ToWord(b)
  {
    if a == 0 || b == 0 {
      return 0, 0;
    }
    hide Double, SignedDouble, ToWord, FromWord;
    var x, y, negative := a, b, false;
    ghost var product := ToWord(a) * ToWord(b);
    if signedArith {
      x, y, negative := StripSigns(a, b);
      product := a * b;
    }
    var uHi, uLo := MultLoop(x, ToWord(y));
    hi, lo := Conclude(uHi, uLo, negative, product);
  }

  lemma SignOfProduct(x: int, y: int)
    ensures (-x) * y == -(x * y) && x * (-y) == -(x * y) && (-x) * (-y) == x * y
  {
  }

  lemma PositiveProduct(x: nat, y: nat)
    requires x > 0 && y > 0
    ensures x * y > 0
  {
  }

  /** The product of the magnitudes is the magnitude of the product, and fits with a sign to spare. */
  lemma Magnitudes(a: int32, b: int32, x: nat, y: nat)
    requires x == (if a < 0 then 0 - a else a) && y == (if b < 0 then 0 - b else b) && a != 0 && b != 0
    ensures x * y == (if (a < 0) != (b < 0) then -(a * b) else a * b)
    ensures 0 < x * y <= SIGN_BIT * SIGN_BIT
  {
    SignOfProduct(a, b);
    PositiveProduct(x, y);
    MulMono(x, y, SIGN_BIT, SIGN_BIT);
  }

  /** The test `(x ^ y) & SIGN_BIT` */
  function SignsDiffer(x: int32, y: int32): (r: bool)
    ensures r <==> (x < 0) != (y < 0)
  {
    SignBits(ToWord(x), ToWord(y));
    And(Xor(ToWord(x), ToWord(y)), SIGN_BIT) != 0
  }

  lemma SignBits(x: word, y: word)
    ensures And(Xor(x, y), SIGN_BIT) != 0 <==> (x >= SIGN_BIT) != (y >= SIGN_BIT)
  {
    WordWidth();
    assert Pow2(32) == 2 * Pow2(31);
    hide And, Xor, Pow2, Bit;
    XorBit(x, y, 31);
    OneBitMask(Xor(x, y), 31);
    TopBit(x, 31);
    TopBit(y, 31);
  }

  predicate InRange(x: int) {
    -INT_LIMIT <= x < INT_LIMIT
  }

  /** What one of the trapping instructions leaves in the registers: `value` in register
      `rd`, or everything as it was and an overflow exception. */
  ghost predicate Retires(before: seq<int32>, after: seq<int32>, rd: nat, value: int, trapped: bool)
    requires rd < |before|
  {
    && (trapped <==> !InRange(value))
    && after == if InRange(value) then before[rd := value] else before
  }

  method ExecuteAdd(registers: array<int32>, rs: nat, rt: nat, rd: nat) returns (trapped: bool)
    requires rs < registers.Length && rt < registers.Length && rd < registers.Length
    modifies registers
    ensures Retires(old(registers[..]), registers[..], rd, old(registers[rs]) as int + old(registers[rt]), trapped)
  {
    hide SignsDiffer;
    var sum := Wrap(registers[rs] as int + registers[rt]);
    if !SignsDiffer(registers[rs], registers[rt]) && SignsDiffer(registers[rs], sum) {
      return true;
    }
    registers[rd] := sum;
    return false;
  }

  method ExecuteAddImmediate(registers: array<int32>, rs: nat, rt: nat, extra: int32) returns (trapped: bool)
    requires rs < registers.Length && rt < registers.Length
    modifies registers
    ensures Retires(old(registers[..]), registers[..], rt, old(registers[rs]) as int + extra, trapped)
  {
    hide SignsDiffer;
    var sum := Wrap(registers[rs] as int + extra);
    if !SignsDiffer(registers[rs], extra) && SignsDiffer(extra, sum) {
      return true;
    }
    registers[rt] := sum;
    return false;
  }

  method ExecuteSub(registers: array<int32>, rs: nat, rt: nat, rd: nat) returns (trapped: bool)
    requires rs < registers.Length && rt < registers.Length && rd < registers.Length
    modifies registers
    ensures Retires(old(registers[..]), registers[..], rd, old(registers[rs]) as int - old(registers[rt]), trapped)
  {
    hide SignsDiffer;
    var diff := Wrap(registers[rs] as int - registers[rt]);
    if SignsDiffer(registers[rs], registers[rt]) && SignsDiffer(registers[rs], diff) {
      return true;
    }
    registers[rd] := diff;
    return false;
  }
}
