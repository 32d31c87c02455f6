/**
 Binary words by their digits, over an abstract word type: which number a word stands for, and what
 or-ing a shifted word above a smaller one means. Only the algebra is used here; `Words64`
 instantiates it.
 */
module BinaryWords {
  import opened ByteBits

  /** `twice` appends a zero digit and `odd` sets the last digit; `shl(x, i)` shifts by `i` groups of seven digits. */
  datatype Binary<!W> = Binary(limit: nat, zero: W, twice: W -> W, odd: W -> W, or: (W, W) -> W, shl: (W, nat) -> W,
                               value: W -> nat)

  ghost predicate ValueLaws<W(!new)>(b: Binary<W>) {
    && b.value(b.zero) == 0
    && (forall x {:trigger b.twice(x)} :: 2 * b.value(x) < b.limit ==>
          b.value(b.twice(x)) == 2 * b.value(x) && b.value(b.odd(b.twice(x))) == 2 * b.value(x) + 1)
  }

  ghost predicate OrZeroLaw<W(!new)>(b: Binary<W>) {
    forall x :: b.or(b.zero, x) == x
  }

  ghost predicate OrTwiceLaw<W(!new)>(b: Binary<W>) {
    forall x, y {:trigger b.or(b.twice(x), b.twice(y))} :: b.or(b.twice(x), b.twice(y)) == b.twice(b.or(x, y))
  }

  ghost predicate OrOddLaw<W(!new)>(b: Binary<W>) {
    forall x, y {:trigger b.or(b.odd(b.twice(x)), b.twice(y))} ::
      b.or(b.odd(b.twice(x)), b.twice(y)) == b.odd(b.twice(b.or(x, y)))
  }

  ghost predicate ShiftLaw<W(!new)>(b: Binary<W>) {
    && (forall x :: b.shl(x, 0) == x)
    && (forall x, i: nat, j: nat {:trigger b.shl(x, i), b.shl(x, j)} :: i <= 9 && i == j + 1 ==>
          b.shl(x, i) == Shifted(b, b.shl(x, j), 7))
  }

  ghost predicate Laws<W(!new)>(b: Binary<W>) {
    b.twice(b.zero) == b.zero && OrZeroLaw(b) && OrTwiceLaw(b) && OrOddLaw(b) && ShiftLaw(b)
  }

  /** The word with the digits of `n`. */
  function Word<W>(b: Binary<W>, n: nat): W
    decreases n
  {
    if n == 0 then b.zero else if n % 2 == 0 then b.twice(Word(b, n / 2)) else b.odd(b.twice(Word(b, n / 2)))
  }

  lemma {:induction false} WordValue<W(!new)>(b: Binary<W>, n: nat)
    requires ValueLaws(b) && n < b.limit
    ensures b.value(Word(b, n)) == n
    decreases n
  {
    if n > 0 {
      WordValue(b, n / 2);
    }
  }

  /** One more digit at the end of a word. */
  function Digit<W>(b: Binary<W>, x: W, odd: bool): W {
    if odd then b.odd(b.twice(x)) else b.twice(x)
  }

  lemma WordUnfolds<W>(b: Binary<W>, n: nat)
    requires b.twice(b.zero) == b.zero
    ensures Word(b, n) == Digit(b, Word(b, n / 2), n % 2 == 1)
  {
  }

  lemma OrDigit<W(!new)>(b: Binary<W>, x: W, y: W, odd: bool)
    requires OrTwiceLaw(b) && OrOddLaw(b)
    ensures b.or(Digit(b, x, odd), b.twice(y)) == Digit(b, b.or(x, y), odd)
  {
  }

  /** `k` zero digits appended. */
  function Shifted<W>(b: Binary<W>, x: W, k: nat): W
    decreases k
  {
    if k == 0 then x else b.twice(Shifted(b, x, k - 1))
  }

  lemma {:induction false} ShiftedTwice<W>(b: Binary<W>, x: W, k: nat, m: nat)
    ensures Shifted(b, Shifted(b, x, k), m) == Shifted(b, x, k + m)
    decreases m
  {
    if m > 0 {
      ShiftedTwice(b, x, k, m - 1);
    }
  }

  lemma {:induction false} ShiftIsShifted<W(!new)>(b: Binary<W>, x: W, i: nat)
    requires ShiftLaw(b) && i <= 9
    ensures b.shl(x, i) == Shifted(b, x, 7 * i)
    decreases i
  {
    if i > 0 {
      ShiftIsShifted(b, x, i - 1);
      ShiftedTwice(b, x, 7 * (i - 1), 7);
    }
  }

  /** `g` with `k` zero digits appended. */
  function Place(g: nat, k: nat): nat
    decreases k
  {
    if k == 0 then g else 2 * Place(g, k - 1)
  }

  lemma PlaceAbove(v: nat, g: nat, k: nat)
    requires k > 0
    ensures (v + Place(g, k)) / 2 == v / 2 + Place(g, k - 1) && (v + Place(g, k)) % 2 == v % 2
  {
  }

  /** Or-ing `g` above `k` digits adds it at that place. */
  ghost predicate Above<W>(b: Binary<W>, v: nat, g: nat, k: nat) {
    Word(b, v + Place(g, k)) == b.or(Word(b, v), Shifted(b, Word(b, g), k))
  }

  lemma DigitAbove<W(!new)>(b: Binary<W>, v: nat, g: nat, k: nat)
    requires b.twice(b.zero) == b.zero && OrTwiceLaw(b) && OrOddLaw(b)
    requires k > 0 && Above(b, v / 2, g, k - 1)
    ensures Above(b, v, g, k)
  {
    PlaceAbove(v, g, k);
    WordUnfolds(b, v);
    WordUnfolds(b, v + Place(g, k));
    OrDigit(b, Word(b, v / 2), Shifted(b, Word(b, g), k - 1), v % 2 == 1);
  }

  lemma {:induction false} WordAbove<W(!new)>(b: Binary<W>, v: nat, g: nat, k: nat)
    requires Laws(b) && v < Pow2(k)
    ensures Above(b, v, g, k)
    decreases k
  {
    if k > 0 {
      WordAbove(b, v / 2, g, k - 1);
      DigitAbove(b, v, g, k);
    }
  }

  ghost predicate IsSum<W>(b: Binary<W>, v: nat, g: nat, i: nat) {
    b.or(Word(b, v), b.shl(Word(b, g), i)) == Word(b, v + Place(g, 7 * i))
  }

  /** Or-ing a shifted word above a smaller one adds its value at that place. */
  lemma OrIsSum<W(!new)>(b: Binary<W>, v: nat, g: nat, i: nat)
    requires Laws(b) && i <= 9 && v < Pow2(7 * i)
    ensures IsSum(b, v, g, i)
  {
    ShiftIsShifted(b, Word(b, g), i);
    WordAbove(b, v, g, 7 * i);
  }
}

/** Unsigned words of 64 bits. */
module Words64 {
  import opened ByteBits
  import opened BinaryWords

  const U64_LIMIT := 0x1_0000_0000_0000_0000

  function Twice(x: bv64): bv64 {
    x << 1
  }

  function Odd(x: bv64): bv64 {
    x | 1
  }

  function Or(x: bv64, y: bv64): bv64 {
    x | y
  }

  /** Shifts by `i` groups of seven bits. */
  function ShiftLeft(x: bv64, i: nat): bv64
    decreases i
  {
    if i == 0 then x else Seven(ShiftLeft(x, i - 1))
  }

  function Seven(x: bv64): bv64 {
    x << 7
  }

  function Value(x: bv64): nat {
    x as nat
  }

  const U64 := Binary(U64_LIMIT, 0, Twice, Odd, Or, ShiftLeft, Value)

  lemma ZeroLaw()
    ensures Value(0) == 0 && Twice(0) == 0
  {
  }

  lemma TwiceValue(x: bv64)
    requires x as nat < 0x8000_0000_0000_0000
    ensures (x << 1) as nat == 2 * (x as nat)
  {
  }

  lemma OddValue(x: bv64)
    requires x as nat < 0x8000_0000_0000_0000
    ensures ((x << 1) | 1) as nat == 2 * (x as nat) + 1
  {
  }

  lemma OrZero(x: bv64)
    ensures Or(0, x) == x
  {
  }

  lemma OrTwice(x: bv64, y: bv64)
    ensures Or(Twice(x), Twice(y)) == Twice(Or(x, y))
  {
  }

  lemma OrOdd(x: bv64, y: bv64)
    ensures Or(Odd(Twice(x)), Twice(y)) == Odd(Twice(Or(x, y)))
  {
  }

  lemma SevenTimes(x: bv64)
    ensures Twice(Twice(Twice(Twice(Twice(Twice(Twice(x))))))) == Seven(x)
  {
  }

  lemma ShiftedBySeven(x: bv64)
    ensures Shifted(U64, x, 7) == Twice(Twice(Twice(Twice(Twice(Twice(Twice(x)))))))
  {
  }

  lemma LowAmounts(x: bv64)
    ensures Seven(x) == x << 7
    ensures Seven(x << 7) == x << 14
    ensures Seven(x << 14) == x << 21
    ensures Seven(x << 21) == x << 28
    ensures Seven(x << 28) == x << 35
  {
  }

  lemma HighAmounts(x: bv64)
    ensures Seven(x << 35) == x << 42
    ensures Seven(x << 42) == x << 49
    ensures Seven(x << 49) == x << 56
    ensures Seven(x << 56) == x << 63
  {
  }

  lemma LowShifts(x: bv64)
    ensures ShiftLeft(x, 1) == x << 7
    ensures ShiftLeft(x, 2) == x << 14
    ensures ShiftLeft(x, 3) == x << 21
    ensures ShiftLeft(x, 4) == x << 28
    ensures ShiftLeft(x, 5) == x << 35
  {
    LowAmounts(x);
  }

  lemma HighShifts(x: bv64)
    ensures ShiftLeft(x, 6) == x << 42
    ensures ShiftLeft(x, 7) == x << 49
    ensures ShiftLeft(x, 8) == x << 56
    ensures ShiftLeft(x, 9) == x << 63
  {
    LowShifts(x);
    HighAmounts(x);
  }

  /** `x << (7 * i)`, for the ten amounts that occur in a word, shifts `i` times by seven. */
  method ShiftBy(x: bv64, i: nat) returns (y: bv64)
    requires i <= 9
    ensures y == ShiftLeft(x, i)
  {
    LowShifts(x);
    HighShifts(x);
    match i
    case 0 => y := x;
    case 1 => y := x << 7;
    case 2 => y := x << 14;
    case 3 => y := x << 21;
    case 4 => y := x << 28;
    case 5 => y := x << 35;
    case 6 => y := x << 42;
    case 7 => y := x << 49;
    case 8 => y := x << 56;
    case 9 => y := x << 63;
  }

  lemma U64Values()
    ensures ValueLaws(U64)
  {
    ZeroLaw();
    forall x: bv64 | 2 * U64.value(x) < U64.limit
      ensures U64.value(U64.twice(x)) == 2 * U64.value(x) && U64.value(U64.odd(U64.twice(x))) == 2 * U64.value(x) + 1
    {
      TwiceValue(x);
      OddValue(x);
    }
  }

  lemma U64OrZero()
    ensures OrZeroLaw(U64)
  {
    forall x: bv64 ensures U64.or(U64.zero, x) == x {
      OrZero(x);
    }
  }

  lemma U64OrTwice()
    ensures OrTwiceLaw(U64)
  {
    forall x: bv64, y: bv64 ensures U64.or(U64.twice(x), U64.twice(y)) == U64.twice(U64.or(x, y)) {
      OrTwice(x, y);
    }
  }

  lemma U64OrOdd()
    ensures OrOddLaw(U64)
  {
    forall x: bv64, y: bv64
      ensures U64.or(U64.odd(U64.twice(x)), U64.twice(y)) == U64.odd(U64.twice(U64.or(x, y)))
    {
      OrOdd(x, y);
    }
  }

  lemma U64Shift()
    ensures ShiftLaw(U64)
  {
    forall x: bv64, i: nat, j: nat {:trigger U64.shl(x, i), U64.shl(x, j)} | i <= 9 && i == j + 1
      ensures U64.shl(x, i) == Shifted(U64, U64.shl(x, j), 7)
    {
      SevenTimes(ShiftLeft(x, j));
      ShiftedBySeven(ShiftLeft(x, j));
    }
  }

  lemma U64Laws()
    ensures Laws(U64)
  {
    ZeroLaw();
    U64OrZero();
    U64OrTwice();
    U64OrOdd();
    U64Shift();
  }

  /** The word whose value is `n`. */
  function FromNumber(n: nat): bv64 {
    Word(U64, n)
  }

  lemma FromNumberValue(n: nat)
    requires n < U64_LIMIT
    ensures FromNumber(n) as nat == n
  {
    U64Values();
    WordValue(U64, n);
  }

  lemma OrAboveIn64(v: nat, g: nat, i: nat)
    requires i <= 9 && v < Pow2(7 * i)
    ensures IsSum(U64, v, g, i)
  {
    U64Laws();
    OrIsSum(U64, v, g, i);
  }

  lemma Operations(x: bv64, y: bv64, i: nat)
    ensures U64.or(x, U64.shl(y, i)) == Or(x, ShiftLeft(y, i))
  {
  }

  /** Or-ing `g`, shifted by `i` groups, into `v` gives `sum`. */
  predicate Adds(v: nat, g: nat, i: nat, sum: nat) {
    Or(FromNumber(v), ShiftLeft(FromNumber(g), i)) == FromNumber(sum)
  }

  /** Shifting a word above all digits of a smaller one and or-ing them adds it at that place. */
  lemma OrAbove(v: nat, g: nat, i: nat, sum: nat)
    requires i <= 9 && v < Pow2(7 * i) && sum == v + Place(g, 7 * i)
    ensures Adds(v, g, i, sum)
  {
    Operations(FromNumber(v), FromNumber(g), i);
    OrAboveIn64(v, g, i);
  }
}
