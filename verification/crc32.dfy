/**
 A bit-serial checksum register over an abstract word type: its register is exclusive-ored
 with each message word and then shifted once per message bit. Only the algebra of the register is
 used here; `Crc32` instantiates it.
 */
module ShiftRegister {

  /**
   The operations of a register, shifted `bits` times per message word. `up` moves a word one byte
   towards the high end, and `fits(x, n)` says that `x` occupies at most the `n` low bytes.
   */
  datatype Register<!W> = Register(bits: nat, initial: W, final: W -> W, xor: (W, W) -> W, shift: W -> W,
                                   up: W -> W, fits: (W, nat) -> bool)

  function Shifts<W>(r: Register<W>, x: W, n: nat): W
    decreases n
  {
    if n == 0 then x else Shifts(r, r.shift(x), n - 1)
  }

  ghost predicate XorAssociative<W(!new)>(r: Register<W>) {
    forall a, b, c {:trigger r.xor(r.xor(a, b), c)} :: r.xor(r.xor(a, b), c) == r.xor(a, r.xor(b, c))
  }

  ghost predicate XorCancels<W(!new)>(r: Register<W>) {
    && (forall a, b, c :: r.xor(a, c) == r.xor(b, c) ==> a == b)
    && (forall a, b, c :: r.xor(c, a) == r.xor(c, b) ==> a == b)
  }

  ghost predicate ShiftInjective<W(!new)>(r: Register<W>) {
    forall a, b :: r.shift(a) == r.shift(b) ==> a == b
  }

  ghost predicate ShiftLinear<W(!new)>(r: Register<W>) {
    forall a, b :: r.shift(r.xor(a, b)) == r.xor(r.shift(a), r.shift(b))
  }

  ghost predicate FinalInjective<W(!new)>(r: Register<W>) {
    forall a, b :: r.final(a) == r.final(b) ==> a == b
  }

  /** Shifting a word by one byte undoes moving it up by one. */
  ghost predicate ShiftsUndoUp<W(!new)>(r: Register<W>) {
    forall x :: r.fits(x, 3) ==> Shifts(r, r.up(x), r.bits) == x
  }

  ghost predicate FitsMonotone<W(!new)>(r: Register<W>) {
    forall x, m: nat, n: nat :: r.fits(x, m) && m <= n ==> r.fits(x, n)
  }

  ghost predicate PackGrows<W(!new)>(r: Register<W>) {
    forall a, x, n: nat :: n <= 3 && r.fits(a, 1) && r.fits(x, n) ==> r.fits(r.xor(a, r.up(x)), n + 1)
  }

  ghost predicate PackSplits<W(!new)>(r: Register<W>) {
    forall a, b, x, y ::
      (r.fits(a, 1) && r.fits(b, 1) && r.fits(x, 3) && r.fits(y, 3) && r.xor(a, r.up(x)) == r.xor(b, r.up(y)))
      ==> a == b && x == y
  }

  ghost predicate Laws<W(!new)>(r: Register<W>) {
    && XorAssociative(r)
    && XorCancels(r)
    && ShiftInjective(r)
    && FinalInjective(r)
    && ShiftLinear(r)
    && ShiftsUndoUp(r)
    && FitsMonotone(r)
    && PackGrows(r)
    && PackSplits(r)
  }

  function Absorb<W>(r: Register<W>, crc: W, word: W): W {
    Shifts(r, r.xor(crc, word), r.bits)
  }

  function Fold<W>(r: Register<W>, crc: W, words: seq<W>): W {
    if words == [] then crc else Absorb(r, Fold(r, crc, words[..|words| - 1]), words[|words| - 1])
  }

  function Checksum<W>(r: Register<W>, words: seq<W>): W {
    r.final(Fold(r, r.initial, words))
  }

  method Compute<W>(r: Register<W>, words: seq<W>) returns (crc: W)
    ensures crc == Checksum(r, words)
  {
    crc := r.initial;
    for i := 0 to |words|
      invariant crc == Fold(r, r.initial, words[..i])
    {
      assert words[..i + 1][..i] == words[..i];
      crc := r.xor(crc, words[i]);
      ghost var mixed := crc;
      for bit := 0 to r.bits
        invariant Shifts(r, crc, r.bits - bit) == Shifts(r, mixed, r.bits)
      {
        crc := r.shift(crc);
      }
    }
    assert words[..|words|] == words;
    crc := r.final(crc);
  }

  lemma {:induction false} ShiftsInjective<W(!new)>(r: Register<W>, a: W, b: W, n: nat)
    requires ShiftInjective(r) && Shifts(r, a, n) == Shifts(r, b, n)
    ensures a == b
    decreases n
  {
    if n > 0 {
      ShiftsInjective(r, r.shift(a), r.shift(b), n - 1);
    }
  }

  lemma {:induction false} ShiftsLinear<W(!new)>(r: Register<W>, a: W, b: W, n: nat)
    requires ShiftLinear(r)
    ensures Shifts(r, r.xor(a, b), n) == r.xor(Shifts(r, a, n), Shifts(r, b, n))
    decreases n
  {
    if n > 0 {
      ShiftsLinear(r, r.shift(a), r.shift(b), n - 1);
    }
  }

  lemma {:induction false} FoldAppend<W>(r: Register<W>, crc: W, a: seq<W>, b: seq<W>)
    ensures Fold(r, crc, a + b) == Fold(r, Fold(r, crc, a), b)
  {
    if b == [] {
      assert a + b == a;
    } else {
      assert (a + b)[..|a + b| - 1] == a + b[..|b| - 1];
      FoldAppend(r, crc, a, b[..|b| - 1]);
    }
  }

  lemma {:induction false} FoldInjective<W(!new)>(r: Register<W>, a: W, b: W, words: seq<W>)
    requires XorCancels(r) && ShiftInjective(r) && Fold(r, a, words) == Fold(r, b, words)
    ensures a == b
  {
    if words != [] {
      var n := |words| - 1;
      var x, y := Fold(r, a, words[..n]), Fold(r, b, words[..n]);
      ShiftsInjective(r, r.xor(x, words[n]), r.xor(y, words[n]), r.bits);
      FoldInjective(r, a, b, words[..n]);
    }
  }

  /** Message words of one byte each. */
  ghost predicate ByteWords<W>(r: Register<W>, words: seq<W>) {
    forall w <- words :: r.fits(w, 1)
  }

  /** Up to four message bytes as one word, the first byte lowest. */
  function Pack<W>(r: Register<W>, words: seq<W>): W
    requires words != []
  {
    if |words| == 1 then words[0] else r.xor(words[0], r.up(Pack(r, words[1..])))
  }

  lemma {:induction false} PackFits<W(!new)>(r: Register<W>, words: seq<W>)
    requires Laws(r) && ByteWords(r, words) && 1 <= |words| <= 4
    ensures r.fits(Pack(r, words), |words|)
    ensures |words| <= 3 ==> r.fits(Pack(r, words), 3)
  {
    if |words| > 1 {
      PackFits(r, words[1..]);
    }
  }

  lemma {:induction false} PackInjective<W(!new)>(r: Register<W>, s: seq<W>, t: seq<W>)
    requires Laws(r) && ByteWords(r, s) && ByteWords(r, t)
    requires 1 <= |s| == |t| <= 4 && Pack(r, s) == Pack(r, t)
    ensures s == t
  {
    if |s| > 1 {
      var x, y := Pack(r, s[1..]), Pack(r, t[1..]);
      PackFits(r, s[1..]);
      PackFits(r, t[1..]);
      assert r.xor(s[0], r.up(x)) == r.xor(t[0], r.up(y));
      assert r.fits(s[0], 1) && r.fits(t[0], 1);
      PackInjective(r, s[1..], t[1..]);
      assert s == [s[0]] + s[1..] && t == [t[0]] + t[1..];
    }
  }

  /** The shifts that `n` message words cause. */
  function WordShifts<W>(r: Register<W>, x: W, n: nat): W
    decreases n
  {
    if n == 0 then x else WordShifts(r, Shifts(r, x, r.bits), n - 1)
  }

  lemma {:induction false} WordShiftsInjective<W(!new)>(r: Register<W>, a: W, b: W, n: nat)
    requires ShiftInjective(r) && WordShifts(r, a, n) == WordShifts(r, b, n)
    ensures a == b
    decreases n
  {
    if n > 0 {
      WordShiftsInjective(r, Shifts(r, a, r.bits), Shifts(r, b, r.bits), n - 1);
      ShiftsInjective(r, a, b, r.bits);
    }
  }

  lemma FoldCons<W>(r: Register<W>, crc: W, w: W, rest: seq<W>)
    ensures Fold(r, crc, [w] + rest) == Fold(r, Absorb(r, crc, w), rest)
  {
    FoldAppend(r, crc, [w], rest);
    assert [w][..0] == [];
  }

  lemma PackCons<W>(r: Register<W>, w: W, rest: seq<W>)
    requires rest != []
    ensures Pack(r, [w] + rest) == r.xor(w, r.up(Pack(r, rest)))
  {
    assert ([w] + rest)[1..] == rest;
  }

  lemma FoldIsShiftOne<W>(r: Register<W>, crc: W, w: W)
    ensures Fold(r, crc, [w]) == WordShifts(r, r.xor(crc, w), 1)
  {
    FoldCons(r, crc, w, []);
    assert [w] + [] == [w];
    assert WordShifts(r, r.xor(crc, w), 1) == WordShifts(r, Absorb(r, crc, w), 0);
  }

  /** Absorbing up to four bytes is one long shift of the word they form. */
  lemma {:induction false} FoldIsShift<W(!new)>(r: Register<W>, crc: W, words: seq<W>)
    requires Laws(r) && ByteWords(r, words) && 1 <= |words| <= 4
    ensures Fold(r, crc, words) == WordShifts(r, r.xor(crc, Pack(r, words)), |words|)
    decreases |words|
  {
    var w, rest := words[0], words[1..];
    assert words == [w] + rest;
    if rest == [] {
      FoldIsShiftOne(r, crc, w);
    } else {
      FoldIsShift(r, Absorb(r, crc, w), rest);
      FoldCons(r, crc, w, rest);
      PackCons(r, w, rest);
      AbsorbAhead(r, crc, w, rest);
    }
  }

  lemma EightSteps<W>(r: Register<W>, xs: seq<W>)
    requires |xs| == 9 && r.bits == 8
    requires forall i :: 0 <= i < 8 ==> r.shift(xs[i + 1]) == xs[i]
    ensures Shifts(r, xs[8], r.bits) == xs[0]
  {
    StepsBack(r, xs, 8);
  }

  lemma {:induction false} StepsBack<W>(r: Register<W>, xs: seq<W>, n: nat)
    requires n < |xs|
    requires forall i :: 0 <= i < n ==> r.shift(xs[i + 1]) == xs[i]
    ensures Shifts(r, xs[n], n) == xs[0]
  {
    if n > 0 {
      StepsBack(r, xs, n - 1);
    }
  }

  /** The bytes still to come may be mixed in, one byte higher, before the shifts of `w`. */
  lemma AbsorbAhead<W(!new)>(r: Register<W>, crc: W, w: W, rest: seq<W>)
    requires Laws(r) && ByteWords(r, rest) && 1 <= |rest| <= 3
    ensures r.xor(Absorb(r, crc, w), Pack(r, rest))
         == Shifts(r, r.xor(crc, r.xor(w, r.up(Pack(r, rest)))), r.bits)
  {
    var packed := Pack(r, rest);
    PackFits(r, rest);
    assert Shifts(r, r.up(packed), r.bits) == packed;
    ShiftsLinear(r, r.xor(crc, w), r.up(packed), r.bits);
  }

  /** Messages that differ only within four consecutive bytes have different checksums. */
  lemma BurstDetected<W(!new)>(r: Register<W>, head: seq<W>, u: seq<W>, v: seq<W>, tail: seq<W>)
    requires Laws(r) && ByteWords(r, u) && ByteWords(r, v)
    requires 1 <= |u| == |v| <= 4 && u != v
    ensures Checksum(r, head + u + tail) != Checksum(r, head + v + tail)
  {
    var crc := r.initial;
    var mid := Fold(r, crc, head);
    if Fold(r, crc, head + u + tail) == Fold(r, crc, head + v + tail) {
      assert Fold(r, mid, u) == Fold(r, mid, v) by {
        FoldAppend(r, crc, head + u, tail);
        FoldAppend(r, crc, head, u);
        FoldAppend(r, crc, head + v, tail);
        FoldAppend(r, crc, head, v);
        FoldInjective(r, Fold(r, mid, u), Fold(r, mid, v), tail);
      }
      ShortBurst(r, mid, u, v);
    }
  }

  /** Four trailing bytes bring the register to one fixed residue exactly when they cancel it to `mark`. */
  lemma ResidueIff<W(!new)>(r: Register<W>, words: seq<W>, trailer: seq<W>, mark: W)
    requires Laws(r) && ByteWords(r, trailer) && |trailer| == 4
    ensures Fold(r, r.initial, words + trailer) == WordShifts(r, mark, 4)
        <==> r.xor(Fold(r, r.initial, words), Pack(r, trailer)) == mark
  {
    var crc := Fold(r, r.initial, words);
    FoldAppend(r, r.initial, words, trailer);
    FoldIsShift(r, crc, trailer);
    if Fold(r, r.initial, words + trailer) == WordShifts(r, mark, 4) {
      WordShiftsInjective(r, r.xor(crc, Pack(r, trailer)), mark, 4);
    }
  }

  lemma ShortBurst<W(!new)>(r: Register<W>, crc: W, u: seq<W>, v: seq<W>)
    requires Laws(r) && ByteWords(r, u) && ByteWords(r, v)
    requires 1 <= |u| == |v| <= 4 && Fold(r, crc, u) == Fold(r, crc, v)
    ensures u == v
  {
    FoldIsShift(r, crc, u);
    FoldIsShift(r, crc, v);
    WordShiftsInjective(r, r.xor(crc, Pack(r, u)), r.xor(crc, Pack(r, v)), |u|);
    PackInjective(r, u, v);
  }
}

/** CRC-32 as Maestro frames carry it (src/maestro/protocol.rs; RFC 1662, appendix C.3). */
module Crc32 {
  import opened Wire
  import opened ByteBits
  import opened ShiftRegister

  const POLYNOMIAL: bv32 := 0xedb8_8320

  /** One bit of division by the reflected polynomial. */
  function Divide(crc: bv32): bv32 {
    if crc & 1 == 0 then crc >> 1 else (crc >> 1) ^ POLYNOMIAL
  }

  predicate Fits(x: bv32, n: nat) {
    if n == 0 then x == 0
    else if n == 1 then x & 0xffff_ff00 == 0
    else if n == 2 then x & 0xffff_0000 == 0
    else n >= 4 || x & 0xff00_0000 == 0
  }

  function Complement(x: bv32): bv32 {
    !x
  }

  function Add(a: bv32, b: bv32): bv32 {
    a ^ b
  }

  function Up(x: bv32): bv32 {
    x << 8
  }

  const CRC := Register(8, 0xffff_ffff, Complement, Add, Divide, Up, Fits)

  function Word(b: byte): bv32 {
    Bits(b) as bv32
  }

  function Words(bytes: seq<byte>): (words: seq<bv32>)
    ensures |words| == |bytes|
  {
    seq(|bytes|, i requires 0 <= i < |bytes| => Word(bytes[i]))
  }

  function Crc(bytes: seq<byte>): bv32 {
    Checksum(CRC, Words(bytes))
  }

  method ComputeCrc(bytes: seq<byte>) returns (crc: bv32)
    ensures crc == Crc(bytes)
  {
    crc := Compute(CRC, Words(bytes));
  }

  // ---------------------------------------------------------------- the laws of CRC

  lemma AddAssociates(a: bv32, b: bv32, c: bv32)
    ensures Add(Add(a, b), c) == Add(a, Add(b, c))
  {
  }

  lemma AddCancels(a: bv32, b: bv32, c: bv32)
    requires Add(a, c) == Add(b, c) || Add(c, a) == Add(c, b)
    ensures a == b
  {
  }

  /** The polynomial's top bit is set, so a shift loses nothing. */
  lemma DivideInjective(a: bv32, b: bv32)
    requires Divide(a) == Divide(b)
    ensures a == b
  {
  }

  lemma ComplementInjective(a: bv32, b: bv32)
    requires Complement(a) == Complement(b)
    ensures a == b
  {
  }

  // Division is a linear map; the four cases are the low bits of the operands.

  lemma EvenEven(a: bv32, b: bv32)
    requires a & 1 == 0 && b & 1 == 0
    ensures (a ^ b) & 1 == 0
    ensures (a ^ b) >> 1 == (a >> 1) ^ (b >> 1)
  {
  }

  lemma EvenOdd(a: bv32, b: bv32)
    requires a & 1 == 0 && b & 1 != 0
    ensures (a ^ b) & 1 != 0
    ensures ((a ^ b) >> 1) ^ POLYNOMIAL == (a >> 1) ^ ((b >> 1) ^ POLYNOMIAL)
  {
  }

  lemma OddEven(a: bv32, b: bv32)
    requires a & 1 != 0 && b & 1 == 0
    ensures (a ^ b) & 1 != 0
    ensures ((a ^ b) >> 1) ^ POLYNOMIAL == ((a >> 1) ^ POLYNOMIAL) ^ (b >> 1)
  {
  }

  lemma OddOdd(a: bv32, b: bv32)
    requires a & 1 != 0 && b & 1 != 0
    ensures (a ^ b) & 1 == 0
    ensures (a ^ b) >> 1 == ((a >> 1) ^ POLYNOMIAL) ^ ((b >> 1) ^ POLYNOMIAL)
  {
  }

  lemma DivideEvenEven(a: bv32, b: bv32)
    requires a & 1 == 0 && b & 1 == 0
    ensures Divide(Add(a, b)) == Add(Divide(a), Divide(b))
  {
    EvenEven(a, b);
  }

  lemma DivideEvenOdd(a: bv32, b: bv32)
    requires a & 1 == 0 && b & 1 != 0
    ensures Divide(Add(a, b)) == Add(Divide(a), Divide(b))
  {
    EvenOdd(a, b);
  }

  lemma DivideOddEven(a: bv32, b: bv32)
    requires a & 1 != 0 && b & 1 == 0
    ensures Divide(Add(a, b)) == Add(Divide(a), Divide(b))
  {
    OddEven(a, b);
  }

  lemma DivideOddOdd(a: bv32, b: bv32)
    requires a & 1 != 0 && b & 1 != 0
    ensures Divide(Add(a, b)) == Add(Divide(a), Divide(b))
  {
    OddOdd(a, b);
  }

  lemma DivideLinear(a: bv32, b: bv32)
    ensures Divide(Add(a, b)) == Add(Divide(a), Divide(b))
  {
    if a & 1 == 0 && b & 1 == 0 {
      DivideEvenEven(a, b);
    } else if a & 1 == 0 {
      DivideEvenOdd(a, b);
    } else if b & 1 == 0 {
      DivideOddEven(a, b);
    } else {
      DivideOddOdd(a, b);
    }
  }

  // A word with an empty top byte comes back one bit per division.

  lemma Back8(x: bv32)
    requires x & 0xff00_0000 == 0
    ensures Divide(x << 8) == x << 7
    ensures Divide(x << 7) == x << 6
  {
  }

  lemma Back6(x: bv32)
    requires x & 0xff00_0000 == 0
    ensures Divide(x << 6) == x << 5
    ensures Divide(x << 5) == x << 4
  {
  }

  lemma Back4(x: bv32)
    requires x & 0xff00_0000 == 0
    ensures Divide(x << 4) == x << 3
    ensures Divide(x << 3) == x << 2
  {
  }

  lemma Back2(x: bv32)
    requires x & 0xff00_0000 == 0
    ensures Divide(x << 2) == x << 1
    ensures Divide(x << 1) == x
  {
  }

  lemma EightShifts(x: bv32)
    requires x & 0xff00_0000 == 0
    ensures Shifts(CRC, Up(x), CRC.bits) == x
  {
    Back8(x);
    Back6(x);
    Back4(x);
    Back2(x);
    EightSteps(CRC, [x, x << 1, x << 2, x << 3, x << 4, x << 5, x << 6, x << 7, x << 8]);
  }

  lemma GrowsOne(a: bv32, x: bv32)
    requires a & 0xffff_ff00 == 0 && x & 0xffff_ff00 == 0
    ensures Add(a, Up(x)) & 0xffff_0000 == 0
  {
  }

  lemma GrowsTwo(a: bv32, x: bv32)
    requires a & 0xffff_ff00 == 0 && x & 0xffff_0000 == 0
    ensures Add(a, Up(x)) & 0xff00_0000 == 0
  {
  }

  lemma GrowsZero(a: bv32)
    requires a & 0xffff_ff00 == 0
    ensures Add(a, Up(0)) & 0xffff_ff00 == 0
  {
  }

  lemma Grows(a: bv32, x: bv32, n: nat)
    requires n <= 3 && Fits(a, 1) && Fits(x, n)
    ensures Fits(Add(a, Up(x)), n + 1)
  {
    match n
    case 0 => GrowsZero(a);
    case 1 => GrowsOne(a, x);
    case 2 => GrowsTwo(a, x);
    case 3 =>
  }

  lemma MasksNest(x: bv32)
    ensures x == 0 ==> x & 0xffff_ff00 == 0
    ensures x & 0xffff_ff00 == 0 ==> x & 0xffff_0000 == 0
    ensures x & 0xffff_0000 == 0 ==> x & 0xff00_0000 == 0
  {
  }

  lemma SplitsLow(a: bv32, b: bv32, x: bv32, y: bv32)
    requires a & 0xffff_ff00 == 0 && b & 0xffff_ff00 == 0 && x & 0xff00_0000 == 0 && y & 0xff00_0000 == 0
    requires Add(a, Up(x)) == Add(b, Up(y))
    ensures a == b
  {
  }

  lemma SplitsHigh(a: bv32, b: bv32, x: bv32, y: bv32)
    requires a & 0xffff_ff00 == 0 && b & 0xffff_ff00 == 0 && x & 0xff00_0000 == 0 && y & 0xff00_0000 == 0
    requires Add(a, Up(x)) == Add(b, Up(y))
    ensures x == y
  {
  }

  lemma AssociativeLaw()
    ensures XorAssociative(CRC)
  {
    forall a: bv32, b: bv32, c: bv32 ensures CRC.xor(CRC.xor(a, b), c) == CRC.xor(a, CRC.xor(b, c)) {
      AddAssociates(a, b, c);
    }
  }

  lemma CancelLaw()
    ensures XorCancels(CRC)
  {
    forall a: bv32, b: bv32, c: bv32 | CRC.xor(a, c) == CRC.xor(b, c) ensures a == b {
      AddCancels(a, b, c);
    }
    forall a: bv32, b: bv32, c: bv32 | CRC.xor(c, a) == CRC.xor(c, b) ensures a == b {
      AddCancels(a, b, c);
    }
  }

  lemma ShiftInjectiveLaw()
    ensures ShiftInjective(CRC)
  {
    forall a: bv32, b: bv32 | CRC.shift(a) == CRC.shift(b) ensures a == b {
      DivideInjective(a, b);
    }
  }

  lemma ShiftLinearLaw()
    ensures ShiftLinear(CRC)
  {
    forall a: bv32, b: bv32 ensures CRC.shift(CRC.xor(a, b)) == CRC.xor(CRC.shift(a), CRC.shift(b)) {
      DivideLinear(a, b);
    }
  }

  lemma FinalLaw()
    ensures FinalInjective(CRC)
  {
    forall a: bv32, b: bv32 | CRC.final(a) == CRC.final(b) ensures a == b {
      ComplementInjective(a, b);
    }
  }

  lemma UpLaw()
    ensures ShiftsUndoUp(CRC)
  {
    forall x: bv32 | CRC.fits(x, 3) ensures Shifts(CRC, CRC.up(x), CRC.bits) == x {
      EightShifts(x);
    }
  }

  lemma FitsLaw()
    ensures FitsMonotone(CRC)
  {
    forall x: bv32, m: nat, n: nat | CRC.fits(x, m) && m <= n ensures CRC.fits(x, n) {
      MasksNest(x);
    }
  }

  lemma GrowsLaw()
    ensures PackGrows(CRC)
  {
    forall a: bv32, x: bv32, n: nat | n <= 3 && CRC.fits(a, 1) && CRC.fits(x, n)
      ensures CRC.fits(CRC.xor(a, CRC.up(x)), n + 1)
    {
      Grows(a, x, n);
    }
  }

  lemma SplitsLaw()
    ensures PackSplits(CRC)
  {
    forall a: bv32, b: bv32, x: bv32, y: bv32
      | CRC.fits(a, 1) && CRC.fits(b, 1) && CRC.fits(x, 3) && CRC.fits(y, 3)
        && CRC.xor(a, CRC.up(x)) == CRC.xor(b, CRC.up(y))
      ensures a == b && x == y
    {
      SplitsLow(a, b, x, y);
      SplitsHigh(a, b, x, y);
    }
  }

  lemma CrcLaws()
    ensures Laws(CRC)
  {
    AssociativeLaw();
    CancelLaw();
    ShiftInjectiveLaw();
    ShiftLinearLaw();
    FinalLaw();
    UpLaw();
    FitsLaw();
    GrowsLaw();
    SplitsLaw();
  }
}

/** What the checksum detects, and how frames carry it. */
module FrameCheck {
  import opened Wire
  import opened ByteBits
  import opened ShiftRegister
  import opened Crc32

  lemma WordIsByte(b: byte)
    ensures Fits(Word(b), 1)
  {
  }

  lemma WidenInjective(a: bv8, b: bv8)
    requires a as bv32 == b as bv32
    ensures a == b
  {
  }

  lemma WordInjective(a: byte, b: byte)
    requires Word(a) == Word(b)
    ensures a == b
  {
    WidenInjective(Bits(a), Bits(b));
    BitsInjective(a, b);
  }

  // ---------------------------------------------------------------- detection

  /** `s` and `t` are distinct, and equal outside the `n` bytes from `k` on. */
  ghost predicate DifferWithin(s: seq<byte>, t: seq<byte>, k: nat, n: nat) {
    && |s| == |t|
    && k + n <= |s|
    && s != t
    && s[..k] == t[..k]
    && s[k + n..] == t[k + n..]
  }

  /** Two strings that differ only within four consecutive bytes have different checksums. */
  lemma BurstChangesCrc(s: seq<byte>, t: seq<byte>, k: nat, n: nat)
    requires n <= 4 && DifferWithin(s, t, k, n)
    ensures Crc(s) != Crc(t)
  {
    var u, v := s[k..k + n], t[k..k + n];
    MiddlesDiffer(s, t, k, n);
    WordsAppend(s[..k] + u, s[k + n..]);
    WordsAppend(s[..k], u);
    WordsAppend(s[..k] + v, s[k + n..]);
    WordsAppend(s[..k], v);
    assert Words(u) != Words(v) by {
      if Words(u) == Words(v) {
        WordsInjective(u, v);
      }
    }
    WordsAreBytes(u);
    WordsAreBytes(v);
    CrcLaws();
    BurstDetected(CRC, Words(s[..k]), Words(u), Words(v), Words(s[k + n..]));
  }

  lemma WordsAppend(a: seq<byte>, b: seq<byte>)
    ensures Words(a + b) == Words(a) + Words(b)
  {
  }

  lemma WordsInjective(a: seq<byte>, b: seq<byte>)
    requires Words(a) == Words(b)
    ensures a == b
  {
    forall i | 0 <= i < |a| ensures |a| == |Words(a)| == |b| && a[i] == b[i] {
      assert Words(a)[i] == Words(b)[i];
      WordInjective(a[i], b[i]);
    }
    assert |a| == |Words(a)| == |b|;
  }

  lemma MiddlesDiffer(s: seq<byte>, t: seq<byte>, k: nat, n: nat)
    requires DifferWithin(s, t, k, n)
    ensures s == s[..k] + s[k..k + n] + s[k + n..]
    ensures t == s[..k] + t[k..k + n] + s[k + n..]
    ensures s[k..k + n] != t[k..k + n]
  {
    assert s == s[..k] + s[k..k + n] + s[k + n..];
    assert t == t[..k] + t[k..k + n] + t[k + n..];
  }

  lemma WordsAreBytes(bytes: seq<byte>)
    ensures ByteWords(CRC, Words(bytes))
  {
    forall i | 0 <= i < |bytes| ensures CRC.fits(Words(bytes)[i], 1) {
      WordIsByte(bytes[i]);
    }
  }

  // ---------------------------------------------------------------- the trailer

  /** The checksum as four bytes, lowest first. */
  function Trailer(crc: bv32): (s: seq<byte>)
    ensures |s| == 4
  {
    [Digit(crc, 0), Digit(crc, 8), Digit(crc, 16), Digit(crc, 24)]
  }

  function Digit(crc: bv32, n: bv6): byte
    requires n <= 32
  {
    Low(crc >> n) as byte
  }

  function Low(crc: bv32): bv8 {
    (crc & 0xff) as bv8
  }

  function FromTrailer(s: seq<byte>): bv32
    requires |s| == 4
  {
    Join(Bits(s[0]), Bits(s[1]), Bits(s[2]), Bits(s[3]))
  }

  function Join(a: bv8, b: bv8, c: bv8, d: bv8): bv32 {
    (a as bv32) | ((b as bv32) << 8) | ((c as bv32) << 16) | ((d as bv32) << 24)
  }

  lemma JoinDigits(crc: bv32)
    ensures Join(Low(crc >> 0), Low(crc >> 8), Low(crc >> 16), Low(crc >> 24)) == crc
  {
  }

  lemma TrailerRoundTrip(crc: bv32)
    ensures FromTrailer(Trailer(crc)) == crc
  {
    BitsOfValue(Low(crc >> 0));
    BitsOfValue(Low(crc >> 8));
    BitsOfValue(Low(crc >> 16));
    BitsOfValue(Low(crc >> 24));
    JoinDigits(crc);
  }

  // ---------------------------------------------------------------- the residue

  function ByteWord(x: bv8): bv32 {
    x as bv32
  }

  lemma JoinIsNested(a: bv8, b: bv8, c: bv8, d: bv8)
    ensures Add(ByteWord(a), Up(Add(ByteWord(b), Up(Add(ByteWord(c), Up(ByteWord(d))))))) == Join(a, b, c, d)
  {
  }

  lemma PackFour(w: seq<bv32>)
    requires |w| == 4
    ensures Pack(CRC, w) == Add(w[0], Up(Add(w[1], Up(Add(w[2], Up(w[3]))))))
  {
    assert w[1..][1..] == w[2..] && w[2..][1..] == w[3..];
    assert Pack(CRC, w[3..]) == w[3];
    assert Pack(CRC, w[2..]) == Add(w[2], Up(w[3]));
    assert Pack(CRC, w[1..]) == Add(w[1], Up(Pack(CRC, w[2..])));
  }

  lemma PackTrailer(trailer: seq<byte>)
    requires |trailer| == 4
    ensures Pack(CRC, Words(trailer)) == FromTrailer(trailer)
  {
    PackFour(Words(trailer));
    JoinIsNested(Bits(trailer[0]), Bits(trailer[1]), Bits(trailer[2]), Bits(trailer[3]));
  }

  lemma AddComplement(a: bv32)
    ensures Add(a, Complement(a)) == 0xffff_ffff
  {
  }

  lemma ComplementUnique(a: bv32, b: bv32)
    requires Add(a, b) == 0xffff_ffff
    ensures Complement(a) == b
  {
  }

  /** The register's content after the message and its trailer. */
  function Remainder(bytes: seq<byte>): bv32 {
    Fold(CRC, CRC.initial, Words(bytes))
  }

  function Residue(): bv32 {
    WordShifts(CRC, 0xffff_ffff, 4)
  }

  lemma RemainderIff(words: seq<bv32>, trailer: seq<bv32>)
    requires ByteWords(CRC, trailer) && |trailer| == 4
    ensures Fold(CRC, CRC.initial, words + trailer) == Residue()
        <==> Add(Fold(CRC, CRC.initial, words), Pack(CRC, trailer)) == 0xffff_ffff
  {
    CrcLaws();
    ResidueIff(CRC, words, trailer, 0xffff_ffff);
  }

  /** A trailer matches its message exactly when both together leave the fixed residue. */
  lemma TrailerMatchesIff(message: seq<byte>, trailer: seq<byte>)
    requires |trailer| == 4
    ensures Crc(message) == FromTrailer(trailer) <==> Remainder(message + trailer) == Residue()
  {
    WordsAreBytes(trailer);
    WordsAppend(message, trailer);
    RemainderIff(Words(message), Words(trailer));
    PackTrailer(trailer);
    AddComplement(Remainder(message));
    if Add(Remainder(message), FromTrailer(trailer)) == 0xffff_ffff {
      ComplementUnique(Remainder(message), FromTrailer(trailer));
    }
  }

  /** A message with a matching trailer. */
  predicate Intact(bytes: seq<byte>)
    requires |bytes| >= 4
  {
    var n := |bytes| - 4;
    Crc(bytes[..n]) == FromTrailer(bytes[n..])
  }

  /** No change within four consecutive bytes, of message, trailer or both, goes unnoticed. */
  lemma BurstBreaksTrailer(bytes: seq<byte>, altered: seq<byte>, k: nat, n: nat)
    requires |bytes| >= 4 && Intact(bytes)
    requires n <= 4 && DifferWithin(bytes, altered, k, n)
    ensures !Intact(altered)
  {
    IntactIff(bytes);
    IntactIff(altered);
    BurstChangesCrc(bytes, altered, k, n);
  }

  lemma IntactIff(bytes: seq<byte>)
    requires |bytes| >= 4
    ensures Intact(bytes) <==> Remainder(bytes) == Residue()
  {
    var n := |bytes| - 4;
    assert bytes == bytes[..n] + bytes[n..];
    TrailerMatchesIff(bytes[..n], bytes[n..]);
  }
}
