/** Bytes and their bit patterns. */
module ByteBits {

  newtype byte = b: int | 0 <= b < 0x100

  function Pow2(n: nat): nat {
    if n == 0 then 1 else 2 * Pow2(n - 1)
  }

  /** The low `width` binary digits of `n`. */
  function Pattern(n: nat, width: nat): bv8
    decreases width, n
  {
    if width == 0 then 0
    else if n % 2 == 0 then Pattern(n / 2, width - 1) << 1
    else (Pattern(n / 2, width - 1) << 1) | 1
  }

  function Bits(b: byte): bv8 {
    Pattern(b as nat, 8)
  }

  lemma DoubleValue(x: bv8)
    requires x as nat < 0x80
    ensures (x << 1) as nat == 2 * (x as nat)
  {
  }

  lemma DoubleValueOdd(x: bv8)
    requires x as nat < 0x80
    ensures ((x << 1) | 1) as nat == 2 * (x as nat) + 1
  {
  }

  lemma PatternUnfolds(n: nat, width: nat)
    requires width > 0 && Pattern(n / 2, width - 1) as nat == n / 2 && n < 0x100
    ensures Pattern(n, width) as nat == n
  {
    var higher := Pattern(n / 2, width - 1);
    if n % 2 == 0 {
      DoubleValue(higher);
    } else {
      DoubleValueOdd(higher);
    }
  }

  lemma {:induction false} PatternValue(n: nat, width: nat)
    requires width <= 8 && n < Pow2(width)
    ensures Pattern(n, width) as nat == n
    decreases width
  {
    if width > 0 {
      PatternValue(n / 2, width - 1);
      Pow2Bound(width);
      PatternUnfolds(n, width);
    }
  }

  lemma {:induction false} Pow2Bound(n: nat)
    requires n <= 8
    ensures Pow2(n) * Pow2(8 - n) == 0x100
    ensures 1 <= Pow2(n) <= 0x100
  {
    if n > 0 {
      Pow2Bound(n - 1);
      assert Pow2(8 - (n - 1)) == 2 * Pow2(8 - n);
    }
  }

  lemma ValueInjective(x: bv8, y: bv8)
    requires x as nat == y as nat
    ensures x == y
  {
  }

  /** A byte is the value of its bit pattern. */
  lemma BitsValue(b: byte)
    ensures Bits(b) as nat == b as nat
  {
    Pow2Bound(8);
    PatternValue(b as nat, 8);
  }

  lemma BitsOfValue(x: bv8)
    ensures Bits(x as byte) == x
  {
    BitsValue(x as byte);
    ValueInjective(Bits(x as byte), x);
  }

  lemma BitsInjective(a: byte, b: byte)
    requires Bits(a) == Bits(b)
    ensures a == b
  {
    BitsValue(a);
    BitsValue(b);
  }
}

/** Decoding results and byte-stream helpers shared by the vendor codecs. */
module Wire {
  import opened ByteBits

  function Xor(a: byte, b: byte): byte {
    (Bits(a) ^ Bits(b)) as byte
  }

  function And(a: byte, b: byte): byte {
    (Bits(a) & Bits(b)) as byte
  }

  function Or(a: byte, b: byte): byte {
    (Bits(a) | Bits(b)) as byte
  }

  function Not(a: byte): byte {
    (!Bits(a)) as byte
  }

  lemma BitsOfXor(a: byte, b: byte)
    ensures Bits(Xor(a, b)) == Bits(a) ^ Bits(b)
  {
    BitsOfValue(Bits(a) ^ Bits(b));
  }

  lemma BitsOfAnd(a: byte, b: byte)
    ensures Bits(And(a, b)) == Bits(a) & Bits(b)
  {
    BitsOfValue(Bits(a) & Bits(b));
  }

  lemma BitsOfOr(a: byte, b: byte)
    ensures Bits(Or(a, b)) == Bits(a) | Bits(b)
  {
    BitsOfValue(Bits(a) | Bits(b));
  }

  lemma BitsOfNot(a: byte)
    ensures Bits(Not(a)) == !Bits(a)
  {
    BitsOfValue(!Bits(a));
  }

  /** The reasons for which a codec refuses its input. */
  datatype WireError =
    | Oversize
    | EndsInsideEscape
    | Truncated
    | LengthMismatch
    | ChecksumMismatch
    | PayloadTooLarge
    | UnterminatedAddress
    | NoControl
    | UnsupportedControl
    | VarintOverflow
    | KeyTooLarge
    | ZeroField
    | UnsupportedWireType
    | FieldTooLarge

  datatype Result<+T> = Ok(value: T) | Err(error: WireError) {
    predicate IsFailure() {
      Err?
    }

    function PropagateFailure<U>(): Result<U>
      requires Err?
    {
      Err(error)
    }

    function Extract(): T
      requires Ok?
    {
      value
    }
  }

  /** The stream whose chunks are the elements of `chunks`. */
  function Flatten<T>(chunks: seq<seq<T>>): seq<T> {
    if chunks == [] then [] else Flatten(chunks[..|chunks| - 1]) + chunks[|chunks| - 1]
  }

  function Repeat<T>(x: T, n: nat): (s: seq<T>)
    ensures |s| == n && forall i :: 0 <= i < n ==> s[i] == x
  {
    seq(n, i => x)
  }

  /** `s` and `t` differ in exactly the byte at `k`. */
  ghost predicate DifferOnlyAt(s: seq<byte>, t: seq<byte>, k: nat) {
    && |s| == |t|
    && k < |s|
    && s[k] != t[k]
    && forall i :: 0 <= i < |s| && i != k ==> s[i] == t[i]
  }
}
