/** Protobuf varints, fields and the pw_rpc packet of src/maestro/protocol.rs. */
module Protobuf {
  import opened ByteBits
  import opened Wire
  import Words64
  import BinaryWords

  const U32_LIMIT := 0x1_0000_0000
  const U64_LIMIT := 0x1_0000_0000_0000_0000

  // ---------------------------------------------------------------- varints

  /** The largest value, exclusive, that the groups from the `i`-th on can hold in 64 bits. */
  function Room(i: nat): (n: nat)
    requires i <= 9
    ensures n >= 2
    decreases 9 - i
  {
    if i == 9 then 2 else 0x80 * Room(i + 1)
  }

  /**
   The value of the groups from the `i`-th on, lowest first, and the remaining bytes.
   Only bit 63 is left for a tenth group.
   */
  function VarintFrom(bytes: seq<byte>, i: nat): Result<(nat, seq<byte>)>
    requires i <= 9
    decreases 9 - i
  {
    if bytes == [] then Err(Truncated)
    else if i == 9 then if bytes[0] <= 1 then Ok((bytes[0] as nat, bytes[1..])) else Err(VarintOverflow)
    else if bytes[0] < 0x80 then Ok((bytes[0] as nat, bytes[1..]))
    else Above(bytes[0] as nat - 0x80, VarintFrom(bytes[1..], i + 1))
  }

  /** Places a lower group below an already read value. */
  function Above(group: nat, r: Result<(nat, seq<byte>)>): Result<(nat, seq<byte>)> {
    if r.Ok? then Ok((group + 0x80 * r.value.0, r.value.1)) else r
  }

  function Varint(bytes: seq<byte>): Result<(nat, seq<byte>)> {
    VarintFrom(bytes, 0)
  }

  function Pow128(i: nat): nat {
    if i == 0 then 1 else 0x80 * Pow128(i - 1)
  }

  /** Adds an accumulated low part to the value of the groups from the `i`-th on. */
  function Shifted(low: nat, i: nat, r: Result<(nat, seq<byte>)>): Result<(nat, seq<byte>)> {
    if r.Ok? then Ok((low + r.value.0 * Pow128(i), r.value.1)) else r
  }

  lemma ShiftedAbove(low: nat, i: nat, group: nat, r: Result<(nat, seq<byte>)>)
    ensures Shifted(low, i, Above(group, r)) == Shifted(low + group * Pow128(i), i + 1, r)
  {
    if r.Ok? {
      var v := r.value.0;
      calc {
        low + (group + 0x80 * v) * Pow128(i);
        low + group * Pow128(i) + (0x80 * v) * Pow128(i);
        { assert (0x80 * v) * Pow128(i) == v * (0x80 * Pow128(i)); }
        low + group * Pow128(i) + v * Pow128(i + 1);
      }
    }
  }

  /** What one byte of the loop does to the value still to be read. */
  lemma VarintStep(low: nat, bytes: seq<byte>, i: nat, group: nat, next: nat)
    requires i < 9 && bytes != []
    requires group == (if bytes[0] < 0x80 then bytes[0] as nat else bytes[0] as nat - 0x80)
    requires next == low + GroupAt(group, i)
    ensures Shifted(low, i, VarintFrom(bytes, i))
         == if bytes[0] < 0x80 then Ok((next, bytes[1..])) else Shifted(next, i + 1, VarintFrom(bytes[1..], i + 1))
  {
    if bytes[0] >= 0x80 {
      ShiftedAbove(low, i, group, VarintFrom(bytes[1..], i + 1));
    }
  }

  lemma LastVarintStep(low: nat, bytes: seq<byte>)
    requires bytes != []
    ensures Shifted(low, 9, VarintFrom(bytes, 9))
         == if bytes[0] <= 1 then Ok((low + GroupAt(bytes[0] as nat, 9), bytes[1..])) else Err(VarintOverflow)
  {
  }

  lemma ShiftedNothing(r: Result<(nat, seq<byte>)>)
    ensures Shifted(0, 0, r) == r
  {
  }

  /** The seven value bits of a byte, and whether another group follows. */
  method SplitGroup(b: byte) returns (group: nat, more: bool)
    ensures group == if b < 0x80 then b as nat else b as nat - 0x80
    ensures more <==> b >= 0x80
  {
    GroupBits(b);
    group := And(b, 0x7f) as nat;
    more := And(b, 0x80) != 0;
  }

  lemma {:induction false} GroupsArePow2(i: nat)
    ensures Pow128(i) == Pow2(7 * i)
  {
    if i > 0 {
      GroupsArePow2(i - 1);
      SevenDoublings(7 * (i - 1));
    }
  }

  lemma SevenDoublings(k: nat)
    ensures Pow2(k + 7) == 0x80 * Pow2(k)
  {
    assert Pow2(k + 2) == 4 * Pow2(k);
    assert Pow2(k + 4) == 4 * Pow2(k + 2);
    assert Pow2(k + 6) == 4 * Pow2(k + 4);
  }

  lemma {:induction false} PlaceIsProduct(g: nat, k: nat)
    ensures BinaryWords.Place(g, k) == g * Pow2(k)
    decreases k
  {
    if k > 0 {
      PlaceIsProduct(g, k - 1);
    }
  }

  /** The value of a group at its position. */
  function GroupAt(group: nat, i: nat): nat {
    group * Pow128(i)
  }

  /** A group below the limit keeps the value below the place of the next one. */
  lemma GroupFits(value: nat, group: nat, i: nat)
    requires value < Pow128(i) && group < 0x80
    ensures value + GroupAt(group, i) < Pow128(i + 1)
  {
    assert value + group * Pow128(i) < (group + 1) * Pow128(i) <= 0x80 * Pow128(i);
  }

  lemma PlaceOfGroup(group: nat, i: nat)
    ensures BinaryWords.Place(group, 7 * i) == GroupAt(group, i)
  {
    GroupsArePow2(i);
    PlaceIsProduct(group, 7 * i);
  }

  /** What the loop does to its word: the group, shifted above the earlier ones, is added. */
  lemma OrAddsGroup(value: nat, group: nat, i: nat)
    requires i <= 9 && value < Pow128(i)
    ensures Words64.Adds(value, group, i, value + GroupAt(group, i))
  {
    GroupsArePow2(i);
    PlaceOfGroup(group, i);
    Words64.OrAbove(value, group, i, value + GroupAt(group, i));
  }

  lemma {:induction false} PlacesGrow(i: nat)
    requires i <= 9
    ensures Pow128(i) <= Pow128(9)
    decreases 9 - i
  {
    if i < 9 {
      PlacesGrow(i + 1);
    }
  }

  lemma TopPlace()
    ensures Pow128(9) == 0x8000_0000_0000_0000
  {
    assert Pow128(3) == 0x20_0000;
    assert Pow128(6) == 0x400_0000_0000;
  }

  /** A word of fewer than ten full groups has the value of its groups. */
  lemma NumberOf(value: nat, i: nat)
    requires i <= 9 && value < 2 * Pow128(i)
    ensures Words64.FromNumber(value) as nat == value
  {
    PlacesGrow(i);
    TopPlace();
    Words64.FromNumberValue(value);
  }

  /** Ors a group into the word of the groups before it. */
  method PutGroup(word: bv64, ghost value: nat, group: nat, i: nat) returns (sum: bv64)
    requires i <= 9 && word == Words64.FromNumber(value) && value < Pow128(i)
    ensures sum == Words64.FromNumber(value + GroupAt(group, i))
  {
    OrAddsGroup(value, group, i);
    var shifted := Words64.ShiftBy(Words64.FromNumber(group), i);
    sum := Words64.Or(word, shifted);
  }

  method NumberIn(word: bv64, ghost value: nat, ghost i: nat) returns (n: nat)
    requires i <= 9 && word == Words64.FromNumber(value) && value < 2 * Pow128(i)
    ensures n == value
  {
    NumberOf(value, i);
    n := word as nat;
  }

  /** One round of the loop: the next group is or-ed in above the earlier ones. */
  method ReadGroup(word: bv64, ghost value: nat, bytes: seq<byte>, i: nat)
    returns (sum: bv64, ghost next: nat, more: bool)
    requires i < 9 && bytes != [] && word == Words64.FromNumber(value) && value < Pow128(i)
    ensures sum == Words64.FromNumber(next) && next < Pow128(i + 1)
    ensures Shifted(value, i, VarintFrom(bytes, i))
         == if more then Shifted(next, i + 1, VarintFrom(bytes[1..], i + 1)) else Ok((next, bytes[1..]))
  {
    var group;
    group, more := SplitGroup(bytes[0]);
    GroupFits(value, group, i);
    sum := PutGroup(word, value, group, i);
    next := value + GroupAt(group, i);
    VarintStep(value, bytes, i, group, next);
  }

  /** The source's loop on a 64-bit word: seven bits per byte. */
  method ReadVarint(bytes: seq<byte>) returns (r: Result<(nat, seq<byte>)>)
    ensures r == Varint(bytes)
  {
    var rest := bytes;
    var word: bv64 := Words64.FromNumber(0);
    ghost var value: nat := 0;
    ShiftedNothing(Varint(bytes));
    for i := 0 to 9
      invariant Varint(bytes) == Shifted(value, i, VarintFrom(rest, i))
      invariant word == Words64.FromNumber(value) && value < Pow128(i)
    {
      if rest == [] {
        return Err(Truncated);
      }
      var more;
      word, value, more := ReadGroup(word, value, rest, i);
      rest := rest[1..];
      if !more {
        var n := NumberIn(word, value, i + 1);
        return Ok((n, rest));
      }
    }
    r := ReadLast(word, value, rest);
  }

  /** Of the tenth byte, one bit fits. */
  method ReadLast(word: bv64, ghost value: nat, bytes: seq<byte>) returns (r: Result<(nat, seq<byte>)>)
    requires word == Words64.FromNumber(value) && value < Pow128(9)
    ensures r == Shifted(value, 9, VarintFrom(bytes, 9))
  {
    if bytes == [] {
      return Err(Truncated);
    }
    LastVarintStep(value, bytes);
    var last := bytes[0];
    if last > 1 {
      return Err(VarintOverflow);
    }
    var sum := PutGroup(word, value, last as nat, 9);
    var n := NumberIn(sum, value + GroupAt(last as nat, 9), 9);
    r := Ok((n, bytes[1..]));
  }

  /** Masking separates the seven value bits of a byte from its continuation bit. */
  lemma GroupBits(b: byte)
    ensures And(b, 0x7f) == if b < 0x80 then b else b - 0x80
    ensures And(b, 0x80) == 0 <==> b < 0x80
  {
    BitsValue(b);
    LowSeven(Bits(b));
    HighBit(Bits(b));
    SevenPattern();
  }

  lemma SevenPattern()
    ensures Bits(0x7f) == 0x7f
    ensures Bits(0x80) == 0x80
  {
  }

  lemma LowSeven(x: bv8)
    ensures (x & 0x7f) as nat == if x as nat < 0x80 then x as nat else x as nat - 0x80
  {
  }

  lemma HighBit(x: bv8)
    ensures (x & 0x80) as nat == 0 <==> x as nat < 0x80
  {
  }

  function VarintBytes(value: nat): seq<byte> {
    if value < 0x80 then [value as byte]
    else [(value % 0x80 + 0x80) as byte] + VarintBytes(value / 0x80)
  }

  method PutVarint(bytes: seq<byte>, value: nat) returns (out: seq<byte>)
    ensures out == bytes + VarintBytes(value)
  {
    out := bytes;
    var rest := value;
    while rest >= 0x80
      invariant bytes + VarintBytes(value) == out + VarintBytes(rest)
    {
      VarintBytesStep(rest);
      out := out + [Or((rest % 0x100) as byte, 0x80)];
      rest := rest / 0x80;
    }
    out := out + [rest as byte];
  }

  lemma VarintBytesStep(value: nat)
    requires value >= 0x80
    ensures VarintBytes(value) == [Or((value % 0x100) as byte, 0x80)] + VarintBytes(value / 0x80)
  {
    ContinuationBits((value % 0x100) as byte);
    LowGroup(value);
  }

  lemma LowGroup(value: nat)
    ensures value % 0x80 == if value % 0x100 < 0x80 then value % 0x100 else value % 0x100 - 0x80
  {
  }

  lemma ContinuationBits(b: byte)
    ensures Or(b, 0x80) == if b < 0x80 then b + 0x80 else b
  {
    BitsValue(b);
    SetHighBit(Bits(b));
    SevenPattern();
  }

  lemma SetHighBit(x: bv8)
    ensures (x | 0x80) as nat == if x as nat < 0x80 then x as nat + 0x80 else x as nat
  {
  }

  /** Reading inverts writing and leaves any suffix untouched. */
  lemma {:induction false} VarintRoundTripFrom(value: nat, suffix: seq<byte>, i: nat)
    requires i <= 9 && value < Room(i)
    ensures VarintFrom(VarintBytes(value) + suffix, i) == Ok((value, suffix))
    ensures |VarintBytes(value)| <= 10 - i
    decreases 9 - i
  {
    var bytes := VarintBytes(value) + suffix;
    if value < 0x80 {
      assert bytes[1..] == suffix;
    } else {
      assert i < 9;
      VarintRoundTripFrom(value / 0x80, suffix, i + 1);
      assert bytes[1..] == VarintBytes(value / 0x80) + suffix;
    }
  }

  lemma RoomIsU64()
    ensures Room(0) == U64_LIMIT
  {
    assert Room(9) == 2;
    assert Room(8) == 0x100;
    assert Room(7) == 0x8000;
    assert Room(6) == 0x40_0000;
    assert Room(5) == 0x2000_0000;
    assert Room(4) == 0x10_0000_0000;
    assert Room(3) == 0x800_0000_0000;
    assert Room(2) == 0x4_0000_0000_0000;
    assert Room(1) == 0x200_0000_0000_0000;
  }

  lemma VarintRoundTrip(value: nat, suffix: seq<byte>)
    requires value < U64_LIMIT
    ensures Varint(VarintBytes(value) + suffix) == Ok((value, suffix))
    ensures |VarintBytes(value)| <= 10
  {
    RoomIsU64();
    VarintRoundTripFrom(value, suffix, 0);
  }

  // ---------------------------------------------------------------- what a varint means

  /** One complete group string: every byte but the last continues, and bit 64 stays clear. */
  predicate IsVarint(groups: seq<byte>) {
    && 1 <= |groups| <= 10
    && (forall i :: 0 <= i < |groups| - 1 ==> groups[i] >= 0x80)
    && groups[|groups| - 1] < 0x80
    && (|groups| == 10 ==> groups[9] <= 1)
  }

  /** The sum of the seven-bit groups at their positions. */
  function GroupSum(groups: seq<byte>): nat {
    if groups == [] then 0
    else
      var n := |groups| - 1;
      GroupSum(groups[..n]) + (groups[n] as nat % 0x80) * Pow128(n)
  }

  lemma {:induction false} GroupSumCons(b: byte, groups: seq<byte>)
    ensures GroupSum([b] + groups) == b as nat % 0x80 + 0x80 * GroupSum(groups)
  {
    if groups == [] {
      assert [b] + groups == [b];
      assert [b][..0] == [];
      assert GroupSum([b]) == GroupSum([b][..0]) + (b as nat % 0x80) * Pow128(0);
    } else {
      var n := |groups| - 1;
      GroupSumCons(b, groups[..n]);
      assert ([b] + groups)[..n + 1] == [b] + groups[..n];
      assert (groups[n] as nat % 0x80) * Pow128(n + 1) == 0x80 * ((groups[n] as nat % 0x80) * Pow128(n));
    }
  }

  /** `bytes` starts with the group string of length `n`, whose value and remainder are `v` and `rest`. */
  predicate ReadsAs(bytes: seq<byte>, n: nat, v: nat, rest: seq<byte>) {
    n <= |bytes| && IsVarint(bytes[..n]) && v == GroupSum(bytes[..n]) && rest == bytes[n..]
  }

  /** The same for the groups from the `i`-th on. */
  predicate ReadsAsFrom(bytes: seq<byte>, i: nat, n: nat, v: nat, rest: seq<byte>) {
    && 1 <= n <= 10 - i
    && n <= |bytes|
    && (forall k :: 0 <= k < n - 1 ==> bytes[k] >= 0x80)
    && bytes[n - 1] < 0x80
    && (n == 10 - i ==> bytes[n - 1] <= 1)
    && v == GroupSum(bytes[..n])
    && rest == bytes[n..]
  }

  lemma ReadsAsCons(bytes: seq<byte>, i: nat, m: nat, v: nat, rest: seq<byte>)
    requires i < 9 && bytes != [] && bytes[0] >= 0x80
    requires ReadsAsFrom(bytes[1..], i + 1, m, v, rest)
    ensures ReadsAsFrom(bytes, i, m + 1, bytes[0] as nat - 0x80 + 0x80 * v, rest)
  {
    var tail := bytes[1..];
    assert bytes[..m + 1] == [bytes[0]] + tail[..m];
    GroupSumCons(bytes[0], tail[..m]);
    forall k | 0 <= k < m ensures bytes[k] >= 0x80 {
      assert k > 0 ==> bytes[k] == tail[k - 1];
    }
  }

  lemma {:induction false} VarintMeaningFrom(bytes: seq<byte>, i: nat) returns (n: nat)
    requires i <= 9 && VarintFrom(bytes, i).Ok?
    ensures ReadsAsFrom(bytes, i, n, VarintFrom(bytes, i).value.0, VarintFrom(bytes, i).value.1)
    ensures VarintFrom(bytes, i).value.0 < Room(i)
    decreases 9 - i
  {
    if i == 9 || bytes[0] < 0x80 {
      n := 1;
      assert bytes[..1] == [bytes[0]] + [];
      GroupSumCons(bytes[0], []);
    } else {
      var m := VarintMeaningFrom(bytes[1..], i + 1);
      var (v, rest) := VarintFrom(bytes[1..], i + 1).value;
      ReadsAsCons(bytes, i, m, v, rest);
      n := m + 1;
    }
  }

  lemma ReadsAsTail(bytes: seq<byte>, i: nat, n: nat, v: nat, rest: seq<byte>)
    requires i <= 9 && n > 1 && ReadsAsFrom(bytes, i, n, v, rest)
    ensures var tail := bytes[1..];
            && ReadsAsFrom(tail, i + 1, n - 1, GroupSum(tail[..n - 1]), rest)
            && bytes[0] >= 0x80
            && v == bytes[0] as nat - 0x80 + 0x80 * GroupSum(tail[..n - 1])
  {
    var tail := bytes[1..];
    assert bytes[..n] == [bytes[0]] + tail[..n - 1];
    GroupSumCons(bytes[0], tail[..n - 1]);
  }

  lemma LastGroupReads(bytes: seq<byte>, i: nat, v: nat, rest: seq<byte>)
    requires i <= 9 && ReadsAsFrom(bytes, i, 1, v, rest)
    ensures VarintFrom(bytes, i) == Ok((v, rest))
  {
    assert bytes[..1] == [bytes[0]] + [];
    GroupSumCons(bytes[0], []);
  }

  lemma {:induction false} VarintOfGroupsFrom(bytes: seq<byte>, i: nat, n: nat, v: nat, rest: seq<byte>)
    requires i <= 9 && ReadsAsFrom(bytes, i, n, v, rest)
    ensures VarintFrom(bytes, i) == Ok((v, rest))
    decreases n
  {
    if n == 1 {
      LastGroupReads(bytes, i, v, rest);
    } else {
      ReadsAsTail(bytes, i, n, v, rest);
      VarintOfGroupsFrom(bytes[1..], i + 1, n - 1, GroupSum(bytes[1..][..n - 1]), rest);
    }
  }

  /**
   Reading succeeds exactly on a group string of at most ten bytes, and then returns the
   sum of its groups, which fits 64 bits, and the bytes after it.
   */
  lemma VarintIff(bytes: seq<byte>, v: nat, rest: seq<byte>)
    ensures Varint(bytes) == Ok((v, rest)) <==> exists n: nat :: ReadsAs(bytes, n, v, rest)
    ensures Varint(bytes) == Ok((v, rest)) ==> v < U64_LIMIT
  {
    RoomIsU64();
    if Varint(bytes) == Ok((v, rest)) {
      var n := VarintMeaningFrom(bytes, 0);
      assert ReadsAs(bytes, n, v, rest);
    }
    if n: nat :| ReadsAs(bytes, n, v, rest) {
      assert forall k :: 0 <= k < n ==> bytes[k] == bytes[..n][k];
      VarintOfGroupsFrom(bytes, 0, n, v, rest);
    }
  }

  // ---------------------------------------------------------------- fields

  datatype Value = Number(value: nat) | Fixed32(word: nat) | Bytes(bytes: seq<byte>)

  datatype Field = Field(number: nat, value: Value)

  function Take(bytes: seq<byte>, length: nat): Result<(seq<byte>, seq<byte>)> {
    if length <= |bytes| then Ok((bytes[..length], bytes[length..])) else Err(Truncated)
  }

  function LittleEndian(word: nat): (s: seq<byte>)
    requires word < U32_LIMIT
    ensures |s| == 4
  {
    [(word % 0x100) as byte, (word / 0x100 % 0x100) as byte, (word / 0x100 / 0x100 % 0x100) as byte,
     (word / 0x100 / 0x100 / 0x100) as byte]
  }

  function FromLittleEndian(s: seq<byte>): (word: nat)
    requires |s| == 4
    ensures word < U32_LIMIT
  {
    s[0] as nat + 0x100 * (s[1] as nat + 0x100 * (s[2] as nat + 0x100 * s[3] as nat))
  }

  lemma LittleEndianRoundTrip(word: nat)
    requires word < U32_LIMIT
    ensures FromLittleEndian(LittleEndian(word)) == word
  {
  }

  /** The field at the start of `bytes` (none for a skipped fixed64) and the bytes after it. */
  function First(bytes: seq<byte>): Result<(seq<Field>, seq<byte>)> {
    var (key, rest) :- Varint(bytes);
    if key >= U32_LIMIT then Err(KeyTooLarge)
    else if key / 8 == 0 then Err(ZeroField)
    else
      match key % 8
      case 0 =>
        var (value, rest) :- Varint(rest);
        Ok(([Field(key / 8, Number(value))], rest))
      case 1 =>
        var (_, rest) :- Take(rest, 8);
        Ok(([], rest))
      case 2 =>
        var (length, rest) :- Varint(rest);
        var (taken, rest) :- Take(rest, length);
        Ok(([Field(key / 8, Bytes(taken))], rest))
      case 5 =>
        var (taken, rest) :- Take(rest, 4);
        Ok(([Field(key / 8, Fixed32(FromLittleEndian(taken)))], rest))
      case _ => Err(UnsupportedWireType)
  }

  function Prepend(earlier: seq<Field>, r: Result<seq<Field>>): Result<seq<Field>> {
    if r.Ok? then Ok(earlier + r.value) else r
  }

  lemma PrependTwice(a: seq<Field>, b: seq<Field>, r: Result<seq<Field>>)
    ensures Prepend(a, Prepend(b, r)) == Prepend(a + b, r)
    ensures Prepend([], r) == r
  {
    if r.Ok? {
      assert a + (b + r.value) == a + b + r.value;
      assert [] + r.value == r.value;
    }
  }

  lemma {:induction false} VarintShortens(bytes: seq<byte>, i: nat)
    requires i <= 9 && VarintFrom(bytes, i).Ok?
    ensures |VarintFrom(bytes, i).value.1| < |bytes|
    decreases 9 - i
  {
    if i < 9 && bytes[0] >= 0x80 {
      VarintShortens(bytes[1..], i + 1);
    }
  }

  lemma FirstShortens(bytes: seq<byte>)
    requires First(bytes).Ok?
    ensures |First(bytes).value.1| < |bytes|
  {
    VarintShortens(bytes, 0);
    var (key, rest) := Varint(bytes).value;
    if key % 8 == 0 || key % 8 == 2 {
      VarintShortens(rest, 0);
    }
  }

  function Fields(bytes: seq<byte>): Result<seq<Field>>
    decreases |bytes|
  {
    if bytes == [] then Ok([])
    else
      var (fields, rest) :- First(bytes);
      FirstShortens(bytes);
      Prepend(fields, Fields(rest))
  }

  method ParseFields(bytes: seq<byte>) returns (r: Result<seq<Field>>)
    ensures r == Fields(bytes)
  {
    var fields, rest := [], bytes;
    PrependTwice([], [], Fields(bytes));
    while rest != []
      invariant Fields(bytes) == Prepend(fields, Fields(rest))
      decreases |rest|
    {
      var first := First(rest);
      if first.Err? {
        return Err(first.error);
      }
      var (more, after) := first.value;
      FirstShortens(rest);
      PrependTwice(fields, more, Fields(after));
      fields, rest := fields + more, after;
    }
    assert fields + [] == fields;
    r := Ok(fields);
  }

  // ---------------------------------------------------------------- concatenation

  lemma {:induction false} VarintPrefix(a: seq<byte>, b: seq<byte>, i: nat)
    requires i <= 9 && VarintFrom(a, i).Ok?
    ensures var (v, rest) := VarintFrom(a, i).value; VarintFrom(a + b, i) == Ok((v, rest + b))
    decreases 9 - i
  {
    assert (a + b)[1..] == a[1..] + b;
    if i < 9 && a[0] >= 0x80 {
      VarintPrefix(a[1..], b, i + 1);
    }
  }

  lemma TakePrefix(a: seq<byte>, b: seq<byte>, length: nat)
    requires Take(a, length).Ok?
    ensures Take(a + b, length) == Ok((a[..length], a[length..] + b))
  {
    assert (a + b)[..length] == a[..length];
    assert (a + b)[length..] == a[length..] + b;
  }

  lemma FirstPrefix(a: seq<byte>, b: seq<byte>)
    requires First(a).Ok?
    ensures var (fields, rest) := First(a).value; First(a + b) == Ok((fields, rest + b))
  {
    VarintPrefix(a, b, 0);
    var (key, rest) := Varint(a).value;
    if key % 8 == 0 {
      VarintPrefix(rest, b, 0);
    } else if key % 8 == 1 {
      TakePrefix(rest, b, 8);
    } else if key % 8 == 2 {
      VarintPrefix(rest, b, 0);
      var (length, body) := Varint(rest).value;
      TakePrefix(body, b, length);
    } else {
      TakePrefix(rest, b, 4);
    }
  }

  /** Once `a` parses, the fields of `a + b` are those of `a` followed by those of `b`, or `b`'s error. */
  lemma {:induction false} FieldsAppend(a: seq<byte>, b: seq<byte>)
    requires Fields(a).Ok?
    ensures Fields(a + b) == Prepend(Fields(a).value, Fields(b))
    decreases |a|
  {
    if a == [] {
      assert a + b == b;
      PrependTwice([], [], Fields(b));
    } else {
      var (fields, rest) := First(a).value;
      FirstPrefix(a, b);
      FirstShortens(a);
      FieldsAppend(rest, b);
      PrependTwice(fields, Fields(rest).value, Fields(b));
    }
  }

  // ---------------------------------------------------------------- packets

  type u32 = n: nat | n < U32_LIMIT

  datatype Packet = Packet(kind: u32, channel: u32, service: u32, method_: u32, payload: seq<byte>, status: u32,
                           call: u32)

  const DEFAULT := Packet(0, 0, 0, 0, [], 0, 0)

  function NumberBytes(field: nat, value: u32): seq<byte> {
    if value == 0 then [] else VarintBytes(8 * field) + VarintBytes(value)
  }

  function Fixed32Bytes(field: nat, value: u32): seq<byte> {
    if value == 0 then [] else VarintBytes(8 * field + 5) + LittleEndian(value)
  }

  function PayloadBytes(field: nat, payload: seq<byte>): seq<byte> {
    if payload == [] then [] else VarintBytes(8 * field + 2) + VarintBytes(|payload|) + payload
  }

  /** Whatever equals the default packet is left out. */
  function Encoded(p: Packet): seq<byte> {
    NumberBytes(1, p.kind) + NumberBytes(2, p.channel) + Fixed32Bytes(3, p.service) + Fixed32Bytes(4, p.method_)
    + PayloadBytes(5, p.payload) + NumberBytes(6, p.status) + NumberBytes(7, p.call)
  }

  method PutNumber(bytes: seq<byte>, field: nat, value: u32) returns (out: seq<byte>)
    ensures out == bytes + NumberBytes(field, value)
  {
    out := bytes;
    if value != 0 {
      out := PutVarint(out, 8 * field);
      AppendTwo(bytes, VarintBytes(8 * field), VarintBytes(value));
      out := PutVarint(out, value);
    }
  }

  method PutFixed32(bytes: seq<byte>, field: nat, value: u32) returns (out: seq<byte>)
    ensures out == bytes + Fixed32Bytes(field, value)
  {
    out := bytes;
    if value != 0 {
      out := PutVarint(out, 8 * field + 5);
      AppendTwo(bytes, VarintBytes(8 * field + 5), LittleEndian(value));
      out := out + LittleEndian(value);
    }
  }

  lemma AppendTwo(a: seq<byte>, b: seq<byte>, c: seq<byte>)
    ensures a + b + c == a + (b + c)
  {
  }

  lemma AppendThree(a: seq<byte>, b: seq<byte>, c: seq<byte>, d: seq<byte>)
    ensures a + b + c + d == a + (b + c + d)
  {
  }

  method PutPayload(bytes: seq<byte>, field: nat, payload: seq<byte>) returns (out: seq<byte>)
    ensures out == bytes + PayloadBytes(field, payload)
  {
    out := bytes;
    if payload != [] {
      out := PutVarint(out, 8 * field + 2);
      out := PutVarint(out, |payload|);
      AppendThree(bytes, VarintBytes(8 * field + 2), VarintBytes(|payload|), payload);
      out := out + payload;
    }
  }

  method EncodePacket(p: Packet) returns (bytes: seq<byte>)
    ensures bytes == Encoded(p)
  {
    bytes := PutNumber([], 1, p.kind);
    assert bytes == NumberBytes(1, p.kind);
    bytes := PutNumber(bytes, 2, p.channel);
    bytes := PutFixed32(bytes, 3, p.service);
    bytes := PutFixed32(bytes, 4, p.method_);
    bytes := PutPayload(bytes, 5, p.payload);
    bytes := PutNumber(bytes, 6, p.status);
    bytes := PutNumber(bytes, 7, p.call);
  }

  /** The packet after one more field; unknown fields are ignored and a repeated field is replaced. */
  function Assign(p: Packet, f: Field): Result<Packet> {
    match f
    case Field(1, Number(v)) => if v < U32_LIMIT then Ok(p.(kind := v)) else Err(FieldTooLarge)
    case Field(2, Number(v)) => if v < U32_LIMIT then Ok(p.(channel := v)) else Err(FieldTooLarge)
    case Field(3, Fixed32(v)) => if v < U32_LIMIT then Ok(p.(service := v)) else Err(FieldTooLarge)
    case Field(4, Fixed32(v)) => if v < U32_LIMIT then Ok(p.(method_ := v)) else Err(FieldTooLarge)
    case Field(5, Bytes(b)) => Ok(p.(payload := b))
    case Field(6, Number(v)) => if v < U32_LIMIT then Ok(p.(status := v)) else Err(FieldTooLarge)
    case Field(7, Number(v)) => if v < U32_LIMIT then Ok(p.(call := v)) else Err(FieldTooLarge)
    case _ => Ok(p)
  }

  function AssignAll(p: Packet, fields: seq<Field>): Result<Packet> {
    if fields == [] then Ok(p)
    else
      var before :- AssignAll(p, fields[..|fields| - 1]);
      Assign(before, fields[|fields| - 1])
  }

  function Decoded(bytes: seq<byte>): Result<Packet> {
    var fields :- Fields(bytes);
    AssignAll(DEFAULT, fields)
  }

  method DecodePacket(bytes: seq<byte>) returns (r: Result<Packet>)
    ensures r == Decoded(bytes)
  {
    var fields := ParseFields(bytes);
    if fields.Err? {
      return Err(fields.error);
    }
    var packet := DEFAULT;
    for i := 0 to |fields.value|
      invariant AssignAll(DEFAULT, fields.value[..i]) == Ok(packet)
    {
      assert fields.value[..i + 1][..i] == fields.value[..i];
      var next := Assign(packet, fields.value[i]);
      if next.Err? {
        AssignAllPrefix(DEFAULT, fields.value, i + 1);
        return Err(next.error);
      }
      packet := next.value;
    }
    assert fields.value[..|fields.value|] == fields.value;
    r := Ok(packet);
  }

  /** An error met in a prefix of the fields is the error of the whole. */
  lemma {:induction false} AssignAllPrefix(p: Packet, fields: seq<Field>, n: nat)
    requires n <= |fields| && AssignAll(p, fields[..n]).Err?
    ensures AssignAll(p, fields) == AssignAll(p, fields[..n])
  {
    if n < |fields| {
      var m := |fields| - 1;
      assert fields[..m][..n] == fields[..n];
      AssignAllPrefix(p, fields[..m], n);
    } else {
      assert fields[..n] == fields;
    }
  }

  // ---------------------------------------------------------------- round trip

  lemma FieldsOfNumber(field: nat, value: u32)
    requires 1 <= field <= 15
    ensures Fields(NumberBytes(field, value)) == Ok(if value == 0 then [] else [Field(field, Number(value))])
  {
    if value != 0 {
      var tail := VarintBytes(value);
      VarintRoundTrip(8 * field, tail);
      VarintRoundTrip(value, []);
      assert tail + [] == tail;
      assert First(NumberBytes(field, value)) == Ok(([Field(field, Number(value))], []));
      FieldsOfOne(NumberBytes(field, value), Field(field, Number(value)));
    }
  }

  lemma FieldsOfFixed32(field: nat, value: u32)
    requires 1 <= field <= 15
    ensures Fields(Fixed32Bytes(field, value)) == Ok(if value == 0 then [] else [Field(field, Fixed32(value))])
  {
    if value != 0 {
      var tail := LittleEndian(value);
      VarintRoundTrip(8 * field + 5, tail);
      LittleEndianRoundTrip(value);
      assert tail[..4] == tail && tail[4..] == [];
      FieldsOfOne(Fixed32Bytes(field, value), Field(field, Fixed32(value)));
    }
  }

  lemma KeyParts(field: nat, wire: nat)
    requires wire < 8
    ensures (8 * field + wire) / 8 == field && (8 * field + wire) % 8 == wire
  {
  }

  lemma FirstOfPayload(bytes: seq<byte>, key: nat, rest: seq<byte>, payload: seq<byte>)
    requires Varint(bytes) == Ok((key, rest)) && Varint(rest) == Ok((|payload|, payload))
    requires 0 < key / 8 && key < U32_LIMIT && key % 8 == 2
    ensures First(bytes) == Ok(([Field(key / 8, Bytes(payload))], []))
  {
    assert Take(payload, |payload|) == Ok((payload, [])) by {
      assert payload[..|payload|] == payload && payload[|payload|..] == [];
    }
  }

  lemma FieldsOfPayload(field: nat, payload: seq<byte>)
    requires 1 <= field <= 15 && |payload| < U64_LIMIT
    ensures Fields(PayloadBytes(field, payload)) == Ok(if payload == [] then [] else [Field(field, Bytes(payload))])
  {
    if payload != [] {
      var tail := VarintBytes(|payload|) + payload;
      VarintRoundTrip(8 * field + 2, tail);
      VarintRoundTrip(|payload|, payload);
      AppendTwo(VarintBytes(8 * field + 2), VarintBytes(|payload|), payload);
      KeyParts(field, 2);
      FirstOfPayload(PayloadBytes(field, payload), 8 * field + 2, tail, payload);
      FieldsOfOne(PayloadBytes(field, payload), Field(field, Bytes(payload)));
    }
  }

  lemma FieldsOfOne(bytes: seq<byte>, f: Field)
    requires bytes != [] && First(bytes) == Ok(([f], []))
    ensures Fields(bytes) == Ok([f])
  {
    assert [f] + [] == [f];
  }

  lemma {:induction false} AssignAllAppend(p: Packet, a: seq<Field>, b: seq<Field>)
    requires AssignAll(p, a).Ok?
    ensures AssignAll(p, a + b) == AssignAll(AssignAll(p, a).value, b)
  {
    if b == [] {
      assert a + b == a;
    } else {
      assert (a + b)[..|a + b| - 1] == a + b[..|b| - 1];
      AssignAllAppend(p, a, b[..|b| - 1]);
    }
  }

  /** `bytes` parses, and assigning its fields to the default packet gives `p`. */
  predicate Carries(bytes: seq<byte>, p: Packet) {
    Fields(bytes).Ok? && AssignAll(DEFAULT, Fields(bytes).value) == Ok(p)
  }

  /** One more encoded field takes the carried packet one step further. */
  lemma CarriesNext(bytes: seq<byte>, p: Packet, more: seq<byte>, fields: seq<Field>, q: Packet)
    requires Carries(bytes, p) && Fields(more) == Ok(fields) && AssignAll(p, fields) == Ok(q)
    ensures Carries(bytes + more, q)
  {
    FieldsAppend(bytes, more);
    AssignAllAppend(DEFAULT, Fields(bytes).value, fields);
  }

  lemma AssignOne(p: Packet, f: Field)
    ensures AssignAll(p, [f]) == Assign(p, f)
  {
    assert [f][..0] == [];
  }

  function FieldBytes(p: Packet, n: nat): seq<byte> {
    match n
    case 1 => NumberBytes(1, p.kind)
    case 2 => NumberBytes(2, p.channel)
    case 3 => Fixed32Bytes(3, p.service)
    case 4 => Fixed32Bytes(4, p.method_)
    case 5 => PayloadBytes(5, p.payload)
    case 6 => NumberBytes(6, p.status)
    case _ => NumberBytes(7, p.call)
  }

  /** The first `n` encoded fields. */
  function EncodedPrefix(p: Packet, n: nat): seq<byte>
    decreases n
  {
    if n == 0 then [] else EncodedPrefix(p, n - 1) + FieldBytes(p, n)
  }

  /** The packet that has only the first `n` fields of `p`. */
  function PacketPrefix(p: Packet, n: nat): Packet {
    Packet(if n < 1 then 0 else p.kind, if n < 2 then 0 else p.channel, if n < 3 then 0 else p.service,
           if n < 4 then 0 else p.method_, if n < 5 then [] else p.payload, if n < 6 then 0 else p.status,
           if n < 7 then 0 else p.call)
  }

  lemma FieldStep(bytes: seq<byte>, p: Packet, n: nat)
    requires 1 <= n <= 7 && |p.payload| < U64_LIMIT
    requires Carries(bytes, PacketPrefix(p, n - 1))
    ensures Carries(bytes + FieldBytes(p, n), PacketPrefix(p, n))
  {
    var before, after := PacketPrefix(p, n - 1), PacketPrefix(p, n);
    match n
    case 1 => NumberStep(bytes, before, 1, p.kind, after);
    case 2 => NumberStep(bytes, before, 2, p.channel, after);
    case 3 => Fixed32Step(bytes, before, 3, p.service, after);
    case 4 => Fixed32Step(bytes, before, 4, p.method_, after);
    case 5 => PayloadStep(bytes, before, p.payload, after);
    case 6 => NumberStep(bytes, before, 6, p.status, after);
    case _ => NumberStep(bytes, before, 7, p.call, after);
  }

  lemma {:induction false} PrefixCarries(p: Packet, n: nat)
    requires n <= 7 && |p.payload| < U64_LIMIT
    ensures Carries(EncodedPrefix(p, n), PacketPrefix(p, n))
  {
    if n > 0 {
      PrefixCarries(p, n - 1);
      FieldStep(EncodedPrefix(p, n - 1), p, n);
    }
  }

  lemma EncodedIsPrefix(p: Packet)
    ensures Encoded(p) == EncodedPrefix(p, 7)
  {
    assert [] + NumberBytes(1, p.kind) == NumberBytes(1, p.kind);
  }

  /** Decoding inverts encoding for every packet. */
  lemma PacketRoundTrip(p: Packet)
    requires |p.payload| < U64_LIMIT
    ensures Decoded(Encoded(p)) == Ok(p)
  {
    PrefixCarries(p, 7);
    EncodedIsPrefix(p);
  }

  lemma NumberStep(bytes: seq<byte>, p: Packet, field: nat, value: u32, q: Packet)
    requires Carries(bytes, p) && 1 <= field <= 15
    requires if value == 0 then p == q else Assign(p, Field(field, Number(value))) == Ok(q)
    ensures Carries(bytes + NumberBytes(field, value), q)
  {
    FieldsOfNumber(field, value);
    AssignOne(p, Field(field, Number(value)));
    CarriesNext(bytes, p, NumberBytes(field, value), if value == 0 then [] else [Field(field, Number(value))], q);
  }

  lemma Fixed32Step(bytes: seq<byte>, p: Packet, field: nat, value: u32, q: Packet)
    requires Carries(bytes, p) && 1 <= field <= 15
    requires if value == 0 then p == q else Assign(p, Field(field, Fixed32(value))) == Ok(q)
    ensures Carries(bytes + Fixed32Bytes(field, value), q)
  {
    FieldsOfFixed32(field, value);
    AssignOne(p, Field(field, Fixed32(value)));
    CarriesNext(bytes, p, Fixed32Bytes(field, value), if value == 0 then [] else [Field(field, Fixed32(value))], q);
  }

  lemma PayloadStep(bytes: seq<byte>, p: Packet, payload: seq<byte>, q: Packet)
    requires Carries(bytes, p) && |payload| < U64_LIMIT
    requires p.payload == [] && q == p.(payload := payload)
    ensures Carries(bytes + PayloadBytes(5, payload), q)
  {
    FieldsOfPayload(5, payload);
    AssignOne(p, Field(5, Bytes(payload)));
    CarriesNext(bytes, p, PayloadBytes(5, payload), if payload == [] then [] else [Field(5, Bytes(payload))], q);
  }
}
