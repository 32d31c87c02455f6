/** Sony Headphones Connect frames: kind, sequence, length, payload and checksum (src/sony/protocol.rs). */
module Sony {
  import opened ByteBits
  import opened Wire
  import opened Framing

  const START: byte := 0x3e
  const END: byte := 0x3c
  const ESCAPE: byte := 0x3d
  const ESCAPE_MASK: byte := 0xef
  const MARKERS := Markers(START, END)
  const STUFFING := Stuffing(MARKERS, ESCAPE, (b: byte) => And(b, ESCAPE_MASK), (b: byte) => Or(b, Not(ESCAPE_MASK)))
  const U32_LIMIT := 0x1_0000_0000

  datatype Frame = Frame(kind: byte, sequence: byte, payload: seq<byte>)

  function WrappingAdd(a: byte, b: byte): byte {
    if a as int + b as int < 0x100 then a + b else (a as int + b as int - 0x100) as byte
  }

  /** Wrapping byte sum. */
  function Checksum(bytes: seq<byte>): byte {
    if bytes == [] then 0 else WrappingAdd(Checksum(bytes[..|bytes| - 1]), bytes[|bytes| - 1])
  }

  method ComputeChecksum(bytes: seq<byte>) returns (sum: byte)
    ensures sum == Checksum(bytes)
  {
    sum := 0;
    for i := 0 to |bytes|
      invariant sum == Checksum(bytes[..i])
    {
      assert bytes[..i + 1][..i] == bytes[..i];
      sum := WrappingAdd(sum, bytes[i]);
    }
    assert bytes[..|bytes|] == bytes;
  }

  function BigEndian(n: nat): (s: seq<byte>)
    requires n < U32_LIMIT
    ensures |s| == 4
  {
    [(n / 0x100 / 0x100 / 0x100) as byte, (n / 0x100 / 0x100 % 0x100) as byte, (n / 0x100 % 0x100) as byte,
     (n % 0x100) as byte]
  }

  function FromBigEndian(s: seq<byte>): nat
    requires |s| == 4
  {
    ((s[0] as nat * 0x100 + s[1] as nat) * 0x100 + s[2] as nat) * 0x100 + s[3] as nat
  }

  lemma BigEndianRoundTrip(n: nat)
    requires n < U32_LIMIT
    ensures FromBigEndian(BigEndian(n)) == n
  {
  }

  lemma DigitsUnique(high: nat, low: nat, high': nat, low': nat)
    requires low < 0x100 && low' < 0x100
    requires high * 0x100 + low == high' * 0x100 + low'
    ensures high == high' && low == low'
  {
  }

  lemma FromBigEndianInjective(s: seq<byte>, t: seq<byte>)
    requires |s| == |t| == 4 && FromBigEndian(s) == FromBigEndian(t)
    ensures s == t
  {
    DigitsUnique((s[0] as nat * 0x100 + s[1] as nat) * 0x100 + s[2] as nat, s[3] as nat,
                 (t[0] as nat * 0x100 + t[1] as nat) * 0x100 + t[2] as nat, t[3] as nat);
    DigitsUnique(s[0] as nat * 0x100 + s[1] as nat, s[2] as nat, t[0] as nat * 0x100 + t[1] as nat, t[2] as nat);
    DigitsUnique(s[0] as nat, s[1] as nat, t[0] as nat, t[1] as nat);
  }

  /** The checksummed part of a frame. */
  function Content(f: Frame): seq<byte>
    requires |f.payload| < U32_LIMIT
  {
    [f.kind, f.sequence] + BigEndian(|f.payload|) + f.payload
  }

  /** The bytes of a frame before escaping. */
  function Body(f: Frame): seq<byte>
    requires |f.payload| < U32_LIMIT
  {
    Content(f) + [Checksum(Content(f))]
  }

  function Encoded(f: Frame): Result<seq<byte>> {
    if |f.payload| >= U32_LIMIT then Err(PayloadTooLarge)
    else Ok(Framed(Stuff(Body(f), STUFFING), MARKERS))
  }

  method Encode(kind: byte, sequence: byte, payload: seq<byte>) returns (r: Result<seq<byte>>)
    ensures r == Encoded(Frame(kind, sequence, payload))
  {
    if |payload| >= U32_LIMIT {
      return Err(PayloadTooLarge);
    }
    var body := [kind, sequence];
    body := body + BigEndian(|payload|);
    body := body + payload;
    var sum := ComputeChecksum(body);
    body := body + [sum];
    var frame := Escape(body, STUFFING);
    r := Ok(frame);
  }

  function Parse(bytes: seq<byte>): Result<Frame> {
    if bytes == [] then Err(Truncated)
    else
      var n := |bytes| - 1;
      var body := bytes[..n];
      if n < 6 then Err(Truncated)
      else if FromBigEndian(body[2..6]) != n - 6 then Err(LengthMismatch)
      else if Checksum(body) != bytes[n] then Err(ChecksumMismatch)
      else Ok(Frame(body[0], body[1], body[6..]))
  }

  function Decode(escaped: seq<byte>): Result<Frame> {
    var bytes :- Unstuff(escaped, STUFFING);
    Parse(bytes)
  }

  class FrameDecoder {
    const frames: DelimitedFrames

    constructor ()
      ensures fresh(frames) && frames.State() == CLOSED
    {
      frames := new DelimitedFrames();
    }

    method Push(bytes: seq<byte>) returns (decoded: seq<Result<Frame>>)
      modifies frames
      ensures (frames.State(), decoded) == Run(old(frames.State()), bytes, MARKERS, Decode)
    {
      decoded := frames.Push(bytes, MARKERS, Decode);
    }
  }

  lemma MaskPattern()
    ensures Bits(ESCAPE_MASK) == 0xef
  {
  }

  lemma ClearThenSet(x: bv8)
    requires x & 0x10 != 0
    ensures (x & 0xef) | !0xef == x
  {
  }

  /** Clearing and setting bit four restores the bytes that have it. */
  lemma MaskRoundTrip(b: byte)
    requires Bits(b) & 0x10 != 0
    ensures STUFFING.decode(STUFFING.encode(b)) == b
  {
    BitsOfAnd(b, ESCAPE_MASK);
    BitsOfNot(ESCAPE_MASK);
    BitsOfOr(And(b, ESCAPE_MASK), Not(ESCAPE_MASK));
    MaskPattern();
    ClearThenSet(Bits(b));
    BitsInjective(STUFFING.decode(STUFFING.encode(b)), b);
  }

  lemma StuffingTransparent()
    ensures STUFFING.Transparent()
  {
    MaskRoundTrip(0x3c);
    MaskRoundTrip(0x3d);
    MaskRoundTrip(0x3e);
    forall b | STUFFING.Special(b)
      ensures STUFFING.encode(b) != START && STUFFING.encode(b) != END && STUFFING.decode(STUFFING.encode(b)) == b
    {
      assert b == 0x3c || b == 0x3d || b == 0x3e;
    }
  }

  /** Parsing accepts exactly the bodies that encoding produces. */
  lemma ParseIffBody(bytes: seq<byte>, f: Frame)
    ensures Parse(bytes) == Ok(f) <==> |f.payload| < U32_LIMIT && bytes == Body(f)
  {
    if Parse(bytes) == Ok(f) {
      var n := |bytes| - 1;
      BigEndianRoundTrip(n - 6);
      FromBigEndianInjective(bytes[..n][2..6], BigEndian(n - 6));
      assert bytes[..n] == Content(f);
      assert bytes == bytes[..n] + [bytes[n]];
    }
    if |f.payload| < U32_LIMIT && bytes == Body(f) {
      var n := |bytes| - 1;
      BigEndianRoundTrip(|f.payload|);
      assert bytes[..n] == Content(f);
      assert Content(f)[2..6] == BigEndian(|f.payload|);
      assert Content(f)[6..] == f.payload;
    }
  }

  /** A frame is decoded exactly when the escaped bytes stand for its body. */
  lemma DecodeIffBody(escaped: seq<byte>, f: Frame)
    ensures Decode(escaped) == Ok(f) <==> |f.payload| < U32_LIMIT && Unstuff(escaped, STUFFING) == Ok(Body(f))
  {
    if Unstuff(escaped, STUFFING).Ok? {
      ParseIffBody(Unstuff(escaped, STUFFING).value, f);
    }
  }

  lemma {:induction false} ChecksumDetects(s: seq<byte>, t: seq<byte>, k: nat)
    requires DifferOnlyAt(s, t, k)
    ensures Checksum(s) != Checksum(t)
  {
    var n := |s| - 1;
    if k == n {
      assert s[..n] == t[..n];
    } else {
      ChecksumDetects(s[..n], t[..n], k);
    }
  }

  lemma AlteredLengthRejected(f: Frame, altered: seq<byte>, k: nat)
    requires |f.payload| < U32_LIMIT
    requires DifferOnlyAt(Body(f), altered, k) && 2 <= k < 6
    ensures Parse(altered) == Err(LengthMismatch)
  {
    var n := |altered| - 1;
    ParseIffBody(Body(f), f);
    assert Body(f)[..n][2..6][k - 2] != altered[..n][2..6][k - 2];
    if FromBigEndian(altered[..n][2..6]) == n - 6 {
      FromBigEndianInjective(Body(f)[..n][2..6], altered[..n][2..6]);
    }
  }

  lemma AlteredRestRejected(f: Frame, altered: seq<byte>, k: nat)
    requires |f.payload| < U32_LIMIT
    requires DifferOnlyAt(Body(f), altered, k) && !(2 <= k < 6)
    ensures Parse(altered) == Err(ChecksumMismatch)
  {
    var n := |altered| - 1;
    var body := Body(f);
    ParseIffBody(body, f);
    assert body[..n][2..6] == altered[..n][2..6];
    if k == n {
      assert altered[..n] == body[..n];
    } else {
      ChecksumDetects(body[..n], altered[..n], k);
    }
  }

  /** A single altered byte, wherever it stands in the body of a frame, is always detected. */
  lemma AlteredByteRejected(f: Frame, altered: seq<byte>, k: nat, escaped: seq<byte>)
    requires |f.payload| < U32_LIMIT
    requires DifferOnlyAt(Body(f), altered, k)
    requires Unstuff(escaped, STUFFING) == Ok(altered)
    ensures Decode(escaped) == Err(if 2 <= k < 6 then LengthMismatch else ChecksumMismatch)
  {
    if 2 <= k < 6 {
      AlteredLengthRejected(f, altered, k);
    } else {
      AlteredRestRejected(f, altered, k);
    }
  }

  // ---------------------------------------------------------------- streams

  /** A frame the decoder has room for. */
  predicate Fits(f: Frame) {
    |f.payload| < U32_LIMIT && |Stuff(Body(f), STUFFING)| <= MAX_FRAME - 1
  }

  /** A frame and the noise before it. */
  datatype Sent = Sent(noise: seq<byte>, frame: Frame)

  function SentBytes(s: Sent): seq<byte>
    requires Fits(s.frame)
  {
    s.noise + Encoded(s.frame).value
  }

  function Stream(sent: seq<Sent>): seq<byte>
    requires forall s <- sent :: Fits(s.frame)
  {
    if sent == [] then []
    else
      var last := sent[|sent| - 1];
      assert Fits(last.frame);
      Stream(sent[..|sent| - 1]) + SentBytes(last)
  }

  function PieceOf(s: Sent): Piece
    requires Fits(s.frame)
  {
    Piece(s.noise, false, Stuff(Body(s.frame), STUFFING))
  }

  function PiecesOf(sent: seq<Sent>): (pieces: seq<Piece>)
    requires forall s <- sent :: Fits(s.frame)
    ensures |pieces| == |sent|
  {
    seq(|sent|, i requires 0 <= i < |sent| => PieceOf(sent[i]))
  }

  function Received(sent: seq<Sent>): (frames: seq<Result<Frame>>)
    ensures |frames| == |sent|
  {
    seq(|sent|, i requires 0 <= i < |sent| => Ok(sent[i].frame))
  }

  lemma PiecesOfDecode(sent: seq<Sent>)
    requires forall s <- sent :: Fits(s.frame) && START !in s.noise
    ensures forall p <- PiecesOf(sent) :: p.Legal(MARKERS)
    ensures Decodings(PiecesOf(sent), Decode) == Received(sent)
  {
    var pieces := PiecesOf(sent);
    forall i | 0 <= i < |sent|
      ensures pieces[i].Legal(MARKERS) && Decode(pieces[i].content) == Ok(sent[i].frame)
    {
      PieceOfDecodes(sent[i]);
    }
  }

  lemma PieceOfDecodes(s: Sent)
    requires Fits(s.frame) && START !in s.noise
    ensures PieceOf(s).Legal(MARKERS)
    ensures Decode(PieceOf(s).content) == Ok(s.frame)
  {
    StuffingTransparent();
    StuffHidesMarkers(Body(s.frame), STUFFING);
    UnstuffStuff(Body(s.frame), STUFFING);
    DecodeIffBody(PieceOf(s).content, s.frame);
  }

  lemma SentIsWire(s: Sent)
    requires Fits(s.frame)
    ensures SentBytes(s) == PieceOf(s).Wire(MARKERS)
  {
  }

  lemma {:induction false} StreamIsWires(sent: seq<Sent>)
    requires forall s <- sent :: Fits(s.frame)
    ensures Stream(sent) == Wires(PiecesOf(sent), MARKERS)
  {
    if sent != [] {
      var n := |sent| - 1;
      StreamIsWires(sent[..n]);
      assert PiecesOf(sent)[..n] == PiecesOf(sent[..n]);
      SentIsWire(sent[n]);
    }
  }

  lemma WiresReceived(pieces: seq<Piece>, tail: seq<byte>, chunks: seq<seq<byte>>)
    requires forall p <- pieces :: p.Legal(MARKERS)
    requires START !in tail
    requires Flatten(chunks) == Wires(pieces, MARKERS) + tail
    ensures Pushes(CLOSED, chunks, MARKERS, Decode) == (CLOSED, Decodings(pieces, Decode))
  {
    NothingBefore(Wires(pieces, MARKERS), tail);
    StreamDecodes(chunks, [], pieces, tail, MARKERS, Decode);
  }

  /**
   Frames sent with any noise free of the start marker between them are received
   exactly, in order and with nothing else, however the stream is cut into chunks.
   */
  lemma StreamRoundTrip(sent: seq<Sent>, tail: seq<byte>, chunks: seq<seq<byte>>)
    requires forall s <- sent :: Fits(s.frame) && START !in s.noise
    requires START !in tail
    requires Flatten(chunks) == Stream(sent) + tail
    ensures Pushes(CLOSED, chunks, MARKERS, Decode)
         == (CLOSED, Received(sent))
  {
    PiecesOfDecode(sent);
    StreamIsWires(sent);
    WiresReceived(PiecesOf(sent), tail, chunks);
  }
}
