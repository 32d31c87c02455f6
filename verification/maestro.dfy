/** Maestro frames: an HDLC address, a control byte, a pw_rpc packet and a CRC-32 (src/maestro/protocol.rs). */
module Maestro {
  import opened ByteBits
  import opened Wire
  import opened Framing
  import opened Crc32
  import opened FrameCheck
  import opened Protobuf

  const FLAG: byte := 0x7e
  const ESCAPE: byte := 0x7d
  const ESCAPE_MASK: byte := 0x20
  const UNNUMBERED_INFORMATION: byte := 0x03
  const MARKERS := Markers(FLAG, FLAG)
  const STUFFING := Stuffing(MARKERS, ESCAPE, (b: byte) => Xor(b, ESCAPE_MASK), (b: byte) => Xor(b, ESCAPE_MASK))

  lemma XorTwice(x: bv8, mask: bv8)
    ensures (x ^ mask) ^ mask == x
  {
  }

  lemma MaskTwice(b: byte, mask: byte)
    ensures Xor(Xor(b, mask), mask) == b
  {
    BitsOfXor(b, mask);
    BitsOfXor(Xor(b, mask), mask);
    XorTwice(Bits(b), Bits(mask));
    BitsInjective(Xor(Xor(b, mask), mask), b);
  }

  lemma XorMoves(b: byte, c: byte, mask: byte)
    requires Xor(b, mask) == c
    ensures Xor(c, mask) == b
  {
    MaskTwice(b, mask);
  }

  lemma PatternOfFlags()
    ensures Xor(0x5e, ESCAPE_MASK) == 0x7e
    ensures Xor(0x5d, ESCAPE_MASK) == 0x7d
  {
  }

  /** The escape mask moves both special bytes out of the way. */
  lemma StuffingTransparent()
    ensures STUFFING.Transparent()
  {
    PatternOfFlags();
    XorMoves(0x5e, 0x7e, ESCAPE_MASK);
    XorMoves(0x5d, 0x7d, ESCAPE_MASK);
    forall b | STUFFING.Special(b)
      ensures STUFFING.encode(b) != FLAG && STUFFING.decode(STUFFING.encode(b)) == b
    {
      assert b == 0x7e || b == 0x7d;
      MaskTwice(b, ESCAPE_MASK);
    }
  }

  // ---------------------------------------------------------------- addresses

  /** Seven bits to a byte, lowest first and shifted left; bit zero marks the last byte. */
  function AddressBytes(address: nat): seq<byte> {
    if address < 0x80 then [(2 * address + 1) as byte]
    else [(2 * (address % 0x80)) as byte] + AddressBytes(address / 0x80)
  }

  method PutAddress(bytes: seq<byte>, address: nat) returns (out: seq<byte>)
    ensures out == bytes + AddressBytes(address)
  {
    out := bytes;
    var rest := address;
    while rest >= 0x80
      invariant bytes + AddressBytes(address) == out + AddressBytes(rest)
    {
      AppendTwo(out, [(2 * (rest % 0x80)) as byte], AddressBytes(rest / 0x80));
      out := out + [(2 * (rest % 0x80)) as byte];
      rest := rest / 0x80;
    }
    out := out + [(2 * rest + 1) as byte];
  }

  /** The address that address bytes stand for. */
  function AddressValue(bytes: seq<byte>): nat {
    if bytes == [] then 0 else bytes[0] as nat / 2 + 0x80 * AddressValue(bytes[1..])
  }

  /** The index of the first odd byte, or the length if there is none. */
  function AddressEnd(content: seq<byte>): (n: nat)
    ensures n <= |content|
    ensures forall i :: 0 <= i < n ==> content[i] % 2 == 0
    ensures n < |content| ==> content[n] % 2 == 1
  {
    if content == [] then 0
    else if content[0] % 2 == 1 then 0
    else
      var n := AddressEnd(content[1..]);
      assert forall i :: 1 <= i < n + 1 ==> content[i] == content[1..][i - 1];
      n + 1
  }

  lemma AddressEndUnique(content: seq<byte>, n: nat)
    requires n < |content| && content[n] % 2 == 1
    requires forall i :: 0 <= i < n ==> content[i] % 2 == 0
    ensures AddressEnd(content) == n
  {
  }

  /** Whatever follows, the written address ends where reading stops, and no two addresses are written alike. */
  lemma {:induction false} AddressRoundTrip(address: nat, suffix: seq<byte>)
    ensures AddressEnd(AddressBytes(address) + suffix) == |AddressBytes(address)| - 1
    ensures AddressValue(AddressBytes(address)) == address
  {
    if address >= 0x80 {
      AddressRoundTrip(address / 0x80, suffix);
      assert (AddressBytes(address) + suffix)[1..] == AddressBytes(address / 0x80) + suffix;
    } else {
      assert AddressValue([]) == 0;
    }
  }

  // ---------------------------------------------------------------- frames

  function Content(address: nat, data: seq<byte>): seq<byte> {
    AddressBytes(address) + [UNNUMBERED_INFORMATION] + data
  }

  function Body(address: nat, data: seq<byte>): seq<byte> {
    Content(address, data) + Trailer(Crc(Content(address, data)))
  }

  function EncodedFrame(address: nat, data: seq<byte>): seq<byte> {
    Framed(Stuff(Body(address, data), STUFFING), MARKERS)
  }

  method EncodeFrame(address: nat, data: seq<byte>) returns (frame: seq<byte>)
    ensures frame == EncodedFrame(address, data)
  {
    var body := PutAddress([], address);
    assert body == AddressBytes(address);
    body := body + [UNNUMBERED_INFORMATION];
    body := body + data;
    var crc := ComputeCrc(body);
    body := body + Trailer(crc);
    frame := Escape(body, STUFFING);
  }

  /** What follows the address: a control byte and a packet. */
  function ParseControl(rest: seq<byte>): Result<Packet> {
    if rest == [] then Err(NoControl)
    else if rest[0] != UNNUMBERED_INFORMATION then Err(UnsupportedControl)
    else Decoded(rest[1..])
  }

  function ParseContent(content: seq<byte>): Result<Packet> {
    var n := AddressEnd(content);
    if n == |content| then Err(UnterminatedAddress) else ParseControl(content[n + 1..])
  }

  function Parse(body: seq<byte>): Result<Packet> {
    if |body| < 6 then Err(Truncated)
    else if !Intact(body) then Err(ChecksumMismatch)
    else ParseContent(body[..|body| - 4])
  }

  function Decode(escaped: seq<byte>): Result<Packet> {
    var body :- Unstuff(escaped, STUFFING);
    Parse(body)
  }

  method DecodeFrame(escaped: seq<byte>) returns (r: Result<Packet>)
    ensures r == Decode(escaped)
  {
    var body :- Unescape(escaped, STUFFING);
    if |body| < 6 {
      return Err(Truncated);
    }
    var content, received := body[..|body| - 4], body[|body| - 4..];
    var crc := ComputeCrc(content);
    assert Intact(body) == (crc == FromTrailer(received));
    if crc != FromTrailer(received) {
      return Err(ChecksumMismatch);
    }
    var n := AddressEnd(content);
    if n == |content| {
      return Err(UnterminatedAddress);
    }
    var rest := content[n + 1..];
    if rest == [] {
      return Err(NoControl);
    }
    if rest[0] != UNNUMBERED_INFORMATION {
      return Err(UnsupportedControl);
    }
    r := DecodePacket(rest[1..]);
  }

  class FrameDecoder {
    const frames: DelimitedFrames

    constructor ()
      ensures fresh(frames) && frames.State() == CLOSED
    {
      frames := new DelimitedFrames();
    }

    method Push(bytes: seq<byte>) returns (decoded: seq<Result<Packet>>)
      modifies frames
      ensures (frames.State(), decoded) == Run(old(frames.State()), bytes, MARKERS, Decode)
    {
      decoded := frames.Push(bytes, MARKERS, Decode);
    }
  }

  // ---------------------------------------------------------------- one frame

  /** An address as the receiver sees it: even bytes and one odd byte. */
  predicate IsAddress(bytes: seq<byte>) {
    && bytes != []
    && bytes[|bytes| - 1] % 2 == 1
    && forall i :: 0 <= i < |bytes| - 1 ==> bytes[i] % 2 == 0
  }

  /** `content` is an address, the control byte and `data`. */
  predicate IsContent(content: seq<byte>, address: seq<byte>, data: seq<byte>) {
    IsAddress(address) && content == address + [UNNUMBERED_INFORMATION] + data
  }

  ghost predicate CarriesPacket(content: seq<byte>, p: Packet) {
    exists address, data :: IsContent(content, address, data) && Decoded(data) == Ok(p)
  }

  lemma ContentSplits(content: seq<byte>, address: seq<byte>, data: seq<byte>)
    requires IsContent(content, address, data)
    ensures ParseContent(content) == Decoded(data)
  {
    AddressEndUnique(content, |address| - 1);
    assert content[|address|..] == [UNNUMBERED_INFORMATION] + data;
    assert content[|address|..][1..] == data;
  }

  lemma ParseContentIff(content: seq<byte>, p: Packet)
    ensures ParseContent(content) == Ok(p) <==> CarriesPacket(content, p)
  {
    if ParseContent(content) == Ok(p) {
      var n := AddressEnd(content);
      var address, data := content[..n + 1], content[n + 2..];
      assert content == address + [UNNUMBERED_INFORMATION] + data;
      assert content[n + 1..][1..] == data;
      assert IsContent(content, address, data);
    }
    forall address, data | IsContent(content, address, data)
      ensures ParseContent(content) == Decoded(data)
    {
      ContentSplits(content, address, data);
    }
  }

  /** A packet is received exactly when an intact body carries it behind an address and the control byte. */
  lemma ParseIff(body: seq<byte>, p: Packet)
    ensures Parse(body) == Ok(p) <==> |body| >= 6 && Intact(body) && CarriesPacket(body[..|body| - 4], p)
  {
    if |body| >= 6 {
      ParseContentIff(body[..|body| - 4], p);
    }
  }

  lemma BodyIntact(address: nat, data: seq<byte>)
    ensures |Body(address, data)| >= 6 && Intact(Body(address, data))
    ensures Body(address, data)[..|Body(address, data)| - 4] == Content(address, data)
  {
    var content, body := Content(address, data), Body(address, data);
    var trailer := Trailer(Crc(content));
    assert body[..|body| - 4] == content && body[|body| - 4..] == trailer;
    TrailerRoundTrip(Crc(content));
  }

  lemma ContentRoundTrip(address: nat, data: seq<byte>)
    ensures ParseContent(Content(address, data)) == Decoded(data)
  {
    var bytes := AddressBytes(address);
    AddressRoundTrip(address, []);
    assert bytes + [] == bytes;
    ContentSplits(Content(address, data), bytes, data);
  }

  /** Decoding inverts encoding for every address and packet. */
  lemma FrameRoundTrip(address: nat, p: Packet)
    requires |p.payload| < U64_LIMIT
    ensures Decode(Stuff(Body(address, Encoded(p)), STUFFING)) == Ok(p)
  {
    StuffingTransparent();
    UnstuffStuff(Body(address, Encoded(p)), STUFFING);
    BodyIntact(address, Encoded(p));
    ContentRoundTrip(address, Encoded(p));
    PacketRoundTrip(p);
  }

  /**
   Any change confined to four consecutive bytes of an intact body is reported as a
   checksum mismatch, wherever it stands: in the content, in the trailer or across both.
   */
  lemma AlterationRejected(body: seq<byte>, altered: seq<byte>, k: nat, n: nat, escaped: seq<byte>)
    requires |body| >= 6 && Intact(body)
    requires n <= 4 && DifferWithin(body, altered, k, n)
    requires Unstuff(escaped, STUFFING) == Ok(altered)
    ensures Decode(escaped) == Err(ChecksumMismatch)
  {
    BurstBreaksTrailer(body, altered, k, n);
  }

  // ---------------------------------------------------------------- streams

  /** One packet on the wire, after extra flags and perhaps sharing the previous closing flag. */
  datatype Sent = Sent(flags: nat, shared: bool, address: u32, packet: Packet)

  predicate Fits(address: nat, p: Packet) {
    |p.payload| < U64_LIMIT && |Stuff(Body(address, Encoded(p)), STUFFING)| <= MAX_FRAME - 1
  }

  /** The bytes on the wire: with a shared flag, the frame without its opening one. */
  function SentBytes(s: Sent): seq<byte> {
    var frame := EncodedFrame(s.address, Encoded(s.packet));
    Repeat(FLAG, s.flags) + if s.shared then frame[1..] else frame
  }

  function Stream(sent: seq<Sent>): seq<byte> {
    if sent == [] then [] else Stream(sent[..|sent| - 1]) + SentBytes(sent[|sent| - 1])
  }

  function PieceOf(s: Sent): Piece {
    Piece(Repeat(FLAG, s.flags), s.shared, Stuff(Body(s.address, Encoded(s.packet)), STUFFING))
  }

  function PiecesOf(sent: seq<Sent>): (pieces: seq<Piece>)
    ensures |pieces| == |sent|
  {
    seq(|sent|, i requires 0 <= i < |sent| => PieceOf(sent[i]))
  }

  function Received(sent: seq<Sent>): (packets: seq<Result<Packet>>)
    ensures |packets| == |sent|
  {
    seq(|sent|, i requires 0 <= i < |sent| => Ok(sent[i].packet))
  }

  lemma PieceOfDecodes(s: Sent)
    requires Fits(s.address, s.packet)
    ensures PieceOf(s).Legal(MARKERS)
    ensures Decode(PieceOf(s).content) == Ok(s.packet)
  {
    var body := Body(s.address, Encoded(s.packet));
    StuffingTransparent();
    StuffHidesMarkers(body, STUFFING);
    BodyIntact(s.address, Encoded(s.packet));
    FrameRoundTrip(s.address, s.packet);
  }

  lemma PiecesOfDecode(sent: seq<Sent>)
    requires forall s <- sent :: Fits(s.address, s.packet)
    ensures forall p <- PiecesOf(sent) :: p.Legal(MARKERS)
    ensures Decodings(PiecesOf(sent), Decode) == Received(sent)
  {
    var pieces := PiecesOf(sent);
    forall i | 0 <= i < |sent|
      ensures pieces[i].Legal(MARKERS) && Decode(pieces[i].content) == Ok(sent[i].packet)
    {
      PieceOfDecodes(sent[i]);
    }
  }

  lemma WiresReceived(noise: seq<byte>, pieces: seq<Piece>, flags: nat, chunks: seq<seq<byte>>)
    requires FLAG !in noise
    requires forall p <- pieces :: p.Legal(MARKERS)
    requires Flatten(chunks) == noise + [FLAG] + Wires(pieces, MARKERS) + Repeat(FLAG, flags)
    ensures Pushes(CLOSED, chunks, MARKERS, Decode) == (Idle(MARKERS), Decodings(pieces, Decode))
  {
    StreamDecodes(chunks, noise, pieces, Repeat(FLAG, flags), MARKERS, Decode);
  }

  lemma SentIsWire(s: Sent)
    ensures SentBytes(s) == PieceOf(s).Wire(MARKERS)
  {
    WithoutOpeningFlag(PieceOf(s).content);
  }

  lemma WithoutOpeningFlag(content: seq<byte>)
    ensures Framed(content, MARKERS)[1..] == content + [FLAG]
  {
  }

  lemma {:induction false} StreamIsWires(sent: seq<Sent>)
    ensures Stream(sent) == Wires(PiecesOf(sent), MARKERS)
  {
    if sent != [] {
      var n := |sent| - 1;
      StreamIsWires(sent[..n]);
      assert PiecesOf(sent)[..n] == PiecesOf(sent[..n]);
      SentIsWire(sent[n]);
    }
  }

  /**
   After any noise before the first flag, every packet is received exactly, in order and
   with nothing else, however the stream is cut into chunks and wherever neighbouring
   frames share a flag or are separated by further flags.
   */
  lemma StreamRoundTrip(noise: seq<byte>, sent: seq<Sent>, flags: nat, chunks: seq<seq<byte>>)
    requires FLAG !in noise
    requires forall s <- sent :: Fits(s.address, s.packet)
    requires Flatten(chunks) == noise + [FLAG] + Stream(sent) + Repeat(FLAG, flags)
    ensures Pushes(CLOSED, chunks, MARKERS, Decode) == (Idle(MARKERS), Received(sent))
  {
    PiecesOfDecode(sent);
    StreamIsWires(sent);
    WiresReceived(noise, PiecesOf(sent), flags, chunks);
  }

  /** The outputs of the frame encoder, one after the other. */
  function Concatenated(sent: seq<Sent>): seq<byte> {
    if sent == [] then []
    else
      var last := sent[|sent| - 1];
      Concatenated(sent[..|sent| - 1]) + EncodedFrame(last.address, Encoded(last.packet))
  }

  /** Sent back to back: the first frame's own opening flag is the one that starts the stream. */
  predicate BackToBack(sent: seq<Sent>) {
    forall i :: 0 <= i < |sent| ==> sent[i].flags == 0 && sent[i].shared == (i == 0)
  }

  lemma {:induction false} ConcatenatedIsStream(sent: seq<Sent>)
    requires sent != [] && BackToBack(sent)
    ensures Concatenated(sent) == [FLAG] + Stream(sent)
  {
    var n := |sent| - 1;
    if n == 0 {
      FirstSent(sent[0]);
      assert Concatenated(sent[..0]) == [] && Stream(sent[..0]) == [];
      assert [] + SentBytes(sent[0]) == SentBytes(sent[0]);
    } else {
      ConcatenatedIsStream(sent[..n]);
      NextSent(sent[n]);
      AppendTwo([FLAG], Stream(sent[..n]), SentBytes(sent[n]));
    }
  }

  lemma FirstSent(s: Sent)
    requires s.flags == 0 && s.shared
    ensures EncodedFrame(s.address, Encoded(s.packet)) == [FLAG] + SentBytes(s)
  {
    SentIsWire(s);
    FramedAfterFlag(PieceOf(s).content, s.flags);
  }

  lemma FramedAfterFlag(content: seq<byte>, flags: nat)
    requires flags == 0
    ensures Framed(content, MARKERS) == [FLAG] + (Repeat(FLAG, flags) + (content + [FLAG]))
  {
  }

  lemma NextSent(s: Sent)
    requires s.flags == 0 && !s.shared
    ensures EncodedFrame(s.address, Encoded(s.packet)) == SentBytes(s)
  {
  }

  lemma NothingAround(a: seq<byte>, b: seq<byte>)
    ensures [] + a + b + Repeat(FLAG, 0) == a + b
  {
  }

  /** In particular, for the plain concatenation of encoded frames. */
  lemma ConcatenationRoundTrip(sent: seq<Sent>, chunks: seq<seq<byte>>)
    requires sent != [] && BackToBack(sent)
    requires forall s <- sent :: Fits(s.address, s.packet)
    requires Flatten(chunks) == Concatenated(sent)
    ensures Pushes(CLOSED, chunks, MARKERS, Decode) == (Idle(MARKERS), Received(sent))
  {
    ConcatenatedIsStream(sent);
    NothingAround([FLAG], Stream(sent));
    StreamRoundTrip([], sent, 0, chunks);
  }
}
