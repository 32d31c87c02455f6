/** Length-prefixed Fast Pair Message Stream frames and their residue-buffer decoder (src/fast_pair.rs). */
module FastPairFrames {
  import opened ByteBits
  import opened Wire

  const MAX_FRAME_PAYLOAD := 4096

  datatype Frame = Frame(group: byte, code: byte, payload: seq<byte>)

  function LengthField(n: nat): (s: seq<byte>)
    requires n < 0x1_0000
    ensures |s| == 2
    ensures s[0] as nat * 0x100 + s[1] as nat == n
  {
    [(n / 0x100) as byte, (n % 0x100) as byte]
  }

  /** The bytes of a frame whose length fits the two-byte length field. */
  function Bytes(f: Frame): seq<byte>
    requires |f.payload| < 0x1_0000
  {
    [f.group, f.code] + LengthField(|f.payload|) + f.payload
  }

  function Encoded(f: Frame): Result<seq<byte>> {
    if |f.payload| >= 0x1_0000 then Err(PayloadTooLarge) else Ok(Bytes(f))
  }

  method Encode(group: byte, code: byte, payload: seq<byte>) returns (r: Result<seq<byte>>)
    ensures r == Encoded(Frame(group, code, payload))
  {
    if |payload| >= 0x1_0000 {
      return Err(PayloadTooLarge);
    }
    var frame := [group, code];
    frame := frame + LengthField(|payload|);
    frame := frame + payload;
    r := Ok(frame);
  }

  /** The payload length a header declares. */
  function Declared(bytes: seq<byte>): nat
    requires |bytes| >= 4
  {
    bytes[2] as nat * 0x100 + bytes[3] as nat
  }

  /** What a byte string amounts to: complete frames and a residue, or an oversize header. */
  datatype Parsed = Parsed(frames: seq<Frame>, rest: seq<byte>) | TooLarge {
    function After(earlier: seq<Frame>): Parsed {
      if TooLarge? then this else Parsed(earlier + frames, rest)
    }
  }

  function Parse(bytes: seq<byte>): Parsed {
    if |bytes| < 4 then Parsed([], bytes)
    else if Declared(bytes) > MAX_FRAME_PAYLOAD then TooLarge
    else if |bytes| < 4 + Declared(bytes) then Parsed([], bytes)
    else Parse(bytes[4 + Declared(bytes)..]).After([FirstFrame(bytes)])
  }

  function FirstFrame(bytes: seq<byte>): Frame
    requires |bytes| >= 4 && |bytes| >= 4 + Declared(bytes)
  {
    Frame(bytes[0], bytes[1], bytes[4..4 + Declared(bytes)])
  }

  lemma AfterTwice(p: Parsed, a: seq<Frame>, b: seq<Frame>)
    ensures p.After(b).After(a) == p.After(a + b)
    ensures p.After([]) == p
  {
    if p.Parsed? {
      assert a + (b + p.frames) == a + b + p.frames;
      assert [] + p.frames == p.frames;
    }
  }

  lemma FrameTaken(bytes: seq<byte>, frames: seq<Frame>)
    requires |bytes| >= 4 && Declared(bytes) <= MAX_FRAME_PAYLOAD && |bytes| >= 4 + Declared(bytes)
    ensures Parse(bytes).After(frames) == Parse(bytes[4 + Declared(bytes)..]).After(frames + [FirstFrame(bytes)])
  {
    AfterTwice(Parse(bytes[4 + Declared(bytes)..]), frames, [FirstFrame(bytes)]);
  }

  /** A residue: no complete frame and no oversize header. */
  predicate Incomplete(rest: seq<byte>) {
    |rest| < 4 || (Declared(rest) <= MAX_FRAME_PAYLOAD && |rest| < 4 + Declared(rest))
  }

  lemma NoneTaken(bytes: seq<byte>, frames: seq<Frame>)
    requires Incomplete(bytes) || Declared(bytes) > MAX_FRAME_PAYLOAD
    ensures Parse(bytes).After(frames) == if Incomplete(bytes) then Parsed(frames, bytes) else TooLarge
  {
  }

  lemma FrameTakenAt(bytes: seq<byte>, consumed: nat, frames: seq<Frame>)
    requires consumed <= |bytes| && !Incomplete(bytes[consumed..])
    requires Declared(bytes[consumed..]) <= MAX_FRAME_PAYLOAD
    ensures var rest := bytes[consumed..];
            (Parse(rest).After(frames)
             == Parse(bytes[consumed + 4 + Declared(rest)..]).After(frames + [FirstFrame(rest)]))
  {
    var rest := bytes[consumed..];
    FrameTaken(rest, frames);
    assert rest[4 + Declared(rest)..] == bytes[consumed + 4 + Declared(rest)..];
  }

  /** Parsing goes on at `consumed`, with `frames` found before. */
  function ParseFrom(bytes: seq<byte>, consumed: nat, frames: seq<Frame>): Parsed
    requires consumed <= |bytes|
    decreases |bytes| - consumed
  {
    var rest := bytes[consumed..];
    if |rest| < 4 then Parsed(frames, rest)
    else if Declared(rest) > MAX_FRAME_PAYLOAD then TooLarge
    else if |rest| < 4 + Declared(rest) then Parsed(frames, rest)
    else ParseFrom(bytes, consumed + 4 + Declared(rest), frames + [FirstFrame(rest)])
  }

  lemma {:induction false} ParseFromIsParse(bytes: seq<byte>, consumed: nat, frames: seq<Frame>)
    requires consumed <= |bytes|
    ensures ParseFrom(bytes, consumed, frames) == Parse(bytes[consumed..]).After(frames)
    decreases |bytes| - consumed
  {
    var rest := bytes[consumed..];
    if Incomplete(rest) || Declared(rest) > MAX_FRAME_PAYLOAD {
      NoneTaken(rest, frames);
    } else {
      ParseFromIsParse(bytes, consumed + 4 + Declared(rest), frames + [FirstFrame(rest)]);
      FrameTakenAt(bytes, consumed, frames);
    }
  }

  lemma ParseFromStart(bytes: seq<byte>)
    ensures ParseFrom(bytes, 0, []) == Parse(bytes)
  {
    ParseFromIsParse(bytes, 0, []);
    assert bytes[0..] == bytes;
    AfterTwice(Parse(bytes), [], []);
  }

  class FrameDecoder {
    var buffered: seq<byte>

    constructor ()
      ensures buffered == []
    {
      buffered := [];
    }

    /** The loop over the bytes buffered: the frames found and where it stops. */
    method TakeFrames() returns (r: Result<(seq<Frame>, nat)>)
      ensures match r
              case Ok((frames, consumed)) =>
                consumed <= |buffered| && ParseFrom(buffered, 0, []) == Parsed(frames, buffered[consumed..])
              case Err(e) => e == PayloadTooLarge && ParseFrom(buffered, 0, []) == TooLarge
    {
      var frames := [];
      var consumed := 0;
      while |buffered| - consumed >= 4
        invariant consumed <= |buffered|
        invariant ParseFrom(buffered, consumed, frames) == ParseFrom(buffered, 0, [])
      {
        var rest := buffered[consumed..];
        var payloadLen := rest[2] as nat * 0x100 + rest[3] as nat;
        if payloadLen > MAX_FRAME_PAYLOAD {
          return Err(PayloadTooLarge);
        }
        var frameLen := 4 + payloadLen;
        if |rest| < frameLen {
          break;
        }
        frames := frames + [Frame(rest[0], rest[1], rest[4..frameLen])];
        consumed := consumed + frameLen;
      }
      r := Ok((frames, consumed));
    }

    method Push(bytes: seq<byte>) returns (r: Result<seq<Frame>>)
      modifies this
      ensures match Parse(old(buffered) + bytes)
              case TooLarge => r == Err(PayloadTooLarge) && buffered == []
              case Parsed(frames, rest) => r == Ok(frames) && buffered == rest
    {
      buffered := buffered + bytes;
      ParseFromStart(buffered);
      var taken := TakeFrames();
      match taken
      case Ok((frames, consumed)) =>
        buffered := buffered[consumed..];
        r := Ok(frames);
      case Err(e) =>
        buffered := [];
        r := Err(e);
    }
  }

  // ---------------------------------------------------------------- meaning

  function EncodeAll(frames: seq<Frame>): seq<byte>
    requires forall f <- frames :: |f.payload| <= MAX_FRAME_PAYLOAD
  {
    if frames == [] then [] else Bytes(frames[0]) + EncodeAll(frames[1..])
  }

  predicate Small(frames: seq<Frame>) {
    forall f <- frames :: |f.payload| <= MAX_FRAME_PAYLOAD
  }

  lemma BytesOfFirstFrame(bytes: seq<byte>)
    requires |bytes| >= 4 && Declared(bytes) <= MAX_FRAME_PAYLOAD && |bytes| >= 4 + Declared(bytes)
    ensures Bytes(FirstFrame(bytes)) == bytes[..4 + Declared(bytes)]
  {
    var field := LengthField(Declared(bytes));
    assert field == bytes[2..4];
  }

  lemma FirstFrameOfBytes(f: Frame, rest: seq<byte>)
    requires |f.payload| <= MAX_FRAME_PAYLOAD
    ensures var bytes := Bytes(f) + rest;
            && Declared(bytes) == |f.payload|
            && FirstFrame(bytes) == f
            && bytes[4 + Declared(bytes)..] == rest
  {
    var bytes := Bytes(f) + rest;
    assert Declared(bytes) == |f.payload|;
    assert bytes[4..4 + |f.payload|] == f.payload;
  }

  lemma EncodeAllCons(f: Frame, frames: seq<Frame>, rest: seq<byte>)
    requires |f.payload| <= MAX_FRAME_PAYLOAD && Small(frames)
    ensures Small([f] + frames)
    ensures EncodeAll([f] + frames) + rest == Bytes(f) + (EncodeAll(frames) + rest)
  {
    assert ([f] + frames)[1..] == frames;
  }

  /** Re-encoding the frames and appending the residue gives back `bytes`, and the residue holds no frame. */
  predicate Accounts(bytes: seq<byte>, frames: seq<Frame>, rest: seq<byte>) {
    Small(frames) && EncodeAll(frames) + rest == bytes && Incomplete(rest)
  }

  lemma AccountsCons(bytes: seq<byte>, frames: seq<Frame>, rest: seq<byte>)
    requires |bytes| >= 4 && Declared(bytes) <= MAX_FRAME_PAYLOAD && |bytes| >= 4 + Declared(bytes)
    requires Accounts(bytes[4 + Declared(bytes)..], frames, rest)
    ensures Accounts(bytes, [FirstFrame(bytes)] + frames, rest)
  {
    var n := 4 + Declared(bytes);
    EncodeAllCons(FirstFrame(bytes), frames, rest);
    BytesOfFirstFrame(bytes);
    assert bytes == bytes[..n] + bytes[n..];
  }

  /** Parsing accounts for every byte. */
  lemma {:induction false} ParseReencodes(bytes: seq<byte>)
    requires Parse(bytes).Parsed?
    ensures Accounts(bytes, Parse(bytes).frames, Parse(bytes).rest)
    ensures |Parse(bytes).rest| < 4 + MAX_FRAME_PAYLOAD
    decreases |bytes|
  {
    if Incomplete(bytes) {
      assert [] + bytes == bytes;
    } else {
      var rest := bytes[4 + Declared(bytes)..];
      ParseReencodes(rest);
      AccountsCons(bytes, Parse(rest).frames, Parse(rest).rest);
    }
  }

  lemma ParseCons(f: Frame, tail: seq<byte>)
    requires |f.payload| <= MAX_FRAME_PAYLOAD
    ensures Parse(Bytes(f) + tail) == Parse(tail).After([f])
  {
    FirstFrameOfBytes(f, tail);
  }

  /** Parsing is the only way to read a string as frames followed by a residue. */
  lemma {:induction false} ParseUnique(frames: seq<Frame>, rest: seq<byte>)
    requires Small(frames) && Incomplete(rest)
    ensures Parse(EncodeAll(frames) + rest) == Parsed(frames, rest)
    decreases |frames|
  {
    if frames == [] {
      assert EncodeAll(frames) + rest == rest;
    } else {
      ParseUnique(frames[1..], rest);
      var tail := EncodeAll(frames[1..]) + rest;
      EncodeAllCons(frames[0], frames[1..], rest);
      assert frames == [frames[0]] + frames[1..];
      ParseCons(frames[0], tail);
    }
  }

  lemma ParseIff(bytes: seq<byte>, frames: seq<Frame>, rest: seq<byte>)
    ensures Parse(bytes) == Parsed(frames, rest)
       <==> Accounts(bytes, frames, rest)
  {
    if Parse(bytes) == Parsed(frames, rest) {
      ParseReencodes(bytes);
    }
    if Small(frames) && Incomplete(rest) {
      ParseUnique(frames, rest);
    }
  }

  // ---------------------------------------------------------------- chunks

  /** Everything returned while pushing `chunks` into a fresh decoder, until a push fails. */
  function PushAll(chunks: seq<seq<byte>>): Parsed {
    if chunks == [] then Parsed([], [])
    else
      var before := PushAll(chunks[..|chunks| - 1]);
      if before.TooLarge? then TooLarge
      else Parse(before.rest + chunks[|chunks| - 1]).After(before.frames)
  }

  lemma {:induction false} ParseAppend(a: seq<byte>, b: seq<byte>)
    ensures match Parse(a)
            case TooLarge => Parse(a + b) == TooLarge
            case Parsed(frames, rest) => Parse(a + b) == Parse(rest + b).After(frames)
    decreases |a|
  {
    if |a| < 4 {
      AfterTwice(Parse(a + b), [], []);
    } else {
      assert Declared(a + b) == Declared(a);
      var n := 4 + Declared(a);
      if n - 4 > MAX_FRAME_PAYLOAD {
      } else if |a| < n {
        AfterTwice(Parse(a + b), [], []);
      } else {
        ParseAppend(a[n..], b);
        assert (a + b)[n..] == a[n..] + b;
        assert FirstFrame(a + b) == FirstFrame(a);
        if Parse(a).Parsed? {
          var inner := Parse(a[n..]);
          AfterTwice(Parse(inner.rest + b), [FirstFrame(a)], inner.frames);
        }
      }
    }
  }

  /**
   Chunking is irrelevant: some push fails exactly when the whole stream has an oversize
   header at a frame boundary, and otherwise the frames and the residue are those of the
   whole stream.
   */
  lemma {:induction false} ChunkingIrrelevant(chunks: seq<seq<byte>>)
    ensures PushAll(chunks) == Parse(Flatten(chunks))
  {
    if chunks != [] {
      var n := |chunks| - 1;
      ChunkingIrrelevant(chunks[..n]);
      ParseAppend(Flatten(chunks[..n]), chunks[n]);
    }
  }

  /** Encoded frames arrive unchanged and in order under every chunking, leaving no residue. */
  lemma StreamRoundTrip(frames: seq<Frame>, chunks: seq<seq<byte>>)
    requires Small(frames)
    requires Flatten(chunks) == EncodeAll(frames)
    ensures PushAll(chunks) == Parsed(frames, [])
  {
    ChunkingIrrelevant(chunks);
    ParseUnique(frames, []);
    assert EncodeAll(frames) + [] == EncodeAll(frames);
  }

  /** As long as no push fails, frames returned and residue always account for every byte pushed. */
  lemma NothingLost(chunks: seq<seq<byte>>)
    ensures PushAll(chunks).Parsed? ==>
              && Accounts(Flatten(chunks), PushAll(chunks).frames, PushAll(chunks).rest)
              && |PushAll(chunks).rest| < 4 + MAX_FRAME_PAYLOAD
  {
    ChunkingIrrelevant(chunks);
    if Parse(Flatten(chunks)).Parsed? {
      ParseReencodes(Flatten(chunks));
    }
  }

  /**
   An oversize header takes the frames before it along if it arrives in the same push: pushed
   together they fail, pushed one after the other the frame is returned first.
   */
  lemma OversizeDropsEarlierFrames(f: Frame, header: seq<byte>)
    requires |f.payload| <= MAX_FRAME_PAYLOAD
    requires |header| == 4 && Declared(header) > MAX_FRAME_PAYLOAD
    ensures Parse(Bytes(f) + header) == TooLarge
    ensures Parse(Bytes(f)) == Parsed([f], []) && Parse([] + header) == TooLarge
  {
    ParseCons(f, header);
    ParseCons(f, []);
    assert Bytes(f) + [] == Bytes(f) && [] + header == header;
    assert [f] + [] == [f];
  }

  // ---------------------------------------------------------------- delivery up to a failing push

  /** What pushes have delivered so far; after a failed push the stream is given up. */
  datatype Delivery = Delivery(frames: seq<Frame>, residue: seq<byte>, failed: bool)

  function Deliver(chunks: seq<seq<byte>>): Delivery {
    if chunks == [] then Delivery([], [], false)
    else
      var before := Deliver(chunks[..|chunks| - 1]);
      if before.failed then before
      else match Parse(before.residue + chunks[|chunks| - 1])
        case TooLarge => Delivery(before.frames, [], true)
        case Parsed(frames, rest) => Delivery(before.frames + frames, rest, false)
  }

  /** The complete frames ahead of the first oversize header, or of the residue. */
  function Before(bytes: seq<byte>): seq<Frame> {
    if Incomplete(bytes) || Declared(bytes) > MAX_FRAME_PAYLOAD then []
    else [FirstFrame(bytes)] + Before(bytes[4 + Declared(bytes)..])
  }

  /** Until a push fails, deliveries are those of the whole stream so far. */
  lemma {:induction false} DeliverIsPushAll(chunks: seq<seq<byte>>)
    ensures Deliver(chunks).failed == PushAll(chunks).TooLarge?
    ensures PushAll(chunks).Parsed? ==>
              Deliver(chunks) == Delivery(PushAll(chunks).frames, PushAll(chunks).rest, false)
  {
    if chunks != [] {
      DeliverIsPushAll(chunks[..|chunks| - 1]);
    }
  }

  predicate Prefix<T(==)>(a: seq<T>, b: seq<T>) {
    |a| <= |b| && a == b[..|a|]
  }

  lemma PrefixCons<T>(x: T, a: seq<T>, b: seq<T>)
    requires Prefix(a, b)
    ensures Prefix([x] + a, [x] + b)
  {
  }

  /** The frames of a prefix that parses come first in every continuation. */
  lemma {:induction false} ParsedComeFirst(a: seq<byte>, b: seq<byte>)
    requires Parse(a).Parsed?
    ensures Prefix(Parse(a).frames, Before(a + b))
    decreases |a|
  {
    if !Incomplete(a) {
      var n := 4 + Declared(a);
      FirstFrameStands(a, b);
      ParsedComeFirst(a[n..], b);
      PrefixCons(FirstFrame(a), Parse(a[n..]).frames, Before(a[n..] + b));
    }
  }

  lemma FirstFrameStands(a: seq<byte>, b: seq<byte>)
    requires |a| >= 4 && |a| >= 4 + Declared(a)
    ensures Declared(a + b) == Declared(a) && FirstFrame(a + b) == FirstFrame(a)
    ensures (a + b)[4 + Declared(a)..] == a[4 + Declared(a)..] + b
  {
    assert (a + b)[4..4 + Declared(a)] == a[4..4 + Declared(a)];
  }

  /** What is delivered are always the first frames of the stream. */
  lemma {:induction false} DeliveredComeFirst(chunks: seq<seq<byte>>, more: seq<byte>)
    ensures Prefix(Deliver(chunks).frames, Before(Flatten(chunks) + more))
  {
    DeliverIsPushAll(chunks);
    ChunkingIrrelevant(chunks);
    if !Deliver(chunks).failed {
      ParsedComeFirst(Flatten(chunks), more);
    } else {
      var n := |chunks| - 1;
      assert Flatten(chunks) + more == Flatten(chunks[..n]) + (chunks[n] + more);
      DeliveredComeFirst(chunks[..n], chunks[n] + more);
    }
  }

  lemma OneChunk(bytes: seq<byte>)
    ensures Flatten([bytes]) == bytes
    ensures Parse(bytes).TooLarge? ==> Deliver([bytes]).frames == []
  {
    assert [bytes][..0] == [];
    assert Flatten([]) + bytes == bytes;
    assert [] + bytes == bytes;
  }

  lemma DeliverOne(bytes: seq<byte>)
    requires Parse(bytes).Parsed?
    ensures Deliver([bytes]) == Delivery(Parse(bytes).frames, Parse(bytes).rest, false)
  {
    assert [bytes][..0] == [];
    assert [] + bytes == bytes && [] + Parse(bytes).frames == Parse(bytes).frames;
  }

  lemma TwoChunks(a: seq<byte>, b: seq<byte>)
    requires Parse(a).Parsed? && Parse(a).frames != []
    ensures Flatten([a, b]) == a + b
    ensures Deliver([a, b]).frames != []
  {
    assert [a, b][..1] == [a];
    OneChunk(a);
    DeliverOne(a);
  }

  /** A stream that starts with a complete frame can be cut so that the frame is delivered. */
  lemma FrameCanBeDelivered(bytes: seq<byte>)
    requires Before(bytes) != []
    ensures exists chunks :: Flatten(chunks) == bytes && Deliver(chunks).frames != []
  {
    var n := 4 + Declared(bytes);
    var f := FirstFrame(bytes);
    BytesOfFirstFrame(bytes);
    ParseCons(f, []);
    assert Bytes(f) + [] == bytes[..n];
    TwoChunks(bytes[..n], bytes[n..]);
    assert bytes[..n] + bytes[n..] == bytes;
    assert Flatten([bytes[..n], bytes[n..]]) == bytes;
  }

  /** However the stream is cut, the same frames are delivered. */
  ghost predicate DeliveryIndependent(bytes: seq<byte>) {
    forall c, d :: Flatten(c) == bytes && Flatten(d) == bytes ==> Deliver(c).frames == Deliver(d).frames
  }

  /**
   What is delivered until a push fails depends on the cuts exactly when the stream has an oversize
   header with complete frames ahead of it.
   */
  lemma DeliveryIndependentIff(bytes: seq<byte>)
    ensures DeliveryIndependent(bytes) <==> Parse(bytes).Parsed? || Before(bytes) == []
  {
    if Parse(bytes).Parsed? || Before(bytes) == [] {
      forall c | Flatten(c) == bytes
        ensures Deliver(c).frames == if Parse(bytes).Parsed? then Parse(bytes).frames else []
      {
        DeliverIsPushAll(c);
        ChunkingIrrelevant(c);
        DeliveredComeFirst(c, []);
        assert bytes + [] == bytes;
      }
    } else {
      FrameCanBeDelivered(bytes);
      OneChunk(bytes);
      var d :| Flatten(d) == bytes && Deliver(d).frames != [];
      assert Flatten([bytes]) == bytes && Deliver([bytes]).frames != Deliver(d).frames;
    }
  }
}
