/**
 Byte stuffing and the frame splitter (src/framing.rs) beneath the Maestro and
 Sony codecs. `DelimitedFrames.Push` is specified by `Run`, the effect of a whole
 byte string on a splitter state, and the laws of the splitter are proved about `Run`.
 */
module Framing {
  import opened ByteBits
  import opened Wire

  // Counts the start marker and the body, so that a body holds at most 4095 bytes.
  const MAX_FRAME := 4096

  datatype Markers = Markers(start: byte, end: byte)

  /** How one vendor hides its marker bytes inside a frame. */
  datatype Stuffing = Stuffing(markers: Markers, escape: byte, encode: byte -> byte, decode: byte -> byte) {
    predicate Special(b: byte) {
      b == markers.start || b == markers.end || b == escape
    }

    /** Escaped bytes are not markers, and unescaping recovers them. */
    ghost predicate Transparent() {
      && escape != markers.start
      && escape != markers.end
      && forall b {:trigger Special(b)} :: Special(b) ==>
           && encode(b) != markers.start
           && encode(b) != markers.end
           && decode(encode(b)) == b
    }
  }

  // ---------------------------------------------------------------- stuffing

  function StuffByte(b: byte, st: Stuffing): seq<byte> {
    if st.Special(b) then [st.escape, st.encode(b)] else [b]
  }

  /** `body` with every marker and escape byte replaced by an escape pair. */
  function Stuff(body: seq<byte>, st: Stuffing): seq<byte> {
    if body == [] then [] else Stuff(body[..|body| - 1], st) + StuffByte(body[|body| - 1], st)
  }

  method Escape(body: seq<byte>, st: Stuffing) returns (frame: seq<byte>)
    ensures frame == [st.markers.start] + Stuff(body, st) + [st.markers.end]
  {
    frame := [st.markers.start];
    for i := 0 to |body|
      invariant frame == [st.markers.start] + Stuff(body[..i], st)
    {
      assert body[..i + 1][..i] == body[..i];
      if st.Special(body[i]) {
        frame := frame + [st.escape, st.encode(body[i])];
      } else {
        frame := frame + [body[i]];
      }
    }
    assert body[..|body|] == body;
    frame := frame + [st.markers.end];
  }

  /** The bytes an escaped string stands for, or an error if it ends inside an escape pair. */
  function Unstuff(bytes: seq<byte>, st: Stuffing): Result<seq<byte>> {
    if bytes == [] then Ok([])
    else if bytes[0] != st.escape then Prefixed([bytes[0]], Unstuff(bytes[1..], st))
    else if |bytes| == 1 then Err(EndsInsideEscape)
    else Prefixed([st.decode(bytes[1])], Unstuff(bytes[2..], st))
  }

  function Prefixed(prefix: seq<byte>, r: Result<seq<byte>>): Result<seq<byte>> {
    if r.Ok? then Ok(prefix + r.value) else r
  }

  lemma PrefixedTwice(a: seq<byte>, b: seq<byte>, r: Result<seq<byte>>)
    ensures Prefixed(a, Prefixed(b, r)) == Prefixed(a + b, r)
  {
    if r.Ok? {
      assert a + (b + r.value) == a + b + r.value;
    }
  }

  method Unescape(bytes: seq<byte>, st: Stuffing) returns (r: Result<seq<byte>>)
    ensures r == Unstuff(bytes, st)
  {
    var body := [];
    var i := 0;
    assert bytes[0..] == bytes;
    PrefixedEmpty(Unstuff(bytes, st));
    while i < |bytes|
      invariant 0 <= i <= |bytes|
      invariant Unstuff(bytes, st) == Prefixed(body, Unstuff(bytes[i..], st))
    {
      var b := bytes[i];
      if b == st.escape {
        if i + 1 == |bytes| {
          return Err(EndsInsideEscape);
        }
        assert bytes[i..][2..] == bytes[i + 2..];
        PrefixedTwice(body, [st.decode(bytes[i + 1])], Unstuff(bytes[i + 2..], st));
        body := body + [st.decode(bytes[i + 1])];
        i := i + 2;
      } else {
        assert bytes[i..][1..] == bytes[i + 1..];
        PrefixedTwice(body, [b], Unstuff(bytes[i + 1..], st));
        body := body + [b];
        i := i + 1;
      }
    }
    r := Ok(body);
    assert body + [] == body;
  }

  lemma {:induction false} UnstuffAppend(a: seq<byte>, b: seq<byte>, st: Stuffing)
    requires Unstuff(a, st).Ok?
    ensures Unstuff(a + b, st) == Prefixed(Unstuff(a, st).value, Unstuff(b, st))
    decreases |a|
  {
    if a == [] {
      assert a + b == b;
      PrefixedEmpty(Unstuff(b, st));
    } else {
      var n := if a[0] == st.escape then 2 else 1;
      assert (a + b)[n..] == a[n..] + b;
      UnstuffAppend(a[n..], b, st);
      PrefixedTwice([if n == 2 then st.decode(a[1]) else a[0]], Unstuff(a[n..], st).value, Unstuff(b, st));
    }
  }

  lemma PrefixedEmpty(r: Result<seq<byte>>)
    ensures Prefixed([], r) == r
  {
    if r.Ok? {
      assert [] + r.value == r.value;
    }
  }

  /** Unescaping inverts escaping, for every body. */
  lemma {:induction false} UnstuffStuff(body: seq<byte>, st: Stuffing)
    requires st.Transparent()
    ensures Unstuff(Stuff(body, st), st) == Ok(body)
  {
    if body != [] {
      var n := |body| - 1;
      UnstuffStuff(body[..n], st);
      var last := StuffByte(body[n], st);
      UnstuffAppend(Stuff(body[..n], st), last, st);
      assert last[|last|..] == [];
      assert [body[n]] + [] == [body[n]];
      assert body == body[..n] + [body[n]];
    }
  }

  /** Escaping leaves no marker in the frame body, and empties no body. */
  lemma {:induction false} StuffHidesMarkers(body: seq<byte>, st: Stuffing)
    requires st.Transparent()
    ensures st.markers.start !in Stuff(body, st)
    ensures st.markers.end !in Stuff(body, st)
    ensures |body| <= |Stuff(body, st)| <= 2 * |body|
  {
    if body != [] {
      StuffHidesMarkers(body[..|body| - 1], st);
    }
  }

  // ---------------------------------------------------------------- splitting

  /** The splitter's fields as a value. */
  datatype Splitter = Splitter(open: bool, body: seq<byte>)

  const CLOSED := Splitter(false, [])

  type Decoder<!T> = seq<byte> -> Result<T>

  /** The effect of one byte: the next state and the frames reported. */
  function Step<T>(s: Splitter, b: byte, m: Markers, decode: Decoder<T>): (Splitter, seq<Result<T>>) {
    if !s.open then (s.(open := b == m.start), [])
    else if b == m.end then
      // With one marker for both ends, the byte that closes this frame opens the next one.
      (Splitter(m.start == m.end, []), if m.start != m.end || s.body != [] then [decode(s.body)] else [])
    else if |s.body| >= MAX_FRAME - 1 then (CLOSED, [Err(Oversize)])
    else (s.(body := s.body + [b]), [])
  }

  function Run<T>(s: Splitter, bytes: seq<byte>, m: Markers, decode: Decoder<T>): (Splitter, seq<Result<T>>) {
    if bytes == [] then (s, [])
    else
      var (mid, frames) := Run(s, bytes[..|bytes| - 1], m, decode);
      var (last, more) := Step(mid, bytes[|bytes| - 1], m, decode);
      (last, frames + more)
  }

  /** Pushing a stream chunk by chunk. */
  function Pushes<T>(s: Splitter, chunks: seq<seq<byte>>, m: Markers, decode: Decoder<T>)
    : (Splitter, seq<Result<T>>)
  {
    if chunks == [] then (s, [])
    else
      var (mid, frames) := Pushes(s, chunks[..|chunks| - 1], m, decode);
      var (last, more) := Run(mid, chunks[|chunks| - 1], m, decode);
      (last, frames + more)
  }

  class DelimitedFrames {
    var body: seq<byte>
    var open: bool

    function State(): Splitter
      reads this
    {
      Splitter(open, body)
    }

    constructor ()
      ensures State() == CLOSED
    {
      body, open := [], false;
    }

    method Push<T>(bytes: seq<byte>, m: Markers, decode: Decoder<T>) returns (frames: seq<Result<T>>)
      modifies this
      ensures (State(), frames) == Run(old(State()), bytes, m, decode)
    {
      frames := [];
      for i := 0 to |bytes|
        invariant (State(), frames) == Run(old(State()), bytes[..i], m, decode)
      {
        assert bytes[..i + 1][..i] == bytes[..i];
        var b := bytes[i];
        assert frames + [] == frames;
        if !open {
          open := b == m.start;
        } else if b == m.end {
          if m.start != m.end || body != [] {
            frames := frames + [decode(body)];
          }
          body := [];
          open := m.start == m.end;
        } else if |body| >= MAX_FRAME - 1 {
          body := [];
          open := false;
          frames := frames + [Err(Oversize)];
        } else {
          body := body + [b];
        }
      }
      assert bytes[..|bytes|] == bytes;
    }
  }

  /** Pushing `a + b` is pushing `a` and then `b`. */
  lemma {:induction false} RunAppend<T>(s: Splitter, a: seq<byte>, b: seq<byte>, m: Markers, decode: Decoder<T>)
    ensures var (mid, frames) := Run(s, a, m, decode);
            var (last, more) := Run(mid, b, m, decode);
            Run(s, a + b, m, decode) == (last, frames + more)
  {
    var (mid, frames) := Run(s, a, m, decode);
    if b == [] {
      assert a + b == a && frames + [] == frames;
    } else {
      var n := |b| - 1;
      assert (a + b)[..|a| + n] == a + b[..n];
      RunAppend(s, a, b[..n], m, decode);
      var (near, more) := Run(mid, b[..n], m, decode);
      assert frames + more + Step(near, b[n], m, decode).1 == frames + (more + Step(near, b[n], m, decode).1);
    }
  }

  /** The frames and the final state do not depend on how the stream is cut into chunks. */
  lemma {:induction false} ChunkingIrrelevant<T>(s: Splitter, chunks: seq<seq<byte>>, m: Markers, decode: Decoder<T>)
    ensures Pushes(s, chunks, m, decode) == Run(s, Flatten(chunks), m, decode)
  {
    if chunks != [] {
      var n := |chunks| - 1;
      ChunkingIrrelevant(s, chunks[..n], m, decode);
      RunAppend(s, Flatten(chunks[..n]), chunks[n], m, decode);
    }
  }

  /** What a reachable state looks like. */
  predicate Bounded(s: Splitter, m: Markers) {
    && (s.open || s.body == [])
    && |s.body| <= MAX_FRAME - 1
    && m.end !in s.body
  }

  lemma {:induction false} RunKeepsBounded<T>(s: Splitter, bytes: seq<byte>, m: Markers, decode: Decoder<T>)
    requires Bounded(s, m)
    ensures Bounded(Run(s, bytes, m, decode).0, m)
  {
    if bytes != [] {
      RunKeepsBounded(s, bytes[..|bytes| - 1], m, decode);
    }
  }

  lemma {:induction false} ContentAccumulates<T>(s: Splitter, content: seq<byte>, m: Markers, decode: Decoder<T>)
    requires s.open && m.end !in content && |s.body| + |content| <= MAX_FRAME - 1
    ensures Run(s, content, m, decode) == (Splitter(true, s.body + content), [])
  {
    if content == [] {
      assert s.body + content == s.body;
    } else {
      var n := |content| - 1;
      ContentAccumulates(s, content[..n], m, decode);
      assert s.body + content == (s.body + content[..n]) + [content[n]];
      assert Run(s, content[..n], m, decode).1 + [] == [];
    }
  }

  /**
   The reachable states are exactly the bounded ones: a closed splitter holds nothing,
   and an open one at most 4095 bytes, none of them the closing marker.
   */
  lemma ReachableIffBounded<T>(s: Splitter, m: Markers, decode: Decoder<T>)
    ensures (exists bytes :: Run(CLOSED, bytes, m, decode).0 == s) <==> Bounded(s, m)
  {
    forall bytes ensures Bounded(Run(CLOSED, bytes, m, decode).0, m) {
      RunKeepsBounded(CLOSED, bytes, m, decode);
    }
    if Bounded(s, m) {
      if s.open {
        SingleByte(CLOSED, m.start, m, decode);
        ContentAccumulates(Splitter(true, []), s.body, m, decode);
        RunAppend(CLOSED, [m.start], s.body, m, decode);
        assert [] + s.body == s.body;
      } else {
        assert Run(CLOSED, [], m, decode).0 == s;
      }
    }
  }

  lemma SingleByte<T>(s: Splitter, b: byte, m: Markers, decode: Decoder<T>)
    ensures Run(s, [b], m, decode) == Step(s, b, m, decode)
  {
    assert [b][..0] == [];
    assert Run(s, [], m, decode) == (s, []);
    assert [] + Step(s, b, m, decode).1 == Step(s, b, m, decode).1;
  }

  /** The state between two frames: closed, or just after a shared flag. */
  function Idle(m: Markers): Splitter {
    Splitter(m.start == m.end, [])
  }

  predicate WellFormed(content: seq<byte>, m: Markers) {
    && m.end !in content
    && |content| <= MAX_FRAME - 1
    && (m.start == m.end ==> content != [])
  }

  /** An opened splitter turns content and a closing marker into one decoded frame. */
  lemma ContentThenEnd<T>(content: seq<byte>, m: Markers, decode: Decoder<T>)
    requires WellFormed(content, m)
    ensures Run(Splitter(true, []), content + [m.end], m, decode) == (Idle(m), [decode(content)])
  {
    var begun := Splitter(true, []);
    ContentAccumulates(begun, content, m, decode);
    assert [] + content == content;
    SingleByte(Splitter(true, content), m.end, m, decode);
    RunAppend(begun, content, [m.end], m, decode);
  }

  /** An over-long body is reported once, and its own closing marker leaves the splitter idle. */
  lemma OversizeReportedOnce<T>(content: seq<byte>, m: Markers, decode: Decoder<T>)
    requires m.start !in content && m.end !in content && |content| >= MAX_FRAME
    ensures Run(Splitter(true, []), content + [m.end], m, decode) == (Idle(m), [Err(Oversize)])
  {
    var begun := Splitter(true, []);
    var k := MAX_FRAME;
    OverflowCloses(content[..k], m, decode);
    NoiseIgnored(content[k..], m, decode);
    RunAppend(begun, content[..k], content[k..], m, decode);
    assert content == content[..k] + content[k..];
    var error: seq<Result<T>> := [Err(Oversize)];
    assert error + [] == error;
    assert Run(begun, content, m, decode) == (CLOSED, error);
    SingleByte(CLOSED, m.end, m, decode);
    RunAppend(begun, content, [m.end], m, decode);
  }

  lemma OverflowCloses<T>(content: seq<byte>, m: Markers, decode: Decoder<T>)
    requires m.end !in content && |content| == MAX_FRAME
    ensures Run(Splitter(true, []), content, m, decode) == (CLOSED, [Err(Oversize)])
  {
    var n := MAX_FRAME - 1;
    ContentAccumulates(Splitter(true, []), content[..n], m, decode);
    assert [] + content[..n] == content[..n];
    var error: seq<Result<T>> := [Err(Oversize)];
    assert [] + error == error;
  }

  /** Whatever precedes a start marker changes nothing. */
  lemma {:induction false} NoiseIgnored<T>(noise: seq<byte>, m: Markers, decode: Decoder<T>)
    requires m.start !in noise
    ensures Run(CLOSED, noise, m, decode) == (CLOSED, [])
  {
    if noise != [] {
      NoiseIgnored(noise[..|noise| - 1], m, decode);
      assert Run(CLOSED, noise[..|noise| - 1], m, decode).1 + [] == [];
    }
  }

  /** With equal markers, further flags between frames are idle. */
  lemma {:induction false} FlagsIdle<T>(n: nat, m: Markers, decode: Decoder<T>)
    requires m.start == m.end
    ensures Run(Idle(m), Repeat(m.end, n), m, decode) == (Idle(m), [])
  {
    if n > 0 {
      FlagsIdle(n - 1, m, decode);
      assert Repeat(m.end, n)[..n - 1] == Repeat(m.end, n - 1);
      assert Run(Idle(m), Repeat(m.end, n - 1), m, decode).1 + [] == [];
    }
  }

  function Framed(content: seq<byte>, m: Markers): seq<byte> {
    [m.start] + content + [m.end]
  }

  /** From an idle splitter a whole frame is decoded, whatever the delimiter style. */
  lemma FrameFromIdle<T>(content: seq<byte>, m: Markers, decode: Decoder<T>)
    requires WellFormed(content, m)
    ensures Run(Idle(m), Framed(content, m), m, decode) == (Idle(m), [decode(content)])
  {
    SingleByte(Idle(m), m.start, m, decode);
    ContentThenEnd(content, m, decode);
    RunAppend(Idle(m), [m.start], content + [m.end], m, decode);
    assert Framed(content, m) == [m.start] + (content + [m.end]);
    assert [] + [decode(content)] == [decode(content)];
  }

  /**
   Resynchronisation: after any input whatever, one closing marker makes the next
   well-formed frame decode, and it is the only frame reported after that marker.
   */
  lemma Resynchronises<T>(junk: seq<byte>, content: seq<byte>, m: Markers, decode: Decoder<T>)
    requires WellFormed(content, m)
    ensures var before := Run(CLOSED, junk + [m.end], m, decode).1;
            Run(CLOSED, junk + [m.end] + Framed(content, m), m, decode) == (Idle(m), before + [decode(content)])
  {
    RunKeepsBounded(CLOSED, junk, m, decode);
    var s := Run(CLOSED, junk, m, decode).0;
    SingleByte(s, m.end, m, decode);
    RunAppend(CLOSED, junk, [m.end], m, decode);
    assert Run(CLOSED, junk + [m.end], m, decode).0 == Idle(m);
    FrameFromIdle(content, m, decode);
    RunAppend(CLOSED, junk + [m.end], Framed(content, m), m, decode);
  }

  // ---------------------------------------------------------------- whole streams

  /**
   One frame on the wire: the bytes since the previous frame, whether its opening
   delimiter is the previous frame's closing one, and its content.
   */
  datatype Piece = Piece(gap: seq<byte>, shared: bool, content: seq<byte>) {
    function Wire(m: Markers): seq<byte> {
      gap + (if shared then content + [m.end] else Framed(content, m))
    }

    predicate Legal(m: Markers) {
      && WellFormed(content, m)
      && Quiet(gap, m)
      && (shared ==> m.start == m.end)
    }
  }

  /** What may stand between two frames: repeated flags, or noise that opens no frame. */
  predicate Quiet(gap: seq<byte>, m: Markers) {
    if m.start == m.end then forall b <- gap :: b == m.end else m.start !in gap
  }

  function Wires(pieces: seq<Piece>, m: Markers): seq<byte> {
    if pieces == [] then [] else Wires(pieces[..|pieces| - 1], m) + pieces[|pieces| - 1].Wire(m)
  }

  function Decodings<T>(pieces: seq<Piece>, decode: Decoder<T>): (frames: seq<Result<T>>)
    ensures |frames| == |pieces|
    ensures forall i :: 0 <= i < |pieces| ==> frames[i] == decode(pieces[i].content)
  {
    if pieces == [] then []
    else Decodings(pieces[..|pieces| - 1], decode) + [decode(pieces[|pieces| - 1].content)]
  }

  lemma QuietIgnored<T>(gap: seq<byte>, m: Markers, decode: Decoder<T>)
    requires Quiet(gap, m)
    ensures Run(Idle(m), gap, m, decode) == (Idle(m), [])
  {
    if m.start == m.end {
      assert gap == Repeat(m.end, |gap|) by {
        assert forall i :: 0 <= i < |gap| ==> gap[i] in gap;
      }
      FlagsIdle(|gap|, m, decode);
    } else {
      NoiseIgnored(gap, m, decode);
    }
  }

  lemma PieceDecodes<T>(p: Piece, m: Markers, decode: Decoder<T>)
    requires p.Legal(m)
    ensures Run(Idle(m), p.Wire(m), m, decode) == (Idle(m), [decode(p.content)])
  {
    QuietIgnored(p.gap, m, decode);
    var frame := if p.shared then p.content + [m.end] else Framed(p.content, m);
    if p.shared {
      ContentThenEnd(p.content, m, decode);
    } else {
      FrameFromIdle(p.content, m, decode);
    }
    RunAppend(Idle(m), p.gap, frame, m, decode);
    assert [] + [decode(p.content)] == [decode(p.content)];
  }

  /** Every legal stream is split into exactly its frames, in order. */
  lemma {:induction false} PiecesDecode<T>(pieces: seq<Piece>, m: Markers, decode: Decoder<T>)
    requires forall p <- pieces :: p.Legal(m)
    ensures Run(Idle(m), Wires(pieces, m), m, decode) == (Idle(m), Decodings(pieces, decode))
  {
    if pieces != [] {
      var n := |pieces| - 1;
      PiecesDecode(pieces[..n], m, decode);
      PieceDecodes(pieces[n], m, decode);
      RunAppend(Idle(m), Wires(pieces[..n], m), pieces[n].Wire(m), m, decode);
    }
  }

  lemma NothingBefore(a: seq<byte>, b: seq<byte>)
    ensures [] + [] + a + b == a + b
  {
  }

  /** The same from a fresh splitter, for any chunking of the stream. */
  lemma StreamDecodes<T>(chunks: seq<seq<byte>>, noise: seq<byte>, pieces: seq<Piece>, tail: seq<byte>,
                         m: Markers, decode: Decoder<T>)
    requires m.start !in noise
    requires forall p <- pieces :: p.Legal(m)
    requires Quiet(tail, m)
    requires Flatten(chunks) == noise + (if m.start == m.end then [m.start] else []) + Wires(pieces, m) + tail
    ensures Pushes(CLOSED, chunks, m, decode) == (Idle(m), Decodings(pieces, decode))
  {
    ChunkingIrrelevant(CLOSED, chunks, m, decode);
    NoiseIgnored(noise, m, decode);
    var lead := noise + (if m.start == m.end then [m.start] else []);
    if m.start == m.end {
      SingleByte(CLOSED, m.start, m, decode);
      RunAppend(CLOSED, noise, [m.start], m, decode);
    } else {
      assert lead == noise;
    }
    assert Run(CLOSED, lead, m, decode) == (Idle(m), []);
    PiecesDecode(pieces, m, decode);
    RunAppend(CLOSED, lead, Wires(pieces, m), m, decode);
    QuietIgnored(tail, m, decode);
    RunAppend(CLOSED, lead + Wires(pieces, m), tail, m, decode);
    assert [] + Decodings(pieces, decode) + [] == Decodings(pieces, decode);
  }
}
