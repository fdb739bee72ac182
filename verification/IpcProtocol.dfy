// Messages that say their length first: how a stream of bytes is taken apart into
// them while it is still coming in.
// Source: src/ipc/ipcprotocol.h.
module IpcFraming {
  import opened Common

  const MAX_FRAME := 64 * 1024 * 1024
  const HEADER := 4

  datatype Frame = Frame(kind: Byte, payload: Bytes)

  // What a buffer holds: the complete frames, and what is left.
  datatype Parsed = Parsed(frames: seq<Frame>, rest: Bytes)

  function Put16(n: nat): (b: Bytes)
    requires n < 0x1_0000
    ensures |b| == 2
  {
    [n / 0x100, n % 0x100]
  }

  // A quint32 on the wire: big-endian, the value cut to 32 bits.
  function Put32(n: nat): (b: Bytes)
    ensures |b| == HEADER
  {
    Put16(n / 0x1_0000 % 0x1_0000) + Put16(n % 0x1_0000)
  }

  function Get32(b: Bytes): nat
    requires |b| >= HEADER
  {
    var b0: int, b1: int, b2: int, b3: int := b[0], b[1], b[2], b[3];
    0x1_0000 * (0x100 * b0 + b1) + (0x100 * b2 + b3)
  }

  lemma Put16Back(n: nat)
    requires n < 0x1_0000
    ensures var b := Put16(n); var b0: int, b1: int := b[0], b[1]; 0x100 * b0 + b1 == n
  {
  }

  // The halves of a number's last 32 bits make them up.
  lemma Halves(n: nat)
    ensures 0x1_0000 * (n / 0x1_0000 % 0x1_0000) + n % 0x1_0000 == n % 0x1_0000_0000
  {
    var q, r := n / 0x1_0000, n % 0x1_0000;
    var p, s := q / 0x1_0000, q % 0x1_0000;
    assert n == 0x1_0000_0000 * p + (0x1_0000 * s + r);
  }

  lemma Get32Put32(n: nat)
    ensures Get32(Put32(n)) == n % 0x1_0000_0000
  {
    var hi, lo := n / 0x1_0000 % 0x1_0000, n % 0x1_0000;
    Put16Back(hi);
    Put16Back(lo);
    Halves(n);
    hide Put16;
    assert Put32(n) == Put16(hi) + Put16(lo);
  }

  // writeFrame.
  function WriteFrame(f: Frame): (b: Bytes)
    ensures |b| == HEADER + 1 + |f.payload|
  {
    Put32(1 + |f.payload|) + ([f.kind] + f.payload)
  }

  lemma BigEndianOfFour(b: Bytes)
    requires |b| == 4
    ensures BigEndian(b) == Get32(b)
  {
    assert b[..3][..2] == b[..2] && b[..2][..1] == b[..1] && b[..1][..0] == [];
    var b0: int, b1: int, b2: int, b3: int := b[0], b[1], b[2], b[3];
    assert BigEndian(b[..1]) == b0;
    assert BigEndian(b[..2]) == 0x100 * b0 + b1;
    assert BigEndian(b[..3]) == 0x100 * (0x100 * b0 + b1) + b2;
  }

  // A frame on the wire: four bytes that say, the most significant first, how many
  // follow (cut to 32 bits); its kind; its payload.
  lemma WrittenBytes(f: Frame)
    ensures var b := WriteFrame(f);
            && BigEndian(b[..4]) == (1 + |f.payload|) % 0x1_0000_0000 && b[4] == f.kind && b[5..] == f.payload
  {
    var n := 1 + |f.payload|;
    Get32Put32(n);
    hide Put32, Get32;
    assert WriteFrame(f)[..4] == Put32(n) && WriteFrame(f)[4..] == [f.kind] + f.payload;
    BigEndianOfFour(Put32(n));
    assert WriteFrame(f)[5..] == WriteFrame(f)[4..][1..];
  }

  function Wire(fs: seq<Frame>): Bytes {
    if fs == [] then [] else WriteFrame(fs[0]) + Wire(fs[1..])
  }

  predicate Whole(buf: Bytes) {
    |buf| >= HEADER && Get32(buf) <= MAX_FRAME && Get32(buf) <= |buf| - HEADER
  }

  predicate Oversize(buf: Bytes) { |buf| >= HEADER && Get32(buf) > MAX_FRAME }

  // The first frame's body, and the buffer after it.
  function Body(buf: Bytes): Bytes
    requires Whole(buf)
  {
    buf[HEADER..HEADER + Get32(buf)]
  }

  function After(buf: Bytes): (r: Bytes)
    requires Whole(buf)
    ensures |r| < |buf|
  {
    buf[HEADER + Get32(buf)..]
  }

  // The frame a body is, if it is one: an empty body is skipped.
  function FramesIn(body: Bytes): seq<Frame> {
    if body == [] then [] else [Frame(body[0], body[1..])]
  }

  // drainFrames on a buffer nobody else touches.
  function Parse(buf: Bytes): Parsed
    decreases |buf|
  {
    if Oversize(buf) then Parsed([], [])
    else if !Whole(buf) then Parsed([], buf)
    else
      var tail := Parse(After(buf));
      Parsed(FramesIn(Body(buf)) + tail.frames, tail.rest)
  }

  // No header the parser meets claims more than a frame may have.
  predicate Sane(buf: Bytes)
    decreases |buf|
  {
    !Oversize(buf) && (Whole(buf) ==> Sane(After(buf)))
  }

  // ---- Parsing in pieces ----

  lemma WholeGrows(a: Bytes, b: Bytes)
    requires Whole(a)
    ensures Whole(a + b) && Body(a + b) == Body(a) && After(a + b) == After(a) + b
  {
    assert Get32(a + b) == Get32(a);
    assert (a + b)[..|a|] == a;
    assert (a + b)[HEADER..HEADER + Get32(a)] == a[HEADER..HEADER + Get32(a)];
  }

  // More bytes after a sane buffer: what was parsed stays parsed, and the
  // residue goes on with the new bytes.
  lemma {:induction false} ParseMore(a: Bytes, b: Bytes)
    requires Sane(a)
    ensures var p := Parse(a); var q := Parse(p.rest + b);
            Parse(a + b) == Parsed(p.frames + q.frames, q.rest)
    ensures Sane(a + b) == Sane(Parse(a).rest + b)
    decreases |a|
  {
    if Whole(a) {
      WholeGrows(a, b);
      assert Whole(a + b) && !Oversize(a + b) && After(a + b) == After(a) + b;
      hide Parse, Sane, Whole, Oversize, After, Body, FramesIn;
      ParseMore(After(a), b);
      var p := Parse(After(a));
      Regroup(FramesIn(Body(a)), p.frames, Parse(p.rest + b).frames);
    }
  }

  lemma Regroup(x: seq<Frame>, y: seq<Frame>, z: seq<Frame>)
    ensures x + (y + z) == (x + y) + z
  {
  }

  lemma {:induction false} SanePrefix(a: Bytes, b: Bytes)
    requires Sane(a + b)
    ensures Sane(a)
    decreases |a|
  {
    if |a| >= HEADER {
      assert Get32(a + b) == Get32(a);
      if Whole(a) {
        WholeGrows(a, b);
        SanePrefix(After(a), b);
      }
    }
  }

  // What is left over is not a whole frame: parsing it again gives nothing.
  lemma {:induction false} RestIsPartial(a: Bytes)
    ensures !Whole(Parse(a).rest) && !Oversize(Parse(a).rest)
    ensures Parse(Parse(a).rest) == Parsed([], Parse(a).rest)
    decreases |a|
  {
    if Whole(a) && !Oversize(a) {
      RestIsPartial(After(a));
    }
  }

  // The stream arriving in pieces: each is added to the residue and parsed.
  function Feed(state: Parsed, chunks: seq<Bytes>): Parsed
    decreases |chunks|
  {
    if chunks == [] then state
    else
      var p := Parse(state.rest + chunks[0]);
      Feed(Parsed(state.frames + p.frames, p.rest), chunks[1..])
  }

  // No byte follows an oversized header: at most, the stream ends on one.
  predicate NothingLost(buf: Bytes)
    decreases |buf|
  {
    if Oversize(buf) then |buf| == HEADER else Whole(buf) ==> NothingLost(After(buf))
  }

  lemma {:induction false} NothingAfter(a: Bytes, b: Bytes)
    requires NothingLost(a + b) && !Sane(a)
    ensures b == []
    decreases |a|
  {
    assert Get32(a + b) == Get32(a);
    if !Oversize(a) {
      WholeGrows(a, b);
      NothingAfter(After(a), b);
    }
  }

  lemma {:induction false} SaneLosesNothing(a: Bytes)
    requires Sane(a)
    ensures NothingLost(a)
    decreases |a|
  {
    if Whole(a) {
      SaneLosesNothing(After(a));
    }
  }

  lemma {:induction false} FeedNothing(state: Parsed, chunks: seq<Bytes>)
    requires Concat(chunks) == [] && state.rest == []
    ensures Feed(state, chunks) == state
    decreases |chunks|
  {
    if chunks != [] {
      assert chunks[0] == [] && [] + chunks[0] == [] && state.frames + [] == state.frames;
      FeedNothing(state, chunks[1..]);
    }
  }

  lemma {:induction false} InsaneRest(a: Bytes)
    requires !Sane(a)
    ensures Parse(a).rest == []
    decreases |a|
  {
    if !Oversize(a) {
      InsaneRest(After(a));
    }
  }

  lemma {:induction false} FeedParses(past: Bytes, chunks: seq<Bytes>)
    requires Sane(past) && NothingLost(past + Concat(chunks))
    ensures Feed(Parse(past), chunks) == Parse(past + Concat(chunks))
    decreases |chunks|
  {
    if chunks == [] {
      assert past + [] == past;
    } else {
      var next := past + chunks[0];
      assert past + Concat(chunks) == next + Concat(chunks[1..]);
      ParseMore(past, chunks[0]);
      if Sane(next) {
        FeedParses(next, chunks[1..]);
      } else {
        NothingAfter(next, Concat(chunks[1..]));
        InsaneRest(next);
        FeedNothing(Parse(next), chunks[1..]);
        assert next + [] == next;
      }
    }
  }

  // Cutting off the last byte of a stream that loses some changes what is left.
  lemma {:induction false} LastByteCut(s: Bytes)
    requires !NothingLost(s)
    ensures s != [] && Parse(s).rest == [] && Parse(s[..|s| - 1]).rest == []
    decreases |s|
  {
    var front := s[..|s| - 1];
    assert Oversize(s) ==> Get32(front) == Get32(s);
    if !Oversize(s) {
      LastByteCut(After(s));
      assert Get32(front) == Get32(s) && Whole(front);
      assert After(front) == After(s)[..|After(s)| - 1];
    }
  }

  ghost predicate CutsDoNotMatter(s: Bytes) {
    forall chunks: seq<Bytes> :: Concat(chunks) == s ==> Feed(Parsed([], []), chunks) == Parse(s)
  }

  // However a stream is cut up, the same frames come out in the same order and
  // the same residue is left: exactly when no byte follows an oversized header.
  lemma ChunkIndependence(s: Bytes)
    ensures CutsDoNotMatter(s) <==> NothingLost(s)
  {
    if NothingLost(s) {
      forall chunks: seq<Bytes> | Concat(chunks) == s ensures Feed(Parsed([], []), chunks) == Parse(s) {
        assert [] + s == s;
        FeedParses([], chunks);
      }
    } else {
      LastByteCut(s);
      var front, last := s[..|s| - 1], s[|s| - 1..];
      assert Concat([front, last]) == s by {
        assert [front, last][1..] == [last] && last + [] == last && front + last == s;
        assert Concat([last][1..]) == [];
      }
      FeedTwo(front, last);
      assert [] + last == last && Parse(last).rest == last;
    }
  }

  // ---- Frames that were written ----

  // A frame of no bytes at all is passed over.
  lemma EmptyFramePassed(more: Bytes)
    ensures Parse([0, 0, 0, 0] + more) == Parse(more)
  {
    var b := [0, 0, 0, 0] + more;
    assert Get32(b) == 0 && Body(b) == [] && After(b) == more;
    hide Get32;
    assert [] + Parse(more).frames == Parse(more).frames;
  }

  predicate Writable(fs: seq<Frame>) { forall i :: 0 <= i < |fs| ==> 1 + |fs[i].payload| <= MAX_FRAME }

  lemma FirstWritten(f: Frame, more: Bytes)
    requires 1 + |f.payload| <= MAX_FRAME
    ensures var b := WriteFrame(f) + more;
            Whole(b) && !Oversize(b) && FramesIn(Body(b)) == [f] && After(b) == more
  {
    var b := WriteFrame(f) + more;
    var body := [f.kind] + f.payload;
    Get32Put32(|body|);
    hide Put32;
    assert b == Put32(|body|) + (body + more);
    SameLength(b, Put32(|body|));
    hide Get32;
    assert b[HEADER..] == body + more;
    assert b[HEADER..HEADER + |body|] == body && b[HEADER + |body|..] == more by {
      assert b[HEADER..HEADER + |body|] == b[HEADER..][..|body|] && b[HEADER + |body|..] == b[HEADER..][|body|..];
    }
    assert body[1..] == f.payload;
  }

  lemma {:induction false} WireParses(fs: seq<Frame>, more: Bytes)
    requires Writable(fs)
    ensures Parse(Wire(fs) + more) == Parsed(fs + Parse(more).frames, Parse(more).rest)
    ensures Sane(Wire(fs) + more) == Sane(more)
  {
    hide WriteFrame, Whole, Oversize, FramesIn, After, Body;
    if fs == [] {
      assert [] + more == more;
    } else {
      assert Wire(fs) + more == WriteFrame(fs[0]) + (Wire(fs[1..]) + more);
      FirstThen(fs[0], Wire(fs[1..]) + more);
      hide Wire, Parse, Sane;
      WireParses(fs[1..], more);
      assert [fs[0]] + (fs[1..] + Parse(more).frames) == fs + Parse(more).frames;
    }
  }

  // Any frames within the limit, cut up in any way at all, arrive as exactly
  // that list, with nothing left over.
  lemma FramesArrive(fs: seq<Frame>, chunks: seq<Bytes>)
    requires Writable(fs) && Concat(chunks) == Wire(fs)
    ensures Feed(Parsed([], []), chunks) == Parsed(fs, [])
  {
    assert Wire(fs) + [] == Wire(fs);
    WireParses(fs, []);
    SaneLosesNothing(Wire(fs));
    ChunkIndependence(Wire(fs));
    assert CutsDoNotMatter(Wire(fs));
  }

  // The first k frames are out and the residue is a part of the next.
  predicate FirstOut(fs: seq<Frame>, p: Parsed, k: nat) {
    && k <= |fs| && p.frames == fs[..k]
    && if k == |fs| then p.rest == [] else p.rest < WriteFrame(fs[k])
  }

  // And at any moment in between: the bytes so far make the first k frames,
  // and the residue is a proper prefix of the next one.
  lemma {:induction false} PrefixParses(fs: seq<Frame>, n: nat) returns (k: nat)
    requires Writable(fs) && n <= |Wire(fs)|
    ensures FirstOut(fs, Parse(Wire(fs)[..n]), k) && Sane(Wire(fs)[..n])
  {
    if fs == [] {
      k := 0;
    } else {
      assert Writable(fs[1..]) && 1 + |fs[0].payload| <= MAX_FRAME;
      WireSplit(fs, n);
      if n < |WriteFrame(fs[0])| {
        k := 0;
        hide Wire, WriteFrame, Parse, Sane;
        PartialFrame(fs[0], n);
      } else {
        hide *;
        var tail := Wire(fs[1..])[..n - |WriteFrame(fs[0])|];
        var m := PrefixParses(fs[1..], |tail|);
        FirstThen(fs[0], tail);
        k := m + 1;
        OneMoreOut(fs, Parse(tail), m);
      }
    }
  }

  lemma OneMoreOut(fs: seq<Frame>, p: Parsed, m: nat)
    requires fs != [] && FirstOut(fs[1..], p, m)
    ensures FirstOut(fs, Parsed([fs[0]] + p.frames, p.rest), m + 1)
  {
    hide WriteFrame;
    assert fs[..m + 1] == [fs[0]] + fs[1..][..m];
  }

  lemma WireSplit(fs: seq<Frame>, n: nat)
    requires fs != [] && n <= |Wire(fs)|
    ensures var w := WriteFrame(fs[0]);
            if n < |w| then Wire(fs)[..n] == w[..n]
            else n - |w| <= |Wire(fs[1..])| && Wire(fs)[..n] == w + Wire(fs[1..])[..n - |w|]
  {
    hide WriteFrame;
  }

  lemma FirstThen(f: Frame, tail: Bytes)
    requires 1 + |f.payload| <= MAX_FRAME
    ensures Parse(WriteFrame(f) + tail) == Parsed([f] + Parse(tail).frames, Parse(tail).rest)
    ensures Sane(WriteFrame(f) + tail) == Sane(tail)
  {
    FirstWritten(f, tail);
  }

  lemma PartialFrame(f: Frame, n: nat)
    requires 1 + |f.payload| <= MAX_FRAME && n < |WriteFrame(f)|
    ensures !Whole(WriteFrame(f)[..n]) && !Oversize(WriteFrame(f)[..n])
    ensures Parse(WriteFrame(f)[..n]) == Parsed([], WriteFrame(f)[..n]) && Sane(WriteFrame(f)[..n])
    ensures WriteFrame(f)[..n] < WriteFrame(f)
  {
    var length := 1 + |f.payload|;
    Get32Put32(length);
    if n >= HEADER {
      assert forall i :: 0 <= i < HEADER ==> WriteFrame(f)[..n][i] == Put32(length)[i];
      SameLength(WriteFrame(f)[..n], Put32(length));
    }
    hide Put32, Get32;
  }

  lemma SameLength(a: Bytes, b: Bytes)
    requires |a| >= HEADER && |b| >= HEADER && forall i :: 0 <= i < HEADER ==> a[i] == b[i]
    ensures Get32(a) == Get32(b)
  {
  }

  // ---- The limit ----

  lemma {:induction false} FramesFit(buf: Bytes)
    ensures forall f :: f in Parse(buf).frames ==> HEADER + 1 + |f.payload| <= |buf|
    decreases |buf|
  {
    if Whole(buf) && !Oversize(buf) {
      FramesFit(After(buf));
    }
  }

  // A frame alone on the stream arrives exactly when its body is within the
  // limit; a larger one is lost, also when its length wraps past 32 bits.
  lemma ArrivesExactlyWithinLimit(f: Frame)
    ensures Parse(WriteFrame(f)).frames == [f] <==> 1 + |f.payload| <= 64 * 1024 * 1024
  {
    var b := WriteFrame(f);
    if 1 + |f.payload| <= MAX_FRAME {
      assert b + [] == b;
      FirstWritten(f, []);
      assert Parse([]).frames == [];
    } else {
      Get32Put32(1 + |f.payload|);
      assert Get32(b) == Get32(Put32(1 + |f.payload|));
      if Whole(b) {
        FramesFit(After(b));
        var p := Parse(b).frames;
        var tail := Parse(After(b)).frames;
        assert p == FramesIn(Body(b)) + tail;
        assert f in [f];
        assert Body(b) == [] ==> p == tail;
      }
    }
  }

  // What follows an oversized header in the same piece is thrown away with it,
  // but a piece that ends right after it lets the stream go on.
  lemma OversizeForgets(fs: seq<Frame>, header: Bytes, tail: Bytes)
    requires Writable(fs) && |header| == HEADER && Get32(header) > MAX_FRAME
    ensures Feed(Parsed([], []), [Wire(fs) + (header + tail)]) == Parsed(fs, [])
    ensures Feed(Parsed([], []), [Wire(fs) + header, tail]) == Parsed(fs + Parse(tail).frames, Parse(tail).rest)
  {
    assert [] + tail == tail && fs + [] == fs;
    assert Get32(header + tail) == Get32(header);
    assert Parse(header) == Parsed([], []) && Parse(header + tail) == Parsed([], []);
    WireParses(fs, header + tail);
    WireParses(fs, header);
    hide Parse, Wire, Writable;
    FeedOne(Wire(fs) + (header + tail));
    FeedTwo(Wire(fs) + header, tail);
  }

  lemma FeedOne(a: Bytes)
    ensures Feed(Parsed([], []), [a]) == Parse(a)
  {
    hide Parse;
    assert [] + a == a && [] + Parse(a).frames == Parse(a).frames;
  }

  lemma FeedTwo(a: Bytes, b: Bytes)
    ensures var p := Parse(a); var q := Parse(p.rest + b);
            Feed(Parsed([], []), [a, b]) == Parsed(p.frames + q.frames, q.rest)
  {
    hide Parse;
    assert [] + a == a && [] + Parse(a).frames == Parse(a).frames;
    assert [a, b][1..] == [b];
    assert Feed(Parsed([], []), [a, b]) == Feed(Parse(a), [b]);
  }
}

// The same loop as a connection runs it: the handler of a frame may read the
// socket again and drain the very buffer the loop is working on.
module IpcConnection {
  import opened Common
  import opened IpcFraming

  // What a handler does besides its own work: it reads the socket some number
  // of times, getting a piece of the stream each time, and drains the buffer;
  // `handlers` are what the handlers of the frames found then do in turn.
  datatype Script = Script(pumps: seq<Pump>)
  datatype Pump = Pump(piece: Bytes, handlers: seq<Script>)

  // `open` is the stream since the last time the buffer was thrown away: the
  // frames started from it and the buffer together are `open`, parsed. An
  // oversized header may sit in both, not reached yet.
  predicate ExactOf(open: Bytes, buf: Bytes, current: seq<Frame>) {
    && (Sane(open) <==> Sane(buf))
    && Parse(open).frames == current + Parse(buf).frames
    && (Sane(open) ==> Parse(open).rest == Parse(buf).rest)
  }

  // What stretches of the stream give that each ended at an oversized header.
  function FramesOf(closed: seq<Bytes>): seq<Frame> {
    if closed == [] then [] else FramesOf(closed[..|closed| - 1]) + Parse(closed[|closed| - 1]).frames
  }

  lemma {:induction false} InsaneMore(a: Bytes, b: Bytes)
    requires !Sane(a)
    ensures !Sane(a + b) && Parse(a + b).frames == Parse(a).frames
    decreases |a|
  {
    assert Get32(a + b) == Get32(a);
    if !Oversize(a) {
      WholeGrows(a, b);
      InsaneMore(After(a), b);
    }
  }

  lemma AppendExact(open: Bytes, buf: Bytes, current: seq<Frame>, piece: Bytes)
    requires ExactOf(open, buf, current)
    ensures ExactOf(open + piece, buf + piece, current)
  {
    if Sane(open) {
      ParseMore(open, piece);
      ParseMore(buf, piece);
      hide Sane, Parse;
      Regroup(current, Parse(buf).frames, Parse(Parse(buf).rest + piece).frames);
    } else {
      InsaneMore(open, piece);
      InsaneMore(buf, piece);
    }
  }

  // One whole frame moves from the buffer to the started ones.
  lemma TakeExact(open: Bytes, buf: Bytes, current: seq<Frame>)
    requires ExactOf(open, buf, current) && Whole(buf) && !Oversize(buf)
    ensures ExactOf(open, After(buf), current + FramesIn(Body(buf)))
  {
    Regroup(current, FramesIn(Body(buf)), Parse(After(buf)).frames);
  }

  lemma StopExact(open: Bytes, buf: Bytes, current: seq<Frame>)
    requires ExactOf(open, buf, current) && !Whole(buf) && !Oversize(buf)
    ensures Sane(open) && Parse(open) == Parsed(current, buf)
  {
    assert current + [] == current;
  }

  // The buffer is thrown away: the stretch ends, all its frames were started.
  lemma ClearExact(open: Bytes, buf: Bytes, current: seq<Frame>)
    requires ExactOf(open, buf, current) && Oversize(buf)
    ensures !Sane(open) && Parse(open).frames == current && ExactOf([], [], [])
  {
    assert current + [] == current;
  }

  lemma FramesOfMore(closed: seq<Bytes>, open: Bytes)
    ensures FramesOf(closed + [open]) == FramesOf(closed) + Parse(open).frames
  {
    assert (closed + [open])[..|closed|] == closed;
  }

  lemma {:induction false} ConcatMore(pieces: seq<Bytes>, piece: Bytes)
    ensures Concat(pieces + [piece]) == Concat(pieces) + piece
    decreases |pieces|
  {
    if pieces == [] {
      assert pieces + [piece] == [piece] && [piece][1..] == [] && piece + [] == piece;
    } else {
      assert (pieces + [piece])[1..] == pieces[1..] + [piece];
      ConcatMore(pieces[1..], piece);
    }
  }

  class Connection {
    var buf: Bytes
    ghost var closed: seq<Bytes>   // stretches of the stream that ended at an oversized header
    ghost var open: Bytes          // everything read from the socket since
    ghost var current: seq<Frame>  // the frames of `open` whose handler was started, in order

    // Everything read from the socket, and every frame started, in order.
    ghost function Received(): Bytes
      reads this
    {
      Concat(closed) + open
    }

    ghost function Started(): seq<Frame>
      reads this
    {
      FramesOf(closed) + current
    }

    ghost predicate Exact()
      reads this
    {
      ExactOf(open, buf, current) && forall i :: 0 <= i < |closed| ==> !Sane(closed[i])
    }

    // Nothing left to do: the frames started are all there are, stretch after
    // stretch, and the buffer is what no frame has been made of yet.
    ghost predicate Drained()
      reads this
    {
      Exact() && Sane(open) && Parse(open) == Parsed(current, buf)
    }

    constructor ()
      ensures Drained() && buf == [] && Received() == [] && Started() == []
    {
      buf, closed, open, current := [], [], [], [];
    }

    // Reads a piece and drains; the k-th frame found is handled by handlers[k].
    // However the handlers nest, afterwards every complete frame received has
    // been started exactly once, in stream order, and the rest is in the buffer.
    // Only what shared a stretch with an oversized header, behind it, is lost.
    method OnReadyRead(piece: Bytes, handlers: seq<Script>)
      requires Exact()
      modifies this
      ensures Drained() && old(Received()) + piece <= Received() && old(Started()) <= Started()
      decreases handlers, 1
    {
      hide ExactOf, Parse, Sane, FramesOf, Concat;
      AppendExact(open, buf, current, piece);
      assert Concat(closed) + (open + piece) == (Concat(closed) + open) + piece;
      buf := buf + piece;
      open := open + piece;
      Drain(handlers);
    }

    // drainFrames.
    method Drain(handlers: seq<Script>)
      requires Exact()
      modifies this
      ensures Drained() && old(Received()) <= Received() && old(Started()) <= Started()
      decreases handlers, 0
    {
      hide ExactOf, Sane, Parse, FramesOf, Concat;
      var k := 0;
      while true
        invariant Exact() && old(Received()) <= Received() && old(Started()) <= Started()
        decreases if k < |handlers| then |handlers| - k else 0, |buf|
      {
        if |buf| < HEADER {
          StopExact(open, buf, current);
          return;
        }
        var len := Get32(buf);
        if len > MAX_FRAME {
          ThrowAway();
          StopExact(open, buf, current);
          return;
        }
        if |buf| - HEADER < len {
          StopExact(open, buf, current);
          return;
        }
        TakeExact(open, buf, current);
        var body := buf[HEADER..HEADER + len];
        assert FramesOf(closed) + (current + FramesIn(body)) == (FramesOf(closed) + current) + FramesIn(body);
        buf := buf[HEADER + len..];
        current := current + FramesIn(body);   // the handler starts here
        if body == [] {
          continue;
        }
        if k < |handlers| {
          Handle(handlers[k]);
          k := k + 1;
        }
      }
    }

    // buf.clear() at an oversized header.
    method ThrowAway()
      requires Exact() && Oversize(buf)
      modifies this
      ensures Exact() && buf == [] && Received() == old(Received()) && Started() == old(Started())
      ensures closed == old(closed) + [old(open)] && open == [] && current == []
    {
      ClearExact(open, buf, current);
      FramesOfMore(closed, open);
      ConcatMore(closed, open);
      hide ExactOf, Parse, FramesOf, Concat;
      assert Concat(closed + [open]) + [] == Concat(closed + [open]);
      assert FramesOf(closed + [open]) + [] == FramesOf(closed + [open]);
      closed := closed + [open];
      buf, open, current := [], [], [];
    }

    // A frame's handler at work.
    method Handle(script: Script)
      requires Exact()
      modifies this
      ensures Exact() && old(Received()) <= Received() && old(Started()) <= Started()
      decreases script
    {
      hide ExactOf, FramesOf, Concat, Parse, Sane;
      var i := 0;
      while i < |script.pumps|
        invariant 0 <= i <= |script.pumps| && Exact()
        invariant old(Received()) <= Received() && old(Started()) <= Started()
      {
        OnReadyRead(script.pumps[i].piece, script.pumps[i].handlers);
        i := i + 1;
      }
    }
  }
}
