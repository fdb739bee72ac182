// Replies as frames of the stream: what the calls of IpcEngine take for granted
// about their arrival follows from the framing of IpcProtocol.
// Source: src/ipc/enginehost.cpp, src/ipc/ipcengine.cpp, src/ipc/ipcprotocol.h.
module IpcLink {
  import opened Common
  import opened IpcFraming
  import opened IpcConnection
  import C = IpcCalls

  const REPLY: Byte := 5

  // A QByteArray's length and bytes, as in a reply's payload. (A null array is
  // written otherwise and reads back empty.)
  function Blob(b: Bytes): Bytes { Put32(|b|) + b }

  // The reply frame the engine writes: the request's id and the result.
  function FrameOf(r: C.Reply): Frame { Frame(REPLY, Put32(r.id) + Blob(r.result)) }

  datatype Pair = Pair(id: nat, result: Bytes)

  // The payload as the UI reads it; what is missing reads as nothing.
  function PairIn(payload: Bytes): Pair {
    Pair(if |payload| < 4 then 0 else Get32(payload),
         if |payload| >= 8 && Get32(payload[4..]) <= |payload| - 8 then payload[8..8 + Get32(payload[4..])] else [])
  }

  function PairOf(r: C.Reply): Pair { Pair(r.id, r.result) }

  predicate Sendable(r: C.Reply) { r.id < C.IDS && 1 + |FrameOf(r).payload| <= MAX_FRAME }

  lemma PairBack(r: C.Reply)
    requires Sendable(r)
    ensures PairIn(FrameOf(r).payload) == PairOf(r)
  {
    var payload, n := FrameOf(r).payload, |r.result|;
    Get32Put32(r.id);
    Get32Put32(n);
    LengthFirst(Put32(r.id), Blob(r.result));
    LengthFirst(Put32(n), r.result);
    hide Put32, Get32;
    assert payload[8..] == payload[4..][4..];
    assert payload[8..8 + n] == payload[8..][..n];
  }

  lemma LengthFirst(four: Bytes, rest: Bytes)
    requires |four| == 4
    ensures Get32(four + rest) == Get32(four) && (four + rest)[4..] == rest
  {
  }

  // A reply on the wire is of kind 5: the request's id, how long the result is, and
  // the result.
  lemma ReplyBytes(r: C.Reply)
    requires Sendable(r)
    ensures var f := FrameOf(r);
            && f.kind == 5 && |f.payload| == 8 + |r.result| && BigEndian(f.payload[..4]) == r.id
            && BigEndian(f.payload[4..8]) == |r.result| && f.payload[8..] == r.result
  {
    var payload := FrameOf(r).payload;
    PairBack(r);
    Get32Put32(|r.result|);
    LengthFirst(Put32(r.id), Blob(r.result));
    LengthFirst(Put32(|r.result|), r.result);
    assert payload[4..8] == payload[4..][..4] && payload[8..] == payload[4..][4..];
    FirstFour(payload);
    FirstFour(payload[4..]);
  }

  lemma FirstFour(b: Bytes)
    requires |b| >= 4
    ensures BigEndian(b[..4]) == Get32(b)
  {
    BigEndianOfFour(b[..4]);
  }

  // Whatever comes in a reply is read so: an id of fewer than four bytes as 0, and
  // a result that is not all there as an empty one.
  lemma PairRead(payload: Bytes)
    ensures var p := PairIn(payload);
            && p.id == (if |payload| < 4 then 0 else BigEndian(payload[..4]))
            && p.result == if |payload| < 8 || 8 + BigEndian(payload[4..8]) > |payload| then []
                           else payload[8..8 + BigEndian(payload[4..8])]
  {
    if |payload| >= 4 {
      FirstFour(payload);
    }
    if |payload| >= 8 {
      FirstFour(payload[4..]);
      assert payload[4..8] == payload[4..][..4];
    }
    hide BigEndian, Get32;
  }

  // The frames the engine writes: `replies` in order, with events in between.
  predicate Carries(frames: seq<Frame>, replies: seq<C.Reply>)
    decreases |frames|
  {
    if frames == [] then replies == []
    else if frames[0].kind == REPLY then
      replies != [] && Sendable(replies[0]) && frames[0] == FrameOf(replies[0]) && Carries(frames[1..], replies[1..])
    else 1 + |frames[0].payload| <= MAX_FRAME && Carries(frames[1..], replies)
  }

  // ---- The frames started are the frames written ----

  lemma {:induction false} SaneStretches(closed: seq<Bytes>, open: Bytes)
    requires Sane(Concat(closed) + open) && forall i :: 0 <= i < |closed| ==> !Sane(closed[i])
    ensures closed == []
  {
    if closed != [] {
      var rest := Concat(closed[1..]) + open;
      assert Concat(closed) + open == closed[0] + rest;
      SanePrefix(closed[0], rest);
    }
  }

  // However handlers nest, once the buffer is drained the frames started are the
  // first of those written, in the order they were written.
  lemma StartedAreWritten(frames: seq<Frame>, n: nat, closed: seq<Bytes>, open: Bytes, buf: Bytes, current: seq<Frame>)
    returns (k: nat)
    requires Writable(frames) && n <= |Wire(frames)| && Concat(closed) + open == Wire(frames)[..n]
    requires forall i :: 0 <= i < |closed| ==> !Sane(closed[i])
    requires Parse(open) == Parsed(current, buf)
    ensures k <= |frames| && FramesOf(closed) + current == frames[..k] == Parse(Concat(closed) + open).frames
    ensures n == |Wire(frames)| ==> k == |frames|
  {
    k := PrefixParses(frames, n);
    SaneStretches(closed, open);
    assert [] + open == open && [] + current == current;
    if n == |Wire(frames)| {
      assert Wire(frames)[..n] == Wire(frames) && Wire(frames) + [] == Wire(frames);
      WireParses(frames, []);
      assert frames + [] == frames;
    }
  }

  // ---- The calls, over the frames ----

  // The UI's end: the calls made, the results kept as they came off the wire,
  // and the calls that wait.
  datatype Ui = Ui(calls: nat, kept: map<nat, Bytes>, open: seq<nat>)

  // Of the frames `written` on this connection, `bytes` have been received;
  // handlers were started for the first `handled` frames in them.
  datatype Link = Link(ui: Ui, asked: seq<C.Request>, written: seq<Frame>, bytes: Bytes, handled: nat,
                       results: map<nat, Bytes>, returned: seq<C.Returned>)

  const INIT := Link(Ui(0, map[], []), [], [], [], 0, map[], [])

  // Calls begin and finish between any two frames: a handler of an event may
  // make one, and read the socket and handle the frames behind it meanwhile.
  datatype Step = Begins | Serves(result: Bytes) | Tells(event: Frame) | Receives(n: nat) | Handles | Finishes | Crashes

  // handleFrame: a reply is kept, the rest is events.
  function Kept(kept: map<nat, Bytes>, f: Frame): map<nat, Bytes> {
    var p := PairIn(f.payload);
    if f.kind == REPLY then kept[p.id := p.result] else kept
  }

  // The engine writes what fits a frame.
  function Take(l: Link, a: Step): Link {
    match a
    case Begins =>
      var kept := if |l.ui.kept| > C.KEEP_REPLIES then map[] else l.ui.kept;
      l.(ui := Ui(l.ui.calls + 1, kept, l.ui.open + [l.ui.calls]),
         asked := l.asked + [C.Request(C.IdOf(l.ui.calls), l.ui.calls)])
    case Serves(result) =>
      if l.asked == [] || !Sendable(C.Reply(l.asked[0].id, l.asked[0].call, result)) then l
      else
        var q := l.asked[0];
        l.(asked := l.asked[1..], written := l.written + [FrameOf(C.Reply(q.id, q.call, result))],
           results := l.results[q.call := result])
    case Tells(event) =>
      if event.kind == REPLY || 1 + |event.payload| > MAX_FRAME then l else l.(written := l.written + [event])
    case Receives(n) => l.(bytes := Wire(l.written)[..Min(|l.bytes| + n, |Wire(l.written)|)])
    case Handles =>
      var frames := Parse(l.bytes).frames;
      if l.handled >= |frames| then l
      else l.(ui := l.ui.(kept := Kept(l.ui.kept, frames[l.handled])), handled := l.handled + 1)
    case Finishes =>
      if l.ui.open == [] then l
      else
        var call := l.ui.open[|l.ui.open| - 1];
        var id := C.IdOf(call);
        l.(ui := l.ui.(kept := l.ui.kept - {id}, open := l.ui.open[..|l.ui.open| - 1]),
           returned := l.returned + [C.Returned(call, if id in l.ui.kept then Some(l.ui.kept[id]) else None)])
    case Crashes => l.(asked := [], written := [], bytes := [], handled := 0)
  }

  function Runs(l: Link, steps: seq<Step>): Link
    decreases |steps|
  {
    if steps == [] then l else Runs(Take(l, steps[0]), steps[1..])
  }

  // ---- The frames handled are the frames written ----

  predicate LinkOk(l: Link) {
    && Writable(l.written) && |l.bytes| <= |Wire(l.written)| && l.bytes == Wire(l.written)[..|l.bytes|]
    && l.handled <= |Parse(l.bytes).frames|
  }

  // What the bytes so far hold is the first of the frames written.
  lemma ReceivedInOrder(l: Link) returns (k: nat)
    requires LinkOk(l)
    ensures k <= |l.written| && Parse(l.bytes).frames == l.written[..k] && l.handled <= k
  {
    k := PrefixParses(l.written, |l.bytes|);
  }

  lemma {:induction false} WireMore(fs: seq<Frame>, f: Frame)
    ensures Wire(fs + [f]) == Wire(fs) + WriteFrame(f)
  {
    hide WriteFrame;
    if fs == [] {
      assert [f][1..] == [] && [] + [f] == [f];
    } else {
      assert (fs + [f])[1..] == fs[1..] + [f];
      WireMore(fs[1..], f);
    }
  }

  lemma WritesOk(l: Link, f: Frame)
    requires LinkOk(l) && 1 + |f.payload| <= MAX_FRAME
    ensures LinkOk(l.(written := l.written + [f]))
  {
    hide Wire, Parse;
    WireMore(l.written, f);
  }

  // More bytes, more frames: none of those that came before is taken back.
  lemma ReceivesOk(l: Link, n: nat)
    requires LinkOk(l)
    ensures LinkOk(Take(l, Receives(n)))
  {
    var all := Wire(l.written);
    var m, to := |l.bytes|, Min(|l.bytes| + n, |all|);
    hide Wire, Parse, Sane, Put32, PairIn, Kept;
    var k := PrefixParses(l.written, m);
    assert all[..to] == all[..m] + all[m..to];
    ParseMore(l.bytes, all[m..to]);
  }

  lemma TakeOk(l: Link, a: Step)
    requires LinkOk(l)
    ensures LinkOk(Take(l, a))
  {
    hide Wire, Parse, FrameOf;
    match a
    case Serves(result) =>
      if l.asked != [] && Sendable(C.Reply(l.asked[0].id, l.asked[0].call, result)) {
        WritesOk(l, FrameOf(C.Reply(l.asked[0].id, l.asked[0].call, result)));
      }
    case Tells(event) => if Take(l, a) != l { WritesOk(l, event); }
    case Receives(n) => ReceivesOk(l, n);
    case Crashes => NothingWritten();
    case _ =>
  }

  lemma NothingWritten()
    ensures Wire([]) == [] && Parse([]) == Parsed([], [])
  {
  }

  // ---- And so they are a run of the calls ----

  function Results(replies: map<nat, C.Reply>): map<nat, Bytes> { map id | id in replies :: replies[id].result }

  lemma ResultsSize(replies: map<nat, C.Reply>)
    ensures |Results(replies)| == |replies|
  {
    assert Results(replies).Keys == replies.Keys;
    assert |Results(replies)| == |Results(replies).Keys| && |replies| == |replies.Keys|;
  }

  // The calls' model, with the replies written and not yet handled under way.
  predicate Matches(l: Link, s: C.System) {
    && l.ui.calls == s.client.calls && l.ui.open == s.client.open && l.ui.kept == Results(s.client.replies)
    && l.asked == s.toEngine && l.results == s.results && l.returned == s.returned
    && l.handled <= |l.written| && Carries(l.written[l.handled..], s.toUi)
  }

  // What a step is to the calls.
  function Meaning(l: Link, a: Step): seq<C.Action> {
    match a
    case Begins => [C.Begin]
    case Serves(result) => if Take(l, a) == l then [] else [C.Serve(result)]
    case Handles =>
      var frames := Parse(l.bytes).frames;
      if l.handled < |frames| && frames[l.handled].kind == REPLY then [C.Arrive] else []
    case Finishes => [C.Finish]
    case Crashes => [C.Crash]
    case _ => []
  }

  function Meanings(l: Link, steps: seq<Step>): seq<C.Action>
    decreases |steps|
  {
    if steps == [] then [] else Meaning(l, steps[0]) + Meanings(Take(l, steps[0]), steps[1..])
  }

  lemma {:induction false} CarriesMore(frames: seq<Frame>, replies: seq<C.Reply>, f: Frame, more: seq<C.Reply>)
    requires Carries(frames, replies) && Carries([f], more)
    ensures Carries(frames + [f], replies + more)
    decreases |frames|
  {
    if frames == [] {
      assert frames + [f] == [f] && replies + more == more;
    } else {
      hide FrameOf, Sendable;
      assert (frames + [f])[1..] == frames[1..] + [f] && (frames + [f])[0] == frames[0];
      if frames[0].kind == REPLY {
        assert (replies + more)[1..] == replies[1..] + more && (replies + more)[0] == replies[0];
        CarriesMore(frames[1..], replies[1..], f, more);
      } else {
        CarriesMore(frames[1..], replies, f, more);
      }
    }
  }

  lemma CarriesOne(r: C.Reply)
    requires Sendable(r)
    ensures Carries([FrameOf(r)], [r])
  {
    assert [FrameOf(r)][1..] == [] && [r][1..] == [];
  }

  lemma CarriesEvent(f: Frame)
    requires f.kind != REPLY && 1 + |f.payload| <= MAX_FRAME
    ensures Carries([f], [])
  {
    assert [f][1..] == [];
  }

  lemma ServesMatch(l: Link, s: C.System, result: Bytes)
    requires LinkOk(l) && Matches(l, s)
    ensures Take(l, Serves(result)) != l ==> Matches(Take(l, Serves(result)), C.Act(s, C.Serve(result)))
  {
    var t := Take(l, Serves(result));
    if t != l {
      var r := C.Reply(l.asked[0].id, l.asked[0].call, result);
      CarriesOne(r);
      CarriesMore(l.written[l.handled..], s.toUi, FrameOf(r), [r]);
      hide FrameOf, Carries, Sendable, Results;
      assert t.written[l.handled..] == l.written[l.handled..] + [FrameOf(r)];
    }
  }

  lemma TellsMatch(l: Link, s: C.System, event: Frame)
    requires LinkOk(l) && Matches(l, s)
    ensures Matches(Take(l, Tells(event)), s)
  {
    var t := Take(l, Tells(event));
    if t != l {
      CarriesEvent(event);
      CarriesMore(l.written[l.handled..], s.toUi, event, []);
      hide Carries, Results;
      assert t.written[l.handled..] == l.written[l.handled..] + [event] && s.toUi + [] == s.toUi;
    }
  }

  lemma HandlesMatch(l: Link, s: C.System)
    requires LinkOk(l) && Matches(l, s)
    ensures Matches(Take(l, Handles), C.Run(s, Meaning(l, Handles)))
  {
    var frames := Parse(l.bytes).frames;
    var k := ReceivedInOrder(l);
    if l.handled < |frames| {
      var f := l.written[l.handled];
      var rest := l.written[l.handled..];
      assert rest[0] == f == frames[l.handled] && rest[1..] == l.written[l.handled + 1..];
      hide Parse, FrameOf, Sendable, Results, PairIn, C.Act;
      if f.kind == REPLY {
        OneReply(s, rest);
        Once(s, C.Arrive);
      }
      hide Carries, C.Run;
    }
  }

  // The reply at the head of those under way is the one the next frame carries.
  lemma {:induction false} OneReply(s: C.System, rest: seq<Frame>)
    requires rest != [] && rest[0].kind == REPLY && Carries(rest, s.toUi)
    ensures var t := C.Act(s, C.Arrive);
            && t == s.(toUi := t.toUi, client := s.client.(replies := t.client.replies))
            && Carries(rest[1..], t.toUi) && Kept(Results(s.client.replies), rest[0]) == Results(t.client.replies)
  {
    PairBack(s.toUi[0]);
    hide FrameOf, PairIn;
    assert Results(C.Act(s, C.Arrive).client.replies) == Results(s.client.replies)[s.toUi[0].id := s.toUi[0].result];
  }

  lemma Once(s: C.System, a: C.Action)
    ensures C.Run(s, [a]) == C.Act(s, a)
  {
    assert [a][1..] == [];
  }

  lemma BeginsMatch(l: Link, s: C.System)
    requires Matches(l, s)
    ensures Matches(Take(l, Begins), C.Act(s, C.Begin))
  {
    ResultsSize(s.client.replies);
    assert Results(map[]) == map[];
    hide Carries;
  }

  lemma FinishesMatch(l: Link, s: C.System)
    requires Matches(l, s)
    ensures Matches(Take(l, Finishes), C.Act(s, C.Finish))
  {
    hide Carries;
    if l.ui.open != [] {
      var id := C.IdOf(l.ui.open[|l.ui.open| - 1]);
      assert Results(s.client.replies - {id}) == Results(s.client.replies) - {id};
    }
  }

  lemma TakeMatches(l: Link, s: C.System, a: Step)
    requires LinkOk(l) && Matches(l, s)
    ensures Matches(Take(l, a), C.Run(s, Meaning(l, a)))
  {
    match a
    case Begins =>
      BeginsMatch(l, s);
      Once(s, C.Begin);
    case Serves(result) =>
      ServesMatch(l, s, result);
      Once(s, C.Serve(result));
    case Tells(event) => TellsMatch(l, s, event);
    case Receives(n) =>
    case Handles => HandlesMatch(l, s);
    case Finishes =>
      FinishesMatch(l, s);
      Once(s, C.Finish);
    case Crashes => Once(s, C.Crash);
  }

  // Every run over the frames is a run of the calls: what is kept, pruned, taken
  // and returned is what replies arriving one by one, in the order the engine
  // gave them, leave there.
  lemma {:induction false} RepliesArriveInOrder(l: Link, s: C.System, steps: seq<Step>)
    requires LinkOk(l) && Matches(l, s)
    ensures LinkOk(Runs(l, steps)) && Matches(Runs(l, steps), C.Run(s, Meanings(l, steps)))
    decreases |steps|
  {
    hide LinkOk, Matches, Take, Meaning, C.Act;
    if steps != [] {
      var t := Meaning(l, steps[0]);
      TakeOk(l, steps[0]);
      TakeMatches(l, s, steps[0]);
      C.RunAppend(s, t, Meanings(Take(l, steps[0]), steps[1..]));
      hide C.Run;
      RepliesArriveInOrder(Take(l, steps[0]), C.Run(s, t), steps[1..]);
    }
  }

  lemma InitMatches()
    ensures LinkOk(INIT) && Matches(INIT, C.INIT)
  {
    NothingWritten();
  }

  // So over the wire, too, a call returns nothing or the engine's result for it.
  lemma ResultsComeOverTheWire(steps: seq<Step>, x: C.Returned)
    requires x in Runs(INIT, steps).returned && x.got.Some? && Runs(INIT, steps).ui.calls <= C.IDS
    ensures var l := Runs(INIT, steps); x.call in l.results && l.results[x.call] == x.got.value
  {
    InitMatches();
    RepliesArriveInOrder(INIT, C.INIT, steps);
    C.CallsGetTheirOwn(Meanings(INIT, steps), x);
  }
}
