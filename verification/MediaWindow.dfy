// What the feed gives, keeps and reads, said outright: which requests a pass
// answers and with how many bytes, how much is read from the reply, and what of
// the window goes.
// Source: src/ipc/mediafeed.cpp.
module MediaWindow {
  import opened Common
  import opened MediaFeedSpec

  const MIB := 1024 * 1024

  // How many bytes the window has from an offset on.
  function Have(f: Feed, offset: int): int { f.bufStart + |f.buf| - offset }

  predicate Inside(f: Feed, offset: int) { f.bufStart <= offset && Have(f, offset) > 0 }

  // All that the window has of a request.
  function Full(f: Feed, p: Pending): Answer
    requires Inside(f, p.offset)
  {
    var from := p.offset - f.bufStart;
    Data(p.id, p.offset, f.buf[from..from + Max(0, Min(p.length, Have(f, p.offset)))])
  }

  // ---- A pass while more may come ----

  // The request is in the window whole, or 64 KiB of it, or all the file has.
  predicate Ready(f: Feed, p: Pending) {
    && Inside(f, p.offset)
    && (Have(f, p.offset) >= p.length || Have(f, p.offset) >= 64 * 1024 || p.offset + Have(f, p.offset) >= f.size)
  }

  function Given(f: Feed, ps: seq<Pending>): seq<Answer> {
    if ps == [] then [] else (if Ready(f, ps[0]) then [Full(f, ps[0])] else []) + Given(f, ps[1..])
  }

  function Left(f: Feed, ps: seq<Pending>): seq<Pending> {
    if ps == [] then [] else (if Ready(f, ps[0]) then [] else [ps[0]]) + Left(f, ps[1..])
  }

  // The reader is where the last answer ended.
  function ReaderAfter(f: Feed, ps: seq<Pending>, readerAt: int): int
    decreases |ps|
  {
    if ps == [] then readerAt
    else
      var p := ps[0];
      ReaderAfter(f, ps[1..], if Ready(f, p) then p.offset + Min(p.length, Have(f, p.offset)) else readerAt)
  }

  lemma AnswerIsFull(f: Feed, p: Pending)
    requires 0 < p.length
    ensures Answerable(f, p, false) <==> Ready(f, p)
    ensures InWindow(f, p.offset) <==> Inside(f, p.offset)
    ensures Inside(f, p.offset) ==> AnswerFor(f, p) == Full(f, p)
  {
  }

  predicate Sound(f: Feed) { forall p :: p in f.pending ==> 0 <= p.offset && 0 < p.length }

  lemma {:induction false} SameWindow(f: Feed, g: Feed, ps: seq<Pending>, readerAt: int)
    requires g.buf == f.buf && g.bufStart == f.bufStart && g.size == f.size
    ensures Given(g, ps) == Given(f, ps) && Left(g, ps) == Left(f, ps)
    ensures ReaderAfter(g, ps, readerAt) == ReaderAfter(f, ps, readerAt)
    decreases |ps|
  {
    if ps != [] {
      var p := ps[0];
      SameWindow(f, g, ps[1..], if Ready(f, p) then p.offset + Min(p.length, Have(f, p.offset)) else readerAt);
    }
  }

  // From the i-th request on, each that is ready is answered with all there is of
  // it, in the order of the list; the others stay, in theirs; the window is not
  // touched.
  function Live(f: Feed, i: nat): Pass
    requires i <= |f.pending|
  {
    var rest := f.pending[i..];
    Pass(f.(pending := f.pending[..i] + Left(f, rest), readerAt := ReaderAfter(f, rest, f.readerAt),
            retriedAt := if Given(f, rest) == [] then f.retriedAt else -1),
         Given(f, rest), false)
  }

  lemma {:induction false} LivePass(f: Feed, i: nat)
    requires i <= |f.pending| && Sound(f)
    ensures ServeLoop(f, i, false) == Live(f, i)
    decreases |f.pending| - i
  {
    ServeLoopStep(f, i);
    hide ServeLoop;
    if i == |f.pending| {
      assert f.pending[..i] + [] == f.pending && f.pending[i..] == [];
    } else {
      AnswerIsFull(f, f.pending[i]);
      hide Answerable, InWindow, AnswerFor;
      if Ready(f, f.pending[i]) {
        var g := Take(f, i);
        RemoveAtMultiset(f.pending, i);
        LivePass(g, i);
        hide Live;
        LiveTaken(f, i);
      } else {
        LivePass(f, i + 1);
        hide Live;
        LiveSkipped(f, i);
      }
    }
  }

  lemma LiveTaken(f: Feed, i: nat)
    requires i < |f.pending| && Ready(f, f.pending[i])
    ensures var q := Live(Take(f, i), i); Live(f, i) == Pass(q.feed, [Full(f, f.pending[i])] + q.answers, false)
  {
    var g, rest := Take(f, i), f.pending[i..];
    assert g.pending[i..] == rest[1..] == f.pending[i + 1..] && g.pending[..i] == f.pending[..i] && rest[0] == f.pending[i];
    SameWindow(f, g, rest[1..], g.readerAt);
    hide Ready, Full;
  }

  lemma LiveSkipped(f: Feed, i: nat)
    requires i < |f.pending| && !Ready(f, f.pending[i])
    ensures Live(f, i) == Live(f, i + 1)
  {
    var rest := f.pending[i..];
    assert rest[1..] == f.pending[i + 1..] && rest[0] == f.pending[i];
    hide Ready, Full;
    assert f.pending[..i + 1] == f.pending[..i] + [rest[0]];
    assert (f.pending[..i] + [rest[0]]) + Left(f, rest[1..]) == f.pending[..i] + ([rest[0]] + Left(f, rest[1..]));
  }

  lemma ServeLoopStep(f: Feed, i: nat)
    requires i <= |f.pending|
    ensures var r := ServeLoop(f, i, false);
            if i == |f.pending| then r == Pass(f, [], false)
            else if Answerable(f, f.pending[i], false) then
              var q := ServeLoop(Take(f, i), i, false);
              r == Pass(q.feed, [AnswerFor(f, f.pending[i])] + q.answers, q.restreamed)
            else r == ServeLoop(f, i + 1, false)
  {
  }

  // ---- A pass when no more will come ----

  // Nothing was answered before it, and its offset was streamed from last time.
  predicate Retried(f: Feed, j: nat)
    requires j < |f.pending|
  {
    f.retriedAt == f.pending[j].offset && forall k :: 0 <= k < j ==> !Inside(f, f.pending[k].offset)
  }

  predicate AsksAgain(f: Feed, j: nat)
    requires j < |f.pending|
  {
    !Inside(f, f.pending[j].offset) && !Retried(f, j)
  }

  function LastWord(f: Feed, p: Pending): Answer { if Inside(f, p.offset) then Full(f, p) else Refused(p.id) }

  // An empty window at an offset, a reply of which nothing has come, and a note
  // that this offset has been tried.
  function Anew(g: Feed, f: Feed, offset: int): Feed {
    Feed(f.size, f.local, Some(Reply(0, None, 0, 0, [], false)), false, offset, [], offset, offset, g.pending)
  }

  // Where the last of the answers ends.
  function LastEnd(f: Feed, ps: seq<Pending>, readerAt: int): int
    decreases |ps|
  {
    if ps == [] then readerAt
    else
      var p := ps[0];
      LastEnd(f, ps[1..], if Inside(f, p.offset) then p.offset + Min(p.length, Have(f, p.offset)) else readerAt)
  }

  predicate AnyInside(f: Feed, ps: seq<Pending>) { ps != [] && (Inside(f, ps[0].offset) || AnyInside(f, ps[1..])) }

  lemma {:induction false} SameEnd(f: Feed, g: Feed, ps: seq<Pending>, readerAt: int)
    requires g.buf == f.buf && g.bufStart == f.bufStart
    ensures LastEnd(g, ps, readerAt) == LastEnd(f, ps, readerAt) && AnyInside(g, ps) == AnyInside(f, ps)
    decreases |ps|
  {
    if ps != [] {
      var p := ps[0];
      SameEnd(f, g, ps[1..], if Inside(f, p.offset) then p.offset + Min(p.length, Have(f, p.offset)) else readerAt);
    }
  }

  // Every request up to the first that asks again is settled: answered with all
  // there is, or refused for good. That one has the feed stream from it.
  predicate Last(f: Feed, n: nat, r: Pass)
    requires n <= |f.pending|
  {
    && |r.answers| == n && (forall j :: 0 <= j < n ==> r.answers[j] == LastWord(f, f.pending[j]))
    && r.feed.pending == f.pending[n..] && (r.restreamed <==> n < |f.pending|)
    && (n < |f.pending| ==> r.feed == Anew(r.feed, f, f.pending[n].offset))
  }

  // The n-th is the first that asks again, if any does.
  predicate FirstAsking(f: Feed, n: nat) {
    && n <= |f.pending| && (forall j :: 0 <= j < n ==> !AsksAgain(f, j))
    && (n < |f.pending| ==> AsksAgain(f, n))
  }

  lemma {:induction false} LastPass(f: Feed, n: nat)
    requires Sound(f) && FirstAsking(f, n)
    ensures Last(f, n, ServeLoop(f, 0, true))
    decreases n
  {
    LastStep(f);
    if n == 0 {
      assert f.pending[0..] == f.pending;
    } else {
      assert !AsksAgain(f, 0);
      AnswerIsFull(f, f.pending[0]);
      var g := FirstSettled(f);
      SameAsking(f, g);
      AskingLater(f, g, n);
      hide Last, FirstAsking, Sound, ServeLoop, AsksAgain, Answerable, AnswerFor, RemoveAt, Full;
      LastPass(g, n - 1);
      LastNext(f, g, n, ServeLoop(g, 0, true));
    }
  }

  lemma AskingLater(f: Feed, g: Feed, n: nat)
    requires n > 0 && FirstAsking(f, n) && |g.pending| == |f.pending| - 1
    requires forall j :: 0 <= j < |g.pending| ==> (AsksAgain(g, j) <==> AsksAgain(f, j + 1))
    ensures FirstAsking(g, n - 1)
  {
    hide AsksAgain;
  }

  lemma LastNext(f: Feed, g: Feed, n: nat, q: Pass)
    requires 0 < n <= |f.pending| && g == f.(pending := f.pending[1..], retriedAt := g.retriedAt, readerAt := g.readerAt)
    requires Last(g, n - 1, q)
    ensures Last(f, n, Pass(q.feed, [LastWord(f, f.pending[0])] + q.answers, q.restreamed))
  {
    var answers := [LastWord(f, f.pending[0])] + q.answers;
    hide LastWord;
    LastWords(f, g, n, answers, q.answers);
    assert g.pending[n - 1..] == f.pending[n..];
    assert n < |f.pending| ==> g.pending[n - 1] == f.pending[n];
  }

  // And if none asks again the window stays, and the reader is where the last of
  // the answers ends.
  lemma {:induction false} LastReader(f: Feed)
    requires Sound(f) && forall j :: 0 <= j < |f.pending| ==> !AsksAgain(f, j)
    ensures ServeLoop(f, 0, true).feed == AllRead(f)
    decreases |f.pending|
  {
    LastStep(f);
    hide ServeLoop;
    if f.pending != [] {
      var p := f.pending[0];
      assert !AsksAgain(f, 0);
      AnswerIsFull(f, p);
      hide Answerable, InWindow, AnswerFor;
      var g := FirstSettled(f);
      SameAsking(f, g);
      LastReader(g);
      hide AsksAgain, AllRead;
      SameRead(f, g);
    }
  }

  function AllRead(f: Feed): Feed {
    f.(pending := [], readerAt := LastEnd(f, f.pending, f.readerAt),
       retriedAt := if AnyInside(f, f.pending) then -1 else f.retriedAt)
  }

  lemma SameRead(f: Feed, g: Feed)
    requires f.pending != [] && Sound(f) && g == FirstSettled(f)
    ensures AllRead(g) == AllRead(f)
  {
    SameEnd(f, g, g.pending, g.readerAt);
    hide AsksAgain, Sound;
  }

  lemma LastWords(f: Feed, g: Feed, n: nat, answers: seq<Answer>, rest: seq<Answer>)
    requires 0 < n <= |f.pending| && g.pending == f.pending[1..] && g.buf == f.buf && g.bufStart == f.bufStart
    requires answers == [LastWord(f, f.pending[0])] + rest && |rest| == n - 1
    requires forall j :: 0 <= j < n - 1 ==> rest[j] == LastWord(g, g.pending[j])
    ensures |answers| == n && forall j :: 0 <= j < n ==> answers[j] == LastWord(f, f.pending[j])
  {
    hide Inside, Full;
    forall j | 0 < j < n ensures answers[j] == LastWord(f, f.pending[j]) {
      assert g.pending[j - 1] == f.pending[j];
      SameWord(f, g, f.pending[j]);
    }
  }

  lemma SameWord(f: Feed, g: Feed, p: Pending)
    requires g.buf == f.buf && g.bufStart == f.bufStart
    ensures LastWord(g, p) == LastWord(f, p)
  {
  }

  // The first is answered or refused.
  function FirstSettled(f: Feed): (g: Feed)
    requires f.pending != []
    ensures g == f.(pending := f.pending[1..], retriedAt := g.retriedAt, readerAt := g.readerAt)
  {
    assert RemoveAt(f.pending, 0) == f.pending[1..];
    if Inside(f, f.pending[0].offset) then Take(f, 0) else Drop(f, 0)
  }

  // Once the first is settled the others ask again exactly as before.
  lemma SameAsking(f: Feed, g: Feed)
    requires f.pending != [] && Sound(f) && !AsksAgain(f, 0) && g == FirstSettled(f)
    ensures Sound(g)
    ensures forall j :: 0 <= j < |g.pending| ==> (AsksAgain(g, j) <==> AsksAgain(f, j + 1))
  {
    forall j | 0 <= j < |g.pending| ensures AsksAgain(g, j) <==> AsksAgain(f, j + 1) {
      var at := f.pending[j + 1].offset;
      assert g.pending[j] == f.pending[j + 1];
      assert Inside(f, f.pending[0].offset) ==> !Retried(f, j + 1);
      assert forall k :: 0 <= k < j ==> g.pending[k] == f.pending[k + 1];
      assert forall k :: 0 < k < j + 1 ==> f.pending[k] == g.pending[k - 1];
    }
  }

  lemma LastStep(f: Feed)
    ensures var r := ServeLoop(f, 0, true);
            if f.pending == [] then r == Pass(f, [], false)
            else
              var p := f.pending[0];
              if InWindow(f, p.offset) then
                var q := ServeLoop(Take(f, 0), 0, true);
                r == Pass(q.feed, [AnswerFor(f, p)] + q.answers, q.restreamed)
              else if f.retriedAt != p.offset then r == Pass(Anew(f, f, p.offset), [], true)
              else
                var q := ServeLoop(Drop(f, 0), 0, true);
                r == Pass(q.feed, [Refused(p.id)] + q.answers, q.restreamed)
  {
  }

  // ---- What of the window goes ----

  // `m` is the least of the window's end, 2 MiB behind the reader, and every
  // offset that waits. If that is 4 MiB or more into the window, the window
  // begins there afterwards; if not, it stays as it is.
  lemma WindowTrimmed(f: Feed, m: int)
    requires m <= f.bufStart + |f.buf| && m <= f.readerAt - 2 * MIB && forall p :: p in f.pending ==> m <= p.offset
    requires m == f.bufStart + |f.buf| || m == f.readerAt - 2 * MIB || exists p :: p in f.pending && m == p.offset
    ensures Trim(f) == if m < f.bufStart + 4 * MIB then f else f.(buf := f.buf[m - f.bufStart..], bufStart := m)
  {
    LeastKept(f.readerAt - KEEP_BEHIND, f.pending);
  }

  lemma {:induction false} LeastKept(start: int, ps: seq<Pending>)
    ensures KeepFrom(start, ps) == start || exists p :: p in ps && KeepFrom(start, ps) == p.offset
    decreases |ps|
  {
    if ps != [] {
      LeastKept(Min(start, ps[0].offset), ps[1..]);
    }
  }

  // The window is needed from its first 4 MiB on: by the reader, or by a request.
  predicate Needed(f: Feed) {
    |f.buf| < 4 * MIB || f.readerAt < f.bufStart + 6 * MIB || exists p :: p in f.pending && p.offset < f.bufStart + 4 * MIB
  }

  function Least(f: Feed, ps: seq<Pending>): (m: int)
    ensures m <= f.bufStart + |f.buf| && m <= f.readerAt - 2 * MIB && forall p :: p in ps ==> m <= p.offset
    ensures m == f.bufStart + |f.buf| || m == f.readerAt - 2 * MIB || exists p :: p in ps && m == p.offset
  {
    if ps == [] then Min(f.bufStart + |f.buf|, f.readerAt - 2 * MIB) else Min(ps[0].offset, Least(f, ps[1..]))
  }

  lemma TrimmedIsNeeded(f: Feed)
    ensures Needed(Trim(f))
  {
    WindowTrimmed(f, Least(f, f.pending));
  }

  // After any pass that did not begin a new stream a full window is one that is
  // needed; otherwise there is room to read on.
  lemma FullOnlyIfNeeded(f: Feed)
    requires f.reply.Some? && (f.checked || StartsAtBuffer(f.reply.value, f.bufStart))
    ensures Needed(OnHttpData(f).feed)
  {
    var g := Fill(f.(checked := true));
    var pass := ServeLoop(g, 0, Drained(g));
    if pass.restreamed {
      StreamIsEmpty(g, 0, Drained(g));
    } else {
      TrimmedIsNeeded(pass.feed);
    }
  }

  lemma {:induction false} StreamIsEmpty(f: Feed, i: nat, drained: bool)
    requires i <= |f.pending|
    ensures ServeLoop(f, i, drained).restreamed ==> ServeLoop(f, i, drained).feed.buf == []
    decreases |f.pending| - i
  {
    if i < |f.pending| {
      var p := f.pending[i];
      if Answerable(f, p, drained) {
        StreamIsEmpty(Take(f, i), i, drained);
      } else if InWindow(f, p.offset) || !drained {
        StreamIsEmpty(f, i + 1, drained);
      } else if f.retriedAt == p.offset {
        StreamIsEmpty(Drop(f, i), i, drained);
      }
    }
  }

  // ---- The operations ----

  // The reply says it starts where the window does.
  predicate Accepts(f: Feed)
    requires f.reply.Some?
  {
    var r := f.reply.value;
    f.checked || (r.status == 200 && f.bufStart == 0) || (r.status == 206 && r.rangeStart == Some(f.bufStart))
  }

  // The window with n more bytes of the reply.
  function With(f: Feed, n: nat): Feed
    requires f.reply.Some? && n <= |f.reply.value.available|
  {
    var r := f.reply.value;
    f.(checked := true, buf := f.buf + r.available[..n],
       reply := Some(r.(available := r.available[n..], served := r.served + n)))
  }

  // News from the server: all that fits 16 MiB is read, and then a pass is made,
  // the last one if the reply is finished and read to its end. A reply from
  // elsewhere is given up and refuses everything.
  lemma HttpDataDoes(f: Feed, n: nat)
    requires f.reply.Some? && |f.buf| <= 16 * MIB && n == Min(16 * MIB - |f.buf|, |f.reply.value.available|)
    ensures Accepts(f) ==>
              var g := With(f, n);
              var pass := ServeLoop(g, 0, f.reply.value.finished && n == |f.reply.value.available|);
              && OnHttpData(f).answers == pass.answers
              && OnHttpData(f).feed == if pass.restreamed then pass.feed else Trim(pass.feed)
    ensures !Accepts(f) ==>
              && OnHttpData(f).feed == f.(pending := [], reply := Some(f.reply.value.(finished := true)))
              && |OnHttpData(f).answers| == |f.pending|
              && forall i :: 0 <= i < |f.pending| ==> OnHttpData(f).answers[i] == Refused(f.pending[i].id)
  {
    if Accepts(f) {
      var g := f.(checked := true);
      assert f.buf + [] == f.buf;
      assert Fill(g) == With(f, n);
    }
  }

  // A request: refused, read from the open file as far as asked and there, served
  // from the window or the stream that is near, or streamed from anew.
  lemma RequestDoes(f: Feed, id: int, offset: int, length: int, diskGives: nat)
    requires f.local.Some? ==> f.size <= |f.local.value|
    ensures var r := Request(f, id, offset, length, diskGives);
            var q := Pending(id, offset, Min(length, f.size - offset));
            var listed := f.(pending := f.pending + [q]);
            if !(0 <= offset < f.size && 0 < length <= 4 * MIB && |f.pending| < 16) then
              r.feed == f && r.answers == [Refused(id)]
            else if f.local.Some? then
              r.feed == f
              && r.answers == [if diskGives == 0 then Refused(id)
                               else Data(id, offset, f.local.value[offset..offset + Min(q.length, diskGives)])]
            else if Inside(f, offset) || (f.reply.Some? && f.bufStart + |f.buf| <= offset <= f.bufStart + |f.buf| + 4 * MIB) then
              var over := f.reply.None? || (f.reply.value.finished && f.reply.value.available == []);
              var pass := ServeLoop(listed, 0, over);
              r.answers == pass.answers && r.feed == if pass.restreamed then pass.feed else Trim(pass.feed)
            else
              r.answers == [] && r.feed == Anew(listed, f, offset).(retriedAt := f.retriedAt)
  {
  }

  // So while there is room and the reply has bytes, some are read; and a request
  // that is ready is answered.
  lemma ReadsOn(f: Feed)
    requires f.reply.Some? && Accepts(f) && |f.buf| < 16 * MIB && f.reply.value.available != [] && Sound(f)
    requires !f.reply.value.finished
    ensures var g := OnHttpData(f).feed;
            && g.reply.Some? && g.reply.value.served == f.reply.value.served + Min(16 * MIB - |f.buf|, |f.reply.value.available|)
            && g.bufStart + |g.buf| == f.bufStart + |f.buf| + Min(16 * MIB - |f.buf|, |f.reply.value.available|)
            && forall p :: p in g.pending ==> !Ready(With(f, Min(16 * MIB - |f.buf|, |f.reply.value.available|)), p)
  {
    var n := Min(16 * MIB - |f.buf|, |f.reply.value.available|);
    var g := With(f, n);
    HttpDataDoes(f, n);
    LivePass(g, 0);
    hide ServeLoop, OnHttpData, Ready, Given, ReaderAfter;
    assert g.pending[0..] == g.pending && g.pending[..0] + Left(g, g.pending) == Left(g, g.pending);
    NoneReadyLeft(g, g.pending);
    var pass := ServeLoop(g, 0, false);
    WindowTrimmed(pass.feed, Least(pass.feed, pass.feed.pending));
  }

  lemma {:induction false} NoneReadyLeft(f: Feed, ps: seq<Pending>)
    ensures forall p :: p in Left(f, ps) ==> !Ready(f, p)
  {
    if ps != [] {
      NoneReadyLeft(f, ps[1..]);
    }
  }
}
