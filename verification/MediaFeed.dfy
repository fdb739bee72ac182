// The UI side of the decoder's reads: a sliding window over one HTTP range
// reply (or a local file), a list of waiting requests, one retry per offset.
// Source: src/ipc/mediafeed.cpp, src/ipc/mediafeed.h.
module MediaFeedSpec {
  import opened Common

  const WINDOW := 16 * 1024 * 1024
  const KEEP_BEHIND := 2 * 1024 * 1024
  const NEAR_AHEAD := 4 * 1024 * 1024
  const MIN_ANSWER := 64 * 1024
  const MAX_REQUEST := 4 * 1024 * 1024
  const MAX_PENDING := 16

  // The network reply as the feed sees it. `from` is where the server really
  // streams from and `served` how much of that was read already; no code looks
  // at those two, they only say which bytes `available` can hold.
  datatype Reply = Reply(status: int, rangeStart: Option<int>, from: int, served: nat,
                         available: Bytes, finished: bool)

  datatype Pending = Pending(id: int, offset: int, length: int)

  datatype Answer = Data(id: int, offset: int, bytes: Bytes) | Refused(id: int)

  // `local` is the content of an opened local file; None means a stream.
  datatype Feed = Feed(size: int, local: Option<Bytes>, reply: Option<Reply>, checked: bool,
                       retriedAt: int, buf: Bytes, bufStart: int, readerAt: int,
                       pending: seq<Pending>)

  datatype Outcome = Outcome(feed: Feed, answers: seq<Answer>)

  // One walk over the pending list; `restreamed` says it ended in a new request.
  datatype Pass = Pass(feed: Feed, answers: seq<Answer>, restreamed: bool)

  function Fresh(local: Option<Bytes>): Feed {
    Feed(-1, local, None, false, -1, [], 0, 0, [])
  }

  function End(f: Feed): int { f.bufStart + |f.buf| }

  predicate InWindow(f: Feed, at: int) { f.bufStart <= at < End(f) }

  // QByteArray::mid.
  function Mid(b: Bytes, pos: int, n: int): Bytes {
    if pos < 0 || pos > |b| then []
    else if n < 0 || pos + n > |b| then b[pos..]
    else b[pos..pos + n]
  }

  function StreamFrom(f: Feed, offset: int): Feed {
    f.(buf := [], bufStart := offset, readerAt := offset, checked := false,
       reply := Some(Reply(0, None, 0, 0, [], false)))
  }

  predicate StartsAtBuffer(r: Reply, bufStart: int) {
    if r.status == 206 then r.rangeStart == Some(bufStart) else r.status == 200 && bufStart == 0
  }

  function RefuseAll(ps: seq<Pending>): (r: seq<Answer>)
    ensures |r| == |ps|
    ensures forall i :: 0 <= i < |ps| ==> r[i] == Refused(ps[i].id)
  {
    if ps == [] then [] else [Refused(ps[0].id)] + RefuseAll(ps[1..])
  }

  predicate Drained(f: Feed) {
    f.reply.None? || (f.reply.value.finished && f.reply.value.available == [])
  }

  function AnswerSize(f: Feed, p: Pending): int { Min(p.length, End(f) - p.offset) }

  // Worth answering now: enough bytes, or no more are coming, or the file ends.
  predicate Answerable(f: Feed, p: Pending, drained: bool) {
    && InWindow(f, p.offset)
    && (AnswerSize(f, p) >= Min(p.length, MIN_ANSWER) || drained || p.offset + AnswerSize(f, p) >= f.size)
  }

  function AnswerFor(f: Feed, p: Pending): Answer {
    Data(p.id, p.offset, Mid(f.buf, p.offset - f.bufStart, AnswerSize(f, p)))
  }

  function Drop(f: Feed, i: nat): Feed
    requires i < |f.pending|
  {
    f.(pending := RemoveAt(f.pending, i))
  }

  function Take(f: Feed, i: nat): Feed
    requires i < |f.pending|
  {
    Drop(f, i).(retriedAt := -1, readerAt := f.pending[i].offset + AnswerSize(f, f.pending[i]))
  }

  function ServeLoop(f: Feed, i: nat, drained: bool): Pass
    requires i <= |f.pending|
    decreases |f.pending| - i
  {
    if i == |f.pending| then Pass(f, [], false)
    else
      var p := f.pending[i];
      if Answerable(f, p, drained) then
        var r := ServeLoop(Take(f, i), i, drained);
        r.(answers := [AnswerFor(f, p)] + r.answers)
      else if InWindow(f, p.offset) || !drained then
        ServeLoop(f, i + 1, drained)
      else if f.retriedAt != p.offset then
        Pass(StreamFrom(f.(retriedAt := p.offset), p.offset), [], true)
      else
        var r := ServeLoop(Drop(f, i), i, drained);
        r.(answers := [Refused(p.id)] + r.answers)
  }

  // The four ways one turn of the walk goes.
  lemma ServeLoopTurn(f: Feed, i: nat, drained: bool)
    requires i < |f.pending|
    ensures var p := f.pending[i]; var r := ServeLoop(f, i, drained);
            if Answerable(f, p, drained) then
              r == ServeLoop(Take(f, i), i, drained).(answers := [AnswerFor(f, p)] + ServeLoop(Take(f, i), i, drained).answers)
            else if InWindow(f, p.offset) || !drained then r == ServeLoop(f, i + 1, drained)
            else if f.retriedAt != p.offset then r == Pass(StreamFrom(f.(retriedAt := p.offset), p.offset), [], true)
            else r == ServeLoop(Drop(f, i), i, drained).(answers := [Refused(p.id)] + ServeLoop(Drop(f, i), i, drained).answers)
  {
  }

  lemma ServeLoopEnd(f: Feed, drained: bool)
    ensures ServeLoop(f, |f.pending|, drained) == Pass(f, [], false)
  {
  }

  function KeepFrom(start: int, ps: seq<Pending>): (k: int)
    ensures k <= start && forall p :: p in ps ==> k <= p.offset
    decreases |ps|
  {
    if ps == [] then start else KeepFrom(Min(start, ps[0].offset), ps[1..])
  }

  function Clamp(v: int, lo: int, hi: int): (r: int)
    requires lo <= hi
    ensures lo <= r <= hi && (lo <= v <= hi ==> r == v) && (v > lo ==> r <= v)
  {
    if v < lo then lo else if v > hi then hi else v
  }

  function Trim(f: Feed): Feed {
    var drop := Clamp(KeepFrom(f.readerAt - KEEP_BEHIND, f.pending) - f.bufStart, 0, |f.buf|);
    if drop < WINDOW / 4 then f else f.(buf := f.buf[drop..], bufStart := f.bufStart + drop)
  }

  function Serve(f: Feed): Outcome {
    var pass := ServeLoop(f, 0, Drained(f));
    Outcome(if pass.restreamed then pass.feed else Trim(pass.feed), pass.answers)
  }

  // What onHttpData reads before it serves: as much as the window has room for.
  function Fill(f: Feed): Feed
    requires f.reply.Some?
  {
    var r := f.reply.value;
    if |f.buf| < WINDOW && |r.available| > 0 then
      var n := Min(WINDOW - |f.buf|, |r.available|);
      f.(buf := f.buf + r.available[..n],
         reply := Some(r.(available := r.available[n..], served := r.served + n)))
    else f
  }

  function RejectReply(f: Feed): Outcome
    requires f.reply.Some?
  {
    Outcome(f.(pending := [], reply := Some(f.reply.value.(finished := true))), RefuseAll(f.pending))
  }

  function OnHttpData(f: Feed): Outcome {
    if f.reply.None? then Outcome(f, [])
    else if !f.checked && !StartsAtBuffer(f.reply.value, f.bufStart) then RejectReply(f)
    else Serve(Fill(f.(checked := true)))
  }

  predicate Acceptable(f: Feed, offset: int, length: int) {
    0 <= f.size && 0 <= offset < f.size && 0 < length <= MAX_REQUEST && |f.pending| < MAX_PENDING
  }

  // `diskGives` is how many bytes a read of the local file yields at most.
  function Request(f: Feed, id: int, offset: int, length: int, diskGives: nat): Outcome {
    if !Acceptable(f, offset, length) then Outcome(f, [Refused(id)])
    else
      var n := Min(length, f.size - offset);
      if f.local.Some? then
        var bytes := Mid(f.local.value, offset, Min(n, diskGives));
        Outcome(f, [if bytes == [] then Refused(id) else Data(id, offset, bytes)])
      else
        var g := f.(pending := f.pending + [Pending(id, offset, n)]);
        if InWindow(f, offset) || (f.reply.Some? && End(f) <= offset <= End(f) + NEAR_AHEAD)
        then Serve(g)
        else Outcome(StreamFrom(g, offset), [])
  }

  // ---- The assumptions on the outside world ----

  // A reply that says where its bytes start: a whole file, or a range with its
  // Content-Range. Any other (an error page, a 206 without a range) does not.
  predicate StatesStart(r: Reply) { r.status == 200 || (r.status == 206 && r.rangeStart.Some?) }

  // A stable file, and a server that streams it from the start it states
  // (section 14.4 of RFC 9110). What any other reply carries is left open.
  predicate Honest(r: Reply, file: Bytes) {
    && (r.status == 200 ==> r.from == 0)
    && (r.status == 206 && r.rangeStart.Some? ==> r.from == r.rangeStart.value)
    && (StatesStart(r) && r.available != [] ==> IsSlice(file, r.from + r.served, r.available))
  }

  // What the network may do between two calls: the reply gains headers, bytes
  // or an end, or is deleted. Headers never change once they are there.
  predicate NetworkMay(old_: Option<Reply>, new_: Option<Reply>, file: Bytes) {
    new_.Some? ==>
      && old_.Some?
      && Honest(new_.value, file)
      && new_.value.served == old_.value.served
      && (old_.value.status != 0 || old_.value.served != 0 ==>
            new_.value.status == old_.value.status && new_.value.rangeStart == old_.value.rangeStart
            && new_.value.from == old_.value.from)
  }

  // ---- The invariant ----

  predicate PendingOk(p: Pending, size: int) {
    0 <= p.offset < size && 0 < p.length <= MAX_REQUEST && p.offset + p.length <= size
  }

  // While a reply is unchecked nothing of it was read; once it is checked its
  // next byte is the one just past the buffer.
  predicate ReplyOk(f: Feed, file: Bytes) {
    && (f.reply.Some? ==>
          && Honest(f.reply.value, file)
          && (!f.checked ==> f.reply.value.served == 0)
          && (f.checked ==> StatesStart(f.reply.value) && f.reply.value.from + f.reply.value.served == End(f)))
    && (!f.checked ==> f.buf == [])
  }

  predicate FeedOk(f: Feed, file: Bytes) {
    && (f.size == -1 || f.size == |file|)
    && (f.size == -1 ==> f.pending == [])
    && (f.local.Some? ==> f.local.value == file && f.pending == [] && f.reply.None?)
    && |f.buf| <= WINDOW
    && (f.buf != [] ==> IsSlice(file, f.bufStart, f.buf))
    && |f.pending| <= MAX_PENDING
    && (forall p :: p in f.pending ==> PendingOk(p, f.size))
    && ReplyOk(f, file)
  }

  // ---- What one walk over the pending list does ----

  // The ids of the waiting requests, and of the answers, in order.
  function PendingIds(ps: seq<Pending>): (r: seq<int>)
    ensures |r| == |ps| && forall i :: 0 <= i < |ps| ==> r[i] == ps[i].id
  {
    seq(|ps|, i requires 0 <= i < |ps| => ps[i].id)
  }

  function AnswerIds(xs: seq<Answer>): (r: seq<int>)
    ensures |r| == |xs| && forall i :: 0 <= i < |xs| ==> r[i] == xs[i].id
  {
    seq(|xs|, i requires 0 <= i < |xs| => xs[i].id)
  }

  // How often each request id waits, or is answered.
  function Waiting(ps: seq<Pending>): multiset<int> { multiset(PendingIds(ps)) }

  function Answered(xs: seq<Answer>): multiset<int> { multiset(AnswerIds(xs)) }

  lemma WaitingAppend(a: seq<Pending>, b: seq<Pending>)
    ensures Waiting(a + b) == Waiting(a) + Waiting(b)
  {
    assert PendingIds(a + b) == PendingIds(a) + PendingIds(b);
  }

  lemma AnsweredAppend(a: seq<Answer>, b: seq<Answer>)
    ensures Answered(a + b) == Answered(a) + Answered(b)
  {
    assert AnswerIds(a + b) == AnswerIds(a) + AnswerIds(b);
  }

  lemma WaitingRemove(ps: seq<Pending>, i: nat)
    requires i < |ps|
    ensures Waiting(ps) == Waiting(RemoveAt(ps, i)) + multiset{ps[i].id}
  {
    assert PendingIds(RemoveAt(ps, i)) == RemoveAt(PendingIds(ps), i);
    RemoveAtMultiset(PendingIds(ps), i);
  }

  lemma RefuseAllAnswers(ps: seq<Pending>)
    ensures Answered(RefuseAll(ps)) == Waiting(ps)
  {
    assert AnswerIds(RefuseAll(ps)) == PendingIds(ps);
  }

  // `a` answers one of `asked`: a refusal, or bytes of the file at the place
  // asked for, at least one and no more than asked for.
  predicate Justified(a: Answer, asked: seq<Pending>, file: Bytes) {
    exists p :: p in asked && p.id == a.id
                && (a.Data? ==> a.offset == p.offset && 0 < |a.bytes| <= p.length && IsSlice(file, a.offset, a.bytes))
  }

  // `p` is still waiting for (a clipped form of) one of `asked`.
  predicate StillAsked(p: Pending, asked: seq<Pending>) {
    exists q :: q in asked && p.id == q.id && p.offset == q.offset && p.length <= q.length
  }

  // Every request of `asked` is in exactly one place afterwards, and every
  // answer is right.
  predicate Settles(asked: seq<Pending>, ps: seq<Pending>, answers: seq<Answer>, file: Bytes) {
    && Waiting(asked) == Waiting(ps) + Answered(answers)
    && (forall p :: p in ps ==> StillAsked(p, asked))
    && (forall a :: a in answers ==> Justified(a, asked, file))
  }

  lemma SettlesMore(asked: seq<Pending>, i: nat, ps: seq<Pending>, a: Answer, rest: seq<Answer>, file: Bytes)
    requires i < |asked| && a.id == asked[i].id
    requires Justified(a, asked, file)
    requires Settles(RemoveAt(asked, i), ps, rest, file)
    ensures Settles(asked, ps, [a] + rest, file)
  {
    WaitingRemove(asked, i);
    RemoveAtMultiset(asked, i);
    AnsweredAppend([a], rest);
    assert AnswerIds([a]) == [a.id];
  }

  lemma MidIsSlice(f: Feed, file: Bytes, at: int, n: int)
    requires FeedOk(f, file) && InWindow(f, at) && 0 < n <= End(f) - at
    ensures |Mid(f.buf, at - f.bufStart, n)| == n
    ensures IsSlice(file, at, Mid(f.buf, at - f.bufStart, n))
  {
    SliceOfSlice(file, f.bufStart, f.buf, at - f.bufStart, at - f.bufStart + n);
  }

  lemma SettlesNothing(ps: seq<Pending>, file: Bytes)
    ensures Settles(ps, ps, [], file)
  {
  }

  lemma DropKeepsOk(f: Feed, i: nat, file: Bytes)
    requires FeedOk(f, file) && i < |f.pending|
    ensures FeedOk(Drop(f, i), file) && FeedOk(Take(f, i), file)
  {
    RemoveAtMultiset(f.pending, i);
  }

  lemma StreamFromOk(f: Feed, offset: int, file: Bytes)
    requires FeedOk(f, file) && f.local.None?
    ensures FeedOk(StreamFrom(f, offset), file)
  {
  }

  lemma AnswerJustified(f: Feed, i: nat, file: Bytes)
    requires FeedOk(f, file) && i < |f.pending| && InWindow(f, f.pending[i].offset)
    ensures Justified(AnswerFor(f, f.pending[i]), f.pending, file)
  {
    var p := f.pending[i];
    assert PendingOk(p, f.size);
    MidIsSlice(f, file, p.offset, AnswerSize(f, p));
  }

  lemma RefusalJustified(asked: seq<Pending>, i: nat, file: Bytes)
    requires i < |asked|
    ensures Justified(Refused(asked[i].id), asked, file)
  {
    assert asked[i] in asked;
  }

  // The invariant a walk keeps, stated apart so that the walk's own proof
  // reasons about the list only.
  lemma {:induction false} ServeLoopOk(f: Feed, i: nat, drained: bool, file: Bytes)
    requires FeedOk(f, file) && f.local.None? && i <= |f.pending|
    ensures var g := ServeLoop(f, i, drained).feed;
            FeedOk(g, file) && g.local.None? && g.size == f.size
    decreases |f.pending| - i
  {
    if i < |f.pending| {
      var p := f.pending[i];
      if Answerable(f, p, drained) {
        DropKeepsOk(f, i, file);
        ServeLoopOk(Take(f, i), i, drained, file);
      } else if InWindow(f, p.offset) || !drained {
        ServeLoopOk(f, i + 1, drained, file);
      } else if f.retriedAt != p.offset {
        StreamFromOk(f.(retriedAt := p.offset), p.offset, file);
      } else {
        DropKeepsOk(f, i, file);
        ServeLoopOk(Drop(f, i), i, drained, file);
      }
    }
  }

  // The walk settles the list it started from.
  lemma {:induction false} ServeLoopSettles(f: Feed, i: nat, drained: bool, file: Bytes)
    requires FeedOk(f, file) && f.local.None? && i <= |f.pending|
    ensures var r := ServeLoop(f, i, drained);
            Settles(f.pending, r.feed.pending, r.answers, file)
    decreases |f.pending| - i
  {
    hide Settles, Justified, FeedOk, Mid;
    if i == |f.pending| {
      SettlesNothing(f.pending, file);
    } else {
      var p := f.pending[i];
      DropKeepsOk(f, i, file);
      if Answerable(f, p, drained) {
        ServeLoopSettles(Take(f, i), i, drained, file);
        AnswerJustified(f, i, file);
        var r := ServeLoop(Take(f, i), i, drained);
        SettlesMore(f.pending, i, r.feed.pending, AnswerFor(f, p), r.answers, file);
      } else if InWindow(f, p.offset) || !drained {
        ServeLoopSettles(f, i + 1, drained, file);
      } else if f.retriedAt != p.offset {
        SettlesNothing(f.pending, file);
      } else {
        ServeLoopSettles(Drop(f, i), i, drained, file);
        RefusalJustified(f.pending, i, file);
        var r := ServeLoop(Drop(f, i), i, drained);
        SettlesMore(f.pending, i, r.feed.pending, Refused(p.id), r.answers, file);
      }
    }
  }

  // Trimming drops only bytes before every waiting request, and what is left
  // is still the file from the new window start on.
  lemma TrimKeepsPending(f: Feed, file: Bytes)
    requires FeedOk(f, file)
    ensures var g := Trim(f);
            && FeedOk(g, file) && End(g) == End(f) && g.pending == f.pending && g.reply == f.reply
            && f.bufStart <= g.bufStart
            && (g.bufStart > f.bufStart ==> forall p :: p in g.pending ==> g.bufStart <= p.offset)
            && forall p :: p in f.pending && InWindow(f, p.offset) ==> InWindow(g, p.offset)
  {
    var k := KeepFrom(f.readerAt - KEEP_BEHIND, f.pending);
    var drop := Clamp(k - f.bufStart, 0, |f.buf|);
    if drop >= WINDOW / 4 {
      SliceOfSlice(file, f.bufStart, f.buf, drop, |f.buf|);
    }
  }

  lemma ServeSettles(f: Feed, file: Bytes)
    requires FeedOk(f, file) && f.local.None?
    ensures FeedOk(Serve(f).feed, file) && Serve(f).feed.size == f.size && Serve(f).feed.local.None?
    ensures Settles(f.pending, Serve(f).feed.pending, Serve(f).answers, file)
  {
    ServeLoopSettles(f, 0, Drained(f), file);
    ServeLoopOk(f, 0, Drained(f), file);
    var pass := ServeLoop(f, 0, Drained(f));
    TrimKeepsPending(pass.feed, file);
  }

  lemma FillOk(f: Feed, file: Bytes)
    requires FeedOk(f, file) && f.reply.Some? && f.checked
    ensures FeedOk(Fill(f), file)
  {
    var r := f.reply.value;
    if |f.buf| < WINDOW && |r.available| > 0 {
      var n := Min(WINDOW - |f.buf|, |r.available|);
      FillBytes(f.bufStart, f.buf, r.available, n, file);
      var s := r.(available := r.available[n..], served := r.served + n);
      assert Honest(s, file);
      assert Fill(f).reply == Some(s);
      assert ReplyOk(Fill(f), file);
    }
  }

  // Reading n more bytes of a reply that continues the buffer.
  lemma FillBytes(start: int, buf: Bytes, more: Bytes, n: nat, file: Bytes)
    requires buf != [] ==> IsSlice(file, start, buf)
    requires IsSlice(file, start + |buf|, more) && 0 < n <= |more|
    ensures IsSlice(file, start, buf + more[..n])
    ensures IsSlice(file, start + |buf| + n, more[n..])
  {
    SliceOfSlice(file, start + |buf|, more, 0, n);
    SliceOfSlice(file, start + |buf|, more, n, |more|);
    if buf != [] {
      SliceAppend(file, start, buf, more[..n]);
    } else {
      assert buf + more[..n] == more[..n];
    }
  }

  lemma OnHttpDataSettles(f: Feed, file: Bytes)
    requires FeedOk(f, file)
    ensures FeedOk(OnHttpData(f).feed, file) && OnHttpData(f).feed.size == f.size
    ensures Settles(f.pending, OnHttpData(f).feed.pending, OnHttpData(f).answers, file)
  {
    hide Serve, RefuseAll;
    if f.reply.None? {
    } else if !f.checked && !StartsAtBuffer(f.reply.value, f.bufStart) {
      RejectSettles(f.pending, file);
    } else {
      var g := f.(checked := true);
      FillOk(g, file);
      hide Settles;
      ServeSettles(Fill(g), file);
    }
  }

  // Refusing every request at once settles them all.
  lemma RejectSettles(ps: seq<Pending>, file: Bytes)
    ensures Settles(ps, [], RefuseAll(ps), file)
  {
    RefuseAllAnswers(ps);
    forall a | a in RefuseAll(ps) ensures Justified(a, ps, file) {
      var i :| 0 <= i < |ps| && a == RefuseAll(ps)[i];
      assert ps[i] in ps;
    }
  }

  // An error page, whatever its body: the network may well bring it, it
  // refuses everything that waits, and none of its bytes is kept.
  lemma ErrorPageRefuses(f: Feed, page: Reply, file: Bytes)
    requires FeedOk(f, file) && f.reply.Some? && f.reply.value.status == 0 && !StatesStart(page) && page.served == 0
    ensures NetworkMay(f.reply, Some(page), file)
    ensures var r := OnHttpData(f.(reply := Some(page)));
            r.answers == RefuseAll(f.pending) && r.feed.pending == [] && r.feed.buf == []
  {
  }

  // ---- Requests ----

  lemma SettlesClipped(ps: seq<Pending>, p: Pending, q: Pending, ps': seq<Pending>, answers: seq<Answer>, file: Bytes)
    requires Settles(ps + [p], ps', answers, file)
    requires p.id == q.id && p.offset == q.offset && p.length <= q.length
    ensures Settles(ps + [q], ps', answers, file)
  {
    assert PendingIds(ps + [p]) == PendingIds(ps + [q]);
    forall x | x in ps' ensures StillAsked(x, ps + [q]) {
      var y :| y in ps + [p] && x.id == y.id && x.offset == y.offset && x.length <= y.length;
      assert (if y == p then q else y) in ps + [q];
    }
    forall a | a in answers ensures Justified(a, ps + [q], file) {
      var y :| y in ps + [p] && y.id == a.id
               && (a.Data? ==> a.offset == y.offset && 0 < |a.bytes| <= y.length && IsSlice(file, a.offset, a.bytes));
      assert (if y == p then q else y) in ps + [q];
    }
  }

  lemma AnsweredAtOnce(ps: seq<Pending>, q: Pending, a: Answer, file: Bytes)
    requires a.id == q.id && Justified(a, [q], file)
    ensures Settles(ps + [q], ps, [a], file)
  {
    WaitingAppend(ps, [q]);
    assert PendingIds([q]) == [q.id] && AnswerIds([a]) == [a.id];
    assert q in ps + [q];
  }

  lemma LocalReadJustified(f: Feed, q: Pending, diskGives: nat, file: Bytes)
    requires FeedOk(f, file) && f.local.Some? && Acceptable(f, q.offset, q.length)
    ensures var bytes := Mid(f.local.value, q.offset, Min(Min(q.length, f.size - q.offset), diskGives));
            Justified(if bytes == [] then Refused(q.id) else Data(q.id, q.offset, bytes), [q], file)
  {
    assert q in [q];
  }

  // A request is answered at once, refused at once, or joins the list (clipped
  // to the end of the file); nothing that waited before is lost.
  lemma RequestSettles(f: Feed, id: int, offset: int, length: int, diskGives: nat, file: Bytes)
    requires FeedOk(f, file)
    ensures var r := Request(f, id, offset, length, diskGives);
            && FeedOk(r.feed, file) && r.feed.size == f.size
            && Settles(f.pending + [Pending(id, offset, length)], r.feed.pending, r.answers, file)
  {
    hide Settles, Justified, Mid, ServeLoop, IsSlice;
    var q := Pending(id, offset, length);
    if !Acceptable(f, offset, length) {
      RefusalJustified([q], 0, file);
      AnsweredAtOnce(f.pending, q, Refused(id), file);
    } else if f.local.Some? {
      LocalReadJustified(f, q, diskGives, file);
      var bytes := Mid(f.local.value, offset, Min(Min(length, f.size - offset), diskGives));
      AnsweredAtOnce(f.pending, q, if bytes == [] then Refused(id) else Data(id, offset, bytes), file);
    } else {
      var p := Pending(id, offset, Min(length, f.size - offset));
      var g := f.(pending := f.pending + [p]);
      assert FeedOk(g, file);
      if InWindow(f, offset) || (f.reply.Some? && End(f) <= offset <= End(f) + NEAR_AHEAD) {
        ServeSettles(g, file);
        SettlesClipped(f.pending, p, q, Serve(g).feed.pending, Serve(g).answers, file);
      } else {
        StreamFromOk(g, offset, file);
        SettlesNothing(g.pending, file);
        SettlesClipped(f.pending, p, q, g.pending, [], file);
      }
    }
  }

  lemma NetworkKeepsOk(f: Feed, reply: Option<Reply>, file: Bytes)
    requires FeedOk(f, file) && NetworkMay(f.reply, reply, file)
    ensures FeedOk(f.(reply := reply), file)
  {
  }

  // ---- Retry termination ----

  // Two for every waiting request, one more while the first has its retry left.
  function Measure(f: Feed): nat {
    if f.pending == [] then 0
    else 2 * |f.pending| + if f.retriedAt != f.pending[0].offset then 1 else 0
  }

  // A walk never raises the measure.
  lemma {:induction false} ServeLoopMeasure(f: Feed, i: nat, drained: bool)
    requires i <= |f.pending| && (drained ==> i == 0)
    ensures Measure(ServeLoop(f, i, drained).feed) <= Measure(f)
    decreases |f.pending| - i
  {
    if i < |f.pending| {
      var p := f.pending[i];
      if Answerable(f, p, drained) {
        ServeLoopMeasure(Take(f, i), i, drained);
      } else if InWindow(f, p.offset) || !drained {
        ServeLoopMeasure(f, i + 1, drained);
      } else if f.retriedAt == p.offset {
        ServeLoopMeasure(Drop(f, i), i, drained);
      }
    }
  }

  // A walk over a drained reply lowers it, as long as anything waits.
  lemma DrainedLowersMeasure(f: Feed)
    requires f.pending != []
    ensures Measure(ServeLoop(f, 0, true).feed) < Measure(f)
  {
    var p := f.pending[0];
    if Answerable(f, p, true) {
      ServeLoopMeasure(Take(f, 0), 0, true);
    } else if f.retriedAt == p.offset {
      ServeLoopMeasure(Drop(f, 0), 0, true);
    }
  }

  // The state onHttpData serves from, when it gets that far.
  predicate IsDrainedPass(f: Feed) {
    f.reply.Some? && (f.checked || StartsAtBuffer(f.reply.value, f.bufStart)) && Drained(Fill(f.(checked := true)))
  }

  lemma OnHttpDataMeasure(f: Feed)
    ensures Measure(OnHttpData(f).feed) <= Measure(f)
    ensures IsDrainedPass(f) && f.pending != [] ==> Measure(OnHttpData(f).feed) < Measure(f)
  {
    if f.reply.Some? && (f.checked || StartsAtBuffer(f.reply.value, f.bufStart)) {
      var g := Fill(f.(checked := true));
      ServeLoopMeasure(g, 0, Drained(g));
      if IsDrainedPass(f) && f.pending != [] {
        DrainedLowersMeasure(g);
      }
    }
  }

  // The network sets the reply to replies[0], the feed handles it, and so on.
  function RunPasses(f: Feed, replies: seq<Option<Reply>>): Feed
    decreases |replies|
  {
    if replies == [] then f
    else RunPasses(OnHttpData(f.(reply := replies[0])).feed, replies[1..])
  }

  function DrainedPasses(f: Feed, replies: seq<Option<Reply>>): nat
    decreases |replies|
  {
    if replies == [] then 0
    else (if IsDrainedPass(f.(reply := replies[0])) then 1 else 0)
         + DrainedPasses(OnHttpData(f.(reply := replies[0])).feed, replies[1..])
  }

  lemma {:induction false} PassesSpendMeasure(f: Feed, replies: seq<Option<Reply>>)
    ensures RunPasses(f, replies).pending == []
            || (f.pending != [] && Measure(RunPasses(f, replies)) + DrainedPasses(f, replies) <= Measure(f))
    decreases |replies|
  {
    hide OnHttpData, IsDrainedPass;
    if replies != [] {
      var g := f.(reply := replies[0]);
      OnHttpDataMeasure(g);
      PassesSpendMeasure(OnHttpData(g).feed, replies[1..]);
    }
  }

  // With no new requests, and whatever the network does in between, twice as
  // many drained passes as there are waiting requests answer every one of them.
  lemma RetriesEnd(f: Feed, replies: seq<Option<Reply>>)
    requires DrainedPasses(f, replies) >= 2 * |f.pending|
    ensures RunPasses(f, replies).pending == []
  {
    PassesSpendMeasure(f, replies);
  }
}

// The object itself: the same fields and the same loops, each method proved
// to do what the specification above says.
module MediaFeedObject {
  import opened Common
  import opened MediaFeedSpec

  class MediaFeed {
    var size: int
    var local: Option<Bytes>
    var reply: Option<Reply>
    var checked: bool
    var retriedAt: int
    var buf: Bytes
    var bufStart: int
    var readerAt: int
    var pending: seq<Pending>
    var emitted: seq<Answer>   // the data and refused signals, oldest first

    ghost function State(): Feed
      reads this
    {
      Feed(size, local, reply, checked, retriedAt, buf, bufStart, readerAt, pending)
    }

    constructor (source: Option<Bytes>)
      ensures State() == Fresh(source) && emitted == []
    {
      size, local, reply, checked, retriedAt := -1, source, None, false, -1;
      buf, bufStart, readerAt, pending, emitted := [], 0, 0, [], [];
    }

    method Request(id: int, offset: int, length: int, diskGives: nat)
      modifies this
      ensures State() == MediaFeedSpec.Request(old(State()), id, offset, length, diskGives).feed
      ensures emitted == old(emitted) + MediaFeedSpec.Request(old(State()), id, offset, length, diskGives).answers
    {
      if size < 0 || offset < 0 || offset >= size || length <= 0 || length > MAX_REQUEST || |pending| >= MAX_PENDING {
        emitted := emitted + [Refused(id)];
        return;
      }
      var n := Min(length, size - offset);
      if local.Some? {
        var bytes := Mid(local.value, offset, Min(n, diskGives));
        emitted := emitted + [if bytes == [] then Refused(id) else Data(id, offset, bytes)];
        return;
      }
      pending := pending + [Pending(id, offset, n)];
      var bufEnd := bufStart + |buf|;
      var inWindow := bufStart <= offset < bufEnd;
      var comingSoon := reply.Some? && bufEnd <= offset <= bufEnd + NEAR_AHEAD;
      if inWindow || comingSoon {
        ServePending();
      } else {
        StreamFrom(offset);
      }
    }

    method StreamFrom(offset: int)
      modifies this
      ensures State() == MediaFeedSpec.StreamFrom(old(State()), offset) && emitted == old(emitted)
    {
      buf := [];
      bufStart := offset;
      readerAt := offset;
      checked := false;
      reply := Some(Reply(0, None, 0, 0, [], false));
    }

    method ReplyStartsAtBuffer() returns (ok: bool)
      requires reply.Some?
      modifies this
      ensures ok <==> old(checked) || StartsAtBuffer(old(reply).value, old(bufStart))
      ensures ok ==> State() == old(State()).(checked := true) && emitted == old(emitted)
      ensures !ok ==> State() == RejectReply(old(State())).feed
                      && emitted == old(emitted) + RejectReply(old(State())).answers
    {
      if checked {
        return true;
      }
      hide RefuseAll;
      var status := reply.value.status;
      ok := status == 200 && bufStart == 0;
      if status == 206 {
        ok := reply.value.rangeStart == Some(bufStart);
      }
      if !ok {
        reply := Some(reply.value.(finished := true));
        ghost var refused := RefuseAll(pending);
        var i := 0;
        while i < |pending|
          invariant 0 <= i <= |pending|
          invariant State() == old(State()).(reply := reply) && reply == Some(old(reply).value.(finished := true))
          invariant emitted == old(emitted) + refused[..i]
        {
          assert refused[..i + 1] == refused[..i] + [Refused(pending[i].id)];
          emitted := emitted + [Refused(pending[i].id)];
          i := i + 1;
        }
        assert refused[..|pending|] == refused;
        pending := [];
        return false;
      }
      checked := true;
    }

    method OnHttpData()
      modifies this
      ensures State() == MediaFeedSpec.OnHttpData(old(State())).feed
      ensures emitted == old(emitted) + MediaFeedSpec.OnHttpData(old(State())).answers
    {
      if reply.None? {
        return;
      }
      var ok := ReplyStartsAtBuffer();
      if !ok {
        return;
      }
      ghost var before := State();
      while |buf| < WINDOW && |reply.value.available| > 0
        invariant reply.Some? && emitted == old(emitted)
        invariant Fill(State()) == Fill(before)
        invariant State() == before || State() == Fill(before)
        decreases |reply.value.available|
      {
        var n := Min(WINDOW - |buf|, |reply.value.available|);
        buf := buf + reply.value.available[..n];
        reply := Some(reply.value.(available := reply.value.available[n..], served := reply.value.served + n));
      }
      ServePending();
    }

    // What is left to do from here completes what the whole pass does.
    static ghost predicate LeadsTo(rest: Pass, soFar: seq<Answer>, all: Pass, before: seq<Answer>) {
      rest.feed == all.feed && rest.restreamed == all.restreamed && soFar + rest.answers == before + all.answers
    }

    static lemma Begins(all: Pass, before: seq<Answer>)
      ensures LeadsTo(all, before, all, before)
    {
    }

    // One more request answered ...
    static lemma TookOne(was: Feed, i: nat, drained: bool, soFar: seq<Answer>, all: Pass, before: seq<Answer>)
      requires i < |was.pending| && Answerable(was, was.pending[i], drained)
      requires LeadsTo(ServeLoop(was, i, drained), soFar, all, before)
      ensures LeadsTo(ServeLoop(Take(was, i), i, drained), soFar + [AnswerFor(was, was.pending[i])], all, before)
    {
      ServeLoopTurn(was, i, drained);
      hide ServeLoop, AnswerFor, Answerable, Take, Drop;
    }

    // ... or left waiting ...
    static lemma SkippedOne(was: Feed, i: nat, drained: bool, soFar: seq<Answer>, all: Pass, before: seq<Answer>)
      requires i < |was.pending| && !Answerable(was, was.pending[i], drained)
      requires InWindow(was, was.pending[i].offset) || !drained
      requires LeadsTo(ServeLoop(was, i, drained), soFar, all, before)
      ensures LeadsTo(ServeLoop(was, i + 1, drained), soFar, all, before)
    {
      ServeLoopTurn(was, i, drained);
      hide ServeLoop, Answerable;
    }

    // ... or refused.
    static lemma DroppedOne(was: Feed, i: nat, soFar: seq<Answer>, all: Pass, before: seq<Answer>)
      requires i < |was.pending|
      requires !InWindow(was, was.pending[i].offset) && was.retriedAt == was.pending[i].offset
      requires LeadsTo(ServeLoop(was, i, true), soFar, all, before)
      ensures LeadsTo(ServeLoop(Drop(was, i), i, true), soFar + [Refused(was.pending[i].id)], all, before)
    {
      ServeLoopTurn(was, i, true);
      hide ServeLoop, AnswerFor, Take, Drop;
    }

    // The pass ends with a new stream, or with the whole list walked.
    static lemma Restreams(was: Feed, i: nat, soFar: seq<Answer>, all: Pass, before: seq<Answer>)
      requires i < |was.pending|
      requires !InWindow(was, was.pending[i].offset) && was.retriedAt != was.pending[i].offset
      requires LeadsTo(ServeLoop(was, i, true), soFar, all, before)
      ensures var at := was.pending[i].offset;
              all.feed == MediaFeedSpec.StreamFrom(was.(retriedAt := at), at) && all.restreamed && soFar == before + all.answers
    {
      ServeLoopTurn(was, i, true);
      hide ServeLoop, MediaFeedSpec.StreamFrom;
    }

    static lemma Walked(was: Feed, drained: bool, soFar: seq<Answer>, all: Pass, before: seq<Answer>)
      requires LeadsTo(ServeLoop(was, |was.pending|, drained), soFar, all, before)
      ensures all.feed == was && !all.restreamed && soFar == before + all.answers
    {
      ServeLoopEnd(was, drained);
      hide ServeLoop;
    }

    method ServePending()
      modifies this
      ensures State() == Serve(old(State())).feed
      ensures emitted == old(emitted) + Serve(old(State())).answers
    {
      hide ServeLoop, Mid, Trim, LeadsTo, MediaFeedSpec.StreamFrom;
      var drained := reply.None? || (reply.value.finished && reply.value.available == []);
      var bufEnd := bufStart + |buf|;
      ghost var all := ServeLoop(State(), 0, drained);
      Begins(all, emitted);
      var i := 0;
      while i < |pending|
        invariant 0 <= i <= |pending|
        invariant bufEnd == bufStart + |buf|
        invariant LeadsTo(ServeLoop(State(), i, drained), emitted, all, old(emitted))
        decreases |pending| - i
      {
        var p := pending[i];
        ghost var was, soFar := State(), emitted;
        if p.offset >= bufStart && p.offset < bufEnd {
          var n := Min(p.length, bufEnd - p.offset);
          if n >= Min(p.length, MIN_ANSWER) || drained || p.offset + n >= size {
            TookOne(was, i, drained, soFar, all, old(emitted));
            pending := RemoveAt(pending, i);
            retriedAt := -1;
            readerAt := p.offset + n;
            emitted := emitted + [Data(p.id, p.offset, Mid(buf, p.offset - bufStart, n))];
            assert State() == Take(was, i);
            assert emitted == soFar + [AnswerFor(was, p)];
            continue;
          }
        } else if drained {
          if retriedAt != p.offset {
            Restreams(was, i, soFar, all, old(emitted));
            retriedAt := p.offset;
            StreamFrom(p.offset);
            return;
          }
          DroppedOne(was, i, soFar, all, old(emitted));
          pending := RemoveAt(pending, i);
          emitted := emitted + [Refused(p.id)];
          assert State() == Drop(was, i);
          continue;
        }
        SkippedOne(was, i, drained, soFar, all, old(emitted));
        i := i + 1;
      }
      Walked(State(), drained, emitted, all, old(emitted));
      TrimBuffer();
    }

    method TrimBuffer()
      modifies this
      ensures State() == Trim(old(State())) && emitted == old(emitted)
    {
      var keepFrom := readerAt - KEEP_BEHIND;
      var i := 0;
      while i < |pending|
        invariant 0 <= i <= |pending|
        invariant KeepFrom(keepFrom, pending[i..]) == KeepFrom(readerAt - KEEP_BEHIND, pending)
      {
        keepFrom := Min(keepFrom, pending[i].offset);
        i := i + 1;
      }
      var drop := Clamp(keepFrom - bufStart, 0, |buf|);
      if drop < WINDOW / 4 {
        return;
      }
      buf := buf[drop..];
      bufStart := bufStart + drop;
    }
  }
}
