// That reads get through: from opening a source to the bytes of a read, across
// both processes, for a file on disk and for a stream.
// Source: src/bridges/isolatedmediaplayer.cpp, src/ipc/mediahost.cpp,
// src/ipc/mediafeed.cpp, src/ipc/remotesource.cpp.
module MediaProgress {
  import opened Common
  import opened MediaPipeline
  import F = MediaFeedSpec
  import R = RemoteSourceSpec
  import W = MediaWindow
  import D = MediaDevice

  const MIB := 1024 * 1024

  lemma RunFirst(s: System, a: Action, more: seq<Action>)
    ensures Run(s, [a] + more) == Run(Act(s, a), more)
  {
    assert ([a] + more)[1..] == more;
  }

  lemma RunNone(s: System)
    ensures Run(s, []) == s
  {
  }

  // A request of this size is neither cut to 32 bits nor refused.
  predicate Fair(file: Bytes, at: nat, maxSize: int) {
    at < |file| < 0x8000_0000 && 0 < maxSize && (maxSize <= 4 * MIB || |file| - at <= 4 * MIB)
  }

  // What the device asks for.
  function Want(file: Bytes, at: nat, maxSize: int): int { Min(Max(maxSize, MIB), |file| - at) }

  // ---- Opening ----

  // A feed that knows its size, and a device as large.
  predicate Opened(s: System, file: Bytes, isLocal: bool) {
    s == System(Player(1, Some(F.Fresh(if isLocal then Some(file) else None).(size := |file|))),
                Child(1, Some(R.Fresh(|file|))), [], [], [], map[1 := file], [])
  }

  const OPENING := [FeedReady, ChildReceives]

  lemma SourceOpens(file: Bytes, isLocal: bool)
    requires file != []
    ensures Opened(Run(INIT, [StartFeed(file, isLocal)] + OPENING), file, isLocal)
  {
    var s := Act(INIT, StartFeed(file, isLocal));
    var t := Act(s, FeedReady);
    assert t.toChild == [Open(1, |file|)];
    var u := Act(t, ChildReceives);
    RunFirst(INIT, StartFeed(file, isLocal), OPENING);
    assert OPENING == [FeedReady] + [ChildReceives] && [ChildReceives] == [ChildReceives] + [];
    RunFirst(s, FeedReady, [ChildReceives]);
    RunFirst(t, ChildReceives, []);
    RunNone(u);
    assert INIT.files[1 := file] == map[1 := file];
  }

  // An empty file is told by its size, an empty stream is a failure and not told;
  // no device is made for either.
  lemma EmptyOpens(isLocal: bool)
    ensures var s := Run(INIT, [StartFeed([], isLocal)] + OPENING);
            && s.player.feed.Some? && s.player.feed.value.size == (if isLocal then 0 else -1)
            && s.child.device.None? && s.toChild == []
  {
    var s := Act(INIT, StartFeed([], isLocal));
    var t := Act(s, FeedReady);
    assert t.toChild == if isLocal then [Open(1, 0)] else [];
    RunFirst(INIT, StartFeed([], isLocal), OPENING);
    assert OPENING == [FeedReady] + [ChildReceives] && [ChildReceives] == [ChildReceives] + [];
    RunFirst(s, FeedReady, [ChildReceives]);
    RunFirst(t, ChildReceives, []);
    RunNone(Act(t, ChildReceives));
  }

  // ---- Asking ----

  // The read has asked, and sleeps; its question is at the player.
  function Asking(s: System, reader: int, at: nat, want: int): System
    requires s.child.device.Some?
  {
    var d := s.child.device.value;
    s.(child := s.child.(device := Some(d.(pending := [R.Req(1, at, want)], nextId := 2, waiting := map[reader := at]))),
       toUi := [Read(1, 1, at, want)])
  }

  lemma ReadAsks(s: System, file: Bytes, isLocal: bool, reader: int, at: nat, maxSize: int)
    requires Opened(s, file, isLocal) && Fair(file, at, maxSize)
    ensures Run(s, [Reads(reader, at, maxSize), Reads(reader, at, maxSize), ChildPosts(0)])
            == Asking(s, reader, at, Want(file, at, maxSize))
  {
    var a := Reads(reader, at, maxSize);
    var d, r := s.child.device.value, R.Req(1, at, Want(file, at, maxSize));
    D.AsksOrSleeps(d, reader, at, maxSize);
    var t := Act(s, a);
    var e := t.child.device.value;
    assert e == d.(pending := [r], nextId := 2) && t.posted == [Read(1, 1, at, r.length)];
    assert D.Coming(e.pending, at) by { assert e.pending[0] == r; }
    D.AsksOrSleeps(e, reader, at, maxSize);
    hide R.Attempt;
    var u := Act(t, a);
    assert d.waiting[reader := at] == map[reader := at];
    assert [a, a, ChildPosts(0)] == [a] + ([a] + ([ChildPosts(0)] + []));
    RunFirst(s, a, [a] + ([ChildPosts(0)] + []));
    RunFirst(t, a, [ChildPosts(0)] + []);
    RunFirst(u, ChildPosts(0), []);
    RunNone(Act(u, ChildPosts(0)));
  }

  // ---- The answer ----

  // The device that sleeps on its first request, and the one that has its answer.
  function Sleeping(file: Bytes, reader: int, at: nat, want: int): R.Device {
    R.Fresh(|file|).(pending := [R.Req(1, at, want)], nextId := 2, waiting := map[reader := at])
  }

  function Answered(file: Bytes, at: nat, bytes: Bytes): R.Device {
    R.Fresh(|file|).(nextId := 2, cache := [R.Chunk(at, bytes)], cacheBytes := |bytes|)
  }

  lemma DeviceAnswered(file: Bytes, reader: int, at: nat, maxSize: int)
    requires Fair(file, at, maxSize)
    ensures var want := Want(file, at, maxSize);
            R.Deliver(Sleeping(file, reader, at, want), 1, at, file[at..at + want])
            == Answered(file, at, file[at..at + want])
  {
    var want := Want(file, at, maxSize);
    var d, c := Sleeping(file, reader, at, want), R.Chunk(at, file[at..at + want]);
    assert [c][0..] == [c] && [c][1..] == [] && d.cache + [c] == [c];
    assert D.Size([c]) == want;
    D.Delivered(d, 0, 1, at, c.bytes, 0);
    assert d.pending[..0] + d.pending[1..] == [];
  }

  lemma OneEvent(d: R.Device, e: R.Event)
    ensures R.Runs(d, [e]) == R.Happens(d, e)
  {
    hide R.Happens;
    assert [e][1..] == [];
    assert R.Runs(d, [e]) == R.Runs(R.Happens(d, e), []);
  }

  lemma TwoEvents(d: R.Device, e: R.Event, f: R.Event)
    ensures R.Runs(d, [e, f]) == R.Happens(R.Happens(d, e), f)
  {
    OneEvent(R.Happens(d, e), f);
    hide R.Happens;
    assert [e, f][1..] == [f];
  }

  // The device alone: a reader asks and sleeps, and takes no turn while it does; then
  // comes the answer, or a failure, an abort or the reader's deadline.
  lemma DeviceRuns(file: Bytes, reader: int, at: nat, maxSize: int)
    requires Fair(file, at, maxSize)
    ensures var want := Want(file, at, maxSize);
            var turn, d := R.Turns(reader, at, maxSize), Sleeping(file, reader, at, want);
            && R.Runs(R.Fresh(|file|), [turn, turn]) == d
            && R.Runs(d, [turn, R.Delivers(1, at, file[at..at + want])]) == Answered(file, at, file[at..at + want])
            && R.Runs(d, [turn, R.Fails(1)]) == d.(pending := [], failed := true, waiting := map[])
            && R.Runs(d, [turn, R.Aborts]) == d.(aborted := true, waiting := map[])
            && R.Runs(d, [turn, R.Deadline(reader)]) == d.(waiting := map[])
  {
    var want := Want(file, at, maxSize);
    var turn, d := R.Turns(reader, at, maxSize), Sleeping(file, reader, at, want);
    TurnsTwice(file, reader, at, maxSize);
    TwoEvents(R.Fresh(|file|), turn, turn);
    DeviceAnswered(file, reader, at, maxSize);
    TwoEvents(d, turn, R.Delivers(1, at, file[at..at + want]));
    TwoEvents(d, turn, R.Fails(1));
    TwoEvents(d, turn, R.Aborts);
    TwoEvents(d, turn, R.Deadline(reader));
    D.FailedOrNot(d, 1, 0);
    assert d.pending[..0] + d.pending[1..] == [];
    D.DeadlineWakesOne(d, reader);
    hide R.Runs, R.Attempt, R.Deliver, R.Fail, R.Abort, R.TimesOut;
    assert R.TimesOut(d, reader).waiting == map[];
  }

  lemma TurnsTwice(file: Bytes, reader: int, at: nat, maxSize: int)
    requires Fair(file, at, maxSize)
    ensures var turn := R.Turns(reader, at, maxSize);
            R.Happens(R.Happens(R.Fresh(|file|), turn), turn) == Sleeping(file, reader, at, Want(file, at, maxSize))
  {
    var d, r := R.Fresh(|file|), R.Req(1, at, Want(file, at, maxSize));
    D.AsksOrSleeps(d, reader, at, maxSize);
    var e := d.(pending := [r], nextId := 2);
    assert d.pending + [r] == [r];
    assert D.Coming(e.pending, at) by { assert e.pending[0] == r; }
    D.AsksOrSleeps(e, reader, at, maxSize);
    hide R.Attempt;
    assert d.waiting[reader := at] == map[reader := at];
  }

  lemma DeviceReads(file: Bytes, reader: int, at: nat, maxSize: int)
    requires Fair(file, at, maxSize)
    ensures var e := Answered(file, at, file[at..at + Want(file, at, maxSize)]);
            R.Attempt(e, reader, at, maxSize) == R.Step(e, R.Got(file[at..at + Min(maxSize, |file| - at)]))
  {
    var bytes := file[at..at + Want(file, at, maxSize)];
    var e := Answered(file, at, bytes);
    D.Sizes(e.cache);
    assert e.cache[1..] == [] && D.Size(e.cache) == |bytes|;
    D.GotExactly(e, reader, at, maxSize, file, 0);
    assert bytes[0..Min(maxSize, |bytes|)] == file[at..at + Min(maxSize, |file| - at)];
  }

  // The bytes arrive: the reader is woken and its next turn gets them.
  lemma AnswerIsRead(s: System, file: Bytes, reader: int, at: nat, maxSize: int)
    requires Fair(file, at, maxSize) && s.child.gen == 1 && s.results == []
    requires var want := Want(file, at, maxSize);
             && s.child.device == Some(Sleeping(file, reader, at, want))
             && s.toChild == [Data(1, 1, at, file[at..at + want])]
    ensures Run(s, [ChildReceives, Reads(reader, at, maxSize)]).results
            == [ReadLog(1, at, maxSize, file[at..at + Min(maxSize, |file| - at)])]
  {
    AnswerTaken(s, file, reader, at, maxSize);
    DeviceReads(file, reader, at, maxSize);
    var a := Reads(reader, at, maxSize);
    var t := Act(s, ChildReceives);
    hide *;
    RunFirst(s, ChildReceives, [a]);
    assert [ChildReceives] + [a] == [ChildReceives, a];
    TurnGets(t, t.child.device.value, file, reader, at, maxSize);
  }

  lemma AnswerTaken(s: System, file: Bytes, reader: int, at: nat, maxSize: int)
    requires Fair(file, at, maxSize) && s.child.gen == 1
    requires var want := Want(file, at, maxSize);
             && s.child.device == Some(Sleeping(file, reader, at, want))
             && s.toChild == [Data(1, 1, at, file[at..at + want])]
    ensures Act(s, ChildReceives).results == s.results && Act(s, ChildReceives).child.gen == s.child.gen
    ensures Act(s, ChildReceives).child.device == Some(Answered(file, at, file[at..at + Want(file, at, maxSize)]))
  {
    DeviceAnswered(file, reader, at, maxSize);
    hide R.Deliver;
  }

  lemma TurnGets(t: System, e: R.Device, file: Bytes, reader: int, at: nat, maxSize: int)
    requires Fair(file, at, maxSize) && t.child == Child(1, Some(e)) && t.results == [] && reader !in e.waiting
    requires R.Attempt(e, reader, at, maxSize) == R.Step(e, R.Got(file[at..at + Min(maxSize, |file| - at)]))
    ensures Run(t, [Reads(reader, at, maxSize)]).results
            == [ReadLog(1, at, maxSize, file[at..at + Min(maxSize, |file| - at)])]
  {
    hide R.Attempt;
    var a := Reads(reader, at, maxSize);
    assert [a] == [a] + [];
    RunFirst(t, a, []);
    RunNone(Act(t, a));
  }

  // ---- A file on disk ----

  lemma {:induction false} RunAppend(s: System, a: seq<Action>, b: seq<Action>)
    ensures Run(s, a + b) == Run(Run(s, a), b)
    decreases |a|
  {
    hide Act;
    if a == [] {
      assert a + b == b;
    } else {
      assert (a + b)[1..] == a[1..] + b;
      RunAppend(Act(s, a[0]), a[1..], b);
    }
  }

  function ReadSteps(reader: int, at: nat, maxSize: int): seq<Action> {
    [Reads(reader, at, maxSize), Reads(reader, at, maxSize), ChildPosts(0)]
  }

  lemma DiskAnswers(s: System, file: Bytes, reader: int, at: nat, maxSize: int, diskGives: nat)
    requires Opened(s, file, true) && Fair(file, at, maxSize) && diskGives >= Want(file, at, maxSize)
    ensures var t := Asking(s, reader, at, Want(file, at, maxSize)); var u := Run(t, [UiReceives(diskGives)]);
            && u.toChild == [Data(1, 1, at, file[at..at + Want(file, at, maxSize)])]
            && u.child == t.child && u.results == []
  {
    var want := Want(file, at, maxSize);
    var t := Asking(s, reader, at, want);
    var f := t.player.feed.value;
    W.RequestDoes(f, 1, at, want, diskGives);
    hide F.Request;
    var u := Act(t, UiReceives(diskGives));
    assert Messages(1, [F.Data(1, at, file[at..at + want])]) == [Data(1, 1, at, file[at..at + want])];
    RunFirst(t, UiReceives(diskGives), []);
    RunNone(u);
    assert [UiReceives(diskGives)] + [] == [UiReceives(diskGives)];
  }

  // A file is opened, its size told, the device made; a read asks and sleeps, its
  // request is sent and answered from the disk; the reader wakes and has all it
  // asked for, as far as the file goes.
  lemma FileIsRead(file: Bytes, reader: int, at: nat, maxSize: int, diskGives: nat)
    requires Fair(file, at, maxSize) && diskGives >= Want(file, at, maxSize)
    ensures Run(INIT, [StartFeed(file, true)] + OPENING + ReadSteps(reader, at, maxSize) + [UiReceives(diskGives)]
                      + [ChildReceives, Reads(reader, at, maxSize)]).results
            == [ReadLog(1, at, maxSize, file[at..at + Min(maxSize, |file| - at)])]
  {
    var open, ask := [StartFeed(file, true)] + OPENING, ReadSteps(reader, at, maxSize);
    var ui, end := [UiReceives(diskGives)], [ChildReceives, Reads(reader, at, maxSize)];
    SourceOpens(file, true);
    var s := Run(INIT, open);
    ReadAsks(s, file, true, reader, at, maxSize);
    DiskAnswers(s, file, reader, at, maxSize, diskGives);
    RunAppend(INIT, open + ask + ui, end);
    RunAppend(INIT, open + ask, ui);
    RunAppend(INIT, open, ask);
    hide Run;
    AnswerIsRead(Run(Run(s, ask), ui), file, reader, at, maxSize);
  }

  // ---- A stream ----

  // The server's reply: the rest of the file from the offset asked for.
  function Partial(file: Bytes, at: nat): F.Reply
    requires at <= |file|
  {
    F.Reply(206, Some(at), at, 0, file[at..], true)
  }

  // The feed with the request listed and a new stream begun at its offset.
  function Streaming(file: Bytes, at: nat, want: int, reply: F.Reply): F.Feed {
    F.Feed(|file|, None, Some(reply), false, -1, [], at, at, [F.Pending(1, at, want)])
  }

  lemma StreamBegins(t: System, file: Bytes, at: nat, want: int)
    requires t.player == Player(1, Some(F.Fresh(None).(size := |file|))) && t.toUi == [Read(1, 1, at, want)] && t.toChild == []
    requires at < |file| && 0 < want <= 4 * MIB && at + want <= |file|
    ensures Act(t, UiReceives(0))
            == t.(player := Player(1, Some(Streaming(file, at, want, F.Reply(0, None, 0, 0, [], false)))), toUi := [])
  {
    W.RequestDoes(t.player.feed.value, 1, at, want, 0);
    hide F.Request;
    assert Messages(1, []) == [] && t.toUi[1..] == [] && t.toChild + [] == [];
    assert [] + [F.Pending(1, at, want)] == [F.Pending(1, at, want)];
  }

  lemma ReplyComes(u: System, file: Bytes, at: nat, want: int)
    requires at <= |file| && u.files == map[1 := file]
    requires u.player == Player(1, Some(Streaming(file, at, want, F.Reply(0, None, 0, 0, [], false))))
    ensures Act(u, Network(Some(Partial(file, at))))
            == u.(player := Player(1, Some(Streaming(file, at, want, Partial(file, at)))))
  {
    assert IsSlice(file, at, file[at..]);
  }

  lemma StreamAnswers(s: System, file: Bytes, reader: int, at: nat, maxSize: int)
    requires Opened(s, file, false) && Fair(file, at, maxSize)
    ensures var t := Asking(s, reader, at, Want(file, at, maxSize));
            var u := Run(t, [UiReceives(0), Network(Some(Partial(file, at))), HttpData]);
            && u.toChild == [Data(1, 1, at, file[at..at + Want(file, at, maxSize)])]
            && u.child == t.child && u.results == []
  {
    hide F.OnHttpData, F.Request, F.NetworkMay, Act, Run, Messages;
    var want := Want(file, at, maxSize);
    var t := Asking(s, reader, at, want);
    StreamBegins(t, file, at, want);
    var u := Act(t, UiReceives(0));
    ReplyComes(u, file, at, want);
    var v := Act(u, Network(Some(Partial(file, at))));
    StreamGives(v.player.feed.value, file, at, want);
    DataSent(v, at, file[at..at + want]);
    ThreeSteps(t, UiReceives(0), Network(Some(Partial(file, at))), HttpData);
  }

  lemma DataSent(v: System, at: nat, bytes: Bytes)
    requires v.player.gen == 1 && v.player.feed.Some? && v.toChild == []
    requires F.OnHttpData(v.player.feed.value).answers == [F.Data(1, at, bytes)]
    ensures var w := Act(v, HttpData);
            w.toChild == [Data(1, 1, at, bytes)] && w.child == v.child && w.results == v.results
  {
    hide F.OnHttpData;
    assert Messages(1, [F.Data(1, at, bytes)]) == [Data(1, 1, at, bytes)];
  }

  lemma ThreeSteps(s: System, a: Action, b: Action, c: Action)
    ensures Run(s, [a, b, c]) == Act(Act(Act(s, a), b), c)
  {
    hide Act;
    assert [a, b, c] == [a] + ([b] + ([c] + []));
    RunFirst(s, a, [b] + ([c] + []));
    RunFirst(Act(s, a), b, [c] + []);
    RunFirst(Act(Act(s, a), b), c, []);
    RunNone(Act(Act(Act(s, a), b), c));
  }

  lemma StreamGives(f: F.Feed, file: Bytes, at: nat, want: nat)
    requires 0 < want <= 4 * MIB && at + want <= |file| && f == Streaming(file, at, want, Partial(file, at))
    ensures F.OnHttpData(f).answers == [F.Data(1, at, file[at..at + want])]
  {
    var n := Min(16 * MIB, |file| - at);
    W.HttpDataDoes(f, n);
    WindowFilled(f, file, at, n);
    hide F.OnHttpData, F.ServeLoop, F.Trim;
    PassGives(W.With(f, n), file, at, want, n == |file| - at);
  }

  lemma WindowFilled(f: F.Feed, file: Bytes, at: nat, n: nat)
    requires at + n <= |file| && f.reply == Some(Partial(file, at)) && f.buf == []
    ensures n <= |f.reply.value.available| && W.With(f, n).buf == file[at..at + n]
  {
    assert [] + file[at..][..n] == file[at..at + n];
  }

  lemma PassGives(g: F.Feed, file: Bytes, at: nat, want: nat, over: bool)
    requires g.bufStart == at && want <= |g.buf| && at + |g.buf| <= |file| && g.buf == file[at..at + |g.buf|]
    requires g.pending == [F.Pending(1, at, want)] && 0 < want && g.size == |file|
    ensures F.ServeLoop(g, 0, over).answers == [F.Data(1, at, file[at..at + want])]
  {
    assert g.pending[0..] == g.pending && g.pending[1..] == [] && g.buf[0..want] == file[at..at + want];
    if over {
      W.LastPass(g, 1);
    } else {
      W.LivePass(g, 0);
    }
    hide F.ServeLoop;
  }

  // The same for a stream: the request opens a new one at the offset, the reply
  // fills the window, and the request is answered from it.
  lemma StreamIsRead(file: Bytes, reader: int, at: nat, maxSize: int)
    requires Fair(file, at, maxSize)
    ensures Run(INIT, [StartFeed(file, false)] + OPENING + ReadSteps(reader, at, maxSize)
                      + [UiReceives(0), Network(Some(Partial(file, at))), HttpData]
                      + [ChildReceives, Reads(reader, at, maxSize)]).results
            == [ReadLog(1, at, maxSize, file[at..at + Min(maxSize, |file| - at)])]
  {
    var open, ask := [StartFeed(file, false)] + OPENING, ReadSteps(reader, at, maxSize);
    var ui, end := [UiReceives(0), Network(Some(Partial(file, at))), HttpData], [ChildReceives, Reads(reader, at, maxSize)];
    SourceOpens(file, false);
    var s := Run(INIT, open);
    ReadAsks(s, file, false, reader, at, maxSize);
    StreamAnswers(s, file, reader, at, maxSize);
    RunAppend(INIT, open + ask + ui, end);
    RunAppend(INIT, open + ask, ui);
    RunAppend(INIT, open, ask);
    hide Run;
    AnswerIsRead(Run(Run(s, ask), ui), file, reader, at, maxSize);
  }
}
