// The isolated decoder's read path as a whole: the player (UI process) with
// its feed, the media child with its device, two FIFO channels, and every
// interleaving of source changes, reads, answers, retries and child restarts.
// Source: src/bridges/isolatedmediaplayer.cpp, src/ipc/mediahost.cpp.
module MediaPipeline {
  import opened Common
  import F = MediaFeedSpec
  import R = RemoteSourceSpec

  datatype ToChild =
    | Open(gen: int, size: int)
    | Data(gen: int, id: int, offset: int, bytes: Bytes)
    | DataError(gen: int, id: int)

  datatype ToUi = Read(gen: int, id: int, offset: int, length: int)

  // The child's end: the generation of the open source, and its device.
  datatype Child = Child(gen: int, device: Option<R.Device>)

  // The player's end: the generation of the last source, and its feed.
  datatype Player = Player(gen: int, feed: Option<F.Feed>)

  // What one readData call got, kept for the statement of the theorem.
  datatype ReadLog = ReadLog(gen: int, at: int, maxSize: int, bytes: Bytes)

  // `posted` holds the readRequested signals still queued in the child; reader
  // threads race to post them, so they leave in any order. `files` is what
  // each generation's source contains.
  datatype System = System(player: Player, child: Child, posted: seq<ToUi>,
                           toChild: seq<ToChild>, toUi: seq<ToUi>,
                           files: map<int, Bytes>, results: seq<ReadLog>)

  const INIT := System(Player(0, None), Child(0, None), [], [], [], map[], [])

  datatype Action =
    | StartFeed(file: Bytes, isLocal: bool)
    | FeedReady
    | Teardown
    | UiReceives(diskGives: nat)
    | Network(reply: Option<F.Reply>)
    | HttpData
    | ChildReceives
    | ChildPosts(i: nat)
    | Reads(reader: int, at: nat, maxSize: int)
    | Deadline(reader: int)

  // The feed's signals, as the messages the player sends for them.
  function Messages(gen: int, answers: seq<F.Answer>): (r: seq<ToChild>)
    ensures |r| == |answers|
    ensures forall i :: 0 <= i < |r| ==> r[i] == Message(gen, answers[i])
  {
    seq(|answers|, i requires 0 <= i < |answers| => Message(gen, answers[i]))
  }

  function Message(gen: int, a: F.Answer): ToChild {
    match a
    case Data(id, offset, bytes) => Data(gen, id, offset, bytes)
    case Refused(id) => DataError(gen, id)
  }

  // onEvent's "read": only the current source's reads reach the feed.
  function PlayerTakes(p: Player, m: ToUi, diskGives: nat): (Player, seq<ToChild>) {
    if m.gen == p.gen && p.feed.Some? then
      var r := F.Request(p.feed.value, m.id, m.offset, m.length, diskGives);
      (p.(feed := Some(r.feed)), Messages(p.gen, r.answers))
    else (p, [])
  }

  // dispatch's "open", "data" and "dataError".
  function ChildTakes(c: Child, m: ToChild): Child {
    match m
    case Open(gen, size) =>
      if size <= 0 then c.(device := None) else Child(gen, Some(R.Fresh(size)))
    case Data(gen, id, offset, bytes) =>
      if gen == c.gen && c.device.Some? then c.(device := Some(R.Deliver(c.device.value, id, offset, bytes))) else c
    case DataError(gen, id) =>
      if gen == c.gen && c.device.Some? then c.(device := Some(R.Fail(c.device.value, id))) else c
  }

  function Act(s: System, a: Action): System {
    match a
    case StartFeed(file, isLocal) =>
      var gen := s.player.gen + 1;
      s.(player := Player(gen, Some(F.Fresh(if isLocal then Some(file) else None))), files := s.files[gen := file])
    case FeedReady => Ready(s)
    case Teardown =>
      s.(player := s.player.(feed := None), child := Child(0, None), posted := [], toChild := [], toUi := [])
    case UiReceives(diskGives) =>
      if s.toUi == [] then s
      else
        var r := PlayerTakes(s.player, s.toUi[0], diskGives);
        s.(player := r.0, toUi := s.toUi[1..], toChild := s.toChild + r.1)
    case Network(reply) =>
      if s.player.feed.Some? && s.player.gen in s.files
         && F.NetworkMay(s.player.feed.value.reply, reply, s.files[s.player.gen])
      then s.(player := s.player.(feed := Some(s.player.feed.value.(reply := reply))))
      else s
    case HttpData =>
      if s.player.feed.None? then s
      else
        var r := F.OnHttpData(s.player.feed.value);
        s.(player := s.player.(feed := Some(r.feed)), toChild := s.toChild + Messages(s.player.gen, r.answers))
    case ChildReceives =>
      if s.toChild == [] then s
      else s.(child := ChildTakes(s.child, s.toChild[0]), toChild := s.toChild[1..])
    case ChildPosts(i) =>
      if i >= |s.posted| then s
      else s.(posted := RemoveAt(s.posted, i), toUi := s.toUi + [s.posted[i]])
    case Reads(reader, at, maxSize) =>
      if s.child.device.None? || reader in s.child.device.value.waiting then s
      else ReadTurn(s, reader, at, maxSize)
    case Deadline(reader) =>
      if s.child.device.None? then s
      else s.(child := s.child.(device := Some(R.TimesOut(s.child.device.value, reader))))
  }

  // The size becomes known, once per feed: a local file's at once, a stream's
  // from its HEAD (an empty stream is a failure, an empty file is not).
  function Ready(s: System): System {
    if s.player.feed.None? || s.player.feed.value.size != -1 || s.player.gen !in s.files then s
    else
      var size := |s.files[s.player.gen]|;
      if s.player.feed.value.local.None? && size == 0 then s
      else s.(player := s.player.(feed := Some(s.player.feed.value.(size := size))),
              toChild := s.toChild + [Open(s.player.gen, size)])
  }

  function ReadTurn(s: System, reader: int, at: nat, maxSize: int): System
    requires s.child.device.Some?
  {
    var step := R.Attempt(s.child.device.value, reader, at, maxSize);
    var t := s.(child := s.child.(device := Some(step.device)));
    match step.turn
    case Asked(r) => t.(posted := t.posted + [Read(s.child.gen, r.id, r.offset, r.length)])
    case Got(bytes) => t.(results := t.results + [ReadLog(s.child.gen, at, maxSize, bytes)])
    case _ => t
  }

  function Run(s: System, actions: seq<Action>): System
    decreases |actions|
  {
    if actions == [] then s else Run(Act(s, actions[0]), actions[1..])
  }

  // ---- Safety: reads are exact ----

  predicate MessageOk(m: ToChild, s: System) {
    && m.gen in s.files && m.gen <= s.player.gen
    && (m.Open? ==> m.size == |s.files[m.gen]|)
    && (m.Data? ==> m.bytes != [] && IsSlice(s.files[m.gen], m.offset, m.bytes))
  }

  predicate ReadOk(r: ReadLog, files: map<int, Bytes>) {
    && r.gen in files && 0 <= r.at && |r.bytes| <= Max(0, r.maxSize)
    && (r.bytes == [] <==> r.maxSize <= 0 || r.at >= |files[r.gen]|)
    && (r.bytes != [] ==> IsSlice(files[r.gen], r.at, r.bytes))
  }

  ghost predicate Safe(s: System) {
    && (forall g :: g in s.files <==> 1 <= g <= s.player.gen)
    && 0 <= s.child.gen <= s.player.gen
    && (s.child.device.Some? ==> s.child.gen in s.files && R.DeviceOk(s.child.device.value, s.files[s.child.gen]))
    && (s.player.feed.Some? ==> s.player.gen in s.files && F.FeedOk(s.player.feed.value, s.files[s.player.gen]))
    && (forall m :: m in s.toChild ==> MessageOk(m, s))
    && (forall r :: r in s.results ==> ReadOk(r, s.files))
  }

  lemma AnswersOk(gen: int, asked: seq<F.Pending>, ps: seq<F.Pending>, answers: seq<F.Answer>, s: System)
    requires gen in s.files && gen <= s.player.gen && F.Settles(asked, ps, answers, s.files[gen])
    ensures forall m :: m in Messages(gen, answers) ==> MessageOk(m, s)
  {
    forall m | m in Messages(gen, answers) ensures MessageOk(m, s) {
      var i :| 0 <= i < |answers| && m == Message(gen, answers[i]);
      assert F.Justified(answers[i], asked, s.files[gen]);
    }
  }

  lemma FeedActionSafe(s: System, feed: F.Feed, asked: seq<F.Pending>, answers: seq<F.Answer>)
    requires Safe(s) && s.player.feed.Some?
    requires F.FeedOk(feed, s.files[s.player.gen])
    requires F.Settles(asked, feed.pending, answers, s.files[s.player.gen])
    ensures Safe(s.(player := s.player.(feed := Some(feed)), toChild := s.toChild + Messages(s.player.gen, answers)))
  {
    hide F.FeedOk, F.Settles;
    var t := s.(player := s.player.(feed := Some(feed)), toChild := s.toChild + Messages(s.player.gen, answers));
    AnswersOk(s.player.gen, asked, feed.pending, answers, s);
    forall m | m in t.toChild ensures MessageOk(m, t) {
      assert m in s.toChild || m in Messages(s.player.gen, answers);
      assert MessageOk(m, s);
    }
  }

  lemma UiReceivesSafe(s: System, diskGives: nat)
    requires Safe(s)
    ensures Safe(Act(s, UiReceives(diskGives)))
  {
    hide F.FeedOk, F.Settles, F.Request;
    if s.toUi != [] {
      var m := s.toUi[0];
      var rest := s.(toUi := s.toUi[1..]);
      if m.gen == s.player.gen && s.player.feed.Some? {
        var f := s.player.feed.value;
        F.RequestSettles(f, m.id, m.offset, m.length, diskGives, s.files[m.gen]);
        var r := F.Request(f, m.id, m.offset, m.length, diskGives);
        FeedActionSafe(rest, r.feed, f.pending + [F.Pending(m.id, m.offset, m.length)], r.answers);
      } else {
        assert s.toChild + [] == s.toChild;
      }
    }
  }

  lemma HttpDataSafe(s: System)
    requires Safe(s)
    ensures Safe(Act(s, HttpData))
  {
    hide F.FeedOk, F.Settles, F.OnHttpData;
    if s.player.feed.Some? {
      var f := s.player.feed.value;
      F.OnHttpDataSettles(f, s.files[s.player.gen]);
      FeedActionSafe(s, F.OnHttpData(f).feed, f.pending, F.OnHttpData(f).answers);
    }
  }

  lemma FreshDeviceOk(file: Bytes)
    ensures R.DeviceOk(R.Fresh(|file|), file)
  {
  }

  lemma ChildReceivesSafe(s: System)
    requires Safe(s)
    ensures Safe(Act(s, ChildReceives))
  {
    hide R.DeviceOk, F.FeedOk, R.Deliver, R.Fail, R.Takes;
    if s.toChild != [] {
      var m := s.toChild[0];
      var t := Act(s, ChildReceives);
      assert MessageOk(m, s);
      forall x | x in t.toChild ensures MessageOk(x, t) {
        assert x in s.toChild;
      }
      if m.Open? {
        FreshDeviceOk(s.files[m.gen]);
      } else if m.gen == s.child.gen && s.child.device.Some? {
        if m.Data? {
          R.DeliverKeeps(s.child.device.value, m.id, m.offset, m.bytes, s.files[m.gen]);
        } else {
          R.FailKeeps(s.child.device.value, m.id, s.files[m.gen]);
        }
      }
    }
  }

  lemma ReadsSafe(s: System, reader: int, at: nat, maxSize: int)
    requires Safe(s)
    ensures Safe(Act(s, Reads(reader, at, maxSize)))
  {
    hide R.DeviceOk, F.FeedOk, R.Attempt;
    if s.child.device.Some? && reader !in s.child.device.value.waiting {
      var d := s.child.device.value;
      R.AttemptKeeps(d, reader, at, maxSize, s.files[s.child.gen]);
      R.ReadExact(d, reader, at, maxSize, s.files[s.child.gen]);
      var t := Act(s, Reads(reader, at, maxSize));
      forall m | m in t.toChild ensures MessageOk(m, t) { assert MessageOk(m, s); }
    }
  }

  lemma StartFeedSafe(s: System, file: Bytes, isLocal: bool)
    requires Safe(s)
    ensures Safe(Act(s, StartFeed(file, isLocal)))
  {
    var t := Act(s, StartFeed(file, isLocal));
    assert F.FeedOk(t.player.feed.value, file);
    forall m | m in t.toChild ensures MessageOk(m, t) { assert MessageOk(m, s); }
    forall r | r in t.results ensures ReadOk(r, t.files) { assert ReadOk(r, s.files); }
  }

  lemma ReadySafe(s: System)
    requires Safe(s)
    ensures Safe(Ready(s))
  {
    var t := Ready(s);
    forall m | m in t.toChild ensures MessageOk(m, t) { assert m in s.toChild ==> MessageOk(m, s); }
  }

  lemma NetworkSafe(s: System, reply: Option<F.Reply>)
    requires Safe(s)
    ensures Safe(Act(s, Network(reply)))
  {
    var t := Act(s, Network(reply));
    if t != s {
      F.NetworkKeepsOk(s.player.feed.value, reply, s.files[s.player.gen]);
      forall m | m in t.toChild ensures MessageOk(m, t) { assert MessageOk(m, s); }
    }
  }

  lemma ActSafe(s: System, a: Action)
    requires Safe(s)
    ensures Safe(Act(s, a))
  {
    match a
    case StartFeed(file, isLocal) => StartFeedSafe(s, file, isLocal);
    case FeedReady => ReadySafe(s);
    case Teardown =>
    case UiReceives(diskGives) => UiReceivesSafe(s, diskGives);
    case Network(reply) => NetworkSafe(s, reply);
    case HttpData => HttpDataSafe(s);
    case ChildReceives => ChildReceivesSafe(s);
    case ChildPosts(i) => QuietSafe(s, Act(s, a));
    case Reads(reader, at, maxSize) => ReadsSafe(s, reader, at, maxSize);
    case Deadline(reader) =>
      hide F.FeedOk;
      QuietSafe(s, Act(s, a));
  }

  // A step that leaves the answers, the feed and the device's data alone.
  lemma QuietSafe(s: System, t: System)
    requires Safe(s)
    requires t == s.(posted := t.posted, toUi := t.toUi, child := t.child)
    requires t.child.gen == s.child.gen
    requires s.child.device.None? ==> t.child.device.None?
    requires s.child.device.Some? && t.child.device.Some? ==>
      t.child.device.value == s.child.device.value.(waiting := t.child.device.value.waiting)
    ensures Safe(t)
  {
    forall m | m in t.toChild ensures MessageOk(m, t) { assert MessageOk(m, s); }
  }

  lemma {:induction false} RunSafe(s: System, actions: seq<Action>)
    requires Safe(s)
    ensures Safe(Run(s, actions))
    decreases |actions|
  {
    hide Safe, Act;
    if actions != [] {
      ActSafe(s, actions[0]);
      RunSafe(Act(s, actions[0]), actions[1..]);
    }
  }

  // End to end, in every interleaving: what any read of generation g at
  // position p ever returned is exactly the bytes of source g at p; it is
  // empty only at the end of the file (or when nothing was asked for).
  lemma ReadsAreExact(actions: seq<Action>, r: ReadLog)
    requires r in Run(INIT, actions).results
    ensures ReadOk(r, Run(INIT, actions).files)
  {
    RunSafe(INIT, actions);
  }
}
