// A read that wants too much at once: both ends of the read path together.
// Source: src/ipc/remotesource.cpp, src/ipc/mediafeed.cpp, src/ipc/mediahost.cpp.
module MediaRefusal {
  import opened Common
  import F = MediaFeedSpec
  import R = RemoteSourceSpec
  import opened MediaPipeline

  // What a read asks for at a place with `left` bytes to the end of the file.
  function Wanted(maxSize: int, left: int): int { Min(Max(maxSize, R.READ_AHEAD), left) }

  // The length that goes out, once cut to 32 bits, is not one the feed takes.
  predicate TooLong(maxSize: int, left: int) { !(0 < R.Int32(Wanted(maxSize, left)) <= F.MAX_REQUEST) }

  // In bytes: the last 32 bits of what is wanted are 0 or say more than 4 MiB.
  // Below 2 GiB that is a read of more than 4 MiB with more than that left.
  lemma TooLongExactly(maxSize: int, left: int)
    requires 0 < left
    ensures TooLong(maxSize, left) <==> !(1 <= Wanted(maxSize, left) % 0x1_0000_0000 <= 4 * 1024 * 1024)
    ensures Wanted(maxSize, left) < 0x8000_0000 ==>
              (TooLong(maxSize, left) <==> maxSize > 4 * 1024 * 1024 && left > 4 * 1024 * 1024)
  {
  }

  // The feed refuses the request whatever else it holds.
  ghost predicate RefusedOutright(size: int, r: R.Req) {
    forall f: F.Feed, diskGives: nat :: f.size == size ==>
      F.Request(f, r.id, r.offset, r.length, diskGives) == F.Outcome(f, [F.Refused(r.id)])
  }

  // A request that a read puts is refused outright exactly when it is too long.
  lemma AskedTooMuch(d: R.Device, reader: int, at: nat, maxSize: int)
    requires R.Attempt(d, reader, at, maxSize).turn.Asked?
    ensures RefusedOutright(d.size, R.Attempt(d, reader, at, maxSize).turn.req) <==> TooLong(maxSize, d.size - at)
  {
    var r := R.Attempt(d, reader, at, maxSize).turn.req;
    if !TooLong(maxSize, d.size - at) {
      var f := F.Fresh(None).(size := d.size);
      assert F.Request(f, r.id, r.offset, r.length, 0).answers == [];
    }
  }

  lemma HappensStaysFailed(d: R.Device, e: R.Event)
    requires d.failed
    ensures R.Happens(d, e).failed && R.Happens(d, e).size == d.size
  {
    if e.Delivers? && R.Takes(d, e.id, e.offset, e.bytes) {
      R.EvictOnlyCache(d.(cache := d.cache + [R.Chunk(e.offset, e.bytes)], cacheBytes := d.cacheBytes + |e.bytes|,
                          pending := RemoveAt(d.pending, R.Find(d.pending, e.id))));
    }
  }

  // A device that failed stays failed, whatever happens to it.
  lemma {:induction false} StaysFailed(d: R.Device, es: seq<R.Event>)
    requires d.failed
    ensures R.Runs(d, es).failed && R.Runs(d, es).size == d.size
    decreases |es|
  {
    if es != [] {
      HappensStaysFailed(d, es[0]);
      hide R.Happens;
      StaysFailed(R.Happens(d, es[0]), es[1..]);
    }
  }

  // What one such read does: the player answers with an error and nothing else,
  // the error fails the device, and from then on every read of the source, of
  // any reader and at any place before the end, is turned away.
  lemma OneReadEndsTheSource(p: Player, c: Child, reader: int, at: nat, maxSize: int, diskGives: nat,
                             es: seq<R.Event>, later: int, place: nat, size: int)
    requires p.feed.Some? && c.device.Some? && c.gen == p.gen && p.feed.value.size == c.device.value.size
    requires R.Attempt(c.device.value, reader, at, maxSize).turn.Asked?
    requires TooLong(maxSize, c.device.value.size - at)
    requires 0 < size && place < c.device.value.size
    ensures var step := R.Attempt(c.device.value, reader, at, maxSize); var r := step.turn.req;
            var answers := PlayerTakes(p, Read(c.gen, r.id, r.offset, r.length), diskGives);
            var after := ChildTakes(c.(device := Some(step.device)), DataError(p.gen, r.id));
            && answers == (p, [DataError(p.gen, r.id)])
            && after.device.Some? && after.device.value.failed
            && R.Attempt(R.Runs(after.device.value, es), later, place, size).turn == R.Closed
  {
    var d := c.device.value;
    var step := R.Attempt(d, reader, at, maxSize);
    var r := step.turn.req;
    AskedTooMuch(d, reader, at, maxSize);
    PlayerRefuses(p, r, diskGives);
    assert step.device.pending[|d.pending|] == r;
    var failed := R.Fail(step.device, r.id);
    assert failed.failed && failed.size == d.size;
    StaysFailed(failed, es);
    hide R.Runs, F.Request;
  }

  lemma PlayerRefuses(p: Player, r: R.Req, diskGives: nat)
    requires p.feed.Some? && RefusedOutright(p.feed.value.size, r)
    ensures PlayerTakes(p, Read(p.gen, r.id, r.offset, r.length), diskGives) == (p, [DataError(p.gen, r.id)])
  {
    hide F.Request;
    assert F.Request(p.feed.value, r.id, r.offset, r.length, diskGives) == F.Outcome(p.feed.value, [F.Refused(r.id)]);
    var sent := Messages(p.gen, [F.Refused(r.id)]);
    assert sent[0] == DataError(p.gen, r.id);
    assert sent == [DataError(p.gen, r.id)];
  }

  // Such a read: five MiB from the start of a file of five. And one that gets
  // away: the file's whole length, one byte over 4 GiB, goes out as one byte.
  lemma FiveMiB(reader: int)
    ensures var size := 5 * 1024 * 1024;
            R.Attempt(R.Fresh(size), reader, 0, size).turn == R.Asked(R.Req(1, 0, size)) && TooLong(size, size)
    ensures var size := 0x1_0000_0001;
            R.Attempt(R.Fresh(size), reader, 0, size).turn == R.Asked(R.Req(1, 0, 1)) && !TooLong(size, size)
  {
  }
}

// The same over whole runs of both processes.
module RefusalRuns {
  import opened Common
  import F = MediaFeedSpec
  import R = RemoteSourceSpec
  import opened MediaPipeline
  import L = MediaLedger
  import opened MediaRefusal

  // ---- A source that failed is over ----

  // Source g is not opened again.
  predicate OpenedOnce(s: System, g: int) {
    && g <= s.player.gen && (forall m :: m in s.toChild && m.Open? ==> m.gen != g)
    && (s.player.gen == g && s.player.feed.Some? ==> s.player.feed.value.size != -1)
  }

  predicate Over(s: System, g: int) {
    OpenedOnce(s, g) && (s.child.gen == g && s.child.device.Some? ==> s.child.device.value.failed)
  }

  // Of what was read since, nothing of source g has a byte.
  predicate NothingRead(before: seq<ReadLog>, after: seq<ReadLog>, g: int) {
    before <= after && forall i :: |before| <= i < |after| && after[i].gen == g ==> after[i].bytes == []
  }

  // An open source's "open" has come; the next source has another number.
  lemma OpenIsOnce(s: System)
    requires Safe(s) && L.Accounted(s) && s.child.device.Some?
    ensures OpenedOnce(s, s.child.gen)
  {
    hide F.FeedOk, R.DeviceOk, L.Tickets, L.Agree, L.Old;
    OpensAfter(s.toChild, s.child.gen);
  }

  lemma {:induction false} OpensAfter(ms: seq<ToChild>, gen: int)
    requires L.OpensAhead(ms, gen)
    ensures forall m :: m in ms && m.Open? ==> m.gen > gen
  {
    if ms != [] {
      OpensAfter(ms[1..], if ms[0].Open? then ms[0].gen else gen);
    }
  }

  lemma FeedSizeStays(s: System, a: Action)
    requires Safe(s) && s.player.feed.Some? && (a.UiReceives? || a.HttpData?)
    ensures var t := Act(s, a);
            && t.player.gen == s.player.gen && t.player.feed.Some? && t.player.feed.value.size == s.player.feed.value.size
            && t.child == s.child && t.results == s.results
            && s.toChild <= t.toChild && forall m :: m in t.toChild && m.Open? ==> m in s.toChild
  {
    hide F.Settles, F.FeedOk, F.Request, F.OnHttpData;
    var f, file := s.player.feed.value, s.files[s.player.gen];
    if a.HttpData? {
      F.OnHttpDataSettles(f, file);
    } else if s.toUi != [] {
      var m := s.toUi[0];
      F.RequestSettles(f, m.id, m.offset, m.length, a.diskGives, file);
    }
  }

  lemma DeviceStaysFailed(c: Child, m: ToChild)
    requires c.device.Some? && c.device.value.failed
    ensures var d := ChildTakes(c, m); d.gen == c.gen && d.device.Some? && !m.Open? ==> d.device.value.failed
  {
    if m.Data? {
      HappensStaysFailed(c.device.value, R.Delivers(m.id, m.offset, m.bytes));
    }
  }

  lemma ActOpenedOnce(s: System, a: Action, g: int)
    requires Safe(s) && OpenedOnce(s, g)
    ensures OpenedOnce(Act(s, a), g)
    ensures Act(s, a).child.gen == g && Act(s, a).child.device.Some? && g > 0 ==>
              s.child.gen == g && s.child.device.Some?
  {
    hide Safe, R.Deliver, R.Fail, R.Attempt, R.TimesOut, F.NetworkMay;
    if (a.UiReceives? || a.HttpData?) && s.player.feed.Some? {
      FeedSizeStays(s, a);
    }
    hide F.Request, F.OnHttpData, Messages;
  }

  lemma ActOver(s: System, a: Action, g: int)
    requires Safe(s) && Over(s, g) && g > 0
    ensures Over(Act(s, a), g) && NothingRead(s.results, Act(s, a).results, g)
  {
    ActOpenedOnce(s, a, g);
    hide Safe, R.Deliver, R.CopyCached, F.NetworkMay, F.Request, F.OnHttpData, Messages, OpenedOnce;
    if a.ChildReceives? && s.toChild != [] && s.child.device.Some? && s.child.gen == g {
      DeviceStaysFailed(s.child, s.toChild[0]);
    }
  }

  // From a failure on, whatever happens in either process and however the source
  // is read, no read of it gets a byte again.
  lemma {:induction false} OverForGood(s: System, actions: seq<Action>, g: int)
    requires Safe(s) && Over(s, g) && g > 0
    ensures NothingRead(s.results, Run(s, actions).results, g)
    decreases |actions|
  {
    hide Safe, Over, Act;
    if actions != [] {
      ActSafe(s, actions[0]);
      ActOver(s, actions[0], g);
      OverForGood(Act(s, actions[0]), actions[1..], g);
    }
  }

  lemma FailedSourceIsOver(before: seq<Action>, after: seq<Action>)
    requires var s := Run(INIT, before); s.child.device.Some? && s.child.device.value.failed
    ensures var s := Run(INIT, before); NothingRead(s.results, Run(s, after).results, s.child.gen)
  {
    var s := Run(INIT, before);
    Reached(before);
    OpenIsOnce(s);
    assert s.child.gen > 0;
    OverForGood(s, after, s.child.gen);
  }

  // ---- A request that is too long is refused ----

  function Asking(g: int, r: R.Req): ToUi { Read(g, r.id, r.offset, r.length) }

  // Source g is played, and the child has it open.
  predicate Alive(s: System, g: int) {
    s.player.gen == g && s.player.feed.Some? && s.child.gen == g && s.child.device.Some?
  }

  // The request on its way, or its refusal.
  predicate OnTheWay(s: System, g: int, r: R.Req) {
    Asking(g, r) in s.posted || Asking(g, r) in s.toUi || DataError(g, r.id) in s.toChild
  }

  // No message with this id is another request, and none of its bytes are out.
  predicate OnlyAsking(ms: seq<ToUi>, g: int, r: R.Req) {
    forall m :: m in ms && m.gen == g && m.id == r.id ==> m == Asking(g, r)
  }

  predicate NoData(ms: seq<ToChild>, g: int, id: int) { forall m :: m in ms && m.Data? && m.gen == g ==> m.id != id }

  ghost predicate Refusing(s: System, g: int, r: R.Req)
    requires Alive(s, g)
  {
    && r in s.child.device.value.pending && OnTheWay(s, g, r)
    && OnlyAsking(s.posted, g, r) && OnlyAsking(s.toUi, g, r) && NoData(s.toChild, g, r.id)
    && (forall p :: p in s.player.feed.value.pending ==> p.id != r.id)
    && RefusedOutright(s.player.feed.value.size, r)
  }

  ghost predicate Doomed(s: System, g: int, r: R.Req) {
    OpenedOnce(s, g) && (Alive(s, g) ==> s.child.device.value.failed || Refusing(s, g, r))
  }

  lemma MessagesOf(gen: int, answers: seq<F.Answer>, asked: seq<F.Pending>, file: Bytes, g: int, id: int)
    requires forall a :: a in answers ==> F.Justified(a, asked, file)
    requires forall p :: p in asked ==> p.id != id
    ensures NoData(Messages(gen, answers), g, id)
  {
    forall m | m in Messages(gen, answers) && m.Data? && m.gen == g ensures m.id != id {
      var i :| 0 <= i < |answers| && m == Message(gen, answers[i]);
      assert F.Justified(answers[i], asked, file);
    }
  }

  // The feed answers and keeps only what it was asked.
  lemma FeedStepRefusing(s: System, t: System, feed: F.Feed, asked: seq<F.Pending>, answers: seq<F.Answer>,
                         g: int, r: R.Req)
    requires Alive(s, g) && g in s.files && Refusing(s, g, r) && (Asking(g, r) in s.toUi ==> Asking(g, r) in t.toUi)
    requires forall m :: m in t.toUi ==> m in s.toUi
    requires F.Settles(asked, feed.pending, answers, s.files[g]) && feed.size == s.player.feed.value.size
    requires forall p :: p in asked ==> p.id != r.id
    requires t == s.(player := s.player.(feed := Some(feed)), toUi := t.toUi, toChild := s.toChild + Messages(g, answers))
    ensures Refusing(t, g, r)
  {
    MessagesOf(g, answers, asked, s.files[g], g, r.id);
    hide Messages, F.Justified, RefusedOutright;
    forall p | p in feed.pending ensures p.id != r.id {
      assert F.StillAsked(p, asked);
    }
  }

  lemma HttpDataRefusing(s: System, g: int, r: R.Req)
    requires Safe(s) && Alive(s, g) && Refusing(s, g, r)
    ensures Refusing(Act(s, HttpData), g, r)
  {
    var f := s.player.feed.value;
    F.OnHttpDataSettles(f, s.files[g]);
    hide Safe, F.Settles, F.OnHttpData, Refusing;
    FeedStepRefusing(s, Act(s, HttpData), F.OnHttpData(f).feed, f.pending, F.OnHttpData(f).answers, g, r);
  }

  lemma UiReceivesRefusing(s: System, diskGives: nat, g: int, r: R.Req)
    requires Safe(s) && Alive(s, g) && Refusing(s, g, r)
    ensures Refusing(Act(s, UiReceives(diskGives)), g, r)
  {
    if s.toUi != [] {
      var m, f := s.toUi[0], s.player.feed.value;
      var t := Act(s, UiReceives(diskGives));
      assert s.toUi == [m] + t.toUi;
      if m == Asking(g, r) {
        PlayerRefuses(s.player, r, diskGives);
        assert DataError(g, r.id) in t.toChild;
      } else if m.gen == g {
        F.RequestSettles(f, m.id, m.offset, m.length, diskGives, s.files[g]);
        var q := F.Request(f, m.id, m.offset, m.length, diskGives);
        hide Safe, F.Settles, F.Request, RefusedOutright;
        FeedStepRefusing(s, t, q.feed, f.pending + [F.Pending(m.id, m.offset, m.length)], q.answers, g, r);
      } else {
        assert s.toChild + [] == s.toChild;
        hide RefusedOutright;
      }
    }
  }

  lemma ChildPostsRefusing(s: System, i: nat, g: int, r: R.Req)
    requires Alive(s, g) && Refusing(s, g, r) && i < |s.posted|
    ensures Refusing(Act(s, ChildPosts(i)), g, r)
  {
    RemoveAtMultiset(s.posted, i);
    var m, rest := s.posted[i], RemoveAt(s.posted, i);
    assert Asking(g, r) in s.posted ==> Asking(g, r) == m || Asking(g, r) in rest by {
      assert multiset(s.posted)[Asking(g, r)] == multiset(rest)[Asking(g, r)] + multiset{m}[Asking(g, r)];
    }
    hide RefusedOutright;
  }

  lemma ReadsRefusing(s: System, reader: int, at: nat, maxSize: int, g: int, r: R.Req)
    requires Safe(s) && Alive(s, g) && Refusing(s, g, r)
    ensures Refusing(Act(s, Reads(reader, at, maxSize)), g, r)
  {
    assert r.id < s.child.device.value.nextId;
    hide Safe, RefusedOutright, R.CopyCached, R.PendingCovers;
  }

  // An answer to another request leaves this one out.
  lemma StaysPending(d: R.Device, id: int, offset: int, bytes: Bytes, r: R.Req)
    requires r in d.pending && id != r.id
    ensures r in R.Deliver(d, id, offset, bytes).pending
  {
    if R.Takes(d, id, offset, bytes) {
      var i := R.Find(d.pending, id);
      var rest := RemoveAt(d.pending, i);
      RemoveAtMultiset(d.pending, i);
      assert r in rest by {
        assert multiset(d.pending)[r] == multiset(rest)[r] + multiset{d.pending[i]}[r];
      }
      R.EvictOnlyCache(d.(pending := rest, cache := d.cache + [R.Chunk(offset, bytes)],
                          cacheBytes := d.cacheBytes + |bytes|));
    }
  }

  lemma FailsIt(d: R.Device, r: R.Req)
    requires r in d.pending
    ensures R.Fail(d, r.id).failed
  {
    var i :| 0 <= i < |d.pending| && d.pending[i] == r;
  }

  lemma FailsOrStays(d: R.Device, id: int, r: R.Req)
    requires r in d.pending
    ensures R.Fail(d, id).failed || R.Fail(d, id) == d
  {
  }

  lemma ChildReceivesRefusing(s: System, g: int, r: R.Req)
    requires Alive(s, g) && OpenedOnce(s, g) && Refusing(s, g, r) && s.toChild != []
    ensures var t := Act(s, ChildReceives); Alive(t, g) ==> t.child.device.value.failed || Refusing(t, g, r)
  {
    var m, d := s.toChild[0], s.child.device.value;
    var t := Act(s, ChildReceives);
    assert s.toChild == [m] + t.toChild;
    if m.Data? && m.gen == g {
      StaysPending(d, m.id, m.offset, m.bytes, r);
    } else if m.DataError? && m.gen == g {
      FailsOrStays(d, m.id, r);
      FailsIt(d, r);
    }
    hide RefusedOutright, R.Deliver, R.Fail;
  }

  lemma ActDoomed(s: System, a: Action, g: int, r: R.Req)
    requires Safe(s) && Doomed(s, g, r) && g > 0
    ensures Doomed(Act(s, a), g, r)
  {
    var t := Act(s, a);
    ActOpenedOnce(s, a, g);
    if Alive(t, g) {
      AliveBefore(s, a, g);
      if s.child.device.value.failed {
        ActOver(s, a, g);
      } else {
        ActRefusing(s, a, g, r);
      }
    }
  }

  lemma AliveBefore(s: System, a: Action, g: int)
    requires Safe(s) && OpenedOnce(s, g) && g > 0 && Alive(Act(s, a), g)
    ensures Alive(s, g)
  {
    ActOpenedOnce(s, a, g);
    hide Safe, F.Request, F.OnHttpData, F.NetworkMay, R.Attempt, R.Deliver, R.Fail, OpenedOnce;
  }

  lemma ActRefusing(s: System, a: Action, g: int, r: R.Req)
    requires Safe(s) && Alive(s, g) && OpenedOnce(s, g) && Refusing(s, g, r) && Alive(Act(s, a), g)
    ensures Act(s, a).child.device.value.failed || Refusing(Act(s, a), g, r)
  {
    match a
    case HttpData => HttpDataRefusing(s, g, r);
    case UiReceives(diskGives) => UiReceivesRefusing(s, diskGives, g, r);
    case ChildPosts(i) => if i < |s.posted| { ChildPostsRefusing(s, i, g, r); }
    case Reads(reader, at, maxSize) => ReadsRefusing(s, reader, at, maxSize, g, r);
    case ChildReceives => if s.toChild != [] { ChildReceivesRefusing(s, g, r); }
    case _ => hide Safe, RefusedOutright, F.NetworkMay;
  }

  lemma {:induction false} StaysDoomed(s: System, actions: seq<Action>, g: int, r: R.Req)
    requires Safe(s) && Doomed(s, g, r) && g > 0
    ensures Safe(Run(s, actions)) && Doomed(Run(s, actions), g, r)
    decreases |actions|
  {
    hide Safe, Doomed, Act;
    if actions != [] {
      ActSafe(s, actions[0]);
      ActDoomed(s, actions[0], g, r);
      StaysDoomed(Act(s, actions[0]), actions[1..], g, r);
    }
  }

  // ---- From the read that asked ----

  // A message with an id is a ticket.
  lemma {:induction false} ReadIsTicket(ms: seq<ToUi>, m: ToUi)
    requires m in ms
    ensures m.id in L.ReadIds(ms, m.gen)
  {
    if m != ms[0] {
      ReadIsTicket(ms[1..], m);
    }
  }

  lemma {:induction false} ReplyIsTicket(ms: seq<ToChild>, m: ToChild)
    requires m in ms && !m.Open?
    ensures m.id in L.ReplyIds(ms, m.gen)
  {
    if m != ms[0] {
      ReplyIsTicket(ms[1..], m);
    }
  }

  // No ticket has an id the device has not given out.
  lemma TicketsAreGiven(s: System, id: int)
    requires L.Agree(s) && id in L.Tickets(s, s.player.gen)
    ensures exists q :: q in s.child.device.value.pending && q.id == id
  {
    var pending := s.child.device.value.pending;
    assert id in multiset(L.DeviceIds(pending));
    var i :| 0 <= i < |pending| && L.DeviceIds(pending)[i] == id;
    assert pending[i].id == id;
  }

  // A read puts a request that is too long.
  predicate AsksTooMuch(s: System, reader: int, at: nat, maxSize: int) {
    && s.child.device.Some? && reader !in s.child.device.value.waiting
    && R.Attempt(s.child.device.value, reader, at, maxSize).turn.Asked?
    && TooLong(maxSize, s.child.device.value.size - at)
  }

  lemma AskedIsDoomed(s: System, reader: int, at: nat, maxSize: int)
    requires Safe(s) && L.Accounted(s) && AsksTooMuch(s, reader, at, maxSize)
    ensures Doomed(Act(s, Reads(reader, at, maxSize)), s.child.gen,
                   R.Attempt(s.child.device.value, reader, at, maxSize).turn.req)
  {
    var d, g := s.child.device.value, s.child.gen;
    var r := R.Attempt(d, reader, at, maxSize).turn.req;
    var t := Act(s, Reads(reader, at, maxSize));
    OpenIsOnce(s);
    AskedStep(s, reader, at, maxSize);
    if Alive(t, g) {
      AskedTooMuch(d, reader, at, maxSize);
      NewIdIsNew(s);
      SameSize(s);
      hide Safe, L.Accounted, L.Agree, RefusedOutright, TooLong, Act, R.Attempt;
      assert r == t.child.device.value.pending[|d.pending|];
      assert t.posted[|s.posted|] == Asking(g, r);
    }
  }

  lemma AskedStep(s: System, reader: int, at: nat, maxSize: int)
    requires s.child.device.Some? && reader !in s.child.device.value.waiting
    requires R.Attempt(s.child.device.value, reader, at, maxSize).turn.Asked?
    ensures var d := s.child.device.value; var r := R.Attempt(d, reader, at, maxSize).turn.req;
            && r.id == d.nextId
            && Act(s, Reads(reader, at, maxSize))
               == s.(child := s.child.(device := Some(d.(pending := d.pending + [r], nextId := d.nextId + 1))),
                     posted := s.posted + [Asking(s.child.gen, r)])
  {
    hide R.CopyCached, R.PendingCovers;
  }

  lemma SameSize(s: System)
    requires Safe(s) && L.Accounted(s) && Alive(s, s.child.gen)
    ensures s.player.feed.value.size == s.child.device.value.size
  {
    hide L.Tickets, L.AllBacked, L.Old, L.OpensAhead;
  }

  lemma NewIdIsNew(s: System)
    requires Safe(s) && L.Accounted(s) && Alive(s, s.child.gen)
    ensures var g, id := s.child.gen, s.child.device.value.nextId;
            && (forall m :: m in s.posted + s.toUi && m.gen == g ==> m.id != id) && NoData(s.toChild, g, id)
            && forall p :: p in s.player.feed.value.pending ==> p.id != id
  {
    var g, id := s.child.gen, s.child.device.value.nextId;
    assert L.Agree(s);
    assert id !in L.Tickets(s, g) by {
      if id in L.Tickets(s, g) {
        TicketsAreGiven(s, id);
      }
    }
    hide Safe, L.Accounted, L.Agree;
    forall m | m in s.posted && m.gen == g ensures m.id != id { ReadIsTicket(s.posted, m); }
    forall m | m in s.toUi && m.gen == g ensures m.id != id { ReadIsTicket(s.toUi, m); }
    forall m | m in s.toChild && m.Data? && m.gen == g ensures m.id != id { ReplyIsTicket(s.toChild, m); }
    var pending := s.player.feed.value.pending;
    forall p | p in pending ensures p.id != id {
      var i :| 0 <= i < |pending| && pending[i] == p;
      assert F.PendingIds(pending)[i] == p.id;
    }
  }

  // Over whole runs: once a read has asked for too much of the source that is
  // played, then as long as that source is played and open, its device has
  // failed or the request or its refusal is still on the way, and no bytes are.
  lemma TooLongIsRefused(before: seq<Action>, reader: int, at: nat, maxSize: int, after: seq<Action>)
    requires AsksTooMuch(Run(INIT, before), reader, at, maxSize)
    ensures var s := Run(INIT, before); var g := s.child.gen;
            var r := R.Attempt(s.child.device.value, reader, at, maxSize).turn.req;
            var t := Run(Act(s, Reads(reader, at, maxSize)), after);
            Alive(t, g) ==> t.child.device.value.failed || (OnTheWay(t, g, r) && NoData(t.toChild, g, r.id))
  {
    var s := Run(INIT, before);
    hide Run, Act, INIT, Safe, TooLong, R.Attempt, L.Accounted, Doomed, Alive, OnTheWay, NoData;
    Reached(before);
    AskedIsDoomed(s, reader, at, maxSize);
    ActSafe(s, Reads(reader, at, maxSize));
    GenIsPositive(s);
    var r := R.Attempt(s.child.device.value, reader, at, maxSize).turn.req;
    StaysDoomed(Act(s, Reads(reader, at, maxSize)), after, s.child.gen, r);
    DoomedMeans(Run(Act(s, Reads(reader, at, maxSize)), after), s.child.gen, r);
  }

  lemma Reached(actions: seq<Action>)
    ensures Safe(Run(INIT, actions)) && L.Accounted(Run(INIT, actions))
  {
    L.RunAccounted(INIT, actions);
  }

  lemma DoomedMeans(t: System, g: int, r: R.Req)
    requires Doomed(t, g, r)
    ensures Alive(t, g) ==> t.child.device.value.failed || (OnTheWay(t, g, r) && NoData(t.toChild, g, r.id))
  {
  }

  lemma GenIsPositive(s: System)
    requires Safe(s) && s.child.device.Some?
    ensures s.child.gen > 0
  {
  }
}
