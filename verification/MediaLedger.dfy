// Where every outstanding read of the current source is: queued in the child,
// on its way to the player, waiting in the feed, or answered and on its way
// back. Exactly one of these, at every moment of every run.
module MediaLedger {
  import opened Common
  import opened MediaPipeline
  import F = MediaFeedSpec
  import R = RemoteSourceSpec

  // The ids of generation g's reads among some messages to the player.
  function ReadIds(ms: seq<ToUi>, g: int): seq<int> {
    if ms == [] then []
    else (if ms[0].gen == g then [ms[0].id] else []) + ReadIds(ms[1..], g)
  }

  // The ids of generation g's answers among some messages to the child.
  function ReplyIds(ms: seq<ToChild>, g: int): seq<int> {
    if ms == [] then []
    else (if ms[0].gen == g && !ms[0].Open? then [ms[0].id] else []) + ReplyIds(ms[1..], g)
  }

  // How many times generation g is still to be opened.
  function Opens(ms: seq<ToChild>, g: int): nat {
    if ms == [] then 0 else (if ms[0].gen == g && ms[0].Open? then 1 else 0) + Opens(ms[1..], g)
  }

  function DeviceIds(pending: seq<R.Req>): (r: seq<int>)
    ensures |r| == |pending| && forall i :: 0 <= i < |r| ==> r[i] == pending[i].id
  {
    seq(|pending|, i requires 0 <= i < |pending| => pending[i].id)
  }

  // All tickets of generation g, one per place an outstanding read can be in.
  function Tickets(s: System, g: int): multiset<int> {
    multiset(ReadIds(s.posted, g)) + multiset(ReadIds(s.toUi, g))
    + (if s.player.feed.Some? && s.player.gen == g then F.Waiting(s.player.feed.value.pending) else multiset{})
    + multiset(ReplyIds(s.toChild, g))
  }

  // The device still has request `id` out, at `offset`, for `length` or more.
  predicate Backed(pending: seq<R.Req>, id: int, offset: int, length: int) {
    exists q :: q in pending && q.id == id && q.offset == offset && length <= q.length
  }

  predicate MessageBacked(m: ToUi, pending: seq<R.Req>, g: int) {
    m.gen == g ==> Backed(pending, m.id, m.offset, m.length)
  }

  predicate ReplyBacked(m: ToChild, pending: seq<R.Req>, g: int) {
    m.gen == g && m.Data? ==> Backed(pending, m.id, m.offset, |m.bytes|)
  }

  predicate WaitingBacked(p: F.Pending, pending: seq<R.Req>) {
    Backed(pending, p.id, p.offset, p.length)
  }

  // No message and no waiting request names a request the device forgot.
  predicate AllBacked(s: System, pending: seq<R.Req>) {
    var g := s.player.gen;
    && (forall m :: m in s.posted ==> MessageBacked(m, pending, g))
    && (forall m :: m in s.toUi ==> MessageBacked(m, pending, g))
    && (s.player.feed.Some? ==> forall p :: p in s.player.feed.value.pending ==> WaitingBacked(p, pending))
    && (forall m :: m in s.toChild ==> ReplyBacked(m, pending, g))
  }

  // Everything about the open source's requests agrees at both ends.
  predicate Agree(s: System) {
    && s.child.device.Some? && s.player.feed.Some?
    && multiset(DeviceIds(s.child.device.value.pending)) == Tickets(s, s.player.gen)
    && AllBacked(s, s.child.device.value.pending)
  }

  predicate Old(ms: seq<ToUi>, gen: int) { forall m :: m in ms ==> m.gen <= gen }

  // Every "open" still on the way is for a later source than the one before it.
  predicate OpensAhead(ms: seq<ToChild>, gen: int) {
    if ms == [] then true
    else if ms[0].Open? then ms[0].gen > gen && OpensAhead(ms[1..], ms[0].gen)
    else OpensAhead(ms[1..], gen)
  }

  // The life of a source: its size unknown, its "open" on the way, or open.
  predicate Accounted(s: System) {
    && Old(s.posted, s.child.gen) && Old(s.toUi, s.child.gen) && OpensAhead(s.toChild, s.child.gen)
    && if s.player.feed.None? then s.child.device.None? && s.posted == [] && s.toUi == [] && s.toChild == []
       else
         var g := s.player.gen; var size := s.player.feed.value.size;
         if size == -1 then s.child.gen < g && Opens(s.toChild, g) == 0 && Tickets(s, g) == multiset{}
         else if Opens(s.toChild, g) > 0 then s.child.gen < g && Opens(s.toChild, g) == 1 && Tickets(s, g) == multiset{}
         else if size == 0 then s.child.gen < g && Tickets(s, g) == multiset{}
         else s.child.gen == g && Agree(s)
  }

  // ---- Ids of parts of a queue ----

  lemma {:induction false} ReadIdsAppend(a: seq<ToUi>, b: seq<ToUi>, g: int)
    ensures ReadIds(a + b, g) == ReadIds(a, g) + ReadIds(b, g)
  {
    if a == [] {
      assert a + b == b;
    } else {
      var head := if a[0].gen == g then [a[0].id] else [];
      assert (a + b)[1..] == a[1..] + b;
      ReadIdsAppend(a[1..], b, g);
      assert head + (ReadIds(a[1..], g) + ReadIds(b, g)) == (head + ReadIds(a[1..], g)) + ReadIds(b, g);
    }
  }

  lemma ReadIdsRemove(ms: seq<ToUi>, i: nat, g: int)
    requires i < |ms|
    ensures multiset(ReadIds(ms, g)) == multiset(ReadIds(RemoveAt(ms, i), g)) + multiset(ReadIds([ms[i]], g))
  {
    assert ms == ms[..i] + ([ms[i]] + ms[i + 1..]);
    ReadIdsAppend(ms[..i], [ms[i]] + ms[i + 1..], g);
    ReadIdsAppend([ms[i]], ms[i + 1..], g);
    ReadIdsAppend(ms[..i], ms[i + 1..], g);
  }

  lemma {:induction false} OldReadIds(ms: seq<ToUi>, gen: int, g: int)
    requires Old(ms, gen) && gen < g
    ensures ReadIds(ms, g) == []
  {
    if ms != [] {
      assert ms[0] in ms;
      OldReadIds(ms[1..], gen, g);
    }
  }

  lemma {:induction false} ReplyIdsAppend(a: seq<ToChild>, b: seq<ToChild>, g: int)
    ensures ReplyIds(a + b, g) == ReplyIds(a, g) + ReplyIds(b, g) && Opens(a + b, g) == Opens(a, g) + Opens(b, g)
  {
    if a == [] {
      assert a + b == b;
    } else {
      assert (a + b)[1..] == a[1..] + b;
      ReplyIdsAppend(a[1..], b, g);
    }
  }

  lemma {:induction false} OldReplyIds(ms: seq<ToChild>, gen: int, g: int)
    requires gen < g && forall m :: m in ms ==> m.gen <= gen
    ensures ReplyIds(ms, g) == [] && Opens(ms, g) == 0
  {
    if ms != [] {
      assert ms[0] in ms;
      OldReplyIds(ms[1..], gen, g);
    }
  }

  lemma {:induction false} AnswerTickets(answers: seq<F.Answer>, g: int)
    ensures ReplyIds(Messages(g, answers), g) == F.AnswerIds(answers) && Opens(Messages(g, answers), g) == 0
  {
    if answers != [] {
      AnswerTickets(answers[1..], g);
      assert Messages(g, answers)[1..] == Messages(g, answers[1..]);
      assert F.AnswerIds(answers) == [answers[0].id] + F.AnswerIds(answers[1..]);
    }
  }

  lemma {:induction false} OpensAheadAppend(a: seq<ToChild>, b: seq<ToChild>, gen: int)
    requires OpensAhead(a, gen)
    requires forall m :: m in b && m.Open? ==> b == [m] && gen < m.gen && forall x :: x in a ==> x.gen < m.gen
    ensures OpensAhead(a + b, gen)
  {
    if a == [] {
      assert a + b == b;
      if b != [] && b[0].Open? {
        assert b[0] in b;
      } else {
        NoOpensAhead(b, gen);
      }
    } else {
      assert (a + b)[1..] == a[1..] + b && a[0] in a;
      OpensAheadAppend(a[1..], b, if a[0].Open? then a[0].gen else gen);
    }
  }

  lemma {:induction false} NoOpensAhead(ms: seq<ToChild>, gen: int)
    requires forall m :: m in ms && m.Open? ==> m != ms[0] && |ms| == 1
    ensures OpensAhead(ms, gen)
  {
    if ms != [] {
      assert ms[0] in ms;
      forall m | m in ms[1..] ensures !m.Open? { assert m in ms; }
      NoOpensAhead(ms[1..], gen);
    }
  }

  lemma {:induction false} OpensAheadOfLess(ms: seq<ToChild>, gen: int, less: int)
    requires OpensAhead(ms, gen) && less <= gen
    ensures OpensAhead(ms, less)
  {
    if ms != [] && !ms[0].Open? {
      OpensAheadOfLess(ms[1..], gen, less);
    }
  }

  lemma AnswersAhead(ms: seq<ToChild>, gen: int, g: int, answers: seq<F.Answer>)
    requires OpensAhead(ms, gen)
    ensures OpensAhead(ms + Messages(g, answers), gen)
  {
    OpensAheadAppend(ms, Messages(g, answers), gen);
  }

  // ---- Each step keeps the account ----

  lemma AskedTickets(s: System, t: System, m: ToUi, g: int)
    requires t == s.(child := t.child, posted := s.posted + [m])
    ensures Tickets(t, g) == Tickets(s, g) + (if m.gen == g then multiset{m.id} else multiset{})
  {
    ReadIdsAppend(s.posted, [m], g);
  }

  lemma AskedOld(s: System, m: ToUi)
    requires Old(s.posted, m.gen)
    ensures Old(s.posted + [m], m.gen)
  {
  }

  lemma AskedBacked(s: System, t: System, m: ToUi, r: R.Req, old_: seq<R.Req>)
    requires AllBacked(s, old_)
    requires t == s.(child := t.child, posted := s.posted + [m])
    requires m == Read(m.gen, r.id, r.offset, r.length)
    ensures AllBacked(t, old_ + [r])
  {
    var new_ := old_ + [r];
    assert r in new_;
    assert forall id, offset, length {:trigger Backed(old_, id, offset, length)} ::
        Backed(old_, id, offset, length) ==> Backed(new_, id, offset, length);
    assert MessageBacked(m, new_, s.player.gen);
    forall x | x in t.posted ensures MessageBacked(x, new_, s.player.gen) {
      assert x in s.posted || x == m;
    }
  }

  lemma AskedAccounted(s: System, t: System, r: R.Req)
    requires Accounted(s) && s.child.device.Some?
    requires t == s.(child := t.child, posted := s.posted + [Read(s.child.gen, r.id, r.offset, r.length)])
    requires t.child.gen == s.child.gen && t.child.device.Some?
    requires t.child.device.value.pending == s.child.device.value.pending + [r]
    ensures Accounted(t)
  {
    hide AllBacked, Tickets, Old;
    var m := Read(s.child.gen, r.id, r.offset, r.length);
    var old_, new_ := s.child.device.value.pending, t.child.device.value.pending;
    AskedTickets(s, t, m, s.player.gen);
    AskedOld(s, m);
    assert DeviceIds(new_) == DeviceIds(old_) + [r.id];
    if s.child.gen == s.player.gen {
      AskedBacked(s, t, m, r, old_);
    }
  }

  // A step that changes no request, no message and no generation.
  lemma QuietAccounted(s: System, t: System)
    requires Accounted(s)
    requires t.posted == s.posted && t.toUi == s.toUi && t.toChild == s.toChild
    requires t.player.gen == s.player.gen && t.child.gen == s.child.gen
    requires t.player.feed.Some? == s.player.feed.Some? && t.child.device.Some? == s.child.device.Some?
    requires s.player.feed.Some? ==> t.player.feed.value.pending == s.player.feed.value.pending
                                     && t.player.feed.value.size == s.player.feed.value.size
    requires s.child.device.Some? ==> t.child.device.value.pending == s.child.device.value.pending
    ensures Accounted(t)
  {
  }

  lemma ReadsAccounted(s: System, reader: int, at: nat, maxSize: int)
    requires Accounted(s)
    ensures Accounted(Act(s, Reads(reader, at, maxSize)))
  {
    hide Accounted;
    if s.child.device.Some? && reader !in s.child.device.value.waiting {
      var step := R.Attempt(s.child.device.value, reader, at, maxSize);
      var t := Act(s, Reads(reader, at, maxSize));
      if step.turn.Asked? {
        AskedAccounted(s, t, step.turn.req);
      } else {
        QuietAccounted(s, t);
      }
    }
  }

  lemma PostsTickets(s: System, t: System, i: nat, g: int)
    requires i < |s.posted| && t == s.(posted := RemoveAt(s.posted, i), toUi := s.toUi + [s.posted[i]])
    ensures Tickets(t, g) == Tickets(s, g)
  {
    ReadIdsRemove(s.posted, i, g);
    ReadIdsAppend(s.toUi, [s.posted[i]], g);
  }

  lemma PostsBacked(s: System, i: nat, pending: seq<R.Req>)
    requires i < |s.posted| && AllBacked(s, pending)
    ensures AllBacked(Act(s, ChildPosts(i)), pending)
  {
    RemoveAtMultiset(s.posted, i);
    assert s.posted[i] in s.posted;
  }

  lemma PostsOld(s: System, i: nat, gen: int)
    requires i < |s.posted| && Old(s.posted, gen) && Old(s.toUi, gen)
    ensures Old(Act(s, ChildPosts(i)).posted, gen) && Old(Act(s, ChildPosts(i)).toUi, gen)
  {
    RemoveAtMultiset(s.posted, i);
    assert s.posted[i] in s.posted;
  }

  lemma PostsAccounted(s: System, i: nat)
    requires Accounted(s)
    ensures Accounted(Act(s, ChildPosts(i)))
  {
    hide AllBacked, Tickets, Old;
    if i < |s.posted| {
      PostsTickets(s, Act(s, ChildPosts(i)), i, s.player.gen);
      PostsOld(s, i, s.child.gen);
      if s.child.device.Some? && AllBacked(s, s.child.device.value.pending) {
        PostsBacked(s, i, s.child.device.value.pending);
      }
    }
  }

  // ---- The player takes a read, or the network serves its feed ----

  // The feed handled a list of requests (`asked`), all of them backed: what
  // still waits and what was answered are backed too, and add up to it.
  lemma FeedSettled(s: System, u: System, feed: F.Feed, asked: seq<F.Pending>, answers: seq<F.Answer>, file: Bytes)
    requires s.player.feed.Some?
    requires F.Settles(asked, feed.pending, answers, file)
    requires u == s.(player := s.player.(feed := Some(feed)), toChild := s.toChild + Messages(s.player.gen, answers))
    ensures Tickets(u, s.player.gen) + F.Waiting(s.player.feed.value.pending) == Tickets(s, s.player.gen) + F.Waiting(asked)
    ensures Opens(u.toChild, s.player.gen) == Opens(s.toChild, s.player.gen)
  {
    var g := s.player.gen;
    ReplyIdsAppend(s.toChild, Messages(g, answers), g);
    AnswerTickets(answers, g);
  }

  lemma FeedSettledBacked(s: System, u: System, feed: F.Feed, asked: seq<F.Pending>, answers: seq<F.Answer>, file: Bytes,
                          pending: seq<R.Req>)
    requires s.player.feed.Some? && AllBacked(s, pending)
    requires F.Settles(asked, feed.pending, answers, file)
    requires u == s.(player := s.player.(feed := Some(feed)), toChild := s.toChild + Messages(s.player.gen, answers))
    requires forall p :: p in asked ==> WaitingBacked(p, pending)
    ensures AllBacked(u, pending)
  {
    forall p | p in feed.pending ensures WaitingBacked(p, pending) {
      assert F.StillAsked(p, asked);
      var q :| q in asked && p.id == q.id && p.offset == q.offset && p.length <= q.length;
      assert WaitingBacked(q, pending);
    }
    forall m | m in u.toChild ensures ReplyBacked(m, pending, s.player.gen) {
      if m !in s.toChild {
        var i :| 0 <= i < |answers| && m == Message(s.player.gen, answers[i]);
        assert F.Justified(answers[i], asked, file);
        var q :| q in asked && q.id == answers[i].id && (answers[i].Data? ==>
                   answers[i].offset == q.offset && 0 < |answers[i].bytes| <= q.length
                   && IsSlice(file, answers[i].offset, answers[i].bytes));
        assert WaitingBacked(q, pending);
      }
    }
  }

  lemma HttpDataAccounted(s: System)
    requires Safe(s) && Accounted(s)
    ensures Accounted(Act(s, HttpData))
  {
    hide AllBacked, Tickets, Old, F.Settles, F.FeedOk, F.OnHttpData;
    if s.player.feed.Some? {
      var f := s.player.feed.value;
      var file := s.files[s.player.gen];
      F.OnHttpDataSettles(f, file);
      var r := F.OnHttpData(f);
      var u := Act(s, HttpData);
      FeedSettled(s, u, r.feed, f.pending, r.answers, file);
      AnswersAhead(s.toChild, s.child.gen, s.player.gen, r.answers);
      MultisetCancel(Tickets(u, s.player.gen), Tickets(s, s.player.gen), F.Waiting(f.pending));
      if s.child.device.Some? && AllBacked(s, s.child.device.value.pending) {
        WaitingAreBacked(s, s.child.device.value.pending);
        FeedSettledBacked(s, u, r.feed, f.pending, r.answers, file, s.child.device.value.pending);
      }
    }
  }

  lemma WaitingAreBacked(s: System, pending: seq<R.Req>)
    requires s.player.feed.Some? && AllBacked(s, pending)
    ensures forall p :: p in s.player.feed.value.pending ==> WaitingBacked(p, pending)
  {
  }

  // A read of an earlier generation is dropped; it was no ticket.
  lemma StaleReadAccounted(s: System)
    requires Accounted(s) && s.toUi != [] && s.player.feed.Some? && s.toUi[0].gen != s.player.gen
    ensures Accounted(s.(toUi := s.toUi[1..]))
  {
    var t := s.(toUi := s.toUi[1..]);
    assert Tickets(t, s.player.gen) == Tickets(s, s.player.gen);
    OldTail(s.toUi, s.child.gen);
    FewerBacked(s);
    hide Tickets, AllBacked, Old, OpensAhead, Opens;
  }

  lemma FewerBacked(s: System)
    requires s.toUi != []
    ensures forall pending :: AllBacked(s, pending) ==> AllBacked(s.(toUi := s.toUi[1..]), pending)
  {
  }

  // The current source's read leaves the channel and joins the feed's list.
  lemma TakenRead(s: System, f: F.Feed)
    requires s.toUi != [] && s.player.feed == Some(f) && s.toUi[0].gen == s.player.gen
    ensures var m := s.toUi[0]; var t := s.(toUi := s.toUi[1..]);
            Tickets(t, s.player.gen) + F.Waiting(f.pending + [F.Pending(m.id, m.offset, m.length)])
              == Tickets(s, s.player.gen) + F.Waiting(f.pending)
  {
    var m := s.toUi[0];
    F.WaitingAppend(f.pending, [F.Pending(m.id, m.offset, m.length)]);
    assert F.PendingIds([F.Pending(m.id, m.offset, m.length)]) == [m.id];
  }

  lemma TakenReadBacked(s: System, f: F.Feed, pending: seq<R.Req>)
    requires s.toUi != [] && s.player.feed == Some(f) && s.toUi[0].gen == s.player.gen && AllBacked(s, pending)
    ensures AllBacked(s.(toUi := s.toUi[1..]), pending)
    ensures var m := s.toUi[0];
            forall p :: p in f.pending + [F.Pending(m.id, m.offset, m.length)] ==> WaitingBacked(p, pending)
  {
    assert MessageBacked(s.toUi[0], pending, s.player.gen);
  }

  lemma OldTail(ms: seq<ToUi>, gen: int)
    requires Old(ms, gen) && ms != []
    ensures Old(ms[1..], gen) && ms[0].gen <= gen
  {
  }

  lemma UiReceivesAccounted(s: System, diskGives: nat)
    requires Safe(s) && Accounted(s)
    ensures Accounted(Act(s, UiReceives(diskGives)))
  {
    hide AllBacked, Tickets, F.Settles, F.FeedOk, F.Request, Old;
    if s.toUi != [] {
      var f := s.player.feed.value;
      var m := s.toUi[0];
      OldTail(s.toUi, s.child.gen);
      if m.gen != s.player.gen {
        StaleReadAccounted(s);
        assert s.toChild + [] == s.toChild;
      } else {
        var file := s.files[s.player.gen];
        var asked := f.pending + [F.Pending(m.id, m.offset, m.length)];
        F.RequestSettles(f, m.id, m.offset, m.length, diskGives, file);
        var r := F.Request(f, m.id, m.offset, m.length, diskGives);
        var t := s.(toUi := s.toUi[1..]);
        var u := Act(s, UiReceives(diskGives));
        TakenRead(s, f);
        FeedSettled(t, u, r.feed, asked, r.answers, file);
        AnswersAhead(s.toChild, s.child.gen, s.player.gen, r.answers);
        MultisetCancel(Tickets(u, s.player.gen), Tickets(s, s.player.gen), F.Waiting(f.pending));
        if s.child.gen == s.player.gen {
          TakenReadBacked(s, f, s.child.device.value.pending);
          FeedSettledBacked(t, u, r.feed, asked, r.answers, file, s.child.device.value.pending);
        }
      }
    }
  }

  // ---- The child takes an answer, or opens a source ----

  lemma ReplyHead(s: System, g: int)
    requires s.toChild != []
    ensures var m := s.toChild[0]; var t := s.(toChild := s.toChild[1..]);
            && Tickets(s, g) == Tickets(t, g) + (if m.gen == g && !m.Open? then multiset{m.id} else multiset{})
            && Opens(s.toChild, g) == Opens(t.toChild, g) + (if m.gen == g && m.Open? then 1 else 0)
  {
  }

  // Request i of the device is settled and gone. Its id was one ticket, and no
  // other ticket has that id; so what the other tickets name is still there.
  lemma GoneBacked(pending: seq<R.Req>, i: nat, id: int, offset: int, length: int)
    requires i < |pending| && R.DistinctIds(pending)
    requires Backed(pending, id, offset, length) && id != pending[i].id
    ensures Backed(RemoveAt(pending, i), id, offset, length)
  {
    R.RemoveKeepsReqs(pending, i);
  }

  lemma {:induction false} ReadIdIn(ms: seq<ToUi>, m: ToUi)
    requires m in ms
    ensures m.id in ReadIds(ms, m.gen)
  {
    if ms[0] != m {
      ReadIdIn(ms[1..], m);
    }
  }

  lemma {:induction false} ReplyIdIn(ms: seq<ToChild>, m: ToChild)
    requires m in ms && !m.Open?
    ensures m.id in ReplyIds(ms, m.gen)
  {
    if ms[0] != m {
      ReplyIdIn(ms[1..], m);
    }
  }

  lemma DeviceIdsRemove(pending: seq<R.Req>, i: nat)
    requires i < |pending| && R.DistinctIds(pending)
    ensures multiset(DeviceIds(pending)) == multiset(DeviceIds(RemoveAt(pending, i))) + multiset{pending[i].id}
    ensures pending[i].id !in multiset(DeviceIds(RemoveAt(pending, i)))
  {
    assert DeviceIds(RemoveAt(pending, i)) == RemoveAt(DeviceIds(pending), i);
    RemoveAtMultiset(DeviceIds(pending), i);
    R.RemoveKeepsReqs(pending, i);
    var rest := RemoveAt(pending, i);
    forall k | 0 <= k < |rest| ensures DeviceIds(rest)[k] != pending[i].id {
      assert rest[k] in rest;
    }
  }

  lemma AllBackedWithout(t: System, pending: seq<R.Req>, i: nat)
    requires i < |pending| && R.DistinctIds(pending) && AllBacked(t, pending)
    requires pending[i].id !in Tickets(t, t.player.gen)
    ensures AllBacked(t, RemoveAt(pending, i))
  {
    var g := t.player.gen;
    var rest := RemoveAt(pending, i);
    forall m | m in t.posted ensures MessageBacked(m, rest, g) {
      if m.gen == g { ReadIdIn(t.posted, m); GoneBacked(pending, i, m.id, m.offset, m.length); }
    }
    forall m | m in t.toUi ensures MessageBacked(m, rest, g) {
      if m.gen == g { ReadIdIn(t.toUi, m); GoneBacked(pending, i, m.id, m.offset, m.length); }
    }
    forall m | m in t.toChild ensures ReplyBacked(m, rest, g) {
      if m.gen == g && m.Data? { ReplyIdIn(t.toChild, m); GoneBacked(pending, i, m.id, m.offset, |m.bytes|); }
    }
    if t.player.feed.Some? {
      forall p | p in t.player.feed.value.pending ensures WaitingBacked(p, rest) {
        GoneBacked(pending, i, p.id, p.offset, p.length);
      }
    }
  }

  // The device finds the request an answer is for, and takes the answer.
  lemma AnswerFits(d: R.Device, m: ToChild, file: Bytes)
    requires R.DeviceOk(d, file) && !m.Open? && m.id in DeviceIds(d.pending)
    requires m.Data? ==> Backed(d.pending, m.id, m.offset, |m.bytes|) && m.bytes != [] && IsSlice(file, m.offset, m.bytes)
    ensures R.Find(d.pending, m.id) < |d.pending|
    ensures m.Data? ==> R.Takes(d, m.id, m.offset, m.bytes)
  {
    var k :| 0 <= k < |d.pending| && d.pending[k].id == m.id;
    var i := R.Find(d.pending, m.id);
    if m.Data? {
      var q :| q in d.pending && q.id == m.id && q.offset == m.offset && |m.bytes| <= q.length;
      var j :| 0 <= j < |d.pending| && d.pending[j] == q;
      assert i == j;
    }
  }

  // Taking the answer removes exactly its own request.
  lemma AnswerTaken(s: System) returns (i: nat)
    requires Safe(s) && s.toChild != [] && s.child.device.Some?
    requires s.toChild[0].gen == s.child.gen && !s.toChild[0].Open?
    requires s.toChild[0].id in DeviceIds(s.child.device.value.pending)
    requires ReplyBacked(s.toChild[0], s.child.device.value.pending, s.child.gen)
    ensures var d := s.child.device.value; var e := ChildTakes(s.child, s.toChild[0]);
            && i < |d.pending| && d.pending[i].id == s.toChild[0].id && R.DistinctIds(d.pending)
            && e.gen == s.child.gen && e.device.Some? && e.device.value.pending == RemoveAt(d.pending, i)
  {
    hide F.FeedOk, R.Deliver, R.Fail, R.Takes;
    var m := s.toChild[0];
    var d := s.child.device.value;
    assert MessageOk(m, s);
    AnswerFits(d, m, s.files[m.gen]);
    i := R.Find(d.pending, m.id);
    if m.Data? {
      R.DeliverKeeps(d, m.id, m.offset, m.bytes, s.files[m.gen]);
    } else {
      FailRemoves(d, m.id);
    }
  }

  lemma AnsweredAccounted(s: System)
    requires Safe(s) && Agree(s) && s.toChild != []
    requires s.toChild[0].gen == s.player.gen == s.child.gen && !s.toChild[0].Open?
    ensures Agree(Act(s, ChildReceives)) && Act(s, ChildReceives).child.gen == s.child.gen
  {
    var m := s.toChild[0];
    var g := s.player.gen;
    var d := s.child.device.value;
    var t := s.(toChild := s.toChild[1..]);
    var u := Act(s, ChildReceives);
    hide Tickets, Safe, ChildTakes, AllBacked, RemoveAt, R.DistinctIds, ReplyBacked, Act, DeviceIds;
    ActChildReceives(s);
    ReplyHead(s, g);
    AllBackedTail(s, d.pending);
    assert m.id in multiset(DeviceIds(d.pending));
    var i := AnswerTaken(s);
    var rest := RemoveAt(d.pending, i);
    DeviceIdsRemove(d.pending, i);
    MultisetCancel(multiset(DeviceIds(rest)), Tickets(t, g), multiset{m.id});
    AllBackedWithout(t, d.pending, i);
    SameTickets(t, u, g, rest);
  }

  lemma ActChildReceives(s: System)
    requires s.toChild != []
    ensures Act(s, ChildReceives) == s.(child := ChildTakes(s.child, s.toChild[0]), toChild := s.toChild[1..])
  {
  }

  lemma AllBackedTail(s: System, pending: seq<R.Req>)
    requires AllBacked(s, pending) && s.toChild != []
    ensures AllBacked(s.(toChild := s.toChild[1..]), pending) && ReplyBacked(s.toChild[0], pending, s.player.gen)
  {
    assert s.toChild[0] in s.toChild;
  }

  lemma FailRemoves(d: R.Device, id: int)
    requires R.Find(d.pending, id) < |d.pending|
    ensures R.Fail(d, id).pending == RemoveAt(d.pending, R.Find(d.pending, id))
  {
  }

  lemma SameTickets(t: System, u: System, g: int, pending: seq<R.Req>)
    requires u == t.(child := u.child)
    ensures Tickets(u, g) == Tickets(t, g)
    ensures AllBacked(t, pending) ==> AllBacked(u, pending)
  {
  }

  lemma {:induction false} NoReadIds(ms: seq<ToUi>, g: int)
    requires ReadIds(ms, g) == []
    ensures forall m :: m in ms ==> m.gen != g
  {
    if ms != [] {
      NoReadIds(ms[1..], g);
    }
  }

  lemma {:induction false} NoReplyIds(ms: seq<ToChild>, g: int)
    requires ReplyIds(ms, g) == []
    ensures forall m :: m in ms && m.gen == g ==> m.Open?
  {
    if ms != [] {
      NoReplyIds(ms[1..], g);
    }
  }

  lemma NoTickets(s: System, g: int)
    requires Tickets(s, g) == multiset{}
    ensures ReadIds(s.posted, g) == [] && ReadIds(s.toUi, g) == [] && ReplyIds(s.toChild, g) == []
    ensures s.player.feed.Some? && s.player.gen == g ==> s.player.feed.value.pending == []
  {
    var fed := if s.player.feed.Some? && s.player.gen == g then F.Waiting(s.player.feed.value.pending) else multiset{};
    assert |Tickets(s, g)| == |ReadIds(s.posted, g)| + |ReadIds(s.toUi, g)| + |fed| + |ReplyIds(s.toChild, g)|;
  }

  // With no ticket out there is nothing to back.
  lemma NothingToBack(s: System)
    requires Tickets(s, s.player.gen) == multiset{}
    ensures AllBacked(s, [])
  {
    NoTickets(s, s.player.gen);
    NoReadIds(s.posted, s.player.gen);
    NoReadIds(s.toUi, s.player.gen);
    NoReplyIds(s.toChild, s.player.gen);
  }

  lemma OldLater(ms: seq<ToUi>, gen: int, later: int)
    requires Old(ms, gen) && gen <= later
    ensures Old(ms, later)
  {
  }

  // The current source's "open" arrives.
  lemma OpenHead(s: System)
    requires Safe(s) && s.toChild != [] && s.toChild[0].Open?
    ensures s.toChild[0].gen in s.files && s.toChild[0].size == |s.files[s.toChild[0].gen]|
  {
    hide F.FeedOk, R.DeviceOk, ReadOk;
    assert MessageOk(s.toChild[0], s);
  }

  lemma OpenedChild(s: System)
    requires s.toChild != [] && s.toChild[0].Open? && OpensAhead(s.toChild, s.child.gen)
    ensures var m, c := s.toChild[0], ChildTakes(s.child, s.toChild[0]);
            && s.child.gen < m.gen && s.child.gen <= c.gen && OpensAhead(s.toChild[1..], c.gen)
            && if m.size > 0 then c.gen == m.gen && c.device.Some? && c.device.value.pending == []
               else c.gen == s.child.gen
  {
    OpensAheadOfLess(s.toChild[1..], s.toChild[0].gen, ChildTakes(s.child, s.toChild[0]).gen);
  }

  lemma OpenedAccounted(s: System)
    requires Safe(s) && Accounted(s) && s.toChild != [] && s.player.feed.Some?
    requires s.toChild[0].Open? && s.toChild[0].gen == s.player.gen
    ensures Accounted(Act(s, ChildReceives))
  {
    hide Safe, Accounted, Act;
    OpenedOne(s);
    OpenHead(s);
    FeedSize(s);
    var u := Act(s, ChildReceives);
    if s.toChild[0].size > 0 {
      NothingToBack(u);
      OpenAccounted(u);
    } else {
      EmptyAccounted(u);
    }
  }

  lemma OpenedOne(s: System)
    requires Accounted(s) && s.toChild != [] && s.player.feed.Some?
    requires s.toChild[0].Open? && s.toChild[0].gen == s.player.gen
    ensures var u, g := Act(s, ChildReceives), s.player.gen;
            && u.player == s.player && Tickets(u, g) == multiset{} && Opens(u.toChild, g) == 0
            && Old(u.posted, u.child.gen) && Old(u.toUi, u.child.gen) && OpensAhead(u.toChild, u.child.gen)
            && u.player.feed.value.size != -1
            && if s.toChild[0].size > 0 then u.child.gen == g && u.child.device.Some? && u.child.device.value.pending == []
               else u.child.gen < g
  {
    var g, t, u := s.player.gen, s.(toChild := s.toChild[1..]), Act(s, ChildReceives);
    hide Tickets, Old, OpensAhead, ChildTakes, Act, Agree;
    ActChildReceives(s);
    OpenedChild(s);
    ReplyHead(s, g);
    assert Tickets(t, g) == Tickets(s, g);
    SameTickets(t, u, g, []);
    OldLater(s.posted, s.child.gen, u.child.gen);
    OldLater(s.toUi, s.child.gen, u.child.gen);
    hide Opens;
  }

  lemma OpenAccounted(u: System)
    requires Old(u.posted, u.child.gen) && Old(u.toUi, u.child.gen) && OpensAhead(u.toChild, u.child.gen)
    requires u.player.feed.Some? && u.player.feed.value.size > 0 && u.child.gen == u.player.gen
    requires Opens(u.toChild, u.player.gen) == 0 && Tickets(u, u.player.gen) == multiset{}
    requires u.child.device.Some? && u.child.device.value.pending == [] && AllBacked(u, [])
    ensures Accounted(u)
  {
    assert DeviceIds([]) == [];
  }

  lemma EmptyAccounted(u: System)
    requires Old(u.posted, u.child.gen) && Old(u.toUi, u.child.gen) && OpensAhead(u.toChild, u.child.gen)
    requires u.player.feed.Some? && u.player.feed.value.size == 0 && u.child.gen < u.player.gen
    requires Opens(u.toChild, u.player.gen) == 0 && Tickets(u, u.player.gen) == multiset{}
    ensures Accounted(u)
  {
  }

  lemma FeedSize(s: System)
    requires Safe(s) && s.player.feed.Some?
    ensures s.player.feed.value.size == -1 || s.player.feed.value.size == |s.files[s.player.gen]|
  {
  }

  // What an earlier source's "open" or answer can do to the child.
  lemma StaleChild(s: System)
    requires s.toChild != [] && s.toChild[0].gen < s.player.gen && OpensAhead(s.toChild, s.child.gen)
    ensures var c := ChildTakes(s.child, s.toChild[0]);
            && s.child.gen <= c.gen && (s.child.gen == s.player.gen ==> c == s.child)
            && (s.child.gen < s.player.gen ==> c.gen < s.player.gen)
            && OpensAhead(s.toChild[1..], c.gen)
  {
    hide R.Deliver, R.Fail;
    var m, c := s.toChild[0], ChildTakes(s.child, s.toChild[0]);
    OpensAheadOfLess(s.toChild[1..], if m.Open? then m.gen else s.child.gen, c.gen);
  }

  // Anything else that arrives: an earlier source's "open" or answer, or one
  // for a source the child has not opened.
  lemma StaleAccounted(s: System)
    requires Safe(s) && Accounted(s) && s.toChild != [] && s.player.feed.Some?
    requires s.toChild[0].gen < s.player.gen
    ensures Accounted(Act(s, ChildReceives))
  {
    hide Safe, Tickets, AllBacked, Old, OpensAhead, ChildTakes, Act;
    var g, t, u := s.player.gen, s.(toChild := s.toChild[1..]), Act(s, ChildReceives);
    ActChildReceives(s);
    StaleChild(s);
    ReplyHead(s, g);
    assert Tickets(t, g) == Tickets(s, g);
    OldLater(s.posted, s.child.gen, u.child.gen);
    OldLater(s.toUi, s.child.gen, u.child.gen);
    var pending := if s.child.device.Some? then s.child.device.value.pending else [];
    SameTickets(t, u, g, pending);
    if Agree(s) {
      AllBackedTail(s, pending);
    }
  }

  lemma ChildReceivesAccounted(s: System)
    requires Safe(s) && Accounted(s)
    ensures Accounted(Act(s, ChildReceives))
  {
    if s.toChild != [] {
      var m := s.toChild[0];
      assert MessageOk(m, s) && s.player.feed.Some?;
      if m.gen < s.player.gen {
        StaleAccounted(s);
      } else if m.Open? {
        OpenedAccounted(s);
      } else {
        AnswerIsATicket(s);
        AnsweredAccounted(s);
        hide Agree, Old;
        ActChildReceives(s);
        ReplyHead(s, s.player.gen);
      }
    }
  }

  // An answer for the current source is only ever out while it is open.
  lemma AnswerIsATicket(s: System)
    requires Accounted(s) && s.toChild != [] && s.player.feed.Some?
    requires s.toChild[0].gen == s.player.gen && !s.toChild[0].Open?
    ensures s.child.gen == s.player.gen && Agree(s)
  {
    assert ReplyIds(s.toChild, s.player.gen)[0] == s.toChild[0].id;
    assert s.toChild[0].id in Tickets(s, s.player.gen);
  }

  // ---- Sources come and go ----

  lemma StartFeedAccounted(s: System, file: Bytes, isLocal: bool)
    requires Safe(s) && Accounted(s)
    ensures Accounted(Act(s, StartFeed(file, isLocal)))
  {
    var u := Act(s, StartFeed(file, isLocal));
    NothingAsksAhead(s, s.player.gen + 1);
    NewFeed(s, file, isLocal);
    hide Safe, Old, OpensAhead, Agree, Opens, Tickets, Act;
    assert Tickets(u, u.player.gen) == Tickets(s, u.player.gen);
  }

  lemma NewFeed(s: System, file: Bytes, isLocal: bool)
    requires Accounted(s)
    ensures var u := Act(s, StartFeed(file, isLocal));
            && u.player.gen == s.player.gen + 1 && u.player.feed.Some? && u.player.feed.value.size == -1
            && u.child == s.child && u.posted == s.posted && u.toUi == s.toUi && u.toChild == s.toChild
            && Tickets(u, u.player.gen) == Tickets(s, u.player.gen)
  {
    hide Accounted, ReadIds, ReplyIds;
    assert F.Waiting([]) == multiset{};
  }

  // Nothing under way is about a source that has not started.
  lemma NothingAsksAhead(s: System, g: int)
    requires Safe(s) && Accounted(s) && g > s.player.gen
    ensures Tickets(s, g) == multiset{} && Opens(s.toChild, g) == 0
  {
    hide F.FeedOk, R.DeviceOk, Agree, OpensAhead;
    OldReadIds(s.posted, s.child.gen, g);
    OldReadIds(s.toUi, s.child.gen, g);
    OldMessages(s);
    OldReplyIds(s.toChild, s.player.gen, g);
  }

  lemma OldMessages(s: System)
    requires Safe(s)
    ensures forall m :: m in s.toChild ==> m.gen <= s.player.gen
  {
    forall m | m in s.toChild ensures m.gen <= s.player.gen { assert MessageOk(m, s); }
  }

  lemma {:induction false} NoOpenIsLess(ms: seq<ToChild>, gen: int, g: int)
    requires Opens(ms, g) == 0 && ReplyIds(ms, g) == [] && forall m :: m in ms ==> m.gen <= g
    ensures forall m :: m in ms ==> m.gen < g
  {
    if ms != [] {
      assert ms[0] in ms;
      NoOpenIsLess(ms[1..], gen, g);
    }
  }

  lemma ReadyAccounted(s: System)
    requires Safe(s) && Accounted(s)
    ensures Accounted(Ready(s))
  {
    var g := s.player.gen;
    var t := Ready(s);
    if t != s {
      var m := Open(g, |s.files[g]|);
      ReplyIdsAppend(s.toChild, [m], g);
      OldMessages(s);
      NoTickets(s, g);
      NoOpenIsLess(s.toChild, s.child.gen, g);
      OpensAheadAppend(s.toChild, [m], s.child.gen);
      assert Tickets(t, g) == Tickets(s, g);
    }
  }

  lemma ActAccounted(s: System, a: Action)
    requires Safe(s) && Accounted(s)
    ensures Accounted(Act(s, a))
  {
    hide Accounted, Safe;
    match a
    case StartFeed(file, isLocal) => StartFeedAccounted(s, file, isLocal);
    case FeedReady => ReadyAccounted(s);
    case Teardown => TeardownAccounted(s);
    case UiReceives(diskGives) => UiReceivesAccounted(s, diskGives);
    case Network(reply) => QuietAccounted(s, Act(s, a));
    case HttpData => HttpDataAccounted(s);
    case ChildReceives => ChildReceivesAccounted(s);
    case ChildPosts(i) => PostsAccounted(s, i);
    case Reads(reader, at, maxSize) => ReadsAccounted(s, reader, at, maxSize);
    case Deadline(reader) => QuietAccounted(s, Act(s, a));
  }

  lemma TeardownAccounted(s: System)
    ensures Accounted(Act(s, Teardown))
  {
  }

  // ---- Over whole runs ----

  predicate Awake(s: System) { s.child.device.Some? ==> R.NoLostWakeUp(s.child.device.value) }

  lemma ActAwake(s: System, a: Action)
    requires Awake(s)
    ensures Awake(Act(s, a))
  {
    if a.Reads? && s.child.device.Some? && a.reader !in s.child.device.value.waiting {
      R.AttemptWakeUp(s.child.device.value, a.reader, a.at, a.maxSize);
    } else if a.ChildReceives? && s.toChild != [] && s.child.device.Some? {
      R.HappensKeepsWakeUp(s.child.device.value, AsEvent(s.toChild[0]));
    }
  }

  // What an answer does to the device it reaches.
  function AsEvent(m: ToChild): R.Event {
    match m
    case Open(_, _) => R.Aborts
    case Data(_, id, offset, bytes) => R.Delivers(id, offset, bytes)
    case DataError(_, id) => R.Fails(id)
  }

  lemma {:induction false} RunAccounted(s: System, actions: seq<Action>)
    requires Safe(s) && Accounted(s) && Awake(s)
    ensures Safe(Run(s, actions)) && Accounted(Run(s, actions)) && Awake(Run(s, actions))
    decreases |actions|
  {
    hide Safe, Accounted, Awake, Act;
    if actions != [] {
      ActSafe(s, actions[0]);
      ActAccounted(s, actions[0]);
      ActAwake(s, actions[0]);
      RunAccounted(Act(s, actions[0]), actions[1..]);
    }
  }

  // No read is lost or answered twice: in every run, a reader of the current
  // source that sleeps on byte b has a request out that covers b, and that
  // request is in exactly one of the four places it can be in.
  lemma NoReadIsLost(actions: seq<Action>, reader: int) returns (q: R.Req)
    requires var s := Run(INIT, actions);
             && s.child.device.Some? && s.child.gen == s.player.gen && reader in s.child.device.value.waiting
    ensures var s := Run(INIT, actions); var d := s.child.device.value;
            && q in d.pending && R.Covers(q, d.waiting[reader])
            && Tickets(s, s.player.gen)[q.id] == 1
  {
    RunAccounted(INIT, actions);
    var s := Run(INIT, actions);
    var d := s.child.device.value;
    q :| q in d.pending && R.Covers(q, d.waiting[reader]);
    var i :| 0 <= i < |d.pending| && d.pending[i] == q;
    DeviceIdsRemove(d.pending, i);
  }
}
