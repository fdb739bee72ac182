// Blocking calls from the UI to the engine process, and the guard against an
// engine that keeps crashing.
// Source: src/ipc/ipcengine.cpp, src/ipc/enginehost.cpp.
module IpcCalls {
  import opened Common

  const IDS := 0x1_0000_0000   // m_nextId is a quint32
  const KEEP_REPLIES := 64

  function IdOf(call: nat): nat { (call + 1) % IDS }

  // `call` says which call a message belongs to; only the id is on the wire.
  datatype Request = Request(id: nat, call: nat)
  datatype Reply = Reply(id: nat, call: nat, result: Bytes)

  // `calls` counts the calls made; `open` holds the calls that wait, a nested
  // one after the one whose event handler made it.
  datatype Client = Client(calls: nat, replies: map<nat, Reply>, open: seq<nat>)

  datatype Returned = Returned(call: nat, got: Option<Bytes>)

  // `results` is what the engine computed for each call it served.
  datatype System = System(client: Client, toEngine: seq<Request>, toUi: seq<Reply>,
                           results: map<nat, Bytes>, returned: seq<Returned>)

  const INIT := System(Client(0, map[], []), [], [], map[], [])

  // Begin: a connected call sends its request and starts to wait, at top level
  // or from a handler of an event that arrived during another call's wait.
  // Serve: the engine takes one request. Arrive: one reply frame is handled,
  // whoever pumped it. Finish: the innermost call returns, with its reply or,
  // at a time-out or a lost connection, without. Crash: both channels go.
  datatype Action = Begin | Serve(result: Bytes) | Arrive | Finish | Crash

  function Pruned(replies: map<nat, Reply>): map<nat, Reply> {
    if |replies| > KEEP_REPLIES then map[] else replies
  }

  function Opened(c: Client): Client {
    Client(c.calls + 1, Pruned(c.replies), c.open + [c.calls])
  }

  function Stored(c: Client, r: Reply): Client { c.(replies := c.replies[r.id := r]) }

  function Taken(c: Client): (Client, Returned)
    requires c.open != []
  {
    var call := c.open[|c.open| - 1];
    var id := IdOf(call);
    (c.(replies := c.replies - {id}, open := c.open[..|c.open| - 1]),
     Returned(call, if id in c.replies then Some(c.replies[id].result) else None))
  }

  function Act(s: System, a: Action): System {
    match a
    case Begin =>
      s.(client := Opened(s.client), toEngine := s.toEngine + [Request(IdOf(s.client.calls), s.client.calls)])
    case Serve(result) =>
      if s.toEngine == [] then s
      else
        var q := s.toEngine[0];
        s.(toEngine := s.toEngine[1..], toUi := s.toUi + [Reply(q.id, q.call, result)],
           results := s.results[q.call := result])
    case Arrive =>
      if s.toUi == [] then s
      else s.(toUi := s.toUi[1..], client := Stored(s.client, s.toUi[0]))
    case Finish =>
      if s.client.open == [] then s
      else
        var t := Taken(s.client);
        s.(client := t.0, returned := s.returned + [t.1])
    case Crash => s.(toEngine := [], toUi := [])
  }

  function Run(s: System, actions: seq<Action>): System
    decreases |actions|
  {
    if actions == [] then s else Run(Act(s, actions[0]), actions[1..])
  }

  // ---- Replies reach their own call ----

  predicate RequestOk(q: Request, calls: nat) { q.id == IdOf(q.call) && q.call < calls }

  predicate ReplyOk(r: Reply, s: System) {
    r.id == IdOf(r.call) && r.call < s.client.calls && r.call in s.results && s.results[r.call] == r.result
  }

  // The engine serves each call once, in the order the calls were made.
  predicate InCallOrder(qs: seq<Request>) { forall i, j :: 0 <= i < j < |qs| ==> qs[i].call < qs[j].call }

  // What a call returned is the engine's result for a call with its id.
  ghost predicate ReturnedOk(x: Returned, s: System) {
    x.call < s.client.calls
    && (x.got.Some? ==>
          exists c :: c in s.results && c < s.client.calls && IdOf(c) == IdOf(x.call) && s.results[c] == x.got.value)
  }

  ghost predicate CallsOk(s: System) {
    && (forall q :: q in s.toEngine ==> RequestOk(q, s.client.calls) && q.call !in s.results)
    && InCallOrder(s.toEngine)
    && (forall r :: r in s.toUi ==> ReplyOk(r, s))
    && (forall id :: id in s.client.replies ==> ReplyOk(s.client.replies[id], s) && s.client.replies[id].id == id)
    && (forall i :: 0 <= i < |s.client.open| ==> s.client.open[i] < s.client.calls)
    && (forall c :: c in s.results ==> c < s.client.calls)
    && (forall x :: x in s.returned ==> ReturnedOk(x, s))
  }

  // More calls and more results, none changed: what was right stays right.
  lemma StaysOk(s: System, t: System)
    requires s.client.calls <= t.client.calls
    requires forall c :: c in s.results ==> c in t.results && t.results[c] == s.results[c]
    ensures forall r :: ReplyOk(r, s) ==> ReplyOk(r, t)
    ensures forall x :: ReturnedOk(x, s) ==> ReturnedOk(x, t)
  {
  }

  lemma BeginOk(s: System)
    requires CallsOk(s)
    ensures CallsOk(Act(s, Begin))
  {
    var t := Act(s, Begin);
    StaysOk(s, t);
    hide ReplyOk, ReturnedOk, IdOf;
    forall q | q in t.toEngine ensures RequestOk(q, t.client.calls) && q.call !in t.results {
      assert q in s.toEngine || q == Request(IdOf(s.client.calls), s.client.calls);
    }
    assert forall q :: q in s.toEngine ==> q.call < s.client.calls;
  }

  lemma ServeOk(s: System, result: Bytes)
    requires CallsOk(s)
    ensures CallsOk(Act(s, Serve(result)))
  {
    if s.toEngine != [] {
      var t := Act(s, Serve(result));
      var q := s.toEngine[0];
      assert q in s.toEngine;
      StaysOk(s, t);
      assert ReplyOk(Reply(q.id, q.call, result), t);
      hide ReplyOk, ReturnedOk, IdOf;
      forall p | p in t.toEngine ensures RequestOk(p, t.client.calls) && p.call !in t.results {
        var i :| 0 <= i < |t.toEngine| && t.toEngine[i] == p;
        assert s.toEngine[i + 1] == p && p in s.toEngine;
      }
    }
  }

  lemma ArriveOk(s: System)
    requires CallsOk(s)
    ensures CallsOk(Act(s, Arrive))
  {
    if s.toUi != [] {
      assert s.toUi[0] in s.toUi;
      StaysOk(s, Act(s, Arrive));
      hide ReturnedOk, IdOf;
    }
  }

  lemma FinishOk(s: System)
    requires CallsOk(s)
    ensures CallsOk(Act(s, Finish))
  {
    if s.client.open != [] {
      var t := Act(s, Finish);
      var x := Taken(s.client).1;
      StaysOk(s, t);
      assert ReturnedOk(x, t) by {
        if x.got.Some? {
          var r := s.client.replies[IdOf(x.call)];
          assert ReplyOk(r, s) && r.id == IdOf(x.call);
          assert r.call in t.results && IdOf(r.call) == IdOf(x.call);
        }
      }
      hide ReturnedOk, ReplyOk, IdOf;
    }
  }

  lemma ActOk(s: System, a: Action)
    requires CallsOk(s)
    ensures CallsOk(Act(s, a))
  {
    match a
    case Begin => BeginOk(s);
    case Serve(result) => ServeOk(s, result);
    case Arrive => ArriveOk(s);
    case Finish => FinishOk(s);
    case Crash => StaysOk(s, Act(s, Crash));
  }

  lemma {:induction false} RunOk(s: System, actions: seq<Action>)
    requires CallsOk(s)
    ensures CallsOk(Run(s, actions))
    decreases |actions|
  {
    hide CallsOk, Act;
    if actions != [] {
      ActOk(s, actions[0]);
      RunOk(Act(s, actions[0]), actions[1..]);
    }
  }

  lemma SameIdSameCall(a: nat, b: nat)
    requires a < IDS && b < IDS && IdOf(a) == IdOf(b)
    ensures a == b
  {
  }

  // In every run with at most 2^32 calls, nested as they may be and whatever
  // is late, orphaned or pruned: a call returns nothing, or the engine's
  // result for that very call.
  lemma CallsGetTheirOwn(actions: seq<Action>, x: Returned)
    requires x in Run(INIT, actions).returned && x.got.Some?
    requires Run(INIT, actions).client.calls <= IDS
    ensures x.call in Run(INIT, actions).results && Run(INIT, actions).results[x.call] == x.got.value
  {
    RunOk(INIT, actions);
    var s := Run(INIT, actions);
    assert ReturnedOk(x, s);
    var c :| c in s.results && c < s.client.calls && IdOf(c) == IdOf(x.call) && s.results[c] == x.got.value;
    SameIdSameCall(c, x.call);
  }

  // ---- The bound is exact ----

  function TimeOuts(n: nat): (r: seq<Action>)
    ensures |r| == 2 * n
  {
    if n == 0 then [] else [Begin, Finish] + TimeOuts(n - 1)
  }

  lemma {:induction false} RunAppend(s: System, a: seq<Action>, b: seq<Action>)
    ensures Run(s, a + b) == Run(Run(s, a), b)
    decreases |a|
  {
    hide Act;
    if a == [] {
      assert a + b == b;
    } else {
      assert (a + b)[1..] == a[1..] + b;
      RunAppend(Act(s, a[0]), a[1..], b);
    }
  }

  // n calls that all time out while one reply is under way.
  lemma {:induction false} TimeOutsRun(s: System, n: nat)
    requires s.client.replies == map[] && s.client.open == []
    ensures var t := Run(s, TimeOuts(n));
            && t.client == Client(s.client.calls + n, map[], []) && t.toUi == s.toUi && t.results == s.results
    decreases n
  {
    hide Act;
    if n > 0 {
      OneTimeOut(s);
      RunAppend(s, [Begin, Finish], TimeOuts(n - 1));
      var m := Run(s, [Begin, Finish]);
      hide Run;
      TimeOutsRun(m, n - 1);
    }
  }

  lemma OneTimeOut(s: System)
    requires s.client.replies == map[] && s.client.open == []
    ensures var m := Run(s, [Begin, Finish]);
            m.client == Client(s.client.calls + 1, map[], []) && m.toUi == s.toUi && m.results == s.results
  {
    var m := Act(Act(s, Begin), Finish);
    assert m.client.replies == map[];
    assert [Begin, Finish][1..] == [Finish] && [Finish][1..] == [];
    assert Run(Act(s, Begin), [Finish]) == m;
  }

  // One call more and it can fail: the first call's late reply is taken by the
  // call that gets its id again, 2^32 calls later, which the engine never served.
  lemma WrappedIdTakesLateReply() returns (actions: seq<Action>)
    ensures var s := Run(INIT, actions);
            && s.client.calls == IDS + 1
            && Returned(IDS, Some([1])) in s.returned && IDS !in s.results && 0 in s.results && s.results[0] == [1]
  {
    var first := [Begin, Serve([1]), Finish];
    var last := [Arrive, Begin, Finish];
    actions := first + (TimeOuts(IDS - 1) + last);
    RunAppend(INIT, first, TimeOuts(IDS - 1) + last);
    var s := Run(INIT, first);
    FirstCallTimesOut(s);
    RunAppend(s, TimeOuts(IDS - 1), last);
    TimeOutsRun(s, IDS - 1);
    LateReplyTaken(Run(s, TimeOuts(IDS - 1)));
  }

  // A call that returned something returned its own result.
  predicate OwnResult(s: System, x: Returned) {
    x.got.Some? ==> x.call in s.results && s.results[x.call] == x.got.value
  }

  ghost predicate OwnResultsUpTo(calls: nat) {
    forall actions: seq<Action>, x: Returned ::
      x in Run(INIT, actions).returned && Run(INIT, actions).client.calls <= calls ==> OwnResult(Run(INIT, actions), x)
  }

  // So calls get their own results in all runs of up to n calls exactly when
  // the ids have not come round.
  lemma ExactlySoManyCalls(n: nat)
    ensures OwnResultsUpTo(n) <==> n <= 0x1_0000_0000
  {
    hide Run, INIT;
    if n <= IDS {
      forall actions: seq<Action>, x: Returned |
        x in Run(INIT, actions).returned && Run(INIT, actions).client.calls <= n
        ensures OwnResult(Run(INIT, actions), x)
      {
        if x.got.Some? {
          CallsGetTheirOwn(actions, x);
        }
      }
    } else {
      var actions := WrappedIdTakesLateReply();
      assert !OwnResult(Run(INIT, actions), Returned(IDS, Some([1])));
    }
  }

  lemma FirstCallTimesOut(s: System)
    requires s == Run(INIT, [Begin, Serve([1]), Finish])
    ensures s.client == Client(1, map[], []) && s.toUi == [Reply(1, 0, [1])] && s.results == map[0 := [1]]
  {
    var a := [Begin, Serve([1]), Finish];
    assert a[1..] == [Serve([1]), Finish] && a[1..][1..] == [Finish] && a[1..][1..][1..] == [];
    var s1 := Act(INIT, Begin);
    var s2 := Act(s1, Serve([1]));
    assert s1.toEngine == [Request(1, 0)];
    assert s2.toUi == [Reply(1, 0, [1])];
    assert s == Act(s2, Finish);
    assert s.client.replies == map[];
  }

  lemma LateReplyTaken(s: System)
    requires s.client == Client(IDS, map[], []) && s.toUi == [Reply(1, 0, [1])] && s.results == map[0 := [1]]
    ensures var t := Run(s, [Arrive, Begin, Finish]);
            t.client.calls == IDS + 1 && Returned(IDS, Some([1])) in t.returned && t.results == s.results
  {
    var a := [Arrive, Begin, Finish];
    assert a[1..] == [Begin, Finish] && a[1..][1..] == [Finish] && a[1..][1..][1..] == [];
    var s1 := Act(s, Arrive);
    var s2 := Act(s1, Begin);
    assert s1.client.replies == map[1 := Reply(1, 0, [1])];
    assert |s1.client.replies| == 1;
    assert s2.client == Client(IDS + 1, s1.client.replies, [IDS]);
    assert IdOf(IDS) == 1;
    assert Run(s, a) == Act(s2, Finish);
  }
}

// The crash-loop guard: respawns are counted in windows of 30 seconds.
module CrashGuard {
  import opened Common

  const WINDOW_MS := 30000
  const MAX_RESPAWNS := 5

  // When the window began, and how many exits it has seen.
  datatype Guard = Guard(windowStart: Option<int>, count: nat)

  const FRESH := Guard(None, 0)

  // An exit at time `now`; the engine is respawned while the count allows.
  function OnExit(g: Guard, now: int): (Guard, bool) {
    var w := if g.windowStart.None? || now - g.windowStart.value > WINDOW_MS then Guard(Some(now), 0) else g;
    (w.(count := w.count + 1), w.count + 1 <= MAX_RESPAWNS)
  }

  // The exits of an engine that is respawned each time it may be; after the
  // first refusal there is no engine left to exit.
  function Respawns(g: Guard, exits: seq<int>): seq<int>
    decreases |exits|
  {
    if exits == [] then []
    else
      var r := OnExit(g, exits[0]);
      if r.1 then [exits[0]] + Respawns(r.0, exits[1..]) else []
  }

  predicate InOrder(times: seq<int>) { forall i, j :: 0 <= i < j < |times| ==> times[i] <= times[j] }

  function Within(times: seq<int>, from: int): nat {
    if times == [] then 0 else (if from <= times[0] <= from + WINDOW_MS then 1 else 0) + Within(times[1..], from)
  }

  // How many respawns of the interval from `from` on may still come: what the
  // window under way has left, and a whole new window if one can begin inside.
  function Budget(g: Guard, from: int): int {
    var left := Max(0, MAX_RESPAWNS - g.count);
    if g.windowStart.None? || g.windowStart.value < from - WINDOW_MS then 2 * MAX_RESPAWNS - 1
    else if g.windowStart.value < from then left + MAX_RESPAWNS
    else if g.windowStart.value <= from + WINDOW_MS then left
    else 0
  }

  predicate GuardOk(g: Guard) { g.windowStart.Some? <==> g.count > 0 }

  lemma {:induction false} RespawnsWithinBudget(g: Guard, exits: seq<int>, from: int)
    requires GuardOk(g) && InOrder(exits)
    requires g.windowStart.Some? ==> forall i :: 0 <= i < |exits| ==> g.windowStart.value <= exits[i]
    ensures Within(Respawns(g, exits), from) <= Budget(g, from)
    decreases |exits|
  {
    if exits != [] && OnExit(g, exits[0]).1 {
      RespawnsWithinBudget(OnExit(g, exits[0]).0, exits[1..], from);
    }
  }

  // However the engine dies, any 30 seconds see at most nine respawns.
  lemma CrashLoopIsBounded(exits: seq<int>, from: int)
    requires InOrder(exits)
    ensures Within(Respawns(FRESH, exits), from) <= 9
  {
    RespawnsWithinBudget(FRESH, exits, from);
  }

  lemma {:induction false} WithinAppend(a: seq<int>, b: seq<int>, from: int)
    ensures Within(a + b, from) == Within(a, from) + Within(b, from)
  {
    if a == [] {
      assert a + b == b;
    } else {
      assert (a + b)[1..] == a[1..] + b;
      WithinAppend(a[1..], b, from);
    }
  }

  lemma {:induction false} AllWithin(times: seq<int>, from: int)
    requires forall i :: 0 <= i < |times| ==> from <= times[i] <= from + WINDOW_MS
    ensures Within(times, from) == |times|
  {
    if times != [] {
      AllWithin(times[1..], from);
    }
  }

  // Exits inside one window, up to its allowance, are all followed by a respawn.
  lemma {:induction false} Burst(g: Guard, times: seq<int>, more: seq<int>)
    requires g.windowStart.Some? && g.count + |times| <= MAX_RESPAWNS
    requires forall i :: 0 <= i < |times| ==> times[i] - g.windowStart.value <= WINDOW_MS
    ensures Respawns(g, times + more) == times + Respawns(g.(count := g.count + |times|), more)
    decreases |times|
  {
    if times == [] {
      assert times + more == more;
    } else {
      assert (times + more)[1..] == times[1..] + more;
      Burst(g.(count := g.count + 1), times[1..], more);
    }
  }

  // The start of the window each respawn falls in.
  function Windows(g: Guard, exits: seq<int>): (w: seq<int>)
    ensures |w| == |Respawns(g, exits)|
    decreases |exits|
  {
    if exits == [] then []
    else
      var r := OnExit(g, exits[0]);
      if r.1 then [r.0.windowStart.value] + Windows(r.0, exits[1..]) else []
  }

  // No exit comes before the window under way.
  predicate Later(g: Guard, exits: seq<int>) {
    GuardOk(g) && InOrder(exits)
    && (g.windowStart.Some? ==> forall i :: 0 <= i < |exits| ==> g.windowStart.value <= exits[i])
  }

  // From a window on, respawns are in it or in windows that start more than 30
  // seconds later, each in the 30 seconds of its own.
  lemma {:induction false} WindowsFrom(g: Guard, exits: seq<int>)
    requires Later(g, exits)
    ensures forall i :: 0 <= i < |Windows(g, exits)| ==>
              var w := Windows(g, exits)[i];
              && 0 <= Respawns(g, exits)[i] - w <= WINDOW_MS
              && (g.windowStart.Some? ==> w == g.windowStart.value || w - g.windowStart.value > WINDOW_MS)
    decreases |exits|
  {
    if exits != [] && OnExit(g, exits[0]).1 {
      WindowsFrom(OnExit(g, exits[0]).0, exits[1..]);
    }
  }

  lemma {:induction false} WindowsApart(g: Guard, exits: seq<int>)
    requires Later(g, exits)
    ensures forall i, j :: 0 <= i < j < |Windows(g, exits)| ==>
              Windows(g, exits)[i] == Windows(g, exits)[j] || Windows(g, exits)[j] - Windows(g, exits)[i] > WINDOW_MS
    decreases |exits|
  {
    if exits != [] && OnExit(g, exits[0]).1 {
      var h := OnExit(g, exits[0]).0;
      WindowsApart(h, exits[1..]);
      WindowsFrom(h, exits[1..]);
    }
  }

  // A window under way has so many respawns left, a new one five.
  lemma {:induction false} LeftInWindow(g: Guard, exits: seq<int>, w: int)
    requires Later(g, exits)
    ensures multiset(Windows(g, exits))[w] <= if g.windowStart == Some(w) then Max(0, MAX_RESPAWNS - g.count) else MAX_RESPAWNS
    decreases |exits|
  {
    if exits != [] && OnExit(g, exits[0]).1 {
      var h := OnExit(g, exits[0]).0;
      LeftInWindow(h, exits[1..], w);
      WindowsFrom(h, exits[1..]);
    }
  }

  // However the engine dies: every respawn falls in the 30 seconds of its
  // window, windows start more than 30 seconds apart, and none has more than five.
  lemma FivePerWindow(exits: seq<int>)
    requires InOrder(exits)
    ensures var w := Windows(FRESH, exits);
            && (forall i :: 0 <= i < |w| ==> 0 <= Respawns(FRESH, exits)[i] - w[i] <= WINDOW_MS)
            && (forall i, j :: 0 <= i < j < |w| ==> w[i] == w[j] || w[j] - w[i] > WINDOW_MS)
            && (forall start :: multiset(w)[start] <= MAX_RESPAWNS)
  {
    WindowsFrom(FRESH, exits);
    WindowsApart(FRESH, exits);
    forall start ensures multiset(Windows(FRESH, exits))[start] <= MAX_RESPAWNS {
      LeftInWindow(FRESH, exits, start);
    }
  }

  // And nine is reached: four at the end of one window, five in the next.
  lemma NineIsReached() returns (exits: seq<int>)
    ensures InOrder(exits) && Respawns(FRESH, exits) == exits && Within(exits, 1) == 9
  {
    var early, late := [30000, 30000, 30000, 30000], [30001, 30001, 30001, 30001, 30001];
    exits := [0] + (early + late);
    SecondWindow(late);
    Burst(Guard(Some(0), 1), early, late);
    assert exits[1..] == early + late;
    assert Respawns(FRESH, exits) == [0] + Respawns(Guard(Some(0), 1), early + late);
    hide Respawns;
    assert Within(exits, 1) == Within(early + late, 1);
    WithinAppend(early, late, 1);
    AllWithin(early, 1);
    AllWithin(late, 1);
  }

  lemma SecondWindow(late: seq<int>)
    requires late == [30001, 30001, 30001, 30001, 30001]
    ensures Respawns(Guard(Some(0), 5), late) == late
  {
    var again := late[1..];
    Burst(Guard(Some(30001), 1), again, []);
    assert again + [] == again;
    assert late == [30001] + again;
  }
}

// The object that makes the calls and watches the engine.
module IpcEngineObject {
  import opened Common
  import C = IpcCalls
  import CrashGuard

  class IpcEngine {
    var nextId: nat
    var replies: map<nat, C.Reply>
    var respawnStart: Option<int>
    var respawnCount: nat
    ghost var calls: nat
    ghost var open: seq<nat>

    // The next id is the one the next call's number gives.
    ghost predicate Valid()
      reads this
    {
      nextId == C.IdOf(calls)
    }

    ghost function Client(): C.Client
      reads this
    {
      C.Client(calls, replies, open)
    }

    ghost function Watch(): CrashGuard.Guard
      reads this
    {
      CrashGuard.Guard(respawnStart, respawnCount)
    }

    constructor ()
      ensures Valid() && Client() == C.INIT.client && Watch() == CrashGuard.FRESH
    {
      nextId, replies, respawnStart, respawnCount, calls, open := 1, map[], None, 0, 0, [];
    }

    // The first half of request: prune, number the call, say what is sent.
    method BeginRequest() returns (id: nat)
      requires Valid()
      modifies this`nextId, this`replies, this`calls, this`open
      ensures Valid() && Client() == C.Opened(old(Client())) && id == C.IdOf(old(calls))
    {
      if |replies| > C.KEEP_REPLIES {
        replies := map[];
      }
      id := nextId;
      nextId := (nextId + 1) % C.IDS;
      open := open + [calls];
      calls := calls + 1;
    }

    // handleFrame, for a Reply.
    method TakesReply(r: C.Reply)
      modifies this`replies
      ensures Client() == C.Stored(old(Client()), r)
    {
      replies := replies[r.id := r];
    }

    // The second half of request, once the wait is over: m_replies.take(id).
    method FinishRequest(id: nat) returns (got: Option<Bytes>)
      requires open != [] && id == C.IdOf(open[|open| - 1])
      modifies this`replies, this`open
      ensures Client() == C.Taken(old(Client())).0 && got == C.Taken(old(Client())).1.got
    {
      got := if id in replies then Some(replies[id].result) else None;
      replies := replies - {id};
      open := open[..|open| - 1];
    }

    // onProcFinished: whether the engine is started again.
    method OnProcFinished(now: int) returns (respawn: bool)
      modifies this`respawnStart, this`respawnCount
      ensures (Watch(), respawn) == CrashGuard.OnExit(old(Watch()), now)
    {
      if respawnStart.None? || now - respawnStart.value > CrashGuard.WINDOW_MS {
        respawnStart := Some(now);
        respawnCount := 0;
      }
      respawnCount := respawnCount + 1;
      respawn := respawnCount <= CrashGuard.MAX_RESPAWNS;
    }
  }
}
