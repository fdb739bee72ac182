// When a call returns: exactly if its reply was handled and not pruned since,
// whatever other calls begin and finish meanwhile.
// Source: src/ipc/ipcengine.cpp.
module IpcReturns {
  import opened Common
  import opened IpcCalls

  // A call that begins while more than 64 replies are kept drops them all.
  predicate Prunes(s: System, a: Action) { a.Begin? && |s.client.replies| > 64 }

  predicate NeverPrunes(s: System, actions: seq<Action>)
    decreases |actions|
  {
    actions == [] || (!Prunes(s, actions[0]) && NeverPrunes(Act(s, actions[0]), actions[1..]))
  }

  // The reply to call c is handled in this step.
  predicate Handles(s: System, a: Action, c: nat) { a.Arrive? && s.toUi != [] && s.toUi[0].call == c }

  // It is handled in the k-th step, and nothing is pruned after that.
  predicate HandledAt(s: System, actions: seq<Action>, k: nat, c: nat) {
    && k < |actions| && Handles(Run(s, actions[..k]), actions[k], c)
    && NeverPrunes(Run(s, actions[..k + 1]), actions[k + 1..])
  }

  // The call is waiting.
  predicate Waits(s: System, c: nat) { c in s.client.open }

  // Calls wait in the order they were made.
  predicate InOrder(s: System) {
    && (forall i, j :: 0 <= i < j < |s.client.open| ==> s.client.open[i] < s.client.open[j])
    && forall i :: 0 <= i < |s.client.open| ==> s.client.open[i] < s.client.calls
  }

  // The reply to call c is kept.
  predicate Kept(s: System, c: nat) { IdOf(c) in s.client.replies && s.client.replies[IdOf(c)].call == c }

  lemma ActInOrder(s: System, a: Action)
    requires InOrder(s)
    ensures InOrder(Act(s, a)) && s.client.calls <= Act(s, a).client.calls
    ensures forall c: nat :: c < s.client.calls && !Waits(s, c) ==> !Waits(Act(s, a), c)
  {
    hide IdOf, Pruned;
  }

  // A call that has finished does not wait again.
  lemma {:induction false} WaitsNoMore(s: System, actions: seq<Action>, c: nat)
    requires InOrder(s) && c < s.client.calls && !Waits(s, c)
    ensures !Waits(Run(s, actions), c)
    decreases |actions|
  {
    if actions != [] {
      ActInOrder(s, actions[0]);
      hide Act, InOrder, Waits;
      WaitsNoMore(Act(s, actions[0]), actions[1..], c);
    }
  }

  lemma {:induction false} CallsGrow(s: System, actions: seq<Action>)
    ensures s.client.calls <= Run(s, actions).client.calls
    decreases |actions|
  {
    if actions != [] {
      assert s.client.calls <= Act(s, actions[0]).client.calls;
      hide Act;
      CallsGrow(Act(s, actions[0]), actions[1..]);
    }
  }

  // One step: a kept reply stays unless it is pruned, and is there once handled.
  lemma KeptAfter(s: System, a: Action, c: nat)
    requires CallsOk(s) && InOrder(s) && c < s.client.calls && Act(s, a).client.calls <= IDS
    requires Waits(s, c) && Waits(Act(s, a), c)
    ensures Kept(Act(s, a), c) <==> (Kept(s, c) && !Prunes(s, a)) || Handles(s, a, c)
  {
    match a
    case Begin =>
    case Serve(result) =>
    case Arrive =>
      if s.toUi != [] {
        var r := s.toUi[0];
        assert ReplyOk(r, s);
        OneId(c, r.call);
        hide CallsOk, ReplyOk, IdOf;
      }
    case Finish =>
      var last := s.client.open[|s.client.open| - 1];
      OneId(c, last);
      hide CallsOk, IdOf;
    case Crash =>
  }

  lemma OneId(a: nat, b: nat)
    ensures a < IDS && b < IDS && IdOf(a) == IdOf(b) ==> a == b
  {
  }

  lemma {:induction false} KeptExactly(s: System, actions: seq<Action>, c: nat)
    requires CallsOk(s) && InOrder(s) && c < s.client.calls && Waits(Run(s, actions), c)
    requires Run(s, actions).client.calls <= IDS
    ensures Kept(Run(s, actions), c)
            <==> (Kept(s, c) && NeverPrunes(s, actions)) || exists k: nat :: HandledAt(s, actions, k, c)
    decreases |actions|
  {
    if actions != [] {
      var a, m, rest := actions[0], Act(s, actions[0]), actions[1..];
      ActOk(s, a);
      ActInOrder(s, a);
      if !Waits(m, c) { WaitsNoMore(m, rest, c); }
      if !Waits(s, c) { WaitsNoMore(s, actions, c); }
      CallsGrow(m, rest);
      KeptAfter(s, a, c);
      KeptExactly(m, rest, c);
      HandledLater(s, actions, c);
    }
  }

  lemma HandledLater(s: System, actions: seq<Action>, c: nat)
    requires actions != []
    ensures (exists k: nat :: HandledAt(s, actions, k, c))
            <==> (Handles(s, actions[0], c) && NeverPrunes(Act(s, actions[0]), actions[1..]))
                 || exists k: nat :: HandledAt(Act(s, actions[0]), actions[1..], k, c)
  {
    var m, rest := Act(s, actions[0]), actions[1..];
    assert HandledAt(s, actions, 0, c) <==> Handles(s, actions[0], c) && NeverPrunes(m, rest) by {
      assert actions[..0] == [] && actions[..1] == [actions[0]] && [actions[0]][1..] == [];
      assert Run(s, [actions[0]]) == Run(m, []) == m;
    }
    forall k: nat ensures HandledAt(s, actions, k + 1, c) <==> HandledAt(m, rest, k, c) {
      if k < |rest| {
        assert actions[..k + 1][1..] == rest[..k] && actions[..k + 2][1..] == rest[..k + 1] && actions[k + 2..] == rest[k + 1..];
      }
    }
    if exists k: nat :: HandledAt(s, actions, k, c) {
      var k: nat :| HandledAt(s, actions, k, c);
      assert k > 0 ==> HandledAt(m, rest, k - 1, c);
    }
    if exists k: nat :: HandledAt(m, rest, k, c) {
      var k: nat :| HandledAt(m, rest, k, c);
      assert HandledAt(s, actions, k + 1, c);
    }
  }

  lemma {:induction false} RunInOrder(s: System, actions: seq<Action>)
    requires InOrder(s)
    ensures InOrder(Run(s, actions))
    decreases |actions|
  {
    if actions != [] {
      ActInOrder(s, actions[0]);
      hide Act, InOrder;
      RunInOrder(Act(s, actions[0]), actions[1..]);
    }
  }

  // A call begins, then anything happens, nested calls, late replies, prunes and
  // lost connections included, and it is the call to return: it returns its
  // result exactly if its reply was handled since it began and no call that began
  // after that found more than 64 replies kept; and if not, nothing.
  lemma ReturnsExactly(before: seq<Action>, actions: seq<Action>, c: nat)
    requires var s := Act(Run(INIT, before), Begin); c == s.client.calls - 1
    requires var t := Run(Act(Run(INIT, before), Begin), actions);
             t.client.calls <= IDS && t.client.open != [] && t.client.open[|t.client.open| - 1] == c
    ensures var s := Act(Run(INIT, before), Begin); var t := Run(s, actions); var u := Act(t, Finish);
            && |u.returned| == |t.returned| + 1 && u.returned[..|t.returned|] == t.returned
            && var x := u.returned[|t.returned|];
               && x.call == c
               && (x.got.Some? <==> exists k: nat :: HandledAt(s, actions, k, c))
               && (x.got.Some? ==> c in t.results && x.got.value == t.results[c])
  {
    var r := Run(INIT, before);
    var s := Act(r, Begin);
    var t := Run(s, actions);
    RunOk(INIT, before);
    RunInOrder(INIT, before);
    ActOk(r, Begin);
    ActInOrder(r, Begin);
    assert Waits(t, c);
    CallsGrow(s, actions);
    NotYetKept(r);
    KeptExactly(s, actions, c);
    RunOk(s, actions);
    hide Run, HandledAt, NeverPrunes;
    FinishGives(t, c);
  }

  lemma NotYetKept(r: System)
    requires CallsOk(r) && Act(r, Begin).client.calls <= IDS
    ensures !Kept(Act(r, Begin), r.client.calls)
  {
  }

  lemma FinishGives(t: System, c: nat)
    requires CallsOk(t) && t.client.calls <= IDS && t.client.open != [] && t.client.open[|t.client.open| - 1] == c
    ensures var u := Act(t, Finish);
            && |u.returned| == |t.returned| + 1 && u.returned[..|t.returned|] == t.returned
            && var x := u.returned[|t.returned|];
               && x.call == c && (x.got.Some? <==> Kept(t, c))
               && (x.got.Some? ==> c in t.results && x.got.value == t.results[c])
  {
    if IdOf(c) in t.client.replies {
      var r := t.client.replies[IdOf(c)];
      assert ReplyOk(r, t) && r.id == IdOf(c);
      OneId(c, r.call);
    }
    hide IdOf, CallsOk;
  }

  // ---- Round trips ----

  lemma RunFirst(s: System, a: Action, more: seq<Action>)
    ensures Run(s, [a] + more) == Run(Act(s, a), more)
  {
    assert ([a] + more)[1..] == more;
  }

  lemma RunFour(s: System, a: Action, b: Action, c: Action, d: Action)
    ensures Run(s, [a, b, c, d]) == Act(Act(Act(Act(s, a), b), c), d)
  {
    hide Act;
    assert [a, b, c, d] == [a] + ([b] + ([c] + ([d] + [])));
    RunFirst(s, a, [b] + ([c] + ([d] + [])));
    RunFirst(Act(s, a), b, [c] + ([d] + []));
    RunFirst(Act(Act(s, a), b), c, [d] + []);
    RunFirst(Act(Act(Act(s, a), b), c), d, []);
    assert Run(Act(Act(Act(Act(s, a), b), c), d), []) == Act(Act(Act(Act(s, a), b), c), d);
  }

  // With nothing under way a call that is served and whose reply is handled returns
  // what the engine computed, whatever is kept of calls before.
  lemma CallReturns(s: System, result: Bytes)
    requires s.toEngine == [] && s.toUi == []
    ensures Run(s, [Begin, Serve(result), Arrive, Finish]).returned == s.returned + [Returned(s.client.calls, Some(result))]
  {
    RunFour(s, Begin, Serve(result), Arrive, Finish);
    var t := Act(s, Begin);
    assert t.toEngine == [Request(IdOf(s.client.calls), s.client.calls)];
    var u := Act(t, Serve(result));
    assert u.toUi == [Reply(IdOf(s.client.calls), s.client.calls, result)];
    hide IdOf;
  }

  // And if a handler makes a call while another waits, both return their own.
  lemma NestedCallsReturn(s: System, outer: Bytes, inner: Bytes)
    requires s.toEngine == [] && s.toUi == []
    ensures Run(Run(s, [Begin, Begin, Serve(outer), Serve(inner)]), [Arrive, Arrive, Finish, Finish]).returned
            == (s.returned + [Returned(s.client.calls + 1, Some(inner))]) + [Returned(s.client.calls, Some(outer))]
  {
    hide Run, Act, IdOf;
    var u := Act(Act(Act(Act(s, Begin), Begin), Serve(outer)), Serve(inner));
    RunFour(s, Begin, Begin, Serve(outer), Serve(inner));
    RunFour(u, Arrive, Arrive, Finish, Finish);
    TwoServed(s, outer, inner);
    TwoReturned(u, s.client.open, s.client.calls, outer, inner);
  }

  lemma TwoServed(s: System, outer: Bytes, inner: Bytes)
    requires s.toEngine == [] && s.toUi == []
    ensures var u, c := Act(Act(Act(Act(s, Begin), Begin), Serve(outer)), Serve(inner)), s.client.calls;
            && u.toUi == [Reply(IdOf(c), c, outer), Reply(IdOf(c + 1), c + 1, inner)]
            && u.client.open == s.client.open + [c, c + 1] && u.returned == s.returned
  {
    var c := s.client.calls;
    var t := Act(Act(s, Begin), Begin);
    hide IdOf, Pruned;
    assert t.toEngine == [Request(IdOf(c), c), Request(IdOf(c + 1), c + 1)];
    var u := Act(t, Serve(outer));
    assert u.toUi == [Reply(IdOf(c), c, outer)] && u.toEngine == [Request(IdOf(c + 1), c + 1)];
  }

  lemma TwoReturned(u: System, open: seq<nat>, c: nat, outer: Bytes, inner: Bytes)
    requires u.toUi == [Reply(IdOf(c), c, outer), Reply(IdOf(c + 1), c + 1, inner)] && u.client.open == open + [c, c + 1]
    ensures Act(Act(Act(Act(u, Arrive), Arrive), Finish), Finish).returned
            == (u.returned + [Returned(c + 1, Some(inner))]) + [Returned(c, Some(outer))]
  {
    assert IdOf(c) != IdOf(c + 1);
    hide IdOf;
    var v := Act(Act(u, Arrive), Arrive);
    assert v.client.replies[IdOf(c)] == u.toUi[0] && v.client.replies[IdOf(c + 1)] == u.toUi[1];
    var w := Act(v, Finish);
    assert w.client.open == open + [c] && w.returned == u.returned + [Returned(c + 1, Some(inner))];
    assert w.client.replies[IdOf(c)] == u.toUi[0];
  }
}

// The same over the frames of the connection.
module IpcLinkReturns {
  import opened Common
  import opened IpcFraming
  import opened IpcLink
  import C = IpcCalls
  import IpcReturns

  predicate Prunes(l: Link, a: Step) { a.Begins? && |l.ui.kept| > 64 }

  predicate NeverPrunes(l: Link, steps: seq<Step>)
    decreases |steps|
  {
    steps == [] || (!Prunes(l, steps[0]) && NeverPrunes(Take(l, steps[0]), steps[1..]))
  }

  // The next frame among the bytes received is handled, and is a reply with the
  // id of call c.
  predicate HandlesReply(l: Link, a: Step, c: nat) {
    && a.Handles? && l.handled < |Parse(l.bytes).frames|
    && var f := Parse(l.bytes).frames[l.handled]; f.kind == REPLY && PairIn(f.payload).id == C.IdOf(c)
  }

  predicate HandledAt(l: Link, steps: seq<Step>, k: nat, c: nat) {
    && k < |steps| && HandlesReply(Runs(l, steps[..k]), steps[k], c)
    && NeverPrunes(Runs(l, steps[..k + 1]), steps[k + 1..])
  }

  predicate Waits(l: Link, c: nat) { c in l.ui.open }

  predicate InOrder(l: Link) {
    && (forall i, j :: 0 <= i < j < |l.ui.open| ==> l.ui.open[i] < l.ui.open[j])
    && forall i :: 0 <= i < |l.ui.open| ==> l.ui.open[i] < l.ui.calls
  }

  predicate IsKept(l: Link, c: nat) { C.IdOf(c) in l.ui.kept }

  lemma TakeInOrder(l: Link, a: Step)
    requires InOrder(l)
    ensures InOrder(Take(l, a)) && l.ui.calls <= Take(l, a).ui.calls
    ensures forall c: nat :: c < l.ui.calls && !Waits(l, c) ==> !Waits(Take(l, a), c)
  {
    hide C.IdOf, Parse, Wire, FrameOf, PairIn, Sendable;
  }

  lemma {:induction false} RunsInOrder(l: Link, steps: seq<Step>)
    requires InOrder(l)
    ensures InOrder(Runs(l, steps)) && l.ui.calls <= Runs(l, steps).ui.calls
    ensures forall c: nat :: c < l.ui.calls && !Waits(l, c) ==> !Waits(Runs(l, steps), c)
    decreases |steps|
  {
    if steps != [] {
      TakeInOrder(l, steps[0]);
      hide Take, InOrder, Waits;
      RunsInOrder(Take(l, steps[0]), steps[1..]);
    }
  }

  lemma KeptAfter(l: Link, a: Step, c: nat)
    requires InOrder(l) && c < l.ui.calls && Take(l, a).ui.calls <= C.IDS && Waits(l, c) && Waits(Take(l, a), c)
    ensures IsKept(Take(l, a), c) <==> (IsKept(l, c) && !Prunes(l, a)) || HandlesReply(l, a, c)
  {
    if a.Finishes? {
      IpcReturns.OneId(c, l.ui.open[|l.ui.open| - 1]);
    }
    hide C.IdOf, Parse, Wire, FrameOf, PairIn, Sendable;
  }

  lemma {:induction false} KeptExactly(l: Link, steps: seq<Step>, c: nat)
    requires InOrder(l) && c < l.ui.calls && Waits(Runs(l, steps), c) && Runs(l, steps).ui.calls <= C.IDS
    ensures IsKept(Runs(l, steps), c)
            <==> (IsKept(l, c) && NeverPrunes(l, steps)) || exists k: nat :: HandledAt(l, steps, k, c)
    decreases |steps|
  {
    if steps != [] {
      var a, m, rest := steps[0], Take(l, steps[0]), steps[1..];
      TakeInOrder(l, a);
      RunsInOrder(m, rest);
      RunsInOrder(l, steps);
      KeptAfter(l, a, c);
      KeptExactly(m, rest, c);
      HandledLater(l, steps, c);
    }
  }

  lemma HandledLater(l: Link, steps: seq<Step>, c: nat)
    requires steps != []
    ensures (exists k: nat :: HandledAt(l, steps, k, c))
            <==> (HandlesReply(l, steps[0], c) && NeverPrunes(Take(l, steps[0]), steps[1..]))
                 || exists k: nat :: HandledAt(Take(l, steps[0]), steps[1..], k, c)
  {
    var m, rest := Take(l, steps[0]), steps[1..];
    hide HandlesReply, NeverPrunes, Take;
    assert HandledAt(l, steps, 0, c) <==> HandlesReply(l, steps[0], c) && NeverPrunes(m, rest) by {
      assert steps[..0] == [] && steps[..1] == [steps[0]] && [steps[0]][1..] == [];
      assert Runs(l, [steps[0]]) == Runs(m, []) == m;
    }
    forall k: nat ensures HandledAt(l, steps, k + 1, c) <==> HandledAt(m, rest, k, c) {
      if k < |rest| {
        assert steps[..k + 1][1..] == rest[..k] && steps[..k + 2][1..] == rest[..k + 1] && steps[k + 2..] == rest[k + 1..];
      }
    }
    if exists k: nat :: HandledAt(l, steps, k, c) {
      var k: nat :| HandledAt(l, steps, k, c);
      assert k > 0 ==> HandledAt(m, rest, k - 1, c);
    }
    if exists k: nat :: HandledAt(m, rest, k, c) {
      var k: nat :| HandledAt(m, rest, k, c);
      assert HandledAt(l, steps, k + 1, c);
    }
  }

  lemma {:induction false} RunsAppend(l: Link, a: seq<Step>, b: seq<Step>)
    ensures Runs(l, a + b) == Runs(Runs(l, a), b)
    decreases |a|
  {
    hide Take;
    if a == [] {
      assert a + b == b;
    } else {
      assert (a + b)[1..] == a[1..] + b;
      RunsAppend(Take(l, a[0]), a[1..], b);
    }
  }

  // No reply to a call is kept when it begins.
  lemma NotYetKept(before: seq<Step>)
    requires Runs(INIT, before).ui.calls < C.IDS
    ensures var l := Runs(INIT, before); !IsKept(Take(l, Begins), l.ui.calls)
  {
    var l, s := Runs(INIT, before), C.Run(C.INIT, Meanings(INIT, before));
    InitMatches();
    RepliesArriveInOrder(INIT, C.INIT, before);
    C.RunOk(C.INIT, Meanings(INIT, before));
    hide Runs, C.Run, Meanings;
    BeginsUnkept(l, s);
  }

  lemma BeginsUnkept(l: Link, s: C.System)
    requires Matches(l, s) && C.CallsOk(s) && l.ui.calls < C.IDS
    ensures !IsKept(Take(l, Begins), l.ui.calls)
  {
    hide Carries;
    var id := C.IdOf(l.ui.calls);
    if id in l.ui.kept {
      assert C.ReplyOk(s.client.replies[id], s);
      IpcReturns.OneId(l.ui.calls, s.client.replies[id].call);
    }
  }

  // A call over the connection returns its result exactly if, since it began, a
  // frame with a reply of its id was handled and nothing was pruned after that.
  lemma ReturnsExactly(before: seq<Step>, steps: seq<Step>, c: nat)
    requires var l := Take(Runs(INIT, before), Begins); c == l.ui.calls - 1
    requires var t := Runs(Take(Runs(INIT, before), Begins), steps);
             t.ui.calls <= C.IDS && t.ui.open != [] && t.ui.open[|t.ui.open| - 1] == c
    ensures var l := Take(Runs(INIT, before), Begins); var t := Runs(l, steps); var u := Take(t, Finishes);
            && |u.returned| == |t.returned| + 1 && u.returned[..|t.returned|] == t.returned
            && var x := u.returned[|t.returned|];
               && x.call == c
               && (x.got.Some? <==> exists k: nat :: HandledAt(l, steps, k, c))
               && (x.got.Some? ==> c in t.results && x.got.value == t.results[c])
  {
    var r := Runs(INIT, before);
    var l := Take(r, Begins);
    var t := Runs(l, steps);
    RunsInOrder(INIT, before);
    TakeInOrder(r, Begins);
    RunsInOrder(l, steps);
    assert Waits(t, c);
    NotYetKept(before);
    KeptExactly(l, steps, c);
    var u := Take(t, Finishes);
    FinishGives(t, c);
    if u.returned[|t.returned|].got.Some? {
      Whole(before, steps);
      ResultsComeOverTheWire(before + [Begins] + steps + [Finishes], u.returned[|t.returned|]);
    }
    hide HandledAt, Runs, Take;
  }

  lemma FinishGives(t: Link, c: nat)
    requires t.ui.open != [] && t.ui.open[|t.ui.open| - 1] == c
    ensures var u := Take(t, Finishes);
            && |u.returned| == |t.returned| + 1 && u.returned[..|t.returned|] == t.returned
            && u.results == t.results && u.ui.calls == t.ui.calls && u.returned[|t.returned|] in u.returned
            && var x := u.returned[|t.returned|]; x.call == c && (x.got.Some? <==> IsKept(t, c))
  {
    hide C.IdOf;
  }

  lemma Whole(before: seq<Step>, steps: seq<Step>)
    ensures Runs(INIT, before + [Begins] + steps + [Finishes])
            == Take(Runs(Take(Runs(INIT, before), Begins), steps), Finishes)
  {
    RunsAppend(INIT, before + [Begins] + steps, [Finishes]);
    RunsAppend(INIT, before + [Begins], steps);
    RunsAppend(INIT, before, [Begins]);
    OneStep(Runs(INIT, before), Begins);
    OneStep(Runs(Take(Runs(INIT, before), Begins), steps), Finishes);
  }

  lemma OneStep(l: Link, a: Step)
    ensures Runs(l, [a]) == Take(l, a)
  {
    assert [a][1..] == [];
    assert Runs(l, [a]) == Runs(Take(l, a), []);
  }

  // With nothing under way, a call over the connection that is served, whose reply
  // fits a frame, comes and is handled, returns the engine's result.
  lemma CallReturns(before: seq<Step>, result: Bytes, n: nat)
    requires var l := Runs(INIT, before);
             && l.asked == [] && l.bytes == Wire(l.written) && l.handled == |Parse(l.bytes).frames|
             && Sendable(C.Reply(C.IdOf(l.ui.calls), l.ui.calls, result))
             && n == |Wire([FrameOf(C.Reply(C.IdOf(l.ui.calls), l.ui.calls, result))])|
    ensures var l := Runs(INIT, before);
            Take(Take(Take(Take(Take(l, Begins), Serves(result)), Receives(n)), Handles), Finishes).returned
            == l.returned + [C.Returned(l.ui.calls, Some(result))]
  {
    var l := Runs(INIT, before);
    InitMatches();
    RepliesArriveInOrder(INIT, C.INIT, before);
    hide Runs, Matches;
    OneCallReturns(l, result, n);
  }

  lemma OneCallReturns(l: Link, result: Bytes, n: nat)
    requires LinkOk(l) && l.asked == [] && l.bytes == Wire(l.written) && l.handled == |Parse(l.bytes).frames|
    requires Sendable(C.Reply(C.IdOf(l.ui.calls), l.ui.calls, result))
    requires n == |Wire([FrameOf(C.Reply(C.IdOf(l.ui.calls), l.ui.calls, result))])|
    ensures Take(Take(Take(Take(Take(l, Begins), Serves(result)), Receives(n)), Handles), Finishes).returned
            == l.returned + [C.Returned(l.ui.calls, Some(result))]
  {
    var c := l.ui.calls;
    var f := FrameOf(C.Reply(C.IdOf(c), c, result));
    AllParsed(l.written);
    AllParsed(l.written + [f]);
    OneFrame(l.written, f);
    OneServed(l, result);
    hide Parse, Wire, FrameOf, PairIn, Sendable, C.IdOf, Writable, LinkOk;
    var t := Take(Take(l, Begins), Serves(result));
    OneReceived(t, l.written, f, n);
    hide Take;
    OneHandled(Take(t, Receives(n)), l.ui.open, c, result, l.written);
  }

  lemma OneServed(l: Link, result: Bytes)
    requires l.asked == [] && Sendable(C.Reply(C.IdOf(l.ui.calls), l.ui.calls, result))
    ensures var t := Take(Take(l, Begins), Serves(result));
            && t.written == l.written + [FrameOf(C.Reply(C.IdOf(l.ui.calls), l.ui.calls, result))]
            && t.ui.open == l.ui.open + [l.ui.calls] && t.ui.calls == l.ui.calls + 1
            && t.bytes == l.bytes && t.handled == l.handled && t.returned == l.returned
  {
    hide Parse, Wire, FrameOf, PairIn, C.IdOf;
  }

  lemma OneReceived(t: Link, written: seq<Frame>, f: Frame, n: nat)
    requires t.written == written + [f] && t.bytes == Wire(written) && |Wire(t.written)| == |Wire(written)| + n
    ensures Take(t, Receives(n)) == t.(bytes := Wire(t.written))
  {
    hide Wire;
  }

  lemma OneHandled(u: Link, open: seq<nat>, c: nat, result: Bytes, written: seq<Frame>)
    requires Sendable(C.Reply(C.IdOf(c), c, result)) && u.ui.open == open + [c] && u.handled == |written|
    requires Parse(u.bytes).frames == written + [FrameOf(C.Reply(C.IdOf(c), c, result))]
    ensures Take(Take(u, Handles), Finishes).returned == u.returned + [C.Returned(c, Some(result))]
  {
    var r := C.Reply(C.IdOf(c), c, result);
    PairBack(r);
    assert FrameOf(r).kind == REPLY;
    hide Parse, Wire, FrameOf, PairIn, Sendable, C.IdOf;
    var v := Take(u, Handles);
    assert v.ui.kept[C.IdOf(c)] == result && v.ui.open == open + [c];
  }

  lemma AllParsed(written: seq<Frame>)
    requires Writable(written)
    ensures Parse(Wire(written)).frames == written
  {
    assert Wire(written) + [] == Wire(written) && Parse([]).frames == [] && written + [] == written;
    WireParses(written, []);
  }

  lemma OneFrame(written: seq<Frame>, f: Frame)
    ensures |Wire(written + [f])| == |Wire(written)| + |Wire([f])|
  {
    WireMore(written, f);
    assert [f][1..] == [] && Wire([]) == [];
    assert Wire([f]) == WriteFrame(f) + Wire([]);
  }
}
