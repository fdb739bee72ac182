// That frames get through: what each end of the ring does with a message, said
// outright, and that a frame the child has asked a ring for is sent and shown.
// Source: src/ipc/mediahost.cpp, src/bridges/isolatedmediaplayer.cpp.
module FrameFlow {
  import opened Common
  import opened FrameRing

  const MIB := 1024 * 1024

  // ---- One step at a time ----

  // A ring is shared for any size above the present one, up to 64 MiB, if the
  // segment can be made: once, under the next generation, with room for what was
  // asked and a quarter more.
  lemma SharesEnough(p: Player, bytes: int, creates: bool)
    ensures var r := ShareRing(p, bytes, creates);
            if creates && p.slotBytes < bytes && 0 < bytes <= 64 * MIB then
              var size := r.0.slotBytes;
              && r == (Player(true, size, p.gen + 1), [Ring(p.gen + 1, size)])
              && bytes <= size && 4 * size <= 5 * bytes < 4 * size + 4
            else r == (p, [])
  {
  }

  // So once the player has heard, its ring holds the size asked for exactly when
  // it did before, or a segment could be made and the size is within 64 MiB.
  lemma HeardIsHeld(p: Player, bytes: int, creates: bool)
    ensures ShareRing(p, bytes, creates).0.slotBytes >= bytes
            <==> bytes <= p.slotBytes || (creates && 0 < bytes <= 64 * MIB)
  {
  }

  // A frame too large for the ring asks for one, once per size; any other that
  // can be packed goes out in the first free slot, if there is one.
  lemma FrameGoesOut(h: Host, need: int, stamp: int, packs: bool, k: nat)
    requires |h.busy| == 3 && k <= 3 && (forall j :: 0 <= j < k ==> h.busy[j]) && (k < 3 ==> !h.busy[k])
    ensures var e := OnFrame(h, need, stamp, packs);
            if !h.mapped || need > h.slotBytes then
              e == if need > h.asked then Effect(h.(asked := need), [NeedRing(need)], None) else Effect(h, [], None)
            else if k < 3 && packs then
              e == Effect(h.(busy := h.busy[k := true]), [Frame(h.gen, k, stamp)], Some(k))
            else e == Effect(h, [], None)
  {
  }

  // A ring that can be mapped replaces the one before, all slots free, and is
  // confirmed. A release frees its slot in the ring it is about, and no other.
  lemma HostHears(h: Host, m: ToChild, maps: bool)
    requires |h.busy| == 3
    ensures var e := HostTakes(h, m, maps);
            && (m.Ring? ==> e == if maps && m.bytes > 0
                                 then Effect(Host(true, m.bytes, m.gen, h.asked, [false, false, false]), [RingReady(m.gen)], None)
                                 else Effect(h, [], None))
            && (m.Release? ==> e == if m.gen == h.gen && 0 <= m.slot < 3
                                    then Effect(h.(busy := h.busy[m.slot := false]), [], None) else Effect(h, [], None))
  {
  }

  // A frame of the player's own ring is copied from its slot; any frame is
  // released; a wish for a ring is answered; a confirmation is not.
  lemma PlayerHears(p: Player, memory: Memory, m: ToUi, creates: bool)
    ensures m.Frame? ==> PlayerTakes(p, m, creates) == (p, [Release(m.gen, m.slot)])
    ensures m.Frame? && p.mapped && m.gen == p.gen && 0 <= m.slot < 3 ==>
              Copy(p, memory, m) == [Shown(m.stamp, Read(memory, p.gen, m.slot * p.slotBytes))]
    ensures !(m.Frame? && p.mapped && m.gen == p.gen && 0 <= m.slot < 3) ==> Copy(p, memory, m) == []
    ensures m.NeedRing? ==> PlayerTakes(p, m, creates) == ShareRing(p, m.bytes, creates)
    ensures m.RingReady? ==> PlayerTakes(p, m, creates) == (p, [])
  {
  }

  // ---- Over runs ----

  // Segments can be made and mapped; sizes are the ones rings are shared for.
  predicate Smooth(a: Action) {
    (a.HostReceives? ==> a.maps) && (a.PlayerReceives? ==> a.creates) && (a.Decodes? ==> a.need <= 64 * MIB)
  }

  // The player's ring is the child's, or on its way to it.
  predicate Provided(s: System) {
    s.player.mapped ==>
      Ring(s.player.gen, s.player.slotBytes) in s.toChild
      || (s.host.mapped && s.host.gen == s.player.gen && s.host.slotBytes == s.player.slotBytes)
  }

  // What the child asked for is on its way, or the player's ring holds it.
  predicate Answered(s: System) {
    && s.host.asked <= 64 * MIB
    && (s.host.asked > 0 ==> s.host.asked <= s.player.slotBytes || NeedRing(s.host.asked) in s.toUi)
  }

  lemma SmoothAct(s: System, a: Action)
    requires RingOk(s) && Provided(s) && Answered(s) && Smooth(a)
    ensures Provided(Act(s, a)) && Answered(Act(s, a))
  {
    match a
    case Decodes(need, stamp, packs) => FrameGoesOut(s.host, need, stamp, packs, FreeSlot(s.host.busy));
    case HostReceives(maps) =>
      if s.toChild != [] {
        HostHears(s.host, s.toChild[0], maps);
        assert s.toChild == [s.toChild[0]] + s.toChild[1..];
        if s.toChild[0].Ring? {
          RingsBelow(s.toChild[1..], s.toChild[0].gen, s.player.gen);
        }
      }
    case PlayerReceives(creates) =>
      if s.toUi != [] {
        PlayerHears(s.player, s.memory, s.toUi[0], creates);
        assert s.toUi == [s.toUi[0]] + s.toUi[1..];
        if s.toUi[0].NeedRing? {
          SharesEnough(s.player, s.toUi[0].bytes, creates);
        }
      }
    case Restart =>
  }

  lemma {:induction false} SmoothRun(s: System, actions: seq<Action>)
    requires RingOk(s) && Provided(s) && Answered(s) && forall i :: 0 <= i < |actions| ==> Smooth(actions[i])
    ensures RingOk(Run(s, actions)) && Provided(Run(s, actions)) && Answered(Run(s, actions))
    decreases |actions|
  {
    assert |s.host.busy| == SLOTS;
    hide RingOk, Provided, Answered, Act, Smooth;
    if actions != [] {
      SmoothAct(s, actions[0]);
      ActOk(s, actions[0]);
      SmoothRun(Act(s, actions[0]), actions[1..]);
    }
  }

  // In every run in which rings can be made and no frame is over 64 MiB, swaps
  // and restarts included: once a frame has asked for a ring and no wish for one
  // and no ring is under way, every frame as large or smaller goes out, in the
  // first slot that is free.
  lemma AskedFramesGoOut(actions: seq<Action>, need: int, stamp: int, k: nat)
    requires forall i :: 0 <= i < |actions| ==> Smooth(actions[i])
    requires var s := Run(INIT, actions);
             && 0 < s.host.asked && need <= s.host.asked
             && (forall m :: m in s.toUi ==> !m.NeedRing?) && (forall m :: m in s.toChild ==> !m.Ring?)
             && |s.host.busy| == 3 && k < 3 && !s.host.busy[k] && forall j :: 0 <= j < k ==> s.host.busy[j]
    ensures var s := Run(INIT, actions);
            Act(s, Decodes(need, stamp, true)).toUi == s.toUi + [Frame(s.player.gen, k, stamp)]
  {
    InitOk();
    SmoothRun(INIT, actions);
    var s := Run(INIT, actions);
    hide Run, RingOk;
    GoesOut(s, need, stamp, k);
  }

  lemma GoesOut(s: System, need: int, stamp: int, k: nat)
    requires RingOk(s) && Provided(s) && Answered(s) && 0 < s.host.asked && need <= s.host.asked
    requires (forall m :: m in s.toUi ==> !m.NeedRing?) && (forall m :: m in s.toChild ==> !m.Ring?)
    requires |s.host.busy| == 3 && k < 3 && !s.host.busy[k] && forall j :: 0 <= j < k ==> s.host.busy[j]
    ensures Act(s, Decodes(need, stamp, true)).toUi == s.toUi + [Frame(s.player.gen, k, stamp)]
  {
    assert s.host.mapped && s.host.gen == s.player.gen && s.host.slotBytes == s.player.slotBytes >= need;
    FrameGoesOut(s.host, need, stamp, true, k);
  }

  // And in every run at all, a frame of the player's own ring that it takes is
  // shown, and what is shown is the frame its header stands for.
  lemma TakenFrameIsShown(actions: seq<Action>, creates: bool)
    requires var s := Run(INIT, actions);
             s.toUi != [] && s.toUi[0].Frame? && s.player.mapped && s.toUi[0].gen == s.player.gen && 0 <= s.toUi[0].slot < 3
    ensures var s := Run(INIT, actions); var m := s.toUi[0];
            Act(s, PlayerReceives(creates)).shown == s.shown + [Shown(m.stamp, Some(m.stamp))]
  {
    InitOk();
    RunOk(INIT, actions);
    var s := Run(INIT, actions);
    hide Run;
    PlayerHears(s.player, s.memory, s.toUi[0], creates);
    CopyExact(s);
    hide RingOk, Copy;
    assert Copy(s.player, s.memory, s.toUi[0])[0] in Copy(s.player, s.memory, s.toUi[0]);
  }

  // So with both channels empty the next such frame is sent, copied and shown.
  lemma AskedFramesFlow(actions: seq<Action>, need: int, stamp: int, creates: bool)
    requires forall i :: 0 <= i < |actions| ==> Smooth(actions[i])
    requires var s := Run(INIT, actions); s.toUi == [] && s.toChild == [] && 0 < s.host.asked && need <= s.host.asked
    ensures var s := Run(INIT, actions);
            var t := Act(s, Decodes(need, stamp, true));
            && t.toUi == [Frame(s.player.gen, 0, stamp)]
            && Act(t, PlayerReceives(creates)).shown == s.shown + [Shown(stamp, Some(stamp))]
  {
    InitOk();
    SmoothRun(INIT, actions);
    SlotsComeBack(actions);
    var s := Run(INIT, actions);
    hide Run, RingOk;
    GoesThrough(s, need, stamp, creates);
  }

  lemma GoesThrough(s: System, need: int, stamp: int, creates: bool)
    requires RingOk(s) && Provided(s) && Answered(s) && s.toUi == [] && s.toChild == []
    requires s.host.busy == [false, false, false] && 0 < s.host.asked && need <= s.host.asked
    ensures var t := Act(s, Decodes(need, stamp, true));
            && t.toUi == [Frame(s.player.gen, 0, stamp)]
            && Act(t, PlayerReceives(creates)).shown == s.shown + [Shown(stamp, Some(stamp))]
  {
    assert s.player.mapped && s.host.mapped && s.host.gen == s.player.gen && s.host.slotBytes == s.player.slotBytes >= need;
    FrameGoesOut(s.host, need, stamp, true, 0);
    var t := Act(s, Decodes(need, stamp, true));
    PlayerHears(t.player, t.memory, t.toUi[0], creates);
  }

  // Nothing under way, no ring, and a size asked for that none will be made for.
  predicate Stuck(s: System) {
    && s.toUi == [] && s.toChild == [] && !s.host.mapped && !s.player.mapped && s.host.asked > 64 * MIB
  }

  // One frame over 64 MiB as the first: it is refused a ring, and from then on,
  // until the child starts anew, nothing smaller asks for one. No frame is shown.
  lemma {:induction false} StuckForGood(s: System, actions: seq<Action>)
    requires |s.host.busy| == 3 && Stuck(s)
    requires forall i :: 0 <= i < |actions| ==>
               !actions[i].Restart? && (actions[i].Decodes? ==> actions[i].need <= s.host.asked)
    ensures Run(s, actions) == s
    decreases |actions|
  {
    if actions != [] {
      assert s.toUi + [] == s.toUi;
      assert Act(s, actions[0]) == s;
      hide Act;
      StuckForGood(s, actions[1..]);
    }
  }

  lemma OneTooLarge(need: int, stamp: int, creates: bool)
    requires need > 64 * MIB
    ensures var actions := [Decodes(need, stamp, true), PlayerReceives(creates)];
            Stuck(Run(INIT, actions)) && Run(INIT, actions).host.asked == need
  {
    var a := [Decodes(need, stamp, true), PlayerReceives(creates)];
    assert a[1..] == [PlayerReceives(creates)] && a[1..][1..] == [];
    var s := Act(INIT, a[0]);
    assert s.toUi == [NeedRing(need)];
    assert Run(s, a[1..]) == Run(Act(s, a[1]), []) == Act(s, a[1]);
  }
}
