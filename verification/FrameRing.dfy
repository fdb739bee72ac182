// Decoded frames travel back through a ring of three slots in shared memory.
// The player makes a ring per generation, the child fills free slots, and a
// slot is free again once the player has copied the frame and said so.
// Source: src/ipc/mediahost.cpp, src/bridges/isolatedmediaplayer.cpp.
module FrameRing {
  import opened Common

  const SLOTS := 3
  const MAX_SLOT_BYTES := 64 * 1024 * 1024

  // `stamp` names what the child packed; the real header carries the layout
  // and the picture itself stays in the ring.
  datatype ToUi = NeedRing(bytes: int) | RingReady(gen: int) | Frame(gen: int, slot: int, stamp: int)

  datatype ToChild = Ring(gen: int, bytes: int) | Release(gen: int, slot: int)

  datatype Host = Host(mapped: bool, slotBytes: int, gen: int, asked: int, busy: seq<bool>)

  datatype Player = Player(mapped: bool, slotBytes: int, gen: int)

  // A frame the player copied out: what the header stood for, and what it got.
  datatype Shown = Shown(expected: int, got: Option<int>)

  // Shared memory: what was last packed at an address of a generation's ring.
  type Memory = map<(int, int), int>

  datatype System = System(host: Host, player: Player, toUi: seq<ToUi>, toChild: seq<ToChild>,
                           memory: Memory, sizes: map<int, int>, shown: seq<Shown>)

  const FRESH_HOST := Host(false, 0, 0, 0, [false, false, false])

  const INIT := System(FRESH_HOST, Player(false, 0, 0), [], [], map[], map[], [])

  // The first free slot, or SLOTS when the player holds them all.
  function FreeSlot(busy: seq<bool>): (slot: nat)
    requires |busy| == SLOTS
    ensures slot <= SLOTS && (slot < SLOTS ==> !busy[slot]) && forall k :: 0 <= k < slot ==> busy[k]
  {
    if !busy[0] then 0 else if !busy[1] then 1 else if !busy[2] then 2 else 3
  }

  datatype Effect = Effect(host: Host, sent: seq<ToUi>, wrote: Option<int>)

  // A decoded frame of `need` packed bytes; `packs` is false when the frame's
  // planes cannot be packed at all. `wrote` is the slot written, if any.
  function OnFrame(h: Host, need: int, stamp: int, packs: bool): Effect
    requires |h.busy| == SLOTS
  {
    if !h.mapped || need > h.slotBytes then
      if need > h.asked then Effect(h.(asked := need), [NeedRing(need)], None) else Effect(h, [], None)
    else
      var slot := FreeSlot(h.busy);
      if slot == SLOTS || !packs then Effect(h, [], None)
      else Effect(h.(busy := h.busy[slot := true]), [Frame(h.gen, slot, stamp)], Some(slot))
  }

  // "ring" and "release"; `maps` says whether the segment could be mapped.
  function HostTakes(h: Host, m: ToChild, maps: bool): Effect
    requires |h.busy| == SLOTS
  {
    match m
    case Ring(gen, bytes) =>
      if !maps || bytes <= 0 then Effect(h, [], None)
      else Effect(Host(true, bytes, gen, h.asked, [false, false, false]), [RingReady(gen)], None)
    case Release(gen, slot) =>
      if gen == h.gen && 0 <= slot < SLOTS then Effect(h.(busy := h.busy[slot := false]), [], None)
      else Effect(h, [], None)
  }

  // shareRing: `creates` says whether the segment could be made and shared.
  function ShareRing(p: Player, slotBytes: int, creates: bool): (Player, seq<ToChild>) {
    if slotBytes <= p.slotBytes || slotBytes <= 0 || slotBytes > MAX_SLOT_BYTES || !creates then (p, [])
    else
      var size := slotBytes + slotBytes / 4;
      (Player(true, size, p.gen + 1), [Ring(p.gen + 1, size)])
  }

  predicate Usable(p: Player, m: ToUi) { m.Frame? && p.mapped && m.gen == p.gen && 0 <= m.slot < SLOTS }

  function Read(memory: Memory, gen: int, address: int): Option<int> {
    if (gen, address) in memory then Some(memory[(gen, address)]) else None
  }

  // showFrame: the copy, if the frame is usable.
  function Copy(p: Player, memory: Memory, m: ToUi): seq<Shown> {
    if Usable(p, m) then [Shown(m.stamp, Read(memory, p.gen, m.slot * p.slotBytes))] else []
  }

  function PlayerTakes(p: Player, m: ToUi, creates: bool): (Player, seq<ToChild>) {
    match m
    case NeedRing(bytes) => ShareRing(p, bytes, creates)
    case RingReady(_) => (p, [])
    case Frame(gen, slot, _) => (p, [Release(gen, slot)])
  }

  datatype Action =
    | Decodes(need: int, stamp: int, packs: bool)
    | HostReceives(maps: bool)
    | PlayerReceives(creates: bool)
    | Restart

  function Apply(s: System, e: Effect): System {
    s.(host := e.host, toUi := s.toUi + e.sent)
  }

  function Act(s: System, a: Action): System
    requires |s.host.busy| == SLOTS
    ensures |Act(s, a).host.busy| == SLOTS
  {
    match a
    case Decodes(need, stamp, packs) =>
      var e := OnFrame(s.host, need, stamp, packs);
      var t := Apply(s, e);
      if e.wrote.None? then t
      else t.(memory := s.memory[(s.host.gen, e.wrote.value * s.host.slotBytes) := stamp])
    case HostReceives(maps) =>
      if s.toChild == [] then s
      else Apply(s.(toChild := s.toChild[1..]), HostTakes(s.host, s.toChild[0], maps))
    case PlayerReceives(creates) =>
      if s.toUi == [] then s
      else
        var r := PlayerTakes(s.player, s.toUi[0], creates);
        s.(player := r.0, toUi := s.toUi[1..], toChild := s.toChild + r.1,
           sizes := if r.0.gen == s.player.gen then s.sizes else s.sizes[r.0.gen := r.0.slotBytes],
           shown := s.shown + Copy(s.player, s.memory, s.toUi[0]))
    case Restart =>
      s.(host := FRESH_HOST, player := Player(false, 0, s.player.gen), toUi := [], toChild := [])
  }

  function Run(s: System, actions: seq<Action>): (t: System)
    requires |s.host.busy| == SLOTS
    ensures |t.host.busy| == SLOTS
    decreases |actions|
  {
    if actions == [] then s else Run(Act(s, actions[0]), actions[1..])
  }

  // ---- Counting messages in flight ----

  function Frames(ms: seq<ToUi>, gen: int, slot: int): nat {
    if ms == [] then 0
    else (if ms[0].Frame? && ms[0].gen == gen && ms[0].slot == slot then 1 else 0) + Frames(ms[1..], gen, slot)
  }

  function Releases(ms: seq<ToChild>, gen: int, slot: int): nat {
    if ms == [] then 0
    else (if ms[0] == Release(gen, slot) then 1 else 0) + Releases(ms[1..], gen, slot)
  }

  function InFlight(s: System, gen: int, slot: int): nat {
    Frames(s.toUi, gen, slot) + Releases(s.toChild, gen, slot)
  }

  // A slot of the child's ring is busy exactly while one message about it is
  // under way, and then only one.
  predicate Balanced(s: System) {
    |s.host.busy| == SLOTS
    && forall slot :: 0 <= slot < SLOTS ==> InFlight(s, s.host.gen, slot) == if s.host.busy[slot] then 1 else 0
  }

  // Rings still on the way to the child are newer than its own, in order.
  predicate RingsAhead(ms: seq<ToChild>, gen: int, upTo: int) {
    if ms == [] then gen <= upTo
    else if ms[0].Ring? then gen < ms[0].gen && RingsAhead(ms[1..], ms[0].gen, upTo)
    else RingsAhead(ms[1..], gen, upTo)
  }

  predicate SizeOf(s: System, gen: int, bytes: int) { gen in s.sizes && s.sizes[gen] == bytes && bytes > 0 }

  predicate FrameOk(m: ToUi, s: System) {
    m.Frame? ==> && 0 <= m.slot < SLOTS && m.gen <= s.host.gen && m.gen in s.sizes
                 && Read(s.memory, m.gen, m.slot * s.sizes[m.gen]) == Some(m.stamp)
  }

  predicate SizesOk(s: System) {
    && (forall g :: g in s.sizes ==> g <= s.player.gen)
    && (s.host.mapped ==> SizeOf(s, s.host.gen, s.host.slotBytes))
    && (s.player.mapped ==> SizeOf(s, s.player.gen, s.player.slotBytes))
    && (s.player.mapped || s.player.slotBytes == 0)
    && (forall m :: m in s.toChild && m.Ring? ==> SizeOf(s, m.gen, m.bytes))
  }

  predicate RingOk(s: System) {
    && 0 <= s.player.gen && Balanced(s) && SizesOk(s)
    && RingsAhead(s.toChild, s.host.gen, s.player.gen)
    && (forall m :: m in s.toChild && m.Release? ==> m.gen <= s.host.gen)
    && (forall m :: m in s.toUi ==> FrameOk(m, s))
    && (forall x :: x in s.shown ==> x.got == Some(x.expected))
  }

  // ---- Counting lemmas ----

  lemma {:induction false} FramesAppend(a: seq<ToUi>, b: seq<ToUi>, gen: int, slot: int)
    ensures Frames(a + b, gen, slot) == Frames(a, gen, slot) + Frames(b, gen, slot)
  {
    if a == [] {
      assert a + b == b;
    } else {
      assert (a + b)[1..] == a[1..] + b;
      FramesAppend(a[1..], b, gen, slot);
    }
  }

  lemma {:induction false} ReleasesAppend(a: seq<ToChild>, b: seq<ToChild>, gen: int, slot: int)
    ensures Releases(a + b, gen, slot) == Releases(a, gen, slot) + Releases(b, gen, slot)
  {
    if a == [] {
      assert a + b == b;
    } else {
      assert (a + b)[1..] == a[1..] + b;
      ReleasesAppend(a[1..], b, gen, slot);
    }
  }

  lemma {:induction false} FrameCounted(ms: seq<ToUi>, m: ToUi)
    requires m in ms && m.Frame?
    ensures Frames(ms, m.gen, m.slot) > 0
  {
    if ms[0] != m {
      FrameCounted(ms[1..], m);
    }
  }

  lemma {:induction false} NoNewerFrames(ms: seq<ToUi>, gen: int, slot: int)
    requires forall m :: m in ms && m.Frame? ==> m.gen < gen
    ensures Frames(ms, gen, slot) == 0
  {
    if ms != [] {
      assert ms[0] in ms;
      NoNewerFrames(ms[1..], gen, slot);
    }
  }

  lemma {:induction false} NoReleaseOf(ms: seq<ToChild>, gen: int, slot: int)
    requires forall m :: m in ms && m.Release? ==> m.gen < gen
    ensures Releases(ms, gen, slot) == 0
  {
    if ms != [] {
      assert ms[0] in ms;
      NoReleaseOf(ms[1..], gen, slot);
    }
  }

  lemma {:induction false} RingsAheadAppend(a: seq<ToChild>, b: seq<ToChild>, gen: int, upTo: int, newUpTo: int)
    requires RingsAhead(a, gen, upTo) && upTo <= newUpTo
    requires b == [] || (|b| == 1 && (b[0].Ring? ==> upTo < b[0].gen <= newUpTo))
    ensures RingsAhead(a + b, gen, newUpTo)
  {
    if a == [] {
      assert a + b == b;
    } else {
      assert (a + b)[1..] == a[1..] + b;
      RingsAheadAppend(a[1..], b, if a[0].Ring? then a[0].gen else gen, upTo, newUpTo);
    }
  }

  // Slots of one ring never share an address.
  lemma SlotsApart(a: int, b: int, bytes: int)
    requires 0 <= a < SLOTS && 0 <= b < SLOTS && bytes > 0 && a != b
    ensures a * bytes != b * bytes
  {
    assert a * bytes - b * bytes == (a - b) * bytes;
  }

  // ---- Each step keeps the invariant ----

  // The child writes only a slot nothing is in flight for: no frame the player
  // has yet to copy sits there.
  lemma WritesOnlyFreeSlots(s: System, need: int, stamp: int, packs: bool, m: ToUi)
    requires RingOk(s) && m in s.toUi && m.Frame?
    ensures var e := OnFrame(s.host, need, stamp, packs);
            e.wrote.Some? ==> m.gen != s.host.gen || m.slot != e.wrote.value
  {
    var e := OnFrame(s.host, need, stamp, packs);
    if m.gen == s.host.gen {
      FrameCounted(s.toUi, m);
      assert FrameOk(m, s);
      assert InFlight(s, s.host.gen, m.slot) > 0;
      assert s.host.busy[m.slot];
    }
  }

  lemma DecodesBalanced(s: System, need: int, stamp: int, packs: bool)
    requires Balanced(s)
    ensures Balanced(Act(s, Decodes(need, stamp, packs)))
  {
    var e := OnFrame(s.host, need, stamp, packs);
    var t := Act(s, Decodes(need, stamp, packs));
    forall slot | 0 <= slot < SLOTS
      ensures InFlight(t, t.host.gen, slot) == if t.host.busy[slot] then 1 else 0
    {
      FramesAppend(s.toUi, e.sent, s.host.gen, slot);
      assert InFlight(s, s.host.gen, slot) == if s.host.busy[slot] then 1 else 0;
    }
  }

  lemma DecodesFrames(s: System, need: int, stamp: int, packs: bool)
    requires RingOk(s)
    ensures var t := Act(s, Decodes(need, stamp, packs)); forall m :: m in t.toUi ==> FrameOk(m, t)
  {
    var e := OnFrame(s.host, need, stamp, packs);
    var t := Act(s, Decodes(need, stamp, packs));
    forall m | m in t.toUi ensures FrameOk(m, t) {
      if m in s.toUi {
        assert FrameOk(m, s);
        if m.Frame? && e.wrote.Some? && m.gen == s.host.gen {
          WritesOnlyFreeSlots(s, need, stamp, packs, m);
          SlotsApart(m.slot, e.wrote.value, s.host.slotBytes);
        }
      } else {
        assert m in e.sent;
      }
    }
  }

  lemma DecodesOk(s: System, need: int, stamp: int, packs: bool)
    requires RingOk(s)
    ensures RingOk(Act(s, Decodes(need, stamp, packs)))
  {
    DecodesBalanced(s, need, stamp, packs);
    DecodesFrames(s, need, stamp, packs);
  }

  lemma AttachBalanced(s: System, t: System)
    requires RingOk(s) && s.toChild != [] && s.toChild[0].Ring?
    requires t.host == Host(true, s.toChild[0].bytes, s.toChild[0].gen, s.host.asked, [false, false, false])
    requires t.toUi == s.toUi + [RingReady(s.toChild[0].gen)] && t.toChild == s.toChild[1..]
    ensures Balanced(t)
  {
    var gen := s.toChild[0].gen;
    forall slot | 0 <= slot < SLOTS ensures InFlight(t, gen, slot) == 0 {
      FramesAppend(s.toUi, [RingReady(gen)], gen, slot);
      forall m | m in s.toUi && m.Frame? ensures m.gen < gen { assert FrameOk(m, s); }
      NoNewerFrames(s.toUi, gen, slot);
      NoReleaseOf(t.toChild, gen, slot);
    }
  }

  lemma ReleaseBalanced(s: System, t: System, m: ToChild)
    requires RingOk(s) && s.toChild != [] && m == s.toChild[0] && m.Release?
    requires t.host == HostTakes(s.host, m, true).host && t.toUi == s.toUi && t.toChild == s.toChild[1..]
    ensures Balanced(t)
  {
    forall slot | 0 <= slot < SLOTS
      ensures InFlight(t, t.host.gen, slot) == if t.host.busy[slot] then 1 else 0
    {
      assert InFlight(s, s.host.gen, slot) == if s.host.busy[slot] then 1 else 0;
    }
  }

  lemma HostReceivesOk(s: System, maps: bool)
    requires RingOk(s)
    ensures RingOk(Act(s, HostReceives(maps)))
  {
    if s.toChild != [] {
      var m := s.toChild[0];
      var t := Act(s, HostReceives(maps));
      assert t.toChild == s.toChild[1..];
      if m.Ring? {
        RingsAheadLater(s.toChild[1..], m.gen, s.host.gen, s.player.gen);
        if t.host.gen == m.gen {
          AttachBalanced(s, t);
        } else {
          StillBalanced(s, t);
        }
      } else {
        assert s.toUi + [] == s.toUi;
        ReleaseBalanced(s, t, m);
      }
      HostReceivesFrames(s, t);
    }
  }

  lemma HostReceivesFrames(s: System, t: System)
    requires RingOk(s) && s.toChild != [] && exists maps :: t == Act(s, HostReceives(maps))
    ensures forall m :: m in t.toUi ==> FrameOk(m, t)
  {
    forall m | m in t.toUi ensures FrameOk(m, t) {
      assert m in s.toUi ==> FrameOk(m, s);
    }
  }

  // A ring that could not be mapped is ignored: no count changes.
  lemma StillBalanced(s: System, t: System)
    requires Balanced(s) && s.toChild != [] && s.toChild[0].Ring?
    requires t.host == s.host && t.toUi == s.toUi + [] && t.toChild == s.toChild[1..]
    ensures Balanced(t)
  {
    assert t.toUi == s.toUi;
    forall slot | 0 <= slot < SLOTS
      ensures InFlight(t, t.host.gen, slot) == if t.host.busy[slot] then 1 else 0
    {
      assert InFlight(s, s.host.gen, slot) == if s.host.busy[slot] then 1 else 0;
    }
  }

  lemma {:induction false} RingsAheadLater(ms: seq<ToChild>, gen: int, less: int, upTo: int)
    requires RingsAhead(ms, gen, upTo) && less <= gen
    ensures RingsAhead(ms, less, upTo)
  {
    if ms != [] && !ms[0].Ring? {
      RingsAheadLater(ms[1..], gen, less, upTo);
    }
  }

  lemma {:induction false} RingsBelow(ms: seq<ToChild>, gen: int, upTo: int)
    requires RingsAhead(ms, gen, upTo)
    ensures gen <= upTo
  {
    if ms != [] {
      RingsBelow(ms[1..], if ms[0].Ring? then ms[0].gen else gen, upTo);
    }
  }

  lemma PlayerReceivesBalanced(s: System, creates: bool)
    requires RingOk(s) && s.toUi != []
    ensures Balanced(Act(s, PlayerReceives(creates)))
  {
    var r := PlayerTakes(s.player, s.toUi[0], creates);
    var t := Act(s, PlayerReceives(creates));
    forall slot | 0 <= slot < SLOTS
      ensures InFlight(t, t.host.gen, slot) == if t.host.busy[slot] then 1 else 0
    {
      ReleasesAppend(s.toChild, r.1, s.host.gen, slot);
      assert InFlight(s, s.host.gen, slot) == if s.host.busy[slot] then 1 else 0;
    }
  }

  // Every frame the player copies is the one packed under its header.
  lemma CopyExact(s: System)
    requires RingOk(s) && s.toUi != []
    ensures forall x :: x in Copy(s.player, s.memory, s.toUi[0]) ==> x.got == Some(x.expected)
  {
    assert FrameOk(s.toUi[0], s);
  }

  lemma PlayerReceivesOk(s: System, creates: bool)
    requires RingOk(s)
    ensures RingOk(Act(s, PlayerReceives(creates)))
  {
    if s.toUi != [] {
      var r := PlayerTakes(s.player, s.toUi[0], creates);
      var t := Act(s, PlayerReceives(creates));
      PlayerReceivesBalanced(s, creates);
      CopyExact(s);
      assert FrameOk(s.toUi[0], s);
      hide Balanced, InFlight, Copy;
      RingsBelow(s.toChild, s.host.gen, s.player.gen);
      RingsAheadAppend(s.toChild, r.1, s.host.gen, s.player.gen, t.player.gen);
      FramesStayOk(s, creates);
    }
  }

  lemma FramesStayOk(s: System, creates: bool)
    requires RingOk(s) && s.toUi != []
    ensures forall m :: m in Act(s, PlayerReceives(creates)).toUi ==> FrameOk(m, Act(s, PlayerReceives(creates)))
  {
    hide InFlight, Copy;
    forall m | m in s.toUi[1..] ensures FrameOk(m, Act(s, PlayerReceives(creates))) {
      assert FrameOk(m, s);
    }
  }

  lemma ActOk(s: System, a: Action)
    requires RingOk(s)
    ensures RingOk(Act(s, a))
  {
    hide RingOk;
    match a
    case Decodes(need, stamp, packs) => DecodesOk(s, need, stamp, packs);
    case HostReceives(maps) => HostReceivesOk(s, maps);
    case PlayerReceives(creates) => PlayerReceivesOk(s, creates);
    case Restart => RestartOk(s);
  }

  lemma RestartOk(s: System)
    requires RingOk(s)
    ensures RingOk(Act(s, Restart))
  {
    RingsBelow(s.toChild, s.host.gen, s.player.gen);
  }

  // ---- Over whole runs ----

  lemma {:induction false} RunOk(s: System, actions: seq<Action>)
    requires RingOk(s)
    ensures RingOk(Run(s, actions))
    decreases |actions|
  {
    if actions != [] {
      ActOk(s, actions[0]);
      hide Act;
      RunOk(Act(s, actions[0]), actions[1..]);
    }
  }

  lemma InitOk()
    ensures RingOk(INIT)
  {
  }

  // In every run, ring swaps and child restarts included: a slot of the
  // child's ring is busy exactly while one frame or release for it is under
  // way, and every frame the player ever copied is the one its header stood for.
  lemma RingIsSafe(actions: seq<Action>)
    ensures Balanced(Run(INIT, actions))
    ensures forall x :: x in Run(INIT, actions).shown ==> x.got == Some(x.expected)
  {
    hide Run, Act, Balanced;
    InitOk();
    RunOk(INIT, actions);
  }

  // In every run the next frame never lands on one the player has yet to copy.
  lemma NeverOverwrites(actions: seq<Action>, need: int, stamp: int, packs: bool, m: ToUi)
    requires m in Run(INIT, actions).toUi && m.Frame?
    ensures var s := Run(INIT, actions);
            OnFrame(s.host, need, stamp, packs).wrote == Some(m.slot) ==> m.gen != s.host.gen
  {
    hide Run, Act, OnFrame;
    InitOk();
    RunOk(INIT, actions);
    WritesOnlyFreeSlots(Run(INIT, actions), need, stamp, packs, m);
  }

  // No slot leaks: once both channels are empty every slot is free again.
  lemma SlotsComeBack(actions: seq<Action>)
    requires Run(INIT, actions).toUi == [] && Run(INIT, actions).toChild == []
    ensures Run(INIT, actions).host.busy == [false, false, false]
  {
    hide Run, Act;
    InitOk();
    RunOk(INIT, actions);
    var s := Run(INIT, actions);
    forall slot | 0 <= slot < SLOTS ensures !s.host.busy[slot] {
      assert InFlight(s, s.host.gen, slot) == 0;
    }
  }
}
