// The frame ring byte by byte: FrameRing says which slot is whose, MediaFrame
// how a frame lies in a slot; here a ring is one stretch of bytes cut into slots.
// Source: src/ipc/mediahost.cpp, src/ipc/mediaframe.cpp,
// src/bridges/isolatedmediaplayer.cpp.
module FrameBytes {
  import opened Common
  import G = FrameRing
  import M = MediaFrameSpec

  // A frame the child packed, and the header it sent.
  datatype Picture = Picture(frame: M.Mapped, header: M.FrameHeader)

  // `rings` is what each generation's segment holds; a stamp of the ring model
  // is the position of a picture in `packed`.
  datatype System = System(ring: G.System, rings: map<int, Bytes>, packed: seq<Picture>)

  const INIT := System(G.INIT, map[], [])

  datatype Action =
    | Decodes(picture: Picture, slot: Bytes)   // `slot` is what packing leaves in the slot
    | HostReceives(maps: bool)
    | PlayerReceives(creates: bool)
    | Restart

  function SlotAt(ring: Bytes, slot: nat, slotBytes: nat): Bytes
    requires (slot + 1) * slotBytes <= |ring|
  {
    var lo, hi := slot * slotBytes, (slot + 1) * slotBytes;
    ring[lo..hi]
  }

  // The ring with one slot written over.
  function WithSlot(ring: Bytes, slot: nat, bytes: Bytes): Bytes
    requires (slot + 1) * |bytes| <= |ring|
  {
    var lo, hi := slot * |bytes|, (slot + 1) * |bytes|;
    ring[..lo] + bytes + ring[hi..]
  }

  // What a successful pack leaves behind, whatever the slot held before.
  predicate WellPacked(p: Picture, slot: Bytes) {
    0 < |p.frame.planes| <= M.MAX_PLANES && M.Held(slot, p.frame, p.header)
  }

  function RingAction(s: System, a: Action): G.Action {
    match a
    case Decodes(p, _) =>
      G.Decodes(M.PackedSize(p.frame.planes), |s.packed|, 0 < |p.frame.planes| <= M.MAX_PLANES)
    case HostReceives(maps) => G.HostReceives(maps)
    case PlayerReceives(creates) => G.PlayerReceives(creates)
    case Restart => G.Restart
  }

  // The slot this step writes, if it writes one.
  function Written(s: System, a: Action): Option<int>
    requires |s.ring.host.busy| == G.SLOTS
  {
    match RingAction(s, a)
    case Decodes(need, stamp, packs) => G.OnFrame(s.ring.host, need, stamp, packs).wrote
    case _ => None
  }

  // A step is possible: what it writes is a packed picture of the slot's size.
  predicate Possible(s: System, a: Action)
    requires |s.ring.host.busy| == G.SLOTS
  {
    Written(s, a).Some? ==> a.Decodes? && |a.slot| == s.ring.host.slotBytes && WellPacked(a.picture, a.slot)
  }

  predicate RingsThere(s: System) {
    && |s.ring.host.busy| == G.SLOTS
    && (forall g :: g in s.ring.sizes ==>
          s.ring.sizes[g] > 0 && g in s.rings && |s.rings[g]| == G.SLOTS * s.ring.sizes[g])
  }

  function Act(s: System, a: Action): System
    requires RingsThere(s) && G.SizesOk(s.ring) && Possible(s, a)
  {
    var t := G.Act(s.ring, RingAction(s, a));
    var w := Written(s, a);
    if w.Some? then
      var ring := s.rings[s.ring.host.gen];
      SlotInRing(w.value, |a.slot|);
      System(t, s.rings[s.ring.host.gen := WithSlot(ring, w.value, a.slot)], s.packed + [a.picture])
    else if t.player.gen != s.ring.player.gen then
      System(t, s.rings[t.player.gen := Zeros(G.SLOTS * Max(0, t.player.slotBytes))], s.packed)
    else
      System(t, s.rings, s.packed)
  }

  function Zeros(n: nat): (b: Bytes)
    ensures |b| == n
  {
    seq(n, _ => 0)
  }

  lemma SlotInRing(slot: int, slotBytes: int)
    requires 0 <= slot < G.SLOTS && 0 <= slotBytes
    ensures 0 <= slot * slotBytes <= (slot + 1) * slotBytes <= G.SLOTS * slotBytes
    ensures (slot + 1) * slotBytes == slot * slotBytes + slotBytes
  {
  }

  // ---- Slots do not touch ----

  lemma SlotWritten(ring: Bytes, slot: nat, bytes: Bytes)
    requires slot < G.SLOTS && |ring| == G.SLOTS * |bytes|
    ensures (slot + 1) * |bytes| <= |ring| && |WithSlot(ring, slot, bytes)| == |ring|
    ensures SlotAt(WithSlot(ring, slot, bytes), slot, |bytes|) == bytes
  {
    SlotInRing(slot, |bytes|);
  }

  lemma OtherSlotsStay(ring: Bytes, slot: nat, bytes: Bytes, other: nat)
    requires slot < G.SLOTS && other < G.SLOTS && slot != other && |ring| == G.SLOTS * |bytes|
    ensures (slot + 1) * |bytes| <= |ring| && (other + 1) * |bytes| <= |ring|
    ensures |WithSlot(ring, slot, bytes)| == |ring|
    ensures SlotAt(WithSlot(ring, slot, bytes), other, |bytes|) == SlotAt(ring, other, |bytes|)
  {
    var n := |bytes|;
    SlotInRing(slot, n);
    SlotInRing(other, n);
    Ordered(slot, other, n);
    var lo, hi, olo, ohi := slot * n, (slot + 1) * n, other * n, (other + 1) * n;
    BytesElsewhere(ring, bytes, lo, hi, olo, ohi);
  }

  lemma Ordered(slot: nat, other: nat, n: nat)
    requires slot != other
    ensures (slot + 1) * n <= other * n || (other + 1) * n <= slot * n
  {
    if slot < other {
      MoreTimes(slot + 1, other, n);
    } else {
      MoreTimes(other + 1, slot, n);
    }
  }

  lemma {:induction false} MoreTimes(a: nat, b: nat, n: nat)
    requires a <= b
    ensures a * n <= b * n
  {
  }

  lemma BytesElsewhere(ring: Bytes, bytes: Bytes, lo: nat, hi: nat, olo: nat, ohi: nat)
    requires lo + |bytes| == hi <= |ring| && olo <= ohi <= |ring| && (hi <= olo || ohi <= lo)
    ensures (ring[..lo] + bytes + ring[hi..])[olo..ohi] == ring[olo..ohi]
  {
  }

  // ---- What lies in the slots ----

  // If the ring model has a stamp at this slot, the slot holds that picture.
  predicate PictureAt(s: System, gen: int, slot: nat)
    requires RingsThere(s) && gen in s.ring.sizes && slot < G.SLOTS
  {
    var size := s.ring.sizes[gen];
    SlotInRing(slot, size);
    var stamp := G.Read(s.ring.memory, gen, slot * size);
    stamp.Some? ==> Holds(s.packed, stamp.value, SlotAt(s.rings[gen], slot, size))
  }

  predicate Holds(packed: seq<Picture>, stamp: int, slot: Bytes) {
    0 <= stamp < |packed| && M.Held(slot, packed[stamp].frame, packed[stamp].header)
  }

  ghost predicate BytesOk(s: System) {
    && RingsThere(s) && G.RingOk(s.ring)
    && (forall k :: k in s.ring.memory ==> k.0 in s.ring.sizes)
    && (forall gen, slot :: gen in s.ring.sizes && 0 <= slot < G.SLOTS ==> PictureAt(s, gen, slot))
  }

  lemma WritesItsOwnRing(s: System, a: Action)
    requires RingsThere(s) && G.RingOk(s.ring) && Written(s, a).Some?
    ensures a.Decodes? && 0 <= Written(s, a).value < G.SLOTS
    ensures s.ring.host.gen in s.ring.sizes && s.ring.sizes[s.ring.host.gen] == s.ring.host.slotBytes > 0
    ensures var t := G.Act(s.ring, RingAction(s, a)); var h := s.ring.host;
            && t.sizes == s.ring.sizes && t.player == s.ring.player
            && t.memory == s.ring.memory[(h.gen, Written(s, a).value * h.slotBytes) := |s.packed|]
  {
  }

  lemma WrittenKeeps(s: System, a: Action)
    requires BytesOk(s) && Possible(s, a) && Written(s, a).Some?
    ensures BytesOk(Act(s, a))
  {
    WritesItsOwnRing(s, a);
    G.ActOk(s.ring, RingAction(s, a));
    var t := Act(s, a);
    var w, h := Written(s, a).value, s.ring.host;
    SlotWritten(s.rings[h.gen], w, a.slot);
    hide G.RingOk, G.Act, M.Held, WithSlot, SlotAt, Written, RingAction;
    forall gen, slot | gen in t.ring.sizes && 0 <= slot < G.SLOTS ensures PictureAt(t, gen, slot) {
      assert PictureAt(s, gen, slot);
      if gen == h.gen && slot != w {
        OtherSlotsStay(s.rings[h.gen], w, a.slot, slot);
        G.SlotsApart(slot, w, h.slotBytes);
      }
    }
  }

  lemma UnwrittenIs(s: System, a: Action)
    requires RingsThere(s) && G.RingOk(s.ring) && Written(s, a).None?
    ensures var t := G.Act(s.ring, RingAction(s, a));
            && t.memory == s.ring.memory
            && if t.player.gen == s.ring.player.gen then t.sizes == s.ring.sizes
               else t.player.gen !in s.ring.sizes && t.player.slotBytes > 0
                    && t.sizes == s.ring.sizes[t.player.gen := t.player.slotBytes]
  {
    var t := G.Act(s.ring, RingAction(s, a));
    assert t.player.gen == s.ring.player.gen || t.player.gen == s.ring.player.gen + 1;
  }

  lemma UnwrittenKeeps(s: System, a: Action)
    requires BytesOk(s) && Written(s, a).None?
    ensures BytesOk(Act(s, a))
  {
    UnwrittenIs(s, a);
    G.ActOk(s.ring, RingAction(s, a));
    var t := Act(s, a);
    hide G.RingOk, G.Act, M.Held, SlotAt, Written, RingAction;
    forall gen, slot | gen in t.ring.sizes && 0 <= slot < G.SLOTS ensures PictureAt(t, gen, slot) {
      if gen in s.ring.sizes {
        assert PictureAt(s, gen, slot);
      }
    }
  }

  lemma ActKeeps(s: System, a: Action)
    requires BytesOk(s) && Possible(s, a)
    ensures BytesOk(Act(s, a))
  {
    if Written(s, a).Some? {
      WrittenKeeps(s, a);
    } else {
      UnwrittenKeeps(s, a);
    }
  }

  // ---- Over whole runs ----

  // Steps that are not possible are not taken.
  ghost function Run(s: System, actions: seq<Action>): (t: System)
    requires BytesOk(s)
    ensures BytesOk(t)
    decreases |actions|
  {
    if actions == [] then s
    else if Possible(s, actions[0]) then
      ActKeeps(s, actions[0]);
      Run(Act(s, actions[0]), actions[1..])
    else Run(s, actions[1..])
  }

  lemma InitOk()
    ensures BytesOk(INIT)
  {
    G.InitOk();
  }

  // The slot a usable frame names, in the player's ring.
  ghost function Arrived(s: System): Bytes
    requires BytesOk(s) && s.ring.toUi != [] && G.Usable(s.ring.player, s.ring.toUi[0])
  {
    var m, p := s.ring.toUi[0], s.ring.player;
    assert G.FrameOk(m, s.ring) && G.SizeOf(s.ring, p.gen, p.slotBytes);
    SlotInRing(m.slot, p.slotBytes);
    SlotAt(s.rings[p.gen], m.slot, p.slotBytes)
  }

  // In every run, ring swaps and restarts included: when the player comes to copy
  // a usable frame, its slot holds, byte for byte, the picture that was packed
  // under the frame's header.
  lemma PicturesArriveWhole(actions: seq<Action>)
    ensures BytesOk(INIT)
    ensures var s := Run(INIT, actions);
            s.ring.toUi != [] && G.Usable(s.ring.player, s.ring.toUi[0]) ==>
              Holds(s.packed, s.ring.toUi[0].stamp, Arrived(s))
  {
    hide Run, BytesOk, Arrived, Holds;
    InitOk();
    var s := Run(INIT, actions);
    if s.ring.toUi != [] && G.Usable(s.ring.player, s.ring.toUi[0]) {
      UsableHolds(s);
    }
  }

  lemma UsableHolds(s: System)
    requires BytesOk(s) && s.ring.toUi != [] && G.Usable(s.ring.player, s.ring.toUi[0])
    ensures Holds(s.packed, s.ring.toUi[0].stamp, Arrived(s))
  {
    var m, p := s.ring.toUi[0], s.ring.player;
    hide M.Held, SlotAt, G.Balanced;
    assert G.FrameOk(m, s.ring) && G.SizeOf(s.ring, p.gen, p.slotBytes);
    assert PictureAt(s, p.gen, m.slot);
  }

  // So each byte the player copies out, row by row, is the packed picture's.
  lemma RowsComeOut(s: System, i: nat, dst: Bytes, to: M.Room, r: nat, c: nat)
    requires BytesOk(s) && s.ring.toUi != [] && G.Usable(s.ring.player, s.ring.toUi[0])
    requires 0 <= s.ring.toUi[0].stamp < |s.packed|
    requires var p := s.packed[s.ring.toUi[0].stamp]; i < |p.frame.planes| && i < |p.header.planes|
    requires var src := s.packed[s.ring.toUi[0].stamp].header.planes[i];
             && M.PlaneFits(src, |Arrived(s)|) && M.RowsFit(to, src) && to.size <= M.INT_MAX
             && M.PlaneCopied(dst, to, Arrived(s), src) && r < M.RowsOf(to) && c < M.RowBytes(to, src)
    ensures var was := s.packed[s.ring.toUi[0].stamp].frame.planes[i];
            && 0 <= r * (was.stride as int) + c < |was.data| && r * to.stride + c < |dst|
            && dst[r * to.stride + c] == was.data[r * (was.stride as int) + c]
  {
    UsableHolds(s);
    var p := s.packed[s.ring.toUi[0].stamp];
    hide BytesOk, Arrived, M.Held, M.PlaneCopied, M.RowsFit, M.PlaneFits;
    M.RowsRestored(Arrived(s), p.frame, p.header, i, dst, to, r, c);
  }
}
