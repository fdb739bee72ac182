// How the planes of a frame lie in a slot, what the child writes there, and
// which headers the player copies rows for.
// Source: src/ipc/mediaframe.cpp, src/ipc/mediaprotocol.h.
module MediaFrameSpec {
  import opened Common

  const ALIGN := 64
  const MAX_PLANES := 4
  const MAX_DIMENSION := 8192

  const INT_MAX := 0x7FFF_FFFF

  // qint64 and qint32: arithmetic on them must not leave their range.
  newtype Int64 = x: int | -0x8000_0000_0000_0000 <= x < 0x8000_0000_0000_0000

  newtype Int32 = x: int | -0x8000_0000 <= x < 0x8000_0000

  // A plane of a mapped frame: its bytes and how many make a row.
  datatype Picture = Picture(stride: Int32, data: Bytes)

  datatype Mapped = Mapped(pixelFormat: Int32, width: Int32, height: Int32, startUs: Int64, endUs: Int64,
      planes: seq<Picture>)

  datatype Plane = Plane(stride: Int32, offset: Int64, bytes: Int64)

  datatype FrameHeader = FrameHeader(slot: Int32, pixelFormat: Int32, width: Int32, height: Int32,
                                     startUs: Int64, endUs: Int64, planeCount: Int32, planes: seq<Plane>)

  // What QVideoFrame gives: mapped sizes are ints.
  predicate IsMapped(f: Mapped) {
    |f.planes| <= INT_MAX && forall i :: 0 <= i < |f.planes| ==> |f.planes[i].data| <= INT_MAX
  }

  function Aligned(n: nat): (m: nat)
    ensures m % ALIGN == 0 && n <= m < n + ALIGN
  {
    (n + ALIGN - 1) / ALIGN * ALIGN
  }

  // Where plane i starts; one past the last plane, where the next would.
  function Offset(planes: seq<Picture>, i: nat): (o: nat)
    requires i <= |planes|
    ensures o % ALIGN == 0
  {
    if i == 0 then 0 else Aligned(Offset(planes, i - 1) + |planes[i - 1].data|)
  }

  function PackedSize(planes: seq<Picture>): nat {
    Offset(planes, Min(|planes|, MAX_PLANES))
  }

  // ---- Where the planes lie ----

  lemma {:induction false} OffsetsGrow(planes: seq<Picture>, i: nat, j: nat)
    requires i < j <= |planes|
    ensures Offset(planes, i) + |planes[i].data| <= Offset(planes, j)
  {
    if i + 1 < j {
      OffsetsGrow(planes, i, j - 1);
    }
  }

  predicate Apart(from: int, size: int, from2: int, size2: int) { from + size <= from2 || from2 + size2 <= from }

  // Planes start on 64-byte lines, do not overlap and end within the size.
  lemma PlanesApart(planes: seq<Picture>)
    requires |planes| <= MAX_PLANES
    ensures forall i :: 0 <= i < |planes| ==>
              Offset(planes, i) % 64 == 0 && Offset(planes, i) + |planes[i].data| <= PackedSize(planes)
    ensures forall i, j :: 0 <= i < |planes| && 0 <= j < |planes| && i != j ==>
              Apart(Offset(planes, i), |planes[i].data|, Offset(planes, j), |planes[j].data|)
  {
    hide Offset;
    forall i | 0 <= i < |planes| ensures Offset(planes, i) + |planes[i].data| <= PackedSize(planes) {
      OffsetsGrow(planes, i, |planes|);
    }
    forall i, j | 0 <= i < |planes| && 0 <= j < |planes| && i != j
      ensures Apart(Offset(planes, i), |planes[i].data|, Offset(planes, j), |planes[j].data|)
    {
      if i < j { OffsetsGrow(planes, i, j); } else { OffsetsGrow(planes, j, i); }
    }
  }

  // The size is the least that holds the planes so laid out: less than one
  // 64-byte line is left over after the last.
  lemma {:induction false} SizeIsTight(planes: seq<Picture>)
    requires 0 < |planes| <= MAX_PLANES
    ensures PackedSize(planes) < Offset(planes, |planes| - 1) + |planes[|planes| - 1].data| + 64
  {
  }

  lemma {:induction false} SizeIsSmall(planes: seq<Picture>, i: nat)
    requires i <= |planes| && forall k :: 0 <= k < |planes| ==> |planes[k].data| <= INT_MAX
    ensures Offset(planes, i) <= i * (INT_MAX + ALIGN)
  {
    if i > 0 {
      SizeIsSmall(planes, i - 1);
    }
  }

  // ---- What a packed slot holds ----

  predicate Fields(f: Mapped, hdr: FrameHeader) {
    && hdr.pixelFormat == f.pixelFormat && hdr.width == f.width && hdr.height == f.height
    && hdr.startUs == f.startUs && hdr.endUs == f.endUs && hdr.planeCount as int == |f.planes|
  }

  // Plane i is in the slot where its header says, whole.
  predicate PlaneHeld(slot: Bytes, planes: seq<Picture>, hdr: FrameHeader, i: nat)
    requires i < |planes| && |hdr.planes| == MAX_PLANES && i < MAX_PLANES
  {
    var o := Offset(planes, i);
    var size := |planes[i].data|;
    && hdr.planes[i].stride == planes[i].stride && hdr.planes[i].offset as int == o && hdr.planes[i].bytes as int == size
    && o + size <= |slot| && slot[o..o + size] == planes[i].data
  }

  predicate Held(slot: Bytes, f: Mapped, hdr: FrameHeader) {
    && |f.planes| <= MAX_PLANES == |hdr.planes| && Fields(f, hdr)
    && forall i :: 0 <= i < |f.planes| ==> PlaneHeld(slot, f.planes, hdr, i)
  }

  // ---- What the player accepts ----

  predicate PlaneFits(p: Plane, slotBytes: int) {
    p.stride > 0 && 0 <= p.offset && 0 < p.bytes && p.offset as int + p.bytes as int <= slotBytes
  }

  // `allowed` stands for the list of pixel formats.
  predicate HeaderFits(hdr: FrameHeader, slotBytes: int, allowed: Int32 -> bool) {
    && |hdr.planes| == MAX_PLANES && allowed(hdr.pixelFormat)
    && 0 < hdr.width as int <= MAX_DIMENSION && 0 < hdr.height as int <= MAX_DIMENSION
    && 0 < hdr.planeCount as int <= MAX_PLANES && slotBytes > 0
    && forall i :: 0 <= i < hdr.planeCount as int ==> PlaneFits(hdr.planes[i], slotBytes)
  }

  // A packed frame's header is accepted unless the frame itself is no good.
  lemma PackedFits(slot: Bytes, f: Mapped, hdr: FrameHeader, allowed: Int32 -> bool)
    requires Held(slot, f, hdr) && f.planes != []
    ensures HeaderFits(hdr, |slot|, allowed)
            <==> && allowed(f.pixelFormat)
                 && 0 < f.width as int <= 8192 && 0 < f.height as int <= 8192
                 && forall i :: 0 <= i < |f.planes| ==> f.planes[i].stride > 0 && f.planes[i].data != []
  {
    hide Offset;
    forall i | 0 <= i < |f.planes|
      ensures PlaneFits(hdr.planes[i], |slot|) <==> f.planes[i].stride > 0 && f.planes[i].data != []
    {
      assert PlaneHeld(slot, f.planes, hdr, i);
    }
    assert PlaneHeld(slot, f.planes, hdr, 0);
  }

  predicate Outside(p: Plane, slotBytes: int) {
    p.stride <= 0 || p.bytes <= 0 || p.offset < 0 || p.offset as int + p.bytes as int > slotBytes
  }

  // A header is refused whose format is not allowed, whose sides or planes are not
  // in range, or of which a plane has no rows or bytes or does not lie in the slot.
  lemma Refused(hdr: FrameHeader, slotBytes: int, allowed: Int32 -> bool, i: nat)
    requires |hdr.planes| == 4
    ensures !allowed(hdr.pixelFormat) || !(1 <= hdr.planeCount <= 4) || slotBytes <= 0 ==> !HeaderFits(hdr, slotBytes, allowed)
    ensures !(1 <= hdr.width <= 8192) || !(1 <= hdr.height <= 8192) ==> !HeaderFits(hdr, slotBytes, allowed)
    ensures i < 4 && i < hdr.planeCount as int && Outside(hdr.planes[i], slotBytes) ==> !HeaderFits(hdr, slotBytes, allowed)
  {
  }

  // ---- Copying rows out ----

  // A plane the player's own frame has room for.
  datatype Room = Room(stride: int, size: nat)

  function RowsOf(to: Room): int
    requires to.stride > 0
  {
    to.size / to.stride
  }

  function RowBytes(to: Room, src: Plane): int { Min(to.stride, src.stride as int) }

  predicate RowsFit(to: Room, src: Plane) {
    to.stride > 0 && RowsOf(to) > 0 && (RowsOf(to) - 1) * (src.stride as int) + RowBytes(to, src) <= src.bytes as int
  }

  // Row r of the copy is row r of the plane in the slot, as far as both go.
  predicate RowCopied(dst: Bytes, to: Room, slot: Bytes, src: Plane, r: nat) {
    var n, o := RowBytes(to, src), src.offset as int + r * (src.stride as int);
    && 0 <= n && 0 <= r * to.stride && r * to.stride + n <= |dst| && 0 <= o && o + n <= |slot|
    && dst[r * to.stride..r * to.stride + n] == slot[o..o + n]
  }

  predicate PlaneCopied(dst: Bytes, to: Room, slot: Bytes, src: Plane) {
    to.stride > 0 && forall r :: 0 <= r < RowsOf(to) ==> RowCopied(dst, to, slot, src, r)
  }

  lemma Products(r: int, rows: int, stride: int)
    requires 0 <= r < rows && stride > 0
    ensures 0 <= r * stride <= (rows - 1) * stride && (r + 1) * stride == r * stride + stride <= rows * stride
  {
  }

  // Every row the player reads lies in the slot, every row it writes in its
  // plane, and the offsets it computes fit 64 bits.
  lemma RowsInside(to: Room, src: Plane, slotBytes: int, r: int)
    requires PlaneFits(src, slotBytes) && RowsFit(to, src) && to.size <= INT_MAX
    requires 0 <= r < RowsOf(to)
    ensures 0 < RowBytes(to, src) <= to.stride && RowBytes(to, src) <= src.stride as int
    ensures 0 <= r * to.stride && r * to.stride + RowBytes(to, src) <= to.size
    ensures 0 <= src.offset as int + r * (src.stride as int)
    ensures src.offset as int + r * (src.stride as int) + RowBytes(to, src) <= slotBytes
    ensures 0 <= r * (src.stride as int) <= (RowsOf(to) - 1) * (src.stride as int) <= INT_MAX * INT_MAX
  {
    Products(r, RowsOf(to), to.stride);
    Products(r, RowsOf(to), src.stride as int);
    RowsInAll(to);
    BelowSquare(RowsOf(to) - 1, src.stride as int);
  }

  lemma RowsInAll(to: Room)
    requires to.stride > 0
    ensures RowsOf(to) * to.stride <= to.size && RowsOf(to) <= to.size
  {
    var q := RowsOf(to);
    assert to.size == q * to.stride + to.size % to.stride;
    Monotone(q, 1, to.stride);
  }

  lemma Monotone(a: int, b: int, c: int)
    requires a >= 0 && b <= c
    ensures a * b <= a * c
  {
  }

  lemma BelowSquare(a: int, b: int)
    requires 0 <= a <= INT_MAX && 0 <= b <= INT_MAX
    ensures 0 <= a * b <= INT_MAX * INT_MAX
  {
    Monotone(a, 0, b);
    Monotone(a, b, INT_MAX);
    Monotone(INT_MAX, a, INT_MAX);
    assert a * INT_MAX == INT_MAX * a;
  }

  // The product the bounds check computes cannot overflow either.
  lemma CheckFits64(to: Room, src: Plane)
    requires to.stride > 0 && to.size <= INT_MAX && src.stride > 0 && RowsOf(to) > 0
    ensures 0 <= (RowsOf(to) - 1) * (src.stride as int) <= INT_MAX * INT_MAX
  {
    RowsInAll(to);
    BelowSquare(RowsOf(to) - 1, src.stride as int);
  }

  // ---- Round trip ----

  // Byte c of row r comes back as it was, as far as both frames' rows go.
  lemma RowsRestored(slot: Bytes, f: Mapped, hdr: FrameHeader, i: nat, dst: Bytes, to: Room, r: nat, c: nat)
    requires Held(slot, f, hdr) && i < |f.planes| && RowsFit(to, hdr.planes[i])
    requires to.size <= INT_MAX && PlaneFits(hdr.planes[i], |slot|)
    requires PlaneCopied(dst, to, slot, hdr.planes[i]) && r < RowsOf(to) && c < RowBytes(to, hdr.planes[i])
    ensures var at := r * (f.planes[i].stride as int) + c;
            0 <= at < |f.planes[i].data| && r * to.stride + c < |dst| && dst[r * to.stride + c] == f.planes[i].data[at]
  {
    var src, data := hdr.planes[i], f.planes[i].data;
    assert PlaneHeld(slot, f.planes, hdr, i);
    assert RowCopied(dst, to, slot, src, r);
    hide Offset;
    RowsInside(to, src, |slot|, r);
    Products(r, RowsOf(to), src.stride as int);
    var n, o := RowBytes(to, src), src.offset as int + r * (src.stride as int);
    assert dst[r * to.stride..r * to.stride + n][c] == slot[o..o + n][c];
    assert slot[src.offset as int..src.offset as int + |data|][r * (src.stride as int) + c] ==
        data[r * (src.stride as int) + c];
  }

  // A frame of the same layout, in whole rows, comes back byte for byte.
  lemma SameLayoutRestored(slot: Bytes, f: Mapped, hdr: FrameHeader, i: nat, dst: Bytes, to: Room)
    requires Held(slot, f, hdr) && i < |f.planes| && PlaneFits(hdr.planes[i], |slot|)
    requires 0 < to.stride == f.planes[i].stride as int && to.size == |f.planes[i].data| == |dst| <= INT_MAX
    requires to.size % to.stride == 0
    requires PlaneCopied(dst, to, slot, hdr.planes[i])
    ensures RowsFit(to, hdr.planes[i])
    ensures dst == f.planes[i].data
  {
    var stride, data := to.stride, f.planes[i].data;
    assert PlaneHeld(slot, f.planes, hdr, i);
    hide Offset;
    assert RowsFit(to, hdr.planes[i]);
    forall k | 0 <= k < |data| ensures dst[k] == data[k] {
      var r, c := k / stride, k % stride;
      RowAndColumn(k, to.size, stride);
      RowsRestored(slot, f, hdr, i, dst, to, r, c);
    }
  }

  lemma RowAndColumn(k: int, size: int, stride: int)
    requires stride > 0 && 0 <= k < size && size % stride == 0
    ensures 0 <= k / stride < size / stride && 0 <= k % stride < stride && k == k / stride * stride + k % stride
  {
    var q, rows := k / stride, size / stride;
    assert size == rows * stride;
    if q >= rows {
      Products(rows, q + 1, stride);
      assert false;
    }
  }
}

module MediaFrame {
  import opened Common
  import opened MediaFrameSpec

  method PackedSize(f: Mapped) returns (total: Int64)
    requires IsMapped(f)
    ensures total as int == MediaFrameSpec.PackedSize(f.planes)
  {
    total := 0;
    var i := 0;
    while i < |f.planes| && i < MAX_PLANES
      invariant 0 <= i <= |f.planes| && i <= MAX_PLANES
      invariant total as int <= i * (INT_MAX + ALIGN)
      invariant total >= 0 && Aligned(total as int) == Offset(f.planes, i)
    {
      SizeIsSmall(f.planes, i + 1);
      total := (total + 63) / 64 * 64 + |f.planes[i].data| as Int64;
      i := i + 1;
    }
    SizeIsSmall(f.planes, i);
    total := (total + 63) / 64 * 64;
  }

  method Pack(f: Mapped, slot: array?<Byte>, slotBytes: Int64, hdr: FrameHeader) returns (ok: bool, out: FrameHeader)
    requires IsMapped(f) && |hdr.planes| == MAX_PLANES
    requires slot != null ==> slot.Length == slotBytes as int
    modifies slot
    ensures ok <==> slot != null && 0 < |f.planes| <= 4 && MediaFrameSpec.PackedSize(f.planes) <= slotBytes as int
    ensures !ok ==> out == hdr && (slot != null ==> slot[..] == old(slot[..]))
    ensures ok ==> Held(slot[..], f, out) && out.slot == hdr.slot
    ensures ok ==> forall k :: 0 <= k < slot.Length
                     && (forall i :: 0 <= i < |f.planes| ==> Apart(k, 1, Offset(f.planes, i), |f.planes[i].data|))
                     ==> slot[k] == old(slot[k])
  {
    out := hdr;
    if slot == null || |f.planes| == 0 || |f.planes| > MAX_PLANES {
      return false, out;
    }
    var size := PackedSize(f);
    if size > slotBytes {
      return false, out;
    }
    out := out.(pixelFormat := f.pixelFormat, width := f.width, height := f.height,
                startUs := f.startUs, endUs := f.endUs, planeCount := |f.planes| as Int32);
    var offset: Int64 := 0;
    PlanesApart(f.planes);
    hide Offset, PlaneHeld, PackedUpTo;
    ghost var start := slot[..];
    assert forall i :: 0 <= i < |f.planes| ==> Offset(f.planes, i) + |f.planes[i].data| <= slot.Length;
    for i := 0 to |f.planes|
      invariant |out.planes| == MAX_PLANES && Fields(f, out) && out.slot == hdr.slot
      invariant 0 <= offset as int <= i * (INT_MAX + ALIGN) && Aligned(offset as int) == Offset(f.planes, i)
      invariant PackedUpTo(start, slot[..], f.planes, out, i)
    {
      offset, out := PackPlane(f, slot, out, offset, i, start);
    }
    return true, out;
  }

  // The body of the loop over the planes.
  method PackPlane(f: Mapped, slot: array<Byte>, hdr: FrameHeader, end: Int64, i: nat, ghost start: Bytes)
    returns (offset: Int64, out: FrameHeader)
    requires IsMapped(f) && i < |f.planes| <= MAX_PLANES == |hdr.planes|
    requires 0 <= end as int <= i * (INT_MAX + ALIGN) && Aligned(end as int) == Offset(f.planes, i)
    requires PackedUpTo(start, slot[..], f.planes, hdr, i)
    requires Offset(f.planes, i) + |f.planes[i].data| <= slot.Length
    modifies slot
    ensures PackedUpTo(start, slot[..], f.planes, out, i + 1)
    ensures 0 <= offset as int <= (i + 1) * (INT_MAX + ALIGN) && Aligned(offset as int) == Offset(f.planes, i + 1)
    ensures out == hdr.(planes := out.planes) && |out.planes| == MAX_PLANES
  {
    SizeIsSmall(f.planes, i);
    hide Offset, PlaneHeld, PackedUpTo;
    var bytes := f.planes[i].data;
    ghost var before := slot[..];
    offset := (end + 63) / 64 * 64;
    out := hdr.(planes := hdr.planes[i := Plane(f.planes[i].stride, offset, |bytes| as Int64)]);
    CopyIn(slot, offset as int, bytes);
    PackStep(start, before, slot[..], f.planes, hdr, out, i);
    offset := offset + |bytes| as Int64;
  }

  // The first i planes are in the slot and nothing else of it has changed.
  predicate PackedUpTo(start: Bytes, slot: Bytes, planes: seq<Picture>, hdr: FrameHeader, i: nat) {
    && i <= |planes| <= MAX_PLANES == |hdr.planes| && |slot| == |start|
    && (forall j :: 0 <= j < i ==> PlaneHeld(slot, planes, hdr, j))
    && (forall k :: 0 <= k < |slot| && (forall j :: 0 <= j < i ==> Apart(k, 1, Offset(planes, j), |planes[j].data|))
          ==> slot[k] == start[k])
  }

  lemma {:induction false} PackStep(start: Bytes, before: Bytes, after: Bytes, planes: seq<Picture>,
      was: FrameHeader, out: FrameHeader, i: nat)
    requires PackedUpTo(start, before, planes, was, i) && i < |planes|
    requires |out.planes| == MAX_PLANES && out.planes[i].stride == planes[i].stride
    requires out.planes[i].offset as int == Offset(planes, i) && out.planes[i].bytes as int == |planes[i].data|
    requires forall j :: 0 <= j < i ==> out.planes[j] == was.planes[j]
    requires Offset(planes, i) + |planes[i].data| <= |before|
    requires after == before[..Offset(planes, i)] + planes[i].data + before[Offset(planes, i) + |planes[i].data|..]
    ensures PackedUpTo(start, after, planes, out, i + 1)
  {
    var at, bytes := Offset(planes, i), planes[i].data;
    assert after[at..at + |bytes|] == bytes;
    hide Offset;
    forall j | 0 <= j < i ensures PlaneHeld(after, planes, out, j) {
      assert PlaneHeld(before, planes, was, j);
      OffsetsGrow(planes, j, i);
      CopyElsewhere(before, after, at, bytes, Offset(planes, j), |planes[j].data|);
    }
    hide PlaneHeld;
    forall k | 0 <= k < |after| && (forall j :: 0 <= j < i + 1 ==> Apart(k, 1, Offset(planes, j), |planes[j].data|))
      ensures after[k] == start[k]
    {
      assert Apart(k, 1, at, |bytes|);
      assert after[k] == before[k];
    }
  }

  lemma CopyElsewhere(before: Bytes, after: Bytes, at: nat, bytes: Bytes, o: nat, size: nat)
    requires at + |bytes| <= |before| && o + size <= |before| && Apart(o, size, at, |bytes|)
    requires after == before[..at] + bytes + before[at + |bytes|..]
    ensures after[o..o + size] == before[o..o + size]
  {
  }

  // std::memcpy into the slot.
  method CopyIn(slot: array<Byte>, at: nat, bytes: Bytes)
    requires at + |bytes| <= slot.Length
    modifies slot
    ensures slot[..] == old(slot[..at]) + bytes + old(slot[at + |bytes|..])
  {
    forall k | 0 <= k < |bytes| {
      slot[at + k] := bytes[k];
    }
    assert slot[..at] == old(slot[..at]) && slot[at..at + |bytes|] == bytes &&
        slot[at + |bytes|..] == old(slot[at + |bytes|..]);
  }

  method HeaderFits(hdr: FrameHeader, slotBytes: Int64, allowed: Int32 -> bool) returns (ok: bool)
    requires |hdr.planes| == MAX_PLANES
    ensures ok <==> MediaFrameSpec.HeaderFits(hdr, slotBytes as int, allowed)
  {
    if !allowed(hdr.pixelFormat) {
      return false;
    }
    if hdr.width <= 0 || hdr.height <= 0 || hdr.width as int > MAX_DIMENSION || hdr.height as int > MAX_DIMENSION {
      return false;
    }
    if hdr.planeCount <= 0 || hdr.planeCount as int > MAX_PLANES || slotBytes <= 0 {
      return false;
    }
    for i := 0 to hdr.planeCount as int
      invariant forall j :: 0 <= j < i ==> PlaneFits(hdr.planes[j], slotBytes as int)
    {
      var p := hdr.planes[i];
      if p.stride <= 0 || p.offset < 0 || p.bytes <= 0 {
        return false;
      }
      if p.offset > slotBytes || p.bytes > slotBytes - p.offset {
        return false;
      }
    }
    return true;
  }

  datatype Times = Times(startUs: Int64, endUs: Int64)

  function RoomOf(strides: seq<Int32>, sizes: seq<nat>, i: nat): Room
    requires i < |strides| == |sizes|
  {
    Room(strides[i] as int, sizes[i])
  }

  predicate Accepts(hdr: FrameHeader, slotBytes: int, allowed: Int32 -> bool, strides: seq<Int32>, sizes: seq<nat>) {
    && |strides| == |sizes| && MediaFrameSpec.HeaderFits(hdr, slotBytes, allowed) && |strides| == hdr.planeCount as int
    && forall i :: 0 <= i < |strides| ==> RowsFit(RoomOf(strides, sizes, i), hdr.planes[i])
  }

  // `frame` and `strides` are the planes of the frame the player allocated
  // itself; `maps` says whether it could be mapped. A frame given up half way
  // is dropped.
  method Unpack(hdr: FrameHeader, slot: array?<Byte>, slotBytes: Int64, allowed: Int32 -> bool,
                frame: seq<array<Byte>>, strides: seq<Int32>, ghost sizes: seq<nat>, maps: bool)
    returns (times: Option<Times>)
    requires |hdr.planes| == MAX_PLANES && (slot != null ==> slot.Length == slotBytes as int)
    requires |frame| == |strides| == |sizes|
    requires forall i :: 0 <= i < |frame| ==> frame[i] != slot && frame[i].Length == sizes[i] <= INT_MAX
    requires forall i, j :: 0 <= i < j < |frame| ==> frame[i] != frame[j]
    modifies frame
    ensures times.Some? <==> slot != null && maps && Accepts(hdr, slotBytes as int, allowed, strides, sizes)
    ensures times.Some? ==> times.value == Times(hdr.startUs, hdr.endUs)
    ensures times.Some? ==> forall i :: 0 <= i < |frame| ==>
              PlaneCopied(frame[i][..], RoomOf(strides, sizes, i), slot[..], hdr.planes[i])
  {
    if slot == null {
      return None;
    }
    var fits := HeaderFits(hdr, slotBytes, allowed);
    if !fits || !maps || |frame| != hdr.planeCount as int {
      return None;
    }
    for i := 0 to hdr.planeCount as int
      invariant forall j :: 0 <= j < i ==> RowsFit(RoomOf(strides, sizes, j), hdr.planes[j])
      invariant forall j :: 0 <= j < i ==> PlaneCopied(frame[j][..], RoomOf(strides, sizes, j), slot[..], hdr.planes[j])
    {
      var src := hdr.planes[i];
      assert PlaneFits(src, slotBytes as int);
      var done := UnpackPlane(src, slot, slotBytes, frame[i], strides[i]);
      if !done {
        return None;
      }
    }
    return Some(Times(hdr.startUs, hdr.endUs));
  }

  // The body of the loop over the planes.
  method UnpackPlane(src: Plane, slot: array<Byte>, slotBytes: Int64, dst: array<Byte>,
      dstStride32: Int32) returns (ok: bool)
    requires PlaneFits(src, slotBytes as int) && slot.Length == slotBytes as int && dst != slot && dst.Length <= INT_MAX
    modifies dst
    ensures ok <==> RowsFit(Room(dstStride32 as int, dst.Length), src)
    ensures ok ==> PlaneCopied(dst[..], Room(dstStride32 as int, dst.Length), slot[..], src)
  {
    ghost var to := Room(dstStride32 as int, dst.Length);
    var dstStride, stride := dstStride32 as Int64, src.stride as Int64;
    if dstStride <= 0 {
      return false;
    }
    var rows := dst.Length as Int64 / dstStride;
    var rowBytes := if dstStride <= stride then dstStride else stride;
    assert rows as int == RowsOf(to) && rowBytes as int == RowBytes(to, src);
    if rows <= 0 {
      return false;
    }
    CheckFits64(to, src);
    if (rows - 1) * stride + rowBytes > src.bytes {
      return false;
    }
    var r: Int64 := 0;
    while r < rows
      invariant 0 <= r <= rows
      invariant forall q :: 0 <= q < r as int ==> RowCopied(dst[..], to, slot[..], src, q)
    {
      RowsInside(to, src, slotBytes as int, r as int);
      CopyRow(dst, to, slot, src, r, dstStride, stride, rowBytes);
      r := r + 1;
    }
    return true;
  }

  // std::memcpy of one row.
  method CopyRow(dst: array<Byte>, ghost to: Room, slot: array<Byte>, src: Plane,
                 r: Int64, dstStride: Int64, stride: Int64, rowBytes: Int64)
    requires dst != slot && to.size == dst.Length <= INT_MAX && PlaneFits(src, slot.Length) && RowsFit(to, src)
    requires dstStride as int == to.stride && stride as int == src.stride as int && rowBytes as int == RowBytes(to, src)
    requires 0 <= r as int < RowsOf(to)
    requires slot.Length <= 0x7FFF_FFFF_FFFF_FFFF
    modifies dst
    ensures RowCopied(dst[..], to, slot[..], src, r as int)
    ensures forall q :: 0 <= q < r as int && old(RowCopied(dst[..], to, slot[..], src, q)) ==>
        RowCopied(dst[..], to, slot[..], src, q)
  {
    RowsInside(to, src, slot.Length, r as int);
    var at, from := r * dstStride, src.offset + r * stride;
    ghost var before := dst[..];
    var row := slot[from..from as int + rowBytes as int];
    CopyIn(dst, at as int, row);
    RowLands(before, dst[..], at as int, row);
    hide RowsFit, PlaneFits, RowsOf;
    forall q | 0 <= q < r as int && RowCopied(before, to, slot[..], src, q)
      ensures RowCopied(dst[..], to, slot[..], src, q)
    {
      Products(q, r as int, to.stride);
      CopyElsewhere(before, dst[..], at as int, row, q * to.stride, |row|);
    }
  }

  lemma RowLands(before: Bytes, after: Bytes, at: nat, row: Bytes)
    requires at + |row| <= |before| && after == before[..at] + row + before[at + |row|..]
    ensures |after| == |before| && after[at..at + |row|] == row
  {
  }
}
