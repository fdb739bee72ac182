// What a turn of a read gives, which chunks stay in the cache and who is woken,
// said outright, for the device alone and over runs of both processes.
// Source: src/ipc/remotesource.cpp.
module MediaDevice {
  import opened Common
  import opened RemoteSourceSpec
  import P = MediaPipeline

  const MIB := 1024 * 1024

  function ChunkEnd(c: Chunk): int { c.offset + |c.bytes| }

  predicate Has(c: Chunk, at: int) { c.offset <= at < ChunkEnd(c) }

  // The k-th chunk is the first that has the byte.
  predicate FirstWith(cache: seq<Chunk>, at: int, k: nat) {
    k < |cache| && Has(cache[k], at) && forall j :: 0 <= j < k ==> !Has(cache[j], at)
  }

  predicate NoneWith(cache: seq<Chunk>, at: int) { forall j :: 0 <= j < |cache| ==> !Has(cache[j], at) }

  // Some request that is out will bring the byte.
  predicate Coming(pending: seq<Req>, at: int) {
    exists i :: 0 <= i < |pending| && pending[i].offset <= at < pending[i].offset + pending[i].length
  }

  lemma {:induction false} CopiedFrom(cache: seq<Chunk>, at: int, maxSize: int, k: nat)
    requires 0 < maxSize && FirstWith(cache, at, k)
    ensures var c := cache[k]; var from := at - c.offset;
            CopyCached(cache, at, maxSize) == Some(c.bytes[from..from + Min(maxSize, ChunkEnd(c) - at)])
    decreases |cache|
  {
    if k > 0 {
      assert !Has(cache[0], at);
      assert forall j :: 0 <= j < |cache[1..]| ==> cache[1..][j] == cache[j + 1];
      CopiedFrom(cache[1..], at, maxSize, k - 1);
    }
  }

  lemma NotCopied(cache: seq<Chunk>, at: int, maxSize: int)
    requires 0 < maxSize && NoneWith(cache, at)
    ensures CopyCached(cache, at, maxSize).None?
  {
    CopyCachedFinds(cache, at, maxSize);
    assert forall c :: c in cache ==> !Has(c, at);
  }

  lemma ComingCovers(pending: seq<Req>, at: int)
    ensures Coming(pending, at) <==> PendingCovers(pending, at)
  {
    if Coming(pending, at) {
      var i :| 0 <= i < |pending| && pending[i].offset <= at < pending[i].offset + pending[i].length;
      assert pending[i] in pending && Covers(pending[i], at);
    }
  }

  // Before the end of an open device: a read gets all it asked for that the first
  // chunk with its byte has.
  lemma GotExactly(d: Device, reader: int, at: int, maxSize: int, file: Bytes, k: nat)
    requires DeviceOk(d, file) && 0 <= at < d.size && 0 < maxSize && !d.aborted && !d.failed && FirstWith(d.cache, at, k)
    ensures var c := d.cache[k]; var from := at - c.offset;
            Attempt(d, reader, at, maxSize) == Step(d, Got(c.bytes[from..from + Min(maxSize, ChunkEnd(c) - at)]))
  {
    var c := d.cache[k];
    assert c in d.cache && ChunkOk(c, file);
    CopiedFrom(d.cache, at, Min(maxSize, d.size - at), k);
  }

  // With the byte in no chunk: if no request will bring it, one is put, for as
  // much as was asked for or 1 MiB, whichever is more, to the end of the file at
  // most, its length cut to 32 bits; if one will, the reader sleeps.
  lemma AsksOrSleeps(d: Device, reader: int, at: int, maxSize: int)
    requires 0 <= at < d.size && 0 < maxSize && !d.aborted && !d.failed && NoneWith(d.cache, at)
    ensures var r := Req(d.nextId, at, Int32(Min(Max(maxSize, MIB), d.size - at)));
            Attempt(d, reader, at, maxSize)
            == if Coming(d.pending, at) then Step(d.(waiting := d.waiting[reader := at]), Sleeps)
               else Step(d.(pending := d.pending + [r], nextId := d.nextId + 1), Asked(r))
  {
    NotCopied(d.cache, at, Min(maxSize, d.size - at));
    ComingCovers(d.pending, at);
  }

  lemma EndsOrCloses(d: Device, reader: int, at: int, maxSize: int)
    ensures maxSize <= 0 || at >= d.size ==> Attempt(d, reader, at, maxSize) == Step(d, Got([]))
    ensures 0 < maxSize && at < d.size && (d.aborted || d.failed) ==> Attempt(d, reader, at, maxSize) == Step(d, Closed)
  {
  }

  // ---- The cache ----

  function Size(cache: seq<Chunk>): nat { if cache == [] then 0 else |cache[0].bytes| + Size(cache[1..]) }

  // The chunks that stay are the latest, as many as 32 MiB hold, but at least one.
  predicate Stays(cache: seq<Chunk>, k: nat) {
    && k < |cache| && (Size(cache[k..]) <= 32 * MIB || k == |cache| - 1)
    && forall j :: 0 <= j < k ==> Size(cache[j..]) > 32 * MIB
  }

  lemma {:induction false} Sizes(cache: seq<Chunk>)
    ensures SumBytes(cache) == Size(cache)
  {
    if cache != [] {
      Sizes(cache[1..]);
    }
  }

  lemma {:induction false} EvictedExactly(d: Device, k: nat)
    requires d.cacheBytes == Size(d.cache) && Stays(d.cache, k)
    ensures Evict(d) == d.(cache := d.cache[k..], cacheBytes := Size(d.cache[k..]))
    decreases k
  {
    EvictOnce(d);
    WholeSize(d.cache);
    hide Evict;
    if k > 0 {
      StaysLater(d.cache, k);
      assert Size(d.cache[0..]) > 32 * MIB;
      assert d.cache[1..][k - 1..] == d.cache[k..];
      hide Stays;
      EvictedExactly(d.(cacheBytes := d.cacheBytes - |d.cache[0].bytes|, cache := d.cache[1..]), k - 1);
    }
  }

  lemma EvictOnce(d: Device)
    ensures Evict(d) == if d.cacheBytes > 32 * MIB && |d.cache| > 1
                        then Evict(d.(cacheBytes := d.cacheBytes - |d.cache[0].bytes|, cache := d.cache[1..])) else d
  {
  }

  lemma WholeSize(cache: seq<Chunk>)
    ensures cache[0..] == cache && Size(cache[0..]) == Size(cache)
    ensures cache != [] ==> Size(cache) == |cache[0].bytes| + Size(cache[1..])
  {
    assert cache[0..] == cache;
  }

  lemma StaysLater(cache: seq<Chunk>, k: nat)
    requires k > 0 && Stays(cache, k)
    ensures Stays(cache[1..], k - 1)
  {
    hide Size;
    assert forall j :: 0 <= j < |cache| ==> cache[1..][j..] == cache[j + 1..];
  }

  // ---- Answers, failures and deadlines ----

  // An answer is taken if it is one asked for, from its offset on, some bytes, no
  // more than asked and inside the file.
  predicate Expected(d: Device, i: nat, id: int, offset: int, bytes: Bytes) {
    && i < |d.pending| && d.pending[i].id == id && (forall j :: 0 <= j < i ==> d.pending[j].id != id)
    && offset == d.pending[i].offset && 0 < |bytes| <= d.pending[i].length && offset + |bytes| <= d.size
  }

  // Its request goes, its bytes come last in the cache, and everyone is woken.
  lemma Delivered(d: Device, i: nat, id: int, offset: int, bytes: Bytes, k: nat)
    requires d.cacheBytes == Size(d.cache) && Expected(d, i, id, offset, bytes)
    requires Stays(d.cache + [Chunk(offset, bytes)], k)
    ensures var cache := (d.cache + [Chunk(offset, bytes)])[k..];
            Deliver(d, id, offset, bytes)
            == d.(pending := d.pending[..i] + d.pending[i + 1..], cache := cache, cacheBytes := Size(cache), waiting := map[])
  {
    var cache := d.cache + [Chunk(offset, bytes)];
    DeliverTaken(d, i, id, offset, bytes);
    hide Deliver, Evict, Stays, Expected, Size, SumBytes;
    SumBytesAppend(d.cache, Chunk(offset, bytes));
    Sizes(cache);
    Sizes(d.cache);
    EvictedExactly(d.(pending := RemoveAt(d.pending, i), cache := cache, cacheBytes := d.cacheBytes + |bytes|), k);
  }

  lemma DeliverTaken(d: Device, i: nat, id: int, offset: int, bytes: Bytes)
    requires Expected(d, i, id, offset, bytes)
    ensures Deliver(d, id, offset, bytes)
            == WakeAll(Evict(d.(pending := RemoveAt(d.pending, i), cache := d.cache + [Chunk(offset, bytes)],
                                cacheBytes := d.cacheBytes + |bytes|)))
  {
    FoundAt(d.pending, id, i);
    hide Evict, Find;
  }

  lemma NotDelivered(d: Device, id: int, offset: int, bytes: Bytes)
    requires forall i :: 0 <= i < |d.pending| ==> !Expected(d, i, id, offset, bytes)
    ensures Deliver(d, id, offset, bytes) == d
  {
    if Takes(d, id, offset, bytes) {
      assert Expected(d, Find(d.pending, id), id, offset, bytes);
    }
  }

  lemma FoundAt(pending: seq<Req>, id: int, i: nat)
    requires i < |pending| && pending[i].id == id && forall j :: 0 <= j < i ==> pending[j].id != id
    ensures Find(pending, id) == i
  {
  }

  // A failure of a request that is out closes the device; so does an abort. Both
  // wake everyone. A deadline wakes the one reader whose it is.
  lemma FailedOrNot(d: Device, id: int, i: nat)
    requires i <= |d.pending| && (forall j :: 0 <= j < i ==> d.pending[j].id != id)
    requires i < |d.pending| ==> d.pending[i].id == id
    ensures Fail(d, id)
            == if i == |d.pending| then d
               else d.(pending := d.pending[..i] + d.pending[i + 1..], failed := true, waiting := map[])
    ensures Abort(d) == d.(aborted := true, waiting := map[])
  {
    if i < |d.pending| {
      FoundAt(d.pending, id, i);
    }
  }

  lemma DeadlineWakesOne(d: Device, reader: int)
    ensures var e := TimesOut(d, reader);
            && e == d.(waiting := e.waiting) && reader !in e.waiting
            && forall r :: r in d.waiting && r != reader ==> r in e.waiting && e.waiting[r] == d.waiting[r]
  {
  }

  // ---- Over runs ----

  // In every run: a read of a source whose byte is in the cache is logged with
  // all it asked for that the first chunk with the byte has; so one that lies
  // within a single chunk gets everything.
  lemma ReadsGetAll(before: seq<P.Action>, reader: int, at: nat, maxSize: int, k: nat)
    requires var s := P.Run(P.INIT, before);
             && s.child.device.Some? && reader !in s.child.device.value.waiting && 0 < maxSize
             && !s.child.device.value.aborted && !s.child.device.value.failed && FirstWith(s.child.device.value.cache, at, k)
    ensures var s := P.Run(P.INIT, before); var c := s.child.device.value.cache[k];
            var t := P.Act(s, P.Reads(reader, at, maxSize));
            && |t.results| == |s.results| + 1
            && var r := t.results[|s.results|];
               && r.gen == s.child.gen && r.at == at && |r.bytes| == Min(maxSize, ChunkEnd(c) - at)
               && (at + maxSize <= ChunkEnd(c) ==> |r.bytes| == maxSize)
  {
    var s := P.Run(P.INIT, before);
    P.RunSafe(P.INIT, before);
    var d := s.child.device.value;
    var file := s.files[s.child.gen];
    assert d.cache[k] in d.cache && ChunkOk(d.cache[k], file);
    GotExactly(d, reader, at, maxSize, file, k);
    hide P.Run, P.Safe, Attempt;
  }
}
