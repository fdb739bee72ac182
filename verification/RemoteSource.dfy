// The decoder's device: reads at any position, answered from a cache of chunks,
// else asked for, with reader threads asleep until the answer comes.
// Source: src/ipc/remotesource.cpp, src/ipc/remotesource.h.
module RemoteSourceSpec {
  import opened Common

  const READ_AHEAD := 1024 * 1024
  const CACHE_BYTES := 32 * 1024 * 1024

  datatype Chunk = Chunk(offset: int, bytes: Bytes)

  datatype Req = Req(id: int, offset: int, length: int)

  // `waiting` holds the readers asleep on the condition variable and the byte
  // each one needs. Waking takes a reader out of it; a reader that is not in
  // it runs, and may take the lock for another turn of readData's loop.
  datatype Device = Device(size: int, cache: seq<Chunk>, cacheBytes: int, pending: seq<Req>,
                           nextId: int, aborted: bool, failed: bool, waiting: map<int, int>)

  // How one turn of readData's loop ends.
  datatype Turn = Closed | Got(bytes: Bytes) | Asked(req: Req) | Sleeps

  datatype Step = Step(device: Device, turn: Turn)

  function Fresh(size: int): Device {
    Device(Max(0, size), [], 0, [], 1, false, false, map[])
  }

  function WakeAll(d: Device): Device { d.(waiting := map[]) }

  predicate Holds(c: Chunk, at: int) { c.offset <= at < c.offset + |c.bytes| }

  function CopyCached(cache: seq<Chunk>, at: int, maxSize: int): Option<Bytes>
    requires 0 < maxSize
  {
    if cache == [] then None
    else if Holds(cache[0], at) then
      var from := at - cache[0].offset;
      Some(cache[0].bytes[from..from + Min(maxSize, |cache[0].bytes| - from)])
    else CopyCached(cache[1..], at, maxSize)
  }

  predicate Cached(cache: seq<Chunk>, at: int) { exists c :: c in cache && Holds(c, at) }

  predicate Covers(r: Req, at: int) { r.offset <= at < r.offset + r.length }

  predicate PendingCovers(pending: seq<Req>, at: int) { exists r :: r in pending && Covers(r, at) }

  // The qint32 cast of a 64-bit length.
  function Int32(n: int): (r: int)
    ensures -0x8000_0000 <= r < 0x8000_0000
    ensures -0x8000_0000 <= n < 0x8000_0000 ==> r == n
    ensures n >= 0 ==> r <= n
  {
    var m := n % 0x1_0000_0000;
    if m < 0x8000_0000 then m else m - 0x1_0000_0000
  }

  function AskFor(d: Device, at: int, maxSize: int): Req {
    Req(d.nextId, at, Int32(Min(Max(maxSize, READ_AHEAD), d.size - at)))
  }

  // One turn under the lock: give what is cached, or ask, or sleep.
  function Attempt(d: Device, reader: int, at: int, maxSize: int): Step {
    if maxSize <= 0 || at >= d.size then Step(d, Got([]))
    else if d.aborted || d.failed then Step(d, Closed)
    else
      var n := CopyCached(d.cache, at, Min(maxSize, d.size - at));
      if n.Some? then Step(d, Got(n.value))
      else if !PendingCovers(d.pending, at) then
        var r := AskFor(d, at, maxSize);
        Step(d.(pending := d.pending + [r], nextId := d.nextId + 1), Asked(r))
      else Step(d.(waiting := d.waiting[reader := at]), Sleeps)
  }

  // The wait's deadline passes: the read fails, the request stays out.
  function TimesOut(d: Device, reader: int): Device { d.(waiting := d.waiting - {reader}) }

  function Find(pending: seq<Req>, id: int): (i: nat)
    ensures i <= |pending|
    ensures i < |pending| ==> pending[i].id == id
    ensures forall k :: 0 <= k < i ==> pending[k].id != id
  {
    if pending == [] || pending[0].id == id then 0 else 1 + Find(pending[1..], id)
  }

  function SumBytes(cache: seq<Chunk>): nat {
    if cache == [] then 0 else |cache[0].bytes| + SumBytes(cache[1..])
  }

  function Evict(d: Device): Device
    decreases |d.cache|
  {
    if d.cacheBytes > CACHE_BYTES && |d.cache| > 1
    then Evict(d.(cacheBytes := d.cacheBytes - |d.cache[0].bytes|, cache := d.cache[1..]))
    else d
  }

  // An answer counts when its id is outstanding, its offset is that request's,
  // and its bytes are some, no more than requested, and inside the file.
  predicate Takes(d: Device, id: int, offset: int, bytes: Bytes) {
    var i := Find(d.pending, id);
    && i < |d.pending| && d.pending[i].offset == offset && bytes != []
    && |bytes| <= d.pending[i].length && offset + |bytes| <= d.size
  }

  function Deliver(d: Device, id: int, offset: int, bytes: Bytes): Device {
    if !Takes(d, id, offset, bytes) then d
    else
      var i := Find(d.pending, id);
      WakeAll(Evict(d.(pending := RemoveAt(d.pending, i), cache := d.cache + [Chunk(offset, bytes)],
                       cacheBytes := d.cacheBytes + |bytes|)))
  }

  function Fail(d: Device, id: int): Device {
    var i := Find(d.pending, id);
    if i == |d.pending| then d
    else WakeAll(d.(pending := RemoveAt(d.pending, i), failed := true))
  }

  function Abort(d: Device): Device { WakeAll(d.(aborted := true)) }

  // ---- Invariants ----

  predicate ReqOk(r: Req, size: int) { 0 <= r.offset < size && r.length <= size - r.offset }

  predicate ChunkOk(c: Chunk, file: Bytes) { c.bytes != [] && IsSlice(file, c.offset, c.bytes) }

  predicate DistinctIds(pending: seq<Req>) {
    forall i, j :: 0 <= i < j < |pending| ==> pending[i].id != pending[j].id
  }

  predicate DeviceOk(d: Device, file: Bytes) {
    && d.size == |file|
    && d.cacheBytes == SumBytes(d.cache)
    && (d.cacheBytes <= CACHE_BYTES || |d.cache| <= 1)
    && (forall c :: c in d.cache ==> ChunkOk(c, file))
    && (forall r :: r in d.pending ==> ReqOk(r, d.size) && r.id < d.nextId)
    && DistinctIds(d.pending)
  }

  // No lost wake-up: whoever sleeps is still owed an answer for its byte, the
  // byte has not arrived yet, and the device is still open.
  predicate NoLostWakeUp(d: Device) {
    forall reader :: reader in d.waiting ==>
      !d.aborted && !d.failed && PendingCovers(d.pending, d.waiting[reader]) && !Cached(d.cache, d.waiting[reader])
  }

  // ---- Reads ----

  lemma {:induction false} CopyCachedFinds(cache: seq<Chunk>, at: int, maxSize: int)
    requires 0 < maxSize
    ensures CopyCached(cache, at, maxSize).Some? <==> Cached(cache, at)
  {
    if cache != [] && !Holds(cache[0], at) {
      CopyCachedFinds(cache[1..], at, maxSize);
      if Cached(cache, at) {
        var c :| c in cache && Holds(c, at);
        assert c in cache[1..];
      }
    }
  }

  lemma {:induction false} CopyCachedExact(cache: seq<Chunk>, at: int, maxSize: int, file: Bytes)
    requires 0 < maxSize && forall c :: c in cache ==> ChunkOk(c, file)
    ensures var n := CopyCached(cache, at, maxSize);
            n.Some? ==> 0 < |n.value| <= maxSize && IsSlice(file, at, n.value)
  {
    if cache != [] {
      var c := cache[0];
      if Holds(c, at) {
        var from := at - c.offset;
        assert ChunkOk(c, file);
        SliceOfSlice(file, c.offset, c.bytes, from, from + Min(maxSize, |c.bytes| - from));
      } else {
        CopyCachedExact(cache[1..], at, maxSize, file);
      }
    }
  }

  // Whatever a read returns before the end of the file is the file's own
  // bytes at the position read, at least one and at most what was asked.
  lemma ReadExact(d: Device, reader: int, at: int, maxSize: int, file: Bytes)
    requires DeviceOk(d, file) && 0 <= at
    ensures var turn := Attempt(d, reader, at, maxSize).turn;
            turn.Got? ==> |turn.bytes| <= Max(0, maxSize)
                          && (turn.bytes == [] <==> maxSize <= 0 || at >= |file|)
                          && (turn.bytes != [] ==> IsSlice(file, at, turn.bytes))
  {
    if maxSize > 0 && at < d.size {
      CopyCachedExact(d.cache, at, Min(maxSize, d.size - at), file);
    }
  }

  lemma AttemptKeeps(d: Device, reader: int, at: int, maxSize: int, file: Bytes)
    requires DeviceOk(d, file) && 0 <= at
    ensures DeviceOk(Attempt(d, reader, at, maxSize).device, file)
  {
  }

  lemma AttemptWakeUp(d: Device, reader: int, at: int, maxSize: int)
    requires NoLostWakeUp(d)
    ensures NoLostWakeUp(Attempt(d, reader, at, maxSize).device)
  {
    if maxSize > 0 && at < d.size {
      CopyCachedFinds(d.cache, at, Min(maxSize, d.size - at));
      var e := Attempt(d, reader, at, maxSize).device;
      forall r | r in e.waiting
        ensures !e.aborted && !e.failed && PendingCovers(e.pending, e.waiting[r]) && !Cached(e.cache, e.waiting[r])
      {
        if r in d.waiting && e.waiting[r] == d.waiting[r] {
          var q :| q in d.pending && Covers(q, d.waiting[r]);
          assert q in e.pending;
        }
      }
    }
  }

  // The question a read puts covers the byte it needs, unless the wanted
  // length overflows the 32-bit field to nothing; and its length is within 4 MiB
  // exactly when no more is wanted or left. MediaRefusal says what follows.
  lemma AskCovers(d: Device, at: int, maxSize: int)
    requires 0 <= at < d.size && 0 < maxSize
    ensures var want := Min(Max(maxSize, READ_AHEAD), d.size - at); var r := AskFor(d, at, maxSize);
            && (Covers(r, at) <==> Int32(want) > 0)
            && (want < 0x8000_0000 ==> Covers(r, at) && r.length == want)
            && (want < 0x8000_0000 ==>
                  (r.length <= 4 * 1024 * 1024 <==> maxSize <= 4 * 1024 * 1024 || d.size - at <= 4 * 1024 * 1024))
  {
  }

  // ---- Answers ----

  lemma {:induction false} EvictKeeps(d: Device, file: Bytes)
    requires d.cacheBytes == SumBytes(d.cache) && forall c :: c in d.cache ==> ChunkOk(c, file)
    ensures var e := Evict(d);
            && e.cacheBytes == SumBytes(e.cache) && (e.cacheBytes <= CACHE_BYTES || |e.cache| <= 1)
            && (forall c :: c in e.cache ==> ChunkOk(c, file))
            && e == d.(cache := e.cache, cacheBytes := e.cacheBytes)
            && (d.cache != [] ==> e.cache != [] && e.cache[|e.cache| - 1] == d.cache[|d.cache| - 1])
    decreases |d.cache|
  {
    if d.cacheBytes > CACHE_BYTES && |d.cache| > 1 {
      EvictKeeps(d.(cacheBytes := d.cacheBytes - |d.cache[0].bytes|, cache := d.cache[1..]), file);
    }
  }

  lemma {:induction false} EvictOnlyCache(d: Device)
    ensures Evict(d) == d.(cache := Evict(d).cache, cacheBytes := Evict(d).cacheBytes)
    decreases |d.cache|
  {
    if d.cacheBytes > CACHE_BYTES && |d.cache| > 1 {
      EvictOnlyCache(d.(cacheBytes := d.cacheBytes - |d.cache[0].bytes|, cache := d.cache[1..]));
    }
  }

  lemma {:induction false} SumBytesAppend(cache: seq<Chunk>, c: Chunk)
    ensures SumBytes(cache + [c]) == SumBytes(cache) + |c.bytes|
  {
    if cache != [] {
      assert (cache + [c])[1..] == cache[1..] + [c];
      SumBytesAppend(cache[1..], c);
    } else {
      assert cache + [c] == [c];
    }
  }

  lemma RemoveKeepsReqs(pending: seq<Req>, i: nat)
    requires i < |pending| && DistinctIds(pending)
    ensures DistinctIds(RemoveAt(pending, i))
    ensures forall r :: r in RemoveAt(pending, i) <==> r in pending && r.id != pending[i].id
  {
    var rest := RemoveAt(pending, i);
    forall r | r in pending && r.id != pending[i].id ensures r in rest {
      var k :| 0 <= k < |pending| && pending[k] == r;
      assert rest[if k < i then k else k - 1] == r;
    }
  }

  // A delivered answer frees exactly its own request and leaves its bytes in
  // the cache, whatever eviction does.
  lemma DeliverKeeps(d: Device, id: int, offset: int, bytes: Bytes, file: Bytes)
    requires DeviceOk(d, file)
    requires Takes(d, id, offset, bytes) ==> IsSlice(file, offset, bytes)
    ensures var e := Deliver(d, id, offset, bytes);
            && DeviceOk(e, file) && e.nextId == d.nextId
            && (Takes(d, id, offset, bytes) ==>
                  Cached(e.cache, offset) && e.pending == RemoveAt(d.pending, Find(d.pending, id)))
            && (!Takes(d, id, offset, bytes) ==> e == d)
  {
    if Takes(d, id, offset, bytes) {
      var i := Find(d.pending, id);
      var f := d.(pending := RemoveAt(d.pending, i), cache := d.cache + [Chunk(offset, bytes)],
                  cacheBytes := d.cacheBytes + |bytes|);
      SumBytesAppend(d.cache, Chunk(offset, bytes));
      EvictKeeps(f, file);
      RemoveKeepsReqs(d.pending, i);
      var e := Evict(f);
      assert Holds(e.cache[|e.cache| - 1], offset);
    }
  }

  lemma FailKeeps(d: Device, id: int, file: Bytes)
    requires DeviceOk(d, file)
    ensures DeviceOk(Fail(d, id), file) && Fail(d, id).nextId == d.nextId
  {
    var i := Find(d.pending, id);
    if i < |d.pending| {
      RemoveKeepsReqs(d.pending, i);
    }
  }

  // ---- Every interleaving ----

  // What can happen to a device: a turn of any reader that is awake, a
  // deadline, or one of the main thread's calls, with any arguments at all.
  datatype Event =
    | Turns(reader: int, at: nat, maxSize: int)
    | Deadline(reader: int)
    | Delivers(id: int, offset: int, bytes: Bytes)
    | Fails(id: int)
    | Aborts

  function Happens(d: Device, e: Event): Device {
    match e
    case Turns(reader, at, maxSize) => if reader in d.waiting then d else Attempt(d, reader, at, maxSize).device
    case Deadline(reader) => TimesOut(d, reader)
    case Delivers(id, offset, bytes) => Deliver(d, id, offset, bytes)
    case Fails(id) => Fail(d, id)
    case Aborts => Abort(d)
  }

  function Runs(d: Device, es: seq<Event>): Device
    decreases |es|
  {
    if es == [] then d else Runs(Happens(d, es[0]), es[1..])
  }

  lemma HappensKeepsWakeUp(d: Device, e: Event)
    requires NoLostWakeUp(d)
    ensures NoLostWakeUp(Happens(d, e))
  {
    if e.Turns? && e.reader !in d.waiting {
      AttemptWakeUp(d, e.reader, e.at, e.maxSize);
    }
  }

  lemma {:induction false} RunsKeepWakeUp(d: Device, es: seq<Event>)
    requires NoLostWakeUp(d)
    ensures NoLostWakeUp(Runs(d, es))
    decreases |es|
  {
    if es != [] {
      HappensKeepsWakeUp(d, es[0]);
      RunsKeepWakeUp(Happens(d, es[0]), es[1..]);
    }
  }

  // From a fresh device, in every interleaving of readers, answers (short,
  // late, duplicate or forged), failures and aborts, nobody sleeps in vain.
  lemma NoReaderIsForgotten(size: int, es: seq<Event>)
    ensures NoLostWakeUp(Runs(Fresh(size), es))
  {
    RunsKeepWakeUp(Fresh(size), es);
  }
}

module RemoteSourceObject {
  import opened Common
  import opened RemoteSourceSpec

  class RemoteSource {
    const size: int
    var cache: seq<Chunk>
    var cacheBytes: int
    var pending: seq<Req>
    var nextId: int
    var aborted: bool
    var failed: bool
    var arrived: map<int, int>   // the condition variable: who sleeps on it, for which byte

    ghost function State(): Device
      reads this
    {
      Device(size, cache, cacheBytes, pending, nextId, aborted, failed, arrived)
    }

    constructor (sz: int)
      ensures State() == Fresh(sz)
    {
      size := Max(0, sz);
      cache, cacheBytes, pending, nextId, aborted, failed, arrived := [], 0, [], 1, false, false, map[];
    }

    method CopyCachedAt(at: int, maxSize: int) returns (n: Option<Bytes>)
      requires 0 < maxSize
      ensures n == CopyCached(cache, at, maxSize)
    {
      var i := 0;
      while i < |cache|
        invariant 0 <= i <= |cache|
        invariant CopyCached(cache, at, maxSize) == CopyCached(cache[i..], at, maxSize)
      {
        var c := cache[i];
        var end := c.offset + |c.bytes|;
        if at >= c.offset && at < end {
          var k := Min(maxSize, end - at);
          return Some(c.bytes[at - c.offset..at - c.offset + k]);
        }
        i := i + 1;
      }
      n := None;
    }

    method IsCovered(at: int) returns (yes: bool)
      ensures yes == PendingCovers(pending, at)
    {
      var i := 0;
      while i < |pending|
        invariant 0 <= i <= |pending|
        invariant forall k :: 0 <= k < i ==> !Covers(pending[k], at)
      {
        if at >= pending[i].offset && at < pending[i].offset + pending[i].length {
          assert pending[i] in pending;
          return true;
        }
        i := i + 1;
      }
      yes := false;
    }

    // One turn of readData's loop, from taking the lock to giving it up.
    method ReadTurn(reader: int, at: int, maxSize: int) returns (turn: Turn)
      modifies this
      ensures turn == Attempt(old(State()), reader, at, maxSize).turn
      ensures State() == Attempt(old(State()), reader, at, maxSize).device
    {
      if maxSize <= 0 || at >= size {
        return Got([]);
      }
      if aborted || failed {
        return Closed;
      }
      var n := CopyCachedAt(at, Min(maxSize, size - at));
      if n.Some? {
        return Got(n.value);
      }
      var covered := IsCovered(at);
      if !covered {
        var p := Req(nextId, at, Int32(Min(Max(maxSize, READ_AHEAD), size - at)));
        nextId := nextId + 1;
        pending := pending + [p];
        return Asked(p);
      }
      arrived := arrived[reader := at];
      turn := Sleeps;
    }

    method FindId(id: int) returns (i: nat)
      ensures i == Find(pending, id)
    {
      i := 0;
      while i < |pending| && pending[i].id != id
        invariant 0 <= i <= |pending|
        invariant Find(pending, id) == i + Find(pending[i..], id)
      {
        i := i + 1;
      }
    }

    method Deliver(id: int, offset: int, bytes: Bytes)
      modifies this
      ensures State() == RemoteSourceSpec.Deliver(old(State()), id, offset, bytes)
    {
      var it := FindId(id);
      if it == |pending| || pending[it].offset != offset || bytes == []
         || |bytes| > pending[it].length || offset + |bytes| > size {
        return;
      }
      pending := RemoveAt(pending, it);
      cache := cache + [Chunk(offset, bytes)];
      cacheBytes := cacheBytes + |bytes|;
      ghost var evicted := Evict(State());
      while cacheBytes > CACHE_BYTES && |cache| > 1
        invariant Evict(State()) == evicted
        decreases |cache|
      {
        cacheBytes := cacheBytes - |cache[0].bytes|;
        cache := cache[1..];
      }
      arrived := map[];
    }

    method Fail(id: int)
      modifies this
      ensures State() == RemoteSourceSpec.Fail(old(State()), id)
    {
      var it := FindId(id);
      if it == |pending| {
        return;
      }
      pending := RemoveAt(pending, it);
      failed := true;
      arrived := map[];
    }

    method Abort()
      modifies this
      ensures State() == RemoteSourceSpec.Abort(old(State()))
    {
      aborted := true;
      arrived := map[];
    }
  }
}
