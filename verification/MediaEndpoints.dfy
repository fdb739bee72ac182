// The two objects that hold the protocol's state, one in each process. Each
// method is proved to take the step the transition systems describe.
// Source: src/ipc/mediahost.cpp, src/bridges/isolatedmediaplayer.cpp.
module MediaEndpoints {
  import opened Common
  import P = MediaPipeline
  import G = FrameRing
  import F = MediaFeedSpec
  import R = RemoteSourceSpec
  import opened RemoteSourceObject
  import opened MediaFeedObject

  // The media child: owns the device the decoder reads, and fills the ring.
  class MediaHost {
    var source: RemoteSource?
    var sourceGen: int
    var ringMapped: bool
    var slotBytes: int
    var generation: int
    var ringAsked: int
    const busy: array<bool>
    var sent: seq<G.ToUi>

    ghost predicate Valid()
      reads this
    {
      busy.Length == G.SLOTS
    }

    // The read path's view of this object.
    ghost function Child(): P.Child
      reads this, source
    {
      P.Child(sourceGen, if source == null then None else Some(source.State()))
    }

    // The frame path's view of it.
    ghost function Ring(): G.Host
      reads this, busy
    {
      G.Host(ringMapped, slotBytes, generation, ringAsked, busy[..])
    }

    constructor ()
      ensures Valid() && fresh(busy) && Child() == P.INIT.child && Ring() == G.FRESH_HOST && sent == []
    {
      source, sourceGen, ringMapped, slotBytes, generation, ringAsked := null, 0, false, 0, 0, 0;
      busy := new bool[3](_ => false);
      sent := [];
    }

    // Readers asleep in the device are woken, and fail, before it is let go.
    method CloseSource()
      modifies this`source, source
      ensures source == null
      ensures old(source) != null ==> old(source).State() == R.Abort(old(source.State()))
    {
      if source == null {
        return;
      }
      var former := source;
      former.Abort();
      source := null;
    }

    method OpenSource(gen: int, size: int)
      requires Valid()
      modifies this`source, this`sourceGen, source
      ensures Valid() && Child() == P.ChildTakes(old(Child()), P.Open(gen, size))
      ensures source == null || fresh(source)
      ensures old(source) != null ==> old(source).State() == R.Abort(old(source.State()))
    {
      CloseSource();
      if size <= 0 {
        return;
      }
      sourceGen := gen;
      source := new RemoteSource(size);
    }

    // dispatch, for the messages of the read path.
    method TakesAnswer(m: P.ToChild)
      requires Valid()
      modifies this`source, this`sourceGen, source
      ensures Valid() && Child() == P.ChildTakes(old(Child()), m)
    {
      match m
      case Open(gen, size) =>
        OpenSource(gen, size);
      case Data(gen, id, offset, bytes) =>
        if gen == sourceGen && source != null {
          source.Deliver(id, offset, bytes);
        }
      case DataError(gen, id) =>
        if gen == sourceGen && source != null {
          source.Fail(id);
        }
    }

    // attachRing; `maps` says whether the shared segment could be mapped.
    method AttachRing(gen: int, bytes: int, maps: bool)
      requires Valid()
      modifies this`ringMapped, this`slotBytes, this`generation, this`sent, busy
      ensures Valid() && Ring() == G.HostTakes(old(Ring()), G.Ring(gen, bytes), maps).host
      ensures sent == old(sent) + G.HostTakes(old(Ring()), G.Ring(gen, bytes), maps).sent
    {
      if !maps || bytes <= 0 {
        return;
      }
      ringMapped := true;
      slotBytes := bytes;
      generation := gen;
      forall i | 0 <= i < busy.Length {
        busy[i] := false;
      }
      sent := sent + [G.RingReady(gen)];
    }

    method TakesRelease(gen: int, slot: int)
      requires Valid()
      modifies busy
      ensures Valid() && Ring() == G.HostTakes(old(Ring()), G.Release(gen, slot), true).host
    {
      if gen == generation && slot >= 0 && slot < G.SLOTS {
        busy[slot] := false;
      }
    }

    // onFrame for a readable frame that packs into `need` bytes. Returns the
    // slot it was written to, or -1.
    method OnFrame(need: int, stamp: int, packs: bool) returns (written: int)
      requires Valid()
      modifies this`ringAsked, this`sent, busy
      ensures Valid() && Ring() == G.OnFrame(old(Ring()), need, stamp, packs).host
      ensures sent == old(sent) + G.OnFrame(old(Ring()), need, stamp, packs).sent
      ensures G.OnFrame(old(Ring()), need, stamp, packs).wrote == if written < 0 then None else Some(written)
    {
      if !ringMapped || need > slotBytes {
        if need > ringAsked {
          ringAsked := need;
          sent := sent + [G.NeedRing(need)];
        }
        return -1;
      }
      var slot := -1;
      var i := 0;
      while i < G.SLOTS && slot < 0
        invariant 0 <= i <= G.SLOTS
        invariant slot < 0 ==> forall k :: 0 <= k < i ==> busy[k]
        invariant slot >= 0 ==> slot == i - 1 && !busy[slot] && forall k :: 0 <= k < slot ==> busy[k]
      {
        if !busy[i] {
          slot := i;
        }
        i := i + 1;
      }
      if slot < 0 {
        return -1;
      }
      if !packs {
        return -1;
      }
      busy[slot] := true;
      sent := sent + [G.Frame(generation, slot, stamp)];
      return slot;
    }
  }

  // The player's side, in the UI process.
  class IsolatedMediaPlayer {
    var feed: MediaFeed?
    var sourceGen: int
    var ringMapped: bool
    var generation: int
    var slotBytes: int
    var sent: seq<P.ToChild>       // data, refusals and opens, in order
    var ringSent: seq<G.ToChild>   // rings and releases, in order
    var shown: seq<G.Shown>

    ghost function Reading(): P.Player
      reads this, feed
    {
      P.Player(sourceGen, if feed == null then None else Some(feed.State()))
    }

    ghost function Ring(): G.Player
      reads this
    {
      G.Player(ringMapped, slotBytes, generation)
    }

    constructor ()
      ensures Reading() == P.INIT.player && Ring() == G.INIT.player && sent == [] && ringSent == [] && shown == []
    {
      feed, sourceGen, ringMapped, generation, slotBytes := null, 0, false, 0, 0;
      sent, ringSent, shown := [], [], [];
    }

    method StartFeed(local: Option<Bytes>)
      modifies this`feed, this`sourceGen
      ensures Reading() == P.Player(old(sourceGen) + 1, Some(F.Fresh(local)))
      ensures feed != null && fresh(feed) && feed.emitted == []
    {
      sourceGen := sourceGen + 1;
      feed := new MediaFeed(local);
    }

    // The feed's signals since `from` go out as messages, in order.
    method Forward(from: nat)
      requires feed != null && from <= |feed.emitted|
      modifies this`sent
      ensures sent == old(sent) + P.Messages(sourceGen, feed.emitted[from..])
    {
      var answers := feed.emitted[from..];
      var i := 0;
      while i < |answers|
        invariant 0 <= i <= |answers|
        invariant sent == old(sent) + P.Messages(sourceGen, answers)[..i]
      {
        match answers[i] {
          case Data(id, offset, bytes) => sent := sent + [P.Data(sourceGen, id, offset, bytes)];
          case Refused(id) => sent := sent + [P.DataError(sourceGen, id)];
        }
        i := i + 1;
      }
      assert P.Messages(sourceGen, answers)[..|answers|] == P.Messages(sourceGen, answers);
    }

    // onEvent's "read".
    method TakesRead(m: P.ToUi, diskGives: nat)
      modifies this`sent, feed
      ensures Reading() == P.PlayerTakes(old(Reading()), m, diskGives).0
      ensures sent == old(sent) + P.PlayerTakes(old(Reading()), m, diskGives).1
    {
      if m.gen == sourceGen && feed != null {
        var from := |feed.emitted|;
        feed.Request(m.id, m.offset, m.length, diskGives);
        Forward(from);
      }
    }

    // The reply has news.
    method TakesHttpData()
      requires feed != null
      modifies this`sent, feed
      ensures Reading() == P.Player(sourceGen, Some(F.OnHttpData(old(feed.State())).feed))
      ensures sent == old(sent) + P.Messages(sourceGen, F.OnHttpData(old(feed.State())).answers)
    {
      var from := |feed.emitted|;
      feed.OnHttpData();
      Forward(from);
    }

    method ShareRing(bytes: int, creates: bool)
      modifies this`ringMapped, this`slotBytes, this`generation, this`ringSent
      ensures Ring() == G.ShareRing(old(Ring()), bytes, creates).0
      ensures ringSent == old(ringSent) + G.ShareRing(old(Ring()), bytes, creates).1
    {
      if bytes <= slotBytes || bytes <= 0 || bytes > G.MAX_SLOT_BYTES {
        return;
      }
      var size := bytes + bytes / 4;
      var gen := generation + 1;
      if !creates {
        return;
      }
      ringMapped := true;
      slotBytes := size;
      generation := gen;
      ringSent := ringSent + [G.Ring(gen, size)];
    }

    // showFrame: copy out while the slot is ours, then give it back.
    method ShowFrame(gen: int, slot: int, stamp: int, memory: G.Memory)
      modifies this`ringSent, this`shown
      ensures shown == old(shown) + G.Copy(Ring(), memory, G.Frame(gen, slot, stamp))
      ensures ringSent == old(ringSent) + G.PlayerTakes(Ring(), G.Frame(gen, slot, stamp), true).1
    {
      var usable := ringMapped && gen == generation && slot >= 0 && slot < G.SLOTS;
      if usable {
        shown := shown + [G.Shown(stamp, G.Read(memory, generation, slot * slotBytes))];
      }
      ringSent := ringSent + [G.Release(gen, slot)];
    }

    // teardown: the feed and the ring go, the generations stay.
    method Teardown()
      modifies this`feed, this`ringMapped, this`slotBytes
      ensures Reading() == P.Player(old(sourceGen), None) && Ring() == G.Player(false, 0, old(generation))
    {
      feed := null;
      ringMapped := false;
      slotBytes := 0;
    }
  }
}
