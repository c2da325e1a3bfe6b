/** The fixed-capacity single-producer/single-consumer ring of GPU frame
    slots (`RingBuffer<SIZE>`). Each slot owns a texture created once by
    `Initialize`; `Push` copies a frame's content into the next write slot,
    `Pop` hands out the oldest valid slot, and a full buffer drops the new
    frame. The atomics of the original are plain fields here. */
module RingBuffers {
  import opened Native

  /** The capacity the pipeline instantiates (`RingBuffer<3>`). */
  const DefaultSize: nat := 3

  datatype Slot = Slot(texture: Texture, timestamp: u64, valid: bool)

  /** What a consumer receives from a slot: its texture and timestamp. */
  datatype Entry = Entry(frame: Texture, timestamp: u64)

  /** The state of a slot after `Initialize` created its texture. */
  const ResetSlot: Slot := Slot(Texture(BlankImage), 0, false)

  /** Position `i` steps after `read` on a ring of `n` positions. */
  function RingPos(read: nat, i: nat, n: nat): (p: nat)
    requires read < n && i <= n
    ensures i < n ==> p < n
  {
    if read + i < n then read + i else read + i - n
  }

  /** On positions below `2 * n`, the original's `% n` is one subtraction. */
  lemma ModBelowTwice(k: int, n: int)
    requires n > 0 && 0 <= k < 2 * n
    ensures k % n == if k < n then k else k - n
  {
    if k >= n {
      assert k == 1 * n + (k - n);
    }
  }

  /** Slot `j` lies in the live window of `count` slots starting at `read`. */
  predicate InWindow(j: nat, read: nat, count: nat, n: nat)
  {
    if j >= read then j - read < count else j + n - read < count
  }

  /** The live window read oldest first, as the consumer will see it. */
  function Queue(slots: seq<Slot>, read: nat, count: nat): seq<Entry>
    requires read < |slots| && count <= |slots|
  {
    seq(count, i requires 0 <= i < count =>
      Entry(slots[RingPos(read, i, |slots|)].texture, slots[RingPos(read, i, |slots|)].timestamp))
  }

  /** The valid flags mark exactly the live window. */
  ghost predicate FlagsMatchWindow(slots: seq<Slot>, read: nat, count: nat)
  {
    forall j :: 0 <= j < |slots| ==> (slots[j].valid <==> InWindow(j, read, count, |slots|))
  }

  /** Every slot owns a texture. */
  ghost predicate Allocated(slots: seq<Slot>)
  {
    forall j :: 0 <= j < |slots| ==> slots[j].texture.Texture?
  }

  /** Writing slot `read + count` and growing the window appends exactly
      that slot's entry to the queue; the older entries keep their order. */
  lemma {:induction false} QueueAfterPush(slots: seq<Slot>, read: nat, count: nat, s: Slot)
    requires read < |slots| && count < |slots|
    ensures Queue(slots[RingPos(read, count, |slots|) := s], read, count + 1)
         == Queue(slots, read, count) + [Entry(s.texture, s.timestamp)]
  {
    var n, w := |slots|, RingPos(read, count, |slots|);
    var after, before := Queue(slots[w := s], read, count + 1), Queue(slots, read, count);
    forall i | 0 <= i < count
      ensures after[i] == before[i]
    {
      assert RingPos(read, i, n) != w;
    }
    assert after == before + [Entry(s.texture, s.timestamp)];
  }

  /** Consuming the slot at `read` and advancing it drops exactly the head
      of the queue. */
  lemma {:induction false} QueueAfterPop(slots: seq<Slot>, read: nat, count: nat)
    requires read < |slots| && 0 < count <= |slots|
    ensures Queue(slots[read := slots[read].(valid := false)], RingPos(read, 1, |slots|), count - 1)
         == Queue(slots, read, count)[1..]
  {
    var n, next := |slots|, RingPos(read, 1, |slots|);
    var after, before := Queue(slots[read := slots[read].(valid := false)], next, count - 1), Queue(slots, read, count);
    forall i | 0 <= i < count - 1
      ensures after[i] == before[i + 1]
    {
      assert RingPos(next, i, n) == RingPos(read, i + 1, n);
    }
    assert after == before[1..];
  }

  /** A push extends the window of valid slots by the written slot. */
  lemma {:induction false} FlagsAfterPush(slots: seq<Slot>, read: nat, count: nat, s: Slot)
    requires read < |slots| && count < |slots| && s.valid
    requires FlagsMatchWindow(slots, read, count)
    ensures FlagsMatchWindow(slots[RingPos(read, count, |slots|) := s], read, count + 1)
  {
    var n, w := |slots|, RingPos(read, count, |slots|);
    var t := slots[w := s];
    forall j | 0 <= j < n
      ensures t[j].valid <==> InWindow(j, read, count + 1, n)
    {
      if j != w {
        assert InWindow(j, read, count + 1, n) == InWindow(j, read, count, n);
      }
    }
  }

  /** A pop shrinks the window of valid slots by the consumed slot. */
  lemma {:induction false} FlagsAfterPop(slots: seq<Slot>, read: nat, count: nat)
    requires read < |slots| && 0 < count <= |slots|
    requires FlagsMatchWindow(slots, read, count)
    ensures FlagsMatchWindow(slots[read := slots[read].(valid := false)], RingPos(read, 1, |slots|), count - 1)
  {
    var n, next := |slots|, RingPos(read, 1, |slots|);
    var t := slots[read := slots[read].(valid := false)];
    forall j | 0 <= j < n
      ensures t[j].valid <==> InWindow(j, next, count - 1, n)
    {
      if j != read {
        assert InWindow(j, next, count - 1, n) == InWindow(j, read, count, n);
      }
    }
  }

  /** The slot just before the write index is the newest queued entry. */
  lemma {:induction false} LatestIsNewest(slots: seq<Slot>, read: nat, count: nat)
    requires read < |slots| && 0 < count <= |slots|
    ensures (RingPos(read, count, |slots|) + |slots| - 1) % |slots| == RingPos(read, count - 1, |slots|)
    ensures Queue(slots, read, count)[count - 1].frame == slots[RingPos(read, count - 1, |slots|)].texture
  {
    var n := |slots|;
    ModBelowTwice(RingPos(read, count, n) + n - 1, n);
  }

  class RingBuffer {
    /** `SIZE`, the template parameter. */
    const size: nat
    /** `slots_[SIZE]` */
    const slots: array<Slot>
    var writeIndex: nat
    var readIndex: nat
    var count: nat
    var width: u32
    var height: u32

    /** Holds in every reachable state, including after a failed
        initialization and after `Shutdown`. */
    ghost predicate Valid()
      reads this
    {
      && size > 0
      && slots.Length == size
      && readIndex < size
      && count <= size
      && writeIndex == RingPos(readIndex, count, size)
    }

    /** Holds from a successful `Initialize` until `Shutdown`: every slot owns
        a texture and the valid slots are exactly the live window. */
    ghost predicate Live()
      reads this, slots
      requires Valid()
    {
      Allocated(slots[..]) && FlagsMatchWindow(slots[..], readIndex, count)
    }

    /** The frames waiting to be popped, oldest first. */
    ghost function Contents(): seq<Entry>
      reads this, slots
      requires Valid()
    {
      Queue(slots[..], readIndex, count)
    }

    constructor (size: nat)
      requires size > 0
      ensures Valid() && this.size == size && fresh(slots)
      ensures writeIndex == 0 && readIndex == 0 && count == 0 && width == 0 && height == 0
      ensures forall i :: 0 <= i < size ==> slots[i] == Slot(NullTexture, 0, false)
    {
      this.size := size;
      slots := new Slot[size](_ => Slot(NullTexture, 0, false));
      writeIndex, readIndex, count := 0, 0, 0;
      width, height := 0, 0;
    }

    /** Creates the slot textures; `created[i]` is the outcome of
        `CreateTexture2D` for slot `i`. Stops at the first failure. */
    method Initialize(width: u32, height: u32, created: seq<bool>) returns (ok: bool)
      requires Valid() && |created| == size
      modifies this, slots
      ensures Valid() && this.width == width && this.height == height
      ensures ok <==> forall i :: 0 <= i < size ==> created[i]
      ensures ok ==> writeIndex == 0 && readIndex == 0 && count == 0
      ensures ok ==> (forall i :: 0 <= i < size ==> slots[i] == ResetSlot) && Live() && Contents() == []
      ensures !ok ==> readIndex == old(readIndex) && writeIndex == old(writeIndex) && count == old(count)
      ensures !ok ==> exists f :: (0 <= f < size && !created[f]
                                && (forall i :: 0 <= i < f ==> created[i] && slots[i] == ResetSlot)
                                && slots[f] == old(slots[f]).(texture := NullTexture)
                                && (forall i :: f < i < size ==> slots[i] == old(slots[i])))
    {
      this.width := width;
      this.height := height;
      var i := 0;
      while i < size
        invariant 0 <= i <= size
        invariant forall k :: 0 <= k < i ==> created[k] && slots[k] == ResetSlot
        invariant forall k :: i <= k < size ==> slots[k] == old(slots[k])
        invariant unchanged(`readIndex, `writeIndex, `count)
        invariant this.width == width && this.height == height
      {
        if !created[i] {
          slots[i] := slots[i].(texture := NullTexture);
          return false;
        }
        slots[i] := ResetSlot;
        i := i + 1;
      }
      writeIndex, readIndex, count := 0, 0, 0;
      ok := true;
      assert forall j :: 0 <= j < size ==> !InWindow(j, 0, 0, size);
    }

    /** Releases every slot texture and clears every valid flag; the indices
        and the count are left as they are. */
    method Shutdown()
      requires Valid()
      modifies slots
      ensures Valid()
      ensures forall i :: 0 <= i < size ==> slots[i] == old(slots[i]).(texture := NullTexture, valid := false)
    {
      var i := 0;
      while i < size
        invariant 0 <= i <= size
        invariant forall k :: 0 <= k < i ==> slots[k] == old(slots[k]).(texture := NullTexture, valid := false)
        invariant forall k :: i <= k < size ==> slots[k] == old(slots[k])
      {
        slots[i] := slots[i].(texture := NullTexture, valid := false);
        i := i + 1;
      }
    }

    /** Copies `frame` into the next write slot, or drops it when the
        buffer is full. */
    method Push(frame: Image, timestamp: u64) returns (ok: bool)
      requires Valid()
      requires count < size ==> slots[writeIndex].texture.Texture?
      modifies this, slots
      ensures Valid() && width == old(width) && height == old(height)
      ensures ok <==> old(count) < size
      ensures !ok ==> unchanged(this) && unchanged(slots)
      ensures ok ==> slots[..] == old(slots[..])[old(writeIndex) := Slot(Texture(frame), timestamp, true)]
      ensures ok ==> writeIndex == (old(writeIndex) + 1) % size && readIndex == old(readIndex) && count == old(count) + 1
      ensures old(Live()) ==> Live()
      ensures old(Live()) ==> Contents() == if ok then old(Contents()) + [Entry(Texture(frame), timestamp)] else old(Contents())
    {
      if IsFull() {
        return false;
      }
      var idx := writeIndex;
      ghost var before := slots[..];
      slots[idx] := Slot(Texture(frame), timestamp, true);
      writeIndex := (idx + 1) % size;
      count := count + 1;
      ModBelowTwice(idx + 1, size);
      QueueAfterPush(before, readIndex, count - 1, Slot(Texture(frame), timestamp, true));
      if FlagsMatchWindow(before, readIndex, count - 1) {
        FlagsAfterPush(before, readIndex, count - 1, Slot(Texture(frame), timestamp, true));
      }
      ok := true;
    }

    /** Hands out the oldest slot's texture and timestamp. Refuses when the
        buffer is empty or the slot at the read index is not valid. */
    method Pop() returns (r: Option<Entry>)
      requires Valid()
      modifies this, slots
      ensures Valid() && width == old(width) && height == old(height)
      ensures r.Some? <==> old(count) > 0 && old(slots[readIndex]).valid
      ensures r.None? ==> unchanged(this) && unchanged(slots)
      ensures r.Some? ==> r.value == Entry(old(slots[readIndex]).texture, old(slots[readIndex]).timestamp)
      ensures r.Some? ==> slots[..] == old(slots[..])[old(readIndex) := old(slots[readIndex]).(valid := false)]
      ensures r.Some? ==> readIndex == (old(readIndex) + 1) % size && writeIndex == old(writeIndex) && count == old(count) - 1
      ensures old(Live()) ==> Live() && (r.Some? <==> old(Contents()) != [])
      ensures old(Live()) && r.Some? ==> r.value == old(Contents())[0] && Contents() == old(Contents())[1..]
    {
      if IsEmpty() {
        return None;
      }
      var idx := readIndex;
      if !slots[idx].valid {
        return None;
      }
      ghost var before := slots[..];
      r := Some(Entry(slots[idx].texture, slots[idx].timestamp));
      slots[idx] := slots[idx].(valid := false);
      readIndex := (idx + 1) % size;
      count := count - 1;
      ModBelowTwice(idx + 1, size);
      QueueAfterPop(before, idx, count + 1);
      if FlagsMatchWindow(before, idx, count + 1) {
        FlagsAfterPop(before, idx, count + 1);
      }
    }

    /** The most recently written slot's texture, or null when the buffer is
        empty or that slot is not valid. */
    method PeekLatest() returns (t: Texture)
      requires Valid()
      ensures count == 0 ==> t == NullTexture
      ensures count > 0 ==> t == (if slots[(writeIndex + size - 1) % size].valid
                                  then slots[(writeIndex + size - 1) % size].texture else NullTexture)
      ensures Live() && Contents() != [] ==> t == Contents()[|Contents()| - 1].frame
    {
      if IsEmpty() {
        return NullTexture;
      }
      var idx := (writeIndex + size - 1) % size;
      t := if slots[idx].valid then slots[idx].texture else NullTexture;
      LatestIsNewest(slots[..], readIndex, count);
    }

    function IsFull(): (full: bool)
      reads this, slots
      requires Valid()
      ensures full <==> |Contents()| == size
    {
      count >= size
    }

    function IsEmpty(): (empty: bool)
      reads this, slots
      requires Valid()
      ensures empty <==> Contents() == []
    {
      count == 0
    }

    function Count(): (n: nat)
      reads this, slots
      requires Valid()
      ensures n == |Contents()| && n <= size
    {
      count
    }
  }
}
