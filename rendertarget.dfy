/**
 * The double-buffered render target shared by the render loop and the UI, its pinned pixel
 * buffers, and the queue of targets waiting to be disposed.
 *
 * A single 64-bit `published` word packs `(frameId << 1) | frontIndex`: the UI reads the front
 * buffer it names, the renderer draws into the other one and then tries to publish, which
 * succeeds only if nobody published since the renderer read the word. The atomic
 * compare-and-exchange is modelled as a plain comparison and assignment, and the concurrent
 * queue as a plain sequence.
 */
module RenderTargets {
  import opened Wrappers
  import opened Ints

  /** The exceptions the constructors and the size properties throw. */
  datatype Fault =
    | WidthOutOfRange    // `width <= 0`
    | HeightOutOfRange   // `height <= 0`
    | Overflow           // a `checked` multiplication left the `int` range

  /** `(int)(pub & 1)`: the low bit of the two's-complement word, which is `pub` modulo 2. */
  function FrontIndex(pub: I64): (f: nat)
    ensures f < 2
  {
    pub % 2
  }

  /** `pub >> 1`: the arithmetic shift, which rounds towards minus infinity. */
  function FrameId(pub: I64): (id: I64)
    ensures id * 2 <= pub < id * 2 + 2
  {
    pub / 2
  }

  /** `(frameId << 1) | front`: the shift wraps around in 64 bits, and since it leaves the
      low bit clear, or-ing in a 0/1 index adds it. */
  function Encode(frameId: I64, front: nat): I64
    requires front < 2
  {
    WrapI64(WrapI64(frameId * 2) + front)
  }

  /** Encoding and decoding are inverse: every word is the encoding of its own decoding, and
      a frame id that fits in 63 bits comes back out of its encoding with the front index. */
  lemma EncodeRoundTrip(pub: I64, frameId: I64, front: nat)
    requires front < 2
    ensures Encode(FrameId(pub), FrontIndex(pub)) == pub
    ensures I64_MIN / 2 <= frameId <= I64_MAX / 2 ==>
              FrameId(Encode(frameId, front)) == frameId && FrontIndex(Encode(frameId, front)) == front
  {
    var id := FrameId(pub);
    assert WrapI64(id * 2) == id * 2;
    if I64_MIN / 2 <= frameId <= I64_MAX / 2 {
      var e := frameId * 2 + front;
      assert WrapI64(frameId * 2) == frameId * 2;
      assert Encode(frameId, front) == e;
      DivModFloor(e, frameId, front);
    }
  }

  /** `2 * q + r` with `r` in {0, 1} has quotient `q` and remainder `r` by 2. */
  lemma DivModFloor(n: int, q: int, r: nat)
    requires r < 2 && n == 2 * q + r
    ensures n / 2 == q && n % 2 == r
  {
  }

  /** The word `TryPublish` stores: the next frame id, with the other buffer in front. */
  function Published(publishedAtStart: I64): I64
  {
    var oldFront := FrontIndex(publishedAtStart);
    var newFront := 1 - oldFront;
    var newFrameId := FrameId(publishedAtStart) + 1;
    Encode(newFrameId, newFront)
  }

  /** Publishing flips the front index; the frame id goes up by one until the shift wraps
      (after 2^62 frames). */
  lemma PublishedFlips(p: I64)
    ensures FrontIndex(Published(p)) == 1 - FrontIndex(p)
    ensures p < I64_MAX - 1 ==> FrameId(Published(p)) == FrameId(p) + 1
  {
    var id := FrameId(p) + 1;
    var f := 1 - FrontIndex(p);
    var w := WrapI64(id * 2);
    WrapOnce(id * 2);
    if id * 2 <= I64_MAX {
      assert Published(p) == id * 2 + f;
      DivModFloor(id * 2 + f, id, f);
    } else {
      assert Published(p) == I64_MIN + f;
      DivModFloor(I64_MIN + f, I64_MIN / 2, f);
    }
  }

  /** A value less than one full turn above the range wraps at most once. */
  lemma WrapOnce(v: int)
    requires I64_MIN <= v < I64_MAX + U64_LIMIT
    ensures WrapI64(v) == if v <= I64_MAX then v else v - U64_LIMIT
  {
    var n := v - I64_MIN;
    if v > I64_MAX {
      assert n == 1 * U64_LIMIT + (n - U64_LIMIT);
      DivMod(n, U64_LIMIT, 1, n - U64_LIMIT);
    }
  }

  /** One of the two pixel buffers: a `width * height` array, pinned until disposed. */
  class PinnedU32Buffer {
    const width: I32
    const height: I32
    const data: array<U32>
    var pinned: bool

    /** The allocation once its `checked` size is known to fit: a fresh, pinned array of
        `width * height` slots. */
    constructor(width: I32, height: I32)
      requires 0 <= width * height <= I32_MAX
      ensures this.width == width && this.height == height
      ensures fresh(data) && data.Length == width * height
      ensures pinned
    {
      this.width := width;
      this.height := height;
      data := new U32[width * height];
      pinned := true;
    }

    /** `RowBytes`, `checked(Width * 4)`: four bytes per pixel, or an overflow. */
    function RowBytes(): (r: Result<I32, Fault>)
      reads this
      ensures r.Success? <==> I32_MIN <= width * 4 <= I32_MAX
      ensures r.Success? ==> r.value == width * 4 && r.value % 4 == 0
      ensures r.Failure? ==> r.error == Overflow
    {
      if width * 4 < I32_MIN || width * 4 > I32_MAX then Failure(Overflow)
      else
        var rowBytes: I32 := width * 4;
        Success(rowBytes)
    }

    /** `Dispose`: frees the pin if it is still held; disposing twice is harmless. */
    method Dispose()
      modifies this
      ensures !pinned
    {
      if pinned {
        pinned := false;
      }
    }
  }

  /** The constructor's argument checks, in order, then the `checked` buffer size. */
  function CheckSize(width: I32, height: I32): (r: Option<Fault>)
    ensures r == None <==> 0 < width && 0 < height && width * height <= I32_MAX
    ensures r == Some(WidthOutOfRange) <==> width <= 0
    ensures r == Some(HeightOutOfRange) <==> 0 < width && height <= 0
    ensures r == Some(Overflow) <==> 0 < width && 0 < height && width * height > I32_MAX
  {
    if width <= 0 then Some(WidthOutOfRange)
    else if height <= 0 then Some(HeightOutOfRange)
    else if width * height > I32_MAX then Some(Overflow)
    else None
  }

  class RenderTarget {
    const buf0: PinnedU32Buffer
    const buf1: PinnedU32Buffer
    var published: I64
    const width: I32
    const height: I32

    /** Two distinct buffers of the target's size. */
    ghost predicate Valid()
      reads this
    {
      && buf0 != buf1 && buf0.data != buf1.data
      && buf0.width == buf1.width == width && buf0.height == buf1.height == height
      && buf0.data.Length == buf1.data.Length == width * height
    }

    /** The buffer a front index names. */
    function Buffer(index: nat): (b: PinnedU32Buffer)
      requires index < 2
      reads this
      ensures b == buf0 || b == buf1
    {
      if index == 0 then buf0 else buf1
    }

    /** The constructor once its checks have passed: two fresh buffers, frame 0, buffer 0 in
        front. */
    constructor(width: I32, height: I32)
      requires CheckSize(width, height) == None
      ensures Valid() && this.width == width && this.height == height
      ensures fresh(buf0) && fresh(buf1) && fresh(buf0.data) && fresh(buf1.data)
      ensures buf0.pinned && buf1.pinned
      ensures published == 0 && FrameId(published) == 0 && FrontIndex(published) == 0
    {
      this.width := width;
      this.height := height;
      buf0 := new PinnedU32Buffer(width, height);
      buf1 := new PinnedU32Buffer(width, height);
      published := 0;
    }

    /** `RowBytes`, the first buffer's. */
    function RowBytes(): (r: Result<I32, Fault>)
      requires Valid()
      reads this, buf0
      ensures r.Success? <==> I32_MIN <= width * 4 <= I32_MAX
      ensures r.Success? ==> r.value == width * 4
    {
      buf0.RowBytes()
    }

    /** `GetFrontSnapshot`: the buffer the published word names as front, the size, the row
        stride and the frame id. */
    method GetFrontSnapshot() returns (front: PinnedU32Buffer, w: I32, h: I32, rowBytes: Result<I32, Fault>, frameId: I64)
      requires Valid()
      ensures front == Buffer(FrontIndex(published)) && frameId == FrameId(published)
      ensures w == width && h == height && rowBytes == front.RowBytes()
    {
      var pub := published;
      var frontIndex := FrontIndex(pub);
      frameId := FrameId(pub);
      front := if frontIndex == 0 then buf0 else buf1;
      w, h := width, height;
      rowBytes := front.RowBytes();
    }

    /** `GetBackForRender`: the array of the buffer that is not in front, and the word it was
        chosen from, to publish against. */
    method GetBackForRender() returns (back: array<U32>, publishedAtStart: I64)
      requires Valid()
      ensures publishedAtStart == published
      ensures back == Buffer(1 - FrontIndex(published)).data
      ensures back != Buffer(FrontIndex(published)).data
    {
      var pub := published;
      var frontIndex := FrontIndex(pub);
      var backIndex := 1 - frontIndex;
      back := if backIndex == 0 then buf0.data else buf1.data;
      publishedAtStart := pub;
    }

    /** `TryPublish`: succeeds exactly when the word is still the one the render started
        from; then the render's back buffer becomes the front. */
    method TryPublish(publishedAtStart: I64) returns (ok: bool)
      requires Valid()
      modifies this
      ensures Valid()
      ensures ok <==> old(published) == publishedAtStart
      ensures ok ==> published == Published(publishedAtStart)
      ensures ok ==> Buffer(FrontIndex(published)) == Buffer(1 - FrontIndex(publishedAtStart))
      ensures !ok ==> published == old(published)
    {
      var newPub := Published(publishedAtStart);
      PublishedFlips(publishedAtStart);
      // Interlocked.CompareExchange(ref _published, newPub, publishedAtStart)
      var seen := published;
      if seen == publishedAtStart {
        published := newPub;
      }
      ok := seen == publishedAtStart;
    }

    /** `Dispose`: releases both buffers. */
    method Dispose()
      modifies buf0, buf1
      ensures !buf0.pinned && !buf1.pinned
    {
      buf0.Dispose();
      buf1.Dispose();
    }
  }

  /** `new RenderTarget(width, height)`: the checks throw, or a valid target at frame 0. */
  method Create(width: I32, height: I32) returns (r: Result<RenderTarget, Fault>)
    ensures CheckSize(width, height).Some? ==> r == Failure(CheckSize(width, height).value)
    ensures CheckSize(width, height).None? ==>
              && r.Success? && fresh(r.value) && r.value.Valid()
              && r.value.width == width && r.value.height == height && r.value.published == 0
  {
    var fault := CheckSize(width, height);
    if fault.Some? {
      return Failure(fault.value);
    }
    var t := new RenderTarget(width, height);
    return Success(t);
  }

  /** The retired targets waiting for disposal, oldest first; `disposed` records the order
      in which `DisposeAll` disposed them. */
  class RetiredTargets {
    var queue: seq<RenderTarget>
    ghost var disposed: seq<RenderTarget>

    constructor()
      ensures queue == [] && disposed == []
    {
      queue := [];
      disposed := [];
    }

    /** `Retire`: enqueue at the back. */
    method Retire(t: RenderTarget)
      modifies this
      ensures queue == old(queue) + [t] && disposed == old(disposed)
    {
      queue := queue + [t];
    }

    /** The buffers of the queued targets. */
    ghost function Buffers(): set<object>
      reads this
    {
      (set t | t in queue :: t.buf0) + (set t | t in queue :: t.buf1)
    }

    /** `DisposeAll`: dequeue until empty, disposing each target in queue order; nothing but
        the queue and the queued targets' buffers changes. */
    method DisposeAll()
      modifies this, Buffers()
      ensures queue == [] && disposed == old(disposed) + old(queue)
      ensures forall t :: t in old(queue) ==> !t.buf0.pinned && !t.buf1.pinned
    {
      ghost var pending := queue;
      ghost var k := 0;
      while |queue| > 0
        invariant k <= |pending| && queue == pending[k..]
        invariant disposed == old(disposed) + pending[..k]
        invariant forall j :: 0 <= j < k ==> !pending[j].buf0.pinned && !pending[j].buf1.pinned
        decreases |queue|
      {
        var t := queue[0];
        queue := queue[1..];
        t.Dispose();
        disposed := disposed + [t];
        k := k + 1;
      }
    }
  }
}
