/** The receive buffer: sound card frames cut into blocks, down-sampled block by block and
    collected for a whole period (Detector/Detector.cpp). */
module Detector {
  import opened AudioDevice
  import opened Bytes

  const CAPACITY: nat := 30 * 60 * 12000
  const MAX_BUFFER_SIZE: nat := 7 * 512

  /** The filter's k-th output sample once it was handed these blocks; it keeps state of
      its own, so the whole history counts. */
  type Filter = (seq<seq<Sample>>, nat) -> Sample

  /** Samples to a block after down-sampling, and the down-sampling factor. */
  datatype Config = Config(n: nat, factor: nat, filter: Filter) {
    predicate Valid() {
      0 < n <= MAX_BUFFER_SIZE && 0 < factor
    }

    function BlockFrames(): nat {
      n * factor
    }
  }

  /** stored is what the decoder may read, d2 up to kin; pending are the frames of the block
      that is being filled; blocks went to the filter; signals are the values of kin that
      framesWritten announced. */
  datatype State = State(stored: seq<Sample>, pending: seq<Sample>, blocks: seq<seq<Sample>>, signals: seq<nat>)

  const CLEARED := State([], [], [], [])

  ghost predicate Reachable(c: Config, s: State) {
    c.Valid() && |s.stored| <= CAPACITY && |s.pending| < c.BlockFrames()
  }

  function Filtered(c: Config, blocks: seq<seq<Sample>>): (r: seq<Sample>)
    ensures |r| == c.n
  {
    seq(c.n, k requires 0 <= k < c.n => c.filter(blocks, k))
  }

  /** There is no room for another block. The comparison is strict, so a block that would
      fill the buffer exactly is refused too. */
  ghost predicate Full(c: Config, s: State) {
    |s.stored| >= CAPACITY - c.n
  }

  /** A block is complete. */
  function Complete(c: Config, s: State, block: seq<Sample>): State {
    if c.factor > 1 && |s.stored| < CAPACITY - c.n then
      var blocks := s.blocks + [block];
      var stored := s.stored + Filtered(c, blocks);
      State(stored, [], blocks, s.signals + [|stored|])
    else
      State(s.stored, [], s.blocks, s.signals + [|s.stored|])
  }

  /** Takes in frames that do not go beyond the end of the block. */
  function Take(c: Config, s: State, frames: seq<Sample>): State {
    var t := if c.factor > 1 then s else s.(stored := s.stored + frames);
    var pending := s.pending + frames;
    if |pending| < c.BlockFrames() then t.(pending := pending) else Complete(c, t, pending)
  }

  /** The frames one at a time: what a write has to come to. */
  function Feed(c: Config, s: State, frames: seq<Sample>): State {
    if frames == [] then s else Take(c, Feed(c, s, frames[..|frames| - 1]), [frames[|frames| - 1]])
  }

  /** The frames for which a buffer with this much stored has room. */
  function RoomFor(c: Config, stored: int): int {
    (CAPACITY - stored) * c.factor
  }

  function Acceptable(c: Config, s: State): int {
    RoomFor(c, |s.stored|)
  }

  /** The frames a write takes in; the others are dropped. */
  function Accepted(c: Config, s: State, count: nat): nat
    requires |s.stored| <= CAPACITY
  {
    if count <= Acceptable(c, s) then count else Acceptable(c, s)
  }

  function Write(c: Config, s: State, frames: seq<Sample>): State
    requires |s.stored| <= CAPACITY
  {
    Feed(c, s, frames[..Accepted(c, s, |frames|)])
  }

  // ----- blocks against single frames -----

  lemma {:induction false} FeedAppend(c: Config, s: State, a: seq<Sample>, b: seq<Sample>)
    ensures Feed(c, s, a + b) == Feed(c, Feed(c, s, a), b)
  {
    if b == [] {
      assert a + b == a;
    } else {
      var front := b[..|b| - 1];
      FeedAppend(c, s, a, front);
      assert (a + b)[..|a + b| - 1] == a + front;
    }
  }

  /** Within a block it does not matter how many frames come at once. */
  lemma {:induction false} TakeIsFeed(c: Config, s: State, frames: seq<Sample>)
    requires |s.pending| + |frames| <= c.BlockFrames() && |frames| > 0
    ensures Take(c, s, frames) == Feed(c, s, frames)
  {
    var front, last := frames[..|frames| - 1], frames[|frames| - 1];
    assert frames == front + [last];
    if front == [] {
      assert Feed(c, s, front) == s;
    } else {
      TakeIsFeed(c, s, front);
      assert s.pending + frames == s.pending + front + [last];
      assert s.stored + frames == s.stored + front + [last];
    }
  }

  // ----- what every run of writes keeps -----

  lemma TakeKeeps(c: Config, s: State, frames: seq<Sample>)
    requires Reachable(c, s) && |s.pending| + |frames| <= c.BlockFrames()
    requires c.factor == 1 ==> |s.stored| + |frames| <= CAPACITY
    ensures Reachable(c, Take(c, s, frames))
    ensures c.factor == 1 ==> |Take(c, s, frames).stored| == |s.stored| + |frames|
    ensures c.factor > 1 && Full(c, s) ==> Take(c, s, frames).stored == s.stored
    ensures c.factor > 1 && !Full(c, s) ==> Room(c, Take(c, s, frames)) == Room(c, s) - |frames|
  {
    var n, f, x := c.n, c.factor, CAPACITY - |s.stored|;
    assert (x - n) * f == x * f - n * f;
  }

  lemma {:induction false} FeedKeeps(c: Config, s: State, frames: seq<Sample>)
    requires Reachable(c, s)
    requires c.factor == 1 ==> |s.stored| + |frames| <= CAPACITY
    ensures Reachable(c, Feed(c, s, frames))
    ensures c.factor == 1 ==> |Feed(c, s, frames).stored| == |s.stored| + |frames|
    ensures c.factor > 1 && Full(c, s) ==> Feed(c, s, frames).stored == s.stored
    ensures c.factor > 1 ==> Full(c, Feed(c, s, frames)) || Room(c, Feed(c, s, frames)) == Room(c, s) - |frames|
  {
    hide Take, Reachable, Room;
    if frames != [] {
      var front := frames[..|frames| - 1];
      FeedKeeps(c, s, front);
      TakeFits(c, Feed(c, s, front));
      TakeKeeps(c, Feed(c, s, front), [frames[|frames| - 1]]);
    }
  }

  lemma TakeFits(c: Config, s: State)
    requires Reachable(c, s)
    ensures |s.pending| + 1 <= c.BlockFrames()
  {
  }

  /** The frames that still fit, those waiting in the block being counted as stored. */
  function Room(c: Config, s: State): int {
    Acceptable(c, s) - |s.pending|
  }

  /** Frames are never lost count of: full blocks that were signalled, and what is left. */
  lemma {:induction false} FramesCounted(c: Config, s: State, frames: seq<Sample>)
    requires c.Valid() && |s.pending| < c.BlockFrames()
    ensures |Feed(c, s, frames).signals| * c.BlockFrames() + |Feed(c, s, frames).pending|
         == |s.signals| * c.BlockFrames() + |s.pending| + |frames|
    ensures |Feed(c, s, frames).pending| < c.BlockFrames()
  {
    hide Take, Config.BlockFrames;
    if frames != [] {
      var front := frames[..|frames| - 1];
      FramesCounted(c, s, front);
      FrameCounted(c, Feed(c, s, front), frames[|frames| - 1]);
    }
  }

  lemma FrameCounted(c: Config, s: State, frame: Sample)
    requires c.Valid() && |s.pending| < c.BlockFrames()
    ensures |Take(c, s, [frame]).pending| < c.BlockFrames()
    ensures |Take(c, s, [frame]).signals| * c.BlockFrames() + |Take(c, s, [frame]).pending|
         == |s.signals| * c.BlockFrames() + |s.pending| + 1
  {
    hide Filtered;
    var k := c.BlockFrames();
    assert (|s.signals| + 1) * k == |s.signals| * k + k;
  }

  lemma WriteKeeps(c: Config, s: State, frames: seq<Sample>)
    requires Reachable(c, s)
    ensures Reachable(c, Write(c, s, frames))
  {
    FeedKeeps(c, s, frames[..Accepted(c, s, |frames|)]);
  }

  /** Filling the buffer up: what comes after no longer reaches what is stored. */
  lemma FilledBy(c: Config, s: State, b: seq<Sample>, i: nat, j: nat)
    requires Reachable(c, s) && c.factor > 1 && i <= |b| && j <= |b|
    requires i != j ==> Full(c, Feed(c, s, b[..i])) && Full(c, Feed(c, s, b[..j]))
    ensures Feed(c, s, b[..i]).stored == Feed(c, s, b[..j]).stored
  {
    hide Full, Reachable;
    if i < j {
      FilledUpTo(c, s, b, i, j);
    } else if j < i {
      FilledUpTo(c, s, b, j, i);
    }
  }

  lemma FilledUpTo(c: Config, s: State, b: seq<Sample>, i: nat, j: nat)
    requires Reachable(c, s) && c.factor > 1 && i < j <= |b|
    requires Full(c, Feed(c, s, b[..i]))
    ensures Feed(c, s, b[..i]).stored == Feed(c, s, b[..j]).stored
  {
    hide Full, Reachable, Feed;
    assert b[..j] == b[..i] + b[i..j];
    FeedAppend(c, s, b[..i], b[i..j]);
    FeedKeeps(c, s, b[..i]);
    FeedKeeps(c, Feed(c, s, b[..i]), b[i..j]);
  }

  lemma NoRoomIsFull(c: Config, s: State)
    requires Reachable(c, s) && Room(c, s) <= 0
    ensures Full(c, s)
  {
    var x := CAPACITY - |s.stored|;
    assert x * c.factor < c.n * c.factor;
  }

  lemma RoomFills(c: Config, s: State, frames: seq<Sample>)
    requires Reachable(c, s) && c.factor > 1 && |frames| >= Room(c, s)
    ensures Full(c, Feed(c, s, frames))
  {
    hide Feed, Full, Room, Reachable;
    FeedKeeps(c, s, frames);
    if !Full(c, Feed(c, s, frames)) {
      NoRoomIsFull(c, Feed(c, s, frames));
    }
  }

  // ----- one write or two -----

  /** How many frames two writes take in, together. */
  function Together(c: Config, s: State, a: seq<Sample>, b: seq<Sample>): (r: nat)
    requires Reachable(c, s)
    ensures r <= |a| + |b|
  {
    WriteKeeps(c, s, a);
    Accepted(c, s, |a|) + Accepted(c, Write(c, s, a), |b|)
  }

  /** Two writes amount to one when and only when they take in as many frames. */
  lemma SplitCounted(c: Config, s: State, a: seq<Sample>, b: seq<Sample>)
    requires Reachable(c, s)
    ensures Reachable(c, Write(c, s, a))
    ensures Write(c, Write(c, s, a), b) == Write(c, s, a + b)
       <==> Together(c, s, a, b) == Accepted(c, s, |a| + |b|)
  {
    hide Feed;
    WriteKeeps(c, s, a);
    var t := Write(c, s, a);
    var i, j, k := Accepted(c, s, |a|), Accepted(c, t, |b|), Accepted(c, s, |a| + |b|);
    FramesCounted(c, s, a[..i]);
    FramesCounted(c, t, b[..j]);
    FramesCounted(c, s, (a + b)[..k]);
    if i + j == k {
      assert i == |a| || j == 0;
      assert (a + b)[..k] == a[..i] + b[..j];
      FeedAppend(c, s, a[..i], b[..j]);
    }
  }

  /** The blocks that a buffer with this much stored still takes; one that would fill it
      exactly is not among them. */
  function MoreBlocks(c: Config, stored: nat): nat
    requires c.Valid()
  {
    if stored < CAPACITY then (CAPACITY - 1 - stored) / c.n else 0
  }

  function Min(a: int, b: int): int {
    if a <= b then a else b
  }

  /** How much is stored once so many frames were taken in. */
  function StoredAfter(c: Config, stored: nat, pending: nat, count: nat): nat
    requires c.Valid()
  {
    if c.factor == 1 then stored + count
    else
      BlocksPositive(c);
      stored + c.n * Min((pending + count) / c.BlockFrames(), MoreBlocks(c, stored))
  }

  lemma BlocksPositive(c: Config)
    requires c.Valid()
    ensures c.BlockFrames() > 0
    ensures forall x: nat :: x / c.BlockFrames() >= 0
    ensures forall k: nat :: c.n * k >= 0
  {
  }

  lemma QuotientExceeds(x: nat, n: nat, k: nat)
    requires n > 0
    ensures n * k + n <= x <==> k < x / n
  {
    var q := x / n;
    assert n * q <= x < n * q + n;
    if k < q {
      MulGap(n, q - k);
      assert n * (q - k) == n * q - n * k;
    } else {
      assert n * (k - q) == n * k - n * q;
      assert n * (k - q) >= 0;
    }
  }

  lemma RoomForOne(c: Config, stored: nat, k: nat)
    requires c.Valid()
    ensures stored + c.n * k < CAPACITY - c.n <==> k < MoreBlocks(c, stored)
  {
    if stored < CAPACITY {
      QuotientExceeds(CAPACITY - 1 - stored, c.n, k);
    } else {
      assert c.n * k >= 0;
    }
  }

  /** Blocks are stored as long as there is room for one. */
  lemma {:induction false} StoredByBlocks(c: Config, s: State, frames: seq<Sample>)
    requires Reachable(c, s) && c.factor > 1
    ensures |Feed(c, s, frames).signals| >= |s.signals|
    ensures |Feed(c, s, frames).stored|
         == |s.stored| + c.n * Min(|Feed(c, s, frames).signals| - |s.signals|, MoreBlocks(c, |s.stored|))
  {
    hide Filtered, MoreBlocks;
    if frames != [] {
      var front := frames[..|frames| - 1];
      StoredByBlocks(c, s, front);
      var k := |Feed(c, s, front).signals| - |s.signals|;
      RoomForOne(c, |s.stored|, Min(k, MoreBlocks(c, |s.stored|)));
      assert c.n * (k + 1) == c.n * k + c.n;
    }
  }

  lemma StoredCounted(c: Config, s: State, frames: seq<Sample>)
    requires Reachable(c, s) && (c.factor == 1 ==> |s.stored| + |frames| <= CAPACITY)
    ensures |Feed(c, s, frames).stored| == StoredAfter(c, |s.stored|, |s.pending|, |frames|)
  {
    hide Feed, MoreBlocks;
    FeedKeeps(c, s, frames);
    if c.factor > 1 {
      var t, size := Feed(c, s, frames), c.BlockFrames();
      StoredByBlocks(c, s, frames);
      FramesCounted(c, s, frames);
      var k := |t.signals| - |s.signals|;
      assert size * k == |t.signals| * size - |s.signals| * size;
      ModUnique(|s.pending| + |frames|, size, k, |t.pending|);
    }
  }

  /** Two writes of so many frames take in as many as one of them all. */
  predicate SplitAgrees(c: Config, stored: nat, pending: nat, a: nat, b: nat)
    requires c.Valid() && stored <= CAPACITY
  {
    var room := RoomFor(c, stored);
    var first := Min(a, room);
    assert first >= 0;
    first + Min(b, RoomFor(c, StoredAfter(c, stored, pending, first))) == Min(a + b, room)
  }

  /** Two writes leave the same state as one exactly when the numbers of frames stored,
      waiting and written say so beforehand. */
  lemma SplitWrite(c: Config, s: State, a: seq<Sample>, b: seq<Sample>)
    requires Reachable(c, s)
    ensures Reachable(c, Write(c, s, a))
    ensures Write(c, Write(c, s, a), b) == Write(c, s, a + b)
       <==> SplitAgrees(c, |s.stored|, |s.pending|, |a|, |b|)
  {
    hide Feed, StoredAfter, Full;
    WriteKeeps(c, s, a);
    SplitCounted(c, s, a, b);
    StoredCounted(c, s, a[..Accepted(c, s, |a|)]);
  }

  /** Always so without down-sampling, and otherwise when what waits in the block and both
      writes fit what remains of the buffer. */
  lemma SplitFits(c: Config, s: State, a: seq<Sample>, b: seq<Sample>)
    requires Reachable(c, s)
    requires c.factor == 1 || |s.pending| + |a| + |b| <= Acceptable(c, s)
    ensures Reachable(c, Write(c, s, a))
    ensures Write(c, Write(c, s, a), b) == Write(c, s, a + b)
  {
    hide Full, Feed;
    SplitCounted(c, s, a, b);
    FeedKeeps(c, s, a[..Accepted(c, s, |a|)]);
    if c.factor > 1 {
      assert a[..|a|] == a;
      FullAccepts(c, s, a);
    }
  }

  /** Between them the stored samples are at most what the frames that came in amount to. */
  lemma {:induction false} FullAccepts(c: Config, s: State, frames: seq<Sample>)
    requires Reachable(c, s) && c.factor > 1
    ensures Room(c, Feed(c, s, frames)) >= Room(c, s) - |frames|
  {
    hide Full, Reachable, Room, Filtered;
    if frames != [] {
      var front := frames[..|frames| - 1];
      FeedKeeps(c, s, front);
      FullAccepts(c, s, front);
      TakeFits(c, Feed(c, s, front));
      TakesNoMore(c, Feed(c, s, front), [frames[|frames| - 1]]);
    }
  }

  lemma TakesNoMore(c: Config, s: State, frames: seq<Sample>)
    requires Reachable(c, s) && c.factor > 1 && |s.pending| + |frames| <= c.BlockFrames()
    ensures Room(c, Take(c, s, frames)) >= Room(c, s) - |frames|
  {
    var n, f, x := c.n, c.factor, CAPACITY - |s.stored|;
    assert (x - n) * f == x * f - n * f;
  }

  /** In a nearly full buffer two writes do leave other frames waiting than one. Such a
      buffer comes about from an empty one in a single write. */
  lemma SplitCanDiffer(c: Config, frames: seq<Sample>, a: seq<Sample>, b: seq<Sample>)
    requires c.n == 2 && c.factor == 4 && |frames| == (CAPACITY / 2 - 1) * 8 && |a| == 5 && |b| == 5
    ensures var s := Write(c, CLEARED, frames);
            && Reachable(c, s) && |s.stored| == CAPACITY - 2 && s.pending == []
            && Reachable(c, Write(c, s, a)) && Write(c, Write(c, s, a), b) != Write(c, s, a + b)
  {
    hide Feed;
    var s := Write(c, CLEARED, frames);
    assert frames[..|frames|] == frames;
    WriteKeeps(c, CLEARED, frames);
    FramesCounted(c, CLEARED, frames);
    StoredCounted(c, CLEARED, frames);
    SplitWrite(c, s, a, b);
  }

  /** What a write drops would not have been stored: with down-sampling the decoder misses
      nothing by it, and without exactly what is more than the buffer holds. */
  lemma NothingMissed(c: Config, s: State, frames: seq<Sample>)
    requires Reachable(c, s)
    ensures c.factor > 1 ==> Write(c, s, frames).stored == Feed(c, s, frames).stored
    ensures c.factor == 1 ==>
              Write(c, s, frames).stored == s.stored + frames[..Min(|frames|, CAPACITY - |s.stored|)]
  {
    hide Feed, Full, Accepted, Room;
    var k := Accepted(c, s, |frames|);
    AcceptedIs(c, s, |frames|);
    if c.factor == 1 {
      StoredDirectly(c, s, frames[..k]);
    } else if k < |frames| {
      DroppedInVain(c, s, frames, k);
    } else {
      assert frames[..k] == frames;
    }
  }

  lemma AcceptedIs(c: Config, s: State, count: nat)
    requires Reachable(c, s)
    ensures Accepted(c, s, count) <= count && (Accepted(c, s, count) < count ==> Room(c, s) <= Accepted(c, s, count))
    ensures c.factor == 1 ==> Accepted(c, s, count) == Min(count, CAPACITY - |s.stored|)
  {
  }

  lemma DroppedInVain(c: Config, s: State, frames: seq<Sample>, k: nat)
    requires Reachable(c, s) && c.factor > 1 && Room(c, s) <= k < |frames|
    ensures Feed(c, s, frames[..k]).stored == Feed(c, s, frames).stored
  {
    hide Feed, Full, Room, Reachable;
    assert frames[..|frames|] == frames;
    RoomFills(c, s, frames[..k]);
    RoomFills(c, s, frames);
    FilledBy(c, s, frames, k, |frames|);
  }

  /** Alike to the decoder, now and after any further write. */
  ghost predicate Same(c: Config, s: State, t: State) {
    s == t || (c.factor > 1 && Full(c, s) && Full(c, t) && s.stored == t.stored)
  }

  /** What the decoder gets to see does not depend on whether the frames came in one write
      or in two, however many of them are dropped. */
  lemma SplitStored(c: Config, s: State, a: seq<Sample>, b: seq<Sample>)
    requires Reachable(c, s)
    ensures Reachable(c, Write(c, s, a))
    ensures Same(c, Write(c, Write(c, s, a), b), Write(c, s, a + b))
  {
    hide Feed, Full, Room;
    WriteKeeps(c, s, a);
    if c.factor == 1 {
      SplitFits(c, s, a, b);
    } else {
      var t := Write(c, s, a);
      var i, j, k := Accepted(c, s, |a|), Accepted(c, t, |b|), Accepted(c, s, |a| + |b|);
      var whole := a + b;
      if i < |a| {
        assert whole[..k] == a[..i];
        Overfull(c, s, a[..i], b, j);
      } else {
        assert a[..i] == a;
        assert whole[..k] == a + b[..k - i];
        FeedAppend(c, s, a, b[..k - i]);
        if k - i != j {
          TwoFillings(c, s, a, b, j, k - i);
        }
        FilledBy(c, t, b, j, k - i);
      }
    }
  }

  lemma Overfull(c: Config, s: State, a: seq<Sample>, b: seq<Sample>, j: nat)
    requires Reachable(c, s) && c.factor > 1 && |a| == Acceptable(c, s) && j <= |b|
    ensures Same(c, Feed(c, Feed(c, s, a), b[..j]), Feed(c, s, a))
  {
    hide Feed;
    RoomFills(c, s, a);
    FeedKeeps(c, s, a);
    FeedKeeps(c, Feed(c, s, a), b[..j]);
  }

  lemma TwoFillings(c: Config, s: State, a: seq<Sample>, b: seq<Sample>, j: nat, k: nat)
    requires Reachable(c, s) && c.factor > 1 && j <= |b| && k <= |b| && j != k
    requires Reachable(c, Feed(c, s, a))
    requires j == Accepted(c, Feed(c, s, a), |b|) && |a| + k == Accepted(c, s, |a| + |b|)
    ensures Full(c, Feed(c, Feed(c, s, a), b[..j])) && Full(c, Feed(c, Feed(c, s, a), b[..k]))
  {
    hide Feed, Full;
    var t := Feed(c, s, a);
    FeedAppend(c, s, a, b[..j]);
    FeedAppend(c, s, a, b[..k]);
    if k < |b| {
      RoomFills(c, s, a + b[..k]);
      if k < j {
        RoomFills(c, s, a + b[..j]);
      } else {
        RoomFills(c, t, b[..j]);
      }
    } else {
      RoomFills(c, t, b[..j]);
      RoomFills(c, t, b[..k]);
    }
  }

  function WriteAll(c: Config, s: State, writes: seq<seq<Sample>>): (r: State)
    requires Reachable(c, s)
    ensures Reachable(c, r)
  {
    if writes == [] then s
    else
      var t := WriteAll(c, s, writes[..|writes| - 1]);
      WriteKeeps(c, t, writes[|writes| - 1]);
      Write(c, t, writes[|writes| - 1])
  }

  function Joined(writes: seq<seq<Sample>>): seq<Sample> {
    if writes == [] then [] else Joined(writes[..|writes| - 1]) + writes[|writes| - 1]
  }

  /** However a period's frames are split over writes, the decoder sees the same samples. */
  lemma {:induction false} SplitsStored(c: Config, s: State, writes: seq<seq<Sample>>)
    requires Reachable(c, s)
    ensures Same(c, WriteAll(c, s, writes), Write(c, s, Joined(writes)))
    ensures WriteAll(c, s, writes).stored == Write(c, s, Joined(writes)).stored
  {
    hide Feed, Full, Room, Write, Same;
    if writes == [] {
      NothingWritten(c, s);
    } else {
      var front, last := writes[..|writes| - 1], writes[|writes| - 1];
      SplitsStored(c, s, front);
      SplitStored(c, s, Joined(front), last);
      WriteKeeps(c, s, Joined(front));
      SameAfter(c, WriteAll(c, s, front), Write(c, s, Joined(front)), last);
      SameIsTransitive(c, WriteAll(c, s, writes), Write(c, Write(c, s, Joined(front)), last),
        Write(c, s, Joined(writes)));
    }
    SameStored(c, WriteAll(c, s, writes), Write(c, s, Joined(writes)));
  }

  lemma SameIsTransitive(c: Config, s: State, t: State, u: State)
    requires Same(c, s, t) && Same(c, t, u)
    ensures Same(c, s, u)
  {
  }

  lemma SameStored(c: Config, s: State, t: State)
    requires Same(c, s, t)
    ensures s.stored == t.stored
  {
  }

  lemma NothingWritten(c: Config, s: State)
    requires Reachable(c, s)
    ensures Same(c, s, Write(c, s, []))
  {
  }

  lemma SameAfter(c: Config, s: State, t: State, frames: seq<Sample>)
    requires Reachable(c, s) && Reachable(c, t) && Same(c, s, t)
    ensures Same(c, Write(c, s, frames), Write(c, t, frames))
  {
    if s != t {
      FeedKeeps(c, s, frames[..Accepted(c, s, |frames|)]);
      FeedKeeps(c, t, frames[..Accepted(c, t, |frames|)]);
    }
  }

  // ----- one period after another -----

  /** The filter as these blocks left it. */
  function After(c: Config, history: seq<seq<Sample>>): Config {
    c.(filter := (blocks, k) => c.filter(history + blocks, k))
  }

  /** A period starts: nothing is stored or waiting. What was announced and filtered before
      may be anything. */
  predicate Starts(s: State) {
    s.stored == [] && s.pending == []
  }

  /** What a state has that came after the start of the period. */
  function Since(start: State, s: State): State
    requires |start.blocks| <= |s.blocks| && |start.signals| <= |s.signals|
  {
    s.(blocks := s.blocks[|start.blocks|..], signals := s.signals[|start.signals|..])
  }

  /** A later period runs as the first one does, with the filter as the earlier ones left
      it. */
  lemma {:induction false} LaterPeriod(c: Config, s: State, frames: seq<Sample>)
    requires c.Valid() && Starts(s)
    ensures var t := Feed(c, s, frames);
            s.blocks <= t.blocks && s.signals <= t.signals && Since(s, t) == Feed(After(c, s.blocks), CLEARED, frames)
  {
    hide Filtered;
    if frames != [] {
      var front, x := frames[..|frames| - 1], frames[|frames| - 1];
      LaterPeriod(c, s, front);
      LaterFrame(c, s, Feed(c, s, front), x);
    }
  }

  lemma LaterFrame(c: Config, start: State, s: State, x: Sample)
    requires start.blocks <= s.blocks && start.signals <= s.signals
    ensures var t := Take(c, s, [x]);
            && start.blocks <= t.blocks && start.signals <= t.signals
            && Since(start, t) == Take(After(c, start.blocks), Since(start, s), [x])
  {
    hide Filtered;
    var block := s.pending + [x];
    LaterFilter(c, start.blocks, s.blocks[|start.blocks|..] + [block]);
    assert start.blocks + (s.blocks[|start.blocks|..] + [block]) == s.blocks + [block];
  }

  lemma LaterFilter(c: Config, history: seq<seq<Sample>>, blocks: seq<seq<Sample>>)
    ensures Filtered(After(c, history), blocks) == Filtered(c, history + blocks)
  {
  }

  // ----- what is announced -----

  /** The blocks of a period that a down-sampled buffer takes. */
  function MaxBlocks(c: Config): nat
    requires c.Valid()
  {
    MoreBlocks(c, 0)
  }

  function Announced(c: Config, k: nat): nat
    requires c.Valid()
  {
    if c.factor == 1 || k <= MaxBlocks(c) then k * c.n else MaxBlocks(c) * c.n
  }

  /** The k-th signal announces k blocks, and all frames are accounted for. */
  ghost predicate Counting(c: Config, s: State, frames: seq<Sample>)
    requires c.Valid()
  {
    |s.signals| * c.BlockFrames() + |s.pending| == |frames| && Announcing(c, s)
  }

  ghost predicate Announcing(c: Config, s: State)
    requires c.Valid()
  {
    && (forall k :: 0 <= k < |s.signals| ==> s.signals[k] == Announced(c, k + 1))
    && |s.stored| == Announced(c, |s.signals|) + (if c.factor == 1 then |s.pending| else 0)
  }

  /** From the start of any period the k-th signal announces k blocks, until a down-sampled
      buffer takes no more of them: then it repeats the last value. */
  lemma SignalsCountBlocks(c: Config, s: State, frames: seq<Sample>)
    requires c.Valid() && Starts(s)
    ensures var t := Feed(c, s, frames);
            && s.blocks <= t.blocks && s.signals <= t.signals
            && Counting(c, Since(s, t), frames)
  {
    hide Feed, Announced;
    LaterPeriod(c, s, frames);
    FirstSignals(After(c, s.blocks), frames);
    assert forall k: nat :: Announced(After(c, s.blocks), k) == Announced(c, k) by {
      SameAnnounced(c, s.blocks);
    }
  }

  lemma SameAnnounced(c: Config, history: seq<seq<Sample>>)
    requires c.Valid()
    ensures forall k: nat :: Announced(After(c, history), k) == Announced(c, k)
  {
  }

  lemma {:induction false} FirstSignals(c: Config, frames: seq<Sample>)
    requires c.Valid()
    ensures Counting(c, Feed(c, CLEARED, frames), frames)
  {
    hide Take, Announced;
    FramesCounted(c, CLEARED, frames);
    if frames == [] {
      NoneAnnounced(c);
    } else {
      var front := frames[..|frames| - 1];
      FirstSignals(c, front);
      FramesCounted(c, CLEARED, front);
      NextSignal(c, Feed(c, CLEARED, front), frames[|frames| - 1]);
    }
  }

  lemma NextSignal(c: Config, s: State, x: Sample)
    requires c.Valid() && |s.pending| < c.BlockFrames() && Announcing(c, s)
    ensures Announcing(c, Take(c, s, [x]))
  {
    hide Filtered, Announced;
    NextAnnounced(c, |s.signals|);
  }

  lemma NoneAnnounced(c: Config)
    requires c.Valid()
    ensures Announced(c, 0) == 0
  {
  }

  lemma NextAnnounced(c: Config, k: nat)
    requires c.Valid()
    ensures c.factor == 1 || Announced(c, k) < CAPACITY - c.n ==> Announced(c, k + 1) == Announced(c, k) + c.n
    ensures c.factor > 1 && Announced(c, k) >= CAPACITY - c.n ==> Announced(c, k + 1) == Announced(c, k)
  {
    hide MoreBlocks;
    RoomForBlock(c, k);
    assert (k + 1) * c.n == k * c.n + c.n;
  }

  // ----- what is stored -----

  /** Without down-sampling: the frames themselves. */
  lemma {:induction false} StoredDirectly(c: Config, s: State, frames: seq<Sample>)
    requires c.factor == 1
    ensures Feed(c, s, frames).stored == s.stored + frames
  {
    if frames != [] {
      StoredDirectly(c, s, frames[..|frames| - 1]);
    }
  }

  /** The first blocks of a period. */
  function Blocks(frames: seq<Sample>, size: nat, k: nat): seq<seq<Sample>>
    requires k * size <= |frames|
  {
    if k == 0 then []
    else
      assert (k - 1) * size == k * size - size;
      Blocks(frames, size, k - 1) + [frames[(k - 1) * size..k * size]]
  }

  /** What the filter makes of them, one after the other. */
  function Outputs(c: Config, blocks: seq<seq<Sample>>): seq<Sample> {
    if blocks == [] then [] else Outputs(c, blocks[..|blocks| - 1]) + Filtered(c, blocks)
  }

  lemma {:induction false} BlocksOfFront(frames: seq<Sample>, x: Sample, size: nat, k: nat)
    requires k * size <= |frames|
    ensures Blocks(frames + [x], size, k) == Blocks(frames, size, k)
  {
    if k > 0 {
      assert (k - 1) * size == k * size - size;
      BlocksOfFront(frames, x, size, k - 1);
      SliceOfFront(frames, x, (k - 1) * size, k * size);
    }
  }

  lemma SliceOfFront(frames: seq<Sample>, x: Sample, i: nat, j: nat)
    requires i <= j <= |frames|
    ensures (frames + [x])[i..j] == frames[i..j]
    ensures (frames + [x])[i..] == frames[i..] + [x]
  {
  }

  /** The frames up to some point of the period, cut into blocks: signals counts them all,
      and as many of them as there is room for went through the filter. */
  ghost predicate Cut(c: Config, s: State, frames: seq<Sample>)
    requires c.Valid()
  {
    var k, size := |s.signals|, c.BlockFrames();
    && k * size <= |frames| && |s.pending| < size && s.pending == frames[k * size..]
    && |s.blocks| <= k && |s.blocks| * size <= |frames|
    && s.blocks == Blocks(frames, size, |s.blocks|) && s.stored == Outputs(c, s.blocks)
    && |s.blocks| == if k < MaxBlocks(c) then k else MaxBlocks(c)
  }

  /** What a down-sampled buffer holds in the course of any period: the filter's output for
      the blocks, each in its place, up to the last block that leaves the buffer short of
      full. The filter starts as the blocks of earlier periods left it. */
  lemma StoredIsFiltered(c: Config, s: State, frames: seq<Sample>)
    requires c.Valid() && c.factor > 1 && Starts(s)
    ensures var t := Feed(c, s, frames);
            s.blocks <= t.blocks && s.signals <= t.signals && Cut(After(c, s.blocks), Since(s, t), frames)
  {
    hide Feed, Cut;
    LaterPeriod(c, s, frames);
    FirstStored(After(c, s.blocks), frames);
  }

  /** Sample by sample: the `k`th sample stored for the `j`th block of the period is the
      filter's `k`th output once it was handed the blocks up to that one, after those of
      earlier periods. */
  lemma SampleIs(c: Config, s: State, frames: seq<Sample>, j: nat, k: nat)
    requires c.Valid() && c.factor > 1 && Starts(s) && k < c.n && j * c.n + k < |Feed(c, s, frames).stored|
    ensures (j + 1) * c.BlockFrames() <= |frames|
    ensures Feed(c, s, frames).stored[j * c.n + k] == c.filter(s.blocks + Blocks(frames, c.BlockFrames(), j + 1), k)
  {
    hide Feed, Blocks, Outputs, Config.BlockFrames, Cut;
    StoredIsFiltered(c, s, frames);
    var later, t := After(c, s.blocks), Since(s, Feed(c, s, frames));
    CutGives(c, s.blocks, t, frames);
    OutputsLength(later, t.blocks);
    InWhole(|t.blocks|, c.n, j, k);
    OutputAt(later, t.blocks, j, k);
    BlocksPrefix(frames, c.BlockFrames(), |t.blocks|, j + 1);
  }

  lemma CutGives(c: Config, history: seq<seq<Sample>>, t: State, frames: seq<Sample>)
    requires c.Valid() && Cut(After(c, history), t, frames)
    ensures |t.blocks| * c.BlockFrames() <= |frames| && t.blocks == Blocks(frames, c.BlockFrames(), |t.blocks|)
    ensures t.stored == Outputs(After(c, history), t.blocks)
  {
    hide Blocks, Outputs;
  }

  lemma InWhole(count: nat, n: nat, j: nat, k: nat)
    requires k < n && j * n + k < count * n
    ensures j < count
  {
    var d: int := count - j;
    assert n * d == count * n - j * n;
    MulGap(n, d);
  }

  /** The blocks are the frames in order, `size` of them in each. */
  lemma {:induction false} BlockIs(frames: seq<Sample>, size: nat, k: nat, j: nat)
    requires k * size <= |frames| && j < k
    ensures |Blocks(frames, size, k)| == k
    ensures (j + 1) * size <= |frames| && Blocks(frames, size, k)[j] == frames[j * size..(j + 1) * size]
  {
    assert (k - 1) * size == k * size - size;
    BlocksLength(frames, size, k - 1);
    if j < k - 1 {
      BlockIs(frames, size, k - 1, j);
    }
  }

  lemma {:induction false} BlocksLength(frames: seq<Sample>, size: nat, k: nat)
    requires k * size <= |frames|
    ensures |Blocks(frames, size, k)| == k
  {
    if k > 0 {
      assert (k - 1) * size == k * size - size;
      BlocksLength(frames, size, k - 1);
    }
  }

  lemma {:induction false} BlocksPrefix(frames: seq<Sample>, size: nat, k: nat, j: nat)
    requires k * size <= |frames| && j <= k
    ensures |Blocks(frames, size, k)| == k
    ensures j * size <= |frames| && Blocks(frames, size, k)[..j] == Blocks(frames, size, j)
  {
    BlocksLength(frames, size, k);
    if j < k {
      assert (k - 1) * size == k * size - size;
      BlocksPrefix(frames, size, k - 1, j);
    }
  }

  lemma {:induction false} OutputAt(c: Config, blocks: seq<seq<Sample>>, j: nat, k: nat)
    requires c.Valid() && j < |blocks| && k < c.n
    ensures 0 <= j * c.n + k < |Outputs(c, blocks)|
    ensures Outputs(c, blocks)[j * c.n + k] == c.filter(blocks[..j + 1], k)
  {
    var front := blocks[..|blocks| - 1];
    OutputsLength(c, front);
    assert j * c.n >= 0;
    if j < |front| {
      OutputAt(c, front, j, k);
      assert front[..j + 1] == blocks[..j + 1];
    } else {
      assert blocks[..|blocks|] == blocks;
    }
  }

  lemma {:induction false} OutputsLength(c: Config, blocks: seq<seq<Sample>>)
    ensures |Outputs(c, blocks)| == |blocks| * c.n
  {
    if blocks != [] {
      OutputsLength(c, blocks[..|blocks| - 1]);
      assert |blocks| * c.n == (|blocks| - 1) * c.n + c.n;
    }
  }

  lemma {:induction false} FirstStored(c: Config, frames: seq<Sample>)
    requires c.Valid() && c.factor > 1
    ensures Cut(c, Feed(c, CLEARED, frames), frames)
  {
    if frames == [] {
      assert Cut(c, CLEARED, []);
    } else {
      var front, x := frames[..|frames| - 1], frames[|frames| - 1];
      assert frames == front + [x];
      FirstStored(c, front);
      FirstSignals(c, front);
      CutStep(c, Feed(c, CLEARED, front), front, x);
    }
  }

  lemma CutStep(c: Config, s: State, frames: seq<Sample>, x: Sample)
    requires c.Valid() && c.factor > 1 && Cut(c, s, frames) && |s.stored| == Announced(c, |s.signals|)
    ensures Cut(c, Take(c, s, [x]), frames + [x])
  {
    hide Filtered, Announced, MaxBlocks, Blocks, Outputs, Config.BlockFrames, Complete;
    var k, size, m := |s.signals|, c.BlockFrames(), |s.blocks|;
    BlocksOfFront(frames, x, size, m);
    SliceOfFront(frames, x, k * size, k * size);
    if |s.pending| + 1 == size {
      CutBlock(c, s, frames, x);
    }
  }

  lemma CutBlock(c: Config, s: State, frames: seq<Sample>, x: Sample)
    requires c.Valid() && c.factor > 1 && Cut(c, s, frames) && |s.stored| == Announced(c, |s.signals|)
    requires |s.pending| + 1 == c.BlockFrames()
    ensures Cut(c, Complete(c, s, s.pending + [x]), frames + [x])
  {
    hide Filtered, Announced, MaxBlocks, Blocks, Outputs, Config.BlockFrames;
    var k, size, m := |s.signals|, c.BlockFrames(), |s.blocks|;
    var block := s.pending + [x];
    BlocksOfFront(frames, x, size, m);
    SliceOfFront(frames, x, k * size, k * size);
    RoomForBlock(c, k);
    assert (k + 1) * size == k * size + size;
    assert (frames + [x])[(k + 1) * size..] == [];
    if k < MaxBlocks(c) {
      NextBlock(c, frames + [x], size, k, s.blocks, block);
    }
  }

  lemma NextBlock(c: Config, frames: seq<Sample>, size: nat, k: nat, blocks: seq<seq<Sample>>, block: seq<Sample>)
    requires k * size <= |frames| == (k + 1) * size
    requires blocks == Blocks(frames, size, k) && block == frames[k * size..]
    ensures blocks + [block] == Blocks(frames, size, k + 1)
    ensures Outputs(c, blocks + [block]) == Outputs(c, blocks) + Filtered(c, blocks + [block])
  {
    assert frames[k * size..] == frames[k * size..(k + 1) * size];
    assert (blocks + [block])[..|blocks + [block]| - 1] == blocks;
  }

  lemma RoomForBlock(c: Config, k: nat)
    requires c.Valid()
    ensures c.factor > 1 ==> (Announced(c, k) < CAPACITY - c.n <==> k < MaxBlocks(c))
  {
    hide MoreBlocks;
    RoomForOne(c, 0, k);
    RoomForOne(c, 0, MaxBlocks(c));
    assert k * c.n == c.n * k && MaxBlocks(c) * c.n == c.n * MaxBlocks(c);
  }

  // ----- the device -----

  class Detector {
    const channel: Channel
    const factor: nat
    const filter: Filter
    var blockSize: nat
    /** De-interleaved frames of the block being filled; used only when down-sampling. */
    const buffer: array<Sample>
    var bufferPos: nat
    const d2: array<Sample>
    var kin: nat
    /** Milliseconds into the period at the last write. */
    var lastWrite: nat
    var signals: seq<nat>
    /** What the filter was handed so far. */
    var blocks: seq<seq<Sample>>

    ghost predicate Valid()
      reads `blockSize, `bufferPos, `kin
    {
      && 0 < factor && 0 < blockSize <= MAX_BUFFER_SIZE
      && buffer != d2 && buffer.Length == MAX_BUFFER_SIZE * factor && d2.Length == CAPACITY
      && kin <= CAPACITY && bufferPos < blockSize * factor
      && (factor == 1 ==> bufferPos <= kin)
    }

    ghost function Settings(): (c: Config)
      requires Valid()
      reads `blockSize, `bufferPos, `kin
      ensures c.Valid()
    {
      Config(blockSize, factor, filter)
    }

    ghost function Contents(): (s: State)
      requires Valid()
      reads `blockSize, `bufferPos, `kin, `signals, `blocks, buffer, d2
      ensures Reachable(Settings(), s) && |s.stored| == kin && |s.pending| == bufferPos
    {
      InBuffer(blockSize, factor, bufferPos);
      State(d2[..kin], if factor > 1 then buffer[..bufferPos] else d2[kin - bufferPos..kin], blocks, signals)
    }

    constructor (channel: Channel, factor: nat, filter: Filter)
      requires factor > 0
      ensures Valid() && fresh(buffer) && fresh(d2) && Contents() == CLEARED
      ensures this.channel == channel && this.factor == factor && this.filter == filter && blockSize == MAX_BUFFER_SIZE
    {
      this.channel, this.factor, this.filter := channel, factor, filter;
      blockSize, bufferPos, kin, lastWrite, signals, blocks := MAX_BUFFER_SIZE, 0, 0, 999999, [], [];
      buffer, d2 := new Sample[MAX_BUFFER_SIZE * factor], new Sample[CAPACITY];
    }

    /** The frames that wait must not already exceed the new block. */
    method SetBlockSize(n: nat)
      requires Valid() && 0 < n <= MAX_BUFFER_SIZE && bufferPos < n * factor
      modifies `blockSize
      ensures Valid() && blockSize == n && Contents() == old(Contents())
    {
      blockSize := n;
    }

    method Clear()
      requires Valid()
      modifies `kin, `bufferPos
      ensures Valid() && Contents() == Restarted(old(Contents()), true)
    {
      kin, bufferPos := 0, 0;
    }

    /** fil4_: one block in, a factor fewer samples out, appended to what is stored. */
    method RunFilter(n: nat)
      requires n == blockSize <= CAPACITY - kin && 0 < factor && buffer != d2
      requires buffer.Length == MAX_BUFFER_SIZE * factor && d2.Length == CAPACITY && n * factor <= buffer.Length
      modifies d2, `blocks
      ensures blocks == old(blocks) + [buffer[..n * factor]]
      ensures d2[..kin + n] == old(d2[..kin]) + Filtered(Config(n, factor, filter), blocks)
    {
      blocks := blocks + [buffer[..n * factor]];
      ghost var block := buffer[..n * factor];
      forall i | kin <= i < kin + n {
        d2[i] := filter(blocks, i - kin);
      }
      assert buffer[..n * factor] == block;
      assert d2[..kin + n] == d2[..kin] + d2[kin..kin + n];
      assert d2[kin..kin + n] == Filtered(Config(n, factor, filter), blocks);
    }

    /** Takes in frames up to the end of the block, and has the filter store the block when
        it is complete. */
    method TakeDown(data: seq<Sample>, first: nat, count: nat)
      requires Valid() && factor > 1
      requires 0 < count <= blockSize * factor - bufferPos && first + count <= |data| / Words(channel)
      modifies `kin, `bufferPos, `signals, `blocks, buffer, d2
      ensures Valid()
      ensures Contents() == Take(Settings(), old(Contents()), Picked(channel, data)[first..first + count])
    {
      hide Picked, Complete;
      ghost var c, before, frames := Settings(), Contents(), Picked(channel, data)[first..first + count];
      InBuffer(blockSize, factor, bufferPos);
      Store(channel, data, first, count, buffer, bufferPos);
      assert buffer[..bufferPos + count] == buffer[..bufferPos] + buffer[bufferPos..bufferPos + count];
      bufferPos := bufferPos + count;
      assert buffer[..bufferPos] == before.pending + frames && d2[..kin] == before.stored;
      if bufferPos == blockSize * factor {
        PendingIsTaken(c, before, before.pending + frames);
        EndBlock();
      }
    }

    /** The block is complete: the filter has its room for it, or it is dropped. */
    method EndBlock()
      requires factor > 1 && 0 < blockSize <= MAX_BUFFER_SIZE && bufferPos == blockSize * factor && kin <= CAPACITY
      requires buffer != d2 && buffer.Length == MAX_BUFFER_SIZE * factor >= bufferPos && d2.Length == CAPACITY
      modifies `kin, `bufferPos, `signals, `blocks, d2
      ensures Valid()
      ensures Contents() == Complete(Settings(), State(old(d2[..kin]), [], old(blocks), old(signals)),
                                     old(buffer[..bufferPos]))
    {
      hide Filtered;
      if kin < CAPACITY - blockSize {
        RunFilter(blockSize);
        kin := kin + blockSize;
      }
      signals := signals + [kin];
      bufferPos := 0;
    }

    /** Stores frames as they are, up to the end of the block. */
    method TakeDirect(data: seq<Sample>, first: nat, count: nat)
      requires Valid() && factor == 1 && kin + count <= CAPACITY
      requires 0 < count <= blockSize - bufferPos && first + count <= |data| / Words(channel)
      modifies `kin, `bufferPos, `signals, d2
      ensures Valid() && kin == old(kin) + count
      ensures Contents() == Take(Settings(), old(Contents()), Picked(channel, data)[first..first + count])
    {
      hide Picked, Filtered;
      Store(channel, data, first, count, d2, kin);
      assert d2[..kin + count] == d2[..kin] + d2[kin..kin + count];
      assert d2[kin - bufferPos..kin + count] == d2[kin - bufferPos..kin] + d2[kin..kin + count];
      bufferPos := bufferPos + count;
      kin := kin + count;
      if bufferPos == blockSize {
        signals := signals + [kin];
        bufferPos := 0;
      }
    }

    /** One round of writeData's loop: what the block still takes of the remaining frames. */
    method TakeSome(data: seq<Sample>, first: nat, remaining: nat) returns (count: nat)
      requires Valid() && 0 < remaining && first + remaining <= |data| / Words(channel)
      requires factor == 1 ==> kin + remaining <= CAPACITY
      modifies `kin, `bufferPos, `signals, `blocks, buffer, d2
      ensures Valid() && 0 < count <= remaining && old(bufferPos) + count <= Settings().BlockFrames()
      ensures factor == 1 ==> kin == old(kin) + count
      ensures Contents() == Take(Settings(), old(Contents()), Picked(channel, data)[first..first + count])
    {
      hide Picked, Take, Contents;
      count := blockSize * factor - bufferPos;
      if remaining < count {
        count := remaining;
      }
      if factor > 1 {
        TakeDown(data, first, count);
      } else {
        TakeDirect(data, first, count);
      }
    }

    method TakeAll(data: seq<Sample>, accepted: nat)
      requires Valid() && accepted <= |data| / Words(channel)
      requires factor == 1 ==> kin + accepted <= CAPACITY
      modifies `kin, `bufferPos, `signals, `blocks, buffer, d2
      ensures Valid() && Contents() == Feed(Settings(), old(Contents()), Picked(channel, data)[..accepted])
    {
      hide Picked, Take, Feed, Contents, Config.BlockFrames;
      ghost var c, start, frames := Settings(), Contents(), Picked(channel, data);
      var remaining := accepted;
      NothingFed(c, start);
      while remaining != 0
        invariant Valid() && 0 <= remaining <= accepted <= |frames|
        invariant factor == 1 ==> kin + remaining <= CAPACITY
        invariant Contents() == Feed(c, start, frames[..accepted - remaining])
      {
        ghost var before := Contents();
        var first := accepted - remaining;
        var count := TakeSome(data, first, remaining);
        FeedOn(c, start, before, frames, first, count);
        remaining := remaining - count;
      }
    }

    /** Takes in as many frames as the buffer may still hold and drops the others; the
        buffer starts again when the time within the period has gone back. */
    method WriteData(data: seq<Sample>, now: nat) returns (written: nat)
      requires Valid() && |data| % Words(channel) == 0
      modifies `kin, `bufferPos, `lastWrite, `signals, `blocks, buffer, d2
      ensures Valid() && lastWrite == now && written == |data|
      ensures Contents() == Write(Settings(), Restarted(old(Contents()), now < old(lastWrite)), Picked(channel, data))
    {
      hide Picked, Feed, Contents;
      if now < lastWrite {
        Clear();
      }
      lastWrite := now;
      var acceptable: nat := (CAPACITY - kin) * factor;
      var accepted := |data| / Words(channel);
      if acceptable < accepted {
        accepted := acceptable;
      }
      TakeAll(data, accepted);
      written := |data|;
    }
  }

  /** The period wrapped around: the buffer starts again, what was announced stays so. */
  function Restarted(s: State, wrapped: bool): State {
    if wrapped then s.(stored := [], pending := []) else s
  }

  lemma PendingIsTaken(c: Config, s: State, block: seq<Sample>)
    ensures Complete(c, s, block) == Complete(c, s.(pending := []), block)
  {
  }

  lemma FeedOn(c: Config, start: State, s: State, frames: seq<Sample>, first: nat, count: nat)
    requires 0 < count && first + count <= |frames| && |s.pending| + count <= c.BlockFrames()
    requires s == Feed(c, start, frames[..first])
    ensures Take(c, s, frames[first..first + count]) == Feed(c, start, frames[..first + count])
  {
    TakeIsFeed(c, s, frames[first..first + count]);
    FeedAppend(c, start, frames[..first], frames[first..first + count]);
    assert frames[..first + count] == frames[..first] + frames[first..first + count];
  }

  lemma NothingFed(c: Config, s: State)
    ensures forall frames: seq<Sample> :: Feed(c, s, frames[..0]) == s
  {
  }

  lemma InBuffer(n: nat, factor: nat, pos: nat)
    requires n <= MAX_BUFFER_SIZE && pos < n * factor
    ensures pos < MAX_BUFFER_SIZE * factor && n * factor <= MAX_BUFFER_SIZE * factor
  {
    assert (MAX_BUFFER_SIZE - n) * factor >= 0;
  }
}
