/** Samples in and out of interleaved sound card frames (Audio/AudioDevice.hpp). */
module AudioDevice {
  type Sample = x: int | -0x8000 <= x < 0x8000

  datatype Channel = Mono | Left | Right | Both

  /** 16-bit words to a frame. */
  function Words(c: Channel): nat {
    if c.Mono? then 1 else 2
  }

  /** The sample taken from the k-th frame. */
  function Pick(c: Channel, source: seq<Sample>, k: nat): Sample
    requires k < |source| / Words(c)
  {
    match c
    case Mono => source[k]
    case Right => source[2 * k + 1]
    case _ => source[2 * k]
  }

  function Picked(c: Channel, source: seq<Sample>): (r: seq<Sample>)
    ensures |r| == |source| / Words(c)
  {
    seq(|source| / Words(c), k requires 0 <= k < |source| / Words(c) => Pick(c, source, k))
  }

  /** De-interleaves frames of the source into consecutive places of the destination. */
  method Store(c: Channel, source: seq<Sample>, first: nat, numFrames: nat, dest: array<Sample>, at: nat)
    requires first + numFrames <= |source| / Words(c)
    requires at + numFrames <= dest.Length
    modifies dest
    ensures dest[at..at + numFrames] == Picked(c, source)[first..first + numFrames]
    ensures dest[..at] == old(dest[..at]) && dest[at + numFrames..] == old(dest[at + numFrames..])
  {
    var i := 0;
    while i != numFrames
      invariant i <= numFrames
      invariant dest[at..at + i] == Picked(c, source)[first..first + i]
      invariant dest[..at] == old(dest[..at]) && dest[at + numFrames..] == old(dest[at + numFrames..])
      decreases numFrames - i
    {
      var sample := match c
        case Mono => source[first + i]
        case Right => source[2 * (first + i) + 1]
        case _ => source[2 * (first + i)];
      assert sample == Picked(c, source)[first + i];
      hide Picked;
      ghost var before := dest[..];
      dest[at + i] := sample;
      assert dest[..] == before[at + i := sample];
      assert dest[at..at + i + 1] == before[at..at + i] + [sample];
      i := i + 1;
    }
  }

  /** One frame carrying a sample, with silence in the channel that is not used. */
  function Frame(c: Channel, sample: Sample): (r: seq<Sample>)
    ensures |r| == Words(c)
  {
    match c
    case Mono => [sample]
    case Left => [sample, 0]
    case Right => [0, sample]
    case Both => [sample, sample]
  }

  method Load(c: Channel, sample: Sample, dest: array<Sample>, at: nat) returns (next: nat)
    requires at + Words(c) <= dest.Length
    modifies dest
    ensures next == at + Words(c) && dest[at..next] == Frame(c, sample)
    ensures dest[..at] == old(dest[..at]) && dest[next..] == old(dest[next..])
  {
    match c {
      case Mono =>
        dest[at] := sample;
      case Left =>
        dest[at], dest[at + 1] := sample, 0;
      case Right =>
        dest[at], dest[at + 1] := 0, sample;
      case Both =>
        dest[at], dest[at + 1] := sample, sample;
    }
    next := at + Words(c);
  }

  function Frames(c: Channel, samples: seq<Sample>): (r: seq<Sample>)
    ensures |r| == Words(c) * |samples|
  {
    if samples == [] then [] else Frames(c, samples[..|samples| - 1]) + Frame(c, samples[|samples| - 1])
  }

  /** Whatever the channel, samples loaded into frames are stored from them unchanged. */
  lemma {:induction false} StoredAsLoaded(c: Channel, samples: seq<Sample>)
    ensures Picked(c, Frames(c, samples)) == samples
  {
    if samples != [] {
      var front := samples[..|samples| - 1];
      StoredAsLoaded(c, front);
      forall k | 0 <= k < |front|
        ensures Pick(c, Frames(c, samples), k) == front[k]
      {
        PickAppend(c, Frames(c, front), Frame(c, samples[|front|]), k);
        assert Picked(c, Frames(c, front))[k] == front[k];
      }
    }
  }

  lemma PickAppend(c: Channel, source: seq<Sample>, more: seq<Sample>, k: nat)
    requires k < |source| / Words(c)
    ensures Pick(c, source + more, k) == Pick(c, source, k)
  {
  }

  // ----- which channel is which -----

  /** Stereo frames: left sample first. */
  function Interleaved(left: seq<Sample>, right: seq<Sample>): (r: seq<Sample>)
    requires |left| == |right|
    ensures |r| == 2 * |left|
  {
    seq(2 * |left|, i requires 0 <= i < 2 * |left| => if i % 2 == 0 then left[i / 2] else right[i / 2])
  }

  /** Each setting stores its own channel, and the left one stands for both. */
  lemma ChannelsStored(left: seq<Sample>, right: seq<Sample>)
    requires |left| == |right|
    ensures Picked(Left, Interleaved(left, right)) == left && Picked(Right, Interleaved(left, right)) == right
    ensures Picked(Both, Interleaved(left, right)) == left && Picked(Mono, left) == left
  {
    var s := Interleaved(left, right);
    forall k | 0 <= k < |left| ensures s[2 * k] == left[k] && s[2 * k + 1] == right[k] {
    }
  }

  function Silence(n: nat): (r: seq<Sample>)
    ensures |r| == n
  {
    seq(n, _ => 0)
  }

  /** Each setting loads its own channel and leaves the other one silent. */
  lemma {:induction false} ChannelsLoaded(samples: seq<Sample>)
    ensures Frames(Left, samples) == Interleaved(samples, Silence(|samples|))
    ensures Frames(Right, samples) == Interleaved(Silence(|samples|), samples)
    ensures Frames(Both, samples) == Interleaved(samples, samples) && Frames(Mono, samples) == samples
  {
    hide Interleaved, Frames, Frame, Silence;
    if samples == [] {
      NothingLoaded();
    } else {
      var front, x := samples[..|samples| - 1], samples[|samples| - 1];
      var silence := Silence(|front|);
      assert samples == front + [x];
      ChannelsLoaded(front);
      FramesSnoc(front, x);
      SilenceSnoc(|front|);
      InterleavedSnoc(front, silence, x, 0);
      InterleavedSnoc(silence, front, 0, x);
      InterleavedSnoc(front, front, x, x);
    }
  }

  lemma NothingLoaded()
    ensures forall c :: Frames(c, []) == []
    ensures Interleaved([], []) == [] && Silence(0) == []
  {
  }

  lemma FramesSnoc(samples: seq<Sample>, x: Sample)
    ensures Frames(Left, samples + [x]) == Frames(Left, samples) + [x, 0]
    ensures Frames(Right, samples + [x]) == Frames(Right, samples) + [0, x]
    ensures Frames(Both, samples + [x]) == Frames(Both, samples) + [x, x]
    ensures Frames(Mono, samples + [x]) == Frames(Mono, samples) + [x]
  {
    assert (samples + [x])[..|samples|] == samples;
  }

  lemma SilenceSnoc(n: nat)
    ensures Silence(n + 1) == Silence(n) + [0]
  {
  }

  lemma InterleavedSnoc(left: seq<Sample>, right: seq<Sample>, l: Sample, r: Sample)
    requires |left| == |right|
    ensures Interleaved(left + [l], right + [r]) == Interleaved(left, right) + [l, r]
  {
  }
}
