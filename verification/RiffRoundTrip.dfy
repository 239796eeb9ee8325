/** Reading a finished file gives back what was written into it. */
module RiffRoundTrip {
  import opened Bytes
  import opened Wrappers
  import opened RiffReader
  import opened RiffImage

  lemma AtSplit(s: bytes, off: nat, a: bytes, b: bytes)
    requires At(s, off, a + b)
    ensures At(s, off, a) && At(s, off + |a|, b)
  {
    var w := s[off..off + |a + b|];
    assert w[..|a|] == a && w[|a|..] == b;
    assert s[off..off + |a|] == w[..|a|] && s[off + |a|..off + |a| + |b|] == w[|a|..];
  }

  lemma AtPadded(s: bytes, off: nat, c: bytes, rest: bytes)
    requires At(s, off, Padded(c) + rest)
    ensures At(s, off, c) && At(s, off + |c| + |c| % 2, rest)
  {
    AtSplit(s, off, Padded(c), rest);
    if |c| % 2 == 1 {
      AtSplit(s, off, c, [0]);
    }
  }

  /** Where a chunk lies in a file, the reader finds its identifier, size and payload. */
  lemma AtChunk(s: bytes, off: nat, big: bool, id: bytes, payload: bytes)
    requires At(s, off, Chunk(big, id, payload)) && |id| == 4 && |payload| < 0x1_0000_0000
    ensures off + 8 + |payload| <= |s|
    ensures s[off..off + 4] == id && U32(big, s[off + 4..off + 8]) == |payload|
    ensures s[off + 8..off + 8 + |payload|] == payload
  {
    hide Enc, U32;
    var size := Enc(big, |payload|, 4);
    AtSplit(s, off, id + size, payload);
    AtSplit(s, off, id, size);
    SizeBack(big, |payload|);
  }

  lemma SizeBack(big: bool, size: nat)
    requires size < 0x1_0000_0000
    ensures U32(big, Enc(big, size, 4)) == size
  {
    DecEnc(big, size, 4);
    Widths();
  }

  // ----- the INFO dictionary -----

  function ReadBack(m: map<bytes, bytes>, es: seq<Entry>): map<bytes, bytes>
    decreases |es|
  {
    if es == [] then m else ReadBack(m[DescId(es[0].key) := es[0].value + [0]], es[1..])
  }

  predicate Readable(es: seq<Entry>) {
    forall e :: e in es ==> |e.value| + 1 <= MAX_READ
  }

  lemma InfoTurn(s: bytes, big: bool, off: nat, e: Entry, payloadEnd: int, chunkEnd: int, sc: Scan)
    requires Addressable(s) && payloadEnd <= chunkEnd <= |s|
    requires At(s, off, InfoChunk(big, e)) && |e.value| + 1 <= MAX_READ
    requires off + |InfoChunk(big, e)| <= payloadEnd && off + |Padded(InfoChunk(big, e))| <= chunkEnd
    ensures var r := InfoStep(s, big, off, payloadEnd, chunkEnd, sc);
            && r.Next? && r.end == off + |Padded(InfoChunk(big, e))|
            && r.scan == sc.(info := sc.info[DescId(e.key) := e.value + [0]], visits := r.scan.visits)
  {
    hide At, U32, DescId, Enc, Padded, CheckedChunkEnd, CheckedPayloadEnd, Chunk;
    AtChunk(s, off, big, DescId(e.key), e.value + [0]);
  }

  lemma {:induction false} InfoRead(s: bytes, big: bool, off: nat, es: seq<Entry>, payloadEnd: int, chunkEnd: int,
                                    sc: Scan)
    requires Addressable(s) && Readable(es) && At(s, off, Join(InfoChunks(big, es)))
    requires payloadEnd == off + |Join(InfoChunks(big, es))|
    requires chunkEnd == off + |Padded(Join(InfoChunks(big, es)))| <= |s|
    ensures var r := InfoLoop(s, big, off, payloadEnd, chunkEnd, sc);
            r.ok && r.scan == sc.(info := ReadBack(sc.info, es), visits := r.scan.visits)
    decreases |es|
  {
    hide *;
    ReadBackCons(sc.info, es);
    if es == [] {
      JoinNone(big, es);
      InfoReadNone(s, big, off, payloadEnd, chunkEnd, sc);
    } else {
      var c, rest := InfoChunk(big, es[0]), InfoChunks(big, es[1..]);
      InfoChunksCons(big, es);
      ReadableCons(es);
      NextChunk(s, off, chunkEnd, c, rest);
      InfoTurn(s, big, off, es[0], payloadEnd, chunkEnd, sc);
      InfoTurns(s, big, off, payloadEnd, chunkEnd, sc);
      var sc1 := InfoStep(s, big, off, payloadEnd, chunkEnd, sc).scan;
      if rest == [] {
        InfoReadNone(s, big, chunkEnd, payloadEnd, chunkEnd, sc1);
      } else {
        InfoRead(s, big, off + |Padded(c)|, es[1..], payloadEnd, chunkEnd, sc1);
      }
    }
  }

  lemma InfoChunksCons(big: bool, es: seq<Entry>)
    requires es != []
    ensures InfoChunks(big, es) == [InfoChunk(big, es[0])] + InfoChunks(big, es[1..])
  {
    hide InfoChunk;
  }

  lemma ReadableCons(es: seq<Entry>)
    requires es != [] && Readable(es)
    ensures |es[0].value| + 1 <= MAX_READ && Readable(es[1..])
  {
  }

  lemma JoinNone(big: bool, es: seq<Entry>)
    requires es == []
    ensures Join(InfoChunks(big, es)) == []
  {
  }

  lemma ReadBackCons(m: map<bytes, bytes>, es: seq<Entry>)
    ensures es == [] ==> ReadBack(m, es) == m
    ensures es != [] ==> ReadBack(m, es) == ReadBack(m[DescId(es[0].key) := es[0].value + [0]], es[1..])
    ensures |es| == 1 ==> ReadBack(m, es) == m[DescId(es[0].key) := es[0].value + [0]]
  {
  }

  lemma InfoReadNone(s: bytes, big: bool, off: nat, payloadEnd: int, chunkEnd: int, sc: Scan)
    requires Addressable(s) && off <= |s| && payloadEnd <= chunkEnd <= |s| && payloadEnd <= off
    ensures InfoLoop(s, big, off, payloadEnd, chunkEnd, sc) == Outcome(true, sc)
    ensures ReadBack(sc.info, []) == sc.info
  {
  }

  // ----- the WAVE form -----

  /** A scan without its record of visits. */
  function Bare(sc: Scan): Scan {
    sc.(visits := [])
  }

  lemma WaveTurn(s: bytes, big: bool, off: nat, outerEnd: int, id: bytes, payload: bytes, sc: Scan)
    requires Addressable(s) && outerEnd <= |s| && |id| == 4 && |payload| < 0x1_0000_0000
    requires At(s, off, Chunk(big, id, payload)) && off + |Padded(Chunk(big, id, payload))| <= outerEnd
    ensures var p, end := off + 8, off + |Padded(Chunk(big, id, payload))|;
            && p + |payload| <= end && s[p..p + |payload|] == payload
            && var r := WaveChunk(s, big, id, p, |payload|, end,
               sc.(visits := sc.visits + [Visit(1, off, p, |payload|, end)]));
               WaveLoop(s, big, off, outerEnd, sc) == if r.ok then WaveLoop(s, big, end, outerEnd, r.scan) else r
  {
    hide At, U32, Enc, Padded, CheckedChunkEnd, CheckedPayloadEnd, Chunk, WaveChunk;
    AtChunk(s, off, big, id, payload);
  }

  /** Splits the chunks still to be read into the next one and the others. */
  lemma NextChunk(s: bytes, off: nat, end: nat, c: bytes, tail: seq<bytes>)
    requires At(s, off, Join([c] + tail)) && end == off + |Padded(Join([c] + tail))|
    ensures At(s, off, c) && off + |Padded(c)| <= end
    ensures |Join([c] + tail)| == if tail == [] then |c| else |Padded(c)| + |Join(tail)|
    ensures tail == [] ==> off + |Padded(c)| == end
    ensures tail != [] ==> At(s, off + |Padded(c)|, Join(tail)) && end == off + |Padded(c)| + |Padded(Join(tail))|
  {
    hide *;
    if tail == [] {
      assert [c] + tail == [c];
      JoinOne(c);
    } else {
      JoinCons(c, tail);
      AtPadded(s, off, c, Join(tail));
    }
  }

  predicate ValidFormat(f: Format) {
    && ValidPcm(f.channels, f.rate, f.bits) && f.unsignedSamples == (f.bits == 8)
    && f.channels < 0x1_0000 && f.rate < 0x1_0000_0000 && f.bits < 0x1_0000
  }

  lemma ReadFormatBack(f: Format)
    requires ValidFormat(f)
    ensures ReadFormat(f.big, FormatBytes(f)) == Some(f)
  {
    hide Enc;
    var b := FormatBytes(f);
    assert b[0..2] == Enc(f.big, 1, 2);
    assert b[2..4] == Enc(f.big, f.channels, 2);
    assert b[4..8] == Enc(f.big, f.rate, 4);
    assert b[14..16] == Enc(f.big, f.bits, 2);
    DecEnc(f.big, 1, 2);
    DecEnc(f.big, f.channels, 2);
    DecEnc(f.big, f.rate, 4);
    DecEnc(f.big, f.bits, 2);
    Widths();
  }

  lemma FormatTurn(s: bytes, off: nat, outerEnd: int, f: Format, sc: Scan) returns (sc1: Scan)
    requires Addressable(s) && outerEnd <= |s| && ValidFormat(f)
    requires At(s, off, Chunk(f.big, FMT, FormatBytes(f))) && off + 24 <= outerEnd
    ensures WaveLoop(s, f.big, off, outerEnd, sc) == WaveLoop(s, f.big, off + 24, outerEnd, sc1)
    ensures Bare(sc1) == Bare(sc).(format := f)
  {
    hide At, Chunk, FormatBytes, WaveLoop, ReadFormat;
    WaveTurn(s, f.big, off, outerEnd, FMT, FormatBytes(f), sc);
    ReadFormatBack(f);
    var p := off + 8;
    sc1 := WaveChunk(s, f.big, FMT, p, 16, p + 16, sc.(visits := sc.visits + [Visit(1, off, p, 16, p + 16)])).scan;
  }

  lemma DataTurn(s: bytes, big: bool, off: nat, outerEnd: int, samples: bytes, sc: Scan) returns (sc1: Scan)
    requires Addressable(s) && outerEnd <= |s| && |samples| < 0x1_0000_0000
    requires At(s, off, Chunk(big, DATA, samples)) && off + |Padded(Chunk(big, DATA, samples))| <= outerEnd
    ensures WaveLoop(s, big, off, outerEnd, sc) ==
            WaveLoop(s, big, off + |Padded(Chunk(big, DATA, samples))|, outerEnd, sc1)
    ensures Bare(sc1) == Bare(sc).(dataSize := |samples|, headerLength := off + 8)
    ensures off + 8 + |samples| <= |s| && s[off + 8..off + 8 + |samples|] == samples
  {
    hide At, Chunk, WaveLoop, Padded;
    WaveTurn(s, big, off, outerEnd, DATA, samples, sc);
    var p, end := off + 8, off + |Padded(Chunk(big, DATA, samples))|;
    sc1 := WaveChunk(s, big, DATA, p, |samples|, end,
      sc.(visits := sc.visits + [Visit(1, off, p, |samples|, end)])).scan;
  }

  lemma BextTurn(s: bytes, big: bool, off: nat, outerEnd: int, bext: bytes, sc: Scan) returns (sc1: Scan)
    requires Addressable(s) && outerEnd <= |s| && BEXT_SIZE <= |bext| <= MAX_READ
    requires At(s, off, Chunk(big, BEXT, bext)) && off + |Padded(Chunk(big, BEXT, bext))| <= outerEnd
    ensures WaveLoop(s, big, off, outerEnd, sc) ==
            WaveLoop(s, big, off + |Padded(Chunk(big, BEXT, bext))|, outerEnd, sc1)
    ensures Bare(sc1) == Bare(sc).(bext := bext)
  {
    hide At, Chunk, WaveLoop, Padded;
    WaveTurn(s, big, off, outerEnd, BEXT, bext, sc);
    var p, end := off + 8, off + |Padded(Chunk(big, BEXT, bext))|;
    sc1 := WaveChunk(s, big, BEXT, p, |bext|, end, sc.(visits := sc.visits + [Visit(1, off, p, |bext|, end)])).scan;
  }

  lemma ListTurn(s: bytes, big: bool, off: nat, outerEnd: int, es: seq<Entry>, sc: Scan) returns (sc1: Scan)
    requires Addressable(s) && outerEnd <= |s| && Readable(es)
    requires var payload := INFO + Join(InfoChunks(big, es));
             && |payload| < 0x1_0000_0000
             && At(s, off, Chunk(big, LIST, payload)) && off + |Padded(Chunk(big, LIST, payload))| <= outerEnd
    ensures WaveLoop(s, big, off, outerEnd, sc)
         == WaveLoop(s, big, off + |Padded(Chunk(big, LIST, INFO + Join(InfoChunks(big, es))))|, outerEnd, sc1)
    ensures Bare(sc1) == Bare(sc).(info := ReadBack(sc.info, es))
  {
    hide At, Chunk, WaveLoop, WaveChunk, Padded, InfoLoop, Join, InfoChunks, ReadBack, Bare, Readable;
    var items := Join(InfoChunks(big, es));
    var payload := INFO + items;
    var p, end := off + 8, off + |Padded(Chunk(big, LIST, payload))|;
    WaveTurn(s, big, off, outerEnd, LIST, payload, sc);
    var sc0 := sc.(visits := sc.visits + [Visit(1, off, p, |payload|, end)]);
    assert At(s, p + 4, items) && s[p..p + 4] == INFO by {
      PayloadAt(s, p, INFO, items);
    }
    InfoRead(s, big, p + 4, es, p + |payload|, end, sc0);
    ListChunk(s, big, p, |payload|, end, sc0);
    sc1 := WaveChunk(s, big, LIST, p, |payload|, end, sc0).scan;
    BareOf(sc1, sc0, sc, ReadBack(sc.info, es));
  }

  lemma PayloadAt(s: bytes, p: nat, a: bytes, b: bytes)
    requires p + |a + b| <= |s| && s[p..p + |a + b|] == a + b
    ensures At(s, p + |a|, b) && s[p..p + |a|] == a
  {
    assert At(s, p, a + b);
    AtSplit(s, p, a, b);
  }

  lemma ListChunk(s: bytes, big: bool, p: nat, size: nat, end: int, sc: Scan)
    requires Addressable(s) && p + size <= end <= |s| && size >= 4 && s[p..p + 4] == INFO
    ensures WaveChunk(s, big, LIST, p, size, end, sc) == InfoLoop(s, big, p + 4, p + size, end, sc)
  {
    hide InfoLoop;
  }

  lemma BareOf(sc1: Scan, sc0: Scan, sc: Scan, info: map<bytes, bytes>)
    requires sc1 == sc0.(info := info, visits := sc1.visits) && sc0 == sc.(visits := sc0.visits)
    ensures Bare(sc1) == Bare(sc).(info := info)
  {
  }

  // ----- whole files -----

  /** What may be written: a PCM format, a bext block that is absent or of the struct's
      size at least, INFO values a QByteArray can hold, and a file RIFF sizes can count. */
  predicate Writable(f: Format, samples: bytes, bext: bytes, es: seq<Entry>) {
    && ValidFormat(f) && (bext == [] || BEXT_SIZE <= |bext| <= MAX_READ) && Readable(es)
    && |Image(f, samples, bext, es)| - CHUNK_HEADER < 0x1_0000_0000
  }

  function BodyOf(f: Format, samples: bytes, bext: bytes, es: seq<Entry>): bytes {
    Join(FileChunks(f, samples, bext, es))
  }

  lemma {:induction false} JoinBounds(cs: seq<bytes>, i: nat)
    requires i < |cs|
    ensures |cs[i]| <= |Join(cs)|
  {
    if i < |cs| - 1 {
      JoinBounds(cs[..|cs| - 1], i);
    }
  }

  /** The walk over the chunks of a finished file picks up each part in turn. */
  lemma BodyRead(s: bytes, off: nat, f: Format, samples: bytes, bext: bytes, es: seq<Entry>, sc: Scan)
    requires Addressable(s) && ValidFormat(f) && (bext == [] || BEXT_SIZE <= |bext| <= MAX_READ) && Readable(es)
    requires At(s, off, BodyOf(f, samples, bext, es)) && |s| == off + |Padded(BodyOf(f, samples, bext, es))|
    requires |BodyOf(f, samples, bext, es)| < 0x1_0000_0000
    ensures var r := WaveLoop(s, f.big, off, |s|, sc);
            && r.ok
            && Bare(r.scan) == Scan(f, if bext == [] then sc.bext else BextOnDisk(f.big, bext), ReadBack(sc.info, es),
                                    |samples|, off + 32, [])
            && off + 32 + |samples| <= |s| && s[off + 32..off + 32 + |samples|] == samples
  {
    hide At, Chunk, WaveLoop, Padded, Join, InfoChunks, ReadBack, Readable, FormatBytes, BextOnDisk, Enc;
    var big := f.big;
    var fmt, data := Chunk(big, FMT, FormatBytes(f)), Chunk(big, DATA, samples);
    var bexts := if bext == [] then [] else [Chunk(big, BEXT, BextOnDisk(big, bext))];
    var lists := if es == [] then [] else [Chunk(big, LIST, INFO + Join(InfoChunks(big, es)))];
    var cs := FileChunks(f, samples, bext, es);
    assert cs == [fmt] + ([data] + (bexts + lists));
    JoinBounds(cs, 1);
    NextChunk(s, off, |s|, fmt, [data] + (bexts + lists));
    var sc1 := FormatTurn(s, off, |s|, f, sc);
    NextChunk(s, off + 24, |s|, data, bexts + lists);
    var sc2 := DataTurn(s, big, off + 24, |s|, samples, sc1);
    TailRead(s, off + 24 + |Padded(data)|, big, bext, es, sc2);
  }

  lemma TailRead(s: bytes, off: nat, big: bool, bext: bytes, es: seq<Entry>, sc: Scan)
    requires Addressable(s) && (bext == [] || BEXT_SIZE <= |bext| <= MAX_READ) && Readable(es) && off <= |s|
    requires var tail := (if bext == [] then [] else [Chunk(big, BEXT, BextOnDisk(big, bext))]) +
                         (if es == [] then [] else [Chunk(big, LIST, INFO + Join(InfoChunks(big, es)))]);
             if tail == [] then off == |s|
             else At(s, off, Join(tail)) && |s| == off + |Padded(Join(tail))| && |Join(tail)| < 0x1_0000_0000
    ensures var r := WaveLoop(s, big, off, |s|, sc);
            && r.ok
            && Bare(r.scan) == Bare(sc).(
               bext := if bext == [] then sc.bext else BextOnDisk(big, bext), info := ReadBack(sc.info, es))
  {
    hide At, Chunk, Padded, Join, InfoChunks, ReadBack, Readable, BextOnDisk, WaveStep;
    var b, l := Chunk(big, BEXT, BextOnDisk(big, bext)), Chunk(big, LIST, INFO + Join(InfoChunks(big, es)));
    var off1, sc1 := off, sc;
    if bext != [] {
      var lists := if es == [] then [] else [l];
      JoinBounds([b] + lists, 0);
      NextChunk(s, off, |s|, b, lists);
      sc1 := BextTurn(s, big, off, |s|, BextOnDisk(big, bext), sc);
      off1 := off + |Padded(b)|;
    }
    var sc2, off2 := sc1, off1;
    if es != [] {
      assert [l] + [] == [l] && [] + [l] == [l];
      JoinBounds([l], 0);
      NextChunk(s, off1, |s|, l, []);
      sc2 := ListTurn(s, big, off1, |s|, es, sc1);
      off2 := |s|;
    }
    ReadBackCons(sc.info, es);
    WaveEnd(s, big, sc2);
  }

  lemma WaveEnd(s: bytes, big: bool, sc: Scan)
    requires Addressable(s)
    ensures WaveLoop(s, big, |s|, |s|, sc) == Outcome(true, sc)
  {
  }

  lemma ImageLayout(f: Format, samples: bytes, bext: bytes, es: seq<Entry>)
    requires |Image(f, samples, bext, es)| - CHUNK_HEADER < 0x1_0000_0000
    ensures var s, body := Image(f, samples, bext, es), BodyOf(f, samples, bext, es);
            && |s| == 12 + |Padded(body)| && |body| + 4 < 0x1_0000_0000
            && s[0..4] == RiffId(f.big) && U32(f.big, s[4..8]) == |body| + 4
            && s[8..12] == WAVE && At(s, 12, body)
  {
    var s, body := Image(f, samples, bext, es), BodyOf(f, samples, bext, es);
    hide FileChunks, Join, Chunk, RiffId, U32, Enc;
    var c := Chunk(f.big, RiffId(f.big), WAVE + body);
    assert s[..|c|] == c;
    assert At(s, 0, c);
    hide At, Padded, Image, BodyOf;
    AtChunk(s, 0, f.big, RiffId(f.big), WAVE + body);
    PayloadAt(s, 8, WAVE, body);
  }

  /** Reading a finished file succeeds and gives back the format, the sample data where
      the writer put it, the bext block as it was left on disk and every INFO value with
      the NUL it was written with. */
  lemma FileReadBack(f: Format, samples: bytes, bext: bytes, es: seq<Entry>, sc: Scan)
    requires Writable(f, samples, bext, es)
    ensures Addressable(Image(f, samples, bext, es))
    ensures var s := Image(f, samples, bext, es);
            var r := ReadHeader(s, sc);
            && r.ok
            && Bare(r.scan) == Scan(f, if bext == [] then sc.bext else BextOnDisk(f.big, bext), ReadBack(sc.info, es),
                                    |samples|, 44, [])
            && 44 + |samples| <= |s| && s[44..44 + |samples|] == samples
  {
    hide Image, BodyOf, At, Padded, WaveLoop, ReadBack, BextOnDisk, Readable;
    var s, body := Image(f, samples, bext, es), BodyOf(f, samples, bext, es);
    ImageLayout(f, samples, bext, es);
    var sc1 := sc.(dataSize := -1, headerLength := -1, visits := [Visit(0, 0, 8, |body| + 4, |s|)]);
    BodyRead(s, 12, f, samples, bext, es, sc1);
    OuterRead(s, f.big, |body| + 4, sc.(dataSize := -1, headerLength := -1, visits := []));
  }

  lemma OuterRead(s: bytes, big: bool, size: nat, sc: Scan)
    requires Addressable(s) && |s| == 8 + size + size % 2 && 4 <= size < 0x1_0000_0000
    requires s[0..4] == RiffId(big) && U32(big, s[4..8]) == size && s[8..12] == WAVE && sc.visits == []
    ensures OuterLoop(s, 0, sc) == WaveLoop(s, big, 12, |s|, sc.(visits := [Visit(0, 0, 8, size, |s|)]))
  {
    hide WaveLoop, U32, CheckedChunkEnd;
    var sc1 := sc.(visits := [Visit(0, 0, 8, size, |s|)]);
    assert sc.visits + [Visit(0, 0, 8, size, |s|)] == sc1.visits;
    var r := WaveLoop(s, big, 12, |s|, sc1);
    assert OuterChunk(s, RiffId(big), 8, size, |s|, sc1) == r;
    assert OuterStep(s, 0, sc) == if r.ok then Next(|s|, r.scan) else Stop(r);
  }

  /** A finished file around a bext block that is smaller than the struct is refused as a
      whole, the 602 octets that EBU Tech 3285 asks for included. */
  lemma ShortBextRefused(f: Format, samples: bytes, bext: bytes, es: seq<Entry>, sc: Scan)
    requires ValidFormat(f) && 0 < |bext| < BEXT_SIZE && |Image(f, samples, bext, es)| - CHUNK_HEADER < 0x1_0000_0000
    ensures Addressable(Image(f, samples, bext, es)) && !ReadHeader(Image(f, samples, bext, es), sc).ok
  {
    hide Image, BodyOf, At, Padded, WaveLoop, BextOnDisk;
    var s, body := Image(f, samples, bext, es), BodyOf(f, samples, bext, es);
    ImageLayout(f, samples, bext, es);
    ShortBextBody(s, 12, f, samples, bext, es,
                  sc.(dataSize := -1, headerLength := -1, visits := [Visit(0, 0, 8, |body| + 4, |s|)]));
    OuterRead(s, f.big, |body| + 4, sc.(dataSize := -1, headerLength := -1, visits := []));
  }

  lemma ShortBextBody(s: bytes, off: nat, f: Format, samples: bytes, bext: bytes, es: seq<Entry>, sc: Scan)
    requires Addressable(s) && ValidFormat(f) && 0 < |bext| < BEXT_SIZE
    requires At(s, off, BodyOf(f, samples, bext, es)) && |s| == off + |Padded(BodyOf(f, samples, bext, es))|
    requires |BodyOf(f, samples, bext, es)| < 0x1_0000_0000
    ensures !WaveLoop(s, f.big, off, |s|, sc).ok
  {
    hide At, Chunk, WaveLoop, Padded, Join, InfoChunks, FormatBytes, BextOnDisk, Enc;
    var big := f.big;
    var fmt, data := Chunk(big, FMT, FormatBytes(f)), Chunk(big, DATA, samples);
    var b := Chunk(big, BEXT, BextOnDisk(big, bext));
    var lists := if es == [] then [] else [Chunk(big, LIST, INFO + Join(InfoChunks(big, es)))];
    assert FileChunks(f, samples, bext, es) == [fmt] + ([data] + ([b] + lists));
    JoinBounds(FileChunks(f, samples, bext, es), 1);
    NextChunk(s, off, |s|, fmt, [data] + ([b] + lists));
    var sc1 := FormatTurn(s, off, |s|, f, sc);
    NextChunk(s, off + 24, |s|, data, [b] + lists);
    var sc2 := DataTurn(s, big, off + 24, |s|, samples, sc1);
    var off3 := off + 24 + |Padded(data)|;
    NextChunk(s, off3, |s|, b, lists);
    WaveTurn(s, big, off3, |s|, BEXT, BextOnDisk(big, bext), sc2);
  }

  // ----- when the written parts come back unchanged -----

  /** `w` reads the same in both directions. */
  predicate Symmetric(w: bytes) {
    forall k :: 0 <= k < |w| ==> w[k] == w[|w| - 1 - k]
  }

  lemma {:induction false} SwapAt(s: bytes, k: nat)
    requires k < |s|
    ensures Swap(s)[k] == s[|s| - 1 - k]
  {
    if k < |s| - 1 {
      SwapAt(s[1..], k);
    }
  }

  lemma SwapKeeps(w: bytes)
    ensures Swap(w) == w <==> Symmetric(w)
  {
    forall k | 0 <= k < |w| ensures Swap(w)[k] == w[|w| - 1 - k] {
      SwapAt(w, k);
    }
  }

  lemma BextSlices(b: bytes)
    requires |b| >= BEXT_SIZE
    ensures BextOnDisk(true, b) == b <==>
            && Swap(b[340..344]) == b[340..344] && Swap(b[344..348]) == b[344..348]
            && Swap(b[414..416]) == b[414..416] && Swap(b[416..418]) == b[416..418] && Swap(b[418..420]) == b[418..420]
            && Swap(b[420..422]) == b[420..422] && Swap(b[422..424]) == b[422..424]
  {
    hide Swap;
    var r := BextOnDisk(true, b);
    assert r[340..344] == Swap(b[340..344]) && r[344..348] == Swap(b[344..348]);
    assert r[414..416] == Swap(b[414..416]) && r[416..418] == Swap(b[416..418]) && r[418..420] == Swap(b[418..420]);
    assert r[420..422] == Swap(b[420..422]) && r[422..424] == Swap(b[422..424]);
    assert b == b[..340] + b[340..344] + b[344..348] + b[348..414] + b[414..416] + b[416..418] + b[418..420] +
                b[420..422] + b[422..424] + b[424..];
  }

  /** The bext block is written as it stands except in big-endian files, where it stays
      the same exactly when each of the seven swapped fields is symmetric. */
  lemma BextKept(big: bool, b: bytes)
    requires |b| >= BEXT_SIZE
    ensures BextOnDisk(big, b) == b <==>
            !big || (Symmetric(b[340..344]) && Symmetric(b[344..348]) && Symmetric(b[414..416]) &&
              Symmetric(b[416..418]) &&
                     Symmetric(b[418..420]) && Symmetric(b[420..422]) && Symmetric(b[422..424]))
  {
    BextSlices(b);
    SwapKeeps(b[340..344]);
    SwapKeeps(b[344..348]);
    SwapKeeps(b[414..416]);
    SwapKeeps(b[416..418]);
    SwapKeeps(b[418..420]);
    SwapKeeps(b[420..422]);
    SwapKeeps(b[422..424]);
    hide Swap, Symmetric;
  }

  /** `es` lists the dictionary `m`, each key once. */
  predicate Lists(es: seq<Entry>, m: map<bytes, bytes>) {
    && (forall i :: 0 <= i < |es| ==> es[i].key in m && m[es[i].key] == es[i].value)
    && (forall k :: k in m ==> exists i :: 0 <= i < |es| && es[i].key == k)
    && (forall i, j :: 0 <= i < j < |es| ==> es[i].key != es[j].key)
  }

  predicate Keyed(es: seq<Entry>, k: bytes) {
    exists i :: 0 <= i < |es| && es[i].key == k
  }

  lemma KeyedCons(es: seq<Entry>, k: bytes)
    requires es != []
    ensures Keyed(es, k) <==> k == es[0].key || Keyed(es[1..], k)
  {
    if Keyed(es[1..], k) {
      var i :| 0 <= i < |es[1..]| && es[1..][i].key == k;
      assert es[i + 1].key == k;
    }
  }

  /** Reading entries with distinct NUL-free keys touches those keys only. */
  lemma {:induction false} ReadBackFrame(m: map<bytes, bytes>, es: seq<Entry>, k: bytes)
    requires forall i :: 0 <= i < |es| ==> |es[i].key| == 4 && !HasNul(es[i].key)
    ensures Keyed(es, k) ==> k in ReadBack(m, es)
    ensures !Keyed(es, k) ==> (k in ReadBack(m, es) <==> k in m) && (k in m ==> ReadBack(m, es)[k] == m[k])
    decreases |es|
  {
    if es != [] {
      DescIdFromMeaning(es[0].key, 4);
      KeyedCons(es, k);
      ReadBackFrame(m[DescId(es[0].key) := es[0].value + [0]], es[1..], k);
    }
  }

  /** The last item of a key gives its value. */
  lemma {:induction false} ReadBackValue(m: map<bytes, bytes>, es: seq<Entry>, i: nat)
    requires i < |es| && forall j :: 0 <= j < |es| ==> |es[j].key| == 4 && !HasNul(es[j].key)
    requires forall j :: i < j < |es| ==> es[j].key != es[i].key
    ensures es[i].key in ReadBack(m, es) && ReadBack(m, es)[es[i].key] == es[i].value + [0]
    decreases |es|
  {
    DescIdFromMeaning(es[0].key, 4);
    var m1 := m[DescId(es[0].key) := es[0].value + [0]];
    if i == 0 {
      ReadBackFrame(m1, es[1..], es[0].key);
    } else {
      ReadBackValue(m1, es[1..], i - 1);
    }
  }

  lemma {:induction false} ReadBackNoNul(m: map<bytes, bytes>, es: seq<Entry>)
    requires forall i :: 0 <= i < |es| ==> |es[i].key| == 4
    ensures forall k :: k in ReadBack(m, es) ==> k in m || !HasNul(k)
    decreases |es|
  {
    if es != [] {
      DescIdFromMeaning(es[0].key, 4);
      ReadBackNoNul(m[DescId(es[0].key) := es[0].value + [0]], es[1..]);
    }
  }

  lemma DictionaryLookup(m: map<bytes, bytes>, es: seq<Entry>, k: bytes)
    requires Lists(es, m) && forall k :: k in m ==> |k| == 4 && !HasNul(k)
    ensures k in ReadBack(map[], es) <==> k in m
    ensures k in m ==> ReadBack(map[], es)[k] == m[k] + [0]
  {
    hide ReadBack;
    ReadBackFrame(map[], es, k);
    if k in m {
      var i :| 0 <= i < |es| && es[i].key == k;
      ReadBackValue(map[], es, i);
    }
  }

  /** The dictionary comes back, each value with one NUL appended, exactly when no
      identifier contains a NUL. */
  lemma DictionaryKept(m: map<bytes, bytes>, es: seq<Entry>)
    requires Lists(es, m) && forall k :: k in m ==> |k| == 4
    ensures ReadBack(map[], es) == (map k | k in m :: m[k] + [0]) <==> forall k :: k in m ==> !HasNul(k)
  {
    hide ReadBack;
    var got, want := ReadBack(map[], es), map k | k in m :: m[k] + [0];
    if forall k :: k in m ==> !HasNul(k) {
      forall k ensures (k in got <==> k in want) && (k in m ==> got[k] == want[k]) {
        DictionaryLookup(m, es, k);
      }
    } else {
      var k :| k in m && HasNul(k);
      ReadBackNoNul(map[], es);
      assert k in want && k !in got;
    }
  }

  /** A file whose header was never updated is refused: its RIFF size is still zero. */
  lemma UnfinishedRefused(f: Format, samples: bytes, sc: Scan)
    requires Addressable(FreshHeader(f) + samples)
    ensures !ReadHeader(FreshHeader(f) + samples, sc).ok
  {
    hide WaveLoop, FormatBytes, Enc, CheckedChunkEnd;
    var s := FreshHeader(f) + samples;
    assert s[0..4] == RiffId(f.big) && s[4..8] == [0, 0, 0, 0];
    ZeroSize(f.big);
  }

  lemma ZeroSize(big: bool)
    ensures U32(big, [0, 0, 0, 0]) == 0
  {
    assert Enc(big, 0, 4) == [0, 0, 0, 0];
    DecEnc(big, 0, 4);
  }

  /** Write, update and read again, for every format, sample string, bext block and INFO
      dictionary. The file has even length and its padded RIFF extent is the whole file;
      the reader accepts it and returns the format, the sample data in place after the 44
      octet header, the dictionary (changed only by NULs in identifiers) and the bext
      block (changed only by the field swaps of a big-endian file). */
  lemma RoundTrip(f: Format, samples: bytes, bext: bytes, m: map<bytes, bytes>, es: seq<Entry>, sc: Scan)
    requires Writable(f, samples, bext, es) && Lists(es, m) && (forall k :: k in m ==> |k| == 4)
    requires sc.bext == [] && sc.info == map[]
    ensures Addressable(Updated(FreshHeader(f) + samples, 44, |samples|, f.big, bext, es))
    ensures var s := Updated(FreshHeader(f) + samples, 44, |samples|, f.big, bext, es);
            var r := ReadHeader(s, sc);
            && |s| % 2 == 0 && |s| >= 44 + |samples|
            && (var n := U32(f.big, s[4..8]); 8 + n + n % 2 == |s|)
            && r.ok && r.scan.format == f && r.scan.headerLength == 44 && r.scan.dataSize == |samples|
            && s[44..44 + |samples|] == samples
            && (r.scan.info == (map k | k in m :: m[k] + [0]) <==> forall k :: k in m ==> !HasNul(k))
            && (bext == [] || !f.big ==> r.scan.bext == bext)
            && (bext != [] ==> r.scan.bext == BextOnDisk(f.big, bext))
  {
    hide *;
    UpdatedImage(f, samples, bext, es);
    FileReadBack(f, samples, bext, es, sc);
    var s := Image(f, samples, bext, es);
    assert |s| % 2 == 0 && var n := U32(f.big, s[4..8]); 8 + n + n % 2 == |s| by {
      WritableSize(f, samples, bext, es);
      ImageLayout(f, samples, bext, es);
    }
    DictionaryKept(m, es);
    BareFields(ReadHeader(s, sc).scan);
    LittleKept(f.big, bext);
  }

  function Ascii(text: string): bytes {
    seq(|text|, i requires 0 <= i < |text| => text[i] as int % 0x80)
  }

  lemma Identifiers()
    ensures RIFF == Ascii("RIFF") && RIFX == Ascii("RIFX") && WAVE == Ascii("WAVE") && FMT == Ascii("fmt ")
    ensures DATA == Ascii("data") && BEXT == Ascii("bext") && LIST == Ascii("LIST") && INFO == Ascii("INFO")
  {
  }

  /** The header of 44 octets, field by field, and the samples after it. */
  predicate Canonical(s: bytes, f: Format, samples: bytes) {
    var big := f.big;
    && |s| >= 44 + |samples| && s[0..4] == Ascii(if big then "RIFX" else "RIFF")
    && (var n := Dec(big, s[4..8]); 8 + n + n % 2 == |s|)
    && s[8..12] == Ascii("WAVE") && s[12..16] == Ascii("fmt ") && Dec(big, s[16..20]) == 16
    && Dec(big, s[20..22]) == 1 && Dec(big, s[22..24]) == f.channels && Dec(big, s[24..28]) == f.rate
    && Dec(big, s[28..32]) == f.bits * f.channels / 8 * f.rate % 0x1_0000_0000
    && Dec(big, s[32..34]) == f.bits * f.channels / 8 % 0x1_0000 && Dec(big, s[34..36]) == f.bits
    && s[36..40] == Ascii("data") && Dec(big, s[40..44]) == |samples| && s[44..44 + |samples|] == samples
  }

  /** A finished file begins with it. */
  lemma CanonicalHeader(f: Format, samples: bytes, bext: bytes, es: seq<Entry>)
    requires Writable(f, samples, bext, es)
    ensures Canonical(Image(f, samples, bext, es), f, samples)
  {
    hide Image, At, Padded, Dec, Enc, Chunk, Join, FormatBytes, FileChunks, ValidFormat, Ascii;
    var s, body := Image(f, samples, bext, es), BodyOf(f, samples, bext, es);
    WritableSize(f, samples, bext, es);
    ImageLayout(f, samples, bext, es);
    Identifiers();
    FirstChunks(s, f, samples, bext, es);
    FormatFields(f);
    var fmt := FormatBytes(f);
    PartOf(s, 20, fmt, 0, 2);
    PartOf(s, 20, fmt, 2, 4);
    PartOf(s, 20, fmt, 4, 8);
    PartOf(s, 20, fmt, 8, 12);
    PartOf(s, 20, fmt, 12, 14);
    PartOf(s, 20, fmt, 14, 16);
  }

  lemma PartOf(s: bytes, off: nat, t: bytes, i: nat, j: nat)
    requires off + |t| <= |s| && s[off..off + |t|] == t && i <= j <= |t|
    ensures s[off + i..off + j] == t[i..j]
  {
    forall k | i <= k < j ensures s[off + k] == t[k] {
      assert s[off..off + |t|][k] == s[off + k];
    }
    assert s[off + i..off + j] == t[i..j];
  }

  lemma FirstChunks(s: bytes, f: Format, samples: bytes, bext: bytes, es: seq<Entry>)
    requires At(s, 12, BodyOf(f, samples, bext, es)) && |BodyOf(f, samples, bext, es)| < 0x1_0000_0000
    ensures 44 + |samples| <= |s| && s[12..16] == FMT && U32(f.big, s[16..20]) == 16 && s[20..36] == FormatBytes(f)
    ensures s[36..40] == DATA && U32(f.big, s[40..44]) == |samples| && s[44..44 + |samples|] == samples
  {
    hide At, Padded, Dec, Enc, Chunk, Join, FormatBytes, InfoChunks, BextOnDisk;
    var big, cs := f.big, FileChunks(f, samples, bext, es);
    var fmt, data := Chunk(big, FMT, FormatBytes(f)), Chunk(big, DATA, samples);
    var tail := cs[2..];
    assert cs == [fmt] + ([data] + tail);
    JoinBounds(cs, 1);
    NextChunk(s, 12, 12 + |Padded(Join(cs))|, fmt, [data] + tail);
    assert |Padded(fmt)| == 24 by { EvenChunk(fmt); }
    NextChunk(s, 36, 36 + |Padded(Join([data] + tail))|, data, tail);
    AtChunk(s, 12, big, FMT, FormatBytes(f));
    AtChunk(s, 36, big, DATA, samples);
  }

  lemma EvenChunk(c: bytes)
    requires |c| % 2 == 0
    ensures Padded(c) == c
  {
  }

  lemma FormatFields(f: Format)
    requires ValidFormat(f)
    ensures var b, big := FormatBytes(f), f.big;
            && Dec(big, b[0..2]) == 1 && Dec(big, b[2..4]) == f.channels && Dec(big, b[4..8]) == f.rate
            && Dec(big, b[8..12]) == f.bits * f.channels / 8 * f.rate % 0x1_0000_0000
            && Dec(big, b[12..14]) == f.bits * f.channels / 8 % 0x1_0000 && Dec(big, b[14..16]) == f.bits
  {
    hide Enc, Dec, Pow256, ByteRate, FrameBytes;
    var b, big := FormatBytes(f), f.big;
    assert b[0..2] == Enc(big, 1, 2) && b[2..4] == Enc(big, f.channels, 2) && b[4..8] == Enc(big, f.rate, 4);
    assert b[8..12] == Enc(big, ByteRate(f), 4) && b[12..14] == Enc(big, FrameBytes(f), 2);
    assert b[14..16] == Enc(big, f.bits, 2);
    DecEnc(big, 1, 2);
    DecEnc(big, f.channels, 2);
    DecEnc(big, f.rate, 4);
    DecEnc(big, ByteRate(f), 4);
    DecEnc(big, FrameBytes(f), 2);
    DecEnc(big, f.bits, 2);
    Widths();
    RatesAre(f);
  }

  lemma RatesAre(f: Format)
    ensures FrameBytes(f) == f.bits * f.channels / 8 && ByteRate(f) == f.bits * f.channels / 8 * f.rate
  {
  }

  lemma WritableSize(f: Format, samples: bytes, bext: bytes, es: seq<Entry>)
    requires Writable(f, samples, bext, es)
    ensures |Image(f, samples, bext, es)| - CHUNK_HEADER < 0x1_0000_0000
    ensures CHUNK_HEADER == 8
  {
  }

  lemma BareFields(sc: Scan)
    ensures Bare(sc) == Scan(sc.format, sc.bext, sc.info, sc.dataSize, sc.headerLength, [])
  {
  }

  lemma LittleKept(big: bool, bext: bytes)
    ensures !big ==> BextOnDisk(big, bext) == bext
  {
  }
}
