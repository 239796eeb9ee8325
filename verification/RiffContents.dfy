/** What the reader makes of any well-formed file, whoever wrote it: chunks it does not know
    may stand between, before and after those it does, in the WAVE form and at top level. */
module RiffContents {
  import opened Bytes
  import opened Wrappers
  import opened RiffReader
  import opened RiffImage
  import opened RiffRoundTrip

  /** A chunk of the WAVE form. A format chunk may be longer than the reader needs, and its
      codec may be PCM or undefined. */
  datatype Part =
    | Fmt(format: Format, codec: nat, more: bytes)
    | Data(samples: bytes)
    | Bext(block: bytes)
    | Info(entries: seq<Entry>)
    | OtherList(kind: bytes, content: bytes)
    | Other(id: bytes, content: bytes)

  function PartId(p: Part): bytes {
    match p
    case Fmt(_, _, _) => FMT
    case Data(_) => DATA
    case Bext(_) => BEXT
    case Info(_) => LIST
    case OtherList(_, _) => LIST
    case Other(id, _) => id
  }

  function Payload(big: bool, p: Part): bytes {
    match p
    case Fmt(f, codec, more) => Enc(big, codec, 2) + FormatBytes(f)[2..] + more
    case Data(samples) => samples
    case Bext(block) => block
    case Info(entries) => INFO + Join(InfoChunks(big, entries))
    case OtherList(kind, content) => kind + content
    case Other(_, content) => content
  }

  ghost predicate WellFormed(big: bool, p: Part) {
    && |Payload(big, p)| < 0x1_0000_0000
    && match p
       case Fmt(f, codec, _) => f.big == big && ValidFormat(f) && codec <= 1
       case Data(_) => true
       case Bext(block) => BEXT_SIZE <= |block| <= MAX_READ
       case Info(entries) => Readable(entries)
       case OtherList(kind, _) => |kind| == 4 && kind != INFO
       case Other(id, _) => |id| == 4 && id !in {BEXT, FMT, DATA, LIST}
  }

  /** A chunk the program never writes and the reader has no use for. */
  predicate Foreign(p: Part) {
    p.Other? || p.OtherList?
  }

  function PartChunk(big: bool, p: Part): bytes {
    Chunk(big, PartId(p), Payload(big, p))
  }

  function PartChunks(big: bool, ps: seq<Part>): (r: seq<bytes>)
    ensures |r| == |ps|
  {
    seq(|ps|, i requires 0 <= i < |ps| => PartChunk(big, ps[i]))
  }

  /** What a file tells: the last format, bext block and samples, and the INFO values. */
  datatype Content = Content(format: Format, bext: bytes, info: map<bytes, bytes>, samples: Option<bytes>)

  function Told(c: Content, p: Part): Content {
    match p
    case Fmt(f, _, _) => c.(format := f)
    case Data(samples) => c.(samples := Some(samples))
    case Bext(block) => c.(bext := block)
    case Info(entries) => c.(info := ReadBack(c.info, entries))
    case _ => c
  }

  function ToldBy(c: Content, ps: seq<Part>): Content
    decreases |ps|
  {
    if ps == [] then c else ToldBy(Told(c, ps[0]), ps[1..])
  }

  /** The reader knows it: in particular the samples are where the header ends, behind the
      header of their chunk. */
  ghost predicate Knows(s: bytes, sc: Scan, c: Content) {
    && sc.format == c.format && sc.bext == c.bext && sc.info == c.info
    && match c.samples
       case None => sc.dataSize < 0
       case Some(x) =>
         sc.dataSize == |x| && 8 <= sc.headerLength && At(s, sc.headerLength, x) && At(s, sc.headerLength - 8, DATA)
  }

  // ----- one chunk -----

  lemma FormatPayload(big: bool, p: Part)
    requires p.Fmt? && WellFormed(big, p)
    ensures |Payload(big, p)| >= FMT_SIZE && ReadFormat(big, Payload(big, p)[..FMT_SIZE]) == Some(p.format)
  {
    hide Enc, U16, U32, ValidPcm;
    var f, b := p.format, Payload(big, p)[..FMT_SIZE];
    ReadFormatBack(f);
    assert b[0..2] == Enc(big, p.codec, 2) && b[2..] == FormatBytes(f)[2..];
    assert b[2..4] == FormatBytes(f)[2..4] && b[4..8] == FormatBytes(f)[4..8] && b[14..16] == FormatBytes(f)[14..16];
    CodecBack(big, p.codec);
  }

  lemma CodecBack(big: bool, codec: nat)
    requires codec < 0x1_0000
    ensures U16(big, Enc(big, codec, 2)) == codec
  {
    DecEnc(big, codec, 2);
    Widths();
  }

  /** The reader passes a chunk of the form with what it tells. */
  lemma PartTurn(s: bytes, big: bool, off: nat, outerEnd: int, p: Part, sc: Scan, c: Content) returns (sc1: Scan)
    requires Addressable(s) && outerEnd <= |s| && WellFormed(big, p) && Knows(s, sc, c)
    requires At(s, off, PartChunk(big, p)) && off + |Padded(PartChunk(big, p))| <= outerEnd
    ensures WaveLoop(s, big, off, outerEnd, sc) ==
            WaveLoop(s, big, off + |Padded(PartChunk(big, p))|, outerEnd, sc1)
    ensures Knows(s, sc1, Told(c, p))
  {
    hide Chunk, WaveLoop, Padded, At, WaveChunk, Payload, ReadBack, InfoChunks, Join, Readable;
    var payload := Payload(big, p);
    if p.Info? {
      assert payload == INFO + Join(InfoChunks(big, p.entries)) by { PayloadIs(big, p); }
      sc1 := ListTurn(s, big, off, outerEnd, p.entries, sc);
    } else {
      WaveTurn(s, big, off, outerEnd, PartId(p), payload, sc);
      var end := off + |Padded(PartChunk(big, p))|;
      var sc0 := sc.(visits := sc.visits + [Visit(1, off, off + 8, |payload|, end)]);
      PartTold(s, big, off, end, p, sc0, c);
      sc1 := WaveChunk(s, big, PartId(p), off + 8, |payload|, end, sc0).scan;
    }
  }

  lemma PayloadIs(big: bool, p: Part)
    ensures p.Info? ==> Payload(big, p) == INFO + Join(InfoChunks(big, p.entries))
    ensures p.Data? ==> Payload(big, p) == p.samples
    ensures p.Bext? ==> Payload(big, p) == p.block
    ensures p.OtherList? && |p.kind| == 4 ==> |Payload(big, p)| >= 4 && Payload(big, p)[..4] == p.kind
  {
  }

  lemma PartTold(s: bytes, big: bool, off: nat, end: int, p: Part, sc: Scan, c: Content)
    requires Addressable(s) && WellFormed(big, p) && !p.Info? && Knows(s, sc, c) && end <= |s|
    requires At(s, off, PartChunk(big, p))
    requires var payload := Payload(big, p);
             off + 8 + |payload| <= end && s[off + 8..off + 8 + |payload|] == payload
    ensures var r := WaveChunk(s, big, PartId(p), off + 8, |Payload(big, p)|, end, sc);
            r.ok && Knows(s, r.scan, Told(c, p))
  {
    hide Payload, WaveChunk, PartChunk, Knows, Told, WellFormed;
    PayloadIs(big, p);
    match p {
      case Fmt(_, _, _) => FormatTold(s, big, off, end, p, sc, c);
      case Data(_) => DataTold(s, big, off, end, p, sc, c);
      case Bext(_) => BextTold(s, big, off, end, p, sc, c);
      case _ => NothingTold(s, big, off, end, p, sc, c);
    }
  }

  lemma FormatTold(s: bytes, big: bool, off: nat, end: int, p: Part, sc: Scan, c: Content)
    requires Addressable(s) && WellFormed(big, p) && p.Fmt? && Knows(s, sc, c) && end <= |s|
    requires var payload := Payload(big, p);
             off + 8 + |payload| <= end && s[off + 8..off + 8 + |payload|] == payload
    ensures var r := WaveChunk(s, big, FMT, off + 8, |Payload(big, p)|, end, sc);
            r.ok && Knows(s, r.scan, Told(c, p))
  {
    hide Payload, ReadFormat, InfoLoop, At;
    FormatPayload(big, p);
    assert s[off + 8..off + 8 + FMT_SIZE] == Payload(big, p)[..FMT_SIZE];
  }

  lemma DataTold(s: bytes, big: bool, off: nat, end: int, p: Part, sc: Scan, c: Content)
    requires Addressable(s) && p.Data? && Knows(s, sc, c) && end <= |s| && At(s, off, PartChunk(big, p))
    requires off + 8 + |p.samples| <= end && s[off + 8..off + 8 + |p.samples|] == p.samples
    ensures var r := WaveChunk(s, big, DATA, off + 8, |p.samples|, end, sc);
            r.ok && Knows(s, r.scan, Told(c, p))
  {
    hide Enc, ReadFormat, InfoLoop;
    assert PartChunk(big, p) == DATA + (Enc(big, |p.samples|, 4) + p.samples);
    AtSplit(s, off, DATA, Enc(big, |p.samples|, 4) + p.samples);
  }

  lemma BextTold(s: bytes, big: bool, off: nat, end: int, p: Part, sc: Scan, c: Content)
    requires Addressable(s) && WellFormed(big, p) && p.Bext? && Knows(s, sc, c) && end <= |s|
    requires off + 8 + |p.block| <= end && s[off + 8..off + 8 + |p.block|] == p.block
    ensures var r := WaveChunk(s, big, BEXT, off + 8, |p.block|, end, sc);
            r.ok && Knows(s, r.scan, Told(c, p))
  {
    hide ReadFormat, InfoLoop, At;
  }

  /** Nor does a chunk with an identifier the reader does not look for, or a list of another
      kind, stop the walk. */
  lemma NothingTold(s: bytes, big: bool, off: nat, end: int, p: Part, sc: Scan, c: Content)
    requires Addressable(s) && WellFormed(big, p) && Foreign(p) && Knows(s, sc, c) && end <= |s|
    requires var payload := Payload(big, p);
             off + 8 + |payload| <= end && s[off + 8..off + 8 + |payload|] == payload
    ensures var r := WaveChunk(s, big, PartId(p), off + 8, |Payload(big, p)|, end, sc);
            r.ok && Knows(s, r.scan, Told(c, p))
  {
    hide Payload, ReadFormat, InfoLoop, At;
    PayloadIs(big, p);
    if p.OtherList? {
      assert s[off + 8..off + 12] == Payload(big, p)[..4];
    }
  }

  // ----- a whole form -----

  lemma {:induction false} PartsRead(s: bytes, big: bool, off: nat, end: nat, ps: seq<Part>, sc: Scan, c: Content)
    requires Addressable(s) && Knows(s, sc, c) && forall p :: p in ps ==> WellFormed(big, p)
    requires off <= end <= |s| && At(s, off, Join(PartChunks(big, ps)))
    requires end == off + |Padded(Join(PartChunks(big, ps)))|
    ensures var r := WaveLoop(s, big, off, end, sc);
            r.ok && Knows(s, r.scan, ToldBy(c, ps))
    decreases |ps|
  {
    hide WaveLoop, PartChunk, Padded, At, Join, Knows, WellFormed, PartChunks;
    if ps == [] {
      NoParts(big);
      FormEnds(s, big, end, sc);
    } else {
      var chunk, rest := PartChunk(big, ps[0]), PartChunks(big, ps[1..]);
      PartsCons(big, ps);
      NextChunk(s, off, end, chunk, rest);
      var sc1 := PartTurn(s, big, off, end, ps[0], sc, c);
      if rest == [] {
        FormEnds(s, big, end, sc1);
        assert ps[1..] == [];
      } else {
        PartsRead(s, big, off + |Padded(chunk)|, end, ps[1..], sc1, Told(c, ps[0]));
      }
    }
  }

  lemma NoParts(big: bool)
    ensures PartChunks(big, []) == [] && Join([]) == [] && Padded([]) == []
  {
  }

  lemma FormEnds(s: bytes, big: bool, end: nat, sc: Scan)
    requires Addressable(s) && end <= |s|
    ensures WaveLoop(s, big, end, end, sc) == Outcome(true, sc)
  {
  }

  lemma PartsCons(big: bool, ps: seq<Part>)
    requires ps != []
    ensures PartChunks(big, ps) == [PartChunk(big, ps[0])] + PartChunks(big, ps[1..])
  {
    hide PartChunk;
  }

  // ----- a whole file -----

  /** A top-level chunk: a WAVE form in either byte order, a form of another kind, or
      something else. */
  datatype Top =
    | Wave(big: bool, parts: seq<Part>)
    | OtherForm(big: bool, kind: bytes, content: bytes)
    | OtherTop(id: bytes, content: bytes)

  function TopChunk(t: Top): bytes {
    match t
    case Wave(big, parts) => Chunk(big, RiffId(big), WAVE + Join(PartChunks(big, parts)))
    case OtherForm(big, kind, content) => Chunk(big, RiffId(big), kind + content)
    case OtherTop(id, content) => Chunk(false, id, content)
  }

  ghost predicate WellFormedTop(t: Top) {
    && |TopChunk(t)| - CHUNK_HEADER < 0x1_0000_0000
    && match t
       case Wave(big, parts) => forall p :: p in parts ==> WellFormed(big, p)
       case OtherForm(_, kind, _) => |kind| == 4 && kind != WAVE
       case OtherTop(id, _) => |id| == 4 && id !in {RIFF, RIFX}
  }

  function FileOf(ts: seq<Top>): bytes {
    if ts == [] then [] else Padded(TopChunk(ts[0])) + FileOf(ts[1..])
  }

  function ToldByAll(c: Content, ts: seq<Top>): Content
    decreases |ts|
  {
    if ts == [] then c else ToldByAll(if ts[0].Wave? then ToldBy(c, ts[0].parts) else c, ts[1..])
  }

  function TopId(t: Top): bytes {
    if t.OtherTop? then t.id else RiffId(t.big)
  }

  function TopPayload(t: Top): bytes {
    match t
    case Wave(big, parts) => WAVE + Join(PartChunks(big, parts))
    case OtherForm(_, kind, content) => kind + content
    case OtherTop(_, content) => content
  }

  lemma TopTurn(s: bytes, off: nat, t: Top, sc: Scan, c: Content) returns (sc1: Scan)
    requires Addressable(s) && WellFormedTop(t) && Knows(s, sc, c)
    requires At(s, off, TopChunk(t)) && off + |Padded(TopChunk(t))| <= |s|
    ensures OuterLoop(s, off, sc) == OuterLoop(s, off + |Padded(TopChunk(t))|, sc1)
    ensures Knows(s, sc1, if t.Wave? then ToldBy(c, t.parts) else c)
  {
    hide OuterLoop, OuterChunk, TopPayload, Knows, Padded, At, U32, CheckedChunkEnd, ToldBy, Chunk;
    var end, id, payload := off + |Padded(TopChunk(t))|, TopId(t), TopPayload(t);
    TopParts(t);
    AtChunk(s, off, id == RIFX, id, payload);
    var sc0 := sc.(visits := sc.visits + [Visit(0, off, off + 8, |payload|, end)]);
    assert Knows(s, sc0, c) by {
      KnowsStill(s, sc, sc0, c);
    }
    TopTold(s, off, end, t, sc0, c);
    sc1 := OuterChunk(s, id, off + 8, |payload|, end, sc0).scan;
    OuterTurns(s, off, sc);
    assert end == off + 8 + |payload| + |payload| % 2 by {
      PaddedTop(t);
    }
  }

  lemma TopParts(t: Top)
    requires WellFormedTop(t)
    ensures |TopId(t)| == 4 && TopChunk(t) == Chunk(TopId(t) == RIFX, TopId(t), TopPayload(t))
    ensures |TopPayload(t)| < 0x1_0000_0000
  {
    hide Join, PartChunks, WellFormed, Enc;
    RiffIds();
  }

  lemma PaddedTop(t: Top)
    requires WellFormedTop(t)
    ensures |Padded(TopChunk(t))| == 8 + |TopPayload(t)| + |TopPayload(t)| % 2
  {
    hide TopId, TopPayload, TopChunk;
    TopParts(t);
  }

  lemma KnowsStill(s: bytes, sc: Scan, sc0: Scan, c: Content)
    requires Knows(s, sc, c) && sc0 == sc.(visits := sc0.visits)
    ensures Knows(s, sc0, c)
  {
    hide At;
  }

  lemma TopTold(s: bytes, off: nat, end: nat, t: Top, sc: Scan, c: Content)
    requires Addressable(s) && WellFormedTop(t) && Knows(s, sc, c) && end <= |s|
    requires end == off + |Padded(TopChunk(t))|
    requires var payload := TopPayload(t);
             off + 8 + |payload| <= end && s[off + 8..off + 8 + |payload|] == payload
    ensures var r := OuterChunk(s, TopId(t), off + 8, |TopPayload(t)|, end, sc);
            r.ok && Knows(s, r.scan, if t.Wave? then ToldBy(c, t.parts) else c)
  {
    hide WaveLoop, Padded, Join, PartChunks, WellFormed, At, Knows, ToldBy, RiffId, Enc;
    RiffIds();
    if t.Wave? {
      PayloadAt(s, off + 8, WAVE, Join(PartChunks(t.big, t.parts)));
      PaddedForm(t.big, t.parts);
      PartsRead(s, t.big, off + 12, end, t.parts, sc, c);
    } else if t.OtherForm? {
      PayloadAt(s, off + 8, t.kind, t.content);
    }
  }

  lemma RiffIds()
    ensures RiffId(true) == RIFX && RiffId(false) == RIFF && RIFF != RIFX
  {
    assert RIFF[3] != RIFX[3];
  }

  lemma PaddedForm(big: bool, ps: seq<Part>)
    ensures |Padded(TopChunk(Wave(big, ps)))| == 12 + |Padded(Join(PartChunks(big, ps)))|
  {
    hide Join, PartChunks;
  }

  lemma OuterTurns(s: bytes, off: nat, sc: Scan)
    requires Addressable(s) && off <= |s|
    ensures OuterLoop(s, off, sc)
         == match OuterStep(s, off, sc)
            case Stop(o) => o
            case Next(end, sc1) => OuterLoop(s, end, sc1)
  {
  }

  lemma {:induction false} TopsRead(s: bytes, off: nat, ts: seq<Top>, rest: bytes, sc: Scan, c: Content)
    requires Addressable(s) && Knows(s, sc, c) && (forall t :: t in ts ==> WellFormedTop(t)) && |rest| < CHUNK_HEADER
    requires off + |FileOf(ts) + rest| == |s| && At(s, off, FileOf(ts) + rest)
    ensures var r := OuterLoop(s, off, sc);
            r.ok && Knows(s, r.scan, ToldByAll(c, ts))
    decreases |ts|
  {
    hide OuterLoop, Padded, At, Knows, WellFormedTop, TopChunk, ToldBy;
    if ts == [] {
      FileEnds(s, off, sc);
    } else {
      var chunk, more := TopChunk(ts[0]), FileOf(ts[1..]) + rest;
      assert FileOf(ts) + rest == Padded(chunk) + more;
      AtPadded(s, off, chunk, more);
      var sc1 := TopTurn(s, off, ts[0], sc, c);
      TopsRead(s, off + |Padded(chunk)|, ts[1..], rest, sc1, if ts[0].Wave? then ToldBy(c, ts[0].parts) else c);
    }
  }

  lemma FileEnds(s: bytes, off: nat, sc: Scan)
    requires Addressable(s) && off <= |s| < off + CHUNK_HEADER
    ensures OuterLoop(s, off, sc) == Outcome(true, sc)
  {
  }

  /** Every well-formed file is read: it is accepted exactly when it has samples, and what
      it tells is known then. Fewer octets than a chunk header may follow. */
  lemma WellFormedRead(ts: seq<Top>, rest: bytes, sc: Scan)
    requires Addressable(FileOf(ts) + rest) && (forall t :: t in ts ==> WellFormedTop(t)) && |rest| < CHUNK_HEADER
    ensures var s, r := FileOf(ts) + rest, ReadHeader(FileOf(ts) + rest, sc);
            var c := ToldByAll(Content(sc.format, sc.bext, sc.info, None), ts);
            && (r.ok <==> c.samples.Some?)
            && Knows(s, r.scan, c)
  {
    hide FileOf, OuterLoop, ToldByAll, WellFormedTop;
    var s := FileOf(ts) + rest;
    assert s[0..|s|] == s;
    TopsRead(s, 0, ts, rest, sc.(dataSize := -1, headerLength := -1, visits := []),
             Content(sc.format, sc.bext, sc.info, None));
  }

  // ----- foreign chunks -----

  /** The parts that are the program's own. */
  function Own(ps: seq<Part>): seq<Part> {
    if ps == [] then [] else (if Foreign(ps[0]) then [] else [ps[0]]) + Own(ps[1..])
  }

  function OwnTops(ts: seq<Top>): seq<Top> {
    if ts == [] then [] else (if ts[0].Wave? then [ts[0].(parts := Own(ts[0].parts))] else []) + OwnTops(ts[1..])
  }

  lemma {:induction false} ForeignTellNothing(c: Content, ps: seq<Part>)
    ensures ToldBy(c, ps) == ToldBy(c, Own(ps))
    decreases |ps|
  {
    hide ReadBack;
    if ps != [] {
      ForeignTellNothing(Told(c, ps[0]), ps[1..]);
      var own := Own(ps[1..]);
      assert !Foreign(ps[0]) ==> ([ps[0]] + own)[1..] == own;
      assert Foreign(ps[0]) ==> Own(ps) == own;
    }
  }

  lemma {:induction false} ForeignTopsTellNothing(c: Content, ts: seq<Top>)
    ensures ToldByAll(c, ts) == ToldByAll(c, OwnTops(ts))
    decreases |ts|
  {
    hide ToldBy, Own;
    if ts != [] {
      var own, next := OwnTops(ts[1..]), if ts[0].Wave? then ToldBy(c, ts[0].parts) else c;
      ForeignTopsTellNothing(next, ts[1..]);
      if ts[0].Wave? {
        ForeignTellNothing(c, ts[0].parts);
        assert ([ts[0].(parts := Own(ts[0].parts))] + own)[1..] == own;
      } else {
        assert OwnTops(ts) == own;
      }
    }
  }

  /** What the program writes into a file, in its order. */
  function WrittenParts(f: Format, samples: bytes, bext: bytes, es: seq<Entry>): seq<Part> {
    [Fmt(f, 1, []), Data(samples)] + (if bext == [] then [] else [Bext(BextOnDisk(f.big, bext))]) +
    (if es == [] then [] else [Info(es)])
  }

  /** With foreign chunks anywhere among those the program writes, and foreign chunks
      before and after the form, the file is read as if they were not there: the same
      format, bext block and INFO values, and the samples at their place. */
  lemma ForeignSkipped(f: Format, samples: bytes, bext: bytes, es: seq<Entry>, ts: seq<Top>, sc: Scan)
    requires Addressable(FileOf(ts)) && forall t :: t in ts ==> WellFormedTop(t)
    requires OwnTops(ts) == [Wave(f.big, WrittenParts(f, samples, bext, es))]
    ensures var s, r := FileOf(ts), ReadHeader(FileOf(ts), sc);
            && r.ok && r.scan.format == f && r.scan.info == ReadBack(sc.info, es)
            && r.scan.bext == (if bext == [] then sc.bext else BextOnDisk(f.big, bext))
            && r.scan.dataSize == |samples| && 8 <= r.scan.headerLength <= r.scan.headerLength + |samples| <= |s|
            && s[r.scan.headerLength - 8..r.scan.headerLength - 4] == DATA
            && s[r.scan.headerLength..r.scan.headerLength + |samples|] == samples
  {
    hide FileOf, ReadHeader, OwnTops, WellFormedTop, BextOnDisk, ReadBack, WrittenParts;
    var c := Content(sc.format, sc.bext, sc.info, None);
    assert FileOf(ts) + [] == FileOf(ts);
    WellFormedRead(ts, [], sc);
    ForeignTopsTellNothing(c, ts);
    WrittenTell(f, samples, bext, es, c);
  }

  lemma WrittenTell(f: Format, samples: bytes, bext: bytes, es: seq<Entry>, c: Content)
    ensures ToldByAll(c, [Wave(f.big, WrittenParts(f, samples, bext, es))]) ==
            Content(f, if bext == [] then c.bext else BextOnDisk(f.big, bext), ReadBack(c.info, es), Some(samples))
  {
    hide BextOnDisk, ReadBack;
    ReadBackNone(c.info);
    var samplesOnly := [Fmt(f, 1, []), Data(samples)];
    var bexts := if bext == [] then [] else [Bext(BextOnDisk(f.big, bext))];
    var infos := if es == [] then [] else [Info(es)];
    assert WrittenParts(f, samples, bext, es) == samplesOnly + (bexts + infos);
    ToldByAppend(c, samplesOnly, bexts + infos);
    ToldByAppend(ToldBy(c, samplesOnly), bexts, infos);
    assert samplesOnly[1..] == [Data(samples)];
    ToldByOne(c.(format := f), Data(samples));
    var c1 := ToldBy(c, samplesOnly);
    assert c1 == c.(format := f, samples := Some(samples));
    if bext != [] {
      ToldByOne(c1, Bext(BextOnDisk(f.big, bext)));
    }
    if es != [] {
      ToldByOne(ToldBy(c1, bexts), Info(es));
    }
    assert [Wave(f.big, WrittenParts(f, samples, bext, es))][1..] == [];
  }

  lemma ToldByOne(c: Content, p: Part)
    ensures ToldBy(c, [p]) == Told(c, p)
  {
    assert [p][1..] == [];
  }

  lemma ReadBackNone(m: map<bytes, bytes>)
    ensures ReadBack(m, []) == m
  {
  }

  lemma {:induction false} ToldByAppend(c: Content, a: seq<Part>, b: seq<Part>)
    ensures ToldBy(c, a + b) == ToldBy(ToldBy(c, a), b)
    decreases |a|
  {
    hide Told;
    if a == [] {
      assert a + b == b;
    } else {
      assert (a + b)[1..] == a[1..] + b;
      ToldByAppend(Told(c, a[0]), a[1..], b);
    }
  }
}
