/** What `BWFFile::impl::read_header` does to a byte string: three nested walks over
    RIFF chunks with checked bounds. The walks are stated here as functions of the
    file's octets; the class in BwfFile.dfy runs them as loops over a file. */
module RiffReader {
  import opened Bytes
  import opened Wrappers

  const MAX_INT64 := 0x7fff_ffff_ffff_ffff
  const MIN_INT64 := -0x8000_0000_0000_0000
  const CHUNK_HEADER := 8
  const RIFF_TYPE := 4
  const MAX_READ := 0x7fff_ffff
  const FMT_SIZE := 16
  // sizeof (BroadcastAudioExtension): the origination time field is ten octets wide
  const BEXT_SIZE := 604

  const RIFF: bytes := [0x52, 0x49, 0x46, 0x46]
  const RIFX: bytes := [0x52, 0x49, 0x46, 0x58]
  const WAVE: bytes := [0x57, 0x41, 0x56, 0x45]
  const FMT: bytes := [0x66, 0x6d, 0x74, 0x20]
  const DATA: bytes := [0x64, 0x61, 0x74, 0x61]
  const BEXT: bytes := [0x62, 0x65, 0x78, 0x74]
  const LIST: bytes := [0x4c, 0x49, 0x53, 0x54]
  const INFO: bytes := [0x49, 0x4e, 0x46, 0x4f]

  datatype Format = Format(big: bool, channels: nat, rate: nat, bits: nat, unsignedSamples: bool)

  /** An accepted chunk: where its header and payload start, its raw size, and the
      end of its padded extent, which is where the walk seeks to next. */
  datatype Visit = Visit(level: nat, header: int, payload: int, size: nat, end: int)

  datatype Scan = Scan(format: Format, bext: bytes, info: map<bytes, bytes>,
                       dataSize: int, headerLength: int, visits: seq<Visit>)

  datatype Outcome = Outcome(ok: bool, scan: Scan)

  predicate Int64(x: int) {
    MIN_INT64 <= x <= MAX_INT64
  }

  /** 64-bit addition that reports overflow instead of wrapping. */
  function CheckedAdd(lhs: int, rhs: int): (r: Option<int>)
    requires Int64(lhs) && Int64(rhs)
    ensures r.Some? <==> Int64(lhs + rhs)
    ensures r.Some? ==> r.value == lhs + rhs
  {
    if (rhs > 0 && lhs > MAX_INT64 - rhs) || (rhs < 0 && lhs < MIN_INT64 - rhs) then None
    else Some(lhs + rhs)
  }

  function CheckedPaddedSize(raw: nat): Option<int>
    requires raw < 0x1_0000_0000
  {
    CheckedAdd(raw, raw % 2)
  }

  function CheckedChunkEnd(payload: int, raw: nat, limit: int): (r: Option<int>)
    requires Int64(payload) && raw < 0x1_0000_0000 && limit <= MAX_INT64
    ensures r.Some? <==> payload >= 0 && payload + raw + raw % 2 <= limit
    ensures r.Some? ==> r.value == payload + raw + raw % 2
  {
    match CheckedPaddedSize(raw)
    case None => None
    case Some(padded) =>
      match CheckedAdd(payload, padded)
      case None => None
      case Some(end) => if payload >= 0 && end <= limit then Some(end) else None
  }

  function CheckedPayloadEnd(payload: int, raw: nat, limit: int): (r: Option<int>)
    requires Int64(payload) && raw < 0x1_0000_0000 && limit <= MAX_INT64
    ensures r.Some? <==> payload >= 0 && payload + raw <= limit
    ensures r.Some? ==> r.value == payload + raw
  {
    match CheckedAdd(payload, raw)
    case None => None
    case Some(end) => if payload >= 0 && end <= limit then Some(end) else None
  }

  /** A file whose length and header offsets fit QFile's 64-bit positions. */
  predicate Addressable(s: bytes) {
    |s| + CHUNK_HEADER <= MAX_INT64
  }

  function U16(big: bool, s: bytes): (v: nat)
    requires |s| == 2
    ensures v < 0x1_0000
  {
    EncDec(big, s);
    Widths();
    Dec(big, s)
  }

  function U32(big: bool, s: bytes): (v: nat)
    requires |s| == 4
    ensures v < 0x1_0000_0000
  {
    EncDec(big, s);
    Widths();
    Dec(big, s)
  }

  predicate ValidPcm(channels: nat, rate: nat, bits: nat) {
    channels != 0 && rate != 0 && bits != 0 && bits % 8 == 0
  }

  /** The "fmt " payload: none when the codec or the format is refused. */
  function ReadFormat(big: bool, fmt: bytes): Option<Format>
    requires |fmt| == FMT_SIZE
  {
    var codec := U16(big, fmt[0..2]);
    var channels := U16(big, fmt[2..4]);
    var rate := U32(big, fmt[4..8]);
    var bits := U16(big, fmt[14..16]);
    if codec > 1 || !ValidPcm(channels, rate, bits) then None
    else Some(Format(big, channels, rate, bits, bits == 8))
  }

  /** One turn of a chunk walk: it stops, or goes on at the accepted chunk's end. */
  datatype Step = Stop(outcome: Outcome) | Next(end: nat, scan: Scan)

  /** A turn of the INFO walk over sub-chunks whose payloads end by the LIST payload's
      end; the last one's pad may lie in the LIST chunk's own pad. */
  function InfoStep(s: bytes, big: bool, off: nat, payloadEnd: int, chunkEnd: int, sc: Scan): (r: Step)
    requires Addressable(s) && off <= |s| && payloadEnd <= chunkEnd <= |s|
    ensures r.Next? ==> off < r.end <= chunkEnd
  {
    if off + CHUNK_HEADER > payloadEnd then Stop(Outcome(true, sc))
    else
      var id := s[off..off + 4];
      var size := U32(big, s[off + 4..off + 8]);
      var p := off + CHUNK_HEADER;
      match (CheckedPayloadEnd(p, size, payloadEnd), CheckedChunkEnd(p, size, chunkEnd))
      case (Some(_), Some(end)) =>
        var visits := sc.visits + [Visit(2, off, p, size, end)];
        if size > MAX_READ then
          var info := if id in sc.info then sc.info else sc.info[id := []];
          Stop(Outcome(false, sc.(visits := visits, info := info)))
        else
          Next(end, sc.(visits := visits, info := sc.info[id := s[p..p + size]]))
      case _ => Stop(Outcome(false, sc))
  }

  function InfoLoop(s: bytes, big: bool, off: nat, payloadEnd: int, chunkEnd: int, sc: Scan): Outcome
    requires Addressable(s) && off <= |s| && payloadEnd <= chunkEnd <= |s|
    decreases |s| - off
  {
    match InfoStep(s, big, off, payloadEnd, chunkEnd, sc)
    case Stop(o) => o
    case Next(end, sc1) => InfoLoop(s, big, end, payloadEnd, chunkEnd, sc1)
  }

  lemma InfoTurns(s: bytes, big: bool, off: nat, payloadEnd: int, chunkEnd: int, sc: Scan)
    requires Addressable(s) && off <= |s| && payloadEnd <= chunkEnd <= |s|
    ensures InfoLoop(s, big, off, payloadEnd, chunkEnd, sc)
         == match InfoStep(s, big, off, payloadEnd, chunkEnd, sc)
            case Stop(o) => o
            case Next(end, sc1) => InfoLoop(s, big, end, payloadEnd, chunkEnd, sc1)
  {
  }

  lemma InfoEnds(s: bytes, big: bool, off: nat, payloadEnd: int, chunkEnd: int, sc: Scan)
    requires Addressable(s) && off <= |s| && payloadEnd <= chunkEnd <= |s| && off + CHUNK_HEADER > payloadEnd
    ensures InfoStep(s, big, off, payloadEnd, chunkEnd, sc) == Stop(Outcome(true, sc))
  {
  }

  /** What an accepted chunk of the WAVE form contributes. */
  function WaveChunk(s: bytes, big: bool, id: bytes, p: nat, size: nat, chunkEnd: int, sc: Scan): Outcome
    requires Addressable(s) && p + size <= chunkEnd <= |s|
  {
    if id == BEXT then
      if size < BEXT_SIZE || size > MAX_READ then Outcome(false, sc)
      else Outcome(true, sc.(bext := s[p..p + size]))
    else if id == FMT then
      if size < FMT_SIZE then Outcome(false, sc)
      else
        match ReadFormat(big, s[p..p + FMT_SIZE])
        case None => Outcome(false, sc)
        case Some(f) => Outcome(true, sc.(format := f))
    else if id == DATA then
      Outcome(true, sc.(dataSize := size, headerLength := p))
    else if id == LIST then
      if size < RIFF_TYPE then Outcome(false, sc)
      else if s[p..p + RIFF_TYPE] != INFO then Outcome(true, sc)
      else InfoLoop(s, big, p + RIFF_TYPE, p + size, chunkEnd, sc)
    else Outcome(true, sc)
  }

  function WaveStep(s: bytes, big: bool, off: nat, outerEnd: int, sc: Scan): (r: Step)
    requires Addressable(s) && off <= |s| && outerEnd <= |s|
    ensures r.Next? ==> off < r.end <= outerEnd
  {
    if off + CHUNK_HEADER > outerEnd then Stop(Outcome(true, sc))
    else
      var id := s[off..off + 4];
      var size := U32(big, s[off + 4..off + 8]);
      var p := off + CHUNK_HEADER;
      match (CheckedPayloadEnd(p, size, outerEnd), CheckedChunkEnd(p, size, outerEnd))
      case (Some(_), Some(end)) =>
        var r := WaveChunk(s, big, id, p, size, end, sc.(visits := sc.visits + [Visit(1, off, p, size, end)]));
        if r.ok then Next(end, r.scan) else Stop(r)
      case _ => Stop(Outcome(false, sc))
  }

  /** A bext chunk inside the form is refused exactly when it is smaller than the struct or
      larger than what is read at once; the 602 octets of version 0 are refused. */
  lemma BextAccepted(s: bytes, big: bool, off: nat, outerEnd: int, sc: Scan)
    requires Addressable(s) && off + CHUNK_HEADER <= outerEnd <= |s| && s[off..off + 4] == BEXT
    requires var size := U32(big, s[off + 4..off + 8]); off + CHUNK_HEADER + size + size % 2 <= outerEnd
    ensures var size := U32(big, s[off + 4..off + 8]);
            && (WaveStep(s, big, off, outerEnd, sc).Stop? <==> size < BEXT_SIZE || size > MAX_READ)
            && (WaveStep(s, big, off, outerEnd, sc).Stop? ==> !WaveStep(s, big, off, outerEnd, sc).outcome.ok)
            && (size == 602 ==> WaveStep(s, big, off, outerEnd, sc).Stop?)
  {
    hide U32;
  }

  /** A format chunk inside the form is refused exactly when it is too short, its codec is
      neither PCM nor undefined, or it describes no samples of whole octets. */
  lemma FormatAccepted(s: bytes, big: bool, off: nat, outerEnd: int, sc: Scan)
    requires Addressable(s) && off + CHUNK_HEADER <= outerEnd <= |s| && s[off..off + 4] == FMT
    requires var size := U32(big, s[off + 4..off + 8]); off + CHUNK_HEADER + size + size % 2 <= outerEnd
    ensures var size, p, r := U32(big, s[off + 4..off + 8]), off + CHUNK_HEADER, WaveStep(s, big, off, outerEnd, sc);
            && (r.Next? <==>
                  && size >= 16 && Dec(big, s[p..p + 2]) <= 1
                  && Dec(big, s[p + 2..p + 4]) > 0 && Dec(big, s[p + 4..p + 8]) > 0
                  && Dec(big, s[p + 14..p + 16]) > 0 && Dec(big, s[p + 14..p + 16]) % 8 == 0)
            && (r.Stop? ==> !r.outcome.ok)
  {
    hide Dec;
    var size, p := U32(big, s[off + 4..off + 8]), off + CHUNK_HEADER;
    if size >= 16 {
      var fmt := s[p..p + FMT_SIZE];
      assert fmt[0..2] == s[p..p + 2] && fmt[2..4] == s[p + 2..p + 4] && fmt[4..8] == s[p + 4..p + 8];
      assert fmt[14..16] == s[p + 14..p + 16];
    }
  }

  function WaveLoop(s: bytes, big: bool, off: nat, outerEnd: int, sc: Scan): Outcome
    requires Addressable(s) && off <= |s| && outerEnd <= |s|
    decreases |s| - off
  {
    match WaveStep(s, big, off, outerEnd, sc)
    case Stop(o) => o
    case Next(end, sc1) => WaveLoop(s, big, end, outerEnd, sc1)
  }

  /** What an accepted top-level chunk contributes. */
  function OuterChunk(s: bytes, id: bytes, p: nat, size: nat, end: int, sc: Scan): Outcome
    requires Addressable(s) && p + size <= end <= |s|
  {
    if id == RIFF || id == RIFX then
      if size < RIFF_TYPE then Outcome(false, sc)
      else if s[p..p + RIFF_TYPE] != WAVE then Outcome(true, sc)
      else WaveLoop(s, id == RIFX, p + RIFF_TYPE, end, sc)
    else Outcome(true, sc)
  }

  function OuterStep(s: bytes, off: nat, sc: Scan): (r: Step)
    requires Addressable(s) && off <= |s|
    ensures r.Next? ==> off < r.end <= |s|
  {
    if off + CHUNK_HEADER > |s| then Stop(Outcome(true, sc))
    else
      var id := s[off..off + 4];
      var size := U32(id == RIFX, s[off + 4..off + 8]);
      var p := off + CHUNK_HEADER;
      match CheckedChunkEnd(p, size, |s|)
      case Some(end) =>
        var r := OuterChunk(s, id, p, size, end, sc.(visits := sc.visits + [Visit(0, off, p, size, end)]));
        if r.ok then Next(end, r.scan) else Stop(r)
      case None => Stop(Outcome(false, sc))
  }

  function OuterLoop(s: bytes, off: nat, sc: Scan): Outcome
    requires Addressable(s) && off <= |s|
    decreases |s| - off
  {
    match OuterStep(s, off, sc)
    case Stop(o) => o
    case Next(end, sc1) => OuterLoop(s, end, sc1)
  }

  /** The whole of read_header on a readable file that holds `s`. */
  function ReadHeader(s: bytes, sc: Scan): Outcome
    requires Addressable(s)
  {
    var r := OuterLoop(s, 0, sc.(dataSize := -1, headerLength := -1, visits := []));
    Outcome(r.ok && r.scan.dataSize >= 0, r.scan)
  }

  // ----- safety on every byte string -----

  /** Every visit at `level` or deeper has ended by `off`. */
  ghost predicate Ended(vs: seq<Visit>, level: nat, off: int) {
    forall i :: 0 <= i < |vs| && vs[i].level >= level ==> vs[i].end <= off
  }

  /** `p` encloses `v`: the next level up, with `v` inside its padded extent. */
  predicate Encloses(p: Visit, v: Visit) {
    p.level + 1 == v.level && p.payload <= v.header && v.end <= p.end
  }

  /** After the visits `vs`, visit `v` has its place in a file of `fileSize` octets: its
      padded extent, hence the seek target at its end, lies within the file; no earlier
      chunk at its level or deeper is still open; an inner chunk has an earlier parent. */
  ghost predicate Placed(vs: seq<Visit>, v: Visit, fileSize: nat) {
    && 0 <= v.header && v.payload == v.header + CHUNK_HEADER
    && v.end == v.payload + v.size + v.size % 2 <= fileSize
    && Ended(vs, v.level, v.header)
    && (v.level > 0 ==> exists j :: 0 <= j < |vs| && Encloses(vs[j], v))
  }

  /** Each visit has its place after those before it. */
  ghost predicate Forest(vs: seq<Visit>, fileSize: nat) {
    vs == [] || (Placed(vs[..|vs| - 1], vs[|vs| - 1], fileSize) && Forest(vs[..|vs| - 1], fileSize))
  }

  lemma ForestSnoc(vs: seq<Visit>, v: Visit, fileSize: nat)
    requires Forest(vs, fileSize) && Placed(vs, v, fileSize)
    ensures Forest(vs + [v], fileSize)
  {
    assert (vs + [v])[..|vs|] == vs;
  }

  lemma {:induction false} ForestAt(vs: seq<Visit>, fileSize: nat, i: nat)
    requires Forest(vs, fileSize) && i < |vs|
    ensures Placed(vs[..i], vs[i], fileSize)
  {
    if i < |vs| - 1 {
      ForestAt(vs[..|vs| - 1], fileSize, i);
      assert vs[..|vs| - 1][..i] == vs[..i];
    }
  }

  /** The data extent found so far, if any, lies within the file. */
  ghost predicate DataInside(sc: Scan, fileSize: nat) {
    sc.dataSize >= 0 ==> CHUNK_HEADER <= sc.headerLength && sc.headerLength + sc.dataSize <= fileSize
  }

  /** `parent` is the enclosing chunk, at the level above `level`, and `off` is where
      the walk inside it stands. */
  ghost predicate Walking(vs: seq<Visit>, fileSize: nat, level: nat, off: int, parent: nat, chunkEnd: int) {
    && Forest(vs, fileSize) && off <= chunkEnd <= fileSize
    && Ended(vs, level + 1, off) && Ended(vs, level, chunkEnd)
    && parent < |vs| && vs[parent].level == level && vs[parent].payload <= off && vs[parent].end == chunkEnd
  }

  lemma WalkingSnoc(vs: seq<Visit>, v: Visit, fileSize: nat, level: nat, off: int, parent: nat, chunkEnd: int)
    requires Walking(vs, fileSize, level, off, parent, chunkEnd)
    requires v.level == level + 1 && v.header == off && v.payload == off + CHUNK_HEADER && off >= 0
    requires v.end == v.payload + v.size + v.size % 2 && v.end <= chunkEnd
    ensures Walking(vs + [v], fileSize, level, v.end, parent, chunkEnd)
    ensures Walking(vs + [v], fileSize, level + 1, v.payload, |vs|, v.end)
    ensures Deeper(vs, vs + [v], level + 1)
  {
    assert Encloses(vs[parent], v);
    ForestSnoc(vs, v, fileSize);
  }

  lemma WalkingOn(vs: seq<Visit>, fileSize: nat, level: nat, off: int, parent: nat, chunkEnd: int, next: int)
    requires Walking(vs, fileSize, level, off, parent, chunkEnd) && off <= next <= chunkEnd
    ensures Walking(vs, fileSize, level, next, parent, chunkEnd)
  {
  }

  /** `after` extends `before` by visits at `level` or deeper. */
  ghost predicate Deeper(before: seq<Visit>, after: seq<Visit>, level: nat) {
    before <= after && forall i :: |before| <= i < |after| ==> after[i].level >= level
  }

  lemma DeeperTrans(a: seq<Visit>, b: seq<Visit>, c: seq<Visit>, level: nat)
    requires Deeper(a, b, level) && Deeper(b, c, level)
    ensures Deeper(a, c, level)
  {
  }

  lemma WalkingUp(before: seq<Visit>, after: seq<Visit>, fileSize: nat, v: Visit, parent: nat, outerEnd: int)
    requires Walking(before + [v], fileSize, 0, v.end, parent, outerEnd) && parent < |before|
    requires v.level == 1 && Walking(after, fileSize, 1, v.end, |before|, v.end)
    requires Deeper(before + [v], after, 1)
    ensures Walking(after, fileSize, 0, v.end, parent, outerEnd)
  {
    forall i | 0 <= i < |after| ensures after[i].end <= outerEnd {
      if i <= |before| {
        assert after[i] == (before + [v])[i];
      }
    }
    assert after[parent] == (before + [v])[parent];
  }

  lemma InfoStepSafe(s: bytes, big: bool, off: nat, payloadEnd: int, chunkEnd: int, sc: Scan, parent: nat)
    requires Addressable(s) && off <= |s| && payloadEnd <= chunkEnd <= |s|
    requires Walking(sc.visits, |s|, 1, off, parent, chunkEnd)
    ensures var r := InfoStep(s, big, off, payloadEnd, chunkEnd, sc);
            var out := if r.Stop? then r.outcome.scan else r.scan;
            && Walking(out.visits, |s|, 1, if r.Stop? then chunkEnd else r.end, parent, chunkEnd)
            && Deeper(sc.visits, out.visits, 1)
            && out.dataSize == sc.dataSize && out.headerLength == sc.headerLength
  {
    hide CheckedPayloadEnd, CheckedChunkEnd, U32, Forest;
    WalkingOn(sc.visits, |s|, 1, off, parent, chunkEnd, chunkEnd);
    if off + CHUNK_HEADER <= payloadEnd {
      var size := U32(big, s[off + 4..off + 8]);
      var p := off + CHUNK_HEADER;
      var pe, ce := CheckedPayloadEnd(p, size, payloadEnd), CheckedChunkEnd(p, size, chunkEnd);
      if pe.Some? && ce.Some? {
        var v := Visit(2, off, p, size, ce.value);
        WalkingSnoc(sc.visits, v, |s|, 1, off, parent, chunkEnd);
        WalkingOn(sc.visits + [v], |s|, 1, ce.value, parent, chunkEnd, chunkEnd);
      }
    }
  }

  lemma {:induction false} InfoLoopSafe(s: bytes, big: bool, off: nat, payloadEnd: int, chunkEnd: int, sc: Scan,
                                        parent: nat)
    requires Addressable(s) && off <= |s| && payloadEnd <= chunkEnd <= |s|
    requires Walking(sc.visits, |s|, 1, off, parent, chunkEnd)
    ensures var r := InfoLoop(s, big, off, payloadEnd, chunkEnd, sc);
            && Walking(r.scan.visits, |s|, 1, chunkEnd, parent, chunkEnd) && Deeper(sc.visits, r.scan.visits, 1)
            && r.scan.dataSize == sc.dataSize && r.scan.headerLength == sc.headerLength
    decreases |s| - off
  {
    InfoStepSafe(s, big, off, payloadEnd, chunkEnd, sc, parent);
    match InfoStep(s, big, off, payloadEnd, chunkEnd, sc)
    case Stop(_) =>
    case Next(end, sc1) =>
      InfoLoopSafe(s, big, end, payloadEnd, chunkEnd, sc1, parent);
      DeeperTrans(sc.visits, sc1.visits, InfoLoop(s, big, end, payloadEnd, chunkEnd, sc1).scan.visits, 1);
  }

  predicate InfoList(s: bytes, id: bytes, p: nat, size: nat)
    requires p + size <= |s|
  {
    id == LIST && size >= RIFF_TYPE && s[p..p + RIFF_TYPE] == INFO
  }

  lemma WaveChunkPlain(s: bytes, big: bool, id: bytes, p: nat, size: nat, end: int, sc: Scan)
    requires Addressable(s) && p + size <= end <= |s| && !InfoList(s, id, p, size)
    ensures var r := WaveChunk(s, big, id, p, size, end, sc);
            && r.scan.visits == sc.visits
            && ((r.scan.dataSize, r.scan.headerLength) == (sc.dataSize, sc.headerLength)
                || (r.scan.dataSize, r.scan.headerLength) == (size, p))
  {
  }

  lemma WaveChunkSafe(s: bytes, big: bool, id: bytes, p: nat, size: nat, end: int, sc: Scan, self: nat)
    requires Addressable(s) && CHUNK_HEADER <= p && p + size <= end <= |s|
    requires Walking(sc.visits, |s|, 1, p, self, end) && DataInside(sc, |s|)
    ensures var r := WaveChunk(s, big, id, p, size, end, sc);
            Walking(r.scan.visits, |s|, 1, end, self, end) && Deeper(sc.visits, r.scan.visits, 1) &&
              DataInside(r.scan, |s|)
  {
    hide InfoLoop, ReadFormat;
    if InfoList(s, id, p, size) {
      WalkingOn(sc.visits, |s|, 1, p, self, end, p + RIFF_TYPE);
      InfoLoopSafe(s, big, p + RIFF_TYPE, p + size, end, sc, self);
      assert WaveChunk(s, big, id, p, size, end, sc) == InfoLoop(s, big, p + RIFF_TYPE, p + size, end, sc);
    } else {
      WalkingOn(sc.visits, |s|, 1, p, self, end, end);
      WaveChunkPlain(s, big, id, p, size, end, sc);
    }
  }

  lemma WaveStepSafe(s: bytes, big: bool, off: nat, outerEnd: int, sc: Scan, parent: nat)
    requires Addressable(s) && off <= |s| && outerEnd <= |s|
    requires Walking(sc.visits, |s|, 0, off, parent, outerEnd) && DataInside(sc, |s|)
    ensures var r := WaveStep(s, big, off, outerEnd, sc);
            var out := if r.Stop? then r.outcome.scan else r.scan;
            && Walking(out.visits, |s|, 0, if r.Stop? then outerEnd else r.end, parent, outerEnd)
            && DataInside(out, |s|)
  {
    hide WaveChunk;
    WalkingOn(sc.visits, |s|, 0, off, parent, outerEnd, outerEnd);
    if off + CHUNK_HEADER <= outerEnd {
      var id := s[off..off + 4];
      var size := U32(big, s[off + 4..off + 8]);
      var p := off + CHUNK_HEADER;
      var pe, ce := CheckedPayloadEnd(p, size, outerEnd), CheckedChunkEnd(p, size, outerEnd);
      if pe.Some? && ce.Some? {
        var v := Visit(1, off, p, size, ce.value);
        var sc1 := sc.(visits := sc.visits + [v]);
        WalkingSnoc(sc.visits, v, |s|, 0, off, parent, outerEnd);
        WaveChunkSafe(s, big, id, p, size, ce.value, sc1, |sc.visits|);
        var out := WaveChunk(s, big, id, p, size, ce.value, sc1).scan.visits;
        WalkingUp(sc.visits, out, |s|, v, parent, outerEnd);
        WalkingOn(out, |s|, 0, ce.value, parent, outerEnd, outerEnd);
      }
    }
  }

  lemma {:induction false} WaveLoopSafe(s: bytes, big: bool, off: nat, outerEnd: int, sc: Scan, parent: nat)
    requires Addressable(s) && off <= |s| && outerEnd <= |s|
    requires Walking(sc.visits, |s|, 0, off, parent, outerEnd) && DataInside(sc, |s|)
    ensures var r := WaveLoop(s, big, off, outerEnd, sc);
            Walking(r.scan.visits, |s|, 0, outerEnd, parent, outerEnd) && DataInside(r.scan, |s|)
    decreases |s| - off
  {
    WaveStepSafe(s, big, off, outerEnd, sc, parent);
    match WaveStep(s, big, off, outerEnd, sc)
    case Stop(_) =>
    case Next(end, sc1) => WaveLoopSafe(s, big, end, outerEnd, sc1, parent);
  }

  lemma OuterChunkPlain(s: bytes, id: bytes, p: nat, size: nat, end: int, sc: Scan)
    requires Addressable(s) && p + size <= end <= |s|
    ensures if (id == RIFF || id == RIFX) && size >= RIFF_TYPE && s[p..p + RIFF_TYPE] == WAVE
            then OuterChunk(s, id, p, size, end, sc) == WaveLoop(s, id == RIFX, p + RIFF_TYPE, end, sc)
            else OuterChunk(s, id, p, size, end, sc).scan == sc
  {
    hide WaveLoop;
  }

  lemma OuterChunkSafe(s: bytes, id: bytes, p: nat, size: nat, end: int, sc: Scan, v: Visit)
    requires Addressable(s) && p + size <= end <= |s|
    requires v == Visit(0, p - CHUNK_HEADER, p, size, end) && v.end == p + size + size % 2 && v.header >= 0
    requires Forest(sc.visits, |s|) && Ended(sc.visits, 0, v.header) && DataInside(sc, |s|)
    ensures var r := OuterChunk(s, id, p, size, end, sc.(visits := sc.visits + [v]));
            Forest(r.scan.visits, |s|) && Ended(r.scan.visits, 0, end) && DataInside(r.scan, |s|)
  {
    hide WaveLoop, OuterChunk, Forest;
    ForestSnoc(sc.visits, v, |s|);
    var sc1 := sc.(visits := sc.visits + [v]);
    OuterChunkPlain(s, id, p, size, end, sc1);
    if (id == RIFF || id == RIFX) && size >= RIFF_TYPE && s[p..p + RIFF_TYPE] == WAVE {
      WaveLoopSafe(s, id == RIFX, p + RIFF_TYPE, end, sc1, |sc.visits|);
    }
  }

  lemma OuterStepSafe(s: bytes, off: nat, sc: Scan)
    requires Addressable(s) && off <= |s|
    requires Forest(sc.visits, |s|) && Ended(sc.visits, 0, off) && DataInside(sc, |s|)
    ensures var r := OuterStep(s, off, sc);
            var out := if r.Stop? then r.outcome.scan else r.scan;
            Forest(out.visits, |s|) && DataInside(out, |s|) && (r.Next? ==> Ended(out.visits, 0, r.end))
  {
    hide OuterChunk, U32, CheckedChunkEnd;
    if off + CHUNK_HEADER <= |s| {
      var id := s[off..off + 4];
      var size := U32(id == RIFX, s[off + 4..off + 8]);
      var p := off + CHUNK_HEADER;
      var ce := CheckedChunkEnd(p, size, |s|);
      if ce.Some? {
        OuterChunkSafe(s, id, p, size, ce.value, sc, Visit(0, off, p, size, ce.value));
      }
    }
  }

  lemma {:induction false} OuterLoopSafe(s: bytes, off: nat, sc: Scan)
    requires Addressable(s) && off <= |s|
    requires Forest(sc.visits, |s|) && Ended(sc.visits, 0, off) && DataInside(sc, |s|)
    ensures var r := OuterLoop(s, off, sc); Forest(r.scan.visits, |s|) && DataInside(r.scan, |s|)
    decreases |s| - off
  {
    OuterStepSafe(s, off, sc);
    match OuterStep(s, off, sc)
    case Stop(_) =>
    case Next(end, sc1) => OuterLoopSafe(s, end, sc1);
  }

  /** Whatever the octets, every accepted chunk has its place in the file, and an accepted
      file's sample data lies within it. */
  lemma ReadHeaderSafe(s: bytes, sc: Scan)
    requires Addressable(s)
    ensures var r := ReadHeader(s, sc);
            && (forall i :: 0 <= i < |r.scan.visits| ==> Placed(r.scan.visits[..i], r.scan.visits[i], |s|))
            && (r.ok ==> CHUNK_HEADER <= r.scan.headerLength && r.scan.headerLength + r.scan.dataSize <= |s|)
  {
    OuterLoopSafe(s, 0, sc.(dataSize := -1, headerLength := -1, visits := []));
    var vs := ReadHeader(s, sc).scan.visits;
    forall i | 0 <= i < |vs| ensures Placed(vs[..i], vs[i], |s|) {
      ForestAt(vs, |s|, i);
    }
  }
}
