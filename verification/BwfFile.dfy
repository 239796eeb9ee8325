/** `BWFFile::impl` over a file held in memory: the loops of read_header, write_header and
    update_header, each proved against the functions of RiffReader and RiffImage. */
module BwfFile {
  import opened Bytes
  import opened Wrappers
  import opened RiffReader
  import opened RiffImage
  import opened RiffRoundTrip

  class BwfFile {
    // the QFile: its octets, position and open mode
    var data: bytes
    var pos: nat
    var readable: bool
    var writable: bool

    var format: Format
    var bext: bytes
    var info: map<bytes, bytes>
    var headerLength: int
    var dataSize: int
    ghost var visits: seq<Visit>

    ghost predicate Valid()
      reads this
    {
      && pos <= |data|
      && (headerLength < 0 || CHUNK_HEADER <= headerLength <= |data|)
    }

    ghost function State(): Scan
      reads this
    {
      Scan(format, bext, info, dataSize, headerLength, visits)
    }

    constructor (format: Format)
      ensures Valid() && data == [] && pos == 0 && readable && writable
      ensures this.format == format && bext == [] && info == map[] && headerLength == dataSize == -1
    {
      data, pos, readable, writable := [], 0, true, true;
      this.format, bext, info, headerLength, dataSize, visits := format, [], map[], -1, -1, [];
    }

    // ----- QFile -----

    /** Positions beyond the end of the file are never asked for. */
    method Seek(p: nat)
      requires p <= |data|
      modifies `pos
      ensures pos == p
    {
      pos := p;
    }

    method Read(n: nat) returns (r: bytes)
      requires pos <= |data|
      modifies `pos
      ensures pos == old(pos) + |r| <= |data| && r == data[old(pos)..pos]
      ensures |r| == if old(pos) + n <= |data| then n else |data| - old(pos)
    {
      var end := if pos + n <= |data| then pos + n else |data|;
      r := data[pos..end];
      pos := end;
    }

    method Write(b: bytes)
      requires pos <= |data|
      modifies `pos, `data
      ensures data == Overwrite(old(data), old(pos), b) && pos == old(pos) + |b|
    {
      data := Overwrite(data, pos, b);
      pos := pos + |b|;
    }

    method Append(b: bytes)
      requires pos == |data|
      modifies `pos, `data
      ensures data == old(data) + b && pos == |data|
    {
      Write(b);
      assert old(data)[..|old(data)|] == old(data);
    }

    // ----- reading -----

    method ReadInfoList(big: bool, payloadEnd: int, chunkEnd: int) returns (ok: bool)
      requires Addressable(data) && pos <= |data| && payloadEnd <= chunkEnd <= |data|
      modifies `pos, `info, `visits
      ensures pos <= |data|
      ensures Outcome(ok, State()) == InfoLoop(data, big, old(pos), payloadEnd, chunkEnd, old(State()))
    {
      hide CheckedPayloadEnd, CheckedChunkEnd, U32, InfoLoop, InfoStep;
      ghost var start, before := pos, State();
      var offset := pos;
      while offset + CHUNK_HEADER <= payloadEnd
        invariant offset == pos <= |data|
        invariant InfoLoop(data, big, start, payloadEnd, chunkEnd, before)
               == InfoLoop(data, big, offset, payloadEnd, chunkEnd, State())
        decreases |data| - offset
      {
        InfoTurns(data, big, offset, payloadEnd, chunkEnd, State());
        ok := ReadInfoItem(big, payloadEnd, chunkEnd);
        if !ok {
          return;
        }
        offset := pos;
      }
      InfoTurns(data, big, offset, payloadEnd, chunkEnd, State());
      InfoEnds(data, big, offset, payloadEnd, chunkEnd, State());
      ok := true;
    }

    /** One item of the list. */
    method ReadInfoItem(big: bool, payloadEnd: int, chunkEnd: int) returns (ok: bool)
      requires Addressable(data) && pos + CHUNK_HEADER <= payloadEnd <= chunkEnd <= |data|
      modifies `pos, `info, `visits
      ensures pos <= |data|
      ensures InfoStep(data, big, old(pos), payloadEnd, chunkEnd, old(State()))
           == if ok then Next(pos, State()) else Stop(Outcome(false, State()))
    {
      hide CheckedPayloadEnd, CheckedChunkEnd, U32;
      ghost var offset := pos;
      var desc := Read(CHUNK_HEADER);
      var id, size := desc[..4], U32(big, desc[4..]);
      assert id == data[offset..offset + 4] && desc[4..] == data[offset + 4..offset + 8];
      var payload := pos;
      var pe, ce := CheckedPayloadEnd(payload, size, payloadEnd), CheckedChunkEnd(payload, size, chunkEnd);
      if pe.None? || ce.None? {
        return false;
      }
      visits := visits + [Visit(2, offset, payload, size, ce.value)];
      if size > MAX_READ {
        info := if id in info then info else info[id := []];
        return false;
      }
      var value := Read(size);
      info := info[id := value];
      Seek(ce.value);
      ok := true;
    }

    /** The contents of a chunk of the WAVE form, from its payload's start on. */
    method ReadWaveChunk(big: bool, id: bytes, size: nat, chunkEnd: int) returns (ok: bool)
      requires Addressable(data) && pos + size <= chunkEnd <= |data|
      modifies `pos, `format, `bext, `info, `headerLength, `dataSize, `visits
      ensures pos <= |data|
      ensures Outcome(ok, State()) == WaveChunk(data, big, id, old(pos), size, chunkEnd, old(State()))
    {
      hide InfoLoop, ReadFormat;
      var payload := pos;
      if id == BEXT {
        if size < BEXT_SIZE || size > MAX_READ {
          return false;
        }
        bext := Read(size);
      }
      if id == FMT {
        if size < FMT_SIZE {
          return false;
        }
        var fmt := Read(FMT_SIZE);
        match ReadFormat(big, fmt) {
          case None => return false;
          case Some(f) => format := f;
        }
      } else if id == DATA {
        dataSize := size;
        headerLength := pos;
      } else if id == LIST {
        if size < RIFF_TYPE {
          return false;
        }
        var listType := Read(RIFF_TYPE);
        if listType == INFO {
          ok := ReadInfoList(big, payload + size, chunkEnd);
          return ok;
        }
      }
      ok := true;
    }

    method ReadWave(big: bool, outerEnd: int) returns (ok: bool)
      requires Addressable(data) && pos <= |data| && outerEnd <= |data|
      modifies `pos, `format, `bext, `info, `headerLength, `dataSize, `visits
      ensures pos <= |data|
      ensures Outcome(ok, State()) == WaveLoop(data, big, old(pos), outerEnd, old(State()))
    {
      hide CheckedPayloadEnd, CheckedChunkEnd, U32, WaveChunk;
      ghost var start, before := pos, State();
      var offset := pos;
      while offset + CHUNK_HEADER <= outerEnd
        invariant offset == pos <= |data|
        invariant WaveLoop(data, big, start, outerEnd, before) == WaveLoop(data, big, offset, outerEnd, State())
        decreases |data| - offset
      {
        var desc := Read(CHUNK_HEADER);
        var id, size := desc[..4], U32(big, desc[4..]);
        assert id == data[offset..offset + 4] && desc[4..] == data[offset + 4..offset + 8];
        var payload := pos;
        var pe, ce := CheckedPayloadEnd(payload, size, outerEnd), CheckedChunkEnd(payload, size, outerEnd);
        if pe.None? || ce.None? {
          return false;
        }
        visits := visits + [Visit(1, offset, payload, size, ce.value)];
        ok := ReadWaveChunk(big, id, size, ce.value);
        if !ok {
          return;
        }
        Seek(ce.value);
        offset := pos;
      }
      ok := true;
    }

    /** The payload of a top-level chunk. */
    method ReadOuterChunk(id: bytes, size: nat, end: int) returns (ok: bool)
      requires Addressable(data) && pos + size <= end <= |data|
      modifies `pos, `format, `bext, `info, `headerLength, `dataSize, `visits
      ensures pos <= |data|
      ensures Outcome(ok, State()) == OuterChunk(data, id, old(pos), size, end, old(State()))
    {
      hide WaveLoop;
      if id == RIFF || id == RIFX {
        if size < RIFF_TYPE {
          return false;
        }
        var item := Read(RIFF_TYPE);
        if item == WAVE {
          ok := ReadWave(id == RIFX, end);
          return ok;
        }
      }
      ok := true;
    }

    method ReadChunks() returns (ok: bool)
      requires Addressable(data) && pos == 0
      modifies `pos, `format, `bext, `info, `headerLength, `dataSize, `visits
      ensures pos <= |data|
      ensures Outcome(ok, State()) == OuterLoop(data, 0, old(State()))
    {
      hide CheckedChunkEnd, U32, OuterChunk;
      ghost var before := State();
      var offset := pos;
      while offset + CHUNK_HEADER <= |data|
        invariant offset == pos <= |data|
        invariant OuterLoop(data, 0, before) == OuterLoop(data, offset, State())
        decreases |data| - offset
      {
        var desc := Read(CHUNK_HEADER);
        var id := desc[..4];
        var size := U32(id == RIFX, desc[4..]);
        assert id == data[offset..offset + 4] && desc[4..] == data[offset + 4..offset + 8];
        var payload := pos;
        var ce := CheckedChunkEnd(payload, size, |data|);
        if ce.None? {
          return false;
        }
        visits := visits + [Visit(0, offset, payload, size, ce.value)];
        ok := ReadOuterChunk(id, size, ce.value);
        if !ok {
          return;
        }
        Seek(ce.value);
        offset := pos;
      }
      ok := true;
    }

    /** On any octets the reader keeps to the file and does what ReadHeader says; a file
        that it accepts is left positioned at its sample data, which lies in the file. */
    method ReadHeader() returns (ok: bool)
      requires Valid() && Addressable(data)
      modifies `pos, `format, `bext, `info, `headerLength, `dataSize, `visits
      ensures pos <= |data|
      ensures !readable ==> !ok && headerLength == dataSize == -1
      ensures readable ==> Outcome(ok, State()) == RiffReader.ReadHeader(data, old(State()))
      ensures ok ==> Valid() && pos == headerLength && headerLength + dataSize <= |data|
      ensures readable ==> forall i :: 0 <= i < |visits| ==> Placed(visits[..i], visits[i], |data|)
    {
      hide OuterLoop, Placed;
      RiffReader.ReadHeaderSafe(data, State());
      headerLength, dataSize := -1, -1;
      if !readable {
        return false;
      }
      visits := [];
      Seek(0);
      ok := ReadChunks();
      ok := ok && dataSize >= 0;
      if ok {
        Seek(headerLength);
      }
    }

    // ----- writing -----

    /** Writes the 44 octet header over the start of the file. Sizes are stale until
        UpdateHeader is called: the RIFF size is zero, the data size the format's. */
    method WriteHeader(f: Format, codecIsPcm: bool) returns (ok: bool)
      requires Valid() && f.big == format.big
      modifies `data, `pos, `headerLength, `dataSize
      ensures ok == (codecIsPcm && writable) && dataSize == -1
      ensures !ok ==> data == old(data) && pos == old(pos) && headerLength == old(headerLength)
      ensures ok ==> Valid() && pos == headerLength == 44 && data == Overwrite(old(data), 0, FreshHeader(f))
    {
      hide FormatBytes, Enc, RiffId, DescId, Overwrite, FreshHeader;
      dataSize := -1;
      if !codecIsPcm || !writable {
        return false;
      }
      Seek(0);
      headerLength := 0;
      var big := format.big;
      var desc := RiffId(big) + [0, 0, 0, 0];
      var fmtDesc := DescId(FMT_ID) + Enc(big, FMT_SIZE, 4);
      var dataDesc := DescId(DATA) + Enc(big, FMT_SIZE, 4);
      Write(desc);
      Write(WAVE);
      OverwriteTwice(old(data), desc, WAVE);
      Write(fmtDesc);
      OverwriteTwice(old(data), desc + WAVE, fmtDesc);
      Write(FormatBytes(f));
      OverwriteTwice(old(data), desc + WAVE + fmtDesc, FormatBytes(f));
      Write(dataDesc);
      OverwriteTwice(old(data), desc + WAVE + fmtDesc + FormatBytes(f), dataDesc);
      HeaderPieces(f);
      headerLength := pos;
      ok := true;
    }

    method PadToEven()
      requires pos == |data|
      modifies `pos, `data
      ensures data == Padded(old(data)) && pos == |data|
    {
      if |data| % 2 == 1 {
        Append([0]);
      }
    }

    method AppendBext()
      requires Valid()
      modifies `pos, `data, `bext
      ensures data == WithBext(old(data), format.big, old(bext)) && pos <= |data|
      ensures bext == BextOnDisk(format.big, old(bext))
    {
      hide Enc;
      if bext != [] {
        Seek(|data|);
        var size := |bext|;
        PadToEven();
        Append(BEXT + Enc(format.big, size, 4));
        bext := BextOnDisk(format.big, bext);
        Append(bext);
        assert data == Padded(old(data)) + (BEXT + Enc(format.big, size, 4) + bext);
      }
    }

    /** One item of the list: identifier, length and value with its NUL. */
    method AppendItem(e: Entry)
      requires pos == |data|
      modifies `pos, `data
      ensures data == Padded(old(data)) + (DescId(e.key) + Enc(format.big, |e.value| + 1, 4)) + (e.value + [0])
      ensures pos == |data|
    {
      hide Enc, Padded, DescId;
      PadToEven();
      Append(DescId(e.key) + Enc(format.big, |e.value| + 1, 4));
      Append(e.value + [0]);
    }

    method AppendItems(entries: seq<Entry>)
      requires pos == |data| && |data| % 2 == 0
      modifies `pos, `data
      ensures data == old(data) + Join(InfoChunks(format.big, entries)) && pos == |data|
    {
      hide Enc, Join, InfoChunks, InfoChunk, Padded, DescId;
      var big := format.big;
      NoItems(big, entries);
      for i := 0 to |entries|
        invariant data == old(data) + Join(InfoChunks(big, entries[..i])) && pos == |data|
      {
        AppendItem(entries[i]);
        InfoAppended(big, old(data), entries, i);
      }
      assert entries[..|entries|] == entries;
    }

    /** The LIST chunk, its size patched in once the entries are written. */
    method AppendInfo(entries: seq<Entry>)
      requires Valid()
      modifies `pos, `data
      ensures data == WithInfo(old(data), format.big, entries) && pos <= |data|
    {
      hide Enc, Join, InfoChunks, InfoChunk, Padded, Overwrite, Chunk;
      if entries == [] {
        return;
      }
      var big := format.big;
      Seek(|data|);
      PadToEven();
      ghost var start := data;
      Append(LIST + Enc(big, 0, 4));
      var listStart := pos;
      Append(INFO);
      AppendItems(entries);
      ListPatched(big, start, Join(InfoChunks(big, entries)));
      var size := pos - listStart;
      Seek(listStart - CHUNK_HEADER);
      Write(LIST + Enc(big, size, 4));
    }

    /** Brings sizes and trailing chunks up to date; `entries` is the dictionary in the
        order it is iterated. The position is as before. */
    method UpdateHeader(entries: seq<Entry>) returns (ok: bool)
      requires Valid() && Lists(entries, info)
      modifies `pos, `data, `bext
      ensures Valid() && ok == (headerLength >= 0 && writable) && pos == old(pos)
      ensures !ok ==> data == old(data) && bext == old(bext)
      ensures ok ==>
                && bext == BextOnDisk(format.big, old(bext))
                && data == Updated(old(data), headerLength,
                                   if dataSize < 0 then |old(data)| - headerLength else dataSize,
                                   format.big, old(bext), entries)
    {
      hide Enc, WithBext, WithInfo, WithRiffSize, BextOnDisk, RiffId, Overwrite, Padded;
      if headerLength < 0 || !writable {
        return false;
      }
      var position, big := pos, format.big;
      var size := if dataSize < 0 then |data| - headerLength else dataSize;
      Seek(headerLength - CHUNK_HEADER);
      Write(DATA + Enc(big, size, 4));
      AppendBext();
      AppendInfo(entries);
      PatchRiffSize();
      Seek(position);
      ok := true;
    }

    method PatchRiffSize()
      requires |data| >= CHUNK_HEADER
      modifies `pos, `data
      ensures data == WithRiffSize(old(data), format.big) && |data| >= |old(data)|
    {
      hide Enc, RiffId, Overwrite;
      var riffSize := |data| - CHUNK_HEADER;
      Seek(|data|);
      PadToEven();
      Seek(0);
      Write(RiffId(format.big) + Enc(format.big, riffSize, 4));
    }
  }

  /** A recording made and read again through the class: the samples arrive in pieces. */
  method WriteThenRead(f: Format, pieces: seq<bytes>, bext: bytes, info: map<bytes, bytes>,
                       entries: seq<Entry>)
    returns (reader: BwfFile)
    requires Writable(f, Concat(pieces), bext, entries) && Lists(entries, info) && forall k :: k in info ==> |k| == 4
    ensures fresh(reader) && reader.Valid() && reader.pos == reader.headerLength == 44
    ensures var samples := Concat(pieces);
            && reader.dataSize == |samples| && 44 + |samples| <= |reader.data|
            && reader.data[44..44 + |samples|] == samples && reader.format == f
            && (bext == [] || !f.big ==> reader.bext == bext)
            && (reader.info == (map k | k in info :: info[k] + [0]) <==> forall k :: k in info ==> !HasNul(k))
  {
    hide Writable, Lists, Updated, FreshHeader, RiffReader.ReadHeader, BextOnDisk, Placed, HasNul, Addressable, U32,
         Concat;
    var writer := WritePieces(f, pieces, bext, info);
    var ok := writer.UpdateHeader(entries);
    reader := new BwfFile(f);
    RoundTrip(f, Concat(pieces), bext, info, entries, reader.State());
    reader.data := writer.data;
    ok := reader.ReadHeader();
  }

  method WritePieces(f: Format, pieces: seq<bytes>, bext: bytes, info: map<bytes, bytes>)
    returns (writer: BwfFile)
    ensures fresh(writer) && writer.Valid() && writer.pos == |writer.data| && writer.writable && writer.format == f
    ensures writer.headerLength == 44 && writer.dataSize == -1 && writer.bext == bext && writer.info == info
    ensures writer.data == FreshHeader(f) + Concat(pieces)
  {
    hide FreshHeader, Concat;
    writer := new BwfFile(f);
    writer.bext, writer.info := bext, info;
    var ok := writer.WriteHeader(f, true);
    assert writer.data == FreshHeader(f);
    ConcatNone();
    for i := 0 to |pieces|
      invariant writer.Valid() && writer.pos == |writer.data| && writer.writable && writer.format == f
      invariant writer.headerLength == 44 && writer.dataSize == -1 && writer.bext == bext && writer.info == info
      invariant writer.data == FreshHeader(f) + Concat(pieces[..i])
    {
      assert pieces[..i + 1] == pieces[..i] + [pieces[i]];
      ConcatSnoc(pieces[..i], pieces[i]);
      assert FreshHeader(f) + Concat(pieces[..i]) + pieces[i] ==
             FreshHeader(f) + (Concat(pieces[..i]) + pieces[i]);
      writer.Append(pieces[i]);
    }
    assert pieces[..|pieces|] == pieces;
  }

  lemma FixedIds()
    ensures DescId(FMT_ID) == FMT && DescId(DATA) == DATA
  {
    assert DescIdFrom([], 1) == [0x20];
    assert DescIdFrom([0x74], 2) == [0x74, 0x20];
    assert DescIdFrom([0x6d, 0x74], 3) == [0x6d, 0x74, 0x20];
    assert FMT_ID[1..] == [0x6d, 0x74] && [0x6d, 0x74][1..] == [0x74];
    DescIdFromMeaning(DATA, 4);
  }

  lemma HeaderPieces(f: Format)
    ensures (RiffId(f.big) + [0, 0, 0, 0]) + WAVE + (DescId(FMT_ID) + Enc(f.big, FMT_SIZE, 4)) + FormatBytes(f) +
            (DescId(DATA) + Enc(f.big, FMT_SIZE, 4)) == FreshHeader(f)
  {
    hide DescId, Enc, FormatBytes, RiffId;
    FixedIds();
  }

  lemma NoItems(big: bool, entries: seq<Entry>)
    ensures Join(InfoChunks(big, entries[..0])) == []
  {
  }

  lemma OverwriteTwice(s: bytes, a: bytes, b: bytes)
    ensures Overwrite(Overwrite(s, 0, a), |a|, b) == Overwrite(s, 0, a + b)
  {
  }

  lemma ListPatched(big: bool, start: bytes, items: bytes)
    ensures Overwrite(start + (LIST + Enc(big, 0, 4)) + INFO + items, |start|, LIST + Enc(big, 4 + |items|, 4))
         == start + Chunk(big, LIST, INFO + items)
  {
    hide Enc, Overwrite;
    var stale, header := LIST + Enc(big, 0, 4), LIST + Enc(big, 4 + |items|, 4);
    assert start + stale + INFO + items == start + stale + (INFO + items);
    OverwriteMiddle(start, stale, header, INFO + items);
    assert start + header + (INFO + items) == start + Chunk(big, LIST, INFO + items);
  }

  lemma InfoAppended(big: bool, front: bytes, entries: seq<Entry>, i: nat)
    requires i < |entries| && |front| % 2 == 0
    ensures Padded(front + Join(InfoChunks(big, entries[..i]))) +
            (DescId(entries[i].key) + Enc(big, |entries[i].value| + 1, 4)) + (entries[i].value + [0])
         == front + Join(InfoChunks(big, entries[..i + 1]))
  {
    hide Join, Enc, DescId, Padded;
    var cs, c := InfoChunks(big, entries[..i]), InfoChunk(big, entries[i]);
    assert InfoChunks(big, entries[..i + 1]) == cs + [c];
    AppendChunk(front, cs, c);
    var p := Padded(front + Join(cs));
    var head, value := DescId(entries[i].key) + Enc(big, |entries[i].value| + 1, 4), entries[i].value + [0];
    assert p + head + value == p + (head + value);
  }
}
