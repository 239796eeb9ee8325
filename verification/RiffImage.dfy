/** What `write_header`, sample writes and `update_header` leave in a file: first as the
    in-place edits the code makes, then as one nested RIFF image, and that the reader
    gets back what was written. */
module RiffImage {
  import opened Bytes
  import opened RiffReader

  const FMT_ID: bytes := [0x66, 0x6d, 0x74]

  /** Entry of the INFO dictionary: identifier and value. */
  datatype Entry = Entry(key: bytes, value: bytes)

  /** QAudioFormat::bytesPerFrame. */
  function FrameBytes(f: Format): nat {
    f.bits * f.channels / 8
  }

  /** QAudioFormat::bytesForDuration of a second. */
  function ByteRate(f: Format): nat {
    FrameBytes(f) * f.rate
  }

  /** `Desc::set`: an identifier cut at its first NUL and filled up with spaces. */
  function DescId(id: bytes): (r: bytes)
    ensures |r| == 4
  {
    DescIdFrom(id, 4)
  }

  function DescIdFrom(id: bytes, n: nat): (r: bytes)
    ensures |r| == n
    decreases n
  {
    if n == 0 then []
    else if id == [] || id[0] == 0 then [0x20] + DescIdFrom([], n - 1)
    else [id[0]] + DescIdFrom(id[1..], n - 1)
  }

  predicate HasNul(id: bytes) {
    0 in id
  }

  lemma {:induction false} DescIdFromMeaning(id: bytes, n: nat)
    requires |id| <= n
    decreases n
    ensures !HasNul(DescIdFrom(id, n))
    ensures |id| == n ==> (DescIdFrom(id, n) == id <==> !HasNul(id))
  {
    if n > 0 {
      if id == [] || id[0] == 0 {
        DescIdFromMeaning([], n - 1);
        assert |id| == n ==> DescIdFrom(id, n)[0] != id[0];
      } else {
        DescIdFromMeaning(id[1..], n - 1);
        assert id == [id[0]] + id[1..];
        assert DescIdFrom(id, n)[1..] == DescIdFrom(id[1..], n - 1);
      }
    }
  }

  function FormatBytes(f: Format): (r: bytes)
    ensures |r| == FMT_SIZE
  {
    Enc(f.big, 1, 2) + Enc(f.big, f.channels, 2) + Enc(f.big, f.rate, 4) +
    Enc(f.big, ByteRate(f), 4) + Enc(f.big, FrameBytes(f), 2) + Enc(f.big, f.bits, 2)
  }

  function RiffId(big: bool): (r: bytes)
    ensures |r| == 4
  {
    if big then RIFX else RIFF
  }

  /** The header as write_header leaves it: the RIFF size is still zero and the data
      size still holds the format chunk's. */
  function FreshHeader(f: Format): (r: bytes)
    ensures |r| == 44
  {
    RiffId(f.big) + [0, 0, 0, 0] + WAVE + FMT + Enc(f.big, FMT_SIZE, 4) + FormatBytes(f) +
    DATA + Enc(f.big, FMT_SIZE, 4)
  }

  function Swap(s: bytes): (r: bytes)
    ensures |r| == |s|
  {
    if s == [] then [] else Swap(s[1..]) + [s[0]]
  }

  /** The bext block as update_header leaves it: a big-endian file has its two time
      references and its five loudness fields reversed octet by octet; the version is
      only ever swapped when it is zero. */
  function BextOnDisk(big: bool, b: bytes): (r: bytes)
    ensures |r| == |b|
  {
    if !big || |b| < BEXT_SIZE then b
    else
      b[..340] + Swap(b[340..344]) + Swap(b[344..348]) + b[348..414] +
      Swap(b[414..416]) + Swap(b[416..418]) + Swap(b[418..420]) + Swap(b[420..422]) + Swap(b[422..424]) + b[424..]
  }

  function Chunk(big: bool, id: bytes, payload: bytes): (r: bytes)
    ensures |r| == |id| + 4 + |payload|
  {
    id + Enc(big, |payload|, 4) + payload
  }

  function InfoChunk(big: bool, e: Entry): bytes {
    Chunk(big, DescId(e.key), e.value + [0])
  }

  function InfoChunks(big: bool, es: seq<Entry>): (r: seq<bytes>)
    ensures |r| == |es|
  {
    seq(|es|, i requires 0 <= i < |es| => InfoChunk(big, es[i]))
  }

  /** Chunks one after the other, each on an even offset; the last one is not padded. */
  function Join(cs: seq<bytes>): bytes {
    if cs == [] then [] else Padded(Join(cs[..|cs| - 1])) + cs[|cs| - 1]
  }

  /** The edits of update_header, in its order, for sample data of `size` octets. */
  function WithDataSize(s: bytes, headerLength: nat, size: nat, big: bool): (r: bytes)
    requires CHUNK_HEADER <= headerLength <= |s|
    ensures |r| == |s|
  {
    Overwrite(s, headerLength - CHUNK_HEADER, DATA + Enc(big, size, 4))
  }

  function WithBext(s: bytes, big: bool, bext: bytes): (r: bytes)
    ensures |r| >= |s|
  {
    if bext == [] then s else Padded(s) + Chunk(big, BEXT, BextOnDisk(big, bext))
  }

  function WithInfo(s: bytes, big: bool, es: seq<Entry>): (r: bytes)
    ensures |r| >= |s|
  {
    if es == [] then s else Padded(s) + Chunk(big, LIST, INFO + Join(InfoChunks(big, es)))
  }

  function WithRiffSize(s: bytes, big: bool): bytes
    requires |s| >= CHUNK_HEADER
  {
    Overwrite(Padded(s), 0, RiffId(big) + Enc(big, |s| - CHUNK_HEADER, 4))
  }

  function Updated(s: bytes, headerLength: nat, size: nat, big: bool, bext: bytes, es: seq<Entry>): bytes
    requires CHUNK_HEADER <= headerLength <= |s|
  {
    WithRiffSize(WithInfo(WithBext(WithDataSize(s, headerLength, size, big), big, bext), big, es), big)
  }

  /** The chunks of a finished file, in order. */
  function FileChunks(f: Format, samples: bytes, bext: bytes, es: seq<Entry>): seq<bytes> {
    [Chunk(f.big, FMT, FormatBytes(f)), Chunk(f.big, DATA, samples)] +
    (if bext == [] then [] else [Chunk(f.big, BEXT, BextOnDisk(f.big, bext))]) +
    (if es == [] then [] else [Chunk(f.big, LIST, INFO + Join(InfoChunks(f.big, es)))])
  }

  /** A finished file: one padded RIFF chunk around the WAVE form. */
  function Image(f: Format, samples: bytes, bext: bytes, es: seq<Entry>): bytes {
    Padded(Chunk(f.big, RiffId(f.big), WAVE + Join(FileChunks(f, samples, bext, es))))
  }

  lemma JoinSnoc(cs: seq<bytes>, c: bytes)
    ensures Join(cs + [c]) == Padded(Join(cs)) + c
  {
    assert (cs + [c])[..|cs|] == cs;
  }

  lemma PaddedTail(front: bytes, b: bytes)
    requires |front| % 2 == 0
    ensures Padded(front + b) == front + Padded(b)
  {
    assert front + b + [0] == front + (b + [0]);
  }

  lemma OverwriteMiddle(a: bytes, before: bytes, after: bytes, b: bytes)
    requires |before| == |after|
    ensures Overwrite(a + before + b, |a|, after) == a + after + b
  {
    assert (a + before + b)[..|a|] == a;
    assert (a + before + b)[|a| + |after|..] == b;
  }

  lemma JoinOne(c: bytes)
    ensures Join([c]) == c
  {
    assert [c][..0] == [];
  }

  lemma {:induction false} JoinCons(c: bytes, cs: seq<bytes>)
    requires cs != []
    ensures Join([c] + cs) == Padded(c) + Join(cs)
    decreases |cs|
  {
    hide *;
    var n := |cs| - 1;
    var last := cs[n];
    if n == 0 {
      assert cs == [last];
      JoinOne(c);
      JoinOne(last);
      JoinSnoc([c], last);
      assert [c] + cs == [c] + [last];
    } else {
      var init := cs[..n];
      assert cs == init + [last] && [c] + cs == ([c] + init) + [last];
      assert init != [];
      JoinCons(c, init);
      JoinSnoc(init, last);
      JoinSnoc([c] + init, last);
      PaddedTail(Padded(c), Join(init));
      assert Padded(c) + Padded(Join(init)) + last == Padded(c) + (Padded(Join(init)) + last);
    }
  }

  lemma AppendChunk(front: bytes, cs: seq<bytes>, c: bytes)
    requires |front| % 2 == 0
    ensures Padded(front + Join(cs)) + c == front + Join(cs + [c])
  {
    hide *;
    JoinSnoc(cs, c);
    PaddedTail(front, Join(cs));
    assert front + Padded(Join(cs)) + c == front + (Padded(Join(cs)) + c);
  }

  /** The first twelve octets, with the given RIFF size. */
  function Front(big: bool, size: bytes): (r: bytes)
    requires |size| == 4
    ensures |r| == 12
  {
    RiffId(big) + size + WAVE
  }

  lemma FinalPatch(big: bool, size: bytes, body: bytes)
    requires |size| == 4
    ensures WithRiffSize(Front(big, size) + body, big) == Padded(Chunk(big, RiffId(big), WAVE + body))
  {
    var id, rest := RiffId(big), WAVE + body;
    var s := Front(big, size) + body;
    var patched := Enc(big, |rest|, 4);
    assert s == (id + size) + rest;
    PaddedTail(id + size, rest);
    assert [] + (id + size) + Padded(rest) == (id + size) + Padded(rest);
    OverwriteMiddle([], id + size, id + patched, Padded(rest));
    PaddedTail(id + patched, rest);
    assert [] + (id + patched) + Padded(rest) == (id + patched) + Padded(rest);
  }

  lemma FreshPieces(f: Format)
    ensures FreshHeader(f)
         == Front(f.big, [0, 0, 0, 0]) + Chunk(f.big, FMT, FormatBytes(f)) + (DATA + Enc(f.big, FMT_SIZE, 4))
  {
    hide RiffId, FormatBytes, Enc;
  }

  lemma PatchData(head: bytes, big: bool, samples: bytes)
    ensures WithDataSize(head + (DATA + Enc(big, FMT_SIZE, 4)) + samples, |head| + CHUNK_HEADER, |samples|, big)
         == head + Chunk(big, DATA, samples)
  {
    hide Enc, Overwrite;
    OverwriteMiddle(head, DATA + Enc(big, FMT_SIZE, 4), DATA + Enc(big, |samples|, 4), samples);
    assert head + (DATA + Enc(big, |samples|, 4)) + samples == head + (DATA + Enc(big, |samples|, 4) + samples);
  }

  lemma FirstPatch(f: Format, samples: bytes)
    ensures WithDataSize(FreshHeader(f) + samples, 44, |samples|, f.big)
         == Front(f.big, [0, 0, 0, 0]) + Join([Chunk(f.big, FMT, FormatBytes(f)), Chunk(f.big, DATA, samples)])
  {
    hide Front, Chunk, FormatBytes, Join, Enc, FreshHeader, WithDataSize;
    var front, fmt, data := Front(f.big, [0, 0, 0, 0]), Chunk(f.big, FMT, FormatBytes(f)),
      Chunk(f.big, DATA, samples);
    FreshPieces(f);
    PatchData(front + fmt, f.big, samples);
    JoinOne(fmt);
    JoinSnoc([fmt], data);
    assert [fmt, data] == [fmt] + [data];
    assert Padded(fmt) == fmt;
    assert front + fmt + data == front + (fmt + data);
  }

  /** The in-place edits of update_header on a freshly written file produce the nested
      image: back-patched sizes, chunk order and padding all agree with it. */
  lemma UpdatedImage(f: Format, samples: bytes, bext: bytes, es: seq<Entry>)
    ensures Updated(FreshHeader(f) + samples, 44, |samples|, f.big, bext, es) == Image(f, samples, bext, es)
  {
    hide Join, Chunk, WithDataSize, WithRiffSize, FormatBytes, BextOnDisk, Padded, FreshHeader;
    var big := f.big;
    var front := Front(big, [0, 0, 0, 0]);
    FirstPatch(f, samples);
    var cs := [Chunk(big, FMT, FormatBytes(f)), Chunk(big, DATA, samples)];
    if bext != [] {
      var c := Chunk(big, BEXT, BextOnDisk(big, bext));
      AppendChunk(front, cs, c);
      cs := cs + [c];
    }
    if es != [] {
      var c := Chunk(big, LIST, INFO + Join(InfoChunks(big, es)));
      AppendChunk(front, cs, c);
      cs := cs + [c];
    }
    assert cs == FileChunks(f, samples, bext, es);
    FinalPatch(big, [0, 0, 0, 0], Join(cs));
  }
}
