/** The IPFIX writers of Network/PSKReporterIPFIX.cpp: what each of them puts into its
    buffer, and the stream methods that do it, patching the length field in place. */
module Ipfix {
  import opened Bytes
  import opened Utf8

  const MAX_UDP_PAYLOAD := 1000 - 40 - 8
  const MAX_TCP_PAYLOAD := 0xffff
  const CALLSIGN_LIMIT := 32
  const LOCATOR_LIMIT := 16
  const MODE_LIMIT := 16
  const PROGRAM_INFO_LIMIT := 80
  const ANTENNA_LIMIT := 128
  const RIG_INFORMATION_LIMIT := 128
  const PEN := 30351
  const SENDER_ID := 0x50e3
  const RECEIVER_ID := 0x50e2
  const VARIABLE := 0xffff

  datatype Receiver = Receiver(callsign: Text, locator: Text, programInfo: Text, antenna: Text, rigInformation: Text)

  datatype Spot = Spot(callsign: Text, locator: Text, snr: int, frequency: nat, mode: Text, time: int)

  /** An information element of a template: enterprise numbers are those of the PSK
      Reporter elements, `VARIABLE` length stands for a length-prefixed value. */
  datatype Field = Field(id: nat, length: nat, enterprise: bool)

  const SENDER_FIELDS: seq<Field> := [
    Field(1, VARIABLE, true), Field(5, 5, true), Field(6, 1, true), Field(10, VARIABLE, true),
    Field(3, VARIABLE, true), Field(11, 1, true), Field(150, 4, false)]
  const RECEIVER_FIELDS: seq<Field> := [
    Field(2, VARIABLE, true), Field(4, VARIABLE, true), Field(8, VARIABLE, true), Field(9, VARIABLE, true),
    Field(13, VARIABLE, true)]

  function NumPad(len: nat): (r: nat)
    ensures r < 4 && (len + r) % 4 == 0
  {
    (4 - len % 4) % 4
  }

  function Zeros(n: nat): (r: bytes)
    ensures |r| == n && forall i :: 0 <= i < n ==> r[i] == 0
  {
    seq(n, _ => 0)
  }

  /** Pads `b` to a multiple of four and stores the resulting length at octet 2. */
  function WithLength(b: bytes): (r: bytes)
    requires |b| >= 4
    ensures |r| == |b| + NumPad(|b|)
  {
    b[..2] + Be(|b| + NumPad(|b|), 2) + b[4..] + Zeros(NumPad(|b|))
  }

  function UtfString(v: Text, limit: int): bytes {
    [|Bounded(v, limit)| % 256] + Bounded(v, limit)
  }

  function FieldBytes(f: Field): bytes {
    if f.enterprise then Be(0x8000 + f.id, 2) + Be(f.length, 2) + Be(PEN, 4) else Be(f.id, 2) + Be(f.length, 2)
  }

  function FieldsBytes(fs: seq<Field>): bytes {
    if fs == [] then [] else FieldBytes(fs[0]) + FieldsBytes(fs[1..])
  }

  /** A set: its identifier, its padded length, its body. */
  function SetOf(id: nat, body: bytes): (r: bytes)
    ensures |r| == SenderSetLength(|body|)
  {
    WithLength(Be(id, 2) + Be(0, 2) + body)
  }

  function TemplateSet(): bytes {
    SetOf(2, Be(SENDER_ID, 2) + Be(|SENDER_FIELDS|, 2) + FieldsBytes(SENDER_FIELDS))
  }

  /** The options template; its scope field count is one. */
  function OptionsSet(): bytes {
    SetOf(3, Be(RECEIVER_ID, 2) + Be(|RECEIVER_FIELDS|, 2) + Be(1, 2) + FieldsBytes(RECEIVER_FIELDS))
  }

  function DescriptorSets(): bytes {
    TemplateSet() + OptionsSet()
  }

  function ReceiverRecord(r: Receiver): bytes {
    UtfString(r.callsign, CALLSIGN_LIMIT) + UtfString(r.locator, LOCATOR_LIMIT) +
    UtfString(r.programInfo, PROGRAM_INFO_LIMIT) + UtfString(r.antenna, ANTENNA_LIMIT) +
    UtfString(r.rigInformation, RIG_INFORMATION_LIMIT)
  }

  function ReceiverSet(r: Receiver): (s: bytes)
    ensures |s| % 4 == 0
  {
    SetOf(RECEIVER_ID, ReceiverRecord(r))
  }

  function SenderSetLength(recordBytes: nat): (r: nat)
    ensures r % 4 == 0 && recordBytes + 4 <= r <= recordBytes + 7
  {
    var len := 2 * 2 + recordBytes;
    len + NumPad(len)
  }

  function MessageLength(setBytes: nat): (r: nat)
    ensures r % 4 == 0 && setBytes + 16 <= r <= setBytes + 19
  {
    var len := 2 * 2 + 3 * 4 + setBytes;
    len + NumPad(len)
  }

  /** The low octet of a signed eight-bit value. */
  function Int8(v: int): byte {
    v % 256
  }

  function SpotRecord(s: Spot): bytes {
    UtfString(s.callsign, CALLSIGN_LIMIT) +
    Be(s.frequency / 0x1_0000_0000 % 256, 1) + Be(s.frequency % 0x1_0000_0000, 4) + [Int8(s.snr)] +
    UtfString(s.mode, MODE_LIMIT) + UtfString(s.locator, LOCATOR_LIMIT) +
    [1] + Be(s.time % 0x1_0000_0000, 4)
  }

  function Records(spots: seq<Spot>): (r: seq<bytes>)
    ensures |r| == |spots|
  {
    seq(|spots|, i requires 0 <= i < |spots| => SpotRecord(spots[i]))
  }

  function SenderSet(records: seq<bytes>): (s: bytes)
    ensures |s| % 4 == 0
  {
    SetOf(SENDER_ID, Concat(records))
  }

  /** What follows a message's version and length. */
  function MessageBody(sets: bytes, sequence: nat, domain: nat, time: nat): (r: bytes)
    ensures |r| == 12 + |sets|
  {
    Be(time, 4) + Be(sequence, 4) + Be(domain, 4) + sets
  }

  /** A message: version, padded length, export time, sequence number, domain, sets. */
  function Message(sets: bytes, sequence: nat, domain: nat, time: nat): (r: bytes)
    ensures |r| == MessageLength(|sets|)
  {
    WithLength(Be(10, 2) + Be(0, 2) + MessageBody(sets, sequence, domain, time))
  }

  // ----- sizes -----

  lemma UtfStringSize(v: Text, limit: nat)
    requires limit < 256
    ensures 1 <= |UtfString(v, limit)| <= 1 + limit
    ensures UtfString(v, limit) == [|Bounded(v, limit)|] + Bounded(v, limit)
  {
    BoundedIsLongest(v, limit);
  }

  lemma SpotRecordSize(s: Spot)
    ensures 14 <= |SpotRecord(s)| <= 78
  {
    hide UtfString;
    UtfStringSize(s.callsign, CALLSIGN_LIMIT);
    UtfStringSize(s.mode, MODE_LIMIT);
    UtfStringSize(s.locator, LOCATOR_LIMIT);
  }

  lemma ReceiverRecordSize(r: Receiver)
    ensures 5 <= |ReceiverRecord(r)| <= 389
  {
    hide UtfString;
    UtfStringSize(r.callsign, CALLSIGN_LIMIT);
    UtfStringSize(r.locator, LOCATOR_LIMIT);
    UtfStringSize(r.programInfo, PROGRAM_INFO_LIMIT);
    UtfStringSize(r.antenna, ANTENNA_LIMIT);
    UtfStringSize(r.rigInformation, RIG_INFORMATION_LIMIT);
  }

  lemma ReceiverSetSize(r: Receiver)
    ensures |ReceiverSet(r)| % 4 == 0 && 12 <= |ReceiverSet(r)| <= 396
  {
    hide SetOf, ReceiverRecord;
    ReceiverRecordSize(r);
  }

  lemma {:induction false} FieldsSize(fs: seq<Field>)
    requires forall i :: 0 <= i < |fs| ==> fs[i].enterprise
    ensures |FieldsBytes(fs)| == 8 * |fs|
  {
    if fs != [] {
      FieldsSize(fs[1..]);
    }
  }

  lemma {:induction false} FieldsSnoc(fs: seq<Field>, f: Field)
    ensures FieldsBytes(fs + [f]) == FieldsBytes(fs) + FieldBytes(f)
    decreases |fs|
  {
    hide FieldBytes;
    if fs == [] {
      assert fs + [f] == [f] && [f][1..] == [];
      assert FieldBytes(f) + [] == [] + FieldBytes(f);
    } else {
      FieldsSnoc(fs[1..], f);
      assert (fs + [f])[1..] == fs[1..] + [f];
      assert FieldBytes(fs[0]) + (FieldsBytes(fs[1..]) + FieldBytes(f)) == FieldBytes(fs[0]) + FieldsBytes(fs[1..]) +
             FieldBytes(f);
    }
  }

  lemma DescriptorsSize()
    ensures |DescriptorSets()| == 112
  {
    hide FieldsBytes, SetOf;
    FieldsSize(SENDER_FIELDS[..6]);
    FieldsSnoc(SENDER_FIELDS[..6], SENDER_FIELDS[6]);
    assert SENDER_FIELDS == SENDER_FIELDS[..6] + [SENDER_FIELDS[6]];
    FieldsSize(RECEIVER_FIELDS);
  }

  /** The predicted sizes are the built ones. */
  lemma SizesPredicted(sets: bytes, records: seq<bytes>, sequence: nat, domain: nat, time: nat)
    ensures |SenderSet(records)| == SenderSetLength(|Concat(records)|)
    ensures |Message(sets + SenderSet(records), sequence, domain, time)|
         == MessageLength(|sets| + SenderSetLength(|Concat(records)|))
  {
    hide WithLength, SetOf, Concat;
  }

  // ----- the stream -----

  /** A QDataStream over a QByteArray, big-endian, with its write position. */
  class OutStream {
    var data: bytes
    var pos: nat

    ghost predicate Valid()
      reads this
    {
      pos == |data|
    }

    constructor ()
      ensures Valid() && data == []
    {
      data, pos := [], 0;
    }

    method Raw(b: bytes)
      requires pos <= |data|
      modifies this
      ensures data == Overwrite(old(data), old(pos), b) && pos == old(pos) + |b|
    {
      data := Overwrite(data, pos, b);
      pos := pos + |b|;
    }

    method Put(b: bytes)
      requires Valid()
      modifies this
      ensures Valid() && data == old(data) + b
    {
      Raw(b);
      assert old(data)[..|old(data)|] == old(data);
    }

    method PutUtfString(value: Text, maxBytes: int)
      requires Valid()
      modifies this
      ensures Valid() && data == old(data) + UtfString(value, maxBytes)
    {
      var utf8 := BoundedUtf8(value, maxBytes);
      Put([|utf8| % 256]);
      Put(utf8);
      assert old(data) + [|utf8| % 256] + utf8 == old(data) + ([|utf8| % 256] + utf8);
    }

    method SetLength()
      requires Valid() && |data| >= 4
      modifies this
      ensures Valid() && data == WithLength(old(data))
    {
      hide NumPad, Zeros, Be, Overwrite, WithLength;
      LengthPatched(data);
      var padLength := NumPad(|data|);
      if padLength != 0 {
        Put(Zeros(padLength));
      }
      var position := pos;
      pos := 2;
      Raw(Be(|data|, 2));
      pos := position;
    }
  }

  lemma LengthPatched(b: bytes)
    requires |b| >= 4
    ensures var padded := if NumPad(|b|) == 0 then b else b + Zeros(NumPad(|b|));
            Overwrite(padded, 2, Be(|padded|, 2)) == WithLength(b)
  {
    hide NumPad, Be;
    assert b + [] == b;
  }

  method BuildReceiverSet(r: Receiver) returns (set_: bytes)
    ensures set_ == ReceiverSet(r)
  {
    hide UtfString, WithLength, Be;
    var out := new OutStream();
    out.Put(Be(RECEIVER_ID, 2) + Be(0, 2));
    out.PutUtfString(r.callsign, CALLSIGN_LIMIT);
    out.PutUtfString(r.locator, LOCATOR_LIMIT);
    out.PutUtfString(r.programInfo, PROGRAM_INFO_LIMIT);
    out.PutUtfString(r.antenna, ANTENNA_LIMIT);
    out.PutUtfString(r.rigInformation, RIG_INFORMATION_LIMIT);
    assert out.data == Be(RECEIVER_ID, 2) + Be(0, 2) + ReceiverRecord(r);
    out.SetLength();
    set_ := out.data;
  }

  method BuildSpotRecord(s: Spot) returns (record: bytes)
    ensures record == SpotRecord(s)
  {
    hide UtfString, Be;
    var out := new OutStream();
    out.PutUtfString(s.callsign, CALLSIGN_LIMIT);
    out.Put(Be(s.frequency / 0x1_0000_0000 % 256, 1));
    out.Put(Be(s.frequency % 0x1_0000_0000, 4));
    out.Put([Int8(s.snr)]);
    out.PutUtfString(s.mode, MODE_LIMIT);
    out.PutUtfString(s.locator, LOCATOR_LIMIT);
    out.Put([1]);
    out.Put(Be(s.time % 0x1_0000_0000, 4));
    record := out.data;
    assert record == SpotRecord(s);
  }

  method BuildSenderSet(records: seq<bytes>) returns (set_: bytes)
    ensures set_ == SenderSet(records)
  {
    hide WithLength, Be, Concat;
    ConcatNone();
    var out := new OutStream();
    out.Put(Be(SENDER_ID, 2) + Be(0, 2));
    ghost var head := Be(SENDER_ID, 2) + Be(0, 2);
    assert out.data == head + [];
    for i := 0 to |records|
      invariant out.Valid() && out.data == head + Concat(records[..i])
    {
      out.Put(records[i]);
      assert head + Concat(records[..i]) + records[i] == head + (Concat(records[..i]) + records[i]);
      assert records[..i + 1] == records[..i] + [records[i]];
      ConcatSnoc(records[..i], records[i]);
    }
    assert records[..|records|] == records;
    out.SetLength();
    set_ := out.data;
  }

  method BuildMessage(sets: bytes, sequence: nat, domain: nat, time: nat) returns (message: bytes)
    ensures message == Message(sets, sequence, domain, time)
  {
    hide WithLength, Be;
    var out := new OutStream();
    out.Put(Be(10, 2) + Be(0, 2));
    out.Put(Be(time, 4) + Be(sequence, 4) + Be(domain, 4));
    out.Put(sets);
    assert out.data == Be(10, 2) + Be(0, 2) + MessageBody(sets, sequence, domain, time);
    out.SetLength();
    message := out.data;
  }
}
