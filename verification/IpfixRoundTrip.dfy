/** The collector of IpfixDecoder.dfy reads what the writers of Ipfix.dfy write, and the
    records it finds are the receiver and the spots that went in. */
module IpfixRoundTrip {
  import opened Bytes
  import opened Wrappers
  import opened Utf8
  import opened Ipfix
  import opened IpfixDecoder
  import opened PskCollector

  // ----- templates -----

  function ElementOf(f: Field): Element {
    Element(f.id, if f.enterprise then Some(PEN) else None, f.length)
  }

  function Elements(fs: seq<Field>): (r: seq<Element>)
    ensures |r| == |fs|
  {
    seq(|fs|, i requires 0 <= i < |fs| => ElementOf(fs[i]))
  }

  predicate Codable(fs: seq<Field>) {
    forall i :: 0 <= i < |fs| ==> fs[i].id < 0x8000 && fs[i].length < 0x1_0000
  }

  function SenderTemplate(): Template {
    Template(0, Elements(SENDER_FIELDS))
  }

  function ReceiverTemplate(): Template {
    Template(1, Elements(RECEIVER_FIELDS))
  }

  lemma BeBack(v: nat, width: nat)
    requires width in {1, 2, 4, 5}
    ensures FromBe(Be(v, width)) == v % Pow256(width)
    ensures Pow256(1) == 0x100 && Pow256(2) == 0x1_0000 && Pow256(4) == 0x1_0000_0000 && Pow256(5) == 0x100_0000_0000
  {
    DecEnc(true, v, width);
    Widths();
  }

  lemma FieldParts(f: Field, tail: bytes)
    ensures var b := FieldBytes(f) + tail;
            var id := if f.enterprise then 0x8000 + f.id else f.id;
            && |b| == |tail| + (if f.enterprise then 8 else 4)
            && b[..2] == Be(id, 2) && b[2..4] == Be(f.length, 2)
            && (f.enterprise ==> b[4..8] == Be(PEN, 4) && b[8..] == tail)
            && (!f.enterprise ==> b[4..] == tail)
  {
  }

  lemma OneElement(f: Field, b: bytes, tail: bytes, count: nat)
    requires f.id < 0x8000 && f.length < 0x1_0000 && b == FieldBytes(f) + tail
    ensures DecodeElements(b, count + 1)
         == match DecodeElements(tail, count)
            case None => None
            case Some(es) => Some(([ElementOf(f)] + es.0, es.1))
  {
    hide Be, FieldBytes, FromBe, Pow256;
    FieldParts(f, tail);
    BeBack(if f.enterprise then 0x8000 + f.id else f.id, 2);
    BeBack(f.length, 2);
    BeBack(PEN, 4);
  }

  lemma {:induction false} ElementsBack(fs: seq<Field>, rest: bytes)
    requires Codable(fs)
    ensures DecodeElements(FieldsBytes(fs) + rest, |fs|) == Some((Elements(fs), rest))
    decreases |fs|
  {
    hide FieldBytes, DecodeElements, FieldsBytes, Elements, ElementOf;
    if fs == [] {
      NoElements(rest);
    } else {
      var tail := FieldsBytes(fs[1..]) + rest;
      FieldsCons(fs, rest);
      OneElement(fs[0], FieldsBytes(fs) + rest, tail, |fs| - 1);
      ElementsBack(fs[1..], rest);
    }
  }

  lemma NoElements(rest: bytes)
    ensures DecodeElements(FieldsBytes([]) + rest, 0) == Some((Elements([]), rest))
  {
    assert [] + rest == rest;
  }

  lemma FieldsCons(fs: seq<Field>, rest: bytes)
    requires fs != []
    ensures FieldsBytes(fs) + rest == FieldBytes(fs[0]) + (FieldsBytes(fs[1..]) + rest)
    ensures Elements(fs) == [ElementOf(fs[0])] + Elements(fs[1..])
  {
    hide FieldBytes, ElementOf;
    Associative(FieldBytes(fs[0]), FieldsBytes(fs[1..]), rest);
    assert FieldsBytes(fs) == FieldBytes(fs[0]) + FieldsBytes(fs[1..]);
    hide FieldsBytes;
  }

  lemma Associative(a: bytes, b: bytes, c: bytes)
    ensures a + b + c == a + (b + c)
  {
  }

  lemma DescriptorFieldsCodable()
    ensures Codable(SENDER_FIELDS) && Codable(RECEIVER_FIELDS)
  {
  }

  /** Template set body plus padding: one template is learned. */
  lemma TemplateBack(options: bool, id: nat, fs: seq<Field>, pad: nat, ts: Templates)
    requires Codable(fs) && 0x100 <= id < 0x1_0000 && |fs| < 0x1_0000 && pad < 4
    ensures var head := Be(id, 2) + Be(|fs|, 2) + (if options then Be(1, 2) else []);
            var learned := Template(if options then 1 else 0, Elements(fs));
            DecodeTemplates(head + FieldsBytes(fs) + Zeros(pad), options, ts) == Some(ts[id := learned])
  {
    hide Be, Zeros, DecodeElements, Elements, FieldsBytes;
    var head := Be(id, 2) + Be(|fs|, 2) + (if options then Be(1, 2) else []);
    var b := head + FieldsBytes(fs) + Zeros(pad);
    assert b == head + (FieldsBytes(fs) + Zeros(pad));
    assert b[..2] == Be(id, 2) && b[2..4] == Be(|fs|, 2) && (options ==> b[4..6] == Be(1, 2));
    assert b[|head|..] == FieldsBytes(fs) + Zeros(pad);
    BeBack(id, 2);
    BeBack(|fs|, 2);
    BeBack(1, 2);
    ElementsBack(fs, Zeros(pad));
  }

  // ----- sets -----

  lemma SetParts(id: nat, body: bytes, rest: bytes)
    requires id < 0x1_0000 && |body| + 7 < 0x1_0000
    ensures var b := SetOf(id, body) + rest;
            var length := |SetOf(id, body)|;
            && U(b[..2]) == id && U(b[2..4]) == length && 4 <= length <= |b|
            && b[4..length] == body + Zeros(NumPad(|body|)) && b[length..] == rest
  {
    hide Be, Zeros, SetOf, FromBe, Pow256, NumPad;
    var s := SetOf(id, body);
    SetLayout(id, body);
    Beginning(s, rest);
    BeBack(id, 2);
    BeBack(|s|, 2);
  }

  lemma Beginning(s: bytes, rest: bytes)
    requires |s| >= 4
    ensures var b := s + rest; b[..2] == s[..2] && b[2..4] == s[2..4] && b[4..|s|] == s[4..] && b[|s|..] == rest
  {
  }

  lemma SetLayout(id: nat, body: bytes)
    ensures var s := SetOf(id, body);
            s[..2] == Be(id, 2) && s[2..4] == Be(|s|, 2) && s[4..] == body + Zeros(NumPad(|body|))
  {
    hide Be, Zeros, NumPad, WithLength;
    var whole := Be(id, 2) + Be(0, 2) + body;
    assert whole[..2] == Be(id, 2) && whole[4..] == body;
    LengthLayout(whole);
    SamePad(|body|);
  }

  lemma LengthLayout(b: bytes)
    requires |b| >= 4
    ensures var s := WithLength(b);
            s[..2] == b[..2] && s[2..4] == Be(|s|, 2) && s[4..] == b[4..] + Zeros(NumPad(|b|))
  {
    hide Be, Zeros, NumPad;
  }

  lemma SamePad(n: nat)
    ensures NumPad(n + 4) == NumPad(n)
  {
  }

  predicate Knows(ts: Templates) {
    SENDER_ID in ts && ts[SENDER_ID] == SenderTemplate() && RECEIVER_ID in ts && ts[RECEIVER_ID] == ReceiverTemplate()
  }

  function Learned(ts: Templates): (r: Templates)
    ensures Knows(r)
  {
    ts[SENDER_ID := SenderTemplate()][RECEIVER_ID := ReceiverTemplate()]
  }

  lemma DescriptorsBack(rest: bytes, ts: Templates)
    ensures DecodeSets(DescriptorSets() + rest, ts) == DecodeSets(rest, Learned(ts))
  {
    hide Be, Zeros, FieldsBytes, SetOf, Elements, DecodeTemplates;
    DescriptorFieldsCodable();
    var t := Be(SENDER_ID, 2) + Be(|SENDER_FIELDS|, 2) + FieldsBytes(SENDER_FIELDS);
    var o := Be(RECEIVER_ID, 2) + Be(|RECEIVER_FIELDS|, 2) + Be(1, 2) + FieldsBytes(RECEIVER_FIELDS);
    DescriptorsSize();
    assert DescriptorSets() + rest == SetOf(2, t) + (SetOf(3, o) + rest);
    SetParts(2, t, SetOf(3, o) + rest);
    SetParts(3, o, rest);
    assert Be(SENDER_ID, 2) + Be(|SENDER_FIELDS|, 2) + [] == Be(SENDER_ID, 2) + Be(|SENDER_FIELDS|, 2);
    TemplateBack(false, SENDER_ID, SENDER_FIELDS, NumPad(|t|), ts);
    TemplateBack(true, RECEIVER_ID, RECEIVER_FIELDS, NumPad(|o|), ts[SENDER_ID := SenderTemplate()]);
  }

  // ----- records -----

  function EncodeValue(v: bytes, length: nat): bytes {
    if length == VARIABLE_LENGTH then [|v| % 256] + v else v
  }

  /** The values from the `i`th on, as the elements ask for them. */
  function EncodeFrom(vs: seq<bytes>, es: seq<Element>, i: nat): bytes
    requires |vs| == |es| && i <= |es|
    decreases |es| - i
  {
    if i == |es| then [] else EncodeValue(vs[i], es[i].length) + EncodeFrom(vs, es, i + 1)
  }

  predicate Fits(vs: seq<bytes>, es: seq<Element>) {
    |vs| == |es| && forall i :: 0 <= i < |es| ==>
      if es[i].length == VARIABLE_LENGTH then |vs[i]| < 255 else |vs[i]| == es[i].length
  }

  lemma ValueBack(v: bytes, length: nat, rest: bytes)
    requires if length == VARIABLE_LENGTH then |v| < 255 else |v| == length
    ensures DecodeValue(EncodeValue(v, length) + rest, length) == Some((v, rest))
  {
  }

  lemma {:induction false} ValuesBack(vs: seq<bytes>, es: seq<Element>, i: nat, rest: bytes)
    requires Fits(vs, es) && i <= |es|
    ensures DecodeRecord(EncodeFrom(vs, es, i) + rest, es[i..]) == Some((vs[i..], rest))
    decreases |es| - i
  {
    hide EncodeValue, DecodeValue;
    if i == |es| {
      assert [] + rest == rest;
    } else {
      var tail := EncodeFrom(vs, es, i + 1) + rest;
      assert EncodeFrom(vs, es, i) + rest == EncodeValue(vs[i], es[i].length) + tail;
      ValueBack(vs[i], es[i].length, tail);
      ValuesBack(vs, es, i + 1, rest);
      assert es[i..][1..] == es[i + 1..] && [vs[i]] + vs[i + 1..] == vs[i..];
    }
  }

  function SpotValues(s: Spot): seq<bytes> {
    [Bounded(s.callsign, CALLSIGN_LIMIT),
     Be(s.frequency / 0x1_0000_0000 % 256, 1) + Be(s.frequency % 0x1_0000_0000, 4),
     [Int8(s.snr)], Bounded(s.mode, MODE_LIMIT), Bounded(s.locator, LOCATOR_LIMIT), [1],
     Be(s.time % 0x1_0000_0000, 4)]
  }

  function ReceiverValues(r: Receiver): seq<bytes> {
    [Bounded(r.callsign, CALLSIGN_LIMIT), Bounded(r.locator, LOCATOR_LIMIT), Bounded(r.programInfo, PROGRAM_INFO_LIMIT),
     Bounded(r.antenna, ANTENNA_LIMIT), Bounded(r.rigInformation, RIG_INFORMATION_LIMIT)]
  }

  lemma EncodeAll(vs: seq<bytes>, es: seq<Element>)
    requires |vs| == |es|
    ensures |es| == 5 ==> EncodeFrom(vs, es, 0) ==
                          EncodeValue(vs[0], es[0].length) +
                            (EncodeValue(vs[1], es[1].length) + (EncodeValue(vs[2], es[2].length) +
                          (EncodeValue(vs[3], es[3].length) + (EncodeValue(vs[4], es[4].length) + []))))
    ensures |es| == 7 ==> EncodeFrom(vs, es, 0) ==
                          EncodeValue(vs[0], es[0].length) +
                            (EncodeValue(vs[1], es[1].length) + (EncodeValue(vs[2], es[2].length) +
                          (EncodeValue(vs[3], es[3].length) +
                            (EncodeValue(vs[4], es[4].length) + (EncodeValue(vs[5], es[5].length) +
                          (EncodeValue(vs[6], es[6].length) + []))))))
  {
    hide EncodeValue;
    if |es| == 5 || |es| == 7 {
      assert EncodeFrom(vs, es, |es|) == [];
      assert EncodeFrom(vs, es, |es| - 2) == EncodeValue(vs[|es| - 2], es[|es| - 2].length) +
             EncodeFrom(vs, es, |es| - 1);
      assert EncodeFrom(vs, es, |es| - 4) == EncodeValue(vs[|es| - 4], es[|es| - 4].length) +
             EncodeFrom(vs, es, |es| - 3);
      if |es| == 7 {
        assert EncodeFrom(vs, es, 1) == EncodeValue(vs[1], es[1].length) + EncodeFrom(vs, es, 2);
      }
    }
  }

  lemma Flat5(a: bytes, b: bytes, c: bytes, d: bytes, e: bytes)
    ensures a + (b + (c + (d + (e + [])))) == a + b + c + d + e
  {
    assert d + (e + []) == d + e;
    assert a + (b + (c + (d + e))) == a + b + (c + (d + e));
    assert a + b + (c + (d + e)) == a + b + c + (d + e);
  }

  lemma Flat8(a: bytes, b1: bytes, b2: bytes, c: bytes, d: bytes, e: bytes, f: bytes, g: bytes)
    ensures a + ((b1 + b2) + (c + (d + (e + (f + (g + [])))))) == a + b1 + b2 + c + d + e + f + g
  {
    Flat5(c, d, e, f, g);
    var tail := c + d + e + f + g;
    assert a + ((b1 + b2) + tail) == a + b1 + b2 + tail;
    var head := a + b1 + b2;
    assert head + tail == head + (c + d + e + f) + g;
    assert head + (c + d + e + f) == head + (c + d + e) + f;
    assert head + (c + d + e) == head + (c + d) + e;
    assert head + (c + d) == head + c + d;
  }

  lemma StringValue(v: Text, limit: nat)
    requires limit < 256
    ensures EncodeValue(Bounded(v, limit), VARIABLE) == UtfString(v, limit) && |Bounded(v, limit)| <= limit
  {
    BoundedIsLongest(v, limit);
  }

  lemma SpotEncoded(s: Spot)
    ensures Fits(SpotValues(s), Elements(SENDER_FIELDS))
    ensures SpotRecord(s) == EncodeFrom(SpotValues(s), Elements(SENDER_FIELDS), 0)
  {
    hide Be, Bounded, EncodeFrom, UtfString;
    var vs, es := SpotValues(s), Elements(SENDER_FIELDS);
    StringValue(s.callsign, CALLSIGN_LIMIT);
    StringValue(s.mode, MODE_LIMIT);
    StringValue(s.locator, LOCATOR_LIMIT);
    assert Fits(vs, es);
    EncodeAll(vs, es);
    Flat8(UtfString(s.callsign, CALLSIGN_LIMIT),
          Be(s.frequency / 0x1_0000_0000 % 256, 1), Be(s.frequency % 0x1_0000_0000, 4), [Int8(s.snr)],
          UtfString(s.mode, MODE_LIMIT), UtfString(s.locator, LOCATOR_LIMIT), [1], Be(s.time % 0x1_0000_0000, 4));
    hide EncodeValue;
    assert vs[1] == EncodeValue(vs[1], 5) && vs[2] == EncodeValue(vs[2], 1) && vs[5] == EncodeValue(vs[5], 1) &&
           vs[6] == EncodeValue(vs[6], 4) by {
      FixedValues(vs);
    }
  }

  lemma FixedValues(vs: seq<bytes>)
    requires |vs| == 7
    ensures vs[1] == EncodeValue(vs[1], 5) && vs[2] == EncodeValue(vs[2], 1) && vs[5] == EncodeValue(vs[5], 1) &&
            vs[6] == EncodeValue(vs[6], 4)
  {
  }

  lemma ReceiverEncoded(r: Receiver)
    ensures Fits(ReceiverValues(r), Elements(RECEIVER_FIELDS))
    ensures ReceiverRecord(r) == EncodeFrom(ReceiverValues(r), Elements(RECEIVER_FIELDS), 0)
  {
    hide Be, Bounded, EncodeFrom, UtfString, EncodeValue;
    StringValue(r.callsign, CALLSIGN_LIMIT);
    StringValue(r.locator, LOCATOR_LIMIT);
    StringValue(r.programInfo, PROGRAM_INFO_LIMIT);
    StringValue(r.antenna, ANTENNA_LIMIT);
    StringValue(r.rigInformation, RIG_INFORMATION_LIMIT);
    EncodeAll(ReceiverValues(r), Elements(RECEIVER_FIELDS));
    Flat5(UtfString(r.callsign, CALLSIGN_LIMIT), UtfString(r.locator, LOCATOR_LIMIT),
          UtfString(r.programInfo, PROGRAM_INFO_LIMIT), UtfString(r.antenna, ANTENNA_LIMIT),
          UtfString(r.rigInformation, RIG_INFORMATION_LIMIT));
  }

  /** Padding is shorter than any sender or receiver record, so a collector cannot take
      it for one. */
  lemma PaddingBelowRecords()
    ensures MinLength(Elements(SENDER_FIELDS)) == 14 && MinLength(Elements(RECEIVER_FIELDS)) == 5
    ensures forall n: nat :: NumPad(n) < 5
  {
    var s, r := Elements(SENDER_FIELDS), Elements(RECEIVER_FIELDS);
    assert s[6..][1..] == [] && s[5..][1..] == s[6..] && s[4..][1..] == s[5..] && s[3..][1..] == s[4..];
    assert MinLength(s[6..]) == 4;
    assert MinLength(s[5..]) == 5;
    assert MinLength(s[3..]) == 7;
    assert s[2..][1..] == s[3..] && s[1..][1..] == s[2..];
    assert MinLength(s[1..]) == 13;
    assert r[4..][1..] == [] && r[3..][1..] == r[4..] && r[2..][1..] == r[3..] && r[1..][1..] == r[2..];
    assert MinLength(r[3..]) == 2;
    assert MinLength(r[1..]) == 4;
  }

  function SpotRecordsOf(spots: seq<Spot>): (r: seq<Record>)
    ensures |r| == |spots|
  {
    seq(|spots|, i requires 0 <= i < |spots| => Record(SENDER_ID, SpotValues(spots[i])))
  }

  lemma OneRecord(b: bytes, values: seq<bytes>, id: nat, es: seq<Element>, rest: bytes)
    requires Fits(values, es) && b == EncodeFrom(values, es, 0) + rest
    requires 1 <= MinLength(es) <= |b|
    ensures |rest| < |b|
    ensures DecodeRecords(b, id, es)
         == match DecodeRecords(rest, id, es)
            case None => None
            case Some(rs) => Some([Record(id, values)] + rs)
  {
    hide EncodeFrom, DecodeRecord, Fits;
    ValuesBack(values, es, 0, rest);
    assert es[0..] == es && values[0..] == values;
  }

  /** A set body of spot records and padding decodes to those spots, in order. */
  lemma {:induction false} SpotsBack(spots: seq<Spot>, pad: nat)
    requires pad < 4
    ensures DecodeRecords(Concat(Records(spots)) + Zeros(pad), SENDER_ID, Elements(SENDER_FIELDS)) ==
            Some(SpotRecordsOf(spots))
    decreases |spots|
  {
    hide Zeros, SpotRecord, Elements, EncodeFrom, SpotValues, Concat;
    var es := Elements(SENDER_FIELDS);
    PaddingBelowRecords();
    if spots == [] {
      assert Records(spots) == [];
      ConcatNone();
      assert [] + Zeros(pad) == Zeros(pad);
    } else {
      var r, rest := SpotRecord(spots[0]), spots[1..];
      var tail := Concat(Records(rest)) + Zeros(pad);
      assert Records(spots) == [r] + Records(rest);
      ConcatAppend([r], Records(rest));
      ConcatOne(r);
      assert Concat(Records(spots)) + Zeros(pad) == r + tail;
      SpotEncoded(spots[0]);
      SpotRecordSize(spots[0]);
      OneRecord(r + tail, SpotValues(spots[0]), SENDER_ID, es, tail);
      SpotsBack(rest, pad);
      assert SpotRecordsOf(spots) == [Record(SENDER_ID, SpotValues(spots[0]))] + SpotRecordsOf(rest);
    }
  }

  lemma ReceiverBack(r: Receiver, pad: nat)
    requires pad < 4
    ensures DecodeRecords(ReceiverRecord(r) + Zeros(pad), RECEIVER_ID, Elements(RECEIVER_FIELDS))
         == Some([Record(RECEIVER_ID, ReceiverValues(r))])
  {
    hide ReceiverRecord, Elements, EncodeFrom, ReceiverValues;
    PaddingBelowRecords();
    ReceiverEncoded(r);
    ReceiverRecordSize(r);
    OneRecord(ReceiverRecord(r) + Zeros(pad), ReceiverValues(r), RECEIVER_ID, Elements(RECEIVER_FIELDS), Zeros(pad));
    assert [Record(RECEIVER_ID, ReceiverValues(r))] + [] == [Record(RECEIVER_ID, ReceiverValues(r))];
  }

  // ----- whole messages -----

  /** A data set whose template is known. */
  lemma DataSetBack(id: nat, body: bytes, rest: bytes, ts: Templates, rs: seq<Record>)
    requires 0x100 <= id < 0x1_0000 && |body| + 7 < 0x1_0000 && id in ts
    requires DecodeRecords(body + Zeros(NumPad(|body|)), id, ts[id].elements) == Some(rs)
    ensures DecodeSets(SetOf(id, body) + rest, ts)
         == match DecodeSets(rest, ts)
            case None => None
            case Some(more) => Some((rs + more.0, more.1))
  {
    hide SetOf, Zeros, DecodeRecords, U;
    SetParts(id, body, rest);
  }

  lemma NoSetsBack(ts: Templates)
    ensures DecodeSets([], ts) == Some(([], ts))
  {
  }

  /** The sets of a packet after its descriptors: the receiver, then the spots if any. */
  function DataSets(r: Receiver, spots: seq<Spot>): bytes {
    ReceiverSet(r) + if spots == [] then [] else SenderSet(Records(spots))
  }

  lemma DataSetsBack(r: Receiver, spots: seq<Spot>, ts: Templates)
    requires Knows(ts) && |DataSets(r, spots)| < 0x1_0000
    ensures DecodeSets(DataSets(r, spots), ts) ==
            Some(([Record(RECEIVER_ID, ReceiverValues(r))] + SpotRecordsOf(spots), ts))
  {
    hide DecodeSets, SetOf, Elements, ReceiverValues, Concat, ReceiverRecord, DecodeRecords;
    var body, rest := ReceiverRecord(r), if spots == [] then [] else SenderSet(Records(spots));
    ReceiverRecordSize(r);
    ReceiverBack(r, NumPad(|body|));
    NoSetsBack(ts);
    DataSetBack(RECEIVER_ID, body, rest, ts, [Record(RECEIVER_ID, ReceiverValues(r))]);
    if spots == [] {
      assert SpotRecordsOf(spots) == [];
    } else {
      var records := Concat(Records(spots));
      SpotsBack(spots, NumPad(|records|));
      DataSetBack(SENDER_ID, records, [], ts, SpotRecordsOf(spots));
      assert SetOf(SENDER_ID, records) + [] == SetOf(SENDER_ID, records);
      assert SpotRecordsOf(spots) + [] == SpotRecordsOf(spots);
    }
  }

  /** A message whose sets are already aligned needs no padding of its own. */
  lemma MessageBack(sets: bytes, sequence: nat, domain: nat, time: nat, ts: Templates)
    requires |sets| % 4 == 0 && |sets| + 16 < 0x1_0000
    requires sequence < 0x1_0000_0000 && domain < 0x1_0000_0000 && time < 0x1_0000_0000
    ensures DecodeMessage(Message(sets, sequence, domain, time), ts)
         == match DecodeSets(sets, ts)
            case None => None
            case Some(r) => Some(Decoded(time, sequence, domain, r.0, r.1))
  {
    hide DecodeSets, Be, FromBe;
    var m := Message(sets, sequence, domain, time);
    MessageLayout(sets, sequence, domain, time);
    BeBack(10, 2);
    BeBack(|m|, 2);
    BeBack(time, 4);
    BeBack(sequence, 4);
    BeBack(domain, 4);
    hide Message;
  }

  lemma MessageLayout(sets: bytes, sequence: nat, domain: nat, time: nat)
    requires |sets| % 4 == 0
    ensures var m := Message(sets, sequence, domain, time);
            && |m| == |sets| + 16
            && m[..2] == Be(10, 2) && m[2..4] == Be(|m|, 2) && m[4..8] == Be(time, 4) && m[8..12] == Be(sequence, 4)
            && m[12..16] == Be(domain, 4) && m[16..] == sets
  {
    hide Be, SetOf, MessageBody;
    var m, body := Message(sets, sequence, domain, time), MessageBody(sets, sequence, domain, time);
    MessageIsSet(sets, sequence, domain, time);
    SetLayout(10, body);
    assert m[4..] == body by {
      assert body + [] == body;
    }
    BodyLayout(sets, sequence, domain, time);
    assert m[4..8] == m[4..][..4] && m[8..12] == m[4..][4..8] && m[12..16] == m[4..][8..12] && m[16..] == m[4..][12..];
  }

  lemma MessageIsSet(sets: bytes, sequence: nat, domain: nat, time: nat)
    ensures Message(sets, sequence, domain, time) == SetOf(10, MessageBody(sets, sequence, domain, time))
  {
    hide MessageBody;
  }

  lemma BodyLayout(sets: bytes, sequence: nat, domain: nat, time: nat)
    ensures var b := MessageBody(sets, sequence, domain, time);
            b[..4] == Be(time, 4) && b[4..8] == Be(sequence, 4) && b[8..12] == Be(domain, 4) && b[12..] == sets
  {
    hide Be;
  }

  /** The octets between a message's header and its end: descriptors if included, then
      the receiver and the spots. */
  function PacketSets(descriptors: bool, r: Receiver, spots: seq<Spot>): bytes {
    (if descriptors then DescriptorSets() else []) + DataSets(r, spots)
  }

  /** A packet decodes to the receiver record and its spots, in order, by a collector
      that knows the templates already or gets them in the packet; it knows them then. */
  lemma PacketBack(descriptors: bool, r: Receiver, spots: seq<Spot>, sequence: nat, domain: nat, time: nat,
                   ts: Templates)
    requires descriptors || Knows(ts)
    requires |PacketSets(descriptors, r, spots)| + 16 < 0x1_0000
    requires sequence < 0x1_0000_0000 && domain < 0x1_0000_0000 && time < 0x1_0000_0000
    ensures var d := DecodeMessage(Message(PacketSets(descriptors, r, spots), sequence, domain, time), ts);
            && d.Some? && d.value.time == time && d.value.sequence == sequence && d.value.domain == domain
            && d.value.records == [Record(RECEIVER_ID, ReceiverValues(r))] + SpotRecordsOf(spots)
            && Knows(d.value.templates)
  {
    hide DecodeSets, DescriptorSets, DataSets, ReceiverValues, SpotRecordsOf, Learned, Knows, DecodeMessage, Message;
    var sets, data := PacketSets(descriptors, r, spots), DataSets(r, spots);
    PacketSetsAligned(descriptors, r, spots);
    MessageBack(sets, sequence, domain, time, ts);
    if descriptors {
      DescriptorsBack(data, ts);
      DataSetsBack(r, spots, Learned(ts));
    } else {
      assert [] + data == data;
      DataSetsBack(r, spots, ts);
    }
  }

  lemma PacketSetsAligned(descriptors: bool, r: Receiver, spots: seq<Spot>)
    ensures |PacketSets(descriptors, r, spots)| % 4 == 0
  {
    hide DescriptorSets, ReceiverSet, SenderSet, Records;
    DescriptorsSize();
  }

  // ----- what the records mean -----

  /** What is left of a spot after the widths and limits of the template. */
  function OnTheWire(s: Spot): Spot {
    Spot(s.callsign[..Fitting(s.callsign, CALLSIGN_LIMIT)], s.locator[..Fitting(s.locator, LOCATOR_LIMIT)],
         (s.snr + 128) % 256 - 128, s.frequency % 0x100_0000_0000, s.mode[..Fitting(s.mode, MODE_LIMIT)],
         s.time % 0x1_0000_0000)
  }

  lemma BeSnoc(s: bytes)
    requires s != []
    ensures FromBe(s) == 256 * FromBe(s[..|s| - 1]) + s[|s| - 1]
  {
  }

  lemma Regrouped(x: nat, y: nat)
    ensures 256 * (x * y) == x * (256 * y)
  {
  }

  lemma {:induction false} FromBeAppend(a: bytes, b: bytes)
    ensures FromBe(a + b) == FromBe(a) * Pow256(|b|) + FromBe(b)
    decreases |b|
  {
    if b == [] {
      assert a + b == a;
    } else {
      var init := b[..|b| - 1];
      assert (a + b)[..|a + b| - 1] == a + init;
      FromBeAppend(a, init);
      BeSnoc(a + b);
      BeSnoc(b);
      assert Pow256(|b|) == 256 * Pow256(|init|);
      hide FromBe, Pow256;
      Regrouped(FromBe(a), Pow256(|init|));
    }
  }

  lemma FrequencyParts(f: nat)
    ensures f / 0x1_0000_0000 % 256 * 0x1_0000_0000 + f % 0x1_0000_0000 == f % 0x100_0000_0000
  {
    var high, low := f / 0x1_0000_0000, f % 0x1_0000_0000;
    assert f == high / 256 * 0x100_0000_0000 + (high % 256 * 0x1_0000_0000 + low);
    ModUnique(f, 0x100_0000_0000, high / 256, high % 256 * 0x1_0000_0000 + low);
  }

  lemma FrequencyBack(f: nat)
    ensures FromBe(Be(f / 0x1_0000_0000 % 256, 1) + Be(f % 0x1_0000_0000, 4)) == f % 0x100_0000_0000
  {
    hide FromBe, Be, Pow256;
    var high, low := f / 0x1_0000_0000 % 256, f % 0x1_0000_0000;
    FromBeAppend(Be(high, 1), Be(low, 4));
    BeBack(high, 1);
    BeBack(low, 4);
    FrequencyParts(f);
  }

  /** The value a collector looks up is the one at the element's first place. */
  lemma {:induction false} ValueAt(es: seq<Element>, vs: seq<bytes>, id: nat, enterprise: Option<nat>, i: nat)
    requires i < |es| == |vs| && es[i].id == id && es[i].enterprise == enterprise
    requires forall j :: 0 <= j < i ==> es[j].id != id || es[j].enterprise != enterprise
    ensures ValueOf(es, vs, id, enterprise) == Some(vs[i])
  {
    if i > 0 {
      ValueAt(es[1..], vs[1..], id, enterprise, i - 1);
    }
  }

  /** Under the template that is sent a sender record stands for its spot, as far as the
      template can carry it. */
  lemma SpotMeaning(s: Spot)
    ensures SpotOf(SenderTemplate().elements, SpotValues(s)) == Some(OnTheWire(s))
  {
    hide FromBe, Be, FromUtf8, ToUtf8, Fitting, Pow256, ValueOf;
    var es, vs, psk := SenderTemplate().elements, SpotValues(s), Some(ENTERPRISE);
    ValueAt(es, vs, 1, psk, 0);
    ValueAt(es, vs, 5, psk, 1);
    ValueAt(es, vs, 6, psk, 2);
    ValueAt(es, vs, 10, psk, 3);
    ValueAt(es, vs, 3, psk, 4);
    ValueAt(es, vs, 11, psk, 5);
    ValueAt(es, vs, DATE_TIME_SECONDS, None, 6);
    FrequencyBack(s.frequency);
    OneOctet(Int8(s.snr));
    OneOctet(1);
    BeBack(s.time % 0x1_0000_0000, 4);
    TextBack(s.callsign[..Fitting(s.callsign, CALLSIGN_LIMIT)]);
    TextBack(s.mode[..Fitting(s.mode, MODE_LIMIT)]);
    TextBack(s.locator[..Fitting(s.locator, LOCATOR_LIMIT)]);
  }

  lemma OneOctet(b: byte)
    ensures FromBe([b]) == b
  {
    assert [b][..0] == [];
  }

  /** What is left of a receiver. */
  function ReceiverOnTheWire(r: Receiver): Receiver {
    Receiver(r.callsign[..Fitting(r.callsign, CALLSIGN_LIMIT)], r.locator[..Fitting(r.locator, LOCATOR_LIMIT)],
             r.programInfo[..Fitting(r.programInfo, PROGRAM_INFO_LIMIT)],
             r.antenna[..Fitting(r.antenna, ANTENNA_LIMIT)],
             r.rigInformation[..Fitting(r.rigInformation, RIG_INFORMATION_LIMIT)])
  }

  lemma ReceiverMeaning(r: Receiver)
    ensures ReceiverOf(ReceiverTemplate().elements, ReceiverValues(r)) == Some(ReceiverOnTheWire(r))
  {
    hide FromUtf8, ToUtf8, Fitting, ValueOf;
    var es, vs, psk := ReceiverTemplate().elements, ReceiverValues(r), Some(ENTERPRISE);
    ValueAt(es, vs, 2, psk, 0);
    ValueAt(es, vs, 4, psk, 1);
    ValueAt(es, vs, 8, psk, 2);
    ValueAt(es, vs, 9, psk, 3);
    ValueAt(es, vs, 13, psk, 4);
    TextBack(r.callsign[..Fitting(r.callsign, CALLSIGN_LIMIT)]);
    TextBack(r.locator[..Fitting(r.locator, LOCATOR_LIMIT)]);
    TextBack(r.programInfo[..Fitting(r.programInfo, PROGRAM_INFO_LIMIT)]);
    TextBack(r.antenna[..Fitting(r.antenna, ANTENNA_LIMIT)]);
    TextBack(r.rigInformation[..Fitting(r.rigInformation, RIG_INFORMATION_LIMIT)]);
  }

  function AllOnTheWire(spots: seq<Spot>): (r: seq<Spot>)
    ensures |r| == |spots|
  {
    seq(|spots|, i requires 0 <= i < |spots| => OnTheWire(spots[i]))
  }

  /** The records of a packet are read as its receiver and its spots. */
  lemma PacketRead(r: Receiver, spots: seq<Spot>, ts: Templates)
    requires Knows(ts)
    ensures ReadRecords([Record(RECEIVER_ID, ReceiverValues(r))] + SpotRecordsOf(spots), ts)
         == Some(Reading([ReceiverOnTheWire(r)], AllOnTheWire(spots)))
  {
    hide ReceiverValues, ReceiverOf, ReceiverOnTheWire, AllOnTheWire, SpotRecordsOf, Elements;
    var rs := [Record(RECEIVER_ID, ReceiverValues(r))] + SpotRecordsOf(spots);
    ReceiverMeaning(r);
    SpotsOfRecords(spots, ts);
    assert rs[1..] == SpotRecordsOf(spots);
    assert [] + AllOnTheWire(spots) == AllOnTheWire(spots);
    assert [ReceiverOnTheWire(r)] + [] == [ReceiverOnTheWire(r)];
  }

  lemma {:induction false} SpotsOfRecords(spots: seq<Spot>, ts: Templates)
    requires Knows(ts)
    ensures ReadRecords(SpotRecordsOf(spots), ts) == Some(Reading([], AllOnTheWire(spots)))
    decreases |spots|
  {
    hide SpotValues, SpotOf, OnTheWire, Elements;
    if spots == [] {
      assert SpotRecordsOf(spots) == [] && AllOnTheWire(spots) == [];
    } else {
      var rs := SpotRecordsOf(spots);
      SpotMeaning(spots[0]);
      assert ReadRecord(rs[0], ts) == Some(Reading([], [OnTheWire(spots[0])]));
      assert rs[1..] == SpotRecordsOf(spots[1..]);
      SpotsOfRecords(spots[1..], ts);
      var none: seq<Receiver> := [];
      assert none + none == none;
      assert [OnTheWire(spots[0])] + AllOnTheWire(spots[1..]) == AllOnTheWire(spots);
    }
  }

  /** The template carries a spot unchanged exactly when nothing in it is out of range. */
  lemma SpotCarried(s: Spot)
    ensures OnTheWire(s) == s <==>
            && |ToUtf8(s.callsign)| <= 32 && |ToUtf8(s.locator)| <= 16 && |ToUtf8(s.mode)| <= 16
            && -128 <= s.snr < 128 && s.frequency < 0x100_0000_0000 && 0 <= s.time < 0x1_0000_0000
  {
    hide ToUtf8, Fitting;
    FittingWhole(s.callsign, CALLSIGN_LIMIT);
    FittingWhole(s.mode, MODE_LIMIT);
    FittingWhole(s.locator, LOCATOR_LIMIT);
  }

  /** Likewise for a receiver. */
  lemma ReceiverCarried(r: Receiver)
    ensures ReceiverOnTheWire(r) == r <==>
            && |ToUtf8(r.callsign)| <= 32 && |ToUtf8(r.locator)| <= 16 && |ToUtf8(r.programInfo)| <= 80
            && |ToUtf8(r.antenna)| <= 128 && |ToUtf8(r.rigInformation)| <= 128
  {
    hide ToUtf8, Fitting;
    FittingWhole(r.callsign, CALLSIGN_LIMIT);
    FittingWhole(r.locator, LOCATOR_LIMIT);
    FittingWhole(r.programInfo, PROGRAM_INFO_LIMIT);
    FittingWhole(r.antenna, ANTENNA_LIMIT);
    FittingWhole(r.rigInformation, RIG_INFORMATION_LIMIT);
  }

  lemma FittingWhole(t: Text, limit: nat)
    ensures t[..Fitting(t, limit)] == t <==> |ToUtf8(t)| <= limit
  {
    BoundedIsLongest(t, limit);
    assert t[..|t|] == t;
  }
}
