/** Ham Radio Deluxe messages: a length-prefixed frame around UTF-16 text, its parser, and
    the loop that puts a reply together from the pieces in which it arrives. */
module HrdMessage {
  import opened Bytes

  type Unit = x: int | 0 <= x < 0x1_0000
  type Units = seq<Unit>

  const HEADER_SIZE := 16
  const MAX_MESSAGE_SIZE := 1024 * 1024
  const MAGIC_1 := 0x1234ABCD
  const MAGIC_2 := 0xABCD1234
  const BYTE_ORDER_MARK := 0xFEFF
  const SWAPPED_MARK := 0xFFFE

  datatype Error = BadMagic | TooSmall | TooLarge | NoTerminator | NotUtf16

  /** The fields of the source's result struct that a caller looks at in each case. */
  datatype ParseResult = Partial(requiredSize: nat) | Complete(size: nat, payload: Units) | Invalid(error: Error)

  function UnitBytes(u: Unit): bytes {
    [u % 256, u / 256]
  }

  function UnitsBytes(us: Units): (r: bytes)
    ensures |r| == 2 * |us|
  {
    if us == [] then [] else UnitsBytes(us[..|us| - 1]) + UnitBytes(us[|us| - 1])
  }

  function FrameOf(size: nat, body: bytes): (r: bytes)
    ensures |r| == HEADER_SIZE + |body|
  {
    Le(size, 4) + Le(MAGIC_1, 4) + Le(MAGIC_2, 4) + Le(0, 4) + body
  }

  /** The message for a text: its code units and a terminating zero. */
  function MessageOf(text: Units): (r: bytes)
    ensures |r| == HEADER_SIZE + 2 * (|text| + 1)
  {
    FrameOf(HEADER_SIZE + 2 * (|text| + 1), UnitsBytes(text + [0]))
  }

  function ReadU32(b: bytes, offset: nat): nat
    requires offset + 4 <= |b|
  {
    var b0: int, b1: int, b2: int, b3: int := b[offset], b[offset + 1], b[offset + 2], b[offset + 3];
    b0 + b1 * 0x100 + b2 * 0x1_0000 + b3 * 0x100_0000
  }

  function UnitAt(b: bytes, offset: nat): Unit
    requires offset + 1 < |b|
  {
    var low: int, high: int := b[offset], b[offset + 1];
    low + high * 256
  }

  /** `n` code units from `offset` on. */
  function UnitsAt(b: bytes, offset: nat, n: nat): (r: Units)
    requires offset + 2 * n <= |b|
    ensures |r| == n
  {
    seq(n, i requires 0 <= i < n => UnitAt(b, offset + 2 * i))
  }

  function SwapUnit(u: Unit): Unit {
    u % 256 * 256 + u / 256
  }

  /** QString::fromUtf16 on a little-endian host: a byte order mark is obeyed and dropped. */
  function FromUtf16(us: Units): Units {
    if us != [] && us[0] == BYTE_ORDER_MARK then us[1..]
    else if us != [] && us[0] == SWAPPED_MARK then seq(|us| - 1, i requires 0 <= i < |us| - 1 => SwapUnit(us[i + 1]))
    else us
  }

  function ParseBody(b: bytes, size: nat): ParseResult
    requires HEADER_SIZE <= size <= |b|
  {
    var payloadBytes := size - HEADER_SIZE;
    if payloadBytes < 2 then Invalid(NoTerminator)
    else if payloadBytes % 2 == 1 then Invalid(NotUtf16)
    else
      var us := UnitsAt(b, HEADER_SIZE, payloadBytes / 2);
      if us[|us| - 1] != 0 then Invalid(NoTerminator)
      else Complete(size, FromUtf16(us[..|us| - 1]))
  }

  function ParseOf(b: bytes): ParseResult {
    if |b| < HEADER_SIZE then Partial(HEADER_SIZE)
    else
      var size := ReadU32(b, 0);
      if ReadU32(b, 4) != MAGIC_1 || ReadU32(b, 8) != MAGIC_2 then Invalid(BadMagic)
      else if size < HEADER_SIZE then Invalid(TooSmall)
      else if size > MAX_MESSAGE_SIZE then Invalid(TooLarge)
      else if |b| < size then Partial(size)
      else ParseBody(b, size)
  }

  // ----- the codec -----

  method AppendU32Le(b: bytes, value: nat) returns (r: bytes)
    requires value < 0x1_0000_0000
    ensures r == b + Le(value, 4)
  {
    r := b + [value % 256];
    r := r + [value / 0x100 % 256];
    r := r + [value / 0x1_0000 % 256];
    r := r + [value / 0x100_0000 % 256];
    Le4(value);
    assert r == b + [value % 256, value / 0x100 % 256, value / 0x1_0000 % 256, value / 0x100_0000 % 256];
  }

  lemma Le4(v: nat)
    ensures Le(v, 4) == [v % 256, v / 0x100 % 256, v / 0x1_0000 % 256, v / 0x100_0000 % 256]
  {
    var a := v / 256;
    var b := a / 256;
    assert a == v / 0x100 && b == v / 0x1_0000 && b / 256 == v / 0x100_0000;
    assert Le(b / 256, 1) == [b / 256 % 256];
    assert Le(b, 2) == [b % 256] + Le(b / 256, 1);
    assert Le(a, 3) == [a % 256] + Le(b, 2);
    assert Le(v, 4) == [v % 256] + Le(a, 3);
  }

  lemma ReadU32Back(b: bytes, offset: nat, v: nat)
    requires offset + 4 <= |b| && b[offset..offset + 4] == Le(v, 4) && v < 0x1_0000_0000
    ensures ReadU32(b, offset) == v
  {
    hide Le;
    Le4(v);
    var s := b[offset..offset + 4];
    assert b[offset] == s[0] && b[offset + 1] == s[1] && b[offset + 2] == s[2] && b[offset + 3] == s[3];
    FourDigits(v);
  }

  lemma FourDigits(v: nat)
    requires v < 0x1_0000_0000
    ensures v % 256 + v / 0x100 % 256 * 0x100 + v / 0x1_0000 % 256 * 0x1_0000 + v / 0x100_0000 % 256 * 0x100_0000 == v
  {
  }

  method Make(text: Units) returns (message: bytes)
    requires HEADER_SIZE + 2 * (|text| + 1) < 0x8000_0000
    ensures message == MessageOf(text)
  {
    hide Le;
    var units := text + [0];
    var size := HEADER_SIZE + 2 * |units|;
    message := AppendU32Le([], size);
    message := AppendU32Le(message, MAGIC_1);
    message := AppendU32Le(message, MAGIC_2);
    message := AppendU32Le(message, 0);
    assert message == FrameOf(size, []);
    ghost var header := message;
    for i := 0 to |units|
      invariant message == header + UnitsBytes(units[..i])
    {
      assert units[..i + 1][..i] == units[..i];
      message := message + [units[i] % 256];
      message := message + [units[i] / 256];
      assert message == header + (UnitsBytes(units[..i]) + UnitBytes(units[i]));
    }
    assert units[..|units|] == units;
  }

  method Parse(message: bytes) returns (r: ParseResult)
    ensures r == ParseOf(message)
  {
    hide FromUtf16, ReadU32;
    if |message| < HEADER_SIZE {
      return Partial(HEADER_SIZE);
    }
    var size := ReadU32(message, 0);
    if ReadU32(message, 4) != MAGIC_1 || ReadU32(message, 8) != MAGIC_2 {
      return Invalid(BadMagic);
    }
    if size < HEADER_SIZE {
      return Invalid(TooSmall);
    }
    if size > MAX_MESSAGE_SIZE {
      return Invalid(TooLarge);
    }
    if |message| < size {
      return Partial(size);
    }
    var payloadBytes := size - HEADER_SIZE;
    if payloadBytes < 2 {
      return Invalid(NoTerminator);
    }
    if payloadBytes % 2 == 1 {
      return Invalid(NotUtf16);
    }
    var payload: Units := [];
    var offset := HEADER_SIZE;
    while offset != size
      invariant HEADER_SIZE <= offset <= size && offset == HEADER_SIZE + 2 * |payload|
      invariant payload == UnitsAt(message, HEADER_SIZE, |payload|)
      decreases size - offset
    {
      payload := payload + [UnitAt(message, offset)];
      offset := offset + 2;
    }
    if payload == [] || payload[|payload| - 1] != 0 {
      return Invalid(NoTerminator);
    }
    return Complete(size, FromUtf16(payload[..|payload| - 1]));
  }

  // ----- framing laws -----

  /** More octets never change a verdict, and a partial result asks for no more than any
      completion of it has. */
  lemma PrefixStable(b: bytes, more: bytes)
    ensures !ParseOf(b).Partial? ==> ParseOf(b + more) == ParseOf(b)
    ensures ParseOf(b).Partial? ==> |b| < ParseOf(b).requiredSize
    ensures ParseOf(b).Partial? && !ParseOf(b + more).Partial? ==> |b + more| >= ParseOf(b).requiredSize
  {
    hide FromUtf16;
    var w := b + more;
    if |b| >= HEADER_SIZE {
      assert ReadU32(w, 0) == ReadU32(b, 0) && ReadU32(w, 4) == ReadU32(b, 4) && ReadU32(w, 8) == ReadU32(b, 8);
      var size := ReadU32(b, 0);
      if HEADER_SIZE <= size <= |b| && (size - HEADER_SIZE) % 2 == 0 {
        var n := (size - HEADER_SIZE) / 2;
        assert UnitsAt(w, HEADER_SIZE, n) == UnitsAt(b, HEADER_SIZE, n);
      }
    }
  }

  lemma {:induction false} UnitsBytesAt(us: Units, i: nat)
    requires i < |us|
    ensures UnitsBytes(us)[2 * i] == us[i] % 256 && UnitsBytes(us)[2 * i + 1] == us[i] / 256
  {
    if i < |us| - 1 {
      UnitsBytesAt(us[..|us| - 1], i);
    }
  }

  lemma HeaderBack(size: nat, body: bytes)
    requires size < 0x1_0000_0000
    ensures var b := FrameOf(size, body);
            ReadU32(b, 0) == size && ReadU32(b, 4) == MAGIC_1 && ReadU32(b, 8) == MAGIC_2 && b[16..] == body
  {
    hide Le, ReadU32;
    var b := FrameOf(size, body);
    assert b[0..4] == Le(size, 4);
    assert b[4..8] == Le(MAGIC_1, 4);
    assert b[8..12] == Le(MAGIC_2, 4);
    ReadU32Back(b, 0, size);
    ReadU32Back(b, 4, MAGIC_1);
    ReadU32Back(b, 8, MAGIC_2);
  }

  /** The frame field by field: size, two magic numbers, zero, then the code units with the
      low octet first, and a terminating zero. */
  lemma FrameLayout(text: Units)
    requires |MessageOf(text)| < 0x8000_0000
    ensures var b := MessageOf(text);
            && |b| == 18 + 2 * |text| && FromLe(b[0..4]) == |b| && FromLe(b[4..8]) == 0x1234_ABCD
            && FromLe(b[8..12]) == 0xABCD_1234 && FromLe(b[12..16]) == 0
            && (forall i :: 0 <= i < |text| ==> b[16 + 2 * i] == text[i] % 0x100 && b[17 + 2 * i] == text[i] / 0x100)
            && b[|b| - 2..] == [0, 0]
  {
    hide Le, FromLe, UnitsBytes;
    HeaderFields(|MessageOf(text)|, UnitsBytes(text + [0]));
    BodyOctets(text);
  }

  lemma HeaderFields(size: nat, body: bytes)
    requires size < 0x8000_0000
    ensures var b := FrameOf(size, body);
            && FromLe(b[0..4]) == size && FromLe(b[4..8]) == 0x1234_ABCD && FromLe(b[8..12]) == 0xABCD_1234
            && FromLe(b[12..16]) == 0 && b[16..] == body
  {
    hide Le, FromLe, Pow256;
    var b := FrameOf(size, body);
    assert b[0..4] == Le(size, 4) && b[4..8] == Le(MAGIC_1, 4) && b[8..12] == Le(MAGIC_2, 4) && b[12..16] == Le(0, 4);
    DecEnc(false, size, 4);
    DecEnc(false, MAGIC_1, 4);
    DecEnc(false, MAGIC_2, 4);
    DecEnc(false, 0, 4);
    Widths();
  }

  lemma BodyOctets(text: Units)
    ensures var b := MessageOf(text);
            && (forall i :: 0 <= i < |text| ==> b[16 + 2 * i] == text[i] % 0x100 && b[17 + 2 * i] == text[i] / 0x100)
            && b[|b| - 2..] == [0, 0]
  {
    hide Le, UnitsBytes;
    var b, units := MessageOf(text), text + [0];
    var body := UnitsBytes(units);
    forall i | 0 <= i < |text|
      ensures b[16 + 2 * i] == text[i] % 0x100 && b[17 + 2 * i] == text[i] / 0x100
    {
      UnitsBytesAt(units, i);
      assert b[16 + 2 * i] == body[2 * i] && b[17 + 2 * i] == body[2 * i + 1];
    }
    UnitsBytesAt(units, |text|);
  }

  /** Which octets hold a whole message, and which are only the beginning of one. */
  lemma CompleteWhen(b: bytes)
    ensures ParseOf(b).Complete? <==> Framed(b) && FromLe(b[0..4]) <= |b| && Terminated(b[..FromLe(b[0..4])])
    ensures ParseOf(b).Complete? ==>
              ParseOf(b).size == FromLe(b[0..4]) && |ParseOf(b).payload| <= (FromLe(b[0..4]) - 18) / 2
    ensures ParseOf(b).Partial? <==> |b| < 16 || (Framed(b) && FromLe(b[0..4]) > |b|)
  {
    hide FromUtf16, FromLe, ReadU32;
    if |b| >= 16 {
      ReadsLe(b, 0);
      ReadsLe(b, 4);
      ReadsLe(b, 8);
      ShorterText(b);
    }
  }

  /** A header with the magic numbers and a size between that of the header and a mebibyte. */
  predicate Framed(b: bytes) {
    && |b| >= 16 && FromLe(b[4..8]) == 0x1234_ABCD && FromLe(b[8..12]) == 0xABCD_1234
    && 16 <= FromLe(b[0..4]) <= 0x10_0000
  }

  predicate Terminated(message: bytes) {
    |message| >= 18 && |message| % 2 == 0 && message[|message| - 2..] == [0, 0]
  }

  lemma ReadsLe(b: bytes, offset: nat)
    requires offset + 4 <= |b|
    ensures ReadU32(b, offset) == FromLe(b[offset..offset + 4])
  {
    var s := b[offset..offset + 4];
    EncDec(false, s);
    Widths();
    ReadU32Back(b, offset, FromLe(s));
  }

  lemma ShorterText(b: bytes)
    ensures forall us: Units :: |FromUtf16(us)| <= |us|
  {
  }

  /** A message that is not over the limit parses to its text, less a byte order mark;
      a longer one is refused. */
  lemma ParseMake(text: Units)
    requires |MessageOf(text)| < 0x8000_0000
    ensures |MessageOf(text)| <= MAX_MESSAGE_SIZE ==>
            ParseOf(MessageOf(text)) == Complete(|MessageOf(text)|, FromUtf16(text))
    ensures |MessageOf(text)| > MAX_MESSAGE_SIZE ==> ParseOf(MessageOf(text)) == Invalid(TooLarge)
  {
    hide FromUtf16, ReadU32, FrameOf;
    var units := text + [0];
    var body := UnitsBytes(units);
    var b := MessageOf(text);
    HeaderBack(|b|, body);
    forall i | 0 <= i < |units| ensures UnitAt(b, HEADER_SIZE + 2 * i) == units[i] {
      UnitsBytesAt(units, i);
      assert b[HEADER_SIZE + 2 * i] == body[2 * i] && b[HEADER_SIZE + 2 * i + 1] == body[2 * i + 1];
    }
    assert UnitsAt(b, HEADER_SIZE, |units|) == units;
    assert units[..|text|] == text;
  }

  /** The text itself comes back exactly when it does not begin with a byte order mark. */
  lemma RoundTrip(text: Units)
    requires |MessageOf(text)| <= MAX_MESSAGE_SIZE
    ensures ParseOf(MessageOf(text)) == Complete(|MessageOf(text)|, text) <==>
            text == [] || (text[0] != BYTE_ORDER_MARK && text[0] != SWAPPED_MARK)
  {
    ParseMake(text);
    hide ParseOf, MessageOf;
    assert FromUtf16(text) == text <==> text == [] || (text[0] != BYTE_ORDER_MARK && text[0] != SWAPPED_MARK);
  }

  // ----- reassembly -----

  function CutAtNul(us: Units): Units {
    if us == [] || us[0] == 0 then [] else [us[0]] + CutAtNul(us[1..])
  }

  /** It is what stands before the first zero unit, or everything when there is none. */
  lemma {:induction false} CutsAtNul(us: Units)
    ensures CutAtNul(us) <= us && 0 !in CutAtNul(us)
    ensures CutAtNul(us) == us || us[|CutAtNul(us)|] == 0
  {
    if us != [] && us[0] != 0 {
      CutsAtNul(us[1..]);
      assert us == [us[0]] + us[1..];
    }
  }

  /** What a command returns: the reply's text up to its first NUL, or an error. */
  datatype Reply = Text(text: Units) | Refused(error: Error) | NoReply

  function ReplyOf(r: ParseResult): Reply {
    match r
    case Partial(_) => NoReply
    case Complete(_, payload) => Text(CutAtNul(payload))
    case Invalid(e) => Refused(e)
  }

  method TextUpToNul(us: Units) returns (r: Units)
    ensures r == CutAtNul(us)
    ensures r <= us && 0 !in r && (r == us || us[|r|] == 0)
  {
    hide CutAtNul;
    var nul := 0;
    while nul < |us| && us[nul] != 0
      invariant nul <= |us| && 0 !in us[..nul]
    {
      assert us[..nul + 1] == us[..nul] + [us[nul]];
      nul := nul + 1;
    }
    r := us[..nul];
    CutIs(us, r);
  }

  lemma {:induction false} CutIs(us: Units, r: Units)
    requires r <= us && 0 !in r && (r == us || us[|r|] == 0)
    ensures r == CutAtNul(us)
  {
    if r != [] {
      CutIs(us[1..], r[1..]);
    }
  }

  /** The reading loop of send_command: the pieces are what the socket delivers, none of
      them empty; when they are used up, reading fails. However the reply is cut up, the
      outcome is that of the whole. */
  method ReadReply(pieces: seq<bytes>) returns (reply: Reply)
    requires pieces != [] && forall i :: 0 <= i < |pieces| ==> pieces[i] != []
    ensures reply == ReplyOf(ParseOf(Concat(pieces)))
  {
    hide ParseOf, CutAtNul, Concat;
    var buffer := pieces[0];
    var read := 1;
    ConcatOne(pieces[0]);
    assert pieces[..1] == [pieces[0]];
    var r := Parse(buffer);
    ghost var parsed, unparsed: bytes := buffer, [];
    PrefixStable(parsed, unparsed);
    while r.Partial?
      invariant 1 <= read <= |pieces| && buffer == Concat(pieces[..read]) == parsed + unparsed
      invariant r == ParseOf(parsed) && (r.Partial? ==> |buffer| < r.requiredSize)
      decreases |pieces| - read
    {
      if read == |pieces| {
        assert pieces[..read] == pieces;
        PrefixStable(parsed, unparsed);
        return NoReply;
      }
      assert pieces[..read + 1] == pieces[..read] + [pieces[read]];
      ConcatSnoc(pieces[..read], pieces[read]);
      buffer := buffer + pieces[read];
      unparsed := unparsed + pieces[read];
      read := read + 1;
      if |buffer| >= r.requiredSize {
        r := Parse(buffer);
        parsed, unparsed := buffer, [];
        PrefixStable(parsed, unparsed);
      }
    }
    PrefixStable(parsed, unparsed + Concat(pieces[read..]));
    assert pieces == pieces[..read] + pieces[read..];
    ConcatAppend(pieces[..read], pieces[read..]);
    assert parsed + (unparsed + Concat(pieces[read..])) == buffer + Concat(pieces[read..]);
    if r.Invalid? {
      return Refused(r.error);
    }
    var text := TextUpToNul(r.payload);
    return Text(text);
  }

  /** A command's reply in any number of pieces, with anything after it, is the text that
      was sent up to its first NUL. */
  lemma AnyFragmentation(text: Units, rest: bytes, pieces: seq<bytes>)
    requires |MessageOf(text)| <= MAX_MESSAGE_SIZE && Concat(pieces) == MessageOf(text) + rest
    ensures ReplyOf(ParseOf(Concat(pieces))) == Text(CutAtNul(FromUtf16(text)))
    ensures 0 !in text && (text == [] || (text[0] != 0xFEFF && text[0] != 0xFFFE)) ==>
              ReplyOf(ParseOf(Concat(pieces))) == Text(text)
  {
    hide ParseOf, MessageOf, CutAtNul, FromUtf16;
    ParseMake(text);
    PrefixStable(MessageOf(text), rest);
    if text == [] || (text[0] != 0xFEFF && text[0] != 0xFFFE) {
      NoMark(text);
      CutsAtNul(text);
    }
  }

  /** A byte order mark is taken off, and a swapped one has the octets of all units swapped. */
  lemma MarksObeyed(us: Units)
    ensures FromUtf16([0xFEFF] + us) == us
    ensures var r := FromUtf16([0xFFFE] + us);
            |r| == |us| && forall i :: 0 <= i < |us| ==> UnitBytes(r[i]) == [us[i] / 0x100, us[i] % 0x100]
  {
    var r := FromUtf16([0xFFFE] + us);
    forall i | 0 <= i < |us| ensures UnitBytes(r[i]) == [us[i] / 0x100, us[i] % 0x100] {
      assert r[i] == SwapUnit(us[i]);
    }
  }

  lemma NoMark(text: Units)
    requires text == [] || (text[0] != 0xFEFF && text[0] != 0xFFFE)
    ensures FromUtf16(text) == text
  {
  }
}
