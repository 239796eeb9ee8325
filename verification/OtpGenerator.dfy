/** One-time passwords: base32 secrets (RFC 4648, section 6) and HMAC-based codes
    (RFC 4226), as otpgenerator.cpp computes them on a little-endian host. */
module OtpGenerator {
  import opened Bytes
  import opened Decimals
  import opened Wrappers

  // ----- bit strings, most significant bit first -----

  function Pow2(n: nat): (p: nat)
    ensures p >= 1
  {
    if n == 0 then 1 else 2 * Pow2(n - 1)
  }

  function Num(bits: seq<bool>): (v: nat)
    ensures v < Pow2(|bits|)
  {
    if bits == [] then 0 else 2 * Num(bits[..|bits| - 1]) + if bits[|bits| - 1] then 1 else 0
  }

  function Bits(v: nat, n: nat): (r: seq<bool>)
    ensures |r| == n
    decreases n
  {
    if n == 0 then [] else Bits(v / 2, n - 1) + [v % 2 == 1]
  }

  lemma {:induction false} BitsNum(bits: seq<bool>)
    ensures Bits(Num(bits), |bits|) == bits
  {
    if bits != [] {
      BitsNum(bits[..|bits| - 1]);
    }
  }

  lemma {:induction false} NumBits(v: nat, n: nat)
    requires v < Pow2(n)
    ensures Num(Bits(v, n)) == v
  {
    if n > 0 {
      NumBits(v / 2, n - 1);
    }
  }

  lemma {:induction false} NumAppend(a: seq<bool>, b: seq<bool>)
    ensures Num(a + b) == Num(a) * Pow2(|b|) + Num(b)
  {
    if b == [] {
      assert a + b == a;
    } else {
      hide Num, Pow2;
      var front := b[..|b| - 1];
      NumAppend(a, front);
      assert (a + b)[..|a + b| - 1] == a + front;
      PowStep(|front|);
      NumStep(a + b);
      NumStep(b);
      NextBit(Num(a), Pow2(|front|), Num(front), if b[|front|] then 1 else 0);
    }
  }

  lemma NumStep(bits: seq<bool>)
    requires bits != []
    ensures Num(bits) == 2 * Num(bits[..|bits| - 1]) + if bits[|bits| - 1] then 1 else 0
  {
  }

  lemma PowStep(n: nat)
    ensures Pow2(n + 1) == 2 * Pow2(n)
  {
  }

  lemma NextBit(x: int, p: int, y: int, bit: int)
    ensures 2 * (x * p + y) + bit == x * (2 * p) + (2 * y + bit)
  {
  }

  lemma IntMod(x: int, n: nat, q: int, r: int)
    requires 0 <= r < n && x == n * q + r
    ensures x % n == r && x / n == q
  {
    var d := x / n - q;
    assert n * (x / n) + x % n == x;
    assert n * d == r - x % n;
    MulGap(n, d);
  }

  lemma Below(r: nat, d: nat, m: nat)
    requires d > 0 && r < m * d
    ensures r / d < m
  {
    var q := r / d;
    assert d * q <= r;
    assert d * (m - q) == m * d - d * q;
    MulGap(d, m - q);
  }

  lemma {:induction false} PowAdd(m: nat, n: nat)
    ensures Pow2(m + n) == Pow2(m) * Pow2(n)
  {
    if m > 0 {
      PowAdd(m - 1, n);
      assert Pow2(m + n) == 2 * Pow2(m + n - 1);
      assert 2 * Pow2(m - 1) * Pow2(n) == 2 * (Pow2(m - 1) * Pow2(n));
    }
  }

  // ----- base32: what a secret means -----

  const LETTERS := "ABCDEFGHIJKLMNOPQRSTUVWXYZ234567"

  /** Only upper-case letters and the digits 2 to 7 count; whatever else is skipped. */
  function Value(c: char): Option<nat> {
    if 'A' <= c <= 'Z' then Some(c as int - 'A' as int)
    else if '2' <= c <= '7' then Some(26 + (c as int - '2' as int))
    else None
  }

  function LetterBits(c: char): seq<bool> {
    if Value(c).Some? then Bits(Value(c).value, 5) else []
  }

  /** Five bits for every letter that counts. */
  function BitsOf(input: string): seq<bool> {
    if input == "" then [] else BitsOf(input[..|input| - 1]) + LetterBits(input[|input| - 1])
  }

  function Octet(bits: seq<bool>): byte
    requires |bits| == 8
  {
    EightBits();
    Num(bits)
  }

  /** The bits eight at a time; fewer than eight at the end are dropped. */
  function WholeBytes(bits: seq<bool>): bytes {
    if |bits| < 8 then [] else [Octet(bits[..8])] + WholeBytes(bits[8..])
  }

  /** Those that are dropped. */
  function Left(bits: seq<bool>): (r: seq<bool>)
    ensures |r| < 8
  {
    bits[|bits| / 8 * 8..]
  }

  lemma EightBits()
    ensures Pow2(8) == 256
  {
    assert Pow2(4) == 16;
  }

  // ----- base32: the decoding loop -----

  /** A 32-bit signed integer. */
  function Wrap32(x: int): int {
    (x + 0x8000_0000) % 0x1_0000_0000 - 0x8000_0000
  }

  /** The low bits, as a number. */
  function Low(buffer: int, k: nat): int {
    buffer % Pow2(k)
  }

  /** The octet above the lowest bits: an arithmetic shift and a cast to char. */
  function Top(buffer: int, k: nat): byte
    requires k >= 8
  {
    (buffer / Pow2(k - 8)) % 256
  }

  lemma Powers()
    ensures Pow2(5) == 32 && Pow2(8) == 256 && Pow2(32) == 0x1_0000_0000
  {
    assert Pow2(2) == 4;
    assert Pow2(4) == 16;
    PowAdd(4, 4);
    PowAdd(8, 8);
    PowAdd(16, 16);
  }

  /** Shifting five bits in keeps the low bits intact, however often the integer overflowed. */
  lemma ShiftIn(buffer: int, value: nat, k: nat)
    requires value < 32 && k < 8
    ensures (Wrap32(buffer * 32) + value) % Pow2(k + 5) == (buffer % Pow2(k)) * 32 + value
  {
    hide Pow2;
    Powers();
    PowAdd(k, 5);
    PowAdd(k + 5, 27 - k);
    var p, rest := Pow2(k), Pow2(27 - k);
    var a, r := buffer / p, buffer % p;
    var q := (buffer * 32 + 0x8000_0000) / 0x1_0000_0000;
    Gathered(p, rest, a, q, r, value);
    assert buffer == p * a + r;
    assert Wrap32(buffer * 32) == buffer * 32 - q * 0x1_0000_0000;
    IntMod(Wrap32(buffer * 32) + value, 32 * p, a - q * rest, r * 32 + value);
  }

  lemma Gathered(p: int, rest: int, a: int, q: int, r: int, value: int)
    ensures (p * a + r) * 32 + value - q * (32 * p * rest) == 32 * p * (a - q * rest) + (r * 32 + value)
  {
    var x := p * a;
    assert 32 * p * a == 32 * x;
    assert 32 * p * (a - q * rest) == 32 * p * a - 32 * p * (q * rest);
    assert q * (32 * p * rest) == 32 * p * (q * rest);
  }

  /** Taking the top eight of the low bits out. */
  lemma ShiftOut(buffer: int, k: nat)
    requires 8 <= k < 13
    ensures (buffer / Pow2(k - 8)) % 256 == (buffer % Pow2(k)) / Pow2(k - 8)
    ensures buffer % Pow2(k - 8) == (buffer % Pow2(k)) % Pow2(k - 8)
  {
    hide Pow2;
    Powers();
    PowAdd(8, k - 8);
    var d := Pow2(k - 8);
    var a, r := buffer / (256 * d), buffer % (256 * d);
    Below(r, d, 256);
    var q := r / d;
    assert r == d * q + r % d;
    assert d * (256 * a + q) == 256 * d * a + d * q;
    IntMod(buffer, d, 256 * a + q, r % d);
    IntMod(buffer / d, 256, a, q);
  }

  lemma NumSplit(bits: seq<bool>)
    requires |bits| >= 8
    ensures Num(bits) / Pow2(|bits| - 8) == Num(bits[..8]) && Num(bits) % Pow2(|bits| - 8) == Num(bits[8..])
  {
    hide Num, Pow2;
    assert bits == bits[..8] + bits[8..];
    NumOfTwo(bits[..8], bits[8..]);
  }

  lemma NumOfTwo(a: seq<bool>, b: seq<bool>)
    ensures Num(a + b) / Pow2(|b|) == Num(a) && Num(a + b) % Pow2(|b|) == Num(b)
  {
    hide Num, Pow2;
    NumAppend(a, b);
    var p := Pow2(|b|);
    assert Num(a + b) == p * Num(a) + Num(b);
    IntMod(Num(a + b), p, Num(a), Num(b));
  }

  lemma {:induction false} WholeBytesAppend(a: seq<bool>, b: seq<bool>)
    ensures WholeBytes(a + b) == WholeBytes(a) + WholeBytes(Left(a) + b)
  {
    hide WholeBytes, Octet, Left;
    if |a| < 8 {
      ShortOfAByte(a);
    } else {
      WholeBytesAppend(a[8..], b);
      assert (a + b)[..8] == a[..8] && (a + b)[8..] == a[8..] + b;
      WholeBytesStep(a + b);
      WholeBytesStep(a);
      LeftStep(a);
    }
  }

  lemma WholeBytesStep(bits: seq<bool>)
    requires |bits| >= 8
    ensures WholeBytes(bits) == [Octet(bits[..8])] + WholeBytes(bits[8..])
  {
  }

  lemma LeftStep(bits: seq<bool>)
    requires |bits| >= 8
    ensures Left(bits[8..]) == Left(bits)
  {
    var n := |bits| / 8 * 8 - 8;
    assert bits[8..][n..] == bits[8 + n..];
  }

  lemma {:induction false} LeftAppend(a: seq<bool>, b: seq<bool>)
    ensures Left(a + b) == Left(Left(a) + b)
  {
    hide Left;
    if |a| < 8 {
      ShortOfAByte(a);
    } else {
      assert (a + b)[8..] == a[8..] + b;
      LeftAppend(a[8..], b);
      LeftStep(a + b);
      LeftStep(a);
    }
  }

  /** What one letter adds to the bytes and leaves in the buffer. */
  lemma Letter(bits: seq<bool>, buffer: int, value: nat)
    requires value < 32 && InBuffer(bits, buffer, |Left(bits)|)
    ensures var after, next := bits + Bits(value, 5), Wrap32(buffer * 32) + value;
            var k := |Left(bits)| + 5;
            if k < 8 then WholeBytes(after) == WholeBytes(bits) && InBuffer(after, next, k)
            else WholeBytes(after) == WholeBytes(bits) + [Top(next, k)] && InBuffer(after, next, k - 8)
  {
    hide Num, WholeBytes, Wrap32, Left, Bits, Low, Top;
    var more := Left(bits) + Bits(value, 5);
    LetterShifted(Left(bits), buffer, value);
    WholeBytesAppend(bits, Bits(value, 5));
    LeftAppend(bits, Bits(value, 5));
    if |more| < 8 {
      ShortOfAByte(more);
    } else {
      ByteOut(more, Wrap32(buffer * 32) + value);
    }
  }

  /** The low bits of the buffer are those that do not make up an octet yet. */
  ghost predicate InBuffer(bits: seq<bool>, buffer: int, bitsLeft: nat) {
    bitsLeft == |Left(bits)| && Low(buffer, bitsLeft) == Num(Left(bits))
  }

  lemma LetterShifted(left: seq<bool>, buffer: int, value: nat)
    requires |left| < 8 && value < 32 && Low(buffer, |left|) == Num(left)
    ensures Low(Wrap32(buffer * 32) + value, |left| + 5) == Num(left + Bits(value, 5))
  {
    hide Num, Pow2, Wrap32, Bits;
    Powers();
    NumBits(value, 5);
    NumAppend(left, Bits(value, 5));
    ShiftIn(buffer, value, |left|);
  }

  lemma ByteOut(bits: seq<bool>, buffer: int)
    requires 8 <= |bits| < 13 && Low(buffer, |bits|) == Num(bits)
    ensures WholeBytes(bits) == [Top(buffer, |bits|)] && InBuffer(bits, buffer, |bits| - 8)
  {
    hide Num, Pow2, WholeBytes, Left;
    ShiftOut(buffer, |bits|);
    NumSplit(bits);
    OneByte(bits);
  }

  lemma ShortOfAByte(bits: seq<bool>)
    requires |bits| < 8
    ensures WholeBytes(bits) == [] && Left(bits) == bits
  {
    hide Octet, Num, Pow2;
  }

  lemma OneByte(bits: seq<bool>)
    requires 8 <= |bits| < 16
    ensures WholeBytes(bits) == [Num(bits[..8])] && Left(bits) == bits[8..]
  {
    hide Num, Pow2, WholeBytes, Octet, Left;
    ByteInFront(bits);
    ShortOfAByte(bits[8..]);
    LeftOfOne(bits);
  }

  lemma ByteInFront(bits: seq<bool>)
    requires |bits| >= 8
    ensures Num(bits[..8]) < 0x100 && WholeBytes(bits) == [Num(bits[..8])] + WholeBytes(bits[8..])
  {
    hide Num, Pow2;
    EightBits();
    assert Octet(bits[..8]) == Num(bits[..8]);
    hide Octet;
  }

  lemma LeftOfOne(bits: seq<bool>)
    requires 8 <= |bits| < 16
    ensures Left(bits) == bits[8..]
  {
    assert |bits| / 8 * 8 == 8;
  }

  lemma NextLetter(input: string, i: nat)
    requires i < |input|
    ensures BitsOf(input[..i + 1]) == BitsOf(input[..i]) + LetterBits(input[i])
  {
    assert input[..i + 1][..i] == input[..i];
  }

  method FromBase32(input: string) returns (result: bytes)
    ensures result == WholeBytes(BitsOf(input))
  {
    hide Num, WholeBytes, Wrap32, Left, Low, Top, BitsOf, Bits, InBuffer;
    result := [];
    var buffer: int, bitsLeft: nat := 0, 0;
    NothingYet();
    for i := 0 to |input|
      invariant result == WholeBytes(BitsOf(input[..i]))
      invariant InBuffer(BitsOf(input[..i]), buffer, bitsLeft) && bitsLeft == |Left(BitsOf(input[..i]))|
    {
      var value := Value(input[i]);
      NextLetter(input, i);
      if value.None? {
        assert BitsOf(input[..i + 1]) == BitsOf(input[..i]);
        continue;
      }
      Letter(BitsOf(input[..i]), buffer, value.value);
      buffer := Wrap32(buffer * 32) + value.value;
      bitsLeft := bitsLeft + 5;
      if bitsLeft >= 8 {
        result := result + [Top(buffer, bitsLeft)];
        bitsLeft := bitsLeft - 8;
      }
      LeftIn(BitsOf(input[..i + 1]), buffer, bitsLeft);
    }
    assert input[..|input|] == input;
  }

  lemma LeftIn(bits: seq<bool>, buffer: int, bitsLeft: nat)
    requires InBuffer(bits, buffer, bitsLeft)
    ensures bitsLeft == |Left(bits)|
  {
  }

  lemma NothingYet()
    ensures BitsOf("") == [] && InBuffer([], 0, 0) && Left([]) == [] && WholeBytes([]) == []
  {
  }

  // ----- base32: what it inverts -----

  /** Section 6 of RFC 4648: five bits to a letter, the last ones filled up with zeros. */
  function Encode(bits: seq<bool>): string {
    if bits == [] then ""
    else if |bits| < 5 then [Symbol(bits + Zeros(5 - |bits|))]
    else [Symbol(bits[..5])] + Encode(bits[5..])
  }

  function Symbol(bits: seq<bool>): char
    requires |bits| == 5
  {
    Powers();
    LETTERS[Num(bits)]
  }

  function Zeros(n: nat): (r: seq<bool>)
    ensures |r| == n
  {
    seq(n, _ => false)
  }

  function ByteBits(s: bytes): (r: seq<bool>)
    ensures |r| == 8 * |s|
  {
    if s == [] then [] else Bits(s[0], 8) + ByteBits(s[1..])
  }

  function Pads(n: nat): string {
    seq(n, _ => '=')
  }

  /** With or without the padding to a multiple of eight letters. */
  function Base32(s: bytes, padded: bool): string {
    var letters := Encode(ByteBits(s));
    if padded then letters + Pads((8 - |letters| % 8) % 8) else letters
  }

  lemma {:induction false} BitsOfAppend(a: string, b: string)
    ensures BitsOf(a + b) == BitsOf(a) + BitsOf(b)
  {
    hide LetterBits;
    if b == "" {
      assert a + b == a;
    } else {
      BitsOfAppend(a, b[..|b| - 1]);
      assert (a + b)[..|a + b| - 1] == a + b[..|b| - 1];
    }
  }

  /** The characters stand for their places in the alphabet of section 6 of RFC 4648, and no
      others for anything. */
  lemma AlphabetIs(c: char, v: nat)
    ensures Value(c) == Some(v) <==> v < 32 && "ABCDEFGHIJKLMNOPQRSTUVWXYZ234567"[v] == c
  {
    if Value(c).Some? {
      assert LETTERS[Value(c).value] == c;
    }
  }

  lemma OnlyLetters(c: char)
    ensures Value(c).Some? <==> c in "ABCDEFGHIJKLMNOPQRSTUVWXYZ234567"
  {
    if Value(c).Some? {
      AlphabetIs(c, Value(c).value);
    }
    if c in LETTERS {
      var v :| 0 <= v < |LETTERS| && LETTERS[v] == c;
      AlphabetIs(c, v);
    }
  }

  predicate Skipped(s: string) {
    forall i :: 0 <= i < |s| ==> s[i] !in "ABCDEFGHIJKLMNOPQRSTUVWXYZ234567"
  }

  lemma {:induction false} NoBits(s: string)
    requires Skipped(s)
    ensures BitsOf(s) == []
  {
    hide Value;
    if s != "" {
      NoBits(s[..|s| - 1]);
      OnlyLetters(s[|s| - 1]);
    }
  }

  /** Spaces, dashes, padding and lower-case letters make no difference wherever they are. */
  lemma JunkIgnored(a: string, junk: string, b: string)
    requires Skipped(junk)
    ensures WholeBytes(BitsOf(a + junk + b)) == WholeBytes(BitsOf(a + b))
  {
    BitsOfAppend(a + junk, b);
    BitsOfAppend(a, junk);
    BitsOfAppend(a, b);
    NoBits(junk);
    assert BitsOf(a) + [] == BitsOf(a);
  }

  lemma SymbolBits(bits: seq<bool>)
    requires |bits| == 5
    ensures BitsOf([Symbol(bits)]) == bits
  {
    hide Num, Pow2, Bits;
    Powers();
    BitsNum(bits);
    assert [Symbol(bits)][..0] == "";
    assert BitsOf("") == [];
    assert Value(LETTERS[Num(bits)]) == Some(Num(bits));
  }

  lemma {:induction false} EncodedBits(bits: seq<bool>)
    ensures BitsOf(Encode(bits)) == bits + Zeros((5 - |bits| % 5) % 5)
  {
    hide Symbol, BitsOf, Num, Pow2, LetterBits, Zeros;
    if bits == [] {
      assert BitsOf("") == [] by { NoBits(""); }
    } else if |bits| < 5 {
      SymbolBits(bits + Zeros(5 - |bits|));
    } else {
      SymbolBits(bits[..5]);
      EncodedBits(bits[5..]);
      BitsOfAppend([Symbol(bits[..5])], Encode(bits[5..]));
      FiveInFront(bits);
    }
  }

  lemma FiveInFront(bits: seq<bool>)
    requires |bits| >= 5
    ensures bits[..5] + (bits[5..] + Zeros((5 - |bits[5..]| % 5) % 5)) == bits + Zeros((5 - |bits| % 5) % 5)
  {
    assert bits == bits[..5] + bits[5..];
  }

  lemma {:induction false} BytesBack(s: bytes, extra: seq<bool>)
    requires |extra| < 8
    ensures WholeBytes(ByteBits(s) + extra) == s
  {
    hide Num, Bits;
    if s != [] {
      var bits := ByteBits(s) + extra;
      BytesBack(s[1..], extra);
      EightBits();
      NumBits(s[0], 8);
      assert bits[..8] == Bits(s[0], 8);
      assert bits[8..] == ByteBits(s[1..]) + extra;
    }
  }

  /** A secret written in base32, padded or not, is read back octet for octet. */
  lemma RoundTrip(s: bytes, padded: bool)
    ensures WholeBytes(BitsOf(Base32(s, padded))) == s
  {
    hide BitsOf, WholeBytes, Encode, ByteBits;
    var letters := Encode(ByteBits(s));
    EncodedBits(ByteBits(s));
    BytesBack(s, Zeros((5 - |ByteBits(s)| % 5) % 5));
    if padded {
      var pads := Pads((8 - |letters| % 8) % 8);
      JunkIgnored(letters, pads, "");
      assert letters + pads + "" == letters + pads && letters + "" == letters;
    }
  }

  /** Lower-case secrets are not understood: they decode to nothing. */
  lemma LowerCaseLost(s: string)
    requires forall i :: 0 <= i < |s| ==> 'a' <= s[i] <= 'z'
    ensures WholeBytes(BitsOf(s)) == []
  {
    hide Skipped, BitsOf;
    LowerCaseSkipped(s);
    NoBits(s);
  }

  lemma LowerCaseSkipped(s: string)
    requires forall i :: 0 <= i < |s| ==> 'a' <= s[i] <= 'z'
    ensures Skipped(s)
  {
    forall i | 0 <= i < |s| ensures s[i] !in "ABCDEFGHIJKLMNOPQRSTUVWXYZ234567" {
      OnlyLetters(s[i]);
    }
  }

  // ----- the code -----

  /** qToBigEndian on a little-endian host: the octets change places. */
  function ByteSwapped(counter: nat): (r: nat)
    ensures r < Pow256(8)
  {
    EncDec(false, Be(counter, 8));
    FromLe(Be(counter, 8))
  }

  lemma SwappedOctets(counter: nat)
    ensures Le(ByteSwapped(counter), 8) == Be(counter, 8)
  {
    EncDec(false, Be(counter, 8));
  }

  lemma LowOctet(data: bytes, rest: nat, n: nat)
    ensures data + Le(rest, n + 1) == data + [rest % 256] + Le(rest / 256, n)
  {
    hide Le;
    NextOctet(rest, n);
    Regrouped(data, rest % 256, Le(rest / 256, n));
  }

  lemma NextOctet(rest: nat, n: nat)
    ensures Le(rest, n + 1) == [rest % 256] + Le(rest / 256, n)
  {
  }

  lemma Regrouped(data: bytes, b: byte, tail: bytes)
    ensures data + ([b] + tail) == data + [b] + tail
  {
  }

  /** The message to be authenticated: taking the swapped counter apart from its low end
      gives its octets from the high end, section 5.2 of RFC 4226. */
  method CounterOctets(counter: nat) returns (data: bytes)
    requires counter < Pow256(8)
    ensures data == Be(counter, 8) && FromBe(data) == counter
  {
    hide Le, Be, FromBe, FromLe, Pow256, ByteSwapped;
    CounterBack(counter);
    var rest := ByteSwapped(counter);
    data := [];
    SwappedOctets(counter);
    for i := 8 downto 0
      invariant data + Le(rest, i) == Be(counter, 8)
    {
      LowOctet(data, rest, i);
      data := data + [rest % 256];
      rest := rest / 256;
    }
  }

  lemma CounterBack(counter: nat)
    requires counter < Pow256(8)
    ensures FromBe(Be(counter, 8)) == counter
  {
    hide Be, FromBe, Pow256;
    DecEnc(true, counter, 8);
  }

  /** Four octets from a place the last one names, without the top bit. */
  function Truncated(mac: bytes): (r: nat)
    requires |mac| == 20
    ensures r < 0x8000_0000
  {
    var offset := mac[19] % 16;
    var b0: int, b1: int, b2: int, b3: int := mac[offset], mac[offset + 1], mac[offset + 2], mac[offset + 3];
    b0 % 128 * 0x100_0000 + b1 * 0x1_0000 + b2 * 0x100 + b3
  }

  /** Section 5.3 of RFC 4226: the low 31 bits of the 32-bit big-endian number there. */
  lemma TruncatedIsDynamic(mac: bytes)
    requires |mac| == 20
    ensures Truncated(mac) == FromBe(mac[mac[19] % 16..mac[19] % 16 + 4]) % 0x8000_0000
  {
    var w := mac[mac[19] % 16..mac[19] % 16 + 4];
    hide FromBe;
    FourOctets(w);
    Low31(w[0], w[1], w[2], w[3]);
  }

  lemma FourOctets(w: bytes)
    requires |w| == 4
    ensures var w0: int, w1: int, w2: int, w3: int := w[0], w[1], w[2], w[3];
            FromBe(w) == w0 * 0x100_0000 + w1 * 0x1_0000 + w2 * 0x100 + w3
  {
    hide FromBe;
    BeStep(w[..1]);
    BeStep(w[..2]);
    BeStep(w[..3]);
    BeStep(w);
    assert w[..2][..1] == w[..1] && w[..3][..2] == w[..2] && w[..1][..0] == [];
    NoOctets();
  }

  lemma Low31(w0: int, w1: int, w2: int, w3: int)
    requires 0 <= w0 < 0x100 && 0 <= w1 < 0x100 && 0 <= w2 < 0x100 && 0 <= w3 < 0x100
    ensures w0 % 128 * 0x100_0000 + w1 * 0x1_0000 + w2 * 0x100 + w3
         == (w0 * 0x100_0000 + w1 * 0x1_0000 + w2 * 0x100 + w3) % 0x8000_0000
  {
  }

  lemma NoOctets()
    ensures FromBe([]) == 0
  {
  }

  lemma BeStep(s: bytes)
    requires s != []
    ensures FromBe(s) == 256 * FromBe(s[..|s| - 1]) + s[|s| - 1]
  {
  }

  lemma {:induction false} ZerosInFront(n: nat, s: string)
    requires Digits(s)
    ensures Digits(seq(n, _ => '0') + s) && Decimal(seq(n, _ => '0') + s) == Decimal(s)
  {
    var zeros := seq(n, _ => '0');
    assert Digits(zeros + s);
    if s == "" {
      assert zeros + s == zeros;
      if n > 0 {
        ZerosInFront(n - 1, "");
        assert zeros[..n - 1] == seq(n - 1, _ => '0') + "";
      }
    } else {
      ZerosInFront(n, s[..|s| - 1]);
      assert (zeros + s)[..|zeros + s| - 1] == zeros + s[..|s| - 1];
    }
  }

  /** A keyed message digest of twenty octets. */
  type Mac = (bytes, bytes) -> bytes

  /** The part of the digest that section 5.3 of RFC 4226 selects. */
  function Window(digest: bytes): (r: bytes)
    requires |digest| == 20
    ensures |r| == 4
  {
    digest[digest[19] % 16..digest[19] % 16 + 4]
  }

  /** The code for a counter: the selected 31 bits in as many decimal digits as asked for,
      leading zeros included. Asking for no digits yields one. */
  method GenerateHotp(secret: string, counter: nat, length: nat, mac: Mac) returns (code: string)
    requires counter < Pow256(8) && length <= 9
    requires forall key, message :: |mac(key, message)| == 20
    ensures |code| == (if length == 0 then 1 else length) && Digits(code)
    ensures Decimal(code)
         == FromBe(Window(mac(WholeBytes(BitsOf(secret)), Be(counter, 8)))) % 0x8000_0000 % Pow10(length)
  {
    hide Number, Truncated, WholeBytes, BitsOf, Be, FromBe, Pow256, Decimal, RightJustified;
    var key := FromBase32(secret);
    var data := CounterOctets(counter);
    var digest := mac(key, data);
    TruncatedIsDynamic(digest);
    var value := Truncated(digest) % Pow10(length);
    ShortNumber(value, length);
    code := RightJustified(Number(value), length, '0');
  }

  lemma ShortNumber(n: nat, length: nat)
    requires n < Pow10(length)
    ensures var r := RightJustified(Number(n), length, '0');
            Digits(r) && Decimal(r) == n && |r| == if length == 0 then 1 else length
  {
    hide Decimal, Pow10;
    if length == 0 {
      assert n == 0 by { TenToNone(); }
      assert Number(0) == ['0'];
    } else {
      NumberLength(n, length);
      ZerosInFront(length - |Number(n)|, Number(n));
    }
  }

  lemma TenToNone()
    ensures Pow10(0) == 1
  {
  }
}
