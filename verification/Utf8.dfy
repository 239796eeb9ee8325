/** Text as Unicode scalar values, its UTF-8 form (RFC 3629, section 3), and truncation
    to a number of octets. */
module Utf8 {
  import opened Bytes
  import opened Wrappers

  type Scalar = x: int | 0 <= x < 0xD800 || 0xE000 <= x <= 0x10FFFF
  type Text = seq<Scalar>

  /** An octet of the form 10xxxxxx: `(b & 0xc0) == 0x80`. */
  predicate Continuation(b: byte) {
    b / 64 == 2
  }

  function EncodeChar(c: Scalar): (r: bytes)
    ensures 1 <= |r| <= 4 && !Continuation(r[0])
    ensures forall k :: 1 <= k < |r| ==> Continuation(r[k])
  {
    if c < 0x80 then [c]
    else if c < 0x800 then [0xC0 + c / 0x40, 0x80 + c % 0x40]
    else if c < 0x1_0000 then [0xE0 + c / 0x1000, 0x80 + c / 0x40 % 0x40, 0x80 + c % 0x40]
    else [0xF0 + c / 0x4_0000, 0x80 + c / 0x1000 % 0x40, 0x80 + c / 0x40 % 0x40, 0x80 + c % 0x40]
  }

  function ToUtf8(t: Text): (r: bytes) {
    if t == [] then [] else EncodeChar(t[0]) + ToUtf8(t[1..])
  }

  /** The character at the front of `b` and the number of octets it takes. */
  function DecodeChar(b: bytes): (r: Option<(int, nat)>)
    ensures r.Some? ==> 1 <= r.value.1 <= |b|
  {
    if b == [] then None
    else
      var lead: int := b[0];
      if lead < 0x80 then Some((lead, 1))
      else if |b| >= 2 && lead / 32 == 6 then Some((lead % 32 * 0x40 + Low6(b[1]), 2))
      else if |b| >= 3 && lead / 16 == 14 then Some((lead % 16 * 0x1000 + Low6(b[1]) * 0x40 + Low6(b[2]), 3))
      else if |b| >= 4 && lead / 8 == 30 then
        Some((lead % 8 * 0x4_0000 + Low6(b[1]) * 0x1000 + Low6(b[2]) * 0x40 + Low6(b[3]), 4))
      else None
  }

  function Low6(b: byte): int {
    b % 64
  }

  predicate IsScalar(x: int) {
    0 <= x < 0xD800 || 0xE000 <= x <= 0x10FFFF
  }

  function FromUtf8(b: bytes): Option<Text>
    decreases |b|
  {
    if b == [] then Some([])
    else
      match DecodeChar(b)
      case None => None
      case Some(c) =>
        if !IsScalar(c.0) then None
        else
          match FromUtf8(b[c.1..])
          case None => None
          case Some(t) => Some([c.0 as Scalar] + t)
  }

  lemma Low6Of(x: int)
    requires 0 <= x < 64
    ensures Low6(0x80 + x) == x
  {
  }

  lemma Digits(c: nat)
    ensures c == c / 0x40 * 0x40 + c % 0x40
    ensures c == c / 0x1000 * 0x1000 + c / 0x40 % 0x40 * 0x40 + c % 0x40
    ensures c == c / 0x4_0000 * 0x4_0000 + c / 0x1000 % 0x40 * 0x1000 + c / 0x40 % 0x40 * 0x40 + c % 0x40
  {
    var a := c / 0x40;
    var b := a / 0x40;
    assert c / 0x1000 == b && c / 0x4_0000 == b / 0x40;
  }

  /** Examples of section 7 of RFC 3629. */
  lemma KnownForms()
    ensures ToUtf8([0x41, 0x2262, 0x391, 0x2E]) == [0x41, 0xE2, 0x89, 0xA2, 0xCE, 0x91, 0x2E]
    ensures ToUtf8([0x233B4]) == [0xF0, 0xA3, 0x8E, 0xB4]
  {
    assert ToUtf8([]) == [];
    assert ToUtf8([0x2E]) == EncodeChar(0x2E) + ToUtf8([]);
    assert [0x391, 0x2E][1..] == [0x2E];
    assert [0x2262, 0x391, 0x2E][1..] == [0x391, 0x2E];
    assert [0x41, 0x2262, 0x391, 0x2E][1..] == [0x2262, 0x391, 0x2E];
    assert [0x233B4][1..] == [];
  }

  lemma CharBack(c: Scalar, rest: bytes)
    ensures DecodeChar(EncodeChar(c) + rest) == Some((c as int, |EncodeChar(c)|))
  {
    hide Low6;
    var e := EncodeChar(c);
    var b := e + rest;
    assert b[0] == e[0] && (|e| > 1 ==> b[1] == e[1]) && (|e| > 2 ==> b[2] == e[2]) && (|e| > 3 ==> b[3] == e[3]);
    Digits(c);
    Low6Of(c % 0x40);
    Low6Of(c / 0x40 % 0x40);
    Low6Of(c / 0x1000 % 0x40);
    if c < 0x80 {
    } else if c < 0x800 {
      assert c / 0x40 < 32;
    } else if c < 0x1_0000 {
      assert c / 0x1000 < 16;
    } else {
      assert c / 0x4_0000 < 8;
    }
  }

  lemma CharConsumed(c: Scalar, e: bytes, rest: bytes)
    requires e != [] && DecodeChar(e + rest) == Some((c as int, |e|))
    ensures FromUtf8(e + rest)
         == match FromUtf8(rest)
            case None => None
            case Some(t) => Some([c] + t)
  {
    hide DecodeChar;
    assert (e + rest)[|e|..] == rest;
  }

  /** UTF-8 text decodes to what was encoded, so no two texts encode alike. */
  lemma {:induction false} TextBack(t: Text)
    ensures FromUtf8(ToUtf8(t)) == Some(t)
  {
    if t != [] {
      hide EncodeChar, DecodeChar, FromUtf8;
      CharBack(t[0], ToUtf8(t[1..]));
      CharConsumed(t[0], EncodeChar(t[0]), ToUtf8(t[1..]));
      TextBack(t[1..]);
      assert [t[0]] + t[1..] == t;
    }
  }

  /** How many leading characters of `t` fit whole in `limit` octets. */
  function Fitting(t: Text, limit: int): (k: nat)
    ensures k <= |t|
  {
    if t == [] || |EncodeChar(t[0])| > limit then 0
    else 1 + Fitting(t[1..], limit - |EncodeChar(t[0])|)
  }

  function Bounded(t: Text, limit: int): bytes {
    ToUtf8(t[..Fitting(t, limit)])
  }

  lemma PrefixCons(t: Text, k: nat)
    requires 1 <= k <= |t|
    ensures ToUtf8(t[..k]) == EncodeChar(t[0]) + ToUtf8(t[1..][..k - 1])
  {
    assert t[..k][0] == t[0] && t[..k][1..] == t[1..][..k - 1];
  }

  /** Bounded is the longest prefix of whole characters within the limit: `k` characters
      fit exactly when Fitting counts at least `k`. When it truncates, it is at most
      three octets short of the limit. */
  lemma {:induction false} BoundedIsLongest(t: Text, limit: int)
    requires limit >= 0
    ensures forall k :: 0 <= k <= |t| ==> (|ToUtf8(t[..k])| <= limit <==> k <= Fitting(t, limit))
    ensures |ToUtf8(t)| <= limit ==> Bounded(t, limit) == ToUtf8(t)
    ensures |ToUtf8(t)| > limit ==> limit - 3 <= |Bounded(t, limit)| <= limit
  {
    hide EncodeChar;
    if t != [] {
      var head := |EncodeChar(t[0])|;
      if head <= limit {
        BoundedIsLongest(t[1..], limit - head);
        PrefixCons(t, Fitting(t, limit));
      }
      forall k | 0 <= k <= |t| ensures |ToUtf8(t[..k])| <= limit <==> k <= Fitting(t, limit) {
        if k > 0 {
          PrefixCons(t, k);
        }
      }
      assert t[..|t|] == t;
    }
  }

  /** Where the limit falls inside the text, the octets from the end of the last whole
      character to the limit are all continuations, and that end is not one. */
  lemma {:induction false} CutPoint(t: Text, p: nat)
    requires p < |ToUtf8(t)|
    ensures var cut := |Bounded(t, p)|;
            && cut <= p && Bounded(t, p) == ToUtf8(t)[..cut] && !Continuation(ToUtf8(t)[cut])
            && forall q :: cut < q <= p ==> Continuation(ToUtf8(t)[q])
  {
    hide Continuation;
    var e, rest := EncodeChar(t[0]), ToUtf8(t[1..]);
    hide EncodeChar;
    assert ToUtf8(t) == e + rest;
    if |e| <= p {
      CutPoint(t[1..], p - |e|);
      BoundedCons(t, p);
      hide ToUtf8, Bounded;
      var cut := |Bounded(t[1..], p - |e|)|;
      assert (e + rest)[..|e| + cut] == e + rest[..cut];
      forall q | |e| + cut < q <= p ensures Continuation(ToUtf8(t)[q]) {
        assert ToUtf8(t)[q] == rest[q - |e|];
      }
    } else {
      assert t[..0] == [];
    }
  }

  lemma BoundedCons(t: Text, p: nat)
    requires t != [] && |EncodeChar(t[0])| <= p
    ensures Bounded(t, p) == EncodeChar(t[0]) + Bounded(t[1..], p - |EncodeChar(t[0])|)
  {
    hide EncodeChar;
    PrefixCons(t, Fitting(t, p));
  }

  /** Truncation by stepping back from the limit over continuation octets. */
  method BoundedUtf8(value: Text, maxBytes: int) returns (r: bytes)
    ensures r == Bounded(value, maxBytes)
  {
    hide Continuation, EncodeChar;
    var utf8 := ToUtf8(value);
    if |utf8| <= maxBytes {
      BoundedIsLongest(value, maxBytes);
      return utf8;
    }
    var boundedSize := if maxBytes > 0 then maxBytes else 0;
    if utf8 == [] {
      return [];
    }
    CutPoint(value, boundedSize);
    ghost var cut := |Bounded(value, boundedSize)|;
    while boundedSize > 0 && Continuation(utf8[boundedSize])
      invariant cut <= boundedSize < |utf8|
    {
      boundedSize := boundedSize - 1;
    }
    r := utf8[..boundedSize];
    if maxBytes < 0 {
      NoneFit(value, maxBytes);
    }
  }

  lemma NoneFit(t: Text, limit: int)
    requires limit < 0
    ensures Bounded(t, limit) == Bounded(t, 0)
  {
  }
}
