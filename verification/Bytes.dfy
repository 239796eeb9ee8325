/** Octet strings and the fixed-width integer encodings shared by the file and
    network formats. */
module Bytes {
  type byte = x: int | 0 <= x < 0x100
  type bytes = seq<byte>

  function Pow256(n: nat): (p: nat)
    ensures p >= 1
  {
    if n == 0 then 1 else 256 * Pow256(n - 1)
  }

  /** The low `width` octets of `v`, least significant first. */
  function Le(v: nat, width: nat): (r: bytes)
    ensures |r| == width
    decreases width
  {
    if width == 0 then [] else [v % 256] + Le(v / 256, width - 1)
  }

  function FromLe(s: bytes): nat {
    if s == [] then 0 else s[0] + 256 * FromLe(s[1..])
  }

  /** The low `width` octets of `v`, most significant first. */
  function Be(v: nat, width: nat): (r: bytes)
    ensures |r| == width
    decreases width
  {
    if width == 0 then [] else Be(v / 256, width - 1) + [v % 256]
  }

  function FromBe(s: bytes): nat {
    if s == [] then 0 else 256 * FromBe(s[..|s| - 1]) + s[|s| - 1]
  }

  function Enc(big: bool, v: nat, width: nat): (r: bytes)
    ensures |r| == width
  {
    if big then Be(v, width) else Le(v, width)
  }

  function Dec(big: bool, s: bytes): nat {
    if big then FromBe(s) else FromLe(s)
  }

  /** Which end is which. */
  lemma ByteOrder(v: nat, width: nat)
    ensures |Le(v, width + 1)| == |Be(v, width + 1)| == width + 1
    ensures Le(v, width + 1)[0] == v % 0x100 && Be(v, width + 1)[width] == v % 0x100
    ensures FromLe([0x78, 0x56, 0x34, 0x12]) == FromBe([0x12, 0x34, 0x56, 0x78]) == 0x1234_5678
  {
    assert [0x78, 0x56, 0x34, 0x12][1..] == [0x56, 0x34, 0x12] && [0x56, 0x34, 0x12][1..] == [0x34, 0x12];
    assert [0x34, 0x12][1..] == [0x12] && [0x12][1..] == [];
    assert [0x12, 0x34, 0x56, 0x78][..3] == [0x12, 0x34, 0x56] && [0x12, 0x34, 0x56][..2] == [0x12, 0x34];
    assert [0x12, 0x34][..1] == [0x12] && [0x12][..0] == [];
  }

  lemma MulGap(n: nat, d: int)
    ensures d >= 1 ==> n * d >= n
    ensures d <= -1 ==> n * d + n <= 0
  {
    if d >= 1 {
      assert n * (d - 1) >= 0;
    }
    if d <= -1 {
      assert n * (-d - 1) >= 0;
    }
  }

  lemma ModUnique(a: nat, n: nat, q: nat, r: nat)
    requires 0 <= r < n && a == n * q + r
    ensures a % n == r && a / n == q
  {
    var d := a / n - q;
    assert n * (a / n) + a % n == a;
    assert n * d == r - a % n;
    MulGap(n, d);
  }

  lemma ModSplit(v: nat, p: nat)
    requires p >= 1
    ensures v % (256 * p) == v % 256 + 256 * ((v / 256) % p)
  {
    var q, r := (v / 256) / p, (v / 256) % p;
    assert v / 256 == p * q + r;
    assert v == (256 * p) * q + (256 * r + v % 256);
    ModUnique(v, 256 * p, q, 256 * r + v % 256);
  }

  /** Decoding an encoded integer gives it back modulo 256^width. */
  lemma {:induction false} DecEnc(big: bool, v: nat, width: nat)
    ensures Dec(big, Enc(big, v, width)) == v % Pow256(width)
    decreases width
  {
    if width > 0 {
      DecEnc(big, v / 256, width - 1);
      ModSplit(v, Pow256(width - 1));
      if big {
        assert Be(v, width)[..width - 1] == Be(v / 256, width - 1);
      } else {
        assert Le(v, width)[1..] == Le(v / 256, width - 1);
      }
    }
  }

  /** Encoding a decoded octet string gives it back: no two strings of one width
      decode alike. */
  lemma {:induction false} EncDec(big: bool, s: bytes)
    ensures Enc(big, Dec(big, s), |s|) == s
    ensures Dec(big, s) < Pow256(|s|)
    decreases |s|
  {
    if s != [] {
      if big {
        EncDec(big, s[..|s| - 1]);
        ModUnique(FromBe(s), 256, FromBe(s[..|s| - 1]), s[|s| - 1]);
      } else {
        EncDec(big, s[1..]);
        ModUnique(FromLe(s), 256, FromLe(s[1..]), s[0]);
      }
    }
  }

  lemma Widths()
    ensures Pow256(1) == 0x100
    ensures Pow256(2) == 0x1_0000
    ensures Pow256(4) == 0x1_0000_0000
    ensures Pow256(5) == 0x100_0000_0000
    ensures Pow256(8) == 0x1_0000_0000_0000_0000
  {
    assert Pow256(3) == 0x100_0000;
    assert Pow256(6) == 0x1_0000_0000_0000;
    assert Pow256(7) == 0x100_0000_0000_0000;
  }

  /** `b` followed by one zero octet when its length is odd. */
  function Padded(b: bytes): (r: bytes)
    ensures |r| == |b| + |b| % 2
  {
    if |b| % 2 == 1 then b + [0] else b
  }

  lemma PaddedWith(b: bytes)
    ensures Padded(b) == b || Padded(b) == b + [0]
  {
  }

  /** `b` written over `s` at `pos`, extending `s` when it reaches past the end. */
  function Overwrite(s: bytes, pos: nat, b: bytes): (r: bytes)
    requires pos <= |s|
    ensures |r| == if pos + |b| > |s| then pos + |b| else |s|
  {
    s[..pos] + b + (if pos + |b| < |s| then s[pos + |b|..] else [])
  }

  /** `b` is the part of `s` that starts at `off`. */
  predicate At(s: bytes, off: int, b: bytes) {
    0 <= off && off + |b| <= |s| && s[off..off + |b|] == b
  }

  /** The parts joined in order. */
  function Concat(parts: seq<bytes>): bytes {
    if parts == [] then [] else Concat(parts[..|parts| - 1]) + parts[|parts| - 1]
  }

  lemma ConcatSnoc(rs: seq<bytes>, r: bytes)
    ensures Concat(rs + [r]) == Concat(rs) + r
  {
    assert (rs + [r])[..|rs|] == rs;
  }

  lemma {:induction false} ConcatAppend(a: seq<bytes>, b: seq<bytes>)
    ensures Concat(a + b) == Concat(a) + Concat(b)
    decreases |b|
  {
    hide Concat;
    if b == [] {
      assert a + b == a;
      ConcatNone();
      assert Concat(a) + [] == Concat(a);
    } else {
      var init, last := b[..|b| - 1], b[|b| - 1];
      assert b == init + [last] && a + b == (a + init) + [last];
      ConcatAppend(a, init);
      ConcatSnoc(init, last);
      ConcatSnoc(a + init, last);
      assert Concat(a) + Concat(init) + last == Concat(a) + (Concat(init) + last);
    }
  }

  lemma ConcatNone()
    ensures Concat([]) == []
  {
  }

  lemma ConcatOne(r: bytes)
    ensures Concat([r]) == r
  {
    assert [r][..0] == [];
    assert [] + r == r;
  }
}
