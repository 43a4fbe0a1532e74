/** Bytes, options and the big-endian integers that every header, transcript and signing input is made of. */
module Bytes {

  type Byte = b: int | 0 <= b < 256
  type Bytes = seq<Byte>

  datatype Option<+T> = None | Some(value: T)

  const U16_LIMIT: nat := 0x1_0000
  const U32_LIMIT: nat := 0x1_0000_0000
  const U64_LIMIT: nat := 0x1_0000_0000_0000_0000

  type U16 = n: int | 0 <= n < 0x1_0000
  type U32 = n: int | 0 <= n < 0x1_0000_0000
  type U64 = n: int | 0 <= n < 0x1_0000_0000_0000_0000

  /** 256 to the power n. */
  function Pow256(n: nat): (p: nat)
    ensures p > 0
  {
    if n == 0 then 1 else 256 * Pow256(n - 1)
  }

  lemma PowerLimits()
    ensures Pow256(2) == U16_LIMIT && Pow256(4) == U32_LIMIT && Pow256(8) == U64_LIMIT
  {
  }

  /** The low n bytes of v, most significant first. */
  function BigEndian(v: nat, n: nat): (s: Bytes)
    ensures |s| == n
  {
    if n == 0 then [] else BigEndian(v / 256, n - 1) + [v % 256]
  }

  /** The integer a big-endian byte string stands for. */
  function Value(s: Bytes): nat
  {
    if s == [] then 0 else Value(s[..|s| - 1]) * 256 + s[|s| - 1]
  }

  lemma {:induction false} DivDiv(v: nat, k: nat)
    ensures (v / 256) / Pow256(k) == v / Pow256(k + 1)
  {
    var p := Pow256(k);
    var q := (v / 256) / p;
    var r := (v / 256) % p;
    var low := v % 256;
    assert v / 256 == p * q + r;
    assert v == 256 * (p * q + r) + low;
    assert v == (256 * p) * q + (256 * r + low);
    assert 0 <= 256 * r + low < 256 * p;
    DivUnique(v, 256 * p, q, 256 * r + low);
  }

  lemma DivUnique(v: nat, d: nat, q: nat, r: nat)
    requires d > 0 && r < d && v == d * q + r
    ensures v / d == q
  {
    var q', r' := v / d, v % d;
    assert v == d * q' + r';
    if q > q' {
      Multiple(d, q, q');
    } else if q < q' {
      Multiple(d, q', q);
    }
  }

  lemma {:induction false} Multiple(d: nat, q: nat, q': nat)
    requires q > q'
    ensures d * q >= d * q' + d
  {
    if q > q' + 1 {
      Multiple(d, q - 1, q');
    }
  }

  /** Byte i of the encoding is the one that a shift by 8 * (n - 1 - i) bits brings down. */
  lemma {:induction false} BigEndianAt(v: nat, n: nat, i: nat)
    requires i < n
    ensures BigEndian(v, n)[i] == (v / Pow256(n - 1 - i)) % 256
  {
    if i < n - 1 {
      BigEndianAt(v / 256, n - 1, i);
      DivDiv(v, n - 2 - i);
    }
  }

  lemma ValueAppend(s: Bytes, b: Byte)
    ensures Value(s + [b]) == Value(s) * 256 + b
  {
    assert (s + [b])[..|s|] == s;
  }

  /** Encoding then reading gives the integer back when it fits. */
  lemma {:induction false} ValueOfBigEndian(v: nat, n: nat)
    requires v < Pow256(n)
    ensures Value(BigEndian(v, n)) == v
  {
    if n > 0 {
      var init := BigEndian(v / 256, n - 1);
      ValueOfBigEndian(v / 256, n - 1);
      ValueAppend(init, v % 256);
    }
  }

  /** Reading then encoding gives the bytes back. */
  lemma {:induction false} BigEndianOfValue(s: Bytes)
    ensures Value(s) < Pow256(|s|)
    ensures BigEndian(Value(s), |s|) == s
  {
    if s != [] {
      BigEndianOfValue(s[..|s| - 1]);
      assert s == s[..|s| - 1] + [s[|s| - 1]];
    }
  }

  /** Two integers that fit in n bytes and have the same encoding are equal. */
  lemma BigEndianInjective(v: nat, w: nat, n: nat)
    requires v < Pow256(n) && w < Pow256(n)
    requires BigEndian(v, n) == BigEndian(w, n)
    ensures v == w
  {
    ValueOfBigEndian(v, n);
    ValueOfBigEndian(w, n);
  }

  /** Splitting two equal concatenations at a place where the heads have the same length. */
  lemma SplitEqual<T>(a: seq<T>, b: seq<T>, c: seq<T>, d: seq<T>)
    requires a + b == c + d && |a| == |c|
    ensures a == c && b == d
  {
    assert a == (a + b)[..|a|];
    assert c == (c + d)[..|c|];
    assert b == (a + b)[|a|..];
    assert d == (c + d)[|c|..];
  }

  /** The bytes of an ASCII literal. */
  function Ascii(s: string): (b: Bytes)
    requires forall i :: 0 <= i < |s| ==> s[i] as int < 256
    ensures |b| == |s|
    ensures forall i :: 0 <= i < |s| ==> b[i] == s[i] as int
  {
    seq(|s|, i requires 0 <= i < |s| => s[i] as int)
  }
}
