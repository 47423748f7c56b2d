/** Little-endian fixed-width integers. */
module ByteCodec {
  import opened Types

  function Pow256(w: nat): (r: nat)
    ensures r > 0
  {
    if w == 0 then 1 else 256 * Pow256(w - 1)
  }

  /** The i-th base-256 digit of `n`. */
  function Digit(n: nat, i: nat): byte {
    if i == 0 then n % 256 else Digit(n / 256, i - 1)
  }

  /** The low `w` bytes of `n`, least significant first. */
  function LE(n: nat, w: nat): (bytes: seq<byte>)
    ensures |bytes| == w
  {
    seq(w, i requires 0 <= i < w => Digit(n, i))
  }

  function FromLE(bytes: seq<byte>): (n: nat)
    ensures n < Pow256(|bytes|)
  {
    if bytes == [] then 0 else bytes[0] + 256 * FromLE(bytes[1..])
  }

  lemma {:induction false} FromToLE(n: nat, w: nat)
    requires n < Pow256(w)
    ensures FromLE(LE(n, w)) == n
  {
    if w > 0 {
      assert n / 256 < Pow256(w - 1);
      FromToLE(n / 256, w - 1);
      assert LE(n, w)[1..] == LE(n / 256, w - 1);
    }
  }

  lemma Widths()
    ensures Pow256(4) == 0x1_0000_0000
    ensures Pow256(8) == 0x1_0000_0000_0000_0000
    ensures Pow256(16) == 0x1_0000_0000_0000_0000_0000_0000_0000_0000
  {
    assert Pow256(2) == 0x1_0000;
    assert Pow256(4) == 0x1_0000_0000;
    assert Pow256(6) == 0x1_0000_0000_0000;
    assert Pow256(8) == 0x1_0000_0000_0000_0000;
    assert Pow256(10) == 0x1_0000_0000_0000_0000_0000;
    assert Pow256(12) == 0x1_0000_0000_0000_0000_0000_0000;
    assert Pow256(14) == 0x1_0000_0000_0000_0000_0000_0000_0000;
    assert Pow256(16) == 0x1_0000_0000_0000_0000_0000_0000_0000_0000;
  }

  function U32Bytes(n: u32): (b: seq<byte>)
    ensures |b| == 4
  {
    LE(n, 4)
  }

  function U32From(b: seq<byte>): u32
    requires |b| == 4
  {
    Widths();
    FromLE(b)
  }

  function U64Bytes(n: u64): (b: seq<byte>)
    ensures |b| == 8
  {
    LE(n, 8)
  }

  function U64From(b: seq<byte>): u64
    requires |b| == 8
  {
    Widths();
    FromLE(b)
  }

  const TWO_128 := 0x1_0000_0000_0000_0000_0000_0000_0000_0000

  /** Two's complement. */
  function I128Bytes(n: i128): (b: seq<byte>)
    ensures |b| == 16
  {
    LE(if n < 0 then n + TWO_128 else n, 16)
  }

  function I128From(b: seq<byte>): i128
    requires |b| == 16
  {
    Widths();
    var n := FromLE(b);
    if n >= TWO_128 / 2 then n - TWO_128 else n
  }

  lemma IntegersReadBack(a: u32, b: u64, c: i128)
    ensures U32From(U32Bytes(a)) == a
    ensures U64From(U64Bytes(b)) == b
    ensures I128From(I128Bytes(c)) == c
  {
    Widths();
    FromToLE(a, 4);
    FromToLE(b, 8);
    FromToLE(if c < 0 then c + TWO_128 else c, 16);
  }

  /** Bytes are the writing of what they read as. */
  lemma {:induction false} ToFromLE(bytes: seq<byte>)
    ensures LE(FromLE(bytes), |bytes|) == bytes
  {
    if bytes != [] {
      var n := FromLE(bytes);
      ToFromLE(bytes[1..]);
      assert n % 256 == bytes[0] && n / 256 == FromLE(bytes[1..]);
      assert LE(n, |bytes|)[1..] == LE(n / 256, |bytes| - 1);
      assert LE(n, |bytes|)[0] == bytes[0];
      assert bytes == [bytes[0]] + bytes[1..];
      assert LE(n, |bytes|) == [LE(n, |bytes|)[0]] + LE(n, |bytes|)[1..];
    }
  }

  lemma U32Written(b: seq<byte>)
    requires |b| == 4
    ensures U32Bytes(U32From(b)) == b
  {
    ToFromLE(b);
  }

  lemma U64Written(b: seq<byte>)
    requires |b| == 8
    ensures U64Bytes(U64From(b)) == b
  {
    ToFromLE(b);
  }

  lemma I128Written(b: seq<byte>)
    requires |b| == 16
    ensures I128Bytes(I128From(b)) == b
  {
    Widths();
    ToFromLE(b);
  }

  /** The next field of a concatenation. */
  lemma Nest(a: seq<byte>, b: seq<byte>, rest: seq<byte>)
    ensures a + b + rest == a + (b + rest)
  {
  }
}
