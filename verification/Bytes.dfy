/** Bytes, fixed-width integers and in-place buffer updates shared by the models. */
module Bytes {
  type byte = x: int | 0 <= x < 256
  type u16 = x: int | 0 <= x < 0x1_0000
  type u32 = x: int | 0 <= x < 0x1_0000_0000

  datatype Option<+T> = None | Some(value: T)

  /** The truncation every 32-bit unsigned addition of the source performs. */
  function U32(x: int): u32 {
    x % 0x1_0000_0000
  }

  /** Truncating early or late makes no difference. */
  lemma U32Add(a: int, b: int)
    ensures U32(U32(a) + b) == U32(a + b)
  {
  }

  lemma MulMono(m: nat, a: int, b: int)
    requires a <= b
    ensures m * a <= m * b
  {
  }

  /** Quotient and remainder are unique. */
  lemma ModUnique(x: nat, m: nat, q: nat, r: nat)
    requires r < m && x == m * q + r
    ensures x % m == r
  {
    var p := x / m;
    assert x == m * p + x % m;
    if q < p {
      MulMono(m, q + 1, p);
    } else if p < q {
      MulMono(m, p + 1, q);
    }
  }

  function Min(a: int, b: int): int {
    if a <= b then a else b
  }

  /** get_unaligned_be16 and get_unaligned_be32. */
  function Be16(s: seq<byte>, at: nat): u16
    requires at + 2 <= |s|
  {
    s[at] as int * 0x100 + s[at + 1] as int
  }

  function Be32(s: seq<byte>, at: nat): u32
    requires at + 4 <= |s|
  {
    s[at] as int * 0x100_0000 + s[at + 1] as int * 0x1_0000 + s[at + 2] as int * 0x100 + s[at + 3] as int
  }

  /** What memcpy(buf + at, data, |data|) leaves in `buf`. */
  function Overlay(buf: seq<byte>, at: nat, data: seq<byte>): (r: seq<byte>)
    requires at + |data| <= |buf|
    ensures |r| == |buf|
  {
    buf[..at] + data + buf[at + |data|..]
  }

  /** A slice of bytes that stand in s is a slice of s. */
  lemma SubSlice(s: seq<byte>, base: nat, part: seq<byte>, from: nat, to: nat)
    requires base + |part| <= |s| && s[base..base + |part|] == part && from <= to <= |part|
    ensures s[base + from..base + to] == part[from..to]
  {
    forall i | 0 <= i < to - from
      ensures s[base + from..base + to][i] == part[from..to][i]
    {
      assert part[from + i] == s[base..base + |part|][from + i];
    }
  }

  /** A slice of a prefix is a prefix of a longer slice. */
  lemma SliceOfPrefix(s: seq<byte>, n: nat, from: nat, to: nat, end: nat)
    requires from <= to <= n <= |s| && to <= end <= |s|
    ensures s[..n][from..to] == s[from..end][..to - from]
  {
  }

  function Zeros(n: nat): (r: seq<byte>)
    ensures |r| == n
  {
    seq(n, _ => 0)
  }

  /** The first n bytes of s, padded with zeros when s is shorter. */
  function Exactly(s: seq<byte>, n: nat): (r: seq<byte>)
    ensures |r| == n
  {
    if |s| >= n then s[..n] else s + Zeros(n - |s|)
  }

  /** memcpy(buf + at, data, |data|). */
  method Copy(buf: array<byte>, at: nat, data: seq<byte>)
    requires at + |data| <= buf.Length
    modifies buf
    ensures buf[..] == Overlay(old(buf[..]), at, data)
  {
    ghost var was := buf[..];
    for i := 0 to |data|
      invariant buf[..at] == was[..at]
      invariant buf[at..at + i] == data[..i]
      invariant buf[at + i..] == was[at + i..]
    {
      buf[at + i] := data[i];
    }
    assert buf[..] == buf[..at] + buf[at..at + |data|] + buf[at + |data|..];
  }
}
