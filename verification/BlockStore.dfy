/** The medium behind the RockUSB engine: two flat byte spaces, one per command family. */
module BlockStore {
  import opened Bytes

  /** Lba: 512-byte logical blocks (opcodes 0x14, 0x15). Pba: 528-byte flash pages (0x04, 0x05). */
  datatype Kind = Lba | Pba

  datatype Media = Media(lba: seq<byte>, pba: seq<byte>)

  /** Size in bytes of n blocks; written per kind so that every product has a literal factor. */
  function Size(k: Kind, n: nat): nat {
    match k
    case Lba => 512 * n
    case Pba => 528 * n
  }

  /** bytes / block_length */
  function Whole(k: Kind, bytes: nat): nat {
    match k
    case Lba => bytes / 512
    case Pba => bytes / 528
  }

  predicate Aligned(k: Kind, bytes: nat) {
    Size(k, Whole(k, bytes)) == bytes
  }

  function Space(m: Media, k: Kind): seq<byte> {
    match k
    case Lba => m.lba
    case Pba => m.pba
  }

  predicate InRange(m: Media, k: Kind, first: nat, n: nat) {
    Size(k, first + n) <= |Space(m, k)|
  }

  /** Contents of n blocks from block `first` on. */
  function Blocks(m: Media, k: Kind, first: nat, n: nat): (r: seq<byte>)
    requires InRange(m, k, first, n)
    ensures |r| == Size(k, n)
  {
    Space(m, k)[Size(k, first)..Size(k, first + n)]
  }

  /** The medium after `data` (whole blocks) has been stored from block `first` on. */
  function Stored(m: Media, k: Kind, first: nat, data: seq<byte>): (r: Media)
    requires Size(k, first) + |data| <= |Space(m, k)|
    ensures SameSize(m, r)
  {
    match k
    case Lba => m.(lba := Overlay(m.lba, Size(k, first), data))
    case Pba => m.(pba := Overlay(m.pba, Size(k, first), data))
  }

  predicate SameSize(m: Media, m': Media) {
    |m.lba| == |m'.lba| && |m.pba| == |m'.pba|
  }

  /** Blocks are addressed with 32 bits, and logical ones stay below the special ranges from 0xFFF00000 on. */
  predicate Addressable(m: Media) {
    |m.lba| <= 512 * 0xFFF0_0000 && |m.pba| <= 528 * 0xFFFF_FFFF
  }

  /** Two adjacent stretches of blocks read like one. */
  lemma BlocksJoin(m: Media, k: Kind, first: nat, a: nat, b: nat)
    requires InRange(m, k, first, a + b)
    ensures Blocks(m, k, first, a + b) == Blocks(m, k, first, a) + Blocks(m, k, first + a, b)
  {
    var s := Space(m, k);
    assert Size(k, first) <= Size(k, first + a) <= Size(k, first + a + b);
  }

  /** Storing two adjacent stretches one after the other is storing their concatenation. */
  lemma StoredJoin(m: Media, k: Kind, first: nat, n: nat, a: seq<byte>, b: seq<byte>)
    requires |a| == Size(k, n)
    requires Size(k, first) + |a| + |b| <= |Space(m, k)|
    ensures Stored(Stored(m, k, first, a), k, first + n, b) == Stored(m, k, first, a + b)
  {
    var s := Space(m, k);
    var at := Size(k, first);
    assert Size(k, first + n) == at + |a|;
    assert Overlay(Overlay(s, at, a), at + |a|, b) == Overlay(s, at, a + b);
  }
}
