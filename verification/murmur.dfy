/**
 * MurmurHash3, x86 32-bit variant (Austin Appleby, public domain), as the
 * pipeline uses it to pick the shard of a device. Every quantity is a
 * `uint32_t`, so it is modelled as `bv32`, whose arithmetic wraps modulo
 * 2^32. Blocks are read little-endian.
 */
module MurmurHash {

  const C1: bv32 := 0xcc9e2d51
  const C2: bv32 := 0x1b873593

  /** `rotl32`: shifting left by r and right by 32 - r is a left rotation. */
  function Rotl32(x: bv32, r: nat): (y: bv32)
    requires 0 < r < 32
    ensures y == x.RotateLeft(r)
  {
    (x << r) | (x >> (32 - r))
  }

  /** `fmix32`: the final avalanche. */
  function Fmix32(h: bv32): bv32
  {
    var h1 := h ^ (h >> 16);
    var h2 := h1 * 0x85ebca6b;
    var h3 := h2 ^ (h2 >> 13);
    var h4 := h3 * 0xc2b2ae35;
    h4 ^ (h4 >> 16)
  }

  /** The i-th four-byte block of the key, read little-endian. */
  function Block(key: seq<bv8>, i: nat): bv32
    requires 4 * i + 4 <= |key|
  {
    (key[4 * i] as bv32)
    | ((key[4 * i + 1] as bv32) << 8)
    | ((key[4 * i + 2] as bv32) << 16)
    | ((key[4 * i + 3] as bv32) << 24)
  }

  /** The scrambling applied to every key word: `k1 *= c1; k1 = rotl32(k1, 15); k1 *= c2`. */
  function ScrambleK1(k1: bv32): bv32
  {
    Rotl32(k1 * C1, 15) * C2
  }

  /** One round of the body: `h1 ^= k1; h1 = rotl32(h1, 13); h1 = h1 * 5 + 0xe6546b64`. */
  function MixH1(h1: bv32, k1: bv32): bv32
  {
    Rotl32(h1 ^ k1, 13) * 5 + 0xe6546b64
  }

  /** The running hash after the first n blocks. */
  function Body(key: seq<bv8>, seed: bv32, n: nat): bv32
    requires 4 * n <= |key|
  {
    if n == 0 then seed else MixH1(Body(key, seed, n - 1), ScrambleK1(Block(key, n - 1)))
  }

  /**
   * The tail word: the `len & 3` bytes after the last block, little-endian,
   * in the shape of the source's fall-through `switch`: case 3 contributes
   * `tail[2] << 16` and falls into case 2, which contributes `tail[1] << 8`
   * and falls into case 1, which contributes `tail[0]`.
   */
  function TailWord(key: seq<bv8>): bv32
  {
    var t := (|key| / 4) * 4;
    var rest := |key| % 4;
    var k3: bv32 := if rest == 3 then (key[t + 2] as bv32) << 16 else 0;
    var k2 := if rest == 3 || rest == 2 then k3 ^ ((key[t + 1] as bv32) << 8) else k3;
    if rest != 0 then k2 ^ (key[t] as bv32) else k2
  }

  /** The tail step: the scrambled tail word is xored into the hash only when there is a tail. */
  function TailMix(key: seq<bv8>, h1: bv32): bv32
  {
    if |key| % 4 != 0 then h1 ^ ScrambleK1(TailWord(key)) else h1
  }

  /**
   * MurmurHash3_x86_32 of the key under the seed. The length travels beside
   * the key, as in the C signature (`const void *key, int len`), already
   * converted to the word that is xored in before the final mix.
   */
  function Murmur3(key: seq<bv8>, len: bv32, seed: bv32): bv32
    requires len as int == |key| < 0x8000_0000
  {
    Finish(key, len, Body(key, seed, |key| / 4))
  }

  /** What follows the block loop: the tail switch, the xor with the length, and `fmix32`. */
  function Finish(key: seq<bv8>, len: bv32, h1: bv32): bv32
  {
    Fmix32(TailMix(key, h1) ^ len)
  }

  /** The block loop of `murmur_hash`: `len / 4` rounds over the running hash. */
  method HashBlocks(key: seq<bv8>, seed: bv32) returns (h1: bv32)
    ensures h1 == Body(key, seed, |key| / 4)
  {
    var nblocks := |key| / 4;
    h1 := seed;
    var i := 0;
    while i < nblocks
      invariant 0 <= i <= nblocks
      invariant h1 == Body(key, seed, i)
    {
      var k1 := Block(key, i);
      k1 := ScrambleK1(k1);
      h1 := MixH1(h1, k1);
      i := i + 1;
    }
  }

  /**
   * `murmur_hash`: the block loop, then the tail, then the length and the
   * final mix. The result is a function of the key bytes and the seed alone.
   */
  method MurmurHash(key: seq<bv8>, len: bv32, seed: bv32) returns (h1: bv32)
    requires len as int == |key| < 0x8000_0000
    ensures h1 == Murmur3(key, len, seed)
  {
    h1 := HashBlocks(key, seed);
    h1 := Finish(key, len, h1);
  }

  /** `fmix32(0) == 0`, so the empty key under seed 0 hashes to 0. */
  lemma EmptyKeySeedZero()
    ensures Fmix32(0) == 0
    ensures Murmur3([], 0, 0) == 0
  {
  }

  /** When the length is a multiple of 4 the tail switch leaves the running hash alone. */
  lemma AlignedKeySkipsTail(key: seq<bv8>, h1: bv32)
    requires |key| % 4 == 0
    ensures TailMix(key, h1) == h1
  {
  }

  /**
   * The tail word holds exactly the bytes after the last block, little-endian,
   * and nothing above them.
   */
  lemma TailWordBytes(key: seq<bv8>)
    ensures var t := (|key| / 4) * 4;
      match |key| % 4
      case 0 => TailWord(key) == 0
      case 1 => TailWord(key) == key[t] as bv32
      case 2 => TailWord(key) == (key[t] as bv32) | ((key[t + 1] as bv32) << 8)
      case _ => TailWord(key) == (key[t] as bv32) | ((key[t + 1] as bv32) << 8) | ((key[t + 2] as bv32) << 16)
  {
  }

  /** The body reads only the blocks: keys that agree on them agree on the body hash. */
  lemma {:induction false} BodyReadsOnlyBlocks(a: seq<bv8>, b: seq<bv8>, seed: bv32, n: nat)
    requires 4 * n <= |a| && 4 * n <= |b|
    requires a[..4 * n] == b[..4 * n]
    ensures Body(a, seed, n) == Body(b, seed, n)
  {
    if n > 0 {
      BodyReadsOnlyBlocks(a, b, seed, n - 1) by {
        assert a[..4 * (n - 1)] == a[..4 * n][..4 * (n - 1)];
        assert b[..4 * (n - 1)] == b[..4 * n][..4 * (n - 1)];
      }
      assert Block(a, n - 1) == Block(b, n - 1) by {
        var j := 4 * (n - 1);
        assert a[j] == a[..4 * n][j] && b[j] == b[..4 * n][j];
        assert a[j + 1] == a[..4 * n][j + 1] && b[j + 1] == b[..4 * n][j + 1];
        assert a[j + 2] == a[..4 * n][j + 2] && b[j + 2] == b[..4 * n][j + 2];
        assert a[j + 3] == a[..4 * n][j + 3] && b[j + 3] == b[..4 * n][j + 3];
      }
    }
  }

  /** Published MurmurHash3_x86_32 reference values: empty keys. */
  lemma ReferenceVectorsEmpty()
    ensures Murmur3([], 0, 1) == 0x514e28b7
    ensures Murmur3([], 0, 0xffffffff) == 0x81f16f39
  {
  }

  /** Published reference value: one full block, seed 0. */
  lemma ReferenceVectorBlock()
    ensures Murmur3([0x21, 0x43, 0x65, 0x87], 4, 0) == 0xf55b516b
  {
    var key: seq<bv8> := [0x21, 0x43, 0x65, 0x87];
    assert Block(key, 0) == 0x87654321;
    assert ScrambleK1(0x87654321) == 0x5082edee;
    assert Body(key, 0, 1) == 0xbb095db4;
    assert Fmix32(0xbb095db0) == 0xf55b516b;
  }

  /** Published reference value: one full block, seed `0x5082edee`. */
  lemma ReferenceVectorBlockSeeded()
    ensures Murmur3([0x21, 0x43, 0x65, 0x87], 4, 0x5082edee) == 0x2362f9de
  {
    var key: seq<bv8> := [0x21, 0x43, 0x65, 0x87];
    assert Block(key, 0) == 0x87654321;
    assert ScrambleK1(0x87654321) == 0x5082edee;
    assert Body(key, 0x5082edee, 1) == 0xe6546b64;
    assert Fmix32(0xe6546b60) == 0x2362f9de;
  }

  /** Published reference value: a three-byte tail. */
  lemma ReferenceVectorTail3()
    ensures Murmur3([0x21, 0x43, 0x65], 3, 0) == 0x7e4a8634
  {
    var key: seq<bv8> := [0x21, 0x43, 0x65];
    assert TailWord(key) == 0x654321;
    assert ScrambleK1(0x654321) == 0x17a6636e;
    assert Fmix32(0x17a6636d) == 0x7e4a8634;
  }

  /** Published reference value: a two-byte tail. */
  lemma ReferenceVectorTail2()
    ensures Murmur3([0x21, 0x43], 2, 0) == 0xa0f7b07a
  {
    var key: seq<bv8> := [0x21, 0x43];
    assert TailWord(key) == 0x4321;
    assert ScrambleK1(0x4321) == 0xec900b60;
    assert Fmix32(0xec900b62) == 0xa0f7b07a;
  }

  /** Published reference value: a one-byte tail. */
  lemma ReferenceVectorTail1()
    ensures Murmur3([0x21], 1, 0) == 0x72661cf4
  {
    var key: seq<bv8> := [0x21];
    assert TailWord(key) == 0x21;
    assert ScrambleK1(0x21) == 0xac5e5123;
    assert Fmix32(0xac5e5122) == 0x72661cf4;
  }
}
