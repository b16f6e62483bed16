/**
  SHA-256 as FIPS 180-4 defines it and as `sha256.cpp` computes it: message
  padding (section 5.1.1), the initial hash value (section 5.3.3), the round
  constants (section 4.2.2), and the message schedule and compression function
  (section 6.2.2). Words are `uint32_t` values (module `Words`).

  The functions are the specification; the methods `PrepareConstants`,
  `Sha256Block` and `Sha256` follow the C++ loops and are proved equal to it.
 */
module Sha256 {
  import opened Bytes
  import opened Words

  /** Initial hash value H(0), section 5.3.3. */
  const InitialHash: seq<Word> :=
    [0x6a09e667, 0xbb67ae85, 0x3c6ef372, 0xa54ff53a, 0x510e527f, 0x9b05688c, 0x1f83d9ab, 0x5be0cd19]

  /** The round constants K_0 .. K_63, section 4.2.2. */
  const RoundConstants: seq<Word> := [
      0x428a2f98, 0x71374491, 0xb5c0fbcf, 0xe9b5dba5, 0x3956c25b, 0x59f111f1, 0x923f82a4, 0xab1c5ed5,
      0xd807aa98, 0x12835b01, 0x243185be, 0x550c7dc3, 0x72be5d74, 0x80deb1fe, 0x9bdc06a7, 0xc19bf174,
      0xe49b69c1, 0xefbe4786, 0x0fc19dc6, 0x240ca1cc, 0x2de92c6f, 0x4a7484aa, 0x5cb0a9dc, 0x76f988da,
      0x983e5152, 0xa831c66d, 0xb00327c8, 0xbf597fc7, 0xc6e00bf3, 0xd5a79147, 0x06ca6351, 0x14292967,
      0x27b70a85, 0x2e1b2138, 0x4d2c6dfc, 0x53380d13, 0x650a7354, 0x766a0abb, 0x81c2c92e, 0x92722c85,
      0xa2bfe8a1, 0xa81a664b, 0xc24b8b70, 0xc76c51a3, 0xd192e819, 0xd6990624, 0xf40e3585, 0x106aa070,
      0x19a4c116, 0x1e376c08, 0x2748774c, 0x34b0bcb5, 0x391c0cb3, 0x4ed8aa4a, 0x5b9cca4f, 0x682e6ff3,
      0x748f82ee, 0x78a5636f, 0x84c87814, 0x8cc70208, 0x90befffa, 0xa4506ceb, 0xbef9a3f7, 0xc67178f2
    ]

  // ---------------------------------------------------------------------------
  // Word functions (section 4.1.2)
  // ---------------------------------------------------------------------------

  function SmallSigma0(x: Word): Word { Xor(Xor(Ror(x, 7), Ror(x, 18)), Shr(x, 3)) }
  function SmallSigma1(x: Word): Word { Xor(Xor(Ror(x, 17), Ror(x, 19)), Shr(x, 10)) }
  function BigSigma0(x: Word): Word { Xor(Xor(Ror(x, 2), Ror(x, 13)), Ror(x, 22)) }
  function BigSigma1(x: Word): Word { Xor(Xor(Ror(x, 6), Ror(x, 11)), Ror(x, 25)) }
  function Ch(x: Word, y: Word, z: Word): Word { Xor(And(x, y), And(Not(x), z)) }
  function Maj(x: Word, y: Word, z: Word): Word { Xor(Xor(And(x, y), And(x, z)), And(y, z)) }

  // ---------------------------------------------------------------------------
  // Padding (section 5.1.1)
  // ---------------------------------------------------------------------------

  /**
    `num_zero_bytes` for a message that is `size` bytes long once `0x80` has
    been appended. The source computes `((448 - (size << 3)) & 511) >> 3` in
    `size_t`; since 2^64 is a multiple of 512 this is the Euclidean expression
    below for every size.
   */
  function NumZeroBytes(size: nat): (n: nat)
    ensures n < 64
    ensures (size + n) % 64 == 56
  {
    var m := (448 - size * 8) % 512;
    assert m == 8 * ((56 - size) % 64);
    m / 8
  }

  /** `l = size * 8` held in a `uint64_t`, so it wraps modulo 2^64. */
  function BitLength(msg: Bytes): (l: nat)
    ensures l < Pow256(8)
    ensures |msg| < 0x2000_0000_0000_0000 ==> l == |msg| * 8
  {
    (|msg| * 8) % 0x1_0000_0000_0000_0000
  }

  /**
    Byte `i` of the length field, `static_cast<uint8_t>(l >> (56 - i * 8))`:
    a right shift by `56 - 8 * i` bits is a division by 256^(7 - i), and the
    cast keeps the low 8 bits.
   */
  function LengthByte(l: nat, i: nat): Byte
    requires i < 8
  {
    (l / Pow256(7 - i)) % 256
  }

  /** The 8 length bytes, in the order the source appends them. */
  function LengthBytes(l: nat): (r: Bytes)
    ensures |r| == 8
  {
    seq(8, i requires 0 <= i < 8 => LengthByte(l, i))
  }

  /** The length bytes are the big-endian encoding of `l`, so they read back as `l`. */
  lemma LengthBytesBigEndian(l: nat)
    requires l < Pow256(8)
    ensures LengthBytes(l) == ToBigEndian(l, 8)
    ensures BigEndian(LengthBytes(l)) == l
  {
    forall i | 0 <= i < 8
      ensures LengthBytes(l)[i] == ToBigEndian(l, 8)[i]
    {
      ToBigEndianDigit(l, 8, i);
    }
    BigEndianOfToBigEndian(l, 8);
  }

  /** The padded message: `msg`, `0x80`, zeros up to 56 modulo 64, then the length. */
  function Pad(msg: Bytes): (p: Bytes)
    ensures |p| % 64 == 0 && |msg| + 9 <= |p| < |msg| + 73
  {
    var x := |msg| + 1 + NumZeroBytes(|msg| + 1);
    assert x == 64 * (x / 64) + 56;
    MultipleOf64(x / 64 + 1);
    msg + [0x80] + Zeros(NumZeroBytes(|msg| + 1)) + LengthBytes(BitLength(msg))
  }

  /**
    The padded message keeps `msg` as a prefix, then holds `0x80`, then fewer
    than 64 zero bytes, then 8 bytes reading big-endian as the bit length;
    its length is a multiple of the 64-byte block size.
   */
  lemma PadShape(msg: Bytes)
    ensures var p := Pad(msg);
      && |p| % 64 == 0
      && |msg| + 9 <= |p| < |msg| + 73
      && p[..|msg|] == msg && p[|msg|] == 0x80
      && (forall i :: |msg| < i < |p| - 8 ==> p[i] == 0)
      && BigEndian(p[|p| - 8..]) == BitLength(msg)
  {
    PadContents(msg);
    PadLengthField(msg);
  }

  lemma MultipleOf64(k: nat)
    ensures (64 * k) % 64 == 0
  {
    DivUnique(64 * k, 64, k, 0);
  }

  lemma PadContents(msg: Bytes)
    ensures |Pad(msg)| == |msg| + 1 + NumZeroBytes(|msg| + 1) + 8
    ensures Pad(msg)[..|msg|] == msg && Pad(msg)[|msg|] == 0x80
    ensures forall i :: |msg| < i < |Pad(msg)| - 8 ==> Pad(msg)[i] == 0
  {
    var z := Zeros(NumZeroBytes(|msg| + 1));
    var p := Pad(msg);
    assert p == (msg + [0x80]) + z + LengthBytes(BitLength(msg));
    forall i | |msg| < i < |p| - 8
      ensures p[i] == 0
    {
      assert p[i] == z[i - |msg| - 1];
    }
  }

  lemma PadLengthField(msg: Bytes)
    ensures |Pad(msg)| >= 8 && BigEndian(Pad(msg)[|Pad(msg)| - 8..]) == BitLength(msg)
  {
    var p := Pad(msg);
    assert p[|p| - 8..] == LengthBytes(BitLength(msg));
    LengthBytesBigEndian(BitLength(msg));
  }

  // ---------------------------------------------------------------------------
  // Message schedule and compression (section 6.2.2)
  // ---------------------------------------------------------------------------

  /** A schedule word from the words 16, 15, 7 and 2 places before it. */
  function ScheduleWord(w16: Word, w15: Word, w7: Word, w2: Word): Word
  {
    Add(Add(Add(w16, w7), SmallSigma0(w15)), SmallSigma1(w2))
  }

  /** Word `i` of `w` is the one the recurrence gives from the words before it. */
  predicate ScheduleStep(w: seq<Word>, i: nat)
    requires 16 <= i < |w|
  {
    w[i] == ScheduleWord(w[i - 16], w[i - 15], w[i - 7], w[i - 2])
  }

  /** Extends a partial schedule to all 64 words. */
  function ExtendSchedule(w: seq<Word>): (r: seq<Word>)
    requires 16 <= |w| <= 64
    ensures |r| == 64 && r[..|w|] == w
    ensures forall i :: |w| <= i < 64 ==> ScheduleStep(r, i)
    decreases 64 - |w|
  {
    if |w| == 64 then w
    else
      var n := |w|;
      var w' := w + [ScheduleWord(w[n - 16], w[n - 15], w[n - 7], w[n - 2])];
      var r := ExtendSchedule(w');
      assert r[..n] == w'[..n] == w;
      assert ScheduleStep(r, n) by {
        assert r[n] == w'[n];
        assert r[n - 16] == w[n - 16] && r[n - 15] == w[n - 15];
        assert r[n - 7] == w[n - 7] && r[n - 2] == w[n - 2];
      }
      r
  }

  /**
    The 64-word message schedule of a 16-word block: the block itself, then
    each word given by the recurrence from the words before it.
   */
  function Schedule(block: seq<Word>): (w: seq<Word>)
    requires |block| == 16
    ensures |w| == 64 && w[..16] == block
    ensures forall i :: 16 <= i < 64 ==> ScheduleStep(w, i)
  {
    ExtendSchedule(block)
  }

  /** The working variables a .. h. */
  datatype Working = Working(a: Word, b: Word, c: Word, d: Word, e: Word, f: Word, g: Word, h: Word)

  function WorkingOf(h: seq<Word>): Working
    requires |h| == 8
  {
    Working(h[0], h[1], h[2], h[3], h[4], h[5], h[6], h[7])
  }

  /**
    One round with round constant `k` and schedule word `w`: `b`, `c`, `d`
    take the old `a`, `b`, `c`, and `f`, `g`, `h` the old `e`, `f`, `g`.
   */
  function Round(v: Working, k: Word, w: Word): (r: Working)
    ensures r.b == v.a && r.c == v.b && r.d == v.c
    ensures r.f == v.e && r.g == v.f && r.h == v.g
  {
    var temp1 := Add(Add(Add(Add(v.h, BigSigma1(v.e)), Ch(v.e, v.f, v.g)), k), w);
    var temp2 := Add(BigSigma0(v.a), Maj(v.a, v.b, v.c));
    Working(Add(temp1, temp2), v.a, v.b, v.c, Add(v.d, temp1), v.e, v.f, v.g)
  }

  /** The working variables after the first `n` rounds over schedule `w`. */
  function Rounds(v: Working, w: seq<Word>, n: nat): Working
    requires n <= 64 && |w| == 64
  {
    if n == 0 then v else Round(Rounds(v, w, n - 1), RoundConstants[n - 1], w[n - 1])
  }

  /**
    After round `n`, the words `b`, `c`, `d` are the `a` of the three rounds
    before, and `f`, `g`, `h` their `e`: only `a` and `e` are new each round.
   */
  lemma RoundsHistory(v: Working, w: seq<Word>, n: nat)
    requires 3 <= n <= 64 && |w| == 64
    ensures var r := Rounds(v, w, n);
      && r.b == Rounds(v, w, n - 1).a && r.c == Rounds(v, w, n - 2).a && r.d == Rounds(v, w, n - 3).a
      && r.f == Rounds(v, w, n - 1).e && r.g == Rounds(v, w, n - 2).e && r.h == Rounds(v, w, n - 3).e
  {
    var r1, r2, r3 := Rounds(v, w, n - 1), Rounds(v, w, n - 2), Rounds(v, w, n - 3);
    assert Rounds(v, w, n) == Round(r1, RoundConstants[n - 1], w[n - 1]);
    assert r1 == Round(r2, RoundConstants[n - 2], w[n - 2]);
    assert r2 == Round(r3, RoundConstants[n - 3], w[n - 3]);
  }

  /** The compression function: 64 rounds, then the input hash added word by word. */
  function Compress(hInit: seq<Word>, block: seq<Word>): (out: seq<Word>)
    requires |hInit| == 8 && |block| == 16
    ensures |out| == 8
  {
    var v := Rounds(WorkingOf(hInit), Schedule(block), 64);
    [Add(v.a, hInit[0]), Add(v.b, hInit[1]), Add(v.c, hInit[2]), Add(v.d, hInit[3]),
     Add(v.e, hInit[4]), Add(v.f, hInit[5]), Add(v.g, hInit[6]), Add(v.h, hInit[7])]
  }

  // ---------------------------------------------------------------------------
  // The hash of a whole message
  // ---------------------------------------------------------------------------

  /** The 16 big-endian words of block `i` of `p`. */
  function BlockWords(p: Bytes, i: nat): (ws: seq<Word>)
    requires 64 * (i + 1) <= |p|
    ensures |ws| == 16
  {
    seq(16, j requires 0 <= j < 16 => BigEndian(p[64 * i + 4 * j..64 * i + 4 * j + 4]))
  }

  /** The hash value after the first `n` blocks of `p`. */
  function HashBlocks(p: Bytes, n: nat): (h: seq<Word>)
    requires 64 * n <= |p|
    ensures |h| == 8
  {
    if n == 0 then InitialHash else Compress(HashBlocks(p, n - 1), BlockWords(p, n - 1))
  }

  /** The 32 big-endian bytes of the 8 words of a hash value. */
  function Digest(h: seq<Word>): (d: Bytes)
    requires |h| == 8
    ensures |d| == 32
  {
    seq(32, k requires 0 <= k < 32 => ToBigEndian(h[k / 4], 4)[k % 4])
  }

  /** SHA-256 of `msg`: always 32 bytes. */
  function Hash(msg: Bytes): (d: Bytes)
    ensures |d| == 32
  {
    var p := Pad(msg);
    Digest(HashBlocks(p, |p| / 64))
  }

  /** The digest is 32 bytes, and bytes 4k .. 4k+4 read big-endian as word k of the final hash. */
  lemma DigestWords(msg: Bytes)
    ensures |Hash(msg)| == 32
    ensures var p := Pad(msg);
      |p| % 64 == 0 &&
      forall k :: 0 <= k < 8 ==> BigEndian(Hash(msg)[4 * k..4 * k + 4]) == HashBlocks(p, |p| / 64)[k]
  {
    var p := Pad(msg);
    var h := HashBlocks(p, |p| / 64);
    forall k | 0 <= k < 8
      ensures BigEndian(Hash(msg)[4 * k..4 * k + 4]) == h[k]
    {
      DigestSlice(h, k);
      BigEndianOfToBigEndian(h[k], 4);
    }
  }

  /** Bytes 4k .. 4k+4 of a digest are the big-endian bytes of word k. */
  lemma DigestSlice(h: seq<Word>, k: nat)
    requires |h| == 8 && k < 8
    ensures Digest(h)[4 * k..4 * k + 4] == ToBigEndian(h[k], 4)
  {
    var d := Digest(h);
    forall m | 0 <= m < 4
      ensures d[4 * k + m] == ToBigEndian(h[k], 4)[m]
    {
      assert (4 * k + m) / 4 == k && (4 * k + m) % 4 == m;
    }
  }

  /** A block's words are read from that block's 64 bytes alone. */
  lemma BlockWordsAppend(p: Bytes, rest: Bytes, i: nat)
    requires 64 * (i + 1) <= |p|
    ensures BlockWords(p + rest, i) == BlockWords(p, i)
  {
    forall j | 0 <= j < 16
      ensures BlockWords(p + rest, i)[j] == BlockWords(p, i)[j]
    {
      var a := 64 * i + 4 * j;
      assert (p + rest)[a..a + 4] == p[a..a + 4];
    }
  }

  /**
    The hash value after `n` blocks depends on the first `n` blocks of the
    message only: data after them leaves it unchanged.
   */
  lemma {:induction false} HashBlocksAppend(p: Bytes, rest: Bytes, n: nat)
    requires 64 * n <= |p|
    ensures HashBlocks(p + rest, n) == HashBlocks(p, n)
  {
    if n > 0 {
      var k: nat := n - 1;
      HashBlocksAppend(p, rest, k);
      BlockWordsAppend(p, rest, k);
      assert HashBlocks(p, k + 1) == Compress(HashBlocks(p, k), BlockWords(p, k));
      assert HashBlocks(p + rest, k + 1) == Compress(HashBlocks(p + rest, k), BlockWords(p + rest, k));
    }
  }

  /** Each block word written back big-endian gives the block's bytes. */
  lemma BlockWordsBytes(p: Bytes, i: nat, j: nat)
    requires 64 * (i + 1) <= |p| && j < 16
    ensures ToBigEndian(BlockWords(p, i)[j], 4) == p[64 * i + 4 * j..64 * i + 4 * j + 4]
  {
    ToBigEndianOfBigEndian(p[64 * i + 4 * j..64 * i + 4 * j + 4]);
  }

  // ---------------------------------------------------------------------------
  // The C++ procedures
  // ---------------------------------------------------------------------------

  /** `prepare_constants`: loads H(0) into `input`. */
  method PrepareConstants(input: array<Word>)
    requires input.Length == 8
    modifies input
    ensures input[..] == InitialHash
  {
    input[0] := 0x6a09e667;
    input[1] := 0xbb67ae85;
    input[2] := 0x3c6ef372;
    input[3] := 0xa54ff53a;
    input[4] := 0x510e527f;
    input[5] := 0x9b05688c;
    input[6] := 0x1f83d9ab;
    input[7] := 0x5be0cd19;
  }

  /** The first half of `sha256_block`: copies the block into `w` and extends it to 64 words. */
  method MessageSchedule(input: seq<Word>) returns (schedule: seq<Word>)
    requires |input| == 16
    ensures schedule == Schedule(input)
  {
    var w := new Word[64];
    for i := 0 to 16
      invariant w[..i] == input[..i]
    {
      w[i] := input[i];
    }
    ghost var spec := Schedule(input);
    assert w[..16] == spec[..16];
    for i := 16 to 64
      invariant forall j :: 0 <= j < i ==> w[j] == spec[j]
    {
      var s0 := SmallSigma0(w[i - 15]);
      var s1 := SmallSigma1(w[i - 2]);
      assert ScheduleStep(spec, i);
      w[i] := Add(Add(Add(w[i - 16], w[i - 7]), s0), s1);
    }
    schedule := w[..];
  }

  /** `sha256_block`: the compression of one 16-word block into the hash `hInit`. */
  method Sha256Block(hInit: seq<Word>, input: seq<Word>) returns (output: seq<Word>)
    requires |hInit| == 8 && |input| == 16
    ensures output == Compress(hInit, input)
  {
    var w := MessageSchedule(input);
    var a, b, c, d := hInit[0], hInit[1], hInit[2], hInit[3];
    var e, f, g, h := hInit[4], hInit[5], hInit[6], hInit[7];
    for i := 0 to 64
      invariant Working(a, b, c, d, e, f, g, h) == Rounds(WorkingOf(hInit), w, i)
    {
      var S1 := BigSigma1(e);
      var ch := Ch(e, f, g);
      var temp1 := Add(Add(Add(Add(h, S1), ch), RoundConstants[i]), w[i]);
      var S0 := BigSigma0(a);
      var maj := Maj(a, b, c);
      var temp2 := Add(S0, maj);
      h := g;
      g := f;
      f := e;
      e := Add(d, temp1);
      d := c;
      c := b;
      b := a;
      a := Add(temp1, temp2);
    }
    output := [Add(a, hInit[0]), Add(b, hInit[1]), Add(c, hInit[2]), Add(d, hInit[3]),
               Add(e, hInit[4]), Add(f, hInit[5]), Add(g, hInit[6]), Add(h, hInit[7])];
  }

  /**
    Block `i` of the padded message as 16 words: the `memcpy` into `hash_input`
    followed, on a little-endian host, by `__builtin_bswap32` on each word,
    which together read each 4-byte group big-endian.
   */
  method LoadBlock(messageSchedule: Bytes, i: nat) returns (hashInput: seq<Word>)
    requires 64 * (i + 1) <= |messageSchedule|
    ensures hashInput == BlockWords(messageSchedule, i)
  {
    var words := new Word[16];
    for j := 0 to 16
      invariant forall k :: 0 <= k < j ==> words[k] == BlockWords(messageSchedule, i)[k]
    {
      words[j] := BigEndian(messageSchedule[i * 64 + 4 * j..i * 64 + 4 * j + 4]);
    }
    hashInput := words[..];
  }

  /**
    The 32 output bytes: the `memcpy` of the rolling hash followed, on a
    little-endian host, by `__builtin_bswap32` on each word, which together
    write each word big-endian.
   */
  method StoreDigest(rollingHash: seq<Word>) returns (output: Bytes)
    requires |rollingHash| == 8
    ensures output == Digest(rollingHash)
  {
    var out := new Byte[32];
    for j := 0 to 8
      invariant forall k :: 0 <= k < 4 * j ==> out[k] == Digest(rollingHash)[k]
    {
      var bytes := ToBigEndian(rollingHash[j], 4);
      DigestSlice(rollingHash, j);
      out[4 * j] := bytes[0];
      out[4 * j + 1] := bytes[1];
      out[4 * j + 2] := bytes[2];
      out[4 * j + 3] := bytes[3];
    }
    output := out[..];
  }

  /** `sha256`: pads the message, compresses it block by block and writes out the digest. */
  method Sha256(input: Bytes) returns (output: Bytes)
    ensures output == Hash(input)
  {
    var messageSchedule := input;
    var l := (|messageSchedule| * 8) % 0x1_0000_0000_0000_0000;
    messageSchedule := messageSchedule + [0x80];

    var numZeroBytes := ((448 - |messageSchedule| * 8) % 512) / 8;
    for i := 0 to numZeroBytes
      invariant messageSchedule == input + [0x80] + Zeros(i)
    {
      assert Zeros(i + 1) == Zeros(i) + [0];
      messageSchedule := messageSchedule + [0x00];
    }
    ghost var prefix := messageSchedule;
    for i := 0 to 8
      invariant messageSchedule == prefix + LengthBytes(l)[..i]
    {
      assert LengthBytes(l)[..i + 1] == LengthBytes(l)[..i] + [LengthByte(l, i)];
      messageSchedule := messageSchedule + [LengthByte(l, i)];
    }
    assert LengthBytes(l)[..8] == LengthBytes(l);
    assert messageSchedule == Pad(input);
    PadShape(input);

    var constants := new Word[8];
    PrepareConstants(constants);
    var rollingHash := constants[..];

    var numBlocks := |messageSchedule| / 64;
    for i := 0 to numBlocks
      invariant rollingHash == HashBlocks(messageSchedule, i)
    {
      var hashInput := LoadBlock(messageSchedule, i);
      rollingHash := Sha256Block(rollingHash, hashInput);
    }
    output := StoreDigest(rollingHash);
  }
}
