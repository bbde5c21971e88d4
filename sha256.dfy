/**
 * The digest behind idempotency keys: `hashlib.sha256(s.encode('utf-8')).hexdigest()`.
 * UTF-8 encoding, then SHA-256 as FIPS 180-4 section 6.2 defines it, then
 * the lower-case hexadecimal rendering of the eight result words.
 */
module Sha256 {

  // ---------------------------------------------------------------------------
  // UTF-8

  /** The UTF-8 bytes of one code point. */
  function EncodeChar(c: char): (bs: seq<bv8>)
    ensures 1 <= |bs| <= 4
    ensures c as int < 0x80 <==> |bs| == 1
    ensures c as int < 0x80 ==> bs == [c as int as bv8]
  {
    var n := c as int;
    if n < 0x80 then [n as bv8]
    else if n < 0x800 then [(0xC0 + n / 0x40) as bv8, (0x80 + n % 0x40) as bv8]
    else if n < 0x10000 then [(0xE0 + n / 0x1000) as bv8, (0x80 + n / 0x40 % 0x40) as bv8, (0x80 + n % 0x40) as bv8]
    else [(0xF0 + n / 0x40000) as bv8, (0x80 + n / 0x1000 % 0x40) as bv8, (0x80 + n / 0x40 % 0x40) as bv8, (0x80 + n % 0x40) as bv8]
  }

  /** `s.encode('utf-8')` */
  function Utf8(s: string): (bs: seq<bv8>)
    ensures |s| <= |bs| <= 4 * |s|
  {
    if |s| == 0 then [] else EncodeChar(s[0]) + Utf8(s[1..])
  }

  /** Encoding distributes over concatenation. */
  lemma {:induction false} Utf8Concat(a: string, b: string)
    ensures Utf8(a + b) == Utf8(a) + Utf8(b)
  {
    if |a| == 0 {
      assert a + b == b;
    } else {
      var c := a[0];
      assert (a + b)[0] == c && (a + b)[1..] == a[1..] + b;
      assert Utf8(a + b) == EncodeChar(c) + Utf8(a[1..] + b);
      Utf8Concat(a[1..], b);
    }
  }

  /** An ASCII string encodes to one byte per character, each its code. */
  lemma {:induction false} Utf8Ascii(s: string)
    requires forall i :: 0 <= i < |s| ==> s[i] as int < 0x80
    ensures |Utf8(s)| == |s| && forall i :: 0 <= i < |s| ==> Utf8(s)[i] == s[i] as int as bv8
  {
    if |s| > 0 {
      Utf8Ascii(s[1..]);
      assert Utf8(s) == [s[0] as int as bv8] + Utf8(s[1..]);
    }
  }

  // ---------------------------------------------------------------------------
  // SHA-256 (FIPS 180-4)

  const K: seq<bv32> := [
    0x428a2f98, 0x71374491, 0xb5c0fbcf, 0xe9b5dba5, 0x3956c25b, 0x59f111f1, 0x923f82a4, 0xab1c5ed5,
    0xd807aa98, 0x12835b01, 0x243185be, 0x550c7dc3, 0x72be5d74, 0x80deb1fe, 0x9bdc06a7, 0xc19bf174,
    0xe49b69c1, 0xefbe4786, 0x0fc19dc6, 0x240ca1cc, 0x2de92c6f, 0x4a7484aa, 0x5cb0a9dc, 0x76f988da,
    0x983e5152, 0xa831c66d, 0xb00327c8, 0xbf597fc7, 0xc6e00bf3, 0xd5a79147, 0x06ca6351, 0x14292967,
    0x27b70a85, 0x2e1b2138, 0x4d2c6dfc, 0x53380d13, 0x650a7354, 0x766a0abb, 0x81c2c92e, 0x92722c85,
    0xa2bfe8a1, 0xa81a664b, 0xc24b8b70, 0xc76c51a3, 0xd192e819, 0xd6990624, 0xf40e3585, 0x106aa070,
    0x19a4c116, 0x1e376c08, 0x2748774c, 0x34b0bcb5, 0x391c0cb3, 0x4ed8aa4a, 0x5b9cca4f, 0x682e6ff3,
    0x748f82ee, 0x78a5636f, 0x84c87814, 0x8cc70208, 0x90befffa, 0xa4506ceb, 0xbef9a3f7, 0xc67178f2
  ]

  const InitialHash: seq<bv32> := [
    0x6a09e667, 0xbb67ae85, 0x3c6ef372, 0xa54ff53a, 0x510e527f, 0x9b05688c, 0x1f83d9ab, 0x5be0cd19
  ]

  function Ch(x: bv32, y: bv32, z: bv32): bv32 { (x & y) ^ (!x & z) }
  function Maj(x: bv32, y: bv32, z: bv32): bv32 { (x & y) ^ (x & z) ^ (y & z) }
  function BigSigma0(x: bv32): bv32 { x.RotateRight(2) ^ x.RotateRight(13) ^ x.RotateRight(22) }
  function BigSigma1(x: bv32): bv32 { x.RotateRight(6) ^ x.RotateRight(11) ^ x.RotateRight(25) }
  function SmallSigma0(x: bv32): bv32 { x.RotateRight(7) ^ x.RotateRight(18) ^ (x >> 3) }
  function SmallSigma1(x: bv32): bv32 { x.RotateRight(17) ^ x.RotateRight(19) ^ (x >> 10) }

  /** `n` as `count` big-endian bytes, modulo 256^count. */
  function BigEndian(n: nat, count: nat): (bs: seq<bv8>)
    ensures |bs| == count
  {
    if count == 0 then [] else BigEndian(n / 256, count - 1) + [(n % 256) as bv8]
  }

  /** Section 5.1.1: a one bit, zeros up to 56 mod 64 bytes, then the bit length as 64 bits. */
  function Pad(m: seq<bv8>): (p: seq<bv8>)
    ensures |p| % 64 == 0 && |m| + 9 <= |p| <= |m| + 72 && p[..|m|] == m
  {
    var r := |m| % 64;
    var zeros := if r <= 55 then 55 - r else 119 - r;
    var p := m + [0x80] + seq(zeros, _ => 0) + BigEndian(8 * |m| % 0x1_0000_0000_0000_0000, 8);
    assert |m| == 64 * (|m| / 64) + r;
    var blocks := |m| / 64 + (if r <= 55 then 1 else 2);
    assert |p| == 64 * blocks;
    WholeBlocks(blocks);
    assert p[..|m|] == m;
    p
  }

  /** A number of whole 64-byte blocks is a multiple of 64. */
  lemma WholeBlocks(n: nat)
    ensures (64 * n) % 64 == 0
  {
  }

  /** Word `i` of a 64-byte block, big-endian. */
  function BlockWord(block: seq<bv8>, i: nat): bv32
    requires |block| == 64 && i < 16
  {
    (block[4 * i] as bv32 << 24) | (block[4 * i + 1] as bv32 << 16) | (block[4 * i + 2] as bv32 << 8) | block[4 * i + 3] as bv32
  }

  /** Section 6.2.2 step 1: the message schedule W[0 .. t-1]. */
  function Schedule(block: seq<bv8>, t: nat): (w: seq<bv32>)
    requires |block| == 64 && t <= 64
    ensures |w| == t
  {
    if t == 0 then []
    else
      var w := Schedule(block, t - 1);
      var j := t - 1;
      if j < 16 then w + [BlockWord(block, j)]
      else w + [SmallSigma1(w[j - 2]) + w[j - 7] + SmallSigma0(w[j - 15]) + w[j - 16]]
  }

  /** Section 6.2.2 step 3: one round on the working variables a .. h. */
  function Round(v: seq<bv32>, k: bv32, w: bv32): (r: seq<bv32>)
    requires |v| == 8
    ensures |r| == 8
  {
    var t1 := v[7] + BigSigma1(v[4]) + Ch(v[4], v[5], v[6]) + k + w;
    var t2 := BigSigma0(v[0]) + Maj(v[0], v[1], v[2]);
    [t1 + t2, v[0], v[1], v[2], v[3] + t1, v[4], v[5], v[6]]
  }

  /** Rounds 0 .. t-1 from the working variables `v`. */
  function Rounds(v: seq<bv32>, w: seq<bv32>, t: nat): (r: seq<bv32>)
    requires |v| == 8 && |w| == 64 && t <= 64
    ensures |r| == 8
  {
    if t == 0 then v else Round(Rounds(v, w, t - 1), K[t - 1], w[t - 1])
  }

  /** Section 6.2.2: the intermediate hash after one more block. */
  function Compress(h: seq<bv32>, block: seq<bv8>): (r: seq<bv32>)
    requires |h| == 8 && |block| == 64
    ensures |r| == 8
  {
    var v := Rounds(h, Schedule(block, 64), 64);
    seq(8, i requires 0 <= i < 8 => h[i] + v[i])
  }

  /** The hash after the first `n` blocks of the padded message. */
  function HashBlocks(p: seq<bv8>, n: nat): (h: seq<bv32>)
    requires n * 64 <= |p|
    ensures |h| == 8
  {
    if n == 0 then InitialHash else Compress(HashBlocks(p, n - 1), p[(n - 1) * 64..n * 64])
  }

  /** SHA-256 of a byte string, as its eight result words. */
  function Digest(m: seq<bv8>): (h: seq<bv32>)
    ensures |h| == 8
  {
    var p := Pad(m);
    HashBlocks(p, |p| / 64)
  }

  // ---------------------------------------------------------------------------
  // hexdigest()

  const HexDigits: string := "0123456789abcdef"

  predicate IsLowerHex(s: string) {
    forall i :: 0 <= i < |s| ==> s[i] in HexDigits
  }

  /** The last `count` hexadecimal digits of `n`, most significant first. */
  function Hex(n: nat, count: nat): (s: string)
    ensures |s| == count && IsLowerHex(s)
  {
    if count == 0 then "" else Hex(n / 16, count - 1) + [HexDigits[n % 16]]
  }

  /** The eight hexadecimal digits of a word. */
  function WordHex(x: bv32): (s: string)
    ensures |s| == 8 && IsLowerHex(s)
  {
    Hex(x as int, 8)
  }

  function WordsHex(ws: seq<bv32>): (s: string)
    ensures |s| == 8 * |ws| && IsLowerHex(s)
  {
    if |ws| == 0 then "" else WordHex(ws[0]) + WordsHex(ws[1..])
  }

  /** `hashlib.sha256(s.encode('utf-8')).hexdigest()`: 64 lower-case hexadecimal digits. */
  function HexDigest(s: string): (d: string)
    ensures |d| == 64 && IsLowerHex(d)
  {
    WordsHex(Digest(Utf8(s)))
  }
}
