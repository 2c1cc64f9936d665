/**
  The 16-byte digest as a value: its text and binary forms and the folded
  64-bit and 32-bit derivatives. The class in md5_hash.dfy keeps one of
  these in a field and delegates to the functions here.
 */
module Digest {
  import opened Outcomes
  import Hex

  /** Number of bytes in an MD5 digest. */
  const MD5_LEN: nat := 16

  /** The all-zero digest a default-constructed hash holds. */
  function Zero(): seq<bv8> {
    seq(MD5_LEN, _ => 0)
  }

  /**
    The digest algorithm itself, computed by a library outside the model:
    any function of the input bytes that always yields 16 bytes.
   */
  type Md5Function = f: seq<bv8> -> seq<bv8> | forall data :: |f(data)| == MD5_LEN
    witness (data: seq<bv8>) => Zero()

  // ---------------------------------------------------------------- text form

  /**
    The digest written as hex text. Only text of exactly 32 characters is
    accepted; then every character must be a hex digit of either case.
   */
  function FromHex(s: string): (r: Result<seq<bv8>>)
    ensures r.Ok? <==> |s| == 2 * MD5_LEN && Hex.AllHex(s)
    ensures |s| != 2 * MD5_LEN ==> r == Err(InvalidArgument(|s|))
    ensures r.Err? ==> r.error.InvalidArgument? || r.error.NotHex?
    ensures r.Ok? ==> |r.value| == MD5_LEN
  {
    if |s| != 2 * MD5_LEN then Err(InvalidArgument(|s|))
    else Hex.DecodeHex(s, MD5_LEN)
  }

  /** Text of a digest reads back as that digest. */
  lemma FromHexToHex(d: seq<bv8>)
    requires |d| == MD5_LEN
    ensures FromHex(Hex.ToHex(d)) == Ok(d)
  {
    Hex.DecodeToHex(d);
  }

  /** Accepted text, written back, is the text in lower case. */
  lemma ToHexFromHex(s: string)
    requires FromHex(s).Ok?
    ensures Hex.ToHex(FromHex(s).value) == Hex.Lowered(s)
  {
    Hex.ToHexDecode(s, MD5_LEN);
  }

  /** Lower-case text of the right length survives a round trip unchanged. */
  lemma LowerHexRoundTrip(s: string)
    requires |s| == 2 * MD5_LEN && Hex.IsLowerHex(s)
    ensures FromHex(s).Ok? && Hex.ToHex(FromHex(s).value) == s
  {
    ToHexFromHex(s);
    Hex.LoweredLowerHex(s);
  }

  // -------------------------------------------------------------- binary form

  /** Appends the 16 raw bytes to what has been written so far. */
  function Write(sink: seq<bv8>, d: seq<bv8>): seq<bv8> {
    sink + d
  }

  /** Takes a digest off the front of the source; fails if fewer than 16 bytes remain. */
  function Read(source: seq<bv8>): (r: Result<(seq<bv8>, seq<bv8>)>)
    ensures r.Ok? <==> |source| >= MD5_LEN
    ensures r.Ok? ==> |r.value.0| == MD5_LEN && r.value.0 + r.value.1 == source
    ensures r.Err? ==> r.error == EndOfInput(|source|)
  {
    if |source| < MD5_LEN then Err(EndOfInput(|source|))
    else Ok((source[..MD5_LEN], source[MD5_LEN..]))
  }

  /** Reading what was written gives back the digest and leaves what followed. */
  lemma ReadWrite(d: seq<bv8>, rest: seq<bv8>)
    requires |d| == MD5_LEN
    ensures Read(Write([], d) + rest) == Ok((d, rest))
  {
    assert [] + d + rest == d + rest;
    assert (d + rest)[..MD5_LEN] == d && (d + rest)[MD5_LEN..] == rest;
  }

  // -------------------------------------------------------------------- folds

  /** The first half of b exclusive-or'ed, byte by byte, with the second half. */
  function Fold(b: seq<bv8>, n: nat): (r: seq<bv8>)
    requires |b| == 2 * n
    ensures |r| == n
  {
    seq(n, i requires 0 <= i < n => b[i] ^ b[i + n])
  }

  /** The 8 bytes behind halfDigest: byte i is d[i] ^ d[i + 8]. */
  function HalfFold(d: seq<bv8>): (r: seq<bv8>)
    requires |d| == MD5_LEN
    ensures |r| == 8
  {
    Fold(d, 8)
  }

  /** The 4 bytes behind quarterDigest: byte i is d[i] ^ d[i + 4] ^ d[i + 8] ^ d[i + 12]. */
  function QuarterFold(d: seq<bv8>): (r: seq<bv8>)
    requires |d| == MD5_LEN
    ensures |r| == 4
  {
    seq(4, i requires 0 <= i < 4 => d[i] ^ d[i + 4] ^ d[i + 8] ^ d[i + 12])
  }

  lemma Xor4(a: bv8, b: bv8, c: bv8, e: bv8)
    ensures a ^ b ^ c ^ e == (a ^ c) ^ (b ^ e)
  {
  }

  /** One byte of the four-way fold is that byte of the half fold folded again. */
  lemma QuarterFoldAt(d: seq<bv8>, k: nat)
    requires |d| == MD5_LEN && k < 4
    ensures QuarterFold(d)[k] == Fold(HalfFold(d), 4)[k]
  {
    Xor4(d[k], d[k + 4], d[k + 8], d[k + 12]);
  }

  /** Folding twice in half is the four-way fold. */
  lemma QuarterFoldIsFoldOfHalf(d: seq<bv8>)
    requires |d| == MD5_LEN
    ensures QuarterFold(d) == Fold(HalfFold(d), 4)
  {
    forall k | 0 <= k < 4
      ensures QuarterFold(d)[k] == Fold(HalfFold(d), 4)[k]
    {
      QuarterFoldAt(d, k);
    }
  }

  lemma XorZero(x: bv8, y: bv8)
    ensures x ^ y == 0 <==> x == y
  {
  }

  /** A fold is all zero exactly when the halves it combines agree. */
  lemma FoldZero(b: seq<bv8>, n: nat)
    requires |b| == 2 * n
    ensures (forall i :: 0 <= i < n ==> Fold(b, n)[i] == 0) <==> (forall i :: 0 <= i < n ==> b[i] == b[i + n])
  {
    forall i | 0 <= i < n
      ensures Fold(b, n)[i] == 0 <==> b[i] == b[i + n]
    {
      XorZero(b[i], b[i + n]);
    }
  }

  /** Eight bytes, most significant first, as the 64 bits of a Java long. */
  function Pack64(b0: bv8, b1: bv8, b2: bv8, b3: bv8, b4: bv8, b5: bv8, b6: bv8, b7: bv8): bv64 {
    (b0 as bv64 << 56) | (b1 as bv64 << 48) | (b2 as bv64 << 40) | (b3 as bv64 << 32)
    | (b4 as bv64 << 24) | (b5 as bv64 << 16) | (b6 as bv64 << 8) | b7 as bv64
  }

  /** Four bytes, most significant first, as the 32 bits of a Java int. */
  function Pack32(b0: bv8, b1: bv8, b2: bv8, b3: bv8): bv32 {
    (b0 as bv32 << 24) | (b1 as bv32 << 16) | (b2 as bv32 << 8) | b3 as bv32
  }

  function Long(b: seq<bv8>): bv64
    requires |b| == 8
  {
    Pack64(b[0], b[1], b[2], b[3], b[4], b[5], b[6], b[7])
  }

  function Int(b: seq<bv8>): bv32
    requires |b| == 4
  {
    Pack32(b[0], b[1], b[2], b[3])
  }

  /** The eight bytes of a long, most significant first. */
  function LongBytes(v: bv64): (b: seq<bv8>)
    ensures |b| == 8
  {
    [(v >> 56) as bv8, ((v >> 48) & 0xFF) as bv8, ((v >> 40) & 0xFF) as bv8,
     ((v >> 32) & 0xFF) as bv8, ((v >> 24) & 0xFF) as bv8, ((v >> 16) & 0xFF) as bv8,
     ((v >> 8) & 0xFF) as bv8, (v & 0xFF) as bv8]
  }

  /** The four bytes of an int, most significant first. */
  function IntBytes(v: bv32): (b: seq<bv8>)
    ensures |b| == 4
  {
    [(v >> 24) as bv8, ((v >> 16) & 0xFF) as bv8, ((v >> 8) & 0xFF) as bv8, (v & 0xFF) as bv8]
  }

  lemma Unpack64(b0: bv8, b1: bv8, b2: bv8, b3: bv8, b4: bv8, b5: bv8, b6: bv8, b7: bv8)
    ensures LongBytes(Pack64(b0, b1, b2, b3, b4, b5, b6, b7)) == [b0, b1, b2, b3, b4, b5, b6, b7]
    ensures Pack64(b0, b1, b2, b3, b4, b5, b6, b7) == 0 <==>
      b0 == 0 && b1 == 0 && b2 == 0 && b3 == 0 && b4 == 0 && b5 == 0 && b6 == 0 && b7 == 0
  {
  }

  lemma Unpack32(b0: bv8, b1: bv8, b2: bv8, b3: bv8)
    ensures IntBytes(Pack32(b0, b1, b2, b3)) == [b0, b1, b2, b3]
    ensures Pack32(b0, b1, b2, b3) == 0 <==> b0 == 0 && b1 == 0 && b2 == 0 && b3 == 0
  {
  }

  /** Reading eight bytes as a long loses nothing; the long is zero exactly when the bytes are. */
  lemma LongRoundTrip(b: seq<bv8>)
    requires |b| == 8
    ensures LongBytes(Long(b)) == b
    ensures Long(b) == 0 <==> forall i :: 0 <= i < 8 ==> b[i] == 0
  {
    Unpack64(b[0], b[1], b[2], b[3], b[4], b[5], b[6], b[7]);
    assert [b[0], b[1], b[2], b[3], b[4], b[5], b[6], b[7]] == b;
  }

  /** Reading four bytes as an int loses nothing; the int is zero exactly when the bytes are. */
  lemma IntRoundTrip(b: seq<bv8>)
    requires |b| == 4
    ensures IntBytes(Int(b)) == b
    ensures Int(b) == 0 <==> forall i :: 0 <= i < 4 ==> b[i] == 0
  {
    Unpack32(b[0], b[1], b[2], b[3]);
    assert [b[0], b[1], b[2], b[3]] == b;
  }

  /** halfDigest: the half fold as a long; zero exactly when the two halves agree. */
  function HalfDigest(d: seq<bv8>): (r: bv64)
    requires |d| == MD5_LEN
    ensures r == 0 <==> forall i :: 0 <= i < 8 ==> d[i] == d[i + 8]
    ensures LongBytes(r) == HalfFold(d)
  {
    LongRoundTrip(HalfFold(d));
    FoldZero(d, 8);
    Long(HalfFold(d))
  }

  /**
    quarterDigest: the quarter fold as an int; zero exactly when the two
    halves of the half fold agree.
   */
  function QuarterDigest(d: seq<bv8>): (r: bv32)
    requires |d| == MD5_LEN
    ensures r == 0 <==> forall i :: 0 <= i < 4 ==> HalfFold(d)[i] == HalfFold(d)[i + 4]
    ensures IntBytes(r) == QuarterFold(d)
  {
    QuarterFoldIsFoldOfHalf(d);
    FoldZero(HalfFold(d), 4);
    IntRoundTrip(QuarterFold(d));
    Int(QuarterFold(d))
  }

  /** Two digests have the same half digest exactly when their half folds agree. */
  lemma HalfDigestDeterminesFold(a: seq<bv8>, b: seq<bv8>)
    requires |a| == MD5_LEN && |b| == MD5_LEN
    ensures HalfDigest(a) == HalfDigest(b) <==> HalfFold(a) == HalfFold(b)
  {
  }

  /** The all-zero digest: 32 zero digits of text and zero folds. */
  lemma ZeroDigest()
    ensures Hex.ToHex(Zero()) == "00000000000000000000000000000000"
    ensures HalfDigest(Zero()) == 0 && QuarterDigest(Zero()) == 0
  {
    Hex.ToHexZeros(MD5_LEN);
  }
}
