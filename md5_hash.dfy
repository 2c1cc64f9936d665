/**
  MD5Hash: a mutable holder of one 16-byte digest, with constructors from
  bytes and hex text, in-place replacement, a binary stream form, its text
  form, the folded long and int, and value equality.
 */
module MD5 {
  import opened Outcomes
  import Hex
  import Digest

  class MD5Hash {
    var digest: seq<bv8>

    /** The object invariant: the digest is always exactly 16 bytes. */
    ghost predicate Valid()
      reads this
    {
      |digest| == Digest.MD5_LEN
    }

    /** new MD5Hash(): the all-zero digest. */
    constructor ()
      ensures Valid() && digest == Digest.Zero()
    {
      digest := Digest.Zero();
    }

    /** new MD5Hash(byte[]): rejects any length but 16 and then creates no object. */
    static method OfBytes(d: seq<bv8>) returns (r: Result<MD5Hash>)
      ensures r.Err? <==> |d| != Digest.MD5_LEN
      ensures r.Err? ==> r.error == InvalidArgument(|d|)
      ensures r.Ok? ==> fresh(r.value) && r.value.Valid() && r.value.digest == d
    {
      if |d| != Digest.MD5_LEN {
        return Err(InvalidArgument(|d|));
      }
      var h := new MD5Hash();
      h.digest := d;
      return Ok(h);
    }

    /** new MD5Hash(String): the digest the hex text spells, with the errors of SetDigest. */
    static method OfHex(hex: string) returns (r: Result<MD5Hash>)
      ensures r.Ok? <==> Digest.FromHex(hex).Ok?
      ensures r.Err? ==> r.error == Digest.FromHex(hex).error
      ensures r.Ok? ==> fresh(r.value) && r.value.Valid() && r.value.digest == Digest.FromHex(hex).value
    {
      var h := new MD5Hash();
      var err := h.SetDigest(hex);
      if err.Some? {
        return Err(err.value);
      }
      return Ok(h);
    }

    /**
      MD5Hash.digest(byte[]): the digest the algorithm computes over the data.
      The algorithm is a parameter; see Digest.Md5Function.
     */
    static method OfData(md5: Digest.Md5Function, data: seq<bv8>) returns (h: MD5Hash)
      ensures fresh(h) && h.Valid() && h.digest == md5(data)
    {
      h := new MD5Hash();
      h.digest := md5(data);
    }

    /** getDigest(): the 16 bytes held. */
    method GetDigest() returns (d: seq<bv8>)
      requires Valid()
      ensures |d| == Digest.MD5_LEN && d == digest
    {
      d := digest;
    }

    /** set(that): overwrites this digest with a copy of that one's. */
    method Set(that: MD5Hash)
      requires Valid() && that.Valid()
      modifies this
      ensures Valid() && digest == old(that.digest)
      ensures Equals(that)
    {
      digest := that.digest;
    }

    /**
      setDigest(hex): replaces the digest by the one the text spells. Text
      that is not 32 characters long, or holds a non-hex character, is
      rejected and the digest is left as it was.
     */
    method SetDigest(hex: string) returns (err: Option<Error>)
      requires Valid()
      modifies this
      ensures Valid()
      ensures err.None? <==> Digest.FromHex(hex).Ok?
      ensures err.None? ==> digest == Digest.FromHex(hex).value
      ensures err.Some? ==> err.value == Digest.FromHex(hex).error && digest == old(digest)
      ensures |hex| != 2 * Digest.MD5_LEN ==> err == Some(InvalidArgument(|hex|))
    {
      match Digest.FromHex(hex)
      case Ok(d) =>
        digest := d;
        err := None;
      case Err(e) =>
        err := Some(e);
    }

    /**
      write(out): appends the 16 raw bytes to the sink; what was there is
      kept, and Read gives the digest back from what was appended.
     */
    method Write(sink: seq<bv8>) returns (sink': seq<bv8>)
      requires Valid()
      ensures |sink'| == |sink| + Digest.MD5_LEN && sink'[..|sink|] == sink
      ensures Digest.Read(sink'[|sink|..]) == Ok((digest, []))
    {
      sink' := Digest.Write(sink, digest);
      assert sink'[|sink|..] == digest;
      Digest.ReadWrite(digest, []);
      assert Digest.Write([], digest) + [] == digest;
    }

    /**
      MD5Hash.read(in): a new hash holding the next 16 bytes of the source,
      and what is left of the source; fails when fewer than 16 bytes remain.
     */
    static method Read(source: seq<bv8>) returns (r: Result<(MD5Hash, seq<bv8>)>)
      ensures r.Ok? <==> |source| >= Digest.MD5_LEN
      ensures r.Err? ==> r.error == EndOfInput(|source|)
      ensures r.Ok? ==> fresh(r.value.0) && r.value.0.Valid()
      ensures r.Ok? ==> (r.value.0.digest, r.value.1) == Digest.Read(source).value
    {
      match Digest.Read(source)
      case Err(e) =>
        r := Err(e);
      case Ok((d, rest)) =>
        var h := new MD5Hash();
        h.digest := d;
        r := Ok((h, rest));
    }

    /** toString(): 32 lower-case hex digits that read back as this digest. */
    function ToString(): (s: string)
      reads this
      requires Valid()
      ensures |s| == 2 * Digest.MD5_LEN && Hex.IsLowerHex(s)
      ensures Digest.FromHex(s) == Ok(digest)
    {
      Digest.FromHexToHex(digest);
      Hex.ToHex(digest)
    }

    /** halfDigest(): zero exactly when the digest's two 8-byte halves are equal. */
    function HalfDigest(): (r: bv64)
      reads this
      requires Valid()
      ensures r == 0 <==> digest[..8] == digest[8..]
      ensures Digest.LongBytes(r) == Digest.HalfFold(digest)
    {
      assert digest[..8] == digest[8..] <==> forall i :: 0 <= i < 8 ==> digest[i] == digest[i + 8];
      Digest.HalfDigest(digest)
    }

    /**
      quarterDigest(): the four-way fold of the digest, as a Java int; zero
      exactly when the half fold's two halves agree.
     */
    function QuarterDigest(): (r: bv32)
      reads this
      requires Valid()
      ensures r == 0 <==> Digest.HalfFold(digest)[..4] == Digest.HalfFold(digest)[4..]
      ensures Digest.IntBytes(r) == Digest.QuarterFold(digest)
    {
      var h := Digest.HalfFold(digest);
      assert h[..4] == h[4..] <==> forall i :: 0 <= i < 4 ==> h[i] == h[i + 4];
      Digest.QuarterDigest(digest)
    }

    /** equals(other): true exactly when all 16 bytes agree position by position. */
    function Equals(other: MD5Hash): (b: bool)
      reads this, other
      requires Valid() && other.Valid()
      ensures b <==> digest == other.digest
    {
      forall i :: 0 <= i < Digest.MD5_LEN ==> digest[i] == other.digest[i]
    }

    /** hashCode(): the quarter digest, so equal hashes have equal hash codes. */
    function HashCode(): (r: bv32)
      reads this
      requires Valid()
      ensures Digest.IntBytes(r) == Digest.QuarterFold(digest)
    {
      QuarterDigest()
    }
  }

  /** equals is consistent with hashCode. */
  lemma EqualsAgreesWithHashCode(a: MD5Hash, b: MD5Hash)
    requires a.Valid() && b.Valid() && a.Equals(b)
    ensures a.HashCode() == b.HashCode()
  {
  }
}
