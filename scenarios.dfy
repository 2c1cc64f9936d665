/**
  Client code that drives MD5Hash the way its unit tests do, each stated
  for every input the test stands for rather than the one value it picks.
 */
module Scenarios {
  import opened Outcomes
  import Hex
  import Digest
  import MD5

  /** A default hash holds 16 bytes, all zero. */
  method DefaultLength() returns (d: seq<bv8>)
    ensures |d| == 16 && forall i :: 0 <= i < |d| ==> d[i] == 0
  {
    var h := new MD5.MD5Hash();
    d := h.GetDigest();
  }

  /** Constructing from bytes keeps them; any length but 16 is an invalid argument. */
  method FromBytes(bytes: seq<bv8>) returns (r: Result<seq<bv8>>)
    ensures |bytes| == 16 ==> r == Ok(bytes)
    ensures |bytes| != 16 ==> r == Err(InvalidArgument(|bytes|))
  {
    var h := MD5.MD5Hash.OfBytes(bytes);
    match h
    case Err(e) =>
      r := Err(e);
    case Ok(hash) =>
      var d := hash.GetDigest();
      r := Ok(d);
  }

  /** Lower-case hex text given to the constructor comes back from toString unchanged. */
  method HexConstructorRoundTrip(hex: string) returns (s: string)
    requires |hex| == 32 && Hex.IsLowerHex(hex)
    ensures s == hex
  {
    Digest.LowerHexRoundTrip(hex);
    var r := MD5.MD5Hash.OfHex(hex);
    s := r.value.ToString();
  }

  /** The same round trip through setDigest on a default hash. */
  method SetDigestRoundTrip(hex: string) returns (s: string)
    requires |hex| == 32 && Hex.IsLowerHex(hex)
    ensures s == hex
  {
    Digest.LowerHexRoundTrip(hex);
    var h := new MD5.MD5Hash();
    var err := h.SetDigest(hex);
    s := h.ToString();
  }

  /** setDigest with text of the wrong length fails and leaves the zero digest in place. */
  method SetDigestWrongLength(hex: string) returns (err: Option<Error>, d: seq<bv8>)
    requires |hex| != 32
    ensures err == Some(InvalidArgument(|hex|))
    ensures d == Digest.Zero()
  {
    var h := new MD5.MD5Hash();
    err := h.SetDigest(hex);
    d := h.GetDigest();
  }

  /** Writing a hash and reading the bytes back yields the same digest. */
  method WriteThenRead(bytes: seq<bv8>) returns (back: seq<bv8>)
    requires |bytes| == 16
    ensures back == bytes
  {
    var made := MD5.MD5Hash.OfBytes(bytes);
    var h := made.value;
    var out := h.Write([]);
    var r := MD5.MD5Hash.Read(out);
    back := r.value.0.GetDigest();
  }

  /** set copies the other hash's bytes into a default hash. */
  method SetCopies(bytes: seq<bv8>) returns (copy: seq<bv8>)
    requires |bytes| == 16
    ensures copy == bytes
  {
    var made := MD5.MD5Hash.OfBytes(bytes);
    var h1 := made.value;
    var h2 := new MD5.MD5Hash();
    h2.Set(h1);
    copy := h2.GetDigest();
  }

  /**
    Two hashes built from the same bytes are equal; two whose first bytes
    differ are not.
   */
  method EqualsByBytes(a: seq<bv8>, b: seq<bv8>) returns (same: bool, other: bool)
    requires |a| == 16 && |b| == 16 && a[0] != b[0]
    ensures same && !other
  {
    var m1 := MD5.MD5Hash.OfBytes(a);
    var m2 := MD5.MD5Hash.OfBytes(a);
    var m3 := MD5.MD5Hash.OfBytes(b);
    same := m1.value.Equals(m2.value);
    other := m1.value.Equals(m3.value);
  }

  /** The zero digest: both folds and the hash code are zero, and the text is 32 zeros. */
  method ZeroHash() returns (half: bv64, quarter: bv32, code: bv32, text: string)
    ensures half == 0 && quarter == 0 && code == 0
    ensures text == "00000000000000000000000000000000"
  {
    var made := MD5.MD5Hash.OfBytes(Digest.Zero());
    var h := made.value;
    Digest.ZeroDigest();
    half := h.HalfDigest();
    quarter := h.QuarterDigest();
    code := h.HashCode();
    text := h.ToString();
  }

  /** A digest computed from data is 16 bytes long, whatever the data. */
  method DigestOfData(md5: Digest.Md5Function, data: seq<bv8>) returns (d: seq<bv8>)
    ensures |d| == 16 && d == md5(data)
  {
    var h := MD5.MD5Hash.OfData(md5, data);
    d := h.GetDigest();
  }
}
