# MD5Hash — a verified model

Apache Ratis keeps MD5 digests in `org.apache.ratis.io.MD5Hash`. This is a
small mutable holder of one 16-byte digest. You can build it in these ways:

- empty, which gives the all-zero digest;
- from a byte array, which must be 16 bytes long;
- from 32 hex characters;
- by running MD5 over data.

It can be overwritten from another hash or from hex text. It can be written
to and read from a binary stream as 16 raw bytes. It prints as 32 lower-case
hex digits. It folds into a 64-bit `halfDigest` and a 32-bit `quarterDigest`,
and its `equals`/`hashCode` compare by bytes.

The only part of the repository this model follows is its unit test,
`TestMD5Hash.java`. The test fixes the observable behaviour: the lengths, the
errors, the round trips, equality, and the value of every fold on the zero
digest. Where the test leaves a choice open, the model makes one choice, listed below.

Layout:

- `outcomes.dfy`: `Option`, `Result` and the three error cases.
- `hex.dfy`: the hex codec. Lower-case output, input in either case, and
  round trips in both directions.
- `digest.dfy`: the 16-byte digest as a value. Its text form, binary stream
  form and XOR folds, with the folds read big-endian as a Java `long`/`int`.
- `md5_hash.dfy`: the class `MD5Hash`. Its `digest` field is reassigned by
  `Set` and `SetDigest`, and its pure queries are functions that read it.
- `scenarios.dfy`: client methods that drive the class along each test's
  path. Each is stated for every input the test stands for.

## Model

| member | source | states |
|---|---|---|
| Hex.ToHex | ratis-common/src/test/java/org/apache/ratis/io/TestMD5Hash.java:133-137 | two lower-case hex digits per byte |
| Hex.DecodeHex | ratis-common/src/test/java/org/apache/ratis/io/TestMD5Hash.java:27-31 | decoding succeeds exactly when every character is a hex digit and then yields n bytes; a failure names a non-hex character of the text |
| Hex.DecodeHexReportsFirst | ratis-common/src/test/java/org/apache/ratis/io/TestMD5Hash.java:26-31 | a failed decode names the first character of the text that is not a hex digit, and every character before it is one |
| Hex.DecodeToHex | ratis-common/src/test/java/org/apache/ratis/io/TestMD5Hash.java:27-31 | decoding the text of any bytes gives those bytes back |
| Hex.ToHexDecode | ratis-common/src/test/java/org/apache/ratis/io/TestMD5Hash.java:27-31 | printing decoded text gives that text back with its letters lowered |
| Hex.ToHexZeros | ratis-common/src/test/java/org/apache/ratis/io/TestMD5Hash.java:133-137 | n zero bytes print as 2n '0' characters |
| Digest.FromHex | ratis-common/src/test/java/org/apache/ratis/io/TestMD5Hash.java:147-152 | hex text is accepted exactly when it has 32 characters that are all hex digits; any other length is InvalidArgument carrying that length; accepted text gives 16 bytes |
| Digest.FromHexToHex | ratis-common/src/test/java/org/apache/ratis/io/TestMD5Hash.java:27-31 | every 16-byte digest reads back from its own text |
| Digest.ToHexFromHex | ratis-common/src/test/java/org/apache/ratis/io/TestMD5Hash.java:139-145 | accepted text prints back as itself in lower case |
| Digest.LowerHexRoundTrip | ratis-common/src/test/java/org/apache/ratis/io/TestMD5Hash.java:139-145 | 32 lower-case hex digits are accepted and print back unchanged |
| Digest.Read | ratis-common/src/test/java/org/apache/ratis/io/TestMD5Hash.java:54-57 | reading succeeds exactly when at least 16 bytes remain; it splits off the first 16 bytes, and the parts rejoin to the source; otherwise EndOfInput |
| Digest.ReadWrite | ratis-common/src/test/java/org/apache/ratis/io/TestMD5Hash.java:47-58 | reading what was written gives the digest back and leaves whatever followed |
| Digest.HalfDigest | ratis-common/src/test/java/org/apache/ratis/io/TestMD5Hash.java:91-97 | zero exactly when byte i equals byte i+8 for all i < 8; its big-endian bytes are the half fold |
| Digest.QuarterDigest | ratis-common/src/test/java/org/apache/ratis/io/TestMD5Hash.java:99-105 | zero exactly when the half fold's two halves agree; its big-endian bytes are the quarter fold |
| Digest.QuarterFoldIsFoldOfHalf | ratis-common/src/test/java/org/apache/ratis/io/TestMD5Hash.java:99-105 | folding 16 bytes four ways equals folding the half fold once more |
| Digest.LongRoundTrip | ratis-common/src/test/java/org/apache/ratis/io/TestMD5Hash.java:91-97 | 8 bytes read as a big-endian long unpack to themselves; the long is zero exactly when all 8 bytes are |
| Digest.IntRoundTrip | ratis-common/src/test/java/org/apache/ratis/io/TestMD5Hash.java:99-105 | 4 bytes read as a big-endian int unpack to themselves; the int is zero exactly when all 4 bytes are |
| Digest.HalfDigestDeterminesFold | ratis-common/src/test/java/org/apache/ratis/io/TestMD5Hash.java:91-97 | two digests have equal half digests exactly when their half folds agree |
| Digest.ZeroDigest | ratis-common/src/test/java/org/apache/ratis/io/TestMD5Hash.java:91-137 | the zero digest prints as 32 zeros, and both of its folds are 0 |
| MD5.MD5Hash.constructor | ratis-common/src/test/java/org/apache/ratis/io/TestMD5Hash.java:20-24 | a new hash holds the 16-byte zero digest |
| MD5.MD5Hash.OfBytes | ratis-common/src/test/java/org/apache/ratis/io/TestMD5Hash.java:33-44 | fails exactly when the length is not 16, with InvalidArgument carrying the length; otherwise a new hash holding exactly those bytes |
| MD5.MD5Hash.OfHex | ratis-common/src/test/java/org/apache/ratis/io/TestMD5Hash.java:26-31 | succeeds exactly when FromHex accepts the text, and the new hash holds the decoded bytes; fails with FromHex's error otherwise |
| MD5.MD5Hash.OfData | ratis-common/src/test/java/org/apache/ratis/io/TestMD5Hash.java:69-74 | a new hash holding the algorithm's 16 bytes for the data |
| MD5.MD5Hash.GetDigest | ratis-common/src/test/java/org/apache/ratis/io/TestMD5Hash.java:20-24 | the 16 bytes held |
| MD5.MD5Hash.Set | ratis-common/src/test/java/org/apache/ratis/io/TestMD5Hash.java:60-67 | afterwards this hash holds the other's bytes and equals it |
| MD5.MD5Hash.SetDigest | ratis-common/src/test/java/org/apache/ratis/io/TestMD5Hash.java:139-152 | replaces the digest by the decoded text when FromHex accepts it; otherwise returns FromHex's error (InvalidArgument for a length other than 32) and leaves the digest unchanged |
| MD5.MD5Hash.Write | ratis-common/src/test/java/org/apache/ratis/io/TestMD5Hash.java:47-53 | appends 16 bytes and keeps what was already in the sink; reading the appended part gives this digest |
| MD5.MD5Hash.Read | ratis-common/src/test/java/org/apache/ratis/io/TestMD5Hash.java:54-57 | succeeds exactly when at least 16 bytes remain, returning a new hash holding them and the rest of the source; otherwise EndOfInput |
| MD5.MD5Hash.ToString | ratis-common/src/test/java/org/apache/ratis/io/TestMD5Hash.java:132-137 | 32 lower-case hex digits that FromHex reads back as this digest |
| MD5.MD5Hash.HalfDigest | ratis-common/src/test/java/org/apache/ratis/io/TestMD5Hash.java:91-97 | zero exactly when the first 8 bytes equal the last 8; its big-endian bytes are the half fold |
| MD5.MD5Hash.QuarterDigest | ratis-common/src/test/java/org/apache/ratis/io/TestMD5Hash.java:99-105 | zero exactly when the half fold's halves agree; its big-endian bytes are the quarter fold |
| MD5.MD5Hash.Equals | ratis-common/src/test/java/org/apache/ratis/io/TestMD5Hash.java:107-123 | true exactly when the two digests are equal |
| MD5.MD5Hash.HashCode | ratis-common/src/test/java/org/apache/ratis/io/TestMD5Hash.java:125-130 | its big-endian bytes are the quarter fold of the digest |
| MD5.EqualsAgreesWithHashCode | ratis-common/src/test/java/org/apache/ratis/io/TestMD5Hash.java:107-130 | equal hashes have equal hash codes |
| Scenarios.DefaultLength | ratis-common/src/test/java/org/apache/ratis/io/TestMD5Hash.java:20-24 | a default hash's digest is 16 zero bytes |
| Scenarios.FromBytes | ratis-common/src/test/java/org/apache/ratis/io/TestMD5Hash.java:33-44 | 16 bytes are kept as given; any other length gives InvalidArgument with that length |
| Scenarios.HexConstructorRoundTrip | ratis-common/src/test/java/org/apache/ratis/io/TestMD5Hash.java:26-31 | lower-case hex given to the constructor is what toString returns |
| Scenarios.SetDigestRoundTrip | ratis-common/src/test/java/org/apache/ratis/io/TestMD5Hash.java:139-145 | lower-case hex given to setDigest is what toString returns |
| Scenarios.SetDigestWrongLength | ratis-common/src/test/java/org/apache/ratis/io/TestMD5Hash.java:147-152 | text that is not 32 characters long gives InvalidArgument, and the hash keeps its zero digest |
| Scenarios.WriteThenRead | ratis-common/src/test/java/org/apache/ratis/io/TestMD5Hash.java:46-58 | a written and re-read hash has the original bytes |
| Scenarios.SetCopies | ratis-common/src/test/java/org/apache/ratis/io/TestMD5Hash.java:60-67 | set makes a default hash hold the source's bytes |
| Scenarios.EqualsByBytes | ratis-common/src/test/java/org/apache/ratis/io/TestMD5Hash.java:107-123 | hashes built from the same bytes are equal, and hashes whose first bytes differ are not |
| Scenarios.ZeroHash | ratis-common/src/test/java/org/apache/ratis/io/TestMD5Hash.java:91-137 | for the zero digest, halfDigest, quarterDigest and hashCode are 0, and toString is 32 zeros |
| Scenarios.DigestOfData | ratis-common/src/test/java/org/apache/ratis/io/TestMD5Hash.java:69-74 | a hash computed over any data holds 16 bytes, which are the algorithm's output |

## Left out

- The MD5 algorithm itself belongs to the Java runtime's message-digest library. It is a parameter here (`Digest.Md5Function`): any function that yields 16 bytes.
- `digest(InputStream)`: stream reading and I/O errors are not modelled. For the bytes it reads, it behaves as `MD5.MD5Hash.OfData`.
- `digest(byte[][], int, int)`: the selection of the range over several arrays is not modelled.
- Streams are byte sequences. A write appends, and a read takes 16 bytes from the front. I/O exceptions other than running out of input are not modelled.
- Byte arrays are values here. The aliasing between the caller's array and the one the Java object keeps (by constructor or `getDigest`) is not modelled.
- Digest.HalfDigest: the model's chosen fold is byte i XOR byte i+8, read big-endian as an unsigned 64-bit word. The test fixes only its value on the zero digest. Nothing here claims agreement with the Java values for other digests.
- Digest.QuarterDigest: the model's chosen fold is bytes i, i+4, i+8 and i+12 XORed together, read big-endian as an unsigned 32-bit word. The test fixes only its value on the zero digest, and nothing here claims agreement with the Java values for other digests.
- MD5.MD5Hash.HashCode: taken as the quarter digest. The test fixes only its value on the zero digest.
- Errors: the test shows only the invalid-argument error, for a wrong byte length or a wrong text length. The non-hex-character error (`NotHex`) and the short-read error (`EndOfInput`) are the model's own choices.
- Digest.FromHex: the length of hex text is counted in Unicode scalar values, while Java counts UTF-16 code units. Text holding a character outside the Basic Multilingual Plane therefore gets a different length here. For example, one emoji followed by 30 zeros is length 32 in Java, which passes the length check and then fails as non-hex; here it is InvalidArgument(31). The same holds for MD5.MD5Hash.SetDigest and MD5.MD5Hash.OfHex.
- MD5.MD5Hash.Equals: it compares only with another MD5Hash. Java's equals(Object) also returns false for null and for objects of other types, and that branch is not modelled.
- Hex text is accepted in either letter case and always printed in lower case. The test uses only lower-case text.
- The generic readable/writable serialization interface is not part of this model. Only this class's own `write` and `read` are.
