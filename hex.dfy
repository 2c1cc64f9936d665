/**
  Hexadecimal text for byte sequences: two digits per byte, high nibble
  first, lower-case on output, either case accepted on input.
 */
module Hex {
  import opened Outcomes

  predicate IsHexChar(c: char) {
    '0' <= c <= '9' || 'a' <= c <= 'f' || 'A' <= c <= 'F'
  }

  predicate IsLowerHexChar(c: char) {
    '0' <= c <= '9' || 'a' <= c <= 'f'
  }

  predicate AllHex(s: string) {
    forall i :: 0 <= i < |s| ==> IsHexChar(s[i])
  }

  predicate IsLowerHex(s: string) {
    forall i :: 0 <= i < |s| ==> IsLowerHexChar(s[i])
  }

  /** Folds an upper-case hex letter to lower case; leaves every other character alone. */
  function LowerChar(c: char): char {
    if 'A' <= c <= 'F' then (c as int - 'A' as int + 'a' as int) as char else c
  }

  function Lowered(s: string): (r: string)
    ensures |r| == |s|
  {
    seq(|s|, i requires 0 <= i < |s| => LowerChar(s[i]))
  }

  /** The lower-case digit for a nibble. */
  function Digit(n: bv8): (c: char)
    requires n < 16
    ensures IsLowerHexChar(c)
  {
    match n
    case 0 => '0'
    case 1 => '1'
    case 2 => '2'
    case 3 => '3'
    case 4 => '4'
    case 5 => '5'
    case 6 => '6'
    case 7 => '7'
    case 8 => '8'
    case 9 => '9'
    case 10 => 'a'
    case 11 => 'b'
    case 12 => 'c'
    case 13 => 'd'
    case 14 => 'e'
    case 15 => 'f'
  }

  /** The value of a hex digit of either case, or None for any other character. */
  function NibbleOf(c: char): (r: Option<bv8>)
    ensures r.Some? <==> IsHexChar(c)
    ensures r.Some? ==> r.value < 16
  {
    match c
    case '0' => Some(0)
    case '1' => Some(1)
    case '2' => Some(2)
    case '3' => Some(3)
    case '4' => Some(4)
    case '5' => Some(5)
    case '6' => Some(6)
    case '7' => Some(7)
    case '8' => Some(8)
    case '9' => Some(9)
    case 'a' => Some(10)
    case 'b' => Some(11)
    case 'c' => Some(12)
    case 'd' => Some(13)
    case 'e' => Some(14)
    case 'f' => Some(15)
    case 'A' => Some(10)
    case 'B' => Some(11)
    case 'C' => Some(12)
    case 'D' => Some(13)
    case 'E' => Some(14)
    case 'F' => Some(15)
    case _ => None
  }

  /** Reading a hex digit and writing it back gives it in lower case. */
  lemma NibbleDigit(c: char)
    requires IsHexChar(c)
    ensures Digit(NibbleOf(c).value) == LowerChar(c)
  {
  }

  lemma DigitNibble(n: bv8)
    requires n < 16
    ensures NibbleOf(Digit(n)) == Some(n)
  {
  }

  /** Text form of a byte sequence. */
  function ToHex(d: seq<bv8>): (s: string)
    ensures |s| == 2 * |d|
    ensures IsLowerHex(s)
    decreases |d|
  {
    if d == [] then ""
    else [Digit(d[0] >> 4), Digit(d[0] & 0xF)] + ToHex(d[1..])
  }

  /**
    The n bytes written as 2n hex digits; on failure a non-hex character
    is reported, and DecodeHexReportsFirst shows it is the first one.
   */
  function DecodeHex(s: string, n: nat): (r: Result<seq<bv8>>)
    requires |s| == 2 * n
    ensures r.Ok? <==> AllHex(s)
    ensures r.Ok? ==> |r.value| == n
    ensures r.Err? ==> r.error.NotHex? && r.error.c in s && !IsHexChar(r.error.c)
    decreases n
  {
    if n == 0 then Ok([])
    else
      match NibbleOf(s[0])
      case None => Err(NotHex(s[0]))
      case Some(hi) =>
        match NibbleOf(s[1])
        case None => Err(NotHex(s[1]))
        case Some(lo) =>
          match DecodeHex(s[2..], n - 1)
          case Err(e) => Err(e)
          case Ok(rest) => Ok([(hi << 4) | lo] + rest)
  }

  /** A failed decode names the first character of the text that is not a hex digit. */
  lemma {:induction false} DecodeHexReportsFirst(s: string, n: nat)
    requires |s| == 2 * n && DecodeHex(s, n).Err?
    ensures exists i :: 0 <= i < |s| && DecodeHex(s, n).error == NotHex(s[i])
                        && !IsHexChar(s[i]) && AllHex(s[..i])
  {
    if !IsHexChar(s[0]) {
      assert DecodeHex(s, n).error == NotHex(s[0]) && AllHex(s[..0]);
    } else if !IsHexChar(s[1]) {
      assert DecodeHex(s, n).error == NotHex(s[1]) && AllHex(s[..1]);
    } else {
      var t := s[2..];
      assert DecodeHex(t, n - 1).Err? && DecodeHex(s, n).error == DecodeHex(t, n - 1).error;
      DecodeHexReportsFirst(t, n - 1);
      var j :| 0 <= j < |t| && DecodeHex(t, n - 1).error == NotHex(t[j])
               && !IsHexChar(t[j]) && AllHex(t[..j]);
      assert s[j + 2] == t[j];
      var p := s[..j + 2];
      assert AllHex(p) by {
        forall k | 0 <= k < |p|
          ensures IsHexChar(p[k])
        {
          if k >= 2 {
            assert p[k] == t[..j][k - 2];
          }
        }
      }
    }
  }

  /** A byte splits into its two nibbles and joins back. */
  lemma SplitJoin(b: bv8)
    ensures b >> 4 < 16 && b & 0xF < 16
    ensures ((b >> 4) << 4) | (b & 0xF) == b
  {
  }

  lemma JoinSplit(hi: bv8, lo: bv8)
    requires hi < 16 && lo < 16
    ensures ((hi << 4) | lo) >> 4 == hi && ((hi << 4) | lo) & 0xF == lo
  {
  }

  lemma HeadTail<T>(d: seq<T>)
    requires d != []
    ensures [d[0]] + d[1..] == d
  {
  }

  /** One step of ToHex: the first byte's two digits, then the rest. */
  lemma ToHexStep(d: seq<bv8>)
    requires d != []
    ensures ToHex(d) == [Digit(d[0] >> 4), Digit(d[0] & 0xF)] + ToHex(d[1..])
  {
  }

  /** One step of DecodeHex when the first two characters are digits. */
  lemma DecodeStep(s: string, n: nat)
    requires |s| == 2 * n && n > 0
    requires NibbleOf(s[0]).Some? && NibbleOf(s[1]).Some? && DecodeHex(s[2..], n - 1).Ok?
    ensures DecodeHex(s, n)
         == Ok([(NibbleOf(s[0]).value << 4) | NibbleOf(s[1]).value] + DecodeHex(s[2..], n - 1).value)
  {
  }

  lemma DecodeCons(c0: char, c1: char, t: string, n: nat)
    requires IsHexChar(c0) && IsHexChar(c1) && |t| == 2 * n && DecodeHex(t, n).Ok?
    ensures DecodeHex([c0, c1] + t, n + 1)
         == Ok([(NibbleOf(c0).value << 4) | NibbleOf(c1).value] + DecodeHex(t, n).value)
  {
    var s := [c0, c1] + t;
    assert s[0] == c0 && s[1] == c1 && s[2..] == t;
    DecodeStep(s, n + 1);
  }

  lemma LoweredStep(s: string)
    requires |s| >= 2
    ensures Lowered(s) == [LowerChar(s[0]), LowerChar(s[1])] + Lowered(s[2..])
  {
  }

  /** The two digits of a byte read back as its two nibbles, which join to the byte. */
  lemma ByteDigits(b: bv8)
    ensures NibbleOf(Digit(b >> 4)) == Some(b >> 4)
    ensures NibbleOf(Digit(b & 0xF)) == Some(b & 0xF)
    ensures (NibbleOf(Digit(b >> 4)).value << 4) | NibbleOf(Digit(b & 0xF)).value == b
  {
    SplitJoin(b);
    DigitNibble(b >> 4);
    DigitNibble(b & 0xF);
  }

  /** Two hex digits join to a byte whose digits are those two, in lower case. */
  lemma DigitsByte(c0: char, c1: char)
    requires IsHexChar(c0) && IsHexChar(c1)
    ensures var b := (NibbleOf(c0).value << 4) | NibbleOf(c1).value;
      Digit(b >> 4) == LowerChar(c0) && Digit(b & 0xF) == LowerChar(c1)
  {
    JoinSplit(NibbleOf(c0).value, NibbleOf(c1).value);
    NibbleDigit(c0);
    NibbleDigit(c1);
  }

  /** Decoding the text of any byte sequence gives those bytes back. */
  lemma {:induction false} DecodeToHex(d: seq<bv8>)
    ensures DecodeHex(ToHex(d), |d|) == Ok(d)
    decreases |d|
  {
    if d != [] {
      var t := ToHex(d[1..]);
      var c0, c1 := Digit(d[0] >> 4), Digit(d[0] & 0xF);
      DecodeToHex(d[1..]);
      ToHexStep(d);
      ByteDigits(d[0]);
      DecodeCons(c0, c1, t, |d| - 1);
      HeadTail(d);
    }
  }

  /** Encoding decoded text gives the text back, folded to lower case. */
  lemma {:induction false} ToHexDecode(s: string, n: nat)
    requires |s| == 2 * n && DecodeHex(s, n).Ok?
    ensures ToHex(DecodeHex(s, n).value) == Lowered(s)
    decreases n
  {
    if n > 0 {
      ToHexDecode(s[2..], n - 1);
      DecodeStep(s, n);
      var rest := DecodeHex(s[2..], n - 1).value;
      var b := (NibbleOf(s[0]).value << 4) | NibbleOf(s[1]).value;
      ToHexStep([b] + rest);
      assert ([b] + rest)[1..] == rest;
      DigitsByte(s[0], s[1]);
      LoweredStep(s);
    }
  }

  lemma LoweredLowerHex(s: string)
    requires IsLowerHex(s)
    ensures Lowered(s) == s
  {
  }

  /** The text of n zero bytes is 2n zero digits. */
  lemma {:induction false} ToHexZeros(n: nat)
    ensures ToHex(seq(n, _ => 0)) == seq(2 * n, _ => '0')
  {
    if n > 0 {
      var z: seq<bv8> := seq(n, _ => 0);
      assert z[1..] == seq(n - 1, _ => 0);
      ToHexZeros(n - 1);
      assert Digit(0) == '0';
    }
  }
}
