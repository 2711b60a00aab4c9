/**
 * The test suite's `bytes32` helper: it turns a text (given here as its
 * UTF-8 bytes) into the 66-character hex string that the Ethereum client
 * library accepts as a `bytes32` argument, i.e. "0x" followed by 64 lowercase
 * hex digits. Texts longer than 32 bytes are rejected.
 *
 * The library calls the helper relies on are given explicit definitions:
 * `Hexlify` (two lowercase hex digits per byte after "0x"), its inverse
 * `Unhexlify`, and `DecodeBytes32`, the reading of such a string as a
 * 32-byte value.
 */
module Bytes32Encoding {

  newtype byte = x: int | 0 <= x < 256

  datatype Option<+T> = None | Some(value: T)

  datatype Result<+T, +E> = Success(value: T) | Failure(error: E)

  /** The two exceptions the helper can throw. */
  datatype EncodeError =
    | StringTooLong          // more than 32 bytes of text
    | InvalidImplicitBytes32 // the padded string is not 66 characters long

  /** Capacity of a `bytes32` value, in bytes. */
  const WIDTH: nat := 32

  /** Length of the rendering of a `bytes32` value: "0x" and two digits per byte. */
  const TEXT_LENGTH: nat := 66

  /** The UTF-8 encoding of a text made of ASCII characters only. */
  function Utf8OfAscii(s: string): (r: seq<byte>)
    requires forall i | 0 <= i < |s| :: s[i] as int < 128
    ensures |r| == |s|
    ensures forall i | 0 <= i < |s| :: r[i] as int == s[i] as int
  {
    if s == [] then [] else [s[0] as int as byte] + Utf8OfAscii(s[1..])
  }

  // ---------------------------------------------------------------------
  // Hex digits

  predicate IsLowerHexDigit(c: char) {
    '0' <= c <= '9' || 'a' <= c <= 'f'
  }

  /** The lowercase hex digit of a nibble. */
  function HexDigit(n: byte): (c: char)
    requires n < 16
    ensures IsLowerHexDigit(c)
  {
    if n < 10 then ('0' as int + n as int) as char
    else ('a' as int + n as int - 10) as char
  }

  /** The value of a hex digit (either case), or None for another character. */
  function DigitValue(c: char): (r: Option<byte>)
    ensures r.Some? ==> r.value < 16
    ensures r.Some? <==> (IsLowerHexDigit(c) || 'A' <= c <= 'F')
  {
    if '0' <= c <= '9' then Some((c as int - '0' as int) as byte)
    else if 'a' <= c <= 'f' then Some((c as int - 'a' as int + 10) as byte)
    else if 'A' <= c <= 'F' then Some((c as int - 'A' as int + 10) as byte)
    else None
  }

  lemma DigitValueOfHexDigit(n: byte)
    requires n < 16
    ensures DigitValue(HexDigit(n)) == Some(n)
  {
  }

  /** The two lowercase hex digits of a byte, high nibble first. */
  function HexPair(b: byte): (r: seq<char>)
    ensures |r| == 2 && IsLowerHexDigit(r[0]) && IsLowerHexDigit(r[1])
  {
    [HexDigit(b / 16), HexDigit(b % 16)]
  }

  /** The byte whose high nibble is `hi` and whose low nibble is `lo`. */
  function Join(hi: byte, lo: byte): (b: byte)
    requires hi < 16 && lo < 16
    ensures b / 16 == hi && b % 16 == lo
  {
    hi * 16 + lo
  }

  // ---------------------------------------------------------------------
  // Hex strings

  /** The hex digits of a byte string, two per byte, without a prefix. */
  function HexOf(bytes: seq<byte>): (r: seq<char>)
    ensures |r| == 2 * |bytes|
    ensures forall i | 0 <= i < |r| :: IsLowerHexDigit(r[i])
  {
    if bytes == [] then [] else HexPair(bytes[0]) + HexOf(bytes[1..])
  }

  /** The library's hex rendering of a byte string: "0x" and the hex digits. */
  function Hexlify(bytes: seq<byte>): (r: seq<char>)
    ensures |r| == 2 + 2 * |bytes|
    ensures r[..2] == "0x"
    ensures forall i | 2 <= i < |r| :: IsLowerHexDigit(r[i])
  {
    "0x" + HexOf(bytes)
  }

  /** Reads pairs of hex digits back into bytes; None on an odd length or a non-digit. */
  function ParseHex(s: seq<char>): (r: Option<seq<byte>>)
    ensures r.Some? ==> 2 * |r.value| == |s|
  {
    if s == [] then Some([])
    else if |s| == 1 then None
    else
      match (DigitValue(s[0]), DigitValue(s[1]), ParseHex(s[2..]))
      case (Some(hi), Some(lo), Some(rest)) => Some([Join(hi, lo)] + rest)
      case _ => None
  }

  /** The inverse of `Hexlify`: a "0x"-prefixed hex string back to its bytes. */
  function Unhexlify(s: seq<char>): (r: Option<seq<byte>>)
    ensures r.Some? ==> |s| == 2 + 2 * |r.value| && s[..2] == "0x"
  {
    if |s| >= 2 && s[..2] == "0x" then ParseHex(s[2..]) else None
  }

  /** How a hex string passed as a `bytes32` argument is read: exactly 32 bytes or nothing. */
  function DecodeBytes32(s: seq<char>): (r: Option<seq<byte>>)
    ensures r.Some? ==> |r.value| == WIDTH && |s| == TEXT_LENGTH
  {
    match Unhexlify(s)
    case Some(b) => if |b| == WIDTH then Some(b) else None
    case None => None
  }

  lemma {:induction false} ParseHexOf(bytes: seq<byte>)
    ensures ParseHex(HexOf(bytes)) == Some(bytes)
  {
    if bytes != [] {
      var b := bytes[0];
      var s := HexOf(bytes);
      assert s == HexPair(b) + HexOf(bytes[1..]);
      assert s[0] == HexDigit(b / 16) && s[1] == HexDigit(b % 16);
      assert s[2..] == HexOf(bytes[1..]);
      DigitValueOfHexDigit(b / 16);
      DigitValueOfHexDigit(b % 16);
      ParseHexOf(bytes[1..]);
      assert Join(b / 16, b % 16) == b;
      assert [b] + bytes[1..] == bytes;
    }
  }

  /** Unhexlify undoes Hexlify. */
  lemma UnhexlifyHexlify(bytes: seq<byte>)
    ensures Unhexlify(Hexlify(bytes)) == Some(bytes)
  {
    assert Hexlify(bytes)[2..] == HexOf(bytes);
    ParseHexOf(bytes);
  }

  // ---------------------------------------------------------------------
  // Padding

  /** `n` zero bytes. */
  function ZeroBytes(n: nat): (r: seq<byte>)
    ensures |r| == n && forall i | 0 <= i < n :: r[i] == 0
  {
    seq(n, i => 0 as byte)
  }

  /** `n` '0' characters. */
  function Zeros(n: nat): (r: seq<char>)
    ensures |r| == n && forall i | 0 <= i < n :: r[i] == '0'
  {
    seq(n, i => '0')
  }

  /** The `bytes32` value holding a text: the text's bytes, right-padded with zero bytes. */
  function PadRight(text: seq<byte>): (r: seq<byte>)
    requires |text| <= WIDTH
    ensures |r| == WIDTH && r[..|text|] == text
    ensures forall i | |text| <= i < WIDTH :: r[i] == 0
  {
    text + ZeroBytes(WIDTH - |text|)
  }

  lemma {:induction false} HexOfAppend(a: seq<byte>, b: seq<byte>)
    ensures HexOf(a + b) == HexOf(a) + HexOf(b)
  {
    if a != [] {
      assert (a + b)[0] == a[0];
      assert (a + b)[1..] == a[1..] + b;
      HexOfAppend(a[1..], b);
    } else {
      assert a + b == b;
    }
  }

  lemma {:induction false} HexOfZeroBytes(n: nat)
    ensures HexOf(ZeroBytes(n)) == Zeros(2 * n)
  {
    if n > 0 {
      assert ZeroBytes(n)[0] == 0;
      assert ZeroBytes(n)[1..] == ZeroBytes(n - 1);
      HexOfZeroBytes(n - 1);
      assert HexPair(0) == "00";
      assert Zeros(2 * n) == "00" + Zeros(2 * (n - 1));
    }
  }

  /** Appending '0' characters to the hex of a text is the hex of the text padded with zero bytes. */
  lemma PaddedHexIsHexOfPadded(text: seq<byte>)
    requires |text| <= WIDTH
    ensures Hexlify(text) + Zeros(TEXT_LENGTH - (2 + 2 * |text|)) == Hexlify(PadRight(text))
  {
    var pad := ZeroBytes(WIDTH - |text|);
    HexOfAppend(text, pad);
    HexOfZeroBytes(WIDTH - |text|);
    assert Hexlify(PadRight(text)) == "0x" + HexOf(text) + HexOf(pad);
  }

  // ---------------------------------------------------------------------
  // The helper itself

  /**
   * The test suite's `bytes32` helper: reject more than 32 bytes, render the
   * bytes with `Hexlify`, then append '0' until the string is 66 characters
   * long. Its last length check can never fail.
   */
  method Bytes32(text: seq<byte>) returns (r: Result<seq<char>, EncodeError>)
    ensures r.Failure? <==> |text| > WIDTH
    ensures r.Failure? ==> r.error == StringTooLong
    ensures r.Success? ==> |r.value| == TEXT_LENGTH
    ensures r.Success? ==> r.value[..2 + 2 * |text|] == Hexlify(text)
    ensures r.Success? ==> forall i | 2 + 2 * |text| <= i < TEXT_LENGTH :: r.value[i] == '0'
    ensures r.Success? ==> r.value == Hexlify(PadRight(text))
    ensures r.Success? ==> DecodeBytes32(r.value) == Some(PadRight(text))
  {
    if |text| > WIDTH {
      return Failure(StringTooLong);
    }
    var hex := Hexlify(text);
    var result := hex;
    while |result| < TEXT_LENGTH
      invariant |hex| <= |result| <= TEXT_LENGTH
      invariant result == hex + Zeros(|result| - |hex|)
    {
      result := result + "0";
    }
    if |result| != TEXT_LENGTH {
      assert false;
      return Failure(InvalidImplicitBytes32);
    }
    assert result[..|hex|] == hex;
    PaddedHexIsHexOfPadded(text);
    UnhexlifyHexlify(PadRight(text));
    return Success(result);
  }
}
