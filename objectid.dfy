/**
 * Document identifiers: 12-byte values shown as 24 lower-case hexadecimal digits
 * (`ObjectID.Hex`) and parsed back by `ObjectIDFromHex`, which accepts exactly 24
 * hexadecimal digits of either case.
 */
module ObjectIds {

  import opened Wrappers

  type Byte = b: int | 0 <= b < 256

  type ObjectId = s: seq<Byte> | |s| == 12 witness [0, 0, 0, 0, 0, 0, 0, 0, 0, 0, 0, 0]

  /** `primitive.NilObjectID`, the all-zero identifier. */
  const NilId: ObjectId := [0, 0, 0, 0, 0, 0, 0, 0, 0, 0, 0, 0]

  function HexDigit(v: int): (c: char)
    requires 0 <= v < 16
  {
    if v < 10 then (48 + v) as char else (87 + v) as char
  }

  /** The value of one hexadecimal digit of either case, as `encoding/hex` reads it. */
  function HexValue(c: char): (r: Option<int>)
    ensures r.Some? ==> 0 <= r.value < 16
  {
    if '0' <= c <= '9' then Some(c as int - 48)
    else if 'a' <= c <= 'f' then Some(c as int - 87)
    else if 'A' <= c <= 'F' then Some(c as int - 55)
    else None
  }

  predicate IsHexDigit(c: char) { HexValue(c).Some? }

  lemma {:induction false} HexDigitValue(v: int)
    requires 0 <= v < 16
    ensures HexValue(HexDigit(v)) == Some(v)
  {
  }

  /** Two lower-case hexadecimal digits per byte, high nibble first. */
  function EncodeHex(bytes: seq<Byte>): (r: string)
    ensures |r| == 2 * |bytes|
  {
    if bytes == [] then []
    else [HexDigit(bytes[0] / 16), HexDigit(bytes[0] % 16)] + EncodeHex(bytes[1..])
  }

  /** `hex.DecodeString` on an even-length string: fails on any non-hexadecimal character. */
  function DecodeHex(s: string): (r: Option<seq<Byte>>)
    requires |s| % 2 == 0
    ensures r.Some? ==> 2 * |r.value| == |s|
    ensures r.Some? <==> forall i :: 0 <= i < |s| ==> IsHexDigit(s[i])
  {
    if s == [] then Some([])
    else
      var hi, lo := HexValue(s[0]), HexValue(s[1]);
      var rest := DecodeHex(s[2..]);
      assert forall i :: 2 <= i < |s| ==> s[i] == s[2..][i - 2];
      if hi.None? || lo.None? || rest.None? then None
      else Some([16 * hi.value + lo.value] + rest.value)
  }

  /** `ObjectID.Hex`. */
  function Hex(id: ObjectId): (r: string)
    ensures |r| == 24
  {
    EncodeHex(id)
  }

  /** `primitive.ObjectIDFromHex`: exactly 24 hexadecimal digits, or an error. */
  function FromHex(s: string): (r: Option<ObjectId>)
    ensures r.Some? <==> |s| == 24 && forall i :: 0 <= i < |s| ==> IsHexDigit(s[i])
  {
    if |s| != 24 then None
    else
      var b := DecodeHex(s);
      if b.None? then None else Some(b.value)
  }

  lemma {:induction false} DecodeEncode(bytes: seq<Byte>)
    ensures DecodeHex(EncodeHex(bytes)) == Some(bytes)
  {
    if bytes != [] {
      var s := EncodeHex(bytes);
      assert s[2..] == EncodeHex(bytes[1..]);
      HexDigitValue(bytes[0] / 16);
      HexDigitValue(bytes[0] % 16);
      DecodeEncode(bytes[1..]);
      assert [16 * (bytes[0] / 16) + bytes[0] % 16] + bytes[1..] == bytes;
    }
  }

  /** Parsing the hex form of an identifier gives the identifier back. */
  lemma {:induction false} HexRoundTrip(id: ObjectId)
    ensures FromHex(Hex(id)) == Some(id)
  {
    DecodeEncode(id);
  }

  /** A successfully parsed identifier prints back as the lower-case form of its input. */
  lemma {:induction false} EncodeDecode(s: string)
    requires |s| % 2 == 0 && DecodeHex(s).Some?
    ensures EncodeHex(DecodeHex(s).value) == LowerHex(s)
  {
    if s != [] {
      var rest := DecodeHex(s[2..]).value;
      EncodeDecode(s[2..]);
      var v := 16 * HexValue(s[0]).value + HexValue(s[1]).value;
      ByteDigits(s[0], s[1]);
      var b: seq<Byte> := [v] + rest;
      assert DecodeHex(s).value == b;
      assert b[1..] == rest;
      assert EncodeHex(b) == [HexDigit(v / 16), HexDigit(v % 16)] + EncodeHex(rest);
      LowerHexTwo(s);
    }
  }

  lemma {:induction false} LowerHexTwo(s: string)
    requires |s| >= 2
    ensures LowerHex(s) == [LowerHexChar(s[0]), LowerHexChar(s[1])] + LowerHex(s[2..])
  {
    assert s[1..][1..] == s[2..];
  }

  /** The byte read from two digits prints back as those digits in lower case. */
  lemma {:induction false} ByteDigits(c0: char, c1: char)
    requires HexValue(c0).Some? && HexValue(c1).Some?
    ensures var v := 16 * HexValue(c0).value + HexValue(c1).value;
            0 <= v < 256 && HexDigit(v / 16) == LowerHexChar(c0) && HexDigit(v % 16) == LowerHexChar(c1)
  {
    var hi, lo := HexValue(c0).value, HexValue(c1).value;
    var v := 16 * hi + lo;
    assert v / 16 == hi && v % 16 == lo;
  }

  function LowerHexChar(c: char): char
  {
    if 'A' <= c <= 'F' then (c as int + 32) as char else c
  }

  function LowerHex(s: string): (r: string)
    ensures |r| == |s|
  {
    if s == [] then [] else [LowerHexChar(s[0])] + LowerHex(s[1..])
  }

  lemma {:induction false} FromHexCanonical(s: string)
    requires FromHex(s).Some?
    ensures Hex(FromHex(s).value) == LowerHex(s)
  {
    EncodeDecode(s);
  }
}
