/** Document identifiers of the store. An identifier is twelve bytes; a
    request names one by its 24-digit hexadecimal text, which the store
    parses before it looks anything up. Text that does not parse is the
    "malformed id" the delete handler reports. */
module ObjectIds {
  import opened Wrappers

  type Byte = x: int | 0 <= x < 256

  /** The twelve bytes of an identifier. */
  type ObjectId = s: seq<Byte> | |s| == 12 witness [0, 0, 0, 0, 0, 0, 0, 0, 0, 0, 0, 0]

  predicate IsHexDigit(c: char) {
    '0' <= c <= '9' || 'a' <= c <= 'f' || 'A' <= c <= 'F'
  }

  /** The value of one hexadecimal digit, either case. */
  function DigitValue(c: char): (v: nat)
    requires IsHexDigit(c)
    ensures v < 16
  {
    if '0' <= c <= '9' then c as int - '0' as int
    else if 'a' <= c <= 'f' then c as int - 'a' as int + 10
    else c as int - 'A' as int + 10
  }

  /** The lower-case digit for a value below sixteen. */
  function Digit(v: nat): (c: char)
    requires v < 16
    ensures IsHexDigit(c) && DigitValue(c) == v
    ensures !('A' <= c <= 'F')
  {
    if v < 10 then ('0' as int + v) as char else ('a' as int + v - 10) as char
  }

  /** The lower-case spelling of a hexadecimal digit. */
  function LowerDigit(c: char): char
    requires IsHexDigit(c)
  {
    if 'A' <= c <= 'F' then (c as int - 'A' as int + 'a' as int) as char else c
  }

  predicate AllHex(s: string) {
    forall i :: 0 <= i < |s| ==> IsHexDigit(s[i])
  }

  /** Bytes written two lower-case digits each, high digit first. */
  function EncodeHex(bytes: seq<Byte>): (s: string)
    ensures |s| == 2 * |bytes|
    ensures AllHex(s)
  {
    if bytes == [] then []
    else [Digit(bytes[0] / 16), Digit(bytes[0] % 16)] + EncodeHex(bytes[1..])
  }

  /** Reads pairs of hexadecimal digits as bytes. */
  function DecodeHex(s: string): (r: seq<Byte>)
    requires |s| % 2 == 0 && AllHex(s)
    ensures |r| == |s| / 2
  {
    if s == [] then []
    else [DigitValue(s[0]) * 16 + DigitValue(s[1])] + DecodeHex(s[2..])
  }

  /** The store's cast of request text to an identifier: exactly 24
      hexadecimal digits, in either case, and nothing else. */
  function ParseObjectId(s: string): (r: Option<ObjectId>)
    ensures r.Some? <==> |s| == 24 && AllHex(s)
  {
    if |s| == 24 && AllHex(s) then Some(DecodeHex(s)) else None
  }

  /** The canonical text of an identifier, as it appears in a URL. */
  function ObjectIdText(id: ObjectId): (s: string)
    ensures |s| == 24 && AllHex(s)
  {
    EncodeHex(id)
  }

  lemma {:induction false} DecodeEncode(bytes: seq<Byte>)
    ensures DecodeHex(EncodeHex(bytes)) == bytes
  {
    if bytes != [] {
      var s := EncodeHex(bytes);
      assert s[2..] == EncodeHex(bytes[1..]);
      DecodeEncode(bytes[1..]);
    }
  }

  /** Hexadecimal text with its digits in lower case. */
  function Lowered(s: string): (r: string)
    requires AllHex(s)
    ensures |r| == |s|
  {
    if s == [] then [] else [LowerDigit(s[0])] + Lowered(s[1..])
  }

  /** The two digits written for the byte read from a pair of digits. */
  lemma EncodePair(high: nat, low: nat, rest: seq<Byte>)
    requires high < 16 && low < 16
    ensures EncodeHex([high * 16 + low] + rest) == [Digit(high), Digit(low)] + EncodeHex(rest)
  {
    var v := high * 16 + low;
    assert v / 16 == high && v % 16 == low;
    assert ([v] + rest)[1..] == rest;
  }

  lemma LoweredPair(s: string)
    requires |s| >= 2 && AllHex(s)
    ensures Lowered(s) == [LowerDigit(s[0]), LowerDigit(s[1])] + Lowered(s[2..])
  {
    assert s[1..][1..] == s[2..];
  }

  lemma DigitOfValue(c: char)
    requires IsHexDigit(c)
    ensures Digit(DigitValue(c)) == LowerDigit(c)
  {
  }

  lemma {:induction false} EncodeDecode(s: string)
    requires |s| % 2 == 0 && AllHex(s)
    ensures EncodeHex(DecodeHex(s)) == Lowered(s)
  {
    if s != [] {
      var high, low := DigitValue(s[0]), DigitValue(s[1]);
      EncodePair(high, low, DecodeHex(s[2..]));
      DigitOfValue(s[0]);
      DigitOfValue(s[1]);
      EncodeDecode(s[2..]);
      LoweredPair(s);
    }
  }

  /** The canonical text of an identifier parses back to that identifier. */
  lemma ParseObjectIdText(id: ObjectId)
    ensures ParseObjectId(ObjectIdText(id)) == Some(id)
  {
    DecodeEncode(id);
  }

  /** Parsing ignores the case of the digits: text that parses is the
      canonical text of its identifier up to case. */
  lemma ParsedTextIsCanonical(s: string)
    requires ParseObjectId(s).Some?
    ensures ObjectIdText(ParseObjectId(s).value) == Lowered(s)
  {
    EncodeDecode(s);
  }
}
