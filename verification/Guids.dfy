/**
  How a GUID is written: three groups of four bytes, each in reverse, in hexadecimal.
*/
module Guids {

  type Byte = x: int | 0 <= x < 256

  type Guid = g: seq<Byte> | |g| == 16 witness [0, 0, 0, 0, 0, 0, 0, 0, 0, 0, 0, 0, 0, 0, 0, 0]

  datatype GuidText = GuidText(guid: string, hostID: string, appID: string, instanceID: string)

  /** How a GUID is written; the monitor uses FormatGuid. */
  type Writing = Guid -> GuidText

  const HEX_DIGITS := "0123456789abcdef"

  function HexByte(b: Byte): (s: string)
    ensures |s| == 2
  {
    [HEX_DIGITS[b / 16], HEX_DIGITS[b % 16]]
  }

  /** Bytes in reverse, two hexadecimal digits each. */
  function HexReversed(bytes: seq<Byte>): (s: string)
    ensures |s| == 2 * |bytes|
  {
    if bytes == [] then "" else HexReversed(bytes[1..]) + HexByte(bytes[0])
  }

  function GuidString(g: Guid): string {
    HexReversed(g[0..4]) + "." + HexReversed(g[4..8]) + "." + HexReversed(g[8..12])
  }

  function FormatGuid(g: Guid): GuidText {
    GuidText(GuidString(g), HexReversed(g[0..4]), HexReversed(g[4..8]), HexReversed(g[8..12]))
  }

  function HexValue(c: char): int {
    if '0' <= c <= '9' then c as int - '0' as int
    else if 'a' <= c <= 'f' then c as int - 'a' as int + 10
    else 0
  }

  /** The bytes of a reversed hexadecimal text. */
  function ParseReversed(s: string): seq<int> {
    if |s| < 2 then []
    else [16 * HexValue(s[|s| - 2]) + HexValue(s[|s| - 1])] + ParseReversed(s[..|s| - 2])
  }

  function ParseGuid(s: string): seq<int> {
    if |s| != 26 then []
    else ParseReversed(s[0..8]) + ParseReversed(s[9..17]) + ParseReversed(s[18..26])
  }

  lemma HexByteInverts(b: Byte)
    ensures 16 * HexValue(HexByte(b)[0]) + HexValue(HexByte(b)[1]) == b
  {
    HexDigitValue(b / 16);
    HexDigitValue(b % 16);
  }

  lemma HexDigitValue(d: int)
    requires 0 <= d < 16
    ensures HexValue(HEX_DIGITS[d]) == d
  {
  }

  lemma ParseAppend(s: string, high: char, low: char)
    ensures ParseReversed(s + [high, low]) == [16 * HexValue(high) + HexValue(low)] + ParseReversed(s)
  {
    var t := s + [high, low];
    assert t[..|t| - 2] == s;
  }

  lemma ParseOneMore(text: string, b: Byte)
    ensures ParseReversed(text + HexByte(b)) == [b] + ParseReversed(text)
  {
    var high, low := HexByte(b)[0], HexByte(b)[1];
    assert HexByte(b) == [high, low];
    HexByteInverts(b);
    ParseAppend(text, high, low);
  }

  lemma {:induction false} ParseInvertsHex(bytes: seq<Byte>)
    ensures ParseReversed(HexReversed(bytes)) == bytes
  {
    if bytes == [] {
    } else {
      var first, rest := bytes[0], bytes[1..];
      ParseInvertsHex(rest);
      ParseOneMore(HexReversed(rest), first);
      assert bytes == [first] + rest;
    }
  }

  lemma DottedParts(a: string, b: string, c: string)
    requires |a| == |b| == |c| == 8
    ensures var s := a + "." + b + "." + c; |s| == 26 && s[0..8] == a && s[9..17] == b && s[18..26] == c
  {
  }

  lemma ParseDotted(a: string, b: string, c: string)
    requires |a| == |b| == |c| == 8
    ensures ParseGuid(a + "." + b + "." + c) == ParseReversed(a) + ParseReversed(b) + ParseReversed(c)
  {
    DottedParts(a, b, c);
    assert ParseGuid(a + "." + b + "." + c) == ParseReversed(a) + ParseReversed(b) + ParseReversed(c) by {
      hide ParseReversed;
    }
  }

  /** The text is made of its three parts, each of which says four of the bytes. */
  lemma PartsAreReadBack(g: Guid)
    ensures var text := FormatGuid(g);
            && ParseReversed(text.hostID) == g[..4]
            && ParseReversed(text.appID) == g[4..8]
            && ParseReversed(text.instanceID) == g[8..12]
            && text.guid == text.hostID + "." + text.appID + "." + text.instanceID
  {
    ParseInvertsHex(g[0..4]);
    ParseInvertsHex(g[4..8]);
    ParseInvertsHex(g[8..12]);
  }

  /** The first twelve bytes of a GUID can be read back from its text. */
  lemma ParseInvertsFormat(g: Guid)
    ensures ParseGuid(GuidString(g)) == g[..12]
  {
    ParseDotted(HexReversed(g[0..4]), HexReversed(g[4..8]), HexReversed(g[8..12]));
    PartsAreReadBack(g);
    hide HexReversed, ParseReversed, ParseGuid;
    assert g[..12] == g[..4] + g[4..8] + g[8..12];
    assert ParseGuid(GuidString(g)) == g[..12];
  }

  /** Two GUIDs have the same text iff they agree on their first twelve bytes. */
  lemma GuidTextsEqual(g: Guid, h: Guid)
    ensures FormatGuid(g).guid == FormatGuid(h).guid <==> g[..12] == h[..12]
  {
    ParseInvertsFormat(g);
    ParseInvertsFormat(h);
    if g[..12] == h[..12] {
      assert g[0..4] == g[..12][0..4] == h[0..4];
      assert g[4..8] == g[..12][4..8] == h[4..8];
      assert g[8..12] == g[..12][8..12] == h[8..12];
    }
  }

  lemma {:induction false} HexLast(bytes: seq<Byte>)
    requires bytes != []
    ensures HexReversed(bytes) == HexByte(bytes[|bytes| - 1]) + HexReversed(bytes[..|bytes| - 1])
  {
    if |bytes| > 1 {
      HexLast(bytes[1..]);
      assert bytes[1..][..|bytes| - 2] == bytes[..|bytes| - 1][1..];
    } else {
      assert bytes[1..] == [] && bytes[..0] == [];
    }
  }
}
