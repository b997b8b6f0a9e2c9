/** The hex encoding inside `verifySignature`: every digest byte becomes
    `Integer.toHexString(0xff & b)`, left-padded with '0' to two characters. */
module Hex {
  import opened Common

  /** A Java `byte`: signed, -128..127. */
  type JByte = x: int | -128 <= x < 128

  /** `0xff & b`: the byte read as unsigned. */
  function Unsigned(b: JByte): (u: int)
    ensures 0 <= u < 256
    ensures (u - b) % 256 == 0
  {
    if b < 0 then b + 256 else b
  }

  /** The byte whose unsigned reading is `u`. */
  function Signed(u: int): (b: JByte)
    requires 0 <= u < 256
    ensures Unsigned(b) == u
  {
    if u < 128 then u else u - 256
  }

  predicate IsHexDigit(c: char) {
    '0' <= c <= '9' || 'a' <= c <= 'f'
  }

  function HexDigit(d: int): (c: char)
    requires 0 <= d < 16
    ensures IsHexDigit(c)
  {
    if d < 10 then ('0' as int + d) as char else ('a' as int + d - 10) as char
  }

  function HexValue(c: char): (d: int)
    requires IsHexDigit(c)
    ensures 0 <= d < 16 && HexDigit(d) == c
  {
    if c <= '9' then c as int - '0' as int else c as int - 'a' as int + 10
  }

  /** `Integer.toHexString(n)` for a non-negative `n`: lower-case digits without leading zeros. */
  function ToHexString(n: nat): (s: string)
    ensures |s| >= 1
    ensures forall i :: 0 <= i < |s| ==> IsHexDigit(s[i])
  {
    if n < 16 then [HexDigit(n)] else ToHexString(n / 16) + [HexDigit(n % 16)]
  }

  /** The two characters appended for one byte. */
  function ByteHex(b: JByte): string {
    var hex := ToHexString(Unsigned(b));
    if |hex| == 1 then ['0'] + hex else hex
  }

  /** Padding `toHexString` to two characters is the fixed-width encoding: high nibble, then low. */
  lemma ByteHexIsTwoNibbles(b: JByte)
    ensures ByteHex(b) == [HexDigit(Unsigned(b) / 16), HexDigit(Unsigned(b) % 16)]
  {
    var u := Unsigned(b);
    if u >= 16 {
      assert ToHexString(u / 16) == [HexDigit(u / 16)];
    }
  }

  /** The whole digest, byte after byte. */
  function HexOf(bytes: seq<JByte>): string {
    if |bytes| == 0 then "" else ByteHex(bytes[0]) + HexOf(bytes[1..])
  }

  lemma {:induction false} HexOfShape(bytes: seq<JByte>)
    ensures |HexOf(bytes)| == 2 * |bytes|
    ensures forall i :: 0 <= i < |HexOf(bytes)| ==> IsHexDigit(HexOf(bytes)[i])
  {
    if |bytes| > 0 {
      ByteHexIsTwoNibbles(bytes[0]);
      HexOfShape(bytes[1..]);
    }
  }

  lemma {:induction false} HexOfAppend(bytes: seq<JByte>, b: JByte)
    ensures HexOf(bytes + [b]) == HexOf(bytes) + ByteHex(b)
  {
    if |bytes| == 0 {
      assert [b][1..] == [];
    } else {
      assert (bytes + [b])[1..] == bytes[1..] + [b];
      HexOfAppend(bytes[1..], b);
    }
  }

  /** The StringBuilder loop of `verifySignature`. */
  method HexEncode(hash: seq<JByte>) returns (hex: string)
    ensures hex == HexOf(hash)
    ensures |hex| == 2 * |hash|
  {
    hex := "";
    var i := 0;
    while i < |hash|
      invariant 0 <= i <= |hash|
      invariant hex == HexOf(hash[..i])
    {
      var piece := ToHexString(Unsigned(hash[i]));
      if |piece| == 1 {
        hex := hex + "0";
      }
      hex := hex + piece;
      HexOfAppend(hash[..i], hash[i]);
      assert hash[..i + 1] == hash[..i] + [hash[i]];
      i := i + 1;
    }
    assert hash[..i] == hash;
    HexOfShape(hash);
  }

  /** Reads back two lower-case hex digits per byte; anything else is rejected. */
  function HexDecode(s: string): Option<seq<JByte>> {
    if |s| == 0 then Some([])
    else if |s| == 1 || !IsHexDigit(s[0]) || !IsHexDigit(s[1]) then None
    else match HexDecode(s[2..])
      case None => None
      case Some(rest) => Some([Signed(HexValue(s[0]) * 16 + HexValue(s[1]))] + rest)
  }

  /** The encoding can be read back: distinct digests give distinct hex strings. */
  lemma {:induction false} HexRoundTrip(bytes: seq<JByte>)
    ensures HexDecode(HexOf(bytes)) == Some(bytes)
  {
    if |bytes| > 0 {
      var b := bytes[0];
      ByteHexIsTwoNibbles(b);
      var s := HexOf(bytes);
      assert s[2..] == HexOf(bytes[1..]);
      HexRoundTrip(bytes[1..]);
      var u := Unsigned(b);
      assert s[0] == HexDigit(u / 16) && s[1] == HexDigit(u % 16);
      assert HexValue(s[0]) == u / 16 && HexValue(s[1]) == u % 16;
      assert HexValue(s[0]) * 16 + HexValue(s[1]) == u;
      assert Signed(u) == b;
      assert HexDecode(s) == Some([b] + bytes[1..]);
      assert [b] + bytes[1..] == bytes;
    }
  }

  /** Only the canonical encoding decodes: a string that decodes to some bytes is their hex. */
  lemma {:induction false} HexDecodeCanonical(s: string)
    requires HexDecode(s).Some?
    ensures HexOf(HexDecode(s).value) == s
  {
    if |s| > 0 {
      var rest := HexDecode(s[2..]).value;
      HexDecodeCanonical(s[2..]);
      var u := HexValue(s[0]) * 16 + HexValue(s[1]);
      var b := Signed(u);
      assert HexDecode(s).value == [b] + rest;
      ByteHexIsTwoNibbles(b);
      assert u / 16 == HexValue(s[0]) && u % 16 == HexValue(s[1]);
      assert ([b] + rest)[1..] == rest;
    }
  }

  /** Comparing hex strings is comparing digests: a string equals the hex of `bytes` exactly
      when it decodes to `bytes`. */
  lemma HexEqualIffDecodes(s: string, bytes: seq<JByte>)
    ensures s == HexOf(bytes) <==> HexDecode(s) == Some(bytes)
  {
    HexRoundTrip(bytes);
    if HexDecode(s) == Some(bytes) {
      HexDecodeCanonical(s);
    }
  }
}
