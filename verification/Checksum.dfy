/** The signed hexadecimal digest of Checksum::digestToProtocol, for a digest of any length. */
module Checksum {
  import opened BigEndian

  function HexDigit(d: nat): char
    requires d < 16
  {
    "0123456789abcdef"[d]
  }

  predicate IsHex(c: char) {
    '0' <= c <= '9' || 'a' <= c <= 'f'
  }

  function DigitValue(c: char): (d: nat)
    requires IsHex(c)
    ensures d < 16 && (d == 0 <==> c == '0')
  {
    if c <= '9' then (c - '0') as int else (c - 'a') as int + 10
  }

  predicate AllHex(s: string) {
    forall i :: 0 <= i < |s| ==> IsHex(s[i])
  }

  /** The number a string of hexadecimal digits denotes. */
  function HexValue(s: string): nat
    requires AllHex(s)
  {
    if s == "" then 0 else 16 * HexValue(s[..|s| - 1]) + DigitValue(s[|s| - 1])
  }

  /** A number in the protocol's notation: a minus sign or none, then digits without leading zeros. */
  ghost predicate IsNumeral(s: string) {
    var digits := if s != "" && s[0] == '-' then s[1..] else s;
    digits != "" && AllHex(digits) && digits[0] != '0'
  }

  ghost function Denotes(s: string): int
    requires IsNumeral(s)
  {
    if s[0] == '-' then 0 - HexValue(s[1..]) else HexValue(s)
  }

  lemma DigitRoundTrip(d: nat)
    requires d < 16
    ensures IsHex(HexDigit(d)) && DigitValue(HexDigit(d)) == d
  {}

  lemma HexAppend(s: string, b: byte)
    requires AllHex(s)
    ensures AllHex(s + [HexDigit(b / 16), HexDigit(b % 16)])
    ensures HexValue(s + [HexDigit(b / 16), HexDigit(b % 16)]) == 256 * HexValue(s) + b
  {
    DigitRoundTrip(b / 16);
    DigitRoundTrip(b % 16);
    var one := s + [HexDigit(b / 16)];
    var two := s + [HexDigit(b / 16), HexDigit(b % 16)];
    assert one[..|one| - 1] == s;
    assert two[..|two| - 1] == one;
  }

  /** Leading zeros do not change the value. */
  lemma {:induction false} HexStrip(s: string)
    requires AllHex(s) && s != "" && s[0] == '0'
    ensures HexValue(s) == HexValue(s[1..])
    decreases |s|
  {
    if |s| > 1 {
      HexStrip(s[..|s| - 1]);
      assert s[..|s| - 1][1..] == s[1..][..|s| - 2];
    } else {
      assert s[..0] == "" && s[1..] == "";
    }
  }

  lemma {:induction false} HexPositive(s: string)
    requires AllHex(s) && s != "" && s[0] != '0'
    ensures HexValue(s) > 0
    decreases |s|
  {
    if |s| > 1 {
      HexPositive(s[..|s| - 1]);
    } else {
      assert s[..0] == "";
    }
  }

  /** One step of the negation loop, from the last byte to the first. */
  lemma NegateStep(b: byte, b': byte, carry: bool, carry': bool, rest: seq<byte>, rest': seq<byte>)
    requires |rest| == |rest'|
    requires Unsigned(rest') + (if carry then Pow256(|rest|) else 0) == Pow256(|rest|) - Unsigned(rest)
    requires b' + (if carry' then 256 else 0) == 255 - b + (if carry then 1 else 0)
    ensures Unsigned([b'] + rest') + (if carry' then Pow256(|rest| + 1) else 0)
              == Pow256(|rest| + 1) - Unsigned([b] + rest)
  {
    var p := Pow256(|rest|);
    assert Pow256(|rest| + 1) == 256 * p;
    PrependByte(b, rest);
    PrependByte(b', rest');
    Balance(b, b', if carry then 1 else 0, if carry' then 1 else 0, p);
  }

  lemma PrependByte(b: byte, rest: seq<byte>)
    ensures Unsigned([b] + rest) == b * Pow256(|rest|) + Unsigned(rest)
  {
    LeadingByte([b] + rest);
    assert ([b] + rest)[1..] == rest;
  }

  lemma Balance(b: nat, b': nat, c: nat, c': nat, p: nat)
    requires b' + 256 * c' == 255 - b + c
    ensures b' * p + c' * (256 * p) == 255 * p - b * p + c * p
  {
    assert (b' + 256 * c') * p == (255 - b + c) * p;
  }

  lemma NothingYet(rest: seq<byte>)
    ensures rest == [] ==> Unsigned(rest) == 0 && Pow256(0) == 1
  {}

  /** Two's complement in place: invert each byte and carry the added one upwards. */
  method Negate(digest: array<byte>)
    requires digest.Length > 0 && Unsigned(digest[..]) > 0
    modifies digest
    ensures Unsigned(digest[..]) == Pow256(digest.Length) - Unsigned(old(digest[..]))
  {
    hide Unsigned, Pow256;
    ghost var data := digest[..];
    NothingYet(digest[digest.Length..]);
    assert digest[digest.Length..] == data[digest.Length..] == [];
    var carry := true;
    var i := digest.Length;
    while i > 0
      invariant 0 <= i <= digest.Length
      invariant digest[..i] == data[..i]
      invariant Unsigned(digest[i..]) + (if carry then Pow256(digest.Length - i) else 0)
             == Pow256(digest.Length - i) - Unsigned(data[i..])
    {
      ghost var rest, carried := digest[i..], carry;
      i := i - 1;
      assert digest[..i + 1][i] == data[..i + 1][i];
      digest[i] := 255 - digest[i];
      if carry {
        carry := digest[i] == 255;
        var inverted: int := digest[i];
        digest[i] := (inverted + 1) % 256;
      }
      assert digest[i..] == [digest[i]] + rest && data[i..] == [data[i]] + data[i + 1..];
      NegateStep(data[i], digest[i], carried, carry, data[i + 1..], rest);
    }
    assert digest[0..] == digest[..] && data[0..] == data;
    UnsignedBound(digest[..]);
  }

  method ToHex(digest: array<byte>) returns (result: string)
    ensures AllHex(result) && HexValue(result) == Unsigned(digest[..])
  {
    result := "";
    for i := 0 to digest.Length
      invariant AllHex(result) && HexValue(result) == Unsigned(digest[..i])
    {
      HexAppend(result, digest[i]);
      assert digest[..i + 1] == digest[..i] + [digest[i]];
      UnsignedAppend(digest[..i], digest[i]);
      result := result + [HexDigit(digest[i] / 16), HexDigit(digest[i] % 16)];
    }
    assert digest[..digest.Length] == digest[..];
  }

  /** The text of a nonzero digest is the numeral of its signed value; a zero digest prints as no text at all. */
  method DigestToProtocol(data: seq<byte>) returns (result: string)
    requires data != []
    ensures Signed(data) != 0 ==> IsNumeral(result) && Denotes(result) == Signed(data)
    ensures Signed(data) == 0 ==> result == ""
  {
    var digest := new byte[|data|](i requires 0 <= i < |data| => data[i]);
    assert digest[..] == data;
    SignedCases(data);
    var isNegative := digest[0] >= 0x80;
    if isNegative { Negate(digest); }
    ghost var magnitude := Unsigned(digest[..]);
    result := ToHex(digest);
    while |result| > 0 && result[0] == '0'
      invariant AllHex(result) && HexValue(result) == magnitude
      decreases |result|
    {
      HexStrip(result);
      result := result[1..];
    }
    ghost var digits := result;
    if isNegative { result := "-" + result; }
    assert Signed(data) == if isNegative then 0 - HexValue(digits) else HexValue(digits);
    NumeralOf(isNegative, digits);
  }

  lemma SignedCases(b: seq<byte>)
    requires b != []
    ensures Signed(b) == if b[0] >= 0x80 then Unsigned(b) - Pow256(|b|) else Unsigned(b)
    ensures b[0] >= 0x80 ==> Signed(b) < 0 < Unsigned(b)
  {
    SignByte(b);
    UnsignedBound(b);
  }

  /** Stripped digits with their sign in front. */
  lemma NumeralOf(isNegative: bool, digits: string)
    requires AllHex(digits) && (digits != "" ==> digits[0] != '0')
    requires isNegative ==> HexValue(digits) > 0
    ensures var s := if isNegative then "-" + digits else digits;
            if digits == "" then s == "" && HexValue(digits) == 0
            else IsNumeral(s) && HexValue(digits) > 0
                 && Denotes(s) == if isNegative then 0 - HexValue(digits) else HexValue(digits)
  {
    if digits != "" {
      HexPositive(digits);
      assert IsHex(digits[0]);
      assert ("-" + digits)[1..] == digits;
    }
  }

  /** Digests of one length with the same numeral are the same. */
  lemma NumeralsDistinguish(a: seq<byte>, b: seq<byte>)
    requires a != [] && |a| == |b| && Signed(a) == Signed(b)
    ensures a == b
  {
    BytesOfSigned(a);
    BytesOfSigned(b);
  }
}
