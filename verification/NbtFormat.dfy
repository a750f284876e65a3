/** The format in numbers: which byte announces which tag, how long payloads are, and some tags byte by byte. */
module NbtFormat {
  import opened BigEndian
  import opened NbtTags
  import opened NbtGrammar
  import opened NbtRoundTrip
  import opened NbtCanonical

  // ----- Every tag -----

  /** The type byte of each class, as the enumeration numbers them. */
  lemma TypeBytes(t: Tag)
    requires NoEmptyList(t)
    ensures Bytes(t, true) != []
    ensures Bytes(t, true)[0] == match t
                                 case Scalar(_, ByteKind, _) => 1
                                 case Scalar(_, ShortKind, _) => 2
                                 case Scalar(_, IntKind, _) => 3
                                 case Scalar(_, LongKind, _) => 4
                                 case Scalar(_, FloatKind, _) => 5
                                 case Scalar(_, DoubleKind, _) => 6
                                 case Array(_, ByteElement, _) => 7
                                 case Text(_, _) => 8
                                 case List(_, _) => 9
                                 case Compound(_, _) => 10
                                 case Array(_, IntElement, _) => 11
                                 case Array(_, LongElement, _) => 12
  {
    FirstByte(t);
  }

  /** What parsing returns is of the class that the first byte announces. */
  lemma TypeOfParsed(data: seq<byte>, at: nat)
    requires at <= |data| && Parse(data, at).Ok?
    ensures var t := Parse(data, at).tag;
            match data[at]
            case 1 => t.Scalar? && t.kind == ByteKind
            case 2 => t.Scalar? && t.kind == ShortKind
            case 3 => t.Scalar? && t.kind == IntKind
            case 4 => t.Scalar? && t.kind == LongKind
            case 5 => t.Scalar? && t.kind == FloatKind
            case 6 => t.Scalar? && t.kind == DoubleKind
            case 7 => t.Array? && t.element == ByteElement
            case 8 => t.Text?
            case 9 => t.List?
            case 10 => t.Compound?
            case 11 => t.Array? && t.element == IntElement
            case 12 => t.Array? && t.element == LongElement
            case _ => false
  {
    hide ParseAs;
  }

  /** The header is the type byte, the length of the name in two bytes, and the name; the payload follows. */
  lemma HeaderBytes(t: Tag)
    requires NoEmptyList(t) && |t.name| < 0x1_0000
    ensures var b, n := Bytes(t, true), |t.name|;
            && |b| == 3 + n + |Payload(t)| && b[1] == n / 256 && b[2] == n % 256
            && b[3..3 + n] == t.name && b[3 + n..] == Payload(t)
  {
    hide Payload, NoEmptyList, ToBytes;
    TwoByteNumber(|t.name|);
  }

  /** The length of a payload, by its class. */
  lemma PayloadLengths(t: Tag)
    requires NoEmptyList(t)
    ensures |Payload(t)| == match t
                            case Scalar(_, ByteKind, _) => 1
                            case Scalar(_, ShortKind, _) => 2
                            case Scalar(_, IntKind, _) => 4
                            case Scalar(_, LongKind, _) => 8
                            case Scalar(_, FloatKind, _) => 4
                            case Scalar(_, DoubleKind, _) => 8
                            case Array(_, ByteElement, vs) => 4 + |vs| * 1
                            case Array(_, IntElement, vs) => 4 + |vs| * 4
                            case Array(_, LongElement, vs) => 4 + |vs| * 8
                            case Text(_, s) => 2 + |s|
                            case List(_, ts) => 1 + 4 + |AllBytes(ts, false)|
                            case Compound(_, ts) => |AllBytes(ts, true)| + 1
    ensures t.List? ==> Payload(t)[0] == TypeId(t.items[0])
    ensures t.Compound? ==> Payload(t)[|Payload(t)| - 1] == 0
  {
    hide ToBytes, ValueBytes, AllBytes;
  }

  lemma TwoByteNumber(v: nat)
    requires v < 0x1_0000
    ensures ToBytes(v, 2) == [v / 256, v % 256]
  {
    assert ToBytes(v / 256, 1) == [v / 256];
  }

  lemma FourByteNumber(v: nat)
    requires v < 256
    ensures ToBytes(v, 4) == [0, 0, 0, v]
  {
    assert ToBytes(0, 1) == [0];
    assert ToBytes(0, 2) == [0, 0];
    assert ToBytes(0, 3) == [0, 0, 0];
  }

  // ----- Some tags -----

  /** A tag with these bytes, and nothing else, is parsed from them. */
  lemma ParsedFrom(t: Tag, bytes: seq<byte>)
    requires NoEmptyList(t) && WellFormed(t) && Bytes(t, true) == bytes
    ensures Parse(bytes, 0) == Ok(t, |bytes|, false)
  {
    hide WellFormed, NoEmptyList, Bytes;
    RoundTrip([], t, []);
    assert [] + bytes + [] == bytes && [] + bytes == bytes;
  }

  lemma ShortName(name: seq<byte>)
    requires |name| < 256
    ensures NameBytes(name) == [0, |name|] + name
  {
    hide ToBytes;
    TwoByteNumber(|name|);
  }

  lemma EmptyCompoundInBytes()
    ensures Parse([10, 0, 0, 0], 0) == Ok(Compound([], []), 4, false)
  {
    hide NameBytes, ToBytes, Parse;
    var t := Compound([], []);
    ShortName([]);
    assert Payload(t) == [0];
    assert Bytes(t, true) == [10, 0, 0, 0];
    ParsedFrom(t, [10, 0, 0, 0]);
  }

  /** A compound named "hi" with the byte -1 named "b". */
  lemma CompoundInBytes()
    ensures Parse([10, 0, 2, 104, 105, 1, 0, 1, 98, 255, 0], 0)
         == Ok(Compound([104, 105], [Scalar([98], ByteKind, -1)]), 11, false)
  {
    hide NameBytes, ToBytes, Parse, FitsSigned;
    var b := Scalar([98], ByteKind, -1);
    var t := Compound([104, 105], [b]);
    ShortName([98]);
    ShortName([104, 105]);
    MinusOneByte();
    assert Bytes(b, true) == [1, 0, 1, 98, 255];
    assert [b][1..] == [] && AllBytes([b], true) == [1, 0, 1, 98, 255] + AllBytes([b][1..], true);
    assert Payload(t) == [1, 0, 1, 98, 255, 0];
    var bytes := [10, 0, 2, 104, 105, 1, 0, 1, 98, 255, 0];
    assert Bytes(t, true) == bytes;
    ParsedFrom(t, bytes);
  }

  lemma MinusOneByte()
    ensures ToBytes(-1, 1) == [255] && FitsSigned(-1, 1)
  {}

  /** A list of the shorts 258 and -2. */
  lemma ListInBytes()
    ensures Parse([9, 0, 0, 2, 0, 0, 0, 2, 1, 2, 255, 254], 0)
         == Ok(List([], [Scalar([], ShortKind, 258), Scalar([], ShortKind, -2)]), 12, false)
  {
    hide NameBytes, ToBytes, Parse, FitsSigned, AllBytes;
    var t := List([], [Scalar([], ShortKind, 258), Scalar([], ShortKind, -2)]);
    ShortName([]);
    Shorts();
    ShortsInList();
    FourByteNumber(2);
    assert Payload(t) == [2, 0, 0, 0, 2, 1, 2, 255, 254];
    var bytes := [9, 0, 0, 2, 0, 0, 0, 2, 1, 2, 255, 254];
    assert Bytes(t, true) == bytes;
    ParsedFrom(t, bytes);
  }

  lemma ShortsInList()
    ensures AllBytes([Scalar([], ShortKind, 258), Scalar([], ShortKind, -2)], false) == [1, 2, 255, 254]
  {
    hide ToBytes;
    var a, b := Scalar([], ShortKind, 258), Scalar([], ShortKind, -2);
    Shorts();
    assert Bytes(a, false) == [1, 2] && Bytes(b, false) == [255, 254];
    assert [a, b][1..] == [b] && [b][1..] == [];
    assert AllBytes([b], false) == [255, 254];
  }

  lemma Shorts()
    ensures ToBytes(258, 2) == [1, 2] && FitsSigned(258, 2)
    ensures ToBytes(-2, 2) == [255, 254] && FitsSigned(-2, 2)
  {
    assert Pow256(1) == 256;
    assert ToBytes(-1, 1) == [255] && ToBytes(1, 1) == [1];
  }

  /** The string "hi". */
  lemma TextInBytes()
    ensures Parse([8, 0, 0, 0, 2, 104, 105], 0) == Ok(Text([], [104, 105]), 7, false)
  {
    hide NameBytes, ToBytes, Parse;
    var t := Text([], [104, 105]);
    ShortName([]);
    TwoByteNumber(2);
    assert Payload(t) == [0, 2, 104, 105];
    assert Bytes(t, true) == [8, 0, 0, 0, 2, 104, 105];
    ParsedFrom(t, [8, 0, 0, 0, 2, 104, 105]);
  }

  /** An array with the one int whose bytes are 1, 2, 3 and 4. */
  lemma ArrayInBytes()
    ensures Parse([11, 0, 0, 0, 0, 0, 1, 1, 2, 3, 4], 0) == Ok(Array([], IntElement, [0x01020304]), 11, false)
  {
    hide NameBytes, ToBytes, Parse, FitsSigned;
    var t := Array([], IntElement, [0x01020304]);
    ShortName([]);
    FourByteNumber(1);
    OneInt();
    assert [0x01020304][..0] == [] && ValueBytes([0x01020304], 4) == ValueBytes([], 4) + [1, 2, 3, 4];
    assert Payload(t) == [0, 0, 0, 1, 1, 2, 3, 4];
    var bytes := [11, 0, 0, 0, 0, 0, 1, 1, 2, 3, 4];
    assert Bytes(t, true) == bytes;
    ParsedFrom(t, bytes);
  }

  lemma OneInt()
    ensures ToBytes(0x01020304, 4) == [1, 2, 3, 4] && FitsSigned(0x01020304, 4)
  {
    assert Pow256(3) == 0x100_0000;
    assert ToBytes(0x01, 1) == [1];
    assert ToBytes(0x0102, 2) == [1, 2];
    assert ToBytes(0x010203, 3) == [1, 2, 3];
  }
}
