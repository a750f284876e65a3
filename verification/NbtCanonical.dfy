/** What was parsed prints back to the bytes it was read from, unless a negative array length was read. */
module NbtCanonical {
  import opened BigEndian
  import opened NbtTags
  import opened NbtGrammar
  import opened NbtRoundTrip

  lemma HasOther(data: seq<byte>, at: nat, a: seq<byte>)
    requires at + |a| <= |data|
    ensures Has(data, at, a) <==> data[at..at + |a|] == a
  {}

  lemma TwoBytes()
    ensures Pow256(2) == 0x1_0000
  {}

  lemma HeaderCanonical(data: seq<byte>, at: nat, id: byte)
    requires at <= |data| && Header(data, at, id, true, false).Name?
    ensures var h := Header(data, at, id, true, false);
            |h.name| < 0x1_0000 && h.next == at + 1 + |NameBytes(h.name)| && Has(data, at, [id] + NameBytes(h.name))
  {
    hide Unsigned, ToBytes, Pow256, Has;
    var h := Header(data, at, id, true, false);
    var b := data[at + 1..at + 3];
    UnsignedBound(b);
    TwoBytes();
    BytesOfUnsigned(b);
    HasOther(data, at + 1, b);
    HasOther(data, at + 3, h.name);
    HasSplit(data, at + 1, b, h.name);
    HasByte(data, at, id);
    HasSplit(data, at, [id], NameBytes(h.name));
  }

  lemma {:induction false} ValuesCanonical(b: seq<byte>, count: nat, width: nat)
    requires width > 0 && |b| == count * width
    ensures ValueBytes(ReadValues(b, count, width), width) == b
    ensures forall i :: 0 <= i < count ==> FitsSigned(ReadValues(b, count, width)[i], width)
  {
    hide Signed, FitsSigned, ToBytes;
    if count > 0 {
      assert count * width == (count - 1) * width + width;
      var front, last := b[..|b| - width], b[|b| - width..];
      ValuesCanonical(front, count - 1, width);
      BytesOfSigned(last);
      var vs := ReadValues(b, count, width);
      assert vs[..|vs| - 1] == ReadValues(front, count - 1, width);
      assert front + last == b;
    }
  }

  /** A length field read as `size` prints back as the same four bytes, unless it was negative. */
  lemma LengthCanonical(b: seq<byte>, count: nat)
    requires |b| == 4
    requires Signed(b) < 0 ==> count == 0
    requires Signed(b) >= 0 ==> count == Signed(b)
    ensures count < LENGTH_LIMIT
    ensures ToBytes(count, 4) == b <==> Signed(b) >= 0
  {
    assert Pow256(3) == 0x100_0000;
    BytesOfSigned(b);
    if Signed(b) < 0 {
      SignByte(b);
      assert ToBytes(0, 4) == [0, 0, 0, 0];
    }
  }

  lemma ArrayCanonical(data: seq<byte>, at: nat, e: ElementKind, name: seq<byte>)
    requires at <= |data| && |name| < 0x1_0000 && ArrayBody(data, at, e, name).Ok?
    ensures var r := ArrayBody(data, at, e, name);
            WellFormed(r.tag) && at + |Payload(r.tag)| == r.next && (Has(data, at, Payload(r.tag)) <==> !r.negative)
  {
    hide Signed, ToBytes, FitsSigned, ReadValues, ValueBytes;
    var r := ArrayBody(data, at, e, name);
    var size := Signed(data[at..at + 4]);
    var width := ElementWidth(e);
    LengthCanonical(data[at..at + 4], if size < 0 then 0 else size);
    HasSplit(data, at, ToBytes(|r.tag.values|, 4), ValueBytes(r.tag.values, width));
    if size >= 0 { ValuesCanonical(data[at + 4..r.next], size, width); }
  }

  lemma ScalarCanonical(data: seq<byte>, at: nat, id: byte, name: seq<byte>)
    requires at <= |data| && 1 <= id <= 6 && |name| < 0x1_0000 && Body(data, at, id, name).Ok?
    ensures var r := Body(data, at, id, name);
            WellFormed(r.tag) && at + |Payload(r.tag)| == r.next && Has(data, at, Payload(r.tag)) && !r.negative
  {
    hide Signed, ToBytes, FitsSigned, Pow256, Unsigned;
    var b := data[at..at + KindWidth(KindOf(id))];
    UnsignedBound(b);
    BytesOfUnsigned(b);
    BytesOfSigned(b);
  }

  lemma TextCanonical(data: seq<byte>, at: nat, name: seq<byte>)
    requires at <= |data| && |name| < 0x1_0000 && Body(data, at, TEXT, name).Ok?
    ensures var r := Body(data, at, TEXT, name);
            WellFormed(r.tag) && at + |Payload(r.tag)| == r.next && Has(data, at, Payload(r.tag)) && !r.negative
  {
    hide ToBytes, Unsigned;
    var r := Body(data, at, TEXT, name);
    var b := data[at..at + 2];
    UnsignedBound(b);
    assert Pow256(2) == 0x1_0000;
    BytesOfUnsigned(b);
    HasSplit(data, at, b, r.tag.text);
  }

  /** Everything a parser returns is well formed, whether or not it can be printed. */
  lemma {:induction false} BodyWellFormed(data: seq<byte>, at: nat, id: byte, name: seq<byte>)
    requires IsType(id) && at <= |data| && |name| < 0x1_0000 && Body(data, at, id, name).Ok?
    ensures WellFormed(Body(data, at, id, name).tag)
    decreases |data| - at, 4
  {
    hide Signed, ToBytes, FitsSigned, FitsUnsigned, Pow256, Unsigned, ArrayBody, ReadScalar;
    if id <= 6 {
      ScalarCanonical(data, at, id, name);
    } else if id == 7 || id == 11 || id == 12 {
      ArrayCanonical(data, at, ElementOf(id), name);
    } else if id == TEXT {
      TextCanonical(data, at, name);
    } else if id == LIST {
      var size := Signed(data[at + 1..at + 5]);
      LengthCanonical(data[at + 1..at + 5], if size < 0 then 0 else size);
      ItemsWellFormed(data, at + 5, data[at], if size < 0 then 0 else size);
    } else {
      FieldsWellFormed(data, at);
    }
  }

  lemma {:induction false} TagWellFormed(data: seq<byte>, at: nat, id: byte, includeName: bool)
    requires IsType(id) && at <= |data| && ParseAs(data, at, id, includeName, !includeName).Ok?
    ensures var t := ParseAs(data, at, id, includeName, !includeName).tag;
            WellFormed(t) && (!includeName ==> t.name == [])
    decreases |data| - at, if includeName then 1 else 5
  {
    hide WellFormed, Body;
    var h := Header(data, at, id, includeName, !includeName);
    if includeName { HeaderCanonical(data, at, id); }
    BodyWellFormed(data, h.next, id, h.name);
  }

  lemma {:induction false} ItemsWellFormed(data: seq<byte>, at: nat, id: byte, count: nat)
    requires at <= |data| && Items(data, at, id, count).Oks?
    ensures forall i :: 0 <= i < count ==>
              var t := Items(data, at, id, count).tags[i]; WellFormed(t) && t.name == [] && TypeId(t) == id
    decreases |data| - at, 6
  {
    hide WellFormed, ParseAs;
    if count > 0 {
      TagWellFormed(data, at, id, false);
      ItemsWellFormed(data, ParseAs(data, at, id, false, true).next, id, count - 1);
    }
  }

  lemma {:induction false} FieldsWellFormed(data: seq<byte>, at: nat)
    requires at <= |data| && Fields(data, at).Oks?
    ensures forall i :: 0 <= i < |Fields(data, at).tags| ==> WellFormed(Fields(data, at).tags[i])
    decreases |data| - at, 3
  {
    hide WellFormed, ParseAs;
    if data[at] != END {
      TagWellFormed(data, at, data[at], true);
      FieldsWellFormed(data, Parse(data, at).next);
    }
  }

  // ----- Parsing, then printing -----

  lemma {:induction false} BodyCanonical(data: seq<byte>, at: nat, id: byte, name: seq<byte>)
    requires IsType(id) && at <= |data| && |name| < 0x1_0000 && Body(data, at, id, name).Ok?
    requires NoEmptyList(Body(data, at, id, name).tag)
    ensures var r := Body(data, at, id, name);
            at + |Payload(r.tag)| == r.next && (Has(data, at, Payload(r.tag)) <==> !r.negative)
    decreases |data| - at, 4
  {
    hide Signed, ToBytes, FitsSigned, FitsUnsigned, Pow256, Unsigned, ArrayBody, ReadScalar, WellFormed, Has;
    if id <= 6 {
      ScalarCanonical(data, at, id, name);
    } else if id == 7 || id == 11 || id == 12 {
      ArrayCanonical(data, at, ElementOf(id), name);
    } else if id == TEXT {
      TextCanonical(data, at, name);
    } else if id == LIST {
      ListCanonical(data, at, name);
    } else {
      FieldsCanonical(data, at);
    }
  }

  lemma {:induction false} ListCanonical(data: seq<byte>, at: nat, name: seq<byte>)
    requires at <= |data| && |name| < 0x1_0000 && Body(data, at, LIST, name).Ok?
    requires NoEmptyList(Body(data, at, LIST, name).tag)
    ensures var r := Body(data, at, LIST, name);
            at + |Payload(r.tag)| == r.next && (Has(data, at, Payload(r.tag)) <==> !r.negative)
    decreases |data| - at, 3
  {
    hide Signed, ToBytes, Pow256, Unsigned, WellFormed, Has, AllBytes, Items;
    var size := Signed(data[at + 1..at + 5]);
    var ts := Body(data, at, LIST, name).tag.items;
    assert size > 0;
    LengthCanonical(data[at + 1..at + 5], size);
    ItemsWellFormed(data, at + 5, data[at], size);
    ItemsCanonical(data, at + 5, data[at], size);
    HasByte(data, at, data[at]);
    HasOther(data, at + 1, ToBytes(size, 4));
    HasSplit(data, at, [data[at]] + ToBytes(size, 4), AllBytes(ts, false));
    HasSplit(data, at, [data[at]], ToBytes(size, 4));
  }

  lemma {:induction false} TagCanonical(data: seq<byte>, at: nat, id: byte, includeName: bool)
    requires IsType(id) && at <= |data| && ParseAs(data, at, id, includeName, !includeName).Ok?
    requires NoEmptyList(ParseAs(data, at, id, includeName, !includeName).tag)
    ensures var r := ParseAs(data, at, id, includeName, !includeName);
            at + |Bytes(r.tag, includeName)| == r.next && (Has(data, at, Bytes(r.tag, includeName)) <==> !r.negative)
    decreases |data| - at, if includeName then 1 else 5
  {
    hide NoEmptyList, Body, Has, Payload;
    var h := Header(data, at, id, includeName, !includeName);
    var t := ParseAs(data, at, id, includeName, !includeName).tag;
    if includeName {
      HeaderCanonical(data, at, id);
      HasSplit(data, at, [id] + NameBytes(h.name), Payload(t));
    } else {
      assert Bytes(t, false) == Payload(t);
    }
    BodyCanonical(data, h.next, id, h.name);
  }

  lemma {:induction false} ItemsCanonical(data: seq<byte>, at: nat, id: byte, count: nat)
    requires at <= |data| && Items(data, at, id, count).Oks?
    requires forall i :: 0 <= i < count ==> NoEmptyList(Items(data, at, id, count).tags[i])
    ensures var r := Items(data, at, id, count);
            at + |AllBytes(r.tags, false)| == r.next && (Has(data, at, AllBytes(r.tags, false)) <==> !r.negative)
    decreases |data| - at, 6
  {
    hide NoEmptyList, ParseAs, Bytes, Items, AllBytes, Has, TypeId;
    ItemsStep(data, at, id, count);
    if count == 0 {
      NoTags(data, at);
    } else {
      var first := ParseAs(data, at, id, false, true);
      var rest := Items(data, first.next, id, count - 1);
      HeadAndTail(first.tag, first.negative, rest);
      TagCanonical(data, at, id, false);
      ItemsCanonical(data, first.next, id, count - 1);
      TagsCanonical(data, at, first, rest, false);
    }
  }

  lemma HeadAndTail(tag: Tag, negative: bool, rest: Results)
    requires rest.Oks?
    ensures Before(tag, negative, rest).tags[0] == tag
    ensures forall i :: 0 <= i < |rest.tags| ==> rest.tags[i] == Before(tag, negative, rest).tags[i + 1]
  {}

  lemma NoTags(data: seq<byte>, at: nat)
    requires at <= |data|
    ensures AllBytes([], false) == [] && Has(data, at, [])
  {}

  /** One tag and the tags after it. */
  lemma TagsCanonical(data: seq<byte>, at: nat, first: Result, rest: Results, includeName: bool)
    requires first.Ok? && rest.Oks? && NoEmptyList(first.tag) && forall i :: 0 <= i < |rest.tags| ==>
               NoEmptyList(rest.tags[i])
    requires at + |Bytes(first.tag, includeName)| == first.next
    requires Has(data, at, Bytes(first.tag, includeName)) <==> !first.negative
    requires Has(data, first.next, AllBytes(rest.tags, includeName)) <==> !rest.negative
    ensures var all := Before(first.tag, first.negative, rest);
            AllBytes(all.tags, includeName) == Bytes(first.tag, includeName) + AllBytes(rest.tags, includeName)
            && (Has(data, at, AllBytes(all.tags, includeName)) <==> !all.negative)
  {
    hide NoEmptyList, Bytes, Has;
    var all := Before(first.tag, first.negative, rest);
    assert all.tags[1..] == rest.tags;
    HasSplit(data, at, Bytes(first.tag, includeName), AllBytes(rest.tags, includeName));
  }

  lemma {:induction false} FieldsCanonical(data: seq<byte>, at: nat)
    requires at <= |data| && Fields(data, at).Oks?
    requires forall i :: 0 <= i < |Fields(data, at).tags| ==> NoEmptyList(Fields(data, at).tags[i])
    ensures var r := Fields(data, at);
            at + |AllBytes(r.tags, true)| + 1 == r.next
                && (Has(data, at, AllBytes(r.tags, true) + [END]) <==> !r.negative)
    ensures var r := Fields(data, at);
              data[r.next - 1] == END && (Has(data, at, AllBytes(r.tags, true)) <==> !r.negative)
    decreases |data| - at, 3
  {
    hide NoEmptyList, ParseAs, Bytes, Has;
    var r := Fields(data, at);
    if data[at] == END {
      HasByte(data, at, END);
      HasEmpty(data, at);
    } else {
      var first := Parse(data, at);
      var rest := Fields(data, first.next).tags;
      assert r.tags[0] == first.tag && forall i :: 0 <= i < |rest| ==> rest[i] == r.tags[i + 1];
      TagCanonical(data, at, data[at], true);
      FieldsCanonical(data, first.next);
      TagsCanonical(data, at, first, Fields(data, first.next), true);
      HasByte(data, r.next - 1, END);
    }
    HasByte(data, r.next - 1, END);
    HasSplit(data, at, AllBytes(r.tags, true), [END]);
  }

  lemma HasEmpty(data: seq<byte>, at: nat)
    requires at <= |data|
    ensures Has(data, at, [])
  {}

  // ----- The two laws -----

  /** Round trip: a printed tag, with anything before and after it, parses back to itself and leaves the cursor
      at what follows, exactly when the tag is well formed. */
  lemma RoundTrip(before: seq<byte>, t: Tag, after: seq<byte>)
    requires NoEmptyList(t)
    ensures Parse(before + Bytes(t, true) + after, |before|) == Ok(t, |before + Bytes(t, true)|, false) <==>
            WellFormed(t)
  {
    hide WellFormed, ParseAs, Bytes;
    var data := before + Bytes(t, true) + after;
    assert data[|before|..|before| + |Bytes(t, true)|] == Bytes(t, true);
    FirstByte(t);
    assert data[|before|] == Bytes(t, true)[0];
    if WellFormed(t) {
      TagRoundTrip(data, |before|, t, true);
    }
    if Parse(data, |before|) == Ok(t, |before + Bytes(t, true)|, false) {
      TagWellFormed(data, |before|, data[|before|], true);
    }
  }

  lemma FirstByte(t: Tag)
    requires NoEmptyList(t)
    ensures Bytes(t, true) != [] && Bytes(t, true)[0] == TypeId(t)
  {
    hide Payload;
  }

  /** Canonicity: whatever was accepted and can be printed prints to as many bytes as were consumed, and to
      the same bytes exactly when no negative array length was read. */
  lemma Canonical(data: seq<byte>, at: nat)
    requires at <= |data| && Parse(data, at).Ok? && NoEmptyList(Parse(data, at).tag)
    ensures var r := Parse(data, at);
            at + |Bytes(r.tag, true)| == r.next && WellFormed(r.tag)
            && (data[at..r.next] == Bytes(r.tag, true) <==> !r.negative)
  {
    hide WellFormed, ParseAs, Bytes;
    TagCanonical(data, at, data[at], true);
    TagWellFormed(data, at, data[at], true);
  }

  // ----- Where canonicity fails -----

  /** The signed number in the four bytes at `p`. */
  function LengthAt(data: seq<byte>, p: nat): int
    requires p + 4 <= |data|
  {
    Signed(data[p..p + 4])
  }

  /** The positions at which parsing a payload reads the length of an array or a list. */
  function BodyLengths(data: seq<byte>, at: nat, id: byte): (ps: set<nat>)
    requires IsType(id) && at <= |data|
    ensures forall p :: p in ps ==> p + 4 <= |data|
    decreases |data| - at, 4
  {
    if (id == 7 || id == 11 || id == 12) && at + 4 <= |data| then {at}
    else if id == LIST && at + 5 <= |data| then
      var size := LengthAt(data, at + 1);
      {at + 1} + ItemsLengths(data, at + 5, data[at], if size < 0 then 0 else size)
    else if id == COMPOUND then FieldsLengths(data, at)
    else {}
  }

  /** The same for a tag with its header, as a list element or not. */
  function TagLengths(data: seq<byte>, at: nat, id: byte, includeName: bool): (ps: set<nat>)
    requires IsType(id) && at <= |data|
    ensures forall p :: p in ps ==> p + 4 <= |data|
    decreases |data| - at, if includeName then 1 else 5
  {
    var h := Header(data, at, id, includeName, !includeName);
    if h.NoName? then {} else BodyLengths(data, h.next, id)
  }

  function ItemsLengths(data: seq<byte>, at: nat, id: byte, count: nat): (ps: set<nat>)
    requires at <= |data|
    ensures forall p :: p in ps ==> p + 4 <= |data|
    decreases |data| - at, 6
  {
    if count == 0 || !IsType(id) then {}
    else
      var first := ParseAs(data, at, id, false, true);
      if first.Fail? then {} else TagLengths(data, at, id, false) + ItemsLengths(data, first.next, id, count - 1)
  }

  function FieldsLengths(data: seq<byte>, at: nat): (ps: set<nat>)
    requires at <= |data|
    ensures forall p :: p in ps ==> p + 4 <= |data|
    decreases |data| - at, 3
  {
    if at >= |data| || !IsType(data[at]) then {}
    else
      var first := Parse(data, at);
      if first.Fail? then {} else TagLengths(data, at, data[at], true) + FieldsLengths(data, first.next)
  }

  ghost predicate NoNegative(data: seq<byte>, ps: set<nat>)
    requires forall p :: p in ps ==> p + 4 <= |data|
  {
    forall p :: p in ps ==> LengthAt(data, p) >= 0
  }

  lemma {:induction false} BodyFlag(data: seq<byte>, at: nat, id: byte, name: seq<byte>)
    requires IsType(id) && at <= |data| && Body(data, at, id, name).Ok?
    ensures Body(data, at, id, name).negative <==> !NoNegative(data, BodyLengths(data, at, id))
    decreases |data| - at, 4
  {
    hide Signed, Unsigned, ReadScalar, ReadValues;
    if id == 7 || id == 11 || id == 12 {
      assert BodyLengths(data, at, id) == {at};
    } else if id == LIST {
      var size := LengthAt(data, at + 1);
      ItemsFlag(data, at + 5, data[at], if size < 0 then 0 else size);
    } else if id == COMPOUND {
      FieldsFlag(data, at);
    }
  }

  lemma {:induction false} TagFlag(data: seq<byte>, at: nat, id: byte, includeName: bool)
    requires IsType(id) && at <= |data| && ParseAs(data, at, id, includeName, !includeName).Ok?
    ensures ParseAs(data, at, id, includeName, !includeName).negative
            <==> !NoNegative(data, TagLengths(data, at, id, includeName))
    decreases |data| - at, if includeName then 1 else 5
  {
    hide Body, LengthAt, BodyLengths, NoNegative;
    var h := Header(data, at, id, includeName, !includeName);
    BodyFlag(data, h.next, id, h.name);
  }

  lemma {:induction false} ItemsFlag(data: seq<byte>, at: nat, id: byte, count: nat)
    requires at <= |data| && Items(data, at, id, count).Oks?
    ensures Items(data, at, id, count).negative <==> !NoNegative(data, ItemsLengths(data, at, id, count))
    decreases |data| - at, 6
  {
    hide ParseAs, LengthAt, TagLengths;
    if count > 0 {
      TagFlag(data, at, id, false);
      ItemsFlag(data, ParseAs(data, at, id, false, true).next, id, count - 1);
    }
  }

  lemma {:induction false} FieldsFlag(data: seq<byte>, at: nat)
    requires at <= |data| && Fields(data, at).Oks?
    ensures Fields(data, at).negative <==> !NoNegative(data, FieldsLengths(data, at))
    decreases |data| - at, 3
  {
    hide ParseAs, LengthAt, TagLengths;
    if data[at] != END {
      TagFlag(data, at, data[at], true);
      FieldsFlag(data, Parse(data, at).next);
    }
  }

  /** Bytes that are accepted as a tag without empty lists print back exactly when no length that is read from them is
      negative. */
  lemma PrintsBackIffNoNegativeLength(data: seq<byte>, at: nat)
    requires at <= |data| && Parse(data, at).Ok? && NoEmptyList(Parse(data, at).tag)
    ensures var r := Parse(data, at);
            data[at..r.next] == Bytes(r.tag, true) <==> NoNegative(data, TagLengths(data, at, data[at], true))
  {
    hide ParseAs, Bytes, NoEmptyList, NoNegative, TagLengths;
    Canonical(data, at);
    TagFlag(data, at, data[at], true);
  }

  /** One such input: an unnamed array of -1 ints is accepted as an empty array, and prints with length 0. */
  lemma NegativeLengthFails()
    ensures var data: seq<byte>, t := [11, 0, 0, 255, 255, 255, 255], Array([], IntElement, []);
            Parse(data, 0) == Ok(t, 7, true) && Bytes(t, true) == [11, 0, 0, 0, 0, 0, 0]
  {
    hide Signed, ToBytes, Unsigned, ReadValues, Pow256;
    var data: seq<byte> := [11, 0, 0, 255, 255, 255, 255];
    assert data[1..3] == [0, 0] && data[3..3] == [] && data[3..7] == [255, 255, 255, 255];
    MinusOne();
    Zeros();
  }

  lemma MinusOne()
    ensures Signed([255, 255, 255, 255]) == -1
  {
    assert Pow256(2) == 0x1_0000;
    assert Pow256(3) == 0x100_0000;
    var b: seq<byte> := [255, 255, 255, 255];
    assert b[..1] == [255] && b[..1][..0] == [];
    assert b[..2][..1] == b[..1] && b[..3][..2] == b[..2];
    assert Unsigned(b[..1]) == 0xFF;
    assert Unsigned(b[..2]) == 0xFFFF;
    assert Unsigned(b[..3]) == 0xFF_FFFF;
  }

  lemma Zeros()
    ensures ToBytes(0, 2) == [0, 0] && ToBytes(0, 4) == [0, 0, 0, 0] && Unsigned([0, 0]) == 0
  {
    assert ToBytes(0, 1) == [0];
    assert ToBytes(0, 3) == [0, 0, 0];
  }
}
