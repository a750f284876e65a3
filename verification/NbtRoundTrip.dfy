/** Printing and parsing of tags are inverse to each other. */
module NbtRoundTrip {
  import opened BigEndian
  import opened NbtTags
  import opened NbtGrammar

  /** The bytes `b` stand in `data` from `at` on. */
  ghost predicate Has(data: seq<byte>, at: nat, b: seq<byte>) {
    at + |b| <= |data| && data[at..at + |b|] == b
  }

  lemma HasSplit(data: seq<byte>, at: nat, a: seq<byte>, b: seq<byte>)
    ensures Has(data, at, a + b) <==> Has(data, at, a) && Has(data, at + |a|, b)
  {
    if Has(data, at, a + b) {
      assert data[at..at + |a|] == data[at..at + |a + b|][..|a|];
      assert data[at + |a|..at + |a| + |b|] == data[at..at + |a + b|][|a|..];
    }
    if Has(data, at, a) && Has(data, at + |a|, b) {
      assert data[at..at + |a| + |b|] == data[at..at + |a|] + data[at + |a|..at + |a| + |b|];
    }
  }

  lemma HasByte(data: seq<byte>, at: nat, x: byte)
    ensures Has(data, at, [x]) <==> at < |data| && data[at] == x
  {
    if at < |data| { assert data[at..at + 1] == [data[at]]; }
  }

  // ----- Printing, then parsing -----

  lemma NameRoundTrip(data: seq<byte>, at: nat, name: seq<byte>)
    requires |name| < 0x1_0000 && Has(data, at, NameBytes(name))
    ensures ReadName(data, at) == Name(name, at + |NameBytes(name)|)
  {
    HasSplit(data, at, ToBytes(|name|, 2), name);
    assert Pow256(2) == 0x1_0000;
    UnsignedOfBytes(|name|, 2);
  }

  lemma HeaderRoundTrip(data: seq<byte>, at: nat, id: byte, name: seq<byte>, payload: seq<byte>)
    requires |name| < 0x1_0000 && Has(data, at, [id] + NameBytes(name) + payload)
    ensures Header(data, at, id, true, false) == Name(name, at + 1 + |NameBytes(name)|)
    ensures Has(data, at + 1 + |NameBytes(name)|, payload)
  {
    HasSplit(data, at, [id] + NameBytes(name), payload);
    HasSplit(data, at, [id], NameBytes(name));
    HasByte(data, at, id);
    NameRoundTrip(data, at + 1, name);
  }

  lemma {:induction false} ValuesRoundTrip(vs: seq<int>, width: nat)
    requires width > 0 && forall i :: 0 <= i < |vs| ==> FitsSigned(vs[i], width)
    ensures ReadValues(ValueBytes(vs, width), |vs|, width) == vs
  {
    hide Signed, FitsSigned, ToBytes;
    if vs != [] {
      var front, last := vs[..|vs| - 1], vs[|vs| - 1];
      ValuesRoundTrip(front, width);
      SignedOfBytes(last, width);
      ReadValuesAppend(ValueBytes(front, width), |front|, ToBytes(last, width));
      assert front + [last] == vs;
    }
  }

  lemma LengthBytes(n: nat)
    requires n < LENGTH_LIMIT
    ensures Signed(ToBytes(n, 4)) == n
  {
    assert Pow256(3) == 0x100_0000;
    SignedOfBytes(n, 4);
  }

  lemma ArrayRoundTrip(data: seq<byte>, at: nat, t: Tag)
    requires t.Array? && WellFormed(t) && Has(data, at, Payload(t))
    ensures ArrayBody(data, at, t.element, t.name) == Ok(t, at + |Payload(t)|, false)
  {
    hide Signed, ToBytes, FitsSigned, ReadValues, ValueBytes;
    var width := ElementWidth(t.element);
    HasSplit(data, at, ToBytes(|t.values|, 4), ValueBytes(t.values, width));
    LengthBytes(|t.values|);
    ValuesRoundTrip(t.values, width);
  }

  lemma ScalarRoundTrip(data: seq<byte>, at: nat, t: Tag)
    requires t.Scalar? && WellFormed(t) && Has(data, at, Payload(t))
    ensures Body(data, at, TypeId(t), t.name) == Ok(t, at + |Payload(t)|, false)
  {
    hide Pow256, ToBytes, Unsigned, Signed, FitsSigned, Header, ArrayBody, Items, Fields;
    if IsFloating(t.kind) {
      UnsignedOfBytes(t.value, KindWidth(t.kind));
    } else {
      SignedOfBytes(t.value, KindWidth(t.kind));
    }
  }

  lemma TextRoundTrip(data: seq<byte>, at: nat, t: Tag)
    requires t.Text? && WellFormed(t) && Has(data, at, Payload(t))
    ensures Body(data, at, TypeId(t), t.name) == Ok(t, at + |Payload(t)|, false)
  {
    HasSplit(data, at, ToBytes(|t.text|, 2), t.text);
    assert Pow256(2) == 0x1_0000;
    UnsignedOfBytes(|t.text|, 2);
  }

  lemma {:induction false} PayloadRoundTrip(data: seq<byte>, at: nat, t: Tag)
    requires WellFormed(t) && NoEmptyList(t) && Has(data, at, Payload(t))
    ensures Body(data, at, TypeId(t), t.name) == Ok(t, at + |Payload(t)|, false)
    decreases t, 0
  {
    hide Signed, ToBytes, FitsSigned, Unsigned, Pow256, ArrayBody, AllBytes;
    match t
    case Scalar(_, _, _) => ScalarRoundTrip(data, at, t);
    case Array(_, _, _) => ArrayRoundTrip(data, at, t);
    case Text(_, _) => TextRoundTrip(data, at, t);
    case List(_, ts) =>
      HasSplit(data, at, [TypeId(ts[0])] + ToBytes(|ts|, 4), AllBytes(ts, false));
      HasSplit(data, at, [TypeId(ts[0])], ToBytes(|ts|, 4));
      HasByte(data, at, TypeId(ts[0]));
      LengthBytes(|ts|);
      ItemsRoundTrip(data, at + 5, ts, TypeId(ts[0]));
    case Compound(_, ts) =>
      HasSplit(data, at, AllBytes(ts, true), [END]);
      HasByte(data, at + |AllBytes(ts, true)|, END);
      FieldsRoundTrip(data, at, ts);
  }

  lemma {:induction false} TagRoundTrip(data: seq<byte>, at: nat, t: Tag, includeName: bool)
    requires WellFormed(t) && NoEmptyList(t) && Has(data, at, Bytes(t, includeName))
    requires !includeName ==> t.name == []
    ensures ParseAs(data, at, TypeId(t), includeName, !includeName) == Ok(t, at + |Bytes(t, includeName)|, false)
    decreases t, 1
  {
    hide Payload, NoEmptyList, Body, AllBytes, ToBytes;
    if includeName {
      HeaderRoundTrip(data, at, TypeId(t), t.name, Payload(t));
      PayloadRoundTrip(data, at + 1 + |NameBytes(t.name)|, t);
    } else {
      assert Bytes(t, false) == Payload(t);
      PayloadRoundTrip(data, at, t);
      PayloadNotEmpty(t);
    }
  }

  lemma PayloadNotEmpty(t: Tag)
    requires NoEmptyList(t)
    ensures Payload(t) != []
  {}

  lemma {:induction false} ItemsRoundTrip(data: seq<byte>, at: nat, ts: seq<Tag>, id: byte)
    requires IsType(id) && forall i :: 0 <= i < |ts| ==>
               WellFormed(ts[i]) && NoEmptyList(ts[i]) && ts[i].name == [] && TypeId(ts[i]) == id
    requires Has(data, at, AllBytes(ts, false))
    ensures Items(data, at, id, |ts|) == Oks(ts, at + |AllBytes(ts, false)|, false)
    decreases ts, 2
  {
    hide Payload, WellFormed, NoEmptyList, Body, Has, NameBytes, Bytes, ParseAs;
    if ts != [] {
      HasSplit(data, at, Bytes(ts[0], false), AllBytes(ts[1..], false));
      TagRoundTrip(data, at, ts[0], false);
      ItemsRoundTrip(data, at + |Bytes(ts[0], false)|, ts[1..], id);
      assert [ts[0]] + ts[1..] == ts;
    }
  }

  lemma {:induction false} FieldsRoundTrip(data: seq<byte>, at: nat, ts: seq<Tag>)
    requires forall i :: 0 <= i < |ts| ==> WellFormed(ts[i]) && NoEmptyList(ts[i])
    requires Has(data, at, AllBytes(ts, true)) && Has(data, at + |AllBytes(ts, true)|, [END])
    ensures Fields(data, at) == Oks(ts, at + |AllBytes(ts, true)| + 1, false)
    decreases ts, 2
  {
    hide Payload, WellFormed, NoEmptyList, Body, Has, NameBytes;
    if ts != [] {
      HasSplit(data, at, Bytes(ts[0], true), AllBytes(ts[1..], true));
      HasSplit(data, at, [TypeId(ts[0])] + NameBytes(ts[0].name), Payload(ts[0]));
      HasSplit(data, at, [TypeId(ts[0])], NameBytes(ts[0].name));
      HasByte(data, at, TypeId(ts[0]));
      TagRoundTrip(data, at, ts[0], true);
      FieldsRoundTrip(data, at + |Bytes(ts[0], true)|, ts[1..]);
      assert [ts[0]] + ts[1..] == ts;
    } else {
      HasByte(data, at, END);
    }
  }
}
