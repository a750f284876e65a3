/** The parsers of nbt.cpp as they run: a cursor that every parser advances. They terminate on every input, read
    only inside it, never move the cursor back or past the end, and return what the grammar says. */
module NbtReader {
  import opened Arithmetic
  import opened Options
  import opened BigEndian
  import opened NbtTags
  import opened NbtGrammar

  /** The outcome of a parser agrees with the grammar; after a failure the cursor is not specified. */
  ghost predicate Agrees(spec: Result, r: Option<Tag>, at: nat) {
    if spec.Fail? then r.None? else r == Some(spec.tag) && at == spec.next
  }

  function After(done: seq<Tag>, negative: bool, rest: Results): Results {
    if rest.Fails? then Fails else Oks(done + rest.tags, rest.next, negative || rest.negative)
  }

  lemma AfterNothing(rest: Results)
    ensures After([], false, rest) == rest
  {
    if rest.Oks? { assert [] + rest.tags == rest.tags; }
  }

  lemma AfterBefore(done: seq<Tag>, negative: bool, tag: Tag, n: bool, rest: Results)
    ensures After(done, negative, Before(tag, n, rest)) == After(done + [tag], negative || n, rest)
  {
    if rest.Oks? { assert done + ([tag] + rest.tags) == done + [tag] + rest.tags; }
  }

  /** What follows the header, for scalars and for arrays. */
  lemma ScalarBody(data: seq<byte>, at: nat, k: Kind, name: seq<byte>)
    requires at <= |data|
    ensures Body(data, at, KindId(k), name) ==
            if at + KindWidth(k) > |data| then Fail
            else Ok(Scalar(name, k, ReadScalar(data[at..at + KindWidth(k)], k)), at + KindWidth(k), false)
  {
    hide Items, Fields, ArrayBody, ReadScalar, Unsigned, Signed;
  }

  lemma BodyOfArray(data: seq<byte>, at: nat, e: ElementKind, name: seq<byte>)
    requires at <= |data|
    ensures Body(data, at, ElementId(e), name) == ArrayBody(data, at, e, name)
  {
    hide Items, Fields, ArrayBody, Unsigned, Signed;
  }

  lemma ListBody(data: seq<byte>, at: nat, name: seq<byte>)
    requires at <= |data|
    ensures at + 5 > |data| ==> Body(data, at, LIST, name) == Fail
    ensures at + 5 <= |data| ==>
              var size := Signed(data[at + 1..at + 5]);
              var all := Items(data, at + 5, data[at], if size < 0 then 0 else size);
              Body(data, at, LIST, name) == if all.Fails? then Fail
                  else Ok(List(name, all.tags), all.next, all.negative || size < 0)
  {}

  /** The bytes that `count` values of a width take. */
  function Span(count: nat, width: nat): nat { count * width }

  lemma SpanIs(count: nat, width: nat)
    ensures Span(count, width) == count * width && Span(0, width) == 0
  {}

  lemma SpanNext(i: nat, size: nat, width: nat)
    ensures Span(i + 1, width) == Span(i, width) + width
    ensures i < size ==> Span(i, width) + width <= Span(size, width)
  {
    MulNext(i, size, width);
  }

  ghost predicate AreValues(b: seq<byte>, count: nat, width: nat, values: seq<int>) {
    width > 0 && |b| == count * width && values == ReadValues(b, count, width)
  }

  lemma NoValues(b: seq<byte>, width: nat)
    requires width > 0 && b == []
    ensures AreValues(b, 0, width, [])
  {}

  lemma OneMoreValue(b: seq<byte>, count: nat, more: seq<byte>, values: seq<int>)
    requires more != [] && AreValues(b, count, |more|, values)
    ensures AreValues(b + more, count + 1, |more|, values + [Signed(more)])
  {
    hide Signed, ReadValues;
    ReadValuesAppend(b, count, more);
  }

  lemma AllValues(b: seq<byte>, count: nat, width: nat, values: seq<int>)
    requires AreValues(b, count, width, values)
    ensures width > 0 && |b| == count * width && values == ReadValues(b, count, width)
  {}

  class Reader {
    const data: seq<byte>
    var at: nat

    constructor (data: seq<byte>)
      ensures this.data == data && at == 0
    {
      this.data, at := data, 0;
    }

    /** The loops `value = (value << 8) | *at++` of the integer parsers. */
    method ReadSigned(n: nat) returns (value: int)
      requires n > 0 && at + n <= |data|
      modifies this`at
      ensures at == old(at) + n && value == Signed(data[old(at)..at])
    {
      hide Unsigned, Signed, ToSigned;
      value := 0;
      ghost var start := at;
      LastByteFits(data[start..start]);
      for i := 0 to n
        invariant at == start + i
        invariant value == if i < n then Unsigned(data[start..at]) else Signed(data[start..at])
      {
        ReadStep(data[start..at], data[at], n);
        assert data[start..at + 1] == data[start..at] + [data[at]];
        value := ToSigned(value * 256 + data[at], n);
        at := at + 1;
      }
    }

    /** What one turn of the loop computes: an unsigned number, and with the last byte the signed one. */
    lemma ReadStep(b: seq<byte>, next: byte, n: nat)
      requires |b| < n
      ensures ToSigned(Unsigned(b) * 256 + next, n) == if |b| + 1 < n then Unsigned(b + [next]) else Signed(b + [next])
    {
      hide Unsigned, Pow256, ToSigned;
      SignedStep(b, next, n);
      if |b| + 1 < n { SignedStep(b + [next], 0, n); }
    }

    lemma LastByteFits(b: seq<byte>)
      requires b == []
      ensures Unsigned(b) == 0
    {}

    /** The loops `value |= *at++ << (i * 8)` of the float parsers; the bits are disjoint, so `|` adds. */
    method ReadBits(n: nat) returns (value: nat)
      requires at + n <= |data|
      modifies this`at
      ensures at == old(at) + n && value == Unsigned(data[old(at)..at])
    {
      hide Unsigned, Pow256;
      value := 0;
      ghost var start := at;
      LastByteFits(data[start..at]);
      NoShift();
      var i := n;
      while i > 0
        invariant 0 <= i <= n && at == start + n - i
        invariant value == Unsigned(data[start..at]) * Pow256(i)
      {
        i := i - 1;
        UnsignedAppend(data[start..at], data[at]);
        assert data[start..at + 1] == data[start..at] + [data[at]];
        ShiftedDigit(Unsigned(data[start..at]), data[at], i);
        value := value + data[at] * Pow256(i);
        at := at + 1;
      }
    }

    lemma ShiftedDigit(u: nat, d: nat, i: nat)
      ensures u * Pow256(i + 1) + d * Pow256(i) == (u * 256 + d) * Pow256(i)
    {
      Regroup(u, d, Pow256(i));
    }

    lemma Regroup(u: nat, d: nat, p: nat)
      ensures u * (256 * p) + d * p == (u * 256 + d) * p
    {}

    lemma NoShift()
      ensures Pow256(0) == 1
    {}

    method ReadRun(n: nat) returns (run: seq<byte>)
      requires at + n <= |data|
      modifies this`at
      ensures at == old(at) + n && run == data[old(at)..at]
    {
      run := [];
      for i := 0 to n
        invariant at == old(at) + i && run == data[old(at)..at]
      {
        run := run + [data[at]];
        at := at + 1;
      }
    }

    method ReadShortLength() returns (size: nat)
      requires at + 2 <= |data|
      modifies this`at
      ensures at == old(at) + 2 && size == Unsigned(data[old(at)..at])
    {
      TwoBytes(data[at], data[at + 1]);
      assert data[at..at + 2] == [data[at], data[at + 1]];
      var high: nat := data[at];
      size := high * 256 + data[at + 1];
      at := at + 2;
    }

    lemma TwoBytes(a: byte, b: byte)
      ensures Unsigned([a, b]) == a * 256 + b
    {
      assert [a, b][..1] == [a];
      assert Unsigned([a]) == a;
    }

    method ParseName() returns (r: Option<seq<byte>>)
      requires at <= |data|
      modifies this`at
      ensures old(at) <= at <= |data|
      ensures var spec := ReadName(data, old(at));
                if spec.NoName? then r.None? else r == Some(spec.name) && at == spec.next
    {
      if at + 1 >= |data| { return None; }
      var nameSize := ReadShortLength();
      assert nameSize == 0 ==> data[at..at + nameSize] == [];
      if nameSize == 0 { return Some([]); }
      if at + nameSize > |data| { return None; }
      var value := ReadRun(nameSize);
      r := Some(value);
    }

    /** What every parser does first: the end test, the type byte unless inside a list, and GET_NAME. */
    method ParseHeader(id: byte, includeName: bool, inList: bool) returns (r: Option<seq<byte>>)
      requires at <= |data|
      modifies this`at
      ensures old(at) <= at <= |data|
      ensures var spec := Header(data, old(at), id, includeName, inList);
              if spec.NoName? then r.None? else r == Some(spec.name) && at == spec.next
    {
      if at >= |data| { return None; }
      if !inList {
        if data[at] != id { return None; }
        at := at + 1;
      }
      if !includeName { return Some([]); }
      r := ParseName();
    }

    /** parseByte, parseShort, parseInt, parseLong, parseFloat and parseDouble. */
    method ParseScalar(k: Kind, includeName: bool, inList: bool) returns (r: Option<Tag>)
      requires at <= |data|
      modifies this`at
      ensures old(at) <= at <= |data|
      ensures Agrees(ParseAs(data, old(at), KindId(k), includeName, inList), r, at)
    {
      hide Header, Signed, Unsigned, Body, KindId, KindWidth, Pow256;
      var name := ParseHeader(KindId(k), includeName, inList);
      if name.None? { return None; }
      ScalarBody(data, at, k, name.value);
      if at + KindWidth(k) > |data| { return None; }
      var value: int;
      if IsFloating(k) {
        value := ReadBits(KindWidth(k));
      } else {
        value := ReadSigned(KindWidth(k));
      }
      r := Some(Scalar(name.value, k, value));
    }

    /** parseByteArray, parseIntArray and parseLongArray. */
    method ParseArray(e: ElementKind, includeName: bool, inList: bool) returns (r: Option<Tag>)
      requires at <= |data|
      modifies this`at
      ensures old(at) <= at <= |data|
      ensures Agrees(ParseAs(data, old(at), ElementId(e), includeName, inList), r, at)
    {
      hide Header, Signed, Unsigned, ReadValues, Body, ElementId, ElementWidth;
      var name := ParseHeader(ElementId(e), includeName, inList);
      if name.None? { return None; }
      BodyOfArray(data, at, e, name.value);
      if at + 4 > |data| { return None; }
      var size := ReadSigned(4);
      if e == ByteElement && size < 0 { return None; }
      if at + size * ElementWidth(e) > |data| { return None; }
      if size < 0 { return Some(Array(name.value, e, [])); }
      var values := ReadArray(size, ElementWidth(e));
      r := Some(Array(name.value, e, values));
    }

    method ReadArray(size: nat, width: nat) returns (values: seq<int>)
      requires width > 0 && at + size * width <= |data|
      modifies this`at
      ensures at == old(at) + size * width && values == ReadValues(data[old(at)..at], size, width)
    {
      hide Signed, ReadValues, Span, AreValues;
      values := [];
      ghost var start := at;
      SpanIs(size, width);
      NoValues(data[start..at], width);
      var i := 0;
      while i < size
        invariant 0 <= i <= size && at == start + Span(i, width) <= |data| && start + Span(size, width) <= |data|
        invariant AreValues(data[start..at], i, width, values)
      {
        SpanNext(i, size, width);
        ghost var before := at;
        var val := ReadSigned(width);
        OneMoreValue(data[start..before], i, data[before..at], values);
        assert data[start..at] == data[start..before] + data[before..at];
        values := values + [val];
        i := i + 1;
      }
      AllValues(data[start..at], size, width, values);
    }

    method ParseString(includeName: bool, inList: bool) returns (r: Option<Tag>)
      requires at <= |data|
      modifies this`at
      ensures old(at) <= at <= |data|
      ensures Agrees(ParseAs(data, old(at), TEXT, includeName, inList), r, at)
    {
      hide Header, Unsigned;
      var name := ParseHeader(TEXT, includeName, inList);
      if name.None? { return None; }
      if at + 2 > |data| { return None; }
      var size := ReadShortLength();
      if at + size > |data| { return None; }
      var text := ReadRun(size);
      r := Some(Text(name.value, text));
    }

    method ParseList(includeName: bool, inList: bool) returns (r: Option<Tag>)
      requires at <= |data|
      modifies this`at
      ensures old(at) <= at <= |data|
      ensures Agrees(ParseAs(data, old(at), LIST, includeName, inList), r, at)
      decreases |data| - at, if inList then 5 else 1
    {
      hide Header, Signed, Items, Body;
      var name := ParseHeader(LIST, includeName, inList);
      if name.None? { return None; }
      ListBody(data, at, name.value);
      if at >= |data| { return None; }
      var id := data[at];
      at := at + 1;
      if at + 4 > |data| { return None; }
      var size := ReadSigned(4);
      var items := ReadItems(id, size);
      if items.None? { return None; }
      r := Some(List(name.value, items.value));
    }

    /** The element loop of parseList. */
    method ReadItems(id: byte, size: int) returns (items: Option<seq<Tag>>)
      requires at <= |data|
      modifies this`at
      ensures old(at) <= at <= |data|
      ensures var spec := Items(data, old(at), id, if size < 0 then 0 else size);
              if spec.Fails? then items.None? else items == Some(spec.tags) && at == spec.next
      decreases |data| - at, 7
    {
      hide Items, ParseAs, Before;
      var count: nat := if size < 0 then 0 else size;
      ghost var spec := Items(data, at, id, count);
      var done: seq<Tag> := [];
      ghost var negative := false;
      AfterNothing(spec);
      var i := 0;
      while i < size
        invariant 0 <= i <= count && old(at) <= at <= |data|
        invariant spec == After(done, negative, Items(data, at, id, count - i))
      {
        ghost var here := ParseAs(data, at, if IsType(id) then id else LIST, false, true);
        ItemsStep(data, at, id, count - i);
        var val := ParseElement(id);
        if val.None? { return None; }
        AfterBefore(done, negative, val.value, here.negative, Items(data, at, id, count - i - 1));
        done, negative := done + [val.value], negative || here.negative;
        i := i + 1;
      }
      ItemsStep(data, at, id, 0);
      assert done + [] == done;
      items := Some(done);
    }

    /** The switch over the element type inside parseList. */
    method ParseElement(id: byte) returns (r: Option<Tag>)
      requires at <= |data|
      modifies this`at
      ensures old(at) <= at <= |data|
      ensures if IsType(id) then Agrees(ParseAs(data, old(at), id, false, true), r, at) else r.None?
      decreases |data| - at, 6
    {
      if 1 <= id <= 6 { r := ParseScalar(KindOf(id), false, true); }
      else if id == 7 || id == 11 || id == 12 { r := ParseArray(ElementOf(id), false, true); }
      else if id == TEXT { r := ParseString(false, true); }
      else if id == LIST { r := ParseList(false, true); }
      else if id == COMPOUND { r := ParseCompound(false, true); }
      else { r := None; }
    }

    method ParseCompound(includeName: bool, inList: bool) returns (r: Option<Tag>)
      requires at <= |data|
      modifies this`at
      ensures old(at) <= at <= |data|
      ensures Agrees(ParseAs(data, old(at), COMPOUND, includeName, inList), r, at)
      decreases |data| - at, if inList then 5 else 1
    {
      hide Header;
      var name := ParseHeader(COMPOUND, includeName, inList);
      if name.None? { return None; }
      ghost var spec := Fields(data, at);
      var fields: seq<Tag> := [];
      ghost var negative := false;
      while true
        invariant old(at) <= at <= |data| && (!inList ==> old(at) < at)
        invariant spec == After(fields, negative, Fields(data, at))
        decreases |data| - at
      {
        if at >= |data| { return None; }
        if data[at] == END {
          at := at + 1;
          break;
        }
        ghost var here := NbtGrammar.Parse(data, at);
        var val := Parse();
        if val.None? { return None; }
        AfterBefore(fields, negative, val.value, here.negative, Fields(data, at));
        fields, negative := fields + [val.value], negative || here.negative;
      }
      assert fields + [] == fields;
      r := Some(Compound(name.value, fields));
    }

    method Parse() returns (r: Option<Tag>)
      requires at <= |data|
      modifies this`at
      ensures old(at) <= at <= |data|
      ensures Agrees(NbtGrammar.Parse(data, old(at)), r, at)
      decreases |data| - at, 2
    {
      if at >= |data| { return None; }
      var id := data[at];
      if 1 <= id <= 6 { r := ParseScalar(KindOf(id), true, false); }
      else if id == 7 || id == 11 || id == 12 { r := ParseArray(ElementOf(id), true, false); }
      else if id == TEXT { r := ParseString(true, false); }
      else if id == LIST { r := ParseList(true, false); }
      else if id == COMPOUND { r := ParseCompound(true, false); }
      else { r := None; }
    }
  }
}
