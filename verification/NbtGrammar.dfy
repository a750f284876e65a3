/** What the parsers of nbt.cpp accept, as functions from a position to a tag and the position after it.
    The source's end pointer is inclusive: `at > end` is `at >= |data|`. */
module NbtGrammar {
  import opened BigEndian
  import opened NbtTags

  datatype Named = NoName | Name(name: seq<byte>, next: nat)

  /** `negative` records that some array length on the way was read as a negative number, which the
      int and long array parsers take for an empty array. */
  datatype Result = Fail | Ok(tag: Tag, next: nat, negative: bool)
  datatype Results = Fails | Oks(tags: seq<Tag>, next: nat, negative: bool)

  predicate IsType(id: byte) { 1 <= id <= 12 }

  function KindOf(id: byte): (k: Kind)
    requires 1 <= id <= 6
    ensures KindId(k) == id
  {
    match id
    case 1 => ByteKind
    case 2 => ShortKind
    case 3 => IntKind
    case 4 => LongKind
    case 5 => FloatKind
    case _ => DoubleKind
  }

  function ElementOf(id: byte): (e: ElementKind)
    requires id == 7 || id == 11 || id == 12
    ensures ElementId(e) == id
  {
    match id
    case 7 => ByteElement
    case 11 => IntElement
    case _ => LongElement
  }

  function ReadName(data: seq<byte>, at: nat): (r: Named)
    ensures r.Name? ==> at + 2 <= r.next <= |data|
  {
    if at + 1 >= |data| then NoName
    else
      var size := Unsigned(data[at..at + 2]);
      if at + 2 + size > |data| then NoName else Name(data[at + 2..at + 2 + size], at + 2 + size)
  }

  /** The type byte (outside lists) and the name (when asked for). */
  function Header(data: seq<byte>, at: nat, id: byte, includeName: bool, inList: bool): (r: Named)
    ensures r.Name? ==> at < |data| && at <= r.next <= |data| && (!inList ==> at < r.next)
  {
    if at >= |data| then NoName
    else if !inList && data[at] != id then NoName
    else
      var at' := if inList then at else at + 1;
      if includeName then ReadName(data, at') else Name([], at')
  }

  function ReadScalar(b: seq<byte>, k: Kind): int
    requires b != []
  {
    if IsFloating(k) then Unsigned(b) else Signed(b)
  }

  function ReadValues(b: seq<byte>, count: nat, width: nat): (vs: seq<int>)
    requires width > 0 && |b| == count * width
    ensures |vs| == count
  {
    if count == 0 then [] else
      assert count * width == (count - 1) * width + width;
      ReadValues(b[..|b| - width], count - 1, width) + [Signed(b[|b| - width..])]
  }

  /** One more value at the end. */
  lemma ReadValuesAppend(b: seq<byte>, count: nat, more: seq<byte>)
    requires more != [] && |b| == count * |more|
    ensures |b + more| == (count + 1) * |more|
    ensures ReadValues(b + more, count + 1, |more|) == ReadValues(b, count, |more|) + [Signed(more)]
  {
    hide Signed;
    var all := b + more;
    assert all[..|all| - |more|] == b && all[|all| - |more|..] == more;
  }

  function ParseAs(data: seq<byte>, at: nat, id: byte, includeName: bool, inList: bool): (r: Result)
    requires IsType(id) && at <= |data|
    ensures r.Ok? ==> at < r.next <= |data| && TypeId(r.tag) == id
    decreases |data| - at, if inList then 5 else 1
  {
    match Header(data, at, id, includeName, inList)
    case NoName => Fail
    case Name(name, next) => Body(data, next, id, name)
  }

  function Body(data: seq<byte>, at: nat, id: byte, name: seq<byte>): (r: Result)
    requires IsType(id) && at <= |data|
    ensures r.Ok? ==> at < r.next <= |data| && TypeId(r.tag) == id && r.tag.name == name
    decreases |data| - at, 4
  {
    if id <= 6 then
      var k := KindOf(id);
      var next := at + KindWidth(k);
      if next > |data| then Fail else Ok(Scalar(name, k, ReadScalar(data[at..next], k)), next, false)
    else if id == 7 || id == 11 || id == 12 then
      ArrayBody(data, at, ElementOf(id), name)
    else if id == TEXT then
      if at + 2 > |data| then Fail
      else
        var next := at + 2 + Unsigned(data[at..at + 2]);
        if next > |data| then Fail else Ok(Text(name, data[at + 2..next]), next, false)
    else if id == LIST then
      if at + 5 > |data| then Fail
      else
        var size := Signed(data[at + 1..at + 5]);
        match Items(data, at + 5, data[at], if size < 0 then 0 else size)
        case Fails => Fail
        case Oks(tags, next, negative) => Ok(List(name, tags), next, negative || size < 0)
    else
      match Fields(data, at)
      case Fails => Fail
      case Oks(tags, next, negative) => Ok(Compound(name, tags), next, negative)
  }

  /** A byte array of negative length makes the source's reserve throw; a negative length of ints or longs passes. */
  function ArrayBody(data: seq<byte>, at: nat, e: ElementKind, name: seq<byte>): (r: Result)
    requires at <= |data|
    ensures r.Ok? ==> at < r.next <= |data| && r.tag.Array? && r.tag.element == e && r.tag.name == name
  {
    if at + 4 > |data| then Fail
    else
      var size := Signed(data[at..at + 4]);
      if size < 0 then
        if e == ByteElement then Fail else Ok(Array(name, e, []), at + 4, true)
      else
        var next := at + 4 + size * ElementWidth(e);
        if next > |data| then Fail
        else Ok(Array(name, e, ReadValues(data[at + 4..next], size, ElementWidth(e))), next, false)
  }

  /** The elements of a list: `count` unnamed tags of type `id`. */
  function Items(data: seq<byte>, at: nat, id: byte, count: nat): (r: Results)
    requires at <= |data|
    ensures r.Oks? ==> at <= r.next <= |data| && |r.tags| == count
    decreases |data| - at, 6
  {
    if count == 0 then Oks([], at, false)
    else if !IsType(id) then Fails
    else
      match ParseAs(data, at, id, false, true)
      case Fail => Fails
      case Ok(tag, next, negative) => Before(tag, negative, Items(data, next, id, count - 1))
  }

  /** One turn of the element loop. */
  lemma ItemsStep(data: seq<byte>, at: nat, id: byte, count: nat)
    requires at <= |data|
    ensures Items(data, at, id, count) ==
            if count == 0 then Oks([], at, false)
            else if !IsType(id) then Fails
            else
              var first := ParseAs(data, at, id, false, true);
              if first.Fail? then Fails else Before(first.tag, first.negative, Items(data, first.next, id, count - 1))
  {}

  /** The tags of a compound, up to the end tag. */
  function Fields(data: seq<byte>, at: nat): (r: Results)
    requires at <= |data|
    ensures r.Oks? ==> at < r.next <= |data|
    decreases |data| - at, 3
  {
    if at >= |data| then Fails
    else if data[at] == END then Oks([], at + 1, false)
    else
      match Parse(data, at)
      case Fail => Fails
      case Ok(tag, next, negative) => Before(tag, negative, Fields(data, next))
  }

  function Before(tag: Tag, negative: bool, rest: Results): Results {
    if rest.Fails? then Fails else Oks([tag] + rest.tags, rest.next, negative || rest.negative)
  }

  function Parse(data: seq<byte>, at: nat): (r: Result)
    requires at <= |data|
    ensures r.Ok? ==> at < r.next <= |data| && TypeId(r.tag) == data[at]
    decreases |data| - at, 2
  {
    if at >= |data| then Fail
    else if IsType(data[at]) then ParseAs(data, at, data[at], true, false)
    else Fail
  }
}
