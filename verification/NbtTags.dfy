/** Named Binary Tags: the tree of nbt.hpp, its byte format, and the grammar that nbt.cpp accepts. */
module NbtTags {
  import opened BigEndian

  datatype Kind = ByteKind | ShortKind | IntKind | LongKind | FloatKind | DoubleKind

  datatype ElementKind = ByteElement | IntElement | LongElement

  /** A tag. Scalars and arrays hold signed integers, except that a float or double is its bit pattern. */
  datatype Tag =
    | Scalar(name: seq<byte>, kind: Kind, value: int)
    | Array(name: seq<byte>, element: ElementKind, values: seq<int>)
    | Text(name: seq<byte>, text: seq<byte>)
    | List(name: seq<byte>, items: seq<Tag>)
    | Compound(name: seq<byte>, fields: seq<Tag>)

  function KindId(k: Kind): byte {
    match k
    case ByteKind => 1
    case ShortKind => 2
    case IntKind => 3
    case LongKind => 4
    case FloatKind => 5
    case DoubleKind => 6
  }

  function KindWidth(k: Kind): (n: nat)
    ensures n > 0
  {
    match k
    case ByteKind => 1
    case ShortKind => 2
    case IntKind => 4
    case LongKind => 8
    case FloatKind => 4
    case DoubleKind => 8
  }

  predicate IsFloating(k: Kind) {
    k == FloatKind || k == DoubleKind
  }

  function ElementId(e: ElementKind): byte {
    match e
    case ByteElement => 7
    case IntElement => 11
    case LongElement => 12
  }

  function ElementWidth(e: ElementKind): (n: nat)
    ensures n > 0
  {
    match e
    case ByteElement => 1
    case IntElement => 4
    case LongElement => 8
  }

  const END: byte := 0
  const TEXT: byte := 8
  const LIST: byte := 9
  const COMPOUND: byte := 10
  const LENGTH_LIMIT := 0x8000_0000

  function TypeId(t: Tag): (id: byte)
    ensures 1 <= id <= 12
  {
    match t
    case Scalar(_, k, _) => KindId(k)
    case Array(_, e, _) => ElementId(e)
    case Text(_, _) => TEXT
    case List(_, _) => LIST
    case Compound(_, _) => COMPOUND
  }

  /** The tags the format can express: lengths fit their fields, numbers fit their widths, and the elements of
      a list are unnamed and of one type. */
  ghost predicate WellFormed(t: Tag) {
    && |t.name| < 0x1_0000
    && match t
       case Scalar(_, k, v) => if IsFloating(k) then FitsUnsigned(v, KindWidth(k)) else FitsSigned(v, KindWidth(k))
       case Array(_, e, vs) => |vs| < LENGTH_LIMIT && forall i :: 0 <= i < |vs| ==> FitsSigned(vs[i], ElementWidth(e))
       case Text(_, s) => |s| < 0x1_0000
       case List(_, ts) => |ts| < LENGTH_LIMIT && forall i :: 0 <= i < |ts| ==>
                             ts[i].name == [] && TypeId(ts[i]) == TypeId(ts[0]) && WellFormed(ts[i])
       case Compound(_, ts) => forall i :: 0 <= i < |ts| ==> WellFormed(ts[i])
  }

  /** Printing an empty list reads an element that is not there, and printing a mixed list throws. */
  ghost predicate NoEmptyList(t: Tag) {
    match t
    case List(_, ts) => ts != [] && forall i :: 0 <= i < |ts| ==> NoEmptyList(ts[i])
    case Compound(_, ts) => forall i :: 0 <= i < |ts| ==> NoEmptyList(ts[i])
    case _ => true
  }

  // ----- The byte format -----

  function NameBytes(name: seq<byte>): seq<byte> {
    ToBytes(|name|, 2) + name
  }

  function ValueBytes(vs: seq<int>, width: nat): (b: seq<byte>)
    ensures |b| == |vs| * width
  {
    if vs == [] then [] else
      var front := ValueBytes(vs[..|vs| - 1], width);
      assert |vs| * width == (|vs| - 1) * width + width;
      front + ToBytes(vs[|vs| - 1], width)
  }

  ghost function Bytes(t: Tag, includeName: bool): seq<byte>
    requires NoEmptyList(t)
    decreases t, 1
  {
    (if includeName then [TypeId(t)] + NameBytes(t.name) else []) + Payload(t)
  }

  ghost function Payload(t: Tag): seq<byte>
    requires NoEmptyList(t)
    decreases t, 0
  {
    match t
    case Scalar(_, k, v) => ToBytes(v, KindWidth(k))
    case Array(_, e, vs) => ToBytes(|vs|, 4) + ValueBytes(vs, ElementWidth(e))
    case Text(_, s) => ToBytes(|s|, 2) + s
    case List(_, ts) => [TypeId(ts[0])] + ToBytes(|ts|, 4) + AllBytes(ts, false)
    case Compound(_, ts) => AllBytes(ts, true) + [END]
  }

  ghost function AllBytes(ts: seq<Tag>, includeName: bool): seq<byte>
    requires forall i :: 0 <= i < |ts| ==> NoEmptyList(ts[i])
    decreases ts, 2
  {
    if ts == [] then [] else Bytes(ts[0], includeName) + AllBytes(ts[1..], includeName)
  }
}
