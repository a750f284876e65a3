/** The serialize methods of nbt.hpp as they run: they append to a byte vector, and a list of mixed types throws. */
module NbtWriter {
  import opened BigEndian
  import opened NbtTags

  /** Every list in the tag has elements of one type. */
  ghost predicate OneTyped(t: Tag) {
    match t
    case List(_, ts) => forall i :: 0 <= i < |ts| ==> TypeId(ts[i]) == TypeId(ts[0]) && OneTyped(ts[i])
    case Compound(_, ts) => forall i :: 0 <= i < |ts| ==> OneTyped(ts[i])
    case _ => true
  }

  lemma {:induction false} WellFormedIsOneTyped(t: Tag)
    requires WellFormed(t)
    ensures OneTyped(t)
  {
    if t.List? {
      forall i | 0 <= i < |t.items| ensures OneTyped(t.items[i]) { WellFormedIsOneTyped(t.items[i]); }
    } else if t.Compound? {
      forall i | 0 <= i < |t.fields| ensures OneTyped(t.fields[i]) { WellFormedIsOneTyped(t.fields[i]); }
    }
  }

  lemma {:induction false} AllBytesAppend(ts: seq<Tag>, t: Tag, includeName: bool)
    requires NoEmptyList(t) && forall i :: 0 <= i < |ts| ==> NoEmptyList(ts[i])
    ensures forall i :: 0 <= i < |ts + [t]| ==> NoEmptyList((ts + [t])[i])
    ensures AllBytes(ts + [t], includeName) == AllBytes(ts, includeName) + Bytes(t, includeName)
  {
    hide Bytes, NoEmptyList;
    if ts != [] {
      AllBytesAppend(ts[1..], t, includeName);
      assert (ts + [t])[1..] == ts[1..] + [t];
    } else {
      assert [t][1..] == [];
    }
  }

  class Writer {
    var data: seq<byte>

    constructor ()
      ensures data == []
    {
      data := [];
    }

    /** The loops `data.push_back((value >> (24 - i * 8)) & 0xFF)`, for n bytes. */
    method PushBytes(v: int, n: nat)
      modifies this
      ensures data == old(data) + ToBytes(v, n)
    {
      for i := 0 to n
        invariant data == old(data) + ToBytes(v, n)[..i]
      {
        ByteOfShift(v, n, i);
        data := data + [(v / Pow256(n - 1 - i)) % 256];
      }
    }

    method PushRun(run: seq<byte>)
      modifies this
      ensures data == old(data) + run
    {
      for i := 0 to |run|
        invariant data == old(data) + run[..i]
      {
        data := data + [run[i]];
      }
    }

    method PreSerialize(t: Tag, includeName: bool)
      modifies this
      ensures data == old(data) + (if includeName then [TypeId(t)] + NameBytes(t.name) else [])
    {
      if !includeName { return; }
      data := data + [TypeId(t)];
      PushBytes(|t.name|, 2);
      PushRun(t.name);
    }

    method PushValues(vs: seq<int>, width: nat)
      modifies this
      ensures data == old(data) + ValueBytes(vs, width)
    {
      for i := 0 to |vs|
        invariant data == old(data) + ValueBytes(vs[..i], width)
      {
        assert vs[..i + 1][..i] == vs[..i];
        PushBytes(vs[i], width);
      }
      assert vs[..|vs|] == vs;
    }

    /** `thrown` is the TypeMismatch exception of the list printer. */
    method Serialize(t: Tag, includeName: bool) returns (thrown: bool)
      requires NoEmptyList(t)
      modifies this
      ensures thrown <==> !OneTyped(t)
      ensures !thrown ==> data == old(data) + Bytes(t, includeName)
      decreases t, 2
    {
      hide NoEmptyList, Payload;
      PreSerialize(t, includeName);
      thrown := SerializePayload(t);
    }

    /** What each serialize method does after preSerialize. */
    method SerializePayload(t: Tag) returns (thrown: bool)
      requires NoEmptyList(t)
      modifies this
      ensures thrown <==> !OneTyped(t)
      ensures !thrown ==> data == old(data) + Payload(t)
      decreases t, 1
    {
      hide ToBytes, Pow256, ValueBytes, AllBytes, KindWidth, ElementWidth, TypeId, NoEmptyList;
      thrown := false;
      ghost var before := data;
      match t
      case Scalar(_, k, v) => PushBytes(v, KindWidth(k));
      case Array(_, e, vs) =>
        PushBytes(|vs|, 4);
        PushValues(vs, ElementWidth(e));
        assert data == before + (ToBytes(|vs|, 4) + ValueBytes(vs, ElementWidth(e)));
      case Text(_, s) =>
        PushBytes(|s|, 2);
        PushRun(s);
        assert data == before + (ToBytes(|s|, 2) + s);
      case List(_, ts) => thrown := SerializeList(t);
      case Compound(_, ts) => thrown := SerializeCompound(t);
    }

    method SerializeList(t: Tag) returns (thrown: bool)
      requires t.List? && NoEmptyList(t)
      modifies this
      ensures thrown <==> !OneTyped(t)
      ensures !thrown ==> data == old(data) + Payload(t)
      decreases t, 0
    {
      hide ToBytes, AllBytes, TypeId;
      ghost var before := data;
      data := data + [TypeId(t.items[0])];
      PushBytes(|t.items|, 4);
      thrown := SerializeItems(t.items);
      if !thrown { assert data == before + ([TypeId(t.items[0])] + ToBytes(|t.items|, 4) + AllBytes(t.items, false)); }
    }

    method SerializeCompound(t: Tag) returns (thrown: bool)
      requires t.Compound? && NoEmptyList(t)
      modifies this
      ensures thrown <==> !OneTyped(t)
      ensures !thrown ==> data == old(data) + Payload(t)
      decreases t, 0
    {
      hide AllBytes;
      ghost var before := data;
      thrown := SerializeFields(t.fields);
      if !thrown {
        data := data + [END];
        assert data == before + (AllBytes(t.fields, true) + [END]);
      }
    }

    /** The element loop of the list printer: `current` is End until the first element sets it. */
    method SerializeItems(ts: seq<Tag>) returns (thrown: bool)
      requires forall i :: 0 <= i < |ts| ==> NoEmptyList(ts[i])
      modifies this
      ensures thrown <==> !forall i :: 0 <= i < |ts| ==> TypeId(ts[i]) == TypeId(ts[0]) && OneTyped(ts[i])
      ensures !thrown ==> data == old(data) + AllBytes(ts, false)
      decreases ts, 0
    {
      hide Bytes, NoEmptyList;
      var current := END;
      for k := 0 to |ts|
        invariant current == if k == 0 then END else TypeId(ts[0])
        invariant forall i :: 0 <= i < k ==> TypeId(ts[i]) == TypeId(ts[0]) && OneTyped(ts[i])
        invariant data == old(data) + AllBytes(ts[..k], false)
      {
        if current == END { current := TypeId(ts[k]); }
        if current != TypeId(ts[k]) { return true; }
        thrown := Serialize(ts[k], false);
        if thrown { return; }
        AllBytesAppend(ts[..k], ts[k], false);
        assert ts[..k + 1] == ts[..k] + [ts[k]];
      }
      assert ts[..|ts|] == ts;
      thrown := false;
    }

    method SerializeFields(ts: seq<Tag>) returns (thrown: bool)
      requires forall i :: 0 <= i < |ts| ==> NoEmptyList(ts[i])
      modifies this
      ensures thrown <==> !forall i :: 0 <= i < |ts| ==> OneTyped(ts[i])
      ensures !thrown ==> data == old(data) + AllBytes(ts, true)
      decreases ts, 0
    {
      hide Bytes, NoEmptyList;
      for k := 0 to |ts|
        invariant forall i :: 0 <= i < k ==> OneTyped(ts[i])
        invariant data == old(data) + AllBytes(ts[..k], true)
      {
        thrown := Serialize(ts[k], true);
        if thrown { return; }
        AllBytesAppend(ts[..k], ts[k], true);
        assert ts[..k + 1] == ts[..k] + [ts[k]];
      }
      assert ts[..|ts|] == ts;
      thrown := false;
    }
  }
}
