/** The bit-packed array of world_storage/DynamicStorage.hpp: `ArraySize` entries of `valueSize` bits each,
    laid out in words of `StoreTypeSize` bits; an entry never spans two words. */
module DynamicStorage {
  import opened Arithmetic
  import opened Words

  /** How a call ends: normally, or with the exception the source throws. */
  datatype Outcome = Done | OutOfRange | InvalidSize

  datatype Read<T> = Got(value: T) | Missing | BadIndex

  /** The field of `size` bits at bit `offset`: the source's (word >> offset) & mask. */
  function Field(word: Word, offset: nat, size: nat): Word
  {
    And(ShiftRight(word, offset), Mask(size, |word|))
  }

  /** Clear the field with &= ~(mask << offset), then put the value in with |= (value & mask) << offset. */
  function WithField(word: Word, offset: nat, size: nat, value: Word): (w: Word)
    requires |value| == |word|
    ensures |w| == |word|
  {
    var mask := Mask(size, |word|);
    Or(And(word, Not(ShiftLeft(mask, offset))), ShiftLeft(And(value, mask), offset))
  }

  lemma FieldBits(word: Word, offset: nat, size: nat)
    requires size <= |word|
    ensures Field(word, offset, size)
              == seq(|word|, i requires 0 <= i < |word| => i < size && i + offset < |word| && word[i + offset])
  {
    MaskBits(size, |word|);
  }

  lemma WithFieldBits(word: Word, offset: nat, size: nat, value: Word)
    requires |value| == |word| && size <= |word|
    ensures WithField(word, offset, size, value)
         == seq(|word|, i requires 0 <= i < |word| =>
                  if offset <= i < offset + size then value[i - offset] else word[i])
  {
    MaskBits(size, |word|);
  }

  lemma OwnFieldAfterWrite(word: Word, offset: nat, size: nat, value: Word)
    requires |value| == |word| && offset + size <= |word|
    requires forall i :: size <= i < |word| ==> !value[i]
    ensures Field(WithField(word, offset, size, value), offset, size) == value
  {
    WithFieldBits(word, offset, size, value);
    FieldBits(WithField(word, offset, size, value), offset, size);
  }

  lemma FieldAfterWrite(word: Word, offset: nat, size: nat, value: nat)
    requires offset + size <= |word| && value < Pow2(size)
    ensures Value(Field(WithField(word, offset, size, Cast(value, |word|)), offset, size)) == value
  {
    CastHighBits(value, size, |word|);
    OwnFieldAfterWrite(word, offset, size, Cast(value, |word|));
    Pow2Monotone(size, |word|);
    ValueOfCast(value, |word|);
  }

  lemma OtherFieldAfterWrite(word: Word, offset: nat, other: nat, size: nat, value: Word)
    requires |value| == |word| && offset + size <= |word| && other + size <= |word|
    requires offset + size <= other || other + size <= offset
    ensures Field(WithField(word, offset, size, value), other, size) == Field(word, other, size)
  {
    WithFieldBits(word, offset, size, value);
    FieldBits(WithField(word, offset, size, value), other, size);
    FieldBits(word, other, size);
  }

  lemma {:induction false} ValueConcat(a: Word, b: Word)
    ensures Value(a + b) == Value(a) + Pow2(|a|) * Value(b)
  {
    hide Value, Pow2;
    if a == [] {
      assert a + b == b;
      NoBits(a);
    } else {
      assert (a + b)[1..] == a[1..] + b;
      ValueConcat(a[1..], b);
      FirstBit(a);
      FirstBit(a + b);
      Twice(|a| - 1, Value(b));
    }
  }

  lemma NoBits(w: Word)
    ensures w == [] ==> Value(w) == 0
    ensures Pow2(0) == 1
  {}

  lemma FirstBit(w: Word)
    requires w != []
    ensures Value(w) == (if w[0] then 1 else 0) + 2 * Value(w[1..])
  {}

  lemma Twice(n: nat, v: nat)
    ensures Pow2(n + 1) * v == 2 * (Pow2(n) * v)
  {
    Regroup(Pow2(n), v);
  }

  lemma Regroup(p: nat, v: nat)
    ensures (2 * p) * v == 2 * (p * v)
  {}

  /** A field in numbers: shift and mask are division and remainder by powers of two. */
  lemma FieldInNumbers(word: Word, offset: nat, size: nat)
    requires offset + size <= |word|
    ensures Value(Field(word, offset, size)) == (Value(word) / Pow2(offset)) % Pow2(size)
  {
    hide Value, Pow2;
    var low, field, high := word[..offset], word[offset..offset + size], word[offset + size..];
    FieldBits(word, offset, size);
    ValueOfPadded(Field(word, offset, size), size);
    assert Field(word, offset, size)[..size] == field;
    ValueConcat(low, field + high);
    ValueConcat(field, high);
    assert low + (field + high) == word;
    ValueBound(low);
    ValueBound(field);
    DivOf(Pow2(offset), Value(field + high), Value(low));
    DivOf(Pow2(size), Value(high), Value(field));
  }

  lemma FieldBound(word: Word, offset: nat, size: nat)
    requires size <= |word|
    ensures Value(Field(word, offset, size)) < Pow2(size)
  {
    MaskBits(size, |word|);
    var f := Field(word, offset, size);
    ValueOfPadded(f, size);
    ValueBound(f[..size]);
  }

  lemma ZeroField(word: Word, offset: nat, size: nat)
    requires forall i :: 0 <= i < |word| ==> !word[i]
    ensures Value(Field(word, offset, size)) == 0
  {
    ValueZero(Field(word, offset, size));
  }

  /** Number of words needed: ceil(ArraySize / perWord), as the constructor computes it. */
  function WordCount(arraySize: nat, perWord: nat): (n: nat)
    requires perWord > 0
    ensures forall i :: 0 <= i < arraySize ==> WordOf(i, perWord) < n
  {
    var n := arraySize / perWord + (if arraySize % perWord != 0 then 1 else 0);
    assert forall i :: 0 <= i < arraySize ==> WordOf(i, perWord) < n by {
      forall i | 0 <= i < arraySize ensures WordOf(i, perWord) < n {
        WordIndexBound(i, arraySize, perWord);
      }
    }
    n
  }

  lemma WordIndexBound(i: nat, arraySize: nat, perWord: nat)
    requires perWord > 0 && i < arraySize
    ensures i / perWord <= arraySize / perWord
    ensures arraySize % perWord == 0 ==> i / perWord < arraySize / perWord
  {
    var q, r := i / perWord, i % perWord;
    var q', r' := arraySize / perWord, arraySize % perWord;
    assert i == q * perWord + r && arraySize == q' * perWord + r';
    MulOrder(q' + 1, q, perWord);
    MulOrder(q', q, perWord);
  }

  /** The word of an entry, and its bit offset inside it, with `perWord` entries to a word. */
  function WordOf(idx: nat, perWord: nat): nat
    requires perWord > 0
  {
    idx / perWord
  }

  function OffsetOf(idx: nat, perWord: nat, size: nat): nat
    requires perWord > 0
  {
    (idx % perWord) * size
  }

  /** Every entry lies inside its word, and two different entries that share a word lie apart in it. */
  lemma EntryPlaces(i: nat, j: nat, perWord: nat, size: nat, width: nat)
    requires perWord > 0 && perWord * size <= width
    ensures OffsetOf(i, perWord, size) + size <= width
    ensures i != j && WordOf(i, perWord) == WordOf(j, perWord) ==>
              || OffsetOf(i, perWord, size) + size <= OffsetOf(j, perWord, size)
              || OffsetOf(j, perWord, size) + size <= OffsetOf(i, perWord, size)
  {
    var r, s := i % perWord, j % perWord;
    Remainders(i, j, perWord);
    MulNext(r, perWord, size);
    MulNext(r, s, size);
    MulNext(s, r, size);
  }

  lemma Remainders(i: nat, j: nat, w: nat)
    requires w > 0
    ensures i % w < w && (i != j && i / w == j / w ==> i % w != j % w)
  {
    assert i == w * (i / w) + i % w && j == w * (j / w) + j % w;
  }

  /** The entry at `idx` of a store with `perWord` entries of `size` bits in each word. */
  ghost function EntryOf(store: seq<Word>, perWord: nat, size: nat, idx: nat): nat
    requires perWord > 0 && WordOf(idx, perWord) < |store|
  {
    Value(Field(store[WordOf(idx, perWord)], OffsetOf(idx, perWord, size), size))
  }

  ghost function Written(store: seq<Word>, at: nat, offset: nat, size: nat, value: nat): seq<Word>
    requires at < |store|
  {
    store[at := WithField(store[at], offset, size, Cast(value, |store[at]|))]
  }

  /** A write to one bit range of one word, read back at the same or at a disjoint place. */
  lemma PlaceAfterWrite(store: seq<Word>, at: nat, offset: nat, at': nat, offset': nat, size: nat, value: nat)
    requires at < |store| && at' < |store| && value < Pow2(size)
    requires offset + size <= |store[at]| && offset' + size <= |store[at']|
    requires at == at' ==> offset == offset' || offset + size <= offset' || offset' + size <= offset
    ensures Value(Field(Written(store, at, offset, size, value)[at'], offset', size))
         == if at == at' && offset == offset' then value else Value(Field(store[at'], offset', size))
  {
    if at == at' {
      if offset == offset' {
        FieldAfterWrite(store[at], offset, size, value);
      } else {
        OtherFieldAfterWrite(store[at], offset, offset', size, Cast(value, |store[at]|));
      }
    }
  }

  lemma EntryAfterWrite(store: seq<Word>, perWord: nat, size: nat, width: nat, i: nat, idx: nat, value: nat)
    requires perWord > 0 && size > 0 && perWord * size <= width && value < Pow2(size)
    requires WordOf(idx, perWord) < |store| && WordOf(i, perWord) < |store|
    requires |store[WordOf(idx, perWord)]| == width && |store[WordOf(i, perWord)]| == width
    ensures EntryOf(Written(store, WordOf(idx, perWord), OffsetOf(idx, perWord, size), size, value), perWord, size, i)
         == if i == idx then value else EntryOf(store, perWord, size, i)
  {
    EntryPlaces(i, idx, perWord, size, width);
    EntryPlaces(idx, i, perWord, size, width);
    hide WordOf, OffsetOf, Written;
    PlaceAfterWrite(store, WordOf(idx, perWord), OffsetOf(idx, perWord, size), WordOf(i, perWord),
        OffsetOf(i, perWord, size), size, value);
  }

  lemma EntriesFit(width: nat, size: nat)
    requires size > 0
    ensures (width / size) * size <= width
  {}

  class Storage {
    const StoreTypeSize: nat
    const ArraySize: nat
    var store: seq<Word>
    var valueSize: nat

    ghost predicate Valid()
      reads this
    {
      && (valueSize == 0 ==> store == [])
      && (valueSize > 0 ==>
            && valueSize <= StoreTypeSize
            && |store| == WordCount(ArraySize, StoreTypeSize / valueSize)
            && forall k :: 0 <= k < |store| ==> |store[k]| == StoreTypeSize)
    }

    /** The entry as stored: what `get` reads. */
    ghost function Entry(idx: nat): nat
      requires Valid() && valueSize > 0 && idx < ArraySize
      reads this
    {
      EntryOf(store, StoreTypeSize / valueSize, valueSize, idx)
    }

    /** The array this storage stands for. A storage of width 0 stands for all zeros. */
    ghost function Contents(): (c: seq<nat>)
      requires Valid()
      reads this
      ensures |c| == ArraySize
    {
      seq(ArraySize, i requires 0 <= i < ArraySize reads this requires Valid() =>
        if valueSize == 0 then 0 else Entry(i))
    }

    /** Precondition: the width fits the word, otherwise the constructor throws and there is no object. */
    constructor (storeTypeSize: nat, arraySize: nat, valueSize: nat)
      requires valueSize <= storeTypeSize
      ensures Valid() && StoreTypeSize == storeTypeSize && ArraySize == arraySize && this.valueSize == valueSize
      ensures Contents() == seq(ArraySize, i => 0)
    {
      StoreTypeSize, ArraySize, this.valueSize := storeTypeSize, arraySize, valueSize;
      var words := if valueSize == 0 then 0 else WordCount(arraySize, storeTypeSize / valueSize);
      store := seq(words, i => seq(storeTypeSize, j => false));
      new;
      forall i | 0 <= i < ArraySize && valueSize > 0 ensures Entry(i) == 0 {
        var perWord := StoreTypeSize / valueSize;
        ZeroField(store[WordOf(i, perWord)], OffsetOf(i, perWord, valueSize), valueSize);
      }
    }

    lemma ContentsBound()
      requires Valid()
      ensures valueSize > 0 ==> forall i :: 0 <= i < ArraySize ==> Contents()[i] < Pow2(valueSize)
    {
      forall i | 0 <= i < ArraySize && valueSize > 0 ensures Contents()[i] < Pow2(valueSize) {
        var perWord := StoreTypeSize / valueSize;
        FieldBound(store[WordOf(i, perWord)], OffsetOf(i, perWord, valueSize), valueSize);
      }
    }

    method Get(idx: nat) returns (r: Read<nat>)
      requires Valid()
      ensures r == if valueSize == 0 then Missing else if idx >= ArraySize then BadIndex else Got(Contents()[idx])
    {
      if valueSize == 0 { return Missing; }
      if idx >= ArraySize { return BadIndex; }
      var valuePerEntry := StoreTypeSize / valueSize;
      var entryNumber := WordOf(idx, valuePerEntry);
      var startOffset := OffsetOf(idx, valuePerEntry, valueSize);
      r := Got(Value(Field(store[entryNumber], startOffset, valueSize)));
    }

    method Set(idx: nat, value: nat) returns (r: Outcome)
      requires Valid()
      modifies this
      ensures Valid() && valueSize == old(valueSize)
      ensures r == if valueSize == 0 then Done
                   else if idx >= ArraySize || value > Pow2(valueSize) - 1 then OutOfRange
                   else Done
      ensures Contents() == if r == Done && valueSize > 0 then old(Contents())[idx := value] else old(Contents())
    {
      if valueSize == 0 { return Done; }
      if idx >= ArraySize || value > Pow2(valueSize) - 1 { return OutOfRange; }

      hide Cast, Pow2, Field, Value, WithField, WordOf, OffsetOf;
      ghost var before := Contents();
      ghost var oldStore := store;
      var perWord := StoreTypeSize / valueSize;
      var entryNumber := WordOf(idx, perWord);
      var startOffset := OffsetOf(idx, perWord, valueSize);
      EntriesFit(StoreTypeSize, valueSize);
      store := store[entryNumber := WithField(store[entryNumber], startOffset, valueSize, Cast(value, StoreTypeSize))];
      assert store == Written(oldStore, entryNumber, startOffset, valueSize, value);
      assert Valid();
      forall i | 0 <= i < ArraySize ensures Entry(i) == if i == idx then value else before[i] {
        EntryAfterWrite(oldStore, perWord, valueSize, StoreTypeSize, i, idx, value);
      }
      assert Contents() == before[idx := value];
      r := Done;
    }

    /** Change of width. Every entry keeps its value, unless the new width is 0 or some entry does not fit;
        in the latter case `set` throws and the storage is as before. */
    method SetValueSize(newSize: nat) returns (r: Outcome)
      requires Valid()
      modifies this
      ensures Valid()
      ensures r == if newSize > StoreTypeSize then InvalidSize
                   else if newSize > 0 && exists i :: 0 <= i < ArraySize && old(Contents())[i] >= Pow2(newSize)
                   then OutOfRange
                   else Done
      ensures valueSize == if r == Done then newSize else old(valueSize)
      ensures Contents() == if r == Done && newSize == 0 then seq(ArraySize, i => 0) else old(Contents())
    {
      hide WordOf, OffsetOf, Field, Value, WordCount;
      ContentsBound();
      if newSize == valueSize { return Done; }
      if newSize > StoreTypeSize { return InvalidSize; }
      if newSize == 0 {
        store := [];
        valueSize := 0;
        return Done;
      }
      var newStore := new Storage(StoreTypeSize, ArraySize, newSize);
      if valueSize == 0 {
        store, valueSize := newStore.store, newStore.valueSize;
        assert Contents() == newStore.Contents();
        return Done;
      }
      ghost var before := Contents();
      var i := 0;
      while i < ArraySize
        invariant 0 <= i <= ArraySize
        invariant Valid() && newStore.Valid() && unchanged(this)
        invariant newStore.valueSize == newSize
        invariant forall k :: 0 <= k < i ==> newStore.Contents()[k] == before[k]
        invariant forall k :: 0 <= k < i ==> before[k] < Pow2(newSize)
        modifies newStore
      {
        var got := Get(i);
        var done := newStore.Set(i, got.value);
        if done != Done {
          assert before[i] >= Pow2(newSize);
          return done;
        }
        i := i + 1;
      }
      assert newStore.Contents() == before;
      store, valueSize := newStore.store, newStore.valueSize;
      assert Contents() == newStore.Contents();
      r := Done;
    }
  }

  /** Where an entry is kept: word number idx / perWord holds it, the entry of the least index in the least bits. */
  lemma EntryInNumbers(s: Storage, idx: nat)
    requires s.Valid() && s.valueSize > 0 && idx < s.ArraySize
    ensures var perWord := s.StoreTypeSize / s.valueSize;
            && perWord > 0 && idx / perWord < |s.store|
            && s.Contents()[idx]
            == (Value(s.store[idx / perWord]) / Pow2((idx % perWord) * s.valueSize)) % Pow2(s.valueSize)
  {
    hide Value, Field, Pow2;
    var perWord := s.StoreTypeSize / s.valueSize;
    FitsWord(s.StoreTypeSize, s.valueSize);
    EntryPlaces(idx, idx, perWord, s.valueSize, s.StoreTypeSize);
    FieldInNumbers(s.store[WordOf(idx, perWord)], OffsetOf(idx, perWord, s.valueSize), s.valueSize);
  }

  lemma FitsWord(width: nat, size: nat)
    requires 0 < size <= width
    ensures width / size > 0 && (width / size) * size <= width
  {}
}
