/** The global block palette (protocol_id_converter/blockStates.cpp): a block with its property values is one id
    in a range, by mixed-radix weights. */
module BlockStates {
  import opened Arithmetic
  import opened Options

  type Pair = (string, string)

  datatype Property = Property(name: string, values: seq<string>, baseWeight: nat)

  datatype InternalBlock = InternalBlock(
    name: string, properties: seq<Property>, defaults: seq<Pair>, baseId: nat, maxId: nat)

  datatype Block = Block(name: string, properties: seq<Pair>)

  // ----- Lookups -----

  /** The first index of a string, or the length if it is absent. */
  function FindValue(values: seq<string>, value: string): (i: nat)
    ensures i <= |values|
    ensures i < |values| ==> values[i] == value
    ensures forall k :: 0 <= k < i ==> values[k] != value
  {
    if values == [] then 0 else if values[0] == value then 0 else 1 + FindValue(values[1..], value)
  }

  /** The first block of that name. */
  function FindBlock(blocks: seq<InternalBlock>, name: string): (i: nat)
    ensures i <= |blocks|
    ensures i < |blocks| ==> blocks[i].name == name
    ensures forall k :: 0 <= k < i ==> blocks[k].name != name
  {
    var names := seq(|blocks|, k requires 0 <= k < |blocks| => blocks[k].name);
    assert forall k :: 0 <= k < |blocks| ==> names[k] == blocks[k].name;
    FindValue(names, name)
  }

  /** The first property of that name. */
  function FindProperty(props: seq<Property>, name: string): (i: nat)
    ensures i <= |props|
    ensures i < |props| ==> props[i].name == name
    ensures forall k :: 0 <= k < i ==> props[k].name != name
  {
    var names := seq(|props|, k requires 0 <= k < |props| => props[k].name);
    assert forall k :: 0 <= k < |props| ==> names[k] == props[k].name;
    FindValue(names, name)
  }

  predicate HasName(pairs: seq<Pair>, name: string) {
    exists k :: 0 <= k < |pairs| && pairs[k].0 == name
  }

  // ----- Encoding and decoding -----

  datatype Encoded = NotFound | Id(id: nat)

  /** The sum over the properties of a block, in the order they come; an unknown name or value ends it. */
  function Sum(props: seq<Property>, pairs: seq<Pair>): Encoded {
    if pairs == [] then Id(0)
    else
      var last := pairs[|pairs| - 1];
      match Sum(props, pairs[..|pairs| - 1])
      case NotFound => NotFound
      case Id(s) =>
        var p := FindProperty(props, last.0);
        if p == |props| then NotFound
        else
          var v := FindValue(props[p].values, last.1);
          if v == |props[p].values| then NotFound else Id(s + props[p].baseWeight * v)
  }

  /** The default properties whose names the block does not mention, in their order. */
  function Missing(defaults: seq<Pair>, given: seq<Pair>): seq<Pair> {
    if defaults == [] then []
    else
      var front := Missing(defaults[..|defaults| - 1], given);
      var d := defaults[|defaults| - 1];
      if HasName(given + front, d.0) then front else front + [d]
  }

  function Completed(b: InternalBlock, pairs: seq<Pair>): seq<Pair> {
    if |pairs| != |b.properties| then pairs + Missing(b.defaults, pairs) else pairs
  }

  /** Unknown blocks, properties and values give id 0. */
  function FromBlockToProtocolId(blocks: seq<InternalBlock>, block: Block): nat {
    var i := FindBlock(blocks, block.name);
    if i == |blocks| then 0
    else
      var b := blocks[i];
      match Sum(b.properties, Completed(b, block.properties))
      case NotFound => 0
      case Id(s) => b.baseId + s
  }

  function FromNameToProtocolId(blocks: seq<InternalBlock>, name: string): nat {
    var i := FindBlock(blocks, name);
    if i == |blocks| then 0 else FromBlockToProtocolId(blocks, Block(name, blocks[i].defaults))
  }

  /** The decoding loop: from the last property, quotient by its weight, then the remainder. A weight of 0, or a
      quotient that is not an index of the values, has no defined result. */
  function Decode(props: seq<Property>, id: nat): Option<seq<Pair>> {
    if props == [] then Some([])
    else
      var p := props[|props| - 1];
      if p.baseWeight == 0 || id / p.baseWeight >= |p.values| then None
      else
        match Decode(props[..|props| - 1], id % p.baseWeight)
        case None => None
        case Some(rest) => Some([(p.name, p.values[id / p.baseWeight])] + rest)
  }

  /** An id outside all ranges is air. */
  function FromProtocolIdToBlock(blocks: seq<InternalBlock>, id: nat): Option<Block> {
    if blocks == [] then Some(Block("minecraft:air", []))
    else
      var b := blocks[0];
      if id < b.baseId || id > b.maxId then FromProtocolIdToBlock(blocks[1..], id)
      else
        match Decode(b.properties, id - b.baseId)
        case None => None
        case Some(pairs) => Some(Block(b.name, pairs))
  }

  // ----- Palettes for which the two are inverse -----

  /** The number of combinations of values. */
  function Combinations(props: seq<Property>): nat {
    if props == [] then 1 else Combinations(props[..|props| - 1]) * |props[|props| - 1].values|
  }

  /** Every property has values, the values are distinct, and so are the names. */
  predicate Sound(props: seq<Property>) {
    && (forall k :: 0 <= k < |props| ==> props[k].values != [])
    && (forall i, j :: 0 <= i < j < |props| ==> props[i].name != props[j].name)
    && (forall k :: 0 <= k < |props| ==>
          forall i, j :: 0 <= i < j < |props[k].values| ==> props[k].values[i] != props[k].values[j])
  }

  /** Each weight is the number of combinations of the properties before it. */
  predicate Weighted(props: seq<Property>) {
    forall k :: 0 <= k < |props| ==> props[k].baseWeight == Combinations(props[..k]) > 0
  }

  predicate Decodable(props: seq<Property>) {
    Sound(props) && Weighted(props)
  }

  /** A block whose range is as large as its combinations. */
  predicate GoodBlock(b: InternalBlock) {
    Decodable(b.properties) && b.maxId + 1 == b.baseId + Combinations(b.properties)
  }

  predicate Known(props: seq<Property>, pair: Pair) {
    var p := FindProperty(props, pair.0);
    p < |props| && FindValue(props[p].values, pair.1) < |props[p].values|
  }

  ghost predicate DistinctNames(pairs: seq<Pair>) {
    forall i, j :: 0 <= i < j < |pairs| ==> pairs[i].0 != pairs[j].0
  }

  /** Pairs that give some properties one of their values each, in any order. */
  ghost predicate Partial(props: seq<Property>, pairs: seq<Pair>) {
    DistinctNames(pairs) && forall i :: 0 <= i < |pairs| ==> Known(props, pairs[i])
  }

  /** Pairs that do so for every property. */
  ghost predicate Complete(props: seq<Property>, pairs: seq<Pair>) {
    Partial(props, pairs) && |pairs| == |props|
  }

  /** Names different, ranges apart. */
  ghost predicate Apart(blocks: seq<InternalBlock>) {
    forall i, j :: 0 <= i < j < |blocks| ==>
      blocks[i].name != blocks[j].name && (blocks[i].maxId < blocks[j].baseId || blocks[j].maxId < blocks[i].baseId)
  }

  lemma TopDigit(id: nat, w: nat, n: nat)
    requires w > 0 && id < w * n
    ensures id / w < n && id % w < w
  {}

  lemma DecodableFront(props: seq<Property>)
    requires Decodable(props) && props != []
    ensures Decodable(props[..|props| - 1])
  {
    var front := props[..|props| - 1];
    assert forall k :: 0 <= k < |front| ==> front[..k] == props[..k];
  }

  // ----- From an id to a block and back -----

  lemma {:induction false} DecodeDefined(props: seq<Property>, id: nat)
    requires Decodable(props) && id < Combinations(props)
    ensures Decode(props, id).Some?
  {
    if props != [] {
      var front, p := props[..|props| - 1], props[|props| - 1];
      TopDigit(id, Combinations(front), |p.values|);
      DecodableFront(props);
      DecodeDefined(front, id % p.baseWeight);
    }
  }

  /** The decoded pairs of an id in range. */
  function Pairs(props: seq<Property>, id: nat): seq<Pair>
    requires Decodable(props) && id < Combinations(props)
  {
    DecodeDefined(props, id);
    Decode(props, id).value
  }

  function Term(props: seq<Property>, pair: Pair): nat
    requires Known(props, pair)
  {
    var p := FindProperty(props, pair.0);
    props[p].baseWeight * FindValue(props[p].values, pair.1)
  }

  lemma {:induction false} SumOfKnown(props: seq<Property>, pairs: seq<Pair>)
    requires forall i :: 0 <= i < |pairs| ==> Known(props, pairs[i])
    ensures Sum(props, pairs).Id?
  {
    if pairs != [] { SumOfKnown(props, pairs[..|pairs| - 1]); }
  }

  lemma {:induction false} SumConcat(props: seq<Property>, a: seq<Pair>, b: seq<Pair>)
    requires Sum(props, a).Id? && Sum(props, b).Id?
    ensures Sum(props, a + b) == Id(Sum(props, a).id + Sum(props, b).id)
  {
    hide FindProperty, FindValue;
    if b == [] {
      assert a + b == a;
    } else {
      var front, last := b[..|b| - 1], b[|b| - 1];
      SumConcat(props, a, front);
      assert (a + b)[..|a + b| - 1] == a + front && (a + b)[|a + b| - 1] == last;
    }
  }

  lemma SumOne(props: seq<Property>, pair: Pair)
    requires Known(props, pair)
    ensures Sum(props, [pair]) == Id(Term(props, pair))
  {
    assert [pair][..0] == [];
  }

  lemma FindFront(props: seq<Property>, name: string)
    requires props != [] && FindProperty(props[..|props| - 1], name) < |props| - 1
    ensures FindProperty(props, name) == FindProperty(props[..|props| - 1], name)
  {}

  lemma FindLast(props: seq<Property>)
    requires Sound(props) && props != []
    ensures FindProperty(props, props[|props| - 1].name) == |props| - 1
  {
    var last := |props| - 1;
    FindPropertyBounds(props, last);
  }

  lemma FindPropertyBounds(props: seq<Property>, k: nat)
    requires k < |props|
    ensures FindProperty(props, props[k].name) <= k
  {}

  lemma {:induction false} FindValueAt(values: seq<string>, k: nat)
    requires k < |values| && forall i, j :: 0 <= i < j < |values| ==> values[i] != values[j]
    ensures FindValue(values, values[k]) == k
  {
    if k > 0 { FindValueAt(values[1..], k - 1); }
  }

  /** Pairs known to the front properties have the same sum over all properties. */
  lemma {:induction false} SumFront(props: seq<Property>, pairs: seq<Pair>)
    requires props != [] && forall i :: 0 <= i < |pairs| ==> Known(props[..|props| - 1], pairs[i])
    ensures forall i :: 0 <= i < |pairs| ==> Known(props, pairs[i])
    ensures Sum(props, pairs) == Sum(props[..|props| - 1], pairs)
  {
    hide FindProperty, FindValue;
    if pairs != [] {
      SumFront(props, pairs[..|pairs| - 1]);
      FindFront(props, pairs[|pairs| - 1].0);
    }
  }

  ghost function LastPair(props: seq<Property>, v: nat): Pair
    requires props != [] && v < |props[|props| - 1].values|
  {
    (props[|props| - 1].name, props[|props| - 1].values[v])
  }

  lemma LastPairKnown(props: seq<Property>, v: nat)
    requires Sound(props) && props != [] && v < |props[|props| - 1].values|
    ensures Known(props, LastPair(props, v)) && Term(props, LastPair(props, v)) == props[|props| - 1].baseWeight * v
  {
    FindLast(props);
    FindValueAt(props[|props| - 1].values, v);
  }

  /** Names known to the front properties are not the last one's. */
  lemma FrontNames(props: seq<Property>, pair: Pair)
    requires Sound(props) && props != [] && Known(props[..|props| - 1], pair)
    ensures pair.0 != props[|props| - 1].name
  {
    hide FindValue;
    var front := props[..|props| - 1];
    var k := FindProperty(front, pair.0);
    assert front[k] == props[k];
  }

  /** A pair for the last property, and pairs for the ones before it. */
  lemma CompleteStep(props: seq<Property>, v: nat, rest: seq<Pair>)
    requires Sound(props) && props != [] && v < |props[|props| - 1].values|
    requires Complete(props[..|props| - 1], rest)
    ensures Complete(props, [LastPair(props, v)] + rest)
  {
    hide Known, Sound;
    LastPairKnown(props, v);
    SumFront(props, rest);
    forall i | 0 <= i < |rest| ensures rest[i].0 != props[|props| - 1].name { FrontNames(props, rest[i]); }
  }

  lemma SumStep(props: seq<Property>, v: nat, rest: seq<Pair>)
    requires Sound(props) && props != [] && v < |props[|props| - 1].values|
    requires Complete(props[..|props| - 1], rest)
    ensures Sum(props[..|props| - 1], rest).Id?
    ensures Sum(props, [LastPair(props, v)] + rest)
              == Id(props[|props| - 1].baseWeight * v + Sum(props[..|props| - 1], rest).id)
  {
    hide Known, Sound, Sum, Term, LastPair;
    SumOfKnown(props[..|props| - 1], rest);
    SumFront(props, rest);
    LastPairKnown(props, v);
    SumOne(props, LastPair(props, v));
    SumConcat(props, [LastPair(props, v)], rest);
  }

  lemma PairsUnfold(props: seq<Property>, id: nat)
    requires Decodable(props) && props != [] && id < Combinations(props)
    ensures Decodable(props[..|props| - 1])
    ensures var p := props[|props| - 1];
            && p.baseWeight > 0 && id / p.baseWeight < |p.values|
                 && id % p.baseWeight < Combinations(props[..|props| - 1])
            && Pairs(props, id) == [LastPair(props, id / p.baseWeight)] + Pairs(props[..|props| - 1], id % p.baseWeight)
  {
    hide Decodable, Combinations;
    var p := props[|props| - 1];
    WeightOfLast(props);
    TopDigit(id, p.baseWeight, |p.values|);
    DecodableFront(props);
    DecodeDefined(props, id);
    DecodeDefined(props[..|props| - 1], id % p.baseWeight);
  }

  lemma DivMod(a: nat, w: nat)
    requires w > 0
    ensures a == w * (a / w) + a % w
  {}

  lemma WeightOfLast(props: seq<Property>)
    requires Decodable(props) && props != []
    ensures props[|props| - 1].baseWeight == Combinations(props[..|props| - 1]) > 0
    ensures Combinations(props) == props[|props| - 1].baseWeight * |props[|props| - 1].values|
  {}

  /** An id that decodes at all decodes to complete pairs that sum up to it again, whatever the weights are, as long
      as the first one is 1. */
  lemma {:induction false} DecodedSumsUp(props: seq<Property>, id: nat)
    requires Sound(props) && (if props == [] then id == 0 else props[0].baseWeight == 1)
    requires Decode(props, id).Some?
    ensures Complete(props, Decode(props, id).value) && Sum(props, Decode(props, id).value) == Id(id)
  {
    hide Complete, Sum, Sound, LastPair, Decode;
    if props == [] {
      NothingDecoded(id);
      EmptyPairs();
    } else {
      var front, w := props[..|props| - 1], props[|props| - 1].baseWeight;
      DecodedLast(props, id);
      var v, m := id / w, id % w;
      DivMod(id, w);
      SoundFront(props);
      assert front != [] ==> front[0] == props[0];
      DecodedSumsUp(front, m);
      var rest := Decode(front, m).value;
      CompleteStep(props, v, rest);
      SumStep(props, v, rest);
    }
  }

  lemma NothingDecoded(id: nat)
    ensures Decode([], id) == Some([])
  {}

  lemma DecodedLast(props: seq<Property>, id: nat)
    requires props != [] && Decode(props, id).Some?
    ensures var p := props[|props| - 1];
            && p.baseWeight > 0 && id / p.baseWeight < |p.values|
                 && Decode(props[..|props| - 1], id % p.baseWeight).Some?
            && Decode(props, id).value
            == [LastPair(props, id / p.baseWeight)] + Decode(props[..|props| - 1], id % p.baseWeight).value
  {}

  lemma SoundFront(props: seq<Property>)
    requires Sound(props) && props != []
    ensures Sound(props[..|props| - 1])
  {}

  lemma FirstWeight(props: seq<Property>)
    requires Decodable(props) && props != []
    ensures props[0].baseWeight == 1
  {
    assert props[..0] == [];
  }

  lemma EmptyPairs()
    ensures Complete([], []) && Sum([], []) == Id(0)
    ensures Decodable([]) && Combinations([]) == 1 && Pairs([], 0) == []
    ensures forall pairs :: Complete([], pairs) ==> pairs == []
  {}

  // ----- From a block to an id and back -----

  ghost function PairNames(pairs: seq<Pair>): set<string> {
    set k | 0 <= k < |pairs| :: pairs[k].0
  }

  ghost function PropertyNames(props: seq<Property>): set<string> {
    set k | 0 <= k < |props| :: props[k].name
  }

  lemma {:induction false} CountPairNames(pairs: seq<Pair>)
    requires DistinctNames(pairs)
    ensures |PairNames(pairs)| == |pairs|
  {
    if pairs != [] {
      var front, last := pairs[..|pairs| - 1], pairs[|pairs| - 1];
      CountPairNames(front);
      assert PairNames(pairs) == PairNames(front) + {last.0};
    }
  }

  lemma {:induction false} CountPropertyNames(props: seq<Property>)
    requires forall i, j :: 0 <= i < j < |props| ==> props[i].name != props[j].name
    ensures |PropertyNames(props)| == |props|
  {
    if props != [] {
      var front, last := props[..|props| - 1], props[|props| - 1];
      CountPropertyNames(front);
      assert PropertyNames(props) == PropertyNames(front) + {last.name};
    }
  }

  lemma SameSize<T>(a: set<T>, b: set<T>)
    requires a <= b && |a| == |b|
    ensures a == b
  {
    assert |b| == |a| + |b - a|;
  }

  lemma KnownNames(props: seq<Property>, pairs: seq<Pair>)
    requires Partial(props, pairs)
    ensures PairNames(pairs) <= PropertyNames(props)
  {
    forall k | 0 <= k < |pairs| ensures pairs[k].0 in PropertyNames(props) {
      assert Known(props, pairs[k]);
    }
  }

  /** Pigeonhole: complete pairs mention every property. */
  lemma CompleteCovers(props: seq<Property>, pairs: seq<Pair>)
    requires Sound(props) && Complete(props, pairs)
    ensures PairNames(pairs) == PropertyNames(props)
  {
    hide Known, Sound, Partial;
    assert Partial(props, pairs) && DistinctNames(pairs) by { HalfOf(props, pairs); }
    assert forall i, j :: 0 <= i < j < |props| ==> props[i].name != props[j].name by { SoundNames(props); }
    KnownNames(props, pairs);
    CountPairNames(pairs);
    CountPropertyNames(props);
    SameSize(PairNames(pairs), PropertyNames(props));
  }

  lemma HalfOf(props: seq<Property>, pairs: seq<Pair>)
    requires Partial(props, pairs)
    ensures DistinctNames(pairs)
  {}

  lemma SoundNames(props: seq<Property>)
    requires Sound(props)
    ensures forall i, j :: 0 <= i < j < |props| ==> props[i].name != props[j].name
  {}

  /** The pair for the last property, and the other pairs, which are complete for the front. */
  lemma TakeLast(props: seq<Property>, pairs: seq<Pair>) returns (v: nat, a: seq<Pair>, b: seq<Pair>)
    requires Sound(props) && props != [] && Complete(props, pairs)
    ensures v < |props[|props| - 1].values| && pairs == a + [LastPair(props, v)] + b
    ensures Complete(props[..|props| - 1], a + b)
  {
    hide Sound, Known, Complete, LastPair, PairNames;
    var i := IndexOfLast(props, pairs);
    v := LastValue(props, pairs[i]);
    a, b := pairs[..i], pairs[i + 1..];
    DropOne(props, pairs, i);
  }

  lemma SoundOf(props: seq<Property>)
    requires Decodable(props)
    ensures Sound(props)
  {}

  lemma IndexOfLast(props: seq<Property>, pairs: seq<Pair>) returns (i: nat)
    requires Sound(props) && props != [] && Complete(props, pairs)
    ensures i < |pairs| && pairs[i].0 == props[|props| - 1].name && Known(props, pairs[i])
  {
    hide Sound, Known;
    CompleteCovers(props, pairs);
    assert props[|props| - 1].name in PropertyNames(props);
    i :| 0 <= i < |pairs| && pairs[i].0 == props[|props| - 1].name;
  }

  lemma LastValue(props: seq<Property>, pair: Pair) returns (v: nat)
    requires Sound(props) && props != [] && Known(props, pair) && pair.0 == props[|props| - 1].name
    ensures v < |props[|props| - 1].values| && pair == LastPair(props, v)
  {
    hide Sound;
    FindLast(props);
    v := FindValue(props[|props| - 1].values, pair.1);
  }

  lemma DropOne(props: seq<Property>, pairs: seq<Pair>, i: nat)
    requires props != [] && Complete(props, pairs) && i < |pairs| && pairs[i].0 == props[|props| - 1].name
    ensures Complete(props[..|props| - 1], pairs[..i] + pairs[i + 1..])
  {
    hide Known;
    var rest := pairs[..i] + pairs[i + 1..];
    assert forall k :: 0 <= k < |rest| ==> rest[k] == pairs[if k < i then k else k + 1];
    forall k | 0 <= k < |rest| ensures Known(props[..|props| - 1], rest[k]) {
      KnownFront(props, rest[k]);
    }
  }

  lemma KnownFront(props: seq<Property>, pair: Pair)
    requires props != [] && Known(props, pair) && pair.0 != props[|props| - 1].name
    ensures Known(props[..|props| - 1], pair)
  {
    var k := FindProperty(props, pair.0);
    FindPropertyBounds(props[..|props| - 1], k);
    FindFront(props, pair.0);
  }

  lemma SumOfSplit(props: seq<Property>, a: seq<Pair>, x: Pair, b: seq<Pair>)
    requires Sum(props, a + b).Id? && Known(props, x)
    requires forall i :: 0 <= i < |a + b| ==> Known(props, (a + b)[i])
    ensures Sum(props, a + [x] + b) == Id(Sum(props, a + b).id + Term(props, x))
  {
    hide Known, Sum, Term;
    assert forall i :: 0 <= i < |a| ==> a[i] == (a + b)[i];
    assert forall i :: 0 <= i < |b| ==> b[i] == (a + b)[|a| + i];
    SumOfKnown(props, a);
    SumOfKnown(props, b);
    SumOne(props, x);
    SumConcat(props, a, b);
    SumConcat(props, a, [x]);
    SumConcat(props, a + [x], b);
  }

  lemma DigitsUnique(w: nat, v: nat, m: nat, n: nat)
    requires w > 0 && m < w && v < n
    ensures (w * v + m) / w == v && (w * v + m) % w == m && w * v + m < w * n
  {
    assert w * v + w <= w * n by { MulStep(w, v, n); }
    DivOf(w, v, m);
  }

  /** Complete pairs, in any order, sum up to an id in range that decodes to the same pairs. */
  lemma {:induction false} PairsOfSum(props: seq<Property>, pairs: seq<Pair>)
    requires Decodable(props) && Complete(props, pairs)
    ensures Sum(props, pairs).Id? && Sum(props, pairs).id < Combinations(props)
    ensures multiset(Pairs(props, Sum(props, pairs).id)) == multiset(pairs)
  {
    hide Known, Sum, Term, LastPair, Complete, Decodable, Combinations, Pairs;
    if props == [] {
      EmptyPairs();
    } else {
      var front, last := props[..|props| - 1], props[|props| - 1];
      SoundOf(props);
      var v, a, b := TakeLast(props, pairs);
      DecodableFront(props);
      PairsOfSum(front, a + b);
      var m := Sum(front, a + b).id;
      WholeSum(props, v, a, b);
      PairsOfDigits(props, v, m);
      assert multiset(a + [LastPair(props, v)] + b) == multiset([LastPair(props, v)]) + multiset(a + b);
    }
  }

  lemma WholeSum(props: seq<Property>, v: nat, a: seq<Pair>, b: seq<Pair>)
    requires Sound(props) && props != [] && v < |props[|props| - 1].values|
    requires Complete(props[..|props| - 1], a + b)
    ensures Sum(props[..|props| - 1], a + b).Id?
    ensures Sum(props, a + [LastPair(props, v)] + b)
              == Id(props[|props| - 1].baseWeight * v + Sum(props[..|props| - 1], a + b).id)
  {
    hide Known, Sum, Term, LastPair, Sound;
    SumOfKnown(props[..|props| - 1], a + b);
    SumFront(props, a + b);
    LastPairKnown(props, v);
    SumOfSplit(props, a, LastPair(props, v), b);
  }

  lemma PairsOfDigits(props: seq<Property>, v: nat, m: nat)
    requires Decodable(props) && props != [] && v < |props[|props| - 1].values|
    requires Decodable(props[..|props| - 1]) && m < Combinations(props[..|props| - 1])
    ensures var id := props[|props| - 1].baseWeight * v + m;
            id < Combinations(props) && Pairs(props, id) == [LastPair(props, v)] + Pairs(props[..|props| - 1], m)
  {
    hide Decodable, Pairs, LastPair, Combinations;
    var p := props[|props| - 1];
    WeightOfLast(props);
    DigitsUnique(p.baseWeight, v, m, |p.values|);
    PairsUnfold(props, p.baseWeight * v + m);
  }

  // ----- The laws of the palette -----

  lemma {:induction false} FindBlockAt(blocks: seq<InternalBlock>, k: nat)
    requires Apart(blocks) && k < |blocks|
    ensures FindBlock(blocks, blocks[k].name) == k
  {
    FindBlockBound(blocks, k);
  }

  lemma FindBlockBound(blocks: seq<InternalBlock>, k: nat)
    requires k < |blocks|
    ensures FindBlock(blocks, blocks[k].name) <= k
  {}

  /** The decoder finds the one block whose range holds the id. */
  lemma {:induction false} DecodeInRange(blocks: seq<InternalBlock>, k: nat, id: nat)
    requires Apart(blocks) && k < |blocks| && blocks[k].baseId <= id <= blocks[k].maxId
    ensures FromProtocolIdToBlock(blocks, id) ==
            match Decode(blocks[k].properties, id - blocks[k].baseId)
            case None => None
            case Some(pairs) => Some(Block(blocks[k].name, pairs))
  {
    hide Decode;
    if k > 0 {
      var b := blocks[0];
      assert b.maxId < blocks[k].baseId || blocks[k].maxId < b.baseId;
      assert forall i :: 0 <= i < |blocks[1..]| ==> blocks[1..][i] == blocks[i + 1];
      DecodeInRange(blocks[1..], k - 1, id);
    }
  }

  /** id -> block -> id is the identity on the range of every good block, whatever the other blocks are. */
  lemma IdRoundTrip(blocks: seq<InternalBlock>, k: nat, id: nat)
    requires Apart(blocks) && k < |blocks| && GoodBlock(blocks[k]) && blocks[k].baseId <= id <= blocks[k].maxId
    ensures var found := FromProtocolIdToBlock(blocks, id);
            found.Some? && FromBlockToProtocolId(blocks, found.value) == id
  {
    hide Sum, Decode, Decodable, Apart;
    DecodeInRange(blocks, k, id);
    DecodeDefined(blocks[k].properties, id - blocks[k].baseId);
    FindBlockAt(blocks, k);
    SoundOf(blocks[k].properties);
    if blocks[k].properties != [] { FirstWeight(blocks[k].properties); }
    DecodedSumsUp(blocks[k].properties, id - blocks[k].baseId);
  }

  /** block -> id -> block is the identity up to the order of the properties, for good blocks that give them all. */
  lemma BlockRoundTrip(blocks: seq<InternalBlock>, k: nat, pairs: seq<Pair>)
    requires Apart(blocks) && k < |blocks| && GoodBlock(blocks[k]) && Complete(blocks[k].properties, pairs)
    ensures var id := FromBlockToProtocolId(blocks, Block(blocks[k].name, pairs));
            var found := FromProtocolIdToBlock(blocks, id);
            && blocks[k].baseId <= id <= blocks[k].maxId
            && found.Some? && found.value.name == blocks[k].name && multiset(found.value.properties) == multiset(pairs)
  {
    hide Sum, Decode, Decodable, Partial, Apart, FromBlockToProtocolId, FromProtocolIdToBlock, Combinations;
    PairsOfSum(blocks[k].properties, pairs);
    EncodeComplete(blocks, k, pairs);
    DecodeDefined(blocks[k].properties, Sum(blocks[k].properties, pairs).id);
    DecodeInRange(blocks, k, blocks[k].baseId + Sum(blocks[k].properties, pairs).id);
  }

  lemma EncodeComplete(blocks: seq<InternalBlock>, k: nat, pairs: seq<Pair>)
    requires Apart(blocks) && k < |blocks| && |pairs| == |blocks[k].properties|
    ensures Sum(blocks[k].properties, pairs).Id? ==>
              FromBlockToProtocolId(blocks, Block(blocks[k].name, pairs))
                  == blocks[k].baseId + Sum(blocks[k].properties, pairs).id
  {
    hide Sum, Partial, Apart, FindBlock;
    FindBlockAt(blocks, k);
  }

  /** Id 0 for a block that the palette does not have, and for one with a property or a value that it does not know. */
  lemma UnknownGivesZero(blocks: seq<InternalBlock>, block: Block)
    ensures (forall k :: 0 <= k < |blocks| ==> blocks[k].name != block.name) ==>
              FromBlockToProtocolId(blocks, block) == 0
    ensures var k := FindBlock(blocks, block.name);
            k < |blocks| && HasUnknown(blocks[k].properties, block.properties) ==>
              FromBlockToProtocolId(blocks, block) == 0
  {
    var k := FindBlock(blocks, block.name);
    if k < |blocks| && HasUnknown(blocks[k].properties, block.properties) {
      var all := Completed(blocks[k], block.properties);
      UnknownStays(blocks[k].properties, block.properties, all);
      UnknownHasNoSum(blocks[k].properties, all);
    }
  }

  ghost predicate HasUnknown(props: seq<Property>, pairs: seq<Pair>) {
    exists i :: 0 <= i < |pairs| && !Known(props, pairs[i])
  }

  lemma UnknownStays(props: seq<Property>, pairs: seq<Pair>, more: seq<Pair>)
    requires HasUnknown(props, pairs) && pairs <= more
    ensures HasUnknown(props, more)
  {
    hide Known;
    var i :| 0 <= i < |pairs| && !Known(props, pairs[i]);
    assert more[i] == pairs[i];
  }

  lemma {:induction false} UnknownHasNoSum(props: seq<Property>, pairs: seq<Pair>)
    requires HasUnknown(props, pairs)
    ensures Sum(props, pairs).NotFound?
  {
    hide FindProperty, FindValue;
    var front, last := pairs[..|pairs| - 1], pairs[|pairs| - 1];
    if Known(props, last) {
      var i :| 0 <= i < |pairs| && !Known(props, pairs[i]);
      assert front[i] == pairs[i];
      UnknownHasNoSum(props, front);
    }
  }

  /** An id outside every range is air. */
  lemma {:induction false} OutsideIsAir(blocks: seq<InternalBlock>, id: nat)
    requires forall k :: 0 <= k < |blocks| ==> id < blocks[k].baseId || id > blocks[k].maxId
    ensures FromProtocolIdToBlock(blocks, id) == Some(Block("minecraft:air", []))
  {
    if blocks != [] { OutsideIsAir(blocks[1..], id); }
  }

  /** The pairs that completion adds: those defaults whose names were not given. */
  lemma {:induction false} MissingIs(defaults: seq<Pair>, given: seq<Pair>)
    requires DistinctNames(defaults)
    ensures forall d :: d in Missing(defaults, given) <==> d in defaults && !HasName(given, d.0)
    ensures DistinctNames(Missing(defaults, given))
  {
    if defaults != [] {
      var front, d := defaults[..|defaults| - 1], defaults[|defaults| - 1];
      MissingIs(front, given);
      var missing := Missing(front, given);
      assert defaults == front + [d];
      forall k | 0 <= k < |missing| ensures missing[k].0 != d.0 {
        assert missing[k] in missing;
      }
      HasNameConcat(given, missing, d.0);
    }
  }

  lemma HasNameConcat(a: seq<Pair>, b: seq<Pair>, name: string)
    ensures HasName(a + b, name) <==> HasName(a, name) || HasName(b, name)
  {
    if HasName(a, name) {
      var k :| 0 <= k < |a| && a[k].0 == name;
      assert (a + b)[k].0 == name;
    }
    if HasName(b, name) {
      var k :| 0 <= k < |b| && b[k].0 == name;
      assert (a + b)[|a| + k].0 == name;
    }
  }

  /** Given pairs, completed by defaults that cover everything, are complete. */
  lemma CompletionCompletes(b: InternalBlock, given: seq<Pair>)
    requires Sound(b.properties) && Partial(b.properties, given) && Complete(b.properties, b.defaults)
    ensures Complete(b.properties, Completed(b, given))
  {
    hide Known, Sound, Missing;
    if |given| != |b.properties| {
      var missing := Missing(b.defaults, given);
      MissingIs(b.defaults, given);
      CompletePartial(b, given, missing);
      CompleteCovers(b.properties, b.defaults);
      assert PairNames(given + missing) == PropertyNames(b.properties) by { CompletedNames(b, given, missing); }
      CountPairNames(given + missing);
      SoundNames(b.properties);
      CountPropertyNames(b.properties);
    }
  }

  lemma CompletePartial(b: InternalBlock, given: seq<Pair>, missing: seq<Pair>)
    requires Partial(b.properties, given) && Complete(b.properties, b.defaults) && DistinctNames(missing)
    requires forall d :: d in missing <==> d in b.defaults && !HasName(given, d.0)
    ensures Partial(b.properties, given + missing)
  {
    hide Known;
    forall k | 0 <= k < |missing| ensures Known(b.properties, missing[k]) && !HasName(given, missing[k].0) {
      assert missing[k] in missing;
    }
  }

  lemma CompletedNames(b: InternalBlock, given: seq<Pair>, missing: seq<Pair>)
    requires forall d :: d in missing <==> d in b.defaults && !HasName(given, d.0)
    requires Partial(b.properties, given + missing)
    requires PairNames(b.defaults) == PropertyNames(b.properties)
    ensures PairNames(given + missing) == PropertyNames(b.properties)
  {
    KnownNames(b.properties, given + missing);
    forall name | name in PropertyNames(b.properties) ensures name in PairNames(given + missing) {
      assert name in PairNames(b.defaults);
      var k :| 0 <= k < |b.defaults| && b.defaults[k].0 == name;
      if HasName(given, name) {
        var i :| 0 <= i < |given| && given[i].0 == name;
        assert (given + missing)[i].0 == name;
      } else {
        assert b.defaults[k] in missing;
        var i :| 0 <= i < |missing| && missing[i] == b.defaults[k];
        assert (given + missing)[|given| + i].0 == name;
      }
    }
  }

  /** A block that gives only some properties gets the id of the block completed by its defaults: decoding the id
      gives back every given pair, and the default for every property that was left out. */
  lemma OmittedPropertiesAreDefaults(blocks: seq<InternalBlock>, k: nat, given: seq<Pair>)
    requires Apart(blocks) && k < |blocks| && GoodBlock(blocks[k])
    requires Partial(blocks[k].properties, given) && Complete(blocks[k].properties, blocks[k].defaults)
    ensures var id := FromBlockToProtocolId(blocks, Block(blocks[k].name, given));
            var found := FromProtocolIdToBlock(blocks, id);
            && blocks[k].baseId <= id <= blocks[k].maxId
            && found.Some? && |found.value.properties| == |blocks[k].properties|
            && (forall pair :: pair in given ==> pair in found.value.properties)
            && (forall d :: d in blocks[k].defaults && !HasName(given, d.0) ==> d in found.value.properties)
  {
    hide Sum, Decode, Sound, Weighted, Partial, Missing, FromProtocolIdToBlock, Combinations, Apart;
    var b := blocks[k];
    var all := Completed(b, given);
    CompletionCompletes(b, given);
    CompletedIsComplete(b, all);
    BlockRoundTrip(blocks, k, all);
    FindBlockAt(blocks, k);
    DefaultsDistinct(b);
    MissingIs(b.defaults, given);
    var found := FromProtocolIdToBlock(blocks, FromBlockToProtocolId(blocks, Block(b.name, given))).value.properties;
    assert |multiset(found)| == |multiset(all)|;
    forall pair | pair in all ensures pair in found { assert pair in multiset(all); }
    if |given| == |b.properties| { GivenCovers(b, given); }
  }

  /** A block known only by its name gets the id that decodes to its default properties. */
  lemma NameGivesDefaults(blocks: seq<InternalBlock>, k: nat)
    requires Apart(blocks) && k < |blocks| && GoodBlock(blocks[k]) && Complete(blocks[k].properties, blocks[k].defaults)
    ensures var found := FromProtocolIdToBlock(blocks, FromNameToProtocolId(blocks, blocks[k].name));
            found.Some? && found.value.name == blocks[k].name
                && multiset(found.value.properties) == multiset(blocks[k].defaults)
  {
    hide Apart, GoodBlock, FindBlock, FromBlockToProtocolId, FromProtocolIdToBlock, Complete;
    FindBlockAt(blocks, k);
    BlockRoundTrip(blocks, k, blocks[k].defaults);
  }

  lemma DefaultsDistinct(b: InternalBlock)
    requires Complete(b.properties, b.defaults)
    ensures DistinctNames(b.defaults)
  {}

  lemma CompletedIsComplete(b: InternalBlock, all: seq<Pair>)
    requires Complete(b.properties, all)
    ensures Completed(b, all) == all
  {}

  /** With as many pairs as properties nothing is left out. */
  lemma GivenCovers(b: InternalBlock, given: seq<Pair>)
    requires Sound(b.properties) && Partial(b.properties, given) && |given| == |b.properties|
    requires Complete(b.properties, b.defaults)
    ensures forall d :: d in b.defaults ==> HasName(given, d.0)
  {
    hide Sound, Known;
    CompleteCovers(b.properties, given);
    CompleteCovers(b.properties, b.defaults);
    forall d | d in b.defaults ensures HasName(given, d.0) {
      var k :| 0 <= k < |b.defaults| && b.defaults[k] == d;
      assert d.0 in PairNames(b.defaults);
      var i :| 0 <= i < |given| && given[i].0 == d.0;
    }
  }

  // ----- The palette as it is built and used -----

  /** A block of the JSON file: its properties in file order, and its states with their ids; `defaults` is the
      property list of the state marked as default, if there is one. */
  datatype FileBlock = FileBlock(name: string, properties: seq<(string, seq<string>)>, ids: seq<nat>, hasDefault: bool,
      defaults: seq<Pair>)

  /** File properties from the last to the first, each with the 8-bit weight it is given. */
  function WithWeights(properties: seq<(string, seq<string>)>): (props: seq<Property>)
    ensures |props| == |properties|
    decreases |properties|
  {
    if properties == [] then []
    else
      var front := WithWeights(properties[1..]);
      front + [Property(properties[0].0, properties[0].1, Combinations(front) % 256)]
  }

  function Built(f: FileBlock): InternalBlock
    requires f.ids != []
  {
    InternalBlock(f.name, WithWeights(f.properties), f.defaults, f.ids[0] % 0x1_0000, f.ids[|f.ids| - 1] % 0x1_0000)
  }

  /** Reading stops at the first block without a default state. */
  function Prefix(file: seq<FileBlock>): (p: seq<FileBlock>)
    ensures p <= file
  {
    if file == [] || !file[0].hasDefault then [] else [file[0]] + Prefix(file[1..])
  }

  function BuiltAll(file: seq<FileBlock>): (b: seq<InternalBlock>)
    requires forall i :: 0 <= i < |file| ==> file[i].ids != []
    ensures |b| == |file| && forall i :: 0 <= i < |b| ==> b[i] == Built(file[i])
  {
    seq(|file|, i requires 0 <= i < |file| => Built(file[i]))
  }

  lemma {:induction false} WeightsWrap(properties: seq<(string, seq<string>)>)
    ensures forall k :: 0 <= k < |properties| ==>
              WithWeights(properties)[k].baseWeight == Combinations(WithWeights(properties)[..k]) % 256
    decreases |properties|
  {
    if properties != [] {
      var props, front := WithWeights(properties), WithWeights(properties[1..]);
      WeightsWrap(properties[1..]);
      forall k | 0 <= k < |props| ensures props[k].baseWeight == Combinations(props[..k]) % 256 {
        if k < |front| {
          assert props[..k] == front[..k];
          assert props[k] == front[k];
        } else {
          assert props[..k] == front;
        }
      }
    }
  }

  /** The weights are the ones decoding needs exactly when every one of them fits its 8-bit field. */
  lemma WeightsRightIffTheyFit(properties: seq<(string, seq<string>)>)
    ensures var props := WithWeights(properties);
            (forall k :: 0 <= k < |props| ==> props[k].baseWeight == Combinations(props[..k]))
            <==> (forall k :: 0 <= k < |props| ==> Combinations(props[..k]) < 256)
  {
    hide Combinations;
    WeightsWrap(properties);
  }

  lemma BuiltNext(file: seq<FileBlock>, n: nat)
    requires n < |file| && forall i :: 0 <= i < |file| ==> file[i].ids != []
    ensures BuiltAll(file[..n + 1]) == BuiltAll(file[..n]) + [Built(file[n])]
  {}

  class GlobalPalette {
    var blocks: seq<InternalBlock>

    constructor ()
      ensures blocks == []
    {
      blocks := [];
    }

    /** The weight loop: `weight` runs through the products of the sizes, by way of the largest sum so far. */
    method WeightProperties(properties: seq<(string, seq<string>)>) returns (props: seq<Property>)
      ensures props == WithWeights(properties)
    {
      props := [];
      var maxThingy := 0;
      var weight := 1;
      var k := |properties|;
      while k > 0
        invariant 0 <= k <= |properties|
        invariant props == WithWeights(properties[k..])
        invariant weight == Combinations(props) == maxThingy + 1
      {
        k := k - 1;
        var values := properties[k].1;
        assert properties[k..][1..] == properties[k + 1..];
        ghost var before := props;
        props := props + [Property(properties[k].0, values, weight % 256)];
        assert props[..|props| - 1] == before;
        maxThingy := maxThingy + weight * (|values| - 1);
        weight := maxThingy + 1;
        assert weight == Combinations(before) * |values|;
      }
      assert properties[0..] == properties;
    }

    /** Every state list is non-empty: the first and the last state are read without a test. */
    method Initialize(file: seq<FileBlock>)
      requires forall i :: 0 <= i < |file| ==> file[i].ids != []
      modifies this
      ensures (forall i :: 0 <= i < |Prefix(file)| ==> Prefix(file)[i].ids != [])
      ensures blocks == old(blocks) + BuiltAll(Prefix(file))
    {
      hide WithWeights, BuiltAll, Prefix;
      PrefixOf(file, |Prefix(file)|);
      var n := 0;
      while n < |file|
        invariant 0 <= n <= |Prefix(file)| && |Prefix(file)| <= |file|
        invariant blocks == old(blocks) + BuiltAll(file[..n])
      {
        var f := file[n];
        PrefixOf(file, n);
        var props := WeightProperties(f.properties);
        if !f.hasDefault {
          assert Prefix(file) == file[..n];
          return;
        }
        BuiltNext(file, n);
        blocks := blocks + [InternalBlock(f.name, props, f.defaults, f.ids[0] % 0x1_0000,
            f.ids[|f.ids| - 1] % 0x1_0000)];
        n := n + 1;
      }
      assert Prefix(file) == file[..n];
    }

    /** The default completion: appends to the block's own list. */
    method CompleteDefaults(b: InternalBlock, given: seq<Pair>) returns (pairs: seq<Pair>)
      ensures pairs == Completed(b, given)
    {
      pairs := given;
      if |given| == |b.properties| { return; }
      for i := 0 to |b.defaults|
        invariant pairs == given + Missing(b.defaults[..i], given)
      {
        var found := false;
        for j := 0 to |pairs|
          invariant found <==> HasName(pairs[..j], b.defaults[i].0)
        {
          if pairs[j].0 == b.defaults[i].0 { found := true; }
          assert pairs[..j + 1] == pairs[..j] + [pairs[j]];
          HasNameConcat(pairs[..j], [pairs[j]], b.defaults[i].0);
          OneName(pairs[j], b.defaults[i].0);
        }
        assert pairs[..|pairs|] == pairs;
        assert b.defaults[..i + 1][..i] == b.defaults[..i];
        if !found { pairs := pairs + [b.defaults[i]]; }
      }
      assert b.defaults[..|b.defaults|] == b.defaults;
    }

    method EncodeBlock(block: Block) returns (id: nat)
      ensures id == FromBlockToProtocolId(blocks, block)
    {
      var i := FindBlock(blocks, block.name);
      if i == |blocks| { return 0; }
      var b := blocks[i];
      var pairs := CompleteDefaults(b, block.properties);
      if pairs == [] && b.properties == [] { return b.baseId; }
      var sum := EncodePairs(b.properties, pairs);
      if sum.NotFound? { return 0; }
      id := b.baseId + sum.id;
    }

    /** The encoding loop. */
    method EncodePairs(props: seq<Property>, pairs: seq<Pair>) returns (r: Encoded)
      ensures r == Sum(props, pairs)
    {
      var id: nat := 0;
      for k := 0 to |pairs|
        invariant Sum(props, pairs[..k]) == Id(id)
      {
        assert pairs[..k + 1][..k] == pairs[..k];
        var p := FindProperty(props, pairs[k].0);
        if p == |props| {
          SumStops(props, pairs, k + 1);
          return NotFound;
        }
        var v := FindValue(props[p].values, pairs[k].1);
        if v == |props[p].values| {
          SumStops(props, pairs, k + 1);
          return NotFound;
        }
        id := id + props[p].baseWeight * v;
      }
      assert pairs[..|pairs|] == pairs;
      r := Id(id);
    }

    /** No result where the source divides by 0 or reads past the values of a property. */
    method DecodeBlock(protocolId: nat) returns (block: Option<Block>)
      ensures block == FromProtocolIdToBlock(blocks, protocolId)
    {
      for i := 0 to |blocks|
        invariant FromProtocolIdToBlock(blocks, protocolId) == FromProtocolIdToBlock(blocks[i..], protocolId)
      {
        var b := blocks[i];
        assert blocks[i..][0] == b && blocks[i..][1..] == blocks[i + 1..];
        if protocolId < b.baseId || protocolId > b.maxId { continue; }
        if b.properties == [] { return Some(Block(b.name, [])); }
        var pairs := DecodeProperties(b.properties, protocolId - b.baseId);
        return if pairs.None? then None else Some(Block(b.name, pairs.value));
      }
      assert blocks[|blocks|..] == [];
      block := Some(Block("minecraft:air", []));
    }

    method DecodeProperties(props: seq<Property>, index: nat) returns (pairs: Option<seq<Pair>>)
      ensures pairs == Decode(props, index)
    {
      var done: seq<Pair> := [];
      var id: nat, k: nat := index, |props|;
      assert props[..k] == props;
      PrependNothing(Decode(props, index));
      while k > 0
        invariant 0 <= k <= |props|
        invariant Decode(props, index) == Prepended(done, Decode(props[..k], id))
      {
        assert props[..k][..k - 1] == props[..k - 1];
        k := k - 1;
        var property := props[k];
        if property.baseWeight == 0 { return None; }
        var value := id / property.baseWeight;
        if value >= |property.values| { return None; }
        var pair := (property.name, property.values[value]);
        PrependOne(done, pair, Decode(props[..k], id % property.baseWeight));
        done := done + [pair];
        id := id % property.baseWeight;
      }
      assert done + [] == done;
      pairs := Some(done);
    }
  }

  lemma PrependOne(done: seq<Pair>, pair: Pair, rest: Option<seq<Pair>>)
    ensures Prepended(done, Prepended([pair], rest)) == Prepended(done + [pair], rest)
  {
    if rest.Some? { assert done + ([pair] + rest.value) == done + [pair] + rest.value; }
  }

  lemma PrependNothing(rest: Option<seq<Pair>>)
    ensures Prepended([], rest) == rest
  {
    if rest.Some? { assert [] + rest.value == rest.value; }
  }

  ghost function Prepended(done: seq<Pair>, rest: Option<seq<Pair>>): Option<seq<Pair>> {
    match rest
    case None => None
    case Some(pairs) => Some(done + pairs)
  }

  lemma OneName(pair: Pair, name: string)
    ensures HasName([pair], name) <==> pair.0 == name
  {
    if pair.0 == name { assert [pair][0].0 == name; }
  }

  lemma {:induction false} SumStops(props: seq<Property>, pairs: seq<Pair>, k: nat)
    requires k <= |pairs| && Sum(props, pairs[..k]).NotFound?
    ensures Sum(props, pairs).NotFound?
    decreases |pairs|
  {
    if k < |pairs| {
      var front := pairs[..|pairs| - 1];
      assert front[..k] == pairs[..k];
      SumStops(props, front, k);
    } else {
      assert pairs[..k] == pairs;
    }
  }

  lemma {:induction false} PrefixOf(file: seq<FileBlock>, n: nat)
    requires n <= |Prefix(file)|
    ensures n < |file| ==> (n < |Prefix(file)| <==> file[n].hasDefault)
    decreases n
  {
    if n > 0 { PrefixOf(file[1..], n - 1); }
  }
}
