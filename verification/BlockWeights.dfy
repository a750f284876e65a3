/** When the global block palette is a bijection. A weight is kept in eight bits, so a block with many states can
    lose it; the conditions here are exact, block by block. */
module BlockWeights {
  import opened Arithmetic
  import opened BlockStates

  /** Each weight as the source stores it: the number of combinations of the properties before, cut to eight bits. */
  predicate CutToByte(props: seq<Property>) {
    forall k :: 0 <= k < |props| ==> props[k].baseWeight == Combinations(props[..k]) % 256
  }

  /** No weight was cut. */
  predicate WeightsFit(props: seq<Property>) {
    forall k :: 0 <= k < |props| ==> Combinations(props[..k]) < 256
  }

  /** No weight was cut that is ever multiplied by anything but 0. */
  predicate UsedWeightsFit(props: seq<Property>) {
    forall k :: 0 <= k < |props| && |props[k].values| >= 2 ==> Combinations(props[..k]) < 256
  }

  lemma {:induction false} CombinationsPositive(props: seq<Property>)
    requires Sound(props)
    ensures Combinations(props) >= 1
  {
    if props != [] {
      SoundFront(props);
      CombinationsPositive(props[..|props| - 1]);
    }
  }

  lemma FrontOfFront(props: seq<Property>)
    requires props != []
    ensures forall k :: 0 <= k < |props| ==> props[..|props| - 1][..k] == props[..k]
  {}

  lemma CutFront(props: seq<Property>)
    requires CutToByte(props) && props != []
    ensures CutToByte(props[..|props| - 1])
    ensures props[|props| - 1].baseWeight == Combinations(props[..|props| - 1]) % 256
  {
    hide Combinations;
    FrontOfFront(props);
  }

  lemma FitFront(props: seq<Property>)
    requires props != []
    ensures WeightsFit(props) <==> WeightsFit(props[..|props| - 1]) && Combinations(props[..|props| - 1]) < 256
  {
    hide Combinations;
    FrontOfFront(props);
    var front := props[..|props| - 1];
    forall k | 0 <= k < |front| ensures Combinations(front[..k]) == Combinations(props[..k]) {
      assert front[..k] == props[..k];
    }
  }

  lemma SoundSubset(props: seq<Property>, k: nat)
    requires Sound(props) && k <= |props|
    ensures Sound(props[..k])
  {}

  lemma FitIsWeighted(props: seq<Property>)
    requires Sound(props) && CutToByte(props)
    ensures WeightsFit(props) <==> Decodable(props)
  {
    hide Combinations, Sound;
    forall k | 0 <= k < |props| ensures Combinations(props[..k]) >= 1 {
      SoundSubset(props, k);
      CombinationsPositive(props[..k]);
    }
  }

  // ----- From an id to a block and back -----

  lemma LastDigit(w: nat, c: nat, n: nat)
    requires n >= 1 && c >= 1
    ensures w == c ==> (c * n - 1) / w == n - 1 && (c * n - 1) % w == c - 1
    ensures 0 < w < c ==> (c * n - 1) / w >= n
    ensures c * n >= 1
  {
    assert c * n == c * (n - 1) + c && c * (n - 1) >= 0;
    if w == c {
      DivOf(c, n - 1, c - 1);
    } else if 0 < w < c {
      Quotient(c * n - 1, w, n);
      MulLess(w, c, n);
    }
  }

  lemma MulLess(w: nat, c: nat, n: nat)
    requires w < c && n >= 1
    ensures w * n < c * n
  {}

  lemma Quotient(a: nat, w: nat, n: nat)
    requires w > 0
    ensures w * n <= a ==> a / w >= n
  {
    if a / w < n {
      MulStep(w, a / w, n);
    }
  }

  lemma NothingToFit(props: seq<Property>)
    requires props == []
    ensures WeightsFit(props) && UsedWeightsFit(props)
  {}

  lemma HasValues(props: seq<Property>)
    requires Sound(props) && props != []
    ensures |props[|props| - 1].values| >= 1
  {}

  /** The last id of a block decodes exactly when no weight of the block was cut. */
  lemma {:induction false} LastIdDecodesIffWeightsFit(props: seq<Property>)
    requires Sound(props) && CutToByte(props)
    ensures Combinations(props) >= 1
    ensures Decode(props, Combinations(props) - 1).Some? <==> WeightsFit(props)
  {
    hide Sound, CutToByte, WeightsFit;
    CombinationsPositive(props);
    if props == [] {
      NothingToFit(props);
    } else {
      var front, p := props[..|props| - 1], props[|props| - 1];
      HasValues(props);
      SoundFront(props);
      CutFront(props);
      FitFront(props);
      LastIdDecodesIffWeightsFit(front);
      LastDigit(p.baseWeight, Combinations(front), |p.values|);
      CombinationsPositive(front);
    }
  }

  // ----- The same block with uncut weights -----

  function Ideal(props: seq<Property>): (r: seq<Property>)
    ensures |r| == |props|
  {
    if props == [] then []
    else
      var front, last := props[..|props| - 1], props[|props| - 1];
      Ideal(front) + [last.(baseWeight := Combinations(front))]
  }

  predicate SameValues(p: seq<Property>, q: seq<Property>) {
    |p| == |q| && forall k :: 0 <= k < |p| ==> p[k].name == q[k].name && p[k].values == q[k].values
  }

  /** The weights may differ only where the one value has index 0. */
  predicate SameWhereUsed(p: seq<Property>, q: seq<Property>) {
    SameValues(p, q) && forall k :: 0 <= k < |p| && |p[k].values| >= 2 ==> p[k].baseWeight == q[k].baseWeight
  }

  lemma {:induction false} SameCombinations(p: seq<Property>, q: seq<Property>)
    requires SameValues(p, q)
    ensures Combinations(p) == Combinations(q)
  {
    if p != [] { SameCombinations(p[..|p| - 1], q[..|q| - 1]); }
  }

  lemma {:induction false} IdealWeights(props: seq<Property>)
    ensures SameValues(props, Ideal(props))
    ensures forall k :: 0 <= k < |props| ==> Ideal(props)[k].baseWeight == Combinations(props[..k])
  {
    hide Combinations;
    if props != [] {
      var front := props[..|props| - 1];
      IdealWeights(front);
      FrontOfFront(props);
      assert forall k :: 0 <= k < |front| ==> Ideal(props)[k] == Ideal(front)[k];
    }
  }

  lemma SameSound(p: seq<Property>, q: seq<Property>)
    requires SameValues(p, q) && Sound(p)
    ensures Sound(q)
  {}

  lemma IdealCombinations(props: seq<Property>, k: nat)
    requires Sound(props) && k <= |props|
    ensures Combinations(Ideal(props)[..k]) == Combinations(props[..k]) >= 1
  {
    hide Combinations, Sound;
    IdealWeights(props);
    SameCombinations(props[..k], Ideal(props)[..k]);
    SoundSubset(props, k);
    CombinationsPositive(props[..k]);
  }

  lemma IdealDecodable(props: seq<Property>)
    requires Sound(props)
    ensures Decodable(Ideal(props)) && Combinations(Ideal(props)) == Combinations(props)
  {
    hide Combinations, Sound, SameValues;
    IdealWeights(props);
    SameCombinations(props, Ideal(props));
    SameSound(props, Ideal(props));
    forall k | 0 <= k < |props| ensures Ideal(props)[k].baseWeight == Combinations(Ideal(props)[..k]) > 0 {
      IdealCombinations(props, k);
    }
  }

  lemma SameLookup(p: seq<Property>, q: seq<Property>, name: string)
    requires SameValues(p, q)
    ensures FindProperty(p, name) == FindProperty(q, name)
  {
    var i, j := FindProperty(p, name), FindProperty(q, name);
    assert i < |p| ==> q[i].name == name;
    assert j < |q| ==> p[j].name == name;
  }

  lemma SameComplete(p: seq<Property>, q: seq<Property>, pairs: seq<Pair>)
    requires SameValues(p, q)
    ensures Complete(p, pairs) <==> Complete(q, pairs)
  {
    hide FindProperty, FindValue;
    forall i | 0 <= i < |pairs| ensures Known(p, pairs[i]) <==> Known(q, pairs[i]) {
      SameLookup(p, q, pairs[i].0);
    }
  }

  /** A weight that is only multiplied by 0 does not show in the sum. */
  lemma {:induction false} SameSum(p: seq<Property>, q: seq<Property>, pairs: seq<Pair>)
    requires SameWhereUsed(p, q)
    ensures Sum(p, pairs) == Sum(q, pairs)
  {
    hide FindProperty, FindValue;
    if pairs != [] {
      var last := pairs[|pairs| - 1];
      SameSum(p, q, pairs[..|pairs| - 1]);
      SameLookup(p, q, last.0);
      var k := FindProperty(p, last.0);
      if k < |p| { SameTerm(p[k].baseWeight, q[k].baseWeight, FindValue(p[k].values, last.1), |p[k].values|); }
    }
  }

  lemma SameTerm(w: nat, u: nat, v: nat, n: nat)
    ensures v < n && (n >= 2 ==> w == u) ==> w * v == u * v
  {}

  lemma UsedFitIsSame(props: seq<Property>)
    requires CutToByte(props) && UsedWeightsFit(props)
    ensures SameWhereUsed(props, Ideal(props))
  {
    hide Combinations;
    IdealWeights(props);
  }

  // ----- Encoding is injective exactly when the used weights fit -----

  /** Different blocks, up to the order of their properties, have different ids. */
  ghost predicate Injective(props: seq<Property>) {
    forall a, b :: Complete(props, a) && Complete(props, b) && Sum(props, a) == Sum(props, b) ==>
        multiset(a) == multiset(b)
  }

  lemma FitIsInjective(props: seq<Property>)
    requires Sound(props) && CutToByte(props) && UsedWeightsFit(props)
    ensures Injective(props)
  {
    hide Complete, Sound, CutToByte, UsedWeightsFit, Decodable, Combinations, Pairs;
    UsedFitIsSame(props);
    IdealDecodable(props);
    forall a, b | Complete(props, a) && Complete(props, b) && Sum(props, a) == Sum(props, b)
      ensures multiset(a) == multiset(b)
    {
      SumOfComplete(props, a);
      SumOfComplete(props, b);
    }
  }

  lemma SumOfComplete(props: seq<Property>, pairs: seq<Pair>)
    requires Sound(props) && SameWhereUsed(props, Ideal(props)) && Complete(props, pairs) && Decodable(Ideal(props))
    ensures Sum(props, pairs).Id? && Sum(props, pairs).id < Combinations(Ideal(props))
    ensures multiset(Pairs(Ideal(props), Sum(props, pairs).id)) == multiset(pairs)
  {
    hide Complete, Sound, Decodable, Combinations, Pairs;
    SameComplete(props, Ideal(props), pairs);
    SameSum(props, Ideal(props), pairs);
    PairsOfSum(Ideal(props), pairs);
  }

  /** Pairs for every number below the number of combinations, even where an unused weight is cut. */
  lemma Spell(props: seq<Property>, n: nat) returns (pairs: seq<Pair>)
    requires Sound(props) && CutToByte(props) && UsedWeightsFit(props) && n < Combinations(props)
    ensures Complete(props, pairs) && Sum(props, pairs) == Id(n)
  {
    hide Complete, Sound, CutToByte, UsedWeightsFit, Decodable, Combinations, SameWhereUsed;
    var ideal := Ideal(props);
    UsedFitIsSame(props);
    IdealDecodable(props);
    DecodeDefined(ideal, n);
    pairs := Decode(ideal, n).value;
    IdealWeights(props);
    SoundOf(ideal);
    if ideal != [] { FirstWeight(ideal); } else { EmptyPairs(); }
    DecodedSumsUp(ideal, n);
    SameComplete(props, ideal, pairs);
    SameSum(props, ideal, pairs);
  }

  lemma UsedFitFront(props: seq<Property>)
    requires props != []
    ensures UsedWeightsFit(props) <==>
            UsedWeightsFit(props[..|props| - 1])
                && (|props[|props| - 1].values| >= 2 ==> Combinations(props[..|props| - 1]) < 256)
  {
    hide Combinations;
    var front := props[..|props| - 1];
    forall k | 0 <= k < |front| ensures Combinations(front[..k]) == Combinations(props[..k]) && front[k] == props[k] {
      assert front[..k] == props[..k];
    }
  }

  /** At the first used weight that is cut, value 1 of its property and value 0 with the number of the cut weight
      spelled by the properties before it have the same sum. */
  lemma {:induction false} Collision(props: seq<Property>) returns (a: seq<Pair>, b: seq<Pair>)
    requires Sound(props) && CutToByte(props) && !UsedWeightsFit(props)
    ensures Complete(props, a) && Complete(props, b) && Sum(props, a) == Sum(props, b) && Sum(props, a).Id?
    ensures multiset(a) != multiset(b)
  {
    hide Complete, Sum, Sound, CutToByte, UsedWeightsFit, Combinations, LastPair;
    if props == [] { NothingToFit(props); }
    var front, p := props[..|props| - 1], props[|props| - 1];
    HasValues(props);
    SoundFront(props);
    CutFront(props);
    UsedFitFront(props);
    CombinationsPositive(front);
    if !UsedWeightsFit(front) {
      var c, d := Collision(front);
      a := Extend(props, 0, c);
      b := Extend(props, 0, d);
      MultisetsApart(LastPair(props, 0), c, d);
    } else {
      var zero := Spell(front, 0);
      var rest := Spell(front, p.baseWeight);
      a := Extend(props, 1, zero);
      b := Extend(props, 0, rest);
      OtherValue(props, rest);
    }
  }

  lemma Extend(props: seq<Property>, v: nat, rest: seq<Pair>) returns (pairs: seq<Pair>)
    requires Sound(props) && props != [] && v < |props[|props| - 1].values| && Complete(props[..|props| - 1], rest)
    requires Sum(props[..|props| - 1], rest).Id?
    ensures pairs == [LastPair(props, v)] + rest && Complete(props, pairs)
    ensures Sum(props, pairs) == Id(props[|props| - 1].baseWeight * v + Sum(props[..|props| - 1], rest).id)
  {
    hide Complete, Sum, Sound, LastPair;
    pairs := [LastPair(props, v)] + rest;
    CompleteStep(props, v, rest);
    SumStep(props, v, rest);
  }

  lemma MultisetsApart(x: Pair, c: seq<Pair>, d: seq<Pair>)
    requires multiset(c) != multiset(d)
    ensures multiset([x] + c) != multiset([x] + d)
  {
    assert multiset([x] + c) == multiset([x]) + multiset(c) && multiset([x] + d) == multiset([x]) + multiset(d);
    assert multiset([x] + c) - multiset([x]) == multiset(c) && multiset([x] + d) - multiset([x]) == multiset(d);
  }

  lemma OtherValue(props: seq<Property>, rest: seq<Pair>)
    requires Sound(props) && props != [] && |props[|props| - 1].values| >= 2 && Complete(props[..|props| - 1], rest)
    ensures forall zero: seq<Pair> :: multiset([LastPair(props, 1)] + zero) != multiset([LastPair(props, 0)] + rest)
  {
    hide Known;
    var one, b := LastPair(props, 1), [LastPair(props, 0)] + rest;
    assert one !in rest by {
      forall k | 0 <= k < |rest| ensures rest[k] != one { FrontNames(props, rest[k]); }
    }
    assert one != LastPair(props, 0);
    assert one !in multiset(b);
    forall zero: seq<Pair> ensures multiset([one] + zero) != multiset(b) {
      assert ([one] + zero)[0] == one;
      assert one in multiset([one] + zero);
    }
  }

  /** For any block the weight loop can make: encoding is injective exactly when every property that has a choice has
      an uncut weight. */
  lemma InjectiveIffUsedWeightsFit(props: seq<Property>)
    requires Sound(props) && CutToByte(props)
    ensures Injective(props) <==> UsedWeightsFit(props)
  {
    hide Sound, CutToByte, UsedWeightsFit, Complete, Sum;
    if UsedWeightsFit(props) {
      FitIsInjective(props);
    } else {
      var a, b := Collision(props);
    }
  }

  // ----- The laws of a palette, block by block -----

  /** A block as reading the file makes it, with a range as large as its combinations. */
  predicate AsRead(b: InternalBlock) {
    Sound(b.properties) && CutToByte(b.properties) && b.maxId + 1 == b.baseId + Combinations(b.properties)
  }

  lemma FirstCutWeight(props: seq<Property>)
    requires CutToByte(props) && props != []
    ensures props[0].baseWeight == 1
  {
    assert props[..0] == [];
  }

  /** Every id of a range that decodes at all encodes back to itself. All ids of the range decode if and only if the
      last one does, and that is exactly when no weight of the block is cut. */
  lemma IdsRoundTripIffWeightsFit(blocks: seq<InternalBlock>, k: nat)
    requires Apart(blocks) && k < |blocks| && AsRead(blocks[k])
    ensures forall id :: blocks[k].baseId <= id <= blocks[k].maxId && FromProtocolIdToBlock(blocks, id).Some? ==>
              FromBlockToProtocolId(blocks, FromProtocolIdToBlock(blocks, id).value) == id
    ensures (forall id :: blocks[k].baseId <= id <= blocks[k].maxId ==> FromProtocolIdToBlock(blocks, id).Some?)
            <==> WeightsFit(blocks[k].properties)
    ensures FromProtocolIdToBlock(blocks, blocks[k].maxId).Some? <==> WeightsFit(blocks[k].properties)
  {
    hide Apart, Sound, CutToByte, WeightsFit, Combinations, Decode, FromProtocolIdToBlock, FromBlockToProtocolId;
    var b := blocks[k];
    LastIdDecodesIffWeightsFit(b.properties);
    DecodeInRange(blocks, k, b.maxId);
    FitIsWeighted(b.properties);
    forall id | b.baseId <= id <= b.maxId
      ensures FromProtocolIdToBlock(blocks, id).Some? ==>
                FromBlockToProtocolId(blocks, FromProtocolIdToBlock(blocks, id).value) == id
      ensures WeightsFit(b.properties) ==> FromProtocolIdToBlock(blocks, id).Some?
    {
      if WeightsFit(b.properties) { DecodeDefined(b.properties, id - b.baseId); }
      DecodedIdEncodes(blocks, k, id);
    }
  }

  lemma DecodedIdEncodes(blocks: seq<InternalBlock>, k: nat, id: nat)
    requires Apart(blocks) && k < |blocks| && AsRead(blocks[k]) && blocks[k].baseId <= id <= blocks[k].maxId
    ensures FromProtocolIdToBlock(blocks, id).Some? <==> Decode(blocks[k].properties, id - blocks[k].baseId).Some?
    ensures FromProtocolIdToBlock(blocks, id).Some? ==>
              FromBlockToProtocolId(blocks, FromProtocolIdToBlock(blocks, id).value) == id
  {
    hide Apart, Sound, CutToByte, Decode, Sum, FromProtocolIdToBlock, FromBlockToProtocolId;
    var b := blocks[k];
    DecodeInRange(blocks, k, id);
    if FromProtocolIdToBlock(blocks, id).Some? {
      if b.properties != [] { FirstCutWeight(b.properties); }
      DecodedSumsUp(b.properties, id - b.baseId);
      EncodeComplete(blocks, k, Decode(b.properties, id - b.baseId).value);
    }
  }

  /** Is a block the one that its id decodes to, up to the order of its properties? */
  ghost predicate ComesBack(blocks: seq<InternalBlock>, block: Block) {
    var found := FromProtocolIdToBlock(blocks, FromBlockToProtocolId(blocks, block));
    found.Some? && found.value.name == block.name && multiset(found.value.properties) == multiset(block.properties)
  }

  /** Blocks that give all properties come back from their id exactly when no weight is cut. */
  lemma BlocksRoundTripIffWeightsFit(blocks: seq<InternalBlock>, k: nat)
    requires Apart(blocks) && k < |blocks| && AsRead(blocks[k])
    ensures (forall pairs :: Complete(blocks[k].properties, pairs) ==> ComesBack(blocks, Block(blocks[k].name, pairs)))
            <==> WeightsFit(blocks[k].properties)
  {
    hide Apart, Sound, CutToByte, WeightsFit, UsedWeightsFit, Complete, Sum, FromProtocolIdToBlock,
         FromBlockToProtocolId, Combinations;
    var props, name := blocks[k].properties, blocks[k].name;
    if WeightsFit(props) {
      FitIsWeighted(props);
      forall pairs | Complete(props, pairs) ensures ComesBack(blocks, Block(name, pairs)) {
        BlockRoundTrip(blocks, k, pairs);
      }
    } else if UsedWeightsFit(props) {
      LastIdDecodesIffWeightsFit(props);
      var pairs := Spell(props, Combinations(props) - 1);
      EncodedSum(blocks, k, pairs);
      IdsRoundTripIffWeightsFit(blocks, k);
      assert !ComesBack(blocks, Block(name, pairs));
    } else {
      var a, b := Collision(props);
      EncodedSum(blocks, k, a);
      EncodedSum(blocks, k, b);
      assert !ComesBack(blocks, Block(name, a)) || !ComesBack(blocks, Block(name, b));
    }
  }

  /** Do different states of a block, up to the order of its properties, have different ids? */
  ghost predicate TellsApart(blocks: seq<InternalBlock>, b: InternalBlock) {
    forall x, y :: Complete(b.properties, x) && Complete(b.properties, y)
                   && FromBlockToProtocolId(blocks, Block(b.name, x)) == FromBlockToProtocolId(blocks, Block(b.name, y))
                   ==> multiset(x) == multiset(y)
  }

  /** They do exactly when every property that has a choice has an uncut weight. */
  lemma EncodingInjectiveIffUsedWeightsFit(blocks: seq<InternalBlock>, k: nat)
    requires Apart(blocks) && k < |blocks| && AsRead(blocks[k])
    ensures TellsApart(blocks, blocks[k]) <==> UsedWeightsFit(blocks[k].properties)
  {
    hide Apart, Sound, CutToByte, UsedWeightsFit, Complete, Sum, FromBlockToProtocolId, Combinations;
    var props, name := blocks[k].properties, blocks[k].name;
    InjectiveIffUsedWeightsFit(props);
    forall pairs | Complete(props, pairs)
      ensures Sum(props, pairs).Id? && FromBlockToProtocolId(blocks, Block(name, pairs))
                == blocks[k].baseId + Sum(props, pairs).id
    {
      EncodedSum(blocks, k, pairs);
    }
  }

  lemma EncodedSum(blocks: seq<InternalBlock>, k: nat, pairs: seq<Pair>)
    requires Apart(blocks) && k < |blocks| && Complete(blocks[k].properties, pairs)
    ensures Sum(blocks[k].properties, pairs).Id?
    ensures FromBlockToProtocolId(blocks, Block(blocks[k].name, pairs))
              == blocks[k].baseId + Sum(blocks[k].properties, pairs).id
  {
    hide Apart, FromBlockToProtocolId, Known, Sum;
    SumOfKnown(blocks[k].properties, pairs);
    EncodeComplete(blocks, k, pairs);
  }

  // ----- Palettes that are read from a file -----

  /** The number of states of a file block. */
  function States(properties: seq<(string, seq<string>)>): nat {
    if properties == [] then 1 else States(properties[1..]) * |properties[0].1|
  }

  /** Every property has values, the values are distinct, and so are the names. */
  predicate SoundProperties(properties: seq<(string, seq<string>)>) {
    && (forall k :: 0 <= k < |properties| ==> properties[k].1 != [])
    && (forall i, j :: 0 <= i < j < |properties| ==> properties[i].0 != properties[j].0)
    && (forall k :: 0 <= k < |properties| ==>
          forall i, j :: 0 <= i < j < |properties[k].1| ==> properties[k].1[i] != properties[k].1[j])
  }

  /** A file block: its properties are sound, and its ids are one range of 16-bit numbers with one id for each
      state. */
  predicate SoundFile(f: FileBlock): (sound: bool)
    ensures sound ==> f.ids != []
  {
    && SoundProperties(f.properties)
    && f.ids != [] && First(f) <= Last(f) < 0x1_0000 && Last(f) + 1 == First(f) + States(f.properties)
  }

  function First(f: FileBlock): nat
    requires f.ids != []
  {
    f.ids[0]
  }

  function Last(f: FileBlock): nat
    requires f.ids != []
  {
    f.ids[|f.ids| - 1]
  }

  /** Different names, ranges apart. */
  ghost predicate SoundFiles(file: seq<FileBlock>): (sound: bool)
    ensures sound ==> forall k :: 0 <= k < |file| ==> file[k].ids != []
  {
    && (forall k :: 0 <= k < |file| ==> SoundFile(file[k]))
    && (forall i, j :: 0 <= i < j < |file| ==>
          file[i].name != file[j].name && (Last(file[i]) < First(file[j]) || Last(file[j]) < First(file[i])))
  }

  lemma {:induction false} PropertiesReversed(properties: seq<(string, seq<string>)>)
    ensures forall k :: 0 <= k < |properties| ==>
              && WithWeights(properties)[k].name == properties[|properties| - 1 - k].0
              && WithWeights(properties)[k].values == properties[|properties| - 1 - k].1
    ensures Combinations(WithWeights(properties)) == States(properties)
    decreases |properties|
  {
    if properties != [] {
      PropertiesReversed(properties[1..]);
      var props, front := WithWeights(properties), WithWeights(properties[1..]);
      assert props[..|props| - 1] == front;
    }
  }

  lemma {:induction false} FrontIsSuffix(properties: seq<(string, seq<string>)>, k: nat)
    requires k <= |properties|
    ensures WithWeights(properties)[..k] == WithWeights(properties[|properties| - k..])
    decreases |properties|
  {
    var props := WithWeights(properties);
    if k == |properties| {
      assert properties[0..] == properties && props[..k] == props;
    } else {
      var rest := properties[1..];
      FrontIsSuffix(rest, k);
      assert rest[|rest| - k..] == properties[|properties| - k..];
      assert props[..k] == WithWeights(rest)[..k];
    }
  }

  /** The number of states of the properties after property `i` of a file block. */
  function StatesAfter(properties: seq<(string, seq<string>)>, i: nat): nat
    requires i < |properties|
  {
    States(properties[i + 1..])
  }

  /** Stored property `k` is file property `|properties| - 1 - k`, and before it come the states after that one. */
  lemma StatesBefore(properties: seq<(string, seq<string>)>, k: nat)
    requires k < |properties|
    ensures Combinations(WithWeights(properties)[..k]) == StatesAfter(properties, |properties| - 1 - k)
    ensures WithWeights(properties)[k].values == properties[|properties| - 1 - k].1
  {
    hide Combinations, States, WithWeights;
    FrontIsSuffix(properties, k);
    PropertiesReversed(properties[|properties| - k..]);
    PropertiesReversed(properties);
  }

  /** No property of a file block is followed by 256 states or more. */
  predicate FewStates(properties: seq<(string, seq<string>)>) {
    forall i :: 0 <= i < |properties| ==> StatesAfter(properties, i) < 256
  }

  /** No property that has a choice is. */
  predicate FewStatesAfterChoices(properties: seq<(string, seq<string>)>) {
    forall i :: 0 <= i < |properties| && |properties[i].1| >= 2 ==> StatesAfter(properties, i) < 256
  }

  lemma WeightsFitIffFewStates(properties: seq<(string, seq<string>)>)
    ensures WeightsFit(WithWeights(properties)) <==> FewStates(properties)
    ensures UsedWeightsFit(WithWeights(properties)) <==> FewStatesAfterChoices(properties)
  {
    hide Combinations, StatesAfter, WithWeights;
    var props, n := WithWeights(properties), |properties|;
    forall k | 0 <= k < n
      ensures Combinations(props[..k]) == StatesAfter(properties, n - 1 - k)
                && props[k].values == properties[n - 1 - k].1
    {
      StatesBefore(properties, k);
    }
    forall i | 0 <= i < n
      ensures StatesAfter(properties, i) == Combinations(props[..n - 1 - i])
                && props[n - 1 - i].values == properties[i].1
    {
      StatesBefore(properties, n - 1 - i);
    }
  }

  /** What reading makes of a sound file block. */
  lemma ReadBlock(f: FileBlock)
    requires SoundFile(f)
    ensures AsRead(Built(f)) && Built(f).name == f.name && Built(f).baseId == First(f) && Built(f).maxId == Last(f)
  {
    hide Combinations, States, WithWeights;
    PropertiesReversed(f.properties);
    WeightsWrap(f.properties);
  }

  lemma ReadAll(file: seq<FileBlock>)
    requires SoundFiles(file)
    ensures Apart(BuiltAll(file)) && forall k :: 0 <= k < |file| ==> AsRead(BuiltAll(file)[k])
  {
    hide SoundFile, AsRead, Built;
    forall k | 0 <= k < |file|
      ensures var b, f := Built(file[k]), file[k];
              AsRead(b) && b.name == f.name && b.baseId == First(f) && b.maxId == Last(f)
    {
      ReadBlock(file[k]);
    }
  }

  /** Reading stops at the first block without a default state; what was read until then is sound if the file is. */
  lemma SoundPrefix(file: seq<FileBlock>)
    requires SoundFiles(file)
    ensures SoundFiles(Prefix(file))
  {
    hide SoundFile, Prefix;
  }

  /** The palette read from a sound file meets the demands of the palette laws, and those for a good block are met by
      exactly the blocks in which no property is followed by 256 states or more. */
  lemma ReadPalette(file: seq<FileBlock>)
    requires SoundFiles(file)
    ensures SoundFiles(Prefix(file)) && Apart(BuiltAll(Prefix(file)))
    ensures forall k :: 0 <= k < |Prefix(file)| ==>
              var b := BuiltAll(Prefix(file))[k]; AsRead(b) && (GoodBlock(b) <==> FewStates(file[k].properties))
  {
    hide SoundFiles, SoundFile, Sound, CutToByte, WeightsFit, FewStates, WithWeights, Combinations, Decodable;
    SoundPrefix(file);
    ReadAll(Prefix(file));
    forall k | 0 <= k < |Prefix(file)|
      ensures GoodBlock(Built(file[k])) <==> FewStates(file[k].properties)
    {
      assert AsRead(BuiltAll(Prefix(file))[k]);
      FitIsWeighted(WithWeights(file[k].properties));
      WeightsFitIffFewStates(file[k].properties);
    }
  }

  /** The palette read from a file, block by block and in terms of the file: it takes ids to blocks and back, and blocks
      to ids and back, exactly when no property of the block is followed by 256 states or more, and it tells the
      states of the block apart exactly when no property with a choice is. */
  lemma ReadPaletteIsBijectiveIff(file: seq<FileBlock>, k: nat)
    requires SoundFiles(file) && k < |Prefix(file)|
    ensures SoundFiles(Prefix(file))
    ensures var blocks, b := BuiltAll(Prefix(file)), Built(file[k]);
            && ((forall id :: First(file[k]) <= id <= Last(file[k]) ==>
                   var found := FromProtocolIdToBlock(blocks, id);
                   found.Some? && FromBlockToProtocolId(blocks, found.value) == id)
                <==> FewStates(file[k].properties))
            && (FromProtocolIdToBlock(blocks, Last(file[k])).Some? <==> FewStates(file[k].properties))
            && ((forall pairs :: Complete(b.properties, pairs) ==> ComesBack(blocks, Block(b.name, pairs)))
                <==> FewStates(file[k].properties))
            && (TellsApart(blocks, b) <==> FewStatesAfterChoices(file[k].properties))
  {
    hide SoundFiles, Apart, AsRead, Complete, ComesBack, TellsApart, FewStates, FewStatesAfterChoices;
    hide FromProtocolIdToBlock, FromBlockToProtocolId, WithWeights, WeightsFit, UsedWeightsFit, GoodBlock;
    SoundPrefix(file);
    ReadPalette(file);
    var blocks := BuiltAll(Prefix(file));
    SoundAt(file, k);
    ReadBlock(file[k]);
    WeightsFitIffFewStates(file[k].properties);
    IdsRoundTripIffWeightsFit(blocks, k);
    BlocksRoundTripIffWeightsFit(blocks, k);
    EncodingInjectiveIffUsedWeightsFit(blocks, k);
  }

  lemma SoundAt(file: seq<FileBlock>, k: nat)
    requires SoundFiles(file) && k < |file|
    ensures SoundFile(file[k])
  {}

  // ----- A block with a cut weight -----

  /** The shape of redstone wire: five properties of 3, 3, 16, 3 and 3 values. */
  predicate WireShaped(f: FileBlock) {
    && SoundFile(f) && |f.properties| == 5
    && |f.properties[0].1| == |f.properties[1].1| == |f.properties[3].1| == |f.properties[4].1| == 3
         && |f.properties[2].1| == 16
  }

  lemma WireStates(p: seq<(string, seq<string>)>)
    requires |p| == 5 && |p[0].1| == |p[1].1| == |p[3].1| == |p[4].1| == 3 && |p[2].1| == 16
    ensures States(p) == 1296 && StatesAfter(p, 0) == 432 && WithWeights(p)[4].baseWeight == 176
    ensures !FewStates(p) && !FewStatesAfterChoices(p)
  {
    hide WithWeights, Combinations;
    assert p[3..][1..] == p[4..] && p[2..][1..] == p[3..] && p[1..][1..] == p[2..];
    assert States(p[4..]) == 3;
    assert States(p[3..]) == 9;
    assert States(p[2..]) == 144;
    WeightsWrap(p);
    StatesBefore(p, 4);
  }

  /** The first property is followed by 432 states, which is stored as 176. In any palette the last of the 1296 ids
      has no decoding, and different states of the block share an id. */
  lemma WireIsCut(file: seq<FileBlock>, k: nat)
    requires SoundFiles(file) && k < |Prefix(file)| && WireShaped(file[k])
    ensures SoundFiles(Prefix(file)) && WithWeights(file[k].properties)[4].baseWeight == 176
    ensures var blocks, f := BuiltAll(Prefix(file)), file[k];
            Last(f) == First(f) + 1295 && FromProtocolIdToBlock(blocks, Last(f)).None? && !TellsApart(blocks, Built(f))
  {
    hide WithWeights, States, TellsApart, FromProtocolIdToBlock, SoundFiles, FewStates, FewStatesAfterChoices;
    WireStates(file[k].properties);
    ReadPaletteIsBijectiveIff(file, k);
  }

  const SIDES := ["up", "side", "none"]
  const POWERS := seq(16, i requires 0 <= i < 16 => Power(i))

  /** "0" to "15". */
  function Power(n: nat): string
    requires n < 16
  {
    if n < 10 then [Digit(n)] else ['1', Digit(n - 10)]
  }

  function Digit(n: nat): char
    requires n < 10
  {
    '0' + n as char
  }

  lemma PowersDistinct()
    ensures |POWERS| == 16 && forall i, j :: 0 <= i < j < 16 ==> POWERS[i] != POWERS[j]
  {
    forall i, j | 0 <= i < j < 16 ensures Power(i) != Power(j) {
      assert Power(i)[|Power(i)| - 1] != Power(j)[|Power(j)| - 1] || |Power(i)| != |Power(j)|;
    }
  }

  lemma SidesDistinct()
    ensures |SIDES| == 3 && forall i, j :: 0 <= i < j < 3 ==> SIDES[i] != SIDES[j]
  {}

  const WIRE := FileBlock("minecraft:redstone_wire",
    [("east", SIDES), ("north", SIDES), ("power", POWERS), ("south", SIDES), ("west", SIDES)], seq(1296, i => i), true,
    [("east", "none"), ("north", "none"), ("power", "0"), ("south", "none"), ("west", "none")])

  lemma WireExists()
    ensures WireShaped(WIRE) && SoundFile(WIRE) && WIRE.hasDefault && Last(WIRE) == 1295
  {
    hide States, FewStates, FewStatesAfterChoices, WithWeights, POWERS, SIDES;
    PowersDistinct();
    SidesDistinct();
    WireStates(WIRE.properties);
  }

  /** A block that stands alone with its default state is a file, and all of it is read. */
  lemma AloneIsRead(f: FileBlock)
    requires SoundFile(f) && f.hasDefault
    ensures SoundFiles([f]) && Prefix([f]) == [f]
  {
    hide SoundFile;
  }

  /** A palette that does not take ids to blocks and back: its last id has no decoding, and two of its states share an
      id. */
  lemma WireAloneFails()
    ensures SoundFiles([WIRE]) && FromProtocolIdToBlock(BuiltAll([WIRE]), 1295).None?
    ensures !TellsApart(BuiltAll([WIRE]), Built(WIRE))
  {
    hide SoundFiles, WireShaped, SoundFile, TellsApart, FromProtocolIdToBlock, WithWeights;
    WireExists();
    AloneIsRead(WIRE);
    WireIsCut([WIRE], 0);
  }
}
