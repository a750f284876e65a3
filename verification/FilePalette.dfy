/** What the palette says in terms of the file it was read from: the defaults are the file's, and the states of a block
    are numbered in the order of its property values. */
module FilePalette {
  import opened Options
  import opened Arithmetic
  import opened BlockStates
  import opened BlockWeights

  // ----- Defaults -----

  /** Is the value one that the file gives for the property? */
  predicate InFile(f: FileBlock, pair: Pair) {
    exists i :: 0 <= i < |f.properties| && f.properties[i].0 == pair.0 && pair.1 in f.properties[i].1
  }

  /** Pairs that give some properties of the file one of their values each. */
  ghost predicate PartialInFile(f: FileBlock, pairs: seq<Pair>) {
    DistinctNames(pairs) && forall k :: 0 <= k < |pairs| ==> InFile(f, pairs[k])
  }

  /** The default state gives every property of the file one of its values, once. */
  ghost predicate SoundDefaults(f: FileBlock) {
    PartialInFile(f, f.defaults) && |f.defaults| == |f.properties|
  }

  lemma KnownFromFile(f: FileBlock, pair: Pair)
    requires SoundFile(f) && InFile(f, pair)
    ensures Known(Built(f).properties, pair)
  {
    hide States, Combinations, WithWeights;
    var props, n := WithWeights(f.properties), |f.properties|;
    PropertiesReversed(f.properties);
    var i :| 0 <= i < n && f.properties[i].0 == pair.0 && pair.1 in f.properties[i].1;
    ReadBlock(f);
    FoundAt(props, n - 1 - i);
    var v :| 0 <= v < |f.properties[i].1| && f.properties[i].1[v] == pair.1;
    assert props[n - 1 - i].name == f.properties[i].0 && props[n - 1 - i].values == f.properties[i].1;
  }

  lemma FoundAt(props: seq<Property>, k: nat)
    requires Sound(props) && k < |props|
    ensures FindProperty(props, props[k].name) == k
  {
    FindPropertyBounds(props, k);
  }

  lemma PartialFromFile(f: FileBlock, pairs: seq<Pair>)
    requires SoundFile(f) && PartialInFile(f, pairs)
    ensures Partial(Built(f).properties, pairs)
  {
    hide SoundFile, InFile, Known, Built;
    forall k | 0 <= k < |pairs| ensures Known(Built(f).properties, pairs[k]) { KnownFromFile(f, pairs[k]); }
  }

  /** Defaults that are sound in the file are complete in the palette. */
  lemma DefaultsFromFile(f: FileBlock)
    requires SoundFile(f) && SoundDefaults(f)
    ensures Complete(Built(f).properties, Built(f).defaults) && Built(f).defaults == f.defaults
  {
    hide SoundFile, Known, InFile, States;
    PartialFromFile(f, f.defaults);
  }

  /** The name of a block alone encodes to an id of the block that decodes to the defaults of the file. */
  lemma NameGivesFileDefaults(file: seq<FileBlock>, k: nat)
    requires SoundFiles(file) && k < |Prefix(file)| && SoundDefaults(file[k]) && FewStates(file[k].properties)
    ensures SoundFiles(Prefix(file))
    ensures var blocks, f := BuiltAll(Prefix(file)), file[k];
            var id := FromNameToProtocolId(blocks, f.name);
            var found := FromProtocolIdToBlock(blocks, id);
            && First(f) <= id <= Last(f)
            && found.Some? && found.value.name == f.name && multiset(found.value.properties) == multiset(f.defaults)
  {
    hide SoundFiles, SoundFile, SoundDefaults, FewStates, Apart, AsRead, GoodBlock, Complete, FindBlock;
    hide FromProtocolIdToBlock, FromBlockToProtocolId, WithWeights;
    ReadPalette(file);
    SoundAt(file, k);
    DefaultsFromFile(file[k]);
    ReadBlock(file[k]);
    var blocks := BuiltAll(Prefix(file));
    NameGivesDefaults(blocks, k);
    FindBlockAt(blocks, k);
    BlockRoundTrip(blocks, k, file[k].defaults);
  }

  /** A property that is not given gets the default of the file, and one that is given keeps its value. */
  lemma OmittedGivesFileDefaults(file: seq<FileBlock>, k: nat, given: seq<Pair>)
    requires SoundFiles(file) && k < |Prefix(file)| && SoundDefaults(file[k]) && FewStates(file[k].properties)
    requires PartialInFile(file[k], given)
    ensures SoundFiles(Prefix(file))
    ensures var blocks, f := BuiltAll(Prefix(file)), file[k];
            var found := FromProtocolIdToBlock(blocks, FromBlockToProtocolId(blocks, Block(f.name, given)));
            && found.Some? && |found.value.properties| == |f.properties|
            && (forall pair :: pair in given ==> pair in found.value.properties)
            && (forall d :: d in f.defaults && !HasName(given, d.0) ==> d in found.value.properties)
  {
    hide SoundFiles, SoundFile, SoundDefaults, FewStates, Apart, AsRead, GoodBlock, Complete, Partial, PartialInFile;
    hide FromProtocolIdToBlock, FromBlockToProtocolId, WithWeights;
    ReadPalette(file);
    SoundAt(file, k);
    DefaultsFromFile(file[k]);
    PartialFromFile(file[k], given);
    OmittedPropertiesAreDefaults(BuiltAll(Prefix(file)), k, given);
  }

  // ----- The order of states -----

  /** The state with value `vs[i]` of each property `i`, as pairs in the order of the file. */
  function StatePairs(properties: seq<(string, seq<string>)>, vs: seq<nat>): (pairs: seq<Pair>)
    requires InRange(properties, vs)
    ensures |pairs| == |properties|
  {
    if properties == [] then []
    else [(properties[0].0, properties[0].1[vs[0]])] + StatePairs(properties[1..], vs[1..])
  }

  predicate InRange(properties: seq<(string, seq<string>)>, vs: seq<nat>) {
    |vs| == |properties| && forall i :: 0 <= i < |vs| ==> vs[i] < |properties[i].1|
  }

  /** The place of a state among all, when the values of the last property change fastest. */
  function Place(properties: seq<(string, seq<string>)>, vs: seq<nat>): nat
    requires InRange(properties, vs)
  {
    if properties == [] then 0 else States(properties[1..]) * vs[0] + Place(properties[1..], vs[1..])
  }

  lemma {:induction false} PlaceBound(properties: seq<(string, seq<string>)>, vs: seq<nat>)
    requires InRange(properties, vs)
    ensures Place(properties, vs) < States(properties)
  {
    if properties != [] {
      PlaceBound(properties[1..], vs[1..]);
      MulStep(States(properties[1..]), vs[0], |properties[0].1|);
    }
  }

  lemma SoundRest(properties: seq<(string, seq<string>)>)
    requires properties != []
    ensures SoundProperties(properties) ==> SoundProperties(properties[1..])
    ensures FewStates(properties) ==> FewStates(properties[1..]) && States(properties[1..]) < 256
  {
    var rest := properties[1..];
    if FewStates(properties) {
      assert StatesAfter(properties, 0) < 256;
      forall i | 0 <= i < |rest| ensures StatesAfter(rest, i) < 256 {
        assert rest[i + 1..] == properties[i + 2..] && StatesAfter(properties, i + 1) < 256;
      }
    }
  }

  lemma WeightsAreSound(properties: seq<(string, seq<string>)>)
    requires SoundProperties(properties)
    ensures Sound(WithWeights(properties))
  {
    hide States, Combinations, WithWeights;
    PropertiesReversed(properties);
  }

  /** The first property of the file is the last that is stored, with the number of states after it as its weight. */
  lemma FirstStored(properties: seq<(string, seq<string>)>)
    requires properties != [] && States(properties[1..]) < 256
    ensures var props := WithWeights(properties);
            && props[..|props| - 1] == WithWeights(properties[1..])
            && props[|props| - 1] == Property(properties[0].0, properties[0].1, States(properties[1..]))
  {
    hide Combinations, States;
    PropertiesReversed(properties[1..]);
  }

  lemma {:induction false} SumIsPlace(properties: seq<(string, seq<string>)>, vs: seq<nat>)
    requires SoundProperties(properties) && FewStates(properties) && InRange(properties, vs)
    ensures var props, pairs := WithWeights(properties), StatePairs(properties, vs);
            && (forall i :: 0 <= i < |pairs| ==> Known(props, pairs[i]))
            && Sum(props, pairs) == Id(Place(properties, vs))
  {
    hide FewStates, SoundProperties, WithWeights, States, Combinations, Known, Term, Sound, Sum;
    if properties == [] {
      NothingStored();
    } else {
      var props, rest := WithWeights(properties), StatePairs(properties[1..], vs[1..]);
      SoundRest(properties);
      SumIsPlace(properties[1..], vs[1..]);
      FirstStored(properties);
      WeightsAreSound(properties);
      OneMorePair(props, States(properties[1..]), vs[0], rest);
    }
  }

  lemma OneMorePair(props: seq<Property>, w: nat, v: nat, rest: seq<Pair>)
    requires Sound(props) && props != [] && props[|props| - 1].baseWeight == w && v < |props[|props| - 1].values|
    requires forall i :: 0 <= i < |rest| ==> Known(props[..|props| - 1], rest[i])
    requires Sum(props[..|props| - 1], rest).Id?
    ensures var pairs := [LastPair(props, v)] + rest;
            && (forall i :: 0 <= i < |pairs| ==> Known(props, pairs[i]))
            && Sum(props, pairs) == Id(w * v + Sum(props[..|props| - 1], rest).id)
  {
    hide Known, Term, Sound, Sum, LastPair;
    SumFront(props, rest);
    LastPairKnown(props, v);
    SumOne(props, LastPair(props, v));
    SumConcat(props, [LastPair(props, v)], rest);
  }

  lemma NothingStored()
    ensures WithWeights([]) == [] && Sum([], []) == Id(0)
  {}

  /** The states of a block are numbered in the order of the file: from its first id on, with the values of the last
      property changing fastest. */
  lemma StatesAreInOrder(file: seq<FileBlock>, k: nat, vs: seq<nat>)
    requires SoundFiles(file) && k < |Prefix(file)| && FewStates(file[k].properties) && InRange(file[k].properties, vs)
    ensures SoundFiles(Prefix(file))
    ensures var f := file[k];
            FromBlockToProtocolId(BuiltAll(Prefix(file)), Block(f.name, StatePairs(f.properties, vs)))
            == First(f) + Place(f.properties, vs) <= Last(f)
  {
    hide SoundFiles, FewStates, WithWeights, States, Sum, FromBlockToProtocolId, Place, StatePairs, SoundProperties;
    var f := file[k];
    ReadPalette(file);
    SoundAt(file, k);
    ReadBlock(f);
    SumIsPlace(f.properties, vs);
    PlaceBound(f.properties, vs);
    EncodeComplete(BuiltAll(Prefix(file)), k, StatePairs(f.properties, vs));
  }
}
