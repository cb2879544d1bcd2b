/** What a resolved contract looks like: when no reference is left in it, and that resolving again changes nothing. */
module ContractResult {

  import opened ContractResolver
  import opened ContractTermination
  import opened ContractKeys
  import JsonPointer
  import Text

  predicate RefFree(node: Json)
    decreases node, 1
  {
    match node
    case Arr(items) => RefFreeItems(items)
    case Obj(fields) => RefFreeFields(fields)
    case _ => true
  }

  predicate RefFreeItems(items: seq<Json>)
    decreases items, 0
  {
    items == [] || (RefFree(items[0]) && RefFreeItems(items[1..]))
  }

  predicate RefFreeFields(fields: seq<Field>)
    decreases fields, 0
  {
    fields == []
    || (assert fields[0].value < fields[0];
        fields[0].key != REF && RefFree(fields[0].value) && RefFreeFields(fields[1..]))
  }

  /* ---------------------------------------------------------------- merging */

  /** A field without references, or one that will be overridden. */
  predicate Fine(f: Field, hidden: set<Key>) { f.key in hidden || (f.key != REF && RefFree(f.value)) }

  ghost predicate Shown(fields: seq<Field>, hidden: set<Key>) {
    forall f :: f in fields ==> Fine(f, hidden)
  }

  /** The same where of several values of one key only the last counts. */
  predicate LastShown(fields: seq<Field>, hidden: set<Key>) {
    fields == []
    || ((fields[0].key in Keys(fields[1..]) || Fine(fields[0], hidden)) && LastShown(fields[1..], hidden))
  }

  function KeySet(fields: seq<Field>): set<Key> { set k | k in Keys(fields) }

  lemma ShownCons(f: Field, rest: seq<Field>, hidden: set<Key>)
    ensures Shown([f] + rest, hidden) <==> Fine(f, hidden) && Shown(rest, hidden)
  {
    var all := [f] + rest;
    assert f == all[0] && forall g :: g in all <==> g == f || g in rest;
  }

  lemma {:induction false} RefFreeIsShown(fields: seq<Field>)
    ensures RefFreeFields(fields) <==> Shown(fields, {})
  {
    if fields != [] {
      RefFreeIsShown(fields[1..]);
      ShownCons(fields[0], fields[1..], {});
      assert fields == [fields[0]] + fields[1..];
    }
  }

  lemma {:induction false} DropMember(fields: seq<Field>, key: Key, g: Field)
    ensures g in Drop(fields, key) <==> g in fields && g.key != key
  {
    if fields != [] {
      DropMember(fields[1..], key, g);
      assert fields == [fields[0]] + fields[1..];
    }
  }

  lemma {:induction false} PutMember(fields: seq<Field>, f: Field, g: Field)
    ensures g in Put(fields, f) <==> g == f || (g in fields && g.key != f.key)
  {
    if fields != [] {
      assert fields == [fields[0]] + fields[1..];
      if fields[0].key == f.key {
        DropMember(fields[1..], f.key, g);
      } else {
        PutMember(fields[1..], f, g);
      }
    }
  }

  lemma PutShown(fields: seq<Field>, f: Field, hidden: set<Key>)
    ensures Shown(Put(fields, f), hidden) <==> Fine(f, hidden) && Shown(fields, hidden + {f.key})
  {
    forall g ensures g in Put(fields, f) <==> g == f || (g in fields && g.key != f.key) {
      PutMember(fields, f, g);
    }
  }

  /** Merging shows the later fields, the last of each key, and of the earlier ones those that are not overridden. */
  lemma {:induction false} PutAllShown(fields: seq<Field>, more: seq<Field>, hidden: set<Key>)
    ensures Shown(PutAll(fields, more), hidden) <==> LastShown(more, hidden) && Shown(fields, hidden + KeySet(more))
    decreases |more|
  {
    if more == [] {
      assert hidden + KeySet(more) == hidden;
    } else {
      var f, rest := more[0], more[1..];
      PutAllShown(Put(fields, f), rest, hidden);
      PutShown(fields, f, hidden + KeySet(rest));
      assert Keys(more) == [f.key] + Keys(rest);
      assert hidden + KeySet(rest) + {f.key} == hidden + KeySet(more);
    }
  }

  lemma KeySetKept(w: World, fuel: nat, fields: seq<Field>, source: Path)
    requires ResolveFields(w, fuel, fields, source).Ok?
    ensures KeySet(ResolveFields(w, fuel, fields, source).value) == KeySet(fields) - {REF}
  {
    KeysKept(w, fuel, fields, source);
    forall k ensures k in SiblingKeys(fields) <==> k in Keys(fields) && k != REF {
      SiblingKeyMember(fields, k);
    }
  }

  /* ---------------------------------------------------------------- when a reference comes back */

  /** The documents show no "$ref" key: nowhere that counts does a reference with descriptive siblings point at a list
      of pairs that names "$ref".  merged says that the value is about to be made a mapping, and hidden which of its
      keys are then overridden; a pair overridden by a later one does not count either. */
  predicate Clean(w: World, fuel: nat, node: Json, source: Path, merged: bool, hidden: set<Key>)
    decreases fuel, node, 1
  {
    match node
    case Arr(items) => if merged then CleanPairs(w, fuel, items, source, hidden) else CleanItems(w, fuel, items, source)
    case Obj(fields) =>
      if REF !in Keys(fields) then CleanFields(w, fuel, fields, source, hidden)
      else
        var ref := ReferenceOf(fields);
        var t := if ref.Ok? then Target(w, source, ref.value) else Err(NotAReference);
        t.Ok? && fuel > 0 ==> CleanReference(w, fuel, node, source, t.value, hidden)
    case _ => true
  }

  predicate CleanReference(w: World, fuel: nat, node: Json, source: Path, t: Place, hidden: set<Key>)
    requires fuel > 0 && node.Obj?
    decreases fuel, node, 0
  {
    if DescriptiveSiblings(node.fields) then
      && Clean(w, fuel - 1, t.value, t.path, true, hidden + (KeySet(node.fields) - {REF}))
      && CleanLast(w, fuel, node.fields, source, hidden)
    else Clean(w, fuel - 1, t.value, t.path, false, {}) && CleanFields(w, fuel, node.fields, source, {})
  }

  predicate CleanItems(w: World, fuel: nat, items: seq<Json>, source: Path)
    decreases fuel, items, 0
  {
    items == [] || (Clean(w, fuel, items[0], source, false, {}) && CleanItems(w, fuel, items[1..], source))
  }

  predicate CleanFields(w: World, fuel: nat, fields: seq<Field>, source: Path, hidden: set<Key>)
    decreases fuel, fields, 0
  {
    fields == []
    || (assert fields[0].value < fields[0];
        && (fields[0].key == REF || fields[0].key in hidden || Clean(w, fuel, fields[0].value, source, false, {}))
        && CleanFields(w, fuel, fields[1..], source, hidden))
  }

  predicate CleanLast(w: World, fuel: nat, fields: seq<Field>, source: Path, hidden: set<Key>)
    decreases fuel, fields, 0
  {
    fields == []
    || (assert fields[0].value < fields[0];
        && (fields[0].key == REF || fields[0].key in Keys(fields[1..]) || fields[0].key in hidden
            || Clean(w, fuel, fields[0].value, source, false, {}))
        && CleanLast(w, fuel, fields[1..], source, hidden))
  }

  predicate CleanPairs(w: World, fuel: nat, items: seq<Json>, source: Path, hidden: set<Key>)
    decreases fuel, items, 0
  {
    items == []
    || (&& (var key, later := PairKey(w, fuel, items[0], source), ListKeys(w, fuel, items[1..], source);
            key.Ok? ==>
              || (later.Ok? && key.value in later.value) || key.value in hidden
              || (key.value != REF && CleanValue(w, fuel, items[0], source)))
        && CleanPairs(w, fuel, items[1..], source, hidden))
  }

  /** The value that an element of a list becomes shows no reference. */
  predicate CleanValue(w: World, fuel: nat, item: Json, source: Path)
    decreases fuel, item, 2
  {
    item.Arr? && |item.items| == 2 ==> Clean(w, fuel, item.items[1], source, false, {})
  }

  /** What a resolved value has to be, on its own or as the mapping it is about to become. */
  ghost predicate Presentable(r: Json, merged: bool, hidden: set<Key>) {
    if merged then AsMapping(r).Ok? ==> Shown(AsMapping(r).value, hidden)
    else RefFree(r)
  }

  /** Hidden keys exist only where values are merged, and are descriptive. */
  predicate Hides(merged: bool, hidden: set<Key>) {
    (forall k :: k in hidden ==> IsDescriptive(k)) && (!merged ==> hidden == {})
  }

  lemma {:induction false} PresentableIffClean(w: World, fuel: nat, node: Json, source: Path, merged: bool, hidden: set<Key>)
    requires Resolve(w, fuel, node, source).Ok? && Hides(merged, hidden)
    requires merged ==> AsMapping(Resolve(w, fuel, node, source).value).Ok?
    ensures Presentable(Resolve(w, fuel, node, source).value, merged, hidden) <==> Clean(w, fuel, node, source, merged, hidden)
    decreases fuel, node, 1
  {
    match node
    case Arr(items) =>
      if merged {
        PairsIffClean(w, fuel, items, source, hidden);
        var out := ResolveItems(w, fuel, items, source).value;
        PutAllShown([], PairsToFields(out).value, hidden);
      } else {
        ItemsIffClean(w, fuel, items, source);
      }
    case Obj(fields) =>
      FieldsWhereResolved(w, fuel, node, source);
      if REF in Keys(fields) {
        var t := Target(w, source, ReferenceOf(fields).value).value;
        ReferenceIffClean(w, fuel, node, source, t, merged, hidden);
      } else {
        FieldsIffClean(w, fuel, fields, source, hidden);
        RefFreeIsShown(ResolveFields(w, fuel, fields, source).value);
      }
    case _ =>
  }

  lemma {:induction false} ReferenceIffClean(w: World, fuel: nat, node: Json, source: Path, t: Place, merged: bool, hidden: set<Key>)
    requires node.Obj? && fuel > 0 && Hides(merged, hidden)
    requires Resolve(w, fuel - 1, t.value, t.path).Ok? && ResolveFields(w, fuel, node.fields, source).Ok?
    requires Combine(Resolve(w, fuel - 1, t.value, t.path).value, ResolveFields(w, fuel, node.fields, source).value).Ok?
    ensures var r := Combine(Resolve(w, fuel - 1, t.value, t.path).value, ResolveFields(w, fuel, node.fields, source).value).value;
            Presentable(r, merged, hidden) <==> CleanReference(w, fuel, node, source, t, hidden)
    decreases fuel, node, 0
  {
    var fields := node.fields;
    var resolved, siblings := Resolve(w, fuel - 1, t.value, t.path).value, ResolveFields(w, fuel, fields, source).value;
    DescriptiveKept(w, fuel, fields, source);
    KeySetKept(w, fuel, fields, source);
    if DescriptiveSiblings(fields) {
      DescriptiveIffKeys(fields);
      PresentableIffClean(w, fuel - 1, t.value, t.path, true, hidden + (KeySet(fields) - {REF}));
      LastIffClean(w, fuel, fields, source, hidden);
      MergedIsPresentable(resolved, siblings, merged, hidden);
    } else {
      PresentableIffClean(w, fuel - 1, t.value, t.path, false, {});
      FieldsIffClean(w, fuel, fields, source, {});
      KeptApartIsPresentable(resolved, siblings, merged, hidden);
    }
  }

  lemma MergedIsPresentable(resolved: Json, siblings: seq<Field>, merged: bool, hidden: set<Key>)
    requires Descriptive(siblings) && Combine(resolved, siblings).Ok? && Hides(merged, hidden)
    ensures Presentable(Combine(resolved, siblings).value, merged, hidden)
       <==> Presentable(resolved, true, hidden + KeySet(siblings)) && LastShown(siblings, hidden)
  {
    var fields := AsMapping(resolved).value;
    PutAllShown(fields, siblings, hidden);
    RefFreeIsShown(PutAll(fields, siblings));
  }

  lemma KeptApartIsPresentable(resolved: Json, siblings: seq<Field>, merged: bool, hidden: set<Key>)
    requires !Descriptive(siblings) && Hides(merged, hidden)
    ensures Presentable(Combine(resolved, siblings).value, merged, hidden) <==> RefFree(resolved) && Shown(siblings, {})
  {
    var both := [resolved, Obj(siblings)];
    assert both[1..] == [Obj(siblings)] && both[1..][1..] == [];
    assert RefFreeItems(both[1..]) <==> RefFree(Obj(siblings));
    assert RefFreeItems(both) <==> RefFree(resolved) && RefFreeFields(siblings);
    RefFreeIsShown(siblings);
    var field := Field(ALL_OF, Arr(both));
    assert RefFree(field.value) <==> RefFreeItems(both);
    ShownCons(field, [], hidden);
    assert [field] + [] == [field];
    assert !IsDescriptive(ALL_OF);
    RefFreeIsShown([field]);
    assert Combine(resolved, siblings).value == Obj([field]);
  }

  lemma {:induction false} ItemsIffClean(w: World, fuel: nat, items: seq<Json>, source: Path)
    requires ResolveItems(w, fuel, items, source).Ok?
    ensures RefFreeItems(ResolveItems(w, fuel, items, source).value) <==> CleanItems(w, fuel, items, source)
    decreases fuel, items, 0
  {
    if items != [] {
      PresentableIffClean(w, fuel, items[0], source, false, {});
      ItemsIffClean(w, fuel, items[1..], source);
      var out := ResolveItems(w, fuel, items, source).value;
      assert out[1..] == ResolveItems(w, fuel, items[1..], source).value;
    }
  }

  lemma {:induction false} FieldsIffClean(w: World, fuel: nat, fields: seq<Field>, source: Path, hidden: set<Key>)
    requires ResolveFields(w, fuel, fields, source).Ok?
    ensures Shown(ResolveFields(w, fuel, fields, source).value, hidden) <==> CleanFields(w, fuel, fields, source, hidden)
    decreases fuel, fields, 0
  {
    if fields != [] {
      FieldsIffClean(w, fuel, fields[1..], source, hidden);
      if fields[0].key != REF {
        assert fields[0].value < fields[0];
        PresentableIffClean(w, fuel, fields[0].value, source, false, {});
        var out, rest := ResolveFields(w, fuel, fields, source).value, ResolveFields(w, fuel, fields[1..], source).value;
        ShownCons(out[0], rest, hidden);
        assert out == [out[0]] + rest;
      }
    }
  }

  lemma {:induction false} LastIffClean(w: World, fuel: nat, fields: seq<Field>, source: Path, hidden: set<Key>)
    requires ResolveFields(w, fuel, fields, source).Ok?
    ensures LastShown(ResolveFields(w, fuel, fields, source).value, hidden) <==> CleanLast(w, fuel, fields, source, hidden)
    decreases fuel, fields, 0
  {
    if fields != [] {
      LastIffClean(w, fuel, fields[1..], source, hidden);
      if fields[0].key != REF {
        assert fields[0].value < fields[0];
        PresentableIffClean(w, fuel, fields[0].value, source, false, {});
        KeysKept(w, fuel, fields[1..], source);
        SiblingKeyMember(fields[1..], fields[0].key);
        var out, rest := ResolveFields(w, fuel, fields, source).value, ResolveFields(w, fuel, fields[1..], source).value;
        assert out[1..] == rest;
      }
    }
  }

  lemma {:induction false} PairsIffClean(w: World, fuel: nat, items: seq<Json>, source: Path, hidden: set<Key>)
    requires ResolveItems(w, fuel, items, source).Ok? && PairsToFields(ResolveItems(w, fuel, items, source).value).Ok?
    ensures LastShown(PairsToFields(ResolveItems(w, fuel, items, source).value).value, hidden)
       <==> CleanPairs(w, fuel, items, source, hidden)
    decreases fuel, items, 0
  {
    if items != [] {
      var out := ResolveItems(w, fuel, items, source).value;
      assert out[1..] == ResolveItems(w, fuel, items[1..], source).value;
      PairIffClean(w, fuel, items[0], source);
      PairsIffClean(w, fuel, items[1..], source, hidden);
      ListKeysKept(w, fuel, items[1..], source);
      var fields, rest := PairsToFields(out).value, PairsToFields(out[1..]).value;
      assert fields[1..] == rest;
    }
  }

  lemma {:induction false} PairIffClean(w: World, fuel: nat, item: Json, source: Path)
    requires Resolve(w, fuel, item, source).Ok? && PairOf(Resolve(w, fuel, item, source).value).Ok?
    ensures var pair := PairOf(Resolve(w, fuel, item, source).value).value;
            PairKey(w, fuel, item, source) == Ok(pair.key) && (RefFree(pair.value) <==> CleanValue(w, fuel, item, source))
    decreases fuel, item, 2
  {
    PairKept(w, fuel, item, source);
    if item.Arr? {
      PresentableIffClean(w, fuel, item.items[1], source, false, {});
    }
  }

  /** A resolved value has no "$ref" key at any depth if and only if the documents show none in this sense. */
  lemma ResolvedIsRefFreeIff(w: World, fuel: nat, node: Json, source: Path)
    requires Resolve(w, fuel, node, source).Ok?
    ensures RefFree(Resolve(w, fuel, node, source).value) <==> Clean(w, fuel, node, source, false, {})
  {
    PresentableIffClean(w, fuel, node, source, false, {});
  }

  /* ---------------------------------------------------------------- a simpler condition */

  /** A list that dict() would turn into a mapping with a "$ref" key. */
  predicate PairsRef(items: seq<Json>) { items != [] && (IsRefPair(items[0]) || PairsRef(items[1..])) }

  predicate IsRefPair(v: Json) { v.Arr? && |v.items| == 2 && v.items[0] == KeyValue(REF) }

  /** No reference in the value, where it has only descriptive siblings, points at such a list. */
  predicate Safe(w: World, node: Json, source: Path)
    decreases node, 1
  {
    match node
    case Arr(items) => SafeItems(w, items, source)
    case Obj(fields) =>
      && SafeFields(w, fields, source)
      && (match ReferenceOf(fields)
          case Ok(ref) =>
            var t := Target(w, source, ref);
            t.Ok? && t.value.value.Arr? && DescriptiveSiblings(fields) ==> !PairsRef(t.value.value.items)
          case _ => true)
    case _ => true
  }

  predicate SafeItems(w: World, items: seq<Json>, source: Path)
    decreases items, 0
  {
    items == [] || (Safe(w, items[0], source) && SafeItems(w, items[1..], source))
  }

  predicate SafeFields(w: World, fields: seq<Field>, source: Path)
    decreases fields, 0
  {
    fields == []
    || (assert fields[0].value < fields[0];
        (fields[0].key == REF || Safe(w, fields[0].value, source)) && SafeFields(w, fields[1..], source))
  }

  function SafePlaces(w: World): Place -> bool { (p: Place) => Safe(w, p.value, p.path) }

  lemma {:induction false} SafeIsClean(w: World, fuel: nat, node: Json, source: Path, merged: bool, hidden: set<Key>)
    requires Safe(w, node, source) && Beyond(w, RefsOf(node), source, SafePlaces(w))
    requires merged && node.Arr? ==> !PairsRef(node.items)
    ensures Clean(w, fuel, node, source, merged, hidden)
    decreases fuel, node, 1
  {
    match node
    case Arr(items) =>
      if merged {
        SafePairsAreClean(w, fuel, items, source, hidden);
      } else {
        SafeItemsAreClean(w, fuel, items, source);
      }
    case Obj(fields) =>
      FewerBeyond(w, RefsOf(node), RefsOfFields(fields), source, SafePlaces(w));
      SafeFieldsAreClean(w, fuel, fields, source, hidden);
      SafeFieldsAreClean(w, fuel, fields, source, {});
      if ReferenceOf(fields).Ok? && fuel > 0 {
        var ref := ReferenceOf(fields).value;
        if Target(w, source, ref).Ok? {
          SafeReferenceIsClean(w, fuel, node, source, ref, hidden);
        }
      }
    case _ =>
  }

  lemma SafeTarget(w: World, node: Json, source: Path, ref: string)
    requires node.Obj? && ReferenceOf(node.fields) == Ok(ref) && Target(w, source, ref).Ok?
    requires Safe(w, node, source) && Beyond(w, RefsOf(node), source, SafePlaces(w))
    ensures var t := Target(w, source, ref).value;
            && Safe(w, t.value, t.path) && Beyond(w, RefsOf(t.value), t.path, SafePlaces(w))
            && (DescriptiveSiblings(node.fields) && t.value.Arr? ==> !PairsRef(t.value.items))
  {
    BeyondTarget(w, RefsOf(node), source, SafePlaces(w), ref);
  }

  lemma {:induction false} SafeReferenceIsClean(w: World, fuel: nat, node: Json, source: Path, ref: string, hidden: set<Key>)
    requires node.Obj? && fuel > 0 && ReferenceOf(node.fields) == Ok(ref) && Target(w, source, ref).Ok?
    requires Safe(w, node, source) && Beyond(w, RefsOf(node), source, SafePlaces(w))
    requires CleanFields(w, fuel, node.fields, source, {}) && CleanLast(w, fuel, node.fields, source, hidden)
    ensures CleanReference(w, fuel, node, source, Target(w, source, ref).value, hidden)
    decreases fuel, node, 0
  {
    var t := Target(w, source, ref).value;
    SafeTarget(w, node, source, ref);
    if DescriptiveSiblings(node.fields) {
      SafeIsClean(w, fuel - 1, t.value, t.path, true, hidden + (KeySet(node.fields) - {REF}));
    } else {
      SafeIsClean(w, fuel - 1, t.value, t.path, false, {});
    }
  }

  lemma {:induction false} SafeItemsAreClean(w: World, fuel: nat, items: seq<Json>, source: Path)
    requires SafeItems(w, items, source) && Beyond(w, RefsOfItems(items), source, SafePlaces(w))
    ensures CleanItems(w, fuel, items, source)
    decreases fuel, items, 0
  {
    if items != [] {
      FewerBeyond(w, RefsOfItems(items), RefsOf(items[0]), source, SafePlaces(w));
      SafeIsClean(w, fuel, items[0], source, false, {});
      FewerBeyond(w, RefsOfItems(items), RefsOfItems(items[1..]), source, SafePlaces(w));
      SafeItemsAreClean(w, fuel, items[1..], source);
    }
  }

  lemma {:induction false} SafeFieldsAreClean(w: World, fuel: nat, fields: seq<Field>, source: Path, hidden: set<Key>)
    requires SafeFields(w, fields, source) && Beyond(w, RefsOfFields(fields), source, SafePlaces(w))
    ensures CleanFields(w, fuel, fields, source, hidden) && CleanLast(w, fuel, fields, source, hidden)
    decreases fuel, fields, 0
  {
    if fields != [] {
      if fields[0].key != REF {
        FewerBeyond(w, RefsOfFields(fields), RefsOf(fields[0].value), source, SafePlaces(w));
        assert fields[0].value < fields[0];
        SafeIsClean(w, fuel, fields[0].value, source, false, {});
      }
      FewerBeyond(w, RefsOfFields(fields), RefsOfFields(fields[1..]), source, SafePlaces(w));
      SafeFieldsAreClean(w, fuel, fields[1..], source, hidden);
    }
  }

  lemma {:induction false} SafePairsAreClean(w: World, fuel: nat, items: seq<Json>, source: Path, hidden: set<Key>)
    requires SafeItems(w, items, source) && Beyond(w, RefsOfItems(items), source, SafePlaces(w)) && !PairsRef(items)
    ensures CleanPairs(w, fuel, items, source, hidden)
    decreases fuel, items, 0
  {
    if items != [] {
      FewerBeyond(w, RefsOfItems(items), RefsOfItems(items[1..]), source, SafePlaces(w));
      SafePairsAreClean(w, fuel, items[1..], source, hidden);
      FewerBeyond(w, RefsOfItems(items), RefsOf(items[0]), source, SafePlaces(w));
      SafePairKey(w, fuel, items[0], source);
      SafeValueIsClean(w, fuel, items[0], source);
    }
  }

  lemma {:induction false} SafeValueIsClean(w: World, fuel: nat, item: Json, source: Path)
    requires Safe(w, item, source) && Beyond(w, RefsOf(item), source, SafePlaces(w))
    ensures CleanValue(w, fuel, item, source)
    decreases fuel, item, 2
  {
    if item.Arr? && |item.items| == 2 {
      SafeSecond(w, item.items, source);
      FewerBeyond(w, RefsOf(item), RefsOf(item.items[1]), source, SafePlaces(w));
      SafeIsClean(w, fuel, item.items[1], source, false, {});
    }
  }

  /** Where everything met is safe, no mapping that comes of it has a "$ref" key. */
  lemma {:induction false} SafeKeys(w: World, fuel: nat, node: Json, source: Path)
    requires Safe(w, node, source) && Beyond(w, RefsOf(node), source, SafePlaces(w))
    requires node.Arr? ==> !PairsRef(node.items)
    ensures var keys := MappingKeys(w, fuel, node, source); keys.Ok? ==> REF !in keys.value
    decreases fuel, node, 1
  {
    match node
    case Arr(items) =>
      SafeListKeys(w, fuel, items, source);
      if ListKeys(w, fuel, items, source).Ok? {
        PutKeysMember([], ListKeys(w, fuel, items, source).value, REF);
      }
    case Obj(fields) =>
      if ReferenceOf(fields).Ok? && fuel > 0 && Target(w, source, ReferenceOf(fields).value).Ok? {
        SafeReferenceKeys(w, fuel, node, source, ReferenceOf(fields).value);
      }
    case _ =>
  }

  lemma {:induction false} SafeReferenceKeys(w: World, fuel: nat, node: Json, source: Path, ref: string)
    requires node.Obj? && fuel > 0 && ReferenceOf(node.fields) == Ok(ref) && Target(w, source, ref).Ok?
    requires Safe(w, node, source) && Beyond(w, RefsOf(node), source, SafePlaces(w))
    ensures var keys := ReferenceKeys(w, fuel, node, Target(w, source, ref).value); keys.Ok? ==> REF !in keys.value
    decreases fuel, node, 0
  {
    var t := Target(w, source, ref).value;
    SafeTarget(w, node, source, ref);
    if DescriptiveSiblings(node.fields) {
      SafeKeys(w, fuel - 1, t.value, t.path);
      SiblingKeyMember(node.fields, REF);
      if MappingKeys(w, fuel - 1, t.value, t.path).Ok? {
        PutKeysMember(MappingKeys(w, fuel - 1, t.value, t.path).value, SiblingKeys(node.fields), REF);
      }
    }
  }

  lemma {:induction false} SafeListKeys(w: World, fuel: nat, items: seq<Json>, source: Path)
    requires SafeItems(w, items, source) && Beyond(w, RefsOfItems(items), source, SafePlaces(w)) && !PairsRef(items)
    ensures var keys := ListKeys(w, fuel, items, source); keys.Ok? ==> REF !in keys.value
    decreases fuel, items, 0
  {
    if items != [] {
      FewerBeyond(w, RefsOfItems(items), RefsOfItems(items[1..]), source, SafePlaces(w));
      SafeListKeys(w, fuel, items[1..], source);
      FewerBeyond(w, RefsOfItems(items), RefsOf(items[0]), source, SafePlaces(w));
      SafePairKey(w, fuel, items[0], source);
    }
  }

  lemma {:induction false} SafePairKey(w: World, fuel: nat, item: Json, source: Path)
    requires Safe(w, item, source) && Beyond(w, RefsOf(item), source, SafePlaces(w)) && !IsRefPair(item)
    ensures PairKey(w, fuel, item, source) != Ok(REF)
    decreases fuel, item, 2
  {
    match item
    case Obj(_) => SafeKeys(w, fuel, item, source);
    case Str(s) => assert |REF.s| == 4;
    case _ =>
  }

  lemma SafeSecond(w: World, pair: seq<Json>, source: Path)
    requires |pair| == 2 && SafeItems(w, pair, source)
    ensures Safe(w, pair[1], source) && RefsOf(pair[1]) <= RefsOf(Arr(pair))
  {
    assert pair[1..][0] == pair[1];
    assert RefsOfItems(pair[1..]) == RefsOf(pair[1]) + RefsOfItems(pair[1..][1..]);
    assert SafeItems(w, pair[1..], source);
  }

  /** At no depth of a resolved value is there a "$ref" key, provided no reference that resolution meets has only
      descriptive siblings and points at a list that dict() would turn into one. */
  lemma ResolvedIsRefFree(w: World, fuel: nat, node: Json, source: Path)
    requires Safe(w, node, source) && Beyond(w, RefsOf(node), source, SafePlaces(w))
    requires Resolve(w, fuel, node, source).Ok?
    ensures RefFree(Resolve(w, fuel, node, source).value)
  {
    SafeIsClean(w, fuel, node, source, false, {});
    ResolvedIsRefFreeIff(w, fuel, node, source);
  }

  /** Without that condition the promise is false: a reference to the list [["$ref", 1]] resolves to a mapping
      whose key is "$ref". */
  lemma PairListBringsRefBack()
    ensures var list := Arr([Arr([Str("$ref"), Leaf("1", false)])]);
            var w := World(map["a" := list], "a", (r: string) => Url("", "", "", "", ""), (s: string) => s,
                           (p: Path, s: string) => p, (p: Path) => true);
            Resolve(w, 1, Obj([Field(REF, Str("#"))]), "a") == Ok(Obj([Field(REF, Leaf("1", false))]))
  {
    var pair := Arr([Str("$ref"), Leaf("1", false)]);
    var list := Arr([pair]);
    var w := World(map["a" := list], "a", (r: string) => Url("", "", "", "", ""), (s: string) => s,
                   (p: Path, s: string) => p, (p: Path) => true);
    var node := Obj([Field(REF, Str("#"))]);
    assert Target(w, "a", "#") == Ok(Place("a", list)) by {
      assert Text.Split("", '/')[1..] == [];
    }
    assert RefFree(list) by {
      assert pair.items[1..] == [Leaf("1", false)] && pair.items[1..][1..] == [] && [pair][1..] == [];
      assert RefFreeItems([Leaf("1", false)]);
      assert RefFreeItems(pair.items);
      assert RefFreeItems([]);
    }
    RefFreeIsFixed(w, 0, list, "a");
    assert node.fields[1..] == [];
    assert ResolveFields(w, 1, node.fields, "a") == Ok([]);
    assert [pair][1..] == [];
    assert PairsToFields([]) == Ok([]);
    assert [Field(REF, Leaf("1", false))] + [] == [Field(REF, Leaf("1", false))];
    assert PairsToFields([pair]) == Ok([Field(REF, Leaf("1", false))]);
    assert PutAll([], [Field(REF, Leaf("1", false))]) == [Field(REF, Leaf("1", false))] by {
      assert [Field(REF, Leaf("1", false))][1..] == [];
      assert PutAll([Field(REF, Leaf("1", false))], []) == [Field(REF, Leaf("1", false))];
    }
  }

  /** dict() makes a mapping of two-letter texts as well: the first letter is the key and the second the value. */
  lemma CodesBecomeAMapping()
    ensures AsMapping(Arr([Str("EU"), Str("US")])) == Ok([Field(Name("E"), Str("U")), Field(Name("U"), Str("S"))])
  {
    var e, u := Field(Name("E"), Str("U")), Field(Name("U"), Str("S"));
    assert PairOf(Str("EU")) == Ok(e) && PairOf(Str("US")) == Ok(u) by {
      assert ["EU"[0]] == "E" && ["EU"[1]] == "U" && ["US"[0]] == "U" && ["US"[1]] == "S";
    }
    assert [Str("EU"), Str("US")][1..] == [Str("US")] && [Str("US")][1..] == [];
    assert PairsToFields([]) == Ok([]) && [u] + [] == [u] && [e] + [u] == [e, u];
    assert PairsToFields([Str("US")]) == Ok([u]);
    assert PairsToFields([Str("EU"), Str("US")]) == Ok([e, u]);
    assert [e, u][1..] == [u] && [u][1..] == [];
    assert e.key != u.key by {
      assert "E"[0] != "U"[0];
    }
    assert Put([], e) == [e] && Put([e], u) == [e, u];
    assert PutAll([e], [u]) == PutAll([e, u], []) && PutAll([], [e, u]) == PutAll([e], [u]);
  }

  /* ---------------------------------------------------------------- resolving again */

  lemma {:induction false} KeysOfRefFree(fields: seq<Field>)
    requires RefFreeFields(fields)
    ensures REF !in Keys(fields)
  {
    if fields != [] {
      KeysOfRefFree(fields[1..]);
    }
  }

  /** A value without references is its own resolution in every document, so resolving is idempotent. */
  lemma {:induction false} RefFreeIsFixed(w: World, fuel: nat, node: Json, source: Path)
    requires RefFree(node)
    ensures Resolve(w, fuel, node, source) == Ok(node)
    decreases node, 1
  {
    match node
    case Arr(items) => RefFreeItemsFixed(w, fuel, items, source);
    case Obj(fields) =>
      KeysOfRefFree(fields);
      RefFreeFieldsFixed(w, fuel, fields, source);
    case _ =>
  }

  lemma {:induction false} RefFreeItemsFixed(w: World, fuel: nat, items: seq<Json>, source: Path)
    requires RefFreeItems(items)
    ensures ResolveItems(w, fuel, items, source) == Ok(items)
    decreases items, 0
  {
    if items != [] {
      RefFreeIsFixed(w, fuel, items[0], source);
      RefFreeItemsFixed(w, fuel, items[1..], source);
      assert items == [items[0]] + items[1..];
    }
  }

  lemma {:induction false} RefFreeFieldsFixed(w: World, fuel: nat, fields: seq<Field>, source: Path)
    requires RefFreeFields(fields)
    ensures ResolveFields(w, fuel, fields, source) == Ok(fields)
    decreases fields, 0
  {
    if fields != [] {
      assert fields[0].value < fields[0];
      RefFreeIsFixed(w, fuel, fields[0].value, source);
      RefFreeFieldsFixed(w, fuel, fields[1..], source);
      assert fields == [Field(fields[0].key, fields[0].value)] + fields[1..];
    }
  }

  /** A reference whose fragment is a pointer written by RFC 6901 reaches the value at the end of that path of keys,
      whatever characters the keys contain. */
  lemma PointerReachesItsPath(w: World, source: Path, ref: string, path: Path, keys: seq<string>)
    requires TargetPath(w, source, ref) == Ok(path) && path in w.files
    requires w.unquote(w.split(ref).fragment) == JsonPointer.Pointer(keys)
    ensures Target(w, source, ref) == match Navigate(w.files[path], keys)
                                      case Ok(v) => Ok(Place(path, v))
                                      case Err(e) => Err(e)
                                      case Diverged => Diverged
  {
    JsonPointer.PointerRoundTrip(keys);
  }
}
