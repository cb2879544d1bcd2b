/** When resolving a contract gives a result: exactly when the references it meets are not circular and every one of
    them is well formed, leads somewhere, and can be merged with its siblings. */
module ContractOutcome {

  import opened ContractResolver
  import opened ContractTermination
  import opened ContractKeys
  import JsonPointer

  /** The links in the files: no chain of distinct references beyond the first is longer. */
  ghost function FileLinks(w: World): set<Link> {
    set p, r | p in w.files && r in AllRefs(w.files[p]) :: Link(p, r)
  }

  /** dict() takes what this value of a document resolves to. */
  ghost predicate Mergeable(w: World, v: Json, path: Path) { MappingKeys(w, |FileLinks(w)|, v, path).Ok? }

  /** Every reference in the value has a text, names something in the checked-in documents and, where it has only
      descriptive siblings, something that can be made a mapping. */
  ghost predicate Sound(w: World, node: Json, source: Path)
    decreases node, 1
  {
    match node
    case Arr(items) => SoundItems(w, items, source)
    case Obj(fields) => SoundFields(w, fields, source) && (REF in Keys(fields) ==> SoundReference(w, fields, source))
    case _ => true
  }

  ghost predicate SoundReference(w: World, fields: seq<Field>, source: Path) {
    && ReferenceOf(fields).Ok?
    && var t := Target(w, source, ReferenceOf(fields).value);
       t.Ok? && (DescriptiveSiblings(fields) ==> Mergeable(w, t.value.value, t.value.path))
  }

  ghost predicate SoundItems(w: World, items: seq<Json>, source: Path)
    decreases items, 0
  {
    items == [] || (Sound(w, items[0], source) && SoundItems(w, items[1..], source))
  }

  ghost predicate SoundFields(w: World, fields: seq<Field>, source: Path)
    decreases fields, 0
  {
    fields == []
    || (assert fields[0].value < fields[0];
        (fields[0].key == REF || Sound(w, fields[0].value, source)) && SoundFields(w, fields[1..], source))
  }

  ghost function SoundPlaces(w: World): Place -> bool { (p: Place) => Sound(w, p.value, p.path) }

  /* ---------------------------------------------------------------- merging */

  /** The links met below a target all lie in the files, so they bound every chain that does not run into itself. */
  lemma FileChainsFit(w: World, link: Link, t: Place)
    requires Target(w, link.source, link.ref) == Ok(t) && Acyclic(w, t.value, t.path)
    ensures ChainsFit(w, RefsOf(t.value), t.path, |FileLinks(w)|)
  {
    forall ls | ChainFrom(w, RefsOf(t.value), t.path, ls) ensures |ls| <= |FileLinks(w)| {
      assert Chain(w, t.value, t.path, ls);
      forall i | 0 <= i < |ls| ensures ls[i] in FileLinks(w) {
        if i == 0 {
          LeadsIntoFiles(w, link, ls[0]);
        } else {
          assert LinkedAt(w, ls, i);
          LeadsIntoFiles(w, ls[i - 1], ls[i]);
        }
      }
      DistinctFits(ls, FileLinks(w));
    }
  }

  lemma LeadsIntoFiles(w: World, a: Link, b: Link)
    requires Leads(w, a, b)
    ensures b in FileLinks(w)
  {
    var t := Target(w, a.source, a.ref).value;
    NavigateRefs(w.files[t.path], JsonPointer.Tokens(w.unquote(w.split(a.ref).fragment)));
    RefsAreAmongAll(t.value);
    assert b.ref in AllRefs(w.files[t.path]);
  }

  /** Whatever a target resolved to within any bound, it resolves to within this one. */
  lemma ResolvedInFiles(w: World, fuel: nat, link: Link, t: Place)
    requires Target(w, link.source, link.ref) == Ok(t) && Resolve(w, fuel, t.value, t.path).Ok?
    ensures Resolve(w, |FileLinks(w)|, t.value, t.path) == Resolve(w, fuel, t.value, t.path)
  {
    var enough := |FileLinks(w)|;
    SuccessMeansAcyclic(w, fuel, t.value, t.path);
    FileChainsFit(w, link, t);
    NeverDiverges(w, enough, t.value, t.path);
    if fuel <= enough {
      MoreFuel(w, fuel, enough, t.value, t.path);
    } else {
      MoreFuel(w, enough, fuel, t.value, t.path);
    }
  }

  /** Whether dict() takes what a target resolved to shows on the unresolved target. */
  lemma MergeableKept(w: World, fuel: nat, link: Link, t: Place)
    requires Target(w, link.source, link.ref) == Ok(t) && Resolve(w, fuel, t.value, t.path).Ok?
    ensures AsMapping(Resolve(w, fuel, t.value, t.path).value).Ok? <==> Mergeable(w, t.value, t.path)
  {
    ResolvedInFiles(w, fuel, link, t);
    MappingKeysKept(w, |FileLinks(w)|, t.value, t.path);
  }

  lemma CombineSucceeds(w: World, fuel: nat, fields: seq<Field>, source: Path, ref: string, t: Place)
    requires Target(w, source, ref) == Ok(t)
    requires fuel > 0 && Resolve(w, fuel - 1, t.value, t.path).Ok? && ResolveFields(w, fuel, fields, source).Ok?
    ensures Combine(Resolve(w, fuel - 1, t.value, t.path).value, ResolveFields(w, fuel, fields, source).value).Ok?
       <==> (DescriptiveSiblings(fields) ==> Mergeable(w, t.value, t.path))
    ensures !Combine(Resolve(w, fuel - 1, t.value, t.path).value, ResolveFields(w, fuel, fields, source).value).Diverged?
  {
    MergeableKept(w, fuel - 1, Link(source, ref), t);
    MappingAnswers(Resolve(w, fuel - 1, t.value, t.path).value);
    DescriptiveKept(w, fuel, fields, source);
  }

  /* ---------------------------------------------------------------- sound references never fail */

  lemma {:induction false} SoundNeverFails(w: World, fuel: nat, node: Json, source: Path)
    requires Sound(w, node, source) && Beyond(w, RefsOf(node), source, SoundPlaces(w))
    ensures !Resolve(w, fuel, node, source).Err?
    decreases fuel, node, 1
  {
    match node
    case Arr(items) => SoundItemsNeverFail(w, fuel, items, source);
    case Obj(fields) =>
      FewerBeyond(w, RefsOf(node), RefsOfFields(fields), source, SoundPlaces(w));
      SoundFieldsNeverFail(w, fuel, fields, source);
      if REF in Keys(fields) {
        var ref := ReferenceOf(fields).value;
        BeyondTarget(w, RefsOf(node), source, SoundPlaces(w), ref);
        SoundReferenceNeverFails(w, fuel, node, source, ref, Target(w, source, ref).value);
      }
    case _ =>
  }

  lemma {:induction false} SoundReferenceNeverFails(w: World, fuel: nat, node: Json, source: Path, ref: string, t: Place)
    requires node.Obj? && Target(w, source, ref) == Ok(t) && (DescriptiveSiblings(node.fields) ==> Mergeable(w, t.value, t.path))
    requires Sound(w, t.value, t.path) && Beyond(w, RefsOf(t.value), t.path, SoundPlaces(w))
    requires !ResolveFields(w, fuel, node.fields, source).Err?
    ensures !ResolveReference(w, fuel, node, ref, source).Err?
    decreases fuel, node, 0
  {
    if fuel > 0 {
      SoundNeverFails(w, fuel - 1, t.value, t.path);
      if Resolve(w, fuel - 1, t.value, t.path).Ok? && ResolveFields(w, fuel, node.fields, source).Ok? {
        CombineSucceeds(w, fuel, node.fields, source, ref, t);
      }
    }
  }

  lemma {:induction false} SoundItemsNeverFail(w: World, fuel: nat, items: seq<Json>, source: Path)
    requires SoundItems(w, items, source) && Beyond(w, RefsOfItems(items), source, SoundPlaces(w))
    ensures !ResolveItems(w, fuel, items, source).Err?
    decreases fuel, items, 0
  {
    if items != [] {
      FewerBeyond(w, RefsOfItems(items), RefsOf(items[0]), source, SoundPlaces(w));
      SoundNeverFails(w, fuel, items[0], source);
      FewerBeyond(w, RefsOfItems(items), RefsOfItems(items[1..]), source, SoundPlaces(w));
      SoundItemsNeverFail(w, fuel, items[1..], source);
    }
  }

  lemma {:induction false} SoundFieldsNeverFail(w: World, fuel: nat, fields: seq<Field>, source: Path)
    requires SoundFields(w, fields, source) && Beyond(w, RefsOfFields(fields), source, SoundPlaces(w))
    ensures !ResolveFields(w, fuel, fields, source).Err?
    decreases fuel, fields, 0
  {
    if fields != [] {
      if fields[0].key != REF {
        FewerBeyond(w, RefsOfFields(fields), RefsOf(fields[0].value), source, SoundPlaces(w));
        assert fields[0].value < fields[0];
        SoundNeverFails(w, fuel, fields[0].value, source);
      }
      FewerBeyond(w, RefsOfFields(fields), RefsOfFields(fields[1..]), source, SoundPlaces(w));
      SoundFieldsNeverFail(w, fuel, fields[1..], source);
    }
  }

  /* ---------------------------------------------------------------- what resolved was sound */

  /** A reference that resolution has resolved with one less nesting. */
  predicate Followed(w: World, fuel: nat, source: Path, ref: string) {
    var t := Target(w, source, ref);
    t.Ok? && fuel > 0 && Resolve(w, fuel - 1, t.value.value, t.value.path).Ok?
  }

  lemma {:induction false} ResolvedWasSound(w: World, fuel: nat, node: Json, source: Path)
    requires Resolve(w, fuel, node, source).Ok?
    ensures Sound(w, node, source)
    ensures forall ref :: ref in RefsOf(node) ==> Followed(w, fuel, source, ref)
    decreases node, 1
  {
    match node
    case Arr(items) => ResolvedItemsWereSound(w, fuel, items, source);
    case Obj(fields) =>
      FieldsWhereResolved(w, fuel, node, source);
      ResolvedFieldsWereSound(w, fuel, fields, source);
      LookupIsKey(fields, REF);
      if REF in Keys(fields) {
        CombineSucceeds(w, fuel, fields, source, ReferenceOf(fields).value, Target(w, source, ReferenceOf(fields).value).value);
      }
    case _ =>
  }

  lemma {:induction false} ResolvedItemsWereSound(w: World, fuel: nat, items: seq<Json>, source: Path)
    requires ResolveItems(w, fuel, items, source).Ok?
    ensures SoundItems(w, items, source)
    ensures forall ref :: ref in RefsOfItems(items) ==> Followed(w, fuel, source, ref)
    decreases items, 0
  {
    if items != [] {
      ResolvedWasSound(w, fuel, items[0], source);
      ResolvedItemsWereSound(w, fuel, items[1..], source);
    }
  }

  lemma {:induction false} ResolvedFieldsWereSound(w: World, fuel: nat, fields: seq<Field>, source: Path)
    requires ResolveFields(w, fuel, fields, source).Ok?
    ensures SoundFields(w, fields, source)
    ensures forall ref :: ref in RefsOfFields(fields) ==> Followed(w, fuel, source, ref)
    decreases fields, 0
  {
    if fields != [] {
      if fields[0].key != REF {
        assert fields[0].value < fields[0];
        ResolvedWasSound(w, fuel, fields[0].value, source);
      }
      ResolvedFieldsWereSound(w, fuel, fields[1..], source);
    }
  }

  lemma {:induction false} ChainEndsSound(w: World, fuel: nat, node: Json, source: Path, ls: seq<Link>)
    requires Resolve(w, fuel, node, source).Ok? && ls != [] && ChainFrom(w, RefsOf(node), source, ls)
    ensures LeadsToGood(w, ls[|ls| - 1], SoundPlaces(w))
    decreases |ls|
  {
    ResolvedWasSound(w, fuel, node, source);
    assert Followed(w, fuel, source, ls[0].ref);
    var t := Target(w, source, ls[0].ref).value;
    if |ls| == 1 {
      ResolvedWasSound(w, fuel - 1, t.value, t.path);
    } else {
      LinkedSlice(w, ls, 1, |ls|);
      assert ls[1..|ls|] == ls[1..] && LinkedAt(w, ls, 1);
      ChainEndsSound(w, fuel - 1, t.value, t.path, ls[1..]);
    }
  }

  lemma ResolvedMetSound(w: World, fuel: nat, node: Json, source: Path)
    requires Resolve(w, fuel, node, source).Ok?
    ensures Sound(w, node, source) && Beyond(w, RefsOf(node), source, SoundPlaces(w))
  {
    ResolvedWasSound(w, fuel, node, source);
    forall ls ensures EndsWell(w, RefsOf(node), source, SoundPlaces(w), ls) {
      if ls != [] && ChainFrom(w, RefsOf(node), source, ls) {
        ChainEndsSound(w, fuel, node, source, ls);
      }
    }
  }

  /** Resolution gives a result, within some bound on nesting, if and only if no chain of references runs into itself
      and every reference met on the way is sound.  Both are conditions on the documents. */
  lemma ResolvesIffSoundAndAcyclic(w: World, node: Json, source: Path)
    ensures (exists fuel: nat :: Resolve(w, fuel, node, source).Ok?)
       <==> Acyclic(w, node, source) && Sound(w, node, source) && Beyond(w, RefsOf(node), source, SoundPlaces(w))
  {
    if fuel: nat :| Resolve(w, fuel, node, source).Ok? {
      SuccessMeansAcyclic(w, fuel, node, source);
      ResolvedMetSound(w, fuel, node, source);
    }
    if Acyclic(w, node, source) && Sound(w, node, source) && Beyond(w, RefsOf(node), source, SoundPlaces(w)) {
      var enough := |Links(w, node, source)|;
      AcyclicTerminates(w, node, source, enough);
      SoundNeverFails(w, enough, node, source);
      assert Resolve(w, enough, node, source).Ok?;
    }
  }

  /** Where every reference met is sound, resolution runs on for ever if and only if some chain runs into itself. */
  lemma SoundDivergesIffCyclic(w: World, node: Json, source: Path)
    requires Sound(w, node, source) && Beyond(w, RefsOf(node), source, SoundPlaces(w))
    ensures (forall fuel: nat :: Resolve(w, fuel, node, source).Diverged?) <==> !Acyclic(w, node, source)
  {
    ResolvesIffSoundAndAcyclic(w, node, source);
    forall fuel: nat ensures !Resolve(w, fuel, node, source).Err? {
      SoundNeverFails(w, fuel, node, source);
    }
    if fuel: nat :| Resolve(w, fuel, node, source).Ok? {
      assert !Resolve(w, fuel, node, source).Diverged?;
    }
  }
}
