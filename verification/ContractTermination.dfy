/** When reference resolution comes to an end: exactly when no chain of references runs into itself. */
module ContractTermination {

  import opened ContractResolver

  /** One reference text as it occurs in one document. */
  datatype Link = Link(source: Path, ref: string)

  /** The reference texts that occur anywhere in a value. */
  function RefsOf(node: Json): set<string>
    decreases node, 1
  {
    match node
    case Arr(items) => RefsOfItems(items)
    case Obj(fields) =>
      (if ReferenceOf(fields).Ok? then {ReferenceOf(fields).value} else {}) + RefsOfFields(fields)
    case _ => {}
  }

  function RefsOfItems(items: seq<Json>): set<string>
    decreases items, 0
  {
    if items == [] then {} else RefsOf(items[0]) + RefsOfItems(items[1..])
  }

  function RefsOfFields(fields: seq<Field>): set<string>
    decreases fields, 0
  {
    if fields == [] then {}
    else
      assert fields[0].value < fields[0];
      (if fields[0].key == REF then {} else RefsOf(fields[0].value)) + RefsOfFields(fields[1..])
  }

  /** Following a leads to a value in which b occurs. */
  ghost predicate Leads(w: World, a: Link, b: Link) {
    var t := Target(w, a.source, a.ref);
    t.Ok? && b.source == t.value.path && b.ref in RefsOf(t.value.value)
  }

  ghost predicate LinkedAt(w: World, ls: seq<Link>, i: nat) {
    0 < i < |ls| ==> Leads(w, ls[i - 1], ls[i])
  }

  ghost predicate Linked(w: World, ls: seq<Link>) {
    forall i: nat :: LinkedAt(w, ls, i)
  }

  /** A chain of references that begins in node, a value of document source. */
  ghost predicate Chain(w: World, node: Json, source: Path, ls: seq<Link>) {
    ChainFrom(w, RefsOf(node), source, ls)
  }

  ghost predicate ChainFrom(w: World, refs: set<string>, source: Path, ls: seq<Link>) {
    ls != [] ==> ls[0].source == source && ls[0].ref in refs && Linked(w, ls)
  }

  ghost predicate Distinct(ls: seq<Link>) {
    forall i, j :: 0 <= i < j < |ls| ==> ls[i] != ls[j]
  }

  /** No chain meets the same link twice. */
  ghost predicate Acyclic(w: World, node: Json, source: Path) {
    forall ls :: Chain(w, node, source, ls) ==> Distinct(ls)
  }

  /** Every reference text below a value, also below keys resolution never enters. */
  function AllRefs(node: Json): set<string>
    decreases node, 1
  {
    match node
    case Arr(items) => AllRefsOfItems(items)
    case Obj(fields) =>
      (if ReferenceOf(fields).Ok? then {ReferenceOf(fields).value} else {}) + AllRefsOfFields(fields)
    case _ => {}
  }

  function AllRefsOfItems(items: seq<Json>): set<string>
    decreases items, 0
  {
    if items == [] then {} else AllRefs(items[0]) + AllRefsOfItems(items[1..])
  }

  function AllRefsOfFields(fields: seq<Field>): set<string>
    decreases fields, 0
  {
    if fields == [] then {}
    else
      assert fields[0].value < fields[0];
      AllRefs(fields[0].value) + AllRefsOfFields(fields[1..])
  }

  /** Every link that could possibly be met: those of the value and those of the files. */
  ghost function Links(w: World, node: Json, source: Path): set<Link> {
    (set r | r in RefsOf(node) :: Link(source, r))
    + (set p, r | p in w.files && r in AllRefs(w.files[p]) :: Link(p, r))
  }

  /* ---------------------------------------------------------------- the universe of links is finite */

  lemma RefsAreAmongAll(node: Json)
    ensures RefsOf(node) <= AllRefs(node)
    decreases node, 1
  {
    match node
    case Arr(items) => ItemRefsAreAmongAll(items);
    case Obj(fields) => FieldRefsAreAmongAll(fields);
    case _ =>
  }

  lemma ItemRefsAreAmongAll(items: seq<Json>)
    ensures RefsOfItems(items) <= AllRefsOfItems(items)
    decreases items, 0
  {
    if items != [] {
      RefsAreAmongAll(items[0]);
      ItemRefsAreAmongAll(items[1..]);
    }
  }

  lemma FieldRefsAreAmongAll(fields: seq<Field>)
    ensures RefsOfFields(fields) <= AllRefsOfFields(fields)
    decreases fields, 0
  {
    if fields != [] {
      assert fields[0].value < fields[0];
      RefsAreAmongAll(fields[0].value);
      FieldRefsAreAmongAll(fields[1..]);
    }
  }

  lemma {:induction false} LookupRefs(fields: seq<Field>, key: Key)
    requires Lookup(fields, key).Ok?
    ensures AllRefs(Lookup(fields, key).value) <= AllRefsOfFields(fields)
  {
    if fields[0].key != key {
      LookupRefs(fields[1..], key);
    }
  }

  lemma {:induction false} NavigateRefs(v: Json, tokens: seq<string>)
    requires Navigate(v, tokens).Ok?
    ensures AllRefs(Navigate(v, tokens).value) <= AllRefs(v)
    decreases |tokens|
  {
    if tokens != [] {
      LookupRefs(v.fields, Name(tokens[0]));
      NavigateRefs(Lookup(v.fields, Name(tokens[0])).value, tokens[1..]);
    }
  }

  lemma LeadsIntoLinks(w: World, a: Link, b: Link, node: Json, source: Path)
    requires Leads(w, a, b)
    ensures b in Links(w, node, source)
  {
    var t := Target(w, a.source, a.ref).value;
    NavigateRefs(w.files[t.path], JsonPointer.Tokens(w.unquote(w.split(a.ref).fragment)));
    RefsAreAmongAll(t.value);
    assert b.ref in AllRefs(w.files[t.path]);
  }

  lemma ChainStaysInLinks(w: World, node: Json, source: Path, ls: seq<Link>)
    requires Chain(w, node, source, ls)
    ensures forall i :: 0 <= i < |ls| ==> ls[i] in Links(w, node, source)
  {
    forall i | 0 <= i < |ls| ensures ls[i] in Links(w, node, source) {
      if i > 0 {
        assert LinkedAt(w, ls, i);
        LeadsIntoLinks(w, ls[i - 1], ls[i], node, source);
      }
    }
  }

  lemma {:induction false} DistinctFits(ls: seq<Link>, universe: set<Link>)
    requires Distinct(ls) && forall i :: 0 <= i < |ls| ==> ls[i] in universe
    ensures |ls| <= |universe|
    decreases |ls|
  {
    if ls != [] {
      var last := ls[|ls| - 1];
      DistinctFits(ls[..|ls| - 1], universe - {last});
    }
  }

  /* ---------------------------------------------------------------- acyclic implies termination */

  /** No chain that begins with one of these references is longer than the fuel. */
  ghost predicate ChainsFit(w: World, refs: set<string>, source: Path, fuel: nat) {
    forall ls :: ChainFrom(w, refs, source, ls) ==> |ls| <= fuel
  }

  lemma AcyclicChainsFit(w: World, node: Json, source: Path, fuel: nat)
    requires Acyclic(w, node, source) && fuel >= |Links(w, node, source)|
    ensures ChainsFit(w, RefsOf(node), source, fuel)
  {
    forall ls | ChainFrom(w, RefsOf(node), source, ls) ensures |ls| <= fuel {
      assert Chain(w, node, source, ls);
      ChainStaysInLinks(w, node, source, ls);
      DistinctFits(ls, Links(w, node, source));
    }
  }

  lemma FewerChainsFit(w: World, refs: set<string>, fewer: set<string>, source: Path, fuel: nat)
    requires ChainsFit(w, refs, source, fuel) && fewer <= refs
    ensures ChainsFit(w, fewer, source, fuel)
  {
    forall ls | ChainFrom(w, fewer, source, ls) ensures |ls| <= fuel {
      assert ChainFrom(w, refs, source, ls);
    }
  }

  lemma FuelLeft(w: World, refs: set<string>, source: Path, fuel: nat, ref: string)
    requires ChainsFit(w, refs, source, fuel) && ref in refs
    ensures fuel > 0
  {
    assert ChainFrom(w, refs, source, [Link(source, ref)]);
  }

  lemma ChainThroughTarget(w: World, refs: set<string>, source: Path, ref: string, ls: seq<Link>)
    requires ref in refs && Target(w, source, ref).Ok? && ls != []
    requires var t := Target(w, source, ref).value; ChainFrom(w, RefsOf(t.value), t.path, ls)
    ensures ChainFrom(w, refs, source, [Link(source, ref)] + ls)
  {
    LinkedJoin(w, [Link(source, ref)], ls);
  }

  lemma ChainsFitAtTarget(w: World, refs: set<string>, source: Path, fuel: nat, ref: string)
    requires ChainsFit(w, refs, source, fuel) && ref in refs && fuel > 0
    requires Target(w, source, ref).Ok?
    ensures var t := Target(w, source, ref).value; ChainsFit(w, RefsOf(t.value), t.path, fuel - 1)
  {
    var t := Target(w, source, ref).value;
    forall ls | ChainFrom(w, RefsOf(t.value), t.path, ls) ensures |ls| <= fuel - 1 {
      if ls != [] {
        ChainThroughTarget(w, refs, source, ref, ls);
      }
    }
  }

  lemma {:induction false} NeverDiverges(w: World, fuel: nat, node: Json, source: Path)
    requires ChainsFit(w, RefsOf(node), source, fuel)
    ensures !Resolve(w, fuel, node, source).Diverged?
    decreases fuel, node, 1
  {
    match node
    case Arr(items) => ItemsNeverDiverge(w, fuel, items, source);
    case Obj(fields) =>
      FewerChainsFit(w, RefsOf(node), RefsOfFields(fields), source, fuel);
      FieldsNeverDiverge(w, fuel, fields, source);
      if ReferenceOf(fields).Ok? {
        ReferenceNeverDiverges(w, fuel, node, ReferenceOf(fields).value, source);
      }
    case _ =>
  }

  lemma {:induction false} ReferenceNeverDiverges(w: World, fuel: nat, node: Json, ref: string, source: Path)
    requires node.Obj? && ref in RefsOf(node)
    requires ChainsFit(w, RefsOf(node), source, fuel)
    requires !ResolveFields(w, fuel, node.fields, source).Diverged?
    ensures !ResolveReference(w, fuel, node, ref, source).Diverged?
    decreases fuel, node, 0
  {
    FuelLeft(w, RefsOf(node), source, fuel, ref);
    if Target(w, source, ref).Ok? {
      var t := Target(w, source, ref).value;
      ChainsFitAtTarget(w, RefsOf(node), source, fuel, ref);
      NeverDiverges(w, fuel - 1, t.value, t.path);
    }
    CombineAnswers(w, fuel, node, ref, source);
  }

  lemma CombineAnswers(w: World, fuel: nat, node: Json, ref: string, source: Path)
    requires node.Obj? && fuel > 0
    requires Target(w, source, ref).Ok? ==> var t := Target(w, source, ref).value; !Resolve(w, fuel - 1, t.value, t.path).Diverged?
    requires !ResolveFields(w, fuel, node.fields, source).Diverged?
    ensures !ResolveReference(w, fuel, node, ref, source).Diverged?
  {
    TargetAnswers(w, source, ref);
    var t := Target(w, source, ref);
    if t.Ok? && Resolve(w, fuel - 1, t.value.value, t.value.path).Ok? {
      MappingAnswers(Resolve(w, fuel - 1, t.value.value, t.value.path).value);
    }
  }

  lemma TargetAnswers(w: World, source: Path, ref: string)
    ensures !Target(w, source, ref).Diverged?
  {
    var path := TargetPath(w, source, ref);
    if path.Ok? && path.value in w.files {
      NavigateAnswers(w.files[path.value], JsonPointer.Tokens(w.unquote(w.split(ref).fragment)));
    }
  }

  lemma {:induction false} NavigateAnswers(v: Json, tokens: seq<string>)
    ensures !Navigate(v, tokens).Diverged?
    decreases |tokens|
  {
    if tokens != [] && v.Obj? {
      LookupAnswers(v.fields, Name(tokens[0]));
      if Lookup(v.fields, Name(tokens[0])).Ok? {
        NavigateAnswers(Lookup(v.fields, Name(tokens[0])).value, tokens[1..]);
      }
    }
  }

  lemma {:induction false} LookupAnswers(fields: seq<Field>, key: Key)
    ensures !Lookup(fields, key).Diverged?
  {
    if fields != [] {
      LookupAnswers(fields[1..], key);
    }
  }

  lemma {:induction false} PairsAnswer(items: seq<Json>)
    ensures !PairsToFields(items).Diverged?
  {
    if items != [] {
      PairsAnswer(items[1..]);
    }
  }

  lemma MappingAnswers(v: Json)
    ensures !AsMapping(v).Diverged?
  {
    if v.Arr? {
      PairsAnswer(v.items);
    }
  }

  lemma {:induction false} ItemsNeverDiverge(w: World, fuel: nat, items: seq<Json>, source: Path)
    requires ChainsFit(w, RefsOfItems(items), source, fuel)
    ensures !ResolveItems(w, fuel, items, source).Diverged?
    decreases fuel, items, 0
  {
    if items != [] {
      FewerChainsFit(w, RefsOfItems(items), RefsOf(items[0]), source, fuel);
      NeverDiverges(w, fuel, items[0], source);
      FewerChainsFit(w, RefsOfItems(items), RefsOfItems(items[1..]), source, fuel);
      ItemsNeverDiverge(w, fuel, items[1..], source);
    }
  }

  lemma {:induction false} FieldsNeverDiverge(w: World, fuel: nat, fields: seq<Field>, source: Path)
    requires ChainsFit(w, RefsOfFields(fields), source, fuel)
    ensures !ResolveFields(w, fuel, fields, source).Diverged?
    decreases fuel, fields, 0
  {
    if fields != [] {
      if fields[0].key != REF {
        FewerChainsFit(w, RefsOfFields(fields), RefsOf(fields[0].value), source, fuel);
        assert fields[0].value < fields[0];
        NeverDiverges(w, fuel, fields[0].value, source);
      }
      FewerChainsFit(w, RefsOfFields(fields), RefsOfFields(fields[1..]), source, fuel);
      FieldsNeverDiverge(w, fuel, fields[1..], source);
    }
  }

  /** With an acyclic reference graph resolution terminates: nesting as deep as there are links suffices. */
  lemma AcyclicTerminates(w: World, node: Json, source: Path, fuel: nat)
    requires Acyclic(w, node, source) && fuel >= |Links(w, node, source)|
    ensures !Resolve(w, fuel, node, source).Diverged?
  {
    AcyclicChainsFit(w, node, source, fuel);
    NeverDiverges(w, fuel, node, source);
  }

  /* ---------------------------------------------------------------- the bound does not matter */

  /** An answer found within some bound is the answer within every larger bound. */
  lemma {:induction false} MoreFuel(w: World, f: nat, g: nat, node: Json, source: Path)
    requires f <= g && !Resolve(w, f, node, source).Diverged?
    ensures Resolve(w, g, node, source) == Resolve(w, f, node, source)
    decreases f, node, 1
  {
    match node
    case Arr(items) => MoreFuelItems(w, f, g, items, source);
    case Obj(fields) =>
      if REF in Keys(fields) {
        match ReferenceOf(fields) {
          case Ok(ref) =>
            if Target(w, source, ref).Ok? {
              var t := Target(w, source, ref).value;
              MoreFuel(w, f - 1, g - 1, t.value, t.path);
              if Resolve(w, f - 1, t.value, t.path).Ok? {
                MoreFuelFields(w, f, g, fields, source);
              }
            }
          case _ =>
        }
      } else {
        MoreFuelFields(w, f, g, fields, source);
      }
    case _ =>
  }

  lemma {:induction false} MoreFuelItems(w: World, f: nat, g: nat, items: seq<Json>, source: Path)
    requires f <= g && !ResolveItems(w, f, items, source).Diverged?
    ensures ResolveItems(w, g, items, source) == ResolveItems(w, f, items, source)
    decreases f, items, 0
  {
    if items != [] {
      MoreFuel(w, f, g, items[0], source);
      if Resolve(w, f, items[0], source).Ok? {
        MoreFuelItems(w, f, g, items[1..], source);
      }
    }
  }

  lemma {:induction false} MoreFuelFields(w: World, f: nat, g: nat, fields: seq<Field>, source: Path)
    requires f <= g && !ResolveFields(w, f, fields, source).Diverged?
    ensures ResolveFields(w, g, fields, source) == ResolveFields(w, f, fields, source)
    decreases f, fields, 0
  {
    if fields != [] {
      if fields[0].key == REF {
        MoreFuelFields(w, f, g, fields[1..], source);
      } else {
        assert fields[0].value < fields[0];
        MoreFuel(w, f, g, fields[0].value, source);
        if Resolve(w, f, fields[0].value, source).Ok? {
          MoreFuelFields(w, f, g, fields[1..], source);
        }
      }
    }
  }

  /* ---------------------------------------------------------------- success implies acyclic */

  lemma {:induction false} ChainFitsFuel(w: World, fuel: nat, node: Json, source: Path, ls: seq<Link>)
    requires Resolve(w, fuel, node, source).Ok?
    requires ls != [] && Chain(w, node, source, ls)
    ensures |ls| <= fuel
    decreases fuel, node, 1
  {
    match node
    case Arr(items) => ChainFitsItems(w, fuel, items, source, ls);
    case Obj(fields) =>
      if REF in Keys(fields) && ReferenceOf(fields) == Ok(ls[0].ref) {
        assert ResolveReference(w, fuel, node, ls[0].ref, source).Ok?;
        if |ls| > 1 {
          var t, rest := Target(w, source, ls[0].ref).value, ls[1..];
          assert LinkedAt(w, ls, 1);
          forall i: nat ensures LinkedAt(w, rest, i) {
            assert LinkedAt(w, ls, i + 1);
          }
          ChainFitsFuel(w, fuel - 1, t.value, t.path, rest);
        }
      } else {
        LookupIsKey(fields, REF);
        ChainFitsFields(w, fuel, fields, source, ls);
      }
  }

  lemma {:induction false} LookupIsKey(fields: seq<Field>, key: Key)
    ensures Lookup(fields, key).Ok? <==> key in Keys(fields)
  {
    if fields != [] {
      LookupIsKey(fields[1..], key);
    }
  }

  lemma {:induction false} ChainFitsItems(w: World, fuel: nat, items: seq<Json>, source: Path, ls: seq<Link>)
    requires ResolveItems(w, fuel, items, source).Ok?
    requires ls != [] && ls[0].source == source && ls[0].ref in RefsOfItems(items) && Linked(w, ls)
    ensures |ls| <= fuel
    decreases fuel, items, 0
  {
    if ls[0].ref in RefsOf(items[0]) {
      ChainFitsFuel(w, fuel, items[0], source, ls);
    } else {
      ChainFitsItems(w, fuel, items[1..], source, ls);
    }
  }

  lemma {:induction false} ChainFitsFields(w: World, fuel: nat, fields: seq<Field>, source: Path, ls: seq<Link>)
    requires ResolveFields(w, fuel, fields, source).Ok?
    requires ls != [] && ls[0].source == source && ls[0].ref in RefsOfFields(fields) && Linked(w, ls)
    ensures |ls| <= fuel
    decreases fuel, fields, 0
  {
    if fields[0].key != REF && ls[0].ref in RefsOf(fields[0].value) {
      assert fields[0].value < fields[0];
      ChainFitsFuel(w, fuel, fields[0].value, source, ls);
    } else {
      ChainFitsFields(w, fuel, fields[1..], source, ls);
    }
  }

  lemma LinkedSlice(w: World, ls: seq<Link>, i: nat, j: nat)
    requires Linked(w, ls) && i <= j <= |ls|
    ensures Linked(w, ls[i..j])
  {
    var part := ls[i..j];
    forall k: nat ensures LinkedAt(w, part, k) {
      assert LinkedAt(w, ls, i + k);
    }
  }

  lemma LinkedJoin(w: World, a: seq<Link>, b: seq<Link>)
    requires Linked(w, a) && Linked(w, b) && a != [] && b != [] && Leads(w, a[|a| - 1], b[0])
    ensures Linked(w, a + b)
  {
    var ls := a + b;
    forall k: nat ensures LinkedAt(w, ls, k) {
      assert LinkedAt(w, a, k);
      assert k > |a| ==> LinkedAt(w, b, k - |a|);
    }
  }

  /** A chain that meets a link twice can go round as often as one likes. */
  lemma {:induction false} GoRound(w: World, node: Json, source: Path, ls: seq<Link>, i: nat, j: nat, times: nat) returns (longer: seq<Link>)
    requires Chain(w, node, source, ls) && i < j < |ls| && ls[i] == ls[j]
    ensures Chain(w, node, source, longer) && |longer| >= j + times
    ensures longer != [] && longer[|longer| - 1] == ls[j - 1]
    decreases times
  {
    if times == 0 {
      longer := ls[..j];
      LinkedSlice(w, ls, 0, j);
      assert ls[0..j] == longer;
    } else {
      var before := GoRound(w, node, source, ls, i, j, times - 1);
      var cycle := ls[i..j];
      LinkedSlice(w, ls, i, j);
      assert LinkedAt(w, ls, j);
      LinkedJoin(w, before, cycle);
      longer := before + cycle;
    }
  }

  /** Whatever resolves, within any bound at all, has no circular reference in it. */
  lemma SuccessMeansAcyclic(w: World, fuel: nat, node: Json, source: Path)
    requires Resolve(w, fuel, node, source).Ok?
    ensures Acyclic(w, node, source)
  {
    forall ls | Chain(w, node, source, ls) ensures Distinct(ls) {
      if !Distinct(ls) {
        var i, j :| 0 <= i < j < |ls| && ls[i] == ls[j];
        var longer := GoRound(w, node, source, ls, i, j, fuel + 1);
        ChainFitsFuel(w, fuel, node, source, longer);
      }
    }
  }

  /* ---------------------------------------------------------------- what resolution meets */

  /** Everything that the chains of these references point at is good. */
  ghost predicate Beyond(w: World, refs: set<string>, source: Path, good: Place -> bool) {
    forall ls :: EndsWell(w, refs, source, good, ls)
  }

  ghost predicate EndsWell(w: World, refs: set<string>, source: Path, good: Place -> bool, ls: seq<Link>) {
    ls != [] && ChainFrom(w, refs, source, ls) ==> LeadsToGood(w, ls[|ls| - 1], good)
  }

  predicate LeadsToGood(w: World, link: Link, good: Place -> bool) {
    var t := Target(w, link.source, link.ref);
    t.Ok? ==> good(t.value)
  }

  lemma FewerBeyond(w: World, refs: set<string>, fewer: set<string>, source: Path, good: Place -> bool)
    requires Beyond(w, refs, source, good) && fewer <= refs
    ensures Beyond(w, fewer, source, good)
  {
    forall ls ensures EndsWell(w, fewer, source, good, ls) {
      assert EndsWell(w, refs, source, good, ls);
    }
  }

  lemma BeyondTarget(w: World, refs: set<string>, source: Path, good: Place -> bool, ref: string)
    requires Beyond(w, refs, source, good) && ref in refs && Target(w, source, ref).Ok?
    ensures var t := Target(w, source, ref).value; good(t) && Beyond(w, RefsOf(t.value), t.path, good)
  {
    var t, first := Target(w, source, ref).value, [Link(source, ref)];
    assert EndsWell(w, refs, source, good, first);
    forall ls ensures EndsWell(w, RefsOf(t.value), t.path, good, ls) {
      if ls != [] && ChainFrom(w, RefsOf(t.value), t.path, ls) {
        ChainThroughTarget(w, refs, source, ref, ls);
        assert EndsWell(w, refs, source, good, first + ls);
      }
    }
  }
}
