/** The contract audit caches one validator per schema object, keyed by the object's identity, which is its
    address.  An address is reused as soon as its object has been collected, so an identity key is safe only
    while the cached object stays alive.

    Objects here have a serial number that is never reused, which the program cannot see, and an address,
    which is all that it can see.  A cached validator keeps a reference to its schema. */
module ValidatorCache {

  type Serial = nat
  type Address = nat
  type Schema = string

  datatype Object = Object(address: Address, content: Schema)

  /** next is the first serial not yet used; roots are the objects the program still refers to; vetted holds
      the content each cached schema had when it was checked. */
  datatype State = State(next: Serial, live: map<Serial, Object>, roots: set<Serial>,
                         cache: map<Address, Serial>, vetted: map<Serial, Schema>)

  const START: State := State(0, map[], {}, map[], map[])

  datatype Step =
    | Allocate(address: Address, content: Schema)
    | Drop(serial: Serial)
    | Collect(serial: Serial)
    | Mutate(serial: Serial, content: Schema)
    | Ask(serial: Serial)

  /** Collection may take what nothing refers to.  retains says whether a cached validator is a reference. */
  predicate Enabled(s: State, step: Step, retains: bool) {
    match step
    case Allocate(address, _) => forall k :: k in s.live ==> s.live[k].address != address
    case Drop(k) => k in s.roots
    case Collect(k) => k in s.live && k !in s.roots && (retains ==> k !in s.cache.Values)
    case Mutate(k, _) => k in s.roots && k in s.live
    case Ask(k) => k in s.roots && k in s.live
  }

  /** validator(schema): a miss checks the schema and caches a validator for it; a failed check raises. */
  function AfterAsk(s: State, k: Serial, passes: Schema -> bool): State
    requires k in s.live
  {
    var o := s.live[k];
    if o.address in s.cache || !passes(o.content) then s
    else s.(cache := s.cache[o.address := k], vetted := s.vetted[k := o.content])
  }

  /** The object whose validator an ask returns, or none when the check raises. */
  function Answer(s: State, k: Serial, passes: Schema -> bool): set<Serial>
    requires k in s.live
  {
    var t := AfterAsk(s, k, passes);
    if s.live[k].address in t.cache then {t.cache[s.live[k].address]} else {}
  }

  function Perform(s: State, step: Step, passes: Schema -> bool): State {
    match step
    case Allocate(address, content) =>
      s.(next := s.next + 1, live := s.live[s.next := Object(address, content)], roots := s.roots + {s.next})
    case Drop(k) => s.(roots := s.roots - {k})
    case Collect(k) => s.(live := s.live - {k})
    case Mutate(k, content) => if k in s.live then s.(live := s.live[k := s.live[k].(content := content)]) else s
    case Ask(k) => if k in s.live then AfterAsk(s, k, passes) else s
  }

  function Run(s: State, steps: seq<Step>, passes: Schema -> bool): State {
    if steps == [] then s else Perform(Run(s, steps[..|steps| - 1], passes), steps[|steps| - 1], passes)
  }

  /** Every step was possible when it was taken. */
  ghost predicate Possible(steps: seq<Step>, passes: Schema -> bool, retains: bool) {
    steps == [] || (&& Possible(steps[..|steps| - 1], passes, retains)
                    && Enabled(Run(START, steps[..|steps| - 1], passes), steps[|steps| - 1], retains))
  }

  /** Cached objects are alive at the address they are cached under, and no two live objects share one. */
  ghost predicate Inv(s: State, passes: Schema -> bool) {
    && (forall a :: a in s.cache ==> s.cache[a] in s.live && s.live[s.cache[a]].address == a
                                     && s.cache[a] in s.vetted && passes(s.vetted[s.cache[a]]))
    && (forall j, k :: j in s.live && k in s.live && s.live[j].address == s.live[k].address ==> j == k)
    && (forall k :: k in s.live ==> k < s.next)
    && s.roots <= s.live.Keys
  }

  lemma InvStep(s: State, step: Step, passes: Schema -> bool)
    requires Inv(s, passes) && Enabled(s, step, true)
    ensures Inv(Perform(s, step, passes), passes)
  {
    if step.Collect? {
      forall a | a in s.cache ensures s.cache[a] != step.serial {
        assert s.cache[a] in s.cache.Values;
      }
    }
  }

  lemma {:induction false} InvAlways(steps: seq<Step>, passes: Schema -> bool)
    requires Possible(steps, passes, true)
    ensures Inv(Run(START, steps, passes), passes)
    decreases |steps|
  {
    if steps != [] {
      InvAlways(steps[..|steps| - 1], passes);
      InvStep(Run(START, steps[..|steps| - 1], passes), steps[|steps| - 1], passes);
    }
  }

  /** After any interleaving of allocation, release, collection, mutation and validation, asking for a
      schema's validator gives the validator of that very schema or raises because the schema fails its check. */
  lemma AnswersForTheSchemaAsked(steps: seq<Step>, k: Serial, passes: Schema -> bool)
    requires Possible(steps, passes, true)
    requires Enabled(Run(START, steps, passes), Ask(k), true)
    ensures var s := Run(START, steps, passes);
            && (Answer(s, k, passes) == {k} || (Answer(s, k, passes) == {} && !passes(s.live[k].content)))
  {
    InvAlways(steps, passes);
  }

  predicate MutatesCached(s: State, step: Step) {
    step.Mutate? && step.serial in s.cache.Values
  }

  ghost predicate NeverMutatesCached(steps: seq<Step>, passes: Schema -> bool) {
    steps == [] || (&& NeverMutatesCached(steps[..|steps| - 1], passes)
                    && !MutatesCached(Run(START, steps[..|steps| - 1], passes), steps[|steps| - 1]))
  }

  ghost predicate Checked(s: State, passes: Schema -> bool) {
    forall a :: a in s.cache ==> s.cache[a] in s.live && passes(s.live[s.cache[a]].content)
  }

  lemma CheckedStep(s: State, step: Step, passes: Schema -> bool)
    requires Inv(s, passes) && Enabled(s, step, true) && Checked(s, passes) && !MutatesCached(s, step)
    ensures Checked(Perform(s, step, passes), passes)
  {
    forall a | a in s.cache ensures s.cache[a] in s.cache.Values && s.cache[a] < s.next {
      assert s.cache[a] in s.live;
    }
  }

  /** As long as no schema is changed after it was cached, every validator handed out is for a schema whose
      present content passed the check. */
  lemma {:induction false} CachedContentIsChecked(steps: seq<Step>, passes: Schema -> bool)
    requires Possible(steps, passes, true) && NeverMutatesCached(steps, passes)
    ensures Checked(Run(START, steps, passes), passes)
    decreases |steps|
  {
    if steps != [] {
      var before := steps[..|steps| - 1];
      CachedContentIsChecked(before, passes);
      InvAlways(before, passes);
      CheckedStep(Run(START, before, passes), steps[|steps| - 1], passes);
    }
  }

  /** Were the cached validator not to keep its schema alive, the answer could be for another schema: the first
      object is collected, its address is given to a second one, and the second gets the first one's validator. */
  lemma WithoutRetentionTheAnswerIsStale()
    ensures var steps := [Allocate(7, "a"), Ask(0), Drop(0), Collect(0), Allocate(7, "b")];
            var all := (c: Schema) => true;
            && Possible(steps, all, false)
            && Enabled(Run(START, steps, all), Ask(1), false)
            && Answer(Run(START, steps, all), 1, all) == {0}
  {
    var all := (c: Schema) => true;
    var s5 := [Allocate(7, "a"), Ask(0), Drop(0), Collect(0), Allocate(7, "b")];
    var s4 := [Allocate(7, "a"), Ask(0), Drop(0), Collect(0)];
    var s3 := [Allocate(7, "a"), Ask(0), Drop(0)];
    var s2 := [Allocate(7, "a"), Ask(0)];
    var s1 := [Allocate(7, "a")];
    assert s5[..4] == s4;
    assert s4[..3] == s3;
    assert s3[..2] == s2;
    assert s2[..1] == s1;
    assert s1[..0] == [];
    assert Run(START, [], all) == START && Possible([], all, false);
    assert Possible(s1, all, false) && Run(START, s1, all) == Perform(START, s5[0], all);
    assert Possible(s2, all, false) && Run(START, s2, all) == Perform(Run(START, s1, all), s5[1], all);
    assert Possible(s3, all, false) && Run(START, s3, all) == Perform(Run(START, s2, all), s5[2], all);
    assert Possible(s4, all, false) && Run(START, s4, all) == Perform(Run(START, s3, all), s5[3], all);
    assert Possible(s5, all, false) && Run(START, s5, all) == Perform(Run(START, s4, all), s5[4], all);
  }
}
