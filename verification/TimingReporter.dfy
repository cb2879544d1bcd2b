/** The browser-test reporter flattens a tree of steps into a list of named steps with their parent, and totals
    the automation calls per operation.  It does so by a recursive visit that pushes onto a list and updates a
    table of counters. */
module TimingReporter {

  import opened Wrappers

  datatype Step = Step(title: string, category: string, duration: int, failed: bool, steps: seq<Step>)

  datatype Entry = Entry(title: string, parent: Option<string>, category: string, duration: int, failed: bool)

  datatype Counter = Counter(calls: int, duration: int)

  predicate Named(step: Step) { step.category == "test.step" || step.category == "hook" || step.category == "fixture" }

  predicate IsCall(step: Step) { step.category == "pw:api" }

  /** The operation name: the title up to the first quote, trimmed. */
  function Cut(title: string): string {
    if title == "" || title[0] == '"' || title[0] == '\'' then "" else [title[0]] + Cut(title[1..])
  }

  function Operation(title: string, trim: string -> string): string { trim(Cut(title)) }

  /** Only a test step passes its own title down. */
  function Heir(step: Step, parent: Option<string>): Option<string> {
    if step.category == "test.step" then Some(step.title) else parent
  }

  /* ---------------------------------------------------------------- what the reporter should record */

  /** A step together with the nearest test step above it. */
  datatype Visit = Seen(step: Step, parent: Option<string>)

  /** Every step in the order of a depth-first walk. */
  function Walk(step: Step, parent: Option<string>): seq<Visit>
    decreases step, 1
  {
    [Seen(step, parent)] + WalkAll(step.steps, Heir(step, parent))
  }

  function WalkAll(steps: seq<Step>, parent: Option<string>): seq<Visit>
    decreases steps, 0
  {
    if steps == [] then [] else Walk(steps[0], parent) + WalkAll(steps[1..], parent)
  }

  /** The named steps of a walk. */
  function Entries(visits: seq<Visit>): seq<Entry> {
    if visits == [] then []
    else
      var v := visits[|visits| - 1];
      Entries(visits[..|visits| - 1])
      + if Named(v.step) then [Entry(v.step.title, v.parent, v.step.category, v.step.duration, v.step.failed)] else []
  }

  /* ---------------------------------------------------------------- where a step stands in the tree */

  /** A step with all the steps above it, the outermost first. */
  datatype Located = Located(step: Step, above: seq<Step>)

  function Trail(step: Step, above: seq<Step>): seq<Located>
    decreases step, 1
  {
    [Located(step, above)] + TrailAll(step.steps, above + [step])
  }

  function TrailAll(steps: seq<Step>, above: seq<Step>): seq<Located>
    decreases steps, 0
  {
    if steps == [] then [] else Trail(steps[0], above) + TrailAll(steps[1..], above)
  }

  /** Each step is a child of the one before it, from one of the given trees on down. */
  ghost predicate IsTrail(trees: seq<Step>, above: seq<Step>, step: Step) {
    if above == [] then step in trees
    else step in above[|above| - 1].steps && IsTrail(trees, above[..|above| - 1], above[|above| - 1])
  }

  lemma {:induction false} ChildExtends(trees: seq<Step>, above: seq<Step>, step: Step, child: Step)
    requires IsTrail(trees, above, step) && child in step.steps
    ensures IsTrail(trees, above + [step], child)
  {
    var longer := above + [step];
    assert longer[..|longer| - 1] == above && longer[|longer| - 1] == step;
  }

  /** The steps above a step really are above it. */
  lemma {:induction false} TrailStepsDown(trees: seq<Step>, step: Step, above: seq<Step>, l: Located)
    requires IsTrail(trees, above, step) && l in Trail(step, above)
    ensures IsTrail(trees, l.above, l.step)
    decreases step, 1
  {
    if l != Located(step, above) {
      forall child | child in step.steps ensures IsTrail(trees, above + [step], child) {
        ChildExtends(trees, above, step, child);
      }
      TrailsStepDown(trees, step.steps, above + [step], l);
    }
  }

  lemma {:induction false} TrailsStepDown(trees: seq<Step>, steps: seq<Step>, above: seq<Step>, l: Located)
    requires (forall step :: step in steps ==> IsTrail(trees, above, step)) && l in TrailAll(steps, above)
    ensures IsTrail(trees, l.above, l.step)
    decreases steps, 0
  {
    if l in Trail(steps[0], above) {
      TrailStepsDown(trees, steps[0], above, l);
    } else {
      TrailsStepDown(trees, steps[1..], above, l);
    }
  }

  /** Nothing in the trees is left out. */
  lemma {:induction false} TrailIsComplete(trees: seq<Step>, above: seq<Step>, step: Step)
    requires IsTrail(trees, above, step)
    ensures Located(step, above) in TrailAll(trees, [])
    decreases |above|
  {
    if above == [] {
      RootIsWalked(trees, [], step);
    } else {
      var before, parent := above[..|above| - 1], above[|above| - 1];
      TrailIsComplete(trees, before, parent);
      ChildIsWalked(trees, [], Located(parent, before), step);
      assert before + [parent] == above;
    }
  }

  lemma {:induction false} RootIsWalked(steps: seq<Step>, above: seq<Step>, step: Step)
    requires step in steps
    ensures Located(step, above) in TrailAll(steps, above)
    decreases |steps|
  {
    if step != steps[0] {
      RootIsWalked(steps[1..], above, step);
    }
  }

  lemma {:induction false} ChildIsWalked(steps: seq<Step>, above: seq<Step>, l: Located, child: Step)
    requires l in TrailAll(steps, above) && child in l.step.steps
    ensures Located(child, l.above + [l.step]) in TrailAll(steps, above)
    decreases steps, 0
  {
    if l in Trail(steps[0], above) {
      ChildIsWalkedBelow(steps[0], above, l, child);
    } else {
      ChildIsWalked(steps[1..], above, l, child);
    }
  }

  lemma {:induction false} ChildIsWalkedBelow(step: Step, above: seq<Step>, l: Located, child: Step)
    requires l in Trail(step, above) && child in l.step.steps
    ensures Located(child, l.above + [l.step]) in Trail(step, above)
    decreases step, 1
  {
    if l == Located(step, above) {
      RootIsWalked(step.steps, above + [step], child);
    } else {
      ChildIsWalked(step.steps, above + [step], l, child);
    }
  }

  /** The title of the nearest test step above. */
  predicate IsNearest(above: seq<Step>, parent: Option<string>) {
    match parent
    case None => forall k :: 0 <= k < |above| ==> above[k].category != "test.step"
    case Some(title) => exists k :: 0 <= k < |above| && NearestAt(above, k) && above[k].title == title
  }

  predicate NearestAt(above: seq<Step>, k: nat)
    requires k < |above|
  {
    above[k].category == "test.step" && forall m :: k < m < |above| ==> above[m].category != "test.step"
  }

  lemma HeirIsNearest(above: seq<Step>, parent: Option<string>, step: Step)
    requires IsNearest(above, parent)
    ensures IsNearest(above + [step], Heir(step, parent))
  {
    var longer := above + [step];
    if step.category == "test.step" {
      assert NearestAt(longer, |above|) && longer[|above|].title == step.title;
    } else if parent.Some? {
      var k :| 0 <= k < |above| && NearestAt(above, k) && above[k].title == parent.value;
      assert NearestAt(longer, k) && longer[k].title == parent.value;
    }
  }

  /** The visits of a walk are the steps of a trail, in the same order, each with its nearest test step. */
  ghost predicate Follows(visits: seq<Visit>, trail: seq<Located>) {
    |visits| == |trail| && forall i :: 0 <= i < |visits| ==> FollowsAt(visits[i], trail[i])
  }

  predicate FollowsAt(v: Visit, l: Located) { v.step == l.step && IsNearest(l.above, v.parent) }

  lemma {:induction false} WalkFollows(step: Step, above: seq<Step>, parent: Option<string>)
    requires IsNearest(above, parent)
    ensures Follows(Walk(step, parent), Trail(step, above))
    decreases step, 1
  {
    HeirIsNearest(above, parent, step);
    WalksFollow(step.steps, above + [step], Heir(step, parent));
  }

  lemma {:induction false} WalksFollow(steps: seq<Step>, above: seq<Step>, parent: Option<string>)
    requires IsNearest(above, parent)
    ensures Follows(WalkAll(steps, parent), TrailAll(steps, above))
    decreases steps, 0
  {
    if steps != [] {
      WalkFollows(steps[0], above, parent);
      WalksFollow(steps[1..], above, parent);
    }
  }

  /** Every step of the trees is visited, and every visit is of a step of the trees, with the title of the nearest test
      step above it. */
  lemma WalkNamesTheNearest(trees: seq<Step>)
    ensures Follows(WalkAll(trees, None), TrailAll(trees, []))
    ensures forall step, above :: IsTrail(trees, above, step) <==> Located(step, above) in TrailAll(trees, [])
  {
    WalksFollow(trees, [], None);
    forall step, above ensures IsTrail(trees, above, step) <==> Located(step, above) in TrailAll(trees, []) {
      if IsTrail(trees, above, step) {
        TrailIsComplete(trees, above, step);
      }
      if Located(step, above) in TrailAll(trees, []) {
        TrailsStepDown(trees, trees, [], Located(step, above));
      }
    }
  }

  /** What is recorded of one visit. */
  lemma EntryOfVisit(visits: seq<Visit>, v: Visit)
    ensures var s := v.step;
            Entries(visits + [v]) == Entries(visits)
            + if s.category == "test.step" || s.category == "hook" || s.category == "fixture"
              then [Entry(s.title, v.parent, s.category, s.duration, s.failed)] else []
  {
    assert (visits + [v])[..|visits|] == visits;
  }

  /** The operation is cut at the first quote of either kind. */
  lemma {:induction false} CutAtFirstQuote(title: string)
    ensures Cut(title) <= title && '"' !in Cut(title) && '\'' !in Cut(title)
    ensures Cut(title) == title || title[|Cut(title)|] == '"' || title[|Cut(title)|] == '\''
  {
    if title != "" && title[0] != '"' && title[0] != '\'' {
      CutAtFirstQuote(title[1..]);
    }
  }

  type Table = map<string, Counter>

  /** The one inherited name whose member is Object.prototype itself. */
  const PROTO: string := "__proto__"

  /** The names a count on Object.prototype leaves there, as numbers, for every object to inherit. */
  const LEFT_BEHIND: set<string> := {"calls", "duration_ms"}

  /** The counters of one test; spoiled says that Object.prototype was counted on, now or in an earlier test, and
      threw that the visit was abandoned by an exception. */
  datatype Tally = Tally(table: Table, spoiled: bool, threw: bool)

  /** The counters after one more call.  inherited holds the names every JavaScript object has from the start: for
      those the lookup finds the inherited member, and nothing is entered in the table.  Incrementing a property of an
      inherited number throws. */
  function Count(t: Tally, operation: string, duration: int, inherited: set<string>): Tally {
    if t.threw then t
    else if operation in t.table then
      var c := t.table[operation];
      t.(table := t.table[operation := Counter(c.calls + 1, c.duration + duration)])
    else if operation == PROTO then t.(spoiled := true)
    else if t.spoiled && operation in LEFT_BEHIND then t.(threw := true)
    else if operation in inherited then t
    else t.(table := t.table[operation := Counter(1, duration)])
  }

  function Counts(visits: seq<Visit>, trim: string -> string, inherited: set<string>, spoiled: bool): Tally {
    if visits == [] then Tally(map[], spoiled, false)
    else
      var before, v := Counts(visits[..|visits| - 1], trim, inherited, spoiled), visits[|visits| - 1].step;
      if IsCall(v) then Count(before, Operation(v.title, trim), v.duration, inherited) else before
  }

  lemma Regroup(a: seq<Visit>, b: seq<Visit>, c: seq<Visit>)
    ensures a + b + c == a + (b + c)
  {
  }

  /** Nothing is counted after an exception. */
  lemma {:induction false} ThrownStays(a: seq<Visit>, b: seq<Visit>, trim: string -> string, inherited: set<string>, spoiled: bool)
    requires Counts(a, trim, inherited, spoiled).threw
    ensures Counts(a + b, trim, inherited, spoiled) == Counts(a, trim, inherited, spoiled)
    decreases |b|
  {
    if b == [] {
      assert a + b == a;
    } else {
      ThrownStays(a, b[..|b| - 1], trim, inherited, spoiled);
      assert (a + b)[..|a + b| - 1] == a + b[..|b| - 1];
    }
  }

  /* ---------------------------------------------------------------- the recursive visit */

  datatype Attempt = Attempt(steps: seq<Entry>, api: Table)

  class Reporter {
    const trim: string -> string
    const inherited: set<string>
    var spoiled: bool
    var steps: seq<Entry>
    var api: Table
    var attempts: seq<Attempt>

    constructor (trim: string -> string, inherited: set<string>)
      ensures this.trim == trim && this.inherited == inherited && !spoiled && attempts == []
    {
      this.trim, this.inherited := trim, inherited;
      spoiled, steps, api, attempts := false, [], map[], [];
    }

    /** The list and the table are those of the walk so far, which began with Object.prototype as it was. */
    ghost predicate Recorded(visits: seq<Visit>, was: bool)
      reads this
    {
      steps == Entries(visits) && Tally(api, spoiled, false) == Counts(visits, trim, inherited, was)
    }

    /** One more automation call, by the test's own cascade of lookups. */
    method Enter(operation: string, duration: int) returns (threw: bool)
      modifies this`api, this`spoiled
      ensures Tally(api, spoiled, threw) == Count(Tally(old(api), old(spoiled), false), operation, duration, inherited)
    {
      threw := false;
      if operation in api {
        api := api[operation := Counter(api[operation].calls + 1, api[operation].duration + duration)];
      } else if operation == PROTO {
        spoiled := true;
      } else if spoiled && operation in LEFT_BEHIND {
        threw := true;
      } else if operation !in inherited {
        api := api[operation := Counter(1, duration)];
      }
    }

    method Visit(step: Step, parent: Option<string>, ghost before: seq<Visit>, ghost was: bool) returns (threw: bool)
      requires Recorded(before, was)
      modifies this`steps, this`api, this`spoiled
      ensures var after := Counts(before + Walk(step, parent), trim, inherited, was); threw == after.threw && spoiled == after.spoiled
      ensures !threw ==> Recorded(before + Walk(step, parent), was)
      decreases step, 1
    {
      ghost var now, below := before + [Seen(step, parent)], WalkAll(step.steps, Heir(step, parent));
      assert now[..|now| - 1] == before;
      Regroup(before, [Seen(step, parent)], below);
      if Named(step) {
        steps := steps + [Entry(step.title, parent, step.category, step.duration, step.failed)];
      }
      if IsCall(step) {
        threw := Enter(Operation(step.title, trim), step.duration);
        if threw {
          ThrownStays(now, below, trim, inherited, was);
          return;
        }
      }
      threw := VisitAll(step.steps, Heir(step, parent), now, was);
    }

    method VisitAll(children: seq<Step>, parent: Option<string>, ghost before: seq<Visit>, ghost was: bool) returns (threw: bool)
      requires Recorded(before, was)
      modifies this`steps, this`api, this`spoiled
      ensures var after := Counts(before + WalkAll(children, parent), trim, inherited, was); threw == after.threw && spoiled == after.spoiled
      ensures !threw ==> Recorded(before + WalkAll(children, parent), was)
      decreases children, 0
    {
      if children == [] {
        assert before + [] == before;
        return false;
      }
      ghost var first, rest := Walk(children[0], parent), WalkAll(children[1..], parent);
      Regroup(before, first, rest);
      threw := Visit(children[0], parent, before, was);
      if threw {
        ThrownStays(before + first, rest, trim, inherited, was);
        return;
      }
      threw := VisitAll(children[1..], parent, before + first, was);
    }

    /** onTestEnd: a test's attempt is the flattening of its step trees, unless counting throws, and then there is
        no attempt. */
    method OnTestEnd(trees: seq<Step>) returns (threw: bool)
      modifies this
      ensures var visits := WalkAll(trees, None);
              var tally := Counts(visits, trim, inherited, old(spoiled));
              && threw == tally.threw && spoiled == tally.spoiled
              && attempts == old(attempts) + if threw then [] else [Attempt(Entries(visits), tally.table)]
    {
      steps, api := [], map[];
      threw := VisitAll(trees, None, [], spoiled);
      assert [] + WalkAll(trees, None) == WalkAll(trees, None);
      if !threw {
        attempts := attempts + [Attempt(steps, api)];
      }
    }
  }

  /* ---------------------------------------------------------------- what is lost in the totals */

  /** The calls of a walk that go by one operation name, and the time they took. */
  function Made(visits: seq<Visit>, operation: string, trim: string -> string): Counter {
    if visits == [] then Counter(0, 0)
    else
      var before, v := Made(visits[..|visits| - 1], operation, trim), visits[|visits| - 1].step;
      if IsCall(v) && Operation(v.title, trim) == operation then Counter(before.calls + 1, before.duration + v.duration) else before
  }

  /** A call is a step of the automation library. */
  lemma MadeByCall(visits: seq<Visit>, v: Visit, operation: string, trim: string -> string)
    ensures var before, after := Made(visits, operation, trim), Made(visits + [v], operation, trim);
            after == if v.step.category == "pw:api" && trim(Cut(v.step.title)) == operation
                     then Counter(before.calls + 1, before.duration + v.step.duration) else before
  {
    assert (visits + [v])[..|visits|] == visits;
  }

  predicate Called(visits: seq<Visit>, operation: string, trim: string -> string) { Made(visits, operation, trim).calls > 0 }

  /** For every operation the table holds exactly the number and total duration of its calls, if and only if the
      operation is not a name all objects inherit or was never called; it has no other entries. */
  lemma {:induction false} TableIsExact(visits: seq<Visit>, operation: string, trim: string -> string, inherited: set<string>, spoiled: bool)
    requires !Counts(visits, trim, inherited, spoiled).threw
    ensures var t, made := Counts(visits, trim, inherited, spoiled), Made(visits, operation, trim);
            && made.calls >= 0
            && (operation in t.table <==> made.calls > 0 && operation !in inherited && operation != "__proto__")
            && (operation in t.table ==> t.table[operation] == made)
            && (made.calls == 0 ==> made.duration == 0)
    ensures Counts(visits, trim, inherited, spoiled).spoiled <==> spoiled || Called(visits, "__proto__", trim)
    decreases |visits|
  {
    if visits != [] {
      TableIsExact(visits[..|visits| - 1], operation, trim, inherited, spoiled);
      var v := visits[|visits| - 1].step;
      if IsCall(v) {
        TableIsExact(visits[..|visits| - 1], Operation(v.title, trim), trim, inherited, spoiled);
      }
    }
  }

  /** Call i is the first by a name that was left on Object.prototype before. */
  ghost predicate BreaksAt(visits: seq<Visit>, i: nat, trim: string -> string, spoiled: bool)
    requires i < |visits|
  {
    var operation := Operation(visits[i].step.title, trim);
    && IsCall(visits[i].step) && (operation == "calls" || operation == "duration_ms") && !Called(visits[..i], operation, trim)
    && (spoiled || Called(visits[..i], "__proto__", trim))
  }

  ghost predicate Breaks(visits: seq<Visit>, trim: string -> string, spoiled: bool) {
    exists i :: 0 <= i < |visits| && BreaksAt(visits, i, trim, spoiled)
  }

  lemma BreaksSnoc(visits: seq<Visit>, trim: string -> string, spoiled: bool)
    requires visits != []
    ensures Breaks(visits, trim, spoiled) <==> Breaks(visits[..|visits| - 1], trim, spoiled) || BreaksAt(visits, |visits| - 1, trim, spoiled)
  {
    var before := visits[..|visits| - 1];
    forall i | 0 <= i < |before| ensures BreaksAt(visits, i, trim, spoiled) <==> BreaksAt(before, i, trim, spoiled) {
      assert visits[..i] == before[..i];
    }
    if i :| 0 <= i < |before| && BreaksAt(before, i, trim, spoiled) {
      assert BreaksAt(visits, i, trim, spoiled);
    }
    if i :| 0 <= i < |visits| && BreaksAt(visits, i, trim, spoiled) {
      assert i < |before| ==> BreaksAt(before, i, trim, spoiled);
    }
  }

  /** A test's record is lost to an exception if and only if some operation goes by a name that a call named
      __proto__, in this test or an earlier one, had left on Object.prototype before it was first used. */
  lemma {:induction false} RecordIsLostIff(visits: seq<Visit>, trim: string -> string, inherited: set<string>, spoiled: bool)
    requires "calls" !in inherited && "duration_ms" !in inherited
    ensures Counts(visits, trim, inherited, spoiled).threw <==> Breaks(visits, trim, spoiled)
    decreases |visits|
  {
    if visits != [] {
      var before, v := visits[..|visits| - 1], visits[|visits| - 1].step;
      RecordIsLostIff(before, trim, inherited, spoiled);
      BreaksSnoc(visits, trim, spoiled);
      if !Counts(before, trim, inherited, spoiled).threw && IsCall(v) {
        TableIsExact(before, Operation(v.title, trim), trim, inherited, spoiled);
      }
    }
  }

  function ApiCall(title: string): Visit { Seen(Step(title, "pw:api", 5, false, []), None) }

  function Untrimmed(s: string): string { s }

  lemma CountsSnoc(visits: seq<Visit>, title: string, inherited: set<string>, spoiled: bool)
    requires '"' !in title && '\'' !in title
    ensures Counts(visits + [ApiCall(title)], Untrimmed, inherited, spoiled)
         == Count(Counts(visits, Untrimmed, inherited, spoiled), title, 5, inherited)
    ensures Made(visits + [ApiCall(title)], title, Untrimmed).calls == Made(visits, title, Untrimmed).calls + 1
  {
    CutPlain(title);
    assert (visits + [ApiCall(title)])[..|visits|] == visits;
  }

  /** One call titled like an inherited member is not counted. */
  lemma InheritedNameIsMissed()
    ensures Made([ApiCall("constructor")], "constructor", Untrimmed).calls == 1
    ensures Counts([ApiCall("constructor")], Untrimmed, {"constructor"}, false).table == map[]
  {
    CountsSnoc([], "constructor", {"constructor"}, false);
    assert [] + [ApiCall("constructor")] == [ApiCall("constructor")];
  }

  lemma ProtoSpoils()
    ensures Counts([ApiCall(PROTO)], Untrimmed, {}, false) == Tally(map[], true, false)
  {
    assert '"' !in PROTO && '\'' !in PROTO;
    CountsSnoc([], PROTO, {}, false);
    assert [] + [ApiCall(PROTO)] == [ApiCall(PROTO)];
  }

  /** After one titled __proto__, a call titled like a counter's field costs the test its record. */
  lemma ProtoCostsTheRecord()
    ensures Counts([ApiCall(PROTO)] + [ApiCall("calls")], Untrimmed, {}, false).threw
  {
    ProtoSpoils();
    CountsSnoc([ApiCall(PROTO)], "calls", {}, false);
  }

  lemma {:induction false} CutPlain(title: string)
    requires '"' !in title && '\'' !in title
    ensures Cut(title) == title
  {
    if title != "" {
      CutPlain(title[1..]);
    }
  }
}
