/** What the API shows of a corporate-action plan.  A lot whose cost basis is unknown carries amount fields that
    mean nothing; the responses must not let them through, and must let everything else through.  That is one
    statement: two plans look the same if and only if they are the same once the meaningless fields are blanked. */
module PlanProjections {

  import opened Wrappers
  import opened Decimal

  /** A 64-bit amount, and an exact coefficient in text form; the empty coefficient is zero. */
  datatype Money = Money(value: int, scale: int)
  datatype Coefficient = Coefficient(text: string, scale: int)

  /** An amount on the wire. */
  datatype Shown = Shown(text: string, scale: int)

  datatype LinkFacts = LinkFacts(sourceLotId: int, costCommodityId: int, sourceQuantity: Coefficient, destinationQuantity: Coefficient,
                                 basisKnowledge: string, dateKnowledge: string)

  datatype TotalFacts = TotalFacts(costCommodityId: int, sourceQuantity: Coefficient, destinationQuantity: Coefficient,
                                   basisKnowledge: string, unknownLots: int)

  predicate Known(knowledge: string) { knowledge != "unknown" }

  function ShowMoney(m: Money, present: bool): Option<Shown> { if present then Some(Shown(Format(m.value), m.scale)) else None }

  function ShowCoefficient(c: Coefficient, present: bool): Option<Shown> {
    if present then Some(Shown(if c.text == "" then "0" else c.text, c.scale)) else None
  }

  function ShowId(id: int): Option<int> { if id > 0 then Some(id) else None }

  function ShowDate(date: string): Option<string> { if date != "" then Some(date) else None }

  function BlankMoney(m: Money, present: bool): Money { if present then m else Money(0, 0) }

  function BlankCoefficient(c: Coefficient, present: bool): Coefficient {
    if !present then Coefficient("0", 0) else if c.text == "" then c.(text := "0") else c
  }

  function BlankId(id: int): int { if id > 0 then id else 0 }

  /* What a shown field tells: an amount by a text that stands for it, at its own scale; a coefficient by its own text; a
     reference by itself; and where there is nothing to tell, the field is absent. */

  predicate TellsMoney(shown: Option<Shown>, present: bool, m: Money) {
    if present then shown.Some? && StandsFor(shown.value.text, m.value) && shown.value.scale == m.scale else shown == None
  }

  predicate TellsCoefficient(shown: Option<Shown>, present: bool, c: Coefficient) {
    if present then shown.Some? && shown.value.text == (if c.text != "" then c.text else "0") && shown.value.scale == c.scale else shown == None
  }

  predicate TellsId(shown: Option<int>, id: int) { if id >= 1 then shown == Some(id) else shown == None }

  predicate TellsDate(shown: Option<string>, date: string) { if date == "" then shown == None else shown == Some(date) }

  lemma ShownMoneyTells(m: Money, present: bool)
    ensures TellsMoney(ShowMoney(m, present), present, m)
  {
    FormatStandsFor(m.value);
  }

  lemma FormatHead(v: int)
    ensures Format(v) != "" && (Format(v)[0] == '-' <==> v < 0)
  {
    assert IsDigit(Digits(if v < 0 then -v else v)[0]);
  }

  /** Different amounts have different texts. */
  lemma FormatDiffers(a: int, b: int)
    requires Format(a) == Format(b)
    ensures a == b
  {
    FormatHead(a);
    FormatHead(b);
    DigitsRoundTrip(if a < 0 then -a else a);
    DigitsRoundTrip(if b < 0 then -b else b);
    if a < 0 {
      assert Format(a)[1..] == Digits(-a) && Format(b)[1..] == Digits(-b);
    }
  }

  lemma MoneyShown(a: Money, b: Money, present: bool)
    ensures ShowMoney(a, present) == ShowMoney(b, present) <==> BlankMoney(a, present) == BlankMoney(b, present)
  {
    if present && Format(a.value) == Format(b.value) {
      FormatDiffers(a.value, b.value);
    }
  }

  /* ---------------------------------------------------------------- plans and responses */

  /** A plan, and likewise a response: the terms of the action, one link per lot, and totals per currency. */
  datatype Plan<L, T> = Plan(terms: seq<Coefficient>, links: seq<L>, totals: seq<T>)

  /** Entry i of the response shows entry i of the plan. */
  ghost predicate Shows<L, T, V, W>(plan: Plan<L, T>, view: Plan<V, W>, viewLink: L -> V, viewTotal: T -> W) {
    && view.terms == plan.terms && |view.links| == |plan.links| && |view.totals| == |plan.totals|
    && (forall i :: 0 <= i < |plan.links| ==> view.links[i] == viewLink(plan.links[i]))
    && (forall i :: 0 <= i < |plan.totals| ==> view.totals[i] == viewTotal(plan.totals[i]))
  }

  /** The plans are the same but for fields without meaning. */
  ghost predicate Same<L, T>(a: Plan<L, T>, b: Plan<L, T>, blankLink: L -> L, blankTotal: T -> T) {
    && a.terms == b.terms && |a.links| == |b.links| && |a.totals| == |b.totals|
    && (forall i :: 0 <= i < |a.links| ==> blankLink(a.links[i]) == blankLink(b.links[i]))
    && (forall i :: 0 <= i < |a.totals| ==> blankTotal(a.totals[i]) == blankTotal(b.totals[i]))
  }

  /** Two entries look the same exactly when they are the same but for fields without meaning. */
  ghost predicate ShowsMeaning<A(!new), B>(view: A -> B, blank: A -> A) {
    forall a, b :: view(a) == view(b) <==> blank(a) == blank(b)
  }

  lemma EntriesShowTheMeaning<A(!new), B>(xs: seq<A>, ys: seq<A>, vs: seq<B>, ws: seq<B>, view: A -> B, blank: A -> A)
    requires ShowsMeaning(view, blank) && |vs| == |xs| && |ws| == |ys|
    requires forall i :: 0 <= i < |xs| ==> vs[i] == view(xs[i])
    requires forall i :: 0 <= i < |ys| ==> ws[i] == view(ys[i])
    ensures vs == ws <==> |xs| == |ys| && forall i :: 0 <= i < |xs| ==> blank(xs[i]) == blank(ys[i])
  {
    if |xs| == |ys| {
      forall i | 0 <= i < |xs| ensures vs[i] == ws[i] <==> blank(xs[i]) == blank(ys[i]) {
        assert view(xs[i]) == view(ys[i]) <==> blank(xs[i]) == blank(ys[i]);
      }
    }
  }

  /** If that holds of every entry, it holds of plans. */
  lemma PlansShowTheMeaning<L(!new), T(!new), V, W>(a: Plan<L, T>, b: Plan<L, T>, x: Plan<V, W>, y: Plan<V, W>,
                                        viewLink: L -> V, viewTotal: T -> W, blankLink: L -> L, blankTotal: T -> T)
    requires Shows(a, x, viewLink, viewTotal) && Shows(b, y, viewLink, viewTotal)
    requires ShowsMeaning(viewLink, blankLink) && ShowsMeaning(viewTotal, blankTotal)
    ensures x == y <==> Same(a, b, blankLink, blankTotal)
  {
    EntriesShowTheMeaning(a.links, b.links, x.links, y.links, viewLink, blankLink);
    EntriesShowTheMeaning(a.totals, b.totals, x.totals, y.totals, viewTotal, blankTotal);
  }

  /* ---------------------------------------------------------------- share exchange */

  datatype ShareLink = ShareLink(facts: LinkFacts, destinationLotId: int, carried: Money, acquiredOn: string)
  datatype ShareTotal = ShareTotal(facts: TotalFacts, carried: Coefficient)
  type SharePlan = Plan<ShareLink, ShareTotal>

  datatype ShareLinkView = ShareLinkView(facts: LinkFacts, destinationLotId: Option<int>, carried: Option<Shown>, acquiredOn: Option<string>)
  datatype ShareTotalView = ShareTotalView(facts: TotalFacts, carried: Option<Shown>)
  type ShareView = Plan<ShareLinkView, ShareTotalView>

  function ViewLink(l: ShareLink): ShareLinkView {
    ShareLinkView(l.facts, ShowId(l.destinationLotId), ShowMoney(l.carried, Known(l.facts.basisKnowledge)), ShowDate(l.acquiredOn))
  }

  function ViewTotal(t: ShareTotal): ShareTotalView { ShareTotalView(t.facts, ShowCoefficient(t.carried, Known(t.facts.basisKnowledge))) }

  function BlankLink(l: ShareLink): ShareLink {
    l.(destinationLotId := BlankId(l.destinationLotId), carried := BlankMoney(l.carried, Known(l.facts.basisKnowledge)))
  }

  function BlankTotal(t: ShareTotal): ShareTotal { t.(carried := BlankCoefficient(t.carried, Known(t.facts.basisKnowledge))) }

  ghost predicate ShowsShare(plan: SharePlan, view: ShareView) { Shows(plan, view, ViewLink, ViewTotal) }

  /** The carried basis is told exactly where the basis is not unknown. */
  predicate LinkTells(l: ShareLink, v: ShareLinkView) {
    && v.facts == l.facts && TellsId(v.destinationLotId, l.destinationLotId) && TellsDate(v.acquiredOn, l.acquiredOn)
    && TellsMoney(v.carried, l.facts.basisKnowledge != "unknown", l.carried)
  }

  predicate TotalTells(t: ShareTotal, v: ShareTotalView) {
    v.facts == t.facts && TellsCoefficient(v.carried, t.facts.basisKnowledge != "unknown", t.carried)
  }

  ghost predicate ShareTells(plan: SharePlan, view: ShareView) {
    && view.terms == plan.terms && |view.links| == |plan.links| && |view.totals| == |plan.totals|
    && (forall i :: 0 <= i < |plan.links| ==> LinkTells(plan.links[i], view.links[i]))
    && (forall i :: 0 <= i < |plan.totals| ==> TotalTells(plan.totals[i], view.totals[i]))
  }

  lemma ViewLinkTells(l: ShareLink)
    ensures LinkTells(l, ViewLink(l))
  {
    ShownMoneyTells(l.carried, Known(l.facts.basisKnowledge));
  }

  /** Field by field, a share-exchange response tells its plan. */
  lemma ShownShareTells(plan: SharePlan, view: ShareView)
    requires ShowsShare(plan, view)
    ensures ShareTells(plan, view)
  {
    forall i | 0 <= i < |plan.links| ensures LinkTells(plan.links[i], view.links[i]) {
      ViewLinkTells(plan.links[i]);
    }
  }

  method ToLinkView(link: ShareLink) returns (response: ShareLinkView)
    ensures response == ViewLink(link)
  {
    response := ShareLinkView(link.facts, None, None, None);
    if link.destinationLotId > 0 {
      response := response.(destinationLotId := Some(link.destinationLotId));
    }
    if link.facts.basisKnowledge != "unknown" {
      response := response.(carried := Some(Shown(Format(link.carried.value), link.carried.scale)));
    }
    if link.acquiredOn != "" {
      response := response.(acquiredOn := Some(link.acquiredOn));
    }
  }

  /** toShareExchangePlanResponse. */
  method ToShareView(plan: SharePlan) returns (view: ShareView)
    ensures ShowsShare(plan, view) && ShareTells(plan, view)
  {
    var links: seq<ShareLinkView> := [];
    for i := 0 to |plan.links|
      invariant |links| == i && forall k :: 0 <= k < i ==> links[k] == ViewLink(plan.links[k])
    {
      var response := ToLinkView(plan.links[i]);
      links := links + [response];
    }
    var totals: seq<ShareTotalView> := [];
    for i := 0 to |plan.totals|
      invariant |totals| == i && forall k :: 0 <= k < i ==> totals[k] == ViewTotal(plan.totals[k])
    {
      totals := totals + [ShareTotalView(plan.totals[i].facts, ShowCoefficient(plan.totals[i].carried, Known(plan.totals[i].facts.basisKnowledge)))];
    }
    view := Plan(plan.terms, links, totals);
    ShownShareTells(plan, view);
  }

  lemma LinkShown(a: ShareLink, b: ShareLink)
    ensures ViewLink(a) == ViewLink(b) <==> BlankLink(a) == BlankLink(b)
  {
    MoneyShown(a.carried, b.carried, Known(a.facts.basisKnowledge));
  }

  /** Share-exchange responses are equal exactly for plans that differ at most in amounts of unknown basis. */
  lemma ShareShowsExactlyTheMeaning(a: SharePlan, b: SharePlan, x: ShareView, y: ShareView)
    requires ShowsShare(a, x) && ShowsShare(b, y)
    ensures x == y <==> Same(a, b, BlankLink, BlankTotal)
  {
    forall l, m ensures ViewLink(l) == ViewLink(m) <==> BlankLink(l) == BlankLink(m) {
      LinkShown(l, m);
    }
    PlansShowTheMeaning(a, b, x, y, ViewLink, ViewTotal, BlankLink, BlankTotal);
  }

  /* ---------------------------------------------------------------- cash-and-stock merger */

  datatype MergerLink = MergerLink(exchange: ShareLink, realized: Money, cash: Money)
  datatype MergerTotal = MergerTotal(exchange: ShareTotal, cash: Coefficient, realized: Coefficient, result: Coefficient)
  type MergerPlan = Plan<MergerLink, MergerTotal>

  datatype MergerLinkView = MergerLinkView(exchange: ShareLinkView, realized: Option<Shown>, cash: Shown)
  datatype MergerTotalView = MergerTotalView(exchange: ShareTotalView, cash: Coefficient, realized: Option<Shown>, result: Option<Shown>)
  type MergerView = Plan<MergerLinkView, MergerTotalView>

  function ViewMergerLink(l: MergerLink): MergerLinkView {
    MergerLinkView(ViewLink(l.exchange), ShowMoney(l.realized, Known(l.exchange.facts.basisKnowledge)), Shown(Format(l.cash.value), l.cash.scale))
  }

  function ViewMergerTotal(t: MergerTotal): MergerTotalView {
    var known := Known(t.exchange.facts.basisKnowledge);
    MergerTotalView(ViewTotal(t.exchange), t.cash, ShowCoefficient(t.realized, known), ShowCoefficient(t.result, known))
  }

  function BlankMergerLink(l: MergerLink): MergerLink {
    l.(exchange := BlankLink(l.exchange), realized := BlankMoney(l.realized, Known(l.exchange.facts.basisKnowledge)))
  }

  function BlankMergerTotal(t: MergerTotal): MergerTotal {
    var known := Known(t.exchange.facts.basisKnowledge);
    MergerTotal(BlankTotal(t.exchange), t.cash, BlankCoefficient(t.realized, known), BlankCoefficient(t.result, known))
  }

  ghost predicate ShowsMerger(plan: MergerPlan, view: MergerView) { Shows(plan, view, ViewMergerLink, ViewMergerTotal) }

  /** The cash is told always, the realized basis and the result where the basis is not unknown. */
  predicate MergerLinkTells(l: MergerLink, v: MergerLinkView) {
    && LinkTells(l.exchange, v.exchange) && StandsFor(v.cash.text, l.cash.value) && v.cash.scale == l.cash.scale
    && TellsMoney(v.realized, l.exchange.facts.basisKnowledge != "unknown", l.realized)
  }

  predicate MergerTotalTells(t: MergerTotal, v: MergerTotalView) {
    && TotalTells(t.exchange, v.exchange) && v.cash == t.cash
    && TellsCoefficient(v.realized, t.exchange.facts.basisKnowledge != "unknown", t.realized)
    && TellsCoefficient(v.result, t.exchange.facts.basisKnowledge != "unknown", t.result)
  }

  ghost predicate MergerTells(plan: MergerPlan, view: MergerView) {
    && view.terms == plan.terms && |view.links| == |plan.links| && |view.totals| == |plan.totals|
    && (forall i :: 0 <= i < |plan.links| ==> MergerLinkTells(plan.links[i], view.links[i]))
    && (forall i :: 0 <= i < |plan.totals| ==> MergerTotalTells(plan.totals[i], view.totals[i]))
  }

  lemma ViewMergerLinkTells(l: MergerLink)
    ensures MergerLinkTells(l, ViewMergerLink(l))
  {
    ViewLinkTells(l.exchange);
    ShownMoneyTells(l.realized, Known(l.exchange.facts.basisKnowledge));
    FormatStandsFor(l.cash.value);
  }

  /** Field by field, a merger response tells its plan. */
  lemma ShownMergerTells(plan: MergerPlan, view: MergerView)
    requires ShowsMerger(plan, view)
    ensures MergerTells(plan, view)
  {
    forall i | 0 <= i < |plan.links| ensures MergerLinkTells(plan.links[i], view.links[i]) {
      ViewMergerLinkTells(plan.links[i]);
    }
  }

  /** toCashStockMergerPlanResponse: the exchange parts go through the share-exchange projection as a plan of their
      own and are picked up again by index, so entry i must still be entry i. */
  method ToMergerView(plan: MergerPlan) returns (view: MergerView)
    ensures ShowsMerger(plan, view) && MergerTells(plan, view)
  {
    var exchangeLinks: seq<ShareLink> := [];
    for i := 0 to |plan.links|
      invariant |exchangeLinks| == i && forall k :: 0 <= k < i ==> exchangeLinks[k] == plan.links[k].exchange
    {
      exchangeLinks := exchangeLinks + [plan.links[i].exchange];
    }
    var exchangeTotals: seq<ShareTotal> := [];
    for i := 0 to |plan.totals|
      invariant |exchangeTotals| == i && forall k :: 0 <= k < i ==> exchangeTotals[k] == plan.totals[k].exchange
    {
      exchangeTotals := exchangeTotals + [plan.totals[i].exchange];
    }
    var exchange := ToShareView(Plan([], exchangeLinks, exchangeTotals));
    var links: seq<MergerLinkView> := [];
    for i := 0 to |plan.links|
      invariant |links| == i && forall k :: 0 <= k < i ==> links[k] == ViewMergerLink(plan.links[k])
    {
      var link := plan.links[i];
      links := links + [MergerLinkView(exchange.links[i], ShowMoney(link.realized, Known(link.exchange.facts.basisKnowledge)),
                                       Shown(Format(link.cash.value), link.cash.scale))];
    }
    var totals: seq<MergerTotalView> := [];
    for i := 0 to |plan.totals|
      invariant |totals| == i && forall k :: 0 <= k < i ==> totals[k] == ViewMergerTotal(plan.totals[k])
    {
      var total, known := plan.totals[i], Known(plan.totals[i].exchange.facts.basisKnowledge);
      totals := totals + [MergerTotalView(exchange.totals[i], total.cash, ShowCoefficient(total.realized, known), ShowCoefficient(total.result, known))];
    }
    view := Plan(plan.terms, links, totals);
    ShownMergerTells(plan, view);
  }

  lemma MergerLinkShown(a: MergerLink, b: MergerLink)
    ensures ViewMergerLink(a) == ViewMergerLink(b) <==> BlankMergerLink(a) == BlankMergerLink(b)
  {
    LinkShown(a.exchange, b.exchange);
    MoneyShown(a.realized, b.realized, Known(a.exchange.facts.basisKnowledge));
    MoneyShown(a.cash, b.cash, true);
  }

  /** Merger responses are equal exactly for plans that differ at most in amounts of unknown basis. */
  lemma MergerShowsExactlyTheMeaning(a: MergerPlan, b: MergerPlan, x: MergerView, y: MergerView)
    requires ShowsMerger(a, x) && ShowsMerger(b, y)
    ensures x == y <==> Same(a, b, BlankMergerLink, BlankMergerTotal)
  {
    forall l, m ensures ViewMergerLink(l) == ViewMergerLink(m) <==> BlankMergerLink(l) == BlankMergerLink(m) {
      MergerLinkShown(l, m);
    }
    PlansShowTheMeaning(a, b, x, y, ViewMergerLink, ViewMergerTotal, BlankMergerLink, BlankMergerTotal);
  }

  /* ---------------------------------------------------------------- spin-off */

  datatype SpinLink = SpinLink(facts: LinkFacts, destinationLotId: int, moved: Money, remaining: Money, acquiredOn: string)
  datatype SpinTotal = SpinTotal(facts: TotalFacts, moved: Coefficient, remaining: Coefficient)
  type SpinPlan = Plan<SpinLink, SpinTotal>

  datatype SpinLinkView = SpinLinkView(facts: LinkFacts, destinationLotId: Option<int>, moved: Option<Shown>, remaining: Option<Shown>, acquiredOn: Option<string>)
  datatype SpinTotalView = SpinTotalView(facts: TotalFacts, moved: Option<Shown>, remaining: Option<Shown>)
  type SpinView = Plan<SpinLinkView, SpinTotalView>

  function ViewSpinLink(l: SpinLink, withRemaining: bool): SpinLinkView {
    var known := Known(l.facts.basisKnowledge);
    SpinLinkView(l.facts, ShowId(l.destinationLotId), ShowMoney(l.moved, known), ShowMoney(l.remaining, known && withRemaining), ShowDate(l.acquiredOn))
  }

  function ViewSpinTotal(t: SpinTotal, withRemaining: bool): SpinTotalView {
    var known := Known(t.facts.basisKnowledge);
    SpinTotalView(t.facts, ShowCoefficient(t.moved, known), ShowCoefficient(t.remaining, known && withRemaining))
  }

  function BlankSpinLink(l: SpinLink, withRemaining: bool): SpinLink {
    var known := Known(l.facts.basisKnowledge);
    SpinLink(l.facts, BlankId(l.destinationLotId), BlankMoney(l.moved, known), BlankMoney(l.remaining, known && withRemaining), l.acquiredOn)
  }

  function BlankSpinTotal(t: SpinTotal, withRemaining: bool): SpinTotal {
    var known := Known(t.facts.basisKnowledge);
    SpinTotal(t.facts, BlankCoefficient(t.moved, known), BlankCoefficient(t.remaining, known && withRemaining))
  }

  ghost predicate ShowsSpin(plan: SpinPlan, withRemaining: bool, view: SpinView) {
    Shows(plan, view, (l: SpinLink) => ViewSpinLink(l, withRemaining), (t: SpinTotal) => ViewSpinTotal(t, withRemaining))
  }

  /** The basis that stays behind is told only where it is asked for. */
  predicate SpinLinkTells(l: SpinLink, withRemaining: bool, v: SpinLinkView) {
    && v.facts == l.facts && TellsId(v.destinationLotId, l.destinationLotId) && TellsDate(v.acquiredOn, l.acquiredOn)
    && TellsMoney(v.moved, l.facts.basisKnowledge != "unknown", l.moved)
    && TellsMoney(v.remaining, l.facts.basisKnowledge != "unknown" && withRemaining, l.remaining)
  }

  predicate SpinTotalTells(t: SpinTotal, withRemaining: bool, v: SpinTotalView) {
    && v.facts == t.facts && TellsCoefficient(v.moved, t.facts.basisKnowledge != "unknown", t.moved)
    && TellsCoefficient(v.remaining, t.facts.basisKnowledge != "unknown" && withRemaining, t.remaining)
  }

  ghost predicate SpinTells(plan: SpinPlan, withRemaining: bool, view: SpinView) {
    && view.terms == plan.terms && |view.links| == |plan.links| && |view.totals| == |plan.totals|
    && (forall i :: 0 <= i < |plan.links| ==> SpinLinkTells(plan.links[i], withRemaining, view.links[i]))
    && (forall i :: 0 <= i < |plan.totals| ==> SpinTotalTells(plan.totals[i], withRemaining, view.totals[i]))
  }

  lemma ViewSpinLinkTells(l: SpinLink, withRemaining: bool)
    ensures SpinLinkTells(l, withRemaining, ViewSpinLink(l, withRemaining))
  {
    ShownMoneyTells(l.moved, Known(l.facts.basisKnowledge));
    ShownMoneyTells(l.remaining, Known(l.facts.basisKnowledge) && withRemaining);
  }

  /** Field by field, a spin-off response tells its plan. */
  lemma ShownSpinTells(plan: SpinPlan, withRemaining: bool, view: SpinView)
    requires ShowsSpin(plan, withRemaining, view)
    ensures SpinTells(plan, withRemaining, view)
  {
    forall i | 0 <= i < |plan.links| ensures SpinLinkTells(plan.links[i], withRemaining, view.links[i]) {
      ViewSpinLinkTells(plan.links[i], withRemaining);
    }
  }

  ghost predicate SameSpin(a: SpinPlan, b: SpinPlan, withRemaining: bool) {
    Same(a, b, (l: SpinLink) => BlankSpinLink(l, withRemaining), (t: SpinTotal) => BlankSpinTotal(t, withRemaining))
  }

  method ToSpinLinkView(link: SpinLink, withRemaining: bool) returns (response: SpinLinkView)
    ensures response == ViewSpinLink(link, withRemaining)
  {
    var known := Known(link.facts.basisKnowledge);
    response := SpinLinkView(link.facts, None, ShowMoney(link.moved, known), ShowMoney(link.remaining, known && withRemaining), None);
    if link.destinationLotId > 0 {
      response := response.(destinationLotId := Some(link.destinationLotId));
    }
    if link.acquiredOn != "" {
      response := response.(acquiredOn := Some(link.acquiredOn));
    }
  }

  /** toSpinOffPlanResponse. */
  method ToSpinView(plan: SpinPlan, withRemaining: bool) returns (view: SpinView)
    ensures ShowsSpin(plan, withRemaining, view) && SpinTells(plan, withRemaining, view)
  {
    var links: seq<SpinLinkView> := [];
    for i := 0 to |plan.links|
      invariant |links| == i && forall k :: 0 <= k < i ==> links[k] == ViewSpinLink(plan.links[k], withRemaining)
    {
      var response := ToSpinLinkView(plan.links[i], withRemaining);
      links := links + [response];
    }
    var totals: seq<SpinTotalView> := [];
    for i := 0 to |plan.totals|
      invariant |totals| == i && forall k :: 0 <= k < i ==> totals[k] == ViewSpinTotal(plan.totals[k], withRemaining)
    {
      var total, known := plan.totals[i], Known(plan.totals[i].facts.basisKnowledge);
      totals := totals + [SpinTotalView(total.facts, ShowCoefficient(total.moved, known), ShowCoefficient(total.remaining, known && withRemaining))];
    }
    view := Plan(plan.terms, links, totals);
    ShownSpinTells(plan, withRemaining, view);
  }

  lemma SpinLinkShown(a: SpinLink, b: SpinLink, withRemaining: bool)
    ensures ViewSpinLink(a, withRemaining) == ViewSpinLink(b, withRemaining) <==> BlankSpinLink(a, withRemaining) == BlankSpinLink(b, withRemaining)
  {
    MoneyShown(a.moved, b.moved, Known(a.facts.basisKnowledge));
    MoneyShown(a.remaining, b.remaining, Known(a.facts.basisKnowledge) && withRemaining);
  }

  /** Spin-off responses are equal exactly for plans that differ at most in amounts of unknown basis and, where the
      remaining basis is not asked for, in remaining amounts. */
  lemma SpinShowsExactlyTheMeaning(a: SpinPlan, b: SpinPlan, withRemaining: bool, x: SpinView, y: SpinView)
    requires ShowsSpin(a, withRemaining, x) && ShowsSpin(b, withRemaining, y)
    ensures x == y <==> SameSpin(a, b, withRemaining)
  {
    var viewLink, viewTotal := (l: SpinLink) => ViewSpinLink(l, withRemaining), (t: SpinTotal) => ViewSpinTotal(t, withRemaining);
    var blankLink, blankTotal := (l: SpinLink) => BlankSpinLink(l, withRemaining), (t: SpinTotal) => BlankSpinTotal(t, withRemaining);
    forall l, m ensures viewLink(l) == viewLink(m) <==> blankLink(l) == blankLink(m) {
      SpinLinkShown(l, m, withRemaining);
    }
    PlansShowTheMeaning(a, b, x, y, viewLink, viewTotal, blankLink, blankTotal);
  }
}
