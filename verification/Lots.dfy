/** Selling investment lots: which lots a sale consumes, how much cost basis leaves with them, and how the
    proceeds are shared out.  Nothing may be created or lost by the rounding in between. */
module Lots {

  import opened Wrappers
  import opened Exact

  /** A lot still held.  The basis of a lot whose cost is not known has no amount; it is stored as zero. */
  datatype Lot = Lot(id: int, quantity: int, quantityScale: nat, basis: int, basisScale: nat, known: bool)

  datatype Disposal = Disposal(lotId: int, quantity: int, quantityScale: nat, cost: int, costScale: nat, known: bool)

  datatype Error = InvalidParams | InsufficientLots | BasisRange | UnknownBasis | TooManyDigits

  /** A stored coefficient has at most 38 digits. */
  predicate FitsDigits(v: int) { Abs(v) < Pow10(38) }

  lemma Doubled(n: nat, p: int)
    requires Pow10(n) == p
    ensures Pow10(n + n) == p * p
  {
    PowAdds(n, n);
  }

  lemma PowerIs(n: nat)
    requires n == 19
    ensures Pow10(n + n) == 100000000000000000000000000000000000000
  {
    var one, two := n - 18, n - 17;
    Doubled(one, 10);
    Doubled(two, 100);
    Doubled(two + two, 10000);
    Doubled(two + two + two + two, 100000000);
    PowAdds(one, two);
    PowAdds(n - 3, one + two);
    Doubled(n, 10000000000000000000);
  }

  /** At most thirty-eight nines. */
  lemma DigitBounds(v: int)
    ensures FitsDigits(v) <==> -99999999999999999999999999999999999999 <= v <= 99999999999999999999999999999999999999
  {
    PowerIs(19);
  }

  function Rescaled(value: int, from: nat, to: nat): Result<int, Error>
    requires from <= to
  {
    if from == to || FitsDigits(Restate(value, from, to)) then Ok(Restate(value, from, to)) else Err(TooManyDigits)
  }

  datatype Taken = Taken(disposal: Disposal, left: Lot)

  /** Take a quantity out of one lot, splitting its basis in the same proportion at the allocation scale. */
  function DisposeLot(lot: Lot, quantity: int, quantityScale: nat, allocationScale: nat, admitUnknown: bool): Result<Taken, Error>
    requires lot.known ==> lot.basisScale <= allocationScale
  {
    if !lot.known && !admitUnknown then Err(UnknownBasis)
    else
      var common := Max(quantityScale, lot.quantityScale);
      var disposed, remaining := Rescaled(quantity, quantityScale, common), Rescaled(lot.quantity, lot.quantityScale, common);
      if disposed.Err? then Err(disposed.error)
      else if remaining.Err? then Err(remaining.error)
      else if disposed.value <= 0 || disposed.value > remaining.value then Err(InsufficientLots)
      else if !lot.known then
        Ok(Taken(Disposal(lot.id, quantity, quantityScale, 0, allocationScale, false),
                 lot.(quantity := remaining.value - disposed.value, quantityScale := common)))
      else
        var whole := Restate(lot.basis, lot.basisScale, allocationScale);
        if !IsInt64(whole) then Err(BasisRange)
        else
          var cost := Quo(whole * disposed.value, remaining.value);
          Ok(Taken(Disposal(lot.id, quantity, quantityScale, cost, allocationScale, true),
                   Lot(lot.id, remaining.value - disposed.value, common, whole - cost, allocationScale, true)))
  }

  predicate Between(whole: int, part: int) { if whole >= 0 then 0 <= part <= whole else whole <= part <= 0 }

  /** What leaves a lot and what stays make up the lot; a lot sold to the last unit keeps no basis; and the part
      of the basis that leaves is the units' proportion of it, to within one unit and never more than exact. */
  lemma LotIsConserved(lot: Lot, quantity: int, quantityScale: nat, allocationScale: nat, admitUnknown: bool)
    requires lot.known ==> lot.basisScale <= allocationScale
    requires DisposeLot(lot, quantity, quantityScale, allocationScale, admitUnknown).Ok?
    ensures var t := DisposeLot(lot, quantity, quantityScale, allocationScale, admitUnknown).value;
            var common := Max(quantityScale, lot.quantityScale);
            && t.disposal.lotId == lot.id == t.left.id && t.disposal.known == lot.known == t.left.known
            && t.disposal.quantity == quantity && t.disposal.quantityScale == quantityScale && t.disposal.costScale == allocationScale
            && t.left.quantityScale == common && t.left.quantity >= 0
            && (!lot.known ==> t.disposal.cost == 0 && t.left.basis == lot.basis && t.left.basisScale == lot.basisScale)
            && Restate(quantity, quantityScale, common) + t.left.quantity == Restate(lot.quantity, lot.quantityScale, common)
            && (lot.known ==>
                  && t.left.basisScale == allocationScale
                  && t.disposal.cost + t.left.basis == Restate(lot.basis, lot.basisScale, allocationScale)
                  && ShareBounds(Restate(lot.basis, lot.basisScale, allocationScale), Restate(quantity, quantityScale, common),
                                 Restate(lot.quantity, lot.quantityScale, common), t.disposal.cost)
                  && (t.left.quantity == 0 ==> t.left.basis == 0))
  {
    if lot.known {
      var common := Max(quantityScale, lot.quantityScale);
      var disposed, remaining := Restate(quantity, quantityScale, common), Restate(lot.quantity, lot.quantityScale, common);
      var whole := Restate(lot.basis, lot.basisScale, allocationScale);
      ShareFits(whole, disposed, remaining);
      if disposed == remaining {
        WholeQuotient(whole, remaining);
      }
    }
  }

  lemma ExactQuotient(x: int, t: int)
    requires x >= 0 && t > 0
    ensures x * t / t == x
  {
    Scales(x, t, t);
    QuotientFits(x * t, t, x);
    var q := x * t / t;
    if q < x {
      StepUp(q, x, t);
    }
  }

  lemma WholeQuotient(x: int, t: int)
    requires t > 0
    ensures Quo(x * t, t) == x
  {
    if x >= 0 {
      Scales(x, t, t);
      ExactQuotient(x, t);
    } else {
      StepUp(x, 0, t);
      Negate(x, t);
      ExactQuotient(-x, t);
    }
  }

  /* ---------------------------------------------------------------- position totals */

  /** The units held, at a scale no lot exceeds. */
  function Held(lots: seq<Lot>, scale: nat): int
    requires forall i :: 0 <= i < |lots| ==> lots[i].quantityScale <= scale
  {
    if lots == [] then 0
    else var last := lots[|lots| - 1]; Held(lots[..|lots| - 1], scale) + Restate(last.quantity, last.quantityScale, scale)
  }

  /** The known cost basis held. */
  function Basis(lots: seq<Lot>, scale: nat): int
    requires forall i :: 0 <= i < |lots| && lots[i].known ==> lots[i].basisScale <= scale
  {
    if lots == [] then 0
    else var last := lots[|lots| - 1];
         Basis(lots[..|lots| - 1], scale) + if last.known then Restate(last.basis, last.basisScale, scale) else 0
  }

  function Sold(disposals: seq<Disposal>): int {
    if disposals == [] then 0 else Sold(disposals[..|disposals| - 1]) + disposals[|disposals| - 1].quantity
  }

  function Released(disposals: seq<Disposal>): int {
    if disposals == [] then 0 else Released(disposals[..|disposals| - 1]) + disposals[|disposals| - 1].cost
  }

  lemma {:induction false} HeldAppends(a: seq<Lot>, b: seq<Lot>, scale: nat)
    requires forall i :: 0 <= i < |a| ==> a[i].quantityScale <= scale
    requires forall i :: 0 <= i < |b| ==> b[i].quantityScale <= scale
    ensures Held(a + b, scale) == Held(a, scale) + Held(b, scale)
    decreases |b|
  {
    if b == [] {
      assert a + b == a;
    } else {
      HeldAppends(a, b[..|b| - 1], scale);
      assert (a + b)[..|a + b| - 1] == a + b[..|b| - 1];
    }
  }

  lemma {:induction false} BasisAppends(a: seq<Lot>, b: seq<Lot>, scale: nat)
    requires forall i :: 0 <= i < |a| && a[i].known ==> a[i].basisScale <= scale
    requires forall i :: 0 <= i < |b| && b[i].known ==> b[i].basisScale <= scale
    ensures Basis(a + b, scale) == Basis(a, scale) + Basis(b, scale)
    decreases |b|
  {
    if b == [] {
      assert a + b == a;
    } else {
      BasisAppends(a, b[..|b| - 1], scale);
      assert (a + b)[..|a + b| - 1] == a + b[..|b| - 1];
    }
  }

  /* ---------------------------------------------------------------- one sale */

  datatype Sale = Sale(disposals: seq<Disposal>, lots: seq<Lot>)

  lemma HeldSnoc(lots: seq<Lot>, lot: Lot, scale: nat)
    requires forall i :: 0 <= i < |lots| ==> lots[i].quantityScale <= scale
    requires lot.quantityScale <= scale
    ensures Held(lots + [lot], scale) == Held(lots, scale) + Restate(lot.quantity, lot.quantityScale, scale)
  {
    assert (lots + [lot])[..|lots|] == lots;
  }

  lemma BasisSnoc(lots: seq<Lot>, lot: Lot, scale: nat)
    requires forall i :: 0 <= i < |lots| && lots[i].known ==> lots[i].basisScale <= scale
    requires lot.known ==> lot.basisScale <= scale
    ensures Basis(lots + [lot], scale) == Basis(lots, scale) + if lot.known then Restate(lot.basis, lot.basisScale, scale) else 0
  {
    assert (lots + [lot])[..|lots|] == lots;
  }

  lemma SoldSnoc(disposals: seq<Disposal>, d: Disposal)
    ensures Sold(disposals + [d]) == Sold(disposals) + d.quantity
    ensures Released(disposals + [d]) == Released(disposals) + d.cost
  {
    assert (disposals + [d])[..|disposals|] == disposals;
  }

  /** The lots have scales a total can be taken at. */
  ghost predicate Aligned(lots: seq<Lot>, common: nat, allocationScale: nat) {
    forall i :: 0 <= i < |lots| ==> lots[i].quantityScale <= common && (lots[i].known ==> lots[i].basisScale <= allocationScale)
  }

  /** What one sale does to one lot it touches. */
  predicate Touches(before: Lot, after: Lot, d: Disposal, common: nat, allocationScale: nat) {
    && after.id == before.id && after.known == before.known
    && d.lotId == before.id && d.known == before.known && d.quantityScale == common && d.costScale == allocationScale
    && (!before.known ==> d.cost == 0 && after.basis == before.basis && after.basisScale == before.basisScale)
    && d.quantity > 0 && after.quantity >= 0 && (after.quantity == 0 && before.known ==> after.basis == 0)
  }

  /** The basis that leaves is to the lot's basis as the units that leave are to its units. */
  predicate InProportion(lot: Lot, d: Disposal, common: nat, allocationScale: nat) {
    lot.known && lot.quantityScale <= common && lot.basisScale <= allocationScale ==>
      ShareBounds(Restate(lot.basis, lot.basisScale, allocationScale), d.quantity,
                  Restate(lot.quantity, lot.quantityScale, common), d.cost)
  }

  /** Units and known basis are conserved exactly. */
  ghost predicate Balances(lots: seq<Lot>, sale: Sale, common: nat, allocationScale: nat) {
    && Aligned(lots, common, allocationScale) && Aligned(sale.lots, common, allocationScale)
    && Held(lots, common) == Sold(sale.disposals) + Held(sale.lots, common)
    && Basis(lots, allocationScale) == Released(sale.disposals) + Basis(sale.lots, allocationScale)
  }

  /** A sale from lots in a fixed order: the lots touched are the first ones, each of them but the last one is
      emptied, the rest are as they were, and units and known basis are conserved exactly. */
  ghost predicate Conserves(lots: seq<Lot>, sold: int, common: nat, allocationScale: nat, sale: Sale) {
    && |sale.disposals| <= |lots| == |sale.lots|
    && (forall i :: 0 <= i < |sale.disposals| ==> Touches(lots[i], sale.lots[i], sale.disposals[i], common, allocationScale))
    && (forall i :: 0 <= i < |sale.disposals| - 1 ==> sale.lots[i].quantity == 0)
    && (forall i :: |sale.disposals| <= i < |lots| ==> sale.lots[i] == lots[i])
    && Sold(sale.disposals) == sold
    && Balances(lots, sale, common, allocationScale)
  }

  ghost predicate Proportional(lots: seq<Lot>, disposals: seq<Disposal>, common: nat, allocationScale: nat) {
    forall i: nat :: ProportionalAt(lots, disposals, i, common, allocationScale)
  }

  predicate ProportionalAt(lots: seq<Lot>, disposals: seq<Disposal>, i: nat, common: nat, allocationScale: nat) {
    i < |disposals| ==> i < |lots| && InProportion(lots[i], disposals[i], common, allocationScale)
  }

  lemma ProportionalSnoc(lots: seq<Lot>, disposals: seq<Disposal>, d: Disposal, common: nat, allocationScale: nat)
    requires Proportional(lots, disposals, common, allocationScale) && |disposals| < |lots|
    requires InProportion(lots[|disposals|], d, common, allocationScale)
    ensures Proportional(lots, disposals + [d], common, allocationScale)
  {
    forall i: nat ensures ProportionalAt(lots, disposals + [d], i, common, allocationScale) {
      assert ProportionalAt(lots, disposals, i, common, allocationScale);
    }
  }

  function CommonScale(lots: seq<Lot>, scale: nat): (s: nat)
    ensures scale <= s && forall i :: 0 <= i < |lots| ==> lots[i].quantityScale <= s
    ensures s == scale || exists i :: 0 <= i < |lots| && s == lots[i].quantityScale
  {
    if lots == [] then scale else Max(CommonScale(lots[..|lots| - 1], scale), lots[|lots| - 1].quantityScale)
  }

  lemma SameScale(value: int, scale: nat)
    ensures Restate(value, scale, scale) == value
  {
  }

  lemma {:induction false} PositiveRestated(value: int, from: nat, deeper: nat)
    requires from <= deeper
    ensures value > 0 <==> Restate(value, from, deeper) > 0
    decreases deeper
  {
    if from < deeper {
      PositiveRestated(value, from, deeper - 1);
    }
  }

  lemma AlignedSnoc(lots: seq<Lot>, lot: Lot, common: nat, allocationScale: nat)
    requires Aligned(lots, common, allocationScale)
    requires lot.quantityScale <= common && (lot.known ==> lot.basisScale <= allocationScale)
    ensures Aligned(lots + [lot], common, allocationScale)
  {
  }

  /** What is taken out of one lot, and what it leaves, are the lot. */
  predicate Splits(lot: Lot, taken: Taken, common: nat, allocationScale: nat)
    requires lot.quantityScale <= common && (lot.known ==> lot.basisScale <= allocationScale)
  {
    && taken.left.known == lot.known && taken.left.quantityScale == common
    && taken.disposal.quantity + taken.left.quantity == Restate(lot.quantity, lot.quantityScale, common)
    && (if lot.known
        then && taken.left.basisScale == allocationScale
             && taken.disposal.cost + taken.left.basis == Restate(lot.basis, lot.basisScale, allocationScale)
        else taken.disposal.cost == 0)
  }

  /** One more lot joins the sale. */
  lemma UnitsSnoc(lots: seq<Lot>, sale: Sale, lot: Lot, taken: Taken, common: nat, allocationScale: nat)
    requires Balances(lots, sale, common, allocationScale)
    requires lot.quantityScale <= common && (lot.known ==> lot.basisScale <= allocationScale) && Splits(lot, taken, common, allocationScale)
    requires Aligned(lots + [lot], common, allocationScale) && Aligned(sale.lots + [taken.left], common, allocationScale)
    ensures Held(lots + [lot], common) == Sold(sale.disposals + [taken.disposal]) + Held(sale.lots + [taken.left], common)
  {
    HeldSnoc(lots, lot, common);
    HeldSnoc(sale.lots, taken.left, common);
    SoldSnoc(sale.disposals, taken.disposal);
    SameScale(taken.left.quantity, common);
  }

  lemma CostSnoc(lots: seq<Lot>, sale: Sale, lot: Lot, taken: Taken, common: nat, allocationScale: nat)
    requires Balances(lots, sale, common, allocationScale)
    requires lot.quantityScale <= common && (lot.known ==> lot.basisScale <= allocationScale) && Splits(lot, taken, common, allocationScale)
    requires Aligned(lots + [lot], common, allocationScale) && Aligned(sale.lots + [taken.left], common, allocationScale)
    ensures Basis(lots + [lot], allocationScale)
         == Released(sale.disposals + [taken.disposal]) + Basis(sale.lots + [taken.left], allocationScale)
  {
    BasisSnoc(lots, lot, allocationScale);
    BasisSnoc(sale.lots, taken.left, allocationScale);
    SoldSnoc(sale.disposals, taken.disposal);
    SameScale(taken.left.basis, allocationScale);
  }

  lemma BalancesSnoc(lots: seq<Lot>, sale: Sale, lot: Lot, taken: Taken, common: nat, allocationScale: nat)
    requires Balances(lots, sale, common, allocationScale)
    requires lot.quantityScale <= common && (lot.known ==> lot.basisScale <= allocationScale) && Splits(lot, taken, common, allocationScale)
    ensures Balances(lots + [lot], Sale(sale.disposals + [taken.disposal], sale.lots + [taken.left]), common, allocationScale)
  {
    AlignedSnoc(lots, lot, common, allocationScale);
    AlignedSnoc(sale.lots, taken.left, common, allocationScale);
    UnitsSnoc(lots, sale, lot, taken, common, allocationScale);
    CostSnoc(lots, sale, lot, taken, common, allocationScale);
  }

  lemma {:induction false} AllEmpty(lots: seq<Lot>, scale: nat)
    requires forall i :: 0 <= i < |lots| ==> lots[i].quantityScale <= scale && lots[i].quantity == 0
    ensures Held(lots, scale) == 0
    decreases |lots|
  {
    if lots != [] {
      AllEmpty(lots[..|lots| - 1], scale);
      RestateSum(0, 0, lots[|lots| - 1].quantityScale, scale);
    }
  }

  /** Lots the sale never reached keep it balanced. */
  lemma BalancesRest(lots: seq<Lot>, sale: Sale, rest: seq<Lot>, common: nat, allocationScale: nat)
    requires Balances(lots, sale, common, allocationScale) && Aligned(rest, common, allocationScale)
    ensures Balances(lots + rest, sale.(lots := sale.lots + rest), common, allocationScale)
  {
    HeldAppends(lots, rest, common);
    HeldAppends(sale.lots, rest, common);
    BasisAppends(lots, rest, allocationScale);
    BasisAppends(sale.lots, rest, allocationScale);
  }

  /** Why a lot refuses a sale that still wants this much, if it does. */
  function Refusal(lot: Lot, remaining: int, common: nat, allocationScale: nat, admitUnknown: bool): Option<Error>
    requires lot.quantityScale <= common && (lot.known ==> lot.basisScale <= allocationScale)
  {
    var whole := Restate(lot.quantity, lot.quantityScale, common);
    if !FitsDigits(if whole > remaining then remaining else whole) then Some(TooManyDigits)
    else if !lot.known && !admitUnknown then Some(UnknownBasis)
    else if lot.quantityScale < common && !FitsDigits(whole) then Some(TooManyDigits)
    else if whole <= 0 || remaining <= 0 then Some(InsufficientLots)
    else if lot.known && !IsInt64(Restate(lot.basis, lot.basisScale, allocationScale)) then Some(BasisRange)
    else None
  }

  /** The same for lot i of a sale, which still wants what the lots before it did not hold. */
  function RefusalAt(lots: seq<Lot>, wanted: int, common: nat, allocationScale: nat, admitUnknown: bool, i: nat): Option<Error>
    requires Aligned(lots, common, allocationScale) && i < |lots|
  {
    Refusal(lots[i], wanted - Held(lots[..i], common), common, allocationScale, admitUnknown)
  }

  /** None of the first n lots refuses. */
  ghost predicate Accepts(lots: seq<Lot>, wanted: int, common: nat, allocationScale: nat, admitUnknown: bool, n: nat)
    requires Aligned(lots, common, allocationScale) && n <= |lots|
  {
    forall j :: 0 <= j < n ==> RefusalAt(lots, wanted, common, allocationScale, admitUnknown, j) == None
  }

  /** Lot i is reached, every lot before it having been sold out without refusing, and then is why the sale ends. */
  ghost predicate RefusesAt(lots: seq<Lot>, wanted: int, common: nat, allocationScale: nat, admitUnknown: bool, i: nat, error: Error)
    requires Aligned(lots, common, allocationScale) && i < |lots|
  {
    && Held(lots[..i], common) < wanted && Accepts(lots, wanted, common, allocationScale, admitUnknown, i)
    && RefusalAt(lots, wanted, common, allocationScale, admitUnknown, i) == Some(error)
  }

  /** A sale is refused at the first lot reached that refuses, or when all lots are sold out and more is wanted. */
  ghost predicate RefusesSale(lots: seq<Lot>, wanted: int, common: nat, allocationScale: nat, admitUnknown: bool, error: Error)
    requires Aligned(lots, common, allocationScale)
  {
    || (exists i :: 0 <= i < |lots| && RefusesAt(lots, wanted, common, allocationScale, admitUnknown, i, error))
    || (error == InsufficientLots && 0 < wanted && Held(lots, common) < wanted
        && Accepts(lots, wanted, common, allocationScale, admitUnknown, |lots|))
  }

  lemma NothingWantedIsRefused(lots: seq<Lot>, wanted: int, common: nat, allocationScale: nat, admitUnknown: bool, n: nat)
    requires Aligned(lots, common, allocationScale) && n < |lots| && wanted <= Held(lots[..n], common)
    ensures RefusalAt(lots, wanted, common, allocationScale, admitUnknown, n).Some?
  {
  }

  lemma NotRefusedAt(lots: seq<Lot>, wanted: int, common: nat, allocationScale: nat, admitUnknown: bool, n: nat, i: nat, error: Error)
    requires Aligned(lots, common, allocationScale) && n <= |lots| && i < |lots|
    requires Accepts(lots, wanted, common, allocationScale, admitUnknown, n) && Held(lots[..n], common) >= wanted
    ensures !RefusesAt(lots, wanted, common, allocationScale, admitUnknown, i, error)
  {
    if i < n {
      assert RefusalAt(lots, wanted, common, allocationScale, admitUnknown, i) == None;
    } else if i > n {
      NothingWantedIsRefused(lots, wanted, common, allocationScale, admitUnknown, n);
      assert !Accepts(lots, wanted, common, allocationScale, admitUnknown, i);
    }
  }

  /** A sale completed by the first n lots is not refused. */
  lemma CompletedIsNotRefused(lots: seq<Lot>, wanted: int, common: nat, allocationScale: nat, admitUnknown: bool, n: nat, error: Error)
    requires Aligned(lots, common, allocationScale) && n <= |lots|
    requires Accepts(lots, wanted, common, allocationScale, admitUnknown, n) && Held(lots[..n], common) >= wanted
    ensures !RefusesSale(lots, wanted, common, allocationScale, admitUnknown, error)
  {
    forall i | 0 <= i < |lots| ensures !RefusesAt(lots, wanted, common, allocationScale, admitUnknown, i, error) {
      NotRefusedAt(lots, wanted, common, allocationScale, admitUnknown, n, i, error);
    }
    if n < |lots| {
      NothingWantedIsRefused(lots, wanted, common, allocationScale, admitUnknown, n);
      assert !Accepts(lots, wanted, common, allocationScale, admitUnknown, |lots|);
    } else {
      assert lots[..n] == lots;
    }
  }

  /** The first refusal is the only one. */
  lemma RefusedOnce(lots: seq<Lot>, wanted: int, common: nat, allocationScale: nat, admitUnknown: bool, i: nat, error: Error, other: Error)
    requires Aligned(lots, common, allocationScale) && i < |lots|
    requires RefusesAt(lots, wanted, common, allocationScale, admitUnknown, i, error)
    requires RefusesSale(lots, wanted, common, allocationScale, admitUnknown, other)
    ensures other == error
  {
  }

  /** Take what is wanted from a lot, or all of it. */
  method TakeFrom(lot: Lot, remaining: int, common: nat, allocationScale: nat, admitUnknown: bool) returns (r: Result<Taken, Error>, take: int)
    requires remaining > 0 && lot.quantityScale <= common && (lot.known ==> lot.basisScale <= allocationScale)
    ensures r.Ok? ==> 0 < take <= remaining && Touches(lot, r.value.left, r.value.disposal, common, allocationScale) && InProportion(lot, r.value.disposal, common, allocationScale) && r.value.disposal.quantity == take
    ensures r.Ok? ==> Splits(lot, r.value, common, allocationScale)
    ensures r.Ok? && take < remaining ==> r.value.left.quantity == 0
    ensures Refusal(lot, remaining, common, allocationScale, admitUnknown) == if r.Err? then Some(r.error) else None
  {
    var whole := Restate(lot.quantity, lot.quantityScale, common);
    take := if whole > remaining then remaining else whole;
    if !FitsDigits(take) {
      return Err(TooManyDigits), take;
    }
    r := DisposeLot(lot, take, common, allocationScale, admitUnknown);
    SameScale(take, common);
    if r.Ok? {
      LotIsConserved(lot, take, common, allocationScale, admitUnknown);
    }
  }

  /** The sale over the lots visited so far. */
  ghost predicate SoFar(lots: seq<Lot>, sale: Sale, common: nat, allocationScale: nat) {
    InOrder(lots, sale, common, allocationScale) && Balances(lots[..|sale.lots|], sale, common, allocationScale)
  }

  ghost predicate InOrder(lots: seq<Lot>, sale: Sale, common: nat, allocationScale: nat) {
    && |sale.lots| == |sale.disposals| <= |lots|
    && (forall i :: 0 <= i < |sale.lots| ==> Touches(lots[i], sale.lots[i], sale.disposals[i], common, allocationScale))
    && (forall i :: 0 <= i < |sale.lots| - 1 ==> sale.lots[i].quantity == 0)
  }

  lemma InOrderSnoc(lots: seq<Lot>, sale: Sale, left: Lot, d: Disposal, common: nat, allocationScale: nat)
    requires InOrder(lots, sale, common, allocationScale) && |sale.lots| < |lots|
    requires |sale.lots| > 0 ==> sale.lots[|sale.lots| - 1].quantity == 0
    requires Touches(lots[|sale.lots|], left, d, common, allocationScale)
    ensures InOrder(lots, Sale(sale.disposals + [d], sale.lots + [left]), common, allocationScale)
  {
  }

  lemma BalancesPrefix(lots: seq<Lot>, n: nat, sale: Sale, taken: Taken, common: nat, allocationScale: nat)
    requires n < |lots| && Aligned(lots, common, allocationScale)
    requires Balances(lots[..n], sale, common, allocationScale) && Splits(lots[n], taken, common, allocationScale)
    ensures Balances(lots[..n + 1], Sale(sale.disposals + [taken.disposal], sale.lots + [taken.left]), common, allocationScale)
  {
    BalancesSnoc(lots[..n], sale, lots[n], taken, common, allocationScale);
    assert lots[..n + 1] == lots[..n] + [lots[n]];
  }

  lemma SoFarSnoc(lots: seq<Lot>, sale: Sale, taken: Taken, common: nat, allocationScale: nat)
    requires SoFar(lots, sale, common, allocationScale) && |sale.lots| < |lots| && Aligned(lots, common, allocationScale)
    requires |sale.lots| > 0 ==> sale.lots[|sale.lots| - 1].quantity == 0
    requires Touches(lots[|sale.lots|], taken.left, taken.disposal, common, allocationScale)
    requires Splits(lots[|sale.lots|], taken, common, allocationScale)
    ensures SoFar(lots, Sale(sale.disposals + [taken.disposal], sale.lots + [taken.left]), common, allocationScale)
    ensures Sold(sale.disposals + [taken.disposal]) == Sold(sale.disposals) + taken.disposal.quantity
  {
    BalancesPrefix(lots, |sale.lots|, sale, taken, common, allocationScale);
    SoldSnoc(sale.disposals, taken.disposal);
    InOrderSnoc(lots, sale, taken.left, taken.disposal, common, allocationScale);
  }

  lemma SoFarEnds(lots: seq<Lot>, sale: Sale, common: nat, allocationScale: nat)
    requires SoFar(lots, sale, common, allocationScale) && Aligned(lots, common, allocationScale)
    ensures Conserves(lots, Sold(sale.disposals), common, allocationScale, sale.(lots := sale.lots + lots[|sale.lots|..]))
  {
    var n := |sale.lots|;
    assert lots[..n] + lots[n..] == lots;
    BalancesRest(lots[..n], sale, lots[n..], common, allocationScale);
  }

  lemma SoFarExhausted(lots: seq<Lot>, sale: Sale, common: nat, allocationScale: nat)
    requires SoFar(lots, sale, common, allocationScale) && |sale.lots| == |lots|
    requires |sale.lots| > 0 ==> sale.lots[|sale.lots| - 1].quantity == 0
    ensures Aligned(lots, common, allocationScale) && Held(lots, common) == Sold(sale.disposals)
  {
    assert lots[..|lots|] == lots;
    AllEmpty(sale.lots, common);
  }

  /** Every lot visited but possibly the last one is empty. */
  ghost predicate Emptied(sale: Sale) {
    |sale.lots| > 0 ==> sale.lots[|sale.lots| - 1].quantity == 0
  }

  /** Sell from the next lot. */
  method SellNext(lots: seq<Lot>, sale: Sale, remaining: int, common: nat, allocationScale: nat, admitUnknown: bool)
    returns (r: Result<Sale, Error>, left: int)
    requires Aligned(lots, common, allocationScale) && |sale.lots| < |lots| && remaining > 0 && Emptied(sale)
    requires SoFar(lots, sale, common, allocationScale) && Proportional(lots, sale.disposals, common, allocationScale)
    ensures r.Ok? ==> SoFar(lots, r.value, common, allocationScale) && Proportional(lots, r.value.disposals, common, allocationScale)
    ensures r.Ok? ==> |r.value.lots| == |sale.lots| + 1 && 0 <= left && (left > 0 ==> Emptied(r.value))
    ensures r.Ok? ==> Sold(r.value.disposals) + left == Sold(sale.disposals) + remaining
    ensures Refusal(lots[|sale.lots|], remaining, common, allocationScale, admitUnknown) == if r.Err? then Some(r.error) else None
  {
    var taken, take := TakeFrom(lots[|sale.lots|], remaining, common, allocationScale, admitUnknown);
    if taken.Err? {
      return Err(taken.error), remaining;
    }
    SoFarSnoc(lots, sale, taken.value, common, allocationScale);
    ProportionalSnoc(lots, sale.disposals, taken.value.disposal, common, allocationScale);
    r, left := Ok(Sale(sale.disposals + [taken.value.disposal], sale.lots + [taken.value.left])), remaining - take;
  }

  /** While more is wanted, what has been sold is all that the lots visited held. */
  lemma SoldIsHeld(lots: seq<Lot>, sale: Sale, common: nat, allocationScale: nat)
    requires SoFar(lots, sale, common, allocationScale) && Emptied(sale)
    ensures forall i :: 0 <= i < |sale.lots| ==> lots[i].quantityScale <= common
    ensures Held(lots[..|sale.lots|], common) == Sold(sale.disposals)
  {
    AllEmpty(sale.lots, common);
    forall i | 0 <= i < |sale.lots| ensures lots[i].quantityScale <= common {
      assert lots[..|sale.lots|][i] == lots[i];
    }
  }

  /** One more lot has been sold from. */
  lemma AcceptsNext(lots: seq<Lot>, wanted: int, common: nat, allocationScale: nat, admitUnknown: bool, n: nat, remaining: int)
    requires Aligned(lots, common, allocationScale) && n < |lots| && Accepts(lots, wanted, common, allocationScale, admitUnknown, n)
    requires remaining == wanted - Held(lots[..n], common)
    requires Refusal(lots[n], remaining, common, allocationScale, admitUnknown) == None
    ensures Accepts(lots, wanted, common, allocationScale, admitUnknown, n + 1)
  {
  }

  /** What holds between two lots: the lots so far accepted, and held all that was wanted once nothing more is. */
  ghost predicate Selling(lots: seq<Lot>, sale: Sale, wanted: int, remaining: int, common: nat, allocationScale: nat, admitUnknown: bool)
    requires Aligned(lots, common, allocationScale)
  {
    && SoFar(lots, sale, common, allocationScale) && Proportional(lots, sale.disposals, common, allocationScale)
    && (remaining > 0 ==> Emptied(sale)) && Sold(sale.disposals) + remaining == wanted
    && (if wanted > 0 then remaining >= 0 else sale == Sale([], []))
    && Accepts(lots, wanted, common, allocationScale, admitUnknown, |sale.lots|)
    && (remaining <= 0 ==> Held(lots[..|sale.lots|], common) >= wanted)
  }

  lemma NothingSold(lots: seq<Lot>, wanted: int, common: nat, allocationScale: nat, admitUnknown: bool)
    requires Aligned(lots, common, allocationScale)
    ensures Selling(lots, Sale([], []), wanted, wanted, common, allocationScale, admitUnknown)
  {
    assert lots[..0] == [];
  }

  /** Sell from the next lot, or learn that the sale is refused. */
  method SellFurther(lots: seq<Lot>, sale: Sale, wanted: int, remaining: int, common: nat, allocationScale: nat, admitUnknown: bool)
    returns (r: Result<Sale, Error>, left: int)
    requires Aligned(lots, common, allocationScale) && Selling(lots, sale, wanted, remaining, common, allocationScale, admitUnknown)
    requires |sale.lots| < |lots| && remaining > 0
    ensures r.Ok? ==> |r.value.lots| == |sale.lots| + 1 && Selling(lots, r.value, wanted, left, common, allocationScale, admitUnknown)
    ensures r.Err? ==> RefusesAt(lots, wanted, common, allocationScale, admitUnknown, |sale.lots|, r.error)
  {
    SoldIsHeld(lots, sale, common, allocationScale);
    r, left := SellNext(lots, sale, remaining, common, allocationScale, admitUnknown);
    if r.Ok? {
      AcceptsNext(lots, wanted, common, allocationScale, admitUnknown, |sale.lots|, remaining);
      HeldReaches(lots, r.value, wanted, left, common, allocationScale);
    }
  }

  method ConsumeLots(lots: seq<Lot>, wanted: int, common: nat, allocationScale: nat, admitUnknown: bool) returns (r: Result<Sale, Error>)
    requires Aligned(lots, common, allocationScale)
    ensures r.Ok? ==> Conserves(lots, if wanted > 0 then wanted else 0, common, allocationScale, r.value)
    ensures r.Ok? ==> Proportional(lots, r.value.disposals, common, allocationScale)
    ensures forall e :: r == Err(e) <==> RefusesSale(lots, wanted, common, allocationScale, admitUnknown, e)
  {
    var remaining, sale := wanted, Sale([], []);
    NothingSold(lots, wanted, common, allocationScale, admitUnknown);
    while |sale.lots| < |lots| && remaining > 0
      invariant Selling(lots, sale, wanted, remaining, common, allocationScale, admitUnknown)
      decreases |lots| - |sale.lots|
    {
      var next, left := SellFurther(lots, sale, wanted, remaining, common, allocationScale, admitUnknown);
      if next.Err? {
        RefusedHere(lots, wanted, common, allocationScale, admitUnknown, |sale.lots|, next.error);
        return Err(next.error);
      }
      sale, remaining := next.value, left;
    }
    if remaining > 0 {
      SoFarExhausted(lots, sale, common, allocationScale);
      RunOut(lots, wanted, common, allocationScale, admitUnknown);
      return Err(InsufficientLots);
    }
    SaleCompletes(lots, sale, wanted, remaining, common, allocationScale, admitUnknown);
    r := Ok(sale.(lots := sale.lots + lots[|sale.lots|..]));
  }

  lemma SaleCompletes(lots: seq<Lot>, sale: Sale, wanted: int, remaining: int, common: nat, allocationScale: nat, admitUnknown: bool)
    requires Aligned(lots, common, allocationScale) && Selling(lots, sale, wanted, remaining, common, allocationScale, admitUnknown)
    requires remaining <= 0
    ensures var done := sale.(lots := sale.lots + lots[|sale.lots|..]);
            Conserves(lots, if wanted > 0 then wanted else 0, common, allocationScale, done)
    ensures forall e :: !RefusesSale(lots, wanted, common, allocationScale, admitUnknown, e)
  {
    SoFarEnds(lots, sale, common, allocationScale);
    forall e ensures !RefusesSale(lots, wanted, common, allocationScale, admitUnknown, e) {
      CompletedIsNotRefused(lots, wanted, common, allocationScale, admitUnknown, |sale.lots|, e);
    }
  }

  /** Once nothing more is wanted, the lots visited held enough. */
  lemma HeldReaches(lots: seq<Lot>, sale: Sale, wanted: int, left: int, common: nat, allocationScale: nat)
    requires SoFar(lots, sale, common, allocationScale) && Aligned(lots, common, allocationScale)
    requires Sold(sale.disposals) + left == wanted && left >= 0 && |sale.lots| > 0
    ensures left == 0 ==> Held(lots[..|sale.lots|], common) >= wanted
  {
    HeldIsNotNegative(lots, sale, common, allocationScale);
  }

  lemma HeldIsNotNegative(lots: seq<Lot>, sale: Sale, common: nat, allocationScale: nat)
    requires SoFar(lots, sale, common, allocationScale)
    ensures Held(lots[..|sale.lots|], common) >= Sold(sale.disposals)
  {
    if |sale.lots| > 0 {
      LeftIsNotNegative(sale.lots, common);
    }
  }

  lemma LeftIsNotNegative(left: seq<Lot>, common: nat)
    requires left != [] && forall i :: 0 <= i < |left| ==> left[i].quantityScale <= common && left[i].quantity >= 0
    ensures Held(left, common) >= 0
    decreases |left|
  {
    var last := left[|left| - 1];
    if last.quantity > 0 {
      PositiveRestated(last.quantity, last.quantityScale, common);
    } else {
      RestateSum(0, 0, last.quantityScale, common);
    }
    if |left| > 1 {
      LeftIsNotNegative(left[..|left| - 1], common);
    }
  }

  lemma RefusedHere(lots: seq<Lot>, wanted: int, common: nat, allocationScale: nat, admitUnknown: bool, n: nat, error: Error)
    requires Aligned(lots, common, allocationScale) && n < |lots|
    requires RefusesAt(lots, wanted, common, allocationScale, admitUnknown, n, error)
    ensures forall e :: e == error <==> RefusesSale(lots, wanted, common, allocationScale, admitUnknown, e)
  {
    forall e | RefusesSale(lots, wanted, common, allocationScale, admitUnknown, e) ensures e == error {
      RefusedOnce(lots, wanted, common, allocationScale, admitUnknown, n, error, e);
    }
  }

  lemma RunOut(lots: seq<Lot>, wanted: int, common: nat, allocationScale: nat, admitUnknown: bool)
    requires Aligned(lots, common, allocationScale) && 0 < wanted && Held(lots, common) < wanted
    requires Accepts(lots, wanted, common, allocationScale, admitUnknown, |lots|)
    ensures forall e :: e == InsufficientLots <==> RefusesSale(lots, wanted, common, allocationScale, admitUnknown, e)
  {
  }

  /** Consume lots in the order given (oldest first for FIFO, newest first for LIFO) until the quantity is sold. */
  method SellInOrder(lots: seq<Lot>, quantity: int, scale: nat, allocationScale: nat, admitUnknown: bool) returns (r: Result<Sale, Error>)
    requires forall i :: 0 <= i < |lots| && lots[i].known ==> lots[i].basisScale <= allocationScale
    ensures var common := CommonScale(lots, scale);
            var wanted := Restate(quantity, scale, common);
            && (r.Ok? ==> Conserves(lots, if quantity > 0 then wanted else 0, common, allocationScale, r.value)
                          && Proportional(lots, r.value.disposals, common, allocationScale))
            && Aligned(lots, common, allocationScale)
            && forall e :: r == Err(e) <==> RefusesSale(lots, wanted, common, allocationScale, admitUnknown, e)
  {
    var common := CommonScale(lots, scale);
    PositiveRestated(quantity, scale, common);
    r := ConsumeLots(lots, Restate(quantity, scale, common), common, allocationScale, admitUnknown);
  }

  /* ---------------------------------------------------------------- a lot sold in pieces */

  datatype Piece = Piece(quantity: int, scale: nat, allocationScale: nat)

  /** A piece is sold from a lot of known basis, at the piece's own scales. */
  predicate SellsPiece(lot: Lot, p: Piece, d: Disposal, left: Lot, final: nat) {
    && lot.known && lot.basisScale <= p.allocationScale <= final
    && DisposeLot(lot, p.quantity, p.scale, p.allocationScale, false) == Ok(Taken(d, left))
  }

  /** A lot is sold piece by piece: lots[i] is what is left of it before piece i. */
  ghost predicate SoldInPieces(lots: seq<Lot>, pieces: seq<Piece>, disposals: seq<Disposal>, final: nat) {
    && |lots| == |pieces| + 1 && |disposals| == |pieces|
    && forall i :: 0 <= i < |pieces| ==> SellsPiece(lots[i], pieces[i], disposals[i], lots[i + 1], final)
  }

  predicate CostsWithin(disposals: seq<Disposal>, final: nat) { forall i :: 0 <= i < |disposals| ==> disposals[i].costScale <= final }

  /** The basis that disposals release, each read at the scale it carries. */
  function ReleasedAt(disposals: seq<Disposal>, final: nat): int
    requires CostsWithin(disposals, final)
  {
    if disposals == [] then 0
    else Restate(disposals[0].cost, disposals[0].costScale, final) + ReleasedAt(disposals[1..], final)
  }

  function BasisAt(lot: Lot, final: nat): int
    requires lot.basisScale <= final
  {
    Restate(lot.basis, lot.basisScale, final)
  }

  lemma PieceIsConserved(lot: Lot, p: Piece, d: Disposal, left: Lot, final: nat)
    requires SellsPiece(lot, p, d, left, final)
    ensures d.costScale <= final && left.known && left.basisScale <= final && lot.basisScale <= final
    ensures Restate(d.cost, d.costScale, final) + BasisAt(left, final) == BasisAt(lot, final)
    ensures left.quantity == 0 ==> left.basis == 0
  {
    LotIsConserved(lot, p.quantity, p.scale, p.allocationScale, false);
    RestateTwice(lot.basis, lot.basisScale, p.allocationScale, final);
    RestateSum(d.cost, left.basis, p.allocationScale, final);
  }

  lemma TailSold(lots: seq<Lot>, pieces: seq<Piece>, disposals: seq<Disposal>, final: nat)
    requires SoldInPieces(lots, pieces, disposals, final) && pieces != []
    ensures SellsPiece(lots[0], pieces[0], disposals[0], lots[1], final)
    ensures SoldInPieces(lots[1..], pieces[1..], disposals[1..], final)
  {
  }

  lemma Headed(d: Disposal, rest: seq<Disposal>, final: nat)
    requires d.costScale <= final && CostsWithin(rest, final)
    ensures CostsWithin([d] + rest, final) && ReleasedAt([d] + rest, final) == Restate(d.cost, d.costScale, final) + ReleasedAt(rest, final)
  {
    assert ([d] + rest)[1..] == rest;
  }

  /** However a lot is cut up, and at whatever scales, the pieces release exactly the basis that is no longer
      held; once the last unit is sold they have released all of it. */
  lemma {:induction false} PiecesReleaseTheWhole(lots: seq<Lot>, pieces: seq<Piece>, disposals: seq<Disposal>, final: nat)
    requires SoldInPieces(lots, pieces, disposals, final) && lots[0].basisScale <= final
    ensures CostsWithin(disposals, final) && lots[|pieces|].basisScale <= final
    ensures ReleasedAt(disposals, final) + BasisAt(lots[|pieces|], final) == BasisAt(lots[0], final)
    ensures pieces != [] && lots[|pieces|].quantity == 0 ==> lots[|pieces|].basis == 0 && ReleasedAt(disposals, final) == BasisAt(lots[0], final)
    decreases |pieces|
  {
    if pieces != [] {
      TailSold(lots, pieces, disposals, final);
      PieceIsConserved(lots[0], pieces[0], disposals[0], lots[1], final);
      PiecesReleaseTheWhole(lots[1..], pieces[1..], disposals[1..], final);
      Headed(disposals[0], disposals[1..], final);
      assert [disposals[0]] + disposals[1..] == disposals;
      ZeroRestated(lots[|pieces|].basisScale, final);
    }
  }

  lemma {:induction false} ZeroRestated(from: nat, final: nat)
    requires from <= final
    ensures Restate(0, from, final) == 0
    decreases final
  {
    if from < final {
      ZeroRestated(from, final - 1);
    }
  }

  /* ---------------------------------------------------------------- sharing the proceeds */

  function Sum(xs: seq<int>): int { if xs == [] then 0 else Sum(xs[..|xs| - 1]) + xs[|xs| - 1] }

  lemma SumSnoc(xs: seq<int>, x: int)
    ensures Sum(xs + [x]) == Sum(xs) + x
  {
    assert (xs + [x])[..|xs|] == xs;
  }

  function Ceiling(disposals: seq<Disposal>, scale: nat): (c: nat)
    ensures c >= scale && forall i :: 0 <= i < |disposals| ==> disposals[i].costScale <= c
    ensures c == scale || exists i :: 0 <= i < |disposals| && c == disposals[i].costScale
  {
    if disposals == [] then scale else Max(Ceiling(disposals[..|disposals| - 1], scale), disposals[|disposals| - 1].costScale)
  }

  function UnitScale(disposals: seq<Disposal>): (s: nat)
    ensures forall i :: 0 <= i < |disposals| ==> disposals[i].quantityScale <= s
    ensures s == 0 || exists i :: 0 <= i < |disposals| && s == disposals[i].quantityScale
  {
    if disposals == [] then 0 else Max(UnitScale(disposals[..|disposals| - 1]), disposals[|disposals| - 1].quantityScale)
  }

  /** The scale proceeds are shared at: the deepest one up to the ceiling at which they still fit 64 bits. */
  ghost predicate DeepestFit(value: int, scale: nat, ceiling: nat, chosen: nat) {
    && scale <= chosen <= ceiling && IsInt64(Restate(value, scale, chosen))
    && forall s: nat :: chosen < s <= ceiling ==> !IsInt64(Restate(value, scale, s))
  }

  /** Backing off always succeeds: the amount fits at its own scale. */
  method ChooseScale(value: int, scale: nat, ceiling: nat) returns (chosen: nat)
    requires IsInt64(value) && scale <= ceiling
    ensures DeepestFit(value, scale, ceiling, chosen)
  {
    chosen := ceiling;
    SameScale(value, scale);
    while !IsInt64(Restate(value, scale, chosen))
      invariant scale <= chosen <= ceiling
      invariant forall s: nat :: chosen < s <= ceiling ==> !IsInt64(Restate(value, scale, s))
      decreases chosen
    {
      chosen := chosen - 1;
    }
  }

  /** The part of p not yet handed out, when q of t units have had their truncated share. */
  predicate Left(p: int, remaining: int, used: int, t: int) {
    if p >= 0 then remaining * t >= p * (t - used) && remaining <= p
    else remaining * t <= p * (t - used) && remaining >= p
  }

  lemma LeftStep(p: int, remaining: int, used: int, t: int, q: int, share: int)
    requires Left(p, remaining, used, t) && t > 0 && q >= 0 && ShareBounds(p, q, t, share)
    ensures Left(p, remaining - share, used + q, t)
  {
    Distribute(remaining, -share, t);
    Negate(share, t);
    assert p * (t - (used + q)) == p * (t - used) - p * q;
  }

  lemma LeftIsBetween(p: int, remaining: int, used: int, t: int)
    requires Left(p, remaining, used, t) && 0 <= used <= t && t > 0
    ensures Between(p, remaining)
  {
    if p >= 0 {
      Scales(p, t - used, t);
      if remaining < 0 {
        StepUp(remaining, 0, t);
      }
    } else {
      Scales(-p, t - used, t);
      Negate(p, t - used);
      if remaining > 0 {
        StepUp(0, remaining, t);
      }
    }
  }

  /** Shares that conserve the amount: they add up to it exactly, none exceeds it or has the other sign, and
      each but the last is its exact proportion truncated toward zero. */
  ghost predicate FairShares(shares: seq<int>, proceeds: int, units: seq<int>) {
    && |shares| == |units| && Sum(shares) == proceeds
    && (forall i :: 0 <= i < |shares| ==> Between(proceeds, shares[i]))
    && (forall i: nat :: i < |shares| - 1 ==> SharedAt(shares, proceeds, units, Sum(units), i))
  }

  predicate SharedAt(shares: seq<int>, proceeds: int, units: seq<int>, total: int, i: nat) {
    i < |shares| && i < |units| && ShareBounds(proceeds, units[i], total, shares[i])
  }

  /** One more share is handed out. */
  lemma ShareStep(p: int, remaining: int, used: int, t: int, q: int)
    requires Left(p, remaining, used, t) && 0 < q <= t
    ensures var share := Quo(p * q, t);
            ShareBounds(p, q, t, share) && Left(p, remaining - share, used + q, t) && Between(p, share)
  {
    ShareFits(p, q, t);
    LeftStep(p, remaining, used, t, q, Quo(p * q, t));
  }

  lemma SumPrefix(units: seq<int>, i: nat)
    requires i < |units|
    ensures Sum(units[..i + 1]) == Sum(units[..i]) + units[i]
  {
    SumSnoc(units[..i], units[i]);
    assert units[..i + 1] == units[..i] + [units[i]];
  }

  /** The last lot gets what is left. */
  lemma LastShare(p: int, units: seq<int>, remaining: int)
    requires units != [] && forall k :: 0 <= k < |units| ==> units[k] > 0
    requires Sum(units) > 0 && Left(p, remaining, Sum(units[..|units| - 1]), Sum(units))
    ensures Between(p, remaining)
  {
    UsedWithinTotal(units, |units| - 1);
    LeftIsBetween(p, remaining, Sum(units[..|units| - 1]), Sum(units));
  }

  method Share(proceeds: int, units: seq<int>) returns (shares: seq<int>)
    requires units != [] && forall i :: 0 <= i < |units| ==> units[i] > 0
    ensures FairShares(shares, proceeds, units)
  {
    var total := 0;
    for i := 0 to |units|
      invariant total == Sum(units[..i]) && (i > 0 ==> total > 0)
    {
      SumPrefix(units, i);
      total := total + units[i];
    }
    assert units[..|units|] == units;
    var remaining := proceeds;
    shares := [];
    for i := 0 to |units| - 1
      invariant |shares| == i && Sum(shares) + remaining == proceeds
      invariant Left(proceeds, remaining, Sum(units[..i]), total)
      invariant forall k :: 0 <= k < i ==> Between(proceeds, shares[k])
      invariant forall k: nat :: k < i ==> SharedAt(shares, proceeds, units, total, k)
    {
      var share := Quo(proceeds * units[i], total);
      UnitWithinTotal(units, i);
      ShareStep(proceeds, remaining, Sum(units[..i]), total, units[i]);
      SumPrefix(units, i);
      SumSnoc(shares, share);
      forall k: nat | k < i + 1 ensures SharedAt(shares + [share], proceeds, units, total, k) {
        assert k < i ==> SharedAt(shares, proceeds, units, total, k);
      }
      shares, remaining := shares + [share], remaining - share;
    }
    LastShare(proceeds, units, remaining);
    SumSnoc(shares, remaining);
    forall k: nat | k < |shares| ensures SharedAt(shares + [remaining], proceeds, units, total, k) {
      assert SharedAt(shares, proceeds, units, total, k);
    }
    shares := shares + [remaining];
  }

  lemma {:induction false} UsedWithinTotal(units: seq<int>, i: nat)
    requires i <= |units| && forall k :: 0 <= k < |units| ==> units[k] > 0
    ensures 0 <= Sum(units[..i]) <= Sum(units)
    decreases |units|
  {
    if i == |units| {
      assert units[..i] == units;
      if units != [] {
        UsedWithinTotal(units[..|units| - 1], |units| - 1);
        assert units[..|units| - 1][..|units| - 1] == units[..|units| - 1];
      }
    } else {
      var before := units[..|units| - 1];
      UsedWithinTotal(before, i);
      assert before[..i] == units[..i];
    }
  }

  lemma UnitWithinTotal(units: seq<int>, i: nat)
    requires i < |units| && forall k :: 0 <= k < |units| ==> units[k] > 0
    ensures 0 < units[i] <= Sum(units)
  {
    UsedWithinTotal(units, i + 1);
    UsedWithinTotal(units[..i + 1], i);
    assert units[..i + 1][..i] == units[..i];
  }

  datatype Proceeds = Proceeds(shares: seq<int>, scale: nat)

  function Units(disposals: seq<Disposal>, scale: nat): (units: seq<int>)
    requires forall i :: 0 <= i < |disposals| ==> disposals[i].quantityScale <= scale
    ensures |units| == |disposals|
    ensures forall i :: 0 <= i < |disposals| ==> units[i] == Restate(disposals[i].quantity, disposals[i].quantityScale, scale)
  {
    seq(|disposals|, i requires 0 <= i < |disposals| => Restate(disposals[i].quantity, disposals[i].quantityScale, scale))
  }

  /** Share a decision's proceeds over the lots it consumed.  The only refusals are the ones for malformed input:
      the range error further down cannot happen, because every share lies between nothing and an amount that
      was already chosen to fit. */
  method AllocateProceeds(disposals: seq<Disposal>, value: int, scale: int) returns (r: Result<Proceeds, Error>)
    requires IsInt64(value)
    ensures r.Ok? <==> disposals != [] && 0 <= scale <= 12 && forall i :: 0 <= i < |disposals| ==> disposals[i].quantity > 0
    ensures r.Err? ==> r.error == InvalidParams
    ensures r.Ok? ==>
              && DeepestFit(value, scale, Ceiling(disposals, scale), r.value.scale)
              && FairShares(r.value.shares, Restate(value, scale, r.value.scale), Units(disposals, UnitScale(disposals)))
              && forall i :: 0 <= i < |r.value.shares| ==> IsInt64(r.value.shares[i])
  {
    if |disposals| == 0 || scale < 0 || scale > 12 {
      return Err(InvalidParams);
    }
    var chosen := ChooseScale(value, scale, Ceiling(disposals, scale));
    var proceeds := Restate(value, scale, chosen);
    var units := Units(disposals, UnitScale(disposals));
    for i := 0 to |units|
      invariant forall k :: 0 <= k < i ==> units[k] > 0 && disposals[k].quantity > 0
    {
      PositiveRestated(disposals[i].quantity, disposals[i].quantityScale, UnitScale(disposals));
      if units[i] <= 0 {
        return Err(InvalidParams);
      }
    }
    var shares := Share(proceeds, units);
    r := Ok(Proceeds(shares, chosen));
  }
}
