/** The affected-position closure that investment replay rebuilds instead of the whole book.

    A command changes some positions from some date on.  Every transfer a changed position makes on
    or after that date carries changed basis into its destination, which is therefore changed from
    the transfer's own date.  The production code computes this with a stack of pending positions and
    a map of earliest dates; here the result is characterised by the dated chains of transfers, which
    mention neither the stack nor the order in which the rows were read.

    ISO calendar dates compare as text exactly as they compare in time, so a date is an ordinal. */
module ReplayClosure {

  import opened Wrappers

  type Date = int

  datatype Position = Position(account: int, commodity: int, costCommodity: int)

  /** A position a command changes.  The date is None when its text is not a calendar date. */
  datatype Seed = Seed(position: Position, affectedFrom: Option<Date>)

  /** One row of the transfer graph as the query returns it. */
  datatype Row = Row(source: Position, destinationAccount: int, destinationCommodity: int, effectiveOn: Date)

  datatype Error = InvalidParams

  /** The cost currency always carries over to the destination. */
  function Destination(row: Row): Position {
    Position(row.destinationAccount, row.destinationCommodity, row.source.costCommodity)
  }

  predicate ValidSeed(seed: Seed) {
    && seed.position.account > 0 && seed.position.commodity > 0 && seed.position.costCommodity > 0
    && seed.affectedFrom.Some?
  }

  /* ---------------------------------------------------------------- specification */

  /** A seed followed by transfers, each leaving the position the previous one entered, none dated
      before the moment that position became affected. */
  datatype Chain = Start(seed: Seed) | Then(before: Chain, transfer: Row)

  /** The position a chain reaches: a transfer enters its destination's account and commodity, and keeps the cost
      currency of the position it leaves. */
  function End(c: Chain): Position {
    match c
    case Start(seed) => seed.position
    case Then(_, row) => Position(row.destinationAccount, row.destinationCommodity, row.source.costCommodity)
  }

  ghost predicate IsChain(c: Chain, seeds: seq<Seed>, rows: seq<Row>) {
    match c
    case Start(seed) => seed in seeds && seed.affectedFrom.Some?
    case Then(before, row) =>
      && IsChain(before, seeds, rows)
      && row in rows && row.source == End(before) && row.effectiveOn >= Since(before)
  }

  /** The date from which a chain makes its end affected. */
  function Since(c: Chain): Date {
    match c
    case Start(seed) => if seed.affectedFrom.Some? then seed.affectedFrom.value else 0
    case Then(_, row) => row.effectiveOn
  }

  /** A seed that names a position and a date. */
  predicate IsDated(s: Seed) {
    s.affectedFrom.Some? && s.position.account >= 1 && s.position.commodity >= 1 && s.position.costCommodity >= 1
  }

  /** m assigns every position some chain reaches the earliest date any chain reaches it,
      and assigns nothing to any other position. */
  ghost predicate EarliestAffected(m: map<Position, Date>, seeds: seq<Seed>, rows: seq<Row>) {
    && (forall p :: p in m ==> Attained(m, p, seeds, rows))
    && (forall c :: IsChain(c, seeds, rows) ==> End(c) in m && m[End(c)] <= Since(c))
  }

  ghost predicate Attained(m: map<Position, Date>, p: Position, seeds: seq<Seed>, rows: seq<Row>)
    requires p in m
  {
    exists c :: IsChain(c, seeds, rows) && End(c) == p && Since(c) == m[p]
  }

  /** The specification leaves no freedom: at most one map satisfies it. */
  lemma EarliestAffectedIsUnique(m: map<Position, Date>, n: map<Position, Date>, seeds: seq<Seed>, rows: seq<Row>)
    requires EarliestAffected(m, seeds, rows) && EarliestAffected(n, seeds, rows)
    ensures m == n
  {
    forall p | p in m ensures p in n && n[p] <= m[p] {
      assert Attained(m, p, seeds, rows);
    }
    forall p | p in n ensures p in m && m[p] <= n[p] {
      assert Attained(n, p, seeds, rows);
    }
  }

  /** More seeds or more transfers can only add positions and move dates earlier, so the closure over
      the union of the edges before and after a command covers both closures. */
  lemma ClosureIsMonotone(m: map<Position, Date>, seeds: seq<Seed>, rows: seq<Row>,
                          n: map<Position, Date>, moreSeeds: seq<Seed>, moreRows: seq<Row>)
    requires EarliestAffected(m, seeds, rows) && EarliestAffected(n, moreSeeds, moreRows)
    requires forall s :: s in seeds ==> s in moreSeeds
    requires forall r :: r in rows ==> r in moreRows
    ensures forall p :: p in m ==> p in n && n[p] <= m[p]
  {
    forall p | p in m ensures p in n && n[p] <= m[p] {
      assert Attained(m, p, seeds, rows);
      var c :| IsChain(c, seeds, rows) && End(c) == p && Since(c) == m[p];
      ChainWeakening(c, seeds, rows, moreSeeds, moreRows);
    }
  }

  lemma {:induction false} ChainWeakening(c: Chain, seeds: seq<Seed>, rows: seq<Row>, moreSeeds: seq<Seed>, moreRows: seq<Row>)
    requires IsChain(c, seeds, rows)
    requires forall s :: s in seeds ==> s in moreSeeds
    requires forall r :: r in rows ==> r in moreRows
    ensures IsChain(c, moreSeeds, moreRows)
  {
    if c.Then? {
      ChainWeakening(c.before, seeds, rows, moreSeeds, moreRows);
    }
  }

  /* ---------------------------------------------------------------- the worklist */

  /** What is known of a position that is no longer pending: each of its late enough transfers has
      already been followed. */
  ghost predicate Followed(affected: map<Position, Date>, row: Row) {
    row.source in affected && row.effectiveOn >= affected[row.source]
    ==> Destination(row) in affected && affected[Destination(row)] <= row.effectiveOn
  }

  ghost predicate SeedsCovered(affected: map<Position, Date>, seeds: seq<Seed>) {
    forall s :: s in seeds && s.affectedFrom.Some? ==> s.position in affected && affected[s.position] <= s.affectedFrom.value
  }

  ghost predicate Sound(affected: map<Position, Date>, seeds: seq<Seed>, rows: seq<Row>) {
    forall p :: p in affected ==> Attained(affected, p, seeds, rows)
  }

  ghost predicate Lower(later: map<Position, Date>, earlier: map<Position, Date>) {
    forall p :: p in earlier ==> p in later && later[p] <= earlier[p]
  }

  /** Position-date pairs that a visit could still record: the termination measure. */
  ghost function Open(affected: map<Position, Date>, positions: set<Position>, dates: set<Date>): set<(Position, Date)> {
    set p, d | p in positions && d in dates && (p in affected ==> d < affected[p]) :: (p, d)
  }

  ghost predicate Within(rows: seq<Row>, positions: set<Position>, dates: set<Date>) {
    forall r :: r in rows ==> Destination(r) in positions && r.effectiveOn in dates
  }

  /** The Go closure visit: record an earlier date and queue the position. */
  method Visit(affected: map<Position, Date>, pending: seq<Position>, key: Position, since: Date)
    returns (affected': map<Position, Date>, pending': seq<Position>)
    ensures Lower(affected', affected)
    ensures key in affected' && affected'[key] <= since
    ensures if key in affected && affected[key] <= since
            then affected' == affected && pending' == pending
            else affected' == affected[key := since] && pending' == pending + [key]
  {
    if key in affected && affected[key] <= since {
      return affected, pending;
    }
    affected', pending' := affected[key := since], pending + [key];
  }

  lemma OpenShrinks(affected: map<Position, Date>, key: Position, since: Date, positions: set<Position>, dates: set<Date>)
    requires key in positions && since in dates
    requires key in affected ==> since < affected[key]
    ensures Open(affected[key := since], positions, dates) < Open(affected, positions, dates)
  {
    assert (key, since) in Open(affected, positions, dates);
    assert (key, since) !in Open(affected[key := since], positions, dates);
  }

  lemma SoundAfterSeed(affected: map<Position, Date>, seed: Seed, seeds: seq<Seed>, rows: seq<Row>)
    requires Sound(affected, seeds, rows) && seed in seeds && ValidSeed(seed)
    ensures Sound(affected[seed.position := seed.affectedFrom.value], seeds, rows)
  {
    var m := affected[seed.position := seed.affectedFrom.value];
    assert IsChain(Start(seed), seeds, rows);
    forall p | p in m ensures Attained(m, p, seeds, rows) {
      if p != seed.position {
        assert Attained(affected, p, seeds, rows);
      } else {
        assert End(Start(seed)) == p && Since(Start(seed)) == m[p];
      }
    }
  }

  lemma SoundAfterRow(affected: map<Position, Date>, row: Row, seeds: seq<Seed>, rows: seq<Row>)
    requires Sound(affected, seeds, rows) && row in rows
    requires row.source in affected && row.effectiveOn >= affected[row.source]
    ensures Sound(affected[Destination(row) := row.effectiveOn], seeds, rows)
  {
    var m := affected[Destination(row) := row.effectiveOn];
    assert Attained(affected, row.source, seeds, rows);
    var c :| IsChain(c, seeds, rows) && End(c) == row.source && Since(c) == affected[row.source];
    assert IsChain(Then(c, row), seeds, rows);
    forall p | p in m ensures Attained(m, p, seeds, rows) {
      if p != Destination(row) {
        assert Attained(affected, p, seeds, rows);
      } else {
        assert End(Then(c, row)) == p && Since(Then(c, row)) == m[p];
      }
    }
  }

  /** Once nothing is pending, no chain reaches a position earlier than the map says. */
  lemma {:induction false} FixedPointIsComplete(c: Chain, affected: map<Position, Date>, seeds: seq<Seed>, rows: seq<Row>)
    requires IsChain(c, seeds, rows)
    requires SeedsCovered(affected, seeds)
    requires forall r :: r in rows ==> Followed(affected, r)
    ensures End(c) in affected && affected[End(c)] <= Since(c)
  {
    if c.Then? {
      FixedPointIsComplete(c.before, affected, seeds, rows);
      assert Followed(affected, c.transfer);
    }
  }

  /** The transfers that leave a position. */
  ghost predicate Leaving(leaving: seq<Row>, key: Position, rows: seq<Row>) {
    forall r :: r in leaving <==> r in rows && r.source == key
  }

  function LeavingOf(edges: map<Position, seq<Row>>, key: Position): seq<Row> {
    if key in edges then edges[key] else []
  }

  ghost predicate Grouped(edges: map<Position, seq<Row>>, rows: seq<Row>) {
    forall p :: Leaving(LeavingOf(edges, p), p, rows)
  }

  /** Index the rows by the position they leave. */
  method GroupBySource(rows: seq<Row>) returns (edges: map<Position, seq<Row>>)
    ensures Grouped(edges, rows)
  {
    edges := map[];
    for i := 0 to |rows|
      invariant Grouped(edges, rows[..i])
    {
      var row := rows[i];
      assert forall p :: Leaving(LeavingOf(edges, p), p, rows[..i]);
      ghost var before := edges;
      edges := edges[row.source := LeavingOf(edges, row.source) + [row]];
      assert rows[..i + 1] == rows[..i] + [row];
      forall p ensures Leaving(LeavingOf(edges, p), p, rows[..i + 1]) {
        assert Leaving(LeavingOf(before, p), p, rows[..i]);
      }
    }
    assert rows[..|rows|] == rows;
  }

  method QueueSeeds(seeds: seq<Seed>, ghost rows: seq<Row>) returns (ok: bool, affected: map<Position, Date>, pending: seq<Position>)
    ensures ok <==> forall i :: 0 <= i < |seeds| ==> ValidSeed(seeds[i])
    ensures ok ==> SeedsCovered(affected, seeds) && Sound(affected, seeds, rows)
    ensures ok ==> forall p :: p in pending <==> p in affected
  {
    affected, pending, ok := map[], [], true;
    for i := 0 to |seeds|
      invariant forall j :: 0 <= j < i ==> ValidSeed(seeds[j])
      invariant SeedsCovered(affected, seeds[..i]) && Sound(affected, seeds, rows)
      invariant forall p :: p in affected <==> p in pending
    {
      var seed := seeds[i];
      if !ValidSeed(seed) {
        ok := false;
        return;
      }
      SoundAfterSeed(affected, seed, seeds, rows);
      affected, pending := Visit(affected, pending, seed.position, seed.affectedFrom.value);
      assert seeds[..i + 1] == seeds[..i] + [seed];
    }
    assert seeds[..|seeds|] == seeds;
  }

  /** The work of one popped position: follow every transfer it makes on or after its date. */
  method FollowTransfers(key: Position, leaving: seq<Row>, affected0: map<Position, Date>, pending0: seq<Position>,
                         ghost seeds: seq<Seed>, ghost rows: seq<Row>, ghost positions: set<Position>, ghost dates: set<Date>)
    returns (affected: map<Position, Date>, pending: seq<Position>)
    requires key in affected0 && Sound(affected0, seeds, rows)
    requires forall p :: p in pending0 ==> p in affected0
    requires Leaving(leaving, key, rows)
    requires Within(rows, positions, dates)
    ensures Sound(affected, seeds, rows) && Lower(affected, affected0)
    ensures forall r :: r in leaving ==> Followed(affected, r)
    ensures forall p :: p in pending0 ==> p in pending
    ensures forall p :: p in affected && p !in pending ==> p in affected0 && affected[p] == affected0[p]
    ensures Open(affected, positions, dates) <= Open(affected0, positions, dates)
    ensures Open(affected, positions, dates) < Open(affected0, positions, dates) || pending == pending0
    ensures key in affected && affected[key] == affected0[key]
    ensures forall p :: p in pending ==> p in affected
  {
    affected, pending := affected0, pending0;
    var since := affected0[key];
    for i := 0 to |leaving|
      invariant Sound(affected, seeds, rows) && Lower(affected, affected0)
      invariant key in affected && affected[key] == since
      invariant forall r :: r in leaving[..i] ==> Followed(affected, r)
      invariant forall p :: p in pending0 ==> p in pending
      invariant forall p :: p in affected && p !in pending ==> p in affected0 && affected[p] == affected0[p]
      invariant Open(affected, positions, dates) <= Open(affected0, positions, dates)
      invariant Open(affected, positions, dates) < Open(affected0, positions, dates) || pending == pending0
      invariant forall p :: p in pending ==> p in affected
    {
      var row := leaving[i];
      if row.effectiveOn >= since {
        SoundAfterRow(affected, row, seeds, rows);
        if !(Destination(row) in affected && affected[Destination(row)] <= row.effectiveOn) {
          OpenShrinks(affected, Destination(row), row.effectiveOn, positions, dates);
        }
        affected, pending := Visit(affected, pending, Destination(row), row.effectiveOn);
      }
      assert leaving[..i + 1] == leaving[..i] + [row];
    }
    assert leaving[..|leaving|] == leaving;
  }

  /** Popping one position and following its transfers keeps the worklist invariant. */
  lemma FollowedAfterPop(key: Position, leaving: seq<Row>, affected: map<Position, Date>, rest: seq<Position>,
                         next: map<Position, Date>, queued: seq<Position>, rows: seq<Row>)
    requires forall r :: r in rows && r.source != key && r.source !in rest ==> Followed(affected, r)
    requires Leaving(leaving, key, rows)
    requires forall r :: r in leaving ==> Followed(next, r)
    requires forall p :: p in rest ==> p in queued
    requires forall p :: p in next && p !in queued ==> p in affected && next[p] == affected[p]
    requires Lower(next, affected)
    ensures forall r :: r in rows && r.source !in queued ==> Followed(next, r)
  {
    forall r | r in rows && r.source !in queued ensures Followed(next, r) {
      if r.source != key {
        assert Followed(affected, r);
      }
    }
  }

  /** What holds between two pops. */
  ghost predicate Working(affected: map<Position, Date>, pending: seq<Position>, seeds: seq<Seed>, rows: seq<Row>) {
    && Sound(affected, seeds, rows) && SeedsCovered(affected, seeds)
    && (forall p :: p in pending ==> p in affected)
    && (forall r :: r in rows && r.source !in pending ==> Followed(affected, r))
  }

  /** Pop the last pending position and follow its transfers. */
  method PopAndFollow(edges: map<Position, seq<Row>>, affected: map<Position, Date>, pending: seq<Position>,
                      ghost seeds: seq<Seed>, ghost rows: seq<Row>, ghost positions: set<Position>, ghost dates: set<Date>)
    returns (next: map<Position, Date>, queued: seq<Position>)
    requires Grouped(edges, rows) && Within(rows, positions, dates) && pending != [] && Working(affected, pending, seeds, rows)
    ensures Working(next, queued, seeds, rows)
    ensures var before, after := Open(affected, positions, dates), Open(next, positions, dates);
            after < before || (after <= before && |queued| < |pending|)
  {
    var key, rest := pending[|pending| - 1], pending[..|pending| - 1];
    assert pending == rest + [key];
    var leaving := LeavingOf(edges, key);
    assert Leaving(leaving, key, rows);
    next, queued := FollowTransfers(key, leaving, affected, rest, seeds, rows, positions, dates);
    FollowedAfterPop(key, leaving, affected, rest, next, queued, rows);
  }

  /** Work through the pending positions until none is left. */
  method Drain(edges: map<Position, seq<Row>>, affected0: map<Position, Date>, pending0: seq<Position>,
               ghost seeds: seq<Seed>, ghost rows: seq<Row>, ghost positions: set<Position>, ghost dates: set<Date>)
    returns (affected: map<Position, Date>)
    requires Grouped(edges, rows) && Within(rows, positions, dates)
    requires Sound(affected0, seeds, rows) && SeedsCovered(affected0, seeds)
    requires forall p :: p in pending0 <==> p in affected0
    ensures Sound(affected, seeds, rows) && SeedsCovered(affected, seeds)
    ensures forall r :: r in rows ==> Followed(affected, r)
  {
    affected := affected0;
    var pending := pending0;
    while |pending| > 0
      invariant Working(affected, pending, seeds, rows)
      decreases Open(affected, positions, dates), |pending|
    {
      affected, pending := PopAndFollow(edges, affected, pending, seeds, rows, positions, dates);
    }
  }

  /** The dependency closure of a command's seeds over the recorded transfers.  Refused exactly when
      the request is malformed; otherwise the one map of earliest affected dates. */
  method Closure(bookId: int, seeds: seq<Seed>, rows: seq<Row>) returns (result: Result<map<Position, Date>, Error>)
    ensures result.Ok? <==> bookId > 0 && forall s :: s in seeds ==> IsDated(s)
    ensures result.Ok? ==> EarliestAffected(result.value, seeds, rows)
  {
    if bookId <= 0 {
      return Err(InvalidParams);
    }
    var ok, affected, pending := QueueSeeds(seeds, rows);
    if !ok {
      ghost var i :| 0 <= i < |seeds| && !ValidSeed(seeds[i]);
      assert seeds[i] in seeds && !IsDated(seeds[i]);
      return Err(InvalidParams);
    }
    var edges := GroupBySource(rows);
    affected := Drain(edges, affected, pending, seeds, rows,
                      set r | r in rows :: Destination(r), set r | r in rows :: r.effectiveOn);
    forall c | IsChain(c, seeds, rows) ensures End(c) in affected && affected[End(c)] <= Since(c) {
      FixedPointIsComplete(c, affected, seeds, rows);
    }
    result := Ok(affected);
  }
}
