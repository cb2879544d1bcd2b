/** The attention summary: eleven sources folded into one report by a loop with four accumulators, the last two
    of them counted over the price coverage in two passes. */
module Attention {

  import opened Wrappers

  datatype Readiness = Ready | Loading | Errored

  datatype Source = Source(id: string, unit: string, state: Readiness, status: string, count: Option<int>, failed: bool)

  /** A durable queue's record, or None when reading it failed. */
  datatype Record = Record(count: int, status: string)

  datatype Coverage = Coverage(base: int, quote: int, status: string)

  /** A commodity with its kind. */
  datatype Commodity = Commodity(id: int, kind: string)

  datatype Workspace = Workspace(commodities: seq<Commodity>, coverage: seq<Coverage>)

  datatype Definition = Definition(id: string, unit: string)

  const DURABLE: seq<Definition> := [
    Definition("drafts", "transaction"), Definition("transaction_review", "transaction"),
    Definition("recurring_blocked", "occurrence"), Definition("imports", "batch"),
    Definition("suggestions", "provider_event"), Definition("connections", "connection"),
    Definition("refresh", "market_source"), Definition("backups", "latest_run"), Definition("self_check", "latest_run")]

  /* ---------------------------------------------------------------- one source */

  /** A durable source from its record: a running check is not a finished empty one, a failed or incomplete run
      counts as one item, and a count that is not settled is left unknown unless there is already something. */
  function Durable(d: Definition, record: Option<Record>): Source {
    match record
    case None => Source(d.id, d.unit, Errored, "", None, false)
    case Some(r) =>
      var run := d.id == "backups" || d.id == "self_check";
      var feed := d.id == "connections" || d.id == "refresh";
      var bad := r.status == "failed" || r.status == "errored" || r.status == "warning" || r.status == "incomplete";
      var count := if run && bad then 1 else r.count;
      var loading := (run && (r.status == "running" || r.status == "pending")) || (feed && r.status == "running");
      var failed := if run && bad then r.status == "failed" || r.status == "errored"
                    else if feed then r.count > 0
                    else r.status == "failed";
      Source(d.id, d.unit, if loading then Loading else Ready, r.status, if !loading || count > 0 then Some(count) else None, failed)
  }

  /** What the attention design says of a durable source, case by case. */
  predicate IsDurable(s: Source, id: string, unit: string, record: Option<Record>) {
    && s.id == id && s.unit == unit
    && match record
       case None => s.state == Errored && s.status == "" && s.count == None && !s.failed
       case Some(r) =>
         && s.status == r.status
         && (if id == "backups" || id == "self_check" then IsRun(s, r)
             else if id == "connections" || id == "refresh" then IsFeed(s, r)
             else s.state == Ready && s.count == Some(r.count) && (s.failed <==> r.status == "failed"))
  }

  /** The latest run of a job. */
  predicate IsRun(s: Source, r: Record) {
    if r.status == "running" || r.status == "pending" then s.state == Loading && !s.failed && Unsettled(s, r)
    else if r.status == "failed" || r.status == "errored" then s.state == Ready && s.failed && s.count == Some(1)
    else if r.status == "warning" || r.status == "incomplete" then s.state == Ready && !s.failed && s.count == Some(1)
    else s.state == Ready && !s.failed && s.count == Some(r.count)
  }

  /** The failures of a feed. */
  predicate IsFeed(s: Source, r: Record) {
    && (s.failed <==> r.count > 0)
    && (if r.status == "running" then s.state == Loading && Unsettled(s, r) else s.state == Ready && s.count == Some(r.count))
  }

  /** What is already counted is shown; that nothing is counted yet means nothing. */
  predicate Unsettled(s: Source, r: Record) { s.count == if r.count > 0 then Some(r.count) else None }

  lemma DurableIsDurable(d: Definition, record: Option<Record>)
    ensures IsDurable(Durable(d, record), d.id, d.unit, record)
  {
    if record.Some? {
      TextsDiffer();
    }
  }

  lemma TextsDiffer()
    ensures "failed" != "running" && "failed" != "pending" && "errored" != "running" && "errored" != "pending"
    ensures "warning" != "running" && "warning" != "pending" && "incomplete" != "running" && "incomplete" != "pending"
    ensures "failed" != "warning" && "failed" != "incomplete" && "errored" != "warning" && "errored" != "incomplete"
    ensures "backups" != "connections" && "backups" != "refresh" && "self_check" != "connections" && "self_check" != "refresh"
  {
    assert "failed"[0] == 'f' && "running"[0] == 'r' && "pending"[0] == 'p' && "errored"[0] == 'e' && "warning"[0] == 'w';
    assert "incomplete"[0] == 'i' && "backups"[0] == 'b' && "connections"[0] == 'c' && "refresh"[0] == 'r' && "self_check"[0] == 's';
  }

  /** The loop body for one durable queue. */
  method ReadDurable(d: Definition, record: Option<Record>) returns (source: Source)
    ensures source == Durable(d, record)
  {
    if record.None? {
      return Source(d.id, d.unit, Errored, "", None, false);
    }
    var count, status, state := record.value.count, record.value.status, Ready;
    var failed := status == "failed";
    TextsDiffer();
    if d.id == "backups" || d.id == "self_check" {
      if status == "running" || status == "pending" {
        state := Loading;
      } else if status == "failed" || status == "errored" || status == "warning" || status == "incomplete" {
        count := 1;
        failed := status == "failed" || status == "errored";
      }
    } else if d.id == "connections" || d.id == "refresh" {
      failed := count > 0;
      if status == "running" {
        state := Loading;
      }
    }
    source := Source(d.id, d.unit, state, status, if state == Ready || count > 0 then Some(count) else None, failed);
  }

  /* ---------------------------------------------------------------- pairs */

  /** The kind last recorded for a commodity. */
  function Kinds(commodities: seq<Commodity>): map<int, string> {
    if commodities == [] then map[]
    else var last := commodities[|commodities| - 1]; Kinds(commodities[..|commodities| - 1])[last.id := last.kind]
  }

  predicate IsCurrency(kinds: map<int, string>, id: int) { id in kinds && kinds[id] == "currency" }

  /** The distinct pairs that some row calls not usable. */
  function Unusable(rows: seq<Coverage>): set<(int, int)> {
    set r | r in rows && r.status != "usable" :: (r.base, r.quote)
  }

  /** Those whose base is, or is not, a currency. */
  function Selected(rows: seq<Coverage>, kinds: map<int, string>, currency: bool): set<(int, int)> {
    set p | p in Unusable(rows) && IsCurrency(kinds, p.0) == currency
  }

  lemma SelectedGrows(rows: seq<Coverage>, row: Coverage, kinds: map<int, string>, currency: bool)
    ensures Selected(rows + [row], kinds, currency)
         == Selected(rows, kinds, currency)
            + if row.status != "usable" && IsCurrency(kinds, row.base) == currency then {(row.base, row.quote)} else {}
  {
    var longer := rows + [row];
    forall p ensures p in Unusable(longer) <==> p in Unusable(rows) || (row.status != "usable" && p == (row.base, row.quote)) {
      if p in Unusable(rows) {
        var r :| r in rows && r.status != "usable" && p == (r.base, r.quote);
        assert r in longer;
      }
      if row.status != "usable" && p == (row.base, row.quote) {
        assert row in longer;
      }
    }
  }

  /** The inner loop: count each unusable pair of the wanted kind once. */
  method CountPairs(workspace: Workspace, currency: bool) returns (count: int)
    ensures count == |Selected(workspace.coverage, Kinds(workspace.commodities), currency)|
  {
    var kinds: map<int, string> := map[];
    for i := 0 to |workspace.commodities|
      invariant kinds == Kinds(workspace.commodities[..i])
    {
      kinds := kinds[workspace.commodities[i].id := workspace.commodities[i].kind];
      assert workspace.commodities[..i + 1][..i] == workspace.commodities[..i];
    }
    assert workspace.commodities[..|workspace.commodities|] == workspace.commodities;
    count := CountDistinct(workspace.coverage, kinds, currency);
  }

  method CountDistinct(rows: seq<Coverage>, kinds: map<int, string>, currency: bool) returns (count: int)
    ensures count == |Selected(rows, kinds, currency)|
  {
    var seen: set<(int, int)> := {};
    count := 0;
    for i := 0 to |rows|
      invariant seen == Selected(rows[..i], kinds, currency) && count == |seen|
    {
      var row := rows[i];
      SelectedGrows(rows[..i], row, kinds, currency);
      assert rows[..i + 1] == rows[..i] + [row];
      if currency == IsCurrency(kinds, row.base) && row.status != "usable" && (row.base, row.quote) !in seen {
        count := count + 1;
        seen := seen + {(row.base, row.quote)};
      }
    }
    assert rows[..|rows|] == rows;
  }

  /** The price count and the rate count divide the distinct unusable pairs between them. */
  lemma CountsPartitionPairs(rows: seq<Coverage>, kinds: map<int, string>)
    ensures |Selected(rows, kinds, false)| + |Selected(rows, kinds, true)| == |Unusable(rows)|
  {
    var a, b := Selected(rows, kinds, false), Selected(rows, kinds, true);
    assert a !! b && a + b == Unusable(rows);
  }

  /** Repeating or reordering coverage rows changes neither count. */
  lemma CountsIgnoreOrderAndRepeats(rows: seq<Coverage>, others: seq<Coverage>, kinds: map<int, string>, currency: bool)
    requires forall r :: r in rows <==> r in others
    ensures Selected(rows, kinds, currency) == Selected(others, kinds, currency)
  {
    assert Unusable(rows) == Unusable(others);
  }

  /** Commodity i is the last one listed under an id. */
  predicate LastListed(commodities: seq<Commodity>, i: nat, id: int) {
    i < |commodities| && commodities[i].id == id && forall j :: i < j < |commodities| ==> commodities[j].id != id
  }

  /** An id is a currency's if its last listing says so. */
  ghost predicate ListedCurrency(commodities: seq<Commodity>, id: int) {
    exists i: nat :: LastListed(commodities, i, id) && commodities[i].kind == "currency"
  }

  lemma {:induction false} KindIsListed(commodities: seq<Commodity>, id: int)
    ensures IsCurrency(Kinds(commodities), id) <==> ListedCurrency(commodities, id)
    decreases |commodities|
  {
    if commodities != [] {
      var n := |commodities| - 1;
      var front := commodities[..n];
      KindIsListed(front, id);
      if commodities[n].id == id {
        assert LastListed(commodities, n, id);
      } else {
        forall i: nat ensures LastListed(commodities, i, id) <==> LastListed(front, i, id) {
          assert i < n ==> front[i] == commodities[i];
        }
      }
    }
  }

  /** A pair to be counted: some row does not call it usable, and its base is, or is not, a currency. */
  ghost predicate Wanted(w: Workspace, currency: bool, pair: (int, int)) {
    && (exists r :: r in w.coverage && r.base == pair.0 && r.quote == pair.1 && r.status != "usable")
    && (ListedCurrency(w.commodities, pair.0) <==> currency)
  }

  lemma SelectedIsWanted(w: Workspace, currency: bool, pair: (int, int))
    ensures pair in Selected(w.coverage, Kinds(w.commodities), currency) <==> Wanted(w, currency, pair)
  {
    KindIsListed(w.commodities, pair.0);
  }

  /** The prices are the pairs whose base is no currency, the rates those whose base is one. */
  ghost predicate IsPairs(s: Source, id: string, workspace: Option<Workspace>, currency: bool) {
    && s.id == id && s.unit == "pair" && s.status == "" && !s.failed
    && match workspace
       case None => s.state == Errored && s.count == None
       case Some(w) =>
         s.state == Ready && s.count.Some? && exists pairs: set<(int, int)> :: CountsWanted(w, currency, pairs) && s.count.value == |pairs|
  }

  ghost predicate CountsWanted(w: Workspace, currency: bool, pairs: set<(int, int)>) {
    forall pair :: pair in pairs <==> Wanted(w, currency, pair)
  }

  lemma PairSourceIsPairs(id: string, workspace: Option<Workspace>, currency: bool)
    ensures IsPairs(PairSource(id, workspace, currency), id, workspace, currency)
  {
    if workspace.Some? {
      var w := workspace.value;
      var pairs := Selected(w.coverage, Kinds(w.commodities), currency);
      forall pair ensures pair in pairs <==> Wanted(w, currency, pair) {
        SelectedIsWanted(w, currency, pair);
      }
      assert CountsWanted(w, currency, pairs);
    }
  }

  function PairSource(id: string, workspace: Option<Workspace>, currency: bool): Source {
    match workspace
    case None => Source(id, "pair", Errored, "", None, false)
    case Some(w) => Source(id, "pair", Ready, "", Some(|Selected(w.coverage, Kinds(w.commodities), currency)|), false)
  }

  /* ---------------------------------------------------------------- the fold */

  function Known(sources: seq<Source>): int {
    if sources == [] then 0
    else var last := sources[|sources| - 1]; Known(sources[..|sources| - 1]) + if last.count.Some? then last.count.value else 0
  }

  predicate AllReady(sources: seq<Source>) { forall i :: 0 <= i < |sources| ==> sources[i].state.Ready? }

  predicate AnyFailed(sources: seq<Source>) { exists i :: 0 <= i < |sources| && (sources[i].failed || sources[i].state.Errored?) }

  lemma KnownSnoc(sources: seq<Source>, s: Source)
    ensures Known(sources + [s]) == Known(sources) + if s.count.Some? then s.count.value else 0
  {
    assert (sources + [s])[..|sources|] == sources;
  }

  lemma ReadySnoc(sources: seq<Source>, s: Source)
    ensures AllReady(sources + [s]) <==> AllReady(sources) && s.state.Ready?
  {
    var longer := sources + [s];
    assert longer[|sources|] == s && forall i :: 0 <= i < |sources| ==> longer[i] == sources[i];
  }

  lemma FailedSnoc(sources: seq<Source>, s: Source)
    ensures AnyFailed(sources + [s]) <==> AnyFailed(sources) || s.failed || s.state.Errored?
  {
    var longer := sources + [s];
    assert longer[|sources|] == s && forall i :: 0 <= i < |sources| ==> longer[i] == sources[i];
  }

  class Report {
    var totalKnown: int
    var complete: bool
    var hasFailures: bool
    var sources: seq<Source>

    constructor ()
      ensures Valid() && sources == []
    {
      totalKnown, complete, hasFailures, sources := 0, true, false, [];
    }

    /** The accumulators say of the sources what their names say. */
    ghost predicate Valid()
      reads this
    {
      totalKnown == Known(sources) && complete == AllReady(sources) && hasFailures == AnyFailed(sources)
    }

    method Append(source: Source)
      requires Valid()
      modifies this
      ensures Valid() && sources == old(sources) + [source]
    {
      if source.count.Some? {
        totalKnown := totalKnown + source.count.value;
      }
      complete := complete && source.state.Ready?;
      hasFailures := hasFailures || source.failed || source.state.Errored?;
      KnownSnoc(sources, source);
      ReadySnoc(sources, source);
      FailedSnoc(sources, source);
      sources := sources + [source];
    }
  }

  /** The first n durable sources. */
  function Durables(records: seq<Option<Record>>, n: nat): (sources: seq<Source>)
    requires |records| == 9 && n <= 9
    ensures |sources| == n && forall i :: 0 <= i < n ==> sources[i] == Durable(DURABLE[i], records[i])
  {
    if n == 0 then [] else Durables(records, n - 1) + [Durable(DURABLE[n - 1], records[n - 1])]
  }

  /** The whole summary, as a function of what the reads returned. */
  function Summary(records: seq<Option<Record>>, workspace: Option<Workspace>): (sources: seq<Source>)
    requires |records| == 9
    ensures |sources| == 11
  {
    Durables(records, 9) + [PairSource("prices", workspace, false), PairSource("rates", workspace, true)]
  }

  /** The eleven sources, each from its own record. */
  ghost predicate IsSummary(sources: seq<Source>, records: seq<Option<Record>>, workspace: Option<Workspace>)
    requires |records| == 9
  {
    && |sources| == 11
    && IsDurable(sources[0], "drafts", "transaction", records[0])
    && IsDurable(sources[1], "transaction_review", "transaction", records[1])
    && IsDurable(sources[2], "recurring_blocked", "occurrence", records[2])
    && IsDurable(sources[3], "imports", "batch", records[3])
    && IsDurable(sources[4], "suggestions", "provider_event", records[4])
    && IsDurable(sources[5], "connections", "connection", records[5])
    && IsDurable(sources[6], "refresh", "market_source", records[6])
    && IsDurable(sources[7], "backups", "latest_run", records[7])
    && IsDurable(sources[8], "self_check", "latest_run", records[8])
    && IsPairs(sources[9], "prices", workspace, false)
    && IsPairs(sources[10], "rates", workspace, true)
  }

  lemma SummaryIsSummary(records: seq<Option<Record>>, workspace: Option<Workspace>)
    requires |records| == 9
    ensures IsSummary(Summary(records, workspace), records, workspace)
  {
    forall i | 0 <= i < 9 ensures IsDurable(Summary(records, workspace)[i], DURABLE[i].id, DURABLE[i].unit, records[i]) {
      DurableIsDurable(DURABLE[i], records[i]);
    }
    PairSourceIsPairs("prices", workspace, false);
    PairSourceIsPairs("rates", workspace, true);
  }

  /** AttentionService.Read: the report holds the eleven sources in their fixed order, its total is the sum of the
      known counts, it is complete exactly when all are ready, and has failures exactly when one failed. */
  method Read(records: seq<Option<Record>>, workspace: Option<Workspace>) returns (report: Report)
    requires |records| == 9
    ensures report.Valid() && report.sources == Summary(records, workspace)
    ensures IsSummary(report.sources, records, workspace)
    ensures fresh(report)
  {
    report := new Report();
    for i := 0 to 9
      invariant fresh(report) && report.Valid() && report.sources == Durables(records, i)
    {
      var source := ReadDurable(DURABLE[i], records[i]);
      report.Append(source);
    }
    var prices := ReadPairs("prices", workspace, false);
    report.Append(prices);
    var rates := ReadPairs("rates", workspace, true);
    report.Append(rates);
    assert Durables(records, 9) + [prices] + [rates] == Summary(records, workspace);
    SummaryIsSummary(records, workspace);
  }

  method ReadPairs(id: string, workspace: Option<Workspace>, currency: bool) returns (source: Source)
    ensures source == PairSource(id, workspace, currency)
  {
    if workspace.None? {
      return Source(id, "pair", Errored, "", None, false);
    }
    var count := CountPairs(workspace.value, currency);
    source := Source(id, "pair", Ready, "", Some(count), false);
  }

  /* ---------------------------------------------------------------- what an empty report means */

  predicate AllClear(s: Source) { s.state.Ready? && !s.failed && s.count == Some(0) }

  lemma {:induction false} ZeroTotal(sources: seq<Source>)
    requires forall i :: 0 <= i < |sources| ==> sources[i].count.Some? && sources[i].count.value >= 0
    ensures Known(sources) >= 0
    ensures Known(sources) == 0 ==> forall i :: 0 <= i < |sources| ==> sources[i].count == Some(0)
    decreases |sources|
  {
    if sources != [] {
      ZeroTotal(sources[..|sources| - 1]);
    }
  }

  lemma ReadyHasCount(records: seq<Option<Record>>, workspace: Option<Workspace>, i: nat)
    requires |records| == 9 && i < 11
    requires forall k :: 0 <= k < 9 && records[k].Some? ==> records[k].value.count >= 0
    requires Summary(records, workspace)[i].state.Ready?
    ensures Summary(records, workspace)[i].count.Some? && Summary(records, workspace)[i].count.value >= 0
  {
  }

  /** Nothing to do means just that: a complete report without failures and with total zero has every source
      ready, not failed, and counted as zero.  No unknown count can hide behind it. */
  lemma QuietMeansAllClear(records: seq<Option<Record>>, workspace: Option<Workspace>)
    requires |records| == 9
    requires forall k :: 0 <= k < 9 && records[k].Some? ==> records[k].value.count >= 0
    ensures var sources := Summary(records, workspace);
            AllReady(sources) && !AnyFailed(sources) && Known(sources) == 0
            <==> forall i :: 0 <= i < 11 ==> AllClear(sources[i])
  {
    var sources := Summary(records, workspace);
    if AllReady(sources) {
      forall i | 0 <= i < 11 ensures sources[i].count.Some? && sources[i].count.value >= 0 {
        ReadyHasCount(records, workspace, i);
      }
      ZeroTotal(sources);
      if forall i :: 0 <= i < 11 ==> AllClear(sources[i]) {
        ZerosSum(sources);
      }
    }
  }

  lemma {:induction false} ZerosSum(sources: seq<Source>)
    requires forall i :: 0 <= i < |sources| ==> sources[i].count == Some(0)
    ensures Known(sources) == 0
    decreases |sources|
  {
    if sources != [] {
      ZerosSum(sources[..|sources| - 1]);
    }
  }
}
