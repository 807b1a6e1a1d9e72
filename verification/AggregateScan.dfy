/**
 * Exact aggregate reads under one shared budget (server/estimate-aggregate-db.ts).
 *
 * A scan pages through a table in ascending id order.  Every row read, by any scan of the same
 * response, is charged to one budget; a scan that would pass it discards the whole response.
 */
module AggregateScan {
  import opened Wrappers

  const PAGE_SIZE: nat := 500
  const MAX_RECORDS: nat := 100_000
  const MAX_SAFE_INTEGER: nat := 9_007_199_254_740_991

  /** A stored row: its key in the id order, its tenant and the columns the reader projects. */
  datatype Row<+T> = Row(id: nat, tenant: string, data: T)

  datatype LeadData = LeadData(status: Option<string>, convertedProject: Option<nat>)

  /** One repeatable-read snapshot: each table in id order. */
  datatype Snapshot<+E> = Snapshot(estimates: seq<Row<E>>, leads: seq<Row<LeadData>>)

  datatype ScanOutcome = Complete | BudgetExceeded | CountOverflow

  datatype Reason = DbUnavailable | IncompleteScan | Overflow

  datatype Response<+R> = Available(result: R) | Unavailable(reason: Reason) | TenantScopeError | InternalError

  predicate Keyed<T>(table: seq<Row<T>>) {
    forall i, j :: 0 <= i < j < |table| ==> table[i].id < table[j].id
  }

  /** The rows of a table that satisfy the query's fixed condition, in id order. */
  function Filter<T>(table: seq<Row<T>>, wanted: Row<T> -> bool): seq<Row<T>> {
    if table == [] then []
    else if wanted(table[0]) then [table[0]] + Filter(table[1..], wanted)
    else Filter(table[1..], wanted)
  }

  predicate After(cursor: Option<nat>, id: nat) {
    match cursor case None => true case Some(c) => id > c
  }

  /** The rows that satisfy the fixed condition and lie past the cursor, in id order. */
  function Select<T>(table: seq<Row<T>>, wanted: Row<T> -> bool, cursor: Option<nat>): seq<Row<T>> {
    if table == [] then []
    else if wanted(table[0]) && After(cursor, table[0].id) then [table[0]] + Select(table[1..], wanted, cursor)
    else Select(table[1..], wanted, cursor)
  }

  /** One SELECT: the fixed condition, the cursor condition, ascending ids and a limit. */
  function ReadPage<T>(table: seq<Row<T>>, wanted: Row<T> -> bool, cursor: Option<nat>, limit: nat): seq<Row<T>> {
    FirstOf(Select(table, wanted, cursor), limit)
  }

  function FirstOf<T>(rows: seq<Row<T>>, limit: nat): seq<Row<T>> {
    if |rows| <= limit then rows else rows[..limit]
  }

  /** Addition that refuses to leave the exact integers. */
  function CheckedCount(a: nat, b: nat): Option<nat> {
    if a > MAX_SAFE_INTEGER || b > MAX_SAFE_INTEGER - a then None else Some(a + b)
  }

  lemma {:induction false} FilterMember<T>(table: seq<Row<T>>, wanted: Row<T> -> bool, r: Row<T>)
    ensures r in Filter(table, wanted) <==> r in table && wanted(r)
  {
    if table != [] {
      FilterMember(table[1..], wanted, r);
      assert table == [table[0]] + table[1..];
    }
  }

  lemma {:induction false} FilterKeyed<T>(table: seq<Row<T>>, wanted: Row<T> -> bool)
    requires Keyed(table)
    ensures Keyed(Filter(table, wanted))
  {
    if table != [] {
      var rest := table[1..];
      FilterKeyed(rest, wanted);
      var kept := Filter(rest, wanted);
      forall i | 0 <= i < |kept|
        ensures table[0].id < kept[i].id
      {
        FilterMember(rest, wanted, kept[i]);
        var k :| 0 <= k < |rest| && rest[k] == kept[i];
        assert table[k + 1] == rest[k];
      }
    }
  }

  /** Rows past a cursor that cuts the population at n are the population from n on. */
  lemma {:induction false} SelectSuffix<T>(table: seq<Row<T>>, wanted: Row<T> -> bool, cursor: Option<nat>, n: nat)
    requires n <= |Filter(table, wanted)|
    requires forall i :: 0 <= i < |Filter(table, wanted)| ==> (After(cursor, Filter(table, wanted)[i].id) <==> i >= n)
    ensures Select(table, wanted, cursor) == Filter(table, wanted)[n..]
  {
    if table != [] {
      var rest := Filter(table[1..], wanted);
      if wanted(table[0]) {
        var all := Filter(table, wanted);
        assert all == [table[0]] + rest && all[0] == table[0];
        assert forall i :: 0 <= i < |rest| ==> rest[i] == all[i + 1];
        SelectSuffix(table[1..], wanted, cursor, if n == 0 then 0 else n - 1);
        assert n > 0 ==> all[n..] == rest[n - 1..];
      } else {
        SelectSuffix(table[1..], wanted, cursor, n);
      }
    }
  }

  /** The cursor after n consumed rows: the id of the last one. */
  function CursorAt<T>(rows: seq<Row<T>>, n: nat): Option<nat>
    requires n <= |rows|
  {
    if n == 0 then None else Some(rows[n - 1].id)
  }

  /** The cursor after n consumed rows separates them from the others. */
  lemma CursorCuts<T>(rows: seq<Row<T>>, n: nat)
    requires Keyed(rows) && n <= |rows|
    ensures forall i :: 0 <= i < |rows| ==> (After(CursorAt(rows, n), rows[i].id) <==> i >= n)
  {
  }

  /** A page resumes exactly where the previous one stopped. */
  lemma PageIsSlice<T>(table: seq<Row<T>>, wanted: Row<T> -> bool, n: nat, limit: nat)
    requires Keyed(table) && n <= |Filter(table, wanted)|
    ensures var rows := Filter(table, wanted);
            ReadPage(table, wanted, CursorAt(rows, n), limit)
              == rows[n..if n + limit <= |rows| then n + limit else |rows|]
  {
    var rows := Filter(table, wanted);
    FilterKeyed(table, wanted);
    CursorCuts(rows, n);
    SelectSuffix(table, wanted, CursorAt(rows, n), n);
    assert ReadPage(table, wanted, CursorAt(rows, n), limit) == FirstOf(rows[n..], limit);
  }

  /** Reading one page extends the consumed prefix, and a short page ends the population. */
  lemma NextPage<T>(table: seq<Row<T>>, wanted: Row<T> -> bool, n: nat, limit: nat)
    requires Keyed(table) && n <= |Filter(table, wanted)| && limit > 0
    ensures var rows := Filter(table, wanted);
            var page := ReadPage(table, wanted, CursorAt(rows, n), limit);
            && n + |page| <= |rows| && |page| <= limit && rows[..n] + page == rows[..n + |page|]
            && (|page| < limit ==> n + |page| == |rows|)
            && (|page| > 0 ==> CursorAt(rows, n + |page|) == Some(page[|page| - 1].id))
  {
    var rows := Filter(table, wanted);
    PageIsSlice(table, wanted, n, limit);
    SliceExtends(rows, n, limit, ReadPage(table, wanted, CursorAt(rows, n), limit));
  }

  lemma SliceExtends<T>(rows: seq<Row<T>>, n: nat, limit: nat, page: seq<Row<T>>)
    requires n <= |rows| && limit > 0
    requires page == rows[n..if n + limit <= |rows| then n + limit else |rows|]
    ensures n + |page| <= |rows| && |page| <= limit && rows[..n] + page == rows[..n + |page|]
    ensures |page| < limit ==> n + |page| == |rows|
    ensures |page| > 0 ==> CursorAt(rows, n + |page|) == Some(page[|page| - 1].id)
  {
  }

  /** A page is never larger than the remaining room plus one, so that a full budget still shows an excess. */
  function PageLimit(records: nat): (limit: nat)
    requires records <= MAX_RECORDS
    ensures 1 <= limit <= PAGE_SIZE && limit <= MAX_RECORDS - records + 1
  {
    var room := MAX_RECORDS - records + 1;
    if PAGE_SIZE <= room then PAGE_SIZE else room
  }

  /** A full page that stays within the budget has the full size. */
  lemma FullPage(size: nat, limit: nat, records: nat)
    requires size <= records <= MAX_RECORDS && limit == PageLimit(records - size) && size == limit
    ensures size == PAGE_SIZE
  {
  }

  /** Full pages and one short page: the number of reads. */
  lemma PageCount(n: nat, full: nat, last: nat)
    requires n == PAGE_SIZE * full + last && last < PAGE_SIZE
    ensures n / PAGE_SIZE == full
  {
  }

  class ScanBudget {
    var records: nat

    constructor ()
      ensures records == 0
    {
      records := 0;
    }
  }

  /**
   * The endless paging loop.  It either consumes the whole population once, in order, or reports
   * the exceeded budget; and it never overflows the counter.
   */
  method Scan<T>(budget: ScanBudget, table: seq<Row<T>>, wanted: Row<T> -> bool)
    returns (outcome: ScanOutcome, rows: seq<Row<T>>, ghost pages: nat)
    requires Keyed(table) && budget.records <= 100_000
    modifies budget
    ensures outcome == if old(budget.records) + |Filter(table, wanted)| <= 100_000 then Complete else BudgetExceeded
    ensures outcome == Complete ==>
              && rows == Filter(table, wanted)
              && budget.records == old(budget.records) + |rows|
              && pages == |rows| / 500 + 1
    ensures outcome == BudgetExceeded ==> 100_000 < budget.records <= old(budget.records) + |Filter(table, wanted)|
  {
    ghost var population := Filter(table, wanted);
    var cursor: Option<nat> := None;
    rows, pages := [], 0;
    while true
      invariant |rows| <= |population| && rows == population[..|rows|]
      invariant cursor == CursorAt(population, |rows|)
      invariant budget.records == old(budget.records) + |rows| <= MAX_RECORDS
      invariant |rows| == PAGE_SIZE * pages
      decreases |population| - |rows|
    {
      var limit := PageLimit(budget.records);
      var page := ReadPage(table, wanted, cursor, limit);
      NextPage(table, wanted, |rows|, limit);
      assert rows + page == population[..|rows| + |page|];
      pages := pages + 1;
      var total := CheckedCount(budget.records, |page|);
      if total == None {
        return CountOverflow, rows, pages;
      }
      budget.records := total.value;
      if budget.records > MAX_RECORDS {
        return BudgetExceeded, rows, pages;
      }
      rows := rows + page;
      if |page| < limit {
        assert rows == population;
        PageCount(|rows|, pages - 1, |page|);
        return Complete, rows, pages;
      }
      FullPage(|page|, limit, budget.records);
      cursor := Some(page[|page| - 1].id);
    }
  }

  predicate EstimateOf<E>(tenant: string, r: Row<E>) {
    r.tenant == tenant
  }

  const CLOSED_STATUSES: set<string> := {"won", "lost", "disqualified", "converted"}

  /** A missing status makes the NOT IN condition unknown, so the row is not selected. */
  predicate OpenLeadOf(tenant: string, r: Row<LeadData>) {
    && r.tenant == tenant
    && r.data.status.Some?
    && r.data.status.value !in CLOSED_STATUSES
    && r.data.convertedProject == None
  }

  function Estimates<E>(db: Snapshot<E>, tenant: string): seq<Row<E>> {
    Filter(db.estimates, (r: Row<E>) => EstimateOf(tenant, r))
  }

  function OpenLeads<E>(db: Snapshot<E>, tenant: string): seq<Row<LeadData>> {
    Filter(db.leads, (r: Row<LeadData>) => OpenLeadOf(tenant, r))
  }

  /** The two populations the pipeline is computed from. */
  datatype PipelineInput<+E> = PipelineInput(estimates: seq<Row<E>>, leads: seq<Row<LeadData>>)

  /** Statistics read the estimates alone. */
  method GetExactEstimateStats<E>(db: Option<Snapshot<E>>, tenant: string) returns (response: Response<seq<Row<E>>>)
    requires db.Some? ==> Keyed(db.value.estimates)
    ensures response ==
      if tenant == "" then TenantScopeError
      else if db == None then Unavailable(DbUnavailable)
      else if |Estimates(db.value, tenant)| <= 100_000 then Available(Estimates(db.value, tenant))
      else Unavailable(IncompleteScan)
  {
    if tenant == "" { return TenantScopeError; }
    if db == None { return Unavailable(DbUnavailable); }
    var budget := new ScanBudget();
    var outcome, rows, _ := Scan(budget, db.value.estimates, (r: Row<E>) => EstimateOf(tenant, r));
    match outcome
    case Complete => return Available(rows);
    case BudgetExceeded => return Unavailable(IncompleteScan);
    case CountOverflow => return Unavailable(Overflow);
  }

  /** The pipeline reads estimates, then open leads, on one budget: both complete or neither counts. */
  method GetExactEstimatePipeline<E>(db: Option<Snapshot<E>>, tenant: string)
    returns (response: Response<PipelineInput<E>>, ghost pages: nat)
    requires db.Some? ==> Keyed(db.value.estimates) && Keyed(db.value.leads)
    ensures response ==
      if tenant == "" then TenantScopeError
      else if db == None then Unavailable(DbUnavailable)
      else if |Estimates(db.value, tenant)| + |OpenLeads(db.value, tenant)| <= 100_000 then
        Available(PipelineInput(Estimates(db.value, tenant), OpenLeads(db.value, tenant)))
      else Unavailable(IncompleteScan)
    ensures response.Available? ==>
      pages == |Estimates(db.value, tenant)| / 500 + |OpenLeads(db.value, tenant)| / 500 + 2
  {
    pages := 0;
    if tenant == "" { return TenantScopeError, 0; }
    if db == None { return Unavailable(DbUnavailable), 0; }
    var budget := new ScanBudget();
    var first, estimates, firstReads := Scan(budget, db.value.estimates, (r: Row<E>) => EstimateOf(tenant, r));
    if first == CountOverflow { return Unavailable(Overflow), firstReads; }
    if first == BudgetExceeded { return Unavailable(IncompleteScan), firstReads; }
    var second, leads, secondReads := Scan(budget, db.value.leads, (r: Row<LeadData>) => OpenLeadOf(tenant, r));
    pages := firstReads + secondReads;
    if second == CountOverflow { return Unavailable(Overflow), pages; }
    if second == BudgetExceeded { return Unavailable(IncompleteScan), pages; }
    for i := 0 to |leads|
      invariant second == Complete && leads == OpenLeads(db.value, tenant)
    {
      FilterMember(db.value.leads, (r: Row<LeadData>) => OpenLeadOf(tenant, r), leads[i]);
      if leads[i].data.status == None {
        return InternalError, pages;
      }
    }
    response := Available(PipelineInput(estimates, leads));
  }

  /** The statistics are of the tenant's estimates, all of them, each once and in id order. */
  lemma EstimatesExact<E>(db: Snapshot<E>, tenant: string)
    requires Keyed(db.estimates)
    ensures forall r :: r in Estimates(db, tenant) <==> r in db.estimates && r.tenant == tenant
    ensures Keyed(Estimates(db, tenant))
  {
    PopulationExact(db.estimates, (r: Row<E>) => EstimateOf(tenant, r));
  }

  /** The leads of the pipeline are the tenant's open, unconverted ones with a status, all of them. */
  lemma OpenLeadsExact<E>(db: Snapshot<E>, tenant: string)
    requires Keyed(db.leads)
    ensures forall r :: r in OpenLeads(db, tenant) <==>
              && r in db.leads && r.tenant == tenant && r.data.convertedProject == None
              && r.data.status.Some? && r.data.status != Some("won") && r.data.status != Some("lost")
              && r.data.status != Some("disqualified") && r.data.status != Some("converted")
    ensures Keyed(OpenLeads(db, tenant))
  {
    var wanted := (r: Row<LeadData>) => OpenLeadOf(tenant, r);
    assert OpenLeads(db, tenant) == Filter(db.leads, wanted);
    PopulationExact(db.leads, wanted);
    forall r
      ensures r in OpenLeads(db, tenant) <==>
                && r in db.leads && r.tenant == tenant && r.data.convertedProject == None
                && r.data.status.Some? && r.data.status != Some("won") && r.data.status != Some("lost")
                && r.data.status != Some("disqualified") && r.data.status != Some("converted")
    {
      FilterMember(db.leads, wanted, r);
      OpenMeans(r.data.status);
    }
  }

  lemma OpenMeans(status: Option<string>)
    ensures status.Some? ==>
              (status.value in CLOSED_STATUSES <==>
               status.value == "won" || status.value == "lost" || status.value == "disqualified"
               || status.value == "converted")
  {
  }

  /** Each scanned population holds exactly the selected rows of the table, once each, in id order. */
  lemma PopulationExact<T>(table: seq<Row<T>>, wanted: Row<T> -> bool)
    requires Keyed(table)
    ensures forall r :: r in Filter(table, wanted) <==> r in table && wanted(r)
    ensures Keyed(Filter(table, wanted))
  {
    FilterKeyed(table, wanted);
    forall r
      ensures r in Filter(table, wanted) <==> r in table && wanted(r)
    {
      FilterMember(table, wanted, r);
    }
  }
}
