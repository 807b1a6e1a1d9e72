/**
 * The cost dashboard: committed costs of a project grouped by category (server/actuals-db.ts).
 */
module ActualsByCategory {
  import opened Wrappers
  import opened ActualsLedger

  const LIST_LIMIT: nat := 2000

  datatype Bucket = Bucket(category: string, amountCents: int, count: nat)

  predicate Booked(row: Actual) {
    IsCommitted(Resolve(row.status))
  }

  function CategoryOf(row: Actual): string {
    if row.category.Some? then row.category.value else "other"
  }

  /** Counts of the booked rows of one category. */
  function AmountIn(listed: seq<Actual>, category: string): int {
    if listed == [] then 0
    else
      var row := listed[|listed| - 1];
      AmountIn(listed[..|listed| - 1], category)
      + (if Booked(row) && CategoryOf(row) == category then row.amountCents else 0)
  }

  function CountIn(listed: seq<Actual>, category: string): nat {
    if listed == [] then 0
    else
      var row := listed[|listed| - 1];
      CountIn(listed[..|listed| - 1], category)
      + (if Booked(row) && CategoryOf(row) == category then 1 else 0)
  }

  /** Row by row: an approved or paid row counts once, with its amount, in its category or in "other". */
  lemma CategoryByRow(listed: seq<Actual>, row: Actual, category: string)
    ensures var books := (row.status == Named(Approved) || row.status == Named(Paid))
                         && (row.category == Some(category) || (row.category == None && category == "other"));
            && AmountIn(listed + [row], category) == AmountIn(listed, category) + (if books then row.amountCents else 0)
            && CountIn(listed + [row], category) == CountIn(listed, category) + (if books then 1 else 0)
  {
    assert (listed + [row])[..|listed|] == listed;
  }

  function BookedCount(listed: seq<Actual>): nat {
    if listed == [] then 0
    else BookedCount(listed[..|listed| - 1]) + (if Booked(listed[|listed| - 1]) then 1 else 0)
  }

  function BookedAmount(listed: seq<Actual>): int {
    if listed == [] then 0
    else
      var row := listed[|listed| - 1];
      BookedAmount(listed[..|listed| - 1]) + (if Booked(row) then row.amountCents else 0)
  }

  function TotalAmount(buckets: seq<Bucket>): int {
    if buckets == [] then 0 else buckets[0].amountCents + TotalAmount(buckets[1..])
  }

  function TotalCount(buckets: seq<Bucket>): nat {
    if buckets == [] then 0 else buckets[0].count + TotalCount(buckets[1..])
  }

  /** Adds a booked row to its bucket; a new category goes last, as in an insertion-ordered map. */
  function AddTo(buckets: seq<Bucket>, row: Actual): seq<Bucket> {
    if buckets == [] then [Bucket(CategoryOf(row), row.amountCents, 1)]
    else if buckets[0].category == CategoryOf(row) then
      [Bucket(buckets[0].category, buckets[0].amountCents + row.amountCents, buckets[0].count + 1)] + buckets[1..]
    else [buckets[0]] + AddTo(buckets[1..], row)
  }

  predicate DistinctCategories(buckets: seq<Bucket>) {
    forall i, j :: 0 <= i < j < |buckets| ==> buckets[i].category != buckets[j].category
  }

  /** The bucket of a category, or an empty one. */
  function Holding(buckets: seq<Bucket>, category: string): Bucket {
    if buckets == [] then Bucket(category, 0, 0)
    else if buckets[0].category == category then buckets[0]
    else Holding(buckets[1..], category)
  }

  lemma AddToUnfolds(buckets: seq<Bucket>, row: Actual)
    requires buckets != []
    ensures var next := AddTo(buckets, row);
            && next != []
            && next[1..] == (if buckets[0].category == CategoryOf(row) then buckets[1..] else AddTo(buckets[1..], row))
  {
  }

  lemma {:induction false} AddToTotals(buckets: seq<Bucket>, row: Actual)
    ensures TotalAmount(AddTo(buckets, row)) == TotalAmount(buckets) + row.amountCents
    ensures TotalCount(AddTo(buckets, row)) == TotalCount(buckets) + 1
  {
    if buckets != [] {
      AddToTotals(buckets[1..], row);
      AddToUnfolds(buckets, row);
    }
  }

  lemma {:induction false} AddToHolds(buckets: seq<Bucket>, row: Actual, category: string)
    ensures Holding(AddTo(buckets, row), category)
         == (var b := Holding(buckets, category);
             if category == CategoryOf(row) then Bucket(category, b.amountCents + row.amountCents, b.count + 1) else b)
  {
    if buckets != [] {
      AddToHolds(buckets[1..], row, category);
      AddToUnfolds(buckets, row);
    }
  }

  predicate HasCategory(buckets: seq<Bucket>, category: string) {
    exists i :: 0 <= i < |buckets| && buckets[i].category == category
  }

  lemma {:induction false} AddToCategories(buckets: seq<Bucket>, row: Actual, category: string)
    ensures HasCategory(AddTo(buckets, row), category) ==> category == CategoryOf(row) || HasCategory(buckets, category)
  {
    if buckets != [] && HasCategory(AddTo(buckets, row), category) {
      var rest := buckets[1..];
      AddToCategories(rest, row, category);
      var i :| 0 <= i < |AddTo(buckets, row)| && AddTo(buckets, row)[i].category == category;
      if i == 0 {
        assert buckets[0].category == category;
      } else if buckets[0].category == CategoryOf(row) {
        assert buckets[i].category == category;
      } else {
        assert AddTo(rest, row)[i - 1].category == category;
        if HasCategory(rest, category) {
          var k :| 0 <= k < |rest| && rest[k].category == category;
          assert buckets[k + 1].category == category;
        }
      }
    }
  }

  lemma {:induction false} AddToDistinct(buckets: seq<Bucket>, row: Actual)
    requires DistinctCategories(buckets) && forall b :: b in buckets ==> b.count > 0
    ensures DistinctCategories(AddTo(buckets, row)) && forall b :: b in AddTo(buckets, row) ==> b.count > 0
  {
    if buckets != [] && buckets[0].category != CategoryOf(row) {
      var rest := buckets[1..];
      assert forall i :: 0 <= i < |rest| ==> rest[i] == buckets[i + 1];
      AddToDistinct(rest, row);
      var more := AddTo(rest, row);
      forall i | 0 <= i < |more|
        ensures more[i].category != buckets[0].category
      {
        AddToCategories(rest, row, more[i].category);
        if more[i].category != CategoryOf(row) {
          var k :| 0 <= k < |rest| && rest[k].category == more[i].category;
          assert buckets[k + 1] == rest[k];
        }
      }
    }
  }

  /** What the grouped map holds after some rows. */
  ghost predicate Groups(buckets: seq<Bucket>, listed: seq<Actual>) {
    && DistinctCategories(buckets)
    && (forall b :: b in buckets ==> b.count > 0)
    && TotalAmount(buckets) == BookedAmount(listed)
    && TotalCount(buckets) == BookedCount(listed)
    && forall c :: Holding(buckets, c) == Bucket(c, AmountIn(listed, c), CountIn(listed, c))
  }

  lemma {:induction false} MemberHolding(buckets: seq<Bucket>, b: Bucket)
    requires DistinctCategories(buckets) && b in buckets
    ensures Holding(buckets, b.category) == b
  {
    if buckets[0] != b {
      assert b in buckets[1..];
      var k :| 0 <= k < |buckets| && buckets[k] == b;
      assert forall i :: 0 <= i < |buckets[1..]| ==> buckets[1..][i] == buckets[i + 1];
      MemberHolding(buckets[1..], b);
    }
  }

  // The output order

  function InsertDescending(b: Bucket, s: seq<Bucket>): seq<Bucket> {
    if s == [] || s[0].amountCents <= b.amountCents then [b] + s else [s[0]] + InsertDescending(b, s[1..])
  }

  /** The stable sort by descending amount. */
  function SortDescending(s: seq<Bucket>): seq<Bucket> {
    if s == [] then [] else InsertDescending(s[0], SortDescending(s[1..]))
  }

  predicate Descending(s: seq<Bucket>) {
    forall i, j :: 0 <= i < j < |s| ==> s[i].amountCents >= s[j].amountCents
  }

  lemma {:induction false} InsertTotals(b: Bucket, s: seq<Bucket>)
    ensures var r := InsertDescending(b, s);
            && multiset(r) == multiset(s) + multiset{b}
            && TotalAmount(r) == TotalAmount(s) + b.amountCents && TotalCount(r) == TotalCount(s) + b.count
  {
    var r := InsertDescending(b, s);
    if s == [] || s[0].amountCents <= b.amountCents {
      assert r[1..] == s;
    } else {
      assert s == [s[0]] + s[1..];
      InsertTotals(b, s[1..]);
      assert r[1..] == InsertDescending(b, s[1..]);
    }
  }

  lemma {:induction false} InsertFrom(b: Bucket, s: seq<Bucket>, i: nat)
    requires i < |InsertDescending(b, s)|
    ensures var x := InsertDescending(b, s)[i];
            x == b || exists k :: 0 <= k < |s| && s[k] == x
  {
    if s != [] && s[0].amountCents > b.amountCents && i > 0 {
      InsertFrom(b, s[1..], i - 1);
      var x := InsertDescending(b, s)[i];
      if k :| 0 <= k < |s[1..]| && s[1..][k] == x {
        assert s[k + 1] == x;
      }
    }
  }

  lemma {:induction false} InsertDescends(b: Bucket, s: seq<Bucket>)
    requires Descending(s)
    ensures Descending(InsertDescending(b, s))
  {
    if s != [] && s[0].amountCents > b.amountCents {
      var rest := s[1..];
      assert forall i :: 0 <= i < |rest| ==> rest[i] == s[i + 1];
      InsertDescends(b, rest);
      var more := InsertDescending(b, rest);
      forall i | 0 <= i < |more|
        ensures s[0].amountCents >= more[i].amountCents
      {
        InsertFrom(b, rest, i);
      }
    }
  }

  lemma HeadOff(s: seq<Bucket>)
    requires s != []
    ensures multiset(s) == multiset{s[0]} + multiset(s[1..])
  {
    assert s == [s[0]] + s[1..];
  }

  lemma {:induction false} SortKeeps(s: seq<Bucket>)
    ensures var r := SortDescending(s);
            && Descending(r) && multiset(r) == multiset(s)
            && TotalAmount(r) == TotalAmount(s) && TotalCount(r) == TotalCount(s)
  {
    if s != [] {
      var rest := s[1..];
      SortKeeps(rest);
      var sorted := SortDescending(rest);
      InsertTotals(s[0], sorted);
      InsertDescends(s[0], sorted);
      HeadOff(s);
    }
  }

  lemma {:induction false} InsertDistinct(b: Bucket, s: seq<Bucket>)
    requires DistinctCategories(s) && !HasCategory(s, b.category)
    ensures DistinctCategories(InsertDescending(b, s))
  {
    if s != [] && s[0].amountCents > b.amountCents {
      var rest := s[1..];
      assert forall i :: 0 <= i < |rest| ==> rest[i] == s[i + 1];
      InsertDistinct(b, rest);
      var more := InsertDescending(b, rest);
      forall i | 0 <= i < |more|
        ensures s[0].category != more[i].category
      {
        InsertFrom(b, rest, i);
      }
    }
  }

  lemma {:induction false} SortDistinct(s: seq<Bucket>)
    requires DistinctCategories(s)
    ensures DistinctCategories(SortDescending(s))
  {
    if s != [] {
      var rest := s[1..];
      var sorted := SortDescending(rest);
      assert forall i :: 0 <= i < |rest| ==> rest[i] == s[i + 1];
      SortDistinct(rest);
      SortKeeps(rest);
      forall i | 0 <= i < |sorted|
        ensures sorted[i].category != s[0].category
      {
        assert sorted[i] in multiset(rest);
        var k :| 0 <= k < |rest| && rest[k] == sorted[i];
      }
      InsertDistinct(s[0], sorted);
    }
  }

  /**
   * The grouping as written, over the rows the listing returned.  The buckets are exactly the
   * categories with committed cost, each with its sum and count, in descending amount.
   */
  method GetActualsByCategory(listed: seq<Actual>) returns (output: seq<Bucket>)
    ensures Descending(output) && DistinctCategories(output)
    ensures forall b :: b in output ==>
              b == Bucket(b.category, AmountIn(listed, b.category), CountIn(listed, b.category)) && b.count > 0
    ensures forall c :: CountIn(listed, c) > 0 ==> Bucket(c, AmountIn(listed, c), CountIn(listed, c)) in output
    ensures TotalAmount(output) == BookedAmount(listed)
    ensures TotalCount(output) == BookedCount(listed)
  {
    var grouped: seq<Bucket> := [];
    for i := 0 to |listed|
      invariant Groups(grouped, listed[..i])
    {
      var row := listed[i];
      assert listed[..i + 1][..i] == listed[..i];
      if Booked(row) {
        GroupsGrow(grouped, listed[..i], row, listed[..i + 1]);
        grouped := AddTo(grouped, row);
      }
    }
    assert listed[..|listed|] == listed;
    output := SortDescending(grouped);
    SortKeeps(grouped);
    SortDistinct(grouped);
    forall b | b in output
      ensures b == Bucket(b.category, AmountIn(listed, b.category), CountIn(listed, b.category)) && b.count > 0
    {
      assert b in multiset(output);
      MemberHolding(grouped, b);
    }
    forall c | CountIn(listed, c) > 0
      ensures Bucket(c, AmountIn(listed, c), CountIn(listed, c)) in output
    {
      HoldingMember(grouped, c);
      assert Holding(grouped, c) in multiset(grouped);
    }
  }

  lemma GroupsGrow(buckets: seq<Bucket>, listed: seq<Actual>, row: Actual, next: seq<Actual>)
    requires Groups(buckets, listed) && Booked(row) && next == listed + [row]
    ensures Groups(AddTo(buckets, row), next)
  {
    AddToDistinct(buckets, row);
    AddToTotals(buckets, row);
    assert next[..|listed|] == listed;
    forall c
      ensures Holding(AddTo(buckets, row), c) == Bucket(c, AmountIn(next, c), CountIn(next, c))
    {
      AddToHolds(buckets, row, c);
    }
  }

  lemma {:induction false} HoldingMember(buckets: seq<Bucket>, c: string)
    requires Holding(buckets, c).count > 0
    ensures Holding(buckets, c) in buckets
  {
    if buckets[0].category != c {
      HoldingMember(buckets[1..], c);
    }
  }

  // The dashboard and the refreshed cache agree

  function LiveRows(rows: seq<Actual>, project: Id): seq<Actual> {
    if rows == [] then []
    else
      LiveRows(rows[..|rows| - 1], project) +
      (if Live(rows[|rows| - 1], project) then [rows[|rows| - 1]] else [])
  }

  lemma {:induction false} LiveAmount(rows: seq<Actual>, project: Id)
    ensures BookedAmount(LiveRows(rows, project)) == CommittedSum(rows, project)
  {
    if rows != [] {
      var init := rows[..|rows| - 1];
      LiveAmount(init, project);
      if Live(rows[|rows| - 1], project) {
        var live := LiveRows(rows, project);
        assert live[|live| - 1] == rows[|rows| - 1] && live[..|live| - 1] == LiveRows(init, project);
      } else {
        assert LiveRows(rows, project) == LiveRows(init, project);
      }
    }
  }

  lemma {:induction false} BookedAppend(a: seq<Actual>, b: seq<Actual>)
    ensures BookedAmount(a + b) == BookedAmount(a) + BookedAmount(b)
    ensures BookedCount(a + b) == BookedCount(a) + BookedCount(b)
    decreases |b|
  {
    if b == [] {
      assert a + b == a;
    } else {
      var init, last := b[..|b| - 1], b[|b| - 1];
      BookedAppend(a, init);
      assert (a + b)[..|a + b| - 1] == a + init;
      assert (a + b)[|a + b| - 1] == last;
    }
  }

  function Without(b: seq<Actual>, i: nat): seq<Actual>
    requires i < |b|
  {
    b[..i] + b[i + 1..]
  }

  lemma WithoutSplits(b: seq<Actual>, i: nat)
    requires i < |b|
    ensures multiset(b) == multiset(Without(b, i)) + multiset{b[i]}
    ensures BookedAmount(b) == BookedAmount(Without(b, i)) + BookedAmount([b[i]])
    ensures BookedCount(b) == BookedCount(Without(b, i)) + BookedCount([b[i]])
  {
    SliceOut(b, i);
    PiecesSplit(b[..i], b[i], b[i + 1..]);
    PiecesCount(b[..i], b[i], b[i + 1..]);
  }

  lemma SliceOut(b: seq<Actual>, i: nat)
    requires i < |b|
    ensures b == b[..i] + ([b[i]] + b[i + 1..])
  {
  }

  lemma PiecesSplit(p: seq<Actual>, x: Actual, r: seq<Actual>)
    ensures multiset(p + ([x] + r)) == multiset(p + r) + multiset{x}
  {
    assert multiset([x] + r) == multiset{x} + multiset(r);
  }

  lemma PiecesCount(p: seq<Actual>, x: Actual, r: seq<Actual>)
    ensures BookedAmount(p + ([x] + r)) == BookedAmount(p + r) + BookedAmount([x])
    ensures BookedCount(p + ([x] + r)) == BookedCount(p + r) + BookedCount([x])
  {
    BookedAppend(p, [x] + r);
    BookedAppend([x], r);
    BookedAppend(p, r);
  }

  /** Totals do not depend on the order of the listing. */
  lemma {:induction false} BookedPermutes(a: seq<Actual>, b: seq<Actual>)
    requires multiset(a) == multiset(b)
    ensures BookedAmount(a) == BookedAmount(b) && BookedCount(a) == BookedCount(b)
    decreases |a|
  {
    if a == [] {
      assert |multiset(b)| == |b|;
    } else {
      var x := a[0];
      assert x in multiset(b);
      var i :| 0 <= i < |b| && b[i] == x;
      WithoutSplits(a, 0);
      WithoutSplits(b, i);
      SameRest(multiset(Without(a, 0)), multiset(Without(b, i)), x);
      BookedPermutes(Without(a, 0), Without(b, i));
    }
  }

  lemma SameRest(a: multiset<Actual>, b: multiset<Actual>, x: Actual)
    requires a + multiset{x} == b + multiset{x}
    ensures a == b
  {
    assert a == (a + multiset{x}) - multiset{x};
    assert b == (b + multiset{x}) - multiset{x};
  }

  /** What the listing may return: the live rows in some order, cut at the limit. */
  ghost predicate IsListing(s: Store, project: Id, listed: seq<Actual>) {
    exists order: seq<Actual> ::
      && multiset(order) == multiset(LiveRows(s.rows, project))
      && listed == if |order| <= LIST_LIMIT then order else order[..LIST_LIMIT]
  }

  /**
   * For a project within the listing limit, in whatever order its live rows are listed, the
   * buckets sum to the total a refresh caches and count every committed row once.
   */
  lemma DashboardMatchesLedger(s: Store, project: Id, tenant: Id, listed: seq<Actual>)
    requires |LiveRows(s.rows, project)| <= LIST_LIMIT
    requires IsListing(s, project, listed)
    requires RefreshLedger(s, project, tenant).Ok?
    ensures BookedAmount(listed) == RefreshLedger(s, project, tenant).value.projects[project].committedCostCents
    ensures BookedCount(listed) == BookedCount(LiveRows(s.rows, project))
  {
    var order: seq<Actual> :|
      && multiset(order) == multiset(LiveRows(s.rows, project))
      && listed == if |order| <= LIST_LIMIT then order else order[..LIST_LIMIT];
    assert |order| == |multiset(order)| == |LiveRows(s.rows, project)|;
    BookedPermutes(listed, LiveRows(s.rows, project));
    LiveAmount(s.rows, project);
  }
}
