/**
 * Offline reconciliation of a migration ledger with the local journal
 * (scripts/migration-history-reconcile.ts).
 */
module MigrationReconcile {
  import opened Wrappers
  import opened Collections
  import opened Texts

  /** A journal entry as parsed; its file hash is computed beside it. */
  datatype Entry = Entry(idx: nat, tag: Text, createdAt: Text)

  datatype Migration = Migration(tag: Text, createdAt: Text, sha256: Text)
  {
    function Pair(): LedgerRow {
      LedgerRow(createdAt, sha256)
    }
  }

  datatype LedgerRow = LedgerRow(createdAt: Text, hash: Text)

  datatype StatementRow = StatementRow(version: Text)

  /** The collected metadata of both ledgers; an unavailable ledger has no rows. */
  datatype Snapshot = Snapshot(
    drizzleAvailable: bool,
    drizzleRows: seq<LedgerRow>,
    supabaseAvailable: bool,
    supabaseRows: seq<StatementRow>)

  predicate WellShaped(s: Snapshot) {
    (s.drizzleAvailable || s.drizzleRows == []) && (s.supabaseAvailable || s.supabaseRows == [])
  }

  datatype Identity = UnavailableIdentity | Mismatch | Match

  datatype Report = Report(
    drizzleIdentity: Identity,
    evidenceComplete: bool,
    matchedLocalTags: seq<Text>,
    missingLocalTags: seq<Text>,
    conflictingLocalTags: seq<Text>,
    duplicateCreatedAt: seq<Text>,
    unexpectedRowCount: nat,
    duplicateVersions: seq<Text>)

  lemma {:induction false} DistinctCount<T>(s: seq<T>, x: T)
    requires Distinct(s)
    ensures multiset(s)[x] == if x in s then 1 else 0
  {
    if s != [] {
      var last := |s| - 1;
      assert s == s[..last] + [s[last]];
      DistinctCount(s[..last], x);
    }
  }

  lemma DistinctPermutation<T>(a: seq<T>, b: seq<T>)
    requires Distinct(a) && Distinct(b)
    requires forall x :: x in a <==> x in b
    ensures multiset(a) == multiset(b)
  {
    forall x
      ensures multiset(a)[x] == multiset(b)[x]
    {
      DistinctCount(a, x);
      DistinctCount(b, x);
    }
  }

  lemma RepeatCounts<T>(s: seq<T>, i: nat, j: nat)
    requires i < j < |s| && s[i] == s[j]
    ensures multiset(s)[s[i]] > 1
  {
    assert s == s[..j] + s[j..];
    assert s[i] in s[..j] && s[j] in s[j..];
    assert multiset(s) == multiset(s[..j]) + multiset(s[j..]);
  }

  // ---------------------------------------------------------------------------------------------
  // The journal

  /** One column of a list. */
  function Column<T, C>(rows: seq<T>, of: T -> C): (r: seq<C>)
    ensures |r| == |rows| && forall i :: 0 <= i < |r| ==> r[i] == of(rows[i])
  {
    seq(|rows|, i requires 0 <= i < |rows| => of(rows[i]))
  }

  function Tags(entries: seq<Entry>): seq<Text> {
    Column(entries, (e: Entry) => e.tag)
  }

  function Times(entries: seq<Entry>): seq<Text> {
    Column(entries, (e: Entry) => e.createdAt)
  }

  /** What the loader guarantees about the local list: tags and times identify a migration. */
  predicate Manifest(local: seq<Migration>) {
    && (forall i, j :: 0 <= i < j < |local| ==> local[i].tag != local[j].tag)
    && (forall i, j :: 0 <= i < j < |local| ==> local[i].createdAt != local[j].createdAt)
  }

  /** Loads the journal; the hash of each file is read beside its entry. */
  method LoadLocalMigrations(entries: seq<Entry>, hashes: map<Text, Text>) returns (local: Option<seq<Migration>>)
    ensures local.Some? <==>
              && (forall i :: 0 <= i < |entries| ==> entries[i].idx == i && entries[i].tag in hashes)
              && Distinct(Tags(entries)) && Distinct(Times(entries))
    ensures local.Some? ==> Manifest(local.value) && |local.value| == |entries|
    ensures local.Some? ==> forall i :: 0 <= i < |entries| ==>
              local.value[i] == Migration(entries[i].tag, entries[i].createdAt, hashes[entries[i].tag])
  {
    SizeMeansDistinct(Tags(entries));
    SizeMeansDistinct(Times(entries));
    if |set t | t in Tags(entries)| != |entries| || |set t | t in Times(entries)| != |entries| {
      return None;
    }
    var migrations: seq<Migration> := [];
    for i := 0 to |entries|
      invariant |migrations| == i
      invariant forall k :: 0 <= k < i ==>
                  && entries[k].idx == k && entries[k].tag in hashes
                  && migrations[k] == Migration(entries[k].tag, entries[k].createdAt, hashes[entries[k].tag])
    {
      if entries[i].idx != i || entries[i].tag !in hashes {
        return None;
      }
      migrations := migrations + [Migration(entries[i].tag, entries[i].createdAt, hashes[entries[i].tag])];
    }
    assert Manifest(migrations) by {
      forall i, j | 0 <= i < j < |migrations|
        ensures migrations[i].tag != migrations[j].tag && migrations[i].createdAt != migrations[j].createdAt
      {
        assert Tags(entries)[i] != Tags(entries)[j] && Times(entries)[i] != Times(entries)[j];
      }
    }
    return Some(migrations);
  }

  // ---------------------------------------------------------------------------------------------
  // Duplicates

  /** The values in order of first occurrence, and how often each occurs. */
  method CountValues(values: seq<Text>) returns (keys: seq<Text>, counts: map<Text, nat>)
    ensures Distinct(keys) && forall v :: v in keys <==> v in counts
    ensures forall v :: v !in counts ==> multiset(values)[v] == 0
    ensures forall v :: v in counts ==> counts[v] == multiset(values)[v]
  {
    keys, counts := [], map[];
    for i := 0 to |values|
      invariant Distinct(keys) && forall v :: v in keys <==> v in counts
      invariant forall v :: v in counts ==> counts[v] == multiset(values[..i])[v]
      invariant forall v :: v !in counts ==> multiset(values[..i])[v] == 0
    {
      var v := values[i];
      assert values[..i + 1] == values[..i] + [v];
      if v !in counts {
        keys := keys + [v];
      }
      counts := counts[v := (if v in counts then counts[v] else 0) + 1];
    }
    assert values[..|values|] == values;
  }

  /** The values that occur more than once, each once, in ascending order. */
  method DuplicateValues(values: seq<Text>) returns (duplicates: seq<Text>)
    ensures forall v :: v in duplicates <==> multiset(values)[v] > 1
    ensures forall i, j :: 0 <= i < j < |duplicates| ==> Less(duplicates[i], duplicates[j])
  {
    var keys, counts := CountValues(values);
    var repeated: seq<Text> := [];
    for i := 0 to |keys|
      invariant Distinct(repeated)
      invariant forall v :: v in repeated <==> v in keys[..i] && counts[v] > 1
    {
      assert keys[..i + 1] == keys[..i] + [keys[i]];
      if counts[keys[i]] > 1 {
        repeated := repeated + [keys[i]];
      }
    }
    assert keys[..|keys|] == keys;
    duplicates := SortTexts(repeated);
    assert DistinctKeys(Tagged(repeated));
    SortAscends(Tagged(repeated));
    forall v
      ensures v in duplicates <==> multiset(values)[v] > 1
    {
      SortTextsHolds(repeated, v);
    }
  }

  lemma NoRepeats(values: seq<Text>, duplicates: seq<Text>)
    requires forall v :: v in duplicates <==> multiset(values)[v] > 1
    ensures duplicates == [] <==> Distinct(values)
  {
    if duplicates == [] {
      forall i, j | 0 <= i < j < |values|
        ensures values[i] != values[j]
      {
        if values[i] == values[j] { RepeatCounts(values, i, j); }
      }
    }
    if duplicates != [] {
      assert duplicates[0] in duplicates;
      if Distinct(values) { DistinctCount(values, duplicates[0]); }
    }
  }

  // ---------------------------------------------------------------------------------------------
  // The reconciliation

  predicate Matched(rows: seq<LedgerRow>, m: Migration) {
    exists i :: 0 <= i < |rows| && rows[i].createdAt == m.createdAt && rows[i].hash == m.sha256
  }

  predicate Conflicting(rows: seq<LedgerRow>, m: Migration) {
    exists i :: 0 <= i < |rows| && rows[i].createdAt == m.createdAt && rows[i].hash != m.sha256
  }

  function Pairs(local: seq<Migration>): seq<LedgerRow> {
    Column(local, (m: Migration) => m.Pair())
  }

  function LocalTags(local: seq<Migration>): seq<Text> {
    Column(local, (m: Migration) => m.tag)
  }

  function CreatedAts(rows: seq<LedgerRow>): seq<Text> {
    Column(rows, (r: LedgerRow) => r.createdAt)
  }

  function Versions(rows: seq<StatementRow>): seq<Text> {
    Column(rows, (r: StatementRow) => r.version)
  }

  /** Nothing missing, nothing conflicting, no repeated time, nothing unexpected. */
  ghost predicate Clean(local: seq<Migration>, rows: seq<LedgerRow>) {
    && (forall m :: m in local ==> Matched(rows, m))
    && (forall m :: m in local ==> !Conflicting(rows, m))
    && Distinct(CreatedAts(rows))
    && (forall r :: r in rows ==> r in Pairs(local))
  }

  /** A clean ledger is exactly a permutation of the local migrations. */
  lemma CleanIsPermutation(local: seq<Migration>, rows: seq<LedgerRow>)
    requires Manifest(local)
    ensures Clean(local, rows) <==> multiset(rows) == multiset(Pairs(local))
  {
    var pairs := Pairs(local);
    assert Distinct(pairs);
    if Clean(local, rows) {
      forall i, j | 0 <= i < j < |rows|
        ensures rows[i] != rows[j]
      {
        assert CreatedAts(rows)[i] != CreatedAts(rows)[j];
      }
      forall x
        ensures x in rows <==> x in pairs
      {
        if x in pairs {
          var i :| 0 <= i < |pairs| && pairs[i] == x;
          assert Matched(rows, local[i]);
        }
      }
      DistinctPermutation(rows, pairs);
    }
    if multiset(rows) == multiset(pairs) {
      PermutationClean(local, rows);
    }
  }

  lemma SameMembers<T>(a: seq<T>, b: seq<T>, x: T)
    requires multiset(a) == multiset(b)
    ensures x in a <==> x in b
  {
    assert x in a <==> x in multiset(a);
    assert x in b <==> x in multiset(b);
  }

  lemma PermutationClean(local: seq<Migration>, rows: seq<LedgerRow>)
    requires Manifest(local) && multiset(rows) == multiset(Pairs(local))
    ensures Clean(local, rows)
  {
    var pairs := Pairs(local);
    assert Distinct(pairs);
    forall m | m in local
      ensures Matched(rows, m)
    {
      var i :| 0 <= i < |local| && local[i] == m;
      assert pairs[i] == m.Pair();
      SameMembers(rows, pairs, m.Pair());
      var k :| 0 <= k < |rows| && rows[k] == m.Pair();
    }
    forall r | r in rows
      ensures r in pairs
    {
      SameMembers(rows, pairs, r);
    }
    forall m, k | m in local && 0 <= k < |rows| && rows[k].createdAt == m.createdAt
      ensures rows[k].hash == m.sha256
    {
      SameMembers(rows, pairs, rows[k]);
      var i :| 0 <= i < |local| && local[i] == m;
      var j :| 0 <= j < |pairs| && pairs[j] == rows[k];
      assert i == j;
    }
    forall i, j | 0 <= i < j < |rows|
      ensures rows[i].createdAt != rows[j].createdAt
    {
      if rows[i].createdAt == rows[j].createdAt {
        SameMembers(rows, pairs, rows[i]);
        SameMembers(rows, pairs, rows[j]);
        var a :| 0 <= a < |pairs| && pairs[a] == rows[i];
        var b :| 0 <= b < |pairs| && pairs[b] == rows[j];
        assert a == b;
        RepeatCounts(rows, i, j);
        DistinctCount(pairs, rows[i]);
      }
    }
  }

  /** What the report must say about a ledger, available or not, in terms of the two lists. */
  ghost predicate Reports(local: seq<Migration>, snapshot: Snapshot, report: Report) {
    var rows := snapshot.drizzleRows;
    && report.drizzleIdentity
         == (if !snapshot.drizzleAvailable then UnavailableIdentity else if Clean(local, rows) then Match else Mismatch)
    && (!snapshot.drizzleAvailable ==>
          report.matchedLocalTags == [] && report.missingLocalTags == [] && report.conflictingLocalTags == [])
    && (snapshot.drizzleAvailable ==>
          && report.matchedLocalTags == TagsWhere(local, rows, IsMatched)
          && report.missingLocalTags == TagsWhere(local, rows, IsMissing)
          && report.conflictingLocalTags == TagsWhere(local, rows, IsConflicting))
    && report.unexpectedRowCount == CountUnexpected(local, rows)
    && (forall t :: t in report.duplicateCreatedAt <==> multiset(CreatedAts(rows))[t] > 1)
    && (forall t :: t in report.duplicateVersions <==> multiset(Versions(snapshot.supabaseRows))[t] > 1)
    && (report.evidenceComplete <==>
          && snapshot.drizzleAvailable && snapshot.supabaseAvailable
          && Distinct(CreatedAts(rows)) && Distinct(Versions(snapshot.supabaseRows)))
  }

  const NOTHING_OBSERVED := Snapshot(false, [], false, [])

  /** The reconciliation as written; no input means that neither ledger was observed. */
  method ReconcileMigrationHistory(local: seq<Migration>, input: Option<Snapshot>) returns (report: Option<Report>)
    requires Manifest(local)
    ensures report.Some? <==> (input.Some? ==> WellShaped(input.value))
    ensures report.Some? ==> Reports(local, if input.Some? then input.value else NOTHING_OBSERVED, report.value)
  {
    if input.Some? && !WellShaped(input.value) {
      return None;
    }
    var snapshot := if input.Some? then input.value else NOTHING_OBSERVED;
    var available := snapshot.drizzleAvailable;
    var matched, missing, conflicting, duplicateCreatedAt, unexpected :=
      CompareLedger(local, snapshot.drizzleRows, available);
    var mismatch := missing != [] || conflicting != [] || duplicateCreatedAt != [] || unexpected > 0;
    var duplicateVersions := DuplicateValues(Versions(snapshot.supabaseRows));
    NoRepeats(Versions(snapshot.supabaseRows), duplicateVersions);
    var complete := available && snapshot.supabaseAvailable && duplicateCreatedAt == [] && duplicateVersions == [];
    var identity := if !available then UnavailableIdentity else if mismatch then Mismatch else Match;
    assert identity
        == if !available then UnavailableIdentity
           else if Clean(local, snapshot.drizzleRows) then Match else Mismatch;
    report := Some(Report(
      identity, complete, matched, missing, conflicting, duplicateCreatedAt, unexpected, duplicateVersions));
    assert Reports(local, snapshot, report.value);
  }

  method CompareLedger(local: seq<Migration>, rows: seq<LedgerRow>, available: bool)
    returns (matched: seq<Text>, missing: seq<Text>, conflicting: seq<Text>, duplicates: seq<Text>, unexpected: nat)
    requires Manifest(local)
    ensures !available ==> matched == [] && missing == [] && conflicting == []
    ensures available ==> matched == TagsWhere(local, rows, IsMatched)
    ensures available ==> missing == TagsWhere(local, rows, IsMissing)
    ensures available ==> conflicting == TagsWhere(local, rows, IsConflicting)
    ensures forall t :: t in duplicates <==> multiset(CreatedAts(rows))[t] > 1
    ensures duplicates == [] <==> Distinct(CreatedAts(rows))
    ensures unexpected == CountUnexpected(local, rows)
    ensures available ==>
              (Clean(local, rows) <==> missing == [] && conflicting == [] && duplicates == [] && unexpected == 0)
  {
    duplicates := DuplicateValues(CreatedAts(rows));
    NoRepeats(CreatedAts(rows), duplicates);
    matched, missing, conflicting := [], [], [];
    if available {
      matched, missing, conflicting := ClassifyTags(local, rows);
    }
    unexpected := FilterUnexpected(local, rows);
    VerdictMeansClean(local, rows);
  }

  /** MATCH means: the ledger rows are the local migrations, each once, in some order. */
  lemma MatchIsPermutation(local: seq<Migration>, snapshot: Snapshot, report: Report)
    requires Manifest(local) && Reports(local, snapshot, report)
    ensures report.drizzleIdentity == Match <==>
              snapshot.drizzleAvailable && multiset(snapshot.drizzleRows) == multiset(Pairs(local))
    ensures report.drizzleIdentity == Match ==> |snapshot.drizzleRows| == |local|
  {
    CleanIsPermutation(local, snapshot.drizzleRows);
    assert |multiset(snapshot.drizzleRows)| == |snapshot.drizzleRows| && |multiset(Pairs(local))| == |local|;
  }

  /**
   * Matched and missing tags split the local list exactly when the ledger is available or there is
   * nothing to split; in an available ledger each tag is where its migration belongs.
   */
  lemma TagsPartition(local: seq<Migration>, snapshot: Snapshot, report: Report)
    requires Manifest(local) && Reports(local, snapshot, report)
    ensures multiset(report.matchedLocalTags) + multiset(report.missingLocalTags) == multiset(LocalTags(local))
       <==> snapshot.drizzleAvailable || local == []
    ensures snapshot.drizzleAvailable ==> forall m :: m in local ==>
              && (m.tag in report.matchedLocalTags <==> LedgerRow(m.createdAt, m.sha256) in snapshot.drizzleRows)
              && (m.tag in report.missingLocalTags <==> LedgerRow(m.createdAt, m.sha256) !in snapshot.drizzleRows)
              && (m.tag in report.conflictingLocalTags <==>
                  exists r :: r in snapshot.drizzleRows && r.createdAt == m.createdAt && r.hash != m.sha256)
  {
    var rows := snapshot.drizzleRows;
    TagsSplit(local, rows);
    assert |multiset(LocalTags(local))| == |local|;
    forall m | snapshot.drizzleAvailable && m in local
      ensures m.tag in report.matchedLocalTags <==> Matched(rows, m)
      ensures m.tag in report.missingLocalTags <==> !Matched(rows, m)
      ensures m.tag in report.conflictingLocalTags <==> Conflicting(rows, m)
    {
      TagOf(local, rows, IsMatched, m);
      TagOf(local, rows, IsMissing, m);
      TagOf(local, rows, IsConflicting, m);
    }
    forall m | snapshot.drizzleAvailable && m in local
      ensures Matched(rows, m) <==> LedgerRow(m.createdAt, m.sha256) in rows
      ensures Conflicting(rows, m) <==> exists r :: r in rows && r.createdAt == m.createdAt && r.hash != m.sha256
    {
      RowsFound(rows, m);
    }
  }

  lemma RowsFound(rows: seq<LedgerRow>, m: Migration)
    ensures Matched(rows, m) <==> LedgerRow(m.createdAt, m.sha256) in rows
    ensures Conflicting(rows, m) <==> exists r :: r in rows && r.createdAt == m.createdAt && r.hash != m.sha256
  {
    if i :| 0 <= i < |rows| && rows[i].createdAt == m.createdAt && rows[i].hash == m.sha256 {
      assert rows[i] == LedgerRow(m.createdAt, m.sha256);
    }
    if i :| 0 <= i < |rows| && rows[i].createdAt == m.createdAt && rows[i].hash != m.sha256 {
      assert rows[i] in rows;
    }
  }

  lemma VerdictMeansClean(local: seq<Migration>, rows: seq<LedgerRow>)
    requires Manifest(local)
    ensures Clean(local, rows) <==>
              && TagsWhere(local, rows, IsMissing) == []
              && TagsWhere(local, rows, IsConflicting) == []
              && Distinct(CreatedAts(rows))
              && CountUnexpected(local, rows) == 0
  {
    NoTags(local, rows, IsMissing);
    NoTags(local, rows, IsConflicting);
    NoneUnexpected(local, rows);
  }

  lemma NoTags(local: seq<Migration>, rows: seq<LedgerRow>, q: Question)
    requires Manifest(local)
    ensures TagsWhere(local, rows, q) == [] <==> forall m :: m in local ==> !Answers(rows, q, m)
  {
    var tags := TagsWhere(local, rows, q);
    if tags == [] {
      forall m | m in local
        ensures !Answers(rows, q, m)
      {
        TagOf(local, rows, q, m);
      }
    } else {
      TagsWhereHolds(local, rows, q, tags[0]);
    }
  }

  /** What is asked of a migration, given the ledger rows. */
  datatype Question = IsMatched | IsMissing | IsConflicting

  predicate Answers(rows: seq<LedgerRow>, q: Question, m: Migration) {
    match q
    case IsMatched => Matched(rows, m)
    case IsMissing => !Matched(rows, m)
    case IsConflicting => Conflicting(rows, m)
  }

  /** The tags of the migrations with a property, in journal order. */
  function TagsWhere(local: seq<Migration>, rows: seq<LedgerRow>, q: Question): seq<Text> {
    if local == [] then []
    else
      var last := |local| - 1;
      TagsWhere(local[..last], rows, q) + (if Answers(rows, q, local[last]) then [local[last].tag] else [])
  }

  lemma {:induction false} TagsWhereHolds(local: seq<Migration>, rows: seq<LedgerRow>, q: Question, t: Text)
    ensures t in TagsWhere(local, rows, q)
       <==> exists i :: 0 <= i < |local| && local[i].tag == t && Answers(rows, q, local[i])
  {
    if local != [] {
      var last := |local| - 1;
      TagsWhereHolds(local[..last], rows, q, t);
      if i :| 0 <= i < last && local[..last][i].tag == t && Answers(rows, q, local[..last][i]) {
        assert local[i].tag == t && Answers(rows, q, local[i]);
      }
      if i :| 0 <= i < |local| && local[i].tag == t && Answers(rows, q, local[i]) {
        if i < last { assert local[..last][i].tag == t && Answers(rows, q, local[..last][i]); }
      }
    }
  }

  lemma {:induction false} TagsSplit(local: seq<Migration>, rows: seq<LedgerRow>)
    ensures multiset(TagsWhere(local, rows, IsMatched)) + multiset(TagsWhere(local, rows, IsMissing))
         == multiset(LocalTags(local))
  {
    if local != [] {
      var last := |local| - 1;
      TagsSplit(local[..last], rows);
      assert LocalTags(local) == LocalTags(local[..last]) + [local[last].tag];
    }
  }

  lemma TagOf(local: seq<Migration>, rows: seq<LedgerRow>, q: Question, m: Migration)
    requires Manifest(local) && m in local
    ensures m.tag in TagsWhere(local, rows, q) <==> Answers(rows, q, m)
  {
    TagsWhereHolds(local, rows, q, m.tag);
    var k :| 0 <= k < |local| && local[k] == m;
  }

  method ClassifyTags(local: seq<Migration>, rows: seq<LedgerRow>)
    returns (matched: seq<Text>, missing: seq<Text>, conflicting: seq<Text>)
    ensures matched == TagsWhere(local, rows, IsMatched)
    ensures missing == TagsWhere(local, rows, IsMissing)
    ensures conflicting == TagsWhere(local, rows, IsConflicting)
  {
    matched, missing, conflicting := [], [], [];
    for i := 0 to |local|
      invariant matched == TagsWhere(local[..i], rows, IsMatched)
      invariant missing == TagsWhere(local[..i], rows, IsMissing)
      invariant conflicting == TagsWhere(local[..i], rows, IsConflicting)
    {
      var tag := local[i].tag;
      assert local[..i + 1][..i] == local[..i];
      if Matched(rows, local[i]) {
        matched := matched + [tag];
      } else {
        missing := missing + [tag];
      }
      if Conflicting(rows, local[i]) {
        conflicting := conflicting + [tag];
      }
    }
    assert local[..|local|] == local;
  }

  function CountUnexpected(local: seq<Migration>, rows: seq<LedgerRow>): nat {
    if rows == [] then 0
    else
      var last := |rows| - 1;
      CountUnexpected(local, rows[..last]) + (if rows[last] in Pairs(local) then 0 else 1)
  }

  lemma {:induction false} NoneUnexpected(local: seq<Migration>, rows: seq<LedgerRow>)
    ensures CountUnexpected(local, rows) == 0 <==> forall r :: r in rows ==> r in Pairs(local)
  {
    if rows != [] {
      var last := |rows| - 1;
      NoneUnexpected(local, rows[..last]);
      assert rows == rows[..last] + [rows[last]];
    }
  }

  /** The count is of the ledger rows, each place once, that are no local migration. */
  lemma {:induction false} UnexpectedExact(local: seq<Migration>, rows: seq<LedgerRow>)
    ensures CountUnexpected(local, rows) == |set i | 0 <= i < |rows| && Unexpected(local, rows[i])|
  {
    if rows != [] {
      var last := |rows| - 1;
      UnexpectedExact(local, rows[..last]);
      var before := set i | 0 <= i < last && Unexpected(local, rows[..last][i]);
      var all := set i | 0 <= i < |rows| && Unexpected(local, rows[i]);
      assert all == if Unexpected(local, rows[last]) then before + {last} else before;
      InPairs(local, rows[last]);
    }
  }

  /** No local migration has both the time and the hash of the row. */
  predicate Unexpected(local: seq<Migration>, row: LedgerRow) {
    forall i :: 0 <= i < |local| ==> local[i].createdAt != row.createdAt || local[i].sha256 != row.hash
  }

  lemma InPairs(local: seq<Migration>, row: LedgerRow)
    ensures row in Pairs(local) <==> !Unexpected(local, row)
  {
    var pairs := Pairs(local);
    if row in pairs {
      var i :| 0 <= i < |pairs| && pairs[i] == row;
      assert local[i].createdAt == row.createdAt && local[i].sha256 == row.hash;
    }
    if !Unexpected(local, row) {
      var i :| 0 <= i < |local| && local[i].createdAt == row.createdAt && local[i].sha256 == row.hash;
      assert pairs[i] == row;
    }
  }

  /** Where a tag stands in the journal, for the tags of one list: in ascending order. */
  lemma {:induction false} TagsInOrder(local: seq<Migration>, rows: seq<LedgerRow>, q: Question) returns (at: seq<nat>)
    ensures var tags := TagsWhere(local, rows, q);
            && |at| == |tags|
            && (forall i :: 0 <= i < |at| ==>
                at[i] < |local| && local[at[i]].tag == tags[i] && Answers(rows, q, local[at[i]]))
            && (forall i, j :: 0 <= i < j < |at| ==> at[i] < at[j])
  {
    at := [];
    if local != [] {
      var last := |local| - 1;
      at := TagsInOrder(local[..last], rows, q);
      if Answers(rows, q, local[last]) { at := at + [last]; }
    }
  }

  method FilterUnexpected(local: seq<Migration>, rows: seq<LedgerRow>) returns (count: nat)
    ensures count == CountUnexpected(local, rows)
  {
    var expected := Pairs(local);
    count := 0;
    for i := 0 to |rows|
      invariant count == CountUnexpected(local, rows[..i])
    {
      assert rows[..i + 1][..i] == rows[..i];
      if rows[i] !in expected {
        count := count + 1;
      }
    }
    assert rows[..|rows|] == rows;
  }
}
