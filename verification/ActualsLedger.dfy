/**
 * The ledger of real project costs (server/actuals-db.ts).
 *
 * Cost capture is on hold; what remains are reductions of the ledger: rejecting or voiding a cost,
 * deleting one that was never committed, annotating one, and refreshing the project's cached total.
 * Each call is one serializable transaction, so an error leaves everything as it was.
 */
module ActualsLedger {
  import opened Strings
  import opened Wrappers

  type Id = string

  datatype Status = Pending | Approved | Paid | Rejected | Void

  /** A status column: a canonical name or alias, or text the lookup does not know. */
  datatype StoredStatus = Named(status: Status) | Unknown(text: string)

  function Normalize(s: StoredStatus): Option<Status> {
    match s case Named(status) => Some(status) case Unknown(_) => None
  }

  /** Reads default an unknown status to pending. */
  function Resolve(s: StoredStatus): Status {
    match s case Named(status) => status case Unknown(_) => Pending
  }

  predicate IsCommitted(s: Status) {
    s == Approved || s == Paid
  }

  predicate AllowedTransition(from: Status, to: Status) {
    match from
    case Pending => to == Approved || to == Rejected || to == Void
    case Approved => to == Paid || to == Void
    case _ => false
  }

  datatype Actual = Actual(
    id: Id,
    project: Id,
    tenant: Id,
    status: StoredStatus,
    amountCents: int,
    category: Option<string>,
    deleted: bool,
    rejectionReason: Option<string>,
    voidReason: Option<string>,
    varianceReviewed: bool,
    varianceReason: Option<string>)

  datatype Project = Project(
    tenant: Id,
    deleted: bool,
    committedCostCents: int,
    actualTotal: string,
    variancePct: Option<string>)

  /** The two tables the calls write. */
  datatype Store = Store(rows: seq<Actual>, projects: map<Id, Project>)

  datatype Error =
    NotFound | Forbidden | InvalidTransition | ExecutionHeld | ValidationFailed | ReferenceNotAvailable

  datatype Result<+T> = Ok(value: T) | Err(error: Error)

  /** Who calls, and what the access and lineage checks answer inside the transaction. */
  datatype Caller = Caller(tenant: Id, hasAccess: bool, referencesUsable: bool)

  datatype Call =
    | Transition(actual: Id, to: StoredStatus, note: Option<string>)
    | Delete(actual: Id)
    | Review(actual: Id, note: Option<string>)
    | Refresh(project: Id)

  // ---------------------------------------------------------------------------------------------
  // Amount texts

  function Digit(d: nat): char
    requires d < 10
  {
    "0123456789"[d]
  }

  function Decimal(n: nat): (text: string)
    ensures text != [] && forall c :: c in text ==> '0' <= c <= '9'
  {
    if n < 10 then [Digit(n)] else Decimal(n / 10) + [Digit(n % 10)]
  }

  function FormatUnsigned(cents: nat): string {
    Decimal(cents / 100) + ['.', Digit(cents / 10 % 10), Digit(cents % 10)]
  }

  /** An amount in cents as its decimal text. */
  function FormatCents(cents: int): string {
    if cents < 0 then ['-'] + FormatUnsigned(-cents) else FormatUnsigned(cents)
  }

  function DigitValue(c: char): nat {
    if '0' <= c <= '9' then c as int - '0' as int else 0
  }

  /** A decimal text read back. */
  function ReadDecimal(text: string): nat {
    if text == [] then 0 else ReadDecimal(text[..|text| - 1]) * 10 + DigitValue(text[|text| - 1])
  }

  /** An amount text read back: an optional sign, whole units, a point and two places. */
  function ReadCents(text: string): int {
    if text != [] && text[0] == '-' then 0 - ReadUnsigned(text[1..]) else ReadUnsigned(text)
  }

  function ReadUnsigned(text: string): nat {
    if |text| <= 3 || text[|text| - 3] != '.' then 0
    else
      ReadDecimal(text[..|text| - 3]) * 100 + DigitValue(text[|text| - 2]) * 10 + DigitValue(text[|text| - 1])
  }

  lemma {:induction false} DecimalReads(n: nat)
    ensures ReadDecimal(Decimal(n)) == n
  {
    var text := Decimal(n);
    if n >= 10 {
      DecimalReads(n / 10);
      assert text[..|text| - 1] == Decimal(n / 10);
    } else {
      assert text[..0] == [];
    }
  }

  lemma TailParts(whole: string, tens: char, ones: char)
    requires whole != []
    ensures var s := whole + ['.', tens, ones];
            |s| > 3 && s[..|s| - 3] == whole && s[|s| - 3] == '.' && s[|s| - 2] == tens && s[|s| - 1] == ones
            && s[0] == whole[0]
  {
  }

  lemma Places(cents: nat)
    ensures cents == cents / 100 * 100 + cents / 10 % 10 * 10 + cents % 10
  {
    assert cents / 10 / 10 == cents / 100;
  }

  lemma UnsignedReads(cents: nat)
    ensures ReadUnsigned(FormatUnsigned(cents)) == cents && FormatUnsigned(cents)[0] != '-'
  {
    var whole, tens, ones := cents / 100, cents / 10 % 10, cents % 10;
    TailParts(Decimal(whole), Digit(tens), Digit(ones));
    DecimalReads(whole);
    assert Decimal(whole)[0] in Decimal(whole);
    DigitReads(tens);
    DigitReads(ones);
    Places(cents);
  }

  lemma DigitReads(d: nat)
    requires d < 10
    ensures DigitValue(Digit(d)) == d
  {
  }

  /** The text is the amount in units with two decimal places: reading it back gives the amount. */
  lemma FormatReads(cents: int)
    ensures ReadCents(FormatCents(cents)) == cents
  {
    UnsignedReads(if cents < 0 then -cents else cents);
    if cents < 0 { assert FormatCents(cents)[1..] == FormatUnsigned(-cents); }
  }

  /** The text determines the amount, sign included. */
  lemma FormatInjective(a: int, b: int)
    requires FormatCents(a) == FormatCents(b)
    ensures a == b
  {
    FormatReads(a);
    FormatReads(b);
  }

  // ---------------------------------------------------------------------------------------------
  // Totals

  predicate Live(row: Actual, project: Id) {
    row.project == project && !row.deleted
  }

  /** The contribution of a row to the committed total of a project. */
  function Contribution(row: Actual, project: Id): int {
    if Live(row, project) && IsCommitted(Resolve(row.status)) then row.amountCents else 0
  }

  function CommittedSum(rows: seq<Actual>, project: Id): int {
    if rows == [] then 0
    else CommittedSum(rows[..|rows| - 1], project) + Contribution(rows[|rows| - 1], project)
  }

  /** Exactly the live approved and paid rows of a project count, each with its amount. */
  lemma ContributionMeans(row: Actual, project: Id)
    ensures var counts := row.project == project && !row.deleted
                          && (row.status == Named(Approved) || row.status == Named(Paid));
            Contribution(row, project) == if counts then row.amountCents else 0
  {
  }

  /** Replacing one row moves the total by the difference of the contributions. */
  lemma {:induction false} SumUpdate(rows: seq<Actual>, i: nat, row: Actual, project: Id)
    requires i < |rows|
    ensures CommittedSum(rows[i := row], project)
         == CommittedSum(rows, project) - Contribution(rows[i], project) + Contribution(row, project)
  {
    var last := |rows| - 1;
    var next := rows[i := row];
    if i == last {
      assert next[..last] == rows[..last];
    } else {
      SumUpdate(rows[..last], i, row, project);
      assert next[..last] == rows[..last][i := row];
    }
  }

  // ---------------------------------------------------------------------------------------------
  // The calls as transactions

  function Find(rows: seq<Actual>, id: Id): (r: Option<nat>)
    ensures r.Some? ==> r.value < |rows| && rows[r.value].id == id
    ensures r.None? ==> forall i :: 0 <= i < |rows| ==> rows[i].id != id
  {
    if rows == [] then None
    else
      match Find(rows[..|rows| - 1], id)
      case Some(i) => Some(i)
      case None => if rows[|rows| - 1].id == id then Some(|rows| - 1) else None
  }

  /** The live rows of a project all belong to the caller's tenant and have known statuses. */
  predicate Refreshable(rows: seq<Actual>, project: Id, tenant: Id) {
    forall i :: 0 <= i < |rows| && Live(rows[i], project) ==>
      rows[i].tenant == tenant && Normalize(rows[i].status).Some?
  }

  function WithTotal(p: Project, total: int): Project {
    p.(committedCostCents := total, actualTotal := FormatCents(total), variancePct := None)
  }

  /** Recomputes the cached total, or refuses. */
  function RefreshLedger(s: Store, project: Id, tenant: Id): Result<Store> {
    if project !in s.projects || s.projects[project].deleted || s.projects[project].tenant != tenant then Err(Forbidden)
    else if exists i :: 0 <= i < |s.rows| && Live(s.rows[i], project) && s.rows[i].tenant != tenant then Err(Forbidden)
    else if !Refreshable(s.rows, project, tenant) then Err(ValidationFailed)
    else Ok(s.(projects := s.projects[project := WithTotal(s.projects[project], CommittedSum(s.rows, project))]))
  }

  predicate UsableNote(note: Option<string>, least: nat) {
    note.Some? && least <= TrimmedLength(note.value) && |note.value| <= 2000
  }

  /** The patch a call applies to its row, once the row is locked and checked. */
  function Patch(before: Actual, call: Call): Result<Actual>
    requires !call.Refresh?
  {
    match call
    case Transition(_, to, note) =>
      if Normalize(before.status).None? || Normalize(to).None? then Err(InvalidTransition)
      else
        var (from, target) := (Normalize(before.status).value, Normalize(to).value);
        if target != Rejected && target != Void then Err(ExecutionHeld)
        else if !AllowedTransition(from, target) then Err(InvalidTransition)
        else if !UsableNote(note, 5) then Err(ValidationFailed)
        else if target == Rejected then Ok(before.(status := Named(Rejected), rejectionReason := note))
        else Ok(before.(status := Named(Void), voidReason := note))
    case Delete(_) =>
      if Normalize(before.status).None? then Err(InvalidTransition)
      else if IsCommitted(Normalize(before.status).value) then Err(InvalidTransition)
      else Ok(before.(deleted := true))
    case Review(_, note) =>
      if !UsableNote(note, 10) then Err(ValidationFailed)
      else Ok(before.(varianceReviewed := true, varianceReason := note))
  }

  /** One transaction: the new store, or the error that rolled it back. */
  function Apply(s: Store, caller: Caller, call: Call): Result<Store> {
    match call
    case Refresh(project) =>
      if !caller.hasAccess then Err(Forbidden) else RefreshLedger(s, project, caller.tenant)
    case _ =>
      match Find(s.rows, call.actual)
      case None => Err(NotFound)
      case Some(i) =>
        var before := s.rows[i];
        if !caller.hasAccess then Err(Forbidden)
        else if before.deleted || before.tenant != caller.tenant then Err(Forbidden)
        else if !caller.referencesUsable then Err(ReferenceNotAvailable)
        else
          match Patch(before, call)
          case Err(e) => Err(e)
          case Ok(after) =>
            var next := s.(rows := s.rows[i := after]);
            if call.Review? then Ok(next) else RefreshLedger(next, before.project, caller.tenant)
  }

  /** The store after a call: unchanged when the call failed. */
  function After(s: Store, caller: Caller, call: Call): Store {
    match Apply(s, caller, call) case Ok(next) => next case Err(_) => s
  }

  /** What a successful mutation returns: the row as it is now stored. */
  function Returned(s: Store, next: Store, call: Call): Result<Actual>
    requires !call.Refresh?
  {
    match Find(s.rows, call.actual)
    case None => Err(NotFound)
    case Some(i) => if i < |next.rows| then Ok(next.rows[i]) else Err(NotFound)
  }

  // ---------------------------------------------------------------------------------------------
  // The calls as written

  class Ledger {
    var rows: seq<Actual>
    var projects: map<Id, Project>

    ghost function State(): Store
      reads this
    {
      Store(rows, projects)
    }

    method RefreshCommittedLedger(project: Id, tenant: Id) returns (outcome: Result<int>)
      modifies this
      ensures rows == old(rows)
      ensures match RefreshLedger(old(State()), project, tenant)
              case Ok(next) => State() == next && outcome == Ok(CommittedSum(rows, project))
              case Err(e) => State() == old(State()) && outcome == Err(e)
    {
      if project !in projects || projects[project].deleted || projects[project].tenant != tenant {
        return Err(Forbidden);
      }
      if exists i :: 0 <= i < |rows| && Live(rows[i], project) && rows[i].tenant != tenant {
        return Err(Forbidden);
      }
      var committedCents := 0;
      for i := 0 to |rows|
        invariant committedCents == CommittedSum(rows[..i], project)
        invariant forall k :: 0 <= k < i && Live(rows[k], project) ==> Normalize(rows[k].status).Some?
      {
        assert rows[..i + 1][..i] == rows[..i];
        if Live(rows[i], project) {
          var status := Normalize(rows[i].status);
          if status.None? {
            return Err(ValidationFailed);
          }
          if IsCommitted(status.value) {
            committedCents := committedCents + rows[i].amountCents;
          }
        }
      }
      assert rows[..|rows|] == rows;
      projects := projects[project := projects[project].(
        committedCostCents := committedCents, actualTotal := FormatCents(committedCents), variancePct := None)];
      return Ok(committedCents);
    }

    /** Locks and checks the row, patches it and refreshes the cache; any error undoes the patch. */
    method Mutate(caller: Caller, call: Call) returns (outcome: Result<Actual>)
      requires !call.Refresh?
      modifies this
      ensures match Apply(old(State()), caller, call)
              case Ok(next) => State() == next && outcome == Returned(old(State()), next, call)
              case Err(e) => State() == old(State()) && outcome == Err(e)
    {
      var found := Find(rows, call.actual);
      if found.None? {
        return Err(NotFound);
      }
      var before := rows[found.value];
      if !caller.hasAccess || before.deleted || before.tenant != caller.tenant {
        return Err(Forbidden);
      }
      if !caller.referencesUsable {
        return Err(ReferenceNotAvailable);
      }
      var patch := Patch(before, call);
      if patch.Err? {
        return Err(patch.error);
      }
      var snapshot := rows;
      rows := rows[found.value := patch.value];
      if !call.Review? {
        var refreshed := RefreshCommittedLedger(before.project, caller.tenant);
        if refreshed.Err? {
          rows := snapshot;
          return Err(refreshed.error);
        }
      }
      return Ok(patch.value);
    }
  }

  // ---------------------------------------------------------------------------------------------
  // What a call does, column by column

  /** The row a call names, if its caller may change it. */
  predicate Reachable(s: Store, caller: Caller, call: Call)
    requires !call.Refresh?
  {
    match Find(s.rows, call.actual)
    case None => false
    case Some(i) =>
      caller.hasAccess && !s.rows[i].deleted && s.rows[i].tenant == caller.tenant && caller.referencesUsable
  }

  /** When a call on a row is permitted by that row's status and by the note. */
  predicate Permitted(row: Actual, call: Call) {
    match call
    case Transition(_, to, note) =>
      && (to == Named(Rejected) || to == Named(Void))
      && (row.status == Named(Pending) || (row.status == Named(Approved) && to == Named(Void)))
      && note.Some? && TrimmedLength(note.value) >= 5 && |note.value| <= 2000
    case Delete(_) => row.status in {Named(Pending), Named(Rejected), Named(Void)}
    case Review(_, note) => note.Some? && TrimmedLength(note.value) >= 10 && |note.value| <= 2000
    case Refresh(_) => true
  }

  /** The project's cache can be computed. */
  predicate Computable(s: Store, project: Id, tenant: Id) {
    && project in s.projects && !s.projects[project].deleted && s.projects[project].tenant == tenant
    && forall i :: 0 <= i < |s.rows| && s.rows[i].project == project && !s.rows[i].deleted ==>
         s.rows[i].tenant == tenant && s.rows[i].status.Named?
  }

  /** A review leaves the cache alone; every other change of a row is followed by a refresh. */
  predicate CacheFollows(s: Store, call: Call, project: Id, tenant: Id)
    requires !call.Refresh? && Find(s.rows, call.actual).Some?
  {
    if call.Transition? || call.Delete? then Computable(Changed(s, call), project, tenant) else true
  }

  /** A call succeeds exactly when its row may be changed, permits it, and the cache can then be computed. */
  lemma SucceedsExactly(s: Store, caller: Caller, call: Call)
    ensures Apply(s, caller, call).Ok? <==>
              match call
              case Refresh(project) => caller.hasAccess && Computable(s, project, caller.tenant)
              case _ =>
                && Reachable(s, caller, call)
                && var row := s.rows[Find(s.rows, call.actual).value];
                && Permitted(row, call)
                && CacheFollows(s, call, row.project, caller.tenant)
  {
    if !call.Refresh? && Reachable(s, caller, call) {
      PermittedPatch(s.rows[Find(s.rows, call.actual).value], call);
    }
  }

  lemma PermittedPatch(row: Actual, call: Call)
    requires !call.Refresh?
    ensures Patch(row, call).Ok? <==> Permitted(row, call)
  {
  }

  /** Why a row refuses a call. */
  predicate RowRefuses(row: Actual, call: Call, e: Error)
    requires !call.Refresh?
  {
    match call
    case Transition(_, to, note) =>
      var named := row.status.Named? && to.Named?;
      var reduces := to == Named(Rejected) || to == Named(Void);
      var follows := row.status == Named(Pending) || (row.status == Named(Approved) && to == Named(Void));
      (match e
       case InvalidTransition => !named || (reduces && !follows)
       case ExecutionHeld => named && !reduces
       case ValidationFailed => named && reduces && follows && !Permitted(row, call)
       case _ => false)
    case Delete(_) => e == InvalidTransition && !Permitted(row, call)
    case Review(_, _) => e == ValidationFailed && !Permitted(row, call)
  }

  /** Why a cache cannot be computed: the project, a row of another tenant, or a status nobody knows. */
  predicate CacheRefuses(s: Store, project: Id, tenant: Id, e: Error) {
    var reachable := project in s.projects && !s.projects[project].deleted && s.projects[project].tenant == tenant;
    var own := forall i :: 0 <= i < |s.rows| && s.rows[i].project == project && !s.rows[i].deleted ==>
                 s.rows[i].tenant == tenant;
    match e
    case Forbidden => !reachable || !own
    case ValidationFailed => reachable && own && !Computable(s, project, tenant)
    case _ => false
  }

  predicate RefreshRefuses(s: Store, call: Call, project: Id, tenant: Id, e: Error)
    requires !call.Refresh? && Find(s.rows, call.actual).Some?
  {
    if call.Transition? || call.Delete? then CacheRefuses(Changed(s, call), project, tenant, e) else false
  }

  /** When each error is raised; together with SucceedsExactly this says how every call ends. */
  predicate Raises(s: Store, caller: Caller, call: Call, e: Error) {
    match call
    case Refresh(project) =>
      if !caller.hasAccess then e == Forbidden else CacheRefuses(s, project, caller.tenant, e)
    case _ =>
      match Find(s.rows, call.actual)
      case None => e == NotFound
      case Some(i) =>
        var row := s.rows[i];
        if !caller.hasAccess || row.deleted || row.tenant != caller.tenant then e == Forbidden
        else if !caller.referencesUsable then e == ReferenceNotAvailable
        else if !Permitted(row, call) then RowRefuses(row, call, e)
        else RefreshRefuses(s, call, row.project, caller.tenant, e)
  }

  lemma RaisedExactly(s: Store, caller: Caller, call: Call, e: Error)
    ensures Apply(s, caller, call) == Err(e) <==> Raises(s, caller, call, e)
  {
    if !call.Refresh? && Reachable(s, caller, call) {
      PermittedPatch(s.rows[Find(s.rows, call.actual).value], call);
    }
  }

  /** The store with the named row as the call leaves it. */
  function Changed(s: Store, call: Call): Store
    requires !call.Refresh? && Find(s.rows, call.actual).Some?
  {
    var i := Find(s.rows, call.actual).value;
    match Patch(s.rows[i], call) case Ok(after) => s.(rows := s.rows[i := after]) case Err(_) => s
  }

  /** What becomes of the row a call names: the columns of that call, and no others. */
  predicate Became(before: Actual, after: Actual, call: Call) {
    && after.id == before.id && after.project == before.project && after.tenant == before.tenant
    && after.amountCents == before.amountCents && after.category == before.category
    && (after.deleted <==> before.deleted || call.Delete?)
    && after.status == (if call.Transition? then call.to else before.status)
    && after.rejectionReason
    == (if call.Transition? && call.to == Named(Rejected) then call.note else before.rejectionReason)
    && after.voidReason == (if call.Transition? && call.to == Named(Void) then call.note else before.voidReason)
    && (after.varianceReviewed <==> before.varianceReviewed || call.Review?)
    && after.varianceReason == (if call.Review? then call.note else before.varianceReason)
  }

  /** The project keeps its owner; total and text are those of the rows, and the variance is cleared. */
  predicate Recomputed(s: Store, next: Store, project: Id) {
    && project in s.projects && project in next.projects
    && var total := CommittedSum(next.rows, project);
    && next.projects[project]
    == Project(s.projects[project].tenant, s.projects[project].deleted, total, FormatCents(total), None)
  }

  /** A successful call changes its row as it says, no other row, and no project but that row's. */
  lemma CallEffect(s: Store, caller: Caller, call: Call)
    requires Apply(s, caller, call).Ok?
    ensures var next := After(s, caller, call);
            && |next.rows| == |s.rows| && next.projects.Keys == s.projects.Keys
            && (call.Refresh? ==> next.rows == s.rows)
            && (call.Review? ==> next.projects == s.projects)
            && (forall p :: p in s.projects && Some(p) != Touched(s, call) ==> next.projects[p] == s.projects[p])
            && (!call.Review? ==> Touched(s, call).Some? && Recomputed(s, next, Touched(s, call).value))
            && forall i :: 0 <= i < |s.rows| ==>
                 if !call.Refresh? && Find(s.rows, call.actual) == Some(i) then Became(s.rows[i], next.rows[i], call)
                 else next.rows[i] == s.rows[i]
  {
  }

  // ---------------------------------------------------------------------------------------------
  // What every call keeps

  /** The cached total of a project and its text agree with its rows. */
  predicate Synced(s: Store, project: Id) {
    && project in s.projects
    && s.projects[project].committedCostCents == CommittedSum(s.rows, project)
    && s.projects[project].actualTotal == FormatCents(CommittedSum(s.rows, project))
  }

  function Touched(s: Store, call: Call): Option<Id> {
    match call
    case Refresh(project) => Some(project)
    case _ => match Find(s.rows, call.actual) case None => None case Some(i) => Some(s.rows[i].project)
  }

  /** After every successful rejection, void, deletion or refresh the cache is right. */
  lemma SuccessSyncs(s: Store, caller: Caller, call: Call)
    requires Apply(s, caller, call).Ok? && !call.Review?
    ensures Touched(s, call).Some? && Synced(After(s, caller, call), Touched(s, call).value)
  {
  }

  /** By how much a call lowers a project's total: only the void of a committed row lowers it. */
  function Reduction(s: Store, caller: Caller, call: Call, project: Id): int {
    if call.Transition? && Apply(s, caller, call).Ok? && Find(s.rows, call.actual).Some? then
      Contribution(s.rows[Find(s.rows, call.actual).value], project)
    else 0
  }

  /** The committed total falls by exactly the amount of the committed row that was voided. */
  lemma TotalMoves(s: Store, caller: Caller, call: Call, project: Id)
    ensures CommittedSum(After(s, caller, call).rows, project)
         == CommittedSum(s.rows, project) - Reduction(s, caller, call, project)
  {
    if Apply(s, caller, call).Ok? && !call.Refresh? {
      var i := Find(s.rows, call.actual).value;
      SumUpdate(s.rows, i, Patch(s.rows[i], call).value, project);
    }
  }

  /** A cache that is right stays right, whatever is called and whether or not it succeeds. */
  lemma SyncedKept(s: Store, caller: Caller, call: Call, project: Id)
    requires Synced(s, project)
    ensures Synced(After(s, caller, call), project)
  {
    if Apply(s, caller, call).Ok? {
      TotalMoves(s, caller, call, project);
      if !call.Review? {
        SuccessSyncs(s, caller, call);
      }
    }
  }

  /** A run: each call with its caller. */
  function Run(s: Store, calls: seq<(Caller, Call)>): Store {
    if calls == [] then s
    else
      var last := calls[|calls| - 1];
      After(Run(s, calls[..|calls| - 1]), last.0, last.1)
  }

  /** Identity, owner and amount of every row are fixed; deleted rows stay deleted. */
  predicate Continues(before: Actual, after: Actual) {
    && after.id == before.id && after.project == before.project && after.tenant == before.tenant
    && after.amountCents == before.amountCents && after.category == before.category
    && (before.deleted ==> after.deleted)
  }

  lemma CallContinues(s: Store, caller: Caller, call: Call)
    ensures var next := After(s, caller, call);
            |next.rows| == |s.rows| && forall i :: 0 <= i < |s.rows| ==> Continues(s.rows[i], next.rows[i])
  {
  }

  lemma {:induction false} RunKeeps(s: Store, calls: seq<(Caller, Call)>, project: Id)
    requires forall i :: 0 <= i < |s.rows| ==> s.rows[i].amountCents >= 0
    ensures var end := Run(s, calls);
            && |end.rows| == |s.rows|
            && (forall i :: 0 <= i < |s.rows| ==> Continues(s.rows[i], end.rows[i]))
            && CommittedSum(end.rows, project) <= CommittedSum(s.rows, project)
            && (Synced(s, project) ==> Synced(end, project))
  {
    if calls != [] {
      var before := Run(s, calls[..|calls| - 1]);
      var last := calls[|calls| - 1];
      RunKeeps(s, calls[..|calls| - 1], project);
      CallContinues(before, last.0, last.1);
      TotalMoves(before, last.0, last.1, project);
      if Synced(before, project) {
        SyncedKept(before, last.0, last.1, project);
      }
    }
  }
}
