/**
 * Generic edits of an estimate draft (server/estimate-db.ts) inside the transaction boundary of
 * server/estimate-mutation-db.ts: status changes, archiving, rejection, discounts and notes.
 *
 * Each edit is one serializable transaction, so a refusal changes nothing.
 */
module EstimateLifecycle {
  import opened Wrappers
  import opened Drafts
  import opened Lineage

  datatype Status =
    | Draft_
    | SentToEstimate
    | Converted
    | Archived
    | Approved
    | Rejected
    | InternallyApproved
    | InternalApprovalRevoked
    | OtherStatus(text: string)
  {
    predicate Internal() {
      InternallyApproved? || InternalApprovalRevoked?
    }
  }

  predicate Allowed(from: Status, to: Status) {
    match from
    case Draft_ => to == SentToEstimate || to == Archived || to == Approved || to == Rejected
    case SentToEstimate => to == Converted || to == Archived || to == Draft_ || to == Approved || to == Rejected
    case Converted => to == Archived
    case Archived => to == Draft_
    case Approved => to == Converted || to == Archived
    case Rejected => to == Draft_ || to == Archived
    case _ => false
  }

  /** The money columns a generic edit can write, in minor units. */
  datatype Money = Money(discountApplied: bool, discountAmount: int, finalTotalPrice: int)

  function Pow10(n: nat): (p: nat)
    ensures p > 0
  {
    if n == 0 then 1 else 10 * Pow10(n - 1)
  }

  /** A percentage as the decimal text reads: 12.5 is 125 with one place. */
  datatype Percent = Percent(digits: nat, places: nat)
  {
    predicate Ok() {
      digits <= 50 * Pow10(places)
    }
  }

  /** A quotient by twice the half, rounded to the nearest whole number and half upward. */
  function Rounded(exact: nat, half: nat): nat
    requires half > 0
  {
    (exact + half) / (2 * half)
  }

  lemma RoundedNearest(exact: nat, half: nat)
    requires half > 0
    ensures var q := Rounded(exact, half); q * (2 * half) - exact <= half && exact - q * (2 * half) < half
  {
    var x, unit := exact + half, 2 * half;
    assert x == x / unit * unit + x % unit;
  }

  lemma RoundedBelow(exact: nat, half: nat, bound: nat)
    requires half > 0 && exact <= half * bound
    ensures Rounded(exact, half) <= bound
  {
    var q := Rounded(exact, half);
    RoundedNearest(exact, half);
    assert q * (2 * half) < (bound + 1) * (2 * half) by {
      assert (bound + 1) * (2 * half) == half * bound + half * bound + 2 * half;
    }
    if bound + 1 <= q { Monotone(2 * half, bound + 1, q); }
  }

  lemma Monotone(a: nat, b: nat, c: nat)
    requires b <= c
    ensures a * b <= a * c
  {
  }

  /** The discount on a subtotal in minor units: half a unit is rounded upward. */
  function DiscountOn(subtotal: nat, p: Percent): nat {
    Rounded(subtotal * p.digits, 50 * Pow10(p.places))
  }

  /** The discount is the nearest whole unit to the exact one, the upper of two, and never exceeds the subtotal. */
  lemma DiscountNearest(subtotal: nat, p: Percent)
    requires p.Ok()
    ensures DiscountOn(subtotal, p) <= subtotal
    ensures var unit, exact := 100 * Pow10(p.places), subtotal * p.digits;
            && 2 * (DiscountOn(subtotal, p) * unit - exact) <= unit
            && 2 * (exact - DiscountOn(subtotal, p) * unit) < unit
  {
    var half := 50 * Pow10(p.places);
    RoundedNearest(subtotal * p.digits, half);
    Monotone(subtotal, p.digits, half);
    assert subtotal * half == half * subtotal;
    RoundedBelow(subtotal * p.digits, half, subtotal);
  }

  datatype Estimate = Estimate(
    draft: Draft,
    status: Status,
    subtotal: Option<nat>,
    money: Money,
    locked: bool,
    superseded: bool,
    notes: Option<string>,
    rejection: Option<(Id, string)>)

  datatype Permission = Write | Approve | Remove

  datatype Project = Project(tenant: Id, deleted: bool)

  datatype Profile = Profile(tenant: Id, active: bool)

  datatype Store = Store(
    estimates: map<Id, Estimate>,
    snapshots: set<Id>,
    approvals: set<Id>,
    imports: set<Id>,
    projects: map<Id, Project>,
    activeTenants: set<Id>,
    profiles: map<Id, Profile>,
    access: set<(Id, Id, Permission)>)
  {
    function Table(): map<Id, Draft> {
      map id | id in estimates :: estimates[id].draft
    }

    predicate Historical(id: Id)
      requires id in estimates
    {
      estimates[id].draft.source.HistoricalImport? || id in imports
    }

    /** Durable decision evidence, or a status that claims one. */
    predicate Decided(id: Id)
      requires id in estimates
    {
      id in snapshots || id in approvals || estimates[id].status.Internal()
    }
  }

  datatype Caller = Caller(user: Id, tenant: Id)

  /** A discount carries its percentage, or nothing when the number is not one from 0 to 50. */
  datatype Edit =
    | ChangeStatus(id: Id, to: Status)
    | Archive(id: Id)
    | Reject(id: Id, reason: string)
    | Discount(id: Id, percent: Option<Percent>)
    | EditNotes(id: Id, text: Option<string>)

  datatype Error =
    | ContextUnresolved
    | VersionLocked
    | ApprovalNeedsDedicatedAction
    | HistoricalCaptureOnly
    | InvalidTransition
    | DiscountRefused

  datatype Result<+T> = Ok(value: T) | Err(error: Error)

  // ---------------------------------------------------------------------------------------------
  // The boundary and the edits as transactions

  function PermissionOf(edit: Edit): Permission {
    match edit
    case Archive(_) => Remove
    case EditNotes(_, _) => Write
    case _ => Approve
  }

  /** The row an edit may work on: its project, tenant, caller and access rights all check out. */
  predicate Editable(s: Store, caller: Caller, id: Id, permission: Permission) {
    && ValidId(id) && ValidId(caller.user) && ValidId(caller.tenant)
    && id in s.estimates
    && s.estimates[id].draft.tenant == caller.tenant
    && var project := s.estimates[id].draft.project;
       && ValidId(project)
       && project in s.projects && s.projects[project].tenant == caller.tenant && !s.projects[project].deleted
       && caller.tenant in s.activeTenants
       && caller.user in s.profiles && s.profiles[caller.user] == Profile(caller.tenant, true)
       && (caller.user, project, permission) in s.access
  }

  function LineageQuery(s: Store, id: Id, requireCalculated: bool): Query
    requires id in s.estimates
  {
    Query(s.Table(), s.imports, id, s.estimates[id].draft, requireCalculated)
  }

  ghost predicate LineageOk(s: Store, id: Id, requireCalculated: bool)
    requires id in s.estimates
  {
    Acceptable(LineageQuery(s, id, requireCalculated))
  }

  /** What the lineage guard answers for a draft. */
  ghost function Guard(s: Store, id: Id, requireCalculated: bool): (outcome: Outcome)
    requires id in s.estimates
    ensures outcome == Accepted <==> LineageOk(s, id, requireCalculated)
  {
    var q := LineageQuery(s, id, requireCalculated);
    GuardDecides(q);
    GuardOutcome(q)
  }

  /** The error a refused lineage raises: that of a missing context, or that of a historical draft. */
  function GuardError(outcome: Outcome): Error {
    if outcome == HistoricalDenied then HistoricalCaptureOnly else ContextUnresolved
  }

  function SetRow(s: Store, id: Id, row: Estimate): Store {
    s.(estimates := s.estimates[id := row])
  }

  ghost function ChangeStatusTo(s: Store, id: Id, to: Status): Result<Store>
    requires id in s.estimates
  {
    var current := s.estimates[id];
    if s.Decided(id) then Err(VersionLocked)
    else if s.Historical(id) && current.status == Draft_ && to == Draft_ then Ok(s)
    else if s.Historical(id) && to != Archived then Err(HistoricalCaptureOnly)
    else if to != Archived && Guard(s, id, false) != Accepted then Err(GuardError(Guard(s, id, false)))
    else if !Allowed(current.status, to) then Err(InvalidTransition)
    else Ok(SetRow(s, id, current.(status := to)))
  }

  ghost function RejectTo(s: Store, id: Id, user: Id, reason: string): Result<Store>
    requires id in s.estimates
  {
    var current := s.estimates[id];
    if s.Decided(id) then Err(VersionLocked)
    else if Guard(s, id, false) != Accepted then Err(GuardError(Guard(s, id, false)))
    else if !Allowed(current.status, Rejected) then Err(InvalidTransition)
    else Ok(SetRow(s, id, current.(status := Rejected, rejection := Some((user, reason)))))
  }

  ghost function DiscountTo(s: Store, id: Id, percent: Percent): Result<Store>
    requires id in s.estimates
  {
    var current := s.estimates[id];
    if s.Decided(id) then Err(VersionLocked)
    else if Guard(s, id, true) != Accepted then Err(GuardError(Guard(s, id, true)))
    else if current.status != Draft_ || current.locked || current.superseded then Err(VersionLocked)
    else if current.subtotal == None then Err(DiscountRefused)
    else
      var discount := DiscountOn(current.subtotal.value, percent);
      Ok(SetRow(s, id, current.(money := Money(true, discount, current.subtotal.value - discount))))
  }

  /** One edit: the new store, or the error that rolled it back. */
  ghost function Apply(s: Store, caller: Caller, edit: Edit): Result<Store> {
    if edit.ChangeStatus? && (edit.to == Approved || edit.to.Internal()) then Err(ApprovalNeedsDedicatedAction)
    else if edit.Discount? && !(edit.percent.Some? && edit.percent.value.Ok()) then Err(DiscountRefused)
    else if !Editable(s, caller, edit.id, PermissionOf(edit)) then Err(ContextUnresolved)
    else
      match edit
      case ChangeStatus(id, to) => ChangeStatusTo(s, id, to)
      case Archive(id) => ChangeStatusTo(s, id, Archived)
      case Reject(id, reason) => RejectTo(s, id, caller.user, reason)
      case Discount(id, percent) => DiscountTo(s, id, percent.value)
      case EditNotes(id, text) => Ok(SetRow(s, id, s.estimates[id].(notes := text)))
  }

  ghost function After(s: Store, caller: Caller, edit: Edit): Store {
    match Apply(s, caller, edit) case Ok(next) => next case Err(_) => s
  }

  // ---------------------------------------------------------------------------------------------
  // The edits as written

  class EstimateDb {
    var state: Store

    method CheckLineage(id: Id, requireCalculated: bool) returns (outcome: Outcome)
      requires id in state.estimates
      ensures outcome == Guard(state, id, requireCalculated)
      ensures outcome == Accepted <==> LineageOk(state, id, requireCalculated)
      ensures Explained(LineageQuery(state, id, requireCalculated), outcome)
    {
      var answer, _, _, _ := AssertNonHistoricalLineage(LineageQuery(state, id, requireCalculated));
      return answer;
    }

    method ChangeStatusIn(id: Id, to: Status) returns (error: Option<Error>)
      requires id in state.estimates
      modifies this
      ensures match ChangeStatusTo(old(state), id, to)
              case Ok(next) => error == None && state == next
              case Err(e) => error == Some(e) && state == old(state)
    {
      var current := state.estimates[id];
      if state.Decided(id) {
        return Some(VersionLocked);
      }
      if state.Historical(id) {
        if current.status == Draft_ && to == Draft_ {
          return None;
        }
        if to != Archived {
          return Some(HistoricalCaptureOnly);
        }
      }
      if to != Archived {
        var outcome := CheckLineage(id, false);
        if outcome != Accepted {
          return Some(GuardError(outcome));
        }
      }
      if !Allowed(current.status, to) {
        return Some(InvalidTransition);
      }
      state := state.(estimates := state.estimates[id := current.(status := to)]);
      return None;
    }

    method RejectIn(id: Id, user: Id, reason: string) returns (error: Option<Error>)
      requires id in state.estimates
      modifies this
      ensures match RejectTo(old(state), id, user, reason)
              case Ok(next) => error == None && state == next
              case Err(e) => error == Some(e) && state == old(state)
    {
      if state.Decided(id) {
        return Some(VersionLocked);
      }
      var outcome := CheckLineage(id, false);
      if outcome != Accepted {
        return Some(GuardError(outcome));
      }
      var current := state.estimates[id];
      if !Allowed(current.status, Rejected) {
        return Some(InvalidTransition);
      }
      current := current.(status := Rejected, rejection := Some((user, reason)));
      state := state.(estimates := state.estimates[id := current]);
      return None;
    }

    method DiscountIn(id: Id, percent: Percent) returns (error: Option<Error>)
      requires id in state.estimates
      modifies this
      ensures match DiscountTo(old(state), id, percent)
              case Ok(next) => error == None && state == next
              case Err(e) => error == Some(e) && state == old(state)
    {
      if state.Decided(id) {
        return Some(VersionLocked);
      }
      var outcome := CheckLineage(id, true);
      if outcome != Accepted {
        return Some(GuardError(outcome));
      }
      var current := state.estimates[id];
      if current.status != Draft_ || current.locked || current.superseded {
        return Some(VersionLocked);
      }
      if current.status == Approved || current.status.Internal() {
        return Some(VersionLocked);
      }
      if current.subtotal == None {
        return Some(DiscountRefused);
      }
      var discount := DiscountOn(current.subtotal.value, percent);
      var money := Money(true, discount, current.subtotal.value - discount);
      state := state.(estimates := state.estimates[id := current.(money := money)]);
      return None;
    }

    method Perform(caller: Caller, edit: Edit) returns (error: Option<Error>)
      modifies this
      ensures match Apply(old(state), caller, edit)
              case Ok(next) => error == None && state == next
              case Err(e) => error == Some(e) && state == old(state)
    {
      if edit.ChangeStatus? && (edit.to == Approved || edit.to.Internal()) {
        return Some(ApprovalNeedsDedicatedAction);
      }
      if edit.Discount? && !(edit.percent.Some? && edit.percent.value.Ok()) {
        return Some(DiscountRefused);
      }
      if !Editable(state, caller, edit.id, PermissionOf(edit)) {
        return Some(ContextUnresolved);
      }
      match edit
      case ChangeStatus(id, to) => error := ChangeStatusIn(id, to);
      case Archive(id) => error := ChangeStatusIn(id, Archived);
      case Reject(id, reason) => error := RejectIn(id, caller.user, reason);
      case Discount(id, percent) => error := DiscountIn(id, percent.value);
      case EditNotes(id, text) =>
        state := state.(estimates := state.estimates[id := state.estimates[id].(notes := text)]);
        error := None;
    }
  }

  // ---------------------------------------------------------------------------------------------
  // What an edit does, column by column

  /** The status an edit asks for, if it asks for one. */
  function Target(edit: Edit): Option<Status> {
    match edit
    case ChangeStatus(_, to) => Some(to)
    case Archive(_) => Some(Archived)
    case Reject(_, _) => Some(Rejected)
    case _ => None
  }

  /** The whole list of permitted changes of status. */
  lemma TransitionsListed(from: Status, to: Status)
    ensures Allowed(from, to) <==>
              (from, to) in {
                (Draft_, SentToEstimate), (Draft_, Archived), (Draft_, Approved), (Draft_, Rejected),
                (SentToEstimate, Converted), (SentToEstimate, Archived), (SentToEstimate, Draft_),
                (SentToEstimate, Approved), (SentToEstimate, Rejected), (Converted, Archived), (Archived, Draft_),
                (Approved, Converted), (Approved, Archived), (Rejected, Draft_), (Rejected, Archived)}
  {
  }

  /** A historical draft that is asked to become the draft it is: nothing to do. */
  predicate Idle(s: Store, edit: Edit)
    requires edit.id in s.estimates
  {
    (edit.ChangeStatus? || edit.Archive?) && s.Historical(edit.id)
    && s.estimates[edit.id].status == Draft_ && Target(edit) == Some(Draft_)
  }

  /** Whether an edit asks the lineage guard, and what the guard then answers. */
  ghost function GuardAnswer(s: Store, edit: Edit): Outcome
    requires edit.id in s.estimates
  {
    if edit.EditNotes? || Target(edit) == Some(Archived) then Accepted else Guard(s, edit.id, edit.Discount?)
  }

  /** A status that a generic edit may not assign. */
  predicate Reserved(edit: Edit) {
    edit.ChangeStatus? && (edit.to == Approved || edit.to == InternallyApproved || edit.to == InternalApprovalRevoked)
  }

  predicate PercentUsable(edit: Edit) {
    edit.Discount? ==> edit.percent.Some? && edit.percent.value.digits <= 50 * Pow10(edit.percent.value.places)
  }

  /** The row is there, the caller may touch it, and it is not locked by a decision. */
  predicate Free(s: Store, caller: Caller, edit: Edit) {
    && !Reserved(edit) && PercentUsable(edit)
    && Editable(s, caller, edit.id, PermissionOf(edit))
    && (edit.EditNotes? || (edit.id !in s.snapshots && edit.id !in s.approvals
                            && s.estimates[edit.id].status != InternallyApproved
                            && s.estimates[edit.id].status != InternalApprovalRevoked))
  }

  /** A historical draft may be archived; nothing else may become of it. */
  predicate CaptureHolds(s: Store, edit: Edit)
    requires edit.id in s.estimates
  {
    (edit.ChangeStatus? || edit.Archive?) && s.Historical(edit.id) && Target(edit) != Some(Archived) && !Idle(s, edit)
  }

  /** When each error is raised. */
  ghost predicate Raises(s: Store, caller: Caller, edit: Edit, e: Error) {
    match e
    case ApprovalNeedsDedicatedAction => Reserved(edit)
    case ContextUnresolved =>
      && !Reserved(edit) && PercentUsable(edit)
      && (!Editable(s, caller, edit.id, PermissionOf(edit))
          || (Passes(s, caller, edit) && GuardAnswer(s, edit) == Unresolved))
    case VersionLocked =>
      && !Reserved(edit) && PercentUsable(edit)
      && Editable(s, caller, edit.id, PermissionOf(edit))
      && (!Free(s, caller, edit)
          || (edit.Discount? && GuardAnswer(s, edit) == Accepted && !Discountable(s.estimates[edit.id])))
    case HistoricalCaptureOnly =>
      && Free(s, caller, edit)
      && (CaptureHolds(s, edit) || (Passes(s, caller, edit) && GuardAnswer(s, edit) == HistoricalDenied))
    case InvalidTransition =>
      && Passes(s, caller, edit) && GuardAnswer(s, edit) == Accepted
      && Target(edit).Some? && !Allowed(s.estimates[edit.id].status, Target(edit).value)
    case DiscountRefused =>
      || !PercentUsable(edit)
      || (edit.Discount? && Free(s, caller, edit) && GuardAnswer(s, edit) == Accepted
          && Discountable(s.estimates[edit.id]) && s.estimates[edit.id].subtotal == None)
  }

  /** A draft that is open to discounts. */
  predicate Discountable(e: Estimate) {
    e.status == Draft_ && !e.locked && !e.superseded
  }

  /** An edit comes to the lineage guard, or would if it asked it. */
  predicate Passes(s: Store, caller: Caller, edit: Edit) {
    Free(s, caller, edit) && !CaptureHolds(s, edit) && !Idle(s, edit)
  }

  /** Every error is raised exactly when its condition holds, so an edit succeeds exactly when none does. */
  lemma RaisedExactly(s: Store, caller: Caller, edit: Edit, e: Error)
    ensures Apply(s, caller, edit) == Err(e) <==> Raises(s, caller, edit, e)
  {
    match edit
    case ChangeStatus(_, _) => StatusRaised(s, caller, edit, e);
    case Archive(_) => StatusRaised(s, caller, edit, e);
    case Reject(_, _) => RejectRaised(s, caller, edit, e);
    case Discount(_, _) => DiscountRaised(s, caller, edit, e);
    case EditNotes(_, _) =>
  }

  lemma StatusRaised(s: Store, caller: Caller, edit: Edit, e: Error)
    requires edit.ChangeStatus? || edit.Archive?
    ensures Apply(s, caller, edit) == Err(e) <==> Raises(s, caller, edit, e)
  {
  }

  lemma RejectRaised(s: Store, caller: Caller, edit: Edit, e: Error)
    requires edit.Reject?
    ensures Apply(s, caller, edit) == Err(e) <==> Raises(s, caller, edit, e)
  {
  }

  lemma DiscountRaised(s: Store, caller: Caller, edit: Edit, e: Error)
    requires edit.Discount?
    ensures Apply(s, caller, edit) == Err(e) <==> Raises(s, caller, edit, e)
  {
  }

  /** What becomes of the edited row: the columns of that edit, and no others. */
  predicate Became(a: Estimate, b: Estimate, user: Id, edit: Edit) {
    && b.draft == a.draft && b.subtotal == a.subtotal && b.locked == a.locked && b.superseded == a.superseded
    && b.status == (if Target(edit).Some? then Target(edit).value else a.status)
    && b.notes == (if edit.EditNotes? then edit.text else a.notes)
    && b.rejection == (if edit.Reject? then Some((user, edit.reason)) else a.rejection)
    && (!edit.Discount? ==> b.money == a.money)
    && (edit.Discount? ==> b.money.discountApplied && edit.percent.Some? && a.subtotal.Some?
                           && Nearest(b.money.discountAmount, a.subtotal.value, edit.percent.value)
                           && b.money.finalTotalPrice == a.subtotal.value - b.money.discountAmount)
  }

  /** The whole number of units nearest to that percentage of a subtotal, the upper of two. */
  predicate Nearest(discount: int, subtotal: nat, p: Percent) {
    var unit, exact := 100 * Pow10(p.places), subtotal * p.digits;
    2 * (discount * unit - exact) <= unit && 2 * (exact - discount * unit) < unit
  }

  /** A successful edit changes its row as it says, no other row and no other table. */
  lemma EditEffect(s: Store, caller: Caller, edit: Edit)
    requires Apply(s, caller, edit).Ok?
    ensures edit.id in s.estimates
    ensures var next := After(s, caller, edit);
            && next.estimates.Keys == s.estimates.Keys
            && Became(s.estimates[edit.id], next.estimates[edit.id], caller.user, edit)
            && (forall x :: x in s.estimates && x != edit.id ==> next.estimates[x] == s.estimates[x])
            && next.(estimates := s.estimates) == s
  {
    SameRow(s, edit.id);
    if edit.Discount? && s.estimates[edit.id].subtotal.Some? {
      DiscountNearest(s.estimates[edit.id].subtotal.value, edit.percent.value);
    }
  }

  /** Nobody edits across tenants, in a removed project, or without the right that the edit needs. */
  lemma EditAuthorized(s: Store, caller: Caller, edit: Edit)
    requires Apply(s, caller, edit).Ok?
    ensures edit.id in s.estimates
    ensures var draft := s.estimates[edit.id].draft;
            && draft.tenant == caller.tenant && caller.tenant in s.activeTenants
            && draft.project in s.projects && s.projects[draft.project] == Project(caller.tenant, false)
            && caller.user in s.profiles && s.profiles[caller.user] == Profile(caller.tenant, true)
            && (edit.EditNotes? ==> (caller.user, draft.project, Write) in s.access)
            && (edit.Archive? ==> (caller.user, draft.project, Remove) in s.access)
            && (!edit.EditNotes? && !edit.Archive? ==> (caller.user, draft.project, Approve) in s.access)
  {
  }

  // ---------------------------------------------------------------------------------------------
  // What every edit keeps

  /** An applied discount and the final price add up to the subtotal, and neither is negative. */
  predicate Balanced(e: Estimate) {
    e.money.discountApplied ==>
      e.subtotal.Some? && 0 <= e.money.discountAmount <= e.subtotal.value
      && e.money.discountAmount + e.money.finalTotalPrice == e.subtotal.value
  }

  /** What may happen to one row in one edit. */
  predicate RowStep(a: Estimate, b: Estimate, decided: bool, captureOnly: bool) {
    && b.draft == a.draft && b.locked == a.locked && b.superseded == a.superseded && b.subtotal == a.subtotal
    && (Balanced(a) ==> Balanced(b))
    && (b.status != a.status ==> b.status != Approved && !b.status.Internal())
    && (decided ==> b.status == a.status && b.money == a.money && b.rejection == a.rejection)
    && (captureOnly ==>
        b.money == a.money && b.rejection == a.rejection && (b.status == a.status || b.status == Archived))
  }

  /** What an edit of one draft does to the whole store. */
  predicate EditStep(s: Store, t: Store, id: Id, captureOnly: bool)
    requires id in s.estimates
  {
    && t.estimates.Keys == s.estimates.Keys
    && t == SetRow(s, id, t.estimates[id])
    && RowStep(s.estimates[id], t.estimates[id], s.Decided(id), captureOnly)
  }

  /** A draft that is historical or has a historical ancestor. */
  ghost predicate CaptureOnly(s: Store, id: Id)
    requires id in s.estimates
  {
    HistoricalAncestor(LineageQuery(s, id, false))
  }

  lemma HistoricalNotAcceptable(s: Store, id: Id, requireCalculated: bool)
    requires id in s.estimates && CaptureOnly(s, id)
    ensures !LineageOk(s, id, requireCalculated)
  {
    var q, r := LineageQuery(s, id, false), LineageQuery(s, id, requireCalculated);
    var a :| Reaches(q.View(), q.start, a) && a in q.View() && q.Historical(a, q.View()[a]);
    assert !r.RowOk(a);
  }

  lemma HistoricalIsCaptureOnly(s: Store, id: Id)
    requires id in s.estimates && s.Historical(id)
    ensures CaptureOnly(s, id)
  {
    SelfReached(LineageQuery(s, id, false).View(), id);
  }

  lemma SameRow(s: Store, id: Id)
    requires id in s.estimates
    ensures EditStep(s, s, id, true)
  {
    assert s.estimates[id := s.estimates[id]] == s.estimates;
  }

  lemma ChangeKeeps(s: Store, id: Id, to: Status, captureOnly: bool)
    requires id in s.estimates && to != Approved && !to.Internal()
    requires captureOnly ==> !LineageOk(s, id, false)
    ensures ChangeStatusTo(s, id, to).Ok? ==> EditStep(s, ChangeStatusTo(s, id, to).value, id, captureOnly)
  {
    SameRow(s, id);
    if ChangeStatusTo(s, id, to).Ok? { RowOnly(s, id, s.estimates[id].(status := to), captureOnly); }
  }

  /** An edit that replaces one row alone. */
  lemma RowOnly(s: Store, id: Id, row: Estimate, captureOnly: bool)
    requires id in s.estimates && RowStep(s.estimates[id], row, s.Decided(id), captureOnly)
    ensures EditStep(s, SetRow(s, id, row), id, captureOnly)
  {
  }

  lemma RejectKeeps(s: Store, id: Id, user: Id, reason: string, captureOnly: bool)
    requires id in s.estimates
    requires captureOnly ==> !LineageOk(s, id, false)
    ensures RejectTo(s, id, user, reason).Ok? ==> EditStep(s, RejectTo(s, id, user, reason).value, id, captureOnly)
  {
  }

  lemma DiscountKeeps(s: Store, id: Id, percent: Percent, captureOnly: bool)
    requires id in s.estimates && percent.Ok()
    requires captureOnly ==> !LineageOk(s, id, true)
    ensures DiscountTo(s, id, percent).Ok? ==> EditStep(s, DiscountTo(s, id, percent).value, id, captureOnly)
  {
    if s.estimates[id].subtotal.Some? { DiscountNearest(s.estimates[id].subtotal.value, percent); }
  }

  /** A successful edit touches its own row alone, within the rules of RowStep. */
  lemma EditKeeps(s: Store, caller: Caller, edit: Edit)
    requires Apply(s, caller, edit).Ok?
    ensures edit.id in s.estimates
    ensures EditStep(s, After(s, caller, edit), edit.id, CaptureOnly(s, edit.id))
  {
    var captureOnly := CaptureOnly(s, edit.id);
    if captureOnly {
      HistoricalNotAcceptable(s, edit.id, false);
      HistoricalNotAcceptable(s, edit.id, true);
    }
    match edit
    case ChangeStatus(id, to) => ChangeKeeps(s, id, to, captureOnly);
    case Archive(id) => ChangeKeeps(s, id, Archived, captureOnly);
    case Reject(id, reason) => RejectKeeps(s, id, caller.user, reason, captureOnly);
    case Discount(id, percent) => DiscountKeeps(s, id, percent.value, captureOnly);
    case EditNotes(id, text) =>
  }

  // ---------------------------------------------------------------------------------------------
  // Runs

  /** An edit, or other parts of the system recording decision evidence or a historical import. */
  datatype Event =
    | Edited(caller: Caller, edit: Edit)
    | SnapshotTaken(id: Id)
    | ApprovalRecorded(id: Id)
    | ImportLinked(id: Id)

  ghost function Step(s: Store, event: Event): Store {
    match event
    case Edited(caller, edit) => After(s, caller, edit)
    case SnapshotTaken(id) => s.(snapshots := s.snapshots + {id})
    case ApprovalRecorded(id) => s.(approvals := s.approvals + {id})
    case ImportLinked(id) => s.(imports := s.imports + {id})
  }

  ghost function Run(s: Store, events: seq<Event>): Store {
    if events == [] then s else Step(Run(s, events[..|events| - 1]), events[|events| - 1])
  }

  /** What a step keeps of a draft and of the records about it. */
  ghost predicate Kept(s: Store, t: Store, id: Id)
    requires id in s.estimates
  {
    && t.estimates.Keys == s.estimates.Keys
    && (forall x :: x in s.estimates ==> t.estimates[x].draft == s.estimates[x].draft)
    && s.snapshots <= t.snapshots && s.approvals <= t.approvals && s.imports <= t.imports
    && (var (a, b) := (s.estimates[id], t.estimates[id]);
        && (b.status == Approved || b.status.Internal() ==> b.status == a.status)
        && (Balanced(a) ==> Balanced(b))
        && (s.Decided(id) ==> b.status == a.status && b.money == a.money && b.rejection == a.rejection)
        && (CaptureOnly(s, id) ==>
              b.money == a.money && b.rejection == a.rejection && (b.status == a.status || b.status == Archived)))
  }

  lemma StepKept(s: Store, event: Event, id: Id)
    requires id in s.estimates
    ensures Kept(s, Step(s, event), id)
  {
    if event.Edited? && Apply(s, event.caller, event.edit).Ok? {
      EditKeeps(s, event.caller, event.edit);
    }
  }

  lemma CaptureOnlyPersists(s: Store, t: Store, id: Id)
    requires id in s.estimates && Kept(s, t, id) && CaptureOnly(s, id)
    ensures CaptureOnly(t, id)
  {
    var q, r := LineageQuery(s, id, false), LineageQuery(t, id, false);
    assert q.View() == r.View() by { assert s.Table() == t.Table(); }
    var a :| Reaches(q.View(), q.start, a) && a in q.View() && q.Historical(a, q.View()[a]);
    assert r.Historical(a, r.View()[a]);
  }

  lemma KeptComposes(s: Store, t: Store, u: Store, id: Id)
    requires id in s.estimates && Kept(s, t, id) && Kept(t, u, id)
    ensures Kept(s, u, id)
  {
    if CaptureOnly(s, id) {
      CaptureOnlyPersists(s, t, id);
    }
  }

  /**
   * Over every run: no draft newly enters approved or an internal-approval status; discount and final
   * price go on adding up to the subtotal; a decided draft keeps its status and money; and a draft
   * with a historical ancestor keeps its money and can only be archived, for good.
   */
  lemma {:induction false} RunKept(s: Store, events: seq<Event>, id: Id)
    requires id in s.estimates
    ensures Kept(s, Run(s, events), id)
  {
    if events != [] {
      var init := events[..|events| - 1];
      RunKept(s, init, id);
      StepKept(Run(s, init), events[|events| - 1], id);
      KeptComposes(s, Run(s, init), Run(s, events), id);
    }
  }

  /** Once archived, a historical draft stays archived. */
  lemma HistoricalStaysArchived(s: Store, events: seq<Event>, id: Id)
    requires id in s.estimates && s.Historical(id) && s.estimates[id].status == Archived
    ensures id in Run(s, events).estimates && Run(s, events).estimates[id].status == Archived
  {
    RunKept(s, events, id);
    HistoricalIsCaptureOnly(s, id);
  }
}
