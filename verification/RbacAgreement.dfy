/**
 * Writer and verifier of the RBAC saga agree: a history is accepted exactly when it is the audits of
 * one possible apply, or of one possible apply and one possible withdrawal that fit together.
 */
module RbacAgreement {
  import opened Wrappers
  import opened Collections
  import opened Rbac

  // ---------------------------------------------------------------------------------------------
  // The audits of one phase

  function PhaseOf(c: Change): Phase {
    if c == DeleteEdge || c == RestoreProfile then Withdraw else Apply
  }

  /** The phase an audit's action belongs to. */
  predicate Belongs(a: Audit, phase: Phase) {
    match a.action
    case Changed(c) => PhaseOf(c) == phase
    case Completed(p) => p == phase
    case OtherAction(_) => false
  }

  /** The mutations name the changes of the phase, in order. */
  predicate Shaped(m: Manifest, r: Receipt) {
    && |r.mutations| == |Required(m, r.phase)|
    && forall i :: 0 <= i < |r.mutations| ==>
         var step := Required(m, r.phase)[i];
         r.mutations[i].action == Changed(step.change) && r.mutations[i].table == step.table
         && r.mutations[i].recordId == step.recordId
  }

  /** Receipts that an executor of this manifest could have written. */
  predicate Possible(m: Manifest, phase: Phase, r: Receipt) {
    r.phase == phase && ReceiptOk(m, phase, r) && Shaped(m, r)
  }

  lemma StepsDiffer(m: Manifest, phase: Phase, i: nat, j: nat)
    requires i < j < |Required(m, phase)|
    ensures Required(m, phase)[i].change != Required(m, phase)[j].change
    ensures PhaseOf(Required(m, phase)[i].change) == phase && PhaseOf(Required(m, phase)[j].change) == phase
  {
  }

  lemma StepPhase(m: Manifest, phase: Phase, i: nat)
    requires i < |Required(m, phase)|
    ensures PhaseOf(Required(m, phase)[i].change) == phase
  {
  }

  lemma AuditKinds(m: Manifest, r: Receipt, id: Id, stamps: seq<string>, a: Audit)
    requires Shaped(m, r) && |r.mutations| < |stamps| && a in PhaseAudits(m, r, id, stamps)
    ensures a == ReceiptAudit(m, r, id, stamps[|r.mutations|])
            || exists i :: 0 <= i < |r.mutations| && a == AuditOf(m, r.phase, r.mutations[i], stamps[i])
    ensures Belongs(a, r.phase)
  {
    if i :| 0 <= i < |r.mutations| && a == AuditOf(m, r.phase, r.mutations[i], stamps[i]) {
      StepPhase(m, r.phase, i);
    }
  }

  /** Among other audits, those of a phase are found by their actions. */
  lemma FindMutation(m: Manifest, r: Receipt, id: Id, stamps: seq<string>, rest: set<Audit>, i: nat)
    requires Shaped(m, r) && |r.mutations| < |stamps| && i < |r.mutations|
    requires forall a :: a in rest ==> !Belongs(a, r.phase)
    ensures With(rest + PhaseAudits(m, r, id, stamps), r.mutations[i].action)
              == {AuditOf(m, r.phase, r.mutations[i], stamps[i])}
  {
    var own := PhaseAudits(m, r, id, stamps);
    StepPhase(m, r.phase, i);
    forall a | a in With(rest + own, r.mutations[i].action)
      ensures a == AuditOf(m, r.phase, r.mutations[i], stamps[i])
    {
      assert a !in rest;
      AuditKinds(m, r, id, stamps, a);
      if j :| 0 <= j < |r.mutations| && a == AuditOf(m, r.phase, r.mutations[j], stamps[j]) {
        if i < j { StepsDiffer(m, r.phase, i, j); }
        if j < i { StepsDiffer(m, r.phase, j, i); }
      }
    }
    assert AuditOf(m, r.phase, r.mutations[i], stamps[i]) in own;
  }

  lemma FindReceipt(m: Manifest, r: Receipt, id: Id, stamps: seq<string>, rest: set<Audit>)
    requires Shaped(m, r) && |r.mutations| < |stamps|
    requires forall a :: a in rest ==> !Belongs(a, r.phase)
    ensures With(rest + PhaseAudits(m, r, id, stamps), Completed(r.phase))
              == {ReceiptAudit(m, r, id, stamps[|r.mutations|])}
  {
    var own := PhaseAudits(m, r, id, stamps);
    forall a | a in With(rest + own, Completed(r.phase))
      ensures a == ReceiptAudit(m, r, id, stamps[|r.mutations|])
    {
      assert a !in rest;
      AuditKinds(m, r, id, stamps, a);
    }
    assert ReceiptAudit(m, r, id, stamps[|r.mutations|]) in own;
  }

  /** What a possible receipt's executor wrote is accepted, whatever the other phase wrote. */
  lemma PhaseAccepted(m: Manifest, phase: Phase, r: Receipt, id: Id, stamps: seq<string>, rest: set<Audit>)
    requires Possible(m, phase, r) && |r.mutations| < |stamps|
    requires forall a :: a in rest ==> !Belongs(a, phase)
    ensures VerifyPhase(rest + PhaseAudits(m, r, id, stamps), m, phase) == Some(r)
  {
    var audits := rest + PhaseAudits(m, r, id, stamps);
    FindReceipt(m, r, id, stamps, rest);
    forall i | 0 <= i < |r.mutations|
      ensures MutationOk(audits, m, phase, Required(m, phase)[i], r.mutations[i])
    {
      FindMutation(m, r, id, stamps, rest, i);
    }
  }

  lemma MutationAudit(audits: set<Audit>, m: Manifest, phase: Phase, step: Step, mu: Mutation) returns (a: Audit)
    requires MutationOk(audits, m, phase, step, mu)
    ensures a in audits && a == AuditOf(m, phase, mu, a.stamp)
  {
    assert With(audits, mu.action) != {};
    a :| a in With(audits, mu.action);
  }

  lemma CollectStamps(audits: set<Audit>, m: Manifest, r: Receipt, done: Audit) returns (stamps: seq<string>)
    requires Shaped(m, r) && done in audits && done == ReceiptAudit(m, r, done.id, done.stamp)
    requires forall i :: 0 <= i < |r.mutations| ==>
               MutationOk(audits, m, r.phase, Required(m, r.phase)[i], r.mutations[i])
    ensures |stamps| == |r.mutations| + 1 && PhaseAudits(m, r, done.id, stamps) <= audits
  {
    stamps := [];
    var i := 0;
    while i < |r.mutations|
      invariant 0 <= i <= |r.mutations| && |stamps| == i
      invariant forall j :: 0 <= j < i ==> AuditOf(m, r.phase, r.mutations[j], stamps[j]) in audits
    {
      var a := MutationAudit(audits, m, r.phase, Required(m, r.phase)[i], r.mutations[i]);
      stamps := stamps + [a.stamp];
      i := i + 1;
    }
    stamps := stamps + [done.stamp];
  }

  lemma PhaseParts(audits: set<Audit>, m: Manifest, phase: Phase) returns (done: Audit)
    requires VerifyPhase(audits, m, phase).Some?
    ensures var r := VerifyPhase(audits, m, phase).value;
            && Possible(m, phase, r)
            && done in audits && done == ReceiptAudit(m, r, done.id, done.stamp)
            && forall i :: 0 <= i < |r.mutations| ==>
                 MutationOk(audits, m, phase, Required(m, phase)[i], r.mutations[i])
  {
    done := Completion(audits, phase).value;
    assert done in With(audits, Completed(phase));
  }

  /** What is accepted for a phase contains the audits of a possible receipt. */
  lemma AcceptedPhase(audits: set<Audit>, m: Manifest, phase: Phase) returns (id: Id, stamps: seq<string>)
    requires VerifyPhase(audits, m, phase).Some?
    ensures var r := VerifyPhase(audits, m, phase).value;
            Possible(m, phase, r) && |stamps| == |r.mutations| + 1 && PhaseAudits(m, r, id, stamps) <= audits
  {
    var done := PhaseParts(audits, m, phase);
    id := done.id;
    stamps := CollectStamps(audits, m, VerifyPhase(audits, m, phase).value, done);
  }

  // ---------------------------------------------------------------------------------------------
  // Histories

  lemma AuditsDiffer(m: Manifest, r: Receipt, stamps: seq<string>, i: nat, j: nat)
    requires Shaped(m, r) && |r.mutations| < |stamps| && i < j < |r.mutations|
    ensures AuditOf(m, r.phase, r.mutations[i], stamps[i]) != AuditOf(m, r.phase, r.mutations[j], stamps[j])
  {
    StepsDiffer(m, r.phase, i, j);
  }

  /** The audits of the first n mutations. */
  function FirstAudits(m: Manifest, r: Receipt, stamps: seq<string>, n: nat): set<Audit>
    requires n <= |r.mutations| <= |stamps|
  {
    set i | 0 <= i < n :: AuditOf(m, r.phase, r.mutations[i], stamps[i])
  }

  lemma OneMoreAudit(m: Manifest, r: Receipt, stamps: seq<string>, n: nat)
    requires n < |r.mutations| <= |stamps|
    ensures FirstAudits(m, r, stamps, n + 1)
         == FirstAudits(m, r, stamps, n) + {AuditOf(m, r.phase, r.mutations[n], stamps[n])}
  {
  }

  lemma LastIsNew(m: Manifest, r: Receipt, stamps: seq<string>, n: nat)
    requires Shaped(m, r) && n < |r.mutations| < |stamps|
    ensures AuditOf(m, r.phase, r.mutations[n], stamps[n]) !in FirstAudits(m, r, stamps, n)
  {
    forall i | 0 <= i < n
      ensures AuditOf(m, r.phase, r.mutations[i], stamps[i]) != AuditOf(m, r.phase, r.mutations[n], stamps[n])
    {
      AuditsDiffer(m, r, stamps, i, n);
    }
  }

  lemma {:induction false} MutationCount(m: Manifest, r: Receipt, stamps: seq<string>, n: nat)
    requires Shaped(m, r) && n <= |r.mutations| < |stamps|
    ensures |FirstAudits(m, r, stamps, n)| == n
  {
    if n > 0 {
      MutationCount(m, r, stamps, n - 1);
      LastIsNew(m, r, stamps, n - 1);
      OneMoreAudit(m, r, stamps, n - 1);
    }
  }

  /** Five audits for an apply, three for a withdrawal. */
  lemma PhaseCount(m: Manifest, r: Receipt, id: Id, stamps: seq<string>)
    requires Shaped(m, r) && |r.mutations| < |stamps|
    ensures |PhaseAudits(m, r, id, stamps)| == if r.phase == Apply then 5 else 3
  {
    MutationCount(m, r, stamps, |r.mutations|);
    assert PhaseAudits(m, r, id, stamps)
             == FirstAudits(m, r, stamps, |r.mutations|) + {ReceiptAudit(m, r, id, stamps[|r.mutations|])};
  }

  /** The audits are those of the receipts in the history, with some ids and stamps. */
  ghost predicate WrittenBy(m: Manifest, audits: set<Audit>, h: History) {
    exists id, stamps :: |stamps| > |h.applied.mutations| &&
      match h.withdrawn
      case None => audits == PhaseAudits(m, h.applied, id, stamps)
      case Some(w) =>
        exists id', stamps' :: |stamps'| > |w.mutations| &&
          audits == PhaseAudits(m, h.applied, id, stamps) + PhaseAudits(m, w, id', stamps')
  }

  predicate PossibleHistory(m: Manifest, h: History) {
    && Possible(m, Apply, h.applied)
    && (h.withdrawn.Some? ==> Possible(m, Withdraw, h.withdrawn.value))
    && Consistent(h)
  }

  lemma Apart(m: Manifest, r: Receipt, id: Id, stamps: seq<string>, other: Phase)
    requires Shaped(m, r) && |r.mutations| < |stamps| && r.phase != other
    ensures forall a :: a in PhaseAudits(m, r, id, stamps) ==> !Belongs(a, other)
  {
    forall a | a in PhaseAudits(m, r, id, stamps)
      ensures !Belongs(a, other)
    {
      AuditKinds(m, r, id, stamps, a);
    }
  }

  lemma NoWithdrawal(m: Manifest, r: Receipt, id: Id, stamps: seq<string>)
    requires Shaped(m, r) && r.phase == Apply && |r.mutations| < |stamps|
    ensures With(PhaseAudits(m, r, id, stamps), Completed(Withdraw)) == {}
    ensures |PhaseAudits(m, r, id, stamps)| == 5
  {
    Apart(m, r, id, stamps, Withdraw);
    PhaseCount(m, r, id, stamps);
  }

  lemma AppliedAccepted(m: Manifest, h: History, id: Id, stamps: seq<string>)
    requires PossibleHistory(m, h) && h.withdrawn.None? && |h.applied.mutations| < |stamps|
    ensures VerifyHistory(PhaseAudits(m, h.applied, id, stamps), m) == Some(h)
  {
    var audits := PhaseAudits(m, h.applied, id, stamps);
    NoOthers(audits);
    NoWithdrawal(m, h.applied, id, stamps);
    PhaseAccepted(m, Apply, h.applied, id, stamps, {});
  }

  /** Both phases together: eight audits, each phase found as if it were alone. */
  lemma BothPhases(m: Manifest, a: Receipt, w: Receipt, id: Id, stamps: seq<string>, id': Id, stamps': seq<string>)
    requires Shaped(m, a) && a.phase == Apply && |a.mutations| < |stamps|
    requires Shaped(m, w) && w.phase == Withdraw && |w.mutations| < |stamps'|
    ensures |PhaseAudits(m, a, id, stamps) + PhaseAudits(m, w, id', stamps')| == 8
    ensures With(PhaseAudits(m, a, id, stamps) + PhaseAudits(m, w, id', stamps'), Completed(Withdraw)) != {}
    ensures forall x :: x in PhaseAudits(m, a, id, stamps) ==> !Belongs(x, Withdraw)
    ensures forall x :: x in PhaseAudits(m, w, id', stamps') ==> !Belongs(x, Apply)
  {
    var first, second := PhaseAudits(m, a, id, stamps), PhaseAudits(m, w, id', stamps');
    Apart(m, a, id, stamps, Withdraw);
    Apart(m, w, id', stamps', Apply);
    PhaseCount(m, a, id, stamps);
    PhaseCount(m, w, id', stamps');
    forall x | x in first ensures x !in second { if x in second { AuditKinds(m, w, id', stamps', x); } }
    assert first !! second;
    FindReceipt(m, w, id', stamps', first);
  }

  lemma EitherOrder(a: set<Audit>, b: set<Audit>)
    ensures a + b == b + a
  {
  }

  lemma NoOthers(a: set<Audit>)
    ensures {} + a == a
  {
  }

  /** An apply is verified among the audits of a withdrawal. */
  lemma ApplyAmong(m: Manifest, a: Receipt, id: Id, stamps: seq<string>, second: set<Audit>)
    requires Possible(m, Apply, a) && |a.mutations| < |stamps|
    requires forall x :: x in second ==> !Belongs(x, Apply)
    ensures VerifyPhase(PhaseAudits(m, a, id, stamps) + second, m, Apply) == Some(a)
  {
    EitherOrder(PhaseAudits(m, a, id, stamps), second);
    PhaseAccepted(m, Apply, a, id, stamps, second);
  }

  lemma WithdrawnAccepted(m: Manifest, h: History, id: Id, stamps: seq<string>, id': Id, stamps': seq<string>)
    requires PossibleHistory(m, h) && h.withdrawn.Some?
    requires |h.applied.mutations| < |stamps| && |h.withdrawn.value.mutations| < |stamps'|
    ensures VerifyHistory(PhaseAudits(m, h.applied, id, stamps) + PhaseAudits(m, h.withdrawn.value, id', stamps'), m)
              == Some(h)
  {
    var w := h.withdrawn.value;
    var first, second := PhaseAudits(m, h.applied, id, stamps), PhaseAudits(m, w, id', stamps');
    BothPhases(m, h.applied, w, id, stamps, id', stamps');
    ApplyAmong(m, h.applied, id, stamps, second);
    PhaseAccepted(m, Withdraw, w, id', stamps', first);
  }

  lemma AcceptedIsWritten(m: Manifest, audits: set<Audit>)
    requires VerifyHistory(audits, m).Some?
    ensures PossibleHistory(m, VerifyHistory(audits, m).value) && WrittenBy(m, audits, VerifyHistory(audits, m).value)
  {
    var h := VerifyHistory(audits, m).value;
    var id, stamps := AcceptedPhase(audits, m, Apply);
    PhaseCount(m, h.applied, id, stamps);
    if h.withdrawn.None? {
      SubsetSize(PhaseAudits(m, h.applied, id, stamps), audits);
    } else {
      var w := h.withdrawn.value;
      var id', stamps' := AcceptedPhase(audits, m, Withdraw);
      BothPhases(m, h.applied, w, id, stamps, id', stamps');
      SubsetSize(PhaseAudits(m, h.applied, id, stamps) + PhaseAudits(m, w, id', stamps'), audits);
    }
  }

  /** A history is accepted exactly when possible executions wrote all of its audits. */
  lemma AcceptedIffWritten(m: Manifest, audits: set<Audit>, h: History)
    ensures VerifyHistory(audits, m) == Some(h) <==> PossibleHistory(m, h) && WrittenBy(m, audits, h)
  {
    if VerifyHistory(audits, m) == Some(h) { AcceptedIsWritten(m, audits); }
    if PossibleHistory(m, h) && WrittenBy(m, audits, h) {
      if h.withdrawn.None? {
        var id, stamps :| |stamps| > |h.applied.mutations| && audits == PhaseAudits(m, h.applied, id, stamps);
        AppliedAccepted(m, h, id, stamps);
      } else {
        var w := h.withdrawn.value;
        var id, stamps, id', stamps' :| |stamps| > |h.applied.mutations| && |stamps'| > |w.mutations|
          && audits == PhaseAudits(m, h.applied, id, stamps) + PhaseAudits(m, w, id', stamps');
        WithdrawnAccepted(m, h, id, stamps, id', stamps');
      }
    }
  }
}
