/**
 * Writer and verifier agree: an audit set is accepted exactly when it is one that the writer could
 * have left, and then the verifier rebuilds exactly the written rows.
 */
module HomologAgreement {
  import opened Wrappers
  import opened Collections
  import opened HomologEvidence

  // Shapes and audits correspond one to one

  predicate ShapesDiffer(audits: set<Audit>) {
    forall a, b :: a in audits && b in audits && a.shape == b.shape ==> a == b
  }

  lemma {:induction false} ShapesSize(audits: set<Audit>)
    ensures |ShapesOf(audits)| <= |audits|
    ensures |ShapesOf(audits)| == |audits| <==> ShapesDiffer(audits)
    decreases audits
  {
    if audits != {} {
      var x :| x in audits;
      var rest := audits - {x};
      ShapesSize(rest);
      assert audits == rest + {x};
      assert ShapesOf(audits) == ShapesOf(rest) + {x.shape};
      if x.shape in ShapesOf(rest) {
        var y :| y in rest && y.shape == x.shape;
        assert ShapesOf(audits) == ShapesOf(rest);
        assert !ShapesDiffer(audits) by { assert x in audits && y in audits && x != y; }
      } else {
        assert ShapesDiffer(audits) <==> ShapesDiffer(rest) by {
          assert forall y :: y in rest ==> y.shape in ShapesOf(rest);
        }
      }
    }
  }

  lemma WrittenShapes(ctx: Context, c: Commit)
    ensures ShapesOf(Written(ctx, c)) == Shapes(ctx, c.at, CommitReceipt(ctx, c))
  {
    var written, shapes := Written(ctx, c), Shapes(ctx, c.at, CommitReceipt(ctx, c));
    forall s | s in shapes
      ensures s in ShapesOf(written)
    {
      if s == ReceiptShape(ctx, CommitReceipt(ctx, c)) {
        assert ReceiptAudit(ctx, c) in written;
      } else {
        var k :| k in ctx.Next(c.at) && s == RowShape(ctx, k, ctx.Next(c.at)[k]);
        assert RowAudit(ctx, c, k) in written;
      }
    }
  }

  /** The rows an operation writes do not depend on its time, only their times do. */
  lemma KeysFixed(ctx: Context, at: Time)
    ensures ctx.Next(at).Keys == ctx.Keys()
  {
  }

  lemma WrittenDiffer(ctx: Context, c: Commit)
    requires ContextOk(ctx)
    ensures ShapesDiffer(Written(ctx, c))
  {
    KeysFixed(ctx, c.at);
    forall a, b | a in Written(ctx, c) && b in Written(ctx, c) && a.shape == b.shape
      ensures a == b
    {
      WrittenKinds(ctx, c, a);
      WrittenKinds(ctx, c, b);
      if a != ReceiptAudit(ctx, c) {
        var k :| k in ctx.Next(c.at) && a == RowAudit(ctx, c, k);
        assert b != ReceiptAudit(ctx, c) by { assert k.id in ctx.Ids(); }
      }
    }
  }

  lemma WrittenKinds(ctx: Context, c: Commit, a: Audit)
    requires a in Written(ctx, c)
    ensures a == ReceiptAudit(ctx, c) || exists k :: k in ctx.Next(c.at) && a == RowAudit(ctx, c, k)
  {
  }

  /**
   * What the audit of a row says: whose row it is, how it was before, and how the operation left it; a
   * withdrawal or reactivation changes activity and the time of the last change alone.
   */
  lemma RowAuditTells(ctx: Context, c: Commit, k: Key)
    requires ContextOk(ctx) && CommitOk(ctx, c) && k in ctx.Next(c.at)
    ensures k.id in c.rowAudits
    ensures var after := ctx.Next(c.at)[k];
            var was := if ctx.op == Create || k !in ctx.before then Absent else RowBefore(ctx.before[k]);
            var left := RowAfter(ctx.operationId, Digest(ManifestDoc(ctx.manifest)), after);
            var shape := Shape(None, RowAction(ctx.family, k.table, ctx.op), RowTable(k.table), k.id, was, left, None);
            Audit(c.rowAudits[k.id], c.auditedAt, shape) in Written(ctx, c)
    ensures ctx.op != Create ==> k in ctx.before
    ensures ctx.op != Create ==>
              ctx.Next(c.at)[k] == ctx.before[k].(isActive := ctx.op == Reactivate, updatedAt := c.at)
  {
    KeysFixed(ctx, c.at);
    assert k.id in ctx.Ids();
    assert RowAudit(ctx, c, k) in Written(ctx, c);
  }

  /**
   * What the receipt says: the operation, its manifest with the digest, the rows before and after, what
   * it is linked to, when and by whom; and, after the bootstrap, under which id each row was audited.
   */
  lemma ReceiptTells(ctx: Context, c: Commit)
    requires CommitOk(ctx, c)
    ensures var ids := if ctx.family == Bootstrap then map[] else c.rowAudits;
            var r := Receipt(ctx.family, ctx.op, ctx.operationId, Digest(ManifestDoc(ctx.manifest)), ctx.manifest,
                             ctx.before, ctx.link, ctx.Next(c.at), c.at, c.actor, ids, c.executor);
            var shape := Shape(None, Completed(ctx.family, ctx.op), ReceiptTable(ctx.family), ctx.operationId,
                               Absent, ReceiptOf(r), None);
            Audit(c.receiptAudit, c.auditedAt, shape) in Written(ctx, c)
  {
    assert ReceiptAudit(ctx, c) in Written(ctx, c);
  }

  lemma WrittenReceipt(ctx: Context, c: Commit)
    requires ContextOk(ctx)
    ensures SingleReceipt(ctx, Written(ctx, c)) == Some(CommitReceipt(ctx, c))
  {
    var receipt := ReceiptAudit(ctx, c);
    KeysFixed(ctx, c.at);
    assert Receipts(ctx, Written(ctx, c)) == {receipt} by {
      assert receipt in Written(ctx, c) && IsReceipt(ctx, receipt);
      forall a | a in Receipts(ctx, Written(ctx, c))
        ensures a == receipt
      {
        assert forall k :: k in ctx.Keys() ==> k.id in ctx.Ids();
        WrittenKinds(ctx, c, a);
      }
    }
  }

  lemma WrittenMetadata(ctx: Context, c: Commit)
    requires ContextOk(ctx) && CommitOk(ctx, c) && ctx.family != Bootstrap
    ensures MetadataOk(Written(ctx, c), c.at, c.rowAudits)
  {
    forall a | a in Written(ctx, c)
      ensures a.createdAt == c.at && (a.shape.recordId in c.rowAudits ==> a.id == c.rowAudits[a.shape.recordId])
    {
      WrittenKinds(ctx, c, a);
    }
  }

  /** Whatever a committed operation leaves is accepted and yields the rows it wrote. */
  lemma WriterAccepted(ctx: Context, c: Commit)
    requires ContextOk(ctx) && CommitOk(ctx, c)
    ensures Check(ctx, Written(ctx, c)) == Some(ctx.Next(c.at))
  {
    WrittenReceipt(ctx, c);
    WrittenShapes(ctx, c);
    WrittenDiffer(ctx, c);
    ShapesSize(Written(ctx, c));
    if ctx.family != Bootstrap {
      WrittenMetadata(ctx, c);
    } else {
      forall a, b | a in Written(ctx, c) && b in Written(ctx, c)
        ensures a.createdAt == b.createdAt
      {
        WrittenKinds(ctx, c, a);
        WrittenKinds(ctx, c, b);
      }
    }
  }

  // ---------------------------------------------------------------------------------------------
  // Accepted evidence is written evidence

  /** Evidence with the expected shapes, times and ids is what the commit wrote. */
  lemma MatchesCommit(ctx: Context, c: Commit, audits: set<Audit>)
    requires ContextOk(ctx)
    requires SameShapes(audits, Shapes(ctx, c.at, CommitReceipt(ctx, c)))
    requires forall a :: a in audits ==> a.createdAt == c.auditedAt
    requires forall a :: a in audits && a.shape.recordId == ctx.operationId ==> a.id == c.receiptAudit
    requires forall a :: a in audits && a.shape.recordId in ctx.Ids() ==> a.id == Lookup(c.rowAudits, a.shape.recordId)
    ensures audits == Written(ctx, c)
  {
    KeysFixed(ctx, c.at);
    var shapes := Shapes(ctx, c.at, CommitReceipt(ctx, c));
    forall a | a in audits
      ensures a in Written(ctx, c)
    {
      assert a.shape in ShapesOf(audits);
      if k :| k in ctx.Next(c.at) && a.shape == RowShape(ctx, k, ctx.Next(c.at)[k]) {
        assert k.id in ctx.Ids();
        assert a == RowAudit(ctx, c, k);
      } else {
        assert a == ReceiptAudit(ctx, c);
      }
    }
    WrittenShapes(ctx, c);
    WrittenDiffer(ctx, c);
    forall w | w in Written(ctx, c)
      ensures w in audits
    {
      assert w.shape in ShapesOf(Written(ctx, c));
      var a :| a in audits && a.shape == w.shape;
    }
  }

  /** The one receipt among accepted audits, and the shapes of all of them. */
  lemma ReceiptFound(ctx: Context, audits: set<Audit>) returns (a: Audit)
    requires SingleReceipt(ctx, audits).Some?
    ensures a in audits && IsReceipt(ctx, a) && a.shape.newValues == ReceiptOf(SingleReceipt(ctx, audits).value)
    ensures forall b :: b in audits && IsReceipt(ctx, b) ==> b == a
  {
    var found := Receipts(ctx, audits);
    a :| a in found;
    forall b | b in audits && IsReceipt(ctx, b) ensures b == a { SizeOne(found, a, b); }
  }

  /** Shape by shape, accepted audits belong to the receipt or to one row. */
  lemma ShapeCases(ctx: Context, at: Time, r: Receipt, audits: set<Audit>, a: Audit)
    requires ContextOk(ctx) && SameShapes(audits, Shapes(ctx, at, r)) && a in audits
    ensures a.shape.recordId == ctx.operationId <==> IsReceipt(ctx, a)
    ensures a.shape.recordId == ctx.operationId || a.shape.recordId in ctx.Ids()
  {
    KeysFixed(ctx, at);
    assert a.shape in ShapesOf(audits);
    if k :| k in ctx.Next(at) && a.shape == RowShape(ctx, k, ctx.Next(at)[k]) {
      assert k.id in ctx.Ids();
    }
  }

  lemma RowFound(ctx: Context, at: Time, r: Receipt, audits: set<Audit>, id: Id) returns (a: Audit)
    requires ContextOk(ctx) && SameShapes(audits, Shapes(ctx, at, r)) && id in ctx.Ids()
    ensures a in audits && a.shape.recordId == id && !IsReceipt(ctx, a)
    ensures forall b :: b in audits && b.shape.recordId == id ==> b == a
  {
    KeysFixed(ctx, at);
    var k :| k in ctx.Keys() && k.id == id;
    var shape := RowShape(ctx, k, ctx.Next(at)[k]);
    assert shape in Shapes(ctx, at, r);
    a :| a in audits && a.shape == shape;
    ShapesSize(audits);
    forall b | b in audits && b.shape.recordId == id
      ensures b == a
    {
      assert b.shape in ShapesOf(audits);
      if j :| j in ctx.Next(at) && b.shape == RowShape(ctx, j, ctx.Next(at)[j]) {
        assert j == k;
      }
    }
  }

  /** Whatever the verifier of a later operation accepts, its writer could have left. */
  lemma VerifiedIsWritten(ctx: Context, audits: set<Audit>) returns (c: Commit)
    requires ContextOk(ctx) && UniqueIds(audits) && ctx.family != Bootstrap
    requires Verify(ctx, audits).Some?
    ensures CommitOk(ctx, c) && audits == Written(ctx, c)
    ensures Verify(ctx, audits) == Some(ctx.Next(c.at))
  {
    var r := SingleReceipt(ctx, audits).value;
    var ra := ReceiptFound(ctx, audits);
    c := Commit(r.at, r.at, r.actor, r.rowAuditIds, ra.id, Unstated);
    forall a | a in audits && a.shape.recordId == ctx.operationId
      ensures a == ra
    {
      ShapeCases(ctx, r.at, r, audits, a);
    }
    forall id | id in c.rowAudits
      ensures c.rowAudits[id] != ra.id
    {
      var a := RowFound(ctx, r.at, r, audits, id);
    }
    MatchesCommit(ctx, c, audits);
  }

  /** The same of the bootstrap, whose receipt lists no row audits. */
  lemma VerifiedBootstrapIsWritten(ctx: Context, audits: set<Audit>) returns (c: Commit)
    requires ContextOk(ctx) && UniqueIds(audits) && ctx.family == Bootstrap
    requires VerifyBootstrap(ctx, audits).Some?
    ensures CommitOk(ctx, c) && audits == Written(ctx, c)
    ensures VerifyBootstrap(ctx, audits) == Some(ctx.Next(c.at))
  {
    var r := SingleReceipt(ctx, audits).value;
    var ra := ReceiptFound(ctx, audits);
    forall a | a in audits && a.shape.recordId == ctx.operationId
      ensures a == ra
    {
      ShapeCases(ctx, r.at, r, audits, a);
    }
    var ids := map id | id in ctx.Ids() :: AuditIdOf(audits, id);
    c := Commit(r.at, ra.createdAt, r.actor, ids, ra.id, r.executor);
    forall a | a in audits && a.shape.recordId in ctx.Ids()
      ensures a.id == ids[a.shape.recordId]
    {
      var found := RowFound(ctx, r.at, r, audits, a.shape.recordId);
    }
    forall id | id in ids
      ensures ids[id] != ra.id && (forall j :: j in ids && ids[j] == ids[id] ==> j == id)
    {
      var a := RowFound(ctx, r.at, r, audits, id);
      forall j | j in ids && ids[j] == ids[id]
        ensures j == id
      {
        var b := RowFound(ctx, r.at, r, audits, j);
      }
    }
    MatchesCommit(ctx, c, audits);
  }

  ghost function AuditIdOf(audits: set<Audit>, recordId: Id): Id {
    if a :| a in audits && a.shape.recordId == recordId then a.id else 0
  }

  /** Acceptance is exactly being writable. */
  lemma AcceptedIffWritten(ctx: Context, audits: set<Audit>)
    requires ContextOk(ctx) && UniqueIds(audits)
    ensures Check(ctx, audits).Some? <==> exists c :: CommitOk(ctx, c) && audits == Written(ctx, c)
  {
    if Check(ctx, audits).Some? {
      if ctx.family == Bootstrap { var c := VerifiedBootstrapIsWritten(ctx, audits); }
      else { var c := VerifiedIsWritten(ctx, audits); }
    }
    if c :| CommitOk(ctx, c) && audits == Written(ctx, c) {
      WriterAccepted(ctx, c);
    }
  }
}
