/** Which accepted bundles the durable store can hold: those whose reported
    dispatch precedes the grant's expiry and whose record hashes do not collide. */
module DurableReplay {
  import opened Unicode
  import opened Json
  import opened Records
  import opened Verifier
  import opened Sqlite
  import opened SqliteInvariant
  import R = SqliteRuns

  /** `verify_chain` does not compare the dispatch time with the grant's expiry,
      but the store writes no marker at or after it. */
  ghost predicate Storable(k: Protocol, b: Bundle) {
    (b.grant.Some? && b.receipt.Some? && b.receipt.value.dispatchedAt.Some? ==>
       b.receipt.value.dispatchedAt.value < b.grant.value.expiresAt)
    && (forall i, j | 0 <= i < j < |b.reconciliations| ::
          k.hashReconciliation(b.reconciliations[i]) != k.hashReconciliation(b.reconciliations[j]))
  }

  // ---- The databases along the way ----

  function RowFor(k: Protocol, b: Bundle): ChainRow
    requires b.grant.Some?
  {
    ChainRow(k.hashGrant(b.grant.value), k.hashProposal(b.proposal), k.hashDecision(b.decision),
             b.task, b.proposal, b.decision, b.grant.value)
  }

  /** A snapshot of what the chain committed to, taken at the claim. */
  function SnapshotFor(b: Bundle, key: Units): Snapshot
    requires b.receipt.Some?
  {
    Snapshot(key, 1, b.task.policyEpoch, b.task.configurationEpoch, b.proposal.preStateDigest,
             b.proposal.resourceClaimDigest, false, b.receipt.value.claimedAt)
  }

  function RequestFor(b: Bundle, key: Units): ClaimRequest
    requires b.grant.Some? && b.receipt.Some?
  {
    ClaimRequest(b.receipt.value.attemptId, b.grant.value.audience, key, 1, MAX_CURRENTNESS_AGE_MS)
  }

  function Registered(k: Protocol, b: Bundle): Db
    requires b.grant.Some?
  {
    EmptyDb().(chains := map[b.grant.value.grantId := RowFor(k, b)],
               chainByHash := map[k.hashGrant(b.grant.value) := b.grant.value.grantId])
  }

  function Observed(k: Protocol, b: Bundle, key: Units): Db
    requires b.grant.Some? && b.receipt.Some?
  {
    Registered(k, b).(currentness := map[key := SnapshotFor(b, key)])
  }

  function Claimed(k: Protocol, b: Bundle, key: Units): Db
    requires b.grant.Some? && b.receipt.Some?
  {
    var at := b.receipt.value.claimedAt;
    Observed(k, b, key).(lastTime := Some(at),
                         claims := map[k.hashGrant(b.grant.value) := RowOf(RequestFor(b, key), at)])
  }

  function Marked(k: Protocol, b: Bundle, key: Units): Db
    requires b.grant.Some? && b.receipt.Some?
  {
    var r := b.receipt.value;
    if r.dispatchedAt.None? then Claimed(k, b, key)
    else
      Claimed(k, b, key).(
        lastTime := r.dispatchedAt,
        claims := map[k.hashGrant(b.grant.value) := RowOf(RequestFor(b, key), r.claimedAt).(marker := r.dispatchedAt)])
  }

  function Received(k: Protocol, b: Bundle, key: Units): Db
    requires b.grant.Some? && b.receipt.Some?
  {
    var h, r := k.hashGrant(b.grant.value), b.receipt.value;
    Marked(k, b, key).(receipts := map[h := ReceiptRow(k.hashReceipt(r), r)],
                       receiptByHash := map[k.hashReceipt(r) := h])
  }

  /** The first `n` reconciliation rows. */
  function Rows(k: Protocol, rh: Digest, cs: seq<Reconciliation>, n: nat): (hs: Histories)
    requires n <= |cs| <= MAX_RECONCILIATION_RECORDS
    ensures forall key :: key in hs <==> key.receiptHash == rh && 1 <= key.sequence <= n
    ensures forall key | key in hs ::
              hs[key] == HistoryRow(k.hashReconciliation(cs[key.sequence - 1]), cs[key.sequence - 1])
  {
    if n == 0 then map[]
    else
      var last: u64 := n;
      Rows(k, rh, cs, n - 1)[HistoryKey(rh, last) := HistoryRow(k.hashReconciliation(cs[n - 1]), cs[n - 1])]
  }

  function Reconciled(k: Protocol, b: Bundle, key: Units, n: nat): Db
    requires b.grant.Some? && b.receipt.Some? && n <= |b.reconciliations| <= MAX_RECONCILIATION_RECORDS
  {
    Received(k, b, key).(histories := Rows(k, k.hashReceipt(b.receipt.value), b.reconciliations, n))
  }

  // ---- One transaction at a time ----

  lemma RegisterStep(k: Protocol, b: Bundle)
    requires Accepts(k, b) && b.grant.Some?
    ensures RegisterChain(k, EmptyDb(), b.task, b.proposal, b.decision, b.grant.value) == Some(Registered(k, b))
    ensures Intact(k, RowFor(k, b))
  {
    hide VerifyDecision, VerifyChain, IsHistory;
  }

  lemma ObserveStep(k: Protocol, b: Bundle, key: Units)
    requires Accepts(k, b) && b.receipt.Some? && k.text(key, 1024)
    ensures PutCurrentness(k, Registered(k, b), SnapshotFor(b, key)) == Some(Observed(k, b, key))
  {
    hide IsHistory;
  }

  lemma ClaimStep(k: Protocol, b: Bundle, key: Units)
    requires Accepts(k, b) && b.receipt.Some? && k.text(key, 1024) && Intact(k, RowFor(k, b))
    ensures Claim(k, Observed(k, b, key), b.grant.value, RequestFor(b, key), b.receipt.value.claimedAt)
         == Some(Claimed(k, b, key))
  {
    hide VerifyDecision, IsHistory, Intact;
    assert MayClaim(k, Observed(k, b, key), b.grant.value, RequestFor(b, key), b.receipt.value.claimedAt);
  }

  lemma MarkStep(k: Protocol, b: Bundle, key: Units)
    requires Accepts(k, b) && b.receipt.Some? && Storable(k, b) && Intact(k, RowFor(k, b))
    requires b.receipt.value.dispatchedAt.Some?
    ensures var r := b.receipt.value;
            MarkDispatchStarted(k, Claimed(k, b, key), k.hashGrant(b.grant.value), r.attemptId, r.dispatchedAt.value)
            == Some(Marked(k, b, key))
  {
    hide VerifyDecision, IsHistory, Intact;
    var db, h, r := Claimed(k, b, key), k.hashGrant(b.grant.value), b.receipt.value;
    assert MayMark(k, db, h, db.claims[h], r.dispatchedAt.value);
    assert db.claims[h := db.claims[h].(marker := r.dispatchedAt)] == Marked(k, b, key).claims;
  }

  lemma ReceiveStep(k: Protocol, b: Bundle, key: Units)
    requires Accepts(k, b) && b.receipt.Some? && Intact(k, RowFor(k, b))
    ensures RecordReceipt(k, Marked(k, b, key), b.receipt.value) == Some(Received(k, b, key))
  {
    hide VerifyDecision, IsHistory, Intact;
    assert MayRecord(k, Marked(k, b, key), b.receipt.value);
  }

  lemma RowsAreHistory(k: Protocol, r: Receipt, cs: seq<Reconciliation>, n: nat)
    requires IsHistory(k, r, cs) && n <= |cs| <= MAX_RECONCILIATION_RECORDS
    ensures var rh, hs := k.hashReceipt(r), Rows(k, k.hashReceipt(r), cs, n);
            HistoryOk(k, r, hs, rh, n) && History(hs, rh, n) == cs[..n]
            && |Sequences(hs, rh)| == n && LatestRecord(hs, rh) == LastOf(cs[..n]) && AllRecords(hs, rh) == cs[..n]
  {
    hide IsHistory, AllRecords, LatestRecord, Rows;
    var rh, hs := k.hashReceipt(r), Rows(k, k.hashReceipt(r), cs, n);
    HistoryPrefix(k, r, cs, n);
    RowSequences(hs, rh, n);
    assert History(hs, rh, n) == cs[..n];
    HistoryRead(k, r, hs, rh, n);
  }

  lemma RowSequences(hs: Histories, rh: Digest, n: nat)
    requires n <= MAX_RECONCILIATION_RECORDS
    requires forall key :: key in hs <==> key.receiptHash == rh && 1 <= key.sequence <= n
    ensures Sequences(hs, rh) == UpTo(n)
  {
    forall s: u64 ensures s in Sequences(hs, rh) <==> s in UpTo(n) {
      assert s in Sequences(hs, rh) <==> HistoryKey(rh, s) in hs;
    }
  }

  lemma AppendStep(k: Protocol, b: Bundle, key: Units, n: nat)
    requires Accepts(k, b) && b.receipt.Some? && Storable(k, b) && n < |b.reconciliations|
    ensures AppendReconciliation(k, Reconciled(k, b, key, n), b.reconciliations[n])
            == Some(Reconciled(k, b, key, n + 1))
  {
    hide VerifyDecision, VerifyGrant, VerifyReconciliation, AllRecords, LatestRecord, Sequences, Rows, Taken;
    var cs, c, r, db := b.reconciliations, b.reconciliations[n], b.receipt.value, Reconciled(k, b, key, n);
    var rh, hs := k.hashReceipt(r), db.histories;
    RowsAreHistory(k, r, cs, n);
    NextVerifies(k, r, cs, n);
    NotTaken(k, r, cs, n);
    LatestValid(k, r, cs, n);
    RowsGrow(k, rh, cs, n);
    assert LoadReceiptByHash(k, db, rh) == Some(r);
  }

  lemma RowsGrow(k: Protocol, rh: Digest, cs: seq<Reconciliation>, n: nat)
    requires n < |cs| <= MAX_RECONCILIATION_RECORDS && cs[n].sequence == n + 1
    ensures Rows(k, rh, cs, n + 1)
         == Rows(k, rh, cs, n)[HistoryKey(rh, cs[n].sequence) := HistoryRow(k.hashReconciliation(cs[n]), cs[n])]
  {
  }

  lemma NextVerifies(k: Protocol, r: Receipt, cs: seq<Reconciliation>, n: nat)
    requires IsHistory(k, r, cs) && n < |cs| <= MAX_RECONCILIATION_RECORDS && k.ValidReceipt(r)
    ensures VerifyReconciliation(k, r, LastOf(cs[..n]), cs[n]).Some?
    ensures k.ValidReconciliation(cs[n]) && cs[n].sequence == n + 1 && cs[n].receiptHash == k.hashReceipt(r)
  {
    hide VerifyReconciliation;
    HistoryPrefix(k, r, cs, n);
    HistoryPrefix(k, r, cs, n + 1);
    assert cs[..n + 1] == cs[..n] + [cs[n]];
    HistoryExtends(k, r, cs[..n], cs[n]);
    assert IsLink(k, r, cs, n);
  }

  lemma LatestValid(k: Protocol, r: Receipt, cs: seq<Reconciliation>, n: nat)
    requires IsHistory(k, r, cs) && n <= |cs|
    ensures LastOf(cs[..n]).Some? ==> k.ValidReconciliation(LastOf(cs[..n]).value)
  {
    if n > 0 { assert IsLink(k, r, cs, n - 1); }
  }

  /** Without colliding hashes no earlier record has a later one's identifier, hash or parent. */
  lemma RecordsDiffer(k: Protocol, r: Receipt, cs: seq<Reconciliation>, i: nat, n: nat)
    requires IsHistory(k, r, cs) && i < n < |cs|
    requires forall i, j | 0 <= i < j < |cs| :: k.hashReconciliation(cs[i]) != k.hashReconciliation(cs[j])
    ensures cs[i].reconciliationId != cs[n].reconciliationId
    ensures k.hashReconciliation(cs[i]) != k.hashReconciliation(cs[n])
    ensures cs[n].parentHash.Some? ==> cs[i].parentHash != cs[n].parentHash
  {
    assert IsLink(k, r, cs, i) && IsLink(k, r, cs, n);
    if i > 0 { assert k.hashReconciliation(cs[i - 1]) != k.hashReconciliation(cs[n - 1]); }
  }

  lemma NotTaken(k: Protocol, r: Receipt, cs: seq<Reconciliation>, n: nat)
    requires IsHistory(k, r, cs) && n < |cs| <= MAX_RECONCILIATION_RECORDS
    requires forall i, j | 0 <= i < j < |cs| :: k.hashReconciliation(cs[i]) != k.hashReconciliation(cs[j])
    ensures !Taken(Rows(k, k.hashReceipt(r), cs, n), HistoryRow(k.hashReconciliation(cs[n]), cs[n]))
  {
    hide Rows, IsHistory;
    var hs, row := Rows(k, k.hashReceipt(r), cs, n), HistoryRow(k.hashReconciliation(cs[n]), cs[n]);
    forall key | key in hs
      ensures hs[key].record.reconciliationId != row.record.reconciliationId && hs[key].hash != row.hash
      ensures row.record.parentHash.Some? ==> hs[key].record.parentHash != row.record.parentHash
    {
      RecordsDiffer(k, r, cs, key.sequence - 1, n);
    }
  }

  // ---- The run ----

  /** A reachable state and one more committed transaction. */
  lemma ReachNext(k: Protocol, db: Db, op: Op, u: Db)
    requires R.Reachable(k, db) && Apply(k, db, op) == Some(u)
    ensures R.Reachable(k, u)
  {
    hide Apply;
    var ops :| Run(k, EmptyDb(), ops) == db;
    R.RunConcat(k, EmptyDb(), ops, [op]);
    assert [op][1..] == [];
    assert Run(k, db, [op]) == Run(k, Step(k, db, op), []);
    assert Run(k, EmptyDb(), ops + [op]) == u;
  }

  lemma ReachReceived(k: Protocol, b: Bundle, key: Units)
    requires Accepts(k, b) && b.receipt.Some? && Storable(k, b) && k.text(key, 1024)
    ensures R.Reachable(k, Received(k, b, key))
  {
    hide R.Reachable, Accepts, Storable, RegisterChain, PutCurrentness, Claim;
    hide MarkDispatchStarted, RecordReceipt, Intact;
    hide Registered, Observed, Claimed, Received;
    assert b.grant.Some? by { GrantThere(k, b); }
    var r, g := b.receipt.value, b.grant.value;
    ReachRegistered(k, b);
    RegisterStep(k, b);
    ObserveStep(k, b, key);
    ReachNext(k, Registered(k, b), CurrentnessOp(SnapshotFor(b, key)), Observed(k, b, key));
    ClaimStep(k, b, key);
    ReachNext(k, Observed(k, b, key), ClaimOp(g, RequestFor(b, key), r.claimedAt), Claimed(k, b, key));
    if r.dispatchedAt.Some? {
      MarkStep(k, b, key);
      ReachNext(k, Claimed(k, b, key), MarkOp(k.hashGrant(g), r.attemptId, r.dispatchedAt.value), Marked(k, b, key));
    }
    ReceiveStep(k, b, key);
    ReachNext(k, Marked(k, b, key), ReceiptOp(r), Received(k, b, key));
  }

  lemma GrantThere(k: Protocol, b: Bundle)
    requires Accepts(k, b) && b.receipt.Some?
    ensures b.grant.Some?
  {
  }

  lemma ReachRegistered(k: Protocol, b: Bundle)
    requires Accepts(k, b) && b.grant.Some?
    ensures R.Reachable(k, Registered(k, b))
  {
    hide Accepts, RegisterChain, Registered;
    RegisterStep(k, b);
    assert Run(k, EmptyDb(), []) == EmptyDb();
    ReachNext(k, EmptyDb(), RegisterOp(b.task, b.proposal, b.decision, b.grant.value), Registered(k, b));
  }

  lemma {:induction false} ReachReconciled(k: Protocol, b: Bundle, key: Units, n: nat)
    requires Accepts(k, b) && b.receipt.Some? && b.grant.Some? && Storable(k, b) && k.text(key, 1024)
    requires n <= |b.reconciliations| <= MAX_RECONCILIATION_RECORDS
    ensures R.Reachable(k, Reconciled(k, b, key, n))
  {
    hide R.Reachable, Accepts, Storable, AppendReconciliation, Received, Reconciled;
    if n == 0 {
      ReachReceived(k, b, key);
      NoneReconciled(k, b, key);
    } else {
      ReachReconciled(k, b, key, n - 1);
      AppendStep(k, b, key, n - 1);
      ReachNext(k, Reconciled(k, b, key, n - 1), ReconciliationOp(b.reconciliations[n - 1]), Reconciled(k, b, key, n));
    }
  }

  lemma NoneReconciled(k: Protocol, b: Bundle, key: Units)
    requires b.grant.Some? && b.receipt.Some? && |b.reconciliations| <= MAX_RECONCILIATION_RECORDS
    ensures Reconciled(k, b, key, 0) == Received(k, b, key)
  {
  }

  // ---- Exactly the storable bundles ----

  /** `b` is what the rows of a grant spell in this database. */
  ghost predicate Stores(k: Protocol, db: Db, h: Digest, b: Bundle) {
    h in db.chainByHash && db.chainByHash[h] in db.chains && R.BundleFromRows(db, h) == b
  }

  lemma ReconciledStores(k: Protocol, b: Bundle, key: Units)
    requires Accepts(k, b) && b.receipt.Some? && b.grant.Some?
    ensures |b.reconciliations| <= MAX_RECONCILIATION_RECORDS
    ensures Stores(k, Reconciled(k, b, key, |b.reconciliations|), k.hashGrant(b.grant.value), b)
  {
    hide VerifyDecision, VerifyGrant, VerifyChain, IsHistory, AllRecords, Rows, Received;
    RowsAreHistory(k, b.receipt.value, b.reconciliations, |b.reconciliations|);
    assert b.reconciliations[..|b.reconciliations|] == b.reconciliations;
    ReceivedTables(k, b, key);
  }

  lemma ReceivedTables(k: Protocol, b: Bundle, key: Units)
    requires b.grant.Some? && b.receipt.Some?
    ensures var db, h := Received(k, b, key), k.hashGrant(b.grant.value);
            db.chainByHash == map[h := b.grant.value.grantId] && db.chains == map[b.grant.value.grantId := RowFor(k, b)]
            && db.receipts == map[h := ReceiptRow(k.hashReceipt(b.receipt.value), b.receipt.value)]
  {
  }

  lemma RegisteredStores(k: Protocol, b: Bundle)
    requires Accepts(k, b) && b.grant.Some? && b.receipt.None?
    ensures Stores(k, Registered(k, b), k.hashGrant(b.grant.value), b)
  {
    hide VerifyDecision, VerifyGrant, VerifyChain, IsHistory, AllRecords;
  }

  lemma StoredIsStorable(k: Protocol, db: Db, h: Digest, b: Bundle)
    requires Inv(k, db) && Stores(k, db, h, b)
    ensures b.grant.Some? && Accepts(k, b) && Storable(k, b)
  {
    hide Inv, AllRecords, IsHistory, VerifyDecision, Accepts;
    R.RowsVerify(k, db, h);
    if h in db.receipts {
      R.ReceiptInvariant(k, db, h);
      R.ClaimInvariant(k, db, h);
      StoredHashesDiffer(k, db, h);
    }
  }

  lemma StoredHashesDiffer(k: Protocol, db: Db, h: Digest)
    requires Inv(k, db) && h in db.receipts
    ensures var cs := AllRecords(db.histories, db.receipts[h].receiptHash);
            forall i, j | 0 <= i < j < |cs| :: k.hashReconciliation(cs[i]) != k.hashReconciliation(cs[j])
  {
    hide *;
    var rh, hs, r := db.receipts[h].receiptHash, db.histories, db.receipts[h].receipt;
    var n := StoredHistory(k, db, h);
    HistoryRead(k, r, hs, rh, n);
    var cs := AllRecords(hs, rh);
    forall i, j | 0 <= i < j < |cs| ensures k.hashReconciliation(cs[i]) != k.hashReconciliation(cs[j]) {
      assert i < j < n && cs == History(hs, rh, n) by { HistoryLength(hs, rh, n); }
      HistoryItem(hs, rh, n, i);
      HistoryItem(hs, rh, n, j);
      RowsDiffer(k, db, HistoryKey(rh, i + 1), HistoryKey(rh, j + 1));
    }
  }

  lemma HistoryLength(hs: Histories, rh: Digest, n: nat)
    requires n <= MAX_RECONCILIATION_RECORDS && forall i: u64 | 1 <= i <= n :: HistoryKey(rh, i) in hs
    ensures |History(hs, rh, n)| == n
  {
  }

  lemma HistoryItem(hs: Histories, rh: Digest, n: nat, i: nat)
    requires i < n <= MAX_RECONCILIATION_RECORDS && forall s: u64 | 1 <= s <= n :: HistoryKey(rh, s) in hs
    ensures HistoryKey(rh, i + 1) in hs && i < |History(hs, rh, n)|
            && History(hs, rh, n)[i] == hs[HistoryKey(rh, i + 1)].record
  {
  }

  lemma StoredHistory(k: Protocol, db: Db, h: Digest) returns (n: nat)
    requires Inv(k, db) && h in db.receipts
    ensures var rh := db.receipts[h].receiptHash;
            HistoryOk(k, db.receipts[h].receipt, db.histories, rh, n) && n <= MAX_RECONCILIATION_RECORDS
            && (forall i: u64 | 1 <= i <= n :: HistoryKey(rh, i) in db.histories)
  {
    hide ChainsOk, ClaimsOk, IsLastTime, CurrentnessOk, ReceiptOk, IsHistory, Sequences;
    n :| HistoryOk(k, db.receipts[h].receipt, db.histories, db.receipts[h].receiptHash, n);
  }

  lemma RowsDiffer(k: Protocol, db: Db, a: HistoryKey, b: HistoryKey)
    requires Inv(k, db) && a in db.histories && b in db.histories && a != b
    ensures k.hashReconciliation(db.histories[a].record) != k.hashReconciliation(db.histories[b].record)
  {
    hide ChainsOk, ClaimsOk, IsLastTime, CurrentnessOk, ReceiptsOk, HistoryOk;
  }

  /** The durable store can come to hold a bundle exactly when the verifier
      accepts it with a grant, its dispatch was reported before the grant
      expired, and no two of its reconciliations share a hash. */
  lemma DurableExactly(k: Protocol, b: Bundle, key: Units)
    requires k.text(key, 1024)
    ensures (exists db, h :: R.Reachable(k, db) && Stores(k, db, h, b))
        <==> b.grant.Some? && Accepts(k, b) && Storable(k, b)
  {
    hide R.Reachable, Accepts, Storable, Stores, Inv, Registered, Reconciled;
    forall db, h | R.Reachable(k, db) && Stores(k, db, h, b) ensures b.grant.Some? && Accepts(k, b) && Storable(k, b) {
      R.ReachableOk(k, db);
      StoredIsStorable(k, db, h, b);
    }
    if b.grant.Some? && Accepts(k, b) && Storable(k, b) {
      if b.receipt.Some? {
        ReconciledStores(k, b, key);
        ReachReconciled(k, b, key, |b.reconciliations|);
      } else {
        RegisteredStores(k, b);
        ReachRegistered(k, b);
      }
    }
  }

  /** Any accepted finished bundle, with its dispatch reported at the grant's
      expiry instead, is still accepted, and can no longer be stored. */
  lemma LateDispatchAccepted(k: Protocol, b: Bundle)
    requires Accepts(k, b) && b.receipt.Some? && b.reconciliations == []
    requires b.receipt.value.outcome.Succeeded? || b.receipt.value.outcome.Failed?
    ensures b.grant.Some?
    ensures var at := b.grant.value.expiresAt;
            var late := b.(receipt := Some(b.receipt.value.(dispatchedAt := Some(at), completedAt := at)));
            Accepts(k, late) && !Storable(k, late)
  {
    hide VerifyDecision;
  }
}
