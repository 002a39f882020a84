/** Properties of whole runs of the durable store. */
module SqliteRuns {
  import opened Unicode
  import opened Json
  import opened Records
  import opened Verifier
  import opened Sqlite
  import opened SqliteInvariant

  // ---- What later states keep ----

  /** A currentness row is either untouched or strictly newer, and stays revoked
      for as long as its epochs stay the same. */
  predicate RowAdvances(s: Snapshot, u: Snapshot) {
    u == s
    || (u.key == s.key && u.version > s.version
        && u.policyEpoch >= s.policyEpoch && u.configurationEpoch >= s.configurationEpoch
        && u.observedAt >= s.observedAt
        && (s.revoked && SameEpochs(u, s) ==> u.revoked))
  }

  predicate SameEpochs(s: Snapshot, u: Snapshot) {
    s.policyEpoch == u.policyEpoch && s.configurationEpoch == u.configurationEpoch
  }

  predicate ClaimGrows(c: ClaimRow, d: ClaimRow) {
    d == c || (c.marker.None? && d == c.(marker := d.marker))
  }

  /** Every entry of one table is still there, unchanged. */
  ghost predicate Kept<K(!new), V>(table: map<K, V>, later: map<K, V>) {
    forall key | key in table :: key in later && later[key] == table[key]
  }

  ghost predicate CurrentnessAdvances(table: map<Units, Snapshot>, later: map<Units, Snapshot>) {
    forall key | key in table :: key in later && RowAdvances(table[key], later[key])
  }

  ghost predicate ClaimsGrow(table: map<Digest, ClaimRow>, later: map<Digest, ClaimRow>) {
    forall h | h in table :: h in later && ClaimGrows(table[h], later[h])
  }

  ghost predicate Extends(db: Db, u: Db) {
    CurrentnessAdvances(db.currentness, u.currentness) && ClaimsGrow(db.claims, u.claims)
    && Kept(db.chains, u.chains) && Kept(db.chainByHash, u.chainByHash)
    && Kept(db.receipts, u.receipts) && Kept(db.receiptByHash, u.receiptByHash) && Kept(db.histories, u.histories)
    && (db.lastTime.Some? ==> u.lastTime.Some? && db.lastTime.value <= u.lastTime.value)
  }

  lemma KeptTransitive<K(!new), V>(a: map<K, V>, b: map<K, V>, c: map<K, V>)
    requires Kept(a, b) && Kept(b, c)
    ensures Kept(a, c)
  {
  }

  lemma ExtendsTransitive(a: Db, b: Db, c: Db)
    requires Extends(a, b) && Extends(b, c)
    ensures Extends(a, c)
  {
    hide Kept;
    forall key | key in a.currentness
      ensures key in c.currentness && RowAdvances(a.currentness[key], c.currentness[key])
    {
      assert RowAdvances(b.currentness[key], c.currentness[key]);
    }
    forall h | h in a.claims ensures h in c.claims && ClaimGrows(a.claims[h], c.claims[h]) {
      assert ClaimGrows(b.claims[h], c.claims[h]);
    }
    KeptTransitive(a.chains, b.chains, c.chains);
    KeptTransitive(a.chainByHash, b.chainByHash, c.chainByHash);
    KeptTransitive(a.receipts, b.receipts, c.receipts);
    KeptTransitive(a.receiptByHash, b.receiptByHash, c.receiptByHash);
    KeptTransitive(a.histories, b.histories, c.histories);
  }

  lemma KeptInsert<K(!new), V>(table: map<K, V>, key: K, value: V)
    requires key !in table
    ensures Kept(table, table[key := value])
  {
  }

  lemma ClaimInsert(claims: map<Digest, ClaimRow>, h: Digest, row: ClaimRow)
    requires h in claims ==> ClaimGrows(claims[h], row)
    ensures ClaimsGrow(claims, claims[h := row])
  {
  }

  lemma RegisterExtends(k: Protocol, db: Db, t: Task, p: Proposal, d: Decision, g: Grant)
    requires RegisterChain(k, db, t, p, d, g).Some?
    ensures Extends(db, RegisterChain(k, db, t, p, d, g).value)
  {
    hide VerifyGrant, Kept, ClaimsGrow, CurrentnessAdvances, RegisterChain;
    ExtendsItself(db);
    if RegisterChain(k, db, t, p, d, g).value != db {
      RegisteredNew(k, db, t, p, d, g);
      var h := VerifyGrant(k, t, p, d, g).value;
      KeptInsert(db.chains, g.grantId, ChainRow(h, k.hashProposal(p), k.hashDecision(d), t, p, d, g));
      KeptInsert(db.chainByHash, h, g.grantId);
    }
  }

  lemma CurrentnessExtends(k: Protocol, db: Db, s: Snapshot)
    requires CurrentnessOk(k, db.currentness) && PutCurrentness(k, db, s).Some?
    ensures Extends(db, PutCurrentness(k, db, s).value)
  {
    hide Kept, ClaimsGrow, CurrentnessAdvances, CurrentnessOk, ValidSnapshot, MayFollow;
    ExtendsItself(db);
    if PutCurrentness(k, db, s).value != db { RowPut(k, db.currentness, s); }
  }

  lemma RowPut(k: Protocol, table: map<Units, Snapshot>, s: Snapshot)
    requires CurrentnessOk(k, table) && (s.key in table ==> MayFollow(table[s.key], s))
    ensures CurrentnessAdvances(table, table[s.key := s])
  {
    hide ValidSnapshot;
  }

  lemma ClaimExtends(k: Protocol, db: Db, g: Grant, q: ClaimRequest, now: u64)
    requires Claim(k, db, g, q, now).Some?
    ensures Extends(db, Claim(k, db, g, q, now).value)
  {
    hide LoadChain, Matches, IsFresh, Kept, ClaimsGrow, CurrentnessAdvances;
    ExtendsItself(db);
    ClaimInsert(db.claims, k.hashGrant(g), RowOf(q, now));
  }

  lemma MarkExtends(k: Protocol, db: Db, h: Digest, attemptId: Units, at: u64)
    requires MarkDispatchStarted(k, db, h, attemptId, at).Some?
    ensures Extends(db, MarkDispatchStarted(k, db, h, attemptId, at).value)
  {
    hide LoadChainByHash, Matches, IsFresh, Kept, ClaimsGrow, CurrentnessAdvances;
    ExtendsItself(db);
    if db.claims[h].marker.None? { ClaimInsert(db.claims, h, db.claims[h].(marker := Some(at))); }
  }

  lemma ReceiptExtends(k: Protocol, db: Db, r: Receipt)
    requires RecordReceipt(k, db, r).Some?
    ensures Extends(db, RecordReceipt(k, db, r).value)
  {
    hide MayRecord, IntactReceipt, Kept, ClaimsGrow, CurrentnessAdvances;
    ExtendsItself(db);
    if RecordReceipt(k, db, r).value != db {
      KeptInsert(db.receipts, r.grantHash, ReceiptRow(k.hashReceipt(r), r));
      KeptInsert(db.receiptByHash, k.hashReceipt(r), r.grantHash);
    }
  }

  lemma AppendExtends(k: Protocol, db: Db, c: Reconciliation)
    requires AppendReconciliation(k, db, c).Some?
    ensures Extends(db, AppendReconciliation(k, db, c).value)
  {
    hide LoadReceiptByHash, LatestRecord, Taken, Sequences, VerifyReconciliation, Kept, ClaimsGrow, CurrentnessAdvances;
    ExtendsItself(db);
    var key := HistoryKey(c.receiptHash, c.sequence);
    if key !in db.histories { KeptInsert(db.histories, key, HistoryRow(k.hashReconciliation(c), c)); }
  }

  lemma StepExtends(k: Protocol, db: Db, op: Op)
    requires CurrentnessOk(k, db.currentness)
    ensures Extends(db, Step(k, db, op))
  {
    hide Extends, CurrentnessOk;
    hide RegisterChain, PutCurrentness, Claim, MarkDispatchStarted, RecordReceipt, AppendReconciliation;
    if Apply(k, db, op).None? {
      ExtendsItself(db);
    } else {
      match op
      case RegisterOp(t, p, d, g) => RegisterExtends(k, db, t, p, d, g);
      case CurrentnessOp(s) => CurrentnessExtends(k, db, s);
      case ClaimOp(g, q, now) => ClaimExtends(k, db, g, q, now);
      case MarkOp(h, attemptId, at) => MarkExtends(k, db, h, attemptId, at);
      case ReceiptOp(r) => ReceiptExtends(k, db, r);
      case ReconciliationOp(c) => AppendExtends(k, db, c);
    }
  }

  /** Over any run the tables only grow: chains, receipts and histories are
      never rewritten, a claim gains at most its one marker, and currentness,
      revocation and the clock move one way. */
  lemma {:induction false} RunExtends(k: Protocol, db: Db, ops: seq<Op>)
    requires Inv(k, db)
    ensures Extends(db, Run(k, db, ops))
    decreases |ops|
  {
    hide Step, Extends, ChainsOk, CurrentnessOk, ClaimsOk, IsLastTime, ReceiptsOk, HistoriesOk;
    if ops == [] {
      assert Extends(db, db) by { ExtendsItself(db); }
    } else {
      var u := Step(k, db, ops[0]);
      StepExtends(k, db, ops[0]);
      StepKeeps(k, db, ops[0]);
      RunExtends(k, u, ops[1..]);
      ExtendsTransitive(db, u, Run(k, u, ops[1..]));
    }
  }

  lemma {:induction false} RunConcat(k: Protocol, db: Db, a: seq<Op>, b: seq<Op>)
    ensures Run(k, db, a + b) == Run(k, Run(k, db, a), b)
    decreases |a|
  {
    hide Step;
    if a == [] {
      assert a + b == b;
    } else {
      assert (a + b)[0] == a[0] && (a + b)[1..] == a[1..] + b;
      RunConcat(k, Step(k, db, a[0]), a[1..], b);
    }
  }

  lemma ExtendsItself(db: Db)
    ensures Extends(db, db)
  {
  }

  /** The states that a run from the empty database reaches. */
  ghost predicate Reachable(k: Protocol, db: Db) { exists ops :: Run(k, EmptyDb(), ops) == db }

  lemma ReachableOk(k: Protocol, db: Db)
    requires Reachable(k, db)
    ensures Inv(k, db)
  {
    hide Inv, Run;
    var ops :| Run(k, EmptyDb(), ops) == db;
    EmptyOk(k);
    RunKeeps(k, EmptyDb(), ops);
  }

  // ---- Which tables an operation touches ----

  /** Only claims and markers change the claims; only receipts change the receipts. */
  lemma ClaimsUntouched(k: Protocol, db: Db, op: Op)
    requires !op.MarkOp? && !op.ClaimOp?
    ensures Step(k, db, op).claims == db.claims
  {
    hide RegisterChain, PutCurrentness, RecordReceipt, AppendReconciliation;
    if Apply(k, db, op).Some? {
      match op
      case RegisterOp(t, p, d, g) => RegisterLeaves(k, db, t, p, d, g);
      case CurrentnessOp(s) => CurrentnessLeaves(k, db, s);
      case ReceiptOp(r) => ReceiptLeaves(k, db, r);
      case ReconciliationOp(c) => AppendLeaves(k, db, c);
    }
  }

  lemma ReceiptsUntouched(k: Protocol, db: Db, op: Op)
    requires !op.ReceiptOp?
    ensures Step(k, db, op).receipts == db.receipts
  {
    hide RegisterChain, PutCurrentness, Claim, MarkDispatchStarted, AppendReconciliation;
    if Apply(k, db, op).Some? {
      match op
      case RegisterOp(t, p, d, g) => RegisterLeaves(k, db, t, p, d, g);
      case CurrentnessOp(s) => CurrentnessLeaves(k, db, s);
      case ClaimOp(g, q, now) => ClaimLeaves(k, db, g, q, now);
      case MarkOp(h, attemptId, at) => MarkLeaves(k, db, h, attemptId, at);
      case ReconciliationOp(c) => AppendLeaves(k, db, c);
    }
  }

  lemma RegisterLeaves(k: Protocol, db: Db, t: Task, p: Proposal, d: Decision, g: Grant)
    requires RegisterChain(k, db, t, p, d, g).Some?
    ensures var u := RegisterChain(k, db, t, p, d, g).value; u.claims == db.claims && u.receipts == db.receipts
  {
    hide VerifyGrant;
  }

  lemma CurrentnessLeaves(k: Protocol, db: Db, s: Snapshot)
    requires PutCurrentness(k, db, s).Some?
    ensures var u := PutCurrentness(k, db, s).value; u.claims == db.claims && u.receipts == db.receipts
  {
    hide ValidSnapshot, MayFollow;
  }

  lemma ClaimLeaves(k: Protocol, db: Db, g: Grant, q: ClaimRequest, now: u64)
    requires Claim(k, db, g, q, now).Some?
    ensures Claim(k, db, g, q, now).value.receipts == db.receipts
  {
    hide MayClaim;
  }

  lemma MarkLeaves(k: Protocol, db: Db, h: Digest, attemptId: Units, at: u64)
    requires MarkDispatchStarted(k, db, h, attemptId, at).Some?
    ensures MarkDispatchStarted(k, db, h, attemptId, at).value.receipts == db.receipts
  {
    hide MayMark;
  }

  lemma ReceiptLeaves(k: Protocol, db: Db, r: Receipt)
    requires RecordReceipt(k, db, r).Some?
    ensures RecordReceipt(k, db, r).value.claims == db.claims
  {
    hide MayRecord, IntactReceipt;
  }

  lemma AppendLeaves(k: Protocol, db: Db, c: Reconciliation)
    requires AppendReconciliation(k, db, c).Some?
    ensures var u := AppendReconciliation(k, db, c).value; u.claims == db.claims && u.receipts == db.receipts
  {
    hide LoadReceiptByHash, LatestRecord, Taken, Sequences, VerifyReconciliation;
  }

  // ---- Revocation ----

  /** No claim under the key, and no first marker, for a grant committed to these epochs. */
  ghost predicate Blocked(k: Protocol, db: Db, key: Units, policyEpoch: u64, configurationEpoch: u64) {
    (forall g: Grant, q: ClaimRequest, now | q.key == key && g.grantId in db.chains
        && db.chains[g.grantId].task.policyEpoch == policyEpoch
        && db.chains[g.grantId].task.configurationEpoch == configurationEpoch ::
       Claim(k, db, g, q, now).None?)
    && (forall h, attemptId, at | h in db.claims && db.claims[h].key == key && db.claims[h].marker.None?
        && h in db.chainByHash && db.chainByHash[h] in db.chains
        && db.chains[db.chainByHash[h]].task.policyEpoch == policyEpoch
        && db.chains[db.chainByHash[h]].task.configurationEpoch == configurationEpoch ::
       MarkDispatchStarted(k, db, h, attemptId, at).None?)
  }

  lemma UnmatchedBlocks(k: Protocol, db: Db, key: Units, policyEpoch: u64, configurationEpoch: u64)
    requires key in db.currentness
    requires var s := db.currentness[key];
             s.policyEpoch == policyEpoch && s.configurationEpoch == configurationEpoch ==> s.revoked
    ensures Blocked(k, db, key, policyEpoch, configurationEpoch)
  {
    hide VerifyGrant;
  }

  /** Revocation is sticky: once a key is revoked at an epoch pair it is revoked
      at that pair in every later state, and every later claim or first marker
      under it fails for grants committed to those epochs. */
  lemma RevocationSticks(k: Protocol, db: Db, ops: seq<Op>, key: Units)
    requires Inv(k, db) && key in db.currentness && db.currentness[key].revoked
    ensures var s, u := db.currentness[key], Run(k, db, ops);
            key in u.currentness
            && (SameEpochs(u.currentness[key], s) ==> u.currentness[key].revoked)
            && Blocked(k, u, key, s.policyEpoch, s.configurationEpoch)
  {
    hide Inv, Run, Blocked;
    var s, u := db.currentness[key], Run(k, db, ops);
    RunExtends(k, db, ops);
    assert RowAdvances(s, u.currentness[key]);
    UnmatchedBlocks(k, u, key, s.policyEpoch, s.configurationEpoch);
  }

  // ---- Version fencing ----

  /** One version of a key names one snapshot, in whichever states it is seen. */
  lemma VersionDetermines(k: Protocol, db: Db, ops: seq<Op>, key: Units)
    requires Inv(k, db) && key in db.currentness
    ensures var u := Run(k, db, ops);
            key in u.currentness && u.currentness[key].version >= db.currentness[key].version
            && (u.currentness[key].version == db.currentness[key].version ==> u.currentness[key] == db.currentness[key])
  {
    hide Inv, Run;
    RunExtends(k, db, ops);
    assert RowAdvances(db.currentness[key], Run(k, db, ops).currentness[key]);
  }

  lemma ClaimInvariant(k: Protocol, db: Db, h: Digest)
    requires Inv(k, db) && h in db.claims
    ensures h in db.chainByHash && db.chainByHash[h] in db.chains && db.claims[h].key in db.currentness
    ensures ClaimOk(k, db.chains[db.chainByHash[h]], db.currentness[db.claims[h].key], db.claims[h])
    ensures ChainOk(k, db.chainByHash, db.chainByHash[h], db.chains[db.chainByHash[h]])
  {
    hide ClaimOk, ChainOk, CurrentnessOk, IsLastTime, ReceiptsOk, HistoriesOk;
  }

  /** Once the version check passes, the later checks of epochs, pre-state,
      resource and revocation cannot fail: a first marker is written exactly
      under the conditions on attempt, time, freshness and version. */
  lemma MarkedExactlyWhen(k: Protocol, db: Db, h: Digest, attemptId: Units, at: u64)
    requires Inv(k, db) && h in db.claims && db.claims[h].marker.None?
    ensures var c := db.claims[h];
            h in db.chainByHash && db.chainByHash[h] in db.chains && c.key in db.currentness
            && (MarkDispatchStarted(k, db, h, attemptId, at).Some? <==>
                  SafeTime(at) && attemptId == c.attemptId && c.claimedAt <= at && NotBefore(db.lastTime, at)
                  && at < db.chains[db.chainByHash[h]].grant.expiresAt
                  && IsFresh(db.currentness[c.key], at, c.maximumAge)
                  && db.currentness[c.key].version == c.version)
  {
    hide Inv, Intact;
    ClaimInvariant(k, db, h);
  }

  /** An accepted change to a key forever blocks the first marker of every claim
      that was made on an older version of it. */
  lemma {:induction false} ChangeBlocksMarker(k: Protocol, db: Db, ops: seq<Op>, h: Digest)
    requires Inv(k, db) && h in db.claims && db.claims[h].marker.None?
    requires db.claims[h].key in db.currentness && db.currentness[db.claims[h].key].version > db.claims[h].version
    ensures h in Run(k, db, ops).claims && Run(k, db, ops).claims[h] == db.claims[h]
    decreases |ops|
  {
    hide Inv;
    if ops != [] {
      var u := Step(k, db, ops[0]);
      StaleStaysUnmarked(k, db, ops[0], h);
      StepKeeps(k, db, ops[0]);
      ChangeBlocksMarker(k, u, ops[1..], h);
    }
  }

  lemma StaleStaysUnmarked(k: Protocol, db: Db, op: Op, h: Digest)
    requires Inv(k, db) && h in db.claims && db.claims[h].marker.None?
    requires db.claims[h].key in db.currentness && db.currentness[db.claims[h].key].version > db.claims[h].version
    ensures var u := Step(k, db, op);
            h in u.claims && u.claims[h] == db.claims[h] && db.claims[h].key in u.currentness
            && u.currentness[db.claims[h].key].version > db.claims[h].version
  {
    hide ChainsOk, ClaimsOk, IsLastTime, ReceiptsOk, HistoriesOk, CurrentnessOk, Extends;
    StepExtends(k, db, op);
    var u := Step(k, db, op);
    ExtendedRows(db, u, h, db.claims[h].key);
    if op.MarkOp? && op.hash == h { StaleRefused(k, db, h, op.attemptId, op.at); }
    ClaimOnlyMarked(k, db, op, h);
  }

  lemma ExtendedRows(db: Db, u: Db, h: Digest, key: Units)
    requires Extends(db, u) && h in db.claims && key in db.currentness
    ensures h in u.claims && ClaimGrows(db.claims[h], u.claims[h])
    ensures key in u.currentness && RowAdvances(db.currentness[key], u.currentness[key])
  {
  }

  lemma StaleRefused(k: Protocol, db: Db, h: Digest, attemptId: Units, at: u64)
    requires h in db.claims && db.claims[h].marker.None? && db.claims[h].key in db.currentness
    requires db.currentness[db.claims[h].key].version != db.claims[h].version
    ensures MarkDispatchStarted(k, db, h, attemptId, at).None?
  {
    hide LoadChainByHash;
  }

  /** Only a marker operation for its own grant changes a claim. */
  lemma ClaimOnlyMarked(k: Protocol, db: Db, op: Op, h: Digest)
    requires h in db.claims && !(op.MarkOp? && op.hash == h && Apply(k, db, op).Some?)
    ensures h in Step(k, db, op).claims && Step(k, db, op).claims[h] == db.claims[h]
  {
    hide VerifyGrant, MayClaim, MayMark, MayRecord, LoadReceiptByHash, LatestRecord;
    hide Taken, Sequences, VerifyReconciliation;
  }

  // ---- Time ----

  /** The window that a grant inherits from its decision, proposal and task. */
  predicate InsideWindows(row: ChainRow, t: u64) {
    row.task.createdAt <= t < row.task.expiresAt
    && row.proposal.createdAt <= t < row.proposal.expiresAt
    && row.decision.decidedAt <= t < row.decision.expiresAt
    && row.grant.notBefore <= t < row.grant.expiresAt
  }

  /** Every stored claim and marker time lies in all four nested record windows
      and the stored clock is the maximum of them. */
  lemma TimesInsideWindows(k: Protocol, db: Db, h: Digest)
    requires Inv(k, db) && h in db.claims
    ensures h in db.chainByHash && db.chainByHash[h] in db.chains
    ensures InsideWindows(db.chains[db.chainByHash[h]], db.claims[h].claimedAt)
    ensures db.claims[h].marker.Some? ==> InsideWindows(db.chains[db.chainByHash[h]], db.claims[h].marker.value)
    ensures IsLastTime(db.lastTime, db.claims)
  {
    hide ChainsOk, ClaimsOk, IsLastTime, ReceiptsOk, HistoriesOk, CurrentnessOk;
    ClaimInvariant(k, db, h);
  }

  // ---- Histories and the lifecycle ----

  /** The bundle that the rows of a registered grant spell. */
  ghost function BundleFromRows(db: Db, h: Digest): Bundle
    requires h in db.chainByHash && db.chainByHash[h] in db.chains
  {
    var row := db.chains[db.chainByHash[h]];
    var receipt := if h in db.receipts then Some(db.receipts[h].receipt) else None;
    Bundle(row.task, row.proposal, row.decision, Some(row.grant), receipt,
           if h in db.receipts then AllRecords(db.histories, db.receipts[h].receiptHash) else [])
  }

  lemma StoredHistory(k: Protocol, db: Db, h: Digest) returns (n: nat)
    requires Inv(k, db) && h in db.receipts
    ensures HistoryOk(k, db.receipts[h].receipt, db.histories, db.receipts[h].receiptHash, n)
  {
    hide ChainsOk, ClaimsOk, IsLastTime, CurrentnessOk, ReceiptOk, HistoryOk;
    n :| HistoryOk(k, db.receipts[h].receipt, db.histories, db.receipts[h].receiptHash, n);
  }

  /** What is stored about a received grant, read back from its rows. */
  lemma ReceiptInvariant(k: Protocol, db: Db, h: Digest)
    requires Inv(k, db) && h in db.receipts
    ensures h in db.claims && h in db.chainByHash && db.chainByHash[h] in db.chains
    ensures ReceiptOk(k, h, db.chains[db.chainByHash[h]], db.claims[h], db.receipts[h])
    ensures |AllRecords(db.histories, db.receipts[h].receiptHash)| <= MAX_RECONCILIATION_RECORDS
    ensures IsHistory(k, db.receipts[h].receipt, AllRecords(db.histories, db.receipts[h].receiptHash))
  {
    hide ChainsOk, ClaimsOk, IsLastTime, CurrentnessOk, ReceiptOk, IsHistory;
    var rh, r := db.receipts[h].receiptHash, db.receipts[h].receipt;
    var n :| HistoryOk(k, r, db.histories, rh, n);
    HistoryRead(k, r, db.histories, rh, n);
  }

  /** In every reachable state the rows of every registered grant form a bundle
      that the verifier accepts: its reconciliations are contiguous from 1,
      parent-linked, in time order, at most 10,000, and terminal only at the end. */
  lemma RowsVerify(k: Protocol, db: Db, h: Digest)
    requires Inv(k, db) && h in db.chainByHash
    ensures db.chainByHash[h] in db.chains && Accepts(k, BundleFromRows(db, h))
  {
    hide ClaimsOk, IsLastTime, CurrentnessOk, HistoriesOk, ReceiptsOk, AllRecords, IsHistory;
    var id := db.chainByHash[h];
    assert ChainOk(k, db.chainByHash, id, db.chains[id]);
    if h in db.receipts { ReceiptInvariant(k, db, h); }
  }

  lemma {:induction false} HistoryLinks(k: Protocol, r: Receipt, cs: seq<Reconciliation>)
    requires IsHistory(k, r, cs) && k.ValidReceipt(r) && |cs| <= MAX_RECONCILIATION_RECORDS
    ensures LinksHold(k, r, cs)
  {
    hide VerifyReconciliation, IsHistory;
    forall i | 0 <= i < |cs| ensures LinkHolds(k, r, cs, i) {
      HistoryPrefix(k, r, cs, i);
      HistoryPrefix(k, r, cs, i + 1);
      assert cs[..i + 1] == cs[..i] + [cs[i]];
      HistoryExtends(k, r, cs[..i], cs[i]);
      LinkValid(k, r, cs, i);
    }
  }

  lemma LinkValid(k: Protocol, r: Receipt, cs: seq<Reconciliation>, i: nat)
    requires IsHistory(k, r, cs) && i < |cs|
    ensures k.ValidReconciliation(cs[i])
  {
    assert IsLink(k, r, cs, i);
  }

  /** The lifecycle of a registered grant can be read exactly when its receipt,
      if any, still agrees with its marker; then it is what the rows hold. No
      other integrity error is reachable. */
  lemma LifecycleReads(k: Protocol, db: Db, h: Digest)
    requires Inv(k, db)
    ensures ReadLifecycle(k, db, h).Some? <==>
              h in db.chainByHash
              && (h in db.receipts ==> h in db.claims && EvidenceMatches(db.receipts[h].receipt, db.claims[h].marker))
    ensures ReadLifecycle(k, db, h).Some? ==>
              var l := ReadLifecycle(k, db, h).value;
              l.claim == (if h in db.claims then Some(db.claims[h]) else None)
              && l.receipt == (if h in db.receipts then Some(db.receipts[h].receipt) else None)
              && l.history == (if h in db.receipts then AllRecords(db.histories, db.receipts[h].receiptHash) else [])
  {
    hide ClaimsOk, IsLastTime, CurrentnessOk, HistoriesOk, ReceiptsOk, AllRecords, IsHistory, Intact, LinksHold;
    if h in db.chainByHash {
      assert ChainOk(k, db.chainByHash, db.chainByHash[h], db.chains[db.chainByHash[h]]);
    }
    if h in db.receipts {
      ReceiptInvariant(k, db, h);
      HistoryLinks(k, db.receipts[h].receipt, AllRecords(db.histories, db.receipts[h].receiptHash));
    }
  }
}
