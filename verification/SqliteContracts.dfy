/** When each transaction of the durable store commits and what it then leaves,
    said of the stored fields of every reachable database. */
module SqliteContracts {
  import opened Unicode
  import opened Json
  import opened Records
  import opened Verifier
  import opened Lawful
  import opened Sqlite
  import opened SqliteInvariant
  import opened SqliteRuns
  import T = SqliteTheorems

  // ---- Registration ----

  /** The four records are stored under their grant. */
  predicate Holds(db: Db, t: Task, p: Proposal, d: Decision, g: Grant) {
    g.grantId in db.chains
    && (var row := db.chains[g.grantId]; row.task == t && row.proposal == p && row.decision == d && row.grant == g)
  }

  /** Nothing stored shares the identifier, the proposal, the decision or the hash of the grant. */
  predicate IsNewGrant(k: Protocol, db: Db, p: Proposal, d: Decision, g: Grant) {
    g.grantId !in db.chains && k.hashGrant(g) !in db.chainByHash
    && forall id | id in db.chains ::
         db.chains[id].proposalHash != k.hashProposal(p) && db.chains[id].decisionHash != k.hashDecision(d)
  }

  lemma RegisterExactly(k: Protocol, ops: seq<Op>, t: Task, p: Proposal, d: Decision, g: Grant)
    ensures var db := T.Reached(k, ops); var u := RegisterChain(k, db, t, p, d, g);
            (u.Some? <==>
               IsLawful(k, Bundle(t, p, d, Some(g), None, [])) && (Holds(db, t, p, d, g) || IsNewGrant(k, db, p, d, g)))
            && (u.Some? && Holds(db, t, p, d, g) ==> u.value == db)
            && (u.Some? && !Holds(db, t, p, d, g) ==>
                  u.value == db.(
                    chains := db.chains[g.grantId :=
                      ChainRow(k.hashGrant(g), k.hashProposal(p), k.hashDecision(d), t, p, d, g)],
                    chainByHash := db.chainByHash[k.hashGrant(g) := g.grantId]))
  {
    hide Inv, T.Reached, RegisterChain;
    T.ReachedOk(k, ops);
    RegisterMeans(k, T.Reached(k, ops), t, p, d, g);
  }

  lemma RegisterMeans(k: Protocol, db: Db, t: Task, p: Proposal, d: Decision, g: Grant)
    requires Inv(k, db)
    ensures var u := RegisterChain(k, db, t, p, d, g);
            (u.Some? <==>
               IsLawful(k, Bundle(t, p, d, Some(g), None, [])) && (Holds(db, t, p, d, g) || IsNewGrant(k, db, p, d, g)))
            && (u.Some? && Holds(db, t, p, d, g) ==> u.value == db)
            && (u.Some? && !Holds(db, t, p, d, g) ==>
                  u.value == db.(
                    chains := db.chains[g.grantId :=
                      ChainRow(k.hashGrant(g), k.hashProposal(p), k.hashDecision(d), t, p, d, g)],
                    chainByHash := db.chainByHash[k.hashGrant(g) := g.grantId]))
  {
    hide Inv, VerifyGrant, LawfulTask, LawfulProposal, LawfulDecision, LawfulGrant;
    GrantExactly(k, t, p, d, g);
    if g.grantId in db.chains { StoredChain(k, db, g.grantId); }
  }

  /** A stored chain has the hashes of its own records, and they are lawful. */
  lemma StoredChain(k: Protocol, db: Db, id: Units)
    requires Inv(k, db) && id in db.chains
    ensures var row := db.chains[id];
            row.grant.grantId == id && row.grantHash == k.hashGrant(row.grant)
            && row.proposalHash == k.hashProposal(row.proposal) && row.decisionHash == k.hashDecision(row.decision)
            && row.grantHash in db.chainByHash && db.chainByHash[row.grantHash] == id
            && VerifyGrant(k, row.task, row.proposal, row.decision, row.grant) == Some(row.grantHash)
            && k.ValidGrant(row.grant)
  {
    hide ClaimsOk, IsLastTime, CurrentnessOk, HistoriesOk, ReceiptsOk, VerifyDecision;
    assert ChainOk(k, db.chainByHash, id, db.chains[id]);
  }

  lemma ChainByHash(k: Protocol, db: Db, h: Digest)
    requires Inv(k, db) && h in db.chainByHash
    ensures db.chainByHash[h] in db.chains && db.chains[db.chainByHash[h]].grantHash == h
    ensures LoadChainByHash(k, db, h) == Some(db.chains[db.chainByHash[h]])
  {
    hide ClaimsOk, IsLastTime, CurrentnessOk, HistoriesOk, ReceiptsOk, Intact;
    assert ChainOk(k, db.chainByHash, db.chainByHash[h], db.chains[db.chainByHash[h]]);
  }

  // ---- Currentness ----

  predicate LawfulSnapshot(k: Protocol, s: Snapshot) {
    k.text(s.key, 1024) && 1 <= s.version <= LAST_SAFE && s.policyEpoch <= LAST_SAFE
    && s.configurationEpoch <= LAST_SAFE && s.observedAt <= LAST_SAFE
  }

  /** A higher version, with neither epoch nor observation going back, and no
      revocation taken back at its epochs. */
  predicate Supersedes(s: Snapshot, row: Snapshot) {
    row.version < s.version && row.policyEpoch <= s.policyEpoch && row.configurationEpoch <= s.configurationEpoch
    && row.observedAt <= s.observedAt
    && (row.revoked ==>
          s.revoked || row.policyEpoch < s.policyEpoch || row.configurationEpoch < s.configurationEpoch)
  }

  /** An accepted snapshot is what the key maps to from then on, and nothing else changes. */
  lemma CurrentnessExactly(k: Protocol, db: Db, s: Snapshot)
    ensures var u := PutCurrentness(k, db, s);
            (u.Some? <==>
               LawfulSnapshot(k, s)
               && (s.key in db.currentness ==> db.currentness[s.key] == s || Supersedes(s, db.currentness[s.key])))
            && (u.Some? ==> u.value == db.(currentness := db.currentness[s.key := s]))
  {
    if s.key in db.currentness && db.currentness[s.key] == s {
      assert db.currentness[s.key := s] == db.currentness;
    }
  }

  /** Once a revoking snapshot is accepted, no continuation claims or first marks a
      grant of those epochs under that key, and none takes the revocation back. */
  lemma AcceptedRevocationBlocks(k: Protocol, ops: seq<Op>, s: Snapshot, more: seq<Op>)
    ensures var db := T.Reached(k, ops); var u := Run(k, Step(k, db, CurrentnessOp(s)), more);
            s.revoked && PutCurrentness(k, db, s).Some? ==>
              Blocked(k, u, s.key, s.policyEpoch, s.configurationEpoch)
              && s.key in u.currentness
              && (SameEpochs(u.currentness[s.key], s) ==> u.currentness[s.key].revoked)
  {
    hide Inv, Run, Blocked, T.Reached, PutCurrentness;
    var db := T.Reached(k, ops);
    T.ReachedOk(k, ops);
    if s.revoked && PutCurrentness(k, db, s).Some? {
      CurrentnessExactly(k, db, s);
      StepKeeps(k, db, CurrentnessOp(s));
      RevocationSticks(k, Step(k, db, CurrentnessOp(s)), more, s.key);
    }
  }

  // ---- Claims ----

  predicate LawfulRequest(k: Protocol, q: ClaimRequest) {
    k.text(q.attemptId, 256) && k.text(q.audience, 512) && k.text(q.key, 1024)
    && 1 <= q.version <= LAST_SAFE && 1 <= q.maximumAge <= 300_000
  }

  /** The snapshot was observed at most so long ago. */
  predicate ObservedWithin(s: Snapshot, now: u64, maximumAge: u64) {
    s.observedAt <= now <= s.observedAt + maximumAge
  }

  /** The snapshot is unrevoked and has the epochs and digests of the chain. */
  predicate Confirms(s: Snapshot, t: Task, p: Proposal) {
    !s.revoked && s.policyEpoch == t.policyEpoch && s.configurationEpoch == t.configurationEpoch
    && s.preStateDigest == p.preStateDigest && s.resourceClaimDigest == p.resourceClaimDigest
  }

  /** Exactly this grant is registered, and the request is for it, on time and current. */
  predicate Claimable(k: Protocol, db: Db, g: Grant, q: ClaimRequest, now: u64) {
    LawfulRequest(k, q) && now <= LAST_SAFE
    && g.grantId in db.chains && db.chains[g.grantId].grant == g
    && q.audience == g.audience && g.notBefore <= now < g.expiresAt
    && (db.lastTime.Some? ==> db.lastTime.value <= now)
    && q.key in db.currentness
    && (var s := db.currentness[q.key];
        s.version == q.version && ObservedWithin(s, now, q.maximumAge)
        && Confirms(s, db.chains[g.grantId].task, db.chains[g.grantId].proposal))
    && k.hashGrant(g) !in db.claims
    && (forall h | h in db.claims :: db.claims[h].attemptId != q.attemptId)
  }

  lemma ClaimExactly(k: Protocol, ops: seq<Op>, g: Grant, q: ClaimRequest, now: u64)
    ensures var db := T.Reached(k, ops); var u := Claim(k, db, g, q, now);
            (u.Some? <==> Claimable(k, db, g, q, now))
            && (u.Some? ==>
                  u.value == db.(
                    lastTime := Some(now),
                    claims := db.claims[k.hashGrant(g) :=
                      ClaimRow(q.attemptId, q.key, q.version, q.maximumAge, now, None)]))
  {
    hide Inv, T.Reached, Claim, Claimable;
    T.ReachedOk(k, ops);
    ClaimMeans(k, T.Reached(k, ops), g, q, now);
  }

  lemma ClaimMeans(k: Protocol, db: Db, g: Grant, q: ClaimRequest, now: u64)
    requires Inv(k, db)
    ensures var u := Claim(k, db, g, q, now);
            (u.Some? <==> Claimable(k, db, g, q, now))
            && (u.Some? ==>
                  u.value == db.(
                    lastTime := Some(now),
                    claims := db.claims[k.hashGrant(g) :=
                      ClaimRow(q.attemptId, q.key, q.version, q.maximumAge, now, None)]))
  {
    hide Inv, VerifyGrant;
    if g.grantId in db.chains { StoredChain(k, db, g.grantId); }
  }

  // ---- Markers ----

  /** The claim is this attempt's; its marker is already this one, or it has none
      and the grant, the clock and the claimed version still allow it. */
  predicate MarkableAt(db: Db, h: Digest, attemptId: Units, at: u64) {
    h in db.claims && at <= LAST_SAFE
    && (var c := db.claims[h];
        attemptId == c.attemptId && c.claimedAt <= at
        && (match c.marker
            case Some(marked) => marked == at
            case None =>
              (db.lastTime.Some? ==> db.lastTime.value <= at)
              && h in db.chainByHash && db.chainByHash[h] in db.chains
              && at < db.chains[db.chainByHash[h]].grant.expiresAt
              && c.key in db.currentness && db.currentness[c.key].version == c.version
              && ObservedWithin(db.currentness[c.key], at, c.maximumAge)))
  }

  lemma MarkExactly(k: Protocol, ops: seq<Op>, h: Digest, attemptId: Units, at: u64)
    ensures var db := T.Reached(k, ops); var u := MarkDispatchStarted(k, db, h, attemptId, at);
            (u.Some? <==> MarkableAt(db, h, attemptId, at))
            && (u.Some? && db.claims[h].marker.Some? ==> u.value == db)
            && (u.Some? && db.claims[h].marker.None? ==>
                  u.value == db.(lastTime := Some(at), claims := db.claims[h := db.claims[h].(marker := Some(at))]))
  {
    hide Inv, T.Reached, MarkDispatchStarted, MarkableAt;
    T.ReachedOk(k, ops);
    MarkMeans(k, T.Reached(k, ops), h, attemptId, at);
  }

  lemma MarkMeans(k: Protocol, db: Db, h: Digest, attemptId: Units, at: u64)
    requires Inv(k, db)
    ensures var u := MarkDispatchStarted(k, db, h, attemptId, at);
            (u.Some? <==> MarkableAt(db, h, attemptId, at))
            && (u.Some? ==> h in db.claims)
            && (u.Some? && db.claims[h].marker.Some? ==> u.value == db)
            && (u.Some? && db.claims[h].marker.None? ==>
                  u.value == db.(lastTime := Some(at), claims := db.claims[h := db.claims[h].(marker := Some(at))]))
  {
    hide Inv, ChainOk, LoadChainByHash;
    if h in db.claims {
      ClaimInvariant(k, db, h);
      ChainByHash(k, db, h);
    }
  }

  // ---- Receipts ----

  /** What a receipt may say beside the marker, or beside none. */
  predicate SaysWhatHappened(r: Receipt, marker: Option<u64>) {
    r.dispatchedAt == marker
    && (if marker.None? then r.outcome == NotDispatched || r.outcome == Unknown else r.outcome != NotDispatched)
  }

  /** The receipt is lawful for the chain it names and is that of the claimed
      attempt and its marker. */
  predicate Fitting(k: Protocol, db: Db, r: Receipt) {
    r.grantHash in db.chainByHash && db.chainByHash[r.grantHash] in db.chains
    && LawfulReceipt(k, db.chains[db.chainByHash[r.grantHash]].proposal,
                     db.chains[db.chainByHash[r.grantHash]].grant, r)
    && r.grantHash in db.claims
    && r.attemptId == db.claims[r.grantHash].attemptId && r.claimedAt == db.claims[r.grantHash].claimedAt
    && SaysWhatHappened(r, db.claims[r.grantHash].marker)
  }

  /** The grant has no receipt yet, or one with the same hash. */
  predicate Unspent(k: Protocol, db: Db, r: Receipt) {
    if r.grantHash in db.receipts then db.receipts[r.grantHash].receiptHash == k.hashReceipt(r)
    else
      k.hashReceipt(r) !in db.receiptByHash
      && forall h | h in db.receipts :: db.receipts[h].receipt.receiptId != r.receiptId
  }

  lemma RecordExactly(k: Protocol, ops: seq<Op>, r: Receipt)
    ensures var db := T.Reached(k, ops); var u := RecordReceipt(k, db, r);
            (u.Some? <==> Fitting(k, db, r) && Unspent(k, db, r))
            && (u.Some? && r.grantHash in db.receipts ==> u.value == db)
            && (u.Some? && r.grantHash !in db.receipts ==>
                  u.value == db.(
                    receipts := db.receipts[r.grantHash := ReceiptRow(k.hashReceipt(r), r)],
                    receiptByHash := db.receiptByHash[k.hashReceipt(r) := r.grantHash]))
  {
    hide Inv, T.Reached, RecordReceipt, Fitting, Unspent;
    T.ReachedOk(k, ops);
    RecordMeans(k, T.Reached(k, ops), r);
  }

  lemma RecordMeans(k: Protocol, db: Db, r: Receipt)
    requires Inv(k, db)
    ensures var u := RecordReceipt(k, db, r);
            (u.Some? <==> Fitting(k, db, r) && Unspent(k, db, r))
            && (u.Some? && r.grantHash in db.receipts ==> u.value == db)
            && (u.Some? && r.grantHash !in db.receipts ==>
                  u.value == db.(
                    receipts := db.receipts[r.grantHash := ReceiptRow(k.hashReceipt(r), r)],
                    receiptByHash := db.receiptByHash[k.hashReceipt(r) := r.grantHash]))
  {
    hide Inv, MayRecord, LawfulReceipt, Fitting, IntactReceipt;
    MayRecordExactly(k, db, r);
    if r.grantHash in db.receipts { StoredReceipt(k, db, r.grantHash); }
  }

  lemma StoredReceipt(k: Protocol, db: Db, h: Digest)
    requires Inv(k, db) && h in db.receipts
    ensures IntactReceipt(k, db.receipts[h])
  {
    hide Inv, AllRecords, IsHistory;
    ReceiptInvariant(k, db, h);
  }

  lemma MayRecordExactly(k: Protocol, db: Db, r: Receipt)
    requires Inv(k, db)
    ensures MayRecord(k, db, r) <==> Fitting(k, db, r)
  {
    hide Inv, LoadChainByHash, VerifyGrant, VerifyChain, LawfulReceipt;
    if r.grantHash in db.chainByHash {
      ChainByHash(k, db, r.grantHash);
      var row := db.chains[db.chainByHash[r.grantHash]];
      StoredChain(k, db, db.chainByHash[r.grantHash]);
      ReceiptExactly(k, row.task, row.proposal, row.decision, row.grant, r);
      LawfulIsValid(k, row.task, row.proposal, row.decision, row.grant, r);
    } else {
      NoChain(k, db, r.grantHash);
    }
  }

  lemma NoChain(k: Protocol, db: Db, h: Digest)
    requires h !in db.chainByHash
    ensures LoadChainByHash(k, db, h).None?
  {
  }

  // ---- Reconciliations ----

  /** The history stored under a receipt hash. */
  ghost function StoredRecords(db: Db, rh: Digest): seq<Reconciliation> { AllRecords(db.histories, rh) }

  /** The next record of the history, new in its identifier, hash and parent. */
  ghost predicate Appendable(k: Protocol, db: Db, c: Reconciliation) {
    c.receiptHash in db.receiptByHash && db.receiptByHash[c.receiptHash] in db.receipts
    && LawfulHistory(k, db.receipts[db.receiptByHash[c.receiptHash]].receipt, StoredRecords(db, c.receiptHash) + [c])
    && forall key | key in db.histories ::
         db.histories[key].record.reconciliationId != c.reconciliationId
         && db.histories[key].hash != k.hashReconciliation(c)
         && (c.parentHash.Some? ==> db.histories[key].record.parentHash != c.parentHash)
  }

  /** A record with this hash is stored at its place already. */
  ghost predicate Appended(k: Protocol, db: Db, c: Reconciliation) {
    c.receiptHash in db.receiptByHash && WellFormedRecord(k, c)
    && c.sequence <= |StoredRecords(db, c.receiptHash)|
    && k.hashReconciliation(StoredRecords(db, c.receiptHash)[c.sequence - 1]) == k.hashReconciliation(c)
  }

  lemma AppendExactly(k: Protocol, ops: seq<Op>, c: Reconciliation)
    ensures var db := T.Reached(k, ops); var u := AppendReconciliation(k, db, c);
            (u.Some? <==> Appendable(k, db, c) || Appended(k, db, c))
            && (u.Some? && Appended(k, db, c) ==> u.value == db)
            && (u.Some? && !Appended(k, db, c) ==>
                  u.value == db.(histories := u.value.histories)
                  && StoredRecords(u.value, c.receiptHash) == StoredRecords(db, c.receiptHash) + [c]
                  && forall rh | rh in db.receiptByHash && rh != c.receiptHash ::
                       StoredRecords(u.value, rh) == StoredRecords(db, rh))
  {
    hide Inv, T.Reached, AppendReconciliation, Appendable, Appended, StoredRecords;
    var db := T.Reached(k, ops);
    T.ReachedOk(k, ops);
    AppendMeans(k, db, c);
    if AppendReconciliation(k, db, c).Some? && !Appended(k, db, c) { AppendStores(k, db, c); }
  }

  lemma AppendMeans(k: Protocol, db: Db, c: Reconciliation)
    requires Inv(k, db)
    ensures AppendReconciliation(k, db, c).Some? <==> Appendable(k, db, c) || Appended(k, db, c)
    ensures Appended(k, db, c) ==> AppendReconciliation(k, db, c) == Some(db)
  {
    hide Inv, AllRecords, IsHistory, LawfulHistory, HistoryOk, VerifyReconciliation, Sequences, LatestRecord;
    hide LoadReceiptByHash;
    ReceiptByHash(k, db, c.receiptHash);
    if c.receiptHash in db.receiptByHash {
      var h := db.receiptByHash[c.receiptHash];
      var n := StoredHistory(k, db, h);
      RowsAre(k, db.receipts[h].receipt, db.histories, c, n);
      NextExactly(k, db.receipts[h].receipt, StoredRecords(db, c.receiptHash), c);
      NewIsFresh(k, db.receipts[h].receipt, db.histories, c, n);
    }
  }

  lemma ReceiptByHash(k: Protocol, db: Db, rh: Digest)
    requires Inv(k, db)
    ensures LoadReceiptByHash(k, db, rh).Some? <==> rh in db.receiptByHash
    ensures rh in db.receiptByHash ==>
              db.receiptByHash[rh] in db.receipts && db.receipts[db.receiptByHash[rh]].receiptHash == rh
              && LoadReceiptByHash(k, db, rh) == Some(db.receipts[db.receiptByHash[rh]].receipt)
              && k.ValidReceipt(db.receipts[db.receiptByHash[rh]].receipt)
  {
    hide ChainsOk, ClaimsOk, IsLastTime, CurrentnessOk, HistoriesOk, VerifyChain;
  }

  /** What the rows of a receipt say about the record at the place of `c`. */
  lemma RowsAre(k: Protocol, r: Receipt, hs: Histories, c: Reconciliation, n: nat)
    requires HistoryOk(k, r, hs, c.receiptHash, n)
    ensures |Sequences(hs, c.receiptHash)| == |AllRecords(hs, c.receiptHash)| == n
    ensures LatestRecord(hs, c.receiptHash) == LastOf(AllRecords(hs, c.receiptHash))
    ensures IsHistory(k, r, AllRecords(hs, c.receiptHash)) && n <= MAX_RECONCILIATION_RECORDS
    ensures HistoryKey(c.receiptHash, c.sequence) in hs <==> 1 <= c.sequence <= n
    ensures HistoryKey(c.receiptHash, c.sequence) in hs ==>
              hs[HistoryKey(c.receiptHash, c.sequence)].record == AllRecords(hs, c.receiptHash)[c.sequence - 1]
              && k.ValidReconciliation(hs[HistoryKey(c.receiptHash, c.sequence)].record)
    ensures n > 0 ==> k.ValidReconciliation(AllRecords(hs, c.receiptHash)[n - 1])
  {
    hide AllRecords;
    HistoryRead(k, r, hs, c.receiptHash, n);
    var key := HistoryKey(c.receiptHash, c.sequence);
    if key in hs { assert c.sequence in Sequences(hs, c.receiptHash); }
    if key in hs { assert IsLink(k, r, History(hs, c.receiptHash, n), c.sequence - 1); }
    if n > 0 { assert IsLink(k, r, History(hs, c.receiptHash, n), n - 1); }
  }

  lemma NewIsFresh(k: Protocol, r: Receipt, hs: Histories, c: Reconciliation, n: nat)
    requires HistoryOk(k, r, hs, c.receiptHash, n)
    ensures (forall key | key in hs :: hs[key].record.reconciliationId != c.reconciliationId) ==>
              FreshIdentifier(AllRecords(hs, c.receiptHash), c)
  {
    hide AllRecords, IsHistory;
    HistoryRead(k, r, hs, c.receiptHash, n);
    if forall key | key in hs :: hs[key].record.reconciliationId != c.reconciliationId { FreshInHistory(hs, c, n); }
  }

  lemma AppendStores(k: Protocol, db: Db, c: Reconciliation)
    requires Inv(k, db) && AppendReconciliation(k, db, c).Some? && !Appended(k, db, c)
    ensures var u := AppendReconciliation(k, db, c).value;
            u == db.(histories := u.histories)
            && StoredRecords(u, c.receiptHash) == StoredRecords(db, c.receiptHash) + [c]
            && forall rh | rh in db.receiptByHash && rh != c.receiptHash ::
                 StoredRecords(u, rh) == StoredRecords(db, rh)
  {
    hide AllRecords, IsHistory, HistoryOk, AppendReconciliation, LawfulHistory;
    hide ChainsOk, ClaimsOk, IsLastTime, CurrentnessOk, ReceiptOk;
    var u := AppendReconciliation(k, db, c).value;
    NewKey(k, db, c);
    AppendedRow(k, db, c);
    var h := db.receiptByHash[c.receiptHash];
    var r := db.receipts[h].receipt;
    var n := StoredHistory(k, db, h);
    AppendGrows(k, db, c, n);
    HistoryRead(k, r, db.histories, c.receiptHash, n);
    HistoryRead(k, r, u.histories, c.receiptHash, n + 1);
    forall rh | rh in db.receiptByHash && rh != c.receiptHash ensures StoredRecords(u, rh) == StoredRecords(db, rh) {
      var other := db.receipts[db.receiptByHash[rh]].receipt;
      var m := StoredHistory(k, db, db.receiptByHash[rh]);
      OtherHistory(k, other, db.histories, c, HistoryRow(k.hashReconciliation(c), c), rh, m);
      HistoryRead(k, other, db.histories, rh, m);
      HistoryRead(k, other, u.histories, rh, m);
    }
  }

  /** A commit that is no repeat is of a record whose place is free. */
  lemma NewKey(k: Protocol, db: Db, c: Reconciliation)
    requires Inv(k, db) && AppendReconciliation(k, db, c).Some? && !Appended(k, db, c)
    ensures HistoryKey(c.receiptHash, c.sequence) !in db.histories && c.receiptHash in db.receiptByHash
  {
    hide Inv, AllRecords, IsHistory, LawfulHistory, HistoryOk, VerifyReconciliation, Sequences, LatestRecord;
    hide LoadReceiptByHash, Taken;
    ReceiptByHash(k, db, c.receiptHash);
    var h := db.receiptByHash[c.receiptHash];
    var n := StoredHistory(k, db, h);
    RowsAre(k, db.receipts[h].receipt, db.histories, c, n);
  }
}
