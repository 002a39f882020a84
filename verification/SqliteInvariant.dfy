/** What every reachable database satisfies. */
module SqliteInvariant {
  import opened Unicode
  import opened Json
  import opened Records
  import opened Verifier
  import opened Sqlite

  // ---- The parts of the invariant ----

  ghost predicate ChainOk(k: Protocol, byHash: map<Digest, Units>, id: Units, row: ChainRow) {
    row.grant.grantId == id && Intact(k, row) && row.grantHash in byHash && byHash[row.grantHash] == id
  }

  ghost predicate ChainsOk(k: Protocol, chains: map<Units, ChainRow>, byHash: map<Digest, Units>) {
    (forall id | id in chains :: ChainOk(k, byHash, id, chains[id]))
    && (forall h | h in byHash :: byHash[h] in chains && chains[byHash[h]].grantHash == h)
    && GrantedOnce(chains)
  }

  /** No proposal and no decision has two grants. */
  predicate GrantedOnce(chains: map<Units, ChainRow>) {
    forall a, b | a in chains && b in chains && a != b ::
      chains[a].proposalHash != chains[b].proposalHash && chains[a].decisionHash != chains[b].decisionHash
  }

  predicate CurrentnessOk(k: Protocol, currentness: map<Units, Snapshot>) {
    forall key | key in currentness :: currentness[key].key == key && ValidSnapshot(k, currentness[key])
  }

  /** A claim lies in its grant's window. Its key has not fallen behind the
      claimed version or the committed epochs, and while the version is the
      claimed one the row is the very snapshot the claim was checked against. */
  predicate ClaimOk(k: Protocol, chain: ChainRow, now: Snapshot, c: ClaimRow) {
    k.text(c.attemptId, 256) && 0 < c.maximumAge <= MAX_CURRENTNESS_AGE_MS
    && chain.grant.notBefore <= c.claimedAt < chain.grant.expiresAt
    && now.version >= c.version
    && now.policyEpoch >= chain.task.policyEpoch && now.configurationEpoch >= chain.task.configurationEpoch
    && (now.version == c.version ==> Matches(now, chain) && IsFresh(now, c.claimedAt, c.maximumAge))
    && (c.marker.Some? ==> c.claimedAt <= c.marker.value < chain.grant.expiresAt)
  }

  predicate ClaimsOk(
    k: Protocol, chains: map<Units, ChainRow>, byHash: map<Digest, Units>,
    currentness: map<Units, Snapshot>, claims: map<Digest, ClaimRow>)
  {
    (forall h | h in claims ::
       h in byHash && byHash[h] in chains && claims[h].key in currentness
       && ClaimOk(k, chains[byHash[h]], currentness[claims[h].key], claims[h]))
    && (forall a, b | a in claims && b in claims && a != b :: claims[a].attemptId != claims[b].attemptId)
  }

  /** The stored clock is the maximum of all claim and marker times. */
  ghost predicate IsLastTime(lastTime: Option<u64>, claims: map<Digest, ClaimRow>) {
    match lastTime
    case None => claims == map[]
    case Some(t) =>
      SafeTime(t)
      && (forall h | h in claims ::
            claims[h].claimedAt <= t && (claims[h].marker.Some? ==> claims[h].marker.value <= t))
      && (exists h :: h in claims && (claims[h].claimedAt == t || claims[h].marker == Some(t)))
  }

  /** A receipt of the claimed attempt. A reported dispatch time is the marker;
      without one the outcome is `not_dispatched` or `unknown`. */
  predicate ReceiptOk(k: Protocol, hash: Digest, chain: ChainRow, claim: ClaimRow, row: ReceiptRow) {
    var r := row.receipt;
    r.grantHash == hash && IntactReceipt(k, row)
    && VerifyChain(k, chain.task, chain.proposal, chain.decision, chain.grant, r).Some?
    && r.attemptId == claim.attemptId && r.claimedAt == claim.claimedAt
    && (r.dispatchedAt.Some? ==> claim.marker == r.dispatchedAt && !r.outcome.NotDispatched?)
    && (r.dispatchedAt.None? ==> r.outcome.NotDispatched? || r.outcome.Unknown?)
  }

  predicate ReceiptsOk(
    k: Protocol, chains: map<Units, ChainRow>, byHash: map<Digest, Units>, claims: map<Digest, ClaimRow>,
    receipts: map<Digest, ReceiptRow>, receiptByHash: map<Digest, Digest>)
  {
    (forall h | h in receipts ::
       h in claims && h in byHash && byHash[h] in chains
       && ReceiptOk(k, h, chains[byHash[h]], claims[h], receipts[h])
       && receipts[h].receiptHash in receiptByHash && receiptByHash[receipts[h].receiptHash] == h)
    && (forall rh | rh in receiptByHash ::
          receiptByHash[rh] in receipts && receipts[receiptByHash[rh]].receiptHash == rh)
    && (forall a, b | a in receipts && b in receipts && a != b ::
          receipts[a].receipt.receiptId != receipts[b].receipt.receiptId)
  }

  function UpTo(n: nat): (s: set<u64>)
    requires n <= MAX_RECONCILIATION_RECORDS
    ensures forall i: u64 :: i in s <==> 1 <= i <= n
  {
    if n == 0 then {} else var last: u64 := n; UpTo(n - 1) + {last}
  }

  /** The rows of one receipt in sequence. */
  function History(hs: Histories, receiptHash: Digest, n: nat): seq<Reconciliation>
    requires n <= MAX_RECONCILIATION_RECORDS && forall i: u64 | 1 <= i <= n :: HistoryKey(receiptHash, i) in hs
  {
    seq(n, i requires 0 <= i < n => hs[HistoryKey(receiptHash, i + 1)].record)
  }

  /** Contiguous from 1 to `n`, and a history in the verifier's sense. */
  ghost predicate HistoryOk(k: Protocol, r: Receipt, hs: Histories, receiptHash: Digest, n: nat) {
    n <= MAX_RECONCILIATION_RECORDS && Sequences(hs, receiptHash) == UpTo(n)
    && (forall i: u64 | 1 <= i <= n :: HistoryKey(receiptHash, i) in hs)
    && IsHistory(k, r, History(hs, receiptHash, n))
  }

  ghost predicate HistoriesOk(
    k: Protocol, receipts: map<Digest, ReceiptRow>, receiptByHash: map<Digest, Digest>, hs: Histories)
  {
    (forall key | key in hs ::
       key.receiptHash in receiptByHash && hs[key].record.receiptHash == key.receiptHash
       && hs[key].record.sequence == key.sequence && hs[key].hash == k.hashReconciliation(hs[key].record))
    && (forall rh | rh in receiptByHash ::
          receiptByHash[rh] in receipts && exists n :: HistoryOk(k, receipts[receiptByHash[rh]].receipt, hs, rh, n))
    && (forall a, b | a in hs && b in hs && a != b ::
          hs[a].record.reconciliationId != hs[b].record.reconciliationId && hs[a].hash != hs[b].hash)
  }

  ghost predicate Inv(k: Protocol, db: Db) {
    ChainsOk(k, db.chains, db.chainByHash)
    && CurrentnessOk(k, db.currentness)
    && ClaimsOk(k, db.chains, db.chainByHash, db.currentness, db.claims)
    && IsLastTime(db.lastTime, db.claims)
    && ReceiptsOk(k, db.chains, db.chainByHash, db.claims, db.receipts, db.receiptByHash)
    && HistoriesOk(k, db.receipts, db.receiptByHash, db.histories)
  }

  lemma EmptyOk(k: Protocol)
    ensures Inv(k, EmptyDb())
  {
  }

  // ---- Registration ----

  lemma RegisterKeeps(k: Protocol, db: Db, t: Task, p: Proposal, d: Decision, g: Grant)
    requires Inv(k, db) && RegisterChain(k, db, t, p, d, g).Some?
    ensures Inv(k, RegisterChain(k, db, t, p, d, g).value)
  {
    hide ChainsOk, CurrentnessOk, ClaimsOk, IsLastTime, ReceiptsOk, HistoriesOk;
    var u := RegisterChain(k, db, t, p, d, g).value;
    RegisterChains(k, db, t, p, d, g);
    RegisterClaims(k, db, t, p, d, g);
    RegisterReceipts(k, db, t, p, d, g);
  }

  /** What a new registration did. */
  lemma RegisteredNew(k: Protocol, db: Db, t: Task, p: Proposal, d: Decision, g: Grant)
    requires RegisterChain(k, db, t, p, d, g).Some? && RegisterChain(k, db, t, p, d, g).value != db
    ensures var h := VerifyGrant(k, t, p, d, g);
            h.Some? && h.value !in db.chainByHash && g.grantId !in db.chains
            && IsFirstGrant(db.chains, k.hashProposal(p), k.hashDecision(d))
            && RegisterChain(k, db, t, p, d, g).value ==
                 db.(chains := db.chains[g.grantId :=
                       ChainRow(h.value, k.hashProposal(p), k.hashDecision(d), t, p, d, g)],
                     chainByHash := db.chainByHash[h.value := g.grantId])
  {
    hide VerifyGrant;
  }

  /** No registered chain has this proposal or this decision. */
  predicate IsFirstGrant(chains: map<Units, ChainRow>, proposalHash: Digest, decisionHash: Digest) {
    forall id | id in chains :: chains[id].proposalHash != proposalHash && chains[id].decisionHash != decisionHash
  }

  lemma RegisterChains(k: Protocol, db: Db, t: Task, p: Proposal, d: Decision, g: Grant)
    requires ChainsOk(k, db.chains, db.chainByHash) && RegisterChain(k, db, t, p, d, g).Some?
    ensures var u := RegisterChain(k, db, t, p, d, g).value; ChainsOk(k, u.chains, u.chainByHash)
  {
    hide ChainsOk, RegisterChain, VerifyGrant, IsFirstGrant, Intact;
    if RegisterChain(k, db, t, p, d, g).value != db {
      RegisteredNew(k, db, t, p, d, g);
      RegisteredIntact(k, t, p, d, g);
      ChainsGrow(k, db.chains, db.chainByHash, g.grantId,
                 ChainRow(VerifyGrant(k, t, p, d, g).value, k.hashProposal(p), k.hashDecision(d), t, p, d, g));
    }
  }

  lemma ChainsGrow(k: Protocol, chains: map<Units, ChainRow>, byHash: map<Digest, Units>, id: Units, row: ChainRow)
    requires ChainsOk(k, chains, byHash) && id !in chains && row.grantHash !in byHash
    requires row.grant.grantId == id && Intact(k, row) && IsFirstGrant(chains, row.proposalHash, row.decisionHash)
    ensures ChainsOk(k, chains[id := row], byHash[row.grantHash := id])
  {
    hide Intact;
    var more := chains[id := row];
    forall other | other in more ensures ChainOk(k, byHash[row.grantHash := id], other, more[other]) {
      if other != id { assert ChainOk(k, byHash, other, chains[other]); }
    }
  }

  lemma RegisteredIntact(k: Protocol, t: Task, p: Proposal, d: Decision, g: Grant)
    requires VerifyGrant(k, t, p, d, g).Some?
    ensures Intact(k, ChainRow(VerifyGrant(k, t, p, d, g).value, k.hashProposal(p), k.hashDecision(d), t, p, d, g))
  {
    hide VerifyGrant;
  }

  lemma RegisterClaims(k: Protocol, db: Db, t: Task, p: Proposal, d: Decision, g: Grant)
    requires ClaimsOk(k, db.chains, db.chainByHash, db.currentness, db.claims) && RegisterChain(k, db, t, p, d, g).Some?
    ensures var u := RegisterChain(k, db, t, p, d, g).value;
            ClaimsOk(k, u.chains, u.chainByHash, u.currentness, u.claims)
  {
    hide VerifyGrant, ClaimOk;
  }

  lemma RegisterReceipts(k: Protocol, db: Db, t: Task, p: Proposal, d: Decision, g: Grant)
    requires ReceiptsOk(k, db.chains, db.chainByHash, db.claims, db.receipts, db.receiptByHash)
    requires RegisterChain(k, db, t, p, d, g).Some?
    ensures var u := RegisterChain(k, db, t, p, d, g).value;
            ReceiptsOk(k, u.chains, u.chainByHash, u.claims, u.receipts, u.receiptByHash)
  {
    hide VerifyGrant, ReceiptOk;
  }

  // ---- Currentness ----

  lemma CurrentnessKeeps(k: Protocol, db: Db, s: Snapshot)
    requires Inv(k, db) && PutCurrentness(k, db, s).Some?
    ensures Inv(k, PutCurrentness(k, db, s).value)
  {
    hide ChainsOk, CurrentnessOk, ClaimsOk, IsLastTime, ReceiptsOk, HistoriesOk;
    CurrentnessRows(k, db, s);
    CurrentnessClaims(k, db, s);
  }

  lemma CurrentnessRows(k: Protocol, db: Db, s: Snapshot)
    requires CurrentnessOk(k, db.currentness) && PutCurrentness(k, db, s).Some?
    ensures CurrentnessOk(k, PutCurrentness(k, db, s).value.currentness)
  {
  }

  lemma CurrentnessClaims(k: Protocol, db: Db, s: Snapshot)
    requires ClaimsOk(k, db.chains, db.chainByHash, db.currentness, db.claims) && PutCurrentness(k, db, s).Some?
    ensures ClaimsOk(k, db.chains, db.chainByHash, PutCurrentness(k, db, s).value.currentness, db.claims)
  {
    hide ValidSnapshot, Matches, IsFresh;
  }

  // ---- Claims ----

  lemma ClaimKeeps(k: Protocol, db: Db, g: Grant, q: ClaimRequest, now: u64)
    requires Inv(k, db) && Claim(k, db, g, q, now).Some?
    ensures Inv(k, Claim(k, db, g, q, now).value)
  {
    hide ChainsOk, CurrentnessOk, ClaimsOk, IsLastTime, ReceiptsOk, HistoriesOk, MayClaim;
    ClaimRows(k, db, g, q, now);
    ClaimTime(k, db, g, q, now);
    ClaimReceipts(k, db, g, q, now);
  }

  lemma ClaimRows(k: Protocol, db: Db, g: Grant, q: ClaimRequest, now: u64)
    requires ChainsOk(k, db.chains, db.chainByHash)
    requires ClaimsOk(k, db.chains, db.chainByHash, db.currentness, db.claims) && Claim(k, db, g, q, now).Some?
    ensures ClaimsOk(k, db.chains, db.chainByHash, db.currentness, Claim(k, db, g, q, now).value.claims)
  {
    hide Intact, IsFresh;
    assert ChainOk(k, db.chainByHash, g.grantId, db.chains[g.grantId]);
  }

  lemma ClaimTime(k: Protocol, db: Db, g: Grant, q: ClaimRequest, now: u64)
    requires IsLastTime(db.lastTime, db.claims) && Claim(k, db, g, q, now).Some?
    ensures IsLastTime(Claim(k, db, g, q, now).value.lastTime, Claim(k, db, g, q, now).value.claims)
  {
    hide LoadChain, Matches, IsFresh;
    assert k.hashGrant(g) in Claim(k, db, g, q, now).value.claims;
  }

  lemma ClaimReceipts(k: Protocol, db: Db, g: Grant, q: ClaimRequest, now: u64)
    requires ReceiptsOk(k, db.chains, db.chainByHash, db.claims, db.receipts, db.receiptByHash)
    requires Claim(k, db, g, q, now).Some?
    ensures ReceiptsOk(k, db.chains, db.chainByHash, Claim(k, db, g, q, now).value.claims, db.receipts,
                       db.receiptByHash)
  {
    hide MayClaim, ReceiptOk;
  }

  // ---- Markers ----

  lemma MarkKeeps(k: Protocol, db: Db, hash: Digest, attemptId: Units, at: u64)
    requires Inv(k, db) && MarkDispatchStarted(k, db, hash, attemptId, at).Some?
    ensures Inv(k, MarkDispatchStarted(k, db, hash, attemptId, at).value)
  {
    hide ChainsOk, CurrentnessOk, ClaimsOk, IsLastTime, ReceiptsOk, HistoriesOk, MayMark;
    MarkRows(k, db, hash, attemptId, at);
    MarkTime(k, db, hash, attemptId, at);
    MarkReceipts(k, db, hash, attemptId, at);
  }

  lemma MarkRows(k: Protocol, db: Db, hash: Digest, attemptId: Units, at: u64)
    requires ClaimsOk(k, db.chains, db.chainByHash, db.currentness, db.claims)
    requires MarkDispatchStarted(k, db, hash, attemptId, at).Some?
    ensures ClaimsOk(k, db.chains, db.chainByHash, db.currentness,
                     MarkDispatchStarted(k, db, hash, attemptId, at).value.claims)
  {
    hide Intact, Matches, IsFresh;
  }

  lemma MarkTime(k: Protocol, db: Db, hash: Digest, attemptId: Units, at: u64)
    requires IsLastTime(db.lastTime, db.claims) && MarkDispatchStarted(k, db, hash, attemptId, at).Some?
    ensures var u := MarkDispatchStarted(k, db, hash, attemptId, at).value; IsLastTime(u.lastTime, u.claims)
  {
    hide LoadChainByHash, Matches, IsFresh;
    assert hash in MarkDispatchStarted(k, db, hash, attemptId, at).value.claims;
  }

  lemma MarkReceipts(k: Protocol, db: Db, hash: Digest, attemptId: Units, at: u64)
    requires ReceiptsOk(k, db.chains, db.chainByHash, db.claims, db.receipts, db.receiptByHash)
    requires MarkDispatchStarted(k, db, hash, attemptId, at).Some?
    ensures ReceiptsOk(k, db.chains, db.chainByHash, MarkDispatchStarted(k, db, hash, attemptId, at).value.claims,
                       db.receipts, db.receiptByHash)
  {
    hide MayMark, IntactReceipt, VerifyChain;
  }

  // ---- Receipts ----

  lemma ReceiptKeeps(k: Protocol, db: Db, r: Receipt)
    requires Inv(k, db) && RecordReceipt(k, db, r).Some?
    ensures Inv(k, RecordReceipt(k, db, r).value)
  {
    hide ChainsOk, CurrentnessOk, ClaimsOk, IsLastTime, ReceiptsOk, HistoriesOk, MayRecord;
    ReceiptRows(k, db, r);
    ReceiptHistories(k, db, r);
  }

  lemma ReceiptRows(k: Protocol, db: Db, r: Receipt)
    requires ChainsOk(k, db.chains, db.chainByHash)
    requires ReceiptsOk(k, db.chains, db.chainByHash, db.claims, db.receipts, db.receiptByHash)
    requires RecordReceipt(k, db, r).Some?
    ensures var u := RecordReceipt(k, db, r).value;
            ReceiptsOk(k, db.chains, db.chainByHash, db.claims, u.receipts, u.receiptByHash)
  {
    hide ChainsOk, ReceiptOk, MayRecord;
    if r.grantHash !in db.receipts {
      RecordedOk(k, db, r);
    }
  }

  lemma RecordedOk(k: Protocol, db: Db, r: Receipt)
    requires ChainsOk(k, db.chains, db.chainByHash) && MayRecord(k, db, r)
    ensures var h := r.grantHash;
            h in db.claims && h in db.chainByHash && db.chainByHash[h] in db.chains
            && ReceiptOk(k, h, db.chains[db.chainByHash[h]], db.claims[h], ReceiptRow(k.hashReceipt(r), r))
  {
    hide Intact, VerifyChain;
  }

  lemma ReceiptHistories(k: Protocol, db: Db, r: Receipt)
    requires HistoriesOk(k, db.receipts, db.receiptByHash, db.histories) && RecordReceipt(k, db, r).Some?
    requires ReceiptsOk(k, db.chains, db.chainByHash, db.claims, db.receipts, db.receiptByHash)
    ensures var u := RecordReceipt(k, db, r).value; HistoriesOk(k, u.receipts, u.receiptByHash, u.histories)
  {
    hide MayRecord, ReceiptOk, HistoryOk, IntactReceipt;
    var u := RecordReceipt(k, db, r).value;
    if u != db {
      var hash := k.hashReceipt(r);
      NoHistoryYet(k, r, db, hash);
      forall rh | rh in u.receiptByHash
        ensures u.receiptByHash[rh] in u.receipts
             && exists n :: HistoryOk(k, u.receipts[u.receiptByHash[rh]].receipt, db.histories, rh, n)
      {
        if rh != hash {
          assert ReceiptOf(db, rh) == ReceiptOf(u, rh);
        }
      }
    }
  }

  function ReceiptOf(db: Db, rh: Digest): Option<ReceiptRow> {
    if rh in db.receiptByHash && db.receiptByHash[rh] in db.receipts
    then Some(db.receipts[db.receiptByHash[rh]])
    else None
  }

  lemma NoHistoryYet(k: Protocol, r: Receipt, db: Db, hash: Digest)
    requires HistoriesOk(k, db.receipts, db.receiptByHash, db.histories) && hash !in db.receiptByHash
    ensures HistoryOk(k, r, db.histories, hash, 0)
  {
    hide IsLink;
    assert Sequences(db.histories, hash) == {};
  }

  // ---- Reconciliations ----

  lemma LatestUpTo(n: nat)
    requires 0 < n <= MAX_RECONCILIATION_RECORDS
    ensures UpTo(n) != {} && Latest(UpTo(n)) == n
  {
    var last: u64 := n;
    assert last in UpTo(n);
  }

  lemma InOrderSnoc(s: set<u64>, m: u64)
    requires forall x | x in s :: x < m
    ensures |s + {m}| == |s| + 1 && InOrder(s + {m}) == InOrder(s) + [m]
  {
    assert m in s + {m} && m !in s;
    assert Latest(s + {m}) == m;
    assert s + {m} - {m} == s;
  }

  lemma {:induction false} InOrderUpTo(n: nat)
    requires n <= MAX_RECONCILIATION_RECORDS
    ensures |UpTo(n)| == n && |InOrder(UpTo(n))| == n
    ensures forall i | 0 <= i < n :: InOrder(UpTo(n))[i] == i + 1
  {
    hide InOrder, UpTo;
    if n == 0 {
      NoneUpTo();
    } else {
      InOrderUpTo(n - 1);
      InOrderSnoc(UpTo(n - 1), n);
      assert UpTo(n) == UpTo(n - 1) + {n} by { UpToStep(n); }
      var order := InOrder(UpTo(n - 1));
      assert forall i | 0 <= i < n :: (order + [n])[i] == if i < n - 1 then order[i] else n;
    }
  }

  lemma NoneUpTo()
    ensures UpTo(0) == {} && InOrder({}) == []
  {
  }

  lemma UpToStep(n: nat)
    requires 0 < n <= MAX_RECONCILIATION_RECORDS
    ensures UpTo(n) == UpTo(n - 1) + {n}
  {
  }

  /** Reading a receipt's rows back yields exactly its history. */
  lemma HistoryRead(k: Protocol, r: Receipt, hs: Histories, rh: Digest, n: nat)
    requires HistoryOk(k, r, hs, rh, n)
    ensures |Sequences(hs, rh)| == n
    ensures AllRecords(hs, rh) == History(hs, rh, n)
    ensures LatestRecord(hs, rh) == LastOf(History(hs, rh, n))
  {
    hide IsHistory;
    InOrderUpTo(n);
    if n > 0 { LatestUpTo(n); }
  }

  /** A reconciliation that is appended is the next one, of a known receipt. */
  lemma AppendedNext(k: Protocol, db: Db, c: Reconciliation, n: nat)
    requires AppendReconciliation(k, db, c).Some? && HistoryKey(c.receiptHash, c.sequence) !in db.histories
    requires c.receiptHash in db.receiptByHash && db.receiptByHash[c.receiptHash] in db.receipts
    requires HistoryOk(k, db.receipts[db.receiptByHash[c.receiptHash]].receipt, db.histories, c.receiptHash, n)
    ensures n < MAX_RECONCILIATION_RECORDS && c.sequence == n + 1
    ensures var r := db.receipts[db.receiptByHash[c.receiptHash]].receipt;
            k.ValidReceipt(r) && VerifyReconciliation(k, r, LastOf(History(db.histories, c.receiptHash, n)), c).Some?
  {
    hide Taken, AllRecords;
    var r := db.receipts[db.receiptByHash[c.receiptHash]].receipt;
    var cs := History(db.histories, c.receiptHash, n);
    HistoryRead(k, r, db.histories, c.receiptHash, n);
    if n > 0 { assert IsLink(k, r, cs, n - 1); }
  }

  lemma AppendGrows(k: Protocol, db: Db, c: Reconciliation, n: nat)
    requires HistoriesOk(k, db.receipts, db.receiptByHash, db.histories)
    requires AppendReconciliation(k, db, c).Some? && HistoryKey(c.receiptHash, c.sequence) !in db.histories
    requires c.receiptHash in db.receiptByHash && db.receiptByHash[c.receiptHash] in db.receipts
    requires HistoryOk(k, db.receipts[db.receiptByHash[c.receiptHash]].receipt, db.histories, c.receiptHash, n)
    ensures var hs := AppendReconciliation(k, db, c).value.histories;
            HistoryOk(k, db.receipts[db.receiptByHash[c.receiptHash]].receipt, hs, c.receiptHash, n + 1)
            && History(hs, c.receiptHash, n + 1) == History(db.histories, c.receiptHash, n) + [c]
  {
    hide HistoriesOk, HistoryOk, IsHistory, Apply;
    AppendedNext(k, db, c, n);
    AppendedRow(k, db, c);
    var r, row := db.receipts[db.receiptByHash[c.receiptHash]].receipt, HistoryRow(k.hashReconciliation(c), c);
    RowExtends(k, r, db.histories, row, n);
  }

  /** What a successful append of a new record did. */
  lemma AppendedRow(k: Protocol, db: Db, c: Reconciliation)
    requires AppendReconciliation(k, db, c).Some? && HistoryKey(c.receiptHash, c.sequence) !in db.histories
    ensures AppendReconciliation(k, db, c).value
         == db.(histories := db.histories[
               HistoryKey(c.receiptHash, c.sequence) := HistoryRow(k.hashReconciliation(c), c)])
    ensures forall key | key in db.histories :: db.histories[key].record.reconciliationId != c.reconciliationId
  {
    hide VerifyReconciliation, LatestRecord, LoadReceiptByHash;
  }

  lemma RowExtends(k: Protocol, r: Receipt, hs: Histories, row: HistoryRow, n: nat)
    requires HistoryOk(k, r, hs, row.record.receiptHash, n) && k.ValidReceipt(r)
    requires n < MAX_RECONCILIATION_RECORDS && row.record.sequence == n + 1
    requires VerifyReconciliation(k, r, LastOf(History(hs, row.record.receiptHash, n)), row.record).Some?
    requires forall key | key in hs :: hs[key].record.reconciliationId != row.record.reconciliationId
    ensures var rh := row.record.receiptHash;
            var hs' := hs[HistoryKey(rh, row.record.sequence) := row];
            HistoryOk(k, r, hs', rh, n + 1) && History(hs', rh, n + 1) == History(hs, rh, n) + [row.record]
  {
    hide VerifyReconciliation, IsHistory, UpTo, Sequences;
    var c := row.record;
    var rh, cs := c.receiptHash, History(hs, c.receiptHash, n);
    var hs' := hs[HistoryKey(rh, c.sequence) := row];
    FreshInHistory(hs, c, n);
    HistoryExtends(k, r, cs, c);
    SequencesGrow(hs, c, row);
    UpToStep(n + 1);
    HistoryGrows(hs, row, n);
  }

  lemma HistoryGrows(hs: Histories, row: HistoryRow, n: nat)
    requires n < MAX_RECONCILIATION_RECORDS && row.record.sequence == n + 1
    requires forall i: u64 | 1 <= i <= n :: HistoryKey(row.record.receiptHash, i) in hs
    ensures var rh := row.record.receiptHash;
            var hs' := hs[HistoryKey(rh, row.record.sequence) := row];
            (forall i: u64 | 1 <= i <= n + 1 :: HistoryKey(rh, i) in hs')
            && History(hs', rh, n + 1) == History(hs, rh, n) + [row.record]
  {
  }

  lemma SequencesGrow(hs: Histories, c: Reconciliation, row: HistoryRow)
    ensures var key := HistoryKey(c.receiptHash, c.sequence);
            Sequences(hs[key := row], c.receiptHash) == Sequences(hs, c.receiptHash) + {c.sequence}
    ensures forall rh | rh != c.receiptHash ::
              Sequences(hs[HistoryKey(c.receiptHash, c.sequence) := row], rh) == Sequences(hs, rh)
  {
    var key := HistoryKey(c.receiptHash, c.sequence);
    var hs' := hs[key := row];
    forall rh, s
      ensures s in Sequences(hs', rh) <==> s in Sequences(hs, rh) || (rh == c.receiptHash && s == c.sequence)
    {
      assert s in Sequences(hs', rh) <==> HistoryKey(rh, s) in hs';
      assert s in Sequences(hs, rh) <==> HistoryKey(rh, s) in hs;
    }
  }

  lemma FreshInHistory(hs: Histories, c: Reconciliation, n: nat)
    requires n <= MAX_RECONCILIATION_RECORDS
    requires forall i: u64 | 1 <= i <= n :: HistoryKey(c.receiptHash, i) in hs
    requires forall key | key in hs :: hs[key].record.reconciliationId != c.reconciliationId
    ensures FreshIdentifier(History(hs, c.receiptHash, n), c)
  {
  }

  lemma AppendKeeps(k: Protocol, db: Db, c: Reconciliation)
    requires Inv(k, db) && AppendReconciliation(k, db, c).Some?
    ensures Inv(k, AppendReconciliation(k, db, c).value)
  {
    hide ChainsOk, CurrentnessOk, ClaimsOk, IsLastTime, ReceiptsOk, HistoriesOk;
    hide VerifyReconciliation, LoadReceiptByHash, LatestRecord, Taken;
    AppendHistories(k, db, c);
  }

  lemma AppendHistories(k: Protocol, db: Db, c: Reconciliation)
    requires HistoriesOk(k, db.receipts, db.receiptByHash, db.histories) && AppendReconciliation(k, db, c).Some?
    ensures HistoriesOk(k, db.receipts, db.receiptByHash, AppendReconciliation(k, db, c).value.histories)
  {
    hide VerifyReconciliation, LatestRecord, HistoryOk;
    var hs, key := AppendReconciliation(k, db, c).value.histories, HistoryKey(c.receiptHash, c.sequence);
    if key !in db.histories {
      forall rh | rh in db.receiptByHash
        ensures exists n :: HistoryOk(k, db.receipts[db.receiptByHash[rh]].receipt, hs, rh, n)
      {
        var r := db.receipts[db.receiptByHash[rh]].receipt;
        var n :| HistoryOk(k, r, db.histories, rh, n);
        if rh == c.receiptHash {
          AppendGrows(k, db, c, n);
        } else {
          OtherHistory(k, r, db.histories, c, hs[key], rh, n);
        }
      }
    }
  }

  lemma OtherHistory(k: Protocol, r: Receipt, hs: Histories, c: Reconciliation, row: HistoryRow, rh: Digest, n: nat)
    requires HistoryOk(k, r, hs, rh, n) && rh != c.receiptHash
    ensures var hs' := hs[HistoryKey(c.receiptHash, c.sequence) := row];
            HistoryOk(k, r, hs', rh, n) && History(hs', rh, n) == History(hs, rh, n)
  {
    hide IsHistory;
    SequencesGrow(hs, c, row);
    var hs' := hs[HistoryKey(c.receiptHash, c.sequence) := row];
    assert History(hs', rh, n) == History(hs, rh, n);
  }

  // ---- Runs ----

  lemma StepKeeps(k: Protocol, db: Db, op: Op)
    requires Inv(k, db)
    ensures Inv(k, Step(k, db, op))
  {
    hide Inv, RegisterChain, PutCurrentness, Claim, MarkDispatchStarted, RecordReceipt, AppendReconciliation;
    if Apply(k, db, op).Some? {
      match op
      case RegisterOp(t, p, d, g) => RegisterKeeps(k, db, t, p, d, g);
      case CurrentnessOp(s) => CurrentnessKeeps(k, db, s);
      case ClaimOp(g, q, now) => ClaimKeeps(k, db, g, q, now);
      case MarkOp(hash, attemptId, at) => MarkKeeps(k, db, hash, attemptId, at);
      case ReceiptOp(r) => ReceiptKeeps(k, db, r);
      case ReconciliationOp(c) => AppendKeeps(k, db, c);
    }
  }

  lemma {:induction false} RunKeeps(k: Protocol, db: Db, ops: seq<Op>)
    requires Inv(k, db)
    ensures Inv(k, Run(k, db, ops))
    decreases |ops|
  {
    hide Inv, Step;
    if ops != [] {
      StepKeeps(k, db, ops[0]);
      RunKeeps(k, Step(k, db, ops[0]), ops[1..]);
    }
  }
}
