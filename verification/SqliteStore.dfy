/** The store object: statements change the tables one at a time, and an error
    inside a transaction puts them all back. */
module SqliteStore {
  import opened Unicode
  import opened Json
  import opened Records
  import opened Verifier
  import opened Sqlite

  class SqliteEffectStore {
    const k: Protocol
    var lastTime: Option<u64>
    var currentness: map<Units, Snapshot>
    var chains: map<Units, ChainRow>
    var chainByHash: map<Digest, Units>
    var claims: map<Digest, ClaimRow>
    var receipts: map<Digest, ReceiptRow>
    var receiptByHash: map<Digest, Digest>
    var histories: Histories

    constructor (k: Protocol)
      ensures this.k == k && Tables() == EmptyDb()
    {
      this.k := k;
      lastTime := None;
      currentness, chains, chainByHash := map[], map[], map[];
      claims, receipts, receiptByHash, histories := map[], map[], map[], map[];
    }

    function Tables(): Db
      reads this
    {
      Db(lastTime, currentness, chains, chainByHash, claims, receipts, receiptByHash, histories)
    }

    method Rollback(begun: Db)
      modifies this
      ensures Tables() == begun
    {
      lastTime, currentness := begun.lastTime, begun.currentness;
      chains, chainByHash := begun.chains, begun.chainByHash;
      claims, receipts, receiptByHash := begun.claims, begun.receipts, begun.receiptByHash;
      histories := begun.histories;
    }

    method Register(t: Task, p: Proposal, d: Decision, g: Grant) returns (r: Option<Digest>)
      modifies this
      ensures r.Some? <==> RegisterChain(k, old(Tables()), t, p, d, g).Some?
      ensures r.Some? ==> r == VerifyGrant(k, t, p, d, g)
      ensures Tables() == Step(k, old(Tables()), RegisterOp(t, p, d, g))
    {
      var grantHash := VerifyGrant(k, t, p, d, g);
      if grantHash.None? {
        return None;
      }
      var proposalHash, decisionHash := k.hashProposal(p), k.hashDecision(d);
      var row := ChainRow(grantHash.value, proposalHash, decisionHash, t, p, d, g);
      if g.grantId in chains {
        return if chains[g.grantId] == row then grantHash else None;
      }
      if exists id :: id in chains && chains[id].proposalHash == proposalHash {
        return None;
      }
      if exists id :: id in chains && chains[id].decisionHash == decisionHash {
        return None;
      }
      var begun := Tables();
      chains := chains[g.grantId := row];
      if grantHash.value in chainByHash {
        Rollback(begun);
        return None;
      }
      chainByHash := chainByHash[grantHash.value := g.grantId];
      return grantHash;
    }

    method PutCurrentnessRow(s: Snapshot) returns (ok: bool)
      modifies this
      ensures ok <==> PutCurrentness(k, old(Tables()), s).Some?
      ensures Tables() == if ok then old(Tables()).(currentness := old(currentness)[s.key := s]) else old(Tables())
      ensures Tables() == Step(k, old(Tables()), CurrentnessOp(s))
    {
      if !ValidSnapshot(k, s) {
        return false;
      }
      if s.key in currentness {
        var previous := currentness[s.key];
        if previous == s {
          assert currentness[s.key := s] == currentness;
          return true;
        }
        if s.version <= previous.version {
          return false;
        }
        if s.policyEpoch < previous.policyEpoch || s.configurationEpoch < previous.configurationEpoch {
          return false;
        }
        if s.observedAt < previous.observedAt {
          return false;
        }
        if previous.revoked && !s.revoked && s.policyEpoch == previous.policyEpoch
           && s.configurationEpoch == previous.configurationEpoch {
          return false;
        }
      }
      currentness := currentness[s.key := s];
      return true;
    }

    method ClaimGrant(g: Grant, q: ClaimRequest, now: u64) returns (r: Option<ClaimRow>)
      modifies this
      ensures r.Some? <==> Claim(k, old(Tables()), g, q, now).Some?
      ensures r.Some? ==> r.value == RowOf(q, now)
      ensures Tables() == Step(k, old(Tables()), ClaimOp(g, q, now))
    {
      hide VerifyGrant;
      if !ValidRequest(k, q) || !SafeTime(now) || !k.ValidGrant(g) {
        return None;
      }
      var suppliedHash := k.hashGrant(g);
      var chain := LoadChain(k, Tables(), g.grantId);
      if chain.None? || chain.value.grantHash != suppliedHash || chain.value.grant != g {
        return None;
      }
      if lastTime.Some? && now < lastTime.value {
        return None;
      }
      if q.key !in currentness {
        return None;
      }
      var snapshot := currentness[q.key];
      if snapshot.observedAt > now || now - snapshot.observedAt > q.maximumAge || snapshot.version != q.version {
        return None;
      }
      if q.audience != chain.value.grant.audience || !Matches(snapshot, chain.value) {
        return None;
      }
      if now < chain.value.grant.notBefore || now >= chain.value.grant.expiresAt {
        return None;
      }
      var begun := Tables();
      lastTime := Some(now);
      if suppliedHash in claims || (exists h :: h in claims && claims[h].attemptId == q.attemptId) {
        Rollback(begun);
        return None;
      }
      claims := claims[suppliedHash := RowOf(q, now)];
      return Some(RowOf(q, now));
    }

    method Mark(hash: Digest, attemptId: Units, at: u64) returns (ok: bool)
      modifies this
      ensures ok <==> MarkDispatchStarted(k, old(Tables()), hash, attemptId, at).Some?
      ensures Tables() == Step(k, old(Tables()), MarkOp(hash, attemptId, at))
    {
      hide VerifyGrant;
      if !k.text(attemptId, 256) || !SafeTime(at) || hash !in claims {
        return false;
      }
      var claim := claims[hash];
      if claim.attemptId != attemptId || at < claim.claimedAt {
        return false;
      }
      if claim.marker.Some? {
        return claim.marker.value == at;
      }
      if lastTime.Some? && at < lastTime.value {
        return false;
      }
      var chain := LoadChainByHash(k, Tables(), hash);
      if chain.None? || at >= chain.value.grant.expiresAt || claim.key !in currentness {
        return false;
      }
      var snapshot := currentness[claim.key];
      if snapshot.observedAt > at || at - snapshot.observedAt > claim.maximumAge
         || snapshot.version != claim.version || !Matches(snapshot, chain.value) {
        return false;
      }
      lastTime := Some(at);
      claims := claims[hash := claim.(marker := Some(at))];
      return true;
    }

    method Record(receipt: Receipt) returns (r: Option<Digest>)
      modifies this
      ensures r.Some? <==> RecordReceipt(k, old(Tables()), receipt).Some?
      ensures r.Some? ==> r.value == k.hashReceipt(receipt)
      ensures Tables() == Step(k, old(Tables()), ReceiptOp(receipt))
    {
      hide VerifyGrant, VerifyChain;
      if !k.ValidReceipt(receipt) {
        return None;
      }
      var receiptHash := k.hashReceipt(receipt);
      var chain := LoadChainByHash(k, Tables(), receipt.grantHash);
      if chain.None? {
        return None;
      }
      var c := chain.value;
      if VerifyChain(k, c.task, c.proposal, c.decision, c.grant, receipt).None? || receipt.grantHash !in claims {
        return None;
      }
      var claim := claims[receipt.grantHash];
      if claim.attemptId != receipt.attemptId || claim.claimedAt != receipt.claimedAt {
        return None;
      }
      if !EvidenceMatches(receipt, claim.marker) {
        return None;
      }
      if receipt.grantHash in receipts {
        var existing := receipts[receipt.grantHash];
        return if IntactReceipt(k, existing) && existing.receiptHash == receiptHash then Some(receiptHash) else None;
      }
      if exists h :: h in receipts && receipts[h].receipt.receiptId == receipt.receiptId {
        return None;
      }
      var begun := Tables();
      receipts := receipts[receipt.grantHash := ReceiptRow(receiptHash, receipt)];
      if receiptHash in receiptByHash {
        Rollback(begun);
        return None;
      }
      receiptByHash := receiptByHash[receiptHash := receipt.grantHash];
      return Some(receiptHash);
    }

    method Append(record: Reconciliation) returns (r: Option<Digest>)
      modifies this
      ensures r.Some? <==> AppendReconciliation(k, old(Tables()), record).Some?
      ensures r.Some? ==> r.value == k.hashReconciliation(record)
      ensures Tables() == Step(k, old(Tables()), ReconciliationOp(record))
    {
      if !k.ValidReconciliation(record) {
        return None;
      }
      var recordHash := k.hashReconciliation(record);
      var receipt := LoadReceiptByHash(k, Tables(), record.receiptHash);
      if receipt.None? {
        return None;
      }
      var key := HistoryKey(record.receiptHash, record.sequence);
      if key in histories {
        var existing := histories[key].record;
        return
          if k.ValidReconciliation(existing) && k.hashReconciliation(existing) == recordHash
          then Some(recordHash) else None;
      }
      if |Sequences(histories, record.receiptHash)| >= MAX_RECONCILIATION_RECORDS {
        return None;
      }
      var previous := LatestRecord(histories, record.receiptHash);
      if previous.Some? && !k.ValidReconciliation(previous.value) {
        return None;
      }
      var verified := VerifyReconciliation(k, receipt.value, previous, record);
      if verified.None? || Taken(histories, HistoryRow(verified.value, record)) {
        return None;
      }
      histories := histories[key := HistoryRow(verified.value, record)];
      return Some(recordHash);
    }

    method GetLifecycle(hash: Digest) returns (r: Option<Lifecycle>)
      ensures r == ReadLifecycle(k, Tables(), hash)
    {
      hide VerifyGrant, VerifyChain, VerifyReconciliation;
      var chain := LoadChainByHash(k, Tables(), hash);
      if chain.None? {
        return None;
      }
      var claim := if hash in claims then Some(claims[hash]) else None;
      if hash !in receipts {
        return Some(Lifecycle(claim, None, []));
      }
      var c, row := chain.value, receipts[hash];
      if !IntactReceipt(k, row) || VerifyChain(k, c.task, c.proposal, c.decision, c.grant, row.receipt).None? {
        return None;
      }
      if claim.None? || claim.value.attemptId != row.receipt.attemptId
         || claim.value.claimedAt != row.receipt.claimedAt || !EvidenceMatches(row.receipt, claim.value.marker) {
        return None;
      }
      var records := AllRecords(histories, row.receiptHash);
      var previous: Option<Reconciliation> := None;
      var index := 0;
      while index < |records|
        invariant index <= |records|
        invariant previous == if index == 0 then None else Some(records[index - 1])
        invariant forall i | 0 <= i < index :: LinkHolds(k, row.receipt, records, i)
      {
        if !k.ValidReconciliation(records[index])
           || VerifyReconciliation(k, row.receipt, previous, records[index]).None? {
          assert !LinkHolds(k, row.receipt, records, index);
          return None;
        }
        previous := Some(records[index]);
        index := index + 1;
      }
      return Some(Lifecycle(claim, Some(row.receipt), records));
    }
  }
}
