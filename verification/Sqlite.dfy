/** The durable store: tables as maps, each `BEGIN IMMEDIATE` transaction one
    atomic step that commits or leaves the tables as they were. */
module Sqlite {
  import opened Unicode
  import opened Json
  import opened Records
  import opened Verifier

  const MAX_CURRENTNESS_AGE_MS: u64 := 300_000

  // ---- Rows ----

  datatype Snapshot = Snapshot(
    key: Units, version: u64, policyEpoch: u64, configurationEpoch: u64,
    preStateDigest: Digest, resourceClaimDigest: Digest, revoked: bool, observedAt: u64)

  datatype ChainRow = ChainRow(
    grantHash: Digest, proposalHash: Digest, decisionHash: Digest,
    task: Task, proposal: Proposal, decision: Decision, grant: Grant)

  datatype ClaimRow = ClaimRow(
    attemptId: Units, key: Units, version: u64, maximumAge: u64, claimedAt: u64, marker: Option<u64>)

  datatype ReceiptRow = ReceiptRow(receiptHash: Digest, receipt: Receipt)

  datatype HistoryKey = HistoryKey(receiptHash: Digest, sequence: u64)

  datatype HistoryRow = HistoryRow(hash: Digest, record: Reconciliation)

  type Histories = map<HistoryKey, HistoryRow>

  /** The tables by primary key, with the two unique indexes that are searched. */
  datatype Db = Db(
    lastTime: Option<u64>,
    currentness: map<Units, Snapshot>,
    chains: map<Units, ChainRow>, chainByHash: map<Digest, Units>,
    claims: map<Digest, ClaimRow>,
    receipts: map<Digest, ReceiptRow>, receiptByHash: map<Digest, Digest>,
    histories: Histories)

  function EmptyDb(): Db { Db(None, map[], map[], map[], map[], map[], map[], map[]) }

  datatype ClaimRequest = ClaimRequest(
    attemptId: Units, audience: Units, key: Units, version: u64, maximumAge: u64)

  datatype Lifecycle = Lifecycle(claim: Option<ClaimRow>, receipt: Option<Receipt>, history: seq<Reconciliation>)

  // ---- Queries ----

  /** The stored chain decodes and its hashes match its columns. */
  predicate Intact(k: Protocol, row: ChainRow) {
    VerifyGrant(k, row.task, row.proposal, row.decision, row.grant) == Some(row.grantHash)
    && k.hashProposal(row.proposal) == row.proposalHash && k.hashDecision(row.decision) == row.decisionHash
  }

  function LoadChain(k: Protocol, db: Db, grantId: Units): Option<ChainRow> {
    if grantId in db.chains && Intact(k, db.chains[grantId]) then Some(db.chains[grantId]) else None
  }

  function LoadChainByHash(k: Protocol, db: Db, hash: Digest): Option<ChainRow> {
    if hash in db.chainByHash then LoadChain(k, db, db.chainByHash[hash]) else None
  }

  predicate IntactReceipt(k: Protocol, row: ReceiptRow) {
    k.ValidReceipt(row.receipt) && k.hashReceipt(row.receipt) == row.receiptHash
  }

  function LoadReceiptByHash(k: Protocol, db: Db, hash: Digest): Option<Receipt> {
    if hash in db.receiptByHash && db.receiptByHash[hash] in db.receipts
       && IntactReceipt(k, db.receipts[db.receiptByHash[hash]])
    then Some(db.receipts[db.receiptByHash[hash]].receipt) else None
  }

  function Sequences(hs: Histories, receiptHash: Digest): set<u64> {
    set key | key in hs && key.receiptHash == receiptHash :: key.sequence
  }

  /** `ORDER BY sequence DESC LIMIT 1`. */
  function Latest(s: set<u64>): (m: u64)
    requires s != {}
    ensures m in s && forall x | x in s :: x <= m
  {
    LatestExists(s);
    var m :| m in s && forall x | x in s :: x <= m;
    m
  }

  lemma {:induction false} LatestExists(s: set<u64>)
    requires s != {}
    ensures exists m :: m in s && forall x | x in s :: x <= m
    decreases |s|
  {
    var a :| a in s;
    var rest := s - {a};
    if rest == {} {
      assert s == {a};
    } else {
      LatestExists(rest);
      var b :| b in rest && forall x | x in rest :: x <= b;
      var m := if a <= b then b else a;
      forall x | x in s ensures x <= m {
        if x != a { assert x in rest; }
      }
      assert m in s;
    }
  }

  /** `ORDER BY sequence`. */
  function InOrder(s: set<u64>): (r: seq<u64>)
    ensures forall x :: x in r <==> x in s
    decreases |s|
  {
    if s == {} then [] else InOrder(s - {Latest(s)}) + [Latest(s)]
  }

  function LatestRecord(hs: Histories, receiptHash: Digest): Option<Reconciliation> {
    var s := Sequences(hs, receiptHash);
    if s == {} then None else Some(hs[HistoryKey(receiptHash, Latest(s))].record)
  }

  function AllRecords(hs: Histories, receiptHash: Digest): seq<Reconciliation> {
    var order := InOrder(Sequences(hs, receiptHash));
    seq(|order|, i requires 0 <= i < |order| => assert order[i] in order; hs[HistoryKey(receiptHash, order[i])].record)
  }

  // ---- Checks ----

  predicate ValidSnapshot(k: Protocol, s: Snapshot) {
    k.text(s.key, 1024) && 0 < s.version <= MAX_SAFE_INTEGER && SafeTime(s.policyEpoch)
    && SafeTime(s.configurationEpoch) && SafeTime(s.observedAt)
  }

  predicate ValidRequest(k: Protocol, q: ClaimRequest) {
    k.text(q.attemptId, 256) && k.text(q.audience, 512) && k.text(q.key, 1024)
    && 0 < q.version <= MAX_SAFE_INTEGER && 0 < q.maximumAge <= MAX_CURRENTNESS_AGE_MS
  }

  predicate IsFresh(s: Snapshot, now: u64, maximumAge: u64) {
    s.observedAt <= now && now - s.observedAt <= maximumAge
  }

  /** The snapshot holds the epochs and digests the chain committed to, unrevoked. */
  predicate Matches(s: Snapshot, row: ChainRow) {
    s.policyEpoch == row.task.policyEpoch && s.configurationEpoch == row.task.configurationEpoch
    && s.preStateDigest == row.proposal.preStateDigest
    && s.resourceClaimDigest == row.proposal.resourceClaimDigest && !s.revoked
  }

  predicate NotBefore(lastTime: Option<u64>, now: u64) { lastTime.Some? ==> lastTime.value <= now }

  predicate MayFollow(previous: Snapshot, s: Snapshot) {
    s.version > previous.version
    && s.policyEpoch >= previous.policyEpoch && s.configurationEpoch >= previous.configurationEpoch
    && s.observedAt >= previous.observedAt
    && !(previous.revoked && !s.revoked && s.policyEpoch == previous.policyEpoch
         && s.configurationEpoch == previous.configurationEpoch)
  }

  /** `validate_dispatch_evidence`. */
  predicate EvidenceMatches(r: Receipt, marker: Option<u64>) {
    match marker
    case None => r.dispatchedAt.None? && (r.outcome.NotDispatched? || r.outcome.Unknown?)
    case Some(at) => r.dispatchedAt == Some(at) && (r.outcome.Succeeded? || r.outcome.Failed? || r.outcome.Unknown?)
  }

  // ---- The transactions: `None` is an error and a rollback ----

  function RegisterChain(k: Protocol, db: Db, t: Task, p: Proposal, d: Decision, g: Grant): Option<Db> {
    var verified := VerifyGrant(k, t, p, d, g);
    if verified.None? then None
    else
      var row := ChainRow(verified.value, k.hashProposal(p), k.hashDecision(d), t, p, d, g);
      if g.grantId in db.chains then (if db.chains[g.grantId] == row then Some(db) else None)
      else if exists id :: id in db.chains && db.chains[id].proposalHash == row.proposalHash then None
      else if exists id :: id in db.chains && db.chains[id].decisionHash == row.decisionHash then None
      else if row.grantHash in db.chainByHash then None
      else Some(db.(chains := db.chains[g.grantId := row], chainByHash := db.chainByHash[row.grantHash := g.grantId]))
  }

  function PutCurrentness(k: Protocol, db: Db, s: Snapshot): Option<Db> {
    if !ValidSnapshot(k, s) then None
    else if s.key in db.currentness && db.currentness[s.key] == s then Some(db)
    else if s.key in db.currentness && !MayFollow(db.currentness[s.key], s) then None
    else Some(db.(currentness := db.currentness[s.key := s]))
  }

  function RowOf(q: ClaimRequest, now: u64): ClaimRow {
    ClaimRow(q.attemptId, q.key, q.version, q.maximumAge, now, None)
  }

  predicate MayClaim(k: Protocol, db: Db, g: Grant, q: ClaimRequest, now: u64) {
    ValidRequest(k, q) && SafeTime(now) && k.ValidGrant(g)
    && var chain := LoadChain(k, db, g.grantId);
       chain.Some? && chain.value.grantHash == k.hashGrant(g) && chain.value.grant == g
       && NotBefore(db.lastTime, now)
       && q.key in db.currentness
       && IsFresh(db.currentness[q.key], now, q.maximumAge)
       && db.currentness[q.key].version == q.version
       && q.audience == g.audience
       && Matches(db.currentness[q.key], chain.value)
       && g.notBefore <= now < g.expiresAt
  }

  function Claim(k: Protocol, db: Db, g: Grant, q: ClaimRequest, now: u64): Option<Db> {
    if !MayClaim(k, db, g, q, now) then None
    else
      var hash := k.hashGrant(g);
      if hash in db.claims || (exists h :: h in db.claims && db.claims[h].attemptId == q.attemptId) then None
      else Some(db.(lastTime := Some(now), claims := db.claims[hash := RowOf(q, now)]))
  }

  /** Everything checked before a first marker is written. */
  predicate MayMark(k: Protocol, db: Db, hash: Digest, claim: ClaimRow, at: u64) {
    var chain := LoadChainByHash(k, db, hash);
    NotBefore(db.lastTime, at) && chain.Some? && at < chain.value.grant.expiresAt
    && claim.key in db.currentness
    && IsFresh(db.currentness[claim.key], at, claim.maximumAge)
    && db.currentness[claim.key].version == claim.version
    && Matches(db.currentness[claim.key], chain.value)
  }

  function MarkDispatchStarted(k: Protocol, db: Db, hash: Digest, attemptId: Units, at: u64): Option<Db> {
    if !k.text(attemptId, 256) || !SafeTime(at) || hash !in db.claims then None
    else
      var claim := db.claims[hash];
      if claim.attemptId != attemptId || at < claim.claimedAt then None
      else if claim.marker.Some? then (if claim.marker.value == at then Some(db) else None)
      else if !MayMark(k, db, hash, claim, at) then None
      else Some(db.(lastTime := Some(at), claims := db.claims[hash := claim.(marker := Some(at))]))
  }

  /** The receipt belongs to the claimed chain and states its dispatch evidence. */
  predicate MayRecord(k: Protocol, db: Db, r: Receipt) {
    var chain := LoadChainByHash(k, db, r.grantHash);
    k.ValidReceipt(r) && chain.Some?
    && VerifyChain(k, chain.value.task, chain.value.proposal, chain.value.decision, chain.value.grant, r).Some?
    && r.grantHash in db.claims
    && db.claims[r.grantHash].attemptId == r.attemptId && db.claims[r.grantHash].claimedAt == r.claimedAt
    && EvidenceMatches(r, db.claims[r.grantHash].marker)
  }

  function RecordReceipt(k: Protocol, db: Db, r: Receipt): Option<Db> {
    if !MayRecord(k, db, r) then None
    else
      var row := ReceiptRow(k.hashReceipt(r), r);
      if r.grantHash in db.receipts then
        if IntactReceipt(k, db.receipts[r.grantHash]) && db.receipts[r.grantHash].receiptHash == row.receiptHash
        then Some(db) else None
      else if exists h :: h in db.receipts && db.receipts[h].receipt.receiptId == r.receiptId then None
      else if row.receiptHash in db.receiptByHash then None
      else Some(db.(receipts := db.receipts[r.grantHash := row],
                    receiptByHash := db.receiptByHash[row.receiptHash := r.grantHash]))
  }

  /** Another row already has the record's identifier, hash or parent. */
  predicate Taken(hs: Histories, row: HistoryRow) {
    exists key :: key in hs
      && (hs[key].record.reconciliationId == row.record.reconciliationId || hs[key].hash == row.hash
          || (row.record.parentHash.Some? && hs[key].record.parentHash == row.record.parentHash))
  }

  function AppendReconciliation(k: Protocol, db: Db, c: Reconciliation): Option<Db> {
    var receipt := LoadReceiptByHash(k, db, c.receiptHash);
    if !k.ValidReconciliation(c) || receipt.None? then None
    else
      var hs, key := db.histories, HistoryKey(c.receiptHash, c.sequence);
      var row := HistoryRow(k.hashReconciliation(c), c);
      if key in hs then
        if k.ValidReconciliation(hs[key].record) && k.hashReconciliation(hs[key].record) == row.hash
        then Some(db) else None
      else if |Sequences(hs, c.receiptHash)| >= MAX_RECONCILIATION_RECORDS then None
      else
        var previous := LatestRecord(hs, c.receiptHash);
        if previous.Some? && !k.ValidReconciliation(previous.value) then None
        else if VerifyReconciliation(k, receipt.value, previous, c).None? || Taken(hs, row) then None
        else Some(db.(histories := hs[key := row]))
  }

  predicate LinkHolds(k: Protocol, r: Receipt, cs: seq<Reconciliation>, i: nat)
    requires i < |cs|
  {
    k.ValidReconciliation(cs[i])
    && VerifyReconciliation(k, r, if i == 0 then None else Some(cs[i - 1]), cs[i]).Some?
  }

  /** The pairwise links of a history read back from the table. */
  predicate LinksHold(k: Protocol, r: Receipt, cs: seq<Reconciliation>) {
    forall i | 0 <= i < |cs| :: LinkHolds(k, r, cs, i)
  }

  function ReadLifecycle(k: Protocol, db: Db, hash: Digest): Option<Lifecycle> {
    var chain := LoadChainByHash(k, db, hash);
    var claim := if hash in db.claims then Some(db.claims[hash]) else None;
    if chain.None? then None
    else if hash !in db.receipts then Some(Lifecycle(claim, None, []))
    else
      var row := db.receipts[hash];
      var r, c := row.receipt, chain.value;
      var records := AllRecords(db.histories, row.receiptHash);
      if !IntactReceipt(k, row) || VerifyChain(k, c.task, c.proposal, c.decision, c.grant, r).None? then None
      else if claim.None? || claim.value.attemptId != r.attemptId || claim.value.claimedAt != r.claimedAt then None
      else if !EvidenceMatches(r, claim.value.marker) || !LinksHold(k, r, records) then None
      else Some(Lifecycle(claim, Some(r), records))
  }

  // ---- Runs ----

  datatype Op =
    | RegisterOp(task: Task, proposal: Proposal, decision: Decision, grant: Grant)
    | CurrentnessOp(snapshot: Snapshot)
    | ClaimOp(grant: Grant, request: ClaimRequest, now: u64)
    | MarkOp(hash: Digest, attemptId: Units, at: u64)
    | ReceiptOp(receipt: Receipt)
    | ReconciliationOp(record: Reconciliation)

  function Apply(k: Protocol, db: Db, op: Op): Option<Db> {
    match op
    case RegisterOp(t, p, d, g) => RegisterChain(k, db, t, p, d, g)
    case CurrentnessOp(s) => PutCurrentness(k, db, s)
    case ClaimOp(g, q, now) => Claim(k, db, g, q, now)
    case MarkOp(hash, attemptId, at) => MarkDispatchStarted(k, db, hash, attemptId, at)
    case ReceiptOp(r) => RecordReceipt(k, db, r)
    case ReconciliationOp(c) => AppendReconciliation(k, db, c)
  }

  function Step(k: Protocol, db: Db, op: Op): Db {
    var r := Apply(k, db, op);
    if r.Some? then r.value else db
  }

  function Run(k: Protocol, db: Db, ops: seq<Op>): Db
    decreases |ops|
  {
    if ops == [] then db else Run(k, Step(k, db, ops[0]), ops[1..])
  }
}
