/** The six protocol records and the rules each obeys on its own. */
module Records {
  import opened Unicode
  import opened Json

  type u64 = n: nat | n <= U64_MAX
  const U64_MAX: nat := 0xFFFF_FFFF_FFFF_FFFF

  const PROFILE_VERSION: u64 := 1
  const MAX_GRANT_LIFETIME_MS: u64 := 300_000
  const MAX_RECONCILIATION_RECORDS: nat := 10_000

  function Pow16(w: nat): (r: nat)
    ensures r >= 1 && (w > 0 ==> r >= 16)
  {
    if w == 0 then 1 else 16 * Pow16(w - 1)
  }

  /** A SHA-256 value, 64 hexadecimal digits long; zero has no accepted text form. */
  type Digest = d: nat | 0 < d < Pow16(64) witness 1

  datatype DecisionOutcome = Allow | Deny | Review
  datatype ReceiptOutcome = NotDispatched | Succeeded | Failed | Unknown
  datatype ReconciliationOutcome = EffectConfirmed | NoEffectConfirmed | PartialEffect | StillUnknown | Compensated

  datatype Task = Task(
    version: u64, commitmentId: Units, principal: Units,
    objectiveDigest: Digest, constraintsDigest: Digest, authorityScopeDigest: Digest,
    policyEpoch: u64, configurationEpoch: u64, createdAt: u64, expiresAt: u64)

  datatype Proposal = Proposal(
    version: u64, proposalId: Units, commitmentHash: Digest,
    effectProfile: Units, operation: Units, target: Units,
    argumentsDigest: Digest, expectedEffectDigest: Digest, preStateDigest: Digest, resourceClaimDigest: Digest,
    createdAt: u64, expiresAt: u64)

  datatype Decision = Decision(
    version: u64, decisionId: Units, proposalHash: Digest, evidenceHashes: seq<Digest>,
    outcome: DecisionOutcome, reasonCodes: seq<Units>, decidedAt: u64, expiresAt: u64)

  datatype Grant = Grant(
    version: u64, grantId: Units, proposalHash: Digest, decisionHash: Digest, audience: Units,
    notBefore: u64, expiresAt: u64, uses: u64, nonce: Units)

  datatype Receipt = Receipt(
    version: u64, receiptId: Units, proposalHash: Digest, grantHash: Digest, attemptId: Units,
    claimedAt: u64, dispatchedAt: Option<u64>, completedAt: u64,
    outcome: ReceiptOutcome, observationDigest: Digest)

  datatype Reconciliation = Reconciliation(
    version: u64, reconciliationId: Units, receiptHash: Digest, sequence: u64,
    parentHash: Option<Digest>, observedAt: u64, outcome: ReconciliationOutcome, evidenceDigest: Digest)

  datatype Bundle = Bundle(
    task: Task, proposal: Proposal, decision: Decision,
    grant: Option<Grant>, receipt: Option<Receipt>, reconciliations: seq<Reconciliation>)

  predicate IsTerminal(o: ReconciliationOutcome) {
    o.EffectConfirmed? || o.NoEffectConfirmed? || o.Compensated?
  }

  predicate SafeTime(n: u64) { n <= MAX_SAFE_INTEGER }

  predicate IsWindow(start: u64, end: u64) { SafeTime(start) && SafeTime(end) && start < end }

  predicate SortedDigests(ds: seq<Digest>) { forall i | 0 < i < |ds| :: ds[i - 1] < ds[i] }

  predicate SortedTokens(ts: seq<Units>) { forall i | 0 < i < |ts| :: KeyLess(ByByte, ts[i - 1], ts[i]) }

  /** The protocol's parameters. The record hashes and the field-level text rules
      are arbitrary functions; everything proved holds for all of them. */
  datatype Protocol = Protocol(
    hashTask: Task -> Digest, hashProposal: Proposal -> Digest, hashDecision: Decision -> Digest,
    hashGrant: Grant -> Digest, hashReceipt: Receipt -> Digest, hashReconciliation: Reconciliation -> Digest,
    text: (Units, nat) -> bool, token: Units -> bool, nonce: Units -> bool)
  {
    predicate Identifier(s: Units) { text(s, 256) }

    predicate ValidTask(t: Task) {
      t.version == PROFILE_VERSION && Identifier(t.commitmentId) && text(t.principal, 512)
      && SafeTime(t.policyEpoch) && SafeTime(t.configurationEpoch) && IsWindow(t.createdAt, t.expiresAt)
    }

    predicate ValidProposal(p: Proposal) {
      p.version == PROFILE_VERSION && Identifier(p.proposalId) && text(p.effectProfile, 256)
      && token(p.operation) && text(p.target, 4096) && IsWindow(p.createdAt, p.expiresAt)
    }

    predicate ValidDecision(d: Decision) {
      d.version == PROFILE_VERSION && Identifier(d.decisionId)
      && |d.evidenceHashes| <= 256 && SortedDigests(d.evidenceHashes)
      && 0 < |d.reasonCodes| <= 64 && (forall i | 0 <= i < |d.reasonCodes| :: token(d.reasonCodes[i]))
      && SortedTokens(d.reasonCodes) && IsWindow(d.decidedAt, d.expiresAt)
      && (d.outcome.Allow? ==> d.evidenceHashes != [])
    }

    predicate ValidGrant(g: Grant) {
      g.version == PROFILE_VERSION && Identifier(g.grantId) && text(g.audience, 512) && nonce(g.nonce)
      && g.uses == 1 && IsWindow(g.notBefore, g.expiresAt)
      && g.expiresAt - g.notBefore <= MAX_GRANT_LIFETIME_MS
    }

    predicate ValidReceipt(r: Receipt) {
      r.version == PROFILE_VERSION && Identifier(r.receiptId) && Identifier(r.attemptId)
      && SafeTime(r.claimedAt) && SafeTime(r.completedAt) && r.claimedAt <= r.completedAt
      && (r.dispatchedAt.Some? ==>
            SafeTime(r.dispatchedAt.value) && r.claimedAt <= r.dispatchedAt.value <= r.completedAt)
      && (r.outcome.NotDispatched? ==> r.dispatchedAt.None?)
      && (r.outcome.Succeeded? || r.outcome.Failed? ==> r.dispatchedAt.Some?)
    }

    predicate ValidReconciliation(c: Reconciliation) {
      c.version == PROFILE_VERSION && Identifier(c.reconciliationId) && SafeTime(c.observedAt)
      && 1 <= c.sequence <= MAX_SAFE_INTEGER && (c.sequence == 1 <==> c.parentHash.None?)
    }
  }
}
