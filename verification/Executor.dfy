/** The executor: affine tokens over a shared durable store, interleaved at
    transaction boundaries, with crashes at any point. */
module Executor {
  import opened Unicode
  import opened Json
  import opened Records
  import opened Verifier
  import opened Lawful
  import opened Sqlite
  import A = Authority

  const MAX_DOCUMENT_BYTES: nat := 1_048_576

  datatype Policy = Policy(audience: Units, role: Units, maximumAuthorityAge: u64, maximumCurrentnessAge: u64)

  datatype Documents = Documents(arguments: Bytes, expectedEffect: Bytes, preState: Bytes, resourceClaim: Bytes)

  datatype Prepared = Prepared(
    task: Task, proposal: Proposal, decision: Decision, grant: Grant, documents: Documents,
    grantHash: Digest, proposalHash: Digest)

  datatype Evidence = Evidence(
    statementId: Units, issuer: Units, keyId: Units, role: Units, audience: Units, keyDigest: Digest)

  datatype Effect = Effect(effectProfile: Units, operation: Units, target: Units, documents: Documents)

  // ---- Pure checks ----

  predicate ValidPolicy(k: Protocol, p: Policy) {
    k.text(p.audience, 512) && k.token(p.role)
    && 0 < p.maximumAuthorityAge <= A.MAX_AUTHORITY_SNAPSHOT_AGE_MS
    && 0 < p.maximumCurrentnessAge <= MAX_CURRENTNESS_AGE_MS
  }

  /** The four documents have the digests the proposal committed to. */
  predicate Bound(c: A.Crypto, p: Proposal, docs: Documents) {
    c.digest(docs.arguments) == p.argumentsDigest && c.digest(docs.expectedEffect) == p.expectedEffectDigest
    && c.digest(docs.preState) == p.preStateDigest && c.digest(docs.resourceClaim) == p.resourceClaimDigest
  }

  /** `PreparedEffect::new`. */
  function Prepare(k: Protocol, c: A.Crypto, t: Task, p: Proposal, d: Decision, g: Grant, docs: Documents)
    : Option<Prepared>
  {
    if |docs.arguments| > MAX_DOCUMENT_BYTES || |docs.expectedEffect| > MAX_DOCUMENT_BYTES
       || |docs.preState| > MAX_DOCUMENT_BYTES || |docs.resourceClaim| > MAX_DOCUMENT_BYTES then None
    else
      var hash := VerifyGrant(k, t, p, d, g);
      if hash.None? || !Bound(c, p, docs) then None
      else Some(Prepared(t, p, d, g, docs, hash.value, k.hashProposal(p)))
  }

  ghost predicate IsPrepared(k: Protocol, c: A.Crypto, e: Prepared) {
    Prepare(k, c, e.task, e.proposal, e.decision, e.grant, e.documents) == Some(e)
  }

  function CoreProfile(): Units { Ascii("effect-transaction/core/0.1") }

  function GrantContext(e: Prepared, policy: Policy, now: u64): A.Context {
    A.Context(CoreProfile(), e.grant.version, A.ExecutionGrant, e.grantHash, policy.role, policy.audience, now,
              policy.maximumAuthorityAge)
  }

  function EvidenceOf(c: A.Crypto, s: A.Statement, a: A.AuthoritySnapshot): Evidence {
    Evidence(s.statementId, s.issuer, s.keyId, s.role, s.audience, c.digest(a.publicKey))
  }

  /** Everything `authorize_and_claim` checks before its first transaction. */
  function CheckAuthorize(
    k: Protocol, c: A.Crypto, policy: Policy, e: Prepared, signed: Bytes, a: A.AuthoritySnapshot, s: Snapshot, now: u64)
    : Option<Evidence>
  {
    if !IsFresh(s, now, policy.maximumCurrentnessAge) || e.grant.audience != policy.audience then None
    else if a.configurationEpoch != e.task.configurationEpoch || s.policyEpoch != e.task.policyEpoch
            || s.configurationEpoch != e.task.configurationEpoch then None
    else
      var verified := A.VerifyAuthority(k, c, signed, a, GrantContext(e, policy, now));
      if verified.None? then None else Some(EvidenceOf(c, verified.value, a))
  }

  /** Everything `begin_dispatch` checks before its transaction. */
  predicate CheckBegin(
    k: Protocol, c: A.Crypto, policy: Policy, e: Prepared, first: Evidence, signed: Bytes,
    a: A.AuthoritySnapshot, now: u64)
  {
    a.configurationEpoch == e.task.configurationEpoch
    && var verified := A.VerifyAuthority(k, c, signed, a, GrantContext(e, policy, now));
       verified.Some? && EvidenceOf(c, verified.value, a) == first
  }

  function RequestFor(policy: Policy, s: Snapshot, attemptId: Units): ClaimRequest {
    ClaimRequest(attemptId, policy.audience, s.key, s.version, policy.maximumCurrentnessAge)
  }

  function EffectOf(e: Prepared): Effect {
    Effect(e.proposal.effectProfile, e.proposal.operation, e.proposal.target, e.documents)
  }

  // ---- What the checks amount to ----

  predicate IsCore(profile: Units) { profile == Ascii("effect-transaction/core/0.1") }

  /** The signed statement endorses, at this moment and for this policy, the
      grant of the effect and nothing else. */
  predicate Endorses(
    k: Protocol, c: A.Crypto, policy: Policy, e: Prepared, a: A.AuthoritySnapshot, now: u64, s: A.Statement)
  {
    k.token(policy.role) && k.text(policy.audience, 512) && 1 <= e.grant.version <= A.LAST_SAFE
    && k.token(s.recordProfile) && now <= A.LAST_SAFE && policy.maximumAuthorityAge <= 300_000
    && s.issuer == a.issuer && s.keyId == a.keyId
    && s.role == policy.role && policy.role in a.authorizedRoles
    && s.audience == policy.audience && policy.audience in a.authorizedAudiences
    && s.recordKind == A.ExecutionGrant && s.recordDigest == e.grantHash
    && IsCore(s.recordProfile) && s.recordVersion == e.grant.version
    && s.authorityEpoch == a.authorityEpoch && s.configurationEpoch == a.configurationEpoch
    && a.configurationEpoch == e.task.configurationEpoch
    && s.notBefore <= now < s.expiresAt && now < a.keyValidUntil
    && a.keyValidFrom <= s.issuedAt <= a.observedAt <= now && now - a.observedAt <= policy.maximumAuthorityAge
    && (a.revokedAt.Some? ==> now < a.revokedAt.value)
    && A.LawfulKey(k, c, a) && A.LawfulStatement(k, s)
  }

  /** What is remembered of a statement. */
  function Noted(c: A.Crypto, s: A.Statement, a: A.AuthoritySnapshot): Evidence {
    Evidence(statementId := s.statementId, issuer := s.issuer, keyId := s.keyId, role := s.role,
             audience := s.audience, keyDigest := c.digest(a.publicKey))
  }

  /** The checks before `authorize_and_claim` pass exactly for a fresh snapshot of
      the epochs that the task was made under, a grant for the audience of the
      policy, and an endorsement of it. */
  lemma AuthorizeExactly(
    k: Protocol, c: A.Crypto, policy: Policy, e: Prepared, signed: Bytes, a: A.AuthoritySnapshot, s: Snapshot, now: u64)
    ensures var found, r := c.open(signed, a.publicKey), CheckAuthorize(k, c, policy, e, signed, a, s, now);
            (r.Some? <==>
               s.observedAt <= now <= s.observedAt + policy.maximumCurrentnessAge
               && s.policyEpoch == e.task.policyEpoch && s.configurationEpoch == e.task.configurationEpoch
               && e.grant.audience == policy.audience
               && found.Some? && Endorses(k, c, policy, e, a, now, found.value))
            && (r.Some? ==> r.value == Noted(c, found.value, a))
  {
    hide A.VerifyAuthority, A.LawfulKey, A.LawfulStatement, Ascii;
    A.VerifyExactly(k, c, signed, a, GrantContext(e, policy, now));
  }

  /** The checks before `begin_dispatch` pass exactly for an endorsement that
      leaves the evidence of the claim. */
  lemma BeginExactly(
    k: Protocol, c: A.Crypto, policy: Policy, e: Prepared, first: Evidence, signed: Bytes,
    a: A.AuthoritySnapshot, now: u64)
    ensures var found := c.open(signed, a.publicKey);
            CheckBegin(k, c, policy, e, first, signed, a, now) <==>
              found.Some? && Endorses(k, c, policy, e, a, now, found.value) && first == Noted(c, found.value, a)
  {
    hide A.VerifyAuthority, A.LawfulKey, A.LawfulStatement, Ascii;
    A.VerifyExactly(k, c, signed, a, GrantContext(e, policy, now));
  }

  /** An effect is prepared exactly from a lawful chain and four documents of at
      most a mebibyte with the digests that the proposal commits to. */
  lemma PreparedExactly(
    k: Protocol, c: A.Crypto, t: Task, p: Proposal, d: Decision, g: Grant, docs: Documents)
    ensures var e := Prepare(k, c, t, p, d, g, docs);
            (e.Some? <==>
               IsLawful(k, Bundle(t, p, d, Some(g), None, []))
               && |docs.arguments| <= 1_048_576 && c.digest(docs.arguments) == p.argumentsDigest
               && |docs.expectedEffect| <= 1_048_576 && c.digest(docs.expectedEffect) == p.expectedEffectDigest
               && |docs.preState| <= 1_048_576 && c.digest(docs.preState) == p.preStateDigest
               && |docs.resourceClaim| <= 1_048_576 && c.digest(docs.resourceClaim) == p.resourceClaimDigest)
            && (e.Some? ==> e.value == Prepared(t, p, d, g, docs, k.hashGrant(g), k.hashProposal(p)))
  {
    hide VerifyGrant, LawfulTask, LawfulProposal, LawfulDecision, LawfulGrant;
    GrantExactly(k, t, p, d, g);
  }

  // ---- The world ----

  /** One executor call in progress, or a value it handed out. Each is owned
      once: a step that uses a token removes it, whether it succeeds or fails. */
  datatype Token =
    | Registered(e: Prepared, policy: Policy, evidence: Evidence, signed: Bytes,
                 snapshot: Snapshot, attemptId: Units, now: u64)
    | Refreshed(e: Prepared, policy: Policy, evidence: Evidence, signed: Bytes,
                snapshot: Snapshot, attemptId: Units, now: u64)
    | ClaimedEffect(e: Prepared, row: ClaimRow, evidence: Evidence, signed: Bytes)
    | Capability(e: Prepared, row: ClaimRow, dispatchedAt: u64)
    | Handle(proposalHash: Digest, grantHash: Digest, row: ClaimRow, dispatchedAt: u64)
    | Recovering(receipt: Receipt)

  datatype Invocation = Invocation(
    proposalHash: Digest, grantHash: Digest, attemptId: Units, dispatchedAt: u64, effect: Effect)

  datatype World = World(db: Db, live: map<nat, Token>, invocations: seq<Invocation>)

  function Start(): World { World(EmptyDb(), map[], []) }

  datatype DispatchedOutcome = DidSucceed | DidFail | IsUnknown

  datatype Recovery = Recovery(
    receiptId: Units, proposalHash: Digest, grantHash: Digest, attemptId: Units, completedAt: u64, observation: Digest)

  datatype Event =
    | Observe(policy: Policy, snapshot: Snapshot, now: u64)
    | Authorize(id: nat, policy: Policy, e: Prepared, signed: Bytes, authority: A.AuthoritySnapshot,
                snapshot: Snapshot, attemptId: Units, now: u64)
    | Refresh(id: nat)
    | TakeClaim(id: nat)
    | Begin(id: nat, policy: Policy, authority: A.AuthoritySnapshot, now: u64)
    | Dispatch(id: nat)
    | RecordNotDispatched(id: nat, receiptId: Units, completedAt: u64, observation: Digest)
    | RecordDispatched(id: nat, receiptId: Units, completedAt: u64, outcome: DispatchedOutcome, observation: Digest)
    | RecoverUnknown(id: nat, recovery: Recovery)
    | RecoverNotDispatched(id: nat, recovery: Recovery)
    | FinishRecovery(id: nat)
    | Reconcile(record: Reconciliation)
    | Crash(lost: set<nat>)

  function ReceiptOutcomeOf(o: DispatchedOutcome): ReceiptOutcome {
    match o case DidSucceed => Succeeded case DidFail => Failed case IsUnknown => Unknown
  }

  function NotDispatchedReceipt(
    e: Prepared, row: ClaimRow, receiptId: Units, completedAt: u64, observation: Digest): Receipt
  {
    Receipt(1, receiptId, e.proposalHash, e.grantHash, row.attemptId, row.claimedAt, None,
            completedAt, NotDispatched, observation)
  }

  function DispatchedReceipt(
    t: Token, receiptId: Units, completedAt: u64, outcome: DispatchedOutcome, observation: Digest): Receipt
    requires t.Handle?
  {
    Receipt(1, receiptId, t.proposalHash, t.grantHash, t.row.attemptId, t.row.claimedAt, Some(t.dispatchedAt),
            completedAt, ReceiptOutcomeOf(outcome), observation)
  }

  /** The receipt that recovery will record, from the lifecycle it has read. */
  function RecoveredReceipt(k: Protocol, db: Db, r: Recovery, dispatched: bool): Option<Receipt> {
    var lifecycle := ReadLifecycle(k, db, r.grantHash);
    if lifecycle.None? || lifecycle.value.claim.None? then None
    else
      var claim := lifecycle.value.claim.value;
      if claim.attemptId != r.attemptId || claim.marker.Some? != dispatched then None
      else Some(Receipt(1, r.receiptId, r.proposalHash, r.grantHash, r.attemptId, claim.claimedAt, claim.marker,
                        r.completedAt, if dispatched then Unknown else NotDispatched, r.observation))
  }

  function Without(live: map<nat, Token>, id: nat): map<nat, Token> { live - {id} }

  /** Puts the outcome of a committed transaction in place of the token that ran it. */
  function Settle(w: World, id: nat, db: Option<Db>, next: Option<Token>): World {
    if db.None? then w.(live := Without(w.live, id))
    else if next.None? then w.(db := db.value, live := Without(w.live, id))
    else w.(db := db.value, live := w.live[id := next.value])
  }

  ghost function Next(k: Protocol, c: A.Crypto, w: World, event: Event): World {
    match event
    case Observe(policy, s, now) =>
      if IsFresh(s, now, policy.maximumCurrentnessAge) then w.(db := Step(k, w.db, CurrentnessOp(s))) else w
    case Authorize(id, policy, e, signed, a, s, attemptId, now) =>
      var evidence := CheckAuthorize(k, c, policy, e, signed, a, s, now);
      var registered := RegisterChain(k, w.db, e.task, e.proposal, e.decision, e.grant);
      if id in w.live || !IsPrepared(k, c, e) || evidence.None? || registered.None? then w
      else Settle(w, id, registered, Some(Registered(e, policy, evidence.value, signed, s, attemptId, now)))
    case Refresh(id) =>
      if id !in w.live || !w.live[id].Registered? then w
      else
        var t := w.live[id];
        Settle(w, id, PutCurrentness(k, w.db, t.snapshot),
               Some(Refreshed(t.e, t.policy, t.evidence, t.signed, t.snapshot, t.attemptId, t.now)))
    case TakeClaim(id) =>
      if id !in w.live || !w.live[id].Refreshed? then w
      else
        var t := w.live[id];
        var q := RequestFor(t.policy, t.snapshot, t.attemptId);
        Settle(w, id, Claim(k, w.db, t.e.grant, q, t.now),
               Some(ClaimedEffect(t.e, RowOf(q, t.now), t.evidence, t.signed)))
    case Begin(id, policy, a, now) =>
      if id !in w.live || !w.live[id].ClaimedEffect? then w
      else
        var t := w.live[id];
        if !CheckBegin(k, c, policy, t.e, t.evidence, t.signed, a, now) then w.(live := Without(w.live, id))
        else
          Settle(w, id, MarkDispatchStarted(k, w.db, t.e.grantHash, t.row.attemptId, now),
                 Some(Capability(t.e, t.row, now)))
    case Dispatch(id) =>
      if id !in w.live || !w.live[id].Capability? then w
      else
        var t := w.live[id];
        w.(live := w.live[id := Handle(t.e.proposalHash, t.e.grantHash, t.row, t.dispatchedAt)],
           invocations := w.invocations
             + [Invocation(t.e.proposalHash, t.e.grantHash, t.row.attemptId, t.dispatchedAt, EffectOf(t.e))])
    case RecordNotDispatched(id, receiptId, completedAt, observation) =>
      if id !in w.live || !w.live[id].ClaimedEffect? then w
      else
        var r := NotDispatchedReceipt(w.live[id].e, w.live[id].row, receiptId, completedAt, observation);
        Settle(w, id, RecordReceipt(k, w.db, r), None)
    case RecordDispatched(id, receiptId, completedAt, outcome, observation) =>
      if id !in w.live || !w.live[id].Handle? then w
      else
        var r := DispatchedReceipt(w.live[id], receiptId, completedAt, outcome, observation);
        Settle(w, id, RecordReceipt(k, w.db, r), None)
    case RecoverUnknown(id, recovery) => StartRecovery(k, w, id, recovery, true)
    case RecoverNotDispatched(id, recovery) => StartRecovery(k, w, id, recovery, false)
    case FinishRecovery(id) =>
      if id !in w.live || !w.live[id].Recovering? then w
      else Settle(w, id, RecordReceipt(k, w.db, w.live[id].receipt), None)
    case Reconcile(record) => w.(db := Step(k, w.db, ReconciliationOp(record)))
    case Crash(lost) => w.(live := w.live - lost)
  }

  function StartRecovery(k: Protocol, w: World, id: nat, recovery: Recovery, dispatched: bool): World {
    var r := RecoveredReceipt(k, w.db, recovery, dispatched);
    if id in w.live || r.None? then w else w.(live := w.live[id := Recovering(r.value)])
  }

  ghost function RunEvents(k: Protocol, c: A.Crypto, w: World, events: seq<Event>): World
    decreases |events|
  {
    if events == [] then w else RunEvents(k, c, Next(k, c, w, events[0]), events[1..])
  }
}
