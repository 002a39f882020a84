/** The in-memory grant store: the simple machine that defines the lifecycle. */
module MemoryStore {
  import opened Unicode
  import opened Json
  import opened Records
  import opened Verifier

  datatype GrantClaim = GrantClaim(grantId: Units, grantHash: Digest, attemptId: Units, claimedAt: u64)

  datatype Request = Request(
    attemptId: Units, audience: Units, policyEpoch: u64, configurationEpoch: u64,
    preStateDigest: Digest, resourceClaimDigest: Digest, revoked: bool)

  datatype Stored = Stored(
    hash: Digest, task: Task, proposal: Proposal, decision: Decision, grant: Grant,
    claim: Option<GrantClaim>, receipt: Option<Receipt>, reconciliations: seq<Reconciliation>)

  datatype MemState = MemState(
    grants: map<Units, Stored>, byHash: map<Digest, Units>, byProposal: map<Digest, Units>,
    byDecision: map<Digest, Units>, byReceipt: map<Digest, Units>, lastTime: Option<u64>)

  function Empty(): MemState { MemState(map[], map[], map[], map[], map[], None) }

  datatype Call =
    | RegisterCall(task: Task, proposal: Proposal, decision: Decision, grant: Grant)
    | ClaimCall(grant: Grant, request: Request, now: Option<u64>)
    | ReceiptCall(receipt: Receipt)
    | ReconciliationCall(record: Reconciliation)

  // ---- What each operation does ----

  predicate ValidRequest(k: Protocol, q: Request) {
    k.Identifier(q.attemptId) && k.text(q.audience, 512) && SafeTime(q.policyEpoch) && SafeTime(q.configurationEpoch)
  }

  function Register(k: Protocol, s: MemState, t: Task, p: Proposal, d: Decision, g: Grant): (MemState, Option<Digest>) {
    var verified := VerifyGrant(k, t, p, d, g);
    if verified.None? then (s, None)
    else if g.grantId in s.grants || k.hashDecision(d) in s.byDecision || k.hashProposal(p) in s.byProposal
      then (s, None)
    else (
      s.(grants := s.grants[g.grantId := Stored(verified.value, t, p, d, g, None, None, [])],
         byHash := s.byHash[verified.value := g.grantId],
         byDecision := s.byDecision[k.hashDecision(d) := g.grantId],
         byProposal := s.byProposal[k.hashProposal(p) := g.grantId]),
      verified)
  }

  /** Everything a claim checks about the stored grant. */
  predicate MayClaim(k: Protocol, m: Stored, supplied: Grant, q: Request, now: u64) {
    m.hash == k.hashGrant(supplied)
    && VerifyGrant(k, m.task, m.proposal, m.decision, m.grant) == Some(m.hash)
    && q.audience == m.grant.audience
    && q.policyEpoch == m.task.policyEpoch && q.configurationEpoch == m.task.configurationEpoch
    && q.preStateDigest == m.proposal.preStateDigest && q.resourceClaimDigest == m.proposal.resourceClaimDigest
    && !q.revoked
    && m.grant.notBefore <= now < m.grant.expiresAt
    && m.claim.None?
  }

  /** A claim reaches the clock fence only with a valid request, clock and grant. */
  predicate ReachesFence(k: Protocol, s: MemState, g: Grant, q: Request, now: Option<u64>) {
    ValidRequest(k, q) && now.Some? && SafeTime(now.value) && k.ValidGrant(g)
    && (s.lastTime.Some? ==> s.lastTime.value <= now.value)
  }

  function Claim(k: Protocol, s: MemState, g: Grant, q: Request, now: Option<u64>): (MemState, Option<GrantClaim>) {
    if !ReachesFence(k, s, g, q, now) then (s, None)
    else
      var fenced := s.(lastTime := now);
      if g.grantId !in s.grants || !MayClaim(k, s.grants[g.grantId], g, q, now.value) then (fenced, None)
      else
        var m := s.grants[g.grantId];
        var claim := GrantClaim(g.grantId, m.hash, q.attemptId, now.value);
        (fenced.(grants := s.grants[g.grantId := m.(claim := Some(claim))]), Some(claim))
  }

  function CommitReceipt(k: Protocol, r: Receipt): Option<Digest> {
    if k.ValidReceipt(r) then Some(k.hashReceipt(r)) else None
  }

  function CommitReconciliation(k: Protocol, c: Reconciliation): Option<Digest> {
    if k.ValidReconciliation(c) then Some(k.hashReconciliation(c)) else None
  }

  /** The hash of a receipt for the winning attempt of a stored grant. */
  function VerifyWinner(k: Protocol, m: Stored, r: Receipt): Option<Digest> {
    if m.claim.None? || r.attemptId != m.claim.value.attemptId || r.claimedAt != m.claim.value.claimedAt then None
    else VerifyChain(k, m.task, m.proposal, m.decision, m.grant, r)
  }

  function RecordReceipt(k: Protocol, s: MemState, r: Receipt): (MemState, Option<Digest>) {
    if !k.ValidReceipt(r) || r.grantHash !in s.byHash || s.byHash[r.grantHash] !in s.grants then (s, None)
    else
      var id := s.byHash[r.grantHash];
      var m := s.grants[id];
      var verified := VerifyWinner(k, m, r);
      if verified.None? then (s, None)
      else if m.receipt.Some? then (s, if CommitReceipt(k, m.receipt.value) == verified then verified else None)
      else
        (s.(grants := s.grants[id := m.(receipt := Some(r))], byReceipt := s.byReceipt[verified.value := id]), verified)
  }

  function AppendReconciliation(k: Protocol, s: MemState, c: Reconciliation): (MemState, Option<Digest>) {
    if !k.ValidReconciliation(c) || c.receiptHash !in s.byReceipt || s.byReceipt[c.receiptHash] !in s.grants
      then (s, None)
    else
      var id := s.byReceipt[c.receiptHash];
      var m := s.grants[id];
      if m.receipt.None? then (s, None)
      else if c.sequence <= |m.reconciliations| then
        var existing := CommitReconciliation(k, m.reconciliations[c.sequence - 1]);
        (s, if existing == CommitReconciliation(k, c) then existing else None)
      else if |m.reconciliations| >= MAX_RECONCILIATION_RECORDS then (s, None)
      else if exists i :: 0 <= i < |m.reconciliations| && m.reconciliations[i].reconciliationId == c.reconciliationId
        then (s, None)
      else
        var verified := VerifyReconciliation(k, m.receipt.value, LastOf(m.reconciliations), c);
        if verified.None? then (s, None)
        else (s.(grants := s.grants[id := m.(reconciliations := m.reconciliations + [c])]), verified)
  }

  function After(k: Protocol, s: MemState, call: Call): MemState {
    match call
    case RegisterCall(t, p, d, g) => Register(k, s, t, p, d, g).0
    case ClaimCall(g, q, now) => Claim(k, s, g, q, now).0
    case ReceiptCall(r) => RecordReceipt(k, s, r).0
    case ReconciliationCall(c) => AppendReconciliation(k, s, c).0
  }

  predicate Succeeds(k: Protocol, s: MemState, call: Call) {
    match call
    case RegisterCall(t, p, d, g) => Register(k, s, t, p, d, g).1.Some?
    case ClaimCall(g, q, now) => Claim(k, s, g, q, now).1.Some?
    case ReceiptCall(r) => RecordReceipt(k, s, r).1.Some?
    case ReconciliationCall(c) => AppendReconciliation(k, s, c).1.Some?
  }

  function Run(k: Protocol, s: MemState, calls: seq<Call>): MemState
    decreases |calls|
  {
    if calls == [] then s else Run(k, After(k, s, calls[0]), calls[1..])
  }

  // ---- The store object ----

  class MemoryGrantStore {
    const k: Protocol
    var grants: map<Units, Stored>
    var byHash: map<Digest, Units>
    var byProposal: map<Digest, Units>
    var byDecision: map<Digest, Units>
    var byReceipt: map<Digest, Units>
    var lastTime: Option<u64>

    constructor (k: Protocol)
      ensures this.k == k && Contents() == Empty()
    {
      this.k := k;
      grants, byHash, byProposal, byDecision, byReceipt := map[], map[], map[], map[], map[];
      lastTime := None;
    }

    ghost function Contents(): MemState
      reads this
    {
      MemState(grants, byHash, byProposal, byDecision, byReceipt, lastTime)
    }

    method RegisterGrant(t: Task, p: Proposal, d: Decision, g: Grant) returns (r: Option<Digest>)
      modifies this
      ensures (Contents(), r) == Register(k, old(Contents()), t, p, d, g)
    {
      r := VerifyGrant(k, t, p, d, g);
      if r.None? {
        return None;
      }
      var proposalHash, decisionHash := k.hashProposal(p), k.hashDecision(d);
      if g.grantId in grants || decisionHash in byDecision || proposalHash in byProposal {
        return None;
      }
      grants := grants[g.grantId := Stored(r.value, t, p, d, g, None, None, [])];
      byHash := byHash[r.value := g.grantId];
      byDecision := byDecision[decisionHash := g.grantId];
      byProposal := byProposal[proposalHash := g.grantId];
    }

    method ClaimGrant(g: Grant, q: Request, now: Option<u64>) returns (r: Option<GrantClaim>)
      modifies this
      ensures (Contents(), r) == Claim(k, old(Contents()), g, q, now)
    {
      if !ValidRequest(k, q) || now.None? || !SafeTime(now.value) || !k.ValidGrant(g) {
        return None;
      }
      var suppliedHash := k.hashGrant(g);
      if lastTime.Some? && now.value < lastTime.value {
        return None;
      }
      lastTime := now;
      if g.grantId !in grants {
        return None;
      }
      var m := grants[g.grantId];
      if m.hash != suppliedHash || VerifyGrant(k, m.task, m.proposal, m.decision, m.grant) != Some(m.hash) {
        return None;
      }
      if q.audience != m.grant.audience || q.policyEpoch != m.task.policyEpoch
         || q.configurationEpoch != m.task.configurationEpoch
         || q.preStateDigest != m.proposal.preStateDigest
         || q.resourceClaimDigest != m.proposal.resourceClaimDigest || q.revoked {
        return None;
      }
      if now.value < m.grant.notBefore || now.value >= m.grant.expiresAt || m.claim.Some? {
        return None;
      }
      r := Some(GrantClaim(g.grantId, m.hash, q.attemptId, now.value));
      grants := grants[g.grantId := m.(claim := r)];
    }

    method Record(receipt: Receipt) returns (r: Option<Digest>)
      modifies this
      ensures (Contents(), r) == RecordReceipt(k, old(Contents()), receipt)
    {
      if !k.ValidReceipt(receipt) || receipt.grantHash !in byHash || byHash[receipt.grantHash] !in grants {
        return None;
      }
      var id := byHash[receipt.grantHash];
      var m := grants[id];
      if m.claim.None? || receipt.attemptId != m.claim.value.attemptId
         || receipt.claimedAt != m.claim.value.claimedAt {
        return None;
      }
      r := VerifyChain(k, m.task, m.proposal, m.decision, m.grant, receipt);
      if r.None? {
        return None;
      }
      if m.receipt.Some? {
        var existing := CommitReceipt(k, m.receipt.value);
        return if existing == r then r else None;
      }
      grants := grants[id := m.(receipt := Some(receipt))];
      byReceipt := byReceipt[r.value := id];
    }

    method Append(c: Reconciliation) returns (r: Option<Digest>)
      modifies this
      ensures (Contents(), r) == AppendReconciliation(k, old(Contents()), c)
    {
      if !k.ValidReconciliation(c) || c.receiptHash !in byReceipt || byReceipt[c.receiptHash] !in grants {
        return None;
      }
      var id := byReceipt[c.receiptHash];
      var m := grants[id];
      if m.receipt.None? {
        return None;
      }
      if c.sequence <= |m.reconciliations| {
        var existing := CommitReconciliation(k, m.reconciliations[c.sequence - 1]);
        return if existing == CommitReconciliation(k, c) then existing else None;
      }
      if |m.reconciliations| >= MAX_RECONCILIATION_RECORDS {
        return None;
      }
      if exists i :: 0 <= i < |m.reconciliations| && m.reconciliations[i].reconciliationId == c.reconciliationId {
        return None;
      }
      r := VerifyReconciliation(k, m.receipt.value, LastOf(m.reconciliations), c);
      if r.None? {
        return None;
      }
      grants := grants[id := m.(reconciliations := m.reconciliations + [c])];
    }
  }

  // ---- What every reachable state keeps ----

  function BundleOf(m: Stored): Bundle {
    Bundle(m.task, m.proposal, m.decision, Some(m.grant), m.receipt, m.reconciliations)
  }

  ghost predicate StoredOk(k: Protocol, s: MemState, id: Units)
    requires id in s.grants
  {
    var m := s.grants[id];
    m.grant.grantId == id && m.hash == k.hashGrant(m.grant)
    && m.hash in s.byHash
    && k.hashProposal(m.proposal) in s.byProposal && s.byProposal[k.hashProposal(m.proposal)] == id
    && k.hashDecision(m.decision) in s.byDecision && s.byDecision[k.hashDecision(m.decision)] == id
    && Accepts(k, BundleOf(m))
    && (m.receipt.Some? ==> VerifyWinner(k, m, m.receipt.value).Some? && k.hashReceipt(m.receipt.value) in s.byReceipt)
    && (m.claim.Some? ==> ClaimOk(k, s, m))
  }

  /** A claim names its grant and lies in its window, behind the fence. */
  predicate ClaimOk(k: Protocol, s: MemState, m: Stored)
    requires m.claim.Some?
  {
    var c := m.claim.value;
    c.grantId == m.grant.grantId && c.grantHash == m.hash && k.Identifier(c.attemptId)
    && m.grant.notBefore <= c.claimedAt < m.grant.expiresAt
    && s.lastTime.Some? && c.claimedAt <= s.lastTime.value
  }

  ghost predicate IndexesOk(k: Protocol, s: MemState) {
    (forall h | h in s.byHash :: s.byHash[h] in s.grants && s.grants[s.byHash[h]].hash == h)
    && (forall h | h in s.byProposal :: s.byProposal[h] in s.grants
          && k.hashProposal(s.grants[s.byProposal[h]].proposal) == h)
    && (forall h | h in s.byDecision :: s.byDecision[h] in s.grants
          && k.hashDecision(s.grants[s.byDecision[h]].decision) == h)
    && (forall h | h in s.byReceipt :: s.byReceipt[h] in s.grants && s.grants[s.byReceipt[h]].receipt.Some?
          && k.hashReceipt(s.grants[s.byReceipt[h]].receipt.value) == h)
  }

  ghost predicate Inv(k: Protocol, s: MemState) {
    IndexesOk(k, s) && forall id | id in s.grants :: StoredOk(k, s, id)
  }

  // ---- Every step keeps the invariant ----

  /** `u` has every grant of `s`, with at least what `s` recorded about it. */
  ghost predicate Extends(s: MemState, u: MemState) {
    (forall id | id in s.grants :: id in u.grants && Grows(s.grants[id], u.grants[id]))
    && (s.lastTime.Some? ==> u.lastTime.Some? && s.lastTime.value <= u.lastTime.value)
  }

  predicate Grows(m: Stored, n: Stored) {
    n.hash == m.hash && n.task == m.task && n.proposal == m.proposal && n.decision == m.decision && n.grant == m.grant
    && (m.claim.Some? ==> n.claim == m.claim) && (m.receipt.Some? ==> n.receipt == m.receipt)
    && m.reconciliations <= n.reconciliations
  }

  lemma IndexesFrame(k: Protocol, s: MemState, u: MemState)
    requires IndexesOk(k, s) && Extends(s, u)
    requires u.byHash == s.byHash && u.byProposal == s.byProposal && u.byDecision == s.byDecision
    requires u.byReceipt == s.byReceipt
    ensures IndexesOk(k, u)
  {
  }

  /** A step that leaves a grant's entry alone and only adds index entries keeps it valid. */
  lemma StoredFrame(k: Protocol, s: MemState, u: MemState, id: Units)
    requires id in s.grants && StoredOk(k, s, id) && id in u.grants && u.grants[id] == s.grants[id]
    requires s.byHash.Keys <= u.byHash.Keys && s.byReceipt.Keys <= u.byReceipt.Keys
    requires forall h | h in s.byProposal :: h in u.byProposal && u.byProposal[h] == s.byProposal[h]
    requires forall h | h in s.byDecision :: h in u.byDecision && u.byDecision[h] == s.byDecision[h]
    requires s.lastTime.Some? ==> u.lastTime.Some? && s.lastTime.value <= u.lastTime.value
    ensures StoredOk(k, u, id)
  {
    hide Accepts, VerifyWinner;
  }

  lemma RegisterKeeps(k: Protocol, s: MemState, t: Task, p: Proposal, d: Decision, g: Grant)
    requires Inv(k, s)
    ensures Inv(k, Register(k, s, t, p, d, g).0)
  {
    hide StoredOk, IndexesOk;
    var u := Register(k, s, t, p, d, g).0;
    RegisterIndexes(k, s, t, p, d, g);
    forall id | id in u.grants ensures StoredOk(k, u, id) {
      if id in s.grants {
        assert StoredOk(k, s, id);
        StoredFrame(k, s, u, id);
      } else {
        RegisteredOk(k, s, t, p, d, g);
      }
    }
  }

  lemma RegisterIndexes(k: Protocol, s: MemState, t: Task, p: Proposal, d: Decision, g: Grant)
    requires IndexesOk(k, s)
    ensures IndexesOk(k, Register(k, s, t, p, d, g).0)
  {
    hide VerifyGrant;
  }

  lemma RegisteredOk(k: Protocol, s: MemState, t: Task, p: Proposal, d: Decision, g: Grant)
    requires Register(k, s, t, p, d, g).1.Some?
    ensures g.grantId in Register(k, s, t, p, d, g).0.grants && StoredOk(k, Register(k, s, t, p, d, g).0, g.grantId)
  {
  }

  lemma ClaimKeeps(k: Protocol, s: MemState, g: Grant, q: Request, now: Option<u64>)
    requires Inv(k, s)
    ensures Inv(k, Claim(k, s, g, q, now).0)
  {
    hide StoredOk, MayClaim, IndexesOk, ReachesFence;
    var u := Claim(k, s, g, q, now).0;
    ClaimIndexes(k, s, g, q, now);
    ClaimAdvances(k, s, g, q, now);
    forall id | id in u.grants ensures StoredOk(k, u, id) {
      assert StoredOk(k, s, id);
      if u.grants[id] == s.grants[id] {
        StoredFrame(k, s, u, id);
      } else {
        ClaimedOk(k, s, g, q, now);
      }
    }
  }

  lemma ClaimIndexes(k: Protocol, s: MemState, g: Grant, q: Request, now: Option<u64>)
    requires IndexesOk(k, s)
    ensures IndexesOk(k, Claim(k, s, g, q, now).0)
  {
    hide IndexesOk, Extends, MayClaim, ReachesFence;
    ClaimExtends(k, s, g, q, now);
    IndexesFrame(k, s, Claim(k, s, g, q, now).0);
  }

  lemma ClaimAdvances(k: Protocol, s: MemState, g: Grant, q: Request, now: Option<u64>)
    ensures var u := Claim(k, s, g, q, now).0;
            s.lastTime.Some? ==> u.lastTime.Some? && s.lastTime.value <= u.lastTime.value
  {
    hide MayClaim;
  }

  lemma ClaimedOk(k: Protocol, s: MemState, g: Grant, q: Request, now: Option<u64>)
    requires g.grantId in s.grants && StoredOk(k, s, g.grantId) && Claim(k, s, g, q, now).1.Some?
    ensures StoredOk(k, Claim(k, s, g, q, now).0, g.grantId)
  {
    hide VerifyGrant, IsHistory, VerifyChain;
  }

  lemma ReceiptKeeps(k: Protocol, s: MemState, r: Receipt)
    requires Inv(k, s)
    ensures Inv(k, RecordReceipt(k, s, r).0)
  {
    hide StoredOk, VerifyWinner, IndexesOk;
    var u := RecordReceipt(k, s, r).0;
    if u != s {
      ReceivedOk(k, s, r);
      ReceiptIndexes(k, s, r);
      var changed := s.byHash[r.grantHash];
      forall id | id in u.grants ensures StoredOk(k, u, id) {
        assert StoredOk(k, s, id);
        if id != changed { StoredFrame(k, s, u, id); }
      }
    }
  }

  lemma ReceiptIndexes(k: Protocol, s: MemState, r: Receipt)
    requires IndexesOk(k, s)
    ensures IndexesOk(k, RecordReceipt(k, s, r).0)
  {
    hide VerifyDecision, VerifyGrant;
  }

  lemma ReceivedOk(k: Protocol, s: MemState, r: Receipt)
    requires Inv(k, s) && RecordReceipt(k, s, r).0 != s
    ensures StoredOk(k, RecordReceipt(k, s, r).0, s.byHash[r.grantHash])
  {
    hide VerifyChain, VerifyWinner, Accepts, IndexesOk;
    var u, id := RecordReceipt(k, s, r).0, s.byHash[r.grantHash];
    assert StoredOk(k, s, id);
    ReceivedAccepted(k, s.grants[id], r);
    StillClaimed(s.grants[id], r);
  }

  lemma StillClaimed(m: Stored, r: Receipt)
    ensures BundleOf(m.(receipt := Some(r))) == BundleOf(m).(receipt := Some(r))
  {
  }

  lemma ReceivedAccepted(k: Protocol, m: Stored, r: Receipt)
    requires Accepts(k, BundleOf(m)) && m.receipt.None? && VerifyWinner(k, m, r).Some?
    ensures Accepts(k, BundleOf(m.(receipt := Some(r)))) && m.claim.Some?
    ensures VerifyWinner(k, m, r) == VerifyWinner(k, m.(receipt := Some(r)), r) == Some(k.hashReceipt(r))
  {
    hide VerifyDecision, VerifyGrant;
  }

  lemma AppendKeeps(k: Protocol, s: MemState, c: Reconciliation)
    requires Inv(k, s)
    ensures Inv(k, AppendReconciliation(k, s, c).0)
  {
    hide StoredOk, VerifyReconciliation, IndexesOk, Extends;
    var u := AppendReconciliation(k, s, c).0;
    if u != s {
      AppendedOk(k, s, c);
      AppendExtends(k, s, c);
      IndexesFrame(k, s, u);
      var changed := s.byReceipt[c.receiptHash];
      forall id | id in u.grants ensures StoredOk(k, u, id) {
        assert StoredOk(k, s, id);
        if id != changed { StoredFrame(k, s, u, id); }
      }
    }
  }

  lemma AppendedOk(k: Protocol, s: MemState, c: Reconciliation)
    requires Inv(k, s) && AppendReconciliation(k, s, c).0 != s
    ensures StoredOk(k, AppendReconciliation(k, s, c).0, s.byReceipt[c.receiptHash])
  {
    hide VerifyReconciliation, Accepts;
    var id := s.byReceipt[c.receiptHash];
    assert StoredOk(k, s, id);
    AppendedAccepted(k, s.grants[id], c);
  }

  lemma AppendedAccepted(k: Protocol, m: Stored, c: Reconciliation)
    requires Accepts(k, BundleOf(m)) && m.receipt.Some? && |m.reconciliations| < MAX_RECONCILIATION_RECORDS
    requires FreshIdentifier(m.reconciliations, c)
    requires VerifyReconciliation(k, m.receipt.value, LastOf(m.reconciliations), c).Some?
    ensures Accepts(k, BundleOf(m.(reconciliations := m.reconciliations + [c])))
  {
    hide VerifyDecision, VerifyGrant, IsHistory;
    HistoryExtends(k, m.receipt.value, m.reconciliations, c);
  }

  lemma StepKeeps(k: Protocol, s: MemState, call: Call)
    requires Inv(k, s)
    ensures Inv(k, After(k, s, call))
  {
    hide Inv, Register, Claim, RecordReceipt, AppendReconciliation;
    match call
    case RegisterCall(t, p, d, g) => RegisterKeeps(k, s, t, p, d, g);
    case ClaimCall(g, q, now) => ClaimKeeps(k, s, g, q, now);
    case ReceiptCall(r) => ReceiptKeeps(k, s, r);
    case ReconciliationCall(c) => AppendKeeps(k, s, c);
  }

  lemma {:induction false} RunKeeps(k: Protocol, s: MemState, calls: seq<Call>)
    requires Inv(k, s)
    ensures Inv(k, Run(k, s, calls))
    decreases |calls|
  {
    if calls != [] {
      StepKeeps(k, s, calls[0]);
      RunKeeps(k, After(k, s, calls[0]), calls[1..]);
    }
  }

  // ---- Nothing recorded is ever changed ----

  lemma RegisterExtends(k: Protocol, s: MemState, t: Task, p: Proposal, d: Decision, g: Grant)
    ensures Extends(s, Register(k, s, t, p, d, g).0)
  {
    hide VerifyGrant;
  }

  lemma ClaimExtends(k: Protocol, s: MemState, g: Grant, q: Request, now: Option<u64>)
    ensures Extends(s, Claim(k, s, g, q, now).0)
  {
    hide VerifyGrant;
  }

  lemma ReceiptExtends(k: Protocol, s: MemState, r: Receipt)
    ensures Extends(s, RecordReceipt(k, s, r).0)
  {
    hide VerifyWinner;
  }

  lemma AppendExtends(k: Protocol, s: MemState, c: Reconciliation)
    ensures Extends(s, AppendReconciliation(k, s, c).0)
  {
    hide VerifyReconciliation;
  }

  lemma StepExtends(k: Protocol, s: MemState, call: Call)
    ensures Extends(s, After(k, s, call))
  {
    hide Extends, Register, Claim, RecordReceipt, AppendReconciliation;
    match call
    case RegisterCall(t, p, d, g) => RegisterExtends(k, s, t, p, d, g);
    case ClaimCall(g, q, now) => ClaimExtends(k, s, g, q, now);
    case ReceiptCall(r) => ReceiptExtends(k, s, r);
    case ReconciliationCall(c) => AppendExtends(k, s, c);
  }

  /** Single use, write-once receipts, append-only histories and a monotone
      clock fence, over whole runs and rejected calls included. */
  lemma {:induction false} RunExtends(k: Protocol, s: MemState, calls: seq<Call>)
    ensures Extends(s, Run(k, s, calls))
    decreases |calls|
  {
    hide After;
    if calls != [] {
      var u := After(k, s, calls[0]);
      StepExtends(k, s, calls[0]);
      RunExtends(k, u, calls[1..]);
      assert forall id | id in s.grants :: id in u.grants && Grows(s.grants[id], u.grants[id]);
    }
  }

  // ---- Accepted bundles are exactly the stored histories ----

  function WinningRequest(b: Bundle, r: Receipt): Request {
    Request(r.attemptId, if b.grant.Some? then b.grant.value.audience else [],
            b.task.policyEpoch, b.task.configurationEpoch,
            b.proposal.preStateDigest, b.proposal.resourceClaimDigest, false)
  }

  /** The calls that rebuild a bundle in a fresh store. */
  function Replay(b: Bundle): seq<Call>
    requires b.grant.Some?
  {
    [RegisterCall(b.task, b.proposal, b.decision, b.grant.value)]
    + if b.receipt.None? then []
      else [ClaimCall(b.grant.value, WinningRequest(b, b.receipt.value), Some(b.receipt.value.claimedAt)),
            ReceiptCall(b.receipt.value)] + Appends(b.reconciliations)
  }

  function Appends(cs: seq<Reconciliation>): seq<Call> {
    seq(|cs|, i requires 0 <= i < |cs| => ReconciliationCall(cs[i]))
  }

  lemma {:induction false} RunConcat(k: Protocol, s: MemState, a: seq<Call>, b: seq<Call>)
    ensures Run(k, s, a + b) == Run(k, Run(k, s, a), b)
    decreases |a|
  {
    hide After;
    if a == [] {
      assert a + b == b;
    } else {
      assert (a + b)[0] == a[0] && (a + b)[1..] == a[1..] + b;
      RunConcat(k, After(k, s, a[0]), a[1..], b);
    }
  }

  lemma RunOne(k: Protocol, s: MemState, call: Call)
    ensures Run(k, s, [call]) == After(k, s, call)
  {
    hide After;
    assert Run(k, After(k, s, call), [][..]) == After(k, s, call);
  }

  ghost predicate Holds(k: Protocol, s: MemState, b: Bundle) {
    b.grant.Some? && b.grant.value.grantId in s.grants && BundleOf(s.grants[b.grant.value.grantId]) == b
    && (b.receipt.Some? ==>
          var h := k.hashReceipt(b.receipt.value); h in s.byReceipt && s.byReceipt[h] == b.grant.value.grantId)
  }

  lemma ReplayRegister(k: Protocol, b: Bundle)
    requires Accepts(k, b) && b.grant.Some?
    ensures var call := RegisterCall(b.task, b.proposal, b.decision, b.grant.value);
            Succeeds(k, Empty(), call) && Holds(k, After(k, Empty(), call), b.(receipt := None, reconciliations := []))
            && var s := After(k, Empty(), call); var id := b.grant.value.grantId;
               s.grants[id].hash == k.hashGrant(b.grant.value) && s.grants[id].claim.None? && s.lastTime.None?
               && k.hashGrant(b.grant.value) in s.byHash && s.byHash[k.hashGrant(b.grant.value)] == id
  {
    hide VerifyDecision, VerifyChain, IsHistory;
  }

  lemma ReceiptNamesGrant(k: Protocol, b: Bundle)
    requires Accepts(k, b) && b.receipt.Some?
    ensures b.receipt.value.grantHash == k.hashGrant(b.grant.value)
  {
    hide VerifyDecision, IsHistory;
  }

  lemma ReplayClaim(k: Protocol, b: Bundle, s: MemState)
    requires Accepts(k, b) && b.receipt.Some? && s.lastTime.None?
    requires Holds(k, s, b.(receipt := None, reconciliations := []))
    requires s.grants[b.grant.value.grantId].claim.None?
          && s.grants[b.grant.value.grantId].hash == k.hashGrant(b.grant.value)
    ensures var call := ClaimCall(b.grant.value, WinningRequest(b, b.receipt.value), Some(b.receipt.value.claimedAt));
            Succeeds(k, s, call)
            && Holds(k, After(k, s, call), b.(receipt := None, reconciliations := []))
            && After(k, s, call).grants[b.grant.value.grantId].claim.Some?
            && VerifyWinner(k, After(k, s, call).grants[b.grant.value.grantId], b.receipt.value).Some?
            && After(k, s, call).byHash == s.byHash
  {
    hide IsHistory;
    var call := ClaimCall(b.grant.value, WinningRequest(b, b.receipt.value), Some(b.receipt.value.claimedAt));
    assert ReachesFence(k, s, call.grant, call.request, call.now);
    assert MayClaim(k, s.grants[b.grant.value.grantId], call.grant, call.request, b.receipt.value.claimedAt);
  }

  lemma ReplayReceipt(k: Protocol, b: Bundle, s: MemState)
    requires Accepts(k, b) && b.receipt.Some? && Holds(k, s, b.(receipt := None, reconciliations := []))
    requires VerifyWinner(k, s.grants[b.grant.value.grantId], b.receipt.value).Some?
    requires var h := b.receipt.value.grantHash; h in s.byHash && s.byHash[h] == b.grant.value.grantId
    ensures Succeeds(k, s, ReceiptCall(b.receipt.value))
    ensures Holds(k, After(k, s, ReceiptCall(b.receipt.value)), b.(reconciliations := []))
  {
    hide VerifyDecision, VerifyGrant, IsHistory;
  }

  lemma ReplayAppend(k: Protocol, b: Bundle, s: MemState, n: nat)
    requires Accepts(k, b) && b.receipt.Some? && n < |b.reconciliations|
    requires Holds(k, s, b.(reconciliations := b.reconciliations[..n]))
    ensures Succeeds(k, s, ReconciliationCall(b.reconciliations[n]))
    ensures Holds(k, After(k, s, ReconciliationCall(b.reconciliations[n])),
                  b.(reconciliations := b.reconciliations[..n + 1]))
  {
    hide VerifyDecision, VerifyGrant, VerifyReconciliation;
    var cs, c, r := b.reconciliations[..n], b.reconciliations[n], b.receipt.value;
    assert IsLink(k, r, b.reconciliations, n);
    HistoryPrefix(k, r, b.reconciliations, n);
    HistoryPrefix(k, r, b.reconciliations, n + 1);
    assert b.reconciliations[..n + 1] == cs + [c];
    HistoryExtends(k, r, cs, c);
  }

  lemma {:induction false} ReplayHistory(k: Protocol, b: Bundle, s: MemState, n: nat)
    requires Accepts(k, b) && b.receipt.Some? && n <= |b.reconciliations|
    requires Holds(k, s, b.(reconciliations := b.reconciliations[..n]))
    ensures Holds(k, Run(k, s, Appends(b.reconciliations[n..])), b)
    decreases |b.reconciliations| - n
  {
    hide Accepts, After, Holds;
    var rest := Appends(b.reconciliations[n..]);
    if n == |b.reconciliations| {
      assert b.reconciliations[..n] == b.reconciliations;
    } else {
      ReplayAppend(k, b, s, n);
      assert rest[0] == ReconciliationCall(b.reconciliations[n]);
      assert rest[1..] == Appends(b.reconciliations[n + 1..]);
      ReplayHistory(k, b, After(k, s, rest[0]), n + 1);
    }
  }

  /** Completeness: every accepted bundle with a grant replays, call by
      successful call, into a fresh store. */
  lemma ReplayRebuilds(k: Protocol, b: Bundle)
    requires Accepts(k, b) && b.grant.Some?
    ensures Holds(k, Run(k, Empty(), Replay(b)), b)
  {
    hide Accepts, After, Holds;
    var register := RegisterCall(b.task, b.proposal, b.decision, b.grant.value);
    var s1 := After(k, Empty(), register);
    RunOne(k, Empty(), register);
    if b.receipt.None? {
      ReplayedGrant(k, b);
    } else {
      var claim := ClaimCall(b.grant.value, WinningRequest(b, b.receipt.value), Some(b.receipt.value.claimedAt));
      var receipt := ReceiptCall(b.receipt.value);
      var appends := Appends(b.reconciliations);
      var s2 := After(k, s1, claim);
      var s3 := After(k, s2, receipt);
      ReplayedReceipt(k, b);
      assert b.reconciliations[..0] == [] && b.reconciliations[0..] == b.reconciliations;
      ReplayHistory(k, b, s3, 0);
      RunOne(k, s1, claim);
      RunOne(k, s2, receipt);
      assert [claim, receipt] + appends == [claim] + ([receipt] + appends);
      RunConcat(k, s2, [receipt], appends);
      RunConcat(k, s1, [claim], [receipt] + appends);
      RunConcat(k, Empty(), [register], [claim, receipt] + appends);
    }
  }

  lemma ReplayedGrant(k: Protocol, b: Bundle)
    requires Accepts(k, b) && b.grant.Some? && b.receipt.None?
    ensures Holds(k, Run(k, Empty(), Replay(b)), b)
  {
    hide After, VerifyGrant, VerifyDecision, VerifyChain, IsHistory;
    RunOne(k, Empty(), RegisterCall(b.task, b.proposal, b.decision, b.grant.value));
    ReplayRegister(k, b);
    assert b.(receipt := None, reconciliations := []) == b;
  }

  lemma ReplayedReceipt(k: Protocol, b: Bundle)
    requires Accepts(k, b) && b.receipt.Some?
    ensures var s1 := After(k, Empty(), RegisterCall(b.task, b.proposal, b.decision, b.grant.value));
            var r := b.receipt.value;
            var s2 := After(k, s1, ClaimCall(b.grant.value, WinningRequest(b, r), Some(r.claimedAt)));
            var s3 := After(k, s2, ReceiptCall(b.receipt.value));
            Holds(k, s3, b.(reconciliations := []))
  {
    hide VerifyGrant, VerifyDecision, VerifyWinner, IsHistory, Claim, RecordReceipt, Register;
    var s1 := After(k, Empty(), RegisterCall(b.task, b.proposal, b.decision, b.grant.value));
    ReplayRegister(k, b);
    ReplayClaim(k, b, s1);
    var r := b.receipt.value;
    var s2 := After(k, s1, ClaimCall(b.grant.value, WinningRequest(b, r), Some(r.claimedAt)));
    ReceiptNamesGrant(k, b);
    ReplayReceipt(k, b, s2);
  }

  /** Soundness and completeness: the accepted bundles that carry a grant are
      exactly the contents of the grants of reachable stores. */
  lemma StoredExactlyAccepted(k: Protocol, b: Bundle)
    requires b.grant.Some?
    ensures Accepts(k, b) <==>
            exists calls, id :: id in Run(k, Empty(), calls).grants && BundleOf(Run(k, Empty(), calls).grants[id]) == b
  {
    hide Accepts, Run;
    if Accepts(k, b) {
      ReplayRebuilds(k, b);
      assert b.grant.value.grantId in Run(k, Empty(), Replay(b)).grants;
    }
    forall calls, id | id in Run(k, Empty(), calls).grants && BundleOf(Run(k, Empty(), calls).grants[id]) == b
      ensures Accepts(k, b)
    {
      RunKeeps(k, Empty(), calls);
      assert StoredOk(k, Run(k, Empty(), calls), id);
    }
  }
}
