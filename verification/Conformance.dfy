/** The conformance oracle: the lifecycle target that test vectors run against,
    and its agreement with the in-memory store. */
module Conformance {
  import opened Unicode
  import opened Json
  import opened Records
  import opened Verifier
  import opened Pins
  import M = MemoryStore
  import T = TsVerifier

  datatype OracleClaim = OracleClaim(attemptId: Units, claimedAt: u64)

  /** What is stored of a registered bundle, which always has a grant. */
  datatype OracleGrant = OracleGrant(
    bundle: Bundle, grant: Grant, grantHash: Digest,
    claim: Option<OracleClaim>, receiptHash: Option<Digest>, receiptWrites: nat)

  datatype Oracle = Oracle(
    grants: map<Units, OracleGrant>, decisions: set<Digest>, proposals: set<Digest>, lastTime: Option<u64>)

  function Fresh(): Oracle { Oracle(map[], {}, {}, None) }

  function GrantBundle(t: Task, p: Proposal, d: Decision, g: Grant): Bundle { Bundle(t, p, d, Some(g), None, []) }

  /** The stored bundle with this receipt in place of its own, if it had one. */
  function ReceiptBundle(m: OracleGrant, r: Receipt): Bundle { m.bundle.(receipt := Some(r)) }

  // ---- What the oracle does: the new state and the verdict ----

  ghost function Register(k: Protocol, o: Oracle, b: Bundle): (Oracle, bool) {
    var decision, proposal := k.hashDecision(b.decision), k.hashProposal(b.proposal);
    if !Accepts(k, b) || b.grant.None? then (o, false)
    else if b.grant.value.grantId in o.grants || decision in o.decisions || proposal in o.proposals then (o, false)
    else
      var g := b.grant.value;
      (o.(grants := o.grants[g.grantId := OracleGrant(b, g, k.hashGrant(g), None, None, 0)],
          decisions := o.decisions + {decision}, proposals := o.proposals + {proposal}), true)
  }

  predicate MayClaim(m: OracleGrant, q: M.Request, now: u64) {
    q.audience == m.grant.audience
    && q.policyEpoch == m.bundle.task.policyEpoch && q.configurationEpoch == m.bundle.task.configurationEpoch
    && q.preStateDigest == m.bundle.proposal.preStateDigest
    && q.resourceClaimDigest == m.bundle.proposal.resourceClaimDigest
    && !q.revoked && m.grant.notBefore <= now < m.grant.expiresAt && m.claim.None?
  }

  function Claim(o: Oracle, grantId: Units, q: M.Request, now: Option<u64>): (Oracle, bool) {
    if now.None? || (o.lastTime.Some? && now.value < o.lastTime.value) then (o, false)
    else
      var fenced := o.(lastTime := now);
      if grantId !in o.grants || !MayClaim(o.grants[grantId], q, now.value) then (fenced, false)
      else
        var m := o.grants[grantId].(claim := Some(OracleClaim(q.attemptId, now.value)));
        (fenced.(grants := o.grants[grantId := m]), true)
  }

  ghost function RecordReceipt(k: Protocol, o: Oracle, grantId: Units, r: Receipt): (Oracle, bool) {
    if grantId !in o.grants then (o, false)
    else
      var m := o.grants[grantId];
      if m.claim.None? || r.attemptId != m.claim.value.attemptId || r.claimedAt != m.claim.value.claimedAt
         || !Accepts(k, ReceiptBundle(m, r)) then (o, false)
      else if m.receiptHash.Some? then (o, m.receiptHash.value == k.hashReceipt(r))
      else
        var written := m.(receiptHash := Some(k.hashReceipt(r)), receiptWrites := m.receiptWrites + 1);
        (o.(grants := o.grants[grantId := written]), true)
  }

  // ---- The target object ----

  class ReferenceLifecycleTarget {
    const k: Protocol
    ghost const sha: Bytes -> Digest
    ghost const rules: Protocol
    var grants: map<Units, OracleGrant>
    var decisions: set<Digest>
    var proposals: set<Digest>
    var lastTime: Option<u64>

    ghost predicate Valid() { ScalarRules(rules) && k == Etp(sha, rules) }

    constructor (k: Protocol, ghost sha: Bytes -> Digest, ghost rules: Protocol)
      requires ScalarRules(rules) && k == Etp(sha, rules)
      ensures Valid() && this.k == k && State() == Fresh()
    {
      this.k := k;
      this.sha := sha;
      this.rules := rules;
      grants, decisions, proposals, lastTime := map[], {}, {}, None;
    }

    ghost function State(): Oracle
      reads this
    {
      Oracle(grants, decisions, proposals, lastTime)
    }

    method RegisterBundle(b: Bundle) returns (ok: bool)
      requires Valid()
      modifies this
      ensures (State(), ok) == Register(k, old(State()), b)
    {
      hide ScalarRules, Etp, Accepts;
      var verified := T.VerifyTransaction(k, b, sha, rules);
      if verified.None? || b.grant.None? {
        return false;
      }
      var v, g := verified.value, b.grant.value;
      if g.grantId in grants || v.decision in decisions || v.proposal in proposals {
        return false;
      }
      grants := grants[g.grantId := OracleGrant(b, g, v.grant.value, None, None, 0)];
      decisions := decisions + {v.decision};
      proposals := proposals + {v.proposal};
      return true;
    }

    method TakeClaim(grantId: Units, q: M.Request, now: Option<u64>) returns (ok: bool)
      modifies this
      ensures (State(), ok) == Claim(old(State()), grantId, q, now)
    {
      if now.None? || (lastTime.Some? && now.value < lastTime.value) {
        return false;
      }
      lastTime := now;
      if grantId !in grants {
        return false;
      }
      var m := grants[grantId];
      var task, proposal := m.bundle.task, m.bundle.proposal;
      if q.audience != m.grant.audience || q.policyEpoch != task.policyEpoch
         || q.configurationEpoch != task.configurationEpoch || q.preStateDigest != proposal.preStateDigest
         || q.resourceClaimDigest != proposal.resourceClaimDigest || q.revoked {
        return false;
      }
      if now.value < m.grant.notBefore || now.value >= m.grant.expiresAt || m.claim.Some? {
        return false;
      }
      grants := grants[grantId := m.(claim := Some(OracleClaim(q.attemptId, now.value)))];
      return true;
    }

    method Record(grantId: Units, r: Receipt) returns (ok: bool)
      requires Valid()
      modifies this
      ensures (State(), ok) == RecordReceipt(k, old(State()), grantId, r)
    {
      hide ScalarRules, Etp, Accepts;
      if grantId !in grants {
        return false;
      }
      var m := grants[grantId];
      if m.claim.None? || r.attemptId != m.claim.value.attemptId || r.claimedAt != m.claim.value.claimedAt {
        return false;
      }
      var verified := T.VerifyTransaction(k, ReceiptBundle(m, r), sha, rules);
      if verified.None? {
        return false;
      }
      var receiptHash := verified.value.receipt.value;
      if m.receiptHash.Some? {
        return m.receiptHash.value == receiptHash;
      }
      grants := grants[grantId := m.(receiptHash := Some(receiptHash), receiptWrites := m.receiptWrites + 1)];
      return true;
    }
  }

  // ---- Agreement with the store ----

  datatype Call =
    | RegisterCall(task: Task, proposal: Proposal, decision: Decision, grant: Grant)
    | ClaimCall(grant: Grant, request: M.Request, now: Option<u64>)
    | ReceiptCall(grantId: Units, receipt: Receipt)

  /** The same call, as the store takes it: a claim names its grant by value and
      a receipt finds it by hash. */
  function StoreCall(call: Call): M.Call {
    match call
    case RegisterCall(t, p, d, g) => M.RegisterCall(t, p, d, g)
    case ClaimCall(g, q, now) => M.ClaimCall(g, q, now)
    case ReceiptCall(_, r) => M.ReceiptCall(r)
  }

  ghost function OracleStep(k: Protocol, o: Oracle, call: Call): (Oracle, bool) {
    match call
    case RegisterCall(t, p, d, g) => Register(k, o, GrantBundle(t, p, d, g))
    case ClaimCall(g, q, now) => Claim(o, g.grantId, q, now)
    case ReceiptCall(id, r) => RecordReceipt(k, o, id, r)
  }

  /** The identifier given with a receipt is not that of the grant its hash names. */
  predicate Misaddressed(s: M.MemState, id: Units, r: Receipt) {
    r.grantHash in s.byHash && !(id in s.grants && s.byHash[r.grantHash] == id)
  }

  /** The grant with this identifier has not lost its hash to a later grant with the same hash. */
  predicate OwnHash(s: M.MemState, id: Units, r: Receipt) {
    id in s.grants && s.grants[id].hash == r.grantHash ==> !Misaddressed(s, id, r)
  }

  /** The fields that only the store checks are in order, and no receipt is
      accepted for a grant other than the one its call names. */
  ghost predicate WellFormed(k: Protocol, s: M.MemState, call: Call) {
    match call
    case RegisterCall(_, _, _, _) => true
    case ClaimCall(g, q, now) =>
      M.ValidRequest(k, q) && (now.Some? ==> SafeTime(now.value)) && k.ValidGrant(g)
      && (g.grantId in s.grants ==> s.grants[g.grantId].grant == g)
    case ReceiptCall(id, r) =>
      OwnHash(s, id, r) && (Misaddressed(s, id, r) ==> M.RecordReceipt(k, s, r).1.None?)
  }

  function ClaimOf(m: M.Stored): Option<OracleClaim> {
    if m.claim.None? then None else Some(OracleClaim(m.claim.value.attemptId, m.claim.value.claimedAt))
  }

  function ReceiptHashOf(k: Protocol, m: M.Stored): Option<Digest> {
    if m.receipt.None? then None else Some(k.hashReceipt(m.receipt.value))
  }

  /** The oracle holds what the store holds, and has written each receipt once. */
  ghost predicate Matches(k: Protocol, o: OracleGrant, m: M.Stored) {
    o.bundle == GrantBundle(m.task, m.proposal, m.decision, m.grant) && o.grant == m.grant
    && o.grantHash == m.hash && o.claim == ClaimOf(m) && o.receiptHash == ReceiptHashOf(k, m)
    && o.receiptWrites == (if m.receipt.None? then 0 else 1)
  }

  ghost predicate Agree(k: Protocol, o: Oracle, s: M.MemState) {
    o.grants.Keys == s.grants.Keys && (forall id | id in s.grants :: Matches(k, o.grants[id], s.grants[id]))
    && o.decisions == s.byDecision.Keys && o.proposals == s.byProposal.Keys && o.lastTime == s.lastTime
  }

  lemma GrantVerdict(k: Protocol, t: Task, p: Proposal, d: Decision, g: Grant)
    ensures Accepts(k, GrantBundle(t, p, d, g)) <==> VerifyGrant(k, t, p, d, g).Some?
    ensures VerifyGrant(k, t, p, d, g).Some? ==> VerifyGrant(k, t, p, d, g) == Some(k.hashGrant(g))
  {
    hide VerifyDecision;
  }

  lemma ReceiptVerdict(k: Protocol, o: OracleGrant, m: M.Stored, r: Receipt)
    requires Matches(k, o, m)
    ensures Accepts(k, ReceiptBundle(o, r)) <==> VerifyChain(k, m.task, m.proposal, m.decision, m.grant, r).Some?
    ensures Accepts(k, ReceiptBundle(o, r)) ==>
              k.ValidReceipt(r) && VerifyChain(k, m.task, m.proposal, m.decision, m.grant, r) == Some(k.hashReceipt(r))
  {
    hide VerifyDecision;
  }

  lemma RegisterAgrees(k: Protocol, o: Oracle, s: M.MemState, t: Task, p: Proposal, d: Decision, g: Grant)
    requires Agree(k, o, s)
    ensures Register(k, o, GrantBundle(t, p, d, g)).1 <==> M.Register(k, s, t, p, d, g).1.Some?
    ensures Agree(k, Register(k, o, GrantBundle(t, p, d, g)).0, M.Register(k, s, t, p, d, g).0)
  {
    hide Accepts, VerifyGrant;
    GrantVerdict(k, t, p, d, g);
  }

  lemma ClaimAgrees(k: Protocol, o: Oracle, s: M.MemState, g: Grant, q: M.Request, now: Option<u64>)
    requires Agree(k, o, s) && M.Inv(k, s) && WellFormed(k, s, ClaimCall(g, q, now))
    ensures Claim(o, g.grantId, q, now).1 <==> M.Claim(k, s, g, q, now).1.Some?
    ensures Agree(k, Claim(o, g.grantId, q, now).0, M.Claim(k, s, g, q, now).0)
  {
    hide M.Inv, MayClaim, M.MayClaim, M.ValidRequest;
    if g.grantId in s.grants && now.Some? { ClaimVerdict(k, o, s, g, q, now.value); }
  }

  lemma ClaimVerdict(k: Protocol, o: Oracle, s: M.MemState, g: Grant, q: M.Request, now: u64)
    requires Agree(k, o, s) && M.Inv(k, s) && g.grantId in s.grants && s.grants[g.grantId].grant == g
    ensures MayClaim(o.grants[g.grantId], q, now) <==> M.MayClaim(k, s.grants[g.grantId], g, q, now)
  {
    hide VerifyGrant, VerifyDecision, VerifyChain, IsHistory, M.IndexesOk;
    assert M.StoredOk(k, s, g.grantId);
    GrantHash(k, s.grants[g.grantId]);
  }

  lemma GrantHash(k: Protocol, m: M.Stored)
    requires Accepts(k, M.BundleOf(m))
    ensures VerifyGrant(k, m.task, m.proposal, m.decision, m.grant) == Some(k.hashGrant(m.grant))
  {
    hide VerifyDecision, VerifyChain, IsHistory;
  }

  lemma ReceiptAgrees(k: Protocol, o: Oracle, s: M.MemState, id: Units, r: Receipt)
    requires Agree(k, o, s) && M.Inv(k, s) && WellFormed(k, s, ReceiptCall(id, r))
    ensures RecordReceipt(k, o, id, r).1 <==> M.RecordReceipt(k, s, r).1.Some?
    ensures Agree(k, RecordReceipt(k, o, id, r).0, M.RecordReceipt(k, s, r).0)
  {
    hide M.Inv, Accepts, VerifyChain;
    if id in s.grants {
      ReceiptVerdict(k, o.grants[id], s.grants[id], r);
      if s.grants[id].receipt.Some? { StoredReceiptValid(k, s, id); }
      ForeignHash(k, s, id, r);
    }
  }

  /** For a receipt, the two give the same verdict if and only if it is well
      addressed or the store refuses it: the oracle refuses every other one. */
  lemma ReceiptAgreesExactly(k: Protocol, o: Oracle, s: M.MemState, id: Units, r: Receipt)
    requires Agree(k, o, s) && M.Inv(k, s) && OwnHash(s, id, r)
    ensures (RecordReceipt(k, o, id, r).1 <==> M.RecordReceipt(k, s, r).1.Some?)
        <==> (Misaddressed(s, id, r) ==> M.RecordReceipt(k, s, r).1.None?)
  {
    hide M.Inv, Accepts, VerifyChain, M.RecordReceipt;
    if Misaddressed(s, id, r) {
      if id in s.grants {
        ReceiptVerdict(k, o.grants[id], s.grants[id], r);
        ForeignHash(k, s, id, r);
      }
    } else {
      ReceiptAgrees(k, o, s, id, r);
    }
  }

  /** A receipt for another grant hash fails the chain of a stored grant. */
  lemma ForeignHash(k: Protocol, s: M.MemState, id: Units, r: Receipt)
    requires M.Inv(k, s) && id in s.grants
    ensures s.grants[id].hash in s.byHash
    ensures var m := s.grants[id];
            r.grantHash != m.hash ==> VerifyChain(k, m.task, m.proposal, m.decision, m.grant, r).None?
  {
    hide VerifyGrant, IsHistory, M.IndexesOk, Accepts;
    assert M.StoredOk(k, s, id);
    GrantHash(k, s.grants[id]);
  }

  lemma StoredReceiptValid(k: Protocol, s: M.MemState, id: Units)
    requires M.Inv(k, s) && id in s.grants && s.grants[id].receipt.Some?
    ensures k.ValidReceipt(s.grants[id].receipt.value)
  {
    hide VerifyGrant, IsHistory, M.IndexesOk;
    assert M.StoredOk(k, s, id);
  }

  ghost predicate WellFormedRun(k: Protocol, s: M.MemState, calls: seq<Call>)
    decreases |calls|
  {
    calls == [] || (WellFormed(k, s, calls[0]) && WellFormedRun(k, M.After(k, s, StoreCall(calls[0])), calls[1..]))
  }

  ghost function Verdicts(k: Protocol, o: Oracle, calls: seq<Call>): seq<bool>
    decreases |calls|
  {
    if calls == [] then []
    else var step := OracleStep(k, o, calls[0]); [step.1] + Verdicts(k, step.0, calls[1..])
  }

  function StoreVerdicts(k: Protocol, s: M.MemState, calls: seq<Call>): seq<bool>
    decreases |calls|
  {
    if calls == [] then []
    else
      var call := StoreCall(calls[0]);
      [M.Succeeds(k, s, call)] + StoreVerdicts(k, M.After(k, s, call), calls[1..])
  }

  lemma StepAgrees(k: Protocol, o: Oracle, s: M.MemState, call: Call)
    requires Agree(k, o, s) && M.Inv(k, s) && WellFormed(k, s, call)
    ensures OracleStep(k, o, call).1 <==> M.Succeeds(k, s, StoreCall(call))
    ensures Agree(k, OracleStep(k, o, call).0, M.After(k, s, StoreCall(call)))
  {
    hide Agree, M.Inv, WellFormed, Register, Claim, RecordReceipt, M.Register, M.Claim, M.RecordReceipt;
    match call
    case RegisterCall(t, p, d, g) => RegisterAgrees(k, o, s, t, p, d, g);
    case ClaimCall(g, q, now) => ClaimAgrees(k, o, s, g, q, now);
    case ReceiptCall(id, r) => ReceiptAgrees(k, o, s, id, r);
  }

  /** The oracle and the store give the same verdict on every call of every
      well-formed run, the clock fence moved by rejected claims included. */
  lemma {:induction false} OracleAgrees(k: Protocol, o: Oracle, s: M.MemState, calls: seq<Call>)
    requires Agree(k, o, s) && M.Inv(k, s) && WellFormedRun(k, s, calls)
    ensures Verdicts(k, o, calls) == StoreVerdicts(k, s, calls)
    decreases |calls|
  {
    hide Agree, M.Inv, WellFormed, OracleStep, M.After, M.Succeeds;
    if calls != [] {
      StepAgrees(k, o, s, calls[0]);
      M.StepKeeps(k, s, StoreCall(calls[0]));
      OracleAgrees(k, OracleStep(k, o, calls[0]).0, M.After(k, s, StoreCall(calls[0])), calls[1..]);
    }
  }

  lemma FreshAgrees(k: Protocol)
    ensures Agree(k, Fresh(), M.Empty()) && M.Inv(k, M.Empty())
  {
  }

  /** From the start, the vectors that a fresh oracle passes are those that a fresh store passes. */
  lemma FreshOracleAgrees(k: Protocol, calls: seq<Call>)
    requires WellFormedRun(k, M.Empty(), calls)
    ensures Verdicts(k, Fresh(), calls) == StoreVerdicts(k, M.Empty(), calls)
  {
    hide Agree, M.Inv, WellFormedRun, Verdicts, StoreVerdicts;
    FreshAgrees(k);
    OracleAgrees(k, Fresh(), M.Empty(), calls);
  }
}
