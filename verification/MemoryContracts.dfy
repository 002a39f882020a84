/** When each call on the in-memory store succeeds and what it then leaves, said
    of the stored fields of every reachable state. */
module MemoryContracts {
  import opened Unicode
  import opened Json
  import opened Records
  import opened Verifier
  import opened Lawful
  import opened MemoryStore

  /** The state after any calls on an empty store. */
  function Reached(k: Protocol, calls: seq<Call>): MemState { Run(k, Empty(), calls) }

  lemma ReachedOk(k: Protocol, calls: seq<Call>)
    ensures Inv(k, Reached(k, calls))
  {
    hide Inv, Run;
    assert Inv(k, Empty()) by { EmptyOk(k); }
    RunKeeps(k, Empty(), calls);
  }

  lemma EmptyOk(k: Protocol)
    ensures Inv(k, Empty())
  {
  }

  // ---- Registration ----

  /** No stored grant has the identifier, the proposal or the decision. */
  predicate IsNew(k: Protocol, s: MemState, p: Proposal, d: Decision, g: Grant) {
    g.grantId !in s.grants
    && forall id | id in s.grants ::
         k.hashProposal(s.grants[id].proposal) != k.hashProposal(p)
         && k.hashDecision(s.grants[id].decision) != k.hashDecision(d)
  }

  lemma RegisterExactly(k: Protocol, calls: seq<Call>, t: Task, p: Proposal, d: Decision, g: Grant)
    ensures var s := Reached(k, calls); var (u, r) := Register(k, s, t, p, d, g);
            (r.Some? <==> IsLawful(k, Bundle(t, p, d, Some(g), None, [])) && IsNew(k, s, p, d, g))
            && (r.None? ==> u == s)
            && (r.Some? ==>
                  r.value == k.hashGrant(g)
                  && u == s.(
                    grants := s.grants[g.grantId := Stored(k.hashGrant(g), t, p, d, g, None, None, [])],
                    byHash := s.byHash[k.hashGrant(g) := g.grantId],
                    byDecision := s.byDecision[k.hashDecision(d) := g.grantId],
                    byProposal := s.byProposal[k.hashProposal(p) := g.grantId]))
  {
    hide Inv, Reached, VerifyGrant, LawfulTask, LawfulProposal, LawfulDecision, LawfulGrant;
    var s := Reached(k, calls);
    ReachedOk(k, calls);
    GrantExactly(k, t, p, d, g);
    NewExactly(k, s, p, d, g);
  }

  lemma NewExactly(k: Protocol, s: MemState, p: Proposal, d: Decision, g: Grant)
    requires Inv(k, s)
    ensures IsNew(k, s, p, d, g)
        <==> g.grantId !in s.grants && k.hashDecision(d) !in s.byDecision && k.hashProposal(p) !in s.byProposal
  {
    hide Accepts, VerifyWinner, ClaimOk;
    forall id | id in s.grants
      ensures k.hashProposal(s.grants[id].proposal) in s.byProposal
              && k.hashDecision(s.grants[id].decision) in s.byDecision
    {
      assert StoredOk(k, s, id);
    }
  }

  // ---- Claims ----

  predicate Claimable(k: Protocol, s: MemState, g: Grant, q: Request, now: u64) {
    g.grantId in s.grants
    && var m := s.grants[g.grantId];
       k.hashGrant(g) == k.hashGrant(m.grant)
       && q.audience == m.grant.audience && m.grant.notBefore <= now < m.grant.expiresAt
       && q.policyEpoch == m.task.policyEpoch && q.configurationEpoch == m.task.configurationEpoch
       && q.preStateDigest == m.proposal.preStateDigest && q.resourceClaimDigest == m.proposal.resourceClaimDigest
       && !q.revoked && m.claim.None?
  }

  /** The call gets past the clock, which it then moves, whatever becomes of the claim. */
  predicate PassesClock(k: Protocol, s: MemState, g: Grant, q: Request, now: Option<u64>) {
    k.text(q.attemptId, 256) && k.text(q.audience, 512)
    && q.policyEpoch <= LAST_SAFE && q.configurationEpoch <= LAST_SAFE && WellFormedGrant(k, g)
    && now.Some? && now.value <= LAST_SAFE && (s.lastTime.Some? ==> s.lastTime.value <= now.value)
  }

  lemma ClaimExactly(k: Protocol, calls: seq<Call>, g: Grant, q: Request, now: Option<u64>)
    ensures var s := Reached(k, calls); var (u, r) := Claim(k, s, g, q, now);
            (r.Some? <==> PassesClock(k, s, g, q, now) && Claimable(k, s, g, q, now.value))
            && u.lastTime == (if PassesClock(k, s, g, q, now) then now else s.lastTime)
            && (r.None? ==> u == s.(lastTime := u.lastTime))
            && (r.Some? ==>
                  r.value == GrantClaim(g.grantId, k.hashGrant(g), q.attemptId, now.value)
                  && u == s.(lastTime := now, grants := s.grants[g.grantId := s.grants[g.grantId].(claim := r)]))
  {
    hide Inv, Reached, VerifyGrant;
    ReachedOk(k, calls);
    if g.grantId in Reached(k, calls).grants { StoredGrant(k, Reached(k, calls), g.grantId); }
  }

  lemma StoredGrant(k: Protocol, s: MemState, id: Units)
    requires Inv(k, s) && id in s.grants
    ensures var m := s.grants[id];
            m.grant.grantId == id && m.hash == k.hashGrant(m.grant)
            && VerifyGrant(k, m.task, m.proposal, m.decision, m.grant) == Some(m.hash)
  {
    hide VerifyDecision, VerifyChain, IsHistory, IndexesOk, ClaimOk;
    assert StoredOk(k, s, id);
  }

  // ---- Receipts ----

  /** The receipt is lawful for the grant its hash finds, and that of the winning attempt. */
  predicate Fitting(k: Protocol, s: MemState, r: Receipt) {
    r.grantHash in s.byHash && s.byHash[r.grantHash] in s.grants
    && var m := s.grants[s.byHash[r.grantHash]];
       LawfulReceipt(k, m.proposal, m.grant, r)
       && m.claim.Some? && r.attemptId == m.claim.value.attemptId && r.claimedAt == m.claim.value.claimedAt
  }

  lemma RecordExactly(k: Protocol, calls: seq<Call>, r: Receipt)
    ensures var s := Reached(k, calls); var (u, d) := RecordReceipt(k, s, r);
            (d.Some? <==>
               Fitting(k, s, r)
               && (var stored := s.grants[s.byHash[r.grantHash]].receipt;
                   stored.Some? ==> k.hashReceipt(stored.value) == k.hashReceipt(r)))
            && (d.None? ==> u == s)
            && (d.Some? ==>
                  d.value == k.hashReceipt(r)
                  && (var id := s.byHash[r.grantHash];
                      u == if s.grants[id].receipt.Some? then s
                           else s.(grants := s.grants[id := s.grants[id].(receipt := Some(r))],
                                   byReceipt := s.byReceipt[k.hashReceipt(r) := id])))
  {
    hide Inv, Reached, VerifyGrant, VerifyChain, LawfulReceipt;
    var s := Reached(k, calls);
    ReachedOk(k, calls);
    if r.grantHash in s.byHash && s.byHash[r.grantHash] in s.grants {
      var id := s.byHash[r.grantHash];
      var m := s.grants[id];
      StoredGrant(k, s, id);
      ReceiptExactly(k, m.task, m.proposal, m.decision, m.grant, r);
      LawfulIsValid(k, m.task, m.proposal, m.decision, m.grant, r);
      if m.receipt.Some? { StoredReceipt(k, s, id); }
    }
  }

  lemma StoredReceipt(k: Protocol, s: MemState, id: Units)
    requires Inv(k, s) && id in s.grants && s.grants[id].receipt.Some?
    ensures k.ValidReceipt(s.grants[id].receipt.value)
    ensures |s.grants[id].reconciliations| <= MAX_RECONCILIATION_RECORDS
    ensures IsHistory(k, s.grants[id].receipt.value, s.grants[id].reconciliations)
  {
    hide VerifyGrant, IsHistory, IndexesOk, ClaimOk;
    assert StoredOk(k, s, id);
  }

  // ---- Reconciliations ----

  /** The grant whose receipt has the hash that the record names. */
  predicate FindsReceipt(s: MemState, c: Reconciliation) {
    c.receiptHash in s.byReceipt && s.byReceipt[c.receiptHash] in s.grants
    && s.grants[s.byReceipt[c.receiptHash]].receipt.Some?
  }

  /** The record makes a longer lawful history. */
  ghost predicate Appendable(k: Protocol, s: MemState, c: Reconciliation) {
    FindsReceipt(s, c)
    && var m := s.grants[s.byReceipt[c.receiptHash]];
       LawfulHistory(k, m.receipt.value, m.reconciliations + [c])
  }

  /** The record at its place has its hash already. */
  predicate Appended(k: Protocol, s: MemState, c: Reconciliation) {
    FindsReceipt(s, c) && WellFormedRecord(k, c)
    && var cs := s.grants[s.byReceipt[c.receiptHash]].reconciliations;
       c.sequence <= |cs| && k.hashReconciliation(cs[c.sequence - 1]) == k.hashReconciliation(c)
  }

  lemma AppendExactly(k: Protocol, calls: seq<Call>, c: Reconciliation)
    ensures var s := Reached(k, calls); var (u, d) := AppendReconciliation(k, s, c);
            (d.Some? <==> Appendable(k, s, c) || Appended(k, s, c))
            && (d.Some? ==> d.value == k.hashReconciliation(c))
            && (d.None? || Appended(k, s, c) ==> u == s)
            && (Appendable(k, s, c) ==>
                  var id := s.byReceipt[c.receiptHash];
                  u == s.(grants := s.grants[id :=
                            s.grants[id].(reconciliations := s.grants[id].reconciliations + [c])]))
  {
    hide Inv, Reached, LawfulHistory, IsHistory, VerifyReconciliation;
    var s := Reached(k, calls);
    ReachedOk(k, calls);
    if FindsReceipt(s, c) {
      var id := s.byReceipt[c.receiptHash];
      StoredReceipt(k, s, id);
      NextExactly(k, s.grants[id].receipt.value, s.grants[id].reconciliations, c);
    }
  }
}
