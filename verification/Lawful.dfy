/** What the verifiers enforce, written on the fields of the records alone. */
module Lawful {
  import opened Unicode
  import opened Json
  import opened Records
  import opened Verifier
  import opened CanonicalForm

  const LAST_SAFE: nat := 9_007_199_254_740_991

  // ---- The law ----

  predicate LawfulTask(k: Protocol, t: Task) {
    t.version == 1 && k.text(t.commitmentId, 256) && k.text(t.principal, 512)
    && t.policyEpoch <= LAST_SAFE && t.configurationEpoch <= LAST_SAFE
    && t.createdAt < t.expiresAt <= LAST_SAFE
  }

  /** The proposal names its task and lies in its window. */
  predicate LawfulProposal(k: Protocol, t: Task, p: Proposal) {
    p.version == 1 && k.text(p.proposalId, 256) && k.text(p.effectProfile, 256)
    && k.token(p.operation) && k.text(p.target, 4096)
    && p.commitmentHash == k.hashTask(t)
    && t.createdAt <= p.createdAt < p.expiresAt <= t.expiresAt
  }

  /** The decision names its proposal, lies in its window, and lists evidence and
      reasons in strictly ascending order; allowing takes evidence. */
  ghost predicate LawfulDecision(k: Protocol, p: Proposal, d: Decision) {
    d.version == 1 && k.text(d.decisionId, 256)
    && |d.evidenceHashes| <= 256
    && (forall i, j | 0 <= i < j < |d.evidenceHashes| :: d.evidenceHashes[i] < d.evidenceHashes[j])
    && 1 <= |d.reasonCodes| <= 64 && (forall i | 0 <= i < |d.reasonCodes| :: k.token(d.reasonCodes[i]))
    && Ascending(d.reasonCodes)
    && (d.outcome == Allow ==> |d.evidenceHashes| >= 1)
    && d.proposalHash == k.hashProposal(p)
    && p.createdAt <= d.decidedAt < d.expiresAt <= p.expiresAt
  }

  /** A grant takes a decision that allows, names it and its proposal, lies in its
      window for at most five minutes, and is good for one use. */
  predicate LawfulGrant(k: Protocol, p: Proposal, d: Decision, g: Grant) {
    d.outcome == Allow
    && g.version == 1 && k.text(g.grantId, 256) && k.text(g.audience, 512) && k.nonce(g.nonce) && g.uses == 1
    && g.proposalHash == k.hashProposal(p) && g.decisionHash == k.hashDecision(d)
    && d.decidedAt <= g.notBefore < g.expiresAt <= d.expiresAt
    && g.expiresAt - g.notBefore <= 300_000
  }

  /** A receipt names grant and proposal, was claimed in the window of the grant,
      and reports a dispatch time between claim and completion as its outcome demands. */
  predicate LawfulReceipt(k: Protocol, p: Proposal, g: Grant, r: Receipt) {
    r.version == 1 && k.text(r.receiptId, 256) && k.text(r.attemptId, 256)
    && r.proposalHash == k.hashProposal(p) && r.grantHash == k.hashGrant(g)
    && g.notBefore <= r.claimedAt < g.expiresAt && r.claimedAt <= r.completedAt <= LAST_SAFE
    && (match r.dispatchedAt
        case None => r.outcome == NotDispatched || r.outcome == Unknown
        case Some(at) => r.claimedAt <= at <= r.completedAt && r.outcome != NotDispatched)
  }

  /** At most 10,000 reconciliations of an `unknown` receipt: numbered from 1, each
      naming its predecessor, in time order, with distinct identifiers, and none
      behind a final one. */
  ghost predicate LawfulHistory(k: Protocol, r: Receipt, cs: seq<Reconciliation>) {
    |cs| <= 10_000 && (cs != [] ==> r.outcome == Unknown)
    && (forall i | 0 <= i < |cs| :: LawfulLink(k, r, cs, i))
    && (forall i, j | 0 <= i < j < |cs| ::
          cs[i].reconciliationId != cs[j].reconciliationId && cs[i].observedAt <= cs[j].observedAt
          && (cs[i].outcome == PartialEffect || cs[i].outcome == StillUnknown))
  }

  predicate LawfulLink(k: Protocol, r: Receipt, cs: seq<Reconciliation>, i: nat)
    requires i < |cs|
  {
    var c := cs[i];
    c.version == 1 && k.text(c.reconciliationId, 256)
    && c.receiptHash == k.hashReceipt(r) && c.sequence == i + 1
    && c.parentHash == (if i == 0 then None else Some(k.hashReconciliation(cs[i - 1])))
    && r.completedAt <= c.observedAt <= LAST_SAFE
  }

  ghost predicate IsLawful(k: Protocol, b: Bundle) {
    LawfulTask(k, b.task) && LawfulProposal(k, b.task, b.proposal) && LawfulDecision(k, b.proposal, b.decision)
    && (b.grant.Some? ==> LawfulGrant(k, b.proposal, b.decision, b.grant.value))
    && (match b.receipt
        case None => b.reconciliations == []
        case Some(r) =>
          b.grant.Some? && LawfulReceipt(k, b.proposal, b.grant.value, r) && LawfulHistory(k, r, b.reconciliations))
  }

  // ---- Single records ----

  predicate WellFormedGrant(k: Protocol, g: Grant) {
    g.version == 1 && k.text(g.grantId, 256) && k.text(g.audience, 512) && k.nonce(g.nonce) && g.uses == 1
    && g.notBefore < g.expiresAt <= LAST_SAFE && g.expiresAt - g.notBefore <= 300_000
  }

  predicate WellFormedRecord(k: Protocol, c: Reconciliation) {
    c.version == 1 && k.text(c.reconciliationId, 256) && c.observedAt <= LAST_SAFE
    && 1 <= c.sequence <= LAST_SAFE && (c.sequence == 1 <==> c.parentHash.None?)
  }

  // ---- The verifiers enforce it ----

  lemma {:induction false} DigestsAscend(ds: seq<Digest>, i: nat, j: nat)
    requires SortedDigests(ds) && i < j < |ds|
    ensures ds[i] < ds[j]
    decreases j
  {
    if i < j - 1 { DigestsAscend(ds, i, j - 1); }
  }

  lemma KeysPrecede(a: Units, b: Units)
    ensures KeyLess(ByByte, a, b) <==> Precedes(CodePoints(a), CodePoints(b))
  {
    hide LexLess, CodePoints, Utf8Units;
    OrdersAgree(a, b);
    LexIsPrecedes(CodePoints(a), CodePoints(b));
  }

  lemma PrecedesTransitive(a: Units, b: Units, c: Units)
    requires Precedes(CodePoints(a), CodePoints(b)) && Precedes(CodePoints(b), CodePoints(c))
    ensures Precedes(CodePoints(a), CodePoints(c))
  {
    hide LexLess, CodePoints, Precedes;
    LexIsPrecedes(CodePoints(a), CodePoints(b));
    LexIsPrecedes(CodePoints(b), CodePoints(c));
    LexIsPrecedes(CodePoints(a), CodePoints(c));
    LexTransitive(CodePoints(a), CodePoints(b), CodePoints(c));
  }

  lemma {:induction false} TokensAscend(ts: seq<Units>, i: nat, j: nat)
    requires SortedTokens(ts) && i < j < |ts|
    ensures Precedes(CodePoints(ts[i]), CodePoints(ts[j]))
    decreases j
  {
    hide Precedes, CodePoints, KeyLess;
    KeysPrecede(ts[j - 1], ts[j]);
    if i < j - 1 {
      TokensAscend(ts, i, j - 1);
      PrecedesTransitive(ts[i], ts[j - 1], ts[j]);
    }
  }

  lemma ListsAscend(d: Decision)
    ensures SortedDigests(d.evidenceHashes)
        <==> forall i, j | 0 <= i < j < |d.evidenceHashes| :: d.evidenceHashes[i] < d.evidenceHashes[j]
    ensures SortedTokens(d.reasonCodes) <==> Ascending(d.reasonCodes)
  {
    hide Precedes, CodePoints, KeyLess;
    var ds, ts := d.evidenceHashes, d.reasonCodes;
    if SortedDigests(ds) {
      forall i, j | 0 <= i < j < |ds| ensures ds[i] < ds[j] { DigestsAscend(ds, i, j); }
    }
    if SortedTokens(ts) {
      forall i, j | 0 <= i < j < |ts| ensures Precedes(CodePoints(ts[i]), CodePoints(ts[j])) { TokensAscend(ts, i, j); }
    }
    if Ascending(ts) {
      forall i | 0 < i < |ts| ensures KeyLess(ByByte, ts[i - 1], ts[i]) {
        KeysPrecede(ts[i - 1], ts[i]);
      }
    }
  }

  lemma DecisionExactly(k: Protocol, t: Task, p: Proposal, d: Decision)
    ensures VerifyDecision(k, t, p, d).Some?
        <==> LawfulTask(k, t) && LawfulProposal(k, t, p) && LawfulDecision(k, p, d)
    ensures VerifyDecision(k, t, p, d).Some? ==>
              VerifyDecision(k, t, p, d).value == DecisionHashes(k.hashTask(t), k.hashProposal(p), k.hashDecision(d))
  {
    hide SortedDigests, SortedTokens, Ascending;
    ListsAscend(d);
  }

  lemma GrantExactly(k: Protocol, t: Task, p: Proposal, d: Decision, g: Grant)
    ensures VerifyGrant(k, t, p, d, g).Some?
        <==> LawfulTask(k, t) && LawfulProposal(k, t, p) && LawfulDecision(k, p, d) && LawfulGrant(k, p, d, g)
    ensures VerifyGrant(k, t, p, d, g).Some? ==> VerifyGrant(k, t, p, d, g) == Some(k.hashGrant(g))
  {
    hide VerifyDecision, LawfulTask, LawfulProposal;
    DecisionExactly(k, t, p, d);
    if VerifyDecision(k, t, p, d).Some? { DecisionWindow(k, t, p, d); }
  }

  lemma DecisionWindow(k: Protocol, t: Task, p: Proposal, d: Decision)
    requires LawfulTask(k, t) && LawfulProposal(k, t, p) && LawfulDecision(k, p, d)
    ensures d.expiresAt <= LAST_SAFE
  {
  }

  lemma ReceiptExactly(k: Protocol, t: Task, p: Proposal, d: Decision, g: Grant, r: Receipt)
    requires VerifyGrant(k, t, p, d, g).Some?
    ensures VerifyChain(k, t, p, d, g, r).Some? <==> LawfulReceipt(k, p, g, r)
    ensures VerifyChain(k, t, p, d, g, r).Some? ==> VerifyChain(k, t, p, d, g, r) == Some(k.hashReceipt(r))
  {
    hide VerifyGrant;
    GrantExactly(k, t, p, d, g);
  }

  lemma {:induction false} ObservedInOrder(k: Protocol, r: Receipt, cs: seq<Reconciliation>, i: nat, j: nat)
    requires IsHistory(k, r, cs) && i < j < |cs|
    ensures cs[i].observedAt <= cs[j].observedAt && !IsTerminal(cs[i].outcome)
    decreases j
  {
    assert IsLink(k, r, cs, j);
    if i < j - 1 { ObservedInOrder(k, r, cs, i, j - 1); }
  }

  lemma HistoryIsLawful(k: Protocol, r: Receipt, cs: seq<Reconciliation>)
    requires |cs| <= 10_000 && IsHistory(k, r, cs)
    ensures LawfulHistory(k, r, cs)
  {
    forall i | 0 <= i < |cs| ensures LawfulLink(k, r, cs, i) {
      assert IsLink(k, r, cs, i);
      ObservedAfterCompletion(k, r, cs, i);
    }
    forall i, j | 0 <= i < j < |cs|
      ensures cs[i].reconciliationId != cs[j].reconciliationId && cs[i].observedAt <= cs[j].observedAt
      ensures cs[i].outcome == PartialEffect || cs[i].outcome == StillUnknown
    {
      ObservedInOrder(k, r, cs, i, j);
    }
  }

  lemma LawfulIsHistory(k: Protocol, r: Receipt, cs: seq<Reconciliation>)
    requires LawfulHistory(k, r, cs)
    ensures |cs| <= 10_000 && IsHistory(k, r, cs)
  {
    forall i | 0 <= i < |cs| ensures IsLink(k, r, cs, i) {
      assert LawfulLink(k, r, cs, i);
      if i > 0 { assert cs[i - 1].observedAt <= cs[i].observedAt; }
    }
  }

  lemma HistoryExactly(k: Protocol, r: Receipt, cs: seq<Reconciliation>)
    ensures |cs| <= 10_000 && IsHistory(k, r, cs) <==> LawfulHistory(k, r, cs)
  {
    hide IsHistory, LawfulHistory;
    if |cs| <= 10_000 && IsHistory(k, r, cs) { HistoryIsLawful(k, r, cs); }
    if LawfulHistory(k, r, cs) { LawfulIsHistory(k, r, cs); }
  }

  lemma LawfulIsValid(k: Protocol, t: Task, p: Proposal, d: Decision, g: Grant, r: Receipt)
    requires VerifyGrant(k, t, p, d, g).Some?
    ensures LawfulReceipt(k, p, g, r) ==> k.ValidReceipt(r)
  {
    hide VerifyGrant;
    GrantExactly(k, t, p, d, g);
  }

  /** What the checks of an append decide about a stored history. */
  lemma NextExactly(k: Protocol, r: Receipt, cs: seq<Reconciliation>, c: Reconciliation)
    requires IsHistory(k, r, cs) && k.ValidReceipt(r) && |cs| <= MAX_RECONCILIATION_RECORDS
    ensures LawfulHistory(k, r, cs + [c])
        <==> FreshIdentifier(cs, c) && |cs| < MAX_RECONCILIATION_RECORDS
             && VerifyReconciliation(k, r, LastOf(cs), c).Some?
    ensures LawfulHistory(k, r, cs + [c]) ==> c.sequence == |cs| + 1
    ensures VerifyReconciliation(k, r, LastOf(cs), c).Some? ==>
              k.ValidReconciliation(c) && VerifyReconciliation(k, r, LastOf(cs), c) == Some(k.hashReconciliation(c))
    ensures 1 <= c.sequence <= |cs| ==> k.ValidReconciliation(cs[c.sequence - 1])
  {
    hide LawfulHistory, IsHistory;
    HistoryExtends(k, r, cs, c);
    HistoryExactly(k, r, cs + [c]);
    LinksOf(k, r, cs, c);
  }

  lemma LinksOf(k: Protocol, r: Receipt, cs: seq<Reconciliation>, c: Reconciliation)
    requires IsHistory(k, r, cs)
    ensures LawfulHistory(k, r, cs + [c]) ==> c.sequence == |cs| + 1
    ensures 1 <= c.sequence <= |cs| ==> k.ValidReconciliation(cs[c.sequence - 1])
  {
    if LawfulHistory(k, r, cs + [c]) { assert LawfulLink(k, r, cs + [c], |cs|); }
    if 1 <= c.sequence <= |cs| { assert IsLink(k, r, cs, c.sequence - 1); }
  }

  /** The verifiers accept exactly the lawful bundles. */
  lemma AcceptsExactly(k: Protocol, b: Bundle)
    ensures Accepts(k, b) <==> IsLawful(k, b)
  {
    hide VerifyDecision, VerifyGrant, VerifyChain, IsHistory, LawfulHistory, LawfulReceipt, LawfulGrant, LawfulDecision;
    DecisionExactly(k, b.task, b.proposal, b.decision);
    if b.grant.Some? {
      GrantExactly(k, b.task, b.proposal, b.decision, b.grant.value);
      if b.receipt.Some? {
        if VerifyGrant(k, b.task, b.proposal, b.decision, b.grant.value).Some? {
          ReceiptExactly(k, b.task, b.proposal, b.decision, b.grant.value, b.receipt.value);
        }
        HistoryExactly(k, b.receipt.value, b.reconciliations);
      }
    }
  }

  /** What verification reports of a bundle: how far it got, and how it ended. */
  lemma ReportExactly(k: Protocol, b: Bundle)
    requires Accepts(k, b)
    ensures var v := ResultOf(k, b);
            v.task == k.hashTask(b.task) && v.proposal == k.hashProposal(b.proposal)
            && v.decision == k.hashDecision(b.decision)
            && (v.state.Decided? <==> b.grant.None?) && (v.grant.None? <==> b.grant.None?)
            && (v.state.Granted? <==> b.grant.Some? && b.receipt.None?) && (v.receipt.None? <==> b.receipt.None?)
            && (b.grant.Some? ==> v.grant == Some(k.hashGrant(b.grant.value)))
            && (b.receipt.Some? ==> v.receipt == Some(k.hashReceipt(b.receipt.value)))
            && (b.receipt.Some? && b.reconciliations == [] ==> v.state == Received(b.receipt.value.outcome))
            && |v.reconciliations| == |b.reconciliations|
            && (forall i | 0 <= i < |b.reconciliations| ::
                  v.reconciliations[i] == k.hashReconciliation(b.reconciliations[i]))
            && (b.reconciliations != [] ==>
                  v.state == Reconciled(b.reconciliations[|b.reconciliations| - 1].outcome))
  {
    hide VerifyDecision, VerifyGrant, VerifyChain, IsHistory;
  }
}
