/** The chain rules: which records may follow which, as Rust verifies them. */
module Verifier {
  import opened Unicode
  import opened Json
  import opened Records

  datatype DecisionHashes = DecisionHashes(task: Digest, proposal: Digest, decision: Digest)

  datatype State =
    | Decided | Granted
    | Received(outcome: ReceiptOutcome)
    | Reconciled(result: ReconciliationOutcome)

  datatype Verified = Verified(
    task: Digest, proposal: Digest, decision: Digest, grant: Option<Digest>,
    receipt: Option<Digest>, reconciliations: seq<Digest>, state: State)

  // ---- Pairwise rules ----

  function VerifyDecision(k: Protocol, t: Task, p: Proposal, d: Decision): Option<DecisionHashes> {
    if !k.ValidTask(t) || p.commitmentHash != k.hashTask(t) then None
    else if p.createdAt < t.createdAt || p.expiresAt > t.expiresAt then None
    else if !k.ValidProposal(p) || d.proposalHash != k.hashProposal(p) then None
    else if d.decidedAt < p.createdAt || d.expiresAt > p.expiresAt then None
    else if !k.ValidDecision(d) then None
    else Some(DecisionHashes(k.hashTask(t), k.hashProposal(p), k.hashDecision(d)))
  }

  /** `verify_grant`: the hash of a grant the decision supports. */
  function VerifyGrant(k: Protocol, t: Task, p: Proposal, d: Decision, g: Grant): Option<Digest> {
    match VerifyDecision(k, t, p, d)
    case None => None
    case Some(v) =>
      if !d.outcome.Allow? then None
      else if g.proposalHash != v.proposal || g.decisionHash != v.decision then None
      else if g.notBefore < d.decidedAt || g.expiresAt > d.expiresAt then None
      else if !k.ValidGrant(g) then None
      else Some(k.hashGrant(g))
  }

  /** `verify_chain`: the hash of a receipt for the grant's single use. */
  function VerifyChain(k: Protocol, t: Task, p: Proposal, d: Decision, g: Grant, r: Receipt): Option<Digest> {
    match VerifyGrant(k, t, p, d, g)
    case None => None
    case Some(grantHash) =>
      if r.proposalHash != k.hashProposal(p) || r.grantHash != grantHash then None
      else if r.claimedAt < g.notBefore || r.claimedAt >= g.expiresAt then None
      else if !k.ValidReceipt(r) then None
      else Some(k.hashReceipt(r))
  }

  function SaturatingSuccessor(n: u64): u64 { if n == U64_MAX then n else n + 1 }

  function VerifyReconciliation(k: Protocol, r: Receipt, previous: Option<Reconciliation>, c: Reconciliation)
    : Option<Digest>
  {
    if !r.outcome.Unknown? || !k.ValidReceipt(r) || c.receiptHash != k.hashReceipt(r) then None
    else if c.observedAt < r.completedAt then None
    else
      var follows := match previous
        case None => c.sequence == 1 && c.parentHash.None?
        case Some(parent) =>
          !IsTerminal(parent.outcome) && k.ValidReconciliation(parent)
          && c.sequence == SaturatingSuccessor(parent.sequence)
          && c.parentHash == Some(k.hashReconciliation(parent))
          && c.receiptHash == parent.receiptHash && c.observedAt >= parent.observedAt;
      if follows && k.ValidReconciliation(c) then Some(k.hashReconciliation(c)) else None
  }

  // ---- The meaning of a history ----

  /** A reconciliation history of a receipt, record by record: contiguous from
      sequence 1, parent-linked, in time order, open until its last record. */
  ghost predicate IsHistory(k: Protocol, r: Receipt, cs: seq<Reconciliation>) {
    (cs != [] ==> r.outcome.Unknown?)
    && (forall i | 0 <= i < |cs| :: IsLink(k, r, cs, i))
    && (forall i, j | 0 <= i < j < |cs| :: cs[i].reconciliationId != cs[j].reconciliationId)
  }

  ghost predicate IsLink(k: Protocol, r: Receipt, cs: seq<Reconciliation>, i: nat)
    requires i < |cs|
  {
    k.ValidReconciliation(cs[i])
    && cs[i].receiptHash == k.hashReceipt(r)
    && cs[i].sequence == i + 1
    && cs[i].parentHash == (if i == 0 then None else Some(k.hashReconciliation(cs[i - 1])))
    && (i == 0 ==> cs[i].observedAt >= r.completedAt)
    && (i > 0 ==> cs[i].observedAt >= cs[i - 1].observedAt && !IsTerminal(cs[i - 1].outcome))
  }

  ghost predicate Accepts(k: Protocol, b: Bundle) {
    VerifyDecision(k, b.task, b.proposal, b.decision).Some?
    && (b.grant.None? ==> b.receipt.None?)
    && (b.receipt.None? ==> b.reconciliations == [])
    && (b.grant.Some? ==> VerifyGrant(k, b.task, b.proposal, b.decision, b.grant.value).Some?)
    && (b.receipt.Some? ==>
          VerifyChain(k, b.task, b.proposal, b.decision, b.grant.value, b.receipt.value).Some?
          && |b.reconciliations| <= MAX_RECONCILIATION_RECORDS
          && IsHistory(k, b.receipt.value, b.reconciliations))
  }

  function HistoryHashes(k: Protocol, cs: seq<Reconciliation>): seq<Digest> {
    seq<Digest>(|cs|, i requires 0 <= i < |cs| => k.hashReconciliation(cs[i]))
  }

  function StateOf(b: Bundle): State {
    if b.reconciliations != [] then Reconciled(b.reconciliations[|b.reconciliations| - 1].outcome)
    else if b.receipt.Some? then Received(b.receipt.value.outcome)
    else if b.grant.Some? then Granted
    else Decided
  }

  function ResultOf(k: Protocol, b: Bundle): Verified {
    Verified(k.hashTask(b.task), k.hashProposal(b.proposal), k.hashDecision(b.decision),
             if b.grant.Some? then Some(k.hashGrant(b.grant.value)) else None,
             if b.receipt.Some? then Some(k.hashReceipt(b.receipt.value)) else None,
             HistoryHashes(k, b.reconciliations), StateOf(b))
  }

  // ---- Histories grow one verified link at a time ----

  function LastOf(cs: seq<Reconciliation>): Option<Reconciliation> {
    if cs == [] then None else Some(cs[|cs| - 1])
  }

  ghost predicate FreshIdentifier(cs: seq<Reconciliation>, c: Reconciliation) {
    forall i | 0 <= i < |cs| :: cs[i].reconciliationId != c.reconciliationId
  }

  /** The pairwise rule with a fresh identifier is exactly what extends a history. */
  lemma HistoryExtends(k: Protocol, r: Receipt, cs: seq<Reconciliation>, c: Reconciliation)
    requires IsHistory(k, r, cs) && |cs| < U64_MAX && k.ValidReceipt(r)
    ensures IsHistory(k, r, cs + [c])
        <==> FreshIdentifier(cs, c) && VerifyReconciliation(k, r, LastOf(cs), c).Some?
  {
    var all, n := cs + [c], |cs|;
    assert forall i | 0 <= i < n :: all[i] == cs[i];
    if n > 0 {
      assert IsLink(k, r, cs, n - 1);
      if 1 < n { assert IsLink(k, r, cs, 0); }
    }
    if IsHistory(k, r, all) {
      assert IsLink(k, r, all, n);
      assert IsLink(k, r, all, 0);
      ObservedAfterCompletion(k, r, all, n);
    }
    if FreshIdentifier(cs, c) && VerifyReconciliation(k, r, LastOf(cs), c).Some? {
      forall i | 0 <= i < |all| ensures IsLink(k, r, all, i) {
        if i < n { assert IsLink(k, r, cs, i); }
      }
    }
  }

  /** Every observation is no earlier than the receipt's completion. */
  lemma {:induction false} ObservedAfterCompletion(k: Protocol, r: Receipt, cs: seq<Reconciliation>, i: nat)
    requires i < |cs| && forall j | 0 <= j < |cs| :: IsLink(k, r, cs, j)
    ensures cs[i].observedAt >= r.completedAt
  {
    assert IsLink(k, r, cs, i);
    if i > 0 { ObservedAfterCompletion(k, r, cs, i - 1); }
  }

  lemma HistoryPrefix(k: Protocol, r: Receipt, cs: seq<Reconciliation>, n: nat)
    requires IsHistory(k, r, cs) && n <= |cs|
    ensures IsHistory(k, r, cs[..n])
  {
    forall i | 0 <= i < n ensures IsLink(k, r, cs[..n], i) {
      assert IsLink(k, r, cs, i);
    }
  }

  // ---- `verify_transaction`, with its loop over `previous` and `identifiers` ----

  method VerifyTransaction(k: Protocol, b: Bundle) returns (v: Option<Verified>)
    ensures v.Some? <==> Accepts(k, b)
    ensures v.Some? ==> v.value == ResultOf(k, b)
  {
    if |b.reconciliations| > MAX_RECONCILIATION_RECORDS {
      return None;
    }
    var decided := VerifyDecision(k, b.task, b.proposal, b.decision);
    if decided.None? {
      return None;
    }
    var h := decided.value;
    if b.grant.None? {
      if b.receipt.Some? || b.reconciliations != [] {
        return None;
      }
      return Some(Verified(h.task, h.proposal, h.decision, None, None, [], Decided));
    }
    var grantHash := VerifyGrant(k, b.task, b.proposal, b.decision, b.grant.value);
    if grantHash.None? {
      return None;
    }
    if b.receipt.None? {
      if b.reconciliations != [] {
        return None;
      }
      return Some(Verified(h.task, h.proposal, h.decision, grantHash, None, [], Granted));
    }
    var receipt := b.receipt.value;
    var receiptHash := VerifyChain(k, b.task, b.proposal, b.decision, b.grant.value, receipt);
    if receiptHash.None? {
      return None;
    }
    var hashes := VerifyRecords(k, receipt, b.reconciliations);
    if hashes.None? {
      return None;
    }
    return Some(Verified(h.task, h.proposal, h.decision, grantHash, receiptHash, hashes.value, StateOf(b)));
  }

  method VerifyRecords(k: Protocol, receipt: Receipt, records: seq<Reconciliation>) returns (r: Option<seq<Digest>>)
    requires k.ValidReceipt(receipt) && |records| <= MAX_RECONCILIATION_RECORDS
    ensures r.Some? <==> IsHistory(k, receipt, records)
    ensures r.Some? ==> r.value == HistoryHashes(k, records)
  {
    var hashes: seq<Digest> := [];
    var previous: Option<Reconciliation> := None;
    var identifiers: set<Units> := {};
    var index := 0;
    while index < |records|
      invariant index <= |records|
      invariant IsHistory(k, receipt, records[..index])
      invariant previous == LastOf(records[..index])
      invariant forall id :: id in identifiers <==> exists i :: 0 <= i < index && records[i].reconciliationId == id
      invariant hashes == HistoryHashes(k, records[..index])
    {
      var record := records[index];
      assert records[..index + 1] == records[..index] + [record];
      HistoryExtends(k, receipt, records[..index], record);
      assert FreshIdentifier(records[..index], record) <==> record.reconciliationId !in identifiers;
      if record.reconciliationId in identifiers {
        RejectPrefix(k, receipt, records, index + 1);
        return None;
      }
      identifiers := identifiers + {record.reconciliationId};
      var hash := VerifyReconciliation(k, receipt, previous, record);
      if hash.None? {
        RejectPrefix(k, receipt, records, index + 1);
        return None;
      }
      hashes := hashes + [hash.value];
      previous := Some(record);
      index := index + 1;
    }
    assert records[..index] == records;
    return Some(hashes);
  }

  lemma RejectPrefix(k: Protocol, r: Receipt, cs: seq<Reconciliation>, n: nat)
    requires n <= |cs| && !IsHistory(k, r, cs[..n])
    ensures !IsHistory(k, r, cs)
  {
    if IsHistory(k, r, cs) { HistoryPrefix(k, r, cs, n); }
  }
}
