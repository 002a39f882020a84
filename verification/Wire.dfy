/** How records travel: the member names of their JSON objects, the spelling of
    digests and outcomes, and the bytes that are hashed. */
module Wire {
  import opened Unicode
  import opened Json
  import opened StrictJson
  import opened Records
  import opened RecordJson
  import opened Pins

  // ---- Members ----

  /** The code units spell the name. */
  predicate Spells(units: Units, name: string) {
    |units| == |name| && forall i | 0 <= i < |name| :: units[i] == name[i] as int
  }

  /** The object has this member under this name. */
  ghost predicate Has(v: Value, name: string, member: Value) {
    v.Obj? && exists key :: key in v.members && Spells(key, name) && v.members[key] == member
  }

  /** A field stands under its name, and there are no other members. */
  lemma FieldStands(r: Record, i: nat, name: string, value: Value)
    requires i < |Names(r)| && i < |Values(r)| && Spells(Names(r)[i], name) && Values(r)[i] == value
    ensures Has(RecordValue(r), name, value)
  {
    hide Names, Values, Spells;
    NamesAreGood(r);
    FieldsAt(Names(r), Values(r));
  }

  lemma MemberCount(r: Record)
    ensures forall key | key in RecordValue(r).members :: key in Names(r)
  {
    hide Names, Values;
    NamesAreGood(r);
    FieldsAt(Names(r), Values(r));
  }

  lemma TaskMembers(t: Task)
    ensures var json := RecordValue(OfTask(t));
            Has(json, "version", Num(t.version))
            && Has(json, "commitment_id", Str(t.commitmentId))
            && Has(json, "principal", Str(t.principal))
            && Has(json, "objective_digest", DigestJson(t.objectiveDigest))
            && Has(json, "constraints_digest", DigestJson(t.constraintsDigest))
            && Has(json, "authority_scope_digest", DigestJson(t.authorityScopeDigest))
            && Has(json, "policy_epoch", Num(t.policyEpoch))
            && Has(json, "configuration_epoch", Num(t.configurationEpoch))
            && Has(json, "created_at_ms", Num(t.createdAt))
            && Has(json, "expires_at_ms", Num(t.expiresAt))
  {
    hide Has, RecordValue, Spells, Names, Values;
    var rec := OfTask(t);
    FirstNamesOfTask(t);
    LastNamesOfTask(t);
    ValuesOfTask(t);
    FieldStands(rec, 0, "version", Num(t.version));
    FieldStands(rec, 1, "commitment_id", Str(t.commitmentId));
    FieldStands(rec, 2, "principal", Str(t.principal));
    FieldStands(rec, 3, "objective_digest", DigestJson(t.objectiveDigest));
    FieldStands(rec, 4, "constraints_digest", DigestJson(t.constraintsDigest));
    FieldStands(rec, 5, "authority_scope_digest", DigestJson(t.authorityScopeDigest));
    FieldStands(rec, 6, "policy_epoch", Num(t.policyEpoch));
    FieldStands(rec, 7, "configuration_epoch", Num(t.configurationEpoch));
    FieldStands(rec, 8, "created_at_ms", Num(t.createdAt));
    FieldStands(rec, 9, "expires_at_ms", Num(t.expiresAt));
  }

  lemma ValuesOfTask(t: Task)
    ensures var values := Values(OfTask(t));
            |values| == 10
            && values[0] == Num(t.version)
            && values[1] == Str(t.commitmentId)
            && values[2] == Str(t.principal)
            && values[3] == DigestJson(t.objectiveDigest)
            && values[4] == DigestJson(t.constraintsDigest)
            && values[5] == DigestJson(t.authorityScopeDigest)
            && values[6] == Num(t.policyEpoch)
            && values[7] == Num(t.configurationEpoch)
            && values[8] == Num(t.createdAt)
            && values[9] == Num(t.expiresAt)
  {
    hide Ascii, DigestJson, Names;
  }

  lemma FirstNamesOfTask(t: Task)
    ensures var names := Names(OfTask(t));
            |names| == 10
            && Spells(names[0], "version")
            && Spells(names[1], "commitment_id")
            && Spells(names[2], "principal")
            && Spells(names[3], "objective_digest")
            && Spells(names[4], "constraints_digest")
  {
  }

  lemma LastNamesOfTask(t: Task)
    ensures var names := Names(OfTask(t));
            |names| == 10
            && Spells(names[5], "authority_scope_digest")
            && Spells(names[6], "policy_epoch")
            && Spells(names[7], "configuration_epoch")
            && Spells(names[8], "created_at_ms")
            && Spells(names[9], "expires_at_ms")
  {
  }

  lemma ProposalMembers(p: Proposal)
    ensures var json := RecordValue(OfProposal(p));
            Has(json, "version", Num(p.version))
            && Has(json, "proposal_id", Str(p.proposalId))
            && Has(json, "commitment_hash", DigestJson(p.commitmentHash))
            && Has(json, "effect_profile", Str(p.effectProfile))
            && Has(json, "operation", Str(p.operation))
            && Has(json, "target", Str(p.target))
            && Has(json, "arguments_digest", DigestJson(p.argumentsDigest))
            && Has(json, "expected_effect_digest", DigestJson(p.expectedEffectDigest))
            && Has(json, "pre_state_digest", DigestJson(p.preStateDigest))
            && Has(json, "resource_claim_digest", DigestJson(p.resourceClaimDigest))
            && Has(json, "created_at_ms", Num(p.createdAt))
            && Has(json, "expires_at_ms", Num(p.expiresAt))
  {
    hide Has, RecordValue, Spells, Names, Values;
    var rec := OfProposal(p);
    FirstNamesOfProposal(p);
    LastNamesOfProposal(p);
    ValuesOfProposal(p);
    FieldStands(rec, 0, "version", Num(p.version));
    FieldStands(rec, 1, "proposal_id", Str(p.proposalId));
    FieldStands(rec, 2, "commitment_hash", DigestJson(p.commitmentHash));
    FieldStands(rec, 3, "effect_profile", Str(p.effectProfile));
    FieldStands(rec, 4, "operation", Str(p.operation));
    FieldStands(rec, 5, "target", Str(p.target));
    FieldStands(rec, 6, "arguments_digest", DigestJson(p.argumentsDigest));
    FieldStands(rec, 7, "expected_effect_digest", DigestJson(p.expectedEffectDigest));
    FieldStands(rec, 8, "pre_state_digest", DigestJson(p.preStateDigest));
    FieldStands(rec, 9, "resource_claim_digest", DigestJson(p.resourceClaimDigest));
    FieldStands(rec, 10, "created_at_ms", Num(p.createdAt));
    FieldStands(rec, 11, "expires_at_ms", Num(p.expiresAt));
  }

  lemma ValuesOfProposal(p: Proposal)
    ensures var values := Values(OfProposal(p));
            |values| == 12
            && values[0] == Num(p.version)
            && values[1] == Str(p.proposalId)
            && values[2] == DigestJson(p.commitmentHash)
            && values[3] == Str(p.effectProfile)
            && values[4] == Str(p.operation)
            && values[5] == Str(p.target)
            && values[6] == DigestJson(p.argumentsDigest)
            && values[7] == DigestJson(p.expectedEffectDigest)
            && values[8] == DigestJson(p.preStateDigest)
            && values[9] == DigestJson(p.resourceClaimDigest)
            && values[10] == Num(p.createdAt)
            && values[11] == Num(p.expiresAt)
  {
    hide Ascii, DigestJson, Names;
  }

  lemma FirstNamesOfProposal(p: Proposal)
    ensures var names := Names(OfProposal(p));
            |names| == 12
            && Spells(names[0], "version")
            && Spells(names[1], "proposal_id")
            && Spells(names[2], "commitment_hash")
            && Spells(names[3], "effect_profile")
            && Spells(names[4], "operation")
            && Spells(names[5], "target")
  {
  }

  lemma LastNamesOfProposal(p: Proposal)
    ensures var names := Names(OfProposal(p));
            |names| == 12
            && Spells(names[6], "arguments_digest")
            && Spells(names[7], "expected_effect_digest")
            && Spells(names[8], "pre_state_digest")
            && Spells(names[9], "resource_claim_digest")
            && Spells(names[10], "created_at_ms")
            && Spells(names[11], "expires_at_ms")
  {
  }

  lemma DecisionMembers(d: Decision)
    ensures var json := RecordValue(OfDecision(d));
            Has(json, "version", Num(d.version))
            && Has(json, "decision_id", Str(d.decisionId))
            && Has(json, "proposal_hash", DigestJson(d.proposalHash))
            && Has(json, "evidence_hashes", Digests(d.evidenceHashes))
            && Has(json, "outcome", Str(DecisionOutcomeText(d.outcome)))
            && Has(json, "reason_codes", Strings(d.reasonCodes))
            && Has(json, "decided_at_ms", Num(d.decidedAt))
            && Has(json, "expires_at_ms", Num(d.expiresAt))
  {
    hide Has, RecordValue, Spells, Names, Values;
    var rec := OfDecision(d);
    FirstNamesOfDecision(d);
    LastNamesOfDecision(d);
    ValuesOfDecision(d);
    FieldStands(rec, 0, "version", Num(d.version));
    FieldStands(rec, 1, "decision_id", Str(d.decisionId));
    FieldStands(rec, 2, "proposal_hash", DigestJson(d.proposalHash));
    FieldStands(rec, 3, "evidence_hashes", Digests(d.evidenceHashes));
    FieldStands(rec, 4, "outcome", Str(DecisionOutcomeText(d.outcome)));
    FieldStands(rec, 5, "reason_codes", Strings(d.reasonCodes));
    FieldStands(rec, 6, "decided_at_ms", Num(d.decidedAt));
    FieldStands(rec, 7, "expires_at_ms", Num(d.expiresAt));
  }

  lemma ValuesOfDecision(d: Decision)
    ensures var values := Values(OfDecision(d));
            |values| == 8
            && values[0] == Num(d.version)
            && values[1] == Str(d.decisionId)
            && values[2] == DigestJson(d.proposalHash)
            && values[3] == Digests(d.evidenceHashes)
            && values[4] == Str(DecisionOutcomeText(d.outcome))
            && values[5] == Strings(d.reasonCodes)
            && values[6] == Num(d.decidedAt)
            && values[7] == Num(d.expiresAt)
  {
    hide Ascii, DigestJson, Names;
  }

  lemma FirstNamesOfDecision(d: Decision)
    ensures var names := Names(OfDecision(d));
            |names| == 8
            && Spells(names[0], "version")
            && Spells(names[1], "decision_id")
            && Spells(names[2], "proposal_hash")
            && Spells(names[3], "evidence_hashes")
  {
  }

  lemma LastNamesOfDecision(d: Decision)
    ensures var names := Names(OfDecision(d));
            |names| == 8
            && Spells(names[4], "outcome")
            && Spells(names[5], "reason_codes")
            && Spells(names[6], "decided_at_ms")
            && Spells(names[7], "expires_at_ms")
  {
  }

  lemma GrantMembers(g: Grant)
    ensures var json := RecordValue(OfGrant(g));
            Has(json, "version", Num(g.version))
            && Has(json, "grant_id", Str(g.grantId))
            && Has(json, "proposal_hash", DigestJson(g.proposalHash))
            && Has(json, "decision_hash", DigestJson(g.decisionHash))
            && Has(json, "audience", Str(g.audience))
            && Has(json, "not_before_ms", Num(g.notBefore))
            && Has(json, "expires_at_ms", Num(g.expiresAt))
            && Has(json, "uses", Num(g.uses))
            && Has(json, "nonce", Str(g.nonce))
  {
    hide Has, RecordValue, Spells, Names, Values;
    var rec := OfGrant(g);
    FirstNamesOfGrant(g);
    LastNamesOfGrant(g);
    ValuesOfGrant(g);
    FieldStands(rec, 0, "version", Num(g.version));
    FieldStands(rec, 1, "grant_id", Str(g.grantId));
    FieldStands(rec, 2, "proposal_hash", DigestJson(g.proposalHash));
    FieldStands(rec, 3, "decision_hash", DigestJson(g.decisionHash));
    FieldStands(rec, 4, "audience", Str(g.audience));
    FieldStands(rec, 5, "not_before_ms", Num(g.notBefore));
    FieldStands(rec, 6, "expires_at_ms", Num(g.expiresAt));
    FieldStands(rec, 7, "uses", Num(g.uses));
    FieldStands(rec, 8, "nonce", Str(g.nonce));
  }

  lemma ValuesOfGrant(g: Grant)
    ensures var values := Values(OfGrant(g));
            |values| == 9
            && values[0] == Num(g.version)
            && values[1] == Str(g.grantId)
            && values[2] == DigestJson(g.proposalHash)
            && values[3] == DigestJson(g.decisionHash)
            && values[4] == Str(g.audience)
            && values[5] == Num(g.notBefore)
            && values[6] == Num(g.expiresAt)
            && values[7] == Num(g.uses)
            && values[8] == Str(g.nonce)
  {
    hide Ascii, DigestJson, Names;
  }

  lemma FirstNamesOfGrant(g: Grant)
    ensures var names := Names(OfGrant(g));
            |names| == 9
            && Spells(names[0], "version")
            && Spells(names[1], "grant_id")
            && Spells(names[2], "proposal_hash")
            && Spells(names[3], "decision_hash")
            && Spells(names[4], "audience")
  {
  }

  lemma LastNamesOfGrant(g: Grant)
    ensures var names := Names(OfGrant(g));
            |names| == 9
            && Spells(names[5], "not_before_ms")
            && Spells(names[6], "expires_at_ms")
            && Spells(names[7], "uses")
            && Spells(names[8], "nonce")
  {
  }

  lemma ReceiptMembers(r: Receipt)
    ensures var json := RecordValue(OfReceipt(r));
            Has(json, "version", Num(r.version))
            && Has(json, "receipt_id", Str(r.receiptId))
            && Has(json, "proposal_hash", DigestJson(r.proposalHash))
            && Has(json, "grant_hash", DigestJson(r.grantHash))
            && Has(json, "attempt_id", Str(r.attemptId))
            && Has(json, "claimed_at_ms", Num(r.claimedAt))
            && Has(json, "dispatched_at_ms", OptionalTime(r.dispatchedAt))
            && Has(json, "completed_at_ms", Num(r.completedAt))
            && Has(json, "outcome", Str(ReceiptOutcomeText(r.outcome)))
            && Has(json, "observation_digest", DigestJson(r.observationDigest))
  {
    hide Has, RecordValue, Spells, Names, Values;
    var rec := OfReceipt(r);
    FirstNamesOfReceipt(r);
    LastNamesOfReceipt(r);
    ValuesOfReceipt(r);
    FieldStands(rec, 0, "version", Num(r.version));
    FieldStands(rec, 1, "receipt_id", Str(r.receiptId));
    FieldStands(rec, 2, "proposal_hash", DigestJson(r.proposalHash));
    FieldStands(rec, 3, "grant_hash", DigestJson(r.grantHash));
    FieldStands(rec, 4, "attempt_id", Str(r.attemptId));
    FieldStands(rec, 5, "claimed_at_ms", Num(r.claimedAt));
    FieldStands(rec, 6, "dispatched_at_ms", OptionalTime(r.dispatchedAt));
    FieldStands(rec, 7, "completed_at_ms", Num(r.completedAt));
    FieldStands(rec, 8, "outcome", Str(ReceiptOutcomeText(r.outcome)));
    FieldStands(rec, 9, "observation_digest", DigestJson(r.observationDigest));
  }

  lemma ValuesOfReceipt(r: Receipt)
    ensures var values := Values(OfReceipt(r));
            |values| == 10
            && values[0] == Num(r.version)
            && values[1] == Str(r.receiptId)
            && values[2] == DigestJson(r.proposalHash)
            && values[3] == DigestJson(r.grantHash)
            && values[4] == Str(r.attemptId)
            && values[5] == Num(r.claimedAt)
            && values[6] == OptionalTime(r.dispatchedAt)
            && values[7] == Num(r.completedAt)
            && values[8] == Str(ReceiptOutcomeText(r.outcome))
            && values[9] == DigestJson(r.observationDigest)
  {
    hide Ascii, DigestJson, Names;
  }

  lemma FirstNamesOfReceipt(r: Receipt)
    ensures var names := Names(OfReceipt(r));
            |names| == 10
            && Spells(names[0], "version")
            && Spells(names[1], "receipt_id")
            && Spells(names[2], "proposal_hash")
            && Spells(names[3], "grant_hash")
            && Spells(names[4], "attempt_id")
  {
  }

  lemma LastNamesOfReceipt(r: Receipt)
    ensures var names := Names(OfReceipt(r));
            |names| == 10
            && Spells(names[5], "claimed_at_ms")
            && Spells(names[6], "dispatched_at_ms")
            && Spells(names[7], "completed_at_ms")
            && Spells(names[8], "outcome")
            && Spells(names[9], "observation_digest")
  {
  }

  lemma ReconciliationMembers(c: Reconciliation)
    ensures var json := RecordValue(OfReconciliation(c));
            Has(json, "version", Num(c.version))
            && Has(json, "reconciliation_id", Str(c.reconciliationId))
            && Has(json, "receipt_hash", DigestJson(c.receiptHash))
            && Has(json, "sequence", Num(c.sequence))
            && Has(json, "parent_reconciliation_hash", OptionalDigest(c.parentHash))
            && Has(json, "observed_at_ms", Num(c.observedAt))
            && Has(json, "outcome", Str(ReconciliationOutcomeText(c.outcome)))
            && Has(json, "evidence_digest", DigestJson(c.evidenceDigest))
  {
    hide Has, RecordValue, Spells, Names, Values;
    var rec := OfReconciliation(c);
    FirstNamesOfReconciliation(c);
    LastNamesOfReconciliation(c);
    ValuesOfReconciliation(c);
    FieldStands(rec, 0, "version", Num(c.version));
    FieldStands(rec, 1, "reconciliation_id", Str(c.reconciliationId));
    FieldStands(rec, 2, "receipt_hash", DigestJson(c.receiptHash));
    FieldStands(rec, 3, "sequence", Num(c.sequence));
    FieldStands(rec, 4, "parent_reconciliation_hash", OptionalDigest(c.parentHash));
    FieldStands(rec, 5, "observed_at_ms", Num(c.observedAt));
    FieldStands(rec, 6, "outcome", Str(ReconciliationOutcomeText(c.outcome)));
    FieldStands(rec, 7, "evidence_digest", DigestJson(c.evidenceDigest));
  }

  lemma ValuesOfReconciliation(c: Reconciliation)
    ensures var values := Values(OfReconciliation(c));
            |values| == 8
            && values[0] == Num(c.version)
            && values[1] == Str(c.reconciliationId)
            && values[2] == DigestJson(c.receiptHash)
            && values[3] == Num(c.sequence)
            && values[4] == OptionalDigest(c.parentHash)
            && values[5] == Num(c.observedAt)
            && values[6] == Str(ReconciliationOutcomeText(c.outcome))
            && values[7] == DigestJson(c.evidenceDigest)
  {
    hide Ascii, DigestJson, Names;
  }

  lemma FirstNamesOfReconciliation(c: Reconciliation)
    ensures var names := Names(OfReconciliation(c));
            |names| == 8
            && Spells(names[0], "version")
            && Spells(names[1], "reconciliation_id")
            && Spells(names[2], "receipt_hash")
            && Spells(names[3], "sequence")
  {
  }

  lemma LastNamesOfReconciliation(c: Reconciliation)
    ensures var names := Names(OfReconciliation(c));
            |names| == 8
            && Spells(names[4], "parent_reconciliation_hash")
            && Spells(names[5], "observed_at_ms")
            && Spells(names[6], "outcome")
            && Spells(names[7], "evidence_digest")
  {
  }

  // ---- Member values ----

  lemma OutcomeTexts()
    ensures Spells(DecisionOutcomeText(Allow), "allow") && Spells(DecisionOutcomeText(Deny), "deny")
    ensures Spells(DecisionOutcomeText(Review), "review")
    ensures Spells(ReceiptOutcomeText(NotDispatched), "not_dispatched")
    ensures Spells(ReceiptOutcomeText(Succeeded), "succeeded") && Spells(ReceiptOutcomeText(Failed), "failed")
    ensures Spells(ReceiptOutcomeText(Unknown), "unknown")
    ensures Spells(ReconciliationOutcomeText(EffectConfirmed), "effect_confirmed")
    ensures Spells(ReconciliationOutcomeText(NoEffectConfirmed), "no_effect_confirmed")
    ensures Spells(ReconciliationOutcomeText(PartialEffect), "partial_effect")
    ensures Spells(ReconciliationOutcomeText(StillUnknown), "still_unknown")
    ensures Spells(ReconciliationOutcomeText(Compensated), "compensated")
  {
  }

  /** An absent time or parent is null, and lists keep their order. */
  lemma PartsAndLists(t: Option<u64>, d: Option<Digest>, ds: seq<Digest>, ts: seq<Units>)
    ensures OptionalTime(t) == match t case None => Null case Some(at) => Num(at)
    ensures OptionalDigest(d) == match d case None => Null case Some(x) => Str(DigestText(x))
    ensures Digests(ds).Arr? && |Digests(ds).items| == |ds|
    ensures forall i | 0 <= i < |ds| :: Digests(ds).items[i] == Str(DigestText(ds[i]))
    ensures Strings(ts).Arr? && |Strings(ts).items| == |ts|
    ensures forall i | 0 <= i < |ts| :: Strings(ts).items[i] == Str(ts[i])
  {
    hide DigestText;
  }

  /** The number that hexadecimal digits denote, most significant first. */
  function HexNumber(s: Units): int {
    if s == [] then 0
    else
      var digit := HexValue(s[|s| - 1]);
      HexNumber(s[..|s| - 1]) * 16 + if digit.Some? then digit.value else 0
  }

  predicate AreLowerHex(s: Units) {
    forall i | 0 <= i < |s| :: '0' as int <= s[i] <= '9' as int || 'a' as int <= s[i] <= 'f' as int
  }

  lemma {:induction false} HexReadsBack(n: nat, width: nat)
    requires n < Pow16(width)
    ensures AreLowerHex(Hex(n, width)) && HexNumber(Hex(n, width)) == n
  {
    if width > 0 {
      HexReadsBack(n / 16, width - 1);
      var head, last := Hex(n / 16, width - 1), HexDigit(n % 16);
      assert (head + [last])[..width - 1] == head;
      assert HexValue(last) == Some(n % 16);
    }
  }

  /** A digest is written as its algorithm and 64 lower-case hexadecimal digits. */
  lemma DigestSpelling(d: Digest)
    ensures var text := DigestText(d);
            |text| == 71 && Spells(text[..7], "sha256:")
            && AreLowerHex(text[7..]) && HexNumber(text[7..]) == d
  {
    HexReadsBack(d, 64);
    assert DigestText(d)[7..] == Hex(d, 64) && DigestText(d)[..7] == DIGEST_PREFIX;
  }

  // ---- Preimages ----

  /** The last part of the domain of each kind of record. */
  function KindName(r: Record): string {
    match r
    case OfTask(_) => "task-commitment"
    case OfProposal(_) => "effect-proposal"
    case OfDecision(_) => "authorization-decision"
    case OfGrant(_) => "execution-grant"
    case OfReceipt(_) => "effect-receipt"
    case OfReconciliation(_) => "reconciliation-record"
  }

  /** What is hashed is the domain of the kind, a zero byte and the UTF-8 form of
      the canonical text of the record. */
  lemma PreimageSpelling(k: Protocol, r: Record)
    requires ScalarRules(k) && ValidRecord(k, r)
    ensures exists domain, name: Units ::
              Spells(domain, "effect-transaction/0.1/") && Spells(name, KindName(r))
              && Preimage(r) == domain + name + [0] + Utf8Units(Encode(RecordValue(r)))
  {
    hide RecordValue, RustEncode, Encode, ValidRecord, ScalarRules, Utf8Units;
    ValidIsCanonicalizable(k, r);
    EncodersAgree(RecordValue(r));
    var n := |KindName(r)|;
    DomainSpelling(r);
    var domain: Units, name: Units := Domain(r)[..23], Domain(r)[23..];
    assert Domain(r) == domain + name;
  }

  lemma DomainSpelling(r: Record)
    ensures |Domain(r)| == 23 + |KindName(r)|
    ensures Spells(Domain(r)[..23], "effect-transaction/0.1/") && Spells(Domain(r)[23..], KindName(r))
  {
  }
}
