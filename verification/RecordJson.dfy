/** Records as JSON values, and the domain-separated preimages of their hashes. */
module RecordJson {
  import opened Unicode
  import opened Json
  import opened Budget
  import opened RoundTrip
  import opened Records

  // ---- Objects with a fixed list of fields ----

  function Fields(names: seq<Units>, values: seq<Value>): map<Units, Value>
  {
    if names == [] || values == [] then map[] else Fields(names[1..], values[1..])[names[0] := values[0]]
  }

  lemma {:induction false} FieldsAt(names: seq<Units>, values: seq<Value>)
    requires |names| == |values| && Distinct(names)
    ensures forall k :: k in Fields(names, values) <==> k in names
    ensures forall i | 0 <= i < |names| :: Fields(names, values)[names[i]] == values[i]
  {
    if names != [] {
      var rest, vals := names[1..], values[1..];
      FieldsAt(rest, vals);
      forall i | 0 <= i < |names|
        ensures names[i] in Fields(names, values) && Fields(names, values)[names[i]] == values[i]
      {
        if i > 0 { assert names[i] == rest[i - 1] && values[i] == vals[i - 1]; }
      }
      assert names == [names[0]] + rest;
    }
  }

  /** With distinct names the fields can be read back. */
  lemma FieldsInjective(names: seq<Units>, a: seq<Value>, b: seq<Value>)
    requires |names| == |a| == |b| && Distinct(names) && Fields(names, a) == Fields(names, b)
    ensures a == b
  {
    FieldsAt(names, a);
    FieldsAt(names, b);
  }

  ghost function Total(values: seq<Value>): nat {
    if values == [] then 0 else Count(values[0]) + Total(values[1..])
  }

  lemma {:induction false} FieldsCount(names: seq<Units>, values: seq<Value>)
    requires |names| == |values| && Distinct(names)
    ensures Count(Obj(Fields(names, values))) == 1 + Total(values)
  {
    if names == [] {
      assert CountMembers(Obj(map[]), {}) == 0;
    } else {
      FieldsCount(names[1..], values[1..]);
      FieldsAt(names[1..], values[1..]);
      forall i | 0 <= i < |names| - 1 ensures names[1..][i] != names[0] {
        assert names[1..][i] == names[i + 1];
      }
      CountInsert(Fields(names[1..], values[1..]), names[0], values[0]);
    }
  }

  lemma {:induction false} TotalConcat(a: seq<Value>, b: seq<Value>)
    ensures Total(a + b) == Total(a) + Total(b)
  {
    if a == [] {
      assert a + b == b;
    } else {
      TotalConcat(a[1..], b);
      assert (a + b)[1..] == a[1..] + b;
    }
  }

  lemma {:induction false} ArrayCount(items: seq<Value>)
    ensures Count(Arr(items)) == 1 + Total(items)
  {
    if items != [] {
      ArrayCount(items[1..]);
      assert items == [items[0]] + items[1..];
      CountCons(items[0], items[1..]);
    }
  }

  /** At most `per` nodes in each item. */
  lemma {:induction false} TotalBound(items: seq<Value>, per: nat)
    requires forall i | 0 <= i < |items| :: Count(items[i]) <= per
    ensures Total(items) <= per * |items|
  {
    if items != [] {
      TotalBound(items[1..], per);
      assert per * |items| == per * (|items| - 1) + per;
    }
  }

  ghost predicate IsSmall(v: Value, depth: nat) { Encodable(v) && FitsDepth(v, depth) }

  /** A record whose field values are encodable and shallow is so itself. */
  lemma FieldsSmall(names: seq<Units>, values: seq<Value>, depth: nat)
    requires |names| == |values| && Distinct(names)
    requires forall i | 0 <= i < |names| :: IsScalarString(names[i]) && IsSmall(values[i], depth)
    ensures IsSmall(Obj(Fields(names, values)), depth + 1)
  {
    FieldsAt(names, values);
    var m := Fields(names, values);
    forall k | k in m ensures IsScalarString(k) && IsSmall(m[k], depth) {
      var i :| 0 <= i < |names| && names[i] == k;
    }
  }

  // ---- Field values ----

  function Hex(n: nat, width: nat): (r: Units)
    ensures |r| == width
    ensures IsAscii(r)
  {
    if width == 0 then [] else Hex(n / 16, width - 1) + [HexDigit(n % 16)]
  }

  lemma {:induction false} HexInjective(n: nat, m: nat, width: nat)
    requires n < Pow16(width) && m < Pow16(width) && Hex(n, width) == Hex(m, width)
    ensures n == m
  {
    if width > 0 {
      var a, b := Hex(n / 16, width - 1), Hex(m / 16, width - 1);
      assert a == Hex(n, width)[..width - 1] && b == Hex(m, width)[..width - 1];
      assert HexDigit(n % 16) == Hex(n, width)[width - 1] == HexDigit(m % 16);
      HexInjective(n / 16, m / 16, width - 1);
    }
  }

  const DIGEST_PREFIX: Units := Ascii("sha256:")

  function DigestText(d: Digest): (r: Units)
    ensures |r| == 71 && IsAscii(r)
  {
    DIGEST_PREFIX + Hex(d, 64)
  }

  lemma DigestTextInjective(a: Digest, b: Digest)
    requires DigestText(a) == DigestText(b)
    ensures a == b
  {
    assert DigestText(a)[7..] == Hex(a, 64) && DigestText(b)[7..] == Hex(b, 64);
    HexInjective(a, b, 64);
  }

  function DigestJson(d: Digest): Value { Str(DigestText(d)) }

  function OptionalDigest(d: Option<Digest>): Value { if d.None? then Null else DigestJson(d.value) }

  function OptionalTime(t: Option<u64>): Value { if t.None? then Null else Num(t.value) }

  function DecisionOutcomeText(o: DecisionOutcome): Units {
    match o case Allow => Ascii("allow") case Deny => Ascii("deny") case Review => Ascii("review")
  }

  function ReceiptOutcomeText(o: ReceiptOutcome): Units {
    match o
    case NotDispatched => Ascii("not_dispatched")
    case Succeeded => Ascii("succeeded")
    case Failed => Ascii("failed")
    case Unknown => Ascii("unknown")
  }

  function ReconciliationOutcomeText(o: ReconciliationOutcome): Units {
    match o
    case EffectConfirmed => Ascii("effect_confirmed")
    case NoEffectConfirmed => Ascii("no_effect_confirmed")
    case PartialEffect => Ascii("partial_effect")
    case StillUnknown => Ascii("still_unknown")
    case Compensated => Ascii("compensated")
  }

  function Digests(ds: seq<Digest>): Value {
    Arr(seq(|ds|, i requires 0 <= i < |ds| => DigestJson(ds[i])))
  }

  function Strings(ts: seq<Units>): Value {
    Arr(seq(|ts|, i requires 0 <= i < |ts| => Str(ts[i])))
  }

  // ---- The records ----

  function TaskFields(): (names: seq<Units>)
    ensures |names| == 10
  {
    [Ascii("version"), Ascii("commitment_id"), Ascii("principal"), Ascii("objective_digest"),
     Ascii("constraints_digest"), Ascii("authority_scope_digest"), Ascii("policy_epoch"),
     Ascii("configuration_epoch"), Ascii("created_at_ms"), Ascii("expires_at_ms")]
  }

  function ProposalFields(): (names: seq<Units>)
    ensures |names| == 12
  {
    [Ascii("version"), Ascii("proposal_id"), Ascii("commitment_hash"), Ascii("effect_profile"),
     Ascii("operation"), Ascii("target"), Ascii("arguments_digest"), Ascii("expected_effect_digest"),
     Ascii("pre_state_digest"), Ascii("resource_claim_digest"), Ascii("created_at_ms"), Ascii("expires_at_ms")]
  }

  function DecisionFields(): (names: seq<Units>)
    ensures |names| == 8
  {
    [Ascii("version"), Ascii("decision_id"), Ascii("proposal_hash"), Ascii("evidence_hashes"),
     Ascii("outcome"), Ascii("reason_codes"), Ascii("decided_at_ms"), Ascii("expires_at_ms")]
  }

  function GrantFields(): (names: seq<Units>)
    ensures |names| == 9
  {
    [Ascii("version"), Ascii("grant_id"), Ascii("proposal_hash"), Ascii("decision_hash"), Ascii("audience"),
     Ascii("not_before_ms"), Ascii("expires_at_ms"), Ascii("uses"), Ascii("nonce")]
  }

  function ReceiptFields(): (names: seq<Units>)
    ensures |names| == 10
  {
    [Ascii("version"), Ascii("receipt_id"), Ascii("proposal_hash"), Ascii("grant_hash"), Ascii("attempt_id"),
     Ascii("claimed_at_ms"), Ascii("dispatched_at_ms"), Ascii("completed_at_ms"), Ascii("outcome"),
     Ascii("observation_digest")]
  }

  function ReconciliationFields(): (names: seq<Units>)
    ensures |names| == 8
  {
    [Ascii("version"), Ascii("reconciliation_id"), Ascii("receipt_hash"), Ascii("sequence"),
     Ascii("parent_reconciliation_hash"), Ascii("observed_at_ms"), Ascii("outcome"), Ascii("evidence_digest")]
  }

  function BundleFields(): (names: seq<Units>)
    ensures |names| == 6
  {
    [Ascii("commitment"), Ascii("proposal"), Ascii("decision"), Ascii("grant"), Ascii("receipt"),
     Ascii("reconciliations")]
  }

  /** Length and third letter: no two names of one record share both. */
  function Signature(s: Units): nat { if |s| < 3 then |s| else |s| * 0x10000 + s[2] as int }

  ghost predicate GoodNames(names: seq<Units>) {
    Distinct(names) && forall i | 0 <= i < |names| :: IsScalarString(names[i])
  }

  lemma Named(names: seq<Units>, signatures: seq<nat>)
    requires |names| == |signatures|
    requires forall i | 0 <= i < |names| :: IsAscii(names[i]) && Signature(names[i]) == signatures[i]
    requires forall i, j | 0 <= i < j < |names| :: signatures[i] != signatures[j]
    ensures GoodNames(names)
  {
    forall i | 0 <= i < |names| ensures IsScalarString(names[i]) {
      AsciiIsItself(names[i]);
    }
  }

  lemma TaskNames()
    ensures GoodNames(TaskFields())
  {
    Named(TaskFields(), [0x70072, 0xd006d, 0x90069, 0x10006a, 0x12006e, 0x160074, 0xc006c, 0x13006e, 0xd0065, 0xd0070]);
  }

  lemma ProposalNames()
    ensures GoodNames(ProposalFields())
  {
    Named(ProposalFields(),
          [0x70072, 0xb006f, 0xf006d, 0xe0066, 0x90065, 0x60072,
           0x100067, 0x160070, 0x100065, 0x150073, 0xd0065, 0xd0070]);
  }

  lemma DecisionNames()
    ensures GoodNames(DecisionFields())
  {
    Named(DecisionFields(), [0x70072, 0xb0063, 0xd006f, 0xf0069, 0x70074, 0xc0061, 0xd0063, 0xd0070]);
  }

  lemma GrantNames()
    ensures GoodNames(GrantFields())
  {
    Named(GrantFields(), [0x70072, 0x80061, 0xd006f, 0xd0063, 0x80064, 0xd0074, 0xd0070, 0x40065, 0x5006e]);
  }

  lemma ReceiptNames()
    ensures GoodNames(ReceiptFields())
  {
    Named(ReceiptFields(),
          [0x70072, 0xa0063, 0xd006f, 0xa0061, 0xa0074, 0xd0061, 0x100073, 0xf006d, 0x70074, 0x120073]);
  }

  lemma ReconciliationNames()
    ensures GoodNames(ReconciliationFields())
  {
    Named(ReconciliationFields(), [0x70072, 0x110063, 0xc0063, 0x80071, 0x1a0072, 0xe0073, 0x70074, 0xf0069]);
  }

  lemma BundleNames()
    ensures GoodNames(BundleFields())
  {
    Named(BundleFields(), [0xa006d, 0x8006f, 0x80063, 0x50061, 0x70063, 0xf0063]);
  }

  // ---- A record of any kind ----

  datatype Record =
    | OfTask(task: Task)
    | OfProposal(proposal: Proposal)
    | OfDecision(decision: Decision)
    | OfGrant(grant: Grant)
    | OfReceipt(receipt: Receipt)
    | OfReconciliation(reconciliation: Reconciliation)

  function Names(r: Record): seq<Units> {
    match r
    case OfTask(_) => TaskFields()
    case OfProposal(_) => ProposalFields()
    case OfDecision(_) => DecisionFields()
    case OfGrant(_) => GrantFields()
    case OfReceipt(_) => ReceiptFields()
    case OfReconciliation(_) => ReconciliationFields()
  }

  function TaskValues(t: Task): (vs: seq<Value>)
    ensures |vs| == 10
  {
    [Num(t.version), Str(t.commitmentId), Str(t.principal), DigestJson(t.objectiveDigest),
     DigestJson(t.constraintsDigest), DigestJson(t.authorityScopeDigest), Num(t.policyEpoch),
     Num(t.configurationEpoch), Num(t.createdAt), Num(t.expiresAt)]
  }

  function ProposalValues(p: Proposal): (vs: seq<Value>)
    ensures |vs| == 12
  {
    [Num(p.version), Str(p.proposalId), DigestJson(p.commitmentHash), Str(p.effectProfile),
     Str(p.operation), Str(p.target), DigestJson(p.argumentsDigest), DigestJson(p.expectedEffectDigest),
     DigestJson(p.preStateDigest), DigestJson(p.resourceClaimDigest), Num(p.createdAt), Num(p.expiresAt)]
  }

  function DecisionValues(d: Decision): (vs: seq<Value>)
    ensures |vs| == 8
  {
    [Num(d.version), Str(d.decisionId), DigestJson(d.proposalHash), Digests(d.evidenceHashes),
     Str(DecisionOutcomeText(d.outcome)), Strings(d.reasonCodes), Num(d.decidedAt), Num(d.expiresAt)]
  }

  function GrantValues(g: Grant): (vs: seq<Value>)
    ensures |vs| == 9
  {
    [Num(g.version), Str(g.grantId), DigestJson(g.proposalHash), DigestJson(g.decisionHash), Str(g.audience),
     Num(g.notBefore), Num(g.expiresAt), Num(g.uses), Str(g.nonce)]
  }

  function ReceiptValues(r: Receipt): (vs: seq<Value>)
    ensures |vs| == 10
  {
    [Num(r.version), Str(r.receiptId), DigestJson(r.proposalHash), DigestJson(r.grantHash), Str(r.attemptId),
     Num(r.claimedAt), OptionalTime(r.dispatchedAt), Num(r.completedAt), Str(ReceiptOutcomeText(r.outcome)),
     DigestJson(r.observationDigest)]
  }

  function ReconciliationValues(c: Reconciliation): (vs: seq<Value>)
    ensures |vs| == 8
  {
    [Num(c.version), Str(c.reconciliationId), DigestJson(c.receiptHash), Num(c.sequence),
     OptionalDigest(c.parentHash), Num(c.observedAt), Str(ReconciliationOutcomeText(c.outcome)),
     DigestJson(c.evidenceDigest)]
  }

  function Values(r: Record): seq<Value>
  {
    match r
    case OfTask(t) => TaskValues(t)
    case OfProposal(p) => ProposalValues(p)
    case OfDecision(d) => DecisionValues(d)
    case OfGrant(g) => GrantValues(g)
    case OfReceipt(x) => ReceiptValues(x)
    case OfReconciliation(c) => ReconciliationValues(c)
  }

  /** The record as it is serialized. */
  function RecordValue(r: Record): Value { Obj(Fields(Names(r), Values(r))) }

  lemma NamesAreGood(r: Record)
    ensures GoodNames(Names(r)) && |Values(r)| == |Names(r)|
  {
    hide GoodNames, TaskFields, ProposalFields, DecisionFields, GrantFields, ReceiptFields, ReconciliationFields;
    hide TaskValues, ProposalValues, DecisionValues, GrantValues, ReceiptValues, ReconciliationValues;
    match r
    case OfTask(_) => TaskNames();
    case OfProposal(_) => ProposalNames();
    case OfDecision(_) => DecisionNames();
    case OfGrant(_) => GrantNames();
    case OfReceipt(_) => ReceiptNames();
    case OfReconciliation(_) => ReconciliationNames();
  }

  // ---- The JSON value determines the record ----

  lemma OptionalDigestInjective(a: Option<Digest>, b: Option<Digest>)
    requires OptionalDigest(a) == OptionalDigest(b)
    ensures a == b
  {
    if a.Some? { DigestTextInjective(a.value, b.value); }
  }

  lemma DigestsInjective(a: seq<Digest>, b: seq<Digest>)
    requires Digests(a) == Digests(b)
    ensures a == b
  {
    hide DigestText;
    var x, y := Digests(a).items, Digests(b).items;
    assert |a| == |x| == |y| == |b|;
    forall i | 0 <= i < |a| ensures a[i] == b[i] {
      assert x[i] == DigestJson(a[i]) && y[i] == DigestJson(b[i]);
      DigestTextInjective(a[i], b[i]);
    }
  }

  lemma StringsInjective(a: seq<Units>, b: seq<Units>)
    requires Strings(a) == Strings(b)
    ensures a == b
  {
    var x, y := Strings(a).items, Strings(b).items;
    assert |a| == |x| == |y| == |b|;
    forall i | 0 <= i < |a| ensures a[i] == b[i] {
      assert x[i] == Str(a[i]) && y[i] == Str(b[i]);
    }
  }

  lemma DecisionOutcomesDiffer(a: DecisionOutcome, b: DecisionOutcome)
    requires DecisionOutcomeText(a) == DecisionOutcomeText(b)
    ensures a == b
  {
  }

  lemma ReceiptOutcomesDiffer(a: ReceiptOutcome, b: ReceiptOutcome)
    requires ReceiptOutcomeText(a) == ReceiptOutcomeText(b)
    ensures a == b
  {
    assert ReceiptOutcomeText(a)[0] == ReceiptOutcomeText(b)[0];
  }

  lemma ReconciliationOutcomesDiffer(a: ReconciliationOutcome, b: ReconciliationOutcome)
    requires ReconciliationOutcomeText(a) == ReconciliationOutcomeText(b)
    ensures a == b
  {
    assert ReconciliationOutcomeText(a)[0] == ReconciliationOutcomeText(b)[0];
  }

  lemma TaskInjective(a: Task, b: Task)
    requires TaskValues(a) == TaskValues(b)
    ensures a == b
  {
    hide DigestText;
    var x, y := TaskValues(a), TaskValues(b);
    assert x[0] == y[0] && x[1] == y[1] && x[2] == y[2] && x[3] == y[3] && x[4] == y[4];
    assert x[5] == y[5] && x[6] == y[6] && x[7] == y[7] && x[8] == y[8] && x[9] == y[9];
    DigestTextInjective(a.objectiveDigest, b.objectiveDigest);
    DigestTextInjective(a.constraintsDigest, b.constraintsDigest);
    DigestTextInjective(a.authorityScopeDigest, b.authorityScopeDigest);
  }

  lemma ProposalInjective(a: Proposal, b: Proposal)
    requires ProposalValues(a) == ProposalValues(b)
    ensures a == b
  {
    hide DigestText;
    var x, y := ProposalValues(a), ProposalValues(b);
    assert x[0] == y[0] && x[1] == y[1] && x[2] == y[2] && x[3] == y[3] && x[4] == y[4] && x[5] == y[5];
    assert x[6] == y[6] && x[7] == y[7] && x[8] == y[8] && x[9] == y[9] && x[10] == y[10] && x[11] == y[11];
    DigestTextInjective(a.commitmentHash, b.commitmentHash);
    DigestTextInjective(a.argumentsDigest, b.argumentsDigest);
    DigestTextInjective(a.expectedEffectDigest, b.expectedEffectDigest);
    DigestTextInjective(a.preStateDigest, b.preStateDigest);
    DigestTextInjective(a.resourceClaimDigest, b.resourceClaimDigest);
  }

  lemma DecisionInjective(a: Decision, b: Decision)
    requires DecisionValues(a) == DecisionValues(b)
    ensures a == b
  {
    hide DigestText, DecisionOutcomeText, Digests, Strings;
    var x, y := DecisionValues(a), DecisionValues(b);
    assert x[0] == y[0] && x[1] == y[1] && x[2] == y[2] && x[3] == y[3];
    assert x[4] == y[4] && x[5] == y[5] && x[6] == y[6] && x[7] == y[7];
    DigestTextInjective(a.proposalHash, b.proposalHash);
    DigestsInjective(a.evidenceHashes, b.evidenceHashes);
    DecisionOutcomesDiffer(a.outcome, b.outcome);
    StringsInjective(a.reasonCodes, b.reasonCodes);
  }

  lemma GrantInjective(a: Grant, b: Grant)
    requires GrantValues(a) == GrantValues(b)
    ensures a == b
  {
    hide DigestText;
    var x, y := GrantValues(a), GrantValues(b);
    assert x[0] == y[0] && x[1] == y[1] && x[2] == y[2] && x[3] == y[3] && x[4] == y[4];
    assert x[5] == y[5] && x[6] == y[6] && x[7] == y[7] && x[8] == y[8];
    DigestTextInjective(a.proposalHash, b.proposalHash);
    DigestTextInjective(a.decisionHash, b.decisionHash);
  }

  lemma ReceiptInjective(a: Receipt, b: Receipt)
    requires ReceiptValues(a) == ReceiptValues(b)
    ensures a == b
  {
    hide DigestText, ReceiptOutcomeText;
    var x, y := ReceiptValues(a), ReceiptValues(b);
    assert x[0] == y[0] && x[1] == y[1] && x[2] == y[2] && x[3] == y[3] && x[4] == y[4];
    assert x[5] == y[5] && x[6] == y[6] && x[7] == y[7] && x[8] == y[8] && x[9] == y[9];
    DigestTextInjective(a.proposalHash, b.proposalHash);
    DigestTextInjective(a.grantHash, b.grantHash);
    ReceiptOutcomesDiffer(a.outcome, b.outcome);
    DigestTextInjective(a.observationDigest, b.observationDigest);
  }

  lemma ReconciliationInjective(a: Reconciliation, b: Reconciliation)
    requires ReconciliationValues(a) == ReconciliationValues(b)
    ensures a == b
  {
    hide DigestText, ReconciliationOutcomeText;
    var x, y := ReconciliationValues(a), ReconciliationValues(b);
    assert x[0] == y[0] && x[1] == y[1] && x[2] == y[2] && x[3] == y[3];
    assert x[4] == y[4] && x[5] == y[5] && x[6] == y[6] && x[7] == y[7];
    DigestTextInjective(a.receiptHash, b.receiptHash);
    OptionalDigestInjective(a.parentHash, b.parentHash);
    ReconciliationOutcomesDiffer(a.outcome, b.outcome);
    DigestTextInjective(a.evidenceDigest, b.evidenceDigest);
  }

  ghost predicate SameKind(a: Record, b: Record) {
    (a.OfTask? <==> b.OfTask?) && (a.OfProposal? <==> b.OfProposal?) && (a.OfDecision? <==> b.OfDecision?)
    && (a.OfGrant? <==> b.OfGrant?) && (a.OfReceipt? <==> b.OfReceipt?)
  }

  /** Records of one kind with the same JSON value are the same record. */
  lemma RecordInjective(a: Record, b: Record)
    requires SameKind(a, b) && RecordValue(a) == RecordValue(b)
    ensures a == b
  {
    hide *;
    assert Names(a) == Names(b) && Fields(Names(a), Values(a)) == Fields(Names(b), Values(b)) by { SameNames(a, b); }
    GoodAreDistinct(a);
    GoodAreDistinct(b);
    FieldsInjective(Names(a), Values(a), Values(b));
    ValuesInjective(a, b);
  }

  lemma SameNames(a: Record, b: Record)
    requires SameKind(a, b) && RecordValue(a) == RecordValue(b)
    ensures Names(a) == Names(b) && Fields(Names(a), Values(a)) == Fields(Names(b), Values(b))
  {
    hide Fields, Values;
  }

  lemma GoodAreDistinct(a: Record)
    ensures Distinct(Names(a)) && |Values(a)| == |Names(a)|
  {
    hide Names, Values;
    NamesAreGood(a);
  }

  lemma ValuesInjective(a: Record, b: Record)
    requires SameKind(a, b) && Values(a) == Values(b)
    ensures a == b
  {
    hide TaskValues, ProposalValues, DecisionValues, GrantValues, ReceiptValues, ReconciliationValues;
    match a
    case OfTask(t) => TaskInjective(t, b.task);
    case OfProposal(p) => ProposalInjective(p, b.proposal);
    case OfDecision(d) => DecisionInjective(d, b.decision);
    case OfGrant(g) => GrantInjective(g, b.grant);
    case OfReceipt(r) => ReceiptInjective(r, b.receipt);
    case OfReconciliation(c) => ReconciliationInjective(c, b.reconciliation);
  }
}
