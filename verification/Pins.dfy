/** What a commitment pins: the preimage of a hash determines its record, and
    the last hash of a transaction determines every record before it. */
module Pins {
  import opened Unicode
  import opened Json
  import opened Budget
  import opened Encoders
  import opened RoundTrip
  import opened Records
  import opened RecordJson
  import opened Verifier

  // ---- Valid records have canonical JSON ----

  /** A Rust string is well-formed by its type, a TypeScript one by `assertScalarString`. */
  ghost predicate ScalarRules(k: Protocol) {
    (forall s, n {:trigger k.text(s, n)} :: k.text(s, n) ==> IsScalarString(s))
    && (forall s {:trigger k.token(s)} :: k.token(s) ==> IsScalarString(s))
    && (forall s {:trigger k.nonce(s)} :: k.nonce(s) ==> IsScalarString(s))
  }

  ghost predicate ValidRecord(k: Protocol, r: Record) {
    match r
    case OfTask(t) => k.ValidTask(t)
    case OfProposal(p) => k.ValidProposal(p)
    case OfDecision(d) => k.ValidDecision(d)
    case OfGrant(g) => k.ValidGrant(g)
    case OfReceipt(x) => k.ValidReceipt(x)
    case OfReconciliation(c) => k.ValidReconciliation(c)
  }

  /** A small field value: shallow, encodable, of few nodes. */
  ghost predicate IsField(v: Value, per: nat) { IsSmall(v, 2) && Count(v) <= per }

  ghost predicate AreFields(vs: seq<Value>, per: nat) { forall i | 0 <= i < |vs| :: IsField(vs[i], per) }

  lemma ScalarField(v: Value)
    requires !v.Arr? && !v.Obj? && Encodable(v)
    ensures IsField(v, 1)
  {
  }

  lemma DigestField(d: Digest)
    ensures IsField(DigestJson(d), 1)
  {
    AsciiIsItself(DigestText(d));
    ScalarField(DigestJson(d));
  }

  lemma OptionalDigestField(d: Option<Digest>)
    ensures IsField(OptionalDigest(d), 1)
  {
    if d.Some? { DigestField(d.value); }
  }

  lemma OutcomeFields(d: DecisionOutcome, r: ReceiptOutcome, c: ReconciliationOutcome)
    ensures IsField(Str(DecisionOutcomeText(d)), 1)
    ensures IsField(Str(ReceiptOutcomeText(r)), 1)
    ensures IsField(Str(ReconciliationOutcomeText(c)), 1)
  {
    AsciiIsItself(DecisionOutcomeText(d));
    AsciiIsItself(ReceiptOutcomeText(r));
    AsciiIsItself(ReconciliationOutcomeText(c));
  }

  lemma ArrayField(items: seq<Value>, per: nat)
    requires |items| <= per && forall i | 0 <= i < |items| :: IsSmall(items[i], 1) && Count(items[i]) == 1
    ensures IsField(Arr(items), per + 1)
  {
    ArrayCount(items);
    TotalBound(items, 1);
  }

  lemma DigestsField(ds: seq<Digest>)
    requires |ds| <= 256
    ensures IsField(Digests(ds), 257)
  {
    var items := Digests(ds).items;
    forall i | 0 <= i < |items| ensures IsSmall(items[i], 1) && Count(items[i]) == 1 {
      DigestField(ds[i]);
    }
    ArrayField(items, 256);
  }

  lemma StringsField(ts: seq<Units>)
    requires |ts| <= 64 && forall i | 0 <= i < |ts| :: IsScalarString(ts[i])
    ensures IsField(Strings(ts), 65)
  {
    ArrayField(Strings(ts).items, 64);
  }

  function FieldBound(r: Record): nat { if r.OfDecision? then 257 else 1 }

  lemma TaskFieldsSmall(k: Protocol, r: Record)
    requires ScalarRules(k) && r.OfTask? && ValidRecord(k, r)
    ensures AreFields(Values(r), FieldBound(r))
  {
    var t := r.task;
    hide DigestJson;
    DigestField(t.objectiveDigest);
    DigestField(t.constraintsDigest);
    DigestField(t.authorityScopeDigest);
  }

  lemma ProposalFieldsSmall(k: Protocol, r: Record)
    requires ScalarRules(k) && r.OfProposal? && ValidRecord(k, r)
    ensures AreFields(Values(r), FieldBound(r))
  {
    var p := r.proposal;
    hide DigestJson;
    DigestField(p.commitmentHash);
    DigestField(p.argumentsDigest);
    DigestField(p.expectedEffectDigest);
    DigestField(p.preStateDigest);
    DigestField(p.resourceClaimDigest);
  }

  lemma DecisionFieldsSmall(k: Protocol, r: Record)
    requires ScalarRules(k) && r.OfDecision? && ValidRecord(k, r)
    ensures AreFields(Values(r), FieldBound(r))
  {
    var d := r.decision;
    hide DigestJson, Digests, Strings, DecisionOutcomeText;
    DigestField(d.proposalHash);
    DigestsField(d.evidenceHashes);
    StringsField(d.reasonCodes);
    OutcomeFields(d.outcome, Unknown, StillUnknown);
  }

  lemma GrantFieldsSmall(k: Protocol, r: Record)
    requires ScalarRules(k) && r.OfGrant? && ValidRecord(k, r)
    ensures AreFields(Values(r), FieldBound(r))
  {
    var g := r.grant;
    hide DigestJson;
    DigestField(g.proposalHash);
    DigestField(g.decisionHash);
  }

  lemma ReceiptFieldsSmall(k: Protocol, r: Record)
    requires ScalarRules(k) && r.OfReceipt? && ValidRecord(k, r)
    ensures AreFields(Values(r), FieldBound(r))
  {
    var x := r.receipt;
    hide DigestJson, ReceiptOutcomeText;
    DigestField(x.proposalHash);
    DigestField(x.grantHash);
    DigestField(x.observationDigest);
    OutcomeFields(Deny, x.outcome, StillUnknown);
  }

  lemma ReconciliationFieldsSmall(k: Protocol, r: Record)
    requires ScalarRules(k) && r.OfReconciliation? && ValidRecord(k, r)
    ensures AreFields(Values(r), FieldBound(r))
  {
    var c := r.reconciliation;
    hide DigestJson, OptionalDigest, ReconciliationOutcomeText;
    DigestField(c.receiptHash);
    OptionalDigestField(c.parentHash);
    DigestField(c.evidenceDigest);
    OutcomeFields(Deny, Unknown, c.outcome);
  }

  lemma ValidFieldsSmall(k: Protocol, r: Record)
    requires ScalarRules(k) && ValidRecord(k, r)
    ensures AreFields(Values(r), FieldBound(r))
  {
    hide *;
    match r
    case OfTask(_) => TaskFieldsSmall(k, r);
    case OfProposal(_) => ProposalFieldsSmall(k, r);
    case OfDecision(_) => DecisionFieldsSmall(k, r);
    case OfGrant(_) => GrantFieldsSmall(k, r);
    case OfReceipt(_) => ReceiptFieldsSmall(k, r);
    case OfReconciliation(_) => ReconciliationFieldsSmall(k, r);
  }

  /** The serialized form of a valid record is shallow and of bounded size. */
  lemma RecordSmall(k: Protocol, r: Record)
    requires ScalarRules(k) && ValidRecord(k, r)
    ensures IsSmall(RecordValue(r), 3)
    ensures Count(RecordValue(r)) <= 1 + FieldBound(r) * |Names(r)|
  {
    hide Names, Values, ScalarRules, ValidRecord;
    NamesAreGood(r);
    ValidFieldsSmall(k, r);
    FieldsSmall(Names(r), Values(r), 2);
    FieldsCount(Names(r), Values(r));
    TotalBound(Values(r), FieldBound(r));
  }

  lemma {:induction false} DepthGrows(v: Value, d: int, e: int)
    requires FitsDepth(v, d) && d <= e
    ensures FitsDepth(v, e)
    decreases v
  {
    match v
    case Arr(items) =>
      forall i | 0 <= i < |items| ensures FitsDepth(items[i], e - 1) { DepthGrows(items[i], d - 1, e - 1); }
    case Obj(m) =>
      forall k | k in m ensures FitsDepth(m[k], e - 1) { DepthGrows(m[k], d - 1, e - 1); }
    case _ =>
  }

  /** Hashing a valid record never fails: its canonical JSON exists. */
  lemma ValidIsCanonicalizable(k: Protocol, r: Record)
    requires ScalarRules(k) && ValidRecord(k, r)
    ensures Canonicalizable(RecordValue(r))
  {
    hide ScalarRules, ValidRecord, RecordValue, Encodable;
    RecordSmall(k, r);
    DepthGrows(RecordValue(r), 3, MAX_DEPTH);
    assert |Names(r)| <= 12;
  }

  // ---- Preimages ----

  /** A domain label: the separator after it cannot occur in it. */
  type Label = d: Bytes | d != [] && (forall i | 0 <= i < |d| :: d[i] != 0) witness [1]

  function LabelOf(s: string): (d: Label)
    requires s != "" && forall i | 0 <= i < |s| :: 0 < s[i] as int < 0x80
    ensures |d| == |s| && forall i | 0 <= i < |s| :: d[i] == s[i] as int
  {
    var d: Bytes := seq(|s|, i requires 0 <= i < |s| => s[i] as int);
    d
  }

  function Versioned(s: string): Label
    requires s != "" && forall i | 0 <= i < |s| :: 0 < s[i] as int < 0x80
  {
    LabelOf("effect-transaction/0.1/") + LabelOf(s)
  }

  function TaskDomain(): Label { Versioned("task-commitment") }

  function ProposalDomain(): Label { Versioned("effect-proposal") }

  function DecisionDomain(): Label { Versioned("authorization-decision") }

  function GrantDomain(): Label { Versioned("execution-grant") }

  function ReceiptDomain(): Label { Versioned("effect-receipt") }

  function ReconciliationDomain(): Label { Versioned("reconciliation-record") }

  function Domain(r: Record): Label {
    match r
    case OfTask(_) => TaskDomain()
    case OfProposal(_) => ProposalDomain()
    case OfDecision(_) => DecisionDomain()
    case OfGrant(_) => GrantDomain()
    case OfReceipt(_) => ReceiptDomain()
    case OfReconciliation(_) => ReconciliationDomain()
  }

  /** The length of a label and its two letters behind the common part. */
  function Mark(d: Label): (nat, nat, nat) { if |d| < 25 then (0, 0, 0) else (|d|, d[23], d[24]) }

  lemma DomainMarks()
    ensures Mark(TaskDomain()) == (38, 't' as int, 'a' as int)
    ensures Mark(ProposalDomain()) == (38, 'e' as int, 'f' as int)
    ensures Mark(DecisionDomain()) == (45, 'a' as int, 'u' as int)
    ensures Mark(GrantDomain()) == (38, 'e' as int, 'x' as int)
    ensures Mark(ReceiptDomain()) == (37, 'e' as int, 'f' as int)
    ensures Mark(ReconciliationDomain()) == (44, 'r' as int, 'e' as int)
  {
  }

  lemma DomainsDiffer(a: Record, b: Record)
    requires Domain(a) == Domain(b)
    ensures SameKind(a, b)
  {
    hide TaskDomain, ProposalDomain, DecisionDomain, GrantDomain, ReceiptDomain, ReconciliationDomain, Mark;
    DomainMarks();
    assert Mark(Domain(a)) == Mark(Domain(b));
  }

  ghost function Preimage(r: Record): Bytes { Domain(r) + [0] + RustEncode(RecordValue(r)) }

  lemma SplitAtNul(a: Bytes, x: Bytes, b: Bytes, y: Bytes)
    requires a + [0] + x == b + [0] + y
    requires (forall i | 0 <= i < |a| :: a[i] != 0) && (forall i | 0 <= i < |b| :: b[i] != 0)
    ensures a == b && x == y
  {
    var s := a + [0] + x;
    assert forall i | 0 <= i < |a| :: s[i] == a[i] != 0;
    assert forall i | 0 <= i < |b| :: s[i] == b[i] != 0;
    assert s[|a|] == 0 && s[|b|] == 0;
    assert a == s[..|a|] && b == s[..|b|];
    assert x == s[|a| + 1..] && y == s[|b| + 1..];
  }

  /** A preimage determines its record, whatever the kind. */
  lemma PreimageInjective(k: Protocol, a: Record, b: Record)
    requires ScalarRules(k) && ValidRecord(k, a) && ValidRecord(k, b)
    requires Preimage(a) == Preimage(b)
    ensures a == b
  {
    hide *;
    assert Domain(a) == Domain(b) && RustEncode(RecordValue(a)) == RustEncode(RecordValue(b)) by {
      PreimageParts(a, b);
    }
    DomainsDiffer(a, b);
    ValidIsCanonicalizable(k, a);
    ValidIsCanonicalizable(k, b);
    EncodedOnce(RecordValue(a), RecordValue(b));
    RecordInjective(a, b);
  }

  /** Comparing stored JSON, as registration does, compares the records. */
  lemma JsonIdentifies(k: Protocol, a: Record, b: Record)
    requires ScalarRules(k) && ValidRecord(k, a) && ValidRecord(k, b) && SameKind(a, b)
    ensures RustEncode(RecordValue(a)) == RustEncode(RecordValue(b)) <==> a == b
  {
    hide *;
    if RustEncode(RecordValue(a)) == RustEncode(RecordValue(b)) {
      ValidIsCanonicalizable(k, a);
      ValidIsCanonicalizable(k, b);
      EncodedOnce(RecordValue(a), RecordValue(b));
      RecordInjective(a, b);
    }
  }

  lemma PreimageParts(a: Record, b: Record)
    requires Preimage(a) == Preimage(b)
    ensures Domain(a) == Domain(b) && RustEncode(RecordValue(a)) == RustEncode(RecordValue(b))
  {
    hide Domain, RustEncode, RecordValue;
    SplitAtNul(Domain(a), RustEncode(RecordValue(a)), Domain(b), RustEncode(RecordValue(b)));
  }

  lemma EncodedOnce(v: Value, w: Value)
    requires Canonicalizable(v) && Canonicalizable(w) && RustEncode(v) == RustEncode(w)
    ensures v == w
  {
    hide RustEncode, Encode;
    EncodersAgree(v);
    EncodersAgree(w);
    EncodingInjective(v, w);
  }

  // ---- The head pins the transaction ----

  ghost function Commitment(sha: Bytes -> Digest, r: Record): Digest { sha(Preimage(r)) }

  /** The protocol with its real hashes: `sha` of the domain, a NUL and the canonical JSON. */
  ghost function Etp(sha: Bytes -> Digest, rules: Protocol): Protocol {
    Protocol(
      t => Commitment(sha, OfTask(t)), p => Commitment(sha, OfProposal(p)), d => Commitment(sha, OfDecision(d)),
      g => Commitment(sha, OfGrant(g)), r => Commitment(sha, OfReceipt(r)), c => Commitment(sha, OfReconciliation(c)),
      rules.text, rules.token, rules.nonce)
  }

  /** The records of a bundle, from its commitment to the latest. */
  function Chain(b: Bundle): seq<Record> { Authorization(b) + Aftermath(b) }

  function Authorization(b: Bundle): seq<Record> {
    [OfTask(b.task), OfProposal(b.proposal), OfDecision(b.decision)]
    + (if b.grant.Some? then [OfGrant(b.grant.value)] else [])
    + (if b.receipt.Some? then [OfReceipt(b.receipt.value)] else [])
  }

  function Aftermath(b: Bundle): seq<Record> {
    seq(|b.reconciliations|, i requires 0 <= i < |b.reconciliations| => OfReconciliation(b.reconciliations[i]))
  }

  /** The record hash each record names as its predecessor. */
  function Parent(r: Record): Option<Digest> {
    match r
    case OfTask(_) => None
    case OfProposal(p) => Some(p.commitmentHash)
    case OfDecision(d) => Some(d.proposalHash)
    case OfGrant(g) => Some(g.decisionHash)
    case OfReceipt(x) => Some(x.grantHash)
    case OfReconciliation(c) => if c.parentHash.Some? then c.parentHash else Some(c.receiptHash)
  }

  ghost predicate Linked(sha: Bytes -> Digest, rules: Protocol, rs: seq<Record>, i: nat)
    requires i < |rs|
  {
    ValidRecord(rules, rs[i])
    && Parent(rs[i]) == (if i == 0 then None else Some(Commitment(sha, rs[i - 1])))
  }

  ghost predicate IsChain(sha: Bytes -> Digest, rules: Protocol, rs: seq<Record>) {
    forall i | 0 <= i < |rs| :: Linked(sha, rules, rs, i)
  }

  /** No record of one chain collides with a different record of the other. */
  ghost predicate CollisionFree(sha: Bytes -> Digest, a: seq<Record>, b: seq<Record>) {
    forall x, y | x in a && y in b && Commitment(sha, x) == Commitment(sha, y) :: Preimage(x) == Preimage(y)
  }

  lemma AcceptedDecision(sha: Bytes -> Digest, rules: Protocol, b: Bundle)
    requires Accepts(Etp(sha, rules), b)
    ensures forall i | 0 <= i < 3 :: Linked(sha, rules, Authorization(b), i)
  {
    hide Commitment, Preimage, VerifyGrant, VerifyChain, IsHistory;
  }

  lemma AcceptedUse(sha: Bytes -> Digest, rules: Protocol, b: Bundle)
    requires Accepts(Etp(sha, rules), b)
    ensures forall i | 3 <= i < |Authorization(b)| :: Linked(sha, rules, Authorization(b), i)
  {
    hide Commitment, Preimage, IsHistory;
  }

  lemma AcceptedAuthorization(sha: Bytes -> Digest, rules: Protocol, b: Bundle)
    requires Accepts(Etp(sha, rules), b)
    ensures IsChain(sha, rules, Authorization(b))
  {
    hide Linked, Accepts;
    AcceptedDecision(sha, rules, b);
    AcceptedUse(sha, rules, b);
  }

  lemma AcceptedIsChain(sha: Bytes -> Digest, rules: Protocol, b: Bundle)
    requires Accepts(Etp(sha, rules), b)
    ensures IsChain(sha, rules, Chain(b))
  {
    hide Commitment, Preimage, VerifyDecision, VerifyGrant, VerifyChain;
    var k, rs, n := Etp(sha, rules), Chain(b), |Authorization(b)|;
    AcceptedAuthorization(sha, rules, b);
    forall i | 0 <= i < |rs| ensures Linked(sha, rules, rs, i) {
      if i < n {
        assert Linked(sha, rules, Authorization(b), i);
      } else {
        assert IsLink(k, b.receipt.value, b.reconciliations, i - n);
      }
    }
  }

  lemma ChainInjective(a: Bundle, b: Bundle)
    requires Chain(a) == Chain(b)
    requires (a.grant.None? ==> a.receipt.None?) && (a.receipt.None? ==> a.reconciliations == [])
    requires (b.grant.None? ==> b.receipt.None?) && (b.receipt.None? ==> b.reconciliations == [])
    ensures a == b
  {
    var x, y := Chain(a), Chain(b);
    assert x[0] == y[0] && x[1] == y[1] && x[2] == y[2];
    if |x| > 3 { assert x[3] == y[3]; }
    if |x| > 4 { assert x[4] == y[4]; }
    forall i | 0 <= i < |a.reconciliations|
      ensures i < |b.reconciliations| && a.reconciliations[i] == b.reconciliations[i]
    {
      assert x[i + 5] == y[i + 5];
    }
  }

  /** Two chains that end in one record are one chain from the start. */
  lemma {:induction false} ChainsMeet(sha: Bytes -> Digest, rules: Protocol, a: seq<Record>, b: seq<Record>)
    requires ScalarRules(rules) && IsChain(sha, rules, a) && IsChain(sha, rules, b) && CollisionFree(sha, a, b)
    requires a != [] && b != [] && a[|a| - 1] == b[|b| - 1]
    ensures a == b
    decreases |a|
  {
    hide ScalarRules, Commitment, Preimage, ValidRecord, Parent;
    var m, n := |a| - 1, |b| - 1;
    assert Linked(sha, rules, a, m) && Linked(sha, rules, b, n);
    assert a == a[..m] + [a[m]] && b == b[..n] + [b[n]];
    if m > 0 {
      assert Commitment(sha, a[m - 1]) == Commitment(sha, b[n - 1]);
      assert Linked(sha, rules, a, m - 1) && Linked(sha, rules, b, n - 1);
      PreimageInjective(rules, a[m - 1], b[n - 1]);
      ShorterChain(sha, rules, a, m);
      ShorterChain(sha, rules, b, n);
      ChainsMeet(sha, rules, a[..m], b[..n]);
    }
  }

  lemma ShorterChain(sha: Bytes -> Digest, rules: Protocol, rs: seq<Record>, n: nat)
    requires IsChain(sha, rules, rs) && n <= |rs|
    ensures IsChain(sha, rules, rs[..n])
  {
    hide Commitment, ValidRecord, Parent;
    forall i | 0 <= i < n ensures Linked(sha, rules, rs[..n], i) {
      assert Linked(sha, rules, rs, i);
    }
  }

  ghost function Head(sha: Bytes -> Digest, b: Bundle): Digest { Commitment(sha, Chain(b)[|Chain(b)| - 1]) }

  /** The last hash that verification reports. */
  function LastHash(v: Verified): Digest {
    if v.reconciliations != [] then v.reconciliations[|v.reconciliations| - 1]
    else if v.receipt.Some? then v.receipt.value
    else if v.grant.Some? then v.grant.value
    else v.decision
  }

  lemma HeadIsReported(sha: Bytes -> Digest, rules: Protocol, b: Bundle)
    requires Accepts(Etp(sha, rules), b)
    ensures LastHash(ResultOf(Etp(sha, rules), b)) == Head(sha, b)
  {
    hide Commitment, VerifyDecision, VerifyGrant, VerifyChain, IsHistory;
  }

  /** The last reported hash pins the whole transaction: unless a hash collides,
      two accepted bundles with one such hash agree record for record, even if
      they claim to be at different lifecycle stages. */
  lemma HeadPins(sha: Bytes -> Digest, rules: Protocol, a: Bundle, b: Bundle)
    requires ScalarRules(rules) && Accepts(Etp(sha, rules), a) && Accepts(Etp(sha, rules), b)
    requires LastHash(ResultOf(Etp(sha, rules), a)) == LastHash(ResultOf(Etp(sha, rules), b))
    requires CollisionFree(sha, Chain(a), Chain(b))
    ensures a == b
  {
    hide ScalarRules, Commitment, Preimage, ValidRecord, Parent, Etp, LastHash, ResultOf;
    hide VerifyDecision, VerifyGrant, VerifyChain, IsHistory;
    var x, y := Chain(a), Chain(b);
    AcceptedIsChain(sha, rules, a);
    AcceptedIsChain(sha, rules, b);
    HeadIsReported(sha, rules, a);
    HeadIsReported(sha, rules, b);
    var m, n := |x| - 1, |y| - 1;
    assert Linked(sha, rules, x, m) && Linked(sha, rules, y, n);
    assert Preimage(x[m]) == Preimage(y[n]);
    PreimageInjective(rules, x[m], y[n]);
    ChainsMeet(sha, rules, x, y);
    ChainInjective(a, b);
  }

  // ---- Every accepted bundle fits the JSON budget ----

  function OptionalRecord(r: Option<Record>): Value { if r.None? then Null else RecordValue(r.value) }

  function HistoryValue(b: Bundle): Value {
    Arr(seq(|Aftermath(b)|, i requires 0 <= i < |Aftermath(b)| => RecordValue(Aftermath(b)[i])))
  }

  function BundleParts(b: Bundle): seq<Value> {
    [RecordValue(OfTask(b.task)), RecordValue(OfProposal(b.proposal)), RecordValue(OfDecision(b.decision)),
     OptionalRecord(if b.grant.Some? then Some(OfGrant(b.grant.value)) else None),
     OptionalRecord(if b.receipt.Some? then Some(OfReceipt(b.receipt.value)) else None)]
  }

  /** A bundle as `verifyTransaction` receives it. */
  function BundleValue(b: Bundle): Value {
    Obj(Fields(BundleFields(), BundleParts(b) + [HistoryValue(b)]))
  }

  lemma HistorySmall(k: Protocol, b: Bundle)
    requires ScalarRules(k) && |b.reconciliations| <= MAX_RECONCILIATION_RECORDS
    requires forall i | 0 <= i < |b.reconciliations| :: k.ValidReconciliation(b.reconciliations[i])
    ensures IsSmall(HistoryValue(b), 4) && Count(HistoryValue(b)) <= 1 + 9 * MAX_RECONCILIATION_RECORDS
  {
    hide ScalarRules, RecordValue;
    var items := HistoryValue(b).items;
    forall i | 0 <= i < |items| ensures IsSmall(items[i], 3) && Count(items[i]) <= 9 {
      RecordSmall(k, Aftermath(b)[i]);
    }
    ArrayCount(items);
    TotalBound(items, 9);
  }

  lemma NodeBound(r: Record)
    ensures FieldBound(r) * |Names(r)| <= if r.OfDecision? then 2056 else 12
  {
    hide TaskFields, ProposalFields, DecisionFields, GrantFields, ReceiptFields, ReconciliationFields;
    var width := |Names(r)|;
    if r.OfDecision? {
      assert FieldBound(r) * width == 257 * width && width == 8;
    } else {
      assert FieldBound(r) * width == width && width <= 12;
    }
  }

  lemma PartSmall(k: Protocol, r: Option<Record>)
    requires ScalarRules(k) && (r.Some? ==> ValidRecord(k, r.value))
    ensures IsSmall(OptionalRecord(r), 4)
    ensures Count(OptionalRecord(r)) <= if r.Some? && r.value.OfDecision? then 2057 else 13
  {
    hide ScalarRules, RecordValue, ValidRecord, FieldBound, Names, Encodable;
    if r.Some? {
      RecordSmall(k, r.value);
      NodeBound(r.value);
      DepthGrows(RecordValue(r.value), 3, 4);
    } else {
      ScalarField(Null);
      DepthGrows(Null, 2, 4);
    }
  }

  lemma TotalCons(v: Value, rest: seq<Value>)
    ensures Total([v] + rest) == Count(v) + Total(rest) && Total([]) == 0
  {
    hide Count;
    assert ([v] + rest)[1..] == rest;
  }

  lemma TotalOf(a: Value, b: Value, c: Value, d: Value, e: Value)
    ensures Total([a, b, c, d, e]) == Count(a) + Count(b) + Count(c) + Count(d) + Count(e)
  {
    hide Count, Total;
    TotalCons(a, [b, c, d, e]);
    TotalCons(b, [c, d, e]);
    TotalCons(c, [d, e]);
    TotalCons(d, [e]);
    TotalCons(e, []);
    assert [a] + [b, c, d, e] == [a, b, c, d, e] && [b] + [c, d, e] == [b, c, d, e];
    assert [c] + [d, e] == [c, d, e] && [d] + [e] == [d, e] && [e] + [] == [e];
  }

  lemma AcceptedParts(sha: Bytes -> Digest, rules: Protocol, b: Bundle)
    requires ScalarRules(rules) && Accepts(Etp(sha, rules), b)
    ensures forall i | 0 <= i < 5 :: IsSmall(BundleParts(b)[i], 4)
    ensures Total(BundleParts(b)) <= 2109
    ensures IsSmall(HistoryValue(b), 4) && Count(HistoryValue(b)) <= 90_001
  {
    hide ScalarRules, Commitment, RecordValue, OptionalRecord, VerifyDecision, VerifyGrant;
    hide VerifyChain, IsSmall, HistoryValue;
    AcceptedIsChain(sha, rules, b);
    ChainIsValid(sha, rules, b);
    var grant := if b.grant.Some? then Some(OfGrant(b.grant.value)) else None;
    var receipt := if b.receipt.Some? then Some(OfReceipt(b.receipt.value)) else None;
    PartSmall(rules, Some(OfTask(b.task)));
    PartSmall(rules, Some(OfProposal(b.proposal)));
    PartSmall(rules, Some(OfDecision(b.decision)));
    PartSmall(rules, grant);
    PartSmall(rules, receipt);
    PartValue(OfTask(b.task));
    PartValue(OfProposal(b.proposal));
    PartValue(OfDecision(b.decision));
    TotalOf(RecordValue(OfTask(b.task)), RecordValue(OfProposal(b.proposal)), RecordValue(OfDecision(b.decision)),
            OptionalRecord(grant), OptionalRecord(receipt));
    HistorySmall(rules, b);
  }

  lemma PartValue(r: Record)
    ensures OptionalRecord(Some(r)) == RecordValue(r)
  {
  }

  lemma ChainIsValid(sha: Bytes -> Digest, rules: Protocol, b: Bundle)
    requires IsChain(sha, rules, Chain(b)) && Accepts(Etp(sha, rules), b)
    ensures rules.ValidTask(b.task) && rules.ValidProposal(b.proposal) && rules.ValidDecision(b.decision)
    ensures b.grant.Some? ==> rules.ValidGrant(b.grant.value)
    ensures b.receipt.Some? ==> rules.ValidReceipt(b.receipt.value)
    ensures |b.reconciliations| <= MAX_RECONCILIATION_RECORDS
    ensures forall i | 0 <= i < |b.reconciliations| :: rules.ValidReconciliation(b.reconciliations[i])
  {
    hide Commitment, VerifyDecision, VerifyGrant, VerifyChain, Parent;
    var rs := Chain(b);
    assert Linked(sha, rules, rs, 0) && Linked(sha, rules, rs, 1) && Linked(sha, rules, rs, 2);
    if b.grant.Some? { assert Linked(sha, rules, rs, 3); }
    if b.receipt.Some? { assert Linked(sha, rules, rs, 4); }
    forall i | 0 <= i < |b.reconciliations| ensures rules.ValidReconciliation(b.reconciliations[i]) {
      assert IsLink(Etp(sha, rules), b.receipt.value, b.reconciliations, i);
    }
  }

  /** A valid bundle of up to 10,000 reconciliations is never refused by the
      budget that TypeScript checks first. */
  lemma AcceptedFitsBudget(sha: Bytes -> Digest, rules: Protocol, b: Bundle)
    requires ScalarRules(rules) && Accepts(Etp(sha, rules), b)
    ensures Canonicalizable(BundleValue(b))
  {
    hide *;
    AcceptedParts(sha, rules, b);
    var values := BundleParts(b) + [HistoryValue(b)];
    BundleNames();
    PartsInOrder(b, values);
    FieldsSmall(BundleFields(), values, 4);
    FieldsCount(BundleFields(), values);
    TotalOfParts(b);
    SmallIsCanonicalizable(b, values);
  }

  lemma TotalOfParts(b: Bundle)
    ensures Total(BundleParts(b) + [HistoryValue(b)]) == Total(BundleParts(b)) + Count(HistoryValue(b))
  {
    hide BundleParts, HistoryValue;
    TotalConcat(BundleParts(b), [HistoryValue(b)]);
    TotalCons(HistoryValue(b), []);
    assert [HistoryValue(b)] + [] == [HistoryValue(b)];
  }

  lemma PartsInOrder(b: Bundle, values: seq<Value>)
    requires values == BundleParts(b) + [HistoryValue(b)]
    requires GoodNames(BundleFields()) && IsSmall(HistoryValue(b), 4)
    requires forall i | 0 <= i < 5 :: IsSmall(BundleParts(b)[i], 4)
    ensures |BundleFields()| == |values| && Distinct(BundleFields())
    ensures forall i | 0 <= i < |values| :: IsScalarString(BundleFields()[i]) && IsSmall(values[i], 4)
  {
    hide IsSmall, HistoryValue, RecordValue, BundleFields;
  }

  lemma SmallIsCanonicalizable(b: Bundle, values: seq<Value>)
    requires values == BundleParts(b) + [HistoryValue(b)]
    requires IsSmall(Obj(Fields(BundleFields(), values)), 5)
    requires Count(Obj(Fields(BundleFields(), values))) <= 92_111
    ensures Canonicalizable(BundleValue(b))
  {
    hide BundleParts, HistoryValue, Fields, BundleFields, Encodable;
    DepthGrows(BundleValue(b), 5, MAX_DEPTH);
  }
}
