/** The TypeScript verifier: a budget check first, then one pass whose loop over
    the reconciliations keeps flags instead of comparing records pairwise. */
module TsVerifier {
  import opened Unicode
  import opened Json
  import opened Encoders
  import opened Records
  import opened RecordJson
  import opened Verifier
  import opened Pins

  // ---- Canonical lists ----

  lemma {:induction false} HexOrder(n: nat, m: nat, width: nat)
    requires n < Pow16(width) && m < Pow16(width)
    ensures LexLess(Hex(n, width), Hex(m, width)) <==> n < m
  {
    if width > 0 {
      var a, b := Hex(n / 16, width - 1), Hex(m / 16, width - 1);
      var x, y := [HexDigit(n % 16)], [HexDigit(m % 16)];
      HexOrder(n / 16, m / 16, width - 1);
      if n / 16 == m / 16 {
        LexCommonPrefix(a, x, y);
      } else {
        HexInequality(n / 16, m / 16, width - 1);
        SameWidthOrder(a, x, b, y);
      }
    }
  }

  lemma HexInequality(n: nat, m: nat, width: nat)
    requires n < Pow16(width) && m < Pow16(width) && n != m
    ensures Hex(n, width) != Hex(m, width)
  {
    if Hex(n, width) == Hex(m, width) { HexInjective(n, m, width); }
  }

  /** Texts of one length that differ are ordered by their heads alone. */
  lemma {:induction false} SameWidthOrder(a: seq<nat>, x: seq<nat>, b: seq<nat>, y: seq<nat>)
    requires |a| == |b| && a != b
    ensures LexLess(a + x, b + y) <==> LexLess(a, b)
  {
    assert a != [] && b != [];
    assert (a + x)[0] == a[0] && (b + y)[0] == b[0];
    assert (a + x)[1..] == a[1..] + x && (b + y)[1..] == b[1..] + y;
    if a[0] == b[0] {
      assert a == [a[0]] + a[1..] && b == [b[0]] + b[1..];
      SameWidthOrder(a[1..], x, b[1..], y);
    }
  }

  /** Digests sort as their texts do. */
  lemma DigestOrder(a: Digest, b: Digest)
    ensures KeyLess(ByByte, DigestText(a), DigestText(b)) <==> a < b
  {
    hide Hex;
    AsciiIsItself(DigestText(a));
    AsciiIsItself(DigestText(b));
    LexCommonPrefix(DIGEST_PREFIX, Hex(a, 64), Hex(b, 64));
    HexOrder(a, b, 64);
  }

  lemma ComparedByByte(left: Units, right: Units, order: int)
    requires order < 0 <==> LexLess(CodePoints(left), CodePoints(right))
    ensures order < 0 <==> KeyLess(ByByte, left, right)
  {
    hide LexLess, CodePoints, Utf8Units;
    OrdersAgree(left, right);
  }

  method SortedUnique(values: seq<Units>) returns (ok: bool)
    ensures ok <==> SortedTokens(values)
  {
    hide LexLess, CodePoints, KeyLess;
    var index := 1;
    while index < |values|
      invariant 1 <= index
      invariant forall i | 0 < i < |values| && i < index :: KeyLess(ByByte, values[i - 1], values[i])
    {
      var order := CompareUnicodeScalars(values[index - 1], values[index]);
      ComparedByByte(values[index - 1], values[index], order);
      if order >= 0 {
        return false;
      }
      index := index + 1;
    }
    return true;
  }

  function DigestTexts(ds: seq<Digest>): (r: seq<Units>)
    ensures |r| == |ds|
  {
    seq(|ds|, i requires 0 <= i < |ds| => DigestText(ds[i]))
  }

  lemma SortedTexts(ds: seq<Digest>)
    ensures SortedTokens(DigestTexts(ds)) <==> SortedDigests(ds)
  {
    hide DigestText, KeyLess;
    var ts := DigestTexts(ds);
    forall i | 0 < i < |ds| ensures KeyLess(ByByte, ts[i - 1], ts[i]) <==> ds[i - 1] < ds[i] {
      DigestOrder(ds[i - 1], ds[i]);
    }
  }

  // ---- The record validators ----

  /** `objectAt`: anything without canonical JSON is refused before its fields are read. */
  method ObjectAt(v: Value) returns (ok: bool)
    ensures ok <==> Canonicalizable(v)
  {
    var text := CanonicalJson(v);
    return text.Some?;
  }

  method ValidateTask(k: Protocol, t: Task) returns (ok: bool)
    requires ScalarRules(k)
    ensures ok <==> k.ValidTask(t)
  {
    var readable := ObjectAt(RecordValue(OfTask(t)));
    if !readable {
      if k.ValidTask(t) { ValidIsCanonicalizable(k, OfTask(t)); }
      return false;
    }
    return t.version == 1 && k.text(t.commitmentId, 256) && k.text(t.principal, 512)
      && SafeTime(t.policyEpoch) && SafeTime(t.configurationEpoch)
      && SafeTime(t.createdAt) && SafeTime(t.expiresAt) && !(t.expiresAt <= t.createdAt);
  }

  method ValidateProposal(k: Protocol, p: Proposal) returns (ok: bool)
    requires ScalarRules(k)
    ensures ok <==> k.ValidProposal(p)
  {
    var readable := ObjectAt(RecordValue(OfProposal(p)));
    if !readable {
      if k.ValidProposal(p) { ValidIsCanonicalizable(k, OfProposal(p)); }
      return false;
    }
    return p.version == 1 && k.text(p.proposalId, 256) && k.text(p.effectProfile, 256)
      && k.token(p.operation) && k.text(p.target, 4096)
      && SafeTime(p.createdAt) && SafeTime(p.expiresAt) && !(p.expiresAt <= p.createdAt);
  }

  method ValidateDecision(k: Protocol, d: Decision) returns (ok: bool)
    requires ScalarRules(k)
    ensures ok <==> k.ValidDecision(d)
  {
    hide RecordValue, Canonicalizable, SortedTokens, SortedDigests, DigestTexts;
    var readable := ObjectAt(RecordValue(OfDecision(d)));
    if !readable {
      if k.ValidDecision(d) { ValidIsCanonicalizable(k, OfDecision(d)); }
      return false;
    }
    if |d.evidenceHashes| > 256 || |d.reasonCodes| > 64 {
      return false;
    }
    if exists i :: 0 <= i < |d.reasonCodes| && !k.token(d.reasonCodes[i]) {
      return false;
    }
    SortedTexts(d.evidenceHashes);
    var digestsSorted := SortedUnique(DigestTexts(d.evidenceHashes));
    var codesSorted := SortedUnique(d.reasonCodes);
    if !digestsSorted || !codesSorted || |d.reasonCodes| == 0 || (d.outcome.Allow? && |d.evidenceHashes| == 0) {
      return false;
    }
    return d.version == 1 && k.text(d.decisionId, 256)
      && SafeTime(d.decidedAt) && SafeTime(d.expiresAt) && !(d.expiresAt <= d.decidedAt);
  }

  method ValidateGrant(k: Protocol, g: Grant) returns (ok: bool)
    requires ScalarRules(k)
    ensures ok <==> k.ValidGrant(g)
  {
    var readable := ObjectAt(RecordValue(OfGrant(g)));
    if !readable {
      if k.ValidGrant(g) { ValidIsCanonicalizable(k, OfGrant(g)); }
      return false;
    }
    return g.version == 1 && k.text(g.grantId, 256) && k.text(g.audience, 512)
      && SafeTime(g.notBefore) && SafeTime(g.expiresAt) && g.uses == 1 && k.nonce(g.nonce)
      && !(g.expiresAt <= g.notBefore) && !(g.expiresAt - g.notBefore > 300_000);
  }

  method ValidateReceipt(k: Protocol, r: Receipt) returns (ok: bool)
    requires ScalarRules(k)
    ensures ok <==> k.ValidReceipt(r)
  {
    var readable := ObjectAt(RecordValue(OfReceipt(r)));
    if !readable {
      if k.ValidReceipt(r) { ValidIsCanonicalizable(k, OfReceipt(r)); }
      return false;
    }
    if r.dispatchedAt.Some? && !SafeTime(r.dispatchedAt.value) {
      return false;
    }
    if !(r.version == 1 && k.text(r.receiptId, 256) && k.text(r.attemptId, 256)
         && SafeTime(r.claimedAt) && SafeTime(r.completedAt)) {
      return false;
    }
    if r.completedAt < r.claimedAt {
      return false;
    }
    if r.dispatchedAt.Some? && (r.dispatchedAt.value < r.claimedAt || r.completedAt < r.dispatchedAt.value) {
      return false;
    }
    if (r.outcome.Succeeded? || r.outcome.Failed?) && r.dispatchedAt.None? {
      return false;
    }
    return !(r.outcome.NotDispatched? && r.dispatchedAt.Some?);
  }

  /** What `validateReconciliationRecord` checks: not the link between the
      sequence and the parent, which it leaves to the loop. */
  predicate WellFormedReconciliation(k: Protocol, c: Reconciliation) {
    c.version == 1 && k.text(c.reconciliationId, 256)
    && 1 <= c.sequence <= MAX_SAFE_INTEGER && SafeTime(c.observedAt)
  }

  method ValidateReconciliation(k: Protocol, c: Reconciliation) returns (ok: bool)
    requires ScalarRules(k)
    ensures ok ==> WellFormedReconciliation(k, c)
    ensures k.ValidReconciliation(c) ==> ok
  {
    var readable := ObjectAt(RecordValue(OfReconciliation(c)));
    if !readable {
      if k.ValidReconciliation(c) { ValidIsCanonicalizable(k, OfReconciliation(c)); }
      return false;
    }
    return WellFormedReconciliation(k, c);
  }

  // ---- `verifyTransaction` ----

  /** The checks of one round of the loop extend a history exactly when the
      declarative rule does. */
  lemma RoundExtends(k: Protocol, r: Receipt, cs: seq<Reconciliation>, c: Reconciliation)
    requires IsHistory(k, r, cs) && r.outcome.Unknown? && |cs| < MAX_RECONCILIATION_RECORDS
    ensures IsHistory(k, r, cs + [c]) <==>
      (cs != [] ==> !IsTerminal(cs[|cs| - 1].outcome))
      && WellFormedReconciliation(k, c) && FreshIdentifier(cs, c)
      && c.receiptHash == k.hashReceipt(r) && c.sequence == |cs| + 1
      && c.parentHash == (if cs == [] then None else Some(k.hashReconciliation(cs[|cs| - 1])))
      && c.observedAt >= (if cs == [] then r.completedAt else cs[|cs| - 1].observedAt)
  {
    var all, n := cs + [c], |cs|;
    assert forall i | 0 <= i < n :: all[i] == cs[i];
    if IsHistory(k, r, all) {
      assert IsLink(k, r, all, n);
    }
    forall i | 0 <= i < n ensures IsLink(k, r, all, i) {
      assert IsLink(k, r, cs, i);
    }
  }

  method VerifyHistory(k: Protocol, receipt: Receipt, records: seq<Reconciliation>) returns (r: Option<seq<Digest>>)
    requires ScalarRules(k) && |records| <= MAX_RECONCILIATION_RECORDS
    ensures r.Some? <==> IsHistory(k, receipt, records)
    ensures r.Some? ==> r.value == HistoryHashes(k, records)
  {
    hide ScalarRules, IsHistory, HistoryHashes;
    var hashes: seq<Digest> := [];
    EmptyHistory(k, receipt, records);
    if |records| > 0 && !receipt.outcome.Unknown? {
      return None;
    }
    var prior: Option<Reconciliation> := None;
    var priorHash: Option<Digest> := None;
    var terminal := false;
    var identifiers: set<Units> := {};
    var receiptHash := k.hashReceipt(receipt);
    var index := 0;
    while index < |records|
      invariant index <= |records|
      invariant IsHistory(k, receipt, records[..index])
      invariant prior == LastOf(records[..index])
      invariant priorHash == if prior.None? then None else Some(k.hashReconciliation(prior.value))
      invariant terminal <==> prior.Some? && IsTerminal(prior.value.outcome)
      invariant forall id :: id in identifiers <==> exists i :: 0 <= i < index && records[i].reconciliationId == id
      invariant hashes == HistoryHashes(k, records[..index])
    {
      var current := records[index];
      assert records[..index + 1] == records[..index] + [current];
      RoundExtends(k, receipt, records[..index], current);
      assert FreshIdentifier(records[..index], current) <==> current.reconciliationId !in identifiers;
      var wellFormed := ValidateReconciliation(k, current);
      var lowerTime := if prior.None? then receipt.completedAt else prior.value.observedAt;
      if terminal || !wellFormed || current.reconciliationId in identifiers
         || current.receiptHash != receiptHash || current.sequence != index + 1
         || current.parentHash != priorHash || current.observedAt < lowerTime {
        RefusedRound(k, receipt, records, index, wellFormed);
        return None;
      }
      identifiers := identifiers + {current.reconciliationId};
      var currentHash := k.hashReconciliation(current);
      HashesGrow(k, records[..index], current);
      hashes := hashes + [currentHash];
      prior := Some(current);
      priorHash := Some(currentHash);
      terminal := IsTerminal(current.outcome);
      index := index + 1;
    }
    assert records[..index] == records;
    return Some(hashes);
  }

  lemma EmptyHistory(k: Protocol, r: Receipt, cs: seq<Reconciliation>)
    ensures IsHistory(k, r, cs[..0]) && HistoryHashes(k, cs[..0]) == []
    ensures cs != [] && !r.outcome.Unknown? ==> !IsHistory(k, r, cs)
  {
  }

  lemma HashesGrow(k: Protocol, cs: seq<Reconciliation>, c: Reconciliation)
    ensures HistoryHashes(k, cs + [c]) == HistoryHashes(k, cs) + [k.hashReconciliation(c)]
  {
  }

  lemma RefusedRound(k: Protocol, r: Receipt, cs: seq<Reconciliation>, index: nat, wellFormed: bool)
    requires index < |cs|
    requires !IsHistory(k, r, cs[..index + 1]) || (!wellFormed && !k.ValidReconciliation(cs[index]))
    ensures !IsHistory(k, r, cs)
  {
    if IsHistory(k, r, cs) { RoundAccepted(k, r, cs, index); }
  }

  lemma RoundAccepted(k: Protocol, r: Receipt, cs: seq<Reconciliation>, index: nat)
    requires IsHistory(k, r, cs) && index < |cs|
    ensures IsHistory(k, r, cs[..index + 1]) && k.ValidReconciliation(cs[index])
  {
    HistoryPrefix(k, r, cs, index + 1);
    assert IsLink(k, r, cs, index);
  }

  /** Everything behind the budget check. */
  method VerifyStages(k: Protocol, b: Bundle) returns (v: Option<Verified>)
    requires ScalarRules(k)
    ensures v.Some? <==> Accepts(k, b)
    ensures v.Some? ==> v.value == ResultOf(k, b)
  {
    hide ScalarRules, IsHistory, VerifyDecision, HistoryHashes;
    VerifiedHashes(k, b);
    var decided := VerifyAuthorization(k, b);
    if decided.None? || |b.reconciliations| > MAX_RECONCILIATION_RECORDS {
      return None;
    }
    var h := decided.value;
    if b.grant.None? {
      if b.receipt.Some? || |b.reconciliations| > 0 {
        return None;
      }
      return Some(Verified(h.task, h.proposal, h.decision, None, None, [], Decided));
    }
    var grantHash := VerifyTsGrant(k, b, b.grant.value, h);
    if grantHash.None? {
      return None;
    }
    if b.receipt.None? {
      if |b.reconciliations| > 0 {
        return None;
      }
      return Some(Verified(h.task, h.proposal, h.decision, grantHash, None, [], Granted));
    }
    var receiptHash := VerifyTsReceipt(k, b, b.grant.value, b.receipt.value, h, grantHash.value);
    if receiptHash.None? {
      return None;
    }
    var hashes := VerifyHistory(k, b.receipt.value, b.reconciliations);
    if hashes.None? {
      return None;
    }
    return Some(Verified(h.task, h.proposal, h.decision, grantHash, receiptHash, hashes.value, StateOf(b)));
  }

  /** A stage that passes yields the hashes of its records. */
  lemma VerifiedHashes(k: Protocol, b: Bundle)
    ensures var v := VerifyDecision(k, b.task, b.proposal, b.decision);
            v.Some? ==>
              v.value == DecisionHashes(k.hashTask(b.task), k.hashProposal(b.proposal), k.hashDecision(b.decision))
    ensures b.reconciliations == [] ==> HistoryHashes(k, b.reconciliations) == []
  {
  }

  /** The flag-driven verifier accepts exactly the bundles that Rust accepts and
      reports the same hashes and state; checking the budget first changes nothing. */
  method VerifyTransaction(k: Protocol, b: Bundle, ghost sha: Bytes -> Digest, ghost rules: Protocol)
    returns (v: Option<Verified>)
    requires ScalarRules(rules) && k == Etp(sha, rules)
    ensures v.Some? <==> Accepts(k, b)
    ensures v.Some? ==> v.value == ResultOf(k, b)
  {
    hide ScalarRules, Accepts, BundleValue, Canonicalizable, Etp;
    SameRules(k, sha, rules);
    var readable := ObjectAt(BundleValue(b));
    if !readable {
      if Accepts(k, b) { AcceptedFitsBudget(sha, rules, b); }
      return None;
    }
    v := VerifyStages(k, b);
  }

  lemma SameRules(k: Protocol, sha: Bytes -> Digest, rules: Protocol)
    requires ScalarRules(rules) && k == Etp(sha, rules)
    ensures ScalarRules(k)
  {
  }

  method VerifyAuthorization(k: Protocol, b: Bundle) returns (r: Option<DecisionHashes>)
    requires ScalarRules(k)
    ensures r == VerifyDecision(k, b.task, b.proposal, b.decision)
  {
    hide ScalarRules;
    var t, p, d := b.task, b.proposal, b.decision;
    var task := ValidateTask(k, t);
    if !task {
      return None;
    }
    var proposal := ValidateProposal(k, p);
    if !proposal || p.commitmentHash != k.hashTask(t) || p.createdAt < t.createdAt || p.expiresAt > t.expiresAt {
      return None;
    }
    var decision := ValidateDecision(k, d);
    if !decision || d.proposalHash != k.hashProposal(p) || d.decidedAt < p.createdAt || d.expiresAt > p.expiresAt {
      return None;
    }
    return Some(DecisionHashes(k.hashTask(t), k.hashProposal(p), k.hashDecision(d)));
  }

  method VerifyTsGrant(k: Protocol, b: Bundle, g: Grant, h: DecisionHashes) returns (r: Option<Digest>)
    requires ScalarRules(k) && VerifyDecision(k, b.task, b.proposal, b.decision) == Some(h)
    ensures r == VerifyGrant(k, b.task, b.proposal, b.decision, g)
  {
    hide ScalarRules, VerifyDecision;
    if !b.decision.outcome.Allow? {
      return None;
    }
    var valid := ValidateGrant(k, g);
    if !valid || g.proposalHash != h.proposal || g.decisionHash != h.decision
       || g.notBefore < b.decision.decidedAt || g.expiresAt > b.decision.expiresAt {
      return None;
    }
    return Some(k.hashGrant(g));
  }

  method VerifyTsReceipt(k: Protocol, b: Bundle, g: Grant, x: Receipt, h: DecisionHashes, grantHash: Digest)
    returns (r: Option<Digest>)
    requires ScalarRules(k) && VerifyDecision(k, b.task, b.proposal, b.decision) == Some(h)
    requires VerifyGrant(k, b.task, b.proposal, b.decision, g) == Some(grantHash)
    ensures r == VerifyChain(k, b.task, b.proposal, b.decision, g, x)
  {
    hide ScalarRules, VerifyGrant;
    var valid := ValidateReceipt(k, x);
    if !valid || x.proposalHash != h.proposal || x.grantHash != grantHash
       || x.claimedAt < g.notBefore || x.claimedAt >= g.expiresAt {
      return None;
    }
    return Some(k.hashReceipt(x));
  }
}
