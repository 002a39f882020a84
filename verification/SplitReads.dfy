/** Reading a lifecycle query by query while other connections commit in between. */
module SplitReads {
  import opened Json
  import opened Records
  import opened Verifier
  import opened Sqlite
  import opened SqliteInvariant
  import opened SqliteRuns
  import T = SqliteTheorems

  /** What the queries of one `lifecycle` call see: the chain, the claim, the
      receipt and the history, each as its own SELECT finds it. */
  function Seen(chain: Db, claim: Db, receipt: Db, history: Db): Db {
    chain.(claims := claim.claims, receipts := receipt.receipts, histories := history.histories)
  }

  function ReadAcross(k: Protocol, chain: Db, claim: Db, receipt: Db, history: Db, h: Digest): Option<Lifecycle> {
    ReadLifecycle(k, Seen(chain, claim, receipt, history), h)
  }

  ghost predicate InTurn(k: Protocol, d0: Db, d1: Db, d2: Db, d3: Db) {
    Inv(k, d0) && Inv(k, d1) && Inv(k, d2) && Inv(k, d3) && Extends(d0, d1) && Extends(d1, d2) && Extends(d2, d3)
  }

  lemma RunsInTurn(k: Protocol, ops: seq<Op>, a: seq<Op>, b: seq<Op>, c: seq<Op>)
    ensures var d0 := T.Reached(k, ops); var d1 := Run(k, d0, a); var d2 := Run(k, d1, b);
            InTurn(k, d0, d1, d2, Run(k, d2, c))
  {
    hide Inv, Run, Extends, T.Reached;
    var d0 := T.Reached(k, ops);
    T.ReachedOk(k, ops);
    RunKeeps(k, d0, a);
    RunExtends(k, d0, a);
    RunKeeps(k, Run(k, d0, a), b);
    RunExtends(k, Run(k, d0, a), b);
    RunKeeps(k, Run(k, Run(k, d0, a), b), c);
    RunExtends(k, Run(k, Run(k, d0, a), b), c);
  }

  /** A grant's rows in a later state. */
  lemma RowsLater(db: Db, u: Db, h: Digest)
    requires Extends(db, u)
    ensures h in db.chainByHash ==> h in u.chainByHash && u.chainByHash[h] == db.chainByHash[h]
    ensures h in db.chainByHash && db.chainByHash[h] in db.chains ==>
              db.chainByHash[h] in u.chains && u.chains[db.chainByHash[h]] == db.chains[db.chainByHash[h]]
    ensures h in db.claims ==> h in u.claims && ClaimGrows(db.claims[h], u.claims[h])
    ensures h in db.receipts ==> h in u.receipts && u.receipts[h] == db.receipts[h]
  {
  }

  lemma Registered(k: Protocol, db: Db, h: Digest)
    requires Inv(k, db) && h in db.chainByHash
    ensures db.chainByHash[h] in db.chains && Intact(k, db.chains[db.chainByHash[h]])
  {
    hide ClaimsOk, IsLastTime, CurrentnessOk, HistoriesOk, ReceiptsOk, Intact;
    assert ChainOk(k, db.chainByHash, db.chainByHash[h], db.chains[db.chainByHash[h]]);
  }

  /** The part of a split read that concerns the receipt. */
  lemma ReceiptSeen(k: Protocol, d0: Db, d1: Db, d2: Db, d3: Db, h: Digest)
    requires InTurn(k, d0, d1, d2, d3) && h in d0.chainByHash && h in d2.receipts
    ensures d0.chainByHash[h] in d0.chains
    ensures var r, row := d2.receipts[h].receipt, d0.chains[d0.chainByHash[h]];
            IntactReceipt(k, d2.receipts[h])
            && VerifyChain(k, row.task, row.proposal, row.decision, row.grant, r).Some?
            && (h in d1.claims ==> d1.claims[h].attemptId == r.attemptId && d1.claims[h].claimedAt == r.claimedAt)
            && LinksHold(k, r, AllRecords(d3.histories, d2.receipts[h].receiptHash))
  {
    hide Inv, Extends, AllRecords, IsHistory, LinksHold, VerifyChain;
    Registered(k, d0, h);
    RowsLater(d0, d1, h);
    RowsLater(d1, d2, h);
    RowsLater(d2, d3, h);
    ReceiptInvariant(k, d2, h);
    ReceiptInvariant(k, d3, h);
    HistoryLinks(k, d3.receipts[h].receipt, AllRecords(d3.histories, d3.receipts[h].receiptHash));
  }

  /** A split read of a registered grant fails exactly when its receipt was found
      but its claim was not yet there, or had not the marker that the receipt tells of. */
  lemma SplitFailsExactly(k: Protocol, ops: seq<Op>, a: seq<Op>, b: seq<Op>, c: seq<Op>, h: Digest)
    ensures var d0 := T.Reached(k, ops); var d1 := Run(k, d0, a); var d2 := Run(k, d1, b); var d3 := Run(k, d2, c);
            h in d0.chainByHash ==>
              (ReadAcross(k, d0, d1, d2, d3, h).None? <==>
                 h in d2.receipts
                 && (h in d1.claims ==> !EvidenceMatches(d2.receipts[h].receipt, d1.claims[h].marker)))
  {
    hide Run, T.Reached, InTurn, ReadAcross;
    var d0 := T.Reached(k, ops);
    var d1 := Run(k, d0, a);
    var d2 := Run(k, d1, b);
    RunsInTurn(k, ops, a, b, c);
    if h in d0.chainByHash { SplitFails(k, d0, d1, d2, Run(k, d2, c), h); }
  }

  lemma SplitFails(k: Protocol, d0: Db, d1: Db, d2: Db, d3: Db, h: Digest)
    requires InTurn(k, d0, d1, d2, d3) && h in d0.chainByHash
    ensures ReadAcross(k, d0, d1, d2, d3, h).None? <==>
              h in d2.receipts && (h in d1.claims ==> !EvidenceMatches(d2.receipts[h].receipt, d1.claims[h].marker))
  {
    hide Inv, Extends, Intact, IntactReceipt, VerifyChain, AllRecords, LinksHold;
    Registered(k, d0, h);
    if h in d2.receipts { ReceiptSeen(k, d0, d1, d2, d3, h); }
  }

  /** A split read that succeeds is a lifecycle the store really had: without a
      receipt that of the claim query; with one that of the last query, unless
      the lifecycle has become unreadable by then. */
  lemma SplitReadsOneMoment(k: Protocol, ops: seq<Op>, a: seq<Op>, b: seq<Op>, c: seq<Op>, h: Digest)
    ensures var d0 := T.Reached(k, ops); var d1 := Run(k, d0, a); var d2 := Run(k, d1, b); var d3 := Run(k, d2, c);
            var l := ReadAcross(k, d0, d1, d2, d3, h);
            l.Some? ==>
              (l.value.receipt.None? ==> l == ReadLifecycle(k, d1, h))
              && (l.value.receipt.Some? && ReadLifecycle(k, d3, h).Some? ==> l == ReadLifecycle(k, d3, h))
  {
    hide Run, T.Reached, InTurn, ReadAcross, ReadLifecycle;
    var d0 := T.Reached(k, ops);
    var d1 := Run(k, d0, a);
    var d2 := Run(k, d1, b);
    RunsInTurn(k, ops, a, b, c);
    if ReadAcross(k, d0, d1, d2, Run(k, d2, c), h).Some? { SplitMoment(k, d0, d1, d2, Run(k, d2, c), h); }
  }

  lemma SplitMoment(k: Protocol, d0: Db, d1: Db, d2: Db, d3: Db, h: Digest)
    requires InTurn(k, d0, d1, d2, d3) && ReadAcross(k, d0, d1, d2, d3, h).Some?
    ensures var l := ReadAcross(k, d0, d1, d2, d3, h);
            (l.value.receipt.None? ==> l == ReadLifecycle(k, d1, h))
            && (l.value.receipt.Some? && ReadLifecycle(k, d3, h).Some? ==> l == ReadLifecycle(k, d3, h))
  {
    hide Inv, Extends, Intact, IntactReceipt, VerifyChain, AllRecords, LinksHold;
    Registered(k, d0, h);
    RowsLater(d0, d1, h);
    RowsLater(d1, d2, h);
    RowsLater(d2, d3, h);
  }

  /** Its claim is always what a read at the moment of the claim query yields, so
      recovery, which goes by the claim alone, could as well have read then. */
  lemma SplitClaimOneMoment(k: Protocol, ops: seq<Op>, a: seq<Op>, b: seq<Op>, c: seq<Op>, h: Digest)
    ensures var d0 := T.Reached(k, ops); var d1 := Run(k, d0, a); var d2 := Run(k, d1, b); var d3 := Run(k, d2, c);
            var l, m := ReadAcross(k, d0, d1, d2, d3, h), ReadLifecycle(k, d1, h);
            l.Some? ==> m.Some? && m.value.claim == l.value.claim
  {
    hide Run, T.Reached, InTurn, ReadAcross, ReadLifecycle;
    var d0 := T.Reached(k, ops);
    var d1 := Run(k, d0, a);
    var d2 := Run(k, d1, b);
    RunsInTurn(k, ops, a, b, c);
    if ReadAcross(k, d0, d1, d2, Run(k, d2, c), h).Some? { SplitClaim(k, d0, d1, d2, Run(k, d2, c), h); }
  }

  lemma SplitClaim(k: Protocol, d0: Db, d1: Db, d2: Db, d3: Db, h: Digest)
    requires InTurn(k, d0, d1, d2, d3) && ReadAcross(k, d0, d1, d2, d3, h).Some?
    ensures ReadLifecycle(k, d1, h).Some?
    ensures ReadLifecycle(k, d1, h).value.claim == ReadAcross(k, d0, d1, d2, d3, h).value.claim
  {
    hide Inv, Extends, Intact, IntactReceipt, VerifyChain, AllRecords, LinksHold, ReadLifecycle;
    SeenClaim(k, d0, d1, d2, d3, h);
    SplitFails(k, d0, d1, d2, d3, h);
    RowsLater(d0, d1, h);
    RowsLater(d1, d2, h);
    LifecycleReads(k, d1, h);
    if h in d1.receipts { ReceiptInvariant(k, d1, h); }
  }

  lemma SeenClaim(k: Protocol, d0: Db, d1: Db, d2: Db, d3: Db, h: Digest)
    requires ReadAcross(k, d0, d1, d2, d3, h).Some?
    ensures h in d0.chainByHash
    ensures ReadAcross(k, d0, d1, d2, d3, h).value.claim == (if h in d1.claims then Some(d1.claims[h]) else None)
  {
    hide Intact, IntactReceipt, VerifyChain, AllRecords, LinksHold;
  }

  // ---- Once the lifecycle has become unreadable ----

  predicate Marked(db: Db, h: Digest) { h in db.claims && db.claims[h].marker.Some? }

  /** The last state of a run before the claim has its marker. */
  function BeforeMarker(k: Protocol, db: Db, ops: seq<Op>, h: Digest): Db
    decreases |ops|
  {
    if ops == [] || Marked(Step(k, db, ops[0]), h) then db else BeforeMarker(k, Step(k, db, ops[0]), ops[1..], h)
  }

  lemma {:induction false} MarkerStep(k: Protocol, db: Db, ops: seq<Op>, h: Digest) returns (n: nat)
    requires !Marked(db, h) && Marked(Run(k, db, ops), h)
    ensures n < |ops| && Run(k, db, ops[..n]) == BeforeMarker(k, db, ops, h)
    ensures !Marked(Run(k, db, ops[..n]), h) && Marked(Step(k, Run(k, db, ops[..n]), ops[n]), h)
    decreases |ops|
  {
    hide Step, Marked;
    if Marked(Step(k, db, ops[0]), h) {
      n := 0;
    } else {
      var m := MarkerStep(k, Step(k, db, ops[0]), ops[1..], h);
      n := m + 1;
      assert ops[..n][1..] == ops[1..][..m];
    }
  }

  /** Two moments of a run. */
  lemma Moments(k: Protocol, db: Db, ops: seq<Op>, m: nat, n: nat)
    requires Inv(k, db) && m <= n <= |ops|
    ensures Inv(k, Run(k, db, ops[..m])) && Inv(k, Run(k, db, ops[..n]))
    ensures Extends(Run(k, db, ops[..m]), Run(k, db, ops[..n]))
  {
    hide Inv, Run, Extends;
    assert ops[..n] == ops[..m] + ops[m..n];
    RunConcat(k, db, ops[..m], ops[m..n]);
    RunKeeps(k, db, ops[..m]);
    RunKeeps(k, db, ops[..n]);
    RunExtends(k, Run(k, db, ops[..m]), ops[m..n]);
  }

  lemma StaysMarked(db: Db, u: Db, h: Digest)
    requires Extends(db, u) && Marked(db, h)
    ensures Marked(u, h) && u.claims[h] == db.claims[h]
  {
    RowsLater(db, u, h);
  }

  lemma StepMoment(k: Protocol, db: Db, ops: seq<Op>, n: nat)
    requires n < |ops|
    ensures Run(k, db, ops[..n + 1]) == Step(k, Run(k, db, ops[..n]), ops[n])
  {
    hide Step;
    assert ops[..n + 1] == ops[..n] + [ops[n]];
    RunConcat(k, db, ops[..n], [ops[n]]);
    assert [ops[n]][1..] == [];
  }

  /** Only a receipt transaction adds a receipt, and beside a marker it reports a dispatch. */
  lemma ReceiptAfterMarker(k: Protocol, db: Db, op: Op, h: Digest)
    requires h in Step(k, db, op).receipts && h !in db.receipts && Marked(db, h)
    ensures Step(k, db, op).receipts[h].receipt.dispatchedAt.Some?
  {
    hide Step, LoadChainByHash, IntactReceipt, VerifyChain;
    if !op.ReceiptOp? { ReceiptsUntouched(k, db, op); }
    RecordedEvidence(k, db, op.receipt, h);
  }

  lemma RecordedEvidence(k: Protocol, db: Db, r: Receipt, h: Digest)
    requires h in Step(k, db, ReceiptOp(r)).receipts && h !in db.receipts
    ensures h == r.grantHash && Step(k, db, ReceiptOp(r)).receipts[h].receipt == r
    ensures h in db.claims && EvidenceMatches(r, db.claims[h].marker)
  {
    hide LoadChainByHash, IntactReceipt, VerifyChain;
  }

  /** A receipt that reports no dispatch is older than the marker. */
  lemma {:induction false} ReceiptBeforeMarker(k: Protocol, db: Db, ops: seq<Op>, h: Digest)
    requires Inv(k, db) && Marked(db, h) && h !in db.receipts
    ensures var u := Run(k, db, ops); h in u.receipts ==> u.receipts[h].receipt.dispatchedAt.Some?
    decreases |ops|
  {
    hide Inv, Step, Extends, Marked;
    if ops != [] {
      var u := Step(k, db, ops[0]);
      StepKeeps(k, db, ops[0]);
      CurrentRows(k, db);
      StepExtends(k, db, ops[0]);
      StaysMarked(db, u, h);
      if h in u.receipts {
        ReceiptAfterMarker(k, db, ops[0], h);
        RunExtends(k, u, ops[1..]);
        RowsLater(u, Run(k, u, ops[1..]), h);
      } else {
        ReceiptBeforeMarker(k, u, ops[1..], h);
      }
    }
  }

  lemma CurrentRows(k: Protocol, db: Db)
    requires Inv(k, db)
    ensures CurrentnessOk(k, db.currentness)
  {
  }

  /** The step that marks a claim records no receipt. */
  lemma MarkerStepReceipts(k: Protocol, db: Db, op: Op, h: Digest)
    requires h in db.claims && !Marked(db, h) && Marked(Step(k, db, op), h)
    ensures Step(k, db, op).receipts == db.receipts
  {
    hide Step;
    if op.MarkOp? { ReceiptsUntouched(k, db, op); } else { ClaimOnlyMarked(k, db, op, h); }
  }

  lemma RowsGrow(k: Protocol, r: Receipt, hs: Histories, more: Histories, rh: Digest, m: nat, n: nat)
    requires HistoryOk(k, r, hs, rh, m) && HistoryOk(k, r, more, rh, n) && Kept(hs, more)
    ensures AllRecords(hs, rh) <= AllRecords(more, rh)
  {
    hide IsHistory, AllRecords;
    HistoryRead(k, r, hs, rh, m);
    HistoryRead(k, r, more, rh, n);
    if m > 0 {
      var last: u64 := m;
      assert HistoryKey(rh, last) in more;
      assert last in Sequences(more, rh);
    }
  }

  /** A history only grows at its end. */
  lemma RecordsGrow(k: Protocol, db: Db, u: Db, h: Digest)
    requires Inv(k, db) && Inv(k, u) && Extends(db, u) && h in db.receipts
    ensures h in u.receipts && u.receipts[h] == db.receipts[h]
    ensures AllRecords(db.histories, db.receipts[h].receiptHash) <= AllRecords(u.histories, db.receipts[h].receiptHash)
  {
    hide Inv, HistoryOk, AllRecords, CurrentnessAdvances, ClaimsGrow;
    RowsLater(db, u, h);
    var m := StoredHistory(k, db, h);
    var n := StoredHistory(k, u, h);
    RowsGrow(k, db.receipts[h].receipt, db.histories, u.histories, db.receipts[h].receiptHash, m, n);
  }

  function HistoryIn(k: Protocol, db: Db, r: Receipt): seq<Reconciliation> {
    AllRecords(db.histories, k.hashReceipt(r))
  }

  lemma LostFacts(k: Protocol, d0: Db, d1: Db, d2: Db, d3: Db, h: Digest, l: Lifecycle, r: Receipt)
    requires InTurn(k, d0, d1, d2, d3) && ReadAcross(k, d0, d1, d2, d3, h) == Some(l) && l.receipt == Some(r)
    requires ReadLifecycle(k, d3, h).None?
    ensures h in d0.chainByHash && h in d1.claims && d1.claims[h].marker.None? && Marked(d3, h)
    ensures h in d3.receipts && d3.receipts[h].receipt == r && d3.receipts[h].receiptHash == k.hashReceipt(r)
    ensures r.dispatchedAt.None? && EvidenceMatches(r, None)
    ensures l == Lifecycle(Some(d1.claims[h]), Some(r), HistoryIn(k, d3, r))
  {
    hide Inv, Extends, Intact, VerifyChain, AllRecords, LinksHold, ReadLifecycle, ReadAcross;
    SeenWhole(k, d0, d1, d2, d3, h, l);
    SplitFails(k, d0, d1, d2, d3, h);
    RowsLater(d0, d1, h);
    RowsLater(d1, d2, h);
    RowsLater(d2, d3, h);
    LifecycleReads(k, d3, h);
    ReceiptInvariant(k, d3, h);
  }

  lemma SeenWhole(k: Protocol, d0: Db, d1: Db, d2: Db, d3: Db, h: Digest, l: Lifecycle)
    requires ReadAcross(k, d0, d1, d2, d3, h) == Some(l) && l.receipt.Some?
    ensures h in d0.chainByHash && h in d1.claims && h in d2.receipts
    ensures l == Lifecycle(Some(d1.claims[h]), Some(d2.receipts[h].receipt),
                           AllRecords(d3.histories, d2.receipts[h].receiptHash))
  {
    hide Intact, IntactReceipt, VerifyChain, AllRecords, LinksHold;
  }

  lemma ReceiptByMarker(k: Protocol, db: Db, ops: seq<Op>, n: nat, h: Digest)
    requires Inv(k, db) && n < |ops| && h in Run(k, db, ops[..n]).claims && !Marked(Run(k, db, ops[..n]), h)
    requires Marked(Step(k, Run(k, db, ops[..n]), ops[n]), h)
    requires h in Run(k, db, ops).receipts && Run(k, db, ops).receipts[h].receipt.dispatchedAt.None?
    ensures h in Run(k, db, ops[..n]).receipts
  {
    hide Inv, Run, Step, Marked;
    var v := Run(k, db, ops[..n + 1]);
    StepMoment(k, db, ops, n);
    RunKeeps(k, db, ops[..n + 1]);
    assert ops == ops[..n + 1] + ops[n + 1..];
    RunConcat(k, db, ops[..n + 1], ops[n + 1..]);
    if h !in v.receipts { ReceiptBeforeMarker(k, v, ops[n + 1..], h); }
    MarkerStepReceipts(k, Run(k, db, ops[..n]), ops[n], h);
  }

  /** A moment with the final history is no later than the state before the
      marker, whose history lies between the two. */
  lemma EarlierMoment(k: Protocol, db: Db, ops: seq<Op>, m: nat, n: nat, h: Digest, claim: ClaimRow, r: Receipt)
    requires Inv(k, db) && m <= |ops| && n < |ops| && claim.marker.None?
    requires Marked(Step(k, Run(k, db, ops[..n]), ops[n]), h)
    requires ReadLifecycle(k, Run(k, db, ops[..m]), h)
          == Some(Lifecycle(Some(claim), Some(r), HistoryIn(k, Run(k, db, ops), r)))
    ensures HistoryIn(k, Run(k, db, ops[..n]), r) == HistoryIn(k, Run(k, db, ops), r)
  {
    hide Inv, Run, Extends, ReadLifecycle, AllRecords, Step, VerifyChain;
    var s, u := Run(k, db, ops[..m]), Run(k, db, ops[..n]);
    assert ops[..|ops|] == ops;
    Moments(k, db, ops, m, |ops|);
    LifecycleReads(k, s, h);
    StepMoment(k, db, ops, n);
    if n < m {
      Moments(k, db, ops, n + 1, m);
      StaysMarked(Run(k, db, ops[..n + 1]), s, h);
    }
    Moments(k, db, ops, m, n);
    Moments(k, db, ops, n, |ops|);
    ReceiptInvariant(k, s, h);
    RecordsGrow(k, s, u, h);
    RecordsGrow(k, u, Run(k, db, ops), h);
  }

  /** The state before the marker has the claim and the receipt of the split read. */
  lemma AtMarker(k: Protocol, d0: Db, d1: Db, d3: Db, all: seq<Op>, i: nat, n: nat, h: Digest)
    requires Inv(k, d0) && i <= |all| && n < |all| && d1 == Run(k, d0, all[..i]) && d3 == Run(k, d0, all)
    requires h in d0.chainByHash && h in d1.claims && !Marked(d1, h) && h in d3.receipts
    requires d3.receipts[h].receipt.dispatchedAt.None? && EvidenceMatches(d3.receipts[h].receipt, None)
    requires !Marked(Run(k, d0, all[..n]), h) && Marked(Step(k, Run(k, d0, all[..n]), all[n]), h)
    ensures var u, r := Run(k, d0, all[..n]), d3.receipts[h].receipt;
            Inv(k, u) && Extends(u, d3) && h in u.receipts
            && ReadLifecycle(k, u, h) == Some(Lifecycle(Some(d1.claims[h]), Some(r), HistoryIn(k, u, r)))
            && (r.outcome.NotDispatched? ==> HistoryIn(k, u, r) == HistoryIn(k, d3, r) == [])
  {
    hide Inv, Run, Extends, ReadLifecycle, AllRecords, Step, VerifyChain;
    var u := Run(k, d0, all[..n]);
    assert all[..|all|] == all;
    StepMoment(k, d0, all, n);
    Moments(k, d0, all, n, n + 1);
    Moments(k, d0, all, n + 1, |all|);
    if n < i {
      Moments(k, d0, all, n + 1, i);
      StaysMarked(Run(k, d0, all[..n + 1]), d1, h);
    }
    Moments(k, d0, all, i, n);
    RowsLater(d1, u, h);
    RunExtends(k, d0, all[..n]);
    RowsLater(d0, u, h);
    ReceiptByMarker(k, d0, all, n, h);
    Moments(k, d0, all, n, |all|);
    RecordsGrow(k, u, d3, h);
    ReceiptInvariant(k, u, h);
    ReceiptInvariant(k, d3, h);
    LifecycleReads(k, u, h);
  }

  lemma LostRead(
    k: Protocol, d0: Db, d1: Db, d2: Db, d3: Db, all: seq<Op>, i: nat, h: Digest, l: Lifecycle, r: Receipt)
    requires InTurn(k, d0, d1, d2, d3) && ReadAcross(k, d0, d1, d2, d3, h) == Some(l) && l.receipt == Some(r)
    requires ReadLifecycle(k, d3, h).None?
    requires i <= |all| && d1 == Run(k, d0, all[..i]) && d3 == Run(k, d0, all)
    ensures (exists m | 0 <= m <= |all| :: ReadLifecycle(k, Run(k, d0, all[..m]), h) == Some(l))
        <==> HistoryIn(k, BeforeMarker(k, d0, all, h), r) == l.history
    ensures r.outcome.NotDispatched? ==> HistoryIn(k, BeforeMarker(k, d0, all, h), r) == l.history
  {
    hide Inv, Run, Extends, ReadAcross, ReadLifecycle, BeforeMarker, HistoryIn, Step, EvidenceMatches;
    LostFacts(k, d0, d1, d2, d3, h, l, r);
    if Marked(d0, h) { StaysMarked(d0, d1, h); }
    var n := MarkerStep(k, d0, all, h);
    AtMarker(k, d0, d1, d3, all, i, n, h);
    var u := Run(k, d0, all[..n]);
    if HistoryIn(k, u, r) == l.history {
      assert ReadLifecycle(k, Run(k, d0, all[..n]), h) == Some(l);
    }
    forall m | 0 <= m <= |all| && ReadLifecycle(k, Run(k, d0, all[..m]), h) == Some(l)
      ensures HistoryIn(k, u, r) == l.history
    {
      EarlierMoment(k, d0, all, m, n, h, d1.claims[h], r);
    }
  }

  /** What a split read returns is the lifecycle of some moment of the read if and
      only if it has no receipt, or the lifecycle is readable at the end, or its
      history has not grown since the marker came; for `not_dispatched` it always is. */
  lemma SplitReadsMomentExactly(k: Protocol, ops: seq<Op>, a: seq<Op>, b: seq<Op>, c: seq<Op>, h: Digest)
    ensures var d0 := T.Reached(k, ops); var d1 := Run(k, d0, a); var d2 := Run(k, d1, b); var d3 := Run(k, d2, c);
            var l, all := ReadAcross(k, d0, d1, d2, d3, h), a + b + c;
            l.Some? ==>
              ((exists m | 0 <= m <= |all| :: ReadLifecycle(k, Run(k, d0, all[..m]), h) == l) <==>
                 l.value.receipt.None? || ReadLifecycle(k, d3, h).Some?
                 || HistoryIn(k, BeforeMarker(k, d0, all, h), l.value.receipt.value) == l.value.history)
              && (l.value.receipt.Some? && l.value.receipt.value.outcome.NotDispatched? ==>
                    exists m | 0 <= m <= |all| :: ReadLifecycle(k, Run(k, d0, all[..m]), h) == l)
  {
    hide Inv, Run, Extends, T.Reached, InTurn, ReadAcross, ReadLifecycle, BeforeMarker, AllRecords;
    var d0 := T.Reached(k, ops);
    var d1 := Run(k, d0, a);
    var d2 := Run(k, d1, b);
    var d3 := Run(k, d2, c);
    var l, all := ReadAcross(k, d0, d1, d2, d3, h), a + b + c;
    RunsInTurn(k, ops, a, b, c);
    RunConcat(k, d0, a, b);
    RunConcat(k, d0, a + b, c);
    assert all[..|a|] == a && all[..|all|] == all;
    if l.Some? {
      SplitReadsOneMoment(k, ops, a, b, c, h);
      if l.value.receipt.None? {
        assert ReadLifecycle(k, Run(k, d0, all[..|a|]), h) == l;
      } else if ReadLifecycle(k, d3, h).Some? {
        assert ReadLifecycle(k, Run(k, d0, all[..|all|]), h) == l;
      } else {
        LostRead(k, d0, d1, d2, d3, all, |a|, h, l.value, l.value.receipt.value);
      }
    }
  }
}
