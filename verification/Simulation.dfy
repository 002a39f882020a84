/** The durable store refines the in-memory store: forgetting markers,
    currentness and global identifiers, each of its committed transactions is a
    successful call of the simple machine, or changes nothing there. */
module Simulation {
  import opened Unicode
  import opened Json
  import opened Records
  import opened Verifier
  import opened Sqlite
  import opened SqliteInvariant
  import M = MemoryStore

  // ---- The abstraction ----

  function ClaimOf(db: Db, id: Units, h: Digest): Option<M.GrantClaim> {
    if h in db.claims then Some(M.GrantClaim(id, h, db.claims[h].attemptId, db.claims[h].claimedAt)) else None
  }

  function ReceiptOf(db: Db, h: Digest): Option<Receipt> {
    if h in db.receipts then Some(db.receipts[h].receipt) else None
  }

  function HistoryOf(db: Db, h: Digest): seq<Reconciliation> {
    if h in db.receipts then AllRecords(db.histories, db.receipts[h].receiptHash) else []
  }

  /** A grant's rows as the in-memory store would hold them. */
  function StoredOf(db: Db, id: Units): M.Stored
    requires id in db.chains
  {
    var row := db.chains[id];
    M.Stored(row.grantHash, row.task, row.proposal, row.decision, row.grant,
             ClaimOf(db, id, row.grantHash), ReceiptOf(db, row.grantHash), HistoryOf(db, row.grantHash))
  }

  ghost predicate SameGrants(db: Db, s: M.MemState) {
    s.grants.Keys == db.chains.Keys && forall id | id in db.chains :: s.grants[id] == StoredOf(db, id)
  }

  ghost predicate SameIndexes(db: Db, s: M.MemState) {
    s.byHash == db.chainByHash
    && (forall h :: h in s.byProposal <==> exists id :: id in db.chains && db.chains[id].proposalHash == h)
    && (forall h :: h in s.byDecision <==> exists id :: id in db.chains && db.chains[id].decisionHash == h)
    && s.byReceipt.Keys == db.receiptByHash.Keys
    && (forall rh | rh in db.receiptByHash ::
          db.receiptByHash[rh] in db.chainByHash && s.byReceipt[rh] == db.chainByHash[db.receiptByHash[rh]])
  }

  /** The simple store's clock fence is never ahead of the durable one: markers move only the latter. */
  ghost predicate Related(db: Db, s: M.MemState) {
    SameGrants(db, s) && SameIndexes(db, s)
    && (s.lastTime.Some? ==> db.lastTime.Some? && s.lastTime.value <= db.lastTime.value)
  }

  function RequestOf(db: Db, q: ClaimRequest): M.Request
    requires q.key in db.currentness
  {
    var s := db.currentness[q.key];
    M.Request(q.attemptId, q.audience, s.policyEpoch, s.configurationEpoch, s.preStateDigest, s.resourceClaimDigest,
              s.revoked)
  }

  /** The simple machine's part of a committed transaction; `None` when it stutters. */
  function CallOf(k: Protocol, db: Db, op: Op): Option<M.Call> {
    if Step(k, db, op) == db then None
    else
      match op
      case RegisterOp(t, p, d, g) => Some(M.RegisterCall(t, p, d, g))
      case CurrentnessOp(_) => None
      case ClaimOp(g, q, now) =>
        if q.key in db.currentness then Some(M.ClaimCall(g, RequestOf(db, q), Some(now))) else None
      case MarkOp(_, _, _) => None
      case ReceiptOp(r) => Some(M.ReceiptCall(r))
      case ReconciliationOp(c) => Some(M.ReconciliationCall(c))
  }

  function Follow(k: Protocol, s: M.MemState, call: Option<M.Call>): M.MemState {
    if call.None? then s else M.After(k, s, call.value)
  }

  // ---- Facts about the rows of one grant ----

  lemma RegisteredRow(k: Protocol, db: Db, id: Units)
    requires Inv(k, db) && id in db.chains
    ensures ChainOk(k, db.chainByHash, id, db.chains[id])
  {
    hide ChainOk, ClaimsOk, ReceiptsOk, HistoriesOk, IsLastTime, CurrentnessOk;
  }

  lemma IndexedChain(k: Protocol, db: Db, h: Digest)
    requires Inv(k, db) && h in db.chainByHash
    ensures db.chainByHash[h] in db.chains && db.chains[db.chainByHash[h]].grantHash == h
  {
    hide ClaimsOk, ReceiptsOk, HistoriesOk, IsLastTime, CurrentnessOk;
  }

  /** A grant not yet registered has no claim and no receipt. */
  lemma UnregisteredBare(k: Protocol, db: Db, h: Digest)
    requires Inv(k, db) && h !in db.chainByHash
    ensures h !in db.claims && h !in db.receipts
  {
    hide ChainsOk, HistoriesOk, IsLastTime, CurrentnessOk;
  }

  /** What the invariant knows of a stored receipt and its history. */
  lemma HistoryAt(k: Protocol, db: Db, h: Digest) returns (n: nat)
    requires Inv(k, db) && h in db.receipts
    ensures var row := db.receipts[h];
            row.receiptHash in db.receiptByHash && db.receiptByHash[row.receiptHash] == h
            && h in db.claims && h in db.chainByHash && db.chainByHash[h] in db.chains
            && ReceiptOk(k, h, db.chains[db.chainByHash[h]], db.claims[h], row)
            && HistoryOk(k, row.receipt, db.histories, row.receiptHash, n)
            && AllRecords(db.histories, row.receiptHash) == History(db.histories, row.receiptHash, n)
  {
    hide ChainsOk, ClaimsOk, IsLastTime, CurrentnessOk, ReceiptOk, HistoryOk, AllRecords;
    var row := db.receipts[h];
    n :| HistoryOk(k, row.receipt, db.histories, row.receiptHash, n);
    assert n <= MAX_RECONCILIATION_RECORDS
           && (forall i: u64 | 1 <= i <= n :: HistoryKey(row.receiptHash, i) in db.histories) by {
      HistoryShape(k, row.receipt, db.histories, row.receiptHash, n);
    }
    HistoryRead(k, row.receipt, db.histories, row.receiptHash, n);
  }

  lemma HistoryShape(k: Protocol, r: Receipt, hs: Histories, rh: Digest, n: nat)
    requires HistoryOk(k, r, hs, rh, n)
    ensures n <= MAX_RECONCILIATION_RECORDS && forall i: u64 | 1 <= i <= n :: HistoryKey(rh, i) in hs
  {
  }

  // ---- One transaction at a time ----

  /** Rows on which a grant's abstraction depends. */
  predicate SameRows(db: Db, u: Db, h: Digest) {
    (h in u.claims <==> h in db.claims)
    && (h in db.claims ==>
          u.claims[h].attemptId == db.claims[h].attemptId && u.claims[h].claimedAt == db.claims[h].claimedAt)
    && ReceiptOf(u, h) == ReceiptOf(db, h) && HistoryOf(u, h) == HistoryOf(db, h)
  }

  lemma SameStored(db: Db, u: Db, id: Units)
    requires id in db.chains && id in u.chains && u.chains[id] == db.chains[id]
    requires SameRows(db, u, db.chains[id].grantHash)
    ensures StoredOf(u, id) == StoredOf(db, id)
  {
    hide HistoryOf, ReceiptOf;
  }

  /** Only the entry of one grant changes. */
  lemma OneGrantChanges(db: Db, u: Db, s: M.MemState, v: M.MemState, id: Units)
    requires SameGrants(db, s) && id in u.chains && u.chains.Keys == db.chains.Keys + {id}
    requires v.grants == s.grants[id := StoredOf(u, id)]
    requires forall other | other in db.chains && other != id :: StoredOf(u, other) == StoredOf(db, other)
    ensures SameGrants(u, v)
  {
    hide StoredOf;
  }

  lemma NoGrantChanges(db: Db, u: Db, s: M.MemState)
    requires SameGrants(db, s) && u.chains == db.chains
    requires forall id | id in db.chains :: SameRows(db, u, db.chains[id].grantHash)
    ensures SameGrants(u, s)
  {
    hide StoredOf, SameRows;
    forall id | id in db.chains ensures StoredOf(u, id) == StoredOf(db, id) { SameStored(db, u, id); }
  }

  lemma RegisterAccepted(k: Protocol, db: Db, s: M.MemState, t: Task, p: Proposal, d: Decision, g: Grant)
    requires Related(db, s)
    requires RegisterChain(k, db, t, p, d, g).Some? && RegisterChain(k, db, t, p, d, g).value != db
    ensures var h := VerifyGrant(k, t, p, d, g);
            h.Some? && M.Register(k, s, t, p, d, g).1 == h
            && M.Register(k, s, t, p, d, g).0 ==
                 s.(grants := s.grants[g.grantId := M.Stored(h.value, t, p, d, g, None, None, [])],
                    byHash := s.byHash[h.value := g.grantId],
                    byDecision := s.byDecision[k.hashDecision(d) := g.grantId],
                    byProposal := s.byProposal[k.hashProposal(p) := g.grantId])
  {
    hide VerifyGrant, StoredOf;
  }

  lemma SimulatesRegister(k: Protocol, db: Db, s: M.MemState, t: Task, p: Proposal, d: Decision, g: Grant)
    requires Inv(k, db) && Related(db, s)
    requires RegisterChain(k, db, t, p, d, g).Some? && RegisterChain(k, db, t, p, d, g).value != db
    ensures M.Succeeds(k, s, M.RegisterCall(t, p, d, g))
    ensures Related(RegisterChain(k, db, t, p, d, g).value, M.After(k, s, M.RegisterCall(t, p, d, g)))
  {
    hide Inv, VerifyGrant, RegisterChain, M.Register, HistoryOf, ReceiptOf, SameGrants, SameIndexes;
    RegisterAccepted(k, db, s, t, p, d, g);
    RegisteredNew(k, db, t, p, d, g);
    var u, v := RegisterChain(k, db, t, p, d, g).value, M.Register(k, s, t, p, d, g).0;
    var h := VerifyGrant(k, t, p, d, g).value;
    UnregisteredBare(k, db, h);
    NewStored(db, u, g.grantId);
    forall id | id in db.chains && id != g.grantId ensures StoredOf(u, id) == StoredOf(db, id) {
      RegisteredRow(k, db, id);
      RowsKept(db, u, db.chains[id].grantHash);
      SameStored(db, u, id);
    }
    OneGrantChanges(db, u, s, v, g.grantId);
    IndexesGrow(db, s, u, v, g.grantId);
  }

  lemma RowsKept(db: Db, u: Db, h: Digest)
    requires u.claims == db.claims && u.receipts == db.receipts && u.histories == db.histories
    ensures SameRows(db, u, h)
  {
    hide AllRecords;
  }

  lemma NewStored(db: Db, u: Db, id: Units)
    requires id in u.chains && u.chains[id].grantHash !in u.claims && u.chains[id].grantHash !in u.receipts
    ensures var row := u.chains[id];
            StoredOf(u, id) == M.Stored(row.grantHash, row.task, row.proposal, row.decision, row.grant, None, None, [])
  {
  }

  lemma IndexesGrow(db: Db, s: M.MemState, u: Db, v: M.MemState, id: Units)
    requires SameIndexes(db, s) && id !in db.chains && id in u.chains
    requires u == db.(chains := db.chains[id := u.chains[id]],
                      chainByHash := db.chainByHash[u.chains[id].grantHash := id])
    requires u.chains[id].grantHash !in db.chainByHash
    requires v.byHash == s.byHash[u.chains[id].grantHash := id] && v.byReceipt == s.byReceipt
    requires v.byProposal == s.byProposal[u.chains[id].proposalHash := id]
    requires v.byDecision == s.byDecision[u.chains[id].decisionHash := id]
    ensures SameIndexes(u, v)
  {
    assert forall other | other in db.chains :: u.chains[other] == db.chains[other];
    forall h ensures h in v.byProposal <==> exists x :: x in u.chains && u.chains[x].proposalHash == h {}
    forall h ensures h in v.byDecision <==> exists x :: x in u.chains && u.chains[x].decisionHash == h {}
  }

  lemma ClaimAccepted(k: Protocol, db: Db, s: M.MemState, g: Grant, q: ClaimRequest, now: u64)
    requires Related(db, s) && Inv(k, db) && Claim(k, db, g, q, now).Some?
    ensures q.key in db.currentness && g.grantId in s.grants
    ensures var claim := M.GrantClaim(g.grantId, k.hashGrant(g), q.attemptId, now);
            M.Claim(k, s, g, RequestOf(db, q), Some(now))
            == (s.(lastTime := Some(now),
                   grants := s.grants[g.grantId := s.grants[g.grantId].(claim := Some(claim))]), Some(claim))
  {
    hide Inv, VerifyGrant, HistoryOf, ReceiptOf, IsFresh;
    RegisteredRow(k, db, g.grantId);
    assert ValidSnapshot(k, db.currentness[q.key]) by { SnapshotValid(k, db, q.key); }
    assert M.ReachesFence(k, s, g, RequestOf(db, q), Some(now));
    assert M.MayClaim(k, s.grants[g.grantId], g, RequestOf(db, q), now);
  }

  lemma SnapshotValid(k: Protocol, db: Db, key: Units)
    requires Inv(k, db) && key in db.currentness
    ensures ValidSnapshot(k, db.currentness[key])
  {
    hide ChainsOk, ClaimsOk, IsLastTime, ReceiptsOk, HistoriesOk;
  }

  lemma SimulatesClaim(k: Protocol, db: Db, s: M.MemState, g: Grant, q: ClaimRequest, now: u64)
    requires Inv(k, db) && Related(db, s) && Claim(k, db, g, q, now).Some?
    ensures q.key in db.currentness
    ensures M.Succeeds(k, s, M.ClaimCall(g, RequestOf(db, q), Some(now)))
    ensures Related(Claim(k, db, g, q, now).value, M.After(k, s, M.ClaimCall(g, RequestOf(db, q), Some(now))))
  {
    hide Inv, M.Claim, Claim, RequestOf, Related;
    ClaimAccepted(k, db, s, g, q, now);
    ClaimedNew(k, db, g, q, now);
    ClaimRelates(k, db, s, Claim(k, db, g, q, now).value, M.Claim(k, s, g, RequestOf(db, q), Some(now)).0,
                 g.grantId, RowOf(q, now));
  }

  /** What a claim did. */
  lemma ClaimedNew(k: Protocol, db: Db, g: Grant, q: ClaimRequest, now: u64)
    requires Inv(k, db) && Claim(k, db, g, q, now).Some?
    ensures g.grantId in db.chains && db.chains[g.grantId].grantHash == k.hashGrant(g)
    ensures Claim(k, db, g, q, now).value
            == db.(lastTime := Some(now), claims := db.claims[k.hashGrant(g) := RowOf(q, now)])
  {
    hide Inv, Matches, IsFresh, Intact;
  }

  lemma ClaimRelates(k: Protocol, db: Db, s: M.MemState, u: Db, v: M.MemState, id: Units, row: ClaimRow)
    requires Inv(k, db) && Related(db, s) && id in db.chains && id in s.grants
    requires var h := db.chains[id].grantHash;
             u == db.(lastTime := Some(row.claimedAt), claims := db.claims[h := row])
             && v == s.(lastTime := Some(row.claimedAt),
                        grants := s.grants[id := s.grants[id].(
                         claim := Some(M.GrantClaim(id, h, row.attemptId, row.claimedAt)))])
    ensures Related(u, v)
  {
    hide Inv, HistoryOf, ReceiptOf, SameIndexes;
    RowsAfterClaim(db, u);
    OthersUnclaimed(k, db, u, id);
    OneGrantChanges(db, u, s, v, id);
    IndexesKept(db, s, u, v);
  }

  lemma OthersUnclaimed(k: Protocol, db: Db, u: Db, id: Units)
    requires Inv(k, db) && id in db.chains && u.chains == db.chains
    requires u.receipts == db.receipts && u.histories == db.histories
    requires forall h | h != db.chains[id].grantHash ::
               (h in u.claims <==> h in db.claims) && (h in db.claims ==> u.claims[h] == db.claims[h])
    ensures forall other | other in db.chains && other != id :: StoredOf(u, other) == StoredOf(db, other)
  {
    hide Inv, HistoryOf, ReceiptOf, StoredOf;
    RowsAfterClaim(db, u);
    RegisteredRow(k, db, id);
    forall other | other in db.chains && other != id ensures StoredOf(u, other) == StoredOf(db, other) {
      RegisteredRow(k, db, other);
      SameStored(db, u, other);
    }
  }

  lemma RowsAfterClaim(db: Db, u: Db)
    requires u.receipts == db.receipts && u.histories == db.histories
    ensures forall h :: ReceiptOf(u, h) == ReceiptOf(db, h) && HistoryOf(u, h) == HistoryOf(db, h)
  {
    hide AllRecords;
  }

  lemma IndexesKept(db: Db, s: M.MemState, u: Db, v: M.MemState)
    requires SameIndexes(db, s) && u.chains == db.chains && u.chainByHash == db.chainByHash
             && u.receiptByHash == db.receiptByHash
    requires v.byHash == s.byHash && v.byProposal == s.byProposal && v.byDecision == s.byDecision
             && v.byReceipt == s.byReceipt
    ensures SameIndexes(u, v)
  {
  }

  lemma SimulatesMark(k: Protocol, db: Db, s: M.MemState, h: Digest, attemptId: Units, at: u64)
    requires Related(db, s) && MarkDispatchStarted(k, db, h, attemptId, at).Some?
    ensures Related(MarkDispatchStarted(k, db, h, attemptId, at).value, s)
  {
    hide LoadChainByHash, Matches, IsFresh, HistoryOf, ReceiptOf, SameGrants, SameIndexes;
    var u := MarkDispatchStarted(k, db, h, attemptId, at).value;
    RowsAfterClaim(db, u);
    NoGrantChanges(db, u, s);
    IndexesKept(db, s, u, s);
  }

  lemma SimulatesCurrentness(k: Protocol, db: Db, s: M.MemState, c: Snapshot)
    requires Related(db, s) && PutCurrentness(k, db, c).Some?
    ensures Related(PutCurrentness(k, db, c).value, s)
  {
    hide ValidSnapshot, MayFollow, HistoryOf, ReceiptOf, SameGrants, SameIndexes;
    var u := PutCurrentness(k, db, c).value;
    RowsAfterClaim(db, u);
    NoGrantChanges(db, u, s);
    IndexesKept(db, s, u, s);
  }

  /** What a new receipt did. */
  lemma RecordedNew(k: Protocol, db: Db, r: Receipt)
    requires RecordReceipt(k, db, r).Some? && RecordReceipt(k, db, r).value != db
    ensures MayRecord(k, db, r) && r.grantHash !in db.receipts && k.hashReceipt(r) !in db.receiptByHash
    ensures RecordReceipt(k, db, r).value ==
              db.(receipts := db.receipts[r.grantHash := ReceiptRow(k.hashReceipt(r), r)],
                  receiptByHash := db.receiptByHash[k.hashReceipt(r) := r.grantHash])
    ensures k.ValidReceipt(r) && r.grantHash in db.chainByHash && db.chainByHash[r.grantHash] in db.chains
  {
    hide IntactReceipt, VerifyChain, Intact, EvidenceMatches;
  }

  lemma ReceiptAccepted(k: Protocol, db: Db, s: M.MemState, r: Receipt)
    requires Inv(k, db) && Related(db, s) && RecordReceipt(k, db, r).Some? && RecordReceipt(k, db, r).value != db
    ensures r.grantHash in db.chainByHash && db.chainByHash[r.grantHash] in s.grants
    ensures var id := db.chainByHash[r.grantHash];
            M.RecordReceipt(k, s, r) == (s.(grants := s.grants[id := s.grants[id].(receipt := Some(r))],
                                            byReceipt := s.byReceipt[k.hashReceipt(r) := id]), Some(k.hashReceipt(r)))
  {
    hide Inv, RecordReceipt, MayRecord, M.VerifyWinner, HistoryOf;
    RecordedNew(k, db, r);
    IndexedChain(k, db, r.grantHash);
    WinnerVerified(k, db, r);
  }

  lemma SimulatesReceipt(k: Protocol, db: Db, s: M.MemState, r: Receipt)
    requires Inv(k, db) && Related(db, s) && RecordReceipt(k, db, r).Some? && RecordReceipt(k, db, r).value != db
    ensures M.Succeeds(k, s, M.ReceiptCall(r))
    ensures Related(RecordReceipt(k, db, r).value, M.After(k, s, M.ReceiptCall(r)))
  {
    hide Inv, RecordReceipt, M.RecordReceipt, MayRecord, Related, AllRecords;
    RecordedNew(k, db, r);
    ReceiptAccepted(k, db, s, r);
    IndexedChain(k, db, r.grantHash);
    NewReceiptBare(k, db, k.hashReceipt(r));
    ReceiptRelates(k, db, s, RecordReceipt(k, db, r).value, M.RecordReceipt(k, s, r).0, r, k.hashReceipt(r));
  }

  lemma ReceiptRelates(k: Protocol, db: Db, s: M.MemState, u: Db, v: M.MemState, r: Receipt, rh: Digest)
    requires Inv(k, db) && Related(db, s) && r.grantHash in db.chainByHash && r.grantHash !in db.receipts
    requires AllRecords(db.histories, rh) == []
    requires var id := db.chainByHash[r.grantHash];
             id in db.chains && id in s.grants && db.chains[id].grantHash == r.grantHash
             && u == db.(receipts := db.receipts[r.grantHash := ReceiptRow(rh, r)],
                         receiptByHash := db.receiptByHash[rh := r.grantHash])
             && v == s.(grants := s.grants[id := s.grants[id].(receipt := Some(r))], byReceipt := s.byReceipt[rh := id])
    ensures Related(u, v)
  {
    hide Inv, HistoryOf, ReceiptOf, SameIndexes, AllRecords;
    var id := db.chainByHash[r.grantHash];
    RowsAfterReceipt(db, u, r, rh);
    OthersUnreceived(k, db, u, id);
    OneGrantChanges(db, u, s, v, id);
    ReceiptIndexGrows(db, s, u, v, r.grantHash, rh);
  }

  lemma OthersUnreceived(k: Protocol, db: Db, u: Db, id: Units)
    requires Inv(k, db) && id in db.chains && u.chains == db.chains && u.claims == db.claims
    requires forall h | h != db.chains[id].grantHash ::
               ReceiptOf(u, h) == ReceiptOf(db, h) && HistoryOf(u, h) == HistoryOf(db, h)
    ensures forall other | other in db.chains && other != id :: StoredOf(u, other) == StoredOf(db, other)
  {
    hide Inv, HistoryOf, ReceiptOf, StoredOf;
    RegisteredRow(k, db, id);
    forall other | other in db.chains && other != id ensures StoredOf(u, other) == StoredOf(db, other) {
      RegisteredRow(k, db, other);
      SameStored(db, u, other);
    }
  }

  lemma RowsAfterReceipt(db: Db, u: Db, r: Receipt, rh: Digest)
    requires u.histories == db.histories && u.receipts == db.receipts[r.grantHash := ReceiptRow(rh, r)]
    requires r.grantHash !in db.receipts && AllRecords(db.histories, rh) == []
    ensures forall h | h != r.grantHash :: ReceiptOf(u, h) == ReceiptOf(db, h) && HistoryOf(u, h) == HistoryOf(db, h)
    ensures ReceiptOf(u, r.grantHash) == Some(r) && HistoryOf(u, r.grantHash) == HistoryOf(db, r.grantHash) == []
  {
    hide AllRecords;
  }

  lemma ReceiptIndexGrows(db: Db, s: M.MemState, u: Db, v: M.MemState, h: Digest, rh: Digest)
    requires SameIndexes(db, s) && h in db.chainByHash
    requires u.chains == db.chains && u.chainByHash == db.chainByHash && u.receiptByHash == db.receiptByHash[rh := h]
    requires v.byHash == s.byHash && v.byProposal == s.byProposal && v.byDecision == s.byDecision
    requires v.byReceipt == s.byReceipt[rh := db.chainByHash[h]]
    ensures SameIndexes(u, v)
  {
  }

  lemma NewReceiptBare(k: Protocol, db: Db, rh: Digest)
    requires Inv(k, db) && rh !in db.receiptByHash
    ensures AllRecords(db.histories, rh) == []
  {
    hide ChainsOk, ClaimsOk, ReceiptsOk, IsLastTime, CurrentnessOk;
    assert Sequences(db.histories, rh) == {};
  }

  lemma WinnerVerified(k: Protocol, db: Db, r: Receipt)
    requires Inv(k, db) && MayRecord(k, db, r)
    ensures var id := db.chainByHash[r.grantHash];
            M.VerifyWinner(k, StoredOf(db, id), r) == Some(k.hashReceipt(r))
  {
    hide Inv, VerifyGrant, AllRecords, EvidenceMatches;
    RegisteredRow(k, db, db.chainByHash[r.grantHash]);
  }

  lemma AppendAccepted(k: Protocol, db: Db, s: M.MemState, c: Reconciliation)
    requires Inv(k, db) && Related(db, s)
    requires AppendReconciliation(k, db, c).Some? && AppendReconciliation(k, db, c).value != db
    ensures c.receiptHash in db.receiptByHash && db.receiptByHash[c.receiptHash] in db.chainByHash
    ensures var id := db.chainByHash[db.receiptByHash[c.receiptHash]];
            id in db.chains && id in s.grants && M.AppendReconciliation(k, s, c).1.Some?
            && M.AppendReconciliation(k, s, c).0
               == s.(grants := s.grants[id := s.grants[id].(reconciliations := s.grants[id].reconciliations + [c])])
  {
    hide Inv, AppendReconciliation, VerifyReconciliation, HistoryOf;
    AppendFacts(k, db, c);
    var id := db.chainByHash[db.receiptByHash[c.receiptHash]];
    RegisteredRow(k, db, id);
    assert s.byReceipt[c.receiptHash] == id && s.grants[id] == StoredOf(db, id);
    assert s.grants[id].reconciliations == HistoryOf(db, db.receiptByHash[c.receiptHash]);
  }

  lemma SimulatesAppend(k: Protocol, db: Db, s: M.MemState, c: Reconciliation)
    requires Inv(k, db) && Related(db, s)
    requires AppendReconciliation(k, db, c).Some? && AppendReconciliation(k, db, c).value != db
    ensures M.Succeeds(k, s, M.ReconciliationCall(c))
    ensures Related(AppendReconciliation(k, db, c).value, M.After(k, s, M.ReconciliationCall(c)))
  {
    hide Inv, AppendReconciliation, M.AppendReconciliation, VerifyReconciliation, HistoryOf, SameIndexes;
    AppendFacts(k, db, c);
    AppendAccepted(k, db, s, c);
    var u, v := AppendReconciliation(k, db, c).value, M.AppendReconciliation(k, s, c).0;
    var h := db.receiptByHash[c.receiptHash];
    var id := db.chainByHash[h];
    RegisteredRow(k, db, id);
    OthersUnappended(k, db, c, id);
    OneGrantChanges(db, u, s, v, id);
    IndexesKept(db, s, u, v);
  }

  lemma OthersUnappended(k: Protocol, db: Db, c: Reconciliation, id: Units)
    requires Inv(k, db) && AppendReconciliation(k, db, c).Some? && AppendReconciliation(k, db, c).value != db
    requires id in db.chains && c.receiptHash in db.receiptByHash
             && db.chains[id].grantHash == db.receiptByHash[c.receiptHash]
    requires var u := AppendReconciliation(k, db, c).value; u == db.(histories := u.histories)
    ensures var u := AppendReconciliation(k, db, c).value;
            forall other | other in db.chains && other != id :: StoredOf(u, other) == StoredOf(db, other)
  {
    hide Inv, AppendReconciliation, HistoryOf;
    RegisteredRow(k, db, id);
    var u := AppendReconciliation(k, db, c).value;
    forall other | other in db.chains && other != id ensures StoredOf(u, other) == StoredOf(db, other) {
      RegisteredRow(k, db, other);
      OtherGrant(k, db, c, db.chains[other].grantHash);
    }
  }

  lemma AppendFacts(k: Protocol, db: Db, c: Reconciliation)
    requires Inv(k, db)
    requires AppendReconciliation(k, db, c).Some? && AppendReconciliation(k, db, c).value != db
    ensures k.ValidReconciliation(c)
    ensures c.receiptHash in db.receiptByHash && db.receiptByHash[c.receiptHash] in db.receipts
    ensures var h := db.receiptByHash[c.receiptHash]; var u := AppendReconciliation(k, db, c).value;
            h in db.chainByHash && db.chainByHash[h] in db.chains && db.chains[db.chainByHash[h]].grantHash == h
            && db.receipts[h].receiptHash == c.receiptHash
            && u == db.(histories := u.histories)
            && HistoryOf(u, h) == HistoryOf(db, h) + [c]
            && c.sequence == |HistoryOf(db, h)| + 1 && |HistoryOf(db, h)| < MAX_RECONCILIATION_RECORDS
            && FreshIdentifier(HistoryOf(db, h), c)
            && VerifyReconciliation(k, db.receipts[h].receipt, LastOf(HistoryOf(db, h)), c).Some?
  {
    hide Inv, VerifyReconciliation, AllRecords, LatestRecord, Sequences, ReceiptOk, HistoryOk, Taken;
    AppendKnown(k, db, c);
    var u, h := AppendReconciliation(k, db, c).value, db.receiptByHash[c.receiptHash];
    var n := HistoryAt(k, db, h);
    var r := db.receipts[h].receipt;
    HistoryShape(k, r, db.histories, c.receiptHash, n);
    AppendedRow(k, db, c);
    AppendedNext(k, db, c, n);
    assert HistoriesOk(k, db.receipts, db.receiptByHash, db.histories) by { HistoriesPart(k, db); }
    IndexedChain(k, db, h);
    AppendGrows(k, db, c, n);
    HistoryRead(k, r, u.histories, c.receiptHash, n + 1);
    FreshInHistory(db.histories, c, n);
  }

  lemma HistoriesPart(k: Protocol, db: Db)
    requires Inv(k, db)
    ensures HistoriesOk(k, db.receipts, db.receiptByHash, db.histories)
  {
  }

  lemma AppendKnown(k: Protocol, db: Db, c: Reconciliation)
    requires Inv(k, db)
    requires AppendReconciliation(k, db, c).Some? && AppendReconciliation(k, db, c).value != db
    ensures k.ValidReconciliation(c) && HistoryKey(c.receiptHash, c.sequence) !in db.histories
    ensures c.receiptHash in db.receiptByHash && db.receiptByHash[c.receiptHash] in db.receipts
         && db.receipts[db.receiptByHash[c.receiptHash]].receiptHash == c.receiptHash
  {
    hide ChainsOk, ClaimsOk, IsLastTime, CurrentnessOk, HistoriesOk, VerifyReconciliation, LatestRecord, Taken;
  }

  lemma OtherGrant(k: Protocol, db: Db, c: Reconciliation, h: Digest)
    requires Inv(k, db) && c.receiptHash in db.receiptByHash && db.receiptByHash[c.receiptHash] != h
    requires AppendReconciliation(k, db, c).Some? && AppendReconciliation(k, db, c).value != db
    ensures HistoryOf(AppendReconciliation(k, db, c).value, h) == HistoryOf(db, h)
  {
    hide Inv, VerifyReconciliation, LatestRecord, Taken, AllRecords, ReceiptOk, HistoryOk, LoadReceiptByHash;
    if h in db.receipts {
      var n := HistoryAt(k, db, h);
      var rh, r := db.receipts[h].receiptHash, db.receipts[h].receipt;
      AppendKnown(k, db, c);
      AppendedRow(k, db, c);
      var row := HistoryRow(k.hashReconciliation(c), c);
      HistoryShape(k, r, db.histories, rh, n);
      OtherHistory(k, r, db.histories, c, row, rh, n);
      HistoryRead(k, r, AppendReconciliation(k, db, c).value.histories, rh, n);
    }
  }

  // ---- Runs ----

  /** Every transaction is matched by one successful call or by none. */
  lemma StepSimulates(k: Protocol, db: Db, s: M.MemState, op: Op)
    requires Inv(k, db) && Related(db, s)
    ensures var call := CallOf(k, db, op);
            (call.Some? ==> M.Succeeds(k, s, call.value)) && Related(Step(k, db, op), Follow(k, s, call))
  {
    hide Inv, Related, M.After, M.Succeeds;
    hide RegisterChain, PutCurrentness, Claim, MarkDispatchStarted, RecordReceipt, AppendReconciliation;
    if Step(k, db, op) != db {
      match op
      case RegisterOp(t, p, d, g) => SimulatesRegister(k, db, s, t, p, d, g);
      case CurrentnessOp(c) => SimulatesCurrentness(k, db, s, c);
      case ClaimOp(g, q, now) => SimulatesClaim(k, db, s, g, q, now);
      case MarkOp(h, attemptId, at) => SimulatesMark(k, db, s, h, attemptId, at);
      case ReceiptOp(r) => SimulatesReceipt(k, db, s, r);
      case ReconciliationOp(c) => SimulatesAppend(k, db, s, c);
    }
  }

  ghost predicate AllSucceed(k: Protocol, s: M.MemState, calls: seq<M.Call>)
    decreases |calls|
  {
    calls == [] || (M.Succeeds(k, s, calls[0]) && AllSucceed(k, M.After(k, s, calls[0]), calls[1..]))
  }

  /** Forward simulation: every durable run is a run of the simple store made of
      successful calls only, and ends in a related state. */
  lemma {:induction false} RunSimulates(k: Protocol, db: Db, s: M.MemState, ops: seq<Op>) returns (calls: seq<M.Call>)
    requires Inv(k, db) && Related(db, s)
    ensures |calls| <= |ops| && AllSucceed(k, s, calls)
    ensures Related(Run(k, db, ops), M.Run(k, s, calls))
    decreases |ops|
  {
    hide Inv, Related, Step, CallOf, M.After, M.Succeeds;
    if ops == [] {
      calls := [];
    } else {
      var call := CallOf(k, db, ops[0]);
      StepSimulates(k, db, s, ops[0]);
      StepKeeps(k, db, ops[0]);
      var rest := RunSimulates(k, Step(k, db, ops[0]), Follow(k, s, call), ops[1..]);
      if call.None? {
        calls := rest;
      } else {
        calls := [call.value] + rest;
        assert calls[1..] == rest;
      }
    }
  }

  /** Every durable run from the empty database is a run of the fresh simple store. */
  lemma DurableRunsRefine(k: Protocol, ops: seq<Op>)
    ensures exists calls ::
              AllSucceed(k, M.Empty(), calls) && Related(Run(k, EmptyDb(), ops), M.Run(k, M.Empty(), calls))
  {
    hide Inv, Related, Run, M.Run, AllSucceed;
    EmptyOk(k);
    EmptyRelated();
    var calls := RunSimulates(k, EmptyDb(), M.Empty(), ops);
  }

  lemma EmptyRelated()
    ensures Related(EmptyDb(), M.Empty())
  {
  }
}
