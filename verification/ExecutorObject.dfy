/** The executor object: its methods run the transactions of one call on the
    shared store, and do what the interleaved model says a call does alone. */
module ExecutorObject {
  import opened Unicode
  import opened Json
  import opened Records
  import opened Verifier
  import opened Sqlite
  import opened SqliteStore
  import opened Executor
  import A = Authority

  /** A world with one token and nothing else in progress. */
  function Alone(db: Db, t: Token): World { World(db, map[0 := t], []) }

  function Idle(db: Db): World { World(db, map[], []) }

  /** The token that a call hands back, if any. */
  function Held(w: World): Option<Token> { if 0 in w.live then Some(w.live[0]) else None }

  /** The receipt is what the grant holds from now on, unless it held one with the
      same hash; nothing but the receipts changed. */
  predicate IsRecorded(k: Protocol, before: Db, after: Db, r: Receipt) {
    var h, hash := r.grantHash, k.hashReceipt(r);
    after == before.(receipts := after.receipts, receiptByHash := after.receiptByHash)
    && h in after.receipts && after.receipts[h].receiptHash == hash
    && (if h in before.receipts then after == before else after.receipts == before.receipts[h := ReceiptRow(hash, r)])
  }

  lemma RecordedRow(k: Protocol, db: Db, r: Receipt)
    ensures RecordReceipt(k, db, r).Some? ==> IsRecorded(k, db, Step(k, db, ReceiptOp(r)), r)
    ensures RecordReceipt(k, db, r).None? ==> Step(k, db, ReceiptOp(r)) == db
  {
    hide MayRecord, IntactReceipt;
  }

  class EffectTransactionExecutor {
    const k: Protocol
    const crypto: A.Crypto
    const policy: Policy
    const store: SqliteEffectStore

    /** One protocol throughout; every way to build an executor ensures it. */
    ghost predicate Valid() { k == store.k && ValidPolicy(k, policy) }

    constructor (crypto: A.Crypto, policy: Policy, store: SqliteEffectStore)
      requires ValidPolicy(store.k, policy)
      ensures Valid() && this.crypto == crypto && this.policy == policy && this.store == store
    {
      this.k := store.k;
      this.crypto := crypto;
      this.policy := policy;
      this.store := store;
    }

    /** Refuses an invalid policy. */
    static method Open(crypto: A.Crypto, policy: Policy, store: SqliteEffectStore)
      returns (r: Option<EffectTransactionExecutor>)
      ensures r.Some? <==>
                store.k.text(policy.audience, 512) && store.k.token(policy.role)
                && 1 <= policy.maximumAuthorityAge <= 300_000 && 1 <= policy.maximumCurrentnessAge <= 300_000
      ensures r.Some? ==> fresh(r.value) && r.value.store == store && r.value.policy == policy && r.value.Valid()
    {
      if !ValidPolicy(store.k, policy) {
        return None;
      }
      var executor := new EffectTransactionExecutor(crypto, policy, store);
      return Some(executor);
    }

    method ObserveCurrentness(snapshot: Snapshot, now: u64) returns (ok: bool)
      requires Valid()
      modifies store
      ensures store.Tables() == Next(k, crypto, Idle(old(store.Tables())), Observe(policy, snapshot, now)).db
      ensures ok <==> snapshot.observedAt <= now <= snapshot.observedAt + policy.maximumCurrentnessAge
                      && PutCurrentness(k, old(store.Tables()), snapshot).Some?
      ensures store.Tables() ==
                if ok then old(store.Tables()).(currentness := old(store.currentness)[snapshot.key := snapshot])
                else old(store.Tables())
    {
      hide PutCurrentness, Step;
      if !IsFresh(snapshot, now, policy.maximumCurrentnessAge) {
        return false;
      }
      ok := store.PutCurrentnessRow(snapshot);
    }

    /** Three transactions in a row; each may commit before a later one fails. */
    method AuthorizeAndClaim(
      e: Prepared, signed: Bytes, authority: A.AuthoritySnapshot, snapshot: Snapshot, attemptId: Units, now: u64)
      returns (r: Option<Token>)
      requires Valid() && IsPrepared(k, crypto, e)
      modifies store
      ensures var authorize := Authorize(0, policy, e, signed, authority, snapshot, attemptId, now);
              var events := [authorize, Refresh(0), TakeClaim(0)];
              var w := RunEvents(k, crypto, Idle(old(store.Tables())), events);
              store.Tables() == w.db && r == Held(w)
      ensures var registered := Step(k, old(store.Tables()), RegisterOp(e.task, e.proposal, e.decision, e.grant));
              var observed := Step(k, registered, CurrentnessOp(snapshot));
              var request := ClaimRequest(
                attemptId := attemptId, audience := policy.audience, key := snapshot.key,
                version := snapshot.version, maximumAge := policy.maximumCurrentnessAge);
              if CheckAuthorize(k, crypto, policy, e, signed, authority, snapshot, now).None?
              then r.None? && store.Tables() == old(store.Tables())
              else if RegisterChain(k, old(store.Tables()), e.task, e.proposal, e.decision, e.grant).None?
              then r.None? && store.Tables() == old(store.Tables())
              else if PutCurrentness(k, registered, snapshot).None? then r.None? && store.Tables() == registered
              else
                store.Tables() == Step(k, observed, ClaimOp(e.grant, request, now))
                && (r.Some? <==> Claim(k, observed, e.grant, request, now).Some?)
      ensures r.Some? ==>
                var found := crypto.open(signed, authority.publicKey);
                found.Some? && Endorses(k, crypto, policy, e, authority, now, found.value)
                && e.grant.audience == policy.audience
                && r.value == ClaimedEffect(
                  e,
                  ClaimRow(attemptId := attemptId, key := snapshot.key, version := snapshot.version,
                           maximumAge := policy.maximumCurrentnessAge, claimedAt := now, marker := None),
                  Noted(crypto, found.value, authority), signed)
                && e.grantHash in store.claims && store.claims[e.grantHash] == r.value.row
                && snapshot.key in store.currentness && store.currentness[snapshot.key] == snapshot
                && store.lastTime == Some(now)
    {
      hide RegisterChain, PutCurrentness, Claim, CheckAuthorize, IsPrepared, RunEvents;
      AuthorizeExactly(k, crypto, policy, e, signed, authority, snapshot, now);
      PreparedHashIs(k, crypto, e);
      ghost var begun := store.Tables();
      ghost var first := Authorize(0, policy, e, signed, authority, snapshot, attemptId, now);
      ghost var w1 := Next(k, crypto, Idle(begun), first);
      ghost var w2 := Next(k, crypto, w1, Refresh(0));
      ghost var w3 := Next(k, crypto, w2, TakeClaim(0));
      ThreeSteps(k, crypto, Idle(begun), first, Refresh(0), TakeClaim(0));
      var evidence := CheckAuthorize(k, crypto, policy, e, signed, authority, snapshot, now);
      if evidence.None? {
        return None;
      }
      var registered := store.Register(e.task, e.proposal, e.decision, e.grant);
      assert store.Tables() == w1.db;
      if registered.None? {
        return None;
      }
      var put := store.PutCurrentnessRow(snapshot);
      assert store.Tables() == w2.db;
      if !put {
        return None;
      }
      var request := RequestFor(policy, snapshot, attemptId);
      var row := store.ClaimGrant(e.grant, request, now);
      assert store.Tables() == w3.db;
      if row.None? {
        return None;
      }
      ClaimedRow(k, w2.db, e.grant, request, now);
      return Some(ClaimedEffect(e, row.value, evidence.value, signed));
    }

    method BeginDispatch(claimed: Token, authority: A.AuthoritySnapshot, now: u64) returns (r: Option<Token>)
      requires Valid() && claimed.ClaimedEffect?
      modifies store
      ensures var w := Next(k, crypto, Alone(old(store.Tables()), claimed), Begin(0, policy, authority, now));
              store.Tables() == w.db && r == Held(w)
      ensures var found := crypto.open(claimed.signed, authority.publicKey);
              r.Some? <==>
                found.Some? && Endorses(k, crypto, policy, claimed.e, authority, now, found.value)
                && claimed.evidence == Noted(crypto, found.value, authority)
                && MarkDispatchStarted(
                     k, old(store.Tables()), claimed.e.grantHash, claimed.row.attemptId, now).Some?
      ensures r.None? ==> store.Tables() == old(store.Tables())
      ensures r.Some? ==>
                var h := claimed.e.grantHash;
                r.value == Capability(claimed.e, claimed.row, now)
                && store.Tables() == Step(k, old(store.Tables()), MarkOp(h, claimed.row.attemptId, now))
                && h in store.claims && store.claims[h].marker == Some(now)
                && store.claims[h].attemptId == claimed.row.attemptId
    {
      hide MarkDispatchStarted, CheckBegin, Step;
      BeginExactly(k, crypto, policy, claimed.e, claimed.evidence, claimed.signed, authority, now);
      BegunAlone(k, crypto, store.Tables(), claimed, policy, authority, now);
      MarkedRow(k, store.Tables(), claimed.e.grantHash, claimed.row.attemptId, now);
      if !CheckBegin(k, crypto, policy, claimed.e, claimed.evidence, claimed.signed, authority, now) {
        return None;
      }
      var marked := store.Mark(claimed.e.grantHash, claimed.row.attemptId, now);
      if !marked {
        return None;
      }
      return Some(Capability(claimed.e, claimed.row, now));
    }

    /** Passes the effect to the adapter; the handle is all that is kept. */
    method DispatchWith(capability: Token) returns (handle: Token, call: Invocation)
      requires Valid() && capability.Capability?
      ensures var w := Next(k, crypto, Alone(store.Tables(), capability), Dispatch(0));
              w.db == store.Tables() && Held(w) == Some(handle) && w.invocations == [call]
      ensures handle == Handle(proposalHash := capability.e.proposalHash, grantHash := capability.e.grantHash,
                               row := capability.row, dispatchedAt := capability.dispatchedAt)
      ensures call == Invocation(
                proposalHash := capability.e.proposalHash, grantHash := capability.e.grantHash,
                attemptId := capability.row.attemptId, dispatchedAt := capability.dispatchedAt,
                effect := Effect(
                  effectProfile := capability.e.proposal.effectProfile, operation := capability.e.proposal.operation,
                  target := capability.e.proposal.target, documents := capability.e.documents))
    {
      call := Invocation(capability.e.proposalHash, capability.e.grantHash, capability.row.attemptId,
                         capability.dispatchedAt, EffectOf(capability.e));
      handle := Handle(capability.e.proposalHash, capability.e.grantHash, capability.row, capability.dispatchedAt);
    }

    method RecordUndispatched(claimed: Token, receiptId: Units, completedAt: u64, observation: Digest)
      returns (r: Option<Digest>)
      requires Valid() && claimed.ClaimedEffect?
      modifies store
      ensures var event := RecordNotDispatched(0, receiptId, completedAt, observation);
              store.Tables() == Next(k, crypto, Alone(old(store.Tables()), claimed), event).db
      ensures var said := Receipt(
                version := 1, receiptId := receiptId, proposalHash := claimed.e.proposalHash,
                grantHash := claimed.e.grantHash, attemptId := claimed.row.attemptId,
                claimedAt := claimed.row.claimedAt, dispatchedAt := None, completedAt := completedAt,
                outcome := NotDispatched, observationDigest := observation);
              if RecordReceipt(k, old(store.Tables()), said).Some?
              then r == Some(k.hashReceipt(said)) && IsRecorded(k, old(store.Tables()), store.Tables(), said)
              else r.None? && store.Tables() == old(store.Tables())
    {
      hide RecordReceipt, ValidPolicy, Next, Step, IsRecorded;
      RecordedRow(k, store.Tables(), NotDispatchedReceipt(claimed.e, claimed.row, receiptId, completedAt, observation));
      UndispatchedAlone(k, crypto, store.Tables(), claimed, receiptId, completedAt, observation);
      r := store.Record(NotDispatchedReceipt(claimed.e, claimed.row, receiptId, completedAt, observation));
    }

    method RecordOutcome(
      handle: Token, receiptId: Units, completedAt: u64, outcome: DispatchedOutcome, observation: Digest)
      returns (r: Option<Digest>)
      requires Valid() && handle.Handle?
      modifies store
      ensures var event := RecordDispatched(0, receiptId, completedAt, outcome, observation);
              store.Tables() == Next(k, crypto, Alone(old(store.Tables()), handle), event).db
      ensures var said := Receipt(
                version := 1, receiptId := receiptId, proposalHash := handle.proposalHash,
                grantHash := handle.grantHash, attemptId := handle.row.attemptId,
                claimedAt := handle.row.claimedAt, dispatchedAt := Some(handle.dispatchedAt),
                completedAt := completedAt,
                outcome := (if outcome == DidSucceed then Succeeded else if outcome == DidFail then Failed
                            else Unknown),
                observationDigest := observation);
              if RecordReceipt(k, old(store.Tables()), said).Some?
              then r == Some(k.hashReceipt(said)) && IsRecorded(k, old(store.Tables()), store.Tables(), said)
              else r.None? && store.Tables() == old(store.Tables())
    {
      hide RecordReceipt, ValidPolicy, Next, Step, IsRecorded;
      RecordedRow(k, store.Tables(), DispatchedReceipt(handle, receiptId, completedAt, outcome, observation));
      DispatchedAlone(k, crypto, store.Tables(), handle, receiptId, completedAt, outcome, observation);
      r := store.Record(DispatchedReceipt(handle, receiptId, completedAt, outcome, observation));
    }

    /** Both recoveries: read the lifecycle, then record what it implies. */
    method Recover(recovery: Recovery, dispatched: bool) returns (r: Option<Digest>)
      requires Valid()
      modifies store
      ensures var read := if dispatched then RecoverUnknown(0, recovery) else RecoverNotDispatched(0, recovery);
              var w := RunEvents(k, crypto, Idle(old(store.Tables())), [read, FinishRecovery(0)]);
              store.Tables() == w.db && w.live == map[]
      ensures var begun, h := old(store.Tables()), recovery.grantHash;
              if ReadLifecycle(k, begun, h).Some? && h in begun.claims
                 && begun.claims[h].attemptId == recovery.attemptId && begun.claims[h].marker.Some? == dispatched
              then
                var said := Receipt(
                  version := 1, receiptId := recovery.receiptId, proposalHash := recovery.proposalHash,
                  grantHash := h, attemptId := recovery.attemptId,
                  claimedAt := begun.claims[h].claimedAt, dispatchedAt := begun.claims[h].marker,
                  completedAt := recovery.completedAt,
                  outcome := (if dispatched then Unknown else NotDispatched),
                  observationDigest := recovery.observation);
                if RecordReceipt(k, begun, said).Some?
                then r == Some(k.hashReceipt(said)) && IsRecorded(k, begun, store.Tables(), said)
                else r.None? && store.Tables() == begun
              else r.None? && store.Tables() == begun
    {
      hide RecordReceipt, ReadLifecycle, RunEvents, IsRecorded;
      LifecycleClaim(k, store.Tables(), recovery.grantHash);
      ghost var begun := Idle(store.Tables());
      ghost var read := if dispatched then RecoverUnknown(0, recovery) else RecoverNotDispatched(0, recovery);
      TwoSteps(k, crypto, begun, read, FinishRecovery(0));
      ghost var w1 := Next(k, crypto, begun, read);
      assert w1 == StartRecovery(k, begun, 0, recovery, dispatched);
      var lifecycle := store.GetLifecycle(recovery.grantHash);
      if lifecycle.None? || lifecycle.value.claim.None? {
        return None;
      }
      var claim := lifecycle.value.claim.value;
      if claim.attemptId != recovery.attemptId || claim.marker.Some? != dispatched {
        return None;
      }
      var receipt := Receipt(1, recovery.receiptId, recovery.proposalHash, recovery.grantHash, recovery.attemptId,
                             claim.claimedAt, claim.marker, recovery.completedAt,
                             if dispatched then Unknown else NotDispatched, recovery.observation);
      RecordedRow(k, store.Tables(), receipt);
      r := store.Record(receipt);
    }

    method AppendReconciliationRecord(record: Reconciliation) returns (r: Option<Digest>)
      requires Valid()
      modifies store
      ensures store.Tables() == Next(k, crypto, Idle(old(store.Tables())), Reconcile(record)).db
      ensures store.Tables() == Step(k, old(store.Tables()), ReconciliationOp(record))
      ensures r.Some? <==> AppendReconciliation(k, old(store.Tables()), record).Some?
    {
      hide AppendReconciliation;
      r := store.Append(record);
    }
  }

  lemma PreparedHashIs(k: Protocol, c: A.Crypto, e: Prepared)
    requires IsPrepared(k, c, e)
    ensures e.grantHash == k.hashGrant(e.grant)
  {
    hide VerifyGrant;
    PreparedExactly(k, c, e.task, e.proposal, e.decision, e.grant, e.documents);
  }

  lemma ClaimedRow(k: Protocol, db: Db, g: Grant, q: ClaimRequest, now: u64)
    requires Claim(k, db, g, q, now).Some?
    ensures var u := Step(k, db, ClaimOp(g, q, now));
            u == db.(lastTime := Some(now),
                     claims := db.claims[k.hashGrant(g) :=
                       ClaimRow(q.attemptId, q.key, q.version, q.maximumAge, now, None)])
  {
    hide MayClaim;
  }

  lemma MarkedRow(k: Protocol, db: Db, h: Digest, attemptId: Units, at: u64)
    ensures var u := Step(k, db, MarkOp(h, attemptId, at));
            MarkDispatchStarted(k, db, h, attemptId, at).Some? ==>
              h in u.claims && u.claims[h].marker == Some(at) && u.claims[h].attemptId == attemptId
    ensures MarkDispatchStarted(k, db, h, attemptId, at).None? ==> Step(k, db, MarkOp(h, attemptId, at)) == db
  {
    hide MayMark;
  }

  lemma BegunAlone(
    k: Protocol, c: A.Crypto, db: Db, t: Token, policy: Policy, a: A.AuthoritySnapshot, now: u64)
    requires t.ClaimedEffect?
    ensures var w := Next(k, c, Alone(db, t), Begin(0, policy, a, now));
            if CheckBegin(k, c, policy, t.e, t.evidence, t.signed, a, now)
            then
              w.db == Step(k, db, MarkOp(t.e.grantHash, t.row.attemptId, now))
              && Held(w) == (if MarkDispatchStarted(k, db, t.e.grantHash, t.row.attemptId, now).Some?
                             then Some(Capability(t.e, t.row, now)) else None)
            else w.db == db && Held(w) == None
  {
    hide MarkDispatchStarted, CheckBegin, StartRecovery, NotDispatchedReceipt, DispatchedReceipt, RecordReceipt;
  }

  lemma LifecycleClaim(k: Protocol, db: Db, h: Digest)
    ensures var l := ReadLifecycle(k, db, h);
            l.Some? ==> l.value.claim == if h in db.claims then Some(db.claims[h]) else None
  {
    hide LoadChainByHash, IntactReceipt, VerifyChain, LinksHold, AllRecords;
  }

  lemma UndispatchedAlone(
    k: Protocol, c: A.Crypto, db: Db, t: Token, receiptId: Units, completedAt: u64, observation: Digest)
    requires t.ClaimedEffect?
    ensures Next(k, c, Alone(db, t), RecordNotDispatched(0, receiptId, completedAt, observation)).db
         == Step(k, db, ReceiptOp(NotDispatchedReceipt(t.e, t.row, receiptId, completedAt, observation)))
  {
    hide RecordReceipt;
  }

  lemma DispatchedAlone(
    k: Protocol, c: A.Crypto, db: Db, t: Token, receiptId: Units, completedAt: u64, outcome: DispatchedOutcome,
    observation: Digest)
    requires t.Handle?
    ensures Next(k, c, Alone(db, t), RecordDispatched(0, receiptId, completedAt, outcome, observation)).db
         == Step(k, db, ReceiptOp(DispatchedReceipt(t, receiptId, completedAt, outcome, observation)))
  {
    hide RecordReceipt;
  }

  lemma TwoSteps(k: Protocol, c: A.Crypto, w: World, a: Event, b: Event)
    ensures RunEvents(k, c, w, [a, b]) == Next(k, c, Next(k, c, w, a), b)
  {
    hide Next;
    assert [a, b][1..] == [b] && [b][1..] == [];
    assert RunEvents(k, c, Next(k, c, w, a), [b]) == RunEvents(k, c, Next(k, c, Next(k, c, w, a), b), []);
  }

  lemma ThreeSteps(k: Protocol, c: A.Crypto, w: World, a: Event, b: Event, d: Event)
    ensures RunEvents(k, c, w, [a, b, d]) == Next(k, c, Next(k, c, Next(k, c, w, a), b), d)
  {
    hide Next;
    assert [a, b, d][1..] == [b, d];
    TwoSteps(k, c, Next(k, c, w, a), b, d);
  }
}
