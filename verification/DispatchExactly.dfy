/** Exactly when the adapter can still be invoked for a claim without a marker,
    and so exactly when closing its attempt as undispatched is premature. */
module DispatchExactly {
  import opened Unicode
  import opened Json
  import opened Records
  import opened Verifier
  import opened Sqlite
  import opened SqliteInvariant
  import opened Executor
  import opened ExecutorRuns
  import opened ExecutorTheorems
  import PR = PrematureRecovery
  import R = SqliteRuns
  import T = SqliteTheorems
  import A = Authority

  /** The token `id` holds the claim of the grant, and `begin_dispatch` of an
      executor with this policy, with this authority snapshot at this time, would
      write its marker. */
  ghost predicate MarkableBy(
    k: Protocol, c: A.Crypto, w: World, h: Digest, id: nat, policy: Policy, a: A.AuthoritySnapshot, now: u64)
  {
    ValidPolicy(k, policy)
    && id in w.live && w.live[id].ClaimedEffect? && w.live[id].e.grantHash == h
    && CheckBegin(k, c, policy, w.live[id].e, w.live[id].evidence, w.live[id].signed, a, now)
    && MarkDispatchStarted(k, w.db, h, w.live[id].row.attemptId, now).Some?
  }

  /** The policy for the same audience and role with the largest ages. */
  function Widest(p: Policy): Policy {
    p.(maximumAuthorityAge := A.MAX_AUTHORITY_SNAPSHOT_AGE_MS, maximumCurrentnessAge := MAX_CURRENTNESS_AGE_MS)
  }

  /** What passes under any policy passes under one that an executor can have. */
  lemma WidestSuffices(
    k: Protocol, c: A.Crypto, policy: Policy, e: Prepared, first: Evidence, signed: Bytes,
    a: A.AuthoritySnapshot, now: u64)
    requires CheckBegin(k, c, policy, e, first, signed, a, now)
    ensures ValidPolicy(k, Widest(policy)) && CheckBegin(k, c, Widest(policy), e, first, signed, a, now)
  {
    hide A.ValidStatement, A.ValidSnapshot;
  }

  /** Some executor still holds the claim and could begin its dispatch at some time. */
  ghost predicate Markable(k: Protocol, c: A.Crypto, w: World, h: Digest) {
    exists id, policy, a, now :: MarkableBy(k, c, w, h, id, policy, a, now)
  }

  ghost predicate Unmarked(db: Db, h: Digest) { h in db.claims && db.claims[h].marker.None? }

  // ---- A marker that cannot be written now can never be written ----

  /** What may be marked later may be marked now: the clock only moves on, and a
      key still at the claimed version holds the snapshot it held at the claim. */
  lemma MarkersShrink(k: Protocol, db: Db, u: Db, h: Digest, attemptId: Units, at: u64)
    requires Inv(k, db) && Inv(k, u) && R.Extends(db, u) && Unmarked(db, h)
    requires h in u.claims && u.claims[h] == db.claims[h] && MarkDispatchStarted(k, u, h, attemptId, at).Some?
    ensures MarkDispatchStarted(k, db, h, attemptId, at).Some?
  {
    hide Inv, MarkDispatchStarted, ChainOk, R.Extends;
    R.MarkedExactlyWhen(k, db, h, attemptId, at);
    R.MarkedExactlyWhen(k, u, h, attemptId, at);
    R.ClaimInvariant(k, db, h);
    SameGrant(db, u, h, db.claims[h].key);
  }

  lemma SameGrant(db: Db, u: Db, h: Digest, key: Units)
    requires R.Extends(db, u) && h in db.chainByHash && db.chainByHash[h] in db.chains && key in db.currentness
    ensures h in u.chainByHash && u.chainByHash[h] in u.chains
         && u.chains[u.chainByHash[h]] == db.chains[db.chainByHash[h]]
    ensures key in u.currentness && R.RowAdvances(db.currentness[key], u.currentness[key])
    ensures db.lastTime.Some? ==> u.lastTime.Some? && db.lastTime.value <= u.lastTime.value
  {
  }

  // ---- The transaction of an event ----

  /** It has none if it does not get that far. */
  ghost function OpOf(k: Protocol, c: A.Crypto, w: World, event: Event): Option<Op> {
    match event
    case Observe(policy, s, now) =>
      if IsFresh(s, now, policy.maximumCurrentnessAge) then Some(CurrentnessOp(s)) else None
    case Authorize(id, policy, e, signed, a, s, attemptId, now) =>
      if id in w.live || !IsPrepared(k, c, e) || CheckAuthorize(k, c, policy, e, signed, a, s, now).None? then None
      else Some(RegisterOp(e.task, e.proposal, e.decision, e.grant))
    case Refresh(id) =>
      if id in w.live && w.live[id].Registered? then Some(CurrentnessOp(w.live[id].snapshot)) else None
    case TakeClaim(id) =>
      if id in w.live && w.live[id].Refreshed?
      then
        var t := w.live[id];
        Some(ClaimOp(t.e.grant, RequestFor(t.policy, t.snapshot, t.attemptId), t.now))
      else None
    case Begin(id, policy, a, now) =>
      if id in w.live && w.live[id].ClaimedEffect?
         && CheckBegin(k, c, policy, w.live[id].e, w.live[id].evidence, w.live[id].signed, a, now)
      then Some(MarkOp(w.live[id].e.grantHash, w.live[id].row.attemptId, now))
      else None
    case RecordNotDispatched(id, receiptId, completedAt, observation) =>
      if id in w.live && w.live[id].ClaimedEffect?
      then Some(ReceiptOp(NotDispatchedReceipt(w.live[id].e, w.live[id].row, receiptId, completedAt, observation)))
      else None
    case RecordDispatched(id, receiptId, completedAt, outcome, observation) =>
      if id in w.live && w.live[id].Handle?
      then Some(ReceiptOp(DispatchedReceipt(w.live[id], receiptId, completedAt, outcome, observation)))
      else None
    case FinishRecovery(id) =>
      if id in w.live && w.live[id].Recovering? then Some(ReceiptOp(w.live[id].receipt)) else None
    case Reconcile(record) => Some(ReconciliationOp(record))
    case _ => None
  }

  lemma NextDb(k: Protocol, c: A.Crypto, w: World, event: Event)
    ensures var op := OpOf(k, c, w, event);
            Next(k, c, w, event).db == if op.Some? then Step(k, w.db, op.value) else w.db
  {
    hide *;
    match event
    case Authorize(_, _, _, _, _, _, _, _) => AuthorizeDb(k, c, w, event);
    case Refresh(_) => AdvanceDb(k, c, w, event);
    case TakeClaim(_) => AdvanceDb(k, c, w, event);
    case Begin(_, _, _, _) => BeginDb(k, c, w, event);
    case RecordNotDispatched(_, _, _, _) => RecordDb(k, c, w, event);
    case RecordDispatched(_, _, _, _, _) => RecordDb(k, c, w, event);
    case FinishRecovery(_) => FinishDb(k, c, w, event);
    case _ => OtherDb(k, c, w, event);
  }

  lemma AuthorizeDb(k: Protocol, c: A.Crypto, w: World, event: Event)
    requires event.Authorize?
    ensures var op := OpOf(k, c, w, event);
            Next(k, c, w, event).db == if op.Some? then Step(k, w.db, op.value) else w.db
  {
    hide IsPrepared, CheckAuthorize, RegisterChain, StartRecovery;
  }

  lemma AdvanceDb(k: Protocol, c: A.Crypto, w: World, event: Event)
    requires event.Refresh? || event.TakeClaim?
    ensures var op := OpOf(k, c, w, event);
            Next(k, c, w, event).db == if op.Some? then Step(k, w.db, op.value) else w.db
  {
    hide PutCurrentness, Claim, StartRecovery, RequestFor, RowOf;
  }

  lemma BeginDb(k: Protocol, c: A.Crypto, w: World, event: Event)
    requires event.Begin?
    ensures var op := OpOf(k, c, w, event);
            Next(k, c, w, event).db == if op.Some? then Step(k, w.db, op.value) else w.db
  {
    hide CheckBegin, MarkDispatchStarted, StartRecovery;
  }

  lemma RecordDb(k: Protocol, c: A.Crypto, w: World, event: Event)
    requires event.RecordNotDispatched? || event.RecordDispatched?
    ensures var op := OpOf(k, c, w, event);
            Next(k, c, w, event).db == if op.Some? then Step(k, w.db, op.value) else w.db
  {
    hide RecordReceipt, NotDispatchedReceipt, DispatchedReceipt, StartRecovery;
  }

  lemma FinishDb(k: Protocol, c: A.Crypto, w: World, event: Event)
    requires event.FinishRecovery?
    ensures var op := OpOf(k, c, w, event);
            Next(k, c, w, event).db == if op.Some? then Step(k, w.db, op.value) else w.db
  {
    hide RecordReceipt, StartRecovery;
  }

  lemma OtherDb(k: Protocol, c: A.Crypto, w: World, event: Event)
    requires !event.Authorize? && !event.Refresh? && !event.TakeClaim? && !event.Begin?
    requires !event.RecordNotDispatched? && !event.RecordDispatched? && !event.FinishRecovery?
    ensures var op := OpOf(k, c, w, event);
            Next(k, c, w, event).db == if op.Some? then Step(k, w.db, op.value) else w.db
  {
    hide Step, RecoveredReceipt, Settle;
  }

  lemma RefreshedHash(k: Protocol, c: A.Crypto, w: World, id: nat)
    requires TokensOk(k, c, w) && id in w.live && w.live[id].Refreshed?
    ensures w.live[id].e.grantHash == k.hashGrant(w.live[id].e.grant)
  {
    hide IsPrepared;
    assert TokenOk(k, c, w.db, w.invocations, w.live[id]);
    PreparedHash(k, c, w.live[id].e);
  }

  // ---- What an event leaves unmarkable ----

  /** Only a claim transaction hands out a claim token, and only for a grant not yet claimed. */
  lemma OldClaimToken(k: Protocol, c: A.Crypto, w: World, event: Event, id: nat)
    requires WorldInv(k, c, w) && id in Next(k, c, w, event).live && Next(k, c, w, event).live[id].ClaimedEffect?
    requires Next(k, c, w, event).live[id].e.grantHash in w.db.claims
    ensures id in w.live && w.live[id] == Next(k, c, w, event).live[id]
  {
    hide Inv, TokensOk, CallsOk, Exclusive, Single;
    hide IsPrepared, CheckAuthorize, CheckBegin, RegisterChain, PutCurrentness, Claim, MarkDispatchStarted;
    hide RecordReceipt, Step, RecoveredReceipt;
    if event.TakeClaim? && event.id == id && id in w.live && w.live[id].Refreshed? {
      var t := w.live[id];
      var q := RequestFor(t.policy, t.snapshot, t.attemptId);
      RefreshedHash(k, c, w, id);
      if Claim(k, w.db, t.e.grant, q, t.now).Some? { ClaimStep(k, w.db, t.e.grant, q, t.now); }
    }
  }

  /** An event leaves an unmarkable claim as it is, and unmarkable. */
  lemma StaysUnmarkable(k: Protocol, c: A.Crypto, w: World, event: Event, h: Digest)
    requires WorldInv(k, c, w) && Unmarked(w.db, h) && !Markable(k, c, w, h)
    ensures var v := Next(k, c, w, event);
            h in v.db.claims && v.db.claims[h] == w.db.claims[h] && !Markable(k, c, v, h)
  {
    hide Inv, TokensOk, CallsOk, Exclusive, Single, Next, Step, CheckBegin, MarkDispatchStarted, R.Extends;
    var v := Next(k, c, w, event);
    EventKeeps(k, c, w, event);
    NextExtends(k, c, w, event);
    ClaimStays(k, c, w, event, h);
    forall id, policy, a, now ensures !MarkableBy(k, c, v, h, id, policy, a, now) {
      assert !MarkableBy(k, c, w, h, id, policy, a, now);
      if MarkableBy(k, c, v, h, id, policy, a, now) {
        OldClaimToken(k, c, w, event, id);
        MarkersShrink(k, w.db, v.db, h, w.live[id].row.attemptId, now);
      }
    }
  }

  lemma NextExtends(k: Protocol, c: A.Crypto, w: World, event: Event)
    requires Inv(k, w.db)
    ensures R.Extends(w.db, Next(k, c, w, event).db)
  {
    hide Inv, Next, OpOf, Step, R.Extends;
    NextDb(k, c, w, event);
    CurrentnessPart(k, w.db);
    var op := OpOf(k, c, w, event);
    if op.Some? { R.StepExtends(k, w.db, op.value); } else { R.ExtendsItself(w.db); }
  }

  lemma ClaimStays(k: Protocol, c: A.Crypto, w: World, event: Event, h: Digest)
    requires Unmarked(w.db, h) && !Markable(k, c, w, h)
    ensures var v := Next(k, c, w, event); h in v.db.claims && v.db.claims[h] == w.db.claims[h]
  {
    hide Next, Step, CheckBegin, MarkDispatchStarted;
    NextDb(k, c, w, event);
    var op := OpOf(k, c, w, event);
    if op.Some? {
      if event.Begin? && op.value.hash == h {
        var t := w.live[event.id];
        WidestSuffices(k, c, event.policy, t.e, t.evidence, t.signed, event.authority, event.now);
        assert !MarkableBy(k, c, w, h, event.id, Widest(event.policy), event.authority, event.now);
      }
      R.ClaimOnlyMarked(k, w.db, op.value, h);
    }
  }

  lemma {:induction false} NeverMarked(k: Protocol, c: A.Crypto, w: World, events: seq<Event>, h: Digest)
    requires WorldInv(k, c, w) && Unmarked(w.db, h) && !Markable(k, c, w, h)
    ensures var v := RunEvents(k, c, w, events);
            h in v.db.claims && v.db.claims[h] == w.db.claims[h] && Uninvoked(v.invocations, h)
    decreases |events|
  {
    hide Inv, TokensOk, Exclusive, Single, CallsOk, Next, Markable, Uninvoked;
    if events == [] {
      UnmarkedUninvoked(k, c, w, h);
    } else {
      EventKeeps(k, c, w, events[0]);
      StaysUnmarkable(k, c, w, events[0], h);
      NeverMarked(k, c, Next(k, c, w, events[0]), events[1..], h);
    }
  }

  // ---- A markable claim is marked and dispatched by two more events ----

  function LateEvents(id: nat, policy: Policy, a: A.AuthoritySnapshot, now: u64): seq<Event> {
    [Begin(id, policy, a, now), Dispatch(id)]
  }

  lemma LateRun(
    k: Protocol, c: A.Crypto, w: World, h: Digest, id: nat, policy: Policy, a: A.AuthoritySnapshot, now: u64)
    requires Inv(k, w.db) && MarkableBy(k, c, w, h, id, policy, a, now)
    ensures var v := RunEvents(k, c, w, LateEvents(id, policy, a, now));
            h in v.db.claims && v.db.claims[h].marker == Some(now) && !Uninvoked(v.invocations, h)
            && v.db.receipts == w.db.receipts
  {
    hide Inv, Next, RunEvents, CheckBegin, MarkDispatchStarted, Step;
    var begin, v := Begin(id, policy, a, now), Next(k, c, w, Begin(id, policy, a, now));
    assert LateEvents(id, policy, a, now) == [begin] + ([Dispatch(id)] + []);
    PR.RunCons(k, c, w, begin, [Dispatch(id)] + []);
    PR.RunCons(k, c, v, Dispatch(id), []);
    PR.RunNone(k, c, Next(k, c, v, Dispatch(id)));
    LateBegin(k, c, w, h, id, policy, a, now);
    LateDispatch(k, c, v, id);
  }

  lemma LateBegin(
    k: Protocol, c: A.Crypto, w: World, h: Digest, id: nat, policy: Policy, a: A.AuthoritySnapshot, now: u64)
    requires Inv(k, w.db) && MarkableBy(k, c, w, h, id, policy, a, now)
    ensures var v := Next(k, c, w, Begin(id, policy, a, now));
            h in v.db.claims && v.db.claims[h].marker == Some(now) && v.db.receipts == w.db.receipts
            && id in v.live && v.live[id].Capability? && v.live[id].e.grantHash == h
  {
    hide Inv, CheckBegin, MarkDispatchStarted, Grew;
    var attemptId := w.live[id].row.attemptId;
    MarkStep(k, w.db, h, attemptId, now);
    R.MarkLeaves(k, w.db, h, attemptId, now);
  }

  lemma LateDispatch(k: Protocol, c: A.Crypto, w: World, id: nat)
    requires id in w.live && w.live[id].Capability?
    ensures var v := Next(k, c, w, Dispatch(id));
            v.db == w.db && !Uninvoked(v.invocations, w.live[id].e.grantHash)
  {
    var v := Next(k, c, w, Dispatch(id));
    assert v.invocations[|w.invocations|].grantHash == w.live[id].e.grantHash;
  }

  // ---- The exact conditions ----

  /** In every reachable world, the adapter can still come to be invoked for an
      unmarked claim if and only if some live token could begin its dispatch. */
  lemma InvokedLaterExactly(k: Protocol, c: A.Crypto, events: seq<Event>, h: Digest)
    ensures var w := RunEvents(k, c, Start(), events);
            Unmarked(w.db, h) ==>
              ((exists more :: !Uninvoked(RunEvents(k, c, w, more).invocations, h)) <==> Markable(k, c, w, h))
  {
    hide RunEvents, Inv, TokensOk, CallsOk, Exclusive, Single, Uninvoked, MarkableBy;
    var w := RunEvents(k, c, Start(), events);
    ReachedOk(k, c, events);
    if Unmarked(w.db, h) {
      if Markable(k, c, w, h) {
        var id, policy, a, now :| MarkableBy(k, c, w, h, id, policy, a, now);
        LateRun(k, c, w, h, id, policy, a, now);
        assert !Uninvoked(RunEvents(k, c, w, LateEvents(id, policy, a, now)).invocations, h);
      } else {
        forall more ensures Uninvoked(RunEvents(k, c, w, more).invocations, h) { NeverMarked(k, c, w, more, h); }
      }
    }
  }

  /** A receipt without a dispatch time, beside a claim that has no marker. */
  ghost predicate ReportsNone(db: Db, h: Digest) {
    h in db.receipts && db.receipts[h].receipt.dispatchedAt.None? && Unmarked(db, h)
  }

  /** In every reachable world, a receipt that reports no dispatch stays true on
      every continuation, and its lifecycle readable on every continuation, if
      and only if no live token could begin the dispatch. */
  lemma NotDispatchedForGoodExactly(k: Protocol, c: A.Crypto, events: seq<Event>, h: Digest)
    ensures var w := RunEvents(k, c, Start(), events);
            ReportsNone(w.db, h) ==>
              ((forall more :: Uninvoked(RunEvents(k, c, w, more).invocations, h)) <==> !Markable(k, c, w, h))
              && ((forall more :: ReadLifecycle(k, RunEvents(k, c, w, more).db, h).Some?) <==> !Markable(k, c, w, h))
  {
    hide RunEvents, Inv, TokensOk, CallsOk, Exclusive, Single, Uninvoked, MarkableBy, ReadLifecycle;
    var w := RunEvents(k, c, Start(), events);
    ReachedOk(k, c, events);
    InvokedLaterExactly(k, c, events, h);
    if ReportsNone(w.db, h) {
      if Markable(k, c, w, h) {
        var id, policy, a, now :| MarkableBy(k, c, w, h, id, policy, a, now);
        LateRunLoses(k, c, w, h, id, policy, a, now);
        assert ReadLifecycle(k, RunEvents(k, c, w, LateEvents(id, policy, a, now)).db, h).None?;
      } else {
        forall more ensures ReadLifecycle(k, RunEvents(k, c, w, more).db, h).Some? {
          NeverLost(k, c, w, more, h);
        }
      }
    }
  }

  lemma LateRunLoses(
    k: Protocol, c: A.Crypto, w: World, h: Digest, id: nat, policy: Policy, a: A.AuthoritySnapshot, now: u64)
    requires WorldInv(k, c, w) && ReportsNone(w.db, h) && MarkableBy(k, c, w, h, id, policy, a, now)
    ensures ReadLifecycle(k, RunEvents(k, c, w, LateEvents(id, policy, a, now)).db, h).None?
  {
    hide Inv, TokensOk, CallsOk, Exclusive, Single, RunEvents;
    hide Uninvoked, ReadLifecycle, CheckBegin, MarkDispatchStarted;
    LateRun(k, c, w, h, id, policy, a, now);
    EventsKeep(k, c, w, LateEvents(id, policy, a, now));
    R.LifecycleReads(k, RunEvents(k, c, w, LateEvents(id, policy, a, now)).db, h);
  }

  lemma NeverLost(k: Protocol, c: A.Crypto, w: World, more: seq<Event>, h: Digest)
    requires WorldInv(k, c, w) && ReportsNone(w.db, h) && !Markable(k, c, w, h)
    ensures ReadLifecycle(k, RunEvents(k, c, w, more).db, h).Some?
  {
    hide Inv, TokensOk, CallsOk, Exclusive, Single, RunEvents, Uninvoked, ReadLifecycle, Markable, R.Extends;
    var v := RunEvents(k, c, w, more);
    NeverMarked(k, c, w, more, h);
    EventsKeep(k, c, w, more);
    RunExtends(k, c, w, more);
    R.ReceiptInvariant(k, w.db, h);
    KeptReceipt(w.db, v.db, h);
    R.LifecycleReads(k, v.db, h);
  }

  lemma KeptReceipt(db: Db, u: Db, h: Digest)
    requires R.Extends(db, u) && h in db.receipts && h in db.chainByHash
    ensures h in u.receipts && u.receipts[h] == db.receipts[h] && h in u.chainByHash
  {
  }

  /** No event of any run rewrites what the database holds. */
  lemma {:induction false} RunExtends(k: Protocol, c: A.Crypto, w: World, events: seq<Event>)
    requires WorldInv(k, c, w)
    ensures R.Extends(w.db, RunEvents(k, c, w, events).db)
    decreases |events|
  {
    hide Inv, TokensOk, CallsOk, Exclusive, Single, Next, R.Extends;
    if events == [] {
      R.ExtendsItself(w.db);
    } else {
      var v := Next(k, c, w, events[0]);
      EventKeeps(k, c, w, events[0]);
      NextExtends(k, c, w, events[0]);
      RunExtends(k, c, v, events[1..]);
      R.ExtendsTransitive(w.db, v.db, RunEvents(k, c, v, events[1..]).db);
    }
  }

  /** Recovery that records `not_dispatched` is contradicted by some continuation
      if and only if, when it records, some live token could begin the dispatch. */
  lemma RecoveryPrematureExactly(k: Protocol, c: A.Crypto, events: seq<Event>, id: nat)
    ensures var w := RunEvents(k, c, Start(), events);
            id in w.live && w.live[id].Recovering? && w.live[id].receipt.dispatchedAt.None?
            && RecordReceipt(k, w.db, w.live[id].receipt).Some? ==>
              var v, h := Next(k, c, w, FinishRecovery(id)), w.live[id].receipt.grantHash;
              ReportsNone(v.db, h)
              && ((exists more :: !Uninvoked(RunEvents(k, c, v, more).invocations, h)) <==> Markable(k, c, w, h))
              && ((exists more :: ReadLifecycle(k, RunEvents(k, c, v, more).db, h).None?) <==> Markable(k, c, w, h))
  {
    hide RunEvents, WorldInv, Uninvoked, ReadLifecycle, RecordReceipt, Next, Markable;
    var w := RunEvents(k, c, Start(), events);
    ReachedOk(k, c, events);
    if id in w.live && w.live[id].Recovering? && w.live[id].receipt.dispatchedAt.None?
       && RecordReceipt(k, w.db, w.live[id].receipt).Some? {
      var h := w.live[id].receipt.grantHash;
      var v := Next(k, c, w, FinishRecovery(id));
      assert [FinishRecovery(id)] == [FinishRecovery(id)] + [];
      PR.RunConcat(k, c, Start(), events, [FinishRecovery(id)]);
      PR.RunCons(k, c, w, FinishRecovery(id), []);
      PR.RunNone(k, c, v);
      FinishReports(k, c, w, id);
      FinishMarkable(k, c, w, id, h);
      InvokedLaterExactly(k, c, events + [FinishRecovery(id)], h);
      NotDispatchedForGoodExactly(k, c, events + [FinishRecovery(id)], h);
    }
  }

  lemma FinishReports(k: Protocol, c: A.Crypto, w: World, id: nat)
    requires WorldInv(k, c, w) && id in w.live && w.live[id].Recovering? && w.live[id].receipt.dispatchedAt.None?
    requires RecordReceipt(k, w.db, w.live[id].receipt).Some?
    ensures ReportsNone(Next(k, c, w, FinishRecovery(id)).db, w.live[id].receipt.grantHash)
  {
    hide WorldInv, Inv, MayRecord, IntactReceipt, ReceiptOk;
    var r := w.live[id].receipt;
    RecordNeeds(k, w.db, r);
    NothingBefore(k, c, w, r);
    if r.grantHash in w.db.receipts { StoredReports(k, c, w, r.grantHash); }
  }

  lemma RecordNeeds(k: Protocol, db: Db, r: Receipt)
    requires RecordReceipt(k, db, r).Some?
    ensures MayRecord(k, db, r)
  {
    hide MayRecord, IntactReceipt;
  }

  lemma StoredReports(k: Protocol, c: A.Crypto, w: World, h: Digest)
    requires WorldInv(k, c, w) && h in w.db.receipts && Unmarked(w.db, h)
    ensures w.db.receipts[h].receipt.dispatchedAt.None?
  {
    hide Inv, TokensOk, CallsOk, Exclusive, Single, IsHistory, AllRecords;
    R.ReceiptInvariant(k, w.db, h);
  }

  /** Recording a receipt neither helps nor hinders a marker. */
  lemma FinishMarkable(k: Protocol, c: A.Crypto, w: World, id: nat, h: Digest)
    requires id in w.live && w.live[id].Recovering?
    ensures Markable(k, c, Next(k, c, w, FinishRecovery(id)), h) <==> Markable(k, c, w, h)
  {
    hide CheckBegin, MarkDispatchStarted, RecordReceipt;
    var v := Next(k, c, w, FinishRecovery(id));
    RecordOnlyReceipts(k, w.db, w.live[id].receipt, v.db);
    MarkIgnoresReceipts(k, w.db, v.db);
    forall other, policy, a, now
      ensures MarkableBy(k, c, v, h, other, policy, a, now) <==> MarkableBy(k, c, w, h, other, policy, a, now)
    {
    }
  }

  lemma RecordOnlyReceipts(k: Protocol, db: Db, r: Receipt, u: Db)
    requires u == (if RecordReceipt(k, db, r).Some? then RecordReceipt(k, db, r).value else db)
    ensures u == db.(receipts := u.receipts, receiptByHash := u.receiptByHash)
  {
    hide MayRecord, IntactReceipt;
  }

  /** `mark_dispatch_started` does not read receipts. */
  lemma MarkIgnoresReceipts(k: Protocol, db: Db, u: Db)
    requires u == db.(receipts := u.receipts, receiptByHash := u.receiptByHash)
    ensures forall h, attemptId, at ::
              MarkDispatchStarted(k, u, h, attemptId, at).Some? <==> MarkDispatchStarted(k, db, h, attemptId, at).Some?
  {
    hide Matches, Intact;
  }

  /** From the database alone: where no marker can be written any more, because
      the clock, expiry, freshness or the version rules it out, closing the
      attempt is safe whatever tokens are live. */
  lemma SafeFromDatabase(k: Protocol, c: A.Crypto, events: seq<Event>, h: Digest)
    ensures var w := RunEvents(k, c, Start(), events);
            Unmarked(w.db, h) && !T.MarkerOpen(w.db, h) ==>
              !Markable(k, c, w, h) && forall more :: Uninvoked(RunEvents(k, c, w, more).invocations, h)
  {
    hide RunEvents, Inv, TokensOk, CallsOk, Exclusive, Single, Uninvoked, CheckBegin, T.MarkerOpen, MarkDispatchStarted;
    var w := RunEvents(k, c, Start(), events);
    ReachedOk(k, c, events);
    InvokedLaterExactly(k, c, events, h);
    if Unmarked(w.db, h) && !T.MarkerOpen(w.db, h) {
      forall id, policy, a, now ensures !MarkableBy(k, c, w, h, id, policy, a, now) {
        if id in w.live && w.live[id].ClaimedEffect? {
          T.OpenForMarker(k, w.db, h, w.live[id].row.attemptId, now);
        }
      }
    }
  }

  // ---- Whole runs ----

  /** No recovery is recorded as undispatched while a live token could begin the dispatch. */
  ghost predicate Careful(k: Protocol, c: A.Crypto, w: World, event: Event) {
    event.FinishRecovery? && event.id in w.live && w.live[event.id].Recovering?
      && w.live[event.id].receipt.dispatchedAt.None? && RecordReceipt(k, w.db, w.live[event.id].receipt).Some?
    ==> !Markable(k, c, w, w.live[event.id].receipt.grantHash)
  }

  ghost predicate CarefulRun(k: Protocol, c: A.Crypto, w: World, events: seq<Event>)
    decreases |events|
  {
    events == [] || (Careful(k, c, w, events[0]) && CarefulRun(k, c, Next(k, c, w, events[0]), events[1..]))
  }

  /** A receipt without a dispatch time belongs to an unmarked claim that nobody can mark. */
  ghost predicate SettledAt(k: Protocol, c: A.Crypto, w: World, h: Digest)
    requires h in w.db.receipts
  {
    w.db.receipts[h].receipt.dispatchedAt.None? ==> Unmarked(w.db, h) && !Markable(k, c, w, h)
  }

  ghost predicate Settled(k: Protocol, c: A.Crypto, w: World) {
    forall h | h in w.db.receipts :: SettledAt(k, c, w, h)
  }

  lemma SettledEvent(k: Protocol, c: A.Crypto, w: World, event: Event)
    requires WorldInv(k, c, w) && Settled(k, c, w) && Careful(k, c, w, event)
    ensures Settled(k, c, Next(k, c, w, event))
  {
    hide Inv, TokensOk, CallsOk, Exclusive, Single, Next, Markable, Careful, R.Extends;
    var v := Next(k, c, w, event);
    NextExtends(k, c, w, event);
    forall h | h in v.db.receipts ensures SettledAt(k, c, v, h) {
      if h in w.db.receipts {
        assert SettledAt(k, c, w, h);
        KeptRow(w.db, v.db, h);
        if w.db.receipts[h].receipt.dispatchedAt.None? { StaysUnmarkable(k, c, w, event, h); }
      } else if v.db.receipts[h].receipt.dispatchedAt.None? {
        NewReceipt(k, c, w, event, h);
      }
    }
  }

  lemma KeptRow(db: Db, u: Db, h: Digest)
    requires R.Extends(db, u) && h in db.receipts
    ensures h in u.receipts && u.receipts[h] == db.receipts[h]
  {
  }

  /** A new receipt without a dispatch time closes an attempt that nobody can still dispatch. */
  lemma NewReceipt(k: Protocol, c: A.Crypto, w: World, event: Event, h: Digest)
    requires WorldInv(k, c, w) && Careful(k, c, w, event)
    requires var v := Next(k, c, w, event);
             h !in w.db.receipts && h in v.db.receipts && v.db.receipts[h].receipt.dispatchedAt.None?
    ensures Unmarked(Next(k, c, w, event).db, h) && !Markable(k, c, Next(k, c, w, event), h)
  {
    hide Inv, TokensOk, CallsOk, Exclusive, Single, Next, Markable, MayRecord, RecordReceipt, Step;
    var op := OpOf(k, c, w, event);
    NextDb(k, c, w, event);
    if !op.value.ReceiptOp? { R.ReceiptsUntouched(k, w.db, op.value); }
    var r := op.value.receipt;
    RecordedAtMost(k, w.db, r);
    NothingBefore(k, c, w, r);
    if event.RecordNotDispatched? {
      OwnTokenGone(k, c, w, event);
    } else {
      StaysUnmarkable(k, c, w, event, h);
    }
  }

  /** A receipt transaction adds at most this receipt. */
  lemma RecordedAtMost(k: Protocol, db: Db, r: Receipt)
    ensures var u := Step(k, db, ReceiptOp(r));
            u.claims == db.claims
            && forall h | h in u.receipts && h !in db.receipts ::
                 h == r.grantHash && u.receipts[h].receipt == r && MayRecord(k, db, r)
                 && RecordReceipt(k, db, r).Some?
  {
    hide MayRecord, IntactReceipt;
  }

  /** The token that closes its own attempt is the only one with its claim. */
  lemma SoleClaim(k: Protocol, c: A.Crypto, w: World, id: nat)
    requires WorldInv(k, c, w) && id in w.live && w.live[id].ClaimedEffect?
    ensures forall other | other in w.live && other != id && w.live[other].ClaimedEffect? ::
              w.live[other].e.grantHash != w.live[id].e.grantHash
  {
    hide Inv, TokensOk, CallsOk;
    forall other | other in w.live && other != id && w.live[other].ClaimedEffect?
      ensures w.live[other].e.grantHash != w.live[id].e.grantHash
    {
      assert Holder(w.live[id]) != Holder(w.live[other]);
    }
  }

  /** An executor that closes its own attempt gives up the one token that could dispatch it. */
  lemma OwnTokenGone(k: Protocol, c: A.Crypto, w: World, event: Event)
    requires WorldInv(k, c, w) && event.RecordNotDispatched? && event.id in w.live && w.live[event.id].ClaimedEffect?
    requires Unmarked(w.db, w.live[event.id].e.grantHash)
    ensures var v, h := Next(k, c, w, event), w.live[event.id].e.grantHash;
            Unmarked(v.db, h) && !Markable(k, c, v, h)
  {
    hide Inv, TokensOk, CallsOk, Exclusive, Single, RecordReceipt, CheckBegin, MarkDispatchStarted, Step;
    var t, v := w.live[event.id], Next(k, c, w, event);
    SoleClaim(k, c, w, event.id);
    NextDb(k, c, w, event);
    RecordedAtMost(
      k, w.db, NotDispatchedReceipt(t.e, t.row, event.receiptId, event.completedAt, event.observation));
    forall id, policy, a, now ensures !MarkableBy(k, c, v, t.e.grantHash, id, policy, a, now) {
    }
  }

  lemma {:induction false} SettledRun(k: Protocol, c: A.Crypto, w: World, events: seq<Event>)
    requires WorldInv(k, c, w) && Settled(k, c, w) && CarefulRun(k, c, w, events)
    ensures Settled(k, c, RunEvents(k, c, w, events))
    decreases |events|
  {
    hide WorldInv, Settled, Next, Careful;
    if events != [] {
      EventKeeps(k, c, w, events[0]);
      SettledEvent(k, c, w, events[0]);
      SettledRun(k, c, Next(k, c, w, events[0]), events[1..]);
    }
  }

  /** Every receipt without a dispatch time stays true, whatever happens next. */
  ghost predicate Truthful(k: Protocol, c: A.Crypto, w: World) {
    forall h, more :: h in w.db.receipts && w.db.receipts[h].receipt.dispatchedAt.None? ==>
      Uninvoked(RunEvents(k, c, w, more).invocations, h)
  }

  lemma SettledIsTruthful(k: Protocol, c: A.Crypto, w: World)
    requires WorldInv(k, c, w) && Settled(k, c, w)
    ensures Truthful(k, c, w)
    ensures forall h | h in w.db.chainByHash :: ReadLifecycle(k, w.db, h).Some?
  {
    hide Inv, TokensOk, CallsOk, Exclusive, Single, RunEvents, Markable, Uninvoked, ReadLifecycle;
    forall h, more | h in w.db.receipts && w.db.receipts[h].receipt.dispatchedAt.None?
      ensures Uninvoked(RunEvents(k, c, w, more).invocations, h)
    {
      assert SettledAt(k, c, w, h);
      NeverMarked(k, c, w, more, h);
    }
    forall h | h in w.db.chainByHash ensures ReadLifecycle(k, w.db, h).Some? {
      R.LifecycleReads(k, w.db, h);
      if h in w.db.receipts {
        R.ReceiptInvariant(k, w.db, h);
        assert SettledAt(k, c, w, h);
      }
    }
  }

  lemma {:induction false} CarefulPrefix(k: Protocol, c: A.Crypto, w: World, events: seq<Event>, n: nat)
    requires n <= |events| && CarefulRun(k, c, w, events)
    ensures CarefulRun(k, c, w, events[..n])
    decreases n
  {
    hide Next, Careful;
    if n > 0 {
      assert events[..n][1..] == events[1..][..n - 1];
      CarefulPrefix(k, c, Next(k, c, w, events[0]), events[1..], n - 1);
    }
  }

  lemma {:induction false} CarefulSnoc(k: Protocol, c: A.Crypto, w: World, events: seq<Event>, event: Event)
    requires CarefulRun(k, c, w, events) && Careful(k, c, RunEvents(k, c, w, events), event)
    ensures CarefulRun(k, c, w, events + [event])
    decreases |events|
  {
    hide Next, Careful;
    if events == [] {
      assert events + [event] == [event] && [event][1..] == [];
    } else {
      assert (events + [event])[1..] == events[1..] + [event];
      CarefulSnoc(k, c, Next(k, c, w, events[0]), events[1..], event);
    }
  }

  /** A run is careful if and only if at none of its moments there is a receipt
      without a dispatch time that some continuation would make false. */
  lemma TruthfulExactly(k: Protocol, c: A.Crypto, events: seq<Event>)
    ensures CarefulRun(k, c, Start(), events)
        <==> forall n | 0 <= n <= |events| :: Truthful(k, c, RunEvents(k, c, Start(), events[..n]))
  {
    hide RunEvents, CarefulRun, Truthful, Next, Careful;
    if CarefulRun(k, c, Start(), events) {
      forall n | 0 <= n <= |events| ensures Truthful(k, c, RunEvents(k, c, Start(), events[..n])) {
        CarefulPrefix(k, c, Start(), events, n);
        CarefulIsTruthful(k, c, events[..n]);
      }
    } else if forall n | 0 <= n <= |events| :: Truthful(k, c, RunEvents(k, c, Start(), events[..n])) {
      TruthfulIsCareful(k, c, events);
    }
  }

  lemma CarefulIsTruthful(k: Protocol, c: A.Crypto, events: seq<Event>)
    requires CarefulRun(k, c, Start(), events)
    ensures var w := RunEvents(k, c, Start(), events);
            Settled(k, c, w) && Truthful(k, c, w)
            && forall h | h in w.db.chainByHash :: ReadLifecycle(k, w.db, h).Some?
  {
    hide RunEvents, CarefulRun, Truthful, WorldInv, ReadLifecycle;
    StartOk(k, c);
    ReachedOk(k, c, events);
    SettledRun(k, c, Start(), events);
    SettledIsTruthful(k, c, RunEvents(k, c, Start(), events));
  }

  lemma {:induction false} TruthfulIsCareful(k: Protocol, c: A.Crypto, events: seq<Event>)
    requires forall n | 0 <= n <= |events| :: Truthful(k, c, RunEvents(k, c, Start(), events[..n]))
    ensures CarefulRun(k, c, Start(), events)
    decreases |events|
  {
    hide RunEvents, Truthful, Next, Careful;
    if events != [] {
      var last := |events| - 1;
      var before := events[..last];
      forall n | 0 <= n <= last ensures Truthful(k, c, RunEvents(k, c, Start(), before[..n])) {
        assert before[..n] == events[..n];
      }
      TruthfulIsCareful(k, c, before);
      assert events == before + [events[last]] && events[..|events|] == events;
      TruthfulStep(k, c, before, events[last]);
      CarefulSnoc(k, c, Start(), before, events[last]);
    }
  }

  lemma TruthfulStep(k: Protocol, c: A.Crypto, events: seq<Event>, event: Event)
    requires Truthful(k, c, RunEvents(k, c, Start(), events + [event]))
    ensures Careful(k, c, RunEvents(k, c, Start(), events), event)
  {
    hide RunEvents, Next, Markable, RecordReceipt, Uninvoked, ReadLifecycle;
    var w := RunEvents(k, c, Start(), events);
    RunSnoc(k, c, Start(), events, event);
    if event.FinishRecovery? { RecoveryPrematureExactly(k, c, events, event.id); }
  }

  lemma RunSnoc(k: Protocol, c: A.Crypto, w: World, events: seq<Event>, event: Event)
    ensures RunEvents(k, c, w, events + [event]) == Next(k, c, RunEvents(k, c, w, events), event)
  {
    hide RunEvents, Next;
    var u := RunEvents(k, c, w, events);
    assert [event] == [event] + [];
    PR.RunConcat(k, c, w, events, [event]);
    PR.RunCons(k, c, u, event, []);
    PR.RunNone(k, c, Next(k, c, u, event));
  }

  // ---- One sufficient discipline ----

  /** Recovery closes an undispatched attempt only once its claim token is gone. */
  ghost predicate Disciplined(w: World, event: Event) {
    event.FinishRecovery? && event.id in w.live && w.live[event.id].Recovering?
      && w.live[event.id].receipt.dispatchedAt.None?
    ==> forall id | id in w.live && w.live[id].ClaimedEffect? ::
          w.live[id].e.grantHash != w.live[event.id].receipt.grantHash
  }

  ghost predicate DisciplinedRun(k: Protocol, c: A.Crypto, w: World, events: seq<Event>)
    decreases |events|
  {
    events == [] || (Disciplined(w, events[0]) && DisciplinedRun(k, c, Next(k, c, w, events[0]), events[1..]))
  }

  lemma DisciplinedIsCareful(k: Protocol, c: A.Crypto, w: World, event: Event)
    requires Disciplined(w, event)
    ensures Careful(k, c, w, event)
  {
    hide RecordReceipt, CheckBegin, MarkDispatchStarted;
  }

  lemma {:induction false} DisciplinedRunIsCareful(k: Protocol, c: A.Crypto, w: World, events: seq<Event>)
    requires DisciplinedRun(k, c, w, events)
    ensures CarefulRun(k, c, w, events)
    decreases |events|
  {
    hide Next, Careful, Disciplined;
    if events != [] {
      DisciplinedIsCareful(k, c, w, events[0]);
      DisciplinedRunIsCareful(k, c, Next(k, c, w, events[0]), events[1..]);
    }
  }

  /** On every run where recovery waits for the claim token to be gone, a
      receipt without a dispatch time is true for good: its grant is never
      invoked and never marked, and the lifecycle of every registered grant
      can still be read. */
  lemma NotDispatchedStaysTrue(k: Protocol, c: A.Crypto, events: seq<Event>)
    requires DisciplinedRun(k, c, Start(), events)
    ensures var w := RunEvents(k, c, Start(), events);
            Truthful(k, c, w)
            && (forall h | h in w.db.receipts && w.db.receipts[h].receipt.dispatchedAt.None? ::
                  Uninvoked(w.invocations, h) && h in w.db.claims && w.db.claims[h].marker.None?)
            && (forall h | h in w.db.chainByHash :: ReadLifecycle(k, w.db, h).Some?)
  {
    hide RunEvents, Inv, TokensOk, Exclusive, Single, CallsOk, Uninvoked, ReadLifecycle, DisciplinedRun, CarefulRun;
    hide Markable, Truthful;
    var w := RunEvents(k, c, Start(), events);
    DisciplinedRunIsCareful(k, c, Start(), events);
    CarefulIsTruthful(k, c, events);
    ReachedOk(k, c, events);
    forall h | h in w.db.receipts && w.db.receipts[h].receipt.dispatchedAt.None?
      ensures Uninvoked(w.invocations, h) && h in w.db.claims && w.db.claims[h].marker.None?
    {
      assert SettledAt(k, c, w, h);
      UnmarkedUninvoked(k, c, w, h);
    }
  }
}
