/** What every interleaved run of any number of executors keeps, crashes included. */
module ExecutorRuns {
  import opened Unicode
  import opened Json
  import opened Records
  import opened Verifier
  import opened Sqlite
  import opened SqliteInvariant
  import opened Executor
  import R = SqliteRuns
  import A = Authority

  // ---- The invariant ----

  /** The grant whose claim a token carries. */
  function Holder(t: Token): Option<Digest> {
    match t
    case ClaimedEffect(e, _, _, _) => Some(e.grantHash)
    case Capability(e, _, _) => Some(e.grantHash)
    case Handle(_, grantHash, _, _) => Some(grantHash)
    case _ => None
  }

  function ChainRowOf(k: Protocol, e: Prepared): ChainRow {
    ChainRow(e.grantHash, e.proposalHash, k.hashDecision(e.decision), e.task, e.proposal, e.decision, e.grant)
  }

  /** The chain stored under the prepared grant is the prepared chain. */
  ghost predicate HasChain(k: Protocol, db: Db, e: Prepared) {
    e.grantHash in db.chainByHash && db.chainByHash[e.grantHash] == e.grant.grantId
    && e.grant.grantId in db.chains && db.chains[e.grant.grantId] == ChainRowOf(k, e)
  }

  ghost predicate Uninvoked(calls: seq<Invocation>, h: Digest) {
    forall i | 0 <= i < |calls| :: calls[i].grantHash != h
  }

  ghost predicate TokenOk(k: Protocol, c: A.Crypto, db: Db, calls: seq<Invocation>, t: Token) {
    match t
    case Registered(e, _, _, _, _, _, _) => IsPrepared(k, c, e) && HasChain(k, db, e)
    case Refreshed(e, _, _, _, _, _, _) => IsPrepared(k, c, e) && HasChain(k, db, e)
    case ClaimedEffect(e, row, _, _) =>
      IsPrepared(k, c, e) && HasChain(k, db, e) && Uninvoked(calls, e.grantHash)
      && row.marker.None? && e.grantHash in db.claims && db.claims[e.grantHash] == row
    case Capability(e, row, at) =>
      IsPrepared(k, c, e) && HasChain(k, db, e) && Uninvoked(calls, e.grantHash)
      && row.marker.None? && e.grantHash in db.claims && db.claims[e.grantHash] == row.(marker := Some(at))
    case Handle(_, h, row, at) =>
      row.marker.None? && h in db.claims && db.claims[h] == row.(marker := Some(at))
    case Recovering(_) => true
  }

  /** The invocation had a marker for its grant and attempt, and its effect is
      the one that the stored chain committed to, documents included. */
  ghost predicate InvocationOk(k: Protocol, c: A.Crypto, db: Db, call: Invocation) {
    var h := call.grantHash;
    h in db.claims && db.claims[h].attemptId == call.attemptId && db.claims[h].marker == Some(call.dispatchedAt)
    && h in db.chainByHash && db.chainByHash[h] in db.chains
    && var row := db.chains[db.chainByHash[h]];
       row.grantHash == h && row.proposalHash == call.proposalHash
       && call.effect.effectProfile == row.proposal.effectProfile && call.effect.operation == row.proposal.operation
       && call.effect.target == row.proposal.target && Bound(c, row.proposal, call.effect.documents)
  }

  /** No two tokens hold one claim. */
  ghost predicate Exclusive(live: map<nat, Token>) {
    forall i, j | i in live && j in live && i != j && Holder(live[i]).Some? :: Holder(live[i]) != Holder(live[j])
  }

  ghost predicate Single(calls: seq<Invocation>) {
    forall i, j | 0 <= i < j < |calls| :: calls[i].grantHash != calls[j].grantHash
  }

  ghost predicate TokensOk(k: Protocol, c: A.Crypto, w: World) {
    forall id | id in w.live :: TokenOk(k, c, w.db, w.invocations, w.live[id])
  }

  ghost predicate CallsOk(k: Protocol, c: A.Crypto, w: World) {
    forall i | 0 <= i < |w.invocations| :: InvocationOk(k, c, w.db, w.invocations[i])
  }

  ghost predicate WorldInv(k: Protocol, c: A.Crypto, w: World) {
    Inv(k, w.db) && TokensOk(k, c, w) && Exclusive(w.live) && CallsOk(k, c, w) && Single(w.invocations)
  }

  // ---- Frames ----

  /** The tables a token or an invocation depends on have only grown. */
  ghost predicate Grew(db: Db, u: Db) {
    (forall id | id in db.chains :: id in u.chains && u.chains[id] == db.chains[id])
    && (forall h | h in db.chainByHash :: h in u.chainByHash && u.chainByHash[h] == db.chainByHash[h])
    && (forall h | h in db.claims :: h in u.claims && R.ClaimGrows(db.claims[h], u.claims[h]))
  }

  lemma ExtendsGrew(db: Db, u: Db)
    requires R.Extends(db, u)
    ensures Grew(db, u)
  {
  }

  lemma TokenFrame(k: Protocol, c: A.Crypto, db: Db, u: Db, calls: seq<Invocation>, t: Token)
    requires TokenOk(k, c, db, calls, t) && Grew(db, u)
    requires var h := Holder(t);
             h.Some? && h.value in db.claims ==> h.value in u.claims && u.claims[h.value] == db.claims[h.value]
    ensures TokenOk(k, c, u, calls, t)
  {
    hide IsPrepared, Uninvoked;
  }

  lemma CallFrame(k: Protocol, c: A.Crypto, db: Db, u: Db, call: Invocation)
    requires InvocationOk(k, c, db, call) && Grew(db, u)
    ensures InvocationOk(k, c, u, call)
  {
    hide Bound;
  }

  lemma CallsFrame(k: Protocol, c: A.Crypto, w: World, v: World)
    requires CallsOk(k, c, w) && Grew(w.db, v.db) && v.invocations == w.invocations
    ensures CallsOk(k, c, v)
  {
    hide InvocationOk, Grew;
    forall i | 0 <= i < |v.invocations| ensures InvocationOk(k, c, v.db, v.invocations[i]) {
      CallFrame(k, c, w.db, v.db, w.invocations[i]);
    }
  }

  /** A step that leaves every claim but at most one alone, replaces the token
      `id` and gives no token a second holder keeps the invariant. */
  lemma StepFrame(k: Protocol, c: A.Crypto, w: World, v: World, id: nat)
    requires WorldInv(k, c, w) && Inv(k, v.db) && Grew(w.db, v.db) && v.invocations == w.invocations
    requires v.live == Without(w.live, id) || (id in v.live && v.live == w.live[id := v.live[id]])
    requires id in v.live ==> TokenOk(k, c, v.db, v.invocations, v.live[id])
    requires id in v.live && Holder(v.live[id]).Some? ==>
               forall other | other in w.live && other != id :: Holder(w.live[other]) != Holder(v.live[id])
    requires forall h | h in w.db.claims && v.db.claims[h] != w.db.claims[h] ::
               forall other | other in w.live && other != id :: Holder(w.live[other]) != Some(h)
    ensures WorldInv(k, c, v)
  {
    hide Inv, TokenOk, InvocationOk, Holder;
    CallsFrame(k, c, w, v);
    forall other | other in v.live ensures TokenOk(k, c, v.db, v.invocations, v.live[other]) {
      if other != id { TokenFrame(k, c, w.db, v.db, w.invocations, w.live[other]); }
    }
  }

  lemma DropFrame(k: Protocol, c: A.Crypto, w: World, lost: set<nat>)
    requires WorldInv(k, c, w)
    ensures WorldInv(k, c, w.(live := w.live - lost))
  {
    hide Inv, TokenOk, InvocationOk, Holder;
  }

  /** A database step that touches no claim. */
  lemma TableFrame(k: Protocol, c: A.Crypto, w: World, op: Op)
    requires WorldInv(k, c, w) && !op.MarkOp? && !op.ClaimOp?
    ensures WorldInv(k, c, w.(db := Step(k, w.db, op)))
    ensures Inv(k, Step(k, w.db, op)) && Grew(w.db, Step(k, w.db, op)) && Step(k, w.db, op).claims == w.db.claims
  {
    hide TokenOk, InvocationOk, Holder, Inv, Step, R.Extends, Grew;
    StepKeeps(k, w.db, op);
    assert CurrentnessOk(k, w.db.currentness) by { CurrentnessPart(k, w.db); }
    R.StepExtends(k, w.db, op);
    ExtendsGrew(w.db, Step(k, w.db, op));
    R.ClaimsUntouched(k, w.db, op);
    var v := w.(db := Step(k, w.db, op));
    CallsFrame(k, c, w, v);
    forall id | id in v.live ensures TokenOk(k, c, v.db, v.invocations, v.live[id]) {
      TokenFrame(k, c, w.db, v.db, w.invocations, w.live[id]);
    }
  }

  lemma CurrentnessPart(k: Protocol, db: Db)
    requires Inv(k, db)
    ensures CurrentnessOk(k, db.currentness)
  {
  }

  // ---- Each event ----

  lemma AuthorizeKeeps(k: Protocol, c: A.Crypto, w: World, event: Event)
    requires WorldInv(k, c, w) && event.Authorize?
    ensures WorldInv(k, c, Next(k, c, w, event))
  {
    hide Inv, Grew, TokenOk, InvocationOk, Exclusive, CheckAuthorize, RegisterChain;
    var e := event.e;
    var op := RegisterOp(e.task, e.proposal, e.decision, e.grant);
    var v := Next(k, c, w, event);
    if v != w {
      TableFrame(k, c, w, op);
      RegisteredToken(k, c, w.db, w.invocations, e, v.live[event.id]);
      StepFrame(k, c, w, v, event.id);
    }
  }

  lemma RegisteredToken(k: Protocol, c: A.Crypto, db: Db, calls: seq<Invocation>, e: Prepared, t: Token)
    requires Inv(k, db) && IsPrepared(k, c, e) && RegisterChain(k, db, e.task, e.proposal, e.decision, e.grant).Some?
    requires t.Registered? && t.e == e
    ensures TokenOk(k, c, RegisterChain(k, db, e.task, e.proposal, e.decision, e.grant).value, calls, t)
  {
    hide Inv, VerifyGrant;
    if e.grant.grantId in db.chains { ChainPart(k, db, e.grant.grantId); }
  }

  lemma ChainPart(k: Protocol, db: Db, id: Units)
    requires Inv(k, db) && id in db.chains
    ensures ChainOk(k, db.chainByHash, id, db.chains[id])
  {
    hide ChainOk, ClaimsOk, ReceiptsOk, HistoriesOk, IsLastTime, CurrentnessOk;
  }

  lemma RefreshKeeps(k: Protocol, c: A.Crypto, w: World, id: nat)
    requires WorldInv(k, c, w)
    ensures WorldInv(k, c, Next(k, c, w, Refresh(id)))
  {
    hide Inv, Grew, InvocationOk, Exclusive, PutCurrentness, IsPrepared, HasChain, Uninvoked;
    if id in w.live && w.live[id].Registered? {
      var t, v := w.live[id], Next(k, c, w, Refresh(id));
      TableFrame(k, c, w, CurrentnessOp(t.snapshot));
      assert TokenOk(k, c, w.db, w.invocations, t);
      if id in v.live { RefreshedToken(k, c, w.db, v.db, w.invocations, t, v.live[id]); }
      StepFrame(k, c, w, v, id);
    }
  }

  lemma RefreshedToken(k: Protocol, c: A.Crypto, db: Db, u: Db, calls: seq<Invocation>, t: Token, next: Token)
    requires t.Registered? && TokenOk(k, c, db, calls, t) && Grew(db, u) && next.Refreshed? && next.e == t.e
    ensures TokenOk(k, c, u, calls, next)
  {
    hide IsPrepared, Uninvoked;
  }

  lemma ClaimKeeps(k: Protocol, c: A.Crypto, w: World, id: nat)
    requires WorldInv(k, c, w)
    ensures WorldInv(k, c, Next(k, c, w, TakeClaim(id)))
  {
    hide Inv, Grew, InvocationOk, Exclusive, MayClaim, IsPrepared, HasChain, Uninvoked;
    if id in w.live && w.live[id].Refreshed? {
      var t, v := w.live[id], Next(k, c, w, TakeClaim(id));
      var q := RequestFor(t.policy, t.snapshot, t.attemptId);
      assert TokenOk(k, c, w.db, w.invocations, t);
      if Claim(k, w.db, t.e.grant, q, t.now).Some? {
        ClaimStep(k, w.db, t.e.grant, q, t.now);
        PreparedHash(k, c, t.e);
        Unclaimed(k, c, w, t.e.grantHash);
        ClaimedToken(k, c, w.db, v.db, w.invocations, t, v.live[id]);
      } else {
        GrewItself(w.db);
      }
      StepFrame(k, c, w, v, id);
    }
  }

  lemma GrewItself(db: Db)
    ensures Grew(db, db)
  {
  }

  lemma ClaimStep(k: Protocol, db: Db, g: Grant, q: ClaimRequest, now: u64)
    requires Inv(k, db) && Claim(k, db, g, q, now).Some?
    ensures var u := Claim(k, db, g, q, now).value;
            Inv(k, u) && Grew(db, u) && k.hashGrant(g) !in db.claims
            && u.claims == db.claims[k.hashGrant(g) := RowOf(q, now)]
  {
    hide Inv, MayClaim, R.Extends, Grew;
    StepKeeps(k, db, ClaimOp(g, q, now));
    assert CurrentnessOk(k, db.currentness) by { CurrentnessPart(k, db); }
    R.StepExtends(k, db, ClaimOp(g, q, now));
    ExtendsGrew(db, Claim(k, db, g, q, now).value);
  }

  lemma PreparedHash(k: Protocol, c: A.Crypto, e: Prepared)
    requires IsPrepared(k, c, e)
    ensures e.grantHash == k.hashGrant(e.grant) && e.proposalHash == k.hashProposal(e.proposal)
    ensures Bound(c, e.proposal, e.documents)
  {
    hide VerifyDecision;
  }

  /** An unclaimed grant has no holder and no invocation. */
  lemma Unclaimed(k: Protocol, c: A.Crypto, w: World, h: Digest)
    requires TokensOk(k, c, w) && CallsOk(k, c, w) && h !in w.db.claims
    ensures Uninvoked(w.invocations, h)
    ensures forall id | id in w.live :: Holder(w.live[id]) != Some(h)
  {
    hide IsPrepared, HasChain, Bound;
    forall i | 0 <= i < |w.invocations| ensures w.invocations[i].grantHash != h {
      assert InvocationOk(k, c, w.db, w.invocations[i]);
    }
    forall id | id in w.live ensures Holder(w.live[id]) != Some(h) {
      assert TokenOk(k, c, w.db, w.invocations, w.live[id]);
    }
  }

  lemma ClaimedToken(k: Protocol, c: A.Crypto, db: Db, u: Db, calls: seq<Invocation>, t: Token, next: Token)
    requires t.Refreshed? && TokenOk(k, c, db, calls, t) && Grew(db, u) && next.ClaimedEffect? && next.e == t.e
    requires Uninvoked(calls, t.e.grantHash) && next.row.marker.None?
    requires t.e.grantHash in u.claims && u.claims[t.e.grantHash] == next.row
    ensures TokenOk(k, c, u, calls, next)
  {
    hide IsPrepared, Uninvoked;
  }

  lemma BeginKeeps(k: Protocol, c: A.Crypto, w: World, event: Event)
    requires WorldInv(k, c, w) && event.Begin?
    ensures WorldInv(k, c, Next(k, c, w, event))
  {
    hide Inv, Grew, InvocationOk, MayMark, IsPrepared, HasChain, Uninvoked, CheckBegin;
    var id, v := event.id, Next(k, c, w, event);
    if id in w.live && w.live[id].ClaimedEffect? {
      var t := w.live[id];
      assert TokenOk(k, c, w.db, w.invocations, t);
      if id in v.live {
        MarkStep(k, w.db, t.e.grantHash, t.row.attemptId, event.now);
        MarkedToken(k, c, w.db, v.db, w.invocations, t, v.live[id]);
      } else {
        GrewItself(w.db);
      }
      StepFrame(k, c, w, v, id);
    }
  }

  lemma MarkStep(k: Protocol, db: Db, h: Digest, attemptId: Units, at: u64)
    requires Inv(k, db) && MarkDispatchStarted(k, db, h, attemptId, at).Some?
    ensures var u := MarkDispatchStarted(k, db, h, attemptId, at).value;
            Inv(k, u) && Grew(db, u) && h in db.claims && u.claims == db.claims[h := db.claims[h].(marker := Some(at))]
  {
    hide Inv, MayMark, R.Extends, Grew;
    StepKeeps(k, db, MarkOp(h, attemptId, at));
    assert CurrentnessOk(k, db.currentness) by { CurrentnessPart(k, db); }
    R.StepExtends(k, db, MarkOp(h, attemptId, at));
    ExtendsGrew(db, MarkDispatchStarted(k, db, h, attemptId, at).value);
  }

  lemma MarkedToken(k: Protocol, c: A.Crypto, db: Db, u: Db, calls: seq<Invocation>, t: Token, next: Token)
    requires t.ClaimedEffect? && TokenOk(k, c, db, calls, t) && Grew(db, u)
    requires next.Capability? && next.e == t.e && next.row == t.row
    requires t.e.grantHash in u.claims && u.claims[t.e.grantHash] == t.row.(marker := Some(next.dispatchedAt))
    ensures TokenOk(k, c, u, calls, next)
  {
    hide IsPrepared, Uninvoked;
  }

  lemma DispatchKeeps(k: Protocol, c: A.Crypto, w: World, id: nat)
    requires WorldInv(k, c, w)
    ensures WorldInv(k, c, Next(k, c, w, Dispatch(id)))
  {
    hide Inv, InvocationOk, IsPrepared, HasChain, TokenOk, Uninvoked;
    if id in w.live && w.live[id].Capability? {
      var t, v := w.live[id], Next(k, c, w, Dispatch(id));
      assert TokenOk(k, c, w.db, w.invocations, t);
      DispatchedCall(k, c, w.db, w.invocations, t);
      forall i | 0 <= i < |v.invocations| ensures InvocationOk(k, c, v.db, v.invocations[i]) {
        if i < |w.invocations| { assert v.invocations[i] == w.invocations[i]; }
      }
      forall other | other in v.live ensures TokenOk(k, c, v.db, v.invocations, v.live[other]) {
        if other != id { LaterCall(k, c, w.db, w.invocations, v.invocations, w.live[other], t.e.grantHash); }
      }
      assert Single(v.invocations) by { StillSingle(w.invocations, v.invocations[|w.invocations|]); }
    }
  }

  lemma StillSingle(calls: seq<Invocation>, call: Invocation)
    requires Single(calls) && Uninvoked(calls, call.grantHash)
    ensures Single(calls + [call])
  {
  }

  function CallFor(t: Token): Invocation
    requires t.Capability?
  {
    Invocation(t.e.proposalHash, t.e.grantHash, t.row.attemptId, t.dispatchedAt, EffectOf(t.e))
  }

  /** The marker is already durable when the adapter is invoked, and the effect is the committed one. */
  lemma DispatchedCall(k: Protocol, c: A.Crypto, db: Db, calls: seq<Invocation>, t: Token)
    requires t.Capability? && TokenOk(k, c, db, calls, t)
    ensures InvocationOk(k, c, db, CallFor(t)) && Uninvoked(calls, t.e.grantHash)
    ensures TokenOk(k, c, db, calls + [CallFor(t)], Handle(t.e.proposalHash, t.e.grantHash, t.row, t.dispatchedAt))
  {
    hide IsPrepared, Uninvoked, Bound;
    PreparedHash(k, c, t.e);
  }

  lemma LaterCall(
    k: Protocol, c: A.Crypto, db: Db, calls: seq<Invocation>, more: seq<Invocation>, t: Token, h: Digest)
    requires TokenOk(k, c, db, calls, t) && Holder(t) != Some(h)
    requires |more| == |calls| + 1 && more[..|calls|] == calls && more[|calls|].grantHash == h
    ensures TokenOk(k, c, db, more, t)
  {
    hide IsPrepared, HasChain;
    assert forall i | 0 <= i < |calls| :: more[i] == calls[i];
  }

  lemma CloseKeeps(k: Protocol, c: A.Crypto, w: World, id: nat, r: Receipt)
    requires WorldInv(k, c, w) && id in w.live
    ensures WorldInv(k, c, Settle(w, id, RecordReceipt(k, w.db, r), None))
  {
    hide Inv, Grew, InvocationOk, Exclusive, TokenOk, RecordReceipt;
    TableFrame(k, c, w, ReceiptOp(r));
    GrewItself(w.db);
    StepFrame(k, c, w, Settle(w, id, RecordReceipt(k, w.db, r), None), id);
  }

  lemma RecoverKeeps(k: Protocol, c: A.Crypto, w: World, id: nat, recovery: Recovery, dispatched: bool)
    requires WorldInv(k, c, w)
    ensures WorldInv(k, c, StartRecovery(k, w, id, recovery, dispatched))
  {
    hide Inv, Grew, InvocationOk, Exclusive, RecoveredReceipt;
    GrewItself(w.db);
    var v := StartRecovery(k, w, id, recovery, dispatched);
    if v != w { StepFrame(k, c, w, v, id); }
  }

  lemma CloseEventKeeps(k: Protocol, c: A.Crypto, w: World, event: Event)
    requires WorldInv(k, c, w) && (event.RecordNotDispatched? || event.RecordDispatched? || event.FinishRecovery?)
    ensures WorldInv(k, c, Next(k, c, w, event))
  {
    hide WorldInv, RecordReceipt, Settle, NotDispatchedReceipt, DispatchedReceipt, StartRecovery, Step;
    if event.id in w.live {
      var t := w.live[event.id];
      match event
      case RecordNotDispatched(id, receiptId, completedAt, observation) =>
        if t.ClaimedEffect? {
          CloseKeeps(k, c, w, id, NotDispatchedReceipt(t.e, t.row, receiptId, completedAt, observation));
        }
      case RecordDispatched(id, receiptId, completedAt, outcome, observation) =>
        if t.Handle? { CloseKeeps(k, c, w, id, DispatchedReceipt(t, receiptId, completedAt, outcome, observation)); }
      case FinishRecovery(id) =>
        if t.Recovering? { CloseKeeps(k, c, w, id, t.receipt); }
    }
  }

  lemma ElseEventKeeps(k: Protocol, c: A.Crypto, w: World, event: Event)
    requires WorldInv(k, c, w)
    requires event.Observe? || event.RecoverUnknown? || event.RecoverNotDispatched? || event.Reconcile? || event.Crash?
    ensures WorldInv(k, c, Next(k, c, w, event))
  {
    hide WorldInv, Step, StartRecovery;
    match event
    case Observe(_, s, _) => TableFrame(k, c, w, CurrentnessOp(s));
    case RecoverUnknown(id, recovery) => RecoverKeeps(k, c, w, id, recovery, true);
    case RecoverNotDispatched(id, recovery) => RecoverKeeps(k, c, w, id, recovery, false);
    case Reconcile(record) => TableFrame(k, c, w, ReconciliationOp(record));
    case Crash(lost) => DropFrame(k, c, w, lost);
  }

  lemma EventKeeps(k: Protocol, c: A.Crypto, w: World, event: Event)
    requires WorldInv(k, c, w)
    ensures WorldInv(k, c, Next(k, c, w, event))
  {
    hide *;
    match event
    case Authorize(_, _, _, _, _, _, _, _) => AuthorizeKeeps(k, c, w, event);
    case Refresh(id) => RefreshKeeps(k, c, w, id);
    case TakeClaim(id) => ClaimKeeps(k, c, w, id);
    case Begin(_, _, _, _) => BeginKeeps(k, c, w, event);
    case Dispatch(id) => DispatchKeeps(k, c, w, id);
    case RecordNotDispatched(_, _, _, _) => CloseEventKeeps(k, c, w, event);
    case RecordDispatched(_, _, _, _, _) => CloseEventKeeps(k, c, w, event);
    case FinishRecovery(_) => CloseEventKeeps(k, c, w, event);
    case _ => ElseEventKeeps(k, c, w, event);
  }

  lemma {:induction false} EventsKeep(k: Protocol, c: A.Crypto, w: World, events: seq<Event>)
    requires WorldInv(k, c, w)
    ensures WorldInv(k, c, RunEvents(k, c, w, events))
    decreases |events|
  {
    hide WorldInv, Next;
    if events != [] {
      EventKeeps(k, c, w, events[0]);
      EventsKeep(k, c, Next(k, c, w, events[0]), events[1..]);
    }
  }

  lemma StartOk(k: Protocol, c: A.Crypto)
    ensures WorldInv(k, c, Start())
  {
    hide Inv;
    EmptyOk(k);
  }
}
