/** Where the tokens and the receipts of a reachable world come from. */
module Provenance {
  import opened Json
  import opened Records
  import opened Verifier
  import opened Lawful
  import opened Sqlite
  import opened SqliteInvariant
  import opened Executor
  import opened ExecutorRuns
  import opened ExecutorTheorems
  import opened DispatchExactly
  import SC = SqliteContracts
  import R = SqliteRuns
  import A = Authority

  /** The world in which an event of a run happens. */
  ghost function Before(k: Protocol, c: A.Crypto, events: seq<Event>, n: nat): World
    requires n <= |events|
  {
    RunEvents(k, c, Start(), events[..n])
  }

  lemma BeforeSnoc(k: Protocol, c: A.Crypto, events: seq<Event>, event: Event)
    ensures RunEvents(k, c, Start(), events + [event]) == Next(k, c, RunEvents(k, c, Start(), events), event)
    ensures forall n | 0 <= n <= |events| :: Before(k, c, events + [event], n) == Before(k, c, events, n)
  {
    hide RunEvents, Next;
    RunSnoc(k, c, Start(), events, event);
    assert forall n | 0 <= n <= |events| :: (events + [event])[..n] == events[..n];
  }

  // ---- Invocations ----

  /** Whatever is invoked, the stored chain it is invoked for is lawful: its
      decision allows, its windows are nested and its grant is for one use. */
  lemma InvocationsLawful(k: Protocol, c: A.Crypto, events: seq<Event>, i: nat)
    ensures var w := RunEvents(k, c, Start(), events);
            i < |w.invocations| ==>
              var h := w.invocations[i].grantHash;
              h in w.db.chainByHash && w.db.chainByHash[h] in w.db.chains
              && (var row := w.db.chains[w.db.chainByHash[h]];
                  row.decision.outcome == Allow && h == k.hashGrant(row.grant)
                  && IsLawful(k, Bundle(row.task, row.proposal, row.decision, Some(row.grant), None, [])))
  {
    hide RunEvents, Inv, TokensOk, Exclusive, Single, LawfulTask, LawfulProposal, VerifyGrant;
    ReachedOk(k, c, events);
    var w := RunEvents(k, c, Start(), events);
    if i < |w.invocations| {
      var h := w.invocations[i].grantHash;
      assert InvocationOk(k, c, w.db, w.invocations[i]);
      SC.ChainByHash(k, w.db, h);
      var row := w.db.chains[w.db.chainByHash[h]];
      SC.StoredChain(k, w.db, w.db.chainByHash[h]);
      GrantExactly(k, row.task, row.proposal, row.decision, row.grant);
    }
  }

  // ---- Tokens ----

  /** The adapter was invoked for this handle. */
  ghost predicate WasInvoked(calls: seq<Invocation>, t: Token)
    requires t.Handle?
  {
    exists i | 0 <= i < |calls| ::
      calls[i].grantHash == t.grantHash && calls[i].proposalHash == t.proposalHash
      && calls[i].attemptId == t.row.attemptId && calls[i].dispatchedAt == t.dispatchedAt
  }

  /** A recovery reports what its marker tells: a dispatch of unknown outcome, or none. */
  predicate IsRecovered(r: Receipt) {
    r.version == 1 && r.outcome == if r.dispatchedAt.Some? then Unknown else NotDispatched
  }

  ghost predicate TokenHonest(calls: seq<Invocation>, t: Token) {
    (t.Handle? ==> WasInvoked(calls, t)) && (t.Recovering? ==> IsRecovered(t.receipt))
  }

  ghost predicate Honest(w: World) { forall id | id in w.live :: TokenHonest(w.invocations, w.live[id]) }

  /** The token is as it was, or is what its event makes: only `begin_dispatch`
      makes a capability, only a dispatch a handle, only a recovery its own. */
  ghost predicate IsNewToken(k: Protocol, c: A.Crypto, w: World, event: Event, id: nat)
    requires id in Next(k, c, w, event).live
  {
    var v := Next(k, c, w, event);
    var t := v.live[id];
    (id in w.live && w.live[id] == t)
    || (TokenHonest(v.invocations, t) && (t.Capability? ==> IsBegun(k, c, w, event, id, t)))
  }

  ghost predicate IsBegun(k: Protocol, c: A.Crypto, w: World, event: Event, id: nat, t: Token)
    requires t.Capability?
  {
    event.Begin? && event.id == id && event.now == t.dispatchedAt
    && id in w.live && w.live[id].ClaimedEffect? && w.live[id].e == t.e && w.live[id].row == t.row
    && CheckBegin(k, c, event.policy, t.e, w.live[id].evidence, w.live[id].signed, event.authority, event.now)
  }

  lemma AuthorizeToken(k: Protocol, c: A.Crypto, w: World, event: Event, id: nat)
    requires event.Authorize? && id in Next(k, c, w, event).live
    ensures IsNewToken(k, c, w, event, id)
  {
    hide IsPrepared, CheckAuthorize, RegisterChain, StartRecovery, WasInvoked;
  }

  lemma AdvanceToken(k: Protocol, c: A.Crypto, w: World, event: Event, id: nat)
    requires (event.Refresh? || event.TakeClaim?) && id in Next(k, c, w, event).live
    ensures IsNewToken(k, c, w, event, id)
  {
    hide PutCurrentness, Claim, StartRecovery, WasInvoked, RequestFor, RowOf;
    hide IsBegun, IsRecovered, Step, IsFresh, IsPrepared, CheckAuthorize, CheckBegin, RegisterChain, MarkDispatchStarted;
  }

  lemma BeginToken(k: Protocol, c: A.Crypto, w: World, event: Event, id: nat)
    requires event.Begin? && id in Next(k, c, w, event).live
    ensures IsNewToken(k, c, w, event, id)
  {
    hide CheckBegin, MarkDispatchStarted, StartRecovery, WasInvoked;
  }

  lemma DispatchToken(k: Protocol, c: A.Crypto, w: World, event: Event, id: nat)
    requires event.Dispatch? && id in Next(k, c, w, event).live
    ensures IsNewToken(k, c, w, event, id)
  {
    hide StartRecovery;
    var v := Next(k, c, w, event);
    if event.id == id && id in w.live && w.live[id].Capability? {
      assert v.invocations[|w.invocations|].grantHash == w.live[id].e.grantHash;
    }
  }

  lemma RecordToken(k: Protocol, c: A.Crypto, w: World, event: Event, id: nat)
    requires event.RecordNotDispatched? || event.RecordDispatched? || event.FinishRecovery?
    requires id in Next(k, c, w, event).live
    ensures IsNewToken(k, c, w, event, id)
  {
    hide RecordReceipt, NotDispatchedReceipt, DispatchedReceipt, StartRecovery, WasInvoked, IsRecovered, Step, IsFresh;
    hide IsPrepared, CheckAuthorize, CheckBegin, RegisterChain, PutCurrentness, Claim, MarkDispatchStarted;
  }

  lemma RecoverToken(k: Protocol, c: A.Crypto, w: World, event: Event, id: nat)
    requires (event.RecoverUnknown? || event.RecoverNotDispatched?) && id in Next(k, c, w, event).live
    ensures IsNewToken(k, c, w, event, id)
  {
    hide ReadLifecycle, Settle, WasInvoked;
  }

  lemma TableToken(k: Protocol, c: A.Crypto, w: World, event: Event, id: nat)
    requires (event.Observe? || event.Reconcile?) && id in Next(k, c, w, event).live
    ensures IsNewToken(k, c, w, event, id)
  {
    hide Step, StartRecovery, Settle, TokenHonest, IsFresh, IsBegun;
  }

  lemma CrashToken(k: Protocol, c: A.Crypto, w: World, event: Event, id: nat)
    requires event.Crash? && id in Next(k, c, w, event).live
    ensures IsNewToken(k, c, w, event, id)
  {
    hide Step, StartRecovery, Settle, TokenHonest, IsFresh, IsBegun;
  }

  lemma NewToken(k: Protocol, c: A.Crypto, w: World, event: Event, id: nat)
    requires id in Next(k, c, w, event).live
    ensures IsNewToken(k, c, w, event, id)
  {
    hide *;
    match event
    case Authorize(_, _, _, _, _, _, _, _) => AuthorizeToken(k, c, w, event, id);
    case Refresh(_) => AdvanceToken(k, c, w, event, id);
    case TakeClaim(_) => AdvanceToken(k, c, w, event, id);
    case Begin(_, _, _, _) => BeginToken(k, c, w, event, id);
    case Dispatch(_) => DispatchToken(k, c, w, event, id);
    case RecordNotDispatched(_, _, _, _) => RecordToken(k, c, w, event, id);
    case RecordDispatched(_, _, _, _, _) => RecordToken(k, c, w, event, id);
    case FinishRecovery(_) => RecordToken(k, c, w, event, id);
    case RecoverUnknown(_, _) => RecoverToken(k, c, w, event, id);
    case RecoverNotDispatched(_, _) => RecoverToken(k, c, w, event, id);
    case Crash(_) => CrashToken(k, c, w, event, id);
    case _ => TableToken(k, c, w, event, id);
  }

  // ---- Capabilities ----

  /** Event `n` began this dispatch, for a claim token of the same effect, row and
      assertion, under a policy and a key snapshot that its assertion meets. */
  ghost predicate BeganBy(k: Protocol, c: A.Crypto, events: seq<Event>, n: nat, id: nat, t: Token) {
    n < |events| && t.Capability? && events[n].Begin? && events[n].id == id && events[n].now == t.dispatchedAt
    && (var u := Before(k, c, events, n);
        id in u.live && u.live[id].ClaimedEffect? && u.live[id].e == t.e && u.live[id].row == t.row
        && (var found := c.open(u.live[id].signed, events[n].authority.publicKey);
            found.Some?
            && Endorses(k, c, events[n].policy, t.e, events[n].authority, t.dispatchedAt, found.value)
            && u.live[id].evidence == Noted(c, found.value, events[n].authority)))
  }

  /** In every reachable world each capability was begun under an assertion that
      names the role and audience of the policy, the issuer and key of the
      snapshot and the epochs of the task. */
  lemma {:induction false} CapabilityOrigin(k: Protocol, c: A.Crypto, events: seq<Event>, id: nat)
    ensures var w := RunEvents(k, c, Start(), events);
            id in w.live && w.live[id].Capability? ==> exists n :: BeganBy(k, c, events, n, id, w.live[id])
    decreases |events|
  {
    hide RunEvents, Next, Endorses, CheckBegin, A.LawfulKey;
    if events == [] {
      assert RunEvents(k, c, Start(), events) == Start() by { StartsEmpty(k, c); }
    } else {
      var last := |events| - 1;
      var before, event := events[..last], events[last];
      assert events == before + [event];
      BeforeSnoc(k, c, before, event);
      var w, v := RunEvents(k, c, Start(), before), RunEvents(k, c, Start(), events);
      CapabilityOrigin(k, c, before, id);
      if id in v.live && v.live[id].Capability? {
        var t := v.live[id];
        NewToken(k, c, w, event, id);
        if id in w.live && w.live[id] == t {
          var n :| BeganBy(k, c, before, n, id, t);
          assert BeganBy(k, c, events, n, id, t);
        } else {
          var u := w.live[id];
          assert before[..last] == before && Before(k, c, events, last) == w;
          BeginExactly(k, c, event.policy, t.e, u.evidence, u.signed, event.authority, event.now);
          assert BeganBy(k, c, events, last, id, t);
        }
      }
    }
  }

  lemma StartsEmpty(k: Protocol, c: A.Crypto)
    ensures RunEvents(k, c, Start(), []) == Start()
  {
  }

  // ---- Handles and recoveries ----

  lemma HonestNext(k: Protocol, c: A.Crypto, w: World, event: Event)
    requires Honest(w)
    ensures Honest(Next(k, c, w, event))
  {
    hide WasInvoked, Next, IsRecovered;
    var v := Next(k, c, w, event);
    Invokes(k, c, w, event);
    forall id | id in v.live ensures TokenHonest(v.invocations, v.live[id]) {
      NewToken(k, c, w, event, id);
      if id in w.live && w.live[id] == v.live[id] {
        if v.live[id].Handle? { StillInvoked(w.invocations, v.invocations, v.live[id]); }
      }
    }
  }

  lemma StillInvoked(calls: seq<Invocation>, more: seq<Invocation>, t: Token)
    requires t.Handle? && WasInvoked(calls, t) && |calls| <= |more| && more[..|calls|] == calls
    ensures WasInvoked(more, t)
  {
    assert forall i | 0 <= i < |calls| :: more[i] == calls[i];
  }

  lemma {:induction false} HonestRun(k: Protocol, c: A.Crypto, w: World, events: seq<Event>)
    requires Honest(w)
    ensures Honest(RunEvents(k, c, w, events))
    decreases |events|
  {
    hide Honest, Next;
    if events != [] {
      HonestNext(k, c, w, events[0]);
      HonestRun(k, c, Next(k, c, w, events[0]), events[1..]);
    }
  }

  // ---- Receipts ----

  /** The executor that held the claim said that it had not dispatched. */
  ghost predicate SaidUndispatched(u: World, event: Event, r: Receipt) {
    event.RecordNotDispatched? && event.id in u.live && u.live[event.id].ClaimedEffect?
    && var t := u.live[event.id];
       r == Receipt(
         version := 1, receiptId := event.receiptId, proposalHash := t.e.proposalHash, grantHash := t.e.grantHash,
         attemptId := t.row.attemptId, claimedAt := t.row.claimedAt, dispatchedAt := None,
         completedAt := event.completedAt, outcome := NotDispatched, observationDigest := event.observation)
  }

  /** What the caller observed is what the receipt says. */
  predicate SameOutcome(said: DispatchedOutcome, stored: ReceiptOutcome) {
    (said == DidSucceed <==> stored == Succeeded) && (said == DidFail <==> stored == Failed)
    && (said == IsUnknown <==> stored == Unknown)
  }

  /** The holder of a handle that the adapter was invoked for said how it went. */
  ghost predicate SaidDispatched(u: World, event: Event, r: Receipt) {
    event.RecordDispatched? && event.id in u.live && u.live[event.id].Handle?
    && WasInvoked(u.invocations, u.live[event.id])
    && var t := u.live[event.id];
       SameOutcome(event.outcome, r.outcome)
       && r == Receipt(
         version := 1, receiptId := event.receiptId, proposalHash := t.proposalHash, grantHash := t.grantHash,
         attemptId := t.row.attemptId, claimedAt := t.row.claimedAt, dispatchedAt := Some(t.dispatchedAt),
         completedAt := event.completedAt, outcome := r.outcome, observationDigest := event.observation)
  }

  /** A recovery found the claim with or without its marker. */
  ghost predicate SaidRecovered(u: World, event: Event, r: Receipt) {
    event.FinishRecovery? && event.id in u.live && u.live[event.id] == Recovering(r) && IsRecovered(r)
  }

  ghost predicate RecordedBy(k: Protocol, c: A.Crypto, events: seq<Event>, n: nat, r: Receipt) {
    n < |events|
    && (var u := Before(k, c, events, n);
        SaidUndispatched(u, events[n], r) || SaidDispatched(u, events[n], r) || SaidRecovered(u, events[n], r))
  }

  lemma NewReceiptSaid(k: Protocol, c: A.Crypto, w: World, event: Event, h: Digest)
    requires Honest(w) && h !in w.db.receipts && h in Next(k, c, w, event).db.receipts
    ensures var r := Next(k, c, w, event).db.receipts[h].receipt;
            SaidUndispatched(w, event, r) || SaidDispatched(w, event, r) || SaidRecovered(w, event, r)
  {
    hide Next, Step, WasInvoked, MayRecord, RecordReceipt, IsPrepared, CheckAuthorize, CheckBegin, RequestFor;
    var op := OpOf(k, c, w, event);
    NextDb(k, c, w, event);
    if !op.value.ReceiptOp? { R.ReceiptsUntouched(k, w.db, op.value); }
    RecordedAtMost(k, w.db, op.value.receipt);
    assert TokenHonest(w.invocations, w.live[event.id]);
  }

  /** Every receipt of a reachable world was said by an event of the run. */
  lemma {:induction false} ReceiptOrigin(k: Protocol, c: A.Crypto, events: seq<Event>, h: Digest)
    ensures var w := RunEvents(k, c, Start(), events);
            h in w.db.receipts ==> exists n :: RecordedBy(k, c, events, n, w.db.receipts[h].receipt)
    decreases |events|
  {
    hide RunEvents, Next, SaidUndispatched, SaidDispatched, SaidRecovered, R.Extends, WorldInv, Honest;
    if events == [] {
      assert RunEvents(k, c, Start(), events) == Start() by { StartsEmpty(k, c); }
    } else {
      var last := |events| - 1;
      var before, event := events[..last], events[last];
      assert events == before + [event];
      BeforeSnoc(k, c, before, event);
      var w, v := RunEvents(k, c, Start(), before), RunEvents(k, c, Start(), events);
      ReceiptOrigin(k, c, before, h);
      ReachedOk(k, c, before);
      NextKeeps(k, c, w, event, h);
      assert Before(k, c, events, last) == w;
      if h in w.db.receipts {
        var n :| RecordedBy(k, c, before, n, w.db.receipts[h].receipt);
        assert RecordedBy(k, c, events, n, w.db.receipts[h].receipt);
      } else if h in v.db.receipts {
        assert Honest(w) by { HonestStart(); HonestRun(k, c, Start(), before); }
        NewReceiptSaid(k, c, w, event, h);
        assert RecordedBy(k, c, events, last, v.db.receipts[h].receipt);
      }
    }
  }

  lemma HonestStart()
    ensures Honest(Start())
  {
  }

  lemma NextKeeps(k: Protocol, c: A.Crypto, w: World, event: Event, h: Digest)
    requires WorldInv(k, c, w)
    ensures h in w.db.receipts ==>
              h in Next(k, c, w, event).db.receipts && Next(k, c, w, event).db.receipts[h] == w.db.receipts[h]
  {
    hide Inv, TokensOk, CallsOk, Exclusive, Single, Next, R.Extends;
    NextExtends(k, c, w, event);
    if h in w.db.receipts { KeptRow(w.db, Next(k, c, w, event).db, h); }
  }

  /** A receipt that reports success or failure was said so, as such, by the
      holder of the handle of an invocation. */
  lemma OutcomesAreObserved(k: Protocol, c: A.Crypto, events: seq<Event>, h: Digest)
    ensures var w := RunEvents(k, c, Start(), events);
            h in w.db.receipts ==>
              var r := w.db.receipts[h].receipt;
              (r.outcome == Succeeded || r.outcome == Failed ==>
                 exists n: nat | n < |events| ::
                   SaidDispatched(Before(k, c, events, n), events[n], r)
                   && events[n].outcome == if r.outcome == Succeeded then DidSucceed else DidFail)
              && (r.outcome == NotDispatched ==> r.dispatchedAt.None?)
  {
    hide RunEvents, WasInvoked, Before;
    ReceiptOrigin(k, c, events, h);
    var w := RunEvents(k, c, Start(), events);
    if h in w.db.receipts {
      var r := w.db.receipts[h].receipt;
      var n: nat :| RecordedBy(k, c, events, n, r);
      if r.outcome == Succeeded || r.outcome == Failed {
        assert SaidDispatched(Before(k, c, events, n), events[n], r);
      }
    }
  }
}
