/** Why recovery must wait: closing an attempt as `not_dispatched` while its
    claim token is still live lets that token contradict the receipt. */
module PrematureRecovery {
  import opened Unicode
  import opened Json
  import opened Records
  import opened Verifier
  import opened Sqlite
  import opened Executor
  import opened ExecutorRuns
  import A = Authority

  /** One executor's claim and dispatch at `now`, and another's hasty recovery of it. */
  datatype Scene = Scene(
    policy: Policy, e: Prepared, signed: Bytes, authority: A.AuthoritySnapshot, snapshot: Snapshot,
    attemptId: Units, now: u64, receiptId: Units, observation: Digest)
  {
    function Row(): ClaimRow { RowOf(RequestFor(policy, snapshot, attemptId), now) }

    function Recovered(): Receipt {
      Receipt(1, receiptId, e.proposalHash, e.grantHash, attemptId, now, None, now, NotDispatched, observation)
    }

    /** Authorized and claimed by one executor; recovered by another before the
        first has marked or crashed; then marked and dispatched by the first. */
    function Events(): seq<Event> {
      [Authorize(0, policy, e, signed, authority, snapshot, attemptId, now), Refresh(0), TakeClaim(0),
       RecoverNotDispatched(1, Recovery(receiptId, e.proposalHash, e.grantHash, attemptId, now, observation)),
       FinishRecovery(1), Begin(0, policy, authority, now), Dispatch(0)]
    }
  }

  /** The effect can be authorized, claimed and dispatched at that time. */
  ghost predicate Dispatchable(k: Protocol, c: A.Crypto, x: Scene) {
    IsPrepared(k, c, x.e) && CheckAuthorize(k, c, x.policy, x.e, x.signed, x.authority, x.snapshot, x.now).Some?
    && ValidSnapshot(k, x.snapshot) && Matches(x.snapshot, ChainRowOf(k, x.e))
    && Sqlite.ValidRequest(k, RequestFor(x.policy, x.snapshot, x.attemptId)) && SafeTime(x.now)
    && x.e.grant.notBefore <= x.now < x.e.grant.expiresAt && k.Identifier(x.receiptId)
  }

  // ---- The databases along the way ----

  function Chained(k: Protocol, x: Scene): Db {
    EmptyDb().(chains := map[x.e.grant.grantId := ChainRowOf(k, x.e)],
               chainByHash := map[x.e.grantHash := x.e.grant.grantId])
  }

  function Observed(k: Protocol, x: Scene): Db { Chained(k, x).(currentness := map[x.snapshot.key := x.snapshot]) }

  function Taken(k: Protocol, x: Scene): Db {
    Observed(k, x).(lastTime := Some(x.now), claims := map[x.e.grantHash := x.Row()])
  }

  function Closed(k: Protocol, x: Scene): Db {
    Taken(k, x).(receipts := map[x.e.grantHash := ReceiptRow(k.hashReceipt(x.Recovered()), x.Recovered())],
                 receiptByHash := map[k.hashReceipt(x.Recovered()) := x.e.grantHash])
  }

  function Marked(k: Protocol, x: Scene): Db {
    Closed(k, x).(claims := map[x.e.grantHash := x.Row().(marker := Some(x.now))])
  }

  lemma ChainStep(k: Protocol, c: A.Crypto, x: Scene)
    requires IsPrepared(k, c, x.e)
    ensures RegisterChain(k, EmptyDb(), x.e.task, x.e.proposal, x.e.decision, x.e.grant) == Some(Chained(k, x))
    ensures Intact(k, ChainRowOf(k, x.e))
  {
    hide VerifyDecision;
  }

  lemma ObserveStep(k: Protocol, x: Scene)
    requires ValidSnapshot(k, x.snapshot)
    ensures PutCurrentness(k, Chained(k, x), x.snapshot) == Some(Observed(k, x))
  {
  }

  lemma TakeStep(k: Protocol, c: A.Crypto, x: Scene)
    requires Dispatchable(k, c, x) && Intact(k, ChainRowOf(k, x.e))
    ensures Claim(k, Observed(k, x), x.e.grant, RequestFor(x.policy, x.snapshot, x.attemptId), x.now)
            == Some(Taken(k, x))
  {
    hide Intact, Matches, VerifyDecision;
    PreparedHash(k, c, x.e);
  }

  lemma ReadStep(k: Protocol, x: Scene)
    requires Intact(k, ChainRowOf(k, x.e))
    ensures ReadLifecycle(k, Taken(k, x), x.e.grantHash) == Some(Lifecycle(Some(x.Row()), None, []))
  {
    hide Intact;
  }

  lemma CloseStep(k: Protocol, c: A.Crypto, x: Scene)
    requires Dispatchable(k, c, x) && Intact(k, ChainRowOf(k, x.e))
    ensures RecordReceipt(k, Taken(k, x), x.Recovered()) == Some(Closed(k, x))
  {
    hide VerifyDecision, Matches, CheckAuthorize;
  }

  lemma MarkStep(k: Protocol, c: A.Crypto, x: Scene)
    requires Dispatchable(k, c, x) && Intact(k, ChainRowOf(k, x.e))
    ensures MarkDispatchStarted(k, Closed(k, x), x.e.grantHash, x.attemptId, x.now) == Some(Marked(k, x))
  {
    hide Intact, Matches, IsPrepared;
    var db, h := Closed(k, x), x.e.grantHash;
    assert MayMark(k, db, h, db.claims[h], x.now);
    assert db.claims[h := x.Row().(marker := Some(x.now))] == Marked(k, x).claims;
  }

  lemma LostAtEnd(k: Protocol, x: Scene)
    ensures ReadLifecycle(k, Marked(k, x), x.e.grantHash).None?
  {
    hide Intact;
  }

  // ---- The run ----

  function EvidenceIn(k: Protocol, c: A.Crypto, x: Scene): Evidence
    requires CheckAuthorize(k, c, x.policy, x.e, x.signed, x.authority, x.snapshot, x.now).Some?
  {
    CheckAuthorize(k, c, x.policy, x.e, x.signed, x.authority, x.snapshot, x.now).value
  }

  lemma BeginAsAuthorized(k: Protocol, c: A.Crypto, x: Scene)
    requires CheckAuthorize(k, c, x.policy, x.e, x.signed, x.authority, x.snapshot, x.now).Some?
    ensures CheckBegin(k, c, x.policy, x.e, EvidenceIn(k, c, x), x.signed, x.authority, x.now)
  {
    hide A.VerifyAuthority;
  }

  lemma RunCons(k: Protocol, c: A.Crypto, w: World, event: Event, rest: seq<Event>)
    ensures RunEvents(k, c, w, [event] + rest) == RunEvents(k, c, Next(k, c, w, event), rest)
  {
    hide Next;
    assert ([event] + rest)[1..] == rest;
  }

  /** The claim is taken, and the other executor has read that no marker exists. */
  ghost function Midway(k: Protocol, c: A.Crypto, x: Scene): World
    requires Dispatchable(k, c, x)
  {
    World(Taken(k, x),
          map[0 := ClaimedEffect(x.e, x.Row(), EvidenceIn(k, c, x), x.signed), 1 := Recovering(x.Recovered())],
          [])
  }

  ghost function AfterRegister(k: Protocol, c: A.Crypto, x: Scene): World
    requires Dispatchable(k, c, x)
  {
    World(Chained(k, x),
          map[0 := Registered(x.e, x.policy, EvidenceIn(k, c, x), x.signed, x.snapshot, x.attemptId, x.now)], [])
  }

  ghost function AfterRefresh(k: Protocol, c: A.Crypto, x: Scene): World
    requires Dispatchable(k, c, x)
  {
    World(Observed(k, x),
          map[0 := Refreshed(x.e, x.policy, EvidenceIn(k, c, x), x.signed, x.snapshot, x.attemptId, x.now)], [])
  }

  ghost function AfterClaim(k: Protocol, c: A.Crypto, x: Scene): World
    requires Dispatchable(k, c, x)
  {
    World(Taken(k, x), map[0 := ClaimedEffect(x.e, x.Row(), EvidenceIn(k, c, x), x.signed)], [])
  }

  lemma AuthorizeEvent(k: Protocol, c: A.Crypto, x: Scene)
    requires Dispatchable(k, c, x)
    ensures Next(k, c, Start(), x.Events()[0]) == AfterRegister(k, c, x)
  {
    hide IsPrepared, CheckAuthorize, RegisterChain, Matches, Chained, ValidSnapshot;
    ChainStep(k, c, x);
  }

  lemma RefreshEvent(k: Protocol, c: A.Crypto, x: Scene)
    requires Dispatchable(k, c, x)
    ensures Next(k, c, AfterRegister(k, c, x), Refresh(0)) == AfterRefresh(k, c, x)
  {
    hide IsPrepared, CheckAuthorize, PutCurrentness, Matches, Chained, Observed, ValidSnapshot;
    ObserveStep(k, x);
  }

  lemma TakeEvent(k: Protocol, c: A.Crypto, x: Scene)
    requires Dispatchable(k, c, x)
    ensures Next(k, c, AfterRefresh(k, c, x), TakeClaim(0)) == AfterClaim(k, c, x)
  {
    hide IsPrepared, CheckAuthorize, Claim, Matches, Observed, Taken, ValidSnapshot, Intact;
    ChainStep(k, c, x);
    TakeStep(k, c, x);
  }

  lemma RecoverEvent(k: Protocol, c: A.Crypto, x: Scene)
    requires Dispatchable(k, c, x)
    ensures Next(k, c, AfterClaim(k, c, x), x.Events()[3]) == Midway(k, c, x)
  {
    hide IsPrepared, CheckAuthorize, ReadLifecycle, Matches, Taken, ValidSnapshot, Intact;
    ChainStep(k, c, x);
    ReadStep(k, x);
  }

  lemma ToMidway(k: Protocol, c: A.Crypto, x: Scene)
    requires Dispatchable(k, c, x)
    ensures RunEvents(k, c, Start(), x.Events()[..4]) == Midway(k, c, x)
  {
    hide RunEvents, Dispatchable, Next, AfterRegister, AfterRefresh, AfterClaim, Midway;
    AuthorizeEvent(k, c, x);
    RefreshEvent(k, c, x);
    TakeEvent(k, c, x);
    RecoverEvent(k, c, x);
    var es := x.Events();
    FourSteps(k, c, Start(), AfterRegister(k, c, x), AfterRefresh(k, c, x), AfterClaim(k, c, x),
              es[0], es[1], es[2], es[3]);
    assert es[..4] == [es[0], es[1], es[2], es[3]];
  }

  lemma FourSteps(
    k: Protocol, c: A.Crypto, w: World, w1: World, w2: World, w3: World, a: Event, b: Event, d: Event, e: Event)
    requires Next(k, c, w, a) == w1 && Next(k, c, w1, b) == w2 && Next(k, c, w2, d) == w3
    ensures RunEvents(k, c, w, [a, b, d, e]) == Next(k, c, w3, e)
  {
    hide RunEvents, Next;
    assert [a, b, d, e] == [a] + [b, d, e] && [b, d, e] == [b] + [d, e] && [d, e] == [d] + [e];
    RunCons(k, c, w, a, [b, d, e]);
    RunCons(k, c, w1, b, [d, e]);
    RunCons(k, c, w2, d, [e]);
    assert [e] == [e] + [];
    RunCons(k, c, w3, e, []);
    RunNone(k, c, Next(k, c, w3, e));
  }

  lemma RunNone(k: Protocol, c: A.Crypto, w: World)
    ensures RunEvents(k, c, w, []) == w
  {
  }

  lemma {:induction false} RunConcat(k: Protocol, c: A.Crypto, w: World, a: seq<Event>, b: seq<Event>)
    ensures RunEvents(k, c, w, a + b) == RunEvents(k, c, RunEvents(k, c, w, a), b)
    decreases |a|
  {
    hide Next;
    if a == [] {
      assert a + b == b;
    } else {
      assert (a + b)[0] == a[0] && (a + b)[1..] == a[1..] + b;
      RunConcat(k, c, Next(k, c, w, a[0]), a[1..], b);
    }
  }

  ghost function Recorded(k: Protocol, c: A.Crypto, x: Scene): World
    requires Dispatchable(k, c, x)
  {
    World(Closed(k, x), map[0 := ClaimedEffect(x.e, x.Row(), EvidenceIn(k, c, x), x.signed)], [])
  }

  lemma FinishEvent(k: Protocol, c: A.Crypto, x: Scene)
    requires Dispatchable(k, c, x)
    ensures Next(k, c, Midway(k, c, x), FinishRecovery(1)) == Recorded(k, c, x)
  {
    hide IsPrepared, CheckAuthorize, RecordReceipt, Matches, Taken, Closed, Intact, ValidSnapshot;
    ChainStep(k, c, x);
    CloseStep(k, c, x);
    assert Recorded(k, c, x).live == Without(Midway(k, c, x).live, 1);
  }

  lemma BeginEvent(k: Protocol, c: A.Crypto, x: Scene)
    requires Dispatchable(k, c, x)
    ensures Next(k, c, Recorded(k, c, x), Begin(0, x.policy, x.authority, x.now))
         == World(Marked(k, x), map[0 := Capability(x.e, x.Row(), x.now)], [])
  {
    hide IsPrepared, CheckAuthorize, CheckBegin, MarkDispatchStarted, Matches, Closed, Marked, Intact, ValidSnapshot;
    ChainStep(k, c, x);
    MarkStep(k, c, x);
    BeginAsAuthorized(k, c, x);
    var t := ClaimedEffect(x.e, x.Row(), EvidenceIn(k, c, x), x.signed);
    assert map[0 := t][0 := Capability(x.e, x.Row(), x.now)] == map[0 := Capability(x.e, x.Row(), x.now)];
  }

  lemma FromMidway(k: Protocol, c: A.Crypto, x: Scene)
    requires Dispatchable(k, c, x)
    ensures var w := RunEvents(k, c, Midway(k, c, x), x.Events()[4..]);
            w.db == Marked(k, x) && |w.invocations| == 1 && w.invocations[0].grantHash == x.e.grantHash
  {
    hide RunEvents, Dispatchable, Midway, Recorded, Marked, Next;
    FinishEvent(k, c, x);
    BeginEvent(k, c, x);
    var es := x.Events();
    var w6 := World(Marked(k, x), map[0 := Capability(x.e, x.Row(), x.now)], []);
    assert es[4..] == [es[4]] + ([es[5]] + ([es[6]] + []));
    RunCons(k, c, Midway(k, c, x), es[4], [es[5]] + ([es[6]] + []));
    RunCons(k, c, Recorded(k, c, x), es[5], [es[6]] + []);
    RunCons(k, c, w6, es[6], []);
    RunNone(k, c, Next(k, c, w6, es[6]));
    DispatchEvent(k, c, x, w6);
  }

  lemma DispatchEvent(k: Protocol, c: A.Crypto, x: Scene, w: World)
    requires w.live == map[0 := Capability(x.e, x.Row(), x.now)] && w.invocations == []
    ensures var v := Next(k, c, w, Dispatch(0));
            v.db == w.db && |v.invocations| == 1 && v.invocations[0].grantHash == x.e.grantHash
  {
  }

  /** For every effect that can be dispatched at all, premature recovery leads to
      an invocation beside a durable `not_dispatched` receipt, and to a lifecycle
      that can no longer be read. */
  lemma PrematureRecoveryContradicts(k: Protocol, c: A.Crypto, x: Scene)
    requires Dispatchable(k, c, x)
    ensures var w := RunEvents(k, c, Start(), x.Events());
            |w.invocations| == 1 && w.invocations[0].grantHash == x.e.grantHash
            && x.e.grantHash in w.db.receipts && w.db.receipts[x.e.grantHash].receipt.outcome.NotDispatched?
            && ReadLifecycle(k, w.db, x.e.grantHash).None?
  {
    hide RunEvents, Dispatchable, ReadLifecycle, Midway;
    ToMidway(k, c, x);
    FromMidway(k, c, x);
    LostAtEnd(k, x);
    assert x.Events() == x.Events()[..4] + x.Events()[4..];
    RunConcat(k, c, Start(), x.Events()[..4], x.Events()[4..]);
  }

  // ---- One such effect ----

  /** Every hash is the same, and texts, tokens and nonces are of the lengths the protocol allows. */
  function PlainProtocol(): Protocol {
    Protocol(_ => 1, _ => 1, _ => 1, _ => 1, _ => 1, _ => 1,
             (s, limit) => 0 < |s| <= limit, s => 0 < |s| <= 256, s => 22 <= |s| <= 128)
  }

  /** The one name used, `x`: a text and a token. */
  function X(): Units { [0x78] }

  function PlainNonce(): Units { seq(22, _ => 0x78) }

  function PlainStatement(): A.Statement {
    A.Statement(1, A.AuthorityProfile(), X(), X(), X(), X(), X(), CoreProfile(), 1, A.ExecutionGrant, 1,
                0, 0, 10, 0, 0)
  }

  /** Every signed document asserts the one grant. */
  function PlainCrypto(): A.Crypto { A.Crypto((_, _) => Some(PlainStatement()), _ => true, _ => 1) }

  function PlainEffect(): Prepared {
    Prepared(
      Task(1, X(), X(), 1, 1, 1, 0, 0, 0, 10), Proposal(1, X(), 1, X(), X(), X(), 1, 1, 1, 1, 0, 10),
      Decision(1, X(), 1, [1], Allow, [X()], 0, 10), Grant(1, X(), 1, 1, X(), 0, 10, 1, PlainNonce()),
      Documents([], [], [], []), 1, 1)
  }

  function PlainScene(): Scene {
    Scene(Policy(X(), X(), 10, 10), PlainEffect(), [],
          A.AuthoritySnapshot(X(), X(), [], {X()}, {X()}, 0, 0, 0, 10, None, 0),
          Snapshot(X(), 1, 0, 0, 1, 1, false, 0), X(), 5, X(), 1)
  }

  lemma PlainPrepared()
    ensures IsPrepared(PlainProtocol(), PlainCrypto(), PlainEffect())
  {
  }

  lemma PlainAuthorized()
    ensures var x := PlainScene();
            CheckAuthorize(PlainProtocol(), PlainCrypto(), x.policy, x.e, x.signed, x.authority, x.snapshot, x.now)
              == Some(EvidenceOf(PlainCrypto(), PlainStatement(), x.authority))
  {
  }

  /** The run exists: a protocol, a signature scheme and an effect for which
      premature recovery leads to that contradiction. */
  lemma ContradictionOccurs()
    ensures var k, c, x := PlainProtocol(), PlainCrypto(), PlainScene();
            ValidPolicy(k, x.policy) && Dispatchable(k, c, x)
            && (var w := RunEvents(k, c, Start(), x.Events());
                !Uninvoked(w.invocations, x.e.grantHash)
                && x.e.grantHash in w.db.receipts && w.db.receipts[x.e.grantHash].receipt.outcome.NotDispatched?)
  {
    hide RunEvents, IsPrepared, CheckAuthorize, ReadLifecycle;
    PlainPrepared();
    PlainAuthorized();
    PrematureRecoveryContradicts(PlainProtocol(), PlainCrypto(), PlainScene());
  }
}
