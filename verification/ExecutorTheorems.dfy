/** The promises of the executor, over all interleavings and crashes. */
module ExecutorTheorems {
  import opened Unicode
  import opened Json
  import opened Records
  import opened Sqlite
  import opened SqliteInvariant
  import opened Executor
  import opened ExecutorRuns
  import C = SqliteContracts
  import R = SqliteRuns
  import A = Authority

  // ---- At most one invocation, after its marker, with the committed effect ----

  lemma ReachedOk(k: Protocol, c: A.Crypto, events: seq<Event>)
    ensures WorldInv(k, c, RunEvents(k, c, Start(), events))
  {
    hide WorldInv, Next;
    StartOk(k, c);
    EventsKeep(k, c, Start(), events);
  }

  lemma DistinctProposals(k: Protocol, db: Db, g: Digest, h: Digest)
    requires Inv(k, db) && g != h && g in db.chainByHash && h in db.chainByHash
    ensures db.chainByHash[g] in db.chains && db.chainByHash[h] in db.chains
         && db.chains[db.chainByHash[g]].proposalHash != db.chains[db.chainByHash[h]].proposalHash
  {
    hide ClaimsOk, ReceiptsOk, HistoriesOk, IsLastTime, CurrentnessOk, ChainOk;
  }

  /** However executors interleave and wherever they crash, the adapter is
      invoked at most once per proposal; every invocation has its durable
      marker and carries the effect that the stored chain committed to. */
  lemma AtMostOncePerProposal(k: Protocol, c: A.Crypto, events: seq<Event>)
    ensures var w := RunEvents(k, c, Start(), events);
            (forall i, j | 0 <= i < j < |w.invocations| ::
               w.invocations[i].proposalHash != w.invocations[j].proposalHash)
            && (forall i | 0 <= i < |w.invocations| :: InvocationOk(k, c, w.db, w.invocations[i]))
  {
    hide RunEvents, Inv, TokensOk, Exclusive, InvocationOk;
    var w := RunEvents(k, c, Start(), events);
    ReachedOk(k, c, events);
    forall i, j | 0 <= i < j < |w.invocations| ensures w.invocations[i].proposalHash != w.invocations[j].proposalHash {
      InvokedProposal(k, c, w.db, w.invocations[i]);
      InvokedProposal(k, c, w.db, w.invocations[j]);
      DistinctProposals(k, w.db, w.invocations[i].grantHash, w.invocations[j].grantHash);
    }
  }

  lemma InvokedProposal(k: Protocol, c: A.Crypto, db: Db, call: Invocation)
    requires InvocationOk(k, c, db, call)
    ensures call.grantHash in db.chainByHash && db.chainByHash[call.grantHash] in db.chains
    ensures db.chains[db.chainByHash[call.grantHash]].proposalHash == call.proposalHash
  {
  }

  /** The marker is durable before the invocation: whatever event happens, it
      invokes the adapter at most once, and then the database already held the
      marker, the claim of this attempt and the chain with this exact effect. */
  lemma MarkerComesFirst(k: Protocol, c: A.Crypto, events: seq<Event>, event: Event)
    ensures var w := RunEvents(k, c, Start(), events); var v := Next(k, c, w, event);
            v.invocations == w.invocations
            || (|v.invocations| == |w.invocations| + 1 && v.invocations[..|w.invocations|] == w.invocations
                && InvocationOk(k, c, w.db, v.invocations[|w.invocations|]) && v.db == w.db)
  {
    hide RunEvents, Inv, TokenOk, InvocationOk, Exclusive, Next;
    var w := RunEvents(k, c, Start(), events);
    ReachedOk(k, c, events);
    if event.Dispatch? && event.id in w.live && w.live[event.id].Capability? {
      DispatchedCall(k, c, w.db, w.invocations, w.live[event.id]);
    }
    Invokes(k, c, w, event);
  }

  /** Only a dispatch of a live capability invokes the adapter. */
  lemma Invokes(k: Protocol, c: A.Crypto, w: World, event: Event)
    ensures var v := Next(k, c, w, event);
            if event.Dispatch? && event.id in w.live && w.live[event.id].Capability?
            then v.invocations == w.invocations + [CallFor(w.live[event.id])] && v.db == w.db
            else v.invocations == w.invocations
  {
    hide Next;
    if event.Dispatch? {
      DispatchInvokes(k, c, w, event.id);
    } else if event.Authorize? || event.Refresh? || event.TakeClaim? || event.Begin? {
      OpeningInvokesNothing(k, c, w, event);
    } else {
      ClosingInvokesNothing(k, c, w, event);
    }
  }

  lemma DispatchInvokes(k: Protocol, c: A.Crypto, w: World, id: nat)
    ensures var v := Next(k, c, w, Dispatch(id));
            if id in w.live && w.live[id].Capability?
            then v.invocations == w.invocations + [CallFor(w.live[id])] && v.db == w.db
            else v.invocations == w.invocations
  {
  }

  lemma OpeningInvokesNothing(k: Protocol, c: A.Crypto, w: World, event: Event)
    requires event.Authorize? || event.Refresh? || event.TakeClaim? || event.Begin?
    ensures Next(k, c, w, event).invocations == w.invocations
  {
    hide CheckAuthorize, CheckBegin, IsPrepared, Settle, RegisterChain, PutCurrentness, Claim, MarkDispatchStarted;
    SettleInvokesNothing();
  }

  lemma ClosingInvokesNothing(k: Protocol, c: A.Crypto, w: World, event: Event)
    requires !event.Dispatch? && !event.Authorize? && !event.Refresh? && !event.TakeClaim? && !event.Begin?
    ensures Next(k, c, w, event).invocations == w.invocations
  {
    hide Step, Settle, StartRecovery, RecordReceipt;
    SettleInvokesNothing();
    RecoveryInvokesNothing();
  }

  lemma SettleInvokesNothing()
    ensures forall w, id, db, next :: Settle(w, id, db, next).invocations == w.invocations
  {
  }

  lemma RecoveryInvokesNothing()
    ensures forall k, w, id, recovery, dispatched ::
              StartRecovery(k, w, id, recovery, dispatched).invocations == w.invocations
  {
    hide RecoveredReceipt;
  }

  // ---- The moment of dispatch ----

  /** The moment of a marker: inside all four record windows and the assertion
      and key windows, no later than the claim's own freshness budget after the
      observation of the very snapshot that was claimed. */
  ghost predicate MarkedInTime(
    k: Protocol, c: A.Crypto, db: Db, policy: Policy, t: Token, a: A.AuthoritySnapshot, now: u64)
    requires t.ClaimedEffect?
  {
    var row := ChainRowOf(k, t.e);
    t.row.claimedAt <= now && R.InsideWindows(row, now)
    && t.row.key in db.currentness
    && (var s := db.currentness[t.row.key];
        s.version == t.row.version && C.Confirms(s, row.task, row.proposal)
        && C.ObservedWithin(s, t.row.claimedAt, t.row.maximumAge) && C.ObservedWithin(s, now, t.row.maximumAge))
    && (var found := c.open(t.signed, a.publicKey);
        found.Some? && Endorses(k, c, policy, t.e, a, now, found.value) && t.evidence == Noted(c, found.value, a))
  }

  /** In every run, whenever `begin_dispatch` hands out a capability, its marker was written in time. */
  lemma CapabilitiesInTime(k: Protocol, c: A.Crypto, events: seq<Event>, event: Event)
    ensures var w := RunEvents(k, c, Start(), events);
            event.Begin? && event.id in w.live && w.live[event.id].ClaimedEffect?
            && event.id in Next(k, c, w, event).live ==>
              Next(k, c, w, event).live[event.id] == Capability(w.live[event.id].e, w.live[event.id].row, event.now)
              && Next(k, c, w, event).db.lastTime == Some(event.now)
              && MarkedInTime(k, c, w.db, event.policy, w.live[event.id], event.authority, event.now)
  {
    hide RunEvents, WorldInv, Next, MarkedInTime;
    var w := RunEvents(k, c, Start(), events);
    ReachedOk(k, c, events);
    if event.Begin? && event.id in w.live && w.live[event.id].ClaimedEffect? && event.id in Next(k, c, w, event).live {
      MarkedInsideWindows(k, c, w, event);
    }
  }

  lemma MarkedInsideWindows(k: Protocol, c: A.Crypto, w: World, event: Event)
    requires WorldInv(k, c, w) && event.Begin? && event.id in w.live && w.live[event.id].ClaimedEffect?
    requires event.id in Next(k, c, w, event).live
    ensures Next(k, c, w, event).live[event.id] == Capability(w.live[event.id].e, w.live[event.id].row, event.now)
    ensures Next(k, c, w, event).db.lastTime == Some(event.now)
    ensures MarkedInTime(k, c, w.db, event.policy, w.live[event.id], event.authority, event.now)
  {
    hide Inv, InvocationOk, Exclusive, IsPrepared, Uninvoked, CallsOk, Single, CheckBegin, A.VerifyAuthority;
    var t, now := w.live[event.id], event.now;
    assert TokenOk(k, c, w.db, w.invocations, t);
    BeginExactly(k, c, event.policy, t.e, t.evidence, t.signed, event.authority, now);
    FirstMarker(k, w.db, t.e.grantHash, t.row.attemptId, now);
    PreparedNesting(k, c, t.e);
    PreparedHash(k, c, t.e);
  }

  /** What the first marker of a claim was checked against. */
  lemma FirstMarker(k: Protocol, db: Db, h: Digest, attemptId: Units, at: u64)
    requires Inv(k, db) && h in db.claims && db.claims[h].marker.None?
    requires MarkDispatchStarted(k, db, h, attemptId, at).Some?
    ensures var row := db.claims[h];
            MarkDispatchStarted(k, db, h, attemptId, at).value.lastTime == Some(at)
            && h in db.chainByHash && db.chainByHash[h] in db.chains && row.key in db.currentness
            && row.claimedAt <= at < db.chains[db.chainByHash[h]].grant.expiresAt
            && db.chains[db.chainByHash[h]].grant.notBefore <= row.claimedAt
            && var s := db.currentness[row.key];
               s.version == row.version && Matches(s, db.chains[db.chainByHash[h]])
               && IsFresh(s, at, row.maximumAge) && IsFresh(s, row.claimedAt, row.maximumAge)
  {
    hide Inv, ChainOk;
    R.ClaimInvariant(k, db, h);
  }

  lemma PreparedNesting(k: Protocol, c: A.Crypto, e: Prepared)
    requires IsPrepared(k, c, e)
    ensures e.task.createdAt <= e.proposal.createdAt <= e.decision.decidedAt <= e.grant.notBefore
    ensures e.grant.expiresAt <= e.decision.expiresAt <= e.proposal.expiresAt <= e.task.expiresAt
  {
  }

  // ---- Not dispatched ----

  /** A receipt without a dispatch time is true of the past: when it is recorded
      no marker exists and the adapter has not been invoked for its grant. */
  lemma NotDispatchedIsTrue(k: Protocol, c: A.Crypto, events: seq<Event>, r: Receipt)
    ensures var w := RunEvents(k, c, Start(), events);
            MayRecord(k, w.db, r) && r.dispatchedAt.None? ==>
              r.grantHash in w.db.claims && w.db.claims[r.grantHash].marker.None?
              && Uninvoked(w.invocations, r.grantHash)
  {
    hide RunEvents, WorldInv, MayRecord, Uninvoked;
    ReachedOk(k, c, events);
    var w := RunEvents(k, c, Start(), events);
    if MayRecord(k, w.db, r) && r.dispatchedAt.None? { NothingBefore(k, c, w, r); }
  }

  lemma NothingBefore(k: Protocol, c: A.Crypto, w: World, r: Receipt)
    requires WorldInv(k, c, w) && MayRecord(k, w.db, r) && r.dispatchedAt.None?
    ensures r.grantHash in w.db.claims && w.db.claims[r.grantHash].marker.None? && Uninvoked(w.invocations, r.grantHash)
  {
    hide Inv, LoadChainByHash, TokensOk;
    UnmarkedUninvoked(k, c, w, r.grantHash);
  }

  lemma UnmarkedUninvoked(k: Protocol, c: A.Crypto, w: World, h: Digest)
    requires CallsOk(k, c, w) && h in w.db.claims && w.db.claims[h].marker.None?
    ensures Uninvoked(w.invocations, h)
  {
    hide Bound;
    forall i | 0 <= i < |w.invocations| ensures w.invocations[i].grantHash != h {
      assert InvocationOk(k, c, w.db, w.invocations[i]);
    }
  }
}
