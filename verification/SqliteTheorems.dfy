/** The promises of the durable store, for every run from the empty database. */
module SqliteTheorems {
  import opened Unicode
  import opened Json
  import opened Records
  import opened Verifier
  import opened Sqlite
  import opened SqliteInvariant
  import opened SqliteRuns

  /** The database after a run. */
  function Reached(k: Protocol, ops: seq<Op>): Db { Run(k, EmptyDb(), ops) }

  lemma ReachedOk(k: Protocol, ops: seq<Op>)
    ensures Inv(k, Reached(k, ops))
  {
    hide Inv, Run;
    EmptyOk(k);
    RunKeeps(k, EmptyDb(), ops);
  }

  /** Once a key is revoked at an epoch pair, every later state of it at that pair
      is revoked, and no later claim or first marker under it succeeds for a
      grant committed to those epochs. */
  lemma RevokedForever(k: Protocol, ops: seq<Op>, more: seq<Op>, key: Units)
    ensures var db, u := Reached(k, ops), Run(k, Reached(k, ops), more);
            key in db.currentness && db.currentness[key].revoked ==>
              key in u.currentness
              && (SameEpochs(u.currentness[key], db.currentness[key]) ==> u.currentness[key].revoked)
              && Blocked(k, u, key, db.currentness[key].policyEpoch, db.currentness[key].configurationEpoch)
  {
    hide Inv, Run, Blocked, Reached;
    var db := Reached(k, ops);
    ReachedOk(k, ops);
    if key in db.currentness && db.currentness[key].revoked { RevocationSticks(k, db, more, key); }
  }

  /** One version of a key names one snapshot, in whichever two states of a run it is seen. */
  lemma VersionNamesSnapshot(k: Protocol, ops: seq<Op>, more: seq<Op>, key: Units)
    ensures var db, u := Reached(k, ops), Run(k, Reached(k, ops), more);
            key in db.currentness && key in u.currentness && u.currentness[key].version == db.currentness[key].version
            ==> u.currentness[key] == db.currentness[key]
  {
    hide Inv, Run, Reached;
    var db := Reached(k, ops);
    ReachedOk(k, ops);
    if key in db.currentness { VersionDetermines(k, db, more, key); }
  }

  /** What decides a first marker once its version check has passed: the rechecks
      of epochs, pre-state, resource and revocation cannot fail. */
  ghost predicate MarkerConditions(db: Db, h: Digest, attemptId: Units, at: u64)
    requires h in db.claims
  {
    var c := db.claims[h];
    SafeTime(at) && attemptId == c.attemptId && c.claimedAt <= at && NotBefore(db.lastTime, at)
    && h in db.chainByHash && db.chainByHash[h] in db.chains && at < db.chains[db.chainByHash[h]].grant.expiresAt
    && c.key in db.currentness && IsFresh(db.currentness[c.key], at, c.maximumAge)
    && db.currentness[c.key].version == c.version
  }

  lemma MarkedExactly(k: Protocol, ops: seq<Op>, h: Digest, attemptId: Units, at: u64)
    ensures var db := Reached(k, ops);
            h in db.claims && db.claims[h].marker.None? ==>
              (MarkDispatchStarted(k, db, h, attemptId, at).Some? <==> MarkerConditions(db, h, attemptId, at))
  {
    hide Inv, Reached, MarkDispatchStarted;
    var db := Reached(k, ops);
    ReachedOk(k, ops);
    if h in db.claims && db.claims[h].marker.None? { MarkedExactlyWhen(k, db, h, attemptId, at); }
  }

  /** What a caller can read off the database: the claimed version is still the
      current one, and the stored clock is inside the grant and the freshness budget. */
  ghost predicate MarkerOpen(db: Db, h: Digest)
    requires h in db.claims
  {
    var c := db.claims[h];
    h in db.chainByHash && db.chainByHash[h] in db.chains && c.key in db.currentness && db.lastTime.Some?
    && db.currentness[c.key].version == c.version
    && db.lastTime.value < db.chains[db.chainByHash[h]].grant.expiresAt
    && db.lastTime.value <= db.currentness[c.key].observedAt + c.maximumAge
  }

  /** A first marker can still be written at some time if and only if the claim
      is open in that sense; the stored clock itself is then such a time. */
  lemma MarkerOpenExactly(k: Protocol, ops: seq<Op>, h: Digest)
    ensures var db := Reached(k, ops);
            h in db.claims && db.claims[h].marker.None? ==>
              ((exists at :: MarkerConditions(db, h, db.claims[h].attemptId, at)) <==> MarkerOpen(db, h))
              && (MarkerOpen(db, h) ==>
                    MarkDispatchStarted(k, db, h, db.claims[h].attemptId, db.lastTime.value).Some?)
  {
    hide Inv, Reached, MarkerConditions, MarkerOpen, MarkDispatchStarted;
    var db := Reached(k, ops);
    ReachedOk(k, ops);
    if h in db.claims && db.claims[h].marker.None? {
      var attemptId := db.claims[h].attemptId;
      if MarkerOpen(db, h) { var last := OpenAtLastTime(k, db, h); }
      if at :| MarkerConditions(db, h, attemptId, at) {
        MarkedExactly(k, ops, h, attemptId, at);
        OpenForMarker(k, db, h, attemptId, at);
      }
    }
  }

  lemma OpenForMarker(k: Protocol, db: Db, h: Digest, attemptId: Units, at: u64)
    requires Inv(k, db) && h in db.claims && db.claims[h].marker.None?
    ensures MarkDispatchStarted(k, db, h, attemptId, at).Some? ==> MarkerOpen(db, h)
  {
    hide ChainsOk, CurrentnessOk, ClaimsOk, ReceiptsOk, HistoriesOk, MarkDispatchStarted;
    MarkedExactlyWhen(k, db, h, attemptId, at);
  }

  lemma OpenAtLastTime(k: Protocol, db: Db, h: Digest) returns (last: u64)
    requires Inv(k, db) && h in db.claims && db.claims[h].marker.None? && MarkerOpen(db, h)
    ensures db.lastTime == Some(last) && MarkerConditions(db, h, db.claims[h].attemptId, last)
    ensures MarkDispatchStarted(k, db, h, db.claims[h].attemptId, last).Some?
  {
    hide ChainsOk, CurrentnessOk, ClaimsOk, ReceiptsOk, HistoriesOk, MarkDispatchStarted, ChainOk;
    ClaimInvariant(k, db, h);
    last := db.lastTime.value;
    MarkedExactlyWhen(k, db, h, db.claims[h].attemptId, last);
  }

  /** Any accepted change to its key leaves an unmarked claim unmarked for good. */
  lemma ChangeBlocksForever(k: Protocol, ops: seq<Op>, more: seq<Op>, s: Snapshot, h: Digest)
    ensures var db := Reached(k, ops); var changed := Step(k, db, CurrentnessOp(s));
            h in db.claims && db.claims[h].key == s.key && db.claims[h].marker.None? && changed != db ==>
              h in Run(k, changed, more).claims && Run(k, changed, more).claims[h].marker.None?
  {
    hide Inv, Run, Reached, CurrentnessAdvances, Kept, ClaimOk, ChainOk;
    var db := Reached(k, ops);
    var changed := Step(k, db, CurrentnessOp(s));
    ReachedOk(k, ops);
    if h in db.claims && db.claims[h].key == s.key && db.claims[h].marker.None? && changed != db {
      StepKeeps(k, db, CurrentnessOp(s));
      ChangedIsNewer(k, db, s, h);
      ChangeBlocksMarker(k, changed, more, h);
    }
  }

  lemma ChangedIsNewer(k: Protocol, db: Db, s: Snapshot, h: Digest)
    requires Inv(k, db) && h in db.claims && db.claims[h].key == s.key && Step(k, db, CurrentnessOp(s)) != db
    ensures var u := Step(k, db, CurrentnessOp(s));
            u.claims == db.claims && s.key in u.currentness && u.currentness[s.key].version > db.claims[h].version
  {
    hide Inv, ChainOk, ValidSnapshot;
    ClaimInvariant(k, db, h);
  }

  /** A claim has at most one marker, ever. */
  lemma MarkerIsFinal(k: Protocol, ops: seq<Op>, more: seq<Op>, h: Digest)
    ensures var db, u := Reached(k, ops), Run(k, Reached(k, ops), more);
            h in db.claims && db.claims[h].marker.Some? ==> h in u.claims && u.claims[h] == db.claims[h]
  {
    hide Inv, Run, Reached, CurrentnessAdvances, Kept;
    ReachedOk(k, ops);
    RunExtends(k, Reached(k, ops), more);
  }

  /** Claim and marker times lie in all four nested record windows, and the
      stored clock is the maximum of them all. */
  lemma TimesAreBounded(k: Protocol, ops: seq<Op>, h: Digest)
    ensures var db := Reached(k, ops);
            IsLastTime(db.lastTime, db.claims)
            && (h in db.claims ==>
                  h in db.chainByHash && db.chainByHash[h] in db.chains
                  && InsideWindows(db.chains[db.chainByHash[h]], db.claims[h].claimedAt)
                  && (db.claims[h].marker.Some? ==>
                        InsideWindows(db.chains[db.chainByHash[h]], db.claims[h].marker.value)))
  {
    hide ChainsOk, CurrentnessOk, ClaimsOk, IsLastTime, ReceiptsOk, HistoriesOk, Reached, InsideWindows;
    ReachedOk(k, ops);
    if h in Reached(k, ops).claims { TimesInsideWindows(k, Reached(k, ops), h); }
  }

  /** The rows of every registered grant form a bundle the verifier accepts. */
  lemma RowsAlwaysVerify(k: Protocol, ops: seq<Op>, h: Digest)
    ensures var db := Reached(k, ops);
            h in db.chainByHash ==> db.chainByHash[h] in db.chains && Accepts(k, BundleFromRows(db, h))
  {
    hide Inv, Reached, Accepts, BundleFromRows;
    ReachedOk(k, ops);
    if h in Reached(k, ops).chainByHash { RowsVerify(k, Reached(k, ops), h); }
  }

  /** Reading a lifecycle fails, for a registered grant, exactly when a marker
      stands beside a receipt that reports no dispatch; no other integrity
      error is reachable. */
  lemma LifecycleFailsExactly(k: Protocol, ops: seq<Op>, h: Digest)
    ensures var db := Reached(k, ops);
            h in db.chainByHash ==>
              (ReadLifecycle(k, db, h).None? <==>
                 h in db.receipts && h in db.claims && db.receipts[h].receipt.dispatchedAt.None?
                 && db.claims[h].marker.Some?)
  {
    hide Inv, Reached, ReadLifecycle;
    ReachedOk(k, ops);
    if h in Reached(k, ops).chainByHash { LifecycleLost(k, Reached(k, ops), h); }
  }

  lemma LifecycleLost(k: Protocol, db: Db, h: Digest)
    requires Inv(k, db) && h in db.chainByHash
    ensures ReadLifecycle(k, db, h).None? <==>
              h in db.receipts && h in db.claims && db.receipts[h].receipt.dispatchedAt.None?
              && db.claims[h].marker.Some?
  {
    hide Inv, ReadLifecycle, AllRecords, IsHistory;
    LifecycleReads(k, db, h);
    if h in db.receipts { ReceiptInvariant(k, db, h); }
  }

  /** A lifecycle that cannot be read stays unreadable. */
  lemma LostForGood(k: Protocol, ops: seq<Op>, more: seq<Op>, h: Digest)
    ensures var db := Reached(k, ops);
            h in db.chainByHash && ReadLifecycle(k, db, h).None? ==> ReadLifecycle(k, Run(k, db, more), h).None?
  {
    hide Inv, ReadLifecycle, Run, Reached, CurrentnessAdvances;
    var db := Reached(k, ops);
    ReachedOk(k, ops);
    if h in db.chainByHash && ReadLifecycle(k, db, h).None? {
      RunExtends(k, db, more);
      RunKeeps(k, db, more);
      LifecycleLost(k, db, h);
      LifecycleLost(k, Run(k, db, more), h);
    }
  }
}
