# Effect Transaction Protocol: a verified model

This project models the lifecycle of an effect transaction: a chain of records (task commitment, proposal, decision,
grant, receipt, reconciliations), the two stores that enforce single use of a grant, the executor that survives
crashes, and the canonical JSON layer on which every record hash rests. Dafny checks all of it with
`dafny verify dfyconfig.toml`.

## How it is organised

- **Text and JSON.** `Unicode` has UTF-16 code units, code points and UTF-8; `Json` the values, the canonical encoding
  of TypeScript and that of Rust; `Budget` the depth and node limits with both checks; `Encoders` the encoders as they
  run. `StrictJson` specifies the parser, `StrictJsonParser` is the parser object with its `index` and `nodes` fields.
  `Grammar` gives an independent meaning: trees with arbitrary white space, member order and escapes, and their
  spellings. `ParserComplete`, `ParserSound` and `RoundTrip` connect the two. `CanonicalForm` says what canonical text looks
  like as a spelling of that grammar, and `Lexicon` that the shared symbols and limits are those of RFC 8259 and the protocol.
- **Records.** `Records` has the six records and their own rules. The record hashes and the text rules are fields of a
  `Protocol` value and stay arbitrary, so every result holds for all of them. `Verifier` is the pairwise Rust verifier
  and the declarative meaning of a history; `TsVerifier` the flag-driven TypeScript verifier. `RecordJson` serializes
  records; `Pins` gives the hashes their real preimages (`Etp`) and proves what a hash pins. `Lawful` writes what
  verification demands on the fields of the records alone and proves that the verifiers demand exactly that; `Wire` does
  the same for member names, digests, outcomes and preimages.
- **Stores.** `MemoryStore` is the in-memory store. `Sqlite` has the tables of the durable store and its transactions as
  functions from a database to a committed database or a rollback; `SqliteStore` is the object that executes them
  statement by statement. `SqliteInvariant` holds what every reachable database satisfies, `SqliteRuns` what later states
  keep, `SqliteTheorems` the promises for every run, `SplitReads` what a lifecycle read sees whose queries interleave with
  other writers, `MemoryContracts` and `SqliteContracts` when exactly each call succeeds and what it leaves, said of stored
  fields, `Simulation` the refinement of the in-memory store, `DurableReplay` which bundles the durable store can
  hold.
- **Executor.** `Authority` models assertions and their bindings. `Executor` is a world of one shared database, the live
  tokens of any number of executors and the log of adapter invocations; each event is one transaction, one adapter
  invocation or a crash, and `authorize_and_claim` and the recoveries are several events. `ExecutorRuns` and
  `ExecutorTheorems` hold the invariant and the promises; `PrematureRecovery` is a run that breaks one of them and
  `DispatchExactly` the exact condition under which it holds; `Provenance` traces every capability and every receipt back to
  the event that made it; `ExecutorObject` is the object whose methods run these transactions.
- **Profile and oracle.** `JsonPointer` and `KubernetesPatch` model the Kubernetes patch rules and RFC 6902 application,
  `PatchForm` gives the accepted patches as JSON objects;
  `Conformance` models the lifecycle target of the conformance suite.

A hash is an arbitrary function of its preimage. Only `Pins.HeadPins` needs that it does not collide, and it assumes so
only between the preimages of the two bundles in question. A rejected operation is `None` or `false`; which error is
reported is not modelled.

## Where the code does less or more than expected

- A rejected in-memory claim that got past the clock still moves the clock fence, while a rejected durable claim rolls
  everything back. Each is modelled as written; the simulation relates the two clocks by an inequality.
- `mark_dispatch_started` does not read receipts, so a `not_dispatched` receipt can be contradicted later.
  `DispatchExactly.RecoveryPrematureExactly` gives the exact condition: some continuation invokes the adapter, or makes the
  lifecycle unreadable, if and only if at the moment of recording some live claim token could still begin its dispatch.
  `DispatchExactly.SafeFromDatabase` is what a recovering caller can check: once the clock, the expiry, the freshness budget
  or the key's version rules a marker out, closing is safe whatever tokens are live. `DispatchExactly.TruthfulExactly` states
  the condition for whole runs, and `DispatchExactly.NotDispatchedStaysTrue` that waiting for the claim token to be gone
  meets it. `PrematureRecovery.PrematureRecoveryContradicts` shows, for every effect that can be dispatched at all, a run in
  which the adapter is invoked beside a durable `not_dispatched` receipt, and `PrematureRecovery.ContradictionOccurs` has
  one such effect.
- `lifecycle` reads in several SELECTs outside a transaction. `SplitReads` gives exactly when writers in between
  make such a read fail, and exactly when what it returns is the lifecycle of one moment: always, but for an `unknown`
  receipt without a dispatch time whose history grew after its contradicting marker.
- `verify_transaction` accepts a receipt whose dispatch is reported at or after the grant's expiry; the durable store never
  holds one. `DurableReplay.DurableExactly` gives the exact difference and `DurableReplay.LateDispatchAccepted` a family of
  such bundles.
- The TypeScript record validator does not tie a reconciliation's sequence to its parent; the loop around it does.

## Model

| member | source | states |
|---|---|---|
| Unicode.AssertScalarString | typescript/src/canonical.ts:21-34 | accepts exactly the strings without an unpaired surrogate |
| Unicode.CompareUnicodeScalars | typescript/src/canonical.ts:36-46 | negative exactly on lexicographically smaller code points, zero exactly on equal strings |
| Unicode.Utf8Order | typescript/src/canonical.ts:36-46 | UTF-8 byte order is code-point order, as section 1 of RFC 3629 says |
| Unicode.Utf8OfTable | crates/effect-transaction-core/src/lib.rs:1077-1081 | the bytes of a code point are as few as it needs, with its bits in order behind the length prefix of section 3 of RFC 3629 |
| Unicode.PairOf | typescript/src/canonical.ts:36-46 | a surrogate pair carries the upper and lower ten bits above 0x10000 |
| Lexicon.SpacesAndDigits | typescript/src/canonical.ts:380-395 | white space and digits are those of sections 2 and 6 of RFC 8259 |
| Lexicon.Escapes | typescript/src/canonical.ts:269-341 | escape letters and hexadecimal digits of either case have the meanings of section 7 of RFC 8259 |
| Lexicon.Literals | typescript/src/canonical.ts:199-223 | literal names and structural characters are those of RFC 8259 |
| Lexicon.Limits | typescript/src/canonical.ts:13-15 | integers stay within 53 bits, and depth, nodes and bytes of input within the limits of the protocol |
| Json.OrdersAgree | crates/effect-transaction-core/src/lib.rs:1077-1081 | the key order of the Rust map and that of `compareUnicodeScalars` are the same relation |
| Json.SortedKeysAgree | crates/effect-transaction-core/src/lib.rs:1077-1081 | sorting any key set either way gives the same sequence |
| Json.EncodersAgree | crates/effect-transaction-core/src/lib.rs:1045-1098 | on every encodable value the Rust bytes are the UTF-8 form of the TypeScript text, which is well-formed |
| Budget.EnforceValueBudget | typescript/src/canonical.ts:147-171 | the worklist loop ends and accepts exactly the trees within 64 levels and 100,000 nodes |
| Budget.ValidateValueBudget | crates/effect-transaction-core/src/lib.rs:1006-1034 | the recursive check accepts exactly the same trees and counts every node once |
| Encoders.CanonicalJson | typescript/src/canonical.ts:76-178 | yields the canonical text, as `CanonicalForm.CanonicalTextExactly` describes it, exactly of values within the budget, with safe integers and well-formed strings |
| Encoders.QuoteString | typescript/src/canonical.ts:48-74 | quotes exactly the well-formed strings, escaping unit by unit |
| Encoders.EncodeCanonicalValue | crates/effect-transaction-core/src/lib.rs:1045-1098 | appends exactly the canonical bytes, the UTF-8 form of that text, and fails exactly on an unsafe number |
| Encoders.RustCanonicalJson | crates/effect-transaction-core/src/lib.rs:959-966 | accepts the same values as TypeScript and yields their canonical bytes |
| CanonicalForm.CanonicalTextExactly | typescript/src/canonical.ts:76-145 | a text is the canonical text of a value if and only if it spells the value without white space, with members in strictly ascending code-point order at every level, strings escaped only where they must be and then in the short form or in lower case |
| CanonicalForm.CanonicalTextShortest | typescript/src/canonical.ts:48-145 | no acceptable spelling of a value is shorter than its canonical text |
| StrictJsonParser.Parser.Parse | typescript/src/canonical.ts:188-197 | the stateful parser computes the specified parse of the whole text, and its closing encoding never fails |
| StrictJsonParser.Parser.ReadString | typescript/src/canonical.ts:269-341 | reads one string with its escapes and surrogate pairs and stops right behind it |
| StrictJsonParser.Parser.ReadValue | typescript/src/canonical.ts:199-223 | reads one value under the depth and node counters, leaving the counter and the position as specified |
| StrictJsonParser.ParseStrictJson | typescript/src/canonical.ts:398-406 | refuses texts over the transport limit before parsing |
| StrictJsonParser.StrictRoundTrip | typescript/src/canonical.ts:174-178 | parsing the canonical text gives back the value exactly when the text is within the transport limit |
| ParserComplete.ReadsTree | typescript/src/canonical.ts:199-378 | on any spelling of any tree the parser yields its value exactly if depth, node and key rules hold |
| ParserSound.ParseSpelling | typescript/src/canonical.ts:188-267 | whatever the white space, member order and escapes, a text parses to its value if it fits, and never if a decoded key repeats |
| ParserSound.ParserIsGrammar | typescript/src/canonical.ts:188-395 | a text parses to a value if and only if some fitting tree of the RFC 8259 grammar, numbers with fraction, exponent and `-0` included, spells it and means that value |
| RoundTrip.ParsedIsCanonicalizable | typescript/src/canonical.ts:188-197 | everything the parser accepts has canonical JSON, so its counters agree with the budget check |
| RoundTrip.CanonicalTextParses | typescript/src/canonical.ts:76-145 | the canonical text of a value parses to that value |
| RoundTrip.SpellingsConverge | typescript/src/canonical.ts:76-395 | two accepted texts re-encode to the same canonical bytes if and only if they spell the same value |
| RoundTrip.EncodingInjective | typescript/src/canonical.ts:76-145 | the canonical bytes determine the value |
| Lawful.AcceptsExactly | crates/effect-transaction-core/src/lib.rs:387-639 | verification accepts exactly the bundles whose fields are lawful: hash links, nested windows, ascending lists, an allowing decision wherever there is a grant, single use, claim in the window, dispatch between claim and completion, and an ordered open history |
| Lawful.ReportExactly | crates/effect-transaction-core/src/lib.rs:552-639 | the report names each record by its hash and the stage and outcome the bundle has reached |
| Verifier.HistoryExtends | crates/effect-transaction-core/src/lib.rs:503-544 | the pairwise rule with a fresh identifier is exactly what extends a contiguous, parent-linked, time-ordered, open history |
| Verifier.VerifyTransaction | crates/effect-transaction-core/src/lib.rs:552-639 | accepts exactly the bundles of the declarative definition and reports their hashes and state |
| Verifier.VerifyRecords | crates/effect-transaction-core/src/lib.rs:603-612 | the loop over `previous` and `identifiers` accepts exactly the histories |
| TsVerifier.DigestOrder | typescript/src/verify.ts:169-175 | digests sort by value as their texts do |
| TsVerifier.SortedUnique | typescript/src/verify.ts:169-175 | accepts exactly the strictly byte-sorted lists |
| TsVerifier.ValidateDecision | typescript/src/verify.ts:246-284 | accepts exactly the decisions Rust finds valid, reading through the budget first |
| TsVerifier.RoundExtends | typescript/src/verify.ts:507-537 | the checks of one loop round extend a history exactly when the declarative rule does |
| TsVerifier.VerifyHistory | typescript/src/verify.ts:503-537 | the loop with its `terminal`, `prior` and `priorHash` flags accepts exactly the histories |
| TsVerifier.VerifyTransaction | typescript/src/verify.ts:391-549 | accepts exactly the bundles Rust accepts and reports the same hashes and state; the budget check first changes nothing |
| Wire.TaskMembers | crates/effect-transaction-core/src/lib.rs:98-110 | every field of a task stands under its member name |
| Wire.ProposalMembers | crates/effect-transaction-core/src/lib.rs:113-127 | every field of a proposal stands under its member name |
| Wire.DecisionMembers | crates/effect-transaction-core/src/lib.rs:130-140 | every field of a decision stands under its member name |
| Wire.GrantMembers | crates/effect-transaction-core/src/lib.rs:143-154 | every field of a grant stands under its member name |
| Wire.ReceiptMembers | crates/effect-transaction-core/src/lib.rs:157-169 | every field of a receipt stands under its member name |
| Wire.ReconciliationMembers | crates/effect-transaction-core/src/lib.rs:172-181 | every field of a reconciliation stands under its member name |
| Wire.MemberCount | crates/effect-transaction-core/src/lib.rs:96-181 | a record has no other members |
| Wire.OutcomeTexts | crates/effect-transaction-core/src/lib.rs:71-95 | every outcome is written in its own name |
| Wire.PartsAndLists | crates/effect-transaction-core/src/lib.rs:96-181 | an absent part is null, and lists keep their order |
| Wire.DigestSpelling | crates/effect-transaction-core/src/lib.rs:32-58 | a digest is its algorithm and 64 lower-case digits that denote it |
| RecordJson.RecordInjective | crates/effect-transaction-core/src/lib.rs:96-181 | records of one kind with one JSON value are the same record |
| Pins.ValidIsCanonicalizable | crates/effect-transaction-core/src/lib.rs:198-201 | hashing a valid record never fails |
| Wire.PreimageSpelling | crates/effect-transaction-core/src/lib.rs:1036-1043 | what is hashed is the domain of the record kind, a zero byte and the UTF-8 form of the canonical text |
| Pins.PreimageInjective | crates/effect-transaction-core/src/lib.rs:1036-1043 | domain, NUL and canonical JSON determine the record, whatever its kind |
| Pins.JsonIdentifies | crates/effect-transaction-sqlite/src/lib.rs:297-310 | comparing stored JSON bytes is comparing records |
| Pins.HeadPins | crates/effect-transaction-core/src/lib.rs:387-639 | two accepted bundles whose verification reports the same last hash are equal record for record, even across lifecycle stages, unless their preimages collide |
| Pins.AcceptedFitsBudget | typescript/src/verify.ts:37-43 | every accepted bundle of up to 10,000 reconciliations is within the 100,000-node budget |
| MemoryStore.MemoryGrantStore.RegisterGrant | crates/effect-transaction-core/src/lib.rs:710-763 | registers once per grant identifier, decision and proposal, with all indexes |
| MemoryStore.MemoryGrantStore.ClaimGrant | crates/effect-transaction-core/src/lib.rs:774-845 | claims under all currentness checks; a rejection past the clock keeps the fence |
| MemoryStore.MemoryGrantStore.Record | crates/effect-transaction-core/src/lib.rs:853-893 | records the winner's receipt once; repeating it is idempotent |
| MemoryStore.MemoryGrantStore.Append | crates/effect-transaction-core/src/lib.rs:901-950 | appends the next record, accepts a repeat, refuses a fork |
| MemoryContracts.RegisterExactly | crates/effect-transaction-core/src/lib.rs:710-763 | in every reachable state registration succeeds exactly for a lawful chain whose identifier, proposal and decision are new, and then stores it |
| MemoryContracts.ClaimExactly | crates/effect-transaction-core/src/lib.rs:774-845 | in every reachable state a claim succeeds exactly when audience, window, epochs, digests and revocation fit and none was made; past the clock it moves the fence either way |
| MemoryContracts.RecordExactly | crates/effect-transaction-core/src/lib.rs:853-893 | in every reachable state a receipt is recorded exactly if it is lawful for its grant, of the winning attempt, and the first or the same by hash |
| MemoryContracts.AppendExactly | crates/effect-transaction-core/src/lib.rs:901-950 | in every reachable state a reconciliation is accepted exactly if it makes a longer lawful history or repeats the record at its place by hash |
| MemoryStore.RunKeeps | crates/effect-transaction-core/src/lib.rs:710-950 | in every run each stored history verifies, claims lie in their windows behind the fence and indexes are exact |
| MemoryStore.RunExtends | crates/effect-transaction-core/src/lib.rs:710-950 | claims and receipts are write-once, histories append-only and the fence monotone over any calls |
| MemoryStore.ReplayRebuilds | crates/effect-transaction-core/src/lib.rs:710-950 | every accepted bundle with a grant replays, call by call, into a fresh store |
| MemoryStore.StoredExactlyAccepted | crates/effect-transaction-core/src/lib.rs:552-950 | the accepted bundles with a grant are exactly the per-grant contents of reachable stores |
| SqliteStore.SqliteEffectStore.Register | crates/effect-transaction-sqlite/src/lib.rs:281-336 | one atomic registration; a repeat is idempotent and a conflict rolls back |
| SqliteStore.SqliteEffectStore.PutCurrentnessRow | crates/effect-transaction-sqlite/src/lib.rs:346-394 | stores an accepted snapshot under its key and changes nothing else; refuses one that neither repeats nor supersedes the stored one, or takes a revocation back at the same epochs |
| SqliteStore.SqliteEffectStore.ClaimGrant | crates/effect-transaction-sqlite/src/lib.rs:403-504 | moves the clock and inserts the claim together, or neither |
| SqliteStore.SqliteEffectStore.Mark | crates/effect-transaction-sqlite/src/lib.rs:513-595 | writes the one marker of a claim after rechecking; a repeat is idempotent |
| SqliteStore.SqliteEffectStore.Record | crates/effect-transaction-sqlite/src/lib.rs:603-649 | records the receipt of the winning attempt against the marker |
| SqliteStore.SqliteEffectStore.Append | crates/effect-transaction-sqlite/src/lib.rs:658-713 | appends the next reconciliation under the unique constraints |
| SqliteStore.SqliteEffectStore.GetLifecycle | crates/effect-transaction-sqlite/src/lib.rs:721-757 | reads and re-verifies the rows of a grant |
| SqliteContracts.RegisterExactly | crates/effect-transaction-sqlite/src/lib.rs:281-336 | in every reachable database registration commits exactly for a lawful chain that is stored already or new in identifier, proposal, decision and hash |
| SqliteContracts.CurrentnessExactly | crates/effect-transaction-sqlite/src/lib.rs:346-394 | a snapshot is accepted exactly if it is well-formed and new, the same or superseding; it is then what its key maps to, and nothing else changes |
| SqliteContracts.AcceptedRevocationBlocks | crates/effect-transaction-sqlite/src/lib.rs:346-394 | once a revoking snapshot is accepted, no continuation claims or first marks a grant of its epochs under its key, or takes it back |
| SqliteContracts.ClaimExactly | crates/effect-transaction-sqlite/src/lib.rs:403-504 | in every reachable database a claim commits exactly for the registered grant, on time, under a fresh confirming snapshot of the requested version, and with a new grant and attempt; clock and row are then written |
| SqliteContracts.MarkExactly | crates/effect-transaction-sqlite/src/lib.rs:513-595 | in every reachable database a marker call commits exactly for the attempt, as a repeat of its marker or while expiry, clock, version and freshness allow the first |
| SqliteContracts.RecordExactly | crates/effect-transaction-sqlite/src/lib.rs:603-649 | in every reachable database a receipt is recorded exactly if it is lawful for its chain, of the claimed attempt, says what the marker says, and is the first or the same by hash |
| SqliteContracts.AppendExactly | crates/effect-transaction-sqlite/src/lib.rs:658-713 | in every reachable database a reconciliation commits exactly if it makes a longer lawful history and is new in identifier, hash and parent, or repeats the record at its place by hash |
| SqliteInvariant.HistoryRead | crates/effect-transaction-sqlite/src/lib.rs:1280-1339 | counting, taking the latest and listing by sequence read back exactly the contiguous history |
| SqliteInvariant.RunKeeps | crates/effect-transaction-sqlite/src/lib.rs:281-713 | every transaction of every run keeps the whole invariant of chains, currentness, claims, clock, receipts and histories |
| SqliteRuns.RunExtends | crates/effect-transaction-sqlite/src/lib.rs:88-108 | tables only grow: nothing is rewritten, and a claim gains at most its one marker |
| SqliteTheorems.RevokedForever | crates/effect-transaction-sqlite/src/lib.rs:346-394 | a key revoked at an epoch pair is revoked there in every later state, and blocks later claims and first markers for grants of those epochs |
| SqliteTheorems.VersionNamesSnapshot | crates/effect-transaction-sqlite/src/lib.rs:355-372 | two states of a run with the same key and version hold the same snapshot |
| SqliteTheorems.MarkedExactly | crates/effect-transaction-sqlite/src/lib.rs:541-575 | a first marker is written if and only if attempt, times, freshness and version fit; the rechecks behind the version cannot fail |
| SqliteTheorems.MarkerOpenExactly | crates/effect-transaction-sqlite/src/lib.rs:541-575 | a first marker can still be written at some time if and only if the claimed version is current and the stored clock is before expiry and within the freshness budget |
| SqliteTheorems.ChangeBlocksForever | crates/effect-transaction-sqlite/src/lib.rs:556-575 | once its key has moved to a newer version, a claim without a marker never gets one |
| SqliteTheorems.MarkerIsFinal | crates/effect-transaction-sqlite/src/lib.rs:88-97 | a marked claim is never changed again |
| SqliteTheorems.TimesAreBounded | crates/effect-transaction-sqlite/src/lib.rs:424-589 | claim and marker times lie in all four record windows, and the stored clock is their maximum |
| SqliteTheorems.RowsAlwaysVerify | crates/effect-transaction-sqlite/src/lib.rs:658-713 | in every reachable state the rows of each grant form a bundle the verifier accepts, with its contiguous bounded history |
| SqliteRuns.LifecycleReads | crates/effect-transaction-sqlite/src/lib.rs:721-757 | a lifecycle can be read if and only if the grant is registered and its receipt agrees with its marker, and it is then what the rows hold |
| SplitReads.SplitFailsExactly | crates/effect-transaction-sqlite/src/lib.rs:721-757 | a lifecycle read with writers between its queries fails if and only if the receipt it finds has no claim yet in the earlier query, or another marker |
| SplitReads.SplitReadsOneMoment | crates/effect-transaction-sqlite/src/lib.rs:721-757 | what such a read returns is the lifecycle of the claim query if it has no receipt, and otherwise that of its end, if readable then |
| SplitReads.SplitReadsMomentExactly | crates/effect-transaction-sqlite/src/lib.rs:721-757 | what it returns is the lifecycle of some moment of the read if and only if it has no receipt, or the lifecycle is readable at the end, or its history has not grown since the marker; with `not_dispatched` it always is |
| SplitReads.SplitClaimOneMoment | crates/effect-transaction-executor/src/lib.rs:715-778 | the claim that recovery goes by is always that of a readable lifecycle at the moment of the claim query |
| Simulation.StepSimulates | crates/effect-transaction-sqlite/src/lib.rs:281-713 | each committed transaction is one successful in-memory call or none |
| Simulation.DurableRunsRefine | crates/effect-transaction-core/src/lib.rs:710-950 | every durable run is a run of the simple store made of successful calls only |
| DurableReplay.DurableExactly | crates/effect-transaction-sqlite/src/lib.rs:281-713 | a bundle can become the rows of a grant if and only if it is accepted, its dispatch precedes expiry and its record hashes differ |
| DurableReplay.LateDispatchAccepted | crates/effect-transaction-core/src/lib.rs:469-496 | a dispatch reported at expiry is accepted by the verifier and cannot be stored |
| Authority.VerifyExactly | crates/effect-transaction-authority/src/lib.rs:344-486 | verification yields the signed statement if and only if statement, key and context are well-formed and the statement is of the key, for exactly this record, role and audience, of the same epochs, issued under a valid key and live now |
| Executor.PreparedExactly | crates/effect-transaction-executor/src/lib.rs:173-264 | an effect is prepared exactly from a lawful chain and documents of at most a mebibyte with the committed digests |
| Executor.AuthorizeExactly | crates/effect-transaction-executor/src/lib.rs:542-603 | the checks before authorization pass exactly for a fresh snapshot of the epochs of the task, a grant for the audience of the policy, and an endorsement of it for role and audience of the policy |
| Executor.BeginExactly | crates/effect-transaction-executor/src/lib.rs:613-650 | the checks before dispatch pass exactly for an endorsement of the grant with the evidence of the claim |
| ExecutorRuns.EventsKeep | crates/effect-transaction-executor/src/lib.rs:394-415 | in every interleaving with crashes each claim has one holder and each token agrees with the database |
| ExecutorTheorems.AtMostOncePerProposal | crates/effect-transaction-executor/src/lib.rs:542-650 | the adapter is invoked at most once per proposal, with a durable marker and the effect and documents the stored chain commits to |
| ExecutorTheorems.MarkerComesFirst | crates/effect-transaction-executor/src/lib.rs:394-415 | whenever an event invokes the adapter, the database already holds the marker of that grant and attempt |
| ExecutorTheorems.CapabilitiesInTime | crates/effect-transaction-executor/src/lib.rs:613-650 | a marker of `begin_dispatch` lies inside the record, assertion and key windows and within the freshness budget of the claimed snapshot |
| Provenance.InvocationsLawful | crates/effect-transaction-executor/src/lib.rs:394-415 | in every reachable world every invocation is for a stored lawful chain, whose decision allows |
| Provenance.CapabilityOrigin | crates/effect-transaction-executor/src/lib.rs:613-650 | in every reachable world each capability was begun under an assertion that names role and audience of the policy, issuer and key of the snapshot and the epoch of the task |
| Provenance.ReceiptOrigin | crates/effect-transaction-executor/src/lib.rs:658-778 | every receipt of a reachable world is field by field what one event of the run said: the claim holder, the handle holder with the outcome observed, or a recovery by its marker |
| Provenance.OutcomesAreObserved | crates/effect-transaction-executor/src/lib.rs:424-434 | a stored success or failure was reported as such by the holder of the handle of an invocation |
| ExecutorTheorems.NotDispatchedIsTrue | crates/effect-transaction-executor/src/lib.rs:658-678 | when a receipt without a dispatch time is recorded no invocation has happened |
| SqliteTheorems.LifecycleFailsExactly | crates/effect-transaction-sqlite/src/lib.rs:1193-1206 | a lifecycle is unreadable if and only if a marker stands beside a receipt without a dispatch time |
| SqliteTheorems.LostForGood | crates/effect-transaction-sqlite/src/lib.rs:721-757 | an unreadable lifecycle stays unreadable over every later run |
| DispatchExactly.InvokedLaterExactly | crates/effect-transaction-executor/src/lib.rs:613-650 | in every reachable world an unmarked claim can still be invoked if and only if some live token could begin its dispatch, under a policy an executor can have |
| DispatchExactly.NotDispatchedForGoodExactly | crates/effect-transaction-sqlite/src/lib.rs:513-595 | a recorded receipt without a dispatch time stays true, and its lifecycle readable, over every continuation if and only if no live token could begin the dispatch |
| DispatchExactly.RecoveryPrematureExactly | crates/effect-transaction-executor/src/lib.rs:752-778 | a recovery that records `not_dispatched` is contradicted by some continuation if and only if, as it records, some live token could begin the dispatch |
| DispatchExactly.TruthfulExactly | crates/effect-transaction-executor/src/lib.rs:752-778 | a run never records `not_dispatched` while a live token could begin the dispatch if and only if at every moment of it all receipts without a dispatch time stay true over every continuation |
| DispatchExactly.NotDispatchedStaysTrue | crates/effect-transaction-executor/src/lib.rs:752-778 | waiting for the claim token to be gone is enough: no invocation ever follows and every lifecycle stays readable |
| DispatchExactly.SafeFromDatabase | crates/effect-transaction-sqlite/src/lib.rs:541-575 | where clock, expiry, freshness or version rule a marker out, no continuation invokes the adapter, whatever tokens are live |
| PrematureRecovery.PrematureRecoveryContradicts | crates/effect-transaction-sqlite/src/lib.rs:513-595 | for every dispatchable effect there is a run in which recovery beside its live claim token is followed by an invocation that the receipt denies |
| PrematureRecovery.ContradictionOccurs | crates/effect-transaction-sqlite/src/lib.rs:513-595 | a concrete protocol, signature scheme and effect with such a run |
| ExecutorObject.EffectTransactionExecutor.ObserveCurrentness | crates/effect-transaction-executor/src/lib.rs:521-530 | succeeds exactly for a fresh snapshot that the store accepts, which is then what its key maps to |
| ExecutorObject.EffectTransactionExecutor.AuthorizeAndClaim | crates/effect-transaction-executor/src/lib.rs:542-603 | hands out a claim exactly under an endorsement for role and audience of the policy and with its chain, snapshot and claim row stored; runs them as three events and keeps what committed when a later one fails |
| ExecutorObject.EffectTransactionExecutor.BeginDispatch | crates/effect-transaction-executor/src/lib.rs:613-650 | hands out a capability exactly if the grant is endorsed again with the evidence of the claim and the first marker of the attempt is then stored |
| ExecutorObject.EffectTransactionExecutor.DispatchWith | crates/effect-transaction-executor/src/lib.rs:394-415 | invokes the adapter once and keeps only the handle |
| ExecutorObject.EffectTransactionExecutor.RecordUndispatched | crates/effect-transaction-executor/src/lib.rs:658-678 | closes the attempt of the claim it holds with a `not_dispatched` receipt of the given time without a dispatch time |
| ExecutorObject.EffectTransactionExecutor.RecordOutcome | crates/effect-transaction-executor/src/lib.rs:685-703 | the stored receipt has the outcome the caller observed, with attempt, times and evidence of the handle |
| ExecutorObject.EffectTransactionExecutor.Recover | crates/effect-transaction-executor/src/lib.rs:715-778 | reads the lifecycle, then records `unknown` with the time of the marker, or `not_dispatched` where there is none, and nothing when the claim is another attempt's or its marker says otherwise |
| ExecutorObject.EffectTransactionExecutor.AppendReconciliationRecord | crates/effect-transaction-executor/src/lib.rs:786-793 | appends a reconciliation as one event |
| JsonPointer.PointerExact | profiles/validate-reference-profiles.mjs:405-412 | accepts exactly the RFC 6901 pointers below the root, and the two replacement passes decode each to its tokens |
| PatchForm.EscapedUnits | profiles/validate-reference-profiles.mjs:405-412 | a token escapes just `~` and `/`, as section 3 of RFC 6901 says |
| KubernetesPatch.ValidatePatch | profiles/validate-reference-profiles.mjs:501-526 | accepts exactly the patches with the two tests, permitted operations and a canonical write set equal to the mutated paths |
| PatchForm.AcceptedExactly | profiles/validate-reference-profiles.mjs:498-526 | the accepted patches as JSON: two tests, then only objects of four shapes on unprotected claimed paths, which are the write set in strictly ascending order |
| PatchForm.PlaceExactly | profiles/validate-reference-profiles.mjs:405-412 | a pointer leads to a value exactly by member names in objects and decimal positions in arrays |
| PatchForm.ProtectedExactly | profiles/validate-reference-profiles.mjs:414-423 | exactly three paths are protected |
| KubernetesPatch.ChangeTakes | profiles/validate-reference-profiles.mjs:517-526 | a change that applies has the effect of section 4 of RFC 6902 on the parent of its place, and no other there |
| KubernetesPatch.ChangeSucceeds | profiles/validate-reference-profiles.mjs:517-526 | a change applies exactly if its parent is there and can take it |
| PatchForm.AdditionApplies | profiles/validate-reference-profiles.mjs:517-526 | an `add` object adds its value at the place of its path |
| PatchForm.RemovalApplies | profiles/validate-reference-profiles.mjs:517-526 | a `remove` object removes what is at the place of its path |
| PatchForm.ReplacementApplies | profiles/validate-reference-profiles.mjs:517-526 | a `replace` object replaces what is at the place of its path |
| PatchForm.TestApplies | profiles/validate-reference-profiles.mjs:500-508 | a `test` object changes nothing and passes exactly if its value is at the place of its path |
| KubernetesPatch.IdentityKept | profiles/validate-reference-profiles.mjs:414-423 | whenever an accepted patch applies, the committed uid and resourceVersion are still there |
| KubernetesPatch.WriteSetBounds | profiles/validate-reference-profiles.mjs:509-526 | an accepted patch changes no place outside its write set, nor its absence, unless it adds or removes in an array at or before the position in which the place is counted |
| KubernetesPatch.SpecReplaced | profiles/validate-reference-profiles.mjs:500-526 | for every identity and version some accepted patch applies, and does what it says |
| Conformance.ReferenceLifecycleTarget.RegisterBundle | conformance/runner.ts:221-246 | registers any accepted bundle with a grant, once per grant identifier, decision and proposal |
| Conformance.ReferenceLifecycleTarget.TakeClaim | conformance/runner.ts:248-283 | moves the fence, then claims under the currentness checks |
| Conformance.ReferenceLifecycleTarget.Record | conformance/runner.ts:285-308 | records a verified receipt once |
| Conformance.OracleAgrees | conformance/runner.ts:215-313 | the oracle and the in-memory store give the same verdict on every call of every well-formed run |
| Conformance.ReceiptAgreesExactly | conformance/runner.ts:285-308 | for a receipt the two agree if and only if its identifier and hash name one grant or the store refuses it, since the oracle then refuses |
| Conformance.FreshOracleAgrees | conformance/runner.ts:215-313 | from the start, an oracle and a store give the same verdicts on every well-formed run |

## Left out

- Error kinds, messages and their priority: a rejection is `None` or `false`.
- SQLite itself, PRAGMAs, schema preflight, busy handling and file errors: transactions are atomic, durable and serialized, with the declared constraints.
- SHA-256, Ed25519, COSE and CBOR: `Authority` takes opening and verifying a signed statement as one arbitrary function.
- Text, token and nonce rules: arbitrary predicates shared by both languages; their Unicode whitespace classes differ between JavaScript and Rust.
- JSON Schema validation, unknown and missing fields and the difference between an absent and a null member: records and bundles are typed, with `Option` for optional parts.
- JSON values hold integers: numbers with a fraction, an exponent or the form `-0`, which the parser refuses, are spellings that never fit, and an object under a Kubernetes patch holds integers.
- The ancestor set that `canonicalizeInner` keeps against cyclic objects: values here are finite trees.
- Stored rows hold records, not bytes: reading a row back re-verifies the record but does not run the Rust deserializer.
- `move` and `copy` of RFC 6902: the validator refuses them, so no accepted patch contains one.
- HTTP target canonicalisation, Kubernetes target syntax, base64url and digests of patch bytes, postcondition matching and the rest of the profile validators.
- Mutex poisoning and thread scheduling inside one process: each store call is one step.
- Executor values are affine in the model by construction of its events; the Rust ownership rules that make them so are not modelled.
- ExecutorObject.EffectTransactionExecutor.Open: opening the database file is not modelled; the store is passed in.
- TsVerifier.VerifyTransaction: bundles are typed, so unknown, missing and null members, which the TypeScript verifier also refuses, are not covered.
- SqliteStore.SqliteEffectStore.GetLifecycle: the method reads one snapshot, while the source issues several SELECTs outside a transaction; `SplitReads` covers those on values.
- KubernetesPatch.WriteSetBounds: a place counted in an array at or behind a position where the patch adds or removes is renumbered, and is excluded; `-` counts as the position behind the last.
- Conformance.OracleAgrees: calls whose fields only the store checks (attempt identifiers, safe times, the grant passed by value) are assumed well-formed, because the oracle does not check them. A receipt that the store accepts for a grant other than the identifier names is excluded: there the two differ, as `Conformance.ReceiptAgreesExactly` states. So is one for a grant whose hash a later registered grant collides with. Registration is compared on bundles without a receipt, as the runner passes them and as the store takes them.
