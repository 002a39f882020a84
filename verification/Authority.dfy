/** Authority assertions: what an accepted assertion says about the moment of use. */
module Authority {
  import opened Unicode
  import opened Json
  import opened Records

  const MAX_ASSERTION_LIFETIME_MS: u64 := 300_000
  const MAX_AUTHORITY_SNAPSHOT_AGE_MS: u64 := 300_000

  datatype RecordKind =
    | TaskCommitment | EffectProposal | AuthorizationDecision | ExecutionGrant | EffectReceipt | ReconciliationRecord

  datatype Statement = Statement(
    version: u64, authorityProfile: Units,
    statementId: Units, issuer: Units, keyId: Units, role: Units, audience: Units,
    recordProfile: Units, recordVersion: u64, recordKind: RecordKind, recordDigest: Digest,
    issuedAt: u64, notBefore: u64, expiresAt: u64, authorityEpoch: u64, configurationEpoch: u64)

  datatype AuthoritySnapshot = AuthoritySnapshot(
    issuer: Units, keyId: Units, publicKey: Bytes, authorizedRoles: set<Units>, authorizedAudiences: set<Units>,
    authorityEpoch: u64, configurationEpoch: u64, keyValidFrom: u64, keyValidUntil: u64,
    revokedAt: Option<u64>, observedAt: u64)

  datatype Context = Context(
    recordProfile: Units, recordVersion: u64, recordKind: RecordKind, recordDigest: Digest,
    role: Units, audience: Units, now: u64, maximumAge: u64)

  /** Signatures and digests are arbitrary: `open` yields the statement of an
      encoding that is well formed, canonical and signed under the key. */
  datatype Crypto = Crypto(
    open: (Bytes, Bytes) -> Option<Statement>, usableKey: Bytes -> bool, digest: Bytes -> Digest)

  function AuthorityProfile(): Units { Ascii("effect-transaction/authority/") + Ascii("cose-sign1-ed25519/0.1") }

  predicate ValidStatement(k: Protocol, s: Statement) {
    s.version == 1 && s.authorityProfile == AuthorityProfile()
    && k.text(s.statementId, 256) && k.text(s.issuer, 512) && k.text(s.keyId, 256)
    && k.token(s.role) && k.token(s.recordProfile) && k.text(s.audience, 512)
    && 0 < s.recordVersion <= MAX_SAFE_INTEGER
    && SafeTime(s.issuedAt) && SafeTime(s.notBefore) && SafeTime(s.expiresAt)
    && SafeTime(s.authorityEpoch) && SafeTime(s.configurationEpoch)
    && s.issuedAt <= s.notBefore < s.expiresAt && s.expiresAt - s.notBefore <= MAX_ASSERTION_LIFETIME_MS
  }

  predicate ValidSnapshot(k: Protocol, c: Crypto, s: AuthoritySnapshot) {
    k.text(s.issuer, 512) && k.text(s.keyId, 256)
    && s.authorizedRoles != {} && s.authorizedAudiences != {}
    && (forall role | role in s.authorizedRoles :: k.token(role))
    && (forall audience | audience in s.authorizedAudiences :: k.text(audience, 512))
    && SafeTime(s.authorityEpoch) && SafeTime(s.configurationEpoch)
    && SafeTime(s.keyValidFrom) && SafeTime(s.keyValidUntil) && SafeTime(s.observedAt)
    && (s.revokedAt.Some? ==> SafeTime(s.revokedAt.value))
    && s.keyValidFrom < s.keyValidUntil && c.usableKey(s.publicKey)
  }

  predicate ValidContext(k: Protocol, x: Context) {
    k.token(x.recordProfile) && k.token(x.role) && k.text(x.audience, 512)
    && 0 < x.recordVersion <= MAX_SAFE_INTEGER && SafeTime(x.now) && x.maximumAge <= MAX_AUTHORITY_SNAPSHOT_AGE_MS
  }

  predicate VerifyBindings(s: Statement, a: AuthoritySnapshot, x: Context) {
    a.observedAt <= x.now && x.now - a.observedAt <= x.maximumAge
    && a.observedAt >= s.issuedAt
    && s.notBefore <= x.now < s.expiresAt
    && a.keyValidFrom <= x.now < a.keyValidUntil
    && a.keyValidFrom <= s.issuedAt < a.keyValidUntil
    && !(a.revokedAt.Some? && a.revokedAt.value <= x.now)
    && s.authorityEpoch == a.authorityEpoch && s.configurationEpoch == a.configurationEpoch
    && s.role == x.role && s.role in a.authorizedRoles
    && s.audience == x.audience && s.audience in a.authorizedAudiences
    && s.recordProfile == x.recordProfile && s.recordVersion == x.recordVersion
    && s.recordKind == x.recordKind && s.recordDigest == x.recordDigest
  }

  /** `verify_authority`. */
  function VerifyAuthority(k: Protocol, c: Crypto, encoded: Bytes, a: AuthoritySnapshot, x: Context)
    : Option<Statement>
  {
    if !ValidContext(k, x) || !ValidSnapshot(k, c, a) then None
    else
      var found := c.open(encoded, a.publicKey);
      if found.None? || !ValidStatement(k, found.value) then None
      else if found.value.issuer != a.issuer || found.value.keyId != a.keyId then None
      else if !VerifyBindings(found.value, a, x) then None
      else found
  }

  // ---- What an accepted assertion says ----

  const LAST_SAFE: u64 := 9_007_199_254_740_991

  predicate LawfulStatement(k: Protocol, s: Statement) {
    s.version == 1 && s.authorityProfile == Ascii("effect-transaction/authority/") + Ascii("cose-sign1-ed25519/0.1")
    && k.text(s.statementId, 256) && k.text(s.issuer, 512) && k.text(s.keyId, 256) && k.text(s.audience, 512)
    && k.token(s.role) && k.token(s.recordProfile) && 1 <= s.recordVersion <= LAST_SAFE
    && s.authorityEpoch <= LAST_SAFE && s.configurationEpoch <= LAST_SAFE
    && s.issuedAt <= s.notBefore < s.expiresAt <= LAST_SAFE && s.expiresAt - s.notBefore <= 300_000
  }

  predicate LawfulKey(k: Protocol, c: Crypto, a: AuthoritySnapshot) {
    k.text(a.issuer, 512) && k.text(a.keyId, 256) && c.usableKey(a.publicKey)
    && a.authorizedRoles != {} && (forall role | role in a.authorizedRoles :: k.token(role))
    && a.authorizedAudiences != {} && (forall audience | audience in a.authorizedAudiences :: k.text(audience, 512))
    && a.authorityEpoch <= LAST_SAFE && a.configurationEpoch <= LAST_SAFE && a.observedAt <= LAST_SAFE
    && a.keyValidFrom < a.keyValidUntil <= LAST_SAFE && (a.revokedAt.Some? ==> a.revokedAt.value <= LAST_SAFE)
  }

  predicate LawfulContext(k: Protocol, x: Context) {
    k.token(x.recordProfile) && 1 <= x.recordVersion <= LAST_SAFE && k.token(x.role) && k.text(x.audience, 512)
    && x.now <= LAST_SAFE && x.maximumAge <= 300_000
  }

  /** The statement is of the key and for exactly this record, role and audience,
      which the key may assert; the two agree on the epochs. */
  predicate SaysSo(s: Statement, a: AuthoritySnapshot, x: Context) {
    s.issuer == a.issuer && s.keyId == a.keyId
    && s.authorityEpoch == a.authorityEpoch && s.configurationEpoch == a.configurationEpoch
    && s.role == x.role && x.role in a.authorizedRoles
    && s.audience == x.audience && x.audience in a.authorizedAudiences
    && s.recordProfile == x.recordProfile && s.recordVersion == x.recordVersion
    && s.recordKind == x.recordKind && s.recordDigest == x.recordDigest
  }

  /** Issued while the key was valid, observed since then and not too long ago,
      and live now under a key still valid and unrevoked. */
  predicate SaysSoNow(s: Statement, a: AuthoritySnapshot, x: Context) {
    a.keyValidFrom <= s.issuedAt <= a.observedAt <= x.now <= a.observedAt + x.maximumAge
    && s.notBefore <= x.now < s.expiresAt && x.now < a.keyValidUntil
    && (a.revokedAt.Some? ==> x.now < a.revokedAt.value)
  }

  /** Verification yields the signed statement if and only if it says so, now. */
  lemma VerifyExactly(k: Protocol, c: Crypto, encoded: Bytes, a: AuthoritySnapshot, x: Context)
    ensures var signed := c.open(encoded, a.publicKey); var r := VerifyAuthority(k, c, encoded, a, x);
            (r.Some? <==>
               LawfulContext(k, x) && LawfulKey(k, c, a)
               && signed.Some? && LawfulStatement(k, signed.value)
               && SaysSo(signed.value, a, x) && SaysSoNow(signed.value, a, x))
            && (r.Some? ==> r == signed)
  {
    hide Ascii;
  }
}
