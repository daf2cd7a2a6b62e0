/**
 Wallet sign-in, passkey linking and sessions: the tables of the authentication repositories and their transactions. The
 signature checks that precede a transaction are not part of this model; rows and sessions take the ids they are given,
 and an insert that breaks a unique index, a reference or a check rolls the whole transaction back.
 */
module AuthCeremonies {
  import opened Common

  datatype WalletAction = SignIn | LinkWallet | StepUp
  datatype Network = Mainnet | Signet
  datatype Wallet = Wallet(network: Network, scriptIdentity: string)

  /** Everything about a wallet challenge that its consumption compares with the stored row. */
  datatype WalletTerms = WalletTerms(
    action: WalletAction, address: string, domain: string, expectedUserId: Option<Uuid>, issuedAt: Instant,
    messageHash: string, wallet: Wallet, nonce: string, origin: string, requestId: Uuid, uri: string, walletAdapter: string)

  datatype WalletChallenge = WalletChallenge(terms: WalletTerms, expiresAt: Instant, attempts: nat, consumedAt: Option<Instant>)

  datatype PasskeyTerms = PasskeyTerms(
    userId: Uuid, sessionId: Uuid, challengeHash: string, issuedAt: Instant, origin: string, relyingPartyId: string,
    expiresAt: Instant)

  datatype PasskeyChallenge = PasskeyChallenge(terms: PasskeyTerms, consumedAt: Option<Instant>)

  datatype SessionMaterial = SessionMaterial(tokenHash: string, authenticatedAt: Instant, idleExpiresAt: Instant,
                                             absoluteExpiresAt: Instant)

  datatype Session = Session(userId: Uuid, tokenHash: string, authenticatedAt: Instant, idleExpiresAt: Instant,
                             absoluteExpiresAt: Instant, revokedAt: Option<Instant>)

  datatype SecurityAction = PasskeyLinked | PasskeyUnlinked
  datatype SecurityEvent = SecurityEvent(action: SecurityAction, actor: Uuid, sessionId: Uuid, credentialId: string)

  /** `identities` is keyed by its unique index, and `credentials`, the owner of each, by theirs. */
  datatype Tables = Tables(
    users: set<Uuid>,
    identities: map<Wallet, Uuid>,
    walletChallenges: map<Uuid, WalletChallenge>,
    passkeyChallenges: map<Uuid, PasskeyChallenge>,
    credentials: map<string, Uuid>,
    sessions: map<Uuid, Session>,
    events: seq<SecurityEvent>)

  const NO_ROWS := Tables({}, map[], map[], map[], map[], map[], [])

  // ----- Sessions -----

  predicate SessionFits(users: set<Uuid>, sessions: map<Uuid, Session>, id: Uuid, user: Uuid, m: SessionMaterial) {
    && user in users
    && id !in sessions
    && m.idleExpiresAt <= m.absoluteExpiresAt
    && forall s | s in sessions :: sessions[s].tokenHash != m.tokenHash
  }

  function NewSession(user: Uuid, m: SessionMaterial): Session {
    Session(user, m.tokenHash, m.authenticatedAt, m.idleExpiresAt, m.absoluteExpiresAt, None)
  }

  function Ended(s: Session, user: Uuid, now: Instant): Session {
    if s.userId == user && s.revokedAt.None? then s.(revokedAt := Some(now)) else s
  }

  function RevokeAll(sessions: map<Uuid, Session>, user: Uuid, now: Instant): map<Uuid, Session> {
    map s | s in sessions :: Ended(sessions[s], user, now)
  }

  /** The row that `lockActiveSession` finds and locks. */
  predicate Active(sessions: map<Uuid, Session>, id: Uuid, user: Uuid, minimumAuthenticatedAt: Instant, now: Instant) {
    && id in sessions
    && sessions[id].userId == user
    && sessions[id].revokedAt.None?
    && sessions[id].idleExpiresAt > now
    && sessions[id].absoluteExpiresAt > now
    && minimumAuthenticatedAt <= sessions[id].authenticatedAt <= now
  }

  predicate Live(s: Session, tokenHash: string, now: Instant) {
    s.tokenHash == tokenHash && s.revokedAt.None? && s.idleExpiresAt > now && s.absoluteExpiresAt > now
  }

  function Renewed(s: Session, requestedIdleExpiry: Instant): Session {
    s.(idleExpiresAt := if requestedIdleExpiry < s.absoluteExpiresAt then requestedIdleExpiry else s.absoluteExpiresAt)
  }

  ghost function FindAndRenew(t: Tables, tokenHash: string, now: Instant, idleLifetimeMs: int): (Tables, Option<Uuid>) {
    if s :| s in t.sessions && Live(t.sessions[s], tokenHash, now)
    then (t.(sessions := t.sessions[s := Renewed(t.sessions[s], now + idleLifetimeMs)]), Some(s))
    else (t, None)
  }

  predicate Revocable(s: Session, tokenHash: string) {
    s.tokenHash == tokenHash && s.revokedAt.None?
  }

  ghost function Revoke(t: Tables, tokenHash: string, at: Instant): (Tables, bool) {
    if s :| s in t.sessions && Revocable(t.sessions[s], tokenHash)
    then (t.(sessions := t.sessions[s := t.sessions[s].(revokedAt := Some(at))]), true)
    else (t, false)
  }

  // ----- Wallet challenges -----

  predicate WalletChallengeFits(t: Tables, id: Uuid, terms: WalletTerms, expiresAt: Instant) {
    && id !in t.walletChallenges
    && terms.issuedAt < expiresAt
    && (terms.expectedUserId.Some? ==> terms.expectedUserId.value in t.users)
    && forall c | c in t.walletChallenges :: t.walletChallenges[c].terms.nonce != terms.nonce
  }

  function IssueWallet(t: Tables, id: Uuid, terms: WalletTerms, expiresAt: Instant): Tables {
    if WalletChallengeFits(t, id, terms, expiresAt)
    then t.(walletChallenges := t.walletChallenges[id := WalletChallenge(terms, expiresAt, 0, None)]) else t
  }

  function IncrementFailedAttempt(t: Tables, id: Uuid, maximum: nat): Tables {
    if id in t.walletChallenges && t.walletChallenges[id].consumedAt.None? && t.walletChallenges[id].attempts < maximum
    then
      var c := t.walletChallenges[id];
      t.(walletChallenges := t.walletChallenges[id := c.(attempts := c.attempts + 1)])
    else t
  }

  datatype Resolution =
    | Refused
    | Collided
    | Resolved(users: set<Uuid>, identities: map<Wallet, Uuid>, userId: Uuid)

  /** The user a wallet signs in as: the one bound to it, or the expected one or a new one, to whom it is then bound. */
  function ResolveUser(users: set<Uuid>, identities: map<Wallet, Uuid>, terms: WalletTerms, newUserId: Uuid): Resolution {
    if terms.wallet in identities then
      var userId := identities[terms.wallet];
      if terms.expectedUserId.Some? && terms.expectedUserId.value != userId then Refused
      else Resolved(users, identities, userId)
    else if terms.action == StepUp then Refused
    else
      match terms.expectedUserId
      case Some(expected) =>
        if expected !in users then Refused
        else Resolved(users, identities[terms.wallet := expected], expected)
      case None =>
        if terms.action != SignIn then Refused
        else if newUserId in users then Collided
        else Resolved(users + {newUserId}, identities[terms.wallet := newUserId], newUserId)
  }

  datatype Consumption = Consumption(challengeId: Uuid, terms: WalletTerms, material: SessionMaterial, now: Instant,
                                     newUserId: Uuid, sessionId: Uuid)

  datatype ConsumeResult = Consumed(userId: Uuid) | Unavailable | Expired | Invalid | IdentityConflict | ConsumeFailed

  function Consume(t: Tables, c: Consumption, maximum: nat): (Tables, ConsumeResult) {
    if c.challengeId !in t.walletChallenges || t.walletChallenges[c.challengeId].consumedAt.Some? then (t, Unavailable)
    else
      var locked := t.walletChallenges[c.challengeId];
      if locked.expiresAt <= c.now then (t, Expired)
      else if locked.attempts >= maximum || locked.terms != c.terms then (t, Invalid)
      else
        match ResolveUser(t.users, t.identities, c.terms, c.newUserId)
        case Refused => (t, IdentityConflict)
        case Collided => (t, ConsumeFailed)
        case Resolved(users, identities, userId) =>
          var kept := if c.terms.action != SignIn then RevokeAll(t.sessions, userId, c.now) else t.sessions;
          if !SessionFits(users, kept, c.sessionId, userId, c.material) then (t, ConsumeFailed)
          else
            (t.(users := users,
                identities := identities,
                walletChallenges := t.walletChallenges[c.challengeId := locked.(consumedAt := Some(c.now))],
                sessions := kept[c.sessionId := NewSession(userId, c.material)]),
             Consumed(userId))
  }

  // ----- Passkey challenges -----

  predicate PasskeyChallengeFits(t: Tables, id: Uuid, terms: PasskeyTerms) {
    id !in t.passkeyChallenges && terms.userId in t.users && terms.sessionId in t.sessions && terms.issuedAt < terms.expiresAt
  }

  function IssuePasskey(t: Tables, id: Uuid, terms: PasskeyTerms): Tables {
    if PasskeyChallengeFits(t, id, terms)
    then t.(passkeyChallenges := t.passkeyChallenges[id := PasskeyChallenge(terms, None)]) else t
  }

  datatype LinkRequest = LinkRequest(challengeId: Uuid, terms: PasskeyTerms, credentialId: string,
                                     minimumAuthenticatedAt: Instant, now: Instant, material: SessionMaterial, sessionId: Uuid)

  datatype LinkResult = Linked | Replayed | InvalidLink | Conflict | LinkFailed

  function CompleteLink(t: Tables, r: LinkRequest): (Tables, LinkResult) {
    if r.challengeId !in t.passkeyChallenges || t.passkeyChallenges[r.challengeId].consumedAt.Some? then (t, Replayed)
    else
      var locked := t.passkeyChallenges[r.challengeId];
      if locked.terms != r.terms || locked.terms.expiresAt <= r.now then (t, InvalidLink)
      else if !Active(t.sessions, r.terms.sessionId, r.terms.userId, r.minimumAuthenticatedAt, r.now) then (t, InvalidLink)
      else
        var consumed := t.(passkeyChallenges := t.passkeyChallenges[r.challengeId := locked.(consumedAt := Some(r.now))]);
        if r.credentialId in t.credentials then (consumed, Conflict)
        else
          var kept := RevokeAll(t.sessions, r.terms.userId, r.now);
          if !SessionFits(t.users, kept, r.sessionId, r.terms.userId, r.material) then (t, LinkFailed)
          else
            (consumed.(credentials := t.credentials[r.credentialId := r.terms.userId],
                       sessions := kept[r.sessionId := NewSession(r.terms.userId, r.material)],
                       events := t.events +
                                 [SecurityEvent(PasskeyLinked, r.terms.userId, r.terms.sessionId, r.credentialId)]),
             Linked)
  }

  datatype UnlinkRequest = UnlinkRequest(credentialId: string, minimumAuthenticatedAt: Instant, now: Instant,
                                         material: SessionMaterial, newSessionId: Uuid, sessionId: Uuid, userId: Uuid)

  datatype UnlinkResult = Unlinked | Missing | FinalMethod | UnlinkFailed

  predicate HasWallet(identities: map<Wallet, Uuid>, user: Uuid) {
    exists w | w in identities :: identities[w] == user
  }

  function Unlink(t: Tables, r: UnlinkRequest): (Tables, UnlinkResult) {
    if !Active(t.sessions, r.sessionId, r.userId, r.minimumAuthenticatedAt, r.now) then (t, Missing)
    else if r.credentialId !in t.credentials || t.credentials[r.credentialId] != r.userId then (t, Missing)
    else if !HasWallet(t.identities, r.userId) then (t, FinalMethod)
    else
      var kept := RevokeAll(t.sessions, r.userId, r.now);
      if !SessionFits(t.users, kept, r.newSessionId, r.userId, r.material) then (t, UnlinkFailed)
      else
        (t.(credentials := t.credentials - {r.credentialId},
            sessions := kept[r.newSessionId := NewSession(r.userId, r.material)],
            events := t.events + [SecurityEvent(PasskeyUnlinked, r.userId, r.sessionId, r.credentialId)]),
         Unlinked)
  }
}
