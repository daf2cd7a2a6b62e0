/** The authentication repositories, which keep what `AuthProtocol` proves of every run. */
module AuthStore {
  import opened Common
  import opened AuthCeremonies
  import AuthProtocol

  /** The token's session, if it is live, is the one that is renewed. */
  lemma RenewalIsDetermined(t: Tables, tokenHash: string, now: Instant, idleLifetimeMs: int)
    requires AuthProtocol.SessionsOk(t.users, t.sessions)
    ensures forall s | s in t.sessions && Live(t.sessions[s], tokenHash, now) ::
              FindAndRenew(t, tokenHash, now, idleLifetimeMs) ==
              (t.(sessions := t.sessions[s := Renewed(t.sessions[s], now + idleLifetimeMs)]), Some(s))
    ensures (forall s | s in t.sessions :: !Live(t.sessions[s], tokenHash, now)) ==>
              FindAndRenew(t, tokenHash, now, idleLifetimeMs) == (t, None)
  {
    hide Renewed;
  }

  lemma RenewalKeeps(t: Tables, tokenHash: string, now: Instant, idleLifetimeMs: int, maximum: nat)
    requires AuthProtocol.TablesOk(t, maximum)
    ensures AuthProtocol.SessionsOk(t.users, t.sessions)
    ensures AuthProtocol.TablesOk(FindAndRenew(t, tokenHash, now, idleLifetimeMs).0, maximum)
  {
    AuthProtocol.StepKeepsTables(t, AuthProtocol.RenewSession(tokenHash, now, idleLifetimeMs), maximum);
    assert AuthProtocol.SessionsOk(t.users, t.sessions);
    hide AuthProtocol.TablesOk, AuthProtocol.Extends, AuthProtocol.SessionsOk, FindAndRenew;
  }

  lemma RevocationIsDetermined(t: Tables, tokenHash: string, at: Instant)
    requires AuthProtocol.SessionsOk(t.users, t.sessions)
    ensures forall s | s in t.sessions && Revocable(t.sessions[s], tokenHash) ::
              Revoke(t, tokenHash, at) == (t.(sessions := t.sessions[s := t.sessions[s].(revokedAt := Some(at))]), true)
    ensures (forall s | s in t.sessions :: !Revocable(t.sessions[s], tokenHash)) ==> Revoke(t, tokenHash, at) == (t, false)
  {
  }

  lemma RevocationKeeps(t: Tables, tokenHash: string, at: Instant, maximum: nat)
    requires AuthProtocol.TablesOk(t, maximum)
    ensures AuthProtocol.SessionsOk(t.users, t.sessions)
    ensures AuthProtocol.TablesOk(Revoke(t, tokenHash, at).0, maximum)
  {
    AuthProtocol.StepKeepsTables(t, AuthProtocol.RevokeSession(tokenHash, at), maximum);
    assert AuthProtocol.SessionsOk(t.users, t.sessions);
    hide AuthProtocol.TablesOk, AuthProtocol.Extends, AuthProtocol.SessionsOk, Revoke;
  }

  lemma ConsumptionKeeps(t: Tables, c: Consumption, maximum: nat)
    requires AuthProtocol.TablesOk(t, maximum)
    ensures AuthProtocol.TablesOk(Consume(t, c, maximum).0, maximum)
  {
    AuthProtocol.ConsumeKeepsTables(t, c, maximum);
  }

  lemma LinkKeeps(t: Tables, r: LinkRequest, maximum: nat)
    requires AuthProtocol.TablesOk(t, maximum)
    ensures AuthProtocol.TablesOk(CompleteLink(t, r).0, maximum)
  {
    AuthProtocol.LinkKeepsTables(t, r, maximum);
  }

  lemma UnlinkKeeps(t: Tables, r: UnlinkRequest, maximum: nat)
    requires AuthProtocol.TablesOk(t, maximum)
    ensures AuthProtocol.TablesOk(Unlink(t, r).0, maximum)
  {
    AuthProtocol.UnlinkKeepsTables(t, r, maximum);
  }

  lemma StepKeeps(t: Tables, a: AuthProtocol.Action, maximum: nat)
    requires AuthProtocol.TablesOk(t, maximum)
    ensures AuthProtocol.TablesOk(AuthProtocol.After(t, a, maximum), maximum)
  {
    AuthProtocol.StepKeepsTables(t, a, maximum);
  }

  /** All callers pass one policy's maximum of attempts. */
  class AuthRepository {
    const maximumAttempts: nat
    var users: set<Uuid>
    var identities: map<Wallet, Uuid>
    var walletChallenges: map<Uuid, WalletChallenge>
    var passkeyChallenges: map<Uuid, PasskeyChallenge>
    var credentials: map<string, Uuid>
    var sessions: map<Uuid, Session>
    var events: seq<SecurityEvent>

    ghost function State(): Tables
      reads this
    {
      Tables(users, identities, walletChallenges, passkeyChallenges, credentials, sessions, events)
    }

    ghost predicate Valid()
      reads this
    {
      AuthProtocol.TablesOk(State(), maximumAttempts)
    }

    constructor (maximumAttempts: nat)
      ensures State() == NO_ROWS && Valid() && this.maximumAttempts == maximumAttempts
    {
      this.maximumAttempts := maximumAttempts;
      users, identities, walletChallenges, passkeyChallenges := {}, map[], map[], map[];
      credentials, sessions, events := map[], map[], [];
    }

    method IssueWalletChallenge(id: Uuid, terms: WalletTerms, expiresAt: Instant)
      requires Valid()
      modifies this
      ensures State() == IssueWallet(old(State()), id, terms, expiresAt)
      ensures Valid()
    {
      StepKeeps(State(), AuthProtocol.IssueWalletChallenge(id, terms, expiresAt), maximumAttempts);
      hide AuthProtocol.TablesOk;
      if || id in walletChallenges
         || (exists c | c in walletChallenges :: walletChallenges[c].terms.nonce == terms.nonce)
         || (terms.expectedUserId.Some? && terms.expectedUserId.value !in users)
         || expiresAt <= terms.issuedAt {
        return;
      }
      walletChallenges := walletChallenges[id := WalletChallenge(terms, expiresAt, 0, None)];
    }

    method FailAttempt(id: Uuid)
      requires Valid()
      modifies this
      ensures State() == IncrementFailedAttempt(old(State()), id, maximumAttempts)
      ensures Valid()
    {
      StepKeeps(State(), AuthProtocol.FailAttempt(id), maximumAttempts);
      hide AuthProtocol.TablesOk;
      if id in walletChallenges {
        var c := walletChallenges[id];
        if c.consumedAt.None? && c.attempts < maximumAttempts {
          walletChallenges := walletChallenges[id := c.(attempts := c.attempts + 1)];
        }
      }
    }

    method ConsumeChallenge(c: Consumption) returns (result: ConsumeResult)
      requires Valid()
      modifies this
      ensures (State(), result) == Consume(old(State()), c, maximumAttempts)
      ensures Valid()
    {
      ConsumptionKeeps(State(), c, maximumAttempts);
      hide AuthProtocol.TablesOk;
      hide SessionFits, RevokeAll, NewSession, ResolveUser;
      if c.challengeId !in walletChallenges || walletChallenges[c.challengeId].consumedAt.Some? {
        return Unavailable;
      }
      var locked := walletChallenges[c.challengeId];
      if locked.expiresAt <= c.now {
        return Expired;
      }
      if locked.attempts >= maximumAttempts || locked.terms != c.terms {
        return Invalid;
      }
      var user := ResolveUser(users, identities, c.terms, c.newUserId);
      if user.Refused? {
        return IdentityConflict;
      }
      if user.Collided? {
        return ConsumeFailed;
      }
      var kept := sessions;
      if c.terms.action != SignIn {
        kept := RevokeAll(sessions, user.userId, c.now);
      }
      if !SessionFits(user.users, kept, c.sessionId, user.userId, c.material) {
        return ConsumeFailed;
      }
      users, identities := user.users, user.identities;
      walletChallenges := walletChallenges[c.challengeId := locked.(consumedAt := Some(c.now))];
      sessions := kept[c.sessionId := NewSession(user.userId, c.material)];
      return Consumed(user.userId);
    }

    method IssuePasskeyChallenge(id: Uuid, terms: PasskeyTerms)
      requires Valid()
      modifies this
      ensures State() == IssuePasskey(old(State()), id, terms)
      ensures Valid()
    {
      StepKeeps(State(), AuthProtocol.IssuePasskeyChallenge(id, terms), maximumAttempts);
      hide AuthProtocol.TablesOk;
      if id in passkeyChallenges || terms.userId !in users || terms.sessionId !in sessions || terms.expiresAt <= terms.issuedAt {
        return;
      }
      passkeyChallenges := passkeyChallenges[id := PasskeyChallenge(terms, None)];
    }

    method LinkPasskey(r: LinkRequest) returns (result: LinkResult)
      requires Valid()
      modifies this
      ensures (State(), result) == CompleteLink(old(State()), r)
      ensures Valid()
    {
      LinkKeeps(State(), r, maximumAttempts);
      hide AuthProtocol.TablesOk;
      hide SessionFits, RevokeAll, NewSession, Active;
      if r.challengeId !in passkeyChallenges || passkeyChallenges[r.challengeId].consumedAt.Some? {
        return Replayed;
      }
      var locked := passkeyChallenges[r.challengeId];
      if locked.terms != r.terms || locked.terms.expiresAt <= r.now {
        return InvalidLink;
      }
      if !Active(sessions, r.terms.sessionId, r.terms.userId, r.minimumAuthenticatedAt, r.now) {
        return InvalidLink;
      }
      var consumed := passkeyChallenges[r.challengeId := locked.(consumedAt := Some(r.now))];
      if r.credentialId in credentials {
        passkeyChallenges := consumed;
        return Conflict;
      }
      var kept := RevokeAll(sessions, r.terms.userId, r.now);
      if !SessionFits(users, kept, r.sessionId, r.terms.userId, r.material) {
        return LinkFailed;
      }
      passkeyChallenges := consumed;
      credentials := credentials[r.credentialId := r.terms.userId];
      sessions := kept[r.sessionId := NewSession(r.terms.userId, r.material)];
      events := events + [SecurityEvent(PasskeyLinked, r.terms.userId, r.terms.sessionId, r.credentialId)];
      return Linked;
    }

    method UnlinkPasskey(r: UnlinkRequest) returns (result: UnlinkResult)
      requires Valid()
      modifies this
      ensures (State(), result) == Unlink(old(State()), r)
      ensures Valid()
    {
      UnlinkKeeps(State(), r, maximumAttempts);
      hide AuthProtocol.TablesOk;
      hide SessionFits, RevokeAll, NewSession, Active, HasWallet;
      if !Active(sessions, r.sessionId, r.userId, r.minimumAuthenticatedAt, r.now) {
        return Missing;
      }
      if r.credentialId !in credentials || credentials[r.credentialId] != r.userId {
        return Missing;
      }
      if !HasWallet(identities, r.userId) {
        return FinalMethod;
      }
      var kept := RevokeAll(sessions, r.userId, r.now);
      if !SessionFits(users, kept, r.newSessionId, r.userId, r.material) {
        return UnlinkFailed;
      }
      credentials := credentials - {r.credentialId};
      sessions := kept[r.newSessionId := NewSession(r.userId, r.material)];
      events := events + [SecurityEvent(PasskeyUnlinked, r.userId, r.sessionId, r.credentialId)];
      return Unlinked;
    }

    method RenewSession(tokenHash: string, now: Instant, idleLifetimeMs: int) returns (found: Option<Uuid>)
      requires Valid()
      modifies this
      ensures (State(), found) == FindAndRenew(old(State()), tokenHash, now, idleLifetimeMs)
      ensures Valid()
    {
      RenewalKeeps(State(), tokenHash, now, idleLifetimeMs, maximumAttempts);
      hide AuthProtocol.TablesOk, AuthProtocol.SessionsOk, FindAndRenew, Live, Renewed;
      RenewalIsDetermined(State(), tokenHash, now, idleLifetimeMs);
      if s :| s in sessions && Live(sessions[s], tokenHash, now) {
        sessions := sessions[s := Renewed(sessions[s], now + idleLifetimeMs)];
        return Some(s);
      }
      return None;
    }

    method RevokeSession(tokenHash: string, at: Instant) returns (revoked: bool)
      requires Valid()
      modifies this
      ensures (State(), revoked) == Revoke(old(State()), tokenHash, at)
      ensures Valid()
    {
      RevocationKeeps(State(), tokenHash, at, maximumAttempts);
      hide AuthProtocol.TablesOk, AuthProtocol.SessionsOk, Revoke, Revocable;
      RevocationIsDetermined(State(), tokenHash, at);
      if s :| s in sessions && Revocable(sessions[s], tokenHash) {
        sessions := sessions[s := sessions[s].(revokedAt := Some(at))];
        return true;
      }
      return false;
    }
  }
}
