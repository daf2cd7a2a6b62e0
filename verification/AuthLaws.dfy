/**
 When each authentication transaction takes effect, and what it leaves in every table. The functions that the transactions
 are specified by appear only as the transaction itself.
 */
module AuthLaws {
  import opened Common
  import opened AuthCeremonies
  import opened AuthProtocol

  // ----- Sessions -----

  /** The ending of all of a user's sessions: each that was not revoked is revoked now, and nothing else changes. */
  ghost predicate EndedFor(sessions: map<Uuid, Session>, sessions': map<Uuid, Session>, user: Uuid, now: Instant) {
    forall s | s in sessions ::
      && s in sessions'
      && sessions'[s] == if sessions[s].userId == user && sessions[s].revokedAt == None
                         then sessions[s].(revokedAt := Some(now)) else sessions[s]
  }

  ghost predicate Untouched(sessions: map<Uuid, Session>, sessions': map<Uuid, Session>) {
    forall s | s in sessions :: s in sessions' && sessions'[s] == sessions[s]
  }

  /** Exactly one session is new: the user's, with the token and times given, and not revoked. */
  ghost predicate Begun(sessions: map<Uuid, Session>, sessions': map<Uuid, Session>, id: Uuid, user: Uuid, m: SessionMaterial) {
    && id !in sessions && sessions'.Keys == sessions.Keys + {id}
    && sessions'[id].userId == user && sessions'[id].revokedAt == None
    && sessions'[id].tokenHash == m.tokenHash && sessions'[id].authenticatedAt == m.authenticatedAt
    && sessions'[id].idleExpiresAt == m.idleExpiresAt && sessions'[id].absoluteExpiresAt == m.absoluteExpiresAt
  }

  /** A new session can be stored: its id and token are new and its times in order. */
  predicate CanBegin(sessions: map<Uuid, Session>, id: Uuid, m: SessionMaterial) {
    id !in sessions && m.idleExpiresAt <= m.absoluteExpiresAt && forall s | s in sessions :: sessions[s].tokenHash != m.tokenHash
  }

  lemma RevokedTokens(sessions: map<Uuid, Session>, user: Uuid, now: Instant, users: set<Uuid>, id: Uuid, m: SessionMaterial)
    ensures SessionFits(users, RevokeAll(sessions, user, now), id, user, m) <==> user in users && CanBegin(sessions, id, m)
    ensures SessionFits(users, sessions, id, user, m) <==> user in users && CanBegin(sessions, id, m)
  {
    var kept := RevokeAll(sessions, user, now);
    assert forall s | s in sessions :: kept[s].tokenHash == sessions[s].tokenHash;
  }

  lemma EndedAndBegun(sessions: map<Uuid, Session>, user: Uuid, now: Instant, id: Uuid, m: SessionMaterial)
    requires id !in sessions
    ensures var sessions' := RevokeAll(sessions, user, now)[id := NewSession(user, m)];
            EndedFor(sessions, sessions', user, now) && Begun(sessions, sessions', id, user, m)
    ensures var sessions' := sessions[id := NewSession(user, m)];
            Untouched(sessions, sessions') && Begun(sessions, sessions', id, user, m)
  {
  }

  // ----- Consuming a wallet challenge -----

  /** The challenge is there, unconsumed, in time, not out of attempts, and is the one that was signed. */
  predicate Open(t: Tables, c: Consumption, maximum: nat) {
    && c.challengeId in t.walletChallenges
    && t.walletChallenges[c.challengeId].consumedAt == None
    && c.now < t.walletChallenges[c.challengeId].expiresAt
    && t.walletChallenges[c.challengeId].attempts < maximum
    && t.walletChallenges[c.challengeId].terms == c.terms
  }

  /** Nobody may be signed in: the wallet is somebody else's than expected, or unbound where it may not be bound. */
  predicate Refuses(t: Tables, terms: WalletTerms) {
    || (terms.wallet in t.identities && terms.expectedUserId.Some? && t.identities[terms.wallet] != terms.expectedUserId.value)
    || (terms.wallet !in t.identities && terms.action == StepUp)
    || (terms.wallet !in t.identities && terms.expectedUserId == None && terms.action != SignIn)
    || (terms.wallet !in t.identities && terms.expectedUserId.Some? && terms.expectedUserId.value !in t.users)
  }

  /** A user has to be made. */
  predicate IsNewcomer(t: Tables, terms: WalletTerms) {
    terms.wallet !in t.identities && terms.expectedUserId == None && terms.action == SignIn
  }

  /** Whom the ceremony is for: the owner of the wallet, else the expected user, else a new one. */
  function SignedIn(t: Tables, c: Consumption): Uuid {
    if c.terms.wallet in t.identities then t.identities[c.terms.wallet]
    else if c.terms.expectedUserId.Some? then c.terms.expectedUserId.value
    else c.newUserId
  }

  lemma ResolvesAs(t: Tables, c: Consumption)
    ensures var r := ResolveUser(t.users, t.identities, c.terms, c.newUserId);
            && (r.Refused? <==> Refuses(t, c.terms))
            && (r.Collided? <==> IsNewcomer(t, c.terms) && c.newUserId in t.users)
            && (r.Resolved? ==>
                  && r.userId == SignedIn(t, c)
                  && r.users == (if IsNewcomer(t, c.terms) then t.users + {c.newUserId} else t.users)
                  && r.identities == (if c.terms.wallet in t.identities then t.identities
                                      else t.identities[c.terms.wallet := SignedIn(t, c)]))
  {
  }

  /** Every answer, told by the tables. */
  lemma ConsumeAnswers(t: Tables, c: Consumption, maximum: nat)
    requires UsersOk(t.users, t.identities)
    ensures var r := Consume(t, c, maximum).1;
            && (r == IdentityConflict <==> Open(t, c, maximum) && Refuses(t, c.terms))
            && (r.Consumed? <==>
                  && Open(t, c, maximum) && !Refuses(t, c.terms)
                  && (IsNewcomer(t, c.terms) ==> c.newUserId !in t.users)
                  && CanBegin(t.sessions, c.sessionId, c.material))
            && (r == Unavailable <==>
                  c.challengeId !in t.walletChallenges || t.walletChallenges[c.challengeId].consumedAt != None)
            && (r == Expired <==>
                  && c.challengeId in t.walletChallenges && t.walletChallenges[c.challengeId].consumedAt == None
                  && t.walletChallenges[c.challengeId].expiresAt <= c.now)
            && (r == Invalid <==>
                  && c.challengeId in t.walletChallenges && t.walletChallenges[c.challengeId].consumedAt == None
                  && c.now < t.walletChallenges[c.challengeId].expiresAt
                  && (maximum <= t.walletChallenges[c.challengeId].attempts
                      || t.walletChallenges[c.challengeId].terms != c.terms))
            && (r.Consumed? ==> r.userId == SignedIn(t, c))
            && (!r.Consumed? ==> Consume(t, c, maximum).0 == t)
  {
    ResolvesAs(t, c);
    RevokedTokens(t.sessions, SignedIn(t, c), c.now, ResolvedUsers(t, c), c.sessionId, c.material);
    if !Refuses(t, c.terms) {
      SignedInIsUser(t, c);
    }
    hide ResolveUser, RevokeAll, SessionFits, CanBegin, Refuses, SignedIn, IsNewcomer, UsersOk, HasWallet;
  }

  function ResolvedUsers(t: Tables, c: Consumption): set<Uuid> {
    if IsNewcomer(t, c.terms) then t.users + {c.newUserId} else t.users
  }

  lemma SignedInIsUser(t: Tables, c: Consumption)
    requires UsersOk(t.users, t.identities) && !Refuses(t, c.terms)
    ensures SignedIn(t, c) in ResolvedUsers(t, c)
  {
    hide HasWallet;
  }

  /** What a consumption leaves: the binding, the user, the spent challenge, the sessions ended and the one begun. */
  lemma ConsumeEffect(t: Tables, c: Consumption, maximum: nat)
    requires Consume(t, c, maximum).1.Consumed?
    ensures var (t', user) := (Consume(t, c, maximum).0, SignedIn(t, c));
            && t'.users == (if IsNewcomer(t, c.terms) then t.users + {c.newUserId} else t.users)
            && t'.identities == (if c.terms.wallet in t.identities then t.identities
                                 else t.identities[c.terms.wallet := user])
            && c.challengeId in t.walletChallenges
            && t'.walletChallenges ==
               t.walletChallenges[c.challengeId := t.walletChallenges[c.challengeId].(consumedAt := Some(c.now))]
            && Begun(t.sessions, t'.sessions, c.sessionId, user, c.material)
            && (if c.terms.action == SignIn then Untouched(t.sessions, t'.sessions)
                else EndedFor(t.sessions, t'.sessions, user, c.now))
            && t'.passkeyChallenges == t.passkeyChallenges && t'.credentials == t.credentials && t'.events == t.events
  {
    ResolvesAs(t, c);
    ConsumedFits(t, c, maximum);
    EndedAndBegun(t.sessions, SignedIn(t, c), c.now, c.sessionId, c.material);
    hide ResolveUser, RevokeAll, SessionFits, Refuses, SignedIn, IsNewcomer, EndedFor, Untouched, Begun, NewSession;
  }

  lemma ConsumedFits(t: Tables, c: Consumption, maximum: nat)
    requires Consume(t, c, maximum).1.Consumed?
    ensures c.sessionId !in t.sessions
  {
    hide ResolveUser;
  }

  /** A step-up never binds a wallet, nor makes a user. */
  lemma StepUpBindsNothing(t: Tables, c: Consumption, maximum: nat)
    requires c.terms.action == StepUp
    ensures var t' := Consume(t, c, maximum).0; t'.identities == t.identities && t'.users == t.users
  {
    hide RevokeAll, SessionFits;
  }

  /** Over every run: a session made by a challenge that expects a user is that user's, for good. */
  lemma SessionsAreTheExpectedUsers(actions: seq<Action>, maximum: nat, k: nat)
    requires k < |Run(actions, maximum).ledger| && Run(actions, maximum).ledger[k].SessionMade?
    ensures var (t, e) := (Run(actions, maximum).tables, Run(actions, maximum).ledger[k]);
            && e.challengeId in t.walletChallenges && e.sessionId in t.sessions
            && (t.walletChallenges[e.challengeId].terms.expectedUserId.Some? ==>
                  t.sessions[e.sessionId].userId == t.walletChallenges[e.challengeId].terms.expectedUserId.value)
  {
    RunExpects(actions, maximum);
    hide Run;
    assert ExpectedUser(Run(actions, maximum).tables, Run(actions, maximum).ledger[k]);
  }

  ghost predicate ExpectedUser(t: Tables, e: Entry) {
    e.SessionMade? ==>
      && e.challengeId in t.walletChallenges && e.sessionId in t.sessions
      && var expected := t.walletChallenges[e.challengeId].terms.expectedUserId;
      expected.Some? ==> t.sessions[e.sessionId].userId == expected.value
  }

  lemma ExtensionKeepsExpected(t: Tables, t': Tables, e: Entry, maximum: nat)
    requires Extends(t, t', maximum) && ExpectedUser(t, e)
    ensures ExpectedUser(t', e)
  {
    if e.SessionMade? {
      assert SessionKept(t.sessions[e.sessionId], t'.sessions[e.sessionId]);
      assert WalletChallengeKept(t.walletChallenges[e.challengeId], t'.walletChallenges[e.challengeId], maximum);
    }
  }

  lemma NewEntryExpects(t: Tables, a: Action, maximum: nat)
    requires TablesOk(t, maximum)
    ensures forall e | e in NewEntries(t, a, maximum) :: ExpectedUser(After(t, a, maximum), e)
  {
    if a.ConsumeChallenge? && Consume(t, a.consumption, maximum).1.Consumed? {
      ConsumeAnswers(t, a.consumption, maximum);
      ConsumeEffect(t, a.consumption, maximum);
      hide Consume, EndedFor, Untouched, CanBegin, TablesOk;
    }
  }

  lemma {:induction false} RunExpects(actions: seq<Action>, maximum: nat)
    ensures forall k | 0 <= k < |Run(actions, maximum).ledger| ::
              ExpectedUser(Run(actions, maximum).tables, Run(actions, maximum).ledger[k])
  {
    hide After, ExpectedUser, NewEntries, Extends, TablesOk;
    if actions != [] {
      var front, a := actions[..|actions| - 1], actions[|actions| - 1];
      var s := Run(front, maximum);
      RunExpects(front, maximum);
      RunKeepsInvariants(front, maximum);
      StepKeepsTables(s.tables, a, maximum);
      NewEntryExpects(s.tables, a, maximum);
      forall k | 0 <= k < |Run(actions, maximum).ledger|
        ensures ExpectedUser(Run(actions, maximum).tables, Run(actions, maximum).ledger[k])
      {
        if k < |s.ledger| {
          ExtensionKeepsExpected(s.tables, Run(actions, maximum).tables, s.ledger[k], maximum);
        } else {
          assert Run(actions, maximum).ledger[k] in NewEntries(s.tables, a, maximum);
        }
      }
    }
  }

  /** The ceremony that binds a wallet to a user: a sign-in or a link, for the user it expects or for one it makes. */
  ghost predicate Binds(t: Tables, a: Action, maximum: nat, wallet: Wallet, user: Uuid) {
    && a.ConsumeChallenge? && Open(t, a.consumption, maximum)
    && a.consumption.terms.wallet == wallet && wallet !in t.identities
    && a.consumption.terms.action != StepUp
    && (if a.consumption.terms.expectedUserId.Some?
        then user == a.consumption.terms.expectedUserId.value && user in t.users
        else a.consumption.terms.action == SignIn && user == a.consumption.newUserId && user !in t.users)
  }

  /** Over every run: each binding was made by such a ceremony, for the user it still names. A step-up made none. */
  lemma {:induction false} EveryBindingHasItsCeremony(actions: seq<Action>, maximum: nat, wallet: Wallet) returns (n: nat)
    requires wallet in Run(actions, maximum).tables.identities
    ensures n < |actions|
    ensures Binds(Run(actions[..n], maximum).tables, actions[n], maximum, wallet,
                  Run(actions, maximum).tables.identities[wallet])
  {
    hide After, Binds, Extends, TablesOk;
    assert actions != [];
    var front, a := actions[..|actions| - 1], actions[|actions| - 1];
    var t := Run(front, maximum).tables;
    RunKeepsInvariants(front, maximum);
    if wallet in t.identities {
      n := EveryBindingHasItsCeremony(front, maximum, wallet);
      assert front[..n] == actions[..n];
      StepKeepsTables(t, a, maximum);
      ExtensionKeepsBinding(t, Run(actions, maximum).tables, wallet, maximum);
    } else {
      n := |front|;
      NewBinding(t, a, maximum, wallet);
    }
  }

  lemma ExtensionKeepsBinding(t: Tables, t': Tables, wallet: Wallet, maximum: nat)
    requires Extends(t, t', maximum) && wallet in t.identities
    ensures wallet in t'.identities && t'.identities[wallet] == t.identities[wallet]
  {
  }

  lemma NewBinding(t: Tables, a: Action, maximum: nat, wallet: Wallet)
    requires TablesOk(t, maximum) && wallet !in t.identities && wallet in After(t, a, maximum).identities
    ensures Binds(t, a, maximum, wallet, After(t, a, maximum).identities[wallet])
  {
    if a.ConsumeChallenge? {
      ConsumeAnswers(t, a.consumption, maximum);
      if Consume(t, a.consumption, maximum).1.Consumed? {
        ConsumeEffect(t, a.consumption, maximum);
      }
      hide Consume, EndedFor, Untouched, Begun, CanBegin, UsersOk;
    } else {
      OthersBindNothing(t, a, maximum);
    }
  }

  /** Only the consumption of a wallet challenge binds wallets and makes users. */
  lemma OthersBindNothing(t: Tables, a: Action, maximum: nat)
    requires !a.ConsumeChallenge?
    ensures After(t, a, maximum).identities == t.identities && After(t, a, maximum).users == t.users
  {
    hide Active, SessionFits, RevokeAll, HasWallet, Live, Revocable, WalletChallengeFits, PasskeyChallengeFits;
  }

  // ----- Linking and unlinking passkeys -----

  /** The session is the user's, not revoked, in time on both counts, and authenticated recently enough. */
  predicate InForce(t: Tables, session: Uuid, user: Uuid, minimum: Instant, now: Instant) {
    && session in t.sessions && t.sessions[session].userId == user && t.sessions[session].revokedAt == None
    && now < t.sessions[session].idleExpiresAt && now < t.sessions[session].absoluteExpiresAt
    && minimum <= t.sessions[session].authenticatedAt && t.sessions[session].authenticatedAt <= now
  }

  lemma ActiveIffInForce(t: Tables, session: Uuid, user: Uuid, minimum: Instant, now: Instant)
    ensures Active(t.sessions, session, user, minimum, now) <==> InForce(t, session, user, minimum, now)
  {
  }

  /** The passkey challenge is there, unconsumed, in time, the one that was signed, and its session in force. */
  predicate OpenLink(t: Tables, r: LinkRequest) {
    && r.challengeId in t.passkeyChallenges && t.passkeyChallenges[r.challengeId].consumedAt == None
    && t.passkeyChallenges[r.challengeId].terms == r.terms && r.now < r.terms.expiresAt
    && InForce(t, r.terms.sessionId, r.terms.userId, r.minimumAuthenticatedAt, r.now)
  }

  lemma LinkAnswers(t: Tables, r: LinkRequest)
    requires SessionsOk(t.users, t.sessions)
    ensures var answer := CompleteLink(t, r).1;
            && (answer == Replayed <==>
                  r.challengeId !in t.passkeyChallenges || t.passkeyChallenges[r.challengeId].consumedAt != None)
            && (answer == Conflict <==> OpenLink(t, r) && r.credentialId in t.credentials)
            && (answer == Linked <==>
                  OpenLink(t, r) && r.credentialId !in t.credentials && CanBegin(t.sessions, r.sessionId, r.material))
            && (answer == LinkFailed <==>
                  OpenLink(t, r) && r.credentialId !in t.credentials && !CanBegin(t.sessions, r.sessionId, r.material))
            && (answer != Linked && answer != Conflict ==> CompleteLink(t, r).0 == t)
  {
    RevokedTokens(t.sessions, r.terms.userId, r.now, t.users, r.sessionId, r.material);
    hide RevokeAll, SessionFits, CanBegin;
  }

  predicate SpentLink(t: Tables, t': Tables, r: LinkRequest) {
    && r.challengeId in t.passkeyChallenges
    && t'.passkeyChallenges ==
       t.passkeyChallenges[r.challengeId := t.passkeyChallenges[r.challengeId].(consumedAt := Some(r.now))]
  }

  /** What linking leaves: the spent challenge, the credential, the sessions ended and begun, and the event. */
  lemma LinkEffect(t: Tables, r: LinkRequest)
    requires CompleteLink(t, r).1 == Linked || CompleteLink(t, r).1 == Conflict
    ensures var (t', answer) := CompleteLink(t, r);
            && SpentLink(t, t', r)
            && (answer == Conflict ==> t'.credentials == t.credentials && t'.sessions == t.sessions && t'.events == t.events)
            && (answer == Linked ==>
                  && t'.credentials == t.credentials[r.credentialId := r.terms.userId]
                  && EndedFor(t.sessions, t'.sessions, r.terms.userId, r.now)
                  && Begun(t.sessions, t'.sessions, r.sessionId, r.terms.userId, r.material)
                  && |t'.events| == |t.events| + 1 && t'.events[..|t.events|] == t.events
                  && var e := t'.events[|t.events|];
                  && e.action == PasskeyLinked && e.actor == r.terms.userId && e.sessionId == r.terms.sessionId
                  && e.credentialId == r.credentialId)
            && t'.users == t.users && t'.identities == t.identities && t'.walletChallenges == t.walletChallenges
  {
    if CompleteLink(t, r).1 == Linked {
      LinkedFits(t, r);
      EndedAndBegun(t.sessions, r.terms.userId, r.now, r.sessionId, r.material);
    }
    hide Active, SessionFits, RevokeAll, EndedFor, Begun, NewSession;
  }

  lemma LinkedFits(t: Tables, r: LinkRequest)
    requires CompleteLink(t, r).1 == Linked
    ensures r.sessionId !in t.sessions
  {
    hide Active;
  }

  lemma UnlinkAnswers(t: Tables, r: UnlinkRequest)
    requires SessionsOk(t.users, t.sessions) && UsersOk(t.users, t.identities)
    ensures var answer := Unlink(t, r).1;
            var allowed := && InForce(t, r.sessionId, r.userId, r.minimumAuthenticatedAt, r.now)
                           && r.credentialId in t.credentials && t.credentials[r.credentialId] == r.userId;
            && (answer == Missing <==> !allowed)
            && (answer == Unlinked <==> allowed && CanBegin(t.sessions, r.newSessionId, r.material))
            && (answer != Unlinked ==> Unlink(t, r).0 == t)
  {
    RevokedTokens(t.sessions, r.userId, r.now, t.users, r.newSessionId, r.material);
    hide RevokeAll, SessionFits, CanBegin, HasWallet;
  }

  lemma UnlinkEffect(t: Tables, r: UnlinkRequest)
    requires Unlink(t, r).1 == Unlinked
    ensures var t' := Unlink(t, r).0;
            && r.credentialId in t.credentials && r.credentialId !in t'.credentials
            && t.credentials == t'.credentials[r.credentialId := t.credentials[r.credentialId]]
            && EndedFor(t.sessions, t'.sessions, r.userId, r.now)
            && Begun(t.sessions, t'.sessions, r.newSessionId, r.userId, r.material)
            && |t'.events| == |t.events| + 1 && t'.events[..|t.events|] == t.events
            && var e := t'.events[|t.events|];
            && e.action == PasskeyUnlinked && e.actor == r.userId && e.sessionId == r.sessionId
            && e.credentialId == r.credentialId
            && t'.users == t.users && t'.identities == t.identities && t'.walletChallenges == t.walletChallenges
            && t'.passkeyChallenges == t.passkeyChallenges
  {
    UnlinkedFits(t, r);
    EndedAndBegun(t.sessions, r.userId, r.now, r.newSessionId, r.material);
    hide Active, SessionFits, RevokeAll, EndedFor, Begun, NewSession, HasWallet;
  }

  lemma UnlinkedFits(t: Tables, r: UnlinkRequest)
    requires Unlink(t, r).1 == Unlinked
    ensures r.newSessionId !in t.sessions
  {
    hide Active, HasWallet;
  }

  // ----- Issuing challenges and counting attempts -----

  /** A challenge is stored unconsumed with no attempts made, if its id and nonce are new, its times in order and its user known. */
  lemma IssuedWalletChallenge(t: Tables, id: Uuid, terms: WalletTerms, expiresAt: Instant)
    ensures var t' := IssueWallet(t, id, terms, expiresAt);
            var possible := && id !in t.walletChallenges && terms.issuedAt < expiresAt
                            && (terms.expectedUserId.Some? ==> terms.expectedUserId.value in t.users)
                            && forall c | c in t.walletChallenges :: t.walletChallenges[c].terms.nonce != terms.nonce;
            && (t' != t <==> possible)
            && (possible ==> t' == t.(walletChallenges := t'.walletChallenges)
                             && t'.walletChallenges == t.walletChallenges[id := WalletChallenge(terms, expiresAt, 0, None)])
  {
  }

  lemma IssuedPasskeyChallenge(t: Tables, id: Uuid, terms: PasskeyTerms)
    ensures var t' := IssuePasskey(t, id, terms);
            var possible := && id !in t.passkeyChallenges && terms.issuedAt < terms.expiresAt
                            && terms.userId in t.users && terms.sessionId in t.sessions;
            && (t' != t <==> possible)
            && (possible ==> t' == t.(passkeyChallenges := t'.passkeyChallenges)
                             && t'.passkeyChallenges == t.passkeyChallenges[id := PasskeyChallenge(terms, None)])
  {
  }

  /** A failed attempt counts once, on a challenge that is unconsumed and below the maximum, and touches nothing else. */
  lemma FailedAttemptCounts(t: Tables, id: Uuid, maximum: nat)
    ensures var t' := IncrementFailedAttempt(t, id, maximum);
            && t' == t.(walletChallenges := t'.walletChallenges)
            && t'.walletChallenges.Keys == t.walletChallenges.Keys
            && forall c | c in t.walletChallenges ::
                 t'.walletChallenges[c] == t.walletChallenges[c].(
                   attempts := t.walletChallenges[c].attempts +
                               if c == id && t.walletChallenges[c].consumedAt == None && t.walletChallenges[c].attempts < maximum
                               then 1 else 0)
  {
  }

  // ----- Sessions over time -----

  /** A token that finds its session moves the idle expiry on by the lifetime, but not past the absolute one. */
  lemma RenewalMovesIdleExpiry(t: Tables, tokenHash: string, now: Instant, idleLifetimeMs: int)
    ensures var (t', found) := FindAndRenew(t, tokenHash, now, idleLifetimeMs);
            && (found == None ==> t' == t)
            && (found.Some? ==>
                  && found.value in t.sessions && t.sessions[found.value].tokenHash == tokenHash
                  && var (s, s') := (t.sessions[found.value], t'.sessions[found.value]);
                  && now < s.idleExpiresAt && now < s.absoluteExpiresAt && s.revokedAt == None
                  && t' == t.(sessions := t.sessions[found.value := s'])
                  && s' == s.(idleExpiresAt := s'.idleExpiresAt)
                  && s'.idleExpiresAt <= now + idleLifetimeMs && s'.idleExpiresAt <= s.absoluteExpiresAt
                  && (s'.idleExpiresAt == now + idleLifetimeMs || s'.idleExpiresAt == s.absoluteExpiresAt))
  {
  }

  /** The token's session is found exactly if it is not revoked and in time on both counts. */
  lemma TokenFindsIff(t: Tables, tokenHash: string, now: Instant, idleLifetimeMs: int)
    ensures FindAndRenew(t, tokenHash, now, idleLifetimeMs).1.Some? <==>
            exists s :: && s in t.sessions && t.sessions[s].tokenHash == tokenHash && t.sessions[s].revokedAt == None
                        && now < t.sessions[s].idleExpiresAt && now < t.sessions[s].absoluteExpiresAt
  {
  }

  /** A token that revokes its session dates the revocation, and changes nothing else. */
  lemma RevocationIsDated(t: Tables, tokenHash: string, at: Instant)
    ensures var (t', revoked) := Revoke(t, tokenHash, at);
            && (revoked <==> exists s :: s in t.sessions && t.sessions[s].tokenHash == tokenHash
                                         && t.sessions[s].revokedAt == None)
            && (!revoked ==> t' == t)
            && (revoked ==> exists s :: s in t.sessions && t.sessions[s].tokenHash == tokenHash
                                        && t.sessions[s].revokedAt == None
                                        && t' == t.(sessions := t.sessions[s := t.sessions[s].(revokedAt := Some(at))]))
  {
  }

  /** Nothing but a renewal by its own token moves the idle expiry of a session. */
  lemma IdleExpiryStays(t: Tables, a: Action, maximum: nat, s: Uuid)
    requires TablesOk(t, maximum) && s in t.sessions
    requires !(a.RenewSession? && a.tokenHash == t.sessions[s].tokenHash)
    ensures s in After(t, a, maximum).sessions
    ensures After(t, a, maximum).sessions[s].idleExpiresAt == t.sessions[s].idleExpiresAt
    ensures After(t, a, maximum).sessions[s].tokenHash == t.sessions[s].tokenHash
  {
    hide TablesOk, Active, ResolveUser, HasWallet, WalletChallengeFits, PasskeyChallengeFits;
  }

  lemma {:induction false} UnpresentedKeepsExpiry(actions: seq<Action>, n: nat, maximum: nat, s: Uuid)
    requires n <= |actions| && s in Run(actions[..n], maximum).tables.sessions
    requires forall k | n <= k < |actions| && actions[k].RenewSession? ::
               actions[k].tokenHash != Run(actions[..n], maximum).tables.sessions[s].tokenHash
    ensures var (t, t') := (Run(actions[..n], maximum).tables, Run(actions, maximum).tables);
            && s in t'.sessions && t'.sessions[s].idleExpiresAt == t.sessions[s].idleExpiresAt
            && t'.sessions[s].tokenHash == t.sessions[s].tokenHash
    decreases |actions|
  {
    hide After, TablesOk;
    if n == |actions| {
      assert actions[..n] == actions;
    } else {
      var front := actions[..|actions| - 1];
      assert front[..n] == actions[..n];
      UnpresentedKeepsExpiry(front, n, maximum, s);
      RunKeepsInvariants(front, maximum);
      IdleExpiryStays(Run(front, maximum).tables, actions[|actions| - 1], maximum, s);
    }
  }

  /** Over every run: a session whose token is not presented again is found by nobody once its idle expiry has come. */
  lemma IdleSessionsLapse(actions: seq<Action>, n: nat, maximum: nat, s: Uuid, now: Instant, idleLifetimeMs: int)
    requires n <= |actions| && s in Run(actions[..n], maximum).tables.sessions
    requires var session := Run(actions[..n], maximum).tables.sessions[s];
             && session.idleExpiresAt <= now
             && forall k | n <= k < |actions| && actions[k].RenewSession? :: actions[k].tokenHash != session.tokenHash
    ensures var token := Run(actions[..n], maximum).tables.sessions[s].tokenHash;
            FindAndRenew(Run(actions, maximum).tables, token, now, idleLifetimeMs).1 == None
  {
    UnpresentedKeepsExpiry(actions, n, maximum, s);
    RunKeepsInvariants(actions, maximum);
    var t, token := Run(actions, maximum).tables, Run(actions[..n], maximum).tables.sessions[s].tokenHash;
    hide Run, UsersOk, AttemptsOk, PasskeysOk, EventsOk, LedgerOk;
    assert forall r | r in t.sessions && t.sessions[r].tokenHash == token :: r == s;
  }

  /** In particular: after the last presentation of its token, a session lapses within the lifetime asked for then. */
  lemma UnpresentedSessionsLapse(actions: seq<Action>, n: nat, maximum: nat, now: Instant, idleLifetimeMs: int)
    requires n < |actions| && actions[n].RenewSession? && actions[n].now + actions[n].idleLifetimeMs <= now
    requires forall k | n < k < |actions| && actions[k].RenewSession? :: actions[k].tokenHash != actions[n].tokenHash
    requires FindAndRenew(Run(actions[..n], maximum).tables, actions[n].tokenHash, actions[n].now,
                          actions[n].idleLifetimeMs).1.Some?
    ensures FindAndRenew(Run(actions, maximum).tables, actions[n].tokenHash, now, idleLifetimeMs).1 == None
  {
    var t, a := Run(actions[..n], maximum).tables, actions[n];
    assert actions[..n + 1][..n] == actions[..n];
    RenewalMovesIdleExpiry(t, a.tokenHash, a.now, a.idleLifetimeMs);
    var s := FindAndRenew(t, a.tokenHash, a.now, a.idleLifetimeMs).1.value;
    assert Run(actions[..n + 1], maximum).tables == FindAndRenew(t, a.tokenHash, a.now, a.idleLifetimeMs).0;
    hide FindAndRenew, Run;
    IdleSessionsLapse(actions, n + 1, maximum, s, now, idleLifetimeMs);
  }
}
