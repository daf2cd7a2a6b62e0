/**
 Both ceremonies and the sessions they share, over whole runs: any list of transactions, each taken as one step. The ledger
 records which challenge made which session or credential; nothing reads it.
 */
module AuthProtocol {
  import opened Common
  import opened AuthCeremonies

  datatype Action =
    | IssueWalletChallenge(id: Uuid, wallet: WalletTerms, expiresAt: Instant)
    | FailAttempt(id: Uuid)
    | ConsumeChallenge(consumption: Consumption)
    | IssuePasskeyChallenge(id: Uuid, passkey: PasskeyTerms)
    | LinkPasskey(link: LinkRequest)
    | UnlinkPasskey(unlink: UnlinkRequest)
    | RenewSession(tokenHash: string, now: Instant, idleLifetimeMs: int)
    | RevokeSession(tokenHash: string, now: Instant)

  datatype Entry =
    | SessionMade(challengeId: Uuid, sessionId: Uuid)
    | CredentialMade(challengeId: Uuid, credentialId: string)
    | CredentialRefused(challengeId: Uuid)

  datatype System = System(tables: Tables, ledger: seq<Entry>)

  function NewEntries(t: Tables, a: Action, maximum: nat): seq<Entry> {
    match a
    case ConsumeChallenge(c) => if Consume(t, c, maximum).1.Consumed? then [SessionMade(c.challengeId, c.sessionId)] else []
    case LinkPasskey(r) =>
      (match CompleteLink(t, r).1
       case Linked => [CredentialMade(r.challengeId, r.credentialId)]
       case Conflict => [CredentialRefused(r.challengeId)]
       case _ => [])
    case _ => []
  }

  ghost function After(t: Tables, a: Action, maximum: nat): Tables {
    match a
    case IssueWalletChallenge(id, terms, expiresAt) => IssueWallet(t, id, terms, expiresAt)
    case FailAttempt(id) => IncrementFailedAttempt(t, id, maximum)
    case ConsumeChallenge(c) => Consume(t, c, maximum).0
    case IssuePasskeyChallenge(id, terms) => IssuePasskey(t, id, terms)
    case LinkPasskey(r) => CompleteLink(t, r).0
    case UnlinkPasskey(r) => Unlink(t, r).0
    case RenewSession(tokenHash, now, idleLifetimeMs) => FindAndRenew(t, tokenHash, now, idleLifetimeMs).0
    case RevokeSession(tokenHash, now) => Revoke(t, tokenHash, now).0
  }

  ghost function Step(s: System, a: Action, maximum: nat): System {
    System(After(s.tables, a, maximum), s.ledger + NewEntries(s.tables, a, maximum))
  }

  ghost function Run(actions: seq<Action>, maximum: nat): System {
    if actions == [] then System(NO_ROWS, [])
    else Step(Run(actions[..|actions| - 1], maximum), actions[|actions| - 1], maximum)
  }

  // ----- What the tables keep -----

  ghost predicate SessionsOk(users: set<Uuid>, sessions: map<Uuid, Session>) {
    && (forall s | s in sessions ::
          sessions[s].userId in users && sessions[s].idleExpiresAt <= sessions[s].absoluteExpiresAt)
    && (forall r, s | r in sessions && s in sessions && sessions[r].tokenHash == sessions[s].tokenHash :: r == s)
  }

  /** Every user came with a wallet, and no wallet leaves. */
  ghost predicate UsersOk(users: set<Uuid>, identities: map<Wallet, Uuid>) {
    && (forall w | w in identities :: identities[w] in users)
    && (forall u | u in users :: HasWallet(identities, u))
  }

  /** A challenge is consumed in time and with attempts to spare. */
  predicate WalletChallengeOk(c: WalletChallenge, maximum: nat) {
    c.attempts <= maximum && (c.consumedAt.Some? ==> c.attempts < maximum && c.consumedAt.value < c.expiresAt)
  }

  ghost predicate AttemptsOk(challenges: map<Uuid, WalletChallenge>, maximum: nat) {
    forall c | c in challenges :: WalletChallengeOk(challenges[c], maximum)
  }

  ghost predicate PasskeysOk(challenges: map<Uuid, PasskeyChallenge>) {
    forall c | c in challenges && challenges[c].consumedAt.Some? :: challenges[c].consumedAt.value < challenges[c].terms.expiresAt
  }

  predicate EventOk(e: SecurityEvent, sessions: map<Uuid, Session>) {
    e.sessionId in sessions && sessions[e.sessionId].revokedAt.Some? && sessions[e.sessionId].userId == e.actor
  }

  ghost predicate EventsOk(events: seq<SecurityEvent>, sessions: map<Uuid, Session>) {
    && (forall k | 0 <= k < |events| :: EventOk(events[k], sessions))
    && (forall j, k | 0 <= j < k < |events| :: events[j].sessionId != events[k].sessionId)
  }

  ghost predicate TablesOk(t: Tables, maximum: nat) {
    && SessionsOk(t.users, t.sessions) && UsersOk(t.users, t.identities)
    && AttemptsOk(t.walletChallenges, maximum) && PasskeysOk(t.passkeyChallenges) && EventsOk(t.events, t.sessions)
  }

  predicate SessionKept(s: Session, s': Session) {
    && s'.userId == s.userId && s'.tokenHash == s.tokenHash && s'.authenticatedAt == s.authenticatedAt
    && s'.absoluteExpiresAt == s.absoluteExpiresAt
    && (s.revokedAt.Some? ==> s' == s)
  }

  ghost predicate SessionsExtend(sessions: map<Uuid, Session>, sessions': map<Uuid, Session>) {
    forall s | s in sessions :: s in sessions' && SessionKept(sessions[s], sessions'[s])
  }

  ghost predicate IdentitiesExtend(identities: map<Wallet, Uuid>, identities': map<Wallet, Uuid>) {
    forall w | w in identities :: w in identities' && identities'[w] == identities[w]
  }

  predicate WalletChallengeKept(c: WalletChallenge, c': WalletChallenge, maximum: nat) {
    && c'.terms == c.terms && c'.expiresAt == c.expiresAt && c.attempts <= c'.attempts
    && (c.consumedAt.Some? || c.attempts >= maximum ==> c' == c)
  }

  ghost predicate WalletChallengesExtend(challenges: map<Uuid, WalletChallenge>, challenges': map<Uuid, WalletChallenge>,
                                         maximum: nat)
  {
    forall c | c in challenges :: c in challenges' && WalletChallengeKept(challenges[c], challenges'[c], maximum)
  }

  predicate PasskeyChallengeKept(c: PasskeyChallenge, c': PasskeyChallenge) {
    c'.terms == c.terms && (c.consumedAt.Some? ==> c' == c)
  }

  ghost predicate PasskeyChallengesExtend(challenges: map<Uuid, PasskeyChallenge>, challenges': map<Uuid, PasskeyChallenge>) {
    forall c | c in challenges :: c in challenges' && PasskeyChallengeKept(challenges[c], challenges'[c])
  }

  /** What later tables keep of earlier ones. */
  ghost predicate Extends(t: Tables, t': Tables, maximum: nat) {
    && t.users <= t'.users
    && IdentitiesExtend(t.identities, t'.identities)
    && SessionsExtend(t.sessions, t'.sessions)
    && WalletChallengesExtend(t.walletChallenges, t'.walletChallenges, maximum)
    && PasskeyChallengesExtend(t.passkeyChallenges, t'.passkeyChallenges)
    && t.events <= t'.events
  }

  // ----- One step -----

  lemma SelfExtends(t: Tables, maximum: nat)
    ensures Extends(t, t, maximum)
  {
  }

  lemma AddedSession(users: set<Uuid>, sessions: map<Uuid, Session>, id: Uuid, user: Uuid, m: SessionMaterial)
    requires SessionsOk(users, sessions) && SessionFits(users, sessions, id, user, m)
    ensures var sessions' := sessions[id := NewSession(user, m)];
            SessionsOk(users, sessions') && SessionsExtend(sessions, sessions')
  {
  }

  lemma RevokedSessions(users: set<Uuid>, sessions: map<Uuid, Session>, user: Uuid, now: Instant)
    requires SessionsOk(users, sessions)
    ensures var sessions' := RevokeAll(sessions, user, now);
            && SessionsOk(users, sessions') && SessionsExtend(sessions, sessions')
            && forall s | s in sessions && sessions[s].userId == user :: sessions'[s].revokedAt.Some?
  {
  }

  lemma MoreUsers(users: set<Uuid>, users': set<Uuid>, sessions: map<Uuid, Session>)
    requires SessionsOk(users, sessions) && users <= users'
    ensures SessionsOk(users', sessions)
  {
  }

  lemma SessionsExtendTwice(one: map<Uuid, Session>, two: map<Uuid, Session>, three: map<Uuid, Session>)
    requires SessionsExtend(one, two) && SessionsExtend(two, three)
    ensures SessionsExtend(one, three)
  {
  }

  lemma ResolutionKeepsUsers(users: set<Uuid>, identities: map<Wallet, Uuid>, terms: WalletTerms, newUserId: Uuid)
    requires UsersOk(users, identities)
    ensures var r := ResolveUser(users, identities, terms, newUserId);
            r.Resolved? ==>
              && UsersOk(r.users, r.identities)
              && users <= r.users
              && IdentitiesExtend(identities, r.identities)
              && terms.wallet in r.identities && r.identities[terms.wallet] == r.userId
  {
    var r := ResolveUser(users, identities, terms, newUserId);
    if r.Resolved? {
      forall u | u in r.users
        ensures HasWallet(r.identities, u)
      {
        if u in users {
          assert HasWallet(identities, u);
          var w :| w in identities && identities[w] == u;
          assert r.identities[w] == u;
        } else {
          assert r.identities[terms.wallet] == u;
        }
      }
    }
  }

  /** Events stay right while their sessions stay revoked. */
  lemma EventsSurvive(events: seq<SecurityEvent>, sessions: map<Uuid, Session>, sessions': map<Uuid, Session>)
    requires EventsOk(events, sessions) && SessionsExtend(sessions, sessions')
    ensures EventsOk(events, sessions')
  {
  }

  /** A session that was active is in no event yet, so ending it may be recorded. */
  lemma EventAdded(events: seq<SecurityEvent>, sessions: map<Uuid, Session>, sessions': map<Uuid, Session>, e: SecurityEvent)
    requires EventsOk(events, sessions) && SessionsExtend(sessions, sessions')
    requires e.sessionId in sessions && sessions[e.sessionId].revokedAt.None? && EventOk(e, sessions')
    ensures EventsOk(events + [e], sessions')
  {
    forall k | 0 <= k < |events|
      ensures EventOk(events[k], sessions') && events[k].sessionId != e.sessionId
    {
      assert EventOk(events[k], sessions);
    }
  }

  lemma ConsumeKeepsTables(t: Tables, c: Consumption, maximum: nat)
    requires TablesOk(t, maximum)
    ensures TablesOk(Consume(t, c, maximum).0, maximum) && Extends(t, Consume(t, c, maximum).0, maximum)
  {
    SelfExtends(t, maximum);
    var t' := Consume(t, c, maximum).0;
    if t' != t {
      var r := ResolveUser(t.users, t.identities, c.terms, c.newUserId);
      ResolutionKeepsUsers(t.users, t.identities, c.terms, c.newUserId);
      hide UsersOk, ResolveUser, IdentitiesExtend, EventsOk, SessionsOk, SessionsExtend, RevokeAll, SessionFits;
      var kept := if c.terms.action != SignIn then RevokeAll(t.sessions, r.userId, c.now) else t.sessions;
      RevokedSessions(t.users, t.sessions, r.userId, c.now);
      MoreUsers(t.users, r.users, kept);
      AddedSession(r.users, kept, c.sessionId, r.userId, c.material);
      SessionsExtendTwice(t.sessions, kept, t'.sessions);
      EventsSurvive(t.events, t.sessions, t'.sessions);
    }
  }

  lemma LinkedKeepsTables(t: Tables, r: LinkRequest, maximum: nat)
    requires TablesOk(t, maximum) && CompleteLink(t, r).1.Linked?
    ensures TablesOk(CompleteLink(t, r).0, maximum) && Extends(t, CompleteLink(t, r).0, maximum)
  {
    SelfExtends(t, maximum);
    var t' := CompleteLink(t, r).0;
    PasskeyConsumed(t.passkeyChallenges, r.challengeId, r.now);
    var kept := RevokeAll(t.sessions, r.terms.userId, r.now);
    hide UsersOk, EventsOk, SessionsOk, SessionsExtend, RevokeAll, SessionFits, PasskeyChallengesExtend, PasskeysOk,
         WalletChallengesExtend, IdentitiesExtend, AttemptsOk;
    RevokedSessions(t.users, t.sessions, r.terms.userId, r.now);
    AddedSession(t.users, kept, r.sessionId, r.terms.userId, r.material);
    SessionsExtendTwice(t.sessions, kept, t'.sessions);
    EndedSession(t.sessions, kept, t'.sessions, r.terms.sessionId);
    EventAdded(t.events, t.sessions, t'.sessions,
               SecurityEvent(PasskeyLinked, r.terms.userId, r.terms.sessionId, r.credentialId));
  }

  lemma PasskeyConsumed(challenges: map<Uuid, PasskeyChallenge>, id: Uuid, now: Instant)
    requires PasskeysOk(challenges)
    requires id in challenges && challenges[id].consumedAt.None? && now < challenges[id].terms.expiresAt
    ensures var challenges' := challenges[id := challenges[id].(consumedAt := Some(now))];
            PasskeyChallengesExtend(challenges, challenges') && PasskeysOk(challenges')
  {
  }

  lemma LinkKeepsTables(t: Tables, r: LinkRequest, maximum: nat)
    requires TablesOk(t, maximum)
    ensures TablesOk(CompleteLink(t, r).0, maximum) && Extends(t, CompleteLink(t, r).0, maximum)
  {
    SelfExtends(t, maximum);
    hide SessionsOk, UsersOk, EventsOk, SessionsExtend, IdentitiesExtend, Active, RevokeAll, SessionFits;
    if CompleteLink(t, r).1.Linked? {
      LinkedKeepsTables(t, r, maximum);
    } else if CompleteLink(t, r).1.Conflict? {
      PasskeyConsumed(t.passkeyChallenges, r.challengeId, r.now);
    }
  }

  lemma UnlinkKeepsTables(t: Tables, r: UnlinkRequest, maximum: nat)
    requires TablesOk(t, maximum)
    ensures TablesOk(Unlink(t, r).0, maximum) && Extends(t, Unlink(t, r).0, maximum)
  {
    SelfExtends(t, maximum);
    var t' := Unlink(t, r).0;
    if t' != t {
      hide UsersOk, EventsOk, SessionsOk, SessionsExtend, RevokeAll, SessionFits;
      var kept := RevokeAll(t.sessions, r.userId, r.now);
      RevokedSessions(t.users, t.sessions, r.userId, r.now);
      AddedSession(t.users, kept, r.newSessionId, r.userId, r.material);
      SessionsExtendTwice(t.sessions, kept, t'.sessions);
      EndedSession(t.sessions, kept, t'.sessions, r.sessionId);
      EventAdded(t.events, t.sessions, t'.sessions, SecurityEvent(PasskeyUnlinked, r.userId, r.sessionId, r.credentialId));
    }
  }

  /** A session ended by a transaction is still ended when the new one is in. */
  lemma EndedSession(sessions: map<Uuid, Session>, kept: map<Uuid, Session>, sessions': map<Uuid, Session>, s: Uuid)
    requires SessionsExtend(sessions, kept) && SessionsExtend(kept, sessions')
    requires s in sessions && kept[s].revokedAt.Some?
    ensures s in sessions' && sessions'[s].revokedAt.Some? && sessions'[s].userId == sessions[s].userId
  {
    assert SessionKept(sessions[s], kept[s]) && SessionKept(kept[s], sessions'[s]);
  }

  lemma ChangedSession(t: Tables, s: Uuid, to: Session, maximum: nat)
    requires TablesOk(t, maximum) && s in t.sessions && t.sessions[s].revokedAt.None?
    requires SessionKept(t.sessions[s], to) && to.idleExpiresAt <= to.absoluteExpiresAt
    ensures var t' := t.(sessions := t.sessions[s := to]); TablesOk(t', maximum) && Extends(t, t', maximum)
  {
    SelfExtends(t, maximum);
    var sessions' := t.sessions[s := to];
    hide UsersOk, EventsOk, AttemptsOk;
    assert SessionsExtend(t.sessions, sessions');
    EventsSurvive(t.events, t.sessions, sessions');
  }

  lemma SmallStepsKeepTables(t: Tables, a: Action, maximum: nat)
    requires TablesOk(t, maximum)
    requires a.IssueWalletChallenge? || a.FailAttempt? || a.IssuePasskeyChallenge?
    ensures TablesOk(After(t, a, maximum), maximum) && Extends(t, After(t, a, maximum), maximum)
  {
    SelfExtends(t, maximum);
    hide UsersOk, EventsOk, SessionsOk, SessionsExtend, IdentitiesExtend;
  }

  lemma StepKeepsTables(t: Tables, a: Action, maximum: nat)
    requires TablesOk(t, maximum)
    ensures TablesOk(After(t, a, maximum), maximum) && Extends(t, After(t, a, maximum), maximum)
  {
    hide TablesOk, Extends, Consume, CompleteLink, Unlink, IssueWallet, IncrementFailedAttempt, IssuePasskey;
    SelfExtends(t, maximum);
    match a {
      case ConsumeChallenge(c) => ConsumeKeepsTables(t, c, maximum);
      case LinkPasskey(r) => LinkKeepsTables(t, r, maximum);
      case UnlinkPasskey(r) => UnlinkKeepsTables(t, r, maximum);
      case RenewSession(tokenHash, now, idleLifetimeMs) =>
        var s := FindAndRenew(t, tokenHash, now, idleLifetimeMs).1;
        if s.Some? {
          ChangedSession(t, s.value, Renewed(t.sessions[s.value], now + idleLifetimeMs), maximum);
        }
      case RevokeSession(tokenHash, now) =>
        if Revoke(t, tokenHash, now).1 {
          var s :| s in t.sessions && Revocable(t.sessions[s], tokenHash) &&
                   Revoke(t, tokenHash, now).0 == t.(sessions := t.sessions[s := t.sessions[s].(revokedAt := Some(now))]);
          RevocationKeepsTables(t, s, now, maximum);
        }
      case _ => SmallStepsKeepTables(t, a, maximum);
    }
  }

  lemma RevocationKeepsTables(t: Tables, s: Uuid, at: Instant, maximum: nat)
    requires TablesOk(t, maximum) && s in t.sessions && t.sessions[s].revokedAt.None?
    ensures var t' := t.(sessions := t.sessions[s := t.sessions[s].(revokedAt := Some(at))]);
            TablesOk(t', maximum) && Extends(t, t', maximum)
  {
    ChangedSession(t, s, t.sessions[s].(revokedAt := Some(at)), maximum);
  }

  // ----- The ledger -----

  predicate Uses(e: Entry, c: Uuid, wallet: bool) {
    e.challengeId == c && (e.SessionMade? <==> wallet)
  }

  /** What a challenge was used for. */
  function UsesOf(ledger: seq<Entry>, c: Uuid, wallet: bool): seq<Entry> {
    if ledger == [] then []
    else
      var front, last := ledger[..|ledger| - 1], ledger[|ledger| - 1];
      UsesOf(front, c, wallet) + if Uses(last, c, wallet) then [last] else []
  }

  predicate Spent(t: Tables, c: Uuid, wallet: bool) {
    if wallet then c in t.walletChallenges && t.walletChallenges[c].consumedAt.Some?
    else c in t.passkeyChallenges && t.passkeyChallenges[c].consumedAt.Some?
  }

  ghost predicate EntryOk(t: Tables, e: Entry) {
    e.SessionMade? ==>
      && e.sessionId in t.sessions
      && e.challengeId in t.walletChallenges
      && var w := t.walletChallenges[e.challengeId].terms.wallet;
      && w in t.identities
      && t.sessions[e.sessionId].userId == t.identities[w]
  }

  ghost predicate LedgerOk(s: System) {
    && (forall c: Uuid, wallet: bool :: |UsesOf(s.ledger, c, wallet)| == if Spent(s.tables, c, wallet) then 1 else 0)
    && (forall k | 0 <= k < |s.ledger| :: EntryOk(s.tables, s.ledger[k]))
  }

  lemma ExtensionKeepsEntry(t: Tables, t': Tables, e: Entry, maximum: nat)
    requires Extends(t, t', maximum) && EntryOk(t, e)
    ensures EntryOk(t', e)
  {
    if e.SessionMade? {
      assert SessionKept(t.sessions[e.sessionId], t'.sessions[e.sessionId]);
      assert WalletChallengeKept(t.walletChallenges[e.challengeId], t'.walletChallenges[e.challengeId], maximum);
    }
  }

  /** A step spends the challenge of its entry, which was not spent before, and no other. */
  ghost predicate Spends(t: Tables, t': Tables, added: seq<Entry>, c: Uuid, wallet: bool) {
    && |added| <= 1
    && (Spent(t', c, wallet) <==> Spent(t, c, wallet) || (added != [] && Uses(added[0], c, wallet)))
    && (added != [] && Uses(added[0], c, wallet) ==> !Spent(t, c, wallet))
  }

  lemma ConsumeSpends(t: Tables, x: Consumption, maximum: nat, c: Uuid, wallet: bool)
    ensures Spends(t, Consume(t, x, maximum).0, NewEntries(t, ConsumeChallenge(x), maximum), c, wallet)
  {
    hide SessionFits, RevokeAll, ResolveUser;
  }

  lemma LinkSpends(t: Tables, r: LinkRequest, maximum: nat, c: Uuid, wallet: bool)
    ensures Spends(t, CompleteLink(t, r).0, NewEntries(t, LinkPasskey(r), maximum), c, wallet)
  {
    hide Active, SessionFits, RevokeAll;
  }

  lemma OthersSpendNothing(t: Tables, a: Action, maximum: nat, c: Uuid, wallet: bool)
    requires !a.ConsumeChallenge? && !a.LinkPasskey?
    ensures Spends(t, After(t, a, maximum), [], c, wallet)
  {
    hide Active, SessionFits, RevokeAll, HasWallet;
  }

  lemma StepSpends(t: Tables, a: Action, maximum: nat, c: Uuid, wallet: bool)
    ensures Spends(t, After(t, a, maximum), NewEntries(t, a, maximum), c, wallet)
  {
    match a {
      case ConsumeChallenge(x) => ConsumeSpends(t, x, maximum, c, wallet);
      case LinkPasskey(r) => LinkSpends(t, r, maximum, c, wallet);
      case _ => OthersSpendNothing(t, a, maximum, c, wallet);
    }
    hide Spends, Consume, CompleteLink;
  }

  lemma NewEntryOk(t: Tables, a: Action, maximum: nat)
    requires TablesOk(t, maximum)
    ensures forall e | e in NewEntries(t, a, maximum) :: EntryOk(After(t, a, maximum), e)
  {
    if a.ConsumeChallenge? {
      var c := a.consumption;
      ResolutionKeepsUsers(t.users, t.identities, c.terms, c.newUserId);
      hide ResolveUser, UsersOk, EventsOk, SessionsOk, AttemptsOk, IdentitiesExtend, RevokeAll, SessionFits;
    }
  }

  lemma LedgerSnoc(ledger: seq<Entry>, added: seq<Entry>, c: Uuid, wallet: bool)
    requires |added| <= 1
    ensures |UsesOf(ledger + added, c, wallet)| ==
            |UsesOf(ledger, c, wallet)| + if added != [] && Uses(added[0], c, wallet) then 1 else 0
  {
    if added == [] {
      assert ledger + added == ledger;
    } else {
      assert (ledger + added)[..|ledger|] == ledger;
    }
  }

  lemma StepKeepsLedger(s: System, a: Action, maximum: nat)
    requires TablesOk(s.tables, maximum) && LedgerOk(s)
    ensures LedgerOk(Step(s, a, maximum))
  {
    var s' := Step(s, a, maximum);
    var added := NewEntries(s.tables, a, maximum);
    hide TablesOk, Extends, After, NewEntries, EntryOk, Spent, UsesOf;
    forall c: Uuid, wallet: bool
      ensures |UsesOf(s'.ledger, c, wallet)| == if Spent(s'.tables, c, wallet) then 1 else 0
    {
      StepSpends(s.tables, a, maximum, c, wallet);
      LedgerSnoc(s.ledger, added, c, wallet);
    }
    StepKeepsTables(s.tables, a, maximum);
    NewEntryOk(s.tables, a, maximum);
    forall k | 0 <= k < |s'.ledger|
      ensures EntryOk(s'.tables, s'.ledger[k])
    {
      if k < |s.ledger| {
        ExtensionKeepsEntry(s.tables, s'.tables, s.ledger[k], maximum);
      } else {
        assert s'.ledger[k] in added;
      }
    }
  }

  lemma NoRowsOk(maximum: nat)
    ensures TablesOk(NO_ROWS, maximum) && LedgerOk(System(NO_ROWS, []))
  {
  }

  lemma {:induction false} RunKeepsInvariants(actions: seq<Action>, maximum: nat)
    ensures var s := Run(actions, maximum); TablesOk(s.tables, maximum) && LedgerOk(s)
  {
    hide TablesOk, LedgerOk, After;
    if actions == [] {
      NoRowsOk(maximum);
    } else {
      var before := Run(actions[..|actions| - 1], maximum);
      RunKeepsInvariants(actions[..|actions| - 1], maximum);
      StepKeepsTables(before.tables, actions[|actions| - 1], maximum);
      StepKeepsLedger(before, actions[|actions| - 1], maximum);
    }
  }

  lemma ExtendsTwice(one: Tables, two: Tables, three: Tables, maximum: nat)
    requires Extends(one, two, maximum) && Extends(two, three, maximum)
    ensures Extends(one, three, maximum)
  {
    SessionsExtendTwice(one.sessions, two.sessions, three.sessions);
    hide SessionsExtend, SessionKept;
    forall c | c in one.walletChallenges
      ensures c in three.walletChallenges
      ensures WalletChallengeKept(one.walletChallenges[c], three.walletChallenges[c], maximum)
    {
      assert WalletChallengeKept(one.walletChallenges[c], two.walletChallenges[c], maximum);
      assert WalletChallengeKept(two.walletChallenges[c], three.walletChallenges[c], maximum);
    }
  }

  /**
   What no later step of a run undoes: a wallet keeps its user, a revoked session stays as it was and no session changes
   owner, token or absolute expiry, a challenge that is consumed or out of attempts stays as it was, events only accumulate.
   */
  lemma {:induction false} RunsOnlyExtend(actions: seq<Action>, n: nat, maximum: nat)
    requires n <= |actions|
    ensures Extends(Run(actions[..n], maximum).tables, Run(actions, maximum).tables, maximum)
    decreases |actions|
  {
    hide Extends, After, TablesOk;
    if n == |actions| {
      assert actions[..n] == actions;
      SelfExtends(Run(actions, maximum).tables, maximum);
    } else {
      var front := actions[..|actions| - 1];
      assert front[..n] == actions[..n];
      RunsOnlyExtend(front, n, maximum);
      RunKeepsInvariants(front, maximum);
      StepKeepsTables(Run(front, maximum).tables, actions[|actions| - 1], maximum);
      ExtendsTwice(Run(front[..n], maximum).tables, Run(front, maximum).tables, Run(actions, maximum).tables, maximum);
    }
  }

  // ----- Main results -----

  /**
   A wallet challenge makes one session when it is consumed, none otherwise and never a second; a passkey challenge makes
   at most one credential, and is consumed exactly when it made one or met a credential already there.
   */
  lemma ChallengesAreSingleUse(actions: seq<Action>, maximum: nat, c: Uuid)
    ensures var s := Run(actions, maximum);
            && |UsesOf(s.ledger, c, true)| <= 1 && |UsesOf(s.ledger, c, false)| <= 1
            && (|UsesOf(s.ledger, c, true)| == 1 <==> Spent(s.tables, c, true))
            && (|UsesOf(s.ledger, c, false)| == 1 <==> Spent(s.tables, c, false))
  {
    RunKeepsInvariants(actions, maximum);
    hide Spent, UsesOf, Run;
  }

  /** The session made from a wallet challenge is, for good, that of the one user its wallet is bound to. */
  lemma SessionsBelongToTheWalletsUser(actions: seq<Action>, maximum: nat, k: nat)
    requires k < |Run(actions, maximum).ledger| && Run(actions, maximum).ledger[k].SessionMade?
    ensures var (t, e) := (Run(actions, maximum).tables, Run(actions, maximum).ledger[k]);
            && e.challengeId in t.walletChallenges && e.sessionId in t.sessions
            && var w := t.walletChallenges[e.challengeId].terms.wallet;
            && w in t.identities && t.sessions[e.sessionId].userId == t.identities[w]
  {
    RunKeepsInvariants(actions, maximum);
    assert EntryOk(Run(actions, maximum).tables, Run(actions, maximum).ledger[k]);
  }

  /** Stored attempts never pass the maximum, and whatever is consumed was so in time and with attempts to spare. */
  lemma AttemptsStayWithin(actions: seq<Action>, maximum: nat, c: Uuid)
    ensures var t := Run(actions, maximum).tables;
            && (c in t.walletChallenges ==> WalletChallengeOk(t.walletChallenges[c], maximum))
            && (c in t.passkeyChallenges && t.passkeyChallenges[c].consumedAt.Some? ==>
                  t.passkeyChallenges[c].consumedAt.value < t.passkeyChallenges[c].terms.expiresAt)
  {
    RunKeepsInvariants(actions, maximum);
    hide Run;
  }

  /**
   In any run a token finds exactly the unrevoked, unexpired session it belongs to, and renewal never passes its
   absolute expiry.
   */
  lemma FoundIffLive(actions: seq<Action>, maximum: nat, tokenHash: string, now: Instant, idleLifetimeMs: int, s: Uuid)
    requires s in Run(actions, maximum).tables.sessions
    ensures var t := Run(actions, maximum).tables;
            var (t', found) := FindAndRenew(t, tokenHash, now, idleLifetimeMs);
            && (found == Some(s) <==> Live(t.sessions[s], tokenHash, now))
            && s in t'.sessions && t'.sessions[s].idleExpiresAt <= t'.sessions[s].absoluteExpiresAt
  {
    RunKeepsInvariants(actions, maximum);
    hide Run, UsersOk, AttemptsOk, PasskeysOk, EventsOk, LedgerOk;
  }

  /** A session is the subject of at most one security event, and is revoked from then on. */
  lemma SessionsEndInOneEvent(actions: seq<Action>, maximum: nat)
    ensures EventsOk(Run(actions, maximum).tables.events, Run(actions, maximum).tables.sessions)
  {
    RunKeepsInvariants(actions, maximum);
    hide Run;
  }

  /** Out of attempts without being consumed: no later step makes a session from the challenge. */
  lemma ExhaustedChallengesAreDead(actions: seq<Action>, n: nat, maximum: nat, c: Uuid)
    requires n <= |actions|
    requires var t := Run(actions[..n], maximum).tables;
             c in t.walletChallenges && t.walletChallenges[c].attempts >= maximum && t.walletChallenges[c].consumedAt.None?
    ensures UsesOf(Run(actions, maximum).ledger, c, true) == []
  {
    RunsOnlyExtend(actions, n, maximum);
    RunKeepsInvariants(actions, maximum);
    var t, s' := Run(actions[..n], maximum).tables, Run(actions, maximum);
    hide Run, UsesOf;
    assert WalletChallengeKept(t.walletChallenges[c], s'.tables.walletChallenges[c], maximum);
    assert !Spent(s'.tables, c, true);
    assert |UsesOf(s'.ledger, c, true)| == 0;
  }

  /** Once revoked, a session is never found, renewed or revoked again by its token, at whatever time. */
  lemma RevokedSessionsAreNeverFound(actions: seq<Action>, n: nat, maximum: nat, s: Uuid, now: Instant, idleLifetimeMs: int)
    requires n <= |actions|
    requires var t := Run(actions[..n], maximum).tables; s in t.sessions && t.sessions[s].revokedAt.Some?
    ensures var (t, t') := (Run(actions[..n], maximum).tables, Run(actions, maximum).tables);
            && s in t'.sessions && t'.sessions[s] == t.sessions[s]
            && FindAndRenew(t', t.sessions[s].tokenHash, now, idleLifetimeMs) == (t', None)
            && Revoke(t', t.sessions[s].tokenHash, now) == (t', false)
  {
    RunsOnlyExtend(actions, n, maximum);
    RunKeepsInvariants(actions, maximum);
    var t, t' := Run(actions[..n], maximum).tables, Run(actions, maximum).tables;
    hide Run, UsersOk, AttemptsOk, EventsOk, LedgerOk, WalletChallengesExtend, PasskeyChallengesExtend, IdentitiesExtend;
    assert SessionKept(t.sessions[s], t'.sessions[s]);
  }

  /**
   Users come only from wallets, so whoever has a session has a wallet left: unlinking is never refused as the final
   method.
   */
  lemma UnlinkingIsNeverFinal(actions: seq<Action>, maximum: nat, r: UnlinkRequest)
    ensures Unlink(Run(actions, maximum).tables, r).1 != FinalMethod
  {
    RunKeepsInvariants(actions, maximum);
    hide Run, EventsOk, AttemptsOk, LedgerOk, HasWallet, SessionFits, RevokeAll;
  }

  /** As one transaction, each ceremony but a sign-in leaves its user with the new session as the only unrevoked one. */
  lemma OnlyTheReplacementLives(t: Tables, a: Action, maximum: nat, user: Uuid, made: Uuid)
    requires match a
             case ConsumeChallenge(c) =>
               c.terms.action != SignIn && Consume(t, c, maximum).1 == Consumed(user) && made == c.sessionId
             case LinkPasskey(r) => CompleteLink(t, r).1.Linked? && user == r.terms.userId && made == r.sessionId
             case UnlinkPasskey(r) => Unlink(t, r).1.Unlinked? && user == r.userId && made == r.newSessionId
             case _ => false
    ensures var sessions := After(t, a, maximum).sessions;
            forall s | s in sessions && sessions[s].userId == user :: sessions[s].revokedAt.None? <==> s == made
  {
    hide Active, SessionFits, ResolveUser, HasWallet, Ended;
    var now := match a
      case ConsumeChallenge(c) => c.now
      case LinkPasskey(r) => r.now
      case UnlinkPasskey(r) => r.now
      case _ => 0;
    forall s | s in t.sessions
      ensures Ended(t.sessions[s], user, now).userId == user ==> Ended(t.sessions[s], user, now).revokedAt.Some?
    {
      EndedIsRevoked(t.sessions[s], user, now);
    }
  }

  lemma EndedIsRevoked(s: Session, user: Uuid, now: Instant)
    ensures Ended(s, user, now).userId == user ==> Ended(s, user, now).revokedAt.Some?
  {
  }

  /** Unlinking what was linked restores the credentials. */
  lemma UnlinkingUndoesLinking(t: Tables, r: LinkRequest, u: UnlinkRequest)
    requires CompleteLink(t, r).1.Linked? && u.credentialId == r.credentialId
    requires Unlink(CompleteLink(t, r).0, u).1.Unlinked?
    ensures Unlink(CompleteLink(t, r).0, u).0.credentials == t.credentials
    ensures u.userId == r.terms.userId && u.sessionId != r.terms.sessionId
  {
    hide HasWallet;
    assert Active(t.sessions, r.terms.sessionId, r.terms.userId, r.minimumAuthenticatedAt, r.now);
    assert Active(CompleteLink(t, r).0.sessions, u.sessionId, u.userId, u.minimumAuthenticatedAt, u.now);
  }
}
