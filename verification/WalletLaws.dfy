/** What each complaint about evidence, candidates and policies says of them, and what enabling asks for, written out. */
module WalletLaws {
  import opened Common
  import opened WalletQualification
  import opened WalletEvaluator

  // ----- Evidence -----

  /** Later than the clock; with a clock that is no number, never. */
  predicate Early(e: Evidence, now: Number) {
    && e.observedAt.Some?
    && ((now.Finite? && now.value < e.observedAt.value as real) || now == Infinite(false))
  }

  /** Older than allowed; with a clock or an age that is no number, never. */
  predicate Old(e: Evidence, p: Policy, now: Number) {
    var age := p.maximumEvidenceAgeMs;
    && e.observedAt.Some?
    && (|| (now.Finite? && age.Finite? && e.observedAt.value as real + age.value < now.value)
        || (now.Finite? && age == Infinite(false))
        || (now == Infinite(true) && (age.Finite? || age == Infinite(false))))
  }

  predicate Misversioned(e: Evidence) {
    e.coreVersion != "0.0.85" || e.reactVersion != "0.0.80"
  }

  /** A message check without a scheme, or another check with one. */
  predicate Misschemed(e: Evidence) {
    if e.key.check in {MessageApproved, MessageRejected, MessageServerVerified} then e.key.scheme == NotApplicable
    else e.key.scheme != NotApplicable
  }

  /** Which reason is given for an item of evidence: the first that applies. */
  lemma ReasonIff(e: Evidence, p: Policy, now: Number)
    ensures var r := FailureOf(e, p, now);
            && (r == Some(InvalidTimestamp) <==> e.observedAt == None)
            && (r == Some(InTheFuture) <==> Early(e, now))
            && (r == Some(Stale) <==> !Early(e, now) && Old(e, p, now))
            && var current := e.observedAt.Some? && !Early(e, now) && !Old(e, p, now);
            && (r == Some(OtherVersion) <==> current && Misversioned(e))
            && (r == Some(OtherFixture) <==> current && !Misversioned(e) && e.fixtureId != p.fixtureId)
            && (r == Some(IncompatibleScheme) <==>
                  current && !Misversioned(e) && e.fixtureId == p.fixtureId && Misschemed(e))
            && (r == Some(DidFail) <==>
                  current && !Misversioned(e) && e.fixtureId == p.fixtureId && !Misschemed(e) && e.outcome == Outcome.Failed)
            && (r == None <==>
                  current && !Misversioned(e) && e.fixtureId == p.fixtureId && !Misschemed(e) && e.outcome == Passed)
  {
  }

  /** An item is reported as a repetition if one before it has its key, else for its reason, else not at all. */
  ghost predicate ReportsAs(evidence: seq<Evidence>, i: nat, p: Policy, now: Number, f: Failure) {
    && i < |evidence|
    && if exists j :: 0 <= j < i && evidence[j].key == evidence[i].key then f == DuplicateEvidence(evidence[i].key)
       else FailureOf(evidence[i], p, now).Some?
            && f == BadEvidence(evidence[i].key, FailureOf(evidence[i], p, now).value)
  }

  lemma {:induction false} EvidenceReportIff(evidence: seq<Evidence>, p: Policy, now: Number, f: Failure)
    ensures f in EvidenceReport(evidence, p, now) <==> exists i: nat :: ReportsAs(evidence, i, p, now, f)
  {
    if evidence != [] {
      var front, last := evidence[..|evidence| - 1], evidence[|evidence| - 1];
      EvidenceReportIff(front, p, now, f);
      forall i: nat
        ensures i < |front| ==> (ReportsAs(evidence, i, p, now, f) <==> ReportsAs(front, i, p, now, f))
      {
        ReportsAsBefore(evidence, i, p, now, f);
      }
      LastReport(evidence, p, now, f);
      assert forall i: nat :: ReportsAs(evidence, i, p, now, f) ==> i < |evidence|;
      assert forall i: nat :: ReportsAs(front, i, p, now, f) ==> i < |front|;
      hide ReportsAs, ItemReport;
    }
  }

  lemma ReportsAsBefore(evidence: seq<Evidence>, i: nat, p: Policy, now: Number, f: Failure)
    requires evidence != []
    ensures var front := evidence[..|evidence| - 1];
            i < |front| ==> (ReportsAs(evidence, i, p, now, f) <==> ReportsAs(front, i, p, now, f))
  {
    hide FailureOf;
  }

  lemma LastReport(evidence: seq<Evidence>, p: Policy, now: Number, f: Failure)
    requires evidence != []
    ensures f in ItemReport(evidence[..|evidence| - 1], evidence[|evidence| - 1], p, now) <==>
            ReportsAs(evidence, |evidence| - 1, p, now, f)
  {
    hide FailureOf;
    var front, last := evidence[..|evidence| - 1], evidence[|evidence| - 1];
    assert forall j | 0 <= j < |front| :: front[j] == evidence[j];
  }

  // ----- The matrix -----

  /** A mapping of a list to lists goes through it in order. */
  lemma {:induction false} FlatMapInOrder<A(!new), B(!new)>(one: seq<A>, other: seq<A>, f: A -> seq<B>)
    ensures FlatMap(one + other, f) == FlatMap(one, f) + FlatMap(other, f)
    ensures forall x: A :: FlatMap([x], f) == f(x)
  {
    forall x: A
      ensures FlatMap([x], f) == f(x)
    {
      assert [x][..0] == [] && [x][0] == x;
    }
    if other == [] {
      assert one + other == one;
    } else {
      var front, last := other[..|other| - 1], other[|other| - 1];
      FlatMapInOrder(one, front, f);
      assert (one + other)[..|one + other| - 1] == one + front;
    }
  }

  // ----- Candidates -----

  ghost predicate Blank(text: string) {
    forall k | 0 <= k < |text| :: IsWhiteSpace(text[k])
  }

  ghost predicate Repeats<T(!new)>(items: seq<T>) {
    exists i, j :: 0 <= i < j < |items| && items[i] == items[j]
  }

  /** What each complaint about a candidate says. */
  lemma CandidateComplaintIff(c: Candidate, twice: bool, p: Policy, accepted: set<Key>, f: Failure)
    ensures f in CandidateReport(c, twice, p, accepted) <==>
            || (f == NoCapabilities(c.provider) && |c.capabilities| == 0)
            || (f == NoWalletVersion(c.provider) && Blank(c.walletVersion))
            || (f == DuplicateCapabilities(c.provider) && Repeats(c.capabilities))
            || (f == SigningWithoutConnection(c.provider) && |c.capabilities| > 0 && Connect !in c.capabilities)
            || (f == NoMessageScheme(c.provider) && MessageSign in c.capabilities && |p.messageSigningSchemes| == 0)
            || (f == ConfiguredTwice(c.provider) && twice)
            || (f.NoPassingEvidence? && Demands(c, p, f.key) && f.key !in accepted)
  {
    InMissing(RequiredKeys(c, p), accepted, f);
    if f.NoPassingEvidence? {
      RequiredKeysIff(c, p, f.key);
    }
    ConfigurationComplaintIff(c, f);
    var unschemed := MessageSign in c.capabilities && p.messageSigningSchemes == [];
    InOrder(ConfigurationReport(c), When(unschemed, NoMessageScheme(c.provider)), When(twice, ConfiguredTwice(c.provider)),
            Missing(RequiredKeys(c, p), accepted), f);
    InWhen(unschemed, NoMessageScheme(c.provider), f);
    InWhen(twice, ConfiguredTwice(c.provider), f);
    hide RequiredKeys, Demands, Missing, ConfigurationReport, Blank, Repeats, When;
  }

  lemma InOrder<T>(a: seq<T>, b: seq<T>, c: seq<T>, d: seq<T>, x: T)
    ensures x in a + b + c + d <==> x in a || x in b || x in c || x in d
  {
  }

  lemma InWhen(condition: bool, g: Failure, f: Failure)
    ensures f in When(condition, g) <==> condition && f == g
  {
  }

  lemma ConfigurationComplaintIff(c: Candidate, f: Failure)
    ensures f in ConfigurationReport(c) <==>
            || (f == NoCapabilities(c.provider) && |c.capabilities| == 0)
            || (f == NoWalletVersion(c.provider) && Blank(c.walletVersion))
            || (f == DuplicateCapabilities(c.provider) && Repeats(c.capabilities))
            || (f == SigningWithoutConnection(c.provider) && |c.capabilities| > 0 && Connect !in c.capabilities)
  {
    BlankIff(c.walletVersion);
    InOrder(When(c.capabilities == [], NoCapabilities(c.provider)),
            When(IsBlank(c.walletVersion), NoWalletVersion(c.provider)),
            When(!NoDuplicates(c.capabilities), DuplicateCapabilities(c.provider)),
            When(c.capabilities != [] && Connect !in c.capabilities, SigningWithoutConnection(c.provider)), f);
    hide Blank, IsBlank;
  }

  lemma BlankIff(text: string)
    ensures Blank(text) <==> IsBlank(text)
  {
    assert forall k | 0 <= k < |text| :: text[k] in text;
  }

  lemma {:induction false} InMissing(keys: seq<Key>, accepted: set<Key>, f: Failure)
    ensures f in Missing(keys, accepted) <==> f.NoPassingEvidence? && f.key in keys && f.key !in accepted
  {
    if keys != [] {
      var front, last := keys[..|keys| - 1], keys[|keys| - 1];
      assert keys == front + [last];
      InMissing(front, accepted, f);
    }
  }

  /** What a candidate must cover, check by check. */
  lemma DemandsIff(c: Candidate, p: Policy, k: Key)
    ensures Demands(c, p, k) <==>
            && k.provider == c.provider && k.walletVersion == c.walletVersion
            && k.environment in p.environments && k.network in p.networks && k.addressType in p.addressTypes
            && (k.check in {ConnectApproved, ConnectRejected, AccountChange, NetworkChange} ==>
                  Connect in c.capabilities && k.scheme == NotApplicable)
            && (k.check in {MessageApproved, MessageRejected, MessageServerVerified} ==>
                  MessageSign in c.capabilities && k.scheme in p.messageSigningSchemes)
            && (k.check in {PsbtApproved, PsbtRejected, PsbtServerVerified, AlkanesFixtureMatched} ==>
                  PsbtSign in c.capabilities && k.scheme == NotApplicable)
  {
  }

  // ----- The policy -----

  /** What each complaint about a policy says. */
  lemma PolicyComplaintIff(p: Policy, f: Failure)
    ensures f in Complaints(p, 10) <==>
            match f
            case NoAddressTypes => |p.addressTypes| == 0
            case NoEnvironments => |p.environments| == 0
            case NoFixture => Blank(p.fixtureId)
            case LifetimeNotPositive => !(p.maximumEvidenceAgeMs.Finite? && p.maximumEvidenceAgeMs.value > 0.0)
            case NoNetworks => |p.networks| == 0
            case DuplicateAddressTypes => Repeats(p.addressTypes)
            case DuplicateNetworks => Repeats(p.networks)
            case DuplicateSchemes => Repeats(p.messageSigningSchemes)
            case DuplicateEnvironments => Repeats(p.environments)
            case BlankEnvironment =>
              exists e :: e in p.environments && (Blank(e.browserName) || Blank(e.browserVersion) || Blank(e.os))
            case _ => false
  {
    InComplaints(p, 10, f);
    assert POLICY_COMPLAINTS[..10] == POLICY_COMPLAINTS;
    BlankIff(p.fixtureId);
    BlankNamesIff(p);
    hide Complaints, IsBlank, Blank;
  }

  lemma BlankNamesIff(p: Policy)
    ensures (exists e :: e in p.environments && (Blank(e.browserName) || Blank(e.browserVersion) || Blank(e.os))) <==>
            exists e | e in p.environments :: BlankNames(e)
  {
    hide Blank, IsBlank;
    forall e: Environment
      ensures Blank(e.browserName) || Blank(e.browserVersion) || Blank(e.os) <==> BlankNames(e)
    {
      BlankIff(e.browserName);
      BlankIff(e.browserVersion);
      BlankIff(e.os);
    }
  }

  // ----- Enabling -----

  /** Item `i` is the only one of its key, and there is no reason against it. */
  ghost predicate Convinces(evidence: seq<Evidence>, i: nat, p: Policy, now: Number) {
    && i < |evidence| && FailureOf(evidence[i], p, now) == None
    && forall j | 0 <= j < |evidence| && evidence[j].key == evidence[i].key :: j == i
  }

  /**
   A candidate of the list is enabled exactly when the policy and the clock are without fault, its configuration is
   complete and the only one of its provider, all evidence about its provider convinces, and its whole matrix is covered.
   */
  lemma EnabledIff(candidates: seq<Candidate>, evidence: seq<Evidence>, p: Policy, now: Number, c: Candidate)
    requires c in candidates
    ensures c in EnabledAmong(candidates, candidates, evidence, p, now) <==>
            && (forall f :: f !in Complaints(p, 10)) && now.Finite?
            && Connect in c.capabilities && !Repeats(c.capabilities) && !Blank(c.walletVersion)
            && (MessageSign in c.capabilities ==> |p.messageSigningSchemes| > 0)
            && (forall i, j | 0 <= i < j < |candidates| && candidates[i].provider == c.provider ::
                  candidates[j].provider != c.provider)
            && (forall i: nat | i < |evidence| && evidence[i].key.provider == c.provider :: Convinces(evidence, i, p, now))
            && (forall k | Demands(c, p, k) :: exists i: nat :: Convinces(evidence, i, p, now) && evidence[i].key == k)
  {
    EnabledAmongIff(candidates, candidates, evidence, p, now, c);
    UncontestedIffValid(p);
    BlankIff(c.walletVersion);
    ConvincesIff(evidence, p, now);
    hide Complaints, ValidPolicy, Blank, IsBlank, Demands, FailureOf, EnabledAmong;
    NoneAmong(Complaints(p, 10));
    SpoiledIff(evidence, p, now, c.provider);
    forall k | Demands(c, p, k)
      ensures Accepted(evidence, p, now, k) <==> exists i: nat :: Convinces(evidence, i, p, now) && evidence[i].key == k
    {
      AcceptedIff(evidence, p, now, k);
    }
    hide Convinces, Accepted, Spoiled;
  }

  lemma NoneAmong(failures: seq<Failure>)
    ensures failures == [] <==> forall f :: f !in failures
  {
    assert failures != [] ==> failures[0] in failures;
  }

  lemma ConvincesIff(evidence: seq<Evidence>, p: Policy, now: Number)
    ensures forall i: nat | i < |evidence| ::
              Convinces(evidence, i, p, now) <==> Sole(evidence, i) && Passes(evidence[i], p, now)
  {
    hide FailureOf;
  }

  lemma SpoiledIff(evidence: seq<Evidence>, p: Policy, now: Number, provider: string)
    ensures !Spoiled(evidence, p, now, provider) <==>
            forall i: nat | i < |evidence| && evidence[i].key.provider == provider :: Convinces(evidence, i, p, now)
  {
    ConvincesIff(evidence, p, now);
    hide Convinces, Sole, Passes;
  }

  lemma AcceptedIff(evidence: seq<Evidence>, p: Policy, now: Number, k: Key)
    ensures Accepted(evidence, p, now, k) <==> exists i: nat :: Convinces(evidence, i, p, now) && evidence[i].key == k
  {
    ConvincesIff(evidence, p, now);
    assert forall i: nat :: Convinces(evidence, i, p, now) ==> i < |evidence|;
    hide Convinces, Sole, Passes;
  }
}
