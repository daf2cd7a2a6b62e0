/** The evaluation of conformance evidence against configured candidates, as one pass over each list. */
module WalletEvaluator {
  import opened Common
  import opened WalletQualification

  // ----- Required keys -----

  function ChecksOf(c: Capability): seq<Check> {
    match c
    case Connect => [ConnectApproved, ConnectRejected, AccountChange, NetworkChange]
    case MessageSign => [MessageApproved, MessageRejected, MessageServerVerified]
    case PsbtSign => [PsbtApproved, PsbtRejected, PsbtServerVerified, AlkanesFixtureMatched]
  }

  function SchemesFor(c: Capability, p: Policy): seq<SigningScheme> {
    if c == MessageSign then p.messageSigningSchemes else [NotApplicable]
  }

  function FlatMap<A(!new), B(!new)>(items: seq<A>, f: A -> seq<B>): (r: seq<B>)
    ensures forall y :: y in r <==> exists x :: x in items && y in f(x)
  {
    if items == [] then []
    else
      var front, last := items[..|items| - 1], items[|items| - 1];
      assert items == front + [last];
      FlatMap(front, f) + f(last)
  }

  function KeysOfEnvironment(c: Candidate, p: Policy, capability: Capability, e: Environment): seq<Key> {
    FlatMap(p.networks, (network: Network) =>
      FlatMap(p.addressTypes, (address: AddressType) =>
        FlatMap(SchemesFor(capability, p), (scheme: SigningScheme) =>
          FlatMap(ChecksOf(capability), (check: Check) =>
            [Key(c.provider, c.walletVersion, e, network, address, scheme, check)]))))
  }

  function RequiredKeys(c: Candidate, p: Policy): seq<Key> {
    FlatMap(c.capabilities, (capability: Capability) =>
      FlatMap(p.environments, (e: Environment) => KeysOfEnvironment(c, p, capability, e)))
  }

  function CapabilityOf(check: Check): Capability {
    match check
    case ConnectApproved | ConnectRejected | AccountChange | NetworkChange => Connect
    case MessageApproved | MessageRejected | MessageServerVerified => MessageSign
    case PsbtApproved | PsbtRejected | PsbtServerVerified | AlkanesFixtureMatched => PsbtSign
  }

  /** The matrix a candidate must cover: every check of its capabilities in every environment the policy names. */
  predicate Demands(c: Candidate, p: Policy, k: Key) {
    && k.provider == c.provider && k.walletVersion == c.walletVersion
    && k.environment in p.environments && k.network in p.networks && k.addressType in p.addressTypes
    && CapabilityOf(k.check) in c.capabilities
    && if CapabilityOf(k.check) == MessageSign then k.scheme in p.messageSigningSchemes else k.scheme == NotApplicable
  }

  lemma KeysOfEnvironmentIff(c: Candidate, p: Policy, capability: Capability, e: Environment, k: Key)
    ensures k in KeysOfEnvironment(c, p, capability, e) <==>
            && k.provider == c.provider && k.walletVersion == c.walletVersion && k.environment == e
            && k.network in p.networks && k.addressType in p.addressTypes
            && k.scheme in SchemesFor(capability, p) && k.check in ChecksOf(capability)
  {
    hide ChecksOf, SchemesFor;
  }

  lemma RequiredKeysIff(c: Candidate, p: Policy, k: Key)
    ensures k in RequiredKeys(c, p) <==> Demands(c, p, k)
  {
    hide KeysOfEnvironment;
    forall capability, e
      ensures k in KeysOfEnvironment(c, p, capability, e) <==>
              && k.provider == c.provider && k.walletVersion == c.walletVersion && k.environment == e
              && k.network in p.networks && k.addressType in p.addressTypes
              && k.scheme in SchemesFor(capability, p) && k.check in ChecksOf(capability)
    {
      KeysOfEnvironmentIff(c, p, capability, e, k);
    }
    assert forall capability: Capability :: k.check in ChecksOf(capability) <==> CapabilityOf(k.check) == capability;
  }

  // ----- One item of evidence -----

  predicate Greater(a: Number, b: Number) {
    match (a, b)
    case (Finite(x), Finite(y)) => x > y
    case (Infinite(up), Finite(_)) => up
    case (Finite(_), Infinite(up)) => !up
    case (Infinite(up), Infinite(other)) => up && !other
    case _ => false
  }

  function Minus(a: Number, at: Instant): Number {
    if a.Finite? then Finite(a.value - at as real) else a
  }

  predicate Meets(e: Evidence, p: Policy, now: real, maximumAge: real) {
    && e.outcome == Passed
    && e.observedAt.Some? && 0.0 <= now - e.observedAt.value as real <= maximumAge
    && e.coreVersion == CORE_VERSION && e.reactVersion == REACT_VERSION && e.fixtureId == p.fixtureId
    && (CapabilityOf(e.key.check) == MessageSign <==> e.key.scheme != NotApplicable)
  }

  function FailureOf(e: Evidence, p: Policy, now: Number): (r: Option<EvidenceFailure>)
    ensures now.Finite? && p.maximumEvidenceAgeMs.Finite? ==>
              (r.None? <==> Meets(e, p, now.value, p.maximumEvidenceAgeMs.value))
  {
    if e.observedAt.None? then Some(InvalidTimestamp)
    else if Greater(Finite(e.observedAt.value as real), now) then Some(InTheFuture)
    else if Greater(Minus(now, e.observedAt.value), p.maximumEvidenceAgeMs) then Some(Stale)
    else if e.coreVersion != CORE_VERSION || e.reactVersion != REACT_VERSION then Some(OtherVersion)
    else if e.fixtureId != p.fixtureId then Some(OtherFixture)
    else if (e.key.check in ChecksOf(MessageSign)) == (e.key.scheme == NotApplicable) then Some(IncompatibleScheme)
    else if e.outcome == Outcome.Failed then Some(DidFail)
    else None
  }

  predicate Passes(e: Evidence, p: Policy, now: Number) {
    FailureOf(e, p, now).None?
  }

  // ----- All the evidence -----

  /** No other item has the key of item `i`. */
  predicate Sole(evidence: seq<Evidence>, i: nat)
    requires i < |evidence|
  {
    forall j | 0 <= j < |evidence| :: j != i ==> evidence[j].key != evidence[i].key
  }

  /** The keys with one item of evidence, and that one passing. */
  ghost predicate Accepted(evidence: seq<Evidence>, p: Policy, now: Number, k: Key) {
    exists i :: 0 <= i < |evidence| && evidence[i].key == k && Sole(evidence, i) && Passes(evidence[i], p, now)
  }

  predicate Mentioned(evidence: seq<Evidence>, k: Key) {
    exists i :: 0 <= i < |evidence| && evidence[i].key == k
  }

  /** A provider with evidence that fails or shares its key. */
  ghost predicate Spoiled(evidence: seq<Evidence>, p: Policy, now: Number, provider: string) {
    exists i :: 0 <= i < |evidence| && evidence[i].key.provider == provider
                && !(Sole(evidence, i) && Passes(evidence[i], p, now))
  }

  function ItemReport(earlier: seq<Evidence>, e: Evidence, p: Policy, now: Number): seq<Failure> {
    if Mentioned(earlier, e.key) then [DuplicateEvidence(e.key)]
    else match FailureOf(e, p, now)
      case Some(reason) => [BadEvidence(e.key, reason)]
      case None => []
  }

  function EvidenceReport(evidence: seq<Evidence>, p: Policy, now: Number): seq<Failure> {
    if evidence == [] then []
    else
      var front, last := evidence[..|evidence| - 1], evidence[|evidence| - 1];
      EvidenceReport(front, p, now) + ItemReport(front, last, p, now)
  }

  lemma MentionedSnoc(earlier: seq<Evidence>, e: Evidence, k: Key)
    ensures Mentioned(earlier + [e], k) <==> Mentioned(earlier, k) || k == e.key
  {
    if Mentioned(earlier, k) {
      var i :| 0 <= i < |earlier| && earlier[i].key == k;
      assert (earlier + [e])[i].key == k;
    }
    assert (earlier + [e])[|earlier|] == e;
  }

  lemma AcceptedSnoc(earlier: seq<Evidence>, e: Evidence, p: Policy, now: Number, k: Key)
    ensures Accepted(earlier + [e], p, now, k) <==>
            if k == e.key then !Mentioned(earlier, k) && Passes(e, p, now) else Accepted(earlier, p, now, k)
  {
    var all := earlier + [e];
    hide Passes;
    assert all[|earlier|] == e;
    assert Sole(all, |earlier|) <==> !Mentioned(earlier, e.key) by {
      assert forall i | 0 <= i < |earlier| :: all[i] == earlier[i];
    }
    if k != e.key {
      forall i | 0 <= i < |earlier| && earlier[i].key == k
        ensures Sole(all, i) <==> Sole(earlier, i)
      {
        assert forall j | 0 <= j < |earlier| :: all[j] == earlier[j];
      }
    } else if Accepted(all, p, now, k) {
      var i :| 0 <= i < |all| && all[i].key == k && Sole(all, i) && Passes(all[i], p, now);
      assert i == |earlier|;
    }
  }

  lemma SpoiledSnoc(earlier: seq<Evidence>, e: Evidence, p: Policy, now: Number, provider: string)
    ensures Spoiled(earlier + [e], p, now, provider) <==>
            || Spoiled(earlier, p, now, provider)
            || (provider == e.key.provider && (Mentioned(earlier, e.key) || !Passes(e, p, now)))
  {
    var all := earlier + [e];
    hide Passes;
    assert all[|earlier|] == e;
    assert forall i | 0 <= i < |earlier| :: all[i] == earlier[i];
    assert Sole(all, |earlier|) <==> !Mentioned(earlier, e.key);
    if Spoiled(earlier, p, now, provider) {
      var i :| 0 <= i < |earlier| && earlier[i].key.provider == provider
               && !(Sole(earlier, i) && Passes(earlier[i], p, now));
      assert Sole(all, i) ==> Sole(earlier, i);
      assert all[i].key.provider == provider;
    }
    if Spoiled(all, p, now, provider) {
      var i :| 0 <= i < |all| && all[i].key.provider == provider && !(Sole(all, i) && Passes(all[i], p, now));
      if i < |earlier| && !Spoiled(earlier, p, now, provider) {
        assert Sole(earlier, i);
        assert earlier[i].key == e.key;
      }
    }
  }

  method ReadEvidence(evidence: seq<Evidence>, p: Policy, now: Number)
    returns (accepted: set<Key>, invalidProviders: set<string>, failures: seq<Failure>)
    ensures forall k: Key :: k in accepted <==> Accepted(evidence, p, now, k)
    ensures forall provider: string :: provider in invalidProviders <==> Spoiled(evidence, p, now, provider)
    ensures failures == EvidenceReport(evidence, p, now)
  {
    hide Passes, FailureOf, Accepted, Mentioned, Spoiled, EvidenceReport;
    var rejected: set<Key> := {};
    NoEvidence(p, now);
    accepted, invalidProviders, failures := {}, {}, [];
    for n := 0 to |evidence|
      invariant forall k: Key :: k in accepted <==> Accepted(evidence[..n], p, now, k)
      invariant forall k: Key :: k in accepted || k in rejected <==> Mentioned(evidence[..n], k)
      invariant accepted !! rejected
      invariant forall provider: string :: provider in invalidProviders <==> Spoiled(evidence[..n], p, now, provider)
      invariant failures == EvidenceReport(evidence[..n], p, now)
    {
      var e := evidence[n];
      ghost var earlier := evidence[..n];
      assert evidence[..n + 1] == earlier + [e];
      Snoc(earlier, e, p, now);
      var failure := FailureOf(e, p, now);
      if e.key in accepted || e.key in rejected {
        failures := failures + [DuplicateEvidence(e.key)];
        rejected := rejected + {e.key};
        accepted := accepted - {e.key};
        invalidProviders := invalidProviders + {e.key.provider};
      } else if failure.Some? {
        failures := failures + [BadEvidence(e.key, failure.value)];
        rejected := rejected + {e.key};
        invalidProviders := invalidProviders + {e.key.provider};
      } else {
        accepted := accepted + {e.key};
      }
    }
    assert evidence[..|evidence|] == evidence;
  }

  lemma NoEvidence(p: Policy, now: Number)
    ensures forall k: Key :: !Mentioned([], k) && !Accepted([], p, now, k)
    ensures forall provider: string :: !Spoiled([], p, now, provider)
    ensures EvidenceReport([], p, now) == []
  {
  }

  lemma Snoc(earlier: seq<Evidence>, e: Evidence, p: Policy, now: Number)
    ensures Passes(e, p, now) <==> FailureOf(e, p, now).None?
    ensures EvidenceReport(earlier + [e], p, now) == EvidenceReport(earlier, p, now) + ItemReport(earlier, e, p, now)
    ensures forall k: Key :: Mentioned(earlier + [e], k) <==> Mentioned(earlier, k) || k == e.key
    ensures forall k: Key :: Accepted(earlier + [e], p, now, k) <==>
              if k == e.key then !Mentioned(earlier, k) && Passes(e, p, now) else Accepted(earlier, p, now, k)
    ensures forall provider: string :: Spoiled(earlier + [e], p, now, provider) <==>
              || Spoiled(earlier, p, now, provider)
              || (provider == e.key.provider && (Mentioned(earlier, e.key) || !Passes(e, p, now)))
  {
    hide Mentioned, Accepted, Spoiled, FailureOf, ItemReport;
    assert (earlier + [e])[..|earlier|] == earlier;
    forall k: Key
      ensures Mentioned(earlier + [e], k) <==> Mentioned(earlier, k) || k == e.key
      ensures Accepted(earlier + [e], p, now, k) <==>
              if k == e.key then !Mentioned(earlier, k) && Passes(e, p, now) else Accepted(earlier, p, now, k)
    {
      MentionedSnoc(earlier, e, k);
      AcceptedSnoc(earlier, e, p, now, k);
    }
    forall provider: string
      ensures Spoiled(earlier + [e], p, now, provider) <==>
              || Spoiled(earlier, p, now, provider)
              || (provider == e.key.provider && (Mentioned(earlier, e.key) || !Passes(e, p, now)))
    {
      SpoiledSnoc(earlier, e, p, now, provider);
    }
  }

  // ----- Candidates -----

  predicate WellFormed(c: Candidate, p: Policy) {
    && c.capabilities != [] && NoDuplicates(c.capabilities) && Connect in c.capabilities
    && !IsBlank(c.walletVersion)
    && (MessageSign in c.capabilities ==> p.messageSigningSchemes != [])
  }

  predicate Repeated(candidates: seq<Candidate>, provider: string) {
    exists i, j :: 0 <= i < j < |candidates| && candidates[i].provider == provider && candidates[j].provider == provider
  }

  function When(condition: bool, f: Failure): seq<Failure> {
    if condition then [f] else []
  }

  function Missing(keys: seq<Key>, accepted: set<Key>): (r: seq<Failure>)
    ensures r == [] <==> forall k | k in keys :: k in accepted
  {
    if keys == [] then []
    else
      var front, last := keys[..|keys| - 1], keys[|keys| - 1];
      assert keys == front + [last];
      Missing(front, accepted) + When(last !in accepted, NoPassingEvidence(last))
  }

  function ConfigurationReport(c: Candidate): seq<Failure> {
    When(c.capabilities == [], NoCapabilities(c.provider)) +
    When(IsBlank(c.walletVersion), NoWalletVersion(c.provider)) +
    When(!NoDuplicates(c.capabilities), DuplicateCapabilities(c.provider)) +
    When(c.capabilities != [] && Connect !in c.capabilities, SigningWithoutConnection(c.provider))
  }

  function CandidateReport(c: Candidate, twice: bool, p: Policy, accepted: set<Key>): seq<Failure> {
    ConfigurationReport(c) +
    When(MessageSign in c.capabilities && p.messageSigningSchemes == [], NoMessageScheme(c.provider)) +
    When(twice, ConfiguredTwice(c.provider)) +
    Missing(RequiredKeys(c, p), accepted)
  }

  lemma NothingReportedIff(c: Candidate, twice: bool, p: Policy, accepted: set<Key>)
    ensures CandidateReport(c, twice, p, accepted) == [] <==>
            WellFormed(c, p) && !twice && forall k | Demands(c, p, k) :: k in accepted
  {
    hide NoDuplicates, IsBlank, Demands, RequiredKeys;
    forall k
      ensures k in RequiredKeys(c, p) <==> Demands(c, p, k)
    {
      RequiredKeysIff(c, p, k);
    }
    assert (forall k | Demands(c, p, k) :: k in accepted) <==> Missing(RequiredKeys(c, p), accepted) == [];
  }

  /** The checks of the candidate alone. */
  method ConfigurationFailures(c: Candidate) returns (failures: seq<Failure>)
    ensures failures == ConfigurationReport(c)
  {
    hide IsBlank, NoDuplicates, Elements;
    failures := [];
    if |c.capabilities| == 0 {
      failures := failures + [NoCapabilities(c.provider)];
    }
    if IsBlank(c.walletVersion) {
      failures := failures + [NoWalletVersion(c.provider)];
    }
    DistinctIffSizesAgree(c.capabilities);
    if |Elements(c.capabilities)| != |c.capabilities| {
      failures := failures + [DuplicateCapabilities(c.provider)];
    }
    if |c.capabilities| > 0 && Connect !in c.capabilities {
      failures := failures + [SigningWithoutConnection(c.provider)];
    }
  }

  method CandidateFailures(c: Candidate, twice: bool, p: Policy, accepted: set<Key>) returns (failures: seq<Failure>)
    ensures failures == CandidateReport(c, twice, p, accepted)
  {
    hide RequiredKeys, Missing, ConfigurationReport;
    failures := ConfigurationFailures(c);
    if MessageSign in c.capabilities && |p.messageSigningSchemes| == 0 {
      failures := failures + [NoMessageScheme(c.provider)];
    }
    if twice {
      failures := failures + [ConfiguredTwice(c.provider)];
    }
    failures := failures + Missing(RequiredKeys(c, p), accepted);
  }

  method DuplicateProviders(candidates: seq<Candidate>) returns (duplicates: set<string>)
    ensures forall provider: string :: provider in duplicates <==> Repeated(candidates, provider)
  {
    var configured: set<string> := {};
    duplicates := {};
    for n := 0 to |candidates|
      invariant forall q: string :: q in configured <==> exists i :: 0 <= i < n && candidates[i].provider == q
      invariant forall q: string :: q in duplicates <==>
                  exists i, j :: 0 <= i < j < n && candidates[i].provider == q && candidates[j].provider == q
    {
      if candidates[n].provider in configured {
        duplicates := duplicates + {candidates[n].provider};
      }
      configured := configured + {candidates[n].provider};
    }
  }

  /** What it means for a candidate to be enabled. */
  ghost predicate Enabled(c: Candidate, candidates: seq<Candidate>, evidence: seq<Evidence>, p: Policy, now: Number) {
    && ValidPolicy(p) && now.Finite?
    && WellFormed(c, p) && !Repeated(candidates, c.provider)
    && !Spoiled(evidence, p, now, c.provider)
    && forall k | Demands(c, p, k) :: Accepted(evidence, p, now, k)
  }

  /** The enabled ones among the first candidates, in their order. */
  ghost function EnabledAmong(some: seq<Candidate>, candidates: seq<Candidate>, evidence: seq<Evidence>, p: Policy,
                              now: Number): seq<Candidate>
  {
    if some == [] then []
    else
      var front, last := some[..|some| - 1], some[|some| - 1];
      EnabledAmong(front, candidates, evidence, p, now) + if Enabled(last, candidates, evidence, p, now) then [last] else []
  }

  ghost function AcceptedKeys(evidence: seq<Evidence>, p: Policy, now: Number): (r: set<Key>)
    ensures forall k: Key :: k in r <==> Accepted(evidence, p, now, k)
  {
    set i | 0 <= i < |evidence| && Sole(evidence, i) && Passes(evidence[i], p, now) :: evidence[i].key
  }

  ghost function CandidateReports(some: seq<Candidate>, candidates: seq<Candidate>, evidence: seq<Evidence>, p: Policy,
                                  now: Number): seq<Failure>
  {
    if some == [] then []
    else
      var front, last := some[..|some| - 1], some[|some| - 1];
      CandidateReports(front, candidates, evidence, p, now) +
      CandidateReport(last, Repeated(candidates, last.provider), p, AcceptedKeys(evidence, p, now))
  }

  ghost function Report(candidates: seq<Candidate>, evidence: seq<Evidence>, p: Policy, now: Number): seq<Failure> {
    Complaints(p, 10) + When(!now.Finite?, ClockNotFinite) + EvidenceReport(evidence, p, now) +
    CandidateReports(candidates, candidates, evidence, p, now)
  }

  lemma NextCandidate(earlier: seq<Candidate>, c: Candidate, candidates: seq<Candidate>, evidence: seq<Evidence>, p: Policy,
                      now: Number)
    ensures EnabledAmong(earlier + [c], candidates, evidence, p, now) ==
            EnabledAmong(earlier, candidates, evidence, p, now) +
            if Enabled(c, candidates, evidence, p, now) then [c] else []
    ensures CandidateReports(earlier + [c], candidates, evidence, p, now) ==
            CandidateReports(earlier, candidates, evidence, p, now) +
            CandidateReport(c, Repeated(candidates, c.provider), p, AcceptedKeys(evidence, p, now))
    ensures Enabled(c, candidates, evidence, p, now) <==>
            && Complaints(p, 10) == [] && now.Finite?
            && !Spoiled(evidence, p, now, c.provider)
            && CandidateReport(c, Repeated(candidates, c.provider), p, AcceptedKeys(evidence, p, now)) == []
  {
    assert (earlier + [c])[..|earlier|] == earlier;
    hide Spoiled, WellFormed, Repeated, Demands, ValidPolicy, Complaints, CandidateReport, Accepted;
    UncontestedIffValid(p);
    NothingReportedIff(c, Repeated(candidates, c.provider), p, AcceptedKeys(evidence, p, now));
  }

  method EvaluateWalletQualifications(candidates: seq<Candidate>, evidence: seq<Evidence>, p: Policy, now: Number)
    returns (enabled: seq<Candidate>, failures: seq<Failure>)
    ensures enabled == EnabledAmong(candidates, candidates, evidence, p, now)
    ensures failures == Report(candidates, evidence, p, now)
  {
    hide Spoiled, Repeated, Accepted, Complaints, EvidenceReport, CandidateReport, CandidateReports, EnabledAmong, Enabled;
    failures := PolicyFailures(p);
    if !now.Finite? {
      failures := failures + [ClockNotFinite];
    }
    var policyIsValid := |failures| == 0;
    var accepted, invalidProviders, evidenceFailures := ReadEvidence(evidence, p, now);
    failures := failures + evidenceFailures;
    var duplicates := DuplicateProviders(candidates);
    assert accepted == AcceptedKeys(evidence, p, now);
    enabled := [];
    ghost var before := failures;
    NoCandidate(candidates, evidence, p, now);
    for n := 0 to |candidates|
      invariant enabled == EnabledAmong(candidates[..n], candidates, evidence, p, now)
      invariant failures == before + CandidateReports(candidates[..n], candidates, evidence, p, now)
    {
      var c := candidates[n];
      assert candidates[..n + 1] == candidates[..n] + [c];
      NextCandidate(candidates[..n], c, candidates, evidence, p, now);
      var failuresBeforeCandidate := |failures|;
      var own := CandidateFailures(c, c.provider in duplicates, p, accepted);
      failures := failures + own;
      if policyIsValid && c.provider !in invalidProviders && |failures| == failuresBeforeCandidate {
        enabled := enabled + [c];
      }
    }
    assert candidates[..|candidates|] == candidates;
  }

  lemma NoCandidate(candidates: seq<Candidate>, evidence: seq<Evidence>, p: Policy, now: Number)
    ensures EnabledAmong([], candidates, evidence, p, now) == [] && CandidateReports([], candidates, evidence, p, now) == []
  {
  }

  // ----- What an evaluation means -----

  lemma {:induction false} EnabledAmongIff(some: seq<Candidate>, candidates: seq<Candidate>, evidence: seq<Evidence>, p: Policy,
                                           now: Number, c: Candidate)
    ensures c in EnabledAmong(some, candidates, evidence, p, now) <==>
            c in some && Enabled(c, candidates, evidence, p, now)
  {
    hide Enabled;
    if some != [] {
      EnabledAmongIff(some[..|some| - 1], candidates, evidence, p, now, c);
      assert some == some[..|some| - 1] + [some[|some| - 1]];
    }
  }

  /** An item stands alone exactly when the evidence, as a bag, holds it once and nothing else with its key. */
  lemma SoleInBag(evidence: seq<Evidence>, i: nat)
    requires i < |evidence|
    ensures Sole(evidence, i) <==>
            && multiset(evidence)[evidence[i]] == 1
            && forall e | e in evidence && e.key == evidence[i].key :: e == evidence[i]
  {
    var before, after := evidence[..i], evidence[i + 1..];
    assert evidence == before + [evidence[i]] + after;
    assert multiset(evidence)[evidence[i]] == multiset(before)[evidence[i]] + 1 + multiset(after)[evidence[i]];
    if Sole(evidence, i) {
      assert evidence[i] !in before && evidence[i] !in after;
    } else {
      var j :| 0 <= j < |evidence| && j != i && evidence[j].key == evidence[i].key;
      assert evidence[j] in evidence;
      assert j < i ==> evidence[j] in before;
      assert j > i ==> evidence[j] in after;
    }
  }

  lemma AcceptedInBag(evidence: seq<Evidence>, shuffled: seq<Evidence>, p: Policy, now: Number, k: Key)
    requires multiset(evidence) == multiset(shuffled) && Accepted(evidence, p, now, k)
    ensures Accepted(shuffled, p, now, k)
  {
    hide Passes;
    var i :| 0 <= i < |evidence| && evidence[i].key == k && Sole(evidence, i) && Passes(evidence[i], p, now);
    SameElements(evidence, shuffled);
    assert evidence[i] in shuffled;
    var j :| 0 <= j < |shuffled| && shuffled[j] == evidence[i];
    SoleInBag(evidence, i);
    SoleInBag(shuffled, j);
  }

  lemma SameElements(evidence: seq<Evidence>, shuffled: seq<Evidence>)
    requires multiset(evidence) == multiset(shuffled)
    ensures forall e :: e in evidence <==> e in shuffled
  {
    forall e
      ensures e in evidence <==> e in shuffled
    {
      assert e in evidence <==> e in multiset(evidence);
      assert e in shuffled <==> e in multiset(shuffled);
    }
  }

  lemma SpoiledInBag(evidence: seq<Evidence>, shuffled: seq<Evidence>, p: Policy, now: Number, provider: string)
    requires multiset(evidence) == multiset(shuffled) && Spoiled(evidence, p, now, provider)
    ensures Spoiled(shuffled, p, now, provider)
  {
    hide Passes;
    var i :| 0 <= i < |evidence| && evidence[i].key.provider == provider
             && !(Sole(evidence, i) && Passes(evidence[i], p, now));
    SameElements(evidence, shuffled);
    assert evidence[i] in shuffled;
    var j :| 0 <= j < |shuffled| && shuffled[j] == evidence[i];
    SoleInBag(evidence, i);
    SoleInBag(shuffled, j);
  }

  lemma EnabledInBag(c: Candidate, candidates: seq<Candidate>, evidence: seq<Evidence>, shuffled: seq<Evidence>, p: Policy,
                     now: Number)
    requires multiset(evidence) == multiset(shuffled) && Enabled(c, candidates, evidence, p, now)
    ensures Enabled(c, candidates, shuffled, p, now)
  {
    hide Demands, Spoiled, Accepted;
    if Spoiled(shuffled, p, now, c.provider) {
      SpoiledInBag(shuffled, evidence, p, now, c.provider);
      assert false;
    }
    forall k | Demands(c, p, k)
      ensures Accepted(shuffled, p, now, k)
    {
      AcceptedInBag(evidence, shuffled, p, now, k);
    }
  }

  /** The order of the evidence does not matter to which candidates are enabled. */
  lemma {:induction false} PermutedEvidenceEnablesTheSame(some: seq<Candidate>, candidates: seq<Candidate>,
      evidence: seq<Evidence>, shuffled: seq<Evidence>, p: Policy, now: Number)
    requires multiset(evidence) == multiset(shuffled)
    ensures EnabledAmong(some, candidates, evidence, p, now) == EnabledAmong(some, candidates, shuffled, p, now)
  {
    hide Enabled;
    if some != [] {
      PermutedEvidenceEnablesTheSame(some[..|some| - 1], candidates, evidence, shuffled, p, now);
      var last := some[|some| - 1];
      if Enabled(last, candidates, evidence, p, now) {
        EnabledInBag(last, candidates, evidence, shuffled, p, now);
      } else if Enabled(last, candidates, shuffled, p, now) {
        EnabledInBag(last, candidates, shuffled, evidence, p, now);
      }
    }
  }

  /** Evidence about other providers decides nothing about a candidate. */
  lemma OthersEvidenceIsIrrelevant(c: Candidate, candidates: seq<Candidate>, evidence: seq<Evidence>, e: Evidence, p: Policy,
                                   now: Number)
    requires e.key.provider != c.provider
    ensures Enabled(c, candidates, evidence + [e], p, now) <==> Enabled(c, candidates, evidence, p, now)
  {
    hide Spoiled, Accepted, Passes, WellFormed, ValidPolicy, Repeated;
    SpoiledSnoc(evidence, e, p, now, c.provider);
    forall k | Demands(c, p, k)
      ensures Accepted(evidence + [e], p, now, k) <==> Accepted(evidence, p, now, k)
    {
      AcceptedSnoc(evidence, e, p, now, k);
    }
  }

  /** Further evidence about a candidate's provider keeps it enabled exactly when it passes and is the first for its key. */
  lemma FurtherEvidenceKeepsEnabledIff(c: Candidate, candidates: seq<Candidate>, evidence: seq<Evidence>, e: Evidence,
                                       p: Policy, now: Number)
    requires Enabled(c, candidates, evidence, p, now) && e.key.provider == c.provider
    ensures Enabled(c, candidates, evidence + [e], p, now) <==> Passes(e, p, now) && !Mentioned(evidence, e.key)
  {
    hide Spoiled, Accepted, Passes, Mentioned, WellFormed, ValidPolicy, Repeated;
    SpoiledSnoc(evidence, e, p, now, c.provider);
    if Passes(e, p, now) && !Mentioned(evidence, e.key) {
      forall k | Demands(c, p, k)
        ensures Accepted(evidence + [e], p, now, k)
      {
        AcceptedSnoc(evidence, e, p, now, k);
      }
    }
  }

  /** Every item passes and none shares its key. */
  ghost predicate CleanEvidence(evidence: seq<Evidence>, p: Policy, now: Number) {
    forall i | 0 <= i < |evidence| :: Sole(evidence, i) && Passes(evidence[i], p, now)
  }

  lemma {:induction false} NoEvidenceFailureIff(evidence: seq<Evidence>, p: Policy, now: Number)
    ensures EvidenceReport(evidence, p, now) == [] <==> CleanEvidence(evidence, p, now)
  {
    hide FailureOf;
    if evidence != [] {
      var front, last := evidence[..|evidence| - 1], evidence[|evidence| - 1];
      assert evidence == front + [last];
      NoEvidenceFailureIff(front, p, now);
      CleanSnoc(front, last, p, now);
    }
  }

  lemma CleanSnoc(front: seq<Evidence>, e: Evidence, p: Policy, now: Number)
    ensures CleanEvidence(front + [e], p, now) <==>
            CleanEvidence(front, p, now) && !Mentioned(front, e.key) && Passes(e, p, now)
  {
    hide Passes;
    var all := front + [e];
    assert all[|front|] == e;
    assert forall i | 0 <= i < |front| :: all[i] == front[i];
    if CleanEvidence(all, p, now) {
      assert Sole(all, |front|);
      forall i | 0 <= i < |front|
        ensures Sole(front, i) && Passes(front[i], p, now)
      {
        assert Sole(all, i);
      }
    }
  }

  lemma {:induction false} CandidatesClearIff(some: seq<Candidate>, candidates: seq<Candidate>, evidence: seq<Evidence>,
                                              p: Policy, now: Number)
    requires ValidPolicy(p) && now.Finite? && CleanEvidence(evidence, p, now)
    ensures CandidateReports(some, candidates, evidence, p, now) == [] <==>
            EnabledAmong(some, candidates, evidence, p, now) == some
    ensures |EnabledAmong(some, candidates, evidence, p, now)| <= |some|
  {
    hide Enabled, CandidateReport, ValidPolicy, CleanEvidence, Accepted, Complaints;
    if some != [] {
      var front, last := some[..|some| - 1], some[|some| - 1];
      assert some == front + [last];
      CandidatesClearIff(front, candidates, evidence, p, now);
      NextCandidate(front, last, candidates, evidence, p, now);
      NothingSpoiled(evidence, p, now, last.provider);
      UncontestedIffValid(p);
      if EnabledAmong(some, candidates, evidence, p, now) == some {
        assert |EnabledAmong(front, candidates, evidence, p, now)| == |front|;
        assert EnabledAmong(front, candidates, evidence, p, now) == some[..|front|];
      }
    }
  }

  lemma NothingSpoiled(evidence: seq<Evidence>, p: Policy, now: Number, provider: string)
    requires CleanEvidence(evidence, p, now)
    ensures !Spoiled(evidence, p, now, provider)
  {
    hide Passes, Sole;
  }

  /**
   Nothing is reported exactly when the policy and the clock are valid, all evidence is clean and every candidate is
   enabled; so a candidate is never left out in silence.
   */
  lemma SilentIffAllEnabled(candidates: seq<Candidate>, evidence: seq<Evidence>, p: Policy, now: Number)
    ensures Report(candidates, evidence, p, now) == [] <==>
            && ValidPolicy(p) && now.Finite? && CleanEvidence(evidence, p, now)
            && EnabledAmong(candidates, candidates, evidence, p, now) == candidates
  {
    hide ValidPolicy, CleanEvidence, EnabledAmong, CandidateReports, EvidenceReport, Complaints;
    UncontestedIffValid(p);
    NoEvidenceFailureIff(evidence, p, now);
    if ValidPolicy(p) && now.Finite? && CleanEvidence(evidence, p, now) {
      CandidatesClearIff(candidates, candidates, evidence, p, now);
    }
  }

  /** The list of failures does depend on the order: a failing item is reported for itself only when it comes first. */
  lemma ReportDependsOnOrder(good: Evidence, bad: Evidence, p: Policy, now: Number)
    requires good.key == bad.key && Passes(good, p, now) && !Passes(bad, p, now)
    ensures multiset([good, bad]) == multiset([bad, good])
    ensures EvidenceReport([good, bad], p, now) == [DuplicateEvidence(good.key)]
    ensures EvidenceReport([bad, good], p, now) ==
            [BadEvidence(bad.key, FailureOf(bad, p, now).value), DuplicateEvidence(good.key)]
  {
    hide FailureOf;
    forall one: Evidence, other: Evidence
      ensures EvidenceReport([one, other], p, now) == ItemReport([], one, p, now) + ItemReport([one], other, p, now)
    {
      assert [one, other][..1] == [one] && [one][..0] == [];
      assert EvidenceReport([one], p, now) == ItemReport([], one, p, now);
    }
    assert [good][0].key == bad.key && [bad][0].key == good.key;
  }
}
