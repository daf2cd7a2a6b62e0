/**
 Wallet qualification: which configured wallet providers the recorded conformance evidence enables. A matrix key, in the
 source the JSON text of a fixed list of strings, is here the tuple of those strings.
 */
module WalletQualification {
  import opened Common

  datatype Capability = Connect | MessageSign | PsbtSign
  datatype Check =
    | ConnectApproved | ConnectRejected | AccountChange | NetworkChange
    | MessageApproved | MessageRejected | MessageServerVerified
    | PsbtApproved | PsbtRejected | PsbtServerVerified | AlkanesFixtureMatched
  datatype AddressType = P2tr | P2wpkh
  datatype Network = Mainnet | Signet
  datatype SigningScheme = Bip322 | Legacy | NotApplicable
  type MessageScheme = s: SigningScheme | s != NotApplicable witness Bip322
  datatype DeviceCategory = Desktop | Mobile
  datatype Outcome = Passed | Failed

  /** A JavaScript number, for those inputs that the source tests for being finite. */
  datatype Number = Finite(value: real) | Infinite(positive: bool) | NotANumber

  datatype Environment = Environment(browserName: string, browserVersion: string, category: DeviceCategory, os: string)

  datatype Key = Key(provider: string, walletVersion: string, environment: Environment, network: Network,
                     addressType: AddressType, scheme: SigningScheme, check: Check)

  /** `observedAt` is the instant its text parses to, if it does. */
  datatype Evidence = Evidence(key: Key, observedAt: Option<Instant>, coreVersion: string, reactVersion: string,
                               fixtureId: string, outcome: Outcome)

  datatype Candidate = Candidate(provider: string, walletVersion: string, capabilities: seq<Capability>)

  datatype Policy = Policy(
    addressTypes: seq<AddressType>,
    environments: seq<Environment>,
    fixtureId: string,
    maximumEvidenceAgeMs: Number,
    messageSigningSchemes: seq<MessageScheme>,
    networks: seq<Network>)

  datatype Failure =
    | NoAddressTypes | NoEnvironments | NoFixture | LifetimeNotPositive | NoNetworks
    | DuplicateAddressTypes | DuplicateNetworks | DuplicateSchemes | DuplicateEnvironments | BlankEnvironment
    | ClockNotFinite
    | DuplicateEvidence(key: Key)
    | BadEvidence(key: Key, reason: EvidenceFailure)
    | NoCapabilities(provider: string) | NoWalletVersion(provider: string) | DuplicateCapabilities(provider: string)
    | SigningWithoutConnection(provider: string) | NoMessageScheme(provider: string) | ConfiguredTwice(provider: string)
    | NoPassingEvidence(key: Key)

  datatype EvidenceFailure =
    | InvalidTimestamp | InTheFuture | Stale | OtherVersion | OtherFixture | IncompatibleScheme | DidFail

  const CORE_VERSION := "0.0.85"
  const REACT_VERSION := "0.0.80"

  // ----- The policy -----

  predicate BlankNames(e: Environment) {
    IsBlank(e.browserName) || IsBlank(e.browserVersion) || IsBlank(e.os)
  }

  predicate ValidPolicy(p: Policy) {
    && p.addressTypes != [] && p.environments != [] && p.networks != []
    && !IsBlank(p.fixtureId)
    && p.maximumEvidenceAgeMs.Finite? && p.maximumEvidenceAgeMs.value > 0.0
    && NoDuplicates(p.addressTypes) && NoDuplicates(p.networks)
    && NoDuplicates(p.messageSigningSchemes) && NoDuplicates(p.environments)
    && forall e | e in p.environments :: !BlankNames(e)
  }

  /** What each complaint about a policy means. */
  predicate PolicyComplaint(p: Policy, f: Failure) {
    match f
    case NoAddressTypes => p.addressTypes == []
    case NoEnvironments => p.environments == []
    case NoFixture => IsBlank(p.fixtureId)
    case LifetimeNotPositive => !p.maximumEvidenceAgeMs.Finite? || p.maximumEvidenceAgeMs.value <= 0.0
    case NoNetworks => p.networks == []
    case DuplicateAddressTypes => !NoDuplicates(p.addressTypes)
    case DuplicateNetworks => !NoDuplicates(p.networks)
    case DuplicateSchemes => !NoDuplicates(p.messageSigningSchemes)
    case DuplicateEnvironments => !NoDuplicates(p.environments)
    case BlankEnvironment => exists e | e in p.environments :: BlankNames(e)
    case _ => false
  }

  const POLICY_COMPLAINTS := [
    NoAddressTypes, NoEnvironments, NoFixture, LifetimeNotPositive, NoNetworks, DuplicateAddressTypes, DuplicateNetworks,
    DuplicateSchemes, DuplicateEnvironments, BlankEnvironment]

  /** The complaints of the first `n` kinds, in order. */
  function Complaints(p: Policy, n: nat): seq<Failure>
    requires n <= 10
  {
    if n == 0 then []
    else Complaints(p, n - 1) + if PolicyComplaint(p, POLICY_COMPLAINTS[n - 1]) then [POLICY_COMPLAINTS[n - 1]] else []
  }

  lemma {:induction false} InComplaints(p: Policy, n: nat, f: Failure)
    requires n <= 10
    ensures f in Complaints(p, n) <==> f in POLICY_COMPLAINTS[..n] && PolicyComplaint(p, f)
  {
    if n > 0 {
      InComplaints(p, n - 1, f);
      assert POLICY_COMPLAINTS[..n] == POLICY_COMPLAINTS[..n - 1] + [POLICY_COMPLAINTS[n - 1]];
    }
  }

  /** A policy draws no complaint exactly when it asks for something and asks for it once. */
  lemma UncontestedIffValid(p: Policy)
    ensures Complaints(p, 10) == [] <==> ValidPolicy(p)
  {
    hide NoDuplicates, BlankNames, IsBlank, Complaints;
    assert POLICY_COMPLAINTS[..10] == POLICY_COMPLAINTS;
    if ValidPolicy(p) {
      if Complaints(p, 10) != [] {
        InComplaints(p, 10, Complaints(p, 10)[0]);
      }
    } else {
      var k := if p.addressTypes == [] then 0
               else if p.environments == [] then 1
               else if IsBlank(p.fixtureId) then 2
               else if !p.maximumEvidenceAgeMs.Finite? || p.maximumEvidenceAgeMs.value <= 0.0 then 3
               else if p.networks == [] then 4
               else if !NoDuplicates(p.addressTypes) then 5
               else if !NoDuplicates(p.networks) then 6
               else if !NoDuplicates(p.messageSigningSchemes) then 7
               else if !NoDuplicates(p.environments) then 8
               else 9;
      InComplaints(p, 10, POLICY_COMPLAINTS[k]);
    }
  }

  lemma NextComplaint(p: Policy, n: nat, f: Failure)
    requires n < 10 && POLICY_COMPLAINTS[n] == f
    ensures Complaints(p, n + 1) == Complaints(p, n) + if PolicyComplaint(p, f) then [f] else []
  {
  }

  /** The first half of the checks: each part of the policy asks for something. */
  method OmissionFailures(p: Policy) returns (failures: seq<Failure>)
    ensures failures == Complaints(p, 5)
  {
    hide NoDuplicates, BlankNames, IsBlank, Complaints, Elements;
    failures := [];
    NothingToComplain(p);
    if |p.addressTypes| == 0 {
      failures := failures + [NoAddressTypes];
    }
    NextComplaint(p, 0, NoAddressTypes);
    assert failures == Complaints(p, 1);
    if |p.environments| == 0 {
      failures := failures + [NoEnvironments];
    }
    NextComplaint(p, 1, NoEnvironments);
    assert failures == Complaints(p, 2);
    if IsBlank(p.fixtureId) {
      failures := failures + [NoFixture];
    }
    NextComplaint(p, 2, NoFixture);
    assert failures == Complaints(p, 3);
    if !p.maximumEvidenceAgeMs.Finite? || !(p.maximumEvidenceAgeMs.value > 0.0) {
      failures := failures + [LifetimeNotPositive];
    }
    NextComplaint(p, 3, LifetimeNotPositive);
    assert failures == Complaints(p, 4);
    if |p.networks| == 0 {
      failures := failures + [NoNetworks];
    }
    NextComplaint(p, 4, NoNetworks);
  }

  method PolicyFailures(p: Policy) returns (failures: seq<Failure>)
    ensures failures == Complaints(p, 10)
  {
    hide NoDuplicates, BlankNames, IsBlank, Complaints, Elements;
    failures := OmissionFailures(p);
    DistinctIffSizesAgree(p.addressTypes);
    if |Elements(p.addressTypes)| != |p.addressTypes| {
      failures := failures + [DuplicateAddressTypes];
    }
    NextComplaint(p, 5, DuplicateAddressTypes);
    assert failures == Complaints(p, 6);
    DistinctIffSizesAgree(p.networks);
    if |Elements(p.networks)| != |p.networks| {
      failures := failures + [DuplicateNetworks];
    }
    NextComplaint(p, 6, DuplicateNetworks);
    assert failures == Complaints(p, 7);
    DistinctIffSizesAgree(p.messageSigningSchemes);
    if |Elements(p.messageSigningSchemes)| != |p.messageSigningSchemes| {
      failures := failures + [DuplicateSchemes];
    }
    NextComplaint(p, 7, DuplicateSchemes);
    assert failures == Complaints(p, 8);
    DistinctIffSizesAgree(p.environments);
    if |Elements(p.environments)| != |p.environments| {
      failures := failures + [DuplicateEnvironments];
    }
    NextComplaint(p, 8, DuplicateEnvironments);
    assert failures == Complaints(p, 9);
    if exists e | e in p.environments :: BlankNames(e) {
      failures := failures + [BlankEnvironment];
    }
    NextComplaint(p, 9, BlankEnvironment);
  }

  lemma NothingToComplain(p: Policy)
    ensures Complaints(p, 0) == []
  {
  }
}
