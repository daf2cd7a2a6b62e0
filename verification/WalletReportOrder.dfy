/**
 What the failures of an evaluation owe to the order of the evidence. Of the items that share a key the first is judged, and
 each later one is reported as a duplicate.
 */
module WalletReportOrder {
  import opened Common
  import opened WalletQualification
  import opened WalletEvaluator

  /** Items with one key are judged alike. */
  ghost predicate SameVerdicts(evidence: seq<Evidence>, p: Policy, now: Number) {
    forall i, j | 0 <= i < |evidence| && 0 <= j < |evidence| && evidence[i].key == evidence[j].key ::
      FailureOf(evidence[i], p, now) == FailureOf(evidence[j], p, now)
  }

  function Occurrences(evidence: seq<Evidence>, k: Key): nat {
    if evidence == [] then 0
    else Occurrences(evidence[..|evidence| - 1], k) + if evidence[|evidence| - 1].key == k then 1 else 0
  }

  /** The verdict on the first item with this key. */
  function FirstVerdict(evidence: seq<Evidence>, p: Policy, now: Number, k: Key): Option<Option<EvidenceFailure>> {
    if evidence == [] then None
    else
      var front, last := evidence[..|evidence| - 1], evidence[|evidence| - 1];
      if FirstVerdict(front, p, now, k).Some? then FirstVerdict(front, p, now, k)
      else if last.key == k then Some(FailureOf(last, p, now))
      else None
  }

  // ----- How often each failure is reported -----

  function ReportedTimes(evidence: seq<Evidence>, p: Policy, now: Number, f: Failure): nat {
    match f
    case DuplicateEvidence(k) => if Occurrences(evidence, k) == 0 then 0 else Occurrences(evidence, k) - 1
    case BadEvidence(k, reason) => if FirstVerdict(evidence, p, now, k) == Some(Some(reason)) then 1 else 0
    case _ => 0
  }

  lemma {:induction false} MentionedIff(evidence: seq<Evidence>, p: Policy, now: Number, k: Key)
    ensures Mentioned(evidence, k) <==> Occurrences(evidence, k) > 0
    ensures Mentioned(evidence, k) <==> FirstVerdict(evidence, p, now, k).Some?
  {
    hide FailureOf, Mentioned;
    if evidence == [] {
      NoEvidence(p, now);
    } else {
      var front, last := evidence[..|evidence| - 1], evidence[|evidence| - 1];
      assert evidence == front + [last];
      MentionedIff(front, p, now, k);
      MentionedSnoc(front, last, k);
    }
  }

  lemma TimesSnoc(front: seq<Evidence>, e: Evidence, p: Policy, now: Number, k: Key)
    ensures Occurrences(front + [e], k) == Occurrences(front, k) + if e.key == k then 1 else 0
    ensures FirstVerdict(front + [e], p, now, k) ==
            if FirstVerdict(front, p, now, k).Some? then FirstVerdict(front, p, now, k)
            else if e.key == k then Some(FailureOf(e, p, now)) else None
  {
    assert (front + [e])[..|front|] == front;
    hide FailureOf;
  }

  /** One item's report is what it adds to the counts. */
  lemma DuplicatesAdded(front: seq<Evidence>, e: Evidence, p: Policy, now: Number, k: Key)
    ensures ReportedTimes(front + [e], p, now, DuplicateEvidence(k)) ==
            ReportedTimes(front, p, now, DuplicateEvidence(k)) + multiset(ItemReport(front, e, p, now))[DuplicateEvidence(k)]
  {
    TimesSnoc(front, e, p, now, k);
    MentionedIff(front, p, now, e.key);
    hide Occurrences, FirstVerdict, FailureOf, Mentioned;
  }

  lemma VerdictsAdded(front: seq<Evidence>, e: Evidence, p: Policy, now: Number, k: Key, reason: EvidenceFailure)
    ensures ReportedTimes(front + [e], p, now, BadEvidence(k, reason)) ==
            ReportedTimes(front, p, now, BadEvidence(k, reason)) +
            multiset(ItemReport(front, e, p, now))[BadEvidence(k, reason)]
  {
    TimesSnoc(front, e, p, now, k);
    MentionedIff(front, p, now, e.key);
    hide Occurrences, FirstVerdict, FailureOf, Mentioned;
  }

  lemma OthersNotReported(front: seq<Evidence>, e: Evidence, p: Policy, now: Number, f: Failure)
    requires !f.DuplicateEvidence? && !f.BadEvidence?
    ensures multiset(ItemReport(front, e, p, now))[f] == 0
  {
    hide FailureOf, Mentioned;
  }

  lemma ReportSnoc(front: seq<Evidence>, e: Evidence, p: Policy, now: Number)
    ensures EvidenceReport(front + [e], p, now) == EvidenceReport(front, p, now) + ItemReport(front, e, p, now)
  {
    assert (front + [e])[..|front|] == front;
    hide ItemReport;
  }

  lemma {:induction false} ReportCounts(evidence: seq<Evidence>, p: Policy, now: Number, f: Failure)
    ensures multiset(EvidenceReport(evidence, p, now))[f] == ReportedTimes(evidence, p, now, f)
  {
    if evidence != [] {
      hide EvidenceReport, ItemReport, Occurrences, FirstVerdict, FailureOf;
      var front, last := evidence[..|evidence| - 1], evidence[|evidence| - 1];
      assert evidence == front + [last];
      ReportCounts(front, p, now, f);
      ReportSnoc(front, last, p, now);
      assert multiset(EvidenceReport(evidence, p, now)) ==
             multiset(EvidenceReport(front, p, now)) + multiset(ItemReport(front, last, p, now));
      match f {
        case DuplicateEvidence(k) => DuplicatesAdded(front, last, p, now, k);
        case BadEvidence(k, reason) => VerdictsAdded(front, last, p, now, k, reason);
        case _ => OthersNotReported(front, last, p, now, f);
      }
    }
  }

  // ----- Permutations -----

  lemma {:induction false} OccurrencesOfConcat(one: seq<Evidence>, other: seq<Evidence>, k: Key)
    ensures Occurrences(one + other, k) == Occurrences(one, k) + Occurrences(other, k)
  {
    if other == [] {
      assert one + other == one;
    } else {
      var front := other[..|other| - 1];
      assert (one + other)[..|one + other| - 1] == one + front;
      OccurrencesOfConcat(one, front, k);
    }
  }

  lemma OccurrencesOfOneMore(before: seq<Evidence>, e: Evidence, after: seq<Evidence>, k: Key)
    ensures Occurrences(before + [e] + after, k) == Occurrences(before + after, k) + if e.key == k then 1 else 0
  {
    OccurrencesOfConcat(before, after, k);
    OccurrencesOfConcat(before, [e], k);
    OccurrencesOfConcat(before + [e], after, k);
    assert [e][..0] == [];
  }

  lemma {:induction false} OccurrencesInBag(evidence: seq<Evidence>, shuffled: seq<Evidence>, k: Key)
    requires multiset(evidence) == multiset(shuffled)
    ensures Occurrences(evidence, k) == Occurrences(shuffled, k)
    decreases |evidence|
  {
    if evidence == [] {
      assert |multiset(shuffled)| == 0;
      assert shuffled == [];
    } else {
      hide Occurrences;
      var front, last := evidence[..|evidence| - 1], evidence[|evidence| - 1];
      var before, after := WithoutLast(evidence, shuffled);
      OccurrencesInBag(front, before + after, k);
      OccurrencesOfOneMore(before, last, after, k);
      OccurrencesOfOneMore(front, last, [], k);
      assert front + [last] + [] == evidence && front + [] == front;
    }
  }

  lemma {:induction false} FirstVerdictIsOfAnItem(evidence: seq<Evidence>, p: Policy, now: Number, k: Key) returns (i: nat)
    requires FirstVerdict(evidence, p, now, k).Some?
    ensures i < |evidence| && evidence[i].key == k && FirstVerdict(evidence, p, now, k) == Some(FailureOf(evidence[i], p, now))
  {
    hide FailureOf;
    var front := evidence[..|evidence| - 1];
    if FirstVerdict(front, p, now, k).Some? {
      i := FirstVerdictIsOfAnItem(front, p, now, k);
    } else {
      i := |evidence| - 1;
    }
  }

  lemma SameFirstVerdict(evidence: seq<Evidence>, shuffled: seq<Evidence>, p: Policy, now: Number, k: Key)
    requires multiset(evidence) == multiset(shuffled) && SameVerdicts(evidence, p, now)
    ensures FirstVerdict(evidence, p, now, k) == FirstVerdict(shuffled, p, now, k)
  {
    hide FailureOf, FirstVerdict, Occurrences;
    MentionedIff(evidence, p, now, k);
    MentionedIff(shuffled, p, now, k);
    OccurrencesInBag(evidence, shuffled, k);
    if FirstVerdict(evidence, p, now, k).Some? {
      var i := FirstVerdictIsOfAnItem(evidence, p, now, k);
      var j := FirstVerdictIsOfAnItem(shuffled, p, now, k);
      SameElements(evidence, shuffled);
      assert shuffled[j] in evidence;
    }
  }

  lemma {:induction false} LeadingVerdict(e: Evidence, rest: seq<Evidence>, p: Policy, now: Number)
    ensures FirstVerdict([e] + rest, p, now, e.key) == Some(FailureOf(e, p, now))
  {
    hide FailureOf;
    var all := [e] + rest;
    if rest == [] {
      assert all == [e] && [e][..0] == [];
      assert FirstVerdict([], p, now, e.key).None?;
    } else {
      assert all[..|all| - 1] == [e] + rest[..|rest| - 1];
      LeadingVerdict(e, rest[..|rest| - 1], p, now);
    }
  }

  /** The evidence with one item put first. */
  function Leading(evidence: seq<Evidence>, i: nat): (r: seq<Evidence>)
    requires i < |evidence|
    ensures multiset(r) == multiset(evidence)
  {
    assert evidence == evidence[..i] + [evidence[i]] + evidence[i + 1..];
    [evidence[i]] + (evidence[..i] + evidence[i + 1..])
  }

  // ----- The whole report -----

  lemma SameAcceptedKeys(evidence: seq<Evidence>, shuffled: seq<Evidence>, p: Policy, now: Number)
    requires multiset(evidence) == multiset(shuffled)
    ensures AcceptedKeys(evidence, p, now) == AcceptedKeys(shuffled, p, now)
  {
    hide Accepted;
    forall k: Key
      ensures k in AcceptedKeys(evidence, p, now) <==> k in AcceptedKeys(shuffled, p, now)
    {
      if Accepted(evidence, p, now, k) {
        AcceptedInBag(evidence, shuffled, p, now, k);
      } else if Accepted(shuffled, p, now, k) {
        AcceptedInBag(shuffled, evidence, p, now, k);
      }
    }
  }

  lemma {:induction false} SameCandidateReports(some: seq<Candidate>, candidates: seq<Candidate>, evidence: seq<Evidence>,
                                                shuffled: seq<Evidence>, p: Policy, now: Number)
    requires multiset(evidence) == multiset(shuffled)
    ensures CandidateReports(some, candidates, evidence, p, now) == CandidateReports(some, candidates, shuffled, p, now)
  {
    hide CandidateReport, AcceptedKeys;
    SameAcceptedKeys(evidence, shuffled, p, now);
    if some != [] {
      SameCandidateReports(some[..|some| - 1], candidates, evidence, shuffled, p, now);
    }
  }

  /** Shuffling the evidence changes the bag of all failures just as it changes the bag of those about evidence. */
  lemma ReportsDifferAlike(candidates: seq<Candidate>, evidence: seq<Evidence>, shuffled: seq<Evidence>, p: Policy, now: Number)
    requires multiset(evidence) == multiset(shuffled)
    ensures multiset(Report(candidates, evidence, p, now)) == multiset(Report(candidates, shuffled, p, now)) <==>
            multiset(EvidenceReport(evidence, p, now)) == multiset(EvidenceReport(shuffled, p, now))
  {
    SameCandidateReports(candidates, candidates, evidence, shuffled, p, now);
    hide Complaints, EvidenceReport, CandidateReports;
    SameContext(Complaints(p, 10) + When(!now.Finite?, ClockNotFinite), EvidenceReport(evidence, p, now),
                EvidenceReport(shuffled, p, now), CandidateReports(candidates, candidates, evidence, p, now));
  }

  lemma SameContext<T>(before: seq<T>, one: seq<T>, other: seq<T>, after: seq<T>)
    ensures multiset(before + one + after) == multiset(before + other + after) <==> multiset(one) == multiset(other)
  {
    assert multiset(before + one + after) == multiset(before) + multiset(one) + multiset(after);
    assert multiset(before + other + after) == multiset(before) + multiset(other) + multiset(after);
    assert multiset(one) == multiset(before + one + after) - multiset(before) - multiset(after);
    assert multiset(other) == multiset(before + other + after) - multiset(before) - multiset(after);
  }

  lemma AlikeIsReportedAlike(evidence: seq<Evidence>, shuffled: seq<Evidence>, p: Policy, now: Number)
    requires multiset(evidence) == multiset(shuffled) && SameVerdicts(evidence, p, now)
    ensures multiset(EvidenceReport(evidence, p, now)) == multiset(EvidenceReport(shuffled, p, now))
  {
    hide EvidenceReport, Occurrences, FirstVerdict, SameVerdicts;
    forall f
      ensures multiset(EvidenceReport(evidence, p, now))[f] == multiset(EvidenceReport(shuffled, p, now))[f]
    {
      ReportCounts(evidence, p, now, f);
      ReportCounts(shuffled, p, now, f);
      match f {
        case DuplicateEvidence(k) => OccurrencesInBag(evidence, shuffled, k);
        case BadEvidence(k, _) => SameFirstVerdict(evidence, shuffled, p, now, k);
        case _ =>
      }
    }
  }

  lemma LeadingIsReported(evidence: seq<Evidence>, p: Policy, now: Number, i: nat, reason: EvidenceFailure)
    requires i < |evidence|
    ensures multiset(EvidenceReport(Leading(evidence, i), p, now))[BadEvidence(evidence[i].key, reason)] ==
            if FailureOf(evidence[i], p, now) == Some(reason) then 1 else 0
  {
    LeadingVerdict(evidence[i], evidence[..i] + evidence[i + 1..], p, now);
    hide FailureOf, EvidenceReport, FirstVerdict;
    ReportCounts(Leading(evidence, i), p, now, BadEvidence(evidence[i].key, reason));
  }

  /** Two items with one key and different verdicts: put one or the other first, and the reports differ. */
  lemma UnlikeIsReportedUnlike(evidence: seq<Evidence>, p: Policy, now: Number, i: nat, j: nat)
    requires i < |evidence| && j < |evidence| && evidence[i].key == evidence[j].key
    requires FailureOf(evidence[i], p, now) != FailureOf(evidence[j], p, now)
    ensures multiset(EvidenceReport(Leading(evidence, i), p, now)) != multiset(EvidenceReport(Leading(evidence, j), p, now))
  {
    hide *;
    var one, other := FailureOf(evidence[i], p, now), FailureOf(evidence[j], p, now);
    var reason := if one.Some? then one.value else other.value;
    LeadingIsReported(evidence, p, now, i, reason);
    LeadingIsReported(evidence, p, now, j, reason);
  }

  /**
   Exactly when the failures do not depend on the order of the evidence: every permutation reports the same failures equally
   often if and only if items that share a key are judged alike.
   */
  lemma ReportIgnoresOrderIff(candidates: seq<Candidate>, evidence: seq<Evidence>, p: Policy, now: Number)
    ensures (forall shuffled | multiset(shuffled) == multiset(evidence) ::
               multiset(Report(candidates, shuffled, p, now)) == multiset(Report(candidates, evidence, p, now))) <==>
            SameVerdicts(evidence, p, now)
  {
    hide Report, EvidenceReport, FailureOf, Leading;
    if SameVerdicts(evidence, p, now) {
      forall shuffled | multiset(shuffled) == multiset(evidence)
        ensures multiset(Report(candidates, shuffled, p, now)) == multiset(Report(candidates, evidence, p, now))
      {
        AlikeIsReportedAlike(evidence, shuffled, p, now);
        ReportsDifferAlike(candidates, evidence, shuffled, p, now);
      }
    } else {
      var i, j :| 0 <= i < |evidence| && 0 <= j < |evidence| && evidence[i].key == evidence[j].key &&
                  FailureOf(evidence[i], p, now) != FailureOf(evidence[j], p, now);
      UnlikeIsReportedUnlike(evidence, p, now, i, j);
      ReportsDifferAlike(candidates, evidence, Leading(evidence, i), p, now);
      ReportsDifferAlike(candidates, evidence, Leading(evidence, j), p, now);
    }
  }

  const POLICY := Policy([P2tr], [Environment("chromium", "140", Desktop, "Linux")], "fixture", Finite(1000.0), [Bip322],
                         [Signet])
  const GOOD := Evidence(Key("xverse", "1.0.0", POLICY.environments[0], Signet, P2tr, NotApplicable, ConnectApproved), Some(0),
                         CORE_VERSION, REACT_VERSION, "fixture", Passed)
  const BAD := GOOD.(outcome := Outcome.Failed)

  /** It can depend on it: a passing and a failing item with one key. */
  lemma ReportCanDependOnOrder()
    ensures ValidPolicy(POLICY) && !SameVerdicts([GOOD, BAD], POLICY, Finite(0.0))
    ensures EvidenceReport([GOOD, BAD], POLICY, Finite(0.0)) == [DuplicateEvidence(GOOD.key)]
    ensures EvidenceReport([BAD, GOOD], POLICY, Finite(0.0)) == [BadEvidence(GOOD.key, DidFail), DuplicateEvidence(GOOD.key)]
  {
    PolicyIsValid();
    hide ValidPolicy;
    assert FailureOf(GOOD, POLICY, Finite(0.0)) == None && FailureOf(BAD, POLICY, Finite(0.0)) == Some(DidFail);
    assert [GOOD, BAD][0].key == [GOOD, BAD][1].key;
    ReportDependsOnOrder(GOOD, BAD, POLICY, Finite(0.0));
  }

  lemma PolicyIsValid()
    ensures ValidPolicy(POLICY)
  {
    NotBlank("chromium", 0);
    NotBlank("140", 0);
    NotBlank("Linux", 0);
    NotBlank("fixture", 0);
    hide IsBlank;
  }

  lemma NotBlank(text: string, i: nat)
    requires i < |text| && !IsWhiteSpace(text[i])
    ensures !IsBlank(text)
  {
    assert text[i] in text;
  }
}
