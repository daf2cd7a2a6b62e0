/** Which answer a membership change gets, what it leaves, and by whose right every audited change of a run was made. */
module OwnershipLaws {
  import opened Common
  import opened OrganizationOwnership
  import opened OwnershipInterleaving

  /** The one refusal that is not for want of a right: the organization is not there. */
  lemma NotFoundIff(t: Tables, c: Change)
    ensures ChangeMembership(t, c).1 == NotFound <==> c.organization !in t.organizations
    ensures ChangeMembership(t, c).1 != Changed ==> ChangeMembership(t, c).0 == t
  {
    hide MayAct, ChangesOwnership, RemovesActiveOwner, OtherOwners;
  }

  /** What a change leaves: the target in its new place, everybody else where they were, and one event that tells it. */
  lemma ChangeEffect(t: Tables, c: Change)
    requires ChangeMembership(t, c).1 == Changed
    ensures var (t', seat) := (ChangeMembership(t, c).0, Seat(c.organization, c.target));
            && t'.organizations == t.organizations
            && t'.members == t.members[seat := c.next]
            && |t'.audit| == |t.audit| + 1 && t'.audit[..|t.audit|] == t.audit
            && var e := t'.audit[|t.audit|];
            && e.actor == c.actor && e.seat == seat && e.next == c.next
            && (if seat in t.members then e.action == MembershipUpdated && e.previous == Some(t.members[seat])
                else e.action == MembershipCreated && e.previous == None)
  {
    hide MayAct, ChangesOwnership, RemovesActiveOwner, OtherOwners;
  }

  /** What a creation leaves: its creator as the one member, an active owner. */
  lemma CreationEffect(t: Tables, organization: Uuid, actor: Uuid)
    requires TablesOk(t)
    ensures var (t', seat) := (CreateOrganization(t, organization, actor), Seat(organization, actor));
            if organization in t.organizations then t' == t
            else
              && t'.organizations == t.organizations[organization := Active]
              && t'.members == t.members[seat := Member(Owner, Active)] && seat !in t.members
              && t'.audit == t.audit + [AuditEvent(OrganizationCreated, actor, seat, None, Member(Owner, Active))]
  {
    hide AuditOk, Replay, HasOwner;
  }

  /** The right by which an event was written: the change it came from, in the tables of that moment. */
  ghost predicate Entitles(t: Tables, c: Change, e: AuditEvent) {
    && e.actor == c.actor && e.seat == Seat(c.organization, c.target) && e.next == c.next
    && (if e.seat in t.members then e.action == MembershipUpdated && e.previous == Some(t.members[e.seat])
        else e.action == MembershipCreated && e.previous == None)
    && c.organization in t.organizations && t.organizations[c.organization] == Active
    && Seat(c.organization, c.actor) in t.members
    && t.members[Seat(c.organization, c.actor)].status == Active
    && t.members[Seat(c.organization, c.actor)].role in c.allowedActorRoles
    && (e.next.role == Owner || (e.previous.Some? && e.previous.value.role == Owner) ==> c.ownershipStepUpVerified)
  }

  lemma ChangeIsEntitled(t: Tables, c: Change)
    requires TablesOk(t) && ChangeMembership(t, c).1 == Changed
    ensures var t' := ChangeMembership(t, c).0;
            |t'.audit| == |t.audit| + 1 && t'.audit[..|t.audit|] == t.audit && Entitles(t, c, t'.audit[|t.audit|])
  {
    ChangedIff(t, c);
    ChangeEffect(t, c);
    hide ChangeMembership, TablesOk, HasOwner;
  }

  /** A statement that writes an event is the last of a call, or creates an organization. */
  lemma StepAppends(s: System, m: Move)
    requires Inv(s)
    ensures var (t, t') := (s.tables, Step(s, m).tables);
            || t'.audit == t.audit
            || (|t'.audit| == |t.audit| + 1 && t'.audit[..|t.audit|] == t.audit
                && t'.audit[|t.audit|].action == OrganizationCreated)
            || (m.Advance? && m.id in s.calls && ChangeMembership(t, s.calls[m.id].c).1 == Changed
                && t' == ChangeMembership(t, s.calls[m.id].c).0)
  {
    hide TablesOk, ChangeMembership, NextStatement, CallOk, RowIsHeld, Exclusive;
    if m.Advance? && m.id in s.calls {
      var call := s.calls[m.id];
      if !call.Ended? && NextStatement(s.tables, call).1.Ended? {
        EndingIsAtomic(s.tables, call);
        NotFoundIff(s.tables, call.c);
      } else {
        OtherStatementsOnlyRead(s.tables, call);
      }
    }
  }

  /** A call works on the change it began with. */
  lemma {:induction false} CallsWereBegun(moves: seq<Move>, id: Uuid) returns (j: nat)
    requires id in Run(moves).calls
    ensures j < |moves| && moves[j] == Begin(id, Run(moves).calls[id].c)
  {
    assert moves != [];
    var front, m := moves[..|moves| - 1], moves[|moves| - 1];
    RunKeepsInv(front);
    var s := Run(front);
    CallsKeepTheirChange(s, m, id);
    hide Run, Step, Inv;
    if m.Begin? && m.id == id && id !in s.calls {
      j := |front|;
    } else {
      j := CallsWereBegun(front, id);
    }
  }

  lemma CallsKeepTheirChange(s: System, m: Move, id: Uuid)
    requires Inv(s) && id in Step(s, m).calls
    ensures if m.Begin? && m.id == id && id !in s.calls then Step(s, m).calls[id].c == m.change
            else id in s.calls && Step(s, m).calls[id].c == s.calls[id].c
  {
    hide Inv, RowIsHeld, MayAct, ChangesOwnership, RemovesActiveOwner, OtherOwners, CreateOrganization, WithStatus, MemberAt;
  }

  /** What one statement adds to the audit: nothing, a creation, or a change that its caller was entitled to. */
  ghost predicate Appends(s: System, m: Move) {
    var (t, t') := (s.tables, Step(s, m).tables);
    || t'.audit == t.audit
    || (|t'.audit| == |t.audit| + 1 && t'.audit[..|t.audit|] == t.audit
        && (t'.audit[|t.audit|].action != OrganizationCreated ==>
              m.Advance? && m.id in s.calls && Entitles(t, s.calls[m.id].c, t'.audit[|t.audit|])))
  }

  lemma StepIsEntitled(s: System, m: Move)
    requires Inv(s)
    ensures Appends(s, m)
  {
    StepAppends(s, m);
    hide Step, Inv, Entitles, ChangeMembership;
    if m.Advance? && m.id in s.calls && ChangeMembership(s.tables, s.calls[m.id].c).1 == Changed
       && Step(s, m).tables == ChangeMembership(s.tables, s.calls[m.id].c).0 {
      TablesOfInv(s);
      ChangeIsEntitled(s.tables, s.calls[m.id].c);
    }
  }

  /** Statement `n` of a run wrote event `k`, for a call begun with `c` at move `j` and entitled to it. */
  ghost predicate WrittenBy(moves: seq<Move>, k: nat, n: nat, j: nat, c: Change) {
    && j < n < |moves| && moves[n].Advance? && moves[j] == Begin(moves[n].id, c)
    && k < |Run(moves).tables.audit|
    && Run(moves[..n]).tables.audit == Run(moves).tables.audit[..k]
    && Entitles(Run(moves[..n]).tables, c, Run(moves).tables.audit[k])
  }

  lemma StillWritten(front: seq<Move>, m: Move, k: nat, n: nat, j: nat, c: Change)
    requires WrittenBy(front, k, n, j, c) && Run(front).tables.audit <= Run(front + [m]).tables.audit
    ensures WrittenBy(front + [m], k, n, j, c)
  {
    hide Run, Entitles;
    assert (front + [m])[..n] == front[..n];
  }

  lemma NewlyWritten(front: seq<Move>, m: Move) returns (j: nat)
    requires Inv(Run(front)) && Run(front + [m]) == Step(Run(front), m)
    requires Run(front + [m]).tables.audit != Run(front).tables.audit
    requires var k := |Run(front).tables.audit|;
             && k < |Run(front + [m]).tables.audit|
             && Run(front + [m]).tables.audit[k].action != OrganizationCreated
    ensures m.Advance? && m.id in Run(front).calls
    ensures WrittenBy(front + [m], |Run(front).tables.audit|, |front|, j, Run(front).calls[m.id].c)
  {
    StepIsEntitled(Run(front), m);
    hide Run, Inv, Step, Entitles;
    j := CallsWereBegun(front, m.id);
    assert (front + [m])[..|front|] == front;
  }

  /** A run goes on by one statement, and its audit by at most one event. */
  lemma RunGoesOn(front: seq<Move>, m: Move)
    requires Inv(Run(front))
    ensures Run(front + [m]) == Step(Run(front), m)
    ensures var (audit, audit') := (Run(front).tables.audit, Run(front + [m]).tables.audit);
            && audit <= audit' && |audit'| <= |audit| + 1
            && (|audit| < |audit'| && audit'[|audit|].action != OrganizationCreated ==> m.Advance? && m.id in Run(front).calls)
  {
    assert (front + [m])[..|front|] == front;
    StepIsEntitled(Run(front), m);
    hide Step, Inv, Entitles;
  }

  lemma LastMove(moves: seq<Move>)
    ensures Run([]).tables.audit == []
    ensures moves != [] ==> moves[..|moves| - 1] + [moves[|moves| - 1]] == moves
  {
  }

  /**
   However calls overlap: every audited change but a creation was made by a call begun with it, when its actor was an
   active member in a role that it allowed, in an active organization, and with a step-up where an owner was concerned.
   */
  lemma {:induction false} EveryAuditedChangeWasEntitled(moves: seq<Move>, k: nat) returns (n: nat, j: nat, c: Change)
    requires k < |Run(moves).tables.audit| && Run(moves).tables.audit[k].action != OrganizationCreated
    ensures WrittenBy(moves, k, n, j, c)
  {
    hide *;
    LastMove(moves);
    var front, m := moves[..|moves| - 1], moves[|moves| - 1];
    assert moves == front + [m];
    RunKeepsInv(front);
    RunGoesOn(front, m);
    if k < |Run(front).tables.audit| {
      n, j, c := EveryAuditedChangeWasEntitled(front, k);
      StillWritten(front, m, k, n, j, c);
    } else {
      n, c := |front|, Run(front).calls[m.id].c;
      j := NewlyWritten(front, m);
    }
  }

  lemma TablesOfInv(s: System)
    requires Inv(s)
    ensures TablesOk(s.tables)
  {
  }
}
