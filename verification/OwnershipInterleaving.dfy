/**
 Membership changes, statement by statement. Each call locks the organization's row, reads its actor, the target's
 membership and, where an owner goes, the other owners, and writes at last; calls overlap in any order, may be dropped at
 any point, and a call waits while another holds the row. A move that cannot be made where it stands changes nothing.
 */
module OwnershipInterleaving {
  import opened Common
  import opened OrganizationOwnership

  datatype Call =
    | Waiting(c: Change)
    | Locked(c: Change)
    | Authorized(c: Change)
    | Compared(c: Change, previous: Option<Member>)
    | Cleared(c: Change, previous: Option<Member>)
    | Ended(c: Change, result: ChangeResult)

  datatype System = System(tables: Tables, calls: map<Uuid, Call>)

  datatype Move =
    | Create(organization: Uuid, actor: Uuid)
    | SetStatus(organization: Uuid, status: Status)
    | Begin(id: Uuid, change: Change)
    | Advance(id: Uuid)
    | Drop(id: Uuid)

  predicate Holds(call: Call, organization: Uuid) {
    !call.Waiting? && !call.Ended? && call.c.organization == organization
  }

  predicate RowIsHeld(calls: map<Uuid, Call>, organization: Uuid) {
    exists id | id in calls :: Holds(calls[id], organization)
  }

  /** One statement of a call that holds its row, or is about to take it: where it stands then, and the tables. */
  function NextStatement(t: Tables, call: Call): (Tables, Call) {
    match call
    case Waiting(c) =>
      if c.organization !in t.organizations then (t, Ended(c, NotFound))
      else if t.organizations[c.organization] != Active then (t, Ended(c, Forbidden))
      else (t, Locked(c))
    case Locked(c) => (t, if MayAct(t.members, c) then Authorized(c) else Ended(c, Forbidden))
    case Authorized(c) =>
      var previous := MemberAt(t.members, c.TargetSeat());
      if ChangesOwnership(previous, c) && !c.ownershipStepUpVerified then (t, Ended(c, Forbidden))
      else if RemovesActiveOwner(previous, c) then (t, Compared(c, previous))
      else (t, Cleared(c, previous))
    case Compared(c, previous) =>
      (t, if |OtherOwners(t.members, c)| == 0 then Ended(c, LastOwner) else Cleared(c, previous))
    case Cleared(c, previous) =>
      (t.(members := t.members[c.TargetSeat() := c.next], audit := t.audit + [ChangeEvent(previous, c)]), Ended(c, Changed))
    case Ended(_, _) => (t, call)
  }

  /** A suspension or its end, which the account repository itself never makes. */
  function WithStatus(t: Tables, organization: Uuid, status: Status): Tables {
    if organization in t.organizations then t.(organizations := t.organizations[organization := status]) else t
  }

  function Step(s: System, m: Move): System {
    match m
    case Create(organization, actor) => s.(tables := CreateOrganization(s.tables, organization, actor))
    case SetStatus(organization, status) =>
      if RowIsHeld(s.calls, organization) then s else s.(tables := WithStatus(s.tables, organization, status))
    case Begin(id, c) => if id in s.calls then s else s.(calls := s.calls[id := Waiting(c)])
    case Advance(id) =>
      if id !in s.calls then s
      else if s.calls[id].Waiting? && RowIsHeld(s.calls, s.calls[id].c.organization) then s
      else
        var (tables, call) := NextStatement(s.tables, s.calls[id]);
        System(tables, s.calls[id := call])
    case Drop(id) => s.(calls := s.calls - {id})
  }

  function Run(moves: seq<Move>): System {
    if moves == [] then System(NO_ROWS, map[])
    else Step(Run(moves[..|moves| - 1]), moves[|moves| - 1])
  }

  // ----- What the row lock protects -----

  /** What a call has read is what the tables hold. */
  predicate CallOk(t: Tables, call: Call) {
    if call.Waiting? || call.Ended? then true
    else
      var c := call.c;
      && c.organization in t.organizations && t.organizations[c.organization] == Active
      && (call.Locked? || MayAct(t.members, c))
      && (call.Compared? || call.Cleared? ==>
            && call.previous == MemberAt(t.members, c.TargetSeat())
            && (ChangesOwnership(call.previous, c) ==> c.ownershipStepUpVerified))
      && (call.Compared? ==> RemovesActiveOwner(call.previous, c))
      && (call.Cleared? && RemovesActiveOwner(call.previous, c) ==> |OtherOwners(t.members, c)| > 0)
  }

  ghost predicate Exclusive(calls: map<Uuid, Call>) {
    forall a, b | a in calls && b in calls && a != b && Holds(calls[a], calls[a].c.organization) ::
      !Holds(calls[b], calls[a].c.organization)
  }

  ghost predicate CallsOk(s: System) {
    forall id | id in s.calls :: CallOk(s.tables, s.calls[id])
  }

  ghost predicate Inv(s: System) {
    TablesOk(s.tables) && Exclusive(s.calls) && CallsOk(s)
  }

  /** Two tables that agree on all that a change to the organization reads. */
  ghost predicate SameOrganization(t: Tables, t': Tables, organization: Uuid) {
    && organization in t.organizations && organization in t'.organizations
    && t.organizations[organization] == t'.organizations[organization]
    && forall s: Seat | s.organization == organization :: MemberAt(t.members, s) == MemberAt(t'.members, s)
  }

  lemma SameOrganizationSameCall(t: Tables, t': Tables, call: Call)
    requires CallOk(t, call)
    requires call.Waiting? || call.Ended? || SameOrganization(t, t', call.c.organization)
    ensures CallOk(t', call)
  {
    if !call.Waiting? && !call.Ended? {
      var c := call.c;
      assert MemberAt(t.members, Seat(c.organization, c.actor)) == MemberAt(t'.members, Seat(c.organization, c.actor));
      assert MemberAt(t.members, c.TargetSeat()) == MemberAt(t'.members, c.TargetSeat());
      SameOthers(t, t', c);
      hide OtherOwners, SameOrganization, RemovesActiveOwner, ChangesOwnership;
    }
  }

  lemma SameOthers(t: Tables, t': Tables, c: Change)
    requires SameOrganization(t, t', c.organization)
    ensures OtherOwners(t.members, c) == OtherOwners(t'.members, c)
  {
    forall s: Seat
      ensures s in OtherOwners(t.members, c) <==> s in OtherOwners(t'.members, c)
    {
      if s.organization == c.organization {
        assert MemberAt(t.members, s) == MemberAt(t'.members, s);
      }
    }
  }

  /** A call that ends by a statement answers, and changes the tables, as the whole change would there and then. */
  lemma EndingIsAtomic(t: Tables, call: Call)
    requires CallOk(t, call) && !call.Ended? && NextStatement(t, call).1.Ended?
    ensures ChangeMembership(t, call.c) == (NextStatement(t, call).0, NextStatement(t, call).1.result)
  {
    hide MayAct, OtherOwners, ChangesOwnership, RemovesActiveOwner;
  }

  lemma OtherStatementsOnlyRead(t: Tables, call: Call)
    requires CallOk(t, call) && (call.Ended? || !NextStatement(t, call).1.Ended?)
    ensures NextStatement(t, call).0 == t && CallOk(t, NextStatement(t, call).1)
    ensures NextStatement(t, call).1.c == call.c
  {
    hide MayAct, OtherOwners, ChangesOwnership, RemovesActiveOwner;
  }

  lemma ChangeLeavesOthers(t: Tables, c: Change, organization: Uuid)
    requires organization != c.organization && organization in t.organizations
    ensures SameOrganization(t, ChangeMembership(t, c).0, organization)
  {
    hide MayAct, OtherOwners, ChangesOwnership, RemovesActiveOwner;
  }

  /** A step's tables are those before, or what one whole operation makes of them. */
  ghost predicate WholeOperation(t: Tables, t': Tables) {
    || t' == t
    || (exists o, a :: t' == CreateOrganization(t, o, a))
    || (exists c :: t' == ChangeMembership(t, c).0)
    || (exists o, st :: t' == WithStatus(t, o, st))
  }

  lemma StatusKeepsTables(t: Tables, organization: Uuid, status: Status)
    requires TablesOk(t)
    ensures TablesOk(WithStatus(t, organization, status))
  {
    hide HasOwner, AuditOk, Replay;
  }

  lemma StepIsWhole(s: System, m: Move)
    requires Inv(s)
    ensures WholeOperation(s.tables, Step(s, m).tables)
  {
    hide TablesOk, ChangeMembership, CreateOrganization, WithStatus, NextStatement, CallOk, RowIsHeld, Exclusive;
    if m.Advance? && m.id in s.calls {
      var call := s.calls[m.id];
      if !call.Ended? && NextStatement(s.tables, call).1.Ended? {
        EndingIsAtomic(s.tables, call);
        assert NextStatement(s.tables, call).0 == ChangeMembership(s.tables, call.c).0;
      } else {
        OtherStatementsOnlyRead(s.tables, call);
      }
    } else if m.SetStatus? {
      assert Step(s, m).tables == s.tables || Step(s, m).tables == WithStatus(s.tables, m.organization, m.status);
    }
  }

  lemma WholeOperationKeepsTables(t: Tables, t': Tables)
    requires TablesOk(t) && WholeOperation(t, t')
    ensures TablesOk(t')
  {
    hide TablesOk, ChangeMembership, CreateOrganization;
    if t' != t {
      if o, a :| t' == CreateOrganization(t, o, a) {
        CreationKeepsTables(t, o, a);
      } else if c :| t' == ChangeMembership(t, c).0 {
        ChangeKeepsTables(t, c);
      } else {
        var o, st :| t' == WithStatus(t, o, st);
        StatusKeepsTables(t, o, st);
      }
    }
  }

  lemma AdvanceKeepsExclusive(s: System, id: Uuid)
    requires CallsOk(s) && Exclusive(s.calls)
    ensures Exclusive(Step(s, Advance(id)).calls)
  {
    var s' := Step(s, Advance(id));
    if id in s.calls && s' != s {
      assert s'.calls[id].c == s.calls[id].c;
      hide NextStatement, CallOk;
      if Holds(s'.calls[id], s'.calls[id].c.organization) {
        StaysHolding(s.tables, s.calls[id]);
      }
      assert forall a | a in s.calls && a != id :: s'.calls[a] == s.calls[a];
    }
  }

  lemma StaysHolding(t: Tables, call: Call)
    requires Holds(NextStatement(t, call).1, call.c.organization)
    ensures call.Waiting? || Holds(call, call.c.organization)
  {
  }

  lemma AdvanceKeepsCalls(s: System, id: Uuid)
    requires Inv(s)
    ensures CallsOk(Step(s, Advance(id)))
  {
    var s' := Step(s, Advance(id));
    hide TablesOk, ChangeMembership, NextStatement, CallOk, RowIsHeld;
    if id in s.calls && s' != s {
      var call := s.calls[id];
      if !call.Ended? && NextStatement(s.tables, call).1.Ended? {
        EndingIsAtomic(s.tables, call);
        EndedIsOk(s'.tables, s'.calls[id]);
        forall other | other in s.calls && other != id
          ensures CallOk(s'.tables, s.calls[other])
        {
          BystanderKept(s, id, other);
        }
      } else {
        OtherStatementsOnlyRead(s.tables, call);
      }
    }
  }

  lemma EndedIsOk(t: Tables, call: Call)
    requires call.Ended?
    ensures CallOk(t, call)
  {
  }

  lemma BystanderKept(s: System, id: Uuid, other: Uuid)
    requires Inv(s) && id in s.calls && other in s.calls && id != other && Step(s, Advance(id)) != s
    requires Step(s, Advance(id)).tables == ChangeMembership(s.tables, s.calls[id].c).0
    ensures CallOk(Step(s, Advance(id)).tables, s.calls[other])
  {
    var t', call, bystander := Step(s, Advance(id)).tables, s.calls[id], s.calls[other];
    assert CallOk(s.tables, bystander);
    if !bystander.Waiting? && !bystander.Ended? {
      if bystander.c.organization != call.c.organization {
        ChangeLeavesOthers(s.tables, call.c, bystander.c.organization);
      } else {
        assert Holds(bystander, call.c.organization);
        assert !Holds(call, call.c.organization);
        assert t' == s.tables;
      }
    }
    hide ChangeMembership, NextStatement;
    if t' != s.tables {
      SameOrganizationSameCall(s.tables, t', bystander);
    }
  }

  lemma OtherMovesKeepCalls(s: System, m: Move)
    requires Inv(s) && !m.Advance?
    ensures CallsOk(Step(s, m))
  {
    var s' := Step(s, m);
    hide ChangeMembership;
    forall id | id in s'.calls
      ensures CallOk(s'.tables, s'.calls[id])
    {
      if id in s.calls {
        var call := s.calls[id];
        assert CallOk(s.tables, call);
        assert s'.calls[id] == call;
        if !call.Waiting? && !call.Ended? {
          assert Holds(call, call.c.organization);
          OtherMovesLeaveHeldRows(s, m, call.c.organization);
        }
        SameOrganizationSameCall(s.tables, s'.tables, call);
      }
    }
  }

  lemma OtherMovesLeaveHeldRows(s: System, m: Move, organization: Uuid)
    requires RowIsHeld(s.calls, organization) && organization in s.tables.organizations && !m.Advance?
    ensures SameOrganization(s.tables, Step(s, m).tables, organization)
  {
    hide NextStatement;
  }

  lemma StepKeepsInv(s: System, m: Move)
    requires Inv(s)
    ensures Inv(Step(s, m))
  {
    StepIsWhole(s, m);
    WholeOperationKeepsTables(s.tables, Step(s, m).tables);
    if m.Advance? {
      AdvanceKeepsExclusive(s, m.id);
      AdvanceKeepsCalls(s, m.id);
    } else {
      OtherMovesKeepCalls(s, m);
    }
    hide TablesOk, CallsOk, WholeOperation, WithStatus, NextStatement, CreateOrganization, RowIsHeld;
  }

  lemma {:induction false} RunKeepsInv(moves: seq<Move>)
    ensures Inv(Run(moves))
  {
    hide Inv, Step;
    if moves == [] {
      NothingIsOk();
    } else {
      RunKeepsInv(moves[..|moves| - 1]);
      StepKeepsInv(Run(moves[..|moves| - 1]), moves[|moves| - 1]);
    }
  }

  lemma NothingIsOk()
    ensures Inv(System(NO_ROWS, map[]))
  {
  }

  // ----- Main results -----

  /** However calls overlap, every organization has an active owner at every point. */
  lemma OwnershipIsNeverLost(moves: seq<Move>, organization: Uuid)
    requires organization in Run(moves).tables.organizations
    ensures HasOwner(Run(moves).tables.members, organization)
  {
    RunKeepsInv(moves);
    hide Run;
  }

  /** The audit alone gives the membership table, and each event tells truly what it replaced and who was entitled to it. */
  lemma AuditReproducesMembers(moves: seq<Move>)
    ensures Replay(Run(moves).tables.audit) == Run(moves).tables.members
    ensures AuditOk(Run(moves).tables.audit)
  {
    RunKeepsInv(moves);
    hide Run, Replay, AuditOk;
  }

  /** Every call that ends does so as one whole change, made at the moment of its last statement. */
  lemma CallsAreSerial(moves: seq<Move>, id: Uuid)
    requires var (s, s') := (Run(moves), Step(Run(moves), Advance(id)));
             id in s.calls && !s.calls[id].Ended? && s'.calls[id].Ended?
    ensures var (s, s') := (Run(moves), Step(Run(moves), Advance(id)));
            ChangeMembership(s.tables, s.calls[id].c) == (s'.tables, s'.calls[id].result)
  {
    RunKeepsInv(moves);
    var s := Run(moves);
    hide Run, ChangeMembership, TablesOk, Exclusive, RowIsHeld, CallOk;
    EndingIsAtomic(s.tables, s.calls[id]);
  }
}
