/**
 Organizations, their memberships and the audit of every change. Users, correlation ids, policy versions and reason codes
 are not part of this model.
 */
module OrganizationOwnership {
  import opened Common

  datatype Role = Owner | Admin | Editor | Analyst
  datatype Status = Active | Suspended
  datatype Member = Member(role: Role, status: Status)

  /** The unique index of the membership table. */
  datatype Seat = Seat(organization: Uuid, user: Uuid)

  datatype AuditAction = OrganizationCreated | MembershipCreated | MembershipUpdated
  datatype AuditEvent = AuditEvent(action: AuditAction, actor: Uuid, seat: Seat, previous: Option<Member>, next: Member)

  datatype Tables = Tables(organizations: map<Uuid, Status>, members: map<Seat, Member>, audit: seq<AuditEvent>)

  const NO_ROWS := Tables(map[], map[], [])
  const ACTIVE_OWNER := Member(Owner, Active)

  function MemberAt(members: map<Seat, Member>, seat: Seat): Option<Member> {
    if seat in members then Some(members[seat]) else None
  }

  // ----- createOrganization -----

  function CreateOrganization(t: Tables, organization: Uuid, actor: Uuid): Tables {
    var seat := Seat(organization, actor);
    if organization in t.organizations || seat in t.members then t
    else
      Tables(t.organizations[organization := Active],
             t.members[seat := ACTIVE_OWNER],
             t.audit + [AuditEvent(OrganizationCreated, actor, seat, None, ACTIVE_OWNER)])
  }

  // ----- changeMembership -----

  datatype Change = Change(organization: Uuid, actor: Uuid, target: Uuid, next: Member, ownershipStepUpVerified: bool,
                           allowedActorRoles: set<Role>)
  {
    function TargetSeat(): Seat {
      Seat(organization, target)
    }
  }

  datatype ChangeResult = Changed | Forbidden | LastOwner | NotFound

  predicate MayAct(members: map<Seat, Member>, c: Change) {
    var seat := Seat(c.organization, c.actor);
    seat in members && members[seat].status == Active && members[seat].role in c.allowedActorRoles
  }

  predicate RemovesActiveOwner(previous: Option<Member>, c: Change) {
    previous == Some(ACTIVE_OWNER) && c.next != ACTIVE_OWNER
  }

  predicate ChangesOwnership(previous: Option<Member>, c: Change) {
    (previous.Some? && previous.value.role == Owner) || c.next.role == Owner
  }

  function OtherOwners(members: map<Seat, Member>, c: Change): set<Seat> {
    set s | s in members && s.organization == c.organization && members[s] == ACTIVE_OWNER && s.user != c.target
  }

  function ChangeEvent(previous: Option<Member>, c: Change): AuditEvent {
    AuditEvent(if previous.None? then MembershipCreated else MembershipUpdated, c.actor, c.TargetSeat(), previous, c.next)
  }

  function ChangeMembership(t: Tables, c: Change): (Tables, ChangeResult) {
    if c.organization !in t.organizations then (t, NotFound)
    else if t.organizations[c.organization] != Active then (t, Forbidden)
    else if !MayAct(t.members, c) then (t, Forbidden)
    else
      var previous := MemberAt(t.members, c.TargetSeat());
      if ChangesOwnership(previous, c) && !c.ownershipStepUpVerified then (t, Forbidden)
      else if RemovesActiveOwner(previous, c) && |OtherOwners(t.members, c)| == 0 then (t, LastOwner)
      else
        (t.(members := t.members[c.TargetSeat() := c.next], audit := t.audit + [ChangeEvent(previous, c)]), Changed)
  }

  // ----- What every operation keeps -----

  /** The membership table that a list of audit events leads to. */
  function Replay(audit: seq<AuditEvent>): map<Seat, Member> {
    if audit == [] then map[]
    else
      var front, last := audit[..|audit| - 1], audit[|audit| - 1];
      Replay(front)[last.seat := last.next]
  }

  lemma ReplaySnoc(audit: seq<AuditEvent>, e: AuditEvent)
    ensures Replay(audit + [e]) == Replay(audit)[e.seat := e.next]
  {
    assert (audit + [e])[..|audit|] == audit;
  }

  /**
   An event tells what it replaced; it creates a membership exactly when there was none; and who made it was an active
   member of the organization then, unless it created the organization.
   */
  predicate EventFollows(earlier: map<Seat, Member>, e: AuditEvent) {
    && e.previous == MemberAt(earlier, e.seat)
    && (e.action == MembershipUpdated <==> e.previous.Some?)
    && (e.action == OrganizationCreated ==>
          e.next == ACTIVE_OWNER && e.actor == e.seat.user && forall s | s in earlier :: s.organization != e.seat.organization)
    && (e.action != OrganizationCreated ==>
          var actor := Seat(e.seat.organization, e.actor); actor in earlier && earlier[actor].status == Active)
  }

  ghost predicate AuditOk(audit: seq<AuditEvent>) {
    forall k | 0 <= k < |audit| :: EventFollows(Replay(audit[..k]), audit[k])
  }

  ghost predicate HasOwner(members: map<Seat, Member>, organization: Uuid) {
    exists user: Uuid :: Seat(organization, user) in members && members[Seat(organization, user)] == ACTIVE_OWNER
  }

  ghost predicate TablesOk(t: Tables) {
    && t.members == Replay(t.audit)
    && AuditOk(t.audit)
    && (forall s | s in t.members :: s.organization in t.organizations)
    && (forall o | o in t.organizations :: HasOwner(t.members, o))
  }

  lemma AuditGrows(audit: seq<AuditEvent>, e: AuditEvent)
    requires AuditOk(audit) && EventFollows(Replay(audit), e)
    ensures AuditOk(audit + [e])
  {
    var all := audit + [e];
    hide EventFollows, Replay;
    forall k | 0 <= k < |all|
      ensures EventFollows(Replay(all[..k]), all[k])
    {
      if k < |audit| {
        assert all[..k] == audit[..k];
      } else {
        assert all[..k] == audit;
      }
    }
  }

  lemma CreationKeepsTables(t: Tables, organization: Uuid, actor: Uuid)
    requires TablesOk(t)
    ensures TablesOk(CreateOrganization(t, organization, actor))
  {
    var t' := CreateOrganization(t, organization, actor);
    if t' != t {
      var e := t'.audit[|t.audit|];
      ReplaySnoc(t.audit, e);
      AuditGrows(t.audit, e);
      hide AuditOk, Replay, EventFollows;
      forall o | o in t'.organizations
        ensures HasOwner(t'.members, o)
      {
        if o == organization {
          assert t'.members[Seat(organization, actor)] == ACTIVE_OWNER;
        } else {
          var user: Uuid :| Seat(o, user) in t.members && t.members[Seat(o, user)] == ACTIVE_OWNER;
          assert t'.members[Seat(o, user)] == ACTIVE_OWNER;
        }
      }
    }
  }

  /** After a change that goes through, the organization still has an active owner: the target or another. */
  lemma ChangeLeavesAnOwner(members: map<Seat, Member>, c: Change)
    requires HasOwner(members, c.organization)
    requires RemovesActiveOwner(MemberAt(members, c.TargetSeat()), c) ==> |OtherOwners(members, c)| > 0
    ensures HasOwner(members[c.TargetSeat() := c.next], c.organization)
  {
    var after := members[c.TargetSeat() := c.next];
    if RemovesActiveOwner(MemberAt(members, c.TargetSeat()), c) {
      var other :| other in OtherOwners(members, c);
      assert after[Seat(c.organization, other.user)] == ACTIVE_OWNER;
    } else if c.next == ACTIVE_OWNER {
      assert after[Seat(c.organization, c.target)] == ACTIVE_OWNER;
    } else {
      var user: Uuid :| Seat(c.organization, user) in members && members[Seat(c.organization, user)] == ACTIVE_OWNER;
      assert after[Seat(c.organization, user)] == ACTIVE_OWNER;
    }
  }

  lemma ChangeKeepsTables(t: Tables, c: Change)
    requires TablesOk(t)
    ensures TablesOk(ChangeMembership(t, c).0)
  {
    var t' := ChangeMembership(t, c).0;
    if t' != t {
      var e := ChangeEvent(MemberAt(t.members, c.TargetSeat()), c);
      ReplaySnoc(t.audit, e);
      AuditGrows(t.audit, e);
      ChangeLeavesAnOwner(t.members, c);
      hide AuditOk, Replay, EventFollows, ChangesOwnership, RemovesActiveOwner, OtherOwners, MayAct;
      forall o | o in t'.organizations
        ensures HasOwner(t'.members, o)
      {
        if o != c.organization {
          var user: Uuid :| Seat(o, user) in t.members && t.members[Seat(o, user)] == ACTIVE_OWNER;
          assert t'.members[Seat(o, user)] == ACTIVE_OWNER;
        }
      }
    }
  }

  /**
   When a change is refused for the last owner: the request is otherwise good, and its target is the only active owner and
   would stop being one.
   */
  lemma RefusedForLastOwnerIff(t: Tables, c: Change)
    requires TablesOk(t)
    ensures ChangeMembership(t, c).1 == LastOwner <==>
            && c.organization in t.organizations && t.organizations[c.organization] == Active
            && Seat(c.organization, c.actor) in t.members
            && t.members[Seat(c.organization, c.actor)].status == Active
            && t.members[Seat(c.organization, c.actor)].role in c.allowedActorRoles
            && c.ownershipStepUpVerified && c.next != ACTIVE_OWNER
            && forall user: Uuid ::
                 Seat(c.organization, user) in t.members && t.members[Seat(c.organization, user)] == ACTIVE_OWNER <==>
                 user == c.target
  {
    hide Replay, AuditOk;
    if c.organization in t.organizations {
      var user: Uuid :| Seat(c.organization, user) in t.members && t.members[Seat(c.organization, user)] == ACTIVE_OWNER;
      if |OtherOwners(t.members, c)| == 0 {
        assert forall user: Uuid :: Seat(c.organization, user) in OtherOwners(t.members, c) <==>
                 Seat(c.organization, user) in t.members && t.members[Seat(c.organization, user)] == ACTIVE_OWNER
                 && user != c.target;
      } else {
        var other :| other in OtherOwners(t.members, c);
        assert Seat(c.organization, other.user) == other;
      }
    }
  }

  /**
   A change goes through exactly when its actor is an active member in a role that it allows, a change of an owner is
   backed by a step-up, and an active owner is left after it.
   */
  lemma ChangedIff(t: Tables, c: Change)
    requires TablesOk(t)
    ensures ChangeMembership(t, c).1 == Changed <==>
            && c.organization in t.organizations && t.organizations[c.organization] == Active
            && Seat(c.organization, c.actor) in t.members
            && t.members[Seat(c.organization, c.actor)].status == Active
            && t.members[Seat(c.organization, c.actor)].role in c.allowedActorRoles
            && (c.next.role == Owner ==> c.ownershipStepUpVerified)
            && (Seat(c.organization, c.target) in t.members && t.members[Seat(c.organization, c.target)].role == Owner ==>
                  c.ownershipStepUpVerified)
            && HasOwner(t.members[Seat(c.organization, c.target) := c.next], c.organization)
  {
    hide Replay, AuditOk, RemovesActiveOwner, OtherOwners;
    if c.organization in t.organizations {
      if RemovesActiveOwner(MemberAt(t.members, c.TargetSeat()), c) && |OtherOwners(t.members, c)| == 0 {
        NoOwnerIsLeft(t.members, c);
      } else {
        ChangeLeavesAnOwner(t.members, c);
      }
    }
  }

  lemma NoOwnerIsLeft(members: map<Seat, Member>, c: Change)
    requires RemovesActiveOwner(MemberAt(members, c.TargetSeat()), c) && |OtherOwners(members, c)| == 0
    ensures !HasOwner(members[c.TargetSeat() := c.next], c.organization)
  {
    var after := members[c.TargetSeat() := c.next];
    assert forall user: Uuid | Seat(c.organization, user) in after && user != c.target &&
                               after[Seat(c.organization, user)] == ACTIVE_OWNER ::
        Seat(c.organization, user) in OtherOwners(members, c);
  }

  // ----- The repository -----

  class AccountRepository {
    var organizations: map<Uuid, Status>
    var members: map<Seat, Member>
    var audit: seq<AuditEvent>

    ghost function State(): Tables
      reads this
    {
      Tables(organizations, members, audit)
    }

    ghost predicate Valid()
      reads this
    {
      TablesOk(State())
    }

    constructor ()
      ensures State() == NO_ROWS && Valid()
    {
      organizations, members, audit := map[], map[], [];
    }

    method Create(organization: Uuid, actor: Uuid)
      requires Valid()
      modifies this
      ensures State() == CreateOrganization(old(State()), organization, actor)
      ensures Valid()
    {
      CreationKeepsTables(State(), organization, actor);
      hide TablesOk;
      var seat := Seat(organization, actor);
      if organization in organizations || seat in members {
        return;
      }
      organizations := organizations[organization := Active];
      members := members[seat := ACTIVE_OWNER];
      audit := audit + [AuditEvent(OrganizationCreated, actor, seat, None, ACTIVE_OWNER)];
    }

    method ChangeMember(c: Change) returns (result: ChangeResult)
      requires Valid()
      modifies this
      ensures (State(), result) == ChangeMembership(old(State()), c)
      ensures Valid()
    {
      ChangeKeepsTables(State(), c);
      hide TablesOk, MayAct, ChangesOwnership, RemovesActiveOwner, OtherOwners, MemberAt;
      if c.organization !in organizations {
        return NotFound;
      }
      if organizations[c.organization] != Active {
        return Forbidden;
      }
      if !MayAct(members, c) {
        return Forbidden;
      }
      var target := c.TargetSeat();
      var previous := MemberAt(members, target);
      if ChangesOwnership(previous, c) && !c.ownershipStepUpVerified {
        return Forbidden;
      }
      if RemovesActiveOwner(previous, c) {
        var remaining := OtherOwners(members, c);
        if |remaining| == 0 {
          return LastOwner;
        }
      }
      members := members[target := c.next];
      audit := audit + [AuditEvent(if previous.None? then MembershipCreated else MembershipUpdated, c.actor, target, previous,
                                   c.next)];
      return Changed;
    }
  }
}
