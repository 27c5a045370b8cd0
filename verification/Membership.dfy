/** The member table: first sight with authentication, updates, promotion, and suspicion by age.

    Every public operation runs under one lock and ends by emitting a snapshot if it changed the table,
    except the liveness loop, which changes the table silently.  `Change` is the meaning of one
    operation on the table and says whether a snapshot is emitted; the class `MembershipService` is the
    code, proved against it, with the snapshot handed to the election. */
module Membership {
  import opened Core
  import opened Election

  datatype Table = Table(members: seq<Member>, revision: nat)

  /** Operations on the table.  Times are in microseconds and `authentic` is the identity provider's answer. */
  datatype Operation =
    | Observe(peer: Peer, authentic: bool, now: int)
    | UpdateCapability(node: NodeId, capability: Capability)
    | UpdateModels(models: seq<ModelPresence>)
    | UpdateLocalRole(local: NodeId, role: NodeRole)
    | PromoteJoining(now: int)
    | LivenessTick(now: int)

  const SECOND: int := 1000000

  /** Conversion to whole seconds, truncating towards zero. */
  function WholeSeconds(d: int): int {
    if d >= 0 then d / SECOND else -((-d) / SECOND)
  }

  predicate Overdue(m: Member, now: int) {
    m.state == Alive && WholeSeconds(now - m.lastSeen) > 10
  }

  // ---------------------------------------------------------------------------------------------
  // Meaning of the operations
  // ---------------------------------------------------------------------------------------------

  function IndexOf(members: seq<Member>, id: NodeId): (r: nat)
    ensures r <= |members|
    ensures r < |members| ==> members[r].peer.id == id
    ensures forall i :: 0 <= i < r ==> members[i].peer.id != id
  {
    if members == [] then 0
    else if members[0].peer.id == id then 0
    else
      var r := IndexOf(members[1..], id);
      assert forall i :: 1 <= i < r + 1 ==> members[i] == members[1..][i - 1];
      r + 1
  }

  function SeenAgain(m: Member, peer: Peer, now: int): Member {
    m.(peer := peer, lastSeen := now, state := if m.state == Suspect then Alive else m.state)
  }

  function NewMember(peer: Peer, now: int): Member {
    Member(peer, Joining, Leech, None, [], now)
  }

  function WithModels(members: seq<Member>, models: seq<ModelPresence>): (r: seq<Member>)
    ensures |r| == |members|
    ensures forall i :: 0 <= i < |r| ==> r[i] == members[i].(models := models)
  {
    if members == [] then [] else [members[0].(models := models)] + WithModels(members[1..], models)
  }

  function PromotedMember(m: Member, now: int): Member {
    if m.state == Joining then m.(state := Alive, lastSeen := now) else m
  }

  function Promoted(members: seq<Member>, now: int): (r: seq<Member>)
    ensures |r| == |members|
    ensures forall i :: 0 <= i < |r| ==> r[i] == PromotedMember(members[i], now)
  {
    if members == [] then [] else [PromotedMember(members[0], now)] + Promoted(members[1..], now)
  }

  predicate AnyJoining(members: seq<Member>) {
    exists i :: 0 <= i < |members| && members[i].state == Joining
  }

  function AgedMember(m: Member, now: int): Member {
    if Overdue(m, now) then m.(state := Suspect) else m
  }

  function Aged(members: seq<Member>, now: int): (r: seq<Member>)
    ensures |r| == |members|
    ensures forall i :: 0 <= i < |r| ==> r[i] == AgedMember(members[i], now)
  {
    if members == [] then [] else [AgedMember(members[0], now)] + Aged(members[1..], now)
  }

  function OverdueCount(members: seq<Member>, now: int): nat {
    if members == [] then 0
    else (if Overdue(members[0], now) then 1 else 0) + OverdueCount(members[1..], now)
  }

  /** The new table and whether a snapshot of it is emitted. */
  function Change(t: Table, op: Operation): (Table, bool) {
    match op
    case Observe(peer, authentic, now) =>
      var i := IndexOf(t.members, peer.id);
      if peer.id == "" then (t, false)
      else if i == |t.members| then
        if !authentic then (t, false) else (Table(t.members + [NewMember(peer, now)], t.revision + 1), true)
      else (Table(t.members[i := SeenAgain(t.members[i], peer, now)], t.revision + 1), true)
    case UpdateCapability(node, capability) =>
      var i := IndexOf(t.members, node);
      if i == |t.members| then (t, false)
      else (Table(t.members[i := t.members[i].(capability := Some(capability))], t.revision + 1), true)
    case UpdateModels(models) => (Table(WithModels(t.members, models), t.revision + 1), true)
    case UpdateLocalRole(local, role) =>
      var i := IndexOf(t.members, local);
      if i == |t.members| || t.members[i].role == role then (t, false)
      else (Table(t.members[i := t.members[i].(role := role)], t.revision + 1), true)
    case PromoteJoining(now) =>
      if !AnyJoining(t.members) then (t, false) else (Table(Promoted(t.members, now), t.revision + 1), true)
    case LivenessTick(now) =>
      (Table(Aged(t.members, now), t.revision + OverdueCount(t.members, now)), false)
  }

  /** A service has no callback before it is first started; sightings and liveness ticks need it running. */
  datatype Service = Created | Running | Stopped

  /** What an operation does in a given state of the service. */
  function Perform(v: Service, t: Table, op: Operation): (Table, bool) {
    if (op.Observe? || op.LivenessTick?) && v != Running then (t, false)
    else
      var (u, emitted) := Change(t, op);
      (u, emitted && v != Created)
  }

  // ---------------------------------------------------------------------------------------------
  // The service
  // ---------------------------------------------------------------------------------------------

  class MembershipService {
    var members: seq<Member>
    var revision: nat
    var service: Service
    const localNode: NodeId
    const election: BullyElection

    constructor (localNode: NodeId, election: BullyElection)
      ensures T() == Table([], 0) && service == Created
      ensures this.localNode == localNode && this.election == election
    {
      members := [];
      revision := 0;
      service := Created;
      this.localNode := localNode;
      this.election := election;
    }

    ghost function T(): Table
      reads this
    {
      Table(members, revision)
    }

    /** The effect of an operation on table and election together. */
    twostate predicate Applied(op: Operation, grant: Grant)
      reads this, election
    {
      var (t, emitted) := Perform(old(service), old(T()), op);
      && T() == t && service == old(service)
      && election.S() == (if emitted then NextState(old(election.S()), t.members, t.revision, grant) else old(election.S()))
      && election.R() == (if emitted then NextRecord(old(election.S()), old(election.R()), t.members, t.revision, grant)
                          else old(election.R()))
    }

    method Start() returns (ok: bool)
      modifies this`service
      ensures ok <==> old(service) != Running
      ensures service == Running
    {
      if service == Running {
        return false;
      }
      service := Running;
      return true;
    }

    method Stop()
      modifies this`service
      ensures service == if old(service) == Created then Created else Stopped
    {
      if service != Created {
        service := Stopped;
      }
    }

    method FindMember(id: NodeId) returns (i: nat)
      ensures i == IndexOf(members, id)
    {
      i := 0;
      while i < |members| && members[i].peer.id != id
        invariant i <= |members|
        invariant forall j :: 0 <= j < i ==> members[j].peer.id != id
      {
        i := i + 1;
      }
    }

    /** Hands the snapshot to the election, if there is a callback; a rollback error there is swallowed. */
    method EmitSnapshot(grant: Grant)
      modifies election
      ensures election.S() == if service == Created then old(election.S())
                              else NextState(old(election.S()), members, revision, grant)
      ensures election.R() == if service == Created then old(election.R())
                              else NextRecord(old(election.S()), old(election.R()), members, revision, grant)
    {
      if service != Created {
        var reply := election.UpdateMembership(members, revision, grant);
      }
    }

    /** Refused unless the service is running. */
    method ObservePeer(peer: Peer, authentic: bool, now: int, grant: Grant) returns (ok: bool)
      modifies this, election
      ensures ok <==> old(service) == Running
      ensures Applied(Observe(peer, authentic, now), grant)
    {
      if service != Running {
        return false;
      }
      ok := true;
      if peer.id == "" {
        return;
      }
      var i := FindMember(peer.id);
      if i == |members| {
        if !authentic {
          return;
        }
        members := members + [Member(peer, Joining, Leech, None, [], now)];
      } else {
        var m := members[i].(peer := peer, lastSeen := now);
        if m.state == Suspect {
          m := m.(state := Alive);
        }
        members := members[i := m];
      }
      revision := revision + 1;
      EmitSnapshot(grant);
    }

    method SetCapability(node: NodeId, capability: Capability, grant: Grant) returns (found: bool)
      modifies this, election
      ensures Applied(UpdateCapability(node, capability), grant)
      ensures found <==> exists i :: 0 <= i < |old(members)| && old(members)[i].peer.id == node
    {
      var i := FindMember(node);
      if i == |members| {
        return false;
      }
      found := true;
      members := members[i := members[i].(capability := Some(capability))];
      revision := revision + 1;
      EmitSnapshot(grant);
    }

    method SetModels(models: seq<ModelPresence>, grant: Grant)
      modifies this, election
      ensures Applied(UpdateModels(models), grant)
    {
      ghost var was := members;
      for i := 0 to |members|
        modifies this`members
        invariant |members| == |was|
        invariant forall j :: 0 <= j < i ==> members[j] == was[j].(models := models)
        invariant forall j :: i <= j < |was| ==> members[j] == was[j]
      {
        members := members[i := members[i].(models := models)];
      }
      assert members == WithModels(was, models);
      revision := revision + 1;
      EmitSnapshot(grant);
    }

    method SetLocalRole(role: NodeRole, grant: Grant)
      modifies this, election
      ensures Applied(UpdateLocalRole(localNode, role), grant)
    {
      var i := FindMember(localNode);
      if i != |members| && members[i].role != role {
        members := members[i := members[i].(role := role)];
        revision := revision + 1;
        EmitSnapshot(grant);
      }
    }

    method PromoteJoiningMembers(now: int, grant: Grant)
      modifies this, election
      ensures Applied(PromoteJoining(now), grant)
    {
      ghost var was := members;
      var changed := false;
      for i := 0 to |members|
        modifies this`members
        invariant |members| == |was|
        invariant forall j :: 0 <= j < i ==> members[j] == PromotedMember(was[j], now)
        invariant forall j :: i <= j < |was| ==> members[j] == was[j]
        invariant changed <==> exists j :: 0 <= j < i && was[j].state == Joining
      {
        if members[i].state == Joining {
          members := members[i := members[i].(state := Alive, lastSeen := now)];
          changed := true;
        }
      }
      assert members == Promoted(was, now);
      if changed {
        revision := revision + 1;
        EmitSnapshot(grant);
      }
    }

    /** One round of the liveness loop: no snapshot is emitted. */
    method Liveness(now: int)
      modifies this
      ensures T() == Perform(old(service), old(T()), LivenessTick(now)).0 && service == old(service)
    {
      if service != Running {
        return;
      }
      ghost var was := members;
      ghost var before := revision;
      for i := 0 to |members|
        invariant |members| == |was| && service == Running
        invariant forall j :: 0 <= j < i ==> members[j] == AgedMember(was[j], now)
        invariant forall j :: i <= j < |was| ==> members[j] == was[j]
        invariant revision + OverdueCount(was[i..], now) == before + OverdueCount(was, now)
      {
        assert was[i..][1..] == was[i + 1..];
        if members[i].state == Alive {
          var age := WholeSeconds(now - members[i].lastSeen);
          if age > 10 {
            members := members[i := members[i].(state := Suspect)];
            revision := revision + 1;
          }
        }
      }
      assert members == Aged(was, now);
    }
  }
}
