/** What each operation does to each field of each member, and that members hold what was last given for them. */
module MembershipLaws {
  import opened Core
  import opened Sequences
  import opened Election
  import opened Membership
  import opened ClusterRuns

  // ---------------------------------------------------------------------------------------------
  // One operation
  // ---------------------------------------------------------------------------------------------

  predicate Sighted(v: Service, op: Operation, id: NodeId) {
    op.Observe? && v == Running && op.peer.id == id && id != ""
  }

  /** Field by field, what becomes of member `a`; everything that is not named stays. */
  ghost predicate FieldsFollow(v: Service, op: Operation, a: Member, b: Member) {
    var id := a.peer.id;
    && b.peer == (if Sighted(v, op, id) then op.peer else a.peer)
    && b.role == (if op.UpdateLocalRole? && op.local == id then op.role else a.role)
    && b.capability == (if op.UpdateCapability? && op.node == id then Some(op.capability) else a.capability)
    && b.models == (if op.UpdateModels? then op.models else a.models)
    && b.lastSeen == (if Sighted(v, op, id) || (op.PromoteJoining? && a.state == Joining) then op.now else a.lastSeen)
    && b.state == (if Sighted(v, op, id) && a.state == Suspect then Alive
                   else if op.PromoteJoining? && a.state == Joining then Alive
                   else if op.LivenessTick? && v == Running && a.state == Alive && op.now - a.lastSeen >= 11 * 1000 * 1000 then Suspect
                   else a.state)
  }

  ghost predicate Unique(members: seq<Member>) {
    forall i, j :: 0 <= i < j < |members| ==> members[i].peer.id != members[j].peer.id
  }

  predicate Listed(members: seq<Member>, id: NodeId) {
    exists i :: 0 <= i < |members| && members[i].peer.id == id
  }

  /** A newcomer joins exactly on an authenticated sighting of an unknown, non-empty id by a running service. */
  predicate Joins(v: Service, t: Table, op: Operation) {
    op.Observe? && v == Running && op.authentic && op.peer.id != "" && !Listed(t.members, op.peer.id)
  }

  lemma IndexIsUnique(members: seq<Member>, id: NodeId, i: nat)
    requires Unique(members) && i < |members| && members[i].peer.id == id
    ensures IndexOf(members, id) == i
  {
  }

  lemma UnlistedIndex(members: seq<Member>, id: NodeId)
    ensures IndexOf(members, id) == |members| <==> !Listed(members, id)
  {
  }

  lemma OverdueIff(m: Member, now: int)
    ensures Overdue(m, now) <==> m.state == Alive && now - m.lastSeen >= 11 * 1000 * 1000
  {
  }

  lemma ObserveLaw(v: Service, t: Table, op: Operation, i: nat)
    requires op.Observe? && Unique(t.members) && i < |t.members|
    ensures var u := Perform(v, t, op).0;
            |u.members| >= |t.members| && FieldsFollow(v, op, t.members[i], u.members[i])
  {
    hide IndexOf, Overdue, Unique;
    OneIndex(t.members, op.peer.id, i);
  }

  lemma CapabilityLaw(v: Service, t: Table, op: Operation, i: nat)
    requires op.UpdateCapability? && Unique(t.members) && i < |t.members|
    ensures var u := Perform(v, t, op).0;
            |u.members| >= |t.members| && FieldsFollow(v, op, t.members[i], u.members[i])
  {
    hide IndexOf, Overdue, Unique;
    OneIndex(t.members, op.node, i);
  }

  lemma RoleLaw(v: Service, t: Table, op: Operation, i: nat)
    requires op.UpdateLocalRole? && Unique(t.members) && i < |t.members|
    ensures var u := Perform(v, t, op).0;
            |u.members| >= |t.members| && FieldsFollow(v, op, t.members[i], u.members[i])
  {
    hide IndexOf, Overdue, Unique;
    OneIndex(t.members, op.local, i);
  }

  lemma OtherLaw(v: Service, t: Table, op: Operation, i: nat)
    requires (op.UpdateModels? || op.PromoteJoining?) && Unique(t.members) && i < |t.members|
    ensures var u := Perform(v, t, op).0;
            |u.members| >= |t.members| && FieldsFollow(v, op, t.members[i], u.members[i])
  {
    hide IndexOf, Overdue, Unique, Promoted, WithModels;
  }

  lemma TickLaw(v: Service, t: Table, op: Operation, i: nat)
    requires op.LivenessTick? && Unique(t.members) && i < |t.members|
    ensures var u := Perform(v, t, op).0;
            |u.members| >= |t.members| && FieldsFollow(v, op, t.members[i], u.members[i])
  {
    hide IndexOf, Overdue, Unique, Aged, OverdueCount;
    OverdueIff(t.members[i], op.now);
  }

  /** Every operation leaves every other member and every other field alone. */
  lemma {:induction false} OperationLaw(v: Service, t: Table, op: Operation, i: nat)
    requires Unique(t.members) && i < |t.members|
    ensures var u := Perform(v, t, op).0;
            |u.members| >= |t.members| && FieldsFollow(v, op, t.members[i], u.members[i])
  {
    hide Perform, Unique, FieldsFollow;
    match op
    case Observe(_, _, _) => ObserveLaw(v, t, op, i);
    case UpdateCapability(_, _) => CapabilityLaw(v, t, op, i);
    case UpdateLocalRole(_, _) => RoleLaw(v, t, op, i);
    case LivenessTick(_) => TickLaw(v, t, op, i);
    case _ => OtherLaw(v, t, op, i);
  }

  lemma OneIndex(members: seq<Member>, id: NodeId, i: nat)
    requires Unique(members) && i < |members|
    ensures IndexOf(members, id) == i <==> members[i].peer.id == id
  {
  }

  lemma {:induction false} JoinLaw(v: Service, t: Table, op: Operation)
    ensures var u := Perform(v, t, op).0;
            && |u.members| == |t.members| + (if Joins(v, t, op) then 1 else 0)
            && (Joins(v, t, op) ==> u.members[|t.members|] == Member(op.peer, Joining, Leech, None, [], op.now))
  {
    if op.Observe? {
      UnlistedIndex(t.members, op.peer.id);
    }
    hide IndexOf, Listed;
  }

  function Late(now: int): Member -> int {
    (m: Member) => if m.state == Alive && now - m.lastSeen >= 11 * 1000 * 1000 then 1 else 0
  }

  /** Whether an operation other than a tick changes the table. */
  predicate Takes(v: Service, t: Table, op: Operation) {
    match op
    case Observe(peer, authentic, _) => v == Running && peer.id != "" && (Listed(t.members, peer.id) || authentic)
    case UpdateCapability(node, _) => Listed(t.members, node)
    case UpdateModels(_) => true
    case UpdateLocalRole(local, role) => exists i :: 0 <= i < |t.members| && t.members[i].peer.id == local && t.members[i].role != role
    case PromoteJoining(_) => exists i :: 0 <= i < |t.members| && t.members[i].state == Joining
    case LivenessTick(_) => false
  }

  /** An operation that takes effect raises the revision by one and emits a snapshot, if there is a callback; a tick
      raises it by one for each member it suspects and emits nothing. */
  lemma {:induction false} RevisionLaw(v: Service, t: Table, op: Operation)
    requires Unique(t.members)
    ensures var (u, emitted) := Perform(v, t, op);
            && (emitted <==> Takes(v, t, op) && v != Created)
            && u.revision == t.revision + (if op.LivenessTick? then (if v == Running then Sum(t.members, Late(op.now)) else 0)
                                           else if Takes(v, t, op) then 1 else 0)
  {
    match op
    case LivenessTick(now) => LateCount(t.members, now);
    case Observe(peer, _, _) => UnlistedIndex(t.members, peer.id);
    case UpdateCapability(node, _) => UnlistedIndex(t.members, node);
    case UpdateLocalRole(local, role) => RoleTakes(t, local, role);
    case _ =>
  }

  lemma RoleTakes(t: Table, local: NodeId, role: NodeRole)
    requires Unique(t.members)
    ensures var i := IndexOf(t.members, local);
            (i < |t.members| && t.members[i].role != role)
            <==> exists i :: 0 <= i < |t.members| && t.members[i].peer.id == local && t.members[i].role != role
  {
    forall i | 0 <= i < |t.members| && t.members[i].peer.id == local
      ensures i == IndexOf(t.members, local)
    {
      IndexIsUnique(t.members, local, i);
    }
  }

  lemma {:induction false} LateCount(members: seq<Member>, now: int)
    ensures OverdueCount(members, now) == Sum(members, Late(now))
    decreases |members|
  {
    if members != [] {
      OverdueIff(members[0], now);
      hide Overdue;
      LateCount(members[1..], now);
    }
  }

  // ---------------------------------------------------------------------------------------------
  // Runs
  // ---------------------------------------------------------------------------------------------

  /** The last profile given for an id while it was listed. */
  function GivenCapability(states: seq<Cluster>, acts: seq<Act>, n: nat, id: NodeId): Option<Capability>
    requires n < |states| <= |acts| + 1
  {
    if n == 0 || acts[n - 1] == Reboot then None
    else if acts[n - 1].Operate? && acts[n - 1].op.UpdateCapability? && acts[n - 1].op.node == id
            && Listed(states[n - 1].table.members, id) then Some(acts[n - 1].op.capability)
    else GivenCapability(states, acts, n - 1, id)
  }

  /** The last model presence given while an id was listed. */
  function GivenModels(states: seq<Cluster>, acts: seq<Act>, n: nat, id: NodeId): seq<ModelPresence>
    requires n < |states| <= |acts| + 1
  {
    if n == 0 || acts[n - 1] == Reboot then []
    else if acts[n - 1].Operate? && acts[n - 1].op.UpdateModels? && Listed(states[n - 1].table.members, id) then acts[n - 1].op.models
    else GivenModels(states, acts, n - 1, id)
  }

  /** The last role given for an id while it was listed; newcomers are leeches. */
  function GivenRole(states: seq<Cluster>, acts: seq<Act>, n: nat, id: NodeId): NodeRole
    requires n < |states| <= |acts| + 1
  {
    if n == 0 || acts[n - 1] == Reboot then Leech
    else if acts[n - 1].Operate? && acts[n - 1].op.UpdateLocalRole? && acts[n - 1].op.local == id
            && Listed(states[n - 1].table.members, id) then acts[n - 1].op.role
    else GivenRole(states, acts, n - 1, id)
  }

  /** Whether the step before state `n` counts as seeing the id: a sighting that was taken, or its promotion. */
  ghost predicate SeenBy(states: seq<Cluster>, acts: seq<Act>, n: nat, id: NodeId)
    requires 0 < n < |states| <= |acts| + 1
  {
    var c, act := states[n - 1], acts[n - 1];
    act.Operate? &&
    (|| (Sighted(c.service, act.op, id) && (Listed(c.table.members, id) || act.op.authentic))
     || (act.op.PromoteJoining? && exists i :: 0 <= i < |c.table.members| && c.table.members[i].peer.id == id && c.table.members[i].state == Joining))
  }

  ghost function LastSeen(states: seq<Cluster>, acts: seq<Act>, n: nat, id: NodeId): int
    requires n < |states| <= |acts| + 1
  {
    if n == 0 then 0
    else if SeenBy(states, acts, n, id) then acts[n - 1].op.now
    else LastSeen(states, acts, n - 1, id)
  }

  /** An id that is not listed has been given nothing since the last reboot. */
  lemma {:induction false} UnlistedHasNothing(states: seq<Cluster>, acts: seq<Act>, n: nat, id: NodeId)
    requires IsRun(states, acts) && n < |states| && !Listed(states[n].table.members, id)
    ensures GivenCapability(states, acts, n, id) == None && GivenModels(states, acts, n, id) == [] && GivenRole(states, acts, n, id) == Leech
    decreases n
  {
    if n > 0 && acts[n - 1] != Reboot {
      assert FollowsBy(states, acts, n);
      if Listed(states[n - 1].table.members, id) {
        StaysListed(states[n - 1], acts[n - 1], id);
      }
      hide IsRun, Next, Listed;
      UnlistedHasNothing(states, acts, n - 1, id);
    }
  }

  lemma StaysListed(c: Cluster, act: Act, id: NodeId)
    requires act != Reboot && Listed(c.table.members, id)
    ensures Listed(Next(c, act).table.members, id)
  {
    if act.Operate? {
      ChangeAllowsMoves(c.service, c.table, act.op);
      hide Perform, NextState, NextRecord;
      var i :| 0 <= i < |c.table.members| && c.table.members[i].peer.id == id;
      assert Next(c, act).table.members[i].peer.id == id;
    }
  }

  ghost predicate HoldsGiven(states: seq<Cluster>, acts: seq<Act>, n: nat, m: Member)
    requires n < |states| <= |acts| + 1
  {
    var id := m.peer.id;
    && m.capability == GivenCapability(states, acts, n, id) && m.models == GivenModels(states, acts, n, id)
    && m.role == GivenRole(states, acts, n, id) && m.lastSeen == LastSeen(states, acts, n, id)
  }

  /** In every state of every run every member holds the profile, the models and the role last given for it since
      it joined, and the time it was last seen. */
  lemma {:induction false} MembersHoldWhatWasGiven(states: seq<Cluster>, acts: seq<Act>, n: nat, k: nat)
    requires IsRun(states, acts) && n < |states| && k < |states[n].table.members|
    ensures HoldsGiven(states, acts, n, states[n].table.members[k])
    decreases n
  {
    if n > 0 {
      assert FollowsBy(states, acts, n);
      var c, act := states[n - 1], acts[n - 1];
      if act.Operate? {
        TableStaysGood(states, acts, n - 1);
        assert Unique(c.table.members);
        assert states[n].table == Perform(c.service, c.table, act.op).0;
        JoinLaw(c.service, c.table, act.op);
        hide IsRun, Next, Perform, Unique, GoodTable;
        if k < |c.table.members| {
          MembersHoldWhatWasGiven(states, acts, n - 1, k);
          OperationLaw(c.service, c.table, act.op, k);
          OldMemberHolds(states, acts, n, k);
        } else {
          assert Joins(c.service, c.table, act.op);
          UnlistedHasNothing(states, acts, n - 1, act.op.peer.id);
        }
      } else if act != Reboot {
        assert states[n].table == c.table;
        hide IsRun, Next;
        MembersHoldWhatWasGiven(states, acts, n - 1, k);
      }
    }
  }

  lemma {:induction false} OldMemberHolds(states: seq<Cluster>, acts: seq<Act>, n: nat, k: nat)
    requires 0 < n < |states| <= |acts| + 1 && acts[n - 1].Operate?
    requires k < |states[n - 1].table.members| && k < |states[n].table.members|
    requires Unique(states[n - 1].table.members)
    requires HoldsGiven(states, acts, n - 1, states[n - 1].table.members[k])
    requires FieldsFollow(states[n - 1].service, acts[n - 1].op, states[n - 1].table.members[k], states[n].table.members[k])
    ensures HoldsGiven(states, acts, n, states[n].table.members[k])
  {
    var members := states[n - 1].table.members;
    assert Listed(members, members[k].peer.id);
    forall i | 0 <= i < |members| && members[i].peer.id == members[k].peer.id
      ensures i == k
    {
    }
    hide Unique, Listed;
  }

  // ---------------------------------------------------------------------------------------------
  // Stopped parts
  // ---------------------------------------------------------------------------------------------

  /** What may become of a member while nobody is seen: promotion and nothing else. */
  ghost predicate AtMostPromoted(a: Member, b: Member) {
    a.peer == b.peer && (a.state == Joining || (b.state == a.state && b.lastSeen == a.lastSeen))
  }

  /** Until it is started again, a stopped service takes up nobody, and no member becomes suspect, comes back or
      counts as seen. */
  lemma {:induction false} StoppedServiceSeesNobody(states: seq<Cluster>, acts: seq<Act>, i: nat, j: nat)
    requires IsRun(states, acts)
    requires i < j < |states| && acts[i] == StopService && NoReboot(acts, i, j)
    requires forall k :: i < k < j ==> acts[k] != StartService
    ensures states[j].service != Running
    ensures |states[j].table.members| == |states[i].table.members|
    ensures forall m :: 0 <= m < |states[i].table.members| ==>
              AtMostPromoted(states[i].table.members[m], states[j].table.members[m])
    decreases j
  {
    assert FollowsBy(states, acts, j);
    if j > i + 1 {
      StoppedServiceSeesNobody(states, acts, i, j - 1);
      var c, act := states[j - 1], acts[j - 1];
      if act.Operate? {
        TableStaysGood(states, acts, j - 1);
        assert Unique(c.table.members);
        assert states[j].table == Perform(c.service, c.table, act.op).0;
        JoinLaw(c.service, c.table, act.op);
        hide IsRun, Next, Perform, Unique, GoodTable;
        forall m | 0 <= m < |c.table.members|
          ensures m < |states[j].table.members| && AtMostPromoted(states[i].table.members[m], states[j].table.members[m])
        {
          OperationLaw(c.service, c.table, act.op, m);
          assert AtMostPromoted(states[i].table.members[m], c.table.members[m]);
        }
      }
    }
  }

  /** Until it is started again, a stopped election stores and announces nothing. */
  lemma {:induction false} StoppedElectionIsSilent(states: seq<Cluster>, acts: seq<Act>, i: nat, j: nat)
    requires IsRun(states, acts)
    requires i < j < |states| && acts[i] == StopElection
    requires forall k :: i < k < j ==> !acts[k].StartElection?
    ensures !states[j].election.running && states[j].record == states[i].record
    decreases j
  {
    assert FollowsBy(states, acts, j);
    hide Perform;
    if j > i + 1 {
      StoppedElectionIsSilent(states, acts, i, j - 1);
    }
  }
}
