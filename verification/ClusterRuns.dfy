/** Runs of the cluster: membership and election together, over every sequence of operations, liveness
    ticks, starts and stops, new elections and whole restarts of the runtime. */
module ClusterRuns {
  import opened Core
  import opened Election
  import opened Membership

  /** `synced` says that the running election has accepted a snapshot since it was started. */
  datatype Cluster = Cluster(
    table: Table,
    service: Service,
    election: State,
    record: Record,
    synced: bool,
    clock: int,
    lastTick: int,
    authenticated: set<NodeId>)

  datatype Act =
    | Operate(op: Operation, grant: Grant)
    | StartService
    | StopService
    | NewElection
    | StartElection(loaded: Option<nat>)
    | StopElection
    | Reboot

  function Initial(now: int): Cluster {
    Cluster(Table([], 0), Created, FRESH_STATE, Record([], []), false, now, now, {})
  }

  function TimeOf(op: Operation, clock: int): int {
    match op
    case Observe(_, _, now) => now
    case PromoteJoining(now) => now
    case LivenessTick(now) => now
    case _ => clock
  }

  function Operated(c: Cluster, op: Operation, grant: Grant): Cluster {
    var (t, emitted) := Perform(c.service, c.table, op);
    c.(table := t,
       election := if emitted then NextState(c.election, t.members, t.revision, grant) else c.election,
       record := if emitted then NextRecord(c.election, c.record, t.members, t.revision, grant) else c.record,
       synced := c.synced || (emitted && ReplyTo(c.election, t.revision) == Accepted),
       clock := TimeOf(op, c.clock),
       lastTick := if op.LivenessTick? && c.service == Running then op.now else c.lastTick,
       authenticated := c.authenticated + if op.Observe? && op.authentic && c.service == Running then {op.peer.id} else {})
  }

  /** A reboot renews the membership service and the election; the term store and what was announced stay. */
  function Next(c: Cluster, act: Act): Cluster {
    match act
    case Operate(op, grant) => Operated(c, op, grant)
    case StartService => c.(service := Running)
    case StopService => c.(service := if c.service == Created then Created else Stopped)
    case NewElection => c.(election := FRESH_STATE, synced := false)
    case StartElection(loaded) =>
      if c.election.running then c else c.(election := Started(c.election, loaded), synced := false)
    case StopElection => c.(election := c.election.(running := false), synced := false)
    case Reboot =>
      c.(table := Table([], 0), service := Created, election := FRESH_STATE, synced := false, authenticated := {})
  }

  predicate ClockAdvances(c: Cluster, act: Act) {
    act.Operate? ==> TimeOf(act.op, c.clock) >= c.clock
  }

  /** States and the actions that lead from each to the next. */
  ghost predicate IsPath(states: seq<Cluster>, acts: seq<Act>) {
    && |states| == |acts| + 1
    && forall i :: 0 < i < |states| ==> FollowsBy(states, acts, i)
  }

  /** A path from the beginning. */
  ghost predicate IsRun(states: seq<Cluster>, acts: seq<Act>) {
    IsPath(states, acts) && states[0] == Initial(states[0].clock)
  }

  ghost predicate FollowsBy(states: seq<Cluster>, acts: seq<Act>, i: nat)
    requires 0 < i < |states| <= |acts| + 1
  {
    states[i] == Next(states[i - 1], acts[i - 1])
  }

  ghost predicate ClockIsMonotone(states: seq<Cluster>, acts: seq<Act>)
    requires |states| == |acts| + 1
  {
    forall i :: 0 <= i < |acts| ==> ClockAdvances(states[i], acts[i])
  }

  // ---------------------------------------------------------------------------------------------
  // The revision is a faithful version
  // ---------------------------------------------------------------------------------------------

  lemma {:induction false} NothingOverdue(members: seq<Member>, now: int)
    requires OverdueCount(members, now) == 0
    ensures Aged(members, now) == members
    decreases |members|
  {
    if members != [] {
      NothingOverdue(members[1..], now);
    }
  }

  /** Every operation leaves the table alone or raises the revision. */
  lemma ChangeRaisesRevision(v: Service, t: Table, op: Operation)
    ensures var u := Perform(v, t, op).0; u == t || u.revision > t.revision
  {
    if op.LivenessTick? && OverdueCount(t.members, op.now) == 0 {
      NothingOverdue(t.members, op.now);
    }
  }

  /** The service lives from state `i` to state `j`. */
  ghost predicate NoReboot(acts: seq<Act>, i: nat, j: nat) {
    forall k :: i <= k < j && k < |acts| ==> acts[k] != Reboot
  }

  /** In the life of a service revisions never fall, and equal revisions mean equal tables. */
  lemma {:induction false} RevisionIsVersion(states: seq<Cluster>, acts: seq<Act>, i: nat, j: nat)
    requires IsRun(states, acts)
    requires i <= j < |states| && NoReboot(acts, i, j)
    ensures states[i].table.revision <= states[j].table.revision
    ensures states[i].table.revision == states[j].table.revision ==> states[i].table == states[j].table
    decreases j
  {
    hide Perform, NextState, NextRecord;
    if i < j {
      RevisionIsVersion(states, acts, i, j - 1);
      assert FollowsBy(states, acts, j);
      if acts[j - 1].Operate? {
        ChangeRaisesRevision(states[j - 1].service, states[j - 1].table, acts[j - 1].op);
      }
    }
  }

  // ---------------------------------------------------------------------------------------------
  // Members
  // ---------------------------------------------------------------------------------------------

  ghost predicate GoodTable(t: Table, authenticated: set<NodeId>) {
    && (forall i, j :: 0 <= i < j < |t.members| ==> t.members[i].peer.id != t.members[j].peer.id)
    && (forall i :: 0 <= i < |t.members| ==> t.members[i].peer.id != "" && t.members[i].peer.id in authenticated)
    && (forall i :: 0 <= i < |t.members| ==> t.members[i].state in {Joining, Alive, Suspect})
  }

  predicate AllowedMove(from: MemberState, to: MemberState) {
    from == to || (from == Joining && to == Alive) || (from == Alive && to == Suspect) || (from == Suspect && to == Alive)
  }

  /** Members keep their place and identity, states move only along allowed edges, newcomers are joining. */
  ghost predicate AllowedMoves(before: seq<Member>, after: seq<Member>) {
    && |before| <= |after|
    && (forall i :: 0 <= i < |before| ==>
          after[i].peer.id == before[i].peer.id && AllowedMove(before[i].state, after[i].state))
    && (forall i :: |before| <= i < |after| ==> after[i].state == Joining)
  }

  lemma ChangeAllowsMoves(v: Service, t: Table, op: Operation)
    ensures AllowedMoves(t.members, Perform(v, t, op).0.members)
  {
    hide Aged, Promoted, WithModels, OverdueCount;
  }

  lemma ChangeKeepsGoodTable(v: Service, t: Table, op: Operation, authenticated: set<NodeId>)
    requires GoodTable(t, authenticated)
    ensures GoodTable(Perform(v, t, op).0,
                      authenticated + if op.Observe? && op.authentic && v == Running then {op.peer.id} else {})
  {
    ChangeAllowsMoves(v, t, op);
    var u := Perform(v, t, op).0;
    if op.Observe? && |u.members| > |t.members| {
      assert v == Running && op.authentic && op.peer.id != "";
      assert u.members == t.members + [NewMember(op.peer, op.now)];
      assert forall i :: 0 <= i < |t.members| ==> t.members[i].peer.id != op.peer.id;
    } else {
      assert |u.members| == |t.members|;
      hide Perform;
      MovesKeepGood(t, u, authenticated);
    }
  }

  lemma MovesKeepGood(t: Table, u: Table, authenticated: set<NodeId>)
    requires GoodTable(t, authenticated)
    requires AllowedMoves(t.members, u.members) && |u.members| == |t.members|
    ensures forall more :: GoodTable(u, authenticated + more)
  {
  }

  /** In every state of every run: identifiers are unique, non-empty and were authenticated, and no member
      is ever in any other state than joining, alive or suspect. */
  lemma {:induction false} TableStaysGood(states: seq<Cluster>, acts: seq<Act>, n: nat)
    requires IsRun(states, acts)
    requires n < |states|
    ensures GoodTable(states[n].table, states[n].authenticated)
    decreases n
  {
    hide Perform, NextState, NextRecord;
    if n > 0 {
      TableStaysGood(states, acts, n - 1);
      assert FollowsBy(states, acts, n);
      if acts[n - 1].Operate? {
        ChangeKeepsGoodTable(states[n - 1].service, states[n - 1].table, acts[n - 1].op, states[n - 1].authenticated);
      }
    }
  }

  /** In the life of a service members keep their place and identity. */
  lemma {:induction false} MembersKeepPlace(states: seq<Cluster>, acts: seq<Act>, i: nat, j: nat, k: nat)
    requires IsRun(states, acts)
    requires i <= j < |states| && NoReboot(acts, i, j)
    requires k < |states[i].table.members|
    ensures k < |states[j].table.members|
    ensures states[j].table.members[k].peer.id == states[i].table.members[k].peer.id
    decreases j
  {
    hide Perform, NextState, NextRecord;
    if i < j {
      MembersKeepPlace(states, acts, i, j - 1, k);
      assert FollowsBy(states, acts, j);
      if acts[j - 1].Operate? {
        ChangeAllowsMoves(states[j - 1].service, states[j - 1].table, acts[j - 1].op);
      }
    }
  }

  // ---------------------------------------------------------------------------------------------
  // Alive means recently seen
  // ---------------------------------------------------------------------------------------------

  /** Counted from the last liveness tick, every alive member was seen less than eleven seconds before. */
  ghost predicate AliveIsRecent(members: seq<Member>, lastTick: int) {
    forall i :: 0 <= i < |members| && members[i].state == Alive ==> lastTick - members[i].lastSeen < 11 * SECOND
  }

  lemma NotOverdueIsRecent(m: Member, now: int)
    requires m.state == Alive && !Overdue(m, now)
    ensures now - m.lastSeen < 11 * SECOND
  {
  }

  lemma ChangeKeepsRecent(v: Service, t: Table, op: Operation, clock: int, lastTick: int)
    requires AliveIsRecent(t.members, lastTick)
    requires lastTick <= clock <= TimeOf(op, clock)
    ensures AliveIsRecent(Perform(v, t, op).0.members, if op.LivenessTick? && v == Running then op.now else lastTick)
  {
    if op.LivenessTick? && v == Running {
      var aged := Aged(t.members, op.now);
      forall i | 0 <= i < |aged| && aged[i].state == Alive
        ensures op.now - aged[i].lastSeen < 11 * SECOND
      {
        NotOverdueIsRecent(t.members[i], op.now);
      }
    }
  }

  lemma {:induction false} RecentSinceTick(states: seq<Cluster>, acts: seq<Act>, n: nat)
    requires IsRun(states, acts) && ClockIsMonotone(states, acts)
    requires n < |states|
    ensures AliveIsRecent(states[n].table.members, states[n].lastTick)
    ensures states[n].lastTick <= states[n].clock
    decreases n
  {
    hide Perform, NextState, NextRecord;
    if n > 0 {
      RecentSinceTick(states, acts, n - 1);
      assert FollowsBy(states, acts, n);
      assert ClockAdvances(states[n - 1], acts[n - 1]);
      if acts[n - 1].Operate? {
        ChangeKeepsRecent(states[n - 1].service, states[n - 1].table, acts[n - 1].op, states[n - 1].clock, states[n - 1].lastTick);
      }
    }
  }

  /** With a clock that never goes back, at any moment at most `gap` after the last liveness tick every
      alive member was last seen less than eleven seconds plus the gap ago. */
  lemma {:induction false} AliveWasSeenRecently(states: seq<Cluster>, acts: seq<Act>, n: nat, now: int, gap: int, k: nat)
    requires IsRun(states, acts) && ClockIsMonotone(states, acts)
    requires n < |states|
    requires now - states[n].lastTick <= gap
    requires k < |states[n].table.members| && states[n].table.members[k].state == Alive
    ensures now - states[n].table.members[k].lastSeen < 11 * SECOND + gap
  {
    RecentSinceTick(states, acts, n);
  }

  // ---------------------------------------------------------------------------------------------
  // The leader and the table
  // ---------------------------------------------------------------------------------------------

  /** The leader's standing: while synced no alive member outranks it, and no leader means nobody alive.  A
      service that was never started has seen nobody. */
  ghost predicate LeaderStands(c: Cluster) {
    && (c.service == Created ==> c.table.members == [])
    && c.election.lastRevision <= c.table.revision
    && (c.synced ==> c.election.running)
    && (c.synced && c.election.leader.None? ==> NobodyAlive(c.table.members))
    && (c.synced && c.election.leader.Some? ==> NoneAbove(c.table.members, c.election.leader.value))
  }

  lemma AcceptedLeaderStands(s: State, t: Table, grant: Grant)
    requires s.running && s.lastRevision <= t.revision
    ensures var n := NextState(s, t.members, t.revision, grant);
            && n.running && n.lastRevision == t.revision
            && n.leader == Highest(t.members)
            && (n.leader.None? ==> NobodyAlive(t.members))
            && (n.leader.Some? ==> NoneAbove(t.members, n.leader.value) && IsAlive(t.members, n.leader.value))
  {
    HighestIsHighest(t.members);
  }

  /** Operations that emit nothing only take members out of the alive set. */
  lemma SilentChangeKeepsStanding(v: Service, t: Table, op: Operation, leader: NodeId)
    requires !Perform(v, t, op).1
    requires v == Created ==> t.members == []
    ensures v == Created ==> Perform(v, t, op).0.members == []
    ensures NobodyAlive(t.members) ==> NobodyAlive(Perform(v, t, op).0.members)
    ensures NoneAbove(t.members, leader) ==> NoneAbove(Perform(v, t, op).0.members, leader)
  {
  }

  lemma NextKeepsStanding(c: Cluster, act: Act)
    requires LeaderStands(c)
    ensures LeaderStands(Next(c, act))
  {
    if act.Operate? {
      var (t, emitted) := Perform(c.service, c.table, act.op);
      ChangeRaisesRevision(c.service, c.table, act.op);
      if !emitted {
        hide NextState, NextRecord, Perform;
        SilentChangeKeepsStanding(c.service, c.table, act.op, if c.election.leader.Some? then c.election.leader.value else "");
      } else if c.election.running {
        assert c.service != Created;
        hide NextState, NextRecord, Perform;
        AcceptedLeaderStands(c.election, t, act.grant);
      }
    }
  }

  lemma {:induction false} LeaderAlwaysStands(states: seq<Cluster>, acts: seq<Act>, n: nat)
    requires IsRun(states, acts)
    requires n < |states|
    ensures LeaderStands(states[n])
    decreases n
  {
    if n > 0 {
      LeaderAlwaysStands(states, acts, n - 1);
      assert FollowsBy(states, acts, n);
      NextKeepsStanding(states[n - 1], acts[n - 1]);
    }
  }

  /** Composition: no snapshot of the membership service is ever refused as a revision rollback. */
  lemma {:induction false} NeverARollback(states: seq<Cluster>, acts: seq<Act>, n: nat)
    requires IsRun(states, acts)
    requires n < |acts| && acts[n].Operate?
    ensures ReplyTo(states[n].election, Perform(states[n].service, states[n].table, acts[n].op).0.revision) != RevisionRollback
  {
    LeaderAlwaysStands(states, acts, n);
    ChangeRaisesRevision(states[n].service, states[n].table, acts[n].op);
  }

  /** Composition: once the election has accepted a snapshot, then at every later point, although liveness
      ticks change the table silently, a leader that is still alive is the highest alive member. */
  lemma {:induction false} AliveLeaderIsHighest(states: seq<Cluster>, acts: seq<Act>, n: nat)
    requires IsRun(states, acts)
    requires n < |states| && states[n].synced
    ensures states[n].election.leader.None? ==> Highest(states[n].table.members).None?
    ensures states[n].election.leader.Some? && IsAlive(states[n].table.members, states[n].election.leader.value) ==>
              Highest(states[n].table.members) == states[n].election.leader
  {
    LeaderAlwaysStands(states, acts, n);
    var members := states[n].table.members;
    HighestIsHighest(members);
    if states[n].election.leader.Some? && IsAlive(members, states[n].election.leader.value) {
      var leader := states[n].election.leader.value;
      var i :| 0 <= i < |members| && members[i].state == Alive && members[i].peer.id == leader;
      var h := Highest(members).value;
      var j :| 0 <= j < |members| && members[j].state == Alive && members[j].peer.id == h;
      LessIsTotal(leader, h);
    }
  }

  // ---------------------------------------------------------------------------------------------
  // The lease
  // ---------------------------------------------------------------------------------------------

  /** The same election object keeps the same leader from state `i` to state `j`. */
  ghost predicate SameLeader(states: seq<Cluster>, acts: seq<Act>, i: nat, j: nat)
    requires |states| == |acts| + 1 && i <= j < |states|
  {
    && (forall k :: i <= k < j ==> acts[k] != NewElection && acts[k] != Reboot)
    && (forall k :: i <= k <= j ==> states[k].election.leader == states[i].election.leader)
  }

  /** As long as a leader stays, its lease is the one of its election: the snapshots that confirm it do not
      renew it. */
  lemma {:induction false} LeaseIsNotRenewed(states: seq<Cluster>, acts: seq<Act>, i: nat, j: nat)
    requires IsPath(states, acts) && i <= j < |states|
    requires SameLeader(states, acts, i, j) && states[i].election.leader.Some?
    ensures states[j].election.validUntil == states[i].election.validUntil
    ensures states[j].election.fence == states[i].election.fence
    decreases j
  {
    if i < j {
      assert FollowsBy(states, acts, j);
      LeaseIsNotRenewed(states, acts, i, j - 1);
      hide Perform, Highest, IsPath;
    }
  }

  // ---------------------------------------------------------------------------------------------
  // Election safety
  // ---------------------------------------------------------------------------------------------

  /** Among announcements that name a leader terms never fall, and a term determines leader and fence. */
  ghost predicate TermsAreUnique(announced: seq<Announcement>) {
    forall i, j :: 0 <= i < j < |announced| && announced[i].leader.Some? && announced[j].leader.Some? ==>
      && announced[i].fence.term <= announced[j].fence.term
      && (announced[i].fence.term == announced[j].fence.term ==>
            announced[i].leader == announced[j].leader && announced[i].fence == announced[j].fence)
  }

  /** Terms are unique, and each had been stored before it was announced with a leader. */
  ghost predicate SafeRecord(r: Record) {
    && TermsAreUnique(r.announced)
    && (forall i :: 0 <= i < |r.announced| && r.announced[i].leader.Some? ==>
          r.announced[i].stored <= |r.stores| && r.announced[i].fence.term in r.stores[..r.announced[i].stored])
  }

  /** Every leader announced so far carries at most this term. */
  ghost predicate TermsUpTo(r: Record, term: nat) {
    forall i :: 0 <= i < |r.announced| && r.announced[i].leader.Some? ==> r.announced[i].fence.term <= term
  }

  /** The current leader's fence is the latest named one, and was announced with this leader only. */
  ghost predicate FenceIsLatest(s: State, r: Record) {
    s.leader.Some? ==>
      && TermsUpTo(r, s.fence.term)
      && s.fence.term in r.stores
      && forall i :: 0 <= i < |r.announced| && r.announced[i].leader.Some? && r.announced[i].fence.term == s.fence.term ==>
           r.announced[i].leader == s.leader && r.announced[i].fence == s.fence
  }

  ghost predicate FenceWasAnnounced(s: State, r: Record) {
    s.leader.Some? ==> exists i :: 0 <= i < |r.announced| && r.announced[i].leader.Some? && r.announced[i].fence == s.fence
  }

  ghost predicate ElectionInvariant(s: State, r: Record) {
    && SafeRecord(r)
    && (s.running ==> TermsUpTo(r, s.term))
    && FenceIsLatest(s, r)
    && FenceWasAnnounced(s, r)
  }

  lemma AnnouncementIsSafe(s: State, r: Record)
    requires SafeRecord(r)
    requires FenceIsLatest(s, r)
    ensures var q := Record(r.stores, r.announced + [Announcement(s.leader, s.fence, |r.stores|)]);
            && SafeRecord(q) && FenceIsLatest(s, q) && FenceWasAnnounced(s, q)
            && forall term :: TermsUpTo(r, term) && (s.leader.Some? ==> s.fence.term <= term) ==> TermsUpTo(q, term)
  {
    var q := Record(r.stores, r.announced + [Announcement(s.leader, s.fence, |r.stores|)]);
    assert r.stores[..|r.stores|] == r.stores;
    assert q.announced[|r.announced|].fence == s.fence;
  }

  lemma StoringIsSafe(r: Record, term: nat)
    requires SafeRecord(r)
    ensures SafeRecord(Record(r.stores + [term], r.announced))
  {
    var q := Record(r.stores + [term], r.announced);
    forall i | 0 <= i < |r.announced| && r.announced[i].leader.Some?
      ensures r.announced[i].fence.term in q.stores[..r.announced[i].stored]
    {
      assert q.stores[..r.announced[i].stored] == r.stores[..r.announced[i].stored];
    }
  }

  lemma LeaderTermIsCurrent(s: State, r: Record)
    requires FenceWasAnnounced(s, r) && TermsUpTo(r, s.term)
    ensures s.leader.Some? ==> s.fence.term <= s.term
  {
  }

  lemma {:induction false} UpdateKeepsInvariant(s: State, r: Record, members: seq<Member>, revision: nat, grant: Grant)
    requires ElectionInvariant(s, r)
    ensures ElectionInvariant(NextState(s, members, revision, grant), NextRecord(s, r, members, revision, grant))
  {
    if s.running && revision >= s.lastRevision {
      var n := NextState(s, members, revision, grant);
      var stored := if n.term == s.term then r else Record(r.stores + [n.term], r.announced);
      hide Highest, SafeRecord;
      LeaderTermIsCurrent(s, r);
      StoringIsSafe(r, n.term);
      assert FenceIsLatest(n, stored);
      assert TermsUpTo(stored, n.term) && (n.leader.Some? ==> n.fence.term <= n.term);
      assert NextRecord(s, r, members, revision, grant)
          == Record(stored.stores, stored.announced + [Announcement(n.leader, n.fence, |stored.stores|)]);
      assert n.running;
      hide NextState, NextRecord, FenceIsLatest, FenceWasAnnounced, TermsUpTo;
      AnnouncementIsSafe(n, stored);
    }
  }

  /** What a starting election takes over is at least every term that was announced with a leader. */
  ghost predicate CoveringAnswer(c: Cluster, act: Act) {
    act.StartElection? && !c.election.running ==> TermsUpTo(c.record, Started(c.election, act.loaded).term)
  }

  ghost predicate AnswersCover(states: seq<Cluster>, acts: seq<Act>)
    requires |states| == |acts| + 1
  {
    forall i :: 0 <= i < |acts| ==> CoveringAnswer(states[i], acts[i])
  }

  lemma NextKeepsElectionInvariant(c: Cluster, act: Act)
    requires ElectionInvariant(c.election, c.record)
    requires CoveringAnswer(c, act)
    ensures ElectionInvariant(Next(c, act).election, Next(c, act).record)
  {
    if act.Operate? {
      var (t, emitted) := Perform(c.service, c.table, act.op);
      hide Perform, ElectionInvariant;
      UpdateKeepsInvariant(c.election, c.record, t.members, t.revision, act.grant);
    }
  }

  lemma {:induction false} PathKeepsElectionInvariant(states: seq<Cluster>, acts: seq<Act>, n: nat)
    requires IsPath(states, acts) && AnswersCover(states, acts)
    requires ElectionInvariant(states[0].election, states[0].record)
    requires n < |states|
    ensures ElectionInvariant(states[n].election, states[n].record)
    decreases n
  {
    if n > 0 {
      PathKeepsElectionInvariant(states, acts, n - 1);
      assert FollowsBy(states, acts, n);
      assert CoveringAnswer(states[n - 1], acts[n - 1]);
      hide Next, ElectionInvariant, CoveringAnswer;
      NextKeepsElectionInvariant(states[n - 1], acts[n - 1]);
    }
  }

  /** Election safety over whole runs, with restarts of the election and of the whole runtime, whenever the
      store's answers cover what was announced. */
  lemma {:induction false} ElectionIsSafe(states: seq<Cluster>, acts: seq<Act>, n: nat)
    requires IsRun(states, acts) && AnswersCover(states, acts)
    requires n < |states|
    ensures SafeRecord(states[n].record)
    ensures ElectionInvariant(states[n].election, states[n].record)
  {
    hide IsPath, AnswersCover;
    PathKeepsElectionInvariant(states, acts, n);
  }

  // ---------------------------------------------------------------------------------------------
  // Stores that keep what they are given
  // ---------------------------------------------------------------------------------------------

  function LastStored(r: Record): nat {
    if r.stores == [] then 0 else r.stores[|r.stores| - 1]
  }

  predicate FaithfulStore(c: Cluster, act: Act) {
    act.StartElection? ==> act.loaded == Some(LastStored(c.record))
  }

  ghost predicate StoreIsFaithful(states: seq<Cluster>, acts: seq<Act>)
    requires |states| == |acts| + 1
  {
    forall i :: 0 <= i < |acts| ==> FaithfulStore(states[i], acts[i])
  }

  ghost predicate StoreIsAhead(s: State, r: Record) {
    && TermsUpTo(r, LastStored(r))
    && (s.running ==> s.term == LastStored(r))
    && (s.leader.Some? ==> s.fence.term <= LastStored(r))
  }

  lemma NextKeepsStoreAhead(c: Cluster, act: Act)
    requires StoreIsAhead(c.election, c.record) && FaithfulStore(c, act)
    ensures StoreIsAhead(Next(c, act).election, Next(c, act).record)
  {
    hide Perform, Highest;
  }

  lemma {:induction false} RunKeepsStoreAhead(states: seq<Cluster>, acts: seq<Act>, n: nat)
    requires IsRun(states, acts) && StoreIsFaithful(states, acts)
    requires n < |states|
    ensures StoreIsAhead(states[n].election, states[n].record)
    decreases n
  {
    if n > 0 {
      RunKeepsStoreAhead(states, acts, n - 1);
      assert FollowsBy(states, acts, n);
      assert FaithfulStore(states[n - 1], acts[n - 1]);
      hide Next, StoreIsAhead, FaithfulStore;
      NextKeepsStoreAhead(states[n - 1], acts[n - 1]);
    }
  }

  /** A store that keeps what it is given always covers, so `ElectionIsSafe` holds of it. */
  lemma {:induction false} FaithfulStoreCovers(states: seq<Cluster>, acts: seq<Act>)
    requires IsRun(states, acts) && StoreIsFaithful(states, acts)
    ensures AnswersCover(states, acts)
  {
    forall i | 0 <= i < |acts|
      ensures CoveringAnswer(states[i], acts[i])
    {
      RunKeepsStoreAhead(states, acts, i);
      assert FaithfulStore(states[i], acts[i]);
    }
  }

  // ---------------------------------------------------------------------------------------------
  // Restarts, exactly
  // ---------------------------------------------------------------------------------------------

  /** Whatever happens next, as long as later answers cover, the record stays safe. */
  ghost predicate SafeFrom(c: Cluster) {
    forall states: seq<Cluster>, acts :: IsPath(states, acts) && states[0] == c && AnswersCover(states, acts) ==>
      SafeRecord(states[|acts|].record)
  }

  /** In every reachable state, an election may be started on an answer of the store without ever reusing a
      term exactly when the answer is at least every term that was announced with a leader. */
  lemma {:induction false} RestartIsSafeIff(states: seq<Cluster>, acts: seq<Act>, n: nat, loaded: Option<nat>)
    requires IsRun(states, acts) && AnswersCover(states, acts)
    requires n < |states| && !states[n].election.running
    ensures SafeFrom(Next(states[n], StartElection(loaded)))
            <==> TermsUpTo(states[n].record, Started(states[n].election, loaded).term)
  {
    var c := states[n];
    var d := Next(c, StartElection(loaded));
    ElectionIsSafe(states, acts, n);
    LeaderAlwaysStands(states, acts, n);
    TableStaysGood(states, acts, n);
    hide IsPath, AnswersCover, SafeRecord;
    if TermsUpTo(c.record, d.election.term) {
      NextKeepsElectionInvariant(c, StartElection(loaded));
      CoveredIsSafe(d);
    } else {
      var i :| 0 <= i < |c.record.announced| && c.record.announced[i].leader.Some?
               && c.record.announced[i].fence.term > d.election.term;
      NextKeepsStanding(c, StartElection(loaded));
      var path, bad := ReusesTerm(d, i);
    }
  }

  lemma CoveredIsSafe(d: Cluster)
    requires ElectionInvariant(d.election, d.record)
    ensures SafeFrom(d)
  {
    forall states: seq<Cluster>, acts | IsPath(states, acts) && states[0] == d && AnswersCover(states, acts)
      ensures SafeRecord(states[|acts|].record)
    {
      PathKeepsElectionInvariant(states, acts, |acts|);
    }
  }

  lemma {:induction false} UnsafeStays(c: Cluster, act: Act)
    requires !TermsAreUnique(c.record.announced)
    ensures !TermsAreUnique(Next(c, act).record.announced)
  {
    hide Perform, NextState;
    var announced := c.record.announced;
    var longer := Next(c, act).record.announced;
    assert announced <= longer;
    PrefixIsUnique(announced, longer);
  }

  lemma PrefixIsUnique(announced: seq<Announcement>, longer: seq<Announcement>)
    requires announced <= longer
    ensures TermsAreUnique(longer) ==> TermsAreUnique(announced)
  {
    assert forall i :: 0 <= i < |announced| ==> longer[i] == announced[i];
  }

  /** The first leader named after a start below an announced term repeats or undercuts that term. */
  lemma FirstNameIsUnsafe(s: State, r: Record, members: seq<Member>, revision: nat, grant: Grant, i: nat)
    requires s.running && s.leader.None? && s.lastRevision <= revision
    requires !NobodyAlive(members)
    requires i < |r.announced| && r.announced[i].leader.Some?
    requires s.term < r.announced[i].fence.term && r.announced[i].fence.token != grant.token
    ensures !TermsAreUnique(NextRecord(s, r, members, revision, grant).announced)
  {
    HighestIsHighest(members);
    hide Highest;
    var longer := NextRecord(s, r, members, revision, grant).announced;
    assert longer[i] == r.announced[i];
    assert longer[|r.announced|].fence == LeaderFence(s.term + 1, grant.token, revision);
  }

  function LatestSeen(members: seq<Member>): (t: int)
    ensures forall i :: 0 <= i < |members| ==> members[i].lastSeen <= t
  {
    if members == [] then 0
    else
      var rest := LatestSeen(members[1..]);
      assert forall i :: 1 <= i < |members| ==> members[i] == members[1..][i - 1];
      if rest < members[0].lastSeen then members[0].lastSeen else rest
  }

  /** A tick long after the last sighting leaves nobody alive. */
  lemma TickSuspectsAll(t: Table, now: int)
    requires now >= LatestSeen(t.members) + 11 * SECOND
    ensures NobodyAlive(Perform(Running, t, LivenessTick(now)).0.members)
  {
    var aged := Aged(t.members, now);
    forall i | 0 <= i < |aged|
      ensures aged[i].state != Alive
    {
      assert t.members[i].lastSeen + 11 * SECOND <= now;
      assert t.members[i].state == Alive ==> Overdue(t.members[i], now);
    }
  }

  /** The states that some actions lead through, and the last of them. */
  function Path(c: Cluster, acts: seq<Act>): (states: seq<Cluster>)
    ensures |states| == |acts| + 1 && states[0] == c
    decreases |acts|
  {
    if acts == [] then [c] else [c] + Path(Next(c, acts[0]), acts[1..])
  }

  function End(c: Cluster, acts: seq<Act>): Cluster
    decreases |acts|
  {
    if acts == [] then c else End(Next(c, acts[0]), acts[1..])
  }

  lemma {:induction false} PathIsPath(c: Cluster, acts: seq<Act>)
    ensures IsPath(Path(c, acts), acts)
    ensures Path(c, acts)[|acts|] == End(c, acts)
    decreases |acts|
  {
    hide Next;
    if acts != [] {
      var states := Path(c, acts);
      var rest := Path(Next(c, acts[0]), acts[1..]);
      PathIsPath(Next(c, acts[0]), acts[1..]);
      forall i | 0 < i < |states|
        ensures FollowsBy(states, acts, i)
      {
        assert i > 1 ==> FollowsBy(rest, acts[1..], i - 1);
      }
    }
  }

  lemma {:induction false} EndOfConcatenation(c: Cluster, a: seq<Act>, b: seq<Act>)
    ensures End(c, a + b) == End(End(c, a), b)
    decreases |a|
  {
    hide Next;
    if a == [] {
      assert a + b == b;
    } else {
      assert (a + b)[1..] == a[1..] + b;
      EndOfConcatenation(Next(c, a[0]), a[1..], b);
    }
  }

  lemma EndOfTwo(c: Cluster, x: Act, y: Act)
    ensures End(c, [x, y]) == Next(Next(c, x), y)
  {
    hide Next;
    assert [x, y][1..] == [y];
    EndOfOne(Next(c, x), y);
  }

  lemma EndOfOne(c: Cluster, x: Act)
    ensures End(c, [x]) == Next(c, x)
  {
    hide Next;
    assert [x][1..] == [];
  }

  lemma UnansweredCover(states: seq<Cluster>, acts: seq<Act>)
    requires |states| == |acts| + 1
    requires forall i :: 0 <= i < |acts| ==> !acts[i].StartElection?
    ensures AnswersCover(states, acts)
  {
  }

  /** Nobody is alive and the election knows it. */
  ghost predicate Silent(c: Cluster) {
    && c.service == Running && c.election.running && c.election.leader.None?
    && c.election.lastRevision <= c.table.revision
    && NobodyAlive(c.table.members)
    && forall i :: 0 <= i < |c.table.members| ==> c.table.members[i].state in {Joining, Alive, Suspect}
  }

  function SilenceActs(now: int): seq<Act> {
    [StartService, Operate(LivenessTick(now), Grant("", now)), Operate(UpdateModels([]), Grant("", now))]
  }

  /** From any state with a running election: everybody falls silent, and the election is told. */
  lemma {:induction false} FallSilent(d: Cluster, now: int)
    requires d.election.running && d.election.lastRevision <= d.table.revision
    requires GoodTable(d.table, d.authenticated)
    requires now >= LatestSeen(d.table.members) + 11 * SECOND
    ensures var e := End(d, SilenceActs(now));
            && Silent(e) && e.election.term == d.election.term
            && d.record.announced <= e.record.announced
  {
    var a := SilenceActs(now);
    assert a == [a[0], a[1]] + [a[2]];
    EndOfConcatenation(d, [a[0], a[1]], [a[2]]);
    EndOfTwo(d, a[0], a[1]);
    var d2 := Next(Next(d, a[0]), a[1]);
    EndOfOne(d2, a[2]);
    ChangeAllowsMoves(Running, d.table, LivenessTick(now));
    ChangeRaisesRevision(Running, d.table, LivenessTick(now));
    TickSuspectsAll(d.table, now);
    assert d2 == Operated(d.(service := Running), LivenessTick(now), Grant("", now));
    hide End, Perform, NobodyAlive;
    assert d2.election == d.election && d2.record == d.record by {
      TickIsSilent(d.table, now);
    }
    TellElection(d2, Grant("", now));
  }

  lemma TickIsSilent(t: Table, now: int)
    ensures !Perform(Running, t, LivenessTick(now)).1
  {
  }

  lemma {:induction false} TellElection(c: Cluster, grant: Grant)
    requires c.service == Running && c.election.running && c.election.lastRevision <= c.table.revision
    requires NobodyAlive(c.table.members)
    requires forall i :: 0 <= i < |c.table.members| ==> c.table.members[i].state in {Joining, Alive, Suspect}
    ensures var e := Next(c, Operate(UpdateModels([]), grant));
            Silent(e) && e.election.term == c.election.term && c.record.announced <= e.record.announced
  {
    var e := Next(c, Operate(UpdateModels([]), grant));
    assert e.table == Table(WithModels(c.table.members, []), c.table.revision + 1);
    assert NobodyAlive(e.table.members);
    HighestIsHighest(e.table.members);
    hide Highest, NobodyAlive, WithModels;
  }

  function WakeActs(now: int, token: string): seq<Act> {
    [Operate(Observe(ALONE, true, now), Grant(token, now)), Operate(PromoteJoining(now), Grant(token, now))]
  }

  /** Then one member is seen and promoted: the first leader named reuses a term. */
  lemma {:induction false} WakeUnsafely(c: Cluster, now: int, token: string, i: nat)
    requires Silent(c)
    requires i < |c.record.announced| && c.record.announced[i].leader.Some?
    requires c.election.term < c.record.announced[i].fence.term && c.record.announced[i].fence.token != token
    ensures !TermsAreUnique(End(c, WakeActs(now, token)).record.announced)
  {
    var d := Next(c, Operate(Observe(ALONE, true, now), Grant(token, now)));
    EndOfTwo(c, Operate(Observe(ALONE, true, now), Grant(token, now)), Operate(PromoteJoining(now), Grant(token, now)));
    hide End;
    SeenIsListed(c.table, now);
    var (t, emitted) := Perform(c.service, c.table, Observe(ALONE, true, now));
    hide Perform, TermsAreUnique;
    if !NobodyAlive(t.members) {
      FirstNameIsUnsafe(c.election, c.record, t.members, t.revision, Grant(token, now), i);
      hide Next;
      UnsafeStays(d, Operate(PromoteJoining(now), Grant(token, now)));
    } else {
      HighestIsHighest(t.members);
      hide Highest;
      assert d.election.running && d.election.leader.None? && d.election.lastRevision == t.revision == d.table.revision;
      assert d.election.term == c.election.term && d.service == Running;
      assert d.record.announced[i] == c.record.announced[i];
      PromotedIsAlive(d.table, now);
      var (u, told) := Perform(d.service, d.table, PromoteJoining(now));
      hide NextState, NextRecord;
      FirstNameIsUnsafe(d.election, d.record, u.members, u.revision, Grant(token, now), i);
    }
  }

  lemma SeenIsListed(t: Table, now: int)
    requires NobodyAlive(t.members)
    requires forall i :: 0 <= i < |t.members| ==> t.members[i].state in {Joining, Alive, Suspect}
    ensures var (u, emitted) := Perform(Running, t, Observe(ALONE, true, now));
            emitted && u.revision == t.revision + 1 && (NobodyAlive(u.members) ==> AnyJoining(u.members))
  {
    var i := IndexOf(t.members, ALONE.id);
    var u := Perform(Running, t, Observe(ALONE, true, now)).0;
    if i == |t.members| {
      assert u.members[i].state == Joining;
    } else {
      assert u.members[i].state == if t.members[i].state == Suspect then Alive else t.members[i].state;
    }
  }

  lemma PromotedIsAlive(t: Table, now: int)
    requires AnyJoining(t.members)
    ensures var (u, emitted) := Perform(Running, t, PromoteJoining(now));
            emitted && u.revision == t.revision + 1 && !NobodyAlive(u.members)
  {
    assert Perform(Running, t, PromoteJoining(now)) == (Table(Promoted(t.members, now), t.revision + 1), true);
    hide Perform, Promoted;
    var i :| 0 <= i < |t.members| && t.members[i].state == Joining;
    assert Promoted(t.members, now)[i].state == Alive;
  }

  /** After a start on an answer below an announced term, a path on which a term is reused. */
  lemma {:induction false} ReusesTerm(d: Cluster, i: nat) returns (states: seq<Cluster>, acts: seq<Act>)
    requires d.election.running && d.election.lastRevision <= d.table.revision
    requires GoodTable(d.table, d.authenticated)
    requires i < |d.record.announced| && d.record.announced[i].leader.Some?
    requires d.election.term < d.record.announced[i].fence.term
    ensures IsPath(states, acts) && states[0] == d && AnswersCover(states, acts)
    ensures !TermsAreUnique(states[|acts|].record.announced)
  {
    var now := LatestSeen(d.table.members) + 11 * SECOND;
    var token := if d.record.announced[i].fence.token == "x" then "y" else "x";
    FallSilent(d, now);
    var a, b := SilenceActs(now), WakeActs(now, token);
    acts := a + b;
    states := Path(d, acts);
    assert forall k :: 0 <= k < |acts| ==> !acts[k].StartElection?;
    hide Next, GoodTable, TermsAreUnique, Silent, Path, End, IsPath, SilenceActs, WakeActs;
    var c := End(d, a);
    assert c.record.announced[i] == d.record.announced[i];
    WakeUnsafely(c, now, token, i);
    PathIsPath(d, acts);
    EndOfConcatenation(d, a, b);
    UnansweredCover(states, acts);
  }

  // ---------------------------------------------------------------------------------------------
  // The runtime's own store
  // ---------------------------------------------------------------------------------------------

  const ALONE: Peer := Peer("a", 1, "")

  /** One life of the runtime with one member, up to the first election. */
  function LifeActs(loaded: nat, token: string): seq<Act> {
    [StartService, Operate(Observe(ALONE, true, 0), Grant("", 0)), StartElection(Some(loaded)),
     Operate(PromoteJoining(0), Grant(token, 0))]
  }

  lemma OneAlive(m: Member)
    requires m.state == Alive
    ensures Highest([m]) == Some(m.peer.id)
  {
    assert [m][..0] == [];
  }

  lemma FirstElection(c: Cluster, loaded: nat, token: string)
    requires c.table == Table([], 0) && c.service == Created && c.election == FRESH_STATE
    ensures End(c, LifeActs(loaded, token)).record.announced == c.record.announced
              + [Announcement(Some("a"), LeaderFence(loaded + 1, token, 2), |c.record.stores| + 1)]
  {
    var a := LifeActs(loaded, token);
    assert a == [a[0], a[1]] + [a[2], a[3]];
    EndOfConcatenation(c, [a[0], a[1]], [a[2], a[3]]);
    EndOfTwo(c, a[0], a[1]);
    EndOfTwo(Next(Next(c, a[0]), a[1]), a[2], a[3]);
    hide End;
    var c1 := Next(c, a[0]);
    var c2 := Next(c1, a[1]);
    assert c2.table == Table([NewMember(ALONE, 0)], 1);
    var c3 := Next(c2, a[2]);
    assert c3.table.members[0].state == Joining;
    var alive := NewMember(ALONE, 0).(state := Alive);
    assert Promoted([NewMember(ALONE, 0)], 0) == [alive];
    OneAlive(alive);
    hide Highest;
  }

  /** The runtime's own store always answers zero: a rebooted runtime announces term one a second time, with
      another fencing token. */
  lemma ForgetfulStoreReusesTerms() returns (states: seq<Cluster>, acts: seq<Act>)
    ensures IsRun(states, acts)
    ensures acts == LifeActs(0, "t1") + [Reboot] + LifeActs(0, "t2")
    ensures !SafeRecord(states[|acts|].record)
  {
    var a, b := LifeActs(0, "t1"), LifeActs(0, "t2");
    acts := a + [Reboot] + b;
    states := Path(Initial(0), acts);
    var first := End(Initial(0), a);
    var again := Next(first, Reboot);
    FirstElection(Initial(0), 0, "t1");
    assert again.table == Table([], 0) && again.service == Created && again.election == FRESH_STATE;
    assert again.record == first.record;
    hide Next, End, Path, IsPath, LifeActs;
    FirstElection(again, 0, "t2");
    PathIsPath(Initial(0), acts);
    EndOfConcatenation(Initial(0), a + [Reboot], b);
    EndOfConcatenation(Initial(0), a, [Reboot]);
    EndOfOne(first, Reboot);
    var said := End(again, b).record.announced;
    assert said[0].fence.term == said[1].fence.term && said[0].fence != said[1].fence;
  }
}
