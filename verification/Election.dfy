/** Leader election by highest alive identifier, with terms that are stored before they are announced.

    `NextState` and `NextRecord` are the meaning of one membership update; the class `BullyElection` is the code, proved
    against it.  The safety results about whole runs are in module `ClusterRuns`. */
module Election {
  import opened Core

  // ---------------------------------------------------------------------------------------------
  // Order of identifiers
  // ---------------------------------------------------------------------------------------------

  /** Lexicographic order of strings. */
  predicate Less(a: string, b: string) {
    if b == "" then false
    else if a == "" then true
    else if a[0] == b[0] then Less(a[1..], b[1..])
    else a[0] < b[0]
  }

  /** The order of the code's string comparison: at the first difference the smaller character, or the shorter
      string if there is none. */
  ghost predicate SmallerAt(a: string, b: string, i: nat) {
    i <= |a| && i < |b| && a[..i] == b[..i] && (i == |a| || a[i] < b[i])
  }

  lemma {:induction false} LessIff(a: string, b: string)
    ensures Less(a, b) <==> exists i: nat :: SmallerAt(a, b, i)
    decreases |a|
  {
    if a != "" && b != "" && a[0] == b[0] {
      LessIff(a[1..], b[1..]);
      if i: nat :| SmallerAt(a[1..], b[1..], i) {
        assert a[..i + 1] == [a[0]] + a[1..][..i] && b[..i + 1] == [b[0]] + b[1..][..i];
        assert SmallerAt(a, b, i + 1);
      }
      if i: nat :| SmallerAt(a, b, i) {
        assert i > 0;
        assert a[1..][..i - 1] == a[..i][1..] && b[1..][..i - 1] == b[..i][1..];
        assert SmallerAt(a[1..], b[1..], i - 1);
      }
    } else if b != "" {
      if a == "" || a[0] < b[0] {
        assert SmallerAt(a, b, 0);
      }
      forall i: nat
        ensures SmallerAt(a, b, i) && i > 0 ==> a != "" && a[0] == b[0]
      {
        HeadsAgree(a, b, i);
      }
    }
  }

  lemma HeadsAgree(a: string, b: string, i: nat)
    ensures SmallerAt(a, b, i) && i > 0 ==> a != "" && a[0] == b[0]
  {
    if SmallerAt(a, b, i) && i > 0 {
      assert a[0] == a[..i][0] && b[0] == b[..i][0];
    }
  }

  lemma {:induction false} LessIsTotal(a: string, b: string)
    ensures a == b || Less(a, b) || Less(b, a)
    decreases |a|
  {
    if a != "" && b != "" && a[0] == b[0] {
      LessIsTotal(a[1..], b[1..]);
      if a[1..] == b[1..] {
        assert a == [a[0]] + a[1..] && b == [b[0]] + b[1..];
      }
    }
  }

  lemma {:induction false} LessIsAsymmetric(a: string, b: string)
    requires Less(a, b)
    ensures !Less(b, a)
    decreases |a|
  {
    if a != "" && b != "" && a[0] == b[0] {
      LessIsAsymmetric(a[1..], b[1..]);
    }
  }

  lemma {:induction false} LessIsTransitive(a: string, b: string, c: string)
    requires Less(a, b) && Less(b, c)
    ensures Less(a, c)
    decreases |a|
  {
    if a != "" && a[0] == b[0] == c[0] {
      LessIsTransitive(a[1..], b[1..], c[1..]);
    }
  }

  /** No alive member outranks `id`. */
  ghost predicate NoneAbove(members: seq<Member>, id: NodeId) {
    forall i :: 0 <= i < |members| && members[i].state == Alive ==> !Less(id, members[i].peer.id)
  }

  ghost predicate IsAlive(members: seq<Member>, id: NodeId) {
    exists i :: 0 <= i < |members| && members[i].state == Alive && members[i].peer.id == id
  }

  ghost predicate NobodyAlive(members: seq<Member>) {
    forall i :: 0 <= i < |members| ==> members[i].state != Alive
  }

  /** The highest alive identifier. */
  function Highest(members: seq<Member>): (r: Option<NodeId>) {
    if members == [] then None
    else
      var before := Highest(members[..|members| - 1]);
      var m := members[|members| - 1];
      if m.state != Alive then before
      else if before.Some? && !Less(before.value, m.peer.id) then before
      else Some(m.peer.id)
  }

  lemma {:induction false} HighestIsHighest(members: seq<Member>)
    ensures Highest(members).None? <==> NobodyAlive(members)
    ensures Highest(members).Some? ==>
      IsAlive(members, Highest(members).value) && NoneAbove(members, Highest(members).value)
    decreases |members|
  {
    if members != [] {
      var n := |members| - 1;
      var rest := members[..n];
      var m := members[n];
      HighestIsHighest(rest);
      assert forall i :: 0 <= i < n ==> rest[i] == members[i];
      var before := Highest(rest);
      if m.state == Alive {
        assert IsAlive(members, m.peer.id);
        LessIsIrreflexive(m.peer.id);
        if before.Some? {
          var i :| 0 <= i < |rest| && rest[i].state == Alive && rest[i].peer.id == before.value;
          assert IsAlive(members, before.value);
          if Less(before.value, m.peer.id) {
            HigherStillNoneAbove(rest, before.value, m.peer.id);
          }
        }
      } else if before.Some? {
        var i :| 0 <= i < |rest| && rest[i].state == Alive && rest[i].peer.id == before.value;
        assert members[i].state == Alive;
      }
    }
  }

  lemma {:induction false} LessIsIrreflexive(a: string)
    ensures !Less(a, a)
  {
    if Less(a, a) {
      LessIsAsymmetric(a, a);
    }
  }

  lemma HigherStillNoneAbove(members: seq<Member>, low: NodeId, high: NodeId)
    requires NoneAbove(members, low)
    requires Less(low, high)
    ensures NoneAbove(members, high)
  {
    forall i | 0 <= i < |members| && members[i].state == Alive
      ensures !Less(high, members[i].peer.id)
    {
      if Less(high, members[i].peer.id) {
        LessIsTransitive(low, high, members[i].peer.id);
      }
    }
  }

  // ---------------------------------------------------------------------------------------------
  // Election state
  // ---------------------------------------------------------------------------------------------

  /** What an election draws from outside: a fencing token and the time. */
  datatype Grant = Grant(token: string, now: int)

  /** Thirty seconds, in microseconds. */
  const LEASE: int := 30_000_000

  datatype LeaderFence = LeaderFence(term: nat, token: string, revision: nat)

  /** One call of the leadership callback; `stored` counts the terms stored before it. */
  datatype Announcement = Announcement(leader: Option<NodeId>, fence: LeaderFence, stored: nat)

  datatype State = State(
    running: bool,
    leader: Option<NodeId>,
    fence: LeaderFence,
    term: nat,
    lastRevision: nat,
    validUntil: int)

  /** The durable term store and the callback, seen from outside: what was written and what was said. */
  datatype Record = Record(stores: seq<nat>, announced: seq<Announcement>)

  datatype Reply = NotRunning | RevisionRollback | Accepted

  const FRESH_STATE: State := State(false, None, LeaderFence(0, "", 0), 0, 0, 0)

  function NextState(s: State, members: seq<Member>, revision: nat, grant: Grant): State {
    if !s.running || revision < s.lastRevision then s
    else
      var best := Highest(members);
      if best.None? then s.(leader := None, lastRevision := revision)
      else if s.leader == best then s.(lastRevision := revision)
      else State(true, best, LeaderFence(s.term + 1, grant.token, revision), s.term + 1, revision, grant.now + LEASE)
  }

  function NextRecord(s: State, r: Record, members: seq<Member>, revision: nat, grant: Grant): Record {
    if !s.running || revision < s.lastRevision then r
    else
      var next := NextState(s, members, revision, grant);
      var stores := if next.term == s.term then r.stores else r.stores + [next.term];
      Record(stores, r.announced + [Announcement(next.leader, next.fence, |stores|)])
  }

  function ReplyTo(s: State, revision: nat): Reply {
    if !s.running then NotRunning else if revision < s.lastRevision then RevisionRollback else Accepted
  }

  /** What an accepted snapshot does.  A new leader gets the next term, which is stored, a fence with that term, the
      fresh token and the revision, and a lease of thirty seconds; a leader that stays, or its loss, changes
      nothing else.  In each case the state is announced once. */
  lemma SnapshotLaw(s: State, r: Record, members: seq<Member>, revision: nat, grant: Grant)
    requires s.running && revision >= s.lastRevision
    ensures var n, q, best := NextState(s, members, revision, grant), NextRecord(s, r, members, revision, grant), Highest(members);
            && n.running && n.lastRevision == revision && n.leader == best
            && (best.Some? && best != s.leader ==>
                  && n.term == s.term + 1 && n.fence == LeaderFence(s.term + 1, grant.token, revision)
                  && n.validUntil == grant.now + 30 * 1000 * 1000 && q.stores == r.stores + [s.term + 1])
            && (best.None? || best == s.leader ==>
                  n.term == s.term && n.fence == s.fence && n.validUntil == s.validUntil && q.stores == r.stores)
            && q.announced == r.announced + [Announcement(n.leader, n.fence, |q.stores|)]
  {
    hide Highest;
  }

  /** A stopped election and an old revision change nothing. */
  lemma RefusalLaw(s: State, r: Record, members: seq<Member>, revision: nat, grant: Grant)
    requires !s.running || revision < s.lastRevision
    ensures NextState(s, members, revision, grant) == s && NextRecord(s, r, members, revision, grant) == r
    ensures ReplyTo(s, revision) == if !s.running then NotRunning else RevisionRollback
  {
  }

  class BullyElection {
    var running: bool
    var leader: Option<NodeId>
    var fence: LeaderFence
    var currentTerm: nat
    var lastRevision: nat
    var validUntil: int
    var stores: seq<nat>
    var announced: seq<Announcement>

    ghost function S(): State
      reads this
    {
      State(running, leader, fence, currentTerm, lastRevision, validUntil)
    }

    ghost function R(): Record
      reads this
    {
      Record(stores, announced)
    }

    /** A new election object over a store and a callback that already have a history. */
    constructor (stores: seq<nat>, announced: seq<Announcement>)
      ensures S() == FRESH_STATE
      ensures R() == Record(stores, announced)
    {
      running := false;
      leader := None;
      fence := LeaderFence(0, "", 0);
      currentTerm := 0;
      lastRevision := 0;
      validUntil := 0;
      this.stores := stores;
      this.announced := announced;
    }

    /** `loaded` is the store's answer, or none if loading failed. */
    method Start(loaded: Option<nat>) returns (ok: bool)
      modifies this
      ensures ok == !old(running)
      ensures R() == old(R())
      ensures S() == if ok then Started(old(S()), loaded) else old(S())
      ensures running && leader == old(leader) && fence == old(fence) && lastRevision == old(lastRevision)
      ensures currentTerm == if ok && loaded.Some? then loaded.value else old(currentTerm)
    {
      if running {
        return false;
      }
      running := true;
      if loaded.Some? {
        currentTerm := loaded.value;
      }
      return true;
    }

    method UpdateMembership(members: seq<Member>, revision: nat, grant: Grant) returns (reply: Reply)
      modifies this
      ensures reply == ReplyTo(old(S()), revision)
      ensures S() == NextState(old(S()), members, revision, grant)
      ensures R() == NextRecord(old(S()), old(R()), members, revision, grant)
    {
      if !running {
        return NotRunning;
      }
      if revision < lastRevision {
        return RevisionRollback;
      }
      lastRevision := revision;
      var best := MaxAlive(members);
      if best.None? {
        leader := None;
        EmitState();
        return Accepted;
      }
      var needElection := leader.None? || leader.value != best.value;
      if needElection {
        currentTerm := currentTerm + 1;
        stores := stores + [currentTerm];
        leader := best;
        fence := LeaderFence(currentTerm, grant.token, revision);
        validUntil := grant.now + LEASE;
      }
      EmitState();
      return Accepted;
    }

    method EmitState()
      modifies this`announced
      ensures announced == old(announced) + [Announcement(leader, fence, |stores|)]
    {
      announced := announced + [Announcement(leader, fence, |stores|)];
    }

    method Stop()
      modifies this`running
      ensures !running
    {
      running := false;
    }
  }

  function Started(s: State, loaded: Option<nat>): State {
    s.(running := true, term := if loaded.Some? then loaded.value else s.term)
  }

  /** Collects the alive identifiers and takes their maximum. */
  method MaxAlive(members: seq<Member>) returns (best: Option<NodeId>)
    ensures best == Highest(members)
  {
    best := None;
    for i := 0 to |members|
      invariant best == Highest(members[..i])
    {
      assert members[..i + 1][..i] == members[..i];
      if members[i].state == Alive {
        if best.None? || Less(best.value, members[i].peer.id) {
          best := Some(members[i].peer.id);
        }
      }
    }
    assert members[..|members|] == members;
  }
}
