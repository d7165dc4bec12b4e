// pbft/pbft.go: the three-phase agreement of a shard on its blocks (Castro and Liskov,
// Practical Byzantine Fault Tolerance, OSDI 1999, section 4.2) with a fixed honest primary.
// A step delivers one message to one correct node, in any order and any number of times.
module Pbft {
  type Digest = string

  datatype Vote = Vote(digest: Digest, seqId: int, from: nat)

  // What a node keeps. executed: the digests of the blocks it has added to its chain.
  datatype Replica = Replica(
    sequenceID: int,
    messagePool: set<Digest>,
    prepareCount: map<Digest, set<nat>>,
    commitCount: map<Digest, set<nat>>,
    commitSent: set<Digest>,
    replied: set<Digest>,
    executed: seq<Digest>)

  function Votes(m: map<Digest, set<nat>>, d: Digest): set<nat> {
    if d in m then m[d] else {}
  }

  // ----- the handlers -----

  // A pre-prepare is taken for the own sequence number only; the node then votes for it.
  function OnPrePrepare(r: Replica, d: Digest, seqId: int): Replica {
    if r.sequenceID != seqId then r else r.(messagePool := r.messagePool + {d})
  }

  predicate Prepares(r: Replica, seqId: int) {
    r.sequenceID == seqId
  }

  function OnPrepare(f: nat, r: Replica, v: Vote): Replica {
    if v.digest !in r.messagePool || r.sequenceID != v.seqId then r
    else
      var s := r.(prepareCount := r.prepareCount[v.digest := Votes(r.prepareCount, v.digest) + {v.from}]);
      if Commits(f, r, v) then s.(commitSent := s.commitSent + {v.digest}) else s
  }

  // The prepare that makes the node send its commit.
  predicate Commits(f: nat, r: Replica, v: Vote) {
    && v.digest in r.messagePool && r.sequenceID == v.seqId
    && |Votes(r.prepareCount, v.digest) + {v.from}| >= 2 * f && v.digest !in r.commitSent
  }

  // Commits are counted whatever their sequence number. A node that has enough of them but
  // not the block asks for it, which is not part of this model.
  function OnCommit(f: nat, r: Replica, v: Vote): Replica {
    var s := r.(commitCount := r.commitCount[v.digest := Votes(r.commitCount, v.digest) + {v.from}]);
    if |Votes(s.commitCount, v.digest)| > 2 * f && v.digest !in s.replied then
      if v.digest !in s.messagePool then s.(replied := s.replied + {v.digest})
      else
        s.(replied := s.replied + {v.digest}, sequenceID := s.sequenceID + 1, executed := s.executed + [v.digest])
    else s
  }

  // ----- the system -----

  // Everything ever sent stays deliverable. Node 0 is the primary.
  datatype Sys = Sys(
    f: nat,
    faulty: set<nat>,
    nodes: seq<Replica>,
    proposals: seq<Digest>,
    prePrepares: set<(Digest, int)>,
    prepares: set<Vote>,
    commits: set<Vote>)

  datatype Event =
    | Propose(d: Digest)
    | PrePrepare(i: nat, d: Digest, seqId: int)
    | Prepare(i: nat, v: Vote)
    | Commit(i: nat, v: Vote)
    | FaultyPrepare(v: Vote)
    | FaultyCommit(v: Vote)

  ghost predicate Correct(s: Sys, i: nat) {
    i < |s.nodes| && i !in s.faulty
  }

  // The primary proposes when its last block is committed, with a digest not seen before;
  // a node gets the messages of others; a faulty node votes under its own name.
  ghost predicate Enabled(s: Sys, e: Event) {
    match e
    case Propose(d) => |s.nodes| > 0 && |s.proposals| == |s.nodes[0].executed| && d !in s.proposals
    case PrePrepare(i, d, seqId) => Correct(s, i) && i != 0 && (d, seqId) in s.prePrepares
    case Prepare(i, v) => Correct(s, i) && v in s.prepares && v.from != i
    case Commit(i, v) => Correct(s, i) && v in s.commits && v.from != i
    case FaultyPrepare(v) => v.from in s.faulty
    case FaultyCommit(v) => v.from in s.faulty
  }

  ghost function Next(s: Sys, e: Event): Sys
    requires Enabled(s, e)
  {
    match e
    case Propose(d) =>
      var p := s.nodes[0];
      s.(nodes := s.nodes[0 := p.(messagePool := p.messagePool + {d})],
         proposals := s.proposals + [d],
         prePrepares := s.prePrepares + {(d, p.sequenceID)})
    case PrePrepare(i, d, seqId) =>
      s.(nodes := s.nodes[i := OnPrePrepare(s.nodes[i], d, seqId)],
         prepares := s.prepares + if Prepares(s.nodes[i], seqId) then {Vote(d, seqId, i)} else {})
    case Prepare(i, v) =>
      s.(nodes := s.nodes[i := OnPrepare(s.f, s.nodes[i], v)],
         commits := s.commits + if Commits(s.f, s.nodes[i], v) then {Vote(v.digest, v.seqId, i)} else {})
    case Commit(i, v) => s.(nodes := s.nodes[i := OnCommit(s.f, s.nodes[i], v)])
    case FaultyPrepare(v) => s.(prepares := s.prepares + {v})
    case FaultyCommit(v) => s.(commits := s.commits + {v})
  }

  ghost predicate Init(s: Sys) {
    && (forall i | i in s.faulty :: i < |s.nodes|) && 0 !in s.faulty && |s.faulty| <= s.f
    && |s.nodes| == 3 * s.f + 1
    && (forall i | 0 <= i < |s.nodes| :: s.nodes[i] == Replica(1, {}, map[], map[], {}, {}, []))
    && s.proposals == [] && s.prePrepares == {} && s.prepares == {} && s.commits == {}
  }

  ghost predicate Run(s: Sys, es: seq<Event>, t: Sys)
    decreases |es|
  {
    if es == [] then t == s else Enabled(s, es[0]) && Run(Next(s, es[0]), es[1..], t)
  }

  // ----- the invariant -----

  ghost predicate Distinct(ds: seq<Digest>) {
    forall i, j | 0 <= i < j < |ds| :: ds[i] != ds[j]
  }

  // A node has executed the first proposals, has replied to those, and holds at most one
  // proposal more.
  ghost predicate InStep(s: Sys, r: Replica) {
    && r.executed <= s.proposals && r.sequenceID == |r.executed| + 1
    && (forall d | d in r.executed :: d in r.replied && d in r.messagePool)
    && (forall d | d in r.messagePool ::
          d in r.executed || (|r.executed| < |s.proposals| && d == s.proposals[|r.executed|]))
  }

  // Its counts are votes that were sent, and what it executed had enough of them.
  ghost predicate Counted(s: Sys, r: Replica) {
    && (forall d, i | i in Votes(r.commitCount, d) :: exists v :: v in s.commits && v.digest == d && v.from == i)
    && (forall d, i | i in Votes(r.prepareCount, d) :: exists v :: v in s.prepares && v.digest == d && v.from == i)
    && (forall d | d in r.executed :: |Votes(r.commitCount, d)| > 2 * s.f)
    && (forall d | d in r.commitSent :: d in r.messagePool && |Votes(r.prepareCount, d)| >= 2 * s.f)
  }

  // A node does not count itself: it gets the messages of others only.
  ghost predicate OthersOnly(s: Sys, i: nat)
    requires i < |s.nodes|
  {
    forall d :: i !in Votes(s.nodes[i].commitCount, d)
  }

  ghost predicate NodeOk(s: Sys, i: nat)
    requires i < |s.nodes|
  {
    InStep(s, s.nodes[i]) && Counted(s, s.nodes[i]) && OthersOnly(s, i)
  }

  // A correct node votes to prepare a proposal only, under the number of the proposal, and
  // holds the block; the primary does not vote.
  ghost predicate PreparesOk(s: Sys) {
    forall v | v in s.prepares && Correct(s, v.from) ::
      && v.from != 0 && v.digest in s.nodes[v.from].messagePool
      && 1 <= v.seqId <= |s.proposals| && s.proposals[v.seqId - 1] == v.digest
  }

  // It votes to commit a block once it has enough prepares, and for no number it has not
  // reached.
  ghost predicate CommitsOk(s: Sys) {
    forall v | v in s.commits && Correct(s, v.from) ::
      v.digest in s.nodes[v.from].commitSent && 1 <= v.seqId <= s.nodes[v.from].sequenceID
  }

  ghost predicate Inv(s: Sys) {
    && 0 < |s.nodes| && 0 !in s.faulty && |s.faulty| <= s.f && Distinct(s.proposals)
    && (forall i: nat | Correct(s, i) :: NodeOk(s, i))
    && |s.proposals| <= |s.nodes[0].executed| + 1
    && (forall p | p in s.prePrepares :: 1 <= p.1 <= |s.proposals| && s.proposals[p.1 - 1] == p.0)
    && PreparesOk(s) && CommitsOk(s)
    && (forall v | v in s.commits && v.from !in s.faulty :: v.from < |s.nodes|)
  }

  // ----- each handler keeps a node in step -----

  // More proposals and more votes leave a node as it is.
  lemma Grows(s: Sys, t: Sys, r: Replica)
    requires InStep(s, r) && Counted(s, r) && s.proposals <= t.proposals && s.commits <= t.commits && t.f == s.f
    requires s.prepares <= t.prepares
    ensures InStep(t, r) && Counted(t, r)
  {
    forall d, i | i in Votes(r.commitCount, d) ensures exists v :: v in t.commits && v.digest == d && v.from == i {
      var v :| v in s.commits && v.digest == d && v.from == i;
      assert v in t.commits;
    }
    forall d, i | i in Votes(r.prepareCount, d) ensures exists v :: v in t.prepares && v.digest == d && v.from == i {
      var v :| v in s.prepares && v.digest == d && v.from == i;
      assert v in t.prepares;
    }
  }

  lemma PrePrepareKeeps(s: Sys, r: Replica, d: Digest, seqId: int)
    requires InStep(s, r) && Counted(s, r) && 1 <= seqId <= |s.proposals| && s.proposals[seqId - 1] == d
    ensures InStep(s, OnPrePrepare(r, d, seqId)) && Counted(s, OnPrePrepare(r, d, seqId))
  {
    hide Votes;
  }

  lemma PrepareKeeps(s: Sys, r: Replica, v: Vote)
    requires InStep(s, r) && Counted(s, r) && v in s.prepares
    ensures InStep(s, OnPrepare(s.f, r, v)) && Counted(s, OnPrepare(s.f, r, v))
  {
    var q := OnPrepare(s.f, r, v);
    assert q.executed == r.executed && q.messagePool == r.messagePool && q.commitCount == r.commitCount;
    assert q.sequenceID == r.sequenceID && q.replied == r.replied;
    assert InStep(s, q);
    hide InStep;
    forall d | d in q.commitSent ensures d in q.messagePool && |Votes(q.prepareCount, d)| >= 2 * s.f {
      if d == v.digest {
        Subset(Votes(r.prepareCount, d), Votes(q.prepareCount, d));
      }
    }
    forall d, i | i in Votes(q.prepareCount, d) ensures exists w :: w in s.prepares && w.digest == d && w.from == i {
      if i !in Votes(r.prepareCount, d) {
        assert v.digest == d && v.from == i;
      }
    }
  }

  lemma Subset(a: set<nat>, b: set<nat>)
    requires a <= b
    ensures |a| <= |b|
  {
    assert b == a + (b - a);
  }

  lemma CommitInStep(s: Sys, r: Replica, v: Vote)
    requires InStep(s, r)
    ensures InStep(s, OnCommit(s.f, r, v))
  {
    hide Votes;
    var q := OnCommit(s.f, r, v);
    if q.executed != r.executed {
      assert v.digest !in r.executed && v.digest in r.messagePool;
      assert q.executed == s.proposals[..|r.executed| + 1];
    }
  }

  lemma CommitCounted(s: Sys, r: Replica, v: Vote)
    requires InStep(s, r) && Counted(s, r) && v in s.commits
    ensures Counted(s, OnCommit(s.f, r, v))
  {
    var q := OnCommit(s.f, r, v);
    forall d, i | i in Votes(q.commitCount, d) ensures exists w :: w in s.commits && w.digest == d && w.from == i {
      if i !in Votes(r.commitCount, d) {
        assert v.digest == d && v.from == i;
      }
    }
    forall d | d in q.executed ensures |Votes(q.commitCount, d)| > 2 * s.f {
      if d in r.executed {
        Subset(Votes(r.commitCount, d), Votes(q.commitCount, d));
      }
    }
  }

  lemma CommitOthers(f: nat, r: Replica, v: Vote, i: nat)
    requires v.from != i && forall d :: i !in Votes(r.commitCount, d)
    ensures forall d :: i !in Votes(OnCommit(f, r, v).commitCount, d)
  {
    forall d ensures i !in Votes(OnCommit(f, r, v).commitCount, d) {
      assert i !in Votes(r.commitCount, d) && i !in Votes(r.commitCount, v.digest);
    }
  }

  // ----- each event keeps the invariant -----

  // Only node i changes, and its commit-sent marks cover the commits it sent.
  lemma OneNodeKeeps(s: Sys, t: Sys, i: nat, r: Replica)
    requires Inv(s) && Correct(s, i) && t.f == s.f && t.faulty == s.faulty && t.nodes == s.nodes[i := r]
    requires t.proposals == s.proposals && t.prePrepares == s.prePrepares && s.commits <= t.commits
    requires s.prepares <= t.prepares && s.nodes[i].messagePool <= r.messagePool && s.nodes[i].sequenceID <= r.sequenceID
    requires forall v | v in t.prepares && v !in s.prepares ::
               && v.from == i && i != 0 && v.digest in r.messagePool
               && 1 <= v.seqId <= |s.proposals| && s.proposals[v.seqId - 1] == v.digest
    requires InStep(s, r) && Counted(s, r) && s.nodes[i].commitSent <= r.commitSent && s.nodes[i].executed <= r.executed
    requires forall v | v in t.commits && v !in s.commits ::
               v.from == i && v.digest in r.commitSent && 1 <= v.seqId <= r.sequenceID
    requires forall d :: i !in Votes(r.commitCount, d)
    ensures Inv(t)
  {
    forall j: nat | Correct(t, j) ensures NodeOk(t, j) {
      assert NodeOk(s, j);
      Grows(s, t, t.nodes[j]);
    }
  }

  lemma ProposeKeeps(s: Sys, d: Digest)
    requires Inv(s) && Enabled(s, Propose(d))
    ensures Inv(Next(s, Propose(d)))
  {
    var t := Next(s, Propose(d));
    assert Correct(s, 0) && NodeOk(s, 0);
    forall j: nat | Correct(t, j) ensures NodeOk(t, j) {
      assert NodeOk(s, j);
      Grows(s, t, s.nodes[j]);
    }
  }

  lemma PrePrepareEvent(s: Sys, i: nat, d: Digest, seqId: int)
    requires Inv(s) && Enabled(s, PrePrepare(i, d, seqId))
    ensures Inv(Next(s, PrePrepare(i, d, seqId)))
  {
    assert NodeOk(s, i);
    assert s.proposals[seqId - 1] == (d, seqId).0;
    PrePrepareKeeps(s, s.nodes[i], d, seqId);
    hide InStep, Counted, Votes;
    OneNodeKeeps(s, Next(s, PrePrepare(i, d, seqId)), i, OnPrePrepare(s.nodes[i], d, seqId));
  }

  lemma PrepareEvent(s: Sys, i: nat, v: Vote)
    requires Inv(s) && Enabled(s, Prepare(i, v))
    ensures Inv(Next(s, Prepare(i, v)))
  {
    assert NodeOk(s, i);
    PrepareKeeps(s, s.nodes[i], v);
    hide InStep, Counted, Votes;
    OneNodeKeeps(s, Next(s, Prepare(i, v)), i, OnPrepare(s.f, s.nodes[i], v));
  }

  lemma CommitEvent(s: Sys, i: nat, v: Vote)
    requires Inv(s) && Enabled(s, Commit(i, v))
    ensures Inv(Next(s, Commit(i, v)))
  {
    assert NodeOk(s, i);
    CommitInStep(s, s.nodes[i], v);
    CommitCounted(s, s.nodes[i], v);
    CommitOthers(s.f, s.nodes[i], v, i);
    hide InStep, Counted, Votes;
    OneNodeKeeps(s, Next(s, Commit(i, v)), i, OnCommit(s.f, s.nodes[i], v));
  }

  lemma NextKeepsInv(s: Sys, e: Event)
    requires Inv(s) && Enabled(s, e) && forall i | i in s.faulty :: i < |s.nodes|
    ensures Inv(Next(s, e))
  {
    match e
    case Propose(d) => ProposeKeeps(s, d);
    case PrePrepare(i, d, seqId) => PrePrepareEvent(s, i, d, seqId);
    case Prepare(i, v) => PrepareEvent(s, i, v);
    case Commit(i, v) => CommitEvent(s, i, v);
    case FaultyPrepare(v) => SameNodes(s, Next(s, e));
    case FaultyCommit(v) => SameNodes(s, Next(s, e));
  }

  lemma SameNodes(s: Sys, t: Sys)
    requires Inv(s) && t.f == s.f && t.faulty == s.faulty && t.nodes == s.nodes
    requires t.proposals == s.proposals && t.prePrepares == s.prePrepares
    requires s.commits <= t.commits && s.prepares <= t.prepares
    requires forall v | v in t.commits :: v in s.commits || v.from in s.faulty
    requires forall v | v in t.prepares :: v in s.prepares || v.from in s.faulty
    ensures Inv(t)
  {
    forall j: nat | Correct(t, j) ensures NodeOk(t, j) {
      assert NodeOk(s, j);
      Grows(s, t, t.nodes[j]);
    }
  }

  lemma {:induction false} RunKeepsInv(s: Sys, es: seq<Event>, t: Sys)
    requires Inv(s) && Run(s, es, t) && forall i | i in s.faulty :: i < |s.nodes|
    ensures Inv(t) && t.f == s.f && t.faulty == s.faulty && |t.nodes| == |s.nodes|
    ensures forall i | i in t.faulty :: i < |t.nodes|
    decreases |es|
  {
    if es != [] {
      NextKeepsInv(s, es[0]);
      hide Inv;
      RunKeepsInv(Next(s, es[0]), es[1..], t);
    }
  }

  lemma InitInv(s: Sys)
    requires Init(s)
    ensures Inv(s)
  {
  }

  // ----- what follows for every run -----

  // Every correct node has executed a first part of what the primary proposed, and no block
  // twice.
  lemma ExecutedIsPrefix(s: Sys, es: seq<Event>, t: Sys, i: nat)
    requires Init(s) && Run(s, es, t) && Correct(t, i)
    ensures t.nodes[i].executed <= t.proposals && Distinct(t.nodes[i].executed)
  {
    InitInv(s);
    RunKeepsInv(s, es, t);
    assert NodeOk(t, i);
  }

  // So of any two correct nodes one is behind the other, and they never disagree.
  lemma NodesAgree(s: Sys, es: seq<Event>, t: Sys, i: nat, j: nat)
    requires Init(s) && Run(s, es, t) && Correct(t, i) && Correct(t, j)
    ensures t.nodes[i].executed <= t.nodes[j].executed || t.nodes[j].executed <= t.nodes[i].executed
  {
    ExecutedIsPrefix(s, es, t, i);
    ExecutedIsPrefix(s, es, t, j);
  }

  // The correct nodes among those that voted to commit a block.
  ghost function CorrectVoters(s: Sys, i: nat, d: Digest): set<nat>
    requires i < |s.nodes|
  {
    Votes(s.nodes[i].commitCount, d) - s.faulty
  }

  // Behind every executed block stand the commits of at least f + 1 correct nodes, each of
  // which holds the block and has seen 2f prepares for it.
  lemma ExecutedIsCommitted(s: Sys, es: seq<Event>, t: Sys, i: nat, d: Digest)
    requires Init(s) && Run(s, es, t) && Correct(t, i) && d in t.nodes[i].executed
    ensures |CorrectVoters(t, i, d)| >= t.f + 1
    ensures forall j | j in CorrectVoters(t, i, d) ::
              Correct(t, j) && d in t.nodes[j].messagePool && |Votes(t.nodes[j].prepareCount, d)| >= 2 * t.f
  {
    InitInv(s);
    RunKeepsInv(s, es, t);
    assert NodeOk(t, i);
    MinusFew(Votes(t.nodes[i].commitCount, d), t.faulty);
    forall j | j in CorrectVoters(t, i, d)
      ensures Correct(t, j) && d in t.nodes[j].messagePool && |Votes(t.nodes[j].prepareCount, d)| >= 2 * t.f
    {
      var v :| v in t.commits && v.digest == d && v.from == j;
      assert Correct(t, j) && NodeOk(t, j);
    }
  }

  lemma MinusFew(a: set<nat>, b: set<nat>)
    ensures |a - b| >= |a| - |b|
  {
    Subset(a * b, b);
    assert a == (a - b) + (a * b);
  }

  // ----- progress -----

  function Ids(n: nat): (ids: set<nat>)
    ensures (forall i: nat :: i in ids <==> i < n) && |ids| == n
  {
    if n == 0 then {} else Ids(n - 1) + {n - 1}
  }

  // Nodes do not count their own commit, so 2f + 1 votes have to come from the 3f others:
  // as soon as f nodes send no commits, correct nodes execute nothing, though the bound
  // is meant to tolerate f of them.
  lemma SilenceStops(s: Sys, es: seq<Event>, t: Sys, i: nat, quiet: set<nat>)
    requires Init(s) && Run(s, es, t) && Correct(t, i)
    requires |quiet| >= t.f && i !in quiet
    requires forall q | q in quiet :: q < |t.nodes|
    requires forall v | v in t.commits :: v.from !in quiet
    ensures t.nodes[i].executed == []
  {
    InitInv(s);
    RunKeepsInv(s, es, t);
    assert NodeOk(t, i);
    if t.nodes[i].executed != [] {
      var d := t.nodes[i].executed[0];
      var votes := Votes(t.nodes[i].commitCount, d);
      forall j | j in votes ensures j < |t.nodes| && j != i && j !in quiet {
        var v :| v in t.commits && v.digest == d && v.from == j;
        assert v.from in t.faulty || v.from < |t.nodes|;
      }
      Rest(|t.nodes|, i, quiet, votes);
      assert false;
    }
  }

  lemma Rest(n: nat, i: nat, quiet: set<nat>, votes: set<nat>)
    requires i < n && i !in quiet && forall q | q in quiet :: q < n
    requires forall v | v in votes :: v < n && v != i && v !in quiet
    ensures |votes| <= n - 1 - |quiet|
  {
    var all := votes + quiet + {i};
    assert |all| == |votes| + |quiet| + 1 by {
      assert votes !! quiet && i !in votes + quiet;
    }
    Subset(all, Ids(n));
  }

  // ----- a block that comes too late -----

  lemma OnlyCommitsExecute(s: Sys, e: Event, i: nat, d: Digest)
    requires Enabled(s, e) && i < |s.nodes| && d in s.nodes[i].replied && d !in s.nodes[i].executed
    ensures i < |Next(s, e).nodes| && d in Next(s, e).nodes[i].replied && d !in Next(s, e).nodes[i].executed
  {
    hide Votes;
  }

  lemma {:induction false} MarkedStays(s: Sys, es: seq<Event>, t: Sys, i: nat, d: Digest)
    requires Run(s, es, t) && i < |s.nodes| && d in s.nodes[i].replied && d !in s.nodes[i].executed
    ensures i < |t.nodes| && d !in t.nodes[i].executed
    decreases |es|
  {
    if es != [] {
      OnlyCommitsExecute(s, es[0], i, d);
      hide Enabled, Next;
      MarkedStays(Next(s, es[0]), es[1..], t, i, d);
    }
  }

  // A node that has heard enough commits for a block before the block itself marks it as
  // done: unless it gets the blocks it missed in another way, it executes neither this block
  // nor any that was proposed after it, whatever comes later, the block included.
  lemma MissedBlockStops(s: Sys, done: seq<Event>, t: Sys, i: nat, v: Vote, es: seq<Event>, u: Sys, p: nat)
    requires Init(s) && Run(s, done, t) && Enabled(t, Commit(i, v)) && Run(Next(t, Commit(i, v)), es, u)
    requires v.digest !in t.nodes[i].messagePool
    requires |Votes(t.nodes[i].commitCount, v.digest) + {v.from}| > 2 * t.f
    ensures i < |u.nodes| && v.digest !in u.nodes[i].executed
    ensures p < |u.proposals| && u.proposals[p] == v.digest ==> |u.nodes[i].executed| <= p
  {
    InitInv(s);
    RunKeepsInv(s, done, t);
    assert NodeOk(t, i);
    NextKeepsInv(t, Commit(i, v));
    RunKeepsInv(Next(t, Commit(i, v)), es, u);
    MarkedStays(Next(t, Commit(i, v)), es, u, i, v.digest);
    assert NodeOk(u, i);
  }

  // ----- the handlers as the code runs them -----

  class Node {
    const nodeID: nat
    const maliciousNum: nat
    var sequenceID: int
    var messagePool: set<Digest>
    var prePareConfirmCount: map<Digest, set<nat>>
    var commitConfirmCount: map<Digest, set<nat>>
    var isCommitBordcast: set<Digest>
    var isReply: set<Digest>
    var executed: seq<Digest>

    constructor (nodeID: nat, f: nat)
      ensures this.nodeID == nodeID && maliciousNum == f && Now() == Replica(1, {}, map[], map[], {}, {}, [])
    {
      this.nodeID, maliciousNum := nodeID, f;
      sequenceID, messagePool, prePareConfirmCount, commitConfirmCount := 1, {}, map[], map[];
      isCommitBordcast, isReply, executed := {}, {}, [];
    }

    ghost function Now(): Replica
      reads this
    {
      Replica(sequenceID, messagePool, prePareConfirmCount, commitConfirmCount, isCommitBordcast, isReply, executed)
    }

    method HandlePrePrepare(d: Digest, seqId: int) returns (prepares: set<Vote>)
      modifies this
      ensures Now() == OnPrePrepare(old(Now()), d, seqId)
      ensures prepares == if Prepares(old(Now()), seqId) then {Vote(d, seqId, nodeID)} else {}
      ensures if seqId == old(sequenceID) then d in messagePool && prepares != {}
              else Now() == old(Now()) && prepares == {}
    {
      if sequenceID != seqId {
        return {};
      }
      messagePool := messagePool + {d};
      return {Vote(d, seqId, nodeID)};
    }

    method HandlePrepare(v: Vote) returns (commits: set<Vote>)
      modifies this
      ensures Now() == OnPrepare(maliciousNum, old(Now()), v)
      ensures commits == if Commits(maliciousNum, old(Now()), v) then {Vote(v.digest, v.seqId, nodeID)} else {}
      ensures v.seqId != old(sequenceID) || v.digest !in old(messagePool) ==> Now() == old(Now()) && commits == {}
      ensures commits != {} ==> |prePareConfirmCount[v.digest]| >= 2 * maliciousNum
      ensures commits != {} <==> v.digest in isCommitBordcast - old(isCommitBordcast)
    {
      commits := {};
      if v.digest in messagePool && sequenceID == v.seqId {
        prePareConfirmCount := prePareConfirmCount[v.digest := Votes(prePareConfirmCount, v.digest) + {v.from}];
        var count := |prePareConfirmCount[v.digest]|;
        if count >= 2 * maliciousNum && v.digest !in isCommitBordcast {
          commits := {Vote(v.digest, v.seqId, nodeID)};
          isCommitBordcast := isCommitBordcast + {v.digest};
        }
      }
    }

    method HandleCommit(v: Vote)
      modifies this
      ensures Now() == OnCommit(maliciousNum, old(Now()), v)
    {
      commitConfirmCount := commitConfirmCount[v.digest := Votes(commitConfirmCount, v.digest) + {v.from}];
      var count := |commitConfirmCount[v.digest]|;
      if count > maliciousNum * 2 && v.digest !in isReply {
        if v.digest !in messagePool {
          isReply := isReply + {v.digest};
        } else {
          executed := executed + [v.digest];
          isReply := isReply + {v.digest};
          sequenceID := sequenceID + 1;
        }
      }
    }
  }
}
