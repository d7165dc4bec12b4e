// The other half of what silence does: with fewer than f silent nodes, a block can be
// executed. Each phase delivers the messages of the phase before.
module PbftProgress {
  import opened Pbft

  lemma {:induction false} RunThen(s: Sys, es: seq<Event>, t: Sys, e: Event)
    requires Run(s, es, t) && Enabled(t, e)
    ensures Run(s, es + [e], Next(t, e))
    decreases |es|
  {
    if es == [] {
      assert [e][1..] == [];
    } else {
      RunThen(Next(s, es[0]), es[1..], t, e);
      assert (es + [e])[1..] == es[1..] + [e];
    }
  }

  lemma {:induction false} RunJoin(s: Sys, es: seq<Event>, t: Sys, fs: seq<Event>, u: Sys)
    requires Run(s, es, t) && Run(t, fs, u)
    ensures Run(s, es + fs, u)
    decreases |es|
  {
    if es == [] {
      assert es + fs == fs;
    } else {
      RunJoin(Next(s, es[0]), es[1..], t, fs, u);
      assert (es + fs)[1..] == es[1..] + fs;
    }
  }

  ghost predicate Silent(es: seq<Event>) {
    forall e | e in es :: !e.FaultyPrepare? && !e.FaultyCommit?
  }

  // A node before it executes its first block, d.
  ghost predicate First(s: Sys, d: Digest, j: nat)
    requires j < |s.nodes|
  {
    var r := s.nodes[j];
    && r.sequenceID == 1 && r.executed == [] && r.replied == {}
    && (|Votes(r.prepareCount, d)| >= 2 * s.f ==> d in r.commitSent)
    && (d in r.commitSent ==> Vote(d, 1, j) in s.commits)
    && |Votes(r.commitCount, d)| <= 2 * s.f
  }

  ghost predicate Base(s: Sys, d: Digest) {
    && |s.nodes| == 3 * s.f + 1 && 0 !in s.faulty && |s.faulty| < s.f && (forall x | x in s.faulty :: x < |s.nodes|)
    && (d, 1) in s.prePrepares
    && forall j: nat | Correct(s, j) :: First(s, d, j)
  }

  // The node holds the block and has voted for it.
  ghost predicate Holds(s: Sys, d: Digest, j: nat)
    requires j < |s.nodes|
  {
    d in s.nodes[j].messagePool && (j != 0 ==> Vote(d, 1, j) in s.prepares)
  }

  ghost predicate AllHold(s: Sys, d: Digest, m: nat) {
    forall j: nat | Correct(s, j) && j < m :: Holds(s, d, j)
  }

  // What never goes back while messages are delivered.
  ghost predicate Onward(s: Sys, t: Sys) {
    && t.f == s.f && t.faulty == s.faulty && |t.nodes| == |s.nodes|
    && s.prePrepares <= t.prePrepares && s.prepares <= t.prepares && s.commits <= t.commits
    && forall j | 0 <= j < |s.nodes| ::
         && s.nodes[j].messagePool <= t.nodes[j].messagePool && s.nodes[j].commitSent <= t.nodes[j].commitSent
         && forall d :: Votes(s.nodes[j].prepareCount, d) <= Votes(t.nodes[j].prepareCount, d)
  }

  // ----- one message at a time -----

  lemma Proposed(s: Sys, d: Digest)
    requires Init(s) && |s.faulty| < s.f
    ensures Enabled(s, Propose(d)) && Base(Next(s, Propose(d)), d) && AllHold(Next(s, Propose(d)), d, 1)
  {
    var t := Next(s, Propose(d));
    assert t.nodes[0].messagePool == {d};
    forall j: nat | Correct(t, j) ensures First(t, d, j) {
      assert s.nodes[j] == Replica(1, {}, map[], map[], {}, {}, []);
    }
  }

  lemma TakesBlock(s: Sys, d: Digest, j: nat)
    requires Base(s, d) && Correct(s, j) && j != 0
    ensures var e := PrePrepare(j, d, 1);
            Enabled(s, e) && Base(Next(s, e), d) && Onward(s, Next(s, e)) && Holds(Next(s, e), d, j)
  {
    var t := Next(s, PrePrepare(j, d, 1));
    assert First(s, d, j);
    forall k: nat | Correct(t, k) ensures First(t, d, k) {
      assert First(s, d, k);
    }
  }

  lemma TakesPrepare(s: Sys, d: Digest, j: nat, x: nat)
    requires Base(s, d) && Correct(s, j) && Holds(s, d, j) && x != j && Vote(d, 1, x) in s.prepares
    ensures var e := Prepare(j, Vote(d, 1, x));
            && Enabled(s, e) && Base(Next(s, e), d) && Onward(s, Next(s, e))
            && x in Votes(Next(s, e).nodes[j].prepareCount, d)
  {
    var v := Vote(d, 1, x);
    var t := Next(s, Prepare(j, v));
    assert First(s, d, j);
    forall k: nat | Correct(t, k) ensures First(t, d, k) {
      assert First(s, d, k);
    }
    forall k, c | 0 <= k < |s.nodes| ensures Votes(s.nodes[k].prepareCount, c) <= Votes(t.nodes[k].prepareCount, c) {
    }
  }

  // ----- the phases -----

  lemma StillHold(s: Sys, t: Sys, d: Digest, m: nat)
    requires AllHold(s, d, m) && Onward(s, t)
    ensures AllHold(t, d, m)
  {
    forall j: nat | Correct(t, j) && j < m ensures Holds(t, d, j) {
      assert Correct(s, j) && Holds(s, d, j);
    }
  }

  lemma OnwardOn(s: Sys, t: Sys, u: Sys)
    requires Onward(s, t) && Onward(t, u)
    ensures Onward(s, u)
  {
    forall j, d | 0 <= j < |s.nodes| ensures Votes(s.nodes[j].prepareCount, d) <= Votes(u.nodes[j].prepareCount, d) {
      assert Votes(s.nodes[j].prepareCount, d) <= Votes(t.nodes[j].prepareCount, d);
    }
  }

  lemma OnwardStart(s: Sys)
    ensures Onward(s, s)
  {
  }

  // All correct nodes below m take the block.
  lemma {:induction false} PrePreparePhase(s: Sys, d: Digest, m: nat) returns (es: seq<Event>, t: Sys)
    requires Base(s, d) && AllHold(s, d, 1) && m <= |s.nodes|
    ensures Run(s, es, t) && Silent(es) && Base(t, d) && Onward(s, t) && AllHold(t, d, m)
  {
    hide Base, Next, Enabled, Onward;
    if m <= 1 {
      OnwardStart(s);
      es, t := [], s;
    } else {
      es, t := PrePreparePhase(s, d, m - 1);
      if m - 1 < |t.nodes| && Correct(t, m - 1) {
        var e, u := PrePrepare(m - 1, d, 1), t;
        TakesBlock(t, d, m - 1);
        RunThen(s, es, t, e);
        t := Next(t, e);
        OnwardOn(s, u, t);
        StillHold(u, t, d, m - 1);
        es := es + [e];
      }
    }
  }

  // Node j has counted the prepares of all correct nodes below m but the primary's and its own.
  ghost predicate Counts(s: Sys, d: Digest, j: nat, m: nat)
    requires j < |s.nodes|
  {
    forall x: nat | 0 < x < m && x != j && Correct(s, x) :: x in Votes(s.nodes[j].prepareCount, d)
  }

  lemma StillCounts(s: Sys, t: Sys, d: Digest, j: nat, m: nat)
    requires j < |s.nodes| && Counts(s, d, j, m) && Onward(s, t)
    ensures j < |t.nodes| && Counts(t, d, j, m)
  {
    assert Votes(s.nodes[j].prepareCount, d) <= Votes(t.nodes[j].prepareCount, d);
    forall x: nat | 0 < x < m && x != j && Correct(t, x) ensures x in Votes(t.nodes[j].prepareCount, d) {
      assert Correct(s, x);
    }
  }

  lemma {:induction false} PreparesFor(s: Sys, d: Digest, j: nat, m: nat) returns (es: seq<Event>, t: Sys)
    requires Base(s, d) && AllHold(s, d, |s.nodes|) && Correct(s, j) && m <= |s.nodes|
    ensures Run(s, es, t) && Silent(es) && Base(t, d) && Onward(s, t) && j < |t.nodes| && Counts(t, d, j, m)
  {
    hide Base, Next, Enabled, Onward, Votes;
    if m <= 1 {
      OnwardStart(s);
      es, t := [], s;
    } else {
      es, t := PreparesFor(s, d, j, m - 1);
      StillHold(s, t, d, |s.nodes|);
      SameCorrect(s, t);
      if m - 1 != j && Correct(t, m - 1) {
        var x := m - 1;
        var e, u := Prepare(j, Vote(d, 1, x)), t;
        assert Holds(t, d, x) && Holds(t, d, j);
        TakesPrepare(t, d, j, x);
        RunThen(s, es, t, e);
        t := Next(t, e);
        OnwardOn(s, u, t);
        StillCounts(u, t, d, j, x);
        SameCorrect(u, t);
        es := es + [e];
      }
    }
  }

  lemma SameCorrect(s: Sys, t: Sys)
    requires Onward(s, t)
    ensures |t.nodes| == |s.nodes| && t.f == s.f && forall j: nat :: Correct(t, j) <==> Correct(s, j)
  {
  }

  // The others a node can hear from, the primary left out, are enough.
  lemma EnoughPrepares(s: Sys, d: Digest, j: nat)
    requires Base(s, d) && Correct(s, j) && Counts(s, d, j, |s.nodes|)
    ensures d in s.nodes[j].commitSent && Vote(d, 1, j) in s.commits
  {
    assert First(s, d, j);
    var votes, some := Votes(s.nodes[j].prepareCount, d), Ids(|s.nodes|) - s.faulty;
    MinusFew(Ids(|s.nodes|), s.faulty);
    MinusFew(some, {0, j});
    assert |{0, j}| <= 2;
    forall x | x in some - {0, j} ensures x in votes {
      assert Correct(s, x);
    }
    Subset(some - {0, j}, votes);
  }

  ghost predicate AllCommit(s: Sys, d: Digest, m: nat) {
    forall j: nat | Correct(s, j) && j < m :: Vote(d, 1, j) in s.commits
  }

  lemma {:induction false} PreparePhase(s: Sys, d: Digest, m: nat) returns (es: seq<Event>, t: Sys)
    requires Base(s, d) && AllHold(s, d, |s.nodes|) && m <= |s.nodes|
    ensures Run(s, es, t) && Silent(es) && Base(t, d) && Onward(s, t) && AllCommit(t, d, m)
  {
    hide Base, Next, Enabled, Votes;
    if m == 0 {
      OnwardStart(s);
      es, t := [], s;
    } else {
      es, t := PreparePhase(s, d, m - 1);
      SameCorrect(s, t);
      if Correct(t, m - 1) {
        StillHold(s, t, d, |s.nodes|);
        var fs, u := PreparesFor(t, d, m - 1, |t.nodes|);
        RunJoin(s, es, t, fs, u);
        OnwardOn(s, t, u);
        SameCorrect(t, u);
        EnoughPrepares(u, d, m - 1);
        es, t := es + fs, u;
      }
    }
  }

  // ----- the last phase -----

  // Node i has executed the block, or has counted the commits of the nodes below m.
  ghost predicate Executing(s: Sys, d: Digest, i: nat, m: nat)
    requires i < |s.nodes|
  {
    || s.nodes[i].executed == [d]
    || (First(s, d, i) && d in s.nodes[i].messagePool &&
        forall x: nat | x < m && x != i && Correct(s, x) :: x in Votes(s.nodes[i].commitCount, d))
  }

  lemma TakesCommit(s: Sys, d: Digest, i: nat, x: nat)
    requires Correct(s, i) && x != i && Vote(d, 1, x) in s.commits
    requires First(s, d, i) && d in s.nodes[i].messagePool
    requires forall y: nat | y < x && y != i && Correct(s, y) :: y in Votes(s.nodes[i].commitCount, d)
    ensures var e := Commit(i, Vote(d, 1, x));
            && Enabled(s, e) && i < |Next(s, e).nodes| && Executing(Next(s, e), d, i, x + 1)
            && Next(s, e).commits == s.commits && Next(s, e).faulty == s.faulty && |Next(s, e).nodes| == |s.nodes|
            && Next(s, e).f == s.f
  {
  }

  lemma {:induction false} CommitPhase(s: Sys, d: Digest, i: nat, m: nat) returns (es: seq<Event>, t: Sys)
    requires Correct(s, i) && First(s, d, i) && d in s.nodes[i].messagePool && AllCommit(s, d, |s.nodes|)
           && m <= |s.nodes|
    ensures Run(s, es, t) && Silent(es) && t.commits == s.commits && t.faulty == s.faulty && |t.nodes| == |s.nodes|
    ensures t.f == s.f && Executing(t, d, i, m)
  {
    hide Next, Enabled, First;
    if m == 0 {
      es, t := [], s;
    } else {
      es, t := CommitPhase(s, d, i, m - 1);
      if t.nodes[i].executed != [d] && m - 1 != i && Correct(t, m - 1) {
        var e := Commit(i, Vote(d, 1, m - 1));
        assert Correct(s, m - 1);
        TakesCommit(t, d, i, m - 1);
        hide Next, Executing, Enabled;
        RunThen(s, es, t, e);
        t := Next(t, e);
        es := es + [e];
      }
    }
  }

  lemma EnoughCommits(s: Sys, d: Digest, i: nat)
    requires |s.nodes| == 3 * s.f + 1 && |s.faulty| < s.f && Correct(s, i) && Executing(s, d, i, |s.nodes|)
    ensures s.nodes[i].executed == [d]
  {
    if s.nodes[i].executed != [d] {
      var votes, some := Votes(s.nodes[i].commitCount, d), Ids(|s.nodes|) - s.faulty;
      MinusFew(Ids(|s.nodes|), s.faulty);
      MinusFew(some, {i});
      forall x | x in some - {i} ensures x in votes {
        assert Correct(s, x);
      }
      Subset(some - {i}, votes);
      assert false;
    }
  }

  // With fewer than f silent nodes any correct node can execute a first block; with f, as
  // SilenceStops says, none can.
  lemma FewSilentCanExecute(s: Sys, d: Digest, i: nat) returns (es: seq<Event>, t: Sys)
    requires Init(s) && |s.faulty| < s.f && Correct(s, i)
    ensures Run(s, es, t) && Silent(es) && i < |t.nodes| && t.nodes[i].executed == [d]
  {
    Proposed(s, d);
    var s1 := Next(s, Propose(d));
    RunThen(s, [], s, Propose(d));
    assert [] + [Propose(d)] == [Propose(d)];
    assert Correct(s1, i);
    hide Init, Next, Enabled, Run;
    var es2, s2 := PrePreparePhase(s1, d, |s1.nodes|);
    SameCorrect(s1, s2);
    assert Correct(s2, i);
    var es3, s3 := PreparePhase(s2, d, |s2.nodes|);
    SameCorrect(s2, s3);
    StillHold(s2, s3, d, |s2.nodes|);
    assert Correct(s3, i) && First(s3, d, i) && Holds(s3, d, i);
    var es4, s4 := CommitPhase(s3, d, i, |s3.nodes|);
    EnoughCommits(s4, d, i);
    RunJoin(s2, es3, s3, es4, s4);
    RunJoin(s1, es2, s2, es3 + es4, s4);
    RunJoin(s, [Propose(d)], s1, es2 + (es3 + es4), s4);
    es, t := [Propose(d)] + (es2 + (es3 + es4)), s4;
  }
}
