/** The leader's commit loop against the order-statistic reading of the Raft rule: the majority
    rank of the match indices, the leader counting with its own last index. */
module CommitRule {

  import opened Numbers
  import opened RaftTypes
  import opened RaftLog
  import opened RaftStep
  import opened Cluster
  import opened ElectionSafety
  import opened Matching

  function Matches(peers: seq<Peer>): seq<nat> {
    if peers == [] then [] else Matches(peers[..|peers| - 1]) + [peers[|peers| - 1].matchIndex]
  }

  function Standing(s: NodeState): seq<nat> {
    Matches(s.peers) + [MyLastIndex(s)]
  }

  function CountAtLeast(values: seq<nat>, n: nat): nat {
    if values == [] then 0
    else CountAtLeast(values[..|values| - 1], n) + (if values[|values| - 1] >= n then 1 else 0)
  }

  ghost predicate Descending(values: seq<nat>) {
    forall j, k :: 0 <= j <= k < |values| ==> values[j] >= values[k]
  }

  // ranked is the multiset of match indices in descending order.
  ghost predicate Ranks(ranked: seq<nat>, s: NodeState) {
    Descending(ranked) && multiset(ranked) == multiset(Standing(s))
  }

  lemma {:induction false} MatchesCount(peers: seq<Peer>, n: nat)
    ensures |Matches(peers)| == |peers|
    ensures CountAtLeast(Matches(peers), n) == CountMatches(peers, n)
  {
    if peers != [] {
      MatchesCount(peers[..|peers| - 1], n);
      assert Matches(peers)[..|peers| - 1] == Matches(peers[..|peers| - 1]);
    }
  }

  lemma {:induction false} CountAtLeastSplit(a: seq<nat>, x: nat, b: seq<nat>, n: nat)
    ensures CountAtLeast(a + [x] + b, n) == CountAtLeast(a + b, n) + (if x >= n then 1 else 0)
  {
    if b == [] {
      assert a + [x] + b == a + [x] && a + b == a;
      assert (a + [x])[..|a|] == a;
    } else {
      var c, y := b[..|b| - 1], b[|b| - 1];
      CountAtLeastSplit(a, x, c, n);
      assert (a + [x] + b)[..|a| + 1 + |c|] == a + [x] + c;
      assert (a + b)[..|a| + |c|] == a + c;
    }
  }

  /** Counting does not depend on the order. */
  lemma {:induction false} CountPermutation(v: seq<nat>, w: seq<nat>, n: nat)
    requires multiset(v) == multiset(w)
    ensures CountAtLeast(v, n) == CountAtLeast(w, n)
    decreases |v|
  {
    if v == [] {
      assert |w| == |multiset(w)| == 0;
    } else {
      var x := v[|v| - 1];
      assert x in multiset(v);
      var k :| 0 <= k < |w| && w[k] == x;
      var rest := w[..k] + w[k + 1..];
      assert w == w[..k] + [x] + w[k + 1..];
      assert v == v[..|v| - 1] + [x];
      assert multiset(rest) == multiset(w) - multiset{x};
      assert multiset(v[..|v| - 1]) == multiset(v) - multiset{x};
      CountPermutation(v[..|v| - 1], rest, n);
      CountAtLeastSplit(w[..k], x, w[k + 1..], n);
    }
  }

  /** In a descending sequence, more than k values reach n exactly when the one of rank k does. */
  lemma {:induction false} RankIsCount(d: seq<nat>, k: nat, n: nat)
    requires Descending(d) && k < |d|
    ensures CountAtLeast(d, n) > k <==> d[k] >= n
    ensures CountAtLeast(d, n) <= |d|
  {
    var m := |d| - 1;
    if m > 0 {
      var init := d[..m];
      RankIsCount(init, if k < m then k else m - 1, n);
    } else {
      assert d[..0] == [];
    }
  }

  /** The guard of the commit loop says that the majority rank reaches n. */
  lemma GuardIsRank(s: NodeState, ranked: seq<nat>, n: nat)
    requires Ranks(ranked, s) && n <= MyLastIndex(s)
    ensures |ranked| == |s.peers| + 1
    ensures 1 + CountMatches(s.peers, n) > (|s.peers| + 1) / 2 <==> ranked[(|s.peers| + 1) / 2] >= n
  {
    MatchesCount(s.peers, n);
    assert |ranked| == |multiset(ranked)| == |Standing(s)|;
    CountPermutation(ranked, Standing(s), n);
    assert Standing(s)[..|s.peers|] == Matches(s.peers);
    RankIsCount(ranked, (|s.peers| + 1) / 2, n);
  }

  /** On a log with non-decreasing terms, none above the leader's own, the loop commits the majority
      rank itself if that entry is of the current term, and otherwise nothing. */
  lemma CommitIsMajorityRank(s: NodeState, ranked: seq<nat>)
    requires s.snapIndex == 0 && WellIndexed(s.log, 0) && Sorted(s.log) && s.term > 0
    requires forall k :: 0 <= k < |s.log| ==> s.log[k].term <= s.term
    requires Ranks(ranked, s)
    ensures |ranked| == |s.peers| + 1
    ensures var m := Min(ranked[(|s.peers| + 1) / 2], |s.log|);
            GreatestCommittable(s, s.commitIndex, MyLastIndex(s))
              == if m > s.commitIndex && s.log[m - 1].term == s.term then m else s.commitIndex
  {
    LastIsEnd(s.log, 0);
    GuardIsRank(s, ranked, 0);
    var r := ranked[(|s.peers| + 1) / 2];
    var m := Min(r, |s.log|);
    var n := GreatestCommittable(s, s.commitIndex, |s.log|);
    GuardIsRank(s, ranked, m);
    assert m > 0 && s.log[m - 1].term == s.term ==> Committable(s, m);
    if n > s.commitIndex {
      GuardIsRank(s, ranked, n);
      assert n <= m;
      assert s.log[n - 1].term <= s.log[m - 1].term;
    }
  }

  /** The same for every leader of every run. */
  lemma CommitRuleTheorem(states: seq<State>, actions: seq<Action>, k: nat, i: NodeId, ranked: seq<nat>)
    requires IsRun(states, actions) && k < |states| && i in states[k].nodes
    requires states[k].nodes[i].role == Leader && Ranks(ranked, states[k].nodes[i])
    ensures var s := states[k].nodes[i];
            && |ranked| == |s.peers| + 1
            && var m := Min(ranked[(|s.peers| + 1) / 2], |s.log|);
               LeaderTick(s, false).node.commitIndex
                 == if m > s.commitIndex && s.log[m - 1].term == s.term then m else s.commitIndex
  {
    hide ElectionInv, LogInv, Ranks, IsRun, GreatestCommittable;
    var c := states[k];
    RunLog(states, actions, k);
    OneNode(c, i);
    NodeLogFacts(c, i);
    AnchoredSorted(c.elections, c.nodes[i].log);
    CommitIsMajorityRank(c.nodes[i], ranked);
  }
}
