/** The log compaction of raft_save_snapshot (src/cluster/raft_persistence.c): keep the entries
    after the cut.  It must be invisible to the index arithmetic of the core. */
module RaftCompaction {

  import opened RaftTypes
  import opened RaftLog
  import opened RaftStep

  /** The entries with an index above the cut, in order. */
  function KeepAfter(log: Log, cut: nat): Log {
    if log == [] then []
    else KeepAfter(log[..|log| - 1], cut) + (if log[|log| - 1].index > cut then [log[|log| - 1]] else [])
  }

  // A node state whose log array and snapshot point fit together.
  ghost predicate Compactable(s: NodeState, cut: nat) {
    && WellIndexed(s.log, s.snapIndex) && s.snapIndex <= cut <= MyLastIndex(s)
    && (s.snapIndex == 0 ==> s.snapTerm == 0)
  }

  /** raft_save_snapshot at `cut`, taken with that index's term. */
  function Compact(s: NodeState, cut: nat): NodeState {
    s.(log := KeepAfter(s.log, cut), snapIndex := cut, snapTerm := MyTermAt(s, cut))
  }

  lemma LastEntry(log: Log, snapIndex: nat)
    requires WellIndexed(log, snapIndex) && log != []
    ensures WellIndexed(log[..|log| - 1], snapIndex) && log[|log| - 1].index == snapIndex + |log|
  {
  }

  // What is left of the entries before the last, and the last one.
  lemma SuffixSnoc(log: Log, drop: nat)
    requires log != []
    ensures var init := log[..|log| - 1];
      (if drop <= |init| then init[drop..] else []) + (if drop < |log| then [log[|log| - 1]] else [])
        == if drop <= |log| then log[drop..] else []
  {
    var n := |log| - 1;
    if drop <= n {
      assert log[..n][drop..] + [log[n]] == log[drop..];
    }
  }

  lemma {:induction false} KeepAfterIsSuffix(log: Log, snapIndex: nat, cut: nat)
    requires WellIndexed(log, snapIndex) && snapIndex <= cut
    ensures KeepAfter(log, cut) == if cut - snapIndex <= |log| then log[cut - snapIndex..] else []
  {
    hide WellIndexed;
    if log != [] {
      LastEntry(log, snapIndex);
      KeepAfterIsSuffix(log[..|log| - 1], snapIndex, cut);
      SuffixSnoc(log, cut - snapIndex);
    }
  }

  // What is at or after position drop of a log is read the same without the entries before it.
  lemma SuffixReads(log: Log, snapIndex: nat, snapTerm: nat, drop: nat, index: nat)
    requires WellIndexed(log, snapIndex) && drop <= |log| && (snapIndex == 0 ==> snapTerm == 0)
    ensures var cut, kept := snapIndex + drop, log[drop..];
      var cutTerm := TermAt(log, snapIndex, snapTerm, cut);
      && WellIndexed(kept, cut)
      && (index > cut ==> EntryAt(kept, cut, index) == EntryAt(log, snapIndex, index))
      && (index >= cut ==> TermAt(kept, cut, cutTerm, index) == TermAt(log, snapIndex, snapTerm, index))
      && LastIndex(kept, cut) == LastIndex(log, snapIndex) && LastTerm(kept, cutTerm) == LastTerm(log, snapTerm)
  {
    if drop < |log| {
      assert log[drop..][|log| - drop - 1] == log[|log| - 1];
    }
  }

  /** Contiguity, and every index query at or above the cut, are unchanged. */
  lemma CompactionInvisible(s: NodeState, cut: nat, index: nat)
    requires Compactable(s, cut)
    ensures WellIndexed(Compact(s, cut).log, cut)
    ensures index >= cut ==> MyTermAt(Compact(s, cut), index) == MyTermAt(s, index)
    ensures index > cut ==> EntryAt(Compact(s, cut).log, cut, index) == EntryAt(s.log, s.snapIndex, index)
    ensures MyLastIndex(Compact(s, cut)) == MyLastIndex(s)
    ensures MyLastTerm(Compact(s, cut)) == MyLastTerm(s)
  {
    hide KeepAfter;
    KeepAfterIsSuffix(s.log, s.snapIndex, cut);
    LastIsEnd(s.log, s.snapIndex);
    SuffixReads(s.log, s.snapIndex, s.snapTerm, cut - s.snapIndex, index);
  }

  /** So every vote decision is the same. */
  lemma CompactionKeepsVotes(s: NodeState, cut: nat, m: Message)
    requires Compactable(s, cut) && m.RequestVote?
    ensures HandleRequestVote(Compact(s, cut), m).sent == HandleRequestVote(s, m).sent
    ensures HandleRequestVote(Compact(s, cut), m).node.votedFor == HandleRequestVote(s, m).node.votedFor
    ensures HandleRequestVote(Compact(s, cut), m).node.term == HandleRequestVote(s, m).node.term
  {
    CompactionInvisible(s, cut, cut);
  }

  /** Splicing a batch anchored at or above the cut commutes with compaction. */
  lemma CompactionCommutesWithSplice(log: Log, drop: nat, at: nat, batch: Log)
    requires drop <= at <= |log|
    ensures Splice(log[drop..], at - drop, batch) == Splice(log, at, batch)[drop..]
  {
    var k := Agreement(log, at, batch);
    AgreementUnique(log[drop..], at - drop, batch, k);
    assert k < |batch| ==> (log[..at + k] + batch[k..])[drop..] == log[drop..][..at - drop + k] + batch[k..];
  }

  /** So does the whole append loop, for anchors at or above the cut, inside the log or beyond its end. */
  lemma CompactionCommutesWithLoop(s: NodeState, cut: nat, prev: nat, batch: Log)
    requires Compactable(s, cut) && cut <= prev && Contiguous(batch, s.snapIndex, prev - s.snapIndex)
    ensures cut - s.snapIndex <= |AppendAll(s.log, s.snapIndex, batch)|
    ensures AppendAll(Compact(s, cut).log, cut, batch) == AppendAll(s.log, s.snapIndex, batch)[cut - s.snapIndex..]
    ensures LastIndex(AppendAll(Compact(s, cut).log, cut, batch), cut) == LastIndex(AppendAll(s.log, s.snapIndex, batch), s.snapIndex)
  {
    hide Splice, AppendAll, AppendOne, KeepAfter;
    var at, drop := prev - s.snapIndex, cut - s.snapIndex;
    var log := Compact(s, cut).log;
    KeepAfterIsSuffix(s.log, s.snapIndex, cut);
    LastIsEnd(s.log, s.snapIndex);
    if at <= |s.log| {
      AppendAllIsSplice(s.log, s.snapIndex, at, batch);
      AppendAllIsSplice(log, cut, at - drop, batch);
      CompactionCommutesWithSplice(s.log, drop, at, batch);
      SpliceKeepsIndices(s.log, s.snapIndex, at, batch);
      SpliceKeepsIndices(log, cut, at - drop, batch);
      LastIsEnd(Splice(s.log, at, batch), s.snapIndex);
      LastIsEnd(Splice(log, at - drop, batch), cut);
    } else {
      AppendAllBeyond(s.log, s.snapIndex, at, batch);
      AppendAllBeyond(log, cut, at - drop, batch);
      LastOfBoth(s.log, s.snapIndex, drop, batch);
    }
  }

  lemma LastOfBoth(log: Log, snapIndex: nat, drop: nat, batch: Log)
    requires WellIndexed(log, snapIndex) && drop <= |log|
    ensures log[drop..] + batch == (log + batch)[drop..]
    ensures LastIndex(log[drop..] + batch, snapIndex + drop) == LastIndex(log + batch, snapIndex)
  {
    if batch == [] && drop < |log| {
      assert (log[drop..] + batch)[|log| - drop - 1] == log[|log| - 1];
    }
  }

  // The same node, but for the entries up to the cut and what is on disk.
  ghost predicate Alike(s: NodeState, t: NodeState, drop: nat, cut: nat, cutTerm: nat) {
    && drop <= |s.log|
    && t == s.(log := s.log[drop..], snapIndex := cut, snapTerm := cutTerm, disk := t.disk)
  }

  lemma CompactAlike(s: NodeState, cut: nat)
    requires Compactable(s, cut)
    ensures Alike(s, Compact(s, cut), cut - s.snapIndex, cut, MyTermAt(s, cut))
  {
    hide KeepAfter;
    KeepAfterIsSuffix(s.log, s.snapIndex, cut);
    LastIsEnd(s.log, s.snapIndex);
  }

  /** AppendEntries anchored at or above the cut: the same answer, except that a refusal names the snapshot, and
      the same node after it, except for the entries up to the cut. */
  lemma CompactionKeepsAppends(s: NodeState, cut: nat, m: Message)
    requires Compactable(s, cut) && m.AppendEntries? && cut <= m.prevLogIndex
    requires Contiguous(m.entries, s.snapIndex, m.prevLogIndex - s.snapIndex)
    ensures var o, o' := HandleAppendEntries(s, m), HandleAppendEntries(Compact(s, cut), m);
      && Alike(o.node, o'.node, cut - s.snapIndex, cut, MyTermAt(s, cut))
      && o'.sent == if m.term >= s.term && !o.sent[0].success then [o.sent[0].(matchIndex := cut)] else o.sent
  {
    hide AppendAll, KeepAfter, WellIndexed, Contiguous;
    CompactAlike(s, cut);
    if m.term >= s.term {
      var t, t' := Recognise(s, m), Recognise(Compact(s, cut), m);
      RecogniseAlike(s, cut, m);
      CompactionInvisible(s, cut, m.prevLogIndex);
      assert Consistent(t', m) == Consistent(t, m);
      if Consistent(t, m) {
        CompactionCommutesWithLoop(s, cut, m.prevLogIndex, m.entries);
      }
    }
  }

  lemma RecogniseAlike(s: NodeState, cut: nat, m: Message)
    requires m.AppendEntries?
    ensures Recognise(Compact(s, cut), m) == Recognise(s, m).(log := Compact(s, cut).log, snapIndex := cut,
                snapTerm := MyTermAt(s, cut), disk := Recognise(Compact(s, cut), m).disk)
    ensures Recognise(s, m).log == s.log && Recognise(s, m).snapIndex == s.snapIndex && Recognise(s, m).snapTerm == s.snapTerm
    ensures Recognise(s, m).commitIndex == s.commitIndex
  {
    hide KeepAfter;
  }
}
