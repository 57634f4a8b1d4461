/** Compaction against the rest of the node: when it hides entries from the apply loop, and what a restart makes of
    a compacted log (src/cluster/raft_persistence.c). */
module RaftSnapshot {

  import opened RaftTypes
  import opened RaftLog
  import opened RaftStep
  import opened RaftCompaction
  import opened Applying

  // Applying

  lemma {:induction false} ApplyGrows(s: NodeState)
    ensures s.applied <= ApplyCommitted(s).applied
    decreases s.commitIndex - s.lastApplied
  {
    if s.lastApplied < s.commitIndex {
      match EntryAt(s.log, s.snapIndex, s.lastApplied + 1)
      case None =>
      case Some(e) => ApplyGrows(s.(lastApplied := s.lastApplied + 1, applied := s.applied + [e.data]));
    }
  }

  function OneApplied(s: NodeState, e: LogEntry): NodeState {
    s.(lastApplied := s.lastApplied + 1, applied := s.applied + [e.data])
  }

  lemma {:induction false} ApplyUnfold(s: NodeState)
    requires s.lastApplied < s.commitIndex
    ensures ApplyCommitted(s) == match EntryAt(s.log, s.snapIndex, s.lastApplied + 1)
      case None => s.(lastApplied := s.lastApplied + 1)
      case Some(e) => ApplyCommitted(OneApplied(s, e))
  {
  }

  // Whether anything is applied is decided by the first entry.
  lemma {:induction false} ApplyFirst(s: NodeState)
    requires s.lastApplied < s.commitIndex
    ensures ApplyCommitted(s).applied == s.applied <==> EntryAt(s.log, s.snapIndex, s.lastApplied + 1).None?
  {
    hide ApplyCommitted, EntryAt;
    ApplyUnfold(s);
    match EntryAt(s.log, s.snapIndex, s.lastApplied + 1)
    case None =>
    case Some(e) =>
      ApplyGrows(OneApplied(s, e));
      assert |ApplyCommitted(s).applied| > |s.applied|;
  }

  lemma {:induction false} NothingToApply(s: NodeState)
    requires s.lastApplied == s.commitIndex
    ensures ApplyCommitted(s) == s
  {
  }

  // Two logs that read alike above what is applied are applied alike.
  lemma {:induction false} ApplyAlike(s: NodeState, t: NodeState)
    requires s.lastApplied == t.lastApplied && s.commitIndex == t.commitIndex && s.applied == t.applied
    requires forall n: nat :: n > s.lastApplied ==> EntryAt(t.log, t.snapIndex, n) == EntryAt(s.log, s.snapIndex, n)
    ensures ApplyCommitted(t).applied == ApplyCommitted(s).applied
    decreases s.commitIndex - s.lastApplied
  {
    hide EntryAt;
    if s.lastApplied < s.commitIndex {
      var n := s.lastApplied + 1;
      match EntryAt(s.log, s.snapIndex, n)
      case None =>
      case Some(e) =>
        ApplyAlike(s.(lastApplied := n, applied := s.applied + [e.data]), t.(lastApplied := n, applied := t.applied + [e.data]));
    }
  }

  /** The source never compares the cut with last_applied.  Compaction leaves alone what will be applied if and only
      if the cut is not above it, or there is nothing left to apply. */
  lemma CompactionKeepsApplying(s: NodeState, cut: nat)
    requires Compactable(s, cut) && s.snapIndex <= s.lastApplied <= s.commitIndex <= MyLastIndex(s)
    ensures ApplyCommitted(Compact(s, cut)).applied == ApplyCommitted(s).applied
      <==> cut <= s.lastApplied || s.lastApplied == s.commitIndex
  {
    hide KeepAfter, WellIndexed, ApplyCommitted;
    var t := Compact(s, cut);
    if cut <= s.lastApplied {
      forall n: nat | n > s.lastApplied
        ensures EntryAt(t.log, t.snapIndex, n) == EntryAt(s.log, s.snapIndex, n)
      {
        CompactionInvisible(s, cut, n);
      }
      ApplyAlike(s, t);
    } else if s.lastApplied < s.commitIndex {
      LastIsEnd(s.log, s.snapIndex);
      ApplyFirst(s);
      ApplyFirst(t);
    } else {
      NothingToApply(s);
      NothingToApply(t);
    }
  }

  // Requests anchored below the cut

  /** The consistency check of a compacted node lets a request anchored below the cut through exactly when its anchor is
      0 or its anchor term is. */
  lemma BelowCut(s: NodeState, cut: nat, m: Message)
    requires m.AppendEntries? && m.prevLogIndex < cut && m.term >= s.term
    ensures HandleAppendEntries(Compact(s, cut), m).sent[0].success <==> m.prevLogIndex == 0 || m.prevLogTerm == 0
  {
    hide KeepAfter, AppendAll;
  }

  /** Once through, every pass of the append loop leaves a gap-free log if and only if the batch is empty or anchored from
      the cut on: compaction is visible exactly below the cut, where the uncompacted node takes the batch in its stride. */
  lemma CompactionVisibleIff(s: NodeState, cut: nat, prev: nat, batch: Log)
    requires Compactable(s, cut) && s.snapIndex <= prev <= MyLastIndex(s) && Follows(batch, prev)
    ensures (forall j :: 0 <= j <= |batch| ==> WellIndexed(After(Compact(s, cut).log, cut, batch, j), cut))
      <==> batch == [] || cut <= prev
    ensures forall j :: 0 <= j <= |batch| ==> WellIndexed(After(s.log, s.snapIndex, batch, j), s.snapIndex)
  {
    hide KeepAfter, WellIndexed, After, Follows;
    CompactionInvisible(s, cut, cut);
    LastIsEnd(s.log, s.snapIndex);
    LastIsEnd(Compact(s, cut).log, cut);
    AnchorIff(s.log, s.snapIndex, prev, batch);
    AnchorIff(Compact(s, cut).log, cut, prev, batch);
  }

  /** It happens: after a snapshot at 1, the first entry delivered again goes to the end of the log, and the last index
      falls to 1; without the snapshot nothing changes. */
  lemma RedeliveryBelowCut(s: NodeState, e: LogEntry, f: LogEntry, leader: NodeId)
    requires s.log == [e, f] && e.index == 1 && f.index == 2 && s.snapIndex == 0 && s.snapTerm == 0
    ensures var m := AppendEntries(leader, s.id, s.term, 0, 0, [e], 0);
      var o, o' := HandleAppendEntries(s, m), HandleAppendEntries(Compact(s, 1), m);
      && o.node.log == [e, f] && o.sent[0].success && o.sent[0].matchIndex == 2
      && o'.node.log == [f, e] && o'.sent[0].success && o'.sent[0].matchIndex == 1
  {
    KeepAfterIsSuffix(s.log, 0, 1);
    assert s.log[1..] == [f] && [e][..0] == [];
    assert AppendAll([f], 1, []) == [f] && AppendAll([e, f], 0, []) == [e, f];
    assert AppendAll([f], 1, [e]) == AppendOne([f], 1, e) == [f, e];
    assert AppendAll([e, f], 0, [e]) == AppendOne([e, f], 0, e) == [e, f];
  }

  // Restarting

  // What the index reads of the core see from index `from` on.
  ghost predicate ReadsAlike(s: NodeState, t: NodeState, from: nat) {
    && MyLastIndex(s) == MyLastIndex(t)
    && (forall n: nat :: n > from ==> EntryAt(s.log, s.snapIndex, n) == EntryAt(t.log, t.snapIndex, n))
  }

  /** The file has no place for the snapshot index, and restoring leaves it 0.  A node that has persisted its log
      reads, after a restart, what it read before, be it only above its snapshot, if and only if it had none. */
  lemma RestartIffNoSnapshot(s: NodeState)
    requires WellIndexed(s.log, s.snapIndex) && s.disk == Durable(s.term, s.votedFor, s.log)
    ensures ReadsAlike(Restart(s), s, s.snapIndex) <==> s.snapIndex == 0
    ensures ReadsAlike(Restart(s), s, 0) <==> s.snapIndex == 0
  {
    LastIsEnd(s.log, s.snapIndex);
    if s.snapIndex > 0 && s.log != [] {
      var last := s.snapIndex + |s.log|;
      assert EntryAt(s.log, s.snapIndex, last).Some? && EntryAt(Restart(s).log, 0, last).None?;
    }
  }

  /** raft_save_snapshot does not rewrite the file.  If nothing is persisted after it, a restart brings back the
      uncompacted log, and all reads from the cut on are as before; if something is, they are only when nothing was cut. */
  lemma RestartAfterCompaction(s: NodeState, cut: nat)
    requires Compactable(s, cut) && s.snapIndex == 0 && s.disk == Durable(s.term, s.votedFor, s.log)
    ensures Restart(Compact(s, cut)) == Restart(s) && ReadsAlike(Restart(s), Compact(s, cut), cut)
    ensures MyTermAt(Restart(s), cut) == MyTermAt(Compact(s, cut), cut)
    ensures ReadsAlike(Restart(Persist(Compact(s, cut))), Compact(s, cut), cut) <==> cut == 0
  {
    hide KeepAfter, WellIndexed;
    var t := Compact(s, cut);
    CompactionInvisible(s, cut, cut);
    forall n: nat | n > cut
      ensures EntryAt(t.log, t.snapIndex, n) == EntryAt(s.log, s.snapIndex, n)
    {
      CompactionInvisible(s, cut, n);
    }
    RestartIffNoSnapshot(Persist(t));
    assert Restart(Persist(t)).log == t.log;
  }

  /** It happens: after a snapshot at 1, a persisted vote and a restart, the entry of index 2 is found at index 1
      and none at index 2, while the last index is still 2. */
  lemma RestartMisplaces(s: NodeState, e: LogEntry, f: LogEntry)
    requires s.log == [e, f] && e.index == 1 && f.index == 2 && s.snapIndex == 0 && s.snapTerm == 0
    ensures var t := Restart(Persist(Compact(s, 1)));
      MyLastIndex(t) == 2 && EntryAt(t.log, t.snapIndex, 1) == Some(f) && EntryAt(t.log, t.snapIndex, 2) == None
  {
    KeepAfterIsSuffix(s.log, 0, 1);
    assert s.log[1..] == [f];
  }
}
