/** Index arithmetic over the log array and the follower's append loop
    (src/cluster/raft_core.c, last_log_index to term_at_index and raft_handle_append_entries).
    The array holds the entries after `snapIndex`, the last index covered by a snapshot. */
module RaftLog {

  import opened RaftTypes

  function LastIndex(log: Log, snapIndex: nat): nat {
    if |log| == 0 then snapIndex else log[|log| - 1].index
  }

  function LastTerm(log: Log, snapTerm: nat): nat {
    if |log| == 0 then snapTerm else log[|log| - 1].term
  }

  function EntryAt(log: Log, snapIndex: nat, index: nat): Option<LogEntry> {
    if index <= snapIndex then None
    else if index - snapIndex - 1 >= |log| then None
    else Some(log[index - snapIndex - 1])
  }

  // 0 also stands for "no such entry".
  function TermAt(log: Log, snapIndex: nat, snapTerm: nat, index: nat): nat {
    if index == 0 then 0
    else if index == snapIndex then snapTerm
    else
      match EntryAt(log, snapIndex, index)
      case None => 0
      case Some(e) => e.term
  }

  // Entries sit where EntryAt looks for them: indices are gap-free after the snapshot.
  ghost predicate WellIndexed(log: Log, snapIndex: nat) {
    forall k :: 0 <= k < |log| ==> log[k].index == snapIndex + 1 + k
  }

  lemma LastIsEnd(log: Log, snapIndex: nat)
    requires WellIndexed(log, snapIndex)
    ensures LastIndex(log, snapIndex) == snapIndex + |log|
  {
  }

  /** One pass of the append loop: drop a conflicting suffix, then append if absent. */
  function AppendOne(log: Log, snapIndex: nat, e: LogEntry): Log {
    var present := EntryAt(log, snapIndex, e.index);
    var kept := if present.Some? && present.value.term != e.term then log[..e.index - snapIndex - 1] else log;
    if EntryAt(kept, snapIndex, e.index).None? then kept + [e] else kept
  }

  function AppendAll(log: Log, snapIndex: nat, batch: Log): Log {
    if batch == [] then log
    else AppendOne(AppendAll(log, snapIndex, batch[..|batch| - 1]), snapIndex, batch[|batch| - 1])
  }

  lemma AppendNothing(log: Log, snapIndex: nat)
    ensures AppendAll(log, snapIndex, []) == log
  {
  }

  /** How many leading entries of batch have the same term as the log from position `at` on. */
  function Agreement(log: Log, at: nat, batch: Log): (k: nat)
    requires at <= |log|
    ensures k <= |batch| && at + k <= |log|
    ensures forall j :: 0 <= j < k ==> log[at + j].term == batch[j].term
    ensures k < |batch| && at + k < |log| ==> log[at + k].term != batch[k].term
    decreases |batch|
  {
    if batch == [] || at == |log| || log[at].term != batch[0].term then 0
    else
      assert forall j :: 1 <= j < |batch| ==> batch[j] == batch[1..][j - 1];
      1 + Agreement(log, at + 1, batch[1..])
  }

  /** The one-shot reading of section 5.3: keep the log if it already has the whole batch,
      otherwise cut it where the batch first differs and take the rest of the batch. */
  function Splice(log: Log, at: nat, batch: Log): Log
    requires at <= |log|
  {
    var k := Agreement(log, at, batch);
    if k == |batch| then log else log[..at + k] + batch[k..]
  }

  // A batch as leaders cut it: consecutive indices starting right after position `at`.
  ghost predicate Contiguous(batch: Log, snapIndex: nat, at: nat) {
    forall k :: 0 <= k < |batch| ==> batch[k].index == snapIndex + at + 1 + k
  }

  lemma AgreementUnique(log: Log, at: nat, batch: Log, k: nat)
    requires at <= |log|
    requires k <= |batch| && at + k <= |log|
    requires forall j :: 0 <= j < k ==> log[at + j].term == batch[j].term
    requires k < |batch| && at + k < |log| ==> log[at + k].term != batch[k].term
    ensures Agreement(log, at, batch) == k
  {
  }

  /** Splicing one more entry is one more pass of the loop. */
  lemma SpliceExtends(log: Log, snapIndex: nat, at: nat, init: Log, e: LogEntry)
    requires at <= |log|
    requires e.index == snapIndex + at + |init| + 1
    ensures AppendOne(Splice(log, at, init), snapIndex, e) == Splice(log, at, init + [e])
  {
    hide Agreement;
    var n, k := |init|, Agreement(log, at, init);
    var batch := init + [e];
    if k < n {
      AgreementUnique(log, at, batch, k);
      assert log[..at + k] + batch[k..] == log[..at + k] + init[k..] + [e];
    } else if at + n < |log| && log[at + n].term == e.term {
      AgreementUnique(log, at, batch, n + 1);
    } else {
      AgreementUnique(log, at, batch, n);
      assert batch[n..] == [e];
      assert at + n == |log| ==> log[..at + n] == log;
    }
  }

  /** The append loop refines the one-shot splice on every contiguous batch that starts at or
      below the end of the log and above the snapshot. */
  lemma {:induction false} AppendAllIsSplice(log: Log, snapIndex: nat, at: nat, batch: Log)
    requires at <= |log|
    requires Contiguous(batch, snapIndex, at)
    ensures AppendAll(log, snapIndex, batch) == Splice(log, at, batch)
  {
    if batch != [] {
      var init, e := batch[..|batch| - 1], batch[|batch| - 1];
      AppendAllIsSplice(log, snapIndex, at, init);
      SpliceExtends(log, snapIndex, at, init, e);
      assert init + [e] == batch;
    }
  }

  /** Above the end of the log the loop finds nothing and appends every entry, gap or not. */
  lemma {:induction false} AppendAllBeyond(log: Log, snapIndex: nat, at: nat, batch: Log)
    requires at > |log| && Contiguous(batch, snapIndex, at)
    ensures AppendAll(log, snapIndex, batch) == log + batch
  {
    if batch != [] {
      var init, e := batch[..|batch| - 1], batch[|batch| - 1];
      AppendAllBeyond(log, snapIndex, at, init);
      assert AppendOne(log + init, snapIndex, e) == log + init + [e];
      assert log + init + [e] == log + batch;
    }
  }

  lemma SpliceKeepsIndices(log: Log, snapIndex: nat, at: nat, batch: Log)
    requires at <= |log|
    requires WellIndexed(log, snapIndex) && Contiguous(batch, snapIndex, at)
    ensures WellIndexed(Splice(log, at, batch), snapIndex)
    ensures at + |batch| <= |Splice(log, at, batch)|
    ensures Splice(log, at, batch)[..at] == log[..at]
  {
  }

  /** Redelivering a batch changes nothing. */
  lemma SpliceIdempotent(log: Log, at: nat, batch: Log)
    requires at <= |log|
    ensures at <= |Splice(log, at, batch)|
    ensures Splice(Splice(log, at, batch), at, batch) == Splice(log, at, batch)
  {
    AgreementUnique(Splice(log, at, batch), at, batch, |batch|);
  }

  /** Whatever slice of the leader's log arrives, and however late, a follower never loses a
      prefix it already shares with that log. */
  lemma SpliceKeepsShared(log: Log, leader: Log, at: nat, n: nat, shared: nat)
    requires at <= |log| && at + n <= |leader|
    requires shared <= |log| && shared <= |leader| && log[..shared] == leader[..shared]
    ensures shared <= |Splice(log, at, leader[at..at + n])|
    ensures Splice(log, at, leader[at..at + n])[..shared] == leader[..shared]
  {
    var batch := leader[at..at + n];
    var k := Agreement(log, at, batch);
    assert forall j :: 0 <= j < shared ==> log[j] == log[..shared][j] == leader[..shared][j] == leader[j];
    assert k < n ==> batch[k] == leader[at + k];
    if k < n {
      assert (log[..at + k] + batch[k..])[..shared] == leader[..shared];
    }
  }

  /** The result of splicing a slice of the leader's log onto a log that agrees with it up to
      the anchor: either the old log, or exactly the leader's log up to the end of the slice. */
  lemma SpliceOutcome(log: Log, leader: Log, at: nat, n: nat)
    requires at <= |log| && at + n <= |leader|
    requires log[..at] == leader[..at]
    requires forall j :: at <= j < at + n && j < |log| && log[j].term == leader[j].term
                         ==> log[..j + 1] == leader[..j + 1]
    ensures var r := Splice(log, at, leader[at..at + n]);
            at + n <= |r| && r[..at + n] == leader[..at + n] && (r == log || r == leader[..at + n])
  {
    hide Agreement;
    var batch := leader[at..at + n];
    var k := Agreement(log, at, batch);
    assert log[..at + k] == leader[..at + k] by {
      if k > 0 {
        assert log[at + (k - 1)].term == batch[k - 1].term == leader[at + k - 1].term;
      }
    }
    if k < n {
      assert log[..at + k] + batch[k..] == leader[..at + n];
    }
  }
}
