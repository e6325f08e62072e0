/** What retention cleanup deletes: how much per call, in how many calls, never too early, never anything unsafe. */
module Retention {
  import opened Clock
  import opened Selection
  import opened Counting
  import opened Store
  import opened Invariant

  /** The rows one could delete at this cutoff. */
  function Backlog(t: Tables, cutoff: int): nat {
    |ExpiredMessages(t, cutoff)| + |ExpiredCommands(t, cutoff)| + |ExpiredProduction(t, cutoff)|
  }

  function RowCount(t: Tables): nat { |t.messages| + |t.commands| + |t.production| }

  ghost function Cleaned(t: Tables, cutoff: int, batchSize: nat): Tables {
    Deleted(t, CleanupSelection(t, cutoff, batchSize))
  }

  ghost function CleanedTimes(t: Tables, cutoff: int, batchSize: nat, calls: nat): Tables
    decreases calls
  {
    if calls == 0 then t else CleanedTimes(Cleaned(t, cutoff, batchSize), cutoff, batchSize, calls - 1)
  }

  /** Truncation never acts early: only what is strictly older than the retention period expires,
      and what is older by a second always does. */
  lemma ExpiryIsNeverEarly(at: int, now: int, retentionDays: nat)
    ensures Stored(at) < Cutoff(now, retentionDays) ==> now - at > retentionDays * DAY
    ensures now - at >= retentionDays * DAY + SECOND ==> Stored(at) < Cutoff(now, retentionDays)
  {
  }

  lemma SelectionRemoves(eligible: set<nat>, ids: seq<nat>)
    requires Ascending(ids) && Elements(ids) <= eligible
    ensures |eligible - Elements(ids)| == |eligible| - |ids|
  {
    AscendingCardinality(ids);
  }

  lemma SelectedAreExpired(t: Tables, cutoff: int, batchSize: nat)
    ensures var d := CleanupSelection(t, cutoff, batchSize);
      && Ascending(d.messages) && Elements(d.messages) <= ExpiredMessages(t, cutoff)
      && Ascending(d.commands) && Elements(d.commands) <= ExpiredCommands(t, cutoff)
      && Ascending(d.production) && Elements(d.production) <= ExpiredProduction(t, cutoff)
  {
  }

  lemma RemainingMessages(t: Tables, cutoff: int, batchSize: nat)
    ensures ExpiredMessages(Cleaned(t, cutoff, batchSize), cutoff)
            == ExpiredMessages(t, cutoff) - Elements(CleanupSelection(t, cutoff, batchSize).messages)
  {
    var d, t' := CleanupSelection(t, cutoff, batchSize), Cleaned(t, cutoff, batchSize);
    forall i | i in ExpiredMessages(t, cutoff) && i !in d.messages
      ensures MessageExpired(t', i, cutoff)
    {
      assert |d.messages| == batchSize && d.production == [];
    }
  }

  lemma RemainingCommands(t: Tables, cutoff: int, batchSize: nat)
    ensures ExpiredCommands(Cleaned(t, cutoff, batchSize), cutoff)
            == ExpiredCommands(t, cutoff) - Elements(CleanupSelection(t, cutoff, batchSize).commands)
  {
  }

  lemma RemainingProduction(t: Tables, cutoff: int, batchSize: nat)
    ensures ExpiredProduction(Cleaned(t, cutoff, batchSize), cutoff)
            == ExpiredProduction(t, cutoff) - Elements(CleanupSelection(t, cutoff, batchSize).production)
  {
    var d, t' := CleanupSelection(t, cutoff, batchSize), Cleaned(t, cutoff, batchSize);
    forall x | x in ExpiredProduction(t, cutoff) && x !in d.production
      ensures x in ExpiredProduction(t', cutoff)
    {
      var i :| i in t.production && ProductionExpired(t.production[i], cutoff) && t.production[i].id == x;
      assert i in t'.production;
    }
  }

  /** A batch shared by three deletions in turn: what is left of each, and altogether. */
  lemma SharedBatch(m: nat, c: nat, p: nat, batchSize: nat, dm: nat, dc: nat, dp: nat)
    requires dm == (if m <= batchSize then m else batchSize)
    requires dc == (if c <= batchSize - dm then c else batchSize - dm)
    requires dp == (if p <= batchSize - dm - dc then p else batchSize - dm - dc)
    ensures dm + dc + dp == if m + c + p < batchSize then m + c + p else batchSize
  {
  }

  lemma SelectionSizes(t: Tables, cutoff: int, batchSize: nat)
    ensures var d := CleanupSelection(t, cutoff, batchSize);
            var m, c, p := |ExpiredMessages(t, cutoff)|, |ExpiredCommands(t, cutoff)|, |ExpiredProduction(t, cutoff)|;
      && |d.messages| == (if m <= batchSize then m else batchSize)
      && |d.commands| == (if c <= batchSize - |d.messages| then c else batchSize - |d.messages|)
      && |d.production| == (if p <= batchSize - |d.messages| - |d.commands| then p
                            else batchSize - |d.messages| - |d.commands|)
  {
  }

  lemma SelectionFillsTheBatch(t: Tables, cutoff: int, batchSize: nat)
    ensures CleanupSelection(t, cutoff, batchSize).Total()
            == if Backlog(t, cutoff) < batchSize then Backlog(t, cutoff) else batchSize
  {
    var d := CleanupSelection(t, cutoff, batchSize);
    SelectionSizes(t, cutoff, batchSize);
    SharedBatch(|ExpiredMessages(t, cutoff)|, |ExpiredCommands(t, cutoff)|, |ExpiredProduction(t, cutoff)|,
                batchSize, |d.messages|, |d.commands|, |d.production|);
  }

  lemma BacklogAfterDeletion(t: Tables, cutoff: int, batchSize: nat)
    ensures Backlog(Cleaned(t, cutoff, batchSize), cutoff)
            == Backlog(t, cutoff) - CleanupSelection(t, cutoff, batchSize).Total()
  {
    var d := CleanupSelection(t, cutoff, batchSize);
    RemainingMessages(t, cutoff, batchSize);
    RemainingCommands(t, cutoff, batchSize);
    RemainingProduction(t, cutoff, batchSize);
    SelectedAreExpired(t, cutoff, batchSize);
    SelectionRemoves(ExpiredMessages(t, cutoff), d.messages);
    SelectionRemoves(ExpiredCommands(t, cutoff), d.commands);
    SelectionRemoves(ExpiredProduction(t, cutoff), d.production);
  }

  /** One call takes exactly min(batch_size, eligible) off the backlog. */
  lemma BacklogShrinks(t: Tables, cutoff: int, batchSize: nat)
    ensures Backlog(Cleaned(t, cutoff, batchSize), cutoff)
            == Truncated(Backlog(t, cutoff) - batchSize)
  {
    BacklogAfterDeletion(t, cutoff, batchSize);
    SelectionFillsTheBatch(t, cutoff, batchSize);
  }

  /** Repeated calls at one cutoff drain the backlog in exactly ceil(eligible / batch_size) calls. */
  lemma {:induction false} CleanupDrains(t: Tables, cutoff: int, batchSize: nat, calls: nat)
    ensures Backlog(CleanedTimes(t, cutoff, batchSize, calls), cutoff)
            == Truncated(Backlog(t, cutoff) - calls * batchSize)
    decreases calls
  {
    if calls > 0 {
      var t' := Cleaned(t, cutoff, batchSize);
      BacklogShrinks(t, cutoff, batchSize);
      CleanupDrains(t', cutoff, batchSize, calls - 1);
      OneMoreCall(Backlog(t, cutoff), calls - 1, batchSize);
    }
  }

  function RowsWithId(t: Tables, ids: seq<nat>): set<nat> {
    set i | i in t.production && t.production[i].id in ids
  }

  ghost predicate HasRow(t: Tables, productionId: nat) {
    exists i :: i in t.production && t.production[i].id == productionId
  }

  /** Production ids are unique, so one more id is one more row. */
  lemma OneMoreRow(t: Tables, ids: seq<nat>, x: nat)
    requires ProductionDistinct(t) && x !in ids && HasRow(t, x)
    ensures |RowsWithId(t, ids + [x])| == |RowsWithId(t, ids)| + 1
  {
    var i :| i in t.production && t.production[i].id == x;
    assert i !in RowsWithId(t, ids);
    forall j
      ensures j in RowsWithId(t, ids + [x]) <==> j in RowsWithId(t, ids) + {i}
    {
      assert j in t.production && t.production[j].id == x ==> j == i;
    }
    assert RowsWithId(t, ids + [x]) == RowsWithId(t, ids) + {i};
  }

  /** Deleting n ids deletes n rows. */
  lemma {:induction false} OneRowPerProductionId(t: Tables, ids: seq<nat>)
    requires ProductionDistinct(t) && Ascending(ids)
    requires forall x :: x in ids ==> HasRow(t, x)
    ensures |RowsWithId(t, ids)| == |ids|
  {
    if ids == [] {
      assert RowsWithId(t, ids) == {};
    } else {
      var n := |ids| - 1;
      assert ids == ids[..n] + [ids[n]];
      OneRowPerProductionId(t, ids[..n]);
      OneMoreRow(t, ids[..n], ids[n]);
    }
  }

  lemma KeysRemoved(rows: set<nat>, gone: set<nat>)
    requires gone <= rows
    ensures |rows - gone| == |rows| - |gone|
  {
  }

  lemma DeletedKeys(t: Tables, cutoff: int, batchSize: nat)
    ensures var d, t' := CleanupSelection(t, cutoff, batchSize), Cleaned(t, cutoff, batchSize);
      && t'.messages.Keys == t.messages.Keys - Elements(d.messages) && Elements(d.messages) <= t.messages.Keys
      && t'.commands.Keys == t.commands.Keys - Elements(d.commands) && Elements(d.commands) <= t.commands.Keys
      && t'.production.Keys == t.production.Keys - RowsWithId(t, d.production)
      && forall x :: x in d.production ==> HasRow(t, x)
  {
    SelectedAreExpired(t, cutoff, batchSize);
    forall x | x in ExpiredProduction(t, cutoff)
      ensures HasRow(t, x)
    {
    }
  }

  /** One call deletes exactly min(batch_size, eligible) rows of the three tables. */
  lemma CleanupDeletesExactly(t: Tables, cutoff: int, batchSize: nat)
    requires ProductionDistinct(t)
    ensures RowCount(Cleaned(t, cutoff, batchSize))
            == RowCount(t) - if Backlog(t, cutoff) < batchSize then Backlog(t, cutoff) else batchSize
  {
    var d, t' := CleanupSelection(t, cutoff, batchSize), Cleaned(t, cutoff, batchSize);
    SelectionFillsTheBatch(t, cutoff, batchSize);
    AscendingCardinality(d.messages);
    AscendingCardinality(d.commands);
    DeletedKeys(t, cutoff, batchSize);
    OneRowPerProductionId(t, d.production);
    KeysRemoved(t.messages.Keys, Elements(d.messages));
    KeysRemoved(t.commands.Keys, Elements(d.commands));
    KeysRemoved(t.production.Keys, RowsWithId(t, d.production));
    assert |t'.messages| == |t'.messages.Keys| && |t'.commands| == |t'.commands.Keys|;
    assert |t'.production| == |t'.production.Keys|;
  }

  /** Cleanup never removes a queued or failed message, an unsummarised production row, a command still being
      processed, or any summary, and it changes no row that it keeps. */
  lemma CleanupIsSafe(t: Tables, cutoff: int, batchSize: nat)
    ensures var t' := Cleaned(t, cutoff, batchSize);
      && t'.summaries == t.summaries
      && (forall i :: i in t.messages && !MessageExpired(t, i, cutoff)
                      ==> i in t'.messages && t'.messages[i] == t.messages[i])
      && (forall i :: i in t.commands && !CommandExpired(t.commands[i], cutoff)
                      ==> i in t'.commands && t'.commands[i] == t.commands[i])
      && (ProductionDistinct(t) ==>
            forall i :: i in t.production && !ProductionExpired(t.production[i], cutoff)
                        ==> i in t'.production && t'.production[i] == t.production[i])
  {
    var d := CleanupSelection(t, cutoff, batchSize);
    assert forall x :: x in d.production ==> x in ExpiredProduction(t, cutoff);
  }
}
