/** The ACK replay throttle of one message, over any sequence of attempts and any clock. */
module AckReplay {
  import opened Wrappers
  import opened Clock
  import opened Store

  /** ack_replay_count and last_ack_replayed_at. */
  datatype Columns = Columns(count: nat, last: Option<int>)

  predicate Grants(col: Columns, now: int) { ReplayAttempt(col.count, col.last, now).Allowed? }

  function After(col: Columns, now: int): Columns {
    if Grants(col, now) then Columns(ReplayCount(col.count, col.last, now), Some(Stored(now))) else col
  }

  /** The columns after a sequence of attempts on a fresh row; the clock may step backwards. */
  function Trace(times: seq<int>): Columns {
    if times == [] then Columns(0, None)
    else After(Trace(times[..|times| - 1]), times[|times| - 1])
  }

  /** The times at which a replay was allowed, in the order of the attempts. */
  function Granted(times: seq<int>): seq<int> {
    if times == [] then []
    else
      var before, now := times[..|times| - 1], times[|times| - 1];
      Granted(before) + if Grants(Trace(before), now) then [now] else []
  }

  /** Consecutive replays are two seconds apart by the stored time of the earlier one. */
  ghost predicate Spaced(granted: seq<int>) {
    forall i :: 0 <= i < |granted| - 1 ==> Stored(granted[i + 1]) >= Stored(granted[i]) + 2
  }

  /** A burst is opened at i: the replay before it is at least the window away. */
  ghost predicate Opens(granted: seq<int>, i: int) {
    0 <= i < |granted| && (i == 0 || Stored(granted[i]) >= Stored(granted[i - 1]) + 30)
  }

  /** The count is the length of the current burst, which is at most three long. */
  ghost predicate Explains(col: Columns, granted: seq<int>) {
    if granted == [] then col == Columns(0, None)
    else
      && col.last == Some(Stored(granted[|granted| - 1]))
      && 1 <= col.count <= ACK_REPLAY_MAX_COUNT
      && Opens(granted, |granted| - col.count)
  }

  /** Among any four replays in a row one opens a new burst. */
  ghost predicate BurstsOfThree(granted: seq<int>) {
    forall i :: 0 <= i < |granted| - 3 ==> Stored(granted[i + 3]) >= Stored(granted[i]) + 34
  }

  lemma GrantSpaces(col: Columns, granted: seq<int>, now: int)
    requires Explains(col, granted) && Spaced(granted) && Grants(col, now)
    ensures Spaced(granted + [now])
  {
    if granted != [] {
      assert Stored(now) >= Stored(granted[|granted| - 1]) + 2;
    }
  }

  /** A granted replay continues the current burst or opens a new one. */
  lemma GrantExplained(col: Columns, granted: seq<int>, now: int)
    requires Explains(col, granted) && Grants(col, now)
    ensures Explains(After(col, now), granted + [now])
  {
    var n, g := |granted|, granted + [now];
    if n > 0 {
      assert Opens(g, if now - col.last.value * SECOND >= ACK_REPLAY_WINDOW then n else n - col.count);
    }
  }

  lemma BurstOpensLate(g: seq<int>, count: nat)
    requires Spaced(g) && |g| >= 4 && 1 <= count <= ACK_REPLAY_MAX_COUNT && Opens(g, |g| - count)
    ensures Stored(g[|g| - 1]) >= Stored(g[|g| - 4]) + 34
  {
    var n := |g| - 1;
    assert Stored(g[n - 2]) >= Stored(g[n - 3]) + 2 && Stored(g[n - 1]) >= Stored(g[n - 2]) + 2;
    assert Stored(g[n]) >= Stored(g[n - 1]) + 2;
  }

  lemma GrantExtends(col: Columns, granted: seq<int>, now: int)
    requires Explains(col, granted) && Spaced(granted) && BurstsOfThree(granted) && Grants(col, now)
    ensures Explains(After(col, now), granted + [now]) && Spaced(granted + [now]) && BurstsOfThree(granted + [now])
  {
    var g := granted + [now];
    GrantSpaces(col, granted, now);
    GrantExplained(col, granted, now);
    if |granted| >= 3 {
      BurstOpensLate(g, After(col, now).count);
    }
    assert forall i :: 0 <= i < |granted| ==> g[i] == granted[i];
  }

  lemma {:induction false} TraceExplained(times: seq<int>)
    ensures Explains(Trace(times), Granted(times)) && Spaced(Granted(times)) && BurstsOfThree(Granted(times))
  {
    if times != [] {
      var before, now := times[..|times| - 1], times[|times| - 1];
      TraceExplained(before);
      if Grants(Trace(before), now) {
        GrantExtends(Trace(before), Granted(before), now);
      }
    }
  }

  /** Strictly forward in time, more than one second apart, and any four more than 33 seconds. */
  ghost predicate Throttled(g: seq<int>) {
    && (forall i :: 0 <= i < |g| - 1 ==> g[i + 1] - g[i] > SECOND)
    && (forall i :: 0 <= i < |g| - 3 ==> g[i + 3] - g[i] > 33 * SECOND)
  }

  /** Whatever the attempts and the clock, allowed replays are throttled in real time. */
  lemma ReplaysAreThrottled(times: seq<int>)
    ensures Throttled(Granted(times))
  {
    TraceExplained(times);
  }

  /** The same bounds in terms of the stored time are the documented two seconds and a window of at least thirty. */
  lemma ReplaysKeepStoredIntervals(times: seq<int>)
    ensures var g := Granted(times);
      && (forall i :: 0 <= i < |g| - 1 ==> g[i + 1] - Stored(g[i]) * SECOND >= ACK_REPLAY_MIN_INTERVAL)
      && (forall i :: 0 <= i < |g| - 3 ==> g[i + 3] - Stored(g[i]) * SECOND >= ACK_REPLAY_WINDOW + 2 * ACK_REPLAY_MIN_INTERVAL)
  {
    TraceExplained(times);
  }

  /** The bounds cannot be improved: truncation lets two replays pass one second and a microsecond apart, and four
      33 seconds and a microsecond apart. */
  lemma BoundsAreTight()
    ensures Granted([999_999, 2_000_000]) == [999_999, 2_000_000]
    ensures Granted([999_999, 2 * SECOND, 4 * SECOND, 34 * SECOND]) == [999_999, 2 * SECOND, 4 * SECOND, 34 * SECOND]
  {
    var a := [999_999, 2_000_000];
    assert a[..1] == [999_999] && a[..1][..0] == [];
    assert Trace([999_999]) == Columns(1, Some(0));
    var b := [999_999, 2 * SECOND, 4 * SECOND, 34 * SECOND];
    assert b[..3] == [999_999, 2 * SECOND, 4 * SECOND] && b[..3][..2] == [999_999, 2 * SECOND] && b[..3][..2][..1] == [999_999];
    assert [999_999][..0] == [];
    assert Trace([999_999]) == Columns(1, Some(0));
    assert Trace([999_999, 2 * SECOND]) == Columns(2, Some(2));
    assert Trace([999_999, 2 * SECOND, 4 * SECOND]) == Columns(3, Some(4));
    assert Granted([999_999]) == [999_999];
    assert Granted([999_999, 2 * SECOND]) == [999_999, 2 * SECOND];
    assert Granted([999_999, 2 * SECOND, 4 * SECOND]) == [999_999, 2 * SECOND, 4 * SECOND];
  }
}
