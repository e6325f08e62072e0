/** The readiness debounce: a two-timer machine, and what it means over the whole history of checks. */
module Debounce {
  import opened Wrappers
  import opened Counting
  import opened Selection

  datatype ReadyState = Unknown | Ready | NotReady

  /** One readiness check, with the time it was made. */
  datatype Check = Check(success: bool, at: int)

  /** One attempt to publish {"BR": value}. */
  datatype Br = Br(value: int, at: int)

  datatype Delays = Delays(disconnect: int, recovery: int)

  datatype Monitor = Monitor(
    state: ReadyState, disconnectStartedAt: Option<int>, recoveryStartedAt: Option<int>, published: seq<Br>)

  const START := Monitor(Unknown, None, None, [])

  /** _confirm_state for a state that is really new. */
  function Confirmed(m: Monitor, state: ReadyState, value: int, now: int): Monitor {
    Monitor(state, None, None, m.published + [Br(value, now)])
  }

  /** _handle_success. */
  function OnSuccess(d: Delays, m: Monitor, now: int): Monitor {
    if m.state.Ready? then m.(disconnectStartedAt := None, recoveryStartedAt := None)
    else if m.recoveryStartedAt.None? then m.(disconnectStartedAt := None, recoveryStartedAt := Some(now))
    else if now - m.recoveryStartedAt.value >= d.recovery then Confirmed(m, Ready, 1, now)
    else m.(disconnectStartedAt := None)
  }

  /** _handle_failure. */
  function OnFailure(d: Delays, m: Monitor, now: int): Monitor {
    if m.state.Unknown? then Confirmed(m, NotReady, 0, now)
    else if m.state.NotReady? then m.(disconnectStartedAt := None, recoveryStartedAt := None)
    else if m.disconnectStartedAt.None? then m.(disconnectStartedAt := Some(now), recoveryStartedAt := None)
    else if now - m.disconnectStartedAt.value >= d.disconnect then Confirmed(m, NotReady, 0, now)
    else m.(recoveryStartedAt := None)
  }

  function Step(d: Delays, m: Monitor, c: Check): Monitor {
    if c.success then OnSuccess(d, m, c.at) else OnFailure(d, m, c.at)
  }

  function Watch(d: Delays, h: seq<Check>): Monitor {
    if h == [] then START else Step(d, Watch(d, h[..|h| - 1]), h[|h| - 1])
  }

  // ---------------------------------------------------------------------------------------------
  // Reference definition: the state as a property of the history, without timers

  /** Where the unbroken run of equal results ending at j began. */
  function RunStart(h: seq<Check>, j: nat): (i: nat)
    requires j < |h|
    ensures i <= j
    ensures forall k :: i <= k <= j ==> h[k].success == h[j].success
    ensures i > 0 ==> h[i - 1].success != h[j].success
  {
    if j == 0 || h[j - 1].success != h[j].success then j else RunStart(h, j - 1)
  }

  /** Check j is a later check of its run, at least delay after the first. */
  predicate Lasted(h: seq<Check>, j: nat, delay: int)
    requires j < |h|
  {
    RunStart(h, j) < j && h[j].at - h[RunStart(h, j)].at >= delay
  }

  predicate RecoveryAt(d: Delays, h: seq<Check>, j: nat) { j < |h| && h[j].success && Lasted(h, j, d.recovery) }

  predicate DisconnectAt(d: Delays, h: seq<Check>, j: nat) { j < |h| && !h[j].success && Lasted(h, j, d.disconnect) }

  ghost predicate QuietSince(d: Delays, h: seq<Check>, j: nat) { forall k: nat :: k > j ==> !DisconnectAt(d, h, k) }

  /** Some run of successes lasted the recovery delay, and since then no run of failures lasted the other. */
  ghost predicate IsReady(d: Delays, h: seq<Check>) { exists j: nat :: RecoveryAt(d, h, j) && QuietSince(d, h, j) }

  predicate AllSucceed(h: seq<Check>) { forall k :: 0 <= k < |h| ==> h[k].success }

  /** The first check of the run that the history ends in, if that run has the given result. */
  function TrailingRun(h: seq<Check>, success: bool): Option<int> {
    if h == [] || h[|h| - 1].success != success then None else Some(h[RunStart(h, |h| - 1)].at)
  }

  /** State and timers, as the history alone determines them. */
  ghost predicate Meets(d: Delays, m: Monitor, h: seq<Check>) {
    && (m.state.Ready? <==> IsReady(d, h))
    && (m.state.Unknown? <==> AllSucceed(h) && !IsReady(d, h))
    && m.recoveryStartedAt == (if m.state.Ready? then None else TrailingRun(h, true))
    && m.disconnectStartedAt == (if m.state.Ready? then TrailingRun(h, false) else None)
  }

  lemma {:induction false} RunStartOfPrefix(h: seq<Check>, c: Check, j: nat)
    requires j < |h|
    ensures RunStart(h + [c], j) == RunStart(h, j)
  {
    if j > 0 {
      RunStartOfPrefix(h, c, j - 1);
    }
  }

  lemma EventsOfPrefix(d: Delays, h: seq<Check>, c: Check)
    ensures forall j: nat :: j < |h| ==> (RecoveryAt(d, h + [c], j) <==> RecoveryAt(d, h, j))
    ensures forall j: nat :: j < |h| ==> (DisconnectAt(d, h + [c], j) <==> DisconnectAt(d, h, j))
  {
    forall j: nat | j < |h|
      ensures RunStart(h + [c], j) == RunStart(h, j)
    {
      RunStartOfPrefix(h, c, j);
    }
  }

  /** One more check makes the history ready, or stops it being so, exactly by an event at that check. */
  lemma ReadyAfter(d: Delays, h: seq<Check>, c: Check)
    ensures IsReady(d, h + [c]) <==>
            RecoveryAt(d, h + [c], |h|) || (IsReady(d, h) && !DisconnectAt(d, h + [c], |h|))
  {
    var h' := h + [c];
    EventsOfPrefix(d, h, c);
    if IsReady(d, h') {
      var j: nat :| RecoveryAt(d, h', j) && QuietSince(d, h', j);
      if j < |h| {
        assert RecoveryAt(d, h, j) && QuietSince(d, h, j);
      }
    }
    if RecoveryAt(d, h', |h|) {
      assert QuietSince(d, h', |h|);
    } else if IsReady(d, h) && !DisconnectAt(d, h', |h|) {
      var j: nat :| RecoveryAt(d, h, j) && QuietSince(d, h, j);
      assert RecoveryAt(d, h', j) && QuietSince(d, h', j);
    }
  }

  lemma LastRunStart(h: seq<Check>, c: Check)
    ensures RunStart(h + [c], |h|)
            == if h != [] && h[|h| - 1].success == c.success then RunStart(h, |h| - 1) else |h|
  {
    if h != [] {
      assert (h + [c])[|h| - 1] == h[|h| - 1];
      RunStartOfPrefix(h, c, |h| - 1);
    }
  }

  /** The run that one more check extends or starts. */
  lemma TrailingAfter(h: seq<Check>, c: Check)
    ensures TrailingRun(h + [c], !c.success).None?
    ensures TrailingRun(h + [c], c.success) == if TrailingRun(h, c.success).Some? then TrailingRun(h, c.success) else Some(c.at)
    ensures RunStart(h + [c], |h|) < |h| <==> TrailingRun(h, c.success).Some?
  {
    LastRunStart(h, c);
    assert (h + [c])[|h|] == c;
    var i := RunStart(h + [c], |h|);
    assert (h + [c])[i] == if i < |h| then h[i] else c;
  }

  lemma StepMeets(d: Delays, m: Monitor, h: seq<Check>, c: Check)
    requires Meets(d, m, h)
    ensures Meets(d, Step(d, m, c), h + [c])
  {
    ReadyAfter(d, h, c);
    TrailingAfter(h, c);
    assert AllSucceed(h + [c]) <==> AllSucceed(h) && c.success by {
      assert (h + [c])[|h|] == c;
      assert forall k :: 0 <= k < |h| ==> (h + [c])[k] == h[k];
    }
  }

  /** After any history the machine is READY exactly when some run of successes lasted the recovery delay and no run of
      failures has lasted the disconnect delay since, UNKNOWN exactly when it was never READY and never saw a failure;
      and its one timer is the time of the first check of the current run against the confirmed state. */
  lemma {:induction false} WatchMeetsHistory(d: Delays, h: seq<Check>)
    ensures Meets(d, Watch(d, h), h)
  {
    if h != [] {
      WatchMeetsHistory(d, h[..|h| - 1]);
      StepMeets(d, Watch(d, h[..|h| - 1]), h[..|h| - 1], h[|h| - 1]);
      assert h[..|h| - 1] + [h[|h| - 1]] == h;
    }
  }

  // ---------------------------------------------------------------------------------------------
  // What is published

  /** BR values alternate, and the last one tells the state. */
  ghost predicate Alternates(m: Monitor) {
    && (forall i :: 0 <= i < |m.published| ==> m.published[i].value in {0, 1})
    && (forall i :: 0 <= i < |m.published| - 1 ==> m.published[i + 1].value == 1 - m.published[i].value)
    && (m.published == [] <==> m.state.Unknown?)
    && (m.published != [] ==> m.published[|m.published| - 1].value == if m.state.Ready? then 1 else 0)
  }

  lemma {:induction false} PublishedAlternates(d: Delays, h: seq<Check>)
    ensures Alternates(Watch(d, h))
  {
    if h != [] {
      PublishedAlternates(d, h[..|h| - 1]);
    }
  }

  /** A check publishes exactly when it changes the confirmed state: 1 for READY, 0 otherwise, at the time of the check. */
  lemma PublishedWhenConfirmed(d: Delays, h: seq<Check>, c: Check)
    ensures var m, m' := Watch(d, h), Watch(d, h + [c]);
      m'.published == m.published + if m'.state == m.state then [] else [Br(if m'.state == Ready then 1 else 0, c.at)]
  {
    assert (h + [c])[..|h|] == h;
  }

  ghost predicate NonDecreasing(h: seq<Check>) {
    forall i, j :: 0 <= i <= j < |h| ==> h[i].at <= h[j].at
  }

  function DelayBefore(d: Delays, value: int): int { if value == 1 then d.recovery else d.disconnect }

  /** Each publication waits for its own delay after the one before it. */
  ghost predicate Paced(d: Delays, m: Monitor, now: int) {
    && (forall i :: 0 <= i < |m.published| - 1
                    ==> m.published[i + 1].at - m.published[i].at >= DelayBefore(d, m.published[i + 1].value))
    && (m.published != [] ==>
          var last := m.published[|m.published| - 1].at;
          && last <= now
          && (m.recoveryStartedAt.Some? ==> last <= m.recoveryStartedAt.value)
          && (m.disconnectStartedAt.Some? ==> last <= m.disconnectStartedAt.value))
  }

  lemma StepPaced(d: Delays, m: Monitor, c: Check, now: int)
    requires Alternates(m) && Paced(d, m, now) && now <= c.at
    ensures Paced(d, Step(d, m, c), c.at)
  {
  }

  lemma {:induction false} PublishedPaced(d: Delays, h: seq<Check>)
    requires h != [] && NonDecreasing(h)
    ensures Paced(d, Watch(d, h), h[|h| - 1].at)
  {
    var n := |h| - 1;
    if n == 0 {
      assert Watch(d, h[..0]) == START;
    } else {
      PublishedPaced(d, h[..n]);
      PublishedAlternates(d, h[..n]);
      StepPaced(d, Watch(d, h[..n]), h[n], h[n - 1].at);
    }
  }

  lemma {:induction false} TwoDelaysPerPair(d: Delays, m: Monitor, now: int, i: nat, j: nat)
    requires Alternates(m) && Paced(d, m, now) && d.disconnect >= 0 && d.recovery >= 0
    requires i <= j < |m.published|
    ensures m.published[j].at - m.published[i].at >= (j - i) / 2 * (d.disconnect + d.recovery)
    decreases j - i
  {
    var both := d.disconnect + d.recovery;
    if j - i >= 2 {
      PairSpansBothDelays(d, m, now, i);
      TwoDelaysPerPair(d, m, now, i + 2, j);
      assert (j - i) / 2 == (j - (i + 2)) / 2 + 1;
      assert ((j - (i + 2)) / 2 + 1) * both == (j - (i + 2)) / 2 * both + both;
    } else {
      assert (j - i) / 2 * both == 0;
      if i < j {
        assert m.published[i + 1].at - m.published[i].at >= DelayBefore(d, m.published[i + 1].value);
      }
    }
  }

  lemma PairSpansBothDelays(d: Delays, m: Monitor, now: int, i: nat)
    requires Alternates(m) && Paced(d, m, now) && i + 2 < |m.published|
    ensures m.published[i + 2].at - m.published[i].at >= d.disconnect + d.recovery
  {
    assert m.published[i + 1].value == 1 - m.published[i].value;
    assert m.published[i + 2].value == 1 - m.published[i + 1].value;
    assert m.published[i + 1].at - m.published[i].at >= DelayBefore(d, m.published[i + 1].value);
    assert m.published[i + 2].at - m.published[i + 1].at >= DelayBefore(d, m.published[i + 2].value);
  }

  /** n publications in a row span at least (n - 1) / 2 times both delays. */
  lemma PublishSpan(d: Delays, h: seq<Check>, i: nat, j: nat)
    requires NonDecreasing(h) && d.disconnect >= 0 && d.recovery >= 0
    requires i <= j < |Watch(d, h).published|
    ensures Watch(d, h).published[j].at - Watch(d, h).published[i].at >= (j - i) / 2 * (d.disconnect + d.recovery)
  {
    PublishedPaced(d, h);
    PublishedAlternates(d, h);
    TwoDelaysPerPair(d, Watch(d, h), h[|h| - 1].at, i, j);
  }

  /** The publications within an interval. */
  function Within(published: seq<Br>, from: int, length: int): set<nat> {
    set k: nat | k < |published| && from <= published[k].at <= from + length
  }

  lemma PairsFit(pairs: nat, both: int, length: nat)
    requires both > 0 && pairs * both <= length
    ensures pairs <= length / both
  {
    var whole := length / both;
    assert pairs >= whole + 1 ==> pairs * both >= (whole + 1) * both;
  }

  /** Rate limit: with a clock that does not step back, an interval of length L holds at most
      2 * floor(L / (disconnect + recovery)) + 2 publications. */
  lemma {:induction false} PublishRate(d: Delays, h: seq<Check>, from: int, length: nat)
    requires NonDecreasing(h) && d.disconnect >= 0 && d.recovery >= 0 && d.disconnect + d.recovery > 0
    ensures |Within(Watch(d, h).published, from, length)| <= 2 * (length / (d.disconnect + d.recovery)) + 2
  {
    var inside, both := Within(Watch(d, h).published, from, length), d.disconnect + d.recovery;
    if inside != {} {
      var first := Minimum(inside);
      var last := SomeGreatest(inside);
      PublishSpan(d, h, first, last);
      PairsFit((last - first) / 2, both, length);
      RangeCardinality(inside, first, last + 1);
    }
  }
}
