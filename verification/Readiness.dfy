/** The readiness monitor as the object it is: fields updated by each check, proved against the history machine. */
module Readiness {
  import opened Wrappers
  import opened Debounce

  /** The time of the latest check with a given result. */
  function LatestCheck(h: seq<Check>, success: bool): Option<int> {
    if h == [] then None
    else if h[|h| - 1].success == success then Some(h[|h| - 1].at)
    else LatestCheck(h[..|h| - 1], success)
  }

  /** The latest publication that the broker accepted. */
  function LatestDelivery(published: seq<Br>, accepted: seq<bool>): Option<int>
    requires |published| == |accepted|
  {
    if published == [] then None
    else if accepted[|accepted| - 1] then Some(published[|published| - 1].at)
    else LatestDelivery(published[..|published| - 1], accepted[..|accepted| - 1])
  }

  class ReadinessMonitor {
    const enabled: bool
    const delays: Delays

    // ReadinessRuntimeState
    var state: ReadyState
    var disconnectStartedAt: Option<int>
    var recoveryStartedAt: Option<int>
    var lastCheckAt: Option<int>
    var lastSuccessAt: Option<int>
    var lastFailureAt: Option<int>
    var lastPublishedAt: Option<int>
    var lastError: Option<string>

    ghost var checks: seq<Check>         // every check made so far
    ghost var published: seq<Br>         // every call of the publisher
    ghost var accepted: seq<bool>        // and whether the broker took it

    ghost function View(): Monitor
      reads this
    {
      Monitor(state, disconnectStartedAt, recoveryStartedAt, published)
    }

    ghost predicate Delivered()
      reads this
    {
      |published| == |accepted| && lastPublishedAt == LatestDelivery(published, accepted)
    }

    /** Every field is a function of the history. */
    ghost predicate Valid()
      reads this
    {
      && View() == Watch(delays, checks)
      && lastSuccessAt == LatestCheck(checks, true)
      && lastFailureAt == LatestCheck(checks, false)
      && lastCheckAt == (if checks == [] then None else Some(checks[|checks| - 1].at))
      && Delivered()
    }

    /** What validity amounts to, said of the checks alone. */
    lemma ValidMeetsHistory()
      requires Valid()
      ensures Meets(delays, View(), checks) && Alternates(View())
    {
      WatchMeetsHistory(delays, checks);
      PublishedAlternates(delays, checks);
    }

    constructor (enabled: bool, delays: Delays)
      ensures Valid() && checks == [] && this.enabled == enabled && this.delays == delays
    {
      this.enabled, this.delays := enabled, delays;
      state := Unknown;
      disconnectStartedAt, recoveryStartedAt := None, None;
      lastCheckAt, lastSuccessAt, lastFailureAt, lastPublishedAt, lastError := None, None, None, None, None;
      checks, published, accepted := [], [], [];
    }

    method PublishBr(value: int, now: int, taken: bool)
      requires Delivered()
      modifies this`published, this`accepted, this`lastPublishedAt
      ensures Delivered() && published == old(published) + [Br(value, now)]
    {
      published, accepted := published + [Br(value, now)], accepted + [taken];
      assert published[..|published| - 1] == old(published) && accepted[..|accepted| - 1] == old(accepted);
      if taken {
        lastPublishedAt := Some(now);
      }
    }

    method ConfirmState(next: ReadyState, value: int, now: int, taken: bool)
      requires Delivered()
      modifies this`state, this`disconnectStartedAt, this`recoveryStartedAt
      modifies this`published, this`accepted, this`lastPublishedAt
      ensures Delivered()
      ensures View() == if old(state) == next then old(View()) else Confirmed(old(View()), next, value, now)
    {
      if state == next {
        return;
      }
      state := next;
      disconnectStartedAt := None;
      recoveryStartedAt := None;
      PublishBr(value, now, taken);
    }

    method HandleSuccess(now: int, taken: bool)
      requires Delivered()
      modifies this`state, this`disconnectStartedAt, this`recoveryStartedAt
      modifies this`published, this`accepted, this`lastPublishedAt
      ensures Delivered()
      ensures View() == OnSuccess(delays, old(View()), now)
    {
      if state == Ready {
        disconnectStartedAt := None;
        recoveryStartedAt := None;
        return;
      }
      disconnectStartedAt := None;
      if recoveryStartedAt.None? {
        recoveryStartedAt := Some(now);
        return;
      }
      var elapsed := now - recoveryStartedAt.value;
      if elapsed >= delays.recovery {
        ConfirmState(Ready, 1, now, taken);
      }
    }

    method HandleFailure(now: int, taken: bool)
      requires Delivered()
      modifies this`state, this`disconnectStartedAt, this`recoveryStartedAt
      modifies this`published, this`accepted, this`lastPublishedAt
      ensures Delivered()
      ensures View() == OnFailure(delays, old(View()), now)
    {
      recoveryStartedAt := None;
      if state == Unknown {
        ConfirmState(NotReady, 0, now, taken);
        return;
      }
      if state == NotReady {
        disconnectStartedAt := None;
        return;
      }
      if disconnectStartedAt.None? {
        disconnectStartedAt := Some(now);
        return;
      }
      var elapsed := now - disconnectStartedAt.value;
      if elapsed >= delays.disconnect {
        ConfirmState(NotReady, 0, now, taken);
      }
    }

    method RecordCheck(success: bool, now: int, error: Option<string>)
      modifies this`lastCheckAt, this`lastError, this`lastSuccessAt, this`lastFailureAt
      ensures lastCheckAt == Some(now) && lastError == error
      ensures lastSuccessAt == if success then Some(now) else old(lastSuccessAt)
      ensures lastFailureAt == if success then old(lastFailureAt) else Some(now)
    {
      lastCheckAt := Some(now);
      lastError := error;
      if success {
        lastSuccessAt := Some(now);
      } else {
        lastFailureAt := Some(now);
      }
    }

    /** One check. result is what the readiness probe returned; None is an exception, which counts as a failure.
        taken is whether the broker would accept a publication now. */
    method RunCheckOnce(result: Option<bool>, error: string, now: int, taken: bool) returns (success: bool)
      requires Valid()
      modifies this
      ensures Valid()
      ensures !enabled ==> unchanged(this)
      ensures success <==> enabled && result == Some(true)
      ensures checks == old(checks) + if enabled then [Check(success, now)] else []
      ensures Meets(delays, View(), checks) && Alternates(View())
      ensures enabled ==> lastError == if result.None? then Some(error) else None
    {
      success := enabled && result == Some(true);
      if enabled {
        RecordCheck(success, now, if result.None? then Some(error) else None);
        if success {
          HandleSuccess(now, taken);
        } else {
          HandleFailure(now, taken);
        }
        WatchAppend(delays, checks, Check(success, now));
        checks := checks + [Check(success, now)];
      }
      ValidMeetsHistory();
    }
  }

  lemma WatchAppend(d: Delays, h: seq<Check>, c: Check)
    ensures Watch(d, h + [c]) == Step(d, Watch(d, h), c)
    ensures LatestCheck(h + [c], c.success) == Some(c.at)
    ensures LatestCheck(h + [c], !c.success) == LatestCheck(h, !c.success)
  {
    assert (h + [c])[..|h|] == h;
  }
}
