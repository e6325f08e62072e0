/** The ACK replay throttle over whole runs: no other transaction touches its columns. */
module ReplayRuns {
  import opened Wrappers
  import opened Clock
  import opened Selection
  import opened Responses
  import opened Store
  import opened System
  import opened Invariant
  import opened Preservation
  import opened Guarantees
  import opened AckReplay

  /** a asks the throttle of row id for a replay. */
  ghost predicate Asks(s: State, a: Action, id: nat) {
    a.Throttle? && s.callback.Throttling? && FindIdentity(s.Messages(), s.callback.identity) == Some(id)
  }

  /** The times at which a run asks, and those at which it is allowed to replay. */
  ghost function Attempts(c: Config, s: State, actions: seq<Action>, id: nat): seq<int>
    decreases |actions|
  {
    if actions == [] then []
    else
      var before, last := actions[..|actions| - 1], actions[|actions| - 1];
      Attempts(c, s, before, id) + if Asks(Run(c, s, before), last, id) then [last.now] else []
  }

  ghost function Replays(c: Config, s: State, actions: seq<Action>, id: nat): seq<int>
    decreases |actions|
  {
    if actions == [] then []
    else
      var before, last := actions[..|actions| - 1], actions[|actions| - 1];
      var s' := Run(c, s, before);
      Replays(c, s, before, id) + if Asks(s', last, id) && Apply(c, s', last).callback.Sending? then [last.now] else []
  }

  function ColumnsOf(m: Message): Columns { Columns(m.replayCount, m.lastReplayAt) }

  ghost predicate KeepsColumns(t: Tables, t': Tables, id: nat) {
    id in t.messages && id in t'.messages ==> ColumnsOf(t'.messages[id]) == ColumnsOf(t.messages[id])
  }

  lemma ReconciliationKeepsColumns(c: Config, s: State, id: nat)
    ensures KeepsColumns(s.books.tables, Reconcile(s.books, c.reconcileLimit, c.machineId).tables, id)
  {
    if c.reconcileLimit > 0 {
      ReconcileRowsKeepMessages(s.books, FirstIds(AwaitingIds(s.books.tables), c.reconcileLimit), c.machineId);
    }
  }

  lemma FailKeepsColumns(s: State, response: Option<Text>, floor: Option<int>, id: nat)
    requires s.worker.Submitting? && s.worker.id in s.Messages()
    ensures KeepsColumns(s.books.tables, Fail(s, response, floor).books.tables, id)
  {
  }

  lemma CompleteKeepsColumns(c: Config, s: State, response: Json, ack: string, now: int, id: nat)
    requires s.worker.Submitting? && s.worker.id in s.Messages()
    ensures KeepsColumns(s.books.tables, Complete(c, s, response, ack, now).books.tables, id)
  {
  }

  lemma FinishKeepsColumns(c: Config, s: State, outcome: Outcome, now: int, id: nat)
    ensures KeepsColumns(s.books.tables, OnFinish(c, s, outcome, now).books.tables, id)
  {
    if s.worker.Submitting? && s.worker.id in s.Messages() {
      match outcome
      case TimedOut => FailKeepsColumns(s, None, Some(c.maxRetries), id);
      case Error => FailKeepsColumns(s, None, None, id);
      case Response(value) =>
        match Judge(value)
        case Retryable => FailKeepsColumns(s, Some(Dumped(value)), None, id);
        case Final => FailKeepsColumns(s, Some(Dumped(value)), Some(c.maxRetries), id);
        case Success(ack) => CompleteKeepsColumns(c, s, value, ack, now, id);
    }
  }

  lemma ThrottleKeepsColumns(s: State, now: int, id: nat)
    requires !Asks(s, Throttle(now), id)
    ensures KeepsColumns(s.books.tables, OnThrottle(s, now).books.tables, id)
  {
  }

  /** Only the throttle step of the row itself changes the two columns. */
  lemma StepKeepsColumns(c: Config, s: State, a: Action, id: nat)
    requires RowsDistinct(s.books.tables) && !Asks(s, a, id)
    ensures KeepsColumns(s.books.tables, Apply(c, s, a).books.tables, id)
  {
    match a
    case Reconciliation => ReconciliationKeepsColumns(c, s, id);
    case Finish(outcome, now) => FinishKeepsColumns(c, s, outcome, now, id);
    case Throttle(now) => ThrottleKeepsColumns(s, now, id);
    case _ =>
  }

  /** And that step does what AckReplay says. */
  lemma AskGrants(s: State, now: int, id: nat)
    requires Asks(s, Throttle(now), id)
    ensures var s' := OnThrottle(s, now);
      && id in s.Messages() && id in s'.Messages()
      && (s'.callback.Sending? <==> Grants(ColumnsOf(s.Messages()[id]), now))
      && ColumnsOf(s'.Messages()[id]) == After(ColumnsOf(s.Messages()[id]), now)
  {
  }

  ghost predicate Follows(s: State, id: nat, attempts: seq<int>, replays: seq<int>) {
    && replays == Granted(attempts)
    && (id in s.Messages() ==> ColumnsOf(s.Messages()[id]) == Trace(attempts))
    && (id >= s.books.tables.nextMessage ==> attempts == [])
  }

  lemma AskFollows(s: State, now: int, id: nat, attempts: seq<int>, replays: seq<int>)
    requires RowsDistinct(s.books.tables) && Asks(s, Throttle(now), id) && Follows(s, id, attempts, replays)
    ensures Follows(OnThrottle(s, now), id, attempts + [now],
                    replays + if OnThrottle(s, now).callback.Sending? then [now] else [])
  {
    AskGrants(s, now, id);
    assert (attempts + [now])[..|attempts|] == attempts;
  }

  lemma OtherStepFollows(c: Config, s: State, a: Action, id: nat, attempts: seq<int>, replays: seq<int>)
    requires Inv(c, s) && !Asks(s, a, id) && Follows(s, id, attempts, replays)
    ensures Follows(Apply(c, s, a), id, attempts, replays)
  {
    StepKeepsColumns(c, s, a, id);
    EveryStepFollowsTheDiagram(c, s, a);
  }

  /** Over every run, the replays of a message are those that its throttle grants of its attempts. */
  lemma {:induction false} RunFollows(c: Config, s: State, actions: seq<Action>, id: nat)
    requires Inv(c, s) && (id in s.Messages() ==> ColumnsOf(s.Messages()[id]) == Columns(0, None))
    ensures Follows(Run(c, s, actions), id, Attempts(c, s, actions, id), Replays(c, s, actions, id))
    decreases |actions|
  {
    if actions != [] {
      var before, last := actions[..|actions| - 1], actions[|actions| - 1];
      RunFollows(c, s, before, id);
      RunKeeps(c, s, before);
      StepFollows(c, Run(c, s, before), last, id, Attempts(c, s, before, id), Replays(c, s, before, id));
    }
  }

  lemma StepFollows(c: Config, s: State, a: Action, id: nat, attempts: seq<int>, replays: seq<int>)
    requires Inv(c, s) && Follows(s, id, attempts, replays)
    ensures Follows(Apply(c, s, a), id, attempts + (if Asks(s, a, id) then [a.now] else []),
                    replays + (if Asks(s, a, id) && Apply(c, s, a).callback.Sending? then [a.now] else []))
  {
    if Asks(s, a, id) {
      AskFollows(s, a.now, id, attempts, replays);
    } else {
      OtherStepFollows(c, s, a, id, attempts, replays);
      assert attempts + [] == attempts && replays + [] == replays;
    }
  }

  /** So the throttle holds of the bridge: whatever else happens and whatever the clock does, the replays of one message go
      forward in time, more than a second apart, and any four of them span more than 33 seconds. */
  lemma {:induction false} ReplaysOfARunAreThrottled(c: Config, s: State, actions: seq<Action>, id: nat)
    requires Inv(c, s) && (id in s.Messages() ==> ColumnsOf(s.Messages()[id]) == Columns(0, None))
    ensures Throttled(Replays(c, s, actions, id))
  {
    RunFollows(c, s, actions, id);
    ReplaysAreThrottled(Attempts(c, s, actions, id));
  }
}
