/** Runs of the state machine, with the share that the worker and the MQTT thread have in them. */
module Chronicles {
  import opened Wrappers
  import opened Responses
  import opened System
  import opened Invariant

  /** The steps that belong to the worker thread, and those that belong to the MQTT thread. */
  predicate WorkerStep(a: Action) { a.Claim? || a.Begin? || a.Finish? || a.Acknowledge? || a.Abandon? || a.Crash? }

  predicate CallbackStep(a: Action) { a.Receive? || a.LookUp? || a.Throttle? || a.Replay? || a.Crash? }

  /** What the worker has done so far. */
  function WorkerSteps(trace: seq<Action>): seq<Action> {
    if trace == [] then []
    else
      var last := trace[|trace| - 1];
      WorkerSteps(trace[..|trace| - 1]) + if WorkerStep(last) then [last] else []
  }

  /** What the MQTT thread has done so far. */
  function CallbackSteps(trace: seq<Action>): seq<Action> {
    if trace == [] then []
    else
      var last := trace[|trace| - 1];
      CallbackSteps(trace[..|trace| - 1]) + if CallbackStep(last) then [last] else []
  }

  /** How each unsuccessful outcome is stored: what response, and whether it may be retried. */
  predicate StoredAs(outcome: Outcome, response: Option<Text>, retryable: bool) {
    match outcome
    case TimedOut => response.None? && !retryable
    case Error => response.None? && retryable
    case Response(value) => response == Some(Dumped(value)) && Judge(value) == if retryable then Retryable else Final
  }

  lemma FinishFails(c: Config, s: State, outcome: Outcome, response: Option<Text>, retryable: bool, now: int)
    requires s.worker.Submitting? && s.worker.id in s.Messages() && StoredAs(outcome, response, retryable)
    ensures var s' := Fail(s, response, if retryable then None else Some(c.maxRetries));
      Apply(c, s, Finish(outcome, now)) == s' && OnFinish(c, s, outcome, now) == s'
  {
    FinishIsOnFinish(c, s, outcome, now);
    OnFinishFails(c, s, outcome, response, retryable, now);
  }

  lemma OnFinishFails(c: Config, s: State, outcome: Outcome, response: Option<Text>, retryable: bool, now: int)
    requires s.worker.Submitting? && s.worker.id in s.Messages() && StoredAs(outcome, response, retryable)
    ensures OnFinish(c, s, outcome, now) == Fail(s, response, if retryable then None else Some(c.maxRetries))
  {
  }

  lemma FinishCompletes(c: Config, s: State, value: Json, ack: string, now: int)
    requires s.worker.Submitting? && s.worker.id in s.Messages() && Judge(value) == Success(ack)
    ensures OnFinish(c, s, Response(value), now) == Complete(c, s, value, ack, now)
    ensures Apply(c, s, Finish(Response(value), now)) == Complete(c, s, value, ack, now)
  {
    FinishIsOnFinish(c, s, Response(value), now);
  }

  predicate Succeeds(outcome: Outcome) { outcome.Response? && Judge(outcome.value).Success? }

  /** One commit of the outcome of a submission, and an ACK only after a committed success. */
  function SettlingSteps(outcome: Outcome, finishedAt: int): seq<Action> {
    [Finish(outcome, finishedAt)] + if Succeeds(outcome) then [Acknowledge] else []
  }

  /** What happened to one record of a batch. */
  datatype Turn = Turn(submitted: bool, startedAt: int, outcome: Outcome, finishedAt: int)

  /** A record is not submitted when its payload is invalid. */
  function ProcessingSteps(turn: Turn): seq<Action> {
    [Begin(turn.startedAt)] + if turn.submitted then SettlingSteps(turn.outcome, turn.finishedAt) else []
  }

  function BatchSteps(turns: seq<Turn>): seq<Action> {
    if turns == [] then []
    else
      var n := |turns| - 1;
      BatchSteps(turns[..n]) + ProcessingSteps(turns[n])
  }

  lemma BatchGrows(turns: seq<Turn>, turn: Turn)
    ensures BatchSteps(turns + [turn]) == BatchSteps(turns) + ProcessingSteps(turn)
  {
    assert (turns + [turn])[..|turns|] == turns;
  }

  /** A claim, each processed record in turn, and the rest abandoned. */
  function RoundSteps(claimedAt: int, turns: seq<Turn>, stopped: bool): seq<Action> {
    [Claim(claimedAt)] + BatchSteps(turns) + if stopped then [Abandon] else []
  }

  ghost predicate Answered(records: seq<nat>, turns: seq<Turn>, odoo: nat -> Outcome) {
    |turns| <= |records| && forall k :: 0 <= k < |turns| ==> turns[k].outcome == odoo(records[k])
  }

  predicate Same(t: seq<Action>, trace: seq<Action>) { t == trace }

  /** trace leads from start-up to s, and consists of the given steps of the worker and of the MQTT thread and of steps of
      other threads. Being quantified, the run is looked into only by the lemmas below. */
  ghost predicate Chronicle(c: Config, origin: State, trace: seq<Action>, s: State, work: seq<Action>, handled: seq<Action>) {
    forall t :: Same(t, trace) ==>
      Init(origin) && s == Run(c, origin, t) && work == WorkerSteps(t) && handled == CallbackSteps(t)
  }

  lemma ChronicleMeans(c: Config, origin: State, trace: seq<Action>, s: State, work: seq<Action>, handled: seq<Action>)
    requires Chronicle(c, origin, trace, s, work, handled)
    ensures Init(origin) && s == Run(c, origin, trace) && work == WorkerSteps(trace) && handled == CallbackSteps(trace)
  {
    assert Same(trace, trace);
  }

  lemma ChronicleBegins(c: Config, origin: State)
    requires Init(origin)
    ensures Chronicle(c, origin, [], origin, [], [])
  {
  }

  lemma ChronicleOf(c: Config, origin: State, trace: seq<Action>, s: State, work: seq<Action>, handled: seq<Action>)
    requires Init(origin) && s == Run(c, origin, trace) && work == WorkerSteps(trace) && handled == CallbackSteps(trace)
    ensures Chronicle(c, origin, trace, s, work, handled)
  {
  }

  lemma StepsGrow(trace: seq<Action>, a: Action)
    ensures (trace + [a])[..|trace|] == trace
    ensures WorkerSteps(trace + [a]) == WorkerSteps(trace) + if WorkerStep(a) then [a] else []
    ensures CallbackSteps(trace + [a]) == CallbackSteps(trace) + if CallbackStep(a) then [a] else []
  {
    assert (trace + [a])[..|trace|] == trace;
  }

  lemma ChronicleGrows(c: Config, origin: State, trace: seq<Action>, s: State,
                       work: seq<Action>, handled: seq<Action>, a: Action)
    requires Chronicle(c, origin, trace, s, work, handled)
    ensures Chronicle(c, origin, trace + [a], Apply(c, s, a),
                      work + (if WorkerStep(a) then [a] else []), handled + (if CallbackStep(a) then [a] else []))
  {
    ChronicleMeans(c, origin, trace, s, work, handled);
    StepsGrow(trace, a);
    ChronicleOf(c, origin, trace + [a], Apply(c, s, a),
                work + (if WorkerStep(a) then [a] else []), handled + (if CallbackStep(a) then [a] else []));
  }
}
