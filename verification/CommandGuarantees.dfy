/** What the HTTP command handler promises over every run: at most one publication per idempotency key and period,
    and answers that never change once stored. */
module CommandGuarantees {
  import opened Wrappers
  import opened Clock
  import opened Responses
  import opened Store
  import opened CommandApi
  import opened CommandSafety

  // ---------------------------------------------------------------------------------------------
  // Publications

  lemma InitEstablishes(c: Config, s: State)
    requires Init(s)
    ensures Inv(c, s)
  {
  }

  /** The retention period in microseconds. */
  function Retention(c: Config): int { c.retentionDays * DAY }

  /** In every interleaving a request publishes at most once, and when a key is published again, the highest clock reading
      so far is further than the retention period from when the earlier request was received. */
  lemma PublicationsAreApart(c: Config, s: State, actions: seq<Action>, j: nat, k: nat)
    requires Init(s)
    requires j < k < |Run(c, s, actions).log|
    ensures var p, q := Run(c, s, actions).log[j], Run(c, s, actions).log[k];
      && p.requestId != q.requestId
      && p.stampedAt <= p.seen && p.at <= p.seen
      && (SameKey(p, q) ==> q.seen - p.stampedAt > Retention(c))
  {
    InitEstablishes(c, s);
    RunKeeps(c, s, actions);
    assert Logged(c, Run(c, s, actions), Run(c, s, actions).log[j]);
  }

  /** The clock never steps back. */
  ghost predicate SteadyClock(s: State, actions: seq<Action>) {
    && (forall i :: 0 <= i < |actions| ==> s.latest <= actions[i].now)
    && (forall i, j :: 0 <= i < j < |actions| ==> actions[i].now <= actions[j].now)
    && (forall i :: 0 <= i < |actions| && actions[i].Insert? ==> actions[i].stampedAt <= actions[i].now)
  }

  /** Then the highest reading at a publication is its own. */
  lemma {:induction false} SteadyClockSees(c: Config, s: State, actions: seq<Action>)
    requires s.log == [] && SteadyClock(s, actions)
    ensures var s' := Run(c, s, actions);
      && (forall k :: 0 <= k < |s'.log| ==> s'.log[k].seen == s'.log[k].at)
      && s'.latest == if actions == [] then s.latest else actions[|actions| - 1].now
    decreases |actions|
  {
    if actions != [] {
      var before, last := actions[..|actions| - 1], actions[|actions| - 1];
      SteadyClockSees(c, s, before);
      StepSees(c, Run(c, s, before), last);
    }
  }

  lemma StepSees(c: Config, s: State, a: Action)
    requires s.latest <= a.now && (a.Insert? ==> a.stampedAt <= a.now)
    ensures Apply(c, s, a).latest == a.now
    ensures Apply(c, s, a).log == s.log
            || (|Apply(c, s, a).log| == |s.log| + 1 && s.log <= Apply(c, s, a).log
                && Apply(c, s, a).log[|s.log|].seen == Apply(c, s, a).log[|s.log|].at)
  {
  }

  /** No key is published again within its time to live, which counts from the received_at of the earlier request. */
  ghost predicate NoRepeatWithin(log: seq<Publish>, ttl: int) {
    forall j, k :: 0 <= j < k < |log| && SameKey(log[j], log[k]) ==> log[k].seen - log[j].stampedAt > ttl
  }

  /** Nor within a gap that counts from the earlier publication. */
  ghost predicate PublishedApart(log: seq<Publish>, gap: int) {
    forall j, k :: 0 <= j < k < |log| && SameKey(log[j], log[k]) ==> log[k].seen - log[j].at > gap
  }

  /** No request took longer than latency from its receipt to its publication. */
  ghost predicate Prompt(log: seq<Publish>, latency: int) {
    forall k :: 0 <= k < |log| ==> log[k].at - log[k].stampedAt <= latency
  }

  // A run that publishes one key twice, as early as the code allows.

  const KEY := Some("k")

  const EMPTY := State(map[], 0, map[], [], 0)

  const FIRST := 999_999

  function Second(c: Config): int { FIRST + Retention(c) + 1 }

  function Earliest(c: Config, delay: int): seq<Action> {
    [Arrive("a", KEY, None, FIRST), Check("a", FIRST), Insert("a", FIRST, FIRST),
     PublishCommand("a", true, Null, FIRST + delay), Mark("a", FIRST + delay),
     Expire({0}, Second(c)),
     Arrive("b", KEY, None, Second(c)), Check("b", Second(c)), Insert("b", Second(c), Second(c)),
     PublishCommand("b", true, Null, Second(c))]
  }

  lemma RunStep(c: Config, s: State, actions: seq<Action>, n: nat)
    requires n < |actions|
    ensures Run(c, s, actions[..n + 1]) == Apply(c, Run(c, s, actions[..n]), actions[n])
  {
    assert actions[..n + 1][..n] == actions[..n];
  }

  /** Request "a" has inserted its row, after three steps. */
  ghost predicate FirstInserted(s: State) {
    && s.commands == map[0 := Command("a", KEY, 0, Received, None)] && s.nextCommand == 1
    && s.latest == FIRST && s.log == []
    && s.requests == map["a" := Request(KEY, Publishing(FIRST))]
  }

  /** Its command was published, after four. */
  ghost predicate FirstSent(s: State, delay: int) {
    && s.commands == map[0 := Command("a", KEY, 0, Received, None)] && s.nextCommand == 1
    && s.latest == FIRST + delay && s.log == [Publish("a", KEY, FIRST, FIRST + delay, FIRST + delay)]
    && s.requests == map["a" := Request(KEY, Marking(Published, Reply(200, Null)))]
  }

  /** And its row marked, after five. */
  ghost predicate FirstPublished(s: State, delay: int) {
    && s.commands == map[0 := Command("a", KEY, 0, Published, None)] && s.nextCommand == 1
    && s.latest == FIRST + delay && s.log == [Publish("a", KEY, FIRST, FIRST + delay, FIRST + delay)]
    && s.requests.Keys == {"a"}
  }

  /** And its row has been deleted, after six. */
  ghost predicate FirstForgotten(c: Config, s: State, delay: int) {
    && s.commands == map[] && s.latest == Second(c) && s.log == [Publish("a", KEY, FIRST, FIRST + delay, FIRST + delay)]
    && s.requests.Keys == {"a"}
  }

  lemma InsertFirst(c: Config, delay: int)
    ensures FirstInserted(Run(c, EMPTY, Earliest(c, delay)[..3]))
  {
    var actions := Earliest(c, delay);
    RunStep(c, EMPTY, actions, 0);
    RunStep(c, EMPTY, actions, 1);
    RunStep(c, EMPTY, actions, 2);
  }

  lemma SendFirst(c: Config, s: State, delay: nat)
    requires FirstInserted(s)
    ensures FirstSent(Apply(c, s, PublishCommand("a", true, Null, FIRST + delay)), delay)
  {
  }

  lemma MarkFirst(c: Config, s: State, delay: nat)
    requires FirstSent(s, delay)
    ensures FirstPublished(Apply(c, s, Mark("a", FIRST + delay)), delay)
  {
    assert RowOf(s.commands, 0, "a");
  }

  lemma PublishFirst(c: Config, delay: nat)
    ensures FirstPublished(Run(c, EMPTY, Earliest(c, delay)[..5]), delay)
  {
    var actions := Earliest(c, delay);
    InsertFirst(c, delay);
    RunStep(c, EMPTY, actions, 3);
    SendFirst(c, Run(c, EMPTY, actions[..3]), delay);
    RunStep(c, EMPTY, actions, 4);
    MarkFirst(c, Run(c, EMPTY, actions[..4]), delay);
  }

  lemma ForgetFirst(c: Config, delay: nat)
    requires delay <= Retention(c) + 1
    ensures FirstForgotten(c, Run(c, EMPTY, Earliest(c, delay)[..6]), delay)
  {
    PublishFirst(c, delay);
    RunStep(c, EMPTY, Earliest(c, delay), 5);
    assert Cutoff(Second(c), c.retentionDays) == 1;
  }

  /** Request "b" is about to publish, after nine. */
  ghost predicate SecondInserted(c: Config, s: State, delay: int) {
    && s.latest == Second(c) && s.log == [Publish("a", KEY, FIRST, FIRST + delay, FIRST + delay)]
    && "b" in s.requests && s.requests["b"] == Request(KEY, Publishing(Second(c)))
  }

  lemma InsertSecond(c: Config, s: State, delay: nat)
    requires FirstForgotten(c, s, delay)
    ensures var s1 := Apply(c, s, Arrive("b", KEY, None, Second(c)));
      var s2 := Apply(c, s1, Check("b", Second(c)));
      SecondInserted(c, Apply(c, s2, Insert("b", Second(c), Second(c))), delay)
  {
    var s1 := Apply(c, s, Arrive("b", KEY, None, Second(c)));
    assert s1.commands == map[] && s1.requests["b"] == Request(KEY, Checking);
    var s2 := Apply(c, s1, Check("b", Second(c)));
    assert s2.commands == map[] && s2.requests["b"] == Request(KEY, Inserting(None));
  }

  lemma PublishSecond(c: Config, delay: nat)
    requires delay <= Retention(c) + 1
    ensures Run(c, EMPTY, Earliest(c, delay)).log
            == [Publish("a", KEY, FIRST, FIRST + delay, FIRST + delay), Publish("b", KEY, Second(c), Second(c), Second(c))]
  {
    var actions := Earliest(c, delay);
    ForgetFirst(c, delay);
    RunStep(c, EMPTY, actions, 6);
    RunStep(c, EMPTY, actions, 7);
    RunStep(c, EMPTY, actions, 8);
    InsertSecond(c, Run(c, EMPTY, actions[..6]), delay);
    LastStep(c, actions, delay);
  }

  lemma LastStep(c: Config, actions: seq<Action>, delay: nat)
    requires |actions| == 10 && actions[9] == PublishCommand("b", true, Null, Second(c))
    requires SecondInserted(c, Run(c, EMPTY, actions[..9]), delay)
    ensures Run(c, EMPTY, actions).log
            == [Publish("a", KEY, FIRST, FIRST + delay, FIRST + delay), Publish("b", KEY, Second(c), Second(c), Second(c))]
  {
    RunStep(c, EMPTY, actions, 9);
    assert actions[..10] == actions;
  }

  /** The time to live is honoured in every interleaving exactly when it is configured no longer than the retention. */
  lemma TtlIsHonoured(c: Config)
    ensures (forall s, actions :: Init(s) ==> NoRepeatWithin(Run(c, s, actions).log, c.ttlSeconds * SECOND))
            <==> c.ttlSeconds * SECOND <= Retention(c)
  {
    if c.ttlSeconds * SECOND <= Retention(c) {
      forall s, actions | Init(s)
        ensures NoRepeatWithin(Run(c, s, actions).log, c.ttlSeconds * SECOND)
      {
        InitEstablishes(c, s);
        RunKeeps(c, s, actions);
      }
    } else {
      PublishSecond(c, 0);
      var log := Run(c, EMPTY, Earliest(c, 0)).log;
      assert SameKey(log[0], log[1]);
      assert c.ttlSeconds > c.retentionDays * DAY_SECONDS;
      assert Init(EMPTY);
    }
  }

  /** Between the publications themselves the retention period is not guaranteed: the time that the earlier request
      spent waiting to publish is lost. Given a bound on that wait, these and no larger gaps are guaranteed. */
  lemma PublishGapIsExact(c: Config, latency: nat, gap: nat)
    ensures (forall s, actions :: Init(s) && Prompt(Run(c, s, actions).log, latency)
                                  ==> PublishedApart(Run(c, s, actions).log, gap))
            <==> gap <= Retention(c) - latency
  {
    if gap <= Retention(c) - latency {
      forall s, actions | Init(s) && Prompt(Run(c, s, actions).log, latency)
        ensures PublishedApart(Run(c, s, actions).log, gap)
      {
        InitEstablishes(c, s);
        RunKeeps(c, s, actions);
      }
    } else {
      var delay := if latency <= Retention(c) then latency else Retention(c) + 1;
      PublishSecond(c, delay);
      var log := Run(c, EMPTY, Earliest(c, delay)).log;
      assert SameKey(log[0], log[1]);
      assert Init(EMPTY) && Prompt(log, latency);
      assert !PublishedApart(log, gap);
    }
  }

  // ---------------------------------------------------------------------------------------------
  // Answers

  /** Row i, while it lasts; it lasts at least the retention period. */
  ghost predicate Lasting(c: Config, s: State, i: nat, row: Command) {
    if i in s.commands then s.commands[i].reply == row.reply && SameRow(row, s.commands[i])
    else row.receivedAt < Cutoff(s.latest, c.retentionDays) && i < s.nextCommand
  }

  lemma StepLasts(c: Config, s: State, a: Action, i: nat, row: Command)
    requires Inv(c, s) && Lasting(c, s, i, row) && row.reply.Some?
    ensures Lasting(c, Apply(c, s, a), i, row)
  {
    if i in s.commands {
      assert Owned(s, s.commands[i]);
    }
  }

  /** A stored answer never changes, and its row is not deleted within the retention period. */
  lemma {:induction false} AnswersLast(c: Config, s: State, actions: seq<Action>, i: nat)
    requires Inv(c, s) && i in s.commands && s.commands[i].reply.Some?
    ensures Lasting(c, Run(c, s, actions), i, s.commands[i])
    decreases |actions|
  {
    if actions != [] {
      var before := actions[..|actions| - 1];
      AnswersLast(c, s, before, i);
      RunKeeps(c, s, before);
      StepLasts(c, Run(c, s, before), actions[|actions| - 1], i, s.commands[i]);
    }
  }

  /** A valid request looks its key up before its insertion, and again if that insertion failed. */
  predicate LooksUp(s: State, a: Action) {
    && a.Check? && a.requestId in s.requests
    && (s.requests[a.requestId].phase.Checking? || s.requests[a.requestId].phase.Rechecking?)
  }

  /** a answers its request, and neither changes a row nor publishes. */
  ghost predicate MerelyAnswers(c: Config, s: State, a: Action, answer: Reply)
    requires LooksUp(s, a)
  {
    var s' := Apply(c, s, a);
    && s'.requests[a.requestId].phase == Answered(answer)
    && s'.commands == s.commands && s'.nextCommand == s.nextCommand && s'.log == s.log
  }

  /** While the row of a key is within its time to live, a look-up finds its answer, or 409 before it has one. */
  lemma LookUpAnswers(c: Config, s: State, a: Action, i: nat)
    requires KeysUnique(s) && LooksUp(s, a)
    requires HoldsKey(s.commands, i, s.requests[a.requestId].key) && s.requests[a.requestId].key != Some("")
    requires WithinTtl(c, s.commands[i].receivedAt, a.now)
    ensures MerelyAnswers(c, s, a, if s.commands[i].reply.Some? then s.commands[i].reply.value
                                   else PendingReply(s.commands[i].requestId))
  {
    var key := s.requests[a.requestId].key;
    assert KeyTaken(s.commands, key);
    assert forall j :: HoldsKey(s.commands, j, key) ==> j == i;
  }

  /** And an insertion that raced past the look-up changes no row and publishes nothing while the key has a row. */
  lemma InsertionNeedsAFreeKey(c: Config, s: State, a: Action, i: nat)
    requires a.Insert? && a.requestId in s.requests && s.requests[a.requestId].phase.Inserting?
    requires HoldsKey(s.commands, i, s.requests[a.requestId].key)
    ensures var s' := Apply(c, s, a);
      && s'.commands == s.commands && s'.nextCommand == s.nextCommand && s'.log == s.log
      && s'.requests[a.requestId].phase == if s.requests[a.requestId].phase.rejection.None? then Rechecking else Raised
  {
    assert KeyTaken(s.commands, s.requests[a.requestId].key);
  }

  /** Truncating received_at ends the time to live up to a second early, and never late. */
  lemma TtlEndsOnTime(c: Config, stampedAt: int, now: int)
    ensures WithinTtl(c, Stored(stampedAt), now) ==> c.ttlSeconds > 0 && now - stampedAt <= c.ttlSeconds * SECOND
    ensures c.ttlSeconds > 0 && now - stampedAt <= (c.ttlSeconds - 1) * SECOND ==> WithinTtl(c, Stored(stampedAt), now)
  {
  }

  /** A valid request on its own, up to its publication. */
  function Attempt(id: string, now: int): seq<Action> { [Check(id, now), Insert(id, now, now), Check(id, now)] }

  lemma AttemptUnfolds(c: Config, s: State, id: string, now: int)
    ensures Run(c, s, Attempt(id, now))
            == Apply(c, Apply(c, Apply(c, s, Check(id, now)), Insert(id, now, now)), Check(id, now))
  {
    var actions := Attempt(id, now);
    assert actions[..0] == [];
    RunStep(c, s, actions, 0);
    RunStep(c, s, actions, 1);
    RunStep(c, s, actions, 2);
    assert actions[..3] == actions;
  }

  /** A key does not become free when its time to live is over, only when cleanup deletes its row: until then the
      insertion fails, the second look-up finds nothing either, and the request ends in an exception. */
  lemma LapsedKeyRaises(c: Config, s: State, id: string, now: int, i: nat)
    requires KeysUnique(s) && id in s.requests && s.requests[id].phase.Checking?
    requires HoldsKey(s.commands, i, s.requests[id].key) && s.requests[id].key != Some("")
    ensures var s' := Run(c, s, Attempt(id, now));
      && s'.commands == s.commands && s'.log == s.log && id in s'.requests
      && (s'.requests[id].phase.Raised? <==> !WithinTtl(c, s.commands[i].receivedAt, now))
      && (s'.requests[id].phase.Answered? <==> WithinTtl(c, s.commands[i].receivedAt, now))
  {
    AttemptUnfolds(c, s, id, now);
    var s1 := Apply(c, s, Check(id, now));
    LookUpOutcome(c, s, id, now, i);
    if !WithinTtl(c, s.commands[i].receivedAt, now) {
      InsertionNeedsAFreeKey(c, s1, Insert(id, now, now), i);
      LookUpOutcome(c, Apply(c, s1, Insert(id, now, now)), id, now, i);
    }
  }

  lemma LookUpOutcome(c: Config, s: State, id: string, now: int, i: nat)
    requires KeysUnique(s) && id in s.requests
    requires s.requests[id].phase.Checking? || s.requests[id].phase.Rechecking?
    requires HoldsKey(s.commands, i, s.requests[id].key) && s.requests[id].key != Some("")
    ensures var s', p := Apply(c, s, Check(id, now)), s.requests[id].phase;
      && s' == s.(latest := Max(s.latest, now), requests := s'.requests)
      && id in s'.requests && s'.requests[id].key == s.requests[id].key
      && (WithinTtl(c, s.commands[i].receivedAt, now) ==> s'.requests[id].phase.Answered?)
      && (!WithinTtl(c, s.commands[i].receivedAt, now) ==>
            s'.requests[id].phase == if p.Checking? then Inserting(None) else Raised)
  {
    assert KeyTaken(s.commands, s.requests[id].key);
    assert forall j :: HoldsKey(s.commands, j, s.requests[id].key) ==> j == i;
  }

  lemma WithinTtlIsRetained(c: Config, receivedAt: int, now: int)
    requires c.ttlSeconds * SECOND <= Retention(c) && WithinTtl(c, receivedAt, now)
    ensures receivedAt >= Cutoff(now, c.retentionDays)
  {
  }

  /** A look-up, after a run, of a key for which a response was stored before, at a time within its time to live. */
  ghost predicate AsksInTime(c: Config, s: State, i: nat, actions: seq<Action>, a: Action) {
    && Inv(c, s) && i in s.commands && s.commands[i].reply.Some? && s.commands[i].key.Some? && s.commands[i].key.value != ""
    && LooksUp(Run(c, s, actions), a)
    && Run(c, s, actions).requests[a.requestId].key == s.commands[i].key
    && WithinTtl(c, s.commands[i].receivedAt, Max(Run(c, s, actions).latest, a.now))
  }

  /** Once a response is stored for a key, every later look-up within the time to live, in any interleaving, returns
      exactly that response, changes no row and publishes nothing. */
  lemma StoredResponseIsFinal(c: Config, s: State, i: nat, actions: seq<Action>, a: Action)
    requires AsksInTime(c, s, i, actions, a) && c.ttlSeconds * SECOND <= Retention(c)
    ensures MerelyAnswers(c, Run(c, s, actions), a, s.commands[i].reply.value)
  {
    var s' := Run(c, s, actions);
    AnswersLast(c, s, actions, i);
    RunKeeps(c, s, actions);
    WithinTtlIsRetained(c, s.commands[i].receivedAt, Max(s'.latest, a.now));
    LookUpAnswers(c, s', a, i);
  }

  // A response that is forgotten within its time to live.

  const ANSWERED := State(map[0 := Command("a", KEY, 0, Published, Some(Reply(200, Null)))], 1,
                          map["a" := Request(KEY, Raised)], [], FIRST)

  function Forgetting(c: Config): seq<Action> { [Expire({0}, Second(c)), Arrive("b", KEY, None, Second(c))] }

  lemma ForgottenAnswer(c: Config)
    ensures var s := Run(c, ANSWERED, Forgetting(c));
      && s.commands == map[] && s.latest == Second(c)
      && s.requests == map["a" := Request(KEY, Raised), "b" := Request(KEY, Checking)]
  {
    var actions := Forgetting(c);
    assert actions[..0] == [];
    RunStep(c, ANSWERED, actions, 0);
    assert Cutoff(Second(c), c.retentionDays) == 1;
    assert Run(c, ANSWERED, actions[..1]).commands == map[];
    RunStep(c, ANSWERED, actions, 1);
    assert actions[..2] == actions;
  }

  lemma ForgottenAnswerIsAskedFor(c: Config)
    requires c.ttlSeconds * SECOND > Retention(c)
    ensures Init(ANSWERED) && AsksInTime(c, ANSWERED, 0, Forgetting(c), Check("b", Second(c)))
    ensures !MerelyAnswers(c, Run(c, ANSWERED, Forgetting(c)), Check("b", Second(c)), Reply(200, Null))
  {
    ForgottenAnswer(c);
    InitEstablishes(c, ANSWERED);
    assert c.ttlSeconds > c.retentionDays * DAY_SECONDS;
  }

  /** That holds in all runs exactly when the time to live is configured no longer than the retention. */
  lemma StoredResponsesAreFinalExactly(c: Config)
    ensures (forall s, i, actions, a :: AsksInTime(c, s, i, actions, a)
                                        ==> MerelyAnswers(c, Run(c, s, actions), a, s.commands[i].reply.value))
            <==> c.ttlSeconds * SECOND <= Retention(c)
  {
    if c.ttlSeconds * SECOND <= Retention(c) {
      forall s, i, actions, a | AsksInTime(c, s, i, actions, a)
        ensures MerelyAnswers(c, Run(c, s, actions), a, s.commands[i].reply.value)
      {
        StoredResponseIsFinal(c, s, i, actions, a);
      }
    } else {
      ForgottenAnswerIsAskedFor(c);
    }
  }

  /** The row of a request that ended before its mark: RECEIVED, unanswered, and nobody will ever touch it. */
  ghost predicate Abandoned(s: State, i: nat, row: Command) {
    && i in s.commands && s.commands[i] == row && row.status.Received? && row.reply.None?
    && row.requestId in s.requests && s.requests[row.requestId].phase.Raised?
  }

  lemma StepLeavesAbandoned(c: Config, s: State, a: Action, i: nat, row: Command)
    requires KeysUnique(s) && Abandoned(s, i, row)
    ensures Abandoned(Apply(c, s, a), i, row)
  {
  }

  lemma StepSparesKey(c: Config, s: State, a: Action, i: nat, row: Command)
    requires Inv(c, s) && Abandoned(s, i, row) && row.key.Some?
    ensures s.log <= Apply(c, s, a).log
    ensures forall k :: |s.log| <= k < |Apply(c, s, a).log| ==> Apply(c, s, a).log[k].key != row.key
  {
    if Apply(c, s, a).log != s.log {
      OnlyTheOwnerPublishes(c, s, a, i);
    }
  }

  /** Cleanup spares RECEIVED rows, so a request that died after its insertion blocks its key for good: whatever happens, its
      row stays and nothing is ever published under the key. */
  lemma {:induction false} DeadRequestBlocksKey(c: Config, s: State, actions: seq<Action>, i: nat)
    requires Inv(c, s) && i in s.commands && Abandoned(s, i, s.commands[i]) && s.commands[i].key.Some?
    ensures Abandoned(Run(c, s, actions), i, s.commands[i])
    ensures s.log <= Run(c, s, actions).log
    ensures forall k :: |s.log| <= k < |Run(c, s, actions).log| ==> Run(c, s, actions).log[k].key != s.commands[i].key
    decreases |actions|
  {
    if actions != [] {
      var before, last := actions[..|actions| - 1], actions[|actions| - 1];
      var s1 := Run(c, s, before);
      DeadRequestBlocksKey(c, s, before, i);
      RunKeeps(c, s, before);
      StepLeavesAbandoned(c, s1, last, i, s.commands[i]);
      StepSparesKey(c, s1, last, i, s.commands[i]);
    }
  }

  /** While a key has a row, only the request that inserted the row can publish under the key, and not any more once
      a response is stored. */
  lemma OnlyTheOwnerPublishes(c: Config, s: State, a: Action, i: nat)
    requires Inv(c, s) && i in s.commands && s.commands[i].key.Some?
    requires Apply(c, s, a).log != s.log
    ensures var p := Apply(c, s, a).log[|s.log|];
      p.key == s.commands[i].key ==> p.requestId == s.commands[i].requestId && s.commands[i].reply.None?
  {
    assert a.PublishCommand?;
    var j :| InsertedRow(s, a.requestId, s.requests[a.requestId], j);
  }

  // ---------------------------------------------------------------------------------------------
  // Retention

  /** What one cleanup call does to api_commands is an Expire step of this machine. */
  lemma CleanupIsExpiry(c: Config, s: State, t: Tables, now: int, batchSize: nat)
    requires t.commands == s.commands
    ensures var d := CleanupSelection(t, Cutoff(now, c.retentionDays), batchSize);
            Deleted(t, d).commands == OnExpire(c, s, (set i | i in d.commands), now).commands
  {
  }
}
