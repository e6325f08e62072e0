/** Which repeated deliveries are answered again, and with what, in the columns of the rows. */
module Duplicates {
  import opened Wrappers
  import opened Selection
  import opened Responses
  import opened Store
  import opened System
  import opened Invariant
  import opened Outcomes

  /** The row to answer from: the one that was found on reception if it is still there, or else the one that now has the
      same topic and payload. */
  ghost predicate AnswersFor(messages: map<nat, Message>, id: nat, identity: string, row: nat) {
    row in messages && if id in messages then row == id else messages[row].topic + messages[row].rawPayload == identity
  }

  /** A completed row that stores a success with this ACK. */
  ghost predicate AnsweredBy(m: Message, ack: string) { m.status == Completed && StoresAck(m.odooResponse, ack) }

  /** Nothing was replayed within the last 30 seconds; or fewer than three times in a row, and not within the last two. */
  predicate Grants(m: Message, now: int) {
    || m.lastReplayAt == None
    || now - m.lastReplayAt.value * 1_000_000 >= 30_000_000
    || (m.replayCount < 3 && now - m.lastReplayAt.value * 1_000_000 >= 2_000_000)
  }

  /** The throttle of the row with this topic and payload grants a replay. */
  ghost predicate Replays(messages: map<nat, Message>, identity: string, now: int) {
    exists i :: i in messages && messages[i].topic + messages[i].rawPayload == identity && Grants(messages[i], now)
  }

  /** The row after a granted replay: counting starts again after 30 seconds. */
  function ReplayedRow(m: Message, now: int): Message {
    m.(replayCount := if m.lastReplayAt == None || now - m.lastReplayAt.value * 1_000_000 >= 30_000_000 then 1
                      else m.replayCount + 1,
       lastReplayAt := Some(now / 1_000_000))
  }

  lemma GrantsInColumns(m: Message, now: int)
    ensures ReplayAttempt(m.replayCount, m.lastReplayAt, now).Allowed? <==> Grants(m, now)
    ensures ReplayAttempt(m.replayCount, m.lastReplayAt, now).LimitReached? <==> !Grants(m, now) && m.replayCount >= 3
    ensures m.(replayCount := ReplayCount(m.replayCount, m.lastReplayAt, now), lastReplayAt := Some(now / 1_000_000))
            == ReplayedRow(m, now)
  {
  }

  lemma FoundRow(t: Tables, identity: string, row: nat)
    requires RowsDistinct(t)
    ensures FindIdentity(t.messages, identity) == Some(row)
            <==> row in t.messages && t.messages[row].topic + t.messages[row].rawPayload == identity
  {
    var found := FindIdentity(t.messages, identity);
    if row in t.messages && t.messages[row].topic + t.messages[row].rawPayload == identity {
      assert t.messages[row].Identity() == identity;
      assert found.Some?;
      assert t.messages[found.value].Identity() == t.messages[row].Identity();
    }
  }

  /** A look-up that finds such a row goes on to the throttle with its ACK. */
  lemma LookUpInColumns(s: State, id: nat, identity: string, row: nat, ack: string)
    requires RowsDistinct(s.books.tables) && s.callback == Looking(id, identity)
    requires AnswersFor(s.Messages(), id, identity, row) && AnsweredBy(s.Messages()[row], ack)
    ensures OnLookUp(s) == s.(callback := Throttling(row, s.Messages()[row].topic + s.Messages()[row].rawPayload, ack))
  {
    FoundRow(s.books.tables, identity, row);
    StoredAckIsWhatTheTextSays(s.Messages()[row].odooResponse, ack);
  }

  /** Any other look-up ends there. */
  lemma LookUpFindsNothing(s: State, id: nat, identity: string)
    requires RowsDistinct(s.books.tables) && s.callback == Looking(id, identity)
    requires forall row, ack :: AnswersFor(s.Messages(), id, identity, row) ==> !AnsweredBy(s.Messages()[row], ack)
    ensures OnLookUp(s) == s.(callback := Quiet)
  {
    var found := if id in s.Messages() then Some(id) else FindIdentity(s.Messages(), identity);
    if found.Some? {
      assert AnswersFor(s.Messages(), id, identity, found.value);
      var stored := s.Messages()[found.value].odooResponse;
      if StoredAck(stored).Some? {
        var ack := StoredAck(stored).value;
        StoredAckIsWhatTheTextSays(stored, ack);
        assert !AnsweredBy(s.Messages()[found.value], ack);
      }
    }
  }

  /** The throttle of the row with the same topic and payload decides; a granted replay is counted on that row. */
  lemma ThrottleInColumns(s: State, id: nat, identity: string, ack: string, row: nat, now: int)
    requires RowsDistinct(s.books.tables) && s.callback == Throttling(id, identity, ack)
    requires row in s.Messages() && s.Messages()[row].topic + s.Messages()[row].rawPayload == identity
    ensures OnThrottle(s, now) ==
      if Grants(s.Messages()[row], now) then
        s.(callback := Sending(id, ack),
           books := s.books.(tables := s.books.tables.(
             messages := s.Messages()[row := ReplayedRow(s.Messages()[row], now)])))
      else s.(callback := Quiet)
  {
    FoundRow(s.books.tables, identity, row);
    GrantsInColumns(s.Messages()[row], now);
  }

  lemma ThrottleWithoutRow(s: State, id: nat, identity: string, ack: string, now: int)
    requires s.callback == Throttling(id, identity, ack)
    requires forall i :: i in s.Messages() ==> s.Messages()[i].topic + s.Messages()[i].rawPayload != identity
    ensures OnThrottle(s, now) == s.(callback := Quiet)
  {
    assert forall i :: i in s.Messages() ==> s.Messages()[i].Identity() != identity;
  }

  lemma ReplayInColumns(s: State, id: nat, ack: string)
    requires s.callback == Sending(id, ack)
    ensures OnReplay(s) == s.(callback := Quiet, history := s.history.(acks := s.history.acks + multiset{(id, ack)}))
  {
  }

  /** A repeated delivery of a message whose row is completed with a stored success and ACK is answered with that ACK, once,
      exactly if the throttle of the row grants it. */
  lemma DuplicateIsAnswered(s: State, id: nat, ack: string, now: int)
    requires RowsDistinct(s.books.tables) && id in s.Messages() && AnsweredBy(s.Messages()[id], ack)
    requires s.callback == Looking(id, s.Messages()[id].topic + s.Messages()[id].rawPayload)
    ensures var s', m := OnReplay(OnThrottle(OnLookUp(s), now)), s.Messages()[id];
      && s'.callback.Quiet?
      && s'.history.acks == s.history.acks + (if Grants(m, now) then multiset{(id, ack)} else multiset{})
      && id in s'.Messages() && s'.Messages()[id] == if Grants(m, now) then ReplayedRow(m, now) else m
  {
    var identity := s.Messages()[id].topic + s.Messages()[id].rawPayload;
    LookUpInColumns(s, id, identity, id, ack);
    ThrottleInColumns(OnLookUp(s), id, identity, ack, id, now);
    if Grants(s.Messages()[id], now) {
      ReplayInColumns(OnThrottle(OnLookUp(s), now), id, ack);
    }
  }

  /** From the delivery itself: the same topic and payload again, and the stored ACK goes out if the throttle grants it. */
  lemma DeliveryIsAnswered(s: State, m: Message, id: nat, ack: string, now: int)
    requires RowsDistinct(s.books.tables) && s.callback.Quiet? && FreshRow(m)
    requires id in s.Messages() && SameMessage(s.Messages()[id], m) && AnsweredBy(s.Messages()[id], ack)
    ensures OnReplay(OnThrottle(OnLookUp(OnReceive(s, m)), now)).history.acks
            == s.history.acks + if Grants(s.Messages()[id], now) then multiset{(id, ack)} else multiset{}
  {
    ReceiveInColumns(s, m);
    var s1 := OnReceive(s, m);
    assert s.Messages()[s1.callback.id].Identity() == s.Messages()[id].Identity();
    DuplicateIsAnswered(s1, id, ack, now);
  }

  /** Either way, the look-up decides in these columns. */
  lemma LookUpDecides(s: State, id: nat, identity: string)
    requires RowsDistinct(s.books.tables) && s.callback == Looking(id, identity)
    ensures var cb := OnLookUp(s).callback;
      && (cb.Quiet? || cb.Throttling?)
      && (cb.Throttling? ==>
            && AnswersFor(s.Messages(), id, identity, cb.id) && AnsweredBy(s.Messages()[cb.id], cb.ack)
            && cb.identity == s.Messages()[cb.id].topic + s.Messages()[cb.id].rawPayload)
      && (cb.Quiet? ==> forall row, ack :: AnswersFor(s.Messages(), id, identity, row) ==> !AnsweredBy(s.Messages()[row], ack))
  {
    if row, ack :| AnswersFor(s.Messages(), id, identity, row) && AnsweredBy(s.Messages()[row], ack) {
      LookUpInColumns(s, id, identity, row, ack);
    } else {
      LookUpFindsNothing(s, id, identity);
    }
  }

  /** There is one row to answer from, and one ACK in it. */
  lemma OneAnswer(t: Tables, id: nat, identity: string, row: nat, ack: string)
    requires RowsDistinct(t) && AnswersFor(t.messages, id, identity, row) && AnsweredBy(t.messages[row], ack)
    ensures forall r, a :: AnswersFor(t.messages, id, identity, r) && AnsweredBy(t.messages[r], a) ==> r == row && a == ack
  {
    forall r, a | AnswersFor(t.messages, id, identity, r) && AnsweredBy(t.messages[r], a)
      ensures r == row && a == ack
    {
      assert r != row ==> t.messages[r].Identity() == t.messages[row].Identity();
    }
  }

  lemma ReplaysInColumns(t: Tables, identity: string, now: int)
    requires RowsDistinct(t)
    ensures var found := FindIdentity(t.messages, identity);
      Replays(t.messages, identity, now) <==>
        found.Some? && ReplayAttempt(t.messages[found.value].replayCount, t.messages[found.value].lastReplayAt, now).Allowed?
  {
    var found := FindIdentity(t.messages, identity);
    if found.Some? {
      GrantsInColumns(t.messages[found.value], now);
    }
    if Replays(t.messages, identity, now) {
      var i :| i in t.messages && t.messages[i].topic + t.messages[i].rawPayload == identity && Grants(t.messages[i], now);
      FoundRow(t, identity, i);
    }
  }

  /** What a duplicate is answered with: the ACK stored in the row found at the look-up, if the throttle of the row found when
      it is asked grants it. */
  ghost predicate AnswersDuplicate(sent: Option<(nat, string)>, id: nat, identity: string,
                                   looked: map<nat, Message>, asked: map<nat, Message>, now: int) {
    && (forall row, ack :: AnswersFor(looked, id, identity, row) && AnsweredBy(looked[row], ack) ==>
          sent == if Replays(asked, looked[row].topic + looked[row].rawPayload, now) then Some((row, ack)) else None)
    && ((forall row, ack :: AnswersFor(looked, id, identity, row) ==> !AnsweredBy(looked[row], ack)) ==> sent.None?)
  }

  lemma AnswerIsDecided(t: Tables, id: nat, identity: string, row: nat, ack: string,
                        asked: map<nat, Message>, now: int, sent: Option<(nat, string)>)
    requires RowsDistinct(t) && AnswersFor(t.messages, id, identity, row) && AnsweredBy(t.messages[row], ack)
    requires sent == if Replays(asked, t.messages[row].topic + t.messages[row].rawPayload, now) then Some((row, ack)) else None
    ensures AnswersDuplicate(sent, id, identity, t.messages, asked, now)
  {
    OneAnswer(t, id, identity, row, ack);
  }

  /** The branches of the look-up. */
  function FoundAck(messages: map<nat, Message>, id: nat, identity: string): Option<(nat, string, string)> {
    var row := if id in messages then Some(id) else FindIdentity(messages, identity);
    if row.None? || !messages[row.value].status.Completed? then None
    else
      var ack := StoredAck(messages[row.value].odooResponse);
      if ack.None? then None else Some((row.value, messages[row.value].Identity(), ack.value))
  }

  lemma LookUpIsFoundAck(s: State, id: nat, identity: string)
    requires s.callback == Looking(id, identity)
    ensures var found := FoundAck(s.Messages(), id, identity);
      OnLookUp(s) == s.(callback := if found.Some? then Throttling(found.value.0, found.value.1, found.value.2) else Quiet)
  {
  }
}
