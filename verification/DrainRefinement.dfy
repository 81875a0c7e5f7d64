/** A drain of the publisher that nothing interleaves with is one run of the outbox's step system. */
module DrainRefinement {
  import opened Backoff
  import opened Documents
  import opened Envelopes
  import opened Outbox
  import opened OutboxProtocol
  import opened OutboxTable

  function Messages(topic: seq<Delivery>): (ms: seq<Message>)
    ensures |ms| == |topic|
    ensures forall i :: 0 <= i < |ms| ==> ms[i] == topic[i].message
  {
    seq(|topic|, i requires 0 <= i < |topic| => topic[i].message)
  }

  // The clock readings of the turns never go back, and start no earlier than now.
  ghost predicate InTime(turns: seq<Turn>, now: int) {
    && (forall i :: 0 <= i < |turns| ==> now <= turns[i].now)
    && (forall i, j :: 0 <= i < j < |turns| ==> turns[i].now <= turns[j].now)
  }

  lemma StepThenRun(s: State, step: Step, rest: seq<Step>)
    requires Enabled(s, step) && Returnable(s, step) && ValidRun(Apply(s, step), rest)
    ensures ValidRun(s, [step] + rest) && Final(s, [step] + rest) == Final(Apply(s, step), rest)
  {
    assert ([step] + rest)[1..] == rest;
  }

  function AfterOne(s: State, k: nat, t: Turn): State
    requires At(s, k) && s.drains[k].answer.None?
  {
    AfterMark(AfterWrite(s.(now := t.now), k, t.ack, t.freshId), k, t.stored)
  }

  lemma WriteIsStep(s: State, k: nat, ack: Ack, freshId: string)
    requires At(s, k) && s.drains[k].answer.None?
    ensures Enabled(s, Write(k, ack, freshId)) && Returnable(s, Write(k, ack, freshId))
    ensures Apply(s, Write(k, ack, freshId)) == AfterWrite(s, k, ack, freshId)
  {
  }

  lemma MarkIsStep(s: State, k: nat, stored: bool)
    requires At(s, k) && s.drains[k].answer.Some?
    ensures Enabled(s, Mark(k, stored)) && Returnable(s, Mark(k, stored))
    ensures Apply(s, Mark(k, stored)) == AfterMark(s, k, stored)
  {
  }

  // Waiting for the instant of the turn, writing and marking.
  lemma TurnIsRun(s: State, k: nat, t: Turn) returns (steps: seq<Step>)
    requires At(s, k) && s.drains[k].answer.None? && s.now <= t.now
    ensures ValidRun(s, steps) && Final(s, steps) == AfterOne(s, k, t)
  {
    var a, tick := s.(now := t.now), Tick(t.now - s.now);
    assert Apply(s, tick) == a;
    WriteIsStep(a, k, t.ack, t.freshId);
    MarkIsStep(AfterWrite(a, k, t.ack, t.freshId), k, t.stored);
    ThreeSteps(s, tick, Write(k, t.ack, t.freshId), Mark(k, t.stored));
    steps := [tick, Write(k, t.ack, t.freshId), Mark(k, t.stored)];
  }

  lemma ThreeSteps(s: State, one: Step, two: Step, three: Step)
    requires Enabled(s, one) && Returnable(s, one)
    requires Enabled(Apply(s, one), two) && Returnable(Apply(s, one), two)
    requires Enabled(Apply(Apply(s, one), two), three) && Returnable(Apply(Apply(s, one), two), three)
    ensures ValidRun(s, [one, two, three])
    ensures Final(s, [one, two, three]) == Apply(Apply(Apply(s, one), two), three)
  {
    StepThenRun(Apply(Apply(s, one), two), three, []);
    StepThenRun(Apply(s, one), two, [three]);
    StepThenRun(s, one, [two, three]);
    assert [three] + [] == [three] && [two] + [three] == [two, three] && [one] + [two, three] == [one, two, three];
  }

  lemma AfterOneIs(s: State, k: nat, t: Turn)
    requires At(s, k) && s.drains[k].answer.None?
    ensures var u, c := AfterOne(s, k, t), Current(s, k);
            && u.rows == AfterTurn(s.writes, s.rows, c, t, s.outOfRange)
            && Messages(u.topic) ==
               Messages(s.topic) + Dispatched(s.writes, c.kind, c.key, c.payload, t.freshId, t.ack)
            && u.writes == s.writes && u.outOfRange == s.outOfRange && u.now == t.now
            && k in u.drains && u.drains[k] == Drain(s.drains[k].batch, s.drains[k].next + 1, None)
  {
  }

  // From a state in which the drain has i rows behind it to one in which it is through.
  lemma {:induction false} TurnsAreRun(s: State, k: nat, rows: Rows, topic: seq<Message>, batch: seq<Claimed>,
                                       turns: seq<Turn>, i: nat) returns (steps: seq<Step>)
    requires i <= |batch| == |turns| && k in s.drains && s.drains[k] == Drain(batch, i, None)
    requires forall i, j :: 0 <= i < j < |turns| ==> turns[i].now <= turns[j].now
    requires i < |turns| ==> s.now <= turns[i].now
    requires s.rows == AfterTurns(s.writes, rows, batch, turns, i, s.outOfRange)
    requires Messages(s.topic) == topic + Sent(s.writes, batch, turns, i)
    ensures ValidRun(s, steps)
    ensures var u := Final(s, steps);
            && u.rows == AfterTurns(s.writes, rows, batch, turns, |batch|, s.outOfRange)
            && Messages(u.topic) == topic + Sent(s.writes, batch, turns, |batch|)
            && k in u.drains && u.drains[k] == Drain(batch, |batch|, None)
    decreases |batch| - i
  {
    if i == |batch| {
      steps := [];
    } else {
      var u := AfterOne(s, k, turns[i]);
      var turn := TurnIsRun(s, k, turns[i]);
      AfterOneIs(s, k, turns[i]);
      SentNext(topic, s.writes, batch, turns, i);
      var rest := TurnsAreRun(u, k, rows, topic, batch, turns, i + 1);
      steps := turn + rest;
      RunThenRun(s, turn, rest);
    }
  }

  lemma {:induction false} RunThenRun(s: State, one: seq<Step>, two: seq<Step>)
    requires ValidRun(s, one) && ValidRun(Final(s, one), two)
    ensures ValidRun(s, one + two) && Final(s, one + two) == Final(Final(s, one), two)
    decreases |one|
  {
    if one == [] {
      assert one + two == two;
    } else {
      RunThenRun(Apply(s, one[0]), one[1..], two);
      assert (one + two)[1..] == one[1..] + two;
    }
  }

  /** The drain claims, writes and marks as one run of the step system does, and leaves the same table;
      the topic grows by the same messages. */
  lemma DrainIsRun(s: State, k: nat, returned: seq<nat>, turns: seq<Turn>) returns (steps: seq<Step>)
    requires k !in s.drains && Distinct(returned) && IsBatch(s.rows, BATCH, s.now, Elements(returned))
    requires |turns| == |returned| && InTime(turns, s.now)
    ensures ValidRun(s, steps)
    ensures forall i :: 0 <= i < |returned| ==> returned[i] in s.rows
    ensures var taken := ClaimRows(s.rows, Elements(returned), s.now, SECOND);
            var batch := ClaimedRows(taken, returned);
            var u := Final(s, steps);
            && u.rows == AfterTurns(s.writes, taken, batch, turns, |batch|, s.outOfRange)
            && Messages(u.topic) == Messages(s.topic) + Sent(s.writes, batch, turns, |batch|)
            && k in u.drains && u.drains[k] == Drain(batch, |batch|, None)
  {
    var claim := ClaimBatch(k, {}, returned);
    assert Unlocked(s.rows, {}) == s.rows;
    BatchIsDue(s, k, {}, returned);
    var t := AfterClaim(s, k, returned);
    var rest := TurnsAreRun(t, k, t.rows, Messages(s.topic), t.drains[k].batch, turns, 0);
    steps := [claim] + rest;
    StepThenRun(s, claim, rest);
  }

  /** What DrainOnce of the publisher leaves in the store and on the topic, some run of the step system
      leaves too. */
  method DrainOnceAsRun(p: Publisher, ghost s: State, ghost k: nat, returned: seq<nat>, turns: seq<Turn>, now: int)
    returns (n: nat, ghost steps: seq<Step>)
    requires p.batch == BATCH && p.maxBackoff == FIVE_MINUTES && |turns| == |returned|
    requires Distinct(returned) && IsBatch(p.store.rows, BATCH, now, Elements(returned))
    requires k !in s.drains && s.rows == p.store.rows && s.now == now && InTime(turns, now)
    requires s.writes == p.bus.Writes() && s.outOfRange == p.outOfRange && Messages(s.topic) == p.bus.topic
    modifies p.store`rows, p.bus`topic
    ensures ValidRun(s, steps) && n == |returned|
    ensures Final(s, steps).rows == p.store.rows && Messages(Final(s, steps).topic) == p.bus.topic
  {
    ghost var claimed;
    steps := DrainIsRun(s, k, returned, turns);
    n, claimed := p.DrainOnce(returned, turns, now);
    assert claimed == ClaimedRows(ClaimRows(s.rows, Elements(returned), now, SECOND), returned);
  }
}
