/** How often a row is delivered: each claim allows one write, so there are never more copies of a
    row on the topic than claims of it. */
module OutboxLedger {
  import opened Documents
  import opened Envelopes
  import opened OutboxProtocol

  function Copies(topic: seq<Delivery>, id: nat): nat {
    if topic == [] then 0
    else Copies(topic[..|topic| - 1], id) + if topic[|topic| - 1].row == id then 1 else 0
  }

  // The first position of the batch a drain has yet to write.
  function FirstUnwritten(d: Drain): nat {
    if d.answer.Some? then d.next + 1 else d.next
  }

  ghost predicate MayWrite(s: State, k: nat, id: nat) {
    && k in s.drains
    && exists i :: FirstUnwritten(s.drains[k]) <= i < |s.drains[k].batch| && s.drains[k].batch[i].id == id
  }

  ghost function Writers(s: State, id: nat): set<nat> {
    set k | k in s.drains && MayWrite(s, k, id)
  }

  ghost predicate RowCovered(s: State, id: nat) {
    id in s.rows ==> Copies(s.topic, id) + |Writers(s, id)| <= s.rows[id].attempts
  }

  ghost predicate OncePerBatch(d: Drain) {
    forall i, j :: 0 <= i < j < |d.batch| ==> d.batch[i].id != d.batch[j].id
  }

  ghost predicate Covered(s: State) {
    && (forall k :: k in s.drains ==> OncePerBatch(s.drains[k]))
    && (forall id: nat :: RowCovered(s, id))
  }

  lemma {:induction false} NoCopies(topic: seq<Delivery>, id: nat)
    ensures Copies(topic, id) == 0 <==> forall d :: d in topic ==> d.row != id
  {
    if topic == [] {
    } else {
      var front, last := topic[..|topic| - 1], topic[|topic| - 1];
      NoCopies(front, id);
      assert topic == front + [last];
    }
  }

  lemma OneMoreCopy(topic: seq<Delivery>, row: nat, ms: seq<Message>, id: nat)
    requires |ms| <= 1
    ensures Copies(topic + Deliveries(row, ms), id) == Copies(topic, id) + if row == id then |ms| else 0
  {
    if ms == [] {
      assert topic + Deliveries(row, ms) == topic;
    } else {
      assert (topic + Deliveries(row, ms))[..|topic|] == topic;
    }
  }

  // Drains that write nothing new: none gains a position to write, dropped ones apart.
  lemma FewerWriters(s: State, t: State, id: nat)
    requires forall k :: MayWrite(t, k, id) ==> MayWrite(s, k, id)
    ensures Writers(t, id) <= Writers(s, id) && |Writers(t, id)| <= |Writers(s, id)|
  {
    SubsetSize(Writers(t, id), Writers(s, id));
  }

  lemma SameDrainWrites(s: State, t: State, k: nat, id: nat)
    requires k in s.drains && k in t.drains && t.drains[k].batch == s.drains[k].batch
    requires FirstUnwritten(s.drains[k]) <= FirstUnwritten(t.drains[k])
    ensures MayWrite(t, k, id) ==> MayWrite(s, k, id)
  {
    if MayWrite(t, k, id) {
      var i :| FirstUnwritten(t.drains[k]) <= i < |t.drains[k].batch| && t.drains[k].batch[i].id == id;
      assert s.drains[k].batch[i].id == id;
    }
  }

  lemma QuietCovered(s: State, t: State)
    requires Inv(s) && Covered(s) && t.topic == s.topic
    requires forall k :: k in t.drains ==>
      k in s.drains && t.drains[k].batch == s.drains[k].batch
      && FirstUnwritten(s.drains[k]) <= FirstUnwritten(t.drains[k])
    requires forall id :: id in t.rows ==>
      if id in s.rows then t.rows[id].attempts == s.rows[id].attempts else id !in s.published
    ensures Covered(t)
  {
    forall id: nat
      ensures RowCovered(t, id)
    {
      forall k | MayWrite(t, k, id)
        ensures MayWrite(s, k, id)
      {
        SameDrainWrites(s, t, k, id);
      }
      FewerWriters(s, t, id);
      assert RowCovered(s, id);
      if id in t.rows && id !in s.rows {
        NewRowIsUnwritten(s, id);
      }
    }
  }

  lemma NewRowIsUnwritten(s: State, id: nat)
    requires Inv(s) && id !in s.rows && id !in s.published
    ensures Copies(s.topic, id) == 0 && Writers(s, id) == {}
  {
    NoCopies(s.topic, id);
    forall k | k in s.drains
      ensures !MayWrite(s, k, id)
    {
      assert DrainOk(s, k);
    }
  }

  lemma ClaimCovered(s: State, k: nat, locked: set<nat>, returned: seq<nat>)
    requires Inv(s) && Covered(s)
    requires Enabled(s, ClaimBatch(k, locked, returned)) && Returnable(s, ClaimBatch(k, locked, returned))
    ensures Covered(AfterClaim(s, k, returned))
  {
    var t := AfterClaim(s, k, returned);
    forall id: nat
      ensures RowCovered(t, id)
    {
      assert RowCovered(s, id);
      ClaimedWriters(s, k, returned, id);
    }
  }

  lemma ClaimedWriters(s: State, k: nat, returned: seq<nat>, id: nat)
    requires k !in s.drains && forall i :: 0 <= i < |returned| ==> returned[i] in s.rows
    ensures |Writers(AfterClaim(s, k, returned), id)| <= |Writers(s, id)| + if id in Elements(returned) then 1 else 0
  {
    var t := AfterClaim(s, k, returned);
    var more := if id in Elements(returned) then {k} else {};
    forall l | MayWrite(t, l, id)
      ensures l in Writers(s, id) + more
    {
      if l == k {
        var i :| 0 <= i < |returned| && t.drains[k].batch[i].id == id;
        assert returned[i] == id;
      } else {
        SameDrainWrites(s, t, l, id);
      }
    }
    SubsetSize(Writers(t, id), Writers(s, id) + more);
    SplitSize(Writers(s, id) + more, Writers(s, id), more - Writers(s, id));
    SubsetSize(more - Writers(s, id), more);
  }

  lemma WriteCovered(s: State, k: nat, ack: Ack, freshId: string)
    requires Inv(s) && Covered(s) && Enabled(s, Write(k, ack, freshId))
    ensures Covered(AfterWrite(s, k, ack, freshId))
  {
    var t, c := AfterWrite(s, k, ack, freshId), Current(s, k);
    forall id: nat
      ensures RowCovered(t, id)
    {
      assert RowCovered(s, id);
      OneMoreCopy(s.topic, c.id, Dispatched(s.writes, c.kind, c.key, c.payload, freshId, ack), id);
      forall l | MayWrite(t, l, id)
        ensures MayWrite(s, l, id) && (l == k ==> id != c.id)
      {
        SameDrainWrites(s, t, l, id);
        if l == k {
          WrittenOnce(s, t, k);
        }
      }
      FewerWriters(s, t, id);
      if id == c.id {
        WriterSpent(s, t, k);
      }
    }
  }

  lemma WrittenOnce(s: State, t: State, k: nat)
    requires At(s, k) && OncePerBatch(s.drains[k])
    requires k in t.drains && t.drains[k].batch == s.drains[k].batch && FirstUnwritten(t.drains[k]) > s.drains[k].next
    ensures !MayWrite(t, k, Current(s, k).id)
  {
  }

  // The drain that has just written a row gives up its one permission.
  lemma WriterSpent(s: State, t: State, k: nat)
    requires At(s, k) && s.drains[k].answer.None?
    requires !MayWrite(t, k, Current(s, k).id) && Writers(t, Current(s, k).id) <= Writers(s, Current(s, k).id)
    ensures |Writers(t, Current(s, k).id)| + 1 <= |Writers(s, Current(s, k).id)|
  {
    var id := Current(s, k).id;
    assert s.drains[k].batch[s.drains[k].next].id == id;
    assert MayWrite(s, k, id);
    SubsetSize(Writers(t, id), Writers(s, id) - {k});
    SplitSize(Writers(s, id), Writers(s, id) - {k}, {k});
  }

  lemma StepCovered(s: State, step: Step)
    requires Inv(s) && Covered(s) && Enabled(s, step) && Returnable(s, step)
    ensures Covered(Apply(s, step))
  {
    if step.ClaimBatch? {
      ClaimCovered(s, step.drain, step.locked, step.returned);
    } else if step.Write? {
      WriteCovered(s, step.drain, step.ack, step.freshId);
    } else if step.Mark? {
      QuietCovered(s, AfterMark(s, step.drain, step.stored));
    } else if step.Publish? {
      PublishCovered(s, step.kind, step.key, step.data, step.freshId);
    } else {
      QuietCovered(s, Apply(s, step));
    }
  }

  lemma PublishCovered(s: State, kind: string, key: string, data: Json, freshId: string)
    requires Inv(s) && Covered(s)
    ensures Covered(AfterPublish(s, kind, key, data, freshId))
  {
    assert s.nextId in s.rows ==> RowOk(s, s.nextId);
    QuietCovered(s, AfterPublish(s, kind, key, data, freshId));
  }

  lemma {:induction false} RunCovered(s: State, steps: seq<Step>)
    requires Inv(s) && Covered(s) && ValidRun(s, steps)
    ensures Inv(Final(s, steps)) && Covered(Final(s, steps))
    decreases |steps|
  {
    if steps == [] {
    } else {
      StepInv(s, steps[0]);
      StepCovered(s, steps[0]);
      RunCovered(Apply(s, steps[0]), steps[1..]);
    }
  }

  /** In every reachable state, whatever is redelivered, crashes or races: the topic holds at most one
      copy of a row for each claim of it, and at least one once the row is dispatched over a writer. */
  lemma DeliveriesBounded(s: State, steps: seq<Step>, id: nat)
    requires Init(s) && ValidRun(s, steps) && id in Final(s, steps).rows
    ensures var t := Final(s, steps);
            && Copies(t.topic, id) <= t.rows[id].attempts
            && (IsDispatched(t, id) && t.writes ==> Copies(t.topic, id) >= 1)
  {
    RunCovered(s, steps);
    var t := Final(s, steps);
    assert RowCovered(t, id) && RowOk(t, id);
    NoCopies(t.topic, id);
  }
}
