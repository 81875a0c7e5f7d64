/** What survives any run, with crashes, lost acknowledgements and retries: no captured document
    is lost or altered, a replayed request repeats the original one, and nothing is marked synced
    that the central DMS did not accept. */
module Replay {
  import opened Backoff
  import opened Documents
  import opened DocumentTable
  import opened Upstream
  import opened NodeProtocol

  predicate HasAccepted(s: State, k: nat, id: Id) {
    Event(DidAccept, k, id) in s.log
  }

  // The central DMS answered a request about the document with a 2xx.
  predicate TookIt(e: Exchange, id: Id) {
    e.doc == id && e.reply.Answer? && 200 <= e.reply.code < 300
  }

  ghost predicate WasTaken(s: State, k: nat, id: Id) {
    exists e :: e in s.past.exchanges && e.sweep == k && TookIt(e, id)
  }

  // Some 2xx answer assigned the document the id it is synced under.
  ghost predicate SyncedUnder(s: State, id: Id, upstreamId: string) {
    exists e :: e in s.past.exchanges && TookIt(e, id) && e.reply.assignedId == upstreamId
  }

  ghost predicate Accountable(s: State) {
    && (forall p :: p in s.past.posts ==> p.idempotencyKey in s.table && p == RequestFor(s.table[p.idempotencyKey].doc))
    && (forall id :: id in s.table && s.table[id].doc.status == Synced ==>
          SyncedUnder(s, id, s.table[id].doc.upstreamId))
    && (forall k :: At(s, k) && s.sweeps[k].stage.Answered? ==>
          Exchange(k, Head(s, k).id, s.sweeps[k].stage.reply) in s.past.exchanges)
    && (forall k: nat, id :: HasAccepted(s, k, id) <==> WasTaken(s, k, id))
  }

  // The request for a row depends only on what never changes.
  lemma RequestsKept(s: State, t: State)
    requires Consistent(s.table) && Consistent(t.table) && Extends(s.table, t.table) && t.past.posts == s.past.posts
    requires forall p :: p in s.past.posts ==>
      p.idempotencyKey in s.table && p == RequestFor(s.table[p.idempotencyKey].doc)
    ensures forall p :: p in t.past.posts ==>
      p.idempotencyKey in t.table && p == RequestFor(t.table[p.idempotencyKey].doc)
  {
  }

  // The same has been accepted, and heard, in both states.
  ghost predicate SameAnswers(s: State, t: State) {
    t.past.posts == s.past.posts && t.past.exchanges == s.past.exchanges
    && forall k: nat, id :: HasAccepted(t, k, id) <==> HasAccepted(s, k, id)
  }

  lemma OthersKeepAnswers(s: State, step: Step)
    requires Enabled(s, step) && Returnable(s, step) && !step.PostDocument?
    ensures SameAnswers(s, Apply(s, step))
  {
    var t := Apply(s, step);
    forall k: nat, id
      ensures HasAccepted(t, k, id) <==> HasAccepted(s, k, id)
    {
      assert Event(DidAccept, k, id) in t.log <==> Event(DidAccept, k, id) in s.log;
    }
  }

  // Steps that post nothing and put no new answer in a sweep's hands.
  lemma SilentAccountable(s: State, t: State)
    requires Accountable(s) && Consistent(s.table) && Consistent(t.table)
    requires Extends(s.table, t.table) && SameAnswers(s, t)
    requires forall id :: id in t.table && t.table[id].doc.status == Synced ==>
      || SyncedUnder(s, id, t.table[id].doc.upstreamId)
      || (id in s.table && s.table[id].doc.status == Synced
          && s.table[id].doc.upstreamId == t.table[id].doc.upstreamId)
    requires forall k :: At(t, k) && t.sweeps[k].stage.Answered? ==> k in s.sweeps && s.sweeps[k] == t.sweeps[k]
    ensures Accountable(t)
  {
    RequestsKept(s, t);
    forall id | id in t.table && t.table[id].doc.status == Synced
      ensures SyncedUnder(t, id, t.table[id].doc.upstreamId)
    {
      assert SyncedUnder(s, id, t.table[id].doc.upstreamId);
    }
    forall k | At(t, k) && t.sweeps[k].stage.Answered?
      ensures Exchange(k, Head(t, k).id, t.sweeps[k].stage.reply) in t.past.exchanges
    {
      assert At(s, k);
    }
    forall k: nat, id
      ensures HasAccepted(t, k, id) <==> WasTaken(t, k, id)
    {
      assert WasTaken(t, k, id) <==> WasTaken(s, k, id);
    }
  }

  /** A mark that is stored leaves the row as the answer of that very request says: synced after a 2xx,
      under the id assigned, and failed after anything else. No other row changes. */
  lemma MarkCarriesAnswer(s: State, k: nat, acked: bool)
    requires Inv(s) && Enabled(s, MarkDocument(k, true, acked))
    ensures var t, d, reply := Apply(s, MarkDocument(k, true, acked)), Head(s, k), s.sweeps[k].stage.reply;
            && d.id in s.table && d.id in t.table
            && CarriesAnswer(t.table[d.id].doc, s.table[d.id].doc, reply, s.now, s.now)
            && t.table[d.id].availableAt == (
                 if reply.Answer? && 200 <= reply.code < 300 then s.table[d.id].availableAt
                 else s.now + Interval(Delay(d.syncAttempts, s.cfg.maxBackoff, s.cfg.outOfRange)))
            && t.table == s.table[d.id := t.table[d.id]]
  {
    assert SweepOk(s, k);
  }

  /** A document becomes synced exactly when a sweep stores the mark of a 2xx answer about it. */
  lemma BecomesSyncedIff(s: State, step: Step, id: Id)
    requires Inv(s) && Enabled(s, step) && Returnable(s, step)
    requires id in s.table ==> s.table[id].doc.status != Synced
    ensures id in Apply(s, step).table && Apply(s, step).table[id].doc.status == Synced
       <==> step.MarkDocument? && step.committed && Head(s, step.sweep).id == id
            && s.sweeps[step.sweep].stage.reply.Answer? && 200 <= s.sweeps[step.sweep].stage.reply.code < 300
  {
    if step.MarkDocument? {
      MarkRows(s, step.sweep, step.committed, step.acked);
      assert SweepOk(s, step.sweep);
      if step.committed {
        MarkCarriesAnswer(s, step.sweep, step.acked);
      }
    } else if !Writes(step) {
      OthersOnlyRead(s, step);
    }
  }

  lemma MarkAccountable(s: State, k: nat, committed: bool, acked: bool)
    requires Inv(s) && Accountable(s) && Enabled(s, MarkDocument(k, committed, acked))
    ensures Accountable(AfterMark(s, k, committed, acked))
  {
    var t, d := AfterMark(s, k, committed, acked), Head(s, k);
    MarkShape(s, k, committed, acked);
    MarkInv(s, k, committed, acked);
    OthersKeepAnswers(s, MarkDocument(k, committed, acked));
    SameRowsConsistent(s.table, t.table);
    forall id | id in t.table && t.table[id].doc.status == Synced
      ensures || SyncedUnder(s, id, t.table[id].doc.upstreamId)
              || (id in s.table && s.table[id].doc.status == Synced
                  && s.table[id].doc.upstreamId == t.table[id].doc.upstreamId)
    {
      MarkedIsSynced(s, k, committed, acked, id);
    }
    SilentAccountable(s, t);
  }

  lemma MarkedIsSynced(s: State, k: nat, committed: bool, acked: bool, id: Id)
    requires Inv(s) && Accountable(s) && Enabled(s, MarkDocument(k, committed, acked))
    requires var t := AfterMark(s, k, committed, acked).table;
             id in t && t[id].doc.status == Synced
    ensures var t := AfterMark(s, k, committed, acked).table;
            || SyncedUnder(s, id, t[id].doc.upstreamId)
            || (id in s.table && s.table[id].doc.status == Synced
                && s.table[id].doc.upstreamId == t[id].doc.upstreamId)
  {
    MarkRows(s, k, committed, acked);
    if id == Head(s, k).id && committed {
      MarkCarriesAnswer(s, k, acked);
      assert TookIt(Exchange(k, id, s.sweeps[k].stage.reply), id);
    }
  }

  lemma PostAccountable(s: State, k: nat, reply: Reply)
    requires Inv(s) && Accountable(s) && Enabled(s, PostDocument(k, reply))
    ensures Accountable(AfterPost(s, k, reply))
  {
    var t, d := AfterPost(s, k, reply), Head(s, k);
    var e := Exchange(k, d.id, reply);
    assert SweepOk(s, k);
    RequestDeterminesCapture(d, s.table[d.id].doc);
    assert t.past.exchanges == s.past.exchanges + [e];
    forall id | id in t.table && t.table[id].doc.status == Synced
      ensures SyncedUnder(t, id, t.table[id].doc.upstreamId)
    {
      var x :| x in s.past.exchanges && TookIt(x, id) && x.reply.assignedId == s.table[id].doc.upstreamId;
      assert x in t.past.exchanges;
    }
    forall l | At(t, l) && t.sweeps[l].stage.Answered?
      ensures Exchange(l, Head(t, l).id, t.sweeps[l].stage.reply) in t.past.exchanges
    {
      assert l != k ==> At(s, l);
    }
    forall l: nat, id
      ensures HasAccepted(t, l, id) <==> WasTaken(t, l, id)
    {
      OneMoreAnswer(s, t, k, reply, l, id);
    }
  }

  lemma OneMoreAnswer(s: State, t: State, k: nat, reply: Reply, l: nat, id: Id)
    requires At(s, k) && s.sweeps[k].stage.ToPost? && t == AfterPost(s, k, reply)
    requires HasAccepted(s, l, id) <==> WasTaken(s, l, id)
    ensures HasAccepted(t, l, id) <==> WasTaken(t, l, id)
  {
    var e := Exchange(k, Head(s, k).id, reply);
    assert t.past.exchanges == s.past.exchanges + [e];
    assert Event(DidAccept, l, id) in t.log <==>
      Event(DidAccept, l, id) in s.log || (TookIt(e, Head(s, k).id) && l == k && id == Head(s, k).id);
    if WasTaken(s, l, id) {
      var x :| x in s.past.exchanges && x.sweep == l && TookIt(x, id);
      assert x in t.past.exchanges;
    }
    if WasTaken(t, l, id) {
      var x :| x in t.past.exchanges && x.sweep == l && TookIt(x, id);
      assert x in s.past.exchanges || x == e;
    }
    assert e in t.past.exchanges;
  }

  lemma StepAccountable(s: State, step: Step)
    requires Inv(s) && Accountable(s) && Enabled(s, step)
    ensures Returnable(s, step) && Accountable(Apply(s, step))
  {
    StepInv(s, step);
    StepTable(s, step);
    if step.MarkDocument? {
      MarkAccountable(s, step.sweep, step.committed, step.acked);
    } else if step.PostDocument? {
      PostAccountable(s, step.sweep, step.reply);
    } else {
      OthersKeepAnswers(s, step);
      OtherAccountable(s, step);
    }
  }

  lemma CommitAccountable(s: State, k: nat, returned: seq<Id>)
    requires Inv(s) && Accountable(s) && Enabled(s, CommitClaim(k, returned)) && Returnable(s, CommitClaim(k, returned))
    requires Inv(AfterCommit(s, k, returned)) && SameAnswers(s, AfterCommit(s, k, returned))
    ensures Accountable(AfterCommit(s, k, returned))
  {
    CommitInv(s, k, returned);
    SameRowsConsistent(s.table, AfterCommit(s, k, returned).table);
    SilentAccountable(s, AfterCommit(s, k, returned));
  }

  lemma InsertAccountable(s: State, call: nat, acked: bool)
    requires Inv(s) && Accountable(s) && Enabled(s, RunInsert(call, acked))
    requires Inv(AfterInsert(s, call, acked)) && SameAnswers(s, AfterInsert(s, call, acked))
    ensures Accountable(AfterInsert(s, call, acked))
  {
    SilentAccountable(s, AfterInsert(s, call, acked));
  }

  lemma OtherAccountable(s: State, step: Step)
    requires Inv(s) && Accountable(s) && Enabled(s, step) && Returnable(s, step) && Inv(Apply(s, step))
    requires Extends(s.table, Apply(s, step).table) && SameAnswers(s, Apply(s, step))
    requires !step.MarkDocument? && !step.PostDocument?
    ensures Accountable(Apply(s, step))
  {
    if step.CommitClaim? {
      CommitAccountable(s, step.sweep, step.returned);
    } else if step.RunInsert? {
      InsertAccountable(s, step.call, step.acked);
    } else {
      QuietAccountable(s, step);
    }
  }

  lemma QuietAccountable(s: State, step: Step)
    requires Inv(s) && Accountable(s) && Enabled(s, step) && Returnable(s, step) && Inv(Apply(s, step))
    requires Extends(s.table, Apply(s, step).table) && SameAnswers(s, Apply(s, step))
    requires !step.MarkDocument? && !step.PostDocument? && !step.CommitClaim? && !step.RunInsert?
    ensures Accountable(Apply(s, step))
  {
    if step.ResetForRetry? {
      SilentAccountable(s, s.(table := Requeued(s.table, step.id, s.now)));
    } else {
      OthersOnlyRead(s, step);
      AnswersInHand(s, step);
      SilentAccountable(s, Apply(s, step));
    }
  }

  // A sweep that holds an answer after a step held it before, unless the step posted.
  lemma AnswersInHand(s: State, step: Step)
    requires Enabled(s, step) && Returnable(s, step)
    requires !step.MarkDocument? && !step.PostDocument? && !step.CommitClaim?
    ensures var t := Apply(s, step);
            forall k :: At(t, k) && t.sweeps[k].stage.Answered? ==> k in s.sweeps && s.sweeps[k] == t.sweeps[k]
  {
  }

  lemma InitAccountable(s: State)
    requires Init(s)
    ensures Inv(s) && Accountable(s)
  {
    InitInv(s);
  }

  lemma {:induction false} RunAccountable(s: State, steps: seq<Step>)
    requires Inv(s) && Accountable(s) && ValidRun(s, steps)
    ensures Inv(Final(s, steps)) && Accountable(Final(s, steps))
    decreases |steps|
  {
    if steps == [] {
    } else {
      StepInv(s, steps[0]);
      StepAccountable(s, steps[0]);
      RunAccountable(Apply(s, steps[0]), steps[1..]);
    }
  }

  /** No run loses a captured document or changes what was captured. */
  lemma {:induction false} NothingIsLost(s: State, steps: seq<Step>)
    requires Inv(s) && ValidRun(s, steps)
    ensures Extends(s.table, Final(s, steps).table)
    decreases |steps|
  {
    if steps == [] {
    } else {
      StepInv(s, steps[0]);
      StepTable(s, steps[0]);
      NothingIsLost(Apply(s, steps[0]), steps[1..]);
    }
  }

  /** Two requests of one run carry the same idempotency key exactly when they are the same request
      for the same captured row. */
  lemma ReplayIsConsistent(s: State, steps: seq<Step>, i: nat, j: nat)
    requires Init(s) && ValidRun(s, steps) && i < |Final(s, steps).past.posts| && j < |Final(s, steps).past.posts|
    ensures var t := Final(s, steps);
            && t.past.posts[i].idempotencyKey in t.table
            && t.past.posts[i] == RequestFor(t.table[t.past.posts[i].idempotencyKey].doc)
            && (t.past.posts[i].idempotencyKey == t.past.posts[j].idempotencyKey <==>
                t.past.posts[i] == t.past.posts[j])
  {
    InitAccountable(s);
    RunAccountable(s, steps);
    var t := Final(s, steps);
    assert t.past.posts[i] in t.past.posts && t.past.posts[j] in t.past.posts;
  }

  lemma ExchangeStep(s: State, step: Step, e: Exchange)
    requires Enabled(s, step) && Returnable(s, step) && e in Apply(s, step).past.exchanges
    ensures e in s.past.exchanges || step == PostDocument(e.sweep, e.reply)
  {
  }

  // What is on record as heard is how some request of the run ended.
  lemma {:induction false} ExchangeWasPosted(s: State, steps: seq<Step>, e: Exchange)
    requires ValidRun(s, steps) && e in Final(s, steps).past.exchanges
    ensures e in s.past.exchanges || PostDocument(e.sweep, e.reply) in steps
    decreases |steps|
  {
    if steps == [] {
    } else {
      var t := Apply(s, steps[0]);
      ExchangeWasPosted(t, steps[1..], e);
      if e in t.past.exchanges {
        ExchangeStep(s, steps[0], e);
      }
    }
  }

  /** Every synced document had a 2xx answer from the central DMS, and carries the id that answer
      assigned; what the log calls accepted is exactly what was answered so. */
  lemma SyncedWasAccepted(s: State, steps: seq<Step>, id: Id)
    requires Init(s) && ValidRun(s, steps)
    requires id in Final(s, steps).table && Final(s, steps).table[id].doc.status == Synced
    ensures var t := Final(s, steps);
            exists e :: e in t.past.exchanges && e.doc == id && e.reply.Answer? && 200 <= e.reply.code < 300
                        && t.table[id].doc.upstreamId == e.reply.assignedId
                        && PostDocument(e.sweep, e.reply) in steps && HasAccepted(t, e.sweep, id)
  {
    InitAccountable(s);
    RunAccountable(s, steps);
    var t := Final(s, steps);
    var e :| e in t.past.exchanges && TookIt(e, id) && e.reply.assignedId == t.table[id].doc.upstreamId;
    assert WasTaken(t, e.sweep, id);
    ExchangeWasPosted(s, steps, e);
  }
}
