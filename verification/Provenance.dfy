/** Where things come from: every row and every request to the central DMS can be traced to the one
    capture request that asked for it, and carries what that request carried. */
module Provenance {
  import opened Documents
  import opened DocumentTable
  import opened Upstream
  import opened NodeProtocol
  import opened Ledger
  import opened CaptureOnce
  import opened Replay

  // The row is what request a asked for, taken in between the request and now.
  predicate TracedTo(s: State, a: nat, id: Id) {
    && a in s.past.asked && s.past.asked[a].id == id && id in s.table
    && CarriesRequest(s.table[id].doc.capture, s.past.asked[a].capture, s.table[id].doc.capture.createdAt)
    && s.past.asked[a].at <= s.table[id].doc.capture.createdAt <= s.now
  }

  // A request at work still carries what it was begun with.
  predicate CallTraced(s: State, c: nat)
    requires c in s.calls
  {
    && c in s.past.asked && s.past.asked[c].at <= s.now
    && match s.calls[c]
       case Inserting(id, capture) => s.past.asked[c].id == id && s.past.asked[c].capture == capture
       case Reading(id, capture, inserted) => s.past.asked[c].id == id && s.past.asked[c].capture == capture
       case Replying(out, created) => true
  }

  predicate ReplyTraced(s: State, r: Return) {
    r.actor in s.past.asked && r.capture == s.past.asked[r.actor].capture
  }

  ghost predicate Traced(s: State) {
    && (forall a :: a in s.past.asked ==> a < s.nextActor)
    && (forall c :: c in s.calls ==> CallTraced(s, c))
    && (forall a: nat, id :: Done(s, DidInsert, a, id) ==> TracedTo(s, a, id))
    && (forall r :: r in s.past.completed ==> ReplyTraced(s, r))
  }

  // What was asked for is kept, and so are rows; the clock does not go back.
  ghost predicate Remembers(s: State, t: State) {
    && s.now <= t.now && Extends(s.table, t.table)
    && forall a :: a in s.past.asked ==> a in t.past.asked && t.past.asked[a] == s.past.asked[a]
  }

  lemma StaysTraced(s: State, t: State, a: nat, id: Id)
    requires Remembers(s, t) && TracedTo(s, a, id)
    ensures TracedTo(t, a, id)
  {
  }

  // Steps that insert nothing and move no request to its next statement.
  lemma QuietTraced(s: State, t: State)
    requires Inv(s) && Traced(s) && Remembers(s, t)
    requires forall a :: a in t.past.asked ==> a < t.nextActor
    requires forall c :: c in t.calls ==> CallTraced(t, c)
    requires t.past.completed == s.past.completed
    requires forall a: nat, id :: Done(t, DidInsert, a, id) ==> Done(s, DidInsert, a, id)
    ensures Traced(t)
  {
    forall a: nat, id | Done(t, DidInsert, a, id)
      ensures TracedTo(t, a, id)
    {
      StaysTraced(s, t, a, id);
    }
    forall r | r in t.past.completed
      ensures ReplyTraced(t, r)
    {
      assert ReplyTraced(s, r);
    }
  }

  lemma InsertTraced(s: State, call: nat, acked: bool)
    requires Inv(s) && Traced(s) && Enabled(s, RunInsert(call, acked))
    requires Extends(s.table, AfterInsert(s, call, acked).table)
    ensures Traced(AfterInsert(s, call, acked))
  {
    var t, id := AfterInsert(s, call, acked), s.calls[call].id;
    var inserted := InsertTagFor(s.table, id, s.calls[call].capture) == OneRow;
    assert CallTraced(s, call);
    InsertEntries(s, t, call, id, inserted);
    forall a: nat, x | Done(t, DidInsert, a, x)
      ensures TracedTo(t, a, x)
    {
      if Done(s, DidInsert, a, x) {
        StaysTraced(s, t, a, x);
      }
    }
    forall c | c in t.calls
      ensures CallTraced(t, c)
    {
      assert CallTraced(s, c);
    }
    forall r | r in t.past.completed
      ensures ReplyTraced(t, r)
    {
      assert ReplyTraced(s, r);
    }
  }

  lemma ReadTraced(s: State, call: nat, found: Option<Id>)
    requires Inv(s) && Traced(s) && Enabled(s, ReadBack(call, found))
    ensures Traced(AfterRead(s, call, found))
  {
    var t := AfterRead(s, call, found);
    assert CallTraced(s, call);
    SameEntries(s, t, call);
    forall a: nat, id | Done(t, DidInsert, a, id)
      ensures TracedTo(t, a, id)
    {
      StaysTraced(s, t, a, id);
    }
    forall c | c in t.calls
      ensures CallTraced(t, c)
    {
      assert CallTraced(s, c);
    }
    forall r | r in t.past.completed
      ensures ReplyTraced(t, r)
    {
      assert r in s.past.completed ==> ReplyTraced(s, r);
    }
  }

  lemma BeginTraced(s: State, id: Id, capture: Capture)
    requires Inv(s) && Traced(s)
    ensures Traced(Apply(s, BeginCapture(id, capture)))
  {
    var t := Apply(s, BeginCapture(id, capture));
    SameEntries(s, t, s.nextActor);
    forall c | c in t.calls
      ensures CallTraced(t, c)
    {
      assert c != s.nextActor ==> CallTraced(s, c);
    }
    QuietTraced(s, t);
  }

  lemma OtherTraced(s: State, step: Step)
    requires Inv(s) && Traced(s) && Enabled(s, step) && Returnable(s, step)
    requires !step.BeginCapture? && !step.RunInsert? && !step.ReadBack?
    requires Extends(s.table, Apply(s, step).table)
    ensures Traced(Apply(s, step))
  {
    var t := Apply(s, step);
    OthersKeepRequests(s, step);
    InsertsKept(s, step);
    forall c | c in t.calls
      ensures CallTraced(t, c)
    {
      assert CallTraced(s, c);
    }
    QuietTraced(s, t);
  }

  lemma OthersKeepRequests(s: State, step: Step)
    requires Enabled(s, step) && Returnable(s, step)
    requires !step.BeginCapture? && !step.RunInsert? && !step.ReadBack?
    ensures var t := Apply(s, step);
            && t.past.asked == s.past.asked && t.past.completed == s.past.completed
            && s.now <= t.now && s.nextActor <= t.nextActor
            && forall c :: c in t.calls ==> c in s.calls && t.calls[c] == s.calls[c]
  {
  }

  lemma StepTraced(s: State, step: Step)
    requires Inv(s) && Traced(s) && Enabled(s, step)
    ensures Returnable(s, step) && Traced(Apply(s, step))
  {
    StepTable(s, step);
    if step.BeginCapture? {
      BeginTraced(s, step.id, step.capture);
    } else if step.RunInsert? {
      InsertTraced(s, step.call, step.acked);
    } else if step.ReadBack? {
      ReadTraced(s, step.call, step.found);
    } else {
      OtherTraced(s, step);
    }
  }

  lemma {:induction false} RunTraced(s: State, steps: seq<Step>)
    requires Inv(s) && Traced(s) && ValidRun(s, steps)
    ensures Traced(Final(s, steps))
    decreases |steps|
  {
    if steps == [] {
    } else {
      StepInv(s, steps[0]);
      StepTraced(s, steps[0]);
      RunTraced(Apply(s, steps[0]), steps[1..]);
    }
  }

  lemma InitTraced(s: State)
    requires Init(s)
    ensures Inv(s) && Traced(s)
  {
    InitInv(s);
  }

  lemma AskedStep(s: State, step: Step, a: nat)
    requires Enabled(s, step) && Returnable(s, step) && a in Apply(s, step).past.asked
    ensures var t := Apply(s, step);
            || (a in s.past.asked && t.past.asked[a] == s.past.asked[a])
            || step == BeginCapture(t.past.asked[a].id, t.past.asked[a].capture)
  {
  }

  // What is on record as asked for is what some step of the run asked for.
  lemma {:induction false} AskedWasBegun(s: State, steps: seq<Step>, a: nat)
    requires ValidRun(s, steps) && a in Final(s, steps).past.asked
    ensures var asked := Final(s, steps).past.asked[a];
            (a in s.past.asked && asked == s.past.asked[a]) || BeginCapture(asked.id, asked.capture) in steps
    decreases |steps|
  {
    if steps == [] {
    } else {
      var t := Apply(s, steps[0]);
      AskedWasBegun(t, steps[1..], a);
      if a in t.past.asked {
        AskedStep(s, steps[0], a);
      }
    }
  }

  /** Every stored row was inserted by one capture request, begun in the run for this id, and carries that
      request's fields; an empty payload became the empty object. */
  lemma RowsCarryRequests(s: State, steps: seq<Step>, id: Id)
    requires Init(s) && ValidRun(s, steps) && id in Final(s, steps).table
    ensures var t := Final(s, steps);
            exists a :: InsertedBy(t, a, id) && a in t.past.asked
              && t.past.asked[a].id == id && BeginCapture(id, t.past.asked[a].capture) in steps
              && CarriesRequest(t.table[id].doc.capture, t.past.asked[a].capture, t.table[id].doc.capture.createdAt)
              && t.past.asked[a].at <= t.table[id].doc.capture.createdAt <= t.now
  {
    InitBalanced(s);
    RunBalanced(s, steps);
    InitTraced(s);
    RunTraced(s, steps);
    var a := RowHasOneInserter(Final(s, steps), id);
    AskedWasBegun(s, steps, a);
    assert TracedTo(Final(s, steps), a, id);
  }

  // The body of a request to the central DMS is what was asked for; empty fields are left out.
  predicate SendsRequest(b: IngestRequest, asked: Capture) {
    && b.depotId == asked.depotId && b.docType == asked.docType && b.reference == asked.reference
    && b.outletId == (if asked.outletId == "" then None else Some(asked.outletId))
    && b.capturedBy == (if asked.capturedBy == "" then None else Some(asked.capturedBy))
    && b.payload == (if asked.payload == "" then "{}" else asked.payload)
  }

  /** Every request that reached the central DMS carries what the capture request behind it carried,
      under the id that request was given, with the instant it was taken in. */
  lemma PostsCarryRequests(s: State, steps: seq<Step>, p: Post)
    requires Init(s) && ValidRun(s, steps) && p in Final(s, steps).past.posts
    ensures var t := Final(s, steps);
            exists a :: InsertedBy(t, a, p.idempotencyKey) && a in t.past.asked
              && BeginCapture(p.idempotencyKey, t.past.asked[a].capture) in steps
              && SendsRequest(p.body, t.past.asked[a].capture)
              && t.past.asked[a].at <= p.body.capturedAt <= t.now
  {
    InitAccountable(s);
    RunAccountable(s, steps);
    RowsCarryRequests(s, steps, p.idempotencyKey);
  }

  /** A reply answers the request it belongs to: it names a row with that request's depot, type and
      reference, and when it says created, the very row the request asked for. */
  lemma RepliesAnswerRequests(s: State, steps: seq<Step>, r: Return)
    requires Init(s) && ValidRun(s, steps) && r in Final(s, steps).past.completed
    ensures var t := Final(s, steps);
            && r.actor in t.past.asked && r.out in t.table
            && var asked, stored := t.past.asked[r.actor].capture, t.table[r.out].doc.capture;
            && r.capture == asked && stored.depotId == asked.depotId && stored.docType == asked.docType
            && stored.reference == asked.reference
            && (r.created ==> r.out == t.past.asked[r.actor].id && CarriesRequest(stored, asked, stored.createdAt))
  {
    InitBalanced(s);
    RunAnswerable(s, steps);
    InitTraced(s);
    RunTraced(s, steps);
    var t := Final(s, steps);
    assert ReplyOk(t, r) && ReplyTraced(t, r);
    assert r.created ==> TracedTo(t, r.actor, r.out);
  }
}
