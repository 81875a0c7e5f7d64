/** Idempotent capture when requests race: insert and read-back are separate statements, and any
    number of requests for one (depot, type, reference) interleave with everything else. */
module CaptureOnce {
  import opened Documents
  import opened DocumentTable
  import opened NodeProtocol
  import opened Ledger

  ghost predicate Finished(s: State, a: nat) {
    exists r :: r in s.past.completed && r.actor == a
  }

  // A reply names a stored row, with the request's triple; it says created when its request inserted it.
  ghost predicate ReplyOk(s: State, r: Return) {
    && r.actor < s.nextActor
    && r.out in s.table && SameTriple(s.table[r.out].doc.capture, r.capture)
    && (r.created <==> Done(s, DidInsert, r.actor, r.out))
    && (r.capture.reference == "" ==> r.created)
  }

  ghost predicate PendingCallOk(s: State, c: nat)
    requires c in s.calls
  {
    match s.calls[c]
    case Inserting(id, capture) => !Finished(s, c)
    case Reading(id, capture, inserted) =>
      && !Finished(s, c)
      && if inserted then id in s.table && SameTriple(s.table[id].doc.capture, capture)
         else Taken(s.table, capture) && forall doc :: !Done(s, DidInsert, c, doc)
    case Replying(out, created) => true
  }

  ghost predicate OncePerActor(rs: seq<Return>) {
    forall i, j :: 0 <= i < j < |rs| ==> rs[i].actor != rs[j].actor
  }

  ghost predicate Answerable(s: State) {
    && OncePerActor(s.past.completed)
    && (forall r :: r in s.past.completed ==> ReplyOk(s, r))
    && (forall c :: c in s.calls ==> PendingCallOk(s, c))
  }

  // Steps by actors other than the pending requests keep what they rely on.
  ghost predicate KeepsInserts(s: State, t: State) {
    && s.nextActor <= t.nextActor && Extends(s.table, t.table)
    && (forall a: nat, doc :: a < s.nextActor ==> (Done(t, DidInsert, a, doc) <==> Done(s, DidInsert, a, doc)))
  }

  lemma RepliesKept(s: State, t: State)
    requires KeepsInserts(s, t) && forall r :: r in s.past.completed ==> ReplyOk(s, r)
    ensures forall r :: r in s.past.completed ==> ReplyOk(t, r)
  {
    forall r | r in s.past.completed
      ensures ReplyOk(t, r)
    {
      assert ReplyOk(s, r);
    }
  }

  lemma CallKept(s: State, t: State, c: nat)
    requires KeepsInserts(s, t) && t.past.completed == s.past.completed
    requires c in s.calls && c in t.calls && t.calls[c] == s.calls[c] && c < s.nextActor && PendingCallOk(s, c)
    ensures PendingCallOk(t, c)
  {
    if s.calls[c].Reading? && !s.calls[c].inserted {
      TakenKept(s.table, t.table, s.calls[c].capture);
    }
  }

  lemma TakenKept(t: Table, u: Table, c: Capture)
    requires Extends(t, u) && Taken(t, c)
    ensures Taken(u, c)
  {
    var id :| id in t && SameTriple(t[id].doc.capture, c);
    assert id in u && SameTriple(u[id].doc.capture, c);
  }

  lemma QuietAnswerable(s: State, t: State)
    requires Inv(s) && Answerable(s) && KeepsInserts(s, t) && t.past.completed == s.past.completed
    requires forall c :: c in t.calls ==>
      (c in s.calls && t.calls[c] == s.calls[c]) || (c == s.nextActor && t.calls[c].Inserting?)
    ensures Answerable(t)
  {
    RepliesKept(s, t);
    forall c | c in t.calls
      ensures PendingCallOk(t, c)
    {
      if c in s.calls && t.calls[c] == s.calls[c] {
        CallKept(s, t, c);
      }
    }
  }

  lemma InsertAnswerable(s: State, call: nat, acked: bool)
    requires Inv(s) && Balanced(s) && Answerable(s) && Enabled(s, RunInsert(call, acked))
    ensures Answerable(AfterInsert(s, call, acked))
  {
    var t, id, c := AfterInsert(s, call, acked), s.calls[call].id, s.calls[call].capture;
    var tag := InsertTagFor(s.table, id, c);
    assert CallEntry(s, call) && PendingCallOk(s, call);
    InsertEntries(s, t, call, id, tag == OneRow);
    forall r | r in t.past.completed
      ensures ReplyOk(t, r)
    {
      assert ReplyOk(s, r);
      assert r.actor != call;
    }
    forall x | x in t.calls
      ensures PendingCallOk(t, x)
    {
      if x != call {
        OtherCallKept(s, t, call, x);
      } else if tag == NoRow {
        assert Taken(t.table, c);
      }
    }
  }

  lemma InsertEntries(s: State, t: State, call: nat, id: Id, inserted: bool)
    requires t.log == if inserted then s.log + [Event(DidInsert, call, id)] else s.log
    ensures forall kind, actor: nat, doc ::
      Done(t, kind, actor, doc) <==>
      Done(s, kind, actor, doc) || (inserted && kind == DidInsert && actor == call && doc == id)
  {
    if inserted {
      OneMoreEntry(s, t, Event(DidInsert, call, id));
    }
  }

  lemma OtherCallKept(s: State, t: State, call: nat, x: nat)
    requires Answerable(s) && Extends(s.table, t.table) && t.past.completed == s.past.completed
    requires x in s.calls && x in t.calls && t.calls[x] == s.calls[x] && x != call
    requires forall doc :: Done(t, DidInsert, x, doc) <==> Done(s, DidInsert, x, doc)
    ensures PendingCallOk(t, x)
  {
    assert PendingCallOk(s, x);
    if s.calls[x].Reading? && !s.calls[x].inserted {
      TakenKept(s.table, t.table, s.calls[x].capture);
    }
  }

  /** The read that follows an insert always finds a row. */
  lemma ReadNeverMisses(s: State, call: nat, found: Option<Id>)
    requires Inv(s) && Answerable(s) && Enabled(s, ReadBack(call, found))
    ensures found.Some? && found.value in s.table
    ensures SameTriple(s.table[found.value].doc.capture, s.calls[call].capture)
  {
    assert PendingCallOk(s, call);
  }

  lemma ReadAnswerable(s: State, call: nat, found: Option<Id>)
    requires Inv(s) && Balanced(s) && Answerable(s) && Enabled(s, ReadBack(call, found))
    ensures Answerable(AfterRead(s, call, found))
  {
    var t, c := AfterRead(s, call, found), s.calls[call];
    ReadNeverMisses(s, call, found);
    assert PendingCallOk(s, call) && CallEntry(s, call);
    var reply := Return(call, c.capture, found.value, c.inserted);
    assert t.past.completed == s.past.completed + [reply];
    SameEntries(s, t, call);
    assert ReplyOk(t, reply);
    forall r | r in t.past.completed
      ensures ReplyOk(t, r)
    {
      assert r in s.past.completed || r == reply;
      assert r in s.past.completed ==> ReplyOk(s, r);
    }
    forall i, j | 0 <= i < j < |t.past.completed|
      ensures t.past.completed[i].actor != t.past.completed[j].actor
    {
      assert s.past.completed[i] in s.past.completed;
    }
    forall x | x in t.calls
      ensures PendingCallOk(t, x)
    {
      assert PendingCallOk(s, x);
      if Finished(t, x) {
        OneMoreFinished(s, t, reply, x);
      }
    }
  }

  lemma OneMoreFinished(s: State, t: State, reply: Return, x: nat)
    requires t.past.completed == s.past.completed + [reply] && Finished(t, x)
    ensures Finished(s, x) || x == reply.actor
  {
    var r :| r in t.past.completed && r.actor == x;
    assert r in s.past.completed || r == reply;
  }

  lemma StepAnswerable(s: State, step: Step)
    requires Inv(s) && Balanced(s) && Answerable(s) && Enabled(s, step)
    ensures Returnable(s, step) && Answerable(Apply(s, step))
  {
    StepTable(s, step);
    match step
    case RunInsert(call, acked) => InsertAnswerable(s, call, acked);
    case ReadBack(call, found) => ReadAnswerable(s, call, found);
    case _ => OtherAnswerable(s, step);
  }

  lemma OtherAnswerable(s: State, step: Step)
    requires Inv(s) && Answerable(s) && Enabled(s, step) && Returnable(s, step)
    requires !step.RunInsert? && !step.ReadBack? && Extends(s.table, Apply(s, step).table)
    ensures Answerable(Apply(s, step))
  {
    InsertsKept(s, step);
    CallsKept(s, step);
    QuietAnswerable(s, Apply(s, step));
  }

  // Only the two statements of a capture move a request on or complete it.
  lemma CallsKept(s: State, step: Step)
    requires Enabled(s, step) && Returnable(s, step) && !step.RunInsert? && !step.ReadBack?
    ensures Apply(s, step).past.completed == s.past.completed && s.nextActor <= Apply(s, step).nextActor
    ensures forall c :: c in Apply(s, step).calls ==>
      (c in s.calls && Apply(s, step).calls[c] == s.calls[c])
      || (c == s.nextActor && Apply(s, step).calls[c].Inserting?)
  {
  }

  lemma InsertsKept(s: State, step: Step)
    requires Enabled(s, step) && Returnable(s, step) && !step.RunInsert?
    ensures forall a: nat, doc :: Done(Apply(s, step), DidInsert, a, doc) <==> Done(s, DidInsert, a, doc)
  {
    var t := Apply(s, step);
    forall a: nat, doc
      ensures Done(t, DidInsert, a, doc) <==> Done(s, DidInsert, a, doc)
    {
      assert Event(DidInsert, a, doc) in t.log <==> Event(DidInsert, a, doc) in s.log;
    }
  }

  lemma {:induction false} RunAnswerable(s: State, steps: seq<Step>)
    requires Inv(s) && Balanced(s) && Answerable(s) && ValidRun(s, steps)
    ensures Inv(Final(s, steps)) && Balanced(Final(s, steps)) && Answerable(Final(s, steps))
    decreases |steps|
  {
    if steps == [] {
    } else {
      StepInv(s, steps[0]);
      StepBalanced(s, steps[0]);
      StepAnswerable(s, steps[0]);
      RunAnswerable(Apply(s, steps[0]), steps[1..]);
    }
  }

  // The request that inserted a row.
  ghost predicate InsertedBy(s: State, a: nat, id: Id) {
    Done(s, DidInsert, a, id) && forall b: nat :: Done(s, DidInsert, b, id) ==> b == a
  }

  lemma RowHasOneInserter(s: State, id: Id) returns (a: nat)
    requires Balanced(s) && id in s.table
    ensures InsertedBy(s, a, id)
  {
    assert Tallied(s, id);
    TallyIsActors(s.log, DidInsert, id);
    var actors := Actors(s.log, DidInsert, id);
    a :| a in actors;
    SplitSize(actors, {a}, actors - {a});
    assert actors - {a} == {};
    forall b: nat | Done(s, DidInsert, b, id)
      ensures b == a
    {
      assert Event(DidInsert, b, id) in s.log;
      assert b in actors;
    }
  }

  /** However the requests for one reference interleave, and whatever else happens: all replies
      name one row, one request inserted it, and a reply says created exactly when it is that
      request's. */
  lemma CaptureIsIdempotent(s: State, steps: seq<Step>, r: Return)
    requires Init(s) && ValidRun(s, steps)
    requires r in Final(s, steps).past.completed && r.capture.reference != ""
    ensures var t := Final(s, steps);
            exists a :: InsertedBy(t, a, r.out)
              && forall q :: q in t.past.completed && SameTriple(q.capture, r.capture)
                   ==> q.out == r.out && (q.created <==> q.actor == a)
  {
    InitBalanced(s);
    RunAnswerable(s, steps);
    var t := Final(s, steps);
    assert ReplyOk(t, r);
    var a := RowHasOneInserter(t, r.out);
    forall q | q in t.past.completed && SameTriple(q.capture, r.capture)
      ensures q.out == r.out && (q.created <==> q.actor == a)
    {
      assert ReplyOk(t, q);
      OneHolder(Docs(t.table), q.out, r.out);
    }
    assert InsertedBy(t, a, r.out);
  }

  /** No two replies for one reference say created. */
  lemma CreatedOnce(s: State, steps: seq<Step>, i: nat, j: nat)
    requires Init(s) && ValidRun(s, steps)
    requires i < |Final(s, steps).past.completed| && j < |Final(s, steps).past.completed|
    requires var q, r := Final(s, steps).past.completed[i], Final(s, steps).past.completed[j];
             q.created && r.created && q.capture.reference != "" && SameTriple(q.capture, r.capture)
    ensures i == j
  {
    InitBalanced(s);
    RunAnswerable(s, steps);
    var t := Final(s, steps);
    var q, r := t.past.completed[i], t.past.completed[j];
    assert q in t.past.completed && r in t.past.completed;
    CaptureIsIdempotent(s, steps, q);
    assert q.actor == r.actor;
  }

  /** The read-back of a run never misses, so every request that reaches it gets a reply. */
  lemma EveryReadSucceeds(s: State, steps: seq<Step>, call: nat, found: Option<Id>)
    requires Init(s) && ValidRun(s, steps) && Enabled(Final(s, steps), ReadBack(call, found))
    ensures found.Some? && found.value in Final(s, steps).table
  {
    InitBalanced(s);
    RunAnswerable(s, steps);
    ReadNeverMisses(Final(s, steps), call, found);
  }

  lemma RepliesGrow(s: State, step: Step)
    requires Enabled(s, step) && Returnable(s, step)
    ensures s.past.completed <= Apply(s, step).past.completed
    ensures step.ReadBack? && step.found.Some? ==>
      exists r :: r in Apply(s, step).past.completed && r.actor == step.call && r.out == step.found.value
  {
    if step.ReadBack? && step.found.Some? {
      var replied := AfterRead(s, step.call, step.found).past.completed;
      var r := replied[|replied| - 1];
      assert r in replied && r.actor == step.call && r.out == step.found.value;
    }
  }

  lemma {:induction false} RepliesStay(s: State, steps: seq<Step>)
    requires ValidRun(s, steps)
    ensures s.past.completed <= Final(s, steps).past.completed
    decreases |steps|
  {
    if steps == [] {
    } else {
      RepliesGrow(s, steps[0]);
      RepliesStay(Apply(s, steps[0]), steps[1..]);
    }
  }

  /** Every read-back that finds a row is answered with it, and the answer stays on record. */
  lemma {:induction false} ReadIsAnswered(s: State, steps: seq<Step>, i: nat)
    requires ValidRun(s, steps) && i < |steps| && steps[i].ReadBack? && steps[i].found.Some?
    ensures exists r :: r in Final(s, steps).past.completed && r.actor == steps[i].call && r.out == steps[i].found.value
    decreases |steps|
  {
    var t := Apply(s, steps[0]);
    if i == 0 {
      RepliesGrow(s, steps[0]);
      RepliesStay(t, steps[1..]);
      var r :| r in t.past.completed && r.actor == steps[0].call && r.out == steps[0].found.value;
      assert r in Final(t, steps[1..]).past.completed;
    } else {
      ReadIsAnswered(t, steps[1..], i - 1);
    }
  }
}
