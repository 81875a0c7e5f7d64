/** Fairness of the Postgres claim. A due document can only be passed over by documents that were
    already ahead of it, each at most once per time it is given back. */
module Overtaking {
  import opened Backoff
  import opened Documents
  import opened DocumentTable
  import opened NodeProtocol

  // The document is due, strictly, and nobody has selected it.
  ghost predicate Waiting(s: State, d: Id, depot: string) {
    && d in s.table && d !in Locked(s)
    && Pending(s.table[d].doc) && InDepot(depot, s.table[d].doc.capture)
    && s.table[d].availableAt < s.now
  }

  predicate IsAhead(s: State, d: Id, depot: string, e: Id)
    requires d in s.table
  {
    && e in s.table && e != d && e !in Locked(s)
    && Pending(s.table[e].doc) && InDepot(depot, s.table[e].doc.capture)
    && s.table[e].availableAt <= s.table[d].availableAt
  }

  // Free pending documents of the depot that a claim may prefer to d.
  function Ahead(s: State, d: Id, depot: string): set<Id>
    requires d in s.table
  {
    set e | e in s.table && IsAhead(s, d, depot, e)
  }

  // The step leaves d alone.
  ghost predicate Calm(s: State, step: Step, d: Id) {
    && step != ResetForRetry(d)
    && (step.LockRows? ==> d !in step.rows)
    && (step.MarkDocument? && step.committed && At(s, step.sweep) ==> Head(s, step.sweep).id != d)
  }

  function Asked(step: Step, depot: string): nat {
    if step.LockRows? && step.depot == depot then step.limit else 0
  }

  // Rows a claim had locked and gives back without claiming them.
  function GivenBack(s: State, step: Step): nat {
    if step.DropSweep? && step.sweep in s.sweeps then |RowsOf(s.sweeps[step.sweep])| else 0
  }

  // The document whose failure the step stores with a retry in the past.
  function Jumped(s: State, step: Step): set<Id> {
    if step.MarkDocument? && step.committed && At(s, step.sweep) && s.sweeps[step.sweep].stage.Answered?
       && s.sweeps[step.sweep].stage.Verdict().Err? && InPast(Head(s, step.sweep).syncAttempts, s.cfg.outOfRange)
    then {Head(s, step.sweep).id} else {}
  }

  // How many documents a step may put ahead of a waiting one.
  function Joined(s: State, step: Step): nat {
    GivenBack(s, step) + |Jumped(s, step)|
  }

  lemma LockedBySome(s: State, id: Id)
    requires id in Locked(s)
    ensures exists k :: k in s.sweeps && id in RowsOf(s.sweeps[k])
  {
  }

  // A failed document goes behind everything that is due now, unless its retry is stored in the past.
  lemma FailedGoesBehind(s: State, k: nat, committed: bool, acked: bool)
    requires s.cfg.maxBackoff > 0 && Enabled(s, MarkDocument(k, committed, acked))
    requires Head(s, k).id !in Jumped(s, MarkDocument(k, committed, acked)) && committed
    ensures var u := AfterMark(s, k, committed, acked).table;
            Head(s, k).id in u ==>
              u[Head(s, k).id] == s.table[Head(s, k).id] || u[Head(s, k).id].doc.status == Synced
              || u[Head(s, k).id].availableAt >= s.now
  {
    RetryInPastIff(Head(s, k).syncAttempts, s.cfg.maxBackoff, s.cfg.outOfRange);
  }

  // Only a given-back document can come to be ahead.
  lemma AheadShrinks(s: State, step: Step, d: Id, depot: string, e: Id)
    requires Inv(s) && Enabled(s, step) && Returnable(s, step) && s.cfg.maxBackoff > 0
    requires Waiting(s, d, depot) && Calm(s, step, d)
    requires d in Apply(s, step).table && Apply(s, step).table[d].availableAt == s.table[d].availableAt
    requires IsAhead(Apply(s, step), d, depot, e)
    ensures IsAhead(s, d, depot, e) || e in Jumped(s, step) || (step.DropSweep? && e in RowsOf(s.sweeps[step.sweep]))
    ensures step.LockRows? ==> e !in step.rows
  {
    RowWasAhead(s, step, d, depot, e);
    LocksOnAhead(s, step, e);
  }

  lemma LocksOnAhead(s: State, step: Step, e: Id)
    requires Inv(s) && Enabled(s, step) && Returnable(s, step)
    requires e in Apply(s, step).table && e !in Locked(Apply(s, step)) && Pending(Apply(s, step).table[e].doc)
    ensures e !in Locked(s) || (step.DropSweep? && e in RowsOf(s.sweeps[step.sweep]))
    ensures step.LockRows? ==> e !in step.rows
  {
    if e in Locked(s) {
      LockedBySome(s, e);
      var k :| k in s.sweeps && e in RowsOf(s.sweeps[k]);
      StillLocked(s, step, k, e);
    }
    if step.LockRows? && e in step.rows {
      OneLocker(Apply(s, step), s.nextActor, e);
    }
  }

  lemma MarkedWasAhead(s: State, k: nat, committed: bool, acked: bool, d: Id, depot: string, e: Id)
    requires Inv(s) && Enabled(s, MarkDocument(k, committed, acked)) && s.cfg.maxBackoff > 0
    requires Waiting(s, d, depot) && Calm(s, MarkDocument(k, committed, acked), d)
    requires var u := AfterMark(s, k, committed, acked).table;
             e in u && Pending(u[e].doc) && u[e].availableAt <= s.table[d].availableAt
    ensures e in s.table
    ensures || s.table[e] == AfterMark(s, k, committed, acked).table[e]
            || e in Jumped(s, MarkDocument(k, committed, acked))
  {
    MarkRows(s, k, committed, acked);
    if committed && Head(s, k).id !in Jumped(s, MarkDocument(k, committed, acked)) {
      FailedGoesBehind(s, k, committed, acked);
    }
  }

  // A row is made pending again, or new, only with an instant after d's.
  lemma RowWasAhead(s: State, step: Step, d: Id, depot: string, e: Id)
    requires Inv(s) && Enabled(s, step) && Returnable(s, step) && s.cfg.maxBackoff > 0
    requires Waiting(s, d, depot) && Calm(s, step, d)
    requires var u := Apply(s, step).table;
             && e in u && e != d && Pending(u[e].doc) && InDepot(depot, u[e].doc.capture)
             && u[e].availableAt <= s.table[d].availableAt
    ensures e in s.table && (s.table[e] == Apply(s, step).table[e] || e in Jumped(s, step))
  {
    if step.MarkDocument? {
      MarkedWasAhead(s, step.sweep, step.committed, step.acked, d, depot, e);
    } else if !Writes(step) {
      OthersOnlyRead(s, step);
    }
  }

  // Locks are released only by committing, which leaves the row syncing, or by giving it back.
  lemma StillLocked(s: State, step: Step, k: nat, e: Id)
    requires Inv(s) && Enabled(s, step) && Returnable(s, step) && k in s.sweeps && e in RowsOf(s.sweeps[k])
    requires e in Apply(s, step).table && Pending(Apply(s, step).table[e].doc)
    ensures e in Locked(Apply(s, step)) || (step.DropSweep? && step.sweep == k)
  {
    if !((step.DropSweep? || step.CommitClaim?) && step.sweep == k) {
      LocksAfter(s, step, k);
      OneLocker(Apply(s, step), k, e);
    }
  }

  lemma StillWaiting(s: State, step: Step, d: Id, depot: string)
    requires Inv(s) && Enabled(s, step) && Returnable(s, step)
    requires Waiting(s, d, depot) && Calm(s, step, d)
    ensures Waiting(Apply(s, step), d, depot)
    ensures Apply(s, step).table[d].availableAt == s.table[d].availableAt
    ensures Apply(s, step).cfg == s.cfg
  {
    var t := Apply(s, step);
    RowUntouched(s, step, d, depot);
    if d in Locked(t) {
      LockedBySome(t, d);
      var k :| k in t.sweeps && d in RowsOf(t.sweeps[k]);
      NewLocks(s, step, k, d);
    }
  }

  lemma NewLocks(s: State, step: Step, k: nat, d: Id)
    requires Inv(s) && Enabled(s, step) && Returnable(s, step)
    requires k in Apply(s, step).sweeps && d in RowsOf(Apply(s, step).sweeps[k])
    ensures d in Locked(s) || (step.LockRows? && d in step.rows)
  {
    LocksBefore(s, step, k);
    if !(step.LockRows? && k == s.nextActor) {
      OneLocker(s, k, d);
    }
  }

  lemma RowUntouched(s: State, step: Step, d: Id, depot: string)
    requires Inv(s) && Enabled(s, step) && Returnable(s, step)
    requires Waiting(s, d, depot) && Calm(s, step, d)
    ensures d in Apply(s, step).table && Apply(s, step).table[d] == s.table[d]
    ensures s.now <= Apply(s, step).now
  {
    if step.CommitClaim? {
      if d in s.sweeps[step.sweep].rows {
        OneLocker(s, step.sweep, d);
      }
    } else if step.MarkDocument? {
      MarkRows(s, step.sweep, step.committed, step.acked);
    } else if !Writes(step) {
      OthersOnlyRead(s, step);
    }
  }

  /** One step: what a claim of the depot takes comes out of the documents ahead. */
  lemma OvertakingStep(s: State, step: Step, d: Id, depot: string)
    requires Inv(s) && Enabled(s, step) && Returnable(s, step) && s.cfg.maxBackoff > 0
    requires Waiting(s, d, depot) && Calm(s, step, d)
    ensures Waiting(Apply(s, step), d, depot)
    ensures |Ahead(Apply(s, step), d, depot)| + Asked(step, depot) <= |Ahead(s, d, depot)| + Joined(s, step)
  {
    var t := Apply(s, step);
    StillWaiting(s, step, d, depot);
    var before, after := Ahead(s, d, depot), Ahead(t, d, depot);
    forall e | e in after
      ensures e in before || e in Jumped(s, step) || (step.DropSweep? && e in RowsOf(s.sweeps[step.sweep]))
      ensures step.LockRows? ==> e !in step.rows
    {
      AheadShrinks(s, step, d, depot, e);
    }
    if step.DropSweep? {
      UnionSize(after, before, RowsOf(s.sweeps[step.sweep]));
    } else if step.LockRows? && step.depot == depot {
      PassedOver(s, step, d, depot);
      RemovalSize(after, before, step.rows);
    } else {
      UnionSize(after, before, Jumped(s, step));
    }
  }

  lemma UnionSize<T>(c: set<T>, a: set<T>, b: set<T>)
    requires forall x :: x in c ==> x in a || x in b
    ensures |c| <= |a| + |b|
  {
    assert c <= a + b;
    SubsetSize(c, a + b);
    SubsetSize(b - a, b);
    assert a + b == a + (b - a);
  }

  lemma RemovalSize<T>(c: set<T>, a: set<T>, b: set<T>)
    requires b <= a && forall x :: x in c ==> x in a && x !in b
    ensures |c| + |b| <= |a|
  {
    assert c + b <= a;
    SubsetSize(c + b, a);
  }

  // A claim that passes d over takes a full batch of documents that were ahead of it.
  lemma PassedOver(s: State, step: Step, d: Id, depot: string)
    requires Enabled(s, step) && step.LockRows? && step.depot == depot && d !in step.rows && Waiting(s, d, depot)
    ensures step.rows <= Ahead(s, d, depot) && |step.rows| == step.limit
  {
    var all := EligibleIds(s.table, Locked(s), depot, s.now);
    assert d in all;
    forall c | c in step.rows
      ensures c in Ahead(s, d, depot)
    {
      assert c in all;
      assert s.table[c].availableAt <= s.table[d].availableAt;
    }
  }

  // ---- Whole runs ----

  ghost predicate CalmRun(s: State, steps: seq<Step>, d: Id)
    requires ValidRun(s, steps)
    decreases |steps|
  {
    steps == [] || (Calm(s, steps[0], d) && CalmRun(Apply(s, steps[0]), steps[1..], d))
  }

  function TotalAsked(steps: seq<Step>, depot: string): nat {
    if steps == [] then 0 else Asked(steps[0], depot) + TotalAsked(steps[1..], depot)
  }

  ghost function TotalJoined(s: State, steps: seq<Step>): nat
    requires ValidRun(s, steps)
    decreases |steps|
  {
    if steps == [] then 0 else Joined(s, steps[0]) + TotalJoined(Apply(s, steps[0]), steps[1..])
  }

  /** While a due document is not selected, the batches its depot asked for add up to no more
      than the documents ahead of it at the start and those that joined them since: given back by a
      lost claim, or failed with a retry stored in the past. */
  lemma {:induction false} BoundedOvertaking(s: State, steps: seq<Step>, d: Id, depot: string)
    requires Inv(s) && ValidRun(s, steps) && s.cfg.maxBackoff > 0
    requires Waiting(s, d, depot) && CalmRun(s, steps, d)
    ensures TotalAsked(steps, depot) <= |Ahead(s, d, depot)| + TotalJoined(s, steps)
    decreases |steps|
  {
    if steps == [] {
    } else {
      StepInv(s, steps[0]);
      OvertakingStep(s, steps[0], d, depot);
      StillWaiting(s, steps[0], d, depot);
      BoundedOvertaking(Apply(s, steps[0]), steps[1..], d, depot);
    }
  }

  function ClaimsOf(steps: seq<Step>, depot: string): nat {
    if steps == [] then 0
    else (if steps[0].LockRows? && steps[0].depot == depot then 1 else 0) + ClaimsOf(steps[1..], depot)
  }

  lemma {:induction false} UniformBatches(steps: seq<Step>, depot: string, batch: nat)
    requires forall st :: st in steps && st.LockRows? && st.depot == depot ==> st.limit == batch
    ensures TotalAsked(steps, depot) == ClaimsOf(steps, depot) * batch
  {
    if steps == [] {
    } else {
      assert forall st :: st in steps[1..] ==> st in steps;
      UniformBatches(steps[1..], depot, batch);
      assert (ClaimsOf(steps[1..], depot) + 1) * batch == ClaimsOf(steps[1..], depot) * batch + batch;
    }
  }

  // No step of the run records an outcome for d or resets it.
  ghost predicate LeftAlone(s: State, steps: seq<Step>, d: Id)
    requires ValidRun(s, steps)
    decreases |steps|
  {
    steps == [] || (
      && (Calm(s, steps[0], d) || (steps[0].LockRows? && d in steps[0].rows))
      && LeftAlone(Apply(s, steps[0]), steps[1..], d))
  }

  lemma {:induction false} UnselectedIsCalm(s: State, steps: seq<Step>, d: Id)
    requires ValidRun(s, steps) && LeftAlone(s, steps, d)
    requires forall st :: st in steps && st.LockRows? ==> d !in st.rows
    ensures CalmRun(s, steps, d)
    decreases |steps|
  {
    if steps == [] {
    } else {
      assert steps[0] in steps;
      assert forall st :: st in steps[1..] ==> st in steps;
      UnselectedIsCalm(Apply(s, steps[0]), steps[1..], d);
    }
  }

  lemma PassedOverAtMost(s: State, steps: seq<Step>, d: Id, depot: string, batch: nat)
    requires Inv(s) && ValidRun(s, steps) && s.cfg.maxBackoff > 0
    requires Waiting(s, d, depot) && LeftAlone(s, steps, d)
    requires forall st :: st in steps && st.LockRows? ==> d !in st.rows
    requires forall st :: st in steps && st.LockRows? && st.depot == depot ==> st.limit == batch
    ensures ClaimsOf(steps, depot) * batch <= |Ahead(s, d, depot)| + TotalJoined(s, steps)
  {
    UnselectedIsCalm(s, steps, d);
    BoundedOvertaking(s, steps, d, depot);
    UniformBatches(steps, depot, batch);
  }

  /** With k documents ahead and batches of size B, one of any floor((k + r) / B) + 1 claims of the
      depot selects the document, r counting the rows that lost claims give back and the failures whose
      retry is stored in the past. */
  lemma SelectedWithin(s: State, steps: seq<Step>, d: Id, depot: string, batch: nat)
    requires Inv(s) && ValidRun(s, steps) && s.cfg.maxBackoff > 0 && batch > 0
    requires Waiting(s, d, depot) && LeftAlone(s, steps, d)
    requires forall st :: st in steps && st.LockRows? && st.depot == depot ==> st.limit == batch
    requires ClaimsOf(steps, depot) > (|Ahead(s, d, depot)| + TotalJoined(s, steps)) / batch
    ensures exists st :: st in steps && st.LockRows? && d in st.rows
  {
    if forall st :: st in steps && st.LockRows? ==> d !in st.rows {
      PassedOverAtMost(s, steps, d, depot, batch);
      QuotientBound(ClaimsOf(steps, depot), |Ahead(s, d, depot)| + TotalJoined(s, steps), batch);
      assert false;
    }
  }

  lemma QuotientBound(n: nat, total: nat, batch: nat)
    requires batch > 0 && n > total / batch
    ensures n * batch > total
  {
    var q, r := total / batch, total % batch;
    assert total == batch * q + r;
    MultipleIsFar(batch, n - q);
    assert batch * (n - q) == batch * n - batch * q;
  }

  /** A failure puts a document ahead of one that is already due exactly when its retry is stored for
      an instant not after that one's; and the failures that may jump ahead of every due document are
      exactly those whose retry is stored in the past. */
  lemma FailureOvertakesIff(s: State, k: nat, acked: bool, d: Id, depot: string)
    requires Inv(s) && Enabled(s, MarkDocument(k, true, acked)) && s.sweeps[k].stage.Verdict().Err?
    requires Waiting(s, d, depot) && Head(s, k).id != d && InDepot(depot, Head(s, k).capture)
    requires s.cfg.maxBackoff > 0
    ensures var a := Head(s, k).syncAttempts;
            var retryAt := s.now + Interval(Delay(a, s.cfg.maxBackoff, s.cfg.outOfRange));
            && (Head(s, k).id in Ahead(AfterMark(s, k, true, acked), d, depot) <==> retryAt <= s.table[d].availableAt)
            && (retryAt < s.now <==> Jumped(s, MarkDocument(k, true, acked)) == {Head(s, k).id})
  {
    var t, e, a := AfterMark(s, k, true, acked), Head(s, k).id, Head(s, k).syncAttempts;
    assert SweepOk(s, k);
    MarkRows(s, k, true, acked);
    RetryInPastIff(a, s.cfg.maxBackoff, s.cfg.outOfRange);
    assert t.table[d] == s.table[d];
    MarkKeepsLocks(s, k, true, acked);
  }

  lemma MarkKeepsLocks(s: State, k: nat, committed: bool, acked: bool)
    requires At(s, k) && s.sweeps[k].stage.Answered?
    ensures Locked(AfterMark(s, k, committed, acked)) <= Locked(s)
  {
    var t := AfterMark(s, k, committed, acked);
    forall id | id in Locked(t)
      ensures id in Locked(s)
    {
      LockedBySome(t, id);
      var l :| l in t.sweeps && id in RowsOf(t.sweeps[l]);
      OneLocker(s, l, id);
    }
  }
}
