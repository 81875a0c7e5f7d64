/** The lease of a document claim does not release it: a document whose sweep is lost stays syncing
    until somebody asks for a retry. */
module Orphans {
  import opened Documents
  import opened DocumentTable
  import opened Exclusivity
  import opened NodeProtocol

  ghost predicate Orphan(s: State, id: Id) {
    IsSyncing(s.table, id) && !Held(s, id)
  }

  // The step takes the document out of the sweep's hands without recording an outcome: the sweep is
  // lost, or its mark is not stored.
  ghost predicate Abandons(s: State, step: Step, k: nat, id: Id) {
    || step == DropSweep(k)
    || (step.MarkDocument? && step.sweep == k && !step.committed && At(s, k) && Head(s, k).id == id)
  }

  /** Losing the sweep that holds a document, or the mark it makes, leaves the document an orphan. */
  lemma AbandonedIsOrphan(s: State, step: Step, k: nat, id: Id)
    requires Inv(s) && Exclusive(s) && Enabled(s, step) && HeldBy(s, k, id) && Abandons(s, step, k, id)
    ensures Orphan(Apply(s, step), id)
  {
    var t := Apply(s, step);
    if step.MarkDocument? {
      MarkExclusive(s, k, step.committed, step.acked);
    } else {
      forall l
        ensures !HeldBy(t, l, id)
      {
        if HeldBy(t, l, id) {
          MovedHoldsLess(s, t, l, l, id);
        }
      }
    }
  }

  /** A step ends a document's being an orphan exactly when it is a retry request for it, which makes
      it due at once; any other step, however far the clock runs, leaves its row as it is. */
  lemma OrphanEndsIff(s: State, step: Step, id: Id)
    requires Inv(s) && Enabled(s, step) && Returnable(s, step) && Orphan(s, id)
    ensures Orphan(Apply(s, step), id) <==> step != ResetForRetry(id)
    ensures step != ResetForRetry(id) ==> Apply(s, step).table[id] == s.table[id]
    ensures step == ResetForRetry(id) ==>
      var r := Apply(s, step).table[id]; Pending(r.doc) && r.availableAt == s.now
  {
    if step != ResetForRetry(id) {
      OrphanRow(s, step, id);
      forall l
        ensures !HeldBy(Apply(s, step), l, id)
      {
        if HeldBy(Apply(s, step), l, id) {
          HeldOnlyByClaim(s, step, l, id);
        }
      }
    }
  }

  lemma OrphanRow(s: State, step: Step, id: Id)
    requires Inv(s) && Enabled(s, step) && Returnable(s, step) && Orphan(s, id) && step != ResetForRetry(id)
    ensures id in Apply(s, step).table && Apply(s, step).table[id] == s.table[id]
  {
    if step.CommitClaim? {
      assert SweepOk(s, step.sweep);
    } else if step.MarkDocument? {
      MarkRows(s, step.sweep, step.committed, step.acked);
      HeadIsHeld(s, step.sweep);
    } else if !Writes(step) {
      OthersOnlyRead(s, step);
    }
  }

  lemma DrainHoldsLess(s: State, step: Step)
    requires Enabled(s, step) && Returnable(s, step) && Drains(step)
    ensures var v, w := s.sweeps[step.sweep], Apply(s, step).sweeps[step.sweep];
            w.Draining? && w.batch == v.batch && FirstOpen(v) <= FirstOpen(w)
  {
    if step.MarkDocument? {
      MarkShape(s, step.sweep, step.committed, step.acked);
    }
  }

  // A sweep comes to hold a document only by claiming it while it was pending.
  lemma HeldOnlyByClaim(s: State, step: Step, l: nat, id: Id)
    requires Inv(s) && Enabled(s, step) && Returnable(s, step) && HeldBy(Apply(s, step), l, id)
    ensures HeldBy(s, l, id) || (step.CommitClaim? && step.sweep == l && id in s.table && Pending(s.table[id].doc))
  {
    var t := Apply(s, step);
    if step.CommitClaim? && step.sweep == l {
      assert SweepOk(s, l);
      CommitClaimHolds(s, l, step.returned);
    } else if step.CommitClaim? {
      MovedHoldsLess(s, t, step.sweep, l, id);
    } else if Drains(step) {
      DrainShape(s, step);
      DrainHoldsLess(s, step);
      MovedHoldsLess(s, t, step.sweep, l, id);
    } else {
      if LeavesSweeps(step) {
        OthersKeepSweeps(s, step);
      }
      MovedHoldsLess(s, t, l, l, id);
    }
  }

  /** Over any run without a retry request for it, an orphan stays one with its row unchanged. */
  lemma {:induction false} OrphanStays(s: State, steps: seq<Step>, id: Id)
    requires Inv(s) && ValidRun(s, steps) && Orphan(s, id) && ResetForRetry(id) !in steps
    ensures Orphan(Final(s, steps), id) && Final(s, steps).table[id] == s.table[id]
    decreases |steps|
  {
    if steps == [] {
    } else {
      StepInv(s, steps[0]);
      OrphanEndsIff(s, steps[0], id);
      OrphanStays(Apply(s, steps[0]), steps[1..], id);
    }
  }

  lemma {:induction false} OneMoreStep(s: State, steps: seq<Step>, last: Step)
    requires ValidRun(s, steps) && Enabled(Final(s, steps), last) && Returnable(Final(s, steps), last)
    ensures ValidRun(s, steps + [last]) && Final(s, steps + [last]) == Apply(Final(s, steps), last)
    decreases |steps|
  {
    if steps == [] {
      StepThenRun(s, last, []);
      assert steps + [last] == [last] + [];
    } else {
      OneMoreStep(Apply(s, steps[0]), steps[1..], last);
      assert (steps + [last])[1..] == steps[1..] + [last];
    }
  }

  lemma TwoMoreSteps(s: State, steps: seq<Step>, one: Step, two: Step)
    requires ValidRun(s, steps) && Enabled(Final(s, steps), one) && Returnable(Final(s, steps), one)
    requires Enabled(Apply(Final(s, steps), one), two) && Returnable(Apply(Final(s, steps), one), two)
    ensures ValidRun(s, steps + [one] + [two])
    ensures Final(s, steps + [one] + [two]) == Apply(Apply(Final(s, steps), one), two)
  {
    OneMoreStep(s, steps, one);
    OneMoreStep(s, steps + [one], two);
  }

  // A free, due document that is the only one.
  ghost predicate OnlyOne(s: State, id: Id) {
    && Inv(s) && s.sweeps == map[] && s.table.Keys == {id}
    && Pending(s.table[id].doc) && s.table[id].availableAt <= s.now
  }

  lemma CaptureOfOne(s: State, id: Id, c: Capture)
    requires Init(s)
    ensures var steps := [BeginCapture(id, c), RunInsert(s.nextActor, true)];
            ValidRun(s, steps) && OnlyOne(Final(s, steps), id)
  {
    var begin, insert := BeginCapture(id, c), RunInsert(s.nextActor, true);
    InitInv(s);
    StepInv(s, begin);
    var a := Apply(s, begin);
    assert ValidRun(s, []);
    OneMoreStep(s, [], begin);
    StepInv(a, insert);
    OneMoreStep(s, [] + [begin], insert);
    assert [] + [begin] + [insert] == [begin, insert];
  }

  lemma ClaimOfOne(s: State, id: Id, lease: int)
    requires OnlyOne(s, id)
    ensures var lock, commit := LockRows("", 1, lease, {id}), CommitClaim(s.nextActor, [id]);
            && Enabled(s, lock) && Enabled(Apply(s, lock), commit) && Returnable(Apply(s, lock), commit)
            && HeldBy(Apply(Apply(s, lock), commit), s.nextActor, id)
  {
    var lock, commit := LockRows("", 1, lease, {id}), CommitClaim(s.nextActor, [id]);
    assert Locked(s) == {};
    assert EligibleIds(s.table, {}, "", s.now) == {id};
    StepInv(s, lock);
    assert Elements([id]) == {id};
    CommitClaimHolds(Apply(s, lock), s.nextActor, [id]);
  }

  // Capturing a document and claiming it, from a fresh node.
  lemma ClaimedRun(s: State, id: Id, c: Capture, lease: int) returns (steps: seq<Step>, k: nat)
    requires Init(s)
    ensures ValidRun(s, steps) && HeldBy(Final(s, steps), k, id)
    ensures forall st :: st in steps ==> !st.ResetForRetry?
  {
    var captured := [BeginCapture(id, c), RunInsert(s.nextActor, true)];
    CaptureOfOne(s, id, c);
    var t := Final(s, captured);
    k := t.nextActor;
    var lock, commit := LockRows("", 1, lease, {id}), CommitClaim(k, [id]);
    ClaimOfOne(t, id, lease);
    TwoMoreSteps(s, captured, lock, commit);
    steps := captured + [lock] + [commit];
    NoResets(captured[0], captured[1], lock, commit);
  }

  lemma NoResets(a: Step, b: Step, c: Step, d: Step)
    requires !a.ResetForRetry? && !b.ResetForRetry? && !c.ResetForRetry? && !d.ResetForRetry?
    ensures forall st :: st in [a, b] + [c] + [d] ==> !st.ResetForRetry?
  {
  }

  /** From any fresh node and for any capture, some run makes the captured document an orphan, and no
      continuation without a retry request for it ever touches it again. */
  lemma OrphanIsReachable(s: State, id: Id, c: Capture, lease: int) returns (steps: seq<Step>)
    requires Init(s)
    ensures ValidRun(s, steps) && Orphan(Final(s, steps), id)
    ensures forall more :: ValidRun(Final(s, steps), more) && ResetForRetry(id) !in more ==>
      Orphan(Final(Final(s, steps), more), id)
  {
    var before, k := ClaimedRun(s, id, c, lease);
    var held := Final(s, before);
    InitInv(s);
    GentleWithoutResets(s, before);
    RunExclusive(s, before);
    var drop := DropSweep(k);
    AbandonedIsOrphan(held, drop, k, id);
    steps := before + [drop];
    OneMoreStep(s, before, drop);
    var t := Final(s, steps);
    RunInv(s, steps);
    forall more | ValidRun(t, more) && ResetForRetry(id) !in more
      ensures Orphan(Final(t, more), id)
    {
      OrphanStays(t, more, id);
    }
  }

  lemma {:induction false} GentleWithoutResets(s: State, steps: seq<Step>)
    requires ValidRun(s, steps) && forall st :: st in steps ==> !st.ResetForRetry?
    ensures GentleRun(s, steps)
    decreases |steps|
  {
    if steps == [] {
    } else {
      assert steps[0] in steps && forall st :: st in steps[1..] ==> st in steps;
      GentleWithoutResets(Apply(s, steps[0]), steps[1..]);
    }
  }
}
