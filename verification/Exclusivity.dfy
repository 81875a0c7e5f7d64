/** Who works on a document. As long as no retry request hits a document a live sweep still
    holds, a document is held by at most one sweep, is syncing while held, follows its
    lifecycle, and never leaves synced. */
module Exclusivity {
  import opened Documents
  import opened DocumentTable
  import opened NodeProtocol

  // The first position of the batch whose outcome the sweep has yet to record.
  function FirstOpen(w: Sweep): nat
    requires w.Draining?
  {
    if w.stage.ToPublish? then w.next + 1 else w.next
  }

  ghost predicate HeldBy(s: State, k: nat, id: Id) {
    && k in s.sweeps && s.sweeps[k].Draining?
    && exists i :: FirstOpen(s.sweeps[k]) <= i < |s.sweeps[k].batch| && s.sweeps[k].batch[i].id == id
  }

  ghost predicate Held(s: State, id: Id) {
    exists k :: HeldBy(s, k, id)
  }

  predicate IsSyncing(t: Table, id: Id) {
    id in t && t[id].doc.status == Syncing
  }

  ghost predicate Exclusive(s: State) {
    && (forall k, id :: HeldBy(s, k, id) ==> IsSyncing(s.table, id))
    && (forall k, l, id :: HeldBy(s, k, id) && HeldBy(s, l, id) ==> k == l)
  }

  lemma FewerHeld(s: State, t: State)
    requires Exclusive(s)
    requires forall k, id :: HeldBy(t, k, id) ==> HeldBy(s, k, id) && IsSyncing(t.table, id)
    ensures Exclusive(t)
  {
  }

  lemma HeadIsHeld(s: State, k: nat)
    requires At(s, k) && !s.sweeps[k].stage.ToPublish?
    ensures HeldBy(s, k, Head(s, k).id)
  {
  }

  // Advancing within the batch only gives documents up.
  lemma MovedHoldsLess(s: State, t: State, k: nat, l: nat, id: Id)
    requires HeldBy(t, l, id)
    requires l != k ==> l in s.sweeps && t.sweeps[l] == s.sweeps[l]
    requires l == k ==>
      && k in s.sweeps && s.sweeps[k].Draining?
      && t.sweeps[k].batch == s.sweeps[k].batch && FirstOpen(s.sweeps[k]) <= FirstOpen(t.sweeps[k])
    ensures HeldBy(s, l, id)
  {
    var i :| FirstOpen(t.sweeps[l]) <= i < |t.sweeps[l].batch| && t.sweeps[l].batch[i].id == id;
    assert s.sweeps[l].batch[i].id == id;
  }

  lemma QuietExclusive(s: State, t: State)
    requires Exclusive(s)
    requires forall id :: id in s.table ==> id in t.table && t.table[id] == s.table[id]
    requires forall k :: k in t.sweeps && t.sweeps[k].Draining? ==> k in s.sweeps && t.sweeps[k] == s.sweeps[k]
    ensures Exclusive(t)
  {
    forall k, id | HeldBy(t, k, id)
      ensures HeldBy(s, k, id) && IsSyncing(t.table, id)
    {
      MovedHoldsLess(s, t, k, k, id);
    }
    FewerHeld(s, t);
  }

  // Posting and publishing keep the same documents in hand.
  lemma SameHandExclusive(s: State, t: State, k: nat)
    requires Exclusive(s) && t.table == s.table
    requires k in s.sweeps && s.sweeps[k].Draining? && k in t.sweeps && t.sweeps == s.sweeps[k := t.sweeps[k]]
    requires t.sweeps[k].Draining? && t.sweeps[k].batch == s.sweeps[k].batch
    requires FirstOpen(t.sweeps[k]) == FirstOpen(s.sweeps[k])
    ensures Exclusive(t)
  {
    forall l, id | HeldBy(t, l, id)
      ensures HeldBy(s, l, id) && IsSyncing(t.table, id)
    {
      MovedHoldsLess(s, t, k, l, id);
    }
    FewerHeld(s, t);
  }

  lemma MarkExclusive(s: State, k: nat, committed: bool, acked: bool)
    requires Inv(s) && Exclusive(s) && Enabled(s, MarkDocument(k, committed, acked))
    ensures Exclusive(AfterMark(s, k, committed, acked))
    ensures forall l :: !HeldBy(AfterMark(s, k, committed, acked), l, Head(s, k).id)
  {
    var t, d := AfterMark(s, k, committed, acked), Head(s, k);
    MarkRows(s, k, committed, acked);
    HeadIsHeld(s, k);
    assert SweepOk(s, k);
    MarkShape(s, k, committed, acked);
    forall l, id | HeldBy(t, l, id)
      ensures HeldBy(s, l, id) && IsSyncing(t.table, id) && id != d.id
    {
      MovedHoldsLess(s, t, k, l, id);
      if l == k {
        HeadIsGone(s, t, k);
      }
    }
    FewerHeld(s, t);
  }

  // Past the document in hand, a sweep no longer holds it.
  lemma HeadIsGone(s: State, t: State, k: nat)
    requires At(s, k) && SweepOk(s, k) && k in t.sweeps && t.sweeps[k].Draining?
    requires t.sweeps[k].batch == s.sweeps[k].batch && FirstOpen(t.sweeps[k]) > s.sweeps[k].next
    ensures !HeldBy(t, k, Head(s, k).id)
  {
  }

  lemma CommitExclusive(s: State, k: nat, returned: seq<Id>)
    requires Inv(s) && Exclusive(s)
    requires Enabled(s, CommitClaim(k, returned)) && Returnable(s, CommitClaim(k, returned))
    ensures Exclusive(AfterCommit(s, k, returned))
    ensures forall id :: HeldBy(AfterCommit(s, k, returned), k, id) <==> id in s.sweeps[k].rows
  {
    var t, rows := AfterCommit(s, k, returned), s.sweeps[k].rows;
    assert SweepOk(s, k);
    CommittedSweepOk(s, k, returned);
    CommitClaimHolds(s, k, returned);
    forall l, id | HeldBy(t, l, id)
      ensures if l == k then id in rows && !Held(s, id) else HeldBy(s, l, id)
      ensures IsSyncing(t.table, id)
    {
      if l == k {
        assert id in rows;
        assert Pending(s.table[id].doc);
      } else {
        MovedHoldsLess(s, t, k, l, id);
      }
    }
  }

  lemma CommitClaimHolds(s: State, k: nat, returned: seq<Id>)
    requires Inv(s) && Enabled(s, CommitClaim(k, returned)) && Returnable(s, CommitClaim(k, returned))
    ensures forall id :: HeldBy(AfterCommit(s, k, returned), k, id) <==> id in s.sweeps[k].rows
  {
    var t := AfterCommit(s, k, returned);
    CommittedIds(s, k, returned);
    forall id
      ensures HeldBy(t, k, id) <==> id in s.sweeps[k].rows
    {
      if id in Elements(returned) {
        var i :| 0 <= i < |returned| && returned[i] == id;
        assert t.sweeps[k].batch[i].id == id;
      }
    }
  }

  /** A retry request preserves exclusivity exactly when no live sweep holds the document. */
  lemma ResetExclusiveIff(s: State, id: Id)
    requires Inv(s) && Exclusive(s) && Enabled(s, ResetForRetry(id)) && id in s.table
    ensures Exclusive(Apply(s, ResetForRetry(id))) <==> !Held(s, id)
  {
    var t := Apply(s, ResetForRetry(id));
    forall k, x
      ensures HeldBy(t, k, x) <==> HeldBy(s, k, x)
    {
      if HeldBy(t, k, x) {
        MovedHoldsLess(s, t, k, k, x);
      }
      if HeldBy(s, k, x) {
        MovedHoldsLess(t, s, k, k, x);
      }
    }
    assert !IsSyncing(t.table, id);
    if !Held(s, id) {
      FewerHeld(s, t);
    }
  }

  ghost predicate Gentle(s: State, step: Step) {
    step.ResetForRetry? && step.id in s.table ==> !Held(s, step.id)
  }

  /** Every other step preserves exclusivity unconditionally. */
  lemma StepExclusive(s: State, step: Step)
    requires Inv(s) && Exclusive(s) && Enabled(s, step) && Gentle(s, step)
    ensures Returnable(s, step) && Exclusive(Apply(s, step))
  {
    InvReturnable(s, step);
    if step.CommitClaim? {
      CommitExclusive(s, step.sweep, step.returned);
    } else if step.MarkDocument? {
      MarkExclusive(s, step.sweep, step.committed, step.acked);
    } else if step.PostDocument? || step.PublishSynced? {
      SameHandExclusive(s, Apply(s, step), step.sweep);
    } else if step.ResetForRetry? && step.id in s.table {
      ResetExclusiveIff(s, step.id);
    } else {
      QuietExclusive(s, Apply(s, step));
    }
  }

  ghost predicate GentleRun(s: State, steps: seq<Step>)
    requires ValidRun(s, steps)
    decreases |steps|
  {
    steps == [] || (Gentle(s, steps[0]) && GentleRun(Apply(s, steps[0]), steps[1..]))
  }

  /** Over whole runs, of any length and any interleaving. */
  lemma {:induction false} RunExclusive(s: State, steps: seq<Step>)
    requires Inv(s) && Exclusive(s) && ValidRun(s, steps) && GentleRun(s, steps)
    ensures Inv(Final(s, steps)) && Exclusive(Final(s, steps))
    decreases |steps|
  {
    if steps == [] {
    } else {
      StepInv(s, steps[0]);
      StepExclusive(s, steps[0]);
      RunExclusive(Apply(s, steps[0]), steps[1..]);
    }
  }

  /** In every reachable state a held document is syncing and has one holder. */
  lemma HeldByOne(s: State, steps: seq<Step>, k: nat, l: nat, id: Id)
    requires Init(s) && ValidRun(s, steps) && GentleRun(s, steps)
    requires HeldBy(Final(s, steps), k, id) && HeldBy(Final(s, steps), l, id)
    ensures k == l && IsSyncing(Final(s, steps).table, id)
  {
    InitInv(s);
    RunExclusive(s, steps);
  }

  // ---- What a violated condition leads to ----

  /** If a held document is put back, the next sweep that selects it holds it too. */
  lemma ResetAdmitsSecondSweep(s: State, k: nat, id: Id, depot: string, limit: nat, lease: int, rows: set<Id>,
                               returned: seq<Id>)
    requires Inv(s) && HeldBy(s, k, id) && Enabled(s, ResetForRetry(id))
    requires var reset := Apply(s, ResetForRetry(id));
             Enabled(reset, LockRows(depot, limit, lease, rows)) && id in rows
             && Distinct(returned) && Elements(returned) == rows
    ensures var reset := Apply(s, ResetForRetry(id));
            var locked := Apply(reset, LockRows(depot, limit, lease, rows));
            && Enabled(locked, CommitClaim(s.nextActor, returned))
                 && Returnable(locked, CommitClaim(s.nextActor, returned))
            && HeldBy(Apply(locked, CommitClaim(s.nextActor, returned)), k, id)
            && HeldBy(Apply(locked, CommitClaim(s.nextActor, returned)), s.nextActor, id)
            && k != s.nextActor
  {
    var reset := Apply(s, ResetForRetry(id));
    StepInv(s, ResetForRetry(id));
    var lock := LockRows(depot, limit, lease, rows);
    var locked := Apply(reset, lock);
    StepInv(reset, lock);
    var commit := CommitClaim(s.nextActor, returned);
    InvReturnable(locked, commit);
    CommitClaimHolds(locked, s.nextActor, returned);
    var last := Apply(locked, commit);
    assert k in s.sweeps && last.sweeps[k] == s.sweeps[k];
    MovedHoldsLess(last, s, k, k, id);
  }

  lemma {:induction false} Enumerate(ids: set<Id>) returns (order: seq<Id>)
    ensures Distinct(order) && Elements(order) == ids
  {
    if ids == {} {
      order := [];
    } else {
      var id :| id in ids;
      var rest := Enumerate(ids - {id});
      order := rest + [id];
      assert forall i :: 0 <= i < |rest| ==> rest[i] in Elements(rest);
      assert Elements(order) == Elements(rest) + {id};
    }
  }

  lemma EligibleAfterReset(s: State, k: nat, id: Id) returns (rows: set<Id>)
    requires Inv(s) && HeldBy(s, k, id) && Enabled(s, ResetForRetry(id))
    ensures id in rows && |rows| > 0
    ensures Enabled(Apply(s, ResetForRetry(id)), LockRows("", |rows|, 0, rows))
    ensures k < s.nextActor
  {
    var reset := Apply(s, ResetForRetry(id));
    assert SweepOk(s, k);
    rows := EligibleIds(reset.table, Locked(reset), "", reset.now);
    assert Locked(reset) == Locked(s);
    assert id in rows;
  }

  /** Conversely, from any state in which a held document is reset, some continuation of the
      run puts it in the hands of a second sweep. */
  lemma ResetWhileHeldBreaksExclusivity(s: State, k: nat, id: Id)
    requires Inv(s) && HeldBy(s, k, id) && Enabled(s, ResetForRetry(id))
    ensures CanBeShared(s, k, id)
  {
    var reset := Apply(s, ResetForRetry(id));
    var rows := EligibleAfterReset(s, k, id);
    var lock := LockRows("", |rows|, 0, rows);
    assert |rows| > 0;
    var returned := Enumerate(rows);
    var commit := CommitClaim(s.nextActor, returned);
    ResetAdmitsSecondSweep(s, k, id, "", |rows|, 0, rows, returned);
    ThreeSteps(s, ResetForRetry(id), lock, commit);
    Shared(s, [ResetForRetry(id), lock, commit], k, s.nextActor, id);
  }

  // Some continuation gives the document to another sweep while k still holds it.
  ghost predicate CanBeShared(s: State, k: nat, id: Id) {
    exists steps, l :: ValidRun(s, steps) && l != k && HeldBy(Final(s, steps), k, id) && HeldBy(Final(s, steps), l, id)
  }

  lemma Shared(s: State, steps: seq<Step>, k: nat, l: nat, id: Id)
    requires ValidRun(s, steps) && l != k && HeldBy(Final(s, steps), k, id) && HeldBy(Final(s, steps), l, id)
    ensures CanBeShared(s, k, id)
  {
  }

  lemma StepThenRun(s: State, step: Step, rest: seq<Step>)
    requires Enabled(s, step) && Returnable(s, step) && ValidRun(Apply(s, step), rest)
    ensures ValidRun(s, [step] + rest) && Final(s, [step] + rest) == Final(Apply(s, step), rest)
  {
    assert ([step] + rest)[1..] == rest;
  }

  lemma ThreeSteps(s: State, one: Step, two: Step, three: Step)
    requires Enabled(s, one) && Returnable(s, one)
    requires Enabled(Apply(s, one), two) && Returnable(Apply(s, one), two)
    requires Enabled(Apply(Apply(s, one), two), three) && Returnable(Apply(Apply(s, one), two), three)
    ensures ValidRun(s, [one, two, three])
    ensures Final(s, [one, two, three]) == Apply(Apply(Apply(s, one), two), three)
  {
    StepThenRun(Apply(Apply(s, one), two), three, []);
    StepThenRun(Apply(s, one), two, [three]);
    StepThenRun(s, one, [two, three]);
    assert [three] + [] == [three] && [two] + [three] == [two, three] && [one] + [two, three] == [one, two, three];
  }

  // ---- Lifecycle ----

  function StatusIn(s: State, id: Id): Option<Status> {
    if id in s.table then Some(s.table[id].doc.status) else None
  }

  predicate Edge(from: Status, to: Status) {
    || ((from == Buffered || from == Failed) && to == Syncing)
    || (from == Syncing && (to == Synced || to == Failed))
  }

  // The steps that a failing sweep or a retry request takes on a document.
  ghost predicate RecordsFailure(s: State, step: Step, id: Id) {
    && step.MarkDocument? && step.committed && Enabled(s, step)
    && Head(s, step.sweep).id == id && s.sweeps[step.sweep].stage.Verdict().Err?
  }

  lemma StatusStep(s: State, step: Step, id: Id)
    requires Inv(s) && Exclusive(s) && Enabled(s, step) && Returnable(s, step) && id in s.table
    requires step != ResetForRetry(id)
    ensures id in Apply(s, step).table
    ensures var from, to := s.table[id].doc.status, Apply(s, step).table[id].doc.status;
            from == to || Edge(from, to)
  {
    if step.CommitClaim? {
      assert SweepOk(s, step.sweep);
    } else if step.MarkDocument? {
      MarkRows(s, step.sweep, step.committed, step.acked);
      HeadIsHeld(s, step.sweep);
    } else if !Writes(step) {
      OthersOnlyRead(s, step);
    }
  }

  /** In any state of any run, a synced document stops being synced exactly when it is reset,
      or when a sweep that still has it in hand records a failure. */
  lemma SyncedLeftIff(s: State, step: Step, id: Id)
    requires Inv(s) && Enabled(s, step) && Returnable(s, step) && StatusIn(s, id) == Some(Synced)
    ensures StatusIn(Apply(s, step), id) != Some(Synced) <==> step == ResetForRetry(id) || RecordsFailure(s, step, id)
  {
    if step.CommitClaim? {
      assert SweepOk(s, step.sweep);
    } else if step.MarkDocument? {
      MarkRows(s, step.sweep, step.committed, step.acked);
      assert SweepOk(s, step.sweep);
    } else if !Writes(step) {
      OthersOnlyRead(s, step);
    }
  }

  // The statuses a document goes through along a run.
  ghost function Trace(s: State, steps: seq<Step>, id: Id): (tr: seq<Status>)
    requires Inv(s) && ValidRun(s, steps) && id in s.table
    ensures |tr| == |steps| + 1 && tr[0] == s.table[id].doc.status
    decreases |steps|
  {
    [s.table[id].doc.status] +
    if steps == [] then []
    else
      StepInv(s, steps[0]); StepTable(s, steps[0]);
      Trace(Apply(s, steps[0]), steps[1..], id)
  }

  ghost predicate IsLifecycle(tr: seq<Status>) {
    forall i :: 0 <= i < |tr| - 1 ==> tr[i] == tr[i + 1] || Edge(tr[i], tr[i + 1])
  }

  /** Without a retry request for it, a document's statuses form a path of the lifecycle. */
  lemma {:induction false} TraceIsLifecycle(s: State, steps: seq<Step>, id: Id)
    requires Inv(s) && Exclusive(s) && ValidRun(s, steps) && GentleRun(s, steps)
    requires id in s.table && ResetForRetry(id) !in steps
    ensures IsLifecycle(Trace(s, steps, id))
    decreases |steps|
  {
    if steps == [] {
    } else {
      var t := Apply(s, steps[0]);
      StepInv(s, steps[0]);
      StepTable(s, steps[0]);
      StepExclusive(s, steps[0]);
      StatusStep(s, steps[0], id);
      TraceIsLifecycle(t, steps[1..], id);
      var rest := Trace(t, steps[1..], id);
      assert Trace(s, steps, id) == [s.table[id].doc.status] + rest;
      assert rest[0] == t.table[id].doc.status;
    }
  }

  /** Once synced, a document stays synced over any such run. */
  lemma {:induction false} SyncedIsForever(s: State, steps: seq<Step>, id: Id)
    requires Inv(s) && Exclusive(s) && ValidRun(s, steps) && GentleRun(s, steps)
    requires StatusIn(s, id) == Some(Synced) && ResetForRetry(id) !in steps
    ensures StatusIn(Final(s, steps), id) == Some(Synced)
    decreases |steps|
  {
    if steps == [] {
    } else {
      StepInv(s, steps[0]);
      StepTable(s, steps[0]);
      StepExclusive(s, steps[0]);
      StatusStep(s, steps[0], id);
      SyncedIsForever(Apply(s, steps[0]), steps[1..], id);
    }
  }
}
