/** A sweep of the engine that nothing interleaves with is one run of the node's step system: on stores
    that agree, claiming, posting and marking leave stores that agree. */
module SweepRefinement {
  import opened Backoff
  import opened Documents
  import opened DocumentTable
  import opened Exclusivity
  import opened MemoryBuffer
  import opened MemoryStore
  import opened NodeProtocol
  import opened StoreRelation
  import opened SweepEffects
  import opened SyncEngine
  import opened Upstream

  // The buffer and the table hold the same documents.
  ghost predicate Mirrors(docs: Documents, t: Table) {
    Agree(Buffer(docs, [], map[]), Durable(t, map[]))
  }

  // No claim is between its two statements.
  ghost predicate NoLocks(s: State) {
    forall k :: k in s.sweeps ==> s.sweeps[k].Draining?
  }

  lemma NothingLocked(s: State)
    requires NoLocks(s)
    ensures Locked(s) == {}
  {
  }

  // ---- One document ----

  function TurnTable(t: Table, d: Document, reply: Reply, cfg: Config, now: int): Table {
    match Outcome(reply)
    case Ok(upstreamId) => MarkedSynced(t, d.id, upstreamId, now)
    case Err(error) => MarkedFailed(t, d.id, error, Delay(d.syncAttempts, cfg.maxBackoff, cfg.outOfRange), now)
  }

  // The state after the mark for the document at hand.
  function AfterOne(s: State, k: nat, reply: Reply, now: int): State
    requires At(s, k) && s.sweeps[k].stage.ToPost?
  {
    AfterMark(AfterPost(s.(now := now), k, reply), k, true, true)
  }

  lemma AfterOneIs(s: State, k: nat, reply: Reply, now: int)
    requires At(s, k) && s.sweeps[k].stage.ToPost?
    ensures var t, w := AfterOne(s, k, reply, now), s.sweeps[k];
            && t.table == TurnTable(s.table, Head(s, k), reply, s.cfg, now) && t.cfg == s.cfg && t.now == now
            && t.sweeps == s.sweeps[k := if Outcome(reply).Ok? then Draining(w.batch, w.next, ToPublish)
                                         else Draining(w.batch, w.next + 1, ToPost)]
  {
  }

  lemma PostIsStep(s: State, k: nat, reply: Reply)
    requires At(s, k) && s.sweeps[k].stage.ToPost?
    ensures Enabled(s, PostDocument(k, reply)) && Returnable(s, PostDocument(k, reply))
    ensures Apply(s, PostDocument(k, reply)) == AfterPost(s, k, reply)
  {
  }

  lemma MarkIsStep(s: State, k: nat)
    requires At(s, k) && s.sweeps[k].stage.Answered? && NoLocks(s)
    ensures Enabled(s, MarkDocument(k, true, true)) && Returnable(s, MarkDocument(k, true, true))
    ensures Apply(s, MarkDocument(k, true, true)) == AfterMark(s, k, true, true)
  {
    NothingLocked(s);
  }

  lemma PostedAndMarked(s: State, k: nat, reply: Reply, now: int) returns (steps: seq<Step>)
    requires At(s, k) && s.sweeps[k].stage.ToPost? && NoLocks(s) && s.now <= now
    ensures ValidRun(s, steps) && Final(s, steps) == AfterOne(s, k, reply, now)
  {
    var a := s.(now := now);
    var tick := Tick(now - s.now);
    assert Apply(s, tick) == a;
    PostIsStep(a, k, reply);
    MarkIsStep(AfterPost(a, k, reply), k);
    ThreeSteps(s, tick, PostDocument(k, reply), MarkDocument(k, true, true));
    steps := [tick, PostDocument(k, reply), MarkDocument(k, true, true)];
  }

  lemma PublishIsStep(s: State, k: nat, delivered: bool)
    requires At(s, k) && s.sweeps[k].stage.ToPublish?
    ensures Enabled(s, PublishSynced(k, delivered)) && Returnable(s, PublishSynced(k, delivered))
    ensures var t := Apply(s, PublishSynced(k, delivered));
            && t.table == s.table && t.cfg == s.cfg && t.now == s.now
            && t.sweeps == s.sweeps[k := Draining(s.sweeps[k].batch, s.sweeps[k].next + 1, ToPost)]
  {
  }

  lemma TurnIsRun(s: State, k: nat, reply: Reply, now: int, delivered: bool) returns (steps: seq<Step>, u: State)
    requires At(s, k) && s.sweeps[k].stage.ToPost? && NoLocks(s) && s.now <= now
    ensures ValidRun(s, steps) && u == Final(s, steps)
    ensures u.table == TurnTable(s.table, Head(s, k), reply, s.cfg, now) && u.cfg == s.cfg && u.now == now
    ensures u.sweeps == s.sweeps[k := Draining(s.sweeps[k].batch, s.sweeps[k].next + 1, ToPost)]
  {
    steps := PostedAndMarked(s, k, reply, now);
    u := AfterOne(s, k, reply, now);
    AfterOneIs(s, k, reply, now);
    if Outcome(reply).Ok? {
      PublishIsStep(u, k, delivered);
      AppendStep(s, steps, PublishSynced(k, delivered));
      steps, u := steps + [PublishSynced(k, delivered)], Apply(u, PublishSynced(k, delivered));
    }
  }

  lemma AppendStep(s: State, steps: seq<Step>, last: Step)
    requires ValidRun(s, steps) && Enabled(Final(s, steps), last) && Returnable(Final(s, steps), last)
    ensures ValidRun(s, steps + [last]) && Final(s, steps + [last]) == Apply(Final(s, steps), last)
  {
    StepThenRun(Final(s, steps), last, []);
    assert [last] + [] == [last];
    RunThenRun(s, steps, [last]);
  }

  lemma {:induction false} RunThenRun(s: State, one: seq<Step>, two: seq<Step>)
    requires ValidRun(s, one) && ValidRun(Final(s, one), two)
    ensures ValidRun(s, one + two) && Final(s, one + two) == Final(Final(s, one), two)
    decreases |one|
  {
    if one == [] {
      assert one + two == two;
    } else {
      RunThenRun(Apply(s, one[0]), one[1..], two);
      assert (one + two)[1..] == one[1..] + two;
    }
  }

  // A retry delay the database stores as it is.
  predicate StoredAsIs(d: Document, net: Network, cfg: Config) {
    Accepts(net, d) || Delay(d.syncAttempts, cfg.maxBackoff, cfg.outOfRange) % MILLISECOND == 0
  }

  lemma TurnMirrors(docs: Documents, t: Table, d: Document, head: Document, net: Network, cfg: Config, now: int)
    requires Mirrors(docs, t) && Visible(head) == Visible(d) && StoredAsIs(d, net, cfg)
    ensures Mirrors(MarkedBy(docs, d, net, Delay(d.syncAttempts, cfg.maxBackoff, cfg.outOfRange), now),
                    TurnTable(t, head, net(d), cfg, now))
  {
    assert head.id == Visible(head).id == d.id && head.syncAttempts == Visible(head).syncAttempts == d.syncAttempts;
    var delay := Delay(d.syncAttempts, cfg.maxBackoff, cfg.outOfRange);
    match ResultFor(net, d)
    case Ok(u) => SyncedMirrors(docs, t, d.id, u, now);
    case Err(e) => FailedMirrors(docs, t, d.id, e, delay, now);
  }

  lemma SyncedMirrors(docs: Documents, t: Table, id: Id, u: string, now: int)
    requires Mirrors(docs, t)
    ensures Mirrors(if id in docs then docs[id := SyncedDoc(docs[id], u, now)] else docs, MarkedSynced(t, id, u, now))
  {
    if id in docs {
      assert RowsAgree(docs[id], t[id]);
      assert Visible(SyncedDoc(docs[id], u, now)) == SyncedDoc(Visible(docs[id]), u, now).(updatedAt := 0);
    }
  }

  lemma FailedMirrors(docs: Documents, t: Table, id: Id, e: string, delay: int, now: int)
    requires Mirrors(docs, t) && delay % MILLISECOND == 0
    ensures Mirrors(if id in docs then docs[id := FailedDoc(docs[id], e, now + delay)] else docs,
                    MarkedFailed(t, id, e, delay, now))
  {
    IntervalExact(delay);
    if id in docs {
      assert RowsAgree(docs[id], t[id]);
      assert Visible(FailedDoc(docs[id], e, now + delay)) == FailedDoc(Visible(docs[id]), e, 0);
    }
  }

  // ---- The whole batch ----

  predicate Advances(clock: Clock, i: nat) {
    SweepEffects.Reading(clock, i) <= SweepEffects.Reading(clock, i + 1)
  }

  // The batch as the table returned it shows the same documents as memory's.
  ghost predicate SameBatch(stored: seq<Document>, batch: seq<Document>) {
    |stored| == |batch| && forall i :: 0 <= i < |batch| ==> Visible(stored[i]) == Visible(batch[i])
  }

  lemma {:induction false} TurnsAreRun(s: State, k: nat, claimed: Documents, batch: seq<Document>, net: Network,
                                       clock: Clock, delivered: bool, i: nat) returns (steps: seq<Step>)
    requires i <= |batch| && NoLocks(s) && k in s.sweeps && s.sweeps[k].Draining?
    requires s.sweeps[k] == Draining(s.sweeps[k].batch, i, ToPost) && SameBatch(s.sweeps[k].batch, batch)
    requires Mirrors(AfterMarks(claimed, batch, net, s.cfg.maxBackoff, s.cfg.outOfRange, clock, i), s.table)
    requires s.now == SweepEffects.Reading(clock, i)
    requires forall j: nat :: i <= j < |batch| ==> Advances(clock, j)
    requires forall j :: 0 <= j < |batch| ==> StoredAsIs(batch[j], net, s.cfg)
    ensures ValidRun(s, steps)
    ensures var u := Final(s, steps);
            Mirrors(AfterMarks(claimed, batch, net, s.cfg.maxBackoff, s.cfg.outOfRange, clock, |batch|), u.table)
            && k in u.sweeps && u.sweeps[k] == Draining(s.sweeps[k].batch, |batch|, ToPost)
    decreases |batch| - i
  {
    if i == |batch| {
      steps := [];
    } else {
      var now, reply := SweepEffects.Reading(clock, i + 1), net(batch[i]);
      assert Advances(clock, i);
      var turn, u := TurnIsRun(s, k, reply, now, delivered);
      TurnMirrors(AfterMarks(claimed, batch, net, s.cfg.maxBackoff, s.cfg.outOfRange, clock, i), s.table,
                  batch[i], Head(s, k), net, s.cfg, now);
      var rest := TurnsAreRun(u, k, claimed, batch, net, clock, delivered, i + 1);
      steps := turn + rest;
      RunThenRun(s, turn, rest);
    }
  }

  // ---- The claim ----

  lemma ClaimMirrors(docs: Documents, t: Table, ids: set<Id>, lease: int, now: int)
    requires Mirrors(docs, t) && lease % MILLISECOND == 0
    ensures Mirrors(ClaimedDocs(docs, ids, now + lease), Claim(t, ids, now, lease))
  {
    ClaimAgrees(Buffer(docs, [], map[]), Durable(t, map[]), ids, lease, now);
  }

  // The batch is as the buffer has it.
  ghost predicate AsClaimed(claimed: Documents, batch: seq<Document>) {
    forall i :: 0 <= i < |batch| ==> batch[i].id in claimed && claimed[batch[i].id] == batch[i]
  }

  lemma MirroredBatch(claimed: Documents, t: Table, ids: seq<Id>, batch: seq<Document>)
    requires Mirrors(claimed, t) && ids == IdsOf(batch)
    requires AsClaimed(claimed, batch)
    ensures forall i :: 0 <= i < |ids| ==> ids[i] in t
    ensures SameBatch(BatchOf(t, ids), batch)
  {
    forall i | 0 <= i < |batch|
      ensures ids[i] in t && Visible(t[ids[i]].doc) == Visible(batch[i])
    {
      assert RowsAgree(claimed[ids[i]], t[ids[i]]);
    }
  }

  lemma LockIsStep(s: State, depot: string, limit: nat, lease: int, ids: set<Id>)
    requires NoLocks(s) && limit > 0 && IsSelection(s.table, {}, depot, limit, s.now, ids)
    ensures var lock := LockRows(depot, limit, lease, ids);
            Enabled(s, lock) && Returnable(s, lock) && Apply(s, lock) == AfterLock(s, lease, ids)
  {
    NothingLocked(s);
  }

  lemma CommitIsStep(s: State, k: nat, ids: seq<Id>)
    requires k in s.sweeps && s.sweeps[k].Locking? && s.sweeps[k].rows == Elements(ids) && Distinct(ids)
    requires forall i :: 0 <= i < |ids| ==> ids[i] in s.table
    ensures Enabled(s, CommitClaim(k, ids)) && Returnable(s, CommitClaim(k, ids))
    ensures Apply(s, CommitClaim(k, ids)) == AfterCommit(s, k, ids)
  {
  }

  lemma SelectedAreStored(t: Table, depot: string, limit: nat, now: int, ids: seq<Id>)
    requires IsSelection(t, {}, depot, limit, now, Elements(ids))
    ensures forall i :: 0 <= i < |ids| ==> ids[i] in t
  {
    forall i | 0 <= i < |ids|
      ensures ids[i] in t
    {
      assert ids[i] in Elements(ids);
      assert ids[i] in EligibleIds(t, {}, depot, now);
    }
  }

  lemma TwoSteps(s: State, one: Step, two: Step)
    requires Enabled(s, one) && Returnable(s, one)
    requires Enabled(Apply(s, one), two) && Returnable(Apply(s, one), two)
    ensures ValidRun(s, [one, two]) && Final(s, [one, two]) == Apply(Apply(s, one), two)
  {
    StepThenRun(Apply(s, one), two, []);
    StepThenRun(s, one, [two]);
    assert [two] + [] == [two] && [one] + [two] == [one, two];
  }

  // Selecting and committing, with no other claim under way.
  lemma ClaimIsRun(s: State, depot: string, limit: nat, lease: int, ids: seq<Id>) returns (steps: seq<Step>, u: State)
    requires NoLocks(s) && limit > 0 && Distinct(ids)
    requires IsSelection(s.table, {}, depot, limit, s.now, Elements(ids))
    ensures ValidRun(s, steps) && u == Final(s, steps)
    ensures u.table == Claim(s.table, Elements(ids), s.now, lease) && u.cfg == s.cfg && u.now == s.now
    ensures forall i :: 0 <= i < |ids| ==> ids[i] in u.table
    ensures u.sweeps == s.sweeps[s.nextActor := Draining(BatchOf(u.table, ids), 0, ToPost)]
  {
    var lock, commit := LockRows(depot, limit, lease, Elements(ids)), CommitClaim(s.nextActor, ids);
    var a := AfterLock(s, lease, Elements(ids));
    SelectedAreStored(s.table, depot, limit, s.now, ids);
    LockIsStep(s, depot, limit, lease, Elements(ids));
    CommitIsStep(a, s.nextActor, ids);
    TwoSteps(s, lock, commit);
    steps, u := [lock, commit], AfterCommit(a, s.nextActor, ids);
  }

  // The state in which the sweep k has claimed the batch, and has the rest before it.
  ghost predicate HasClaimed(u: State, k: nat, claimed: Documents, batch: seq<Document>) {
    && NoLocks(u) && Mirrors(claimed, u.table)
    && k in u.sweeps && u.sweeps[k].Draining? && u.sweeps[k] == Draining(u.sweeps[k].batch, 0, ToPost)
    && SameBatch(u.sweeps[k].batch, batch)
  }

  lemma ClaimedStateIs(s: State, u: State, claimed: Documents, ids: seq<Id>, batch: seq<Document>)
    requires NoLocks(s) && Mirrors(claimed, u.table) && ids == IdsOf(batch)
    requires forall i :: 0 <= i < |ids| ==> ids[i] in u.table
    requires u.sweeps == s.sweeps[s.nextActor := Draining(BatchOf(u.table, ids), 0, ToPost)]
    requires AsClaimed(claimed, batch)
    ensures HasClaimed(u, s.nextActor, claimed, batch)
  {
    MirroredBatch(claimed, u.table, ids, batch);
  }

  // What the engine claims, as the stores it claims from see it.
  ghost predicate ClaimsDue(e: Engine, s: State, b: Buffer, claimed: Documents, batch: seq<Document>) {
    && Valid(b) && e.batchSize > 0 && e.claimBackoff % MILLISECOND == 0
    && IsOldestPending(b, e.depot, e.batchSize, IdsOf(batch)) && EnoughDue(b, e.depot, e.batchSize, s.now)
    && e.Ready(b.docs, claimed, batch, s.now + e.claimBackoff)
  }

  lemma DueClaimIsRun(e: Engine, s: State, b: Buffer, claimed: Documents, batch: seq<Document>)
    returns (steps: seq<Step>, u: State)
    requires NoLocks(s) && Mirrors(b.docs, s.table) && ClaimsDue(e, s, b, claimed, batch)
    ensures ValidRun(s, steps) && u == Final(s, steps) && u.cfg == s.cfg && u.now == s.now
    ensures HasClaimed(u, s.nextActor, claimed, batch)
  {
    DueIsSelection(e, s, b, claimed, batch);
    steps, u := ClaimIsRun(s, e.depot, e.batchSize, e.claimBackoff, IdsOf(batch));
    DueMirrors(e, s, b, claimed, batch);
    ClaimedStateIs(s, u, claimed, IdsOf(batch), batch);
  }

  lemma DueMirrors(e: Engine, s: State, b: Buffer, claimed: Documents, batch: seq<Document>)
    requires Mirrors(b.docs, s.table) && ClaimsDue(e, s, b, claimed, batch)
    ensures Mirrors(claimed, Claim(s.table, Elements(IdsOf(batch)), s.now, e.claimBackoff))
    ensures AsClaimed(claimed, batch)
  {
    ClaimMirrors(b.docs, s.table, Elements(IdsOf(batch)), e.claimBackoff, s.now);
  }

  lemma DueIsSelection(e: Engine, s: State, b: Buffer, claimed: Documents, batch: seq<Document>)
    requires Mirrors(b.docs, s.table) && ClaimsDue(e, s, b, claimed, batch)
    ensures Distinct(IdsOf(batch)) && e.batchSize > 0
    ensures IsSelection(s.table, {}, e.depot, e.batchSize, s.now, Elements(IdsOf(batch)))
  {
    ClaimIsLegalIff(b, Durable(s.table, b.sync), e.depot, e.batchSize, s.now, IdsOf(batch));
  }

  // No delay a sweep of the depot may ask for loses anything in whole milliseconds.
  ghost predicate Exact(docs: Documents, depot: string, stamp: int, net: Network, cfg: Config) {
    forall id :: id in PendingIds(docs, depot) ==> StoredAsIs(ClaimedDoc(docs[id], stamp), net, cfg)
  }

  // The table holds what the buffer holds, no other claim is under way, enough is due, the clock never
  // goes back, and whole milliseconds lose nothing.
  ghost predicate Undisturbed(e: Engine, s: State, b: Buffer, net: Network, clock: Clock) {
    && Valid(b) && e.batchSize > 0 && NoLocks(s) && Mirrors(b.docs, s.table)
    && s.cfg == Config(e.maxBackoff, e.outOfRange)
    && s.now == SweepEffects.Reading(clock, 0) && (forall i: nat :: Advances(clock, i))
    && EnoughDue(b, e.depot, e.batchSize, s.now)
    && e.claimBackoff % MILLISECOND == 0 && Exact(b.docs, e.depot, s.now + e.claimBackoff, net, s.cfg)
  }

  /** Claiming, posting and marking the engine's batch is a run of the step system, and when it ends the
      table holds the documents the sweep leaves. */
  lemma SweepIsRun(e: Engine, s: State, b: Buffer, claimed: Documents, batch: seq<Document>, net: Network, clock: Clock)
    returns (steps: seq<Step>)
    requires Undisturbed(e, s, b, net, clock) && IsOldestPending(b, e.depot, e.batchSize, IdsOf(batch))
    requires e.Ready(b.docs, claimed, batch, SweepEffects.Reading(clock, 0) + e.claimBackoff)
    ensures ValidRun(s, steps) && Mirrors(e.SweptFrom(b.docs, batch, net, clock), Final(s, steps).table)
  {
    ExactBatch(e, s, b, claimed, batch, net);
    SweptFromIs(e, s, b, claimed, batch, net, clock);
    var claim, u := DueClaimIsRun(e, s, b, claimed, batch);
    var rest, after := PostingIsRun(u, s.nextActor, claimed, batch, net, clock, e.busEnabled);
    steps := claim + rest;
    RunThenRun(s, claim, rest);
  }

  lemma SweptFromIs(e: Engine, s: State, b: Buffer, claimed: Documents, batch: seq<Document>, net: Network,
                    clock: Clock)
    requires ClaimsDue(e, s, b, claimed, batch) && s.now == SweepEffects.Reading(clock, 0)
    requires s.cfg == Config(e.maxBackoff, e.outOfRange)
    ensures e.SweptFrom(b.docs, batch, net, clock) ==
            AfterMarks(claimed, batch, net, s.cfg.maxBackoff, s.cfg.outOfRange, clock, |batch|)
  {
    assert e.ClaimedFrom(b.docs, claimed, batch, s.now + e.claimBackoff);
    MarksFromClaim(e, b.docs, claimed, batch, net, clock);
  }

  lemma MarksFromClaim(e: Engine, docs: Documents, claimed: Documents, batch: seq<Document>, net: Network, clock: Clock)
    requires claimed == ClaimedDocs(docs, Elements(IdsOf(batch)), SweepEffects.Reading(clock, 0) + e.claimBackoff)
    ensures e.SweptFrom(docs, batch, net, clock) ==
            AfterMarks(claimed, batch, net, e.maxBackoff, e.outOfRange, clock, |batch|)
  {
  }

  lemma PostingIsRun(u: State, k: nat, claimed: Documents, batch: seq<Document>, net: Network, clock: Clock,
                     delivered: bool) returns (rest: seq<Step>, after: Documents)
    requires HasClaimed(u, k, claimed, batch) && forall i :: 0 <= i < |batch| ==> StoredAsIs(batch[i], net, u.cfg)
    requires u.now == SweepEffects.Reading(clock, 0) && forall i: nat :: i < |batch| ==> Advances(clock, i)
    ensures after == AfterMarks(claimed, batch, net, u.cfg.maxBackoff, u.cfg.outOfRange, clock, |batch|)
    ensures ValidRun(u, rest) && Mirrors(after, Final(u, rest).table)
  {
    after := AfterMarks(claimed, batch, net, u.cfg.maxBackoff, u.cfg.outOfRange, clock, |batch|);
    rest := TurnsAreRun(u, k, claimed, batch, net, clock, delivered, 0);
  }

  lemma ExactBatch(e: Engine, s: State, b: Buffer, claimed: Documents, batch: seq<Document>, net: Network)
    requires ClaimsDue(e, s, b, claimed, batch) && Exact(b.docs, e.depot, s.now + e.claimBackoff, net, s.cfg)
    ensures forall i :: 0 <= i < |batch| ==> StoredAsIs(batch[i], net, s.cfg)
  {
    assert e.ClaimedFrom(b.docs, claimed, batch, s.now + e.claimBackoff);
    forall i | 0 <= i < |batch|
      ensures StoredAsIs(batch[i], net, s.cfg)
    {
      assert IdsOf(batch)[i] in Elements(IdsOf(batch));
      assert batch[i].id in PendingIds(b.docs, e.depot);
    }
  }

  lemma BatchIsReady(e: Engine, docs: Documents, after: Documents, batch: seq<Document>, net: Network, clock: Clock)
    returns (claimed: Documents)
    requires Distinct(IdsOf(batch)) && e.SweptExactly(docs, after, batch, net, clock)
    ensures e.Ready(docs, claimed, batch, SweepEffects.Reading(clock, 0) + e.claimBackoff)
  {
    var stamp := SweepEffects.Reading(clock, 0) + e.claimBackoff;
    forall i | 0 <= i < |batch|
      ensures batch[i].id in docs && batch[i] == ClaimedDoc(docs[batch[i].id], stamp)
    {
      assert e.SweptEntry(docs, after, batch, i, net, clock);
    }
    claimed := ClaimedDocs(docs, Elements(IdsOf(batch)), stamp);
    e.ClaimedIsReady(docs, claimed, batch, stamp);
  }

  /** What RunOnce leaves in the in-memory store, some run of the step system leaves in a table that
      holds the same documents. */
  method RunOnceAsRun(e: Engine, ghost s: State, net: Network, clock: Clock)
    returns (n: nat, ghost batch: seq<Document>, ghost steps: seq<Step>)
    requires e.store.Valid() && e.upstreamEnabled && Undisturbed(e, s, e.store.Contents(), net, clock)
    modifies e, e.store
    ensures ValidRun(s, steps) && Mirrors(e.store.docs, Final(s, steps).table)
  {
    ghost var b := e.store.Contents();
    n, batch := e.RunOnce(net, clock);
    OldestAreDistinct(b, e.depot, e.batchSize, IdsOf(batch));
    ghost var claimed := BatchIsReady(e, b.docs, e.store.docs, batch, net, clock);
    steps := SweepIsRun(e, s, b, claimed, batch, net, clock);
  }
}
