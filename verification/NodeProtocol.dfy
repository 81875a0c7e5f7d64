/** The depot node as a step system over the document table: capture requests, concurrent
    sweeps, retries, crashes, lost acknowledgements and the clock, interleaved at the
    granularity of single SQL statements and single upstream requests. */
module NodeProtocol {
  import opened Backoff
  import opened Documents
  import opened DocumentTable
  import opened Upstream

  // What the node did, by which capture request or sweep, to which document.
  datatype Kind = DidInsert | DidPublishBuffered | DidClaim | DidAccept | DidMarkSynced | DidPublishSynced

  datatype Event = Event(kind: Kind, actor: nat, doc: Id)

  // What a sweep does next with the document at position `next` of its batch.
  datatype Stage = ToPost | Answered(reply: Reply) | ToPublish {
    function Verdict(): Result<string>
      requires Answered?
    {
      Outcome(reply)
    }
  }

  // A claim is a transaction: it locks the rows it selects, then updates and commits.
  datatype Sweep =
    | Locking(rows: set<Id>, at: int, lease: int)
    | Draining(batch: seq<Document>, next: nat, stage: Stage)

  datatype Call =
    | Inserting(id: Id, capture: Capture)
    | Reading(id: Id, capture: Capture, inserted: bool)
    | Replying(out: Id, created: bool)

  // What a capture request asked for, and when.
  datatype Asked = Asked(id: Id, capture: Capture, at: int)

  // What a sweep heard back about a document it posted.
  datatype Exchange = Exchange(sweep: nat, doc: Id, reply: Reply)

  // A completed CreateDocument.
  datatype Return = Return(actor: nat, capture: Capture, out: Id, created: bool)

  datatype Config = Config(maxBackoff: int, outOfRange: int)

  // What was asked for, sent, heard and replied so far.
  datatype History = History(
    asked: map<nat, Asked>,
    posts: seq<Post>,
    exchanges: seq<Exchange>,
    completed: seq<Return>
  )

  datatype State = State(
    cfg: Config,
    table: Table,
    sweeps: map<nat, Sweep>,
    calls: map<nat, Call>,
    nextActor: nat,
    now: int,
    log: seq<Event>,
    past: History
  )

  datatype Step =
    | Tick(elapsed: nat)
    | BeginCapture(id: Id, capture: Capture)
    | RunInsert(call: nat, acked: bool)
    | ReadBack(call: nat, found: Option<Id>)
    | PublishBuffered(call: nat, delivered: bool)
    | DropCall(call: nat)
    | LockRows(depot: string, limit: nat, lease: int, rows: set<Id>)
    | CommitClaim(sweep: nat, returned: seq<Id>)
    | PostDocument(sweep: nat, reply: Reply)
    | MarkDocument(sweep: nat, committed: bool, acked: bool)
    | PublishSynced(sweep: nat, delivered: bool)
    | DropSweep(sweep: nat)
    | ResetForRetry(id: Id)

  ghost predicate Init(s: State) {
    && s.table == map[] && s.sweeps == map[] && s.calls == map[]
    && s.log == [] && s.past == History(map[], [], [], [])
  }

  function RowsOf(w: Sweep): set<Id> {
    if w.Locking? then w.rows else {}
  }

  function Locked(s: State): set<Id> {
    set k, id | k in s.sweeps && id in RowsOf(s.sweeps[k]) :: id
  }

  // A sweep that has a document at hand, in the given stage.
  predicate At(s: State, k: nat) {
    k in s.sweeps && s.sweeps[k].Draining? && s.sweeps[k].next < |s.sweeps[k].batch|
  }

  function Head(s: State, k: nat): Document
    requires At(s, k)
  {
    s.sweeps[k].batch[s.sweeps[k].next]
  }

  ghost predicate Enabled(s: State, step: Step) {
    match step
    case Tick(elapsed) => true
    case BeginCapture(id, c) => true
    case RunInsert(call, acked) => call in s.calls && s.calls[call].Inserting?
    case ReadBack(call, found) =>
      && call in s.calls && s.calls[call].Reading?
      && if s.calls[call].inserted
         then found == if s.calls[call].id in s.table then Some(s.calls[call].id) else None
         else FoundByReference(s.table, s.calls[call].capture, found)
    case PublishBuffered(call, delivered) => call in s.calls && s.calls[call].Replying?
    case DropCall(call) => call in s.calls
    case LockRows(depot, limit, lease, rows) => limit > 0 && IsSelection(s.table, Locked(s), depot, limit, s.now, rows)
    case CommitClaim(k, returned) =>
      && k in s.sweeps && s.sweeps[k].Locking?
      && Distinct(returned) && Elements(returned) == s.sweeps[k].rows
    case PostDocument(k, reply) => At(s, k) && s.sweeps[k].stage.ToPost?
    case MarkDocument(k, committed, acked) =>
      && At(s, k) && s.sweeps[k].stage.Answered?
      && (acked ==> committed)
      && (committed ==> Head(s, k).id !in Locked(s))
    case PublishSynced(k, delivered) => At(s, k) && s.sweeps[k].stage.ToPublish?
    case DropSweep(k) => k in s.sweeps
    case ResetForRetry(id) => id !in Locked(s)
  }

  function WithCall(s: State, call: nat, c: Call): State {
    s.(calls := s.calls[call := c])
  }

  function WithSweep(s: State, k: nat, w: Sweep): State {
    s.(sweeps := s.sweeps[k := w])
  }

  function Logged(s: State, happened: bool, e: Event): State {
    if happened then s.(log := s.log + [e]) else s
  }

  function Advanced(s: State, k: nat): State
    requires At(s, k)
  {
    WithSweep(s, k, s.sweeps[k].(next := s.sweeps[k].next + 1, stage := ToPost))
  }

  function ClaimEvents(k: nat, returned: seq<Id>): (es: seq<Event>)
    ensures |es| == |returned|
    ensures forall i :: 0 <= i < |es| ==> es[i] == Event(DidClaim, k, returned[i])
  {
    seq(|returned|, i requires 0 <= i < |returned| => Event(DidClaim, k, returned[i]))
  }

  function BatchOf(t: Table, returned: seq<Id>): (batch: seq<Document>)
    requires forall i :: 0 <= i < |returned| ==> returned[i] in t
    ensures |batch| == |returned|
    ensures forall i :: 0 <= i < |batch| ==> batch[i] == t[returned[i]].doc
  {
    seq(|returned|, i requires 0 <= i < |returned| && returned[i] in t => t[returned[i]].doc)
  }

  // The insert statement, and what the request does after it.
  function AfterInsert(s: State, call: nat, acked: bool): State
    requires call in s.calls && s.calls[call].Inserting?
  {
    var id, c := s.calls[call].id, s.calls[call].capture;
    var tag := InsertTagFor(s.table, id, c);
    var t := Logged(s.(table := Insert(s.table, id, c, s.now)), tag == OneRow, Event(DidInsert, call, id));
    if acked && tag != DuplicateKey then WithCall(t, call, Reading(id, c, tag == OneRow))
    else t.(calls := t.calls - {call})
  }

  function AfterRead(s: State, call: nat, found: Option<Id>): State
    requires call in s.calls && s.calls[call].Reading?
  {
    match found
    case None => s.(calls := s.calls - {call})
    case Some(id) =>
      var c := s.calls[call];
      var replied := s.past.completed + [Return(call, c.capture, id, c.inserted)];
      WithCall(s, call, Replying(id, c.inserted)).(past := s.past.(completed := replied))
  }

  function AfterCommit(s: State, k: nat, returned: seq<Id>): State
    requires k in s.sweeps && s.sweeps[k].Locking?
    requires forall i :: 0 <= i < |returned| ==> returned[i] in s.table
  {
    var w := s.sweeps[k];
    var t := Claim(s.table, w.rows, w.at, w.lease);
    WithSweep(s, k, Draining(BatchOf(t, returned), 0, ToPost)).(table := t, log := s.log + ClaimEvents(k, returned))
  }

  function AfterPost(s: State, k: nat, reply: Reply): State
    requires At(s, k)
  {
    var d, result := Head(s, k), Outcome(reply);
    var sent := if reply.NotSent? then s.past.posts else s.past.posts + [RequestFor(d)];
    var heard := s.past.(posts := sent, exchanges := s.past.exchanges + [Exchange(k, d.id, reply)]);
    Logged(WithSweep(s, k, s.sweeps[k].(stage := Answered(reply))).(past := heard),
           result.Ok?, Event(DidAccept, k, d.id))
  }

  function AfterMark(s: State, k: nat, committed: bool, acked: bool): State
    requires At(s, k) && s.sweeps[k].stage.Answered?
  {
    var d := Head(s, k);
    match s.sweeps[k].stage.Verdict()
    case Ok(upstreamId) =>
      var t := if committed then s.(table := MarkedSynced(s.table, d.id, upstreamId, s.now)) else s;
      var u := if acked then WithSweep(t, k, s.sweeps[k].(stage := ToPublish)) else Advanced(t, k);
      Logged(u, committed, Event(DidMarkSynced, k, d.id))
    case Err(error) =>
      var delay := Delay(d.syncAttempts, s.cfg.maxBackoff, s.cfg.outOfRange);
      var t := if committed then s.(table := MarkedFailed(s.table, d.id, error, delay, s.now)) else s;
      Advanced(t, k)
  }

  function AfterPublish(s: State, k: nat, delivered: bool): State
    requires At(s, k)
  {
    Logged(Advanced(s, k), delivered, Event(DidPublishSynced, k, Head(s, k).id))
  }

  function AfterLock(s: State, lease: int, rows: set<Id>): State {
    WithSweep(s, s.nextActor, Locking(rows, s.now, lease)).(nextActor := s.nextActor + 1)
  }

  function AfterBufferedEvent(s: State, call: nat, delivered: bool): State
    requires call in s.calls && s.calls[call].Replying?
  {
    Logged(s.(calls := s.calls - {call}), delivered && s.calls[call].created,
           Event(DidPublishBuffered, call, s.calls[call].out))
  }

  // Every id a committing claim returns is in the table; the invariant below provides it.
  predicate Returnable(s: State, step: Step) {
    step.CommitClaim? ==> forall i :: 0 <= i < |step.returned| ==> step.returned[i] in s.table
  }

  ghost function Apply(s: State, step: Step): State
    requires Enabled(s, step) && Returnable(s, step)
  {
    match step
    case Tick(elapsed) => s.(now := s.now + elapsed)
    case BeginCapture(id, c) =>
      var asked := s.past.(asked := s.past.asked[s.nextActor := Asked(id, c, s.now)]);
      WithCall(s, s.nextActor, Inserting(id, c)).(past := asked, nextActor := s.nextActor + 1)
    case RunInsert(call, acked) => AfterInsert(s, call, acked)
    case ReadBack(call, found) => AfterRead(s, call, found)
    case PublishBuffered(call, delivered) => AfterBufferedEvent(s, call, delivered)
    case DropCall(call) => s.(calls := s.calls - {call})
    case LockRows(depot, limit, lease, rows) => AfterLock(s, lease, rows)
    case CommitClaim(k, returned) => AfterCommit(s, k, returned)
    case PostDocument(k, reply) => AfterPost(s, k, reply)
    case MarkDocument(k, committed, acked) => AfterMark(s, k, committed, acked)
    case PublishSynced(k, delivered) => AfterPublish(s, k, delivered)
    case DropSweep(k) => s.(sweeps := s.sweeps - {k})
    case ResetForRetry(id) => s.(table := Requeued(s.table, id, s.now))
  }

  // ---- The invariant of every run ----

  ghost predicate BatchOk(t: Table, w: Sweep)
    requires w.Draining?
  {
    && w.next <= |w.batch|
    && (!w.stage.ToPost? ==> w.next < |w.batch|)
    && (forall i, j :: 0 <= i < j < |w.batch| ==> w.batch[i].id != w.batch[j].id)
    && (forall i :: 0 <= i < |w.batch| ==>
          w.batch[i].id in t && w.batch[i].capture == t[w.batch[i].id].doc.capture)
  }

  ghost predicate SweepOk(s: State, k: nat)
    requires k in s.sweeps
  {
    match s.sweeps[k]
    case Locking(rows, at, lease) => at <= s.now && forall id :: id in rows ==>
      id in s.table && Pending(s.table[id].doc)
    case Draining(batch, next, stage) => BatchOk(s.table, s.sweeps[k])
  }

  predicate BothLock(s: State, k: nat, l: nat, id: Id) {
    k in s.sweeps && l in s.sweeps && k != l && id in RowsOf(s.sweeps[k]) && id in RowsOf(s.sweeps[l])
  }

  ghost predicate Inv(s: State) {
    && Consistent(s.table)
    && (forall k :: k in s.sweeps ==> k < s.nextActor && SweepOk(s, k))
    && (forall k :: k in s.calls ==> k < s.nextActor && k !in s.sweeps)
    && (forall k, l, id :: !BothLock(s, k, l, id))
  }

  lemma InvReturnable(s: State, step: Step)
    requires Inv(s) && Enabled(s, step)
    ensures Returnable(s, step)
  {
    if step.CommitClaim? {
      forall i | 0 <= i < |step.returned|
        ensures step.returned[i] in s.table
      {
        assert step.returned[i] in Elements(step.returned);
        assert SweepOk(s, step.sweep);
      }
    }
  }

  lemma OneLocker(s: State, k: nat, id: Id)
    requires k in s.sweeps && id in RowsOf(s.sweeps[k])
    ensures id in Locked(s)
  {
  }

  lemma BatchStaysOk(t: Table, u: Table, w: Sweep)
    requires w.Draining? && BatchOk(t, w) && Extends(t, u)
    ensures BatchOk(u, w)
  {
  }

  // Rows locked by sweeps other than k are still pending.
  ghost predicate OthersPending(s: State, t: State, k: nat) {
    forall l, id :: l in s.sweeps && l != k && id in RowsOf(s.sweeps[l]) ==> id in t.table && Pending(t.table[id].doc)
  }

  // A step that touches no sweep but k.
  ghost predicate OnlySweep(s: State, t: State, k: nat) {
    && s.now <= t.now && s.nextActor <= t.nextActor
    && (forall l :: l in t.sweeps && l != k ==> l in s.sweeps && t.sweeps[l] == s.sweeps[l])
    && (forall c :: c in t.calls ==> c < t.nextActor && c !in t.sweeps)
  }

  lemma OtherSweepOk(s: State, t: State, k: nat, l: nat)
    requires Inv(s) && OnlySweep(s, t, k) && OthersPending(s, t, k) && Extends(s.table, t.table)
    requires l in t.sweeps && l != k
    ensures l < t.nextActor && SweepOk(t, l)
  {
    assert SweepOk(s, l);
    if s.sweeps[l].Draining? {
      BatchStaysOk(s.table, t.table, s.sweeps[l]);
    } else {
      assert forall id :: id in s.sweeps[l].rows ==> id in RowsOf(s.sweeps[l]);
    }
  }

  lemma SweepStepInv(s: State, t: State, k: nat)
    requires Inv(s) && OnlySweep(s, t, k) && OthersPending(s, t, k)
    requires Consistent(t.table) && Extends(s.table, t.table)
    requires k in t.sweeps ==> k < t.nextActor && SweepOk(t, k)
    requires k in t.sweeps ==> forall l, id :: l in s.sweeps && l != k && id in RowsOf(t.sweeps[k]) ==>
      id !in RowsOf(s.sweeps[l])
    ensures Inv(t)
  {
    forall l | l in t.sweeps
      ensures l < t.nextActor && SweepOk(t, l)
    {
      if l != k {
        OtherSweepOk(s, t, k, l);
      }
    }
    forall x, y, id
      ensures !BothLock(t, x, y, id)
    {
      assert !BothLock(s, x, y, id);
    }
  }

  // A sweep that went one stage or one document further with the same batch.
  lemma MovedSweepOk(s: State, t: State, k: nat)
    requires k in s.sweeps && SweepOk(s, k) && Extends(s.table, t.table)
    requires At(s, k) && k in t.sweeps && t.sweeps[k].Draining? && t.sweeps[k].batch == s.sweeps[k].batch
    requires t.sweeps[k].next == s.sweeps[k].next
             || (t.sweeps[k].next == s.sweeps[k].next + 1 && t.sweeps[k].stage == ToPost)
    ensures SweepOk(t, k)
  {
    BatchStaysOk(s.table, t.table, s.sweeps[k]);
  }

  // Steps that leave both the table and the sweeps as they are, dropped ones apart.
  lemma QuietInv(s: State, t: State)
    requires Inv(s) && t.table == s.table && OnlySweep(s, t, s.nextActor) && s.nextActor !in t.sweeps
    ensures Inv(t)
  {
    forall l, id | l in s.sweeps && id in RowsOf(s.sweeps[l])
      ensures id in t.table && Pending(t.table[id].doc)
    {
      assert SweepOk(s, l);
    }
    SweepStepInv(s, t, s.nextActor);
  }

  lemma InsertInv(s: State, call: nat, acked: bool)
    requires Inv(s) && Enabled(s, RunInsert(call, acked))
    ensures Inv(AfterInsert(s, call, acked))
  {
    var t := AfterInsert(s, call, acked);
    InsertKeepsConsistent(s.table, s.calls[call].id, s.calls[call].capture, s.now);
    forall l, id | l in s.sweeps && id in RowsOf(s.sweeps[l])
      ensures id in t.table && Pending(t.table[id].doc)
    {
      assert SweepOk(s, l);
    }
    SweepStepInv(s, t, s.nextActor);
  }

  lemma LockInv(s: State, depot: string, limit: nat, lease: int, rows: set<Id>)
    requires Inv(s) && Enabled(s, LockRows(depot, limit, lease, rows))
    ensures Inv(AfterLock(s, lease, rows))
  {
    var t, k := AfterLock(s, lease, rows), s.nextActor;
    forall id | id in rows
      ensures id in s.table && Pending(s.table[id].doc) && id !in Locked(s)
    {
      assert id in EligibleIds(s.table, Locked(s), depot, s.now);
    }
    forall l, id | l in s.sweeps && id in RowsOf(s.sweeps[l])
      ensures id in t.table && Pending(t.table[id].doc) && id !in rows
    {
      assert SweepOk(s, l);
      OneLocker(s, l, id);
    }
    SweepStepInv(s, t, k);
  }

  lemma CommitInv(s: State, k: nat, returned: seq<Id>)
    requires Inv(s) && Enabled(s, CommitClaim(k, returned)) && Returnable(s, CommitClaim(k, returned))
    ensures Inv(AfterCommit(s, k, returned))
    ensures SameRows(s.table, AfterCommit(s, k, returned).table)
  {
    var t := AfterCommit(s, k, returned);
    ClaimKeepsRows(s.table, s.sweeps[k].rows, s.sweeps[k].at, s.sweeps[k].lease);
    SameRowsConsistent(s.table, t.table);
    CommittedSweepOk(s, k, returned);
    forall l, id | l in s.sweeps && l != k && id in RowsOf(s.sweeps[l])
      ensures id in t.table && Pending(t.table[id].doc)
    {
      assert SweepOk(s, l);
      assert !BothLock(s, k, l, id);
    }
    SweepStepInv(s, t, k);
  }

  lemma CommittedSweepOk(s: State, k: nat, returned: seq<Id>)
    requires Inv(s) && Enabled(s, CommitClaim(k, returned)) && Returnable(s, CommitClaim(k, returned))
    ensures BatchOk(AfterCommit(s, k, returned).table, AfterCommit(s, k, returned).sweeps[k])
  {
    var t := AfterCommit(s, k, returned);
    forall i | 0 <= i < |returned|
      ensures returned[i] in t.table && t.sweeps[k].batch[i] == t.table[returned[i]].doc
      ensures t.sweeps[k].batch[i].id == returned[i]
    {
    }
  }

  // A committed claim hands its sweep the returned documents, all still to be posted.
  lemma CommittedIds(s: State, k: nat, returned: seq<Id>)
    requires Inv(s) && Enabled(s, CommitClaim(k, returned)) && Returnable(s, CommitClaim(k, returned))
    ensures var w := AfterCommit(s, k, returned).sweeps[k];
            && w.Draining? && w.next == 0 && w.stage == ToPost && |w.batch| == |returned|
            && forall i :: 0 <= i < |returned| ==> w.batch[i].id == returned[i]
  {
  }

  lemma PostInv(s: State, k: nat, reply: Reply)
    requires Inv(s) && Enabled(s, PostDocument(k, reply))
    ensures Inv(AfterPost(s, k, reply))
  {
    var t := AfterPost(s, k, reply);
    UnchangedPending(s, k);
    MovedSweepOk(s, t, k);
    SweepStepInv(s, t, k);
  }

  lemma UnchangedPending(s: State, k: nat)
    requires Inv(s)
    ensures OthersPending(s, s, k)
  {
    forall l, id | l in s.sweeps && id in RowsOf(s.sweeps[l])
      ensures id in s.table && Pending(s.table[id].doc)
    {
      assert SweepOk(s, l);
    }
  }

  lemma MarkInv(s: State, k: nat, committed: bool, acked: bool)
    requires Inv(s) && Enabled(s, MarkDocument(k, committed, acked))
    ensures Inv(AfterMark(s, k, committed, acked))
    ensures SameRows(s.table, AfterMark(s, k, committed, acked).table)
  {
    var t := AfterMark(s, k, committed, acked);
    MarkRows(s, k, committed, acked);
    SameRowsConsistent(s.table, t.table);
    UnlockedUpdate(s, t, k, Head(s, k).id, committed);
    MarkMoves(s, k, committed, acked);
    SweepStepInv(s, t, k);
  }

  // Marking touches no sweep but k, and moves k at most one document further.
  lemma MarkShape(s: State, k: nat, committed: bool, acked: bool)
    requires At(s, k) && s.sweeps[k].stage.Answered?
    ensures var t := AfterMark(s, k, committed, acked);
            && k in t.sweeps && t.sweeps == s.sweeps[k := t.sweeps[k]]
            && t.calls == s.calls && t.nextActor == s.nextActor && t.now == s.now
            && t.sweeps[k].Draining? && t.sweeps[k].batch == s.sweeps[k].batch
            && ((t.sweeps[k].next == s.sweeps[k].next && t.sweeps[k].stage == ToPublish)
                || (t.sweeps[k].next == s.sweeps[k].next + 1 && t.sweeps[k].stage == ToPost))
  {
  }

  lemma MarkMoves(s: State, k: nat, committed: bool, acked: bool)
    requires Inv(s) && Enabled(s, MarkDocument(k, committed, acked))
    requires Extends(s.table, AfterMark(s, k, committed, acked).table)
    ensures OnlySweep(s, AfterMark(s, k, committed, acked), k)
    ensures k in AfterMark(s, k, committed, acked).sweeps && SweepOk(AfterMark(s, k, committed, acked), k)
    ensures RowsOf(AfterMark(s, k, committed, acked).sweeps[k]) == {}
  {
    MarkShape(s, k, committed, acked);
    MovedWithin(s, AfterMark(s, k, committed, acked), k);
  }

  lemma MovedWithin(s: State, t: State, k: nat)
    requires Inv(s) && At(s, k) && Extends(s.table, t.table)
    requires k in t.sweeps && t.sweeps == s.sweeps[k := t.sweeps[k]]
    requires t.calls == s.calls && t.nextActor == s.nextActor && s.now == t.now
    requires t.sweeps[k].Draining? && t.sweeps[k].batch == s.sweeps[k].batch
    requires t.sweeps[k].next == s.sweeps[k].next
             || (t.sweeps[k].next == s.sweeps[k].next + 1 && t.sweeps[k].stage == ToPost)
    ensures OnlySweep(s, t, k) && SweepOk(t, k)
  {
    assert SweepOk(s, k);
    MovedSweepOk(s, t, k);
  }

  // What marking does to the table: nothing outside the document at hand.
  lemma MarkRows(s: State, k: nat, committed: bool, acked: bool)
    requires At(s, k) && s.sweeps[k].stage.Answered?
    ensures var u := AfterMark(s, k, committed, acked).table;
            && SameRows(s.table, u)
            && (forall id :: id in u && (id != Head(s, k).id || !committed) ==> u[id] == s.table[id])
  {
    var d := Head(s, k);
    match s.sweeps[k].stage.Verdict()
    case Ok(u) => UpdatesKeepRows(s.table, d.id, u, "", 0, s.now);
    case Err(e) => UpdatesKeepRows(s.table, d.id, "", e, Delay(d.syncAttempts, s.cfg.maxBackoff, s.cfg.outOfRange),
      s.now);
  }

  // Changing one row that no sweep locks, or none, leaves the locked rows pending.
  lemma UnlockedUpdate(s: State, t: State, k: nat, changed: Id, happened: bool)
    requires Inv(s) && (happened ==> changed !in Locked(s))
    requires t.table.Keys == s.table.Keys
    requires forall id :: id in t.table && (id != changed || !happened) ==> t.table[id] == s.table[id]
    ensures OthersPending(s, t, k)
  {
    forall l, id | l in s.sweeps && l != k && id in RowsOf(s.sweeps[l])
      ensures id in t.table && Pending(t.table[id].doc)
    {
      assert SweepOk(s, l);
      OneLocker(s, l, id);
    }
  }

  lemma PublishInv(s: State, k: nat, delivered: bool)
    requires Inv(s) && Enabled(s, PublishSynced(k, delivered))
    ensures Inv(AfterPublish(s, k, delivered))
  {
    UnchangedPending(s, k);
    MovedSweepOk(s, AfterPublish(s, k, delivered), k);
    SweepStepInv(s, AfterPublish(s, k, delivered), k);
  }

  lemma ResetInv(s: State, id: Id)
    requires Inv(s) && Enabled(s, ResetForRetry(id))
    ensures Inv(s.(table := Requeued(s.table, id, s.now)))
    ensures SameRows(s.table, Requeued(s.table, id, s.now))
  {
    var t := s.(table := Requeued(s.table, id, s.now));
    UpdatesKeepRows(s.table, id, "", "", 0, s.now);
    SameRowsConsistent(s.table, t.table);
    UnlockedUpdate(s, t, s.nextActor, id, true);
    SweepStepInv(s, t, s.nextActor);
  }

  /** Every step preserves the invariant. */
  lemma StepInv(s: State, step: Step)
    requires Inv(s) && Enabled(s, step)
    ensures Returnable(s, step) && Inv(Apply(s, step))
  {
    InvReturnable(s, step);
    match step
    case RunInsert(call, acked) => InsertInv(s, call, acked);
    case LockRows(depot, limit, lease, rows) => LockInv(s, depot, limit, lease, rows);
    case CommitClaim(k, returned) => CommitInv(s, k, returned);
    case PostDocument(k, reply) => PostInv(s, k, reply);
    case MarkDocument(k, committed, acked) => MarkInv(s, k, committed, acked);
    case PublishSynced(k, delivered) => PublishInv(s, k, delivered);
    case ResetForRetry(id) => ResetInv(s, id);
    case _ => QuietInv(s, Apply(s, step));
  }

  // The steps that write to the table.
  predicate Writes(step: Step) {
    step.RunInsert? || step.CommitClaim? || step.MarkDocument? || step.ResetForRetry?
  }

  lemma OthersOnlyRead(s: State, step: Step)
    requires Enabled(s, step) && Returnable(s, step) && !Writes(step)
    ensures Apply(s, step).table == s.table
  {
  }

  // The steps of a sweep past its claim.
  predicate Drains(step: Step) {
    step.PostDocument? || step.MarkDocument? || step.PublishSynced?
  }

  lemma DrainShape(s: State, step: Step)
    requires Enabled(s, step) && Returnable(s, step) && Drains(step)
    ensures var t := Apply(s, step);
            && At(s, step.sweep) && step.sweep in t.sweeps && t.sweeps[step.sweep].Draining?
            && t.sweeps == s.sweeps[step.sweep := t.sweeps[step.sweep]]
  {
    if step.MarkDocument? {
      MarkShape(s, step.sweep, step.committed, step.acked);
    } else if step.PostDocument? {
      assert Apply(s, step) == AfterPost(s, step.sweep, step.reply);
    }
  }

  // The steps that touch no sweep.
  predicate LeavesSweeps(step: Step) {
    !Drains(step) && !step.LockRows? && !step.CommitClaim? && !step.DropSweep?
  }

  lemma OthersKeepSweeps(s: State, step: Step)
    requires Enabled(s, step) && Returnable(s, step) && LeavesSweeps(step)
    ensures Apply(s, step).sweeps == s.sweeps
  {
  }

  // A sweep that holds locks after a step held them before, unless the step takes them.
  lemma LocksBefore(s: State, step: Step, k: nat)
    requires Enabled(s, step) && Returnable(s, step) && k in Apply(s, step).sweeps && Apply(s, step).sweeps[k].Locking?
    ensures if step.LockRows? && k == s.nextActor then Apply(s, step).sweeps[k].rows == step.rows
            else k in s.sweeps && s.sweeps[k] == Apply(s, step).sweeps[k]
  {
    if LeavesSweeps(step) {
      OthersKeepSweeps(s, step);
    } else if Drains(step) {
      DrainShape(s, step);
    }
  }

  // A sweep keeps its locks until it commits or is lost.
  lemma LocksAfter(s: State, step: Step, k: nat)
    requires Enabled(s, step) && Returnable(s, step) && k in s.sweeps && s.sweeps[k].Locking? && k < s.nextActor
    requires !((step.CommitClaim? || step.DropSweep?) && step.sweep == k)
    ensures k in Apply(s, step).sweeps && Apply(s, step).sweeps[k] == s.sweeps[k]
  {
    if LeavesSweeps(step) {
      OthersKeepSweeps(s, step);
    } else if Drains(step) {
      DrainShape(s, step);
    }
  }

  /** No step drops a row or changes a capture, and only an insert adds a row. */
  lemma StepTable(s: State, step: Step)
    requires Inv(s) && Enabled(s, step)
    ensures Returnable(s, step)
    ensures !step.RunInsert? ==> SameRows(s.table, Apply(s, step).table)
    ensures Extends(s.table, Apply(s, step).table)
  {
    InvReturnable(s, step);
    if step.CommitClaim? {
      CommitInv(s, step.sweep, step.returned);
    } else if step.MarkDocument? {
      MarkInv(s, step.sweep, step.committed, step.acked);
    } else if step.ResetForRetry? {
      ResetInv(s, step.id);
    } else if !Writes(step) {
      OthersOnlyRead(s, step);
    }
  }

  // ---- Runs ----

  ghost predicate ValidRun(s: State, steps: seq<Step>)
    decreases |steps|
  {
    steps == [] || (Enabled(s, steps[0]) && Returnable(s, steps[0]) && ValidRun(Apply(s, steps[0]), steps[1..]))
  }

  ghost function Final(s: State, steps: seq<Step>): State
    requires ValidRun(s, steps)
    decreases |steps|
  {
    if steps == [] then s else Final(Apply(s, steps[0]), steps[1..])
  }

  lemma InitInv(s: State)
    requires Init(s)
    ensures Inv(s)
  {
  }

  lemma {:induction false} RunInv(s: State, steps: seq<Step>)
    requires Inv(s) && ValidRun(s, steps)
    ensures Inv(Final(s, steps))
    decreases |steps|
  {
    if steps == [] {
    } else {
      StepInv(s, steps[0]);
      RunInv(Apply(s, steps[0]), steps[1..]);
    }
  }
}
