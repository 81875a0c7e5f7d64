/** The sync engine on the in-memory store: one sweep, the ticker's double sweep, and how fast
    they empty the buffer. */
module SweepEffects {
  import opened Backoff
  import opened Documents
  import opened DocumentTable
  import opened MemoryBuffer
  import opened MemoryStore
  import opened Upstream

  // The central DMS and the network, for the duration of one sweep.
  type Network = Document -> Reply

  function ResultFor(net: Network, d: Document): Result<string> {
    Outcome(net(d))
  }

  // The readings a sweep takes of the clock, by number.
  type Clock = nat -> int

  function Reading(clock: Clock, i: nat): int {
    clock(i)
  }

  predicate Accepts(net: Network, d: Document) {
    ResultFor(net, d).Ok?
  }

  lemma ResultIs(net: Network, d: Document)
    ensures Accepts(net, d) <==> Is2xx(net(d))
    ensures Is2xx(net(d)) ==> ResultFor(net, d) == Ok(net(d).assignedId)
    ensures !Is2xx(net(d)) ==> Reports(ResultFor(net, d).error, net(d))
  {
  }

  // What a sweep that claimed d leaves of the stored document.
  function SweptOnto(stored: Document, d: Document, net: Network, delay: int, now: int): Document {
    match ResultFor(net, d)
    case Ok(upstreamId) => SyncedDoc(stored, upstreamId, now)
    case Err(error) => FailedDoc(stored, error, now + delay)
  }

  // The same, when the document is still as it was claimed.
  function Swept(d: Document, net: Network, delay: int, now: int): Document {
    SweptOnto(d, d, net, delay, now)
  }

  lemma SweptCarriesAnswer(stored: Document, d: Document, net: Network, delay: int, now: int)
    ensures CarriesAnswer(SweptOnto(stored, d, net, delay, now), stored, net(d), now, now + delay)
  {
  }

  // The documents after the mark for d, and after the marks for the first n of a batch.
  function MarkedBy(docs: Documents, d: Document, net: Network, delay: int, now: int): Documents {
    if d.id in docs then docs[d.id := SweptOnto(docs[d.id], d, net, delay, now)] else docs
  }

  function AfterMarks(docs: Documents, batch: seq<Document>, net: Network, maxBackoff: int, outOfRange: int,
                      clock: Clock, n: nat): Documents
    requires n <= |batch|
  {
    if n == 0 then docs
    else
      var d := batch[n - 1];
      MarkedBy(AfterMarks(docs, batch, net, maxBackoff, outOfRange, clock, n - 1), d, net,
               Delay(d.syncAttempts, maxBackoff, outOfRange), Reading(clock, n))
  }

  datatype Announcement = Announcement(id: Id, depotId: string, docType: string, reference: string, upstreamId: string)

  // What has been announced after the first n documents of the batch: the accepted ones, in order.
  function Announcements(sent: seq<Announcement>, batch: seq<Document>, n: nat, net: Network): seq<Announcement>
    requires n <= |batch|
  {
    if n == 0 then sent
    else
      var d := batch[n - 1];
      var before := Announcements(sent, batch, n - 1, net);
      match ResultFor(net, d)
      case Ok(u) => before + [Announced(d, u)]
      case Err(e) => before
  }

  // What a sweep over the first n documents of the batch announces: those answered with a 2xx, in
  // order, each under the id it was assigned. picks are their positions.
  ghost predicate AnnouncedInOrder(picks: seq<nat>, before: seq<Announcement>, after: seq<Announcement>,
                                   batch: seq<Document>, n: nat, net: Network)
    requires n <= |batch|
  {
    && |after| == |before| + |picks| && before <= after
    && (forall p :: 0 <= p < |picks| ==>
          && picks[p] < n && Is2xx(net(batch[picks[p]]))
          && var d := batch[picks[p]];
             after[|before| + p] == Announcement(d.id, d.capture.depotId, d.capture.docType, d.capture.reference,
                                                 net(d).assignedId))
    && (forall p, q :: 0 <= p < q < |picks| ==> picks[p] < picks[q])
    && (forall i :: 0 <= i < n && Is2xx(net(batch[i])) ==> i in picks)
  }

  lemma {:induction false} AnnouncementsInOrder(sent: seq<Announcement>, batch: seq<Document>, n: nat, net: Network)
    returns (picks: seq<nat>)
    requires n <= |batch|
    ensures AnnouncedInOrder(picks, sent, Announcements(sent, batch, n, net), batch, n, net)
  {
    if n == 0 {
      picks := [];
    } else {
      var before := AnnouncementsInOrder(sent, batch, n - 1, net);
      ResultIs(net, batch[n - 1]);
      picks := before;
      if Is2xx(net(batch[n - 1])) {
        picks := before + [n - 1];
        OneMoreInOrder(before, sent, Announcements(sent, batch, n - 1, net), batch, n, net);
      }
    }
  }

  lemma OneMoreInOrder(picks: seq<nat>, sent: seq<Announcement>, now: seq<Announcement>, batch: seq<Document>, n: nat,
                       net: Network)
    requires 0 < n <= |batch| && AnnouncedInOrder(picks, sent, now, batch, n - 1, net) && Is2xx(net(batch[n - 1]))
    ensures var d := batch[n - 1];
            var last := Announcement(d.id, d.capture.depotId, d.capture.docType, d.capture.reference,
                                     net(d).assignedId);
            AnnouncedInOrder(picks + [n - 1], sent, now + [last], batch, n, net)
  {
    var more := picks + [n - 1];
    forall i | 0 <= i < n && Is2xx(net(batch[i]))
      ensures i in more
    {
      assert more[|picks|] == n - 1;
      assert i < n - 1 ==> i in picks;
    }
  }

  lemma AnnounceNext(sent: seq<Announcement>, batch: seq<Document>, i: nat, net: Network, more: seq<Announcement>)
    requires i < |batch|
    requires more == match ResultFor(net, batch[i])
                     case Ok(u) => Announcements(sent, batch, i, net) + [Announced(batch[i], u)]
                     case Err(e) => Announcements(sent, batch, i, net)
    ensures more == Announcements(sent, batch, i + 1, net)
  {
  }

  function Announced(d: Document, upstreamId: string): Announcement {
    Announcement(d.id, d.capture.depotId, d.capture.docType, d.capture.reference, upstreamId)
  }

  // The error the sweep remembers after the first n documents.
  function LastFailure(batch: seq<Document>, n: nat, net: Network): Option<string>
    requires n <= |batch|
  {
    if n == 0 then None
    else
      match ResultFor(net, batch[n - 1])
      case Err(e) => Some(e)
      case Ok(u) => LastFailure(batch, n - 1, net)
  }

  function Later(failure: Option<string>, before: Option<string>): Option<string> {
    if failure.Some? then failure else before
  }

  lemma LastFailureNext(batch: seq<Document>, i: nat, net: Network, failure: Option<string>, before: Option<string>)
    requires i < |batch| && before == LastFailure(batch, i, net)
    requires Accepts(net, batch[i]) ==> failure == None
    requires !Accepts(net, batch[i]) ==> failure == Some(ResultFor(net, batch[i]).error)
    ensures Later(failure, before) == LastFailure(batch, i + 1, net)
  {
  }

  /** It is the error of the last document that failed, and there is none when none did. */
  lemma {:induction false} LastFailureIs(batch: seq<Document>, n: nat, net: Network)
    requires n <= |batch|
    ensures LastFailure(batch, n, net) == None <==> forall i :: 0 <= i < n ==> Accepts(net, batch[i])
    ensures LastFailure(batch, n, net).Some? ==> exists i ::
      && 0 <= i < n && ResultFor(net, batch[i]) == Err(LastFailure(batch, n, net).value)
      && forall j :: i < j < n ==> Accepts(net, batch[j])
  {
    if n == 0 {
    } else {
      LastFailureIs(batch, n - 1, net);
      if Accepts(net, batch[n - 1]) {
      } else {
        assert ResultFor(net, batch[n - 1]) == Err(LastFailure(batch, n, net).value);
      }
    }
  }

  // The ids a sweep got accepted.
  function AcceptedIds(batch: seq<Document>, net: Network): set<Id> {
    set d | d in batch && Accepts(net, d) :: d.id
  }

  // before and after are the documents around one sweep over batch.
  ghost predicate SweepOf(before: Documents, after: Documents, batch: seq<Document>, net: Network) {
    && after.Keys == before.Keys
    && (forall i :: 0 <= i < |batch| ==>
          && batch[i].id in before
          && after[batch[i].id].capture == before[batch[i].id].capture
          && after[batch[i].id].status == if Accepts(net, batch[i]) then Synced else Failed)
    && (forall id :: id in before && id !in IdsOf(batch) ==> after[id] == before[id])
  }

  lemma BatchIsFull(b: Buffer, depot: string, limit: nat, ids: seq<Id>)
    requires Valid(b) && IsOldestPending(b, depot, limit, ids)
    ensures |ids| == var p := |PendingIds(b.docs, depot)|; if p < limit then p else limit
  {
    OldestAreDistinct(b, depot, limit, ids);
    var backlog := PendingIds(b.docs, depot);
    SplitSize(backlog, Elements(ids), backlog - Elements(ids));
    if backlog - Elements(ids) != {} {
      var e :| e in backlog - Elements(ids);
      assert e !in ids;
    }
  }

  /** A sweep takes out of the backlog exactly the documents the central DMS accepted. */
  lemma SweepMovesAccepted(b: Buffer, after: Documents, depot: string, limit: nat, batch: seq<Document>, net: Network)
    requires Valid(b) && IsOldestPending(b, depot, limit, IdsOf(batch)) && SweepOf(b.docs, after, batch, net)
    ensures PendingIds(after, depot) == PendingIds(b.docs, depot) - AcceptedIds(batch, net)
    ensures WithStatus(after, depot, Synced) == WithStatus(b.docs, depot, Synced) + AcceptedIds(batch, net)
    ensures WithStatus(after, depot, Syncing) == WithStatus(b.docs, depot, Syncing)
  {
    OldestAreDistinct(b, depot, limit, IdsOf(batch));
    forall id
      ensures id in PendingIds(after, depot) <==> id in PendingIds(b.docs, depot) && id !in AcceptedIds(batch, net)
      ensures id in WithStatus(after, depot, Synced) <==>
        id in WithStatus(b.docs, depot, Synced) || id in AcceptedIds(batch, net)
      ensures id in WithStatus(after, depot, Syncing) <==> id in WithStatus(b.docs, depot, Syncing)
    {
      SweptAt(b, after, depot, limit, batch, net, id);
    }
  }

  lemma SweptAt(b: Buffer, after: Documents, depot: string, limit: nat, batch: seq<Document>, net: Network, id: Id)
    requires Valid(b) && IsOldestPending(b, depot, limit, IdsOf(batch)) && Distinct(IdsOf(batch))
    requires SweepOf(b.docs, after, batch, net)
    ensures id in PendingIds(after, depot) <==> id in PendingIds(b.docs, depot) && id !in AcceptedIds(batch, net)
    ensures id in WithStatus(after, depot, Synced) <==>
      id in WithStatus(b.docs, depot, Synced) || id in AcceptedIds(batch, net)
    ensures id in WithStatus(after, depot, Syncing) <==> id in WithStatus(b.docs, depot, Syncing)
  {
    if id in IdsOf(batch) {
      var i :| 0 <= i < |batch| && IdsOf(batch)[i] == id;
      assert id in Elements(IdsOf(batch));
      assert id in PendingIds(b.docs, depot);
      AcceptedAt(batch, net, i);
    } else {
      NotAccepted(batch, net, id);
    }
  }

  lemma AcceptedAt(batch: seq<Document>, net: Network, i: nat)
    requires i < |batch| && Distinct(IdsOf(batch))
    ensures batch[i].id in AcceptedIds(batch, net) <==> Accepts(net, batch[i])
  {
    if batch[i].id in AcceptedIds(batch, net) {
      var d :| d in batch && Accepts(net, d) && d.id == batch[i].id;
      var j :| 0 <= j < |batch| && batch[j] == d;
      assert IdsOf(batch)[j] == IdsOf(batch)[i];
    }
  }

  lemma NotAccepted(batch: seq<Document>, net: Network, id: Id)
    requires id !in IdsOf(batch)
    ensures id !in AcceptedIds(batch, net)
  {
    forall d | d in batch
      ensures d.id != id
    {
      var j :| 0 <= j < |batch| && batch[j] == d;
      assert IdsOf(batch)[j] == d.id;
    }
  }

  lemma AllAccepted(batch: seq<Document>, net: Network)
    requires forall i :: 0 <= i < |batch| ==> Accepts(net, batch[i])
    ensures AcceptedIds(batch, net) == Elements(IdsOf(batch))
  {
    forall id | id in Elements(IdsOf(batch))
      ensures id in AcceptedIds(batch, net)
    {
      var j :| 0 <= j < |batch| && IdsOf(batch)[j] == id;
      assert batch[j] in batch;
    }
    forall id | id in AcceptedIds(batch, net)
      ensures id in Elements(IdsOf(batch))
    {
      var d :| d in batch && Accepts(net, d) && d.id == id;
      var j :| 0 <= j < |batch| && batch[j] == d;
      assert IdsOf(batch)[j] == id;
    }
  }

  function AtMost(n: nat, limit: nat): nat {
    if n < limit then n else limit
  }

  /** With a central DMS that accepts everything, a sweep lowers the backlog P by min(P, limit)
      and raises the synced count by as much. */
  lemma AcceptingSweep(b: Buffer, after: Documents, depot: string, limit: nat, batch: seq<Document>, net: Network)
    requires Valid(b) && IsOldestPending(b, depot, limit, IdsOf(batch)) && SweepOf(b.docs, after, batch, net)
    requires forall d :: Accepts(net, d)
    ensures var n := AtMost(|PendingIds(b.docs, depot)|, limit);
            && |batch| == n
            && |PendingIds(after, depot)| == |PendingIds(b.docs, depot)| - n
            && |WithStatus(after, depot, Synced)| == |WithStatus(b.docs, depot, Synced)| + n
  {
    BatchIsFull(b, depot, limit, IdsOf(batch));
    OldestAreDistinct(b, depot, limit, IdsOf(batch));
    AcceptedSets(b, after, depot, limit, batch, net);
    MovedSizes(PendingIds(b.docs, depot), PendingIds(after, depot), Elements(IdsOf(batch)),
               WithStatus(b.docs, depot, Synced), WithStatus(after, depot, Synced));
  }

  lemma AcceptedSets(b: Buffer, after: Documents, depot: string, limit: nat, batch: seq<Document>, net: Network)
    requires Valid(b) && IsOldestPending(b, depot, limit, IdsOf(batch)) && SweepOf(b.docs, after, batch, net)
    requires forall d :: Accepts(net, d)
    ensures Elements(IdsOf(batch)) <= PendingIds(b.docs, depot)
    ensures PendingIds(after, depot) == PendingIds(b.docs, depot) - Elements(IdsOf(batch))
    ensures WithStatus(after, depot, Synced) == WithStatus(b.docs, depot, Synced) + Elements(IdsOf(batch))
    ensures WithStatus(b.docs, depot, Synced) !! PendingIds(b.docs, depot)
  {
    SweepMovesAccepted(b, after, depot, limit, batch, net);
    AllAccepted(batch, net);
  }

  lemma MovedSizes(pending: set<Id>, pending': set<Id>, moved: set<Id>, synced: set<Id>, synced': set<Id>)
    requires moved <= pending && synced !! pending && pending' == pending - moved && synced' == synced + moved
    ensures |pending'| == |pending| - |moved| && |synced'| == |synced| + |moved|
  {
    SplitSize(pending, pending', moved);
    SplitSize(synced', synced, moved);
  }

  // What is left of a backlog after some sweeps of at most `limit` documents each.
  function Remaining(backlog: nat, limit: nat, sweeps: nat): nat {
    if sweeps == 0 then backlog
    else var left := Remaining(backlog, limit, sweeps - 1); left - AtMost(left, limit)
  }

  lemma RemainingTwo(backlog: nat, limit: nat)
    ensures var left := backlog - AtMost(backlog, limit);
            Remaining(backlog, limit, 2) == left - AtMost(left, limit)
  {
    assert Remaining(backlog, limit, 1) == backlog - AtMost(backlog, limit);
  }

  // Two more sweeps from what some sweeps left.
  lemma RemainingAgain(backlog: nat, limit: nat, sweeps: nat)
    ensures Remaining(Remaining(backlog, limit, sweeps), limit, 2) == Remaining(backlog, limit, sweeps + 2)
  {
    var left := Remaining(backlog, limit, sweeps);
    RemainingTwo(left, limit);
    assert Remaining(backlog, limit, sweeps + 1) == left - AtMost(left, limit);
  }

  /** The buffer is empty after sweep number s exactly when s is at least backlog / limit, rounded up. */
  lemma {:induction false} EmptyAfter(backlog: nat, limit: nat, sweeps: nat)
    requires limit > 0
    ensures Remaining(backlog, limit, sweeps) == if sweeps * limit >= backlog then 0 else backlog - sweeps * limit
    ensures Remaining(backlog, limit, sweeps) == 0 <==> sweeps >= (backlog + limit - 1) / limit
  {
    if sweeps == 0 {
    } else {
      EmptyAfter(backlog, limit, sweeps - 1);
      assert sweeps * limit == (sweeps - 1) * limit + limit;
    }
    RoundedUp(backlog, limit, sweeps);
  }

  /** Any sequence of sweeps against an accepting central DMS, with no capture in between: after k
      of them the backlog is what `Remaining` says, so backlog / limit of them, rounded up, empty it. */
  lemma AcceptingSweepsDrain(bs: seq<Buffer>, batches: seq<seq<Document>>, nets: seq<Network>,
                             depot: string, limit: nat, k: nat)
    requires limit > 0 && |bs| == |batches| + 1 == |nets| + 1 && k < |bs|
    requires forall i :: 0 <= i < |bs| ==> Valid(bs[i])
    requires forall i :: 0 <= i < |batches| ==> AcceptingPairAt(bs, batches, nets, depot, limit, i)
    ensures |PendingIds(bs[k].docs, depot)| == Remaining(|PendingIds(bs[0].docs, depot)|, limit, k)
    ensures |PendingIds(bs[k].docs, depot)| == 0 <==> k >= (|PendingIds(bs[0].docs, depot)| + limit - 1) / limit
  {
    BacklogAfter(bs, batches, nets, depot, limit, k);
    EmptyAfter(|PendingIds(bs[0].docs, depot)|, limit, k);
  }

  lemma {:induction false} BacklogAfter(bs: seq<Buffer>, batches: seq<seq<Document>>, nets: seq<Network>,
                                        depot: string, limit: nat, k: nat)
    requires |bs| == |batches| + 1 == |nets| + 1 && k < |bs|
    requires forall i :: 0 <= i < |bs| ==> Valid(bs[i])
    requires forall i :: 0 <= i < |batches| ==> AcceptingPairAt(bs, batches, nets, depot, limit, i)
    ensures |PendingIds(bs[k].docs, depot)| == Remaining(|PendingIds(bs[0].docs, depot)|, limit, k)
  {
    if k == 0 {
    } else {
      BacklogAfter(bs, batches, nets, depot, limit, k - 1);
      assert AcceptingPairAt(bs, batches, nets, depot, limit, k - 1);
      AcceptingSweep(bs[k - 1], bs[k].docs, depot, limit, batches[k - 1], nets[k - 1]);
    }
  }

  // Sweep number i takes bs[i] to bs[i + 1], and everything it posts is accepted.
  ghost predicate AcceptingPairAt(bs: seq<Buffer>, batches: seq<seq<Document>>, nets: seq<Network>,
                                  depot: string, limit: nat, i: nat)
    requires i < |batches| == |nets| && |bs| == |batches| + 1 && Valid(bs[i])
  {
    && IsOldestPending(bs[i], depot, limit, IdsOf(batches[i]))
    && SweepOf(bs[i].docs, bs[i + 1].docs, batches[i], nets[i])
    && forall d :: Accepts(nets[i], d)
  }

  lemma RoundedUp(backlog: nat, limit: nat, sweeps: nat)
    requires limit > 0
    ensures sweeps * limit >= backlog <==> sweeps >= (backlog + limit - 1) / limit
  {
    var q, r := (backlog + limit - 1) / limit, (backlog + limit - 1) % limit;
    assert backlog + limit - 1 == limit * q + r;
    assert limit * (sweeps - q) == sweeps * limit - limit * q;
    MultipleIsFar(limit, sweeps - q);
  }
}

module SyncEngine {
  import opened Backoff
  import opened Documents
  import opened DocumentTable
  import opened MemoryBuffer
  import opened MemoryStore
  import opened SweepEffects
  import opened Upstream

  class Engine {
    const store: Memory
    const depot: string
    const batchSize: nat
    const maxBackoff: int
    const claimBackoff: int
    const outOfRange: int
    const upstreamEnabled: bool
    const busEnabled: bool

    var online: bool
    var emitted: seq<Announcement>

    // Non-positive settings fall back to the defaults; durations are in nanoseconds.
    constructor (store: Memory, depot: string, batchSize: int, maxBackoff: int, claimBackoff: int, outOfRange: int,
                 upstreamEnabled: bool, busEnabled: bool)
      ensures this.store == store && this.depot == depot
      ensures this.upstreamEnabled == upstreamEnabled && this.busEnabled == busEnabled && this.outOfRange == outOfRange
      ensures this.batchSize == (if batchSize > 0 then batchSize else 25) > 0
      ensures this.maxBackoff == (if maxBackoff > 0 then maxBackoff else 300_000_000_000) > 0
      ensures this.claimBackoff == (if claimBackoff > 0 then claimBackoff else 120_000_000_000) > 0
      ensures !online && emitted == []
    {
      this.store := store;
      this.depot := depot;
      this.batchSize := if batchSize <= 0 then 25 else batchSize;
      this.maxBackoff := if maxBackoff <= 0 then FIVE_MINUTES else maxBackoff;
      this.claimBackoff := if claimBackoff <= 0 then 120 * SECOND else claimBackoff;
      this.outOfRange := outOfRange;
      this.upstreamEnabled := upstreamEnabled;
      this.busEnabled := busEnabled;
      online := false;
      emitted := [];
    }

    function RetryDelay(attempts: nat): int {
      Delay(attempts, maxBackoff, outOfRange)
    }

    // Document number i of the batch was claimed, and carries the answer to its own request.
    ghost predicate CarriesOwn(before: Documents, after: Documents, batch: seq<Document>, i: nat, net: Network,
                               clock: Clock)
      requires i < |batch|
    {
      var d := batch[i];
      && d.id in before && IsClaimOf(d, before[d.id], Reading(clock, 0) + claimBackoff)
      && d.id in after
      && CarriesAnswer(after[d.id], d, net(d), Reading(clock, i + 1),
                       Reading(clock, i + 1) + Delay(d.syncAttempts, maxBackoff, outOfRange))
    }

    ghost predicate EachCarriesOwn(before: Documents, after: Documents, batch: seq<Document>, net: Network,
                                   clock: Clock) {
      && after.Keys == before.Keys
      && (forall i :: 0 <= i < |batch| ==> CarriesOwn(before, after, batch, i, net, clock))
      && (forall id :: id in before && (forall i :: 0 <= i < |batch| ==> batch[i].id != id) ==> after[id] == before[id])
    }

    lemma SweptCarryOwn(before: Documents, after: Documents, batch: seq<Document>, net: Network, clock: Clock)
      requires SweptExactly(before, after, batch, net, clock)
      ensures EachCarriesOwn(before, after, batch, net, clock)
    {
      forall i | 0 <= i < |batch|
        ensures CarriesOwn(before, after, batch, i, net, clock)
      {
        assert SweptEntry(before, after, batch, i, net, clock);
        SweptCarriesAnswer(batch[i], batch[i], net, RetryDelay(batch[i].syncAttempts), Reading(clock, i + 1));
      }
      forall id | id in before && forall i :: 0 <= i < |batch| ==> batch[i].id != id
        ensures after[id] == before[id]
      {
        assert Elsewhere(before, after, batch, id);
      }
    }

    // The state recorded after a sweep: all went well when every answer was a 2xx, and otherwise the
    // error is that of the last request that ended differently.
    ghost predicate RecordsSweep(st: SyncState, batch: seq<Document>, net: Network, at: int) {
      && st.lastSyncAt == Some(at)
      && (st.lastSyncOK <==> forall i :: 0 <= i < |batch| ==> Is2xx(net(batch[i])))
      && (st.lastSyncOK ==> st.lastError == "")
      && (!st.lastSyncOK ==> exists i ::
            0 <= i < |batch| && FailedLast(batch, i, net) && Reports(st.lastError, net(batch[i])))
    }

    ghost predicate FailedLast(batch: seq<Document>, i: nat, net: Network)
      requires i < |batch|
    {
      !Is2xx(net(batch[i])) && forall j :: i < j < |batch| ==> Is2xx(net(batch[j]))
    }

    lemma StateRecordsSweep(batch: seq<Document>, net: Network, at: int)
      ensures RecordsSweep(StateAfter(LastFailure(batch, |batch|, net), at), batch, net, at)
    {
      LastFailureIs(batch, |batch|, net);
      forall i | 0 <= i < |batch|
        ensures Accepts(net, batch[i]) <==> Is2xx(net(batch[i]))
        ensures !Is2xx(net(batch[i])) ==> Reports(ResultFor(net, batch[i]).error, net(batch[i]))
      {
        ResultIs(net, batch[i]);
      }
      if LastFailure(batch, |batch|, net).Some? {
        var e := LastFailure(batch, |batch|, net).value;
        var i :| 0 <= i < |batch| && ResultFor(net, batch[i]) == Err(e)
                 && forall j :: i < j < |batch| ==> Accepts(net, batch[j]);
        assert FailedLast(batch, i, net);
      }
    }

    // All a sweep does, told by the requests it made: which documents it took, what each of them and the
    // depot's state carry afterwards, and what was announced.
    ghost predicate TellsAll(before: Buffer, after: Buffer, sent: seq<Announcement>, now: seq<Announcement>,
                             up: bool, batch: seq<Document>, net: Network, clock: Clock) {
      && (upstreamEnabled ==> IsOldestFirst(before.docs, before.order, depot, batchSize, IdsOf(batch)))
      && EachCarriesOwn(before.docs, after.docs, batch, net, clock)
      && after.order == before.order
      && (batch == [] ==> after.sync == before.sync)
      && (batch != [] ==>
            && depot in after.sync && RecordsSweep(after.sync[depot], batch, net, Reading(clock, |batch| + 1))
            && (up <==> after.sync[depot].lastSyncOK) && after.sync == before.sync[depot := after.sync[depot]])
      && (busEnabled ==> exists picks :: AnnouncedInOrder(picks, sent, now, batch, |batch|, net))
      && (!busEnabled ==> now == sent)
    }

    lemma SweepTellsAll(before: Buffer, after: Buffer, sent: seq<Announcement>, now: seq<Announcement>,
                        up: bool, batch: seq<Document>, net: Network, clock: Clock)
      requires MemoryBuffer.Valid(before) && after.order == before.order
      requires upstreamEnabled ==> IsOldestPending(before, depot, batchSize, IdsOf(batch))
      requires SweptExactly(before.docs, after.docs, batch, net, clock)
      requires batch == [] ==> after.sync == before.sync
      requires batch != [] ==> (up <==> forall i :: 0 <= i < |batch| ==> Accepts(net, batch[i]))
      requires batch != [] ==>
        after.sync == before.sync[depot := StateAfter(LastFailure(batch, |batch|, net), Reading(clock, |batch| + 1))]
      requires busEnabled ==> now == Announcements(sent, batch, |batch|, net)
      requires !busEnabled ==> now == sent
      ensures TellsAll(before, after, sent, now, up, batch, net, clock)
    {
      if upstreamEnabled {
        OldestComeFirst(before, depot, batchSize, IdsOf(batch));
      }
      SweptCarryOwn(before.docs, after.docs, batch, net, clock);
      StateRecordsSweep(batch, net, Reading(clock, |batch| + 1));
      forall i | 0 <= i < |batch|
        ensures Accepts(net, batch[i]) <==> Is2xx(net(batch[i]))
      {
        ResultIs(net, batch[i]);
      }
      var picks := AnnouncementsInOrder(sent, batch, |batch|, net);
    }

    // clock gives the readings taken in turn: by the claim, by each mark, by the sweep's record.
    method RunOnce(net: Network, clock: Clock) returns (n: nat, ghost batch: seq<Document>)
      requires store.Valid() && batchSize > 0
      modifies this, store
      ensures store.Valid() && store.order == old(store.order)
      ensures n == |batch|
      ensures !upstreamEnabled ==> batch == []
      ensures upstreamEnabled ==> IsOldestPending(old(store.Contents()), depot, batchSize, IdsOf(batch))
      ensures SweptExactly(old(store.docs), store.docs, batch, net, clock)
      ensures n == 0 ==> store.Contents() == old(store.Contents()) && online == old(online) && emitted == old(emitted)
      ensures n > 0 ==> (online <==> forall i :: 0 <= i < n ==> Accepts(net, batch[i]))
      ensures n > 0 ==>
        store.state == old(store.state)[depot := StateAfter(LastFailure(batch, n, net), Reading(clock, n + 1))]
      ensures busEnabled ==> emitted == Announcements(old(emitted), batch, |batch|, net)
      ensures !busEnabled ==> emitted == old(emitted)
      ensures TellsAll(old(store.Contents()), store.Contents(), old(emitted), emitted, online, batch, net, clock)
    {
      ghost var was, sent := store.Contents(), emitted;
      n, batch := 0, [];
      if !upstreamEnabled {
        NothingSwept(store.docs, net, clock);
      } else {
        n, batch := SweepOnce(net, clock);
      }
      SweepTellsAll(was, store.Contents(), sent, emitted, online, batch, net, clock);
    }

    // A sweep with an upstream to post to.
    method SweepOnce(net: Network, clock: Clock) returns (n: nat, ghost batch: seq<Document>)
      requires store.Valid() && batchSize > 0
      modifies this, store
      ensures store.Valid() && store.order == old(store.order)
      ensures n == |batch| && IsOldestPending(old(store.Contents()), depot, batchSize, IdsOf(batch))
      ensures SweptExactly(old(store.docs), store.docs, batch, net, clock)
      ensures n == 0 ==> store.Contents() == old(store.Contents()) && online == old(online) && emitted == old(emitted)
      ensures n > 0 ==> (online <==> forall i :: 0 <= i < n ==> Accepts(net, batch[i]))
      ensures n > 0 ==>
        store.state == old(store.state)[depot := StateAfter(LastFailure(batch, n, net), Reading(clock, n + 1))]
      ensures busEnabled ==> emitted == Announcements(old(emitted), batch, |batch|, net)
      ensures !busEnabled ==> emitted == old(emitted)
    {
      ghost var before := store.docs;
      var docs := ClaimBatch(Reading(clock, 0));
      n, batch := |docs|, docs;
      if |docs| == 0 {
        NothingClaimed(before, store.docs, Reading(clock, 0) + claimBackoff);
        NothingSwept(before, net, clock);
        return;
      }
      FinishSweep(before, docs, net, clock);
    }

    // The documents once a batch is claimed and every one of it marked, in turn.
    ghost function SweptFrom(docs: Documents, batch: seq<Document>, net: Network, clock: Clock): Documents {
      AfterMarks(ClaimedDocs(docs, Elements(IdsOf(batch)), Reading(clock, 0) + claimBackoff), batch, net,
                 maxBackoff, outOfRange, clock, |batch|)
    }

    // The batch is as the store has it.
    ghost predicate AsClaimed(docs: Documents, batch: seq<Document>) {
      forall k :: 0 <= k < |batch| ==> batch[k].id in docs && docs[batch[k].id] == batch[k]
    }

    method ClaimBatch(now: int) returns (docs: seq<Document>)
      requires store.Valid() && batchSize > 0
      modifies store`docs
      ensures store.Valid()
      ensures IsOldestPending(old(store.Contents()), depot, batchSize, IdsOf(docs))
      ensures Ready(old(store.docs), store.docs, docs, now + claimBackoff)
    {
      ghost var was := store.Contents();
      assert EffectiveLimit(batchSize, 25) == batchSize;
      docs := store.ClaimPending(depot, batchSize, claimBackoff, now);
      TakenIsReady(was, store.docs, docs, now + claimBackoff);
    }

    lemma TakenIsReady(was: Buffer, claimed: Documents, docs: seq<Document>, stamp: int)
      requires MemoryBuffer.Valid(was) && IsOldestPending(was, depot, batchSize, IdsOf(docs))
      requires claimed == ClaimedDocs(was.docs, Elements(IdsOf(docs)), stamp)
      requires forall i :: 0 <= i < |docs| ==>
        docs[i].id in was.docs && docs[i] == ClaimedDoc(was.docs[docs[i].id], stamp)
      ensures Ready(was.docs, claimed, docs, stamp)
    {
      OldestAreDistinct(was, depot, batchSize, IdsOf(docs));
      ClaimedIsReady(was.docs, claimed, docs, stamp);
    }

    // The batch is freshly claimed: distinct documents, as the store now has them.
    ghost predicate Ready(before: Documents, claimed: Documents, batch: seq<Document>, stamp: int) {
      ClaimedFrom(before, claimed, batch, stamp) && Distinct(IdsOf(batch)) && AsClaimed(claimed, batch)
    }

    lemma ClaimedIsReady(before: Documents, claimed: Documents, batch: seq<Document>, stamp: int)
      requires claimed == ClaimedDocs(before, Elements(IdsOf(batch)), stamp) && Distinct(IdsOf(batch))
      requires forall i :: 0 <= i < |batch| ==>
        batch[i].id in before && batch[i] == ClaimedDoc(before[batch[i].id], stamp)
      ensures Ready(before, claimed, batch, stamp)
    {
      ClaimedAreStored(before, claimed, batch, stamp);
    }

    // The part of a sweep that follows a claim that returned something.
    method FinishSweep(ghost before: Documents, docs: seq<Document>, net: Network, clock: Clock)
      requires store.Valid() && Ready(before, store.docs, docs, Reading(clock, 0) + claimBackoff)
      modifies this, store`docs, store`state
      ensures store.Valid()
      ensures SweptExactly(before, store.docs, docs, net, clock)
      ensures online <==> forall i :: 0 <= i < |docs| ==> Accepts(net, docs[i])
      ensures var recorded := StateAfter(LastFailure(docs, |docs|, net), Reading(clock, |docs| + 1));
              store.state == old(store.state)[depot := recorded]
      ensures busEnabled ==> emitted == Announcements(old(emitted), docs, |docs|, net)
      ensures !busEnabled ==> emitted == old(emitted)
    {
      ghost var claimed := store.Contents();
      var lastErr := PostBatch(docs, net, clock);
      ProgressKeepsCaptures(claimed.docs, store.docs, docs, |docs|, net, clock);
      KeptValid(claimed, store.Contents());
      SweptAll(before, claimed.docs, store.docs, docs, net, clock);
      online := lastErr.None?;
      LastFailureIs(docs, |docs|, net);
      RecordState(lastErr, Reading(clock, |docs| + 1));
    }

    // Posts the claimed documents one after the other and records each outcome.
    method PostBatch(docs: seq<Document>, net: Network, clock: Clock) returns (lastErr: Option<string>)
      requires Distinct(IdsOf(docs))
      requires AsClaimed(store.docs, docs)
      modifies this`emitted, store`docs
      ensures Progress(old(store.docs), store.docs, docs, |docs|, net, clock)
      ensures lastErr == LastFailure(docs, |docs|, net)
      ensures busEnabled ==> emitted == Announcements(old(emitted), docs, |docs|, net)
      ensures !busEnabled ==> emitted == old(emitted)
    {
      lastErr := None;
      ghost var sent, claimed := emitted, store.docs;
      ProgressStart(claimed, docs, net, clock);
      var i := 0;
      while i < |docs|
        invariant 0 <= i <= |docs|
        invariant UnderWay(claimed, store.docs, docs, i, net, clock, lastErr, sent, emitted)
      {
        ghost var before, announced := store.docs, emitted;
        StillStored(claimed, before, docs, i, net, clock);
        var failure := PostOne(docs[i], net, Reading(clock, i + 1));
        UnderWayStep(claimed, before, store.docs, docs, i, net, clock, failure, lastErr, sent, announced, emitted);
        lastErr := Later(failure, lastErr);
        i := i + 1;
      }
    }

    ghost predicate UnderWay(claimed: Documents, now: Documents, docs: seq<Document>, i: nat, net: Network,
                             clock: Clock,
                             lastErr: Option<string>, sent: seq<Announcement>, announced: seq<Announcement>)
      requires i <= |docs|
    {
      Progress(claimed, now, docs, i, net, clock) && Noted(docs, i, net, lastErr, sent, announced)
    }

    lemma UnderWayStep(claimed: Documents, before: Documents, after: Documents, docs: seq<Document>, i: nat,
                       net: Network, clock: Clock, failure: Option<string>, lastErr: Option<string>,
                       sent: seq<Announcement>, announced: seq<Announcement>, now: seq<Announcement>)
      requires i < |docs| && Distinct(IdsOf(docs))
      requires UnderWay(claimed, before, docs, i, net, clock, lastErr, sent, announced)
      requires after == MarkedBy(before, docs[i], net, RetryDelay(docs[i].syncAttempts), Reading(clock, i + 1))
      requires Accepts(net, docs[i]) ==> failure == None
      requires !Accepts(net, docs[i]) ==> failure == Some(ResultFor(net, docs[i]).error)
      requires busEnabled && Accepts(net, docs[i]) ==>
        now == announced + [Announced(docs[i], ResultFor(net, docs[i]).value)]
      requires !(busEnabled && Accepts(net, docs[i])) ==> now == announced
      ensures UnderWay(claimed, after, docs, i + 1, net, clock, Later(failure, lastErr), sent, now)
    {
      ProgressStep(claimed, before, after, docs, i, net, clock);
      NotedStep(docs, i, net, failure, lastErr, sent, announced, now);
    }

    lemma StillStored(claimed: Documents, now: Documents, batch: seq<Document>, i: nat, net: Network, clock: Clock)
      requires i < |batch| && Progress(claimed, now, batch, i, net, clock)
      ensures batch[i].id in now
    {
      assert Entry(claimed, now, batch, i, i, net, clock);
    }

    // What the sweep remembers and has announced after the first i documents.
    ghost predicate Noted(docs: seq<Document>, i: nat, net: Network, lastErr: Option<string>,
                          sent: seq<Announcement>, now: seq<Announcement>)
      requires i <= |docs|
    {
      && lastErr == LastFailure(docs, i, net)
      && (busEnabled ==> now == Announcements(sent, docs, i, net))
      && (!busEnabled ==> now == sent)
    }

    lemma NotedStep(docs: seq<Document>, i: nat, net: Network, failure: Option<string>, lastErr: Option<string>,
                    sent: seq<Announcement>, before: seq<Announcement>, now: seq<Announcement>)
      requires i < |docs| && Noted(docs, i, net, lastErr, sent, before)
      requires Accepts(net, docs[i]) ==> failure == None
      requires !Accepts(net, docs[i]) ==> failure == Some(ResultFor(net, docs[i]).error)
      requires busEnabled && Accepts(net, docs[i]) ==>
        now == before + [Announced(docs[i], ResultFor(net, docs[i]).value)]
      requires !(busEnabled && Accepts(net, docs[i])) ==> now == before
      ensures Noted(docs, i + 1, net, Later(failure, lastErr), sent, now)
    {
      LastFailureNext(docs, i, net, failure, lastErr);
      if busEnabled {
        AnnounceNext(sent, docs, i, net, now);
      }
    }

    // The document may have changed in the store since it was claimed, or be gone.
    method PostOne(d: Document, net: Network, now: int) returns (failure: Option<string>)
      modifies this`emitted, store`docs
      ensures store.docs == MarkedBy(old(store.docs), d, net, RetryDelay(d.syncAttempts), now)
      ensures d.id in store.docs <==> d.id in old(store.docs)
      ensures d.id in store.docs ==>
        store.docs[d.id] == SweptOnto(old(store.docs)[d.id], d, net, RetryDelay(d.syncAttempts), now)
      ensures d.id in store.docs ==>
        CarriesAnswer(store.docs[d.id], old(store.docs)[d.id], net(d), now,
                      now + Delay(d.syncAttempts, maxBackoff, outOfRange))
      ensures store.docs.Keys == old(store.docs).Keys
      ensures forall k :: k in store.docs && k != d.id ==> store.docs[k] == old(store.docs)[k]
      ensures Accepts(net, d) ==> failure == None
      ensures !Accepts(net, d) ==> failure == Some(ResultFor(net, d).error)
      ensures failure == None <==> Is2xx(net(d))
      ensures failure.Some? ==> Reports(failure.value, net(d))
      ensures busEnabled && Accepts(net, d) && d.id in store.docs ==>
        emitted == old(emitted) + [Announced(d, ResultFor(net, d).value)]
      ensures !(busEnabled && Accepts(net, d) && d.id in store.docs) ==> emitted == old(emitted)
      ensures busEnabled && Is2xx(net(d)) && d.id in store.docs ==>
        emitted == old(emitted) + [Announcement(d.id, d.capture.depotId, d.capture.docType, d.capture.reference,
                                                net(d).assignedId)]
    {
      ResultIs(net, d);
      if d.id in store.docs {
        SweptCarriesAnswer(store.docs[d.id], d, net, RetryDelay(d.syncAttempts), now);
      }
      match ResultFor(net, d) {
        case Err(e) =>
          failure := Some(e);
          var found := store.MarkFailed(d.id, e, RetryDelay(d.syncAttempts), now);
        case Ok(upstreamId) =>
          failure := None;
          var found := store.MarkSynced(d.id, upstreamId, now);
          if found && busEnabled {
            emitted := emitted + [Announced(d, upstreamId)];
          }
      }
    }

    // The depot's sync state after a sweep: when, whether all went well, and the last error.
    function StateAfter(lastErr: Option<string>, now: int): SyncState {
      SyncState(Some(now), lastErr.None?, if lastErr.Some? then lastErr.value else "")
    }

    // The first i documents of the batch carry their outcome; everything else is as claimed.
    ghost predicate Progress(claimed: Documents, now: Documents, batch: seq<Document>, i: nat, net: Network,
                             clock: Clock)
      requires i <= |batch|
    {
      && now == AfterMarks(claimed, batch, net, maxBackoff, outOfRange, clock, i)
      && now.Keys == claimed.Keys
      && (forall k :: 0 <= k < |batch| ==> Entry(claimed, now, batch, i, k, net, clock))
      && (forall id :: Elsewhere(claimed, now, batch, id))
    }

    ghost predicate Entry(claimed: Documents, now: Documents, batch: seq<Document>, i: nat, k: nat, net: Network,
                          clock: Clock)
      requires k < |batch|
    {
      var d := batch[k];
      && d.id in claimed && claimed[d.id] == d && d.id in now
      && (k < i ==> now[d.id] == Swept(d, net, RetryDelay(d.syncAttempts), Reading(clock, k + 1)))
      && (k >= i ==> now[d.id] == d)
    }

    ghost predicate Elsewhere(claimed: Documents, now: Documents, batch: seq<Document>, id: Id) {
      id in claimed && id !in IdsOf(batch) ==> id in now && now[id] == claimed[id]
    }

    lemma ProgressStart(docs: Documents, batch: seq<Document>, net: Network, clock: Clock)
      requires forall k :: 0 <= k < |batch| ==> batch[k].id in docs && docs[batch[k].id] == batch[k]
      ensures Progress(docs, docs, batch, 0, net, clock)
    {
    }

    lemma ProgressStep(claimed: Documents, before: Documents, after: Documents, batch: seq<Document>, i: nat,
                       net: Network, clock: Clock)
      requires i < |batch| && Distinct(IdsOf(batch)) && Progress(claimed, before, batch, i, net, clock)
      requires after == MarkedBy(before, batch[i], net, RetryDelay(batch[i].syncAttempts), Reading(clock, i + 1))
      ensures Progress(claimed, after, batch, i + 1, net, clock)
    {
      var n := i + 1;
      assert Entry(claimed, before, batch, i, i, net, clock);
      forall k | 0 <= k < |batch|
        ensures Entry(claimed, after, batch, n, k, net, clock)
      {
        assert Entry(claimed, before, batch, i, k, net, clock);
        assert k != i ==> IdsOf(batch)[k] != IdsOf(batch)[i];
      }
      assert IdsOf(batch)[i] in IdsOf(batch);
      forall id
        ensures Elsewhere(claimed, after, batch, id)
      {
        assert Elsewhere(claimed, before, batch, id);
      }
    }

    lemma ProgressKeepsCaptures(claimed: Documents, after: Documents, batch: seq<Document>, i: nat, net: Network,
                                clock: Clock)
      requires i <= |batch| && Progress(claimed, after, batch, i, net, clock)
      ensures forall id :: id in claimed ==>
        id in after && after[id].capture == claimed[id].capture && after[id].id == claimed[id].id
    {
      forall id | id in claimed
        ensures id in after && after[id].capture == claimed[id].capture && after[id].id == claimed[id].id
      {
        assert Elsewhere(claimed, after, batch, id);
        if id in IdsOf(batch) {
          var k :| 0 <= k < |batch| && IdsOf(batch)[k] == id;
          assert Entry(claimed, after, batch, i, k, net, clock);
        }
      }
    }

    // Every claimed document carries the outcome of its own request; no other changed. It is what
    // marking the batch document by document leaves.
    ghost predicate SweptExactly(before: Documents, after: Documents, batch: seq<Document>, net: Network,
                                 clock: Clock) {
      && after == SweptFrom(before, batch, net, clock)
      && after.Keys == before.Keys
      && (forall i :: 0 <= i < |batch| ==> SweptEntry(before, after, batch, i, net, clock))
      && (forall id :: Elsewhere(before, after, batch, id))
    }

    ghost predicate SweptEntry(before: Documents, after: Documents, batch: seq<Document>, i: nat, net: Network,
                               clock: Clock)
      requires i < |batch|
    {
      var d := batch[i];
      && d.id in before && d.id in after
      && d == ClaimedDoc(before[d.id], Reading(clock, 0) + claimBackoff)
      && after[d.id] == Swept(d, net, RetryDelay(d.syncAttempts), Reading(clock, i + 1))
    }

    // What a claim returns, against the documents it was taken from.
    ghost predicate ClaimedFrom(before: Documents, claimed: Documents, batch: seq<Document>, stamp: int) {
      && claimed == ClaimedDocs(before, Elements(IdsOf(batch)), stamp)
      && forall i :: 0 <= i < |batch| ==> batch[i].id in before && batch[i] == ClaimedDoc(before[batch[i].id], stamp)
    }

    lemma ClaimedAreStored(before: Documents, claimed: Documents, batch: seq<Document>, stamp: int)
      requires ClaimedFrom(before, claimed, batch, stamp)
      ensures forall k :: 0 <= k < |batch| ==> batch[k].id in claimed && claimed[batch[k].id] == batch[k]
    {
      forall k | 0 <= k < |batch|
        ensures batch[k].id in claimed && claimed[batch[k].id] == batch[k]
      {
        assert IdsOf(batch)[k] in Elements(IdsOf(batch));
      }
    }

    lemma SweptAll(before: Documents, claimed: Documents, after: Documents, batch: seq<Document>,
                   net: Network, clock: Clock)
      requires Progress(claimed, after, batch, |batch|, net, clock)
      requires ClaimedFrom(before, claimed, batch, Reading(clock, 0) + claimBackoff)
      ensures SweptExactly(before, after, batch, net, clock)
    {
      forall i | 0 <= i < |batch|
        ensures SweptEntry(before, after, batch, i, net, clock)
      {
        assert Entry(claimed, after, batch, |batch|, i, net, clock);
      }
      forall id
        ensures Elsewhere(before, after, batch, id)
      {
        assert Elsewhere(claimed, after, batch, id);
      }
    }

    lemma NothingClaimed(before: Documents, claimed: Documents, stamp: int)
      requires ClaimedFrom(before, claimed, [], stamp)
      ensures claimed == before
    {
      assert IdsOf([]) == [];
    }

    lemma NothingSwept(docs: Documents, net: Network, clock: Clock)
      ensures SweptExactly(docs, docs, [], net, clock)
    {
    }

    lemma SweptIsSweep(before: Documents, after: Documents, batch: seq<Document>, net: Network, clock: Clock)
      requires SweptExactly(before, after, batch, net, clock)
      ensures SweepOf(before, after, batch, net)
    {
      forall i | 0 <= i < |batch|
        ensures batch[i].id in before && after[batch[i].id].capture == before[batch[i].id].capture
        ensures after[batch[i].id].status == if Accepts(net, batch[i]) then Synced else Failed
      {
        assert SweptEntry(before, after, batch, i, net, clock);
      }
      forall id | id in before && id !in IdsOf(batch)
        ensures after[id] == before[id]
      {
        assert Elsewhere(before, after, batch, id);
      }
    }

    method RecordState(lastErr: Option<string>, now: int)
      modifies store`state
      ensures store.state == old(store.state)[depot := StateAfter(lastErr, now)]
      ensures store.state[depot].lastSyncAt == Some(now)
      ensures store.state[depot].lastSyncOK <==> lastErr.None?
      ensures store.state[depot].lastError == if lastErr.Some? then lastErr.value else ""
      ensures forall k :: k in old(store.state) && k != depot ==> store.state[k] == old(store.state)[k]
      ensures old(store.Valid()) ==> store.Valid()
    {
      store.SetSyncState(depot, StateAfter(lastErr, now));
    }

    // What the drain loop does at each tick: a full batch is followed at once by another sweep.
    method OnTick(net: Network, first: Clock, second: Clock)
      returns (ghost one: seq<Document>, ghost between: Buffer, ghost two: seq<Document>)
      requires store.Valid() && batchSize > 0
      modifies this, store
      ensures store.Valid() && MemoryBuffer.Valid(between)
      ensures SweptExactly(old(store.docs), between.docs, one, net, first)
      ensures upstreamEnabled ==> IsOldestPending(old(store.Contents()), depot, batchSize, IdsOf(one))
      ensures |one| < batchSize ==> two == [] && store.Contents() == between
      ensures |one| >= batchSize ==> SweptExactly(between.docs, store.docs, two, net, second)
      ensures |one| >= batchSize && upstreamEnabled ==> IsOldestPending(between, depot, batchSize, IdsOf(two))
      ensures upstreamEnabled && (forall d :: Accepts(net, d)) ==>
        |PendingIds(store.docs, depot)| == Remaining(|PendingIds(old(store.docs), depot)|, batchSize, 2)
    {
      ghost var before := store.Contents();
      var n;
      n, one := RunOnce(net, first);
      between, two := store.Contents(), [];
      if n >= batchSize {
        var m;
        m, two := RunOnce(net, second);
      }
      if upstreamEnabled && forall d :: Accepts(net, d) {
        TickDrains(before, between, store.docs, one, two, net, first, second);
      }
    }

    lemma TickDrains(before: Buffer, between: Buffer, after: Documents, one: seq<Document>, two: seq<Document>,
                     net: Network, first: Clock, second: Clock)
      requires batchSize > 0 && forall d :: Accepts(net, d)
      requires MemoryBuffer.Valid(before) && IsOldestPending(before, depot, batchSize, IdsOf(one))
      requires MemoryBuffer.Valid(between) && SweptExactly(before.docs, between.docs, one, net, first)
      requires |one| < batchSize ==> after == between.docs
      requires |one| >= batchSize ==> IsOldestPending(between, depot, batchSize, IdsOf(two))
      requires |one| >= batchSize ==> SweptExactly(between.docs, after, two, net, second)
      ensures |PendingIds(after, depot)| == Remaining(|PendingIds(before.docs, depot)|, batchSize, 2)
    {
      SweptAccepting(before, between.docs, one, net, first);
      RemainingTwo(|PendingIds(before.docs, depot)|, batchSize);
      if |one| >= batchSize {
        SweptAccepting(between, after, two, net, second);
      }
    }

    // The drain loop, until the node stops after so many ticks. Without an upstream it stays idle.
    method Run(net: Network, ticks: seq<(Clock, Clock)>)
      requires store.Valid() && batchSize > 0
      modifies this, store
      ensures store.Valid()
      ensures !upstreamEnabled ==> store.Contents() == old(store.Contents()) && emitted == old(emitted)
      ensures upstreamEnabled && (forall d :: Accepts(net, d)) ==>
        var backlog := |PendingIds(old(store.docs), depot)|;
        && |PendingIds(store.docs, depot)| == Remaining(backlog, batchSize, 2 * |ticks|)
        && (|PendingIds(store.docs, depot)| == 0 <==> 2 * |ticks| >= (backlog + batchSize - 1) / batchSize)
    {
      if !upstreamEnabled {
        return;
      }
      ghost var backlog := |PendingIds(store.docs, depot)|;
      var i := 0;
      while i < |ticks|
        invariant 0 <= i <= |ticks| && store.Valid()
        invariant (forall d :: Accepts(net, d)) ==>
          |PendingIds(store.docs, depot)| == Remaining(backlog, batchSize, 2 * i)
      {
        var one, between, two := OnTick(net, ticks[i].0, ticks[i].1);
        RemainingAgain(backlog, batchSize, 2 * i);
        i := i + 1;
      }
      EmptyAfter(backlog, batchSize, 2 * |ticks|);
    }

    /** So many sweeps, one asked for after the other. */
    method RunTimes(net: Network, clocks: seq<Clock>)
      requires store.Valid() && batchSize > 0
      modifies this, store
      ensures store.Valid()
      ensures upstreamEnabled && (forall d :: Accepts(net, d)) ==>
        var backlog := |PendingIds(old(store.docs), depot)|;
        && |PendingIds(store.docs, depot)| == Remaining(backlog, batchSize, |clocks|)
        && (|PendingIds(store.docs, depot)| == 0 <==> |clocks| >= (backlog + batchSize - 1) / batchSize)
    {
      ghost var backlog := |PendingIds(store.docs, depot)|;
      var i := 0;
      while i < |clocks|
        invariant 0 <= i <= |clocks| && store.Valid()
        invariant upstreamEnabled && (forall d :: Accepts(net, d)) ==>
          |PendingIds(store.docs, depot)| == Remaining(backlog, batchSize, i)
      {
        RequestedSweep(net, clocks[i]);
        i := i + 1;
      }
      EmptyAfter(backlog, batchSize, |clocks|);
    }

    method RequestedSweep(net: Network, clock: Clock)
      requires store.Valid() && batchSize > 0
      modifies this, store
      ensures store.Valid()
      ensures upstreamEnabled && (forall d :: Accepts(net, d)) ==>
        var p := |PendingIds(old(store.docs), depot)|;
        |PendingIds(store.docs, depot)| == p - AtMost(p, batchSize)
    {
      ghost var before := store.Contents();
      var n, batch := RunOnce(net, clock);
      if upstreamEnabled && forall d :: Accepts(net, d) {
        SweptAccepting(before, store.docs, batch, net, clock);
      }
    }

    lemma SweptAccepting(before: Buffer, after: Documents, batch: seq<Document>, net: Network, clock: Clock)
      requires MemoryBuffer.Valid(before) && IsOldestPending(before, depot, batchSize, IdsOf(batch))
      requires SweptExactly(before.docs, after, batch, net, clock) && forall d :: Accepts(net, d)
      ensures var p := |PendingIds(before.docs, depot)|;
              |batch| == AtMost(p, batchSize) && |PendingIds(after, depot)| == p - AtMost(p, batchSize)
    {
      SweptIsSweep(before.docs, after, batch, net, clock);
      AcceptingSweep(before, after, depot, batchSize, batch, net);
    }
  }
}
