/** The in-process buffer: its state as a value, and the order in which it drains. */
module MemoryBuffer {
  import opened Documents
  import opened DocumentTable

  datatype Buffer = Buffer(docs: Documents, order: seq<Id>, sync: map<string, SyncState>)

  // order enumerates docs without repetition, and a non-empty reference triple names one document.
  ghost predicate Valid(b: Buffer) {
    && Distinct(b.order)
    && Elements(b.order) == b.docs.Keys
    && (forall id :: id in b.docs ==> b.docs[id].id == id)
    && UniqueReferences(b.docs)
  }

  predicate Holds(b: Buffer, c: Capture) {
    c.reference != "" && exists id :: id in b.docs && SameTriple(b.docs[id].capture, c)
  }

  // The store stamps what it is given; fields it does not set are kept.
  function Stored(doc: Document, now: int): Document {
    doc.(status := Buffered, capture := Stamped(doc.capture, now), updatedAt := now)
  }

  function WithCreated(b: Buffer, doc: Document, now: int): Buffer {
    if Holds(b, doc.capture) then b
    else b.(docs := b.docs[doc.id := Stored(doc, now)], order := b.order + [doc.id])
  }

  function ClaimedDocs(docs: Documents, ids: set<Id>, stamp: int): Documents {
    map id | id in docs :: if id in ids then ClaimedDoc(docs[id], stamp) else docs[id]
  }

  function WithClaimed(b: Buffer, ids: set<Id>, stamp: int): Buffer {
    b.(docs := ClaimedDocs(b.docs, ids, stamp))
  }

  function WithSynced(b: Buffer, id: Id, upstreamId: string, now: int): Buffer {
    if id in b.docs then b.(docs := b.docs[id := SyncedDoc(b.docs[id], upstreamId, now)]) else b
  }

  function WithFailed(b: Buffer, id: Id, error: string, delay: int, now: int): Buffer {
    if id in b.docs then b.(docs := b.docs[id := FailedDoc(b.docs[id], error, now + delay)]) else b
  }

  function WithRequeued(b: Buffer, id: Id, now: int): Buffer {
    if id in b.docs then b.(docs := b.docs[id := ResetDoc(b.docs[id], now)]) else b
  }

  // ---- Drain order: by UpdatedAt, insertion position breaking ties ----

  ghost function Position(order: seq<Id>, id: Id): (p: nat)
    requires id in order
    ensures p < |order| && order[p] == id
  {
    var p: nat :| p < |order| && order[p] == id;
    p
  }

  ghost predicate Before(docs: Documents, order: seq<Id>, x: Id, y: Id)
    requires x in order && y in order && x in docs && y in docs
  {
    || docs[x].updatedAt < docs[y].updatedAt
    || (docs[x].updatedAt == docs[y].updatedAt && Position(order, x) < Position(order, y))
  }

  // ids is the first `limit` pending documents of the depot, in drain order.
  ghost predicate IsOldestPending(b: Buffer, depot: string, limit: nat, ids: seq<Id>)
    requires Valid(b)
  {
    var backlog := PendingIds(b.docs, depot);
    && Elements(ids) <= backlog
    && |ids| <= limit
    && (forall i, j :: 0 <= i < j < |ids| ==>
          ids[i] in b.order && ids[j] in b.order && Before(b.docs, b.order, ids[i], ids[j]))
    && (forall e :: e in backlog && e !in ids ==>
          |ids| == limit && forall i :: 0 <= i < |ids| ==> ids[i] in b.order && Before(b.docs, b.order, ids[i], e))
  }

  lemma OldestAreDistinct(b: Buffer, depot: string, limit: nat, ids: seq<Id>)
    requires Valid(b) && IsOldestPending(b, depot, limit, ids)
    ensures Distinct(ids)
    ensures |Elements(ids)| == |ids|
  {
    DistinctSize(ids);
  }

  /** The predicate pins the batch down completely: any two answers are the same sequence. */
  lemma OldestPendingUnique(b: Buffer, depot: string, limit: nat, one: seq<Id>, other: seq<Id>)
    requires Valid(b)
    requires IsOldestPending(b, depot, limit, one) && IsOldestPending(b, depot, limit, other)
    ensures one == other
  {
    OldestAgree(b, depot, limit, one, other, |one|);
    OldestAgree(b, depot, limit, other, one, |other|);
  }

  lemma {:induction false} OldestAgree(b: Buffer, depot: string, limit: nat, one: seq<Id>, other: seq<Id>, n: nat)
    requires Valid(b) && n <= |one|
    requires IsOldestPending(b, depot, limit, one) && IsOldestPending(b, depot, limit, other)
    ensures n <= |other| && one[..n] == other[..n]
  {
    if n == 0 {
    } else {
      var k := n - 1;
      OldestAgree(b, depot, limit, one, other, k);
      AgreedPrefix(b, depot, limit, one, other, k);
      assert one[k] in Elements(one);
      assert one[k] in other || |other| == limit;
      assert k < |other|;
      AgreedPrefix(b, depot, limit, other, one, k);
      NextNotLater(b, depot, limit, one, other, k);
      NextNotLater(b, depot, limit, other, one, k);
      assert one[..n] == one[..k] + [one[k]];
      assert other[..n] == other[..k] + [other[k]];
    }
  }

  // Past an agreed prefix, the next document is not among the agreed ones.
  lemma AgreedPrefix(b: Buffer, depot: string, limit: nat, one: seq<Id>, other: seq<Id>, k: nat)
    requires Valid(b) && k < |one| && k <= |other| && one[..k] == other[..k]
    requires IsOldestPending(b, depot, limit, one)
    ensures forall j :: 0 <= j < k ==> other[j] != one[k]
  {
    OldestAreDistinct(b, depot, limit, one);
    assert forall j :: 0 <= j < k ==> other[j] == other[..k][j] == one[j];
  }

  lemma NextNotLater(b: Buffer, depot: string, limit: nat, one: seq<Id>, other: seq<Id>, k: nat)
    requires Valid(b) && k < |one| && k < |other|
    requires IsOldestPending(b, depot, limit, one) && IsOldestPending(b, depot, limit, other)
    requires forall j :: 0 <= j < k ==> other[j] != one[k]
    ensures one[k] in b.order && other[k] in b.order
    ensures one[k] == other[k] || Before(b.docs, b.order, other[k], one[k])
  {
    assert one[k] in Elements(one) && other[k] in Elements(other);
    if one[k] in other {
      var j :| 0 <= j < |other| && other[j] == one[k];
      assert j >= k;
    }
  }

  predicate Claimable(docs: Documents, depot: string, id: Id) {
    id in docs && InDepot(depot, docs[id].capture) && Pending(docs[id])
  }

  // The ids a left-to-right scan of s picks, at most `most` of them.
  function Scan(docs: Documents, s: seq<Id>, depot: string, most: nat): seq<Id> {
    if s == [] then []
    else
      var id := s[|s| - 1];
      var picked := Scan(docs, s[..|s| - 1], depot, most);
      if |picked| < most && Claimable(docs, depot, id) then picked + [id] else picked
  }

  lemma {:induction false} ScanPicks(docs: Documents, s: seq<Id>, depot: string, most: nat)
    ensures var picked := Scan(docs, s, depot, most);
            && |picked| <= most
            && (forall id :: id in picked ==> id in s && Claimable(docs, depot, id))
            && (|picked| < most ==> forall id :: id in s && Claimable(docs, depot, id) ==> id in picked)
  {
    if s == [] {
    } else {
      var front, last := s[..|s| - 1], s[|s| - 1];
      assert s == front + [last];
      ScanPicks(docs, front, depot, most);
    }
  }

  lemma {:induction false} ScanFull(docs: Documents, s: seq<Id>, depot: string, most: nat, i: nat)
    requires i <= |s| && |Scan(docs, s[..i], depot, most)| == most
    ensures Scan(docs, s, depot, most) == Scan(docs, s[..i], depot, most)
    decreases |s| - i
  {
    if i == |s| {
      assert s[..i] == s;
    } else {
      assert s[..i + 1][..i] == s[..i];
      ScanFull(docs, s, depot, most, i + 1);
    }
  }

  ghost predicate SortedBy(docs: Documents, order: seq<Id>, s: seq<Id>) {
    && (forall a :: 0 <= a < |s| ==> s[a] in order && s[a] in docs)
    && (forall a, b :: 0 <= a < b < |s| ==> Before(docs, order, s[a], s[b]))
  }

  lemma {:induction false} ScanSorted(docs: Documents, order: seq<Id>, s: seq<Id>, depot: string, most: nat)
    requires SortedBy(docs, order, s)
    ensures SortedBy(docs, order, Scan(docs, s, depot, most))
  {
    if s == [] {
    } else {
      var front, last := s[..|s| - 1], s[|s| - 1];
      var before := Scan(docs, front, depot, most);
      ScanSorted(docs, order, front, depot, most);
      ScanPicks(docs, front, depot, most);
      forall i | 0 <= i < |before|
        ensures Before(docs, order, before[i], last)
      {
        assert before[i] in front;
        var k :| 0 <= k < |front| && front[k] == before[i];
        assert s[k] == before[i];
      }
    }
  }

  lemma {:induction false} ScanPassesOnlyLater(docs: Documents, order: seq<Id>, s: seq<Id>, depot: string, most: nat,
                                               e: Id)
    requires SortedBy(docs, order, s) && e in s && Claimable(docs, depot, e) && e !in Scan(docs, s, depot, most)
    ensures |Scan(docs, s, depot, most)| == most && e in order
    ensures forall i :: 0 <= i < most ==>
      var x := Scan(docs, s, depot, most)[i]; x in order && x in docs && Before(docs, order, x, e)
  {
    var front, last := s[..|s| - 1], s[|s| - 1];
    var before, picked := Scan(docs, front, depot, most), Scan(docs, s, depot, most);
    assert s == front + [last];
    ScanPicks(docs, s, depot, most);
    ScanPicks(docs, front, depot, most);
    ScanSorted(docs, order, s, depot, most);
    if e in front {
      assert |before| < most ==> e in before;
      ScanPassesOnlyLater(docs, order, front, depot, most, e);
      assert picked == before;
    } else {
      assert e == last;
      forall i | 0 <= i < most
        ensures Before(docs, order, picked[i], e)
      {
        assert picked[i] in picked;
        assert picked[i] in front;
        var k :| 0 <= k < |front| && front[k] == picked[i];
        assert s[k] == picked[i];
      }
    }
  }

  /** Scanning the whole buffer in drain order yields its oldest pending documents. */
  lemma ScanIsOldest(b: Buffer, s: seq<Id>, depot: string, most: nat)
    requires Valid(b) && SortedBy(b.docs, b.order, s) && Elements(s) == Elements(b.order)
    ensures IsOldestPending(b, depot, most, Scan(b.docs, s, depot, most))
  {
    var picked, backlog := Scan(b.docs, s, depot, most), PendingIds(b.docs, depot);
    ScanSorted(b.docs, b.order, s, depot, most);
    ScanPicks(b.docs, s, depot, most);
    forall e | e in backlog && e !in picked
      ensures |picked| == most
      ensures forall i :: 0 <= i < |picked| ==> picked[i] in b.order && Before(b.docs, b.order, picked[i], e)
    {
      assert e in Elements(b.order);
      ScanPassesOnlyLater(b.docs, b.order, s, depot, most, e);
    }
  }

  // ---- What the operations preserve ----

  /** A capture keeps the representation invariant exactly when it does not reuse an id. */
  lemma CreatedValidIff(b: Buffer, doc: Document, now: int)
    requires Valid(b)
    ensures Valid(WithCreated(b, doc, now)) <==> Holds(b, doc.capture) || doc.id !in b.docs
  {
    var after := WithCreated(b, doc, now);
    if !Holds(b, doc.capture) {
      assert after.order[|b.order|] == doc.id;
      if doc.id in b.docs {
        assert doc.id in Elements(b.order);
        var p :| 0 <= p < |b.order| && b.order[p] == doc.id;
        assert after.order[p] == doc.id;
      } else {
        assert doc.id !in Elements(b.order);
        assert Elements(after.order) == Elements(b.order) + {doc.id};
        forall i, j | 0 <= i < j < |after.order|
          ensures after.order[i] != after.order[j]
        {
          assert b.order[i] in Elements(b.order);
        }
        AddedStaysUnique(b.docs, doc.id, Stored(doc, now));
      }
    }
  }

  // The document moved to another status; every other document, and the depot's total, stayed.
  ghost predicate Moves(before: Documents, after: Documents, depot: string, id: Id, to: Status) {
    && DepotIds(after, depot) == DepotIds(before, depot)
    && forall s :: WithStatus(after, depot, s) ==
                   WithStatus(before, depot, s) - {id}
                   + if s == to && id in DepotIds(before, depot) then {id} else {}
  }

  lemma ChangedMoves(docs: Documents, depot: string, id: Id, d: Document)
    requires id in docs && d.capture == docs[id].capture
    ensures Moves(docs, docs[id := d], depot, id, d.status)
  {
    var after := docs[id := d];
    forall x
      ensures x in DepotIds(after, depot) <==> x in DepotIds(docs, depot)
    {
    }
    forall s
      ensures WithStatus(after, depot, s) ==
              WithStatus(docs, depot, s) - {id} + if s == d.status && id in DepotIds(docs, depot) then {id} else {}
    {
    }
  }

  /** Marks and retries move exactly their document, to synced, failed or buffered. */
  lemma MarksMove(b: Buffer, depot: string, id: Id, upstreamId: string, error: string, delay: int, now: int)
    requires id in b.docs
    ensures Moves(b.docs, WithSynced(b, id, upstreamId, now).docs, depot, id, Synced)
    ensures Moves(b.docs, WithFailed(b, id, error, delay, now).docs, depot, id, Failed)
    ensures Moves(b.docs, WithRequeued(b, id, now).docs, depot, id, Buffered)
  {
    ChangedMoves(b.docs, depot, id, SyncedDoc(b.docs[id], upstreamId, now));
    ChangedMoves(b.docs, depot, id, FailedDoc(b.docs[id], error, now + delay));
    ChangedMoves(b.docs, depot, id, ResetDoc(b.docs[id], now));
  }

  /** Such a move takes one from the count the document was in and adds one to the count it goes to. */
  lemma MoveCounts(before: Documents, after: Documents, depot: string, id: Id, to: Status, s: Status)
    requires id in DepotIds(before, depot) && Moves(before, after, depot, id, to)
    ensures CountOf(StatusCounts(after, depot), s) ==
            CountOf(StatusCounts(before, depot), s)
            - (if s == before[id].status then 1 else 0) + (if s == to then 1 else 0)
  {
    var was, left := WithStatus(before, depot, s), WithStatus(before, depot, s) - {id};
    SplitSize(was, left, was * {id});
    SplitSize(WithStatus(after, depot, s), left, if s == to then {id} else {});
    assert was * {id} == if s == before[id].status then {id} else {};
  }

  /** Claiming a set of pending documents moves exactly them from pending to syncing. */
  lemma ClaimMovesCounts(b: Buffer, depot: string, ids: set<Id>, stamp: int)
    requires ids <= PendingIds(b.docs, depot)
    ensures var after := WithClaimed(b, ids, stamp);
            && PendingIds(after.docs, depot) == PendingIds(b.docs, depot) - ids
            && |PendingIds(after.docs, depot)| == |PendingIds(b.docs, depot)| - |ids|
            && |WithStatus(after.docs, depot, Syncing)| == |WithStatus(b.docs, depot, Syncing)| + |ids|
            && WithStatus(after.docs, depot, Synced) == WithStatus(b.docs, depot, Synced)
            && DepotIds(after.docs, depot) == DepotIds(b.docs, depot)
  {
    var after := WithClaimed(b, ids, stamp);
    forall id
      ensures id in PendingIds(after.docs, depot) <==> id in PendingIds(b.docs, depot) && id !in ids
      ensures id in WithStatus(after.docs, depot, Syncing) <==> id in WithStatus(b.docs, depot, Syncing) || id in ids
      ensures id in WithStatus(after.docs, depot, Synced) <==> id in WithStatus(b.docs, depot, Synced)
      ensures id in DepotIds(after.docs, depot) <==> id in DepotIds(b.docs, depot)
    {
      ClaimedAt(b, depot, ids, stamp, id);
    }
    SplitSize(WithStatus(after.docs, depot, Syncing), WithStatus(b.docs, depot, Syncing), ids);
    SplitSize(PendingIds(b.docs, depot), PendingIds(after.docs, depot), ids);
  }

  lemma ClaimedAt(b: Buffer, depot: string, ids: set<Id>, stamp: int, id: Id)
    requires ids <= PendingIds(b.docs, depot)
    ensures var after := WithClaimed(b, ids, stamp);
            && (id in after.docs <==> id in b.docs)
            && (id in b.docs ==>
                  && after.docs[id].capture == b.docs[id].capture
                  && after.docs[id].status == if id in ids then Syncing else b.docs[id].status)
            && (id in ids ==> id in b.docs && InDepot(depot, b.docs[id].capture) && Pending(b.docs[id]))
  {
  }
}

module MemoryStore {
  import opened Documents
  import opened DocumentTable
  import opened MemoryBuffer

  class Memory {
    var docs: Documents
    var order: seq<Id>
    var state: map<string, SyncState>

    ghost function Contents(): Buffer
      reads this
    {
      Buffer(docs, order, state)
    }

    ghost predicate Valid()
      reads this
    {
      MemoryBuffer.Valid(Contents())
    }

    constructor ()
      ensures Valid() && Contents() == Buffer(map[], [], map[])
    {
      docs := map[];
      order := [];
      state := map[];
    }

    method CreateDocument(doc: Document, now: int) returns (out: Document, created: bool)
      requires Valid()
      modifies this
      ensures Contents() == WithCreated(old(Contents()), doc, now)
      ensures created <==> !Holds(old(Contents()), doc.capture)
      ensures created ==> out == Stored(doc, now)
      ensures !created ==> out.id in old(docs) && out == old(docs)[out.id] && SameTriple(out.capture, doc.capture)
      ensures !created ==>
        && Contents() == old(Contents()) && doc.capture.reference != ""
        && out.capture.depotId == doc.capture.depotId && out.capture.docType == doc.capture.docType
        && out.capture.reference == doc.capture.reference
      ensures created ==>
        && out.id == doc.id && CarriesRequest(out.capture, doc.capture, now)
        && out.status == Buffered && out.updatedAt == now && out.syncAttempts == doc.syncAttempts
        && out.lastError == doc.lastError && out.upstreamId == doc.upstreamId && out.syncedAt == doc.syncedAt
        && docs == old(docs)[doc.id := out] && order == old(order) + [doc.id] && state == old(state)
      ensures created && doc.capture.reference != "" ==> forall k :: k in old(docs) ==>
        || old(docs)[k].capture.depotId != doc.capture.depotId
        || old(docs)[k].capture.docType != doc.capture.docType
        || old(docs)[k].capture.reference != doc.capture.reference
      ensures Valid() <==> !created || doc.id !in old(docs)
    {
      CreatedValidIff(Contents(), doc, now);
      if doc.capture.reference != "" {
        var i := 0;
        while i < |order|
          invariant 0 <= i <= |order|
          invariant forall k :: 0 <= k < i ==> order[k] in docs && !SameTriple(docs[order[k]].capture, doc.capture)
        {
          assert order[i] in Elements(order);
          var d := docs[order[i]];
          if SameTriple(d.capture, doc.capture) {
            return d, false;
          }
          i := i + 1;
        }
        assert !Holds(Contents(), doc.capture) by {
          forall id | id in docs
            ensures !SameTriple(docs[id].capture, doc.capture)
          {
            assert id in Elements(order);
          }
        }
      }
      out := Stored(doc, now);
      docs := docs[doc.id := out];
      order := order + [doc.id];
      created := true;
    }

    method GetDocument(id: Id) returns (r: Result<Document>)
      ensures r.Ok? <==> id in docs
      ensures r.Ok? ==> r.value == docs[id]
    {
      if id in docs {
        return Ok(docs[id]);
      }
      return Err("not found");
    }

    // Newest first.
    method ListDocuments(status: string, limit: int) returns (out: seq<Document>)
      requires Valid()
      ensures out == Shown(Reversed(Matching(docs, order, status)), ListingLimit(limit))
      ensures IsNewestFirst(docs, order, status, if limit <= 0 || limit > 500 then 100 else limit, out)
    {
      var most := if limit <= 0 || limit > 500 then 100 else limit;
      out := ListFrom(status, most);
      ListedNewestFirst(Contents(), status, most, out);
    }

    // From the last captured document back, until the listing is full.
    method ListFrom(status: string, most: nat) returns (out: seq<Document>)
      requires Valid()
      ensures forall id :: id in order ==> id in docs
      ensures out == Shown(Reversed(Matching(docs, order, status)), most)
    {
      assert forall x :: x in order ==> x in Elements(order);
      out := [];
      var i := |order|;
      while i > 0 && |out| < most
        invariant 0 <= i <= |order| && |out| <= most
        invariant out == Reversed(Matching(docs, order[i..], status))
      {
        i := i - 1;
        assert order[i..][1..] == order[i + 1..];
        var d := docs[order[i]];
        if status != "" && StatusText(d.status) != status {
          continue;
        }
        assert Reversed([d] + Matching(docs, order[i + 1..], status)) == out + [d];
        out := out + [d];
      }
      ListingPrefix(docs, order, status, i);
    }

    method ClaimPending(depot: string, limit: int, lease: int, now: int) returns (out: seq<Document>)
      requires Valid()
      modifies this`docs
      ensures Valid()
      ensures IsOldestPending(old(Contents()), depot, EffectiveLimit(limit, 25), IdsOf(out))
      ensures docs == ClaimedDocs(old(docs), Elements(IdsOf(out)), now + lease)
      ensures forall i :: 0 <= i < |out| ==>
        && out[i].id in old(docs)
        && out[i] == ClaimedDoc(old(docs)[out[i].id], now + lease)
        && IsClaimOf(out[i], old(docs)[out[i].id], now + lease)
      ensures IsOldestFirst(old(docs), old(order), depot, if limit <= 0 then 25 else limit, IdsOf(out))
      ensures forall id :: id in old(docs) ==>
        && id in docs
        && (id !in IdsOf(out) ==> docs[id] == old(docs)[id])
        && (id in IdsOf(out) ==> IsClaimOf(docs[id], old(docs)[id], now + lease))
    {
      var most := EffectiveLimit(limit, 25);
      ghost var was := Contents();
      var ids := DrainOrder(depot, most);
      ghost var picked := Scan(docs, ids[..], depot, most);
      out := TakePending(ids, depot, most, now + lease);
      assert IdsOf(out) == picked && Contents() == WithClaimed(was, Elements(IdsOf(out)), now + lease);
      ClaimKeepsValid(was, Elements(IdsOf(out)), now + lease);
      OldestComeFirst(was, depot, most, IdsOf(out));
      ClaimedAreClaims(was.docs, IdsOf(out), now + lease);
    }

    // The ids of the buffer, oldest first.
    method DrainOrder(ghost depot: string, ghost most: nat) returns (ids: array<Id>)
      requires Valid()
      ensures fresh(ids)
      ensures forall k :: 0 <= k < ids.Length ==>
        && ids[k] in docs && docs[ids[k]].id == ids[k] && ids[k] !in ids[..k]
      ensures IsOldestPending(Contents(), depot, most, Scan(docs, ids[..], depot, most))
    {
      ValidIndexed(Contents());
      ids := new Id[|order|](i requires 0 <= i < |order| reads this => order[i]);
      assert ids[..] == order;
      SortStable(ids, docs);
      SortedBuffer(Contents(), ids[..]);
      ScanIsOldest(Contents(), ids[..], depot, most);
    }

    method TakePending(ids: array<Id>, depot: string, most: nat, stamp: int) returns (out: seq<Document>)
      requires forall k :: 0 <= k < ids.Length ==> ids[k] in docs && docs[ids[k]].id == ids[k]
      requires forall k :: 0 <= k < ids.Length ==> ids[k] !in ids[..k]
      modifies this`docs
      ensures IdsOf(out) == Scan(old(docs), ids[..], depot, most)
      ensures docs == ClaimedDocs(old(docs), Elements(IdsOf(out)), stamp)
      ensures forall k :: 0 <= k < |out| ==> out[k].id in old(docs) && out[k] == ClaimedDoc(old(docs)[out[k].id], stamp)
    {
      ghost var sorted, was := ids[..], docs;
      out := [];
      var i := 0;
      while i < ids.Length && |out| < most
        invariant 0 <= i <= ids.Length && |out| <= most
        invariant TakenSoFar(was, docs, out, sorted[..i], depot, most, stamp)
      {
        var id := ids[i];
        NotTakenYet(was, docs, out, sorted, i, depot, most, stamp);
        i := i + 1;
        var d := docs[id];
        if depot != "" && d.capture.depotId != depot {
          continue;
        }
        if d.status != Buffered && d.status != Failed {
          continue;
        }
        TakeOneMore(was, docs, out, sorted, i, depot, most, stamp);
        d := ClaimedDoc(d, stamp);
        docs := docs[id := d];
        out := out + [d];
      }
      assert sorted[..ids.Length] == sorted;
      if |out| == most {
        ScanFull(was, sorted, depot, most, i);
      }
    }

    method MarkSynced(id: Id, upstreamId: string, now: int) returns (found: bool)
      modifies this`docs
      ensures Contents() == WithSynced(old(Contents()), id, upstreamId, now)
      ensures old(Valid()) ==> Valid()
      ensures found <==> id in old(docs)
      ensures docs.Keys == old(docs).Keys && forall k :: k in docs && k != id ==> docs[k] == old(docs)[k]
      ensures found ==>
        && docs[id].id == old(docs)[id].id && docs[id].capture == old(docs)[id].capture
        && docs[id].status == Synced && docs[id].upstreamId == upstreamId && docs[id].lastError == ""
        && docs[id].syncedAt == Some(now) && docs[id].updatedAt == now
        && docs[id].syncAttempts == old(docs)[id].syncAttempts
    {
      if id !in docs {
        return false;
      }
      docs := docs[id := SyncedDoc(docs[id], upstreamId, now)];
      KeptValid(old(Contents()), Contents());
      found := true;
    }

    method MarkFailed(id: Id, error: string, delay: int, now: int) returns (found: bool)
      modifies this`docs
      ensures Contents() == WithFailed(old(Contents()), id, error, delay, now)
      ensures old(Valid()) ==> Valid()
      ensures found <==> id in old(docs)
      ensures docs.Keys == old(docs).Keys && forall k :: k in docs && k != id ==> docs[k] == old(docs)[k]
      ensures found ==>
        && docs[id].id == old(docs)[id].id && docs[id].capture == old(docs)[id].capture
        && docs[id].status == Failed && docs[id].lastError == error && docs[id].updatedAt == now + delay
        && docs[id].upstreamId == old(docs)[id].upstreamId && docs[id].syncedAt == old(docs)[id].syncedAt
        && docs[id].syncAttempts == old(docs)[id].syncAttempts
    {
      if id !in docs {
        return false;
      }
      docs := docs[id := FailedDoc(docs[id], error, now + delay)];
      KeptValid(old(Contents()), Contents());
      found := true;
    }

    method ResetForRetry(id: Id, now: int) returns (found: bool)
      modifies this`docs
      ensures Contents() == WithRequeued(old(Contents()), id, now)
      ensures old(Valid()) ==> Valid()
      ensures found <==> id in old(docs)
      ensures docs.Keys == old(docs).Keys && forall k :: k in docs && k != id ==> docs[k] == old(docs)[k]
      ensures found ==>
        && docs[id].id == old(docs)[id].id && docs[id].capture == old(docs)[id].capture
        && docs[id].status == Buffered && docs[id].lastError == "" && docs[id].updatedAt == now
        && docs[id].upstreamId == old(docs)[id].upstreamId && docs[id].syncedAt == old(docs)[id].syncedAt
        && docs[id].syncAttempts == old(docs)[id].syncAttempts
    {
      if id !in docs {
        return false;
      }
      docs := docs[id := ResetDoc(docs[id], now)];
      KeptValid(old(Contents()), Contents());
      found := true;
    }

    method Stats(depot: string) returns (st: SyncStats)
      requires Valid()
      ensures st.counts == StatusCounts(docs, depot) && CountsStatuses(st.counts, docs, depot)
      ensures st.last == StateIn(state, depot)
      ensures st.last == if depot in state then state[depot] else SyncState(None, false, "")
    {
      var counts := Counts(0, 0, 0, 0);
      ghost var seen: Documents := map[];
      var i := 0;
      while i < |order|
        invariant 0 <= i <= |order|
        invariant seen.Keys == Elements(order[..i])
        invariant forall id :: id in seen ==> id in docs && seen[id] == docs[id]
        invariant counts == StatusCounts(seen, depot)
      {
        var id := order[i];
        assert id in Elements(order) && id !in seen;
        assert order[..i + 1] == order[..i] + [id];
        var d := docs[id];
        i := i + 1;
        CountOneMore(seen, depot, id, d);
        seen := seen[id := d];
        if depot != "" && d.capture.depotId != depot {
          continue;
        }
        counts := Incremented(counts, d.status);
      }
      assert order[..i] == order;
      assert seen == docs;
      StatusCountsCount(docs, depot);
      var last := GetSyncState(depot);
      st := SyncStats(counts, last);
    }

    method GetSyncState(depot: string) returns (st: SyncState)
      ensures st == StateIn(state, depot)
      ensures st == if depot in state then state[depot] else SyncState(None, false, "")
    {
      st := if depot in state then state[depot] else NEVER_SYNCED;
    }

    method SetSyncState(depot: string, st: SyncState)
      modifies this`state
      ensures Contents() == old(Contents()).(sync := old(state)[depot := st])
      ensures old(Valid()) ==> Valid()
    {
      state := state[depot := st];
    }
  }

  // x was captured before y.
  ghost predicate Precedes(order: seq<Id>, x: Id, y: Id) {
    exists p, q :: 0 <= p < q < |order| && order[p] == x && order[q] == y
  }

  // out lists stored documents in the given status, newest first, and leaves one out only when it is
  // full of newer ones.
  ghost predicate IsNewestFirst(docs: Documents, order: seq<Id>, status: string, most: nat, out: seq<Document>) {
    && |out| <= most
    && (forall i :: 0 <= i < |out| ==>
          out[i].id in docs && docs[out[i].id] == out[i] && HasStatus(out[i].status, status))
    && (forall i, j :: 0 <= i < j < |out| ==> Precedes(order, out[j].id, out[i].id))
    && (forall id :: id in docs && HasStatus(docs[id].status, status) && docs[id] !in out ==>
          |out| == most && forall i :: 0 <= i < |out| ==> Precedes(order, id, out[i].id))
  }

  // x comes before y in drain order.
  ghost predicate DrainsBefore(docs: Documents, order: seq<Id>, x: Id, y: Id)
    requires x in docs && y in docs
  {
    docs[x].updatedAt < docs[y].updatedAt || (docs[x].updatedAt == docs[y].updatedAt && Precedes(order, x, y))
  }

  predicate WaitsFor(d: Document, depot: string) {
    (d.status == Buffered || d.status == Failed) && (depot == "" || d.capture.depotId == depot)
  }

  // ids are documents of the depot that wait to be synced, in drain order, and one is left out only
  // when `most` others come before it.
  ghost predicate IsOldestFirst(docs: Documents, order: seq<Id>, depot: string, most: nat, ids: seq<Id>) {
    && |ids| <= most
    && (forall i :: 0 <= i < |ids| ==> ids[i] in docs && WaitsFor(docs[ids[i]], depot))
    && (forall i, j :: 0 <= i < j < |ids| ==> DrainsBefore(docs, order, ids[i], ids[j]))
    && (forall id :: id in docs && WaitsFor(docs[id], depot) && id !in ids ==>
          |ids| == most && forall i :: 0 <= i < |ids| ==> DrainsBefore(docs, order, ids[i], id))
  }

  lemma BeforeDrains(docs: Documents, order: seq<Id>, x: Id, y: Id)
    requires x in order && y in order && x in docs && y in docs && Before(docs, order, x, y)
    ensures DrainsBefore(docs, order, x, y)
  {
    if docs[x].updatedAt == docs[y].updatedAt {
      assert order[Position(order, x)] == x && order[Position(order, y)] == y;
    }
  }

  lemma OldestComeFirst(b: Buffer, depot: string, most: nat, ids: seq<Id>)
    requires Valid(b) && IsOldestPending(b, depot, most, ids)
    ensures IsOldestFirst(b.docs, b.order, depot, most, ids)
  {
    forall i | 0 <= i < |ids|
      ensures ids[i] in b.docs && WaitsFor(b.docs[ids[i]], depot) && ids[i] in b.order
    {
      assert ids[i] in Elements(ids);
      assert ids[i] in Elements(b.order);
    }
    forall i, j | 0 <= i < j < |ids|
      ensures DrainsBefore(b.docs, b.order, ids[i], ids[j])
    {
      BeforeDrains(b.docs, b.order, ids[i], ids[j]);
    }
    forall id | id in b.docs && WaitsFor(b.docs[id], depot) && id !in ids
      ensures |ids| == most && forall i :: 0 <= i < |ids| ==> DrainsBefore(b.docs, b.order, ids[i], id)
    {
      assert id in PendingIds(b.docs, depot) && id in Elements(b.order);
      forall i | 0 <= i < |ids|
        ensures DrainsBefore(b.docs, b.order, ids[i], id)
      {
        BeforeDrains(b.docs, b.order, ids[i], id);
      }
    }
  }

  lemma ClaimedAreClaims(docs: Documents, ids: seq<Id>, stamp: int)
    ensures forall id :: id in docs ==>
      var after := ClaimedDocs(docs, Elements(ids), stamp);
      && id in after
      && (id !in ids ==> after[id] == docs[id])
      && (id in ids ==> IsClaimOf(after[id], docs[id], stamp))
  {
  }

  lemma {:induction false} MatchingStored(docs: Documents, order: seq<Id>, status: string)
    requires forall id :: id in order ==> id in docs && docs[id].id == id
    ensures var m := Matching(docs, order, status);
            && (forall i :: 0 <= i < |m| ==>
                  m[i].id in order && m[i].id in docs && docs[m[i].id] == m[i] && HasStatus(m[i].status, status))
            && (forall id :: id in order && HasStatus(docs[id].status, status) ==> docs[id] in m)
  {
    if order == [] {
    } else {
      MatchingStored(docs, order[1..], status);
    }
  }

  lemma {:induction false} MatchingInOrder(docs: Documents, order: seq<Id>, status: string, i: nat, j: nat)
    requires forall id :: id in order ==> id in docs && docs[id].id == id
    requires i < j < |Matching(docs, order, status)|
    ensures var m := Matching(docs, order, status);
            Precedes(order, m[i].id, m[j].id)
  {
    var m, rest := Matching(docs, order, status), Matching(docs, order[1..], status);
    if !Shows(status, docs[order[0]].status) {
      MatchingInOrder(docs, order[1..], status, i, j);
      PrecedesLater(order, m[i].id, m[j].id);
    } else if i > 0 {
      MatchingInOrder(docs, order[1..], status, i - 1, j - 1);
      PrecedesLater(order, m[i].id, m[j].id);
    } else {
      MatchingStored(docs, order[1..], status);
      assert rest[j - 1].id in order[1..];
      var q :| 0 <= q < |order[1..]| && order[1..][q] == rest[j - 1].id;
      assert order[q + 1] == m[j].id && order[0] == m[0].id;
    }
  }

  lemma PrecedesLater(order: seq<Id>, x: Id, y: Id)
    requires order != [] && Precedes(order[1..], x, y)
    ensures Precedes(order, x, y)
  {
    var p, q :| 0 <= p < q < |order[1..]| && order[1..][p] == x && order[1..][q] == y;
    assert order[p + 1] == x && order[q + 1] == y;
  }

  lemma ListedNewestFirst(b: Buffer, status: string, most: nat, out: seq<Document>)
    requires Valid(b) && forall id :: id in b.order ==> id in b.docs
    requires out == Shown(Reversed(Matching(b.docs, b.order, status)), most)
    ensures IsNewestFirst(b.docs, b.order, status, most, out)
  {
    var m := Matching(b.docs, b.order, status);
    MatchingStored(b.docs, b.order, status);
    forall i, j | 0 <= i < j < |m|
      ensures Precedes(b.order, m[i].id, m[j].id)
    {
      MatchingInOrder(b.docs, b.order, status, i, j);
    }
    ReversedAll(m);
    assert forall id :: id in b.docs ==> id in Elements(b.order);
    LastNewestFirst(b.docs, b.order, status, most, m, out);
  }

  lemma LastNewestFirst(docs: Documents, order: seq<Id>, status: string, most: nat, m: seq<Document>,
                        out: seq<Document>)
    requires forall i :: 0 <= i < |m| ==> m[i].id in docs && docs[m[i].id] == m[i] && HasStatus(m[i].status, status)
    requires forall i, j :: 0 <= i < j < |m| ==> Precedes(order, m[i].id, m[j].id)
    requires forall id :: id in docs && HasStatus(docs[id].status, status) ==> docs[id] in m && docs[id].id == id
    requires |out| == (if |m| <= most then |m| else most)
    requires forall i :: 0 <= i < |out| ==> out[i] == m[|m| - 1 - i]
    ensures IsNewestFirst(docs, order, status, most, out)
  {
    forall id | id in docs && HasStatus(docs[id].status, status) && docs[id] !in out
      ensures |out| == most && forall i :: 0 <= i < |out| ==> Precedes(order, id, out[i].id)
    {
      var k :| 0 <= k < |m| && m[k] == docs[id];
      LastIsShown(m, out, k);
    }
  }

  lemma LastIsShown(m: seq<Document>, out: seq<Document>, k: nat)
    requires |out| <= |m| && k < |m| && forall i :: 0 <= i < |out| ==> out[i] == m[|m| - 1 - i]
    ensures |m| - 1 - k < |out| ==> m[k] in out
  {
    if |m| - 1 - k < |out| {
      assert out[|m| - 1 - k] == m[k];
    }
  }

  lemma ReversedAll<T>(s: seq<T>)
    ensures |Reversed(s)| == |s|
    ensures forall i :: 0 <= i < |s| ==> Reversed(s)[i] == s[|s| - 1 - i]
  {
    if s != [] {
      ReversedAt(s, 0);
    }
    forall i | 0 <= i < |s|
      ensures Reversed(s)[i] == s[|s| - 1 - i]
    {
      ReversedAt(s, i);
    }
  }

  lemma {:induction false} ReversedAt<T>(s: seq<T>, i: nat)
    requires i < |s|
    ensures |Reversed(s)| == |s| && Reversed(s)[i] == s[|s| - 1 - i]
  {
    if |s| == 1 {
    } else {
      ReversedAt(s[1..], if i < |s| - 1 then i else 0);
    }
  }

  // out is what a scan of the given ids takes, and the buffer differs from `was` by exactly that.
  ghost predicate TakenSoFar(was: Documents, docs: Documents, out: seq<Document>, scanned: seq<Id>,
                             depot: string, most: nat, stamp: int)
  {
    && IdsOf(out) == Scan(was, scanned, depot, most)
    && docs == ClaimedDocs(was, Elements(IdsOf(out)), stamp)
    && (forall k :: 0 <= k < |out| ==> out[k].id in was && out[k] == ClaimedDoc(was[out[k].id], stamp))
  }

  // The next id is still as it was; passing it over changes nothing if it is not claimable.
  lemma NotTakenYet(was: Documents, docs: Documents, out: seq<Document>, sorted: seq<Id>, i: nat,
                    depot: string, most: nat, stamp: int)
    requires i < |sorted| && TakenSoFar(was, docs, out, sorted[..i], depot, most, stamp)
    requires sorted[i] !in sorted[..i] && sorted[i] in was
    ensures sorted[i] !in IdsOf(out) && sorted[i] in docs && docs[sorted[i]] == was[sorted[i]]
    ensures !Claimable(was, depot, sorted[i]) ==> TakenSoFar(was, docs, out, sorted[..i + 1], depot, most, stamp)
  {
    assert sorted[..i + 1][..i] == sorted[..i];
    ScanPicks(was, sorted[..i], depot, most);
  }

  lemma TakeOneMore(was: Documents, docs: Documents, out: seq<Document>, sorted: seq<Id>, next: nat,
                    depot: string, most: nat, stamp: int)
    requires 0 < next <= |sorted| && |out| < most
    requires TakenSoFar(was, docs, out, sorted[..next - 1], depot, most, stamp)
    requires sorted[next - 1] !in IdsOf(out) && sorted[next - 1] in was && was[sorted[next - 1]].id == sorted[next - 1]
    requires Claimable(was, depot, sorted[next - 1])
    ensures var d := ClaimedDoc(was[sorted[next - 1]], stamp);
            TakenSoFar(was, docs[sorted[next - 1] := d], out + [d], sorted[..next], depot, most, stamp)
  {
    var id, d := sorted[next - 1], ClaimedDoc(was[sorted[next - 1]], stamp);
    assert sorted[..next][..next - 1] == sorted[..next - 1];
    ClaimOneMore(was, IdsOf(out), id, stamp);
    assert IdsOf(out + [d]) == IdsOf(out) + [id];
  }

  function IdsOf(ds: seq<Document>): (ids: seq<Id>)
    ensures |ids| == |ds|
    ensures forall i :: 0 <= i < |ds| ==> ids[i] == ds[i].id
  {
    seq(|ds|, i requires 0 <= i < |ds| => ds[i].id)
  }

  // The documents of order that pass the status filter, oldest first.
  function Matching(docs: Documents, order: seq<Id>, status: string): seq<Document>
    requires forall id :: id in order ==> id in docs
  {
    if order == [] then []
    else
      var d := docs[order[0]];
      var rest := Matching(docs, order[1..], status);
      if Shows(status, d.status) then [d] + rest else rest
  }

  function Shown(all: seq<Document>, most: nat): seq<Document> {
    if |all| <= most then all else all[..most]
  }

  function Reversed<T>(s: seq<T>): seq<T> {
    if s == [] then [] else Reversed(s[1..]) + [s[0]]
  }

  lemma CountOneMore(seen: Documents, depot: string, id: Id, d: Document)
    requires id !in seen
    ensures StatusCounts(seen[id := d], depot) ==
            if InDepot(depot, d.capture) then Incremented(StatusCounts(seen, depot), d.status)
            else StatusCounts(seen, depot)
  {
    StatusOneMore(seen, depot, id, d, Buffered);
    StatusOneMore(seen, depot, id, d, Syncing);
    StatusOneMore(seen, depot, id, d, Synced);
    StatusOneMore(seen, depot, id, d, Failed);
  }

  lemma StatusOneMore(seen: Documents, depot: string, id: Id, d: Document, s: Status)
    requires id !in seen
    ensures |WithStatus(seen[id := d], depot, s)| ==
            |WithStatus(seen, depot, s)| + if InDepot(depot, d.capture) && d.status == s then 1 else 0
  {
    var extra := if InDepot(depot, d.capture) && d.status == s then {id} else {};
    var more := seen[id := d];
    SplitSize(WithStatus(more, depot, s), WithStatus(seen, depot, s), extra);
  }

  // What has been listed after scanning order[i..] is a prefix of the full listing.
  lemma ListingPrefix(docs: Documents, order: seq<Id>, status: string, i: nat)
    requires i <= |order| && forall id :: id in order ==> id in docs
    ensures Reversed(Matching(docs, order[i..], status)) <= Reversed(Matching(docs, order, status))
    ensures i == 0 ==> Reversed(Matching(docs, order[i..], status)) == Reversed(Matching(docs, order, status))
  {
    assert order == order[..i] + order[i..];
    MatchingConcat(docs, order[..i], order[i..], status);
    ReversedConcat(Matching(docs, order[..i], status), Matching(docs, order[i..], status));
  }

  lemma {:induction false} MatchingConcat(docs: Documents, front: seq<Id>, back: seq<Id>, status: string)
    requires forall id :: id in front + back ==> id in docs
    ensures forall id :: id in front ==> id in docs
    ensures forall id :: id in back ==> id in docs
    ensures Matching(docs, front + back, status) == Matching(docs, front, status) + Matching(docs, back, status)
  {
    assert forall id :: id in front || id in back ==> id in front + back;
    if front == [] {
      assert front + back == back;
    } else {
      assert (front + back)[1..] == front[1..] + back && (front + back)[0] == front[0];
      MatchingConcat(docs, front[1..], back, status);
      var d, later, last := docs[front[0]], Matching(docs, front[1..], status), Matching(docs, back, status);
      assert [d] + (later + last) == ([d] + later) + last;
    }
  }

  lemma {:induction false} ReversedConcat<T>(front: seq<T>, back: seq<T>)
    ensures Reversed(front + back) == Reversed(back) + Reversed(front)
  {
    if front == [] {
      assert front + back == back;
    } else {
      assert (front + back)[1..] == front[1..] + back;
      ReversedConcat(front[1..], back);
    }
  }

  lemma ValidIndexed(b: Buffer)
    requires Valid(b)
    ensures Indexed(b.order)
    ensures forall k :: 0 <= k < |b.order| ==> b.order[k] in b.docs
  {
    forall k | 0 <= k < |b.order|
      ensures b.order[k] in b.docs
    {
      assert b.order[k] in Elements(b.order);
    }
  }

  lemma SortedBuffer(b: Buffer, sorted: seq<Id>)
    requires Valid(b) && SortedBy(b.docs, b.order, sorted) && multiset(sorted) == multiset(b.order)
    ensures Elements(sorted) == Elements(b.order)
    ensures forall k :: 0 <= k < |sorted| ==>
      && sorted[k] in b.docs && b.docs[sorted[k]].id == sorted[k] && sorted[k] !in sorted[..k]
  {
    SortedCovers(sorted, b.order);
    forall k | 0 <= k < |sorted|
      ensures sorted[k] !in sorted[..k]
    {
      NotYetScanned(b.docs, b.order, sorted, k);
    }
  }

  lemma ClaimKeepsValid(b: Buffer, ids: set<Id>, stamp: int)
    requires Valid(b)
    ensures Valid(WithClaimed(b, ids, stamp))
  {
    KeptValid(b, WithClaimed(b, ids, stamp));
  }

  // Changing documents in place, captures apart, keeps the representation invariant.
  lemma KeptValid(b: Buffer, after: Buffer)
    requires after.order == b.order && after.docs.Keys == b.docs.Keys
    requires forall id :: id in b.docs ==>
      after.docs[id].capture == b.docs[id].capture && after.docs[id].id == b.docs[id].id
    ensures Valid(b) ==> Valid(after)
  {
    if Valid(b) {
      SameCapturesStayUnique(b.docs, after.docs);
    }
  }

  lemma SortedCovers(sorted: seq<Id>, order: seq<Id>)
    requires multiset(sorted) == multiset(order)
    ensures forall x :: x in sorted <==> x in order
    ensures |sorted| == |order|
  {
    assert forall x :: x in sorted <==> x in multiset(sorted);
    assert forall x :: x in order <==> x in multiset(order);
    assert |multiset(sorted)| == |sorted|;
  }

  // Every element is found at its own index, so the order has no repetition.
  ghost predicate Indexed(order: seq<Id>) {
    forall p :: 0 <= p < |order| ==> Position(order, order[p]) == p
  }

  /** Stable sort by UpdatedAt, in place. */
  method SortStable(ids: array<Id>, docs: Documents)
    requires Indexed(ids[..])
    requires forall k :: 0 <= k < ids.Length ==> ids[k] in docs
    modifies ids
    ensures multiset(ids[..]) == multiset(old(ids[..]))
    ensures SortedBy(docs, old(ids[..]), ids[..])
  {
    ghost var order := ids[..];
    var i := 0;
    while i < ids.Length
      invariant 0 <= i <= ids.Length
      invariant ids[i..] == order[i..]
      invariant multiset(ids[..i]) == multiset(order[..i]) && SortedBy(docs, order, ids[..i])
    {
      Sift(ids, i, docs, order);
      i := i + 1;
    }
    assert ids[..i] == ids[..] && order[..i] == order;
  }

  // Moves the element at position i left past every strictly later one.
  method Sift(ids: array<Id>, i: nat, docs: Documents, ghost order: seq<Id>)
    requires i < ids.Length == |order| && Indexed(order)
    requires forall k :: 0 <= k < |order| ==> order[k] in docs
    requires ids[i..] == order[i..]
    requires multiset(ids[..i]) == multiset(order[..i]) && SortedBy(docs, order, ids[..i])
    modifies ids
    ensures ids[i + 1..] == order[i + 1..]
    ensures multiset(ids[..i + 1]) == multiset(order[..i + 1]) && SortedBy(docs, order, ids[..i + 1])
  {
    ghost var t := ids[..i];
    assert ids[i] == ids[i..][0] == order[i];
    assert forall k :: 0 <= k < i ==> ids[k] == t[k];
    var j := Shift(ids, i, docs);
    assert ids[i + 1..] == order[i..][1..];
    InsertStep(docs, order, t, i, j);
    assert ids[..i + 1] == t[..j] + [order[i]] + t[j..];
  }

  method Shift(ids: array<Id>, i: nat, docs: Documents) returns (j: nat)
    requires i < ids.Length
    requires forall a :: 0 <= a <= i ==> ids[a] in docs
    modifies ids
    ensures j <= i
    ensures ids[..i + 1] == old(ids[..j] + [ids[i]] + ids[j..i])
    ensures ids[i + 1..] == old(ids[i + 1..])
    ensures forall b :: j <= b < i ==> docs[old(ids[i])].updatedAt < docs[old(ids[b])].updatedAt
    ensures j > 0 ==> docs[old(ids[j - 1])].updatedAt <= docs[old(ids[i])].updatedAt
  {
    j := i;
    while j > 0 && docs[ids[j]].updatedAt < docs[ids[j - 1]].updatedAt
      invariant 0 <= j <= i && ids[j] == old(ids[i])
      invariant forall a :: 0 <= a < j ==> ids[a] == old(ids[a])
      invariant forall a :: j < a <= i ==> ids[a] == old(ids[a - 1])
      invariant forall a :: i < a < ids.Length ==> ids[a] == old(ids[a])
      invariant forall b :: j <= b < i ==> docs[old(ids[i])].updatedAt < docs[old(ids[b])].updatedAt
    {
      ids[j], ids[j - 1] := ids[j - 1], ids[j];
      j := j - 1;
    }
  }

  lemma InsertStep(docs: Documents, order: seq<Id>, t: seq<Id>, i: nat, j: nat)
    requires i < |order| && Indexed(order) && order[i] in docs
    requires j <= i == |t| && SortedBy(docs, order, t) && multiset(t) == multiset(order[..i])
    requires forall b :: j <= b < i ==> docs[order[i]].updatedAt < docs[t[b]].updatedAt
    requires j > 0 ==> docs[t[j - 1]].updatedAt <= docs[order[i]].updatedAt
    ensures SortedBy(docs, order, t[..j] + [order[i]] + t[j..])
    ensures multiset(t[..j] + [order[i]] + t[j..]) == multiset(order[..i + 1])
  {
    InsertedMultiset(t, order, i, j);
    EarlierPositions(t, order, i);
    InsertedSorted(docs, order, t, i, j);
  }

  lemma InsertedMultiset(t: seq<Id>, order: seq<Id>, i: nat, j: nat)
    requires j <= |t| && i < |order| && multiset(t) == multiset(order[..i])
    ensures multiset(t[..j] + [order[i]] + t[j..]) == multiset(order[..i + 1])
  {
    assert t == t[..j] + t[j..];
    assert order[..i + 1] == order[..i] + [order[i]];
  }

  // Putting order[i] at position j of the sorted elements before it keeps them sorted.
  lemma InsertedSorted(docs: Documents, order: seq<Id>, t: seq<Id>, i: nat, j: nat)
    requires i < |order| && order[i] in docs && Position(order, order[i]) == i
    requires j <= i == |t| && SortedBy(docs, order, t)
    requires forall a :: 0 <= a < |t| ==> t[a] in order && Position(order, t[a]) < i
    requires forall b :: j <= b < i ==> docs[order[i]].updatedAt < docs[t[b]].updatedAt
    requires j > 0 ==> docs[t[j - 1]].updatedAt <= docs[order[i]].updatedAt
    ensures SortedBy(docs, order, t[..j] + [order[i]] + t[j..])
  {
    var x, s := order[i], t[..j] + [order[i]] + t[j..];
    forall a | 0 <= a < j
      ensures Before(docs, order, t[a], x)
    {
      if a < j - 1 {
        assert Before(docs, order, t[a], t[j - 1]);
      }
    }
    assert forall a :: 0 <= a < j ==> s[a] == t[a];
    assert s[j] == x;
    assert forall a :: j < a < |s| ==> s[a] == t[a - 1];
    forall a, b | 0 <= a < b < |s|
      ensures Before(docs, order, s[a], s[b])
    {
      PairInserted(docs, order, t, x, j, s, a, b);
    }
  }

  lemma PairInserted(docs: Documents, order: seq<Id>, t: seq<Id>, x: Id, j: nat, s: seq<Id>, a: nat, b: nat)
    requires SortedBy(docs, order, t) && x in order && x in docs
    requires j <= |t| && |s| == |t| + 1 && a < b < |s|
    requires a < j ==> s[a] == t[a] && Before(docs, order, t[a], x)
    requires b < j ==> s[b] == t[b]
    requires a == j ==> s[a] == x
    requires b == j ==> s[b] == x
    requires a > j ==> s[a] == t[a - 1]
    requires b > j ==> s[b] == t[b - 1] && (t[b - 1] in docs ==> docs[x].updatedAt < docs[t[b - 1]].updatedAt)
    ensures s[a] in order && s[b] in order && s[a] in docs && s[b] in docs && Before(docs, order, s[a], s[b])
  {
  }

  lemma ClaimOneMore(docs: Documents, ids: seq<Id>, id: Id, stamp: int)
    requires id in docs && id !in ids
    ensures ClaimedDocs(docs, Elements(ids + [id]), stamp)
         == ClaimedDocs(docs, Elements(ids), stamp)[id := ClaimedDoc(docs[id], stamp)]
  {
    assert Elements(ids + [id]) == Elements(ids) + {id};
  }

  // In a sorted sequence the element at i does not occur earlier.
  lemma NotYetScanned(docs: Documents, order: seq<Id>, sorted: seq<Id>, i: nat)
    requires i < |sorted| && SortedBy(docs, order, sorted)
    ensures sorted[i] !in sorted[..i]
  {
    assert forall k :: 0 <= k < i ==> Before(docs, order, sorted[k], sorted[i]);
  }

  lemma EarlierPositions(s: seq<Id>, order: seq<Id>, i: nat)
    requires i <= |order| && Indexed(order) && multiset(s) == multiset(order[..i])
    ensures forall a :: 0 <= a < |s| ==> s[a] in order && Position(order, s[a]) < i
  {
    forall a | 0 <= a < |s|
      ensures s[a] in order && Position(order, s[a]) < i
    {
      assert s[a] in multiset(s);
      assert s[a] in order[..i];
      var p :| 0 <= p < i && order[p] == s[a];
    }
  }
}
