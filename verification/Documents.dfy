/** The captured document, its lifecycle, and what is posted upstream for it. */
module Documents {

  datatype Option<+T> = None | Some(value: T)

  datatype Result<+T> = Ok(value: T) | Err(error: string)

  // A UUID; only equality matters.
  type Id = nat

  datatype Status = Buffered | Syncing | Synced | Failed

  function StatusText(s: Status): string {
    match s
    case Buffered => "buffered"
    case Syncing => "syncing"
    case Synced => "synced"
    case Failed => "failed"
  }

  // What was captured at the depot. No store operation ever writes these again.
  // Instants and durations are counts of nanoseconds.
  datatype Capture = Capture(
    depotId: string,
    docType: string,
    reference: string,
    outletId: string,
    payload: string,
    capturedBy: string,
    createdAt: int
  )

  datatype Document = Document(
    id: Id,
    capture: Capture,
    status: Status,
    syncAttempts: nat,
    lastError: string,
    upstreamId: string,
    updatedAt: int,
    syncedAt: Option<int>
  )

  datatype SyncState = SyncState(lastSyncAt: Option<int>, lastSyncOK: bool, lastError: string)

  // The answer of a store's Stats.
  datatype SyncStats = SyncStats(counts: Counts, last: SyncState)

  const NEVER_SYNCED := SyncState(None, false, "")

  // What is recorded of a depot's last sweep.
  function StateIn(recorded: map<string, SyncState>, depot: string): SyncState {
    if depot in recorded then recorded[depot] else NEVER_SYNCED
  }

  // The part of a capture the caller supplies, completed by the store.
  function Stamped(c: Capture, now: int): Capture {
    c.(createdAt := now, payload := if c.payload == "" then "{}" else c.payload)
  }

  // stored is what was asked for, taken in at `at`; an empty payload is the empty object.
  predicate CarriesRequest(stored: Capture, asked: Capture, at: int) {
    && stored.depotId == asked.depotId && stored.docType == asked.docType && stored.reference == asked.reference
    && stored.outletId == asked.outletId && stored.capturedBy == asked.capturedBy
    && (asked.payload != "" ==> stored.payload == asked.payload)
    && (asked.payload == "" ==> stored.payload == "{}")
    && stored.createdAt == at
  }

  function NewDocument(id: Id, c: Capture, now: int): Document {
    Document(id, Stamped(c, now), Buffered, 0, "", "", now, None)
  }

  predicate SameTriple(a: Capture, b: Capture) {
    a.depotId == b.depotId && a.docType == b.docType && a.reference == b.reference
  }

  predicate InDepot(depot: string, c: Capture) {
    depot == "" || c.depotId == depot
  }

  // A listing's filter; the empty one shows everything.
  predicate Shows(filter: string, s: Status) {
    filter == "" || StatusText(s) == filter
  }

  // The same filter, text by text.
  predicate HasStatus(s: Status, filter: string) {
    || filter == ""
    || (filter == "buffered" && s == Buffered) || (filter == "syncing" && s == Syncing)
    || (filter == "synced" && s == Synced) || (filter == "failed" && s == Failed)
  }

  function ListingLimit(limit: int): nat {
    if 0 < limit <= 500 then limit else 100
  }

  predicate Pending(d: Document) {
    d.status == Buffered || d.status == Failed
  }

  type Documents = map<Id, Document>

  // Two documents with one non-empty reference triple.
  predicate Clash(docs: Documents, x: Id, y: Id) {
    x in docs && y in docs && x != y && docs[x].capture.reference != "" && SameTriple(docs[x].capture, docs[y].capture)
  }

  ghost predicate UniqueReferences(docs: Documents) {
    forall x, y :: !Clash(docs, x, y)
  }

  lemma SameCapturesStayUnique(before: Documents, after: Documents)
    requires UniqueReferences(before)
    requires forall id :: id in after ==> id in before && after[id].capture == before[id].capture
    ensures UniqueReferences(after)
  {
    forall x, y
      ensures !Clash(after, x, y)
    {
      assert !Clash(before, x, y);
    }
  }

  // Adding a document keeps triples unique when no other document has its non-empty triple.
  lemma AddedStaysUnique(docs: Documents, id: Id, d: Document)
    requires UniqueReferences(docs)
    requires d.capture.reference == "" || forall k :: k in docs && k != id ==> !SameTriple(docs[k].capture, d.capture)
    ensures UniqueReferences(docs[id := d])
  {
    var more := docs[id := d];
    forall x, y
      ensures !Clash(more, x, y)
    {
      assert !Clash(docs, x, y);
    }
  }

  ghost function HolderOf(docs: Documents, c: Capture): (id: Id)
    requires exists id :: id in docs && SameTriple(docs[id].capture, c)
    ensures id in docs && SameTriple(docs[id].capture, c)
  {
    var id :| id in docs && SameTriple(docs[id].capture, c);
    id
  }

  lemma OneHolder(docs: Documents, x: Id, y: Id)
    requires UniqueReferences(docs) && x in docs && y in docs
    requires docs[x].capture.reference != "" && SameTriple(docs[x].capture, docs[y].capture)
    ensures x == y
  {
    assert !Clash(docs, x, y);
  }

  function WithStatus(docs: Documents, depot: string, s: Status): set<Id> {
    set id | id in docs && InDepot(depot, docs[id].capture) && docs[id].status == s
  }

  function PendingIds(docs: Documents, depot: string): set<Id> {
    set id | id in docs && InDepot(depot, docs[id].capture) && Pending(docs[id])
  }

  function DepotIds(docs: Documents, depot: string): set<Id> {
    set id | id in docs && InDepot(depot, docs[id].capture)
  }

  datatype Counts = Counts(buffered: nat, syncing: nat, synced: nat, failed: nat)

  function CountOf(c: Counts, s: Status): nat {
    match s
    case Buffered => c.buffered
    case Syncing => c.syncing
    case Synced => c.synced
    case Failed => c.failed
  }

  function Incremented(c: Counts, s: Status): Counts {
    match s
    case Buffered => c.(buffered := c.buffered + 1)
    case Syncing => c.(syncing := c.syncing + 1)
    case Synced => c.(synced := c.synced + 1)
    case Failed => c.(failed := c.failed + 1)
  }

  // How many documents of the depot are in each status.
  function StatusCounts(docs: Documents, depot: string): Counts {
    Counts(|WithStatus(docs, depot, Buffered)|, |WithStatus(docs, depot, Syncing)|,
           |WithStatus(docs, depot, Synced)|, |WithStatus(docs, depot, Failed)|)
  }

  // The number of the depot's documents in each status; the empty depot stands for all.
  ghost predicate CountsStatuses(c: Counts, docs: Documents, depot: string) {
    && c.buffered == |set id | id in docs && (depot == "" || docs[id].capture.depotId == depot)
                               && docs[id].status == Buffered|
    && c.syncing == |set id | id in docs && (depot == "" || docs[id].capture.depotId == depot)
                              && docs[id].status == Syncing|
    && c.synced == |set id | id in docs && (depot == "" || docs[id].capture.depotId == depot)
                             && docs[id].status == Synced|
    && c.failed == |set id | id in docs && (depot == "" || docs[id].capture.depotId == depot)
                             && docs[id].status == Failed|
  }

  lemma StatusCountsCount(docs: Documents, depot: string)
    ensures CountsStatuses(StatusCounts(docs, depot), docs, depot)
  {
    SameStatusSet(docs, depot, Buffered);
    SameStatusSet(docs, depot, Syncing);
    SameStatusSet(docs, depot, Synced);
    SameStatusSet(docs, depot, Failed);
  }

  lemma SameStatusSet(docs: Documents, depot: string, s: Status)
    ensures WithStatus(docs, depot, s) ==
            set id | id in docs && (depot == "" || docs[id].capture.depotId == depot) && docs[id].status == s
  {
  }

  // The four counts add up to the depot's documents, and the two pending ones to its backlog.
  lemma CountsPartition(docs: Documents, depot: string)
    ensures var c := StatusCounts(docs, depot);
            && c.buffered + c.syncing + c.synced + c.failed == |DepotIds(docs, depot)|
            && c.buffered + c.failed == |PendingIds(docs, depot)|
  {
    var pending, all := PendingIds(docs, depot), DepotIds(docs, depot);
    SplitSize(pending, WithStatus(docs, depot, Buffered), WithStatus(docs, depot, Failed));
    SplitSize(all - pending, WithStatus(docs, depot, Syncing), WithStatus(docs, depot, Synced));
    SplitSize(all, pending, all - pending);
  }

  lemma SplitSize<T>(whole: set<T>, a: set<T>, b: set<T>)
    requires forall x :: x in whole <==> x in a || x in b
    requires a !! b
    ensures |whole| == |a| + |b|
  {
    assert whole == a + b;
  }

  lemma SubsetSize<T>(a: set<T>, b: set<T>)
    requires a <= b
    ensures |a| <= |b|
  {
    assert b == a + (b - a);
  }

  function EffectiveLimit(limit: int, default: nat): (r: nat)
    requires default > 0
    ensures r > 0
  {
    if limit <= 0 then default else limit
  }

  // The elements of a sequence, in no order.
  function Elements<T>(s: seq<T>): set<T> {
    set x | x in s
  }

  predicate Distinct<T(==)>(s: seq<T>) {
    forall i, j :: 0 <= i < j < |s| ==> s[i] != s[j]
  }

  lemma {:induction false} DistinctSize<T>(s: seq<T>)
    requires Distinct(s)
    ensures |Elements(s)| == |s|
  {
    if s == [] {
    } else {
      var front, last := s[..|s| - 1], s[|s| - 1];
      DistinctSize(front);
      assert s == front + [last];
      assert Elements(s) == Elements(front) + {last};
    }
  }
}

/** Posting one document to the central DMS. */
module Upstream {
  import opened Documents

  datatype IngestRequest = IngestRequest(
    depotId: string,
    docType: string,
    reference: string,
    outletId: Option<string>,
    payload: string,
    capturedBy: Option<string>,
    capturedAt: int
  )

  datatype Post = Post(idempotencyKey: Id, body: IngestRequest)

  // How one request ended: text is the status and the trimmed body, as an error reports them; the id
  // carried by a 2xx answer is an arbitrary string.
  datatype Reply =
    | NotSent(error: string)
    | NoAnswer(error: string)
    | Answer(code: int, text: string, assignedId: string)

  function OmitEmpty(s: string): Option<string> {
    if s == "" then None else Some(s)
  }

  function RequestFor(d: Document): Post {
    var c := d.capture;
    Post(d.id, IngestRequest(c.depotId, c.docType, c.reference, OmitEmpty(c.outletId),
                             c.payload, OmitEmpty(c.capturedBy), c.createdAt))
  }

  function Outcome(reply: Reply): Result<string> {
    match reply
    case NotSent(e) => Err(e)
    case NoAnswer(e) => Err(e)
    case Answer(code, text, assignedId) =>
      if 200 <= code < 300 then Ok(assignedId) else Err("upstream: " + text)
  }

  predicate Is2xx(reply: Reply) {
    reply.Answer? && 200 <= reply.code < 300
  }

  // The error a request that got no 2xx answer is recorded with.
  predicate Reports(error: string, reply: Reply) {
    match reply
    case NotSent(e) => error == e
    case NoAnswer(e) => error == e
    case Answer(code, text, assignedId) => error == "upstream: " + text
  }

  // The document `before` once the answer to its request is recorded at `now`: synced under the id
  // the central DMS assigned exactly after a 2xx answer, and failed with the error otherwise.
  predicate CarriesAnswer(after: Document, before: Document, reply: Reply, now: int, retryAt: int) {
    && after.id == before.id && after.capture == before.capture && after.syncAttempts == before.syncAttempts
    && if reply.Answer? && 200 <= reply.code < 300 then
         && after.status == Synced && after.upstreamId == reply.assignedId && after.lastError == ""
         && after.syncedAt == Some(now) && after.updatedAt == now
       else
         && after.status == Failed && Reports(after.lastError, reply)
         && after.upstreamId == before.upstreamId && after.syncedAt == before.syncedAt && after.updatedAt == retryAt
  }

  function OrEmpty(s: Option<string>): string {
    if s.Some? then s.value else ""
  }

  // What the receiver of a request reads from it.
  function CaptureIn(p: Post): Capture {
    var b := p.body;
    Capture(b.depotId, b.docType, b.reference, OrEmpty(b.outletId), b.payload, OrEmpty(b.capturedBy), b.capturedAt)
  }

  /** The central DMS receives exactly what was captured, under the document's id. */
  lemma RequestRoundTrip(d: Document)
    ensures CaptureIn(RequestFor(d)) == d.capture && RequestFor(d).idempotencyKey == d.id
  {
  }

  // Leaving out empty fields loses nothing: the request determines the document's
  // identity and capture, and depends on nothing else.
  lemma RequestDeterminesCapture(a: Document, b: Document)
    ensures RequestFor(a) == RequestFor(b) <==> a.id == b.id && a.capture == b.capture
  {
    var x, y := a.capture, b.capture;
    assert OmitEmpty(x.outletId) == OmitEmpty(y.outletId) <==> x.outletId == y.outletId;
    assert OmitEmpty(x.capturedBy) == OmitEmpty(y.capturedBy) <==> x.capturedBy == y.capturedBy;
  }
}
