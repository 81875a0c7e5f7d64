/** The depot_documents table. Each SQL statement is one atomic function of the table. */
module DocumentTable {
  import opened Backoff
  import opened Documents

  datatype Row = Row(doc: Document, availableAt: int)

  type Table = map<Id, Row>

  // Primary key and partial unique index on (depot, type, reference).
  ghost predicate Consistent(t: Table) {
    && (forall id :: id in t ==> t[id].doc.id == id)
    && UniqueReferences(Docs(t))
  }

  function NewRow(id: Id, c: Capture, now: int): Row {
    Row(NewDocument(id, c, now), now)
  }

  predicate Taken(t: Table, c: Capture) {
    c.reference != "" && exists id :: id in t && SameTriple(t[id].doc.capture, c)
  }

  datatype InsertTag = OneRow | NoRow | DuplicateKey

  function InsertTagFor(t: Table, id: Id, c: Capture): InsertTag {
    if Taken(t, c) then NoRow else if id in t then DuplicateKey else OneRow
  }

  function Insert(t: Table, id: Id, c: Capture, now: int): Table {
    if InsertTagFor(t, id, c) == OneRow then t[id := NewRow(id, c, now)] else t
  }

  // What a lookup by reference may return.
  ghost predicate FoundByReference(t: Table, c: Capture, found: Option<Id>) {
    match found
    case Some(id) => id in t && SameTriple(t[id].doc.capture, c)
    case None => forall id :: id in t ==> !SameTriple(t[id].doc.capture, c)
  }

  predicate Eligible(r: Row, depot: string, now: int) {
    Pending(r.doc) && r.availableAt <= now && InDepot(depot, r.doc.capture)
  }

  function EligibleIds(t: Table, locked: set<Id>, depot: string, now: int): set<Id> {
    set id | id in t && id !in locked && Eligible(t[id], depot, now)
  }

  // ORDER BY available_at FOR UPDATE SKIP LOCKED LIMIT limit: any choice among equal
  // instants is legal, so this is a relation.
  ghost predicate IsSelection(t: Table, locked: set<Id>, depot: string, limit: nat, now: int, chosen: set<Id>) {
    var all := EligibleIds(t, locked, depot, now);
    && chosen <= all
    && |chosen| <= limit
    && (chosen != all ==> |chosen| == limit)
    && forall c, e :: c in chosen && e in all && e !in chosen ==> t[c].availableAt <= t[e].availableAt
  }

  function ClaimedDoc(d: Document, stamp: int): Document {
    d.(status := Syncing, syncAttempts := d.syncAttempts + 1, updatedAt := stamp)
  }

  // d is the document `before`, taken by a claim.
  predicate IsClaimOf(d: Document, before: Document, stamp: int) {
    && d.id == before.id && d.capture == before.capture && d.status == Syncing
    && d.syncAttempts == before.syncAttempts + 1 && d.lastError == before.lastError
    && d.upstreamId == before.upstreamId && d.syncedAt == before.syncedAt && d.updatedAt == stamp
  }

  function ClaimedRow(r: Row, now: int, lease: int): Row {
    Row(ClaimedDoc(r.doc, now), now + Interval(lease))
  }

  function Claim(t: Table, chosen: set<Id>, now: int, lease: int): Table {
    map id | id in t :: if id in chosen then ClaimedRow(t[id], now, lease) else t[id]
  }

  function SyncedDoc(d: Document, upstreamId: string, now: int): Document {
    d.(status := Synced, upstreamId := upstreamId, lastError := "", syncedAt := Some(now), updatedAt := now)
  }

  function FailedDoc(d: Document, error: string, stamp: int): Document {
    d.(status := Failed, lastError := error, updatedAt := stamp)
  }

  function ResetDoc(d: Document, now: int): Document {
    d.(status := Buffered, lastError := "", updatedAt := now)
  }

  function MarkedSynced(t: Table, id: Id, upstreamId: string, now: int): Table {
    if id in t then t[id := t[id].(doc := SyncedDoc(t[id].doc, upstreamId, now))] else t
  }

  function MarkedFailed(t: Table, id: Id, error: string, delay: int, now: int): Table {
    if id in t then t[id := Row(FailedDoc(t[id].doc, error, now), now + Interval(delay))] else t
  }

  function Requeued(t: Table, id: Id, now: int): Table {
    if id in t then t[id := Row(ResetDoc(t[id].doc, now), now)] else t
  }

  function Docs(t: Table): Documents {
    map id | id in t :: t[id].doc
  }

  lemma TakenInDocs(t: Table, c: Capture)
    requires Taken(t, c)
    ensures exists id :: id in Docs(t) && SameTriple(Docs(t)[id].capture, c)
  {
    var id :| id in t && SameTriple(t[id].doc.capture, c);
    assert id in Docs(t);
  }

  // The rows a listing shows: all, or those in one status.
  function ListedIds(docs: Documents, status: string): set<Id> {
    set id | id in docs && Shows(status, docs[id].status)
  }

  // SELECT ... WHERE status ORDER BY created_at DESC LIMIT: equal instants come in any order.
  ghost predicate IsListing(docs: Documents, status: string, limit: nat, out: seq<Id>) {
    var all := ListedIds(docs, status);
    && (forall i :: 0 <= i < |out| ==> out[i] in all)
    && Distinct(out)
    && |out| == (if |all| < limit then |all| else limit)
    && (forall i, j :: 0 <= i < j < |out| ==> docs[out[i]].capture.createdAt >= docs[out[j]].capture.createdAt)
    && (forall i, e :: 0 <= i < |out| && e in all && e !in out ==>
          docs[e].capture.createdAt <= docs[out[i]].capture.createdAt)
  }

  // The result of GROUP BY status: one entry for each status that occurs.
  ghost predicate IsGrouping(t: Table, depot: string, groups: seq<(Status, nat)>) {
    && (forall i :: 0 <= i < |groups| ==> groups[i].1 == |WithStatus(Docs(t), depot, groups[i].0)| > 0)
    && (forall i, j :: 0 <= i < j < |groups| ==> groups[i].0 != groups[j].0)
    && (forall s :: WithStatus(Docs(t), depot, s) != {} ==> exists i :: 0 <= i < |groups| && groups[i].0 == s)
  }

  /** The database always has a legal choice, so a claim never blocks. */
  lemma {:induction false} SelectionExists(t: Table, locked: set<Id>, depot: string, limit: nat, now: int)
    ensures exists chosen :: IsSelection(t, locked, depot, limit, now, chosen)
  {
    if limit == 0 {
      assert IsSelection(t, locked, depot, 0, now, {});
    } else {
      SelectionExists(t, locked, depot, limit - 1, now);
      var chosen :| IsSelection(t, locked, depot, limit - 1, now, chosen);
      var more := OneMoreSelected(t, locked, depot, limit, now, chosen);
    }
  }

  lemma OneMoreSelected(t: Table, locked: set<Id>, depot: string, limit: nat, now: int, chosen: set<Id>)
    returns (more: set<Id>)
    requires limit > 0 && IsSelection(t, locked, depot, limit - 1, now, chosen)
    ensures IsSelection(t, locked, depot, limit, now, more)
  {
    var all := EligibleIds(t, locked, depot, now);
    var rest := all - chosen;
    if rest == {} {
      assert all == chosen;
      more := chosen;
    } else {
      var next := Earliest(t, rest);
      more := chosen + {next};
      SplitSize(more, chosen, {next});
      forall c, e | c in more && e in all && e !in more
        ensures t[c].availableAt <= t[e].availableAt
      {
        assert e in rest;
      }
    }
  }

  lemma {:induction false} Earliest(t: Table, ids: set<Id>) returns (first: Id)
    requires ids != {} && forall id :: id in ids ==> id in t
    ensures first in ids
    ensures forall id :: id in ids ==> t[first].availableAt <= t[id].availableAt
  {
    var some :| some in ids;
    if ids == {some} {
      first := some;
    } else {
      first := Earliest(t, ids - {some});
      if t[some].availableAt < t[first].availableAt {
        first := some;
      }
    }
  }

  lemma InsertKeepsConsistent(t: Table, id: Id, c: Capture, now: int)
    requires Consistent(t)
    ensures Consistent(Insert(t, id, c, now))
  {
    if InsertTagFor(t, id, c) == OneRow {
      AddedStaysUnique(Docs(t), id, NewDocument(id, c, now));
      assert Docs(Insert(t, id, c, now)) == Docs(t)[id := NewDocument(id, c, now)];
    }
  }

  // The same rows, with the same identities and captures.
  ghost predicate SameRows(t: Table, u: Table) {
    u.Keys == t.Keys && forall id :: id in t ==> u[id].doc.id == t[id].doc.id && u[id].doc.capture == t[id].doc.capture
  }

  // Every row of t is still there, with its capture.
  ghost predicate Extends(t: Table, u: Table) {
    forall id :: id in t ==> id in u && u[id].doc.capture == t[id].doc.capture
  }

  lemma UpdatesKeepRows(t: Table, id: Id, upstreamId: string, error: string, delay: int, now: int)
    ensures SameRows(t, MarkedSynced(t, id, upstreamId, now))
    ensures SameRows(t, MarkedFailed(t, id, error, delay, now))
    ensures SameRows(t, Requeued(t, id, now))
  {
  }

  lemma ClaimKeepsRows(t: Table, chosen: set<Id>, now: int, lease: int)
    ensures SameRows(t, Claim(t, chosen, now, lease))
  {
  }

  lemma SameRowsConsistent(t: Table, u: Table)
    requires SameRows(t, u)
    ensures Extends(t, u)
    ensures Consistent(t) ==> Consistent(u)
  {
    if Consistent(t) {
      SameCapturesStayUnique(Docs(t), Docs(u));
    }
  }
}
