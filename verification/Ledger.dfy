/** Counting what happens to a document over a whole run. Each sweep takes a document through
    claim, acceptance, marking and announcement at most once and in that order, and each capture
    request inserts before it announces; the totals per document follow. */
module Ledger {
  import opened Documents
  import opened DocumentTable
  import opened Upstream
  import opened NodeProtocol

  predicate Done(s: State, kind: Kind, actor: nat, doc: Id) {
    Event(kind, actor, doc) in s.log
  }

  ghost predicate NoRepeats(log: seq<Event>) {
    forall i, j :: 0 <= i < j < |log| ==> log[i] != log[j]
  }

  // How often something happened to a document.
  function Tally(log: seq<Event>, kind: Kind, doc: Id): nat {
    if log == [] then 0
    else
      var last := log[|log| - 1];
      Tally(log[..|log| - 1], kind, doc) + if last.kind == kind && last.doc == doc then 1 else 0
  }

  // Nothing is announced before it is marked, marked before accepted, accepted before claimed.
  predicate InOrder(s: State, actor: nat, doc: Id) {
    && (Done(s, DidPublishSynced, actor, doc) ==> Done(s, DidMarkSynced, actor, doc))
    && (Done(s, DidMarkSynced, actor, doc) ==> Done(s, DidAccept, actor, doc))
    && (Done(s, DidAccept, actor, doc) ==> Done(s, DidClaim, actor, doc))
    && (Done(s, DidPublishBuffered, actor, doc) ==> Done(s, DidInsert, actor, doc))
  }

  predicate AcceptedNow(stage: Stage) {
    stage.ToPublish? || (stage.Answered? && stage.Verdict().Ok?)
  }

  // Where a sweep stands agrees with what it has done.
  ghost predicate SweepEntry(s: State, k: nat)
    requires k in s.sweeps
  {
    match s.sweeps[k]
    case Locking(rows, at, lease) => forall kind, doc :: !Done(s, kind, k, doc)
    case Draining(batch, next, stage) =>
      && (forall i :: 0 <= i < |batch| ==> Done(s, DidClaim, k, batch[i].id))
      && (forall i :: next <= i < |batch| ==>
            && (Done(s, DidAccept, k, batch[i].id) <==> i == next && AcceptedNow(stage))
            && (Done(s, DidMarkSynced, k, batch[i].id) <==> i == next && stage.ToPublish?)
            && !Done(s, DidPublishSynced, k, batch[i].id))
  }

  ghost predicate CallEntry(s: State, c: nat)
    requires c in s.calls
  {
    && (forall doc :: !Done(s, DidPublishBuffered, c, doc))
    && match s.calls[c]
       case Inserting(id, capture) => forall doc :: !Done(s, DidInsert, c, doc)
       case Reading(id, capture, inserted) => inserted ==> Done(s, DidInsert, c, id)
       case Replying(out, created) => created ==> Done(s, DidInsert, c, out)
  }

  function Attempts(t: Table, doc: Id): nat {
    if doc in t then t[doc].doc.syncAttempts else 0
  }

  ghost predicate Tallied(s: State, doc: Id) {
    && Tally(s.log, DidClaim, doc) == Attempts(s.table, doc)
    && Tally(s.log, DidInsert, doc) == if doc in s.table then 1 else 0
  }

  ghost predicate Balanced(s: State) {
    && NoRepeats(s.log)
    && (forall kind, actor: nat, doc :: Done(s, kind, actor, doc) ==> actor < s.nextActor)
    && (forall actor: nat, doc :: InOrder(s, actor, doc))
    && (forall k :: k in s.sweeps ==> SweepEntry(s, k))
    && (forall c :: c in s.calls ==> CallEntry(s, c))
    && (forall doc :: Tallied(s, doc))
  }

  // ---- Extending the log ----

  lemma {:induction false} TallyConcat(log: seq<Event>, more: seq<Event>, kind: Kind, doc: Id)
    ensures Tally(log + more, kind, doc) == Tally(log, kind, doc) + Tally(more, kind, doc)
  {
    if more == [] {
      assert log + more == log;
    } else {
      var front := more[..|more| - 1];
      assert (log + more)[..|log + more| - 1] == log + front;
      TallyConcat(log, front, kind, doc);
    }
  }

  lemma TallyOne(log: seq<Event>, e: Event, kind: Kind, doc: Id)
    ensures Tally(log + [e], kind, doc) == Tally(log, kind, doc) + if e.kind == kind && e.doc == doc then 1 else 0
  {
    assert (log + [e])[..|log|] == log;
  }

  lemma {:induction false} TallyClaims(k: nat, returned: seq<Id>, kind: Kind, doc: Id)
    requires Distinct(returned)
    ensures Tally(ClaimEvents(k, returned), kind, doc) == if kind == DidClaim && doc in returned then 1 else 0
  {
    var es := ClaimEvents(k, returned);
    if returned == [] {
    } else {
      var front := returned[..|returned| - 1];
      assert es[..|es| - 1] == ClaimEvents(k, front);
      TallyClaims(k, front, kind, doc);
      assert returned == front + [returned[|returned| - 1]];
    }
  }

  // A step of one actor: everyone else's record is as before.
  ghost predicate OnlyActor(s: State, t: State, a: nat) {
    && s.nextActor <= t.nextActor
    && (forall kind, actor: nat, doc :: actor != a ==> (Done(t, kind, actor, doc) <==> Done(s, kind, actor, doc)))
    && (forall l :: l in t.sweeps && l != a ==> l in s.sweeps && t.sweeps[l] == s.sweeps[l])
    && (forall c :: c in t.calls && c != a ==> c in s.calls && t.calls[c] == s.calls[c])
  }

  lemma ActorBalanced(s: State, t: State, a: nat)
    requires Balanced(s) && OnlyActor(s, t, a) && a < t.nextActor
    requires NoRepeats(t.log)
    requires forall doc :: InOrder(t, a, doc)
    requires a in t.sweeps ==> SweepEntry(t, a)
    requires a in t.calls ==> CallEntry(t, a)
    requires forall doc :: Tallied(t, doc)
    ensures Balanced(t)
  {
    forall actor, doc
      ensures InOrder(t, actor, doc)
    {
      assert InOrder(s, actor, doc);
    }
    forall l | l in t.sweeps
      ensures SweepEntry(t, l)
    {
      if l != a {
        assert SweepEntry(s, l);
      }
    }
    forall c | c in t.calls
      ensures CallEntry(t, c)
    {
      if c != a {
        assert CallEntry(s, c);
      }
    }
  }

  // One more entry by actor a.
  lemma OneMoreEntry(s: State, t: State, e: Event)
    requires t.log == s.log + [e]
    ensures forall kind, actor, doc :: Done(t, kind, actor, doc) <==>
      Done(s, kind, actor, doc) || Event(kind, actor, doc) == e
    ensures NoRepeats(s.log) && e !in s.log ==> NoRepeats(t.log)
  {
    assert t.log[|s.log|] == e;
    forall kind, actor, doc
      ensures Done(t, kind, actor, doc) <==> Done(s, kind, actor, doc) || Event(kind, actor, doc) == e
    {
      if Done(s, kind, actor, doc) {
        var i :| 0 <= i < |s.log| && s.log[i] == Event(kind, actor, doc);
        assert t.log[i] == s.log[i];
      }
    }
  }

  // An entry that is neither a claim nor an insert, with attempts and rows as before.
  lemma SameTally(s: State, t: State, e: Event, happened: bool)
    requires t.log == if happened then s.log + [e] else s.log
    requires e.kind != DidClaim && e.kind != DidInsert
    requires forall doc :: Attempts(t.table, doc) == Attempts(s.table, doc) && (doc in t.table <==> doc in s.table)
    requires forall doc :: Tallied(s, doc)
    ensures forall doc :: Tallied(t, doc)
  {
    forall doc
      ensures Tallied(t, doc)
    {
      assert Tallied(s, doc);
      TallyOne(s.log, e, DidClaim, doc);
      TallyOne(s.log, e, DidInsert, doc);
    }
  }

  // ---- Step by step ----

  lemma QuietBalanced(s: State, t: State)
    requires Balanced(s) && t.log == s.log && s.nextActor <= t.nextActor
    requires forall doc :: Attempts(t.table, doc) == Attempts(s.table, doc) && (doc in t.table <==> doc in s.table)
    requires forall l :: l in t.sweeps ==>
      (l in s.sweeps && t.sweeps[l] == s.sweeps[l]) || (l == s.nextActor && t.sweeps[l].Locking?)
    requires forall c :: c in t.calls ==>
      (c in s.calls && t.calls[c] == s.calls[c]) || (c == s.nextActor && t.calls[c].Inserting?)
    ensures Balanced(t)
  {
    SameTally(s, t, Event(DidAccept, 0, 0), false);
    forall kind, actor, doc
      ensures Done(t, kind, actor, doc) <==> Done(s, kind, actor, doc)
    {
    }
    forall actor, doc
      ensures InOrder(t, actor, doc)
    {
      assert InOrder(s, actor, doc);
    }
    forall l | l in t.sweeps
      ensures SweepEntry(t, l)
    {
      if l in s.sweeps && t.sweeps[l] == s.sweeps[l] {
        assert SweepEntry(s, l);
      }
    }
    forall c | c in t.calls
      ensures CallEntry(t, c)
    {
      if c in s.calls && t.calls[c] == s.calls[c] {
        assert CallEntry(s, c);
      }
    }
  }

  lemma InsertBalanced(s: State, call: nat, acked: bool)
    requires Inv(s) && Balanced(s) && Enabled(s, RunInsert(call, acked))
    ensures Balanced(AfterInsert(s, call, acked))
  {
    var t, id := AfterInsert(s, call, acked), s.calls[call].id;
    assert CallEntry(s, call);
    if InsertTagFor(s.table, id, s.calls[call].capture) == OneRow {
      RowAdded(s, t, call, id);
      forall doc
        ensures !Done(t, DidPublishBuffered, call, doc)
      {
        assert !Done(s, DidPublishBuffered, call, doc);
      }
    } else {
      SameEntries(s, t, call);
      SameTally(s, t, Event(DidAccept, 0, 0), false);
      forall doc
        ensures InOrder(t, call, doc)
      {
        assert InOrder(s, call, doc);
      }
    }
    ActorBalanced(s, t, call);
  }

  lemma SameEntries(s: State, t: State, a: nat)
    requires t.log == s.log
    ensures forall kind, actor, doc :: Done(t, kind, actor, doc) <==> Done(s, kind, actor, doc)
    ensures (forall doc :: !Done(s, DidPublishBuffered, a, doc)) ==> forall doc :: !Done(t, DidPublishBuffered, a, doc)
  {
  }

  lemma RowAdded(s: State, t: State, call: nat, id: Id)
    requires Balanced(s) && t.log == s.log + [Event(DidInsert, call, id)] && !Done(s, DidInsert, call, id)
    requires id !in s.table && id in t.table && Attempts(t.table, id) == 0
    requires forall doc :: doc != id ==> Attempts(t.table, doc) == Attempts(s.table, doc) && (doc in t.table <==>
      doc in s.table)
    ensures NoRepeats(t.log)
    ensures forall kind, actor, doc ::
      Done(t, kind, actor, doc) <==> Done(s, kind, actor, doc) || Event(kind, actor, doc) == Event(DidInsert, call, id)
    ensures forall doc :: InOrder(t, call, doc) && Tallied(t, doc)
  {
    var e := Event(DidInsert, call, id);
    OneMoreEntry(s, t, e);
    forall doc
      ensures InOrder(t, call, doc) && Tallied(t, doc)
    {
      assert InOrder(s, call, doc) && Tallied(s, doc);
      TallyOne(s.log, e, DidClaim, doc);
      TallyOne(s.log, e, DidInsert, doc);
    }
  }

  lemma ReadBalanced(s: State, call: nat, found: Option<Id>)
    requires Inv(s) && Balanced(s) && Enabled(s, ReadBack(call, found))
    ensures Balanced(AfterRead(s, call, found))
  {
    var t := AfterRead(s, call, found);
    assert CallEntry(s, call);
    SameEntries(s, t, call);
    SameTally(s, t, Event(DidAccept, 0, 0), false);
    forall doc
      ensures InOrder(t, call, doc)
    {
      assert InOrder(s, call, doc);
    }
    ActorBalanced(s, t, call);
  }

  lemma BufferedEventBalanced(s: State, call: nat, delivered: bool)
    requires Inv(s) && Balanced(s) && Enabled(s, PublishBuffered(call, delivered))
    ensures Balanced(AfterBufferedEvent(s, call, delivered))
  {
    var t := AfterBufferedEvent(s, call, delivered);
    assert CallEntry(s, call);
    var e, happened := Event(DidPublishBuffered, call, s.calls[call].out), delivered && s.calls[call].created;
    if happened {
      OneMoreEntry(s, t, e);
      assert !Done(s, DidPublishBuffered, call, s.calls[call].out);
    }
    SameTally(s, t, e, happened);
    forall doc
      ensures InOrder(t, call, doc)
    {
      assert InOrder(s, call, doc);
    }
    ActorBalanced(s, t, call);
  }

  lemma CommitBalanced(s: State, k: nat, returned: seq<Id>)
    requires Inv(s) && Balanced(s)
    requires Enabled(s, CommitClaim(k, returned)) && Returnable(s, CommitClaim(k, returned))
    ensures Balanced(AfterCommit(s, k, returned))
  {
    var t := AfterCommit(s, k, returned);
    assert SweepOk(s, k) && SweepEntry(s, k);
    CommittedIds(s, k, returned);
    ClaimEntries(s, t, k, returned);
    forall doc
      ensures Tallied(t, doc)
    {
      CommitTallied(s, k, returned, doc);
    }
    forall doc
      ensures InOrder(t, k, doc)
    {
      assert InOrder(s, k, doc);
    }
    ActorBalanced(s, t, k);
  }

  lemma CommitTallied(s: State, k: nat, returned: seq<Id>, doc: Id)
    requires Inv(s) && Tallied(s, doc)
    requires Enabled(s, CommitClaim(k, returned)) && Returnable(s, CommitClaim(k, returned))
    ensures Tallied(AfterCommit(s, k, returned), doc)
  {
    TallyConcat(s.log, ClaimEvents(k, returned), DidClaim, doc);
    TallyConcat(s.log, ClaimEvents(k, returned), DidInsert, doc);
    TallyClaims(k, returned, DidClaim, doc);
    TallyClaims(k, returned, DidInsert, doc);
    assert SweepOk(s, k);
    assert doc in returned <==> doc in Elements(returned);
  }

  lemma ClaimEntries(s: State, t: State, k: nat, returned: seq<Id>)
    requires t.log == s.log + ClaimEvents(k, returned) && NoRepeats(s.log) && Distinct(returned)
    requires forall kind, doc :: !Done(s, kind, k, doc)
    ensures forall kind, actor, doc ::
      Done(t, kind, actor, doc) <==> Done(s, kind, actor, doc) || (kind == DidClaim && actor == k && doc in returned)
    ensures NoRepeats(t.log)
  {
    var es := ClaimEvents(k, returned);
    forall kind, actor, doc
      ensures Done(t, kind, actor, doc) <==>
        Done(s, kind, actor, doc) || (kind == DidClaim && actor == k && doc in returned)
    {
      var e := Event(kind, actor, doc);
      assert e in t.log <==> e in s.log || e in es;
      if kind == DidClaim && actor == k && doc in returned {
        var i :| 0 <= i < |returned| && returned[i] == doc;
        assert es[i] == e;
      }
    }
    forall i, j | 0 <= i < j < |t.log|
      ensures t.log[i] != t.log[j]
    {
      if i < |s.log| <= j {
        var e := s.log[i];
        assert Done(s, e.kind, e.actor, e.doc);
      }
    }
  }

  // What the record says of the document a sweep has in hand.
  lemma HeadEntry(s: State, k: nat)
    requires Balanced(s) && At(s, k)
    ensures var d := Head(s, k);
            && Done(s, DidClaim, k, d.id)
            && (Done(s, DidAccept, k, d.id) <==> AcceptedNow(s.sweeps[k].stage))
            && (Done(s, DidMarkSynced, k, d.id) <==> s.sweeps[k].stage.ToPublish?)
            && !Done(s, DidPublishSynced, k, d.id)
  {
    assert SweepEntry(s, k);
  }

  // A sweep moving within its batch, with one entry about the document in hand.
  lemma MovedEntry(s: State, t: State, k: nat, e: Event, happened: bool)
    requires Inv(s) && Balanced(s) && At(s, k) && k in t.sweeps && t.sweeps[k].Draining?
    requires t.sweeps[k].batch == s.sweeps[k].batch
    requires t.log == if happened then s.log + [e] else s.log
    requires e.actor == k && e.doc == Head(s, k).id && e.kind in {DidAccept, DidMarkSynced, DidPublishSynced}
    requires happened ==> e !in s.log
    requires t.sweeps[k].next in {s.sweeps[k].next, s.sweeps[k].next + 1}
    requires t.sweeps[k].next == s.sweeps[k].next + 1 ==> t.sweeps[k].stage == ToPost
    requires t.sweeps[k].next == s.sweeps[k].next ==>
      && (Done(t, DidAccept, k, e.doc) <==> AcceptedNow(t.sweeps[k].stage))
      && (Done(t, DidMarkSynced, k, e.doc) <==> t.sweeps[k].stage.ToPublish?)
      && !Done(t, DidPublishSynced, k, e.doc)
    ensures SweepEntry(t, k)
  {
    assert SweepOk(s, k) && SweepEntry(s, k);
    if happened {
      OneMoreEntry(s, t, e);
    }
  }

  lemma PostBalanced(s: State, k: nat, reply: Reply)
    requires Inv(s) && Balanced(s) && Enabled(s, PostDocument(k, reply))
    ensures Balanced(AfterPost(s, k, reply))
  {
    var t, e := AfterPost(s, k, reply), Event(DidAccept, k, Head(s, k).id);
    var happened := Outcome(reply).Ok?;
    MoveBalanced(s, t, k, e, happened);
  }

  lemma MarkBalanced(s: State, k: nat, committed: bool, acked: bool)
    requires Inv(s) && Balanced(s) && Enabled(s, MarkDocument(k, committed, acked))
    ensures Balanced(AfterMark(s, k, committed, acked))
  {
    var t, e := AfterMark(s, k, committed, acked), Event(DidMarkSynced, k, Head(s, k).id);
    var happened := committed && s.sweeps[k].stage.Verdict().Ok?;
    MarkRows(s, k, committed, acked);
    MoveBalanced(s, t, k, e, happened);
  }

  lemma PublishBalanced(s: State, k: nat, delivered: bool)
    requires Inv(s) && Balanced(s) && Enabled(s, PublishSynced(k, delivered))
    ensures Balanced(AfterPublish(s, k, delivered))
  {
    var e := Event(DidPublishSynced, k, Head(s, k).id);
    MoveBalanced(s, AfterPublish(s, k, delivered), k, e, delivered);
  }

  // The common shape of the three: stage and entry agree, and the entry comes in order.
  lemma MoveBalanced(s: State, t: State, k: nat, e: Event, happened: bool)
    requires Inv(s) && Balanced(s) && At(s, k)
    requires t.nextActor == s.nextActor && t.calls == s.calls
    requires k in t.sweeps && t.sweeps == s.sweeps[k := t.sweeps[k]] && t.sweeps[k].Draining?
    requires t.sweeps[k].batch == s.sweeps[k].batch
    requires t.log == if happened then s.log + [e] else s.log
    requires e.actor == k && e.doc == Head(s, k).id
    requires forall doc :: Attempts(t.table, doc) == Attempts(s.table, doc) && (doc in t.table <==> doc in s.table)
    requires Legal(s.sweeps[k], t.sweeps[k], e.kind, happened)
    ensures Balanced(t)
  {
    HeadEntry(s, k);
    assert SweepOk(s, k);
    if happened {
      OneMoreEntry(s, t, e);
    }
    MovedEntry(s, t, k, e, happened);
    SameTally(s, t, e, happened);
    forall doc
      ensures InOrder(t, k, doc)
    {
      assert InOrder(s, k, doc);
    }
    ActorBalanced(s, t, k);
  }

  // The moves a sweep makes on the document in hand, and the entry each may leave.
  predicate Legal(w: Sweep, v: Sweep, kind: Kind, happened: bool)
    requires w.Draining? && v.Draining?
  {
    match kind
    case DidAccept => w.stage.ToPost? && v.next == w.next && v.stage.Answered? && (happened <==> v.stage.Verdict().Ok?)
    case DidMarkSynced =>
      && w.stage.Answered? && (happened ==> w.stage.Verdict().Ok?)
      && ((v.next == w.next && v.stage.ToPublish? && happened) || (v.next == w.next + 1 && v.stage.ToPost?))
    case DidPublishSynced => w.stage.ToPublish? && v.next == w.next + 1 && v.stage.ToPost?
    case _ => false
  }

  lemma StepBalanced(s: State, step: Step)
    requires Inv(s) && Balanced(s) && Enabled(s, step)
    ensures Returnable(s, step) && Balanced(Apply(s, step))
  {
    InvReturnable(s, step);
    match step
    case RunInsert(call, acked) => InsertBalanced(s, call, acked);
    case ReadBack(call, found) => ReadBalanced(s, call, found);
    case PublishBuffered(call, delivered) => BufferedEventBalanced(s, call, delivered);
    case CommitClaim(k, returned) => CommitBalanced(s, k, returned);
    case PostDocument(k, reply) => PostBalanced(s, k, reply);
    case MarkDocument(k, committed, acked) => MarkBalanced(s, k, committed, acked);
    case PublishSynced(k, delivered) => PublishBalanced(s, k, delivered);
    case _ => QuietBalanced(s, Apply(s, step));
  }

  lemma {:induction false} RunBalanced(s: State, steps: seq<Step>)
    requires Inv(s) && Balanced(s) && ValidRun(s, steps)
    ensures Inv(Final(s, steps)) && Balanced(Final(s, steps))
    decreases |steps|
  {
    if steps == [] {
    } else {
      StepInv(s, steps[0]);
      StepBalanced(s, steps[0]);
      RunBalanced(Apply(s, steps[0]), steps[1..]);
    }
  }

  lemma InitBalanced(s: State)
    requires Init(s)
    ensures Inv(s) && Balanced(s)
  {
    InitInv(s);
  }

  // ---- From the order of each sweep to totals per document ----

  function Actors(log: seq<Event>, kind: Kind, doc: Id): set<nat> {
    set e | e in log && e.kind == kind && e.doc == doc :: e.actor
  }

  lemma {:induction false} TallyIsActors(log: seq<Event>, kind: Kind, doc: Id)
    requires NoRepeats(log)
    ensures Tally(log, kind, doc) == |Actors(log, kind, doc)|
  {
    if log == [] {
      assert Actors(log, kind, doc) == {};
    } else {
      var front, last := log[..|log| - 1], log[|log| - 1];
      TallyIsActors(front, kind, doc);
      assert log == front + [last];
      ActorsOfLast(front, last, kind, doc);
      assert forall i :: 0 <= i < |front| ==> front[i] == log[i] != last;
    }
  }

  lemma ActorsOfLast(front: seq<Event>, last: Event, kind: Kind, doc: Id)
    ensures Actors(front + [last], kind, doc) ==
            Actors(front, kind, doc) + if last.kind == kind && last.doc == doc then {last.actor} else {}
    ensures last.actor in Actors(front, kind, doc) && last.kind == kind && last.doc == doc ==> last in front
  {
    forall a
      ensures a in Actors(front + [last], kind, doc) <==>
              a in Actors(front, kind, doc) || (a == last.actor && last.kind == kind && last.doc == doc)
    {
      var e := Event(kind, a, doc);
      assert a in Actors(front, kind, doc) <==> e in front;
      assert a in Actors(front + [last], kind, doc) <==> e in front + [last];
    }
  }

  lemma FewerEvents(s: State, rare: Kind, common: Kind, doc: Id)
    requires NoRepeats(s.log) && forall a: nat :: Done(s, rare, a, doc) ==> Done(s, common, a, doc)
    ensures Tally(s.log, rare, doc) <= Tally(s.log, common, doc)
  {
    TallyIsActors(s.log, rare, doc);
    TallyIsActors(s.log, common, doc);
    forall a | a in Actors(s.log, rare, doc)
      ensures a in Actors(s.log, common, doc)
    {
      assert Done(s, rare, a, doc);
      assert Event(common, a, doc) in s.log;
    }
    SubsetSize(Actors(s.log, rare, doc), Actors(s.log, common, doc));
  }

  /** The counting chain, in every reachable state and for every document. */
  lemma CountingChain(s: State, steps: seq<Step>, doc: Id)
    requires Init(s) && ValidRun(s, steps)
    ensures var t := Final(s, steps);
            && Tally(t.log, DidPublishSynced, doc) <= Tally(t.log, DidMarkSynced, doc)
            && Tally(t.log, DidMarkSynced, doc) <= Tally(t.log, DidAccept, doc)
            && Tally(t.log, DidAccept, doc) <= Tally(t.log, DidClaim, doc)
            && Tally(t.log, DidClaim, doc) == Attempts(t.table, doc)
            && Tally(t.log, DidPublishBuffered, doc) <= Tally(t.log, DidInsert, doc)
            && Tally(t.log, DidInsert, doc) == if doc in t.table then 1 else 0
  {
    InitBalanced(s);
    RunBalanced(s, steps);
    var t := Final(s, steps);
    forall a: nat
      ensures Done(t, DidPublishSynced, a, doc) ==> Done(t, DidMarkSynced, a, doc)
      ensures Done(t, DidMarkSynced, a, doc) ==> Done(t, DidAccept, a, doc)
      ensures Done(t, DidAccept, a, doc) ==> Done(t, DidClaim, a, doc)
      ensures Done(t, DidPublishBuffered, a, doc) ==> Done(t, DidInsert, a, doc)
    {
      assert InOrder(t, a, doc);
    }
    FewerEvents(t, DidPublishSynced, DidMarkSynced, doc);
    FewerEvents(t, DidMarkSynced, DidAccept, doc);
    FewerEvents(t, DidAccept, DidClaim, doc);
    FewerEvents(t, DidPublishBuffered, DidInsert, doc);
    assert Tallied(t, doc);
  }

  /** Attempts never go down, whatever is reset or lost. */
  lemma {:induction false} AttemptsNeverDecrease(s: State, steps: seq<Step>, doc: Id)
    requires Inv(s) && ValidRun(s, steps)
    ensures Attempts(s.table, doc) <= Attempts(Final(s, steps).table, doc)
    decreases |steps|
  {
    if steps == [] {
    } else {
      StepInv(s, steps[0]);
      AttemptsStep(s, steps[0], doc);
      AttemptsNeverDecrease(Apply(s, steps[0]), steps[1..], doc);
    }
  }

  lemma AttemptsStep(s: State, step: Step, doc: Id)
    requires Inv(s) && Enabled(s, step) && Returnable(s, step)
    ensures Attempts(Apply(s, step).table, doc) ==
            Attempts(s.table, doc) + if step.CommitClaim? && doc in step.returned then 1 else 0
  {
    if step.CommitClaim? {
      assert SweepOk(s, step.sweep);
      assert doc in step.returned <==> doc in Elements(step.returned);
    } else if step.MarkDocument? {
      MarkRows(s, step.sweep, step.committed, step.acked);
    } else if !Writes(step) {
      OthersOnlyRead(s, step);
    }
  }

  // ---- Nothing that happens goes unrecorded ----

  // The step is one by which something of this kind happens to the document.
  ghost predicate Causes(s: State, step: Step, kind: Kind, doc: Id)
    requires Enabled(s, step)
  {
    match kind
    case DidInsert => step.RunInsert? && s.calls[step.call].id == doc && doc !in s.table && Insertable(s, step.call)
    case DidPublishBuffered =>
      step.PublishBuffered? && step.delivered && s.calls[step.call].created && s.calls[step.call].out == doc
    case DidClaim => step.CommitClaim? && doc in step.returned
    case DidAccept => step.PostDocument? && Is2xx(step.reply) && Head(s, step.sweep).id == doc
    case DidMarkSynced =>
      && step.MarkDocument? && step.committed && Is2xx(s.sweeps[step.sweep].stage.reply)
      && Head(s, step.sweep).id == doc
    case DidPublishSynced => step.PublishSynced? && step.delivered && Head(s, step.sweep).id == doc
  }

  // No row has the reference the request names.
  ghost predicate Insertable(s: State, call: nat)
    requires call in s.calls && s.calls[call].Inserting?
  {
    var c := s.calls[call].capture;
    c.reference == "" || forall id :: id in s.table ==>
      var d := s.table[id].doc.capture;
      d.depotId != c.depotId || d.docType != c.docType || d.reference != c.reference
  }

  lemma MayBeLogged(log: seq<Event>, longer: seq<Event>, e: Event, happened: bool, kind: Kind, doc: Id)
    requires longer == if happened then log + [e] else log
    ensures Tally(longer, kind, doc) ==
            Tally(log, kind, doc) + if happened && e.kind == kind && e.doc == doc then 1 else 0
  {
    TallyOne(log, e, kind, doc);
  }

  lemma InsertEvent(s: State, call: nat, acked: bool, kind: Kind, doc: Id)
    requires Enabled(s, RunInsert(call, acked))
    ensures Tally(AfterInsert(s, call, acked).log, kind, doc) ==
            Tally(s.log, kind, doc) + if Causes(s, RunInsert(call, acked), kind, doc) then 1 else 0
  {
    var id := s.calls[call].id;
    var inserted := InsertTagFor(s.table, id, s.calls[call].capture) == OneRow;
    MayBeLogged(s.log, AfterInsert(s, call, acked).log, Event(DidInsert, call, id), inserted, kind, doc);
  }

  lemma ClaimEvent(s: State, k: nat, returned: seq<Id>, kind: Kind, doc: Id)
    requires Enabled(s, CommitClaim(k, returned)) && Returnable(s, CommitClaim(k, returned))
    ensures Tally(AfterCommit(s, k, returned).log, kind, doc) ==
            Tally(s.log, kind, doc) + if Causes(s, CommitClaim(k, returned), kind, doc) then 1 else 0
  {
    TallyConcat(s.log, ClaimEvents(k, returned), kind, doc);
    TallyClaims(k, returned, kind, doc);
  }

  lemma PostEvent(s: State, k: nat, reply: Reply, kind: Kind, doc: Id)
    requires Enabled(s, PostDocument(k, reply))
    ensures Tally(AfterPost(s, k, reply).log, kind, doc) ==
            Tally(s.log, kind, doc) + if Causes(s, PostDocument(k, reply), kind, doc) then 1 else 0
  {
    var e := Event(DidAccept, k, Head(s, k).id);
    MayBeLogged(s.log, AfterPost(s, k, reply).log, e, Is2xx(reply), kind, doc);
  }

  lemma MarkEvent(s: State, k: nat, committed: bool, acked: bool, kind: Kind, doc: Id)
    requires Enabled(s, MarkDocument(k, committed, acked))
    ensures Tally(AfterMark(s, k, committed, acked).log, kind, doc) ==
            Tally(s.log, kind, doc) + if Causes(s, MarkDocument(k, committed, acked), kind, doc) then 1 else 0
  {
    var e, happened := Event(DidMarkSynced, k, Head(s, k).id), committed && Is2xx(s.sweeps[k].stage.reply);
    MayBeLogged(s.log, AfterMark(s, k, committed, acked).log, e, happened, kind, doc);
  }

  lemma PublishEvent(s: State, step: Step, kind: Kind, doc: Id)
    requires Enabled(s, step) && Returnable(s, step) && (step.PublishSynced? || step.PublishBuffered?)
    ensures Tally(Apply(s, step).log, kind, doc) ==
            Tally(s.log, kind, doc) + if Causes(s, step, kind, doc) then 1 else 0
  {
    if step.PublishSynced? {
      var e := Event(DidPublishSynced, step.sweep, Head(s, step.sweep).id);
      MayBeLogged(s.log, AfterPublish(s, step.sweep, step.delivered).log, e, step.delivered, kind, doc);
    } else {
      var c := s.calls[step.call];
      MayBeLogged(s.log, AfterBufferedEvent(s, step.call, step.delivered).log,
                  Event(DidPublishBuffered, step.call, c.out), step.delivered && c.created, kind, doc);
    }
  }

  lemma EventStep(s: State, step: Step, kind: Kind, doc: Id)
    requires Enabled(s, step) && Returnable(s, step)
    ensures Tally(Apply(s, step).log, kind, doc) ==
            Tally(s.log, kind, doc) + if Causes(s, step, kind, doc) then 1 else 0
  {
    if step.RunInsert? {
      InsertEvent(s, step.call, step.acked, kind, doc);
    } else if step.CommitClaim? {
      ClaimEvent(s, step.sweep, step.returned, kind, doc);
    } else if step.PostDocument? {
      PostEvent(s, step.sweep, step.reply, kind, doc);
    } else if step.MarkDocument? {
      MarkEvent(s, step.sweep, step.committed, step.acked, kind, doc);
    } else if step.PublishSynced? || step.PublishBuffered? {
      PublishEvent(s, step, kind, doc);
    }
  }

  ghost function TimesCaused(s: State, steps: seq<Step>, kind: Kind, doc: Id): nat
    requires ValidRun(s, steps)
    decreases |steps|
  {
    if steps == [] then 0
    else (if Causes(s, steps[0], kind, doc) then 1 else 0) + TimesCaused(Apply(s, steps[0]), steps[1..], kind, doc)
  }

  /** What a document's record says of each kind is how often it happened in the run, no more and no less. */
  lemma {:induction false} EventsAreCounted(s: State, steps: seq<Step>, kind: Kind, doc: Id)
    requires ValidRun(s, steps)
    ensures Tally(Final(s, steps).log, kind, doc) == Tally(s.log, kind, doc) + TimesCaused(s, steps, kind, doc)
    decreases |steps|
  {
    if steps == [] {
    } else {
      EventStep(s, steps[0], kind, doc);
      EventsAreCounted(Apply(s, steps[0]), steps[1..], kind, doc);
    }
  }

  function PostsOf(posts: seq<Post>, doc: Id): nat {
    if posts == [] then 0
    else PostsOf(posts[..|posts| - 1], doc) + if posts[|posts| - 1].idempotencyKey == doc then 1 else 0
  }

  // The step is one by which a request for the document may reach the central DMS.
  ghost predicate Sends(s: State, step: Step, doc: Id)
    requires Enabled(s, step)
  {
    step.PostDocument? && !step.reply.NotSent? && Head(s, step.sweep).id == doc
  }

  ghost function TimesSent(s: State, steps: seq<Step>, doc: Id): nat
    requires ValidRun(s, steps)
    decreases |steps|
  {
    if steps == [] then 0
    else (if Sends(s, steps[0], doc) then 1 else 0) + TimesSent(Apply(s, steps[0]), steps[1..], doc)
  }

  lemma PostStep(s: State, step: Step, doc: Id)
    requires Enabled(s, step) && Returnable(s, step)
    ensures PostsOf(Apply(s, step).past.posts, doc) ==
            PostsOf(s.past.posts, doc) + if Sends(s, step, doc) then 1 else 0
  {
    var t := Apply(s, step);
    if t.past.posts != s.past.posts {
      var p := t.past.posts[|s.past.posts|];
      assert t.past.posts[..|s.past.posts|] == s.past.posts && t.past.posts == s.past.posts + [p];
    }
  }

  /** The requests made for a document are those the sweeps sent, one for each that did not fail before it. */
  lemma {:induction false} PostsAreCounted(s: State, steps: seq<Step>, doc: Id)
    requires ValidRun(s, steps)
    ensures PostsOf(Final(s, steps).past.posts, doc) == PostsOf(s.past.posts, doc) + TimesSent(s, steps, doc)
    decreases |steps|
  {
    if steps == [] {
    } else {
      PostStep(s, steps[0], doc);
      PostsAreCounted(Apply(s, steps[0]), steps[1..], doc);
    }
  }
}
