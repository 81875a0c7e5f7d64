/** Any number of nodes running the same migrations against one database, each from the snapshot of
    the applied set it read when it started. */
module MigrateProtocol {
  import opened MigrationFiles
  import opened MigrationRun

  // A run past the migrations before `next`, with the versions it has applied itself.
  datatype Run = Run(snapshot: Checksums, next: nat, newly: seq<string>)

  datatype Commit = Commit(run: nat, version: string)

  // commits is what took effect since the table was `initial`; finished is what successful runs returned.
  datatype State = State(
    migs: seq<Migration>,
    initial: Checksums,
    table: Checksums,
    commits: seq<Commit>,
    runs: map<nat, Run>,
    nextRun: nat,
    finished: map<nat, seq<string>>
  )

  datatype Step =
    | Start
    | Skip(run: nat)
    | Mismatch(run: nat)
    | ApplyNext(run: nat, how: Attempt)
    | Finish(run: nat)
    | Crash(run: nat)

  ghost predicate Init(s: State) {
    Ascending(s.migs) && s.table == s.initial && s.commits == [] && s.runs == map[] && s.finished == map[]
  }

  function Log(commits: seq<Commit>): (vs: seq<string>)
    ensures |vs| == |commits|
    ensures forall i :: 0 <= i < |vs| ==> vs[i] == commits[i].version
  {
    seq(|commits|, i requires 0 <= i < |commits| => commits[i].version)
  }

  // What one run committed, in order.
  function CommittedBy(commits: seq<Commit>, k: nat): seq<string> {
    if commits == [] then []
    else
      var before, last := CommittedBy(commits[..|commits| - 1], k), commits[|commits| - 1];
      if last.run == k then before + [last.version] else before
  }

  predicate At(s: State, k: nat) {
    k in s.runs && s.runs[k].next < |s.migs|
  }

  function Current(s: State, k: nat): Migration
    requires At(s, k)
  {
    s.migs[s.runs[k].next]
  }

  predicate Enabled(s: State, step: Step) {
    match step
    case Start => true
    case Skip(k) =>
      At(s, k) && Current(s, k).version in s.runs[k].snapshot
      && s.runs[k].snapshot[Current(s, k).version] == Current(s, k).checksum
    case Mismatch(k) =>
      At(s, k) && Current(s, k).version in s.runs[k].snapshot
      && s.runs[k].snapshot[Current(s, k).version] != Current(s, k).checksum
    case ApplyNext(k, how) => At(s, k) && Current(s, k).version !in s.runs[k].snapshot
    case Finish(k) => k in s.runs && s.runs[k].next == |s.migs|
    case Crash(k) => k in s.runs
  }

  function Without(s: State, k: nat): State {
    s.(runs := s.runs - {k})
  }

  // The transaction commits unless it fails or the version is already there.
  predicate TakesEffect(s: State, k: nat, how: Attempt)
    requires At(s, k)
  {
    !how.Fails? && Current(s, k).version !in s.table
  }

  function AfterApply(s: State, k: nat, how: Attempt): State
    requires At(s, k)
  {
    if !TakesEffect(s, k, how) then Without(s, k)
    else
      var m, r := Current(s, k), s.runs[k];
      s.(table := s.table[m.version := m.checksum],
         commits := s.commits + [Commit(k, m.version)],
         runs := if how.Commits? then s.runs[k := r.(next := r.next + 1, newly := r.newly + [m.version])]
                 else s.runs - {k})
  }

  function Apply(s: State, step: Step): State
    requires Enabled(s, step)
  {
    match step
    case Start => s.(runs := s.runs[s.nextRun := Run(s.table, 0, [])], nextRun := s.nextRun + 1)
    case Skip(k) => s.(runs := s.runs[k := s.runs[k].(next := s.runs[k].next + 1)])
    case Mismatch(k) => Without(s, k)
    case ApplyNext(k, how) => AfterApply(s, k, how)
    case Finish(k) => Without(s, k).(finished := s.finished[k := s.runs[k].newly])
    case Crash(k) => Without(s, k)
  }

  // ---- The invariant of every history ----

  predicate HasOwn(t: Checksums, m: Migration) {
    m.version in t && t[m.version] == m.checksum
  }

  ghost predicate RunOk(s: State, k: nat)
    requires k in s.runs
  {
    var r := s.runs[k];
    && k < s.nextRun && r.next <= |s.migs| && r.newly == CommittedBy(s.commits, k)
    && (forall v :: v in r.snapshot ==> v in s.table && s.table[v] == r.snapshot[v])
    && (forall i :: 0 <= i < r.next ==> HasOwn(s.table, s.migs[i]))
  }

  // The table is what it was at first, plus the commits, each with its file's checksum.
  ghost predicate TableOk(s: State) {
    && (forall v :: VersionOk(s, v))
    && (forall m :: m in s.migs && m.version in Log(s.commits) ==> HasOwn(s.table, m))
  }

  predicate VersionOk(s: State, v: string) {
    && (v in s.table <==> v in s.initial || v in Log(s.commits))
    && (v in s.initial ==> s.table[v] == s.initial[v])
  }

  ghost predicate AllRecorded(s: State) {
    forall m :: m in s.migs ==> HasOwn(s.table, m)
  }

  // What is known of run number k, at work or finished.
  ghost predicate Entry(s: State, k: nat) {
    && (k in s.runs ==> RunOk(s, k) && k !in s.finished)
    && (k in s.finished ==> k < s.nextRun && s.finished[k] == CommittedBy(s.commits, k) && AllRecorded(s))
  }

  ghost predicate Inv(s: State) {
    && Ascending(s.migs)
    && Log(s.commits) <= Missing(s.migs, s.initial)
    && TableOk(s)
    && (forall c :: c in s.commits ==> c.run < s.nextRun)
    && (forall k: nat :: Entry(s, k))
  }

  lemma {:induction false} NoCommitsYet(commits: seq<Commit>, k: nat)
    requires forall c :: c in commits ==> c.run < k
    ensures CommittedBy(commits, k) == []
  {
    if commits == [] {
    } else {
      var front := commits[..|commits| - 1];
      assert forall c :: c in front ==> c in commits;
      NoCommitsYet(front, k);
    }
  }

  // The next version a run commits is the next one missing: all before it are in the table.
  lemma CommitIsNext(s: State, k: nat)
    requires Inv(s) && At(s, k) && Current(s, k).version !in s.table
    ensures Log(s.commits) + [Current(s, k).version] <= Missing(s.migs, s.initial)
  {
    var all, log, v := Missing(s.migs, s.initial), Log(s.commits), Current(s, k).version;
    assert Entry(s, k) && VersionOk(s, v);
    MissingMembers(s.migs, s.initial, v);
    assert Versions(s.migs)[s.runs[k].next] == v;
    var j :| 0 <= j < |all| && all[j] == v;
    if j < |log| {
      assert false;
    }
    if j > |log| {
      MissingAscends(s.migs, s.initial, |log|, j);
      LowerIsThere(s, k, all[|log|]);
      var i :| 0 <= i < |log| && log[i] == all[|log|];
      MissingAscends(s.migs, s.initial, i, |log|);
    }
  }

  lemma LowerIsThere(s: State, k: nat, lower: string)
    requires Inv(s) && At(s, k) && Less(lower, Current(s, k).version) && lower in Missing(s.migs, s.initial)
    ensures lower in Log(s.commits)
  {
    assert Entry(s, k) && VersionOk(s, lower);
    MissingMembers(s.migs, s.initial, lower);
    var i :| 0 <= i < |s.migs| && s.migs[i].version == lower;
    if i >= s.runs[k].next {
      LessIrreflexive(lower);
      if i > s.runs[k].next {
        Ordered(s.migs, s.runs[k].next, i);
        LessTransitive(lower, Current(s, k).version, lower);
      }
    }
    assert HasOwn(s.table, s.migs[i]);
  }

  lemma CommitInv(s: State, k: nat, how: Attempt)
    requires Inv(s) && Enabled(s, ApplyNext(k, how)) && TakesEffect(s, k, how)
    ensures Inv(AfterApply(s, k, how))
  {
    var t, m := AfterApply(s, k, how), Current(s, k);
    assert Entry(s, k);
    CommitIsNext(s, k);
    assert Log(t.commits) == Log(s.commits) + [m.version];
    CommittedTableOk(s, k, how);
    forall l: nat
      ensures Entry(t, l)
    {
      CommittedEntry(s, k, how, l);
    }
  }

  lemma CommittedTableOk(s: State, k: nat, how: Attempt)
    requires Inv(s) && Enabled(s, ApplyNext(k, how)) && TakesEffect(s, k, how)
    requires Log(AfterApply(s, k, how).commits) == Log(s.commits) + [Current(s, k).version]
    ensures TableOk(AfterApply(s, k, how))
  {
    var t := AfterApply(s, k, how);
    forall m | m in t.migs && m.version in Log(t.commits)
      ensures HasOwn(t.table, m)
    {
      var i :| 0 <= i < |s.migs| && s.migs[i] == m;
      OwnOrOther(s, k, i);
    }
    forall v
      ensures VersionOk(t, v)
    {
      assert VersionOk(s, v);
    }
  }

  lemma CommittedEntry(s: State, k: nat, how: Attempt, l: nat)
    requires Inv(s) && Enabled(s, ApplyNext(k, how)) && TakesEffect(s, k, how)
    ensures Entry(AfterApply(s, k, how), l)
  {
    var t, m := AfterApply(s, k, how), Current(s, k);
    assert Entry(s, k) && Entry(s, l) && m in s.migs;
    assert !HasOwn(s.table, m);
    assert t.commits[..|s.commits|] == s.commits;
    if l in s.runs {
      forall i | 0 <= i < s.runs[l].next
        ensures HasOwn(t.table, t.migs[i])
      {
        assert HasOwn(s.table, s.migs[i]);
      }
    }
  }

  lemma OwnOrOther(s: State, k: nat, i: nat)
    requires Ascending(s.migs) && At(s, k) && i < |s.migs|
    ensures s.migs[i].version == Current(s, k).version ==> i == s.runs[k].next
  {
    if i < s.runs[k].next {
      Ordered(s.migs, i, s.runs[k].next);
    } else if i > s.runs[k].next {
      Ordered(s.migs, s.runs[k].next, i);
    }
  }

  ghost predicate SameHistory(s: State, t: State) {
    && t.migs == s.migs && t.initial == s.initial && t.table == s.table && t.commits == s.commits
    && s.nextRun <= t.nextRun
  }

  // A step keeps or drops a run, and keeps its result.
  predicate Unmoved(s: State, t: State, l: nat) {
    && (l in t.runs ==> l in s.runs && t.runs[l] == s.runs[l])
    && (l in t.finished ==> l in s.finished && t.finished[l] == s.finished[l])
  }

  // Steps that commit nothing and leave all runs but k as they are.
  lemma QuietInv(s: State, t: State, k: nat)
    requires Inv(s) && SameHistory(s, t) && Entry(t, k)
    requires forall l: nat :: l != k ==> Unmoved(s, t, l)
    ensures Inv(t)
  {
    forall l: nat
      ensures Entry(t, l)
    {
      assert Entry(s, l);
      assert l != k ==> Unmoved(s, t, l);
    }
    forall v
      ensures VersionOk(t, v)
    {
      assert VersionOk(s, v);
    }
  }

  lemma DropInv(s: State, k: nat)
    requires Inv(s)
    ensures Inv(Without(s, k))
  {
    assert Entry(s, k);
    QuietInv(s, Without(s, k), k);
  }

  lemma SkipInv(s: State, k: nat)
    requires Inv(s) && Enabled(s, Skip(k))
    ensures Inv(Apply(s, Skip(k)))
  {
    assert Entry(s, k);
    QuietInv(s, Apply(s, Skip(k)), k);
  }

  lemma FinishInv(s: State, k: nat)
    requires Inv(s) && Enabled(s, Finish(k))
    ensures Inv(Apply(s, Finish(k)))
  {
    assert Entry(s, k);
    QuietInv(s, Apply(s, Finish(k)), k);
  }

  lemma StartInv(s: State)
    requires Inv(s)
    ensures Inv(Apply(s, Start))
  {
    assert Entry(s, s.nextRun);
    NoCommitsYet(s.commits, s.nextRun);
    QuietInv(s, Apply(s, Start), s.nextRun);
  }

  /** Every step preserves the invariant. */
  lemma StepInv(s: State, step: Step)
    requires Inv(s) && Enabled(s, step)
    ensures Inv(Apply(s, step))
  {
    match step
    case Start => StartInv(s);
    case Skip(k) => SkipInv(s, k);
    case Finish(k) => FinishInv(s, k);
    case ApplyNext(k, how) =>
      if TakesEffect(s, k, how) {
        CommitInv(s, k, how);
      } else {
        DropInv(s, k);
      }
    case Mismatch(k) => DropInv(s, k);
    case Crash(k) => DropInv(s, k);
  }

  // ---- Histories ----

  predicate ValidRun(s: State, steps: seq<Step>)
    decreases |steps|
  {
    steps == [] || (Enabled(s, steps[0]) && ValidRun(Apply(s, steps[0]), steps[1..]))
  }

  function Final(s: State, steps: seq<Step>): State
    requires ValidRun(s, steps)
    decreases |steps|
  {
    if steps == [] then s else Final(Apply(s, steps[0]), steps[1..])
  }

  lemma {:induction false} RunInv(s: State, steps: seq<Step>)
    requires Inv(s) && ValidRun(s, steps)
    ensures var t := Final(s, steps);
            Inv(t) && t.migs == s.migs && t.initial == s.initial
    decreases |steps|
  {
    if steps == [] {
    } else {
      StepInv(s, steps[0]);
      StepKeepsFiles(s, steps[0]);
      RunInv(Apply(s, steps[0]), steps[1..]);
    }
  }

  lemma StepKeepsFiles(s: State, step: Step)
    requires Enabled(s, step)
    ensures Apply(s, step).migs == s.migs && Apply(s, step).initial == s.initial
  {
  }

  lemma InitInv(s: State)
    requires Init(s)
    ensures Inv(s)
  {
  }

  /** Whatever was applied at first and however many nodes run, die or lag, the bodies that take effect
      are the missing ones in ascending order, without a gap and each once. */
  lemma CommitsInOrder(s: State, steps: seq<Step>)
    requires Init(s) && ValidRun(s, steps)
    ensures var log, missing := Log(Final(s, steps).commits), Missing(s.migs, s.initial);
            && log <= missing
            && (forall i, j :: 0 <= i < j < |log| ==> SortsBelow(log[i], log[j]) && log[i] != log[j])
            && (forall v :: v in missing <==> v !in s.initial && exists m :: m in s.migs && m.version == v)
  {
    InitInv(s);
    RunInv(s, steps);
    var log := Log(Final(s, steps).commits);
    forall i, j | 0 <= i < j < |log|
      ensures SortsBelow(log[i], log[j]) && log[i] != log[j]
    {
      MissingAscends(s.migs, s.initial, i, j);
      LessIff(log[i], log[j]);
    }
    forall v
      ensures v in Missing(s.migs, s.initial) <==> v !in s.initial && exists m :: m in s.migs && m.version == v
    {
      MissingMembers(s.migs, s.initial, v);
      VersionsAreNamed(s.migs, v);
    }
  }

  lemma VersionsAreNamed(migs: seq<Migration>, v: string)
    ensures v in Versions(migs) <==> exists m :: m in migs && m.version == v
  {
    if v in Versions(migs) {
      var i :| 0 <= i < |migs| && Versions(migs)[i] == v;
      assert migs[i] in migs;
    }
    if m :| m in migs && m.version == v {
      var i :| 0 <= i < |migs| && migs[i] == m;
      assert Versions(migs)[i] == v;
    }
  }

  // The applied versions are those of the first n migrations.
  ghost predicate AppliedPrefix(migs: seq<Migration>, t: Checksums, n: nat) {
    n <= |migs| && forall v :: v in t <==> v in Versions(migs[..n])
  }

  // The commits are the next migrations after the first n, and the applied set is a longer prefix.
  ghost predicate GrownFrom(migs: seq<Migration>, u: Checksums, log: seq<string>, n: nat) {
    n + |log| <= |migs| && log == Versions(migs[n..n + |log|]) && AppliedPrefix(migs, u, n + |log|)
  }

  /** An applied set that starts as a prefix of the sorted migrations always is one. */
  lemma AppliedStaysPrefix(s: State, steps: seq<Step>, n: nat)
    requires Init(s) && ValidRun(s, steps) && AppliedPrefix(s.migs, s.initial, n)
    ensures GrownFrom(s.migs, Final(s, steps).table, Log(Final(s, steps).commits), n)
  {
    InitInv(s);
    RunInv(s, steps);
    TableFromLog(Final(s, steps));
    PrefixGrows(s.migs, s.initial, Final(s, steps).table, n, Log(Final(s, steps).commits));
  }

  lemma TableFromLog(t: State)
    requires Inv(t)
    ensures forall v :: v in t.table <==> v in t.initial || v in Log(t.commits)
  {
    forall v
      ensures v in t.table <==> v in t.initial || v in Log(t.commits)
    {
      assert VersionOk(t, v);
    }
  }

  lemma PrefixGrows(migs: seq<Migration>, t: Checksums, u: Checksums, n: nat, log: seq<string>)
    requires Ascending(migs) && AppliedPrefix(migs, t, n) && log <= Missing(migs, t)
    requires forall v :: v in u <==> v in t || v in log
    ensures GrownFrom(migs, u, log, n)
  {
    MissingAfterPrefix(migs, t, n);
    NextVersions(migs, n, log);
    LongerPrefix(migs, t, u, n, log, n + |log|);
  }

  lemma LongerPrefix(migs: seq<Migration>, t: Checksums, u: Checksums, n: nat, log: seq<string>, m: nat)
    requires AppliedPrefix(migs, t, n) && m == n + |log| <= |migs| && log == Versions(migs[n..m])
    requires forall v :: v in u <==> v in t || v in log
    ensures AppliedPrefix(migs, u, m)
  {
    assert Versions(migs[..m]) == Versions(migs[..n]) + log;
  }

  lemma NextVersions(migs: seq<Migration>, n: nat, log: seq<string>)
    requires n <= |migs| && log <= Versions(migs[n..])
    ensures n + |log| <= |migs| && log == Versions(migs[n..n + |log|])
  {
    assert forall i :: 0 <= i < |log| ==> log[i] == Versions(migs[n..])[i];
  }

  lemma {:induction false} MissingAfterPrefix(migs: seq<Migration>, t: Checksums, n: nat)
    requires Ascending(migs) && AppliedPrefix(migs, t, n)
    ensures Missing(migs, t) == Versions(migs[n..])
    decreases |migs|
  {
    if n == |migs| {
      assert migs[..n] == migs;
      if Missing(migs, t) != [] {
        MissingMembers(migs, t, Missing(migs, t)[0]);
        assert false;
      }
    } else {
      var front, last := migs[..|migs| - 1], migs[|migs| - 1];
      assert front[..n] == migs[..n] && front[n..] + [last] == migs[n..];
      FrontAscends(migs);
      MissingAfterPrefix(front, t, n);
      NotYetThere(migs, |migs| - 1);
      assert last.version !in Versions(migs[..n]);
      assert Versions(migs[n..]) == Versions(front[n..]) + [last.version];
    }
  }

  /** Once any run has succeeded, after any number of failed, stopped or overtaken ones, the commits and
      the table are those of one undisturbed run, and every file is recorded with its own checksum. */
  lemma ResumedEqualsOneRun(s: State, steps: seq<Step>, k: nat)
    requires Init(s) && ValidRun(s, steps) && k in Final(s, steps).finished
    ensures var t := Final(s, steps);
            && Log(t.commits) == Missing(s.migs, s.initial)
            && t.table == Recording(s.migs, s.initial)
            && t.finished[k] == CommittedBy(t.commits, k)
            && AllRecorded(t)
  {
    InitInv(s);
    RunInv(s, steps);
    assert Entry(Final(s, steps), k);
    CompleteState(Final(s, steps));
  }

  lemma CompleteState(t: State)
    requires Inv(t) && AllRecorded(t)
    ensures Log(t.commits) == Missing(t.migs, t.initial)
    ensures t.table == Recording(t.migs, t.initial)
  {
    var log, all := Log(t.commits), Missing(t.migs, t.initial);
    if |log| < |all| {
      MissingMembers(t.migs, t.initial, all[|log|]);
      assert VersionOk(t, all[|log|]);
      var i :| 0 <= i < |t.migs| && t.migs[i].version == all[|log|];
      assert HasOwn(t.table, t.migs[i]);
      var j :| 0 <= j < |log| && log[j] == all[|log|];
      MissingAscends(t.migs, t.initial, j, |log|);
    }
    forall v
      ensures v in t.table <==> v in Recording(t.migs, t.initial)
      ensures v in t.table ==> t.table[v] == Recording(t.migs, t.initial)[v]
    {
      SameRecord(t, v);
    }
  }

  lemma SameRecord(t: State, v: string)
    requires Inv(t) && Log(t.commits) == Missing(t.migs, t.initial)
    ensures v in t.table <==> v in Recording(t.migs, t.initial)
    ensures v in t.table ==> t.table[v] == Recording(t.migs, t.initial)[v]
  {
    MissingMembers(t.migs, t.initial, v);
    RecordingKeys(t.migs, t.initial, v);
    assert VersionOk(t, v);
    if v in Log(t.commits) {
      var i :| 0 <= i < |t.migs| && t.migs[i].version == v;
      RecordingOwn(t.migs, t.initial, i);
    }
  }

  // Runs that started at or after `first` see the complete table.
  ghost predicate Settled(s: State, first: nat) {
    && first <= s.nextRun
    && AllRecorded(s)
    && (forall k :: k in s.runs && k >= first ==> s.runs[k].snapshot == s.table)
  }

  lemma StepSettled(s: State, step: Step, first: nat)
    requires Inv(s) && Settled(s, first) && Enabled(s, step)
    ensures Settled(Apply(s, step), first)
    ensures Apply(s, step).commits == s.commits && Apply(s, step).table == s.table
    ensures step.ApplyNext? || step.Mismatch? ==> step.run < first
  {
    if step.ApplyNext? || step.Mismatch? {
      assert Current(s, step.run) in s.migs;
      assert HasOwn(s.table, Current(s, step.run));
    }
  }

  /** After a success nothing is left to do: no step of any run commits anything, and a run started
      later never applies or rejects a migration and returns nothing. */
  lemma {:induction false} NothingLeft(s: State, steps: seq<Step>, first: nat)
    requires Inv(s) && Settled(s, first) && ValidRun(s, steps)
    ensures var t := Final(s, steps);
            && t.commits == s.commits && t.table == s.table
            && (forall i :: 0 <= i < |steps| && (steps[i].ApplyNext? || steps[i].Mismatch?) ==> steps[i].run < first)
    decreases |steps|
  {
    if steps == [] {
    } else {
      StepInv(s, steps[0]);
      StepSettled(s, steps[0], first);
      NothingLeft(Apply(s, steps[0]), steps[1..], first);
      forall i | 0 <= i < |steps| && (steps[i].ApplyNext? || steps[i].Mismatch?)
        ensures steps[i].run < first
      {
        assert i > 0 ==> steps[i] == steps[1..][i - 1];
      }
    }
  }

  lemma LaterRunsApplyNothing(s: State, before: seq<Step>, after: seq<Step>, k: nat, l: nat)
    requires Init(s) && ValidRun(s, before) && k in Final(s, before).finished
    requires ValidRun(Final(s, before), after) && l in Final(Final(s, before), after).finished
    requires l >= Final(s, before).nextRun
    ensures var u, t := Final(s, before), Final(Final(s, before), after);
            && t.commits == u.commits && t.table == u.table && t.finished[l] == []
            && (forall i :: 0 <= i < |after| && (after[i].ApplyNext? || after[i].Mismatch?) ==>
                 after[i].run < u.nextRun)
  {
    var u := Final(s, before);
    InitInv(s);
    RunInv(s, before);
    assert Entry(u, k);
    assert forall r: nat :: r in u.runs ==> Entry(u, r);
    assert Settled(u, u.nextRun);
    NothingLeft(u, after, u.nextRun);
    RunInv(u, after);
    assert Entry(Final(u, after), l);
    NoCommitsYet(u.commits, l);
  }

  // ---- Changed files ----

  predicate Drifted(t: Checksums, m: Migration) {
    m.version in t && t[m.version] != m.checksum
  }

  // Nothing the run still has to apply has been applied by others.
  ghost predicate Undisturbed(s: State, k: nat)
    requires k in s.runs
  {
    forall i :: s.runs[k].next <= i < |s.migs| && s.migs[i].version !in s.runs[k].snapshot ==>
      s.migs[i].version !in s.table
  }

  // A run can go on to the end when nothing it still has to pass has drifted, and nothing it has to
  // apply is applied by others meanwhile.
  lemma {:induction false} Completes(s: State, k: nat) returns (steps: seq<Step>)
    requires Inv(s) && k in s.runs
    requires forall m :: m in s.migs ==> !Drifted(s.table, m)
    requires Undisturbed(s, k)
    ensures ValidRun(s, steps) && k in Final(s, steps).finished
    decreases |s.migs| - s.runs[k].next
  {
    assert Entry(s, k);
    if s.runs[k].next == |s.migs| {
      steps := [Finish(k)];
      assert ValidRun(Apply(s, steps[0]), steps[1..]);
    } else {
      var m := Current(s, k);
      var step := if m.version in s.runs[k].snapshot then Skip(k) else ApplyNext(k, Commits);
      assert m in s.migs && !Drifted(s.table, m);
      var t := Apply(s, step);
      StepInv(s, step);
      AdvanceKeeps(s, k, step);
      var rest := Completes(t, k);
      steps := [step] + rest;
      assert steps[1..] == rest;
    }
  }

  lemma AdvanceKeeps(s: State, k: nat, step: Step)
    requires Inv(s) && At(s, k) && Enabled(s, step) && (step == Skip(k) || step == ApplyNext(k, Commits))
    requires forall m :: m in s.migs ==> !Drifted(s.table, m)
    requires Undisturbed(s, k)
    ensures var t := Apply(s, step);
            && k in t.runs && t.runs[k].next == s.runs[k].next + 1 && t.runs[k].snapshot == s.runs[k].snapshot
            && (forall m :: m in t.migs ==> !Drifted(t.table, m))
            && Undisturbed(t, k)
  {
    var t, next := Apply(s, step), s.runs[k].next;
    forall m | m in t.migs
      ensures !Drifted(t.table, m)
    {
      var i :| 0 <= i < |s.migs| && s.migs[i] == m;
      assert !Drifted(s.table, m);
      OwnOrOther(s, k, i);
    }
    forall i | next < i < |t.migs|
      ensures t.migs[i].version != Current(s, k).version
    {
      Ordered(t.migs, next, i);
    }
  }

  /** Some history ends in success exactly when no file's checksum differs from the recorded one. */
  lemma SuccessIffNoDrift(s: State)
    requires Init(s)
    ensures (exists steps, k :: ValidRun(s, steps) && k in Final(s, steps).finished)
       <==> forall m :: m in s.migs && m.version in s.initial ==> s.initial[m.version] == m.checksum
  {
    InitInv(s);
    assert (forall m :: m in s.migs ==> !Drifted(s.initial, m)) <==>
      forall m :: m in s.migs && m.version in s.initial ==> s.initial[m.version] == m.checksum;
    if steps, k :| ValidRun(s, steps) && k in Final(s, steps).finished {
      RunInv(s, steps);
      var t := Final(s, steps);
      forall m | m in s.migs
        ensures !Drifted(s.initial, m)
      {
        assert Entry(t, k) && HasOwn(t.table, m) && VersionOk(t, m.version);
      }
    }
    if forall m :: m in s.migs ==> !Drifted(s.initial, m) {
      var t := Apply(s, Start);
      StepInv(s, Start);
      var rest := Completes(t, s.nextRun);
      var steps := [Start] + rest;
      assert steps[1..] == rest;
      assert ValidRun(s, steps) && s.nextRun in Final(s, steps).finished;
    }
  }
}
