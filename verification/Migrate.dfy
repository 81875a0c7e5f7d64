/** Migration files in version order. */
module MigrationFiles {
  import opened Documents

  datatype Migration = Migration(version: string, body: string, checksum: string)

  // A directory entry; content is what reading the file yields.
  datatype File = File(name: string, isDir: bool, content: Result<string>)

  const SUFFIX := ".sql"

  // Byte order of UTF-8 text is the order of its code points.
  predicate Less(a: string, b: string) {
    b != [] && (a == [] || a[0] < b[0] || (a[0] == b[0] && Less(a[1..], b[1..])))
  }

  // a comes before b as text: where they part, a has ended or has the smaller character.
  ghost predicate SortsBelow(a: string, b: string) {
    exists k :: 0 <= k <= |a| && k < |b| && a[..k] == b[..k] && (k == |a| || a[k] < b[k])
  }

  /** The comparison the sort uses is that order. */
  lemma {:induction false} LessIff(a: string, b: string)
    ensures Less(a, b) <==> exists k :: 0 <= k <= |a| && k < |b| && a[..k] == b[..k] && (k == |a| || a[k] < b[k])
  {
    if a == [] || b == [] || a[0] != b[0] {
      PartAtOnce(a, b);
    } else {
      LessIff(a[1..], b[1..]);
      if SortsBelow(a[1..], b[1..]) {
        var k :| 0 <= k <= |a[1..]| && k < |b[1..]| && a[1..][..k] == b[1..][..k]
                 && (k == |a[1..]| || a[1..][k] < b[1..][k]);
        assert a[..k + 1] == [a[0]] + a[1..][..k] && b[..k + 1] == [b[0]] + b[1..][..k];
        PartsAt(a, b, k + 1);
      }
      if SortsBelow(a, b) {
        var k :| 0 <= k <= |a| && k < |b| && a[..k] == b[..k] && (k == |a| || a[k] < b[k]);
        assert k > 0;
        assert a[1..][..k - 1] == a[..k][1..] && b[1..][..k - 1] == b[..k][1..];
        PartsAt(a[1..], b[1..], k - 1);
      }
    }
  }

  lemma PartsAt(a: string, b: string, k: nat)
    requires k <= |a| && k < |b| && a[..k] == b[..k] && (k == |a| || a[k] < b[k])
    ensures SortsBelow(a, b)
  {
  }

  lemma PartAtOnce(a: string, b: string)
    requires a == [] || b == [] || a[0] != b[0]
    ensures SortsBelow(a, b) <==> b != [] && (a == [] || a[0] < b[0])
  {
    if b != [] && (a == [] || a[0] < b[0]) {
      PartsAt(a, b, 0);
    }
    if SortsBelow(a, b) {
      var k :| 0 <= k <= |a| && k < |b| && a[..k] == b[..k] && (k == |a| || a[k] < b[k]);
      SameFirst(a, b, k);
    }
  }

  lemma SameFirst(a: string, b: string, k: nat)
    requires k <= |a| && k < |b| && a[..k] == b[..k]
    ensures k > 0 ==> a[0] == b[0]
  {
    if k > 0 {
      assert a[..k][0] == b[..k][0];
    }
  }

  predicate AtMost(x: Migration, y: Migration) {
    !Less(y.version, x.version)
  }

  ghost predicate Ascending(migs: seq<Migration>) {
    forall i: nat, j: nat :: i < j < |migs| ==> InOrder(migs, i, j)
  }

  predicate InOrder(migs: seq<Migration>, i: nat, j: nat)
    requires i < |migs| && j < |migs|
  {
    Less(migs[i].version, migs[j].version)
  }

  // A migration file, and the version it names.
  predicate Names(f: File, version: string) {
    !f.isDir && f.name == version + ".sql"
  }

  // Migrations sorted by version, one for each migration file, with its body and checksum.
  ghost predicate IsPlan(migs: seq<Migration>, files: seq<File>, sum: string -> string) {
    && (forall p, q :: 0 <= p < q < |migs| ==> SortsBelow(migs[p].version, migs[q].version))
    && (forall m :: m in migs ==> m.checksum == sum(m.body) && HasFile(files, m))
    && (forall f :: f in files ==> HasMigration(migs, f))
  }

  ghost predicate HasFile(files: seq<File>, m: Migration) {
    exists f :: f in files && Names(f, m.version) && f.content == Ok(m.body)
  }

  ghost predicate HasMigration(migs: seq<Migration>, f: File) {
    forall v: string :: Names(f, v) ==>
      exists i :: 0 <= i < |migs| && migs[i].version == v && f.content == Ok(migs[i].body)
  }

  lemma LoadedIsPlan(migs: seq<Migration>, files: seq<File>, sum: string -> string)
    requires Ascending(migs) && Elements(migs) == Listed(files, sum) && forall f :: f in files ==> Readable(f)
    ensures IsPlan(migs, files, sum)
  {
    forall p, q | 0 <= p < q < |migs|
      ensures SortsBelow(migs[p].version, migs[q].version)
    {
      Ordered(migs, p, q);
      LessIff(migs[p].version, migs[q].version);
    }
    forall m | m in migs
      ensures m.checksum == sum(m.body) && HasFile(files, m)
    {
      assert m in Elements(migs);
      var f :| f in files && Selected(f) && f.content.Ok? && MigrationOf(f, sum) == m;
      assert f.name == VersionOf(f) + SUFFIX;
    }
    forall f | f in files
      ensures HasMigration(migs, f)
    {
      ListedHasMigration(migs, files, sum, f);
    }
  }

  lemma ListedHasMigration(migs: seq<Migration>, files: seq<File>, sum: string -> string, f: File)
    requires Elements(migs) == Listed(files, sum) && f in files && Readable(f)
    ensures HasMigration(migs, f)
  {
    forall v: string | Names(f, v)
      ensures exists i :: 0 <= i < |migs| && migs[i].version == v && f.content == Ok(migs[i].body)
    {
      assert f.name[|f.name| - |SUFFIX|..] == SUFFIX && f.name[..|f.name| - |SUFFIX|] == v;
      assert MigrationOf(f, sum) in Elements(migs);
      var i :| 0 <= i < |migs| && migs[i] == MigrationOf(f, sum);
    }
  }

  predicate Selected(f: File) {
    !f.isDir && |f.name| >= |SUFFIX| && f.name[|f.name| - |SUFFIX|..] == SUFFIX
  }

  predicate Readable(f: File) {
    Selected(f) ==> f.content.Ok?
  }

  function VersionOf(f: File): string
    requires Selected(f)
  {
    f.name[..|f.name| - |SUFFIX|]
  }

  function MigrationOf(f: File, sum: string -> string): Migration
    requires Selected(f) && f.content.Ok?
  {
    Migration(VersionOf(f), f.content.value, sum(f.content.value))
  }

  // The migrations among the given files.
  function Listed(files: seq<File>, sum: string -> string): set<Migration> {
    set f | f in files && Selected(f) && f.content.Ok? :: MigrationOf(f, sum)
  }

  ghost predicate DistinctNames(files: seq<File>) {
    forall i, j :: 0 <= i < j < |files| ==> files[i].name != files[j].name
  }

  lemma {:induction false} LessIrreflexive(a: string)
    ensures !Less(a, a)
  {
    if a == [] {
    } else {
      LessIrreflexive(a[1..]);
    }
  }

  lemma {:induction false} LessTransitive(a: string, b: string, c: string)
    requires Less(a, b) && Less(b, c)
    ensures Less(a, c)
  {
    if a == [] || a[0] < b[0] || b[0] < c[0] {
    } else {
      LessTransitive(a[1..], b[1..], c[1..]);
    }
  }

  lemma {:induction false} LessTotal(a: string, b: string)
    ensures a == b || Less(a, b) || Less(b, a)
  {
    if a == [] || b == [] || a[0] != b[0] {
    } else {
      LessTotal(a[1..], b[1..]);
      assert a == [a[0]] + a[1..] && b == [b[0]] + b[1..];
    }
  }

  lemma Ordered(migs: seq<Migration>, i: nat, j: nat)
    requires Ascending(migs) && i < j < |migs|
    ensures Less(migs[i].version, migs[j].version) && migs[i].version != migs[j].version
  {
    assert InOrder(migs, i, j);
    LessIrreflexive(migs[i].version);
  }

  lemma FrontAscends(migs: seq<Migration>)
    requires migs != [] && Ascending(migs)
    ensures Ascending(migs[..|migs| - 1])
  {
    var front := migs[..|migs| - 1];
    forall i: nat, j: nat | i < j < |front|
      ensures InOrder(front, i, j)
    {
      assert InOrder(migs, i, j);
    }
  }

  lemma TailAscends(migs: seq<Migration>)
    requires migs != [] && Ascending(migs)
    ensures Ascending(migs[1..])
  {
    var tail := migs[1..];
    forall i: nat, j: nat | i < j < |tail|
      ensures InOrder(tail, i, j)
    {
      var k, l := i + 1, j + 1;
      assert InOrder(migs, k, l);
    }
  }

  lemma AtMostTransitive(x: Migration, y: Migration, z: Migration)
    requires AtMost(x, y) && AtMost(y, z)
    ensures AtMost(x, z)
  {
    var a, b, c := x.version, y.version, z.version;
    LessTotal(a, b);
    LessTotal(b, c);
    if Less(c, a) {
      if a != b && b != c {
        LessTransitive(a, b, c);
        LessTransitive(a, c, a);
        LessIrreflexive(a);
      }
    }
  }

  lemma {:induction false} PrefixLess(p: string, a: string, b: string)
    ensures Less(p + a, p + b) <==> Less(a, b)
  {
    if p == [] {
      assert p + a == a && p + b == b;
    } else {
      PrefixLess(p[1..], a, b);
      assert (p + a)[1..] == p[1..] + a && (p + b)[1..] == p[1..] + b;
    }
  }

  lemma {:induction false} ApartLess(v: string, w: string, a: string, b: string)
    requires !(v <= w) && !(w <= v)
    ensures Less(v + a, w + b) <==> Less(v, w)
  {
    assert (v + a)[0] == v[0] && (w + b)[0] == w[0];
    if v[0] == w[0] {
      assert v == [v[0]] + v[1..] && w == [w[0]] + w[1..];
      ApartLess(v[1..], w[1..], a, b);
      assert (v + a)[1..] == v[1..] + a && (w + b)[1..] == w[1..] + b;
    }
  }

  // The longer version continues the shorter one, with something that sorts before the suffix.
  predicate Continues(short: string, long: string) {
    short < long && Less(long[|short|..] + SUFFIX, SUFFIX)
  }

  lemma ContinuedOrder(short: string, long: string)
    requires short < long
    ensures Less(short, long) && !Less(long, short)
    ensures Less(short + SUFFIX, long + SUFFIX) <==> !Continues(short, long)
    ensures Less(long + SUFFIX, short + SUFFIX) <==> Continues(short, long)
  {
    var t := long[|short|..];
    assert short + t == long && short + (t + SUFFIX) == long + SUFFIX && short + "" == short;
    PrefixLess(short, "", t);
    PrefixLess(short, t, "");
    PrefixLess(short, SUFFIX, t + SUFFIX);
    PrefixLess(short, t + SUFFIX, SUFFIX);
    LessTotal(SUFFIX, t + SUFFIX);
    if Less(SUFFIX, t + SUFFIX) && Less(t + SUFFIX, SUFFIX) {
      LessTransitive(SUFFIX, t + SUFFIX, SUFFIX);
      LessIrreflexive(SUFFIX);
    }
  }

  /** Two migrations sort differently by file name and by version exactly when one version continues the
      other with something below the suffix. */
  lemma NameOrderDiffersIff(v: string, w: string)
    ensures (Less(v + SUFFIX, w + SUFFIX) <==> Less(v, w)) <==> !Continues(v, w) && !Continues(w, v)
  {
    if v == w {
      LessIrreflexive(v);
      LessIrreflexive(v + SUFFIX);
    } else if v < w {
      ContinuedOrder(v, w);
      assert !(w < v);
    } else if w < v {
      ContinuedOrder(w, v);
    } else {
      ApartLess(v, w, SUFFIX, SUFFIX);
    }
  }

  lemma VersionDeterminesName(f: File, g: File)
    requires Selected(f) && Selected(g) && VersionOf(f) == VersionOf(g)
    ensures f.name == g.name
  {
    assert f.name == VersionOf(f) + SUFFIX && g.name == VersionOf(g) + SUFFIX;
  }

  /** The order leaves no choice: the same files always load as the same list. */
  lemma {:induction false} AscendingUnique(a: seq<Migration>, b: seq<Migration>)
    requires Ascending(a) && Ascending(b) && Elements(a) == Elements(b)
    ensures a == b
  {
    if a == [] || b == [] {
      EmptyElements(a);
      EmptyElements(b);
    } else {
      LeastIsFirst(a, b);
      LeastIsFirst(b, a);
      SameHead(a, b);
      TailElements(a);
      TailElements(b);
      TailAscends(a);
      TailAscends(b);
      AscendingUnique(a[1..], b[1..]);
    }
  }

  lemma EmptyElements(a: seq<Migration>)
    ensures Elements(a) == {} <==> a == []
  {
    if a != [] {
      assert a[0] in Elements(a);
    }
  }

  // The first of one list is nowhere above the first of the other.
  lemma LeastIsFirst(a: seq<Migration>, b: seq<Migration>)
    requires a != [] && b != [] && Ascending(b) && Elements(a) == Elements(b)
    ensures a[0] == b[0] || Less(b[0].version, a[0].version)
  {
    assert a[0] in Elements(b);
    var j :| 0 <= j < |b| && b[j] == a[0];
    if j > 0 {
      Ordered(b, 0, j);
    }
  }

  lemma SameHead(a: seq<Migration>, b: seq<Migration>)
    requires a != [] && b != []
    requires a[0] == b[0] || Less(b[0].version, a[0].version)
    requires a[0] == b[0] || Less(a[0].version, b[0].version)
    ensures a[0] == b[0]
  {
    if a[0] != b[0] {
      LessTransitive(a[0].version, b[0].version, a[0].version);
      LessIrreflexive(a[0].version);
    }
  }

  lemma TailElements(a: seq<Migration>)
    requires a != [] && Ascending(a)
    ensures Elements(a[1..]) == Elements(a) - {a[0]}
  {
    forall m
      ensures m in Elements(a[1..]) <==> m in Elements(a) - {a[0]}
    {
      if m in a && m != a[0] {
        var i :| 0 <= i < |a| && a[i] == m;
        assert a[1..][i - 1] == m;
      }
      if m in a[1..] {
        var i :| 0 <= i < |a| - 1 && a[1..][i] == m;
        Ordered(a, 0, i + 1);
      }
    }
  }

  method SortByVersion(a: array<Migration>)
    modifies a
    ensures multiset(a[..]) == multiset(old(a[..]))
    ensures forall p, q :: 0 <= p < q < a.Length ==> AtMost(a[p], a[q])
    ensures forall p, q :: 0 <= p < q < a.Length ==>
      a[p].version == a[q].version || SortsBelow(a[p].version, a[q].version)
  {
    var i := 0;
    while i < a.Length
      invariant 0 <= i <= a.Length
      invariant multiset(a[..]) == multiset(old(a[..]))
      invariant forall p, q :: 0 <= p < q < i ==> AtMost(a[p], a[q])
    {
      SinkInto(a, i);
      i := i + 1;
    }
    forall p, q | 0 <= p < q < a.Length
      ensures a[p].version == a[q].version || SortsBelow(a[p].version, a[q].version)
    {
      AtMostSorts(a[p], a[q]);
    }
  }

  lemma AtMostSorts(x: Migration, y: Migration)
    requires AtMost(x, y)
    ensures x.version == y.version || SortsBelow(x.version, y.version)
  {
    LessTotal(x.version, y.version);
    LessIff(x.version, y.version);
  }

  // The first n + 1 elements are in order, the one at j not yet compared with those before it.
  ghost predicate SortedExcept(s: seq<Migration>, n: nat, j: nat)
    requires j <= n < |s|
  {
    && (forall p, q :: 0 <= p < q <= n && p != j && q != j ==> AtMost(s[p], s[q]))
    && (forall q :: j < q <= n ==> AtMost(s[j], s[q]))
  }

  function Swapped(s: seq<Migration>, j: nat): seq<Migration>
    requires 0 < j < |s|
  {
    s[j := s[j - 1]][j - 1 := s[j]]
  }

  lemma SwapSinks(s: seq<Migration>, n: nat, j: nat)
    requires 0 < j <= n < |s| && SortedExcept(s, n, j) && Less(s[j].version, s[j - 1].version)
    ensures SortedExcept(Swapped(s, j), n, j - 1)
    ensures multiset(Swapped(s, j)) == multiset(s)
  {
    var t := Swapped(s, j);
    NotBothLess(s[j], s[j - 1]);
    forall p, q | 0 <= p < q <= n && p != j - 1 && q != j - 1
      ensures AtMost(t[p], t[q])
    {
      assert t[p] == (if p == j then s[j - 1] else s[p]) && t[q] == (if q == j then s[j - 1] else s[q]);
    }
  }

  // Moves element n down to its place among the sorted ones before it.
  method SinkInto(a: array<Migration>, n: nat)
    requires n < a.Length
    requires forall p, q :: 0 <= p < q < n ==> AtMost(a[p], a[q])
    modifies a
    ensures multiset(a[..]) == multiset(old(a[..]))
    ensures forall p, q :: 0 <= p < q <= n ==> AtMost(a[p], a[q])
  {
    var j := n;
    while j > 0 && Less(a[j].version, a[j - 1].version)
      invariant 0 <= j <= n
      invariant multiset(a[..]) == multiset(old(a[..]))
      invariant SortedExcept(a[..], n, j)
    {
      ghost var s := a[..];
      SwapSinks(s, n, j);
      a[j], a[j - 1] := a[j - 1], a[j];
      assert a[..] == Swapped(s, j);
      j := j - 1;
    }
    SunkIsSorted(a[..], n, j);
    assert forall p :: 0 <= p <= n ==> a[..][p] == a[p];
  }

  lemma SunkIsSorted(s: seq<Migration>, n: nat, j: nat)
    requires j <= n < |s| && SortedExcept(s, n, j)
    requires j > 0 ==> AtMost(s[j - 1], s[j])
    ensures forall p, q :: 0 <= p < q <= n ==> AtMost(s[p], s[q])
  {
    forall p | 0 <= p < j
      ensures AtMost(s[p], s[j])
    {
      if p < j - 1 {
        AtMostTransitive(s[p], s[j - 1], s[j]);
      }
    }
  }

  lemma NotBothLess(x: Migration, y: Migration)
    requires Less(x.version, y.version)
    ensures AtMost(x, y)
  {
    if Less(y.version, x.version) {
      LessTransitive(x.version, y.version, x.version);
      LessIrreflexive(x.version);
    }
  }

  /** Reads every migration file of the directory and sorts by version; the first unreadable file ends it. */
  method Load(files: seq<File>, sum: string -> string) returns (r: Result<seq<Migration>>)
    requires DistinctNames(files)
    ensures r.Ok? <==> forall f :: f in files ==> Readable(f)
    ensures r.Ok? ==> Ascending(r.value) && Elements(r.value) == Listed(files, sum)
    ensures r.Ok? ==> IsPlan(r.value, files, sum)
    ensures r.Ok? <==> forall f, v :: f in files && Names(f, v) ==> f.content.Ok?
    ensures r.Err? ==> exists i :: 0 <= i < |files| && !Readable(files[i]) && files[i].content == Err(r.error)
                                && forall f :: f in files[..i] ==> Readable(f)
  {
    var out: seq<Migration> := [];
    var i := 0;
    while i < |files|
      invariant 0 <= i <= |files|
      invariant forall f :: f in files[..i] ==> Readable(f)
      invariant Elements(out) == Listed(files[..i], sum)
      invariant ScannedVersions(files[..i], out)
    {
      assert files[..i + 1] == files[..i] + [files[i]];
      if !Readable(files[i]) {
        assert files[i].name == VersionOf(files[i]) + SUFFIX && Names(files[i], VersionOf(files[i]));
        return Err(files[i].content.error);
      }
      if Selected(files[i]) {
        var m := MigrationOf(files[i], sum);
        NextVersion(files, i, out);
        assert Elements(out + [m]) == Elements(out) + {m};
        out := out + [m];
      }
      i := i + 1;
    }
    assert files[..i] == files;
    var a := new Migration[|out|](k requires 0 <= k < |out| => out[k]);
    assert a[..] == out;
    SortByVersion(a);
    SortedIsAscending(out, a[..]);
    LoadedIsPlan(a[..], files, sum);
    r := Ok(a[..]);
  }

  ghost predicate DistinctVersions(migs: seq<Migration>) {
    forall i, j :: 0 <= i < j < |migs| ==> migs[i].version != migs[j].version
  }

  // What has been read carries distinct versions, each that of a file already seen.
  ghost predicate ScannedVersions(files: seq<File>, out: seq<Migration>) {
    && DistinctVersions(out)
    && (forall m :: m in out ==> exists f :: f in files && Selected(f) && VersionOf(f) == m.version)
  }

  lemma NextVersion(files: seq<File>, i: nat, out: seq<Migration>)
    requires i < |files| && DistinctNames(files) && ScannedVersions(files[..i], out) && Selected(files[i])
    ensures forall m :: m in out ==> m.version != VersionOf(files[i])
  {
    forall m | m in out
      ensures m.version != VersionOf(files[i])
    {
      var f :| f in files[..i] && Selected(f) && VersionOf(f) == m.version;
      if VersionOf(f) == VersionOf(files[i]) {
        VersionDeterminesName(f, files[i]);
      }
    }
  }

  lemma SortedIsAscending(out: seq<Migration>, sorted: seq<Migration>)
    requires DistinctVersions(out) && multiset(out) == multiset(sorted)
    requires forall p, q :: 0 <= p < q < |sorted| ==> AtMost(sorted[p], sorted[q])
    ensures Ascending(sorted) && Elements(sorted) == Elements(out)
  {
    forall m
      ensures m in sorted <==> m in out
    {
      assert m in sorted <==> m in multiset(sorted);
      assert m in out <==> m in multiset(out);
    }
    forall p: nat, q: nat | p < q < |sorted|
      ensures InOrder(sorted, p, q)
    {
      PermutedDistinct(out, sorted, p, q);
      LessTotal(sorted[p].version, sorted[q].version);
    }
  }

  lemma PermutedDistinct(out: seq<Migration>, sorted: seq<Migration>, p: nat, q: nat)
    requires DistinctVersions(out) && multiset(out) == multiset(sorted) && p < q < |sorted|
    ensures sorted[p].version != sorted[q].version
  {
    var x, y := sorted[p], sorted[q];
    assert x in multiset(out) && y in multiset(out);
    if x == y {
      TwiceCounted(sorted, p, q);
      OnlyOnce(out, x);
    } else {
      var i :| 0 <= i < |out| && out[i] == x;
      var j :| 0 <= j < |out| && out[j] == y;
      assert i < j || j < i;
    }
  }

  lemma TwiceCounted(s: seq<Migration>, p: nat, q: nat)
    requires p < q < |s| && s[p] == s[q]
    ensures multiset(s)[s[p]] >= 2
  {
    assert s == s[..p] + [s[p]] + s[p + 1..q] + [s[q]] + s[q + 1..];
  }

  lemma {:induction false} OnlyOnce(out: seq<Migration>, x: Migration)
    requires DistinctVersions(out)
    ensures multiset(out)[x] <= 1
  {
    if out == [] {
    } else {
      var front, last := out[..|out| - 1], out[|out| - 1];
      OnlyOnce(front, x);
      assert out == front + [last];
      if last == x {
        assert x !in front;
      }
    }
  }
}

/** One migration run that nothing else interleaves with. */
module MigrationRun {
  import opened Documents
  import opened MigrationFiles

  type Checksums = map<string, string>

  // How the transaction of one migration goes. An unacknowledged commit took effect but reads as a failure.
  datatype Attempt = Commits | Unacked(error: string) | Fails(error: string)

  // The migrations whose transaction meets trouble; all others commit.
  type Trouble = map<string, Attempt>

  function How(trouble: Trouble, version: string): Attempt {
    if version in trouble then trouble[version] else Commits
  }

  function Versions(migs: seq<Migration>): (vs: seq<string>)
    ensures |vs| == |migs|
    ensures forall i :: 0 <= i < |vs| ==> vs[i] == migs[i].version
  {
    seq(|migs|, i requires 0 <= i < |migs| => migs[i].version)
  }

  // The versions a run over these migrations finds unrecorded, in order.
  function Missing(migs: seq<Migration>, t: Checksums): seq<string> {
    if migs == [] then []
    else
      var before, last := Missing(migs[..|migs| - 1], t), migs[|migs| - 1].version;
      if last in t then before else before + [last]
  }

  // The table once all these migrations are recorded; what was recorded before stays.
  function Recording(migs: seq<Migration>, t: Checksums): Checksums {
    if migs == [] then t
    else
      var before, last := Recording(migs[..|migs| - 1], t), migs[|migs| - 1];
      if last.version in before then before else before[last.version := last.checksum]
  }

  // A migration a run gets past: recorded with its own checksum, or applied now.
  predicate Passes(t: Checksums, trouble: Trouble, m: Migration) {
    if m.version in t then t[m.version] == m.checksum else How(trouble, m.version) == Commits
  }

  ghost predicate IsTable(t: Checksums, rows: seq<(string, string)>) {
    && (forall i :: 0 <= i < |rows| ==> rows[i].0 in t && t[rows[i].0] == rows[i].1)
    && (forall v :: v in t ==> (v, t[v]) in rows)
  }

  lemma {:induction false} RecordingKeys(migs: seq<Migration>, t: Checksums, v: string)
    ensures v in Recording(migs, t) <==> v in t || v in Versions(migs)
    ensures v in t ==> Recording(migs, t)[v] == t[v]
  {
    if migs == [] {
    } else {
      var front, last := migs[..|migs| - 1], migs[|migs| - 1];
      RecordingKeys(front, t, v);
      assert Versions(migs) == Versions(front) + [last.version];
    }
  }

  /** Recording a list of migrations leaves each with its own checksum, unless it had one already. */
  lemma {:induction false} RecordingOwn(migs: seq<Migration>, t: Checksums, i: nat)
    requires Ascending(migs) && i < |migs|
    ensures var v := migs[i].version;
            v in Recording(migs, t) && Recording(migs, t)[v] == if v in t then t[v] else migs[i].checksum
    decreases |migs|
  {
    var front, last := migs[..|migs| - 1], migs[|migs| - 1];
    if i < |migs| - 1 {
      Ordered(migs, i, |migs| - 1);
      FrontAscends(migs);
      RecordingOwn(front, t, i);
    } else {
      NotYetThere(migs, i);
      RecordingKeys(front, t, last.version);
    }
  }

  lemma NotYetThere(migs: seq<Migration>, i: nat)
    requires Ascending(migs) && i < |migs|
    ensures migs[i].version !in Versions(migs[..i])
  {
    forall k: nat | k < i
      ensures migs[k].version != migs[i].version
    {
      Ordered(migs, k, i);
    }
  }

  // Getting past one more migration.
  lemma RecordingNext(migs: seq<Migration>, i: nat, t: Checksums)
    requires Ascending(migs) && i < |migs|
    ensures var v, before := migs[i].version, Recording(migs[..i], t);
            && (v in before <==> v in t)
            && Recording(migs[..i + 1], t) == (if v in t then before else before[v := migs[i].checksum])
            && Missing(migs[..i + 1], t) == Missing(migs[..i], t) + (if v in t then [] else [v])
  {
    assert migs[..i + 1][..i] == migs[..i];
    NotYetThere(migs, i);
    RecordingKeys(migs[..i], t, migs[i].version);
  }

  lemma {:induction false} MissingMembers(migs: seq<Migration>, t: Checksums, v: string)
    ensures v in Missing(migs, t) <==> v in Versions(migs) && v !in t
  {
    if migs == [] {
    } else {
      var front, last := migs[..|migs| - 1], migs[|migs| - 1];
      MissingMembers(front, t, v);
      assert Versions(migs) == Versions(front) + [last.version];
    }
  }

  lemma {:induction false} MissingAscends(migs: seq<Migration>, t: Checksums, i: nat, j: nat)
    requires Ascending(migs) && i < j < |Missing(migs, t)|
    ensures Less(Missing(migs, t)[i], Missing(migs, t)[j]) && Missing(migs, t)[i] != Missing(migs, t)[j]
    decreases |migs|
  {
    var front, last := migs[..|migs| - 1], migs[|migs| - 1];
    var before := Missing(front, t);
    if j < |before| {
      FrontAscends(migs);
      MissingAscends(front, t, i, j);
    } else {
      MissingMembers(front, t, before[i]);
      var k: nat :| k < |front| && front[k].version == before[i];
      Ordered(migs, k, |migs| - 1);
    }
  }

  // Recorded by a run with the checksum of a file that names this version.
  ghost predicate FromFile(files: seq<File>, sum: string -> string, version: string, checksum: string) {
    exists f :: f in files && Names(f, version) && f.content.Ok? && checksum == sum(f.content.value)
  }

  ghost predicate BelowSome(version: string, versions: seq<string>) {
    exists w :: w in versions && SortsBelow(version, w)
  }

  // The versions `added` took effect: each once, in ascending order, with the checksum of its own file,
  // and none above a file that is missing from the table or differs from what it says.
  ghost predicate AppliesInOrder(before: Checksums, after: Checksums, files: seq<File>, sum: string -> string,
                                 added: seq<string>) {
    && (forall p, q :: 0 <= p < q < |added| ==> SortsBelow(added[p], added[q]))
    && (forall v :: v in after <==> v in before || v in added)
    && (forall v :: v in before ==> after[v] == before[v])
    && (forall v :: v in added ==> v !in before && FromFile(files, sum, v, after[v]))
    && (forall f, v :: f in files && Names(f, v) && f.content.Ok? && BelowSome(v, added) ==>
          v in after && after[v] == sum(f.content.value))
  }

  lemma PlanApplies(plan: seq<Migration>, files: seq<File>, sum: string -> string, t: Checksums, trouble: Trouble,
                    passed: nat, n: nat)
    requires Ascending(plan) && IsPlan(plan, files, sum) && Stopped(plan, t, trouble, passed)
    requires passed <= n <= |plan| && n <= passed + 1
    ensures AppliesInOrder(t, Recording(plan[..n], t), files, sum, Missing(plan[..n], t))
  {
    var front, after, added := plan[..n], Recording(plan[..n], t), Missing(plan[..n], t);
    assert Ascending(front) by {
      PrefixAscends(plan, n);
    }
    forall p, q | 0 <= p < q < |added|
      ensures SortsBelow(added[p], added[q])
    {
      MissingAscends(front, t, p, q);
      LessIff(added[p], added[q]);
    }
    forall v
      ensures v in after <==> v in t || v in added
      ensures v in t ==> after[v] == t[v]
      ensures v in added ==> v !in t
    {
      RecordingKeys(front, t, v);
      MissingMembers(front, t, v);
    }
    forall v | v in added
      ensures FromFile(files, sum, v, after[v])
    {
      AddedFromFile(plan, files, sum, t, n, v);
    }
    forall f, v | f in files && Names(f, v) && f.content.Ok? && BelowSome(v, added)
      ensures v in after && after[v] == sum(f.content.value)
    {
      LowerIsRecorded(plan, files, sum, t, trouble, passed, n, f, v);
    }
  }

  lemma PrefixAscends(plan: seq<Migration>, n: nat)
    requires Ascending(plan) && n <= |plan|
    ensures Ascending(plan[..n])
  {
    forall i: nat, j: nat | i < j < n
      ensures InOrder(plan[..n], i, j)
    {
      assert InOrder(plan, i, j);
    }
  }

  lemma AddedFromFile(plan: seq<Migration>, files: seq<File>, sum: string -> string, t: Checksums, n: nat, v: string)
    requires Ascending(plan) && IsPlan(plan, files, sum) && n <= |plan| && v in Missing(plan[..n], t)
    ensures v in Recording(plan[..n], t) && FromFile(files, sum, v, Recording(plan[..n], t)[v])
  {
    PrefixAscends(plan, n);
    MissingMembers(plan[..n], t, v);
    var i :| 0 <= i < n && Versions(plan[..n])[i] == v;
    RecordingOwn(plan[..n], t, i);
    assert plan[i] in plan && HasFile(files, plan[i]);
  }

  lemma LowerIsRecorded(plan: seq<Migration>, files: seq<File>, sum: string -> string, t: Checksums, trouble: Trouble,
                        passed: nat, n: nat, f: File, v: string)
    requires Ascending(plan) && IsPlan(plan, files, sum) && Stopped(plan, t, trouble, passed)
    requires passed <= n <= |plan| && n <= passed + 1
    requires f in files && Names(f, v) && f.content.Ok? && BelowSome(v, Missing(plan[..n], t))
    ensures v in Recording(plan[..n], t) && Recording(plan[..n], t)[v] == sum(f.content.value)
  {
    var w :| w in Missing(plan[..n], t) && SortsBelow(v, w);
    PrefixAscends(plan, n);
    MissingMembers(plan[..n], t, w);
    var i: nat :| i < n && Versions(plan[..n])[i] == w;
    assert HasMigration(plan, f);
    var j: nat :| j < |plan| && plan[j].version == v && f.content == Ok(plan[j].body);
    LowerComesFirst(plan, j, i);
    RecordingOwn(plan[..n], t, j);
    assert plan[j] in plan && Passes(t, trouble, plan[j]);
  }

  lemma LowerComesFirst(plan: seq<Migration>, j: nat, i: nat)
    requires Ascending(plan) && i < |plan| && j < |plan| && SortsBelow(plan[j].version, plan[i].version)
    ensures j < i
  {
    LessIff(plan[j].version, plan[i].version);
    if i < j {
      Ordered(plan, i, j);
      LessTransitive(plan[j].version, plan[i].version, plan[j].version);
    }
    LessIrreflexive(plan[j].version);
  }

  // The run may pass the file: its version is recorded with its checksum, or its transaction commits.
  predicate MayPass(t: Checksums, trouble: Trouble, version: string, checksum: string) {
    if version in t then t[version] == checksum else version in trouble ==> trouble[version].Commits?
  }

  ghost predicate AllMayPass(files: seq<File>, sum: string -> string, t: Checksums, trouble: Trouble) {
    forall f, v :: f in files && Names(f, v) ==> f.content.Ok? && MayPass(t, trouble, v, sum(f.content.value))
  }

  lemma AllPassedIff(plan: seq<Migration>, files: seq<File>, sum: string -> string, t: Checksums, trouble: Trouble,
                     passed: nat)
    requires IsPlan(plan, files, sum) && Stopped(plan, t, trouble, passed)
    requires forall f, v :: f in files && Names(f, v) ==> f.content.Ok?
    ensures passed == |plan| <==> AllMayPass(files, sum, t, trouble)
  {
    if passed == |plan| {
      forall f, v | f in files && Names(f, v)
        ensures MayPass(t, trouble, v, sum(f.content.value))
      {
        assert HasMigration(plan, f);
        var j: nat :| j < |plan| && plan[j].version == v && f.content == Ok(plan[j].body);
        assert plan[j] in plan && Passes(t, trouble, plan[j]);
      }
    } else {
      EachMayPass(plan, files, sum, t, trouble, passed);
    }
  }

  lemma EachMayPass(plan: seq<Migration>, files: seq<File>, sum: string -> string, t: Checksums, trouble: Trouble,
                    i: nat)
    requires IsPlan(plan, files, sum) && i < |plan|
    ensures AllMayPass(files, sum, t, trouble) ==> Passes(t, trouble, plan[i])
  {
    assert plan[i] in plan && HasFile(files, plan[i]);
  }

  // A run of these files: what it added, what it returned, and whether it succeeded, which it does exactly
  // when every file is readable and may pass; then every file is recorded with its own checksum.
  ghost predicate MigratesUp(before: Checksums, after: Checksums, files: seq<File>, sum: string -> string,
                             trouble: Trouble, added: seq<string>, newly: seq<string>, ok: bool) {
    && AppliesInOrder(before, after, files, sum, added)
    && newly <= added && |added| <= |newly| + 1
    && (ok <==> AllMayPass(files, sum, before, trouble))
    && (ok ==> newly == added && forall f, v :: f in files && Names(f, v) && f.content.Ok? ==>
          v in after && after[v] == sum(f.content.value))
  }

  lemma UpMigrates(plan: seq<Migration>, files: seq<File>, sum: string -> string, t: Checksums, trouble: Trouble,
                   passed: nat, newly: seq<string>, ok: bool)
    requires Ascending(plan) && IsPlan(plan, files, sum) && Stopped(plan, t, trouble, passed)
    requires forall f, v :: f in files && Names(f, v) ==> f.content.Ok?
    requires newly == Missing(plan[..passed], t) && (ok <==> passed == |plan|)
    ensures var n := Effective(plan, t, trouble, passed);
            MigratesUp(t, Recording(plan[..n], t), files, sum, trouble, Missing(plan[..n], t), newly, ok)
  {
    var n := Effective(plan, t, trouble, passed);
    PlanApplies(plan, files, sum, t, trouble, passed, n);
    AllPassedIff(plan, files, sum, t, trouble, passed);
    if passed < |plan| {
      RecordingNext(plan, passed, t);
    } else {
      assert plan[..passed] == plan;
      forall f, v | f in files && Names(f, v) && f.content.Ok?
        ensures v in Recording(plan, t) && Recording(plan, t)[v] == sum(f.content.value)
      {
        assert HasMigration(plan, f);
        var j: nat :| j < |plan| && plan[j].version == v && f.content == Ok(plan[j].body);
        RecordingOwn(plan, t, j);
        assert plan[j] in plan && Passes(t, trouble, plan[j]);
      }
    }
  }

  class Database {
    var recorded: Checksums
    // The versions whose bodies took effect, in commit order.
    var log: seq<string>

    constructor ()
      ensures recorded == map[] && log == []
    {
      recorded := map[];
      log := [];
    }

    method LoadApplied(rows: seq<(string, string)>) returns (out: Checksums)
      requires IsTable(recorded, rows)
      ensures out == recorded
    {
      out := map[];
      var i := 0;
      while i < |rows|
        invariant 0 <= i <= |rows|
        invariant forall v :: v in out ==> v in recorded && out[v] == recorded[v]
        invariant forall k :: 0 <= k < i ==> rows[k].0 in out
      {
        out := out[rows[i].0 := rows[i].1];
        i := i + 1;
      }
      forall v | v in recorded
        ensures v in out
      {
        assert (v, recorded[v]) in rows;
      }
    }

    // The primary key lets a version commit once; a refused or failed transaction leaves no trace.
    method Apply(m: Migration, how: Attempt) returns (error: Option<string>)
      modifies this
      ensures error.None? <==> how == Commits && m.version !in old(recorded)
      ensures how.Fails? || m.version in old(recorded) ==> recorded == old(recorded) && log == old(log)
      ensures !how.Fails? && m.version !in old(recorded) ==>
        recorded == old(recorded)[m.version := m.checksum] && log == old(log) + [m.version]
      ensures !how.Fails? && m.version in old(recorded) ==> error == Some("concurrent migration")
    {
      if how.Fails? {
        return Some(how.error);
      }
      if m.version in recorded {
        return Some("concurrent migration");
      }
      recorded := recorded[m.version := m.checksum];
      log := log + [m.version];
      error := if how.Commits? then None else Some(how.error);
    }

    /** Applies what is missing in version order, and stops at the first migration that does not pass. */
    method Up(files: seq<File>, sum: string -> string, rows: seq<(string, string)>, trouble: Trouble)
      returns (newly: seq<string>, error: Option<string>, ghost plan: seq<Migration>, ghost passed: nat)
      requires DistinctNames(files) && IsTable(recorded, rows)
      modifies this
      ensures (exists f :: f in files && !Readable(f)) ==> error.Some? && plan == []
      ensures (forall f :: f in files ==> Readable(f)) ==>
        && Ascending(plan) && Elements(plan) == Listed(files, sum)
        && (error.None? <==> passed == |plan|)
      ensures Stopped(plan, old(recorded), trouble, passed)
      ensures newly == Missing(plan[..passed], old(recorded))
      ensures var n := Effective(plan, old(recorded), trouble, passed);
              && recorded == Recording(plan[..n], old(recorded))
              && log == old(log) + Missing(plan[..n], old(recorded))
      ensures old(log) <= log
      ensures MigratesUp(old(recorded), recorded, files, sum, trouble, log[|old(log)|..], newly, error.None?)
    {
      var loaded := Load(files, sum);
      if loaded.Err? {
        return [], Some(loaded.error), [], 0;
      }
      plan := loaded.value;
      var applied := LoadApplied(rows);
      ghost var was := recorded;
      newly, error, passed := ApplyMissing(loaded.value, applied, trouble);
      UpMigrates(plan, files, sum, was, trouble, passed, newly, error.None?);
    }

    method ApplyMissing(migs: seq<Migration>, applied: Checksums, trouble: Trouble)
      returns (newly: seq<string>, error: Option<string>, ghost passed: nat)
      requires Ascending(migs) && applied == recorded
      modifies this
      ensures Stopped(migs, applied, trouble, passed) && (error.None? <==> passed == |migs|)
      ensures newly == Missing(migs[..passed], applied)
      ensures var n := Effective(migs, applied, trouble, passed);
              recorded == Recording(migs[..n], applied) && log == old(log) + Missing(migs[..n], applied)
    {
      newly, error, passed := [], None, 0;
      var i := 0;
      while i < |migs|
        invariant 0 <= i <= |migs| && passed == i && error.None?
        invariant forall k :: 0 <= k < i ==> Passes(applied, trouble, migs[k])
        invariant newly == Missing(migs[..i], applied) && log == old(log) + newly
        invariant recorded == Recording(migs[..i], applied)
      {
        RecordingNext(migs, i, applied);
        var m := migs[i];
        if m.version !in applied {
          var failed := Apply(m, How(trouble, m.version));
          if failed.Some? {
            error := failed;
            return;
          }
          newly := newly + [m.version];
        } else if applied[m.version] != m.checksum {
          error := Some("checksum mismatch");
          return;
        }
        i := i + 1;
        passed := i;
      }
    }
  }

  // The run got past the first `passed` migrations, and past no more.
  ghost predicate Stopped(migs: seq<Migration>, t: Checksums, trouble: Trouble, passed: nat) {
    && passed <= |migs|
    && (forall i :: 0 <= i < passed ==> Passes(t, trouble, migs[i]))
    && (passed < |migs| ==> !Passes(t, trouble, migs[passed]))
  }

  // How many migrations took effect: a commit that was not acknowledged stops the run after it did.
  function Effective(migs: seq<Migration>, t: Checksums, trouble: Trouble, passed: nat): (n: nat)
    requires passed <= |migs|
    ensures n <= |migs|
  {
    if passed < |migs| && migs[passed].version !in t && How(trouble, migs[passed].version).Unacked? then passed + 1
    else passed
  }
}
