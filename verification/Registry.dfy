/**
 The job registry (lambdas/create_glue_jobs.py): one JSON document in S3 that several Lambda runs
 read, change and write back under the ETag they read.
 */
module Registry {
  import opened Util

  type Fields = map<string, string>

  datatype Job = Job(name: string, fields: Fields)

  /** The document.  A field that is absent reads as its empty value. */
  datatype Doc = Doc(project: Option<string>, taskSuffix: Option<string>, jobs: seq<Job>,
                     owners: map<string, string>, updatedAt: Option<string>, deletedAt: Option<string>)

  const EMPTY := Doc(None, None, [], map[], None, None)

  /** One job record of a create run; a field may be null. */
  datatype Rec = Rec(name: string, role: string, table: Option<string>, ownerSlug: string,
                     fields: map<string, Option<string>>, updatedAt: string)

  // ----- job lists -------------------------------------------------------------------------

  predicate SortedJobs(jobs: seq<Job>) {
    forall i, j :: 0 <= i < j < |jobs| ==> Before(jobs[i].name, jobs[j].name)
  }

  /** `{j["name"]: j for j in jobs}`: the last record of a name wins. */
  function ByName(jobs: seq<Job>): map<string, Fields> {
    if jobs == [] then map[]
    else ByName(jobs[..|jobs| - 1])[jobs[|jobs| - 1].name := jobs[|jobs| - 1].fields]
  }

  lemma {:induction false} ByNameHas(jobs: seq<Job>, name: string)
    ensures name in ByName(jobs) <==> exists i :: 0 <= i < |jobs| && jobs[i].name == name
  {
    if jobs != [] {
      var front := jobs[..|jobs| - 1];
      ByNameHas(front, name);
      if i :| 0 <= i < |jobs| && jobs[i].name == name {
        assert i < |front| ==> front[i].name == name;
      }
      if i :| 0 <= i < |front| && front[i].name == name {
        assert jobs[i].name == name;
      }
      assert jobs[|jobs| - 1].name == name ==> exists i :: 0 <= i < |jobs| && jobs[i].name == name;
    }
  }

  lemma {:induction false} ByNameGives(jobs: seq<Job>, i: nat)
    requires SortedJobs(jobs) && i < |jobs|
    ensures jobs[i].name in ByName(jobs) && ByName(jobs)[jobs[i].name] == jobs[i].fields
  {
    if i < |jobs| - 1 {
      ByNameGives(jobs[..|jobs| - 1], i);
      BeforeIsTotal(jobs[i].name, jobs[|jobs| - 1].name);
    }
  }

  /** A sorted list of a dictionary's records is unique. */
  lemma {:induction false} ListingIsUnique(a: seq<Job>, b: seq<Job>)
    requires SortedJobs(a) && SortedJobs(b) && ByName(a) == ByName(b)
    ensures a == b
  {
    if a == [] || b == [] {
      if a != [] {
        ByNameGives(a, 0);
      }
      if b != [] {
        ByNameGives(b, 0);
      }
    } else {
      var x, y := a[|a| - 1], b[|b| - 1];
      LastIsLast(a, b);
      LastIsLast(b, a);
      BeforeIsTotal(x.name, y.name);
      ByNameGives(a, |a| - 1);
      ByNameGives(b, |b| - 1);
      WithoutLast(a);
      WithoutLast(b);
      ListingIsUnique(a[..|a| - 1], b[..|b| - 1]);
    }
  }

  lemma LastIsLast(a: seq<Job>, b: seq<Job>)
    requires SortedJobs(a) && SortedJobs(b) && a != [] && b != [] && ByName(a) == ByName(b)
    ensures a[|a| - 1].name == b[|b| - 1].name || Before(a[|a| - 1].name, b[|b| - 1].name)
  {
    var x := a[|a| - 1];
    ByNameGives(a, |a| - 1);
    ByNameHas(b, x.name);
    var i :| 0 <= i < |b| && b[i].name == x.name;
  }

  lemma LastIsNew(a: seq<Job>)
    requires SortedJobs(a) && a != []
    ensures a[|a| - 1].name !in ByName(a[..|a| - 1])
  {
    var front, last := a[..|a| - 1], a[|a| - 1];
    ByNameHas(front, last.name);
    if i :| 0 <= i < |front| && front[i].name == last.name {
      BeforeIsTotal(a[i].name, last.name);
    }
  }

  lemma WithoutLast(a: seq<Job>)
    requires SortedJobs(a) && a != []
    ensures ByName(a[..|a| - 1]) == ByName(a) - {a[|a| - 1].name}
  {
    LastIsNew(a);
    var m, last := ByName(a[..|a| - 1]), a[|a| - 1];
    assert ByName(a) == m[last.name := last.fields];
    assert m[last.name := last.fields] - {last.name} == m;
  }

  /** Put a new name where it belongs. */
  function Place(jobs: seq<Job>, j: Job): seq<Job> {
    if jobs == [] || Before(jobs[|jobs| - 1].name, j.name) then jobs + [j]
    else Place(jobs[..|jobs| - 1], j) + [jobs[|jobs| - 1]]
  }

  lemma {:induction false} PlaceHas(jobs: seq<Job>, j: Job)
    ensures forall x :: x in Place(jobs, j) <==> x in jobs || x == j
  {
    if jobs != [] && !Before(jobs[|jobs| - 1].name, j.name) {
      PlaceHas(jobs[..|jobs| - 1], j);
    }
  }

  lemma {:induction false} PlaceSorts(jobs: seq<Job>, j: Job)
    requires SortedJobs(jobs) && j.name !in ByName(jobs)
    ensures SortedJobs(Place(jobs, j))
  {
    if jobs != [] {
      var front, last := jobs[..|jobs| - 1], jobs[|jobs| - 1];
      ByNameGives(jobs, |jobs| - 1);
      BeforeIsTotal(last.name, j.name);
      if Before(last.name, j.name) {
        forall i | 0 <= i < |jobs| ensures Before(jobs[i].name, j.name) {
          if i < |jobs| - 1 {
            BeforeIsTransitive(jobs[i].name, last.name, j.name);
          }
        }
      } else {
        WithoutLast(jobs);
        PlaceSorts(front, j);
        PlaceHas(front, j);
        var r := Place(front, j);
        forall i | 0 <= i < |r| ensures Before(r[i].name, last.name) {
          assert r[i] in r;
          if r[i] != j {
            var k :| 0 <= k < |front| && front[k] == r[i];
          }
        }
      }
    }
  }

  lemma Swap(m: map<string, Fields>, a: string, x: Fields, b: string, y: Fields)
    requires a != b
    ensures m[a := x][b := y] == m[b := y][a := x]
  {
  }

  lemma Restore(m: map<string, Fields>, keys: set<string>, k: string)
    requires k in m && k in keys
    ensures (m - keys)[k := m[k]] == m - (keys - {k})
  {
  }

  lemma {:induction false} PlaceAdds(jobs: seq<Job>, j: Job)
    requires j.name !in ByName(jobs)
    ensures ByName(Place(jobs, j)) == ByName(jobs)[j.name := j.fields]
  {
    if jobs != [] && !Before(jobs[|jobs| - 1].name, j.name) {
      var front, last := jobs[..|jobs| - 1], jobs[|jobs| - 1];
      assert j.name != last.name;
      PlaceAdds(front, j);
      var r := Place(front, j);
      assert (r + [last])[..|r|] == r;
      Swap(ByName(front), j.name, j.fields, last.name, last.fields);
    }
  }

  lemma PlaceKeeps(jobs: seq<Job>, j: Job)
    requires SortedJobs(jobs) && j.name !in ByName(jobs)
    ensures SortedJobs(Place(jobs, j)) && ByName(Place(jobs, j)) == ByName(jobs)[j.name := j.fields]
  {
    PlaceSorts(jobs, j);
    PlaceAdds(jobs, j);
  }

  lemma {:induction false} ListingExists(m: map<string, Fields>) returns (jobs: seq<Job>)
    ensures SortedJobs(jobs) && ByName(jobs) == m
  {
    if m == map[] {
      jobs := [];
    } else {
      var k :| k in m;
      Restore(m, {k}, k);
      assert m - ({k} - {k}) == m;
      var rest := ListingExists(m - {k});
      jobs := Place(rest, Job(k, m[k]));
      PlaceKeeps(rest, Job(k, m[k]));
    }
  }

  /** `sorted(by_name.values(), key=name)`. */
  ghost function Listing(m: map<string, Fields>): (jobs: seq<Job>)
    ensures SortedJobs(jobs) && ByName(jobs) == m
  {
    ListingWitness(m);
    var jobs :| SortedJobs(jobs) && ByName(jobs) == m;
    jobs
  }

  lemma ListingWitness(m: map<string, Fields>)
    ensures exists jobs :: SortedJobs(jobs) && ByName(jobs) == m
  {
    var jobs := ListingExists(m);
  }

  // ----- _mutate ---------------------------------------------------------------------------

  function Present(fields: map<string, Option<string>>): Fields {
    map k | k in fields && fields[k].Some? :: fields[k].value
  }

  /** One record merged over what was known of the job: null fields change nothing, and
      `createdAt` is set the first time only. */
  function MergeOne(existing: Fields, r: Rec): Fields {
    var merged := existing + Present(r.fields);
    if "createdAt" in merged then merged else merged["createdAt" := r.updatedAt]
  }

  function MergeJobs(byName: map<string, Fields>, recs: seq<Rec>): map<string, Fields> {
    if recs == [] then byName
    else
      var m, r := MergeJobs(byName, recs[..|recs| - 1]), recs[|recs| - 1];
      m[r.name := MergeOne(if r.name in m then m[r.name] else map[], r)]
  }

  predicate OwnsTable(r: Rec) {
    r.table.Some? && r.table.value != "" && (r.role == "ck-cdc" || r.role == "bg-cdc")
  }

  function MergeOwners(owners: map<string, string>, recs: seq<Rec>): map<string, string> {
    if recs == [] then owners
    else
      var o, r := MergeOwners(owners, recs[..|recs| - 1]), recs[|recs| - 1];
      if OwnsTable(r) then o[r.table.value := r.ownerSlug] else o
  }

  function OrElse(a: Option<string>, b: string): Option<string> { if a.Some? then a else Some(b) }

  ghost function Merged(doc: Doc, project: string, suffix: string, recs: seq<Rec>, now: string): Doc {
    Doc(OrElse(doc.project, project), OrElse(doc.taskSuffix, suffix),
        Listing(MergeJobs(ByName(doc.jobs), recs)), MergeOwners(doc.owners, recs), Some(now), doc.deletedAt)
  }

  /** The delete mode's clear. */
  function Cleared(doc: Doc, now: string): Doc {
    doc.(jobs := [], owners := map[], deletedAt := Some(now))
  }

  /** `_mutate`: the loops of the merge. */
  method Mutate(doc: Doc, project: string, suffix: string, recs: seq<Rec>, now: string) returns (d: Doc)
    ensures d == Merged(doc, project, suffix, recs, now)
    ensures DocMerged(doc, project, suffix, recs, now, d)
  {
    var byName: map<string, Fields> := map[];
    for i := 0 to |doc.jobs|
      invariant byName == ByName(doc.jobs[..i])
    {
      assert doc.jobs[..i + 1][..i] == doc.jobs[..i];
      byName := byName[doc.jobs[i].name := doc.jobs[i].fields];
    }
    assert doc.jobs[..|doc.jobs|] == doc.jobs;
    var owners := doc.owners;
    for i := 0 to |recs|
      invariant byName == MergeJobs(ByName(doc.jobs), recs[..i]) && owners == MergeOwners(doc.owners, recs[..i])
    {
      assert recs[..i + 1][..i] == recs[..i];
      var r := recs[i];
      byName := byName[r.name := MergeOne(if r.name in byName then byName[r.name] else map[], r)];
      if OwnsTable(r) {
        owners := owners[r.table.value := r.ownerSlug];
      }
    }
    assert recs[..|recs|] == recs;
    var jobs := SortRecords(byName);
    ListingIsUnique(jobs, Listing(byName));
    d := Doc(OrElse(doc.project, project), OrElse(doc.taskSuffix, suffix), jobs, owners, Some(now), doc.deletedAt);
    JobsAreMerged(ByName(doc.jobs), recs);
    OwnersAreMerged(doc.owners, recs);
  }

  method SortRecords(m: map<string, Fields>) returns (jobs: seq<Job>)
    ensures SortedJobs(jobs) && ByName(jobs) == m
  {
    jobs := [];
    var keys := m.Keys;
    while keys != {}
      invariant keys <= m.Keys && SortedJobs(jobs) && ByName(jobs) == m - keys
      decreases |keys|
    {
      var k :| k in keys;
      PlaceKeeps(jobs, Job(k, m[k]));
      Restore(m, keys, k);
      jobs := Place(jobs, Job(k, m[k]));
      keys := keys - {k};
    }
  }

  function RecNames(recs: seq<Rec>): set<string> { set i | 0 <= i < |recs| :: recs[i].name }

  /** A merge removes no job and no owner, adds exactly the run's jobs, and leaves every job the
      run does not name as it was; names stay unique and sorted. */
  lemma MergeKeepsJobs(doc: Doc, project: string, suffix: string, recs: seq<Rec>, now: string)
    ensures
      var d := Merged(doc, project, suffix, recs, now);
      && SortedJobs(d.jobs)
      && ByName(d.jobs).Keys == ByName(doc.jobs).Keys + RecNames(recs)
      && (forall n :: n in ByName(doc.jobs) && n !in RecNames(recs) ==> ByName(d.jobs)[n] == ByName(doc.jobs)[n])
      && (forall n, k :: n in ByName(doc.jobs) && k in ByName(doc.jobs)[n] ==> k in ByName(d.jobs)[n])
      && doc.owners.Keys <= d.owners.Keys
  {
    MergeJobsKeeps(ByName(doc.jobs), recs);
    MergeOwnersKeeps(doc.owners, recs);
  }

  lemma {:induction false} MergeOwnersKeeps(owners: map<string, string>, recs: seq<Rec>)
    ensures owners.Keys <= MergeOwners(owners, recs).Keys
  {
    if recs != [] {
      MergeOwnersKeeps(owners, recs[..|recs| - 1]);
    }
  }

  lemma {:induction false} MergeJobsKeeps(m: map<string, Fields>, recs: seq<Rec>)
    ensures
      var r := MergeJobs(m, recs);
      && r.Keys == m.Keys + RecNames(recs)
      && (forall n :: n in m && n !in RecNames(recs) ==> r[n] == m[n])
      && (forall n, k :: n in m && k in m[n] ==> k in r[n])
      && (forall n :: n in RecNames(recs) ==> "createdAt" in r[n])
  {
    if recs != [] {
      var front, last := recs[..|recs| - 1], recs[|recs| - 1];
      MergeJobsKeeps(m, front);
      assert RecNames(recs) == RecNames(front) + {last.name} by {
        forall n ensures n in RecNames(recs) <==> n in RecNames(front) || n == last.name {
          if n in RecNames(recs) {
            var i :| 0 <= i < |recs| && recs[i].name == n;
            assert i < |front| ==> front[i].name == n;
          }
          if n in RecNames(front) {
            var i :| 0 <= i < |front| && front[i].name == n;
            assert recs[i].name == n;
          }
          assert recs[|recs| - 1].name == last.name;
        }
      }
    }
  }

  /** A job's creation time is set once: later merges keep it. */
  lemma {:induction false} CreatedOnce(m: map<string, Fields>, recs: seq<Rec>, n: string)
    requires n in m && "createdAt" in m[n]
    requires forall i :: 0 <= i < |recs| ==> "createdAt" !in recs[i].fields
    ensures var r := MergeJobs(m, recs); n in r && "createdAt" in r[n] && r[n]["createdAt"] == m[n]["createdAt"]
  {
    if recs != [] {
      assert forall i :: 0 <= i < |recs| - 1 ==> recs[..|recs| - 1][i] == recs[i];
      CreatedOnce(m, recs[..|recs| - 1], n);
    }
  }

  // ----- what a merge leaves, record by record ---------------------------------------------

  /** The last of the records for this job that gives this field a value. */
  predicate LastWrite(recs: seq<Rec>, n: string, k: string, i: nat) {
    && i < |recs| && recs[i].name == n && k in recs[i].fields && recs[i].fields[k] != None
    && forall j :: i < j < |recs| && recs[j].name == n && k in recs[j].fields ==> recs[j].fields[k] == None
  }

  predicate Unwritten(recs: seq<Rec>, n: string, k: string) {
    forall j :: 0 <= j < |recs| && recs[j].name == n && k in recs[j].fields ==> recs[j].fields[k] == None
  }

  predicate FirstRec(recs: seq<Rec>, n: string, i: nat) {
    i < |recs| && recs[i].name == n && forall j :: 0 <= j < i ==> recs[j].name != n
  }

  /** What the last record that writes a field says. */
  ghost predicate HasLastWrite(recs: seq<Rec>, n: string, k: string, now: Fields) {
    forall i: nat :: LastWrite(recs, n, k, i) ==> k in now && Some(now[k]) == recs[i].fields[k]
  }

  /** The time stamp of the job's first record. */
  ghost predicate HasFirstTime(recs: seq<Rec>, n: string, now: Fields) {
    && ("createdAt" in now <==> exists i: nat :: FirstRec(recs, n, i))
    && forall i: nat :: FirstRec(recs, n, i) ==> now["createdAt"] == recs[i].updatedAt
  }

  /** A field is what the last record that writes it says, or what it was; a job without a creation
      time gets the time stamp of its first record; and there is no other field. */
  ghost predicate FieldMerged(was: Fields, recs: seq<Rec>, n: string, k: string, now: Fields) {
    && HasLastWrite(recs, n, k, now)
    && (Unwritten(recs, n, k) ==>
          if k in was then k in now && now[k] == was[k]
          else if k == "createdAt" then HasFirstTime(recs, n, now) else k !in now)
  }

  function At(m: map<string, Fields>, n: string): Fields { if n in m then m[n] else map[] }

  ghost predicate JobsMerged(was: map<string, Fields>, recs: seq<Rec>, now: map<string, Fields>) {
    && (forall n :: n in now <==> n in was || exists i: nat :: FirstRec(recs, n, i))
    && (forall n, k :: n in now ==> FieldMerged(At(was, n), recs, n, k, now[n]))
  }

  /** The record makes its job the one that applies a forked table's changes. */
  predicate Owns(r: Rec, t: string) { r.table == Some(t) && t != "" && r.role in {"ck-cdc", "bg-cdc"} }

  predicate LastOwner(recs: seq<Rec>, t: string, i: nat) {
    i < |recs| && Owns(recs[i], t) && forall j :: i < j < |recs| ==> !Owns(recs[j], t)
  }

  predicate Unowned(recs: seq<Rec>, t: string) { forall j :: 0 <= j < |recs| ==> !Owns(recs[j], t) }

  ghost predicate OwnersMerged(was: map<string, string>, recs: seq<Rec>, now: map<string, string>) {
    && (forall t, i: nat :: LastOwner(recs, t, i) ==> t in now && now[t] == recs[i].ownerSlug)
    && (forall t :: Unowned(recs, t) ==> (t in now <==> t in was) && (t in was ==> now[t] == was[t]))
  }

  /** The document after a merge: each job once, in order of name; the project and the suffix stay
      what they were first set to. */
  ghost predicate DocMerged(doc: Doc, project: string, suffix: string, recs: seq<Rec>, now: string, d: Doc) {
    && SortedJobs(d.jobs) && JobsMerged(ByName(doc.jobs), recs, ByName(d.jobs))
    && OwnersMerged(doc.owners, recs, d.owners)
    && (if doc.project == None then d.project == Some(project) else d.project == doc.project)
    && (if doc.taskSuffix == None then d.taskSuffix == Some(suffix) else d.taskSuffix == doc.taskSuffix)
    && d.updatedAt == Some(now) && d.deletedAt == doc.deletedAt
  }

  lemma LastWriteNext(recs: seq<Rec>, n: string, k: string)
    requires recs != []
    ensures var front, r := recs[..|recs| - 1], recs[|recs| - 1];
            var writes := r.name == n && k in r.fields && r.fields[k].Some?;
            && (Unwritten(recs, n, k) <==> Unwritten(front, n, k) && !writes)
            && (forall i: nat :: LastWrite(recs, n, k, i) <==>
                  if writes then i == |front| else LastWrite(front, n, k, i))
  {
    var front, r := recs[..|recs| - 1], recs[|recs| - 1];
    assert forall i :: 0 <= i < |front| ==> front[i] == recs[i];
    if Unwritten(front, n, k) && !(r.name == n && k in r.fields && r.fields[k].Some?) {
      assert Unwritten(recs, n, k);
    }
  }

  lemma {:induction false} FirstRecExists(recs: seq<Rec>, n: string)
    ensures (exists i: nat :: FirstRec(recs, n, i)) <==> n in RecNames(recs)
  {
    if recs != [] {
      var front, last := recs[..|recs| - 1], |recs| - 1;
      FirstRecExists(front, n);
      NamesNext(recs, n);
      if i: nat :| FirstRec(front, n, i) {
        assert FirstRec(recs, n, i);
      } else if recs[last].name == n {
        assert forall i :: 0 <= i < last ==> front[i].name in RecNames(front);
        assert FirstRec(recs, n, last);
      }
    }
  }

  lemma FirstRecNext(recs: seq<Rec>, n: string)
    requires recs != []
    ensures forall i: nat :: FirstRec(recs[..|recs| - 1], n, i) ==> FirstRec(recs, n, i)
    ensures forall i: nat :: FirstRec(recs, n, i) && i < |recs| - 1 ==> FirstRec(recs[..|recs| - 1], n, i)
    ensures FirstRec(recs, n, |recs| - 1) <==>
            recs[|recs| - 1].name == n && n !in RecNames(recs[..|recs| - 1])
  {
    var front := recs[..|recs| - 1];
    assert forall i :: 0 <= i < |front| ==> front[i] == recs[i];
    FirstRecExists(front, n);
    if recs[|recs| - 1].name == n && n !in RecNames(front) {
      assert forall i :: 0 <= i < |front| ==> front[i].name in RecNames(front);
    }
  }

  lemma NamesNext(recs: seq<Rec>, n: string)
    requires recs != []
    ensures n in RecNames(recs) <==> n in RecNames(recs[..|recs| - 1]) || n == recs[|recs| - 1].name
  {
    var front := recs[..|recs| - 1];
    if n in RecNames(recs) {
      var i :| 0 <= i < |recs| && recs[i].name == n;
      assert i < |front| ==> front[i].name == n;
    }
    if n in RecNames(front) {
      var i :| 0 <= i < |front| && front[i].name == n;
      assert recs[i].name == n;
    }
    assert recs[|recs| - 1].name == n ==> n in RecNames(recs);
  }

  lemma MergedLast(m: map<string, Fields>, recs: seq<Rec>, n: string, k: string)
    requires recs != []
    ensures var front, r := recs[..|recs| - 1], recs[|recs| - 1];
            var mid, now := At(MergeJobs(m, front), n), At(MergeJobs(m, recs), n);
            if r.name == n && k in r.fields && r.fields[k].Some? then k in now && Some(now[k]) == r.fields[k]
            else k in mid ==> k in now && now[k] == mid[k]
  {
  }

  lemma {:induction false} LastWriteIsMerged(m: map<string, Fields>, recs: seq<Rec>, n: string, k: string, i: nat)
    requires LastWrite(recs, n, k, i)
    ensures k in At(MergeJobs(m, recs), n) && Some(At(MergeJobs(m, recs), n)[k]) == recs[i].fields[k]
  {
    LastWriteNext(recs, n, k);
    MergedLast(m, recs, n, k);
    if i < |recs| - 1 {
      LastWriteIsMerged(m, recs[..|recs| - 1], n, k, i);
    }
  }

  lemma {:induction false} UnwrittenIsKept(m: map<string, Fields>, recs: seq<Rec>, n: string, k: string)
    requires Unwritten(recs, n, k)
    ensures var was, now := At(m, n), At(MergeJobs(m, recs), n);
            && (k in was ==> k in now && now[k] == was[k])
            && (k !in was && k != "createdAt" ==> k !in now)
  {
    if recs != [] {
      LastWriteNext(recs, n, k);
      UnwrittenIsKept(m, recs[..|recs| - 1], n, k);
    }
  }

  lemma {:induction false} FirstTimeIsMerged(m: map<string, Fields>, recs: seq<Rec>, n: string)
    requires Unwritten(recs, n, "createdAt") && "createdAt" !in At(m, n)
    ensures HasFirstTime(recs, n, At(MergeJobs(m, recs), n))
  {
    if recs != [] {
      var front := recs[..|recs| - 1];
      LastWriteNext(recs, n, "createdAt");
      FirstTimeIsMerged(m, front, n);
      FirstRecNext(recs, n);
      FirstRecExists(front, n);
      FirstRecExists(recs, n);
      NamesNext(recs, n);
    }
  }

  lemma FieldIsMerged(m: map<string, Fields>, recs: seq<Rec>, n: string, k: string)
    ensures FieldMerged(At(m, n), recs, n, k, At(MergeJobs(m, recs), n))
  {
    forall i: nat | LastWrite(recs, n, k, i)
      ensures k in At(MergeJobs(m, recs), n) && Some(At(MergeJobs(m, recs), n)[k]) == recs[i].fields[k]
    {
      LastWriteIsMerged(m, recs, n, k, i);
    }
    if Unwritten(recs, n, k) {
      UnwrittenIsKept(m, recs, n, k);
      if k == "createdAt" && k !in At(m, n) {
        FirstTimeIsMerged(m, recs, n);
      }
    }
  }

  lemma JobsAreMerged(m: map<string, Fields>, recs: seq<Rec>)
    ensures JobsMerged(m, recs, MergeJobs(m, recs))
  {
    MergeJobsKeeps(m, recs);
    forall n ensures n in RecNames(recs) <==> exists i: nat :: FirstRec(recs, n, i) {
      FirstRecExists(recs, n);
    }
    forall n, k | n in MergeJobs(m, recs) ensures FieldMerged(At(m, n), recs, n, k, MergeJobs(m, recs)[n]) {
      FieldIsMerged(m, recs, n, k);
    }
  }

  lemma OwnersNext(recs: seq<Rec>, t: string)
    requires recs != []
    ensures var front, last := recs[..|recs| - 1], |recs| - 1;
            && (Unowned(recs, t) <==> Unowned(front, t) && !Owns(recs[last], t))
            && (forall i: nat :: LastOwner(recs, t, i) <==>
                  if Owns(recs[last], t) then i == last else LastOwner(front, t, i))
  {
    var front, last := recs[..|recs| - 1], |recs| - 1;
    assert forall i :: 0 <= i < last ==> front[i] == recs[i];
    if Unowned(front, t) && !Owns(recs[last], t) {
      assert Unowned(recs, t);
    }
  }

  lemma {:induction false} OwnersAreMerged(owners: map<string, string>, recs: seq<Rec>)
    ensures OwnersMerged(owners, recs, MergeOwners(owners, recs))
  {
    if recs != [] {
      var front, last := recs[..|recs| - 1], |recs| - 1;
      OwnersAreMerged(owners, front);
      forall t ensures Owns(recs[last], t) <==> OwnsTable(recs[last]) && recs[last].table.value == t {
        OwnersNext(recs, t);
      }
      forall t, i: nat | LastOwner(recs, t, i)
        ensures t in MergeOwners(owners, recs) && MergeOwners(owners, recs)[t] == recs[i].ownerSlug
      {
        OwnersNext(recs, t);
      }
      forall t | Unowned(recs, t)
        ensures t in MergeOwners(owners, recs) <==> t in owners
        ensures t in owners ==> MergeOwners(owners, recs)[t] == owners[t]
      {
        OwnersNext(recs, t);
      }
    }
  }

  // ----- merging twice ---------------------------------------------------------------------

  /** The fields the first `i` records write for a job. */
  function Written(recs: seq<Rec>, i: nat, n: string): set<string>
    requires i <= |recs|
  {
    if i == 0 then {}
    else Written(recs, i - 1, n) + if recs[i - 1].name == n then Present(recs[i - 1].fields).Keys else {}
  }

  lemma {:induction false} WrittenIsKept(m: map<string, Fields>, recs: seq<Rec>, i: nat, n: string)
    requires i <= |recs|
    ensures n in RecNames(recs[..i]) ==> n in MergeJobs(m, recs[..i]) && "createdAt" in MergeJobs(m, recs[..i])[n]
    ensures Written(recs, i, n) != {} ==> n in MergeJobs(m, recs[..i])
    ensures n in MergeJobs(m, recs[..i]) ==> Written(recs, i, n) <= MergeJobs(m, recs[..i])[n].Keys
  {
    MergeJobsKeeps(m, recs[..i]);
    if i > 0 {
      assert recs[..i][..i - 1] == recs[..i - 1];
      WrittenIsKept(m, recs, i - 1, n);
      MergeJobsKeeps(m, recs[..i - 1]);
    }
  }

  /** Part way through the second merge, a job has what the records so far write (`first` is what
      the first merge had made of them) and, for the rest, what the first merge left. */
  predicate HalfWay(once: Fields, twice: Fields, first: Fields, written: set<string>) {
    && twice.Keys == once.Keys && written <= first.Keys
    && forall k :: k in once ==> twice[k] == if k in written then first[k] else once[k]
  }

  lemma OneMore(once: Fields, twice: Fields, first: Fields, written: set<string>, r: Rec)
    requires HalfWay(once, twice, first, written)
    requires "createdAt" in once && Present(r.fields).Keys <= once.Keys
    ensures HalfWay(once, MergeOne(twice, r), MergeOne(first, r), written + Present(r.fields).Keys)
  {
  }

  lemma {:induction false} WrittenGrows(recs: seq<Rec>, i: nat, j: nat, n: string)
    requires i <= j <= |recs|
    ensures Written(recs, i, n) <= Written(recs, j, n)
  {
    if i < j {
      WrittenGrows(recs, i, j - 1, n);
    }
  }

  lemma MergeAt(m: map<string, Fields>, recs: seq<Rec>, i: nat, n: string)
    requires 0 < i <= |recs|
    ensures At(MergeJobs(m, recs[..i]), n)
            == if recs[i - 1].name == n then MergeOne(At(MergeJobs(m, recs[..i - 1]), n), recs[i - 1])
               else At(MergeJobs(m, recs[..i - 1]), n)
  {
    assert recs[..i][..i - 1] == recs[..i - 1];
  }

  lemma FirstMergeHas(m: map<string, Fields>, recs: seq<Rec>, i: nat, n: string)
    requires 0 < i <= |recs| && recs[i - 1].name == n
    ensures "createdAt" in At(MergeJobs(m, recs), n)
    ensures Present(recs[i - 1].fields).Keys <= At(MergeJobs(m, recs), n).Keys
  {
    assert n in RecNames(recs) by { assert recs[i - 1].name == n; }
    MergeJobsKeeps(m, recs);
    assert recs[..|recs|] == recs;
    WrittenIsKept(m, recs, |recs|, n);
    WrittenGrows(recs, i, |recs|, n);
  }

  ghost predicate SecondOk(m: map<string, Fields>, recs: seq<Rec>, i: nat, n: string)
    requires i <= |recs|
  {
    var once := MergeJobs(m, recs);
    HalfWay(At(once, n), At(MergeJobs(once, recs[..i]), n), At(MergeJobs(m, recs[..i]), n), Written(recs, i, n))
  }

  lemma SecondStep(m: map<string, Fields>, recs: seq<Rec>, i: nat, n: string)
    requires 0 < i <= |recs| && SecondOk(m, recs, i - 1, n)
    ensures SecondOk(m, recs, i, n)
  {
    var once := MergeJobs(m, recs);
    MergeAt(m, recs, i, n);
    MergeAt(once, recs, i, n);
    if recs[i - 1].name == n {
      FirstMergeHas(m, recs, i, n);
      OneMore(At(once, n), At(MergeJobs(once, recs[..i - 1]), n), At(MergeJobs(m, recs[..i - 1]), n),
              Written(recs, i - 1, n), recs[i - 1]);
    }
  }

  lemma {:induction false} SecondMerge(m: map<string, Fields>, recs: seq<Rec>, i: nat, n: string)
    requires i <= |recs|
    ensures SecondOk(m, recs, i, n)
  {
    if i == 0 {
      assert recs[..0] == [];
    } else {
      SecondMerge(m, recs, i - 1, n);
      SecondStep(m, recs, i, n);
    }
  }

  /** Running the same create run's merge again changes nothing but the time stamp, so a run that
      is retried after its write was acknowledged to nobody does no harm. */
  lemma MergeIsIdempotent(doc: Doc, project: string, suffix: string, recs: seq<Rec>, t1: string, t2: string)
    ensures Merged(Merged(doc, project, suffix, recs, t1), project, suffix, recs, t2)
            == Merged(doc, project, suffix, recs, t1).(updatedAt := Some(t2))
  {
    var m := ByName(doc.jobs);
    var once := MergeJobs(m, recs);
    var twice := MergeJobs(once, recs);
    assert recs[..|recs|] == recs;
    MergeJobsKeeps(m, recs);
    MergeJobsKeeps(once, recs);
    forall n | n in once ensures n in twice && twice[n] == once[n] {
      SecondMerge(m, recs, |recs|, n);
      assert At(twice, n) == At(once, n);
    }
    assert twice.Keys == once.Keys;
    assert twice == once;
    OwnersTwice(doc.owners, recs);
  }

  /** The tables the first `i` records own. */
  function Owned(recs: seq<Rec>, i: nat): set<string>
    requires i <= |recs|
  {
    if i == 0 then {}
    else Owned(recs, i - 1) + if OwnsTable(recs[i - 1]) then {recs[i - 1].table.value} else {}
  }

  /** What a merge makes of a table's owner depends on its first value only if no record owns it. */
  lemma {:induction false} OwnersFrom(o: map<string, string>, other: map<string, string>, recs: seq<Rec>, i: nat)
    requires i <= |recs|
    ensures var a, b := MergeOwners(o, recs[..i]), MergeOwners(other, recs[..i]);
            && a.Keys == o.Keys + Owned(recs, i) && b.Keys == other.Keys + Owned(recs, i)
            && (forall t :: t in Owned(recs, i) ==> a[t] == b[t])
            && (forall t :: t in other && t !in Owned(recs, i) ==> b[t] == other[t])
  {
    if i == 0 {
      assert recs[..0] == [];
    } else {
      assert recs[..i][..i - 1] == recs[..i - 1] && recs[..i][i - 1] == recs[i - 1];
      OwnersFrom(o, other, recs, i - 1);
    }
  }

  lemma OwnersTwice(o: map<string, string>, recs: seq<Rec>)
    ensures MergeOwners(MergeOwners(o, recs), recs) == MergeOwners(o, recs)
  {
    var once := MergeOwners(o, recs);
    assert recs[..|recs|] == recs;
    OwnersFrom(o, once, recs, |recs|);
  }
}
