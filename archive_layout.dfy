/**
 * What the assembled archive contains, stated without the step-by-step
 * machinery of Assembler.Assembled, and the lemmas that connect the two.
 */
module ArchiveLayout {
  import opened Wrappers
  import opened Paths
  import opened Files
  import opened Assembler

  /** A dataset file as it appears in the archive: under `name`, directly below
      the top-level directory, when it is a regular file. */
  function Optional(job: Job, file: string, name: string): seq<Entry> {
    if job.fs.IsFile(file) then [Entry(Join(TopLevelDir(job.finalName), name), job.fs.files[file])] else []
  }

  predicate Selected(job: Job, rel: string) {
    AnyMatch(job.matches, job.testResults, rel) && job.fs.IsFile(Join(job.basedir, rel))
  }

  /** The archive entry of a selected test result: its base name below
      test_results, whatever directories it came from. */
  function TestEntry(job: Job, rel: string): Entry
    requires Selected(job, rel)
  {
    Entry(Join(Join(TopLevelDir(job.finalName), TEST_RESULTS_DIR), BaseName(rel)),
          job.fs.files[Join(job.basedir, rel)])
  }

  /** The entries one walked path contributes: its test-result entry when it
      is selected, none otherwise. */
  function SelectedEntries(job: Job, rel: string): seq<Entry> {
    if Selected(job, rel) then [TestEntry(job, rel)] else []
  }

  /** The test-result entries of a walk: one per selected path, in walk order. */
  function TestResultEntries(job: Job, walk: seq<string>): seq<Entry>
    decreases |walk|
  {
    if |walk| == 0 then []
    else SelectedEntries(job, walk[0]) + TestResultEntries(job, walk[1..])
  }

  /** The number of walked paths that some pattern matches. */
  function MatchCount(job: Job, walk: seq<string>): nat
    decreases |walk|
  {
    if |walk| == 0 then 0
    else (if AnyMatch(job.matches, job.testResults, walk[0]) then 1 else 0) + MatchCount(job, walk[1..])
  }

  /** A walked path that a pattern matches and that exists on disk is a
      regular file, so it can be read. */
  predicate Readable(job: Job, rel: string) {
    AnyMatch(job.matches, job.testResults, rel) && job.fs.Exists(Join(job.basedir, rel)) ==> job.fs.IsFile(Join(job.basedir, rel))
  }

  predicate WalkReadable(job: Job, walk: seq<string>) {
    forall i :: 0 <= i < |walk| ==> Readable(job, walk[i])
  }

  lemma TopLevelNames(finalName: string)
    ensures BaseName(TopLevelDir(finalName)) != ""
    ensures BaseName(Join(TopLevelDir(finalName), TEST_RESULTS_DIR)) == TEST_RESULTS_DIR
  {
    var top := TopLevelDir(finalName);
    assert top[|top| - 1] == 'l';
    BaseNameJoin(top, TEST_RESULTS_DIR);
    BaseNameOfName(TEST_RESULTS_DIR);
  }

  /** addFileToZipArtifact names a file below a non-empty target directory by
      the base name of its path. */
  lemma EntryNameBelow(targetDirectory: string, dir: string, p: string)
    requires BaseName(targetDirectory) != ""
    ensures EntryName(targetDirectory, Join(dir, p)) == Join(targetDirectory, BaseName(p))
  {
    BaseNameJoin(dir, p);
  }

  lemma WalkReadableTail(job: Job, walk: seq<string>)
    requires |walk| > 0
    ensures WalkReadable(job, walk) <==> Readable(job, walk[0]) && WalkReadable(job, walk[1..])
  {
    if Readable(job, walk[0]) && WalkReadable(job, walk[1..]) {
      forall i | 0 <= i < |walk| ensures Readable(job, walk[i]) {
        if i > 0 {
          assert walk[i] == walk[1..][i - 1];
        }
      }
    }
  }

  /** Whether `entries` can be appended, in order, to an archive holding the
      names `taken` without writing a name twice. */
  predicate FreshNames(taken: set<string>, entries: seq<Entry>)
    decreases |entries|
  {
    |entries| == 0 || (entries[0].name !in taken && FreshNames(taken + {entries[0].name}, entries[1..]))
  }

  /** No two of the entries have the same name. */
  predicate DistinctNames(entries: seq<Entry>) {
    forall i, j :: 0 <= i < j < |entries| ==> entries[i].name != entries[j].name
  }

  lemma NamesConcat(a: seq<Entry>, b: seq<Entry>)
    ensures Names(a + b) == Names(a) + Names(b)
  {
    forall x | x in Names(a + b) ensures x in Names(a) + Names(b) {
      var e :| e in a + b && e.name == x;
    }
    forall x | x in Names(a) + Names(b) ensures x in Names(a + b) {
      if x in Names(a) {
        var e :| e in a && e.name == x;
        assert e in a + b;
      } else {
        var e :| e in b && e.name == x;
        assert e in a + b;
      }
    }
  }

  /** Appending two runs of entries keeps every name fresh exactly when the first
      run does and the second avoids the names of both the archive and the first. */
  lemma {:induction false} FreshNamesConcat(taken: set<string>, a: seq<Entry>, b: seq<Entry>)
    ensures FreshNames(taken, a + b) <==> FreshNames(taken, a) && FreshNames(taken + Names(a), b)
    decreases |a|
  {
    if |a| == 0 {
      assert a + b == b;
      assert Names(a) == {};
      assert taken + Names(a) == taken;
    } else {
      var x := a[0];
      assert (a + b)[0] == x;
      assert (a + b)[1..] == a[1..] + b;
      FreshNamesConcat(taken + {x.name}, a[1..], b);
      assert a == [x] + a[1..];
      NamesConcat([x], a[1..]);
      assert Names([x]) == {x.name};
      assert taken + {x.name} + Names(a[1..]) == taken + Names(a);
    }
  }

  /** Fresh names are the same as names outside `taken` that are pairwise
      different. */
  lemma {:induction false} FreshNamesDistinct(taken: set<string>, entries: seq<Entry>)
    ensures FreshNames(taken, entries) <==>
              (forall k :: 0 <= k < |entries| ==> entries[k].name !in taken) && DistinctNames(entries)
    decreases |entries|
  {
    if |entries| > 0 {
      var x := entries[0];
      var rest := entries[1..];
      FreshNamesDistinct(taken + {x.name}, rest);
      if FreshNames(taken, entries) {
        forall i, j | 0 <= i < j < |entries| ensures entries[i].name != entries[j].name {
          assert entries[j] == rest[j - 1];
          if i > 0 {
            assert entries[i] == rest[i - 1];
          }
        }
        forall k | 0 <= k < |entries| ensures entries[k].name !in taken {
          if k > 0 {
            assert entries[k] == rest[k - 1];
          }
        }
      }
      if (forall k :: 0 <= k < |entries| ==> entries[k].name !in taken) && DistinctNames(entries) {
        forall k | 0 <= k < |rest| ensures rest[k].name !in taken + {x.name} {
          assert rest[k] == entries[k + 1];
        }
        forall i, j | 0 <= i < j < |rest| ensures rest[i].name != rest[j].name {
          assert rest[i] == entries[i + 1] && rest[j] == entries[j + 1];
        }
      }
    }
  }

  /** One visited file. It never touches the resource map. A path no pattern
      matches changes nothing, a matching path that does not exist is only
      counted, and a matching regular file with a new name is added as its
      test-result entry and counted; a matching directory or a matching file
      whose name the archive already holds fails the walk. */
  lemma VisitEffect(job: Job, rel: string, p: Progress)
    ensures Visit(job, rel, p).resources == p.resources
    ensures Readable(job, rel) && FreshNames(Names(p.entries), SelectedEntries(job, rel)) ==>
              && Visit(job, rel, p).entries == p.entries + SelectedEntries(job, rel)
              && Visit(job, rel, p).count == p.count + (if AnyMatch(job.matches, job.testResults, rel) then 1 else 0)
              && Visit(job, rel, p).failure == p.failure
    ensures !(Readable(job, rel) && FreshNames(Names(p.entries), SelectedEntries(job, rel))) ==>
              Visit(job, rel, p).failure.Some? && Visit(job, rel, p).failure.value.Io?
  {
    var file := Join(job.basedir, rel);
    var target := TestResultsTarget(job);
    var taken := Names(p.entries);
    if !AnyMatch(job.matches, job.testResults, rel) {
      assert Visit(job, rel, p) == p;
    } else if !job.fs.Exists(file) {
      assert FileEntries(job.fs, file, target, taken) == Success([]);
      assert Visit(job, rel, p) == p.(count := p.count + 1);
    } else {
      TopLevelNames(job.finalName);
      EntryNameBelow(target, job.basedir, rel);
      var added := FileEntries(job.fs, file, target, taken);
      if added.Success? {
        assert job.fs.IsFile(file) && added == Success([TestEntry(job, rel)]);
        assert SelectedEntries(job, rel) == [TestEntry(job, rel)];
        assert FreshNames(taken, [TestEntry(job, rel)]);
        assert Visit(job, rel, p) == p.(entries := p.entries + [TestEntry(job, rel)], count := p.count + 1);
      } else {
        assert Visit(job, rel, p) == p.(entries := p.entries + FailedEntries(added.error, target, file), failure := Some(Io(added.error)));
        if job.fs.IsFile(file) {
          assert SelectedEntries(job, rel) == [TestEntry(job, rel)];
          assert TestEntry(job, rel).name in taken;
        }
      }
    }
  }

  /** The walk adds exactly the selected test results in walk order and counts
      every match; it fails exactly when a matching path is a directory or a
      selected test result has a name the archive already holds. */
  lemma WalkedEntries(job: Job, walk: seq<string>, p: Progress)
    requires p.failure.None?
    ensures Walked(job, walk, p).resources == p.resources
    ensures Walked(job, walk, p).failure.None? <==>
              WalkReadable(job, walk) && FreshNames(Names(p.entries), TestResultEntries(job, walk))
    ensures Walked(job, walk, p).failure.None? ==>
              Walked(job, walk, p).entries == p.entries + TestResultEntries(job, walk)
              && Walked(job, walk, p).count == p.count + MatchCount(job, walk)
  {
    WalkedResources(job, walk, p);
    WalkedFailure(job, walk, p);
    if Walked(job, walk, p).failure.None? {
      WalkedSelection(job, walk, p);
    }
  }

  lemma {:induction false} WalkedResources(job: Job, walk: seq<string>, p: Progress)
    ensures Walked(job, walk, p).resources == p.resources
    decreases |walk|
  {
    if |walk| > 0 && p.failure.None? {
      var v := Visit(job, walk[0], p);
      VisitEffect(job, walk[0], p);
      WalkedResources(job, walk[1..], v);
    }
  }

  lemma {:induction false} WalkedFailure(job: Job, walk: seq<string>, p: Progress)
    requires p.failure.None?
    ensures Walked(job, walk, p).failure.None? <==>
              WalkReadable(job, walk) && FreshNames(Names(p.entries), TestResultEntries(job, walk))
    decreases |walk|
  {
    if |walk| > 0 {
      var rel := walk[0];
      var rest := walk[1..];
      var v := Visit(job, rel, p);
      var added := SelectedEntries(job, rel);
      WalkReadableTail(job, walk);
      VisitEffect(job, rel, p);
      assert TestResultEntries(job, walk) == added + TestResultEntries(job, rest);
      FreshNamesConcat(Names(p.entries), added, TestResultEntries(job, rest));
      if Readable(job, rel) && FreshNames(Names(p.entries), added) {
        NamesConcat(p.entries, added);
        WalkedFailure(job, rest, v);
      } else {
        assert Walked(job, walk, p) == v;
      }
    }
  }

  lemma {:induction false} WalkedSelection(job: Job, walk: seq<string>, p: Progress)
    requires p.failure.None? && WalkReadable(job, walk)
    requires FreshNames(Names(p.entries), TestResultEntries(job, walk))
    ensures Walked(job, walk, p).entries == p.entries + TestResultEntries(job, walk)
    ensures Walked(job, walk, p).count == p.count + MatchCount(job, walk)
    decreases |walk|
  {
    if |walk| > 0 {
      var v := Visit(job, walk[0], p);
      SelectionStep(job, walk, p);
      AppendAssociative(p.entries, SelectedEntries(job, walk[0]), TestResultEntries(job, walk[1..]));
      WalkedSelection(job, walk[1..], v);
    }
  }

  /** The first visit of a walk that succeeds leaves the rest of the walk
      readable and with fresh names. */
  lemma SelectionStep(job: Job, walk: seq<string>, p: Progress)
    requires |walk| > 0 && p.failure.None? && WalkReadable(job, walk)
    requires FreshNames(Names(p.entries), TestResultEntries(job, walk))
    ensures var v := Visit(job, walk[0], p);
            && v.failure.None? && v.entries == p.entries + SelectedEntries(job, walk[0])
            && v.count == p.count + (if AnyMatch(job.matches, job.testResults, walk[0]) then 1 else 0)
            && WalkReadable(job, walk[1..]) && FreshNames(Names(v.entries), TestResultEntries(job, walk[1..]))
            && TestResultEntries(job, walk) == SelectedEntries(job, walk[0]) + TestResultEntries(job, walk[1..])
  {
    var added := SelectedEntries(job, walk[0]);
    WalkReadableTail(job, walk);
    FreshNamesConcat(Names(p.entries), added, TestResultEntries(job, walk[1..]));
    VisitEffect(job, walk[0], p);
    NamesConcat(p.entries, added);
  }

  lemma AppendAssociative(a: seq<Entry>, b: seq<Entry>, c: seq<Entry>)
    ensures a + b + c == a + (b + c)
  {
  }

  /** Every selected walked path has its entry among the test results, every
      test-result entry comes from a selected walked path, and there are no more
      of them than there are matches: as many when every match is a file. */
  lemma TestResultSelection(job: Job, walk: seq<string>)
    ensures forall i :: 0 <= i < |walk| && Selected(job, walk[i]) ==> TestEntry(job, walk[i]) in TestResultEntries(job, walk)
    ensures forall e :: e in TestResultEntries(job, walk) ==>
              exists i :: 0 <= i < |walk| && Selected(job, walk[i]) && e == TestEntry(job, walk[i])
    ensures |TestResultEntries(job, walk)| <= MatchCount(job, walk)
    ensures (forall i :: 0 <= i < |walk| && AnyMatch(job.matches, job.testResults, walk[i]) ==> Selected(job, walk[i]))
            ==> |TestResultEntries(job, walk)| == MatchCount(job, walk)
  {
    SelectedAreAdded(job, walk);
    AddedAreSelected(job, walk);
    TestResultCount(job, walk);
  }

  lemma {:induction false} SelectedAreAdded(job: Job, walk: seq<string>)
    ensures forall i :: 0 <= i < |walk| && Selected(job, walk[i]) ==> TestEntry(job, walk[i]) in TestResultEntries(job, walk)
    decreases |walk|
  {
    if |walk| > 0 {
      var rest := walk[1..];
      SelectedAreAdded(job, rest);
      assert TestResultEntries(job, walk) == SelectedEntries(job, walk[0]) + TestResultEntries(job, rest);
      forall i | 0 <= i < |walk| && Selected(job, walk[i])
        ensures TestEntry(job, walk[i]) in TestResultEntries(job, walk)
      {
        if i == 0 {
          assert TestEntry(job, walk[0]) in SelectedEntries(job, walk[0]);
        } else {
          assert walk[i] == rest[i - 1];
          assert TestEntry(job, rest[i - 1]) in TestResultEntries(job, rest);
        }
      }
    }
  }

  lemma {:induction false} AddedAreSelected(job: Job, walk: seq<string>)
    ensures forall e :: e in TestResultEntries(job, walk) ==>
              exists i :: 0 <= i < |walk| && Selected(job, walk[i]) && e == TestEntry(job, walk[i])
    decreases |walk|
  {
    if |walk| > 0 {
      var rest := walk[1..];
      AddedAreSelected(job, rest);
      assert TestResultEntries(job, walk) == SelectedEntries(job, walk[0]) + TestResultEntries(job, rest);
      forall e | e in TestResultEntries(job, walk)
        ensures exists i :: 0 <= i < |walk| && Selected(job, walk[i]) && e == TestEntry(job, walk[i])
      {
        if e in TestResultEntries(job, rest) {
          var k :| 0 <= k < |rest| && Selected(job, rest[k]) && e == TestEntry(job, rest[k]);
          assert rest[k] == walk[k + 1];
        } else {
          assert e in SelectedEntries(job, walk[0]);
          assert Selected(job, walk[0]) && e == TestEntry(job, walk[0]);
        }
      }
    }
  }

  lemma {:induction false} TestResultCount(job: Job, walk: seq<string>)
    ensures |TestResultEntries(job, walk)| <= MatchCount(job, walk)
    ensures (forall i :: 0 <= i < |walk| && AnyMatch(job.matches, job.testResults, walk[i]) ==> Selected(job, walk[i]))
            ==> |TestResultEntries(job, walk)| == MatchCount(job, walk)
    decreases |walk|
  {
    if |walk| > 0 {
      var rest := walk[1..];
      TestResultCount(job, rest);
      assert TestResultEntries(job, walk) == SelectedEntries(job, walk[0]) + TestResultEntries(job, rest);
      if forall i :: 0 <= i < |walk| && AnyMatch(job.matches, job.testResults, walk[i]) ==> Selected(job, walk[i]) {
        forall i | 0 <= i < |rest| && AnyMatch(job.matches, job.testResults, rest[i])
          ensures Selected(job, rest[i])
        {
          assert rest[i] == walk[i + 1];
        }
      }
    }
  }

  /** The names of the dataset entries: the fixed file names directly below
      the top-level directory. */
  function DatasetEntryNames(top: string): set<string> {
    {Join(top, REQUIREMENTS_YML), Join(top, SOFTWARE_VERIFICATION_CASES_YML),
     Join(top, MANUAL_VERIFICATION_RESULTS_YML), Join(top, ANNOTATIONS_YML)}
  }

  lemma Outside(x: string, names: set<string>, bound: set<string>)
    requires names <= bound && x !in bound
    ensures x !in names
  {
  }

  /** The fixed file names contain no separator, the dataset entries they name
      below one directory are pairwise different, and none is the manifest. */
  lemma FixedNames(top: string)
    ensures '/' !in REQUIREMENTS_YML && '/' !in SOFTWARE_VERIFICATION_CASES_YML
    ensures '/' !in MANUAL_VERIFICATION_RESULTS_YML && '/' !in ANNOTATIONS_YML && '/' !in REQSTOOL_CONFIG_YML
    ensures Join(top, SOFTWARE_VERIFICATION_CASES_YML) != Join(top, REQUIREMENTS_YML)
    ensures Join(top, MANUAL_VERIFICATION_RESULTS_YML) !in {Join(top, REQUIREMENTS_YML), Join(top, SOFTWARE_VERIFICATION_CASES_YML)}
    ensures Join(top, ANNOTATIONS_YML) !in
              {Join(top, REQUIREMENTS_YML), Join(top, SOFTWARE_VERIFICATION_CASES_YML), Join(top, MANUAL_VERIFICATION_RESULTS_YML)}
    ensures Join(top, REQSTOOL_CONFIG_YML) !in DatasetEntryNames(top)
  {
    assert Join(top, SOFTWARE_VERIFICATION_CASES_YML)[|top| + 1] == 's';
    assert Join(top, MANUAL_VERIFICATION_RESULTS_YML)[|top| + 1] == 'm';
  }

  /** A name directly below a directory is never a name below its
      test_results subdirectory. */
  lemma SeparatedNames(top: string, n: string, b: string)
    requires '/' !in n
    ensures Join(top, n) != Join(Join(top, TEST_RESULTS_DIR), b)
  {
    var x := Join(top, n);
    var y := Join(Join(top, TEST_RESULTS_DIR), b);
    if |x| == |y| {
      var k := |top| + 1 + |TEST_RESULTS_DIR|;
      assert y[k] == '/';
      assert x[k] == n[|TEST_RESULTS_DIR|];
    }
  }

  /** No test-result entry has the name of a dataset entry or of the manifest. */
  lemma TestNamesOutside(job: Job, walk: seq<string>)
    ensures var top := TopLevelDir(job.finalName);
            forall e :: e in TestResultEntries(job, walk) ==>
              e.name !in DatasetEntryNames(top) && e.name != Join(top, REQSTOOL_CONFIG_YML)
  {
    var top := TopLevelDir(job.finalName);
    AddedAreSelected(job, walk);
    forall e | e in TestResultEntries(job, walk)
      ensures e.name !in DatasetEntryNames(top) && e.name != Join(top, REQSTOOL_CONFIG_YML)
    {
      var i :| 0 <= i < |walk| && Selected(job, walk[i]) && e == TestEntry(job, walk[i]);
      BelowTestResults(top, BaseName(walk[i]));
    }
  }

  /** A name below test_results is neither a dataset entry nor the manifest. */
  lemma BelowTestResults(top: string, b: string)
    ensures Join(Join(top, TEST_RESULTS_DIR), b) !in DatasetEntryNames(top)
    ensures Join(Join(top, TEST_RESULTS_DIR), b) != Join(top, REQSTOOL_CONFIG_YML)
  {
    FixedNames(top);
    SeparatedNames(top, REQUIREMENTS_YML, b);
    SeparatedNames(top, SOFTWARE_VERIFICATION_CASES_YML, b);
    SeparatedNames(top, MANUAL_VERIFICATION_RESULTS_YML, b);
    SeparatedNames(top, ANNOTATIONS_YML, b);
    SeparatedNames(top, REQSTOOL_CONFIG_YML, b);
  }

  /** The keys of the manifest's resource map are pairwise different. */
  lemma ResourceKeysDistinct()
    ensures var keys := ["requirements", "software_verification_cases", "manual_verification_results", "annotations", "test_results"];
            forall i, j :: 0 <= i < j < |keys| ==> keys[i] != keys[j]
  {
    assert "requirements"[0] != "test_results"[0];
    assert "software_verification_cases"[0] != "manual_verification_results"[0];
  }

  /** An optional dataset file named `name` in directory `dir`, whose archive
      name is still free, adds Optional's entries and nothing else but its
      resource. */
  lemma OptionalEntries(job: Job, p: Progress, dir: string, name: string, key: string)
    requires '/' !in name && p.failure.None?
    requires Join(TopLevelDir(job.finalName), name) !in Names(p.entries)
    ensures var q := AddOptional(job.fs, p, Join(dir, name), TopLevelDir(job.finalName), key);
            && q.entries == p.entries + Optional(job, Join(dir, name), name)
            && q.count == p.count && q.failure.None?
            && Names(q.entries) <= Names(p.entries) + {Join(TopLevelDir(job.finalName), name)}
  {
    var file := Join(dir, name);
    var top := TopLevelDir(job.finalName);
    NamesConcat(p.entries, Optional(job, file, name));
    AddOptionalCases(job.fs, p, file, top, key);
    if job.fs.IsFile(file) {
      OptionalAdded(job, p, dir, name);
      assert Names(Optional(job, file, name)) == {Join(top, name)};
    } else {
      assert Optional(job, file, name) == [];
    }
  }

  /** An optional dataset file named `name` in directory `dir`, whose archive
      name is still free, is recorded under `key` with its name exactly when it
      is a regular file. */
  lemma OptionalResources(job: Job, p: Progress, dir: string, name: string, key: string)
    requires '/' !in name && p.failure.None?
    requires Join(TopLevelDir(job.finalName), name) !in Names(p.entries)
    ensures var q := AddOptional(job.fs, p, Join(dir, name), TopLevelDir(job.finalName), key);
            q.resources == (if job.fs.IsFile(Join(dir, name)) then p.resources[key := FileName(name)] else p.resources)
  {
    var file := Join(dir, name);
    AddOptionalCases(job.fs, p, file, TopLevelDir(job.finalName), key);
    if job.fs.IsFile(file) {
      OptionalAdded(job, p, dir, name);
    }
  }

  /** A regular dataset file whose archive name is free is added whole. */
  lemma OptionalAdded(job: Job, p: Progress, dir: string, name: string)
    requires '/' !in name && job.fs.IsFile(Join(dir, name))
    requires Join(TopLevelDir(job.finalName), name) !in Names(p.entries)
    ensures BaseName(Join(dir, name)) == name
    ensures FileEntries(job.fs, Join(dir, name), TopLevelDir(job.finalName), Names(p.entries))
            == Success([Entry(Join(TopLevelDir(job.finalName), name), job.fs.files[Join(dir, name)])])
  {
    TopLevelNames(job.finalName);
    DatasetNames(dir, name);
    EntryNameBelow(TopLevelDir(job.finalName), dir, name);
  }

  /** The key recorded for an optional file: present exactly when the file is
      a regular file, mapped to its name. */
  predicate Recorded(job: Job, r: map<string, Res>, key: string, file: string, name: string) {
    (key in r <==> job.fs.IsFile(file)) && (key in r ==> r[key] == FileName(name))
  }

  /** software_verification_cases.yml follows requirements.yml when it is a
      regular file. */
  lemma SvcsEntries(job: Job)
    requires job.fs.IsFile(Join(job.datasetPath, REQUIREMENTS_YML))
    ensures var top := TopLevelDir(job.finalName);
            var q := SvcsAdded(job);
            && q.failure.None? && q.count == 0
            && q.entries == RequirementsAdded(job).entries + Optional(job, Join(job.datasetPath, SOFTWARE_VERIFICATION_CASES_YML), SOFTWARE_VERIFICATION_CASES_YML)
            && Names(q.entries) <= {Join(top, REQUIREMENTS_YML), Join(top, SOFTWARE_VERIFICATION_CASES_YML)}
  {
    var top := TopLevelDir(job.finalName);
    var p := RequirementsAdded(job);
    FixedNames(top);
    RequirementsEntry(job);
    assert Names(p.entries) == {Join(top, REQUIREMENTS_YML)};
    OptionalEntries(job, p, job.datasetPath, SOFTWARE_VERIFICATION_CASES_YML, "software_verification_cases");
  }

  /** manual_verification_results.yml comes next when it is a regular file. */
  lemma MvrsEntries(job: Job)
    requires job.fs.IsFile(Join(job.datasetPath, REQUIREMENTS_YML))
    ensures var top := TopLevelDir(job.finalName);
            var q := MvrsAdded(job);
            && q.failure.None? && q.count == 0
            && q.entries == SvcsAdded(job).entries + Optional(job, Join(job.datasetPath, MANUAL_VERIFICATION_RESULTS_YML), MANUAL_VERIFICATION_RESULTS_YML)
            && Names(q.entries) <= {Join(top, REQUIREMENTS_YML), Join(top, SOFTWARE_VERIFICATION_CASES_YML), Join(top, MANUAL_VERIFICATION_RESULTS_YML)}
  {
    var top := TopLevelDir(job.finalName);
    var p := SvcsAdded(job);
    FixedNames(top);
    SvcsEntries(job);
    Outside(Join(top, MANUAL_VERIFICATION_RESULTS_YML), Names(p.entries), {Join(top, REQUIREMENTS_YML), Join(top, SOFTWARE_VERIFICATION_CASES_YML)});
    OptionalEntries(job, p, job.datasetPath, MANUAL_VERIFICATION_RESULTS_YML, "manual_verification_results");
  }

  /** annotations.yml comes last among the dataset files when it is a regular
      file. */
  lemma AnnotationsEntries(job: Job)
    requires job.fs.IsFile(Join(job.datasetPath, REQUIREMENTS_YML))
    ensures var q := DatasetAdded(job);
            && q.failure.None?
            && q.entries == MvrsAdded(job).entries + Optional(job, Join(job.outputDirectory, ANNOTATIONS_YML), ANNOTATIONS_YML)
            && Names(q.entries) <= DatasetEntryNames(TopLevelDir(job.finalName))
  {
    var top := TopLevelDir(job.finalName);
    var p := MvrsAdded(job);
    FixedNames(top);
    MvrsEntries(job);
    Outside(Join(top, ANNOTATIONS_YML), Names(p.entries),
            {Join(top, REQUIREMENTS_YML), Join(top, SOFTWARE_VERIFICATION_CASES_YML), Join(top, MANUAL_VERIFICATION_RESULTS_YML)});
    OptionalEntries(job, p, job.outputDirectory, ANNOTATIONS_YML, "annotations");
  }

  /** software_verification_cases.yml is recorded when it is a regular file. */
  lemma SvcsResources(job: Job)
    requires job.fs.IsFile(Join(job.datasetPath, REQUIREMENTS_YML))
    ensures var r := SvcsAdded(job).resources;
            && r.Keys <= {"requirements", "software_verification_cases"}
            && "requirements" in r && r["requirements"] == FileName(REQUIREMENTS_YML)
            && Recorded(job, r, "software_verification_cases", Join(job.datasetPath, SOFTWARE_VERIFICATION_CASES_YML), SOFTWARE_VERIFICATION_CASES_YML)
  {
    var top := TopLevelDir(job.finalName);
    var p := RequirementsAdded(job);
    FixedNames(top);
    RequirementsEntry(job);
    assert Names(p.entries) == {Join(top, REQUIREMENTS_YML)};
    OptionalResources(job, p, job.datasetPath, SOFTWARE_VERIFICATION_CASES_YML, "software_verification_cases");
  }

  /** manual_verification_results.yml is recorded when it is a regular file. */
  lemma MvrsResources(job: Job)
    requires job.fs.IsFile(Join(job.datasetPath, REQUIREMENTS_YML))
    ensures var r := MvrsAdded(job).resources;
            && r.Keys <= {"requirements", "software_verification_cases", "manual_verification_results"}
            && "requirements" in r && r["requirements"] == FileName(REQUIREMENTS_YML)
            && Recorded(job, r, "software_verification_cases", Join(job.datasetPath, SOFTWARE_VERIFICATION_CASES_YML), SOFTWARE_VERIFICATION_CASES_YML)
            && Recorded(job, r, "manual_verification_results", Join(job.datasetPath, MANUAL_VERIFICATION_RESULTS_YML), MANUAL_VERIFICATION_RESULTS_YML)
  {
    var top := TopLevelDir(job.finalName);
    var p := SvcsAdded(job);
    FixedNames(top);
    SvcsEntries(job);
    Outside(Join(top, MANUAL_VERIFICATION_RESULTS_YML), Names(p.entries), {Join(top, REQUIREMENTS_YML), Join(top, SOFTWARE_VERIFICATION_CASES_YML)});
    OptionalResources(job, p, job.datasetPath, MANUAL_VERIFICATION_RESULTS_YML, "manual_verification_results");
    assert MvrsAdded(job).resources == (if job.fs.IsFile(Join(job.datasetPath, MANUAL_VERIFICATION_RESULTS_YML))
                                        then p.resources["manual_verification_results" := FileName(MANUAL_VERIFICATION_RESULTS_YML)]
                                        else p.resources);
    SvcsResources(job);
    ResourceKeysDistinct();
  }

  /** The dataset part of the archive: requirements.yml first, then the optional
      files that exist, in their fixed order, each under its own name. */
  lemma DatasetEntries(job: Job)
    requires job.fs.IsFile(Join(job.datasetPath, REQUIREMENTS_YML))
    ensures var d := DatasetAdded(job);
            && d.failure.None? && d.count == 0
            && d.entries == [Entry(Join(TopLevelDir(job.finalName), REQUIREMENTS_YML), job.fs.files[Join(job.datasetPath, REQUIREMENTS_YML)])]
                            + Optional(job, Join(job.datasetPath, SOFTWARE_VERIFICATION_CASES_YML), SOFTWARE_VERIFICATION_CASES_YML)
                            + Optional(job, Join(job.datasetPath, MANUAL_VERIFICATION_RESULTS_YML), MANUAL_VERIFICATION_RESULTS_YML)
                            + Optional(job, Join(job.outputDirectory, ANNOTATIONS_YML), ANNOTATIONS_YML)
            && Names(d.entries) <= DatasetEntryNames(TopLevelDir(job.finalName))
  {
    RequirementsEntry(job);
    SvcsEntries(job);
    MvrsEntries(job);
    AnnotationsEntries(job);
  }

  /** The dataset part of the resource map: requirements.yml, and each
      optional file exactly when it was added. */
  lemma DatasetResources(job: Job)
    requires job.fs.IsFile(Join(job.datasetPath, REQUIREMENTS_YML))
    ensures var r := DatasetAdded(job).resources;
            && r.Keys <= {"requirements", "software_verification_cases", "manual_verification_results", "annotations"}
            && "requirements" in r && r["requirements"] == FileName(REQUIREMENTS_YML)
            && Recorded(job, r, "software_verification_cases", Join(job.datasetPath, SOFTWARE_VERIFICATION_CASES_YML), SOFTWARE_VERIFICATION_CASES_YML)
            && Recorded(job, r, "manual_verification_results", Join(job.datasetPath, MANUAL_VERIFICATION_RESULTS_YML), MANUAL_VERIFICATION_RESULTS_YML)
            && Recorded(job, r, "annotations", Join(job.outputDirectory, ANNOTATIONS_YML), ANNOTATIONS_YML)
  {
    var top := TopLevelDir(job.finalName);
    var p := MvrsAdded(job);
    FixedNames(top);
    MvrsEntries(job);
    Outside(Join(top, ANNOTATIONS_YML), Names(p.entries),
            {Join(top, REQUIREMENTS_YML), Join(top, SOFTWARE_VERIFICATION_CASES_YML), Join(top, MANUAL_VERIFICATION_RESULTS_YML)});
    OptionalResources(job, p, job.outputDirectory, ANNOTATIONS_YML, "annotations");
    assert DatasetAdded(job).resources == (if job.fs.IsFile(Join(job.outputDirectory, ANNOTATIONS_YML))
                                           then p.resources["annotations" := FileName(ANNOTATIONS_YML)]
                                           else p.resources);
    MvrsResources(job);
    ResourceKeysDistinct();
  }

  /** requirements.yml goes directly below the top-level directory and is
      recorded under its own name. */
  lemma RequirementsEntry(job: Job)
    requires job.fs.IsFile(Join(job.datasetPath, REQUIREMENTS_YML))
    ensures var p := RequirementsAdded(job);
            && p.entries == [Entry(Join(TopLevelDir(job.finalName), REQUIREMENTS_YML), job.fs.files[Join(job.datasetPath, REQUIREMENTS_YML)])]
            && p.resources == map["requirements" := FileName(REQUIREMENTS_YML)]
            && p.count == 0 && p.failure.None?
  {
    var top := TopLevelDir(job.finalName);
    TopLevelNames(job.finalName);
    DatasetNames(job.datasetPath, REQUIREMENTS_YML);
    EntryNameBelow(top, job.datasetPath, REQUIREMENTS_YML);
  }

  /** Assembly succeeds exactly when requirements.yml is a regular file, no
      matching walked path is a directory and no two selected test results
      share a name. It then writes, in this order: requirements.yml,
      software_verification_cases.yml and manual_verification_results.yml when
      they are files, annotations.yml when it is a file, the selected test
      results in walk order, and the manifest last; the counter ends at the
      number of matches. */
  lemma AssembledEntries(job: Job)
    ensures var a := Assembled(job);
            var top := TopLevelDir(job.finalName);
            var requirementsFile := Join(job.datasetPath, REQUIREMENTS_YML);
            && (a.failure.None? <==>
                  job.fs.IsFile(requirementsFile) && WalkReadable(job, job.walk) && DistinctNames(TestResultEntries(job, job.walk)))
            && (a.failure.None? ==>
                  && a.entries == [Entry(Join(top, REQUIREMENTS_YML), job.fs.files[requirementsFile])]
                                  + Optional(job, Join(job.datasetPath, SOFTWARE_VERIFICATION_CASES_YML), SOFTWARE_VERIFICATION_CASES_YML)
                                  + Optional(job, Join(job.datasetPath, MANUAL_VERIFICATION_RESULTS_YML), MANUAL_VERIFICATION_RESULTS_YML)
                                  + Optional(job, Join(job.outputDirectory, ANNOTATIONS_YML), ANNOTATIONS_YML)
                                  + TestResultEntries(job, job.walk)
                                  + [ConfigEntry(top, job.version, a.resources)]
                  && a.count == MatchCount(job, job.walk))
  {
    if job.fs.IsFile(Join(job.datasetPath, REQUIREMENTS_YML)) {
      var d := DatasetAdded(job);
      DatasetEntries(job);
      WalkedEntries(job, job.walk, d);
      ConfigNameFree(job);
      TestNamesFresh(job);
    }
  }

  /** After the dataset files, the test results have fresh names exactly when
      they have pairwise different names. */
  lemma TestNamesFresh(job: Job)
    requires job.fs.IsFile(Join(job.datasetPath, REQUIREMENTS_YML))
    ensures FreshNames(Names(DatasetAdded(job).entries), TestResultEntries(job, job.walk))
            <==> DistinctNames(TestResultEntries(job, job.walk))
  {
    DatasetEntries(job);
    TestNamesOutside(job, job.walk);
    FreshNamesDistinct(Names(DatasetAdded(job).entries), TestResultEntries(job, job.walk));
  }

  /** The manifest's name is free when the walk has succeeded. */
  lemma ConfigNameFree(job: Job)
    requires job.fs.IsFile(Join(job.datasetPath, REQUIREMENTS_YML))
    ensures var d := DatasetAdded(job);
            Join(TopLevelDir(job.finalName), REQSTOOL_CONFIG_YML) !in Names(d.entries + TestResultEntries(job, job.walk))
  {
    var d := DatasetAdded(job);
    var top := TopLevelDir(job.finalName);
    DatasetEntries(job);
    FixedNames(top);
    TestNamesOutside(job, job.walk);
    NamesConcat(d.entries, TestResultEntries(job, job.walk));
  }

  lemma DatasetNames(dir: string, name: string)
    requires '/' !in name
    ensures BaseName(Join(dir, name)) == name
  {
    BaseNameJoin(dir, name);
    BaseNameOfName(name);
  }

  /** On success the manifest's resource map has `requirements` and
      `test_results`, and each optional key exactly when its file was added,
      mapped to that file's name, and no other key; `test_results` is always the
      fixed default pattern list, whatever patterns were configured. */
  lemma AssembledResources(job: Job)
    requires Assembled(job).failure.None?
    ensures var r := Assembled(job).resources;
            && r.Keys <= {"requirements", "software_verification_cases", "manual_verification_results", "annotations", "test_results"}
            && "requirements" in r && r["requirements"] == FileName(REQUIREMENTS_YML)
            && "test_results" in r && r["test_results"] == Patterns(TEST_RESULTS_PATTERN)
            && Recorded(job, r, "software_verification_cases", Join(job.datasetPath, SOFTWARE_VERIFICATION_CASES_YML), SOFTWARE_VERIFICATION_CASES_YML)
            && Recorded(job, r, "manual_verification_results", Join(job.datasetPath, MANUAL_VERIFICATION_RESULTS_YML), MANUAL_VERIFICATION_RESULTS_YML)
            && Recorded(job, r, "annotations", Join(job.outputDirectory, ANNOTATIONS_YML), ANNOTATIONS_YML)
  {
    ResourceKeysDistinct();
    DatasetEntries(job);
    DatasetResources(job);
    WalkedEntries(job, job.walk, DatasetAdded(job));
  }

  /** The walk fails only by failing to read a file. */
  lemma {:induction false} WalkedFailsWithIo(job: Job, walk: seq<string>, p: Progress)
    requires p.failure.None?
    ensures Walked(job, walk, p).failure.Some? ==> Walked(job, walk, p).failure.value.Io?
    decreases |walk|
  {
    if |walk| > 0 {
      var q := Visit(job, walk[0], p);
      VisitEffect(job, walk[0], p);
      if q.failure.None? {
        WalkedFailsWithIo(job, walk[1..], q);
      }
    }
  }

  /** The only failure that is not an I/O failure is the missing
      requirements.yml, and it names that path. */
  lemma AssembledFailures(job: Job)
    ensures var a := Assembled(job);
            a.failure.Some? && !a.failure.value.Io? ==>
              a.failure.value == MissingMandatory(MissingMessage(Join(job.datasetPath, REQUIREMENTS_YML)))
  {
    if job.fs.IsFile(Join(job.datasetPath, REQUIREMENTS_YML)) {
      DatasetEntries(job);
      WalkedFailsWithIo(job, job.walk, DatasetAdded(job));
    }
  }

  /** Without requirements.yml nothing is added and the failure names the
      missing path. */
  lemma AssembledMissingMandatory(job: Job)
    requires !job.fs.IsFile(Join(job.datasetPath, REQUIREMENTS_YML))
    ensures var a := Assembled(job);
            var path := Join(job.datasetPath, REQUIREMENTS_YML);
            && a.entries == [] && a.resources == map[]
            && a.failure.Some? && a.failure.value.MissingMandatory?
            && var m := a.failure.value.message;
               |m| >= |path| && m[|m| - |path|..] == path
  {
  }
}
