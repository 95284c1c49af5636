/**
 * The archive assembler (assembleZipArtifact, addFileToZipArtifact and
 * addReqstoolConfigYamlToZip): which entries go into the reqstool archive,
 * under which names and in which order, which keys the manifest's resource
 * map gets, and when assembly fails.
 */
module Assembler {
  import opened Wrappers
  import opened Paths
  import opened Files

  const REQUIREMENTS_YML := "requirements.yml"
  const SOFTWARE_VERIFICATION_CASES_YML := "software_verification_cases.yml"
  const MANUAL_VERIFICATION_RESULTS_YML := "manual_verification_results.yml"
  const ANNOTATIONS_YML := "annotations.yml"
  const REQSTOOL_CONFIG_YML := "reqstool_config.yml"
  const TEST_RESULTS_DIR := "test_results"

  /** The `test_results` value the manifest always gets. */
  const TEST_RESULTS_PATTERN: seq<string> := ["test_results/**/*.xml"]

  const SCHEMA_CONFIG := "# yaml-language-server: $schema=https://raw.githubusercontent.com/reqstool/reqstool-client/main/src/reqstool/resources/schemas/v1/reqstool_config.schema.json"

  /** Why assembly stops: the mandatory dataset file is missing
      (MojoExecutionException), or a file operation failed (IOException). */
  datatype Failure = MissingMandatory(message: string) | Io(cause: IoError)

  /** A compiled glob pattern applied to a path relative to the project base
      directory; the glob syntax itself belongs to the JDK. */
  type Matcher = (string, string) -> bool

  /** Everything one assembly reads: the disk, the configured directories and
      patterns, the project's final name, base directory and version, the order
      in which the file-tree walk visits the files under the base directory
      (as paths relative to it) and the glob matcher. */
  datatype Job = Job(
    fs: FileSystem,
    datasetPath: string,
    outputDirectory: string,
    basedir: string,
    finalName: string,
    version: string,
    testResults: seq<string>,
    walk: seq<string>,
    matches: Matcher)

  function TopLevelDir(finalName: string): string {
    finalName + "-reqstool"
  }

  function ZipArtifactFilename(finalName: string): string {
    finalName + "-reqstool.zip"
  }

  function MissingMessage(path: string): string {
    "Missing mandatory " + REQUIREMENTS_YML + ": " + path
  }

  /** Whether some configured pattern matches the relative path. */
  predicate AnyMatch(matches: Matcher, patterns: seq<string>, rel: string) {
    exists i :: 0 <= i < |patterns| && matches(patterns[i], rel)
  }

  /** The name addFileToZipArtifact gives `file` inside the archive: its base
      name, under `targetDirectory` unless that has an empty name. */
  function EntryName(targetDirectory: string, file: string): string {
    if BaseName(targetDirectory) == "" then BaseName(file) else Join(targetDirectory, BaseName(file))
  }

  /** The names of the entries an archive holds. */
  function Names(entries: seq<Entry>): set<string> {
    set e | e in entries :: e.name
  }

  /** What addFileToZipArtifact appends to an archive whose entries have the
      names `taken`: nothing for a path that does not exist, a duplicate-entry
      failure when the name is taken, one entry holding the content of a regular
      file, and a read failure for anything else that exists (a directory). */
  function FileEntries(fs: FileSystem, file: string, targetDirectory: string, taken: set<string>): Result<seq<Entry>, IoError> {
    if !fs.Exists(file) then Success([])
    else if EntryName(targetDirectory, file) in taken then Failure(DuplicateEntry(EntryName(targetDirectory, file)))
    else if fs.IsFile(file) then Success([Entry(EntryName(targetDirectory, file), fs.files[file])])
    else Failure(CannotRead(file))
  }

  /** The entry addFileToZipArtifact has already started when reading the
      file fails: its name, and no content. */
  function PartialEntry(targetDirectory: string, file: string): Entry {
    Entry(EntryName(targetDirectory, file), Raw([]))
  }

  /** The manifest entry: the schema comment and the version comment, then
      language, build and the resource map. */
  function ConfigEntry(topLevelDir: string, version: string, resources: map<string, Res>): Entry {
    Entry(Join(topLevelDir, REQSTOOL_CONFIG_YML),
          ConfigDoc([SCHEMA_CONFIG, "# version: " + version], ReqstoolConfig("java", "maven", resources)))
  }

  /** The state of an assembly: the entries written so far, the resource map,
      the number of matched test results and the failure that stopped it. */
  datatype Progress = Progress(entries: seq<Entry>, resources: map<string, Res>, count: nat, failure: Option<Failure>)

  /** What a failed addFileToZipArtifact leaves behind: the entry it had
      started when reading the file failed, and nothing when the name was taken. */
  function FailedEntries(e: IoError, targetDirectory: string, file: string): seq<Entry> {
    if e.CannotRead? then [PartialEntry(targetDirectory, file)] else []
  }

  /** An optional dataset file: added, and recorded in the resource map under
      `key`, when it is a regular file; a failure stops the assembly. */
  function AddOptional(fs: FileSystem, p: Progress, file: string, topLevelDir: string, key: string): (r: Progress)
    ensures r.count == p.count
  {
    if p.failure.Some? || !fs.IsFile(file) then p
    else
      var added := FileEntries(fs, file, topLevelDir, Names(p.entries));
      if added.Failure? then p.(entries := p.entries + FailedEntries(added.error, topLevelDir, file), failure := Some(Io(added.error)))
      else p.(entries := p.entries + added.value, resources := p.resources[key := FileName(BaseName(file))])
  }

  function TestResultsTarget(job: Job): string {
    Join(TopLevelDir(job.finalName), TEST_RESULTS_DIR)
  }

  /** One file visited by the walk: a matching file is added under test_results
      and counted. */
  function Visit(job: Job, rel: string, p: Progress): Progress {
    if !AnyMatch(job.matches, job.testResults, rel) then p
    else match FileEntries(job.fs, Join(job.basedir, rel), TestResultsTarget(job), Names(p.entries))
      case Success(added) => p.(entries := p.entries + added, count := p.count + 1)
      case Failure(e) => p.(entries := p.entries + FailedEntries(e, TestResultsTarget(job), Join(job.basedir, rel)),
                            failure := Some(Io(e)))
  }

  /** The walk over the remaining files, stopping at the first failure. */
  function Walked(job: Job, walk: seq<string>, p: Progress): Progress
    decreases |walk|
  {
    if |walk| == 0 || p.failure.Some? then p
    else Walked(job, walk[1..], Visit(job, walk[0], p))
  }

  /** The state after the mandatory requirements file has been added. */
  function RequirementsAdded(job: Job): Progress
    requires job.fs.IsFile(Join(job.datasetPath, REQUIREMENTS_YML))
  {
    var requirementsFile := Join(job.datasetPath, REQUIREMENTS_YML);
    Progress(FileEntries(job.fs, requirementsFile, TopLevelDir(job.finalName), {}).value,
             map["requirements" := FileName(BaseName(requirementsFile))], 0, None)
  }

  /** The state after software_verification_cases.yml has been added if it is a
      regular file. */
  function SvcsAdded(job: Job): Progress
    requires job.fs.IsFile(Join(job.datasetPath, REQUIREMENTS_YML))
  {
    AddOptional(job.fs, RequirementsAdded(job), Join(job.datasetPath, SOFTWARE_VERIFICATION_CASES_YML),
                TopLevelDir(job.finalName), "software_verification_cases")
  }

  /** The state after manual_verification_results.yml has been added if it is a
      regular file. */
  function MvrsAdded(job: Job): Progress
    requires job.fs.IsFile(Join(job.datasetPath, REQUIREMENTS_YML))
  {
    AddOptional(job.fs, SvcsAdded(job), Join(job.datasetPath, MANUAL_VERIFICATION_RESULTS_YML),
                TopLevelDir(job.finalName), "manual_verification_results")
  }

  /** The state after the dataset files and the annotations file have been
      added (the mandatory file being a regular file). */
  function DatasetAdded(job: Job): (d: Progress)
    requires job.fs.IsFile(Join(job.datasetPath, REQUIREMENTS_YML))
    ensures d.count == 0
  {
    AddOptional(job.fs, MvrsAdded(job), Join(job.outputDirectory, ANNOTATIONS_YML), TopLevelDir(job.finalName), "annotations")
  }

  /** The state the assembly ends in, step by step as the source performs it. */
  function Assembled(job: Job): Progress {
    var requirementsFile := Join(job.datasetPath, REQUIREMENTS_YML);
    if !job.fs.IsFile(requirementsFile) then
      Progress([], map[], 0, Some(MissingMandatory(MissingMessage(requirementsFile))))
    else
      var walked := Walked(job, job.walk, DatasetAdded(job));
      if walked.failure.Some? then walked
      else
        var resources := walked.resources["test_results" := Patterns(TEST_RESULTS_PATTERN)];
        var config := ConfigEntry(TopLevelDir(job.finalName), job.version, resources);
        if config.name in Names(walked.entries) then
          walked.(resources := resources, failure := Some(Io(DuplicateEntry(config.name))))
        else walked.(entries := walked.entries + [config], resources := resources)
  }

  /** The open archive (the ZipOutputStream) together with the manifest's
      resource map that assembly fills in beside it. */
  class ZipArtifact {
    var entries: seq<Entry>
    var resources: map<string, Res>

    constructor ()
      ensures entries == [] && resources == map[]
    {
      entries := [];
      resources := map[];
    }

    method AddFileToZipArtifact(fs: FileSystem, file: string, targetDirectory: string) returns (r: Outcome<IoError>)
      modifies this`entries
      ensures var added := FileEntries(fs, file, targetDirectory, Names(old(entries)));
              && (added.Success? ==> r == Pass && entries == old(entries) + added.value)
              && (added.Failure? ==> r == Fail(added.error) && entries == old(entries) + FailedEntries(added.error, targetDirectory, file))
    {
      if fs.Exists(file) {
        var entryName := EntryName(targetDirectory, file);
        // putNextEntry refuses a name the archive already holds
        if entryName in Names(entries) {
          assert FileEntries(fs, file, targetDirectory, Names(entries)) == Failure(DuplicateEntry(entryName));
          return Fail(DuplicateEntry(entryName));
        }
        if !fs.IsFile(file) {
          assert FileEntries(fs, file, targetDirectory, Names(entries)) == Failure(CannotRead(file));
          // the entry is started before the read fails, and closing the archive keeps it
          entries := entries + [Entry(entryName, Raw([]))];
          return Fail(CannotRead(file));
        }
        assert FileEntries(fs, file, targetDirectory, Names(entries)) == Success([Entry(entryName, fs.files[file])]);
        entries := entries + [Entry(entryName, fs.files[file])];
      } else {
        assert FileEntries(fs, file, targetDirectory, Names(entries)) == Success([]);
      }
      return Pass;
    }

    /** HashMap.put on the resource map. */
    method PutResource(key: string, value: Res)
      modifies this`resources
      ensures resources == old(resources)[key := value]
    {
      resources := resources[key := value];
    }

    method AddReqstoolConfigYamlToZip(topLevelDir: string, version: string, configResources: map<string, Res>)
      returns (r: Outcome<IoError>)
      modifies this`entries
      ensures var config := ConfigEntry(topLevelDir, version, configResources);
              && (config.name in Names(old(entries)) ==> r == Fail(DuplicateEntry(config.name)) && entries == old(entries))
              && (config.name !in Names(old(entries)) ==> r == Pass && entries == old(entries) + [config])
    {
      var name := Join(topLevelDir, REQSTOOL_CONFIG_YML);
      if name in Names(entries) {
        return Fail(DuplicateEntry(name));
      }
      var comments := [SCHEMA_CONFIG, "# version: " + version];
      var yamlData := ReqstoolConfig("java", "maven", configResources);
      entries := entries + [Entry(name, ConfigDoc(comments, yamlData))];
      return Pass;
    }
  }

  /** The body of assembleZipArtifact between opening and closing the archive:
      fills `zipOut` and ends in the state Assembled describes. */
  method AssembleEntries(zipOut: ZipArtifact, job: Job) returns (testResultsCount: nat, failure: Option<Failure>)
    requires zipOut.entries == [] && zipOut.resources == map[]
    modifies zipOut
    ensures var a := Assembled(job);
            && zipOut.entries == a.entries && zipOut.resources == a.resources
            && testResultsCount == a.count && failure == a.failure
  {
    var requirementsFile := Join(job.datasetPath, REQUIREMENTS_YML);
    if !job.fs.IsFile(requirementsFile) {
      return 0, Some(MissingMandatory(MissingMessage(requirementsFile)));
    }
    failure := AddDatasetFiles(zipOut, job);
    ghost var d := DatasetAdded(job);
    if failure.Some? {
      assert Walked(job, job.walk, d) == d;
      return 0, failure;
    }
    assert d == Progress(zipOut.entries, zipOut.resources, 0, None);
    testResultsCount, failure := WalkTestResults(zipOut, job);
    if failure.Some? {
      return;
    }
    zipOut.PutResource("test_results", Patterns(TEST_RESULTS_PATTERN));
    var r := zipOut.AddReqstoolConfigYamlToZip(TopLevelDir(job.finalName), job.version, zipOut.resources);
    if r.Fail? {
      failure := Some(Io(r.error));
    }
  }

  /** Adds the mandatory requirements file, the optional dataset files and the
      annotations file, recording each in the resource map, until one fails. */
  method AddDatasetFiles(zipOut: ZipArtifact, job: Job) returns (failure: Option<Failure>)
    requires job.fs.IsFile(Join(job.datasetPath, REQUIREMENTS_YML))
    requires zipOut.entries == [] && zipOut.resources == map[]
    modifies zipOut
    ensures var d := DatasetAdded(job);
            zipOut.entries == d.entries && zipOut.resources == d.resources && failure == d.failure
  {
    var top := TopLevelDir(job.finalName);
    var requirementsFile := Join(job.datasetPath, REQUIREMENTS_YML);
    var added := zipOut.AddFileToZipArtifact(job.fs, requirementsFile, top);
    zipOut.PutResource("requirements", FileName(BaseName(requirementsFile)));
    ghost var p0 := Progress(zipOut.entries, zipOut.resources, 0, None);
    assert p0 == RequirementsAdded(job);
    failure := AddOptionalFile(zipOut, job.fs, Join(job.datasetPath, SOFTWARE_VERIFICATION_CASES_YML), top, "software_verification_cases");
    ghost var p1 := Progress(zipOut.entries, zipOut.resources, 0, failure);
    assert p1 == SvcsAdded(job);
    if failure.Some? {
      return;
    }
    failure := AddOptionalFile(zipOut, job.fs, Join(job.datasetPath, MANUAL_VERIFICATION_RESULTS_YML), top, "manual_verification_results");
    ghost var p2 := Progress(zipOut.entries, zipOut.resources, 0, failure);
    assert p2 == MvrsAdded(job);
    if failure.Some? {
      return;
    }
    failure := AddOptionalFile(zipOut, job.fs, Join(job.outputDirectory, ANNOTATIONS_YML), top, "annotations");
  }

  /** Adds `file` and records it under `key` if it is a regular file. */
  method AddOptionalFile(zipOut: ZipArtifact, fs: FileSystem, file: string, topLevelDir: string, key: string)
    returns (failure: Option<Failure>)
    modifies zipOut
    ensures var p := AddOptional(fs, Progress(old(zipOut.entries), old(zipOut.resources), 0, None), file, topLevelDir, key);
            zipOut.entries == p.entries && zipOut.resources == p.resources && failure == p.failure
  {
    ghost var p := Progress(zipOut.entries, zipOut.resources, 0, None);
    AddOptionalCases(fs, p, file, topLevelDir, key);
    failure := None;
    if fs.IsFile(file) {
      var r := zipOut.AddFileToZipArtifact(fs, file, topLevelDir);
      if r.Fail? {
        return Some(Io(r.error));
      }
      zipOut.PutResource(key, FileName(BaseName(file)));
    }
  }

  /** The three outcomes of adding an optional file. */
  lemma AddOptionalCases(fs: FileSystem, p: Progress, file: string, topLevelDir: string, key: string)
    requires p.failure.None?
    ensures var added := FileEntries(fs, file, topLevelDir, Names(p.entries));
            && (!fs.IsFile(file) ==> AddOptional(fs, p, file, topLevelDir, key) == p)
            && (fs.IsFile(file) && added.Success? ==>
                  AddOptional(fs, p, file, topLevelDir, key)
                  == p.(entries := p.entries + added.value, resources := p.resources[key := FileName(BaseName(file))]))
            && (fs.IsFile(file) && added.Failure? ==>
                  AddOptional(fs, p, file, topLevelDir, key)
                  == p.(entries := p.entries + FailedEntries(added.error, topLevelDir, file), failure := Some(Io(added.error))))
  {
  }

  /** The file-tree walk: every visited file that matches a pattern is added
      under test_results and counted, in walk order, until a read fails. */
  method WalkTestResults(zipOut: ZipArtifact, job: Job) returns (testResultsCount: nat, failure: Option<Failure>)
    modifies zipOut
    ensures Progress(zipOut.entries, zipOut.resources, testResultsCount, failure)
            == Walked(job, job.walk, Progress(old(zipOut.entries), old(zipOut.resources), 0, None))
  {
    var target := Join(TopLevelDir(job.finalName), TEST_RESULTS_DIR);
    testResultsCount := 0;
    var i := 0;
    while i < |job.walk|
      invariant 0 <= i <= |job.walk|
      invariant zipOut.resources == old(zipOut.resources)
      invariant Walked(job, job.walk[i..], Progress(zipOut.entries, zipOut.resources, testResultsCount, None))
                == Walked(job, job.walk, Progress(old(zipOut.entries), old(zipOut.resources), 0, None))
    {
      var rel := job.walk[i];
      assert job.walk[i..][1..] == job.walk[i + 1..];
      if AnyMatch(job.matches, job.testResults, rel) {
        var r := zipOut.AddFileToZipArtifact(job.fs, Join(job.basedir, rel), target);
        if r.Fail? {
          return testResultsCount, Some(Io(r.error));
        }
        testResultsCount := testResultsCount + 1;
      }
      i := i + 1;
    }
    assert job.walk[i..] == [];
    failure := None;
  }
}
