/**
 * What one run of the goal does, stated against Mojo.Executed: the skip flags,
 * the combined annotations file, the archive and the attached artifact.
 */
module MojoProperties {
  import opened Wrappers
  import opened Tree
  import opened Paths
  import opened Files
  import opened Combiner
  import opened Assembler
  import opened ArchiveLayout
  import opened Mojo

  /** The last character of a path that does not end in a separator is the
      last character of its base name. */
  lemma BaseNameLast(p: string)
    requires |p| > 0 && p[|p| - 1] != '/'
    ensures var b := BaseName(p); |b| > 0 && b[|b| - 1] == p[|p| - 1]
  {
    var b := BaseName(p);
    assert |b| > 0;
    assert p[|p| - |b|..][|b| - 1] == p[|p| - 1];
  }

  /** The files the goal writes and the mandatory file it reads have
      different base names, so they are different files. */
  lemma PathsDistinct(s: Settings, p: ProjectInfo)
    ensures ZipPath(s, p) != AnnotationsPath(s)
    ensures Join(s.datasetPath, REQUIREMENTS_YML) != ZipPath(s, p)
    ensures Join(s.datasetPath, REQUIREMENTS_YML) != AnnotationsPath(s)
  {
    var zipName := ZipArtifactFilename(p.finalName);
    DatasetNames(s.outputDirectory, ANNOTATIONS_YML);
    DatasetNames(s.datasetPath, REQUIREMENTS_YML);
    BaseNameJoin(s.outputDirectory, zipName);
    BaseNameLast(zipName);
    var b := BaseName(zipName);
    assert b[|b| - 1] == 'p';
    assert ANNOTATIONS_YML[|ANNOTATIONS_YML| - 1] == 'l';
    assert REQUIREMENTS_YML[|REQUIREMENTS_YML| - 1] == 'l';
  }

  predicate InputsReadable(s: Settings, env: Environment, fs: FileSystem) {
    && ReadSubtree(fs, env.readTree, s.requirementsAnnotationsFile, IMPLEMENTATIONS).Success?
    && ReadSubtree(fs, env.readTree, s.svcsAnnotationsFile, TESTS).Success?
  }

  /** Whether the archive can be assembled on disk `d`: the archive file can be
      created, requirements.yml is a regular file, and the walk, which sees the
      disk with the new empty archive on it, can be read and selects no two test
      results with the same name. */
  predicate ArchiveBuildable(s: Settings, p: ProjectInfo, env: Environment, d: FileSystem) {
    && d.CanCreate(s.outputDirectory, ZipArtifactFilename(p.finalName))
    && d.IsFile(Join(s.datasetPath, REQUIREMENTS_YML))
    && var job := AssemblyJob(s, p, env, d.Write(ZipPath(s, p), Raw([])));
       WalkReadable(job, env.walk) && DistinctNames(TestResultEntries(job, env.walk))
  }

  /** assembleZipArtifact on disk `d`: when the archive file can be created
      it exists afterwards and holds the entries that were assembled, whether
      or not assembly failed; otherwise it fails without touching the disk.
      No other file and no directory changes. */
  lemma AssemblyCreatesArchive(s: Settings, p: ProjectInfo, env: Environment, d: FileSystem)
    ensures var a := AssembleOnDisk(s, p, env, d);
            var z := ZipPath(s, p);
            && a.fs.dirs == d.dirs
            && (forall q :: q != z ==> (a.fs.IsFile(q) <==> d.IsFile(q)))
            && (forall q :: q != z && d.IsFile(q) ==> a.fs.files[q] == d.files[q])
            && (d.CanCreate(s.outputDirectory, ZipArtifactFilename(p.finalName)) ==>
                  && a.fs.IsFile(z)
                  && a.fs.files[z] == Zip(Assembled(AssemblyJob(s, p, env, d.Write(z, Raw([])))).entries))
            && (!d.CanCreate(s.outputDirectory, ZipArtifactFilename(p.finalName)) ==>
                  a == Assembly(d, Some(Io(CannotCreate(z)))))
  {
  }

  /** The goal succeeds exactly when it is skipped, or when both inputs can be
      read, annotations.yml can be created in the output directory and, unless
      assembly is skipped, the archive can be assembled. */
  lemma SucceedsExactlyWhen(s: Settings, p: ProjectInfo, env: Environment, fs: FileSystem, attached: seq<Artifact>)
    ensures Executed(s, p, env, fs, attached).outcome.Pass? <==>
            || s.skip
            || (&& InputsReadable(s, env, fs)
                && var d := fs.Mkdirs(s.outputDirectory);
                   && d.CanCreate(s.outputDirectory, ANNOTATIONS_YML)
                   && (s.skipAssembleZipArtifact ||
                       ArchiveBuildable(s, p, env, d.Write(AnnotationsPath(s), YamlDoc([SCHEMA_ANNOTATIONS], CombineOutput(
                         ReadSubtree(fs, env.readTree, s.requirementsAnnotationsFile, IMPLEMENTATIONS).value,
                         ReadSubtree(fs, env.readTree, s.svcsAnnotationsFile, TESTS).value))))))
  {
    if !s.skip && InputsReadable(s, env, fs) {
      var combined := CombineOutput(ReadSubtree(fs, env.readTree, s.requirementsAnnotationsFile, IMPLEMENTATIONS).value,
                                    ReadSubtree(fs, env.readTree, s.svcsAnnotationsFile, TESTS).value);
      var d := fs.Mkdirs(s.outputDirectory);
      if d.CanCreate(s.outputDirectory, ANNOTATIONS_YML) && !s.skipAssembleZipArtifact {
        var written := d.Write(AnnotationsPath(s), YamlDoc([SCHEMA_ANNOTATIONS], combined));
        var zipName := ZipArtifactFilename(p.finalName);
        if written.CanCreate(s.outputDirectory, zipName) {
          var created := written.Write(ZipPath(s, p), Raw([]));
          PathsDistinct(s, p);
          AssembledEntries(AssemblyJob(s, p, env, created));
        }
      }
    }
  }

  /** The skip flag and attachment: a skipped goal changes nothing; an
      artifact is attached exactly when the goal succeeds and attachment is not
      skipped, whether or not assembly is. */
  lemma ExecutionAttaches(s: Settings, p: ProjectInfo, env: Environment, fs: FileSystem, attached: seq<Artifact>)
    ensures var r := Executed(s, p, env, fs, attached);
            && (s.skip ==> r == Run(fs, attached, Pass))
            && (r.outcome.Fail? ==> r.attached == attached)
            && (r.outcome.Pass? ==>
                  r.attached == attached + (if s.skip || s.skipAttachZipArtifact then []
                                            else [Artifact("zip", OUTPUT_ARTIFACT_CLASSIFIER, ZipPath(s, p))]))
  {
  }

  /** The assembly flag: a goal that skips assembly leaves the archive path as
      it found it; one that assembles and succeeds leaves an archive there. */
  lemma ExecutionAssembles(s: Settings, p: ProjectInfo, env: Environment, fs: FileSystem, attached: seq<Artifact>)
    ensures var r := Executed(s, p, env, fs, attached);
            && (s.skipAssembleZipArtifact ==>
                  && (r.fs.IsFile(ZipPath(s, p)) <==> fs.IsFile(ZipPath(s, p)))
                  && (fs.IsFile(ZipPath(s, p)) ==> r.fs.files[ZipPath(s, p)] == fs.files[ZipPath(s, p)]))
            && (!s.skip && !s.skipAssembleZipArtifact && r.outcome.Pass? ==>
                  r.fs.IsFile(ZipPath(s, p)) && r.fs.files[ZipPath(s, p)].Zip?)
  {
    PathsDistinct(s, p);
  }

  /** Failures carry the fixed message and their I/O cause, except the missing
      requirements.yml, which has its own message, naming the path, and no
      cause. */
  lemma ExecutionFailures(s: Settings, p: ProjectInfo, env: Environment, fs: FileSystem, attached: seq<Artifact>)
    ensures var r := Executed(s, p, env, fs, attached);
            && (r.outcome.Fail? && r.outcome.error.cause.Some? ==> r.outcome.error.message == EXECUTION_FAILED)
            && (r.outcome.Fail? && r.outcome.error.cause.None? ==>
                  r.outcome.error == MojoExecutionException(MissingMessage(Join(s.datasetPath, REQUIREMENTS_YML)), None))
  {
    if !s.skip && InputsReadable(s, env, fs) && !s.skipAssembleZipArtifact {
      var combined := CombineOutput(ReadSubtree(fs, env.readTree, s.requirementsAnnotationsFile, IMPLEMENTATIONS).value,
                                    ReadSubtree(fs, env.readTree, s.svcsAnnotationsFile, TESTS).value);
      var written := fs.Mkdirs(s.outputDirectory).Write(AnnotationsPath(s), YamlDoc([SCHEMA_ANNOTATIONS], combined));
      AssemblyFailures(s, p, env, written);
    }
  }

  /** assembleZipArtifact fails without a cause only for the missing
      requirements.yml. */
  lemma AssemblyFailures(s: Settings, p: ProjectInfo, env: Environment, d: FileSystem)
    ensures var f := AssembleOnDisk(s, p, env, d).failure;
            f.Some? && !f.value.Io? ==> f.value == MissingMandatory(MissingMessage(Join(s.datasetPath, REQUIREMENTS_YML)))
  {
    AssembledFailures(AssemblyJob(s, p, env, d.Write(ZipPath(s, p), Raw([]))));
  }

  /** Whenever the inputs can be read and annotations.yml can be created, the
      goal leaves annotations.yml holding the schema comment and the combined
      document, whatever happens to the archive; an input file that does not
      exist contributes an empty object, so its key is left out. */
  lemma AnnotationsWritten(s: Settings, p: ProjectInfo, env: Environment, fs: FileSystem, attached: seq<Artifact>,
                           implementations: Node, tests: Node)
    requires !s.skip
    requires ReadSubtree(fs, env.readTree, s.requirementsAnnotationsFile, IMPLEMENTATIONS) == Success(implementations)
    requires ReadSubtree(fs, env.readTree, s.svcsAnnotationsFile, TESTS) == Success(tests)
    requires fs.Mkdirs(s.outputDirectory).CanCreate(s.outputDirectory, ANNOTATIONS_YML)
    ensures var r := Executed(s, p, env, fs, attached);
            && r.fs.IsFile(AnnotationsPath(s))
            && r.fs.files[AnnotationsPath(s)] == YamlDoc([SCHEMA_ANNOTATIONS], CombineOutput(implementations, tests))
    ensures !fs.Exists(s.requirementsAnnotationsFile) ==> IMPLEMENTATIONS !in Inner(CombineOutput(implementations, tests))
    ensures !fs.Exists(s.svcsAnnotationsFile) ==> TESTS !in Inner(CombineOutput(implementations, tests))
  {
    PathsDistinct(s, p);
  }

  /** Whether an input `file` either does not exist, or is a regular file that
      parses to `doc`. */
  predicate ParsesOrAbsent(fs: FileSystem, readTree: Content -> Option<Node>, file: string, doc: Node) {
    !fs.Exists(file) || (fs.IsFile(file) && readTree(fs.files[file]) == Some(doc))
  }

  /** What the combined document holds under `key` for an input `file` that is
      absent or parses to `doc`: nothing for an absent file, otherwise the
      document's `requirement_annotations` / `key` subtree unless it is empty. */
  function ExpectedSubtree(fs: FileSystem, file: string, doc: Node, key: string): Node {
    if !fs.Exists(file) then Missing
    else
      var n := Path(Path(doc, REQUIREMENT_ANNOTATIONS), key);
      if IsEmpty(n) then Missing else n
  }

  /** From input documents to annotations.yml: when each input is absent or
      parses, annotations.yml ends up holding the schema comment and a document
      whose `implementations` and `tests` are those of the inputs, each left out
      when its input is absent or its subtree is empty, and nothing else. */
  lemma InputsCombined(s: Settings, p: ProjectInfo, env: Environment, fs: FileSystem, attached: seq<Artifact>,
                       implementationsDoc: Node, testsDoc: Node)
    requires !s.skip
    requires ParsesOrAbsent(fs, env.readTree, s.requirementsAnnotationsFile, implementationsDoc)
    requires ParsesOrAbsent(fs, env.readTree, s.svcsAnnotationsFile, testsDoc)
    requires fs.Mkdirs(s.outputDirectory).CanCreate(s.outputDirectory, ANNOTATIONS_YML)
    ensures var r := Executed(s, p, env, fs, attached);
            && r.fs.IsFile(AnnotationsPath(s))
            && var written := r.fs.files[AnnotationsPath(s)];
               && written.YamlDoc? && written.comments == [SCHEMA_ANNOTATIONS]
               && Inner(written.body).Keys <= {IMPLEMENTATIONS, TESTS}
               && Subtree(written.body, IMPLEMENTATIONS)
                  == ExpectedSubtree(fs, s.requirementsAnnotationsFile, implementationsDoc, IMPLEMENTATIONS)
               && Subtree(written.body, TESTS) == ExpectedSubtree(fs, s.svcsAnnotationsFile, testsDoc, TESTS)
  {
    var implementations := ReadSubtree(fs, env.readTree, s.requirementsAnnotationsFile, IMPLEMENTATIONS).value;
    var tests := ReadSubtree(fs, env.readTree, s.svcsAnnotationsFile, TESTS).value;
    AnnotationsWritten(s, p, env, fs, attached, implementations, tests);
  }

  /** Whether reading an existing input fails: it is not a regular file, or
      it does not parse. */
  predicate Unreadable(fs: FileSystem, readTree: Content -> Option<Node>, file: string) {
    fs.Exists(file) && (!fs.IsFile(file) || readTree(fs.files[file]).None?)
  }

  /** The I/O failure reading an unreadable input raises. */
  function ReadError(fs: FileSystem, file: string): IoError {
    if fs.IsFile(file) then CannotParse(file) else CannotRead(file)
  }

  /** An input that exists but cannot be read stops the goal before anything
      is written or attached, with the wrapped I/O failure; the requirements
      annotations are read first, so their failure wins. Inputs that are
      absent or parse never stop it. */
  lemma InputFailures(s: Settings, p: ProjectInfo, env: Environment, fs: FileSystem, attached: seq<Artifact>)
    requires !s.skip
    ensures var r := Executed(s, p, env, fs, attached);
            var req := s.requirementsAnnotationsFile;
            var svcs := s.svcsAnnotationsFile;
            && (Unreadable(fs, env.readTree, req) ==>
                  r == Run(fs, attached, Fail(MojoExecutionException(EXECUTION_FAILED, Some(ReadError(fs, req))))))
            && (!Unreadable(fs, env.readTree, req) && Unreadable(fs, env.readTree, svcs) ==>
                  r == Run(fs, attached, Fail(MojoExecutionException(EXECUTION_FAILED, Some(ReadError(fs, svcs))))))
            && (!Unreadable(fs, env.readTree, req) && !Unreadable(fs, env.readTree, svcs) <==>
                  InputsReadable(s, env, fs))
  {
  }

  /** Without requirements.yml the goal fails with the missing path in its
      message, attaches nothing, and leaves an empty archive behind, because
      the archive file is created before the check. */
  lemma MissingRequirementsLeavesEmptyArchive(s: Settings, p: ProjectInfo, env: Environment, fs: FileSystem,
                                              attached: seq<Artifact>)
    requires !s.skip && !s.skipAssembleZipArtifact
    requires InputsReadable(s, env, fs)
    requires fs.Mkdirs(s.outputDirectory).CanCreate(s.outputDirectory, ANNOTATIONS_YML)
    requires fs.Mkdirs(s.outputDirectory).CanCreate(s.outputDirectory, ZipArtifactFilename(p.finalName))
    requires !fs.IsFile(Join(s.datasetPath, REQUIREMENTS_YML))
    ensures var r := Executed(s, p, env, fs, attached);
            && r.outcome == Fail(MojoExecutionException(MissingMessage(Join(s.datasetPath, REQUIREMENTS_YML)), None))
            && r.attached == attached
            && r.fs.IsFile(ZipPath(s, p)) && r.fs.files[ZipPath(s, p)] == Zip([])
  {
    PathsDistinct(s, p);
    var combined := CombineOutput(ReadSubtree(fs, env.readTree, s.requirementsAnnotationsFile, IMPLEMENTATIONS).value,
                                  ReadSubtree(fs, env.readTree, s.svcsAnnotationsFile, TESTS).value);
    var written := fs.Mkdirs(s.outputDirectory).Write(AnnotationsPath(s), YamlDoc([SCHEMA_ANNOTATIONS], combined));
    var created := written.Write(ZipPath(s, p), Raw([]));
    AssembledMissingMandatory(AssemblyJob(s, p, env, created));
  }

  /** A successful run that assembles leaves an archive that holds the
      combined annotations document under annotations.yml below the top-level
      directory, and ends with the manifest, which records annotations.yml. */
  lemma ArchiveHoldsAnnotations(s: Settings, p: ProjectInfo, env: Environment, fs: FileSystem, attached: seq<Artifact>,
                                implementations: Node, tests: Node)
    requires !s.skip && !s.skipAssembleZipArtifact
    requires ReadSubtree(fs, env.readTree, s.requirementsAnnotationsFile, IMPLEMENTATIONS) == Success(implementations)
    requires ReadSubtree(fs, env.readTree, s.svcsAnnotationsFile, TESTS) == Success(tests)
    requires Executed(s, p, env, fs, attached).outcome.Pass?
    ensures var r := Executed(s, p, env, fs, attached);
            var top := TopLevelDir(p.finalName);
            && r.fs.IsFile(ZipPath(s, p)) && r.fs.files[ZipPath(s, p)].Zip?
            && var entries := r.fs.files[ZipPath(s, p)].entries;
               && Entry(Join(top, ANNOTATIONS_YML), YamlDoc([SCHEMA_ANNOTATIONS], CombineOutput(implementations, tests))) in entries
               && |entries| > 0 && entries[|entries| - 1].name == Join(top, REQSTOOL_CONFIG_YML)
               && entries[|entries| - 1].content.ConfigDoc?
               && var resources := entries[|entries| - 1].content.config.resources;
                  "annotations" in resources && resources["annotations"] == FileName(ANNOTATIONS_YML)
  {
    PathsDistinct(s, p);
    var doc := YamlDoc([SCHEMA_ANNOTATIONS], CombineOutput(implementations, tests));
    var written := fs.Mkdirs(s.outputDirectory).Write(AnnotationsPath(s), doc);
    var created := written.Write(ZipPath(s, p), Raw([]));
    var job := AssemblyJob(s, p, env, created);
    assert created.IsFile(AnnotationsPath(s)) && created.files[AnnotationsPath(s)] == doc;
    AssembledEntries(job);
    AssembledResources(job);
    assert Optional(job, AnnotationsPath(s), ANNOTATIONS_YML) == [Entry(Join(TopLevelDir(p.finalName), ANNOTATIONS_YML), doc)];
  }
}
