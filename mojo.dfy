/**
 * The Maven goal (RequirementsToolMojo.execute): the skip flags, reading the two
 * upstream annotation documents, writing the combined annotations file, and
 * running assembly and attachment of the archive.
 */
module Mojo {
  import opened Wrappers
  import opened Tree
  import opened Paths
  import opened Files
  import opened Combiner
  import opened Assembler

  const SCHEMA_ANNOTATIONS := "# yaml-language-server: $schema=https://raw.githubusercontent.com/reqstool/reqstool-client/main/src/reqstool/resources/schemas/v1/annotations.schema.json"
  const EXECUTION_FAILED := "Error combining annotations or creating zip file"
  const OUTPUT_ARTIFACT_CLASSIFIER := "reqstool"

  /** The goal's configuration parameters. */
  datatype Settings = Settings(
    requirementsAnnotationsFile: string,
    svcsAnnotationsFile: string,
    outputDirectory: string,
    datasetPath: string,
    testResults: seq<string>,
    skip: bool,
    skipAssembleZipArtifact: bool,
    skipAttachZipArtifact: bool)

  /** What the goal takes from the host project model. */
  datatype ProjectInfo = ProjectInfo(finalName: string, basedir: string, version: string)

  /** What the goal's libraries and the platform decide: how a YAML file parses
      (None when it does not), the order of the file-tree walk, glob matching. */
  datatype Environment = Environment(readTree: Content -> Option<Node>, walk: seq<string>, matches: Matcher)

  /** An artifact registered with the build: type, classifier and file. */
  datatype Artifact = Artifact(kind: string, classifier: string, file: string)

  /** MojoExecutionException: a message and, for wrapped I/O failures, the cause. */
  datatype MojoError = MojoExecutionException(message: string, cause: Option<IoError>)

  /** Where one run of the goal leaves the disk and the attached artifacts, and
      how it ends. */
  datatype Run = Run(fs: FileSystem, attached: seq<Artifact>, outcome: Outcome<MojoError>)

  /** assembleZipArtifact's effect on the disk and its failure, if any. */
  datatype Assembly = Assembly(fs: FileSystem, failure: Option<Failure>)

  /** One input subtree: `requirement_annotations` / `key` of the document in
      `file`, or an empty object when the file does not exist. */
  function ReadSubtree(fs: FileSystem, readTree: Content -> Option<Node>, file: string, key: string): Result<Node, IoError> {
    if !fs.Exists(file) then Success(EmptyObject)
    else if !fs.IsFile(file) then Failure(CannotRead(file))
    else match readTree(fs.files[file])
      case None => Failure(CannotParse(file))
      case Some(doc) => Success(Subtree(doc, key))
  }

  function ZipPath(s: Settings, p: ProjectInfo): string {
    Join(s.outputDirectory, ZipArtifactFilename(p.finalName))
  }

  function AnnotationsPath(s: Settings): string {
    Join(s.outputDirectory, ANNOTATIONS_YML)
  }

  function AssemblyJob(s: Settings, p: ProjectInfo, env: Environment, fs: FileSystem): Job {
    Job(fs, s.datasetPath, s.outputDirectory, p.basedir, p.finalName, p.version, s.testResults, env.walk, env.matches)
  }

  /** assembleZipArtifact: the archive file is created before anything is
      checked, and it is closed, holding the entries written so far, on every
      exit path. */
  function AssembleOnDisk(s: Settings, p: ProjectInfo, env: Environment, fs: FileSystem): Assembly {
    var zipFile := ZipPath(s, p);
    if !fs.CanCreate(s.outputDirectory, ZipArtifactFilename(p.finalName)) then
      Assembly(fs, Some(Io(CannotCreate(zipFile))))
    else
      var created := fs.Write(zipFile, Raw([]));
      var a := Assembled(AssemblyJob(s, p, env, created));
      Assembly(created.Write(zipFile, Zip(a.entries)), a.failure)
  }

  function ToMojoError(f: Failure): MojoError {
    match f
    case MissingMandatory(message) => MojoExecutionException(message, None)
    case Io(cause) => MojoExecutionException(EXECUTION_FAILED, Some(cause))
  }

  /** The whole goal, step by step as execute performs it. */
  function Executed(s: Settings, p: ProjectInfo, env: Environment, fs: FileSystem, attached: seq<Artifact>): Run {
    if s.skip then Run(fs, attached, Pass)
    else match ReadSubtree(fs, env.readTree, s.requirementsAnnotationsFile, IMPLEMENTATIONS)
      case Failure(e) => Run(fs, attached, Fail(MojoExecutionException(EXECUTION_FAILED, Some(e))))
      case Success(implementations) =>
        match ReadSubtree(fs, env.readTree, s.svcsAnnotationsFile, TESTS)
        case Failure(e) => Run(fs, attached, Fail(MojoExecutionException(EXECUTION_FAILED, Some(e))))
        case Success(tests) =>
          var withDir := fs.Mkdirs(s.outputDirectory);
          if !withDir.CanCreate(s.outputDirectory, ANNOTATIONS_YML) then
            Run(withDir, attached, Fail(MojoExecutionException(EXECUTION_FAILED, Some(CannotCreate(AnnotationsPath(s))))))
          else
            var written := withDir.Write(AnnotationsPath(s), YamlDoc([SCHEMA_ANNOTATIONS], CombineOutput(implementations, tests)));
            var assembly := if s.skipAssembleZipArtifact then Assembly(written, None) else AssembleOnDisk(s, p, env, written);
            if assembly.failure.Some? then Run(assembly.fs, attached, Fail(ToMojoError(assembly.failure.value)))
            else if s.skipAttachZipArtifact then Run(assembly.fs, attached, Pass)
            else Run(assembly.fs, attached + [Artifact("zip", OUTPUT_ARTIFACT_CLASSIFIER, ZipPath(s, p))], Pass)
  }

  class RequirementsToolMojo {
    const settings: Settings
    const project: ProjectInfo
    const env: Environment
    /** The disk. */
    var fs: FileSystem
    /** The artifacts attached to the build so far. */
    var attached: seq<Artifact>

    constructor (settings: Settings, project: ProjectInfo, env: Environment, fs: FileSystem)
      ensures this.settings == settings && this.project == project && this.env == env
      ensures this.fs == fs && attached == []
    {
      this.settings := settings;
      this.project := project;
      this.env := env;
      this.fs := fs;
      attached := [];
    }

    method Execute() returns (r: Outcome<MojoError>)
      modifies this
      ensures Run(fs, attached, r) == Executed(settings, project, env, old(fs), old(attached))
    {
      if settings.skip {
        return Pass;
      }
      var implementationsNode := ReadSubtree(fs, env.readTree, settings.requirementsAnnotationsFile, IMPLEMENTATIONS);
      if implementationsNode.Failure? {
        return Fail(MojoExecutionException(EXECUTION_FAILED, Some(implementationsNode.error)));
      }
      var testsNode := ReadSubtree(fs, env.readTree, settings.svcsAnnotationsFile, TESTS);
      if testsNode.Failure? {
        return Fail(MojoExecutionException(EXECUTION_FAILED, Some(testsNode.error)));
      }
      var combinedOutputNode := CombineOutput(implementationsNode.value, testsNode.value);
      if !fs.Exists(settings.outputDirectory) {
        fs := fs.Mkdirs(settings.outputDirectory);
      }
      var written := WriteCombinedOutputToFile(combinedOutputNode);
      if written.Fail? {
        return Fail(MojoExecutionException(EXECUTION_FAILED, Some(written.error)));
      }
      if !settings.skipAssembleZipArtifact {
        var failure := AssembleZipArtifact();
        if failure.Some? {
          return Fail(ToMojoError(failure.value));
        }
      }
      if !settings.skipAttachZipArtifact {
        AttachArtifact();
      }
      return Pass;
    }

    /** Writes the schema comment and the combined document to annotations.yml
        in the output directory. */
    method WriteCombinedOutputToFile(combinedOutputNode: Node) returns (r: Outcome<IoError>)
      modifies this`fs
      ensures fs.CanCreate(settings.outputDirectory, ANNOTATIONS_YML) == old(fs).CanCreate(settings.outputDirectory, ANNOTATIONS_YML)
      ensures old(fs).CanCreate(settings.outputDirectory, ANNOTATIONS_YML) ==>
                r == Pass && fs == old(fs).Write(AnnotationsPath(settings), YamlDoc([SCHEMA_ANNOTATIONS], combinedOutputNode))
      ensures !old(fs).CanCreate(settings.outputDirectory, ANNOTATIONS_YML) ==>
                r == Fail(CannotCreate(AnnotationsPath(settings))) && fs == old(fs)
    {
      if !fs.CanCreate(settings.outputDirectory, ANNOTATIONS_YML) {
        return Fail(CannotCreate(AnnotationsPath(settings)));
      }
      fs := fs.Write(AnnotationsPath(settings), YamlDoc([SCHEMA_ANNOTATIONS], combinedOutputNode));
      return Pass;
    }

    method AssembleZipArtifact() returns (failure: Option<Failure>)
      modifies this`fs
      ensures Assembly(fs, failure) == AssembleOnDisk(settings, project, env, old(fs))
    {
      var zipArtifactFilename := ZipArtifactFilename(project.finalName);
      var zipFile := Join(settings.outputDirectory, zipArtifactFilename);
      if !fs.CanCreate(settings.outputDirectory, zipArtifactFilename) {
        return Some(Io(CannotCreate(zipFile)));
      }
      fs := fs.Write(zipFile, Raw([]));
      var zipOut := new ZipArtifact();
      var testResultsCount;
      testResultsCount, failure := AssembleEntries(zipOut, AssemblyJob(settings, project, env, fs));
      fs := fs.Write(zipFile, Zip(zipOut.entries));
    }

    method AttachArtifact()
      modifies this`attached
      ensures attached == old(attached) + [Artifact("zip", OUTPUT_ARTIFACT_CLASSIFIER, ZipPath(settings, project))]
    {
      var zipFile := Join(settings.outputDirectory, ZipArtifactFilename(project.finalName));
      attached := attached + [Artifact("zip", OUTPUT_ARTIFACT_CLASSIFIER, zipFile)];
    }
  }
}
