# reqstool Maven plugin: the assemble-and-attach goal in Dafny

This project models `RequirementsToolMojo`, the Maven goal of the reqstool Java
plugin, and proves properties of that model. The goal runs in the verify
phase and does three things:

- It combines two upstream annotation documents into `annotations.yml`. The
  first document holds the `implementations` found by the source scan, the
  second the `tests` found by the test scan.
- It assembles a zip archive `<finalName>-reqstool.zip`. Under the top-level
  directory `<finalName>-reqstool` the archive holds the dataset files, the
  combined annotations, the matched test results and a `reqstool_config.yml`
  manifest.
- It attaches that archive to the build with type `zip` and classifier
  `reqstool`.

Three flags switch these steps off: `skip`, `skipAssembleZipArtifact` and
`skipAttachZipArtifact`.

Modules, in dependency order:

- `Wrappers`: `Option`, `Result`, `Outcome`.
- `Tree`: the JSON/YAML node tree, Jackson's `isEmpty` and `path`.
- `KeyOrder`: `String.compareTo` on keys, and the sorted key order that the
  model assumes for the annotations writer.
- `Paths`: `new File(dir, name)` and `File.getName()` on `/`-separated paths.
- `Files`: the disk, as regular files with contents plus a set of
  directories; file contents; archive entries; I/O failures.
- `Combiner`: `combineOutput` and its properties.
- `Assembler`: the specification of the assembly, step by step
  (`Assembled`), and the imperative model of filling the archive. The class
  `ZipArtifact` holds the open archive's `entries` and the manifest's
  `resources` map, with the source's three helper methods. Each method is
  proved to end in the state of its specification function:
  `AssembleEntries` in `Assembled`, `AddDatasetFiles` in `DatasetAdded`,
  `AddOptionalFile` in `AddOptional`, and the loop `WalkTestResults` in the
  recursive walk `Walked`.
- `ArchiveLayout`: what the archive contains, stated directly (entry order,
  selected test results, resource map, failure cases), proved against
  `Assembled`.
- `Mojo`: the class `RequirementsToolMojo`. It keeps the configuration, the
  disk and the attached artifacts. `Execute` is proved to end in the state
  of the pure run `Executed`, and `AssembleZipArtifact` in that of
  `AssembleOnDisk`. `WriteCombinedOutputToFile` is proved to perform one
  `FileSystem.Write`, and `AttachArtifact` to append one artifact.
- `MojoProperties`: what one run does, stated against `Executed`.

Parts of the model stand in for things outside the goal:

- Parsing a YAML file is the environment function `readTree`. It returns
  `None` when the file does not parse.
- The file-tree walk is the sequence of base-directory-relative paths it
  visits, in visiting order.
- Glob matching is a `(pattern, path) -> bool` function.
- The generated documents are kept in structured form: their comment lines,
  then the document. Their byte serialisation is not modelled.

## Model

| member | source | states |
|---|---|---|
| Combiner.CombineOutput | src/main/java/io/github/reqstool/plugins/maven/RequirementsToolMojo.java:204-217 | the result's only root key is `requirement_annotations`, an object; below it only `implementations` and `tests` can appear; each one appears exactly when its input is not empty (Jackson `isEmpty`), and then holds that input unchanged |
| Combiner.CombineEmptyInputs | src/main/java/io/github/reqstool/plugins/maven/RequirementsToolMojo.java:204-217 | with two empty inputs the output is still `requirement_annotations` holding an empty object, never a missing root |
| Combiner.CombineIdempotent | src/main/java/io/github/reqstool/plugins/maven/RequirementsToolMojo.java:204-217 | extracting `requirement_annotations/implementations` and `requirement_annotations/tests` from a combined document, as execute extracts its inputs, and combining again gives the same document |
| Combiner.CombinedKeyOrder | src/main/java/io/github/reqstool/plugins/maven/RequirementsToolMojo.java:105 | in sorted key order the combined document's keys are `requirement_annotations`, then `implementations` before `tests`, each only when present; this is also the order in which combineOutput inserts them |
| KeyOrder.SortedKeys | src/main/java/io/github/reqstool/plugins/maven/RequirementsToolMojo.java:105 | the key order the model assumes for the writer, ascending by key, is strictly ascending in `String.compareTo` and lists exactly the object's keys |
| KeyOrder.SortedUnique | src/main/java/io/github/reqstool/plugins/maven/RequirementsToolMojo.java:105 | two strictly ascending key lists with the same keys are equal, so the written order is determined by the keys alone |
| KeyOrder.LessTotal | src/main/java/io/github/reqstool/plugins/maven/RequirementsToolMojo.java:105 | `String.compareTo` orders any two different keys one way or the other |
| KeyOrder.LessTransitive | src/main/java/io/github/reqstool/plugins/maven/RequirementsToolMojo.java:105 | `String.compareTo` order is transitive |
| Paths.BaseName | src/main/java/io/github/reqstool/plugins/maven/RequirementsToolMojo.java:313-317 | `File.getName()` has no separator, is a suffix of the path, and is preceded by a separator unless it is the whole path |
| Paths.BaseNameJoin | src/main/java/io/github/reqstool/plugins/maven/RequirementsToolMojo.java:313-317 | the name of `new File(dir, p)` is the name of `p` |
| Files.FileSystem.Write | src/main/java/io/github/reqstool/plugins/maven/RequirementsToolMojo.java:223-227 | after writing, the path is a regular file with the new content; every other file and every directory is unchanged |
| Files.FileSystem.Mkdirs | src/main/java/io/github/reqstool/plugins/maven/RequirementsToolMojo.java:178-180 | files are unchanged; an existing path (file or directory) leaves the disk exactly as it was; otherwise exactly the named directory is added |
| Assembler.ZipArtifact.constructor | src/main/java/io/github/reqstool/plugins/maven/RequirementsToolMojo.java:237-238 | a newly opened archive has no entries and an empty resource map |
| Assembler.ZipArtifact.AddFileToZipArtifact | src/main/java/io/github/reqstool/plugins/maven/RequirementsToolMojo.java:310-329 | a missing path adds nothing; an existing path whose entry name (its base name under the target directory, or bare when that has an empty name) the archive already holds fails as a duplicate entry and adds nothing; otherwise a regular file adds one entry with its content, and any other existing path fails with a read error after starting an empty entry |
| Assembler.ZipArtifact.PutResource | src/main/java/io/github/reqstool/plugins/maven/RequirementsToolMojo.java:250 | the resource map gains or replaces exactly that key |
| Assembler.ZipArtifact.AddReqstoolConfigYamlToZip | src/main/java/io/github/reqstool/plugins/maven/RequirementsToolMojo.java:338-361 | appends exactly one entry, `<top>/reqstool_config.yml`, holding the schema comment, the version comment and `language: java`, `build: maven`, `resources`; fails as a duplicate entry, adding nothing, when the archive already holds that name |
| Assembler.AssembleEntries | src/main/java/io/github/reqstool/plugins/maven/RequirementsToolMojo.java:237-303 | the entries, resource map, test-result counter and failure the archive ends with are those of `Assembled` for the same disk, configuration and walk |
| Assembler.AddDatasetFiles | src/main/java/io/github/reqstool/plugins/maven/RequirementsToolMojo.java:240-269 | fills the archive and the resource map exactly as the dataset part of `Assembled` |
| Assembler.AddOptionalFile | src/main/java/io/github/reqstool/plugins/maven/RequirementsToolMojo.java:252-257 | the entries, resource map and failure after one optional file are those of `AddOptional`: nothing happens unless it is a regular file; then its entry is added and its key recorded, or, when adding fails, the failure stops the assembly and the key is not recorded |
| Assembler.WalkTestResults | src/main/java/io/github/reqstool/plugins/maven/RequirementsToolMojo.java:271-296 | the loop over the walk ends in the state of the recursive walk `Walked`, stopping at the first failure |
| ArchiveLayout.VisitEffect | src/main/java/io/github/reqstool/plugins/maven/RequirementsToolMojo.java:284-294 | one visited path never touches the resource map; no match changes nothing; a match that does not exist is only counted; a matching regular file whose entry name is new adds its test-result entry and is counted; a matching directory, or a matching file whose name the archive already holds, fails with an I/O failure |
| ArchiveLayout.WalkedEntries | src/main/java/io/github/reqstool/plugins/maven/RequirementsToolMojo.java:282-296 | the walk never touches the resource map; it fails exactly when a matching visited path is a directory or the selected entries do not have fresh names, one after the other; otherwise it adds exactly the selected entries in walk order and counts every match |
| ArchiveLayout.TestResultSelection | src/main/java/io/github/reqstool/plugins/maven/RequirementsToolMojo.java:282-296 | every matching regular file has its entry, every test-result entry comes from one, there are at most as many entries as matches, and exactly as many when every match is a file |
| ArchiveLayout.RequirementsEntry | src/main/java/io/github/reqstool/plugins/maven/RequirementsToolMojo.java:247-250 | requirements.yml becomes `<top>/requirements.yml` and is recorded as `requirements: requirements.yml` |
| ArchiveLayout.FreshNamesConcat | src/main/java/io/github/reqstool/plugins/maven/RequirementsToolMojo.java:322-323 | appending two runs of entries writes no name twice exactly when the first run does not and the second avoids both the archive's names and the first run's |
| ArchiveLayout.FreshNamesDistinct | src/main/java/io/github/reqstool/plugins/maven/RequirementsToolMojo.java:322-323 | a run of entries can be appended without a duplicate exactly when each of its names is outside the archive and no two of them are equal |
| ArchiveLayout.FixedNames | src/main/java/io/github/reqstool/plugins/maven/RequirementsToolMojo.java:247-269 | the dataset file names have no separator, the four dataset entries are pairwise different names, and none of them is the manifest's name |
| ArchiveLayout.SeparatedNames | src/main/java/io/github/reqstool/plugins/maven/RequirementsToolMojo.java:290-291 | a name directly under the top-level directory is never a name under its `test_results` subdirectory |
| ArchiveLayout.TestNamesOutside | src/main/java/io/github/reqstool/plugins/maven/RequirementsToolMojo.java:282-303 | no test-result entry has the name of a dataset entry or of the manifest |
| ArchiveLayout.TestNamesFresh | src/main/java/io/github/reqstool/plugins/maven/RequirementsToolMojo.java:282-296 | after the dataset files, the test results are written without a duplicate entry exactly when no two of them have the same name |
| ArchiveLayout.ConfigNameFree | src/main/java/io/github/reqstool/plugins/maven/RequirementsToolMojo.java:301-303 | after a walk the manifest's name is not yet in the archive, so writing the manifest cannot be a duplicate entry |
| ArchiveLayout.OptionalEntries | src/main/java/io/github/reqstool/plugins/maven/RequirementsToolMojo.java:252-268 | an optional dataset file or the annotations file becomes `<top>/<name>` when it is a regular file and adds nothing otherwise |
| ArchiveLayout.OptionalResources | src/main/java/io/github/reqstool/plugins/maven/RequirementsToolMojo.java:252-268 | its key is recorded with the file's name exactly when it is a regular file |
| ArchiveLayout.SvcsEntries | src/main/java/io/github/reqstool/plugins/maven/RequirementsToolMojo.java:247-257 | with requirements.yml present, software_verification_cases.yml follows it exactly when it is a regular file, nothing fails and nothing is counted |
| ArchiveLayout.MvrsEntries | src/main/java/io/github/reqstool/plugins/maven/RequirementsToolMojo.java:258-263 | manual_verification_results.yml comes next exactly when it is a regular file, and the names so far are among the dataset names |
| ArchiveLayout.AnnotationsEntries | src/main/java/io/github/reqstool/plugins/maven/RequirementsToolMojo.java:264-269 | annotations.yml, taken from the output directory, comes last among the dataset files exactly when it is a regular file |
| ArchiveLayout.SvcsResources | src/main/java/io/github/reqstool/plugins/maven/RequirementsToolMojo.java:250-257 | after software_verification_cases.yml the map has `requirements` and `software_verification_cases` exactly when that file is a regular file, and no other key |
| ArchiveLayout.MvrsResources | src/main/java/io/github/reqstool/plugins/maven/RequirementsToolMojo.java:250-263 | after manual_verification_results.yml the map also has `manual_verification_results` exactly when that file is a regular file, and no other key |
| ArchiveLayout.DatasetEntries | src/main/java/io/github/reqstool/plugins/maven/RequirementsToolMojo.java:247-269 | the dataset part: requirements.yml first, then software_verification_cases.yml, manual_verification_results.yml and annotations.yml in that order, each when it is a regular file |
| ArchiveLayout.DatasetResources | src/main/java/io/github/reqstool/plugins/maven/RequirementsToolMojo.java:250-268 | after the dataset part the resource map has `requirements` and each optional key exactly when its file was added, and no other key |
| ArchiveLayout.AssembledEntries | src/main/java/io/github/reqstool/plugins/maven/RequirementsToolMojo.java:240-303 | assembly succeeds exactly when requirements.yml is a regular file, no matching visited path is a directory and no two selected test results have the same base name; it then writes the dataset part, the selected test results in walk order and the manifest last, and counts every match |
| ArchiveLayout.AssembledResources | src/main/java/io/github/reqstool/plugins/maven/RequirementsToolMojo.java:250-301 | on success the manifest's resources hold `requirements`, `test_results` mapped to the fixed pattern list, and each optional key exactly when its file was added, and nothing else |
| ArchiveLayout.WalkedFailsWithIo | src/main/java/io/github/reqstool/plugins/maven/RequirementsToolMojo.java:282-296 | the walk can fail only with an I/O failure |
| ArchiveLayout.AssembledFailures | src/main/java/io/github/reqstool/plugins/maven/RequirementsToolMojo.java:241-246 | every failure other than an I/O failure is the missing requirements.yml, naming its path |
| ArchiveLayout.AssembledMissingMandatory | src/main/java/io/github/reqstool/plugins/maven/RequirementsToolMojo.java:241-246 | without requirements.yml nothing is added, the resource map stays empty, and the failure message ends with the path |
| Mojo.RequirementsToolMojo.Execute | src/main/java/io/github/reqstool/plugins/maven/RequirementsToolMojo.java:153-202 | the disk, the attached artifacts and the outcome after the goal are those of `Executed` for the configuration and the state before it |
| Mojo.RequirementsToolMojo.WriteCombinedOutputToFile | src/main/java/io/github/reqstool/plugins/maven/RequirementsToolMojo.java:219-228 | when annotations.yml can be created it holds the schema comment and the combined document afterwards; otherwise the write fails and the disk is unchanged |
| Mojo.RequirementsToolMojo.AssembleZipArtifact | src/main/java/io/github/reqstool/plugins/maven/RequirementsToolMojo.java:230-308 | the disk and failure afterwards are those of `AssembleOnDisk` |
| Mojo.RequirementsToolMojo.AttachArtifact | src/main/java/io/github/reqstool/plugins/maven/RequirementsToolMojo.java:331-336 | exactly one artifact is attached: type `zip`, classifier `reqstool`, file `<outputDirectory>/<finalName>-reqstool.zip` |
| MojoProperties.PathsDistinct | src/main/java/io/github/reqstool/plugins/maven/RequirementsToolMojo.java:230-240 | the archive, annotations.yml and requirements.yml are three different files whatever the configured directories |
| MojoProperties.AssemblyCreatesArchive | src/main/java/io/github/reqstool/plugins/maven/RequirementsToolMojo.java:230-308 | when the archive file can be created it exists afterwards with the assembled entries, whether or not assembly failed; otherwise assembly fails with a creation error and leaves the disk as it was; no other file and no directory changes |
| MojoProperties.SucceedsExactlyWhen | src/main/java/io/github/reqstool/plugins/maven/RequirementsToolMojo.java:153-202 | the goal succeeds exactly when it is skipped, or both inputs can be read, annotations.yml can be created and, unless assembly is skipped, the archive file can be created, requirements.yml is a regular file, no matching visited path is a directory and no two selected test results have the same base name |
| MojoProperties.ExecutionAttaches | src/main/java/io/github/reqstool/plugins/maven/RequirementsToolMojo.java:153-196 | a skipped goal changes nothing; a failed goal attaches nothing; a successful goal attaches the archive exactly when attachment is not skipped, whether or not assembly is |
| MojoProperties.ExecutionAssembles | src/main/java/io/github/reqstool/plugins/maven/RequirementsToolMojo.java:184-189 | with assembly skipped the archive path is left as it was; a successful run that assembles leaves an archive there |
| MojoProperties.ExecutionFailures | src/main/java/io/github/reqstool/plugins/maven/RequirementsToolMojo.java:198-201 | a failure with a cause carries `Error combining annotations or creating zip file`; the only failure without a cause is the missing requirements.yml, whose message names the path |
| MojoProperties.AssemblyFailures | src/main/java/io/github/reqstool/plugins/maven/RequirementsToolMojo.java:241-246 | assembly on disk fails without an I/O cause only for the missing requirements.yml |
| MojoProperties.AnnotationsWritten | src/main/java/io/github/reqstool/plugins/maven/RequirementsToolMojo.java:163-182 | once the inputs are read and annotations.yml can be created, the goal leaves annotations.yml holding the schema comment and the combined document, whatever happens to the archive; an input file that does not exist leaves its key out |
| MojoProperties.InputsCombined | src/main/java/io/github/reqstool/plugins/maven/RequirementsToolMojo.java:163-182 | when each input file is absent or parses, annotations.yml holds the schema comment and a document with only `implementations` and `tests` below its root. Each is the input document's `requirement_annotations/<key>` subtree, left out when the input file is absent or that subtree is empty |
| MojoProperties.InputFailures | src/main/java/io/github/reqstool/plugins/maven/RequirementsToolMojo.java:166-200 | an input that exists but is a directory or does not parse stops the goal, with the disk and attachments unchanged and the wrapped read or parse failure; the requirements annotations are read first, so their failure wins; otherwise both inputs are readable |
| MojoProperties.MissingRequirementsLeavesEmptyArchive | src/main/java/io/github/reqstool/plugins/maven/RequirementsToolMojo.java:237-246 | without requirements.yml the goal fails with the missing-file message, attaches nothing, and leaves an empty archive on disk, because the archive is opened before the check |
| MojoProperties.ArchiveHoldsAnnotations | src/main/java/io/github/reqstool/plugins/maven/RequirementsToolMojo.java:264-269 | a successful run that assembles leaves an archive holding the combined annotations under `<top>/annotations.yml`, and ends with the manifest, which records `annotations: annotations.yml` |

## Left out

- Logging (`getLog()`) and the Maven plumbing (parameter injection, `MavenProject`, `MavenProjectHelper`) are left out. The project values used are the final name, the base directory and the version; the attached artifacts are a sequence.
- Byte formats are not modelled: YAML serialisation by Jackson and SnakeYAML, ZIP compression and the central directory, UTF-8 encoding, and the platform line separator. Generated documents stay structured, and copied files keep their content unchanged.
- The manifest's `resources` map is a `HashMap` in the source, so its serialised order is unspecified. The model keeps it as a map, with no order.
- Line 105 enables `ORDER_MAP_ENTRIES_BY_KEYS`. Whether Jackson applies that setting to `ObjectNode` trees, or writes them in insertion order, is decided by the library, not by this code. The model assumes sorted order. For the keys combineOutput creates, both orders are the same (`Combiner.CombinedKeyOrder`). The written order of nested subtrees copied from the inputs is not modelled.
- Keys are compared by `char`, not by UTF-16 code unit; the two orders differ only for characters outside the Basic Multilingual Plane.
- The file-tree walk is an input: the paths `Files.walkFileTree` hands to `visitFile`, in its order, which the JDK does not specify. A `visitFileFailed` for an unreadable entry (rethrown by `SimpleFileVisitor`) is not modelled.
- JDK glob syntax is not modelled. `PathMatcher` is an opaque matching function, so a malformed pattern's error is not modelled either.
- Paths are `/`-separated strings. Normalisation, absolute paths, `..`, platform separators and symbolic links are not modelled, and `getAbsolutePath()` in the missing-file message is the path as given.
- Files.FileSystem.Mkdirs: creates only the named directory, not missing parents, and its boolean result is ignored as in the source.
- The disk's `CanCreate` is the model's only reason for `FileOutputStream` to fail: a missing directory, or a directory at the path. Permission and disk-full errors are not modelled.
- A `null` `testResults` array (no patterns configured) is the empty pattern list here; the source would throw a `NullPointerException` on `Arrays.stream`.
- A duplicate entry name is `ZipOutputStream`'s `ZipException`, raised by `putNextEntry` before anything of the entry is written. The model stops the assembly with that failure (see `ArchiveLayout.TestNamesFresh`). The exception message text is not modelled.
- Parsing documents that are not YAML, and YAML features beyond objects, arrays and scalars, are left to `readTree`.

The model follows the code in several places where one might expect otherwise:

- The archive file is opened (created or truncated) before requirements.yml is checked, so a missing requirements.yml leaves an empty archive behind (lines 237 and 242), rather than failing before any archive exists. See `MojoProperties.MissingRequirementsLeavesEmptyArchive`.
- The manifest's `test_results` holds the fixed default pattern list, `test_results/**/*.xml`, not the configured patterns (line 301).
- The version is written as a `# version:` comment line of the manifest, not as a field. `language` and `build` are the fixed values `java` and `maven`.
- Test results are added in walk order, not sorted by path (lines 282-296).
- Test results are stored under their base name alone. One might expect two matching files with the same name in different directories to give two entries with one name. In the code, `putNextEntry` refuses the second name (lines 322-323), so the whole goal fails with a duplicate-entry error (see `ArchiveLayout.AssembledEntries` and `MojoProperties.SucceedsExactlyWhen`).
