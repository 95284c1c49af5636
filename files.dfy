/**
 * The disk as the plugin sees it: regular files with their contents and
 * directories, addressed by '/'-separated path strings.
 */
module Files {
  import opened Tree
  import opened Paths

  newtype byte = x: int | 0 <= x < 256

  /** A value of the manifest's `resources` map: the base name of one included
      file, or a list of glob patterns that stands for many files. */
  datatype Res = FileName(name: string) | Patterns(globs: seq<string>)

  /** The manifest document (reqstool_config.yml): its keys in the order written. */
  datatype ReqstoolConfig = ReqstoolConfig(language: string, build: string, resources: map<string, Res>)

  /** What a file holds. A file copied from elsewhere keeps its content
      unchanged; the documents the plugin generates are kept in structured form
      (leading comment lines, then the dumped document), and an archive is the
      ordered sequence of its entries. */
  datatype Content =
    | Raw(bytes: seq<byte>)
    | YamlDoc(comments: seq<string>, body: Node)
    | ConfigDoc(comments: seq<string>, config: ReqstoolConfig)
    | Zip(entries: seq<Entry>)

  /** One archive entry: its name inside the archive and its content. */
  datatype Entry = Entry(name: string, content: Content)

  /** Failures of file operations (IOException in the source); a second archive
      entry with a name already written is ZipOutputStream's ZipException. */
  datatype IoError =
    | CannotRead(path: string)
    | CannotParse(path: string)
    | CannotCreate(path: string)
    | DuplicateEntry(name: string)

  datatype FileSystem = FileSystem(files: map<string, Content>, dirs: set<string>) {

    /** File.exists(). */
    predicate Exists(p: string) {
      p in files || p in dirs
    }

    /** File.isFile(). */
    predicate IsFile(p: string) {
      p in files
    }

    /** Whether new FileOutputStream(Join(dir, name)) can create or truncate
        that file: the directory exists and the path is not a directory. */
    predicate CanCreate(dir: string, name: string) {
      dir in dirs && Join(dir, name) !in dirs
    }

    /** The disk after a file has been written with `c`. */
    function Write(p: string, c: Content): (r: FileSystem)
      ensures r.IsFile(p) && r.files[p] == c
      ensures forall q :: q != p ==> (r.IsFile(q) <==> IsFile(q))
      ensures forall q :: q != p && IsFile(q) ==> r.IsFile(q) && r.files[q] == files[q]
      ensures r.dirs == dirs
    {
      this.(files := files[p := c])
    }

    /** File.mkdirs() on a path: a directory is created unless something
        already exists there (parent directories are not modelled). */
    function Mkdirs(d: string): (r: FileSystem)
      ensures r.files == files
      ensures Exists(d) ==> r == this
      ensures !Exists(d) ==> r.dirs == dirs + {d}
    {
      if Exists(d) then this else this.(dirs := dirs + {d})
    }
  }
}
