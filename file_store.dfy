/**
 * The part of the operating system's file system that FileSystemStreamer reaches
 * through `new FileStream(path, mode)`: a store of named byte contents, and the
 * three FileMode values the streamer uses.
 */
module FileStore {
  import opened Wrappers
  import opened Faults

  newtype byte = b: int | 0 <= b < 256

  /** The files that exist, by full path, with their contents. The empty path names no file. */
  type Files = m: map<string, seq<byte>> | "" !in m witness map[]

  /** The FileMode values passed to the FileStream constructor. */
  datatype FileMode =
    /** Open an existing file; fail if it is absent. */
    | Open
    /** Create the file, truncating it to empty if it exists. */
    | Create
    /** Create the file; fail if it exists. */
    | CreateNew

  /** An open stream, reduced to what identifies it: the path and the mode it was opened with. */
  datatype Handle = Handle(path: string, mode: FileMode)

  /** The result of an open, together with the store it leaves behind. */
  datatype Opened = Opened(result: Result<Handle, Fault>, files: Files)

  /**
   * `new FileStream(path, mode)` on the store `files`. An empty path is refused
   * with an ArgumentException in every mode, before the store is consulted.
   */
  function OpenFile(files: Files, path: string, mode: FileMode): (r: Opened)
    ensures r.result.Ok? <==> path != "" && (mode == Open ==> path in files) && (mode == CreateNew ==> path !in files)
    ensures r.result.Ok? ==> r.result.value == Handle(path, mode)
    ensures r.result.Err? ==> r.files == files
    ensures path == "" ==> r.result == Err(EmptyPath)
    ensures r.result.Err? && path != "" ==>
      r.result.error == (if mode == Open then FileNotFound(path) else FileAlreadyExists(path))
    ensures mode == Open ==> r.files == files
    ensures r.result.Ok? && mode != Open ==> path in r.files && r.files[path] == []
    ensures forall p :: p != path ==> (p in r.files <==> p in files)
    ensures forall p :: p != path && p in files ==> r.files[p] == files[p]
  {
    if path == "" then Opened(Err(EmptyPath), files)
    else match mode
    case Open =>
      if path in files then Opened(Ok(Handle(path, Open)), files)
      else Opened(Err(FileNotFound(path)), files)
    case Create =>
      Opened(Ok(Handle(path, Create)), files[path := []])
    case CreateNew =>
      if path in files then Opened(Err(FileAlreadyExists(path)), files)
      else Opened(Ok(Handle(path, CreateNew)), files[path := []])
  }

  /** Whatever mode a file was successfully created with, it can then be opened for reading, and it is empty. */
  lemma OpenAfterCreate(files: Files, path: string, mode: FileMode)
    requires mode != Open
    requires OpenFile(files, path, mode).result.Ok?
    ensures OpenFile(OpenFile(files, path, mode).files, path, Open).result == Ok(Handle(path, Open))
    ensures OpenFile(OpenFile(files, path, mode).files, path, Open).files[path] == []
  {
  }

  /** Creating a file is idempotent on the store, and a second CreateNew of the same path fails. */
  lemma CreateTwice(files: Files, path: string)
    ensures OpenFile(OpenFile(files, path, Create).files, path, Create).files == OpenFile(files, path, Create).files
    ensures OpenFile(OpenFile(files, path, Create).files, path, CreateNew).result
         == Err(if path == "" then EmptyPath else FileAlreadyExists(path))
  {
  }
}
