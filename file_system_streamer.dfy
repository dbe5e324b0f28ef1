/** The streamer that resolves filenames against an optional base path and opens local files. */
module FileSystemStreamers {
  import opened Wrappers
  import opened Faults
  import opened FileStore

  /** The platform's `Path.Combine(basePath, name)`, left uninterpreted. */
  type PathCombine = (string, string) -> string

  /** The file mode OpenWriteStream uses: overwrite selects Create, otherwise CreateNew; Open is never chosen. */
  function WriteMode(overwrite: bool): (m: FileMode)
    ensures m != Open
    ensures m == Create <==> overwrite
    ensures m == CreateNew <==> !overwrite
  {
    if overwrite then Create else CreateNew
  }

  class FileSystemStreamer {
    /** The base path filenames are relative to, or the empty string. Never null. */
    var baseFilename: string

    /** A new streamer has an empty base path. */
    constructor ()
      ensures baseFilename == ""
    {
      baseFilename := "";
    }

    /** The BaseFilename setter: null is refused and the previous value is kept. */
    method SetBaseFilename(value: Option<string>) returns (r: Outcome<Fault>)
      modifies this
      ensures value.None? ==> r == Fail(ArgumentNull("value")) && baseFilename == old(baseFilename)
      ensures value.Some? ==> r == Pass && baseFilename == value.value
    {
      if value.None? {
        return Fail(ArgumentNull("value"));
      }
      baseFilename := value.value;
      r := Pass;
    }

    /** The full path of `filename`: itself when the base path is empty, otherwise the base path combined with it. */
    function GetFullFilename(combine: PathCombine, filename: string): (path: string)
      reads this
      ensures baseFilename == "" ==> path == filename
      ensures baseFilename != "" ==> path == combine(baseFilename, filename)
    {
      if baseFilename == "" then filename else combine(baseFilename, filename)
    }

    /**
     * Opens `filename` for reading with FileMode.Open; reading never changes the store.
     * A full path that is empty is refused by the FileStream constructor.
     */
    function OpenReadStream(combine: PathCombine, files: Files, filename: Option<string>): (r: Opened)
      reads this
      ensures r.files == files
      ensures filename.None? ==> r.result == Err(ArgumentNull("filename"))
      ensures filename.Some? ==>
        var path := GetFullFilename(combine, filename.value);
        r.result == (if path == "" then Err(EmptyPath)
                     else if path in files then Ok(Handle(path, Open))
                     else Err(FileNotFound(path)))
    {
      if filename.None? then Opened(Err(ArgumentNull("filename")), files)
      else OpenFile(files, GetFullFilename(combine, filename.value), Open)
    }

    /**
     * Opens `filename` for writing: with `overwrite` the file is created or truncated,
     * without it an existing file is an error. Only the resolved path can change.
     * A full path that is empty is refused by the FileStream constructor.
     */
    function OpenWriteStream(combine: PathCombine, files: Files, filename: Option<string>, overwrite: bool := true): (r: Opened)
      reads this
      ensures filename.None? ==> r == Opened(Err(ArgumentNull("filename")), files)
      ensures filename.Some? ==>
        var path := GetFullFilename(combine, filename.value);
        && (r.result.Ok? <==> path != "" && (overwrite || path !in files))
        && (r.result.Ok? ==> r.result.value == Handle(path, WriteMode(overwrite)) && r.files == files[path := []])
        && (r.result.Err? ==> r.files == files)
        && (r.result.Err? ==> r.result.error == if path == "" then EmptyPath else FileAlreadyExists(path))
    {
      if filename.None? then Opened(Err(ArgumentNull("filename")), files)
      else OpenFile(files, GetFullFilename(combine, filename.value), WriteMode(overwrite))
    }
  }

  /** What a write creates, a read of the same filename through the same streamer then finds, empty. */
  lemma WriteThenRead(fs: FileSystemStreamer, combine: PathCombine, files: Files, filename: string, overwrite: bool)
    requires fs.OpenWriteStream(combine, files, Some(filename), overwrite).result.Ok?
    ensures
      var w := fs.OpenWriteStream(combine, files, Some(filename), overwrite);
      var rd := fs.OpenReadStream(combine, w.files, Some(filename));
      && rd.result == Ok(Handle(w.result.value.path, Open))
      && rd.files[w.result.value.path] == []
  {
  }
}
