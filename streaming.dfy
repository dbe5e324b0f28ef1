/**
 * The public operations carried through to the file system: the environment
 * instantiated with FileSystemStreamer, and the delegated call performed against
 * a file store.
 */
module Streaming {
  import opened Wrappers
  import opened Faults
  import opened FileStore
  import opened FileSystemStreamers
  import opened StreamingEnvironment

  /** The static initialisation: a fresh default streamer with an empty base path, and the configured streamers. */
  method NewEnvironment(streamers: map<string, FileSystemStreamer>) returns (env: Environment<FileSystemStreamer>)
    ensures fresh(env.defaultStreamer)
    ensures env.defaultStreamer.baseFilename == ""
    ensures env.streamers == streamers
  {
    var defaultStreamer := new FileSystemStreamer();
    env := Environment(defaultStreamer, streamers);
  }

  /** The streamer a delegated call would run on, if there is one. */
  function Target(call: Result<Call<FileSystemStreamer>, Fault>): set<FileSystemStreamer>
  {
    if call.Ok? then {call.value.streamer} else {}
  }

  /** Runs the outcome of a public operation: a fault is returned with the store untouched, a call is made on its streamer. */
  function Dispatch(call: Result<Call<FileSystemStreamer>, Fault>, combine: PathCombine, files: Files): (r: Opened)
    reads Target(call)
    ensures call.Err? ==> r == Opened(Err(call.error), files)
    ensures r.result.Err? ==> r.files == files
    ensures call.Ok? && call.value.ReadCall? ==> r.files == files
    ensures call.Ok? ==> r.result.Ok? ==>
      r.result.value.path == call.value.streamer.GetFullFilename(combine, call.value.filename)
    ensures call.Ok? && call.value.ReadCall? ==>
      r == call.value.streamer.OpenReadStream(combine, files, Some(call.value.filename))
    ensures call.Ok? && call.value.WriteCall? ==>
      r == call.value.streamer.OpenWriteStream(combine, files, Some(call.value.filename), call.value.overwrite)
  {
    match call
    case Err(e) => Opened(Err(e), files)
    case Ok(ReadCall(streamer, filename)) =>
      streamer.OpenReadStream(combine, files, Some(filename))
    case Ok(WriteCall(streamer, filename, overwrite)) =>
      streamer.OpenWriteStream(combine, files, Some(filename), overwrite)
  }

  /** The default streamer's base path is that of a new FileSystemStreamer. */
  ghost predicate DefaultIsPlain(env: Environment<FileSystemStreamer>)
    reads env.defaultStreamer
  {
    env.defaultStreamer.baseFilename == ""
  }

  /** An empty key reads from the default streamer, which opens the filename as given. */
  lemma EmptyKeyReadsPlainPath(env: Environment<FileSystemStreamer>, combine: PathCombine, files: Files, filename: string)
    requires DefaultIsPlain(env)
    ensures Dispatch(OpenReadStreamByKey(env, Some(""), Some(filename)), combine, files)
         == OpenFile(files, filename, Open)
  {
  }

  /**
   * Writing through a qualified name and then reading through the same name reaches
   * the file the write created: the read succeeds on the same path and finds it empty.
   */
  lemma WriteThenReadQualified(env: Environment<FileSystemStreamer>, combine: PathCombine, files: Files,
                          name: string, overwrite: bool)
    requires Dispatch(OpenWriteStream(env, Some(name), overwrite), combine, files).result.Ok?
    ensures
      var w := Dispatch(OpenWriteStream(env, Some(name), overwrite), combine, files);
      var rd := Dispatch(OpenReadStream(env, Some(name)), combine, w.files);
      && rd.result == Ok(Handle(w.result.value.path, Open))
      && rd.files == w.files
      && rd.files[w.result.value.path] == []
  {
  }

  /**
   * Writing through a qualified name that makes the streamer's full path empty, as
   * `"|"` does for the default streamer, fails with an ArgumentException.
   */
  lemma EmptyFullPathRefused(env: Environment<FileSystemStreamer>, combine: PathCombine, files: Files, name: string, overwrite: bool)
    requires ResolveSource(env, name).Ok?
    requires ResolveSource(env, name).value.streamer.GetFullFilename(combine, ResolveSource(env, name).value.filename) == ""
    ensures Dispatch(OpenWriteStream(env, Some(name), overwrite), combine, files) == Opened(Err(EmptyPath), files)
    ensures Dispatch(OpenReadStream(env, Some(name)), combine, files) == Opened(Err(EmptyPath), files)
  {
  }

  /** With the default streamer as constructed, the name `"|"` is refused with an ArgumentException. */
  lemma {:induction false} BareSeparatorRefused(env: Environment<FileSystemStreamer>, combine: PathCombine, files: Files)
    requires DefaultIsPlain(env)
    ensures Dispatch(OpenWriteStream(env, Some([Separator])), combine, files) == Opened(Err(EmptyPath), files)
  {
    EmptyKeySelectsDefault(env, "");
    assert [Separator] + "" == [Separator];
  }

  /** Writing without overwrite to a name whose file exists fails with the store untouched. */
  lemma NoOverwriteOfExisting(env: Environment<FileSystemStreamer>, combine: PathCombine, files: Files, name: string)
    requires ResolveSource(env, name).Ok?
    requires ResolveSource(env, name).value.streamer.GetFullFilename(combine, ResolveSource(env, name).value.filename) in files
    ensures
      var path := ResolveSource(env, name).value.streamer.GetFullFilename(combine, ResolveSource(env, name).value.filename);
      Dispatch(OpenWriteStream(env, Some(name), false), combine, files) == Opened(Err(FileAlreadyExists(path)), files)
  {
  }
}
