/**
 * StreamingEnvironment: resolution of streamer-qualified filenames and the four
 * public open operations. The module is generic in the streamer type `S`: it never
 * looks inside a streamer, it only selects one and says which call is delegated to it.
 */
module StreamingEnvironment {
  import opened Wrappers
  import opened Faults
  import opened Text

  /** The character that separates a streamer key from the streamer's own filename. */
  const Separator := '|'

  /** The static state: the default streamer and the configured streamers by key. */
  datatype Environment<S> = Environment(defaultStreamer: S, streamers: map<string, S>)

  /** The out-parameters of ResolveStreamer: the selected streamer and the filename passed to it. */
  datatype Resolved<S> = Resolved(streamer: S, filename: string)

  /** The call a public operation delegates to the selected streamer. */
  datatype Call<S> =
    | ReadCall(streamer: S, filename: string)
    | WriteCall(streamer: S, filename: string, overwrite: bool)

  /** The empty key selects the default streamer; another key must be configured. */
  function GetStreamerByKey<S>(env: Environment<S>, streamerKey: string): (r: Result<S, Fault>)
    ensures r.Ok? <==> streamerKey == "" || streamerKey in env.streamers
    ensures streamerKey == "" ==> r == Ok(env.defaultStreamer)
    ensures streamerKey != "" && streamerKey in env.streamers ==> r == Ok(env.streamers[streamerKey])
    ensures r.Err? ==> r == Err(UnknownStreamer(streamerKey)) && streamerKey != ""
  {
    if streamerKey == "" then Ok(env.defaultStreamer)
    else if streamerKey !in env.streamers then Err(UnknownStreamer(streamerKey))
    else Ok(env.streamers[streamerKey])
  }

  /** The outcome of a lookup, paired with the filename on success. */
  function WithFilename<S>(lookup: Result<S, Fault>, filename: string): Result<Resolved<S>, Fault>
  {
    match lookup
    case Ok(s) => Ok(Resolved(s, filename))
    case Err(e) => Err(e)
  }

  /**
   * What ResolveStreamer does as written: split at every separator, fail on the
   * second part when there is none, otherwise look up the first part and pass the
   * second part, and nothing after it, to the streamer.
   */
  function ResolveSource<S>(env: Environment<S>, qualifiedFilename: string): (r: Result<Resolved<S>, Fault>)
    ensures r == Err(IndexOutOfRange) <==> Separator !in qualifiedFilename
    ensures r.Ok? ==> Separator !in r.value.filename
    ensures r.Err? && Separator in qualifiedFilename ==> r.error.UnknownStreamer?
  {
    var parts := Split(qualifiedFilename, Separator);
    if |parts| < 2 then Err(IndexOutOfRange)
    else WithFilename(GetStreamerByKey(env, parts[0]), parts[1])
  }

  /**
   * ResolveStreamer statement by statement. The assignments of the `Length < 2`
   * branch are overwritten or abandoned: the code goes on to index the second part.
   */
  method ResolveStreamer<S>(env: Environment<S>, streamerQualifiedFilename: string) returns (r: Result<Resolved<S>, Fault>)
    ensures r == ResolveSource(env, streamerQualifiedFilename)
  {
    var filenameParts := Split(streamerQualifiedFilename, Separator);
    var streamer: S;
    var filename: string;
    if |filenameParts| < 2 {
      streamer := env.defaultStreamer;
      filename := streamerQualifiedFilename;
    }
    var streamerKey := filenameParts[0];
    if |filenameParts| < 2 {
      // filenameParts[1] is out of range
      return Err(IndexOutOfRange);
    }
    filename := filenameParts[1];
    var lookup := GetStreamerByKey(env, streamerKey);
    if lookup.Err? {
      return Err(lookup.error);
    }
    streamer := lookup.value;
    r := Ok(Resolved(streamer, filename));
  }

  /**
   * The documented resolution: a name without a separator goes to the default
   * streamer unchanged; otherwise the part before the first separator is the key
   * and everything after it is passed to the streamer.
   */
  function ResolveDocumented<S>(env: Environment<S>, qualifiedFilename: string): (r: Result<Resolved<S>, Fault>)
    ensures Separator !in qualifiedFilename ==> r == Ok(Resolved(env.defaultStreamer, qualifiedFilename))
    ensures r.Ok? ==>
      && |r.value.filename| <= |qualifiedFilename|
      && r.value.filename == qualifiedFilename[|qualifiedFilename| - |r.value.filename|..]
    ensures r.Err? ==> r.error.UnknownStreamer?
  {
    match SplitAtFirst(qualifiedFilename, Separator)
    case None => Ok(Resolved(env.defaultStreamer, qualifiedFilename))
    case Some((key, rest)) =>
      assert qualifiedFilename[|qualifiedFilename| - |rest|..] == rest;
      WithFilename(GetStreamerByKey(env, key), rest)
  }

  /** A plain filename: the documented contract selects the default streamer, the code fails. */
  lemma PlainFilenameDiverges<S>(env: Environment<S>, filename: string)
    requires Separator !in filename
    ensures ResolveSource(env, filename) == Err(IndexOutOfRange)
    ensures ResolveDocumented(env, filename) == Ok(Resolved(env.defaultStreamer, filename))
  {
  }

  /** With exactly one separator both resolutions look up the key before it and pass the text after it. */
  lemma {:induction false} OneSeparatorAgrees<S>(env: Environment<S>, key: string, filename: string)
    requires Separator !in key && Separator !in filename
    ensures ResolveSource(env, key + [Separator] + filename) == ResolveDocumented(env, key + [Separator] + filename)
    ensures GetStreamerByKey(env, key).Ok? ==>
      ResolveSource(env, key + [Separator] + filename) == Ok(Resolved(GetStreamerByKey(env, key).value, filename))
    ensures GetStreamerByKey(env, key).Err? ==>
      ResolveSource(env, key + [Separator] + filename) == Err(UnknownStreamer(key))
  {
    SplitAfterField(key, filename, Separator);
    SplitWithoutSeparator(filename, Separator);
    SplitAtFirstOf(key, filename, Separator);
  }

  /** A key that is not configured is refused with a fault carrying that key, whatever follows the separator. */
  lemma {:induction false} UnknownKeyRefused<S>(env: Environment<S>, key: string, rest: string)
    requires Separator !in key && GetStreamerByKey(env, key).Err?
    ensures ResolveSource(env, key + [Separator] + rest) == Err(UnknownStreamer(key))
    ensures ResolveDocumented(env, key + [Separator] + rest) == Err(UnknownStreamer(key))
  {
    SplitAfterField(key, rest, Separator);
    SplitAtFirstOf(key, rest, Separator);
  }

  /** An empty key before the separator selects the default streamer. */
  lemma EmptyKeySelectsDefault<S>(env: Environment<S>, filename: string)
    requires Separator !in filename
    ensures ResolveSource(env, [Separator] + filename) == Ok(Resolved(env.defaultStreamer, filename))
  {
    OneSeparatorAgrees(env, "", filename);
    assert "" + [Separator] + filename == [Separator] + filename;
  }

  /** A second separator: the code passes only the field before it, the documented contract passes the whole rest. */
  lemma {:induction false} ExtraSeparatorsDiscarded<S>(env: Environment<S>, key: string, first: string, more: string)
    requires Separator !in key && Separator !in first
    requires GetStreamerByKey(env, key).Ok?
    ensures ResolveSource(env, key + [Separator] + first + [Separator] + more)
         == Ok(Resolved(GetStreamerByKey(env, key).value, first))
    ensures ResolveDocumented(env, key + [Separator] + first + [Separator] + more)
         == Ok(Resolved(GetStreamerByKey(env, key).value, first + [Separator] + more))
    ensures ResolveSource(env, key + [Separator] + first + [Separator] + more)
         != ResolveDocumented(env, key + [Separator] + first + [Separator] + more)
  {
    var rest := first + [Separator] + more;
    assert key + [Separator] + first + [Separator] + more == key + [Separator] + rest;
    SplitAfterField(key, rest, Separator);
    SplitAfterField(first, more, Separator);
    SplitAtFirstOf(key, rest, Separator);
  }

  /**
   * The two resolutions agree exactly when the name has one separator, or has
   * more and the key before the first one is not configured (both then fail alike).
   */
  lemma {:induction false} ResolveAgreement<S>(env: Environment<S>, qualifiedFilename: string)
    ensures ResolveSource(env, qualifiedFilename) == ResolveDocumented(env, qualifiedFilename)
        <==> (|| Occurrences(qualifiedFilename, Separator) == 1
              || (Occurrences(qualifiedFilename, Separator) >= 2
                  && GetStreamerByKey(env, Split(qualifiedFilename, Separator)[0]).Err?))
  {
    var q := qualifiedFilename;
    if Separator in q {
      var (key, rest) := SplitAtFirst(q, Separator).value;
      SplitAgreesWithSplitAtFirst(q, Separator);
      if Separator in rest {
        FirstFieldShorter(rest, Separator);
      } else {
        SplitWithoutSeparator(rest, Separator);
      }
    }
  }

  /** OpenReadStream(streamerQualifiedFilename): null check, resolution, then a read on the selected streamer. */
  function OpenReadStream<S>(env: Environment<S>, streamerQualifiedFilename: Option<string>): (r: Result<Call<S>, Fault>)
    ensures streamerQualifiedFilename.None? ==> r == Err(ArgumentNull("streamerQualifiedFilename"))
    ensures r.Ok? <==> streamerQualifiedFilename.Some? && ResolveSource(env, streamerQualifiedFilename.value).Ok?
    ensures r.Ok? ==>
      var res := ResolveSource(env, streamerQualifiedFilename.value).value;
      r.value == ReadCall(res.streamer, res.filename)
    ensures r.Err? && streamerQualifiedFilename.Some? ==>
      r.error == ResolveSource(env, streamerQualifiedFilename.value).error
  {
    if streamerQualifiedFilename.None? then Err(ArgumentNull("streamerQualifiedFilename"))
    else
      match ResolveSource(env, streamerQualifiedFilename.value)
      case Ok(Resolved(streamer, filename)) => Ok(ReadCall(streamer, filename))
      case Err(e) => Err(e)
  }

  /** OpenReadStream(streamerKey, filename): null checks in order, lookup, then a read of the filename as given. */
  function OpenReadStreamByKey<S>(env: Environment<S>, streamerKey: Option<string>, filename: Option<string>): (r: Result<Call<S>, Fault>)
    ensures streamerKey.None? ==> r == Err(ArgumentNull("streamerKey"))
    ensures streamerKey.Some? && filename.None? ==> r == Err(ArgumentNull("filename"))
    ensures r.Ok? <==> streamerKey.Some? && filename.Some? && GetStreamerByKey(env, streamerKey.value).Ok?
    ensures r.Ok? ==> r.value == ReadCall(GetStreamerByKey(env, streamerKey.value).value, filename.value)
    ensures r.Err? && streamerKey.Some? && filename.Some? ==> r.error == UnknownStreamer(streamerKey.value)
  {
    if streamerKey.None? then Err(ArgumentNull("streamerKey"))
    else if filename.None? then Err(ArgumentNull("filename"))
    else
      match GetStreamerByKey(env, streamerKey.value)
      case Ok(streamer) => Ok(ReadCall(streamer, filename.value))
      case Err(e) => Err(e)
  }

  /** OpenWriteStream(streamerQualifiedFilename, overwrite = true): as OpenReadStream, delegating a write with `overwrite` unchanged. */
  function OpenWriteStream<S>(env: Environment<S>, streamerQualifiedFilename: Option<string>, overwrite: bool := true): (r: Result<Call<S>, Fault>)
    ensures streamerQualifiedFilename.None? ==> r == Err(ArgumentNull("streamerQualifiedFilename"))
    ensures r.Ok? <==> streamerQualifiedFilename.Some? && ResolveSource(env, streamerQualifiedFilename.value).Ok?
    ensures r.Ok? ==>
      var res := ResolveSource(env, streamerQualifiedFilename.value).value;
      r.value == WriteCall(res.streamer, res.filename, overwrite)
    ensures r.Err? && streamerQualifiedFilename.Some? ==>
      r.error == ResolveSource(env, streamerQualifiedFilename.value).error
  {
    if streamerQualifiedFilename.None? then Err(ArgumentNull("streamerQualifiedFilename"))
    else
      match ResolveSource(env, streamerQualifiedFilename.value)
      case Ok(Resolved(streamer, filename)) => Ok(WriteCall(streamer, filename, overwrite))
      case Err(e) => Err(e)
  }

  /** OpenWriteStream(streamerKey, filename, overwrite = true): as OpenReadStreamByKey, delegating a write with `overwrite` unchanged. */
  function OpenWriteStreamByKey<S>(env: Environment<S>, streamerKey: Option<string>, filename: Option<string>, overwrite: bool := true): (r: Result<Call<S>, Fault>)
    ensures streamerKey.None? ==> r == Err(ArgumentNull("streamerKey"))
    ensures streamerKey.Some? && filename.None? ==> r == Err(ArgumentNull("filename"))
    ensures r.Ok? <==> streamerKey.Some? && filename.Some? && GetStreamerByKey(env, streamerKey.value).Ok?
    ensures r.Ok? ==> r.value == WriteCall(GetStreamerByKey(env, streamerKey.value).value, filename.value, overwrite)
    ensures r.Err? && streamerKey.Some? && filename.Some? ==> r.error == UnknownStreamer(streamerKey.value)
  {
    if streamerKey.None? then Err(ArgumentNull("streamerKey"))
    else if filename.None? then Err(ArgumentNull("filename"))
    else
      match GetStreamerByKey(env, streamerKey.value)
      case Ok(streamer) => Ok(WriteCall(streamer, filename.value, overwrite))
      case Err(e) => Err(e)
  }

  /** For a name with one separator, the qualified and the (key, filename) forms delegate the same call. */
  lemma {:induction false} QualifiedMatchesByKey<S>(env: Environment<S>, key: string, filename: string, overwrite: bool)
    requires Separator !in key && Separator !in filename
    ensures OpenReadStream(env, Some(key + [Separator] + filename)) == OpenReadStreamByKey(env, Some(key), Some(filename))
    ensures OpenWriteStream(env, Some(key + [Separator] + filename), overwrite)
         == OpenWriteStreamByKey(env, Some(key), Some(filename), overwrite)
  {
    OneSeparatorAgrees(env, key, filename);
  }

  /** The (key, filename) form never parses its filename: a filename with separators reaches the streamer whole. */
  lemma ByKeyKeepsSeparators<S>(env: Environment<S>, key: string, first: string, more: string)
    requires GetStreamerByKey(env, key).Ok?
    ensures OpenReadStreamByKey(env, Some(key), Some(first + [Separator] + more))
         == Ok(ReadCall(GetStreamerByKey(env, key).value, first + [Separator] + more))
  {
  }
}
