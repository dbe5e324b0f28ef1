/** The exceptions the core can raise, as values. */
module Faults {

  /** Text that precedes the key in the message of a StreamerException for an unknown key. */
  const UnknownStreamerPrefix := "No streamer has been configured having key '"

  datatype Fault =
    /** ArgumentNullException naming the parameter (`nameof`) that was null. */
    | ArgumentNull(paramName: string)
    /** StreamerException raised by the lookup of a key that is not configured. */
    | UnknownStreamer(key: string)
    /** IndexOutOfRangeException from indexing an array of split parts. */
    | IndexOutOfRange
    /** ArgumentException from the FileStream constructor for an empty path. */
    | EmptyPath
    /** FileNotFoundException from opening an absent file with FileMode.Open. */
    | FileNotFound(path: string)
    /** IOException from opening an existing file with FileMode.CreateNew. */
    | FileAlreadyExists(path: string)
  {
    /** The message of a StreamerException: it quotes the offending key. */
    function StreamerMessage(): (m: string)
      requires UnknownStreamer?
      ensures |m| == |UnknownStreamerPrefix| + |key| + 2
      ensures m[..|UnknownStreamerPrefix|] == UnknownStreamerPrefix
      ensures m[|UnknownStreamerPrefix|..|UnknownStreamerPrefix| + |key|] == key
    {
      UnknownStreamerPrefix + key + "'."
    }
  }
}
