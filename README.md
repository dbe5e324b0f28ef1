# Gramma.DataStreaming: streamer-qualified name resolution

This project models the core of Gramma.DataStreaming, a registry of pluggable
stream providers ("streamers"). Callers open read or write streams by a logical
name. A name may be *qualified* as `<key>|<filename>`: the key picks a configured
streamer, and the filename goes to that streamer. An empty key (a name that starts
with the separator) selects a default `FileSystemStreamer`. A name without any
separator fails in the code as written; see "## Findings". The model covers three parts:

- **Resolution and lookup** in `StreamingEnvironment` (module `StreamingEnvironment`).
  It is generic in the streamer type `S`, so it cannot depend on what a streamer does.
  The static state is a value `Environment(defaultStreamer, streamers)` with
  `streamers: map<string, S>`. Each of the four public operations returns the call it
  delegates (`ReadCall` or `WriteCall`), or the exception it throws, as a `Fault` value.
  A C# `null` string is `Option.None`.
- **`FileSystemStreamer`** (module `FileSystemStreamers`). It is a class with the
  mutable `baseFilename` field. It has the `BaseFilename` setter, `GetFullFilename`,
  and the two opens. The opens work over an abstract file store
  `map<string, seq<byte>>` (module `FileStore`). The store is passed in and the
  resulting store is returned, so the opens are functions that only read the streamer.
- **End to end** (module `Streaming`). The environment is instantiated with
  `FileSystemStreamer`, and the delegated call is performed against the store.

`String.Split('|')` is modelled as `Text.Split`. It splits at **every** separator `|`: `""`
gives `[""]` and `"a|"` gives `["a", ""]`. `Text.SplitAtFirst` is the two-part split
the doc comment describes.

The documentation and the code of `ResolveStreamer` disagree. The doc comment
(Configuration/StreamingEnvironment.cs:50-55) says a plain name goes to the default
streamer unchanged, and a compound name has two parts. The model follows the code:
`ResolveSource` is the code as written, and the two qualified-name operations use it; the (key, filename) operations look the key up with `GetStreamerByKey` and do not parse the filename.
`ResolveDocumented` is the documented contract. Lemmas show where the two agree
(exactly one `|`) and where they differ (no `|`, or more than one with a key that resolves). See "## Findings".

`Path.Combine` is a foreign call. It is passed in as an otherwise uninterpreted
function `combine: (string, string) -> string`. This assumes that it is deterministic
and never throws; nothing else is assumed about its result.

The file store never holds a file at the empty path. Opening the empty path fails in
every mode with the ArgumentException of the FileStream constructor (`EmptyPath`).
This is what `"|"` leads to, and `"k|"` for a configured streamer whose base path is empty.

## Model

| member | source | states |
|---|---|---|
| Text.Split | Configuration/StreamingEnvironment.cs:131 | String.Split on the separator: there is one more field than there are separators, and no field contains a separator |
| Text.JoinSplit | Configuration/StreamingEnvironment.cs:131 | joining the fields of a split with the separator gives back the original name, so no character is lost |
| Text.SplitJoin | Configuration/StreamingEnvironment.cs:131 | splitting the join of separator-free fields gives back exactly those fields |
| Text.SplitWithoutSeparator | Configuration/StreamingEnvironment.cs:131-133 | a name without the separator splits into a single field, itself, so the `Length < 2` branch is taken exactly for plain names |
| Text.SplitAfterField | Configuration/StreamingEnvironment.cs:131-139 | field 0 is the text before the first separator, and the later fields are the split of what follows it |
| Text.SplitAtFirst | Configuration/StreamingEnvironment.cs:50-55 | the documented two-part split: none exactly when there is no separator; otherwise the name is key, separator, rest with no separator in key |
| Text.SplitAtFirstOf | Configuration/StreamingEnvironment.cs:50-55 | the split at the first separator is unique: key, separator, rest with separator-free key splits into exactly (key, rest) |
| Text.FirstFieldShorter | Configuration/StreamingEnvironment.cs:131-140 | when a text contains the separator, its first field is strictly shorter than the text, so a second separator cuts the filename short |
| Faults.Fault.StreamerMessage | Configuration/StreamingEnvironment.cs:151-152 | the StreamerException message quotes the unknown key verbatim, after a fixed prefix |
| StreamingEnvironment.GetStreamerByKey | Configuration/StreamingEnvironment.cs:145-155 | an empty key gives the default streamer whatever the registry holds; a configured key gives exactly `streamers[key]`; any other key fails with UnknownStreamer carrying that key; success iff the key is empty or configured |
| StreamingEnvironment.ResolveSource | Configuration/StreamingEnvironment.cs:129-143 | the code as written: it fails with IndexOutOfRange iff the name has no separator; the filename passed on never contains the separator; any other failure is UnknownStreamer |
| StreamingEnvironment.ResolveStreamer | Configuration/StreamingEnvironment.cs:129-143 | the statement-by-statement method, including the dead assignments of the `Length < 2` branch, computes exactly ResolveSource |
| StreamingEnvironment.ResolveDocumented | Configuration/StreamingEnvironment.cs:50-55 | the documented contract: a name without the separator goes to the default streamer unchanged; a passed filename is always a suffix of the name; it fails only with UnknownStreamer |
| StreamingEnvironment.PlainFilenameDiverges | Configuration/StreamingEnvironment.cs:133-140 | for a plain name the documented contract selects the default streamer with the name as is, while the code fails with IndexOutOfRange |
| StreamingEnvironment.OneSeparatorAgrees | Configuration/StreamingEnvironment.cs:131-142 | for key, separator, filename with one separator, the code and the documented contract agree: the streamer of `key` with `filename`, or UnknownStreamer(key) |
| StreamingEnvironment.UnknownKeyRefused | Configuration/StreamingEnvironment.cs:139-152 | a key before the first separator that is not configured is refused with UnknownStreamer carrying that key, whatever follows, in the code and in the documented contract |
| StreamingEnvironment.EmptyKeySelectsDefault | Configuration/StreamingEnvironment.cs:139-147 | a separator followed by a separator-free x resolves to the default streamer with filename `x` |
| StreamingEnvironment.ExtraSeparatorsDiscarded | Configuration/StreamingEnvironment.cs:131-140 | for key, separator, a, separator, b the code passes only `a`, the documented contract passes `a|b`, and the two results differ |
| StreamingEnvironment.ResolveAgreement | Configuration/StreamingEnvironment.cs:129-143 | the code and the documented contract agree iff the name has exactly one separator, or has more and its key is not configured |
| StreamingEnvironment.OpenReadStream | Configuration/StreamingEnvironment.cs:57-67 | a null name fails with ArgumentNull("streamerQualifiedFilename") before resolution; otherwise it succeeds iff resolution does, and it delegates a read of the resolved filename to the resolved streamer; resolution errors propagate |
| StreamingEnvironment.OpenReadStreamByKey | Configuration/StreamingEnvironment.cs:75-83 | a null key fails first, then a null filename; otherwise it succeeds iff the key lookup does, and it delegates a read of the filename unchanged; a failed lookup is UnknownStreamer(key) |
| StreamingEnvironment.OpenWriteStream | Configuration/StreamingEnvironment.cs:96-106 | as OpenReadStream, delegating a write; `overwrite` defaults to true and reaches the streamer unchanged |
| StreamingEnvironment.OpenWriteStreamByKey | Configuration/StreamingEnvironment.cs:115-123 | as OpenReadStreamByKey, delegating a write; `overwrite` defaults to true and reaches the streamer unchanged |
| StreamingEnvironment.QualifiedMatchesByKey | Configuration/StreamingEnvironment.cs:57-123 | for a name with one separator, the qualified form and the (key, filename) form delegate the identical call, for reads and for writes with any `overwrite` |
| StreamingEnvironment.ByKeyKeepsSeparators | Configuration/StreamingEnvironment.cs:75-83 | the (key, filename) form does not parse its filename: a filename containing separator reaches the streamer whole |
| FileStore.OpenFile | FileSystemStreamer.cs:58-76 | FileMode semantics on the store: the empty path is refused in every mode with EmptyPath; Open needs the file and changes nothing; Create creates or truncates to empty; CreateNew fails if the file exists; failures leave the store alone; no other path changes |
| FileStore.OpenAfterCreate | FileSystemStreamer.cs:58-76 | a file created by Create or CreateNew can then be opened with Open, and it is empty |
| FileStore.CreateTwice | FileSystemStreamer.cs:74-76 | a second Create leaves the store as the first one did, and a CreateNew after a Create fails with FileAlreadyExists, or EmptyPath for the empty path |
| FileSystemStreamers.WriteMode | FileSystemStreamer.cs:74 | `overwrite` selects Create, otherwise CreateNew; Open is never selected |
| FileSystemStreamers.FileSystemStreamer.constructor | FileSystemStreamer.cs:17 | a new streamer has an empty base path |
| FileSystemStreamers.FileSystemStreamer.SetBaseFilename | FileSystemStreamer.cs:34-38 | null is refused with ArgumentNull("value") and the old base path is kept; any other value becomes the base path |
| FileSystemStreamers.FileSystemStreamer.GetFullFilename | FileSystemStreamer.cs:83-88 | with an empty base path the filename is used unchanged; otherwise it is `Path.Combine(base, filename)` |
| FileSystemStreamers.FileSystemStreamer.OpenReadStream | FileSystemStreamer.cs:52-59 | a null filename is rejected before the path is resolved; the read never changes the store; it succeeds iff the full path is non-empty and exists; an empty full path gives EmptyPath, an absent one FileNotFound(path) |
| FileSystemStreamers.FileSystemStreamer.OpenWriteStream | FileSystemStreamer.cs:68-77 | a null filename is rejected before the path is resolved; it succeeds iff the full path is non-empty and `overwrite` is set or the file is absent; on success only the full path changes, to an empty file; otherwise EmptyPath or FileAlreadyExists(path) with the store unchanged |
| FileSystemStreamers.WriteThenRead | FileSystemStreamer.cs:52-77 | after a successful write through a streamer, a read of the same filename through it opens the same path and finds it empty |
| Streaming.NewEnvironment | Configuration/StreamingEnvironment.cs:26 | the default streamer is a new FileSystemStreamer with an empty base path, beside the configured streamers |
| Streaming.Dispatch | Configuration/StreamingEnvironment.cs:64-66 | a fault is returned with the store untouched; a read call is exactly its streamer's OpenReadStream of that filename, and a write call its streamer's OpenWriteStream of that filename with its `overwrite`; reads never change the store; a success opens the streamer's full path of the filename |
| Streaming.EmptyKeyReadsPlainPath | Configuration/StreamingEnvironment.cs:75-83 | reading with the empty key is the default streamer opening the filename itself |
| Streaming.WriteThenReadQualified | Configuration/StreamingEnvironment.cs:96-106 | a successful write through a qualified name, then a read through the same name, opens the file the write created and finds it empty |
| Streaming.EmptyFullPathRefused | FileSystemStreamer.cs:52-77 | a qualified name whose full path is empty is refused with EmptyPath by reads and by writes, with the store unchanged |
| Streaming.BareSeparatorRefused | Configuration/StreamingEnvironment.cs:96-106 | with the default streamer as constructed, writing to the name made of the separator alone fails with EmptyPath and changes nothing |
| Streaming.NoOverwriteOfExisting | FileSystemStreamer.cs:65-76 | a write without overwrite to a qualified name whose file exists fails with FileAlreadyExists and the store is unchanged |

## Findings

| source | as written | input that shows it | evidently intended | confidence | as-written member | corrected member |
|---|---|---|---|---|---|---|
| Configuration/StreamingEnvironment.cs:133-140 | the `Length < 2` branch has no `return`, so execution goes on to `filenameParts[1]` | `"report.txt"` fails with IndexOutOfRangeException | the default streamer opens `"report.txt"` as is, as the doc comment at lines 50-55 says | high, not executed | StreamingEnvironment.PlainFilenameDiverges (about StreamingEnvironment.ResolveSource) | StreamingEnvironment.ResolveDocumented |
| Configuration/StreamingEnvironment.cs:131-140 | Split on the separator splits at every separator and only part 1 is passed on | k, separator, a, separator, b passes `"a"` to streamer `k` and drops the second separator and b | the streamer receives a, separator, b, everything after the first separator (the doc comment speaks of 2 parts) | medium, not executed | StreamingEnvironment.ExtraSeparatorsDiscarded (about StreamingEnvironment.ResolveSource) | StreamingEnvironment.ResolveDocumented |

`StreamingEnvironment.ResolveAgreement` states exactly where the two definitions agree.
The qualified-name operations are modelled on the code as written, so they use `ResolveSource`; the (key, filename) operations look the key up with `GetStreamerByKey` and do not parse the filename.
The corrected behaviour is `ResolveDocumented`, and its properties are proved in
`PlainFilenameDiverges`, `OneSeparatorAgrees`, `UnknownKeyRefused` and `ExtraSeparatorsDiscarded`.

## Left out

- XAML configuration loading (`XamlConfiguration<StreamingSettings>` and the `Settings` getter): this is configuration I/O. The loaded registry is the `streamers` map of the environment.
- `StreamingSettings.Streamers` setter and the `GenericContentModel.Map` collection: the setter is only a null check, and the collection is replaced by a Dafny `map`.
- The `IStreamer`/`Streamer` abstractions: traits are not used. The resolution layer is generic in the streamer type, and a public operation returns the call it delegates. `FileSystemStreamer` is the only implementation performed (module `Streaming`). Other streamer implementations are outside the repository.
- `Streamer.Key` and its null check: nothing in the core reads a streamer's key. The registry is indexed by the map key.
- Real `FileStream` objects: byte reads and writes, `FileAccess`/`FileShare`, closing. So the byte-level write-then-read round trip is not modelled. Only path resolution, the file's existence and truncation to empty are modelled.
- FileStore.OpenFile: the store treats each distinct full-path string as a separate file, so two spellings of one file (relative and absolute, `..`, letter case on case-insensitive systems) are separate entries, and its frame on every other path holds only of the abstract store. Path normalisation is platform-specific.
- I/O failures other than an empty path, a missing file (Open) and an existing file (CreateNew): for example a missing directory, permissions or invalid path characters. They depend on the operating system.
- The internals of `Path.Combine`: its rooting and separator rules are platform-specific. It is an uninterpreted function parameter.
- FileSystemStreamers.FileSystemStreamer.GetFullFilename: assumes `Path.Combine` is total, so the ArgumentException it throws for invalid path characters is not modelled.
- FileSystemStreamers.FileSystemStreamer.OpenReadStream and FileSystemStreamers.FileSystemStreamer.OpenWriteStream: of the FileStream constructor's argument checks, only the empty path is modelled. Whitespace-only paths, invalid characters and unsupported path formats are not; those rules are platform-specific.
- The `StreamerException` constructors with an inner exception and for serialization: this is runtime plumbing. The fault carries the key and its message.
- Thread-safety of the static fields: the model is sequential.
