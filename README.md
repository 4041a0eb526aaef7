# Book liberation in Libation, modelled in Dafny

Libation "liberates" Audible books: it downloads a book's encrypted audio,
decrypts it into a scratch directory and moves the results into the user's
books directory. This project models the class that drives one such run,
`DownloadDecryptBook`, together with the decisions it makes:

- **The run** (`ProcessAsync`). A book whose final audio file already exists is
  refused. Otherwise the book is decrypted and the results are placed. The
  book is marked `Liberated` only when the audio file was among the files
  placed. Each stopping point returns its own fixed error string, and an
  exception escapes unchanged. `Begin` and `Completed` are fired around every
  path.
- **The decrypt step** (`aaxToM4bConverterDecryptAsync`). It validates the
  book's account and locale, obtains the license and picks the output format
  (MP3 when lossy output is configured, M4B otherwise). It then names the
  output file, configures the engine, forwards the engine's callbacks as
  events and runs the engine. `StreamingBegin` and `StreamingCompleted` are
  fired around all of this.
- **Validation**. The account is checked first, then the locale. The error
  message starts with the book's title, cut to 50 characters plus "..." when
  it is longer than 53, followed by " [productId]".
- **File placement**. The step picks the scratch files whose names contain the
  product id, ignoring case. It sorts them so that audio files come last,
  keeping listing order within each group. It moves them one at a time into
  the books directory. A cue sheet is rewritten to name the final audio file
  just before it is moved. Moving audio last means the books directory looks
  finished only once the audio file has landed. Every audio file goes to the
  same audio file name, and `File.Move` does not overwrite. So when the book
  has two audio files in the scratch directory, the second move throws.

The file system is a map from paths to contents. It also holds the set of
existing directories and the trace of completed moves. `File.Move` refuses a
missing source, an existing destination and a missing directory. The run's
observable history is the sequence of events fired.

The storage layout helpers are parameters whose definitions are not part of
this model: `PathLib.ToPathSafeString`, `AudibleFileStorage.Audio.GetDestDir`,
`IsFileTypeMatch`, `FileUtility.GetValidFilename` and `Cue.UpdateFileName`.
The license fetch and the engine's run are inputs to a run: the license fetch
either succeeds or throws, and the engine run is given by its callbacks, the
files it writes and what `Run` returns.

Modules, one per file: `Common` (options, outcomes, filtering, LINQ `Except`),
`Text` (.NET string helpers), `Files`, `Library`, `Events`, `Naming`,
`Validation`, `FilePlacement` and `Liberator`.

Where a plausible reading differs from the code, the model follows the code:

- A book whose audio file already exists gets an error status, not an empty
  one.
- The exception thrown by `validate` is not caught. It leaves `ProcessAsync`
  after both `finally` blocks have fired their events.

## Model

| member | source | states |
|---|---|---|
| Text.IsNullOrWhiteSpace | FileLiberator/DownloadDecryptBook.cs:233-237 | a missing or all-whitespace string (including the empty one) is "null or whitespace", and nothing else is |
| Text.ContainsInsensitive | FileLiberator/DownloadDecryptBook.cs:205 | a name contains the product id ignoring case exactly when the lower-cased id occurs at some position of the lower-cased name |
| Text.ExtensionOfBuiltName | FileLiberator/DownloadDecryptBook.cs:172 | reading the extension off "base.ext" gives ".ext", and trimming the dots gives ext back |
| Validation.ErrorTitle | FileLiberator/DownloadDecryptBook.cs:223-231 | titles longer than 53 characters are cut to 50 plus "...", shorter ones are kept whole, and " [productId]" always ends the result |
| Validation.ErrorString | FileLiberator/DownloadDecryptBook.cs:220-221 | the message starts with the error title and says that the named field is not known |
| Validation.ValidationError | FileLiberator/DownloadDecryptBook.cs:218-238 | no error exactly when account and locale are both known; an unknown account wins over an unknown locale; each error names its field |
| Naming.OutputExtension | FileLiberator/DownloadDecryptBook.cs:108-115 | the extension is "mp3" exactly when lossy output is configured and "m4b" exactly when it is not |
| Naming.OutputFileName | FileLiberator/DownloadDecryptBook.cs:117 | the output file lies in the destination directory, its name starts with "safeTitle [productId]", and its extension reads back as the chosen one |
| Events.OrUnknown | FileLiberator/DownloadDecryptBook.cs:158-159 | an absent tag becomes "[unknown]" and a present one is kept |
| Events.CoverArtEvents | FileLiberator/DownloadDecryptBook.cs:142-153 | RequestCoverArt fires exactly when the image is missing and fixups are allowed; CoverImageDiscovered fires exactly for a present image, carrying it; with no image and fixups off nothing fires |
| Events.TagEvents | FileLiberator/DownloadDecryptBook.cs:155-160 | title, first author and narrator are announced in that order, the last two defaulting to "[unknown]" |
| Events.Forward | FileLiberator/DownloadDecryptBook.cs:121-124 | every event forwarded from an engine callback is an engine event |
| Events.ForwardAll | FileLiberator/DownloadDecryptBook.cs:121-127 | everything forwarded while the engine runs is an engine event |
| Events.DecryptEventsBracketed | FileLiberator/DownloadDecryptBook.cs:79-139 | StreamingBegin is first and StreamingCompleted last, each exactly once, with only engine events between them |
| Events.ProcessEventsBracketed | FileLiberator/DownloadDecryptBook.cs:48-77 | Begin is first and Completed last, each exactly once |
| Events.RunEventsOrdered | FileLiberator/DownloadDecryptBook.cs:48-139 | in a run that reaches the decrypt step, Begin, StreamingBegin, the engine events, StreamingCompleted and Completed come in that order |
| Files.Moved | FileLiberator/DownloadDecryptBook.cs:189 | after a move the destination holds the source's content, the source is gone and every other path is unchanged |
| Files.FileSystem.CreateDirectory | FileLiberator/DownloadDecryptBook.cs:168 | the directory exists afterwards and no file changes |
| Files.FileSystem.WriteFile | FileLiberator/DownloadDecryptBook.cs:187 | only the written file's content changes |
| Files.FileSystem.EnumerateFiles | FileLiberator/DownloadDecryptBook.cs:202-204 | lists every file of the directory exactly once and nothing else |
| Files.FileSystem.Move | FileLiberator/DownloadDecryptBook.cs:189 | succeeds exactly when the source exists, the destination does not and its directory does; on success the file changes path and the move is recorded; on failure nothing changes |
| FilePlacement.ProductFiles | FileLiberator/DownloadDecryptBook.cs:203-206 | exactly the listed files whose names contain the product id, ignoring case, and no repeats when the listing has none |
| FilePlacement.SortedIsStablePartition | FileLiberator/DownloadDecryptBook.cs:208-213 | the sorted list is the product's non-audio files followed by its audio files, each group in listing order |
| FilePlacement.SortedAudioLast | FileLiberator/DownloadDecryptBook.cs:208-213 | no audio file comes before a non-audio file |
| FilePlacement.SortProductFiles | FileLiberator/DownloadDecryptBook.cs:208-213 | the sorted list holds exactly the listed files whose names contain the product id, whatever the listing (Except drops repeats, the concatenation loses no file) |
| FilePlacement.SortedSelection | FileLiberator/DownloadDecryptBook.cs:199-216 | from a listing without repeats, each of the product's files is selected once |
| FilePlacement.SortedStable | FileLiberator/DownloadDecryptBook.cs:209-213 | within the audio group and within the non-audio group the listing order is kept |
| FilePlacement.GetProductFilesSorted | FileLiberator/DownloadDecryptBook.cs:199-216 | returns the product's files in the scratch directory, each once, sorted audio last |
| Text.Truncate | FileLiberator/DownloadDecryptBook.cs:227 | the result is a prefix of the string, of the limit's length when the string is longer and the whole string otherwise |
| Text.GetExtension | FileLiberator/DownloadDecryptBook.cs:172 | the extension is a suffix of the name |
| Text.GetExtensionShape | FileLiberator/DownloadDecryptBook.cs:172 | the extension is empty exactly when the name has no dot or ends with one; otherwise it is a dot followed by at least one character and no other dot |
| Text.TrimExtension | FileLiberator/DownloadDecryptBook.cs:172 | Trim('.') of an extension removes exactly its leading dot, leaving no dot |
| FilePlacement.TargetFor | FileLiberator/DownloadDecryptBook.cs:167-175 | the books directory comes from GetDestDir; the audio extension is the decrypted file's extension without its dot, and holds no dot; the audio file name comes from GetValidFilename with the product id as suffix |
| FilePlacement.Destination | FileLiberator/DownloadDecryptBook.cs:180-184 | an audio file goes to the audio file name; any other file to GetValidFilename of its own extension with the product id and the audio extension as suffixes |
| FilePlacement.IsCue | FileLiberator/DownloadDecryptBook.cs:186 | a destination is a cue sheet exactly when its name ends with a dot and three characters that fold to "cue" |
| FilePlacement.PlanMoves | FileLiberator/DownloadDecryptBook.cs:178-189 | one move per sorted file, in order: audio files go to the audio file name, other files to a valid name carrying their own extension and the audio extension |
| FilePlacement.PlanMovesAudioLast | FileLiberator/DownloadDecryptBook.cs:164-184 | no audio file is moved before a non-audio file, and every audio file goes to the audio file name |
| FilePlacement.HasAudioIff | FileLiberator/DownloadDecryptBook.cs:191 | the placement finds an audio file exactly when the scratch listing holds an audio file whose name contains the product id |
| FilePlacement.RunMoves | FileLiberator/DownloadDecryptBook.cs:178-192 | the loop either completes every move or stops, having thrown, at the first move that File.Move refuses |
| FilePlacement.RunMovesLanded | FileLiberator/DownloadDecryptBook.cs:186-189 | every completed move has landed: its destination holds the file's content, rewritten to name the audio file when the destination is a cue sheet |
| FilePlacement.AudioLandsLast | FileLiberator/DownloadDecryptBook.cs:164-192 | once an audio file has been moved, every non-audio file of the book has been moved before it |
| FilePlacement.PlanAudioMoves | FileLiberator/DownloadDecryptBook.cs:180-191 | some sorted file is audio exactly when some planned move moves an audio file, and each such move goes to the audio file name |
| FilePlacement.AudioMoveInTrace | FileLiberator/DownloadDecryptBook.cs:191 | the moves added to the trace include an audio file's exactly when some sorted file is audio |
| FilePlacement.AudioFileLanded | FileLiberator/DownloadDecryptBook.cs:175-191 | when every move completes and an audio file was among them, the final audio file exists |
| FilePlacement.TakenDestinationStops | FileLiberator/DownloadDecryptBook.cs:189 | a move into a destination that already holds a file, and that no move empties, is never completed: the loop stops there or earlier |
| FilePlacement.SharedDestinationStops | FileLiberator/DownloadDecryptBook.cs:178-189 | when two moves share a destination, the loop never completes the second |
| FilePlacement.SecondAudioFileThrows | FileLiberator/DownloadDecryptBook.cs:175-189 | all audio files go to the one audio file name, so with two audio files the loop throws at the second, and the run reports File.Move's exception instead of the flag |
| FilePlacement.PlaceFile | FileLiberator/DownloadDecryptBook.cs:186-189 | a file bound for a cue destination is rewritten first; then File.Move's outcome and effect as above |
| FilePlacement.PlaceAll | FileLiberator/DownloadDecryptBook.cs:177-192 | the loop's effect is RunMoves on the starting file map; the trace gains the completed moves in order; the flag is true exactly when an audio file's move was recorded |
| FilePlacement.MoveFilesToBooksDir | FileLiberator/DownloadDecryptBook.cs:162-197 | creates the books directory, then behaves as RunMoves on the sorted files; returns the directory and the flag, or File.Move's exception; with the flag set, the final audio file exists |
| Liberator.DownloadDecryptBook.DecryptedFileName | FileLiberator/DownloadDecryptBook.cs:108-117 | the decrypted file lies in the destination directory and its extension is the configured format's, dot included |
| Liberator.DecryptedExtensionReadsBack | FileLiberator/DownloadDecryptBook.cs:117 | the placement step reads back from the decrypted file's name exactly the extension the configuration chose |
| Liberator.DownloadDecryptBook.DecryptAsync | FileLiberator/DownloadDecryptBook.cs:79-139 | the validation error or the license exception is thrown before the engine is built; otherwise the engine is configured with the output file, the cache directory, the format and the app name "Libation", its files are written, and Run's result is the output path or None; events are StreamingBegin, the forwarded ones, then StreamingCompleted on every path |
| Liberator.DownloadDecryptBook.RunConverter | FileLiberator/DownloadDecryptBook.cs:108-133 | the engine is built afresh with the output file named after the book in the configured format, the cache directory, the format and the app name "Libation"; exactly the forwarded callbacks are fired; the engine's files are written; Run's result becomes the output path, None or its exception |
| Liberator.DownloadDecryptBook.Validate | FileLiberator/DownloadDecryptBook.cs:240 | a book can be processed exactly when its final audio file does not exist; ProcessAsync refuses exactly those books |
| Liberator.DownloadDecryptBook.PlaceDecrypted | FileLiberator/DownloadDecryptBook.cs:63-71 | for the order the scratch directory was enumerated in: the books directory is created, the file map and move trace are RunMoves over the sorted files, and the result is File.Move's exception exactly when a move was refused; otherwise success exactly when an audio file was among the product's files (then the book is Liberated and the audio file exists), and "Cannot find final audio file after decryption" with no audio move when not |
| Liberator.PlacedSucceedsIff | FileLiberator/DownloadDecryptBook.cs:63-71 | a placement that did not throw succeeds exactly when the scratch directory held an audio file whose name contains the product id |
| Liberator.DownloadDecryptBook.DecryptAndPlace | FileLiberator/DownloadDecryptBook.cs:56-71 | after the existence check: the decrypt step's exceptions propagate; a failed Run gives "Decrypt failed"; unless Run succeeded, no directory is created, nothing moves, the only file change is what the engine wrote and the status is kept; after a successful Run the decrypted files are placed as PlaceDecrypted states, and success comes exactly when the scratch directory held an audio file of the product; the engine of this run becomes the latest one exactly when the decrypt reached it |
| Liberator.DownloadDecryptBook.ProcessAsync | FileLiberator/DownloadDecryptBook.cs:48-77 | a book Validate rejects gets "Cannot find decrypt. Final audio file already exists" and its files, directories, moves, status and engine are left as they were; exceptions from validation, the license fetch and the engine propagate; a failed Run gives "Decrypt failed"; unless Run succeeded, no directory is created, nothing moves, the only file change is what the engine wrote and the status is unchanged; the engine built for this run, named after the book, becomes the one Cancel reaches exactly when the decrypt reached it; after a successful Run the files written by the engine are placed as PlaceDecrypted states, and the run succeeds exactly when the scratch directory then held an audio file of the product; Liberated exactly on success; the event trace is Begin, the decrypt events, Completed |
| Liberator.DownloadDecryptBook.Cancel | FileLiberator/DownloadDecryptBook.cs:242-245 | cancels the engine of the latest decrypt when there is one |
| Liberator.AaxcDownloadConverter.constructor | FileLiberator/DownloadDecryptBook.cs:120 | the engine is built with the output file, the cache directory, the format and the app name "Libation" |
| Liberator.RunTraceBracketed | FileLiberator/DownloadDecryptBook.cs:48-139 | every run fires Begin first and Completed last, once each; a refused book fires nothing else; otherwise StreamingBegin and StreamingCompleted come second and second-to-last, with exactly the engine events between them, also when validation throws |

## Left out

- Remote API creation and the license fetch (DownloadDecryptBook.cs:87-97) are network calls. They are an input that either yields a license or throws. The license's contents (URL, key, IV, user agent) are not modelled.
- Chapter-table construction (DownloadDecryptBook.cs:99-105) is not modelled. It converts times into a type from another library. When fixups are allowed and the license carries no chapter list, the `foreach` over a null sequence would throw. The model does not capture that exception.
- The decrypt engine's work is an input: its callbacks, the files it writes and what `Run` returns or throws. `Task.Run` and async scheduling are not modelled. The cover-art callback handed to observers (`SetCoverArt`) is not modelled.
- `AaxcDownloadConverter.Cancel` only records that cancellation was requested. Its effect on a running engine is not modelled.
- The Serilog handlers registered in the constructor (DownloadDecryptBook.cs:33-46) only log, and are left out.
- `StatusUpdate` is declared but never fired, so it is not part of the event type.
- `AudibleFileStorage.Audio.Refresh()` (DownloadDecryptBook.cs:194) refreshes a cache outside this class. It has no modelled effect.
- `PathLib.ToPathSafeString`, `AudibleFileStorage.Audio.GetDestDir`, `IsFileTypeMatch`, `FileUtility.GetValidFilename` and `Cue.UpdateFileName` are not part of this model. They are parameters, so every property holds for any definitions of them that depend only on their arguments. In the original they may read the file system: `GetValidFilename` is called after `CreateDirectory` and after earlier moves, and a definition that picks a free name would give two files bound for the same name different names. Under the model such files share a destination, and the loop throws at the second (`SharedDestinationStops`, `SecondAudioFileThrows`). The text of `LibraryBook.ToString()` is likewise a field of the book.
- Validation.ErrorTitle: lengths are counted in Unicode scalar values, while .NET's `Length` and `Truncate` count UTF-16 code units. A title with characters outside the Basic Multilingual Plane is cut later, or not at all, in the model: 30 emoji count 30 here and 60 in .NET. Text.Truncate counts the same way.
- Text.ToLower: folds ASCII letters only. Culture-aware case folding of other letters is not modelled.
- File.Move's exception is modelled with one fixed message, "File.Move failed". The distinct .NET exception types and messages are not modelled.
- `Audio_Exists` is an input flag of the book. The model does not recompute it from the books directory, so it does not show that a second run after a successful one is refused.
- The extension switch's throwing default arm (DownloadDecryptBook.cs:114) cannot be reached, because there are only two formats.
- Begin and Completed carry the book's product id in place of the `LibraryBook` object. Events carry no sender.
- FileLiberator/UNTESTED/DownloadBook.cs is not part of this model. It is a network download plus one file move.
