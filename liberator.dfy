/** The book-liberation pipeline: a run checks that the book is not already
    liberated, decrypts it into the scratch directory, moves the results into
    the books directory and marks the book Liberated, broadcasting events
    along the way. */
module Liberator {
  import opened Common
  import opened Text
  import opened Files
  import opened Library
  import opened Events
  import opened Naming
  import opened Validation
  import opened FilePlacement

  const AlreadyExists: string := "Cannot find decrypt. Final audio file already exists"
  const DecryptFailed: string := "Decrypt failed"
  const NoAudioAfterDecrypt: string := "Cannot find final audio file after decryption"
  const AppName: string := "Libation"

  /** The account API creation and the license fetch: either a license is
      obtained or one of the calls throws. */
  datatype LicenseOutcome = LicenseObtained | LicenseThrew(message: string)

  /** What the decrypt engine does when run: the callbacks it makes, the files
      it writes, and what Run returns (or the exception it throws). */
  datatype EngineRun = EngineRun(callbacks: seq<EngineCallback>, written: map<Path, Content>, outcome: Outcome<bool>)

  /** Everything one run receives from the network and the engine. */
  datatype Remote = Remote(license: LicenseOutcome, engine: EngineRun)

  /** A run gets past validation and the license fetch to the engine. */
  predicate ReachesEngine(lb: LibraryBook, remote: Remote) {
    ValidationError(lb.account, lb.book).None? && remote.license.LicenseObtained?
  }

  /** The decrypt engine as the pipeline configures it. Its work is the
      EngineRun a run is given; Cancel is recorded, not modelled further. */
  class AaxcDownloadConverter {
    const outFileName: Path
    const cacheDir: string
    const format: OutputFormat
    const appName: string
    var cancelRequested: bool

    constructor (outFileName: Path, cacheDir: string, format: OutputFormat)
      ensures this.outFileName == outFileName && this.cacheDir == cacheDir && this.format == format
      ensures appName == AppName && !cancelRequested
    {
      this.outFileName := outFileName;
      this.cacheDir := cacheDir;
      this.format := format;
      appName := AppName;
      cancelRequested := false;
    }

    method Cancel()
      modifies this
      ensures cancelRequested
    {
      cancelRequested := true;
    }
  }

  class DownloadDecryptBook {
    /** The storage layout and the configuration, read through static
        singletons in the original. */
    const storage: Storage
    const config: Configuration
    /** The engine of the latest decrypt, which Cancel reaches. */
    var aaxcDownloader: AaxcDownloadConverter?
    /** Every event fired so far, oldest first. */
    var events: seq<Event>

    constructor (storage: Storage, config: Configuration)
      ensures this.storage == storage && this.config == config
      ensures aaxcDownloader == null && events == []
    {
      this.storage := storage;
      this.config := config;
      aaxcDownloader := null;
      events := [];
    }

    /** The file the decrypt step writes into destinationDir, named after the
        book and carrying the extension of the configured format. */
    function DecryptedFileName(destinationDir: string, book: Book): (r: Path)
      ensures r.dir == destinationDir
      ensures GetExtension(r.name) == "." + OutputExtension(config.decryptToLossy)
    {
      var ext := OutputExtension(config.decryptToLossy);
      OutputFileName(destinationDir, storage.toPathSafeString(book.title), book.audibleProductId, ext)
    }

    /** The events the decrypt step fires for a book: its bracketing pair
        around whatever the engine's callbacks forward. */
    function DecryptTrace(lb: LibraryBook, remote: Remote): seq<Event> {
      DecryptEvents("Begin decrypting " + lb.displayText,
        if ReachesEngine(lb, remote) then ForwardAll(remote.engine.callbacks, config.allowLibationFixup) else [],
        "Completed downloading and decrypting " + lb.book.title)
    }

    /** aaxToM4bConverterDecryptAsync: validates the book, fetches the license,
        configures the engine and runs it. Returns the decrypted file's path,
        None when Run reports failure, or the exception that escaped.
        StreamingCompleted fires on every path, as from a finally block. */
    method DecryptAsync(cacheDir: string, destinationDir: string, lb: LibraryBook, fs: FileSystem, remote: Remote)
      returns (r: Outcome<Option<Path>>)
      modifies this, fs
      ensures events == old(events) + DecryptTrace(lb, remote)
      ensures ValidationError(lb.account, lb.book).Some? ==> r == Thrown(ValidationError(lb.account, lb.book).value)
      ensures ValidationError(lb.account, lb.book).None? && remote.license.LicenseThrew? ==>
        r == Thrown(remote.license.message)
      ensures !ReachesEngine(lb, remote) ==> fs.files == old(fs.files) && aaxcDownloader == old(aaxcDownloader)
      ensures ReachesEngine(lb, remote) ==>
        fs.files == old(fs.files) + remote.engine.written &&
        fresh(aaxcDownloader) && aaxcDownloader.outFileName == DecryptedFileName(destinationDir, lb.book) &&
        aaxcDownloader.cacheDir == cacheDir && aaxcDownloader.format == FormatFor(config.decryptToLossy) &&
        aaxcDownloader.appName == AppName
      ensures ReachesEngine(lb, remote) && remote.engine.outcome.Thrown? ==> r == Thrown(remote.engine.outcome.message)
      ensures ReachesEngine(lb, remote) && remote.engine.outcome.Returned? ==>
        r == Returned(if remote.engine.outcome.value then Some(DecryptedFileName(destinationDir, lb.book)) else None)
      ensures fs.dirs == old(fs.dirs) && fs.moves == old(fs.moves)
    {
      ghost var before := events;
      events := events + [StreamingBegin("Begin decrypting " + lb.displayText)];
      var invalid := ValidationError(lb.account, lb.book);
      if invalid.Some? {
        r := Thrown(invalid.value);
      } else if remote.license.LicenseThrew? {
        r := Thrown(remote.license.message);
      } else {
        r := RunConverter(cacheDir, destinationDir, lb.book, fs, remote.engine);
      }
      events := events + [StreamingCompleted("Completed downloading and decrypting " + lb.book.title)];
      AppendBracketed(before, StreamingBegin("Begin decrypting " + lb.displayText),
        if ReachesEngine(lb, remote) then ForwardAll(remote.engine.callbacks, config.allowLibationFixup) else [],
        StreamingCompleted("Completed downloading and decrypting " + lb.book.title));
    }

    /** The part of the decrypt step past the license: picks the format,
        names the output file, builds the engine, forwards its callbacks and
        runs it. The output path when Run succeeds, None when it fails, or
        Run's exception. */
    method RunConverter(cacheDir: string, destinationDir: string, book: Book, fs: FileSystem, engine: EngineRun)
      returns (r: Outcome<Option<Path>>)
      modifies this, fs
      ensures events == old(events) + ForwardAll(engine.callbacks, config.allowLibationFixup)
      ensures fs.files == old(fs.files) + engine.written && fs.dirs == old(fs.dirs) && fs.moves == old(fs.moves)
      ensures fresh(aaxcDownloader) && aaxcDownloader.outFileName == DecryptedFileName(destinationDir, book) &&
        aaxcDownloader.cacheDir == cacheDir && aaxcDownloader.format == FormatFor(config.decryptToLossy) &&
        aaxcDownloader.appName == AppName && !aaxcDownloader.cancelRequested
      ensures engine.outcome.Thrown? ==> r == Thrown(engine.outcome.message)
      ensures engine.outcome.Returned? ==>
        r == Returned(if engine.outcome.value then Some(DecryptedFileName(destinationDir, book)) else None)
    {
      var format := FormatFor(config.decryptToLossy);
      var extension := ExtensionOf(format);
      var outFileName := OutputFileName(destinationDir, storage.toPathSafeString(book.title), book.audibleProductId, extension);
      aaxcDownloader := new AaxcDownloadConverter(outFileName, cacheDir, format);
      events := events + ForwardAll(engine.callbacks, config.allowLibationFixup);
      fs.WriteFiles(engine.written);
      match engine.outcome
      case Thrown(message) =>
        r := Thrown(message);
      case Returned(success) =>
        r := Returned(if success then Some(outFileName) else None);
    }

    /** Validate: a book can be processed when its final audio file does not
        exist yet; ProcessAsync refuses exactly the books it rejects. */
    predicate Validate(lb: LibraryBook)
      ensures Validate(lb) <==> !lb.book.audioExists
    {
      !lb.book.audioExists
    }

    /** The end of ProcessAsync's try block: places the decrypted files and
        marks the book Liberated when the audio file was among them. The
        listing is the order in which the scratch directory was enumerated. */
    method PlaceDecrypted(lb: LibraryBook, outputAudioFilename: Path, fs: FileSystem)
      returns (r: Outcome<StatusHandler>, ghost listing: seq<Path>)
      modifies lb, fs
      ensures Placed(storage, lb.book, outputAudioFilename, old(fs.dirs), old(fs.files), old(fs.moves),
        listing, fs.files, fs.dirs, fs.moves, r)
      ensures r in {Thrown(MoveFailed), Returned(StatusHandler([NoAudioAfterDecrypt])), Returned(StatusHandler([]))}
      ensures lb.bookStatus == if r == Returned(StatusHandler([])) then Liberated else old(lb.bookStatus)
      ensures r == Returned(StatusHandler([])) ==>
        (exists k :: |old(fs.moves)| <= k < |fs.moves| && IsAudio(storage, fs.moves[k].src)) &&
        TargetFor(storage, lb.book, outputAudioFilename).audioFileName in fs.files
      ensures r == Returned(StatusHandler([NoAudioAfterDecrypt])) ==>
        forall k :: |old(fs.moves)| <= k < |fs.moves| ==> !IsAudio(storage, fs.moves[k].src)
    {
      var moveResults;
      moveResults, listing := MoveFilesToBooksDir(storage, lb.book, outputAudioFilename, fs);
      match moveResults
      case Thrown(message) =>
        r := Thrown(message);
      case Returned((destinationDir, movedAudioFile)) =>
        if !movedAudioFile {
          r := Returned(StatusHandler([NoAudioAfterDecrypt]));
        } else {
          lb.bookStatus := Liberated;
          r := Returned(StatusHandler([]));
        }
    }

    /** ProcessAsync: one liberation run. Begin and Completed bracket every
        path, Completed firing as from a finally block, also when an exception
        escapes. The book becomes Liberated exactly when the run succeeds. */
    method ProcessAsync(lb: LibraryBook, fs: FileSystem, remote: Remote)
      returns (r: Outcome<StatusHandler>, ghost listing: seq<Path>)
      modifies this, lb, fs
      ensures events == old(events) +
        ProcessEvents(lb.book.audibleProductId, if lb.book.audioExists then [] else DecryptTrace(lb, remote))
      ensures !Validate(lb) ==>
        r == Returned(StatusHandler([AlreadyExists])) &&
        fs.files == old(fs.files) && fs.moves == old(fs.moves) && aaxcDownloader == old(aaxcDownloader)
      ensures Validate(lb) && ValidationError(lb.account, lb.book).Some? ==>
        r == Thrown(ValidationError(lb.account, lb.book).value)
      ensures Validate(lb) && ValidationError(lb.account, lb.book).None? && remote.license.LicenseThrew? ==>
        r == Thrown(remote.license.message)
      ensures Validate(lb) && ReachesEngine(lb, remote) && remote.engine.outcome.Thrown? ==>
        r == Thrown(remote.engine.outcome.message)
      ensures Validate(lb) && ReachesEngine(lb, remote) && remote.engine.outcome == Returned(false) ==>
        r == Returned(StatusHandler([DecryptFailed]))
      ensures Validate(lb) ==> r != Returned(StatusHandler([AlreadyExists]))
      ensures !(Validate(lb) && ReachesEngine(lb, remote) && remote.engine.outcome == Returned(true)) ==>
        fs.moves == old(fs.moves) && lb.bookStatus == old(lb.bookStatus) && fs.dirs == old(fs.dirs) &&
        fs.files == old(fs.files) + (if Validate(lb) && ReachesEngine(lb, remote) then remote.engine.written else map[])
      ensures !(Validate(lb) && ReachesEngine(lb, remote)) ==> aaxcDownloader == old(aaxcDownloader)
      ensures Validate(lb) && ReachesEngine(lb, remote) ==>
        fresh(aaxcDownloader) && aaxcDownloader.outFileName == DecryptedFileName(storage.decryptInProgress, lb.book)
      ensures Validate(lb) && ReachesEngine(lb, remote) && remote.engine.outcome == Returned(true) ==>
        Placed(storage, lb.book, DecryptedFileName(storage.decryptInProgress, lb.book), old(fs.dirs),
          old(fs.files) + remote.engine.written, old(fs.moves), listing, fs.files, fs.dirs, fs.moves, r)
      ensures Validate(lb) && ReachesEngine(lb, remote) && remote.engine.outcome == Returned(true) && r.Returned? ==>
        (r == Returned(StatusHandler([])) <==>
          exists f :: f in old(fs.files) + remote.engine.written && f.dir == storage.decryptInProgress &&
            ContainsInsensitive(f.name, lb.book.audibleProductId) && IsAudio(storage, f))
      ensures r.Returned? ==>
        r.value in {StatusHandler([]), StatusHandler([AlreadyExists]), StatusHandler([DecryptFailed]), StatusHandler([NoAudioAfterDecrypt])}
      ensures lb.bookStatus == if r == Returned(StatusHandler([])) then Liberated else old(lb.bookStatus)
      ensures r == Returned(StatusHandler([])) ==>
        (exists k :: |old(fs.moves)| <= k < |fs.moves| && IsAudio(storage, fs.moves[k].src)) &&
        TargetFor(storage, lb.book, DecryptedFileName(storage.decryptInProgress, lb.book)).audioFileName in fs.files
      ensures r == Returned(StatusHandler([NoAudioAfterDecrypt])) ==>
        forall k :: |old(fs.moves)| <= k < |fs.moves| ==> !IsAudio(storage, fs.moves[k].src)
    {
      ghost var before := events;
      ghost var inner := if lb.book.audioExists then [] else DecryptTrace(lb, remote);
      listing := [];
      events := events + [Begin(lb.book.audibleProductId)];
      if lb.book.audioExists {
        r := Returned(StatusHandler([AlreadyExists]));
      } else {
        r, listing := DecryptAndPlace(lb, fs, remote);
      }
      assert events == before + [Begin(lb.book.audibleProductId)] + inner;
      events := events + [Completed(lb.book.audibleProductId)];
      AppendBracketed(before, Begin(lb.book.audibleProductId), inner, Completed(lb.book.audibleProductId));
    }

    /** The rest of ProcessAsync's try block once the book passed the existence
        check: decrypt, then place the decrypted files when Run succeeded. */
    method DecryptAndPlace(lb: LibraryBook, fs: FileSystem, remote: Remote)
      returns (r: Outcome<StatusHandler>, ghost listing: seq<Path>)
      modifies this, lb, fs
      ensures events == old(events) + DecryptTrace(lb, remote)
      ensures ValidationError(lb.account, lb.book).Some? ==> r == Thrown(ValidationError(lb.account, lb.book).value)
      ensures ValidationError(lb.account, lb.book).None? && remote.license.LicenseThrew? ==>
        r == Thrown(remote.license.message)
      ensures ReachesEngine(lb, remote) && remote.engine.outcome.Thrown? ==> r == Thrown(remote.engine.outcome.message)
      ensures ReachesEngine(lb, remote) && remote.engine.outcome == Returned(false) ==>
        r == Returned(StatusHandler([DecryptFailed]))
      ensures !(ReachesEngine(lb, remote) && remote.engine.outcome == Returned(true)) ==>
        fs.moves == old(fs.moves) && lb.bookStatus == old(lb.bookStatus) && fs.dirs == old(fs.dirs) &&
        fs.files == old(fs.files) + (if ReachesEngine(lb, remote) then remote.engine.written else map[])
      ensures !ReachesEngine(lb, remote) ==> aaxcDownloader == old(aaxcDownloader)
      ensures ReachesEngine(lb, remote) ==>
        fresh(aaxcDownloader) && aaxcDownloader.outFileName == DecryptedFileName(storage.decryptInProgress, lb.book)
      ensures ReachesEngine(lb, remote) && remote.engine.outcome == Returned(true) ==>
        Placed(storage, lb.book, DecryptedFileName(storage.decryptInProgress, lb.book), old(fs.dirs),
          old(fs.files) + remote.engine.written, old(fs.moves), listing, fs.files, fs.dirs, fs.moves, r)
      ensures ReachesEngine(lb, remote) && remote.engine.outcome == Returned(true) && r.Returned? ==>
        (r == Returned(StatusHandler([])) <==>
          exists f :: f in old(fs.files) + remote.engine.written && f.dir == storage.decryptInProgress &&
            ContainsInsensitive(f.name, lb.book.audibleProductId) && IsAudio(storage, f))
      ensures r.Returned? ==>
        r.value in {StatusHandler([]), StatusHandler([DecryptFailed]), StatusHandler([NoAudioAfterDecrypt])}
      ensures lb.bookStatus == if r == Returned(StatusHandler([])) then Liberated else old(lb.bookStatus)
      ensures r == Returned(StatusHandler([])) ==>
        (exists k :: |old(fs.moves)| <= k < |fs.moves| && IsAudio(storage, fs.moves[k].src)) &&
        TargetFor(storage, lb.book, DecryptedFileName(storage.decryptInProgress, lb.book)).audioFileName in fs.files
      ensures r == Returned(StatusHandler([NoAudioAfterDecrypt])) ==>
        forall k :: |old(fs.moves)| <= k < |fs.moves| ==> !IsAudio(storage, fs.moves[k].src)
    {
      listing := [];
      var decrypted := DecryptAsync(storage.downloadsInProgress, storage.decryptInProgress, lb, fs, remote);
      match decrypted
      case Thrown(message) =>
        r := Thrown(message);
      case Returned(None) =>
        r := Returned(StatusHandler([DecryptFailed]));
      case Returned(Some(outputAudioFilename)) =>
        ghost var dirs0, files0, moves0 := fs.dirs, fs.files, fs.moves;
        r, listing := PlaceDecrypted(lb, outputAudioFilename, fs);
        if r.Returned? {
          PlacedSucceedsIff(storage, lb.book, outputAudioFilename, dirs0, files0, moves0, listing, fs.files, fs.dirs, fs.moves, r);
        }
    }

    /** Cancel: cancels the engine of the latest decrypt; nothing happens when
        no decrypt has started. */
    method Cancel()
      modifies aaxcDownloader
      ensures aaxcDownloader != null ==> aaxcDownloader.cancelRequested
    {
      if aaxcDownloader != null {
        aaxcDownloader.Cancel();
      }
    }
  }

  /** The placement step reads the audio extension back off the decrypted
      file's name, and gets the one the configuration chose. */
  lemma DecryptedExtensionReadsBack(d: DownloadDecryptBook, destinationDir: string, book: Book)
    ensures TargetFor(d.storage, book, d.DecryptedFileName(destinationDir, book)).musicFileExt ==
      OutputExtension(d.config.decryptToLossy)
  {
    var ext := OutputExtension(d.config.decryptToLossy);
    var t := TargetFor(d.storage, book, d.DecryptedFileName(destinationDir, book));
    assert ("." + t.musicFileExt)[1..] == t.musicFileExt && ("." + ext)[1..] == ext;
  }

  /** What placing the decrypted files did, given the order in which the
      scratch directory was enumerated (listing): the books directory was
      created, the moves planned for the sorted product files were made up to
      the first File.Move that threw, and the run reports that exception, or
      else success exactly when an audio file was among the product's files
      and the single "no audio" error otherwise. */
  ghost predicate Placed(s: Storage, book: Book, decrypted: Path,
    dirs0: set<string>, files0: map<Path, Content>, moves0: seq<FileMove>, listing: seq<Path>,
    files: map<Path, Content>, dirs: set<string>, moves: seq<FileMove>, r: Outcome<StatusHandler>)
  {
    var t := TargetFor(s, book, decrypted);
    var sorted := SortProductFiles(listing, book.audibleProductId, s.isFileTypeMatch);
    var plan := PlanMoves(s, book, t, sorted);
    var run := RunMoves(s, dirs0 + {t.destinationDir}, files0, plan, t.audioFileName);
    NoDuplicates(listing) && (forall p :: p in listing <==> p in files0 && p.dir == decrypted.dir) &&
    files == run.files && dirs == dirs0 + {t.destinationDir} && moves == moves0 + plan[..run.done] &&
    (r.Thrown? <==> run.threw) && (r.Thrown? ==> r.message == MoveFailed) &&
    (r.Returned? ==> r.value in {StatusHandler([]), StatusHandler([NoAudioAfterDecrypt])}) &&
    (r.Returned? ==> (r.value == StatusHandler([]) <==> HasAudio(s, sorted)))
  }

  /** Without naming the enumeration order: a placement that did not throw
      succeeds exactly when the scratch directory held an audio file whose
      name contains the product id. */
  lemma PlacedSucceedsIff(s: Storage, book: Book, decrypted: Path,
    dirs0: set<string>, files0: map<Path, Content>, moves0: seq<FileMove>, listing: seq<Path>,
    files: map<Path, Content>, dirs: set<string>, moves: seq<FileMove>, r: Outcome<StatusHandler>)
    requires Placed(s, book, decrypted, dirs0, files0, moves0, listing, files, dirs, moves, r)
    requires r.Returned?
    ensures r.value.IsSuccess() <==>
      exists f :: f in files0 && f.dir == decrypted.dir && ContainsInsensitive(f.name, book.audibleProductId) && IsAudio(s, f)
  {
    HasAudioIff(s, listing, book.audibleProductId);
  }

  /** The trace of every run, whatever happens in it: Begin first and
      Completed last, each exactly once. A run that gets past the existence
      check brackets the decrypt step's StreamingBegin and StreamingCompleted
      inside them, around all the engine's events; a run that stops at the
      check fires nothing else. */
  lemma RunTraceBracketed(d: DownloadDecryptBook, lb: LibraryBook, remote: Remote)
    ensures var pid := lb.book.audibleProductId;
      var t := ProcessEvents(pid, if lb.book.audioExists then [] else d.DecryptTrace(lb, remote));
      |t| >= 2 && t[0] == Begin(pid) && t[|t| - 1] == Completed(pid) &&
      (forall i :: 0 <= i < |t| ==> (t[i].Begin? <==> i == 0)) &&
      (forall i :: 0 <= i < |t| ==> (t[i].Completed? <==> i == |t| - 1)) &&
      (lb.book.audioExists ==> |t| == 2) &&
      (!lb.book.audioExists ==>
        |t| >= 4 &&
        t[1] == StreamingBegin("Begin decrypting " + lb.displayText) &&
        t[|t| - 2] == StreamingCompleted("Completed downloading and decrypting " + lb.book.title) &&
        (forall i :: 0 <= i < |t| ==> (t[i].FromEngine() <==> 1 < i < |t| - 2)))
  {
    var pid := lb.book.audibleProductId;
    if lb.book.audioExists {
      ProcessEventsBracketed(pid, []);
    } else {
      var forwarded := if ReachesEngine(lb, remote) then ForwardAll(remote.engine.callbacks, d.config.allowLibationFixup) else [];
      RunEventsOrdered(pid, "Begin decrypting " + lb.displayText, forwarded, "Completed downloading and decrypting " + lb.book.title);
    }
  }
}
