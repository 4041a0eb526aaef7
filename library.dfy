/** The library entities the pipeline reads and writes, the status it
    returns, and the collaborators it is given (configuration flags and the
    storage layout policy). */
module Library {
  import opened Common
  import opened Files

  datatype LiberatedStatus = NotLiberated | Liberated | Error

  /** The immutable facts about a book that the pipeline reads. */
  datatype Book = Book(
    title: string,
    audibleProductId: string,
    locale: Option<string>,
    /** Whether the final audio file is already in the books directory. */
    audioExists: bool)

  /** A book in the user's library; BookStatus (kept on the book's
      user-defined item) is the one field the pipeline writes. */
  class LibraryBook {
    const account: Option<string>
    const book: Book
    /** The text LibraryBook.ToString() gives; its format is not part of this model. */
    const displayText: string
    var bookStatus: LiberatedStatus

    constructor (account: Option<string>, book: Book, displayText: string, bookStatus: LiberatedStatus)
      ensures this.account == account && this.book == book && this.displayText == displayText
      ensures this.bookStatus == bookStatus
    {
      this.account := account;
      this.book := book;
      this.displayText := displayText;
      this.bookStatus := bookStatus;
    }
  }

  /** The status a run returns: success exactly when it holds no error. */
  datatype StatusHandler = StatusHandler(errors: seq<string>) {
    predicate IsSuccess() {
      errors == []
    }
  }

  /** The configuration flags the pipeline consults. */
  datatype Configuration = Configuration(allowLibationFixup: bool, decryptToLossy: bool)

  /** The storage layout policy and path helpers, whose definitions are not
      part of this model: PathLib.ToPathSafeString,
      AudibleFileStorage.Audio.GetDestDir and IsFileTypeMatch,
      FileUtility.GetValidFilename (directory, title, extension, suffixes)
      and Cue.UpdateFileName (cue text, new audio path). */
  datatype Storage = Storage(
    downloadsInProgress: string,
    decryptInProgress: string,
    toPathSafeString: string -> string,
    getDestDir: (string, string) -> string,
    isFileTypeMatch: Path -> bool,
    getValidFilename: (string, string, string, seq<string>) -> Path,
    cueUpdateFileName: (Content, Path) -> Content)
}
