/** The decrypt step's choice of output format, file extension and output
    file name. */
module Naming {
  import opened Text
  import opened Files

  datatype OutputFormat = Mp4a | Mp3

  /** DecryptToLossy selects MP3 output; otherwise the audio stays in an MP4 container. */
  function FormatFor(decryptToLossy: bool): OutputFormat {
    if decryptToLossy then Mp3 else Mp4a
  }

  /** The extension switch; it covers every format, so its throwing default arm is unreachable. */
  function ExtensionOf(format: OutputFormat): string {
    match format
    case Mp4a => "m4b"
    case Mp3 => "mp3"
  }

  /** The output extension is "mp3" exactly when lossy output is configured,
      and "m4b" exactly when it is not. */
  function OutputExtension(decryptToLossy: bool): (ext: string)
    ensures ext == "mp3" <==> decryptToLossy
    ensures ext == "m4b" <==> !decryptToLossy
    ensures ext != [] && '.' !in ext
  {
    ExtensionOf(FormatFor(decryptToLossy))
  }

  /** destinationDir / safeTitle + " [" + productId + "]." + ext. When ext is
      a plain extension, reading the extension back off the name (as the file
      placement step does) yields ext again. */
  function OutputFileName(destinationDir: string, safeTitle: string, productId: string, ext: string): (r: Path)
    ensures r.dir == destinationDir
    ensures IsPrefix(safeTitle + " [" + productId + "]", r.name)
    ensures ext != [] && '.' !in ext ==> GetExtension(r.name) == "." + ext
    ensures ext != [] && '.' !in ext ==> Trim(GetExtension(r.name), '.') == ext
  {
    var stem := safeTitle + " [" + productId + "]";
    var name := stem + "." + ext;
    assert name[..|stem|] == stem;
    if ext != [] && '.' !in ext then
      ExtensionOfBuiltName(stem, ext);
      Path(destinationDir, name)
    else
      Path(destinationDir, name)
  }
}
