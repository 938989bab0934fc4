/** Small value types shared by the other modules. */
module Wrappers {

  /** A Python value that may be `None`. */
  datatype Option<+T> = None | Some(value: T)

  /** What a log record says; `Text` gives its exact wording. */
  datatype Message =
    | Retrying(exc: string)              // a retried call raised `exc`
    | TaskFailed                         // every retried call raised
    | NoSource                           // `getSource` was given no source
    | SourceListingFailed(source: string)
    | NotAbsolute(dest: string)
    | DestinationExists(dest: string)
    | DuplicateFolder(renamed: string)   // `makePath` fell back to the uuid suffix
    | DownloadFailed(filePath: string)
    | PartialDownload(name: string)
    | SourcesFound
    | DestinationCreated(root: string)

  function Text(m: Message): string {
    match m
    case Retrying(exc) => "Exception: " + exc + ". Retrying..."
    case TaskFailed => "Error executing task"
    case NoSource => "Error: No source was provided"
    case SourceListingFailed(source) => "Error getting source folder/file " + source
    case NotAbsolute(dest) => "Destination: " + dest + " is not an absolute path"
    case DestinationExists(dest) =>
      "Destination: " + dest + " already exists and is potentially storing a backup or some other data. In place backups are not yet supported."
    case DuplicateFolder(renamed) => DuplicateFolderText + renamed
    case DownloadFailed(filePath) => "Failed to download file: " + filePath
    case PartialDownload(name) => "Partial download of file: " + name
    case SourcesFound => "Successfully found drive sources"
    case DestinationCreated(root) => "Successfully created Google Drive Backup directory at: " + root
  }

  /**
   * The duplicate-folder warning names only the final, renamed path: its
   * text is one fixed sentence followed by that path, whatever the path.
   */
  lemma DuplicateWarningNamesFinalPath(a: string, b: string)
    ensures var ta := Text(DuplicateFolder(a));
      var tb := Text(DuplicateFolder(b));
      && |a| <= |ta| && ta[|ta| - |a|..] == a
      && |ta| - |a| == |tb| - |b|
      && ta[..|ta| - |a|] == tb[..|tb| - |b|]
  {
    var p := DuplicateFolderText;
    assert (p + a)[..|p|] == p && (p + b)[..|p|] == p;
    assert (p + a)[|p|..] == a;
  }

  /** The fixed sentence of the duplicate-folder warning, before the path. */
  const DuplicateFolderText: string :=
    "Found duplicate folders at same node. Consider avoiding duplicate nodes in drive. Directory name as been changed to: "

  /** One record written to the `logging` logger, at the level it was logged. */
  datatype LogEntry = Info(msg: Message) | Warning(msg: Message) | Error(msg: Message)

  /** The exceptions that can leave the downloader's operations. */
  datatype PyException =
    | Abort                     // `abortBackup()`: a bare `raise Exception`
    | UnpackNone                // `TypeError` of `_, done = result` when `result` is `None`
    | KeyError(key: string)     // the conversion table has no entry for a mime type
    | FileExists(path: string)  // `os.mkdir` of a path that already exists
}
