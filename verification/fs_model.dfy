/**
 The abstract observations the tool makes of the filesystem and of standard
 input. The real program asks the operating system for each of these at most
 once; here every answer is a value, so that the whole decision procedure is a
 pure function of them.
 */
module FsModel {

  /** An optional value. */
  datatype Option<+T> = None | Some(value: T)

  /** A step that either yields a value or panics (a failed `expect`,
      `unwrap` or an explicit `panic!`). */
  datatype Fallible<+T> = Ok(value: T) | Panic

  /** What a file-type query reports, without following a final symlink. */
  datatype Kind = Directory | File | Symlink | OtherKind

  /** The result of `symlink_metadata` on the input path. Only the two error
      kinds the tool recognises are told apart; every other error is
      `StatFailed`. `len` is the length the metadata reports. */
  datatype StatResult =
    | Metadata(kind: Kind, len: nat)
    | StatNotFound
    | StatPermissionDenied
    | StatFailed

  /** One item produced while iterating over a directory: either the item
      itself could not be read, or its file type could not be obtained, or
      its kind is known. */
  datatype Entry =
    | EntryUnreadable
    | EntryTypeUnknown
    | EntryOk(kind: Kind)

  /** The result of `read_dir` on the input path. `read_dir` follows
      symlinks, so for a link to a directory this is the target's listing. */
  datatype Listing = Entries(entries: seq<Entry>) | ListingFailed

  /** The result of `read_link` on the input path, followed by the
      conversion of the raw target to UTF-8 text. */
  datatype LinkRead = LinkTarget(target: string) | LinkNotUtf8 | LinkUnreadable

  /** The result of `fs::canonicalize` on the input path, followed by the
      conversion of the resolved path to UTF-8 text. */
  datatype CanonResult =
    | Resolved(path: string)
    | ResolvedNotUtf8
    | CanonNotFound
    | CanonFailed

  /** The result of reading one line from standard input. A successful read
      keeps the line terminator, and is empty at end of input. */
  datatype LineResult = Line(text: string) | LineFailed

  /** The command line: the path to test and the delete flag. */
  datatype Args = Args(path: string, deleteIfEmpty: bool)

  /** Everything the tool may observe during one run. Which of these it
      actually consults depends on the path's kind and on the delete flag. */
  datatype Observations = Observations(
    stat: StatResult,
    canon: CanonResult,
    listing: Listing,
    link: LinkRead,
    answer: LineResult)
}
