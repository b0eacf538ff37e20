/**
 The decision procedure of the tool: from the command line and the
 observations of one run to the exit code and the single delete action it may
 take, or to an abort standing for any panic.
 */
module Empd {
  import opened FsModel
  import opened Census
  import opened Canonical

  /** The only filesystem mutation the tool performs, on the input path. */
  datatype Action = NoAction | RemoveDir(path: string) | RemoveFile(path: string)

  /** How a run ends: a process exit with its code and the action taken before
      exiting, or an abort (a panic, a failed `expect` or `unwrap`). */
  datatype Outcome = Exit(code: int, action: Action) | Abort

  const NotFoundCode := 11
  const PermissionDeniedCode := 12
  const NonEmptyFileCode := 21
  const FileDeclinedCode := 22
  const NonEmptyDirectoryCode := 31
  const DirectoryDeclinedCode := 32
  const ResolvingLinkCode := 41
  const LinkDeclinedCode := 42

  /** The one answer that confirms a deletion: "y" and a line feed, compared
      byte for byte. */
  const Accept: string := "y\n"

  predicate Confirmed(line: string) {
    line == Accept
  }

  /** The tail shared by the three "empty" branches: without the delete flag
      the run succeeds untouched; with it, one line is read and only the exact
      accept answer yields `removal`; any other line declines with `declined`. */
  function Confirm(deleteIfEmpty: bool, answer: LineResult, removal: Action, declined: int): (r: Outcome)
    ensures r.Exit? && r.action != NoAction <==> deleteIfEmpty && answer == Line(Accept) && removal != NoAction
    ensures r.Exit? && r.action != NoAction ==> r.action == removal && r.code == 0
    ensures r == Abort <==> deleteIfEmpty && answer == LineFailed
    ensures r.Exit? && r.code != 0 ==> r == Exit(declined, NoAction) && deleteIfEmpty
    ensures !deleteIfEmpty ==> r == Exit(0, NoAction)
    ensures deleteIfEmpty && answer.Line? && !Confirmed(answer.text) ==> r == Exit(declined, NoAction)
  {
    if !deleteIfEmpty then Exit(0, NoAction)
    else
      match answer {
        case LineFailed => Abort
        case Line(text) =>
          if Confirmed(text) then Exit(0, removal) else Exit(declined, NoAction)
      }
  }

  /** The directory branch, once the path's metadata says it is a directory. */
  function ClassifyDirectory(args: Args, obs: Observations): (r: Outcome)
    ensures r.Exit? && r.action != NoAction ==> r.action == RemoveDir(args.path) && obs.listing == Entries([])
    ensures r.Exit? && r.code == NonEmptyDirectoryCode <==>
      (obs.canon.Resolved? && obs.listing.Entries? && |obs.listing.entries| > 0
       && forall e | e in obs.listing.entries :: Countable(e))
  {
    match Canonicalize(obs.canon) {
      case Panic => Abort
      case Ok(shown) =>
        if shown.None? then Abort
        else
          match obs.listing {
            case ListingFailed => Abort
            case Entries(es) =>
              match Tally(es) {
                case Panic => Abort
                case Ok(counts) =>
                  if counts.Total() > 0 then Exit(NonEmptyDirectoryCode, NoAction)
                  else Confirm(args.deleteIfEmpty, obs.answer, RemoveDir(args.path), DirectoryDeclinedCode)
              }
          }
    }
  }

  /** The regular-file branch, for a file of `len` bytes. */
  function ClassifyFile(args: Args, obs: Observations, len: nat): (r: Outcome)
    ensures r.Exit? && r.action != NoAction ==> r.action == RemoveFile(args.path) && len == 0
    ensures r.Exit? && r.code == NonEmptyFileCode <==> obs.canon.Resolved? && len > 0
  {
    match Canonicalize(obs.canon) {
      case Panic => Abort
      case Ok(shown) =>
        if shown.None? then Abort
        else if len > 0 then Exit(NonEmptyFileCode, NoAction)
        else Confirm(args.deleteIfEmpty, obs.answer, RemoveFile(args.path), FileDeclinedCode)
    }
  }

  /** The symbolic-link branch. The link's own target text must be readable;
      whether it resolves decides everything, and nothing about what it
      resolves to is looked at. */
  function ClassifySymlink(args: Args, obs: Observations): (r: Outcome)
    ensures r.Exit? && r.action != NoAction ==> r.action == RemoveFile(args.path) && obs.canon == CanonNotFound
    ensures r.Exit? && r.code == ResolvingLinkCode <==> obs.link.LinkTarget? && obs.canon.Resolved?
  {
    match obs.link {
      case LinkUnreadable => Abort
      case LinkNotUtf8 => Abort
      case LinkTarget(_) =>
        match Canonicalize(obs.canon) {
          case Panic => Abort
          case Ok(resolved) =>
            if resolved.Some? then Exit(ResolvingLinkCode, NoAction)
            else Confirm(args.deleteIfEmpty, obs.answer, RemoveFile(args.path), LinkDeclinedCode)
        }
    }
  }

  /** The whole run. A delete action is only ever taken on the input path,
      with the delete flag set and the exact accept answer read, and the run
      then exits 0. */
  function Classify(args: Args, obs: Observations): (r: Outcome)
    ensures r.Exit? && r.action != NoAction ==>
      args.deleteIfEmpty && obs.answer == Line(Accept) && r.code == 0 && r.action.path == args.path
  {
    match obs.stat {
      case StatNotFound => Exit(NotFoundCode, NoAction)
      case StatPermissionDenied => Exit(PermissionDeniedCode, NoAction)
      case StatFailed => Abort
      case Metadata(kind, len) =>
        match kind {
          case Directory => ClassifyDirectory(args, obs)
          case File => ClassifyFile(args, obs, len)
          case Symlink => ClassifySymlink(args, obs)
          case OtherKind => Abort
        }
    }
  }

  /** Carrying out the emitted action: a removal that fails panics, and
      otherwise the run ends as classified. */
  function Finish(r: Outcome, removed: bool): (f: Outcome)
    ensures f.Exit? ==> f == r
    ensures f == Abort <==> r == Abort || (r.action != NoAction && !removed)
  {
    match r {
      case Abort => Abort
      case Exit(code, action) =>
        if action != NoAction && !removed then Abort else r
    }
  }
}
