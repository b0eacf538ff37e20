/**
 What the tool promises, stated over the observations in the tool's own
 vocabulary (empty, non-empty, dangling, declined, fatal) and proved of
 `Empd.Classify`.
 */
module EmpdProperties {
  import opened FsModel
  import opened Census
  import opened Canonical
  import opened Empd

  /** The metadata says the path is of kind `k`. */
  predicate IsKind(obs: Observations, k: Kind) {
    obs.stat.Metadata? && obs.stat.kind == k
  }

  /** "Empty" in the tool's sense: a directory with no entries, a file of
      zero bytes, or a symbolic link that does not resolve. */
  predicate EmptyTarget(obs: Observations) {
    || (IsKind(obs, Directory) && obs.listing == Entries([]))
    || (IsKind(obs, File) && obs.stat.len == 0)
    || (IsKind(obs, Symlink) && obs.canon == CanonNotFound)
  }

  /** "Non-empty" in the tool's sense: a directory with at least one entry, a
      file of at least one byte, or a symbolic link that resolves, whatever it
      resolves to. */
  predicate NonEmptyTarget(obs: Observations) {
    || (IsKind(obs, Directory) && obs.listing.Entries? && |obs.listing.entries| > 0)
    || (IsKind(obs, File) && obs.stat.len > 0)
    || (IsKind(obs, Symlink) && obs.canon.Resolved?)
  }

  /** The user was asked and answered with a line other than the accept
      answer. */
  predicate Declined(args: Args, obs: Observations) {
    args.deleteIfEmpty && obs.answer.Line? && !Confirmed(obs.answer.text)
  }

  /** Every observation the program does not survive: an unexpected stat
      error, a top-level kind it does not handle, a directory or file whose
      path does not canonicalize, an unreadable listing or an uncountable
      entry, an unreadable or non-UTF-8 link target, a canonicalization error
      other than not-found, and a failed read of the confirmation line. */
  predicate Fatal(args: Args, obs: Observations) {
    || obs.stat == StatFailed
    || IsKind(obs, OtherKind)
    || (IsKind(obs, Directory) && !obs.canon.Resolved?)
    || (IsKind(obs, Directory) && obs.listing == ListingFailed)
    || (IsKind(obs, Directory) && obs.listing.Entries? && exists e | e in obs.listing.entries :: !Countable(e))
    || (IsKind(obs, File) && !obs.canon.Resolved?)
    || (IsKind(obs, Symlink) && !obs.link.LinkTarget?)
    || (IsKind(obs, Symlink) && (obs.canon == ResolvedNotUtf8 || obs.canon == CanonFailed))
    || (EmptyTarget(obs) && args.deleteIfEmpty && obs.answer == LineFailed)
  }

  /** The two recognised stat errors end the run with their own codes and no
      action; any other stat error aborts. */
  lemma StatErrors(args: Args, obs: Observations)
    ensures obs.stat == StatNotFound ==> Classify(args, obs) == Exit(NotFoundCode, NoAction)
    ensures obs.stat == StatPermissionDenied ==> Classify(args, obs) == Exit(PermissionDeniedCode, NoAction)
    ensures obs.stat == StatFailed ==> Classify(args, obs) == Abort
    ensures NotFoundCode == 11 && PermissionDeniedCode == 12
  {
  }

  /** A path that is none of directory, file and symlink aborts. */
  lemma OtherKindAborts(args: Args, obs: Observations)
    requires IsKind(obs, OtherKind)
    ensures Classify(args, obs) == Abort
  {
  }

  /** A healthy directory: exit 31 with entries, whatever the flag and the
      answer; without entries, exit 0, or the removal of the directory on the
      exact accept answer, or exit 32 on any other answer. */
  lemma DirectoryOutcomes(args: Args, obs: Observations)
    requires IsKind(obs, Directory) && obs.canon.Resolved? && obs.listing.Entries?
    requires forall e | e in obs.listing.entries :: Countable(e)
    ensures |obs.listing.entries| > 0 ==> Classify(args, obs) == Exit(NonEmptyDirectoryCode, NoAction)
    ensures |obs.listing.entries| == 0 && !args.deleteIfEmpty ==> Classify(args, obs) == Exit(0, NoAction)
    ensures |obs.listing.entries| == 0 && args.deleteIfEmpty && obs.answer == Line(Accept) ==>
      Classify(args, obs) == Exit(0, RemoveDir(args.path))
    ensures |obs.listing.entries| == 0 && Declined(args, obs) ==>
      Classify(args, obs) == Exit(DirectoryDeclinedCode, NoAction)
    ensures NonEmptyDirectoryCode == 31 && DirectoryDeclinedCode == 32
  {
  }

  /** A directory aborts when its path does not canonicalize (not even when
      it is merely not found), when it cannot be listed, or when one of its
      entries cannot be read, typed, or is of another kind. */
  lemma DirectoryAborts(args: Args, obs: Observations)
    requires IsKind(obs, Directory)
    ensures !obs.canon.Resolved? ==> Classify(args, obs) == Abort
    ensures obs.listing == ListingFailed ==> Classify(args, obs) == Abort
    ensures obs.listing.Entries? && (exists e | e in obs.listing.entries :: !Countable(e)) ==>
      Classify(args, obs) == Abort
  {
  }

  /** A healthy file: exit 21 with at least one byte, whatever the flag and
      the answer; with zero bytes, the same confirm protocol as a directory,
      removing the file or declining with exit 22. */
  lemma FileOutcomes(args: Args, obs: Observations)
    requires IsKind(obs, File) && obs.canon.Resolved?
    ensures obs.stat.len > 0 ==> Classify(args, obs) == Exit(NonEmptyFileCode, NoAction)
    ensures obs.stat.len == 0 && !args.deleteIfEmpty ==> Classify(args, obs) == Exit(0, NoAction)
    ensures obs.stat.len == 0 && args.deleteIfEmpty && obs.answer == Line(Accept) ==>
      Classify(args, obs) == Exit(0, RemoveFile(args.path))
    ensures obs.stat.len == 0 && Declined(args, obs) ==> Classify(args, obs) == Exit(FileDeclinedCode, NoAction)
    ensures NonEmptyFileCode == 21 && FileDeclinedCode == 22
  {
  }

  /** A symbolic link: an unreadable or non-UTF-8 target text aborts, and so
      does a canonicalization error other than not-found. With a readable
      target it exits 41 and never has an action when it resolves, whatever
      the flag and the answer; when it dangles, it follows the confirm
      protocol on the link path itself, declining with exit 42. */
  lemma SymlinkOutcomes(args: Args, obs: Observations)
    requires IsKind(obs, Symlink)
    ensures !obs.link.LinkTarget? ==> Classify(args, obs) == Abort
    ensures obs.canon == ResolvedNotUtf8 || obs.canon == CanonFailed ==> Classify(args, obs) == Abort
    ensures obs.link.LinkTarget? && obs.canon.Resolved? ==> Classify(args, obs) == Exit(ResolvingLinkCode, NoAction)
    ensures obs.link.LinkTarget? && obs.canon == CanonNotFound && !args.deleteIfEmpty ==>
      Classify(args, obs) == Exit(0, NoAction)
    ensures obs.link.LinkTarget? && obs.canon == CanonNotFound && args.deleteIfEmpty && obs.answer == Line(Accept) ==>
      Classify(args, obs) == Exit(0, RemoveFile(args.path))
    ensures obs.link.LinkTarget? && obs.canon == CanonNotFound && Declined(args, obs) ==>
      Classify(args, obs) == Exit(LinkDeclinedCode, NoAction)
    ensures ResolvingLinkCode == 41 && LinkDeclinedCode == 42
  {
  }

  /** A symbolic link is classified without looking at the contents of what
      it points to. The listing is the only observation of the target's
      contents (listing follows the link), and replacing it leaves the outcome
      unchanged; so does replacing the length, which for a link is the link's
      own size. Only whether the target exists is observed, through the
      canonicalization of the link, so whether it is an empty directory or an
      empty file cannot matter. */
  lemma SymlinkIgnoresTarget(args: Args, obs: Observations, listing: Listing, len: nat)
    requires IsKind(obs, Symlink)
    ensures Classify(args, obs) == Classify(args, obs.(stat := Metadata(Symlink, len), listing := listing))
  {
  }

  /** Only the exact line "y\n" confirms: any other answer, or a failed
      read, never produces a delete action. */
  lemma ExactConfirmation(args: Args, obs: Observations)
    requires obs.answer != Line(Accept)
    ensures Classify(args, obs).Exit? ==> Classify(args, obs).action == NoAction
  {
  }

  /** Answers that look like consent but are not the accept answer. */
  lemma LookalikeAnswersDecline(args: Args, obs: Observations, text: string)
    requires text in ["Y\n", "yes\n", "y", "", "y\r\n", " y\n"]
    requires args.deleteIfEmpty && EmptyTarget(obs) && !Fatal(args, obs) && obs.answer == Line(text)
    ensures Classify(args, obs).Exit? && Classify(args, obs).action == NoAction
    ensures Classify(args, obs).code in {DirectoryDeclinedCode, FileDeclinedCode, LinkDeclinedCode}
  {
  }

  /** A run that does not abort deletes exactly when the flag is set, the
      target is empty and the answer is the accept answer; the action is
      then on the input path, removing a directory exactly when the path is
      one. */
  lemma DeleteOnlyWhenEmptyAndConfirmed(args: Args, obs: Observations)
    requires Classify(args, obs) != Abort
    ensures Classify(args, obs).action != NoAction <==>
      args.deleteIfEmpty && EmptyTarget(obs) && obs.answer == Line(Accept)
    ensures Classify(args, obs).action != NoAction ==>
      && Classify(args, obs).action.path == args.path
      && (Classify(args, obs).action.RemoveDir? <==> IsKind(obs, Directory))
  {
  }

  /** Canonicalization turns not-found into `None`: fatal for a directory or
      a file, but the dangling case for a symbolic link, whose run then only
      aborts if the confirmation line cannot be read. */
  lemma NotFoundCanonicalization(args: Args, obs: Observations)
    requires obs.canon == CanonNotFound
    ensures Canonicalize(obs.canon) == Ok(None)
    ensures IsKind(obs, Directory) || IsKind(obs, File) ==> Classify(args, obs) == Abort
    ensures IsKind(obs, Symlink) && obs.link.LinkTarget? ==>
      (Classify(args, obs) == Abort <==> args.deleteIfEmpty && obs.answer == LineFailed)
  {
  }

  /** The run aborts exactly on the fatal observations. */
  lemma AbortIffFatal(args: Args, obs: Observations)
    ensures Classify(args, obs) == Abort <==> Fatal(args, obs)
  {
    match obs.stat {
      case Metadata(kind, len) =>
        match kind {
          case Directory =>
            if obs.canon.Resolved? && obs.listing.Entries? {
              var es := obs.listing.entries;
              if forall e | e in es :: Countable(e) {
                if |es| > 0 {
                  assert Classify(args, obs) == Exit(NonEmptyDirectoryCode, NoAction);
                } else {
                  assert es == [];
                }
              }
            }
          case File =>
          case Symlink =>
          case OtherKind =>
        }
      case _ =>
    }
  }

  /** The code a healthy directory exits with. */
  lemma DirectoryCode(args: Args, obs: Observations)
    requires !Fatal(args, obs) && IsKind(obs, Directory)
    ensures EmptyTarget(obs) != NonEmptyTarget(obs)
    ensures Classify(args, obs).Exit?
    ensures Classify(args, obs).code ==
      if NonEmptyTarget(obs) then NonEmptyDirectoryCode else if Declined(args, obs) then DirectoryDeclinedCode else 0
  {
    assert obs.canon.Resolved? && obs.listing.Entries?;
    var es := obs.listing.entries;
    assert forall e | e in es :: Countable(e);
    DirectoryOutcomes(args, obs);
    if |es| == 0 {
      assert es == [];
      assert EmptyTarget(obs) && !NonEmptyTarget(obs);
    } else {
      assert NonEmptyTarget(obs) && !EmptyTarget(obs);
    }
  }

  /** The code a healthy file exits with. */
  lemma FileCode(args: Args, obs: Observations)
    requires !Fatal(args, obs) && IsKind(obs, File)
    ensures EmptyTarget(obs) != NonEmptyTarget(obs)
    ensures Classify(args, obs).Exit?
    ensures Classify(args, obs).code ==
      if NonEmptyTarget(obs) then NonEmptyFileCode else if Declined(args, obs) then FileDeclinedCode else 0
  {
    AbortIffFatal(args, obs);
    FileOutcomes(args, obs);
  }

  /** The code a healthy symbolic link exits with. */
  lemma SymlinkCode(args: Args, obs: Observations)
    requires !Fatal(args, obs) && IsKind(obs, Symlink)
    ensures EmptyTarget(obs) != NonEmptyTarget(obs)
    ensures Classify(args, obs).Exit?
    ensures Classify(args, obs).code ==
      if NonEmptyTarget(obs) then ResolvingLinkCode else if Declined(args, obs) then LinkDeclinedCode else 0
  {
    AbortIffFatal(args, obs);
    SymlinkOutcomes(args, obs);
  }

  /** Each exit code names one condition, so that a caller can branch on it:
      the table of codes read backwards. */
  lemma ExitCodeMeaning(args: Args, obs: Observations)
    requires !Fatal(args, obs)
    ensures Classify(args, obs).Exit?
    ensures Classify(args, obs).code == 11 <==> obs.stat == StatNotFound
    ensures Classify(args, obs).code == 12 <==> obs.stat == StatPermissionDenied
    ensures Classify(args, obs).code == 21 <==> IsKind(obs, File) && NonEmptyTarget(obs)
    ensures Classify(args, obs).code == 22 <==> IsKind(obs, File) && EmptyTarget(obs) && Declined(args, obs)
    ensures Classify(args, obs).code == 31 <==> IsKind(obs, Directory) && NonEmptyTarget(obs)
    ensures Classify(args, obs).code == 32 <==> IsKind(obs, Directory) && EmptyTarget(obs) && Declined(args, obs)
    ensures Classify(args, obs).code == 41 <==> IsKind(obs, Symlink) && NonEmptyTarget(obs)
    ensures Classify(args, obs).code == 42 <==> IsKind(obs, Symlink) && EmptyTarget(obs) && Declined(args, obs)
    ensures Classify(args, obs).code == 0 <==> EmptyTarget(obs) && !Declined(args, obs)
  {
    match obs.stat {
      case Metadata(kind, len) =>
        match kind {
          case Directory => DirectoryCode(args, obs);
          case File => FileCode(args, obs);
          case Symlink => SymlinkCode(args, obs);
          case OtherKind =>
        }
      case _ =>
    }
  }

  /** The answer is only consulted when the flag is set and the target is
      empty. */
  lemma AnswerIgnoredUnlessAsked(args: Args, obs: Observations, answer: LineResult)
    requires !args.deleteIfEmpty || !EmptyTarget(obs)
    ensures Classify(args, obs) == Classify(args, obs.(answer := answer))
  {
    if IsKind(obs, Directory) {
      DirectoryAnswerIgnored(args, obs, answer);
    }
  }

  /** The directory case of `AnswerIgnoredUnlessAsked`. */
  lemma DirectoryAnswerIgnored(args: Args, obs: Observations, answer: LineResult)
    requires !args.deleteIfEmpty || obs.listing != Entries([])
    ensures ClassifyDirectory(args, obs) == ClassifyDirectory(args, obs.(answer := answer))
  {
    if obs.canon.Resolved? && obs.listing.Entries? && Tally(obs.listing.entries).Ok? {
      var es := obs.listing.entries;
      if args.deleteIfEmpty {
        assert es != [];
        assert Tally(es).value.Total() > 0;
      }
    }
  }

  /** The outcome does not depend on the order in which the directory is
      enumerated. */
  lemma ListingOrderIrrelevant(args: Args, obs: Observations, es: seq<Entry>)
    requires obs.listing.Entries? && multiset(es) == multiset(obs.listing.entries)
    ensures Classify(args, obs) == Classify(args, obs.(listing := Entries(es)))
  {
    TallyOrderIrrelevant(obs.listing.entries, es);
    var obs' := obs.(listing := Entries(es));
    if IsKind(obs, Directory) {
      assert |es| == 0 <==> |obs.listing.entries| == 0 by {
        assert |multiset(es)| == |es|;
      }
      assert ClassifyDirectory(args, obs) == ClassifyDirectory(args, obs');
    }
  }

  /** A directory holding one file, one subdirectory and one symlink counts
      one of each, three in all, and is non-empty. */
  lemma MixedDirectoryCensus(args: Args, obs: Observations)
    requires IsKind(obs, Directory) && obs.canon.Resolved?
    requires obs.listing == Entries([EntryOk(File), EntryOk(Directory), EntryOk(Symlink)])
    ensures Tally(obs.listing.entries) == Ok(Counts(1, 1, 1))
    ensures Tally(obs.listing.entries).value.Total() == 3
    ensures Classify(args, obs) == Exit(NonEmptyDirectoryCode, NoAction)
  {
    var es := obs.listing.entries;
    assert forall e | e in es :: Countable(e);
    assert multiset(es) == multiset{EntryOk(File), EntryOk(Directory), EntryOk(Symlink)};
    var c := Tally(es).value;
    assert c.directories == 1 && c.files == 1 && c.symlinks == 1;
    DirectoryOutcomes(args, obs);
  }

  /** Carrying out a classified run: a successful removal, or no removal at
      all, leaves the outcome as classified; a failed removal aborts, and only
      a run with an action can fail that way. */
  lemma FinishAfterClassify(args: Args, obs: Observations)
    ensures Finish(Classify(args, obs), true) == Classify(args, obs)
    ensures Classify(args, obs).Exit? && Classify(args, obs).action == NoAction ==>
      Finish(Classify(args, obs), false) == Classify(args, obs)
    ensures Finish(Classify(args, obs), false) == Abort <==>
      Fatal(args, obs) || (args.deleteIfEmpty && EmptyTarget(obs) && obs.answer == Line(Accept))
  {
    AbortIffFatal(args, obs);
    if Classify(args, obs) != Abort {
      DeleteOnlyWhenEmptyAndConfirmed(args, obs);
    }
  }
}
