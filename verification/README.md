# empd, modelled in Dafny

`empd` inspects one filesystem path and says whether it is an empty
directory, an empty (zero-byte) file, or a symbolic link whose target does not
exist. With the delete flag it offers to delete such an "empty" path after an
interactive confirmation. Its answer is the process exit code.

This project models the whole decision procedure of `src/main.rs` as a pure,
total function. Every question the program puts to the operating system is an
input value instead:

- the result of `symlink_metadata` (not found, permission denied, another
  error, or a kind and a length);
- the outcome of `canonicalize` (resolved, resolved but not UTF-8, not
  found, another error);
- the directory listing, entry by entry (unreadable entry, unknown type, or
  a kind);
- the result of `read_link` (target text, target not UTF-8, unreadable);
- the line read from standard input (the text with its terminator, or a
  failed read).

The command line is `Args(path, deleteIfEmpty)`. The result is an
`Outcome`: `Exit(code, action)` or `Abort`. The action is `NoAction`,
`RemoveDir(path)` or `RemoveFile(path)`. `Abort` stands for every `panic!`,
failed `expect` and failed `unwrap`.

Files:

- `fs_model.dfy` (module `FsModel`): the observation datatypes.
- `census.dfy` (module `Census`): the count of a directory's entries. It
  exists as a fold, `Tally`, and as the program's loop, `TakeCensus`.
- `canonical.dfy` (module `Canonical`): the `canonicalize` helper.
- `classify.dfy` (module `Empd`): exit codes, the confirm protocol, the three
  branches, `Classify`, and `Finish` for carrying out the removal.
- `properties.dfy` (module `EmpdProperties`): the tool's promises as
  lemmas. They are stated with predicates in the tool's own vocabulary:
  `EmptyTarget`, `NonEmptyTarget`, `Declined` and `Fatal`.

Two behaviours of the code are worth stating plainly:

- The prompt asks for `"y"` (src/main.rs:122, 179, 240), but the code
  compares the whole line read, terminator included, with `"y\n"`
  (lines 133, 190, 252). So `"y\r\n"` or a `"y"` cut off by the end of
  input is declined.
- The `canonicalize` helper turns a not-found error into `None` (lines
  313-321). Only the symbolic-link branch uses that as a fallback to the raw
  path (lines 215-236). The directory and file branches call `expect` on the
  result (lines 63-64 and 154-155), so there a not-found canonicalization
  aborts the run.

## Model

| member | source | states |
|---|---|---|
| Census.Step | src/main.rs:79-94 | One entry raises the total by one when it is a directory, file or symlink, and panics otherwise. |
| Census.Tally | src/main.rs:68-97 | The census succeeds exactly when every entry is a directory, file or symlink. Each counter then equals the number of entries of its kind, and the total equals the number of entries. |
| Census.TakeCensus | src/main.rs:68-97 | The three-counter loop, which panics at the first uncountable entry, computes the same result as the census fold. |
| Census.TallyOrderIrrelevant | src/main.rs:72-97 | Two listings holding the same entries in any order give the same census. |
| Canonical.Canonicalize | src/main.rs:296-329 | A resolved path becomes `Some(path)` and not-found becomes `None`. A non-UTF-8 resolved path or any other error panics. |
| Empd.Confirm | src/main.rs:120-150 | Without the flag, the result is exit 0 with no action. With the flag, exactly the line `"y\n"` yields the removal with exit 0. Any other line yields the declined code with no action, and a failed read aborts. |
| Empd.ClassifyDirectory | src/main.rs:62-152 | A directory exits 31 exactly when it canonicalizes and all its entries are countable and there is at least one. It can only be removed, as a directory on the input path, when its listing is empty. |
| Empd.ClassifyFile | src/main.rs:153-206 | A file exits 21 exactly when it canonicalizes and has a positive length. It can only be removed, on the input path, when its length is zero. |
| Empd.ClassifySymlink | src/main.rs:207-273 | A link exits 41 exactly when its target text is readable and it resolves. It can only be removed, as a file on the link path, when it does not resolve. |
| Empd.Classify | src/main.rs:44-279 | Any delete action requires the delete flag and the answer `"y\n"`. It exits 0 and targets the input path. |
| Empd.Finish | src/main.rs:133-136 | Carrying out the removal never changes a completed exit. A failed removal aborts, and only a run with an action can fail that way. The same `unwrap` of the removal is at lines 192 and 254. |
| EmpdProperties.StatErrors | src/main.rs:44-59 | Not-found exits 11 and permission-denied exits 12, both with no action. Any other stat error aborts. |
| EmpdProperties.OtherKindAborts | src/main.rs:274-276 | A path that is not a directory, file or symlink aborts. |
| EmpdProperties.DirectoryOutcomes | src/main.rs:99-150 | A healthy directory with entries exits 31 with no action, whatever the flag and the answer. An empty one exits 0 without the flag. With the flag it is removed on `"y\n"` with exit 0, and exits 32 on any other line. |
| EmpdProperties.DirectoryAborts | src/main.rs:62-97 | A directory aborts if its path does not canonicalize (even as not-found), if it cannot be listed, or if any entry is unreadable, untyped or of another kind. |
| EmpdProperties.FileOutcomes | src/main.rs:157-205 | A file of positive length exits 21 with no action, whatever the flag and the answer. A zero-length file follows the confirm protocol with `RemoveFile(path)`, and exits 22 when declined. |
| EmpdProperties.SymlinkOutcomes | src/main.rs:207-270 | An unreadable or non-UTF-8 link target aborts, and so does a canonicalization error other than not-found. With a readable target, a resolving link exits 41 and never has an action. A dangling link follows the confirm protocol, removing the link path itself, and exits 42 when declined. |
| EmpdProperties.SymlinkIgnoresTarget | src/main.rs:207-230 | A symlink's outcome does not change when the listing changes; the listing is the only observation of the target's contents, and only whether the target exists is observed, through the canonicalization of the link. Nor does it change with the length, which for a link is the link's own size. That a link to an empty file or directory is non-empty follows from `SymlinkOutcomes`. |
| EmpdProperties.ExactConfirmation | src/main.rs:127-135 | If the answer is anything but the line `"y\n"`, or the read fails, no delete action is produced. |
| EmpdProperties.LookalikeAnswersDecline | src/main.rs:184-201 | `"Y\n"`, `"yes\n"`, `"y"`, `""`, `"y\r\n"` and `" y\n"` each decline, with a declined code and no action. |
| EmpdProperties.DeleteOnlyWhenEmptyAndConfirmed | src/main.rs:120-135 | A run that does not abort deletes if and only if the flag is set, the target is empty and the answer is `"y\n"`. The action is on the input path, and it is `RemoveDir` exactly for a directory. |
| EmpdProperties.NotFoundCanonicalization | src/main.rs:313-321 | Canonicalization maps not-found to `None`. That aborts a directory or a file. For a readable symlink it is the dangling case, which then aborts only on a failed confirmation read. |
| EmpdProperties.AbortIffFatal | src/main.rs:44-279 | Given that output writes succeed, the run aborts if and only if one of the listed fatal observations occurs. |
| EmpdProperties.DirectoryCode | src/main.rs:99-150 | A healthy directory exits 31 if non-empty, 32 if declined, and 0 otherwise. It is either empty or non-empty, never both. |
| EmpdProperties.FileCode | src/main.rs:159-205 | A healthy file exits 21 if non-empty, 22 if declined, and 0 otherwise. |
| EmpdProperties.SymlinkCode | src/main.rs:219-270 | A healthy symlink exits 41 if it resolves, 42 if it dangles and deletion was declined, and 0 otherwise. |
| EmpdProperties.ExitCodeMeaning | src/main.rs:44-279 | Each exit code of a non-fatal run identifies one condition, in both directions: 11, 12, 21, 22, 31, 32, 41, 42, and 0 for "empty and not declined". |
| EmpdProperties.AnswerIgnoredUnlessAsked | src/main.rs:120-131 | The answer cannot affect the outcome unless the flag is set and the target is empty. |
| EmpdProperties.ListingOrderIrrelevant | src/main.rs:66-97 | The outcome does not depend on the order in which the directory is enumerated. |
| EmpdProperties.MixedDirectoryCensus | src/main.rs:68-111 | A directory holding one file, one subdirectory and one symlink counts 1, 1 and 1, with a total of 3, and exits 31. |
| EmpdProperties.FinishAfterClassify | src/main.rs:133-136 | After classification, a successful removal (or none) keeps the outcome. A failed removal aborts exactly when deletion was confirmed on an empty target. |

## Left out

- Argument parsing (`clap`, lines 15-34): the arguments are the `Args` value. A path argument that is not valid UTF-8 is rejected by the argument parser before the modelled code runs, so the path's own `to_str` (lines 38-40) always succeeds.
- Output writes are assumed to succeed. A failed `println!`/`eprintln!` (for example a closed pipe on standard output) panics at any status line (lines 100, 113, 160, 170, 221, 231, 282), at any prompt (121, 178, 239), and in the delete branches after the removal (137, 194, 256). So a real run can abort with no fatal observation, or remove the target and then abort instead of exiting 0.
- All message text, colours and `bold_if_greater_than_zero` (lines 288-294): the text itself is presentation only. So are the census counts and byte length shown in the non-empty messages; the model computes the counts but not the text.
- The real filesystem and terminal calls: `symlink_metadata`, `read_dir`, `read_link`, `fs::canonicalize`, `read_line`, `remove_dir`/`remove_file` and `process::exit`. Their results are inputs, and the deletion is an emitted action. `Finish` takes the removal's success as a boolean.
- The time-of-check/time-of-use gap between classifying and deleting: deletion is only an emitted action, and the tool takes no lock.
- Census.Tally: the counters are unbounded integers. In the source the three counters and `total_items` (line 97) are `i32`, so the sum overflows once a directory holds more than 2^31 - 1 entries in all, however they split across the kinds. A debug build then panics. In a release build the wrapped total can be zero or negative, and line 99 would treat that non-empty directory as empty. Directories that large are out of reach of real filesystems, so this is not modelled.
- The diagnostic text of each abort: all aborts are one `Abort` value.
