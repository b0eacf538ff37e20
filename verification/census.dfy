/**
 The census of a directory's immediate entries: how many are directories,
 regular files and symbolic links. Any entry that cannot be read, whose type
 cannot be obtained, or that is of another kind makes the census panic.
 */
module Census {
  import opened FsModel

  datatype Counts = Counts(directories: nat, files: nat, symlinks: nat) {
    /** The number of entries counted. */
    function Total(): nat {
      directories + files + symlinks
    }
  }

  /** An entry the census can count. */
  predicate Countable(e: Entry) {
    e.EntryOk? && e.kind != OtherKind
  }

  /** The census after one more entry: one of the three counters goes up by
      one, or the census panics. */
  function Step(c: Counts, e: Entry): (r: Fallible<Counts>)
    ensures r.Ok? <==> Countable(e)
    ensures r.Ok? ==> r.value.Total() == c.Total() + 1
  {
    match e {
      case EntryUnreadable => Panic
      case EntryTypeUnknown => Panic
      case EntryOk(k) =>
        match k {
          case Directory => Ok(c.(directories := c.directories + 1))
          case File => Ok(c.(files := c.files + 1))
          case Symlink => Ok(c.(symlinks := c.symlinks + 1))
          case OtherKind => Panic
        }
    }
  }

  /** The census of `es`, taken in enumeration order. It succeeds exactly when
      every entry is countable, and then each counter is the number of
      occurrences of its kind and the total is the number of entries. */
  function Tally(es: seq<Entry>): (r: Fallible<Counts>)
    ensures r.Ok? <==> forall e | e in es :: Countable(e)
    ensures r.Ok? ==> r.value.directories == multiset(es)[EntryOk(Directory)]
    ensures r.Ok? ==> r.value.files == multiset(es)[EntryOk(File)]
    ensures r.Ok? ==> r.value.symlinks == multiset(es)[EntryOk(Symlink)]
    ensures r.Ok? ==> r.value.Total() == |es|
    decreases |es|
  {
    if |es| == 0 then Ok(Counts(0, 0, 0))
    else
      var init, last := es[..|es| - 1], es[|es| - 1];
      assert es == init + [last];
      match Tally(init) {
        case Panic => Panic
        case Ok(c) => Step(c, last)
      }
  }

  /** The census loop as the program runs it: three counters, one pass over
      the entries, and a panic at the first entry it cannot count. */
  method TakeCensus(es: seq<Entry>) returns (r: Fallible<Counts>)
    ensures r == Tally(es)
  {
    var directories, files, symlinks := 0, 0, 0;
    var i := 0;
    while i < |es|
      invariant 0 <= i <= |es|
      invariant Tally(es[..i]) == Ok(Counts(directories, files, symlinks))
    {
      assert es[..i + 1][..i] == es[..i];
      assert Tally(es[..i + 1]) == Step(Counts(directories, files, symlinks), es[i]);
      assert es[i] in es;
      match es[i] {
        case EntryUnreadable =>
          return Panic;
        case EntryTypeUnknown =>
          return Panic;
        case EntryOk(k) =>
          match k {
            case Directory => directories := directories + 1;
            case File => files := files + 1;
            case Symlink => symlinks := symlinks + 1;
            case OtherKind => return Panic;
          }
      }
      i := i + 1;
    }
    assert es[..i] == es;
    r := Ok(Counts(directories, files, symlinks));
  }

  /** The census does not depend on the order in which the directory is
      enumerated: two listings holding the same entries give the same result. */
  lemma TallyOrderIrrelevant(es: seq<Entry>, es': seq<Entry>)
    requires multiset(es) == multiset(es')
    ensures Tally(es) == Tally(es')
  {
    forall e | e in es ensures e in es' {
      assert e in multiset(es);
    }
    forall e | e in es' ensures e in es {
      assert e in multiset(es');
    }
  }
}
