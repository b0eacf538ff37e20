/**
 Best-effort canonicalization of the input path: a resolved path is kept, a
 path that (or whose final target) does not exist becomes `None`, and every
 other failure, including a resolved path that is not UTF-8, panics.
 */
module Canonical {
  import opened FsModel

  function Canonicalize(c: CanonResult): (r: Fallible<Option<string>>)
    ensures r == Ok(None) <==> c == CanonNotFound
    ensures r.Ok? && r.value.Some? <==> c.Resolved?
    ensures c.Resolved? ==> r.value.value == c.path
    ensures r == Panic <==> c == ResolvedNotUtf8 || c == CanonFailed
  {
    match c {
      case Resolved(p) => Ok(Some(p))
      case ResolvedNotUtf8 => Panic
      case CanonNotFound => Ok(None)
      case CanonFailed => Panic
    }
  }
}
