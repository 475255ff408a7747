/**
 * Choosing the path to upload once the downloader has finished.
 *
 * Precedence: the explicit `-s`/`--storage` path; otherwise the single new
 * top-level entry; otherwise (no new entry, or several) the working
 * directory itself.
 */
module Resolution {
  import opened Wrappers
  import opened StorageFlag
  import opened Snapshot

  /**
   * The path operations the program gets from `pathlib`, left uninterpreted:
   * `Path.cwd()`, `Path(t).expanduser().resolve()` and `Path.cwd() / name`
   * (the paths `iterdir` yields).
   */
  datatype PathOps = PathOps(cwd: string, normalize: string -> string, entryPath: string -> string)

  /** `to_upload` in `main`, from the forwarded arguments, the pre-snapshot and the listing after the download. */
  function ResolveTarget(args: seq<string>, start: set<string>, after: seq<string>, ops: PathOps): (p: string)
    ensures ExplicitStoragePath(args, ops.normalize).Some? ==>
              p == ExplicitStoragePath(args, ops.normalize).value
    ensures ExplicitStoragePath(args, ops.normalize).None? && |NewEntries(start, after)| == 1 ==>
              forall n :: n in NewEntries(start, after) ==> p == ops.entryPath(n)
    ensures ExplicitStoragePath(args, ops.normalize).None? && |NewEntries(start, after)| != 1 ==>
              p == ops.cwd
  {
    var explicit := ExplicitStoragePath(args, ops.normalize);
    var newItems := DetectNewItems(start, after);
    DetectNewItemsIsDifference(start, after);
    if explicit.Some? then explicit.value
    else if |newItems| == 1 then
      assert NewEntries(start, after) == {newItems[0]};
      ops.entryPath(newItems[0])
    else ops.cwd
  }

  /** An explicit path wins whatever the directory difference is. */
  lemma ExplicitIgnoresDiff(args: seq<string>, start: set<string>, after: seq<string>,
                            start': set<string>, after': seq<string>, ops: PathOps)
    requires ExplicitStoragePath(args, ops.normalize).Some?
    ensures ResolveTarget(args, start, after, ops) == ResolveTarget(args, start', after', ops)
  {
  }

  /**
   * Without an explicit path, and when no new entry's path is the working
   * directory itself, the working directory is chosen exactly when the
   * number of new entries is not one.
   */
  lemma FallbackIff(args: seq<string>, start: set<string>, after: seq<string>, ops: PathOps)
    requires ExplicitStoragePath(args, ops.normalize).None?
    requires forall n :: n in NewEntries(start, after) ==> ops.entryPath(n) != ops.cwd
    ensures ResolveTarget(args, start, after, ops) == ops.cwd <==> |NewEntries(start, after)| != 1
  {
    if |NewEntries(start, after)| == 1 {
      var n :| n in NewEntries(start, after);
      assert ResolveTarget(args, start, after, ops) == ops.entryPath(n);
    }
  }
}
