/**
 * The explicit storage-path scan (`explicit_storage_path`).
 *
 * The forwarded downloader arguments are searched for `-s` and then for
 * `--storage`.  For each flag only its FIRST occurrence matters (Python's
 * `list.index`); if a token follows it, that token, passed through
 * `expanduser().resolve()`, is the explicit path.  The token is taken as
 * is, even when it looks like another flag.
 */
module StorageFlag {
  import opened Wrappers

  const ShortFlag: string := "-s"
  const LongFlag: string := "--storage"

  /** `args.index(flag)` when `flag in args`, None otherwise. */
  function FirstIndex(args: seq<string>, flag: string): (r: Option<nat>)
    ensures r.None? <==> flag !in args
    ensures r.Some? ==> r.value < |args| && args[r.value] == flag
    ensures r.Some? ==> forall k :: 0 <= k < r.value ==> args[k] != flag
    decreases |args|
  {
    if |args| == 0 then None
    else if args[0] == flag then Some(0)
    else
      match FirstIndex(args[1..], flag)
      case None => None
      case Some(i) => Some(i + 1)
  }

  /** Position `i` holds the first occurrence of `flag`. */
  ghost predicate FirstAt(args: seq<string>, flag: string, i: int) {
    0 <= i < |args| && args[i] == flag && flag !in args[..i]
  }

  /** `flag` is absent, or its first occurrence is the last token: it supplies no value. */
  ghost predicate NoValue(args: seq<string>, flag: string) {
    forall i :: FirstAt(args, flag, i) ==> i == |args| - 1
  }

  /**
   * The token right after the first occurrence of `flag`; None when the flag
   * is absent or its first occurrence is the last token.
   */
  function FlagValue(args: seq<string>, flag: string): (r: Option<string>)
    ensures r.None? <==> NoValue(args, flag)
    ensures forall i :: FirstAt(args, flag, i) ==>
              r == (if i + 1 < |args| then Some(args[i + 1]) else None)
  {
    match FirstIndex(args, flag)
    case None => None
    case Some(i) =>
      assert FirstAt(args, flag, i);
      FirstOccurrenceUnique(args, flag, i);
      if i + 1 < |args| then Some(args[i + 1]) else None
  }

  lemma FirstOccurrenceUnique(args: seq<string>, flag: string, i: nat)
    requires i < |args| && args[i] == flag && flag !in args[..i]
    ensures forall j :: 0 <= j < |args| && args[j] == flag && flag !in args[..j] ==> j == i
  {
  }

  /**
   * `explicit_storage_path(args)`, with `normalize` standing for
   * `Path(t).expanduser().resolve()`.  When the first `-s` is followed by a
   * token, that token wins, whatever it looks like and whatever `--storage`
   * holds; only when `-s` supplies nothing does the first `--storage` decide,
   * in the same way; the result is None exactly when neither flag supplies a
   * value.
   */
  function ExplicitStoragePath(args: seq<string>, normalize: string -> string): (r: Option<string>)
    ensures forall i :: FirstAt(args, ShortFlag, i) && i + 1 < |args| ==> r == Some(normalize(args[i + 1]))
    ensures NoValue(args, ShortFlag) ==>
              forall i :: FirstAt(args, LongFlag, i) ==>
                r == (if i + 1 < |args| then Some(normalize(args[i + 1])) else None)
    ensures NoValue(args, ShortFlag) && LongFlag !in args ==> r == None
    ensures r.None? <==> NoValue(args, ShortFlag) && NoValue(args, LongFlag)
  {
    match FlagValue(args, ShortFlag)
    case Some(v) => Some(normalize(v))
    case None =>
      match FlagValue(args, LongFlag)
      case Some(v) => Some(normalize(v))
      case None => None
  }
}
