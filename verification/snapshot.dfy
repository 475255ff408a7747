/**
 * Directory snapshots and the difference that finds what the download made.
 *
 * A listing is what `Path.cwd().iterdir()` yields: top-level entry names in
 * no particular order.  A snapshot keeps the names that are not hidden
 * (hidden = starts with a dot).  `DetectNewItems` returns the visible names
 * of the second listing that the first snapshot lacks, sorted by name.
 */
module Snapshot {
  import opened NameOrder

  /** `name.startswith('.')`: the name has the prefix ".". */
  function IsHidden(name: string): (r: bool)
    ensures r <==> "." <= name
  {
    |name| > 0 && name[0] == '.'
  }

  /** The snapshot taken before the download: the listing without hidden names. */
  function PreSnapshot(listing: seq<string>): (s: set<string>)
    ensures forall n :: n in s ==> !IsHidden(n) && n in listing
    ensures forall n :: n in listing && !IsHidden(n) ==> n in s
  {
    set n | n in listing && !IsHidden(n)
  }

  /** The names `current - start` is made of, in listing order (possibly repeated). */
  function Unseen(start: set<string>, listing: seq<string>): (r: seq<string>)
    ensures forall n :: n in r <==> n in listing && !IsHidden(n) && n !in start
    decreases |listing|
  {
    if |listing| == 0 then []
    else
      var rest := Unseen(start, listing[1..]);
      if IsHidden(listing[0]) || listing[0] in start then rest else [listing[0]] + rest
  }

  /** The set `current - start` of the program, as a set. */
  ghost function NewEntries(start: set<string>, listing: seq<string>): set<string> {
    PreSnapshot(listing) - start
  }

  /** `detect_new_items(start)` against the listing seen after the download. */
  function DetectNewItems(start: set<string>, listing: seq<string>): (r: seq<string>)
    ensures StrictlySorted(r)
    ensures forall n :: n in r <==> n in listing && !IsHidden(n) && n !in start
    ensures forall i :: 0 <= i < |r| ==> !IsHidden(r[i])
  {
    SortNames(Unseen(start, listing))
  }

  /** The result holds exactly the elements of the set difference, once each. */
  lemma DetectNewItemsIsDifference(start: set<string>, listing: seq<string>)
    ensures (set n | n in DetectNewItems(start, listing)) == NewEntries(start, listing)
    ensures |DetectNewItems(start, listing)| == |NewEntries(start, listing)|
  {
    var r := DetectNewItems(start, listing);
    assert (set n | n in r) == NewEntries(start, listing);
    StrictlySortedCard(r);
  }

  /** The result depends on the listing and the snapshot only through their visible names. */
  lemma DetectNewItemsIgnoresHidden(start: set<string>, listing: seq<string>,
                                    start': set<string>, listing': seq<string>)
    requires forall n :: !IsHidden(n) ==> (n in start <==> n in start')
    requires forall n :: !IsHidden(n) ==> (n in listing <==> n in listing')
    ensures DetectNewItems(start, listing) == DetectNewItems(start', listing')
  {
    StrictlySortedUnique(DetectNewItems(start, listing), DetectNewItems(start', listing'));
  }

  /** In particular, adding hidden names to either side changes nothing. */
  lemma HiddenEntriesChangeNothing(start: set<string>, listing: seq<string>,
                                   hiddenBefore: set<string>, hiddenAfter: seq<string>)
    requires forall n :: n in hiddenBefore ==> IsHidden(n)
    requires forall i :: 0 <= i < |hiddenAfter| ==> IsHidden(hiddenAfter[i])
    ensures DetectNewItems(start + hiddenBefore, listing + hiddenAfter) == DetectNewItems(start, listing)
  {
    DetectNewItemsIgnoresHidden(start + hiddenBefore, listing + hiddenAfter, start, listing);
  }

  /** The order of the listing does not matter either. */
  lemma DetectNewItemsOrderFree(start: set<string>, listing: seq<string>, listing': seq<string>)
    requires multiset(listing) == multiset(listing')
    ensures DetectNewItems(start, listing) == DetectNewItems(start, listing')
  {
    forall n
      ensures n in listing <==> n in listing'
    {
      assert n in listing <==> n in multiset(listing);
      assert n in listing' <==> n in multiset(listing');
    }
    DetectNewItemsIgnoresHidden(start, listing, start, listing');
  }
}
