/**
 * OverflowLayoutView: the items of ItemsSource are split between a visible
 * list and an overflow ("ellipsis") list shown behind a button. Layout
 * moves a suffix of the visible list to the front of the overflow list
 * when the content is too long, and moves a prefix of the overflow list
 * back when there is room. Sizes are measured along the orientation and
 * abstracted to natural numbers; a size cache remembers each item's size.
 */
module OverflowLayout {
  import opened Common

  /** One size-cache entry: an item and its measured size along the orientation. */
  type Entry<T> = (T, nat)

  /** GetItemSize: the size of the first cache entry for x, or 0 when x has none. */
  function SizeOf<T(==)>(cache: seq<Entry<T>>, x: T): nat {
    if |cache| == 0 then 0
    else if cache[0].0 == x then cache[0].1
    else SizeOf(cache[1..], x)
  }

  /** The size GetItemSize reports is the one of x's first cache entry, and 0 when x has none. */
  lemma {:induction false} SizeOfIsFirstEntry<T>(cache: seq<Entry<T>>, x: T)
    ensures KeyIndex(cache, x) < 0 ==> SizeOf(cache, x) == 0
    ensures KeyIndex(cache, x) >= 0 ==> SizeOf(cache, x) == cache[KeyIndex(cache, x)].1
  {
    if |cache| > 0 && cache[0].0 != x {
      SizeOfIsFirstEntry(cache[1..], x);
    }
  }

  /** What one item costs along the orientation: its size plus the spacing after it. */
  function Cost<T(==)>(cache: seq<Entry<T>>, spacing: nat, x: T): nat {
    SizeOf(cache, x) + spacing
  }

  /** The summed cost of items[j..]. */
  function SuffixCost<T(==)>(items: seq<T>, cache: seq<Entry<T>>, spacing: nat, j: nat): nat
    requires j <= |items|
    decreases |items| - j
  {
    if j == |items| then 0 else Cost(cache, spacing, items[j]) + SuffixCost(items, cache, spacing, j + 1)
  }

  /** The summed cost of items[..k]. */
  function PrefixCost<T(==)>(items: seq<T>, cache: seq<Entry<T>>, spacing: nat, k: nat): nat
    requires k <= |items|
  {
    if k == 0 then 0 else PrefixCost(items, cache, spacing, k - 1) + Cost(cache, spacing, items[k - 1])
  }

  /** The cache holds at most one entry per item. */
  predicate UniqueKeys<T(==)>(cache: seq<Entry<T>>) {
    forall i, j :: 0 <= i < j < |cache| ==> cache[i].0 != cache[j].0
  }

  /** FindIndex over the cache: the position of x's entry, or -1. */
  function KeyIndex<T(==)>(cache: seq<Entry<T>>, x: T): (r: int)
    ensures -1 <= r < |cache|
    ensures r >= 0 ==> cache[r].0 == x && forall j :: 0 <= j < r ==> cache[j].0 != x
    ensures r < 0 ==> forall j :: 0 <= j < |cache| ==> cache[j].0 != x
  {
    if |cache| == 0 then -1
    else if cache[0].0 == x then 0
    else var k := KeyIndex(cache[1..], x); if k < 0 then -1 else k + 1
  }

  /**
   * One step of UpdateSizeCache for item x: with no container its entry is
   * removed (RemoveAt(-1) throws when there is none); with a container its
   * entry is replaced in place, or a new entry is appended.
   */
  function CacheStep<T(==)>(cache: seq<Entry<T>>, x: T, container: Option<nat>): (r: Option<seq<Entry<T>>>)
    ensures r.None? <==> container.None? && KeyIndex(cache, x) < 0
    ensures r.Some? && container.Some? ==> exists j :: 0 <= j < |r.value| && r.value[j] == (x, container.value)
  {
    var k := KeyIndex(cache, x);
    match container
    case None => if k < 0 then None else Some(cache[..k] + cache[k + 1..])
    case Some(size) =>
      if k >= 0 then
        assert cache[k := (x, size)][k] == (x, size);
        Some(cache[k := (x, size)])
      else
        assert (cache + [(x, size)])[|cache|] == (x, size);
        Some(cache + [(x, size)])
  }

  /** UpdateSizeCache: the steps for every visible item in index order; None when one throws. */
  function CacheUpdate<T(==)>(cache: seq<Entry<T>>, items: seq<T>, containers: seq<Option<nat>>): Option<seq<Entry<T>>>
    requires |containers| == |items|
    decreases |items|
  {
    if |items| == 0 then Some(cache)
    else match CacheStep(cache, items[0], containers[0])
      case None => None
      case Some(c) => CacheUpdate(c, items[1..], containers[1..])
  }

  /**
   * The cache UpdateSizeCache leaves behind: the steps run in index order
   * until one throws, and the entries already updated stay as they are.
   */
  function CacheReached<T(==)>(cache: seq<Entry<T>>, items: seq<T>, containers: seq<Option<nat>>): seq<Entry<T>>
    requires |containers| == |items|
    decreases |items|
  {
    if |items| == 0 then cache
    else match CacheStep(cache, items[0], containers[0])
      case None => cache
      case Some(c) => CacheReached(c, items[1..], containers[1..])
  }

  /**
   * When UpdateSizeCache throws, the cache it leaves is the complete update
   * over the items before the first unmeasured one, and the step for that
   * item is the one that throws.
   */
  lemma {:induction false} ThrowKeepsEarlierSteps<T>(cache: seq<Entry<T>>, items: seq<T>, containers: seq<Option<nat>>)
    requires |containers| == |items|
    requires CacheUpdate(cache, items, containers).None?
    ensures exists n ::
              0 <= n < |items| &&
              CacheUpdate(cache, items[..n], containers[..n]) == Some(CacheReached(cache, items, containers)) &&
              CacheStep(CacheReached(cache, items, containers), items[n], containers[n]).None?
    decreases |items|
  {
    match CacheStep(cache, items[0], containers[0])
    case None =>
      assert items[..0] == [] && containers[..0] == [];
      assert CacheUpdate(cache, items[..0], containers[..0]) == Some(cache);
    case Some(c) =>
      ThrowKeepsEarlierSteps(c, items[1..], containers[1..]);
      var m :| 0 <= m < |items| - 1 &&
        CacheUpdate(c, items[1..][..m], containers[1..][..m]) == Some(CacheReached(c, items[1..], containers[1..])) &&
        CacheStep(CacheReached(c, items[1..], containers[1..]), items[1..][m], containers[1..][m]).None?;
      var n := m + 1;
      assert items[..n][1..] == items[1..][..m] && containers[..n][1..] == containers[1..][..m];
      assert CacheUpdate(cache, items[..n], containers[..n]) == CacheUpdate(c, items[1..][..m], containers[1..][..m]);
      assert items[n] == items[1..][m] && containers[n] == containers[1..][m];
  }

  /** One step keeps the cache at one entry per item. */
  lemma CacheStepKeepsKeysUnique<T>(cache: seq<Entry<T>>, x: T, container: Option<nat>)
    requires UniqueKeys(cache)
    requires CacheStep(cache, x, container).Some?
    ensures UniqueKeys(CacheStep(cache, x, container).value)
  {
    var k := KeyIndex(cache, x);
    if container.None? {
      var r := cache[..k] + cache[k + 1..];
      forall i, j | 0 <= i < j < |r| ensures r[i].0 != r[j].0 {
        var i' := if i < k then i else i + 1;
        var j' := if j < k then j else j + 1;
        assert r[i] == cache[i'] && r[j] == cache[j'];
      }
    }
  }

  /** UpdateSizeCache keeps the cache at one entry per item. */
  lemma {:induction false} CacheUpdateKeepsKeysUnique<T>(cache: seq<Entry<T>>, items: seq<T>, containers: seq<Option<nat>>)
    requires |containers| == |items|
    decreases |items|
    requires UniqueKeys(cache)
    requires CacheUpdate(cache, items, containers).Some?
    ensures UniqueKeys(CacheUpdate(cache, items, containers).value)
  {
    if |items| > 0 {
      CacheStepKeepsKeysUnique(cache, items[0], containers[0]);
      CacheUpdateKeepsKeysUnique(CacheStep(cache, items[0], containers[0]).value, items[1..], containers[1..]);
    }
  }

  /** When every visible item has a container, UpdateSizeCache does not throw. */
  lemma {:induction false} CacheUpdateWithAllContainers<T>(cache: seq<Entry<T>>, items: seq<T>, containers: seq<Option<nat>>)
    requires |containers| == |items|
    requires forall i :: 0 <= i < |containers| ==> containers[i].Some?
    ensures CacheUpdate(cache, items, containers).Some?
    decreases |items|
  {
    if |items| > 0 {
      CacheUpdateWithAllContainers(CacheStep(cache, items[0], containers[0]).value, items[1..], containers[1..]);
    }
  }

  /** An item that is not in the cache and has no container makes UpdateSizeCache throw. */
  lemma FirstUnmeasuredItemThrows<T>(cache: seq<Entry<T>>, items: seq<T>, containers: seq<Option<nat>>)
    requires |containers| == |items| && |items| > 0
    requires containers[0].None? && forall i :: 0 <= i < |cache| ==> cache[i].0 != items[0]
    ensures CacheUpdate(cache, items, containers).None?
  {
  }

  /** The cache after a Remove: every entry whose item is among the removed ones is dropped. */
  function Without<T(==)>(cache: seq<Entry<T>>, removed: seq<T>): (r: seq<Entry<T>>)
    ensures forall i :: 0 <= i < |r| ==> r[i] in cache && r[i].0 !in removed
    ensures forall i :: 0 <= i < |cache| && cache[i].0 !in removed ==> cache[i] in r
  {
    if |cache| == 0 then []
    else if cache[0].0 in removed then Without(cache[1..], removed)
    else [cache[0]] + Without(cache[1..], removed)
  }

  /**
   * The overflow loop: walking the visible items from the last, subtract
   * each item's cost from the overflow; at the first item that drives it
   * below zero, step one further (when the button's space still does not
   * fit) and stop. Returns the last index that stays visible.
   */
  function CutIndex<T(==)>(items: seq<T>, cache: seq<Entry<T>>, spacing: nat, buttonSpace: int, i: int, overflow: int): (r: int)
    requires -1 <= i < |items|
    ensures -1 <= r <= i
    decreases i + 1
  {
    if i < 0 then i
    else
      var o := overflow - SizeOf(cache, items[i]) - spacing;
      if o < 0 then (if o - buttonSpace < 0 then i - 1 else i)
      else CutIndex(items, cache, spacing, buttonSpace, i - 1, o)
  }

  /**
   * The spare-room loop: walking the overflow items from the first,
   * subtract each item's cost from the space and stop at the first that
   * drives it below zero. Returns how many items come back.
   */
  function RestoreCount<T(==)>(ellipsis: seq<T>, cache: seq<Entry<T>>, spacing: nat, i: nat, space: int): (r: nat)
    requires i <= |ellipsis|
    ensures i <= r <= |ellipsis|
    decreases |ellipsis| - i
  {
    if i == |ellipsis| then i
    else
      var s := space - SizeOf(cache, ellipsis[i]) - spacing;
      if s < 0 then i else RestoreCount(ellipsis, cache, spacing, i + 1, s)
  }

  /**
   * The suffix the overflow loop moves is the shortest one whose summed
   * cost strictly exceeds the overflow (so the extra step at the first
   * negative overflow always happens), or the whole list when none does.
   */
  lemma {:induction false} CutIsShortestExceedingSuffix<T>(
    items: seq<T>, cache: seq<Entry<T>>, spacing: nat, buttonSpace: nat, i: int, o: int, overflow: int)
    requires -1 <= i < |items|
    requires o == overflow - SuffixCost(items, cache, spacing, i + 1) && o >= 0
    requires forall j :: i + 1 <= j <= |items| ==> SuffixCost(items, cache, spacing, j) <= overflow
    ensures var s := CutIndex(items, cache, spacing, buttonSpace, i, o) + 1;
            (forall j :: s < j <= |items| ==> SuffixCost(items, cache, spacing, j) <= overflow) &&
            (s > 0 ==> SuffixCost(items, cache, spacing, s) > overflow)
    decreases i + 1
  {
    if i >= 0 {
      var o' := o - SizeOf(cache, items[i]) - spacing;
      assert SuffixCost(items, cache, spacing, i)
          == Cost(cache, spacing, items[i]) + SuffixCost(items, cache, spacing, i + 1);
      if o' >= 0 {
        assert CutIndex(items, cache, spacing, buttonSpace, i, o) == CutIndex(items, cache, spacing, buttonSpace, i - 1, o');
        assert forall j :: i <= j <= |items| ==> SuffixCost(items, cache, spacing, j) <= overflow;
        CutIsShortestExceedingSuffix(items, cache, spacing, buttonSpace, i - 1, o', overflow);
      } else {
        assert CutIndex(items, cache, spacing, buttonSpace, i, o) == i - 1;
        assert forall j :: i < j <= |items| ==> SuffixCost(items, cache, spacing, j) <= overflow;
      }
    } else {
      assert CutIndex(items, cache, spacing, buttonSpace, i, o) == -1;
      assert forall j :: 0 < j <= |items| ==> SuffixCost(items, cache, spacing, j) <= overflow;
    }
  }

  /** The overflow loop from the last item, as UpdateLayout runs it: the moved suffix starts at CutStart. */
  function CutStart<T(==)>(items: seq<T>, cache: seq<Entry<T>>, spacing: nat, buttonSize: nat, overflow: int): (r: nat)
    ensures r <= |items|
  {
    CutIndex(items, cache, spacing, buttonSize + spacing, |items| - 1, overflow) + 1
  }

  /**
   * With a non-negative overflow, the suffix moved out is the shortest one
   * whose cost exceeds the overflow, or everything when none does; at
   * least one item moves when there is any.
   */
  lemma CutStartIsShortestExceedingSuffix<T>(items: seq<T>, cache: seq<Entry<T>>, spacing: nat, buttonSize: nat, overflow: int)
    requires overflow >= 0
    ensures var s := CutStart(items, cache, spacing, buttonSize, overflow);
            (|items| > 0 ==> s < |items|) &&
            (forall j :: s < j <= |items| ==> SuffixCost(items, cache, spacing, j) <= overflow) &&
            (s > 0 ==> SuffixCost(items, cache, spacing, s) > overflow)
  {
    CutIsShortestExceedingSuffix(items, cache, spacing, buttonSize + spacing, |items| - 1, overflow, overflow);
  }

  /**
   * The items brought back are exactly the longest prefix of the overflow
   * list whose running cost stays within the free space.
   */
  lemma {:induction false} RestoreIsLongestFittingPrefix<T>(
    ellipsis: seq<T>, cache: seq<Entry<T>>, spacing: nat, i: nat, s: int, space: int)
    requires i <= |ellipsis|
    requires s == space - PrefixCost(ellipsis, cache, spacing, i) && s >= 0
    ensures PrefixCost(ellipsis, cache, spacing, RestoreCount(ellipsis, cache, spacing, i, s)) <= space
    ensures RestoreCount(ellipsis, cache, spacing, i, s) < |ellipsis| ==>
              PrefixCost(ellipsis, cache, spacing, RestoreCount(ellipsis, cache, spacing, i, s) + 1) > space
    decreases |ellipsis| - i
  {
    var r := RestoreCount(ellipsis, cache, spacing, i, s);
    if i < |ellipsis| {
      var s' := s - SizeOf(cache, ellipsis[i]) - spacing;
      assert PrefixCost(ellipsis, cache, spacing, i + 1)
          == PrefixCost(ellipsis, cache, spacing, i) + Cost(cache, spacing, ellipsis[i]);
      if s' >= 0 {
        assert r == RestoreCount(ellipsis, cache, spacing, i + 1, s');
        RestoreIsLongestFittingPrefix(ellipsis, cache, spacing, i + 1, s', space);
      } else {
        assert r == i;
        assert PrefixCost(ellipsis, cache, spacing, r + 1) > space;
      }
    } else {
      assert r == i;
    }
  }

  /** From the start of the overflow list, with room to spare. */
  lemma RestoreCountIsLongestFittingPrefix<T>(ellipsis: seq<T>, cache: seq<Entry<T>>, spacing: nat, space: int)
    requires space >= 0
    ensures var r := RestoreCount(ellipsis, cache, spacing, 0, space);
            PrefixCost(ellipsis, cache, spacing, r) <= space &&
            (r < |ellipsis| ==> PrefixCost(ellipsis, cache, spacing, r + 1) > space)
  {
    RestoreIsLongestFittingPrefix(ellipsis, cache, spacing, 0, space, space);
  }

  /** A collection-change notification of the source collection. */
  datatype Change<T> =
    | Added(newStartingIndex: int, newItems: seq<T>)
    | Removed(oldStartingIndex: int, oldItems: seq<T>)
    | OtherChange   // Replace, Move or Reset

  /**
   * Where an Add puts the new items: appended to the visible list
   * whatever the starting index. The source inserts them at that index.
   */
  function AddedAsWritten<T>(items: seq<T>, newItems: seq<T>): (r: seq<T>)
    ensures |r| == |items| + |newItems|
    ensures r[..|items|] == items && r[|items|..] == newItems
  {
    items + newItems
  }

  /** The append and the intended insert agree when the new items start at the end of the visible list. */
  lemma AddedAsWrittenAtEnd<T>(items: seq<T>, newItems: seq<T>)
    ensures AddedAsWritten(items, newItems) == AddedAtIndex(items, |items|, newItems)
  {
    var r := AddedAtIndex(items, |items|, newItems);
    assert r == r[..|items|] + r[|items|..|items| + |newItems|];
  }

  /**
   * As written, inserting an item in front of the last visible one leaves
   * the visible list in a different order from the source collection:
   * with [1, 2] visible and 3 inserted at 0, the source is [3, 1, 2] but
   * the visible list becomes [1, 2, 3].
   */
  lemma AddBeforeEndReorders()
    ensures AddedAsWritten([1, 2], [3]) == [1, 2, 3] != AddedAtIndex([1, 2], 0, [3]) == [3, 1, 2]
  {
    assert AddedAsWritten([1, 2], [3])[0] == 1;
    assert AddedAtIndex([1, 2], 0, [3])[0] == 3;
  }

  /** The evidently intended Add: the new items go in at their starting index. */
  function AddedAtIndex<T>(items: seq<T>, start: nat, newItems: seq<T>): (r: seq<T>)
    requires start <= |items|
    ensures |r| == |items| + |newItems|
    ensures r[..start] == items[..start] && r[start..start + |newItems|] == newItems
    ensures r[start + |newItems|..] == items[start..]
  {
    items[..start] + newItems + items[start..]
  }

  /**
   * With the intended Add, the partition keeps mirroring the source: when
   * visible ++ overflow was the source before, and the new items are
   * inserted into the source at a visible index, visible ++ overflow is
   * the source after.
   */
  lemma AddedAtIndexKeepsMirror<T>(items: seq<T>, ellipsis: seq<T>, start: nat, newItems: seq<T>)
    requires start <= |items|
    ensures AddedAtIndex(items, start, newItems) + ellipsis
         == (items + ellipsis)[..start] + newItems + (items + ellipsis)[start..]
  {
    assert (items + ellipsis)[..start] == items[..start];
    assert (items + ellipsis)[start..] == items[start..] + ellipsis;
  }

  /**
   * A Remove past the visible items that cuts the removed range out of the
   * overflow list keeps visible ++ overflow equal to the source after.
   */
  lemma RemovedFromOverflowKeepsMirror<T>(items: seq<T>, ellipsis: seq<T>, k: nat, count: nat)
    requires k + count <= |ellipsis|
    ensures items + (ellipsis[..k] + ellipsis[k + count..])
         == (items + ellipsis)[..|items| + k] + (items + ellipsis)[|items| + k + count..]
  {
    var src := items + ellipsis;
    assert src[..|items| + k] == items + ellipsis[..k];
    assert src[|items| + k + count..] == ellipsis[k + count..];
  }

  /** The overflow loop of UpdateLayout, from the last visible item down. */
  method FindCut<T(==)>(items: seq<T>, cache: seq<Entry<T>>, spacing: nat, buttonSize: nat, overflow0: int)
    returns (i: int)
    ensures i + 1 == CutStart(items, cache, spacing, buttonSize, overflow0)
  {
    var overflow := overflow0;
    i := |items| - 1;
    while i >= 0
      invariant -1 <= i < |items|
      invariant CutIndex(items, cache, spacing, buttonSize + spacing, |items| - 1, overflow0)
             == CutIndex(items, cache, spacing, buttonSize + spacing, i, overflow)
    {
      var item := items[i];
      overflow := overflow - SizeOf(cache, item);
      overflow := overflow - spacing;
      if overflow < 0 {
        if overflow - (buttonSize + spacing) < 0 {
          i := i - 1;
        }
        break;
      }
      i := i - 1;
    }
  }

  /** The spare-room loop of UpdateLayout, from the first overflow item on. */
  method FindRestore<T(==)>(ellipsis: seq<T>, cache: seq<Entry<T>>, spacing: nat, space0: int) returns (i: nat)
    ensures i == RestoreCount(ellipsis, cache, spacing, 0, space0)
  {
    var space := space0;
    i := 0;
    while i < |ellipsis|
      invariant i <= |ellipsis|
      invariant RestoreCount(ellipsis, cache, spacing, 0, space0) == RestoreCount(ellipsis, cache, spacing, i, space)
    {
      var length := SizeOf(cache, ellipsis[i]);
      space := space - length;
      space := space - spacing;
      if space < 0 {
        break;
      }
      i := i + 1;
    }
  }

  /**
   * What UpdateLayout does to the partition once the cache is refreshed:
   * when the measured length reaches the room left beside the button, the
   * cut suffix moves to the front of the overflow list, otherwise the
   * restored prefix of the overflow list comes back; the button follows
   * the overflow list whenever items move.
   */
  ghost predicate LaidOut<T>(items0: seq<T>, ellipsis0: seq<T>, visible0: bool, cache: seq<Entry<T>>,
                                 spacing: nat, buttonSize: nat, room: int, measured: nat,
                                 items: seq<T>, ellipsis: seq<T>, visible: bool)
  {
    if measured >= room then
      var s := CutStart(items0, cache, spacing, buttonSize, measured - room);
      items == items0[..s] && ellipsis == items0[s..] + ellipsis0 &&
      visible == (if s < |items0| then |ellipsis| > 0 else visible0)
    else
      var r := RestoreCount(ellipsis0, cache, spacing, 0, room - measured);
      items == items0 + ellipsis0[..r] && ellipsis == ellipsis0[r..] &&
      visible == (if r > 0 then |ellipsis| > 0 else visible0)
  }

  class OverflowLayoutView<T(==)> {
    /** ItemsSource as it is now; None when it is null. */
    var source: Option<seq<T>>
    /** The handler is subscribed to the source's CollectionChanged. */
    var subscribed: bool
    /** OnApplyTemplate has found the items control and the button presenter. */
    var templateApplied: bool
    /** The visible items (_items) and the overflow items (_ellipsisItems). */
    var items: seq<T>
    var ellipsis: seq<T>
    var sizeCache: seq<Entry<T>>
    /** The button's measured size along the orientation; 0 until it has been measured. */
    var buttonSize: nat
    var buttonVisible: bool
    const spacing: nat

    constructor (spacing: nat)
      ensures this.spacing == spacing && source.None? && !subscribed && !templateApplied
      ensures items == [] && ellipsis == [] && sizeCache == [] && buttonSize == 0 && buttonVisible
    {
      this.spacing := spacing;
      source := None;
      subscribed := false;
      templateApplied := false;
      items := [];
      ellipsis := [];
      sizeCache := [];
      buttonSize := 0;
      buttonVisible := true;
    }

    /** The partition mirrors the source: the visible items followed by the overflow items are ItemsSource. */
    predicate Mirrors()
      reads this`items, this`ellipsis, this`source
    {
      items + ellipsis == source.GetOr([])
    }

    method ApplyTemplate()
      modifies this`templateApplied
      ensures templateApplied
    {
      templateApplied := true;
    }

    /** ResetItems: every item of ItemsSource is visible, none overflows, and the button hides. */
    method ResetItems()
      modifies this`items, this`ellipsis, this`buttonVisible
      ensures items == source.GetOr([]) && ellipsis == []
      ensures Mirrors()
      ensures buttonVisible == (if templateApplied then false else old(buttonVisible))
    {
      items := [];
      ellipsis := [];
      if source.Some? {
        items := items + source.value;
      }
      if templateApplied {
        buttonVisible := false;
      }
    }

    /**
     * UpdateItemsSource: subscribe to the new source when it notifies
     * changes, clear the size cache and reset the partition.
     */
    method UpdateItemsSource(newSource: Option<seq<T>>, notifies: bool)
      modifies this`source, this`subscribed, this`sizeCache, this`items, this`ellipsis, this`buttonVisible
      ensures source == newSource && subscribed == (newSource.Some? && notifies)
      ensures sizeCache == [] && items == newSource.GetOr([]) && ellipsis == []
      ensures Mirrors()
      ensures buttonVisible == (if templateApplied then false else old(buttonVisible))
    {
      source := newSource;
      subscribed := newSource.Some? && notifies;
      sizeCache := [];
      ResetItems();
    }

    /**
     * UpdateSizeCache: the loop over the visible items; false when
     * RemoveAt(-1) throws, leaving the entries of the earlier items updated.
     */
    method UpdateSizeCache(containers: seq<Option<nat>>) returns (ok: bool)
      requires |containers| == |items|
      modifies this`sizeCache
      ensures ok == CacheUpdate(old(sizeCache), items, containers).Some?
      ensures ok ==> sizeCache == CacheUpdate(old(sizeCache), items, containers).value
      ensures !ok ==> sizeCache == CacheReached(old(sizeCache), items, containers)
      ensures old(UniqueKeys(sizeCache)) ==> UniqueKeys(sizeCache)
    {
      ghost var cache0 := sizeCache;
      var i := 0;
      while i < |items|
        invariant i <= |items|
        invariant CacheUpdate(cache0, items, containers) == CacheUpdate(sizeCache, items[i..], containers[i..])
        invariant CacheReached(cache0, items, containers) == CacheReached(sizeCache, items[i..], containers[i..])
        invariant UniqueKeys(cache0) ==> UniqueKeys(sizeCache)
      {
        assert items[i..][1..] == items[i + 1..] && containers[i..][1..] == containers[i + 1..];
        var obj := items[i];
        var index := KeyIndex(sizeCache, obj);
        if containers[i].None? {
          if index < 0 {
            return false;
          }
          if UniqueKeys(sizeCache) {
            CacheStepKeepsKeysUnique(sizeCache, obj, containers[i]);
          }
          sizeCache := sizeCache[..index] + sizeCache[index + 1..];
          i := i + 1;
          continue;
        }
        if UniqueKeys(sizeCache) {
          CacheStepKeepsKeysUnique(sizeCache, obj, containers[i]);
        }
        var size := containers[i].value;
        if index >= 0 {
          sizeCache := sizeCache[index := (obj, size)];
        } else {
          sizeCache := sizeCache + [(obj, size)];
        }
        i := i + 1;
      }
      assert items[i..] == [] && containers[i..] == [];
      return true;
    }

    /**
     * UpdateLayout: measure the cache, then either move the shortest
     * exceeding suffix of the visible items to the front of the overflow
     * list, or move the longest fitting prefix of the overflow list back.
     * The button follows the overflow list whenever items move. When the
     * cache update throws, nothing else happens.
     */
    method UpdateLayout(available: int, measured: nat, containers: seq<Option<nat>>) returns (ok: bool)
      requires templateApplied
      requires |containers| == |items|
      modifies this`sizeCache, this`items, this`ellipsis, this`buttonVisible
      ensures items + ellipsis == old(items + ellipsis)
      ensures ok == CacheUpdate(old(sizeCache), old(items), containers).Some?
      ensures !ok ==> unchanged(this`items, this`ellipsis, this`buttonVisible)
      ensures ok ==>
        sizeCache == CacheUpdate(old(sizeCache), old(items), containers).value &&
        LaidOut(old(items), old(ellipsis), old(buttonVisible), sizeCache, spacing, buttonSize,
                available - (buttonSize + spacing), measured, items, ellipsis, buttonVisible)
    {
      var room := available - (buttonSize + spacing);
      ok := UpdateSizeCache(containers);
      if !ok {
        return;
      }
      if measured >= room {
        var i := FindCut(items, sizeCache, spacing, buttonSize, measured - room);
        MoveSuffixToOverflow(i + 1);
      } else {
        var i := FindRestore(ellipsis, sizeCache, spacing, room - measured);
        MovePrefixBack(i);
      }
    }

    /** The overflow branch of UpdateLayout: items[s..] go to the front of the overflow list. */
    method MoveSuffixToOverflow(s: nat)
      requires s <= |items|
      modifies this`items, this`ellipsis, this`buttonVisible
      ensures items == old(items)[..s] && ellipsis == old(items)[s..] + old(ellipsis)
      ensures buttonVisible == (if s < |old(items)| then |ellipsis| > 0 else old(buttonVisible))
      ensures items + ellipsis == old(items + ellipsis)
    {
      if s < |items| {
        var moved := items[s..];
        assert items == items[..s] + moved;
        items := items[..s];
        ellipsis := moved + ellipsis;
        buttonVisible := |ellipsis| > 0;
      } else {
        assert items[..s] == items && items[s..] + ellipsis == ellipsis;
      }
    }

    /** The spare-room branch of UpdateLayout: ellipsis[..r] come back to the end of the visible list. */
    method MovePrefixBack(r: nat)
      requires r <= |ellipsis|
      modifies this`items, this`ellipsis, this`buttonVisible
      ensures items == old(items) + old(ellipsis)[..r] && ellipsis == old(ellipsis)[r..]
      ensures buttonVisible == (if r > 0 then |ellipsis| > 0 else old(buttonVisible))
      ensures items + ellipsis == old(items + ellipsis)
    {
      if r > 0 {
        var back := ellipsis[..r];
        assert ellipsis == back + ellipsis[r..];
        ellipsis := ellipsis[r..];
        items := items + back;
        buttonVisible := |ellipsis| > 0;
      } else {
        assert items + ellipsis[..r] == items && ellipsis[r..] == ellipsis;
      }
    }

    /**
     * MeasureOverride: measure the button once (it shows while it is being
     * measured, then follows the overflow list); an infinite available
     * length resets the partition, any other lays it out.
     */
    method MeasureOverride(infiniteWidth: bool, available: int, buttonMeasured: nat, measured: nat,
                           containers: seq<Option<nat>>) returns (ok: bool)
      requires templateApplied
      requires !infiniteWidth ==> |containers| == |items|
      modifies this`buttonSize, this`buttonVisible, this`sizeCache, this`items, this`ellipsis
      ensures buttonSize == if old(buttonSize) == 0 then buttonMeasured else old(buttonSize)
      ensures infiniteWidth ==>
        ok && items == source.GetOr([]) && ellipsis == [] && !buttonVisible && sizeCache == old(sizeCache)
      ensures !infiniteWidth ==>
        items + ellipsis == old(items + ellipsis) && ok == CacheUpdate(old(sizeCache), old(items), containers).Some?
      ensures !infiniteWidth ==>
        var visible0 := if old(buttonSize) == 0 then |old(ellipsis)| > 0 else old(buttonVisible);
        (ok ==> sizeCache == CacheUpdate(old(sizeCache), old(items), containers).value &&
                LaidOut(old(items), old(ellipsis), visible0, sizeCache, spacing, buttonSize,
                        available - (buttonSize + spacing), measured, items, ellipsis, buttonVisible)) &&
        (!ok ==> items == old(items) && ellipsis == old(ellipsis) && buttonVisible == visible0)
    {
      if buttonSize == 0 {
        buttonVisible := true;
        buttonSize := buttonMeasured;
        buttonVisible := |ellipsis| > 0;
      }
      if infiniteWidth {
        ResetItems();
        ok := true;
      } else {
        ok := UpdateLayout(available, measured, containers);
      }
    }

    /**
     * OnItemsSourceCollectionChanged, after the source collection has
     * become `after`: an Add at or before the end of the visible list,
     * or of unknown index (-1), appends the new items to it whatever their
     * starting index (AddedAsWritten), so the partition keeps mirroring the
     * source only for an Add at the end; a Remove drops the removed items' cache
     * entries and, at or past the end of the visible list, removes them
     * from the overflow list (false when that range is out of bounds);
     * everything else resets the partition.
     */
    method OnItemsSourceCollectionChanged(change: Change<T>, after: seq<T>) returns (ok: bool)
      requires source.Some?
      modifies this`source, this`items, this`ellipsis, this`sizeCache, this`buttonVisible
      ensures source == Some(after)
      ensures change.Added? && change.newStartingIndex <= |old(items)| ==>
                ok && ellipsis == old(ellipsis) && sizeCache == old(sizeCache) && buttonVisible == old(buttonVisible)
      ensures change.Added? && change.newStartingIndex <= |old(items)| ==>
                items == AddedAsWritten(old(items), change.newItems)
      ensures change.Added? && change.newStartingIndex == |old(items)| && old(Mirrors()) &&
              after == old(source.value)[..change.newStartingIndex] + change.newItems + old(source.value)[change.newStartingIndex..]
              ==> Mirrors()
      ensures change.Removed? ==> sizeCache == Without(old(sizeCache), change.oldItems)
      ensures change.Removed? && change.oldStartingIndex >= |old(items)| ==>
                var k := change.oldStartingIndex - |old(items)|;
                items == old(items) && buttonVisible == old(buttonVisible) &&
                (ok <==> k + |change.oldItems| <= |old(ellipsis)|) &&
                ellipsis == (if ok then old(ellipsis)[..k] + old(ellipsis)[k + |change.oldItems|..] else old(ellipsis))
      ensures change.Removed? && change.oldStartingIndex >= |old(items)| && ok && old(Mirrors()) &&
              after == old(source.value)[..change.oldStartingIndex] + old(source.value)[change.oldStartingIndex + |change.oldItems|..]
              ==> Mirrors()
      ensures (change.Added? && change.newStartingIndex > |old(items)|) ||
              (change.Removed? && change.oldStartingIndex < |old(items)|) || change.OtherChange? ==>
                ok && items == after && ellipsis == [] && Mirrors() &&
                buttonVisible == (if templateApplied then false else old(buttonVisible))
      ensures !change.Removed? ==> sizeCache == old(sizeCache)
    {
      source := Some(after);
      ok := true;
      if change.Added? {
        if change.newStartingIndex <= |items| {
          if change.newStartingIndex == |items| {
            AddedAtIndexKeepsMirror(items, ellipsis, |items|, change.newItems);
            AddedAsWrittenAtEnd(items, change.newItems);
          }
          items := AddedAsWritten(items, change.newItems);
          return;
        }
      } else if change.Removed? {
        sizeCache := Without(sizeCache, change.oldItems);
        if change.oldStartingIndex >= |items| {
          var k := change.oldStartingIndex - |items|;
          var count := |change.oldItems|;
          if k + count > |ellipsis| {
            return false;
          }
          RemovedFromOverflowKeepsMirror(items, ellipsis, k, count);
          ellipsis := ellipsis[..k] + ellipsis[k + count..];
          return;
        }
      }
      ResetItems();
    }
  }
}
