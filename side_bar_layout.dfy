/**
 * The geometry a side bar reads while a button is dragged over it, and the
 * item scans that its drop-slot search and its drag-over gap bookkeeping
 * share. Every layout query becomes an input: for each item container,
 * whether it is realized and visible, the pointer's Y relative to it and
 * its height; for each list, the pointer's Y relative to the list and the
 * list's height. Margins are abstracted to a gap flag.
 */
module SideBarLayout {

  /** One item container of an ItemsControl (an unrealized container counts as invisible). */
  datatype ItemGeometry = ItemGeometry(visible: bool, y: real, height: real)

  /** One ItemsControl: its containers in index order, the pointer's Y relative to it, its height. */
  datatype SectionGeometry = SectionGeometry(items: seq<ItemGeometry>, y: real, height: real)

  /** The margin a drag-over gives an item: none, a gap above it, or a gap below it. */
  datatype Gap = NoGap | TopGap | BottomGap

  /** Item margin sizes: a button is 32 high, buttons are 8 apart. */
  const Size: real := 32.0
  const Spacing: real := 8.0

  /** The top margin a gap flag stands for (a gap above an item is Size + Spacing). */
  function MarginTop(g: Gap): (r: real)
    ensures r >= 0.0
    ensures r > 0.0 <==> g == TopGap
  {
    if g == TopGap then Size + Spacing else 0.0
  }

  /** The gap of container i; a container beyond the recorded ones has the default margin. */
  function GapAt(gaps: seq<Gap>, i: nat): Gap {
    if i < |gaps| then gaps[i] else NoGap
  }

  /**
   * The space between the upper and the lower part of the side bar: the
   * grid height minus both stacks, or 16 when that is negative.
   */
  function SpaceBetween(gridHeight: real, upperHeight: real, lowerHeight: real): (r: real)
    ensures r >= 0.0
    ensures gridHeight - (upperHeight + lowerHeight) >= 0.0 ==> r == gridHeight - (upperHeight + lowerHeight)
  {
    var s := gridHeight - (upperHeight + lowerHeight);
    if s < 0.0 then 16.0 else s
  }

  /** The three item tests the scans use. */
  datatype Probe =
    | AboveWithMargin   // pointer Y plus the item's top margin is above the item's middle
    | Above             // pointer Y is above the item's middle
    | Below             // pointer Y is below the item's middle

  /** Whether a scan stops at an item; invisible items never stop a scan. */
  predicate Hits(probe: Probe, g: ItemGeometry, gap: Gap) {
    g.visible &&
    match probe
    case AboveWithMargin => g.y + MarginTop(gap) < g.height / 2.0
    case Above => g.y < g.height / 2.0
    case Below => g.y > g.height / 2.0
  }

  /** Index of the first container at or after k that the probe hits, or |items| when none does. */
  function FirstHit(probe: Probe, items: seq<ItemGeometry>, gaps: seq<Gap>, k: nat): (r: nat)
    requires k <= |items|
    ensures k <= r <= |items|
    ensures r < |items| ==> Hits(probe, items[r], GapAt(gaps, r))
    ensures forall j :: k <= j < r ==> !Hits(probe, items[j], GapAt(gaps, j))
    decreases |items| - k
  {
    if k == |items| then k
    else if Hits(probe, items[k], GapAt(gaps, k)) then k
    else FirstHit(probe, items, gaps, k + 1)
  }

  /** Index of the last container before k that the probe hits, or -1 when none does. */
  function LastHit(probe: Probe, items: seq<ItemGeometry>, gaps: seq<Gap>, k: nat): (r: int)
    requires k <= |items|
    ensures -1 <= r < k
    ensures r >= 0 ==> Hits(probe, items[r], GapAt(gaps, r))
    ensures forall j :: r < j < k ==> !Hits(probe, items[j], GapAt(gaps, j))
  {
    if k == 0 then -1
    else if Hits(probe, items[k - 1], GapAt(gaps, k - 1)) then k - 1
    else LastHit(probe, items, gaps, k - 1)
  }

  /** The early-return loop over a section's containers, first to last. */
  method FindFirstHit(probe: Probe, items: seq<ItemGeometry>, gaps: seq<Gap>) returns (i: nat)
    ensures i == FirstHit(probe, items, gaps, 0)
  {
    i := 0;
    while i < |items|
      invariant i <= |items|
      invariant FirstHit(probe, items, gaps, 0) == FirstHit(probe, items, gaps, i)
    {
      if Hits(probe, items[i], GapAt(gaps, i)) {
        return;
      }
      i := i + 1;
    }
  }

  /** The early-return loop over a section's containers, last to first; -1 when nothing is hit. */
  method FindLastHit(probe: Probe, items: seq<ItemGeometry>, gaps: seq<Gap>) returns (i: int)
    ensures i == LastHit(probe, items, gaps, |items|)
  {
    i := |items| - 1;
    while i >= 0
      invariant -1 <= i < |items|
      invariant LastHit(probe, items, gaps, |items|) == LastHit(probe, items, gaps, i + 1)
    {
      if Hits(probe, items[i], GapAt(gaps, i)) {
        return;
      }
      i := i - 1;
    }
  }

  /** The one item a downward scan marks: the first hit, unless an earlier section already took the gap. */
  function DownwardMark(probe: Probe, items: seq<ItemGeometry>, gaps: seq<Gap>, handled: bool): (r: int)
    ensures handled ==> r == -1
    ensures r >= 0 ==> r < |items| && Hits(probe, items[r], GapAt(gaps, r))
  {
    var k := FirstHit(probe, items, gaps, 0);
    if handled || k == |items| then -1 else k
  }

  /** The one item an upward scan marks: the last hit, unless the gap is already taken. */
  function UpwardMark(probe: Probe, items: seq<ItemGeometry>, gaps: seq<Gap>, handled: bool): (r: int)
    ensures handled ==> r == -1
    ensures r >= 0 ==> r < |items| && Hits(probe, items[r], GapAt(gaps, r))
  {
    if handled then -1 else LastHit(probe, items, gaps, |items|)
  }

  /**
   * The margins a scan leaves: an invisible container keeps its margin, the
   * marked container gets the gap, every other visible container is reset.
   */
  function ScannedGaps(items: seq<ItemGeometry>, gaps: seq<Gap>, mark: int, gap: Gap): (r: seq<Gap>)
    ensures |r| == |items|
    ensures forall i :: 0 <= i < |items| && !items[i].visible ==> r[i] == GapAt(gaps, i)
    ensures forall i :: 0 <= i < |items| && items[i].visible ==> r[i] == if i == mark then gap else NoGap
  {
    seq(|items|, i requires 0 <= i < |items| =>
      if !items[i].visible then GapAt(gaps, i) else if i == mark then gap else NoGap)
  }

  /**
   * The drag-over loop of an upper section: walks the containers first to
   * last, gives the top gap to the first hit while nothing is handled yet,
   * and resets every other visible container.
   */
  method ScanDown(items: seq<ItemGeometry>, gaps: seq<Gap>, handled: bool) returns (result: seq<Gap>, nowHandled: bool)
    ensures result == ScannedGaps(items, gaps, DownwardMark(AboveWithMargin, items, gaps, handled), TopGap)
    ensures nowHandled == (handled || FirstHit(AboveWithMargin, items, gaps, 0) < |items|)
  {
    var mark := DownwardMark(AboveWithMargin, items, gaps, handled);
    result := seq(|items|, i requires 0 <= i < |items| => GapAt(gaps, i));
    nowHandled := handled;
    var i := 0;
    while i < |items|
      invariant i <= |items| && |result| == |items|
      invariant nowHandled == (handled || FirstHit(AboveWithMargin, items, gaps, 0) < i)
      invariant forall j :: 0 <= j < i ==> result[j] == ScannedGaps(items, gaps, mark, TopGap)[j]
      invariant forall j :: i <= j < |items| ==> result[j] == GapAt(gaps, j)
    {
      if items[i].visible {
        if Hits(AboveWithMargin, items[i], GapAt(gaps, i)) && !nowHandled {
          result := result[i := TopGap];
          nowHandled := true;
        } else {
          result := result[i := NoGap];
        }
      }
      i := i + 1;
    }
  }

  /**
   * The drag-over loop of a lower section: walks the containers last to
   * first, gives the bottom gap to the first item (from the end) that the
   * pointer is below the middle of, and resets every other visible container.
   */
  method ScanUp(items: seq<ItemGeometry>, gaps: seq<Gap>, handled: bool) returns (result: seq<Gap>, nowHandled: bool)
    ensures result == ScannedGaps(items, gaps, UpwardMark(Below, items, gaps, handled), BottomGap)
    ensures nowHandled == (handled || LastHit(Below, items, gaps, |items|) >= 0)
  {
    var mark := UpwardMark(Below, items, gaps, handled);
    result := seq(|items|, i requires 0 <= i < |items| => GapAt(gaps, i));
    nowHandled := handled;
    var i := |items|;
    while i > 0
      invariant 0 <= i <= |items| && |result| == |items|
      invariant nowHandled == (handled || LastHit(Below, items, gaps, |items|) >= i)
      invariant forall j :: i <= j < |items| ==> result[j] == ScannedGaps(items, gaps, mark, BottomGap)[j]
      invariant forall j :: 0 <= j < i ==> result[j] == GapAt(gaps, j)
    {
      i := i - 1;
      if items[i].visible {
        if Hits(Below, items[i], GapAt(gaps, i)) && !nowHandled {
          result := result[i := BottomGap];
          nowHandled := true;
        } else {
          result := result[i := NoGap];
        }
      }
    }
  }

  /** A scan gives its gap to at most one visible container and resets all the others. */
  lemma ScanMarksAtMostOne(items: seq<ItemGeometry>, gaps: seq<Gap>, mark: int, gap: Gap, i: nat, j: nat)
    requires gap != NoGap
    requires i < |items| && j < |items| && items[i].visible && items[j].visible
    requires ScannedGaps(items, gaps, mark, gap)[i] != NoGap && ScannedGaps(items, gaps, mark, gap)[j] != NoGap
    ensures i == j == mark
  {
  }

  /** No gap stays behind once a scan has run with the gap already handled. */
  lemma HandledScanResetsAll(items: seq<ItemGeometry>, gaps: seq<Gap>, i: nat)
    requires i < |items| && items[i].visible
    ensures ScannedGaps(items, gaps, DownwardMark(AboveWithMargin, items, gaps, true), TopGap)[i] == NoGap
    ensures ScannedGaps(items, gaps, UpwardMark(Below, items, gaps, true), BottomGap)[i] == NoGap
  {
  }
}
