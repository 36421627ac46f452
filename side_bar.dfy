/**
 * The side bar of the current library: four tool lists (upper-top,
 * upper-bottom, lower-top, lower-bottom) on one side of the window, the
 * drop-slot search, the divider rule, the drag-over gap bookkeeping and the
 * drop that moves an item from its source list into one of these lists.
 */
module SideBars {
  import opened Common
  import opened Locations
  import opened ToolLists
  import opened SideBarLayout
  import opened DropMoves

  /** Everything the side bar reads of the pointer and the layout during one drag event. */
  datatype Pointer = Pointer(
    upperTop: SectionGeometry, upperBottom: SectionGeometry,
    lowerTop: SectionGeometry, lowerBottom: SectionGeometry,
    gridHeight: real, upperStackHeight: real, lowerStackHeight: real)

  /** The margins of the item containers of each list and the two list margins a drag-over sets. */
  datatype Margins = Margins(
    upperTop: seq<Gap>, upperBottom: seq<Gap>, lowerTop: seq<Gap>, lowerBottom: seq<Gap>,
    upperTopListGap: bool, lowerBottomListGap: bool)

  function SectionOf(p: Pointer, loc: SideBarButtonLocation): SectionGeometry {
    match loc
    case UpperTop => p.upperTop
    case UpperBottom => p.upperBottom
    case LowerTop => p.lowerTop
    case LowerBottom => p.lowerBottom
  }

  function GapsOf(m: Margins, loc: SideBarButtonLocation): seq<Gap> {
    match loc
    case UpperTop => m.upperTop
    case UpperBottom => m.upperBottom
    case LowerTop => m.lowerTop
    case LowerBottom => m.lowerBottom
  }

  function Space(p: Pointer): real {
    SpaceBetween(p.gridHeight, p.upperStackHeight, p.lowerStackHeight)
  }

  /**
   * SupportsLocation: with no recorded set every section is supported,
   * otherwise exactly the recorded ones.
   */
  predicate Supports(supported: Option<set<SideBarButtonLocation>>, loc: SideBarButtonLocation) {
    supported.None? || loc in supported.value
  }

  /** The set recorded on drag-enter: the sections of the host's dock areas on this side; none without a host. */
  function SupportedOnSide(host: Option<seq<DockAreaLocation>>, side: SideBarLocation): (r: Option<set<SideBarButtonLocation>>)
    ensures r.None? <==> host.None?
    ensures forall b :: Supports(r, b) <==> host.None? || DockAreaLocation(b, side) in host.value
  {
    match host
    case None => None
    case Some(areas) =>
      var s := set a | a in areas && a.leftRight == side :: a.buttonLocation;
      assert forall b :: b in s <==> DockAreaLocation(b, side) in areas by {
        forall b ensures b in s <==> DockAreaLocation(b, side) in areas {
          if DockAreaLocation(b, side) in areas {
            assert DockAreaLocation(b, side).buttonLocation == b;
          }
        }
      }
      Some(s)
  }

  /** DetermineLocation's answer: a section and an index, where index -1 means no slot. */
  datatype Slot = Slot(section: SideBarButtonLocation, index: int)

  const NoSlot := Slot(UpperTop, -1)

  /** The two lower sections first test whether the pointer is above the whole list, which picks slot 0. */
  predicate PicksFirstEarly(loc: SideBarButtonLocation, s: SectionGeometry) {
    (loc == LowerTop && s.y < 0.0) || (loc == LowerBottom && s.y < -8.0)
  }

  /** The item test each section's loop uses: the upper sections count the item's top margin. */
  function ProbeOf(loc: SideBarButtonLocation): Probe {
    if loc == UpperTop || loc == UpperBottom then AboveWithMargin else Above
  }

  /** Whether the pointer past the last item still counts as the section's end slot. */
  predicate EndSlotTaken(loc: SideBarButtonLocation, s: SectionGeometry, space: real) {
    match loc
    case UpperTop => s.y < s.height + Spacing
    case UpperBottom => s.y < s.height + space / 2.0
    case LowerTop => s.y < s.height + 8.0
    case LowerBottom => s.y > s.height - 16.0
  }

  /**
   * One section's block of DetermineLocation: the slot it returns, or None
   * when the search moves on to the next section.
   */
  function SectionSlot(loc: SideBarButtonLocation, s: SectionGeometry, gaps: seq<Gap>, space: real): (r: Option<nat>)
    ensures r.Some? ==> r.value <= |s.items|
    ensures PicksFirstEarly(loc, s) ==> r == Some(0)
    ensures !PicksFirstEarly(loc, s) && r.Some? && r.value < |s.items| ==>
              Hits(ProbeOf(loc), s.items[r.value], GapAt(gaps, r.value)) &&
              forall j :: 0 <= j < r.value ==> !Hits(ProbeOf(loc), s.items[j], GapAt(gaps, j))
    ensures !PicksFirstEarly(loc, s) && r.Some? && r.value == |s.items| ==> EndSlotTaken(loc, s, space)
    ensures !PicksFirstEarly(loc, s) && FirstHit(ProbeOf(loc), s.items, gaps, 0) < |s.items| ==> r.Some?
  {
    if PicksFirstEarly(loc, s) then Some(0)
    else
      var k := FirstHit(ProbeOf(loc), s.items, gaps, 0);
      if k < |s.items| || EndSlotTaken(loc, s, space) then Some(k) else None
  }

  /** A section's slot as the search sees it: unsupported sections are skipped. */
  function Offered(supported: Option<set<SideBarButtonLocation>>, p: Pointer, m: Margins, loc: SideBarButtonLocation): Option<nat> {
    if Supports(supported, loc) then SectionSlot(loc, SectionOf(p, loc), GapsOf(m, loc), Space(p)) else None
  }

  /**
   * DetermineLocation: no slot without the template parts; otherwise the
   * sections are tried in the order UpperTop, UpperBottom, LowerTop,
   * LowerBottom and the first one that offers a slot wins.
   */
  function DropSlot(applied: bool, supported: Option<set<SideBarButtonLocation>>, p: Pointer, m: Margins): Slot {
    if !applied then NoSlot
    else if Offered(supported, p, m, UpperTop).Some? then Slot(UpperTop, Offered(supported, p, m, UpperTop).value)
    else if Offered(supported, p, m, UpperBottom).Some? then Slot(UpperBottom, Offered(supported, p, m, UpperBottom).value)
    else if Offered(supported, p, m, LowerTop).Some? then Slot(LowerTop, Offered(supported, p, m, LowerTop).value)
    else if Offered(supported, p, m, LowerBottom).Some? then Slot(LowerBottom, Offered(supported, p, m, LowerBottom).value)
    else NoSlot
  }

  /**
   * The slot is -1 without the template parts; otherwise it is -1 or an
   * index in [0, ItemCount] of a supported section.
   */
  lemma DropSlotInRange(applied: bool, supported: Option<set<SideBarButtonLocation>>, p: Pointer, m: Margins)
    ensures var r := DropSlot(applied, supported, p, m);
            (!applied ==> r.index == -1) &&
            (r.index == -1 || (0 <= r.index <= |SectionOf(p, r.section).items| && Supports(supported, r.section)))
  {
  }

  /**
   * The sections are tried in declaration order: a slot is found exactly
   * when some section offers one, and the winner is the first section that
   * does, with the index that section offers.
   */
  lemma DropSlotIsFirstOffer(supported: Option<set<SideBarButtonLocation>>, p: Pointer, m: Margins)
    ensures var r := DropSlot(true, supported, p, m);
            (r.index >= 0 <==> exists loc :: Offered(supported, p, m, loc).Some?) &&
            (r.index >= 0 ==>
               Offered(supported, p, m, r.section) == Some(r.index as nat) &&
               forall loc :: ButtonIndex(loc) < ButtonIndex(r.section) ==> Offered(supported, p, m, loc).None?)
  {
    var r := DropSlot(true, supported, p, m);
    if exists loc :: Offered(supported, p, m, loc).Some? {
      var loc :| Offered(supported, p, m, loc).Some?;
      assert r.index >= 0 by {
        match loc
        case UpperTop =>
        case UpperBottom =>
        case LowerTop =>
        case LowerBottom =>
      }
    }
  }

  /**
   * Within a section the winner is the first visible item the probe hits;
   * an invisible item is never the winner, and the lower sections may
   * instead pick slot 0 when the pointer is above the whole list.
   */
  lemma DropSlotPicksFirstHit(applied: bool, supported: Option<set<SideBarButtonLocation>>, p: Pointer, m: Margins)
    requires var r := DropSlot(applied, supported, p, m);
             0 <= r.index < |SectionOf(p, r.section).items| && !PicksFirstEarly(r.section, SectionOf(p, r.section))
    ensures var r := DropSlot(applied, supported, p, m);
            var items := SectionOf(p, r.section).items;
            var gaps := GapsOf(m, r.section);
            items[r.index].visible &&
            Hits(ProbeOf(r.section), items[r.index], GapAt(gaps, r.index)) &&
            forall j :: 0 <= j < r.index ==> !Hits(ProbeOf(r.section), items[j], GapAt(gaps, j))
  {
  }

  /** Whether the drag-over is already handled once the two upper sections have been scanned. */
  predicate UpperHandled(supported: Option<set<SideBarButtonLocation>>, p: Pointer, m: Margins) {
    Offered(supported, p, m, UpperTop).Some? || Offered(supported, p, m, UpperBottom).Some?
  }

  /** Whether the lower-bottom list itself takes the gap (the pointer is below its top edge minus 8). */
  predicate LowerBottomListTakesGap(supported: Option<set<SideBarButtonLocation>>, p: Pointer, m: Margins) {
    !UpperHandled(supported, p, m) &&
    LastHit(Below, p.lowerBottom.items, m.lowerBottom, |p.lowerBottom.items|) < 0 &&
    p.lowerBottom.y > -8.0
  }

  /**
   * The margins one OnDragOver leaves: each supported section is scanned
   * (upper sections top-down, lower sections bottom-up, the lower-bottom
   * list before the lower-top list) and the first hit takes the gap;
   * unsupported sections keep their margins.
   */
  function DragOverMargins(supported: Option<set<SideBarButtonLocation>>, p: Pointer, m: Margins): Margins {
    var hUT := Offered(supported, p, m, UpperTop).Some?;
    var hUB := UpperHandled(supported, p, m);
    var hLB := hUB || (Supports(supported, LowerBottom) &&
                       (LastHit(Below, p.lowerBottom.items, m.lowerBottom, |p.lowerBottom.items|) >= 0 ||
                        LowerBottomListTakesGap(supported, p, m)));
    Margins(
      upperTop := if Supports(supported, UpperTop)
        then ScannedGaps(p.upperTop.items, m.upperTop, DownwardMark(AboveWithMargin, p.upperTop.items, m.upperTop, false), TopGap)
        else m.upperTop,
      upperBottom := if Supports(supported, UpperBottom)
        then ScannedGaps(p.upperBottom.items, m.upperBottom, DownwardMark(AboveWithMargin, p.upperBottom.items, m.upperBottom, hUT), TopGap)
        else m.upperBottom,
      lowerTop := if Supports(supported, LowerTop)
        then ScannedGaps(p.lowerTop.items, m.lowerTop, UpwardMark(Below, p.lowerTop.items, m.lowerTop, hLB), BottomGap)
        else m.lowerTop,
      lowerBottom := if Supports(supported, LowerBottom)
        then ScannedGaps(p.lowerBottom.items, m.lowerBottom, UpwardMark(Below, p.lowerBottom.items, m.lowerBottom, hUB), BottomGap)
        else m.lowerBottom,
      upperTopListGap := if Supports(supported, UpperTop)
        then FirstHit(AboveWithMargin, p.upperTop.items, m.upperTop, 0) == |p.upperTop.items| && p.upperTop.y < p.upperTop.height + Spacing
        else m.upperTopListGap,
      lowerBottomListGap := if Supports(supported, LowerBottom)
        then LowerBottomListTakesGap(supported, p, m)
        else m.lowerBottomListGap)
  }

  /** A place a drag-over can give the gap to: an item container, or a list as a whole. */
  datatype Mark = ItemMark(section: SideBarButtonLocation, index: nat) | ListMark(section: SideBarButtonLocation)

  /** Whether a scanned element carries a gap: a visible item of a supported section, or a list margin. */
  predicate Marked(supported: Option<set<SideBarButtonLocation>>, p: Pointer, m: Margins, mk: Mark) {
    match mk
    case ItemMark(loc, i) =>
      Supports(supported, loc) && i < |SectionOf(p, loc).items| && i < |GapsOf(m, loc)| &&
      SectionOf(p, loc).items[i].visible && GapsOf(m, loc)[i] != NoGap
    case ListMark(loc) =>
      (loc == UpperTop && Supports(supported, UpperTop) && m.upperTopListGap) ||
      (loc == LowerBottom && Supports(supported, LowerBottom) && m.lowerBottomListGap)
  }

  /** A drag-over gives the gap to at most one element: every other scanned item and list ends at zero margin. */
  lemma {:induction false} DragOverMarksAtMostOne(supported: Option<set<SideBarButtonLocation>>, p: Pointer, m: Margins, a: Mark, b: Mark)
    requires Marked(supported, p, DragOverMargins(supported, p, m), a)
    requires Marked(supported, p, DragOverMargins(supported, p, m), b)
    ensures a == b
  {
    var m' := DragOverMargins(supported, p, m);
    MarkedIsTheHandler(supported, p, m, a);
    MarkedIsTheHandler(supported, p, m, b);
  }

  /** The element that took the gap, if any, in scan order. */
  function GapOwner(supported: Option<set<SideBarButtonLocation>>, p: Pointer, m: Margins): Option<Mark> {
    var utHit := FirstHit(AboveWithMargin, p.upperTop.items, m.upperTop, 0);
    var ubHit := FirstHit(AboveWithMargin, p.upperBottom.items, m.upperBottom, 0);
    var lbHit := LastHit(Below, p.lowerBottom.items, m.lowerBottom, |p.lowerBottom.items|);
    var ltHit := LastHit(Below, p.lowerTop.items, m.lowerTop, |p.lowerTop.items|);
    if Supports(supported, UpperTop) && utHit < |p.upperTop.items| then Some(ItemMark(UpperTop, utHit))
    else if Offered(supported, p, m, UpperTop).Some? then Some(ListMark(UpperTop))
    else if Supports(supported, UpperBottom) && ubHit < |p.upperBottom.items| then Some(ItemMark(UpperBottom, ubHit))
    else if Offered(supported, p, m, UpperBottom).Some? then None
    else if Supports(supported, LowerBottom) && lbHit >= 0 then Some(ItemMark(LowerBottom, lbHit))
    else if Supports(supported, LowerBottom) && LowerBottomListTakesGap(supported, p, m) then Some(ListMark(LowerBottom))
    else if Supports(supported, LowerTop) && ltHit >= 0 then Some(ItemMark(LowerTop, ltHit))
    else None
  }

  /** Every element a drag-over leaves with a gap is the single gap owner. */
  lemma MarkedIsTheHandler(supported: Option<set<SideBarButtonLocation>>, p: Pointer, m: Margins, mk: Mark)
    requires Marked(supported, p, DragOverMargins(supported, p, m), mk)
    ensures GapOwner(supported, p, m) == Some(mk)
  {
    match mk
    case ItemMark(loc, i) =>
      match loc {
        case UpperTop => UpperTopMarkIsTheHandler(supported, p, m, i);
        case UpperBottom => UpperBottomMarkIsTheHandler(supported, p, m, i);
        case LowerTop => LowerTopMarkIsTheHandler(supported, p, m, i);
        case LowerBottom => LowerBottomMarkIsTheHandler(supported, p, m, i);
      }
    case ListMark(loc) =>
      UpperTopHitIsOffered(supported, p, m);
  }

  lemma UpperTopMarkIsTheHandler(supported: Option<set<SideBarButtonLocation>>, p: Pointer, m: Margins, i: nat)
    requires Marked(supported, p, DragOverMargins(supported, p, m), ItemMark(UpperTop, i))
    ensures GapOwner(supported, p, m) == Some(ItemMark(UpperTop, i))
  {
    var k := DownwardMark(AboveWithMargin, p.upperTop.items, m.upperTop, false);
    ScanMarksAtMostOne(p.upperTop.items, m.upperTop, k, TopGap, i, i);
  }

  lemma UpperBottomMarkIsTheHandler(supported: Option<set<SideBarButtonLocation>>, p: Pointer, m: Margins, i: nat)
    requires Marked(supported, p, DragOverMargins(supported, p, m), ItemMark(UpperBottom, i))
    ensures GapOwner(supported, p, m) == Some(ItemMark(UpperBottom, i))
  {
    var k := DownwardMark(AboveWithMargin, p.upperBottom.items, m.upperBottom, Offered(supported, p, m, UpperTop).Some?);
    ScanMarksAtMostOne(p.upperBottom.items, m.upperBottom, k, TopGap, i, i);
    UpperTopHitIsOffered(supported, p, m);
  }

  lemma LowerTopMarkIsTheHandler(supported: Option<set<SideBarButtonLocation>>, p: Pointer, m: Margins, i: nat)
    requires Marked(supported, p, DragOverMargins(supported, p, m), ItemMark(LowerTop, i))
    ensures GapOwner(supported, p, m) == Some(ItemMark(LowerTop, i))
  {
    var hLB := UpperHandled(supported, p, m) || (Supports(supported, LowerBottom) &&
                 (LastHit(Below, p.lowerBottom.items, m.lowerBottom, |p.lowerBottom.items|) >= 0 ||
                  LowerBottomListTakesGap(supported, p, m)));
    var k := UpwardMark(Below, p.lowerTop.items, m.lowerTop, hLB);
    ScanMarksAtMostOne(p.lowerTop.items, m.lowerTop, k, BottomGap, i, i);
    UpperTopHitIsOffered(supported, p, m);
  }

  lemma LowerBottomMarkIsTheHandler(supported: Option<set<SideBarButtonLocation>>, p: Pointer, m: Margins, i: nat)
    requires Marked(supported, p, DragOverMargins(supported, p, m), ItemMark(LowerBottom, i))
    ensures GapOwner(supported, p, m) == Some(ItemMark(LowerBottom, i))
  {
    var k := UpwardMark(Below, p.lowerBottom.items, m.lowerBottom, UpperHandled(supported, p, m));
    ScanMarksAtMostOne(p.lowerBottom.items, m.lowerBottom, k, BottomGap, i, i);
    UpperTopHitIsOffered(supported, p, m);
  }

  /** A hit in the upper-top list means that section offers a slot. */
  lemma UpperTopHitIsOffered(supported: Option<set<SideBarButtonLocation>>, p: Pointer, m: Margins)
    ensures Supports(supported, UpperTop) && FirstHit(AboveWithMargin, p.upperTop.items, m.upperTop, 0) < |p.upperTop.items| ==>
              Offered(supported, p, m, UpperTop).Some?
  {
  }

  /**
   * The gap previews the drop: for the same pointer and margins, when the
   * drop would land on an item slot of an upper section, drag-over gives that
   * item the gap above it, and the upper-top end slot gives the list its gap.
   */
  lemma DragOverPreviewsUpperDrop(supported: Option<set<SideBarButtonLocation>>, p: Pointer, m: Margins)
    ensures var r := DropSlot(true, supported, p, m);
            var m' := DragOverMargins(supported, p, m);
            ((r.section == UpperTop || r.section == UpperBottom) && 0 <= r.index < |SectionOf(p, r.section).items| ==>
               GapsOf(m', r.section)[r.index] == TopGap) &&
            (r.section == UpperTop && r.index == |p.upperTop.items| ==> m'.upperTopListGap)
  {
    var r := DropSlot(true, supported, p, m);
    if r.section == UpperTop && r.index >= 0 {
      var k := FirstHit(AboveWithMargin, p.upperTop.items, m.upperTop, 0);
      assert Offered(supported, p, m, UpperTop) == Some(k);
      if k < |p.upperTop.items| {
        assert DownwardMark(AboveWithMargin, p.upperTop.items, m.upperTop, false) == k;
      }
    } else if r.section == UpperBottom && r.index >= 0 {
      var k := FirstHit(AboveWithMargin, p.upperBottom.items, m.upperBottom, 0);
      assert Offered(supported, p, m, UpperTop).None?;
      assert Offered(supported, p, m, UpperBottom) == Some(k);
      if k < |p.upperBottom.items| {
        assert DownwardMark(AboveWithMargin, p.upperBottom.items, m.upperBottom, false) == k;
      }
    }
  }

  /** The margins drag-leave leaves: every container and every list back to the default. */
  function Cleared(m: Margins): (r: Margins)
    ensures forall loc, i :: 0 <= i < |GapsOf(r, loc)| ==> GapsOf(r, loc)[i] == NoGap
    ensures forall loc :: |GapsOf(r, loc)| == |GapsOf(m, loc)|
    ensures !r.upperTopListGap && !r.lowerBottomListGap
  {
    Margins(seq(|m.upperTop|, _ => NoGap), seq(|m.upperBottom|, _ => NoGap),
            seq(|m.lowerTop|, _ => NoGap), seq(|m.lowerBottom|, _ => NoGap), false, false)
  }

  /** The drag data: a side bar button, or anything else. */
  datatype DragData<T> = ForeignData | ButtonData(button: ButtonDrag<T>)

  /**
   * What a drop reads of the dragged button: its DockLocation, its
   * DataContext, the button itself as a list element, its SideBar ancestor
   * and the ItemsSource of its ItemsControl ancestor when that is an IList.
   */
  datatype ButtonDrag<T> = ButtonDrag(
    dockLocation: Option<DockAreaLocation>, dataContext: Option<T>, self: T,
    sourceBar: SideBar?<T>, sourceList: ToolList?<T>)

  /** The ButtonMove event a drop raises. */
  datatype MoveEvent<T> = MoveEvent(
    item: Option<T>, sourceLocation: DockAreaLocation, destinationLocation: DockAreaLocation, destinationIndex: int)

  datatype DropOutcome<T> = NoEvent | Raised(event: MoveEvent<T>, result: DropResult)

  /** The dragged button's source list, which a drop may change besides the side bar's own lists. */
  function DragList<T>(data: DragData<T>): set<ToolList?<T>> {
    if data.ForeignData? then {} else {data.button.sourceList}
  }

  /** The dragged button's side bar, whose dividers a drop updates. */
  function DragBar<T>(data: DragData<T>): set<SideBar?<T>> {
    if data.ForeignData? then {} else {data.button.sourceBar}
  }

  /** One section block of DetermineLocation, with its item loop. */
  method FindSectionSlot(loc: SideBarButtonLocation, s: SectionGeometry, gaps: seq<Gap>, space: real) returns (r: Option<nat>)
    ensures r == SectionSlot(loc, s, gaps, space)
  {
    if PicksFirstEarly(loc, s) {
      return Some(0);
    }
    var k := FindFirstHit(ProbeOf(loc), s.items, gaps);
    if k < |s.items| || EndSlotTaken(loc, s, space) {
      return Some(k);
    }
    return None;
  }

  /**
   * The body of OnDragOver once its guards pass: the four section scans
   * threaded through the handled flag, in the order upper-top,
   * upper-bottom, lower-bottom, lower-top.
   */
  method DragOverScan(supported: Option<set<SideBarButtonLocation>>, p: Pointer, m: Margins) returns (r: Margins)
    ensures r == DragOverMargins(supported, p, m)
  {
    var ut, utList, ub, handled := ScanUpperSections(supported, p, m);
    var lt, lb, lbList := ScanLowerSections(supported, p, m, handled);
    r := Margins(ut, ub, lt, lb, utList, lbList);
  }

  /** The upper-top and upper-bottom scans of OnDragOver, and whether either took the gap. */
  method ScanUpperSections(supported: Option<set<SideBarButtonLocation>>, p: Pointer, m: Margins)
    returns (ut: seq<Gap>, utList: bool, ub: seq<Gap>, handled: bool)
    ensures var d := DragOverMargins(supported, p, m);
            ut == d.upperTop && utList == d.upperTopListGap && ub == d.upperBottom
    ensures handled == UpperHandled(supported, p, m)
  {
    handled := false;
    ut, ub := m.upperTop, m.upperBottom;
    utList := m.upperTopListGap;
    if Supports(supported, UpperTop) {
      ut, handled := ScanDown(p.upperTop.items, m.upperTop, handled);
      if p.upperTop.y < p.upperTop.height + Spacing && !handled {
        utList := true;
        handled := true;
      } else {
        utList := false;
      }
    }
    assert handled == Offered(supported, p, m, UpperTop).Some?;
    if Supports(supported, UpperBottom) {
      ub, handled := ScanDown(p.upperBottom.items, m.upperBottom, handled);
      if p.upperBottom.y < p.upperBottom.height + Space(p) / 2.0 && !handled {
        handled := true;
      }
    }
  }

  /** The lower-bottom and lower-top scans of OnDragOver, after the upper scans left the handled flag. */
  method ScanLowerSections(supported: Option<set<SideBarButtonLocation>>, p: Pointer, m: Margins, handled0: bool)
    returns (lt: seq<Gap>, lb: seq<Gap>, lbList: bool)
    requires handled0 == UpperHandled(supported, p, m)
    ensures var d := DragOverMargins(supported, p, m);
            lt == d.lowerTop && lb == d.lowerBottom && lbList == d.lowerBottomListGap
  {
    var handled := handled0;
    lt, lb := m.lowerTop, m.lowerBottom;
    lbList := m.lowerBottomListGap;
    if Supports(supported, LowerBottom) {
      lb, handled := ScanUp(p.lowerBottom.items, m.lowerBottom, handled);
      if p.lowerBottom.y > -8.0 && !handled {
        lbList := true;
        handled := true;
      } else {
        lbList := false;
      }
    }
    if Supports(supported, LowerTop) {
      lt, handled := ScanUp(p.lowerTop.items, m.lowerTop, handled);
    }
  }

  /**
   * The part of OnDrop after the guards: raise the ButtonMove event and,
   * unless a listener handled it, move the element between the lists.
   */
  method RaiseMove<T(==)>(b: ButtonDrag<T>, destination: DockAreaLocation, index: int, dst: ToolList<T>,
                          listenerHandles: bool) returns (outcome: DropOutcome<T>)
    requires b.dockLocation.Some?
    modifies b.sourceList, dst
    ensures outcome.Raised?
    ensures outcome.event == MoveEvent(b.dataContext, b.dockLocation.value, destination, index)
    ensures listenerHandles ==> outcome.result == HandledByListener
    ensures outcome.result.Touched() ==>
              var src := b.sourceList;
              src != null && MovedElement(b.dataContext, b.self, old(src.items)).Some? &&
              var r := TransferItem(old(src.items), old(dst.items), src == dst, MovedElement(b.dataContext, b.self, old(src.items)).value, index);
              src.items == r.source && dst.items == r.destination && (outcome.result == Moved <==> r.Transferred?)
    ensures !outcome.result.Touched() ==> unchanged(dst) && (b.sourceList != null ==> unchanged(b.sourceList))
  {
    var event := MoveEvent(b.dataContext, b.dockLocation.value, destination, index);
    if listenerHandles {
      return Raised(event, HandledByListener);
    }
    var result := MoveItem(b.sourceList, b.dataContext, b.self, dst, index);
    outcome := Raised(event, result);
  }

  /**
   * When the section's containers are its list's items, a drop at a found
   * slot into another list always completes, while a drop into the dragged
   * item's own list completes only below the end slot: the end slot still
   * counts the item, and the Insert throws after its removal.
   */
  lemma FoundSlotTransferCompletes<T>(applied: bool, supported: Option<set<SideBarButtonLocation>>, p: Pointer, m: Margins,
                                      source: seq<T>, destination: seq<T>, sameList: bool, x: T)
    requires x in source && (sameList ==> source == destination)
    requires DropSlot(applied, supported, p, m).index >= 0
    requires |SectionOf(p, DropSlot(applied, supported, p, m).section).items| == |destination|
    ensures var r := DropSlot(applied, supported, p, m);
            var t := TransferItem(source, destination, sameList, x, r.index);
            (!sameList ==> t.Transferred?) &&
            (sameList ==> (t.Transferred? <==> r.index < |destination|)) &&
            (sameList && r.index == |destination| ==> t.InsertOutOfRange?)
  {
    var r := DropSlot(applied, supported, p, m);
    DropSlotInRange(applied, supported, p, m);
    TransferCompletesIff(source, destination, sameList, x, r.index);
  }

  class SideBar<T(==)> {
    /** Which side of the window this side bar is on. */
    const location: SideBarLocation
    /** OnApplyTemplate has found every template part (it throws when one is missing). */
    var templateApplied: bool
    const upperTopSource: ToolList<T>
    const upperBottomSource: ToolList<T>
    const lowerTopSource: ToolList<T>
    const lowerBottomSource: ToolList<T>
    /** The sections recorded on drag-enter; None before any drag-enter or without a host. */
    var supported: Option<set<SideBarButtonLocation>>
    var upperDividerVisible: bool
    var lowerDividerVisible: bool
    var gridHitTestVisible: bool
    /** The drag ghost and the adorner layer holding it. */
    var hasGhost: bool
    var hasLayer: bool
    var margins: Margins

    constructor (location: SideBarLocation, upperTop: ToolList<T>, upperBottom: ToolList<T>,
                 lowerTop: ToolList<T>, lowerBottom: ToolList<T>)
      ensures this.location == location && !templateApplied && supported.None?
      ensures upperTopSource == upperTop && upperBottomSource == upperBottom
      ensures lowerTopSource == lowerTop && lowerBottomSource == lowerBottom
      ensures !hasGhost && !hasLayer && gridHitTestVisible
      ensures margins == Margins([], [], [], [], false, false)
    {
      this.location := location;
      templateApplied := false;
      upperTopSource := upperTop;
      upperBottomSource := upperBottom;
      lowerTopSource := lowerTop;
      lowerBottomSource := lowerBottom;
      supported := None;
      upperDividerVisible := true;
      lowerDividerVisible := true;
      gridHitTestVisible := true;
      hasGhost := false;
      hasLayer := false;
      margins := Margins([], [], [], [], false, false);
    }

    function Sources(): set<ToolList<T>>
    {
      {upperTopSource, upperBottomSource, lowerTopSource, lowerBottomSource}
    }

    /** The list a drop into the given section inserts into. */
    function SourceFor(loc: SideBarButtonLocation): ToolList<T>
    {
      match loc
      case UpperTop => upperTopSource
      case UpperBottom => upperBottomSource
      case LowerTop => lowerTopSource
      case LowerBottom => lowerBottomSource
    }

    /** The item containers the pointer geometry holds for each section are those of its list's items. */
    predicate CountsMatch(p: Pointer)
      reads upperTopSource, upperBottomSource, lowerTopSource, lowerBottomSource
    {
      forall loc :: |SectionOf(p, loc).items| == |SourceFor(loc).items|
    }

    /** The divider rule: a divider shows when both its sections are supported and both their lists are non-empty. */
    predicate DividersCurrent()
      reads this, upperTopSource, upperBottomSource, lowerTopSource, lowerBottomSource
    {
      templateApplied ==>
        upperDividerVisible == (Supports(supported, UpperTop) && Supports(supported, UpperBottom) &&
                                |upperTopSource.items| > 0 && |upperBottomSource.items| > 0) &&
        lowerDividerVisible == (Supports(supported, LowerTop) && Supports(supported, LowerBottom) &&
                                |lowerTopSource.items| > 0 && |lowerBottomSource.items| > 0)
    }

    method UpdateUpperDividerVisibility()
      modifies this`upperDividerVisible
      ensures templateApplied ==> upperDividerVisible == (Supports(supported, UpperTop) && Supports(supported, UpperBottom) &&
                                                          |upperTopSource.items| > 0 && |upperBottomSource.items| > 0)
      ensures !templateApplied ==> upperDividerVisible == old(upperDividerVisible)
    {
      if templateApplied {
        if Supports(supported, UpperTop) && Supports(supported, UpperBottom) {
          upperDividerVisible := |upperTopSource.items| > 0 && |upperBottomSource.items| > 0;
        } else {
          upperDividerVisible := false;
        }
      }
    }

    method UpdateLowerDividerVisibility()
      modifies this`lowerDividerVisible
      ensures templateApplied ==> lowerDividerVisible == (Supports(supported, LowerTop) && Supports(supported, LowerBottom) &&
                                                          |lowerTopSource.items| > 0 && |lowerBottomSource.items| > 0)
      ensures !templateApplied ==> lowerDividerVisible == old(lowerDividerVisible)
    {
      if templateApplied {
        if Supports(supported, LowerTop) && Supports(supported, LowerBottom) {
          lowerDividerVisible := |lowerTopSource.items| > 0 && |lowerBottomSource.items| > 0;
        } else {
          lowerDividerVisible := false;
        }
      }
    }

    method UpdateDividerVisibility()
      modifies this`upperDividerVisible, this`lowerDividerVisible
      ensures DividersCurrent()
      ensures !templateApplied ==> unchanged(this`upperDividerVisible, this`lowerDividerVisible)
    {
      UpdateUpperDividerVisibility();
      UpdateLowerDividerVisibility();
    }

    /** OnApplyTemplate: the parts are found, then the dividers follow the rule. */
    method ApplyTemplate()
      modifies this`templateApplied, this`upperDividerVisible, this`lowerDividerVisible
      ensures templateApplied && DividersCurrent()
    {
      templateApplied := true;
      UpdateDividerVisibility();
    }

    /** DetermineLocation: the section blocks in order, each running its item loop. */
    method DetermineLocation(p: Pointer) returns (slot: Slot)
      ensures slot == DropSlot(templateApplied, supported, p, margins)
    {
      if !templateApplied {
        return NoSlot;
      }
      if Supports(supported, UpperTop) {
        var r := FindSectionSlot(UpperTop, p.upperTop, margins.upperTop, Space(p));
        if r.Some? {
          return Slot(UpperTop, r.value);
        }
      }
      if Supports(supported, UpperBottom) {
        var r := FindSectionSlot(UpperBottom, p.upperBottom, margins.upperBottom, Space(p));
        if r.Some? {
          return Slot(UpperBottom, r.value);
        }
      }
      if Supports(supported, LowerTop) {
        var r := FindSectionSlot(LowerTop, p.lowerTop, margins.lowerTop, Space(p));
        if r.Some? {
          return Slot(LowerTop, r.value);
        }
      }
      if Supports(supported, LowerBottom) {
        var r := FindSectionSlot(LowerBottom, p.lowerBottom, margins.lowerBottom, Space(p));
        if r.Some? {
          return Slot(LowerBottom, r.value);
        }
      }
      return NoSlot;
    }

    /** OnDragOver: without the template parts, the layer or the ghost, or for foreign data, nothing happens. */
    method OnDragOver(isButtonData: bool, p: Pointer)
      modifies this`gridHitTestVisible, this`margins
      ensures var active := old(templateApplied && hasLayer && hasGhost) && isButtonData;
              margins == (if active then DragOverMargins(supported, p, old(margins)) else old(margins)) &&
              gridHitTestVisible == (if active then false else old(gridHitTestVisible))
    {
      if !templateApplied || !hasLayer || !hasGhost || !isButtonData {
        return;
      }
      gridHitTestVisible := false;
      margins := DragOverScan(supported, p, margins);
    }

    /**
     * OnDragEnter: for a side bar button, record the sections the host's
     * dock areas use on this side, show each divider whose two sections
     * are supported, create the ghost (the layer may be missing), then
     * run a drag-over.
     */
    method OnDragEnter(isButtonData: bool, host: Option<seq<DockAreaLocation>>, layerFound: bool, p: Pointer)
      modifies this`gridHitTestVisible, this`margins, this`supported, this`upperDividerVisible, this`lowerDividerVisible,
               this`hasGhost, this`hasLayer
      ensures !isButtonData ==> unchanged(this)
      ensures isButtonData ==>
        supported == SupportedOnSide(host, location) && hasGhost && hasLayer == layerFound &&
        gridHitTestVisible == (if templateApplied then false else old(gridHitTestVisible)) &&
        (templateApplied ==> upperDividerVisible == (Supports(supported, UpperTop) && Supports(supported, UpperBottom)) &&
                             lowerDividerVisible == (Supports(supported, LowerTop) && Supports(supported, LowerBottom))) &&
        margins == (if templateApplied && layerFound then DragOverMargins(supported, p, old(margins)) else old(margins))
    {
      if !isButtonData {
        return;
      }
      if templateApplied {
        gridHitTestVisible := false;
      }
      supported := SupportedOnSide(host, location);
      if templateApplied {
        upperDividerVisible := Supports(supported, UpperTop) && Supports(supported, UpperBottom);
        lowerDividerVisible := Supports(supported, LowerTop) && Supports(supported, LowerBottom);
      }
      hasGhost := true;
      hasLayer := layerFound;
      OnDragOver(isButtonData, p);
    }

    /**
     * OnDragLeave: for a side bar button with the template parts present,
     * reset every margin, update the dividers, and drop the ghost when both
     * the ghost and the layer exist.
     */
    method OnDragLeave(isButtonData: bool)
      modifies this`gridHitTestVisible, this`margins, this`upperDividerVisible, this`lowerDividerVisible, this`hasGhost, this`hasLayer
      ensures !(old(templateApplied) && isButtonData) ==> unchanged(this)
      ensures old(templateApplied) && isButtonData ==>
        margins == Cleared(old(margins)) && gridHitTestVisible && DividersCurrent() &&
        (hasGhost, hasLayer) == (if old(hasGhost && hasLayer) then (false, false) else old((hasGhost, hasLayer)))
    {
      if !templateApplied || !isButtonData {
        return;
      }
      gridHitTestVisible := true;
      margins := Cleared(margins);
      UpdateDividerVisibility();
      if hasGhost && hasLayer {
        hasLayer := false;
        hasGhost := false;
      }
    }

    /**
     * OnDrop: find the slot with the margins of the last drag-over, run the
     * drag-leave, then finish the drop at that slot.
     */
    method OnDrop(p: Pointer, data: DragData<T>, listenerHandles: bool) returns (slot: Slot, outcome: DropOutcome<T>)
      modifies this`gridHitTestVisible, this`margins, this`upperDividerVisible, this`lowerDividerVisible, this`hasGhost, this`hasLayer
      modifies DragBar(data)`upperDividerVisible, DragBar(data)`lowerDividerVisible
      modifies DragList(data), upperTopSource, upperBottomSource, lowerTopSource, lowerBottomSource
      ensures slot == old(DropSlot(templateApplied, supported, p, margins))
      ensures outcome.Raised? <==>
                data.ButtonData? && data.button.dockLocation.Some? && slot.index >= 0 && data.button.sourceBar != null
      ensures outcome.Raised? ==>
                outcome.event == MoveEvent(data.button.dataContext, data.button.dockLocation.value,
                                           DockAreaLocation(slot.section, location), slot.index)
      ensures outcome.Raised? && listenerHandles ==> outcome.result == HandledByListener
      ensures outcome.Raised? && outcome.result.Touched() ==>
                var src := data.button.sourceList;
                var dst := SourceFor(slot.section);
                src != null && MovedElement(data.button.dataContext, data.button.self, old(src.items)).Some? &&
                var r := TransferItem(old(src.items), old(dst.items), src == dst,
                                      MovedElement(data.button.dataContext, data.button.self, old(src.items)).value, slot.index);
                src.items == r.source && dst.items == r.destination &&
                (outcome.result == Moved <==> r.Transferred?)
      ensures forall l :: l in Sources() && l != SourceFor(slot.section) &&
                          (data.ForeignData? || l != data.button.sourceList)
                 ==> l.items == old(l.items)
      ensures !(outcome.Raised? && outcome.result.Touched()) ==>
                unchanged(upperTopSource, upperBottomSource, lowerTopSource, lowerBottomSource) &&
                (data.ButtonData? && data.button.sourceList != null ==> unchanged(data.button.sourceList))
      ensures old(CountsMatch(p)) && outcome.Raised? && outcome.result.Touched() ==>
                (outcome.result == Moved <==>
                   data.button.sourceList != SourceFor(slot.section) || slot.index < |old(SourceFor(slot.section).items)|)
      ensures DividersCurrent()
      ensures outcome.Raised? ==> data.button.sourceBar.DividersCurrent()
    {
      DropSlotInRange(templateApplied, supported, p, margins);
      slot := DetermineLocation(p);
      if CountsMatch(p) {
        assert |SectionOf(p, slot.section).items| == |SourceFor(slot.section).items|;
      }
      OnDragLeave(data.ButtonData?);
      assert unchanged(upperTopSource, upperBottomSource, lowerTopSource, lowerBottomSource);
      assert data.ButtonData? && data.button.sourceList != null ==> unchanged(data.button.sourceList);
      outcome := DropAt(slot, data, listenerHandles);
      label dropped:
      RefreshDividers(if outcome.Raised? then data.button.sourceBar else null);
      assert unchanged@dropped(upperTopSource, upperBottomSource, lowerTopSource, lowerBottomSource);
      assert data.ButtonData? && data.button.sourceList != null ==> unchanged@dropped(data.button.sourceList);
    }

    /** The end of OnDrop: this side bar and the dragged button's side bar update their dividers. */
    method RefreshDividers(other: SideBar?<T>)
      modifies this`upperDividerVisible, this`lowerDividerVisible, {other}`upperDividerVisible, {other}`lowerDividerVisible
      ensures DividersCurrent()
      ensures other != null ==> other.DividersCurrent()
    {
      UpdateDividerVisibility();
      if other != null {
        other.UpdateDividerVisibility();
      }
    }

    /**
     * The rest of OnDrop: for a side bar button with a DockLocation, a slot
     * and a SideBar ancestor, raise the ButtonMove event; when no listener
     * marks it Handled and both ItemsSources are ILists, the moved element
     * is removed from its source list and inserted at the slot index of
     * the section's list.
     */
    method DropAt(slot: Slot, data: DragData<T>, listenerHandles: bool) returns (outcome: DropOutcome<T>)
      modifies DragList(data), upperTopSource, upperBottomSource, lowerTopSource, lowerBottomSource
      ensures outcome.Raised? <==>
                data.ButtonData? && data.button.dockLocation.Some? && slot.index >= 0 && data.button.sourceBar != null
      ensures outcome.Raised? ==>
                outcome.event == MoveEvent(data.button.dataContext, data.button.dockLocation.value,
                                           DockAreaLocation(slot.section, location), slot.index)
      ensures outcome.Raised? && listenerHandles ==> outcome.result == HandledByListener
      ensures outcome.Raised? && outcome.result.Touched() ==>
                var src := data.button.sourceList;
                var dst := SourceFor(slot.section);
                src != null && MovedElement(data.button.dataContext, data.button.self, old(src.items)).Some? &&
                var r := TransferItem(old(src.items), old(dst.items), src == dst,
                                      MovedElement(data.button.dataContext, data.button.self, old(src.items)).value, slot.index);
                src.items == r.source && dst.items == r.destination &&
                (outcome.result == Moved <==> r.Transferred?)
      ensures forall l :: l in Sources() && l != SourceFor(slot.section) &&
                          (data.ForeignData? || l != data.button.sourceList)
                 ==> l.items == old(l.items)
      ensures !(outcome.Raised? && outcome.result.Touched()) ==>
                unchanged(upperTopSource, upperBottomSource, lowerTopSource, lowerBottomSource) &&
                (data.ButtonData? && data.button.sourceList != null ==> unchanged(data.button.sourceList))
      ensures outcome.Raised? && outcome.result.Touched() && slot.index <= |old(SourceFor(slot.section).items)| ==>
                (outcome.result == Moved <==>
                   data.button.sourceList != SourceFor(slot.section) || slot.index < |old(SourceFor(slot.section).items)|)
    {
      outcome := NoEvent;
      if data.ButtonData? && data.button.dockLocation.Some? && slot.index >= 0 && data.button.sourceBar != null {
        var dst := SourceFor(slot.section);
        outcome := RaiseMove(data.button, DockAreaLocation(slot.section, location), slot.index, dst, listenerHandles);
        if outcome.result.Touched() {
          var src := data.button.sourceList;
          TransferCompletesIff(old(src.items), old(dst.items), src == dst,
                               MovedElement(data.button.dataContext, data.button.self, old(src.items)).value, slot.index);
        }
      }
    }
  }
}
