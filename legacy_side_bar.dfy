/**
 * The side bar of the legacy library: three tool lists (top, middle and
 * bottom) on one side of the window, located by the [Flags] enum. The
 * drop slot is a pair of a section flag (Top, 0 for the middle list,
 * Bottom) and an index; the drag-over scans the same three sections in the
 * same order, so the gap it shows is exactly the slot the drop will use.
 */
module LegacySideBars {
  import opened Common
  import opened LegacyLocations
  import opened ToolLists
  import opened SideBarLayout
  import opened DropMoves

  /** Everything the side bar reads of the pointer and the layout during one drag event. */
  datatype Pointer = Pointer(
    top: SectionGeometry, middle: SectionGeometry, bottom: SectionGeometry,
    gridHeight: real, stackHeight: real)

  /** The margins of the item containers of each list, and the bottom margin of the top list. */
  datatype Margins = Margins(top: seq<Gap>, middle: seq<Gap>, bottom: seq<Gap>, topListGap: bool)

  /** The space between the stack of the two upper lists and the bottom list. */
  function Space(p: Pointer): real {
    SpaceBetween(p.gridHeight, p.stackHeight, p.bottom.height)
  }

  /** DetermineLocation's answer: the section flag and an index, where index -1 means no slot. */
  datatype Slot = Slot(location: Flags, index: int)

  /** The section flag of the middle list is the enum's default value. */
  const Middle: Flags := 0

  const NoSlot := Slot(Middle, -1)

  /**
   * DetermineLocation: no slot without the template parts; otherwise the
   * first top item the pointer is above (its top margin counted), the top
   * list's end while the pointer is less than 8 below it, the first middle
   * item, the middle list's end within half the free space below it, the
   * last bottom item the pointer is below the middle of, and slot 0 of the
   * bottom list within half the free space below it.
   */
  function DropSlot(applied: bool, p: Pointer, m: Margins): Slot {
    if !applied then NoSlot
    else
      var t := FirstHit(AboveWithMargin, p.top.items, m.top, 0);
      var k := FirstHit(AboveWithMargin, p.middle.items, m.middle, 0);
      var b := LastHit(Below, p.bottom.items, m.bottom, |p.bottom.items|);
      if t < |p.top.items| then Slot(Top, t)
      else if p.top.y < p.top.height + Spacing then Slot(Top, |p.top.items|)
      else if k < |p.middle.items| then Slot(Middle, k)
      else if p.middle.y < p.middle.height + Space(p) / 2.0 then Slot(Middle, |p.middle.items|)
      else if b >= 0 then Slot(Bottom, b)
      else if p.bottom.y < p.bottom.height + Space(p) / 2.0 then Slot(Bottom, 0)
      else NoSlot
  }

  /** The containers of the section a slot flag names (anything else is the middle list). */
  function SectionOf(p: Pointer, location: Flags): SectionGeometry {
    if location == Top then p.top else if location == Bottom then p.bottom else p.middle
  }

  /**
   * A found slot names one of the three sections and an index in
   * [0, ItemCount] of it; the only other answer is (default, -1).
   */
  lemma DropSlotInRange(applied: bool, p: Pointer, m: Margins)
    ensures var r := DropSlot(applied, p, m);
            (!applied ==> r == NoSlot) &&
            (r.index == -1 ==> r == NoSlot) &&
            (r.index != -1 ==> (r.location == Top || r.location == Middle || r.location == Bottom) &&
                               0 <= r.index <= |SectionOf(p, r.location).items|)
  {
  }

  /**
   * An item slot of the top or middle list is the first visible container
   * the pointer is above; an item slot of the bottom list that the pointer
   * is below is the last such container.
   */
  lemma DropSlotPicksHit(p: Pointer, m: Margins)
    ensures var r := DropSlot(true, p, m);
            (r.location != Bottom && 0 <= r.index < |SectionOf(p, r.location).items| ==>
               var items := SectionOf(p, r.location).items;
               var gaps := if r.location == Top then m.top else m.middle;
               items[r.index].visible && Hits(AboveWithMargin, items[r.index], GapAt(gaps, r.index)) &&
               forall j :: 0 <= j < r.index ==> !Hits(AboveWithMargin, items[j], GapAt(gaps, j))) &&
            (r.location == Bottom && 0 <= r.index < |p.bottom.items| &&
             Hits(Below, p.bottom.items[r.index], GapAt(m.bottom, r.index)) ==>
               forall j :: r.index < j < |p.bottom.items| ==> !Hits(Below, p.bottom.items[j], GapAt(m.bottom, j)))
  {
  }

  /**
   * The margins one OnDragOver leaves: the top items are scanned
   * downwards and the first hit gets the gap above it, the top list gets
   * its bottom margin when nothing was hit and the pointer is near its end,
   * the middle items are scanned downwards, and the bottom items upwards,
   * each taking the gap only while nothing earlier has.
   */
  function DragOverMargins(p: Pointer, m: Margins): Margins {
    var topHit := FirstHit(AboveWithMargin, p.top.items, m.top, 0) < |p.top.items|;
    var topList := !topHit && p.top.y < p.top.height + Spacing;
    var afterTop := topHit || topList;
    var middleHit := FirstHit(AboveWithMargin, p.middle.items, m.middle, 0) < |p.middle.items|;
    var afterMiddle := afterTop || middleHit || p.middle.y < p.middle.height + Space(p) / 2.0;
    Margins(
      top := ScannedGaps(p.top.items, m.top, DownwardMark(AboveWithMargin, p.top.items, m.top, false), TopGap),
      middle := ScannedGaps(p.middle.items, m.middle, DownwardMark(AboveWithMargin, p.middle.items, m.middle, afterTop), TopGap),
      bottom := ScannedGaps(p.bottom.items, m.bottom, UpwardMark(Below, p.bottom.items, m.bottom, afterMiddle), BottomGap),
      topListGap := topList)
  }

  /**
   * The gap a drag-over shows is the slot the drop takes, for the same
   * pointer and layout, in both directions: a visible container gets a gap
   * exactly when the drop lands on its index (for the bottom list, on an
   * item the pointer is below), and the top list gets its margin exactly
   * when the drop lands on the top list's end slot.
   */
  lemma {:induction false} DragOverShowsDropSlot(p: Pointer, m: Margins)
    ensures var r := DropSlot(true, p, m);
            var m' := DragOverMargins(p, m);
            (forall i :: 0 <= i < |p.top.items| && p.top.items[i].visible ==>
               (m'.top[i] != NoGap <==> r == Slot(Top, i))) &&
            (m'.topListGap <==> r == Slot(Top, |p.top.items|)) &&
            (forall i :: 0 <= i < |p.middle.items| && p.middle.items[i].visible ==>
               (m'.middle[i] != NoGap <==> r == Slot(Middle, i))) &&
            (forall i :: 0 <= i < |p.bottom.items| && p.bottom.items[i].visible ==>
               (m'.bottom[i] != NoGap <==>
                  r == Slot(Bottom, i) && Hits(Below, p.bottom.items[i], GapAt(m.bottom, i))))
  {
    var r := DropSlot(true, p, m);
    var m' := DragOverMargins(p, m);
    var b := LastHit(Below, p.bottom.items, m.bottom, |p.bottom.items|);
    forall i | 0 <= i < |p.bottom.items| && p.bottom.items[i].visible
      ensures m'.bottom[i] != NoGap <==> r == Slot(Bottom, i) && Hits(Below, p.bottom.items[i], GapAt(m.bottom, i))
    {
      if r == Slot(Bottom, i) && Hits(Below, p.bottom.items[i], GapAt(m.bottom, i)) && b < 0 {
        assert false;
      }
    }
  }

  /** The drag data: a side bar button, or anything else. */
  datatype DragData<T> = ForeignData | ButtonData(button: ButtonDrag<T>)

  /**
   * What a drop reads of the dragged button: its DockLocation, its
   * DataContext, the button itself as a list element, its SideBar ancestor
   * and the ItemsSource of its ItemsControl ancestor when that is an IList.
   */
  datatype ButtonDrag<T> = ButtonDrag(
    dockLocation: Option<Flags>, dataContext: Option<T>, self: T,
    sourceBar: SideBar?<T>, sourceList: ToolList?<T>)

  /** The ButtonMove event a drop raises. */
  datatype MoveEvent<T> = MoveEvent(
    item: Option<T>, sourceLocation: Flags, destinationLocation: Flags, destinationIndex: int)

  datatype DropOutcome<T> = NoEvent | Raised(event: MoveEvent<T>, result: DropResult)

  /** The dragged button's source list, which a drop may change besides the side bar's own lists. */
  function DragList<T>(data: DragData<T>): set<ToolList?<T>> {
    if data.ForeignData? then {} else {data.button.sourceList}
  }

  /** The dragged button's side bar, whose divider a drop updates. */
  function DragBar<T>(data: DragData<T>): set<SideBar?<T>> {
    if data.ForeignData? then {} else {data.button.sourceBar}
  }

  /**
   * The destination a drop reports: the slot's section flag OR-ed into
   * the side bar's own Location. For a side bar on the left or the right,
   * this is a named enum value on that side, in the dropped-on section.
   */
  lemma DestinationIsNamed(section: Flags, side: Flags)
    requires section == Top || section == Middle || section == Bottom
    requires side == Left || side == Right
    ensures section | side in Named
    ensures HasFlag(section | side, side)
    ensures HasFlag(section | side, Top) <==> section == Top
    ensures HasFlag(section | side, Bottom) <==> section == Bottom
  {
  }

  /**
   * The body of OnDragOver once its guards pass: the top scan, the top
   * list's end, the middle scan, the middle list's end and the bottom scan,
   * threaded through the handled flag.
   */
  method DragOverScan(p: Pointer, m: Margins) returns (r: Margins)
    ensures r == DragOverMargins(p, m)
  {
    var top, handled := ScanDown(p.top.items, m.top, false);
    var topList := false;
    if p.top.y < p.top.height + Spacing && !handled {
      topList := true;
      handled := true;
    }
    var middle;
    middle, handled := ScanDown(p.middle.items, m.middle, handled);
    if p.middle.y < p.middle.height + Space(p) / 2.0 && !handled {
      handled := true;
    }
    var bottom;
    bottom, handled := ScanUp(p.bottom.items, m.bottom, handled);
    r := Margins(top, middle, bottom, topList);
  }

  /**
   * The part of OnDrop after the guards: raise the ButtonMove event and,
   * unless a listener handled it, move the element between the lists.
   */
  method RaiseMove<T(==)>(b: ButtonDrag<T>, destination: Flags, index: int, dst: ToolList<T>,
                          listenerHandles: bool) returns (outcome: DropOutcome<T>)
    requires b.dockLocation.Some?
    modifies b.sourceList, dst
    ensures outcome.Raised?
    ensures outcome.event == MoveEvent(b.dataContext, b.dockLocation.value, destination, index)
    ensures listenerHandles ==> outcome.result == HandledByListener
    ensures outcome.result.Touched() ==>
              var src := b.sourceList;
              src != null && MovedElement(b.dataContext, b.self, old(src.items)).Some? &&
              var r := TransferItem(old(src.items), old(dst.items), src == dst,
                                    MovedElement(b.dataContext, b.self, old(src.items)).value, index);
              src.items == r.source && dst.items == r.destination && (outcome.result == Moved <==> r.Transferred?)
    ensures !outcome.result.Touched() ==> unchanged(dst) && (b.sourceList != null ==> unchanged(b.sourceList))
  {
    var event := MoveEvent(b.dataContext, b.dockLocation.value, destination, index);
    if listenerHandles {
      return Raised(event, HandledByListener);
    }
    var result := MoveItem(b.sourceList, b.dataContext, b.self, dst, index);
    outcome := Raised(event, result);
  }

  /**
   * When the section's containers are its list's items, a drop at a found
   * slot into another list always completes, while a drop into the dragged
   * item's own list completes only below the end slot: the end slot still
   * counts the item, and the Insert throws after its removal.
   */
  lemma FoundSlotTransferCompletes<T>(applied: bool, p: Pointer, m: Margins,
                                      source: seq<T>, destination: seq<T>, sameList: bool, x: T)
    requires x in source && (sameList ==> source == destination)
    requires DropSlot(applied, p, m).index >= 0
    requires |SectionOf(p, DropSlot(applied, p, m).location).items| == |destination|
    ensures var r := DropSlot(applied, p, m);
            var t := TransferItem(source, destination, sameList, x, r.index);
            (!sameList ==> t.Transferred?) &&
            (sameList ==> (t.Transferred? <==> r.index < |destination|)) &&
            (sameList && r.index == |destination| ==> t.InsertOutOfRange?)
  {
    var r := DropSlot(applied, p, m);
    DropSlotInRange(applied, p, m);
    TransferCompletesIff(source, destination, sameList, x, r.index);
  }

  class SideBar<T(==)> {
    /** The side bar's own Location (Left or Right in a window). */
    const location: Flags
    /** OnApplyTemplate has found every template part (it throws when one is missing). */
    var templateApplied: bool
    const topSource: ToolList<T>
    const toolsSource: ToolList<T>
    const bottomSource: ToolList<T>
    var dividerVisible: bool
    var gridHitTestVisible: bool
    /** The drag ghost and the adorner layer holding it. */
    var hasGhost: bool
    var hasLayer: bool
    var margins: Margins

    constructor (location: Flags, top: ToolList<T>, tools: ToolList<T>, bottom: ToolList<T>)
      ensures this.location == location && !templateApplied
      ensures topSource == top && toolsSource == tools && bottomSource == bottom
      ensures dividerVisible && gridHitTestVisible && !hasGhost && !hasLayer
      ensures margins == Margins([], [], [], false)
    {
      this.location := location;
      templateApplied := false;
      topSource := top;
      toolsSource := tools;
      bottomSource := bottom;
      dividerVisible := true;
      gridHitTestVisible := true;
      hasGhost := false;
      hasLayer := false;
      margins := Margins([], [], [], false);
    }

    function Sources(): set<ToolList<T>>
    {
      {topSource, toolsSource, bottomSource}
    }

    /** The list a drop into a section inserts into: Top and Bottom have their own, anything else is the middle list. */
    function SourceFor(section: Flags): (r: ToolList<T>)
      ensures r in Sources()
      ensures r == topSource <== section == Top
      ensures r == bottomSource <== section == Bottom
      ensures r == toolsSource <== section != Top && section != Bottom
    {
      if section == Top then topSource else if section == Bottom then bottomSource else toolsSource
    }

    /** The item containers the pointer geometry holds for each section are those of its list's items. */
    predicate CountsMatch(p: Pointer)
      reads topSource, toolsSource, bottomSource
    {
      |p.top.items| == |topSource.items| && |p.middle.items| == |toolsSource.items| &&
      |p.bottom.items| == |bottomSource.items|
    }

    /** The divider rule: with the template parts, the divider shows when the top and middle lists are both non-empty. */
    predicate DividerCurrent()
      reads this, topSource, toolsSource
    {
      templateApplied ==> dividerVisible == (|topSource.items| > 0 && |toolsSource.items| > 0)
    }

    method UpdateDividerVisibility()
      modifies this`dividerVisible
      ensures DividerCurrent()
      ensures !templateApplied ==> unchanged(this)
    {
      if templateApplied {
        dividerVisible := |topSource.items| > 0 && |toolsSource.items| > 0;
      }
    }

    /** OnApplyTemplate: the parts are found; the divider keeps its state until the next update. */
    method ApplyTemplate()
      modifies this`templateApplied
      ensures templateApplied
    {
      templateApplied := true;
    }

    /** DetermineLocation: the six blocks in order, each item block running its loop. */
    method DetermineLocation(p: Pointer) returns (slot: Slot)
      ensures slot == DropSlot(templateApplied, p, margins)
    {
      if !templateApplied {
        return NoSlot;
      }
      var t := FindFirstHit(AboveWithMargin, p.top.items, margins.top);
      if t < |p.top.items| {
        return Slot(Top, t);
      }
      if p.top.y < p.top.height + Spacing {
        return Slot(Top, |p.top.items|);
      }
      var k := FindFirstHit(AboveWithMargin, p.middle.items, margins.middle);
      if k < |p.middle.items| {
        return Slot(Middle, k);
      }
      var space := Space(p);
      if p.middle.y < p.middle.height + space / 2.0 {
        return Slot(Middle, |p.middle.items|);
      }
      var b := FindLastHit(Below, p.bottom.items, margins.bottom);
      if b >= 0 {
        return Slot(Bottom, b);
      }
      if p.bottom.y < p.bottom.height + space / 2.0 {
        return Slot(Bottom, 0);
      }
      return NoSlot;
    }

    /**
     * OnDragOver: with the template parts and a side bar button, the grid
     * stops hit-testing and the three sections are scanned. The ghost is
     * placed through the adorner layer whenever a gap is given, so a layer
     * must exist.
     */
    method OnDragOver(isButtonData: bool, p: Pointer)
      requires templateApplied && isButtonData ==> hasLayer && hasGhost
      modifies this`gridHitTestVisible, this`margins
      ensures var active := templateApplied && isButtonData;
              margins == (if active then DragOverMargins(p, old(margins)) else old(margins)) &&
              gridHitTestVisible == (if active then false else old(gridHitTestVisible))
    {
      if !templateApplied || !isButtonData {
        return;
      }
      gridHitTestVisible := false;
      margins := DragOverScan(p, margins);
    }

    /**
     * OnDragEnter: for a side bar button, stop grid hit-testing and show
     * the divider (both only with the template parts), create the ghost,
     * look up the adorner layer, then run a drag-over.
     */
    method OnDragEnter(isButtonData: bool, layerFound: bool, p: Pointer)
      requires templateApplied && isButtonData ==> layerFound
      modifies this`gridHitTestVisible, this`margins, this`dividerVisible, this`hasGhost, this`hasLayer
      ensures !isButtonData ==> unchanged(this)
      ensures isButtonData ==>
        hasGhost && hasLayer == layerFound &&
        (templateApplied ==> !gridHitTestVisible && dividerVisible && margins == DragOverMargins(p, old(margins))) &&
        (!templateApplied ==> gridHitTestVisible == old(gridHitTestVisible) && dividerVisible == old(dividerVisible) &&
                              margins == old(margins))
    {
      if !isButtonData {
        return;
      }
      if templateApplied {
        gridHitTestVisible := false;
        dividerVisible := true;
      }
      hasGhost := true;
      hasLayer := layerFound;
      OnDragOver(isButtonData, p);
    }

    /** The margins drag-leave leaves: every container and the top list back to the default. */
    static function Cleared(m: Margins): (r: Margins)
      ensures |r.top| == |m.top| && |r.middle| == |m.middle| && |r.bottom| == |m.bottom|
      ensures forall i :: 0 <= i < |r.top| ==> r.top[i] == NoGap
      ensures forall i :: 0 <= i < |r.middle| ==> r.middle[i] == NoGap
      ensures forall i :: 0 <= i < |r.bottom| ==> r.bottom[i] == NoGap
      ensures !r.topListGap
    {
      Margins(seq(|m.top|, _ => NoGap), seq(|m.middle|, _ => NoGap), seq(|m.bottom|, _ => NoGap), false)
    }

    /**
     * OnDragLeave: for a side bar button with the template parts present,
     * restore grid hit-testing, reset every margin, update the divider, and
     * drop the ghost when both the ghost and the layer exist.
     */
    method OnDragLeave(isButtonData: bool)
      modifies this`gridHitTestVisible, this`margins, this`dividerVisible, this`hasGhost, this`hasLayer
      ensures !(old(templateApplied) && isButtonData) ==> unchanged(this)
      ensures old(templateApplied) && isButtonData ==>
        margins == Cleared(old(margins)) && gridHitTestVisible && DividerCurrent() &&
        (hasGhost, hasLayer) == (if old(hasGhost && hasLayer) then (false, false) else old((hasGhost, hasLayer)))
    {
      if !templateApplied || !isButtonData {
        return;
      }
      gridHitTestVisible := true;
      margins := Cleared(margins);
      UpdateDividerVisibility();
      if hasGhost && hasLayer {
        hasLayer := false;
        hasGhost := false;
      }
    }

    /**
     * OnDrop: find the slot with the margins of the last drag-over, run
     * the drag-leave, finish the drop at that slot, and update the divider
     * of this side bar and of the button's side bar.
     */
    method OnDrop(p: Pointer, data: DragData<T>, listenerHandles: bool) returns (slot: Slot, outcome: DropOutcome<T>)
      modifies this`gridHitTestVisible, this`margins, this`dividerVisible, this`hasGhost, this`hasLayer
      modifies DragBar(data)`dividerVisible, DragList(data), topSource, toolsSource, bottomSource
      ensures slot == old(DropSlot(templateApplied, p, margins))
      ensures outcome.Raised? <==>
                data.ButtonData? && data.button.dockLocation.Some? && slot.index >= 0 && data.button.sourceBar != null
      ensures outcome.Raised? ==>
                outcome.event == MoveEvent(data.button.dataContext, data.button.dockLocation.value,
                                           slot.location | location, slot.index)
      ensures outcome.Raised? && listenerHandles ==> outcome.result == HandledByListener
      ensures outcome.Raised? && outcome.result.Touched() ==>
                var src := data.button.sourceList;
                var dst := SourceFor(slot.location);
                src != null && MovedElement(data.button.dataContext, data.button.self, old(src.items)).Some? &&
                var r := TransferItem(old(src.items), old(dst.items), src == dst,
                                      MovedElement(data.button.dataContext, data.button.self, old(src.items)).value,
                                      slot.index);
                src.items == r.source && dst.items == r.destination &&
                (outcome.result == Moved <==> r.Transferred?)
      ensures forall l :: l in Sources() && l != SourceFor(slot.location) &&
                          (data.ForeignData? || l != data.button.sourceList)
                 ==> l.items == old(l.items)
      ensures !(outcome.Raised? && outcome.result.Touched()) ==>
                unchanged(topSource, toolsSource, bottomSource) &&
                (data.ButtonData? && data.button.sourceList != null ==> unchanged(data.button.sourceList))
      ensures old(CountsMatch(p)) && outcome.Raised? && outcome.result.Touched() ==>
                (outcome.result == Moved <==>
                   data.button.sourceList != SourceFor(slot.location) || slot.index < |old(SourceFor(slot.location).items)|)
      ensures DividerCurrent()
      ensures outcome.Raised? ==> data.button.sourceBar.DividerCurrent()
    {
      DropSlotInRange(templateApplied, p, margins);
      slot := DetermineLocation(p);
      if CountsMatch(p) {
        assert |SectionOf(p, slot.location).items| == |SourceFor(slot.location).items|;
      }
      OnDragLeave(data.ButtonData?);
      assert unchanged(topSource, toolsSource, bottomSource);
      assert data.ButtonData? && data.button.sourceList != null ==> unchanged(data.button.sourceList);
      outcome := DropAt(slot, data, listenerHandles);
      label dropped:
      RefreshDividers(if outcome.Raised? then data.button.sourceBar else null);
      assert unchanged@dropped(topSource, toolsSource, bottomSource);
      assert data.ButtonData? && data.button.sourceList != null ==> unchanged@dropped(data.button.sourceList);
    }

    /** The end of OnDrop: this side bar and the dragged button's side bar update their dividers. */
    method RefreshDividers(other: SideBar?<T>)
      modifies this`dividerVisible, {other}`dividerVisible
      ensures DividerCurrent()
      ensures other != null ==> other.DividerCurrent()
    {
      UpdateDividerVisibility();
      if other != null {
        other.UpdateDividerVisibility();
      }
    }

    /**
     * The rest of OnDrop: for a side bar button with a DockLocation, a slot
     * and a SideBar ancestor, raise the ButtonMove event with the slot's
     * section OR-ed into this side bar's Location; when no listener marks
     * it Handled and both ItemsSources are ILists, move the element into
     * the section's list at the slot index.
     */
    method DropAt(slot: Slot, data: DragData<T>, listenerHandles: bool) returns (outcome: DropOutcome<T>)
      modifies DragList(data), topSource, toolsSource, bottomSource
      ensures outcome.Raised? <==>
                data.ButtonData? && data.button.dockLocation.Some? && slot.index >= 0 && data.button.sourceBar != null
      ensures outcome.Raised? ==>
                outcome.event == MoveEvent(data.button.dataContext, data.button.dockLocation.value,
                                           slot.location | location, slot.index)
      ensures outcome.Raised? && listenerHandles ==> outcome.result == HandledByListener
      ensures outcome.Raised? && outcome.result.Touched() ==>
                var src := data.button.sourceList;
                var dst := SourceFor(slot.location);
                src != null && MovedElement(data.button.dataContext, data.button.self, old(src.items)).Some? &&
                var r := TransferItem(old(src.items), old(dst.items), src == dst,
                                      MovedElement(data.button.dataContext, data.button.self, old(src.items)).value,
                                      slot.index);
                src.items == r.source && dst.items == r.destination &&
                (outcome.result == Moved <==> r.Transferred?)
      ensures forall l :: l in Sources() && l != SourceFor(slot.location) &&
                          (data.ForeignData? || l != data.button.sourceList)
                 ==> l.items == old(l.items)
      ensures !(outcome.Raised? && outcome.result.Touched()) ==>
                unchanged(topSource, toolsSource, bottomSource) &&
                (data.ButtonData? && data.button.sourceList != null ==> unchanged(data.button.sourceList))
      ensures outcome.Raised? && outcome.result.Touched() && slot.index <= |old(SourceFor(slot.location).items)| ==>
                (outcome.result == Moved <==>
                   data.button.sourceList != SourceFor(slot.location) || slot.index < |old(SourceFor(slot.location).items)|)
    {
      outcome := NoEvent;
      if data.ButtonData? && data.button.dockLocation.Some? && slot.index >= 0 && data.button.sourceBar != null {
        var dst := SourceFor(slot.location);
        outcome := RaiseMove(data.button, slot.location | location, slot.index, dst, listenerHandles);
        if outcome.result.Touched() {
          var src := data.button.sourceList;
          TransferCompletesIff(old(src.items), old(dst.items), src == dst,
                               MovedElement(data.button.dataContext, data.button.self, old(src.items)).value, slot.index);
        }
      }
    }
  }
}
