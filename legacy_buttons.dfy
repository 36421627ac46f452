/**
 * The legacy buttons: a SideBarButton tagged with [Flags] dock locations, and
 * the EdgeBarButton, which starts a drag on the first move after a press.
 *
 * As for the current button, the visual-tree lookups and pointer positions
 * are inputs, and the awaited DoDragDrop is split into a start and a
 * completion.
 */
module LegacyButtons {
  import opened Common
  import LegacyLocations
  import Buttons

  /** The flag named by the parent list: PART_TopTools gives Top, PART_BottomTools Bottom, anything else (or no list) 0. */
  function ListFlag(listName: Option<string>): (r: LegacyLocations.Flags)
    ensures r == LegacyLocations.Top <==> listName == Some("PART_TopTools")
    ensures r == LegacyLocations.Bottom <==> listName == Some("PART_BottomTools")
    ensures r == 0 <==> listName != Some("PART_TopTools") && listName != Some("PART_BottomTools")
  {
    match listName
    case Some("PART_TopTools") => LegacyLocations.Top
    case Some("PART_BottomTools") => LegacyLocations.Bottom
    case _ => 0
  }

  /** The DockLocation of a button in a side bar at the given side: the side OR the list's flag. */
  function DockLocationOf(side: LegacyLocations.Flags, listName: Option<string>): LegacyLocations.Flags {
    side | ListFlag(listName)
  }

  /**
   * In a Left or Right side bar a button's location is a named enum value: the
   * side itself in the middle list, the matching corner in the top and bottom
   * lists.
   */
  lemma DockLocationsAreNamed(side: LegacyLocations.Flags, listName: Option<string>)
    requires side == LegacyLocations.Left || side == LegacyLocations.Right
    ensures DockLocationOf(side, listName) in LegacyLocations.Named
    ensures ListFlag(listName) == 0 ==> DockLocationOf(side, listName) == side
    ensures listName == Some("PART_TopTools") ==>
      DockLocationOf(side, listName) == (if side == LegacyLocations.Left then LegacyLocations.TopLeft else LegacyLocations.TopRight)
    ensures listName == Some("PART_BottomTools") ==>
      DockLocationOf(side, listName) == (if side == LegacyLocations.Left then LegacyLocations.BottomLeft else LegacyLocations.BottomRight)
  {
    var l := ListFlag(listName);
    assert l == 0 || l == LegacyLocations.Top || l == LegacyLocations.Bottom;
    assert LegacyLocations.Named[0] == LegacyLocations.Left && LegacyLocations.Named[2] == LegacyLocations.Right;
    assert LegacyLocations.Named[4] == LegacyLocations.TopLeft && LegacyLocations.Named[5] == LegacyLocations.BottomLeft;
    assert LegacyLocations.Named[6] == LegacyLocations.TopRight && LegacyLocations.Named[7] == LegacyLocations.BottomRight;
  }

  class SideBarButton {
    var canDrag: bool
    var startPoint: Buttons.Point
    var dockLocation: Option<LegacyLocations.Flags>
    var isVisible: bool
    var presenterVisible: Option<bool>
    var dragging: bool

    constructor (parentIsPresenter: bool)
      ensures !canDrag && dockLocation.None? && isVisible && !dragging
      ensures presenterVisible == (if parentIsPresenter then Some(true) else None)
    {
      canDrag := false;
      startPoint := Buttons.Point(0.0, 0.0);
      dockLocation := None;
      isVisible := true;
      presenterVisible := if parentIsPresenter then Some(true) else None;
      dragging := false;
    }

    /** OnAttachedToVisualTree: with a SideBar ancestor the location becomes the side bar's Location OR the list's flag; without one it is left as it was. */
    method OnAttachedToVisualTree(listName: Option<string>, sideBarLocation: Option<LegacyLocations.Flags>)
      modifies this`dockLocation
      ensures sideBarLocation.Some? ==> dockLocation == Some(DockLocationOf(sideBarLocation.value, listName))
      ensures sideBarLocation.None? ==> dockLocation == old(dockLocation)
    {
      var l := ListFlag(listName);
      if sideBarLocation.Some? {
        dockLocation := Some(sideBarLocation.value | l);
      }
    }

    method OnDetachedFromVisualTree()
      modifies this`dockLocation
      ensures dockLocation.None?
    {
      dockLocation := None;
    }

    /** OnPointerPressed: a right-button press asks the host for the flyout and does not arm; any other press arms and records the press point. */
    method OnPointerPressed(rightButton: bool, position: Buttons.Point, hostFound: bool) returns (flyoutShown: bool)
      modifies this`canDrag, this`startPoint
      ensures flyoutShown <==> rightButton && hostFound
      ensures rightButton ==> canDrag == old(canDrag) && startPoint == old(startPoint)
      ensures !rightButton ==> canDrag && startPoint == position
    {
      if rightButton {
        flyoutShown := hostFound;
      } else {
        flyoutShown := false;
        canDrag := true;
        startPoint := position;
      }
    }

    method OnPointerReleased()
      modifies this`canDrag
      ensures !canDrag
    {
      canDrag := false;
    }

    /** OnPointerMoved: past a quarter of the height from the press point an armed button disarms, hides and starts the drag. */
    method OnPointerMoved(point: Buttons.Point, height: real) returns (started: bool)
      modifies this`canDrag, this`isVisible, this`presenterVisible, this`dragging
      ensures started <==> old(canDrag) && Buttons.BeyondThreshold(startPoint, point, height)
      ensures started ==> !canDrag && !isVisible && presenterVisible == Buttons.SetIfPresent(old(presenterVisible), false) && dragging
      ensures !started ==>
        (canDrag == old(canDrag) && isVisible == old(isVisible)
         && presenterVisible == old(presenterVisible) && dragging == old(dragging))
    {
      started := false;
      if canDrag {
        var threshold := height / 4.0;
        if !(Abs(point.x - startPoint.x) > threshold) && !(Abs(point.y - startPoint.y) > threshold) {
          return;
        }
        canDrag := false;
        isVisible := false;
        presenterVisible := Buttons.SetIfPresent(presenterVisible, false);
        dragging := true;
        started := true;
      }
    }

    method OnDragCompleted()
      requires dragging
      modifies this`isVisible, this`presenterVisible, this`dragging
      ensures isVisible && !dragging
      ensures presenterVisible == Buttons.SetIfPresent(old(presenterVisible), true)
    {
      isVisible := true;
      presenterVisible := Buttons.SetIfPresent(presenterVisible, true);
      dragging := false;
    }
  }

  /** The section of an edge bar that holds a button. */
  datatype EdgeBarButtonLocation = Top | Middle | Bottom

  /** The section named by the parent list: PART_TopTools, PART_Tools and PART_BottomTools; anything else (or no list) none. */
  function EdgeLocationOf(listName: Option<string>): (r: Option<EdgeBarButtonLocation>)
    ensures r == Some(Top) <==> listName == Some("PART_TopTools")
    ensures r == Some(Middle) <==> listName == Some("PART_Tools")
    ensures r == Some(Bottom) <==> listName == Some("PART_BottomTools")
  {
    match listName
    case Some("PART_TopTools") => Some(Top)
    case Some("PART_Tools") => Some(Middle)
    case Some("PART_BottomTools") => Some(Bottom)
    case _ => None
  }

  /** The EdgeBarButton; E is the EdgeBar's location type. */
  class EdgeBarButton<E> {
    var canDrag: bool
    var location: Option<EdgeBarButtonLocation>
    var edgeBarLocation: Option<E>
    var isVisible: bool
    var presenterVisible: Option<bool>
    /** ToolTip.SetServiceEnabled on this button. */
    var toolTipEnabled: bool
    var dragging: bool

    constructor (parentIsPresenter: bool)
      ensures !canDrag && location.None? && edgeBarLocation.None? && isVisible && toolTipEnabled && !dragging
      ensures presenterVisible == (if parentIsPresenter then Some(true) else None)
    {
      canDrag := false;
      location := None;
      edgeBarLocation := None;
      isVisible := true;
      presenterVisible := if parentIsPresenter then Some(true) else None;
      toolTipEnabled := true;
      dragging := false;
    }

    /** OnAttachedToVisualTree: the section comes from the list's name, the edge bar location from the EdgeBar ancestor (none without one). */
    method OnAttachedToVisualTree(listName: Option<string>, edgeBar: Option<E>)
      modifies this`location, this`edgeBarLocation
      ensures location == EdgeLocationOf(listName)
      ensures edgeBarLocation == edgeBar
    {
      location := EdgeLocationOf(listName);
      edgeBarLocation := edgeBar;
    }

    /** OnDetachedFromVisualTree: clears the section only; the edge bar location stays. */
    method OnDetachedFromVisualTree()
      modifies this`location
      ensures location.None?
    {
      location := None;
    }

    /** OnPointerPressed: any press arms. */
    method OnPointerPressed()
      modifies this`canDrag
      ensures canDrag
    {
      canDrag := true;
    }

    method OnPointerReleased()
      modifies this`canDrag
      ensures !canDrag
    {
      canDrag := false;
    }

    /** OnPointerMoved: the first move of an armed button disarms it, turns its tooltip off, hides it and its presenter and starts the drag, with no distance threshold. */
    method OnPointerMoved() returns (started: bool)
      modifies this`canDrag, this`isVisible, this`presenterVisible, this`toolTipEnabled, this`dragging
      ensures started == old(canDrag)
      ensures started ==>
        (!canDrag && !isVisible && !toolTipEnabled && dragging
         && presenterVisible == Buttons.SetIfPresent(old(presenterVisible), false))
      ensures !started ==>
        (isVisible == old(isVisible) && toolTipEnabled == old(toolTipEnabled)
         && presenterVisible == old(presenterVisible) && dragging == old(dragging) && !canDrag)
    {
      started := canDrag;
      if canDrag {
        canDrag := false;
        toolTipEnabled := false;
        isVisible := false;
        presenterVisible := Buttons.SetIfPresent(presenterVisible, false);
        dragging := true;
      }
    }

    /** The awaited DoDragDrop has returned: the tooltip is enabled again and the button and its presenter are shown. */
    method OnDragCompleted()
      requires dragging
      modifies this`isVisible, this`presenterVisible, this`toolTipEnabled, this`dragging
      ensures isVisible && toolTipEnabled && !dragging
      ensures presenterVisible == Buttons.SetIfPresent(old(presenterVisible), true)
    {
      toolTipEnabled := true;
      isVisible := true;
      presenterVisible := Buttons.SetIfPresent(presenterVisible, true);
      dragging := false;
    }
  }
}
