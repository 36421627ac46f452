/**
 * SideBarButton: the toggle button that stands for one tool window in a side
 * bar. It tags itself with the dock location of the list that holds it, and a
 * press followed by a long enough move starts a drag of the button.
 *
 * Visual-tree lookups (the parent list's name, the side bar's side, whether a
 * ReDockHost is an ancestor, whether the parent is a ContentPresenter) and the
 * pointer positions are inputs. The asynchronous DragDrop.DoDragDrop is split
 * in two: OnPointerMoved starts the drag, OnDragCompleted runs once it returns.
 */
module Buttons {
  import opened Common
  import Locations

  /** A pointer position relative to the button. */
  datatype Point = Point(x: real, y: real)

  /** The button location named by the parent list: the four PART_*Tools names, anything else (or no list) UpperTop, the enum's default. */
  function ButtonLocationOf(listName: Option<string>): (r: Locations.SideBarButtonLocation)
    ensures r == Locations.UpperBottom <==> listName == Some("PART_UpperBottomTools")
    ensures r == Locations.LowerTop <==> listName == Some("PART_LowerTopTools")
    ensures r == Locations.LowerBottom <==> listName == Some("PART_LowerBottomTools")
    ensures r == Locations.UpperTop <==>
      listName != Some("PART_UpperBottomTools") && listName != Some("PART_LowerTopTools") && listName != Some("PART_LowerBottomTools")
  {
    match listName
    case Some("PART_UpperTopTools") => Locations.UpperTop
    case Some("PART_UpperBottomTools") => Locations.UpperBottom
    case Some("PART_LowerTopTools") => Locations.LowerTop
    case Some("PART_LowerBottomTools") => Locations.LowerBottom
    case _ => Locations.UpperTop
  }

  /** Every list name a side bar template uses gives the section that list shows. */
  lemma SectionListsTagTheirSection(loc: Locations.SideBarButtonLocation)
    ensures ButtonLocationOf(Some(ListName(loc))) == loc
  {
  }

  /** The template part name of the list showing a section. */
  function ListName(loc: Locations.SideBarButtonLocation): string {
    match loc
    case UpperTop => "PART_UpperTopTools"
    case UpperBottom => "PART_UpperBottomTools"
    case LowerTop => "PART_LowerTopTools"
    case LowerBottom => "PART_LowerBottomTools"
  }

  /** A move starts a drag when it goes strictly more than a quarter of the button height from the press point along some axis. */
  predicate BeyondThreshold(start: Point, point: Point, height: real) {
    Abs(point.x - start.x) > height / 4.0 || Abs(point.y - start.y) > height / 4.0
  }

  /** A move that stays within a quarter of the height on both axes never starts a drag; in particular no move back onto the press point does. */
  lemma WithinThresholdNeverStarts(start: Point, point: Point, height: real)
    requires -height / 4.0 <= point.x - start.x <= height / 4.0
    requires -height / 4.0 <= point.y - start.y <= height / 4.0
    ensures !BeyondThreshold(start, point, height)
  {
  }

  /** A visibility that exists only when the parent is a ContentPresenter, set to v when it does. */
  function SetIfPresent(p: Option<bool>, v: bool): (r: Option<bool>)
    ensures r.Some? <==> p.Some?
    ensures r.Some? ==> r.value == v
  {
    if p.Some? then Some(v) else None
  }

  class SideBarButton {
    /** The press armed a drag that no move or release has used up yet. */
    var canDrag: bool
    var startPoint: Point
    var dockLocation: Option<Locations.DockAreaLocation>
    var isVisible: bool
    /** The visibility of the ContentPresenter that holds the button, when the parent is one. */
    var presenterVisible: Option<bool>
    /** A drag of this button is in progress. */
    var dragging: bool

    constructor (parentIsPresenter: bool)
      ensures !canDrag && dockLocation.None? && isVisible && !dragging
      ensures presenterVisible == (if parentIsPresenter then Some(true) else None)
    {
      canDrag := false;
      startPoint := Point(0.0, 0.0);
      dockLocation := None;
      isVisible := true;
      presenterVisible := if parentIsPresenter then Some(true) else None;
      dragging := false;
    }

    /** OnAttachedToVisualTree: with a SideBar ancestor, the location becomes (the list's section, the side bar's side); without one it is left as it was. */
    method OnAttachedToVisualTree(listName: Option<string>, sideBarLocation: Option<Locations.SideBarLocation>)
      modifies this`dockLocation
      ensures sideBarLocation.Some? ==>
        dockLocation == Some(Locations.DockAreaLocation(ButtonLocationOf(listName), sideBarLocation.value))
      ensures sideBarLocation.None? ==> dockLocation == old(dockLocation)
    {
      var l := ButtonLocationOf(listName);
      if sideBarLocation.Some? {
        dockLocation := Some(Locations.DockAreaLocation(l, sideBarLocation.value));
      }
    }

    /** OnDetachedFromVisualTree: the location is forgotten. */
    method OnDetachedFromVisualTree()
      modifies this`dockLocation
      ensures dockLocation.None?
    {
      dockLocation := None;
    }

    /** OnPointerPressed: a right-button press asks the host for the flyout and does not arm; any other press arms and records the press point. */
    method OnPointerPressed(rightButton: bool, position: Point, hostFound: bool) returns (flyoutShown: bool)
      modifies this`canDrag, this`startPoint
      ensures flyoutShown <==> rightButton && hostFound
      ensures rightButton ==> canDrag == old(canDrag) && startPoint == old(startPoint)
      ensures !rightButton ==> canDrag && startPoint == position
    {
      if rightButton {
        flyoutShown := hostFound;
      } else {
        flyoutShown := false;
        canDrag := true;
        startPoint := position;
      }
    }

    /** OnPointerReleased: disarms. */
    method OnPointerReleased()
      modifies this`canDrag
      ensures !canDrag
    {
      canDrag := false;
    }

    /**
     * OnPointerMoved: an armed button whose pointer has gone past the threshold
     * disarms, hides itself and its presenter, and starts a drag carrying the
     * "SideBarButton" data; any other move changes nothing.
     */
    method OnPointerMoved(point: Point, height: real) returns (started: bool)
      modifies this`canDrag, this`isVisible, this`presenterVisible, this`dragging
      ensures started <==> old(canDrag) && BeyondThreshold(startPoint, point, height)
      ensures started ==> !canDrag && !isVisible && presenterVisible == SetIfPresent(old(presenterVisible), false) && dragging
      ensures !started ==>
        (canDrag == old(canDrag) && isVisible == old(isVisible)
         && presenterVisible == old(presenterVisible) && dragging == old(dragging))
    {
      started := false;
      if canDrag {
        var threshold := height / 4.0;
        if !(Abs(point.x - startPoint.x) > threshold) && !(Abs(point.y - startPoint.y) > threshold) {
          return;
        }
        canDrag := false;
        isVisible := false;
        presenterVisible := SetIfPresent(presenterVisible, false);
        dragging := true;
        started := true;
      }
    }

    /** The awaited DoDragDrop has returned: the button and its presenter are shown again. */
    method OnDragCompleted()
      requires dragging
      modifies this`isVisible, this`presenterVisible, this`dragging
      ensures isVisible && !dragging
      ensures presenterVisible == SetIfPresent(old(presenterVisible), true)
    {
      isVisible := true;
      presenterVisible := SetIfPresent(presenterVisible, true);
      dragging := false;
    }
  }
}
