/**
 * DockAreaDragDropBehavior: attached to a dock-area view, it shows a
 * translucent ghost over the dock area the pointer hovers while a button
 * is dragged, and on drop raises one move event for the first hovered
 * area that has a bar. The side-bar variant reacts to "SideBarButton"
 * data, the legacy variant to "EdgeBarButton" data; they are otherwise the
 * same, so one class with the data key as a constant models both.
 */
module DockAreaDragDrop {
  import opened Common

  const SideBarButtonKey: string := "SideBarButton"
  const EdgeBarButtonKey: string := "EdgeBarButton"

  /** One entry of the areas snapshot GetArea returns: a dock area and its content presenter. */
  datatype Area<L> = Area(
    hasArea: bool,            // the DockArea is not null
    hasPresenter: bool,       // the presenter control is not null
    hasBar: bool,             // the DockArea's bar is not null
    location: L,              // the DockArea's Location
    childVisible: Option<bool>) // IsChildVisible() when the control is a ContentPresenter

  /** The dragged button found under the data key: its dock location, data context and whether a bar contains it. */
  datatype Button<L, T> = Button(dockLocation: Option<L>, dataContext: T, insideBar: bool)

  /**
   * A drag event: the data formats present, the object stored under the
   * key (None when it is not a button of the expected type), and the
   * indices of the areas whose presenter bounds contain the pointer.
   */
  datatype DragEvent<L, T> = DragEvent(formats: set<string>, button: Option<Button<L, T>>, inside: set<nat>)

  /** The move event a drop raises; the destination bar is the one of area destinationArea. */
  datatype MoveEvent<L, T> = MoveEvent(item: T, sourceLocation: L, destinationArea: nat,
                                       destinationLocation: L, destinationIndex: int)

  datatype Handler = DropHandler | DragEnterHandler | DragOverHandler | DragLeaveHandler

  const AllHandlers: multiset<Handler> := multiset{DropHandler, DragEnterHandler, DragOverHandler, DragLeaveHandler}

  /**
   * HoverContentPresenter: false when the presenter is a content presenter
   * whose child is not visible, false when the pointer is outside the
   * presenter's own bounds, true otherwise.
   */
  predicate Hovered<L>(area: Area<L>, inside: bool) {
    area.childVisible != Some(false) && inside
  }

  /** An area the drag-over scan looks at: both the area and its presenter are present. */
  predicate Scanned<L>(area: Area<L>) {
    area.hasArea && area.hasPresenter
  }

  /** An area a drop can target: present, with a presenter and a bar. */
  predicate Targetable<L>(area: Area<L>) {
    area.hasArea && area.hasPresenter && area.hasBar
  }

  /** The first scanned area from i on that is hovered. */
  function FirstHover<L>(areas: seq<Area<L>>, inside: set<nat>, i: nat): (r: Option<nat>)
    requires i <= |areas|
    ensures r.Some? ==> i <= r.value < |areas| && Scanned(areas[r.value]) && Hovered(areas[r.value], r.value in inside)
    ensures r.Some? ==> forall j :: i <= j < r.value && Scanned(areas[j]) ==> !Hovered(areas[j], j in inside)
    ensures r.None? ==> forall j :: i <= j < |areas| && Scanned(areas[j]) ==> !Hovered(areas[j], j in inside)
    decreases |areas| - i
  {
    if i == |areas| then None
    else if Scanned(areas[i]) && Hovered(areas[i], i in inside) then Some(i)
    else FirstHover(areas, inside, i + 1)
  }

  /** The first targetable area from i on that is hovered. */
  function FirstTarget<L>(areas: seq<Area<L>>, inside: set<nat>, i: nat): (r: Option<nat>)
    requires i <= |areas|
    ensures r.Some? ==> i <= r.value < |areas| && Targetable(areas[r.value]) && Hovered(areas[r.value], r.value in inside)
    ensures r.Some? ==> forall j :: i <= j < r.value && Targetable(areas[j]) ==> !Hovered(areas[j], j in inside)
    ensures r.None? ==> forall j :: i <= j < |areas| && Targetable(areas[j]) ==> !Hovered(areas[j], j in inside)
    decreases |areas| - i
  {
    if i == |areas| then None
    else if Targetable(areas[i]) && Hovered(areas[i], i in inside) then Some(i)
    else FirstTarget(areas, inside, i + 1)
  }

  /**
   * Where a drop lands relative to the ghost: a drop target is a hovered
   * area too, so the ghost shows over it or over an earlier area.
   */
  lemma {:induction false} TargetIsNotBeforeGhost<L>(areas: seq<Area<L>>, inside: set<nat>, i: nat)
    requires i <= |areas|
    requires FirstTarget(areas, inside, i).Some?
    ensures FirstHover(areas, inside, i).Some?
    ensures FirstHover(areas, inside, i).value <= FirstTarget(areas, inside, i).value
    decreases |areas| - i
  {
    if !(Scanned(areas[i]) && Hovered(areas[i], i in inside)) {
      TargetIsNotBeforeGhost(areas, inside, i + 1);
    }
  }

  /** When every scanned area has a bar, the ghost and the drop pick the same area. */
  lemma {:induction false} GhostAndTargetAgreeWhenAllHaveBars<L>(areas: seq<Area<L>>, inside: set<nat>, i: nat)
    requires i <= |areas|
    requires forall j :: i <= j < |areas| && Scanned(areas[j]) ==> areas[j].hasBar
    ensures FirstHover(areas, inside, i) == FirstTarget(areas, inside, i)
    decreases |areas| - i
  {
    if i < |areas| {
      GhostAndTargetAgreeWhenAllHaveBars(areas, inside, i + 1);
    }
  }

  class DockAreaDragDropBehavior<L, T> {
    /** The data format this variant reacts to. */
    const dataKey: string
    /** AssociatedObject is not null. */
    const associated: bool
    /** DragDrop.AllowDrop on the associated object. */
    var allowDrop: bool
    /** The handlers registered on the associated object, counted with repetition. */
    var handlers: multiset<Handler>
    /** The areas snapshot taken on drag enter; None until then. */
    var areas: Option<seq<Area<L>>>
    /** _dragGhost and _layer are not null. */
    var hasGhost: bool
    var hasLayer: bool
    var ghostVisible: bool
    /** The area whose presenter the ghost was last placed over. */
    var ghostOver: Option<nat>
    /** Ghosts added to the adorner layer and not removed from it. */
    var layerGhosts: nat

    /** A ghost that has a layer is one of the ghosts in that layer. */
    predicate Valid()
      reads this
    {
      hasGhost && hasLayer ==> layerGhosts > 0
    }

    constructor (dataKey: string, associated: bool)
      ensures Valid()
      ensures this.dataKey == dataKey && this.associated == associated
      ensures !allowDrop && handlers == multiset{} && areas.None?
      ensures !hasGhost && !hasLayer && ghostOver.None? && layerGhosts == 0
    {
      this.dataKey := dataKey;
      this.associated := associated;
      allowDrop := false;
      handlers := multiset{};
      areas := None;
      hasGhost := false;
      hasLayer := false;
      ghostVisible := false;
      ghostOver := None;
      layerGhosts := 0;
    }

    /** OnAttached: with an associated object, allow drops and add the four handlers. */
    method OnAttached()
      modifies this
      ensures associated ==> allowDrop && handlers == old(handlers) + AllHandlers
      ensures !associated ==> allowDrop == old(allowDrop) && handlers == old(handlers)
      ensures unchanged(this`areas, this`hasGhost, this`hasLayer, this`ghostVisible, this`ghostOver, this`layerGhosts)
    {
      if associated {
        allowDrop := true;
        handlers := handlers + AllHandlers;
      }
    }

    /** OnDetaching: with an associated object, forbid drops and remove one registration of each of the four handlers. */
    method OnDetaching()
      modifies this
      ensures associated ==> !allowDrop && handlers == old(handlers) - AllHandlers
      ensures !associated ==> allowDrop == old(allowDrop) && handlers == old(handlers)
      ensures unchanged(this`areas, this`hasGhost, this`hasLayer, this`ghostVisible, this`ghostOver, this`layerGhosts)
    {
      if associated {
        allowDrop := false;
        handlers := handlers - AllHandlers;
      }
    }

    /** CreateDragGhost: a new visible ghost, added to the adorner layer when there is one. */
    method CreateDragGhost(layerAvailable: bool)
      requires Valid()
      ensures Valid()
      modifies this
      ensures hasGhost && ghostVisible && ghostOver.None? && hasLayer == layerAvailable
      ensures layerGhosts == if layerAvailable then old(layerGhosts) + 1 else old(layerGhosts)
      ensures unchanged(this`allowDrop, this`handlers, this`areas)
    {
      hasGhost := true;
      ghostVisible := true;
      ghostOver := None;
      hasLayer := layerAvailable;
      if layerAvailable {
        layerGhosts := layerGhosts + 1;
      }
    }

    /** DeleteDragGhost: with both a layer and a ghost, remove the ghost and forget both; otherwise nothing. */
    method DeleteDragGhost()
      requires Valid()
      ensures Valid()
      modifies this
      ensures old(hasLayer && hasGhost) ==> !hasGhost && !hasLayer && layerGhosts == old(layerGhosts) - 1
      ensures !old(hasLayer && hasGhost) ==> unchanged(this)
      ensures unchanged(this`allowDrop, this`handlers, this`areas, this`ghostVisible, this`ghostOver)
    {
      if !hasLayer || !hasGhost {
        return;
      }
      layerGhosts := layerGhosts - 1;
      hasGhost := false;
      hasLayer := false;
    }

    /**
     * OnDragOver: with a snapshot, a ghost and a layer, and data under the
     * key, the ghost shows exactly when some scanned area is hovered, and
     * it is placed over the first such area.
     */
    method OnDragOver(e: DragEvent<L, T>)
      modifies this
      ensures old(areas.Some? && hasGhost && hasLayer) && dataKey in e.formats ==>
                var hit := FirstHover(old(areas).value, e.inside, 0);
                ghostVisible == hit.Some? && ghostOver == (if hit.Some? then hit else old(ghostOver))
      ensures !(old(areas.Some? && hasGhost && hasLayer) && dataKey in e.formats) ==>
                unchanged(this`ghostVisible, this`ghostOver)
      ensures unchanged(this`allowDrop, this`handlers, this`areas, this`hasGhost, this`hasLayer, this`layerGhosts)
    {
      if areas.None? || !hasGhost || !hasLayer {
        return;
      }
      if dataKey !in e.formats {
        return;
      }
      var snapshot := areas.value;
      var flag := false;
      var i := 0;
      while i < |snapshot|
        invariant i <= |snapshot|
        invariant FirstHover(snapshot, e.inside, 0) == FirstHover(snapshot, e.inside, i)
        invariant !flag && ghostOver == old(ghostOver)
        invariant unchanged(this`allowDrop, this`handlers, this`areas, this`hasGhost, this`hasLayer, this`layerGhosts)
      {
        var area := snapshot[i];
        if !area.hasArea || !area.hasPresenter {
          i := i + 1;
          continue;
        }
        flag := HoverContentPresenter(area, i, i in e.inside);
        if flag {
          break;
        }
        i := i + 1;
      }
      ghostVisible := flag;
    }

    /** HoverContentPresenter: the hover test; a hit places the ghost over the presenter when both ghost and layer exist. */
    method HoverContentPresenter(area: Area<L>, index: nat, inside: bool) returns (hovered: bool)
      modifies this`ghostOver
      ensures hovered == Hovered(area, inside)
      ensures ghostOver == if hovered && hasLayer && hasGhost then Some(index) else old(ghostOver)
    {
      if area.childVisible == Some(false) {
        return false;
      }
      if !inside {
        return false;
      }
      if hasLayer && hasGhost {
        ghostOver := Some(index);
      }
      return true;
    }

    /**
     * OnDragEnter: with data under the key, take the areas snapshot,
     * create a ghost and run the drag-over update.
     */
    method OnDragEnter(e: DragEvent<L, T>, snapshot: seq<Area<L>>, layerAvailable: bool)
      requires Valid()
      ensures Valid()
      requires associated
      modifies this
      ensures dataKey in e.formats ==>
                areas == Some(snapshot) && hasGhost && hasLayer == layerAvailable &&
                layerGhosts == (if layerAvailable then old(layerGhosts) + 1 else old(layerGhosts)) &&
                ghostVisible == (!layerAvailable || FirstHover(snapshot, e.inside, 0).Some?)
      ensures dataKey !in e.formats ==> unchanged(this)
      ensures unchanged(this`allowDrop, this`handlers)
    {
      if dataKey in e.formats {
        areas := Some(snapshot);
        CreateDragGhost(layerAvailable);
        OnDragOver(e);
      }
    }

    /** OnDragLeave: with data under the key, delete the ghost. */
    method OnDragLeave(e: DragEvent<L, T>)
      requires Valid()
      ensures Valid()
      modifies this
      ensures dataKey in e.formats && old(hasLayer && hasGhost) ==>
                !hasGhost && !hasLayer && layerGhosts == old(layerGhosts) - 1
      ensures !(dataKey in e.formats && old(hasLayer && hasGhost)) ==> unchanged(this)
      ensures unchanged(this`allowDrop, this`handlers, this`areas, this`ghostVisible, this`ghostOver)
    {
      if dataKey in e.formats {
        DeleteDragGhost();
      }
    }

    /**
     * OnDrop: with data under the key, the ghost goes first; then, given a
     * snapshot, an associated object and a button with a dock location,
     * the first hovered area that has a bar receives the item at index 0,
     * provided the button sits inside a bar. At most one event is raised.
     */
    method OnDrop(e: DragEvent<L, T>) returns (raised: Option<MoveEvent<L, T>>)
      requires Valid()
      ensures Valid()
      modifies this
      ensures dataKey in e.formats && old(hasLayer && hasGhost) ==> !hasGhost && !hasLayer
      ensures !(dataKey in e.formats && old(hasLayer && hasGhost)) ==> hasGhost == old(hasGhost) && hasLayer == old(hasLayer)
      ensures raised.Some? <==>
                dataKey in e.formats && areas.Some? && associated &&
                e.button.Some? && e.button.value.dockLocation.Some? &&
                FirstTarget(areas.value, e.inside, 0).Some? && e.button.value.insideBar
      ensures raised.Some? ==>
                var k := FirstTarget(areas.value, e.inside, 0).value;
                raised.value == MoveEvent(e.button.value.dataContext, e.button.value.dockLocation.value,
                                          k, areas.value[k].location, 0)
      ensures unchanged(this`allowDrop, this`handlers, this`areas, this`ghostVisible, this`ghostOver)
    {
      raised := None;
      if dataKey !in e.formats {
        return;
      }
      DeleteDragGhost();
      if areas.None? || !associated {
        return;
      }
      if e.button.None? || e.button.value.dockLocation.None? {
        return;
      }
      var button := e.button.value;
      var snapshot := areas.value;
      ghost var ghostBefore, layerBefore := hasGhost, hasLayer;
      var i := 0;
      while i < |snapshot|
        invariant i <= |snapshot|
        invariant FirstTarget(snapshot, e.inside, 0) == FirstTarget(snapshot, e.inside, i)
        invariant !hasGhost || !hasLayer
        invariant unchanged(this`allowDrop, this`handlers, this`areas, this`ghostVisible, this`ghostOver)
        invariant hasGhost == ghostBefore && hasLayer == layerBefore
      {
        var area := snapshot[i];
        if !area.hasArea || !area.hasPresenter || !area.hasBar {
          i := i + 1;
          continue;
        }
        var hovered := HoverContentPresenter(area, i, i in e.inside);
        if hovered {
          if !button.insideBar {
            return;
          }
          raised := Some(MoveEvent(button.dataContext, button.dockLocation.value, i, area.location, 0));
          break;
        }
        i := i + 1;
      }
    }
  }
}
