/**
 * The sample application's main window: it answers side-bar button drops by
 * moving tool view models between the six tool lists of its view model,
 * and display-mode changes by moving tools in and out of the floating
 * windows list. Locations are the [Flags] DockAreaLocation values.
 */
module SampleWindow {
  import opened Common
  import opened LegacyLocations
  import opened ToolLists

  datatype DisplayMode = Docked | Floating

  /** ToolWindowViewModel: name, icon and content fixed at creation; selection and display mode change. */
  class ToolWindow {
    const name: string
    const icon: string
    const content: string
    var isSelected: bool
    var displayMode: DisplayMode

    /** The content defaults to the name. */
    constructor (name: string, icon: string, content: Option<string>)
      ensures this.name == name && this.icon == icon && this.content == content.GetOr(name)
      ensures !isSelected && displayMode == Docked
    {
      this.name := name;
      this.icon := icon;
      this.content := content.GetOr(name);
      isSelected := false;
      displayMode := Docked;
    }
  }

  /** A selected-tool property of the view model; null when nothing is selected. */
  class SelectedTool {
    var value: ToolWindow?

    constructor ()
      ensures value == null
    {
      value := null;
    }
  }

  class MainWindowViewModel {
    const leftTools: ToolList<ToolWindow>
    const rightTools: ToolList<ToolWindow>
    const leftTopTools: ToolList<ToolWindow>
    const leftBottomTools: ToolList<ToolWindow>
    const rightTopTools: ToolList<ToolWindow>
    const rightBottomTools: ToolList<ToolWindow>
    const selectedLeftTool: SelectedTool
    const selectedRightTool: SelectedTool
    const selectedLeftTopTool: SelectedTool
    const selectedLeftBottomTool: SelectedTool
    const selectedRightTopTool: SelectedTool
    const selectedRightBottomTool: SelectedTool
    const floatingWindows: ToolList<ToolWindow>

    /** The six tool lists are six different collections. */
    predicate Valid() {
      var ls := [leftTools, rightTools, leftTopTools, leftBottomTools, rightTopTools, rightBottomTools];
      forall i, j :: 0 <= i < j < |ls| ==> ls[i] != ls[j]
    }

    function Lists(): set<ToolList<ToolWindow>> {
      {leftTools, rightTools, leftTopTools, leftBottomTools, rightTopTools, rightBottomTools}
    }

    function Selections(): set<SelectedTool> {
      {selectedLeftTool, selectedRightTool, selectedLeftTopTool, selectedLeftBottomTool,
       selectedRightTopTool, selectedRightBottomTool}
    }

    constructor ()
      ensures Valid()
      ensures fresh(Lists()) && fresh(Selections()) && fresh(floatingWindows)
      ensures forall l :: l in Lists() ==> l.items == [] && l.isList
      ensures forall s :: s in Selections() ==> s.value == null
      ensures floatingWindows.items == []
    {
      leftTools := new ToolList([], true);
      rightTools := new ToolList([], true);
      leftTopTools := new ToolList([], true);
      leftBottomTools := new ToolList([], true);
      rightTopTools := new ToolList([], true);
      rightBottomTools := new ToolList([], true);
      selectedLeftTool := new SelectedTool();
      selectedRightTool := new SelectedTool();
      selectedLeftTopTool := new SelectedTool();
      selectedLeftBottomTool := new SelectedTool();
      selectedRightTopTool := new SelectedTool();
      selectedRightBottomTool := new SelectedTool();
      floatingWindows := new ToolList([], true);
    }
  }

  /** The six locations the sample has tool lists for. */
  predicate HasTools(location: Flags) {
    location == Left || location == Right || location == TopLeft ||
    location == BottomLeft || location == TopRight || location == BottomRight
  }

  /** GetItemsSource: the tool list of a location; None where the switch throws ArgumentOutOfRangeException. */
  function GetItemsSource(vm: MainWindowViewModel, location: Flags): (r: Option<ToolList<ToolWindow>>)
    ensures r.Some? <==> HasTools(location)
    ensures r.Some? ==> r.value in vm.Lists()
  {
    if location == Left then Some(vm.leftTools)
    else if location == Right then Some(vm.rightTools)
    else if location == TopLeft then Some(vm.leftTopTools)
    else if location == BottomLeft then Some(vm.leftBottomTools)
    else if location == TopRight then Some(vm.rightTopTools)
    else if location == BottomRight then Some(vm.rightBottomTools)
    else None
  }

  /** GetSelectedItem: the selected-tool property of a location; None where the switch throws. */
  function GetSelectedItem(vm: MainWindowViewModel, location: Flags): (r: Option<SelectedTool>)
    ensures r.Some? <==> HasTools(location)
    ensures r.Some? ==> r.value in vm.Selections()
  {
    if location == Left then Some(vm.selectedLeftTool)
    else if location == Right then Some(vm.selectedRightTool)
    else if location == TopLeft then Some(vm.selectedLeftTopTool)
    else if location == BottomLeft then Some(vm.selectedLeftBottomTool)
    else if location == TopRight then Some(vm.selectedRightTopTool)
    else if location == BottomRight then Some(vm.selectedRightBottomTool)
    else None
  }

  /** Exactly the four sides' single bits Left and Right and the four corners have tool lists; Top and Bottom do not. */
  lemma LocationsWithTools(location: Flags)
    ensures HasTools(location) <==> location in [1, 4, 3, 9, 6, 12]
    ensures !HasTools(Top) && !HasTools(Bottom)
  {
  }

  /** Different locations name different tool lists, so a move stays in one list exactly when the locations agree. */
  lemma ItemsSourceIsOneToOne(vm: MainWindowViewModel, a: Flags, b: Flags)
    requires vm.Valid() && HasTools(a) && HasTools(b)
    ensures GetItemsSource(vm, a) == GetItemsSource(vm, b) <==> a == b
  {
    var ls := [vm.leftTools, vm.rightTools, vm.leftTopTools, vm.leftBottomTools, vm.rightTopTools, vm.rightBottomTools];
    assert ls[0] != ls[1] && ls[0] != ls[2] && ls[0] != ls[3] && ls[0] != ls[4] && ls[0] != ls[5];
    assert ls[1] != ls[2] && ls[1] != ls[3] && ls[1] != ls[4] && ls[1] != ls[5];
    assert ls[2] != ls[3] && ls[2] != ls[4] && ls[2] != ls[5];
    assert ls[3] != ls[4] && ls[3] != ls[5] && ls[4] != ls[5];
  }

  /** A move event raised by a side bar. None stands for an item that is not a ToolWindowViewModel. */
  datatype MoveEvent = MoveEvent(item: Option<ToolWindow>, sourceLocation: Flags, destinationLocation: Flags, destinationIndex: int)

  datatype DropOutcome =
    | LookupThrew     // a location without a tool list: ArgumentOutOfRangeException
    | NotAToolWindow  // returns without handling the event
    | MoveThrew       // Move or Insert threw ArgumentOutOfRangeException
    | Moved           // the event is marked Handled
  {
    predicate Reached() { this == MoveThrew || this == Moved }
  }

  /** Removing the last-added item restores the list: docking a just-floated tool undoes the Add. */
  lemma {:induction false} RemoveAfterAddRestores<T>(s: seq<T>, x: T)
    requires x !in s
    ensures RemoveFirst(s + [x], x) == s
  {
    var t := s + [x];
    assert t[..|s|] == s && t[|s|] == x;
  }

  class MainWindow {
    const viewModel: MainWindowViewModel

    constructor (vm: MainWindowViewModel)
      ensures viewModel == vm
    {
      viewModel := vm;
    }

    /**
     * The selection of the source section is cleared when it holds the
     * moved item.
     */
    static method ClearSelectionOf(selected: SelectedTool, item: ToolWindow)
      modifies selected
      ensures selected.value == if old(selected.value) == item then null else old(selected.value)
    {
      if selected.value == item {
        selected.value := null;
      }
    }

    /** The same-list branch: find the item, lower a slot after it by one, Move, and select the item. */
    static method MoveWithinList(list: ToolList<ToolWindow>, item: ToolWindow, slot: int) returns (ok: bool)
      modifies list, item
      ensures var r := Reorder(old(list.items), item, slot);
              list.items == r.items && ok == r.Done?
      ensures item.isSelected == (ok || old(item.isSelected))
      ensures item.displayMode == old(item.displayMode)
    {
      var sourceIndex := IndexOf(list.items, item);
      var destinationIndex := slot;
      if sourceIndex < destinationIndex {
        destinationIndex := destinationIndex - 1;
      }
      ok := list.Move(sourceIndex, destinationIndex);
      if ok {
        item.isSelected := true;
      }
    }

    /** The cross-list branch: remove the item, insert a selected copy of it at the slot. */
    static method MoveAcrossLists(src: ToolList<ToolWindow>, dst: ToolList<ToolWindow>, item: ToolWindow, slot: int)
      returns (ok: bool, created: ToolWindow)
      requires src != dst
      modifies src, dst
      ensures fresh(created)
      ensures created.name == item.name && created.icon == item.icon && created.content == item.content
      ensures src.items == RemoveFirst(old(src.items), item)
      ensures var ins := InsertAt(old(dst.items), slot, created);
              dst.items == ins.items && ok == ins.Done?
      ensures created.isSelected == ok && created.displayMode == Docked
    {
      src.Remove(item);
      created := new ToolWindow(item.name, item.icon, Some(item.content));
      ok := dst.Insert(slot, created);
      if ok {
        created.isSelected := true;
      }
    }

    /**
     * The drop once both lists and the source selection are known: clear
     * the selection when it holds the item, then move within one list or
     * across two.
     */
    static method Relocate(src: ToolList<ToolWindow>, dst: ToolList<ToolWindow>, sel: SelectedTool,
                           item: ToolWindow, slot: int) returns (ok: bool, created: ToolWindow?)
      modifies src, dst, sel, item
      ensures sel.value == if old(sel.value) == item then null else old(sel.value)
      ensures item.displayMode == old(item.displayMode)
      ensures src == dst ==>
        var r := Reorder(old(src.items), item, slot);
        created == null && src.items == r.items && ok == r.Done? && item.isSelected == (ok || old(item.isSelected))
      ensures src != dst ==>
        var ins := InsertAt(old(dst.items), slot, created);
        created != null && fresh(created) && src.items == RemoveFirst(old(src.items), item) &&
        created.name == item.name && created.icon == item.icon && created.content == item.content &&
        dst.items == ins.items && ok == ins.Done? && created.isSelected == ok &&
        created.displayMode == Docked && item.isSelected == old(item.isSelected)
    {
      ClearSelectionOf(sel, item);
      created := null;
      if src == dst {
        ok := MoveWithinList(src, item, slot);
      } else {
        var copy;
        ok, copy := MoveAcrossLists(src, dst, item, slot);
        created := copy;
      }
    }

    /**
     * OnSideBarButtonDrop: both lookups run before the item check; the
     * source selection is cleared when it is the moved item; a same-list
     * drop reorders with the corrected index and selects the item; a
     * cross-list drop removes the item and inserts a selected copy at the
     * destination index. A completed move handles the event.
     */
    method OnSideBarButtonDrop(e: MoveEvent) returns (outcome: DropOutcome, created: ToolWindow?)
      modifies viewModel.Lists(), viewModel.Selections(), if e.item.Some? then {e.item.value} else {}
      ensures outcome == LookupThrew <==> !HasTools(e.sourceLocation) || !HasTools(e.destinationLocation)
      ensures outcome == NotAToolWindow <==>
        HasTools(e.sourceLocation) && HasTools(e.destinationLocation) && e.item.None?
      ensures !outcome.Reached() ==>
        created == null && unchanged(viewModel.Lists(), viewModel.Selections())
      ensures outcome.Reached() ==>
        var sel := GetSelectedItem(viewModel, e.sourceLocation).value;
        sel.value == (if old(sel.value) == e.item.value then null else old(sel.value)) &&
        forall s :: s in viewModel.Selections() && s != sel ==> s.value == old(s.value)
      ensures outcome.Reached() ==>
        var src := GetItemsSource(viewModel, e.sourceLocation).value;
        var dst := GetItemsSource(viewModel, e.destinationLocation).value;
        forall l :: l in viewModel.Lists() && l != src && l != dst ==> l.items == old(l.items)
      ensures outcome.Reached() &&
              GetItemsSource(viewModel, e.sourceLocation) == GetItemsSource(viewModel, e.destinationLocation) ==>
        var src := GetItemsSource(viewModel, e.sourceLocation).value;
        var r := Reorder(old(src.items), e.item.value, e.destinationIndex);
        created == null && src.items == r.items && (outcome == Moved <==> r.Done?) &&
        e.item.value.isSelected == (r.Done? || old(e.item.value.isSelected))
      ensures outcome.Reached() &&
              GetItemsSource(viewModel, e.sourceLocation) != GetItemsSource(viewModel, e.destinationLocation) ==>
        var src := GetItemsSource(viewModel, e.sourceLocation).value;
        var dst := GetItemsSource(viewModel, e.destinationLocation).value;
        var ins := InsertAt(old(dst.items), e.destinationIndex, created);
        created != null && fresh(created) && src.items == RemoveFirst(old(src.items), e.item.value) &&
        created.name == e.item.value.name && created.icon == e.item.value.icon && created.content == e.item.value.content &&
        dst.items == ins.items && (outcome == Moved <==> ins.Done?) && created.isSelected == ins.Done? &&
        created.displayMode == Docked && e.item.value.isSelected == old(e.item.value.isSelected)
      ensures e.item.Some? ==> e.item.value.displayMode == old(e.item.value.displayMode)
    {
      created := null;
      var oldItems := GetItemsSource(viewModel, e.sourceLocation);
      if oldItems.None? {
        return LookupThrew, created;
      }
      var oldSelectedItem := GetSelectedItem(viewModel, e.sourceLocation);
      var newItems := GetItemsSource(viewModel, e.destinationLocation);
      if newItems.None? {
        return LookupThrew, created;
      }
      if e.item.None? {
        return NotAToolWindow, created;
      }
      var ok;
      ok, created := Relocate(oldItems.value, newItems.value, oldSelectedItem.value, e.item.value, e.destinationIndex);
      forall l | l in viewModel.Lists() && l != oldItems.value && l != newItems.value
        ensures l.items == old(l.items)
      {
        assert l as object != oldSelectedItem.value && l as object != e.item.value;
      }
      forall s | s in viewModel.Selections() && s != oldSelectedItem.value
        ensures s.value == old(s.value)
      {
        assert s as object != oldItems.value && s as object != newItems.value && s as object != e.item.value;
      }
      outcome := if ok then Moved else MoveThrew;
    }

    /**
     * OnSideBarButtonDisplayModeChanged: a change to another mode sets the
     * mode, leaves the tool selected, and adds it to the floating windows
     * (Floating) or removes it from them (Docked); a change to the current
     * mode, or an item that is not a tool, is ignored.
     */
    method OnSideBarButtonDisplayModeChanged(item: ToolWindow?, mode: DisplayMode) returns (handled: bool)
      modifies item, viewModel.floatingWindows
      ensures handled <==> item != null && old(item.displayMode) != mode
      ensures !handled ==> unchanged(viewModel.floatingWindows) && (item != null ==> unchanged(item))
      ensures handled ==> item.displayMode == mode && item.isSelected
      ensures handled && mode == Floating ==>
        viewModel.floatingWindows.items == old(viewModel.floatingWindows.items) + [item]
      ensures handled && mode == Docked ==>
        viewModel.floatingWindows.items == RemoveFirst(old(viewModel.floatingWindows.items), item)
    {
      if item == null || item.displayMode == mode {
        return false;
      }
      item.isSelected := false;
      item.displayMode := mode;
      item.isSelected := true;
      if mode == Floating {
        viewModel.floatingWindows.Add(item);
      } else {
        viewModel.floatingWindows.Remove(item);
      }
      handled := true;
    }
  }
}
