# ReDocking, modelled in Dafny

ReDocking is a docking extension for Avalonia. A window holds side bars.
Each side bar shows the buttons of tool windows in several lists. A button
can be dragged within one side bar, to another side bar, or onto a dock
area. Dock-area views then show that tool window's content. The
repository has two generations of the library:

- the current one (`src/ReDocking`): side bars with four sections
  (upper-top, upper-bottom, lower-top, lower-bottom), and locations that are
  records of a section and a side;
- the legacy one (`ReDocking`): side bars with three lists (top, middle,
  bottom), locations that are `[Flags]` enum values, and edge-bar buttons.

This project models the following, module by module:

- `Locations` and `LegacyLocations`: the two location types, with the
  current parser and the flag algebra.
- `Buttons` and `LegacyButtons`: how a button tags itself with its location
  and how a press and a move start a drag.
- `SideBarLayout`, `SideBars` and `LegacySideBars`:
  - the side bar's drop-slot search (`DetermineLocation`);
  - the drag-over gap bookkeeping;
  - the divider rule;
  - the drop, which raises the move event and otherwise moves the item
    between the IList sources itself.
- `ToolLists` and `DropMoves`: the list operations those drops call.
- `SampleWindow`: the sample window's answer to a move event (a reorder or
  a transfer between the view model's lists), and the display-mode changes.
- `DockAreaDragDrop`: the drag-drop behaviour of dock-area views.
- `DockAreas`: the dock area that attaches views and detaches them from itself.
- `DockViews`: the three dock-area views (`ReDock`,
  `HorizontallySplittedView` and `VerticallySplittedView`). Each keeps its
  slots, its drag-drop behaviour subscription and its pane proportions.
- `OverflowLayout`: the overflow layout that splits a list into visible
  items and items behind an ellipsis button.

Controls whose fields change are classes with `modifies` clauses. Their
loops (item scans, layout loops) are methods with invariants, proved
equal to specification functions. The properties are lemmas about those
functions. Layout queries are inputs of each handler: pointer positions
relative to each container, heights, realized containers and
visual-tree ancestors. Null references are `Option` values.

## Model

| member | source | states |
|---|---|---|
| Common.Clamp | src/ReDocking/ReDock.cs:285-287 | the result lies in [lo, hi], equals x inside it and the nearer bound outside |
| Locations.ConstantsDistinctAndComplete | src/ReDocking/DockAreaLocation.cs:33-57 | the eight static locations are pairwise distinct and every (section, side) record is one of them |
| Locations.NameLiterals | src/ReDocking/DockAreaLocation.cs:59-101 | the eight literals Parse compares against are the side name followed by the section name of the matching constant |
| Locations.NameShape | src/ReDocking/DockAreaLocation.cs:59-101 | a name's length, first letter and first letter after the side identify its side and section |
| Locations.NamesDistinctIgnoringCase | src/ReDocking/DockAreaLocation.cs:59-101 | two locations whose names are equal ignoring case are the same location, so the order of Parse's tests never matters |
| Locations.ParseName | src/ReDocking/DockAreaLocation.cs:59-101 | each of the eight names parses to the record with that side and section |
| Locations.ParseIgnoresCase | src/ReDocking/DockAreaLocation.cs:61-96 | Parse gives the same answer for a string and its upper-case form (OrdinalIgnoreCase) |
| Locations.ParseCharacterised | src/ReDocking/DockAreaLocation.cs:59-101 | Parse succeeds exactly on a case-insensitive location name, and then returns the location of that name; anything else is the ArgumentException path |
| LegacyLocations.SidesAreDistinctBits | ReDocking/DockAreaLocation.cs:8-11 | Left, Top, Right and Bottom are the single bits 1, 2, 4 and 8, pairwise disjoint |
| LegacyLocations.CornersCombineOneVerticalOneHorizontal | ReDocking/DockAreaLocation.cs:13-16 | each corner holds exactly one of Top and Bottom and one of Left and Right, and is their union |
| LegacyLocations.TopMembership | ReDocking/DockAreaLocation.cs:6-17 | among the named values, HasFlag(Top) holds exactly for Top, TopLeft and TopRight |
| LegacyLocations.BottomMembership | ReDocking/DockAreaLocation.cs:6-17 | among the named values, HasFlag(Bottom) holds exactly for Bottom, BottomLeft and BottomRight |
| LegacyLocations.NoOppositeSides | ReDocking/DockAreaLocation.cs:6-17 | no named value holds both Left and Right or both Top and Bottom |
| LegacyLocations.NamedDistinct | ReDocking/DockAreaLocation.cs:6-17 | the eight named values are pairwise distinct |
| Buttons.ButtonLocationOf | src/ReDocking/SideBarButton.cs:32-40 | the parent list's name picks the section: the upper-bottom, lower-top and lower-bottom names each give their section, and every other name, or no list, gives UpperTop |
| Buttons.SectionListsTagTheirSection | src/ReDocking/SideBarButton.cs:32-40 | a button in the list that shows a section is tagged with that section |
| Buttons.WithinThresholdNeverStarts | src/ReDocking/SideBarButton.cs:79-83 | a move within a quarter of the button height on both axes never starts a drag |
| Buttons.SetIfPresent | src/ReDocking/SideBarButton.cs:89-102 | a presenter's visibility is set only when the parent is a ContentPresenter |
| Buttons.SideBarButton.constructor | src/ReDocking/SideBarButton.cs:18-27 | a new button is disarmed, untagged, visible and not dragging |
| Buttons.SideBarButton.OnAttachedToVisualTree | src/ReDocking/SideBarButton.cs:29-46 | with a SideBar ancestor the location becomes (the list's section, the side bar's side); without one it is unchanged |
| Buttons.SideBarButton.OnDetachedFromVisualTree | src/ReDocking/SideBarButton.cs:48-52 | the location is cleared |
| Buttons.SideBarButton.OnPointerPressed | src/ReDocking/SideBarButton.cs:54-66 | a right press shows the flyout exactly when a host exists and does not arm; any other press arms and records the point |
| Buttons.SideBarButton.OnPointerReleased | src/ReDocking/SideBarButton.cs:68-72 | the button is disarmed |
| Buttons.SideBarButton.OnPointerMoved | src/ReDocking/SideBarButton.cs:74-104 | a drag starts exactly when the button is armed and the move is past the threshold; it then disarms and hides the button and its presenter; any other move changes nothing |
| Buttons.SideBarButton.OnDragCompleted | src/ReDocking/SideBarButton.cs:97-102 | after the drag the button and its presenter are shown again |
| LegacyButtons.ListFlag | ReDocking/SideBarButton.axaml.cs:44-50 | PART_TopTools gives Top, PART_BottomTools gives Bottom, anything else 0, each as an if-and-only-if |
| LegacyButtons.DockLocationsAreNamed | ReDocking/SideBarButton.axaml.cs:51-55 | on a Left or Right side bar the side OR-ed with the list flag is a named enum value: the side itself in the middle list, the corner in the top or bottom list |
| LegacyButtons.SideBarButton.constructor | ReDocking/SideBarButton.axaml.cs:24-39 | a new button is disarmed, untagged, visible and not dragging |
| LegacyButtons.SideBarButton.OnAttachedToVisualTree | ReDocking/SideBarButton.axaml.cs:41-56 | with a SideBar ancestor the location becomes its Location OR the list flag; without one it is unchanged |
| LegacyButtons.SideBarButton.OnDetachedFromVisualTree | ReDocking/SideBarButton.axaml.cs:58-62 | the location is cleared |
| LegacyButtons.SideBarButton.OnPointerPressed | ReDocking/SideBarButton.axaml.cs:64-76 | a right press shows the flyout exactly when a host exists and does not arm; any other press arms and records the point |
| LegacyButtons.SideBarButton.OnPointerReleased | ReDocking/SideBarButton.axaml.cs:78-82 | the button is disarmed |
| LegacyButtons.SideBarButton.OnPointerMoved | ReDocking/SideBarButton.axaml.cs:84-114 | a drag starts exactly when the button is armed and the move is past a quarter of its height; it then hides the button and its presenter |
| LegacyButtons.SideBarButton.OnDragCompleted | ReDocking/SideBarButton.axaml.cs:107-112 | after the drag the button and its presenter are shown again |
| LegacyButtons.EdgeLocationOf | ReDocking/EdgeBarButton.axaml.cs:33-40 | PART_TopTools, PART_Tools and PART_BottomTools give Top, Middle and Bottom, each as an if-and-only-if; other names give none |
| LegacyButtons.EdgeBarButton.constructor | ReDocking/EdgeBarButton.axaml.cs:18-28 | a new button is disarmed, untagged, visible, with its tooltip enabled |
| LegacyButtons.EdgeBarButton.OnAttachedToVisualTree | ReDocking/EdgeBarButton.axaml.cs:30-43 | the section comes from the list name and the edge-bar location from the EdgeBar ancestor |
| LegacyButtons.EdgeBarButton.OnDetachedFromVisualTree | ReDocking/EdgeBarButton.axaml.cs:45-49 | the section is cleared and the edge-bar location kept |
| LegacyButtons.EdgeBarButton.OnPointerPressed | ReDocking/EdgeBarButton.axaml.cs:51-55 | every press arms |
| LegacyButtons.EdgeBarButton.OnPointerReleased | ReDocking/EdgeBarButton.axaml.cs:57-61 | the button is disarmed |
| LegacyButtons.EdgeBarButton.OnPointerMoved | ReDocking/EdgeBarButton.axaml.cs:63-89 | the first move of an armed button starts the drag with no threshold, disables the tooltip and hides the button; an unarmed move changes nothing |
| LegacyButtons.EdgeBarButton.OnDragCompleted | ReDocking/EdgeBarButton.axaml.cs:80-87 | after the drag the tooltip is enabled again and the button and its presenter are shown |
| ToolLists.IndexOf | samples/ReDocking.Sample/Views/MainWindow.axaml.cs:67 | the position of the first equal element, or -1 exactly when the element is absent |
| ToolLists.RemoveAt | src/ReDocking/OverflowLayoutView.cs:154 | RemoveAt deletes exactly the element at the index and shifts the later ones down |
| ToolLists.RemoveFirst | src/ReDocking/SideBar.cs:212 | IList.Remove drops the first occurrence, keeps the others in order, and is a no-op for an absent element |
| ToolLists.InsertAt | src/ReDocking/SideBar.cs:213 | Insert completes exactly for an index in [0, Count], and then places the element there and shifts the rest; otherwise the list is unchanged and the call throws |
| ToolLists.MoveWithin | samples/ReDocking.Sample/Views/MainWindow.axaml.cs:74 | Move completes exactly when both indices are in range; the result is a permutation with the element at the new index; a bad old index leaves the list alone |
| ToolLists.MoveWithinThrowsAfterRemoval | samples/ReDocking.Sample/Views/MainWindow.axaml.cs:74 | with a valid old index, a new index past the shortened list throws after the element was already removed |
| ToolLists.AdjustedTarget | samples/ReDocking.Sample/Views/MainWindow.axaml.cs:67-72 | a slot after the item's own position is lowered by one |
| ToolLists.Reorder | samples/ReDocking.Sample/Views/MainWindow.axaml.cs:65-76 | the same-list branch completes for every slot in [0, Count] and permutes the list |
| ToolLists.AdjustedTargetInRange | samples/ReDocking.Sample/Views/MainWindow.axaml.cs:67-74 | the corrected target of a slot in [0, n] is a valid Move index in [0, n - 1] |
| ToolLists.ReorderOntoOwnSlotIsIdentity | samples/ReDocking.Sample/Views/MainWindow.axaml.cs:65-76 | dropping an item on its own slot or the slot after it leaves the list unchanged |
| ToolLists.ReorderLandsBeforeSlot | samples/ReDocking.Sample/Views/MainWindow.axaml.cs:65-76 | after the reorder the item sits just before the element that held the drop slot, or last for the end slot |
| ToolLists.TransferItem | src/ReDocking/SideBar.cs:210-219 | the side bar's fallback removes from the source, then inserts into the destination; the same list is seen shortened, and a failed insert keeps the removal |
| ToolLists.TransferKeepsItems | src/ReDocking/SideBar.cs:210-219 | a completed transfer keeps the multiset of both lists and puts the item at the requested index |
| ToolLists.TransferCompletesIff | src/ReDocking/SideBar.cs:210-219 | the insert completes exactly when the index is at most the destination's length after the removal |
| ToolLists.TransferEndSlotLosesItem | src/ReDocking/SideBar.cs:210-219 | a same-list drop on the end slot throws after the removal: the item is lost |
| ToolLists.TransferSameListLandsLate | src/ReDocking/SideBar.cs:210-219 | a same-list drop after the item's position lands one slot late: dropping a on slot 2 of [a, b, c] gives [b, c, a] |
| ToolLists.ReorderLandsOnSlot | samples/ReDocking.Sample/Views/MainWindow.axaml.cs:65-76 | the corrected reorder lands on the dropped slot in the same example: [b, a, c] |
| ToolLists.ToolList.Remove | src/ReDocking/SideBar.cs:212 | the list becomes RemoveFirst of its old contents |
| ToolLists.ToolList.Insert | src/ReDocking/SideBar.cs:213 | the list becomes InsertAt of its old contents, and the call reports whether it threw |
| ToolLists.ToolList.Move | samples/ReDocking.Sample/Views/MainWindow.axaml.cs:74 | the list becomes MoveWithin of its old contents, and the call reports whether it threw |
| ToolLists.ToolList.Add | samples/ReDocking.Sample/Views/MainWindow.axaml.cs:128 | the element is appended |
| DropMoves.MovedElement | src/ReDocking/SideBar.cs:210-219 | the DataContext when the source holds it, else the button when the source holds it, else nothing |
| DropMoves.MoveItem | src/ReDocking/SideBar.cs:205-219 | nothing happens unless both sources are ILists; otherwise the moved element is transferred as TransferItem says, and every other list is untouched |
| SideBarLayout.MarginTop | src/ReDocking/SideBar.cs:496-506 | only the gap above an item gives it a top margin |
| SideBarLayout.SpaceBetween | src/ReDocking/SideBar.cs:339-345 | the grid height minus both stacks, replaced by 16 when negative; never negative |
| SideBarLayout.FirstHit | src/ReDocking/SideBar.cs:350-363 | the first container the probe hits, with no hit before it, or the end |
| SideBarLayout.LastHit | src/ReDocking/SideBar.cs:578-597 | the last container the probe hits before k, with no hit after it, or -1 |
| SideBarLayout.FindFirstHit | src/ReDocking/SideBar.cs:350-363 | the early-return loop returns FirstHit |
| SideBarLayout.FindLastHit | src/ReDocking/SideBar.cs:578-597 | the backward loop returns LastHit |
| SideBarLayout.DownwardMark | src/ReDocking/SideBar.cs:496-507 | a downward scan marks nothing once handled, otherwise a hit item |
| SideBarLayout.UpwardMark | src/ReDocking/SideBar.cs:585-595 | an upward scan marks nothing once handled, otherwise a hit item |
| SideBarLayout.ScannedGaps | src/ReDocking/SideBar.cs:488-508 | invisible containers keep their margin, the marked one gets the gap, other visible ones are reset |
| SideBarLayout.ScanDown | src/ReDocking/SideBar.cs:488-509 | the upper-section loop leaves ScannedGaps with the downward mark and reports whether the gap is taken |
| SideBarLayout.ScanUp | src/ReDocking/SideBar.cs:577-597 | the lower-section loop leaves ScannedGaps with the upward mark and reports whether the gap is taken |
| SideBarLayout.ScanMarksAtMostOne | src/ReDocking/SideBar.cs:496-507 | a scan gives its gap to at most one visible container |
| SideBarLayout.HandledScanResetsAll | src/ReDocking/SideBar.cs:496-507 | once the gap is taken, a scan resets every visible container |
| SideBars.SupportedOnSide | src/ReDocking/SideBar.cs:302-306 | with no host nothing is recorded and every section is supported; otherwise a section is supported exactly when a host dock area has it on this side |
| SideBars.SectionSlot | src/ReDocking/SideBar.cs:348-451 | a section's block returns slot 0 when the lower sections see the pointer above the list, else the first hit item, or the end slot when the end test holds; a hit always yields a slot |
| SideBars.DropSlotInRange | src/ReDocking/SideBar.cs:328-453 | the slot is -1 without the template parts, otherwise -1 or an index in [0, ItemCount] of a supported section |
| SideBars.DropSlotIsFirstOffer | src/ReDocking/SideBar.cs:348-453 | a slot is found exactly when some section offers one, and it is the first such section in declaration order |
| SideBars.DropSlotPicksFirstHit | src/ReDocking/SideBar.cs:348-451 | an item slot is a visible item the probe hits, with no hit before it |
| SideBars.DragOverMarksAtMostOne | src/ReDocking/SideBar.cs:456-658 | one drag-over leaves the gap on at most one item or list |
| SideBars.MarkedIsTheHandler | src/ReDocking/SideBar.cs:456-658 | the element left with a gap is the first hit in scan order |
| SideBars.FoundSlotTransferCompletes | src/ReDocking/SideBar.cs:208-219 | with the section's containers counting its list, a found slot always fits another list, while in the item's own list the Insert completes exactly below the end slot and throws on it |
| SideBars.DragOverPreviewsUpperDrop | src/ReDocking/SideBar.cs:486-531 | for the same pointer, a drop on an upper item slot is previewed by the gap above that item, and the upper-top end slot by the list's margin |
| SideBars.Cleared | src/ReDocking/SideBar.cs:275-286 | drag-leave resets every container and every list margin and keeps the container counts |
| SideBars.FindSectionSlot | src/ReDocking/SideBar.cs:348-451 | one section block with its loop returns SectionSlot |
| SideBars.DragOverScan | src/ReDocking/SideBar.cs:476-657 | the four scans threaded through the handled flag return DragOverMargins |
| SideBars.RaiseMove | src/ReDocking/SideBar.cs:182-219 | the event carries the DataContext, the source location, the destination and the index; a handled event touches no list; otherwise the lists change as MoveItem says |
| SideBars.SideBar.constructor | src/ReDocking/SideBar.cs:50-57 | a new side bar has no template parts, no recorded sections, no ghost and hit-testing on |
| SideBars.SideBar.UpdateUpperDividerVisibility | src/ReDocking/SideBar.cs:234-249 | with the parts, the upper divider shows exactly when both upper sections are supported and both lists are non-empty |
| SideBars.SideBar.UpdateLowerDividerVisibility | src/ReDocking/SideBar.cs:251-266 | with the parts, the lower divider shows exactly when both lower sections are supported and both lists are non-empty |
| SideBars.SideBar.UpdateDividerVisibility | src/ReDocking/SideBar.cs:228-232 | both dividers follow the divider rule |
| SideBars.SideBar.ApplyTemplate | src/ReDocking/SideBar.cs:101-115 | the parts are found and the dividers follow the rule |
| SideBars.SideBar.DetermineLocation | src/ReDocking/SideBar.cs:328-453 | the method returns DropSlot for the current state |
| SideBars.SideBar.OnDragOver | src/ReDocking/SideBar.cs:456-658 | without parts, layer, ghost or button data nothing changes; otherwise hit-testing stops and the margins become DragOverMargins |
| SideBars.SideBar.OnDragEnter | src/ReDocking/SideBar.cs:298-326 | for button data, hit-testing stops only when the template parts are present (the grid is missing otherwise), the supported sections are recorded, the dividers show for supported pairs, a ghost is created and a drag-over runs |
| SideBars.SideBar.OnDragLeave | src/ReDocking/SideBar.cs:268-296 | for button data with the parts, margins are cleared, hit-testing returns, the dividers follow the rule and the ghost goes |
| SideBars.SideBar.OnDrop | src/ReDocking/SideBar.cs:166-226 | the slot is taken before the drag-leave; the event is raised exactly for a located button with a slot and a source side bar; the lists change only through the fallback transfer; when each section's containers are its list's items, a transfer into another list always ends Moved, and one into the item's own list throws exactly on the end slot, which still counts the item |
| SideBars.SideBar.RefreshDividers | src/ReDocking/SideBar.cs:221-225 | both side bars' dividers follow the rule |
| SideBars.SideBar.DropAt | src/ReDocking/SideBar.cs:174-219 | the event and list changes of a drop at a given slot; lists other than the source and the destination are untouched; for a slot within the destination list's count, the transfer ends Moved unless it is a same-list drop on the end slot |
| LegacySideBars.DropSlotInRange | ReDocking/SideBar.axaml.cs:213-283 | a found slot names Top, the middle list or Bottom with an index in [0, ItemCount]; otherwise (default, -1) |
| LegacySideBars.DropSlotPicksHit | ReDocking/SideBar.axaml.cs:218-274 | a top or middle item slot is the first visible item the pointer is above; a bottom item slot is the last item it is below |
| LegacySideBars.DragOverShowsDropSlot | ReDocking/SideBar.axaml.cs:285-433 | in both directions, a container gets a gap exactly when the drop lands on it, and the top list's margin exactly when the drop takes its end slot |
| LegacySideBars.DestinationIsNamed | ReDocking/SideBar.axaml.cs:124 | the section flag OR-ed with a Left or Right location is a named value on that side in that section |
| LegacySideBars.DragOverScan | ReDocking/SideBar.axaml.cs:290-432 | the scans threaded through the handled flag return DragOverMargins |
| LegacySideBars.FoundSlotTransferCompletes | ReDocking/SideBar.axaml.cs:141-152 | with the section's containers counting its list, a found slot always fits another list, while in the item's own list the Insert completes exactly below the end slot and throws on it |
| LegacySideBars.RaiseMove | ReDocking/SideBar.axaml.cs:117-152 | the event carries the DataContext, source, destination and index; a handled event touches no list |
| LegacySideBars.SideBar.constructor | ReDocking/SideBar.axaml.cs:44-51 | a new side bar has no template parts and no ghost, with hit-testing on |
| LegacySideBars.SideBar.SourceFor | ReDocking/SideBar.axaml.cs:131-136 | Top and Bottom select their own lists and every other flag selects the middle list |
| LegacySideBars.SideBar.UpdateDividerVisibility | ReDocking/SideBar.axaml.cs:161-168 | with the parts, the divider shows exactly when the top and middle lists are both non-empty |
| LegacySideBars.SideBar.ApplyTemplate | ReDocking/SideBar.axaml.cs:89-98 | the parts are found and the divider is left as it was |
| LegacySideBars.SideBar.DetermineLocation | ReDocking/SideBar.axaml.cs:213-283 | the method returns DropSlot for the current state |
| LegacySideBars.SideBar.OnDragOver | ReDocking/SideBar.axaml.cs:285-433 | with parts and button data, hit-testing stops and the margins become DragOverMargins; otherwise nothing changes |
| LegacySideBars.SideBar.OnDragEnter | ReDocking/SideBar.axaml.cs:195-211 | for button data, hit-testing stops, the divider shows, a ghost is created and a drag-over runs |
| LegacySideBars.SideBar.Cleared | ReDocking/SideBar.axaml.cs:176-183 | every container and the top list lose their margins |
| LegacySideBars.SideBar.OnDragLeave | ReDocking/SideBar.axaml.cs:170-193 | for button data with the parts, margins are cleared, hit-testing returns, the divider updates and the ghost goes |
| LegacySideBars.SideBar.OnDrop | ReDocking/SideBar.axaml.cs:100-159 | the slot is taken before the drag-leave; the event is raised exactly for a located button with a slot and a source side bar; when each section's containers are its list's items, a transfer into another list always ends Moved, and one into the item's own list throws exactly on the end slot; both dividers update in the finally block |
| LegacySideBars.SideBar.RefreshDividers | ReDocking/SideBar.axaml.cs:154-158 | both side bars' dividers follow the rule |
| LegacySideBars.SideBar.DropAt | ReDocking/SideBar.axaml.cs:109-152 | the event and list changes of a drop at a given slot, with the destination being the section OR the side bar's Location; for a slot within the destination list's count, the transfer ends Moved unless it is a same-list drop on the end slot |
| SampleWindow.ToolWindow.constructor | samples/ReDocking.Sample/ViewModels/ToolWindowViewModel.cs:9-24 | name and icon as given, content defaulting to the name, not selected, docked |
| SampleWindow.GetItemsSource | samples/ReDocking.Sample/Views/MainWindow.axaml.cs:89-102 | a list exactly for the six locations with tools, and one of the view model's lists; the other values are the throwing path |
| SampleWindow.GetSelectedItem | samples/ReDocking.Sample/Views/MainWindow.axaml.cs:104-117 | a selection property exactly for the six locations with tools |
| SampleWindow.LocationsWithTools | samples/ReDocking.Sample/Views/MainWindow.axaml.cs:92-100 | the locations with tools are the flag values 1, 4, 3, 9, 6 and 12; Top and Bottom alone throw |
| SampleWindow.ItemsSourceIsOneToOne | samples/ReDocking.Sample/Views/MainWindow.axaml.cs:65 | two locations give the same list exactly when they are equal, so the same-list branch means the same location |
| SampleWindow.RemoveAfterAddRestores | samples/ReDocking.Sample/Views/MainWindow.axaml.cs:126-133 | floating a tool and docking it again restores the floating list |
| SampleWindow.MainWindow.ClearSelectionOf | samples/ReDocking.Sample/Views/MainWindow.axaml.cs:60-63 | the source selection is cleared exactly when it holds the item |
| SampleWindow.MainWindow.MoveWithinList | samples/ReDocking.Sample/Views/MainWindow.axaml.cs:65-76 | the list becomes Reorder of its old contents and the item is selected when the move completes |
| SampleWindow.MainWindow.MoveAcrossLists | samples/ReDocking.Sample/Views/MainWindow.axaml.cs:77-83 | the item is removed from the source and a fresh selected copy with its name, icon and content is inserted at the index |
| SampleWindow.MainWindow.Relocate | samples/ReDocking.Sample/Views/MainWindow.axaml.cs:60-83 | the selection is cleared, then the same-list or the cross-list branch runs |
| SampleWindow.MainWindow.OnSideBarButtonDrop | samples/ReDocking.Sample/Views/MainWindow.axaml.cs:48-86 | a lookup throws exactly for a location without tools; a non-tool item changes nothing; otherwise only the source and destination lists and the source selection change |
| SampleWindow.MainWindow.OnSideBarButtonDisplayModeChanged | samples/ReDocking.Sample/Views/MainWindow.axaml.cs:119-136 | a change to another mode sets it, selects the tool and adds it to or removes it from the floating list; anything else is ignored |
| DockAreaDragDrop.FirstHover | src/ReDocking/DockAreaDragDropBehavior.cs:127-139 | the first scanned area the pointer hovers, with none hovered before it |
| DockAreaDragDrop.FirstTarget | src/ReDocking/DockAreaDragDropBehavior.cs:56-81 | the first area with a bar that the pointer hovers, with none before it |
| DockAreaDragDrop.TargetIsNotBeforeGhost | src/ReDocking/DockAreaDragDropBehavior.cs:56-139 | a drop target exists only if the ghost shows, and the ghost is over the target or an earlier area |
| DockAreaDragDrop.GhostAndTargetAgreeWhenAllHaveBars | src/ReDocking/DockAreaDragDropBehavior.cs:56-139 | when every area has a bar, the ghost and the drop pick the same area |
| DockAreaDragDrop.DockAreaDragDropBehavior.constructor | src/ReDocking/DockAreaDragDropBehavior.cs:13-17 | a new behaviour has no handlers, no snapshot and no ghost |
| DockAreaDragDrop.DockAreaDragDropBehavior.OnAttached | src/ReDocking/DockAreaDragDropBehavior.cs:19-30 | with an associated object drops are allowed and the four handlers are added |
| DockAreaDragDrop.DockAreaDragDropBehavior.OnDetaching | src/ReDocking/DockAreaDragDropBehavior.cs:32-43 | with an associated object drops are refused and one registration of each handler is removed |
| DockAreaDragDrop.DockAreaDragDropBehavior.CreateDragGhost | src/ReDocking/DockAreaDragDropBehavior.cs:86-98 | a visible ghost is created, and added to the layer when there is one |
| DockAreaDragDrop.DockAreaDragDropBehavior.DeleteDragGhost | src/ReDocking/DockAreaDragDropBehavior.cs:100-107 | with both a layer and a ghost the ghost is removed from the layer and both are forgotten; otherwise nothing |
| DockAreaDragDrop.DockAreaDragDropBehavior.OnDragOver | src/ReDocking/DockAreaDragDropBehavior.cs:119-143 | the ghost shows exactly when some scanned area is hovered, placed over the first |
| DockAreaDragDrop.DockAreaDragDropBehavior.HoverContentPresenter | src/ReDocking/DockAreaDragDropBehavior.cs:145-163 | the hover test; a hit places the ghost when ghost and layer exist |
| DockAreaDragDrop.DockAreaDragDropBehavior.OnDragEnter | src/ReDocking/DockAreaDragDropBehavior.cs:109-117 | for keyed data the snapshot is taken, a ghost created and a drag-over run |
| DockAreaDragDrop.DockAreaDragDropBehavior.OnDragLeave | src/ReDocking/DockAreaDragDropBehavior.cs:165-171 | for keyed data the ghost is deleted |
| DockAreaDragDrop.DockAreaDragDropBehavior.OnDrop | src/ReDocking/DockAreaDragDropBehavior.cs:45-84 | the ghost goes first; one event is raised exactly when a located button inside a bar is dropped over an area with a bar, for the first such area, at index 0 |
| DockAreas.ViewChangeCalls | src/ReDocking/DockArea.cs:55-70 | a detach of the old view first when there is one, then an attach of the new view when there is one, and nothing else |
| DockAreas.ViewChangeKeepsOneAttachment | src/ReDocking/DockArea.cs:55-70 | after a View change the area is attached to exactly the new view, also when old and new coincide |
| DockAreas.DockArea.constructor | src/ReDocking/DockArea.cs:6-53 | a new area has the given location and target and no view |
| DockAreas.DockArea.OnPropertyChanged | src/ReDocking/DockArea.cs:55-70 | a View change makes ViewChangeCalls; any other property makes no call |
| DockAreas.DockArea.SetView | src/ReDocking/DockArea.cs:36-40 | the view is set; the calls happen only when the value differs |
| DockAreas.DockArea.SetTarget | src/ReDocking/DockArea.cs:29-33 | the target is set and no view is called |
| DockViews.DragDropCount | src/ReDocking/ReDock.cs:187-203 | zero exactly when the list holds no drag-drop behaviour |
| DockViews.WithoutDragDrop | src/ReDocking/ReDock.cs:197-200 | RemoveAll keeps exactly the other behaviours and leaves no drag-drop behaviour |
| DockViews.ResubscribedKeepsOneBehavior | src/ReDocking/ReDock.cs:187-203 | after the update there is one drag-drop behaviour while a slot is filled and none otherwise |
| DockViews.ResubscribedKeepsOtherBehaviors | src/ReDocking/ReDock.cs:187-203 | behaviours of other kinds are never added or removed |
| DockViews.ResubscribedIsIdempotent | src/ReDocking/ReDock.cs:187-203 | running the update twice with the same slots equals running it once |
| DockViews.Retyped | src/ReDocking/ReDock.cs:205-215 | while active the drag-drop behaviours are replaced by one of the new type (the default when null); otherwise nothing changes |
| DockViews.TargetSide | src/ReDocking/ReDock.cs:121-139 | LeftContent and RightContent select their slots, each as an if-and-only-if; anything else selects none |
| DockViews.LocationHalf | ReDocking/VerticallySplittedView.axaml.cs:92-104 | Top wins, then Bottom, each as an if-and-only-if on HasFlag |
| DockViews.NamedLocationHalves | ReDocking/VerticallySplittedView.axaml.cs:92-104 | over the named values the top slot takes the three Top values, the bottom slot the three Bottom values, and Left and Right go nowhere |
| DockViews.NarrowViewRefusesEveryDrag | src/ReDocking/ReDock.cs:277-280 | a view at most 10 pixels wide refuses every drag |
| DockViews.TwoWayDrag | src/ReDocking/HorizontallySplittedView.cs:248-255 | refused exactly by the margin guard; otherwise both proportions lie strictly between 0 and 1, sum to 1, and the first times the width is the new size |
| DockViews.ThreeWay | src/ReDocking/ReDock.cs:282-287 | the three clamped proportions lie in [0, 1]; the side panes' shares give back their sizes; when both fit, the three sum to 1 |
| DockViews.AbsoluteWidths | src/ReDocking/ReDock.cs:370-376 | the three widths sum to the view width and each lies in [0, w] for non-negative proportions |
| DockViews.ThreeWayDragIsUsable | src/ReDocking/ReDock.cs:268-310 | every accepted drag leaves proportions in [0, 1] that are not all zero, so GetAbsoluteWidth stays defined |
| DockViews.ReDock.constructor | src/ReDocking/ReDock.cs:25-44 | no areas and no behaviours; proportions 0.25, 0.5 and 0.25 |
| DockViews.ReDock.ApplyTemplate | src/ReDocking/ReDock.cs:248-266 | the template parts are present |
| DockViews.ReDock.UpdateIsDragDropEnabled | src/ReDocking/ReDock.cs:187-203 | the flag becomes "some slot is filled"; the list changes as Resubscribed says, and not at all when the state was already consistent |
| DockViews.ReDock.OnAttachedToDockArea | src/ReDocking/ReDock.cs:126-139 | the Target's slot receives the area, the area is listened to once more, and the subscription is updated |
| DockViews.ReDock.DockAreaOnPropertyChanged | src/ReDocking/ReDock.cs:141-170 | only a Target change acts: the old target's slot is cleared, the new target's slot receives the sender, and the subscription is updated |
| DockViews.ReDock.OnDetachedFromDockArea | src/ReDocking/ReDock.cs:172-185 | the Target's slot is cleared, one subscription is removed, and the subscription is updated |
| DockViews.ReDock.OnBehaviorTypeChanged | src/ReDocking/ReDock.cs:205-215 | the type is recorded and the list becomes Retyped |
| DockViews.ReDock.OnLeftThumbDragDelta | src/ReDocking/ReDock.cs:268-288 | refused drags change nothing; otherwise the proportions become ThreeWay of the new left width and the old right width |
| DockViews.ReDock.OnRightThumbDragDelta | src/ReDocking/ReDock.cs:290-310 | refused drags change nothing; otherwise the proportions become ThreeWay of the old left width and the new right width |
| DockViews.HorizontallySplittedView.constructor | src/ReDocking/HorizontallySplittedView.cs:25-36 | no areas and no behaviours; both proportions 1 |
| DockViews.HorizontallySplittedView.ApplyTemplate | src/ReDocking/HorizontallySplittedView.cs:217-236 | the template parts are present |
| DockViews.HorizontallySplittedView.UpdateIsDragDropEnabled | src/ReDocking/HorizontallySplittedView.cs:158-174 | the flag becomes "some slot is filled" and the list changes as Resubscribed says |
| DockViews.HorizontallySplittedView.OnAttachedToDockArea | src/ReDocking/HorizontallySplittedView.cs:97-110 | the Target's slot receives the area and the subscription is updated |
| DockViews.HorizontallySplittedView.DockAreaOnPropertyChanged | src/ReDocking/HorizontallySplittedView.cs:112-141 | only a Target change moves the sender between slots |
| DockViews.HorizontallySplittedView.OnDetachedFromDockArea | src/ReDocking/HorizontallySplittedView.cs:143-156 | the Target's slot is cleared and the subscription is updated |
| DockViews.HorizontallySplittedView.OnBehaviorTypeChanged | src/ReDocking/HorizontallySplittedView.cs:176-186 | the type is recorded and the list becomes Retyped |
| DockViews.HorizontallySplittedView.OnThumbDragDelta | src/ReDocking/HorizontallySplittedView.cs:238-256 | refused drags change nothing; otherwise the proportions become TwoWayDrag of the new left width |
| DockViews.VerticallySplittedView.constructor | ReDocking/VerticallySplittedView.axaml.cs:25-36 | no areas and no behaviours; both proportions 1 |
| DockViews.VerticallySplittedView.ApplyTemplate | ReDocking/VerticallySplittedView.axaml.cs:167-186 | the template parts are present |
| DockViews.VerticallySplittedView.UpdateIsDragDropEnabled | ReDocking/VerticallySplittedView.axaml.cs:120-136 | the flag becomes "some slot is filled", adding a plain drag-drop behaviour |
| DockViews.VerticallySplittedView.OnAttachedToDockArea | ReDocking/VerticallySplittedView.axaml.cs:92-104 | the slot LocationHalf picks receives the area and the subscription is updated |
| DockViews.VerticallySplittedView.OnDetachedFromDockArea | ReDocking/VerticallySplittedView.axaml.cs:106-118 | the slot LocationHalf picks is cleared and the subscription is updated |
| DockViews.VerticallySplittedView.OnThumbDragDelta | ReDocking/VerticallySplittedView.axaml.cs:188-206 | refused drags change nothing; otherwise the proportions become TwoWayDrag of the new top height |
| OverflowLayout.SizeOfIsFirstEntry | src/ReDocking/OverflowLayoutView.cs:237-240 | the size GetItemSize reports is that of the item's first cache entry (found as FindIndex finds it), or 0 when the item has none |
| OverflowLayout.KeyIndex | src/ReDocking/OverflowLayoutView.cs:150 | FindIndex: the first entry for the item, or -1 exactly when there is none |
| OverflowLayout.CacheStep | src/ReDocking/OverflowLayoutView.cs:149-166 | throws exactly when there is no container and no entry; with a container the cache then holds the item's new size |
| OverflowLayout.CacheStepKeepsKeysUnique | src/ReDocking/OverflowLayoutView.cs:149-166 | one step keeps at most one entry per item |
| OverflowLayout.CacheUpdateKeepsKeysUnique | src/ReDocking/OverflowLayoutView.cs:145-168 | UpdateSizeCache keeps at most one entry per item |
| OverflowLayout.CacheUpdateWithAllContainers | src/ReDocking/OverflowLayoutView.cs:145-168 | with every container realized the update does not throw |
| OverflowLayout.FirstUnmeasuredItemThrows | src/ReDocking/OverflowLayoutView.cs:150-155 | an unmeasured item without a container makes RemoveAt(-1) throw |
| OverflowLayout.ThrowKeepsEarlierSteps | src/ReDocking/OverflowLayoutView.cs:145-168 | when UpdateSizeCache throws, the cache it leaves is the complete update over the items before the first failing one, and that item's step is the one that throws |
| OverflowLayout.Without | src/ReDocking/OverflowLayoutView.cs:203 | RemoveAll keeps exactly the entries whose item was not removed |
| OverflowLayout.CutIndex | src/ReDocking/OverflowLayoutView.cs:257-273 | the overflow loop stops at or below its start |
| OverflowLayout.RestoreCount | src/ReDocking/OverflowLayoutView.cs:286-298 | the spare-room loop counts within the overflow list |
| OverflowLayout.CutIsShortestExceedingSuffix | src/ReDocking/OverflowLayoutView.cs:257-273 | the suffix moved out is the shortest whose cost exceeds the overflow, extended by one item |
| OverflowLayout.CutStart | src/ReDocking/OverflowLayoutView.cs:257-273 | the start of the moved suffix lies within the list |
| OverflowLayout.CutStartIsShortestExceedingSuffix | src/ReDocking/OverflowLayoutView.cs:254-281 | with a non-negative overflow, the moved suffix is the shortest exceeding one plus the item before it, or everything |
| OverflowLayout.RestoreIsLongestFittingPrefix | src/ReDocking/OverflowLayoutView.cs:286-298 | the items brought back are the longest prefix of the overflow list that fits the space |
| OverflowLayout.RestoreCountIsLongestFittingPrefix | src/ReDocking/OverflowLayoutView.cs:284-306 | from the start of the overflow list with room to spare, the restored prefix is the longest that fits |
| OverflowLayout.AddedAsWritten | src/ReDocking/OverflowLayoutView.cs:189-197 | the as-written Add: the visible items are kept as the prefix and the new items follow them, whatever the starting index |
| OverflowLayout.AddedAsWrittenAtEnd | src/ReDocking/OverflowLayoutView.cs:189-197 | when the new items start at the end of the visible list, the append is the intended insert, so the handler keeps the mirror there |
| OverflowLayout.AddBeforeEndReorders | src/ReDocking/OverflowLayoutView.cs:189-197 | as written, an Add before the last visible item puts it at the end, out of the source's order |
| OverflowLayout.AddedAtIndex | src/ReDocking/OverflowLayoutView.cs:189-197 | the intended Add: the new items sit at their starting index between the unchanged halves |
| OverflowLayout.AddedAtIndexKeepsMirror | src/ReDocking/OverflowLayoutView.cs:189-197 | with the intended Add, visible plus overflow items still equal the source after an insert at a visible index |
| OverflowLayout.RemovedFromOverflowKeepsMirror | src/ReDocking/OverflowLayoutView.cs:199-209 | cutting a Remove's range out of the overflow list, when the range starts past the visible items, leaves visible plus overflow items equal to the source with that range removed |
| OverflowLayout.FindCut | src/ReDocking/OverflowLayoutView.cs:257-273 | the overflow loop returns CutStart |
| OverflowLayout.FindRestore | src/ReDocking/OverflowLayoutView.cs:286-298 | the spare-room loop returns RestoreCount |
| OverflowLayout.OverflowLayoutView.constructor | src/ReDocking/OverflowLayoutView.cs:17-45 | no source, nothing cached, nothing visible or overflowing |
| OverflowLayout.OverflowLayoutView.ApplyTemplate | src/ReDocking/OverflowLayoutView.cs:83-96 | the template parts are present and nothing else changes |
| OverflowLayout.OverflowLayoutView.ResetItems | src/ReDocking/OverflowLayoutView.cs:217-230 | every source item is visible, nothing overflows, the button hides, and the partition mirrors the source |
| OverflowLayout.OverflowLayoutView.UpdateItemsSource | src/ReDocking/OverflowLayoutView.cs:170-185 | subscribes to a notifying source, clears the cache, and resets the partition to mirror the new source |
| OverflowLayout.OverflowLayoutView.UpdateSizeCache | src/ReDocking/OverflowLayoutView.cs:145-168 | the loop returns CacheUpdate, reports whether it threw, leaves the entries of the items before the throw updated (CacheReached), and keeps one entry per item |
| OverflowLayout.OverflowLayoutView.UpdateLayout | src/ReDocking/OverflowLayoutView.cs:247-308 | visible plus overflow items are unchanged as a sequence; a suffix moves out or a prefix moves back as the loops decide; a throwing cache update moves nothing |
| OverflowLayout.OverflowLayoutView.MeasureOverride | src/ReDocking/OverflowLayoutView.cs:122-143 | the button is measured once and shows after it exactly when items overflow; an infinite width resets the partition; any other width keeps visible plus overflow items as a sequence, and either moves the cut suffix out or the restored prefix back against the room left beside the newly measured button with the refreshed cache, or, when the cache update throws, moves nothing |
| OverflowLayout.OverflowLayoutView.OnItemsSourceCollectionChanged | src/ReDocking/OverflowLayoutView.cs:187-215 | an Add at or before the end of the visible list appends the new items to it whatever their starting index, and keeps the partition mirroring the source only for an Add at the end; a Remove at or past the end of the visible list cuts the removed range out of the overflow list when it fits, and keeps the mirror; a Remove drops the cache entries of the removed items; every other change resets |

## Left out

- Geometry is abstracted. Each handler takes, as inputs, the pointer's Y relative to each list and item, item heights, and whether a container is realized and visible.
- Margins become gap flags. Ghost positioning (`SetGhostYPosition`, `TranslatePoint`, the ghost's margin and size) is left out, as it only places a decoration.
- `Locations.Parse` folds case for ASCII letters only. OrdinalIgnoreCase folding of other characters does not affect the eight ASCII names.
- `LegacySideBars.SideBar.OnDragOver` and `OnDragEnter` require a layer whenever the template parts are present and button data arrives. The source dereferences `_layer` there without a check.
- ItemsSources are `ToolList` objects and are never null. A side bar whose source is null is not modelled.
- The side bar's `Location` is fixed at construction. Changing it later is not modelled.
- Property-change handlers that only re-subscribe collection events and call `InvalidateMeasure`, and the `UpdateSize` geometry of the views, are not modelled.
- Content objects (presenters, templates, icons, tool content) are strings or type parameters.
- `OverflowLayout.OverflowLayoutView.MeasureOverride` treats the button as unmeasured when its size along the orientation is 0. The source tests both width and height.
- `OverflowLayout.OverflowLayoutView.OnItemsSourceCollectionChanged` promises that the partition mirrors the source after an Add only when the Add starts at the end of the visible list. The source appends the new items whatever their starting index (see Findings).
- `SideBars.DragOverPreviewsUpperDrop` covers the upper sections only. The lower sections preview with the last item the pointer is below, while the drop takes the first item the pointer is above, so the two agree only through item geometry that the model abstracts away.
- The adorner layer is not modelled as an object. The drag-drop behaviour counts the ghosts it holds.
- The sample view model's reactive selection sync, its initial tool windows, and its floating window management are not modelled. Its lists start empty.
- In `Common`, `Buttons`, `LegacyButtons`, `SideBarLayout`, `SideBars`, `LegacySideBars` and `DockViews`, floating point is modelled as real numbers: no NaN, no rounding.
- `OverflowLayout` measures in whole numbers. The sizes in the cache, the spacing, the button size, the measured size and the available length are `nat` or `int`, while the source uses doubles that can be fractional. This applies to `OverflowLayout.OverflowLayoutView.UpdateLayout`, `OverflowLayout.OverflowLayoutView.MeasureOverride`, `OverflowLayout.CutIndex`, `OverflowLayout.RestoreCount`, `OverflowLayout.FindCut` and `OverflowLayout.FindRestore`. The cut and restore comparisons work the same for any ordered numbers, but the model does not prove this for fractional sizes.
- `DockViews.ReDock.OnLeftThumbDragDelta` and `OnRightThumbDragDelta` require proportions that are usable: each in [0, 1] and not all zero. The source divides by their sum without a check. Every accepted drag keeps them usable (`ThreeWayDragIsUsable`).
- `DockAreaDragDropBehavior.GetBehaviorType` is not part of this model. The attached type is an optional string, and the default type is used when it is null.
- The proportion properties can also be set from outside, by styles or bindings. The model only changes them through thumb drags.
- Repeated subscriptions to a dock area's PropertyChanged are counted in a multiset. Delivering one change several times is not modelled.
- The buttons' calls to `SetGridHitTestVisible` on their side bar are left out. `ShowFlyout` is a boolean result.
- The awaited `DoDragDrop` is split into a start (`OnPointerMoved`) and a completion (`OnDragCompleted`).
- The `EdgeBarLocation` type is a type parameter.
- `DockAreas.DockArea.SetView` follows Avalonia's rule that setting an equal value raises no change.
- Dispose, flyouts, menus and the display-mode flyout events are not part of this model.

## Findings

| source | as written | input that shows it | evidently intended | confidence | as-written member | corrected member |
|---|---|---|---|---|---|---|
| src/ReDocking/SideBar.cs:210-219 | a same-list drop removes the item, then inserts it at the slot index of the shortened list | list [a, b, c], drop a on slot 2 (in front of c): the result is [b, c, a]. A drop on the end slot (index 3) throws after the removal, and the item is lost | lower a slot after the item's own position by one, as the sample window does | not executed | ToolLists.TransferSameListLandsLate, ToolLists.TransferEndSlotLosesItem | ToolLists.ReorderLandsBeforeSlot, ToolLists.ReorderLandsOnSlot |
| src/ReDocking/OverflowLayoutView.cs:189-197 | an Add at or before the end of the visible list appends the new items to it | visible [1, 2], 3 inserted at index 0: the source is [3, 1, 2], but the visible list becomes [1, 2, 3] | insert the new items at their starting index | not executed | OverflowLayout.AddedAsWritten, OverflowLayout.AddBeforeEndReorders | OverflowLayout.AddedAtIndex, OverflowLayout.AddedAtIndexKeepsMirror |
