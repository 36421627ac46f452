/**
 * The list work both side bars do at the end of a drop: when both
 * ItemsSources are ILists, the dragged button's DataContext, else the
 * button itself, is removed from the source list and inserted into the
 * destination list at the slot index.
 */
module DropMoves {
  import opened Common
  import opened ToolLists

  /** How a drop that raised its move event ended. */
  datatype DropResult = HandledByListener | ListsUnavailable | ItemNotInSource | Moved | InsertThrew {
    /** The lists were touched: the element was removed, and inserted unless the Insert threw. */
    predicate Touched() { this == Moved || this == InsertThrew }
  }

  /** The element a drop moves: the DataContext when the source list holds it, else the button itself. */
  function MovedElement<T(==)>(dataContext: Option<T>, self: T, source: seq<T>): (r: Option<T>)
    ensures r.Some? ==> r.value in source
    ensures r.None? <==> (dataContext.None? || dataContext.value !in source) && self !in source
    ensures dataContext.Some? && dataContext.value in source ==> r == dataContext
  {
    if dataContext.Some? && dataContext.value in source then dataContext
    else if self in source then Some(self)
    else None
  }

  /**
   * Both lists must be ILists (src is null when the button has no
   * ItemsControl ancestor); the moved element is removed from src and
   * inserted at index into dst, which may be the same list.
   */
  method MoveItem<T(==)>(src: ToolList?<T>, dataContext: Option<T>, self: T, dst: ToolList<T>, index: int)
    returns (result: DropResult)
    modifies src, dst
    ensures result != HandledByListener
    ensures result == ListsUnavailable <==> src == null || !src.isList || !dst.isList
    ensures result.Touched() ==>
              src != null && MovedElement(dataContext, self, old(src.items)).Some? &&
              var r := TransferItem(old(src.items), old(dst.items), src == dst,
                                    MovedElement(dataContext, self, old(src.items)).value, index);
              src.items == r.source && dst.items == r.destination && (result == Moved <==> r.Transferred?)
    ensures !result.Touched() ==> unchanged(dst) && (src != null ==> unchanged(src))
  {
    if src == null || !src.isList || !dst.isList {
      return ListsUnavailable;
    }
    var x := MovedElement(dataContext, self, src.items);
    if x.None? {
      return ItemNotInSource;
    }
    src.Remove(x.value);
    var ok := dst.Insert(index, x.value);
    result := if ok then Moved else InsertThrew;
  }
}
