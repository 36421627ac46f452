/**
 * The ordered tool lists that side bars display and that drops rearrange:
 * the IList / ObservableCollection operations the drop handlers call
 * (IndexOf, Remove, Insert, Move, Add), the side bar's own
 * remove-then-insert transfer, and the index correction the sample window
 * applies before a same-list Move.
 */
module ToolLists {

  /** The list contents after an operation, and whether it completed or threw ArgumentOutOfRangeException. */
  datatype ListResult<T> = Done(items: seq<T>) | OutOfRange(items: seq<T>)

  /** IList.IndexOf: position of the first element equal to x, or -1. */
  function IndexOf<T(==)>(s: seq<T>, x: T): (r: int)
    ensures -1 <= r < |s|
    ensures r < 0 <==> x !in s
    ensures 0 <= r ==> s[r] == x && x !in s[..r]
  {
    if |s| == 0 then -1
    else if s[0] == x then 0
    else
      var k := IndexOf(s[1..], x);
      assert s[1..][..if k < 0 then 0 else k] == s[1..if k < 0 then 1 else k + 1];
      if k < 0 then -1 else k + 1
  }

  /** Collection.RemoveAt: deletes the element at index i. */
  function RemoveAt<T>(s: seq<T>, i: nat): (r: seq<T>)
    requires i < |s|
    ensures |r| == |s| - 1
    ensures multiset(r) == multiset(s) - multiset{s[i]}
    ensures forall k :: 0 <= k < |r| ==> r[k] == if k < i then s[k] else s[k + 1]
  {
    assert s == s[..i] + [s[i]] + s[i + 1..];
    s[..i] + s[i + 1..]
  }

  /** IList.Remove: deletes the first occurrence of x and does nothing when x is absent. */
  function RemoveFirst<T(==)>(s: seq<T>, x: T): (r: seq<T>)
    ensures multiset(r) == multiset(s) - multiset{x}
    ensures |r| == if x in s then |s| - 1 else |s|
    ensures x !in s ==> r == s
    ensures x in s ==> forall k :: 0 <= k < |r| ==> r[k] == if k < IndexOf(s, x) then s[k] else s[k + 1]
  {
    var i := IndexOf(s, x);
    if i < 0 then
      AbsentRemovesNothing(s, x);
      s
    else
      assert s[i] == x;
      RemoveAt(s, i)
  }

  /** Taking out an element the list does not hold leaves its multiset as it was. */
  lemma AbsentRemovesNothing<T>(s: seq<T>, x: T)
    requires x !in s
    ensures multiset(s) - multiset{x} == multiset(s)
  {
    assert x !in multiset(s);
  }

  /**
   * IList.Insert: places x at index, shifting the rest up; an index below 0
   * or above the length throws and leaves the list as it was.
   */
  function InsertAt<T>(s: seq<T>, index: int, x: T): (r: ListResult<T>)
    ensures r.Done? <==> 0 <= index <= |s|
    ensures r.OutOfRange? ==> r.items == s
    ensures r.Done? ==> |r.items| == |s| + 1 && r.items[index] == x
    ensures r.Done? ==> multiset(r.items) == multiset(s) + multiset{x}
    ensures r.Done? ==> forall k :: 0 <= k < |s| ==> s[k] == r.items[if k < index then k else k + 1]
  {
    if 0 <= index <= |s| then
      assert s == s[..index] + s[index..];
      Done(s[..index] + [x] + s[index..])
    else OutOfRange(s)
  }

  /**
   * ObservableCollection.Move: reads the element at oldIndex (throwing when
   * oldIndex is out of range), removes it, and inserts it at newIndex of the
   * shortened list, which throws when newIndex is past its end.
   */
  function MoveWithin<T>(s: seq<T>, oldIndex: int, newIndex: int): (r: ListResult<T>)
    ensures r.Done? <==> 0 <= oldIndex < |s| && 0 <= newIndex < |s|
    ensures r.Done? ==> multiset(r.items) == multiset(s) && |r.items| == |s|
    ensures r.Done? ==> r.items[newIndex] == s[oldIndex]
    ensures !(0 <= oldIndex < |s|) ==> r == OutOfRange(s)
  {
    if 0 <= oldIndex < |s| then
      var removed := RemoveAt(s, oldIndex);
      var r := InsertAt(removed, newIndex, s[oldIndex]);
      if r.Done? then
        assert multiset(removed) + multiset{s[oldIndex]} == multiset(s);
        r
      else r
    else OutOfRange(s)
  }

  /**
   * Move reads and removes the element before it inserts: with a valid old
   * index and a new index past the shortened list, it throws with the
   * element already gone.
   */
  lemma MoveWithinThrowsAfterRemoval<T>(s: seq<T>, oldIndex: int, newIndex: int)
    requires 0 <= oldIndex < |s| && !(0 <= newIndex < |s|)
    ensures MoveWithin(s, oldIndex, newIndex) == OutOfRange(RemoveAt(s, oldIndex))
  {
  }

  /**
   * The sample window's index correction for a same-list move: a drop slot
   * after the item's own position counts the item itself, so it is lowered by one.
   */
  function AdjustedTarget(sourceIndex: int, destinationIndex: int): (r: int)
    ensures sourceIndex < destinationIndex ==> r == destinationIndex - 1
    ensures sourceIndex >= destinationIndex ==> r == destinationIndex
  {
    if sourceIndex < destinationIndex then destinationIndex - 1 else destinationIndex
  }

  /** A same-list reorder as the sample window performs it: find the item, correct the slot, Move. */
  function Reorder<T(==)>(s: seq<T>, x: T, slot: int): (r: ListResult<T>)
    ensures x in s && 0 <= slot <= |s| ==> r.Done?
    ensures x !in s ==> r == OutOfRange(s)
    ensures r.Done? ==> multiset(r.items) == multiset(s)
  {
    var from := IndexOf(s, x);
    MoveWithin(s, from, AdjustedTarget(from, slot))
  }

  /** For a slot in [0, n] and a source position in [0, n), the corrected Move target lies in [0, n - 1]. */
  lemma AdjustedTargetInRange(sourceIndex: int, destinationIndex: int, n: int)
    requires 0 <= sourceIndex < n && 0 <= destinationIndex <= n
    ensures 0 <= AdjustedTarget(sourceIndex, destinationIndex) <= n - 1
  {
  }

  /** Dropping an item on its own slot, or on the slot just after it, leaves the order unchanged. */
  lemma {:induction false} ReorderOntoOwnSlotIsIdentity<T>(s: seq<T>, i: nat, slot: int)
    requires i < |s| && (slot == i || slot == i + 1)
    ensures MoveWithin(s, i, AdjustedTarget(i, slot)) == Done(s)
  {
    var removed := RemoveAt(s, i);
    var r := InsertAt(removed, i, s[i]);
    assert AdjustedTarget(i, slot) == i;
    assert removed[..i] == s[..i];
    assert removed[i..] == s[i + 1..];
    assert s == s[..i] + [s[i]] + s[i + 1..];
  }

  /**
   * After the corrected Move the item sits immediately before the element
   * that occupied the drop slot, or last when the slot was the end.
   */
  lemma {:induction false} ReorderLandsBeforeSlot<T>(s: seq<T>, x: T, slot: int)
    requires x in s && 0 <= slot <= |s|
    ensures Reorder(s, x, slot).Done?
    ensures var r := Reorder(s, x, slot).items;
            var t := AdjustedTarget(IndexOf(s, x), slot);
            r[t] == x &&
            (slot == |s| ==> t == |r| - 1) &&
            (slot < |s| && slot != IndexOf(s, x) ==> t + 1 < |r| && r[t + 1] == s[slot])
  {
    var from := IndexOf(s, x);
    var t := AdjustedTarget(from, slot);
    var removed := RemoveAt(s, from);
    var r := Reorder(s, x, slot).items;
    assert r == InsertAt(removed, t, x).items;
    if slot < |s| && slot != from {
      if from < slot {
        assert removed[t] == s[slot];
      } else {
        assert removed[t] == s[slot];
      }
      assert r[t + 1] == removed[t];
    }
  }

  /** What the side bar's own drop fallback leaves in the source and destination lists. */
  datatype Transfer<T> = Transferred(source: seq<T>, destination: seq<T>)
                       | InsertOutOfRange(source: seq<T>, destination: seq<T>)

  /**
   * SideBar.OnDrop without a handler: Remove the item from its source list,
   * then Insert it at the slot index of the destination list. When both are
   * the same list the insert sees the shortened list; when the insert throws
   * the removal has already happened.
   */
  function TransferItem<T(==)>(source: seq<T>, destination: seq<T>, sameList: bool, x: T, index: int): (r: Transfer<T>)
    ensures sameList ==> r.source == r.destination
    ensures !sameList ==> r.source == RemoveFirst(source, x)
    ensures !sameList && r.InsertOutOfRange? ==> r.destination == destination
  {
    var removed := RemoveFirst(source, x);
    var into := if sameList then removed else destination;
    match InsertAt(into, index, x)
    case Done(v) => if sameList then Transferred(v, v) else Transferred(removed, v)
    case OutOfRange(_) => if sameList then InsertOutOfRange(removed, removed) else InsertOutOfRange(removed, destination)
  }

  /**
   * A completed transfer keeps every item: the multiset of both lists is
   * unchanged, and the item sits at the requested index of the destination.
   */
  lemma {:induction false} TransferKeepsItems<T>(source: seq<T>, destination: seq<T>, sameList: bool, x: T, index: int)
    requires x in source
    requires TransferItem(source, destination, sameList, x, index).Transferred?
    ensures var r := TransferItem(source, destination, sameList, x, index);
            r.destination[index] == x &&
            (sameList ==> multiset(r.destination) == multiset(source) && |r.destination| == |source|) &&
            (!sameList ==> multiset(r.source) + multiset(r.destination) == multiset(source) + multiset(destination)
                           && |r.source| == |source| - 1 && |r.destination| == |destination| + 1)
  {
    var removed := RemoveFirst(source, x);
    assert multiset(removed) + multiset{x} == multiset(source);
  }

  /**
   * The Insert completes exactly when the slot index fits the destination
   * as it is after the removal: at most |destination| for another list, at
   * most |source| - 1 for the same list.
   */
  lemma TransferCompletesIff<T>(source: seq<T>, destination: seq<T>, sameList: bool, x: T, index: int)
    requires x in source && 0 <= index
    ensures TransferItem(source, destination, sameList, x, index).Transferred?
        <==> index <= (if sameList then |source| - 1 else |destination|)
  {
  }

  /**
   * As written, a same-list drop on the end slot (the slot count still
   * includes the dragged item) throws after the removal: the item is lost.
   */
  lemma TransferEndSlotLosesItem<T>(source: seq<T>, x: T)
    requires x in source
    ensures var r := TransferItem(source, source, true, x, |source|);
            r.InsertOutOfRange? && multiset(r.source) == multiset(source) - multiset{x}
  {
  }

  /**
   * As written, a same-list drop after the item's own position lands one
   * slot late: moving a onto the slot in front of c in [a, b, c] puts it after c.
   */
  lemma TransferSameListLandsLate<T>(a: T, b: T, c: T)
    ensures TransferItem([a, b, c], [a, b, c], true, a, 2) == Transferred([b, c, a], [b, c, a])
  {
    RemoveFirstOfThree(a, b, c);
    InsertAfterTwo(b, c, a);
  }

  /** The corrected reorder puts a in front of c, on the slot it was dropped on. */
  lemma ReorderLandsOnSlot<T>(a: T, b: T, c: T)
    ensures Reorder([a, b, c], a, 2) == Done([b, a, c])
  {
    RemoveFirstOfThree(a, b, c);
    InsertBetweenTwo(b, c, a);
    MoveIsRemoveThenInsert([a, b, c], 0, 1);
  }

  /** Inserting x into [y, z] at index 1. */
  lemma InsertBetweenTwo<T>(y: T, z: T, x: T)
    ensures InsertAt([y, z], 1, x) == Done([y, x, z])
  {
    var s := [y, z];
    assert s[..1] == [y] && s[1..] == [z];
  }

  /** Inserting x into [y, z] at index 2. */
  lemma InsertAfterTwo<T>(y: T, z: T, x: T)
    ensures InsertAt([y, z], 2, x) == Done([y, z, x])
  {
    var s := [y, z];
    assert s[..2] == s && s[2..] == [];
  }

  /** Move is RemoveAt followed by Insert into the shortened list. */
  lemma MoveIsRemoveThenInsert<T>(s: seq<T>, oldIndex: nat, newIndex: int)
    requires oldIndex < |s|
    ensures MoveWithin(s, oldIndex, newIndex) == InsertAt(RemoveAt(s, oldIndex), newIndex, s[oldIndex])
  {
  }

  /** In [a, b, c], a is found first, and removing it leaves [b, c]. */
  lemma RemoveFirstOfThree<T>(a: T, b: T, c: T)
    ensures IndexOf([a, b, c], a) == 0
    ensures RemoveAt([a, b, c], 0) == [b, c] && RemoveFirst([a, b, c], a) == [b, c]
  {
    var s := [a, b, c];
    assert s[..0] == [] && s[1..] == [b, c];
  }

  /** An IList whose element sequence the drop handlers change in place. */
  class ToolList<T(==)> {
    var items: seq<T>
    /** Whether the ItemsSource behind this list implements IList (the side bar only moves items between ILists). */
    const isList: bool

    constructor (initial: seq<T>, isList: bool)
      ensures items == initial && this.isList == isList
    {
      items := initial;
      this.isList := isList;
    }

    method Remove(x: T)
      modifies this
      ensures items == RemoveFirst(old(items), x)
    {
      items := RemoveFirst(items, x);
    }

    method Insert(index: int, x: T) returns (ok: bool)
      modifies this
      ensures ok == InsertAt(old(items), index, x).Done?
      ensures items == InsertAt(old(items), index, x).items
    {
      var r := InsertAt(items, index, x);
      items := r.items;
      ok := r.Done?;
    }

    method Move(oldIndex: int, newIndex: int) returns (ok: bool)
      modifies this
      ensures ok == MoveWithin(old(items), oldIndex, newIndex).Done?
      ensures items == MoveWithin(old(items), oldIndex, newIndex).items
    {
      var r := MoveWithin(items, oldIndex, newIndex);
      items := r.items;
      ok := r.Done?;
    }

    method Add(x: T)
      modifies this
      ensures items == old(items) + [x]
    {
      items := items + [x];
    }
  }
}
