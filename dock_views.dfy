/**
 * The dock-area views: ReDock (three panes), HorizontallySplittedView (left and
 * right panes) and the legacy VerticallySplittedView (top and bottom panes).
 *
 * Each view keeps two optional slots for the dock areas attached to it and a
 * "drag event subscribed" flag that must agree with exactly one drag-drop
 * behaviour being present in its behaviours list. A thumb drag rewrites the
 * pane proportions, guarded against panes narrower than 5 pixels and clamped
 * to [0, 1].
 *
 * Dock areas are identified by a value of the type parameter A; the area's
 * Target string and legacy Location flags are passed to the handlers as they
 * read them.
 */
module DockViews {
  import opened Common
  import LegacyLocations

  /** The Target names that select the two side panes (nameof(LeftContent), nameof(RightContent)). */
  const LeftContent: string := "LeftContent"
  const RightContent: string := "RightContent"

  /** The type created when no BehaviorType is set. */
  const DefaultBehaviorType: string := "DockAreaDragDropBehavior"

  /** The drag margin: a pane may not become 5 pixels or narrower, nor reach 5 pixels from the far edge. */
  const Margin: real := 5.0

  /** An entry of a control's behaviours list: a drag-drop behaviour of some type, or anything else. */
  datatype Behavior = DragDrop(typeName: string) | Other(name: string)

  /** The properties of a DockArea whose change raises PropertyChanged. */
  datatype DockAreaProperty = LocationProperty | ViewProperty | SideBarProperty | TargetProperty | LocalizedNameProperty

  /** Number of drag-drop behaviours in a behaviours list. */
  function DragDropCount(s: seq<Behavior>): (n: nat)
    ensures n <= |s|
    ensures n == 0 <==> forall i :: 0 <= i < |s| ==> !s[i].DragDrop?
  {
    if s == [] then 0
    else DragDropCount(s[..|s| - 1]) + (if s[|s| - 1].DragDrop? then 1 else 0)
  }

  /** list.RemoveAll(list.OfType<DockAreaDragDropBehavior>()): drops every drag-drop behaviour, keeps the rest in order. */
  function WithoutDragDrop(s: seq<Behavior>): (r: seq<Behavior>)
    ensures forall b :: b in r <==> b in s && !b.DragDrop?
    ensures DragDropCount(r) == 0
    ensures |r| == |s| - DragDropCount(s)
  {
    if s == [] then []
    else
      var rest := WithoutDragDrop(s[..|s| - 1]);
      assert s == s[..|s| - 1] + [s[|s| - 1]];
      if s[|s| - 1].DragDrop? then rest else rest + [s[|s| - 1]]
  }

  /**
   * The behaviours list after UpdateIsDragDropEnabled, given whether the flag was
   * set and whether some slot is now filled: a behaviour is added only when the
   * flag turns on, all drag-drop behaviours are removed only when it turns off,
   * and otherwise the list is left alone.
   */
  function Resubscribed(wasSubscribed: bool, anyFilled: bool, behaviors: seq<Behavior>, added: Behavior): seq<Behavior> {
    if anyFilled == wasSubscribed then behaviors
    else if anyFilled then behaviors + [added]
    else WithoutDragDrop(behaviors)
  }

  /** The flag-agreement invariant survives every resubscription: one drag-drop behaviour while subscribed, none otherwise. */
  lemma ResubscribedKeepsOneBehavior(wasSubscribed: bool, anyFilled: bool, behaviors: seq<Behavior>, typeName: string)
    requires DragDropCount(behaviors) == (if wasSubscribed then 1 else 0)
    ensures DragDropCount(Resubscribed(wasSubscribed, anyFilled, behaviors, DragDrop(typeName))) == (if anyFilled then 1 else 0)
  {
    if anyFilled != wasSubscribed && anyFilled {
      var r := behaviors + [DragDrop(typeName)];
      assert r[..|r| - 1] == behaviors;
    }
  }

  /** Behaviours that are not drag-drop behaviours are never added or removed by a resubscription. */
  lemma ResubscribedKeepsOtherBehaviors(wasSubscribed: bool, anyFilled: bool, behaviors: seq<Behavior>, typeName: string, b: Behavior)
    requires b.Other?
    ensures b in Resubscribed(wasSubscribed, anyFilled, behaviors, DragDrop(typeName)) <==> b in behaviors
  {
  }

  /** Running the update a second time with the same slots changes nothing. */
  lemma ResubscribedIsIdempotent(wasSubscribed: bool, anyFilled: bool, behaviors: seq<Behavior>, added: Behavior)
    ensures var once := Resubscribed(wasSubscribed, anyFilled, behaviors, added);
            Resubscribed(anyFilled, anyFilled, once, added) == once
  {
  }

  /** The behaviours list after a BehaviorType change: while subscribed with a filled slot every drag-drop behaviour is replaced by one of the new type (the default type when null). */
  function Retyped(active: bool, behaviors: seq<Behavior>, newType: Option<string>): (r: seq<Behavior>)
    ensures !active ==> r == behaviors
    ensures active ==> DragDropCount(r) == 1 && r[|r| - 1] == DragDrop(newType.GetOr(DefaultBehaviorType))
    ensures forall b: Behavior :: b.Other? ==> (b in r <==> b in behaviors)
  {
    if active then
      var r := WithoutDragDrop(behaviors) + [DragDrop(newType.GetOr(DefaultBehaviorType))];
      assert r[..|r| - 1] == WithoutDragDrop(behaviors);
      r
    else behaviors
  }

  /** A side of a horizontally split view. */
  datatype Side = LeftSide | RightSide

  /** The slot a Target string names: "LeftContent" the left one, "RightContent" the right one, anything else (null included) none. */
  function TargetSide(target: Option<string>): (r: Option<Side>)
    ensures r == Some(LeftSide) <==> target == Some(LeftContent)
    ensures r == Some(RightSide) <==> target == Some(RightContent)
    ensures r.None? <==> target != Some(LeftContent) && target != Some(RightContent)
  {
    if target == Some(LeftContent) then Some(LeftSide)
    else if target == Some(RightContent) then Some(RightSide)
    else None
  }

  /** A half of a vertically split view. */
  datatype Half = TopHalf | BottomHalf

  /** The slot a legacy Location names: the Top flag wins, then the Bottom flag, otherwise none. */
  function LocationHalf(location: LegacyLocations.Flags): (r: Option<Half>)
    ensures r == Some(TopHalf) <==> LegacyLocations.HasFlag(location, LegacyLocations.Top)
    ensures r == Some(BottomHalf) <==>
      !LegacyLocations.HasFlag(location, LegacyLocations.Top) && LegacyLocations.HasFlag(location, LegacyLocations.Bottom)
  {
    if LegacyLocations.HasFlag(location, LegacyLocations.Top) then Some(TopHalf)
    else if LegacyLocations.HasFlag(location, LegacyLocations.Bottom) then Some(BottomHalf)
    else None
  }

  /** Over the named legacy locations, Top, TopLeft and TopRight go to the top slot, Bottom, BottomLeft and BottomRight to the bottom slot, Left and Right to neither. */
  lemma NamedLocationHalves(v: LegacyLocations.Flags)
    requires v in LegacyLocations.Named
    ensures LocationHalf(v) == Some(TopHalf) <==>
      v == LegacyLocations.Top || v == LegacyLocations.TopLeft || v == LegacyLocations.TopRight
    ensures LocationHalf(v) == Some(BottomHalf) <==>
      v == LegacyLocations.Bottom || v == LegacyLocations.BottomLeft || v == LegacyLocations.BottomRight
    ensures LocationHalf(v).None? <==> v == LegacyLocations.Left || v == LegacyLocations.Right
  {
    LegacyLocations.TopMembership(v);
    LegacyLocations.BottomMembership(v);
  }

  /** A thumb drag is refused when the dragged pane would end up within the margin of either edge. */
  predicate Rejected(x: real, w: real) {
    x + Margin >= w || x <= Margin
  }

  /** A view no wider than twice the margin refuses every drag. */
  lemma NarrowViewRefusesEveryDrag(x: real, w: real)
    requires w <= 2.0 * Margin
    ensures Rejected(x, w)
  {
  }

  /** The share x / w of a positive size w: multiplying back gives x, and it lies in [0, 1] (strictly inside for 0 < x < w). */
  lemma Share(x: real, w: real)
    requires w > 0.0
    ensures x / w * w == x
    ensures 0.0 <= x <= w ==> 0.0 <= x / w <= 1.0
    ensures 0.0 < x < w ==> 0.0 < x / w < 1.0
    ensures x > 0.0 ==> x / w > 0.0
    ensures x > w ==> x / w > 1.0
  {
  }

  /** Shares add up: x / w + y / w == (x + y) / w. */
  lemma ShareOfSum(x: real, y: real, w: real)
    requires w > 0.0
    ensures x / w + y / w == (x + y) / w
  {
    assert (x / w + y / w) * w == x / w * w + y / w * w;
  }

  /**
   * The two proportions written by a two-pane thumb drag that gives the first
   * pane the size x in a view of size w: x / w and 1 - x / w, each clamped to
   * [0, 1]. The drag is refused (None) exactly when Rejected holds.
   */
  function TwoWayDrag(x: real, w: real): (r: Option<(real, real)>)
    ensures r.None? <==> Rejected(x, w)
    ensures r.Some? ==> 0.0 < r.value.0 < 1.0 && 0.0 < r.value.1 < 1.0
    ensures r.Some? ==> r.value.0 + r.value.1 == 1.0
    ensures r.Some? ==> r.value.0 * w == x
  {
    if Rejected(x, w) then None
    else
      Share(x, w);
      Some((Clamp(x / w, 0.0, 1.0), Clamp(1.0 - x / w, 0.0, 1.0)))
  }

  /**
   * The three proportions written by a ReDock thumb drag that leaves the left
   * pane the size left and the right pane the size right in a view of size w:
   * left / w, right / w and the remainder 1 - (left + right) / w, each clamped.
   */
  function ThreeWay(left: real, right: real, w: real): (r: (real, real, real))
    requires w > 0.0
    ensures 0.0 <= r.0 <= 1.0 && 0.0 <= r.1 <= 1.0 && 0.0 <= r.2 <= 1.0
    ensures 0.0 <= left <= w ==> r.0 * w == left
    ensures 0.0 <= right <= w ==> r.2 * w == right
    ensures 0.0 <= left && 0.0 <= right && left + right <= w ==>
      r.0 + r.1 + r.2 == 1.0 && r.1 * w == w - left - right
    ensures left + right > w ==> r.1 == 0.0
  {
    var lp := left / w;
    var rp := right / w;
    var cp := 1.0 - (lp + rp);
    ThreeShares(left, right, w);
    var r := (Clamp(lp, 0.0, 1.0), Clamp(cp, 0.0, 1.0), Clamp(rp, 0.0, 1.0));
    assert 0.0 <= left <= w ==> r.0 == lp;
    assert 0.0 <= right <= w ==> r.2 == rp;
    assert 0.0 <= left && 0.0 <= right && left + right <= w ==> r.1 == cp;
    r
  }

  /** The unclamped shares of a three-way drag: each side share multiplies back, and the remainder is what is left. */
  lemma ThreeShares(left: real, right: real, w: real)
    requires w > 0.0
    ensures 0.0 <= left <= w ==> 0.0 <= left / w <= 1.0 && left / w * w == left
    ensures 0.0 <= right <= w ==> 0.0 <= right / w <= 1.0 && right / w * w == right
    ensures 0.0 <= left && 0.0 <= right && left + right <= w ==>
      0.0 <= 1.0 - (left / w + right / w) <= 1.0 && (1.0 - (left / w + right / w)) * w == w - left - right
    ensures left + right > w ==> left / w + right / w > 1.0
  {
    Share(left, w);
    Share(right, w);
    Share(left + right, w);
    ShareOfSum(left, right, w);
  }

  /** GetAbsoluteWidth: the view size shared out in proportion to the three pane proportions. */
  function AbsoluteWidths(lp: real, cp: real, rp: real, w: real): (r: (real, real, real))
    requires lp + cp + rp != 0.0
    ensures r.0 + r.1 + r.2 == w
    ensures 0.0 <= lp && 0.0 <= cp && 0.0 <= rp && w >= 0.0 ==>
      0.0 <= r.0 <= w && 0.0 <= r.1 <= w && 0.0 <= r.2 <= w
  {
    var den := lp + cp + rp;
    var r := (w * lp / den, w * cp / den, w * rp / den);
    SharesAddUp(w * lp, w * cp, w * rp, den);
    assert w * lp + w * cp + w * rp == w * den;
    assert w * den / den == w;
    SharesWithinView(lp, cp, rp, w);
    r
  }

  /** Three shares of the same denominator add up: a / d + b / d + c / d == (a + b + c) / d. */
  lemma SharesAddUp(a: real, b: real, c: real, d: real)
    requires d != 0.0
    ensures a / d + b / d + c / d == (a + b + c) / d
  {
    assert (a / d + b / d + c / d) * d == a / d * d + b / d * d + c / d * d;
  }

  /** With non-negative proportions and size, every share lies in [0, w]. */
  lemma SharesWithinView(lp: real, cp: real, rp: real, w: real)
    requires lp + cp + rp != 0.0
    ensures 0.0 <= lp && 0.0 <= cp && 0.0 <= rp && w >= 0.0 ==>
      var den := lp + cp + rp;
      0.0 <= w * lp / den <= w && 0.0 <= w * cp / den <= w && 0.0 <= w * rp / den <= w
  {
    var den := lp + cp + rp;
    if 0.0 <= lp && 0.0 <= cp && 0.0 <= rp && w >= 0.0 {
      assert den > 0.0;
      assert w * lp <= w * den && w * cp <= w * den && w * rp <= w * den;
      DivideBelow(w * lp, den, w);
      DivideBelow(w * cp, den, w);
      DivideBelow(w * rp, den, w);
    }
  }

  /** 0 <= a <= w * d with d > 0 gives 0 <= a / d <= w. */
  lemma DivideBelow(a: real, d: real, w: real)
    requires d > 0.0 && 0.0 <= a <= w * d
    ensures 0.0 <= a / d <= w
  {
    assert a / d * d == a;
  }

  /** Proportions that keep GetAbsoluteWidth defined: each in [0, 1] and not all zero. */
  predicate ProportionsUsable(lp: real, cp: real, rp: real) {
    0.0 <= lp <= 1.0 && 0.0 <= cp <= 1.0 && 0.0 <= rp <= 1.0 && lp + cp + rp > 0.0
  }

  /** Every accepted drag of ReDock's left or right pane leaves usable proportions, so the denominator of GetAbsoluteWidth never becomes zero. */
  lemma ThreeWayDragIsUsable(left: real, right: real, w: real)
    requires w > 0.0
    requires !Rejected(left, w) || !Rejected(right, w)
    ensures var r := ThreeWay(left, right, w); ProportionsUsable(r.0, r.1, r.2)
  {
    var r := ThreeWay(left, right, w);
    if !Rejected(left, w) {
      assert left / w > 0.0;
      assert r.0 > 0.0;
    } else {
      assert right / w > 0.0;
      assert r.2 > 0.0;
    }
  }

  /** ReDock: a centre pane between optional left and right dock areas. */
  class ReDock<A(==)> {
    var leftArea: Option<A>
    var rightArea: Option<A>
    /** The dock areas whose PropertyChanged event this view handles, one entry per subscription. */
    var listening: multiset<A>
    var dragEventSubscribed: bool
    var behaviors: seq<Behavior>
    /** The attached DockAreaDragDropBehavior.BehaviorType value (null when unset). */
    var behaviorType: Option<string>
    /** The presenters exist once the template has been applied. */
    var templateApplied: bool
    var leftWidthProportion: real
    var widthProportion: real
    var rightWidthProportion: real

    predicate AnyFilled()
      reads this`leftArea, this`rightArea
    {
      leftArea.Some? || rightArea.Some?
    }

    /** One drag-drop behaviour while subscribed, none otherwise. */
    predicate BehaviorsAgree()
      reads this`dragEventSubscribed, this`behaviors
    {
      DragDropCount(behaviors) == (if dragEventSubscribed then 1 else 0)
    }

    /** The subscription state between handlers: the flag is set exactly when some slot is filled. */
    predicate Valid()
      reads this`dragEventSubscribed, this`behaviors, this`leftArea, this`rightArea
    {
      BehaviorsAgree() && dragEventSubscribed == AnyFilled()
    }

    predicate Usable()
      reads this`leftWidthProportion, this`widthProportion, this`rightWidthProportion
    {
      ProportionsUsable(leftWidthProportion, widthProportion, rightWidthProportion)
    }

    /** The type a new drag-drop behaviour is created from. */
    function BehaviorTypeName(): string
      reads this`behaviorType
    {
      behaviorType.GetOr(DefaultBehaviorType)
    }

    /** A fresh view: no areas, no behaviours, proportions 1/4, 1/2, 1/4. */
    constructor ()
      ensures leftArea.None? && rightArea.None? && listening == multiset{}
      ensures behaviors == [] && behaviorType.None? && !templateApplied
      ensures leftWidthProportion == 0.25 && widthProportion == 0.5 && rightWidthProportion == 0.25
      ensures Valid() && Usable()
    {
      leftArea, rightArea, listening := None, None, multiset{};
      dragEventSubscribed, behaviors, behaviorType := false, [], None;
      templateApplied := false;
      leftWidthProportion, widthProportion, rightWidthProportion := 0.25, 0.5, 0.25;
    }

    method ApplyTemplate()
      modifies this`templateApplied
      ensures templateApplied
    {
      templateApplied := true;
    }

    /** UpdateIsDragDropEnabled: sets the flag to "some slot is filled", adding or removing the behaviour only when the flag changes. */
    method UpdateIsDragDropEnabled()
      requires BehaviorsAgree()
      modifies this`dragEventSubscribed, this`behaviors
      ensures Valid()
      ensures behaviors == Resubscribed(old(dragEventSubscribed), AnyFilled(), old(behaviors), DragDrop(BehaviorTypeName()))
      ensures old(Valid()) ==> behaviors == old(behaviors)
    {
      var typeName := BehaviorTypeName();
      ResubscribedKeepsOneBehavior(dragEventSubscribed, AnyFilled(), behaviors, typeName);
      if AnyFilled() {
        if dragEventSubscribed {
          return;
        }
        dragEventSubscribed := true;
        behaviors := behaviors + [DragDrop(typeName)];
      } else {
        if !dragEventSubscribed {
          return;
        }
        dragEventSubscribed := false;
        behaviors := WithoutDragDrop(behaviors);
      }
    }

    /** OnAttachedToDockArea: the Target picks the slot to fill, the area's PropertyChanged is subscribed, and the flag is brought up to date. */
    method OnAttachedToDockArea(area: A, target: Option<string>)
      requires Valid()
      modifies this`leftArea, this`rightArea, this`listening, this`dragEventSubscribed, this`behaviors
      ensures Valid()
      ensures leftArea == (if TargetSide(target) == Some(LeftSide) then Some(area) else old(leftArea))
      ensures rightArea == (if TargetSide(target) == Some(RightSide) then Some(area) else old(rightArea))
      ensures listening == old(listening) + multiset{area}
      ensures behaviors == Resubscribed(old(dragEventSubscribed), AnyFilled(), old(behaviors), DragDrop(BehaviorTypeName()))
    {
      FillTarget(area, target);
      listening := listening + multiset{area};
      UpdateIsDragDropEnabled();
    }

    /** The slot update of an attach: the slot the Target names receives the area. */
    method FillTarget(area: A, target: Option<string>)
      modifies this`leftArea, this`rightArea
      ensures leftArea == (if TargetSide(target) == Some(LeftSide) then Some(area) else old(leftArea))
      ensures rightArea == (if TargetSide(target) == Some(RightSide) then Some(area) else old(rightArea))
    {
      if TargetSide(target) == Some(LeftSide) {
        leftArea := Some(area);
      } else if TargetSide(target) == Some(RightSide) {
        rightArea := Some(area);
      }
    }

    /**
     * DockAreaOnPropertyChanged: only a Target change acts. The slot the old
     * target named is cleared (whichever area filled it), the slot the new
     * target names receives the sender, and the flag is brought up to date.
     */
    method DockAreaOnPropertyChanged(sender: A, property: DockAreaProperty, oldTarget: Option<string>, newTarget: Option<string>)
      requires Valid()
      modifies this`leftArea, this`rightArea, this`dragEventSubscribed, this`behaviors
      ensures Valid()
      ensures property != TargetProperty ==> leftArea == old(leftArea) && rightArea == old(rightArea) && behaviors == old(behaviors)
      ensures property == TargetProperty ==>
        leftArea == (if TargetSide(newTarget) == Some(LeftSide) then Some(sender)
                     else if TargetSide(oldTarget) == Some(LeftSide) then None
                     else old(leftArea))
      ensures property == TargetProperty ==>
        rightArea == (if TargetSide(newTarget) == Some(RightSide) then Some(sender)
                      else if TargetSide(oldTarget) == Some(RightSide) then None
                      else old(rightArea))
      ensures behaviors == Resubscribed(old(dragEventSubscribed), AnyFilled(), old(behaviors), DragDrop(BehaviorTypeName()))
    {
      if property == TargetProperty {
        MoveToTarget(sender, oldTarget, newTarget);
        UpdateIsDragDropEnabled();
      }
    }

    /** The slot updates of a Target change: clear the old target's slot, then fill the new target's slot. */
    method MoveToTarget(sender: A, oldTarget: Option<string>, newTarget: Option<string>)
      modifies this`leftArea, this`rightArea
      ensures leftArea == (if TargetSide(newTarget) == Some(LeftSide) then Some(sender)
                           else if TargetSide(oldTarget) == Some(LeftSide) then None
                           else old(leftArea))
      ensures rightArea == (if TargetSide(newTarget) == Some(RightSide) then Some(sender)
                            else if TargetSide(oldTarget) == Some(RightSide) then None
                            else old(rightArea))
    {
      if TargetSide(oldTarget) == Some(LeftSide) {
        leftArea := None;
      } else if TargetSide(oldTarget) == Some(RightSide) {
        rightArea := None;
      }
      if TargetSide(newTarget) == Some(LeftSide) {
        leftArea := Some(sender);
      } else if TargetSide(newTarget) == Some(RightSide) {
        rightArea := Some(sender);
      }
    }

    /** OnDetachedFromDockArea: clears the slot the area's current Target names, unsubscribes once, and brings the flag up to date. */
    method OnDetachedFromDockArea(area: A, target: Option<string>)
      requires Valid()
      modifies this`leftArea, this`rightArea, this`listening, this`dragEventSubscribed, this`behaviors
      ensures Valid()
      ensures leftArea == (if TargetSide(target) == Some(LeftSide) then None else old(leftArea))
      ensures rightArea == (if TargetSide(target) == Some(RightSide) then None else old(rightArea))
      ensures listening == old(listening) - multiset{area}
      ensures behaviors == Resubscribed(old(dragEventSubscribed), AnyFilled(), old(behaviors), DragDrop(BehaviorTypeName()))
    {
      ClearTarget(target);
      listening := listening - multiset{area};
      UpdateIsDragDropEnabled();
    }

    /** The slot update of a detach: the slot the Target names is cleared. */
    method ClearTarget(target: Option<string>)
      modifies this`leftArea, this`rightArea
      ensures leftArea == (if TargetSide(target) == Some(LeftSide) then None else old(leftArea))
      ensures rightArea == (if TargetSide(target) == Some(RightSide) then None else old(rightArea))
    {
      if TargetSide(target) == Some(LeftSide) {
        leftArea := None;
      } else if TargetSide(target) == Some(RightSide) {
        rightArea := None;
      }
    }

    /** OnBehaviorTypeChanged: records the new type and, while subscribed with a filled slot, replaces the drag-drop behaviour by one of that type. */
    method OnBehaviorTypeChanged(newType: Option<string>)
      requires Valid()
      modifies this`behaviorType, this`behaviors
      ensures Valid()
      ensures behaviorType == newType
      ensures behaviors == Retyped(dragEventSubscribed && AnyFilled(), old(behaviors), newType)
    {
      behaviorType := newType;
      if dragEventSubscribed && AnyFilled() {
        behaviors := WithoutDragDrop(behaviors) + [DragDrop(newType.GetOr(DefaultBehaviorType))];
      }
    }

    /** GetAbsoluteWidth for a view of width w. */
    function Widths(w: real): (real, real, real)
      requires Usable()
      reads this`leftWidthProportion, this`widthProportion, this`rightWidthProportion
    {
      AbsoluteWidths(leftWidthProportion, widthProportion, rightWidthProportion, w)
    }

    /** OnLeftThumbDragDelta: the left pane grows by delta; the right pane keeps its width; refused drags change nothing. */
    method OnLeftThumbDragDelta(delta: real, w: real)
      requires Usable()
      modifies this`leftWidthProportion, this`widthProportion, this`rightWidthProportion
      ensures Usable()
      ensures !templateApplied || Rejected(old(Widths(w)).0 + delta, w) ==>
        leftWidthProportion == old(leftWidthProportion) && widthProportion == old(widthProportion)
        && rightWidthProportion == old(rightWidthProportion)
      ensures templateApplied && !Rejected(old(Widths(w)).0 + delta, w) ==>
        (leftWidthProportion, widthProportion, rightWidthProportion) == ThreeWay(old(Widths(w)).0 + delta, old(Widths(w)).2, w)
    {
      if !templateApplied {
        return;
      }
      var (left, _, right) := Widths(w);
      left := left + delta;
      if left + Margin >= w || left <= Margin {
        return;
      }
      var r := ThreeWay(left, right, w);
      ThreeWayDragIsUsable(left, right, w);
      leftWidthProportion, widthProportion, rightWidthProportion := r.0, r.1, r.2;
    }

    /** OnRightThumbDragDelta: the right pane shrinks by delta (its left edge follows the pointer); the left pane keeps its width. */
    method OnRightThumbDragDelta(delta: real, w: real)
      requires Usable()
      modifies this`leftWidthProportion, this`widthProportion, this`rightWidthProportion
      ensures Usable()
      ensures !templateApplied || Rejected(old(Widths(w)).2 - delta, w) ==>
        leftWidthProportion == old(leftWidthProportion) && widthProportion == old(widthProportion)
        && rightWidthProportion == old(rightWidthProportion)
      ensures templateApplied && !Rejected(old(Widths(w)).2 - delta, w) ==>
        (leftWidthProportion, widthProportion, rightWidthProportion) == ThreeWay(old(Widths(w)).0, old(Widths(w)).2 - delta, w)
    {
      if !templateApplied {
        return;
      }
      var (left, _, right) := Widths(w);
      right := right - delta;
      if right + Margin >= w || right <= Margin {
        return;
      }
      var r := ThreeWay(left, right, w);
      ThreeWayDragIsUsable(left, right, w);
      leftWidthProportion, widthProportion, rightWidthProportion := r.0, r.1, r.2;
    }
  }

  /** HorizontallySplittedView: a left and a right pane, each an optional dock area. */
  class HorizontallySplittedView<A(==)> {
    var leftArea: Option<A>
    var rightArea: Option<A>
    var listening: multiset<A>
    var dragEventSubscribed: bool
    var behaviors: seq<Behavior>
    var behaviorType: Option<string>
    var templateApplied: bool
    var leftWidthProportion: real
    var rightWidthProportion: real

    predicate AnyFilled()
      reads this`leftArea, this`rightArea
    {
      leftArea.Some? || rightArea.Some?
    }

    predicate BehaviorsAgree()
      reads this`dragEventSubscribed, this`behaviors
    {
      DragDropCount(behaviors) == (if dragEventSubscribed then 1 else 0)
    }

    predicate Valid()
      reads this`dragEventSubscribed, this`behaviors, this`leftArea, this`rightArea
    {
      BehaviorsAgree() && dragEventSubscribed == AnyFilled()
    }

    function BehaviorTypeName(): string
      reads this`behaviorType
    {
      behaviorType.GetOr(DefaultBehaviorType)
    }

    /** A fresh view: no areas, no behaviours, proportions 1 and 1. */
    constructor ()
      ensures leftArea.None? && rightArea.None? && listening == multiset{}
      ensures behaviors == [] && behaviorType.None? && !templateApplied
      ensures leftWidthProportion == 1.0 && rightWidthProportion == 1.0
      ensures Valid()
    {
      leftArea, rightArea, listening := None, None, multiset{};
      dragEventSubscribed, behaviors, behaviorType := false, [], None;
      templateApplied := false;
      leftWidthProportion, rightWidthProportion := 1.0, 1.0;
    }

    method ApplyTemplate()
      modifies this`templateApplied
      ensures templateApplied
    {
      templateApplied := true;
    }

    method UpdateIsDragDropEnabled()
      requires BehaviorsAgree()
      modifies this`dragEventSubscribed, this`behaviors
      ensures Valid()
      ensures behaviors == Resubscribed(old(dragEventSubscribed), AnyFilled(), old(behaviors), DragDrop(BehaviorTypeName()))
      ensures old(Valid()) ==> behaviors == old(behaviors)
    {
      var typeName := BehaviorTypeName();
      ResubscribedKeepsOneBehavior(dragEventSubscribed, AnyFilled(), behaviors, typeName);
      if AnyFilled() {
        if dragEventSubscribed {
          return;
        }
        dragEventSubscribed := true;
        behaviors := behaviors + [DragDrop(typeName)];
      } else {
        if !dragEventSubscribed {
          return;
        }
        dragEventSubscribed := false;
        behaviors := WithoutDragDrop(behaviors);
      }
    }

    method OnAttachedToDockArea(area: A, target: Option<string>)
      requires Valid()
      modifies this`leftArea, this`rightArea, this`listening, this`dragEventSubscribed, this`behaviors
      ensures Valid()
      ensures leftArea == (if TargetSide(target) == Some(LeftSide) then Some(area) else old(leftArea))
      ensures rightArea == (if TargetSide(target) == Some(RightSide) then Some(area) else old(rightArea))
      ensures listening == old(listening) + multiset{area}
      ensures behaviors == Resubscribed(old(dragEventSubscribed), AnyFilled(), old(behaviors), DragDrop(BehaviorTypeName()))
    {
      FillTarget(area, target);
      listening := listening + multiset{area};
      UpdateIsDragDropEnabled();
    }

    /** The slot update of an attach: the slot the Target names receives the area. */
    method FillTarget(area: A, target: Option<string>)
      modifies this`leftArea, this`rightArea
      ensures leftArea == (if TargetSide(target) == Some(LeftSide) then Some(area) else old(leftArea))
      ensures rightArea == (if TargetSide(target) == Some(RightSide) then Some(area) else old(rightArea))
    {
      if TargetSide(target) == Some(LeftSide) {
        leftArea := Some(area);
      } else if TargetSide(target) == Some(RightSide) {
        rightArea := Some(area);
      }
    }

    method DockAreaOnPropertyChanged(sender: A, property: DockAreaProperty, oldTarget: Option<string>, newTarget: Option<string>)
      requires Valid()
      modifies this`leftArea, this`rightArea, this`dragEventSubscribed, this`behaviors
      ensures Valid()
      ensures property != TargetProperty ==> leftArea == old(leftArea) && rightArea == old(rightArea) && behaviors == old(behaviors)
      ensures property == TargetProperty ==>
        leftArea == (if TargetSide(newTarget) == Some(LeftSide) then Some(sender)
                     else if TargetSide(oldTarget) == Some(LeftSide) then None
                     else old(leftArea))
      ensures property == TargetProperty ==>
        rightArea == (if TargetSide(newTarget) == Some(RightSide) then Some(sender)
                      else if TargetSide(oldTarget) == Some(RightSide) then None
                      else old(rightArea))
      ensures behaviors == Resubscribed(old(dragEventSubscribed), AnyFilled(), old(behaviors), DragDrop(BehaviorTypeName()))
    {
      if property == TargetProperty {
        MoveToTarget(sender, oldTarget, newTarget);
        UpdateIsDragDropEnabled();
      }
    }

    /** The slot updates of a Target change: clear the old target's slot, then fill the new target's slot. */
    method MoveToTarget(sender: A, oldTarget: Option<string>, newTarget: Option<string>)
      modifies this`leftArea, this`rightArea
      ensures leftArea == (if TargetSide(newTarget) == Some(LeftSide) then Some(sender)
                           else if TargetSide(oldTarget) == Some(LeftSide) then None
                           else old(leftArea))
      ensures rightArea == (if TargetSide(newTarget) == Some(RightSide) then Some(sender)
                            else if TargetSide(oldTarget) == Some(RightSide) then None
                            else old(rightArea))
    {
      if TargetSide(oldTarget) == Some(LeftSide) {
        leftArea := None;
      } else if TargetSide(oldTarget) == Some(RightSide) {
        rightArea := None;
      }
      if TargetSide(newTarget) == Some(LeftSide) {
        leftArea := Some(sender);
      } else if TargetSide(newTarget) == Some(RightSide) {
        rightArea := Some(sender);
      }
    }

    method OnDetachedFromDockArea(area: A, target: Option<string>)
      requires Valid()
      modifies this`leftArea, this`rightArea, this`listening, this`dragEventSubscribed, this`behaviors
      ensures Valid()
      ensures leftArea == (if TargetSide(target) == Some(LeftSide) then None else old(leftArea))
      ensures rightArea == (if TargetSide(target) == Some(RightSide) then None else old(rightArea))
      ensures listening == old(listening) - multiset{area}
      ensures behaviors == Resubscribed(old(dragEventSubscribed), AnyFilled(), old(behaviors), DragDrop(BehaviorTypeName()))
    {
      ClearTarget(target);
      listening := listening - multiset{area};
      UpdateIsDragDropEnabled();
    }

    /** The slot update of a detach: the slot the Target names is cleared. */
    method ClearTarget(target: Option<string>)
      modifies this`leftArea, this`rightArea
      ensures leftArea == (if TargetSide(target) == Some(LeftSide) then None else old(leftArea))
      ensures rightArea == (if TargetSide(target) == Some(RightSide) then None else old(rightArea))
    {
      if TargetSide(target) == Some(LeftSide) {
        leftArea := None;
      } else if TargetSide(target) == Some(RightSide) {
        rightArea := None;
      }
    }

    method OnBehaviorTypeChanged(newType: Option<string>)
      requires Valid()
      modifies this`behaviorType, this`behaviors
      ensures Valid()
      ensures behaviorType == newType
      ensures behaviors == Retyped(dragEventSubscribed && AnyFilled(), old(behaviors), newType)
    {
      behaviorType := newType;
      if dragEventSubscribed && AnyFilled() {
        behaviors := WithoutDragDrop(behaviors) + [DragDrop(newType.GetOr(DefaultBehaviorType))];
      }
    }

    /** OnThumbDragDelta: the left pane's current width plus delta becomes its share of the width w; refused drags change nothing. */
    method OnThumbDragDelta(leftWidth: real, delta: real, w: real)
      modifies this`leftWidthProportion, this`rightWidthProportion
      ensures !templateApplied || TwoWayDrag(leftWidth + delta, w).None? ==>
        leftWidthProportion == old(leftWidthProportion) && rightWidthProportion == old(rightWidthProportion)
      ensures templateApplied && TwoWayDrag(leftWidth + delta, w).Some? ==>
        (leftWidthProportion, rightWidthProportion) == TwoWayDrag(leftWidth + delta, w).value
    {
      if !templateApplied {
        return;
      }
      var newWidth := leftWidth + delta;
      if newWidth + Margin >= w || newWidth <= Margin {
        return;
      }
      var lp := newWidth / w;
      var rp := 1.0 - lp;
      leftWidthProportion := Clamp(lp, 0.0, 1.0);
      rightWidthProportion := Clamp(rp, 0.0, 1.0);
    }
  }

  /** The legacy VerticallySplittedView: a top and a bottom pane chosen by the area's Location flags. */
  class VerticallySplittedView<A(==)> {
    var topArea: Option<A>
    var bottomArea: Option<A>
    var dragEventSubscribed: bool
    var behaviors: seq<Behavior>
    var templateApplied: bool
    var topHeightProportion: real
    var bottomHeightProportion: real

    predicate AnyFilled()
      reads this`topArea, this`bottomArea
    {
      topArea.Some? || bottomArea.Some?
    }

    predicate BehaviorsAgree()
      reads this`dragEventSubscribed, this`behaviors
    {
      DragDropCount(behaviors) == (if dragEventSubscribed then 1 else 0)
    }

    predicate Valid()
      reads this`dragEventSubscribed, this`behaviors, this`topArea, this`bottomArea
    {
      BehaviorsAgree() && dragEventSubscribed == AnyFilled()
    }

    /** A fresh view: no areas, no behaviours, proportions 1 and 1. */
    constructor ()
      ensures topArea.None? && bottomArea.None? && behaviors == [] && !templateApplied
      ensures topHeightProportion == 1.0 && bottomHeightProportion == 1.0
      ensures Valid()
    {
      topArea, bottomArea := None, None;
      dragEventSubscribed, behaviors := false, [];
      templateApplied := false;
      topHeightProportion, bottomHeightProportion := 1.0, 1.0;
    }

    method ApplyTemplate()
      modifies this`templateApplied
      ensures templateApplied
    {
      templateApplied := true;
    }

    /** UpdateIsDragDropEnabled: as in the other views, but always with a plain DockAreaDragDropBehavior. */
    method UpdateIsDragDropEnabled()
      requires BehaviorsAgree()
      modifies this`dragEventSubscribed, this`behaviors
      ensures Valid()
      ensures behaviors == Resubscribed(old(dragEventSubscribed), AnyFilled(), old(behaviors), DragDrop(DefaultBehaviorType))
      ensures old(Valid()) ==> behaviors == old(behaviors)
    {
      ResubscribedKeepsOneBehavior(dragEventSubscribed, AnyFilled(), behaviors, DefaultBehaviorType);
      if AnyFilled() {
        if dragEventSubscribed {
          return;
        }
        dragEventSubscribed := true;
        behaviors := behaviors + [DragDrop(DefaultBehaviorType)];
      } else {
        if !dragEventSubscribed {
          return;
        }
        dragEventSubscribed := false;
        behaviors := WithoutDragDrop(behaviors);
      }
    }

    /** OnAttachedToDockArea: the Top flag fills the top slot, otherwise the Bottom flag fills the bottom slot. */
    method OnAttachedToDockArea(area: A, location: LegacyLocations.Flags)
      requires Valid()
      modifies this`topArea, this`bottomArea, this`dragEventSubscribed, this`behaviors
      ensures Valid()
      ensures topArea == (if LocationHalf(location) == Some(TopHalf) then Some(area) else old(topArea))
      ensures bottomArea == (if LocationHalf(location) == Some(BottomHalf) then Some(area) else old(bottomArea))
      ensures behaviors == Resubscribed(old(dragEventSubscribed), AnyFilled(), old(behaviors), DragDrop(DefaultBehaviorType))
    {
      if LegacyLocations.HasFlag(location, LegacyLocations.Top) {
        topArea := Some(area);
      } else if LegacyLocations.HasFlag(location, LegacyLocations.Bottom) {
        bottomArea := Some(area);
      }
      UpdateIsDragDropEnabled();
    }

    /** OnDetachedFromDockArea: clears the slot the same flag test picks. */
    method OnDetachedFromDockArea(area: A, location: LegacyLocations.Flags)
      requires Valid()
      modifies this`topArea, this`bottomArea, this`dragEventSubscribed, this`behaviors
      ensures Valid()
      ensures topArea == (if LocationHalf(location) == Some(TopHalf) then None else old(topArea))
      ensures bottomArea == (if LocationHalf(location) == Some(BottomHalf) then None else old(bottomArea))
      ensures behaviors == Resubscribed(old(dragEventSubscribed), AnyFilled(), old(behaviors), DragDrop(DefaultBehaviorType))
    {
      if LegacyLocations.HasFlag(location, LegacyLocations.Top) {
        topArea := None;
      } else if LegacyLocations.HasFlag(location, LegacyLocations.Bottom) {
        bottomArea := None;
      }
      UpdateIsDragDropEnabled();
    }

    /** OnThumbDragDelta: the top pane's current height plus delta becomes its share of the height h. */
    method OnThumbDragDelta(topHeight: real, delta: real, h: real)
      modifies this`topHeightProportion, this`bottomHeightProportion
      ensures !templateApplied || TwoWayDrag(topHeight + delta, h).None? ==>
        topHeightProportion == old(topHeightProportion) && bottomHeightProportion == old(bottomHeightProportion)
      ensures templateApplied && TwoWayDrag(topHeight + delta, h).Some? ==>
        (topHeightProportion, bottomHeightProportion) == TwoWayDrag(topHeight + delta, h).value
    {
      if !templateApplied {
        return;
      }
      var newHeight := topHeight + delta;
      if newHeight + Margin >= h || newHeight <= Margin {
        return;
      }
      var tp := newHeight / h;
      var bp := 1.0 - tp;
      topHeightProportion := Clamp(tp, 0.0, 1.0);
      bottomHeightProportion := Clamp(bp, 0.0, 1.0);
    }
  }
}
