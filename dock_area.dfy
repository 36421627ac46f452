/**
 * DockArea: a bag of properties (Location, View, SideBar, Target,
 * LocalizedName) whose only behaviour is to tell its views when the View
 * property changes: the old view is detached from this area, then the new
 * view is attached to it.
 *
 * The calls a change makes are returned as a list of ViewCall values, in the
 * order they are made; each one passes this DockArea to the view.
 */
module DockAreas {
  import opened Common
  import Locations
  import DockViews

  /** A call on an IDockAreaView: OnDetachedFromDockArea or OnAttachedToDockArea. */
  datatype ViewCall<V> = Detach(view: V) | Attach(view: V)

  /**
   * The calls made when View changes from oldView to newView: a detach of the
   * old view when there is one, then an attach of the new view when there is one.
   */
  function ViewChangeCalls<V>(oldView: Option<V>, newView: Option<V>): (r: seq<ViewCall<V>>)
    ensures |r| == (if oldView.Some? then 1 else 0) + (if newView.Some? then 1 else 0)
    ensures forall i :: 0 <= i < |r| ==> (r[i].Detach? ==> oldView == Some(r[i].view))
    ensures forall i :: 0 <= i < |r| ==> (r[i].Attach? ==> newView == Some(r[i].view))
    ensures oldView.Some? ==> r[0] == Detach(oldView.value)
    ensures newView.Some? ==> r[|r| - 1] == Attach(newView.value)
  {
    (if oldView.Some? then [Detach(oldView.value)] else []) + (if newView.Some? then [Attach(newView.value)] else [])
  }

  /** The views an area is attached to after a sequence of calls, starting from the given set. */
  function AfterCalls<V>(attached: set<V>, calls: seq<ViewCall<V>>): set<V>
    decreases |calls|
  {
    if calls == [] then attached
    else
      var next := match calls[0]
        case Detach(v) => attached - {v}
        case Attach(v) => attached + {v};
      AfterCalls(next, calls[1..])
  }

  /** The views an area whose View is view is attached to: that view, or none. */
  function AttachedSet<V>(view: Option<V>): set<V> {
    if view.Some? then {view.value} else {}
  }

  /**
   * Detaching before attaching keeps the area attached to exactly its current
   * view: starting from the old view's attachment, the calls of a View change
   * leave it attached to the new view only (also when old and new coincide).
   */
  lemma {:induction false} ViewChangeKeepsOneAttachment<V>(oldView: Option<V>, newView: Option<V>)
    ensures AfterCalls(AttachedSet(oldView), ViewChangeCalls(oldView, newView)) == AttachedSet(newView)
  {
    var calls := ViewChangeCalls(oldView, newView);
    var start := AttachedSet(oldView);
    if oldView.Some? {
      var afterDetach := start - {oldView.value};
      assert afterDetach == {};
      assert calls[1..] == (if newView.Some? then [Attach(newView.value)] else []);
      if newView.Some? {
        assert calls[1..][1..] == [];
        assert AfterCalls(afterDetach, calls[1..]) == AfterCalls({newView.value}, []);
      }
    } else if newView.Some? {
      assert calls == [Attach(newView.value)];
      assert calls[1..] == [];
    }
  }

  /** The area as a value holder: its properties and the view it is bound to. */
  class DockArea<V(==)> {
    var location: Locations.DockAreaLocation
    var view: Option<V>
    var target: Option<string>
    var localizedName: Option<string>

    constructor (location: Locations.DockAreaLocation, target: Option<string>)
      ensures this.location == location && this.target == target
      ensures view.None? && localizedName.None?
    {
      this.location := location;
      this.target := target;
      view := None;
      localizedName := None;
    }

    /** OnPropertyChanged: a View change detaches the old view then attaches the new one; any other property makes no call. */
    method OnPropertyChanged(property: DockViews.DockAreaProperty, oldView: Option<V>, newView: Option<V>) returns (calls: seq<ViewCall<V>>)
      ensures property != DockViews.ViewProperty ==> calls == []
      ensures property == DockViews.ViewProperty ==> calls == ViewChangeCalls(oldView, newView)
    {
      calls := [];
      if property == DockViews.ViewProperty {
        if oldView.Some? {
          calls := calls + [Detach(oldView.value)];
        }
        if newView.Some? {
          calls := calls + [Attach(newView.value)];
        }
      }
    }

    /** Setting View: the property system raises a change, and so makes the calls, only when the value differs. */
    method SetView(newView: Option<V>) returns (calls: seq<ViewCall<V>>)
      modifies this`view
      ensures view == newView
      ensures old(view) == newView ==> calls == []
      ensures old(view) != newView ==> calls == ViewChangeCalls(old(view), newView)
    {
      if view == newView {
        return [];
      }
      var oldView := view;
      view := newView;
      calls := OnPropertyChanged(DockViews.ViewProperty, oldView, newView);
    }

    /** Setting Target: raises a Target change (its old and new values are strings, not views) for the views listening to this area, but calls no view itself. */
    method SetTarget(newTarget: Option<string>) returns (calls: seq<ViewCall<V>>)
      modifies this`target
      ensures target == newTarget
      ensures calls == []
    {
      target := newTarget;
      calls := OnPropertyChanged(DockViews.TargetProperty, None, None);
    }
  }
}
