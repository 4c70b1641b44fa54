/** An indicator entry and the three properties that flood to its parents
    (UnityCore/IndicatorEntry.cpp). */
module IndicatorEntry {
  import opened Flood

  datatype Rect = Rect(x: int, y: int, width: int, height: int)

  datatype Label = Label(text: string, sensitive: bool, visible: bool)

  datatype Image = Image(kind: int, data: string, sensitive: bool, visible: bool)

  datatype Signal =
    | ActiveChanged(active: bool)
    | GeometryChanged(geometry: Rect)
    | ShowNowChanged(showNow: bool)
    | Updated

  class Entry {
    const id: string
    const nameHint: string
    const parentWindow: nat

    var caption: Label
    var image: Image
    var priority: int
    var showNow: bool
    var active: bool
    var geometry: Rect
    var parents: seq<Entry>

    // Everything this entry has emitted, in order.
    ghost var signals: seq<Signal>

    constructor (id: string, nameHint: string, parentWindow: nat, caption: Label, image: Image, priority: int,
                 geometry: Rect)
      ensures this.id == id && this.nameHint == nameHint && this.parentWindow == parentWindow
      ensures this.caption == caption && this.image == image && this.priority == priority
      ensures this.geometry == geometry && !showNow && !active && parents == []
      ensures signals == []
    {
      this.id, this.nameHint, this.parentWindow := id, nameHint, parentWindow;
      this.caption, this.image, this.priority := caption, image, priority;
      this.geometry, showNow, active, parents := geometry, false, false, [];
      signals := [];
    }

    method SetLabel(newLabel: Label)
      modifies `caption, `signals
      ensures caption == newLabel
      ensures signals == old(signals) + (if old(caption) != newLabel then [Updated] else [])
    {
      if caption == newLabel {
        return;
      }
      caption := newLabel;
      signals := signals + [Updated];
    }

    method SetImage(newImage: Image)
      modifies `image, `signals
      ensures image == newImage
      ensures signals == old(signals) + (if old(image) != newImage then [Updated] else [])
    {
      if image == newImage {
        return;
      }
      image := newImage;
      signals := signals + [Updated];
    }

    method SetPriority(newPriority: int)
      modifies `priority, `signals
      ensures priority == newPriority
      ensures signals == old(signals) + (if old(priority) != newPriority then [Updated] else [])
    {
      if priority == newPriority {
        return;
      }
      priority := newPriority;
      signals := signals + [Updated];
    }

    method SetActive(value: bool, ghost all: set<Entry>)
      requires this in all && ParentsWithin(all)
      modifies all`active, all`signals
      ensures var flooded := old(Reach(ParentGraph(all), {this}, ActiveDiffers(all, value)));
              forall e | e in all ::
                && e.active == (if e in flooded then value else old(e.active))
                && e.signals == old(e.signals) + (if e in flooded then [ActiveChanged(value), Updated] else [])
      ensures active == value
      decreases ActiveDiffers(all, value)
    {
      hide ReachIn;
      ghost var graph, open := ParentGraph(all), ActiveDiffers(all, value);
      if active == value {
        ReachIsLeast(graph, {this}, open, {});
        return;
      }
      active := value;
      signals := signals + [ActiveChanged(value), Updated];

      ghost var flooded := {};
      ReachFromNothing(graph, parents, open - {this});
      for i := 0 to |parents|
        invariant flooded == Reach(graph, Elements(parents[..i]), open - {this})
        invariant forall e | e in all ::
          && e.active == (if e == this || e in flooded then value else old(e.active))
          && e.signals == old(e.signals) + (if e == this || e in flooded then [ActiveChanged(value), Updated] else [])
      {
        assert this in open && ActiveDiffers(all, value) == open - {this} - flooded;
        ReachOneMore(graph, parents, i, open - {this});
        flooded := flooded + Reach(graph, {parents[i]}, open - {this} - flooded);
        parents[i].SetActive(active, all);
      }
      ReachFromNode(graph, this, open);
    }

    method SetGeometry(value: Rect, ghost all: set<Entry>)
      requires this in all && ParentsWithin(all)
      modifies all`geometry, all`signals
      ensures var flooded := old(Reach(ParentGraph(all), {this}, GeometryDiffers(all, value)));
              forall e | e in all ::
                && (e in flooded ==> e.geometry == value)
                && (e !in flooded ==> e.geometry == old(e.geometry))
                && e.signals == old(e.signals) + (if e in flooded then [GeometryChanged(value), Updated] else [])
      ensures geometry == value
      decreases GeometryDiffers(all, value)
    {
      hide ReachIn;
      ghost var graph, open := ParentGraph(all), GeometryDiffers(all, value);
      if geometry == value {
        ReachIsLeast(graph, {this}, open, {});
        return;
      }
      geometry := value;
      signals := signals + [GeometryChanged(value), Updated];

      ghost var flooded := {};
      ReachFromNothing(graph, parents, open - {this});
      for i := 0 to |parents|
        invariant flooded == Reach(graph, Elements(parents[..i]), open - {this})
        invariant forall e | e in all ::
          && (e == this || e in flooded ==> e.geometry == value)
          && (e != this && e !in flooded ==> e.geometry == old(e.geometry))
          && e.signals == old(e.signals) + (if e == this || e in flooded then [GeometryChanged(value), Updated] else [])
      {
        assert this in open && GeometryDiffers(all, value) == open - {this} - flooded;
        ReachOneMore(graph, parents, i, open - {this});
        flooded := flooded + Reach(graph, {parents[i]}, open - {this} - flooded);
        parents[i].SetGeometry(geometry, all);
      }
      ReachFromNode(graph, this, open);
    }

    method SetShowNow(value: bool, ghost all: set<Entry>)
      requires this in all && ParentsWithin(all)
      modifies all`showNow, all`signals
      ensures var flooded := old(Reach(ParentGraph(all), {this}, ShowNowDiffers(all, value)));
              forall e | e in all ::
                && e.showNow == (if e in flooded then value else old(e.showNow))
                && e.signals == old(e.signals) + (if e in flooded then [ShowNowChanged(value), Updated] else [])
      ensures showNow == value
      decreases ShowNowDiffers(all, value)
    {
      hide ReachIn;
      ghost var graph, open := ParentGraph(all), ShowNowDiffers(all, value);
      if showNow == value {
        ReachIsLeast(graph, {this}, open, {});
        return;
      }
      showNow := value;
      signals := signals + [ShowNowChanged(value), Updated];

      ghost var flooded := {};
      ReachFromNothing(graph, parents, open - {this});
      for i := 0 to |parents|
        invariant flooded == Reach(graph, Elements(parents[..i]), open - {this})
        invariant forall e | e in all ::
          && e.showNow == (if e == this || e in flooded then value else old(e.showNow))
          && e.signals == old(e.signals) + (if e == this || e in flooded then [ShowNowChanged(value), Updated] else [])
      {
        assert this in open && ShowNowDiffers(all, value) == open - {this} - flooded;
        ReachOneMore(graph, parents, i, open - {this});
        flooded := flooded + Reach(graph, {parents[i]}, open - {this} - flooded);
        parents[i].SetShowNow(showNow, all);
      }
      ReachFromNode(graph, this, open);
    }

    // What a new child hands on to this entry and, through the floods, to its ancestors. No flood touches
    // the property of another one.
    method TakeOver(newGeometry: Rect, shows: bool, activates: bool, ghost all: set<Entry>)
      requires this in all && ParentsWithin(all)
      modifies all`active, all`geometry, all`showNow, all`signals
      ensures geometry == newGeometry && showNow == shows && active == activates
      ensures var moved := old(Reach(ParentGraph(all), {this}, GeometryDiffers(all, newGeometry)));
              var shown := old(Reach(ParentGraph(all), {this}, ShowNowDiffers(all, shows)));
              var activated := old(Reach(ParentGraph(all), {this}, ActiveDiffers(all, activates)));
              forall e | e in all ::
                && e.geometry == (if e in moved then newGeometry else old(e.geometry))
                && e.showNow == (if e in shown then shows else old(e.showNow))
                && e.active == (if e in activated then activates else old(e.active))
                && e.signals == old(e.signals) + Emitted(moved, e, GeometryChanged(newGeometry))
                                + Emitted(shown, e, ShowNowChanged(shows))
                                + Emitted(activated, e, ActiveChanged(activates))
    {
      hide Reach, GeometryDiffers, ShowNowDiffers, ActiveDiffers, ParentGraph, ParentsWithin;
      SetGeometry(newGeometry, all);
      SetShowNow(shows, all);
      SetActive(activates, all);
    }

    method AddParent(parent: Entry?, ghost all: set<Entry>)
      requires this in all && ParentsWithin(all) && (parent != null ==> parent in all)
      modifies `parents, all`active, all`geometry, all`showNow
      modifies all`signals
      ensures ParentsWithin(all)
      ensures parent == null || parent in old(parents) ==> unchanged(all)
      ensures parent != null && parent !in old(parents) ==>
                var shows := old(showNow) || (old(parents) != [] && old(parent.showNow));
                var activates := old(active) || (old(parents) != [] && old(parent.active));
                var moved := Reach<Entry>(ParentGraph(all), {parent}, old(GeometryDiffers(all, geometry)));
                var shown := Reach<Entry>(ParentGraph(all), {parent}, old(ShowNowDiffers(all, shows)));
                var activated := Reach<Entry>(ParentGraph(all), {parent}, old(ActiveDiffers(all, activates)));
                && parents == old(parents) + [parent]
                && parent.geometry == old(geometry) && parent.showNow == shows && parent.active == activates
                && forall e | e in all ::
                     && e.geometry == (if e in moved then old(geometry) else old(e.geometry))
                     && e.showNow == (if e in shown then shows else old(e.showNow))
                     && e.active == (if e in activated then activates else old(e.active))
                     && e.signals == old(e.signals) + Emitted(moved, e, GeometryChanged(old(geometry)))
                                     + Emitted(shown, e, ShowNowChanged(shows))
                                     + Emitted(activated, e, ActiveChanged(activates))
    {
      hide Reach, Emitted;
      if parent == null || parent in parents {
        return;
      }
      var wasEmpty := parents == [];
      parents := parents + [parent];
      ghost var graph := ParentGraph(all);
      parent.TakeOver(geometry, if wasEmpty then showNow else parent.showNow || showNow,
                      if wasEmpty then active else parent.active || active, all);
      assert ParentGraph(all) == graph;
    }

    method RemoveParent(parent: Entry)
      modifies `parents
      ensures parent !in old(parents) ==> parents == old(parents)
      ensures forall i | 0 <= i < |old(parents)| && old(parents)[i] == parent && parent !in old(parents)[..i] ::
                parents == old(parents)[..i] + old(parents)[i + 1..]
    {
      for i := 0 to |parents|
        invariant parents == old(parents) && parent !in parents[..i]
      {
        if parents[i] == parent {
          parents := parents[..i] + parents[i + 1..];
          return;
        }
      }
    }
  }

  /** What a flood that reaches the entries in `flooded` makes e emit. */
  ghost function Emitted(flooded: set<Entry>, e: Entry, change: Signal): seq<Signal> {
    if e in flooded then [change, Updated] else []
  }

  ghost predicate ParentsWithin(all: set<Entry>)
    reads all`parents
  {
    forall e, p | e in all && p in e.parents :: p in all
  }

  ghost function ParentGraph(all: set<Entry>): Graph<Entry>
    reads all`parents
  {
    map e | e in all :: e.parents
  }

  ghost function ActiveDiffers(all: set<Entry>, value: bool): set<Entry>
    reads all`active
  {
    set e | e in all && e.active != value
  }

  ghost function GeometryDiffers(all: set<Entry>, value: Rect): set<Entry>
    reads all`geometry
  {
    set e | e in all && e.geometry != value
  }

  ghost function ShowNowDiffers(all: set<Entry>, value: bool): set<Entry>
    reads all`showNow
  {
    set e | e in all && e.showNow != value
  }

}
