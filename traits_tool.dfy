/** The selection rule of the double-click handler of the traits tool: among
    the candidate components, the first one whose hit test accepts the click
    point, moved into the candidate's frame, is the one to edit.  The hit test
    (`is_in` on a component) is not part of the model; it is a parameter. */
module TraitsTool {
  import opened Wrappers
  import opened NestedComponents

  /** Whether `e`'s component claims the point (x, y), given in the frame of
      the top-level container. */
  predicate Hits(e: Entry, x: real, y: real, isIn: (Component, real, real) -> bool)
  {
    isIn(e.item, x - e.offset.x, y - e.offset.y)
  }

  /** The hit-test loop: scan the candidates in list order and stop at the
      first one that claims the point. */
  method FirstHit(candidates: seq<Entry>, x: real, y: real, isIn: (Component, real, real) -> bool)
    returns (item: Option<Component>)
    ensures item.None? <==> forall i :: 0 <= i < |candidates| ==> !Hits(candidates[i], x, y, isIn)
    ensures item.Some? ==>
      exists i :: 0 <= i < |candidates| && Hits(candidates[i], x, y, isIn) && item.value == candidates[i].item
        && forall j :: 0 <= j < i ==> !Hits(candidates[j], x, y, isIn)
  {
    item := None;
    for k := 0 to |candidates|
      invariant item.None?
      invariant forall j :: 0 <= j < k ==> !Hits(candidates[j], x, y, isIn)
    {
      if isIn(candidates[k].item, x - candidates[k].offset.x, y - candidates[k].offset.y) {
        item := Some(candidates[k].item);
        return;
      }
    }
  }

  /** The component the handler opens an editor on, as written: nothing when
      the tool's component is not a container, otherwise the first hit among
      the nested components.  Because the walk returns an empty list, no
      click ever selects a component. */
  method NormalLeftDclick(component: Component, x: real, y: real, isIn: (Component, real, real) -> bool)
    returns (item: Option<Component>)
    ensures item == None
  {
    if !component.Container? {
      return None;
    }
    var candidates, _ := GetNestedComponents(component);
    item := FirstHit(candidates, x, y, isIn);
  }

  /** The handler over the intended candidate list: the first widget, in walk
      order, whose hit test accepts the click point in its own frame. */
  method NormalLeftDclickIntended(component: Component, x: real, y: real, isIn: (Component, real, real) -> bool)
    returns (item: Option<Component>)
    ensures !component.Container? ==> item == None
    ensures component.Container? ==>
      var ws := Leaves(Bfs([Entry(component, Origin)]));
      && (item.None? <==> forall i :: 0 <= i < |ws| ==> !Hits(ws[i], x, y, isIn))
      && (item.Some? ==>
            exists i :: 0 <= i < |ws| && Hits(ws[i], x, y, isIn) && item.value == ws[i].item
              && forall j :: 0 <= j < i ==> !Hits(ws[j], x, y, isIn))
  {
    if !component.Container? {
      return None;
    }
    var candidates := GetNestedComponentsIntended(component);
    item := FirstHit(candidates, x, y, isIn);
  }

  /** As written, a click on a widget that lies inside a container and whose
      hit test accepts every point selects nothing, while the intended
      handler selects that widget. */
  method MissedClick(w: Component) returns (asWritten: Option<Component>, intended: Option<Component>)
    requires w.Widget?
    ensures asWritten == None
    ensures intended == Some(w)
  {
    var root := Container(0, 0.0, 0.0, [w]);
    var always := (c: Component, px: real, py: real) => true;
    asWritten := NormalLeftDclick(root, 0.0, 0.0, always);
    intended := NormalLeftDclickIntended(root, 0.0, 0.0, always);
    WalkPopsNestedWidget(w);
    assert Leaves(Bfs([Entry(root, Origin)]))[0] == Entry(w, Origin);
  }
}
