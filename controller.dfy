/** The editor's state as a value, and one transition function per event
    the editor reacts to: instantiation, loading a saved scene, pointer press
    (selection), pointer motion (drag) and pointer release. The class in
    module Editor is proved to perform exactly these transitions. */
module Controller {
  import opened Scene

  /** The scene plus the drag state: the selected object's index and the
      grab offset recorded when it was selected. */
  datatype EditorState = EditorState(objects: seq<GameObject>, selected: Option<nat>,
                                     offsetX: int, offsetY: int)

  /** A selection always designates an object of the scene. */
  predicate Valid(s: EditorState)
  {
    s.selected.Some? ==> s.selected.value < |s.objects|
  }

  /** A fresh editor: empty scene, nothing selected, zero offsets. */
  const Initial: EditorState := EditorState([], None, 0, 0)

  /** Instantiating a template: the scene grows by the new object at its end,
      or is left as it was when the template is unknown or no name was given. */
  function AddObject(s: EditorState, templates: map<string, Template>, key: string, name: Option<string>)
    : (r: EditorState)
    ensures r.selected == s.selected && r.offsetX == s.offsetX && r.offsetY == s.offsetY
    ensures key !in templates ==> r.objects == s.objects
    ensures !HasName(name) ==> r.objects == s.objects
    ensures key in templates && HasName(name) ==>
      && |r.objects| == |s.objects| + 1
      && r.objects[..|s.objects|] == s.objects
      && r.objects[|s.objects|] == GameObject(name.value, Origin, Origin, templates[key].width,
                                              templates[key].height, key, templates[key].image)
    ensures Valid(s) ==> Valid(r)
  {
    match Instantiate(templates, key, name)
    case Success(o) => s.(objects := s.objects + [o])
    case Failure(_) => s
  }

  /** Loading a saved scene replaces the whole object list, one object per
      record in record order. A selection cannot outlive the scene it pointed
      into, so none remains. This is the intended load; as written the loop
      stops after the first record with an image (Scene.FromRecordsAsWritten). */
  function LoadProject(s: EditorState, records: seq<Record>): (r: EditorState)
    ensures |r.objects| == |records|
    ensures forall i :: 0 <= i < |records| ==> r.objects[i] == FromRecord(records[i])
    ensures r.selected == None && Valid(r)
  {
    EditorState(FromRecords(records), None, s.offsetX, s.offsetY)
  }

  /** Pointer press at (px, py). `closest` is the canvas's nearest primitive
      (None only on an empty canvas), `overlap` the canvas query over an
      object's box. With no nearest primitive nothing changes, so an earlier
      selection survives; otherwise the first object in insertion order whose
      box query yields `closest` is selected with the grab offset recorded. */
  function SelectObject(s: EditorState, px: int, py: int, closest: Option<ItemId>,
                        overlap: GameObject -> Option<ItemId>): (r: EditorState)
    ensures r.objects == s.objects
    ensures closest.None? ==> r == s
    ensures closest.Some? && r.selected.Some? ==>
      var i := r.selected.value;
      && i < |s.objects|
      && overlap(s.objects[i]) == closest
      && (forall j :: 0 <= j < i ==> overlap(s.objects[j]) != closest)
      && r.offsetX == px - s.objects[i].x && r.offsetY == py - s.objects[i].y
    ensures closest.Some? && r.selected.None? ==>
      && (forall j :: 0 <= j < |s.objects| ==> overlap(s.objects[j]) != closest)
      && r.offsetX == s.offsetX && r.offsetY == s.offsetY
    ensures Valid(s) ==> Valid(r)
  {
    if closest.None? then s
    else
      match FirstHit(s.objects, overlap, closest.value)
      case None => s.(selected := None)
      case Some(i) => s.(selected := Some(i), offsetX := px - s.objects[i].x, offsetY := py - s.objects[i].y)
  }

  /** Pointer motion to (px, py): the selected object's corner goes to the
      pointer minus the grab offset; nothing else changes, and without a
      selection nothing changes at all. This is the intended move; the
      handler as written never gets this far (MoveObjectAsWritten). */
  function MoveObject(s: EditorState, px: int, py: int): (r: EditorState)
    requires Valid(s)
    ensures Valid(r)
    ensures r.selected == s.selected && r.offsetX == s.offsetX && r.offsetY == s.offsetY
    ensures |r.objects| == |s.objects|
    ensures s.selected.None? ==> r == s
    ensures s.selected.Some? ==>
      var o := r.objects[s.selected.value];
      var was := s.objects[s.selected.value];
      && o.x == px - s.offsetX && o.y == py - s.offsetY
      && o.name == was.name && o.width == was.width && o.height == was.height
      && o.kind == was.kind && o.image == was.image
    ensures forall j :: 0 <= j < |s.objects| && s.selected != Some(j) ==> r.objects[j] == s.objects[j]
  {
    match s.selected
    case None => s
    case Some(i) =>
      s.(objects := s.objects[i := s.objects[i].(x := px - s.offsetX, y := py - s.offsetY)])
  }

  /** Pointer release: the selection is cleared, the scene is untouched. */
  function ReleaseObject(s: EditorState): (r: EditorState)
    ensures r.selected == None && Valid(r)
    ensures r.objects == s.objects && r.offsetX == s.offsetX && r.offsetY == s.offsetY
  {
    s.(selected := None)
  }

  /** A stream of pointer motions, one move per point, in order. */
  function MoveAlong(s: EditorState, path: seq<(int, int)>): (r: EditorState)
    requires Valid(s)
    ensures Valid(r)
    decreases |path|
  {
    if path == [] then s else MoveAlong(MoveObject(s, path[0].0, path[0].1), path[1..])
  }

  /** Saving a scene and loading the records back restores it. */
  lemma SaveThenLoadRestores(s: EditorState, t: EditorState)
    ensures LoadProject(t, ToRecords(s.objects)).objects == s.objects
  {
    SaveLoadRoundTrip(s.objects);
  }

  /** After a release, motion changes nothing: a drag needs a fresh selection. */
  lemma MoveAfterReleaseIsNoOp(s: EditorState, px: int, py: int)
    ensures MoveObject(ReleaseObject(s), px, py) == ReleaseObject(s)
  {
  }

  /** Pressing on an object at (px, py) and moving to (px + dx, py + dy)
      shifts exactly that object by (dx, dy): the grab point is preserved. */
  lemma {:induction false} SelectThenMoveShifts(s: EditorState, px: int, py: int, item: ItemId,
                             overlap: GameObject -> Option<ItemId>, dx: int, dy: int, i: nat)
    requires Valid(s)
    requires FirstHit(s.objects, overlap, item) == Some(i)
    ensures MoveObject(SelectObject(s, px, py, Some(item), overlap), px + dx, py + dy).objects
      == s.objects[i := s.objects[i].(x := s.objects[i].x + dx, y := s.objects[i].y + dy)]
  {
    var grabbed := s.(selected := Some(i), offsetX := px - s.objects[i].x, offsetY := py - s.objects[i].y);
    assert SelectObject(s, px, py, Some(item), overlap) == grabbed;
    GrabbedMoveShifts(grabbed, px + dx, py + dy);
    var o := s.objects[i];
    assert o.(x := px + dx - grabbed.offsetX, y := py + dy - grabbed.offsetY) == o.(x := o.x + dx, y := o.y + dy);
  }

  /** Proof step: one motion with a selection rewrites exactly the selected
      object's corner. */
  lemma GrabbedMoveShifts(s: EditorState, px: int, py: int)
    requires Valid(s) && s.selected.Some?
    ensures var i := s.selected.value;
      MoveObject(s, px, py).objects == s.objects[i := s.objects[i].(x := px - s.offsetX, y := py - s.offsetY)]
  {
  }

  /** However many motions follow a selection, only the last one decides
      where the selected object ends up; the drag state is unchanged. */
  lemma {:induction false} MoveAlongEndsAtLast(s: EditorState, path: seq<(int, int)>)
    requires Valid(s) && s.selected.Some? && path != []
    ensures var i := s.selected.value;
      var last := path[|path| - 1];
      MoveAlong(s, path) == s.(objects := s.objects[i := s.objects[i].(x := last.0 - s.offsetX, y := last.1 - s.offsetY)])
    decreases |path|
  {
    var i := s.selected.value;
    var next := MoveObject(s, path[0].0, path[0].1);
    if |path| > 1 {
      MoveAlongEndsAtLast(next, path[1..]);
      assert path[1..][|path[1..]| - 1] == path[|path| - 1];
      assert next.objects[i := next.objects[i].(x := path[|path| - 1].0 - s.offsetX, y := path[|path| - 1].1 - s.offsetY)]
          == s.objects[i := s.objects[i].(x := path[|path| - 1].0 - s.offsetX, y := path[|path| - 1].1 - s.offsetY)];
    } else {
      assert path[1..] == [];
    }
  }

  /** Without a selection, any stream of motions leaves the state as it was. */
  lemma {:induction false} MoveAlongWithoutSelection(s: EditorState, path: seq<(int, int)>)
    requires Valid(s) && s.selected.None?
    ensures MoveAlong(s, path) == s
    decreases |path|
  {
    if path != [] {
      MoveAlongWithoutSelection(MoveObject(s, path[0].0, path[0].1), path[1..]);
    }
  }

  /** A whole press-drag-release gesture: press at (px, py), move along
      `path`, release. If the press hit an object, that object alone is
      displaced by the vector from the press point to the last pointer
      position; otherwise the scene is unchanged. Either way the editor ends
      with nothing selected. */
  lemma {:induction false} DragGesture(s: EditorState, px: int, py: int, item: ItemId,
                                       overlap: GameObject -> Option<ItemId>, path: seq<(int, int)>)
    requires Valid(s) && path != []
    ensures var r := ReleaseObject(MoveAlong(SelectObject(s, px, py, Some(item), overlap), path));
      var last := path[|path| - 1];
      && r.selected == None
      && (FirstHit(s.objects, overlap, item).None? ==> r.objects == s.objects)
      && (FirstHit(s.objects, overlap, item).Some? ==>
            var i := FirstHit(s.objects, overlap, item).value;
            r.objects == s.objects[i := s.objects[i].(x := s.objects[i].x + (last.0 - px),
                                                      y := s.objects[i].y + (last.1 - py))])
  {
    var pressed := SelectObject(s, px, py, Some(item), overlap);
    if pressed.selected.Some? {
      MoveAlongEndsAtLast(pressed, path);
    } else {
      MoveAlongWithoutSelection(pressed, path);
    }
  }

  /** A press released without any motion in between moves nothing and ends
      with nothing selected, whether or not the press hit an object. */
  lemma PressThenRelease(s: EditorState, px: int, py: int, closest: Option<ItemId>,
                         overlap: GameObject -> Option<ItemId>)
    ensures var r := ReleaseObject(SelectObject(s, px, py, closest, overlap));
      r.objects == s.objects && r.selected == None
  {
  }

  /** The scenario of a tree template (40 by 80, no image): "Oak" is placed at
      (100, 100); pressing at (110, 110) grabs it with offset (10, 10), and
      moving to (150, 140) puts its corner at (140, 130). */
  lemma OakScenario()
    ensures var templates := map["tree" := Template("tree", 40, 80, None)];
      var added := AddObject(Initial, templates, "tree", Some("Oak"));
      var pressed := SelectObject(added, 110, 110, Some(1), (o: GameObject) => Some(1));
      var moved := MoveObject(pressed, 150, 140);
      && added.objects == [GameObject("Oak", 100, 100, 40, 80, "tree", None)]
      && pressed.offsetX == 10 && pressed.offsetY == 10
      && moved.objects == [GameObject("Oak", 140, 130, 40, 80, "tree", None)]
  {
  }

  /** The motion handler as written. Without a selection it returns at
      main.py:212-213. With one, its first canvas call (main.py:218) passes
      two coordinates to the first item tagged "obj"; that item is always a
      rectangle, which takes four, so the call fails (and indexing an empty
      tag list fails too) before the corner is written at main.py:221-222.
      On both paths the editor state is left as it was. */
  function MoveObjectAsWritten(s: EditorState, px: int, py: int): (r: EditorState)
    ensures r == s
  {
    s
  }

  /** A stream of pointer motions handled as written: none of them changes
      the editor state. */
  function MoveAlongAsWritten(s: EditorState, path: seq<(int, int)>): (r: EditorState)
    ensures r == s
    decreases |path|
  {
    if path == [] then s else MoveAlongAsWritten(MoveObjectAsWritten(s, path[0].0, path[0].1), path[1..])
  }

  /** As written, a whole press-drag-release gesture leaves the scene exactly
      as it was, whether or not the press hit an object. */
  lemma DragGestureAsWritten(s: EditorState, px: int, py: int, item: ItemId,
                              overlap: GameObject -> Option<ItemId>, path: seq<(int, int)>)
    ensures var r := ReleaseObject(MoveAlongAsWritten(SelectObject(s, px, py, Some(item), overlap), path));
      r.objects == s.objects && r.selected == None
  {
  }

  /** The Oak drag as written and as intended: after the press at (110, 110),
      the move to (150, 140) leaves the object at (100, 100) as written,
      while the intended move puts it at (140, 130). */
  lemma MoveAsWrittenLosesDrag()
    ensures var templates := map["tree" := Template("tree", 40, 80, None)];
      var pressed := SelectObject(AddObject(Initial, templates, "tree", Some("Oak")), 110, 110,
                                  Some(1), (o: GameObject) => Some(1));
      && MoveObjectAsWritten(pressed, 150, 140).objects == [GameObject("Oak", 100, 100, 40, 80, "tree", None)]
      && MoveObject(pressed, 150, 140).objects == [GameObject("Oak", 140, 130, 40, 80, "tree", None)]
  {
  }

  /** A record without an image key loads as an object without an image. */
  lemma RockRecordLoads(s: EditorState)
    ensures LoadProject(s, [Record("Rock", 5, 5, 20, 20, "rock", Absent)]).objects
      == [GameObject("Rock", 5, 5, 20, 20, "rock", None)]
  {
  }
}
