/** The editor object: it owns the scene and the drag state as mutable fields
    and updates them in place in response to menu actions and pointer events.
    Each method is proved to leave the editor in the state that the matching
    transition of module Controller describes. */
module Editor {
  import opened Scene
  import Controller

  class GameEditor {
    /** The scene, in creation order. */
    var objects: seq<GameObject>
    /** Index of the object being dragged, if any. */
    var selected: Option<nat>
    /** Grab offset: pointer minus the selected object's corner at press time. */
    var offsetX: int
    var offsetY: int
    /** The template store's snapshot, keyed by template name. */
    const templates: map<string, Template>

    /** The editor's fields as a value. */
    function State(): Controller.EditorState
      reads this
    {
      Controller.EditorState(objects, selected, offsetX, offsetY)
    }

    ghost predicate Valid()
      reads this
    {
      Controller.Valid(State())
    }

    /** An editor over the given templates, with an empty scene and no selection. */
    constructor (templates: map<string, Template>)
      ensures Valid() && State() == Controller.Initial
      ensures this.templates == templates
    {
      this.templates := templates;
      objects := [];
      selected := None;
      offsetX, offsetY := 0, 0;
    }

    /** Instantiates template `key` under the name the user typed (`name` is
        None when the dialog was cancelled). Returns the new object, or the
        reason nothing was added. */
    method AddObject(key: string, name: Option<string>) returns (outcome: Result<GameObject, AddError>)
      requires Valid()
      modifies this
      ensures Valid()
      ensures outcome == Instantiate(templates, key, name)
      ensures State() == Controller.AddObject(old(State()), templates, key, name)
    {
      if key !in templates {
        outcome := Failure(TemplateNotFound);
        return;
      }
      var template := templates[key];
      if name.None? || name.value == "" {
        outcome := Failure(NoName);
        return;
      }
      var obj := GameObject(name.value, Origin, Origin, template.width, template.height, key, template.image);
      objects := objects + [obj];
      outcome := Success(obj);
    }

    /** The records the scene is saved as: every record carries its image
        key, and loading them gives the scene back. */
    function SaveGame(): (records: seq<Record>)
      reads this
      ensures |records| == |objects|
      ensures forall i :: 0 <= i < |records| ==> records[i].image != Absent
      ensures FromRecords(records) == objects
    {
      SaveLoadRoundTrip(objects);
      ToRecords(objects)
    }

    /** Replaces the scene with one object per record, appended in record order. */
    method LoadProject(records: seq<Record>)
      requires Valid()
      modifies this
      ensures Valid()
      ensures State() == Controller.LoadProject(old(State()), records)
    {
      selected := None;
      objects := [];
      for k := 0 to |records|
        invariant selected == None
        invariant offsetX == old(offsetX) && offsetY == old(offsetY)
        invariant objects == FromRecords(records[..k])
      {
        FromRecordsAppend(records[..k], records[k]);
        assert records[..k + 1] == records[..k] + [records[k]];
        objects := objects + [FromRecord(records[k])];
      }
      assert records[..|records|] == records;
    }

    /** Pointer press at (px, py); see Controller.SelectObject for `closest`
        and `overlap`, the two canvas queries. */
    method SelectObject(px: int, py: int, closest: Option<ItemId>, overlap: GameObject -> Option<ItemId>)
      requires Valid()
      modifies this
      ensures Valid()
      ensures State() == Controller.SelectObject(old(State()), px, py, closest, overlap)
    {
      if closest.None? {
        return;
      }
      selected := None;
      var k := 0;
      while k < |objects|
        invariant 0 <= k <= |objects|
        invariant objects == old(objects) && selected == None
        invariant offsetX == old(offsetX) && offsetY == old(offsetY)
        invariant forall j :: 0 <= j < k ==> overlap(objects[j]) != closest
      {
        var obj := objects[k];
        if overlap(obj) == closest {
          selected := Some(k);
          offsetX := px - obj.x;
          offsetY := py - obj.y;
          break;
        }
        k := k + 1;
      }
    }

    /** Pointer motion to (px, py): drags the selected object, if any. */
    method MoveObject(px: int, py: int)
      requires Valid()
      modifies this
      ensures Valid()
      ensures State() == Controller.MoveObject(old(State()), px, py)
    {
      if selected.None? {
        return;
      }
      var i := selected.value;
      var newX := px - offsetX;
      var newY := py - offsetY;
      objects := objects[i := objects[i].(x := newX, y := newY)];
    }

    /** Pointer release: ends the drag. */
    method ReleaseObject()
      requires Valid()
      modifies this
      ensures Valid()
      ensures State() == Controller.ReleaseObject(old(State()))
    {
      selected := None;
    }
  }
}
