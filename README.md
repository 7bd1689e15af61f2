# Roaming Engine scene editor — verified model

This project models the scene model and drag controller of the Roaming Engine
editor (`GameEditor` in `main.py`): placed game objects instantiated from
templates, the flat records a scene is saved as and loaded from, and the
press / drag / release handling that selects an object by canvas hit test and
moves it while keeping the grab point under the pointer.

- `scene.dfy`, module `Scene`: the `GameObject`, `Template` and saved `Record`
  values; instantiation (`Instantiate`); the save and load conversions
  (`ToRecords`, `FromRecords`) with their round trip; and `FirstHit`, the
  insertion-order search that selection performs.
- `controller.dfy`, module `Controller`: the editor state as a value
  (`EditorState`: scene, selected index, grab offset) and one transition per
  event (`AddObject`, `LoadProject`, `SelectObject`, `MoveObject`,
  `ReleaseObject`), with lemmas about event sequences (drag shifts by the
  pointer's displacement, a whole press-drag-release gesture, motion after
  release does nothing, save then load restores the scene).
- `editor.dfy`, module `Editor`: the class `GameEditor`, whose fields are
  updated in place as in the source: `AddObject` appends, `LoadProject`
  clears the list and rebuilds it in a loop, `SelectObject` walks the objects
  in a loop and sets the selection and offset fields, `MoveObject` rewrites
  the selected object's corner, `ReleaseObject` clears the selection. Each
  method is proved to produce exactly the state the matching `Controller`
  transition gives, so every lemma in `Controller` applies to the class.

The canvas queries are parameters. `closest: Option<ItemId>` is the first
primitive `find_closest` reports at the pointer. It is `None` only on an
empty canvas. `overlap: GameObject -> Option<ItemId>` is the first primitive
`find_overlapping` reports over an object's bounding box. An object is hit
when `overlap(o) == closest`. Dialog answers are parameters too: the chosen
template name, and the typed object name as `Option<string>`, where `None`
means the dialog was cancelled. The template store is a given map. Saved
records are values. A record's `image` entry is `Absent`, `Null` or
`Path(p)`, so that both a missing key and an explicit null are represented.

Behaviour kept from the code as written:
- An unknown template is reported before the name is asked for. An empty or
  cancelled name adds nothing and reports nothing.
- A new object's `type` is the chosen template key.
- Selection walks objects in creation order, not drawing order. With
  overlapping objects, the first created one that matches wins.
- When the canvas reports no closest primitive, the press handler returns
  before it clears the selection, so an earlier selection survives
  (`Controller.SelectObject`, case `closest.None?`).
- Motion without a selection changes nothing.

## Model

| member | source | states |
|---|---|---|
| Scene.Instantiate | main.py:98-116 | nothing is produced iff the template is unknown or the name is missing or empty; an unknown template is reported as such even when the name is missing; otherwise the object has the typed name, corner (100, 100), type = template key, and the template's width, height and image |
| Scene.ImageOf | main.py:151 | a record's image reads as a path exactly when the record holds a path; a missing key and a null both read as no image |
| Scene.ImageEntry | main.py:133 | save always writes the image key (never absent), and reading that entry back gives the object's image |
| Scene.FromRecord | main.py:151 | an object read from a record carries the record's name, x, y, width, height and type, and its image is the record's path, or none when the key is missing or null |
| Scene.ToRecord | main.py:133 | the record an object is saved as is never missing its image key and reads back as the same object |
| Scene.ToRecords | main.py:133 | save yields exactly one record per object, in scene order, with that object's name, x, y, width, height, type, and its image path or null |
| Scene.FromRecords | main.py:148-152 | load yields exactly one object per record, in record order, each read from its record |
| Scene.FromRecordsAppend | main.py:150-152 | one more record at the end of the document yields one more object at the end of the scene |
| Scene.SaveLoadRoundTrip | main.py:133-152 | loading what save produced gives back the scene field for field, for any number of objects, with and without images |
| Scene.Normalized | main.py:133 | a record with its missing image key made an explicit null is never missing the key and reads as the same object |
| Scene.LoadSaveNormalizes | main.py:133-152 | saving what load produced gives back the records, except that a missing image key comes back as null |
| Scene.FirstHit | main.py:202-209 | the result is the first object, in insertion order, whose box query yields the pointer's primitive: it is hit and every earlier object is not; no result means no object is hit |
| Controller.AddObject | main.py:98-116 | an unknown template or a missing or empty name leaves the scene unchanged; otherwise the scene grows by exactly one object at its end, at (100, 100), with type = template key and the template's size and image, earlier objects unchanged; the drag state is untouched |
| Controller.LoadProject | main.py:146-152 | the scene is replaced wholesale by one object per record in record order, and nothing is selected |
| Controller.SelectObject | main.py:196-209 | the scene is unchanged; with no closest primitive the whole state, selection included, is unchanged; otherwise the selection is the first hit object in insertion order and the offset is the pointer minus its corner, or nothing is selected, no object is hit and the offset is kept |
| Controller.MoveObject | main.py:211-222 | with a selection, that object's corner becomes pointer minus offset, its name, size, type and image are kept, every other object is unchanged and the drag state is kept; without a selection nothing changes |
| Controller.ReleaseObject | main.py:224-225 | the selection is cleared; the scene and the offset are unchanged |
| Controller.MoveAlong | main.py:211-222 | a stream of motion events keeps the selection designating an object of the scene |
| Controller.SaveThenLoadRestores | main.py:133-152 | loading the records saved from a scene, into any editor state, restores that scene |
| Controller.MoveAfterReleaseIsNoOp | main.py:211-225 | after a release, a motion event changes nothing |
| Controller.SelectThenMoveShifts | main.py:196-222 | pressing on an object at (px, py) and moving to (px + dx, py + dy) shifts that object, and only it, by exactly (dx, dy) |
| Controller.MoveAlongEndsAtLast | main.py:211-222 | after any non-empty stream of motions with a selection, the selected object's corner is the last pointer position minus the offset, and nothing else has changed |
| Controller.MoveAlongWithoutSelection | main.py:211-213 | without a selection, any stream of motions leaves the state unchanged |
| Controller.DragGesture | main.py:196-225 | a press, a stream of motions and a release displace the object hit by the press, and only it, by the vector from the press point to the last pointer position, leave the scene unchanged when the press hit nothing, and end with nothing selected |
| Controller.PressThenRelease | main.py:196-225 | a press followed directly by a release, with no motion between, leaves the scene unchanged and ends with nothing selected, whether or not the press hit an object |
| Controller.OakScenario | main.py:98-222 | a 40 by 80 "tree" template instantiated as "Oak" sits at (100, 100); a press at (110, 110) records offset (10, 10); a move to (150, 140) puts its corner at (140, 130) |
| Controller.MoveObjectAsWritten | main.py:211-222 | the motion handler as written leaves the editor state unchanged, both without a selection (early return) and with one (the canvas call at line 218 fails before the corner is written) |
| Controller.MoveAlongAsWritten | main.py:211-222 | with the motion handler as written, no stream of motion events changes the editor state, with or without a selection |
| Controller.DragGestureAsWritten | main.py:196-225 | with the motion handler as written, a press, any stream of motions and a release leave the scene exactly as it was and end with nothing selected |
| Controller.MoveAsWrittenLosesDrag | main.py:211-222 | in the tree/Oak drag, the move as written leaves the object at (100, 100) while the intended move puts it at (140, 130) |
| Scene.FromRecordsAsWritten | main.py:148-155 | the load loop as written yields a prefix of the records' objects, one per record; it is cut short only right after the first record with a non-empty image path, and it loads every record when no record before the last has one |
| Scene.RoundTripAsWrittenDropsObjects | main.py:133-155 | saving [A with image "a.png", B] and loading it as written gives [A], while the intended load gives back [A, B] |
| Controller.RockRecordLoads | main.py:150-152 | a record without an image key loads as an object without an image rather than failing |
| Editor.GameEditor.constructor | main.py:54-57 | a new editor has an empty scene, no selection, zero offsets and the given templates |
| Editor.GameEditor.AddObject | main.py:98-116 | returns the new object, or the reason nothing was added, and performs Controller.AddObject on the editor's fields |
| Editor.GameEditor.SaveGame | main.py:133 | one record per object, every record carries its image key (a path or null, never missing), and loading the records gives the editor's scene back |
| Editor.GameEditor.LoadProject | main.py:146-152 | clearing and rebuilding the list in a loop performs Controller.LoadProject on the editor's fields |
| Editor.GameEditor.SelectObject | main.py:196-209 | the early return and the insertion-order loop with break perform Controller.SelectObject on the editor's fields |
| Editor.GameEditor.MoveObject | main.py:211-222 | the in-place corner update performs Controller.MoveObject on the editor's fields |
| Editor.GameEditor.ReleaseObject | main.py:224-225 | performs Controller.ReleaseObject on the editor's fields |

## Findings

| source | as written | input that shows it | evidently intended | confidence | as-written member | corrected member |
|---|---|---|---|---|---|---|
| main.py:218-222 | with a selection, the motion handler first calls `coords` with two values on the first "obj" item, which is always a rectangle and takes four, so it fails before writing x and y at lines 221-222 (with no "obj" item, the `[0]` fails instead); no drag ever moves an object | tree template 40 by 80, add "Oak", press at (110, 110), move to (150, 140): the object stays at (100, 100) | the corner follows the pointer minus the grab offset: (140, 130) | high, not executed | Controller.DragGestureAsWritten | Controller.MoveObject |
| main.py:152-155 | the load loop appends an object and then calls `Image.open`, which is never imported, for a non-empty image path, so the loop stops after the first such record | save [A with image "a.png", B] and load it: the scene is [A] | every record is loaded, giving [A, B] | high, not executed | Scene.RoundTripAsWrittenDropsObjects | Scene.FromRecords |

## Left out

- Window, menus, toolbar, template combobox and event bindings (main.py:17-68) are user-interface plumbing. The model takes the chosen template key, the typed name and the pointer coordinates as parameters.
- Drawing is not modelled: rectangles, labels and images on the canvas, the centre computation with `/ 2`, `coords` and `delete` (main.py:118-126, 146-147, 154-162, 218-219). The canvas is a derived view of the scene. Where a drawing call fails and so stops the handler before it changes the scene, the effect is recorded under "## Findings".
- Controller.MoveObject: models the move as intended and assumes the canvas call at main.py:218-219 succeeds. As written it fails, so a drag never changes the scene. Controller.MoveObjectAsWritten models that. Controller.DragGestureAsWritten, listed under "## Findings", shows its effect on a whole drag. The class's MoveObject and the drag lemmas use the intended move.
- `find_closest` and `find_overlapping` (main.py:197, 204) are canvas queries. They become the `closest` and `overlap` parameters, so which primitive is nearest or topmost is not modelled.
- Image loading, resizing and saving, and `export_project` (main.py:119-123, 155-159, 164-175), are file and image I/O. `Image` and `ImageTk` are not imported by the source, so the first call to `Image.open` raises an error. In `add_object` that happens at main.py:119, after the object was appended at main.py:116, so the scene still matches Controller.AddObject.
- Controller.LoadProject: assumes image loading succeeds. As written, the loop stops at main.py:155 right after appending the first object with a non-empty image path, and later records are dropped. Scene.FromRecordsAsWritten models that. Scene.RoundTripAsWrittenDropsObjects, listed under "## Findings", shows its effect on a save and load.
- Scene.SaveLoadRoundTrip: holds for the intended load. As written, the round trip loses every object after the first one with an image (Scene.RoundTripAsWrittenDropsObjects).
- `load_templates` (main.py:86-96) creates, lists and parses files. The templates are a given map, so the last-loaded-wins outcome for duplicate template names, which depends on directory listing order, is not modelled.
- The script editor (`initialize_irl_code`, `save_code`, `load_code`, main.py:70-84, 177-194) is opaque text I/O.
- File dialogs, message boxes and JSON text reading and writing (main.py:129-136, 139-144) are not modelled. Records are values, and a cancelled file dialog is simply an operation not called.
- Malformed saved records are not modelled. `Record` always holds the required keys. In the source a record missing one raises an error partway through the loop, after the list was cleared (main.py:148-151). That partial state is not modelled.
- Object identity is not modelled. The source keeps a reference to the selected object, while the model keeps its index in the scene. Objects are values.
- Controller.LoadProject: clears the selection, which the source does not do. After a load, the source's selection still refers to an object of the old scene, which is no longer in the list. A later move would change only that orphan, and as written it changes nothing at all. An index cannot denote an object outside the scene, so the model has no selection instead. Either way, a move after a load changes no object of the scene.
- Numbers are unbounded integers. Pointer coordinates and template sizes are integers in practice, and Python integers do not overflow. Non-integer sizes from template files are not modelled.
