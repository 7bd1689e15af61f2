/** The scene model of the editor: placed objects, the templates they are
    instantiated from, the flat records a scene is saved as and loaded from,
    and the insertion-order hit search that pointer selection relies on. */
module Scene {

  datatype Option<+T> = None | Some(value: T)

  datatype Result<+T, +E> = Success(value: T) | Failure(error: E)

  /** Identifier of a primitive on the drawing canvas. */
  type ItemId = int

  /** Every new object is placed with its top-left corner at (Origin, Origin). */
  const Origin: int := 100

  /** A placed object. (x, y) is the top-left corner in canvas coordinates,
      `kind` is the name of the template it was made from (saved as `type`),
      `image` an optional image path. Names need not be unique: an object is
      identified by its position in the scene. */
  datatype GameObject = GameObject(name: string, x: int, y: int, width: int, height: int,
                                   kind: string, image: Option<string>)

  /** A template as read from the template store. */
  datatype Template = Template(name: string, width: int, height: int, image: Option<string>)

  /** Why instantiation added nothing: the chosen template is unknown, or the
      name dialog was cancelled or answered with an empty name. */
  datatype AddError = TemplateNotFound | NoName

  /** The `image` entry of a saved record: missing from the record, null, or a path. */
  datatype ImageField = Absent | Null | Path(path: string)

  /** One flat record of a saved scene; `kind` is the record's `type` key.
      Only well-formed records (every required key present) are modelled. */
  datatype Record = Record(name: string, x: int, y: int, width: int, height: int,
                           kind: string, image: ImageField)

  /** A name answer counts only when present and non-empty. */
  predicate HasName(name: Option<string>)
  {
    name.Some? && name.value != ""
  }

  /** The object that instantiating template `key` under display name `name`
      produces, or why nothing is produced. The template is looked up first,
      so an unknown template wins over a missing name. */
  function Instantiate(templates: map<string, Template>, key: string, name: Option<string>)
    : (r: Result<GameObject, AddError>)
    ensures r.Success? <==> key in templates && HasName(name)
    ensures key !in templates ==> r == Failure(TemplateNotFound)
    ensures key in templates && !HasName(name) ==> r == Failure(NoName)
    ensures r.Success? ==>
      && r.value.name == name.value
      && r.value.x == Origin && r.value.y == Origin
      && r.value.kind == key
      && r.value.width == templates[key].width
      && r.value.height == templates[key].height
      && r.value.image == templates[key].image
  {
    if key !in templates then Failure(TemplateNotFound)
    else if !HasName(name) then Failure(NoName)
    else
      var t := templates[key];
      Success(GameObject(name.value, Origin, Origin, t.width, t.height, key, t.image))
  }

  /** Reading a record's image: a missing key and a null both mean "no image". */
  function ImageOf(field: ImageField): (image: Option<string>)
    ensures image.Some? <==> field.Path?
    ensures field.Path? ==> image.value == field.path
  {
    match field
    case Path(p) => Some(p)
    case _ => None
  }

  /** Save writes the image key always: a path, or null when there is none. */
  function ImageEntry(image: Option<string>): (field: ImageField)
    ensures field != Absent
    ensures ImageOf(field) == image
  {
    match image
    case Some(p) => Path(p)
    case None => Null
  }

  /** The object a saved record describes. */
  function FromRecord(rec: Record): (o: GameObject)
    ensures o.image == ImageOf(rec.image)
    ensures o.name == rec.name && o.kind == rec.kind
    ensures o.x == rec.x && o.y == rec.y && o.width == rec.width && o.height == rec.height
  {
    GameObject(rec.name, rec.x, rec.y, rec.width, rec.height, rec.kind, ImageOf(rec.image))
  }

  /** The record an object is saved as; reading it back gives the object. */
  function ToRecord(o: GameObject): (rec: Record)
    ensures FromRecord(rec) == o
    ensures rec.image != Absent
  {
    Record(o.name, o.x, o.y, o.width, o.height, o.kind, ImageEntry(o.image))
  }

  /** The saved form of a scene: one record per object, in scene order. */
  function ToRecords(objects: seq<GameObject>): (records: seq<Record>)
    ensures |records| == |objects|
    ensures forall i :: 0 <= i < |objects| ==>
      && records[i].name == objects[i].name
      && records[i].x == objects[i].x && records[i].y == objects[i].y
      && records[i].width == objects[i].width && records[i].height == objects[i].height
      && records[i].kind == objects[i].kind
      && records[i].image == (if objects[i].image.Some? then Path(objects[i].image.value) else Null)
  {
    seq(|objects|, i requires 0 <= i < |objects| => ToRecord(objects[i]))
  }

  /** The scene a list of records loads as, built the way loading builds it:
      one object appended per record, in record order. */
  function FromRecords(records: seq<Record>): (objects: seq<GameObject>)
    ensures |objects| == |records|
    ensures forall i :: 0 <= i < |records| ==> objects[i] == FromRecord(records[i])
  {
    if records == [] then []
    else FromRecords(records[..|records| - 1]) + [FromRecord(records[|records| - 1])]
  }

  /** Appending one record appends one object: the step of the load loop. */
  lemma FromRecordsAppend(records: seq<Record>, rec: Record)
    ensures FromRecords(records + [rec]) == FromRecords(records) + [FromRecord(rec)]
  {
    assert (records + [rec])[..|records|] == records;
  }

  /** Saving then loading gives back the scene, field for field, whatever its
      size and whether or not its objects carry images. */
  lemma {:induction false} SaveLoadRoundTrip(objects: seq<GameObject>)
    ensures FromRecords(ToRecords(objects)) == objects
  {
    var back := FromRecords(ToRecords(objects));
    forall i | 0 <= i < |objects|
      ensures back[i] == objects[i]
    {
      assert back[i] == FromRecord(ToRecord(objects[i]));
    }
  }

  /** A record as save would write it again: a missing image key becomes null. */
  function Normalized(rec: Record): (r: Record)
    ensures r.image != Absent
    ensures FromRecord(r) == FromRecord(rec)
  {
    if rec.image == Absent then rec.(image := Null) else rec
  }

  /** Loading then saving gives back the records, except that a missing image
      key comes back as an explicit null. */
  lemma {:induction false} LoadSaveNormalizes(records: seq<Record>)
    ensures |ToRecords(FromRecords(records))| == |records|
    ensures forall i :: 0 <= i < |records| ==> ToRecords(FromRecords(records))[i] == Normalized(records[i])
  {
    var again := ToRecords(FromRecords(records));
    forall i | 0 <= i < |records|
      ensures again[i] == Normalized(records[i])
    {
      assert FromRecords(records)[i] == FromRecord(records[i]);
    }
  }

  /** Whether loading a record reaches the image branch of the load loop: its
      image path is present and non-empty. */
  predicate StopsLoad(rec: Record)
  {
    rec.image.Path? && rec.image.path != ""
  }

  /** The scene the load loop leaves as written: each record's object is
      appended, and the first one with a non-empty image path then reaches
      `Image.open`, a name that is never imported, so the loop ends there
      with that object appended and the remaining records dropped. */
  function FromRecordsAsWritten(records: seq<Record>): (objects: seq<GameObject>)
    ensures |objects| <= |records|
    ensures forall i :: 0 <= i < |objects| ==> objects[i] == FromRecord(records[i])
    ensures forall i :: 0 <= i < |objects| - 1 ==> !StopsLoad(records[i])
    ensures |objects| < |records| ==> |objects| > 0 && StopsLoad(records[|objects| - 1])
    ensures (forall i :: 0 <= i < |records| - 1 ==> !StopsLoad(records[i])) ==> |objects| == |records|
  {
    if records == [] then []
    else if StopsLoad(records[0]) then [FromRecord(records[0])]
    else [FromRecord(records[0])] + FromRecordsAsWritten(records[1..])
  }

  /** As written, saving a scene whose first object has an image and loading
      it back loses every later object: [A with "a.png", B] loads as [A]. */
  lemma RoundTripAsWrittenDropsObjects()
    ensures var a := GameObject("A", 0, 0, 10, 10, "rock", Some("a.png"));
      var b := GameObject("B", 5, 5, 10, 10, "rock", None);
      && FromRecordsAsWritten(ToRecords([a, b])) == [a]
      && FromRecords(ToRecords([a, b])) == [a, b]
  {
    var a := GameObject("A", 0, 0, 10, 10, "rock", Some("a.png"));
    var b := GameObject("B", 5, 5, 10, 10, "rock", None);
    var records := ToRecords([a, b]);
    assert StopsLoad(records[0]);
    SaveLoadRoundTrip([a, b]);
  }

  /** The first object, in insertion order, whose box's first overlapping
      canvas primitive is `item`. `overlap(o)` stands for the canvas query over
      o's bounding box (None when nothing overlaps it). */
  function FirstHit(objects: seq<GameObject>, overlap: GameObject -> Option<ItemId>, item: ItemId)
    : (r: Option<nat>)
    ensures r.Some? ==> r.value < |objects| && overlap(objects[r.value]) == Some(item)
    ensures r.Some? ==> forall j :: 0 <= j < r.value ==> overlap(objects[j]) != Some(item)
    ensures r.None? ==> forall j :: 0 <= j < |objects| ==> overlap(objects[j]) != Some(item)
  {
    if objects == [] then None
    else if overlap(objects[0]) == Some(item) then Some(0)
    else
      match FirstHit(objects[1..], overlap, item)
      case None => None
      case Some(k) => Some(k + 1)
  }
}
