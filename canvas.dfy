/**
 * The drawing canvas of components/Canvas/index.tsx: a stroke history that
 * can be undone and redone, committed into one polyline when the user leaves
 * DRAW mode, and the object operations (delete, flip, lock) on the fabric.js
 * canvas it draws on.
 *
 * The canvas is abstracted to what these handlers read and write: the ordered
 * list of object ids (index 0 is the bottom of the stack), each object's
 * kind and `selectable`/`evented`/`flipX` flags, the active selection and the
 * webcam image. Every handler is first a function from the old state to the
 * new one (`UndoStep`, `RedoStep`, ...); the class `Component` of module `CanvasComponent` holds
 * the component's state fields and performs the same transitions in place.
 */
module Canvas {

  import opened Optional
  import opened Utils
  import opened Seqs
  import opened Cursor

  type ObjId = nat

  /** A `fabric.Line` from `(x1, y1)` = `start` to `(x2, y2)` = `end`. */
  datatype Line = Line(id: ObjId, start: Point, end: Point)

  /** The object kinds the handlers tell apart. */
  datatype Kind = Image | StrokeLine | Polyline(points: seq<Point>)

  datatype Shape = Shape(kind: Kind, selectable: bool, evented: bool, flipX: bool)

  /** The component's state plus the part of the fabric canvas it touches. */
  datatype Editor = Editor(
    mounted: bool,            // `canvas` is not null
    lines: seq<Line>,
    lineOffset: int,
    previousCursor: Point,
    objects: seq<ObjId>,      // `canvas.getObjects()`, bottom first
    shapes: map<ObjId, Shape>,
    active: seq<ObjId>,       // `canvas.getActiveObjects()`
    webcam: Option<ObjId>,
    nextId: nat)              // the id the next created object gets

  function Initial(): (r: Editor)
    ensures Inv(r) && InSync(r)
    ensures !r.mounted && r.lines == [] && r.lineOffset == -1 && r.previousCursor == NoCursor
    ensures r.objects == [] && r.active == [] && r.webcam == None
  {
    Editor(false, [], -1, NoCursor, [], map[], [], None, 0)
  }

  // ---------------------------------------------------------------------------
  // Lines

  function Ids(lines: seq<Line>): (r: set<ObjId>)
    ensures forall l :: l in lines ==> l.id in r
    ensures forall id :: id in r ==> exists l :: l in lines && l.id == id
  {
    set l | l in lines :: l.id
  }

  ghost predicate DistinctIds(lines: seq<Line>) {
    forall i, j :: 0 <= i < j < |lines| ==> lines[i].id != lines[j].id
  }

  /** The points of `lines` flattened pairwise: `[(x1, y1), (x2, y2), ...]`. */
  function Endpoints(lines: seq<Line>): (r: seq<Point>)
    ensures |r| == 2 * |lines|
    ensures forall i :: 0 <= i < |lines| ==> r[2 * i] == lines[i].start && r[2 * i + 1] == lines[i].end
  {
    if lines == [] then []
    else
      var rest := Endpoints(lines[1..]);
      assert forall i :: 1 <= i < |lines| ==> rest[2 * i - 2] == lines[i].start && rest[2 * i - 1] == lines[i].end by {
        forall i | 1 <= i < |lines| ensures rest[2 * i - 2] == lines[i].start && rest[2 * i - 1] == lines[i].end {
          assert lines[1..][i - 1] == lines[i];
          assert 2 * (i - 1) == 2 * i - 2;
        }
      }
      [lines[0].start, lines[0].end] + rest
  }

  // ---------------------------------------------------------------------------
  // The fabric canvas operations the handlers call

  /** `canvas.add(obj)`: the object goes on top of the stack. */
  function AddObject(e: Editor, id: ObjId): (r: Editor)
    ensures r.objects == e.objects + [id]
  {
    e.(objects := e.objects + [id])
  }

  /** `canvas.add(new fabric.X(...))`: a fresh object with the given shape goes on top of the stack. */
  function AddNew(e: Editor, shape: Shape): (r: Editor)
    ensures r.objects == e.objects + [e.nextId] && r.shapes == e.shapes[e.nextId := shape] && r.nextId == e.nextId + 1
    ensures r.(objects := e.objects, shapes := e.shapes, nextId := e.nextId) == e
  {
    AddObject(e, e.nextId).(shapes := e.shapes[e.nextId := shape], nextId := e.nextId + 1)
  }

  /**
   * `canvas.remove(...objs)`: objects in `d` leave the canvas and with it the
   * active selection; objects not on the canvas are ignored.
   */
  function RemoveObjects(e: Editor, d: set<ObjId>): (r: Editor)
    ensures forall id :: id in r.objects <==> id in e.objects && id !in d
    ensures forall id :: id in r.active <==> id in e.active && id !in d
  {
    e.(objects := Without(e.objects, d), active := Without(e.active, d))
  }

  /** `canvas.getObjects('image')`, bottom first. */
  function ImagesOf(objects: seq<ObjId>, shapes: map<ObjId, Shape>): (r: seq<ObjId>)
    ensures forall id :: id in r <==> id in objects && id in shapes && shapes[id].kind == Image
  {
    Without(objects, NonImages(objects, shapes))
  }

  function NonImages(objects: seq<ObjId>, shapes: map<ObjId, Shape>): (r: set<ObjId>)
    ensures forall id :: id in r <==> id in objects && !(id in shapes && shapes[id].kind == Image)
  {
    set id | id in objects && !(id in shapes && shapes[id].kind == Image)
  }

  /** `obj.flipX = !obj.flipX`. */
  function ToggleFlip(shapes: map<ObjId, Shape>, id: ObjId): (r: map<ObjId, Shape>)
    ensures r.Keys == shapes.Keys
    ensures forall x :: x in r ==> r[x].(flipX := shapes[x].flipX) == shapes[x]
  {
    if id in shapes then shapes[id := shapes[id].(flipX := !shapes[id].flipX)] else shapes
  }

  /** `ids.forEach(obj => obj.flipX = !obj.flipX)`: nothing but `flipX` changes. */
  function ToggleFlips(shapes: map<ObjId, Shape>, ids: seq<ObjId>): (r: map<ObjId, Shape>)
    ensures r.Keys == shapes.Keys
    ensures forall x :: x in r ==> r[x].(flipX := shapes[x].flipX) == shapes[x]
  {
    if ids == [] then shapes else ToggleFlip(ToggleFlips(shapes, ids[..|ids| - 1]), ids[|ids| - 1])
  }

  /** `obj.selectable = false; obj.evented = false`. */
  function Disable(shapes: map<ObjId, Shape>, id: ObjId): (r: map<ObjId, Shape>)
    ensures r.Keys == shapes.Keys
    ensures forall x :: x in r ==> r[x].kind == shapes[x].kind && r[x].flipX == shapes[x].flipX
    ensures forall x :: x in r && r[x].selectable ==> shapes[x].selectable
  {
    if id in shapes then shapes[id := shapes[id].(selectable := false, evented := false)] else shapes
  }

  /** `ids.forEach(obj => { obj.selectable = false; obj.evented = false })`: flags are only ever cleared. */
  function DisableAll(shapes: map<ObjId, Shape>, ids: seq<ObjId>): (r: map<ObjId, Shape>)
    ensures r.Keys == shapes.Keys
    ensures forall x :: x in r ==> r[x].kind == shapes[x].kind && r[x].flipX == shapes[x].flipX
    ensures forall x :: x in r && r[x].selectable ==> shapes[x].selectable
  {
    if ids == [] then shapes else Disable(DisableAll(shapes, ids[..|ids| - 1]), ids[|ids| - 1])
  }

  /** `obj.moveTo(0)`: an object on the canvas moves to the bottom of the stack. */
  function SendToBack(objects: seq<ObjId>, id: ObjId): (r: seq<ObjId>)
    ensures forall x :: x in r <==> x in objects
    ensures Distinct(objects) ==> Distinct(r)
  {
    if id in objects then
      var rest := Without(objects, {id});
      assert Distinct(objects) ==> Distinct([id] + rest) by {
        if Distinct(objects) {
          WithoutDistinct(objects, {id});
          forall i, j | 0 <= i < j < |[id] + rest| ensures ([id] + rest)[i] != ([id] + rest)[j] {
            assert ([id] + rest)[j] == rest[j - 1];
          }
        }
      }
      [id] + rest
    else objects
  }

  /** `ids.forEach(obj => obj.moveTo(0))`. */
  function SendAllToBack(objects: seq<ObjId>, ids: seq<ObjId>): (r: seq<ObjId>)
    ensures forall x :: x in r <==> x in objects
    ensures Distinct(objects) ==> Distinct(r)
  {
    if ids == [] then objects else SendToBack(SendAllToBack(objects, ids[..|ids| - 1]), ids[|ids| - 1])
  }

  /** The prefix of a sequence without duplicates has none, and lacks the last element. */
  lemma DistinctInit(ids: seq<ObjId>)
    requires Distinct(ids) && ids != []
    ensures Distinct(ids[..|ids| - 1]) && ids[|ids| - 1] !in ids[..|ids| - 1]
  {
  }

  /** Flipping distinct objects negates `flipX` of exactly those objects. */
  lemma {:induction false} ToggleFlipsSpec(shapes: map<ObjId, Shape>, ids: seq<ObjId>)
    requires Distinct(ids)
    ensures forall x :: x in shapes ==> ToggleFlips(shapes, ids)[x] == shapes[x].(flipX := shapes[x].flipX != (x in ids))
  {
    if ids != [] {
      var init := ids[..|ids| - 1];
      var last := ids[|ids| - 1];
      assert ids == init + [last];
      DistinctInit(ids);
      ToggleFlipsSpec(shapes, init);
      var m := ToggleFlips(shapes, init);
      forall x | x in shapes ensures ToggleFlip(m, last)[x] == shapes[x].(flipX := shapes[x].flipX != (x in ids)) {
        assert x in ids <==> x in init || x == last;
      }
    }
  }

  /** Locking clears `selectable` and `evented` of exactly the objects locked. */
  lemma {:induction false} DisableAllSpec(shapes: map<ObjId, Shape>, ids: seq<ObjId>)
    ensures forall x :: x in shapes ==>
      DisableAll(shapes, ids)[x] == if x in ids then shapes[x].(selectable := false, evented := false) else shapes[x]
  {
    if ids != [] {
      var init := ids[..|ids| - 1];
      DisableAllSpec(shapes, init);
      assert ids == init + [ids[|ids| - 1]];
    }
  }

  /** Sending an object that lies above `low` to the back puts it below `low`. */
  lemma SendToBackAbove(low: seq<ObjId>, high: seq<ObjId>, id: ObjId)
    requires id !in low && id in high
    ensures SendToBack(low + high, id) == [id] + low + Without(high, {id})
  {
    var s := low + high;
    assert id in s;
    assert SendToBack(s, id) == [id] + Without(s, {id});
    assert Without(s, {id}) == low + Without(high, {id}) by {
      WithoutAppend(low, high, {id});
      WithoutNothing(low, {id});
    }
  }

  /**
   * Sending distinct objects to the back one after the other leaves them at the
   * bottom in reverse order, the last one sent lowest, and the rest in their order.
   */
  lemma {:induction false} SendAllToBackSpec(objects: seq<ObjId>, ids: seq<ObjId>)
    requires Distinct(ids) && forall x :: x in ids ==> x in objects
    ensures SendAllToBack(objects, ids) == Reverse(ids) + Without(objects, Elems(ids))
  {
    if ids == [] {
      WithoutNothing(objects, Elems(ids));
    } else {
      var init := ids[..|ids| - 1];
      var last := ids[|ids| - 1];
      assert ids == init + [last];
      DistinctInit(ids);
      SendAllToBackSpec(objects, init);
      ReverseMembers(init);
      SendToBackAbove(Reverse(init), Without(objects, Elems(init)), last);
      WithoutSnoc(objects, init, last);
      ReverseSnoc(init, last);
    }
  }

  // ---------------------------------------------------------------------------
  // The handlers as transitions

  /** `lineOffset` is -1 only while there are no lines, otherwise it indexes into `lines` or just past it. */
  ghost predicate OffsetOk(lines: seq<Line>, off: int) {
    (off == -1 && lines == []) || 0 <= off <= |lines|
  }

  /** The lines currently drawn: `lines[0..lineOffset)`. */
  function Drawn(lines: seq<Line>, off: int): (r: seq<Line>)
    requires OffsetOk(lines, off)
    ensures |r| == if off < 0 then 0 else off
  {
    if off <= 0 then [] else lines[..off]
  }

  /** The undone lines that `redo` can bring back: `lines[lineOffset..]`. */
  function Redoable(lines: seq<Line>, off: int): (r: seq<Line>)
    requires OffsetOk(lines, off)
    ensures |Drawn(lines, off)| + |r| == |lines|
  {
    if off <= 0 then lines else lines[off..]
  }

  /** `undo` (index.tsx:55-69). */
  function UndoStep(e: Editor): (r: Editor)
    requires OffsetOk(e.lines, e.lineOffset)
    ensures r.lines == e.lines && r.shapes == e.shapes && r.webcam == e.webcam && r.nextId == e.nextId
    ensures r.mounted == e.mounted
  {
    if e.mounted && e.lineOffset > 0 then
      var line := e.lines[e.lineOffset - 1];
      var cursor := if e.lineOffset > 1 then line.start else NoCursor;
      RemoveObjects(e, {line.id}).(previousCursor := cursor, lineOffset := e.lineOffset - 1)
    else e
  }

  /** `redo` (index.tsx:71-81). */
  function RedoStep(e: Editor): (r: Editor)
    ensures r.lines == e.lines && r.shapes == e.shapes && r.webcam == e.webcam && r.nextId == e.nextId
    ensures r.mounted == e.mounted && r.active == e.active
  {
    if e.mounted && e.lineOffset < |e.lines| && e.lineOffset >= 0 then
      var line := e.lines[e.lineOffset];
      AddObject(e, line.id).(previousCursor := line.end, lineOffset := e.lineOffset + 1)
    else e
  }

  /** Whether a mouse-down calls `onDrawingComplete` (index.tsx:266-280). */
  predicate CompletesDrawing(e: Editor, button: int, action: Action, cur: Point) {
    e.mounted && button == 1 && action == DRAW && StopTest(e.previousCursor, cur)
  }

  /**
   * A click with an anchor (index.tsx:282-300): the undone lines are pruned, a
   * stroke from the anchor to `cur` is drawn after the drawn lines, and `cur`
   * becomes the next anchor.
   */
  function DrawLine(e: Editor, cur: Point): (r: Editor)
    ensures OffsetOk(e.lines, e.lineOffset) ==> r.lines == Drawn(e.lines, e.lineOffset) + [Line(e.nextId, e.previousCursor, cur)]
    ensures r.lineOffset == |r.lines| && r.previousCursor == cur
    ensures r.objects == Without(e.objects, Ids(Slice(e.lines, e.lineOffset + 1, |e.lines|))) + [e.nextId]
    ensures r.shapes == e.shapes[e.nextId := Shape(StrokeLine, false, false, false)] && r.nextId == e.nextId + 1
    ensures r.active == Without(e.active, Ids(Slice(e.lines, e.lineOffset + 1, |e.lines|)))
    ensures r.mounted == e.mounted && r.webcam == e.webcam
  {
    var pruned := RemoveObjects(e, Ids(Slice(e.lines, e.lineOffset + 1, |e.lines|)));
    var next := Slice(e.lines, 0, e.lineOffset) + [Line(e.nextId, e.previousCursor, cur)];
    AddNew(pruned, Shape(StrokeLine, false, false, false)).(lines := next, lineOffset := |next|, previousCursor := cur)
  }

  /** The canvas's `onMouseDown` callback (index.tsx:265-311) for a click at `cur`. */
  function ClickStep(e: Editor, button: int, action: Action, cur: Point): (r: Editor)
    ensures r.mounted == e.mounted && r.webcam == e.webcam
  {
    if !e.mounted || button != 1 || action != DRAW || StopTest(e.previousCursor, cur) then e
    else if HasAnchor(e.previousCursor) then DrawLine(e, cur)
    else e.(previousCursor := cur)
  }

  /** The effect on `[canvas, props.action, lines]` (index.tsx:226-252). */
  function CommitStep(e: Editor, action: Action): (r: Editor)
    ensures r.mounted == e.mounted && r.webcam == e.webcam
    ensures e.lines == [] ==> r.objects == e.objects && r.lines == []
  {
    if !e.mounted then e
    else
      var committed :=
        if |e.lines| > 0 && action != DRAW then
          var id := e.nextId;
          var poly := Shape(Polyline(Endpoints(Slice(e.lines, 0, e.lineOffset))), true, true, false);
          var added := AddNew(e, poly).(active := [id]);
          RemoveObjects(added, Ids(e.lines)).(lines := [], lineOffset := -1)
        else e;
      if action != DRAW then committed.(previousCursor := NoCursor) else committed.(active := [])
  }

  /** `deleteObj` (index.tsx:83-93). */
  function DeleteStep(e: Editor): (r: Editor)
    ensures r.lines == e.lines && r.lineOffset == e.lineOffset && r.previousCursor == e.previousCursor
    ensures r.shapes == e.shapes && r.webcam == e.webcam && r.nextId == e.nextId && r.mounted == e.mounted
  {
    if !e.mounted then e
    else if |e.active| > 0 then RemoveObjects(e, Elems(e.active))
    else RemoveObjects(e, Elems(e.objects) - (if e.webcam.Some? then {e.webcam.value} else {}))
  }

  /** The objects `flip` acts on: the selection, or every image when nothing is selected. */
  function FlipTargets(e: Editor): (r: seq<ObjId>)
    ensures |e.active| > 0 ==> r == e.active
    ensures |e.active| == 0 ==> forall id :: id in r <==> id in e.objects && id in e.shapes && e.shapes[id].kind == Image
  {
    if |e.active| > 0 then e.active else ImagesOf(e.objects, e.shapes)
  }

  /** `flip` (index.tsx:137-147). */
  function FlipStep(e: Editor): (r: Editor)
    ensures r.(shapes := e.shapes) == e
  {
    if !e.mounted then e else e.(shapes := ToggleFlips(e.shapes, FlipTargets(e)))
  }

  /** `lock` (index.tsx:48-53). */
  function LockStep(e: Editor): (r: Editor)
    ensures r.(shapes := e.shapes, objects := e.objects, active := e.active) == e
  {
    if !e.mounted then e
    else e.(objects := SendAllToBack(e.objects, e.active), shapes := DisableAll(e.shapes, e.active), active := [])
  }

  /** The canvas is created (index.tsx:151-161) and the commit effect runs for the first time. */
  function MountStep(e: Editor, action: Action): (r: Editor)
    ensures r.mounted
    ensures e.lines == [] ==> r.objects == e.objects && r.lines == []
  {
    if e.mounted then e else CommitStep(e.(mounted := true), action)
  }

  /**
   * The webcam image is ready (index.tsx:179-192): a fresh image that cannot be
   * selected goes on the canvas and becomes the webcam. `moveTo(0)` runs before
   * the image is on the canvas, where it does nothing, so the image ends up on top.
   */
  function AttachWebcamStep(e: Editor): (r: Editor)
    ensures e.mounted ==> r.objects == e.objects + [e.nextId] && r.webcam == Some(e.nextId)
    ensures !e.mounted ==> r == e
  {
    if !e.mounted then e
    else
      AddNew(e, Shape(Image, false, false, false)).(webcam := Some(e.nextId))
  }

  /**
   * The user selects objects with the mouse: fabric makes the selectable
   * objects among `ids` that are on the canvas the active selection.
   */
  function SelectStep(e: Editor, ids: set<ObjId>): (r: Editor)
    ensures forall id :: id in r.active <==> id in e.objects && id in ids && id in e.shapes && e.shapes[id].selectable
    ensures r.(active := e.active) == e
  {
    e.(active := Without(e.objects, Unpicked(e, ids)))
  }

  /** The objects on the canvas a selection of `ids` leaves out. */
  function Unpicked(e: Editor, ids: set<ObjId>): (r: set<ObjId>)
    ensures forall id :: id in r <==> id in e.objects && !(id in ids && id in e.shapes && e.shapes[id].selectable)
  {
    set id | id in e.objects && !(id in ids && id in e.shapes && e.shapes[id].selectable)
  }

  /**
   * A mouse-down as the component sees it: the click handler, then the commit
   * effect, which runs again whenever the click has replaced `lines`.
   */
  function MouseDownStep(e: Editor, button: int, action: Action, cur: Point): (r: Editor)
    ensures r.mounted == e.mounted
  {
    var c := ClickStep(e, button, action, cur);
    if c.lines != e.lines then CommitStep(c, action) else c
  }

  // ---------------------------------------------------------------------------
  // The invariant

  /** What holds of the object list, the selection and the ids at all times. */
  ghost predicate ObjectsOk(e: Editor) {
    && Distinct(e.objects)
    && Distinct(e.active)
    && (forall id :: id in e.active ==> id in e.objects)
    && (forall id :: id in e.objects ==> id in e.shapes)
    && (forall id :: id in e.shapes ==> id < e.nextId)
    && (forall id :: id in e.active ==> id in e.shapes && e.shapes[id].selectable)
    && (e.webcam.Some? ==> WebcamOk(e, e.webcam.value))
  }

  /** The webcam image stays on the canvas and cannot be selected. */
  ghost predicate WebcamOk(e: Editor, w: ObjId) {
    w in e.objects && w in e.shapes && e.shapes[w].kind == Image && !e.shapes[w].selectable
  }

  /** What holds of the stroke history at all times. */
  ghost predicate HistoryOk(lines: seq<Line>, off: int, objects: seq<ObjId>, shapes: map<ObjId, Shape>) {
    && OffsetOk(lines, off)
    && LinesOk(lines, shapes)
    && UndoneOff(lines, off, objects)
    && StrokesDrawn(lines, off, objects, shapes)
  }

  /** Every line of the history is a distinct stroke object. */
  ghost predicate LinesOk(lines: seq<Line>, shapes: map<ObjId, Shape>) {
    DistinctIds(lines) && forall l :: l in lines ==> l.id in shapes && shapes[l.id].kind == StrokeLine
  }

  /** No undone line is on the canvas. */
  ghost predicate UndoneOff(lines: seq<Line>, off: int, objects: seq<ObjId>)
    requires OffsetOk(lines, off)
  {
    forall l :: l in Redoable(lines, off) ==> l.id !in objects
  }

  /** Every stroke on the canvas is a drawn line of the history. */
  ghost predicate StrokesDrawn(lines: seq<Line>, off: int, objects: seq<ObjId>, shapes: map<ObjId, Shape>)
    requires OffsetOk(lines, off)
  {
    forall id :: id in objects && id in shapes && shapes[id].kind == StrokeLine ==> id in Ids(Drawn(lines, off))
  }

  ghost predicate Inv(e: Editor) {
    ObjectsOk(e) && HistoryOk(e.lines, e.lineOffset, e.objects, e.shapes)
  }

  /** Every drawn line is on the canvas; `deleteObj` is the one handler that can break this. */
  ghost predicate Synced(lines: seq<Line>, off: int, objects: seq<ObjId>)
    requires OffsetOk(lines, off)
  {
    forall l :: l in Drawn(lines, off) ==> l.id in objects
  }

  /** `Synced` of the editor's own fields. */
  ghost predicate InSync(e: Editor)
    requires OffsetOk(e.lines, e.lineOffset)
  {
    Synced(e.lines, e.lineOffset, e.objects)
  }

  // ---------------------------------------------------------------------------
  // Every handler keeps the invariant

  lemma RemovePreservesObjectsOk(e: Editor, d: set<ObjId>)
    requires ObjectsOk(e)
    requires e.webcam.Some? ==> e.webcam.value !in d
    ensures ObjectsOk(RemoveObjects(e, d))
  {
    WithoutDistinct(e.objects, d);
    WithoutDistinct(e.active, d);
  }

  lemma AddNewPreservesObjectsOk(e: Editor, shape: Shape)
    requires ObjectsOk(e)
    ensures ObjectsOk(AddNew(e, shape))
  {
    var r := AddNew(e, shape);
    assert e.nextId !in e.objects;
    assert Distinct(r.objects) by {
      forall i, j | 0 <= i < j < |r.objects| ensures r.objects[i] != r.objects[j] {
        if j == |e.objects| {
          assert r.objects[i] in e.objects;
        } else {
          assert r.objects[i] == e.objects[i] && r.objects[j] == e.objects[j];
        }
      }
    }
  }

  /** Moving the offset back by one moves the last drawn line to the front of the undone ones. */
  lemma OffsetBack(lines: seq<Line>, off: int)
    requires 0 < off <= |lines|
    ensures Drawn(lines, off) == Drawn(lines, off - 1) + [lines[off - 1]]
    ensures Redoable(lines, off - 1) == [lines[off - 1]] + Redoable(lines, off)
  {
    assert lines[..off] == lines[..off - 1] + [lines[off - 1]];
    assert lines[off - 1..] == [lines[off - 1]] + lines[off..];
  }

  lemma UndoKeepsUndoneOff(lines: seq<Line>, off: int, objects: seq<ObjId>)
    requires 0 < off <= |lines| && UndoneOff(lines, off, objects)
    ensures UndoneOff(lines, off - 1, Without(objects, {lines[off - 1].id}))
  {
    OffsetBack(lines, off);
  }

  lemma UndoKeepsStrokesDrawn(lines: seq<Line>, off: int, objects: seq<ObjId>, shapes: map<ObjId, Shape>)
    requires 0 < off <= |lines| && StrokesDrawn(lines, off, objects, shapes)
    ensures StrokesDrawn(lines, off - 1, Without(objects, {lines[off - 1].id}), shapes)
  {
    var line := lines[off - 1];
    OffsetBack(lines, off);
    forall id | id in Without(objects, {line.id}) && id in shapes && shapes[id].kind == StrokeLine
      ensures id in Ids(Drawn(lines, off - 1))
    {
      assert id in Ids(Drawn(lines, off)) && id != line.id;
      var l :| l in Drawn(lines, off) && l.id == id;
    }
  }

  lemma UndoKeepsSynced(lines: seq<Line>, off: int, objects: seq<ObjId>)
    requires 0 < off <= |lines| && DistinctIds(lines) && Synced(lines, off, objects)
    ensures Synced(lines, off - 1, Without(objects, {lines[off - 1].id}))
  {
    forall l | l in Drawn(lines, off - 1) ensures l.id in Without(objects, {lines[off - 1].id}) {
      var k :| 0 <= k < off - 1 && Drawn(lines, off - 1)[k] == l;
      assert l == lines[k] && l in Drawn(lines, off);
    }
  }

  lemma UndoPreservesInv(e: Editor)
    requires Inv(e)
    ensures Inv(UndoStep(e))
  {
    if e.mounted && e.lineOffset > 0 {
      var r := UndoStep(e);
      var d := {e.lines[e.lineOffset - 1].id};
      assert ObjectsOk(r) by {
        assert e.lines[e.lineOffset - 1] in e.lines;
        RemovePreservesObjectsOk(e, d);
        ObjectsOkOfFields(RemoveObjects(e, d), r);
      }
      assert HistoryOk(r.lines, r.lineOffset, r.objects, r.shapes) by {
        UndoKeepsUndoneOff(e.lines, e.lineOffset, e.objects);
        UndoKeepsStrokesDrawn(e.lines, e.lineOffset, e.objects, e.shapes);
      }
    }
  }

  lemma UndoKeepsSync(e: Editor)
    requires Inv(e) && InSync(e)
    ensures Inv(UndoStep(e)) && InSync(UndoStep(e))
  {
    UndoPreservesInv(e);
    if e.mounted && e.lineOffset > 0 {
      UndoKeepsSynced(e.lines, e.lineOffset, e.objects);
    }
  }

  lemma AddPreservesObjectsOk(e: Editor, id: ObjId)
    requires ObjectsOk(e) && id !in e.objects && id in e.shapes
    ensures ObjectsOk(AddObject(e, id))
  {
    var r := AddObject(e, id);
    assert Distinct(r.objects) by {
      forall i, j | 0 <= i < j < |r.objects| ensures r.objects[i] != r.objects[j] {
        if j == |e.objects| {
          assert r.objects[i] in e.objects;
        } else {
          assert r.objects[i] == e.objects[i] && r.objects[j] == e.objects[j];
        }
      }
    }
  }

  lemma RedoKeepsUndoneOff(lines: seq<Line>, off: int, objects: seq<ObjId>)
    requires 0 <= off < |lines| && DistinctIds(lines) && UndoneOff(lines, off, objects)
    ensures UndoneOff(lines, off + 1, objects + [lines[off].id])
  {
    OffsetBack(lines, off + 1);
    forall l | l in lines[off + 1..] ensures l.id !in objects + [lines[off].id] {
      assert l in Redoable(lines, off);
      var k :| off + 1 <= k < |lines| && lines[k] == l;
    }
  }

  lemma RedoKeepsStrokesDrawn(lines: seq<Line>, off: int, objects: seq<ObjId>, shapes: map<ObjId, Shape>)
    requires 0 <= off < |lines| && StrokesDrawn(lines, off, objects, shapes)
    ensures StrokesDrawn(lines, off + 1, objects + [lines[off].id], shapes)
  {
    OffsetBack(lines, off + 1);
    forall id | id in objects + [lines[off].id] && id in shapes && shapes[id].kind == StrokeLine
      ensures id in Ids(Drawn(lines, off + 1))
    {
      if id in objects {
        var l :| l in Drawn(lines, off) && l.id == id;
        assert l in Drawn(lines, off + 1);
      } else {
        assert lines[off] in Drawn(lines, off + 1);
      }
    }
  }

  lemma RedoKeepsSynced(lines: seq<Line>, off: int, objects: seq<ObjId>)
    requires 0 <= off < |lines| && Synced(lines, off, objects)
    ensures Synced(lines, off + 1, objects + [lines[off].id])
  {
    OffsetBack(lines, off + 1);
  }

  lemma RedoPreservesInv(e: Editor)
    requires Inv(e)
    ensures Inv(RedoStep(e))
  {
    if e.mounted && 0 <= e.lineOffset < |e.lines| {
      var r := RedoStep(e);
      var line := e.lines[e.lineOffset];
      assert line in e.lines && line in Redoable(e.lines, e.lineOffset);
      assert ObjectsOk(r) by {
        AddPreservesObjectsOk(e, line.id);
        ObjectsOkOfFields(AddObject(e, line.id), r);
      }
      assert HistoryOk(r.lines, r.lineOffset, r.objects, r.shapes) by {
        RedoKeepsUndoneOff(e.lines, e.lineOffset, e.objects);
        RedoKeepsStrokesDrawn(e.lines, e.lineOffset, e.objects, e.shapes);
      }
    }
  }

  lemma RedoKeepsSync(e: Editor)
    requires Inv(e) && InSync(e)
    ensures Inv(RedoStep(e)) && InSync(RedoStep(e))
  {
    RedoPreservesInv(e);
    if e.mounted && 0 <= e.lineOffset < |e.lines| {
      RedoKeepsSynced(e.lines, e.lineOffset, e.objects);
    }
  }

  /** `lines.slice(0, lineOffset)` is the drawn part of the history. */
  lemma SliceIsDrawn(lines: seq<Line>, off: int)
    requires OffsetOk(lines, off)
    ensures Slice(lines, 0, off) == Drawn(lines, off)
  {
  }

  /** The lines a click prunes, `lines.slice(lineOffset + 1)`, are all undone ones. */
  lemma PrunedAreUndone(lines: seq<Line>, off: int)
    requires OffsetOk(lines, off)
    ensures forall l :: l in Slice(lines, off + 1, |lines|) ==> l in Redoable(lines, off)
  {
  }

  lemma ClickKeepsLinesOk(lines: seq<Line>, off: int, shapes: map<ObjId, Shape>, l: Line)
    requires OffsetOk(lines, off) && LinesOk(lines, shapes) && l.id !in shapes
    ensures LinesOk(Drawn(lines, off) + [l], shapes[l.id := Shape(StrokeLine, false, false, false)])
  {
    var next := Drawn(lines, off) + [l];
    forall i, j | 0 <= i < j < |next| ensures next[i].id != next[j].id {
      assert next[i] == lines[i];
      if j < |next| - 1 {
        assert next[j] == lines[j];
      } else {
        assert lines[i] in lines;
      }
    }
    forall k | 0 <= k < |next| - 1 ensures next[k] in lines {
      assert next[k] == lines[k];
    }
  }

  lemma ClickKeepsStrokesDrawn(lines: seq<Line>, off: int, objects: seq<ObjId>, shapes: map<ObjId, Shape>, d: set<ObjId>, l: Line)
    requires OffsetOk(lines, off) && StrokesDrawn(lines, off, objects, shapes)
    ensures var next := Drawn(lines, off) + [l];
      StrokesDrawn(next, |next|, Without(objects, d) + [l.id], shapes[l.id := Shape(StrokeLine, false, false, false)])
  {
    var next := Drawn(lines, off) + [l];
    assert Drawn(next, |next|) == next;
    forall id | id in Without(objects, d) + [l.id] && id in shapes[l.id := Shape(StrokeLine, false, false, false)]
      && shapes[l.id := Shape(StrokeLine, false, false, false)][id].kind == StrokeLine
      ensures id in Ids(next)
    {
      if id == l.id {
        assert l in next;
      } else {
        var m :| m in Drawn(lines, off) && m.id == id;
        assert m in next;
      }
    }
  }

  lemma ClickKeepsSynced(lines: seq<Line>, off: int, objects: seq<ObjId>, l: Line)
    requires OffsetOk(lines, off) && DistinctIds(lines) && Synced(lines, off, objects)
    ensures var next := Drawn(lines, off) + [l];
      Synced(next, |next|, Without(objects, Ids(Slice(lines, off + 1, |lines|))) + [l.id])
  {
    var next := Drawn(lines, off) + [l];
    var d := Ids(Slice(lines, off + 1, |lines|));
    assert Drawn(next, |next|) == next;
    forall k | 0 <= k < |next| - 1 ensures next[k].id !in d {
      assert next[k] == lines[k];
    }
    forall m | m in next ensures m.id in Without(objects, d) + [l.id] {
      var k :| 0 <= k < |next| && next[k] == m;
    }
  }

  /** The webcam is an image, so no line of the history is the webcam. */
  lemma WebcamIsNoLine(e: Editor, ls: seq<Line>)
    requires ObjectsOk(e) && LinesOk(e.lines, e.shapes)
    requires forall l :: l in ls ==> l in e.lines
    ensures e.webcam.Some? ==> e.webcam.value !in Ids(ls)
  {
  }

  lemma RemoveAddKeepsObjectsOk(e: Editor, d: set<ObjId>, shape: Shape)
    requires ObjectsOk(e)
    requires e.webcam.Some? ==> e.webcam.value !in d
    ensures ObjectsOk(AddNew(RemoveObjects(e, d), shape))
  {
    RemovePreservesObjectsOk(e, d);
    AddNewPreservesObjectsOk(RemoveObjects(e, d), shape);
  }

  /** `ObjectsOk` reads only the canvas fields, not the stroke history. */
  lemma ObjectsOkOfFields(a: Editor, b: Editor)
    requires ObjectsOk(a)
    requires a.objects == b.objects && a.active == b.active && a.shapes == b.shapes && a.nextId == b.nextId && a.webcam == b.webcam
    ensures ObjectsOk(b)
  {
  }

  lemma DrawLineKeepsObjectsOk(e: Editor, cur: Point)
    requires ObjectsOk(e) && OffsetOk(e.lines, e.lineOffset) && LinesOk(e.lines, e.shapes)
    ensures ObjectsOk(DrawLine(e, cur))
  {
    var pruned := Slice(e.lines, e.lineOffset + 1, |e.lines|);
    var a := AddNew(RemoveObjects(e, Ids(pruned)), Shape(StrokeLine, false, false, false));
    var r := DrawLine(e, cur);
    WebcamIsNoLine(e, pruned);
    RemoveAddKeepsObjectsOk(e, Ids(pruned), Shape(StrokeLine, false, false, false));
    assert a.objects == r.objects && a.active == r.active && a.shapes == r.shapes;
    ObjectsOkOfFields(a, r);
  }

  lemma DrawLinePreservesInv(e: Editor, cur: Point)
    requires Inv(e)
    ensures Inv(DrawLine(e, cur))
  {
    var l := Line(e.nextId, e.previousCursor, cur);
    var next := Drawn(e.lines, e.lineOffset) + [l];
    var r := DrawLine(e, cur);
    DrawLineKeepsObjectsOk(e, cur);
    assert HistoryOk(r.lines, r.lineOffset, r.objects, r.shapes) by {
      assert e.nextId !in e.shapes;
      ClickKeepsLinesOk(e.lines, e.lineOffset, e.shapes, l);
      ClickKeepsStrokesDrawn(e.lines, e.lineOffset, e.objects, e.shapes, Ids(Slice(e.lines, e.lineOffset + 1, |e.lines|)), l);
      assert Redoable(next, |next|) == [];
    }
  }

  lemma DrawLineKeepsSync(e: Editor, cur: Point)
    requires Inv(e) && InSync(e)
    ensures Inv(DrawLine(e, cur)) && InSync(DrawLine(e, cur))
  {
    DrawLinePreservesInv(e, cur);
    ClickKeepsSynced(e.lines, e.lineOffset, e.objects, Line(e.nextId, e.previousCursor, cur));
  }

  lemma ClickPreservesInv(e: Editor, button: int, action: Action, cur: Point)
    requires Inv(e)
    ensures Inv(ClickStep(e, button, action, cur))
    ensures InSync(e) ==> InSync(ClickStep(e, button, action, cur))
  {
    if e.mounted && button == 1 && action == DRAW && !StopTest(e.previousCursor, cur) && HasAnchor(e.previousCursor) {
      DrawLinePreservesInv(e, cur);
      if InSync(e) {
        DrawLineKeepsSync(e, cur);
      }
    }
  }

  /** Once every line is removed, no stroke is left on the canvas (index.tsx:246-248). */
  lemma CommitKeepsHistory(lines: seq<Line>, off: int, objects: seq<ObjId>, shapes: map<ObjId, Shape>, id: ObjId, shape: Shape)
    requires HistoryOk(lines, off, objects, shapes) && id !in shapes && shape.kind != StrokeLine
    ensures HistoryOk([], -1, Without(objects + [id], Ids(lines)), shapes[id := shape])
  {
    forall x | x in Without(objects + [id], Ids(lines)) && x in shapes[id := shape] && shapes[id := shape][x].kind == StrokeLine
      ensures false
    {
    }
  }

  lemma CommitPreservesInv(e: Editor, action: Action)
    requires Inv(e)
    ensures Inv(CommitStep(e, action))
    ensures InSync(e) ==> InSync(CommitStep(e, action))
  {
    if e.mounted && |e.lines| > 0 && action != DRAW {
      var id := e.nextId;
      var poly := Shape(Polyline(Endpoints(Slice(e.lines, 0, e.lineOffset))), true, true, false);
      var added := AddNew(e, poly).(active := [id]);
      var d := Ids(e.lines);
      AddNewPreservesObjectsOk(e, poly);
      assert ObjectsOk(added);
      assert id !in d;
      WebcamIsNoLine(e, e.lines);
      RemovePreservesObjectsOk(added, d);
      CommitKeepsHistory(e.lines, e.lineOffset, e.objects, e.shapes, id, poly);
      assert CommitStep(e, action) == RemoveObjects(added, d).(lines := [], lineOffset := -1, previousCursor := NoCursor);
    }
  }

  lemma DeletePreservesInv(e: Editor)
    requires Inv(e)
    ensures Inv(DeleteStep(e))
  {
    if e.mounted {
      var d := if |e.active| > 0 then Elems(e.active) else Elems(e.objects) - (if e.webcam.Some? then {e.webcam.value} else {});
      RemovePreservesObjectsOk(e, d);
    }
  }

  lemma FlipPreservesInv(e: Editor)
    requires Inv(e)
    ensures Inv(FlipStep(e))
    ensures InSync(e) ==> InSync(FlipStep(e))
  {
  }

  lemma LockPreservesInv(e: Editor)
    requires Inv(e)
    ensures Inv(LockStep(e))
    ensures InSync(e) ==> InSync(LockStep(e))
  {
  }

  /** A new object that is not a stroke leaves the stroke history as it was. */
  lemma AddOtherKeepsHistory(lines: seq<Line>, off: int, objects: seq<ObjId>, shapes: map<ObjId, Shape>, id: ObjId, shape: Shape)
    requires HistoryOk(lines, off, objects, shapes) && id !in shapes && shape.kind != StrokeLine
    ensures HistoryOk(lines, off, objects + [id], shapes[id := shape])
    ensures Synced(lines, off, objects) ==> Synced(lines, off, objects + [id])
  {
  }

  lemma AttachWebcamPreservesInv(e: Editor)
    requires Inv(e)
    ensures Inv(AttachWebcamStep(e))
    ensures InSync(e) ==> InSync(AttachWebcamStep(e))
  {
    if e.mounted {
      var img := Shape(Image, false, false, false);
      AddNewPreservesObjectsOk(e, img);
      AddOtherKeepsHistory(e.lines, e.lineOffset, e.objects, e.shapes, e.nextId, img);
    }
  }

  lemma SelectPreservesInv(e: Editor, ids: set<ObjId>)
    requires Inv(e)
    ensures Inv(SelectStep(e, ids))
    ensures InSync(e) ==> InSync(SelectStep(e, ids))
  {
    WithoutDistinct(e.objects, Unpicked(e, ids));
  }

  lemma MountPreservesInv(e: Editor, action: Action)
    requires Inv(e)
    ensures Inv(MountStep(e, action))
    ensures InSync(e) ==> InSync(MountStep(e, action))
  {
    if !e.mounted {
      CommitPreservesInv(e.(mounted := true), action);
    }
  }

  lemma MouseDownPreservesInv(e: Editor, button: int, action: Action, cur: Point)
    requires Inv(e)
    ensures Inv(MouseDownStep(e, button, action, cur))
    ensures InSync(e) ==> InSync(MouseDownStep(e, button, action, cur))
  {
    var c := ClickStep(e, button, action, cur);
    ClickPreservesInv(e, button, action, cur);
    CommitPreservesInv(c, action);
  }

  // ---------------------------------------------------------------------------
  // What the handlers do

  /** Undoing a redo gives back the state; only the anchor moves to the start of the line. */
  lemma RedoThenUndo(e: Editor)
    requires Inv(e) && e.mounted && 0 <= e.lineOffset < |e.lines|
    ensures UndoStep(RedoStep(e)) == e.(previousCursor := if e.lineOffset > 0 then e.lines[e.lineOffset].start else NoCursor)
  {
    var line := e.lines[e.lineOffset];
    assert line in Redoable(e.lines, e.lineOffset);
    WithoutAppend(e.objects, [line.id], {line.id});
    assert Without([line.id], {line.id}) == [];
    WithoutNothing(e.objects, {line.id});
    WithoutNothing(e.active, {line.id});
  }

  /**
   * Redoing an undo brings the line back on the canvas and the offset back to
   * where it was; the anchor becomes the end of that line. The line returns on
   * top of the stack, so the order of the objects may differ.
   */
  lemma UndoThenRedo(e: Editor)
    requires Inv(e) && InSync(e) && e.mounted && 0 < e.lineOffset
    ensures var r := RedoStep(UndoStep(e));
      && r.lines == e.lines && r.lineOffset == e.lineOffset && r.shapes == e.shapes
      && r.previousCursor == e.lines[e.lineOffset - 1].end
      && (forall id :: id in r.objects <==> id in e.objects)
      && (forall id :: id in r.active <==> id in e.active && id != e.lines[e.lineOffset - 1].id)
  {
    var line := e.lines[e.lineOffset - 1];
    assert line in Drawn(e.lines, e.lineOffset);
    var u := UndoStep(e);
    assert u.lineOffset == e.lineOffset - 1 && u.objects == Without(e.objects, {line.id}) && u.active == Without(e.active, {line.id});
    var r := RedoStep(u);
    assert r.objects == u.objects + [line.id] && r.active == u.active && r.lineOffset == e.lineOffset;
  }

  /** A stroke drawn after an undo discards the undone lines: there is nothing left to redo. */
  lemma DrawLineDiscardsRedo(e: Editor, cur: Point)
    requires OffsetOk(e.lines, e.lineOffset)
    ensures var r := DrawLine(e, cur);
      && |r.lines| == |Drawn(e.lines, e.lineOffset)| + 1
      && r.lines[|r.lines| - 1] == Line(e.nextId, e.previousCursor, cur)
      && Redoable(r.lines, r.lineOffset) == []
      && RedoStep(r) == r
  {
  }

  /**
   * The click as fabric delivers it when its `mouse:down` listener was attached
   * at an earlier render `seen`: the listener is re-attached only when the
   * canvas, the held button or the action change (MouseHandler.tsx:87-103), so
   * the callback reads `lines`, `lineOffset` and `previousCursor` of that render,
   * while the fabric canvas it adds to and removes from is the live one.
   */
  function StaleClickStep(seen: Editor, e: Editor, button: int, action: Action, cur: Point): (r: Editor)
    ensures seen.lines == e.lines && seen.lineOffset == e.lineOffset && seen.previousCursor == e.previousCursor ==>
      r == ClickStep(e, button, action, cur)
    ensures r.mounted == e.mounted && r.webcam == e.webcam
  {
    ClickStep(e.(lines := seen.lines, lineOffset := seen.lineOffset, previousCursor := seen.previousCursor), button, action, cur)
  }

  /**
   * As written: a drawing click after a keyboard or toolbar `undo`, with no
   * mouse event in between, still sees the history from before the undo. The
   * undone line counts as drawn again although it is no longer on the canvas,
   * and the new stroke starts at the old anchor.
   */
  lemma StaleClickAfterUndo(e: Editor)
    requires Inv(e) && e.mounted && e.lineOffset > 0 && HasAnchor(e.previousCursor)
    ensures var cur := Point(e.previousCursor.x, e.previousCursor.y + 0.3);
      var s := StaleClickStep(e, UndoStep(e), 1, DRAW, cur);
      && s.lines == Drawn(e.lines, e.lineOffset) + [Line(e.nextId, e.previousCursor, cur)]
      && s.lineOffset == e.lineOffset + 1
      && e.lines[e.lineOffset - 1] in Drawn(s.lines, s.lineOffset)
      && e.lines[e.lineOffset - 1].id !in s.objects
      && !InSync(s)
  {
    var cur := Point(e.previousCursor.x, e.previousCursor.y + 0.3);
    ClosePointContinues(e.previousCursor);
    var line := e.lines[e.lineOffset - 1];
    var u := UndoStep(e);
    assert line.id !in u.objects;
    var s := StaleClickStep(e, u, 1, DRAW, cur);
    assert s.lines == Drawn(e.lines, e.lineOffset) + [Line(e.nextId, e.previousCursor, cur)];
    assert s.lines[e.lineOffset - 1] == line;
    assert line in Drawn(s.lines, s.lineOffset);
  }

  /**
   * As intended: a click that reads the current state continues the stroke from
   * the start of the undone line, drops that line from the history and keeps
   * every drawn line on the canvas.
   */
  lemma ClickAfterUndoKeepsSync(e: Editor, u: Editor)
    requires Inv(e) && InSync(e) && e.mounted && e.lineOffset > 1 && HasAnchor(e.lines[e.lineOffset - 1].start)
    requires u == UndoStep(e)
    ensures u.previousCursor == e.lines[e.lineOffset - 1].start && Drawn(u.lines, u.lineOffset) == Drawn(e.lines, e.lineOffset - 1)
    ensures var cur := Point(u.previousCursor.x, u.previousCursor.y + 0.3);
      var s := ClickStep(u, 1, DRAW, cur);
      && s.lines == Drawn(u.lines, u.lineOffset) + [Line(e.nextId, u.previousCursor, cur)]
      && Inv(s) && InSync(s)
  {
    assert Inv(u) && InSync(u) && u.mounted && u.lines == e.lines && u.nextId == e.nextId
      && u.previousCursor == e.lines[e.lineOffset - 1].start && u.lineOffset == e.lineOffset - 1 by {
      UndoKeepsSync(e);
      UndoMovesAnchorBack(e);
    }
    ClickContinuesStroke(u);
  }

  /** After an `undo` with more than one drawn line, the anchor is the start of the undone line. */
  lemma UndoMovesAnchorBack(e: Editor)
    requires OffsetOk(e.lines, e.lineOffset) && e.mounted && e.lineOffset > 1
    ensures UndoStep(e).previousCursor == e.lines[e.lineOffset - 1].start
    ensures UndoStep(e).lineOffset == e.lineOffset - 1
  {
  }

  /** A left click in DRAW mode just below the anchor draws a stroke from it and keeps the drawn lines on the canvas. */
  lemma ClickContinuesStroke(u: Editor)
    requires Inv(u) && InSync(u) && u.mounted && HasAnchor(u.previousCursor)
    ensures var cur := Point(u.previousCursor.x, u.previousCursor.y + 0.3);
      var s := ClickStep(u, 1, DRAW, cur);
      && s.lines == Drawn(u.lines, u.lineOffset) + [Line(u.nextId, u.previousCursor, cur)]
      && Inv(s) && InSync(s)
  {
    var cur := Point(u.previousCursor.x, u.previousCursor.y + 0.3);
    ClosePointContinues(u.previousCursor);
    ClickPreservesInv(u, 1, DRAW, cur);
  }

  /** A click that completes the drawing changes nothing; the component calls `onDrawingComplete` instead. */
  lemma CompletingClickChangesNothing(e: Editor, button: int, action: Action, cur: Point)
    requires CompletesDrawing(e, button, action, cur)
    ensures ClickStep(e, button, action, cur) == e
  {
  }

  /** Two clicks at the same point: the second one completes the drawing. */
  lemma DoubleClickCompletes(e: Editor, cur: Point)
    requires e.mounted
    ensures CompletesDrawing(ClickStep(e, 1, DRAW, cur), 1, DRAW, cur)
  {
    if !StopTest(e.previousCursor, cur) {
      SamePointStops(cur);
    }
  }

  /**
   * Leaving DRAW mode with lines turns the drawn lines into one selected
   * polyline through their endpoints and removes every line from the canvas.
   */
  lemma CommitMakesPolyline(e: Editor, action: Action)
    requires Inv(e) && e.mounted && |e.lines| > 0 && action != DRAW
    ensures var r := CommitStep(e, action);
      && r.lines == [] && r.lineOffset == -1 && r.previousCursor == NoCursor
      && r.objects == Without(e.objects, Ids(e.lines)) + [e.nextId]
      && r.active == [e.nextId]
      && e.nextId in r.shapes && r.shapes[e.nextId].kind == Polyline(Endpoints(Drawn(e.lines, e.lineOffset)))
      && |r.shapes[e.nextId].kind.points| == 2 * e.lineOffset
  {
    var id := e.nextId;
    var d := Ids(e.lines);
    var poly := Shape(Polyline(Endpoints(Slice(e.lines, 0, e.lineOffset))), true, true, false);
    var r := CommitStep(e, action);
    assert r.objects == Without(e.objects + [id], d) && r.active == Without([id], d) && r.shapes == e.shapes[id := poly];
    SliceIsDrawn(e.lines, e.lineOffset);
    assert id !in d;
    WithoutAppend(e.objects, [id], d);
    assert Without([id], d) == [id];
  }

  /** After leaving DRAW mode no stroke is left on the canvas. */
  lemma CommitLeavesNoStrokes(e: Editor, action: Action)
    requires Inv(e) && e.mounted && action != DRAW
    ensures var r := CommitStep(e, action);
      forall id :: id in r.objects ==> id in r.shapes && r.shapes[id].kind != StrokeLine
  {
    CommitPreservesInv(e, action);
    var r := CommitStep(e, action);
    assert r.lines == [] && Drawn(r.lines, r.lineOffset) == [];
  }

  /** Running the commit effect again changes nothing. */
  lemma CommitIdempotent(e: Editor, action: Action)
    ensures CommitStep(CommitStep(e, action), action) == CommitStep(e, action)
  {
  }

  /**
   * `deleteObj` removes exactly the selected objects, or, when nothing is
   * selected, everything but the webcam; the webcam stays in both cases.
   */
  lemma DeleteRemovesExactly(e: Editor)
    requires Inv(e) && e.mounted
    ensures var r := DeleteStep(e);
      && (|e.active| > 0 ==> forall id :: id in r.objects <==> id in e.objects && id !in e.active)
      && (|e.active| == 0 ==> forall id :: id in r.objects <==> e.webcam == Some(id))
      && (e.webcam.Some? ==> e.webcam.value in r.objects)
      && r.active == []
  {
    if |e.active| > 0 {
      WithoutEverything(e.active, Elems(e.active));
    }
  }

  /** Which objects are images depends only on the kinds. */
  lemma ImagesOfSameKinds(objects: seq<ObjId>, a: map<ObjId, Shape>, b: map<ObjId, Shape>)
    requires a.Keys == b.Keys && forall x :: x in a ==> a[x].kind == b[x].kind
    ensures ImagesOf(objects, a) == ImagesOf(objects, b)
  {
    assert NonImages(objects, a) == NonImages(objects, b);
  }

  /** Flipping changes no kind, so a second flip acts on the same objects. */
  lemma FlipKeepsTargets(e: Editor)
    ensures FlipTargets(FlipStep(e)) == FlipTargets(e)
  {
    if e.mounted {
      ImagesOfSameKinds(e.objects, e.shapes, ToggleFlips(e.shapes, FlipTargets(e)));
    }
  }

  /** Flipping the same distinct objects twice restores every shape. */
  lemma ToggleFlipsTwice(shapes: map<ObjId, Shape>, ids: seq<ObjId>)
    requires Distinct(ids)
    ensures ToggleFlips(ToggleFlips(shapes, ids), ids) == shapes
  {
    var g := ToggleFlips(shapes, ids);
    ToggleFlipsSpec(shapes, ids);
    ToggleFlipsSpec(g, ids);
    forall x | x in shapes ensures ToggleFlips(g, ids)[x] == shapes[x] {
    }
  }

  /** Flipping twice flips every object back. */
  lemma FlipTwice(e: Editor)
    requires Inv(e)
    ensures FlipStep(FlipStep(e)) == e
  {
    if e.mounted {
      FlipKeepsTargets(e);
      WithoutDistinct(e.objects, NonImages(e.objects, e.shapes));
      ToggleFlipsTwice(e.shapes, FlipTargets(e));
    }
  }

  /**
   * `lock` moves the selected objects to the bottom of the stack (the last one
   * selected lowest), makes them unselectable and clears the selection.
   */
  lemma LockSpec(e: Editor)
    requires Inv(e) && e.mounted
    ensures var r := LockStep(e);
      && r.objects == Reverse(e.active) + Without(e.objects, Elems(e.active))
      && (forall id :: id in r.objects <==> id in e.objects)
      && (forall id :: id in e.active ==> !r.shapes[id].selectable && !r.shapes[id].evented)
      && (forall id :: id in e.shapes && id !in e.active ==> r.shapes[id] == e.shapes[id])
      && r.active == []
  {
    SendAllToBackSpec(e.objects, e.active);
    DisableAllSpec(e.shapes, e.active);
  }

  /** With nothing selected, `lock` changes nothing. */
  lemma LockWithoutSelection(e: Editor)
    requires e.active == []
    ensures LockStep(e) == e
  {
  }
}
