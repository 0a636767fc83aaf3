/**
 * The Canvas component of components/Canvas/index.tsx as an object. Its React
 * state (`lines`, `lineOffset`, `previousCursor`, `webcam`) and the fabric
 * canvas it owns (the object list, the shapes, the selection) are fields, and
 * every handler updates them in place. Each method performs the transition of
 * the same name in module `Canvas` and keeps its invariant.
 */
module CanvasComponent {

  import opened Optional
  import opened Utils
  import opened Seqs
  import opened Cursor
  import opened Canvas

  class Component {
    var mounted: bool
    var lines: seq<Line>
    var lineOffset: int
    var previousCursor: Point
    var objects: seq<ObjId>
    var shapes: map<ObjId, Shape>
    var active: seq<ObjId>
    var webcam: Option<ObjId>
    var nextId: nat

    function State(): Editor
      reads this
    {
      Editor(mounted, lines, lineOffset, previousCursor, objects, shapes, active, webcam, nextId)
    }

    ghost predicate Valid()
      reads this
    {
      Inv(State())
    }

    /** The first render: no canvas yet, no lines, `lineOffset` -1 and no anchor (index.tsx:29-33). */
    constructor()
      ensures State() == Initial() && Valid() && InSync(State())
    {
      mounted := false;
      lines := [];
      lineOffset := -1;
      previousCursor := NoCursor;
      objects := [];
      shapes := map[];
      active := [];
      webcam := None;
      nextId := 0;
    }

    // -------------------------------------------------------------------------
    // The fabric canvas calls and React state setters the handlers are made of

    /** `canvas.add(new fabric.X(...))`: the new object gets the next id. */
    method Add(shape: Shape) returns (id: ObjId)
      modifies this
      ensures id == old(nextId) && State() == AddNew(old(State()), shape)
    {
      id := nextId;
      objects, shapes, nextId := objects + [id], shapes[id := shape], nextId + 1;
    }

    /** `canvas.add(line)` for a line object that already exists. */
    method AddBack(id: ObjId)
      modifies this
      ensures State() == AddObject(old(State()), id)
    {
      objects := objects + [id];
    }

    /** `canvas.remove(...)`. */
    method Remove(d: set<ObjId>)
      modifies this
      ensures State() == RemoveObjects(old(State()), d)
    {
      objects, active := Without(objects, d), Without(active, d);
    }

    /** `canvas.setActiveObject(...)`, `canvas.discardActiveObject()`. */
    method SetActive(sel: seq<ObjId>)
      modifies this
      ensures State() == old(State()).(active := sel)
    {
      active := sel;
    }

    /** `obj.flipX = !obj.flipX`. */
    method FlipObject(id: ObjId)
      modifies this
      ensures State() == old(State()).(shapes := ToggleFlip(old(shapes), id))
    {
      if id in shapes {
        shapes := shapes[id := shapes[id].(flipX := !shapes[id].flipX)];
      }
    }

    /** `obj.selectable = false; obj.evented = false`. */
    method DisableObject(id: ObjId)
      modifies this
      ensures State() == old(State()).(shapes := Disable(old(shapes), id))
    {
      if id in shapes {
        shapes := shapes[id := shapes[id].(selectable := false, evented := false)];
      }
    }

    /** `obj.moveTo(0)`. */
    method MoveToBottom(id: ObjId)
      modifies this
      ensures State() == old(State()).(objects := SendToBack(old(objects), id))
    {
      if id in objects {
        objects := [id] + Without(objects, {id});
      }
    }

    method SetLines(ls: seq<Line>)
      modifies this
      ensures State() == old(State()).(lines := ls)
    {
      lines := ls;
    }

    method SetLineOffset(off: int)
      modifies this
      ensures State() == old(State()).(lineOffset := off)
    {
      lineOffset := off;
    }

    method SetPreviousCursor(p: Point)
      modifies this
      ensures State() == old(State()).(previousCursor := p)
    {
      previousCursor := p;
    }

    method SetWebcam(id: ObjId)
      modifies this
      ensures State() == old(State()).(webcam := Some(id))
    {
      webcam := Some(id);
    }

    // -------------------------------------------------------------------------
    // The handlers

    /** The canvas is created (index.tsx:151-161); the commit effect then runs with the current action. */
    method Mount(action: Action)
      requires Valid()
      modifies this
      ensures State() == MountStep(old(State()), action) && Valid()
      ensures InSync(old(State())) ==> InSync(State())
    {
      if !mounted {
        mounted := true;
        Commit(action);
      }
    }

    /** The effect on `[canvas, props.action, lines]` (index.tsx:226-252). */
    method Commit(action: Action)
      requires Valid()
      modifies this
      ensures State() == CommitStep(old(State()), action) && Valid()
      ensures InSync(old(State())) ==> InSync(State())
    {
      ghost var e := State();
      if mounted {
        if |lines| > 0 && action != DRAW {
          var id := Add(Shape(Polyline(Endpoints(Slice(lines, 0, lineOffset))), true, true, false));
          SetActive([id]);
          Remove(Ids(lines));
          SetLines([]);
          SetLineOffset(-1);
        }
        if action != DRAW {
          SetPreviousCursor(NoCursor);
        } else {
          SetActive([]);
        }
      }
      assert State() == CommitStep(e, action);
      CommitPreservesInv(e, action);
    }

    /** `undo` (index.tsx:55-69). */
    method Undo()
      requires Valid()
      modifies this
      ensures State() == UndoStep(old(State())) && Valid()
      ensures InSync(old(State())) ==> InSync(State())
    {
      ghost var e := State();
      if mounted && lineOffset > 0 {
        var line := lines[lineOffset - 1];
        if lineOffset > 1 {
          SetPreviousCursor(line.start);
        } else {
          SetPreviousCursor(NoCursor);
        }
        Remove({line.id});
        SetLineOffset(lineOffset - 1);
      }
      assert State() == UndoStep(e);
      UndoPreservesInv(e);
      if InSync(e) {
        UndoKeepsSync(e);
      }
    }

    /** `redo` (index.tsx:71-81). */
    method Redo()
      requires Valid()
      modifies this
      ensures State() == RedoStep(old(State())) && Valid()
      ensures InSync(old(State())) ==> InSync(State())
    {
      ghost var e := State();
      if mounted && lineOffset < |lines| && lineOffset >= 0 {
        var line := lines[lineOffset];
        SetPreviousCursor(line.end);
        AddBack(line.id);
        SetLineOffset(lineOffset + 1);
      }
      assert State() == RedoStep(e);
      RedoPreservesInv(e);
      if InSync(e) {
        RedoKeepsSync(e);
      }
    }

    /** `deleteObj` (index.tsx:83-93). */
    method DeleteObj()
      requires Valid()
      modifies this
      ensures State() == DeleteStep(old(State())) && Valid()
    {
      ghost var e := State();
      if mounted {
        if |active| > 0 {
          Remove(Elems(active));
        } else {
          Remove(Elems(objects) - (if webcam.Some? then {webcam.value} else {}));
        }
      }
      assert State() == DeleteStep(e);
      DeletePreservesInv(e);
    }

    /** `flip` (index.tsx:137-147): a `forEach` over the selection, or over the images. */
    method Flip()
      requires Valid()
      modifies this
      ensures State() == FlipStep(old(State())) && Valid()
      ensures InSync(old(State())) ==> InSync(State())
    {
      ghost var e := State();
      if mounted {
        if |active| > 0 {
          FlipEach(active);
        } else {
          FlipEach(ImagesOf(objects, shapes));
        }
      }
      assert State() == FlipStep(e);
      FlipPreservesInv(e);
    }

    /** `objs.forEach(obj => obj.flipX = !obj.flipX)`. */
    method FlipEach(objs: seq<ObjId>)
      modifies this
      ensures State() == old(State()).(shapes := ToggleFlips(old(shapes), objs))
    {
      var i := 0;
      while i < |objs|
        invariant 0 <= i <= |objs|
        invariant State() == old(State()).(shapes := ToggleFlips(old(shapes), objs[..i]))
      {
        FlipObject(objs[i]);
        assert objs[..i + 1][..i] == objs[..i];
        i := i + 1;
      }
      assert objs[..i] == objs;
    }

    /** `lock` (index.tsx:48-53): a `forEach` over the selection, then the selection is discarded. */
    method Lock()
      requires Valid()
      modifies this
      ensures State() == LockStep(old(State())) && Valid()
      ensures InSync(old(State())) ==> InSync(State())
    {
      ghost var e := State();
      if mounted {
        LockEach(active);
        SetActive([]);
      }
      assert State() == LockStep(e);
      LockPreservesInv(e);
    }

    /** `objs.forEach(obj => { obj.selectable = false; obj.evented = false; obj.moveTo(0) })`. */
    method LockEach(objs: seq<ObjId>)
      modifies this
      ensures State() == old(State()).(shapes := DisableAll(old(shapes), objs), objects := SendAllToBack(old(objects), objs))
    {
      var i := 0;
      while i < |objs|
        invariant 0 <= i <= |objs|
        invariant State() == old(State()).(shapes := DisableAll(old(shapes), objs[..i]), objects := SendAllToBack(old(objects), objs[..i]))
      {
        DisableObject(objs[i]);
        MoveToBottom(objs[i]);
        assert objs[..i + 1][..i] == objs[..i];
        i := i + 1;
      }
      assert objs[..i] == objs;
    }

    /**
     * The canvas's `onMouseDown` callback (index.tsx:265-311). `complete` tells
     * whether the click asks the parent to finish the drawing (`onDrawingComplete`).
     */
    method OnMouseDown(button: int, action: Action, cur: Point) returns (complete: bool)
      requires Valid()
      modifies this
      ensures complete == CompletesDrawing(old(State()), button, action, cur)
      ensures State() == ClickStep(old(State()), button, action, cur) && Valid()
      ensures InSync(old(State())) ==> InSync(State())
    {
      ghost var e := State();
      complete := false;
      if mounted && button == 1 && action == DRAW {
        if StopTest(previousCursor, cur) {
          complete := true;
        } else {
          if HasAnchor(previousCursor) {
            DrawLineTo(cur);
          }
          SetPreviousCursor(cur);
        }
      }
      assert State() == ClickStep(e, button, action, cur);
      ClickPreservesInv(e, button, action, cur);
    }

    /**
     * The anchored click (index.tsx:282-300): the undone lines leave the canvas,
     * a stroke from the anchor to `cur` replaces them in the history and is added.
     */
    method DrawLineTo(cur: Point)
      modifies this
      ensures State() == DrawLine(old(State()), cur).(previousCursor := old(previousCursor))
    {
      Remove(Ids(Slice(lines, lineOffset + 1, |lines|)));
      var next := Slice(lines, 0, lineOffset) + [Line(nextId, previousCursor, cur)];
      SetLineOffset(|next|);
      SetLines(next);
      var id := Add(Shape(StrokeLine, false, false, false));
    }

    /** The webcam image is ready (index.tsx:179-192). */
    method AttachWebcam()
      requires Valid()
      modifies this
      ensures State() == AttachWebcamStep(old(State())) && Valid()
      ensures InSync(old(State())) ==> InSync(State())
    {
      ghost var e := State();
      if mounted {
        SetWebcam(nextId);
        var id := Add(Shape(Image, false, false, false));
      }
      assert State() == AttachWebcamStep(e);
      AttachWebcamPreservesInv(e);
    }

    /** The user selects the selectable objects among `ids` with the mouse. */
    method Select(ids: set<ObjId>)
      requires Valid()
      modifies this
      ensures State() == SelectStep(old(State()), ids) && Valid()
      ensures InSync(old(State())) ==> InSync(State())
    {
      ghost var e := State();
      SetActive(Without(objects, Unpicked(State(), ids)));
      SelectPreservesInv(e, ids);
    }
  }
}
