/**
 * The page of pages/app.tsx: it owns the editing mode (`action`), the capture
 * dialog flag (`open`) and the reference to the Canvas component, maps key
 * presses and toolbar clicks to canvas operations and cycles the mode.
 *
 * A change of `action` re-renders the Canvas with the new prop, which runs its
 * commit effect; the methods below make that call explicitly.
 */
module App {

  import opened Optional
  import opened Utils
  import opened Cursor
  import opened Canvas
  import opened CanvasComponent

  /** A `keydown` event as `handleKeyDown` reads it. */
  datatype KeyEvent = KeyEvent(ctrl: bool, key: string)

  /** The canvas operations a key can ask for. */
  datatype Command = Undo | Redo | NextAction | Delete | Capture | Copy | NoCommand

  /** The `if`/`else if` chain of `handleKeyDown` (app.tsx:123-135): the first matching branch wins. */
  function CommandOf(ev: KeyEvent): (c: Command)
  {
    if ev.ctrl && ev.key == "z" then Undo
    else if ev.ctrl && ev.key == "y" then Redo
    else if ev.key == " " then NextAction
    else if ev.key == "Delete" || ev.key == "Backspace" then Delete
    else if ev.key == "Home" then Capture
    else if ev.ctrl && ev.key == "c" then Copy
    else NoCommand
  }

  /**
   * The keys of the chain are pairwise different strings, so no event matches
   * two branches: each command is asked for by exactly one kind of event.
   */
  lemma CommandOfExactly(ev: KeyEvent)
    ensures CommandOf(ev) == Undo <==> ev.ctrl && ev.key == "z"
    ensures CommandOf(ev) == Redo <==> ev.ctrl && ev.key == "y"
    ensures CommandOf(ev) == NextAction <==> ev.key == " "
    ensures CommandOf(ev) == Delete <==> ev.key == "Delete" || ev.key == "Backspace"
    ensures CommandOf(ev) == Capture <==> ev.key == "Home"
    ensures CommandOf(ev) == Copy <==> ev.ctrl && ev.key == "c"
    ensures CommandOf(ev) == NoCommand <==>
      (ev.key !in {"z", "y", "c", " ", "Delete", "Backspace", "Home"} || (!ev.ctrl && ev.key in {"z", "y", "c"}))
  {
    assert "z"[0] != "y"[0] && "z"[0] != "c"[0] && "y"[0] != "c"[0];
    assert |" "| == 1 && " "[0] != "z"[0] && " "[0] != "y"[0] && " "[0] != "c"[0];
    assert |"Home"| == 4 && |"Delete"| == 6 && |"Backspace"| == 9;
  }

  /** Ctrl does not matter for the keys that do not ask for it. */
  lemma CtrlOnlyForLetters(key: string)
    requires key !in {"z", "y", "c"}
    ensures CommandOf(KeyEvent(true, key)) == CommandOf(KeyEvent(false, key))
  {
  }

  /** `setNextAction` (app.tsx:116-118): `(action + 1) % (Object.keys(Action).length / 2)`. */
  function Next(a: Action): (r: Action)
    ensures r != a
  {
    var n := (Ordinal(a) + 1) % (EnumKeyCount / 2);
    var next := FromOrdinal(n);
    next.value
  }

  /** Cycling twice gives back the mode: DRAG and DRAW alternate. */
  lemma NextTwice(a: Action)
    ensures Next(Next(a)) == a
  {
  }

  class Page {
    var action: Action
    var open: bool
    /** `canvasRef`: null until the Canvas component has mounted and handed out its handle. */
    var canvasRef: Component?

    ghost predicate Valid()
      reads this, canvasRef
    {
      canvasRef != null ==> canvasRef.Valid()
    }

    /** The first render: DRAG mode, no dialog, no canvas yet (app.tsx:109-114). */
    constructor()
      ensures Valid() && action == DRAG && !open && canvasRef == null
    {
      action := DRAG;
      open := false;
      canvasRef := null;
    }

    /** The Canvas hands out its handle through its `ref` callback (app.tsx:176). */
    method Attach(c: Component)
      requires c.Valid()
      modifies this
      ensures Valid() && canvasRef == c && action == old(action) && open == old(open)
    {
      canvasRef := c;
    }

    /**
     * The state setter `setAction` (app.tsx:109), called by `setNextAction`
     * (117) and `onDrawingComplete` (180). When the mode changes, the Canvas
     * re-runs its commit effect (index.tsx:226-252) with the new mode.
     */
    method SetAction(a: Action)
      requires Valid()
      modifies this, canvasRef
      ensures Valid() && action == a && canvasRef == old(canvasRef) && open == old(open)
      ensures canvasRef != null && a != old(action) ==> canvasRef.State() == CommitStep(old(canvasRef.State()), a)
      ensures canvasRef != null && a == old(action) ==> canvasRef.State() == old(canvasRef.State())
    {
      if a != action {
        action := a;
        if canvasRef != null {
          canvasRef.Commit(a);
        }
      }
    }

    /** `setNextAction` (app.tsx:116-118), also the toolbar's `onChangeAction` (app.tsx:162). */
    method SetNextAction()
      requires Valid()
      modifies this, canvasRef
      ensures Valid() && action == Next(old(action)) && canvasRef == old(canvasRef) && open == old(open)
      ensures canvasRef != null ==> canvasRef.State() == CommitStep(old(canvasRef.State()), action)
    {
      SetAction(Next(action));
    }

    /** `onDrawingComplete` (app.tsx:180): back to DRAG, whatever the mode was. */
    method OnDrawingComplete()
      requires Valid()
      modifies this, canvasRef
      ensures Valid() && action == DRAG && canvasRef == old(canvasRef) && open == old(open)
      ensures canvasRef != null && old(action) == DRAW ==> canvasRef.State() == CommitStep(old(canvasRef.State()), DRAG)
      ensures canvasRef != null && old(action) == DRAG ==> canvasRef.State() == old(canvasRef.State())
    {
      SetAction(DRAG);
    }

    /**
     * A left or other click on the canvas in the current mode: the Canvas's
     * `onMouseDown` (index.tsx:265-311), then its commit effect when the click
     * changed `lines`, then `onDrawingComplete` when the click asked for it.
     */
    method Click(button: int, cur: Point)
      requires Valid()
      modifies this, canvasRef
      ensures Valid() && canvasRef == old(canvasRef) && open == old(open)
      ensures canvasRef == null ==> action == old(action)
      ensures canvasRef != null ==>
        var e := old(canvasRef.State());
        if CompletesDrawing(e, button, old(action), cur) then
          action == DRAG && canvasRef.State() == CommitStep(e, DRAG)
        else
          action == old(action) && canvasRef.State() == MouseDownStep(e, button, old(action), cur)
    {
      if canvasRef != null {
        ghost var e := canvasRef.State();
        var lines := canvasRef.lines;
        var complete := canvasRef.OnMouseDown(button, action, cur);
        if canvasRef.lines != lines {
          canvasRef.Commit(action);
        }
        if complete {
          CompletingClickChangesNothing(e, button, action, cur);
          OnDrawingComplete();
        }
      }
    }

    /**
     * `handleKeyDown` (app.tsx:121-137). `webcamCapture` and `copy` act on the
     * screen and the clipboard only, so they leave the modelled state alone.
     */
    method HandleKeyDown(ev: KeyEvent)
      requires Valid()
      modifies this, canvasRef
      ensures Valid() && canvasRef == old(canvasRef) && open == old(open)
      ensures canvasRef == null ==> action == old(action)
      ensures canvasRef != null ==>
        var e := old(canvasRef.State());
        match CommandOf(ev)
        case Undo => action == old(action) && canvasRef.State() == UndoStep(e)
        case Redo => action == old(action) && canvasRef.State() == RedoStep(e)
        case NextAction => action == Next(old(action)) && canvasRef.State() == CommitStep(e, action)
        case Delete => action == old(action) && canvasRef.State() == DeleteStep(e)
        case _ => action == old(action) && canvasRef.State() == e
    {
      if canvasRef != null {
        match CommandOf(ev)
        case Undo => canvasRef.Undo();
        case Redo => canvasRef.Redo();
        case NextAction => SetNextAction();
        case Delete => canvasRef.DeleteObj();
        case Capture =>
        case Copy =>
        case NoCommand =>
      }
    }

    /** The toolbar's `onUndo` (app.tsx:161). */
    method OnUndo()
      requires Valid()
      modifies canvasRef
      ensures Valid()
      ensures canvasRef != null ==> canvasRef.State() == UndoStep(old(canvasRef.State()))
    {
      if canvasRef != null {
        canvasRef.Undo();
      }
    }

    /** The toolbar's `onRedo` (app.tsx:160). */
    method OnRedo()
      requires Valid()
      modifies canvasRef
      ensures Valid()
      ensures canvasRef != null ==> canvasRef.State() == RedoStep(old(canvasRef.State()))
    {
      if canvasRef != null {
        canvasRef.Redo();
      }
    }

    /** The toolbar's `onFlip` (app.tsx:163). */
    method OnFlip()
      requires Valid()
      modifies canvasRef
      ensures Valid()
      ensures canvasRef != null ==> canvasRef.State() == FlipStep(old(canvasRef.State()))
    {
      if canvasRef != null {
        canvasRef.Flip();
      }
    }

    /** The toolbar's `onDelete` (app.tsx:164). */
    method OnDelete()
      requires Valid()
      modifies canvasRef
      ensures Valid()
      ensures canvasRef != null ==> canvasRef.State() == DeleteStep(old(canvasRef.State()))
    {
      if canvasRef != null {
        canvasRef.DeleteObj();
      }
    }

    /** The toolbar's `onLock` (app.tsx:165). */
    method OnLock()
      requires Valid()
      modifies canvasRef
      ensures Valid()
      ensures canvasRef != null ==> canvasRef.State() == LockStep(old(canvasRef.State()))
    {
      if canvasRef != null {
        canvasRef.Lock();
      }
    }

    /** The toolbar's `onWebcamCapture` (app.tsx:167-172): with a canvas, the capture dialog opens. */
    method OnWebcamCapture()
      requires Valid()
      modifies this
      ensures Valid() && canvasRef == old(canvasRef) && action == old(action)
      ensures open == (old(open) || canvasRef != null)
    {
      if canvasRef != null {
        open := true;
      }
    }
  }
}
