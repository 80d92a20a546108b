/**
 * src/MultiCursorComponent.ts: the same cursor addition as the plugin
 * version, with a `reset` that only moves the cursor when several
 * selections exist.
 */
module MultiCursorComponent {
  import opened Host
  import opened MultiCursorSpec

  class MultiCursorComponent {
    var mainPosition: Option<Pos>

    constructor()
      ensures mainPosition.None?
    {
      mainPosition := None;
    }

    /** `addCursor(editor, direction)`. */
    method AddCursor(editor: Editor, d: Direction)
      requires editor.Valid()
      modifies this, editor
      ensures var t := TargetLine(editor.selections, d, |editor.lines|);
        t.None? ==> mainPosition == old(mainPosition) && editor.edits == old(editor.edits)
      ensures var t := TargetLine(editor.selections, d, |editor.lines|);
        t.Some? ==>
          && mainPosition == (if old(mainPosition).None? then Some(editor.cursor) else old(mainPosition))
          && editor.edits == old(editor.edits) + [SetSelections(editor.selections + [NewCursor(mainPosition.value, editor.lines, t.value)])]
    {
      var cursors := editor.selections;
      var currentLine: int;
      if d == Up {
        currentLine := cursors[0].anchor.line - 1;
      } else {
        currentLine := cursors[|cursors| - 1].anchor.line + 1;
      }
      if currentLine < 0 || currentLine >= |editor.lines| {
        return;
      }
      if mainPosition.None? {
        mainPosition := Some(editor.cursor);
      }
      var line := editor.lines[currentLine];
      var newCursor := Pos(currentLine, if mainPosition.value.ch <= |line| then mainPosition.value.ch else |line|);
      cursors := cursors + [Selection(newCursor, newCursor)];
      editor.RequestSetSelections(cursors);
    }

    /** `reset(editor)`: with more than one selection the cursor goes to the
      * main position, or else to the first anchor; the main position is
      * always forgotten. */
    method Reset(editor: Editor)
      requires editor.Valid()
      modifies this, editor
      ensures mainPosition.None?
      ensures |editor.selections| <= 1 ==> editor.edits == old(editor.edits)
      ensures |editor.selections| > 1 ==>
        editor.edits == old(editor.edits) + [SetCursor(if old(mainPosition).Some? then old(mainPosition).value else editor.selections[0].anchor)]
    {
      var selections := editor.selections;
      if |selections| > 1 {
        if mainPosition.Some? {
          editor.RequestSetCursor(mainPosition.value);
        } else {
          editor.RequestSetCursor(selections[0].anchor);
        }
      }
      mainPosition := None;
    }
  }

  /** The boundary case of the unit tests: at the top line there is nothing
    * above, and at the last line nothing below; neither call asks for new
    * selections nor captures the main position. */
  method BoundaryScenario() returns (edits: seq<Edit>, captured: bool)
    ensures edits == [] && !captured
  {
    var lines := seq(10, _ => "");
    var component := new MultiCursorComponent();
    var top := new Editor(lines, Pos(0, 0), "", [Selection(Pos(0, 0), Pos(0, 0))], true);
    component.AddCursor(top, Up);
    var bottom := new Editor(lines, Pos(9, 0), "", [Selection(Pos(9, 0), Pos(9, 0))], true);
    component.AddCursor(bottom, Down);
    edits := top.edits + bottom.edits;
    captured := component.mainPosition.Some?;
  }
}
