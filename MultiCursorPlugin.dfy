/**
 * src/MultiCursorPlugin.ts: the main cursor position remembered while
 * cursors are being added, `addCursor`, and the two resets.
 */
module MultiCursorPlugin {
  import opened Host
  import opened MultiCursorSpec

  class MultiCursorPlugin {
    var mainPosition: Option<Pos>

    constructor()
      ensures mainPosition.None?
    {
      mainPosition := None;
    }

    /** `addCursor(editor, direction)`: a target outside the document changes
      * nothing; otherwise the main position is captured if not yet set, and
      * the selections become the old ones followed by the new cursor. */
    method AddCursor(editor: Editor, d: Direction)
      requires editor.Valid()
      modifies this, editor
      ensures var t := TargetLine(editor.selections, d, |editor.lines|);
        t.None? ==> mainPosition == old(mainPosition) && editor.edits == old(editor.edits)
      ensures var t := TargetLine(editor.selections, d, |editor.lines|);
        t.Some? ==>
          && mainPosition == (if old(mainPosition).None? then Some(editor.cursor) else old(mainPosition))
          && editor.edits == old(editor.edits) + [SetSelections(editor.selections + [NewCursor(mainPosition.value, editor.lines, t.value)])]
    {
      var cursors := editor.selections;
      var currentLine: int;
      if d == Up {
        currentLine := cursors[0].anchor.line - 1;
      } else {
        currentLine := cursors[|cursors| - 1].anchor.line + 1;
      }
      if currentLine < 0 || currentLine >= |editor.lines| {
        return;
      }
      if mainPosition.None? {
        mainPosition := Some(editor.cursor);
      }
      var line := editor.lines[currentLine];
      var ch := if mainPosition.value.ch <= |line| then mainPosition.value.ch else |line|;
      var newCursor := Pos(currentLine, ch);
      cursors := cursors + [Selection(newCursor, newCursor)];
      editor.RequestSetSelections(cursors);
    }

    /** `resetMultiCursors(editor)`: with a main position, the cursor is sent
      * back to it and the position forgotten; without one nothing happens. */
    method ResetMultiCursors(editor: Editor)
      modifies this, editor
      ensures mainPosition.None?
      ensures old(mainPosition).Some? ==> editor.edits == old(editor.edits) + [SetCursor(old(mainPosition).value)]
      ensures old(mainPosition).None? ==> editor.edits == old(editor.edits)
    {
      if mainPosition.Some? {
        editor.RequestSetCursor(mainPosition.value);
        mainPosition := None;
      }
    }

    /** `reset()`: forgets the main position without any editor request. */
    method Reset()
      modifies this
      ensures mainPosition.None?
    {
      mainPosition := None;
    }
  }

  /** The line-length case of the unit tests: from column 5 of line 0, adding
    * below twice lands on column 5 of lines 1 and 2, which are long enough. */
  method ColumnScenario() returns (first: seq<Edit>, second: seq<Edit>)
    ensures first == [SetSelections([Selection(Pos(0, 5), Pos(0, 5)), Selection(Pos(1, 5), Pos(1, 5))])]
    ensures second == [SetSelections([Selection(Pos(0, 5), Pos(0, 5)), Selection(Pos(1, 5), Pos(1, 5)),
                                      Selection(Pos(2, 5), Pos(2, 5))])]
  {
    var lines := ["1234567", "12345", "1234567890"];
    assert |lines| == 3 && |lines[1]| == 5 && |lines[2]| == 10;
    var plugin := new MultiCursorPlugin();
    var e1 := new Editor(lines, Pos(0, 5), "", [Selection(Pos(0, 5), Pos(0, 5))], true);
    plugin.AddCursor(e1, Down);
    assert TargetLine(e1.selections, Down, 3) == Some(1);
    assert plugin.mainPosition == Some(Pos(0, 5));
    assert NewCursor(Pos(0, 5), lines, 1) == Selection(Pos(1, 5), Pos(1, 5));
    assert e1.selections + [Selection(Pos(1, 5), Pos(1, 5))] == [Selection(Pos(0, 5), Pos(0, 5)), Selection(Pos(1, 5), Pos(1, 5))];
    first := e1.edits;
    var e2 := new Editor(lines, Pos(0, 5), "", [Selection(Pos(0, 5), Pos(0, 5)), Selection(Pos(1, 5), Pos(1, 5))], true);
    plugin.AddCursor(e2, Down);
    assert TargetLine(e2.selections, Down, 3) == Some(2);
    assert NewCursor(Pos(0, 5), lines, 2) == Selection(Pos(2, 5), Pos(2, 5));
    assert e2.selections + [Selection(Pos(2, 5), Pos(2, 5))]
      == [Selection(Pos(0, 5), Pos(0, 5)), Selection(Pos(1, 5), Pos(1, 5)), Selection(Pos(2, 5), Pos(2, 5))];
    second := e2.edits;
  }
}
