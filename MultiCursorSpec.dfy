/**
 * What adding a cursor above or below computes, shared by
 * src/MultiCursorComponent.ts and src/MultiCursorPlugin.ts: the target line
 * next to the first (up) or last (down) selection's anchor, refused when it
 * falls outside the document, and a collapsed cursor on it whose column is
 * the main cursor's, clamped to the target line's length.
 */
module MultiCursorSpec {
  import opened Host

  datatype Direction = Up | Down

  /** The line a new cursor goes to, `None` when it is outside `[0, lineCount)`. */
  function TargetLine(selections: seq<Selection>, d: Direction, lineCount: nat): (r: Option<nat>)
    requires |selections| > 0
    ensures d == Up ==> (r.Some? <==> 1 <= selections[0].anchor.line <= lineCount)
    ensures d == Down ==> (r.Some? <==> selections[|selections| - 1].anchor.line + 1 < lineCount)
    ensures d == Up && r.Some? ==> r.value + 1 == selections[0].anchor.line
    ensures d == Down && r.Some? ==> r.value == selections[|selections| - 1].anchor.line + 1
    ensures r.Some? ==> r.value < lineCount
  {
    var currentLine: int :=
      if d == Up then selections[0].anchor.line - 1 else selections[|selections| - 1].anchor.line + 1;
    if currentLine < 0 || currentLine >= lineCount then None else Some(currentLine)
  }

  /** The cursor added on line `target`: collapsed, with the main column
    * `Math.min`-clamped to the line's length. */
  function NewCursor(main: Pos, lines: seq<string>, target: nat): (c: Selection)
    requires target < |lines|
    ensures c.anchor == c.head && c.anchor.line == target
    ensures c.anchor.ch <= main.ch && c.anchor.ch <= |lines[target]|
    ensures c.anchor.ch == main.ch || c.anchor.ch == |lines[target]|
  {
    var ch := if main.ch <= |lines[target]| then main.ch else |lines[target]|;
    Selection(Pos(target, ch), Pos(target, ch))
  }
}
