/**
 * The host editor and the system clipboard, as the plugin sees them.
 *
 * The editor is a snapshot of what one command reads (its lines, the main
 * cursor, the selected text, the selection list, whether a CodeMirror view
 * is attached) plus a log of the requests the command sends back
 * (`replaceRange`, `setSelection`, `replaceSelection`, `setSelections`,
 * `setCursor`, `exec`). How the host applies those requests is its own
 * business and is not modelled.
 */
module Host {

  datatype Option<+T> = None | Some(value: T)

  /** Regrouping a concatenation; stated once so that request logs built
    * step by step can be compared with logs built in one piece. */
  lemma AppendAssoc<T>(a: seq<T>, b: seq<T>, c: seq<T>)
    ensures (a + b) + c == a + (b + c)
  {
  }

  /** An editor position: zero-based line and column (`EditorPosition`). */
  datatype Pos = Pos(line: nat, ch: nat)

  /** One entry of `listSelections()`. */
  datatype Selection = Selection(anchor: Pos, head: Pos)

  /** A request sent to the host editor. */
  datatype Edit =
    | ReplaceRange(text: string, from: Pos, to: Pos)
    | SetSelection(anchor: Pos, head: Pos)
    | ReplaceSelection(text: string)
    | SetSelections(selections: seq<Selection>)
    | SetCursor(pos: Pos)
    | Exec(command: string)

  /** `a` comes no later than `b` in reading order (line first, then column). */
  predicate NotAfter(a: Pos, b: Pos)
  {
    a.line < b.line || (a.line == b.line && a.ch <= b.ch)
  }

  /** `s.slice(i, j)` with both ends clamped to the string. */
  function Sub(s: string, i: nat, j: nat): (r: string)
    ensures i <= j <= |s| ==> r == s[i..j]
    ensures i <= |s| <= j ==> r == s[i..]
    ensures j <= i || |s| <= i ==> r == ""
  {
    var a := if i <= |s| then i else |s|;
    var b := if j <= |s| then j else |s|;
    if a <= b then s[a..b] else ""
  }

  /** The text between two positions, lines joined by a line feed (the host's `getRange`). */
  function RangeText(lines: seq<string>, from: Pos, to: Pos): string
    decreases |lines| - from.line
  {
    if !NotAfter(from, to) || from.line >= |lines| then ""
    else if from.line == to.line then Sub(lines[from.line], from.ch, to.ch)
    else Sub(lines[from.line], from.ch, |lines[from.line]|) + "\n" + RangeText(lines, Pos(from.line + 1, 0), to)
  }

  class Editor {
    const lines: seq<string>
    const cursor: Pos
    const selection: string
    const selections: seq<Selection>
    const hasCodeMirror: bool
    var edits: seq<Edit>

    /** What the host guarantees: a document has a line, the cursor is on one, and there is a selection. */
    ghost predicate Valid()
    {
      |lines| > 0 && cursor.line < |lines| && |selections| > 0
    }

    constructor(lines: seq<string>, cursor: Pos, selection: string, selections: seq<Selection>, hasCodeMirror: bool)
      ensures this.lines == lines && this.cursor == cursor && this.selection == selection
      ensures this.selections == selections && this.hasCodeMirror == hasCodeMirror
      ensures edits == []
    {
      this.lines := lines;
      this.cursor := cursor;
      this.selection := selection;
      this.selections := selections;
      this.hasCodeMirror := hasCodeMirror;
      edits := [];
    }

    function GetRange(from: Pos, to: Pos): string
    {
      RangeText(lines, from, to)
    }

    method RequestReplaceRange(text: string, from: Pos, to: Pos)
      modifies this
      ensures edits == old(edits) + [ReplaceRange(text, from, to)]
    {
      edits := edits + [ReplaceRange(text, from, to)];
    }

    method RequestSetSelection(anchor: Pos, head: Pos)
      modifies this
      ensures edits == old(edits) + [SetSelection(anchor, head)]
    {
      edits := edits + [SetSelection(anchor, head)];
    }

    method RequestReplaceSelection(text: string)
      modifies this
      ensures edits == old(edits) + [ReplaceSelection(text)]
    {
      edits := edits + [ReplaceSelection(text)];
    }

    method RequestSetSelections(selections: seq<Selection>)
      modifies this
      ensures edits == old(edits) + [SetSelections(selections)]
    {
      edits := edits + [SetSelections(selections)];
    }

    method RequestSetCursor(pos: Pos)
      modifies this
      ensures edits == old(edits) + [SetCursor(pos)]
    {
      edits := edits + [SetCursor(pos)];
    }

    method RequestExec(command: string)
      modifies this
      ensures edits == old(edits) + [Exec(command)]
    {
      edits := edits + [Exec(command)];
    }
  }

  /** What the clipboard holds and every write it was asked to perform. */
  datatype ClipState = ClipState(text: string, writes: seq<string>)

  /** The clipboard after at most one write request: the request is always
    * logged, and it replaces the text only when the clipboard accepts writes
    * (a rejected write is caught and logged by the caller, nothing else). */
  function AfterWrite(c: ClipState, writable: bool, t: Option<string>): (r: ClipState)
    ensures c.writes <= r.writes && |r.writes| == |c.writes| + (if t.Some? then 1 else 0)
    ensures t.Some? ==> r.writes[|c.writes|] == t.value
    ensures writable && t.Some? ==> r.text == t.value
    ensures r.text != c.text ==> writable && t == Some(r.text)
  {
    match t
    case None => c
    case Some(s) => ClipState(if writable then s else c.text, c.writes + [s])
  }

  class Clipboard {
    var text: string
    var writes: seq<string>
    /** Whether `writeText` succeeds; a failing write leaves the text as it was. */
    const writable: bool

    function State(): ClipState
      reads this
    {
      ClipState(text, writes)
    }

    constructor(text: string, writable: bool)
      ensures State() == ClipState(text, []) && this.writable == writable
    {
      this.text := text;
      writes := [];
      this.writable := writable;
    }

    method WriteText(t: string)
      modifies this
      ensures State() == AfterWrite(old(State()), writable, Some(t))
    {
      writes := writes + [t];
      if writable {
        text := t;
      }
    }
  }
}
