/**
 * The plugin class bundled into main.js (lines 93-358): the mark and yank
 * positions kept on the plugin itself, the sized kill ring, and the
 * recenter cycler that `keyboardQuit` resets.
 */
module MainJs {
  import opened Text
  import opened Host
  import opened RingSpec
  import opened KillYankSpec
  import opened SizedKillRing
  import RecenterCursorRoot

  /** `DEFAULT_KILL_RING_SIZE`. */
  const DefaultKillRingSize: nat := 60

  class SonkilPlugin {
    var yankPosition: Option<Pos>
    var markPosition: Option<Pos>
    const killRing: KillRing
    const recenterPlugin: RecenterCursorRoot.RecenterCursorPlugin

    ghost predicate Valid()
      reads this, killRing, recenterPlugin
    {
      killRing.Valid() && recenterPlugin.Valid()
    }

    /** The constructor: no positions, an empty ring of the default size. */
    constructor(clipboard: Clipboard)
      ensures Valid() && fresh(killRing) && fresh(recenterPlugin)
      ensures yankPosition.None? && markPosition.None?
      ensures killRing.Model() == Ring([], -1) && killRing.maxSize == DefaultKillRingSize
      ensures killRing.clipboard == clipboard && recenterPlugin.currentIndex == 0
    {
      yankPosition := None;
      markPosition := None;
      killRing := new KillRing(DefaultKillRingSize, clipboard);
      recenterPlugin := new RecenterCursorRoot.RecenterCursorPlugin();
    }

    /** `killLine(editor)`: see `KillLinePlan`. */
    method KillLine(editor: Editor)
      requires Valid() && editor.Valid()
      modifies killRing, killRing.clipboard, editor
      ensures Valid() && killRing.maxSize == old(killRing.maxSize)
      ensures var k := KillLinePlan(editor.lines[editor.cursor.line], editor.cursor);
        killRing.Model() == old(killRing.Model()).AddSome(k.killed, killRing.maxSize)
      ensures var k := KillLinePlan(editor.lines[editor.cursor.line], editor.cursor);
        killRing.clipboard.State() == AfterWrite(old(killRing.clipboard.State()), killRing.clipboard.writable, k.killed)
      ensures var k := KillLinePlan(editor.lines[editor.cursor.line], editor.cursor);
        editor.edits == old(editor.edits) + [ReplaceRange("", k.from, k.to)]
    {
      var cursorPosition := editor.cursor;
      var line := editor.lines[cursorPosition.line];
      var text := SliceFrom(line, cursorPosition.ch);
      if |Trim(text)| == 0 {
        editor.RequestReplaceRange("", cursorPosition, Pos(cursorPosition.line + 1, 0));
        return;
      }
      killRing.Add(text);
      editor.RequestReplaceRange("", cursorPosition, Pos(cursorPosition.line, |line|));
    }

    /** `killRegion(editor)`: see `KillRegionStep`. */
    method KillRegion(editor: Editor)
      requires Valid()
      modifies this, killRing, killRing.clipboard, editor
      ensures Valid() && killRing.maxSize == old(killRing.maxSize) && yankPosition == old(yankPosition)
      ensures var r := KillRegionStep(editor.lines, old(markPosition), editor.cursor, editor.selection);
        && killRing.Model() == old(killRing.Model()).AddSome(r.pushed, killRing.maxSize)
        && killRing.clipboard.State() == AfterWrite(old(killRing.clipboard.State()), killRing.clipboard.writable, r.pushed)
        && editor.edits == old(editor.edits) + r.edits
        && markPosition == r.mark
    {
      if markPosition.Some? {
        var (start, end) := SortPositions(markPosition.value, editor.cursor);
        var text := editor.GetRange(start, end);
        killRing.Add(text);
        editor.RequestReplaceRange("", start, end);
        markPosition := None;
      } else {
        var selection := editor.selection;
        if |selection| > 0 {
          killRing.Add(selection);
          editor.RequestReplaceSelection("");
        }
      }
    }

    /** `yank(editor)`: see `YankStep`. */
    method Yank(editor: Editor)
      requires Valid()
      modifies this, killRing, killRing.clipboard, editor
      ensures Valid() && killRing.maxSize == old(killRing.maxSize) && markPosition == old(markPosition)
      ensures var y := YankStep(old(killRing.Model()), killRing.maxSize, old(yankPosition), editor.cursor, old(killRing.clipboard.text));
        && killRing.Model() == y.ring
        && yankPosition == y.yank
        && killRing.clipboard.State() == AfterWrite(old(killRing.clipboard.State()), killRing.clipboard.writable, y.pulled)
        && editor.edits == old(editor.edits) + y.edits
    {
      var current := killRing.GetCurrentItem();
      if current.None? {
        var clipboardText := killRing.clipboard.text;
        if |clipboardText| > 0 {
          killRing.Add(clipboardText);
        }
      }
      var cursorPosition := editor.cursor;
      if yankPosition.None? {
        yankPosition := Some(cursorPosition);
      } else {
        killRing.DecreaseCurrentIndex();
      }
      var currentItem := killRing.GetCurrentItem();
      if currentItem.Some? && |currentItem.value| > 0 {
        editor.RequestSetSelection(yankPosition.value, cursorPosition);
        editor.RequestReplaceSelection(currentItem.value);
      }
    }

    /** The action of the "Yank" (C-y) binding: forget any yank in progress,
      * then yank, so C-y always inserts the current item without rotating. */
    method YankCommand(editor: Editor)
      requires Valid()
      modifies this, killRing, killRing.clipboard, editor
      ensures Valid() && killRing.maxSize == old(killRing.maxSize) && markPosition == old(markPosition)
      ensures var y := YankStep(old(killRing.Model()), killRing.maxSize, None, editor.cursor, old(killRing.clipboard.text));
        && killRing.Model() == y.ring
        && yankPosition == Some(editor.cursor)
        && killRing.clipboard.State() == AfterWrite(old(killRing.clipboard.State()), killRing.clipboard.writable, y.pulled)
        && editor.edits == old(editor.edits) + y.edits
    {
      yankPosition := None;
      Yank(editor);
    }

    /** `keyboardQuit()`: clears both positions and resets the recenter
      * cycler; the new state does not depend on the old one, so quitting
      * twice is the same as quitting once. */
    method KeyboardQuit()
      requires Valid()
      modifies this, recenterPlugin
      ensures Valid()
      ensures markPosition.None? && yankPosition.None? && recenterPlugin.currentIndex == 0
    {
      markPosition := None;
      yankPosition := None;
      recenterPlugin.Reset();
    }
  }
}
