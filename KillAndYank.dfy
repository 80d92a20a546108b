/**
 * src/KillAndYankPlugin.ts: the mark and yank positions and an owned kill
 * ring with a configurable capacity, plus the kill-line, kill-region,
 * copy-region, yank and set-mark commands. Every command is proved to do to
 * the ring, the positions, the clipboard and the editor exactly what the
 * corresponding step of `KillYankSpec` says.
 */
module KillAndYank {
  import opened Text
  import opened Host
  import opened RingSpec
  import opened KillYankSpec
  import opened SizedKillRing

  class KillAndYankPlugin {
    /** `positions.mark` and `positions.yank`. */
    var mark: Option<Pos>
    var yank: Option<Pos>
    const killRing: KillRing

    ghost predicate Valid()
      reads this, killRing
    {
      killRing.Valid()
    }

    /** `new KillAndYankPlugin(maxRingSize)`: an empty ring of that capacity writing to `clipboard`. */
    constructor(maxRingSize: nat, clipboard: Clipboard)
      requires maxRingSize >= 1
      ensures Valid() && fresh(killRing)
      ensures mark.None? && yank.None?
      ensures killRing.Model() == Ring([], -1) && killRing.maxSize == maxRingSize
      ensures killRing.clipboard == clipboard
    {
      mark := None;
      yank := None;
      killRing := new KillRing(maxRingSize, clipboard);
    }

    /** `setKillRingMaxSize(size)`: forwards to the ring, which refuses sizes below one. */
    method SetKillRingMaxSize(size: int) returns (outcome: SizeOutcome)
      requires Valid()
      modifies killRing
      ensures Valid()
      ensures outcome == SizeTooSmall <==> size < 1
      ensures size < 1 ==> killRing.Model() == old(killRing.Model()) && killRing.maxSize == old(killRing.maxSize)
      ensures size >= 1 ==> killRing.maxSize == size && killRing.Model() == old(killRing.Model()).Shrink(size)
    {
      outcome := killRing.SetMaxSize(size);
    }

    /** `killLine(editor)`: see `KillLinePlan`; a killed remainder is pushed
      * (and written to the clipboard), the positions are untouched. */
    method KillLine(editor: Editor)
      requires Valid() && editor.Valid()
      modifies killRing, killRing.clipboard, editor
      ensures Valid() && killRing.maxSize == old(killRing.maxSize)
      ensures var k := KillLinePlan(editor.lines[editor.cursor.line], editor.cursor);
        killRing.Model() == old(killRing.Model()).AddSome(k.killed, killRing.maxSize)
      ensures var k := KillLinePlan(editor.lines[editor.cursor.line], editor.cursor);
        killRing.clipboard.State() == AfterWrite(old(killRing.clipboard.State()), killRing.clipboard.writable, k.killed)
      ensures var k := KillLinePlan(editor.lines[editor.cursor.line], editor.cursor);
        editor.edits == old(editor.edits) + [ReplaceRange("", k.from, k.to)]
    {
      var cursor := editor.cursor;
      var line := editor.lines[cursor.line];
      var text := SliceFrom(line, cursor.ch);
      if |Trim(text)| == 0 {
        editor.RequestReplaceRange("", cursor, Pos(cursor.line + 1, 0));
        return;
      }
      killRing.Add(text);
      editor.RequestReplaceRange("", cursor, Pos(cursor.line, |line|));
    }

    /** `killRegion(editor)`: see `KillRegionStep`. */
    method KillRegion(editor: Editor)
      requires Valid()
      modifies this, killRing, killRing.clipboard, editor
      ensures Valid() && killRing.maxSize == old(killRing.maxSize) && yank == old(yank)
      ensures var r := KillRegionStep(editor.lines, old(mark), editor.cursor, editor.selection);
        && killRing.Model() == old(killRing.Model()).AddSome(r.pushed, killRing.maxSize)
        && killRing.clipboard.State() == AfterWrite(old(killRing.clipboard.State()), killRing.clipboard.writable, r.pushed)
        && editor.edits == old(editor.edits) + r.edits
        && mark == r.mark
    {
      if mark.Some? {
        var (start, end) := SortPositions(mark.value, editor.cursor);
        var text := editor.GetRange(start, end);
        killRing.Add(text);
        editor.RequestReplaceRange("", start, end);
        mark := None;
      } else {
        var selection := editor.selection;
        if |selection| > 0 {
          killRing.Add(selection);
          editor.RequestReplaceSelection("");
        }
      }
    }

    /** `copyRegion(editor)`: see `CopyRegionStep`; the editor is not in the
      * frame, so no edit can be requested. */
    method CopyRegion(editor: Editor)
      requires Valid()
      modifies this, killRing, killRing.clipboard
      ensures Valid() && killRing.maxSize == old(killRing.maxSize) && yank == old(yank)
      ensures var r := CopyRegionStep(editor.lines, old(mark), editor.cursor, editor.selection);
        && killRing.Model() == old(killRing.Model()).AddSome(r.pushed, killRing.maxSize)
        && killRing.clipboard.State() == AfterWrite(old(killRing.clipboard.State()), killRing.clipboard.writable, r.pushed)
        && mark == r.mark
    {
      if mark.Some? {
        var (start, end) := SortPositions(mark.value, editor.cursor);
        var text := editor.GetRange(start, end);
        killRing.Add(text);
        mark := None;
      } else {
        var selection := editor.selection;
        if |selection| > 0 {
          killRing.Add(selection);
        }
      }
    }

    /** `yank(editor)`: see `YankStep`; the clipboard is read only when the
      * ring has no current item. */
    method Yank(editor: Editor)
      requires Valid()
      modifies this, killRing, killRing.clipboard, editor
      ensures Valid() && killRing.maxSize == old(killRing.maxSize) && mark == old(mark)
      ensures var y := YankStep(old(killRing.Model()), killRing.maxSize, old(yank), editor.cursor, old(killRing.clipboard.text));
        && killRing.Model() == y.ring
        && yank == y.yank
        && killRing.clipboard.State() == AfterWrite(old(killRing.clipboard.State()), killRing.clipboard.writable, y.pulled)
        && editor.edits == old(editor.edits) + y.edits
    {
      var current := killRing.GetCurrentItem();
      if current.None? {
        var clipboardText := killRing.clipboard.text;
        if |clipboardText| > 0 {
          killRing.Add(clipboardText);
        }
      }
      var cursor := editor.cursor;
      if yank.None? {
        yank := Some(cursor);
      } else {
        killRing.DecreaseCurrentIndex();
      }
      var item := killRing.GetCurrentItem();
      if item.Some? && |item.value| > 0 {
        editor.RequestSetSelection(yank.value, cursor);
        editor.RequestReplaceSelection(item.value);
      }
    }

    /** `setMark(editor)`: the cursor becomes the mark, replacing any earlier
      * one; the editor and the ring are outside the frame. */
    method SetMark(editor: Editor)
      modifies this
      ensures mark == Some(editor.cursor) && yank == old(yank)
    {
      mark := Some(editor.cursor);
    }

    /** `resetYankPosition()`: the mark is kept. */
    method ResetYankPosition()
      modifies this
      ensures yank.None? && mark == old(mark)
    {
      yank := None;
    }

    /** `resetMarkPosition()`: the yank position is kept. */
    method ResetMarkPosition()
      modifies this
      ensures mark.None? && yank == old(yank)
    {
      mark := None;
    }

    /** `reset()`: both positions cleared; the ring is outside the frame. */
    method Reset()
      modifies this
      ensures mark.None? && yank.None?
    {
      ResetYankPosition();
      ResetMarkPosition();
    }
  }
}
