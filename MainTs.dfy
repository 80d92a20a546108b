/**
 * main.ts: the plugin keeps its kill ring inside its settings record
 * (`killRing`, `killRingIndex`, `yankPosition`, `markPosition`,
 * `killRingMaxSize`) and never writes to the clipboard. Its `yank` has no
 * guard for an empty ring, which the model makes an explicit outcome.
 */
module MainTs {
  import opened Text
  import opened Host
  import opened RingSpec
  import opened KillYankSpec
  import opened Keys

  /** The default `killRingMaxSize`. */
  const DefaultKillRingMaxSize: nat := 60

  /** `getNextKillRingIndex()` as a function of the index and the ring length:
    * `(index - 1 + length) % length` with JavaScript's remainder. */
  function NextKillRingIndex(index: int, length: nat): (r: int)
    requires length > 0
    ensures index >= -1 ==> 0 <= r < length
    ensures 0 < index < length ==> r == index - 1
    ensures index == 0 ==> r == length - 1
  {
    JsRem(index - 1 + length, length)
  }

  /** On every ring the invariant allows, `getNextKillRingIndex` is the
    * rotation of the other kill rings. */
  lemma NextKillRingIndexIsRotation(r: Ring, cap: nat)
    requires r.Valid(cap) && r.items != []
    ensures NextKillRingIndex(r.index, |r.items|) == r.Rotate().index
  {
  }

  /** What `yank` did: inserted the current item, or found the ring still
    * empty after consulting the clipboard (the source then reads
    * `killRing[-1]`). */
  datatype YankOutcome = Inserted(text: string) | EmptyRing

  /** What one main.ts `yank` does. Unlike `YankStep` it tests the ring for
    * emptiness rather than for a current item, and it always selects from
    * the yank position to the cursor and replaces the selection, even with
    * an empty current item. */
  function TsYankStep(ring: Ring, cap: nat, yank: Option<Pos>, cursor: Pos, clip: string): (r: YankResult)
    requires cap >= 1 && ring.Valid(cap)
    ensures r.ring.Valid(cap)
    ensures ring.items == [] && |clip| > 0 ==> r.pulled == Some(clip)
    ensures ring.items != [] || |clip| == 0 ==> r.pulled.None?
    ensures yank.None? ==> r.yank == Some(cursor) && r.ring == ring.AddSome(r.pulled, cap)
    ensures yank.Some? ==> r.yank == yank && r.ring == ring.AddSome(r.pulled, cap).Rotate()
    ensures r.ring.items == [] ==> r.edits == [SetSelection(r.yank.value, cursor)]
    ensures r.ring.items != [] ==> r.edits == [SetSelection(r.yank.value, cursor), ReplaceSelection(r.ring.items[r.ring.index])]
  {
    var pulled := if ring.items == [] && |clip| > 0 then Some(clip) else None;
    var r1 := ring.AddSome(pulled, cap);
    var anchor := if yank.None? then cursor else yank.value;
    var r2 := if yank.None? then r1 else r1.Rotate();
    var edits := if r2.items == [] then [SetSelection(anchor, cursor)]
                 else [SetSelection(anchor, cursor), ReplaceSelection(r2.items[r2.index])];
    YankResult(r2, Some(anchor), pulled, edits)
  }

  /** main.ts and the later versions agree on the ring, the yank position and
    * what is taken from the clipboard; their requests differ only when there
    * is no current item or it is the empty string, where the later versions
    * request nothing. */
  lemma TsYankAgreesWithYankStep(ring: Ring, cap: nat, yank: Option<Pos>, cursor: Pos, clip: string)
    requires cap >= 1 && ring.Valid(cap)
    ensures TsYankStep(ring, cap, yank, cursor, clip).ring == YankStep(ring, cap, yank, cursor, clip).ring
    ensures TsYankStep(ring, cap, yank, cursor, clip).yank == YankStep(ring, cap, yank, cursor, clip).yank
    ensures TsYankStep(ring, cap, yank, cursor, clip).pulled == YankStep(ring, cap, yank, cursor, clip).pulled
    ensures var c := YankStep(ring, cap, yank, cursor, clip).ring.Current();
      c.Some? && |c.value| > 0 ==> TsYankStep(ring, cap, yank, cursor, clip).edits == YankStep(ring, cap, yank, cursor, clip).edits
  {
  }

  /** The bindings' actions. */
  datatype Action = KeyboardQuit | SetMark | KillLine | KillRegion | Yank | YankPop

  const NoMods := Modifiers(false, false, false, false)
  const Ctrl := Modifiers(true, false, false, false)
  const Alt := Modifiers(false, true, false, false)

  /** `keyBindings` of main.ts, in order. */
  const Bindings: seq<Binding<Action>> := [
    Binding(KeySpec("g", Some("KeyG"), Ctrl), KeyboardQuit, "Cancel mark and exit yank mode"),
    Binding(KeySpec(" ", Some("Space"), Ctrl), SetMark, "Set mark"),
    Binding(KeySpec("k", Some("KeyK"), Ctrl), KillLine, "Kill line"),
    Binding(KeySpec("w", Some("KeyW"), Ctrl), KillRegion, "Kill region"),
    Binding(KeySpec("y", Some("KeyY"), Ctrl), Yank, "Yank"),
    Binding(KeySpec("y", Some("KeyY"), Alt), YankPop, "Yank pop")
  ]

  /** The part of the settings record the commands change. */
  datatype PluginState = PluginState(ring: Ring, yank: Option<Pos>, mark: Option<Pos>)

  /** What running one binding's action does to the state, and the requests it sends. */
  function ActionStep(s: PluginState, cap: nat, a: Action, lines: seq<string>, cursor: Pos, selection: string, clip: string): (r: (PluginState, seq<Edit>))
    requires cap >= 1 && s.ring.Valid(cap) && cursor.line < |lines|
    ensures r.0.ring.Valid(cap)
    ensures a == KeyboardQuit ==> r == (PluginState(s.ring, None, None), [])
    ensures a == SetMark ==> r == (PluginState(s.ring, s.yank, Some(cursor)), [])
    ensures a in {KillLine, KillRegion} ==> r.0.yank == s.yank && r.0.mark.None? == (a == KillRegion || s.mark.None?)
    ensures a == Yank ==> r.0.yank == Some(cursor) && r.0.mark == s.mark
    ensures a == YankPop ==> r.0.mark == s.mark && (s.yank.Some? ==> r.0.yank == s.yank)
    ensures a in {Yank, YankPop} && s.ring.items != [] ==> r.0.ring.items == s.ring.items
  {
    match a
    case KeyboardQuit => (PluginState(s.ring, None, None), [])
    case SetMark => (PluginState(s.ring, s.yank, Some(cursor)), [])
    case KillLine =>
      var k := KillLinePlan(lines[cursor.line], cursor);
      (PluginState(s.ring.AddSome(k.killed, cap), s.yank, s.mark), [ReplaceRange("", k.from, k.to)])
    case KillRegion =>
      var k := KillRegionStep(lines, s.mark, cursor, selection);
      (PluginState(s.ring.AddSome(k.pushed, cap), s.yank, k.mark), k.edits)
    case Yank =>
      var y := TsYankStep(s.ring, cap, None, cursor, clip);
      (PluginState(y.ring, y.yank, s.mark), y.edits)
    case YankPop =>
      var y := TsYankStep(s.ring, cap, s.yank, cursor, clip);
      (PluginState(y.ring, y.yank, s.mark), y.edits)
  }

  /** C-y starts a fresh yank whatever came before: it never rotates. M-y
    * during a yank rotates back one step and keeps the anchor. */
  lemma YankVersusYankPop(s: PluginState, cap: nat, lines: seq<string>, cursor: Pos, selection: string, clip: string)
    requires cap >= 1 && s.ring.Valid(cap) && cursor.line < |lines| && s.ring.items != []
    ensures ActionStep(s, cap, Yank, lines, cursor, selection, clip).0.ring == s.ring
    ensures s.yank.Some? ==> ActionStep(s, cap, YankPop, lines, cursor, selection, clip).0.ring == s.ring.Rotate()
    ensures s.yank.Some? ==> ActionStep(s, cap, YankPop, lines, cursor, selection, clip).0.yank == s.yank
  {
  }

  class SonkilPlugin {
    var killRing: seq<string>
    var killRingIndex: int
    var yankPosition: Option<Pos>
    var markPosition: Option<Pos>
    var killRingMaxSize: nat

    function Model(): Ring
      reads this
    {
      Ring(killRing, killRingIndex)
    }

    function State(): PluginState
      reads this
    {
      PluginState(Model(), yankPosition, markPosition)
    }

    ghost predicate Valid()
      reads this
    {
      killRingMaxSize >= 1 && Model().Valid(killRingMaxSize)
    }

    /** The constructor's default settings. */
    constructor()
      ensures Valid() && State() == PluginState(Ring([], -1), None, None)
      ensures killRingMaxSize == DefaultKillRingMaxSize
    {
      killRing := [];
      killRingIndex := -1;
      yankPosition := None;
      markPosition := None;
      killRingMaxSize := DefaultKillRingMaxSize;
    }

    /** `addToKillRing(text)`: push, keep the newest `killRingMaxSize`
      * entries, point at the new one. It does not need the invariant: a ring
      * longer than the maximum is cut down too. */
    method AddToKillRing(text: string)
      requires killRingMaxSize >= 1
      modifies this
      ensures Valid()
      ensures Model() == old(Model()).Add(text, killRingMaxSize)
      ensures yankPosition == old(yankPosition) && markPosition == old(markPosition) && killRingMaxSize == old(killRingMaxSize)
    {
      killRing := killRing + [text];
      if |killRing| > killRingMaxSize {
        killRing := killRing[|killRing| - killRingMaxSize..];
      }
      killRingIndex := |killRing| - 1;
      assert killRing == Newest(old(killRing) + [text], killRingMaxSize);
    }

    /** `killLine(editor)`. */
    method KillLine(editor: Editor)
      requires Valid() && editor.Valid()
      modifies this, editor
      ensures Valid() && killRingMaxSize == old(killRingMaxSize)
      ensures var r := ActionStep(old(State()), killRingMaxSize, Action.KillLine, editor.lines, editor.cursor, editor.selection, "");
        State() == r.0 && editor.edits == old(editor.edits) + r.1
    {
      var cursorPosition := editor.cursor;
      var line := editor.lines[cursorPosition.line];
      var text := SliceFrom(line, cursorPosition.ch);
      if |Trim(text)| == 0 {
        editor.RequestReplaceRange("", cursorPosition, Pos(cursorPosition.line + 1, 0));
        return;
      }
      AddToKillRing(text);
      editor.RequestReplaceRange("", cursorPosition, Pos(cursorPosition.line, |line|));
    }

    /** `killRegion(editor)`. */
    method KillRegion(editor: Editor)
      requires Valid() && editor.Valid()
      modifies this, editor
      ensures Valid() && killRingMaxSize == old(killRingMaxSize)
      ensures var r := ActionStep(old(State()), killRingMaxSize, Action.KillRegion, editor.lines, editor.cursor, editor.selection, "");
        State() == r.0 && editor.edits == old(editor.edits) + r.1
    {
      ghost var k := KillRegionStep(editor.lines, markPosition, editor.cursor, editor.selection);
      assert ActionStep(State(), killRingMaxSize, Action.KillRegion, editor.lines, editor.cursor, editor.selection, "")
        == (PluginState(Model().AddSome(k.pushed, killRingMaxSize), yankPosition, None), k.edits);
      if markPosition.Some? {
        var (start, end) := SortPositions(markPosition.value, editor.cursor);
        var text := editor.GetRange(start, end);
        AddToKillRing(text);
        editor.RequestReplaceRange("", start, end);
        markPosition := None;
      } else {
        var selection := editor.selection;
        if |selection| > 0 {
          AddToKillRing(selection);
          editor.RequestReplaceSelection("");
        }
      }
    }

    /** `yank(editor)`, the clipboard text being `clipboardText`. */
    method Yank(editor: Editor, clipboardText: string) returns (outcome: YankOutcome)
      requires Valid()
      modifies this, editor
      ensures Valid() && killRingMaxSize == old(killRingMaxSize) && markPosition == old(markPosition)
      ensures var y := TsYankStep(old(Model()), killRingMaxSize, old(yankPosition), editor.cursor, clipboardText);
        Model() == y.ring && yankPosition == y.yank
      ensures var y := TsYankStep(old(Model()), killRingMaxSize, old(yankPosition), editor.cursor, clipboardText);
        editor.edits == old(editor.edits) + y.edits
      ensures outcome == if killRing == [] then EmptyRing else Inserted(killRing[killRingIndex])
    {
      ghost var y := TsYankStep(Model(), killRingMaxSize, yankPosition, editor.cursor, clipboardText);
      PullClipboard(clipboardText);
      var cursorPostion := editor.cursor;
      AdvanceYank(cursorPostion);
      assert Model() == y.ring && yankPosition == y.yank;
      ghost var before := editor.edits;
      editor.RequestSetSelection(yankPosition.value, cursorPostion);
      if killRing == [] {
        return EmptyRing;
      }
      editor.RequestReplaceSelection(killRing[killRingIndex]);
      AppendAssoc(before, [SetSelection(y.yank.value, cursorPostion)], [ReplaceSelection(y.ring.items[y.ring.index])]);
      return Inserted(killRing[killRingIndex]);
    }

    /** The first half of `yank`: an empty ring takes a non-empty clipboard text. */
    method PullClipboard(clipboardText: string)
      requires Valid()
      modifies this
      ensures Valid() && killRingMaxSize == old(killRingMaxSize)
      ensures yankPosition == old(yankPosition) && markPosition == old(markPosition)
      ensures Model() == old(Model()).AddSome(if old(killRing) == [] && |clipboardText| > 0 then Some(clipboardText) else None, killRingMaxSize)
    {
      if |killRing| == 0 {
        if |clipboardText| > 0 {
          AddToKillRing(clipboardText);
        }
      }
    }

    /** The second half of `yank`: the first yank of a sequence anchors at the
      * cursor, a later one moves the index back one place. */
    method AdvanceYank(cursor: Pos)
      requires Valid()
      modifies this
      ensures Valid() && killRingMaxSize == old(killRingMaxSize) && markPosition == old(markPosition)
      ensures old(yankPosition).None? ==> yankPosition == Some(cursor) && Model() == old(Model())
      ensures old(yankPosition).Some? ==> yankPosition == old(yankPosition) && Model() == old(Model()).Rotate()
    {
      if yankPosition.None? {
        yankPosition := Some(cursor);
      } else if killRing != [] {
        NextKillRingIndexIsRotation(Model(), killRingMaxSize);
        killRingIndex := NextKillRingIndex(killRingIndex, |killRing|);
      }
    }

    /** `keyboardQuit()`: both positions cleared, the ring untouched. */
    method KeyboardQuit() returns (handled: bool)
      requires Valid()
      modifies this
      ensures Valid() && handled
      ensures markPosition.None? && yankPosition.None?
      ensures Model() == old(Model()) && killRingMaxSize == old(killRingMaxSize)
    {
      markPosition := None;
      yankPosition := None;
      return true;
    }

    /** `binding.action(editor)` for one of the bindings. */
    method RunAction(a: Action, editor: Editor, clipboardText: string) returns (result: bool)
      requires Valid() && editor.Valid()
      modifies this, editor
      ensures Valid() && killRingMaxSize == old(killRingMaxSize) && result
      ensures var r := ActionStep(old(State()), killRingMaxSize, a, editor.lines, editor.cursor, editor.selection, clipboardText);
        State() == r.0 && editor.edits == old(editor.edits) + r.1
    {
      match a
      case KeyboardQuit =>
        result := KeyboardQuit();
      case SetMark =>
        markPosition := Some(editor.cursor);
        result := true;
      case KillLine =>
        KillLine(editor);
        result := true;
      case KillRegion =>
        KillRegion(editor);
        result := true;
      case Yank =>
        yankPosition := None;
        var _ := Yank(editor, clipboardText);
        result := true;
      case YankPop =>
        var _ := Yank(editor, clipboardText);
        result := true;
    }

    /** `handleKeyEvent(evt)`: with no active view nothing happens. With Ctrl
      * or Alt held the first matching binding runs and its result is
      * returned. Otherwise a pending yank is forgotten unless the key is a
      * bare Control or Alt press, and the event is not handled. */
    method HandleKeyEvent(evt: KeyEvent, hasView: bool, editor: Editor, clipboardText: string) returns (handled: bool, ran: Option<Action>)
      requires Valid() && editor.Valid()
      modifies this, editor
      ensures Valid() && killRingMaxSize == old(killRingMaxSize)
      ensures ran == if hasView && (evt.mods.ctrl || evt.mods.alt) && FirstMatch(Bindings, evt).Some?
                     then Some(Bindings[FirstMatch(Bindings, evt).value].action) else None
      ensures handled <==> ran.Some?
      ensures ran.Some? ==>
                var r := ActionStep(old(State()), killRingMaxSize, ran.value, editor.lines, editor.cursor, editor.selection, clipboardText);
                State() == r.0 && editor.edits == old(editor.edits) + r.1
      ensures ran.None? ==> Model() == old(Model()) && markPosition == old(markPosition) && editor.edits == old(editor.edits)
      ensures ran.None? ==> yankPosition == if hasView && !IsModifierKey(evt) then None else old(yankPosition)
    {
      if !hasView {
        return false, None;
      }
      if evt.mods.ctrl || evt.mods.alt {
        var i := FindFirst(Bindings, evt);
        if i.Some? {
          handled := RunAction(Bindings[i.value].action, editor, clipboardText);
          return handled, Some(Bindings[i.value].action);
        }
      }
      if yankPosition.Some? && !IsModifierKey(evt) {
        yankPosition := None;
      }
      return false, None;
    }

    /** `onunload()`: the ring emptied and both positions cleared. */
    method OnUnload()
      modifies this
      ensures State() == PluginState(Ring([], -1), None, None)
      ensures killRingMaxSize == old(killRingMaxSize)
      ensures killRingMaxSize >= 1 ==> Valid()
    {
      killRing := [];
      killRingIndex := -1;
      yankPosition := None;
      markPosition := None;
    }

    /** The settings field's `onChange`: `parsed` is `parseInt(value)`, `None`
      * for `NaN`. Only a positive size is taken; a shorter maximum keeps the
      * newest entries and clamps the index. */
    method ChangeKillRingSize(parsed: Option<int>)
      requires Valid()
      modifies this
      ensures Valid()
      ensures yankPosition == old(yankPosition) && markPosition == old(markPosition)
      ensures parsed.None? || parsed.value <= 0 ==> Model() == old(Model()) && killRingMaxSize == old(killRingMaxSize)
      ensures parsed.Some? && parsed.value > 0 ==>
                && killRingMaxSize == parsed.value
                && Model() == old(Model()).Shrink(parsed.value)
    {
      if parsed.Some? && parsed.value > 0 {
        var size := parsed.value;
        killRingMaxSize := size;
        if |killRing| > size {
          killRing := killRing[|killRing| - size..];
          killRingIndex := if killRingIndex < |killRing| - 1 then killRingIndex else |killRing| - 1;
        }
      }
    }
  }
}
