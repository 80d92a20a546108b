/**
 * src/main.ts: the plugin class that owns the kill-and-yank, recenter and
 * multi-cursor components, its twelve key bindings, the hotkeys and command
 * ids derived from them, the key dispatcher, mode-quit, unloading and the
 * kill-ring size setting.
 *
 * What one bound action does to the plugin's state is the pure `ActionStep`
 * over a `Snapshot` of every component's state; the class's methods are
 * proved against it.
 */
module SrcMain {
  import opened Text
  import opened Host
  import opened Keys
  import opened RingSpec
  import opened KillYankSpec
  import opened SizedKillRing
  import opened KillAndYank
  import opened RecenterSpec
  import opened MultiCursorSpec
  import RecenterCursorPlugin
  import MultiCursorPlugin
  import KeyController

  /** `DEFAULT_KILL_RING_SIZE`. */
  const DefaultKillRingSize: nat := 60

  /** What a binding's `action` callback does. */
  datatype Action =
    | ModeQuit | SetMark | KillLine | KillRegion | CopyRegion | Yank | YankPop
    | Recenter | MoveLineUp | MoveLineDown | AddCursorUp | AddCursorDown

  const Ctrl := Modifiers(true, false, false, false)
  const Alt := Modifiers(false, true, false, false)
  const CtrlMeta := Modifiers(true, false, false, true)
  const CtrlShift := Modifiers(true, false, true, false)

  /** `keyBindings` as the constructor builds them, in order, each with the
    * key code `isKeyBindingMatch` looks up in the code map for its lower-cased
    * key: the letters and the space have one; the arrow keys, which the map
    * lists under mixed-case names, have none (`Keys.CapitalisedKeysHaveNoMappedCode`). */
  const Bindings: seq<Binding<Action>> := [
    Binding(KeySpec("g", Some("KeyG"), Ctrl), ModeQuit, "Cancel mark and exit yank mode"),
    Binding(KeySpec(" ", Some("Space"), Ctrl), SetMark, "Set mark"),
    Binding(KeySpec("k", Some("KeyK"), Ctrl), KillLine, "Kill line"),
    Binding(KeySpec("w", Some("KeyW"), Ctrl), KillRegion, "Kill region"),
    Binding(KeySpec("w", Some("KeyW"), Alt), CopyRegion, "Copy region"),
    Binding(KeySpec("y", Some("KeyY"), Ctrl), Yank, "Yank"),
    Binding(KeySpec("y", Some("KeyY"), Alt), YankPop, "Yank pop"),
    Binding(KeySpec("l", Some("KeyL"), Ctrl), Recenter, "Recenter editor"),
    Binding(KeySpec("ArrowUp", None, CtrlMeta), MoveLineUp, "Move line up"),
    Binding(KeySpec("ArrowDown", None, CtrlMeta), MoveLineDown, "Move line down"),
    Binding(KeySpec("ArrowUp", None, CtrlShift), AddCursorUp, "Add cursor up"),
    Binding(KeySpec("ArrowDown", None, CtrlShift), AddCursorDown, "Add cursor down")
  ]

  /** `keybindingToHotkeys(binding)`: one hotkey on the binding's key whose
    * modifier names are "Mod", "Alt", "Shift", "Meta", in that order, for the
    * flags that are set. Ctrl is registered as "Mod". */
  function KeybindingToHotkeys(b: Binding<Action>): (r: seq<Hotkey>)
    ensures |r| == 1 && r[0].key == b.spec.key
    ensures "Mod" in r[0].modifiers <==> b.spec.mods.ctrl
    ensures "Alt" in r[0].modifiers <==> b.spec.mods.alt
    ensures "Shift" in r[0].modifiers <==> b.spec.mods.shift
    ensures "Meta" in r[0].modifiers <==> b.spec.mods.meta
    ensures "Ctrl" !in r[0].modifiers
    ensures |r[0].modifiers| == (if b.spec.mods.ctrl then 1 else 0) + (if b.spec.mods.alt then 1 else 0)
      + (if b.spec.mods.shift then 1 else 0) + (if b.spec.mods.meta then 1 else 0)
  {
    var m := b.spec.mods;
    var names := NameIf(m.ctrl, "Mod") + NameIf(m.alt, "Alt") + NameIf(m.shift, "Shift") + NameIf(m.meta, "Meta");
    [Hotkey(names, b.spec.key)]
  }

  /** One modifier name when its flag is set, none otherwise. */
  function NameIf(flag: bool, name: string): (r: seq<string>)
    ensures |r| <= 1
    ensures forall n :: n in r <==> flag && n == name
  {
    if flag then [name] else []
  }

  /** The command id registered for a binding: "sonkil-" and the lower-cased
    * description with every run of white space turned into one dash. */
  function CommandId(description: string): (id: string)
    ensures id == "sonkil-" + DashWhitespaceRuns(ToLower(description))
    ensures "sonkil-" <= id
    ensures |id| <= 7 + |description|
    ensures forall i :: 7 <= i < |id| ==> !IsJsWhitespace(id[i]) && !('A' <= id[i] <= 'Z')
  {
    var lower := ToLower(description);
    var dashed := DashWhitespaceRuns(lower);
    DashedKeepsLowerCase(lower);
    "sonkil-" + dashed
  }

  /** Two words separated by a run of white space give the id
    * "sonkil-", the first word lower-cased, one dash and the second word
    * lower-cased. */
  lemma CommandIdOfTwoWords(a: string, w: string, b: string)
    requires forall i :: 0 <= i < |a| ==> !IsJsWhitespace(a[i])
    requires |w| > 0 && IsBlank(w)
    requires forall i :: 0 <= i < |b| ==> !IsJsWhitespace(b[i])
    ensures CommandId(a + w + b) == "sonkil-" + ToLower(a) + "-" + ToLower(b)
  {
    var la, lw, lb := ToLower(a), ToLower(w), ToLower(b);
    ToLowerAppend(a + w, b);
    ToLowerAppend(a, w);
    AppendAssoc(la, lw, lb);
    ToLowerKeepsWhitespace(a);
    ToLowerKeepsWhitespace(w);
    ToLowerKeepsWhitespace(b);
    DashWhitespaceRunsSplit(la, lw, lb);
    DashWhitespaceRunsKeepsPlainText(la);
    DashWhitespaceRunsKeepsPlainText(lb);
    AppendAssoc("sonkil-", la, "-" + lb);
    AppendAssoc("sonkil-" + la, "-", lb);
  }

  /** Turning white-space runs into dashes brings in no upper-case letter. */
  lemma {:induction false} DashedKeepsLowerCase(s: string)
    requires forall i :: 0 <= i < |s| ==> !('A' <= s[i] <= 'Z')
    ensures forall i :: 0 <= i < |DashWhitespaceRuns(s)| ==> !('A' <= DashWhitespaceRuns(s)[i] <= 'Z')
    decreases |s|
  {
    if s != [] {
      var rest := if IsJsWhitespace(s[0]) then TrimStart(s) else s[1..];
      assert rest == s[|s| - |rest|..];
      DashedKeepsLowerCase(rest);
      var d := DashWhitespaceRuns(s);
      assert d == (if IsJsWhitespace(s[0]) then "-" else [s[0]]) + DashWhitespaceRuns(rest);
    }
  }

  /** The commands `onload` registers: one per binding, the id prefixed with
    * the plugin id as the host stores it, the description as its name and
    * the binding's hotkeys. */
  function RegisteredCommands(pluginId: string): seq<KeyController.Command>
  {
    seq(|Bindings|, i requires 0 <= i < |Bindings| =>
      KeyController.Command(pluginId + ":" + CommandId(Bindings[i].description), Bindings[i].description,
        Some(KeybindingToHotkeys(Bindings[i]))))
  }

  /** What the host's `addCommand` stores for the hotkeys registered here,
    * read back by src/KeyController.ts, never has the Ctrl flag: the hotkeys
    * name it "Mod" while the controller looks for "Ctrl". So a Ctrl event
    * matches none of the bindings the controller builds from these commands,
    * although ten of the twelve bindings here are Ctrl bindings. */
  lemma ModHotkeysLoseCtrl(pluginId: string, evt: KeyEvent)
    requires evt.mods.ctrl
    ensures forall b :: b in KeyController.BindingsFor(RegisteredCommands(pluginId), pluginId) ==> !b.spec.mods.ctrl
    ensures FirstMatch(KeyController.BindingsFor(RegisteredCommands(pluginId), pluginId), evt).None?
  {
    var cs := RegisteredCommands(pluginId);
    var bs := KeyController.BindingsFor(cs, pluginId);
    KeyController.BindingsAreSonkilHotkeys(cs, pluginId);
    RegisteredCommandsHaveNoCtrl(pluginId);
    forall b | b in bs ensures !b.spec.mods.ctrl {
      assert KeyController.BuiltFrom(b, cs, pluginId);
      var c :| c in cs && c.id == b.action && KeyController.IsSonkilCommand(c.id, pluginId) && c.hotkeys.Some? &&
        exists h :: h in c.hotkeys.value && b == KeyController.HotkeyBinding(c.id, c.name, h);
      var h :| h in c.hotkeys.value && b == KeyController.HotkeyBinding(c.id, c.name, h);
      assert HasNoCtrlHotkeys(c);
    }
    forall j | 0 <= j < |bs| ensures !Matches(evt, bs[j].spec) {
      assert bs[j] in bs;
    }
    FirstMatchIsUnique(bs, evt, |bs|);
  }

  /** A command whose hotkeys are given and none of them names "Ctrl". */
  predicate HasNoCtrlHotkeys(c: KeyController.Command)
  {
    c.hotkeys.Some? && forall h :: h in c.hotkeys.value ==> "Ctrl" !in h.modifiers
  }

  /** The hotkeys registered for the `i`-th binding never name "Ctrl". */
  lemma RegisteredHotkeysHaveNoCtrl(pluginId: string, i: nat)
    requires i < |Bindings|
    ensures HasNoCtrlHotkeys(RegisteredCommands(pluginId)[i])
  {
    RegisteredHotkeysAt(pluginId, i);
    var hs := KeybindingToHotkeys(Bindings[i]);
    assert forall h :: h in hs ==> h == hs[0];
  }

  /** No registered command has a hotkey naming "Ctrl". */
  lemma RegisteredCommandsHaveNoCtrl(pluginId: string)
    ensures forall c :: c in RegisteredCommands(pluginId) ==> HasNoCtrlHotkeys(c)
  {
    var cs := RegisteredCommands(pluginId);
    forall i | 0 <= i < |cs| ensures HasNoCtrlHotkeys(cs[i]) {
      RegisteredHotkeysHaveNoCtrl(pluginId, i);
    }
  }

  /** The `i`-th registered command carries the hotkeys of the `i`-th binding. */
  lemma RegisteredHotkeysAt(pluginId: string, i: nat)
    requires i < |RegisteredCommands(pluginId)|
    ensures i < |Bindings| && RegisteredCommands(pluginId)[i].hotkeys == Some(KeybindingToHotkeys(Bindings[i]))
  {
  }

  /** Every binding needs Ctrl or Alt, so a key pressed without either runs
    * no binding (Escape included) and falls through to the reset rule. */
  lemma UnmodifiedKeysAreUnbound(evt: KeyEvent)
    requires !evt.mods.ctrl && !evt.mods.alt
    ensures FirstMatch(Bindings, evt).None?
  {
    forall j | 0 <= j < |Bindings| ensures !Matches(evt, Bindings[j].spec) {
      assert Bindings[j].spec.mods.ctrl || Bindings[j].spec.mods.alt;
    }
    FirstMatchIsUnique(Bindings, evt, |Bindings|);
  }

  /** Ctrl+Y runs Yank: the sixth binding is the first to match. */
  lemma CtrlYRunsYank()
    ensures FirstMatch(Bindings, KeyEvent("y", "KeyY", Ctrl)) == Some(5)
    ensures Bindings[5].action == Yank
  {
    var evt := KeyEvent("y", "KeyY", Ctrl);
    forall j | 0 <= j < 5 ensures !Matches(evt, Bindings[j].spec) {
      assert Bindings[j].spec.code.Some? && Bindings[j].spec.code.value != "KeyY";
    }
    assert ToLower("y") == "y";
    FirstMatchIsUnique(Bindings, evt, 5);
  }

  /** Alt+Y runs Yank pop: the seventh binding is the first to match. */
  lemma AltYRunsYankPop()
    ensures FirstMatch(Bindings, KeyEvent("y", "KeyY", Alt)) == Some(6)
    ensures Bindings[6].action == YankPop
  {
    var evt := KeyEvent("y", "KeyY", Alt);
    forall j | 0 <= j < 6 ensures !Matches(evt, Bindings[j].spec) {
      if j == 4 {
        assert Bindings[j].spec.code.value != "KeyY" && ToLower("w") == "w";
      } else {
        assert Bindings[j].spec.mods.ctrl;
      }
    }
    assert ToLower("y") == "y";
    FirstMatchIsUnique(Bindings, evt, 6);
  }

  /** The state of every component one action can touch: the kill ring and
    * its capacity, the mark and yank positions, the clipboard, the recenter
    * index and the multi-cursor main position. */
  datatype Snapshot = Snapshot(
    ring: Ring, cap: nat, mark: Option<Pos>, yank: Option<Pos>,
    clip: ClipState, recenter: nat, main: Option<Pos>)
  {
    ghost predicate Valid()
    {
      cap >= 1 && ring.Valid(cap) && recenter < |Modes|
    }
  }

  /** What an action reads from the editor. */
  datatype View = View(lines: seq<string>, cursor: Pos, selection: string, selections: seq<Selection>, hasCodeMirror: bool)
  {
    ghost predicate Valid()
    {
      |lines| > 0 && cursor.line < |lines| && |selections| > 0
    }
  }

  function ViewOf(editor: Editor): View
  {
    View(editor.lines, editor.cursor, editor.selection, editor.selections, editor.hasCodeMirror)
  }

  /** A yank from `yank` (`None` for a fresh sequence). */
  function YankFrom(s: Snapshot, yank: Option<Pos>, v: View, writable: bool): (r: (Snapshot, seq<Edit>))
    requires s.Valid()
  {
    var y := YankStep(s.ring, s.cap, yank, v.cursor, s.clip.text);
    (s.(ring := y.ring, yank := y.yank, clip := AfterWrite(s.clip, writable, y.pulled)), y.edits)
  }

  /** `addCursor(editor, d)` on the snapshot. */
  function CursorStep(s: Snapshot, d: Direction, v: View): (r: (Snapshot, seq<Edit>))
    requires v.Valid()
  {
    var t := TargetLine(v.selections, d, |v.lines|);
    if t.None? then (s, [])
    else
      var main := if s.main.None? then v.cursor else s.main.value;
      (s.(main := Some(main)), [SetSelections(v.selections + [NewCursor(main, v.lines, t.value)])])
  }

  /** What running action `a` does: the new snapshot and the editor requests
    * it sends, with `writable` telling whether clipboard writes succeed. */
  function ActionStep(s: Snapshot, a: Action, v: View, writable: bool): (r: (Snapshot, seq<Edit>))
    requires s.Valid() && v.Valid()
    ensures r.0.Valid() && r.0.cap == s.cap
    // only the kill, copy and yank actions touch the ring and the clipboard
    ensures a !in {KillLine, KillRegion, CopyRegion, Yank, YankPop} ==> r.0.ring == s.ring && r.0.clip == s.clip
    // only mode-quit, set-mark and the region actions touch the mark
    ensures a !in {ModeQuit, SetMark, KillRegion, CopyRegion} ==> r.0.mark == s.mark
    // only mode-quit and the yanks touch the yank position
    ensures a !in {ModeQuit, Yank, YankPop} ==> r.0.yank == s.yank
    // only mode-quit and recenter touch the recenter index
    ensures a !in {ModeQuit, Recenter} ==> r.0.recenter == s.recenter
    // only mode-quit and the cursor additions touch the main position
    ensures a !in {ModeQuit, AddCursorUp, AddCursorDown} ==> r.0.main == s.main
    ensures a in {SetMark, CopyRegion, Recenter} ==> r.1 == []
    ensures a == ModeQuit ==>
      && r.0.mark.None? && r.0.yank.None? && r.0.recenter == 0 && r.0.main.None?
      && r.1 == (if s.main.Some? then [SetCursor(s.main.value)] else [])
    ensures a == SetMark ==> r.0.mark == Some(v.cursor)
    ensures a in {KillRegion, CopyRegion} ==> r.0.mark.None?
    // a yank starts a new sequence at the cursor; on a non-empty ring it does not rotate
    ensures a == Yank ==> r.0.yank == Some(v.cursor)
    ensures a == Yank && s.ring.items != [] ==> r.0.ring == s.ring && r.0.clip == s.clip
    // a yank-pop inside a sequence rotates the ring back one and keeps the anchor
    ensures a == YankPop && s.yank.Some? && s.ring.items != [] ==> r.0.ring == s.ring.Rotate() && r.0.yank == s.yank
    ensures a == Recenter ==> r.0.recenter == if v.hasCodeMirror then NextIndex(s.recenter) else s.recenter
    ensures a == MoveLineUp ==> r.0 == s && r.1 == [Exec("swapLineUp")]
    ensures a == MoveLineDown ==> r.0 == s && r.1 == [Exec("swapLineDown")]
  {
    match a
    case ModeQuit =>
      (s.(mark := None, yank := None, recenter := 0, main := None), if s.main.Some? then [SetCursor(s.main.value)] else [])
    case SetMark => (s.(mark := Some(v.cursor)), [])
    case KillLine =>
      var k := KillLinePlan(v.lines[v.cursor.line], v.cursor);
      (s.(ring := s.ring.AddSome(k.killed, s.cap), clip := AfterWrite(s.clip, writable, k.killed)), [ReplaceRange("", k.from, k.to)])
    case KillRegion =>
      var g := KillRegionStep(v.lines, s.mark, v.cursor, v.selection);
      (s.(ring := s.ring.AddSome(g.pushed, s.cap), clip := AfterWrite(s.clip, writable, g.pushed), mark := g.mark), g.edits)
    case CopyRegion =>
      var g := CopyRegionStep(v.lines, s.mark, v.cursor, v.selection);
      (s.(ring := s.ring.AddSome(g.pushed, s.cap), clip := AfterWrite(s.clip, writable, g.pushed), mark := g.mark), [])
    case Yank => YankFrom(s, None, v, writable)
    case YankPop => YankFrom(s, s.yank, v, writable)
    case Recenter => (if v.hasCodeMirror then s.(recenter := NextIndex(s.recenter)) else s, [])
    case MoveLineUp => (s, [Exec("swapLineUp")])
    case MoveLineDown => (s, [Exec("swapLineDown")])
    case AddCursorUp => CursorStep(s, Up, v)
    case AddCursorDown => CursorStep(s, Down, v)
  }

  /** The Yank binding forgets the yank position first, so it behaves like a
    * yank-pop that starts a new sequence, whatever position was recorded. */
  lemma YankIsFreshYankPop(s: Snapshot, v: View, writable: bool)
    requires s.Valid() && v.Valid()
    ensures ActionStep(s, Yank, v, writable) == ActionStep(s.(yank := None), YankPop, v, writable)
  {
  }

  /** Mode-quit twice in a row does nothing more than once. */
  lemma ModeQuitIdempotent(s: Snapshot, v: View, writable: bool)
    requires s.Valid() && v.Valid()
    ensures ActionStep(ActionStep(s, ModeQuit, v, writable).0, ModeQuit, v, writable).0 == ActionStep(s, ModeQuit, v, writable).0
    ensures ActionStep(ActionStep(s, ModeQuit, v, writable).0, ModeQuit, v, writable).1 == []
  {
  }

  class SonkilPlugin {
    var killAndYankPlugin: KillAndYankPlugin
    const recenterPlugin: RecenterCursorPlugin.RecenterCursorPlugin
    const multiCursorPlugin: MultiCursorPlugin.MultiCursorPlugin
    /** `config.killRingMaxSize`. */
    var killRingMaxSize: int

    ghost predicate Valid()
      reads this, killAndYankPlugin, killAndYankPlugin.killRing, recenterPlugin
    {
      killAndYankPlugin.Valid() && recenterPlugin.Valid()
    }

    function State(): Snapshot
      reads this, killAndYankPlugin, killAndYankPlugin.killRing, killAndYankPlugin.killRing.clipboard
      reads recenterPlugin, multiCursorPlugin
    {
      Snapshot(killAndYankPlugin.killRing.Model(), killAndYankPlugin.killRing.maxSize,
        killAndYankPlugin.mark, killAndYankPlugin.yank, killAndYankPlugin.killRing.clipboard.State(),
        recenterPlugin.currentIndex, multiCursorPlugin.mainPosition)
    }

    /** Whether clipboard writes succeed. */
    function Writable(): bool
      reads this, killAndYankPlugin, killAndYankPlugin.killRing
    {
      killAndYankPlugin.killRing.clipboard.writable
    }

    /** The constructor: default configuration and fresh, empty components. */
    constructor(clipboard: Clipboard)
      ensures Valid() && State().Valid()
      ensures killRingMaxSize == DefaultKillRingSize
      ensures State() == Snapshot(Ring([], -1), DefaultKillRingSize, None, None, clipboard.State(), 0, None)
      ensures killAndYankPlugin.killRing.clipboard == clipboard
    {
      killRingMaxSize := DefaultKillRingSize;
      killAndYankPlugin := new KillAndYankPlugin(DefaultKillRingSize, clipboard);
      recenterPlugin := new RecenterCursorPlugin.RecenterCursorPlugin();
      multiCursorPlugin := new MultiCursorPlugin.MultiCursorPlugin();
    }

    /** `loadConfig()` with the stored data read in: `None` when nothing is
      * stored, and a stored size of 0 standing for any falsy value. A stored
      * size replaces the configured one (0 falls back to the default), and a
      * new, empty kill-and-yank component of the configured size replaces the
      * old one on the same clipboard. */
    method LoadConfig(loaded: Option<int>)
      requires Valid()
      requires loaded.Some? ==> loaded.value >= 0
      requires loaded.None? ==> killRingMaxSize >= 1
      modifies this
      ensures Valid() && fresh(killAndYankPlugin)
      ensures killRingMaxSize == match loaded
        case None => old(killRingMaxSize)
        case Some(n) => if n != 0 then n else DefaultKillRingSize
      ensures killRingMaxSize >= 1
      ensures State() == old(State()).(ring := Ring([], -1), cap := killRingMaxSize, mark := None, yank := None)
    {
      if loaded.Some? {
        killRingMaxSize := if loaded.value != 0 then loaded.value else DefaultKillRingSize;
      }
      killAndYankPlugin := new KillAndYankPlugin(killRingMaxSize, killAndYankPlugin.killRing.clipboard);
    }

    /** `modeQuit(editor)`: both positions and the recenter index reset, and
      * any multi-cursor session ended by sending the cursor back. */
    method ModeQuit(editor: Editor)
      requires Valid() && editor.Valid()
      modifies killAndYankPlugin, recenterPlugin, multiCursorPlugin, editor
      ensures Valid()
      ensures var r := ActionStep(old(State()), Action.ModeQuit, ViewOf(editor), Writable());
        State() == r.0 && editor.edits == old(editor.edits) + r.1
    {
      killAndYankPlugin.Reset();
      recenterPlugin.Reset();
      multiCursorPlugin.ResetMultiCursors(editor);
    }

    /** A binding's `action(editor)`: what `ActionStep` says, always answering
      * true. The Yank binding forgets the yank position before yanking;
      * Yank pop does not. */
    method RunAction(a: Action, editor: Editor) returns (result: bool)
      requires Valid() && editor.Valid()
      modifies killAndYankPlugin, killAndYankPlugin.killRing, killAndYankPlugin.killRing.clipboard
      modifies recenterPlugin, multiCursorPlugin, editor
      ensures Valid() && result
      ensures var r := ActionStep(old(State()), a, ViewOf(editor), Writable());
        State() == r.0 && editor.edits == old(editor.edits) + r.1
    {
      result := true;
      if a == KillLine {
        RunKillLine(editor);
      } else if a in {KillRegion, CopyRegion} {
        RunRegionAction(a, editor);
      } else if a in {Yank, YankPop} {
        RunYankAction(a, editor);
      } else {
        RunOtherAction(a, editor);
      }
    }

    /** Kill line. */
    method RunKillLine(editor: Editor)
      requires Valid() && editor.Valid()
      modifies killAndYankPlugin.killRing, killAndYankPlugin.killRing.clipboard, editor
      ensures Valid()
      ensures var r := ActionStep(old(State()), KillLine, ViewOf(editor), Writable());
        State() == r.0 && editor.edits == old(editor.edits) + r.1
    {
      ghost var s, v, w := State(), ViewOf(editor), Writable();
      ghost var k := KillLinePlan(v.lines[v.cursor.line], v.cursor);
      killAndYankPlugin.KillLine(editor);
      assert State() == s.(ring := s.ring.AddSome(k.killed, s.cap), clip := AfterWrite(s.clip, w, k.killed));
    }

    /** Kill region and copy region. */
    method RunRegionAction(a: Action, editor: Editor)
      requires Valid() && editor.Valid()
      requires a == KillRegion || a == CopyRegion
      modifies killAndYankPlugin, killAndYankPlugin.killRing, killAndYankPlugin.killRing.clipboard, editor
      ensures Valid()
      ensures var r := ActionStep(old(State()), a, ViewOf(editor), Writable());
        State() == r.0 && editor.edits == old(editor.edits) + r.1
    {
      ghost var s, v, w := State(), ViewOf(editor), Writable();
      if a == KillRegion {
        ghost var g := KillRegionStep(v.lines, s.mark, v.cursor, v.selection);
        assert ActionStep(s, a, v, w) == (s.(ring := s.ring.AddSome(g.pushed, s.cap), clip := AfterWrite(s.clip, w, g.pushed), mark := g.mark), g.edits);
        killAndYankPlugin.KillRegion(editor);
      } else {
        ghost var g := CopyRegionStep(v.lines, s.mark, v.cursor, v.selection);
        assert ActionStep(s, a, v, w) == (s.(ring := s.ring.AddSome(g.pushed, s.cap), clip := AfterWrite(s.clip, w, g.pushed), mark := g.mark), []);
        killAndYankPlugin.CopyRegion(editor);
      }
    }

    /** Yank forgets the yank position and yanks; Yank pop yanks. */
    method RunYankAction(a: Action, editor: Editor)
      requires Valid() && editor.Valid()
      requires a == Yank || a == YankPop
      modifies killAndYankPlugin, killAndYankPlugin.killRing, killAndYankPlugin.killRing.clipboard, editor
      ensures Valid()
      ensures var r := ActionStep(old(State()), a, ViewOf(editor), Writable());
        State() == r.0 && editor.edits == old(editor.edits) + r.1
    {
      ghost var s, v, w := State(), ViewOf(editor), Writable();
      ghost var anchor := if a == Yank then None else s.yank;
      assert ActionStep(s, a, v, w) == YankFrom(s, anchor, v, w);
      if a == Yank {
        killAndYankPlugin.ResetYankPosition();
      }
      assert killAndYankPlugin.yank == anchor;
      killAndYankPlugin.Yank(editor);
      ghost var y := YankStep(s.ring, s.cap, anchor, v.cursor, s.clip.text);
      assert killAndYankPlugin.killRing.Model() == y.ring && killAndYankPlugin.yank == y.yank;
      assert killAndYankPlugin.killRing.clipboard.State() == AfterWrite(s.clip, w, y.pulled);
    }

    /** Mode-quit, set-mark and the actions that act on the view:
      * recentering, moving lines and adding cursors. */
    method RunOtherAction(a: Action, editor: Editor)
      requires Valid() && editor.Valid()
      requires a !in {KillLine, KillRegion, CopyRegion, Yank, YankPop}
      modifies killAndYankPlugin, recenterPlugin, multiCursorPlugin, editor
      ensures Valid()
      ensures var r := ActionStep(old(State()), a, ViewOf(editor), Writable());
        State() == r.0 && editor.edits == old(editor.edits) + r.1
    {
      match a
      case ModeQuit => ModeQuit(editor);
      case SetMark => killAndYankPlugin.SetMark(editor);
      case Recenter => var _ := recenterPlugin.RecenterEditor(editor);
      case MoveLineUp => editor.RequestExec("swapLineUp");
      case MoveLineDown => editor.RequestExec("swapLineDown");
      case AddCursorUp => multiCursorPlugin.AddCursor(editor, Up);
      case AddCursorDown => multiCursorPlugin.AddCursor(editor, Down);
    }

    /** `handleKeyEvent(evt)` with `hasView` telling whether a Markdown view
      * is active. With Ctrl, Alt or Escape the first matching binding runs
      * and its answer is returned; otherwise any key but a bare Control or
      * Alt forgets the yank position and resets the recenter cycle. */
    method HandleKeyEvent(evt: KeyEvent, hasView: bool, editor: Editor) returns (handled: bool, ran: Option<Action>)
      requires Valid() && editor.Valid()
      modifies killAndYankPlugin, killAndYankPlugin.killRing, killAndYankPlugin.killRing.clipboard
      modifies recenterPlugin, multiCursorPlugin, editor
      ensures Valid()
      ensures ran == if hasView && TriggersDispatch(evt) && FirstMatch(Bindings, evt).Some?
                     then Some(Bindings[FirstMatch(Bindings, evt).value].action) else None
      ensures handled <==> ran.Some?
      ensures ran.Some? ==>
                var r := ActionStep(old(State()), ran.value, ViewOf(editor), Writable());
                State() == r.0 && editor.edits == old(editor.edits) + r.1
      ensures ran.None? && hasView && !IsModifierKey(evt) ==>
                State() == old(State()).(yank := None, recenter := 0) && editor.edits == old(editor.edits)
      ensures ran.None? && (!hasView || IsModifierKey(evt)) ==>
                State() == old(State()) && editor.edits == old(editor.edits)
    {
      if !hasView {
        return false, None;
      }
      if TriggersDispatch(evt) {
        var i := FindFirst(Bindings, evt);
        if i.Some? {
          var action := Bindings[i.value].action;
          handled := RunAction(action, editor);
          return handled, Some(action);
        }
      }
      if !IsModifierKey(evt) {
        killAndYankPlugin.ResetYankPosition();
        recenterPlugin.Reset();
      }
      return false, None;
    }

    /** `onunload()` with `hasView` telling whether a Markdown view is active:
      * both positions, the recenter cycle and the main cursor position are
      * reset. The main position is forgotten before `resetMultiCursors` runs,
      * so unloading never sends the cursor back. */
    method OnUnload(hasView: bool, editor: Editor)
      requires Valid()
      modifies killAndYankPlugin, recenterPlugin, multiCursorPlugin, editor
      ensures Valid()
      ensures State() == old(State()).(mark := None, yank := None, recenter := 0, main := None)
      ensures editor.edits == old(editor.edits)
    {
      killAndYankPlugin.Reset();
      recenterPlugin.Reset();
      multiCursorPlugin.Reset();
      if hasView {
        multiCursorPlugin.ResetMultiCursors(editor);
      }
    }

    /** `setKillRingMaxSize(size)`: the configured size is stored first, even
      * when the ring then refuses it; an accepted size shrinks the ring. */
    method SetKillRingMaxSize(size: int) returns (outcome: SizeOutcome)
      requires Valid()
      modifies this, killAndYankPlugin.killRing
      ensures Valid() && killAndYankPlugin == old(killAndYankPlugin)
      ensures killRingMaxSize == size
      ensures outcome == SizeTooSmall <==> size < 1
      ensures size < 1 ==> State() == old(State())
      ensures size >= 1 ==> State() == old(State()).(ring := old(State()).ring.Shrink(size), cap := size)
    {
      killRingMaxSize := size;
      outcome := killAndYankPlugin.SetKillRingMaxSize(size);
    }

    /** The setting's `onChange` with the text already run through `parseInt`
      * (`None` for NaN): only a positive size is passed on. */
    method OnSettingChange(parsed: Option<int>)
      requires Valid()
      modifies this, killAndYankPlugin.killRing
      ensures Valid() && killAndYankPlugin == old(killAndYankPlugin)
      ensures parsed.Some? && parsed.value > 0 ==>
        && killRingMaxSize == parsed.value
        && State() == old(State()).(ring := old(State()).ring.Shrink(parsed.value), cap := parsed.value)
      ensures !(parsed.Some? && parsed.value > 0) ==> killRingMaxSize == old(killRingMaxSize) && State() == old(State())
    {
      if parsed.Some? && parsed.value > 0 {
        var _ := SetKillRingMaxSize(parsed.value);
      }
    }
  }
}
