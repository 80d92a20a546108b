/**
 * src/KeyController.ts: key bindings read back from the hotkeys of the
 * plugin's registered commands, and a key handler that executes the first
 * matching command or, for any other key, the mode-quit command.
 */
module KeyController {
  import opened Host
  import opened Keys

  /** One entry of the command registry: its id, name and optional hotkeys. */
  datatype Command = Command(id: string, name: string, hotkeys: Option<seq<Hotkey>>)

  /** The part of the host application the controller uses: the registered
    * commands, in registry order, and a log of `executeCommandById` calls. */
  class Commands {
    const entries: seq<Command>
    var executed: seq<string>

    constructor(entries: seq<Command>)
      ensures this.entries == entries && executed == []
    {
      this.entries := entries;
      executed := [];
    }

    method ExecuteCommandById(id: string)
      modifies this
      ensures executed == old(executed) + [id]
    {
      executed := executed + [id];
    }
  }

  /** The modifier flags read from a hotkey: each is set exactly when its
    * name ("Ctrl", "Alt", "Shift", "Meta") is in the modifier list. */
  function HotkeyModifiers(h: Hotkey): Modifiers
  {
    Modifiers("Ctrl" in h.modifiers, "Alt" in h.modifiers, "Shift" in h.modifiers, "Meta" in h.modifiers)
  }

  /** `id.startsWith(`${pluginId}:sonkil-`)`. */
  predicate IsSonkilCommand(id: string, pluginId: string)
  {
    pluginId + ":sonkil-" <= id
  }

  /** The binding pushed for one hotkey of command `id`. */
  function HotkeyBinding(id: string, name: string, h: Hotkey): Binding<string>
  {
    Binding(MappedSpec(h.key, HotkeyModifiers(h)), id, name)
  }

  /** The bindings pushed for the hotkeys `hs` of command `id`, in order. */
  function HotkeyBindings(id: string, name: string, hs: seq<Hotkey>): (r: seq<Binding<string>>)
    ensures |r| == |hs|
    ensures forall i :: 0 <= i < |hs| ==> r[i] == HotkeyBinding(id, name, hs[i])
  {
    if hs == [] then [] else HotkeyBindings(id, name, hs[..|hs| - 1]) + [HotkeyBinding(id, name, hs[|hs| - 1])]
  }

  /** The bindings one registry entry contributes: one per hotkey, and none
    * unless it is one of this plugin's sonkil commands with hotkeys. */
  function CommandBindings(c: Command, pluginId: string): (r: seq<Binding<string>>)
    ensures r != [] ==> IsSonkilCommand(c.id, pluginId) && c.hotkeys.Some?
    ensures c.hotkeys.Some? && IsSonkilCommand(c.id, pluginId) ==> r == HotkeyBindings(c.id, c.name, c.hotkeys.value)
  {
    if IsSonkilCommand(c.id, pluginId) && c.hotkeys.Some? && |c.hotkeys.value| > 0
    then HotkeyBindings(c.id, c.name, c.hotkeys.value)
    else []
  }

  /** All bindings `initializeKeyBindings` pushes for `entries`, in order. */
  function BindingsFor(entries: seq<Command>, pluginId: string): seq<Binding<string>>
  {
    if entries == [] then []
    else BindingsFor(entries[..|entries| - 1], pluginId) + CommandBindings(entries[|entries| - 1], pluginId)
  }

  /** `b` executes command `c` of `entries`, one of this plugin's sonkil
    * commands, and was built from one of `c`'s hotkeys. */
  ghost predicate BuiltFrom(b: Binding<string>, entries: seq<Command>, pluginId: string)
  {
    exists c :: c in entries && c.id == b.action && IsSonkilCommand(c.id, pluginId) && c.hotkeys.Some? &&
      exists h :: h in c.hotkeys.value && b == HotkeyBinding(c.id, c.name, h)
  }

  /** One more registry entry adds exactly that entry's bindings at the end. */
  lemma BindingsForStep(entries: seq<Command>, n: nat, pluginId: string)
    requires n < |entries|
    ensures BindingsFor(entries[..n + 1], pluginId) == BindingsFor(entries[..n], pluginId) + CommandBindings(entries[n], pluginId)
  {
    assert entries[..n + 1][..n] == entries[..n];
  }

  /** Every binding executes one of this plugin's sonkil commands, and is
    * built from one of that command's hotkeys. */
  lemma {:induction false} BindingsAreSonkilHotkeys(entries: seq<Command>, pluginId: string)
    ensures forall b :: b in BindingsFor(entries, pluginId) ==> BuiltFrom(b, entries, pluginId)
    decreases |entries|
  {
    if entries != [] {
      var init, last := entries[..|entries| - 1], entries[|entries| - 1];
      BindingsAreSonkilHotkeys(init, pluginId);
      forall b | b in BindingsFor(entries, pluginId)
        ensures BuiltFrom(b, entries, pluginId)
      {
        if b in BindingsFor(init, pluginId) {
          assert BuiltFrom(b, init, pluginId);
          var c :| c in init && c.id == b.action && IsSonkilCommand(c.id, pluginId) && c.hotkeys.Some? &&
            exists h :: h in c.hotkeys.value && b == HotkeyBinding(c.id, c.name, h);
          assert c in entries;
        } else {
          var bs := CommandBindings(last, pluginId);
          assert b in bs;
          var i :| 0 <= i < |bs| && bs[i] == b;
          assert last.hotkeys.value[i] in last.hotkeys.value;
          assert last in entries;
        }
      }
    }
  }

  class KeyController {
    var keyBindings: seq<Binding<string>>
    const app: Commands
    /** `plugin.manifest.id`. */
    const pluginId: string

    /** The constructor reads the bindings once from the registry. */
    constructor(app: Commands, pluginId: string)
      ensures this.app == app && this.pluginId == pluginId
      ensures keyBindings == BindingsFor(app.entries, pluginId)
    {
      this.app := app;
      this.pluginId := pluginId;
      keyBindings := [];
      new;
      InitializeKeyBindings();
    }

    /** `initializeKeyBindings()`: for each registry entry in order, and each
      * of its hotkeys in order, push a binding. */
    method InitializeKeyBindings()
      modifies this
      ensures keyBindings == old(keyBindings) + BindingsFor(app.entries, pluginId)
    {
      var entries := app.entries;
      var n := 0;
      ghost var pushed: seq<Binding<string>> := [];
      while n < |entries|
        invariant 0 <= n <= |entries|
        invariant pushed == BindingsFor(entries[..n], pluginId)
        invariant keyBindings == old(keyBindings) + pushed
      {
        var c := entries[n];
        BindingsForStep(entries, n, pluginId);
        ghost var added := CommandBindings(c, pluginId);
        if IsSonkilCommand(c.id, pluginId) && c.hotkeys.Some? && |c.hotkeys.value| > 0 {
          PushHotkeyBindings(c.id, c.name, c.hotkeys.value);
          assert keyBindings == (old(keyBindings) + pushed) + added;
        } else {
          assert added == [];
        }
        AppendAssoc(old(keyBindings), pushed, added);
        pushed := pushed + added;
        n := n + 1;
      }
      assert entries[..n] == entries;
    }

    /** `command.hotkeys.forEach(hotkey => keyBindings.push(...))`. */
    method PushHotkeyBindings(id: string, name: string, hotkeys: seq<Hotkey>)
      modifies this
      ensures keyBindings == old(keyBindings) + HotkeyBindings(id, name, hotkeys)
    {
      var k := 0;
      while k < |hotkeys|
        invariant 0 <= k <= |hotkeys|
        invariant keyBindings == old(keyBindings) + HotkeyBindings(id, name, hotkeys[..k])
      {
        assert hotkeys[..k + 1][..k] == hotkeys[..k];
        keyBindings := keyBindings + [HotkeyBinding(id, name, hotkeys[k])];
        k := k + 1;
      }
      assert hotkeys[..k] == hotkeys;
    }

    /** `handleKeyEvent(evt)`: with no active view, or inside an inline title,
      * nothing runs. With Ctrl, Alt or Escape the first matching binding's
      * command runs once and the event is handled. Otherwise any key but a
      * bare Control or Alt runs the mode-quit command once. */
    method HandleKeyEvent(evt: KeyEvent, hasView: bool, inInlineTitle: bool) returns (handled: bool)
      modifies app
      ensures !hasView || inInlineTitle ==> !handled && app.executed == old(app.executed)
      ensures hasView && !inInlineTitle && TriggersDispatch(evt) && FirstMatch(keyBindings, evt).Some? ==>
        handled && app.executed == old(app.executed) + [keyBindings[FirstMatch(keyBindings, evt).value].action]
      ensures hasView && !inInlineTitle && (!TriggersDispatch(evt) || FirstMatch(keyBindings, evt).None?) ==>
        && !handled
        && app.executed == old(app.executed) + (if IsModifierKey(evt) then [] else ["sonkil-mode-quit"])
    {
      if !hasView {
        return false;
      }
      if inInlineTitle {
        return false;
      }
      if TriggersDispatch(evt) {
        var i := FindFirst(keyBindings, evt);
        if i.Some? {
          app.ExecuteCommandById(keyBindings[i.value].action);
          return true;
        }
      }
      if !IsModifierKey(evt) {
        app.ExecuteCommandById("sonkil-mode-quit");
      }
      return false;
    }
  }
}
