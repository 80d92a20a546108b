/**
 * Key events, key bindings and the matching rule shared by every dispatcher
 * (main.js, main.ts, src/main.ts and src/KeyController.ts): a binding
 * matches an event when its four modifier flags equal the event's and the
 * key agrees, either by physical key code or by case-insensitive key name;
 * the first matching binding in list order wins.
 */
module Keys {
  import opened Text
  import opened Host

  /** `ModifierKey`: all four flags are mandatory booleans. */
  datatype Modifiers = Modifiers(ctrl: bool, alt: bool, shift: bool, meta: bool)

  /** The parts of a `KeyboardEvent` the plugin looks at. */
  datatype KeyEvent = KeyEvent(key: string, code: string, mods: Modifiers)

  /** What a binding is matched on: its key name, the key code it expects
    * (`None` when it has none) and its modifier flags. */
  datatype KeySpec = KeySpec(key: string, code: Option<string>, mods: Modifiers)

  /** An Obsidian `Hotkey`: modifier names and a key. */
  datatype Hotkey = Hotkey(modifiers: seq<string>, key: string)

  /** A binding with what it does when it wins. */
  datatype Binding<A> = Binding(spec: KeySpec, action: A, description: string)

  /** `KeyToCodeMap[k]` of src/main.ts and src/KeyController.ts, `None` for
    * `undefined`: the space, six letters and the two arrow keys under their
    * mixed-case names. */
  function KeyToCode(k: string): Option<string>
  {
    if k == " " then Some("Space")
    else if k == "g" then Some("KeyG")
    else if k == "k" then Some("KeyK")
    else if k == "w" then Some("KeyW")
    else if k == "y" then Some("KeyY")
    else if k == "l" then Some("KeyL")
    else if k == "ArrowUp" then Some("ArrowUp")
    else if k == "ArrowDown" then Some("ArrowDown")
    else None
  }

  /** A binding without a code field, as src/main.ts and src/KeyController.ts
    * hold them: the code is looked up from the lower-cased key. */
  function MappedSpec(key: string, mods: Modifiers): KeySpec
  {
    KeySpec(key, KeyToCode(ToLower(key)), mods)
  }

  /** `isKeyBindingMatch(evt, binding)`. */
  predicate Matches(evt: KeyEvent, s: KeySpec)
  {
    (s.code == Some(evt.code) || ToLower(evt.key) == ToLower(s.key)) && evt.mods == s.mods
  }

  /** Whatever its key, an event never matches a binding whose modifier
    * flags differ from its own; with equal flags, the binding's own key
    * name in any ASCII letter case matches. */
  lemma MatchNeedsExactModifiers(evt: KeyEvent, s: KeySpec)
    ensures evt.mods != s.mods ==> !Matches(evt, s)
    ensures evt.mods == s.mods && ToLower(evt.key) == ToLower(s.key) ==> Matches(evt, s)
  {
  }

  /** A binding of src/main.ts whose lower-cased key is in the code map also
    * matches on the physical key alone, whatever key name the layout reports. */
  lemma MappedBindingMatchesByCode(key: string, mods: Modifiers, evt: KeyEvent)
    requires KeyToCode(ToLower(key)).Some? && evt.code == KeyToCode(ToLower(key)).value && evt.mods == mods
    ensures Matches(evt, MappedSpec(key, mods))
  {
  }

  /** The map's multi-character keys ("ArrowUp", "ArrowDown") start with a
    * capital, and lower-casing removes it: a key name of two or more
    * characters that starts with a capital, such as the arrow keys, gets no
    * code and matches by its key name only. */
  lemma CapitalisedKeysHaveNoMappedCode(key: string, mods: Modifiers)
    requires |key| >= 2 && 'A' <= key[0] <= 'Z'
    ensures MappedSpec(key, mods).code.None?
  {
    var lower := ToLower(key);
    assert |lower| >= 2 && 'a' <= lower[0] <= 'z';
    assert lower != "ArrowUp" && lower != "ArrowDown" by {
      assert "ArrowUp"[0] == 'A' && "ArrowDown"[0] == 'A';
    }
  }

  /** The index of the first binding that matches, in list order. */
  function FirstMatch<A>(bindings: seq<Binding<A>>, evt: KeyEvent): (r: Option<nat>)
    ensures r.Some? ==> r.value < |bindings| && Matches(evt, bindings[r.value].spec)
    ensures r.Some? ==> forall j :: 0 <= j < r.value ==> !Matches(evt, bindings[j].spec)
    ensures r.None? ==> forall j :: 0 <= j < |bindings| ==> !Matches(evt, bindings[j].spec)
    decreases |bindings|
  {
    if bindings == [] then None
    else if Matches(evt, bindings[0].spec) then Some(0)
    else match FirstMatch(bindings[1..], evt)
      case None => None
      case Some(i) => Some(i + 1)
  }

  /** The `for (const binding of keyBindings)` scan: stop at the first match. */
  method FindFirst<A>(bindings: seq<Binding<A>>, evt: KeyEvent) returns (r: Option<nat>)
    ensures r == FirstMatch(bindings, evt)
  {
    var i := 0;
    while i < |bindings|
      invariant 0 <= i <= |bindings|
      invariant forall j :: 0 <= j < i ==> !Matches(evt, bindings[j].spec)
    {
      if Matches(evt, bindings[i].spec) {
        FirstMatchIsUnique(bindings, evt, i);
        return Some(i);
      }
      i := i + 1;
    }
    FirstMatchIsUnique(bindings, evt, |bindings|);
    return None;
  }

  /** The first match is determined by its two defining facts: `i` matches
    * (or is the end of the list) and nothing before `i` does. */
  lemma {:induction false} FirstMatchIsUnique<A>(bindings: seq<Binding<A>>, evt: KeyEvent, i: nat)
    requires i <= |bindings|
    requires forall j :: 0 <= j < i ==> !Matches(evt, bindings[j].spec)
    requires i < |bindings| ==> Matches(evt, bindings[i].spec)
    ensures FirstMatch(bindings, evt) == if i < |bindings| then Some(i) else None
    decreases i
  {
    if i > 0 {
      assert !Matches(evt, bindings[0].spec);
      FirstMatchIsUnique(bindings[1..], evt, i - 1);
    }
  }

  /** Dispatch is attempted only with Ctrl or Alt held, or for Escape. */
  predicate TriggersDispatch(evt: KeyEvent)
  {
    evt.mods.ctrl || evt.mods.alt || evt.key == "Escape"
  }

  /** `['Control', 'Alt'].includes(evt.key)`: a bare modifier press. */
  predicate IsModifierKey(evt: KeyEvent)
  {
    evt.key == "Control" || evt.key == "Alt"
  }
}
