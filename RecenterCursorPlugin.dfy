/**
 * The mode cycler of src/RecenterCursorPlugin.ts, with `recenterEditor`, which asks for a mode only when a CodeMirror view is attached.
 */
module RecenterCursorPlugin {
  import opened Host
  import opened RecenterSpec

  class RecenterCursorPlugin {
    var currentIndex: nat

    ghost predicate Valid()
      reads this
    {
      currentIndex < |Modes|
    }

    constructor()
      ensures Valid() && currentIndex == 0
    {
      currentIndex := 0;
    }

    /** `getNextMode()`: the mode at the index, then the index moves on modulo three. */
    method GetNextMode() returns (mode: Mode)
      requires Valid()
      modifies this
      ensures Valid()
      ensures mode == Modes[old(currentIndex)]
      ensures currentIndex == NextIndex(old(currentIndex))
    {
      mode := Modes[currentIndex];
      currentIndex := (currentIndex + 1) % |Modes|;
    }

    /** `reset()`: back to the first mode; a second reset changes nothing. */
    method Reset()
      requires Valid()
      modifies this
      ensures Valid() && currentIndex == 0
    {
      if currentIndex != 0 {
        currentIndex := 0;
      }
    }

    /** `recenterEditor(editor)`: without a CodeMirror view nothing happens;
      * otherwise the next mode is taken and the cursor line scrolled to it. */
    method RecenterEditor(editor: Editor) returns (scrolled: Option<Mode>)
      requires Valid()
      modifies this
      ensures Valid()
      ensures !editor.hasCodeMirror ==> scrolled.None? && currentIndex == old(currentIndex)
      ensures editor.hasCodeMirror ==> scrolled == Some(Modes[old(currentIndex)])
      ensures editor.hasCodeMirror ==> currentIndex == NextIndex(old(currentIndex))
    {
      if !editor.hasCodeMirror {
        return None;
      }
      var mode := GetNextMode();
      scrolled := Some(mode);
    }
  }

  /** Recentering without a view does not advance; with one the modes run
    * center, start; after two resets the next is center again. */
  method RecenterScenario() returns (seen: seq<Option<Mode>>)
    ensures seen == [None, Some(Center), Some(Start), Some(Center)]
  {
    var cycler := new RecenterCursorPlugin();
    var plain := new Editor([""], Pos(0, 0), "", [Selection(Pos(0, 0), Pos(0, 0))], false);
    var withView := new Editor([""], Pos(0, 0), "", [Selection(Pos(0, 0), Pos(0, 0))], true);
    var a := cycler.RecenterEditor(plain);
    var b := cycler.RecenterEditor(withView);
    var c := cycler.RecenterEditor(withView);
    cycler.Reset();
    cycler.Reset();
    var d := cycler.RecenterEditor(withView);
    seen := [a, b, c, d];
  }
}
