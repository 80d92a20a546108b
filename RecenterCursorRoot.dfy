/**
 * The mode cycler of the top-level RecenterCursorPlugin.ts, also bundled into main.js (lines 74-89).
 */
module RecenterCursorRoot {
  import opened RecenterSpec

  class RecenterCursorPlugin {
    var currentIndex: nat

    ghost predicate Valid()
      reads this
    {
      currentIndex < |Modes|
    }

    constructor()
      ensures Valid() && currentIndex == 0
    {
      currentIndex := 0;
    }

    /** `getNextMode()`: the mode at the index, then the index moves on modulo three. */
    method GetNextMode() returns (mode: Mode)
      requires Valid()
      modifies this
      ensures Valid()
      ensures mode == Modes[old(currentIndex)]
      ensures currentIndex == NextIndex(old(currentIndex))
    {
      mode := Modes[currentIndex];
      currentIndex := (currentIndex + 1) % |Modes|;
    }

    /** `reset()`: back to the first mode; a second reset changes nothing. */
    method Reset()
      requires Valid()
      modifies this
      ensures Valid() && currentIndex == 0
    {
      if currentIndex != 0 {
        currentIndex := 0;
      }
    }
  }

  /** Four calls on a fresh cycler: center, start, end, then center again. */
  method CycleScenario() returns (seen: seq<Mode>)
    ensures seen == [Center, Start, End, Center]
  {
    var cycler := new RecenterCursorPlugin();
    var a := cycler.GetNextMode();
    var b := cycler.GetNextMode();
    var c := cycler.GetNextMode();
    var d := cycler.GetNextMode();
    seen := [a, b, c, d];
  }
}
