/**
 * The mode cycler of src/RecenterCursorComponent.ts (the `sonkil-recenter` command's state).
 */
module RecenterCursorComponent {
  import opened RecenterSpec

  class RecenterCursorComponent {
    var currentIndex: nat

    ghost predicate Valid()
      reads this
    {
      currentIndex < |Modes|
    }

    constructor()
      ensures Valid() && currentIndex == 0
    {
      currentIndex := 0;
    }

    /** `getNextMode()`: the mode at the index, then the index moves on modulo three. */
    method GetNextMode() returns (mode: Mode)
      requires Valid()
      modifies this
      ensures Valid()
      ensures mode == Modes[old(currentIndex)]
      ensures currentIndex == NextIndex(old(currentIndex))
    {
      mode := Modes[currentIndex];
      currentIndex := (currentIndex + 1) % |Modes|;
    }

    /** `reset()`: back to the first mode; a second reset changes nothing. */
    method Reset()
      requires Valid()
      modifies this
      ensures Valid() && currentIndex == 0
    {
      if currentIndex != 0 {
        currentIndex := 0;
      }
    }
  }

  /** After some calls, resetting twice is the same as resetting once: the next mode is center. */
  method ResetScenario() returns (before: Mode, after: Mode)
    ensures before == End && after == Center
  {
    var cycler := new RecenterCursorComponent();
    var m := cycler.GetNextMode();
    m := cycler.GetNextMode();
    before := cycler.GetNextMode();
    cycler.Reset();
    cycler.Reset();
    after := cycler.GetNextMode();
  }
}
