/**
 * The kill ring of src/KillRing.ts: a fixed capacity of 120 entries, plain
 * append without de-duplication, and a clipboard write on every add.
 */
module FixedKillRing {
  import opened Host
  import opened RingSpec

  /** `KILL_RING_MAX_SIZE`. */
  const KillRingMaxSize: nat := 120

  class KillRing {
    var items: seq<string>
    var currentIndex: int
    const clipboard: Clipboard

    function Model(): Ring
      reads this
    {
      Ring(items, currentIndex)
    }

    ghost predicate Valid()
      reads this
    {
      Model().Valid(KillRingMaxSize)
    }

    constructor(clipboard: Clipboard)
      ensures Valid() && this.clipboard == clipboard
      ensures items == [] && currentIndex == -1
      ensures GetCurrentItem().None?
    {
      items := [];
      currentIndex := -1;
      this.clipboard := clipboard;
    }

    /** `add(text)`: the ring becomes `Ring.Add` of the old one and exactly one
      * write of `text` is sent to the clipboard, whether or not it succeeds. */
    method Add(text: string)
      requires Valid()
      modifies this, clipboard
      ensures Valid()
      ensures Model() == old(Model()).Add(text, KillRingMaxSize)
      ensures GetCurrentItem() == Some(text)
      ensures clipboard.State() == AfterWrite(old(clipboard.State()), clipboard.writable, Some(text))
    {
      items := items + [text];
      if |items| > KillRingMaxSize {
        items := items[|items| - KillRingMaxSize..];
      }
      currentIndex := |items| - 1;
      clipboard.WriteText(text);
    }

    /** `decreaseCurrentIndex()`. */
    method DecreaseCurrentIndex()
      requires Valid()
      modifies this
      ensures Valid()
      ensures Model() == old(Model()).Rotate()
      ensures items == old(items)
    {
      if |items| == 0 {
        return;
      }
      currentIndex := (currentIndex - 1 + |items|) % |items|;
    }

    /** `getCurrentItem()`: `None` for `null`. */
    function GetCurrentItem(): (r: Option<string>)
      reads this
      requires Valid()
      ensures r.None? <==> items == []
      ensures r.Some? ==> 0 <= currentIndex < |items| && r.value == items[currentIndex]
    {
      if currentIndex == -1 || |items| == 0 then None else Some(items[currentIndex])
    }
  }

  /** The rotation scenario of the unit tests: three adds, then three
    * decrements visit "second", "first" and wrap round to "third". */
  method RotationScenario() returns (seen: seq<Option<string>>)
    ensures seen == [Some("third"), Some("second"), Some("first"), Some("third")]
  {
    var clipboard := new Clipboard("", true);
    var ring := new KillRing(clipboard);
    ring.Add("first");
    ring.Add("second");
    ring.Add("third");
    seen := [ring.GetCurrentItem()];
    ring.DecreaseCurrentIndex();
    seen := seen + [ring.GetCurrentItem()];
    ring.DecreaseCurrentIndex();
    seen := seen + [ring.GetCurrentItem()];
    ring.DecreaseCurrentIndex();
    seen := seen + [ring.GetCurrentItem()];
  }

  /** The duplicate scenario of the unit tests, as the ring behaves: the
    * second "duplicate" is appended again and the earlier copy stays, so
    * three entries remain where the test expects two. */
  method DuplicateScenario() returns (items: seq<string>, current: Option<string>)
    ensures items == ["duplicate", "unique", "duplicate"] && |items| == 3
    ensures current == Some("duplicate")
  {
    var clipboard := new Clipboard("", true);
    var ring := new KillRing(clipboard);
    ring.Add("duplicate");
    ring.Add("unique");
    ring.Add("duplicate");
    items := ring.items;
    current := ring.GetCurrentItem();
  }
}
