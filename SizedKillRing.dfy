/**
 * The kill ring bundled into main.js (lines 35-71): the same ring as
 * src/KillRing.ts with a configurable capacity `maxSize` and `setMaxSize`.
 * The coordinator of src/KillAndYankPlugin.ts is modelled over this class
 * because its calls (`new KillRing(maxRingSize)`, `setMaxSize`) are written
 * for it; the ring that file imports is src/KillRing.ts (see README,
 * "Left out").
 */
module SizedKillRing {
  import opened Host
  import opened RingSpec

  /** The outcome of `setMaxSize`: it throws for a size below one. */
  datatype SizeOutcome = Resized | SizeTooSmall

  class KillRing {
    var items: seq<string>
    var currentIndex: int
    var maxSize: nat
    const clipboard: Clipboard

    function Model(): Ring
      reads this
    {
      Ring(items, currentIndex)
    }

    ghost predicate Valid()
      reads this
    {
      maxSize >= 1 && Model().Valid(maxSize)
    }

    constructor(maxSize: nat, clipboard: Clipboard)
      requires maxSize >= 1
      ensures Valid() && this.clipboard == clipboard && this.maxSize == maxSize
      ensures items == [] && currentIndex == -1
    {
      items := [];
      currentIndex := -1;
      this.maxSize := maxSize;
      this.clipboard := clipboard;
    }

    /** `add(text)`: keeps the newest `maxSize` entries, points at `text`,
      * and sends exactly one write of `text` to the clipboard. */
    method Add(text: string)
      requires Valid()
      modifies this, clipboard
      ensures Valid() && maxSize == old(maxSize)
      ensures Model() == old(Model()).Add(text, maxSize)
      ensures GetCurrentItem() == Some(text)
      ensures clipboard.State() == AfterWrite(old(clipboard.State()), clipboard.writable, Some(text))
    {
      items := items + [text];
      if |items| > maxSize {
        items := items[|items| - maxSize..];
      }
      currentIndex := |items| - 1;
      clipboard.WriteText(text);
    }

    /** `decreaseCurrentIndex()`. */
    method DecreaseCurrentIndex()
      requires Valid()
      modifies this
      ensures Valid() && maxSize == old(maxSize)
      ensures Model() == old(Model()).Rotate()
    {
      if |items| == 0 {
        return;
      }
      currentIndex := (currentIndex - 1 + |items|) % |items|;
    }

    /** `getCurrentItem()`: `None` for `null`. */
    function GetCurrentItem(): (r: Option<string>)
      reads this
      requires Valid()
      ensures r.None? <==> items == []
      ensures r.Some? ==> 0 <= currentIndex < |items| && r.value == items[currentIndex]
    {
      if currentIndex == -1 || |items| == 0 then None else Some(items[currentIndex])
    }

    /** `setMaxSize(newSize)`: a size below one is refused and changes
      * nothing; otherwise the capacity becomes `newSize` and a longer ring
      * keeps only its newest `newSize` entries, the index clamped into it. */
    method SetMaxSize(newSize: int) returns (outcome: SizeOutcome)
      requires Valid()
      modifies this
      ensures Valid()
      ensures outcome == SizeTooSmall <==> newSize < 1
      ensures newSize < 1 ==> Model() == old(Model()) && maxSize == old(maxSize)
      ensures newSize >= 1 ==> maxSize == newSize && Model() == old(Model()).Shrink(newSize)
    {
      if newSize < 1 {
        return SizeTooSmall;
      }
      maxSize := newSize;
      if |items| > newSize {
        items := items[|items| - newSize..];
        currentIndex := if currentIndex < |items| - 1 then currentIndex else |items| - 1;
      }
      return Resized;
    }
  }

  /** A capacity scenario: with room for two, adding
    * "a", "b", "c" keeps ["b", "c"]; shrinking to one keeps ["c"]. */
  method CapacityScenario() returns (kept: seq<string>, shrunk: seq<string>)
    ensures kept == ["b", "c"] && shrunk == ["c"]
  {
    var clipboard := new Clipboard("", true);
    var ring := new KillRing(2, clipboard);
    ring.Add("a");
    ring.Add("b");
    ring.Add("c");
    kept := ring.items;
    var outcome := ring.SetMaxSize(0);
    outcome := ring.SetMaxSize(1);
    shrunk := ring.items;
  }
}
