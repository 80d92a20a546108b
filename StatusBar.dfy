/**
 * src/StatusBarManager.ts: a four-valued status and the text the status-bar
 * element shows for it. The element may be missing (`addStatusBarItem`
 * returned nothing); then the status still changes but nothing is shown.
 */
module StatusBar {

  /** `StatusType`. */
  datatype Status = Empty | MarkActivated | MarkDeactivated | MarkSet

  /** `statusTexts`. */
  function StatusText(s: Status): (t: string)
    ensures t == "" <==> s == Empty
  {
    match s
    case Empty => ""
    case MarkActivated => "Mark activated"
    case MarkDeactivated => "Mark deactivated"
    case MarkSet => "Mark set"
  }

  /** Distinct statuses show distinct texts, so the text identifies the status. */
  lemma StatusTextInjective(a: Status, b: Status)
    ensures StatusText(a) == StatusText(b) ==> a == b
  {
  }

  class StatusBarManager {
    /** Whether the status-bar element exists. */
    const hasElement: bool
    /** The element's `textContent`. */
    var text: string
    var currentStatus: Status

    /** What the manager guarantees: with an element, it shows the current status. */
    ghost predicate Valid()
      reads this
    {
      hasElement ==> text == StatusText(currentStatus)
    }

    /** The constructor: status `EMPTY`, showing "". */
    constructor(hasElement: bool)
      ensures Valid() && this.hasElement == hasElement
      ensures currentStatus == Empty && GetText() == ""
    {
      this.hasElement := hasElement;
      currentStatus := Empty;
      text := "";
    }

    /** `getText()`: "" when there is no element. */
    function GetText(): (t: string)
      reads this
      requires Valid()
      ensures t == if hasElement then StatusText(currentStatus) else ""
    {
      if hasElement then text else ""
    }

    /** `setStatus(type)`. */
    method SetStatus(s: Status)
      requires Valid()
      modifies this
      ensures Valid() && currentStatus == s
      ensures hasElement ==> text == StatusText(s)
      ensures !hasElement ==> text == old(text)
    {
      currentStatus := s;
      if hasElement {
        text := StatusText(s);
      }
    }

    /** `getStatus()`. */
    function GetStatus(): Status
      reads this
    {
      currentStatus
    }

    /** `isEmpty()`: exactly when the status is `EMPTY`, which with an element
      * is exactly when the shown text is "". */
    function IsEmpty(): (b: bool)
      reads this
      requires Valid()
      ensures b <==> currentStatus == Empty
      ensures hasElement ==> (b <==> GetText() == "")
    {
      currentStatus == Empty
    }

    /** `clear()`: back to `EMPTY` only when there is an element. */
    method Clear()
      requires Valid()
      modifies this
      ensures Valid()
      ensures hasElement ==> currentStatus == Empty && text == ""
      ensures !hasElement ==> currentStatus == old(currentStatus) && text == old(text)
    {
      if hasElement {
        SetStatus(Empty);
      }
    }
  }

  /** Setting then clearing: with an element the status returns to `EMPTY`;
    * without one the status set before clearing stays. */
  method ClearScenario() returns (withElement: Status, without: Status, shown: string)
    ensures withElement == Empty && without == MarkSet && shown == ""
  {
    var m := new StatusBarManager(true);
    m.SetStatus(MarkSet);
    m.Clear();
    withElement := m.GetStatus();
    shown := m.GetText();
    var n := new StatusBarManager(false);
    n.SetStatus(MarkSet);
    n.Clear();
    without := n.GetStatus();
  }
}
