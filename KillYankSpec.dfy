/**
 * What one kill-line, kill-region, copy-region or yank command does, as a
 * function of what it reads: the kill ring, the mark and yank positions, the
 * editor snapshot and the clipboard text. The three coordinators (main.js,
 * main.ts and src/KillAndYankPlugin.ts) are proved against these.
 */
module KillYankSpec {
  import opened Text
  import opened Host
  import opened RingSpec

  /** `sortPositions(a, b)`: the two positions in reading order, `a` first on a tie. */
  function SortPositions(a: Pos, b: Pos): (r: (Pos, Pos))
    ensures NotAfter(r.0, r.1)
    ensures r == (a, b) || r == (b, a)
    ensures NotAfter(a, b) ==> r == (a, b)
  {
    if a.line < b.line || (a.line == b.line && a.ch <= b.ch) then (a, b) else (b, a)
  }

  /** The order `sortPositions` uses is total, antisymmetric and transitive,
    * so the sorted pair does not depend on which end was set first. */
  lemma SortPositionsSymmetric(a: Pos, b: Pos)
    ensures SortPositions(a, b).0 == SortPositions(b, a).0
    ensures SortPositions(a, b).1 == SortPositions(b, a).1
  {
  }

  /** What `killLine` does to one line. */
  datatype LineKill = LineKill(killed: Option<string>, from: Pos, to: Pos)

  /** `killLine`: the rest of the line after the cursor is killed and deleted
    * to the end of the line, unless it is blank; then nothing is killed and
    * the deletion runs on to the start of the next line. */
  function KillLinePlan(line: string, cursor: Pos): (k: LineKill)
    ensures k.from == cursor
    ensures k.killed.None? <==> IsBlank(SliceFrom(line, cursor.ch))
    ensures k.killed.None? ==> k.to == Pos(cursor.line + 1, 0)
    ensures k.killed.Some? ==> k.to == Pos(cursor.line, |line|)
    ensures k.killed.Some? ==> cursor.ch < |line| && line[..cursor.ch] + k.killed.value == line
    ensures k.killed.Some? ==> !IsBlank(k.killed.value)
  {
    var text := SliceFrom(line, cursor.ch);
    TrimEmptyIffBlank(text);
    if |Trim(text)| == 0 then LineKill(None, cursor, Pos(cursor.line + 1, 0))
    else LineKill(Some(text), cursor, Pos(cursor.line, |line|))
  }

  /** What `killRegion` or `copyRegion` does. */
  datatype RegionResult = RegionResult(pushed: Option<string>, edits: seq<Edit>, mark: Option<Pos>)

  /** `killRegion`: with a mark, the text between mark and cursor (in order)
    * is pushed and that exact range deleted, and the mark is cleared; without
    * one, a non-empty selection is pushed and replaced by "", and an empty
    * selection does nothing. */
  function KillRegionStep(lines: seq<string>, mark: Option<Pos>, cursor: Pos, selection: string): (r: RegionResult)
    ensures r.mark.None?
    ensures mark.Some? ==> var (s, e) := SortPositions(mark.value, cursor);
      r.pushed == Some(RangeText(lines, s, e)) && r.edits == [ReplaceRange("", s, e)]
    ensures mark.None? && |selection| > 0 ==> r.pushed == Some(selection) && r.edits == [ReplaceSelection("")]
    ensures mark.None? && |selection| == 0 ==> r.pushed.None? && r.edits == []
  {
    match mark
    case Some(m) =>
      var (s, e) := SortPositions(m, cursor);
      RegionResult(Some(RangeText(lines, s, e)), [ReplaceRange("", s, e)], None)
    case None =>
      if |selection| > 0 then RegionResult(Some(selection), [ReplaceSelection("")], None)
      else RegionResult(None, [], None)
  }

  /** `copyRegion`: `killRegion` without touching the buffer. */
  function CopyRegionStep(lines: seq<string>, mark: Option<Pos>, cursor: Pos, selection: string): (r: RegionResult)
    ensures r.edits == []
    ensures r.mark.None?
  {
    match mark
    case Some(m) =>
      var (s, e) := SortPositions(m, cursor);
      RegionResult(Some(RangeText(lines, s, e)), [], None)
    case None =>
      RegionResult(if |selection| > 0 then Some(selection) else None, [], None)
  }

  /** Copying pushes exactly what killing would push and clears the mark the
    * same way; the only difference is that killing also deletes, and what it
    * deletes is an ordered range. */
  lemma CopyIsKillWithoutDeletion(lines: seq<string>, mark: Option<Pos>, cursor: Pos, selection: string)
    ensures CopyRegionStep(lines, mark, cursor, selection).pushed == KillRegionStep(lines, mark, cursor, selection).pushed
    ensures CopyRegionStep(lines, mark, cursor, selection).mark == KillRegionStep(lines, mark, cursor, selection).mark
    ensures forall e :: e in KillRegionStep(lines, mark, cursor, selection).edits && e.ReplaceRange? ==> NotAfter(e.from, e.to)
  {
  }

  /** What one `yank` does (main.js and src/KillAndYankPlugin.ts). */
  datatype YankResult = YankResult(ring: Ring, yank: Option<Pos>, pulled: Option<string>, edits: seq<Edit>)

  /** `yank`: with no current item a non-empty clipboard text is pushed first;
    * the first yank of a sequence records the cursor as the yank position,
    * a later one rotates the ring back one step; then a non-empty current
    * item replaces the span from the yank position to the cursor. */
  function YankStep(ring: Ring, cap: nat, yank: Option<Pos>, cursor: Pos, clip: string): (r: YankResult)
    requires cap >= 1 && ring.Valid(cap)
    ensures r.ring.Valid(cap)
    ensures r.pulled == if ring.Current().None? && |clip| > 0 then Some(clip) else None
    ensures yank.None? ==> r.yank == Some(cursor) && r.ring == ring.AddSome(r.pulled, cap)
    ensures yank.Some? ==> r.yank == yank && r.ring == ring.AddSome(r.pulled, cap).Rotate()
    ensures r.edits == [] <==> r.ring.Current() == None || r.ring.Current() == Some("")
    ensures r.edits != [] ==>
              && r.ring.Current().Some?
              && r.edits == [SetSelection(r.yank.value, cursor), ReplaceSelection(r.ring.Current().value)]
  {
    var pulled := if ring.Current().None? && |clip| > 0 then Some(clip) else None;
    var r1 := ring.AddSome(pulled, cap);
    var anchor := if yank.None? then cursor else yank.value;
    var r2 := if yank.None? then r1 else r1.Rotate();
    var edits := match r2.Current()
      case Some(s) => if |s| > 0 then [SetSelection(anchor, cursor), ReplaceSelection(s)] else []
      case None => [];
    YankResult(r2, Some(anchor), pulled, edits)
  }

  /** With nothing in the ring and nothing on the clipboard a yank inserts
    * nothing, selects nothing and leaves the ring as it was. */
  lemma YankOnEmptyDoesNothing(ring: Ring, cap: nat, yank: Option<Pos>, cursor: Pos)
    requires cap >= 1 && ring.Valid(cap) && ring.items == []
    ensures YankStep(ring, cap, yank, cursor, "").edits == []
    ensures YankStep(ring, cap, yank, cursor, "").ring == ring
  {
  }

  /** A fresh yank on a non-empty ring inserts the newest-pointed item at the
    * cursor without rotating. */
  lemma FirstYankInsertsCurrent(ring: Ring, cap: nat, cursor: Pos, clip: string)
    requires cap >= 1 && ring.Valid(cap) && ring.items != []
    requires ring.Current() != Some("")
    ensures YankStep(ring, cap, None, cursor, clip).ring == ring
    ensures YankStep(ring, cap, None, cursor, clip).edits
      == [SetSelection(cursor, cursor), ReplaceSelection(ring.Current().value)]
  {
  }

  /** The ring after a first yank followed by `k` yank-pops; the yank
    * position is pinned to where the sequence started. */
  function YankSequence(ring: Ring, cap: nat, start: Pos, cursors: seq<Pos>): (r: YankResult)
    requires cap >= 1 && ring.Valid(cap) && ring.items != []
    ensures r.ring.Valid(cap) && r.ring.items == ring.items
    ensures r.yank == Some(start)
    decreases |cursors|
  {
    if cursors == [] then YankStep(ring, cap, None, start, "")
    else
      var prev := YankSequence(ring, cap, start, cursors[..|cursors| - 1]);
      YankStep(prev.ring, cap, prev.yank, cursors[|cursors| - 1], "")
  }

  /** Yank-pop walks the ring from the current item towards older ones: after
    * a first yank and `k` pops the ring has been rotated exactly `k` times,
    * so after as many pops as there are items the first yanked item is back. */
  lemma {:induction false} YankSequenceRotates(ring: Ring, cap: nat, start: Pos, cursors: seq<Pos>)
    requires cap >= 1 && ring.Valid(cap) && ring.items != []
    ensures YankSequence(ring, cap, start, cursors).ring == RotateTimes(ring, |cursors|)
    decreases |cursors|
  {
    if cursors != [] {
      YankSequenceRotates(ring, cap, start, cursors[..|cursors| - 1]);
    }
  }

  lemma YankPopFullCycle(ring: Ring, cap: nat, start: Pos, cursors: seq<Pos>)
    requires cap >= 1 && ring.Valid(cap) && ring.items != []
    requires |cursors| == |ring.items|
    ensures YankSequence(ring, cap, start, cursors).ring == ring
  {
    YankSequenceRotates(ring, cap, start, cursors);
    RotateFullCycle(ring, cap);
  }
}
