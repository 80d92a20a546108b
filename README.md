# Sonkil kill ring, mark and yank — a Dafny model

Sonkil is an Obsidian plugin that brings Emacs-style editing to the
Markdown editor. This project models its core:

- the **kill ring**: a bounded list of killed strings with a rotation index;
- the **mark and yank bookkeeping** layered over the host editor: kill line,
  kill region, copy region, yank and yank-pop, set mark, quit;
- the **key-binding matcher and dispatcher**;
- the **hotkeys and command ids** derived from the bindings;
- the **multi-cursor addition**;
- the **recenter mode cycler**;
- the **status-bar status**.

The repository holds several snapshots of this code. Each is modelled in its
own module:

| module | what it models |
|---|---|
| `RingSpec` | The kill ring as a value `Ring(items, index)`. `Add`, `Rotate`, `Shrink` and `Current` are `add`, `decreaseCurrentIndex`, the shrinking half of `setMaxSize` and `getCurrentItem`. It also holds the lemmas about series of adds and rotations. |
| `FixedKillRing` | src/KillRing.ts: a class with capacity 120 that writes to the clipboard on every add. |
| `SizedKillRing` | The ring bundled in main.js, with a configurable `maxSize`. The coordinator of src/KillAndYankPlugin.ts is modelled over this ring, because its calls (`new KillRing(maxRingSize)`, `setMaxSize`) are written for it. The ring that file actually imports is discussed under "Left out". |
| `KillYankSpec` | What one kill-line, kill-region, copy-region or yank does, as pure step functions. All the coordinators are proved against these. |
| `MainJs`, `MainTs`, `KillAndYank`, `SrcMain` | The coordinators of main.js, main.ts, src/KillAndYankPlugin.ts and src/main.ts. They are classes whose methods update the positions and the ring in place. |
| `Keys`, `KeyController` | The matching rule `isKeyBindingMatch`, first-match dispatch, and src/KeyController.ts's bindings read back from registered hotkeys. |
| `MultiCursorSpec`, `MultiCursorComponent`, `MultiCursorPlugin` | Adding a cursor above or below the selections. |
| `RecenterSpec` and three recenter classes | The mod-3 mode cycler in its three copies. |
| `StatusBar` | src/StatusBarManager.ts. |
| `Text`, `Host` | JavaScript's `trim`, `slice`, `toLowerCase` and `/\s+/` replacement, plus the host editor and the clipboard. |

How the host is represented:

- **Editor.** The editor is what one command reads: its lines, the cursor,
  the selected text, the selection list, and whether a CodeMirror view is
  attached. It also keeps a log of the requests the command sends back.
  The properties are about which requests are sent. How the host applies
  them is not modelled.
- **Clipboard.** The clipboard is a text plus a log of write requests. A
  write is always logged. It changes the text only when the clipboard
  accepts writes, so a failing write never undoes a ring update.
- **Stateful code.** Code that updates fields is written as classes with
  `modifies` clauses. Each method is proved equal to a pure step function
  (`Ring.Add`, `YankStep`, `KillRegionStep`, `ActionStep`, …), and the
  lemmas are proved about those functions.

## Model

| member | source | states |
|---|---|---|
| RingSpec.JsRem | main.ts:190 | JavaScript's `%` for a positive divisor: `a == b * TruncDiv(a, b) + r` with the quotient rounded toward zero, so a − r is a multiple of b. The remainder lies in [0, b) for a ≥ 0 and in (−b, 0] for a < 0, taking the sign of a. |
| RingSpec.Newest | src/KillRing.ts:22-24 | `slice(-n)` keeps min(length, n) entries. |
| RingSpec.Ring.Add | src/KillRing.ts:19-25 | After `add(t)` the ring satisfies the capacity/index invariant. Its items are the newest `cap` entries of old items followed by t, in order and without de-duplication. The index is on the new last entry, which is t. |
| RingSpec.Ring.AddSome | src/KillAndYankPlugin.ts:85-90 | For `None` the ring is unchanged. For `Some(t)` the ring keeps the invariant, its current item is t, and its items are the newest `cap` entries of the old items followed by t. |
| RingSpec.Ring.Rotate | src/KillRing.ts:32-35 | On an empty ring it changes nothing. Otherwise the items are kept and the index moves to i-1, wrapping from 0 to length-1. |
| RingSpec.Ring.Shrink | main.js:65-69 | When the ring fits, nothing changes. Otherwise it keeps the newest n entries and clamps the index to min(index, n-1). |
| RingSpec.Ring.Current | src/KillRing.ts:37-40 | For a ring whose index is consistent (-1 exactly when empty), `null` exactly when the ring is empty; otherwise the item at the index, which is one of the ring's items. |
| RingSpec.AddPreservesValid | src/KillRing.ts:19-25 | `add` keeps the invariant. The length grows by one until it reaches the capacity and then stays there. The current item is the added text. |
| RingSpec.NewestOfNewest | src/KillRing.ts:20-24 | Truncating to the newest n before pushing more gives the same newest n as truncating only at the end. |
| RingSpec.AddAllKeepsNewest | main.ts:131-140 | Starting from any ring, even one longer than the capacity, a series of adds leaves exactly the newest `cap` entries of old items followed by the additions, and the index on the last. |
| RingSpec.FreshRingKeepsNewest | src/KillRing.ts:19-25 | From an empty ring, the items are exactly the last min(cap, k) of the k additions, in insertion order. |
| RingSpec.RotatePreservesValid | src/KillRing.ts:32-35 | `decreaseCurrentIndex` keeps the invariant. |
| RingSpec.RotateTimesIndex | src/KillRing.ts:34 | k ≤ n rotations of an n-item ring move the index back k places modulo n and keep the items. |
| RingSpec.RotateFullCycle | tests/unit/KillRing.test.ts:22-34 | n rotations of a non-empty n-item ring give back the same ring and the same current item. |
| RingSpec.ShrinkPreservesValid | main.js:62-70 | Shrinking to an accepted size n keeps the invariant for capacity n. |
| FixedKillRing.KillRing.constructor | src/KillRing.ts:13-17 | A fresh ring has no items, index -1, and `getCurrentItem()` returns null. |
| FixedKillRing.KillRing.Add | src/KillRing.ts:19-30 | The ring becomes `Ring.Add` of the old one with capacity 120 (so the invariant holds and the current item is the text). Exactly one write of the text is sent to the clipboard, and the ring update does not depend on whether that write succeeds. |
| FixedKillRing.KillRing.DecreaseCurrentIndex | src/KillRing.ts:32-35 | The ring becomes `Rotate` of the old one and the items are unchanged. |
| FixedKillRing.KillRing.GetCurrentItem | src/KillRing.ts:37-40 | Returns null exactly when the ring is empty; otherwise the item at an in-range index. It is a function, so state is unchanged. |
| FixedKillRing.RotationScenario | tests/unit/KillRing.test.ts:22-34 | Adding first, second and third and then rotating three times shows third, second, first, third. |
| FixedKillRing.DuplicateScenario | src/KillRing.ts:19-25 | Adding "duplicate", "unique", "duplicate" leaves all three entries in that order, with "duplicate" current: `add` appends and never removes an earlier copy. |
| SizedKillRing.KillRing.constructor | main.js:36-41 | An empty ring with index -1 and the given capacity. |
| SizedKillRing.KillRing.Add | main.js:42-51 | `Ring.Add` with capacity `maxSize`, one clipboard write, and the capacity unchanged. |
| SizedKillRing.KillRing.DecreaseCurrentIndex | main.js:52-56 | `Rotate` of the old ring. |
| SizedKillRing.KillRing.GetCurrentItem | main.js:57-61 | Returns null exactly when the ring is empty; otherwise the item at the index. |
| SizedKillRing.KillRing.SetMaxSize | main.js:62-70 | A size below 1 is refused (the throw), leaving the items, index and capacity unchanged. Otherwise the capacity becomes n and the ring becomes `Shrink(n)` of the old one. |
| SizedKillRing.CapacityScenario | main.js:42-70 | With capacity 2, adding a, b, c keeps [b, c]. Resizing to 0 is refused. Resizing to 1 keeps [c]. |
| KillYankSpec.SortPositions | main.js:230-232 | The two positions in (line, ch) reading order, first no later than second. The result is a permutation of the arguments, and `(a, b)` is returned when a is not after b (ties included). |
| KillYankSpec.SortPositionsSymmetric | src/KillAndYankPlugin.ts:25-27 | The sorted pair does not depend on argument order. |
| KillYankSpec.KillLinePlan | src/KillAndYankPlugin.ts:29-44 | Deletion always starts at the cursor. Nothing is killed exactly when the rest of the line is blank; then the deletion runs to the start of the next line. Otherwise the killed text is the non-blank remainder (prefix + remainder = line) and the deletion runs to the end of the line. |
| KillYankSpec.KillRegionStep | src/KillAndYankPlugin.ts:46-64 | With a mark, it pushes the text of the sorted mark–cursor range and deletes exactly that range. Without a mark, a non-empty selection is pushed and replaced by "", and an empty selection does nothing. The mark is always cleared afterwards. |
| KillYankSpec.CopyRegionStep | src/KillAndYankPlugin.ts:66-82 | Copy region requests no edit and always leaves the mark cleared. |
| KillYankSpec.CopyIsKillWithoutDeletion | src/KillAndYankPlugin.ts:46-82 | Copy pushes exactly what kill pushes and clears the mark the same way. Every range kill deletes is ordered. |
| KillYankSpec.YankStep | src/KillAndYankPlugin.ts:84-105 | A non-empty clipboard text is pulled exactly when there is no current item. A first yank anchors at the cursor without rotating; a later yank keeps the anchor and rotates once. Requests are sent exactly when the new current item is non-empty, and they select anchor..cursor and replace it with that item. |
| KillYankSpec.YankOnEmptyDoesNothing | src/KillAndYankPlugin.ts:85-104 | With an empty ring and an empty clipboard, a yank sends no request and leaves the ring as it was. |
| KillYankSpec.FirstYankInsertsCurrent | src/KillAndYankPlugin.ts:92-104 | A first yank on a non-empty ring does not rotate, and it inserts the current item at the cursor. |
| KillYankSpec.YankSequence | src/KillAndYankPlugin.ts:92-98 | A first yank followed by pops keeps the items and the anchor at the start position. |
| KillYankSpec.YankSequenceRotates | src/KillAndYankPlugin.ts:94-98 | After a first yank and k pops, the ring has been rotated exactly k times. |
| KillYankSpec.YankPopFullCycle | src/KillAndYankPlugin.ts:94-104 | As many pops as items bring the first yanked ring back. |
| MainJs.SonkilPlugin.constructor | main.js:94-102 | No mark, no yank position, and an empty ring of the default size 60. The recenter index is 0. |
| MainJs.SonkilPlugin.KillLine | main.js:233-245 | The ring, clipboard and requests follow `KillLinePlan`. A blank remainder pushes nothing and deletes through the next line's start; otherwise the remainder is pushed and deleted to the line end. |
| MainJs.SonkilPlugin.KillRegion | main.js:246-262 | The ring, clipboard, requests and mark follow `KillRegionStep`. The yank position is unchanged. |
| MainJs.SonkilPlugin.Yank | main.js:263-281 | The ring, yank position, clipboard and requests follow `YankStep`. The mark is unchanged. |
| MainJs.SonkilPlugin.YankCommand | main.js:160-169 | The Yank binding clears the yank position and then yanks, so the result is `YankStep` from no anchor and the anchor becomes the cursor. |
| MainJs.SonkilPlugin.KeyboardQuit | main.js:282-286 | Clears mark and yank and sets the recenter index to 0. The new state does not depend on the old one, so the operation is idempotent. |
| MainTs.NextKillRingIndex | main.ts:187-191 | For an index ≥ -1 the result is in [0, length). It is index-1, or length-1 from 0. |
| MainTs.NextKillRingIndexIsRotation | main.ts:187-191 | On every valid non-empty ring, `getNextKillRingIndex` is the same rotation as the other kill rings' `decreaseCurrentIndex`. |
| MainTs.TsYankStep | main.ts:193-211 | A clipboard text is pulled only into an empty ring. A first yank anchors without rotating; a later yank keeps the anchor and rotates. The selection request is always sent, and the replacement is sent whenever the ring is non-empty. |
| MainTs.TsYankAgreesWithYankStep | main.ts:193-211 | main.ts's yank and the later yank agree on the ring, the anchor and what is pulled. Their requests coincide whenever the current item is non-empty. |
| MainTs.ActionStep | main.ts:19-84 | For each binding's action: quit clears both positions; set-mark sets the mark; kills keep the yank position, and kill-region clears the mark; yank anchors at the cursor; yank-pop keeps an existing anchor; yanks on a non-empty ring keep its items. The ring invariant is preserved. |
| MainTs.YankVersusYankPop | main.ts:61-83 | On a non-empty ring, C-y never rotates. M-y during a yank rotates once and keeps the anchor. |
| MainTs.SonkilPlugin.constructor | main.ts:8-16 | An empty ring with index -1, no positions, and maximum size 60. |
| MainTs.SonkilPlugin.AddToKillRing | main.ts:131-140 | The ring becomes `Ring.Add` of the old one with the current maximum, even if the ring was longer than that maximum. Positions and the maximum are unchanged. |
| MainTs.SonkilPlugin.KillLine | main.ts:146-164 | The state and requests are `ActionStep` for kill-line (see `KillLinePlan`). |
| MainTs.SonkilPlugin.KillRegion | main.ts:166-185 | The state and requests are `ActionStep` for kill-region (see `KillRegionStep`). |
| MainTs.SonkilPlugin.Yank | main.ts:193-211 | The ring, yank position and requests follow `TsYankStep`. The outcome names the inserted item, or reports a ring that is still empty. |
| MainTs.SonkilPlugin.PullClipboard | main.ts:194-199 | Only an empty ring takes a non-empty clipboard text. |
| MainTs.SonkilPlugin.AdvanceYank | main.ts:201-207 | The first yank stores the cursor and leaves the ring alone. A later yank keeps the anchor and rotates. |
| MainTs.SonkilPlugin.KeyboardQuit | main.ts:213-218 | Clears mark and yank, keeps the ring, and returns true. |
| MainTs.SonkilPlugin.RunAction | main.ts:19-84 | Running a binding's action gives exactly `ActionStep` and answers true. |
| MainTs.SonkilPlugin.HandleKeyEvent | main.ts:220-238 | With no view nothing happens. With Ctrl or Alt, the first matching binding in list order runs and the event is handled. Otherwise the event is not handled, the ring, mark and requests are untouched, and the yank position is cleared unless the key is Control or Alt. |
| MainTs.SonkilPlugin.OnUnload | main.ts:256-262 | The ring becomes [] with index -1, and both positions become null. |
| MainTs.SonkilPlugin.ChangeKillRingSize | main.ts:303-315 | A NaN or non-positive size changes nothing. A positive size becomes the maximum, and the ring becomes `Shrink(size)`: the newest entries, index clamped. |
| KillAndYank.KillAndYankPlugin.constructor | src/KillAndYankPlugin.ts:13-19 | An empty ring of the given capacity, with no mark and no yank position. |
| KillAndYank.KillAndYankPlugin.SetKillRingMaxSize | src/KillAndYankPlugin.ts:21-23 | Forwards to `setMaxSize`: a size below 1 is refused and changes nothing; otherwise the capacity becomes size and the ring is shrunk. |
| KillAndYank.KillAndYankPlugin.KillLine | src/KillAndYankPlugin.ts:29-44 | The ring, clipboard and requests follow `KillLinePlan`. The positions are outside the frame. |
| KillAndYank.KillAndYankPlugin.KillRegion | src/KillAndYankPlugin.ts:46-64 | The ring, clipboard, requests and mark follow `KillRegionStep`. The yank position is unchanged. |
| KillAndYank.KillAndYankPlugin.CopyRegion | src/KillAndYankPlugin.ts:66-82 | The ring, clipboard and mark follow `CopyRegionStep`. The editor is outside the frame, so no edit is possible. |
| KillAndYank.KillAndYankPlugin.Yank | src/KillAndYankPlugin.ts:84-105 | The ring, yank position, clipboard and requests follow `YankStep`. The mark is unchanged. |
| KillAndYank.KillAndYankPlugin.SetMark | src/KillAndYankPlugin.ts:107-110 | The mark becomes the cursor, replacing any earlier mark. No edit is made and the yank position is kept. |
| KillAndYank.KillAndYankPlugin.ResetYankPosition | src/KillAndYankPlugin.ts:112-114 | Clears the yank position and keeps the mark. |
| KillAndYank.KillAndYankPlugin.ResetMarkPosition | src/KillAndYankPlugin.ts:116-118 | Clears the mark and keeps the yank position. |
| KillAndYank.KillAndYankPlugin.Reset | src/KillAndYankPlugin.ts:120-123 | Clears both positions. |
| StatusBar.StatusText | src/StatusBarManager.ts:17-22 | The status table: the text is "" exactly for `EMPTY`. |
| StatusBar.StatusTextInjective | src/StatusBarManager.ts:17-22 | The four statuses show four distinct texts. |
| StatusBar.StatusBarManager.constructor | src/StatusBarManager.ts:14-27 | The status is `EMPTY` and the shown text is "". |
| StatusBar.StatusBarManager.GetText | src/StatusBarManager.ts:35-37 | Returns "" without an element; otherwise the text of the current status. |
| StatusBar.StatusBarManager.SetStatus | src/StatusBarManager.ts:39-42 | The status becomes t. With an element, the element shows `statusTexts[t]`; without one, the text is untouched. |
| StatusBar.StatusBarManager.IsEmpty | src/StatusBarManager.ts:48-50 | True exactly when the status is `EMPTY`, which with an element means exactly when "" is shown. |
| StatusBar.StatusBarManager.Clear | src/StatusBarManager.ts:52-56 | Goes back to `EMPTY` only when an element exists; otherwise nothing changes. |
| StatusBar.ClearScenario | src/StatusBarManager.ts:39-56 | Set then clear: with an element the status is `EMPTY` and "" is shown; without one the earlier status stays. |
| Keys.MatchNeedsExactModifiers | src/KeyController.ts:99-111 | An event never matches a binding with different modifier flags. With equal flags, the binding's key in any ASCII case matches. |
| Keys.MappedBindingMatchesByCode | src/main.ts:269-281 | A binding whose lower-cased key is in the code map matches on the physical key code alone, whatever key name is reported. |
| Keys.CapitalisedKeysHaveNoMappedCode | src/main.ts:20-29 | A key name of two or more characters that starts with a capital, such as `ArrowUp`, gets no code after lower-casing, so it matches by name only. |
| Keys.FirstMatch | src/main.ts:253-258 | The index of a matching binding with no matching binding before it, or `None` when no binding matches. |
| Keys.FindFirst | src/main.ts:254-258 | The loop that stops at the first match returns exactly `FirstMatch`. |
| Keys.FirstMatchIsUnique | src/KeyController.ts:84-89 | The first match is fixed by its two defining facts: i matches and nothing before i does. |
| KeyController.Commands.constructor | src/KeyController.ts:25-30 | A registry with the given commands and an empty execution log. |
| KeyController.Commands.ExecuteCommandById | src/KeyController.ts:86 | Appends exactly one execution of the id. |
| KeyController.HotkeyBindings | src/KeyController.ts:57-69 | One binding per hotkey, in hotkey order. |
| KeyController.CommandBindings | src/KeyController.ts:53-71 | An entry contributes bindings only if its id starts with "<pluginId>:sonkil-" and it has hotkeys, and then one per hotkey. |
| KeyController.BindingsForStep | src/KeyController.ts:53-55 | Each further registry entry appends exactly its own bindings. |
| KeyController.BindingsAreSonkilHotkeys | src/KeyController.ts:53-71 | Every binding executes one of the plugin's sonkil commands and is built from one of that command's hotkeys. |
| KeyController.KeyController.constructor | src/KeyController.ts:45-47 | The bindings are exactly those derived from the registry. |
| KeyController.KeyController.InitializeKeyBindings | src/KeyController.ts:49-72 | The nested loops push exactly the derived bindings, in registry then hotkey order. |
| KeyController.KeyController.PushHotkeyBindings | src/KeyController.ts:57-69 | The inner loop pushes one binding per hotkey, in order. |
| KeyController.KeyController.HandleKeyEvent | src/KeyController.ts:74-97 | With no view, or inside an inline title, nothing is executed and the result is false. With Ctrl, Alt or Escape, the first matching binding's command runs once and the result is true. Otherwise any key except Control/Alt executes `sonkil-mode-quit` once, and the result is false. |
| SrcMain.KeybindingToHotkeys | src/main.ts:228-239 | Exactly one hotkey on the binding's key. "Mod", "Alt", "Shift" and "Meta" each appear iff the matching flag is set, each at most once (the list is exactly as long as the number of set flags), and "Ctrl" never appears. |
| SrcMain.CommandId | src/main.ts:211 | The id is "sonkil-" followed by the lower-cased description with its white-space runs dashed. After the prefix it has no white space and no upper-case letter, and it is no longer than the description. |
| SrcMain.CommandIdOfTwoWords | src/main.ts:211 | Two words without white space, separated by a run of white space, give "sonkil-", the first word lower-cased, one dash, and the second word lower-cased. |
| SrcMain.DashedKeepsLowerCase | src/main.ts:211 | Replacing white-space runs brings in no upper-case letter. |
| SrcMain.ModHotkeysLoseCtrl | src/main.ts:230 | The bindings src/KeyController.ts reads back from these commands never carry the Ctrl flag, so no Ctrl event matches any of them. |
| SrcMain.RegisteredHotkeysHaveNoCtrl | src/main.ts:228-239 | The command registered for each binding has hotkeys, and none of them names "Ctrl". |
| SrcMain.RegisteredCommandsHaveNoCtrl | src/main.ts:209-222 | No command in the registered list has a hotkey naming "Ctrl". |
| SrcMain.UnmodifiedKeysAreUnbound | src/main.ts:58-168 | Every binding needs Ctrl or Alt, so without either (Escape included) no binding runs. |
| SrcMain.CtrlYRunsYank | src/main.ts:104-113 | Ctrl+Y first matches the Yank binding. |
| SrcMain.AltYRunsYankPop | src/main.ts:114-122 | Alt+Y first matches the Yank pop binding, even though Alt+W comes before it. |
| SrcMain.ActionStep | src/main.ts:58-168 | For every action: which component state it may change (ring/clipboard only by kills, copies and yanks; mark only by quit, set-mark and regions; and so on) and what it changes it to. Mode-quit resets everything and sends the cursor back; yank anchors fresh; yank-pop rotates; recenter advances only with a CodeMirror view; line moves are `exec` requests. |
| SrcMain.YankIsFreshYankPop | src/main.ts:104-122 | The Yank binding is Yank pop with the yank position forgotten first. |
| SrcMain.ModeQuitIdempotent | src/main.ts:241-245 | A second mode-quit changes nothing and sends nothing. |
| SrcMain.SonkilPlugin.constructor | src/main.ts:47-56 | Default size 60, an empty ring, no positions, recenter index 0, and no main cursor position. |
| SrcMain.SonkilPlugin.LoadConfig | src/main.ts:294-300 | A stored size replaces the configured one, with a falsy size falling back to 60. A fresh, empty kill-and-yank component of that size replaces the old one. |
| SrcMain.SonkilPlugin.ModeQuit | src/main.ts:241-245 | Mode-quit as `ActionStep` defines it. |
| SrcMain.SonkilPlugin.RunAction | src/main.ts:58-168 | Every binding's action gives exactly `ActionStep` and answers true. |
| SrcMain.SonkilPlugin.RunKillLine | src/main.ts:77-85 | Kill line as `ActionStep`. |
| SrcMain.SonkilPlugin.RunRegionAction | src/main.ts:86-103 | Kill region and copy region as `ActionStep`. |
| SrcMain.SonkilPlugin.RunYankAction | src/main.ts:104-122 | Yank (which resets the anchor first) and yank pop as `ActionStep`. |
| SrcMain.SonkilPlugin.RunOtherAction | src/main.ts:58-76 | Mode-quit, set-mark, recenter, line moves and cursor additions as `ActionStep`. |
| SrcMain.SonkilPlugin.HandleKeyEvent | src/main.ts:247-267 | With no view nothing changes. With Ctrl, Alt or Escape, the first matching binding runs and its answer is returned. Otherwise any key except Control/Alt forgets the yank position and resets the recenter index, and nothing else changes. |
| SrcMain.SonkilPlugin.OnUnload | src/main.ts:283-292 | Positions, recenter index and main position are reset, and no editor request is sent. |
| SrcMain.SonkilPlugin.SetKillRingMaxSize | src/main.ts:306-310 | The configured size is stored even when the ring refuses it. An accepted size shrinks the ring to its newest entries. |
| SrcMain.SonkilPlugin.OnSettingChange | src/main.ts:338-343 | Only a positive parsed size is passed on; anything else changes nothing. |
| MultiCursorSpec.TargetLine | src/MultiCursorComponent.ts:33-41 | The line above the first anchor or below the last anchor, present exactly when it is inside [0, lineCount). |
| MultiCursorSpec.NewCursor | src/MultiCursorComponent.ts:47-50 | A collapsed cursor on the target line, at column min(main column, line length). |
| MultiCursorComponent.MultiCursorComponent.constructor | src/MultiCursorComponent.ts:5 | No main position. |
| MultiCursorComponent.MultiCursorComponent.AddCursor | src/MultiCursorComponent.ts:29-54 | An out-of-range target changes nothing. Otherwise the main position is captured only if unset, and the new selections are the old ones followed by the one new cursor. |
| MultiCursorComponent.MultiCursorComponent.Reset | src/MultiCursorComponent.ts:56-66 | The main position is always cleared. The cursor moves only with more than one selection: to the main position, or else to the first anchor. |
| MultiCursorComponent.BoundaryScenario | tests/unit/MultiCursorPlugin.test.ts:112-129 | Up from the top line and down from the last line request nothing and capture no main position. |
| MultiCursorPlugin.MultiCursorPlugin.constructor | src/MultiCursorPlugin.ts:4 | No main position. |
| MultiCursorPlugin.MultiCursorPlugin.AddCursor | src/MultiCursorPlugin.ts:6-34 | An out-of-range target changes nothing. Otherwise the main position is set only if null, and the selections become the old ones plus one collapsed, clamped cursor. |
| MultiCursorPlugin.MultiCursorPlugin.ResetMultiCursors | src/MultiCursorPlugin.ts:36-41 | The cursor moves back and the main position is cleared only when it is set; otherwise nothing happens. |
| MultiCursorPlugin.MultiCursorPlugin.Reset | src/MultiCursorPlugin.ts:43-45 | Clears the main position with no editor request. |
| MultiCursorPlugin.ColumnScenario | tests/unit/MultiCursorPlugin.test.ts:71-110 | From column 5, two adds below land on column 5 of lines 1 and 2. |
| RecenterSpec.NextIndex | src/RecenterCursorComponent.ts:25 | The next index stays in {0, 1, 2} and wraps from 2 to 0. |
| RecenterSpec.IndexAfter | src/RecenterCursorComponent.ts:23-27 | The index after k calls stays in {0, 1, 2}. |
| RecenterSpec.ModesCycle | tests/unit/RecenterCursorComponent.test.ts:28-86 | Successive calls return center, start, end, center, … with period 3, and the index after k calls is (i+k) mod 3. |
| RecenterCursorComponent.RecenterCursorComponent.constructor | src/RecenterCursorComponent.ts:6-7 | The index starts at 0, so the first mode is center. |
| RecenterCursorComponent.RecenterCursorComponent.GetNextMode | src/RecenterCursorComponent.ts:23-27 | Returns the mode at the index and advances it modulo 3. |
| RecenterCursorComponent.RecenterCursorComponent.Reset | src/RecenterCursorComponent.ts:29-33 | The index becomes 0 whatever it was, so reset is idempotent. |
| RecenterCursorComponent.ResetScenario | tests/unit/RecenterCursorComponent.test.ts:88-125 | After three calls and two resets, the next mode is center. |
| RecenterCursorPlugin.RecenterCursorPlugin.constructor | src/RecenterCursorPlugin.ts:5-6 | The index starts at 0. |
| RecenterCursorPlugin.RecenterCursorPlugin.GetNextMode | src/RecenterCursorPlugin.ts:8-12 | Returns the mode at the index and advances it modulo 3. |
| RecenterCursorPlugin.RecenterCursorPlugin.Reset | src/RecenterCursorPlugin.ts:14-18 | The index becomes 0, and reset is idempotent. |
| RecenterCursorPlugin.RecenterCursorPlugin.RecenterEditor | src/RecenterCursorPlugin.ts:20-36 | Without a CodeMirror view nothing happens. Otherwise it scrolls to the next mode and advances the index. |
| RecenterCursorPlugin.RecenterScenario | src/RecenterCursorPlugin.ts:8-36 | The sequence is no scroll without a view, then center, start, and center again after two resets. |
| RecenterCursorRoot.RecenterCursorPlugin.constructor | RecenterCursorPlugin.ts:2-3 | The index starts at 0. |
| RecenterCursorRoot.RecenterCursorPlugin.GetNextMode | RecenterCursorPlugin.ts:5-9 | Returns the mode at the index and advances it modulo 3. |
| RecenterCursorRoot.RecenterCursorPlugin.Reset | RecenterCursorPlugin.ts:11-15 | The index becomes 0, and reset is idempotent. |
| RecenterCursorRoot.CycleScenario | RecenterCursorPlugin.ts:5-9 | Four calls give center, start, end, center. |
| Text.TrimStartDropsOnlyWhitespace | src/KillAndYankPlugin.ts:35 | What `trimStart` removes is a prefix made only of white space. With `TrimStart`'s own contract, the result is the rest of the string and does not start with white space. |
| Text.TrimEnd | src/KillAndYankPlugin.ts:35 | `trimEnd` returns a prefix of the string that does not end with white space, and everything it drops is white space. |
| Text.TrimStartEmptyIffBlank | src/KillAndYankPlugin.ts:35 | `trimStart` gives "" iff every character is white space. |
| Text.TrimEndEmptyIffBlank | src/KillAndYankPlugin.ts:35 | `trimEnd` gives "" iff every character is white space. |
| Text.TrimEmptyIffBlank | src/KillAndYankPlugin.ts:35 | `text.trim() === ''` holds exactly when every character is white space. |
| Text.SliceFrom | src/KillAndYankPlugin.ts:33 | `line.slice(ch)` is the remainder after the first ch characters, or "" past the end. |
| Text.ToLower | src/main.ts:272 | Same length, ASCII letters lowered, everything else kept, and no upper-case letter left. |
| Text.DashWhitespaceRunsKeepsPlainText | src/main.ts:211 | A string without white space is unchanged. |
| Text.DashWhitespaceRunsOfBlank | src/main.ts:211 | A non-empty run made only of white space becomes exactly one "-". |
| Text.DashWhitespaceRunsSplit | src/main.ts:211 | A white-space run between two stretches that do not touch it with white space becomes exactly one "-", and both stretches are converted on their own, in order. Together with the two lemmas above this fixes the result on every string. |
| Host.Sub | main.js:251 | `slice(i, j)` with both ends clamped: the characters from i to j when both are within the string, the rest of the string from i when j passes its end, and "" when j ≤ i or i is past the end. |
| Host.AfterWrite | src/KillRing.ts:27-29 | The write log only grows, by exactly the requested text. An accepted write is read back as the clipboard text, and the text changes only through an accepted write. |
| Host.Clipboard.constructor | src/KillRing.ts:1-4 | The given text and an empty write log. |
| Host.Clipboard.WriteText | src/KillRing.ts:27-29 | The clipboard after `writeText(t)` is `AfterWrite` of the old one. |

## Left out

- **Host plumbing.** DOM listener registration, `addCommand`, the settings tab UI, and console logging are not modelled. The inline-title target filter appears only as a boolean parameter in `KeyController.KeyController.HandleKeyEvent`; in the other dispatchers it sits in the DOM listener, which is not modelled.
- **The `mousedown` quit timer** (src/main.ts:198-206) is not modelled, because it is timing and host wiring.
- **Asynchrony.** `await` on the clipboard read and promise rejection of `writeText` are not modelled. A write that fails is a clipboard that does not accept writes: it is logged, and the ring update stands.
- **Clipboard source.** The clipboard text `yank` reads is a parameter in main.ts (`MainTs.SonkilPlugin.Yank`). In main.js and src/KillAndYankPlugin.ts it is the ring's own clipboard, which in the source defaults to `navigator.clipboard`, the object the source reads.
- **Persistence.** `saveConfig`, `saveSettings`, `loadSettings` and `loadData` are not modelled. `SrcMain.SonkilPlugin.LoadConfig` takes the stored size as a parameter.
- **Scrolling.** `scrollIntoView` and CodeMirror dispatch are not modelled. `recenterEditor` returns the mode it would scroll to.
- **Recenter in other copies.** The `recenter` method of src/RecenterCursorComponent.ts and main.js's `recenterEditor` are not part of this model.
- **Thin wrappers.** `getKillRingMaxSize` is a plain field read. The line moves of src/SwapPlugin.ts are recorded as `Exec("swapLineUp"/"swapLineDown")` requests. src/SwapComponent.ts and src/types.ts are not part of this model.
- **`positions.main` of src/main.ts.** It is declared but never used, so it is left out.
- **main.js dispatch and lifecycle.** main.js's own `handleKeyEvent`, `isKeyBindingMatch`, `onunload`, `loadConfig`, `setKillRingMaxSize` and settings tab are not part of this model. Their counterparts in main.ts and src/main.ts are modelled.
- **Editor semantics.** How the editor applies the requests is not modelled. `getRange` is `Host.RangeText`, lines joined by "\n".
- Text.ToLower: handles only ASCII case mapping, not full Unicode `toLowerCase`.
- Text.IsJsWhitespace: the white-space set is the fixed ECMAScript WhiteSpace and LineTerminator list, with the Zs category written out.
- MainTs.SonkilPlugin.Yank: on a ring that is still empty after the clipboard step, the source computes a NaN index (`% 0`) and reads `killRing[-1]`. The model returns an `EmptyRing` outcome and keeps the index at -1 instead of storing NaN. The selection request is still sent.
- MainTs.SonkilPlugin.AdvanceYank: on an empty ring with a yank position already set, main.ts:190 stores NaN as the ring index (`% 0`). The model keeps the index at -1.
- SrcMain.KeybindingToHotkeys: the contract states which modifier names occur, each once, but not their order (Mod, Alt, Shift, Meta in the source).
- SrcMain.SonkilPlugin.LoadConfig: it requires a non-negative stored size, and a stored size that is not a number is not modelled. A negative size would give the ring a negative capacity, which the ring classes here exclude.
- SizedKillRing.KillRing.constructor: requires a capacity of at least 1. In the source, a capacity of 0 makes `slice(-0)` keep every entry, and a negative one cuts the ring by a different rule.
- KillAndYank.KillAndYankPlugin.constructor: requires a capacity of at least 1, for the same reason. It also builds main.js's sized ring, whereas src/KillAndYankPlugin.ts:2 imports the ring of src/KillRing.ts. That ring's constructor takes the clipboard (src/KillRing.ts:13), so as written `new KillRing(maxRingSize)` stores the number as the clipboard and keeps capacity 120. Every `add` then throws at `this.clipboard.writeText` (src/KillRing.ts:27) after updating the ring, and `killLine` never sends its deletion (src/KillAndYankPlugin.ts:41-43). The model follows the ring the plugin's calls are written for.
- KillAndYank.KillAndYankPlugin.SetKillRingMaxSize: the ring of src/KillRing.ts has no `setMaxSize`, so as written the call throws a TypeError. The model forwards to the sized ring's `SetMaxSize`.
- SizedKillRing.KillRing.SetMaxSize: the thrown `Error` is the outcome `SizeTooSmall`. The rejection it causes in the async `setKillRingMaxSize` is not modelled.
- **Columns.** Columns and string lengths count characters (Unicode scalar values). JavaScript's `length`, `slice` and the editor's columns count UTF-16 code units. On a line holding a character outside the Basic Multilingual Plane, such as "a😀", the source deletes up to column 3 where the model deletes up to column 2, and a column inside a surrogate pair cannot be written.
- **Key-binding modifiers.** They are four mandatory booleans, as src/types.ts declares, so the `value === undefined` branch of `isKeyBindingMatch` cannot occur and is not modelled.

Where the plugin's documented behaviour and its code differ, the model follows the code:

- **De-duplication.** `add` does not de-duplicate; src/KillRing.ts:19-30 appends. tests/unit/KillRing.test.ts:47-55 expects de-duplication. `FixedKillRing.DuplicateScenario` shows what the code gives for that test: three entries, not two.
- **Capacities.** src/KillRing.ts has a fixed capacity of 120. The other rings default to 60.
- **Set mark.** It overwrites the mark (src/KillAndYankPlugin.ts:107-110). There is no toggle through the status bar, and src/StatusBarManager.ts is a plain status/text table.
- **Ctrl hotkeys.** The hotkeys src/main.ts registers name Ctrl as "Mod", while src/KeyController.ts looks for "Ctrl". `SrcMain.ModHotkeysLoseCtrl` shows that a controller built from those commands therefore never matches a Ctrl event.
- **`onunload`.** In src/main.ts it clears the main cursor position before calling `resetMultiCursors`, so unloading never moves the cursor back (`SrcMain.SonkilPlugin.OnUnload`).
