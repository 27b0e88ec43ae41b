# TUICast, verified

TUICast drives text user interfaces: it opens terminal sessions over Telnet or SSH, interprets their
output with an ANSI/DEC screen engine, and lets tests wait for what the screen shows. This project is
a Dafny 4.11 model of its core with proofs of what the core promises. Verify it with
`dafny verify dfyconfig.toml`.

## The modules

The screen engine (`ansi/terminal.go`):

- `Cells`, `Grids`: rows of cells, screens of rows, and the edits on them as functions on values.
- `ScreenModel`: the state of the engine and the effect of every parser event, of `Write` and of
  `Resize`.
- `CellStore`, `TerminalEngine`: the engine as it runs, two buffers in flat arrays that are
  overwritten in place. Every method is proved to have exactly the effect `ScreenModel` gives it, so
  no array access is out of range and everything below holds of the class.
- `ScreenEdits`, `ScreenControls`, `ScreenAddressing`, `ScreenRenditions`, `ScreenSwitch`,
  `ScreenSettings`, `ScreenReports`: what every control function and every rune leaves in each cell, in
  the cursor, in the modes and in the log, in numbers and cells rather than in the functions of
  `ScreenModel`.
- `ScreenPairing`, `ScreenLayout`, `ScreenWrap`, `ScreenRegions`, `ScreenCursor`, `ScreenVisibility`,
  `ScreenColors`, `ScreenIsolation`, `ScreenResize`, `ScreenRevision`: what the engine promises across
  them, for every state and every sequence of events.

The Telnet transport (`telnet/stream.go`) and the server of the reference application
(`reference/telnet/server.go`):

- `TelnetWire`: framing, and that decoding undoes encoding however the bytes are split.
- `TelnetClient`, `TelnetPeer`, `TelnetHandshake`: both protocol ends as functions on values, what they
  know about each other, what arrives, and what either answers to each option and subnegotiation.
- `TelnetOutlet`, `TelnetStream`, `TelnetServer`: both ends as classes with mutable fields, on a
  connection that may take part of a write or fail, proved to compute those functions as far as a
  failing write lets them.

Bounded logs and the parser's guard:

- `FlightRecorder` (`flightrecorder.go`), `EventLog` (`session.go`, `mcpserver/service.go`) and
  `StringGuard` (`parsing/parser.go`): each a specification over everything ever seen, what it
  promises, and a class proved against it.

Concurrency, as interleavings of atomic steps (what happens under one lock, or one channel or
transport operation):

- `EventDelivery` (event subscriptions), `WakeUp` (waiting for a screen), `ScreenObserver` (observing
  screens), `LatestChannel` (the one-place channels for screens and window sizes), `RecordingOrder`
  (recordings against screens seen), `ExclusiveControl` (input control of a session), `Lifecycle`
  (opening and closing connections and sessions).

`Options` holds the one datatype that several of them share.

## Where code and expectation differ

The model follows the code. Each difference is a proved counterexample, an exact condition, or both.

- `design/terminal-behavior.md:29-32` describes a wide character as a width-two cell followed by a
  continuation. ED, EL and ECH can break such a pair: `ScreenPairing.EraseCanCutPair` gives an input,
  `ScreenPairing.EraseKeepsPairingIff` says exactly when they do not.
- The same document ties the snapshot revision to visible changes. Modes 1047 and 1049 set while the
  alternate screen is shown, and mode 1049 reset while the main screen is shown, can change the
  snapshot and keep the revision: `ScreenRevision.SilentEnter` and `ScreenRevision.SilentLeave`, with
  the exact condition in `ScreenRevision.WriteModeIff`.
- A pending wrap belongs to a cursor in the last column. NEL (ESC E) and the same three mode changes
  move the cursor and leave the wrap pending, so that the next rune wraps again:
  `ScreenWrap.NextLineWrapsTwice`, with the exact conditions in `ScreenWrap.NextLineIff` and
  `ScreenWrap.ModeEdgeIff`. Nothing else does: `ScreenWrap.StepAtEdge`, `ScreenWrap.RunAtEdge`.
- `design/terminal-behavior.md:81-82` gives cursor visibility to mode 25. DECRC brings back the
  visibility saved with the cursor, which is invisible while nothing has been saved, and modes 1047 and
  1049 set on the shown alternate screen make the cursor visible: `ScreenVisibility.RestoreHides`, with
  the exact conditions in `ScreenVisibility.RestoreIff` and `ScreenVisibility.ModeVisibleIff`. Nothing
  else does: `ScreenVisibility.StepAsAsked`, `ScreenVisibility.FeedAsAsked`.
- Closing the driver forgets the registered controllers without taking any session's gate, so that a
  client, or a second controller, can operate beside one: `ExclusiveControl.ClosingAllowsOverlap`,
  with the exact conditions in `ExclusiveControl.OverlapIff` and `ExclusiveControl.SecondControllerIff`.
  Until then control is exclusive.
- `session.go:288-291` promises the latest snapshot after each visible revision. The observer takes its
  snapshot before it takes the channel it sleeps on, and can miss a change that is signalled in
  between: `ScreenObserver.MissedScreen`, with the exact condition in `ScreenObserver.StaleIff`.
- `flightrecorder.go:74-76` promises that any screen a caller has observed is recorded when it takes a
  recording. That holds of output, and of a resize exactly if it is not the one under way:
  `RecordingOrder.SeenIsRecorded`. A resize can also be recorded behind output that came after it:
  `RecordingOrder.OrderCanDiffer`.
- The reference server waits for the old window size when it replaces one that nobody has taken. If its
  reader takes it first, the server waits for ever: `LatestChannel.PatientWriterSticks`, with the exact
  condition in `LatestChannel.StuckIff`.
- The components of a direct colour are never read as attributes, but what stands before and behind
  one is not always read as if it were not there: `ScreenColors.JoinedColor`, with the exact condition
  in `ScreenColors.StrippedReadsIff`. Nor can every list of renditions be sent in two parts:
  `ScreenColors.SplitIff`.
- Inserting characters and deleting as many does not always give the row back:
  `Cells.InsertThenDeleteIff` says exactly when. Nor does moving the cursor forth and back:
  `ScreenCursor.MovesUndoIff`.

## Model

| member | source | states |
|---|---|---|
| `Cells.NormalizePairs` | ansi/terminal.go:511-524 | any row becomes a paired one, keeping exactly the narrow cells and the adjacent lead-continuation pairs |
| `Cells.ClearWidePairs` | ansi/terminal.go:492-509 | clearing the wide character over a column keeps the row paired, leaves a narrow cell there and touches no other narrow cell |
| `Cells.PutRunePairs` | ansi/terminal.go:446-463 | writing a rune of width 1 or 2 over anything keeps a paired row paired |
| `Cells.EraseRowPairs` | ansi/terminal.go:785-810 | blanking a range keeps a row paired if and only if neither edge is inside a wide character |
| `Cells.ShiftPairs` | ansi/terminal.go:812-830 | inserting and deleting characters keep a row paired |
| `Cells.InsertThenDeleteIff` | ansi/terminal.go:812-830 | ICH then DCH of as many gives the row back, blank at its end, if and only if neither the cursor nor the point where cells fall off is inside a wide character |
| `Cells.ResizeRowPairs` | ansi/terminal.go:371-384 | a resized row is paired and keeps every cell of the overlap but a lead cut by the new edge, which is blank |
| `Cells.ResizeRowRoundTrip` | ansi/terminal.go:371-384 | widening a paired row and cutting it back restores it |
| `Grids.InsertThenDeleteRows` | ansi/terminal.go:832-860 | inserting rows and deleting as many restores the region but for its last rows, which are blank |
| `Grids.DeleteThenInsertRows` | ansi/terminal.go:832-860 | deleting rows and inserting as many restores the region but for its first rows |
| `Grids.RowInsertsAdd` | ansi/terminal.go:832-845 | inserting m and then n rows is inserting m + n, or the whole region if that is more |
| `Grids.RowDeletesAdd` | ansi/terminal.go:847-860 | the same for deleting |
| `Grids.ResizeGridRoundTrip` | ansi/terminal.go:371-384 | growing a paired screen and cutting it back restores it |
| `CellStore.NormalizeCells` | ansi/terminal.go:511-524 | the in-place scan, which reads cells it has already overwritten, computes the normalized row |
| `CellStore.ClearWideCharacterAt` | ansi/terminal.go:492-509 | the in-place edit changes one row of the screen, and that row to its cleared form |
| `CellStore.StoreRune` | ansi/terminal.go:446-463 | storing a lead and its continuation cell by cell is putting the rune on its row |
| `CellStore.InsertInRow` | ansi/terminal.go:812-820 | the overlapping copy, the blanks and the normalization are the insertion of characters in one row |
| `CellStore.DeleteInRow` | ansi/terminal.go:822-830 | likewise for deletion |
| `CellStore.MoveRowsDown` | ansi/terminal.go:832-845 | the backward copy loop moves each row of the region down and no other |
| `CellStore.MoveRowsUp` | ansi/terminal.go:847-860 | the forward copy loop moves each row of the region up and no other |
| `CellStore.InsertRowsInPlace` | ansi/terminal.go:832-845 | the in-place insertion of lines equals slicing and concatenating rows |
| `CellStore.DeleteRowsInPlace` | ansi/terminal.go:847-860 | the in-place deletion of lines equals slicing and concatenating rows |
| `CellStore.ScrollUpInPlace` | ansi/terminal.go:569-574 | scrolling up is deleting one row at the top margin |
| `CellStore.ScrollDownInPlace` | ansi/terminal.go:576-586 | scrolling down is inserting one row at the top margin |
| `CellStore.EraseBelowInPlace` | ansi/terminal.go:757-783 | blanking the store from the cursor on blanks the rest of its row and the rows below |
| `CellStore.EraseAboveInPlace` | ansi/terminal.go:757-783 | blanking the store up to the cursor blanks the rows above and its row up to it |
| `CellStore.ResizedCells` | ansi/terminal.go:371-384 | the copy of the overlap into new cells, normalized row by row, is the resized screen |
| `TerminalEngine.FindCell` | ansi/terminal.go:474-490 | walking back over continuations finds the cell a combining rune extends |
| `TerminalEngine.New` | ansi/terminal.go:66-113 | fails exactly for dimensions that are not positive and for unknown profiles; otherwise the fresh state |
| `TerminalEngine.Terminal.Print` | ansi/terminal.go:414-472 | a printed rune has the modelled effect: charset, width, wrap, insert mode, overwriting of wide characters, cursor, pending wrap |
| `TerminalEngine.Terminal.AppendCombining` | ansi/terminal.go:474-490 | a combining rune joins the last printed cell, or is dropped |
| `TerminalEngine.Terminal.Execute` | ansi/terminal.go:526-558 | every control character has the modelled effect |
| `TerminalEngine.Terminal.LineFeed` | ansi/terminal.go:560-567 | a line feed scrolls the region at the bottom margin only, and stops at the last row |
| `TerminalEngine.Terminal.ReverseIndex` | ansi/terminal.go:576-586 | a reverse index scrolls at the top margin only, and stops at the first row |
| `TerminalEngine.Terminal.HandleEscape` | ansi/terminal.go:597-629 | every escape sequence has the modelled effect, or is reported as unsupported |
| `TerminalEngine.Terminal.HandleOsc` | ansi/terminal.go:631-646 | titles are set and shown by a revision only when they change |
| `TerminalEngine.Terminal.HandleCsi` | ansi/terminal.go:688-743 | every control sequence has the modelled effect, or is reported as unsupported |
| `TerminalEngine.Terminal.EraseDisplay` | ansi/terminal.go:757-783 | ED in place |
| `TerminalEngine.Terminal.EraseLine` | ansi/terminal.go:785-801 | EL in place |
| `TerminalEngine.Terminal.EraseCharacters` | ansi/terminal.go:803-810 | ECH in place |
| `TerminalEngine.Terminal.InsertCharacters` | ansi/terminal.go:812-820 | ICH in place |
| `TerminalEngine.Terminal.DeleteCharacters` | ansi/terminal.go:822-830 | DCH in place |
| `TerminalEngine.Terminal.InsertLines` | ansi/terminal.go:832-845 | IL in place, and nothing outside the scroll region |
| `TerminalEngine.Terminal.DeleteLines` | ansi/terminal.go:847-860 | DL in place, and nothing outside the scroll region |
| `TerminalEngine.Terminal.SetModes` | ansi/terminal.go:862-873 | the loop over mode parameters has the effect of each in turn |
| `TerminalEngine.Terminal.SetPrivateModes` | ansi/terminal.go:875-898 | the loop over private modes has the effect of each in turn |
| `TerminalEngine.Terminal.SetXTermPrivateMode` | ansi/terminal.go:914-936 | modes 47, 1047 and 1049 switch screens, the last one saving and restoring the cursor; any other mode changes nothing and is answered with false |
| `TerminalEngine.Terminal.EnterAlternate` | ansi/terminal.go:938-955 | the alternate buffer is made or cleared as the model says, with fresh cells |
| `TerminalEngine.Terminal.ExitAlternate` | ansi/terminal.go:957-964 | back to the main buffer, if the alternate one is shown |
| `TerminalEngine.Terminal.SetRendition` | ansi/terminal.go:966-1020 | the loop over rendition parameters, which skips those a colour consumes, computes the modelled style |
| `TerminalEngine.Terminal.SetExtendedColor` | ansi/terminal.go:1022-1054 | indexed colours apply, direct colours are reported and passed over in both spellings |
| `TerminalEngine.Terminal.SetScrollRegion` | ansi/terminal.go:1056-1068 | a valid region is set and the cursor goes home; others change nothing |
| `TerminalEngine.Terminal.Reset` | ansi/terminal.go:1070-1087 | everything is as in a new terminal but revision, events and title |
| `TerminalEngine.Terminal.Write` | ansi/terminal.go:306-319 | feeds every event and raises the revision by one or not at all |
| `TerminalEngine.Terminal.Resize` | ansi/terminal.go:347-369 | refuses dimensions that are not positive, does nothing for the current ones, and otherwise resizes both buffers |
| `ScreenModel.Step` | ansi/terminal.go:414-743 | every event keeps the geometry: grids of the right size, all four cursors in the grid, the scroll region in order and on the screen, a wrap pending only with autowrap on |
| `ScreenModel.Run` | ansi/terminal.go:306-369 | so does every run of writes and resizes, from any state that has it |
| `ScreenModel.Fresh` | ansi/terminal.go:66-102 | a new terminal has that geometry |
| `ScreenPairing.PrintKeepsPairing` | ansi/terminal.go:414-524 | printing anything, in any mode, keeps wide characters whole |
| `ScreenPairing.StepKeepsPairing` | ansi/terminal.go:414-964 | every event but ED, EL and ECH keeps every wide character whole in both buffers |
| `ScreenPairing.EraseKeepsPairingIff` | ansi/terminal.go:757-810 | ED, EL and ECH do so if and only if no edge of the erased range is inside a wide character |
| `ScreenPairing.EraseCanCutPair` | ansi/terminal.go:785-801 | an EL that leaves a lead without its continuation |
| `ScreenPairing.ResizeKeepsPairing` | ansi/terminal.go:347-384 | every resize keeps wide characters whole |
| `ScreenPairing.RunKeepsPairing` | ansi/terminal.go:306-384 | from a new terminal, every run whose erases cut no wide character shows only whole ones |
| `ScreenLayout.PrintLayout` | ansi/terminal.go:414-490 | printable text of narrow, wide and combining runes shows the last lines of the text broken greedily: nothing lost or split, a line short only before a wide rune |
| `ScreenLayout.NarrowLayout` | ansi/terminal.go:414-472 | n narrow runes: rune (r + offset) * width + c at row r and column c, cursor and pending wrap by closed formulas |
| `ScreenWrap.NextLineIff` | ansi/terminal.go:597-629 | after NEL a pending wrap has its cursor in the last column if and only if none was pending or there is only one column |
| `ScreenWrap.ModeEdgeIff` | ansi/terminal.go:875-964 | a private mode parts a pending wrap from the last column if and only if it clears the shown alternate screen, or restores a cursor saved elsewhere on the shown main screen |
| `ScreenWrap.NextLineWrapsTwice` | ansi/terminal.go:597-629 | an input on which the rune after NEL goes a row too far |
| `ScreenWrap.StepAtEdge` | ansi/terminal.go:414-743 | every other event keeps a pending wrap with a cursor in the last column |
| `ScreenWrap.RunAtEdge` | ansi/terminal.go:306-369 | so does every run of writes and resizes without those, from a new terminal |
| `ScreenEdits.EraseDisplayCells` | ansi/terminal.go:757-783 | after ED exactly the cells at or behind the cursor in reading order (0), at or before it (1), or all (2, and 3 on XTerm) are spaces in the current style; every other cell, the cursor and all else but the log is as it was; other modes do nothing |
| `ScreenEdits.EraseLineCells` | ansi/terminal.go:785-801 | the same for EL, on the line of the cursor |
| `ScreenEdits.EraseCharactersCells` | ansi/terminal.go:803-810 | the same for ECH, for as many cells from the cursor on as asked for, or one |
| `ScreenEdits.InsertCharactersCells` | ansi/terminal.go:812-820 | after ICH every cell of the line is the one from as many columns to the left, a space where room was made, and blank where a half of a wide character would stand alone; only that line changes |
| `ScreenEdits.DeleteCharactersCells` | ansi/terminal.go:822-830 | likewise for DCH, from the right |
| `ScreenControls.RelativeMoves` | ansi/terminal.go:703-714 | CUU, CUD, CUF and CUB take the cursor n rows or columns, but not over the edge, end a pending wrap and change nothing else |
| `ScreenControls.AbsoluteMoves` | ansi/terminal.go:715-721 | CHA, CUP and HVP take it to the position asked for, counted from 1, or to the edge it is beyond |
| `ScreenControls.ControlMoves` | ansi/terminal.go:532-546 | BS goes back one column, CR to the first, HT to the next multiple of 8 or the last column |
| `ScreenControls.SavedCursor` | ansi/terminal.go:605-610 | DECSC saves position and visibility and changes nothing else; DECRC brings both back and ends a pending wrap |
| `ScreenControls.ScrollRegion` | ansi/terminal.go:1056-1068 | DECSTBM sets exactly the region asked for and takes the cursor home if its first row is above its last and both are on the screen; otherwise it changes nothing |
| `ScreenControls.LineFeeds` | ansi/terminal.go:540-574 | on the bottom margin every row of the region becomes the one below it and the last a blank one in the current style; elsewhere the cursor goes down a row, if there is one; a pending wrap ends |
| `ScreenControls.NextLines` | ansi/terminal.go:611-615 | the same for IND and NEL, with the cursor in the first column after NEL; a pending wrap stays |
| `ScreenControls.ReverseLineFeed` | ansi/terminal.go:576-586 | the same for RI, upwards |
| `ScreenControls.InsertLinesRows` | ansi/terminal.go:832-845 | after IL every row from the cursor to the bottom margin is the one from n rows above, or blank; outside the region nothing changes at all |
| `ScreenControls.DeleteLinesRows` | ansi/terminal.go:847-860 | likewise for DL, from below |
| `ScreenAddressing.PrintsAtCursor` | ansi/terminal.go:414-472 | with no wrap pending and enough columns left, a rune of one or two columns takes exactly its cells in the current style, after room was made in insert mode, blanks exactly the halves of wide characters it leaves alone, and takes the cursor past it, or pends a wrap in the last column if there is wrapping; nothing else changes |
| `ScreenAddressing.AddressedPrint` | ansi/terminal.go:414-472 | after CUP it does so at the position given, whatever was shown and pending |
| `ScreenAddressing.WrapIsNewLine` | ansi/terminal.go:433-439 | with a wrap pending, or when a wide rune has only the last column, printing is CR, LF and printing |
| `ScreenAddressing.WideTakesOne` | ansi/terminal.go:430-442 | a wide rune without wrapping in the last column, or on a screen of one column, is printed as a narrow one |
| `ScreenAddressing.CombiningJoins` | ansi/terminal.go:474-490 | a combining rune is appended to the character before the cursor, to the first half of a wide one, or to the one under the cursor when a wrap is pending; at the start of a line it is dropped |
| `ScreenRenditions.ColorCodes` | ansi/terminal.go:1000-1015 | 30 to 37 and 40 to 47 set the text and ground colours 0 to 7, 90 to 97 and 100 to 107 on XTerm 8 to 15, 39 and 49 the default ones, and nothing else changes |
| `ScreenRenditions.AttributeCodes` | ansi/terminal.go:980-989 | 1, 4, 5, 7 and 8 add exactly bold, underline, blink, reverse and conceal |
| `ScreenRenditions.AttributesOff` | ansi/terminal.go:990-999 | 22, 24, 25, 27 and 28 take exactly these away |
| `ScreenRenditions.ClearingCodes` | ansi/terminal.go:966-979 | 0, a code left out and an empty list give the default style |
| `ScreenRenditions.OtherCodes` | ansi/terminal.go:1002-1036 | any other code is reported and changes nothing; a selector without a colour does nothing on XTerm and is reported elsewhere |
| `ScreenSwitch.EntersBlank` | ansi/terminal.go:914-955 | 1047 and 1049 set on the main screen show a blank alternate screen with the cursor at home, whatever it showed before; the main screen is kept, and its cursor saved by 1049 |
| `ScreenSwitch.EntersAsLeft` | ansi/terminal.go:938-955 | 47 shows the alternate screen as it was left, and a blank one the first time |
| `ScreenSwitch.EntersAgain` | ansi/terminal.go:914-955 | set on the alternate screen, 47 does nothing, and 1047 and 1049 blank it but keep what was saved there |
| `ScreenSwitch.Leaves` | ansi/terminal.go:914-964 | reset, all three show the main screen again and keep the alternate one; 1049 restores the position saved, not the visibility; on the main screen the others do nothing |
| `ScreenSwitch.SettingModes` | ansi/terminal.go:862-886 | modes 1, 4 and 7 change exactly their setting, and 7 also ends a pending wrap |
| `ScreenSwitch.CursorMode` | ansi/terminal.go:887-892 | mode 25 shows or hides the cursors of both screens and changes nothing else but the revision |
| `ScreenSwitch.ResetLeaves` | ansi/terminal.go:1070-1087 | a reset leaves spaces in the default style, the cursor at home and visible, the whole screen as region, every mode and charset as on a new terminal, and size, title and reports as they were |
| `ScreenSwitch.FreshIsNew` | ansi/terminal.go:66-102 | a new terminal is just that, with nothing reported and no title |
| `ScreenSettings.StepAsAsked` | ansi/terminal.go:414-910 | every event leaves charsets, insertion, cursor keys and wrapping as an independent table of SO, SI, SCS, RIS and the modes 4, 1 and 7 says |
| `ScreenSettings.FeedAsAsked` | ansi/terminal.go:306-319 | so after any events they are as last asked for |
| `ScreenSettings.CharsetsOnly` | ansi/terminal.go:547-602 | SO, SI and SCS change nothing else |
| `ScreenSettings.ShowsInCharset` | ansi/terminal.go:414-417 | a rune printed after any events shows in the charset last designated and invoked; the DEC special graphics replace eleven letters by lines |
| `ScreenReports.StepLogs` | ansi/terminal.go:526-743 | every event reports exactly what an independent table says: ENQ, BEL, each mode, rendition and sequence that is not known, and nothing else; the title is changed by OSC 0 and 2 on XTerm only |
| `ScreenReports.FeedLogs` | ansi/terminal.go:306-319 | so do any events, in their order |
| `ScreenReports.IdleReports` | ansi/terminal.go:526-743 | what is not supported, or deliberately ignored, has no effect at all but its report: no cell, cursor, pending wrap, mode or revision changes |
| `ScreenReports.TitleSets` | ansi/terminal.go:631-646 | OSC 0 and 2 set the title on XTerm, with a new revision if and only if it is another one |
| `ScreenRegions.LineFeedsAreDeleteLines` | ansi/terminal.go:560-574 | any number n of line feeds of any kind at the bottom margin do to the screen what one DL of n does at the top margin |
| `ScreenRegions.ReverseIndexesAreInsertLines` | ansi/terminal.go:576-586 | any number n of reverse indexes at the top margin do what one IL of n does there |
| `ScreenRegions.DeleteUndoesInsert` | ansi/terminal.go:832-860 | IL n then DL n restores the screen but for the last n rows of the region, which are blank |
| `ScreenRegions.InsertUndoesDelete` | ansi/terminal.go:832-860 | DL n then IL n restores it but for the first n rows from the cursor |
| `ScreenRegions.OutsideRegionUntouched` | ansi/terminal.go:560-586 | whatever moves lines leaves rows outside the region and the hidden buffer alone |
| `ScreenCursor.MovesUndoIff` | ansi/terminal.go:703-714 | CUF then CUB, and CUD then CUU, of n bring the cursor back if and only if the edge did not stop the first, or stops the second where it began |
| `ScreenCursor.SaveRestore` | ansi/terminal.go:597-629 | DECSC, then anything that does not save, reset or switch screens, then DECRC: the cursor as saved |
| `ScreenVisibility.RestoreIff` | ansi/terminal.go:606-609 | DECRC leaves the cursor as visible as last asked for if and only if that was the visibility saved |
| `ScreenVisibility.RestoreHides` | ansi/terminal.go:606-609 | DECRC hides the cursor of every new terminal |
| `ScreenVisibility.ModeVisibleIff` | ansi/terminal.go:875-964 | a private mode leaves it so, on both screens, if and only if it does not clear the shown alternate screen under a hidden cursor |
| `ScreenVisibility.StepAsAsked` | ansi/terminal.go:414-964 | every other event leaves it so |
| `ScreenVisibility.FeedAsAsked` | ansi/terminal.go:306-319 | over any events without those the cursor shown is visible exactly as mode 25, or a reset, last asked |
| `ScreenColors.RenditionReads` | ansi/terminal.go:966-1054 | the loop that skips what a colour consumes leads to the style and the reports of reading the list rendition by rendition |
| `ScreenColors.SplitIff` | ansi/terminal.go:966-1054 | a list p can be sent as a sequence of its own before every other list q if and only if no colour selector of p reaches past its end |
| `ScreenColors.IndexedColor` | ansi/terminal.go:1022-1054 | 38;5;n and 48;5;n, wherever they stand behind such a p, change exactly their ground, for n up to 255 |
| `ScreenColors.StrippedReadsIff` | ansi/terminal.go:1022-1054 | without its direct colours, of either spelling, anywhere and complete or not, a list is read as before but for them, if and only if no selector without a colour gets one by that |
| `ScreenColors.DirectColorsPassedOver` | ansi/terminal.go:1022-1054 | then the style is what the rest of the list makes it |
| `ScreenColors.JoinedColor` | ansi/terminal.go:1022-1054 | a list whose style changes when its direct colour goes |
| `ScreenColors.CodesCommuteIff` | ansi/terminal.go:966-1020 | two supported codes other than 0 may change places on every style if and only if they touch different grounds or attributes, or ask for the same |
| `ScreenColors.SecondUndoesFirstIff` | ansi/terminal.go:966-1020 | an off code undoes its on code if and only if the attribute was off; a default ground undoes a colour if and only if the ground was the default |
| `ScreenIsolation.AlternateIsolation` | ansi/terminal.go:875-964 | between entering and leaving with mode 1049, anything that neither resets nor leaves restores the main cells and cursor position exactly, with visibility as mode 25 last set it |
| `ScreenResize.ResizeKeepsScreens` | ansi/terminal.go:347-384 | in both buffers every cell of the overlap survives but a wide lead cut by the new edge; the rest is blank, cursors move no further than to the new edge, the region is the whole screen, no wrap is pending and the revision rises by one; with dimensions that are not positive, or the current ones, nothing changes |
| `ScreenResize.GrowShrinkRestores` | ansi/terminal.go:347-384 | growing and shrinking back restores both buffers and all four cursors |
| `ScreenRevision.ModeHonestIff` | ansi/terminal.go:875-964 | a private mode hides a visible change from the revision if and only if it is one of the silent cases, stated before the call |
| `ScreenRevision.WriteModeIff` | ansi/terminal.go:306-319 | a Write of one private mode changes the screen and keeps the revision if and only if it is one of those cases |
| `ScreenRevision.SilentLeave` | ansi/terminal.go:914-936 | a silent Write of mode 1049 reset on the main screen |
| `ScreenRevision.SilentEnter` | ansi/terminal.go:938-955 | silent Writes of modes 1047 and 1049 set on the alternate screen |
| `ScreenRevision.WriteHonest` | ansi/terminal.go:306-319 | a write without silent modes raises the revision by one, or leaves it and cells, cursor, size and title as they were |
| `ScreenRevision.StepShift` | ansi/terminal.go:410-412 | no event reads the revision |
| `ScreenRevision.WriteSplit` | ansi/terminal.go:306-319 | splitting a write in two changes nothing but the revision |
| `TelnetWire.DecodeUnits` | telnet/stream.go:152-205 | decoding gives back every payload byte, request and subnegotiation of an encoded stream in order |
| `TelnetWire.ChunksDoNotMatter` | telnet/stream.go:73-107 | how the bytes are split into reads makes no difference |
| `TelnetWire.FramingRoundTrip` | reference/telnet/server.go:159-211 | a peer recovers every unit under any chunking |
| `TelnetClient.OptionTruth` | telnet/stream.go:207-293 | over every run, an option is on exactly when the last WILL/WONT or DO/DONT sent says so, only supported options are on, and while window size is on the last size sent is the current one |
| `TelnetClient.AnswersOnlyChanges` | telnet/stream.go:207-254 | a request is answered if and only if it asks for a change, and the answer tells the new state (rule b of the general considerations in RFC 854) |
| `TelnetClient.CutTruthIff` | telnet/stream.go:207-293 | an answer cut short by a failed write leaves the options true to what was attempted if and only if nothing was missing or this size had been told before; only the size can be missing |
| `TelnetHandshake.AgreesTo` | telnet/stream.go:207-272 | byte for byte: DO of binary, no go-ahead, terminal type and window size is agreed to, the last with the size, and WILL of binary, echo and no go-ahead |
| `TelnetHandshake.Refuses` | telnet/stream.go:207-272 | every other option is refused, and one that is held is given up when asked |
| `TelnetHandshake.TellsType` | telnet/stream.go:274-281 | a peer that asks for the terminal type is told it (section 2 of RFC 1091); no other subnegotiation is answered |
| `TelnetHandshake.AsksForType` | reference/telnet/server.go:159-193 | the server asks whoever offers a terminal type for it, and answers nothing else |
| `TelnetHandshake.Opening` | reference/telnet/server.go:106-113 | the opening exchange end to end: after it the client holds all that was asked for, the server knows its size and was told the type, and neither has more to say |
| `TelnetHandshake.Skipped` | telnet/stream.go:152-205 | other two-byte commands, and a subnegotiation that one of them breaks off, mean nothing, and reading goes on behind them |
| `TelnetPeer.SizeSurvives` | telnet/stream.go:283-293 | a window size of 1 to 65535 each way is read back (section 2 of RFC 1073) |
| `TelnetPeer.EndToEnd` | reference/telnet/server.go:159-229 | for every run of a client and any chunking, the server reads exactly what was written and every size sent, and knows the current size while the option is on |
| `TelnetPeer.ClientReads` | telnet/stream.go:73-107 | the client reads exactly the user data the server sends among any negotiation, under any chunking |
| `TelnetStream.AppendEscaped` | telnet/stream.go:315-323 | the loop doubles every IAC and nothing else |
| `TelnetOutlet.Outlet.WriteAll` | telnet/stream.go:299-313 | the loop over partial writes puts a beginning of the bytes on the wire, and all of them unless it reports a failure |
| `TelnetOutlet.Outlet.Write` | telnet/stream.go:299-313 | as long as no failure was reported the wire is exactly the encoded units, and afterwards it still begins with those before the failure |
| `TelnetStream.Stream.Process` | telnet/stream.go:152-205 | the byte loop computes the modelled client, or stops at the byte at whose handling a write fails, reports it, and has done that byte but for the units behind the failure |
| `TelnetStream.Stream.Negotiate` | telnet/stream.go:207-254 | one request changes options and wire as modelled, but for the units behind a failed write, which is reported |
| `TelnetStream.Stream.Subnegotiate` | telnet/stream.go:274-281 | a terminal-type request is answered with the escaped type; a failed write is reported |
| `TelnetStream.Stream.Write` | telnet/stream.go:109-121 | the payload goes out escaped, as one unit; a beginning of it if the failure of the connection is reported |
| `TelnetStream.Stream.Resize` | telnet/stream.go:123-141 | sizes outside 1 to 65535 are refused; others are kept, and told to the peer while window size is on; a failed write is reported |
| `TelnetServer.ProtocolStream.Negotiate` | reference/telnet/server.go:106-113 | the four opening requests go out in one write; a failure is reported |
| `TelnetServer.ProtocolStream.Process` | reference/telnet/server.go:159-211 | the byte loop computes the modelled server, and stops behind the byte at whose handling a write fails, which is reported |
| `TelnetServer.ProtocolStream.Write` | reference/telnet/server.go:145-157 | the payload goes out escaped; a beginning of it if the failure of the connection is reported |
| `TelnetServer.ProtocolStream.ApplySubnegotiation` | reference/telnet/server.go:213-229 | a four-byte window size with both dimensions positive replaces the size nobody has taken yet |
| `LatestChannel.StuckIff` | reference/telnet/server.go:213-229 | in every interleaving with the reader of the channel, the writer that waits for the old value is stuck for ever if and only if the reader takes it after the writer found the channel full; a writer that does not wait never is |
| `LatestChannel.PatientWriterSticks` | reference/telnet/server.go:213-229 | such an interleaving |
| `LatestChannel.NewestReachesReader` | session.go:601-620 | in every interleaving the reader takes some of the values in their order, and between values the newest is in the channel or was taken last |
| `FlightRecorder.RecordingIsFaithful` | flightrecorder.go:77-133 | a recording is the longest suffix of everything logged within 65536 bytes of output and 4096 records; the output it holds is all there was but for as many bytes as it counts as dropped; its dimensions lead to the current ones |
| `FlightRecorder.StartGrows` | flightrecorder.go:100-113 | appending never brings back what was dropped |
| `FlightRecorder.Recorder.Append` | flightrecorder.go:77-96 | a record is appended and the recorder still holds exactly that suffix of the log |
| `FlightRecorder.Recorder.Evict` | flightrecorder.go:100-113 | dropping the oldest until the rest fits leaves the longest suffix that fits, with its counters and dimensions |
| `FlightRecorder.Recorder.Recorded` | flightrecorder.go:115-133 | what is handed out is the recording of the whole log, with the profile, the start, the time since then and the unsupported sequences |
| `RecordingOrder.SeenIsRecorded` | flightrecorder.go:74-96 | in every interleaving of output, resizes and callers, all output behind a screen seen is in a recording taken afterwards, and all resizes if and only if none that was seen is still under way |
| `RecordingOrder.DimensionsAgree` | session.go:151-170 | while no resize is under way the dimensions a recording leads to are the terminal's |
| `RecordingOrder.OrderCanDiffer` | session.go:151-170 | an interleaving in which a resize is recorded behind output that the terminal got after it |
| `RecordingOrder.EverythingRecorded` | session.go:151-170 | the terminal gets all output and resizes as they come, and what is not under way has been recorded, each kind in its order |
| `EventLog.HistoryIsNewest` | session.go:558-575 | the history is the last 256 events or all of them, numbered without gaps up to the newest |
| `EventLog.MissedAccountsIff` | mcpserver/service.go:311-324 | missed plus returned is total minus afterSequence if and only if afterSequence is not beyond the last event |
| `EventLog.NamesInOrder` | session.go:540-556 | the i-th name is the sequence before whose first appearance exactly i others had been received; the first 256 of them are tracked, in this order, and reported at that appearance |
| `EventLog.ReportedIff` | session.go:540-556 | a reception is reported if and only if it is the first of a tracked sequence |
| `EventLog.NamesStep` | session.go:540-556 | what one more sequence does to the names |
| `EventLog.CountedRepeat` | session.go:540-556 | a repeated tracked sequence raises exactly its own count |
| `EventLog.CountedNew` | session.go:540-556 | a new sequence is appended with count one if there is room, and changes nothing otherwise |
| `EventLog.ReportedOnce` | session.go:540-556 | no sequence is reported as new twice |
| `EventLog.Bookkeeping.PublishEvent` | session.go:558-575 | the next number is given, the history is that of everything published, every subscriber with room gets the event, and the others are cut off with what they have |
| `EventLog.Bookkeeping.RecordUnsupported` | session.go:540-556 | list and index stay those of everything received, and the answer tells a first appearance |
| `EventLog.Bookkeeping.EventsAfter` | session.go:370-380 | the loop returns exactly the retained events after a number |
| `EventLog.Service.Events` | mcpserver/service.go:311-324 | fails exactly for an unknown session or a closed service; otherwise those events, and how many are missing before them |
| `StringGuard.GuardsUtf8` | parsing/parser.go:113-156 | UTF-8 text (section 4 of RFC 3629) in an OSC or DCS string shows the parser no terminator and is restored exactly; in other strings it shows only ASCII; the counter ends at zero |
| `StringGuard.RestoreIff` | parsing/parser.go:151-156 | for arbitrary bytes, restoring undoes protecting if and only if the placeholder byte is not among them |
| `StringGuard.TerminatorPassesIff` | parsing/parser.go:118-149 | a terminator still gets through if and only if it is not inside a multi-byte character |
| `StringGuard.ProtectedExactly` | parsing/parser.go:118-149 | for any bytes in any mix of states: outside of strings, and for a byte of a string that no first byte makes part of a character (section 3 of RFC 3629), the parser gets the byte itself; for the others a question mark where content is discarded, and where it is delivered the byte itself, or the placeholder for a terminator; outside of strings nothing is left to expect |
| `StringGuard.ProtectSplit` | parsing/parser.go:106-111 | how a stream is split into writes makes no difference |
| `StringGuard.Parser.ProtectString` | parsing/parser.go:118-149 | one byte and the counter as `StringGuard.ProtectedExactly` describes them |
| `StringGuard.Parser.Write` | parsing/parser.go:106-111 | the byte loop protects the whole of its input |
| `EventDelivery.DeliveryIsContiguous` | driver/server.go:794-875 | in every interleaving a subscription writes a contiguous run of events starting with the newest 64 at its history read; once drained, up to the closing of its channel, by overflow, cancellation or the session, or the history read if that was later |
| `EventDelivery.OverflowIff` | session.go:558-575 | publishing cuts a subscription off if and only if it has 64 events yet to take |
| `EventDelivery.PublishAgrees` | session.go:558-575 | the channels are as the bookkeeping of `EventLog` leaves them, and those it cuts off are closed with what they hold |
| `EventDelivery.UndisturbedDelivers` | driver/server.go:794-875 | a subscription that nobody cancels and whose writes succeed never gives up and always has a move to make, until it has written every event there is or drained a closed channel |
| `EventDelivery.PublishedInOrder` | session.go:558-575 | what was published is what the session published, in that order |
| `WakeUp.NoLostWakeUp` | session.go:174-273 | in every interleaving a waiter asleep on an open channel saw the current screen or someone has yet to signal |
| `WakeUp.SuccessIsStable` | session.go:174-273 | over every run, a WaitFor that has returned succeeded if and only if its screen matches; a WaitForStable that succeeded has a screen that matches, with no output signalled between its readings of the counter |
| `WakeUp.WaitForLooks` | session.go:179-206 | whatever others do between, WaitFor returns a matching screen, also of a finished session, fails on another if the session was finished, and sleeps otherwise |
| `WakeUp.StableWaitIff` | session.go:217-273 | whatever others do between, WaitForStable succeeds if and only if at its second reading the session is not finished and the counter is as it was, and the screen it then sees still matches; otherwise it fails if the session is finished, and starts again if not |
| `WakeUp.WaitForReturns` | session.go:179-193 | on a matching screen WaitFor returns it after two steps |
| `WakeUp.StableReturns` | session.go:217-264 | on a matching screen of a session that is not finished WaitForStable returns it after five steps, if nothing happens |
| `WakeUp.FinishedReturns` | session.go:174-273 | on a finished session every wait, wherever it stood, returns within four steps of its own, and is never without one before |
| `WakeUp.FailureMeansFinished` | session.go:174-273 | a wait that is not given up fails only when the session has finished |
| `WakeUp.TerminalFollows` | session.go:416-510 | the terminal shows what was last written or resized to, and the counter counts every output |
| `WakeUp.ClosedOnce` | session.go:475-512 | no channel is closed twice |
| `ScreenObserver.StaleIff` | session.go:292-329 | in every interleaving an observer asleep on an open channel, with nobody about to signal, has missed a screen if and only if the screen had changed when it took the channel, and then a signal fell between its snapshot and that |
| `ScreenObserver.MissedScreen` | session.go:292-329 | such an interleaving |
| `ScreenObserver.OffersDiffer` | session.go:292-329 | no screen is offered twice in a row, and the newest offered is the one the observer compares with |
| `ScreenObserver.EndOffersLast` | session.go:292-329 | an observer that ends with its session has offered the screen there is |
| `ExclusiveControl.ControlIsExclusive` | driver/control.go:23-110 | until the driver closes, no client operation overlaps a controller's on the same session, and no two controllers operate it |
| `ExclusiveControl.GateIsExclusive` | driver/server.go:907-928 | at no time do two threads hold a session's gate, so client operations exclude one another |
| `ExclusiveControl.OverlapIff` | driver/server.go:907-928 | a client that comes while a controller is at work operates beside it if and only if the session has no control registered, which implies that the driver was closed |
| `ExclusiveControl.SecondControllerIff` | driver/control.go:23-44 | another caller acquires a control beside the one at work, and uses it, under exactly the same condition |
| `ExclusiveControl.ClosingAllowsOverlap` | driver/server.go:178-197 | runs in which closing the driver lets a client, and a second controller, operate beside a controller |
| `ExclusiveControl.ReleaseGivesBack` | driver/control.go:92-104 | from any state in which nothing is in its way, Release runs to its end, takes the control from the registry if it was still the session's, and leaves all locks and all else as they were |
| `ExclusiveControl.ReleaseFrees` | driver/control.go:92-104 | over every run, when a registered control has been released a client operates on the session again, another caller gets a control of its own, and the old one is of no use |
| `ExclusiveControl.OperatesIff` | driver/server.go:907-928 | a client that finds the gate free operates if and only if the session has no control; if not, it is refused and leaves no trace |
| `ExclusiveControl.AcquiresIff` | driver/control.go:23-44 | a caller that finds the gate free gets a new control, the one registered, if and only if the session has none |
| `ExclusiveControl.UsesIff` | driver/control.go:46-110 | a controller that nobody is releasing operates if and only if its control is the one registered |
| `ExclusiveControl.OperationEnds` | driver/server.go:907-928 | an operation of either kind that is over has given up its lock and leaves no trace |
| `ExclusiveControl.ClosingEnds` | driver/server.go:446-462 | sessions that are closed are not found any more and their controls are of no use; all others are as before |
| `Lifecycle.NothingOrphaned` | server.go:37-110 | in every interleaving, once Server.Close and all opens under way have returned, every opener and stream ever obtained is closed |
| `Lifecycle.ConnectionClosesItsSessions` | connection.go:55-139 | once Connection.Close is done, its opener and its streams are closed, but for one still held by a NewSession that will be refused |
| `Lifecycle.DoneClosedOnce` | session.go:475-493 | no session's done channel is closed twice |
| `Lifecycle.RegisteredIff` | server.go:37-123 | over every run, a connection is registered exactly from its admission until it is forgotten, and a session in its connection exactly from its admission until it is removed |
| `Lifecycle.ClosedIff` | connection.go:55-139 | a stream is closed if and only if its session was closed, it was refused or its read loop ended; an opener if and only if it was refused or its connection closed it |
| `Lifecycle.Connects` | server.go:37-76 | as long as the server is not closed, Connect gives an open connection that is registered |
| `Lifecycle.OpensSession` | connection.go:55-92 | as long as the connection is open, NewSession gives a session of its own with an open stream and a running read loop |
| `Lifecycle.CloseCompletes` | connection.go:96-132 | a Connection.Close that is under way can be completed, whatever its sessions are doing |
| `Lifecycle.ServerCloseCompletes` | server.go:78-110 | so can a Server.Close, from every state it can be in |

## Left out

- The byte-stream parser and the rune-width tables are libraries that are not part of this model: the
  engine is fed arbitrary parser events, and each printed rune carries an arbitrary measured width.
- The text by which an ignored sequence is reported (ansi/terminal.go:657-686): the model keeps the
  sequence itself.
- The engine's profiles: only whether a profile has the XTerm extensions matters here.
- Key encoding, the answerback setter, draining of engine events, and the window-icon title.
- Revisions, event numbers, output counters and session numbers are unbounded; their 64-bit wrap-around
  is not modelled.
- Sharing of memory between slices: snapshots and recordings are values here.
- Each call on a Telnet stream is one atomic step, and what a peer makes of a unit that a failing
  connection cut short is left open.
- TelnetServer.ProtocolStream.ApplySubnegotiation: runs here while nobody takes from the channel; the
  concurrent reader is modelled in `LatestChannel`, but for the closing of the channel.
- Sockets, SSH, JSON, HTTP, MCP wiring, dump files, logs and command lines.
- Real time: a quiet period or a deadline may end at any moment; record offsets are arbitrary numbers.
- Matchers: a matcher is an arbitrary predicate on screens.
- `ScreenObserver` keeps what the observer puts into its channel; how it reaches the reader is the
  business of `LatestChannel`, and what ends both is left out there.
- The lock-and-channel code of `session.go`, `connection.go`, `server.go` and `driver/` is modelled as
  the steps of state machines on values rather than as classes, so that every interleaving of its
  goroutines is covered; their memory is not modelled.
- Fairness: the concurrency results say what never happens, what a run can still do and how many steps
  are left, not that a goroutine is scheduled.
- Replaying a flight recording: `RecordingOrder` says what it holds and in which order, not what a
  terminal makes of it.
- The driver's own bookkeeping when a session opens while its connection closes.
