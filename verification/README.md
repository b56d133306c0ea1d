# myfyne widget core in Dafny

A model of the decision logic of the `myfyne` widget library. The library is
a set of widgets and layouts on top of the Fyne GUI toolkit. The model lifts
the parts that decide something into pure Dafny and proves what they promise.
The host toolkit is abstracted away.

- **State machines**:
  - the pagination strip;
  - the process-wide window registry;
  - the log console's buffers;
  - the single/double tap classifier;
  - the linked drop-down's label/model maps.
- **String, path and calendar logic**:
  - the middle ellipsis;
  - the side menu's `"0-1-2"` path uids;
  - the date picker's month lengths and day clamping;
  - the date-time picker's zero-padded ranges and date/time recomposition;
  - the keystroke filters of the numeric and read-only entries.
- **Layout arithmetic over `real`**:
  - flex rows and columns;
  - the scaffold page frame;
  - the nine-way `ChildPosition` anchor and `containsObject`;
  - the spaced vertical box and the padding layouts;
  - the sized box;
  - the bordered grid;
  - the drawing canvas;
  - the min-size and layout rules of the menu button, both labels and the spacer.

Modules follow the repository's files; each file's header comment names its
source file. A Go panic in a modelled rule is an `Outcome.Panic` result. This
covers an explicit `panic`, an index or slice out of range, an integer
division by zero and a call of a nil func, such as the pagination's
`onPageChange` and the log console's first window in `CopyAll`. A nil value
is `Option.None` or a "has a callback" flag. Go's truncating integer division
is written out as `Basics.GoQuot`/`Basics.GoRem`.

The clock, text measurement, `strconv.ParseFloat` and the current year are
parameters:

- A tap's time is an explicit argument.
- The date-time picker gets an explicit `now`.
- A measured text size is an input.
- The numeric entry gets a predicate `parsesAsFloat`.

The window manager follows the code, not a fuller description of it. It has
no modal mode, close interceptor, deferred centring or on-closed hook, and
`ClosePage` is the only way a window leaves the registry.

## Model

| member | source | states |
|---|---|---|
| Basics.GoQuot | mywidget/grid.go:63-64 | Go's integer `/` truncates toward zero: the quotient's magnitude is the quotient of the magnitudes, and it is positive exactly when the operands have the same sign |
| Basics.GoRem | mywidget/grid.go:69 | Go's `%`: a == b·(a/b) + a%b, its magnitude is the remainder of the magnitudes and so below the divisor's, and a non-zero remainder has the dividend's sign |
| Basics.GoRemMagnitude | mywidget/grid.go:69 | for a non-negative dividend the remainder is the Euclidean remainder of the magnitudes, for a negative one its negation |
| Basics.GoQuotVersusEuclid | mywidget/grid.go:63-69 | Go's quotient equals the Euclidean one for a non-negative dividend or an exact division, and otherwise rounds a negative dividend toward zero: one above it for a positive divisor, one below for a negative one |
| Basics.ScenarioNegativeDividend | mywidget/grid.go:63-69 | -7 / 2 is -3 with remainder -1 in Go, where the Euclidean pair is -4 and 1 |
| Basics.Max | mywidget/flex.container.go:218-241 | `fyne.Max` is the larger of two lengths: at least both, and equal to one of them |
| Basics.MaxFromZero | mywidget/flex.container.go:224-238 | the running maximum started at 0 is non-negative, bounds every element, and is 0 or one of the elements |
| Basics.RepeatedIsProduct | mywidget/flex.container.go:140 | adding a gap k times, once after each child, adds k times the gap |
| Basics.SumSplit | mywidget/flex.container.go:66-71 | the accumulated total of the min sizes splits at any index into the totals of both parts |
| Basics.SumSnoc | mywidget/flex.container.go:66-71 | accumulating one more child adds its length to the total |
| Basics.SumNonNegative | mylayout/padding.layout.go:56-67 | a total of non-negative lengths is non-negative |
| Decimal.NatToString | mywidget/date.picker.go:88-90 | the decimal digits of a natural number: non-empty, all digits, one digit exactly below 10 |
| Decimal.IntToString | mywidget/entry.number.go:21-25 | `%d` / `strconv.Itoa` renders a non-negative number as digits and a negative one as '-' and digits |
| Decimal.Pad2 | mywidget/datetime.picker.go:191 | `%02d` gives at least two characters, a leading zero for 0..9 and the plain rendering otherwise |
| Decimal.Atoi | mywidget/slide.menu.go:161-172 | `strconv.Atoi` refuses the empty string |
| Decimal.AtoiRefusesForeign | mywidget/slide.menu.go:161-172 | a string holding any character other than a digit or a sign does not parse |
| Decimal.NatToStringValue | mywidget/date.picker.go:88-90 | the value of the rendered digits is the number rendered |
| Decimal.AtoiIntToString | mywidget/datetime.picker.go:196-199 | parsing undoes `%d` rendering for every integer |
| Decimal.IntToStringInjective | mywidget/pagination.go:149-217 | distinct numbers get distinct labels |
| Decimal.AtoiPad2 | mywidget/datetime.picker.go:188-199 | parsing undoes `%02d` rendering, leading zero included |
| Text.Split | mywidget/slide.menu.go:162 | `strings.Split` on one separator yields at least one piece, none holding the separator |
| Text.JoinSplit | mywidget/log.control.go:86-89 | joining the pieces with the separator gives the string back |
| Text.SplitAppend | mywidget/slide.menu.go:52-56 | splitting `a + sep + b` with b free of separators yields a's pieces followed by b |
| Text.SplitNoSeparator | mywidget/slide.menu.go:161-172 | a string without separators is a single piece |
| Text.SplitPrepend | mywidget/slide.menu.go:161-172 | splitting `a + sep + b` with a free of separators yields a followed by b's pieces |
| Text.SplitJoin | mywidget/log.control.go:86-89 | splitting a joined text gives the pieces back when no piece holds the separator |
| Text.JoinLength | mywidget/log.control.go:86-89 | a joined text has every piece's characters plus one separator between neighbours |
| Text.TrimLeft | mywidget/pagination.go:219 | drops exactly the leading white space: the result is a suffix that is empty or starts with a non-space rune, and every rune dropped is white space |
| Text.TrimRight | mywidget/pagination.go:219 | drops exactly the trailing white space: the result is a prefix that is empty or ends with a non-space rune, and every rune dropped is white space |
| Text.TrimSpace | mywidget/pagination.go:219 | `strings.TrimSpace` yields the slice of the input between an all-space prefix and an all-space suffix, starting and ending with a non-space rune when not empty |
| Text.TrimSpaceKeepsTrimmed | mywidget/pagination.go:219 | a text that neither starts nor ends with white space is trimmed to itself |
| Text.TrimSpacePadded | mywidget/pagination.go:210-219 | the single spaces around a page number are trimmed off again |
| Base.ChildPosition | base.go:96-146 | left/top anchors sit at 0, right/bottom anchors flush with the far edge, centre anchors leave equal margins, and an unknown anchor gives (0, 0) |
| Base.ContainsObjectIffOccurs | base.go:149-162 | `containsObject` is true exactly when obj occurs in the tree; it is reflexive and false for a different non-container |
| Base.ChildrenContainIffSomeChild | base.go:155-159 | the loop over a container's children finds obj exactly when it occurs under one of the remaining children |
| Base.ColorOr | mywidget/label.go:81-101 | the colour set, or the named theme colour when the setting is nil |
| Base.FixedTextSize | mywidget/label.go:133-145 | per axis, a positive fixed length, else the text's min length |
| Base.GetWindow | base.go:84-94 | the first window whose content holds obj, with no earlier window holding it; nil exactly when no window holds obj |
| Pagination.NewPagination | mywidget/pagination.go:20-31 | a new strip has no pages and current page 0, which is a valid state, and keeps whether `onPageChange` was given or nil |
| Pagination.UpdatePaginationData | mywidget/pagination.go:33-49 | a negative total becomes 0, a negative current becomes 1 before the upper clamp, an in-range current is kept, a larger one becomes the total; the callback is kept |
| Pagination.NextPage | mywidget/pagination.go:233-321 | after a cell's closure and the two clamps the total is unchanged, current ≥ 1, current ≤ total when there are pages, and current is 1 with none |
| Pagination.SelectPage | mywidget/pagination.go:233-326 | panics exactly when `onPageChange` is nil; otherwise the strip takes the next page and the callback is called once, with that page |
| Pagination.CellCountBounds | mywidget/pagination.go:57-73 | the strip has between 2 and `matchMaxCells` cells, never more than total + 2, and exactly total + 2 for at most batch + 4 pages |
| Pagination.ArrowsAtEnds | mywidget/pagination.go:88-98 | cell 0 is "←", the last cell is "→", and no inner cell is an arrow |
| Pagination.PageLabelsInRange | mywidget/pagination.go:149-217 | every numbered cell shows a page in [1, total] |
| Pagination.PageLabelsIncrease | mywidget/pagination.go:149-217 | numbered cells increase strictly from left to right |
| Pagination.CurrentCell | mywidget/pagination.go:149-217 | when the current page is a page, an inner cell shows it |
| Pagination.PageTextParses | mywidget/pagination.go:210-219 | the trimmed text of a page label parses back to its number |
| Pagination.MarkTextRefused | mywidget/pagination.go:142-227 | arrows and jump marks never parse as a number |
| Pagination.HighlightedIffCurrentPage | mywidget/pagination.go:219-227 | a cell is highlighted exactly when it is the numbered cell of the current page |
| Pagination.ExactlyOneHighlighted | mywidget/pagination.go:219-227 | exactly one cell is highlighted when 1 ≤ current ≤ total, and none otherwise |
| Pagination.SelectionFollowsLabel | mywidget/pagination.go:233-326 | selecting a number goes to it; arrows step by one and saturate at 1 and total; jump marks move by a batch and saturate |
| Pagination.CentreCellKeepsPage | mywidget/pagination.go:202-308 | in the full view cell 5 shows the current page and selecting it changes nothing |
| Pagination.ScenarioTwentyPagesAtFirst | mywidget/pagination.go:149-217 | 20 pages at page 1 show ← 1 2 3 4 5 >> 20 → |
| Pagination.ScenarioTwentyPagesAtTenth | mywidget/pagination.go:149-311 | 20 pages at page 10 show ← 1 << 8 9 10 11 12 >> 20 →, and the jump marks go to 15 and 5 |
| Pagination.ScenarioThreePages | mywidget/pagination.go:149-217 | 3 pages show ← 1 2 3 → |
| Pagination.ScenarioCallback | mywidget/pagination.go:20-326 | selecting ">>" at page 10 of 20 moves to 15 and notifies 15 with a callback, and panics with a nil one |
| WindowManager.NewManager | window.manager.go:20-27 | the singleton starts with no app and no windows |
| WindowManager.SetApp | window.manager.go:30-37 | binds the given app, nil included, only while none is bound; the registry is untouched |
| WindowManager.SetAppBindsFirstApp | window.manager.go:30-37 | a bound app is never replaced, and after a nil app the next app is still taken |
| WindowManager.EffectiveSize | window.manager.go:62-69 | a non-positive requested width or height is replaced by the content's min size on that axis, a positive one kept |
| WindowManager.ShowPage | window.manager.go:40-79 | panics without an app; otherwise exactly the page's id is added or reused, no other entry changes, and the window carries the content, title, size and fixed-size flag and is shown |
| WindowManager.ClosePage | window.manager.go:82-95 | panics without an app; otherwise removes exactly the page's id (nothing for an unknown id) and records its window as closed |
| WindowManager.GetWindow | window.manager.go:98-103 | the registered window of the page or nil, with no app check |
| WindowManager.SetVisible | window.manager.go:106-132 | panics without an app; otherwise changes only the visibility of a registered id, ignores unknown ids and keeps the set of ids |
| WindowManager.ShowWindow | window.manager.go:106-117 | a registered window is shown; the ids are unchanged |
| WindowManager.HideWindow | window.manager.go:120-132 | a registered window is hidden; the ids are unchanged |
| WindowManager.ShowPageIdempotent | window.manager.go:48-79 | showing a page twice equals showing it once |
| WindowManager.ShowThenCloseRestoresRegistry | window.manager.go:40-95 | closing a freshly shown page restores the registry and records the created window as closed |
| WindowManager.CloseThenGetIsNil | window.manager.go:82-103 | after `ClosePage` the page has no window |
| WindowManager.HideAfterShow | window.manager.go:106-132 | hiding after showing equals hiding |
| WindowManager.ScenarioNoApp | window.manager.go:44-46 | with no app every configuring call panics while `GetWindow` answers nil |
| LogConsole.Last | mywidget/log.control.go:60-64 | trimming keeps `maxLines` lines, or all when there are fewer |
| LogConsole.LastIsSuffix | mywidget/log.control.go:60-64 | the lines trimming drops are the oldest ones |
| LogConsole.NewLogConsole | mywidget/log.control.go:31-52 | empty buffers, auto-scroll on, nothing dirty |
| LogConsole.Append | mywidget/log.control.go:55-67 | the line goes to the end of `buf` and `pending`, `buf` keeps its last `maxLines` lines, `dirty` is set; a negative limit panics in the slice |
| LogConsole.Clear | mywidget/log.control.go:70-83 | every buffer and the display are emptied and nothing is dirty |
| LogConsole.SetAutoScroll | mywidget/log.control.go:97-101 | only the auto-scroll flag changes |
| LogConsole.SetMaxLines | mywidget/log.control.go:110-116 | a positive limit replaces the old one, a non-positive one is ignored, and `buf` is not trimmed again |
| LogConsole.Flush | mywidget/log.control.go:142-178 | nothing happens unless dirty with pending lines; otherwise the display gets the last `maxLines` of its lines plus the pending ones, `pending` empties and `dirty` clears; dirty ⇔ pending non-empty is preserved |
| LogConsole.CopyAll | mywidget/log.control.go:84-94 | panics exactly when no window is open; otherwise the first window's clipboard, if any, gets the buffer joined by newlines |
| LogConsole.CopyAllSplitsBack | mywidget/log.control.go:86-94 | the copied text has every line plus one newline between neighbours and splits back into the buffer |
| LogConsole.LastTwice | mywidget/log.control.go:60-64 | trimming, appending and trimming again equals appending and trimming once |
| LogConsole.AppendAllQueuesLines | mywidget/log.control.go:55-67 | appends with a non-negative limit never panic, queue every line in order, and leave the console dirty once a line was added |
| LogConsole.AppendAllKeepsLastLines | mywidget/log.control.go:55-67 | after at least one append, or from a buffer within the limit, `buf` holds the last `maxLines` lines of the old buffer and the new lines |
| LogConsole.ScenarioLimitTwo | mywidget/log.control.go:55-178 | with a limit of two, three appends keep the last two lines and a flush shows them |
| LogConsole.ScenarioLoweredLimit | mywidget/log.control.go:55-116 | lowering the limit to 1 leaves three lines in the buffer until the next append, which keeps only that line |
| EllipsisLabel.Shorten | mywidget/ellipsis.label.go:88-105 | a text of at most leftKeep + rightKeep + 3 runes is shown whole; a longer one is the kept prefix (NUL runes past the text, up to the rune slice's capacity), "..." and the kept suffix; panics exactly when a slice bound passes the capacity or the text start, which needs a keep below -3 |
| EllipsisLabel.ShortenedShape | mywidget/ellipsis.label.go:95-104 | a longer text shows its first leftKeep runes, "..." and its last rightKeep runes, exactly leftKeep + rightKeep + 3 runes; starts or ends with "..." for a zero keep |
| EllipsisLabel.ShortenIdempotent | mywidget/ellipsis.label.go:88-105 | the rule shows a displayed text unchanged |
| EllipsisLabel.Refresh | mywidget/ellipsis.label.go:184-187 | the display is recomputed from the full text |
| EllipsisLabel.SetText | mywidget/ellipsis.label.go:45-48 | the full text is replaced and the display refreshed; the keeps stay |
| EllipsisLabel.SetTextThenTap | mywidget/ellipsis.label.go:45-110 | a tap copies the text that was set, not the display, and refreshing again changes nothing |
| EllipsisLabel.ScenarioShortened | mywidget/ellipsis.label.go:88-105 | "abcdefghij" with keeps 2 and 3 shows "ab...hij"; "abcdefgh" is shown whole |
| EllipsisLabel.ScenarioSpareCapacity | mywidget/ellipsis.label.go:95-104 | a left keep of 12 on 10 runes reads two NUL runes from a capacity of 32 and panics at a capacity of 10 |
| SideMenu.ParseParts | mywidget/slide.menu.go:164-171 | the pieces parse exactly when each one does, giving their values in order |
| SideMenu.ParseUID | mywidget/slide.menu.go:161-172 | a parsed uid is a non-empty path of non-negative indices |
| SideMenu.AtoiWithoutMinus | mywidget/slide.menu.go:161-172 | a piece without '-' never parses to a negative index |
| SideMenu.Find | mywidget/slide.menu.go:147-158 | an empty path gives nil; `[i]` gives `items[i]`; a resolved non-empty path always yields an item |
| SideMenu.FindExtend | mywidget/slide.menu.go:147-158 | extending a resolved path by i gives its i-th sub-item, or panics when i is out of range |
| SideMenu.Children | mywidget/slide.menu.go:33-57 | the root's children are "0".."n-1"; a resolved item's are uid + "-" + i; an unparseable uid has none |
| SideMenu.IsBranch | mywidget/slide.menu.go:59-71 | the root is a branch; a uid is a branch when its item has sub-items; an unparseable uid is a leaf |
| SideMenu.SelectedItem | mywidget/slide.menu.go:116-125 | selecting the root or an unparseable uid selects nothing; otherwise the uid's item |
| SideMenu.ParseSinglePiece | mywidget/slide.menu.go:161-172 | a piece without '-' that parses is a one-element path |
| SideMenu.RootChildRoundTrip | mywidget/slide.menu.go:34-172 | every child uid of the root parses to its index and resolves to that item |
| SideMenu.ChildRoundTrip | mywidget/slide.menu.go:42-172 | every child uid of an item parses to the item's path extended by the index and resolves to that sub-item |
| SideMenu.ScenarioTwoLevels | mywidget/slide.menu.go:33-71 | in a two-level menu the root is a branch, a foreign uid is a leaf and selects nothing |
| LinkedSelect.LastNamed | mywidget/linked.select.go:59-71 | the last index carrying a display name, or none when no item carries it |
| LinkedSelect.LastOfModel | mywidget/linked.select.go:72-81 | the last index carrying a model, or none |
| LinkedSelect.NewLinkedSelect | mywidget/linked.select.go:19-48 | a new select has no items and nothing selected, its maps agree with the list, and it records whether `onChange` is set |
| LinkedSelect.LastSnoc | mywidget/linked.select.go:59-71 | each item of the loop becomes the last of its name and its model; the others keep their index |
| LinkedSelect.Update | mywidget/linked.select.go:50-84 | the options are the display names in order, `keyIndex` and `modelMap` point at the last occurrences, and the last item of the default model is selected, or nothing |
| LinkedSelect.SetSelectedByModel | mywidget/linked.select.go:86-93 | a known model's label is selected; an unknown model changes nothing |
| LinkedSelect.GetSelected | mywidget/linked.select.go:95-108 | nothing for an empty or unknown label, otherwise the model of the label's last item |
| LinkedSelect.UserSelect | mywidget/linked.select.go:30-41 | a user pick is selected and `onChange` fires with the label's model exactly when the label is known and `onChange` is not nil |
| LinkedSelect.SelectByModelRoundTrip | mywidget/linked.select.go:86-104 | with distinct names, selecting a model reads back that model |
| LinkedSelect.UserSelectReportsItsModel | mywidget/linked.select.go:30-104 | with distinct names, picking an option reports that option's model to a set `onChange`, and nothing without one |
| LinkedSelect.UpdateSelectsDefault | mywidget/linked.select.go:72-104 | with distinct names, `Update` with a present default makes `GetSelected` return it |
| DatePicker.MonthLength | mywidget/date.picker.go:74-92 | a month has between 28 and 31 days |
| DatePicker.DateOf | mywidget/date.picker.go:80-84 | the date of a day number, as `Time.Date` reports it, has a month in 1..12, a day ≥ 1, and that day number |
| DatePicker.YearStep | mywidget/date.picker.go:80-81 | consecutive years start a year's length apart, 366 days exactly in Gregorian leap years |
| DatePicker.DateOfDayNumber | mywidget/date.picker.go:80-84 | a valid date survives the round trip through its day number |
| DatePicker.DateBeforeNextMonth | mywidget/date.picker.go:73-81 | one day before the first of the next month (January of the next year after December) is the month's last date |
| DatePicker.LastDayViaAddDateIsMonthLength | mywidget/date.picker.go:73-84 | the day of that date is the month's length by the Gregorian rule, computed without the rule |
| DatePicker.FebruaryViaAddDate | mywidget/date.picker.go:73-84 | through that arithmetic February has 29 days exactly in leap years and 28 otherwise |
| DatePicker.GetDaysInMonth | mywidget/date.picker.go:68-93 | no days for a month outside 1..12, otherwise exactly the `%d` texts "1".."n" for a month of n days, each parsing back to its day |
| DatePicker.UpdateDaysInMonth | mywidget/date.picker.go:96-116 | nothing changes when year or month parses to 0; otherwise the options become the month's days; panics exactly for an invalid month with an empty or positive day |
| DatePicker.UpdateKeepsOrClampsDay | mywidget/date.picker.go:103-115 | for a valid month the selected day is kept when it fits and becomes the last day otherwise |
| DatePicker.YearOptions | mywidget/date.picker.go:41-45 | exactly the `strconv.Itoa` texts of the years 1970 up to the current year, ascending, each parsing back to its year |
| DatePicker.MonthOptions | mywidget/date.picker.go:48-52 | exactly the `strconv.Itoa` texts "1".."12", each parsing back to its month |
| DateTimePicker.RefreshText | mywidget/datetime.picker.go:68-78 | the placeholder for a zero time when there is one, the prompt "请选择时间" when not, the timestamp otherwise |
| DateTimePicker.SetAndNotify | mywidget/datetime.picker.go:58-138 | the time is stored, the caption refreshed, and `onChanged` fires once with it when set |
| DateTimePicker.NewDateTimePicker | mywidget/datetime.picker.go:28-45 | the given time, placeholder and callback, with the caption the refresh rule shows |
| DateTimePicker.Clear | mywidget/datetime.picker.go:58-65 | the zero time, shown as placeholder or prompt, and one notification with the zero time when a callback is set |
| DateTimePicker.MustInt | mywidget/datetime.picker.go:196-199 | the parsed value, or 0 on a parse failure |
| DateTimePicker.MakeRange | mywidget/datetime.picker.go:188-194 | max − min + 1 entries (none when max < min), entry k is `%02d` of min + k and parses back to min + k |
| DateTimePicker.ShowPopup | mywidget/datetime.picker.go:83-100 | the drop-downs show the selected time's h:m:s, or now's when it is zero, zero-padded |
| DateTimePicker.PickDate | mywidget/datetime.picker.go:103-115 | a picked date takes the popup's h:m:s and notifies |
| DateTimePicker.ChangeTime | mywidget/datetime.picker.go:118-139 | a time change keeps the date (now's for a zero time), takes h:m:s from the drop-downs and notifies |
| DateTimePicker.DateAndTimeRecompose | mywidget/datetime.picker.go:103-139 | picking a date keeps the time, changing the time keeps the date, and a later date keeps the chosen time |
| DateTimePicker.ClearThenChangeTimeUsesNow | mywidget/datetime.picker.go:58-124 | after `Clear` a time change starts from now's date |
| Input.TypeText | mywidget/entry.readonly.go:23-26 | typing a text delivers its runes one event each, in order |
| Input.Delivered | mywidget/entry.readonly.go:23-46 | an override passes on only events it forwards, in arrival order |
| Input.DeliveredFromInput | mywidget/entry.readonly.go:23-46 | every delivered event arrived |
| Input.DeliveredAllIff | mywidget/entry.readonly.go:23-46 | a stream passes unchanged exactly when every event in it is forwarded |
| Input.DeliveredNone | mywidget/entry.readonly.go:23-26 | a stream of refused events delivers nothing |
| Input.DeliveredKeeps | mywidget/entry.readonly.go:23-46 | an event the override forwards is delivered |
| Input.DeliveredAppend | mywidget/entry.readonly.go:23-46 | each event is handled on its own, so filtering distributes over concatenation |
| EntryNumber.Forwards | mywidget/entry.number.go:33-50 | a rune passes exactly when it is a digit or '.'; a paste exactly when its content parses as a float; other shortcuts and keys always |
| EntryNumber.DeliveredRunesAreNumeric | mywidget/entry.number.go:33-37 | only digits and dots reach the embedded entry, whatever is typed |
| EntryNumber.InsertKeepsNumeric | mywidget/entry.number.go:33-37 | inserting delivered runes into a text of digits and dots keeps it so |
| EntryNumber.RuneFilter | mywidget/entry.number.go:34 | the filter is per rune: '.' passes (repeatedly), '-', '+' and 'e' do not |
| EntryNumber.NewEntryByInt | mywidget/entry.number.go:21-25 | the initial text is the decimal rendering of i, which reads back as i and is digits-only exactly for i ≥ 0 |
| EntryNumber.TypingNewEntryText | mywidget/entry.number.go:21-37 | retyping the initial text gets every rune through exactly for a non-negative number |
| EntryReadonly.Forwards | mywidget/entry.readonly.go:23-46 | no rune passes; Backspace, Delete, Return and Enter are dropped and other keys pass; paste is dropped and other shortcuts pass |
| EntryReadonly.DeliveredExceptBlocked | mywidget/entry.readonly.go:23-46 | no rune, deleting or line-breaking key, or paste reaches the embedded entry; everything else does, in order |
| EntryReadonly.CutReachesEntry | mywidget/entry.readonly.go:38-46 | as written, a cut shortcut is handed on, so an event that edits the text reaches the embedded entry |
| EntryReadonly.ForwardsCorrected | mywidget/entry.readonly.go:38-46 | corrected, cut is refused like paste, every other event is handled as before, and nothing forwarded edits the text |
| EntryReadonly.CorrectedDeliversNoEdit | mywidget/entry.readonly.go:23-46 | corrected, no delivered event edits the text, while copy and select-all still pass |
| EntryReadonly.TypingDeliversNothing | mywidget/entry.readonly.go:23-26 | typing any text delivers nothing |
| EntryReadonly.ScenarioSelectAndCopy | mywidget/entry.readonly.go:28-46 | cursor keys, select-all and copy pass; Backspace and paste do not |
| EntryReadonly.NewReadonlyEntry | mywidget/entry.readonly.go:13-20 | the entry starts with exactly the text and word wrapping |
| TapContainer.NewTapContainer | mywidget/tapContainer.go:22-29 | only the single-tap callback is set; no previous tap, no timer |
| TapContainer.NewTapContainerWithDoubleTap | mywidget/tapContainer.go:31-38 | only the double-tap callback is set; no previous tap, no timer |
| TapContainer.Tapped | mywidget/tapContainer.go:53-81 | a double tap stops the timer and fires `onDoubleTap` when set; a single tap arms the timer and fires nothing yet; the tap becomes the previous tap |
| TapContainer.TimerElapsed | mywidget/tapContainer.go:72-76 | an armed timer fires `onTapped` when set; a stopped timer does nothing |
| TapContainer.SetOnTap | mywidget/tapContainer.go:40-42 | only the single-tap callback changes |
| TapContainer.SetOnDoubleTap | mywidget/tapContainer.go:44-46 | only the double-tap callback changes |
| TapContainer.Run | mywidget/tapContainer.go:53-81 | one outcome per event |
| TapContainer.SinglesBoundedByTaps | mywidget/tapContainer.go:67-77 | over any run, `onTapped` fires at most once per single tap |
| TapContainer.NextTapClassification | mywidget/tapContainer.go:57-80 | a tap is double exactly when it comes less than 300 ms and less than 10 units after the previous tap |
| TapContainer.FirstTapIsSingle | mywidget/tapContainer.go:17-57 | the first tap after construction is single and arms the timer |
| TapContainer.ScenarioThreeRapidTaps | mywidget/tapContainer.go:53-81 | three taps 100 ms apart: single, double, double, and the timer fires nothing |
| TapContainer.SingleFiresUnlessFollowed | mywidget/tapContainer.go:59-77 | a lone single tap fires `onTapped` when its timer runs out; a close second tap suppresses it |
| Flex.Remaining | mywidget/flex.container.go:66-77 | the free main-axis space is the container less the min sizes, and 0 when they do not fit |
| Flex.Distribute | mywidget/flex.container.go:83-106 | SpaceBetween, SpaceAround, SpaceEvenly, Center, End and Start share the free space out as written, and with no free space nothing moves |
| Flex.Place | mywidget/flex.container.go:117-138 | Stretch takes the cross size at 0; Start, End and Center keep the min size at the near edge, far edge or middle; an unknown alignment leaves the child alone |
| Flex.TotalMin | mywidget/flex.container.go:66-71 | the first loop sums the min sizes |
| Flex.Layout | mywidget/flex.container.go:56-215 | child i goes at start + the sizes of the children before it + i gaps, placed on the cross axis by the alignment |
| Flex.MinSize | mywidget/flex.container.go:218-241 | along the main axis the sum of the min sizes, across it the largest, (0, 0) without children |
| Flex.LastEdge | mywidget/flex.container.go:117-141 | the last child ends at start + every child + n − 1 gaps |
| Flex.NextOffset | mywidget/flex.container.go:140 | each child starts where the one before it ends plus the gap |
| Flex.NoOverlap | mywidget/flex.container.go:117-141 | children follow in order and never overlap |
| Flex.FittingEnds | mywidget/flex.container.go:74-140 | fitting children end on the edge for End and SpaceBetween; Center, SpaceEvenly and SpaceAround leave equal end gaps; SpaceAround's are half the inner gap |
| Flex.OverflowPacks | mywidget/flex.container.go:74-140 | overflowing children are packed from 0 with no gaps |
| Flex.MinSizeFits | mywidget/flex.container.go:66-241 | at its min size the children end on the main edge and each fits across |
| Scaffold.Layout | scaffold.go:107-151 | bars at the top and bottom edges at full width, side bar at (0, top height) with its min width, floating button 16 in from the bottom-right corner; each present exactly when its part is |
| Scaffold.LayoutTiles | scaffold.go:108-142 | the content fills what the bars and side bar leave, each region starting where its neighbour ends |
| Scaffold.ContentAloneFills | scaffold.go:138-142 | content alone fills the area |
| Scaffold.MinSize | scaffold.go:153-173 | width is the wider bar plus the side bar or the content if wider; height is the bars stacked or the side bar or content if taller; the floating button does not count |
| Scaffold.MinSizeStarvesContent | scaffold.go:153-173 | at the min size a 100×100 content beside a 50-wide side bar gets 50 |
| Scaffold.FittingMinSizeFits | scaffold.go:107-173 | at the fitting min size or larger every part gets its min size |
| Scaffold.Objects | scaffold.go:194-214 | each part is listed exactly when present, in strictly increasing drawing order: top, side, content, bottom, floating |
| VBox.Shown | mylayout/v.box.go:21-31 | the visible children other than spacers, in order |
| VBox.SpacerSize | mylayout/v.box.go:33-43 | the height left by the counted children and their gaps split equally among the spacers, 0 without spacers |
| VBox.Steps | mylayout/v.box.go:46-62 | each child moves the cursor by nothing (hidden), the spacer size, or its height plus the gap |
| VBox.Place | mylayout/v.box.go:45-62 | hidden children are untouched; visible ones go at x = 0 with the full width and the spacer size or their min height |
| VBox.PlaceStacks | mylayout/v.box.go:45-62 | each child sits at the sum of the steps before it |
| VBox.PlaceEnd | mylayout/v.box.go:45-62 | the cursor ends past every step |
| VBox.PlaceIsStacked | mylayout/v.box.go:45-62 | placing from the top stacks every visible child below the steps of the children before it |
| VBox.Layout | mylayout/v.box.go:15-63 | as written: hidden children are untouched and each visible one sits below the steps of those before it, full width, with the spacer size from the first pass that sets apart horizontal spacers given to vertical spacers |
| VBox.LayoutCounted | mylayout/v.box.go:15-63 | the same stacking with the spacer size from a first pass that counts the vertical spacers |
| VBox.StepsTotal | mylayout/v.box.go:45-62 | the cursor's travel is the heights, one gap per child and the spacer size per vertical spacer |
| VBox.CountedLayoutFillsHeight | mylayout/v.box.go:25-62 | counted, the spacers take exactly the height the children leave |
| VBox.LayoutMissesVerticalSpacer | mylayout/v.box.go:25-43 | as written, a vertical-only spacer gets no height and the children do not reach the bottom |
| VBox.MinSize | mylayout/v.box.go:65-83 | the widest counted child by the heights stacked with one gap between neighbours, (0, 0) without counted children |
| VBox.MinHeightFitsExactly | mylayout/v.box.go:45-83 | at its min height the last child ends on the bottom edge |
| PaddingLayout.NewHPaddingLayout | mylayout/padding.layout.go:12-21 | the padding goes left and right only |
| PaddingLayout.NewVPaddingLayout | mylayout/padding.layout.go:23-32 | the padding goes top and bottom only |
| PaddingLayout.NewPaddingLayout | padding.layout.go:9-18 | each argument lands in its own edge despite the argument order |
| PaddingLayout.Inner | mylayout/padding.layout.go:45-54 | the area inside the padding starts at (left, top) and ends the padding short of each far edge |
| PaddingLayout.Layout | padding.layout.go:20-29 | every child gets the area inside the padding |
| PaddingLayout.MinSize | padding.layout.go:31-42 | the padding plus the sums (not maxima) of the children's min widths and heights |
| PaddingLayout.NoPaddingFills | padding.layout.go:20-29 | with no padding every child fills the container |
| PaddingLayout.OneBelowSum | mylayout/padding.layout.go:56-67 | each non-negative min size is at most the sum |
| PaddingLayout.MinSizeFits | mylayout/padding.layout.go:45-67 | at the min size or larger every child gets its min size |
| PaddingLayout.SingleChildAtMinSize | mylayout/padding.layout.go:45-67 | a single child at the min size gets exactly its min size at the padding corner |
| SizedBox.NewSizedBox | mywidget/sized.box.go:31-40 | the given size, colour and child, no padding |
| SizedBox.NewFixedWidthBox | mywidget/sized.box.go:22-24 | the height is `Infinity` |
| SizedBox.NewFixedHeightBox | mywidget/sized.box.go:26-28 | the width is `Infinity` |
| SizedBox.Sentinel | mywidget/sized.box.go:50-56 | a non-negative length reads as it is, a negative one as `Infinity` |
| SizedBox.GetWidth | mywidget/sized.box.go:50-56 | the width through the sentinel |
| SizedBox.GetHeight | mywidget/sized.box.go:76-82 | the height through the sentinel |
| SizedBox.GetBackgroundColor | mywidget/sized.box.go:92-98 | the colour set, or the theme's background |
| SizedBox.SetWidth | mywidget/sized.box.go:43-47 | only the width changes |
| SizedBox.SetHeight | mywidget/sized.box.go:69-73 | only the height changes |
| SizedBox.SetPadding | mywidget/sized.box.go:58-62 | only the padding changes |
| SizedBox.SetBackgroundColor | mywidget/sized.box.go:85-89 | only the colour changes |
| SizedBox.SetChild | mywidget/sized.box.go:101-105 | only the child changes |
| SizedBox.GetAfterSet | mywidget/sized.box.go:43-98 | a getter returns what its setter set, read through the sentinel, and no other length |
| SizedBox.MinLength | mywidget/sized.box.go:156-174 | a fixed length as stored, an open one as the padding plus the child's min (0 without a child) |
| SizedBox.MinSize | mywidget/sized.box.go:156-174 | the min length on each axis |
| SizedBox.BoxSize | mywidget/sized.box.go:128-136 | the min size, stretched on an axis stored as exactly `Infinity` |
| SizedBox.Layout | mywidget/sized.box.go:128-154 | the background is centred at the box size and the child fills it less the padding |
| SizedBox.StretchOrFixed | mywidget/sized.box.go:128-142 | an `Infinity` length spans the space given; a fixed one is kept whatever the space |
| SizedBox.NegativeLengthHugsContent | mywidget/sized.box.go:50-174 | a negative width reads as `Infinity` and sizes to the content, but is not stretched |
| SizedBox.ContentFitsAtMinSize | mywidget/sized.box.go:128-174 | an open box at its min size gives the child exactly its min size |
| SizedBox.Objects | mywidget/sized.box.go:182-188 | the background, then the child when there is one |
| SizedBox.LayoutMatchesObjects | mywidget/sized.box.go:128-188 | the layout places the child exactly when `Objects` lists it |
| Grid.NewGrid | mywidget/grid.go:18-27 | the children, columns and border width as given |
| Grid.Rows | mywidget/grid.go:64 | as written the truncated quotient; corrected, the rows holding every child |
| Grid.CellLength | mywidget/grid.go:63-64 | count cells and count − 1 borders fill the total |
| Grid.CellRect | mywidget/grid.go:68-79 | every cell has the cell width and height |
| Grid.LineRect | mywidget/grid.go:81-92 | a row start gets a full-width horizontal line at x = 0, a later column a vertical line at its row |
| Grid.SlotsBefore | mywidget/grid.go:81-92 | each child takes at most one line slot |
| Grid.LayoutWith | mywidget/grid.go:62-98 | zero columns panics; every child's cell and the lines in slot order; no slot overflows; zero rows gives non-finite cells |
| Grid.PlaceCells | mywidget/grid.go:68-79 | every non-nil child at its column and row times the pitch |
| Grid.PlaceLines | mywidget/grid.go:81-92 | the lines in child order, the remaining slots untouched |
| Grid.PositionedSlot | mywidget/grid.go:81-92 | slot k holds the line of the child that took it |
| Grid.Layout | mywidget/grid.go:62-98 | as written, a grid with fewer children than columns has zero rows and non-finite cells |
| Grid.LayoutCorrected | mywidget/grid.go:62-98 | with corrected rows, a positive column count always places |
| Grid.SlotsUsed | mywidget/grid.go:39-92 | exactly n − 1 line slots are positioned |
| Grid.CorrectedCellsWithin | mywidget/grid.go:63-79 | with corrected rows every cell lies inside the grid |
| Grid.PartialRowOverflows | mywidget/grid.go:63-64 | three children in two columns make one row, and the third cell lies below the grid |
| Grid.MinSizeWith | mywidget/grid.go:100-119 | columns cells of the first child's size with borders between and around; zero columns or a nil first child panics |
| Grid.MinSize | mywidget/grid.go:100-119 | as written: panics exactly for zero columns or a nil first child; otherwise `columns` first-child widths and truncated-quotient rows of first-child heights, each with one border more than cells |
| Grid.MinSizeCellsFit | mywidget/grid.go:100-119 | with corrected rows, at the min size every cell is at least the first child's size |
| Grid.CellGrows | mywidget/grid.go:112-116 | the outer borders only add to each cell |
| Canvas.NewCanvas | mycanvas/canvas.go:19-26 | an empty surface of the given size |
| Canvas.MinSize | mycanvas/canvas.go:34-36 | the size given at construction |
| Canvas.AnchorIsChildPosition | mycanvas/canvas.go:157-202 | the canvas anchors are the nine-way `ChildPosition` |
| Canvas.DrawText | mycanvas/canvas.go:43-98 | empty text or size ≤ 0 adds nothing; otherwise one text anchored by its measured size and shifted |
| Canvas.CircleBox | mycanvas/canvas.go:107-148 | the circle's box is 2r × 2r for every known alignment |
| Canvas.DrawCircle | mycanvas/canvas.go:100-150 | radius ≤ 0 adds nothing; otherwise one circle at the shifted corners |
| Canvas.DrawRect | mycanvas/canvas.go:152-205 | a non-positive side adds nothing; otherwise one rectangle anchored and shifted |
| Canvas.DrawImage | mycanvas/canvas.go:207-257 | an empty path or non-positive side adds nothing; otherwise one image anchored and shifted |
| Canvas.DrawLine | mycanvas/canvas.go:259-263 | always one line with exactly the given ends |
| Canvas.ApplyAllAppends | mycanvas/canvas.go:43-263 | over any calls the size and earlier shapes stay and each accepted call adds one shape |
| MenuButton.NewMenuButton | mywidget/menu.button.go:32-40 | centred text, neither selected nor hovered, nothing set |
| MenuButton.SetColor | mywidget/menu.button.go:43-82 | a colour setter changes only its slot; a nil colour clears the slot |
| MenuButton.GetColor | mywidget/menu.button.go:123-165 | the colour set, or the theme's foreground or background |
| MenuButton.ThemeFallback | mywidget/menu.button.go:123-165 | the theme's foreground exactly for a text slot, its background otherwise |
| MenuButton.GetAfterSetColor | mywidget/menu.button.go:43-165 | a getter returns what its setter set, the theme's colour after a nil one, and no other slot's getter changes |
| MenuButton.GetTextSize | mywidget/menu.button.go:168-173 | the size set, or the theme's |
| MenuButton.SetTextSize | mywidget/menu.button.go:85-89 | the size reads back |
| MenuButton.ShownSlot | mywidget/menu.button.go:220-236 | selected wins over hovered, which wins over normal |
| MenuButton.TextColor | mywidget/menu.button.go:220-227 | the selected text colour when selected, else the hover one when hovered, else the normal one; an unset colour is the theme's foreground |
| MenuButton.BackgroundColor | mywidget/menu.button.go:229-236 | the same precedence over the background colours, falling back to the theme's background |
| MenuButton.SetIsSelected | mywidget/menu.button.go:111-115 | only the selected flag changes |
| MenuButton.MouseIn | mywidget/menu.button.go:189-193 | only hovered is set |
| MenuButton.MouseOut | mywidget/menu.button.go:195-199 | only hovered is cleared |
| MenuButton.MouseMoved | mywidget/menu.button.go:201 | nothing changes |
| MenuButton.Tapped | mywidget/menu.button.go:181-186 | `OnClick` runs when set; no state changes |
| MenuButton.HoverDoesNotOverrideSelection | mywidget/menu.button.go:189-236 | a selected button keeps its colours under the mouse; in and out again restores them |
| MenuButton.MinSize | mywidget/menu.button.go:259-268 | the label's min size plus the padding |
| MenuButton.Layout | mywidget/menu.button.go:246-257 | the background fills the button; the label gets its min size plus the padding at (left, top) |
| MenuButton.LabelOverflowsButton | mywidget/menu.button.go:246-268 | at the min size the label box sticks out by the padding |
| MenuButton.LayoutCorrected | mywidget/menu.button.go:246-257 | the label gets the area inside the padding |
| MenuButton.CorrectedLabelFits | mywidget/menu.button.go:246-268 | corrected, the label gets its min size at the button's min size and at least that beyond |
| PaddedLabel.NewLabel | mywidget/label.go:25-34 | theme text size, leading alignment, nothing fixed, no colours, no padding |
| PaddedLabel.FontSize | mywidget/label.go:57-63 | the size set when positive, the theme's otherwise |
| PaddedLabel.SetFontSize | mywidget/label.go:49-55 | only the font size changes |
| PaddedLabel.Color | mywidget/label.go:81-87 | the colour set, or the theme's foreground |
| PaddedLabel.BackgroundColor | mywidget/label.go:95-101 | the colour set, or the theme's background |
| PaddedLabel.DefaultColorsDiffer | mywidget/label.go:81-101 | with no colours the text and background differ |
| PaddedLabel.MinLength | mywidget/label.go:159-176 | a positive fixed length, else the text min plus the padding |
| PaddedLabel.MinSize | mywidget/label.go:159-176 | the min length on each axis |
| PaddedLabel.Layout | mywidget/label.go:133-157 | the background fills; the text is anchored centre, centre-right or centre-left in the whole label |
| PaddedLabel.LayoutIgnoresPadding | mywidget/label.go:133-176 | as written, leading text with left padding still starts at x = 0 |
| PaddedLabel.Inner | mywidget/label.go:159-176 | the area inside the padding |
| PaddedLabel.LayoutCorrected | mywidget/label.go:133-157 | the text anchored inside the padding |
| PaddedLabel.CorrectedTextInsidePadding | mywidget/label.go:133-176 | corrected, at the min size or larger the text stays inside the padding |
| RootLabel.NewLabel | label.go:24-33 | theme text size, leading alignment, nothing fixed, no colours |
| RootLabel.RenderedSize | label.go:35-73 | the font size when positive, the theme's otherwise |
| RootLabel.CreateRenderer | label.go:35-73 | the text in the set or theme foreground on the set or theme background |
| RootLabel.Refresh | label.go:170-194 | as written, without a colour the text falls back to the theme's background |
| RootLabel.RefreshHidesDefaultText | label.go:170-194 | a refreshed default label draws its text in its background colour |
| RootLabel.RefreshCorrected | label.go:170-194 | the text falls back to the theme's foreground |
| RootLabel.RefreshAgreesWithCreate | label.go:35-194 | corrected, a refresh redraws what was created, and default text stays visible |
| RootLabel.MinSize | label.go:149-168 | the text size plus 10 on each axis |
| RootLabel.Layout | label.go:115-147 | the background fills the size; the text keeps its text size |
| RootLabel.LayoutAnchors | label.go:136-146 | centred text at the centre, trailing text at centre-right, any other at centre-left |
| RootLabel.CenteredMargins | label.go:115-168 | at its min size centred text has 5 units of margin on every side |
| Spacer.NewFixedSpacer | mywidget/spacer.go:17-24 | the given lengths |
| Spacer.NewWidthSpacer | mywidget/spacer.go:26-28 | the width and `Infinity` |
| Spacer.NewHeightSpacer | mywidget/spacer.go:30-32 | `Infinity` and the height |
| Spacer.MinLength | mywidget/spacer.go:41-50 | `Infinity` asks for nothing; any other length as stored |
| Spacer.MinSize | mywidget/spacer.go:41-50 | the min length on each axis |
| Spacer.RendererMinSize | mywidget/spacer.go:68-70 | the renderer's min size is the widget's |
| Spacer.Layout | mywidget/spacer.go:58-66 | the rectangle takes exactly the size given |
| Spacer.SpacerMinSizes | mywidget/spacer.go:17-50 | a width spacer asks for its width and no height, a height spacer the reverse |

## Left out

- The mutexes, the log console's ticker goroutine and `fyne.Do` dispatch are not modelled: each operation is one atomic step, and a flush applies its UI part at once.
- The real `time.AfterFunc` timer is an explicit "timer elapsed" event.
- Lengths are `real`: float32 rounding and overflow are not modelled. `Infinity` is `math.MaxFloat32` as a distinguished value.
- Text measurement (`fyne.MeasureText`, a text's `MinSize`) is an input. So are the theme's padding and colours, which are named constants.
- `time.Now` is the argument `now`. `time.Sub` saturation at the extremes of the clock is not modelled.
- The date-time picker does not model `time.Date` normalisation or `time.Format`: a date-time is a record of its six fields.
- The date picker's `time.Date(…).AddDate(0, 0, -1).Day()` is modelled on whole days in UTC: a date is turned into a day number and back. Clock time, zones and `AddDate`'s month and year arguments (both 0 there) are left out.
- `DatePicker.SetDate` and `DatePicker.GetDate` only convert to and from `time.Time`, which is not modelled.
- The tap distance `math.Hypot(dx, dy) < 10` is modelled as dx² + dy² < 100.
- Decimal.Atoi: does not model `strconv.Atoi`'s 64-bit range error, since integers are unbounded.
- `strconv.ParseFloat` is the abstract predicate `parsesAsFloat`. `NewEntryByFloat` (`%f` formatting) is left out for the same reason.
- `ShowError`/`ShowInfo` and `CenterOnScreen` are requests to the host and do not change the registry.
- The menu button's `SetPadding` and `GetPadding` store and return the padding; `MenuButton.MinSize` and `MenuButton.Layout` read the `padding` field directly, as the renderer reads `GetPadding()`.
- The date-time picker's button opens its popup on `fyne.CurrentApp().Driver().AllWindows()[0]`, which panics when no window is open, as `CopyAll` does. `ShowPopup` takes the window as given and does not model that panic.
- The popup's position (`popupPos`), the side menu's node rendering (icon and label), and the ellipsis label's tooltip and context menu are drawing, not decisions.
- The side menu's tap dispatch calls the item callback with no argument, while its type takes a name. It is left out.
- Also left out:
  - the `CreateRenderer`/`Refresh`/`Destroy` plumbing of every widget;
  - the internals of the toolkit's `Select`, `Entry` and `Tree`.
- The label setters store a field and refresh; the model reads the fields directly. This covers `label.go`'s `SetFontSize`, `SetColor`, `SetBackgroundColor`, `SetFixedSize` and `SetAlign` (lines 75-107), and `mywidget/label.go`'s `SetPadding`, `GetPadding`, `SetColor`, `SetBackgroundColor`, `SetFixedSize`, `SetAlign`, `Alignment` and `SetTextStyle` (lines 65-131). `mywidget/label.go`'s `SetFontSize` is modelled.
- `DateTimePicker.GetTime` only returns the stored time, the `selected` field of the model.
- The date-time picker builds its times with `time.Date(…, time.Local)`, which can shift a wall-clock time across a daylight-saving gap. The model keeps the six fields as given and does not model time zones.
- Also left out, as setters or getters that store a value no modelled rule reads:
  - the text colour, size and style setters of the ellipsis label;
  - `SetTextAlign` of the menu button, whose alignment only the renderer's drawing reads;
- `NewRow`/`NewColumn` only choose the axis and store the children; the model takes the axis as its `horizontal` flag.
- The scaffold's constructor and part setters and getters only store the parts; `Layout`, `MinSize` and `Objects` take the parts directly.
- The pagination's `MinSize` and `CreatePaginationSize` depend on the theme's padding and widget sizes and decide nothing.
- Grid.LayoutWith: with zero rows and some children the cell height is a float division by zero. The result is the variant `NonFiniteCells`, not the infinities and NaNs themselves.
- `CopyAll` reaches the app's windows through `fyne.CurrentApp()`. The model takes the number of open windows and whether the first has a clipboard as arguments, and the clipboard write is the `Some` result.
- The ellipsis label's `[]rune(full)` gets a capacity chosen by the Go runtime, at least the rune count. `Shorten` takes it as the argument `capacity`.
- `mywidget/sized.box.go` uses `myfyneKit.ChildPosition` and `myfyneKit.Infinity`, and `mywidget/label.go` uses `myfynebase.ChildPosition`. Those packages are not part of this model. They are taken to be the `ChildPosition` and `Infinity` of `base.go`, which are modelled.
- `label.go` wraps its colour functions in `myctrl.ObjFun` from the external `gobase` library. It is taken to call the function and return its value.
- The `fmt.Println` traces in `label.go`'s `Layout` and `Refresh` (lines 116 and 171) are output only and are dropped.
- `mybinding/bind.struct.go` walks struct fields by reflection and is not part of this model.
- The other widgets, dialogs, file I/O, clipboard, popups, the loading animation and the thin wrappers around toolkit widgets are not part of this model.

## Findings

| source | as written | input that shows it | evidently intended | confidence | as-written member | corrected member |
|---|---|---|---|---|---|---|
| mylayout/v.box.go:25-43 | the first pass sets apart horizontal spacers while the second gives the spacer size to vertical spacers | a vertical-only spacer above a 10-high child in a 100-high box: the spacer gets height 0 and the child sits at 0 | the first pass counts the vertical spacers, so the child sits at 90 | high (not executed) | VBox.LayoutMissesVerticalSpacer | VBox.CountedLayoutFillsHeight |
| mywidget/grid.go:63-64, 112 | the row count is `len(children) / columns`, truncated | 3 children in 2 columns at 100×100: one row, and the third cell is at y = 100, fully below the grid; 1 child in 2 columns gives 0 rows and an infinite cell height | the row count is the ceiling, so every cell lies inside the grid | high (not executed) | Grid.PartialRowOverflows | Grid.CorrectedCellsWithin |
| label.go:173-177 | `Refresh` falls back to the theme's background colour for the text | a label with no colours, refreshed: text and background have the same colour | the text falls back to the foreground, as `CreateRenderer` does | high (not executed) | RootLabel.RefreshHidesDefaultText | RootLabel.RefreshAgreesWithCreate |
| scaffold.go:153-173 | the min size takes the content's width as an alternative to the side bar, not in addition to it | a 100×100 content beside a 50×10 side bar: the min size is 100×100 and the content is laid out 50 wide | the min size puts the side bar beside the content and the bars around them | medium (not executed) | Scaffold.MinSizeStarvesContent | Scaffold.FittingMinSizeFits |
| mywidget/menu.button.go:246-257 | `Layout` sizes the label to its min size plus the padding and also moves it in by the padding | 10 units of padding and a 50×20 label: the button is 70×40 and the label box runs to 80×50 | the label gets the area inside the padding | medium (not executed) | MenuButton.LabelOverflowsButton | MenuButton.CorrectedLabelFits |
| mywidget/entry.readonly.go:38-46 | every shortcut except paste is handed to the embedded entry, cut included | select-all, then Ctrl+X: the embedded `widget.Entry` cuts the selection and the read-only text loses it | cut is refused like paste, while copy and select-all still pass | medium (not executed) | EntryReadonly.CutReachesEntry | EntryReadonly.CorrectedDeliversNoEdit |
| mywidget/label.go:133-157 | `Layout` anchors the text in the whole label, ignoring the padding that `MinSize` reserves | 10 units of left padding and a 40×20 leading text: the min size is 50×20 and the text starts at x = 0 | the text is anchored inside the padding | medium (not executed) | PaddedLabel.LayoutIgnoresPadding | PaddedLabel.CorrectedTextInsidePadding |
