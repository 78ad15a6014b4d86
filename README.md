# TeensyUserInterface in Dafny

A model of the core of TeensyUserInterface. This is an Arduino/Teensy
library that puts a touch-driven user interface on an ILI9341 LCD with an
XPT2046 touch screen. The model covers the logic that decides what the
interface does. It leaves out the pixels it draws.

The model covers:

- the touch-event state machine. Each call of `getTouchEvents` turns one
  calibrated touch sample into at most one event: Pushed, Repeat or
  Released. It debounces the press and the release, and it auto-repeats
  while the screen is held.
- hit testing of the most recent event against rectangles: push buttons,
  and the title bar's Back and Menu buttons.
- the menu system. Menu tables have a header, entries and an end marker.
  The model lays a menu's buttons out in a grid and finds the button under
  a touch. It covers one pass of the `displayAndExecuteMenu` loop, the
  execution of sub-menu, command and toggle entries, the Back button, and
  the label of a toggle button.
- the integer number box: the layout of its three zones, the clamped update
  of its value, and the accelerating auto-repeat of its steppers.
- the selection box: how many choices it shows, where its cells are, and
  how a touch selects one.
- the configuration store in EEPROM. Each slot holds a sentinel byte
  followed by a byte, a 16-bit short or a 32-bit int.
- `lcdMakeColor`, which packs RGB565 colour words.

Modules follow the library's structure:

- `UiTypes`: event and menu-item codes, records and rectangles, and C's
  truncating `/`.
- `TouchEvents`: the state machine as a pure step function, and what any
  run of it reports.
- `Geometry`: the display space, the title bar, push buttons, number-box
  zones and selection cells.
- `MenuLayout`: the button grid and the hit test.
- `Menus`: table-level facts.
- `Navigation`: menu navigation as a function of the menu state.
- `Widgets`: the `NumberBox` and `SelectionBox` records, as classes, and
  the response to one event.
- `ConfigStore`: the EEPROM slots, with the writes done in place on an
  array.
- `Colors`: colour words.
- `Ui`: the `TeensyUserInterface` object, as class `UserInterface`. Each
  method follows the library's control flow, updates the object's fields,
  and is proved to compute what the pure definitions say.

Inputs that come from hardware are parameters:

- the current time in milliseconds;
- the calibrated touch sample (touched, x, y);
- the screen size;
- the title-bar font's text width, a function from string to pixels;
- the application's callbacks, as `callbackReport`: a function from the
  calls made so far to the text the callbacks leave in `toggleText`.

Application callbacks are not run. Each call is recorded, with the value of
`toggleSelectNextStateFlg` at the time, in the object's `callbackLog`.
Right after each call, `toggleText` is set to `callbackReport` of the whole
log. A toggle's label is built from that new text.

## Model

| member | source | states |
|---|---|---|
| UiTypes.Div | src/TeensyUserInterface.cpp:224-225 | C's `/` with a positive divisor: equal to Euclidean division for a non-negative dividend. For a negative dividend it rounds toward zero: the quotient is never positive and `a <= q * b < a + b` |
| UiTypes.EventCode | src/TeensyUserInterface.h:198-201 | the four touch-event codes 0..3 are distinct, only NoEvent is 0, and each code decodes back to its event |
| UiTypes.MenuItemCode | src/TeensyUserInterface.h:178-183 | the six menu-item codes 0..5 are distinct and decode back; the two headers are codes 0 and 1, the end marker is 5 |
| TouchEvents.TouchStateCode | src/TeensyUserInterface.cpp:2433-2437 | the five touch-machine state codes 0..4 are distinct and decode back |
| TouchEvents.Step | src/TeensyUserInterface.cpp:2498-2657 | one poll: Pushed exactly when confirm-down sees a touch after 30 ms, and it latches that sample; Repeat exactly while held, 800 ms after the press and then every 120 ms; Released exactly when confirm-up sees no touch after 30 ms; only Pushed latches coordinates; Pushed and Repeat restart the timer. Without an event: a touch while waiting moves to confirm-down and starts the timer; a lift while held moves to confirm-up and keeps the timer. A Repeat moves to the after-repeat state. A poll that neither reports nor changes state changes nothing, except that a re-touch in confirm-up restarts the timer |
| TouchEvents.BounceOnPressIsRejected | src/TeensyUserInterface.cpp:2537-2550 | a touch gone when the debounce period ends sends the machine back to waiting, with no event |
| TouchEvents.RetouchRestartsReleaseTimer | src/TeensyUserInterface.cpp:2629-2641 | a touch while a release is being confirmed restarts the timer, with no event |
| TouchEvents.Run | src/TeensyUserInterface.cpp:2498-2657 | a run of polls reports only real events, each with its poll's time and the latched coordinates |
| TouchEvents.StepKeepsConsistent | src/TeensyUserInterface.cpp:2498-2657 | every poll keeps the machine consistent with the last event reported, and any event it reports may follow that event |
| TouchEvents.RunIsWellOrdered | src/TeensyUserInterface.cpp:2498-2657 | from a consistent machine and chronological samples, the events reported are well ordered |
| TouchEvents.EventsFromPowerUpAreWellOrdered | src/TeensyUserInterface.cpp:2498-2657 | from power-up, any chronological samples give events of the form (Pushed Repeat* Released)*. Repeat and Released carry the press's coordinates. The first Repeat comes at least 800 ms after Pushed, later ones at least 120 ms apart. Released comes at least 30 ms after the last Pushed or Repeat, and the next Pushed at least 30 ms after Released |
| TouchEvents.ShortTouchIsIgnored | src/TeensyUserInterface.cpp:2523-2550 | from idle, a touch shorter than the debounce period is never reported |
| TouchEvents.HeldNeverPushes | src/TeensyUserInterface.cpp:2570-2627 | while the screen stays touched, a held touch reports only auto-repeats, never a second press |
| TouchEvents.ConfirmedTouchIsPushedOnce | src/TeensyUserInterface.cpp:2537-2627 | a touch still present when the debounce period is over is reported exactly once as Pushed, at the first poll after the 30 ms and with that poll's coordinates; every later event of the held touch is a Repeat |
| TouchEvents.ReleaseTimerCountsFromPress | src/TeensyUserInterface.cpp:2570-2653 | lifting the finger does not restart the release timer: once 30 ms have passed since the press, last repeat or re-touch, the poll right after the lift reports Released at the latched coordinates, and the machine waits for a new touch |
| Geometry.DisplaySpaceOf | src/TeensyUserInterface.cpp:218-225 | the display space lies below the 34-pixel title bar, inside a one-pixel frame; its width and height agree with its edges, and its centre is in its first half |
| Geometry.TitleBarButtonCode | src/TeensyUserInterface.cpp:695-697 | the three title-bar button codes 0..2 are distinct |
| Geometry.BackButtonBox | src/TeensyUserInterface.cpp:1045-1056 | the Back button is 4 pixels from the left and vertically centred in the title bar, 6 pixels less tall than it, and 41 pixels wider than the text "Back" |
| Geometry.MenuButtonBox | src/TeensyUserInterface.cpp:1065-1071 | the Menu button is placed like the Back button, and its width is 1.8 times its height, rounded down |
| Geometry.TitleTextX | src/TeensyUserInterface.cpp:759-828 | the title text is centred, but starts at x >= 2 and at least 6 pixels right of the button shown; it takes one of exactly those positions |
| Geometry.ButtonHitRect | src/TeensyUserInterface.cpp:1245-1280 | a push button reacts in a rectangle of exactly its declared size that contains its centre |
| Geometry.ButtonDrawnBox | src/TeensyUserInterface.cpp:1113-1122 | a push button is drawn at the hit rectangle's corner, moved onto the screen when that corner is negative |
| Geometry.ClampedButtonMissesItsDrawnEdge | src/TeensyUserInterface.cpp:1113-1122 | a button sticking out on the left is drawn with a right-most column that touches do not reach |
| Geometry.NumberBoxCoordinates | src/TeensyUserInterface.cpp:1840-1859 | stepper width is 1.6 times the height, at most 40% of the width, at least 30; the number field is at least 30; the zones are contiguous, Up on the left; when they fit, they span the declared width exactly |
| Geometry.SteppersAreApart | src/TeensyUserInterface.cpp:1840-1859 | no point lies in both steppers, and the number field (at least 30 pixels) lies between them |
| Geometry.SelectionCellBox | src/TeensyUserInterface.cpp:2390-2402 | cell i is (width - 3) / count wide and height - 3 tall, at i cell widths from the left edge of a block centred on the box |
| Geometry.SelectionCellsAreAdjacent | src/TeensyUserInterface.cpp:2390-2402 | each cell starts exactly where the previous one ends, in the same row and size |
| Geometry.SelectionCellsAreDisjoint | src/TeensyUserInterface.cpp:2390-2402 | two distinct cells share no pixel |
| Geometry.SelectionBlockFits | src/TeensyUserInterface.cpp:2390-2402 | the cells together are no wider than the box's interior |
| Colors.MakeColor | src/TeensyUserInterface.cpp:3238-3241 | the colour is a 16-bit word from which red (top 5 bits), green (middle 6) and blue (low 5) are recovered |
| Colors.MakeColorIsInjective | src/TeensyUserInterface.cpp:3238-3241 | distinct components give distinct colours |
| Colors.EveryWordIsAColor | src/TeensyUserInterface.cpp:3238-3241 | every 16-bit word is the colour of its own bit fields |
| Colors.PrimaryColorsAreRgb565 | src/TeensyUserInterface.h:60-65 | LCD_RED, LCD_GREEN and LCD_BLUE are full red, green and blue in RGB565 |
| Colors.BlackAndWhiteAreRgb565 | src/TeensyUserInterface.h:51-68 | LCD_BLACK and LCD_WHITE are all components off and all on |
| Colors.OrangeIsRgb565 | src/TeensyUserInterface.h:69 | LCD_ORANGE is red 31, green 41, blue 0 |
| MenuLayout.ColumnCount | src/TeensyUserInterface.cpp:649-651 | a header asks for 1..4 columns with MENU_COLUMNS_n; any other value gives one column |
| MenuLayout.GridOf | src/TeensyUserInterface.cpp:649-668 | the grid has the columns asked for and just enough rows for the buttons |
| MenuLayout.GridFits | src/TeensyUserInterface.cpp:658-668 | when the display space is large enough, the buttons, the 10-pixel gaps and the 10-pixel margins fit in it |
| MenuLayout.RowCount | src/TeensyUserInterface.cpp:653 | the row count is the least r with r * columns >= buttonCount |
| MenuLayout.ItemBox | src/TeensyUserInterface.cpp:626-688 | every button has the grid's button width and height |
| MenuLayout.LocateMenuButton | src/TeensyUserInterface.cpp:648-688 | the source's step-by-step layout arithmetic computes exactly ItemBox |
| MenuLayout.ItemRowAndColumn | src/TeensyUserInterface.cpp:673-674 | item i is at row (i-1) div columns and column (i-1) mod columns, inside the grid |
| MenuLayout.ItemBoxCorner | src/TeensyUserInterface.cpp:684-687 | a button's corner is its row's left edge plus one pitch per column, and the top padding plus one pitch per row |
| MenuLayout.NeighboursOnARow | src/TeensyUserInterface.cpp:684-687 | neighbours on a row are exactly one button width plus 10 pixels apart, at the same height |
| MenuLayout.NeighboursInAColumn | src/TeensyUserInterface.cpp:684-687 | an item and the item one row below share a column and are one button height plus 10 pixels apart |
| MenuLayout.ShortLastRow | src/TeensyUserInterface.cpp:679-682 | every row but the last is full; the last row holds the remaining buttons, between 1 and the column count |
| MenuLayout.RowIsCentred | src/TeensyUserInterface.cpp:658-686 | when the display space is wide enough, every row, the short last one included, has at least 10 pixels on each side, and the two side margins differ by at most one pixel, the right one being the wider |
| MenuLayout.RowsAreCentred | src/TeensyUserInterface.cpp:665-668 | when the display space is tall enough, the block of rows has at least 10 pixels above and below it, and the two margins differ by at most one pixel, the bottom one being the wider |
| MenuLayout.ItemsAreDisjoint | src/TeensyUserInterface.cpp:626-688 | buttons of positive size never overlap |
| MenuLayout.ItemAt | src/TeensyUserInterface.cpp:587-616 | the result is 0 exactly when no button contains the point; otherwise it is the first button that contains it |
| MenuLayout.ItemAtIsTheOnlyMatch | src/TeensyUserInterface.cpp:587-616 | any button containing the point is the one found |
| Menus.EntriesFrom | src/TeensyUserInterface.cpp:634-643 | the scan stops at the first end marker, past no other |
| Menus.ButtonCount | src/TeensyUserInterface.cpp:634-643 | entries 1..n are buttons and entry n + 1 is the end marker |
| Menus.ButtonCountIsUnique | src/TeensyUserInterface.cpp:634-643 | any n with those two properties is the button count |
| Menus.ShowsBackButton | src/TeensyUserInterface.cpp:456-460 | the Back button is left off exactly for a main menu with a link |
| Menus.BackResponseOf | src/TeensyUserInterface.cpp:338-365 | Back in a sub-menu opens its parent; in a main menu without a link it leaves the menus; in a main menu with a link it does nothing |
| Menus.BackShownExactlyWhenItActs | src/TeensyUserInterface.cpp:338-365 | for a table with a header, Back is shown exactly when clicking it does something |
| Menus.ToggleLabel | src/TeensyUserInterface.cpp:559-576 | a toggle's label is its text, ":  ", then the text its callback reports |
| Menus.ToggleLabelShowsTheState | src/TeensyUserInterface.cpp:559-576 | two labels of one toggle differ exactly when the reported texts differ |
| Menus.ToggleQueries | src/TeensyUserInterface.cpp:479-494 | drawing buttons 1..k-1 makes at most k-1 callback calls |
| Menus.QueriesGoToToggles | src/TeensyUserInterface.cpp:479-494 | every call made while drawing goes to a drawn toggle's callback, and none asks it to advance |
| Menus.NoTogglesNoQueries | src/TeensyUserInterface.cpp:479-494 | a menu without toggles is drawn without calling back |
| Menus.ToggleCount | src/TeensyUserInterface.cpp:479-494 | the number of toggle entries among buttons 1..k-1 is at most k-1 |
| Menus.EveryToggleIsQueried | src/TeensyUserInterface.cpp:479-494 | drawing buttons 1..k-1 makes one call per toggle among them and no other: the toggle of entry i is asked for its text, without advancing, as call number ToggleCount(t, i), so in table order |
| Navigation.TitleButtonFor | src/TeensyUserInterface.cpp:456-460 | a table is drawn with the Back button exactly when it shows one, never with the Menu button |
| Navigation.Selected | src/TeensyUserInterface.cpp:445-471 | selecting a table makes it current and draws its title bar to match. The calls made are the table's ToggleQueries, one per toggle in table order by EveryToggleIsQueried. The flag is cleared if any toggle was drawn |
| Navigation.Redrawn | src/TeensyUserInterface.cpp:503-578 | redrawing a button asks a toggle for its text with the flag cleared; nothing else changes |
| Navigation.DrawnUpTo | src/TeensyUserInterface.cpp:479-494 | drawing buttons one after the other keeps the current table and the title bar |
| Navigation.DrawnUpToQueriesToggles | src/TeensyUserInterface.cpp:479-494 | drawing buttons 1..k-1 one by one makes exactly the ToggleQueries calls, and clears the flag exactly when it made one |
| Navigation.TextDrawnUpToIsLastReport | src/TeensyUserInterface.cpp:479-578 | after drawing buttons one by one, toggleText is what the callbacks report after the last call, or the old text when no toggle was drawn |
| Navigation.SelectedDrawsEveryButton | src/TeensyUserInterface.cpp:445-494 | selecting a table is drawing its title bar and then each of its buttons in turn, and it leaves toggleText as the callbacks report after the last call |
| Navigation.Executed | src/TeensyUserInterface.cpp:391-437 | a sub-menu entry opens its table. A command calls its callback, then shows its table again. A toggle is told to advance, then asked for its new text. Other entries do nothing |
| Navigation.EntryAt | src/TeensyUserInterface.cpp:587-616 | the entry found is 0 or a button of the current table |
| Navigation.MenuPass | src/TeensyUserInterface.cpp:326-382 | one pass of the menu loop keeps the current table one of the menus |
| Navigation.ButtonTouched | src/TeensyUserInterface.cpp:370-381 | a button press or release keeps the current table one of the menus |
| Navigation.OnlyBackLeavesTheMenus | src/TeensyUserInterface.cpp:338-365 | the loop returns exactly on a click on Back in a main menu without a link |
| Navigation.BackOpensTheParent | src/TeensyUserInterface.cpp:348-353 | Back in a sub-menu makes its parent current |
| Navigation.MenuPassKeepsTheTitleBar | src/TeensyUserInterface.cpp:313-383 | each pass keeps the title bar's button the one the current table calls for |
| Navigation.BackIsNeverIgnored | src/TeensyUserInterface.cpp:338-365 | while the title bar matches, a Back click always does something |
| Navigation.OnlyReleaseActs | src/TeensyUserInterface.cpp:370-381 | a press or repeat never leaves or changes menus, and never tells a callback to advance; it only appends text queries |
| Widgets.NumberBox.constructor | src/TeensyUserInterface.h:113-124 | a number box holds the application's value, range, step, centre and size |
| Widgets.ClampedStep | src/TeensyUserInterface.cpp:1762-1795 | a positive step stops at the maximum and a negative one at the minimum; a value with room moves toward the step; a value in range stays in range |
| Widgets.ZoneAt | src/TeensyUserInterface.cpp:1592-1660 | a point in the Down stepper is Down; a point in the Up stepper only is Up; the Down stepper is checked first |
| Widgets.RepeatMultiplier | src/TeensyUserInterface.cpp:1613-1614 | the n-th repeat steps m times the step amount, with 16(m-1) <= n < 16m, so 1 for the first 15 repeats |
| Widgets.RepeatMultiplierGrows | src/TeensyUserInterface.cpp:1613-1614 | the acceleration never slows down |
| Widgets.NumberBoxResponse | src/TeensyUserInterface.cpp:1572-1670 | touched exactly on a Pushed or Repeat in a stepper. A press steps once and resets the repeat count. A repeat counts and steps by the multiplied amount. Anything else changes nothing. The value stays in range |
| Widgets.SteppersMoveTheirWay | src/TeensyUserInterface.cpp:1572-1670 | with a positive step, Up never lowers the value and Down never raises it |
| Widgets.SelectionBox.constructor | src/TeensyUserInterface.h:148-160 | a selection box holds the application's value, four choice texts, centre and size |
| Widgets.SelectionBox.ChoiceCount | src/TeensyUserInterface.cpp:2411-2423 | a box shows one to four choices |
| Widgets.CountChoices | src/TeensyUserInterface.cpp:2411-2423 | choice 0 is always shown; the choices end at the first empty text among choices 1..3 |
| Widgets.CellAt | src/TeensyUserInterface.cpp:2288-2326 | the first cell containing the point, or -1 exactly when no cell contains it |
| Widgets.CellAtIsTheOnlyMatch | src/TeensyUserInterface.cpp:2288-2326 | any cell containing the point is the one found |
| Widgets.SelectionResponse | src/TeensyUserInterface.cpp:2274-2329 | a press on a cell selects it and highlights; a release on a cell only un-highlights; anything else is ignored; changed exactly when the value changed |
| ConfigStore.DecodeEncode | src/TeensyUserInterface.cpp:3289-3300 | the little-endian bytes of a number read back as that number |
| ConfigStore.EncodeDecode | src/TeensyUserInterface.cpp:3312-3325 | the bytes read as a number encode back to the same bytes |
| ConfigStore.Signed | src/TeensyUserInterface.cpp:3312-3325 | reading k bytes as two's complement gives a k-byte signed value whose bit pattern is those bytes |
| ConfigStore.SignedBytes | src/TeensyUserInterface.cpp:3289-3300 | a k-byte signed value is stored as k bytes that read back as that value |
| ConfigStore.SignedBytesCoverEveryPattern | src/TeensyUserInterface.cpp:3312-3325 | every k-byte pattern is the image of the value it reads as |
| ConfigStore.MarkWritten | src/TeensyUserInterface.cpp:3257-3258 | a write sets an erased sentinel (0xff) to 0 and leaves any other unchanged |
| ConfigStore.Written | src/TeensyUserInterface.cpp:3289-3300 | a write marks the sentinel, puts the payload right after it, and changes no other byte |
| ConfigStore.ReadConfigurationByte | src/TeensyUserInterface.cpp:3273-3279 | an unwritten slot gives the default; a written one gives its stored byte |
| ConfigStore.ReadConfigurationShort | src/TeensyUserInterface.cpp:3312-3325 | an unwritten slot gives the default; a written one gives the short whose bytes are stored |
| ConfigStore.ReadConfigurationInt | src/TeensyUserInterface.cpp:3360-3375 | an unwritten slot gives the default; a written one gives the int whose bytes are stored |
| ConfigStore.WriteConfigurationByte | src/TeensyUserInterface.cpp:3255-3261 | the EEPROM after the write is Written with the byte |
| ConfigStore.WriteConfigurationShort | src/TeensyUserInterface.cpp:3289-3300 | the EEPROM after the write is Written with the short's two bytes |
| ConfigStore.WriteConfigurationInt | src/TeensyUserInterface.cpp:3335-3348 | the EEPROM after the write is Written with the int's four bytes |
| ConfigStore.ByteReadsBack | src/TeensyUserInterface.cpp:3255-3279 | a written byte reads back, whatever the default |
| ConfigStore.ShortReadsBack | src/TeensyUserInterface.cpp:3289-3325 | a written short reads back, whatever the default |
| ConfigStore.IntReadsBack | src/TeensyUserInterface.cpp:3335-3375 | a written int reads back, whatever the default |
| ConfigStore.DefaultOnlyWhenUnwritten | src/TeensyUserInterface.cpp:3312-3325 | for a short slot: unless the stored value equals the default, a read gives the default exactly when the slot is unwritten |
| ConfigStore.ByteDefaultOnlyWhenUnwritten | src/TeensyUserInterface.cpp:3273-3279 | for a byte slot: unless the stored byte equals the default, a read gives the default exactly when the slot is unwritten |
| ConfigStore.IntDefaultOnlyWhenUnwritten | src/TeensyUserInterface.cpp:3360-3375 | for an int slot: unless the stored value equals the default, a read gives the default exactly when the slot is unwritten |
| ConfigStore.ShortIsLowByteFirst | src/TeensyUserInterface.cpp:3289-3300 | a short is stored low byte first |
| ConfigStore.WriteKeepsEarlierSlots | src/TeensyUserInterface.cpp:3255-3348 | a write leaves a slot that ends before it unchanged |
| Ui.UserInterface.Begin | src/TeensyUserInterface.cpp:218-225 | the display space is laid out for the screen, and the touch machine waits for a touch with no event; no callback has been called |
| Ui.UserInterface.GetTouchEvents | src/TeensyUserInterface.cpp:2498-2657 | the object's touch state changes exactly as Step says. An event reports the latched coordinates. A poll without an event leaves the event coordinates alone |
| Ui.UserInterface.CheckForTouchEventInRect | src/TeensyUserInterface.cpp:2472-2489 | true exactly when the last event is of the kind asked for and lies in the rectangle, bounds included |
| Ui.UserInterface.CheckForButtonClicked | src/TeensyUserInterface.cpp:1245-1280 | clicked exactly on a Released in the hit rectangle; highlighted exactly on a Pushed there; un-highlighted exactly when clicked |
| Ui.UserInterface.CheckForButtonAutoRepeat | src/TeensyUserInterface.cpp:1334-1375 | true exactly on a Pushed or Repeat in the hit rectangle; highlighted on the Pushed, un-highlighted on the Released |
| Ui.UserInterface.CheckForButtonFirstTouched | src/TeensyUserInterface.cpp:1435-1461 | true exactly on a Pushed in the hit rectangle, and then highlighted; never un-highlighted |
| Ui.UserInterface.DrawTitleBar | src/TeensyUserInterface.cpp:759-828 | records the title bar's button, and starts the title text at TitleTextX |
| Ui.UserInterface.CheckForBackButtonClicked | src/TeensyUserInterface.cpp:930-978 | clicked exactly on a Released in the Back button while the title bar shows it; highlighted exactly on a Pushed there |
| Ui.UserInterface.CheckForMenuButtonClicked | src/TeensyUserInterface.cpp:988-1036 | clicked exactly on a Released in the Menu button while the title bar shows it; highlighted exactly on a Pushed there |
| Ui.UserInterface.CountMenuButtons | src/TeensyUserInterface.cpp:634-643 | the loop counts exactly the current table's buttons |
| Ui.UserInterface.GetMenuButtonSizeAndLocation | src/TeensyUserInterface.cpp:626-688 | the box of a button is its ItemBox in the current table's grid |
| Ui.UserInterface.FindMenuButtonForTouchEvent | src/TeensyUserInterface.cpp:587-616 | the loop returns the first button containing the event, or 0 |
| Ui.UserInterface.DrawMenuItem | src/TeensyUserInterface.cpp:503-578 | the menu state changes as Redrawn. A toggle's callback leaves toggleText as it reports after that call; other entries leave it alone. The text drawn is the entry's, and a toggle's is its ToggleLabel with the text just reported |
| Ui.UserInterface.DrawMenu | src/TeensyUserInterface.cpp:479-494 | the loop changes the menu state as DrawnUpTo over every button, and toggleText as TextDrawnUpTo |
| Ui.UserInterface.SelectAndDrawMenu | src/TeensyUserInterface.cpp:445-471 | the menu state changes as Selected; toggleText is what the callbacks report after the last call, unchanged if none was made |
| Ui.UserInterface.ExecuteMenuItem | src/TeensyUserInterface.cpp:391-437 | the menu state changes as Executed; toggleText is what the callbacks report after the last call, unchanged if none was made |
| Ui.UserInterface.StartMenus | src/TeensyUserInterface.cpp:313-321 | the top-level menu is current and its title bar matches it; toggleText follows the calls made |
| Ui.UserInterface.MenuLoopPass | src/TeensyUserInterface.cpp:326-382 | one loop pass changes the touch machine as Step and the menu state as MenuPass; it returns true exactly when MenuPass exits; toggleText follows the calls made |
| Ui.UserInterface.RespondToMenuEvent | src/TeensyUserInterface.cpp:332-381 | after the poll, the menu state changes as MenuPass, and the result is MenuPass's exit; toggleText follows the calls made |
| Ui.UserInterface.TouchMenuButton | src/TeensyUserInterface.cpp:370-381 | the menu state changes as ButtonTouched; toggleText follows the calls made |
| Ui.UserInterface.UpdateNumberBoxNumber | src/TeensyUserInterface.cpp:1762-1795 | the value becomes ClampedStep of the old one; true exactly when it changed |
| Ui.UserInterface.CheckForNumberBoxTouched | src/TeensyUserInterface.cpp:1572-1670 | value, repeat count and result are NumberBoxResponse's |
| Ui.UserInterface.CheckForSelectionBoxTouched | src/TeensyUserInterface.cpp:2274-2329 | value, result and redraw are SelectionResponse's |

## Where the code and its comments differ

The model follows the code:

- The release debounce timer is not restarted when the finger lifts. It
  keeps counting from the press, the last repeat or the last re-touch
  (src/TeensyUserInterface.cpp:2570-2653). So a long touch is reported as
  Released on the first untouched poll after the lift
  (`TouchEvents.ReleaseTimerCountsFromPress`).
- `getNumberBoxCoordinates` places the Up stepper on the left and the Down
  stepper on the right (src/TeensyUserInterface.cpp:1840-1859).
- `checkForNumberBoxTouched` returns true on every press or repeat in a
  stepper. This holds even when the value is already at its limit and does
  not change (src/TeensyUserInterface.cpp:1594-1660).
- `checkForSelectionBoxTouched` removes the highlight only on a release
  inside a cell. A release outside every cell leaves it highlighted
  (src/TeensyUserInterface.cpp:2284-2326).
- Back in a main menu whose link is set does nothing
  (src/TeensyUserInterface.cpp:358-364). Such a menu is drawn without a
  Back button, so while the title bar matches the table this branch is
  never reached (`Navigation.BackIsNeverIgnored`).
- A push button takes touches at its declared place, but is drawn clamped to
  the screen (`Geometry.ClampedButtonMissesItsDrawnEdge`).

## Left out

- LCD drawing: pixels, fonts, colours of widgets, rounded corners and
  arrows. Drawing is modelled only by its effect on the object's fields,
  and by which redraw a check asks for (`Redraw`).
- Touch hardware, the XPT2046 driver and the calibration from raw to LCD
  coordinates. These use floating point. The model takes an
  already-calibrated sample as input.
- `millis()` is a parameter `now`, an unbounded natural number. Its 32-bit
  wrap-around after about 49 days is not modelled.
- 32-bit `int` overflow in coordinates, step sizes and values is not
  modelled: `int` is unbounded. Config values are range-checked
  (`IsShort`, `IsInt`) instead.
- The float number box (`NUMBER_BOX_FLOAT`) and the float configuration
  values. Floating point is not modelled.
- The `BUTTON_EXTENDED` overloads of the button checks. They use the same
  hit rectangle and logic as the `BUTTON` ones and differ only in drawing.
- The bodies of application callbacks. A callback is recorded in
  `callbackLog` and not run. What it writes to `toggleText` is
  `callbackReport` of the calls made so far. This covers any callback whose
  text depends only on the calls it has received. A text that depends on
  something else, such as a sensor or the clock, is not covered. Nor are a
  callback's effects on other application state.
- Ui.UserInterface.ExecuteMenuItem and Ui.UserInterface.MenuLoopPass:
  callbacks are assumed not to call back into the interface. That rules
  out a command that prompts the user on a screen of its own
  (src/TeensyUserInterface.cpp:119-127) by polling `getTouchEvents`,
  drawing a title bar, running number or selection boxes, or opening a
  nested `displayAndExecuteMenu`. The library restores none of that state
  when the callback returns (src/TeensyUserInterface.cpp:413-424). The
  touch-machine part of these contracts ("the machine changes as one
  `Step`") holds only for such callbacks. So do the touch-machine and
  title-bar parts of the contracts of `TouchMenuButton`,
  `RespondToMenuEvent`, `DrawMenu`, `SelectAndDrawMenu` and `StartMenus`,
  whose callbacks run through the same calls. Suppose a command returns
  on a press, with the finger still down. The real machine is then left
  waiting for the lift. The next passes report a Repeat and then a
  Released at that point, and a Released over a menu button executes
  it. The model does not show this.
- One interface object. The touch timer and the latched touch
  coordinates (`touchEventStartTime`, `recordedTouchX`, `recordedTouchY`)
  are function-static locals of `getTouchEvents`, shared by every
  object (src/TeensyUserInterface.cpp:2504-2506). The model gives each
  object its own copy, which is the same only when there is one object.
- Ui.UserInterface.DrawMenuItem: the box it draws the button in is
  computed but not returned. Its position is stated by
  `GetMenuButtonSizeAndLocation`.
- The font's text measurement is a parameter (`textWidth`).
- The 100-character buffer used to build a toggle label is not bounded:
  the label is the full concatenation.
- `displayAndExecuteMenu` loops forever. The model gives its start
  (`StartMenus`) and one pass (`MenuLoopPass`); the loop itself is a
  repetition of passes.
- Colour palettes, colour and font setters, and the named colours other
  than black, white, red, green, blue and orange.
- EEPROM addresses outside the device are excluded by a `requires`
  (`SlotFits`); the library does not check them.
- The hamburger drawing of the title-bar Menu button. Only its box and its
  click check are modelled.
- Menu tables are assumed well formed (`ValidMenus`): terminated, with
  sub-menu links set and callbacks present. The library reads past the end
  or calls through null for tables that are not.
- Navigation.MenuPass: its own contract states only that the current
  table stays one of the menus. What a pass does is stated by
  `OnlyBackLeavesTheMenus`, `BackOpensTheParent`, `MenuPassKeepsTheTitleBar`,
  `BackIsNeverIgnored` and `OnlyReleaseActs`, and
  `Ui.UserInterface.MenuLoopPass` is proved equal to it.
- Navigation.ButtonTouched: likewise. Its effect is given by `Redrawn`
  and `Executed`, and `OnlyReleaseActs` states what a press may do.
- Navigation.EntryAt: its own contract bounds the result. The meaning of
  the result is `MenuLayout.ItemAt`'s contract.
- MenuLayout.GridOf and MenuLayout.ItemBox: their own contracts give
  only the counts and the sizes. Placement and fit are stated by
  `GridFits`, `ItemBoxCorner`, `NeighboursOnARow`, `NeighboursInAColumn`,
  `ShortLastRow` and `ItemsAreDisjoint`. Centring is stated by
  `RowIsCentred` and `RowsAreCentred`.
- Menus.ToggleQueries: its own contract bounds the number of calls. Which
  callbacks are called, how and in what order is stated by
  `EveryToggleIsQueried`, `QueriesGoToToggles` and `NoTogglesNoQueries`.
- ConfigStore.DefaultOnlyWhenUnwritten: a read gives the default exactly
  when the slot is unwritten only if the stored value differs from the
  default. A written slot that holds the default also reads as the
  default.
- ConfigStore.ByteDefaultOnlyWhenUnwritten: the same limit, for a byte slot
  that holds the default byte.
- ConfigStore.IntDefaultOnlyWhenUnwritten: the same limit, for an int slot
  that holds the default value.
