/** The interface object: the fields the library keeps between calls and
    the operations that read and update them. Each method follows the
    library's own control flow and is proved to compute what the pure
    definitions in the other modules say. Drawing is not modelled; a check
    that would redraw a widget reports which redraw it asks for. */
module Ui {
  import opened UiTypes
  import opened TouchEvents
  import opened Geometry
  import opened MenuLayout
  import opened Menus
  import opened Navigation
  import opened Widgets

  class UserInterface {
    // the screen, and the display space below the title bar
    const lcdWidth: int
    const lcdHeight: int
    const displaySpace: DisplaySpace
    /** The title-bar font's measure of a string's width in pixels. */
    const textWidth: string -> int
    /** The application's menu tables. */
    const menus: map<TableId, MenuTable>
    /** The application's callbacks, as far as the interface sees them: the
        text they leave in toggleText once the given calls have been made. */
    const callbackReport: seq<CallbackCall> -> string

    // the most recent touch event, read by every widget check
    var touchEventType: EventKind
    var touchEventX: int
    var touchEventY: int

    // the touch state machine: the state and what getTouchEvents keeps in
    // its static locals
    var touchState: TouchState
    var touchEventStartTime: nat
    var recordedTouchX: int
    var recordedTouchY: int

    var numberBoxRepeatCount: nat

    // menus
    var currentMenuTable: TableId
    var buttonTypeOnTitleBar: TitleBarButton
    var toggleSelectNextStateFlg: bool
    /** Written by the application's callbacks: a toggle's callback leaves
        the text for its current state here. */
    var toggleText: string
    /** The application callbacks called so far, in order. */
    var callbackLog: seq<CallbackCall>

    /** The interface after `begin`: the display space is laid out for the
        screen and the touch machine waits for a touch. */
    constructor Begin(lcdWidth: int, lcdHeight: int, textWidth: string -> int, menus: map<TableId, MenuTable>,
                      callbackReport: seq<CallbackCall> -> string)
      ensures this.lcdWidth == lcdWidth && this.lcdHeight == lcdHeight
      ensures this.textWidth == textWidth && this.menus == menus && this.callbackReport == callbackReport
      ensures displaySpace == DisplaySpaceOf(lcdWidth, lcdHeight)
      ensures TouchMachine() == InitialMachine && touchEventType == NoEvent
      ensures numberBoxRepeatCount == 0
      ensures buttonTypeOnTitleBar == NoTitleButton && callbackLog == []
    {
      this.lcdWidth := lcdWidth;
      this.lcdHeight := lcdHeight;
      this.textWidth := textWidth;
      this.menus := menus;
      this.callbackReport := callbackReport;
      var width := lcdWidth - 2;
      var height := lcdHeight - TitleBarHeight - 1;
      var leftX := 1;
      var topY := TitleBarHeight;
      displaySpace := DisplaySpace(width, height, leftX, leftX + width - 1, topY, topY + height - 1,
                                   leftX + Div(width, 2), topY + Div(height, 2));
      touchEventType := NoEvent;
      touchEventX, touchEventY := 0, 0;
      touchState := WaitingForTouchDown;
      touchEventStartTime := 0;
      recordedTouchX, recordedTouchY := 0, 0;
      numberBoxRepeatCount := 0;
      currentMenuTable := 0;
      buttonTypeOnTitleBar := NoTitleButton;
      toggleSelectNextStateFlg := false;
      toggleText := "";
      callbackLog := [];
    }

    function TouchMachine(): Machine
      reads this`touchState, this`touchEventStartTime, this`recordedTouchX, this`recordedTouchY
    {
      Machine(touchState, touchEventStartTime, recordedTouchX, recordedTouchY)
    }

    function MenuStateOf(): MenuState
      reads this`currentMenuTable, this`buttonTypeOnTitleBar, this`toggleSelectNextStateFlg, this`callbackLog
    {
      MenuState(currentMenuTable, buttonTypeOnTitleBar, toggleSelectNextStateFlg, callbackLog)
    }

    /** The menus are well formed and the current table is one of them. */
    predicate MenusReady()
      reads this`currentMenuTable
    {
      ValidMenus(menus) && currentMenuTable in menus
    }

    function CurrentTable(): MenuTable
      reads this`currentMenuTable
      requires MenusReady()
    {
      menus[currentMenuTable]
    }

    // -------------------------------------------------------------------------
    // Touch events
    // -------------------------------------------------------------------------

    /** One poll of the touch screen at time `now` with the calibrated sample
        (touched, x, y). The event coordinates change only with an event. */
    method GetTouchEvents(now: nat, touched: bool, x: int, y: int)
      modifies this`touchEventType, this`touchEventX, this`touchEventY
      modifies this`touchState, this`touchEventStartTime, this`recordedTouchX, this`recordedTouchY
      ensures var r := Step(old(TouchMachine()), Sample(now, touched, x, y));
        TouchMachine() == r.next && touchEventType == r.kind
      ensures touchEventType != NoEvent ==> touchEventX == recordedTouchX && touchEventY == recordedTouchY
      ensures touchEventType == NoEvent ==> touchEventX == old(touchEventX) && touchEventY == old(touchEventY)
    {
      touchEventType := NoEvent;
      match touchState
      case WaitingForTouchDown =>
        if touched {
          touchState := ConfirmTouchDown;
          touchEventStartTime := now;
        }
      case ConfirmTouchDown =>
        if now < touchEventStartTime + TouchDebouncePeriod {
          return;
        }
        if !touched {
          touchState := WaitingForTouchDown;
          return;
        }
        recordedTouchX, recordedTouchY := x, y;
        touchEventStartTime := now;
        touchState := WaitingForTouchUp;
        touchEventX, touchEventY := recordedTouchX, recordedTouchY;
        touchEventType := Pushed;
      case WaitingForTouchUp =>
        if !touched {
          touchState := ConfirmTouchUp;
          return;
        }
        if now < touchEventStartTime + TouchAutoRepeatDelay {
          return;
        }
        touchEventStartTime := now;
        touchState := WaitingForTouchUpAfterAutoRepeat;
        touchEventX, touchEventY := recordedTouchX, recordedTouchY;
        touchEventType := Repeat;
      case WaitingForTouchUpAfterAutoRepeat =>
        if !touched {
          touchState := ConfirmTouchUp;
          return;
        }
        if now < touchEventStartTime + TouchAutoRepeatRate {
          return;
        }
        touchEventStartTime := now;
        touchEventX, touchEventY := recordedTouchX, recordedTouchY;
        touchEventType := Repeat;
      case ConfirmTouchUp =>
        if touched {
          touchEventStartTime := now;
          return;
        }
        if now < touchEventStartTime + TouchDebouncePeriod {
          return;
        }
        touchState := WaitingForTouchDown;
        touchEventX, touchEventY := recordedTouchX, recordedTouchY;
        touchEventType := Released;
    }

    /** Whether the most recent event is of kind `eventType` and lies in the
        rectangle (x1, y1)-(x2, y2), bounds included. */
    function CheckForTouchEventInRect(eventType: EventKind, x1: int, y1: int, x2: int, y2: int): (b: bool)
      reads this`touchEventType, this`touchEventX, this`touchEventY
      ensures b <==> touchEventType == eventType && x1 <= touchEventX <= x2 && y1 <= touchEventY <= y2
    {
      if eventType != touchEventType then false
      else touchEventX >= x1 && touchEventX <= x2 && touchEventY >= y1 && touchEventY <= y2
    }

    /** The most recent event is of kind `eventType` inside the box `b`. */
    predicate EventIn(eventType: EventKind, r: Rect)
      reads this`touchEventType, this`touchEventX, this`touchEventY
    {
      touchEventType == eventType && InRect(touchEventX, touchEventY, r)
    }

    // -------------------------------------------------------------------------
    // Push buttons
    // -------------------------------------------------------------------------

    /** A click is a release on the button; a press only highlights it. */
    method CheckForButtonClicked(button: Button) returns (clicked: bool, redraw: Redraw)
      ensures clicked <==> EventIn(Released, ButtonHitRect(button))
      ensures redraw == DrawHighlighted <==> EventIn(Pushed, ButtonHitRect(button))
      ensures redraw == DrawNormal <==> clicked
    {
      if touchEventType == NoEvent {
        return false, NoRedraw;
      }
      var x1 := button.centerX - Div(button.width, 2);
      var y1 := button.centerY - Div(button.height, 2);
      var x2 := x1 + button.width - 1;
      var y2 := y1 + button.height - 1;
      if CheckForTouchEventInRect(Pushed, x1, y1, x2, y2) {
        return false, DrawHighlighted;
      }
      if CheckForTouchEventInRect(Released, x1, y1, x2, y2) {
        return true, DrawNormal;
      }
      return false, NoRedraw;
    }

    /** True on the press and on every repeat while the button is held. */
    method CheckForButtonAutoRepeat(button: Button) returns (repeating: bool, redraw: Redraw)
      ensures repeating <==> EventIn(Pushed, ButtonHitRect(button)) || EventIn(Repeat, ButtonHitRect(button))
      ensures redraw == DrawHighlighted <==> EventIn(Pushed, ButtonHitRect(button))
      ensures redraw == DrawNormal <==> EventIn(Released, ButtonHitRect(button))
    {
      if touchEventType == NoEvent {
        return false, NoRedraw;
      }
      var x1 := button.centerX - Div(button.width, 2);
      var y1 := button.centerY - Div(button.height, 2);
      var x2 := x1 + button.width - 1;
      var y2 := y1 + button.height - 1;
      if CheckForTouchEventInRect(Pushed, x1, y1, x2, y2) {
        return true, DrawHighlighted;
      }
      if CheckForTouchEventInRect(Repeat, x1, y1, x2, y2) {
        return true, NoRedraw;
      }
      if CheckForTouchEventInRect(Released, x1, y1, x2, y2) {
        return false, DrawNormal;
      }
      return false, NoRedraw;
    }

    /** True once per touch, on the press. */
    method CheckForButtonFirstTouched(button: Button) returns (touched: bool, redraw: Redraw)
      ensures touched <==> EventIn(Pushed, ButtonHitRect(button))
      ensures redraw == DrawHighlighted <==> touched
      ensures redraw != DrawNormal
    {
      if touchEventType == NoEvent {
        return false, NoRedraw;
      }
      var x1 := button.centerX - Div(button.width, 2);
      var y1 := button.centerY - Div(button.height, 2);
      var x2 := x1 + button.width - 1;
      var y2 := y1 + button.height - 1;
      if CheckForTouchEventInRect(Pushed, x1, y1, x2, y2) {
        return true, DrawHighlighted;
      }
      return false, NoRedraw;
    }

    // -------------------------------------------------------------------------
    // Title bar
    // -------------------------------------------------------------------------

    /** Draws the title bar with the given button and returns where the
        title text starts. */
    method DrawTitleBar(titleText: string, buttonType: TitleBarButton) returns (titleTextX: int)
      modifies this`buttonTypeOnTitleBar
      ensures buttonTypeOnTitleBar == buttonType
      ensures titleTextX == TitleTextX(lcdWidth, textWidth(titleText), buttonType, textWidth("Back"))
    {
      buttonTypeOnTitleBar := buttonType;
      titleTextX := Div(lcdWidth, 2) - Div(textWidth(titleText), 2);
      if titleTextX < 2 {
        titleTextX := 2;
      }
      if buttonType == BackTitleButton {
        var back := BackButtonBox(textWidth("Back"));
        if titleTextX < back.x + back.width + 6 {
          titleTextX := back.x + back.width + 6;
        }
      }
      if buttonType == MenuTitleButton {
        var menu := MenuButtonBox();
        if titleTextX < menu.x + menu.width + 6 {
          titleTextX := menu.x + menu.width + 6;
        }
      }
    }

    /** A click on Back: a release on it while the title bar shows it. */
    method CheckForBackButtonClicked() returns (clicked: bool, redraw: Redraw)
      ensures clicked <==>
        buttonTypeOnTitleBar == BackTitleButton && EventIn(Released, Covered(BackButtonBox(textWidth("Back"))))
      ensures redraw == DrawHighlighted <==>
        buttonTypeOnTitleBar == BackTitleButton && EventIn(Pushed, Covered(BackButtonBox(textWidth("Back"))))
      ensures redraw == DrawNormal <==> clicked
    {
      if buttonTypeOnTitleBar == BackTitleButton {
        if touchEventType == NoEvent {
          return false, NoRedraw;
        }
        var b := BackButtonBox(textWidth("Back"));
        var x2 := b.x + b.width - 1;
        var y2 := b.y + b.height - 1;
        if CheckForTouchEventInRect(Pushed, b.x, b.y, x2, y2) {
          return false, DrawHighlighted;
        }
        if CheckForTouchEventInRect(Released, b.x, b.y, x2, y2) {
          return true, DrawNormal;
        }
      }
      return false, NoRedraw;
    }

    /** A click on the Menu button: a release on it while the title bar
        shows it. */
    method CheckForMenuButtonClicked() returns (clicked: bool, redraw: Redraw)
      ensures clicked <==> buttonTypeOnTitleBar == MenuTitleButton && EventIn(Released, Covered(MenuButtonBox()))
      ensures redraw == DrawHighlighted <==>
        buttonTypeOnTitleBar == MenuTitleButton && EventIn(Pushed, Covered(MenuButtonBox()))
      ensures redraw == DrawNormal <==> clicked
    {
      if buttonTypeOnTitleBar == MenuTitleButton {
        if touchEventType == NoEvent {
          return false, NoRedraw;
        }
        var b := MenuButtonBox();
        var x2 := b.x + b.width - 1;
        var y2 := b.y + b.height - 1;
        if CheckForTouchEventInRect(Pushed, b.x, b.y, x2, y2) {
          return false, DrawHighlighted;
        }
        if CheckForTouchEventInRect(Released, b.x, b.y, x2, y2) {
          return true, DrawNormal;
        }
      }
      return false, NoRedraw;
    }

    // -------------------------------------------------------------------------
    // Menus
    // -------------------------------------------------------------------------

    /** Counts the current table's buttons by scanning for the end marker. */
    method CountMenuButtons() returns (buttonCount: nat)
      requires MenusReady()
      ensures buttonCount == ButtonCount(CurrentTable())
    {
      var t := CurrentTable();
      var idx := 1;
      buttonCount := 0;
      while t[idx].kind != EndOfMenu
        invariant 1 <= idx <= ButtonCount(t) + 1
        invariant buttonCount == idx - 1
        decreases |t| - idx
      {
        idx := idx + 1;
        buttonCount := buttonCount + 1;
      }
    }

    /** The box of button `menuIdx` of the current menu. */
    method GetMenuButtonSizeAndLocation(menuIdx: int) returns (box: Box)
      requires MenusReady() && 1 <= menuIdx <= ButtonCount(CurrentTable())
      ensures box == ItemBox(displaySpace, ColumnCount(CurrentTable()[0].action), ButtonCount(CurrentTable()), menuIdx)
    {
      var t := CurrentTable();
      var menuButtonNumber := menuIdx - 1;
      var buttonCount := CountMenuButtons();
      var columnsOfButtons := if t[0].action.Columns? then t[0].action.count else 0;
      if columnsOfButtons < 1 || columnsOfButtons > 4 {
        columnsOfButtons := 1;
      }
      assert columnsOfButtons == ColumnCount(t[0].action);
      box := LocateMenuButton(displaySpace, columnsOfButtons, buttonCount, menuIdx);
    }

    /** The entry whose button lies under the most recent event, or 0. */
    method FindMenuButtonForTouchEvent() returns (menuIdx: int)
      requires MenusReady()
      ensures menuIdx == EntryAt(menus, displaySpace, MenuStateOf(), touchEventX, touchEventY)
    {
      var t := CurrentTable();
      var n := ButtonCount(t);
      var columns := ColumnCount(t[0].action);
      var x, y := touchEventX, touchEventY;
      assert EntryAt(menus, displaySpace, MenuStateOf(), x, y) == ItemAt(displaySpace, columns, n, 1, x, y);
      menuIdx := 1;
      while true
        invariant 1 <= menuIdx <= n + 1
        // no button before menuIdx contains the point
        invariant ItemAt(displaySpace, columns, n, 1, x, y) == ItemAt(displaySpace, columns, n, menuIdx, x, y)
        decreases n + 1 - menuIdx
      {
        if t[menuIdx].kind == EndOfMenu {
          assert menuIdx == n + 1;
          return 0;
        }
        var box := GetMenuButtonSizeAndLocation(menuIdx);
        assert box == ItemBox(displaySpace, columns, n, menuIdx);
        if x >= box.x && x <= box.x + box.width - 1 {
          if y >= box.y && y <= box.y + box.height - 1 {
            assert ItemContains(displaySpace, columns, n, menuIdx, x, y);
            return menuIdx;
          }
        }
        assert !ItemContains(displaySpace, columns, n, menuIdx, x, y);
        menuIdx := menuIdx + 1;
      }
    }

    /** Draws button `menuIdx` of the current menu, at the place
        GetMenuButtonSizeAndLocation gives it; a toggle's callback is asked
        for its text first. Returns the text drawn on the button: a toggle's
        label shows the text its callback has just left in toggleText. */
    method DrawMenuItem(menuIdx: int, buttonSelected: bool) returns (buttonText: string)
      requires MenusReady() && 1 <= menuIdx <= ButtonCount(CurrentTable())
      modifies this`toggleSelectNextStateFlg, this`callbackLog, this`toggleText
      ensures MenuStateOf() == Redrawn(menus, old(MenuStateOf()), menuIdx)
      ensures callbackLog == old(callbackLog) + ToggleQuery(CurrentTable()[menuIdx])
      ensures toggleText == TextAfterCalls(callbackReport, old(toggleText), old(callbackLog), callbackLog)
      ensures buttonText == if CurrentTable()[menuIdx].kind == Toggle then ToggleLabel(CurrentTable()[menuIdx].text, toggleText)
                            else CurrentTable()[menuIdx].text
    {
      var _ := GetMenuButtonSizeAndLocation(menuIdx);
      var item := CurrentTable()[menuIdx];
      assert ValidEntry(menus, item);
      buttonText := item.text;
      if item.kind == Toggle {
        toggleSelectNextStateFlg := false;
        callbackLog := callbackLog + [CallbackCall(item.action.fn, toggleSelectNextStateFlg)];
        toggleText := callbackReport(callbackLog);
        buttonText := ToggleLabel(item.text, toggleText);
      }
    }

    /** Draws every button of the current menu, one after the other. */
    method DrawMenu()
      requires MenusReady()
      modifies this`toggleSelectNextStateFlg, this`callbackLog, this`toggleText
      ensures MenuStateOf() == DrawnUpTo(menus, old(MenuStateOf()), ButtonCount(CurrentTable()) + 1)
      ensures toggleText == TextDrawnUpTo(menus, callbackReport, old(MenuStateOf()), old(toggleText),
                                          ButtonCount(CurrentTable()) + 1)
    {
      var t := CurrentTable();
      ghost var n := ButtonCount(t);
      ghost var s0, text0 := MenuStateOf(), toggleText;
      var menuIdx := 1;
      while t[menuIdx].kind != EndOfMenu
        invariant 1 <= menuIdx <= n + 1
        invariant MenuStateOf() == DrawnUpTo(menus, s0, menuIdx)
        invariant toggleText == TextDrawnUpTo(menus, callbackReport, s0, text0, menuIdx)
        decreases |t| - menuIdx
      {
        var _ := DrawMenuItem(menuIdx, false);
        menuIdx := menuIdx + 1;
      }
      assert menuIdx == n + 1;
    }

    /** Makes table `id` current and draws it, with a Back button unless it
        is a main menu with a link. */
    method SelectAndDrawMenu(id: TableId)
      requires ValidMenus(menus) && id in menus
      modifies this`currentMenuTable, this`buttonTypeOnTitleBar, this`toggleSelectNextStateFlg, this`callbackLog, this`toggleText
      ensures MenusReady()
      ensures MenuStateOf() == Selected(menus, old(MenuStateOf()), id)
      ensures toggleText == TextAfterCalls(callbackReport, old(toggleText), old(callbackLog), callbackLog)
    {
      currentMenuTable := id;
      var header := menus[id][0];
      if header.kind == MainMenuHeader && header.link != None {
        var _ := DrawTitleBar(header.text, NoTitleButton);
      } else {
        var _ := DrawTitleBar(header.text, BackTitleButton);
      }
      SelectedDrawsEveryButton(menus, callbackReport, old(MenuStateOf()), toggleText, id);
      DrawMenu();
    }

    /** Executes entry `menuIdx` of the current menu. */
    method ExecuteMenuItem(menuIdx: int)
      requires MenusReady() && 1 <= menuIdx <= ButtonCount(CurrentTable())
      modifies this`currentMenuTable, this`buttonTypeOnTitleBar, this`toggleSelectNextStateFlg, this`callbackLog, this`toggleText
      ensures MenusReady()
      ensures MenuStateOf() == Executed(menus, old(MenuStateOf()), menuIdx)
      ensures toggleText == TextAfterCalls(callbackReport, old(toggleText), old(callbackLog), callbackLog)
    {
      var item := CurrentTable()[menuIdx];
      assert ValidEntry(menus, item);
      match item.kind
      case SubMenu =>
        SelectAndDrawMenu(item.link.value);
      case Command =>
        callbackLog := callbackLog + [CallbackCall(item.action.fn, toggleSelectNextStateFlg)];
        toggleText := callbackReport(callbackLog);
        SelectAndDrawMenu(currentMenuTable);
      case Toggle =>
        toggleSelectNextStateFlg := true;
        callbackLog := callbackLog + [CallbackCall(item.action.fn, toggleSelectNextStateFlg)];
        toggleText := callbackReport(callbackLog);
        var _ := DrawMenuItem(menuIdx, false);
      case _ =>
    }

    /** Shows the top-level menu: the start of displayAndExecuteMenu. */
    method StartMenus(menu: TableId)
      requires ValidMenus(menus) && menu in menus
      modifies this`currentMenuTable, this`buttonTypeOnTitleBar, this`toggleSelectNextStateFlg, this`callbackLog, this`toggleText
      ensures MenusReady() && TitleBarMatches(menus, MenuStateOf())
      ensures MenuStateOf() == Selected(menus, old(MenuStateOf()), menu)
      ensures toggleText == TextAfterCalls(callbackReport, old(toggleText), old(callbackLog), callbackLog)
    {
      SelectAndDrawMenu(menu);
    }

    /** One pass of displayAndExecuteMenu's loop: poll the touch screen, then
        react to the event. Returns true when the loop returns to the
        application. */
    method MenuLoopPass(now: nat, touched: bool, x: int, y: int) returns (exit: bool)
      requires MenusReady()
      modifies this`touchEventType, this`touchEventX, this`touchEventY
      modifies this`touchState, this`touchEventStartTime, this`recordedTouchX, this`recordedTouchY
      modifies this`currentMenuTable, this`buttonTypeOnTitleBar, this`toggleSelectNextStateFlg, this`callbackLog, this`toggleText
      ensures MenusReady()
      ensures var r := Step(old(TouchMachine()), Sample(now, touched, x, y));
        TouchMachine() == r.next && touchEventType == r.kind
      ensures touchEventType != NoEvent ==> touchEventX == recordedTouchX && touchEventY == recordedTouchY
      ensures var p := MenuPass(menus, displaySpace, textWidth("Back"), old(MenuStateOf()),
                                touchEventType, touchEventX, touchEventY);
        MenuStateOf() == p.state && exit == p.exit
      ensures toggleText == TextAfterCalls(callbackReport, old(toggleText), old(callbackLog), callbackLog)
    {
      GetTouchEvents(now, touched, x, y);
      exit := RespondToMenuEvent();
    }

    /** The rest of the pass: a click on Back goes to the parent menu or
        leaves the menus; a press on a button highlights it and a release
        executes it. */
    method RespondToMenuEvent() returns (exit: bool)
      requires MenusReady()
      modifies this`currentMenuTable, this`buttonTypeOnTitleBar, this`toggleSelectNextStateFlg, this`callbackLog, this`toggleText
      ensures MenusReady()
      ensures var p := MenuPass(menus, displaySpace, textWidth("Back"), old(MenuStateOf()),
                                touchEventType, touchEventX, touchEventY);
        MenuStateOf() == p.state && exit == p.exit
      ensures toggleText == TextAfterCalls(callbackReport, old(toggleText), old(callbackLog), callbackLog)
    {
      if touchEventType == NoEvent {
        return false;
      }
      ghost var s0 := MenuStateOf();
      var backClicked, _ := CheckForBackButtonClicked();
      assert backClicked == BackClicked(s0, textWidth("Back"), touchEventType, touchEventX, touchEventY);
      var header := CurrentTable()[0];
      if backClicked {
        if header.kind == SubMenuHeader {
          assert ValidTable(menus, CurrentTable());
          SelectAndDrawMenu(header.link.value);
          return false;
        }
        if header.kind == MainMenuHeader {
          return header.link == None;
        }
      }
      TouchMenuButton();
      return false;
    }

    /** Highlights the button under a press, or executes the entry under a
        release. */
    method TouchMenuButton()
      requires MenusReady()
      modifies this`currentMenuTable, this`buttonTypeOnTitleBar, this`toggleSelectNextStateFlg, this`callbackLog, this`toggleText
      ensures MenusReady()
      ensures MenuStateOf() == ButtonTouched(menus, displaySpace, old(MenuStateOf()), touchEventType, touchEventX, touchEventY)
      ensures toggleText == TextAfterCalls(callbackReport, old(toggleText), old(callbackLog), callbackLog)
    {
      ghost var s0 := MenuStateOf();
      ghost var r := ButtonTouched(menus, displaySpace, s0, touchEventType, touchEventX, touchEventY);
      var menuIdx := FindMenuButtonForTouchEvent();
      assert menuIdx == EntryAt(menus, displaySpace, s0, touchEventX, touchEventY);
      if menuIdx > 0 {
        if touchEventType == Pushed {
          assert r == Redrawn(menus, s0, menuIdx);
          var _ := DrawMenuItem(menuIdx, true);
          return;
        }
        if touchEventType == Released {
          assert r == Executed(menus, Redrawn(menus, s0, menuIdx), menuIdx);
          var _ := DrawMenuItem(menuIdx, false);
          ExecuteMenuItem(menuIdx);
          return;
        }
      }
    }

    // -------------------------------------------------------------------------
    // Number box
    // -------------------------------------------------------------------------

    /** Adds `stepAmount` to the box's value, clamped to its range; true when
        the value changed. */
    method UpdateNumberBoxNumber(numberBox: NumberBox, stepAmount: int) returns (changed: bool)
      modifies numberBox`value
      ensures numberBox.value == ClampedStep(old(numberBox.value), numberBox.minimumValue,
                                             numberBox.maximumValue, stepAmount)
      ensures changed <==> numberBox.value != old(numberBox.value)
    {
      if stepAmount > 0 {
        var newValue := numberBox.value + stepAmount;
        if newValue > numberBox.maximumValue {
          newValue := numberBox.maximumValue;
        }
        if numberBox.value == newValue {
          return false;
        }
        numberBox.value := newValue;
        return true;
      }
      if stepAmount < 0 {
        var newValue := numberBox.value + stepAmount;
        if newValue < numberBox.minimumValue {
          newValue := numberBox.minimumValue;
        }
        if numberBox.value == newValue {
          return false;
        }
        numberBox.value := newValue;
        return true;
      }
      return false;
    }

    /** Reacts to the most recent event on a number box's steppers. */
    method CheckForNumberBoxTouched(numberBox: NumberBox) returns (touched: bool)
      modifies numberBox`value, this`numberBoxRepeatCount
      ensures var o := NumberBoxResponse(touchEventType, touchEventX, touchEventY, numberBox.Coords(),
                                         old(numberBox.value), numberBox.minimumValue, numberBox.maximumValue,
                                         numberBox.stepAmount, old(numberBoxRepeatCount));
        numberBox.value == o.value && numberBoxRepeatCount == o.repeatCount && touched == o.touched
    {
      if touchEventType == NoEvent {
        return false;
      }
      var c := NumberBoxCoordinates(numberBox.centerX, numberBox.centerY, numberBox.width, numberBox.height);
      var x1 := c.downButtonX;
      var y1 := c.topY;
      var x2 := c.downButtonX + c.buttonWidth - 1;
      var y2 := c.topY + c.height - 1;
      if CheckForTouchEventInRect(Pushed, x1, y1, x2, y2) {
        var _ := UpdateNumberBoxNumber(numberBox, -numberBox.stepAmount);
        numberBoxRepeatCount := 0;
        return true;
      }
      if CheckForTouchEventInRect(Repeat, x1, y1, x2, y2) {
        numberBoxRepeatCount := numberBoxRepeatCount + 1;
        var stepSize := numberBox.stepAmount * (Div(numberBoxRepeatCount, 16) + 1);
        var _ := UpdateNumberBoxNumber(numberBox, -stepSize);
        return true;
      }
      if CheckForTouchEventInRect(Released, x1, y1, x2, y2) {
        return false;
      }
      x1 := c.upButtonX;
      x2 := c.upButtonX + c.buttonWidth - 1;
      if CheckForTouchEventInRect(Pushed, x1, y1, x2, y2) {
        var _ := UpdateNumberBoxNumber(numberBox, numberBox.stepAmount);
        numberBoxRepeatCount := 0;
        return true;
      }
      if CheckForTouchEventInRect(Repeat, x1, y1, x2, y2) {
        numberBoxRepeatCount := numberBoxRepeatCount + 1;
        var stepSize := numberBox.stepAmount * (Div(numberBoxRepeatCount, 16) + 1);
        var _ := UpdateNumberBoxNumber(numberBox, stepSize);
        return true;
      }
      if CheckForTouchEventInRect(Released, x1, y1, x2, y2) {
        return false;
      }
      return false;
    }

    // -------------------------------------------------------------------------
    // Selection box
    // -------------------------------------------------------------------------

    /** Reacts to the most recent event on a selection box's cells: true when
        the selection changed. */
    method CheckForSelectionBoxTouched(selectionBox: SelectionBox) returns (changed: bool, redraw: Redraw)
      modifies selectionBox`value
      ensures var o := SelectionResponse(touchEventType, touchEventX, touchEventY,
                                         selectionBox.centerX, selectionBox.centerY, selectionBox.width,
                                         selectionBox.height, selectionBox.ChoiceCount(), old(selectionBox.value));
        selectionBox.value == o.value && changed == o.changed && redraw == o.redraw
    {
      if touchEventType == NoEvent {
        return false, NoRedraw;
      }
      var kind, x, y := touchEventType, touchEventX, touchEventY;
      var numberOfCells := selectionBox.ChoiceCount();
      ghost var cx, cy, w, h := selectionBox.centerX, selectionBox.centerY, selectionBox.width, selectionBox.height;
      for cellNumber := 0 to numberOfCells
        invariant selectionBox.value == old(selectionBox.value)
        // no cell before cellNumber has taken the event
        invariant kind == Pushed || kind == Released ==>
          CellAt(cx, cy, w, h, numberOfCells, 0, x, y) == CellAt(cx, cy, w, h, numberOfCells, cellNumber, x, y)
      {
        var cell := selectionBox.Cell(cellNumber);
        if CheckForTouchEventInRect(Pushed, cell.x, cell.y, cell.x + cell.width - 1, cell.y + cell.height - 1) {
          var oldSelectionValue := selectionBox.value;
          selectionBox.value := cellNumber;
          return oldSelectionValue != selectionBox.value, DrawHighlighted;
        }
        if CheckForTouchEventInRect(Released, cell.x, cell.y, cell.x + cell.width - 1, cell.y + cell.height - 1) {
          return false, DrawNormal;
        }
      }
      return false, NoRedraw;
    }
  }
}
