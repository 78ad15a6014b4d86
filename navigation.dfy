/** Menu navigation as a function of the menu state: selecting and drawing a
    menu, redrawing one of its buttons, executing an entry, and one pass of
    the menu loop for one touch event. The interface's methods are proved to
    change their fields exactly as these functions say; the lemmas here say
    what navigation guarantees. */
module Navigation {
  import opened UiTypes
  import opened Geometry
  import opened MenuLayout
  import opened Menus

  /** The part of the interface's state that menu navigation changes: the
      current table, the title-bar button, toggleSelectNextStateFlg, and the
      application callbacks called so far. */
  datatype MenuState = MenuState(
    current: TableId,
    titleButton: TitleBarButton,
    selectNextState: bool,
    calls: seq<CallbackCall>)

  /** The title-bar button a table is drawn with. */
  function TitleButtonFor(header: MenuItem): (b: TitleBarButton)
    ensures b == BackTitleButton <==> ShowsBackButton(header)
    ensures b != MenuTitleButton
  {
    if header.kind == MainMenuHeader && header.link != None then NoTitleButton else BackTitleButton
  }

  /** The title bar shows the button the current table calls for. */
  predicate TitleBarMatches(menus: map<TableId, MenuTable>, s: MenuState)
    requires ValidMenus(menus) && s.current in menus
  {
    s.titleButton == TitleButtonFor(menus[s.current][0])
  }

  /** After selecting and drawing table `id`: it is current, the title bar
      is drawn for its header, and every toggle on it has been asked for its
      text. */
  function Selected(menus: map<TableId, MenuTable>, s: MenuState, id: TableId): (r: MenuState)
    requires ValidMenus(menus) && id in menus
    ensures r.current == id && TitleBarMatches(menus, r)
    ensures r.calls == s.calls + ToggleQueries(menus[id], ButtonCount(menus[id]) + 1)
    ensures r.selectNextState == (s.selectNextState && ToggleQueries(menus[id], ButtonCount(menus[id]) + 1) == [])
  {
    var queries := ToggleQueries(menus[id], ButtonCount(menus[id]) + 1);
    MenuState(id, TitleButtonFor(menus[id][0]),
              if queries == [] then s.selectNextState else false,
              s.calls + queries)
  }

  /** After drawing button `menuIdx` of the current table: a toggle has been
      asked for its text, with the flag cleared first. */
  function Redrawn(menus: map<TableId, MenuTable>, s: MenuState, menuIdx: int): (r: MenuState)
    requires ValidMenus(menus) && s.current in menus && 1 <= menuIdx <= ButtonCount(menus[s.current])
    ensures r.current == s.current && r.titleButton == s.titleButton
    ensures r.calls == s.calls + ToggleQuery(menus[s.current][menuIdx])
    ensures r.selectNextState == (s.selectNextState && menus[s.current][menuIdx].kind != Toggle)
  {
    var item := menus[s.current][menuIdx];
    if item.kind == Toggle then s.(selectNextState := false, calls := s.calls + ToggleQuery(item))
    else s
  }

  /** The state after drawing buttons 1..upTo-1 of the current table, one
      button after the other, as drawMenu does. */
  function DrawnUpTo(menus: map<TableId, MenuTable>, s: MenuState, upTo: int): (r: MenuState)
    requires ValidMenus(menus) && s.current in menus && 1 <= upTo <= ButtonCount(menus[s.current]) + 1
    decreases upTo
    ensures r.current == s.current && r.titleButton == s.titleButton
  {
    if upTo == 1 then s else Redrawn(menus, DrawnUpTo(menus, s, upTo - 1), upTo - 1)
  }

  /** Drawing buttons one by one queries the toggles among them in order, and
      clears the flag exactly when some toggle was queried. */
  lemma {:induction false} DrawnUpToQueriesToggles(menus: map<TableId, MenuTable>, s: MenuState, upTo: int)
    requires ValidMenus(menus) && s.current in menus && 1 <= upTo <= ButtonCount(menus[s.current]) + 1
    ensures DrawnUpTo(menus, s, upTo).calls == s.calls + ToggleQueries(menus[s.current], upTo)
    ensures DrawnUpTo(menus, s, upTo).selectNextState ==
      (s.selectNextState && ToggleQueries(menus[s.current], upTo) == [])
  {
    if upTo > 1 {
      DrawnUpToQueriesToggles(menus, s, upTo - 1);
      var t := menus[s.current];
      assert ValidEntry(menus, t[upTo - 1]);
      assert ToggleQueries(t, upTo) == ToggleQueries(t, upTo - 1) + ToggleQuery(t[upTo - 1]);
    }
  }

  // ---------------------------------------------------------------------------
  // The text the callbacks report
  // ---------------------------------------------------------------------------

  /** toggleText once the call log has grown from `before` to `after`, where
      `text` was its value at `before` and `report` gives the text the
      application's callbacks leave after a given run of calls: unchanged
      when no callback ran, else what the callbacks leave after all the calls
      so far. */
  function TextAfterCalls(report: seq<CallbackCall> -> string, text: string,
                          before: seq<CallbackCall>, after: seq<CallbackCall>): string
  {
    if after == before then text else report(after)
  }

  /** toggleText after drawing buttons 1..upTo-1 one by one, each drawing
      leaving the text TextAfterCalls gives. */
  function TextDrawnUpTo(menus: map<TableId, MenuTable>, report: seq<CallbackCall> -> string,
                         s: MenuState, text: string, upTo: int): string
    requires ValidMenus(menus) && s.current in menus && 1 <= upTo <= ButtonCount(menus[s.current]) + 1
    decreases upTo
  {
    if upTo == 1 then text
    else TextAfterCalls(report, TextDrawnUpTo(menus, report, s, text, upTo - 1),
                        DrawnUpTo(menus, s, upTo - 1).calls, DrawnUpTo(menus, s, upTo).calls)
  }

  /** Drawing several buttons leaves the text the callbacks report after all
      the calls, or the old text when none of them is a toggle. */
  lemma {:induction false} TextDrawnUpToIsLastReport(menus: map<TableId, MenuTable>,
                                                     report: seq<CallbackCall> -> string,
                                                     s: MenuState, text: string, upTo: int)
    requires ValidMenus(menus) && s.current in menus && 1 <= upTo <= ButtonCount(menus[s.current]) + 1
    ensures TextDrawnUpTo(menus, report, s, text, upTo) ==
      TextAfterCalls(report, text, s.calls, DrawnUpTo(menus, s, upTo).calls)
  {
    if upTo > 1 {
      TextDrawnUpToIsLastReport(menus, report, s, text, upTo - 1);
      DrawnUpToQueriesToggles(menus, s, upTo - 1);
      DrawnUpToQueriesToggles(menus, s, upTo);
      var t := menus[s.current];
      assert ToggleQueries(t, upTo) == ToggleQueries(t, upTo - 1) + ToggleQuery(t[upTo - 1]);
    }
  }

  /** Selecting a table is showing its title bar and then drawing its
      buttons one by one; the text then is what the callbacks report after
      the last call, or the old text when the table has no toggle. */
  lemma SelectedDrawsEveryButton(menus: map<TableId, MenuTable>, report: seq<CallbackCall> -> string,
                                 s: MenuState, text: string, id: TableId)
    requires ValidMenus(menus) && id in menus
    ensures var shown := s.(current := id, titleButton := TitleButtonFor(menus[id][0]));
      var upTo := ButtonCount(menus[id]) + 1;
      Selected(menus, s, id) == DrawnUpTo(menus, shown, upTo) &&
      TextAfterCalls(report, text, s.calls, Selected(menus, s, id).calls) ==
        TextDrawnUpTo(menus, report, shown, text, upTo)
  {
    var shown := s.(current := id, titleButton := TitleButtonFor(menus[id][0]));
    var upTo := ButtonCount(menus[id]) + 1;
    DrawnUpToQueriesToggles(menus, shown, upTo);
    TextDrawnUpToIsLastReport(menus, report, shown, text, upTo);
  }

  /** After executing entry `menuIdx` of the current table. */
  function Executed(menus: map<TableId, MenuTable>, s: MenuState, menuIdx: int): (r: MenuState)
    requires ValidMenus(menus) && s.current in menus && 1 <= menuIdx <= ButtonCount(menus[s.current])
    // a sub-menu entry opens its table
    ensures menus[s.current][menuIdx].kind == SubMenu ==>
      r == Selected(menus, s, menus[s.current][menuIdx].link.value)
    // a command runs its callback, then the same table is shown again
    ensures menus[s.current][menuIdx].kind == Command ==>
      r == Selected(menus, s.(calls := s.calls + [CallbackCall(menus[s.current][menuIdx].action.fn, s.selectNextState)]),
                    s.current)
    // a toggle is told to advance, then asked for its new text
    ensures menus[s.current][menuIdx].kind == Toggle ==>
      var fn := menus[s.current][menuIdx].action.fn;
      r == s.(selectNextState := false, calls := s.calls + [CallbackCall(fn, true), CallbackCall(fn, false)])
    // any other kind of entry does nothing
    ensures menus[s.current][menuIdx].kind !in {SubMenu, Command, Toggle} ==> r == s
    ensures r.current in menus
  {
    var t := menus[s.current];
    var item := t[menuIdx];
    assert ValidEntry(menus, item);
    match item.kind
    case SubMenu => Selected(menus, s, item.link.value)
    case Command => Selected(menus, s.(calls := s.calls + [CallbackCall(item.action.fn, s.selectNextState)]), s.current)
    case Toggle =>
      Redrawn(menus, s.(selectNextState := true, calls := s.calls + [CallbackCall(item.action.fn, true)]), menuIdx)
    case _ => s
  }

  /** The result of one pass of the menu loop. */
  datatype Pass = Pass(state: MenuState, exit: bool)

  /** Whether the event is a click on the title bar's Back button. */
  predicate BackClicked(s: MenuState, backTextWidth: int, kind: EventKind, x: int, y: int) {
    s.titleButton == BackTitleButton && kind == Released && InRect(x, y, Covered(BackButtonBox(backTextWidth)))
  }

  /** The entry whose button lies under (x, y), or 0. */
  function EntryAt(menus: map<TableId, MenuTable>, ds: DisplaySpace, s: MenuState, x: int, y: int): (k: int)
    requires ValidMenus(menus) && s.current in menus
    ensures 0 <= k <= ButtonCount(menus[s.current])
  {
    var t := menus[s.current];
    ItemAt(ds, ColumnCount(t[0].action), ButtonCount(t), 1, x, y)
  }

  /** One pass of the menu loop for the event `kind` at (x, y). */
  function MenuPass(menus: map<TableId, MenuTable>, ds: DisplaySpace, backTextWidth: int,
                    s: MenuState, kind: EventKind, x: int, y: int): (p: Pass)
    requires ValidMenus(menus) && s.current in menus
    ensures p.state.current in menus
  {
    var header := menus[s.current][0];
    if kind == NoEvent then Pass(s, false)
    else if BackClicked(s, backTextWidth, kind, x, y) && header.kind == SubMenuHeader then
      Pass(Selected(menus, s, header.link.value), false)
    else if BackClicked(s, backTextWidth, kind, x, y) && header.kind == MainMenuHeader then
      Pass(s, header.link == None)
    else Pass(ButtonTouched(menus, ds, s, kind, x, y), false)
  }

  /** The event's effect on the menu's buttons: a press on a button redraws
      it highlighted, a release redraws it and executes its entry. */
  function ButtonTouched(menus: map<TableId, MenuTable>, ds: DisplaySpace, s: MenuState,
                         kind: EventKind, x: int, y: int): (r: MenuState)
    requires ValidMenus(menus) && s.current in menus
    ensures r.current in menus
  {
    var k := EntryAt(menus, ds, s, x, y);
    if k == 0 then s
    else if kind == Pushed then Redrawn(menus, s, k)
    else if kind == Released then Executed(menus, Redrawn(menus, s, k), k)
    else s
  }

  // ---------------------------------------------------------------------------
  // What navigation guarantees
  // ---------------------------------------------------------------------------

  /** The loop is left only by a click on Back in a main menu without a link. */
  lemma OnlyBackLeavesTheMenus(menus: map<TableId, MenuTable>, ds: DisplaySpace, backTextWidth: int,
                               s: MenuState, kind: EventKind, x: int, y: int)
    requires ValidMenus(menus) && s.current in menus
    ensures MenuPass(menus, ds, backTextWidth, s, kind, x, y).exit <==>
      BackClicked(s, backTextWidth, kind, x, y) &&
      menus[s.current][0].kind == MainMenuHeader && menus[s.current][0].link == None
  {
  }

  /** Back in a sub-menu shows its parent. */
  lemma BackOpensTheParent(menus: map<TableId, MenuTable>, ds: DisplaySpace, backTextWidth: int,
                           s: MenuState, x: int, y: int)
    requires ValidMenus(menus) && s.current in menus
    requires BackClicked(s, backTextWidth, Released, x, y)
    requires menus[s.current][0].kind == SubMenuHeader
    ensures MenuPass(menus, ds, backTextWidth, s, Released, x, y).state.current == menus[s.current][0].link.value
  {
    assert ValidTable(menus, menus[s.current]);
  }

  /** The title bar always shows the button the current table calls for:
      selecting a table draws it, and nothing else changes either. */
  lemma MenuPassKeepsTheTitleBar(menus: map<TableId, MenuTable>, ds: DisplaySpace, backTextWidth: int,
                                 s: MenuState, kind: EventKind, x: int, y: int)
    requires ValidMenus(menus) && s.current in menus && TitleBarMatches(menus, s)
    ensures TitleBarMatches(menus, MenuPass(menus, ds, backTextWidth, s, kind, x, y).state)
  {
    var header := menus[s.current][0];
    if kind != NoEvent && !(BackClicked(s, backTextWidth, kind, x, y) && IsHeader(header.kind)) {
      var k := EntryAt(menus, ds, s, x, y);
      if k != 0 && kind == Released {
        var s1 := Redrawn(menus, s, k);
        assert TitleBarMatches(menus, s1);
        assert TitleBarMatches(menus, Executed(menus, s1, k));
      }
    }
  }

  /** While the title bar matches the table, a click on Back is never
      ignored: a main menu with a link has no Back button to click. */
  lemma BackIsNeverIgnored(menus: map<TableId, MenuTable>, s: MenuState, backTextWidth: int,
                           kind: EventKind, x: int, y: int)
    requires ValidMenus(menus) && s.current in menus && TitleBarMatches(menus, s)
    requires BackClicked(s, backTextWidth, kind, x, y)
    ensures BackResponseOf(menus[s.current][0]) != IgnoreBack
  {
    assert ValidTable(menus, menus[s.current]);
  }

  /** Only a release can change the current table or tell a toggle to
      advance: a press or a repeat at most asks a toggle for its text. */
  lemma OnlyReleaseActs(menus: map<TableId, MenuTable>, ds: DisplaySpace, backTextWidth: int,
                        s: MenuState, kind: EventKind, x: int, y: int)
    requires ValidMenus(menus) && s.current in menus && kind != Released
    ensures var p := MenuPass(menus, ds, backTextWidth, s, kind, x, y);
      !p.exit && p.state.current == s.current && p.state.titleButton == s.titleButton &&
      |s.calls| <= |p.state.calls| && p.state.calls[..|s.calls|] == s.calls &&
      forall i :: |s.calls| <= i < |p.state.calls| ==> !p.state.calls[i].selectNextState
  {
    var p := MenuPass(menus, ds, backTextWidth, s, kind, x, y);
    if kind == Pushed {
      var k := EntryAt(menus, ds, s, x, y);
      if k != 0 {
        var added := ToggleQuery(menus[s.current][k]);
        assert p.state.calls == s.calls + added;
        assert forall i :: |s.calls| <= i < |p.state.calls| ==> p.state.calls[i] == added[i - |s.calls|];
      }
    }
  }
}
