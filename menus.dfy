/** Menu tables: a header entry, the entries shown as buttons, and an
    end-of-menu marker. This module holds what can be said about a table
    without the interface's state: how many buttons it has, whether its title
    bar shows a Back button and what Back does, the label of a toggle entry,
    and the callback queries drawing a menu makes. */
module Menus {
  import opened UiTypes

  /** A table as the application declares it; the entries after the first
      end-of-menu marker are never looked at. */
  type MenuTable = seq<MenuItem>

  /** A table whose scan from entry 1 stops: it ends with an end-of-menu
      marker. */
  predicate Terminated(t: MenuTable) {
    |t| >= 2 && t[|t| - 1].kind == EndOfMenu
  }

  /** The number of entries from `from` up to the first end-of-menu marker. */
  function EntriesFrom(t: MenuTable, from: int): (k: nat)
    requires Terminated(t) && 1 <= from < |t|
    decreases |t| - from
    ensures from + k < |t| && t[from + k].kind == EndOfMenu
    ensures forall i :: from <= i < from + k ==> t[i].kind != EndOfMenu
  {
    if t[from].kind == EndOfMenu then 0 else 1 + EntriesFrom(t, from + 1)
  }

  /** The number of buttons of a menu: entries 1..n, where n + 1 is the first
      end-of-menu marker. */
  function ButtonCount(t: MenuTable): (n: nat)
    requires Terminated(t)
    ensures n + 1 < |t| && t[n + 1].kind == EndOfMenu
    ensures forall i :: 1 <= i <= n ==> t[i].kind != EndOfMenu
  {
    EntriesFrom(t, 1)
  }

  /** The button count is the only count with those two properties. */
  lemma ButtonCountIsUnique(t: MenuTable, n: int)
    requires Terminated(t) && 0 <= n && n + 1 < |t| && t[n + 1].kind == EndOfMenu
    requires forall i :: 1 <= i <= n ==> t[i].kind != EndOfMenu
    ensures n == ButtonCount(t)
  {
  }

  /** What the interface needs of every table it may show: it terminates; a
      sub-menu header links to its parent; a sub-menu entry links to its
      table; command and toggle entries carry a callback. */
  predicate ValidTable(menus: map<TableId, MenuTable>, t: MenuTable) {
    Terminated(t) &&
    (t[0].kind == SubMenuHeader ==> t[0].link.Some? && t[0].link.value in menus) &&
    forall i :: 1 <= i <= ButtonCount(t) ==> ValidEntry(menus, t[i])
  }

  predicate ValidEntry(menus: map<TableId, MenuTable>, item: MenuItem) {
    (item.kind == SubMenu ==> item.link.Some? && item.link.value in menus) &&
    (item.kind == Command || item.kind == Toggle ==> item.action.Callback?)
  }

  predicate ValidMenus(menus: map<TableId, MenuTable>) {
    forall id :: id in menus ==> ValidTable(menus, menus[id])
  }

  // ---------------------------------------------------------------------------
  // The title bar's Back button
  // ---------------------------------------------------------------------------

  /** The title bar of a menu shows a Back button unless the menu is a main
      menu whose link is set (a main menu that links back to itself). */
  function ShowsBackButton(header: MenuItem): (shown: bool)
    ensures !shown <==> header.kind == MainMenuHeader && header.link.Some?
  {
    !(header.kind == MainMenuHeader && header.link.Some?)
  }

  /** What a click on Back does, by the current menu's header. */
  datatype BackResponse =
    | OpenParent(parent: TableId)   // a sub-menu: show its parent
    | LeaveMenus                    // a main menu without a link: leave the menus
    | IgnoreBack                    // a main menu with a link: nothing
    | NotAHeader                    // the table does not start with a header

  function BackResponseOf(header: MenuItem): (r: BackResponse)
    requires header.kind == SubMenuHeader ==> header.link.Some?
    ensures r.OpenParent? <==> header.kind == SubMenuHeader
    ensures r.OpenParent? ==> Some(r.parent) == header.link
    ensures r == LeaveMenus <==> header.kind == MainMenuHeader && header.link == None
    ensures r == NotAHeader <==> !IsHeader(header.kind)
  {
    match header.kind
    case SubMenuHeader => OpenParent(header.link.value)
    case MainMenuHeader => if header.link == None then LeaveMenus else IgnoreBack
    case _ => NotAHeader
  }

  /** For a menu with a header, a Back button is shown exactly when clicking
      it would do something. */
  lemma BackShownExactlyWhenItActs(header: MenuItem)
    requires IsHeader(header.kind)
    requires header.kind == SubMenuHeader ==> header.link.Some?
    ensures ShowsBackButton(header) <==> BackResponseOf(header) != IgnoreBack
  {
  }

  // ---------------------------------------------------------------------------
  // Labels
  // ---------------------------------------------------------------------------

  /** The label of a toggle button: the entry's text, a colon and two spaces,
      then the text the toggle's callback reports. */
  function ToggleLabel(text: string, toggleText: string): (s: string)
    ensures |s| == |text| + 3 + |toggleText|
    ensures s[..|text|] == text
    ensures s[|text|..|text| + 3] == ":  "
    ensures s[|text| + 3..] == toggleText
  {
    text + ":  " + toggleText
  }

  /** Two toggle labels of the same entry differ exactly when the toggle
      texts differ. */
  lemma ToggleLabelShowsTheState(text: string, a: string, b: string)
    ensures ToggleLabel(text, a) == ToggleLabel(text, b) <==> a == b
  {
    if ToggleLabel(text, a) == ToggleLabel(text, b) {
      assert a == ToggleLabel(text, a)[|text| + 3..];
    }
  }

  // ---------------------------------------------------------------------------
  // Callback queries
  // ---------------------------------------------------------------------------

  /** One call of an application callback, with the value of
      toggleSelectNextStateFlg at the time: true asks a toggle to advance
      to its next state, false only to report its text. */
  datatype CallbackCall = CallbackCall(fn: CallbackId, selectNextState: bool)

  /** The callback calls made while drawing buttons 1..upTo-1 of a table:
      each toggle entry is asked for its text, without advancing. */
  function ToggleQueries(t: MenuTable, upTo: int): (calls: seq<CallbackCall>)
    requires 1 <= upTo <= |t|
    decreases upTo
    ensures |calls| <= upTo - 1
  {
    if upTo == 1 then []
    else ToggleQueries(t, upTo - 1) + ToggleQuery(t[upTo - 1])
  }

  /** Drawing only asks for text, and only the callbacks of the toggle
      entries drawn. */
  lemma {:induction false} QueriesGoToToggles(t: MenuTable, upTo: int)
    requires 1 <= upTo <= |t|
    ensures forall c :: c in ToggleQueries(t, upTo) ==> !c.selectNextState
    ensures forall c :: c in ToggleQueries(t, upTo) ==>
      exists i :: 1 <= i < upTo && t[i].kind == Toggle && t[i].action == Callback(c.fn)
  {
    if upTo > 1 {
      QueriesGoToToggles(t, upTo - 1);
    }
  }

  /** The call drawing one entry makes: a toggle's callback is queried. */
  function ToggleQuery(item: MenuItem): seq<CallbackCall>
  {
    if item.kind == Toggle && item.action.Callback? then [CallbackCall(item.action.fn, false)] else []
  }

  /** A table without toggle entries is drawn without calling back. */
  lemma {:induction false} NoTogglesNoQueries(t: MenuTable, upTo: int)
    requires 1 <= upTo <= |t|
    requires forall i :: 1 <= i < upTo ==> t[i].kind != Toggle
    ensures ToggleQueries(t, upTo) == []
  {
    if upTo > 1 {
      NoTogglesNoQueries(t, upTo - 1);
    }
  }

  /** The number of toggle entries among entries 1..upTo-1. */
  function ToggleCount(t: MenuTable, upTo: int): (n: nat)
    requires 1 <= upTo <= |t|
    decreases upTo
    ensures n <= upTo - 1
  {
    if upTo == 1 then 0
    else ToggleCount(t, upTo - 1) + (if t[upTo - 1].kind == Toggle then 1 else 0)
  }

  /** Drawing buttons 1..upTo-1 queries every toggle among them exactly once,
      in table order: the query of toggle i is the ToggleCount(t, i)-th call,
      and there are no other calls. */
  lemma {:induction false} EveryToggleIsQueried(t: MenuTable, upTo: int)
    requires 1 <= upTo <= |t|
    requires forall i :: 1 <= i < upTo && t[i].kind == Toggle ==> t[i].action.Callback?
    ensures |ToggleQueries(t, upTo)| == ToggleCount(t, upTo)
    ensures forall i :: 1 <= i < upTo && t[i].kind == Toggle ==>
      ToggleCount(t, i) < |ToggleQueries(t, upTo)| &&
      ToggleQueries(t, upTo)[ToggleCount(t, i)] == CallbackCall(t[i].action.fn, false)
  {
    if upTo > 1 {
      EveryToggleIsQueried(t, upTo - 1);
      var before := ToggleQueries(t, upTo - 1);
      assert ToggleQueries(t, upTo) == before + ToggleQuery(t[upTo - 1]);
      forall i | 1 <= i < upTo && t[i].kind == Toggle
        ensures ToggleCount(t, i) < |ToggleQueries(t, upTo)|
        ensures ToggleQueries(t, upTo)[ToggleCount(t, i)] == CallbackCall(t[i].action.fn, false)
      {
        if i < upTo - 1 {
          assert ToggleQueries(t, upTo)[ToggleCount(t, i)] == before[ToggleCount(t, i)];
        }
      }
    }
  }
}
