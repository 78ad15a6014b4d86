/** Shared vocabulary of the touch user interface: the integer codes of touch
    events and menu items, the records an application declares (menu items,
    buttons), rectangles with inclusive pixel bounds, and C's integer division. */
module UiTypes {

  datatype Option<+T> = None | Some(value: T)

  // ---------------------------------------------------------------------------
  // C arithmetic
  // ---------------------------------------------------------------------------

  /** C's `/` on `int`: the quotient is truncated toward zero, while Dafny's
      `/` is Euclidean; the two differ only for a negative dividend. Every
      division in the interface has a positive divisor. */
  function Div(a: int, b: int): (q: int)
    requires b > 0
    ensures a >= 0 ==> q == a / b && q >= 0
    ensures a < 0 ==> q <= 0
    // truncation toward zero: the quotient times b is the multiple of b
    // next to a on the side of zero
    ensures a < 0 ==> a <= q * b < a + b
  {
    if a >= 0 then DivOfNatIsNat(a, b); a / b
    else DivOfNatIsNat(-a, b); -((-a) / b)
  }

  lemma DivOfNatIsNat(n: int, b: int)
    requires n >= 0 && b > 0
    ensures n / b >= 0
  {
  }

  // ---------------------------------------------------------------------------
  // Touch events
  // ---------------------------------------------------------------------------

  /** The four kinds of touch event; the event of a poll with nothing to report
      is NoEvent. */
  datatype EventKind = NoEvent | Pushed | Released | Repeat

  /** The integer code the interface publishes in `touchEventType`. */
  function EventCode(k: EventKind): (c: int)
    ensures 0 <= c < 4
    ensures c == 0 <==> k == NoEvent
    ensures EventKindOfCode(c) == Some(k)
  {
    match k
    case NoEvent => 0
    case Pushed => 1
    case Released => 2
    case Repeat => 3
  }

  function EventKindOfCode(c: int): Option<EventKind>
  {
    if c == 0 then Some(NoEvent)
    else if c == 1 then Some(Pushed)
    else if c == 2 then Some(Released)
    else if c == 3 then Some(Repeat)
    else None
  }

  // ---------------------------------------------------------------------------
  // Menu tables
  // ---------------------------------------------------------------------------

  /** The six kinds of entry in a menu table. */
  datatype MenuItemKind =
    | MainMenuHeader | SubMenuHeader | SubMenu | Command | Toggle | EndOfMenu

  function MenuItemCode(k: MenuItemKind): (c: int)
    ensures 0 <= c < 6
    ensures c <= 1 <==> IsHeader(k)
    ensures c == 5 <==> k == EndOfMenu
    ensures MenuItemKindOfCode(c) == Some(k)
  {
    match k
    case MainMenuHeader => 0
    case SubMenuHeader => 1
    case SubMenu => 2
    case Command => 3
    case Toggle => 4
    case EndOfMenu => 5
  }

  function MenuItemKindOfCode(c: int): Option<MenuItemKind>
  {
    if c == 0 then Some(MainMenuHeader)
    else if c == 1 then Some(SubMenuHeader)
    else if c == 2 then Some(SubMenu)
    else if c == 3 then Some(Command)
    else if c == 4 then Some(Toggle)
    else if c == 5 then Some(EndOfMenu)
    else None
  }

  predicate IsHeader(k: MenuItemKind) {
    k == MainMenuHeader || k == SubMenuHeader
  }

  /** Identifies one of the application's menu tables. */
  type TableId = nat

  /** Identifies one of the application's callback functions. */
  type CallbackId = nat

  /** What a menu entry carries in its function field. A header carries its
      column count there (the MENU_COLUMNS_n constants are the integers 1..4
      cast to the function field's type); command and toggle entries carry a callback. */
  datatype ItemFunction = NoFunction | Columns(count: int) | Callback(fn: CallbackId)

  /** One entry of a menu table: its kind, its text, its function field and its
      link. For a sub-menu entry the link is the table it opens; for a header it
      is the Back target (None stands for NULL). */
  datatype MenuItem = MenuItem(kind: MenuItemKind, text: string, action: ItemFunction, link: Option<TableId>)

  // ---------------------------------------------------------------------------
  // Rectangles and buttons
  // ---------------------------------------------------------------------------

  /** A rectangle given by its inclusive corner coordinates (X1, Y1)-(X2, Y2). */
  datatype Rect = Rect(x1: int, y1: int, x2: int, y2: int)

  predicate InRect(x: int, y: int, r: Rect) {
    r.x1 <= x <= r.x2 && r.y1 <= y <= r.y2
  }

  /** The rectangle covered by a box whose upper-left corner is (x, y). */
  function BoxRect(x: int, y: int, width: int, height: int): (r: Rect)
    ensures forall px, py :: InRect(px, py, r) <==> x <= px < x + width && y <= py < y + height
  {
    Rect(x, y, x + width - 1, y + height - 1)
  }

  /** A push button declared by the application: its label, centre and size. */
  datatype Button = Button(labelText: string, centerX: int, centerY: int, width: int, height: int)

  /** What a widget check asks the display to redraw. */
  datatype Redraw = NoRedraw | DrawHighlighted | DrawNormal
}
