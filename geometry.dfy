/** Pixel geometry of the interface: the display space below the title bar,
    the title-bar Back and Menu buttons and the title text, the hit rectangle
    of a push button, the three zones of a number box and the cells of a
    selection box. All coordinates are integers; C's `/` is `Div`. */
module Geometry {
  import opened UiTypes

  const TitleBarHeight := 34
  const ArrowWidth := 8

  /** A box given by its upper-left corner and its size. */
  datatype Box = Box(x: int, y: int, width: int, height: int)

  /** The pixels a box covers, as an inclusive rectangle. */
  function Covered(b: Box): Rect
  {
    BoxRect(b.x, b.y, b.width, b.height)
  }

  // ---------------------------------------------------------------------------
  // Display space
  // ---------------------------------------------------------------------------

  datatype DisplaySpace = DisplaySpace(
    width: int, height: int,
    leftX: int, rightX: int, topY: int, bottomY: int,
    centerX: int, centerY: int)

  /** The area below the title bar, inside a one-pixel frame on the left,
      right and bottom edges of the screen. */
  function DisplaySpaceOf(lcdWidth: int, lcdHeight: int): (d: DisplaySpace)
    ensures d.leftX == 1 && d.rightX == lcdWidth - 2
    ensures d.topY == TitleBarHeight && d.bottomY == lcdHeight - 2
    ensures d.rightX - d.leftX + 1 == d.width && d.bottomY - d.topY + 1 == d.height
    ensures d.width >= 0 ==> d.leftX <= d.centerX <= d.leftX + d.width / 2
    ensures d.height >= 0 ==> d.topY <= d.centerY <= d.topY + d.height / 2
  {
    var width := lcdWidth - 2;
    var height := lcdHeight - TitleBarHeight - 1;
    var leftX := 1;
    var topY := TitleBarHeight;
    DisplaySpace(width, height, leftX, leftX + width - 1, topY, topY + height - 1,
                 leftX + Div(width, 2), topY + Div(height, 2))
  }

  // ---------------------------------------------------------------------------
  // Title bar
  // ---------------------------------------------------------------------------

  /** Which button the title bar shows. */
  datatype TitleBarButton = NoTitleButton | BackTitleButton | MenuTitleButton

  function TitleBarButtonCode(b: TitleBarButton): (c: int)
    ensures 0 <= c < 3
    ensures c == 0 <==> b == NoTitleButton
    ensures c == 1 <==> b == BackTitleButton
  {
    match b
    case NoTitleButton => 0
    case BackTitleButton => 1
    case MenuTitleButton => 2
  }

  /** The Back button: a rounded box at the left of the title bar, vertically
      centred in it, as wide as the measured width of the text "Back" plus a
      fixed allowance for the arrow and the rounded ends. */
  function BackButtonBox(backTextWidth: int): (b: Box)
    ensures b.x == 4 && b.height == TitleBarHeight - 6
    ensures 0 < b.y && b.y + b.height < TitleBarHeight
    ensures b.y == TitleBarHeight - (b.y + b.height)
    ensures b.width == backTextWidth + 41
  {
    var height := TitleBarHeight - 6;
    var radius := Div(height, 2);
    Box(4, Div(TitleBarHeight - height, 2), radius + ArrowWidth * 2 + backTextWidth + radius - 3, height)
  }

  /** The Menu (hamburger) button: same height and place as the Back button,
      width 1.8 times its height. */
  function MenuButtonBox(): (b: Box)
    ensures b.x == 4 && b.height == TitleBarHeight - 6
    ensures 0 < b.y && b.y + b.height < TitleBarHeight
    ensures b.y == TitleBarHeight - (b.y + b.height)
    ensures b.width * 10 <= b.height * 18 < b.width * 10 + 10
  {
    var height := TitleBarHeight - 6;
    Box(4, Div(TitleBarHeight - height, 2), Div(height * 18, 10), height)
  }

  /** Where the title text starts: centred on the screen, but never left of
      x = 2 and never closer than 6 pixels to the right edge of the button the
      title bar shows. */
  function TitleTextX(lcdWidth: int, titleTextWidth: int, button: TitleBarButton, backTextWidth: int): (x: int)
    ensures x >= 2
    ensures button == BackTitleButton ==> x >= BackButtonBox(backTextWidth).x + BackButtonBox(backTextWidth).width + 6
    ensures button == MenuTitleButton ==> x >= MenuButtonBox().x + MenuButtonBox().width + 6
    ensures x >= Div(lcdWidth, 2) - Div(titleTextWidth, 2)
    ensures x == Div(lcdWidth, 2) - Div(titleTextWidth, 2) || x == 2 ||
            (button == BackTitleButton && x == BackButtonBox(backTextWidth).x + BackButtonBox(backTextWidth).width + 6) ||
            (button == MenuTitleButton && x == MenuButtonBox().x + MenuButtonBox().width + 6)
  {
    var centred := Div(lcdWidth, 2) - Div(titleTextWidth, 2);
    var x1 := if centred < 2 then 2 else centred;
    var back := BackButtonBox(backTextWidth);
    var x2 := if button == BackTitleButton && x1 < back.x + back.width + 6 then back.x + back.width + 6 else x1;
    var menu := MenuButtonBox();
    if button == MenuTitleButton && x2 < menu.x + menu.width + 6 then menu.x + menu.width + 6 else x2
  }

  // ---------------------------------------------------------------------------
  // Push buttons
  // ---------------------------------------------------------------------------

  /** The rectangle in which a push button reacts to touches: centred on the
      button's centre, not clamped to the screen. */
  function ButtonHitRect(b: Button): (r: Rect)
    ensures b.width >= 0 ==> r.x2 - r.x1 + 1 == b.width
    ensures b.height >= 0 ==> r.y2 - r.y1 + 1 == b.height
    ensures b.width >= 1 && b.height >= 1 ==> InRect(b.centerX, b.centerY, r)
  {
    var x1 := b.centerX - Div(b.width, 2);
    var y1 := b.centerY - Div(b.height, 2);
    Rect(x1, y1, x1 + b.width - 1, y1 + b.height - 1)
  }

  /** The upper-left corner at which a push button is drawn: the same corner,
      clamped to the screen's top-left. */
  function ButtonDrawnBox(b: Button): (d: Box)
    ensures d.x >= 0 && d.y >= 0
    ensures d.x == ButtonHitRect(b).x1 || (d.x == 0 && ButtonHitRect(b).x1 < 0)
    ensures d.y == ButtonHitRect(b).y1 || (d.y == 0 && ButtonHitRect(b).y1 < 0)
  {
    var x := b.centerX - Div(b.width, 2);
    var y := b.centerY - Div(b.height, 2);
    Box(if x < 0 then 0 else x, if y < 0 then 0 else y, b.width, b.height)
  }

  /** A button that sticks out over the left edge is drawn shifted onto the
      screen but takes touches where it was declared, so the right-most column
      of the drawn button does not react. */
  lemma ClampedButtonMissesItsDrawnEdge(b: Button)
    requires b.width >= 1 && b.height >= 1 && ButtonHitRect(b).x1 < 0
    ensures var d := ButtonDrawnBox(b);
      InRect(d.x + d.width - 1, d.y, Covered(d)) && !InRect(d.x + d.width - 1, d.y, ButtonHitRect(b))
  {
  }

  // ---------------------------------------------------------------------------
  // Number box
  // ---------------------------------------------------------------------------

  /** The three zones of an integer number box, left to right: the Up
      stepper at upButtonX, the number field at numberX and the Down stepper
      at downButtonX. */
  datatype NumberBoxCoords = NumberBoxCoords(
    downButtonX: int, numberX: int, upButtonX: int, topY: int,
    buttonWidth: int, numberWidth: int, height: int)

  function NumberBoxCoordinates(centerX: int, centerY: int, width: int, height: int): (c: NumberBoxCoords)
    // both steppers and the number field are at least 30 pixels wide
    ensures c.buttonWidth >= 30 && c.numberWidth >= 30
    // a stepper is 1.6 times the height, but at most 40% of the width
    ensures c.buttonWidth == 30 || (c.buttonWidth <= Div(height * 16, 10) && c.buttonWidth <= Div(width * 4, 10))
    ensures c.buttonWidth == 30 || c.buttonWidth == Div(height * 16, 10) || c.buttonWidth == Div(width * 4, 10)
    // the zones are contiguous, Up on the left and Down on the right
    ensures c.upButtonX == centerX - Div(width, 2)
    ensures c.numberX == c.upButtonX + c.buttonWidth
    ensures c.downButtonX == c.numberX + c.numberWidth
    ensures c.upButtonX < c.numberX < c.downButtonX
    // when they fit, the three zones span exactly the declared width
    ensures width - 2 * c.buttonWidth >= 30 ==> c.downButtonX + c.buttonWidth == c.upButtonX + width
    ensures c.topY == centerY - Div(height, 2) && c.height == height
  {
    var b0 := Div(height * 16, 10);
    var b1 := if b0 > Div(width * 4, 10) then Div(width * 4, 10) else b0;
    var buttonWidth := if b1 < 30 then 30 else b1;
    var n0 := width - 2 * buttonWidth;
    var numberWidth := if n0 < 30 then 30 else n0;
    var upButtonX := centerX - Div(width, 2);
    var numberX := upButtonX + buttonWidth;
    NumberBoxCoords(numberX + numberWidth, numberX, upButtonX, centerY - Div(height, 2),
                    buttonWidth, numberWidth, height)
  }

  /** The rectangles the number box's Down and Up steppers react in. */
  function DownZone(c: NumberBoxCoords): Rect
  {
    BoxRect(c.downButtonX, c.topY, c.buttonWidth, c.height)
  }

  function UpZone(c: NumberBoxCoords): Rect
  {
    BoxRect(c.upButtonX, c.topY, c.buttonWidth, c.height)
  }

  /** No point is in both steppers: the number field lies between them. */
  lemma SteppersAreApart(centerX: int, centerY: int, width: int, height: int, x: int, y: int)
    ensures var c := NumberBoxCoordinates(centerX, centerY, width, height);
      !(InRect(x, y, DownZone(c)) && InRect(x, y, UpZone(c)))
    ensures var c := NumberBoxCoordinates(centerX, centerY, width, height);
      InRect(x, y, UpZone(c)) ==> x < c.numberX
    ensures var c := NumberBoxCoordinates(centerX, centerY, width, height);
      InRect(x, y, DownZone(c)) ==> x >= c.numberX + 30
  {
  }

  // ---------------------------------------------------------------------------
  // Selection box
  // ---------------------------------------------------------------------------

  /** Cell `cell` of a selection box with `count` cells: the cells share the
      declared height less 3, are (width - 3) / count wide, and sit side by
      side in a block centred on the box's centre. */
  function SelectionCellBox(centerX: int, centerY: int, width: int, height: int, count: int, cell: int): (b: Box)
    requires 1 <= count <= 4
    ensures b.width == Div(width - 3, count) && b.height == height - 3
    ensures b.y == centerY - Div(height - 3, 2)
    ensures b.x == SelectionBlockLeft(centerX, width, count) + cell * b.width
  {
    var cellWidth := Div(width - 3, count);
    var overallWidth := cellWidth * count;
    Box((centerX - Div(overallWidth, 2)) + cell * cellWidth, centerY - Div(height - 3, 2), cellWidth, height - 3)
  }

  /** The left edge of the block of cells. */
  function SelectionBlockLeft(centerX: int, width: int, count: int): int
    requires 1 <= count <= 4
  {
    centerX - Div(Div(width - 3, count) * count, 2)
  }

  /** Neighbouring cells touch: each starts where the previous one ends. */
  lemma SelectionCellsAreAdjacent(centerX: int, centerY: int, width: int, height: int, count: int, cell: int)
    requires 1 <= count <= 4
    ensures var a := SelectionCellBox(centerX, centerY, width, height, count, cell);
      var b := SelectionCellBox(centerX, centerY, width, height, count, cell + 1);
      b.x == a.x + a.width && b.y == a.y && b.width == a.width && b.height == a.height
  {
    var w := Div(width - 3, count);
    assert (cell + 1) * w == cell * w + w;
  }

  /** Distinct cells share no pixel. */
  lemma SelectionCellsAreDisjoint(centerX: int, centerY: int, width: int, height: int, count: int,
                                  i: int, j: int, x: int, y: int)
    requires 1 <= count <= 4 && i < j
    ensures !(InRect(x, y, Covered(SelectionCellBox(centerX, centerY, width, height, count, i))) &&
              InRect(x, y, Covered(SelectionCellBox(centerX, centerY, width, height, count, j))))
  {
    var w := Div(width - 3, count);
    if w > 0 {
      MulStrictlyMonotone(w, i, j);
    }
  }

  /** The cells together are no wider than the box's interior. */
  lemma SelectionBlockFits(width: int, count: int)
    requires 1 <= count <= 4 && width >= 3
    ensures 0 <= Div(width - 3, count) * count <= width - 3
  {
    var w := (width - 3) / count;
    assert width - 3 == w * count + (width - 3) % count;
  }

  lemma MulStrictlyMonotone(w: int, i: int, j: int)
    requires w > 0 && i < j
    ensures i * w + w <= j * w
  {
    var d := j - i - 1;
    assert d * w >= 0;
    assert j * w == (i + 1 + d) * w == i * w + w + d * w;
  }
}
