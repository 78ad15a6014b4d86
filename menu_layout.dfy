/** The grid in which a menu's buttons are laid out in the display space:
    rows of equally sized buttons, 10 pixels apart, with a short last row
    centred on its own button count; and the search for the button under a
    touch. Item indices run from 1 (the entry after the header) to the
    button count. */
module MenuLayout {
  import opened UiTypes
  import opened Geometry

  const ButtonPadding := 10

  /** The column count a header's function field asks for: MENU_COLUMNS_1..4
      carry 1..4; anything else lays the menu out in one column. */
  function ColumnCount(f: ItemFunction): (c: int)
    ensures 1 <= c <= 4
    ensures f.Columns? && 1 <= f.count <= 4 ==> c == f.count
    ensures !(f.Columns? && 1 <= f.count <= 4) ==> c == 1
  {
    if f.Columns? && 1 <= f.count <= 4 then f.count else 1
  }

  /** The button size and the vertical padding shared by all buttons of a
      menu with `buttonCount` buttons in `columns` columns. */
  datatype Grid = Grid(columns: int, rows: int, buttonWidth: int, buttonHeight: int, topPadding: int)

  function GridOf(ds: DisplaySpace, columns: int, buttonCount: int): (g: Grid)
    requires 1 <= columns <= 4 && buttonCount >= 1
    ensures g.columns == columns && g.rows == RowCount(columns, buttonCount)
  {
    var rows := RowCount(columns, buttonCount);
    var width := Div(ds.width - 20 - ButtonPadding * (columns - 1), columns);
    var height := Div(ds.height - 20 - ButtonPadding * (rows - 1), rows);
    Grid(columns, rows, width, height, Div(ds.height - height * rows - ButtonPadding * (rows - 1), 2))
  }

  /** When the display space is wide (tall) enough, the buttons and the
      padding between and around them fit in it. */
  lemma GridFits(ds: DisplaySpace, columns: int, buttonCount: int)
    requires 1 <= columns <= 4 && buttonCount >= 1
    ensures var g := GridOf(ds, columns, buttonCount);
      ds.width >= 20 + ButtonPadding * (columns - 1) ==>
        g.buttonWidth >= 0 && columns * g.buttonWidth + ButtonPadding * (columns - 1) + 20 <= ds.width
    ensures var g := GridOf(ds, columns, buttonCount);
      ds.height >= 20 + ButtonPadding * (g.rows - 1) ==>
        g.buttonHeight >= 0 && g.rows * g.buttonHeight + ButtonPadding * (g.rows - 1) + 20 <= ds.height
  {
    var rows := RowCount(columns, buttonCount);
    QuotientFits(ds.width - 20 - ButtonPadding * (columns - 1), columns);
    QuotientFits(ds.height - 20 - ButtonPadding * (rows - 1), rows);
  }

  function RowCount(columns: int, buttonCount: int): (rows: int)
    requires 1 <= columns <= 4 && buttonCount >= 1
    ensures rows >= 1 && (rows - 1) * columns < buttonCount <= rows * columns
  {
    var a := buttonCount + columns - 1;
    var q := a / columns;
    assert a == q * columns + a % columns;
    assert (q - 1) * columns == q * columns - columns;
    q
  }

  /** The row and column of item `menuIdx`, counting from 0. */
  function ItemRow(columns: int, menuIdx: int): int
    requires 1 <= columns <= 4 && menuIdx >= 1
  {
    Div(menuIdx - 1, columns)
  }

  function ItemColumn(columns: int, menuIdx: int): int
    requires 1 <= columns <= 4 && menuIdx >= 1
  {
    (menuIdx - 1) - ItemRow(columns, menuIdx) * columns
  }

  /** How many buttons the row holds: a full row, except that the last row
      holds the remainder when the buttons do not divide evenly. */
  function ButtonsOnRow(columns: int, buttonCount: int, row: int): int
    requires 1 <= columns <= 4 && buttonCount >= 1
  {
    if row != RowCount(columns, buttonCount) - 1 || buttonCount % columns == 0 then columns
    else buttonCount % columns
  }

  /** How far the button `index` places along a row (column) is from the
      first: one button size plus the padding per place. */
  function Pitch(size: int, index: int): int
  {
    (size + ButtonPadding) * index
  }

  /** The box of the menu button for item `menuIdx`. */
  function ItemBox(ds: DisplaySpace, columns: int, buttonCount: int, menuIdx: int): (b: Box)
    requires 1 <= columns <= 4 && 1 <= menuIdx <= buttonCount
    ensures b.width == GridOf(ds, columns, buttonCount).buttonWidth
    ensures b.height == GridOf(ds, columns, buttonCount).buttonHeight
  {
    var g := GridOf(ds, columns, buttonCount);
    var row := ItemRow(columns, menuIdx);
    var col := ItemColumn(columns, menuIdx);
    var onRow := ButtonsOnRow(columns, buttonCount, row);
    var leftMostX := ds.leftX + Div(ds.width - g.buttonWidth * onRow - ButtonPadding * (onRow - 1), 2);
    Box(leftMostX + Pitch(g.buttonWidth, col),
        ds.topY + g.topPadding + Pitch(g.buttonHeight, row),
        g.buttonWidth, g.buttonHeight)
  }

  /** The layout arithmetic of getMenuButtonSizeAndLocation, step by step:
      the grid, then the row and column of the item, then its box. */
  method LocateMenuButton(ds: DisplaySpace, columnsOfButtons: int, buttonCount: int, menuIdx: int) returns (box: Box)
    requires 1 <= columnsOfButtons <= 4 && 1 <= menuIdx <= buttonCount
    ensures box == ItemBox(ds, columnsOfButtons, buttonCount, menuIdx)
  {
    var menuButtonNumber := menuIdx - 1;
    var rowsOfButtons := (buttonCount + columnsOfButtons - 1) / columnsOfButtons;
    ghost var g := GridOf(ds, columnsOfButtons, buttonCount);
    assert rowsOfButtons == g.rows;
    var buttonWidth := Div(ds.width - ButtonPadding * 2 - ButtonPadding * (columnsOfButtons - 1), columnsOfButtons);
    var buttonHeight := Div(ds.height - ButtonPadding * 2 - ButtonPadding * (rowsOfButtons - 1), rowsOfButtons);
    var topPadding := Div(ds.height - buttonHeight * rowsOfButtons - ButtonPadding * (rowsOfButtons - 1), 2);
    assert buttonWidth == g.buttonWidth && buttonHeight == g.buttonHeight && topPadding == g.topPadding;
    var buttonRow := Div(menuButtonNumber, columnsOfButtons);
    var buttonColumn := menuButtonNumber - buttonRow * columnsOfButtons;
    assert buttonRow == ItemRow(columnsOfButtons, menuIdx) && buttonColumn == ItemColumn(columnsOfButtons, menuIdx);
    var buttonCountOnThisRow;
    if buttonRow != rowsOfButtons - 1 || buttonCount % columnsOfButtons == 0 {
      buttonCountOnThisRow := columnsOfButtons;
    } else {
      buttonCountOnThisRow := buttonCount % columnsOfButtons;
    }
    var leftMostButtonX := ds.leftX +
      Div(ds.width - buttonWidth * buttonCountOnThisRow - ButtonPadding * (buttonCountOnThisRow - 1), 2);
    assert buttonCountOnThisRow == ButtonsOnRow(columnsOfButtons, buttonCount, buttonRow);
    assert leftMostButtonX == RowLeftX(ds, columnsOfButtons, buttonCount, buttonRow);
    box := Box(leftMostButtonX + Pitch(buttonWidth, buttonColumn),
               ds.topY + topPadding + Pitch(buttonHeight, buttonRow),
               buttonWidth, buttonHeight);
  }

  /** The left edge of the row's first button. */
  function RowLeftX(ds: DisplaySpace, columns: int, buttonCount: int, row: int): int
    requires 1 <= columns <= 4 && buttonCount >= 1
  {
    var g := GridOf(ds, columns, buttonCount);
    var onRow := ButtonsOnRow(columns, buttonCount, row);
    ds.leftX + Div(ds.width - g.buttonWidth * onRow - ButtonPadding * (onRow - 1), 2)
  }

  // ---------------------------------------------------------------------------
  // Properties of the layout
  // ---------------------------------------------------------------------------

  /** Item i sits at row (i-1) / columns and column (i-1) mod columns, inside
      the grid. */
  lemma ItemRowAndColumn(columns: int, buttonCount: int, menuIdx: int)
    requires 1 <= columns <= 4 && 1 <= menuIdx <= buttonCount
    ensures ItemRow(columns, menuIdx) == (menuIdx - 1) / columns
    ensures ItemColumn(columns, menuIdx) == (menuIdx - 1) % columns
    ensures 0 <= ItemColumn(columns, menuIdx) < columns
    ensures 0 <= ItemRow(columns, menuIdx) < RowCount(columns, buttonCount)
  {
    var k := menuIdx - 1;
    var rows := RowCount(columns, buttonCount);
    assert k == (k / columns) * columns + k % columns;
    if k / columns >= rows {
      MulMonotone(columns, rows, k / columns);
      assert false;
    }
  }

  /** The box's corner in terms of the row's left edge and the grid. */
  lemma ItemBoxCorner(ds: DisplaySpace, columns: int, buttonCount: int, menuIdx: int)
    requires 1 <= columns <= 4 && 1 <= menuIdx <= buttonCount
    ensures var g := GridOf(ds, columns, buttonCount);
      var b := ItemBox(ds, columns, buttonCount, menuIdx);
      b.x == RowLeftX(ds, columns, buttonCount, ItemRow(columns, menuIdx)) +
             Pitch(g.buttonWidth, ItemColumn(columns, menuIdx)) &&
      b.y == ds.topY + g.topPadding + Pitch(g.buttonHeight, ItemRow(columns, menuIdx))
  {
  }

  /** Neighbours on a row are exactly one button width plus 10 apart. */
  lemma NeighboursOnARow(ds: DisplaySpace, columns: int, buttonCount: int, menuIdx: int)
    requires 1 <= columns <= 4 && 1 <= menuIdx && menuIdx + 1 <= buttonCount
    requires ItemColumn(columns, menuIdx) + 1 < columns
    ensures ItemRow(columns, menuIdx + 1) == ItemRow(columns, menuIdx)
    ensures var a := ItemBox(ds, columns, buttonCount, menuIdx);
      var b := ItemBox(ds, columns, buttonCount, menuIdx + 1);
      b.x == a.x + a.width + ButtonPadding && b.y == a.y
  {
    NextColumnIndex(columns, menuIdx);
    var c := ItemColumn(columns, menuIdx);
    ItemBoxCorner(ds, columns, buttonCount, menuIdx);
    ItemBoxCorner(ds, columns, buttonCount, menuIdx + 1);
    MulSucc(GridOf(ds, columns, buttonCount).buttonWidth + ButtonPadding, c);
  }

  lemma NextColumnIndex(columns: int, menuIdx: int)
    requires 1 <= columns <= 4 && 1 <= menuIdx
    requires ItemColumn(columns, menuIdx) + 1 < columns
    ensures ItemRow(columns, menuIdx + 1) == ItemRow(columns, menuIdx)
    ensures ItemColumn(columns, menuIdx + 1) == ItemColumn(columns, menuIdx) + 1
  {
    var k := menuIdx - 1;
    var r, c := k / columns, k % columns;
    assert k == r * columns + c;
    DivIsUnique(k + 1, columns, r, c + 1);
  }

  /** An item and the one a row below it share their column and are one
      button height plus 10 apart. */
  lemma NeighboursInAColumn(ds: DisplaySpace, columns: int, buttonCount: int, menuIdx: int)
    requires 1 <= columns <= 4 && 1 <= menuIdx && menuIdx + columns <= buttonCount
    ensures ItemRow(columns, menuIdx + columns) == ItemRow(columns, menuIdx) + 1
    ensures ItemColumn(columns, menuIdx + columns) == ItemColumn(columns, menuIdx)
    ensures var a := ItemBox(ds, columns, buttonCount, menuIdx);
      var b := ItemBox(ds, columns, buttonCount, menuIdx + columns);
      b.y == a.y + a.height + ButtonPadding
  {
    NextRowIndex(columns, menuIdx);
    var r := ItemRow(columns, menuIdx);
    ItemBoxCorner(ds, columns, buttonCount, menuIdx);
    ItemBoxCorner(ds, columns, buttonCount, menuIdx + columns);
    MulSucc(GridOf(ds, columns, buttonCount).buttonHeight + ButtonPadding, r);
  }

  lemma NextRowIndex(columns: int, menuIdx: int)
    requires 1 <= columns <= 4 && 1 <= menuIdx
    ensures ItemRow(columns, menuIdx + columns) == ItemRow(columns, menuIdx) + 1
    ensures ItemColumn(columns, menuIdx + columns) == ItemColumn(columns, menuIdx)
  {
    var k := menuIdx - 1;
    var r, c := k / columns, k % columns;
    assert k == r * columns + c;
    assert k + columns == (r + 1) * columns + c;
    DivIsUnique(k + columns, columns, r + 1, c);
  }

  /** Every row but the last is full; a short last row is centred on the
      number of buttons it actually holds. */
  lemma ShortLastRow(columns: int, buttonCount: int, row: int)
    requires 1 <= columns <= 4 && buttonCount >= 1
    requires 0 <= row < RowCount(columns, buttonCount)
    ensures row < RowCount(columns, buttonCount) - 1 ==> ButtonsOnRow(columns, buttonCount, row) == columns
    ensures row == RowCount(columns, buttonCount) - 1 ==>
      ButtonsOnRow(columns, buttonCount, row) == buttonCount - row * columns
    ensures 1 <= ButtonsOnRow(columns, buttonCount, row) <= columns
  {
    var rows := RowCount(columns, buttonCount);
    if row == rows - 1 {
      var q := buttonCount / columns;
      var m := buttonCount % columns;
      assert buttonCount == q * columns + m;
      if m == 0 {
        DivIsUnique(buttonCount + columns - 1, columns, q, columns - 1);
      } else {
        assert buttonCount + columns - 1 == (q + 1) * columns + (m - 1);
        DivIsUnique(buttonCount + columns - 1, columns, q + 1, m - 1);
      }
    }
  }

  /** Each row is centred in the display space on the buttons it holds: when
      the space is wide enough for a full row and its 10-pixel margins, the
      margins left and right of the row are at least 10 and equal, or the
      right one is a pixel wider when the spare width is odd. */
  lemma RowIsCentred(ds: DisplaySpace, columns: int, buttonCount: int, row: int)
    requires 1 <= columns <= 4 && buttonCount >= 1
    requires 0 <= row < RowCount(columns, buttonCount)
    requires ds.width >= 20 + ButtonPadding * (columns - 1)
    ensures var g := GridOf(ds, columns, buttonCount);
      var onRow := ButtonsOnRow(columns, buttonCount, row);
      var leftX := RowLeftX(ds, columns, buttonCount, row);
      var left := leftX - ds.leftX;
      var right := ds.leftX + ds.width - (leftX + g.buttonWidth * onRow + ButtonPadding * (onRow - 1));
      left >= ButtonPadding && right >= ButtonPadding && (left == right || left + 1 == right)
  {
    var g := GridOf(ds, columns, buttonCount);
    GridFits(ds, columns, buttonCount);
    ShortLastRow(columns, buttonCount, row);
    MulMonotone(g.buttonWidth, ButtonsOnRow(columns, buttonCount, row), columns);
  }

  /** The rows are centred vertically the same way: when the space is tall
      enough for them and their margins, the margins above and below the
      rows are at least 10 and equal, or the lower one is a pixel taller. */
  lemma RowsAreCentred(ds: DisplaySpace, columns: int, buttonCount: int)
    requires 1 <= columns <= 4 && buttonCount >= 1
    requires ds.height >= 20 + ButtonPadding * (RowCount(columns, buttonCount) - 1)
    ensures var g := GridOf(ds, columns, buttonCount);
      var top := g.topPadding;
      var bottom := ds.height - (g.topPadding + g.buttonHeight * g.rows + ButtonPadding * (g.rows - 1));
      top >= ButtonPadding && bottom >= ButtonPadding && (top == bottom || top + 1 == bottom)
  {
    GridFits(ds, columns, buttonCount);
  }

  /** Distinct items get disjoint boxes when buttons have a positive size. */
  lemma ItemsAreDisjoint(ds: DisplaySpace, columns: int, buttonCount: int, i: int, j: int, x: int, y: int)
    requires 1 <= columns <= 4 && 1 <= i < j <= buttonCount
    requires GridOf(ds, columns, buttonCount).buttonWidth > 0
    requires GridOf(ds, columns, buttonCount).buttonHeight > 0
    ensures !(InRect(x, y, Covered(ItemBox(ds, columns, buttonCount, i))) &&
              InRect(x, y, Covered(ItemBox(ds, columns, buttonCount, j))))
  {
    var g := GridOf(ds, columns, buttonCount);
    ItemRowAndColumn(columns, buttonCount, i);
    ItemRowAndColumn(columns, buttonCount, j);
    ItemBoxCorner(ds, columns, buttonCount, i);
    ItemBoxCorner(ds, columns, buttonCount, j);
    var ri, ci := ItemRow(columns, i), ItemColumn(columns, i);
    var rj, cj := ItemRow(columns, j), ItemColumn(columns, j);
    assert i - 1 == ri * columns + ci && j - 1 == rj * columns + cj;
    if rj < ri {
      MulStrictlyMonotone(columns, rj, ri);
      assert false;
    } else if ri < rj {
      MulStrictlyMonotone(g.buttonHeight + ButtonPadding, ri, rj);
      assert ri * (g.buttonHeight + ButtonPadding) == (g.buttonHeight + ButtonPadding) * ri;
      assert rj * (g.buttonHeight + ButtonPadding) == (g.buttonHeight + ButtonPadding) * rj;
    } else {
      assert ci < cj;
      MulStrictlyMonotone(g.buttonWidth + ButtonPadding, ci, cj);
      assert ci * (g.buttonWidth + ButtonPadding) == (g.buttonWidth + ButtonPadding) * ci;
      assert cj * (g.buttonWidth + ButtonPadding) == (g.buttonWidth + ButtonPadding) * cj;
    }
  }

  // ---------------------------------------------------------------------------
  // Hit test
  // ---------------------------------------------------------------------------

  predicate ItemContains(ds: DisplaySpace, columns: int, buttonCount: int, menuIdx: int, x: int, y: int)
    requires 1 <= columns <= 4 && 1 <= menuIdx <= buttonCount
  {
    InRect(x, y, Covered(ItemBox(ds, columns, buttonCount, menuIdx)))
  }

  /** The first item, from `from` on, whose button contains (x, y), or 0. */
  function ItemAt(ds: DisplaySpace, columns: int, buttonCount: int, from: int, x: int, y: int): (k: int)
    requires 1 <= columns <= 4 && 1 <= from <= buttonCount + 1
    decreases buttonCount + 1 - from
    ensures k == 0 || from <= k <= buttonCount
    ensures k == 0 <==> forall i :: from <= i <= buttonCount ==> !ItemContains(ds, columns, buttonCount, i, x, y)
    ensures k != 0 ==> ItemContains(ds, columns, buttonCount, k, x, y)
    ensures k != 0 ==> forall i :: from <= i < k ==> !ItemContains(ds, columns, buttonCount, i, x, y)
  {
    if from > buttonCount then 0
    else if ItemContains(ds, columns, buttonCount, from, x, y) then from
    else
      var k := ItemAt(ds, columns, buttonCount, from + 1, x, y);
      assert forall i :: from <= i < from + 1 ==> !ItemContains(ds, columns, buttonCount, i, x, y);
      k
  }

  /** With buttons of positive size at most one item contains a point, so the
      first match is the only one. */
  lemma ItemAtIsTheOnlyMatch(ds: DisplaySpace, columns: int, buttonCount: int, x: int, y: int, i: int)
    requires 1 <= columns <= 4 && 1 <= i <= buttonCount
    requires GridOf(ds, columns, buttonCount).buttonWidth > 0
    requires GridOf(ds, columns, buttonCount).buttonHeight > 0
    requires ItemContains(ds, columns, buttonCount, i, x, y)
    ensures ItemAt(ds, columns, buttonCount, 1, x, y) == i
  {
    var k := ItemAt(ds, columns, buttonCount, 1, x, y);
    assert k != 0;
    if k < i {
      ItemsAreDisjoint(ds, columns, buttonCount, k, i, x, y);
    }
  }

  // ---------------------------------------------------------------------------
  // Integer helpers
  // ---------------------------------------------------------------------------

  lemma QuotientFits(a: int, c: int)
    requires c >= 1
    ensures a >= 0 ==> Div(a, c) >= 0 && c * Div(a, c) <= a
  {
    if a >= 0 {
      assert a == (a / c) * c + a % c;
    }
  }

  lemma DivIsUnique(a: int, c: int, q: int, r: int)
    requires c > 0 && 0 <= r < c && a == q * c + r
    ensures a / c == q && a % c == r
  {
    var q', r' := a / c, a % c;
    assert a == q' * c + r';
    if q' < q {
      MulStrictlyMonotone(c, q', q);
      assert false;
    } else if q < q' {
      MulStrictlyMonotone(c, q, q');
      assert false;
    }
  }

  lemma MulSucc(a: int, r: int)
    ensures a * (r + 1) == a * r + a
  {
  }

  lemma MulMonotone(c: int, i: int, j: int)
    requires c >= 0 && i <= j
    ensures i * c <= j * c
  {
    var d := j - i;
    assert d * c >= 0;
    assert j * c == (i + d) * c == i * c + d * c;
  }
}
