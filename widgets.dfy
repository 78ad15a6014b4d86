/** The two stateful widgets an application declares: the integer number box
    (a value stepped by Down and Up buttons, clamped to a range, with an
    accelerating auto-repeat) and the selection box (up to four side-by-side
    choices, one of them selected). The classes hold the records; the
    functions say how one touch event changes them. */
module Widgets {
  import opened UiTypes
  import opened Geometry

  // ---------------------------------------------------------------------------
  // Number box
  // ---------------------------------------------------------------------------

  /** An integer number box. Only `value` changes once it is declared. */
  class NumberBox {
    const labelText: string
    var value: int
    const minimumValue: int
    const maximumValue: int
    const stepAmount: int
    const centerX: int
    const centerY: int
    const width: int
    const height: int

    constructor (labelText: string, value: int, minimumValue: int, maximumValue: int, stepAmount: int,
                 centerX: int, centerY: int, width: int, height: int)
      ensures this.labelText == labelText && this.value == value
      ensures this.minimumValue == minimumValue && this.maximumValue == maximumValue
      ensures this.stepAmount == stepAmount
      ensures this.centerX == centerX && this.centerY == centerY
      ensures this.width == width && this.height == height
    {
      this.labelText := labelText;
      this.value := value;
      this.minimumValue := minimumValue;
      this.maximumValue := maximumValue;
      this.stepAmount := stepAmount;
      this.centerX := centerX;
      this.centerY := centerY;
      this.width := width;
      this.height := height;
    }

    function Coords(): NumberBoxCoords
    {
      NumberBoxCoordinates(centerX, centerY, width, height)
    }
  }

  /** The value after adding `step`: a positive step stops at the maximum, a
      negative one at the minimum, and a zero step leaves the value alone. */
  function ClampedStep(value: int, minimumValue: int, maximumValue: int, step: int): (v: int)
    ensures step == 0 ==> v == value
    ensures step > 0 ==> v <= maximumValue && v <= value + step && (v == value + step || v == maximumValue)
    ensures step < 0 ==> v >= minimumValue && v >= value + step && (v == value + step || v == minimumValue)
    // a step moves a value that has room toward its direction
    ensures step > 0 && value < maximumValue ==> value < v
    ensures step < 0 && value > minimumValue ==> v < value
    // a value inside the range stays inside it
    ensures minimumValue <= value <= maximumValue ==> minimumValue <= v <= maximumValue
  {
    if step > 0 then
      (if value + step > maximumValue then maximumValue else value + step)
    else if step < 0 then
      (if value + step < minimumValue then minimumValue else value + step)
    else value
  }

  /** The stepper zone a point falls in; the Down zone is checked first. */
  datatype StepperZone = DownStepper | UpStepper | NoStepper

  function ZoneAt(c: NumberBoxCoords, x: int, y: int): (z: StepperZone)
    ensures z == DownStepper <==> InRect(x, y, DownZone(c))
    ensures z == UpStepper <==> InRect(x, y, UpZone(c)) && !InRect(x, y, DownZone(c))
  {
    if InRect(x, y, DownZone(c)) then DownStepper
    else if InRect(x, y, UpZone(c)) then UpStepper
    else NoStepper
  }

  /** The step a zone applies: Down subtracts, Up adds. */
  function Directed(z: StepperZone, amount: int): int
  {
    if z == DownStepper then -amount else amount
  }

  /** How many step amounts the n-th auto-repeat adds: one for the first 15
      repeats, then one more for every further 16. */
  function RepeatMultiplier(repeatCount: int): (m: int)
    requires repeatCount >= 0
    ensures m >= 1
    ensures repeatCount < 16 ==> m == 1
    ensures 16 * (m - 1) <= repeatCount < 16 * m
  {
    Div(repeatCount, 16) + 1
  }

  /** The acceleration never slows down. */
  lemma RepeatMultiplierGrows(a: int, b: int)
    requires 0 <= a <= b
    ensures RepeatMultiplier(a) <= RepeatMultiplier(b)
  {
  }

  /** What one touch event does to a number box. */
  datatype NumberBoxOutcome = NumberBoxOutcome(value: int, repeatCount: int, touched: bool)

  function NumberBoxResponse(kind: EventKind, x: int, y: int, c: NumberBoxCoords,
                             value: int, minimumValue: int, maximumValue: int, stepAmount: int,
                             repeatCount: int): (o: NumberBoxOutcome)
    requires repeatCount >= 0
    // the box reports a touch on every Pushed and Repeat in a stepper zone,
    // whether or not the value could move
    ensures o.touched <==> (kind == Pushed || kind == Repeat) && ZoneAt(c, x, y) != NoStepper
    // anything else leaves the box alone
    ensures !o.touched ==> o.value == value && o.repeatCount == repeatCount
    // a press steps once and restarts the acceleration
    ensures o.touched && kind == Pushed ==>
      o.repeatCount == 0 &&
      o.value == ClampedStep(value, minimumValue, maximumValue, Directed(ZoneAt(c, x, y), stepAmount))
    // each repeat counts, and steps by a growing multiple of the step amount
    ensures o.touched && kind == Repeat ==>
      o.repeatCount == repeatCount + 1 &&
      o.value == ClampedStep(value, minimumValue, maximumValue,
                             Directed(ZoneAt(c, x, y), stepAmount * RepeatMultiplier(repeatCount + 1)))
    ensures o.repeatCount >= 0
    // a value inside the range stays inside it
    ensures minimumValue <= value <= maximumValue ==> minimumValue <= o.value <= maximumValue
  {
    var z := ZoneAt(c, x, y);
    if z == NoStepper || (kind != Pushed && kind != Repeat) then
      NumberBoxOutcome(value, repeatCount, false)
    else if kind == Pushed then
      NumberBoxOutcome(ClampedStep(value, minimumValue, maximumValue, Directed(z, stepAmount)), 0, true)
    else
      NumberBoxOutcome(ClampedStep(value, minimumValue, maximumValue,
                                   Directed(z, stepAmount * RepeatMultiplier(repeatCount + 1))),
                       repeatCount + 1, true)
  }

  /** With a positive step amount, the Up stepper never lowers a value inside
      the range and the Down stepper never raises it. */
  lemma SteppersMoveTheirWay(kind: EventKind, x: int, y: int, c: NumberBoxCoords,
                             value: int, minimumValue: int, maximumValue: int, stepAmount: int,
                             repeatCount: int)
    requires repeatCount >= 0 && stepAmount > 0 && minimumValue <= value <= maximumValue
    ensures var o := NumberBoxResponse(kind, x, y, c, value, minimumValue, maximumValue, stepAmount, repeatCount);
      (ZoneAt(c, x, y) == UpStepper ==> o.value >= value) &&
      (ZoneAt(c, x, y) == DownStepper ==> o.value <= value)
  {
    var m := RepeatMultiplier(repeatCount + 1);
    assert stepAmount * m >= stepAmount * 1;
  }

  // ---------------------------------------------------------------------------
  // Selection box
  // ---------------------------------------------------------------------------

  /** A selection box: up to four choices; `value` is the selected one. */
  class SelectionBox {
    const labelText: string
    var value: int
    const choice0Text: string
    const choice1Text: string
    const choice2Text: string
    const choice3Text: string
    const centerX: int
    const centerY: int
    const width: int
    const height: int

    constructor (labelText: string, value: int,
                 choice0Text: string, choice1Text: string, choice2Text: string, choice3Text: string,
                 centerX: int, centerY: int, width: int, height: int)
      ensures this.labelText == labelText && this.value == value
      ensures this.choice0Text == choice0Text && this.choice1Text == choice1Text
      ensures this.choice2Text == choice2Text && this.choice3Text == choice3Text
      ensures this.centerX == centerX && this.centerY == centerY
      ensures this.width == width && this.height == height
    {
      this.labelText := labelText;
      this.value := value;
      this.choice0Text := choice0Text;
      this.choice1Text := choice1Text;
      this.choice2Text := choice2Text;
      this.choice3Text := choice3Text;
      this.centerX := centerX;
      this.centerY := centerY;
      this.width := width;
      this.height := height;
    }

    /** The number of choices shown. */
    function ChoiceCount(): (n: int)
      ensures 1 <= n <= 4
    {
      CountChoices(choice1Text, choice2Text, choice3Text)
    }

    function Cell(cell: int): Box
    {
      SelectionCellBox(centerX, centerY, width, height, ChoiceCount(), cell)
    }
  }

  /** The number of choices: choice 0 is always shown, and the choices end at
      the first empty label among choices 1 to 3. */
  function CountChoices(choice1Text: string, choice2Text: string, choice3Text: string): (n: int)
    ensures 1 <= n <= 4
    ensures n < 4 ==> [choice1Text, choice2Text, choice3Text][n - 1] == ""
    ensures forall i :: 0 <= i < n - 1 ==> [choice1Text, choice2Text, choice3Text][i] != ""
  {
    if choice1Text == "" then 1
    else if choice2Text == "" then 2
    else if choice3Text == "" then 3
    else 4
  }

  /** The first cell, from `from` on, that contains (x, y), or -1. */
  function CellAt(centerX: int, centerY: int, width: int, height: int, count: int, from: int, x: int, y: int): (k: int)
    requires 1 <= count <= 4 && 0 <= from <= count
    decreases count - from
    ensures k == -1 || from <= k < count
    ensures k == -1 <==>
      forall i :: from <= i < count ==> !InRect(x, y, Covered(SelectionCellBox(centerX, centerY, width, height, count, i)))
    ensures k != -1 ==> InRect(x, y, Covered(SelectionCellBox(centerX, centerY, width, height, count, k)))
    ensures k != -1 ==>
      forall i :: from <= i < k ==> !InRect(x, y, Covered(SelectionCellBox(centerX, centerY, width, height, count, i)))
  {
    if from == count then -1
    else if InRect(x, y, Covered(SelectionCellBox(centerX, centerY, width, height, count, from))) then from
    else CellAt(centerX, centerY, width, height, count, from + 1, x, y)
  }

  /** The cell found is the only cell that contains the point. */
  lemma CellAtIsTheOnlyMatch(centerX: int, centerY: int, width: int, height: int, count: int, x: int, y: int, i: int)
    requires 1 <= count <= 4 && 0 <= i < count
    requires InRect(x, y, Covered(SelectionCellBox(centerX, centerY, width, height, count, i)))
    ensures CellAt(centerX, centerY, width, height, count, 0, x, y) == i
  {
    var k := CellAt(centerX, centerY, width, height, count, 0, x, y);
    if k < i {
      SelectionCellsAreDisjoint(centerX, centerY, width, height, count, k, i, x, y);
    } else if i < k {
      SelectionCellsAreDisjoint(centerX, centerY, width, height, count, i, k, x, y);
    }
  }

  /** What one touch event does to a selection box. */
  datatype SelectionOutcome = SelectionOutcome(value: int, changed: bool, redraw: Redraw)

  function SelectionResponse(kind: EventKind, x: int, y: int,
                             centerX: int, centerY: int, width: int, height: int, count: int,
                             value: int): (o: SelectionOutcome)
    requires 1 <= count <= 4
    // a press on a cell selects it, highlights the box, and reports whether
    // the selection changed
    ensures kind == Pushed && CellAt(centerX, centerY, width, height, count, 0, x, y) != -1 ==>
      o.value == CellAt(centerX, centerY, width, height, count, 0, x, y) && o.redraw == DrawHighlighted
    // a release on a cell only removes the highlight
    ensures kind == Released && CellAt(centerX, centerY, width, height, count, 0, x, y) != -1 ==>
      o.value == value && o.redraw == DrawNormal
    // every other event is ignored
    ensures (kind != Pushed && kind != Released) || CellAt(centerX, centerY, width, height, count, 0, x, y) == -1 ==>
      o.value == value && o.redraw == NoRedraw
    ensures o.changed <==> o.value != value
    ensures o.value != value ==> 0 <= o.value < count
  {
    var k := CellAt(centerX, centerY, width, height, count, 0, x, y);
    if k == -1 then SelectionOutcome(value, false, NoRedraw)
    else if kind == Pushed then SelectionOutcome(k, k != value, DrawHighlighted)
    else if kind == Released then SelectionOutcome(value, false, DrawNormal)
    else SelectionOutcome(value, false, NoRedraw)
  }
}
