/** The calendar border of one month, `draw_month` (main.py:70-131): a border
    rectangle, the month name right-aligned in the footer band, and one column
    per day of the month holding the day number above the weekday
    abbreviation, in bold for Sundays and holidays. Each drawing call is
    recorded as a command; pixels are not modelled. */
module MonthBorder {
  import opened Errors
  import opened Calendar
  import opened Decimal
  import opened TextPlacement

  /** The layout values read from the settings file (main.py:153-158). */
  datatype Layout = Layout(
    canvasWidth: int, canvasHeight: int,
    border: int, borderBottom: int,
    daysSpacing: int, daysWidth: int)

  /** The three fonts: `fnt`, `fnt_bold` and `fnt_big` (main.py:148-150). */
  datatype Font = Regular | Bold | BoldBig

  /** Localised names, supplied by the date-formatting library:
      `format_date(d, "MMMM")` and `format_date(d, "E")` in German. */
  datatype Locale = Locale(monthName: Date -> string, weekdayAbbrev: Date -> string)

  /** One drawing call on the month image: `rectangle(..., fill=0)` or `scale_text(...)`. */
  datatype Command =
    | FillRect(x0: int, y0: int, x1: int, y1: int)
    | DrawText(x: real, y: real, text: string, font: Font, anchor: string, scaleX: real, scaleY: real)

  /** What `draw_month` produces: the drawing calls in order and the
      `drawn_holidays` list it logs. */
  datatype MonthDrawing = MonthDrawing(commands: seq<Command>, drawnHolidays: seq<string>)

  /** Every text of the border is stretched by these factors (main.py:88, 111, 121). */
  const ScaleX: real := 0.8
  const ScaleY: real := 1.4

  /** The vertical centre of the footer band (main.py:82). */
  function FooterMiddle(cfg: Layout): (y: real) {
    cfg.canvasHeight as real - cfg.borderBottom as real / 2.0
  }

  /** The x coordinate of the `i`-th day column, counting from 0, as the loop
      accumulates it: half a column width in from the border, then one
      column width further per day (main.py:96, 126). */
  function ColumnX(cfg: Layout, i: nat): (x: real) {
    if i == 0 then cfg.border as real + cfg.daysWidth as real / 2.0
    else ColumnX(cfg, i - 1) + cfg.daysWidth as real
  }

  /** The accumulated x is the closed form `border + daysWidth / 2 + i * daysWidth`. */
  lemma {:induction false} ColumnXClosedForm(cfg: Layout, i: nat)
    ensures ColumnX(cfg, i) == cfg.border as real + cfg.daysWidth as real / 2.0 + i as real * cfg.daysWidth as real
  {
    if i > 0 {
      ColumnXClosedForm(cfg, i - 1);
      assert i as real * cfg.daysWidth as real == (i - 1) as real * cfg.daysWidth as real + cfg.daysWidth as real;
    }
  }

  /** The bold rule (main.py:100): a holiday or a Sunday. */
  predicate IsEmphasized(d: Date, holidays: set<Date>)
    requires Valid(d)
  {
    d in holidays || Weekday(d) == Sunday
  }

  /** The font of a day's number and label (main.py:100). */
  function DayFont(d: Date, holidays: set<Date>): (f: Font)
    requires Valid(d)
    ensures f == Bold <==> IsEmphasized(d, holidays)
    ensures f != BoldBig
  {
    if IsEmphasized(d, holidays) then Bold else Regular
  }

  /** Upper-casing of one character, ASCII letters only. */
  function AsciiUpper(c: char): (u: char)
    ensures !('a' <= u <= 'z')
    ensures 'a' <= c <= 'z' ==> u as int + 32 == c as int
    ensures !('a' <= c <= 'z') ==> u == c
  {
    if 'a' <= c <= 'z' then (c as int - 32) as char else c
  }

  /** `abbrev[:-1].upper()` (main.py:120): the abbreviation without its last
      character (the German abbreviations end in a full stop), upper-cased.
      Only ASCII letters are case-mapped here. */
  function WeekdayLabel(abbrev: string): (r: string)
    ensures |abbrev| == 0 ==> r == []
    ensures |abbrev| > 0 ==> |r| == |abbrev| - 1
    ensures forall i :: 0 <= i < |r| ==> r[i] == AsciiUpper(abbrev[i])
  {
    if |abbrev| == 0 then []
    else seq(|abbrev| - 1, i requires 0 <= i < |abbrev| - 1 => AsciiUpper(abbrev[i]))
  }

  lemma WeekdayLabelExample()
    ensures WeekdayLabel("Mo.") == "MO"
  {
    assert WeekdayLabel("Mo.")[1] == 'O';
  }

  /** The border rectangle and the month name (main.py:78-92). */
  function HeaderCommands(cfg: Layout, loc: Locale, month: Date): (header: seq<Command>) {
    [ FillRect(cfg.border, cfg.border, cfg.canvasWidth - cfg.border, cfg.canvasHeight - cfg.borderBottom),
      DrawText((cfg.canvasWidth - cfg.border) as real, FooterMiddle(cfg), loc.monthName(month), BoldBig, "rm", ScaleX, ScaleY) ]
  }

  /** The day-number call for date `d` at column position `x` (main.py:107-115). */
  function NumberCommand(cfg: Layout, d: Date, x: real, font: Font): (c: Command)
    requires d.day >= 0
  {
    DrawText(x, FooterMiddle(cfg) - cfg.daysSpacing as real / 2.0, NatToString(d.day), font, "mb", ScaleX, ScaleY)
  }

  /** The weekday-label call for date `d` at column position `x` (main.py:117-125). */
  function LabelCommand(cfg: Layout, loc: Locale, d: Date, x: real, font: Font): (c: Command) {
    DrawText(x, FooterMiddle(cfg) + cfg.daysSpacing as real / 2.0, WeekdayLabel(loc.weekdayAbbrev(d)), font, "mt", ScaleX, ScaleY)
  }

  predicate ValidMonth(y: int, m: int) {
    MinYear <= y <= MaxYear && 1 <= m <= 12
  }

  /** The calls made once days 1 to `k` of the month of `month` are drawn:
      the header, then a number and a label per day, in that order. */
  function CommandsUpTo(cfg: Layout, loc: Locale, holidays: set<Date>, month: Date, k: int): (cmds: seq<Command>)
    requires Valid(month) && 0 <= k <= DaysInMonth(month.year, month.month)
    ensures |cmds| == 2 + 2 * k
  {
    if k == 0 then HeaderCommands(cfg, loc, month)
    else
      var d := Date(month.year, month.month, k);
      CommandsUpTo(cfg, loc, holidays, month, k - 1)
        + [NumberCommand(cfg, d, ColumnX(cfg, k - 1), DayFont(d, holidays))]
        + [LabelCommand(cfg, loc, d, ColumnX(cfg, k - 1), DayFont(d, holidays))]
  }

  /** The day numbers among 1 to `k` that are drawn bold, in ascending order. */
  function BoldDays(y: int, m: int, holidays: set<Date>, k: int): (days: seq<int>)
    requires ValidMonth(y, m) && 0 <= k <= DaysInMonth(y, m)
    ensures |days| <= k
    ensures forall j :: 0 <= j < |days| ==> 1 <= days[j] <= k
  {
    if k == 0 then []
    else BoldDays(y, m, holidays, k - 1) + (if IsEmphasized(Date(y, m, k), holidays) then [k] else [])
  }

  /** `str(day)` for each day, as `drawn_holidays` holds them (main.py:104). */
  function DayStrings(days: seq<int>): (r: seq<string>)
    requires forall j :: 0 <= j < |days| ==> days[j] >= 0
    ensures |r| == |days|
    ensures forall j :: 0 <= j < |days| ==> r[j] == NatToString(days[j])
  {
    seq(|days|, j requires 0 <= j < |days| => NatToString(days[j]))
  }

  /** The whole drawing of the month that `month` lies in. */
  function MonthCommands(cfg: Layout, loc: Locale, holidays: set<Date>, month: Date): (commands: seq<Command>)
    requires Valid(month)
  {
    CommandsUpTo(cfg, loc, holidays, month, DaysInMonth(month.year, month.month))
  }

  function DrawnHolidays(holidays: set<Date>, month: Date): (drawn: seq<string>)
    requires Valid(month)
  {
    DayStrings(BoldDays(month.year, month.month, holidays, DaysInMonth(month.year, month.month)))
  }

  /** Logging one more day appends its string. */
  lemma DayStringsSnoc(days: seq<int>, k: int)
    requires forall j :: 0 <= j < |days| ==> days[j] >= 0
    requires k >= 0
    ensures DayStrings(days + [k]) == DayStrings(days) + [NatToString(k)]
  {
    assert DayStrings(days + [k])[|days|] == NatToString(k);
  }

  /** One iteration of the day loop, for day `i + 1` in column `i`, in the
      terms the loop computes it: two calls appended at the current x, the
      day logged exactly when its font is bold, and x moved on by one
      column width. */
  lemma DayLoopStep(cfg: Layout, loc: Locale, holidays: set<Date>, month: Date, i: int,
                    commands: seq<Command>, drawn: seq<string>, x: real)
    requires Valid(month) && 0 <= i < DaysInMonth(month.year, month.month)
    requires x == ColumnX(cfg, i)
    requires commands == CommandsUpTo(cfg, loc, holidays, month, i)
    requires drawn == DayStrings(BoldDays(month.year, month.month, holidays, i))
    ensures
      var d := Date(month.year, month.month, i + 1);
      var font := DayFont(d, holidays);
      && commands + [NumberCommand(cfg, d, x, font)] + [LabelCommand(cfg, loc, d, x, font)]
         == CommandsUpTo(cfg, loc, holidays, month, i + 1)
      && (if font == Bold then drawn + [NatToString(d.day)] else drawn)
         == DayStrings(BoldDays(month.year, month.month, holidays, i + 1))
      && x + cfg.daysWidth as real == ColumnX(cfg, i + 1)
  {
    var days := BoldDays(month.year, month.month, holidays, i);
    if DayFont(Date(month.year, month.month, i + 1), holidays) == Bold {
      DayStringsSnoc(days, i + 1);
    }
  }

  /** Stepping from day `d` of a month stays in the month until its last
      day; after that the month changes, or the step overflows in
      December 9999. */
  lemma NextDayInMonth(y: int, m: int, d: int)
    requires ValidMonth(y, m) && 1 <= d <= DaysInMonth(y, m)
    ensures d < DaysInMonth(y, m) ==> NextDay(Date(y, m, d)) == Some(Date(y, m, d + 1))
    ensures d == DaysInMonth(y, m) && NextDay(Date(y, m, d)).Some? ==>
      NextDay(Date(y, m, d)).value.month != m && !(y == MaxYear && m == 12)
  {
  }

  /** `draw_month(month)`: walks the dates from the first of the month until
      the month changes. On the last day of December 9999 the step to the
      next date overflows, so that month raises instead of returning. */
  method DrawMonth(cfg: Layout, loc: Locale, holidays: set<Date>, month: Date) returns (r: Result<MonthDrawing>)
    requires Valid(month)
    ensures month.year == MaxYear && month.month == 12 ==> r == Err(DateOverflow)
    ensures !(month.year == MaxYear && month.month == 12) ==>
      r == Ok(MonthDrawing(MonthCommands(cfg, loc, holidays, month), DrawnHolidays(holidays, month)))
  {
    var y, m := month.year, month.month;
    ghost var n: nat := DaysInMonth(y, m);
    var commands := HeaderCommands(cfg, loc, month);
    var drawnHolidays: seq<string> := [];
    var x := cfg.border as real + cfg.daysWidth as real / 2.0;
    var current := Date(y, m, 1);  // month.replace(day=1)
    ghost var i: nat := 0;
    while current.month == m
      invariant i <= n
      invariant current.month == m ==> i < n && current == Date(y, m, i + 1)
      invariant current.month != m ==> i == n && !(y == MaxYear && m == 12)
      invariant x == ColumnX(cfg, i)
      invariant commands == CommandsUpTo(cfg, loc, holidays, month, i)
      invariant drawnHolidays == DayStrings(BoldDays(y, m, holidays, i))
      decreases n - i
    {
      DayLoopStep(cfg, loc, holidays, month, i, commands, drawnHolidays, x);
      var font := if current in holidays || Weekday(current) == Sunday then Bold else Regular;
      if font == Bold {
        drawnHolidays := drawnHolidays + [NatToString(current.day)];
      }
      commands := commands + [NumberCommand(cfg, current, x, font)];
      commands := commands + [LabelCommand(cfg, loc, current, x, font)];
      x := x + cfg.daysWidth as real;
      NextDayInMonth(y, m, i + 1);
      var next := NextDay(current);
      if next.None? {
        return Err(DateOverflow);
      }
      current := next.value;
      i := i + 1;
    }
    return Ok(MonthDrawing(commands, drawnHolidays));
  }

  // ---------------------------------------------------------------------
  // What the drawing of a month looks like

  lemma {:induction false} CommandsUpToAt(cfg: Layout, loc: Locale, holidays: set<Date>, month: Date, k: int, i: int)
    requires Valid(month) && 0 <= i < k <= DaysInMonth(month.year, month.month)
    ensures
      var d := Date(month.year, month.month, i + 1);
      && CommandsUpTo(cfg, loc, holidays, month, k)[2 + 2 * i] == NumberCommand(cfg, d, ColumnX(cfg, i), DayFont(d, holidays))
      && CommandsUpTo(cfg, loc, holidays, month, k)[3 + 2 * i] == LabelCommand(cfg, loc, d, ColumnX(cfg, i), DayFont(d, holidays))
  {
    if i < k - 1 {
      CommandsUpToAt(cfg, loc, holidays, month, k - 1, i);
    }
  }

  lemma {:induction false} CommandsUpToHeader(cfg: Layout, loc: Locale, holidays: set<Date>, month: Date, k: int)
    requires Valid(month) && 0 <= k <= DaysInMonth(month.year, month.month)
    ensures CommandsUpTo(cfg, loc, holidays, month, k)[..2] == HeaderCommands(cfg, loc, month)
  {
    if k > 0 {
      CommandsUpToHeader(cfg, loc, holidays, month, k - 1);
    }
  }

  /** The drawing of a month starts with the border rectangle and the month
      name, then holds two calls for each of its n days (n between 28 and 31). */
  lemma MonthHeader(cfg: Layout, loc: Locale, holidays: set<Date>, month: Date)
    requires Valid(month)
    ensures
      var cmds := MonthCommands(cfg, loc, holidays, month);
      var n := DaysInMonth(month.year, month.month);
      && 28 <= n <= 31
      && |cmds| == 2 + 2 * n
      && cmds[0] == FillRect(cfg.border, cfg.border, cfg.canvasWidth - cfg.border, cfg.canvasHeight - cfg.borderBottom)
      && cmds[1] == DrawText((cfg.canvasWidth - cfg.border) as real, FooterMiddle(cfg), loc.monthName(month), BoldBig, "rm", ScaleX, ScaleY)
  {
    var cmds := MonthCommands(cfg, loc, holidays, month);
    CommandsUpToHeader(cfg, loc, holidays, month, DaysInMonth(month.year, month.month));
    assert cmds[0] == cmds[..2][0] && cmds[1] == cmds[..2][1];
  }

  /** Column `i` holds day `i + 1`: its number anchored bottom-centre half the
      spacing above the footer middle, then its weekday label anchored
      top-centre half the spacing below it, at the same x and in the same font. */
  lemma DayColumn(cfg: Layout, loc: Locale, holidays: set<Date>, month: Date, i: int)
    requires Valid(month) && 0 <= i < DaysInMonth(month.year, month.month)
    ensures
      var cmds := MonthCommands(cfg, loc, holidays, month);
      var d := Date(month.year, month.month, i + 1);
      && |cmds| == 2 + 2 * DaysInMonth(month.year, month.month)
      && cmds[2 + 2 * i] == DrawText(ColumnX(cfg, i), FooterMiddle(cfg) - cfg.daysSpacing as real / 2.0,
                                     NatToString(i + 1), DayFont(d, holidays), "mb", ScaleX, ScaleY)
      && cmds[3 + 2 * i] == DrawText(ColumnX(cfg, i), FooterMiddle(cfg) + cfg.daysSpacing as real / 2.0,
                                     WeekdayLabel(loc.weekdayAbbrev(d)), DayFont(d, holidays), "mt", ScaleX, ScaleY)
  {
    CommandsUpToAt(cfg, loc, holidays, month, DaysInMonth(month.year, month.month), i);
  }

  /** Column `i` sits at `border + daysWidth / 2 + i * daysWidth`, whatever
      the accumulation in the loop, so neighbouring columns are exactly one
      column width apart. */
  lemma ColumnsEvenlySpaced(cfg: Layout, loc: Locale, holidays: set<Date>, month: Date, i: int)
    requires Valid(month) && 0 <= i < DaysInMonth(month.year, month.month) - 1
    ensures
      var cmds := MonthCommands(cfg, loc, holidays, month);
      && cmds[2 + 2 * i].DrawText? && cmds[2 + 2 * (i + 1)].DrawText?
      && cmds[2 + 2 * i].x == cfg.border as real + cfg.daysWidth as real / 2.0 + i as real * cfg.daysWidth as real
      && cmds[2 + 2 * (i + 1)].x - cmds[2 + 2 * i].x == cfg.daysWidth as real
  {
    var cmds := MonthCommands(cfg, loc, holidays, month);
    assert cmds[2 + 2 * i].DrawText? && cmds[2 + 2 * i].x == ColumnX(cfg, i) by {
      DayColumn(cfg, loc, holidays, month, i);
    }
    assert cmds[2 + 2 * (i + 1)].DrawText? && cmds[2 + 2 * (i + 1)].x == ColumnX(cfg, i + 1) by {
      DayColumn(cfg, loc, holidays, month, i + 1);
    }
    ColumnXClosedForm(cfg, i);
  }

  /** A day's number and label are bold exactly when the day is a holiday or
      a Sunday; a Sunday is bold whatever the holiday set, and so is every
      holiday whatever its weekday. */
  lemma EmphasisRule(cfg: Layout, loc: Locale, holidays: set<Date>, month: Date, i: int)
    requires Valid(month) && 0 <= i < DaysInMonth(month.year, month.month)
    ensures
      var cmds := MonthCommands(cfg, loc, holidays, month);
      var d := Date(month.year, month.month, i + 1);
      && cmds[2 + 2 * i].DrawText? && cmds[3 + 2 * i].DrawText?
      && (cmds[2 + 2 * i].font == Bold <==> d in holidays || Weekday(d) == Sunday)
      && cmds[3 + 2 * i].font == cmds[2 + 2 * i].font
  {
    DayColumn(cfg, loc, holidays, month, i);
  }

  /** Where a text command ends up, for the box the font measures for its
      text: `scale_text` as the code is written. */
  function Place(c: Command, bbox: BBox): (r: Result<Placement>)
    requires c.DrawText? && c.scaleX >= 0.0 && c.scaleY >= 0.0 && WellFormed(bbox)
  {
    ScaleText((c.x, c.y), bbox, (c.scaleX, c.scaleY), c.anchor)
  }

  lemma {:induction false} TextCommandsUpTo(cfg: Layout, loc: Locale, holidays: set<Date>, month: Date, k: int)
    requires Valid(month) && 0 <= k <= DaysInMonth(month.year, month.month)
    ensures forall c :: c in CommandsUpTo(cfg, loc, holidays, month, k) && c.DrawText? ==>
      ValidAnchor(c.anchor) && c.scaleX == ScaleX && c.scaleY == ScaleY
  {
    assert ValidAnchor("rm") && ValidAnchor("mb") && ValidAnchor("mt");
    if k > 0 {
      TextCommandsUpTo(cfg, loc, holidays, month, k - 1);
    }
  }

  /** Every text of the border uses one of the nine anchor codes and the
      scale (0.8, 1.4), so the unraised ValueError of `scale_text` never
      matters here. */
  lemma BorderAnchorsValid(cfg: Layout, loc: Locale, holidays: set<Date>, month: Date)
    requires Valid(month)
    ensures forall c :: c in MonthCommands(cfg, loc, holidays, month) && c.DrawText? ==>
      ValidAnchor(c.anchor) && c.scaleX == ScaleX && c.scaleY == ScaleY
  {
    TextCommandsUpTo(cfg, loc, holidays, month, DaysInMonth(month.year, month.month));
  }

  /** The month name's right edge meets the inner edge of the right border
      and its vertical centre is the footer middle; once the paste position
      is rounded, both are off by at most half a pixel. */
  lemma MonthNamePlacement(cfg: Layout, loc: Locale, holidays: set<Date>, month: Date, box: BBox)
    requires Valid(month) && WellFormed(box)
    ensures
      var c := MonthCommands(cfg, loc, holidays, month)[1];
      && c.DrawText? && c.font == BoldBig && c.text == loc.monthName(month)
      && c.scaleX == ScaleX && c.scaleY == ScaleY
      && Place(c, box).Ok?
      && Place(c, box).value.x + Place(c, box).value.width as real == (cfg.canvasWidth - cfg.border) as real
      && Place(c, box).value.y + Place(c, box).value.height as real / 2.0 == FooterMiddle(cfg)
      && var p := Place(c, box).value;
         var right := (cfg.canvasWidth - cfg.border) as real;
         && right - 0.5 <= p.pasteX as real + p.width as real <= right + 0.5
         && FooterMiddle(cfg) - 0.5 <= p.pasteY as real + p.height as real / 2.0 <= FooterMiddle(cfg) + 0.5
  {
    MonthHeader(cfg, loc, holidays, month);
    var c := MonthCommands(cfg, loc, holidays, month)[1];
    PastedAnchorWithinHalfPixel((c.x, c.y), box, (c.scaleX, c.scaleY), c.anchor);
  }

  /** In every column the number's bottom edge and the label's top edge are
      exactly the configured spacing apart, symmetric about the footer
      middle, and both are centred on the column. Once the paste positions
      are rounded, each edge and centre is off by at most half a pixel, so
      the pasted gap is within one pixel of the spacing. */
  lemma NumberAndLabelGap(cfg: Layout, loc: Locale, holidays: set<Date>, month: Date, i: int, numberBox: BBox, labelBox: BBox)
    requires Valid(month) && 0 <= i < DaysInMonth(month.year, month.month)
    requires WellFormed(numberBox) && WellFormed(labelBox)
    ensures
      var cmds := MonthCommands(cfg, loc, holidays, month);
      && cmds[2 + 2 * i].DrawText? && cmds[3 + 2 * i].DrawText?
      && cmds[2 + 2 * i].scaleX == ScaleX && cmds[2 + 2 * i].scaleY == ScaleY
      && cmds[3 + 2 * i].scaleX == ScaleX && cmds[3 + 2 * i].scaleY == ScaleY
      && Place(cmds[2 + 2 * i], numberBox).Ok? && Place(cmds[3 + 2 * i], labelBox).Ok?
      && var num := Place(cmds[2 + 2 * i], numberBox).value;
         var lab := Place(cmds[3 + 2 * i], labelBox).value;
         && num.y + num.height as real == FooterMiddle(cfg) - cfg.daysSpacing as real / 2.0
         && lab.y == FooterMiddle(cfg) + cfg.daysSpacing as real / 2.0
         && lab.y - (num.y + num.height as real) == cfg.daysSpacing as real
         && num.x + num.width as real / 2.0 == ColumnX(cfg, i)
         && lab.x + lab.width as real / 2.0 == ColumnX(cfg, i)
         && var top := FooterMiddle(cfg) - cfg.daysSpacing as real / 2.0;
            var bottom := FooterMiddle(cfg) + cfg.daysSpacing as real / 2.0;
            && top - 0.5 <= num.pasteY as real + num.height as real <= top + 0.5
            && bottom - 0.5 <= lab.pasteY as real <= bottom + 0.5
            && cfg.daysSpacing as real - 1.0 <= lab.pasteY as real - (num.pasteY as real + num.height as real) <= cfg.daysSpacing as real + 1.0
            && ColumnX(cfg, i) - 0.5 <= num.pasteX as real + num.width as real / 2.0 <= ColumnX(cfg, i) + 0.5
            && ColumnX(cfg, i) - 0.5 <= lab.pasteX as real + lab.width as real / 2.0 <= ColumnX(cfg, i) + 0.5
  {
    DayColumn(cfg, loc, holidays, month, i);
    var cmds := MonthCommands(cfg, loc, holidays, month);
    var n, l := cmds[2 + 2 * i], cmds[3 + 2 * i];
    PastedAnchorWithinHalfPixel((n.x, n.y), numberBox, (n.scaleX, n.scaleY), n.anchor);
    PastedAnchorWithinHalfPixel((l.x, l.y), labelBox, (l.scaleX, l.scaleY), l.anchor);
  }

  // ---------------------------------------------------------------------
  // The logged list of bold days

  /** The bold days among 1..k are exactly the holidays and Sundays among
      them, each once, in strictly ascending order. */
  lemma {:induction false} BoldDaysExactly(y: int, m: int, holidays: set<Date>, k: int)
    requires ValidMonth(y, m) && 0 <= k <= DaysInMonth(y, m)
    ensures forall d :: d in BoldDays(y, m, holidays, k) <==>
      1 <= d <= k && IsEmphasized(Date(y, m, d), holidays)
    ensures forall a, b :: 0 <= a < b < |BoldDays(y, m, holidays, k)| ==>
      BoldDays(y, m, holidays, k)[a] < BoldDays(y, m, holidays, k)[b]
  {
    if k > 0 {
      BoldDaysExactly(y, m, holidays, k - 1);
    }
  }

  /** `drawn_holidays` lists, as strings and in ascending order, exactly the
      days of the month that are holidays or Sundays. */
  lemma DrawnHolidaysExactly(holidays: set<Date>, month: Date)
    requires Valid(month)
    ensures
      var n := DaysInMonth(month.year, month.month);
      var days := BoldDays(month.year, month.month, holidays, n);
      var drawn := DrawnHolidays(holidays, month);
      && |drawn| == |days|
      && (forall j :: 0 <= j < |days| ==> drawn[j] == NatToString(days[j]))
      && (forall a, b :: 0 <= a < b < |days| ==> days[a] < days[b])
      && (forall d :: d in days <==>
            1 <= d <= n && (Date(month.year, month.month, d) in holidays || Weekday(Date(month.year, month.month, d)) == Sunday))
  {
    BoldDaysExactly(month.year, month.month, holidays, DaysInMonth(month.year, month.month));
  }

  /** A stretch of days with no holiday and no Sunday adds nothing to the list. */
  lemma {:induction false} BoldDaysUnchanged(y: int, m: int, holidays: set<Date>, a: int, b: int)
    requires ValidMonth(y, m) && 0 <= a <= b <= DaysInMonth(y, m)
    requires forall d :: a < d <= b ==> !IsEmphasized(Date(y, m, d), holidays)
    ensures BoldDays(y, m, holidays, b) == BoldDays(y, m, holidays, a)
  {
    if a < b {
      BoldDaysUnchanged(y, m, holidays, a, b - 1);
    }
  }

  lemma April2024Weekday(d: int)
    requires 1 <= d <= 30
    ensures Weekday(Date(2024, 4, d)) == (d + 6) % 7
  {
    assert DaysBeforeYear(2024) == 738885;
    assert Ordinal(Date(2024, 4, d)) == 7 * 105568 + d;
  }

  /** April 2024 has 30 days and starts on a Monday; with the 1st as the
      only holiday, exactly the 1st and the Sundays (the multiples of 7) are
      emphasized. */
  lemma April2024Emphasis()
    ensures DaysInMonth(2024, 4) == 30
    ensures Weekday(Date(2024, 4, 1)) == 0
    ensures forall d :: 1 <= d <= 30 ==>
      (IsEmphasized(Date(2024, 4, d), {Date(2024, 4, 1)}) <==> d in {1, 7, 14, 21, 28})
  {
    forall d | 1 <= d <= 30
      ensures IsEmphasized(Date(2024, 4, d), {Date(2024, 4, 1)}) <==> d in {1, 7, 14, 21, 28}
    {
      April2024Weekday(d);
      assert (d + 6) % 7 == 6 <==> d % 7 == 0;
    }
    April2024Weekday(1);
  }

  /** Across a stretch with nothing emphasized before day `b`, the list
      grows by `b` alone if `b` is emphasized. */
  lemma BoldDaysNextEmphasized(y: int, m: int, holidays: set<Date>, a: int, b: int)
    requires ValidMonth(y, m) && 0 <= a < b <= DaysInMonth(y, m)
    requires forall d :: a < d < b ==> !IsEmphasized(Date(y, m, d), holidays)
    ensures BoldDays(y, m, holidays, b)
         == BoldDays(y, m, holidays, a) + (if IsEmphasized(Date(y, m, b), holidays) then [b] else [])
  {
    BoldDaysUnchanged(y, m, holidays, a, b - 1);
    assert BoldDays(y, m, holidays, b)
        == BoldDays(y, m, holidays, b - 1) + (if IsEmphasized(Date(y, m, b), holidays) then [b] else []);
  }

  /** With the 1st as the only holiday, the bold days of April 2024 are the
      1st and the four Sundays. */
  lemma April2024()
    ensures BoldDays(2024, 4, {Date(2024, 4, 1)}, 30) == [1, 7, 14, 21, 28]
  {
    var h := {Date(2024, 4, 1)};
    April2024Emphasis();
    assert BoldDays(2024, 4, h, 1) == [1];
    BoldDaysNextEmphasized(2024, 4, h, 1, 7);
    BoldDaysNextEmphasized(2024, 4, h, 7, 14);
    BoldDaysNextEmphasized(2024, 4, h, 14, 21);
    BoldDaysNextEmphasized(2024, 4, h, 21, 28);
    BoldDaysNextEmphasized(2024, 4, h, 28, 30);
  }
}
