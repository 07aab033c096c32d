# Calendar border generator — a Dafny model

The calendar generator draws one border image per month of a year. Each image has:

- a filled rectangle;
- the German month name, right-aligned in a footer band;
- a row of day columns, each holding the day number above an upper-cased weekday abbreviation.

Sundays and public holidays are set in bold, and the bold day numbers are logged.

This project models the arithmetic and control flow behind those images:

- `scale_text` (`text_placement.dfy`): a text's measured bounding box is resized by a pair of scale factors with Python's `round`. The box is then placed so that the reference point named by the two-letter anchor lands on the target point. The result is the paste position and the new size; pixels are not modelled.
- `draw_month` (`month_border.dfy`): the method `DrawMonth` walks the dates of a month from the 1st until the month changes. It appends abstract drawing commands (`FillRect`, `DrawText`) and the list of bold day numbers. It is proved against the specification functions `MonthCommands` and `DrawnHolidays`. Lemmas about those functions state the layout:
  - the number of columns;
  - the spacing of the columns;
  - the bold rule;
  - the anchors;
  - the gap between the number and the label.
- The month loop of `main` (`year_render.dfy`): months 1 to 12 of a year, each saved as `{year}_{month}.png`.
- Supporting pieces, each in its own module:
  - Python's `round` (`rounding.dfy`);
  - `str` on a non-negative integer (`decimal.dfy`);
  - the parts of `datetime.date` the loop relies on (`calendar.dfy`): days in a month, the ordinal, `weekday()` with Monday = 0 and Sunday = 6, and adding one day, which overflows after 9999-12-31.

Coordinates are real numbers. `w / 2` and `DAYS_WIDTH / 2` are therefore exact.

Two behaviours of the code are modelled as written:

- A bad anchor letter does not stop `scale_text`. The code builds a `ValueError` and never raises it. See "Findings".
- For year 9999 the code saves January to November, then fails while drawing December, because stepping past 9999-12-31 overflows. `YearRender.RenderYear` returns those eleven saved images together with the failure.

## Model

| member | source | states |
|---|---|---|
| Rounding.RoundHalfEven | main.py:40 | `round(v)` lies within one half of `v`; when it lies exactly one half away it is even (ties to even) |
| Rounding.RoundHalfEvenUnique | main.py:40 | those two properties determine `round(v)` uniquely |
| Rounding.RoundHalfEvenMonotone | main.py:40 | rounding preserves order |
| TextPlacement.ScaledExtent | main.py:34-41 | the resized extent `round(w * s)` is a non-negative size within half a pixel of `w * s`, and equals `w` at scale 1 |
| TextPlacement.ScaleText | main.py:34-61 | an anchor that is not two characters fails to unpack; otherwise: the size is the two scaled extents; for `m` or `r` the box's centre or right edge lands on the target x; for `m` or `b` its middle or bottom lands on the target y; any other letter leaves the coordinate unchanged; the paste position is the exact corner rounded half to even |
| TextPlacement.PastedAnchorWithinHalfPixel | main.py:43-64 | after the paste position is rounded, the anchor's reference point of the pasted box is within half a pixel of the target on both axes |
| TextPlacement.ScaledExtentMonotone | main.py:40 | a larger scale factor never gives a smaller resized extent |
| TextPlacement.ScaledSizeMonotone | main.py:40-45 | a larger horizontal or vertical factor never shrinks the box, and each factor leaves the other dimension unchanged |
| TextPlacement.UnknownLettersActAsLeftTop | main.py:46-61 | an unknown horizontal letter gives the same result as `l`, and an unknown vertical letter the same as `t`: the unraised error changes nothing |
| TextPlacement.BadAnchorStillDraws | main.py:43-64 | anchor "xx" still yields a placement, at the target point, as if it were "lt" |
| TextPlacement.ScaleTextChecked | main.py:43-61 | corrected version: it fails exactly on anchors outside the nine codes `l/m/r` by `t/m/b`, and for the nine codes agrees with the code as written |
| Calendar.DaysInMonth | main.py:97-98 | a month has 28 to 31 days; February has 29 exactly in a leap year |
| Calendar.Ordinal | main.py:100 | `toordinal()` of a valid date is at least 1 |
| Calendar.FirstDayIsDayOne | main.py:100 | 0001-01-01 is day 1 of the ordinal count |
| Calendar.Weekday | main.py:100 | `weekday()` is between 0 and 6 |
| Calendar.NextDay | main.py:127 | adding a day fails exactly at 9999-12-31 and otherwise gives a valid date |
| Calendar.NextDayOrdinal | main.py:127 | the next date's ordinal is one more, across month and year ends and leap days |
| Calendar.NextDayWeekday | main.py:100 | the weekday advances by one, Sunday wrapping round to Monday |
| Calendar.FirstDayIsMonday | main.py:100 | 0001-01-01 is weekday 0 (Monday), fixing the convention in which Sunday is 6 |
| Decimal.NatToString | main.py:104 | `str(n)` is a non-empty string of digits; only `str(0)` starts with '0'; it has one digit exactly when n < 10 |
| Decimal.ParseNatToString | main.py:104 | reading `str(n)` back as decimal gives n |
| Decimal.NatToStringInjective | main.py:167 | distinct numbers have distinct strings |
| MonthBorder.ColumnXClosedForm | main.py:96-126 | the x the loop accumulates (`BORDER + DAYS_WIDTH/2`, then `+= DAYS_WIDTH` per day) equals `BORDER + DAYS_WIDTH/2 + i*DAYS_WIDTH` for column i |
| MonthBorder.WeekdayLabel | main.py:120 | `abbrev[:-1].upper()`: an empty abbreviation gives an empty label; otherwise the label is one character shorter, and each character is the upper-cased character at the same position: a lower-case letter becomes its capital, anything else is unchanged |
| MonthBorder.WeekdayLabelExample | main.py:120 | the abbreviation "Mo." becomes the label "MO" |
| MonthBorder.CommandsUpTo | main.py:78-126 | after k days, 2 + 2k drawing calls have been made: two for the header and two per day |
| MonthBorder.BoldDays | main.py:103-104 | the bold days logged after k days are at most k numbers, each between 1 and k |
| MonthBorder.DayLoopStep | main.py:99-126 | one iteration appends the number call and then the label call at the current x in the day's font, logs the day exactly when that font is bold, and moves x on by one column width |
| MonthBorder.NextDayInMonth | main.py:98-127 | stepping a date stays in the month until its last day; after that the month changes, or the step overflows in December 9999 |
| MonthBorder.DrawMonth | main.py:70-131 | drawing a month gives exactly the header plus a number and a label per day in ascending day order, and the list of bold days; December 9999 fails with the overflow instead |
| MonthBorder.MonthHeader | main.py:78-92 | the drawing starts with the border rectangle `(BORDER, BORDER, W - BORDER, H - BORDER_BOTTOM)` and the month name in the big font, anchored `rm` at `(W - BORDER, footer_middle)` with scale (0.8, 1.4); it then holds two calls for each of the month's 28 to 31 days |
| MonthBorder.DayColumn | main.py:96-125 | column i holds day i + 1: its number anchored `mb` at `footer_middle - DAYS_SPACING/2`, then its weekday label anchored `mt` at `footer_middle + DAYS_SPACING/2`, both at the column's x, in the same font, with scale (0.8, 1.4) |
| MonthBorder.ColumnsEvenlySpaced | main.py:96-126 | column i sits at `BORDER + DAYS_WIDTH/2 + i*DAYS_WIDTH`, and neighbouring columns are exactly `DAYS_WIDTH` apart |
| MonthBorder.DayFont | main.py:100 | a day is set in `Bold` exactly when it is a holiday or a Sunday, and otherwise in `Regular`, never in the big month-name font |
| MonthBorder.EmphasisRule | main.py:100-125 | a day's number is bold exactly when the date is a holiday or a Sunday, and its label uses the same font |
| MonthBorder.BorderAnchorsValid | main.py:84-125 | every text of the border uses one of the nine anchor codes and the scale (0.8, 1.4) |
| MonthBorder.MonthNamePlacement | main.py:82-92 | for any measured box, before rounding the month name's right edge is at `W - BORDER` and its vertical centre is `footer_middle`; after the paste position is rounded, each is within half a pixel of that |
| MonthBorder.NumberAndLabelGap | main.py:106-125 | for any measured boxes, before rounding the number's bottom and the label's top are exactly `DAYS_SPACING` apart, symmetric about `footer_middle`, and both are centred on the column; after the paste positions are rounded, each edge and centre is within half a pixel of that, so the pasted gap is within one pixel of `DAYS_SPACING` |
| MonthBorder.BoldDaysExactly | main.py:100-104 | the logged days among 1..k are exactly the holidays and Sundays, each once, in strictly ascending order |
| MonthBorder.DrawnHolidaysExactly | main.py:95-104 | `drawn_holidays` holds, as strings and in ascending order, exactly the month's holidays and Sundays |
| MonthBorder.April2024Emphasis | main.py:100 | April 2024 has 30 days and starts on a Monday; with the 1st as the only holiday, exactly the 1st, 7th, 14th, 21st and 28th are emphasized |
| MonthBorder.April2024 | main.py:95-104 | with the 1st as the only holiday, the bold days of April 2024 are 1, 7, 14, 21 and 28 |
| YearRender.FileName | main.py:167 | `{year}_{month}.png` is `str(year)`, an underscore, `str(month)` and ".png"; reading the two fields back as decimal gives the year and the month |
| YearRender.MonthImagesAt | main.py:165-167 | the i-th of the first k saved files is month i + 1 of the year, under its own file name with that month's drawing |
| YearRender.FileNameInjective | main.py:167 | different (year, month) pairs never share a file name, so no month overwrites another |
| YearRender.RenderYear | main.py:165-167 | a year outside 1..9999 saves nothing and fails; a year below 9999 saves exactly months 1 to 12, in order, each under its own name with that month's drawing; year 9999 saves months 1 to 11 and then fails with the overflow |

## Left out

- Raster work is not modelled: creating, drawing, resizing, pasting and saving images, and the font's bounding-box measurement. The bounding box is an input, and drawing calls are recorded as commands.
- How the imaging library treats a resize to a zero width or height is not modelled; `ScaleText` simply returns the zero size.
- TextPlacement.ScaleText: requires a well-formed box (right >= left, bottom >= top) and non-negative scale factors. The code raises in `Image.new` (main.py:36) for an inverted box and in `resize` (main.py:41) for a negative size, and those raises are not modelled. The font measurement and every call site (scale 0.8 by 1.4) rule both cases out.
- Localisation is not modelled. The month name and weekday abbreviation come from the date-formatting library; they are function parameters of `Locale`.
- MonthBorder.WeekdayLabel: `[:-1].upper()` is modelled with ASCII-only upper-casing, because Unicode case mapping is not modelled.
- Holidays are not computed: the country's holiday calendar is an abstract set of dates.
- Configuration, I/O and process plumbing are not modelled: reading the settings file, resource paths, creating or checking the output directory, console prompts, the exception hook and exit codes. Layout values are a `Layout` parameter.
- Colour is not modelled: neither the font colour nor the rectangle's `fill=0` (main.py:79), since `FillRect` carries no colour. Colour has no effect on positions.
- Logging calls are not modelled. The `drawn_holidays` list that one of them prints is modelled.
- Floating-point rounding error is not modelled. Coordinates and scale products are exact reals, so `round` sees the exact product. Python sees the nearest double of, for example, `w * 0.8`.

## Findings

| source | as written | input that shows it | evidently intended | confidence | as-written member | corrected member |
|---|---|---|---|---|---|---|
| main.py:52-53 | an unknown anchor letter builds a `ValueError` that is never raised; the drawing continues as for `l` (and, at main.py:60-61, as for `t`) | anchor "xx" with box (0, 0, 4, 6), scale (1, 1) and target (10, 20) pastes a 4 by 6 box at (10, 20) | reject an anchor outside the nine codes before anything is pasted | high; not executed | TextPlacement.BadAnchorStillDraws | TextPlacement.ScaleTextChecked |
