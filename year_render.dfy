/** The loop of `main` that draws the twelve months of a year and saves each
    one as `{year}_{month}.png` (main.py:165-167). Writing the file is
    recorded as a saved (name, drawing) pair. */
module YearRender {
  import opened Errors
  import opened Calendar
  import opened Decimal
  import opened MonthBorder

  /** `f"{year}_{month}.png"`: both numbers unpadded. */
  function FileName(year: nat, month: nat): (name: string)
    ensures |name| == |NatToString(year)| + 1 + |NatToString(month)| + 4
    ensures name[|NatToString(year)|] == '_' && name[|name| - 4..] == ".png"
    ensures name[..|NatToString(year)|] == NatToString(year)
    ensures name[|NatToString(year)| + 1..|name| - 4] == NatToString(month)
    ensures ParseDigits(name[..|NatToString(year)|]) == year
    ensures ParseDigits(name[|NatToString(year)| + 1..|name| - 4]) == month
  {
    ParseNatToString(year);
    ParseNatToString(month);
    NatToString(year) + "_" + NatToString(month) + ".png"
  }

  datatype SavedImage = SavedImage(name: string, drawing: MonthDrawing)

  /** Different (year, month) pairs never share a file name, so no month
      overwrites another. */
  lemma FileNameInjective(y1: nat, m1: nat, y2: nat, m2: nat)
    requires FileName(y1, m1) == FileName(y2, m2)
    ensures y1 == y2 && m1 == m2
  {
    var a1, a2 := NatToString(y1), NatToString(y2);
    var b1, b2 := NatToString(m1), NatToString(m2);
    var s := FileName(y1, m1);
    assert s == FileName(y2, m2);
    assert |a1| == |a2|;
    assert a1 == s[..|a1|] == a2;
    assert b1 == s[|a1| + 1..|s| - 4] == b2;
    NatToStringInjective(y1, y2);
    NatToStringInjective(m1, m2);
  }

  /** The file saved for month `m` of `year`: its name and the drawing of
      that month. */
  function MonthImage(cfg: Layout, loc: Locale, holidays: set<Date>, year: int, m: int): (s: SavedImage)
    requires MinYear <= year <= MaxYear && 1 <= m <= 12
  {
    SavedImage(FileName(year, m),
               MonthDrawing(MonthCommands(cfg, loc, holidays, Date(year, m, 1)),
                            DrawnHolidays(holidays, Date(year, m, 1))))
  }

  /** The files saved for months 1 to `k` of `year`, in month order. */
  function MonthImages(cfg: Layout, loc: Locale, holidays: set<Date>, year: int, k: nat): (s: seq<SavedImage>)
    requires MinYear <= year <= MaxYear && k <= 12
    ensures |s| == k
  {
    if k == 0 then [] else MonthImages(cfg, loc, holidays, year, k - 1) + [MonthImage(cfg, loc, holidays, year, k)]
  }

  /** Saving the drawing of month `m` extends the files of the months before it. */
  lemma MonthImagesSnoc(cfg: Layout, loc: Locale, holidays: set<Date>, year: int, m: int, drawing: MonthDrawing)
    requires MinYear <= year <= MaxYear && 1 <= m <= 12
    requires drawing == MonthDrawing(MonthCommands(cfg, loc, holidays, Date(year, m, 1)),
                                     DrawnHolidays(holidays, Date(year, m, 1)))
    ensures MonthImages(cfg, loc, holidays, year, m - 1) + [SavedImage(FileName(year, m), drawing)]
         == MonthImages(cfg, loc, holidays, year, m)
  {
  }

  /** The `i`-th file of the first `k` is the one for month `i + 1`. */
  lemma {:induction false} MonthImagesAt(cfg: Layout, loc: Locale, holidays: set<Date>, year: int, k: nat)
    requires MinYear <= year <= MaxYear && k <= 12
    ensures forall i :: 0 <= i < k ==>
      MonthImages(cfg, loc, holidays, year, k)[i] == MonthImage(cfg, loc, holidays, year, i + 1)
  {
    if k > 0 {
      MonthImagesAt(cfg, loc, holidays, year, k - 1);
      var before := MonthImages(cfg, loc, holidays, year, k - 1);
      var all := MonthImages(cfg, loc, holidays, year, k);
      assert all == before + [MonthImage(cfg, loc, holidays, year, k)];
      forall i | 0 <= i < k
        ensures all[i] == MonthImage(cfg, loc, holidays, year, i + 1)
      {
        if i < k - 1 {
          assert all[i] == before[i];
        }
      }
    }
  }

  /** The month loop of `main`: months 1 to 12 in order, each drawn and saved
      before the next is started. A year outside 1..9999 fails at once when
      the first date is built; in year 9999 December overflows after the
      first eleven files have been written. */
  method RenderYear(cfg: Layout, loc: Locale, holidays: set<Date>, year: int)
    returns (saved: seq<SavedImage>, failure: Option<Error>)
    ensures !(MinYear <= year <= MaxYear) ==> saved == [] && failure == Some(DateOutOfRange)
    ensures year == MaxYear ==> |saved| == 11 && failure == Some(DateOverflow)
    ensures MinYear <= year < MaxYear ==> |saved| == 12 && failure == None
    ensures forall i :: 0 <= i < |saved| ==>
      MinYear <= year <= MaxYear && i + 1 <= 12 && saved[i] == MonthImage(cfg, loc, holidays, year, i + 1)
  {
    saved := [];
    for month := 1 to 13
      invariant |saved| == month - 1
      invariant month > 1 ==> MinYear <= year <= MaxYear
      invariant MinYear <= year <= MaxYear ==> saved == MonthImages(cfg, loc, holidays, year, month - 1)
      invariant year == MaxYear ==> month <= 12
    {
      if !(MinYear <= year <= MaxYear) {
        return [], Some(DateOutOfRange);
      }
      var drawn := DrawMonth(cfg, loc, holidays, Date(year, month, 1));
      if drawn.Err? {
        MonthImagesAt(cfg, loc, holidays, year, month - 1);
        return saved, Some(drawn.error);
      }
      MonthImagesSnoc(cfg, loc, holidays, year, month, drawn.value);
      saved := saved + [SavedImage(FileName(year, month), drawn.value)];
    }
    MonthImagesAt(cfg, loc, holidays, year, 12);
    failure := None;
  }
}
