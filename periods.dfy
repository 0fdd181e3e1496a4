/** The three horizon rules that map a survey vintage (year, quarter) to the
    label of the period whose forecasts are kept.  A label is kept as a
    structured `Period` (its year part and its month or quarter tag); its
    `Text()` is the string that is compared with the TARGET_PERIOD cells of the
    survey files, character for character. */
module Periods {
  import opened Wrappers
  import opened Decimal

  /** `quarter_order` */
  const QUARTER_ORDER: seq<string> := ["Q1", "Q2", "Q3", "Q4"]

  datatype Quarter = Q1 | Q2 | Q3 | Q4 {
    /** The position of the quarter in `quarter_order`. */
    function Index(): (i: nat)
      ensures i < 4
    {
      match this
      case Q1 => 0
      case Q2 => 1
      case Q3 => 2
      case Q4 => 3
    }

    /** The dictionary key of the quarter, also its tag in GDP labels. */
    function Key(): string {
      QUARTER_ORDER[Index()]
    }
  }

  function QuarterAt(i: nat): (q: Quarter)
    requires i < 4
    ensures q.Index() == i
  {
    if i == 0 then Q1 else if i == 1 then Q2 else if i == 2 then Q3 else Q4
  }

  datatype Month = Jan | Feb | Mar | Apr | May | Jun | Jul | Aug | Sep | Oct | Nov | Dec {
    /** 0 for January up to 11 for December. */
    function Index(): (i: nat)
      ensures i < 12
    {
      match this
      case Jan => 0 case Feb => 1 case Mar => 2 case Apr => 3
      case May => 4 case Jun => 5 case Jul => 6 case Aug => 7
      case Sep => 8 case Oct => 9 case Nov => 10 case Dec => 11
    }

    /** The three-letter abbreviation used in the labels. */
    function Abbrev(): (s: string)
      ensures |s| == 3
    {
      match this
      case Jan => "Jan" case Feb => "Feb" case Mar => "Mar" case Apr => "Apr"
      case May => "May" case Jun => "Jun" case Jul => "Jul" case Aug => "Aug"
      case Sep => "Sep" case Oct => "Oct" case Nov => "Nov" case Dec => "Dec"
    }
  }

  function MonthAt(i: nat): (m: Month)
    requires i < 12
    ensures m.Index() == i
  {
    [Jan, Feb, Mar, Apr, May, Jun, Jul, Aug, Sep, Oct, Nov, Dec][i]
  }

  /** The year part of a label: `str(n)` of a computed year, or the year text of
      the file name copied as it is. */
  datatype YearText = Number(n: nat) | Verbatim(text: string) {
    function Text(): string {
      match this
      case Number(n) => Render(n)
      case Verbatim(t) => t
    }
  }

  /** The part of a label after the year: a month abbreviation or a quarter key. */
  datatype Tag = MonthTag(month: Month) | QuarterTag(quarter: Quarter) {
    function Text(): string {
      match this
      case MonthTag(m) => m.Abbrev()
      case QuarterTag(q) => q.Key()
    }
  }

  /** A target period label: `f"{year}{tag}"`. */
  datatype Period = Period(year: YearText, tag: Tag) {
    function Text(): string {
      year.Text() + tag.Text()
    }
  }

  /** `quarter_order.index(key)`, or a lookup of `key` among the keys of one of
      the quarter tables: None where Python raises ValueError or KeyError.  The
      key is compared character by character, which is string equality with
      "Q1" ... "Q4". */
  function QuarterOfKey(key: string): (r: Option<Quarter>)
    ensures r.Some? ==> r.value.Key() == key
  {
    if |key| != 2 || key[0] != 'Q' then None
    else if key[1] == '1' then Some(Q1)
    else if key[1] == '2' then Some(Q2)
    else if key[1] == '3' then Some(Q3)
    else if key[1] == '4' then Some(Q4)
    else None
  }

  /** Exactly the four keys of `quarter_order` are found. */
  lemma QuarterOfKeyFinds(key: string)
    ensures QuarterOfKey(key).Some? <==> key in QUARTER_ORDER
  {
    if key in QUARTER_ORDER {
      var i :| 0 <= i < 4 && QUARTER_ORDER[i] == key;
      assert key == QuarterAt(i).Key();
    }
  }

  /** Every quarter is found again from its key. */
  lemma QuarterOfKeyInverse(q: Quarter)
    ensures QuarterOfKey(q.Key()) == Some(q)
  {
  }

  /** The quarter that the digit after the Q of a file name selects: quarter
      "1" is Q1 and so on; any other text selects none. */
  lemma QuarterOfDigit(quarter: string)
    ensures QuarterOfKey("Q" + quarter).Some? <==> |quarter| == 1 && '1' <= quarter[0] <= '4'
    ensures QuarterOfKey("Q" + quarter).Some? ==> QuarterOfKey("Q" + quarter).value.Index() == quarter[0] as int - '1' as int
  {
    var key := "Q" + quarter;
    assert |key| == 2 ==> quarter == [key[1]];
  }

  /** compute_target_period's `quarter_to_month`: the last month of each quarter. */
  function QuarterEndMonth(q: Quarter): Month {
    match q
    case Q1 => Mar
    case Q2 => Jun
    case Q3 => Sep
    case Q4 => Dec
  }

  /** merge_datasets_GDP's `quarter_to_next_qtr`. */
  function GdpTargetQuarter(q: Quarter): Quarter {
    match q
    case Q1 => Q3
    case Q2 => Q4
    case Q3 => Q1
    case Q4 => Q2
  }

  /** compute_target_period_unemployment's `quarter_to_month`. */
  function UnemploymentMonth(q: Quarter): Month {
    match q
    case Q1 => Nov
    case Q2 => Feb
    case Q3 => May
    case Q4 => Aug
  }

  /** compute_target_period: three quarters ahead, labelled by the last month of
      the target quarter.  `quarter` is the digit after the Q of the file name;
      any other text makes `quarter_order.index` raise, modelled as None. */
  function InflationTargetPeriod(year: string, quarter: string): (r: Option<Period>)
    requires IsNumeral(year)
    ensures r.Some? <==> |quarter| == 1 && '1' <= quarter[0] <= '4'
    ensures r.Some? ==> r.value.year.Number? && r.value.tag.MonthTag?
    ensures r.Some? ==> r.value.tag.month in {Mar, Jun, Sep, Dec}
  {
    QuarterOfDigit(quarter);
    match QuarterOfKey("Q" + quarter)
    case None => None
    case Some(q) =>
      var current := q.Index();
      var target := (current + 3) % 4;
      var targetYear := Value(year) + (current + 3) / 4;
      Some(Period(Number(targetYear), MonthTag(QuarterEndMonth(QuarterAt(target)))))
  }

  /** The GDP rule of merge_datasets_GDP: Q1 and Q2 target Q3 and Q4 of the same
      year, Q3 and Q4 target Q1 and Q2 of the next.  `quarter` is "Q" followed by
      what the file name leaves after the Q once `.csv` is cut off; text that is
      not a key of the table raises KeyError, modelled as None. */
  function GdpTargetPeriod(year: string, quarter: string): (r: Option<Period>)
    requires IsNumeral(year)
    ensures r.Some? <==> QuarterOfKey(quarter).Some?
    ensures r.Some? ==> r.value.year.Number? && r.value.tag.QuarterTag?
  {
    // `quarter in ['Q3', 'Q4']`
    var secondHalf := QuarterOfKey(quarter) == Some(Q3) || QuarterOfKey(quarter) == Some(Q4);
    var nextYear := Value(year) + (if secondHalf then 1 else 0);
    match QuarterOfKey(quarter)
    case None => None
    case Some(q) => Some(Period(Number(nextYear), QuarterTag(GdpTargetQuarter(q))))
  }

  /** compute_target_period_unemployment: fixed month offsets.  Q1 keeps the year
      text exactly as given; the other quarters go through `str(int(year) + 1)`. */
  function UnemploymentTargetPeriod(year: string, quarter: string): (r: Option<Period>)
    requires IsNumeral(year)
    ensures r.Some? <==> QuarterOfKey(quarter).Some?
    ensures r.Some? ==> r.value.tag.MonthTag? && r.value.tag.month in {Nov, Feb, May, Aug}
  {
    match QuarterOfKey(quarter)
    case None => None
    case Some(q) =>
      // `quarter == 'Q1'`: the key found is "Q1" exactly when q is Q1
      var targetYear := if q == Q1 then Verbatim(year) else Number(Value(year) + 1);
      Some(Period(targetYear, MonthTag(UnemploymentMonth(q))))
  }

  // ----- Reference definitions: the rules as offsets on the calendar -----

  /** The period `k` months after month `m` (0 for January) of `year`. */
  function MonthsLater(year: nat, m: nat, k: nat): Period
    requires m < 12
  {
    Period(Number(year + (m + k) / 12), MonthTag(MonthAt((m + k) % 12)))
  }

  /** The period `k` quarters after quarter `q` of `year`. */
  function QuartersLater(year: nat, q: Quarter, k: nat): Period
  {
    Period(Number(year + (q.Index() + k) / 4), QuarterTag(QuarterAt((q.Index() + k) % 4)))
  }

  /** The digit that follows the Q in the file name of a vintage. */
  function QuarterDigit(q: Quarter): (d: string)
    ensures "Q" + d == q.Key()
  {
    match q
    case Q1 => "1"
    case Q2 => "2"
    case Q3 => "3"
    case Q4 => "4"
  }

  /** compute_target_period labels the month nine months after the last month
      of the survey quarter, which closes the quarter three quarters ahead. */
  lemma InflationIsNineMonthsAfterQuarterEnd(year: string, q: Quarter)
    requires IsNumeral(year)
    ensures InflationTargetPeriod(year, QuarterDigit(q)) == Some(MonthsLater(Value(year), 3 * q.Index() + 2, 9))
  {
    QuarterOfDigit(QuarterDigit(q));
  }

  /** The GDP rule labels the quarter two quarters after the survey quarter. */
  lemma GdpIsTwoQuartersAhead(year: string, q: Quarter)
    requires IsNumeral(year)
    ensures GdpTargetPeriod(year, q.Key()) == Some(QuartersLater(Value(year), q, 2))
  {
  }

  /** compute_target_period, quarter by quarter: Q1 targets December of the
      same year, Q2 to Q4 target March, June and September of the next. */
  lemma InflationQuarterTable(year: string)
    requires IsNumeral(year)
    ensures InflationTargetPeriod(year, "1") == Some(Period(Number(Value(year)), MonthTag(Dec)))
    ensures InflationTargetPeriod(year, "2") == Some(Period(Number(Value(year) + 1), MonthTag(Mar)))
    ensures InflationTargetPeriod(year, "3") == Some(Period(Number(Value(year) + 1), MonthTag(Jun)))
    ensures InflationTargetPeriod(year, "4") == Some(Period(Number(Value(year) + 1), MonthTag(Sep)))
  {
    QuarterOfDigit("1");
    QuarterOfDigit("2");
    QuarterOfDigit("3");
    QuarterOfDigit("4");
  }

  /** The GDP rule, quarter by quarter; the year moves on exactly for Q3 and Q4. */
  lemma GdpQuarterTable(year: string)
    requires IsNumeral(year)
    ensures GdpTargetPeriod(year, "Q1") == Some(Period(Number(Value(year)), QuarterTag(Q3)))
    ensures GdpTargetPeriod(year, "Q2") == Some(Period(Number(Value(year)), QuarterTag(Q4)))
    ensures GdpTargetPeriod(year, "Q3") == Some(Period(Number(Value(year) + 1), QuarterTag(Q1)))
    ensures GdpTargetPeriod(year, "Q4") == Some(Period(Number(Value(year) + 1), QuarterTag(Q2)))
  {
    QuarterOfKeyInverse(Q1);
    QuarterOfKeyInverse(Q2);
    QuarterOfKeyInverse(Q3);
    QuarterOfKeyInverse(Q4);
  }

  /** compute_target_period_unemployment, quarter by quarter. */
  lemma UnemploymentQuarterTable(year: string)
    requires IsNumeral(year)
    ensures UnemploymentTargetPeriod(year, "Q1") == Some(Period(Verbatim(year), MonthTag(Nov)))
    ensures UnemploymentTargetPeriod(year, "Q2") == Some(Period(Number(Value(year) + 1), MonthTag(Feb)))
    ensures UnemploymentTargetPeriod(year, "Q3") == Some(Period(Number(Value(year) + 1), MonthTag(May)))
    ensures UnemploymentTargetPeriod(year, "Q4") == Some(Period(Number(Value(year) + 1), MonthTag(Aug)))
  {
    QuarterOfKeyInverse(Q1);
    QuarterOfKeyInverse(Q2);
    QuarterOfKeyInverse(Q3);
    QuarterOfKeyInverse(Q4);
  }

  /** Two labels with the same year text and the same tag read the same. */
  lemma SameParts(p1: Period, p2: Period)
    requires p1.year.Text() == p2.year.Text() && p1.tag == p2.tag
    ensures p1.Text() == p2.Text()
  {
  }

  /** compute_target_period_unemployment labels the month ten months after the
      first month of the survey quarter.  For Q1 the year text is copied, so the
      label agrees with the calendar offset when the year is written as `str`
      writes it (no leading zero). */
  lemma UnemploymentIsTenMonthsAfterQuarterStart(year: string, q: Quarter)
    requires IsCanonical(year)
    ensures UnemploymentTargetPeriod(year, q.Key()).Some?
    ensures UnemploymentTargetPeriod(year, q.Key()).value.Text() == MonthsLater(Value(year), 3 * q.Index(), 10).Text()
  {
    QuarterOfKeyInverse(q);
    if q == Q1 {
      FirstQuarterTarget(year);
    } else {
      LaterQuarterTarget(year, q);
    }
  }

  /** Q1: the label copies the year text and names November of that year. */
  lemma FirstQuarterTarget(year: string)
    requires IsCanonical(year)
    ensures UnemploymentTargetPeriod(year, "Q1") == Some(Period(Verbatim(year), MonthTag(Nov)))
    ensures Period(Verbatim(year), MonthTag(Nov)).Text() == MonthsLater(Value(year), 0, 10).Text()
  {
    assert QuarterOfKey("Q1") == Some(Q1);
    var later := MonthsLater(Value(year), 0, 10);
    FromJanuary(Value(year));
    RenderValue(year);
    SameParts(Period(Verbatim(year), MonthTag(Nov)), later);
  }

  /** Ten months after January is November of the same year. */
  lemma FromJanuary(n: nat)
    ensures MonthsLater(n, 0, 10) == Period(Number(n), MonthTag(Nov))
  {
    assert MonthAt(10) == Nov;
  }

  /** Q2 to Q4: the label is the calendar offset itself. */
  lemma LaterQuarterTarget(year: string, q: Quarter)
    requires IsNumeral(year) && q != Q1
    ensures UnemploymentTargetPeriod(year, q.Key()) == Some(MonthsLater(Value(year), 3 * q.Index(), 10))
  {
    QuarterOfKeyInverse(q);
    assert 1 <= q.Index() <= 3;
  }

  // ----- Labels tell the vintages apart -----

  /** Different months have different abbreviations. */
  lemma AbbrevInjective(m1: Month, m2: Month)
    requires m1.Abbrev() == m2.Abbrev()
    ensures m1 == m2
  {
    assert m1.Abbrev()[0] == m2.Abbrev()[0] && m1.Abbrev()[1] == m2.Abbrev()[1] && m1.Abbrev()[2] == m2.Abbrev()[2];
  }

  /** A label whose year is a computed number, read back from its text: the
      text determines the year and the tag, once the kind of tag is known. */
  lemma {:induction false} TextInjective(p1: Period, p2: Period)
    requires p1.year.Number? && p2.year.Number? && p1.tag.MonthTag? == p2.tag.MonthTag?
    requires p1.Text() == p2.Text()
    ensures p1 == p2
  {
    var t := p1.Text();
    var n := |p1.tag.Text()|;
    assert n == |p2.tag.Text()|;
    assert p1.year.Text() == t[..|t| - n] == p2.year.Text();
    RenderInjective(p1.year.n, p2.year.n);
    assert p1.tag.Text() == t[|t| - n..] == p2.tag.Text();
    match p1.tag
    case MonthTag(m1) => AbbrevInjective(m1, p2.tag.month);
    case QuarterTag(q1) => QuarterOfKeyInverse(q1); QuarterOfKeyInverse(p2.tag.quarter);
  }

  /** Each inflation vintage has its own target period. */
  lemma InflationRuleInjective(y1: string, d1: string, y2: string, d2: string)
    requires IsNumeral(y1) && IsNumeral(y2)
    requires InflationTargetPeriod(y1, d1).Some?
    requires InflationTargetPeriod(y1, d1) == InflationTargetPeriod(y2, d2)
    ensures Value(y1) == Value(y2) && d1 == d2
  {
    QuarterOfDigit(d1);
    QuarterOfDigit(d2);
    var q1, q2 := QuarterOfKey("Q" + d1).value, QuarterOfKey("Q" + d2).value;
    var t1, t2 := (q1.Index() + 3) % 4, (q2.Index() + 3) % 4;
    assert QuarterEndMonth(QuarterAt(t1)) == QuarterEndMonth(QuarterAt(t2));
    assert QuarterAt(t1) == QuarterAt(t2);
    assert q1 == q2;
    assert d1 == [d1[0]] && d2 == [d2[0]];
  }

  /** Each GDP vintage has its own target period. */
  lemma GdpRuleInjective(y1: string, k1: string, y2: string, k2: string)
    requires IsNumeral(y1) && IsNumeral(y2)
    requires GdpTargetPeriod(y1, k1).Some?
    requires GdpTargetPeriod(y1, k1) == GdpTargetPeriod(y2, k2)
    ensures Value(y1) == Value(y2) && k1 == k2
  {
  }

  /** Each unemployment vintage has its own target period (as text, for years
      written without a leading zero). */
  lemma UnemploymentRuleInjective(y1: string, k1: string, y2: string, k2: string)
    requires IsCanonical(y1) && IsCanonical(y2)
    requires UnemploymentTargetPeriod(y1, k1).Some? && UnemploymentTargetPeriod(y2, k2).Some?
    requires UnemploymentTargetPeriod(y1, k1).value.Text() == UnemploymentTargetPeriod(y2, k2).value.Text()
    ensures y1 == y2 && k1 == k2
  {
    var q1, q2 := QuarterOfKey(k1).value, QuarterOfKey(k2).value;
    UnemploymentIsTenMonthsAfterQuarterStart(y1, q1);
    UnemploymentIsTenMonthsAfterQuarterStart(y2, q2);
    TextInjective(MonthsLater(Value(y1), 3 * q1.Index(), 10), MonthsLater(Value(y2), 3 * q2.Index(), 10));
    TenMonthsLaterInjective(Value(y1), q1, Value(y2), q2);
    RenderValue(y1);
    RenderValue(y2);
  }

  /** Ten months after the start of a quarter tells the quarter and the year. */
  lemma TenMonthsLaterInjective(y1: nat, q1: Quarter, y2: nat, q2: Quarter)
    requires MonthsLater(y1, 3 * q1.Index(), 10) == MonthsLater(y2, 3 * q2.Index(), 10)
    ensures y1 == y2 && q1 == q2
  {
    var m1, m2 := 3 * q1.Index(), 3 * q2.Index();
    assert MonthAt((m1 + 10) % 12).Index() == MonthAt((m2 + 10) % 12).Index();
    assert q1.Index() == q2.Index();
  }

  /** The inflation label of vintage 2020Q4. */
  lemma InflationExample()
    ensures InflationTargetPeriod("2020", "4") == Some(Period(Number(2021), MonthTag(Sep)))
    ensures Period(Number(2021), MonthTag(Sep)).Text() == "2021Sep"
  {
    ValueFourDigits("2020");
    QuarterOfDigit("4");
  }

  /** The GDP labels of vintages 2021Q1 and 2021Q3. */
  lemma GdpExample()
    ensures GdpTargetPeriod("2021", "Q1") == Some(Period(Number(2021), QuarterTag(Q3)))
    ensures GdpTargetPeriod("2021", "Q3") == Some(Period(Number(2022), QuarterTag(Q1)))
    ensures Period(Number(2022), QuarterTag(Q1)).Text() == "2022Q1"
  {
    ValueFourDigits("2021");
  }

  /** The unemployment labels of the four vintages of 2021. */
  lemma UnemploymentExample()
    ensures UnemploymentTargetPeriod("2021", "Q1").value.Text() == "2021Nov"
    ensures UnemploymentTargetPeriod("2021", "Q2") == Some(Period(Number(2022), MonthTag(Feb)))
    ensures UnemploymentTargetPeriod("2021", "Q3") == Some(Period(Number(2022), MonthTag(May)))
    ensures UnemploymentTargetPeriod("2021", "Q4") == Some(Period(Number(2022), MonthTag(Aug)))
  {
    ValueFourDigits("2021");
  }
}
