/** Selectors over the exporter part of the site-settings state: they project
    the advanced-settings data into `{ value, label }` choices for the author,
    status, date and category pickers, and compute two flags for the UI. */
module ExporterSelectors {
  import opened Wrappers
  import opened DecimalText
  import opened Calendar

  /** A field value of a settings record: a JSON number or string. */
  datatype Scalar = Num(n: int) | Text(s: string)

  /** One record of a settings list (an author, a status, a date, a category). */
  type Record = map<string, Scalar>

  /** A section's lists, by name ("authors", "statuses", "export_date_options",
      "categories"). */
  type Section = map<string, seq<Record>>

  /** The advanced settings: lists of records by section, then by name. */
  type AdvancedSettings = map<string, Section>

  /** `None` in `advancedSettings` means the settings have not arrived. */
  datatype DataState = DataState(forSiteId: Option<int>, advancedSettings: Option<AdvancedSettings>)

  /** The export activity states of the exporter UI. */
  datatype ExportingState = Ready | Starting | Exporting | Complete | Failed

  datatype UIState = UIState(exportingState: ExportingState)

  datatype ExporterState = ExporterState(data: DataState, ui: UIState)

  datatype SiteSettingsState = SiteSettingsState(exporter: ExporterState)

  /** The global state tree, reduced to the part the selectors read. */
  datatype State = State(siteSettings: SiteSettingsState)

  /** A picker choice `{ value, label }` (the label is `caption` here, since `label` is a Dafny keyword); `None` is an `undefined` value or label. */
  datatype Choice = Choice(value: Option<Scalar>, caption: Option<Scalar>)

  /** `record.get(key)`: `None` when the record has no such field. */
  function Get(record: Record, key: string): Option<Scalar> {
    if key in record then Some(record[key]) else None
  }

  function GetUIState(state: State): UIState {
    state.siteSettings.exporter.ui
  }

  function GetDataState(state: State): DataState {
    state.siteSettings.exporter.data
  }

  /** True when the advanced settings are absent or have no section at all:
      every list selector then answers with no choices. */
  predicate HasNoOptions(state: State) {
    var settings := GetDataState(state).advancedSettings;
    settings.None? || |settings.value| == 0
  }

  /** The list at `[section, name]` can be read: either there is nothing to
      read, or both keys exist (otherwise the lookup yields `undefined` and
      mapping over it throws). */
  predicate CanReadOptions(state: State, section: string, name: string) {
    var settings := GetDataState(state).advancedSettings;
    HasNoOptions(state) || (section in settings.value && name in settings.value[section])
  }

  function OptionRecords(state: State, section: string, name: string): seq<Record>
    requires CanReadOptions(state, section, name) && !HasNoOptions(state)
  {
    GetDataState(state).advancedSettings.value[section][name]
  }

  /** The list `map`: one result per record, in the same order. */
  function MapRecords<T>(records: seq<Record>, f: Record -> T): (r: seq<T>)
    ensures |r| == |records|
    ensures forall i :: 0 <= i < |r| ==> r[i] == f(records[i])
  {
    if records == [] then [] else [f(records[0])] + MapRecords(records[1..], f)
  }

  /** `mapOptions`: no choices when the settings are absent or empty;
      otherwise `f` applied to each record of `[section, name]`, in order. */
  function MapOptions<T>(state: State, section: string, name: string, f: Record -> T): (r: seq<T>)
    requires CanReadOptions(state, section, name)
    ensures HasNoOptions(state) ==> |r| == 0
    ensures !HasNoOptions(state) ==>
      var records := OptionRecords(state, section, name);
      |r| == |records| && forall i :: 0 <= i < |r| ==> r[i] == f(records[i])
  {
    if HasNoOptions(state) then [] else MapRecords(OptionRecords(state, section, name), f)
  }

  function AuthorChoice(author: Record): Choice {
    Choice(Get(author, "ID"), Get(author, "name"))
  }

  function StatusChoice(status: Record): Choice {
    Choice(Get(status, "name"), Get(status, "label"))
  }

  function CategoryChoice(category: Record): Choice {
    Choice(Get(category, "name"), Get(category, "name"))
  }

  /** Authors: the value is the author's ID and the label the author's name. */
  function GetAuthorOptions(state: State, section: string): (r: seq<Choice>)
    requires CanReadOptions(state, section, "authors")
    ensures HasNoOptions(state) ==> r == []
    ensures !HasNoOptions(state) ==>
      var authors := OptionRecords(state, section, "authors");
      |r| == |authors| &&
      forall i :: 0 <= i < |r| ==> r[i].value == Get(authors[i], "ID") && r[i].caption == Get(authors[i], "name")
  {
    MapOptions(state, section, "authors", AuthorChoice)
  }

  /** Statuses: the value is the status name and the label its label. */
  function GetStatusOptions(state: State, section: string): (r: seq<Choice>)
    requires CanReadOptions(state, section, "statuses")
    ensures HasNoOptions(state) ==> r == []
    ensures !HasNoOptions(state) ==>
      var statuses := OptionRecords(state, section, "statuses");
      |r| == |statuses| &&
      forall i :: 0 <= i < |r| ==> r[i].value == Get(statuses[i], "name") && r[i].caption == Get(statuses[i], "label")
  {
    MapOptions(state, section, "statuses", StatusChoice)
  }

  /** Categories: value and label are both the category name. */
  function GetCategoryOptions(state: State, section: string): (r: seq<Choice>)
    requires CanReadOptions(state, section, "categories")
    ensures HasNoOptions(state) ==> r == []
    ensures !HasNoOptions(state) ==>
      var categories := OptionRecords(state, section, "categories");
      |r| == |categories| &&
      forall i :: 0 <= i < |r| ==> r[i].value == Get(categories[i], "name") && r[i].value == r[i].caption
  {
    MapOptions(state, section, "categories", CategoryChoice)
  }

  /** `parseInt(v, 10)` on a field: a number is printed (as `String` prints
      it below 10^21 in magnitude) and parsed back, a string is parsed, and a
      missing field gives `NaN` (`None`). */
  function ReadInt(v: Option<Scalar>): Option<int> {
    match v
    case None => None
    case Some(Num(n)) => ParseInt(IntText(n))
    case Some(Text(s)) => ParseInt(s)
  }

  /** The label the source translates for an unknown date. */
  const Unknown: string := "Unknown"

  /** The choice for one `{ year, month }` record of `export_date_options`:
      the sentinel when the year or month is 0, else the first (or, with
      `endOfMonth`, the last) day of that month as 'YYYY-MM-DD' with the label
      'MMM YYYY'. The record's month is 1-based; moment's is 0-based.
      Both halves are always texts, and they agree on which case applies:
      the value is '0' exactly when the label is 'Unknown', and the value
      is "Invalid date" exactly when the label is. */
  function DateChoice(date: Record, endOfMonth: bool): (r: Choice)
    ensures r.value.Some? && r.value.value.Text? && r.caption.Some? && r.caption.value.Text?
    ensures r.value == Some(Text("0")) <==> r.caption == Some(Text(Unknown))
    ensures r.value == Some(Text(InvalidDate)) <==> r.caption == Some(Text(InvalidDate))
  {
    var year := ReadInt(Get(date, "year"));
    var month := ReadInt(Get(date, "month"));
    var jsMonth := if month.Some? then Some(month.value - 1) else None;
    if month == Some(0) || year == Some(0) then
      Choice(Some(Text("0")), Some(Text(Unknown)))
    else
      var first := FirstDayOf(year, jsMonth);
      var time := if endOfMonth then EndOfMonth(first) else first;
      Choice(Some(Text(FormatIsoDate(time))), Some(Text(FormatMonthYear(time))))
  }

  /** Dates: one choice per `{ year, month }` record, in order. */
  function GetDateOptions(state: State, section: string, endOfMonth: bool): (r: seq<Choice>)
    requires CanReadOptions(state, section, "export_date_options")
    ensures HasNoOptions(state) ==> r == []
    ensures !HasNoOptions(state) ==>
      var dates := OptionRecords(state, section, "export_date_options");
      |r| == |dates| && forall i :: 0 <= i < |r| ==> r[i] == DateChoice(dates[i], endOfMonth)
  {
    MapOptions(state, section, "export_date_options", date => DateChoice(date, endOfMonth))
  }

  /** JavaScript truthiness of the site ID: unset and 0 are both false. */
  predicate SiteIdIsSet(forSiteId: Option<int>) {
    forSiteId.Some? && forSiteId.value != 0
  }

  /** The options are loading when a site has been chosen and its advanced
      settings have not arrived; settings that arrived empty are not loading. */
  function IsLoadingOptions(state: State): (r: bool)
    ensures r <==> SiteIdIsSet(GetDataState(state).forSiteId) && GetDataState(state).advancedSettings.None?
  {
    var dataState := GetDataState(state);
    SiteIdIsSet(dataState.forSiteId) && dataState.advancedSettings.None?
  }

  /** Progress is shown while an export is starting or running, and in no
      other state. */
  function ShouldShowProgress(state: State): (r: bool)
    ensures r <==> GetUIState(state).exportingState in {Starting, Exporting}
    ensures GetUIState(state).exportingState in {Ready, Complete, Failed} ==> !r
  {
    var exportingState := GetUIState(state).exportingState;
    exportingState == Starting || exportingState == Exporting
  }

  /** A numeric field reads back as the number it holds (for fields below
      10^21 in magnitude, where `IntText` is JavaScript's `String`). */
  lemma ReadIntNum(n: int)
    ensures ReadInt(Some(Num(n))) == Some(n)
  {
    ParseIntText(n, []);
    assert IntText(n) + [] == IntText(n);
  }

  /** A year or month of 0 gives exactly the sentinel `{ value: '0',
      label: 'Unknown' }`, with or without `endOfMonth`. */
  lemma DateUnknownSentinel(date: Record, endOfMonth: bool)
    requires ReadInt(Get(date, "year")) == Some(0) || ReadInt(Get(date, "month")) == Some(0)
    ensures DateChoice(date, endOfMonth) == Choice(Some(Text("0")), Some(Text("Unknown")))
  {
  }

  /** A non-zero month outside 1..12, or a year or month that is not a
      number, makes moment's date invalid, and both texts say so. */
  lemma DateInvalid(date: Record, endOfMonth: bool)
    requires ReadInt(Get(date, "year")) != Some(0) && ReadInt(Get(date, "month")) != Some(0)
    requires var month := ReadInt(Get(date, "month"));
      ReadInt(Get(date, "year")).None? || month.None? || month.value < 0 || 12 < month.value
    ensures DateChoice(date, endOfMonth) == Choice(Some(Text(InvalidDate)), Some(Text(InvalidDate)))
  {
  }

  /** For a year of 1..9999 and a month of 1..12 the value is a well-formed
      ISO 8601 calendar date whose month is the record's own (1-based) month
      and whose day is the 1st, or the month's Gregorian last day with
      `endOfMonth`; the label reads back as the same month and year. */
  lemma {:induction false} DateChoiceReadsBack(date: Record, endOfMonth: bool, y: int, m: int)
    requires ReadInt(Get(date, "year")) == Some(y) && 1 <= y <= 9999
    requires ReadInt(Get(date, "month")) == Some(m) && 1 <= m <= 12
    ensures var c := DateChoice(date, endOfMonth);
      && c.value.Some? && c.value.value.Text? && c.caption.Some? && c.caption.value.Text?
      && IsIsoCalendarDate(c.value.value.s)
      && ParseIsoCalendarDate(c.value.value.s) == Some((y, m, if endOfMonth then DaysInMonth(y, m) else 1))
      && ParseMonthYear(c.caption.value.s) == Some((y, m))
  {
    var first := Moment(y, m - 1, 1);
    var time := if endOfMonth then EndOfMonth(Some(first)).value else first;
    assert FirstDayOf(Some(y), Some(m - 1)) == Some(first);
    IsoDateRoundTrip(time);
    MonthYearRoundTrip(time);
  }

  /** For a non-zero year and a month of 1..12, the value formats the 1st of
      the record's month, or its last day with `endOfMonth`. */
  lemma DateValueFormatsRecordMonth(date: Record, endOfMonth: bool, y: int, m: int)
    requires ReadInt(Get(date, "year")) == Some(y) && y != 0
    requires ReadInt(Get(date, "month")) == Some(m) && 1 <= m <= 12
    ensures DateChoice(date, endOfMonth).value ==
      Some(Text(FormatIsoDate(Some(Moment(y, m - 1, if endOfMonth then DaysInMonth(y, m) else 1)))))
  {
    assert FirstDayOf(Some(y), Some(m - 1)) == Some(Moment(y, m - 1, 1));
  }

  /** For any non-zero year, including years from 10000 on where 'YYYY'
      prints five or more digits, the value ends in "-MM-DD" with the
      record's own month and the 1st (or the month's last day with
      `endOfMonth`). */
  lemma DateValueEndsWithMonthAndDay(date: Record, endOfMonth: bool, y: int, m: int)
    requires ReadInt(Get(date, "year")) == Some(y) && y != 0
    requires ReadInt(Get(date, "month")) == Some(m) && 1 <= m <= 12
    ensures var c := DateChoice(date, endOfMonth);
      && c.value.Some? && c.value.value.Text?
      && EndsWithMonthAndDay(c.value.value.s, m, if endOfMonth then DaysInMonth(y, m) else 1)
  {
    var t := Moment(y, m - 1, if endOfMonth then DaysInMonth(y, m) else 1);
    DateValueFormatsRecordMonth(date, endOfMonth, y, m);
    IsoDateEndsWithMonthAndDay(t);
    assert t.month0 + 1 == m;
  }

  /** The label does not depend on `endOfMonth`. */
  lemma DateLabelIgnoresEndOfMonth(date: Record)
    ensures DateChoice(date, true).caption == DateChoice(date, false).caption
  {
  }

  lemma YearText2015()
    ensures FormatYear(2015) == "2015"
  {
    assert DigitChar(2) == '2' && DigitChar(0) == '0' && DigitChar(1) == '1' && DigitChar(5) == '5';
    assert Digits(20) == Digits(2) + ['0'];
    assert Digits(201) == Digits(20) + ['1'];
    assert Digits(2015) == Digits(201) + ['5'];
    assert ZeroFill(2015, 4) == Zeros(0) + Digits(2015);
  }

  lemma DayAndMonthTexts()
    ensures ZeroFill(12, 2) == "12" && ZeroFill(1, 2) == "01" && ZeroFill(31, 2) == "31"
  {
    assert DigitChar(1) == '1' && DigitChar(2) == '2' && DigitChar(3) == '3';
    assert Digits(12) == Digits(1) + ['2'];
    assert Digits(31) == Digits(3) + ['1'];
    assert ZeroFill(12, 2) == Zeros(0) + Digits(12);
    assert ZeroFill(31, 2) == Zeros(0) + Digits(31);
    assert ZeroFill(1, 2) == Zeros(1) + Digits(1);
  }

  lemma December2015Texts()
    ensures FormatIsoDate(Some(Moment(2015, 11, 1))) == "2015-12-01"
    ensures FormatIsoDate(Some(Moment(2015, 11, 31))) == "2015-12-31"
    ensures FormatMonthYear(Some(Moment(2015, 11, 1))) == "Dec 2015"
  {
    YearText2015();
    DayAndMonthTexts();
    assert FormatIsoDate(Some(Moment(2015, 11, 1))) == FormatYear(2015) + "-" + ZeroFill(12, 2) + "-" + ZeroFill(1, 2);
    assert FormatIsoDate(Some(Moment(2015, 11, 31))) == FormatYear(2015) + "-" + ZeroFill(12, 2) + "-" + ZeroFill(31, 2);
    assert FormatMonthYear(Some(Moment(2015, 11, 1))) == MonthAbbreviations[11] + " " + FormatYear(2015);
  }

  /** The example of the source's comments: December 2015 gives "2015-12-01"
      (or "2015-12-31" at the end of the month), labelled "Dec 2015". */
  lemma December2015()
    ensures var date := map["year" := Num(2015), "month" := Num(12)];
      && DateChoice(date, false) == Choice(Some(Text("2015-12-01")), Some(Text("Dec 2015")))
      && DateChoice(date, true) == Choice(Some(Text("2015-12-31")), Some(Text("Dec 2015")))
  {
    var date := map["year" := Num(2015), "month" := Num(12)];
    ReadIntNum(2015);
    ReadIntNum(12);
    assert Get(date, "year") == Some(Num(2015));
    assert Get(date, "month") == Some(Num(12));
    var first := Some(Moment(2015, 11, 1));
    assert FirstDayOf(Some(2015), Some(11)) == first;
    assert EndOfMonth(first) == Some(Moment(2015, 11, 31));
    December2015Texts();
  }

  /** While the options are loading every list selector, for any section,
      answers with no choices. */
  lemma LoadingMeansNoChoices(state: State, section: string, endOfMonth: bool)
    requires IsLoadingOptions(state)
    ensures CanReadOptions(state, section, "authors") && GetAuthorOptions(state, section) == []
    ensures CanReadOptions(state, section, "statuses") && GetStatusOptions(state, section) == []
    ensures CanReadOptions(state, section, "categories") && GetCategoryOptions(state, section) == []
    ensures CanReadOptions(state, section, "export_date_options") && GetDateOptions(state, section, endOfMonth) == []
  {
  }

  /** Loading ends as soon as the settings arrive, even empty ones, and never
      starts without a site. */
  lemma LoadingEnds(state: State, settings: AdvancedSettings)
    ensures !IsLoadingOptions(State(SiteSettingsState(ExporterState(
      GetDataState(state).(advancedSettings := Some(settings)), GetUIState(state)))))
    ensures !SiteIdIsSet(GetDataState(state).forSiteId) ==> !IsLoadingOptions(state)
  {
  }
}
