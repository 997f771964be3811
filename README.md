# Exporter option selectors and theme "more" menu options, in Dafny

This project models two pieces of derived-data logic of a content-management web client.

1. **Exporter selectors** (`client/state/site-settings/exporter/selectors.js`). They read the
   exporter part of the site-settings state. They turn its advanced settings into flat
   `{ value, label }` choices for the author, status, date and category pickers. They also
   compute two UI flags: "options are loading" and "show export progress".
2. **Theme "more" menu options** (`client/my-sites/themes/theme-options.js`). A fixed table of
   eight options lists signup, preview, purchase, activate, customize, a separator, details and
   support. Most carry a rule that hides them for a given site, theme and login state.
   `getButtonOptions` keeps the visible options in table order. It then decorates each one with
   a label and header, a URL getter and a tracked action.

Both source files are pure, so the model is pure too: datatypes, functions and lemmas.

Modules:

- `Wrappers` (`wrappers.dfy`): `Option`. `None` stands for `undefined`/`null`, or for `NaN`.
- `DecimalText` (`decimal_text.dfy`): JavaScript's `String(n)` for integers below 10^21 in
  magnitude. Moment's
  zero-fill of a number to a minimum width. JavaScript's `parseInt(s, 10)`. The round trips
  between them.
- `Calendar` (`calendar.dfy`): integer calendar arithmetic in place of moment.
  - The Gregorian leap-year rule and month lengths. `YearLength` cross-checks the month
    table: its lengths add up to 366 days in leap years and 365 otherwise.
  - A moment as year, 0-based month and day; `None` is moment's invalid date.
  - `moment({year, month, day: 1})`, `endOf('month')`, and the formats `'YYYY-MM-DD'` and
    `'MMM YYYY'` in the English locale.
  - Parsers that read those texts back. `'YYYY-MM-DD'` is checked against the ISO 8601
    extended calendar-date form (section 4.1.2.2 of ISO 8601:2004).
- `ExporterSelectors` (`exporter_selectors.dfy`): the state tree, `mapOptions`, the four
  `get*Options` selectors, `isLoadingOptions`, `shouldShowProgress`, and `getUIState`/
  `getDataState`. The last two are plain projections of the state.
- `ThemeOptions` (`theme_options.dfy`): the option table, the hiding rules, `pick` and
  `mapValues`, the three decoration steps, `getButtonOptions`, and the visibility and
  decoration lemmas.

How the model represents the source:

- A settings record (an Immutable map of fields) is a `map<string, Scalar>`, where a `Scalar`
  is a JSON number or string. `record.get(key)` gives an `Option`, so an absent field stays
  `undefined`.
- A choice's `label` is the field `caption`, because `label` is a Dafny keyword. The theme
  menu's `label` is `caption` too.
- The result object of `getButtonOptions` is a sequence of `(name, option)` entries in key
  order.
- Each `isHidden` closure is a `HideRule` tag, evaluated by `Hides`.
- `config.isEnabled('upgrades/checkout')`, `Helper.isPremium(theme)` and the action-label
  table are inputs, gathered in `Environment`. `site.isCustomizable()` and `site.jetpack` are
  fields of `Site`.
- Closures built by the source become descriptors:
  - the URL getter is `UrlGetter(helper name, site)`;
  - the action is `TogglePreview`, `SiteAction` or `SelectTheme`;
  - the tracking wrapper is `TrackedAction`. Its `Effects` are the action, then the recorded
    click.

How the code treats two edge cases, and how the model follows it:

- The selectors return no choices only when the whole advanced-settings map is absent or
  has no section. If some section is present but the requested section or list is missing,
  `getIn` at `selectors.js:17` yields `undefined` and `.map` throws. The model states this
  case as the precondition `CanReadOptions`.
- Suppose neither the parsed year nor the parsed month is 0. Then a month outside 1..12, or
  a year or month that is not a number, makes moment build an invalid date. Both texts are
  then `"Invalid date"`, and the model keeps this path (`DateInvalid`). A parsed 0 in either
  part returns the `'0'`/`'Unknown'` choice before moment is called (`DateUnknownSentinel`).
- From year 10000 on, moment's 'YYYY' token prints five or more digits. The value is then
  no longer the ten-character 'YYYY-MM-DD' form that the comment at `selectors.js:56` shows.
  For every non-zero year it still ends in "-MM-DD" with the record's month and day
  (`DateValueEndsWithMonthAndDay`).

## Model

| member | source | states |
|---|---|---|
| `DecimalText.ParseIntText` | client/state/site-settings/exporter/selectors.js:36-38 | `parseInt(_, 10)` reads back any integer as `IntText` writes it, whatever non-digit text follows; `IntText` is `String`'s output below 10^21 in magnitude |
| `DecimalText.ParseInt` | client/state/site-settings/exporter/selectors.js:36-38 | `parseInt(s, 10)`: skips leading white space, takes an optional sign and the longest digit prefix, and gives NaN (`None`) when there are no digits. It has no contract of its own; `ParseIntText` and `ExporterSelectors.ReadIntNum` state what it reads back |
| `DecimalText.ValueOfDigits` | client/state/site-settings/exporter/selectors.js:36-38 | the digits of a number denote that number |
| `DecimalText.ZeroFillValue` | client/state/site-settings/exporter/selectors.js:55-60 | a zero-filled token denotes the same number; below 10^width it is exactly `width` characters long |
| `Calendar.DaysInMonth` | client/state/site-settings/exporter/selectors.js:51-53 | a month's last day is 28 to 31; it is 29 exactly for February of a Gregorian leap year, and 28 exactly for February otherwise |
| `Calendar.FirstDayOf` | client/state/site-settings/exporter/selectors.js:49 | the first-of-month moment is valid iff year and 0-based month are numbers and the month is in 0..11; it keeps year and month, with day 1 |
| `Calendar.EndOfMonth` | client/state/site-settings/exporter/selectors.js:51-53 | `endOf('month')` keeps year and month, moves to the month's last day (never earlier), and keeps an invalid date invalid |
| `Calendar.FormatYear` | client/state/site-settings/exporter/selectors.js:57 | the 'YYYY' token prints at least four characters, starting with '-' exactly for a negative year and with a digit otherwise |
| `Calendar.FormatIsoDate` | client/state/site-settings/exporter/selectors.js:57 | 'YYYY-MM-DD' prints "Invalid date" exactly for an invalid moment; a valid one prints at least ten characters, exactly ten for years 0..9999 (its readback is `IsoDateRoundTrip`) |
| `Calendar.FormatMonthYear` | client/state/site-settings/exporter/selectors.js:60 | 'MMM YYYY' prints "Invalid date" exactly for an invalid moment; a valid one starts with the month's English abbreviation and a space (its readback is `MonthYearRoundTrip`) |
| `Calendar.IsoDateRoundTrip` | client/state/site-settings/exporter/selectors.js:55-57 | for years 0..9999, `'YYYY-MM-DD'` is a well-formed ISO 8601 calendar date that reads back as the year, the 0-based month plus one, and the day |
| `Calendar.IsoDateEndsWithMonthAndDay` | client/state/site-settings/exporter/selectors.js:57 | for every valid moment, including years of five or more digits, 'YYYY-MM-DD' ends in a dash, two digits denoting the 1-based month, a dash and two digits denoting the day |
| `Calendar.MonthYearRoundTrip` | client/state/site-settings/exporter/selectors.js:59-60 | for years 0..9999, `'MMM YYYY'` reads back as the year and the 0-based month plus one |
| `ExporterSelectors.MapRecords` | client/state/site-settings/exporter/selectors.js:17 | the list `map`: one result per record, same length, same order |
| `ExporterSelectors.MapOptions` | client/state/site-settings/exporter/selectors.js:13-18 | no choices when the settings are absent or have no section; otherwise one result per record of `[section, name]`, in order |
| `ExporterSelectors.GetAuthorOptions` | client/state/site-settings/exporter/selectors.js:20-25 | no choices without settings; otherwise one choice per author, in order, with value = `ID` and label = `name` |
| `ExporterSelectors.GetStatusOptions` | client/state/site-settings/exporter/selectors.js:27-32 | no choices without settings; otherwise one choice per status, in order, with value = `name` and label = `label` |
| `ExporterSelectors.GetCategoryOptions` | client/state/site-settings/exporter/selectors.js:65-70 | no choices without settings; otherwise one choice per category, in order, with value = label = `name` |
| `ExporterSelectors.GetDateOptions` | client/state/site-settings/exporter/selectors.js:34-63 | no choices without settings; otherwise one date choice per `{year, month}` record, in order |
| `ExporterSelectors.DateChoice` | client/state/site-settings/exporter/selectors.js:35-62 | the choice for one date record: both halves are always texts; the value is '0' exactly when the label is 'Unknown', and "Invalid date" exactly when the label is. `DateUnknownSentinel`, `DateInvalid` and `DateChoiceReadsBack` state each case |
| `ExporterSelectors.ReadInt` | client/state/site-settings/exporter/selectors.js:36-38 | `parseInt(date.get(field), 10)` on a field that is absent, a number or a text. It has no contract of its own; `ReadIntNum` states that a numeric field below 10^21 in magnitude reads back as itself |
| `ExporterSelectors.ReadIntNum` | client/state/site-settings/exporter/selectors.js:36-38 | a numeric year or month field parses to itself (fields are below 10^21 in magnitude; see "## Left out") |
| `ExporterSelectors.DateUnknownSentinel` | client/state/site-settings/exporter/selectors.js:42-47 | a year or month of 0 gives exactly `{value: '0', label: 'Unknown'}`, whatever `endOfMonth` is |
| `ExporterSelectors.DateInvalid` | client/state/site-settings/exporter/selectors.js:38-49 | when neither the parsed year nor the parsed month is 0, a month outside 1..12, or a year or month that is not a number, gives "Invalid date" as value and label |
| `ExporterSelectors.DateChoiceReadsBack` | client/state/site-settings/exporter/selectors.js:36-61 | for years 1..9999 and months 1..12, the value is an ISO 8601 date with the record's own 1-based month; its day is 1, or the Gregorian last day with `endOfMonth`; the label reads back as the same month and year |
| `ExporterSelectors.DateValueFormatsRecordMonth` | client/state/site-settings/exporter/selectors.js:36-57 | for a non-zero year and a month of 1..12, the value is the formatted 1st of the record's month (converted to 0-based), or its Gregorian last day with `endOfMonth` |
| `ExporterSelectors.DateValueEndsWithMonthAndDay` | client/state/site-settings/exporter/selectors.js:36-57 | for every non-zero year and a month of 1..12, the value ends in "-MM-DD" with the record's own month and day 1, or the month's last day with `endOfMonth` |
| `ExporterSelectors.DateLabelIgnoresEndOfMonth` | client/state/site-settings/exporter/selectors.js:49-61 | the label is the same with and without `endOfMonth` |
| `ExporterSelectors.December2015` | client/state/site-settings/exporter/selectors.js:55-61 | year 2015, month 12 gives "2015-12-01" (or "2015-12-31" at the end of the month), labelled "Dec 2015" |
| `ExporterSelectors.IsLoadingOptions` | client/state/site-settings/exporter/selectors.js:79-84 | loading iff a (non-zero) site ID is set and the advanced settings are absent; settings that arrived empty do not count as absent |
| `ExporterSelectors.LoadingMeansNoChoices` | client/state/site-settings/exporter/selectors.js:79-84 | while loading, every list selector gives no choices, for any section |
| `ExporterSelectors.LoadingEnds` | client/state/site-settings/exporter/selectors.js:79-84 | loading stops once any settings arrive, even empty ones, and never happens without a site |
| `ExporterSelectors.ShouldShowProgress` | client/state/site-settings/exporter/selectors.js:92-96 | progress is shown iff the exporting state is Starting or Exporting, and never in Ready, Complete or Failed |
| `ExporterSelectors.GetUIState` | client/state/site-settings/exporter/selectors.js:104-106 | the exporter UI state, a plain projection with no contract of its own; `ShouldShowProgress` states what is read from it |
| `ExporterSelectors.GetDataState` | client/state/site-settings/exporter/selectors.js:108-110 | the exporter data state, a plain projection with no contract of its own; `IsLoadingOptions` and `LoadingEnds` state what is read from it |
| `ThemeOptions.TableIsComplete` | client/my-sites/themes/theme-options.js:17-51 | every option name has an entry in the table, at the position its rank gives |
| `ThemeOptions.ButtonSpecOf` | client/my-sites/themes/theme-options.js:17-51 | the option table: only the separator is a separator; sign-up, details and support have a URL; preview, purchase, activate and customize have an action; only the separator and details have no `isHidden` |
| `ThemeOptions.Hides` | client/my-sites/themes/theme-options.js:20-49 | the six `isHidden` closures. It has no contract of its own; `OptionVisibility` states each one as an explicit visibility condition |
| `ThemeOptions.IsVisible` | client/my-sites/themes/theme-options.js:54 | the `pick` test: an option is kept unless it has an `isHidden` rule and that rule holds. It has no contract of its own; `GetButtonOptions` states that the menu's keys are exactly the visible names |
| `ThemeOptions.Pick` | client/my-sites/themes/theme-options.js:54 | `pick` keeps exactly the names the predicate accepts, undecorated and in table order |
| `ThemeOptions.MapValues` | client/my-sites/themes/theme-options.js:55-57 | `mapValues` keeps keys and their order and transforms each option with its name |
| `ThemeOptions.AppendLabelAndHeader` | client/my-sites/themes/theme-options.js:60-72 | label and header are set from the action labels only when there is an entry for the name; nothing else changes |
| `ThemeOptions.AppendUrl` | client/my-sites/themes/theme-options.js:74-87 | a URL getter for the name, bound to the site, is added iff `hasUrl`; nothing else changes |
| `ThemeOptions.AppendAction` | client/my-sites/themes/theme-options.js:89-108 | a tracked action is added iff `hasAction`; nothing else changes |
| `ThemeOptions.ChooseAction` | client/my-sites/themes/theme-options.js:96-103 | the bound callback always concerns the theme; it toggles the preview exactly for preview; it is the site's action, with source 'showcase', exactly for another option on a site; otherwise it selects the theme; every non-preview callback carries the option's name |
| `ThemeOptions.Effects` | client/my-sites/themes/theme-options.js:110-115 | `trackedAction`: choosing the option runs the wrapped action, then records one click from 'more button' under the option's name. It has no contract of its own; `ActionsOfOptions` states which action and name each option carries |
| `ThemeOptions.Decorate` | client/my-sites/themes/theme-options.js:55-57 | the three passes keep the keys and leave every option fully decorated |
| `ThemeOptions.GetButtonOptions` | client/my-sites/themes/theme-options.js:53-58 | the keys are exactly the options whose `isHidden` is absent or false, in table order, each decorated with label/header, URL getter and action |
| `ThemeOptions.TableOrderDetermines` | client/my-sites/themes/theme-options.js:54 | two name lists in table order with the same members are equal, so the key set fixes the menu's order |
| `ThemeOptions.KeysAreDistinct` | client/my-sites/themes/theme-options.js:54 | no option appears twice in the menu |
| `ThemeOptions.SeparatorAndDetailsAlwaysShown` | client/my-sites/themes/theme-options.js:39-44 | the separator and details have no hiding rule and are always offered |
| `ThemeOptions.OptionVisibility` | client/my-sites/themes/theme-options.js:17-50 | signup iff logged out; preview iff not active; purchase iff logged in, not active, not purchased, priced and checkout enabled; activate iff logged in, not active and not (priced and unpurchased); customize iff active and (no site or customizable site); support iff not on a Jetpack site and premium |
| `ThemeOptions.PurchaseExcludesActivate` | client/my-sites/themes/theme-options.js:27-34 | purchase and activate are never offered together |
| `ThemeOptions.SignupExcludesAccountActions` | client/my-sites/themes/theme-options.js:18-38 | with signup offered, purchase and activate are not; customize is still offered iff the theme is active and (no site or customizable site) |
| `ThemeOptions.PreviewExcludesCustomize` | client/my-sites/themes/theme-options.js:22-38 | preview and customize are never offered together |
| `ThemeOptions.DecorationOfOptions` | client/my-sites/themes/theme-options.js:60-87 | an option has a label and header iff the action labels have its name; it has a URL getter (bound to the site) iff it is signup, details or support, never preview; only the separator entry is marked as a separator |
| `ThemeOptions.ActionsOfOptions` | client/my-sites/themes/theme-options.js:89-115 | an option has an action iff it is preview, purchase, activate or customize; preview toggles the preview; the others run the site's action when there is a site and select the theme otherwise; every action is tracked under its option's own name |
| `ThemeOptions.LoggedOutVisitorMenu` | client/my-sites/themes/theme-options.js:17-58 | a logged-out visitor with no site and an inactive free theme gets exactly signup, preview, separator, details, in that order |
| `ThemeOptions.ActiveThemeMenu` | client/my-sites/themes/theme-options.js:17-58 | the owner of a customizable non-Jetpack site with the active free theme gets exactly customize, separator, details, in that order |

## Left out

- The React components in `client/my-sites/invites/invite-accept-logged-out/index.jsx`,
  `client/components/theme/more-button.jsx` and `client/my-sites/plugins/plan-setup/index.jsx`:
  rendering, component state and popover toggling are UI.
- Account creation, invite acceptance, `window.location` redirects and `store.set`: these are I/O.
- The plugin-setup step sequencer. `PluginInstallation` lives in a module that is not part of
  this model. `plan-setup/index.jsx` only starts it and logs its events, so there is no
  workflow code to model.
- `client/state/test/index.js` tests the store factory, which is not part of this model.
- The definition of the exporting `States` constants is not part of this model. The enum
  `Ready | Starting | Exporting | Complete | Failed` is assumed. Only the membership of
  Starting and Exporting matters.
- `i18n.translate('Unknown')` is the constant English text "Unknown". Moment's month names are
  the English locale's.
- `ParseIntText`, `ReadInt`, `ReadIntNum`: numeric fields are taken to be below 10^21 in
  magnitude, where `String` prints plain digits. From 10^21 on, `String` prints exponent form
  ("1e+21") and `parseInt` reads only its leading digit. For a month of 1e21 the source reads
  1, while the model reads 1e21 and gives "Invalid date". JavaScript numbers are doubles, so
  which leading digit the exponent form shows depends on double rounding, which is not
  modelled.
- The list selectors' result kind: a non-empty result at `selectors.js:17` is the Immutable
  collection's own `.map` result, while line 15 returns a plain array `[]`. The model makes
  both a `seq`.
- Moment's time of day, time zones, and the JavaScript date range limit (years -271821 to 275760)
  are left out. Dates are calendar days only.
- The model's `ParseInt` skips only space, tab, newline and carriage return as leading white
  space. JavaScript's `parseInt` also skips vertical tab, form feed, no-break space, the
  byte-order mark and the other Unicode space characters.
  Numbers in records are integers; fractional and exponent forms are left out.
- `Helper.get*Url`, `titleCase`, `Helper.isPremium`, `config.isEnabled`, `site.isCustomizable`
  and the action functions are opaque. They appear only as descriptors or boolean inputs.
- `Helper.trackClick` is a fire-and-forget side effect. It appears only as the second `Effect`
  of a tracked action.
- `AppendAction`: `actions[name]` is assumed to exist when a site is given. The source would
  throw while building the menu if it did not.
- `hasUrl: false` on preview and an absent `hasUrl` elsewhere are both `false` in the model.
  Consumers only test the value's truthiness.
- `MapOptions`, `GetAuthorOptions`, `GetStatusOptions`, `GetDateOptions`, `GetCategoryOptions`:
  when settings are present, these require the requested section and list to exist. The
  source throws a `TypeError` in that case instead of returning.
- `SiteIdIsSet`: `forSiteId` is modelled as an optional integer. Other JavaScript values and
  their truthiness are left out.
