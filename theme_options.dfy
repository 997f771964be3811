/** The options of a theme's "more" menu: a fixed, ordered table of eight
    options, each possibly hidden by a rule over the site, the theme and
    whether the visitor is logged out; the visible ones are decorated with a
    label and header, a URL getter and a (tracked) action. */
module ThemeOptions {
  import opened Wrappers

  /** The site the themes are shown for; `customizable` is `site.isCustomizable()`. */
  datatype Site = Site(jetpack: bool, customizable: bool)

  /** A theme; `price` is absent for a theme without a price. */
  datatype Theme = Theme(id: string, active: bool, purchased: bool, price: Option<string>)

  /** JavaScript truthiness of `theme.price`: present and not empty. */
  predicate IsPriced(theme: Theme) {
    theme.price.Some? && theme.price.value != ""
  }

  datatype OptionName = Signup | Preview | Purchase | Activate | Customize | Separator | Details | Support

  /** The `isHidden` predicates of the table, one per option that has one. */
  datatype HideRule =
    | HideUnlessLoggedOut
    | HideWhenActive
    | HidePurchase
    | HideActivate
    | HideCustomize
    | HideSupport

  /** An entry of the option table. */
  datatype ButtonSpec = ButtonSpec(hasUrl: bool, hasAction: bool, separator: bool, isHidden: Option<HideRule>)

  /** The label and header an option is shown with (`label` is `caption`
      here, since `label` is a Dafny keyword). */
  datatype ActionLabel = ActionLabel(caption: string, header: string)

  /** What the menu consults outside the site and theme: whether checkout is
      enabled in the configuration, whether the theme is premium, and the
      action labels by option name. */
  datatype Environment = Environment(
    checkoutEnabled: bool,
    themeIsPremium: bool,
    actionLabels: map<OptionName, ActionLabel>)

  /** The order of the option table. */
  const ButtonNames: seq<OptionName> :=
    [Signup, Preview, Purchase, Activate, Customize, Separator, Details, Support]

  /** The option table, by name: the separator is the one separator entry;
      sign-up, details and support have a URL; preview, purchase, activate and
      customize have an action, so no entry has both; only the separator and
      details have no hiding rule. */
  function ButtonSpecOf(name: OptionName): (r: ButtonSpec)
    ensures r.separator <==> name == Separator
    ensures r.hasUrl <==> name in {Signup, Details, Support}
    ensures r.hasAction <==> name in {Preview, Purchase, Activate, Customize}
    ensures r.isHidden.None? <==> name in {Separator, Details}
  {
    match name
    case Signup => ButtonSpec(true, false, false, Some(HideUnlessLoggedOut))
    case Preview => ButtonSpec(false, true, false, Some(HideWhenActive))
    case Purchase => ButtonSpec(false, true, false, Some(HidePurchase))
    case Activate => ButtonSpec(false, true, false, Some(HideActivate))
    case Customize => ButtonSpec(false, true, false, Some(HideCustomize))
    case Separator => ButtonSpec(false, false, true, None)
    case Details => ButtonSpec(true, false, false, None)
    case Support => ButtonSpec(true, false, false, Some(HideSupport))
  }

  /** Every option name has an entry in the table. */
  lemma TableIsComplete(name: OptionName)
    ensures name in ButtonNames && ButtonNames[Rank(name)] == name
  {
  }

  /** The position of an option in the table. */
  function Rank(name: OptionName): nat {
    match name
    case Signup => 0
    case Preview => 1
    case Purchase => 2
    case Activate => 3
    case Customize => 4
    case Separator => 5
    case Details => 6
    case Support => 7
  }

  /** Evaluates an `isHidden` predicate. */
  predicate Hides(rule: HideRule, site: Option<Site>, theme: Theme, isLoggedOut: bool, env: Environment) {
    match rule
    case HideUnlessLoggedOut => !isLoggedOut
    case HideWhenActive => theme.active
    case HidePurchase =>
      isLoggedOut || theme.active || theme.purchased || !IsPriced(theme) || !env.checkoutEnabled
    case HideActivate => isLoggedOut || theme.active || (IsPriced(theme) && !theme.purchased)
    case HideCustomize => !theme.active || (site.Some? && !site.value.customizable)
    case HideSupport => (site.Some? && site.value.jetpack) || !env.themeIsPremium
  }

  /** The `pick` test: an option is kept unless it has an `isHidden` that holds. */
  predicate IsVisible(name: OptionName, site: Option<Site>, theme: Theme, isLoggedOut: bool, env: Environment) {
    var spec := ButtonSpecOf(name);
    !(spec.isHidden.Some? && Hides(spec.isHidden.value, site, theme, isLoggedOut, env))
  }

  /** `partial(Helper.get<Name>Url, _, site)`: the helper named after the
      option, bound to the site, waiting for the theme. */
  datatype UrlGetter = UrlGetter(helper: OptionName, site: Option<Site>)

  /** The action behind a menu item, as a descriptor of the bound callback. */
  datatype Action =
    | TogglePreview(theme: Theme)
    | SiteAction(actionName: OptionName, theme: Theme, site: Site, source: string)
    | SelectTheme(actionName: OptionName, theme: Theme)

  /** An action wrapped so that choosing it also records a click. */
  datatype TrackedAction = TrackedAction(action: Action, name: OptionName)

  datatype Effect = Run(action: Action) | TrackClick(origin: string, name: OptionName)

  /** What choosing a tracked action does: the action first, then the click
      is recorded. */
  function Effects(t: TrackedAction): seq<Effect> {
    [Run(t.action), TrackClick("more button", t.name)]
  }

  /** An option object as the menu receives it. */
  datatype MenuOption = MenuOption(
    spec: ButtonSpec,
    caption: Option<string>,
    header: Option<string>,
    getUrl: Option<UrlGetter>,
    action: Option<TrackedAction>)

  /** The result object's entries, in key order. */
  datatype MenuEntry = MenuEntry(name: OptionName, option: MenuOption)

  /** A table entry before decoration. */
  function Plain(spec: ButtonSpec): MenuOption {
    MenuOption(spec, None, None, None, None)
  }

  function Keys(entries: seq<MenuEntry>): (ks: seq<OptionName>)
    ensures |ks| == |entries|
    ensures forall i :: 0 <= i < |ks| ==> ks[i] == entries[i].name
  {
    if entries == [] then [] else [entries[0].name] + Keys(entries[1..])
  }

  /** Names strictly in table order (so also without repetition). */
  predicate InTableOrder(names: seq<OptionName>) {
    forall i, j :: 0 <= i < j < |names| ==> Rank(names[i]) < Rank(names[j])
  }

  /** `pick`: the options of `names` that `keep` accepts, in the same order,
      undecorated. */
  function Pick(names: seq<OptionName>, keep: OptionName -> bool): (r: seq<MenuEntry>)
    requires InTableOrder(names)
    ensures InTableOrder(Keys(r))
    ensures forall n :: n in Keys(r) <==> n in names && keep(n)
    ensures forall i :: 0 <= i < |r| ==> r[i].option == Plain(ButtonSpecOf(r[i].name))
  {
    if names == [] then []
    else
      var rest := Pick(names[1..], keep);
      if keep(names[0]) then
        var entry := MenuEntry(names[0], Plain(ButtonSpecOf(names[0])));
        PrependKeepsOrder(names, entry, rest);
        [entry] + rest
      else rest
  }

  /** Putting the first name of an ordered list before keys drawn from the
      rest of that list keeps them in table order. */
  lemma PrependKeepsOrder(names: seq<OptionName>, entry: MenuEntry, rest: seq<MenuEntry>)
    requires names != [] && InTableOrder(names) && entry.name == names[0]
    requires InTableOrder(Keys(rest))
    requires forall n :: n in Keys(rest) ==> n in names[1..]
    ensures Keys([entry] + rest) == [names[0]] + Keys(rest)
    ensures InTableOrder(Keys([entry] + rest))
  {
    assert Keys([entry] + rest) == [names[0]] + Keys(rest);
    forall k | 0 <= k < |rest| ensures Rank(names[0]) < Rank(Keys(rest)[k]) {
      var n := Keys(rest)[k];
      assert n in Keys(rest);
      assert n in names[1..];
      var j :| 0 <= j < |names[1..]| && names[1..][j] == n;
      assert names[j + 1] == n;
    }
  }

  /** `mapValues`: `f` applied to every option with its name; keys and their
      order stay as they are. */
  function MapValues(entries: seq<MenuEntry>, f: (MenuOption, OptionName) -> MenuOption): (r: seq<MenuEntry>)
    ensures |r| == |entries|
    ensures forall i :: 0 <= i < |r| ==> r[i] == MenuEntry(entries[i].name, f(entries[i].option, entries[i].name))
  {
    if entries == [] then [] else [MenuEntry(entries[0].name, f(entries[0].option, entries[0].name))] + MapValues(entries[1..], f)
  }

  /** `appendLabelAndHeader`: the option's label and header are set from the
      action labels when there is an entry for its name; nothing else changes. */
  function AppendLabelAndHeader(labels: map<OptionName, ActionLabel>, option: MenuOption, name: OptionName)
    : (r: MenuOption)
    ensures r.spec == option.spec && r.getUrl == option.getUrl && r.action == option.action
    ensures name in labels ==> r.caption == Some(labels[name].caption) && r.header == Some(labels[name].header)
    ensures name !in labels ==> r == option
  {
    if name !in labels then option
    else option.(caption := Some(labels[name].caption), header := Some(labels[name].header))
  }

  /** `appendUrl`: an option with `hasUrl` gets the URL getter of its name,
      bound to the site; nothing else changes. */
  function AppendUrl(site: Option<Site>, option: MenuOption, name: OptionName): (r: MenuOption)
    ensures r.spec == option.spec && r.caption == option.caption && r.header == option.header
    ensures r.action == option.action
    ensures r.getUrl == if option.spec.hasUrl then Some(UrlGetter(name, site)) else option.getUrl
  {
    if !option.spec.hasUrl then option
    else option.(getUrl := Some(UrlGetter(name, site)))
  }

  /** The action behind an option: the preview toggle for Preview, otherwise
      the site's action of that name when there is a site, otherwise selecting
      the theme for that action. */
  function ChooseAction(name: OptionName, site: Option<Site>, theme: Theme): (r: Action)
    ensures r.theme == theme
    ensures r.TogglePreview? <==> name == Preview
    ensures r.SiteAction? <==> name != Preview && site.Some?
    ensures r.SiteAction? ==> r.site == site.value && r.source == "showcase"
    ensures !r.TogglePreview? ==> r.actionName == name
  {
    if name == Preview then TogglePreview(theme)
    else if site.Some? then SiteAction(name, theme, site.value, "showcase")
    else SelectTheme(name, theme)
  }

  /** `appendAction`: an option with `hasAction` gets its tracked action;
      nothing else changes. */
  function AppendAction(site: Option<Site>, theme: Theme, option: MenuOption, name: OptionName)
    : (r: MenuOption)
    ensures r.spec == option.spec && r.caption == option.caption && r.header == option.header
    ensures r.getUrl == option.getUrl
    ensures r.action == if option.spec.hasAction then Some(TrackedAction(ChooseAction(name, site, theme), name)) else option.action
  {
    if !option.spec.hasAction then option
    else option.(action := Some(TrackedAction(ChooseAction(name, site, theme), name)))
  }

  /** The option that `name` is decorated into. */
  predicate IsDecorated(name: OptionName, option: MenuOption, site: Option<Site>, theme: Theme, env: Environment) {
    var spec := ButtonSpecOf(name);
    && option.spec == spec
    && (name in env.actionLabels ==>
          option.caption == Some(env.actionLabels[name].caption) && option.header == Some(env.actionLabels[name].header))
    && (name !in env.actionLabels ==> option.caption.None? && option.header.None?)
    && option.getUrl == (if spec.hasUrl then Some(UrlGetter(name, site)) else None)
    && option.action == (if spec.hasAction then Some(TrackedAction(ChooseAction(name, site, theme), name)) else None)
  }

  /** The three `mapValues` passes: every picked option decorated with its
      label and header, its URL getter and its action, keys unchanged. */
  function Decorate(picked: seq<MenuEntry>, site: Option<Site>, theme: Theme, env: Environment)
    : (r: seq<MenuEntry>)
    requires forall i :: 0 <= i < |picked| ==> picked[i].option == Plain(ButtonSpecOf(picked[i].name))
    ensures Keys(r) == Keys(picked)
    ensures forall i :: 0 <= i < |r| ==> IsDecorated(r[i].name, r[i].option, site, theme, env)
  {
    var labelled := MapValues(picked, (option, name) => AppendLabelAndHeader(env.actionLabels, option, name));
    var withUrls := MapValues(labelled, (option, name) => AppendUrl(site, option, name));
    var options := MapValues(withUrls, (option, name) => AppendAction(site, theme, option, name));
    assert Keys(options) == Keys(picked);
    assert forall i :: 0 <= i < |options| ==> IsDecorated(options[i].name, options[i].option, site, theme, env) by {
      forall i | 0 <= i < |options|
        ensures IsDecorated(options[i].name, options[i].option, site, theme, env)
      {
        var name := picked[i].name;
        assert picked[i].option == Plain(ButtonSpecOf(name));
        var o1 := AppendLabelAndHeader(env.actionLabels, picked[i].option, name);
        var o2 := AppendUrl(site, o1, name);
        assert labelled[i] == MenuEntry(name, o1);
        assert withUrls[i] == MenuEntry(name, o2);
        assert options[i] == MenuEntry(name, AppendAction(site, theme, o2, name));
      }
    }
    options
  }

  /** `getButtonOptions`: exactly the visible options, in table order, each
      decorated with its label and header, its URL getter and its action. */
  function GetButtonOptions(site: Option<Site>, theme: Theme, isLoggedOut: bool, env: Environment)
    : (r: seq<MenuEntry>)
    ensures forall n :: n in Keys(r) <==> IsVisible(n, site, theme, isLoggedOut, env)
    ensures InTableOrder(Keys(r))
    ensures forall i :: 0 <= i < |r| ==> IsDecorated(r[i].name, r[i].option, site, theme, env)
  {
    var picked := Pick(ButtonNames, name => IsVisible(name, site, theme, isLoggedOut, env));
    var options := Decorate(picked, site, theme, env);
    KeysOfPickedTable(Keys(picked), site, theme, isLoggedOut, env);
    options
  }

  /** Picking from the whole table leaves exactly the visible options. */
  lemma KeysOfPickedTable(picked: seq<OptionName>, site: Option<Site>, theme: Theme, isLoggedOut: bool, env: Environment)
    requires forall n :: n in picked <==> n in ButtonNames && IsVisible(n, site, theme, isLoggedOut, env)
    ensures forall n :: n in picked <==> IsVisible(n, site, theme, isLoggedOut, env)
  {
    forall n ensures n in ButtonNames {
      TableIsComplete(n);
    }
  }

  /** The head of a non-empty name list is one of its members; this is
      the fact that rules out one empty list beside a non-empty one below. */
  lemma HeadIsMember(s: seq<OptionName>)
    ensures s != [] ==> s[0] in s
  {
  }

  /** Two name lists in table order with the same members are the same list:
      the key set of the menu fixes its order. */
  lemma {:induction false} TableOrderDetermines(a: seq<OptionName>, b: seq<OptionName>)
    requires InTableOrder(a) && InTableOrder(b)
    requires forall n :: n in a <==> n in b
    ensures a == b
  {
    if a == [] && b == [] {
    } else if a == [] || b == [] {
      HeadIsMember(if a == [] then b else a);
      assert false;
    } else {
      assert a[0] == b[0] by {
        assert a[0] in b;
        assert b[0] in a;
        var i :| 0 <= i < |b| && b[i] == a[0];
        var j :| 0 <= j < |a| && a[j] == b[0];
        assert Rank(b[0]) <= Rank(b[i]);
        assert Rank(a[0]) <= Rank(a[j]);
      }
      forall n ensures n in a[1..] <==> n in b[1..] {
        if n in a[1..] {
          var k :| 0 <= k < |a[1..]| && a[1..][k] == n;
          assert Rank(a[0]) < Rank(a[k + 1]);
          assert n in b;
        }
        if n in b[1..] {
          var k :| 0 <= k < |b[1..]| && b[1..][k] == n;
          assert Rank(b[0]) < Rank(b[k + 1]);
          assert n in a;
        }
      }
      TableOrderDetermines(a[1..], b[1..]);
      assert a == [a[0]] + a[1..] && b == [b[0]] + b[1..];
    }
  }

  /** A key list in table order that follows the `pick` test is the
      expected list when that list does too. */
  lemma VisibleKeysAre(keys: seq<OptionName>, expected: seq<OptionName>,
                       site: Option<Site>, theme: Theme, isLoggedOut: bool, env: Environment)
    requires InTableOrder(keys) && InTableOrder(expected)
    requires forall n :: n in keys <==> IsVisible(n, site, theme, isLoggedOut, env)
    requires forall n :: n in expected <==> IsVisible(n, site, theme, isLoggedOut, env)
    ensures keys == expected
  {
    TableOrderDetermines(keys, expected);
  }

  /** Each option of the menu appears at most once. */
  lemma KeysAreDistinct(site: Option<Site>, theme: Theme, isLoggedOut: bool, env: Environment)
    ensures var keys := Keys(GetButtonOptions(site, theme, isLoggedOut, env));
      forall i, j :: 0 <= i < j < |keys| ==> keys[i] != keys[j]
  {
    var keys := Keys(GetButtonOptions(site, theme, isLoggedOut, env));
    assert InTableOrder(keys);
  }

  /** When each option with a hiding rule is in a key list, stated as the
      condition under which its `isHidden` closure is false. */
  predicate VisibilityConditions(keys: seq<OptionName>, site: Option<Site>, theme: Theme, isLoggedOut: bool,
                                 env: Environment) {
    && (Signup in keys <==> isLoggedOut)
    && (Preview in keys <==> !theme.active)
    && (Purchase in keys <==>
          !isLoggedOut && !theme.active && !theme.purchased && IsPriced(theme) && env.checkoutEnabled)
    && (Activate in keys <==> !isLoggedOut && !theme.active && (theme.purchased || !IsPriced(theme)))
    && (Customize in keys <==> theme.active && (site.None? || site.value.customizable))
    && (Support in keys <==> !(site.Some? && site.value.jetpack) && env.themeIsPremium)
  }

  /** What any key list that follows the `pick` test contains. */
  lemma VisibleKeys(keys: seq<OptionName>, site: Option<Site>, theme: Theme, isLoggedOut: bool, env: Environment)
    requires forall n :: n in keys <==> IsVisible(n, site, theme, isLoggedOut, env)
    ensures Separator in keys && Details in keys
    ensures VisibilityConditions(keys, site, theme, isLoggedOut, env)
  {
    assert IsVisible(Separator, site, theme, isLoggedOut, env);
    assert IsVisible(Details, site, theme, isLoggedOut, env);
    assert Purchase in keys <==> IsVisible(Purchase, site, theme, isLoggedOut, env);
    assert Activate in keys <==> IsVisible(Activate, site, theme, isLoggedOut, env);
    assert Customize in keys <==> IsVisible(Customize, site, theme, isLoggedOut, env);
    assert Support in keys <==> IsVisible(Support, site, theme, isLoggedOut, env);
  }

  /** The separator and the details link have no hiding rule: they are
      always offered. */
  lemma SeparatorAndDetailsAlwaysShown(site: Option<Site>, theme: Theme, isLoggedOut: bool, env: Environment)
    ensures var keys := Keys(GetButtonOptions(site, theme, isLoggedOut, env));
      Separator in keys && Details in keys
  {
    VisibleKeys(Keys(GetButtonOptions(site, theme, isLoggedOut, env)), site, theme, isLoggedOut, env);
  }

  /** When each option is offered. */
  lemma OptionVisibility(site: Option<Site>, theme: Theme, isLoggedOut: bool, env: Environment)
    ensures VisibilityConditions(Keys(GetButtonOptions(site, theme, isLoggedOut, env)), site, theme, isLoggedOut, env)
  {
    VisibleKeys(Keys(GetButtonOptions(site, theme, isLoggedOut, env)), site, theme, isLoggedOut, env);
  }

  /** A theme is never offered for both purchase and activation. */
  lemma PurchaseExcludesActivate(site: Option<Site>, theme: Theme, isLoggedOut: bool, env: Environment)
    ensures var keys := Keys(GetButtonOptions(site, theme, isLoggedOut, env));
      !(Purchase in keys && Activate in keys)
  {
    OptionVisibility(site, theme, isLoggedOut, env);
  }

  /** A logged-out visitor is offered sign-up and never purchase or
      activation; customizing stays governed by the theme and site alone. */
  lemma SignupExcludesAccountActions(site: Option<Site>, theme: Theme, isLoggedOut: bool, env: Environment)
    ensures var keys := Keys(GetButtonOptions(site, theme, isLoggedOut, env));
      Signup in keys ==>
        && Purchase !in keys && Activate !in keys
        && (Customize in keys <==> theme.active && (site.None? || site.value.customizable))
  {
    OptionVisibility(site, theme, isLoggedOut, env);
  }

  /** Previewing and customizing are never offered together. */
  lemma PreviewExcludesCustomize(site: Option<Site>, theme: Theme, isLoggedOut: bool, env: Environment)
    ensures var keys := Keys(GetButtonOptions(site, theme, isLoggedOut, env));
      !(Preview in keys && Customize in keys)
  {
    OptionVisibility(site, theme, isLoggedOut, env);
  }

  /** The label, header, URL getter and separator flag of a menu entry: a
      label and header exactly when the action labels have its name, a URL
      getter bound to the site exactly for sign-up, details and support, and
      the separator flag on the separator alone. */
  predicate CarriesLabelsAndUrl(e: MenuEntry, site: Option<Site>, env: Environment) {
    && (e.option.caption.Some? <==> e.name in env.actionLabels)
    && (e.option.header.Some? <==> e.name in env.actionLabels)
    && (e.option.getUrl.Some? <==> e.name in {Signup, Details, Support})
    && (e.option.getUrl.Some? ==> e.option.getUrl.value == UrlGetter(e.name, site))
    && (e.option.spec.separator <==> e.name == Separator)
  }

  /** The action of a menu entry: present exactly for preview, purchase,
      activate and customize, tracked under the entry's own name; preview
      toggles the preview, the others run the site's action when there is a
      site and select the theme otherwise. */
  predicate CarriesAction(e: MenuEntry, site: Option<Site>, theme: Theme) {
    var name, action := e.name, e.option.action;
    && (action.Some? <==> name in {Preview, Purchase, Activate, Customize})
    && (action.Some? ==> action.value.name == name)
    && (name == Preview ==> action.value.action == TogglePreview(theme))
    && (action.Some? && name != Preview && site.Some? ==>
          action.value.action == SiteAction(name, theme, site.value, "showcase"))
    && (action.Some? && name != Preview && site.None? ==> action.value.action == SelectTheme(name, theme))
  }

  /** What every decorated option carries. */
  lemma DecoratedEntries(r: seq<MenuEntry>, site: Option<Site>, theme: Theme, env: Environment)
    requires forall i :: 0 <= i < |r| ==> IsDecorated(r[i].name, r[i].option, site, theme, env)
    ensures forall i :: 0 <= i < |r| ==> CarriesLabelsAndUrl(r[i], site, env) && CarriesAction(r[i], site, theme)
  {
    forall i | 0 <= i < |r|
      ensures CarriesLabelsAndUrl(r[i], site, env) && CarriesAction(r[i], site, theme)
    {
      assert IsDecorated(r[i].name, r[i].option, site, theme, env);
    }
  }

  /** Labels and headers come only from the action labels; URL getters go to
      sign-up, details and support (never to preview), bound to the site. */
  lemma DecorationOfOptions(site: Option<Site>, theme: Theme, isLoggedOut: bool, env: Environment)
    ensures var r := GetButtonOptions(site, theme, isLoggedOut, env);
      forall i :: 0 <= i < |r| ==> CarriesLabelsAndUrl(r[i], site, env)
  {
    DecoratedEntries(GetButtonOptions(site, theme, isLoggedOut, env), site, theme, env);
  }

  /** Actions go to preview, purchase, activate and customize; preview always
      toggles the preview, the others run the site's action when there is a
      site and select the theme otherwise; every action is tracked under its
      option's own name. */
  lemma ActionsOfOptions(site: Option<Site>, theme: Theme, isLoggedOut: bool, env: Environment)
    ensures var r := GetButtonOptions(site, theme, isLoggedOut, env);
      forall i :: 0 <= i < |r| ==> CarriesAction(r[i], site, theme)
  {
    DecoratedEntries(GetButtonOptions(site, theme, isLoggedOut, env), site, theme, env);
  }

  /** Which options a logged-out visitor sees for an inactive free theme
      outside any site. */
  lemma LoggedOutVisitorVisible(theme: Theme, env: Environment)
    requires !theme.active && !env.themeIsPremium
    ensures InTableOrder([Signup, Preview, Separator, Details])
    ensures forall n :: n in [Signup, Preview, Separator, Details] <==> IsVisible(n, None, theme, true, env)
  {
    forall n ensures n in [Signup, Preview, Separator, Details] <==> IsVisible(n, None, theme, true, env) {
      match n
      case Signup =>
      case Preview =>
      case Purchase =>
      case Activate =>
      case Customize =>
      case Separator =>
      case Details =>
      case Support =>
    }
  }

  /** A logged-out visitor looking at an inactive free theme outside any site
      is offered exactly: sign up, preview, the separator and details. */
  lemma LoggedOutVisitorMenu(theme: Theme, env: Environment)
    requires !theme.active && !env.themeIsPremium
    ensures Keys(GetButtonOptions(None, theme, true, env)) == [Signup, Preview, Separator, Details]
  {
    LoggedOutVisitorVisible(theme, env);
    VisibleKeysAre(Keys(GetButtonOptions(None, theme, true, env)), [Signup, Preview, Separator, Details],
                   None, theme, true, env);
  }

  /** Which options the owner of a customizable site sees for the active
      free theme. */
  lemma ActiveThemeVisible(site: Site, theme: Theme, env: Environment)
    requires theme.active && site.customizable && !site.jetpack && !env.themeIsPremium
    ensures InTableOrder([Customize, Separator, Details])
    ensures forall n :: n in [Customize, Separator, Details] <==> IsVisible(n, Some(site), theme, false, env)
  {
    forall n ensures n in [Customize, Separator, Details] <==> IsVisible(n, Some(site), theme, false, env) {
      match n
      case Signup =>
      case Preview =>
      case Purchase =>
      case Activate =>
      case Customize =>
      case Separator =>
      case Details =>
      case Support =>
    }
  }

  /** The owner of a customizable site looking at the active free theme is
      offered exactly: customize, the separator and details. */
  lemma ActiveThemeMenu(site: Site, theme: Theme, env: Environment)
    requires theme.active && site.customizable && !site.jetpack && !env.themeIsPremium
    ensures Keys(GetButtonOptions(Some(site), theme, false, env)) == [Customize, Separator, Details]
  {
    ActiveThemeVisible(site, theme, env);
    VisibleKeysAre(Keys(GetButtonOptions(Some(site), theme, false, env)), [Customize, Separator, Details],
                   Some(site), theme, false, env);
  }
}
