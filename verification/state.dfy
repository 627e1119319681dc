/** The pagination widget's settings, merged configuration and per-instance
    state record (pagination.js, `DEFAULT_CONFIG` and `boot`). */
module PageState {

  /** Defaults merged under the caller's settings. */
  const DefaultLimit := 10
  const DefaultCurrentPage := 1

  function Min(a: int, b: int): int { if a <= b then a else b }
  function Max(a: int, b: int): int { if a >= b then a else b }

  /** One optional caller setting: left out of the settings object, or given. */
  datatype Setting = Absent | Given(value: int)

  /** What a caller hands to `boot`. `amount` is the total number of items
      (not pages); `limit` is the number of items per page. Whether an
      `onChange` callback was supplied is all the widget observes of it. */
  datatype Settings = Settings(amount: nat, limit: Setting, currentPage: Setting, hasOnChange: bool)

  /** The configuration after the defaults have been merged in. */
  datatype Config = Config(amount: nat, limit: int, currentPage: int, hasOnChange: bool)

  /** One numbered page button: the page it carries and whether it is highlighted. */
  datatype Button = Button(page: int, active: bool)

  /** The state bag threaded through the widget's functions: the configuration,
      the page being shown, the page count the last render computed, and the
      numbered buttons that render produced. */
  datatype State = State(config: Config, currentPage: int, pageCount: nat, buttons: seq<Button>)

  /** The settings are usable by `render`: a page size, when given, is positive. */
  predicate ValidSettings(settings: Settings) {
    settings.limit.Given? ==> settings.limit.value > 0
  }

  /** The caller's value where one is given, the default otherwise. */
  function Override(setting: Setting, default: int): int {
    match setting
    case Absent => default
    case Given(v) => v
  }

  /** Spreads the caller's settings over `DEFAULT_CONFIG`. */
  function Merge(settings: Settings): (c: Config)
    requires ValidSettings(settings)
    ensures c.limit > 0
    ensures c.amount == settings.amount && c.hasOnChange == settings.hasOnChange
    ensures settings.limit.Absent? ==> c.limit == DefaultLimit
    ensures settings.currentPage.Absent? ==> c.currentPage == DefaultCurrentPage
    ensures settings.limit.Given? ==> c.limit == settings.limit.value
    ensures settings.currentPage.Given? ==> c.currentPage == settings.currentPage.value
  {
    Config(settings.amount,
           Override(settings.limit, DefaultLimit),
           Override(settings.currentPage, DefaultCurrentPage),
           settings.hasOnChange)
  }

  /** The settings that spell out every field of a configuration. */
  function SettingsOf(c: Config): Settings {
    Settings(c.amount, Given(c.limit), Given(c.currentPage), c.hasOnChange)
  }

  /** Defaults never override what the caller gave: merging a configuration's
      own settings gives that configuration back. */
  lemma MergeKeepsCallerValues(c: Config)
    requires c.limit > 0
    ensures ValidSettings(SettingsOf(c))
    ensures Merge(SettingsOf(c)) == c
  {
  }
}
