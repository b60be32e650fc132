/** Page size and the layout configuration: eight named numbers, each with a
    default, any of which a request may override. */
module Settings {

  /** ISO 216 A4 in PostScript points (1/72 inch): 21 cm by 29.7 cm, that is
      21 * 72 / 2.54 and 29.7 * 72 / 2.54, kept as exact fractions. */
  const PageWidth: real := 75600.0 / 127.0
  const PageHeight: real := 106920.0 / 127.0

  /** The layout parameters, in points except `fontSize`, a pure scale factor
      applied to glyph sizes, line height, space width and letter spacing.
      Nothing bounds them: negative or zero values are used as given. */
  datatype Config = Config(
    leftMargin: real,
    rightMargin: real,
    topMargin: real,
    bottomMargin: real,
    fontSize: real,
    spaceWidth: real,
    lineHeight: real,
    letterSpacing: real)

  const Defaults := Config(50.0, 50.0, 50.0, 50.0, 1.0, 35.0, 90.0, 5.0)

  /** The names under which a request's settings object carries each field. */
  const Names: set<string> := {"left_margin", "right_margin", "top_margin", "bottom_margin",
                               "font_size", "space_width", "line_height", "letter_spacing"}

  /** The field of `cfg` a settings name stands for. */
  function Field(cfg: Config, name: string): real
    requires name in Names
  {
    match name
    case "left_margin" => cfg.leftMargin
    case "right_margin" => cfg.rightMargin
    case "top_margin" => cfg.topMargin
    case "bottom_margin" => cfg.bottomMargin
    case "font_size" => cfg.fontSize
    case "space_width" => cfg.spaceWidth
    case "line_height" => cfg.lineHeight
    case _ => cfg.letterSpacing
  }

  function Setting(settings: map<string, real>, name: string, default: real): real {
    if name in settings then settings[name] else default
  }

  /** The configuration a request's settings object selects: each field is
      the value given under its name, or its default when the name is absent.
      Unknown names are ignored. */
  function FromSettings(settings: map<string, real>): (cfg: Config)
    ensures forall n :: n in Names ==>
              Field(cfg, n) == if n in settings then settings[n] else Field(Defaults, n)
    ensures settings.Keys !! Names ==> cfg == Defaults
  {
    Config(
      Setting(settings, "left_margin", Defaults.leftMargin),
      Setting(settings, "right_margin", Defaults.rightMargin),
      Setting(settings, "top_margin", Defaults.topMargin),
      Setting(settings, "bottom_margin", Defaults.bottomMargin),
      Setting(settings, "font_size", Defaults.fontSize),
      Setting(settings, "space_width", Defaults.spaceWidth),
      Setting(settings, "line_height", Defaults.lineHeight),
      Setting(settings, "letter_spacing", Defaults.letterSpacing))
  }

  /** A settings object that spells out every field of `cfg`. */
  function AsSettings(cfg: Config): (m: map<string, real>)
    ensures m.Keys == Names
    ensures forall n :: n in Names ==> m[n] == Field(cfg, n)
  {
    map n | n in Names :: Field(cfg, n)
  }

  /** Spelling out every field and reading it back gives the same configuration. */
  lemma SettingsRoundTrip(cfg: Config)
    ensures FromSettings(AsSettings(cfg)) == cfg
  {
  }

  /** Only the eight known names matter: dropping every other entry of the
      settings object selects the same configuration. */
  lemma UnknownSettingsIgnored(settings: map<string, real>)
    ensures FromSettings(settings) == FromSettings(map n | n in settings && n in Names :: settings[n])
  {
  }
}
