/** The colour schemes (AppearanceSchemes.kt) and the appearance options they
    are applied to (`AppearanceOptions` in SettingsModels.kt). Colours are
    32-bit ARGB `Int`s, written as the unsigned literal wrapped by `toInt()`. */
module Appearance {
  import opened Text
  import opened Ints

  const COLOR_SCHEME_SOLARIZED: String := "solarized"
  const COLOR_SCHEME_MONOKAI: String := "monokai"
  const COLOR_SCHEME_GRUVBOX: String := "gruvbox"
  const COLOR_SCHEME_DRACULA: String := "dracula"
  const COLOR_SCHEME_NORD: String := "nord"
  const COLOR_SCHEME_PAPERCOLOR: String := "papercolor"
  const DEFAULT_COLOR_SCHEME_ID: String := COLOR_SCHEME_SOLARIZED

  datatype ColorSchemeOption = ColorSchemeOption(id: String, displayLabel: String)

  const COLOR_SCHEME_OPTIONS: seq<ColorSchemeOption> := [
    ColorSchemeOption(COLOR_SCHEME_SOLARIZED, "Solarized"),
    ColorSchemeOption(COLOR_SCHEME_MONOKAI, "Monokai"),
    ColorSchemeOption(COLOR_SCHEME_GRUVBOX, "Gruvbox"),
    ColorSchemeOption(COLOR_SCHEME_DRACULA, "Dracula"),
    ColorSchemeOption(COLOR_SCHEME_NORD, "Nord"),
    ColorSchemeOption(COLOR_SCHEME_PAPERCOLOR, "Papercolor")
  ]

  datatype AppearanceOptions = AppearanceOptions(
    baseTextSizeSp: real,
    centerScale: real,
    fontFamilyName: Option<String>,
    colorSchemeName: Option<String>,
    backgroundColor: int,
    leftColor: int,
    centerColor: int,
    remainderColor: int,
    flankerColor: int,
    buttonBackgroundColor: int,
    buttonTextColor: int,
    letterSpacingEm: real,
    paddingDp: real,
    boldCenter: bool)

  const DEFAULT_APPEARANCE: AppearanceOptions := AppearanceOptions(
    36.0, 1.0, Some("atkinson-hyperlegible"), Some(DEFAULT_COLOR_SCHEME_ID),
    ToInt32(0xFFFFFFFF), ToInt32(0xFF6B6B6B), ToInt32(0xFF111111), ToInt32(0xFF4A4A4A),
    ToInt32(0xFF9A9A9A), ToInt32(0xFF0F6A6A), ToInt32(0xFFFFFFFF),
    0.0, 24.0, false)

  /** The seven colours of one scheme. */
  datatype AppearanceScheme = AppearanceScheme(
    background: int, left: int, center: int, remainder: int, flanker: int,
    buttonBackground: int, buttonText: int)

  function Scheme(background: int, left: int, center: int, remainder: int, flanker: int,
                  buttonBackground: int, buttonText: int): AppearanceScheme
  {
    AppearanceScheme(ToInt32(background), ToInt32(left), ToInt32(center), ToInt32(remainder),
                     ToInt32(flanker), ToInt32(buttonBackground), ToInt32(buttonText))
  }

  const SOLARIZED_LIGHT := Scheme(0xFFFDF6E3, 0xFF586E75, 0xFF268BD2, 0xFF657B83, 0xFF93A1A1, 0xFFE3DDCC, 0xFF268BD2)
  const SOLARIZED_DARK := Scheme(0xFF002B36, 0xFF839496, 0xFF2AA198, 0xFF93A1A1, 0xFF586E75, 0xFF002730, 0xFF2AA198)
  const MONOKAI := Scheme(0xFF272822, 0xFFF8F8F2, 0xFFF92672, 0xFFA6E22E, 0xFF66D9EF, 0xFF23241E, 0xFFF92672)
  const GRUVBOX_LIGHT := Scheme(0xFFFBF1C7, 0xFF3C3836, 0xFFAF3A03, 0xFF5F5F5F, 0xFF7C6F64, 0xFFE1D8B3, 0xFFAF3A03)
  const GRUVBOX_DARK := Scheme(0xFF282828, 0xFFEBDBB2, 0xFFFE8019, 0xFFB8BB26, 0xFF83A598, 0xFF242424, 0xFFFE8019)
  const DRACULA := Scheme(0xFF282A36, 0xFFF8F8F2, 0xFFFF79C6, 0xFFBD93F9, 0xFF8BE9FD, 0xFF242530, 0xFFBD93F9)
  const NORD_LIGHT := Scheme(0xFFECEFF4, 0xFF2E3440, 0xFF5E81AC, 0xFF4C566A, 0xFF81A1C1, 0xFFD4D7DC, 0xFF5E81AC)
  const NORD_DARK := Scheme(0xFF2E3440, 0xFFD8DEE9, 0xFF88C0D0, 0xFFE5E9F0, 0xFF81A1C1, 0xFF292E39, 0xFF88C0D0)
  const PAPERCOLOR_LIGHT := Scheme(0xFFEEEEEE, 0xFF444444, 0xFF005F87, 0xFF585858, 0xFF878787, 0xFFD6D6D6, 0xFF005F87)
  const PAPERCOLOR_DARK := Scheme(0xFF1C1C1C, 0xFFD0D0D0, 0xFF5FAFD7, 0xFFAFAFAF, 0xFF808080, 0xFF191919, 0xFF5FAFD7)

  /** Whether some option of the list has this id (`any { it.id == id }`). */
  predicate IsSchemeId(options: seq<ColorSchemeOption>, id: String) {
    exists k :: 0 <= k < |options| && options[k].id == id
  }

  /** The label of the first option with this id (`firstOrNull { ... }?.label`). */
  function FirstLabel(options: seq<ColorSchemeOption>, id: String): (r: Option<String>)
    ensures r.None? <==> !IsSchemeId(options, id)
    ensures r.Some? ==> exists k :: (0 <= k < |options| && options[k].id == id && r.value == options[k].displayLabel &&
      forall j :: 0 <= j < k ==> options[j].id != id)
  {
    if options == [] then None
    else if options[0].id == id then Some(options[0].displayLabel)
    else
      var rest := FirstLabel(options[1..], id);
      assert IsSchemeId(options, id) <==> IsSchemeId(options[1..], id) by {
        if IsSchemeId(options, id) {
          var k :| 0 <= k < |options| && options[k].id == id;
          assert options[1..][k - 1].id == id;
        }
        if IsSchemeId(options[1..], id) {
          var k :| 0 <= k < |options| - 1 && options[1..][k].id == id;
          assert options[k + 1].id == id;
        }
      }
      if rest.Some? then
        (var k :| 0 <= k < |options| - 1 && options[1..][k].id == id && rest.value == options[1..][k].displayLabel &&
           forall j :: 0 <= j < k ==> options[1..][j].id != id;
         assert options[k + 1].id == id && rest.value == options[k + 1].displayLabel;
         assert forall j :: 0 <= j < k + 1 ==> options[j].id != id by {
           forall j | 0 <= j < k + 1 ensures options[j].id != id {
             if j > 0 { assert options[j] == options[1..][j - 1]; }
           }
         }
         rest)
      else rest
  }

  predicate IsKnownScheme(id: String) {
    IsSchemeId(COLOR_SCHEME_OPTIONS, id)
  }

  /** The ids of the scheme list are pairwise distinct, so the first option
      with an id is the only one. */
  lemma SchemeIdsDistinct()
    ensures forall j, k :: 0 <= j < k < |COLOR_SCHEME_OPTIONS| ==> COLOR_SCHEME_OPTIONS[j].id != COLOR_SCHEME_OPTIONS[k].id
  {
  }

  /** `colorSchemeLabel`: the label of the scheme, the default scheme's for
      a missing id, and "Solarized" for an unknown one. */
  function ColorSchemeLabel(schemeId: Option<String>): (r: String)
    ensures forall k :: 0 <= k < |COLOR_SCHEME_OPTIONS| && schemeId == Some(COLOR_SCHEME_OPTIONS[k].id) ==>
      r == COLOR_SCHEME_OPTIONS[k].displayLabel
    ensures schemeId.None? || !IsKnownScheme(schemeId.value) ==> r == "Solarized"
  {
    var resolvedId := match schemeId case Some(id) => id case None => DEFAULT_COLOR_SCHEME_ID;
    SchemeIdsDistinct();
    match FirstLabel(COLOR_SCHEME_OPTIONS, resolvedId)
    case Some(l) => l
    case None => "Solarized"
  }

  /** `resolveColorScheme`: Monokai and Dracula have one variant; the other
      schemes, and any id that is none of them, pick the dark or the light
      variant. */
  function ResolveColorScheme(schemeId: String, isDarkTheme: bool): AppearanceScheme {
    if schemeId == COLOR_SCHEME_MONOKAI then MONOKAI
    else if schemeId == COLOR_SCHEME_GRUVBOX then (if isDarkTheme then GRUVBOX_DARK else GRUVBOX_LIGHT)
    else if schemeId == COLOR_SCHEME_DRACULA then DRACULA
    else if schemeId == COLOR_SCHEME_NORD then (if isDarkTheme then NORD_DARK else NORD_LIGHT)
    else if schemeId == COLOR_SCHEME_PAPERCOLOR then (if isDarkTheme then PAPERCOLOR_DARK else PAPERCOLOR_LIGHT)
    else (if isDarkTheme then SOLARIZED_DARK else SOLARIZED_LIGHT)
  }

  /** Only Monokai and Dracula look the same in both themes. */
  lemma ThemeVariants(schemeId: String)
    ensures schemeId == COLOR_SCHEME_MONOKAI || schemeId == COLOR_SCHEME_DRACULA <==>
      ResolveColorScheme(schemeId, true) == ResolveColorScheme(schemeId, false)
  {
    if schemeId == COLOR_SCHEME_GRUVBOX {
      assert GRUVBOX_DARK.background != GRUVBOX_LIGHT.background;
    } else if schemeId == COLOR_SCHEME_NORD {
      assert NORD_DARK.background != NORD_LIGHT.background;
    } else if schemeId == COLOR_SCHEME_PAPERCOLOR {
      assert PAPERCOLOR_DARK.background != PAPERCOLOR_LIGHT.background;
    } else if schemeId != COLOR_SCHEME_MONOKAI && schemeId != COLOR_SCHEME_DRACULA {
      assert SOLARIZED_DARK.background != SOLARIZED_LIGHT.background;
    }
  }

  /** The id `applyColorScheme` settles on: the given one when the list has
      it, else the default. */
  function ResolvedSchemeId(schemeId: Option<String>): (id: String)
    ensures IsKnownScheme(id)
    ensures schemeId.Some? && IsKnownScheme(schemeId.value) ==> id == schemeId.value
    ensures schemeId.None? || !IsKnownScheme(schemeId.value) ==> id == DEFAULT_COLOR_SCHEME_ID
  {
    assert COLOR_SCHEME_OPTIONS[0].id == DEFAULT_COLOR_SCHEME_ID;
    match schemeId
    case Some(id) => if IsKnownScheme(id) then id else DEFAULT_COLOR_SCHEME_ID
    case None => DEFAULT_COLOR_SCHEME_ID
  }

  /** The seven colours of an appearance. */
  function ColorsOf(a: AppearanceOptions): AppearanceScheme {
    AppearanceScheme(a.backgroundColor, a.leftColor, a.centerColor, a.remainderColor, a.flankerColor,
                     a.buttonBackgroundColor, a.buttonTextColor)
  }

  /** Whether two appearances agree on everything but the scheme name and
      the colours. */
  predicate SameNonColorFields(a: AppearanceOptions, b: AppearanceOptions) {
    a.baseTextSizeSp == b.baseTextSizeSp && a.centerScale == b.centerScale &&
    a.fontFamilyName == b.fontFamilyName && a.letterSpacingEm == b.letterSpacingEm &&
    a.paddingDp == b.paddingDp && a.boldCenter == b.boldCenter
  }

  /** `applyColorScheme`: the scheme name becomes a known id (the default
      for a missing or unknown one), the seven colours become that scheme's
      colours for the theme, and every other field is kept. */
  function ApplyColorScheme(base: AppearanceOptions, schemeId: Option<String>, isDarkTheme: bool): (r: AppearanceOptions)
    ensures r.colorSchemeName.Some? && IsKnownScheme(r.colorSchemeName.value)
    ensures schemeId.Some? && IsKnownScheme(schemeId.value) ==> r.colorSchemeName == schemeId
    ensures schemeId.None? || !IsKnownScheme(schemeId.value) ==> r.colorSchemeName == Some(COLOR_SCHEME_SOLARIZED)
    ensures ColorsOf(r) == ResolveColorScheme(r.colorSchemeName.value, isDarkTheme)
    ensures SameNonColorFields(r, base)
  {
    var resolvedId := ResolvedSchemeId(schemeId);
    var scheme := ResolveColorScheme(resolvedId, isDarkTheme);
    base.(colorSchemeName := Some(resolvedId),
          backgroundColor := scheme.background,
          leftColor := scheme.left,
          centerColor := scheme.center,
          remainderColor := scheme.remainder,
          flankerColor := scheme.flanker,
          buttonBackgroundColor := scheme.buttonBackground,
          buttonTextColor := scheme.buttonText)
  }

  /** Applying a scheme a second time, with the same id and theme, changes
      nothing. */
  lemma ApplyColorSchemeIdempotent(base: AppearanceOptions, schemeId: Option<String>, isDarkTheme: bool)
    ensures ApplyColorScheme(ApplyColorScheme(base, schemeId, isDarkTheme), schemeId, isDarkTheme) ==
      ApplyColorScheme(base, schemeId, isDarkTheme)
  {
  }

  /** The resulting name and colours depend only on the id and the theme,
      never on the colours or the name of the base. */
  lemma ApplyColorSchemeIgnoresBase(a: AppearanceOptions, b: AppearanceOptions, schemeId: Option<String>, isDarkTheme: bool)
    ensures ColorsOf(ApplyColorScheme(a, schemeId, isDarkTheme)) == ColorsOf(ApplyColorScheme(b, schemeId, isDarkTheme))
    ensures ApplyColorScheme(a, schemeId, isDarkTheme).colorSchemeName == ApplyColorScheme(b, schemeId, isDarkTheme).colorSchemeName
  {
  }

  /** A scheme's colours are 32-bit `Int`s. */
  lemma SchemeColorsAreInts(schemeId: String, isDarkTheme: bool)
    ensures var s := ResolveColorScheme(schemeId, isDarkTheme);
      IsInt32(s.background) && IsInt32(s.left) && IsInt32(s.center) && IsInt32(s.remainder) &&
      IsInt32(s.flanker) && IsInt32(s.buttonBackground) && IsInt32(s.buttonText)
  {
  }
}
