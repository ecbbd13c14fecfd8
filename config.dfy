/**
 * Command-line configuration: the checks `CliConfig::validate` runs on the
 * parsed options and the colour list `parse_colors` hands to the renderer.
 * Argument parsing itself (clap) is not modelled: a `CliConfig` value is
 * what it produces.
 */
module Config {
  import opened Wrappers
  import opened Text
  import Modes
  import Render

  datatype CliConfig = CliConfig(
    device: Option<string>,
    mode: string,
    sensitivity: real,
    colors: Option<string>,
    listModes: bool,
    listDevices: bool)

  /** The configuration clap produces when no option is given. */
  function Defaults(): (c: CliConfig)
    ensures c.mode == "spectrum" && c.sensitivity == 1.0 && c.colors.None? && c.device.None?
    ensures !c.listModes && !c.listDevices
  {
    CliConfig(None, "spectrum", 1.0, None, false, false)
  }

  /** Why `validate` refuses a configuration; each carries the offending value. */
  datatype ConfigError =
    | SensitivityOutOfRange(got: real)
    | InvalidMode(mode: string)
    | InvalidColor(color: string)

  const MinSensitivity: real := 0.1
  const MaxSensitivity: real := 5.0

  /** The mode names `validate` accepts, compared case-sensitively. */
  const ValidModes: seq<string> := ["spectrum", "waveform", "circular"]

  /** The colour names `validate_colors` accepts, after trimming and lower-casing. */
  const ValidColors: set<string> := {
    "black", "red", "green", "yellow", "blue", "magenta", "cyan", "white",
    "dark_grey", "light_red", "light_green", "light_yellow", "light_blue",
    "light_magenta", "light_cyan", "grey"
  }

  /** The gradient used when no `--colors` option is given. */
  const DefaultColorNames: seq<string> := ["red", "yellow", "green", "cyan", "blue"]

  /** One comma-separated item as both `validate_colors` and `parse_colors` see it. */
  function Normalize(item: string): string
  {
    ToLower(Trim(item))
  }

  /**
   * `parse_colors`: the default gradient without `--colors`; otherwise one
   * name per comma-separated item (one more than the number of commas),
   * trimmed and lower-cased, in order.
   */
  function ParseColors(colors: Option<string>): (names: seq<string>)
    ensures colors.None? ==> names == DefaultColorNames
    ensures colors.Some? ==>
      && |names| == |Split(colors.value, ',')| == Count(colors.value, ',') + 1
      && forall i :: 0 <= i < |names| ==> names[i] == Normalize(Split(colors.value, ',')[i])
  {
    match colors
    case None => DefaultColorNames
    case Some(s) =>
      SplitCount(s, ',');
      NormalizeAll(Split(s, ','))
  }

  /** Each item normalised, in order. */
  function NormalizeAll(items: seq<string>): (names: seq<string>)
    ensures |names| == |items|
    ensures forall i :: 0 <= i < |items| ==> names[i] == Normalize(items[i])
  {
    if items == [] then [] else [Normalize(items[0])] + NormalizeAll(items[1..])
  }

  /** `k` is the first position of `names` whose name is outside `vocabulary`. */
  predicate FirstInvalidAt(names: seq<string>, vocabulary: set<string>, k: nat)
  {
    && k < |names|
    && names[k] !in vocabulary
    && forall i :: 0 <= i < k ==> names[i] in vocabulary
  }

  /** The search `validate_colors` makes: the first name outside the vocabulary, if any. */
  function FirstInvalid(names: seq<string>, vocabulary: set<string>): (r: Option<nat>)
    ensures r.None? <==> forall i :: 0 <= i < |names| ==> names[i] in vocabulary
    ensures r.Some? ==> FirstInvalidAt(names, vocabulary, r.value)
  {
    if names == [] then None
    else if names[0] !in vocabulary then Some(0)
    else
      match FirstInvalid(names[1..], vocabulary)
      case None => None
      case Some(k) => Some(k + 1)
  }

  /** Checks a colour list against a vocabulary, reporting the first unknown name. */
  function CheckColors(colors: string, vocabulary: set<string>): (r: Result<(), ConfigError>)
    ensures var names := ParseColors(Some(colors));
      && (r.Ok? <==> forall i :: 0 <= i < |names| ==> names[i] in vocabulary)
      && (r.Err? ==> exists k: nat :: FirstInvalidAt(names, vocabulary, k) && r.error == InvalidColor(names[k]))
  {
    var names := ParseColors(Some(colors));
    match FirstInvalid(names, vocabulary)
    case None => Ok(())
    case Some(k) => Err(InvalidColor(names[k]))
  }

  /**
   * `validate_colors`: accepts iff every comma-separated item, trimmed and
   * lower-cased, is one of the sixteen valid names; otherwise reports the
   * first one that is not, normalised.
   */
  function ValidateColors(colors: string): (r: Result<(), ConfigError>)
    ensures var names := ParseColors(Some(colors));
      && (r.Ok? <==> forall i :: 0 <= i < |names| ==> names[i] in ValidColors)
      && (r.Err? ==> exists k: nat :: FirstInvalidAt(names, ValidColors, k) && r.error == InvalidColor(names[k]))
  {
    CheckColors(colors, ValidColors)
  }

  predicate SensitivityInRange(sensitivity: real)
  {
    !(sensitivity < MinSensitivity || sensitivity > MaxSensitivity)
  }

  /**
   * `validate`: the sensitivity must lie in [0.1, 5.0], the mode must be
   * one of the three names, and a given colour list must pass
   * `validate_colors`. The checks run in that order and the first failure
   * is the one reported.
   */
  function Validate(config: CliConfig): (r: Result<(), ConfigError>)
    ensures r.Ok? <==>
      && MinSensitivity <= config.sensitivity <= MaxSensitivity
      && config.mode in ValidModes
      && (config.colors.Some? ==> ValidateColors(config.colors.value).Ok?)
    ensures !(MinSensitivity <= config.sensitivity <= MaxSensitivity) ==>
      r == Err(SensitivityOutOfRange(config.sensitivity))
    ensures MinSensitivity <= config.sensitivity <= MaxSensitivity && config.mode !in ValidModes ==>
      r == Err(InvalidMode(config.mode))
    ensures r.Err? && r.error.InvalidColor? ==>
      config.colors.Some? && r == ValidateColors(config.colors.value)
    ensures (MinSensitivity <= config.sensitivity <= MaxSensitivity && config.mode in ValidModes
             && config.colors.Some?) ==> r == ValidateColors(config.colors.value)
  {
    if !SensitivityInRange(config.sensitivity) then Err(SensitivityOutOfRange(config.sensitivity))
    else if config.mode !in ValidModes then Err(InvalidMode(config.mode))
    else if config.colors.Some? then ValidateColors(config.colors.value)
    else Ok(())
  }

  // ---------------------------------------------------------------------
  // Properties

  /** The defaults pass validation, and their colour list is the default gradient. */
  lemma DefaultsAreValid()
    ensures Validate(Defaults()) == Ok(())
    ensures ParseColors(Defaults().colors) == DefaultColorNames
  {
  }

  /** Every mode's reported name is accepted, and every accepted name is some mode's name. */
  lemma ValidModesAreModeNames()
    ensures forall m: Modes.VisualizerMode :: Modes.Name(m) in ValidModes
    ensures forall i :: 0 <= i < |ValidModes| ==>
      exists m: Modes.VisualizerMode :: Modes.Name(m) == ValidModes[i]
  {
    assert Modes.Name(Modes.SpectrumBars) == ValidModes[0];
    assert Modes.Name(Modes.Waveform) == ValidModes[1];
    assert Modes.Name(Modes.Circular) == ValidModes[2];
  }

  /** The mode check is case-sensitive, unlike the colour check. */
  lemma ModeIsCaseSensitive()
    ensures Validate(Defaults().(mode := "Spectrum")) == Err(InvalidMode("Spectrum"))
    ensures Validate(Defaults().(colors := Some(" RED , Blue"))) == Ok(())
  {
    CapitalisedModeUnknown();
    SpacedCapitalsValid();
  }

  lemma SpacedCapitalsValid()
    ensures ValidateColors(" RED , Blue").Ok?
  {
    SpacedCapitalsPieces();
    ValidateFirstItem(" RED ", " Blue");
    ValidateLastItem(" Blue");
    NormalizeRed();
    NormalizeBlue();
    RedAndBlueValid();
  }

  lemma SpacedCapitalsPieces()
    ensures " RED , Blue" == " RED " + [','] + " Blue"
    ensures ',' !in " RED " && ',' !in " Blue"
  {
  }

  /** The list `first,rest` is checked item by item: `first` first, then the rest. */
  lemma ValidateFirstItem(first: string, rest: string)
    requires ',' !in first
    ensures ValidateColors(first + [','] + rest)
      == if Normalize(first) !in ValidColors then Err(InvalidColor(Normalize(first)))
         else ValidateColors(rest)
  {
    var names := ParseColors(Some(first + [','] + rest));
    ParseFirstItem(first, rest);
    assert names[1..] == ParseColors(Some(rest));
  }

  lemma ParseFirstItem(first: string, rest: string)
    requires ',' !in first
    ensures ParseColors(Some(first + [','] + rest)) == [Normalize(first)] + ParseColors(Some(rest))
  {
    SplitFirst(first, ',', rest);
    assert Split(first + [','] + rest, ',') == [first] + Split(rest, ',');
  }

  /** The last item, which holds no comma, is checked on its own. */
  lemma ValidateLastItem(last: string)
    requires ',' !in last
    ensures ValidateColors(last)
      == if Normalize(last) in ValidColors then Ok(()) else Err(InvalidColor(Normalize(last)))
  {
    var names := ParseColors(Some(last));
    ParseLastItem(last);
    assert names[1..] == [];
  }

  lemma ParseLastItem(last: string)
    requires ',' !in last
    ensures ParseColors(Some(last)) == [Normalize(last)]
  {
    SplitWithoutSeparator(last, ',');
  }

  lemma CapitalisedModeUnknown()
    ensures "Spectrum" !in ValidModes
  {
  }

  lemma NormalizeRed()
    ensures Normalize(" RED ") == "red"
  {
    assert LeadingSpace(" RED ") == 1;
    assert " RED "[1..] == "RED ";
    assert TrailingSpace("RED ") == 1;
    assert Trim(" RED ") == "RED";
  }

  lemma NormalizeBlue()
    ensures Normalize(" Blue") == "blue"
  {
    assert LeadingSpace(" Blue") == 1;
    assert " Blue"[1..] == "Blue";
    assert TrailingSpace("Blue") == 0;
    assert Trim(" Blue") == "Blue";
  }

  lemma RedAndBlueValid()
    ensures "red" in ValidColors && "blue" in ValidColors
  {
  }

  /** An item that is empty or only whitespace (`"red,,blue"`) makes the list invalid. */
  lemma BlankItemRejected(colors: string, j: nat)
    requires j < |Split(colors, ',')| && Trim(Split(colors, ',')[j]) == ""
    ensures ValidateColors(colors).Err?
  {
    var names := ParseColors(Some(colors));
    assert names[j] == ToLower("") == "";
    EmptyIsNoColor();
  }

  lemma EmptyIsNoColor()
    ensures "" !in ValidColors
  {
  }

  /** The concrete case: the empty item between the two commas is the one reported. */
  lemma DoubleCommaRejected()
    ensures ValidateColors("red,,blue") == Err(InvalidColor(""))
  {
    DoubleCommaPieces();
    NormalizePlainRed();
    RedAndBlueValid();
    ValidateFirstItem("red", ",blue");
    ValidateFirstItem("", "blue");
    NormalizeEmpty();
    EmptyIsNoColor();
  }

  lemma DoubleCommaPieces()
    ensures "red,,blue" == "red" + [','] + ",blue"
    ensures ",blue" == "" + [','] + "blue"
  {
  }

  lemma NormalizePlainRed()
    ensures ',' !in "red" && Normalize("red") == "red"
  {
    PlainName("red");
  }

  lemma NormalizeEmpty()
    ensures Normalize("") == ""
  {
  }

  /** Only one position can be the first invalid one. */
  lemma FirstInvalidUnique(names: seq<string>, vocabulary: set<string>, k: nat)
    requires FirstInvalidAt(names, vocabulary, k)
    ensures forall j: nat :: FirstInvalidAt(names, vocabulary, j) ==> j == k
  {
  }

  /** A name made of lower-case letters and underscores is already normal. */
  lemma PlainName(name: string)
    requires forall i :: 0 <= i < |name| ==> 'a' <= name[i] <= 'z' || name[i] == '_'
    ensures Normalize(name) == name && ',' !in name
  {
    assert Trim(name) == name;
  }

  /** A single plain name is the whole colour list, and is checked on its own. */
  lemma SingleName(name: string)
    requires forall i :: 0 <= i < |name| ==> 'a' <= name[i] <= 'z' || name[i] == '_'
    ensures ParseColors(Some(name)) == [name]
    ensures ValidateColors(name) == if name in ValidColors then Ok(()) else Err(InvalidColor(name))
  {
    PlainName(name);
    SplitWithoutSeparator(name, ',');
    var names := ParseColors(Some(name));
    assert names == [name];
    if name !in ValidColors {
      assert FirstInvalidAt(names, ValidColors, 0);
      FirstInvalidUnique(names, ValidColors, 0);
    }
  }

  /**
   * Every name `parse_colors` returns is lower-case and free of commas, and
   * without a comma the whole (normalised) option is the only name.
   */
  lemma {:induction false} ParsedNamesAreNormal(colors: string)
    ensures forall i :: 0 <= i < |ParseColors(Some(colors))| ==>
      IsLower(ParseColors(Some(colors))[i]) && ',' !in ParseColors(Some(colors))[i]
    ensures ',' !in colors ==> ParseColors(Some(colors)) == [Normalize(colors)]
  {
    var names := ParseColors(Some(colors));
    var items := Split(colors, ',');
    SplitPiecesFree(colors, ',');
    forall i | 0 <= i < |names|
      ensures IsLower(names[i]) && ',' !in names[i]
    {
      ToLowerIsLower(Trim(items[i]));
      TrimKeepsAbsent(items[i], ',');
      ToLowerKeepsComma(Trim(items[i]));
    }
    if ',' !in colors {
      SplitWithoutSeparator(colors, ',');
    }
  }

  lemma TrimKeepsAbsent(s: string, c: char)
    requires c !in s
    ensures c !in Trim(s)
  {
  }

  lemma ToLowerKeepsComma(s: string)
    requires ',' !in s
    ensures ',' !in ToLower(s)
  {
  }

  /** The default names give exactly the renderer's default gradient. */
  lemma DefaultNamesGiveDefaultScheme()
    ensures forall i :: 0 <= i < |DefaultColorNames| ==>
      Render.ParseColorName(DefaultColorNames[i]) == Ok(Render.DefaultScheme().colors[i])
  {
    Render.RedAnyCase();
    YellowParses();
    GreenParses();
    CyanParses();
    BlueParses();
  }

  lemma YellowParses()
    ensures Render.ParseColorName("yellow") == Ok(Render.Yellow)
  {
    assert ToLower("yellow") == "yellow";
  }

  lemma GreenParses()
    ensures Render.ParseColorName("green") == Ok(Render.Green)
  {
    assert ToLower("green") == "green";
  }

  lemma CyanParses()
    ensures Render.ParseColorName("cyan") == Ok(Render.Cyan)
  {
    assert ToLower("cyan") == "cyan";
  }

  lemma BlueParses()
    ensures Render.ParseColorName("blue") == Ok(Render.Blue)
  {
    assert ToLower("blue") == "blue";
  }

  // ---------------------------------------------------------------------
  // The validator's vocabulary against the renderer's

  /**
   * As written, validation and colour-name parsing disagree: `light_red`
   * passes `validate` but `parse_color_name` rejects it, so the program
   * exits only after audio capture has started.
   */
  lemma ValidatedColorMayNotParse()
    ensures Validate(Defaults().(colors := Some("light_red"))) == Ok(())
    ensures ParseColors(Some("light_red")) == ["light_red"]
    ensures Render.ParseColorName("light_red").Err?
  {
    SingleName("light_red");
    LightRedVocabulary();
  }

  /** And the other way round: `dark_red` is refused although the renderer accepts it. */
  lemma ParseableColorRefused()
    ensures Validate(Defaults().(colors := Some("dark_red"))) == Err(InvalidColor("dark_red"))
    ensures Render.ParseColorName("dark_red") == Ok(Render.DarkRed)
  {
    SingleName("dark_red");
    DarkRedVocabulary();
  }

  lemma LightRedVocabulary()
    ensures "light_red" in ValidColors && "light_red" !in Render.ColorNames
    ensures ToLower("light_red") == "light_red"
  {
  }

  lemma DarkRedVocabulary()
    ensures "dark_red" !in ValidColors && Render.ColorNames["dark_red"] == Render.DarkRed
    ensures ToLower("dark_red") == "dark_red"
  {
  }

  /** The vocabulary the renderer understands. */
  const SchemeColors: set<string> := Render.ColorNames.Keys

  /**
   * The colour check as evidently intended: a list passes iff
   * `parse_color_name` accepts every name `parse_colors` will hand it.
   */
  function ValidateSchemeColors(colors: string): (r: Result<(), ConfigError>)
    ensures var names := ParseColors(Some(colors));
      && (r.Ok? <==> forall i :: 0 <= i < |names| ==> Render.ParseColorName(names[i]).Ok?)
      && (r.Err? ==> exists k: nat :: FirstInvalidAt(names, SchemeColors, k) && r.error == InvalidColor(names[k]))
  {
    var names := ParseColors(Some(colors));
    ParsedNamesAreNormal(colors);
    LowerNamesParse(names);
    CheckColors(colors, SchemeColors)
  }

  lemma LowerNamesParse(names: seq<string>)
    requires forall i :: 0 <= i < |names| ==> IsLower(names[i])
    ensures forall i :: 0 <= i < |names| ==>
      (Render.ParseColorName(names[i]).Ok? <==> names[i] in SchemeColors)
  {
    forall i | 0 <= i < |names|
      ensures Render.ParseColorName(names[i]).Ok? <==> names[i] in SchemeColors
    {
      LowerIsFixed(names[i]);
    }
  }

  lemma LowerIsFixed(s: string)
    requires IsLower(s)
    ensures ToLower(s) == s
  {
  }

  /** `validate` with the corrected colour check; the other checks are unchanged. */
  function ValidateForScheme(config: CliConfig): (r: Result<(), ConfigError>)
    ensures r.Ok? <==>
      && MinSensitivity <= config.sensitivity <= MaxSensitivity
      && config.mode in ValidModes
      && (config.colors.Some? ==> ValidateSchemeColors(config.colors.value).Ok?)
    ensures !(MinSensitivity <= config.sensitivity <= MaxSensitivity) ==>
      r == Validate(config)
    ensures config.colors.None? ==> r == Validate(config)
    ensures !(MinSensitivity <= config.sensitivity <= MaxSensitivity) ==>
      r == Err(SensitivityOutOfRange(config.sensitivity))
    ensures MinSensitivity <= config.sensitivity <= MaxSensitivity && config.mode !in ValidModes ==>
      r == Err(InvalidMode(config.mode))
    ensures (MinSensitivity <= config.sensitivity <= MaxSensitivity && config.mode in ValidModes
             && config.colors.Some?) ==> r == ValidateSchemeColors(config.colors.value)
  {
    if !SensitivityInRange(config.sensitivity) then Err(SensitivityOutOfRange(config.sensitivity))
    else if config.mode !in ValidModes then Err(InvalidMode(config.mode))
    else if config.colors.Some? then ValidateSchemeColors(config.colors.value)
    else Ok(())
  }

  /** With the corrected check, every configuration that passes yields a colour scheme. */
  lemma ValidConfigBuildsScheme(config: CliConfig)
    requires ValidateForScheme(config).Ok?
    ensures forall i :: 0 <= i < |ParseColors(config.colors)| ==>
      Render.ParseColorName(ParseColors(config.colors)[i]).Ok?
  {
    if config.colors.None? {
      DefaultNamesGiveDefaultScheme();
    }
  }
}
