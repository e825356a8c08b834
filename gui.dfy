/**
 * The decision rules of the desktop window: the width slider and its preset
 * sizes, the quality tier shown next to the width, the usage recommendation
 * of a size, the description of a style, the reset of the background option
 * when the segmentation library is missing, and how a result is reported.
 */
module Gui {

  import opened Wrappers
  import opened Text
  import Palettes
  import opened Generator
  import opened Geometry
  import opened Imaging

  const SliderMin: int := 20
  const SliderMax: int := 300
  const InitialWidth: int := 80
  const InitialStyle: string := "standard"

  datatype Preset = Preset(caption: string, size: int)

  /** The preset-size buttons, left to right. */
  const Presets: seq<Preset> := [
    Preset("Très petit", 40), Preset("Petit", 60), Preset("Moyen", 80),
    Preset("Grand", 120), Preset("Très grand", 200), Preset("Énorme", 300)]

  // ------------------------------------------------------- width quality

  datatype Quality = Fast | Optimal | Detailed | HighQuality | UltraHd

  /** The tier of `update_width_label`; the five ranges partition the integers. */
  function QualityOf(size: int): (q: Quality)
    ensures q == Fast <==> size < 50
    ensures q == Optimal <==> 50 <= size < 80
    ensures q == Detailed <==> 80 <= size < 150
    ensures q == HighQuality <==> 150 <= size < 250
    ensures q == UltraHd <==> 250 <= size
  {
    if size < 50 then Fast
    else if size < 80 then Optimal
    else if size < 150 then Detailed
    else if size < 250 then HighQuality
    else UltraHd
  }

  function Rank(q: Quality): nat
  {
    match q
    case Fast => 0
    case Optimal => 1
    case Detailed => 2
    case HighQuality => 3
    case UltraHd => 4
  }

  /** A larger width never shows a lower tier. */
  lemma QualityMonotone(a: int, b: int)
    requires a <= b
    ensures Rank(QualityOf(a)) <= Rank(QualityOf(b))
  {
  }

  function QualityLabel(q: Quality): string
  {
    match q
    case Fast => "⚡ Rapide"
    case Optimal => "🚀 Optimal"
    case Detailed => "⭐ Détaillé"
    case HighQuality => "💎 Haute qualité"
    case UltraHd => "🔥 Ultra HD"
  }

  function DigitChar(d: nat): char
    requires d < 10
  {
    "0123456789"[d]
  }

  /** Python's `str` of a non-negative integer. */
  function NatToString(n: nat): (s: string)
    ensures |s| >= 1
    decreases n
  {
    if n < 10 then [DigitChar(n)] else NatToString(n / 10) + [DigitChar(n % 10)]
  }

  function IntToString(i: int): string
  {
    if i < 0 then "-" + NatToString(-i) else NatToString(i)
  }

  /** The width label text: the size, then the tier of that size. */
  function WidthLabel(size: int): (s: string)
    ensures var q := QualityLabel(QualityOf(size));
            |s| > |q| && s[|s| - |q|..] == q
  {
    var q := QualityLabel(QualityOf(size));
    var s := IntToString(size) + " caractères - " + q;
    assert s[|s| - |q|..] == q;
    s
  }

  // ------------------------------------------------------ recommendations

  const DefaultRecommendation: string := "Usage personnalisé"

  const Recommendations: map<int, string> := map[
    40 := "Aperçu rapide, icônes",
    60 := "Petits détails, miniatures",
    80 := "Usage général, équilibré",
    120 := "Beaux détails, impression",
    200 := "Haute qualité, affiches",
    300 := "Très haute résolution"]

  /** `get_size_recommendation`: the dedicated text of the six preset sizes, the default for any other. */
  function SizeRecommendation(size: int): (r: string)
    ensures r == DefaultRecommendation <==> size !in {40, 60, 80, 120, 200, 300}
  {
    if size in Recommendations then Recommendations[size] else DefaultRecommendation
  }

  /**
   * Every preset lies within the slider's range and has its own
   * recommendation, and the preset sizes are exactly the sizes that have one.
   */
  lemma PresetsAreRecommended()
    ensures forall k :: 0 <= k < |Presets| ==>
              SliderMin <= Presets[k].size <= SliderMax
              && SizeRecommendation(Presets[k].size) != DefaultRecommendation
    ensures (set k | 0 <= k < |Presets| :: Presets[k].size) == Recommendations.Keys
  {
    var sizes := set k | 0 <= k < |Presets| :: Presets[k].size;
    assert Presets[0].size == 40 && Presets[1].size == 60 && Presets[2].size == 80;
    assert Presets[3].size == 120 && Presets[4].size == 200 && Presets[5].size == 300;
    assert sizes == {40, 60, 80, 120, 200, 300};
  }

  // ------------------------------------------------------ style descriptions

  const StyleDescriptions: map<string, string> := map[
    "simple" := "Rapide, moins de détails",
    "standard" := "Bon équilibre qualité/vitesse",
    "detailed" := "Maximum de détails, plus lent",
    "blocks" := "Style pixel art"]

  /**
   * `update_style_description`: a description for exactly the styles the
   * generator has a palette for, and the empty text for any other name.
   */
  function StyleDescription(style: string): (d: string)
    ensures d != "" <==> style in Palettes.AsciiChars
    ensures style == InitialStyle ==> d == "Bon équilibre qualité/vitesse"
  {
    if style in StyleDescriptions then StyleDescriptions[style] else ""
  }

  // ------------------------------------------------------------ the window

  /** What the result area shows. */
  datatype Display =
    | Welcome
    | Shown(art: string, lines: nat, characters: nat, style: string, width: int, backgroundRemoved: bool)
    | Failed(text: string)

  /** The truthiness test of `_update_result`: neither `None` nor the empty string. */
  predicate Succeeded(art: Option<string>)
  {
    art.Some? && art.value != ""
  }

  /** The line statistic: pieces of the text between newlines. */
  function LineCount(art: string): (n: nat)
    ensures n == Count(art, '\n') + 1
  {
    |Split(art)|
  }

  const GenerationFailedText: string := "❌ Échec de la génération ASCII"

  /** The window state the modelled rules read and change. */
  class GeneratorWindow {
    const rembgAvailable: bool
    var style: string
    var width: int
    var removeBackground: bool
    var generateEnabled: bool
    var saveEnabled: bool
    var copyEnabled: bool
    var display: Display

    /** The initial widget state: standard style, width 80, no background removal, result buttons disabled. */
    constructor (rembgAvailable: bool)
      ensures this.rembgAvailable == rembgAvailable
      ensures style == InitialStyle && width == InitialWidth && !removeBackground
      ensures generateEnabled && !saveEnabled && !copyEnabled && display == Welcome
    {
      this.rembgAvailable := rembgAvailable;
      style := InitialStyle;
      width := InitialWidth;
      removeBackground := false;
      generateEnabled := true;
      saveEnabled := false;
      copyEnabled := false;
      display := Welcome;
    }

    /**
     * `on_background_option_change`: a ticked option is reset when the
     * segmentation library is missing; otherwise the option is left alone.
     */
    method OnBackgroundOptionChange()
      modifies this`removeBackground
      ensures removeBackground == (old(removeBackground) && rembgAvailable)
    {
      if removeBackground && !rembgAvailable {
        removeBackground := false;
      }
    }

    /** `set_width_preset`: the slider moves to the chosen size. */
    method SetWidthPreset(size: int)
      modifies this`width
      ensures width == size
    {
      width := size;
    }

    /**
     * `_update_result`: re-enables the generate button; a non-empty result is
     * shown with its statistics and enables saving and copying; anything else
     * shows the failure text and leaves the save and copy buttons as they were.
     */
    method UpdateResult(art: Option<string>)
      modifies this`generateEnabled, this`saveEnabled, this`copyEnabled, this`display
      ensures generateEnabled
      ensures Succeeded(art) ==>
                && saveEnabled && copyEnabled
                && display == Shown(art.value, LineCount(art.value), |art.value|, style, width, removeBackground)
      ensures !Succeeded(art) ==>
                && saveEnabled == old(saveEnabled) && copyEnabled == old(copyEnabled)
                && display == Failed(GenerationFailedText)
    {
      generateEnabled := true;
      if art.Some? && art.value != "" {
        var text := art.value;
        display := Shown(text, |Split(text)|, |text|, style, width, removeBackground);
        saveEnabled := true;
        copyEnabled := true;
      } else {
        display := Failed(GenerationFailedText);
      }
    }
  }

  /**
   * The failure path does not itself disable the result buttons: on a fresh
   * window they stay disabled, but after an earlier success they stay enabled
   * while the failure text is shown.
   */
  method ButtonsAfterFailure(rembgAvailable: bool, earlier: string)
    returns (freshSave: bool, laterSave: bool, laterCopy: bool, laterDisplay: Display)
    requires earlier != ""
    ensures !freshSave
    ensures laterSave && laterCopy && laterDisplay == Failed(GenerationFailedText)
  {
    var newWindow := new GeneratorWindow(rembgAvailable);
    newWindow.UpdateResult(None);
    freshSave := newWindow.saveEnabled;
    var usedWindow := new GeneratorWindow(rembgAvailable);
    usedWindow.UpdateResult(Some(earlier));
    usedWindow.UpdateResult(Some(""));
    laterSave, laterCopy, laterDisplay := usedWindow.saveEnabled, usedWindow.copyEnabled, usedWindow.display;
  }

  /**
   * How the window reports a generated result: it counts as a success exactly
   * when the image has two or more rows, or one row at least one glyph wide,
   * and the reported line count is then the number of rows.  A zero-row
   * image (see `ResizeHeightCanBeZero`) is reported as a failure.
   */
  lemma ReportedLinesAreRows(s: CacheState, chars: string, available: bool, req: Request, env: Environment)
    requires Coherent(s) && Palettes.IsRamp(chars) && WellFormed(env) && Lawful(env.lib)
    requires Loaded(s, req, env).image.Some?
    ensures var art := GenerateSpec(s, chars, available, req, env).art;
            var img := BackgroundImage(s, available, req, env);
            var rows := ResizeHeight(img.width, img.height, req.width);
            && (Succeeded(art) <==> rows >= 2 || (rows == 1 && req.width >= 1))
            && (Succeeded(art) ==> LineCount(art.value) == rows)
  {
    GenerateOutput(s, chars, available, req, env);
    var img := BackgroundImage(s, available, req, env);
    var lines := Generator.Render(chars, env.lib, img, req.width);
    JoinShape(lines);
    if |lines| == 1 {
      assert lines == [""] <==> |lines[0]| == 0;
    }
  }
}
