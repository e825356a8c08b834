/**
 * The `ASCIIGenerator` pipeline: load with a single-slot cache, optional
 * background removal with its own cached result, resize, grayscale, glyph
 * mapping, optional save, and the progress milestones reported on the way.
 */
module Generator {

  import opened Wrappers
  import opened Text
  import opened Palettes
  import opened Glyphs
  import opened Geometry
  import opened Imaging

  /** The cache fields of a generator instance. */
  datatype CacheState = CacheState(
    lastPath: Option<string>,
    original: Option<Image>,
    noBg: Option<Image>,
    imageCache: map<string, Image>)

  /** The cache of a freshly constructed generator. */
  const Initial: CacheState := CacheState(None, None, None, map[])

  /**
   * What every method keeps: a cached original belongs to a remembered path,
   * and cached images are at least one pixel wide.
   */
  predicate Coherent(s: CacheState)
  {
    && (s.original.Some? ==> s.lastPath.Some? && HasWidth(s.original.value))
    && (s.noBg.Some? ==> HasWidth(s.noBg.value))
  }

  /** The per-call outcomes supplied by the environment. */
  datatype Environment = Environment(
    fileExists: bool,            // os.path.exists(image_path)
    decoded: Option<Image>,      // Image.open(...) and its copy, or an exception
    segmentation: Segmentation,  // the rembg attempt
    saveSucceeds: bool,          // open(save_to_file, 'w').write(...)
    lib: Library)

  predicate WellFormed(env: Environment)
  {
    && (env.decoded.Some? ==> HasWidth(env.decoded.value))
    && (env.segmentation.Segmented? ==> HasWidth(env.segmentation.output))
  }

  // ---------------------------------------------------------------- loading

  /** `_clear_cache`: drops every cached image but keeps the remembered path. */
  function Cleared(s: CacheState): (c: CacheState)
    ensures Coherent(c) && c.lastPath == s.lastPath
    ensures c.original.None? && c.noBg.None? && |c.imageCache| == 0
  {
    CacheState(s.lastPath, None, None, map[])
  }

  datatype LoadStep = LoadStep(state: CacheState, image: Option<Image>)

  /**
   * `load_image`.  The cache is cleared before decoding, and the path is
   * remembered only after a successful decode; a path equal to the
   * remembered one is served from `original` without decoding.
   */
  function LoadSpec(s: CacheState, path: string, fileExists: bool, decoded: Option<Image>): (r: LoadStep)
    ensures r.image.Some? ==> fileExists && r.state.original == r.image && r.state.lastPath == Some(path)
    ensures r.state.lastPath == s.lastPath || r.state.lastPath == Some(path)
    ensures r.state.noBg == s.noBg || r.state.noBg.None?
    ensures r.state != s ==> fileExists && Some(path) != s.lastPath
  {
    if !fileExists then LoadStep(s, None)
    else if Some(path) != s.lastPath then
      match decoded
      case None => LoadStep(Cleared(s), None)
      case Some(img) => LoadStep(Cleared(s).(original := Some(img), lastPath := Some(path)), Some(img))
    else
      LoadStep(s, s.original)
  }

  /**
   * Loading keeps the cache coherent, and a successful load leaves the
   * returned image cached under the requested path.
   */
  lemma LoadKeepsCoherent(s: CacheState, path: string, fileExists: bool, decoded: Option<Image>)
    requires Coherent(s) && (decoded.Some? ==> HasWidth(decoded.value))
    ensures Coherent(LoadSpec(s, path, fileExists, decoded).state)
    ensures var r := LoadSpec(s, path, fileExists, decoded);
            r.image.Some? ==> r.state.lastPath == Some(path) && r.state.original == r.image && HasWidth(r.image.value)
  {
  }

  /** A missing file changes nothing and loads nothing. */
  lemma LoadMissing(s: CacheState, path: string, decoded: Option<Image>)
    ensures LoadSpec(s, path, false, decoded) == LoadStep(s, None)
  {
  }

  /** The remembered path is served from the cache: the decoder's outcome does not matter. */
  lemma LoadCachedIgnoresDecoder(s: CacheState, path: string, d1: Option<Image>, d2: Option<Image>)
    requires s.lastPath == Some(path)
    ensures LoadSpec(s, path, true, d1) == LoadSpec(s, path, true, d2) == LoadStep(s, s.original)
  {
  }

  /**
   * Loading A, then another path B that loads, then A again decodes A
   * afresh: the result is what the decoder gives on the third call, not the
   * image decoded on the first.
   */
  lemma SwitchingPathsReDecodes(s: CacheState, a: string, b: string, imgA: Image, imgB: Image, dA: Image)
    requires a != b
    ensures var s1 := LoadSpec(s, a, true, Some(imgA)).state;
            var s2 := LoadSpec(s1, b, true, Some(imgB)).state;
            LoadSpec(s2, a, true, Some(dA)).image == Some(dA)
  {
  }

  /**
   * The stale-path behaviour: after A has loaded, a failed decode of another
   * path B leaves A remembered but no image cached, so a later load of A
   * (which exists and would decode) returns nothing.
   */
  lemma FailedSwitchStrandsPreviousPath(s: CacheState, a: string, b: string, imgA: Image, dA: Option<Image>)
    requires a != b
    ensures var s1 := LoadSpec(s, a, true, Some(imgA)).state;
            var s2 := LoadSpec(s1, b, true, None).state;
            && s2.lastPath == Some(a) && s2.original == None
            && LoadSpec(s2, a, true, dA) == LoadStep(s2, None)
  {
  }

  // ------------------------------------------------------ background removal

  datatype RemoveStep = RemoveStep(state: CacheState, image: Image)

  /**
   * `remove_background`: a pass-through without the segmentation library; the
   * cached result whenever there is one, whatever the argument; otherwise the
   * segmentation output, flattened onto black when it has an alpha channel,
   * and cached; the argument itself when segmentation fails.
   */
  function RemoveBgSpec(s: CacheState, available: bool, image: Image, seg: Segmentation, lib: Library): (r: RemoveStep)
    ensures r.state.(noBg := s.noBg) == s
    ensures !available || s.noBg.Some? || seg.SegmentationError? ==> r.state == s
    ensures r.state.noBg != s.noBg ==> r.state.noBg == Some(r.image)
  {
    if !available then RemoveStep(s, image)
    else if s.noBg.Some? then RemoveStep(s, s.noBg.value)
    else
      match seg
      case SegmentationError => RemoveStep(s, image)
      case Segmented(out) =>
        var res := if out.mode == RGBA then lib.flattenOnBlack(out) else out;
        RemoveStep(s.(noBg := Some(res)), res)
  }

  /**
   * Background removal touches only `noBg`, keeps the cache coherent and
   * returns an image at least one pixel wide.  It never caches an RGBA
   * image, and what it caches is the image it returns.
   */
  lemma RemoveBgFacts(s: CacheState, available: bool, image: Image, seg: Segmentation, lib: Library)
    requires Coherent(s) && HasWidth(image) && (seg.Segmented? ==> HasWidth(seg.output)) && Lawful(lib)
    ensures var r := RemoveBgSpec(s, available, image, seg, lib);
            && Coherent(r.state) && HasWidth(r.image)
            && r.state.(noBg := s.noBg) == s
            && (r.state.noBg != s.noBg ==> r.state.noBg == Some(r.image) && r.image.mode != RGBA)
  {
  }

  /** Without the segmentation library the image passes through and the cache is untouched. */
  lemma RemoveBgUnavailable(s: CacheState, image: Image, seg: Segmentation, lib: Library)
    ensures RemoveBgSpec(s, false, image, seg, lib) == RemoveStep(s, image)
  {
  }

  /** A failed segmentation returns the argument and leaves the cache as it was. */
  lemma RemoveBgFailure(s: CacheState, image: Image, lib: Library)
    requires s.noBg.None?
    ensures RemoveBgSpec(s, true, image, SegmentationError, lib) == RemoveStep(s, image)
  {
  }

  /**
   * A successful segmentation with nothing cached yields the output, flattened
   * onto black exactly when its mode is RGBA, and caches it.
   */
  lemma RemoveBgSuccess(s: CacheState, image: Image, out: Image, lib: Library)
    requires s.noBg.None?
    ensures var res := if out.mode == RGBA then lib.flattenOnBlack(out) else out;
            RemoveBgSpec(s, true, image, Segmented(out), lib) == RemoveStep(s.(noBg := Some(res)), res)
  {
  }

  /** Once a result is cached, every later call returns it, whatever its argument or the segmentation outcome. */
  lemma RemoveBgCachedWins(s: CacheState, i1: Image, i2: Image, g1: Segmentation, g2: Segmentation, lib: Library)
    requires s.noBg.Some?
    ensures RemoveBgSpec(s, true, i1, g1, lib) == RemoveBgSpec(s, true, i2, g2, lib) == RemoveStep(s, s.noBg.value)
  {
  }

  // --------------------------------------------------------- resize and gray

  /** `resize_image`: exactly the requested width, and the truncated proportional height. */
  function ResizeImage(lib: Library, image: Image, width: nat): (r: Image)
    requires Lawful(lib) && HasWidth(image)
    ensures r.width == width
    ensures 100 * image.width * r.height <= 55 * image.height * width < 100 * image.width * (r.height + 1)
  {
    lib.resize(image, width, ResizeHeight(image.width, image.height, width))
  }

  /** `convert_to_grayscale` followed by `np.array`: one byte per pixel, same size. */
  function Grayscale(lib: Library, image: Image): (g: seq<seq<Luma>>)
    requires Lawful(lib)
    ensures IsLumaGrid(g, image.width, image.height)
  {
    lib.grayscale(image)
  }

  // -------------------------------------------------------------- progress

  /** The progress milestones `generate_ascii` reports, in the order it may report them. */
  datatype Milestone =
    | Loading
    | BackgroundCached
    | BackgroundRemoving
    | Resizing(width: nat)
    | ToGrayscale
    | Mapping
    | Saving(path: string)
    | SaveFailed
    | Done(lines: nat)
    | LoadFailed

  /** The step names passed to the progress callback. */
  function StepName(m: Milestone): (name: string)
    ensures |name| > 0
    ensures name[0] == '❌' <==> m.LoadFailed? || m.SaveFailed?
  {
    match m
    case Loading => "Chargement de l'image"
    case BackgroundCached => "Arrière-plan"
    case BackgroundRemoving => "Suppression arrière-plan"
    case Resizing(_) => "Redimensionnement"
    case ToGrayscale => "Conversion niveaux de gris"
    case Mapping => "Génération ASCII"
    case Saving(_) => "Sauvegarde"
    case SaveFailed => "❌ Erreur sauvegarde"
    case Done(_) => "✅ Terminé"
    case LoadFailed => "❌ Erreur"
  }

  /** The stage each milestone belongs to, in pipeline order. */
  function Stage(m: Milestone): nat
  {
    match m
    case Loading => 0
    case BackgroundCached => 1
    case BackgroundRemoving => 1
    case Resizing(_) => 2
    case ToGrayscale => 3
    case Mapping => 4
    case Saving(_) => 5
    case SaveFailed => 6
    case Done(_) => 7
    case LoadFailed => 8
  }

  /** Each milestone belongs to a later stage than the one before it. */
  predicate InStageOrder(t: seq<Milestone>)
  {
    |t| <= 1 || (Stage(t[0]) < Stage(t[1]) && InStageOrder(t[1..]))
  }

  lemma {:induction false} InStageOrderAppend(a: seq<Milestone>, b: seq<Milestone>)
    requires InStageOrder(a) && InStageOrder(b)
    requires |a| > 0 && |b| > 0 ==> Stage(a[|a| - 1]) < Stage(b[0])
    ensures InStageOrder(a + b)
  {
    if |a| > 1 {
      assert (a + b)[1..] == a[1..] + b;
      InStageOrderAppend(a[1..], b);
    } else if |a| == 1 {
      assert a + b == [a[0]] + b;
      if |b| > 0 {
        assert (a + b)[1..] == b;
      }
    } else {
      assert a + b == b;
    }
  }

  // ------------------------------------------------------------ generation

  /** The parameters of one `generate_ascii` call. */
  datatype Request = Request(path: string, width: nat, saveTo: Option<string>, removeBg: bool)

  /** Python truthiness of `save_to_file`: neither `None` nor the empty string. */
  predicate SaveRequested(req: Request)
  {
    req.saveTo.Some? && req.saveTo.value != ""
  }

  datatype FileWrite = FileWrite(path: string, content: string)

  /** The outcome of one call: new cache, result, progress trace and attempted file write. */
  datatype Run = Run(state: CacheState, art: Option<string>, trace: seq<Milestone>, write: Option<FileWrite>)

  function BackgroundSteps(removeBg: bool, cached: bool): seq<Milestone>
  {
    if !removeBg then [] else if cached then [BackgroundCached] else [BackgroundRemoving]
  }

  function SaveSteps(req: Request, saveSucceeds: bool): seq<Milestone>
  {
    if !SaveRequested(req) then []
    else if saveSucceeds then [Saving(req.saveTo.value)]
    else [Saving(req.saveTo.value), SaveFailed]
  }

  /** The image the optional background-removal stage hands to the resizer, and the cache after it. */
  function BackgroundStage(s: CacheState, available: bool, removeBg: bool, image: Image, env: Environment): RemoveStep
  {
    if removeBg then RemoveBgSpec(s, available, image, env.segmentation, env.lib) else RemoveStep(s, image)
  }

  /** The lines rendered from an image through resize, grayscale and glyph mapping. */
  function Render(chars: string, lib: Library, image: Image, width: nat): (lines: seq<string>)
    requires |chars| >= 1 && Lawful(lib) && HasWidth(image)
    ensures |lines| == ResizeHeight(image.width, image.height, width)
    ensures forall i :: 0 <= i < |lines| ==> |lines[i]| == width
    ensures forall i, j :: 0 <= i < |lines| && 0 <= j < |lines[i]| ==> lines[i][j] in chars
  {
    AsciiLines(chars, Grayscale(lib, ResizeImage(lib, image, width)))
  }

  /** The load stage of a request. */
  function Loaded(s: CacheState, req: Request, env: Environment): LoadStep
  {
    LoadSpec(s, req.path, env.fileExists, env.decoded)
  }

  /** The image handed to the resizer once loading has succeeded. */
  function BackgroundImage(s: CacheState, available: bool, req: Request, env: Environment): (img: Image)
    requires Coherent(s) && WellFormed(env) && Lawful(env.lib) && Loaded(s, req, env).image.Some?
    ensures HasWidth(img)
  {
    var ld := Loaded(s, req, env);
    LoadKeepsCoherent(s, req.path, env.fileExists, env.decoded);
    RemoveBgFacts(ld.state, available, ld.image.value, env.segmentation, env.lib);
    BackgroundStage(ld.state, available, req.removeBg, ld.image.value, env).image
  }

  /** The milestones of a successful run, in the order `generate_ascii` reports them. */
  function SuccessTrace(req: Request, cached: bool, saveSucceeds: bool, lines: nat): seq<Milestone>
  {
    [Loading] + BackgroundSteps(req.removeBg, cached)
    + [Resizing(req.width), ToGrayscale, Mapping]
    + SaveSteps(req, saveSucceeds) + [Done(lines)]
  }

  /** `generate_ascii` on a cache state, a glyph ramp and the segmentation-library flag. */
  function GenerateSpec(s: CacheState, chars: string, available: bool, req: Request, env: Environment): (r: Run)
    requires Coherent(s) && |chars| >= 1 && WellFormed(env) && Lawful(env.lib)
    ensures r.art.None? <==> Loaded(s, req, env).image.None?
    ensures r.write.Some? ==> r.art.Some? && SaveRequested(req) && r.write.value.content == r.art.value
    ensures |r.trace| >= 2 && r.trace[0] == Loading
  {
    var ld := Loaded(s, req, env);
    if ld.image.None? then
      Run(ld.state, None, [Loading, LoadFailed], None)
    else
      LoadKeepsCoherent(s, req.path, env.fileExists, env.decoded);
      var bg := BackgroundStage(ld.state, available, req.removeBg, ld.image.value, env);
      var lines := Render(chars, env.lib, BackgroundImage(s, available, req, env), req.width);
      var art := Join(lines);
      Run(bg.state, Some(art), SuccessTrace(req, ld.state.noBg.Some?, env.saveSucceeds, |lines|),
          if SaveRequested(req) then Some(FileWrite(req.saveTo.value, art)) else None)
  }

  /** `GenerateSpec` of a request whose load succeeds, stage by stage. */
  lemma GenerateSpecSuccess(s: CacheState, chars: string, available: bool, req: Request, env: Environment)
    requires Coherent(s) && |chars| >= 1 && WellFormed(env) && Lawful(env.lib)
    requires Loaded(s, req, env).image.Some?
    ensures var ld := Loaded(s, req, env);
            var lines := Render(chars, env.lib, BackgroundImage(s, available, req, env), req.width);
            GenerateSpec(s, chars, available, req, env) ==
              Run(BackgroundStage(ld.state, available, req.removeBg, ld.image.value, env).state,
                  Some(Join(lines)),
                  SuccessTrace(req, ld.state.noBg.Some?, env.saveSucceeds, |lines|),
                  if SaveRequested(req) then Some(FileWrite(req.saveTo.value, Join(lines))) else None)
  {
  }

  /**
   * Only loading can fail the pipeline: the result is absent exactly when the
   * load returns nothing, and then the trace stops at the load error, no file
   * is written and the cache is what loading left.
   */
  lemma GenerateFailsOnlyOnLoad(s: CacheState, chars: string, available: bool, req: Request, env: Environment)
    requires Coherent(s) && |chars| >= 1 && WellFormed(env) && Lawful(env.lib)
    ensures var r := GenerateSpec(s, chars, available, req, env);
            var ld := LoadSpec(s, req.path, env.fileExists, env.decoded);
            && (r.art.None? <==> ld.image.None?)
            && (r.art.None? ==> r.trace == [Loading, LoadFailed] && r.write.None? && r.state == ld.state)
  {
  }

  /**
   * On success the result is the '\n'-join of one line per resized row, each
   * exactly `width` glyphs of the selected ramp, the final milestone reports
   * that many lines, and a requested save writes exactly the result; when
   * there is at least one line, splitting the result at newlines gives back
   * exactly those lines.
   */
  lemma GenerateOutput(s: CacheState, chars: string, available: bool, req: Request, env: Environment)
    requires Coherent(s) && IsRamp(chars) && WellFormed(env) && Lawful(env.lib)
    requires Loaded(s, req, env).image.Some?
    ensures var r := GenerateSpec(s, chars, available, req, env);
            var img := BackgroundImage(s, available, req, env);
            var lines := Render(chars, env.lib, img, req.width);
            && r.art == Some(Join(lines))
            && |lines| == ResizeHeight(img.width, img.height, req.width)
            && (forall i :: 0 <= i < |lines| ==> |lines[i]| == req.width)
            && (forall i, j :: 0 <= i < |lines| && 0 <= j < |lines[i]| ==> lines[i][j] in chars)
            && NoNewlines(lines)
            && r.trace[|r.trace| - 1] == Done(|lines|)
            && (SaveRequested(req) ==> r.write == Some(FileWrite(req.saveTo.value, Join(lines))))
            && (|lines| >= 1 ==> Split(Join(lines)) == lines)
  {
    var img := BackgroundImage(s, available, req, env);
    var lines := Render(chars, env.lib, img, req.width);
    assert NoNewlines(lines) by {
      forall k | 0 <= k < |lines| ensures '\n' !in lines[k] {
        assert forall j :: 0 <= j < |lines[k]| ==> lines[k][j] in chars;
      }
    }
    if |lines| >= 1 {
      SplitJoin(lines);
    }
  }

  /**
   * A failed save does not change the result, the cache or the write that
   * was attempted; it only adds the save-error milestone.
   */
  lemma SaveFailureKeepsResult(s: CacheState, chars: string, available: bool, req: Request, env: Environment)
    requires Coherent(s) && |chars| >= 1 && WellFormed(env) && Lawful(env.lib)
    ensures var ok := GenerateSpec(s, chars, available, req, env.(saveSucceeds := true));
            var bad := GenerateSpec(s, chars, available, req, env.(saveSucceeds := false));
            && ok.art == bad.art && ok.state == bad.state && ok.write == bad.write
            && SaveFailed !in ok.trace
            && (SaveFailed in bad.trace <==> bad.art.Some? && SaveRequested(req))
  {
  }

  /**
   * The milestones come in pipeline order, loading first, and `Done` is
   * last exactly on success.
   */
  lemma GenerateTraceOrder(s: CacheState, chars: string, available: bool, req: Request, env: Environment)
    requires Coherent(s) && |chars| >= 1 && WellFormed(env) && Lawful(env.lib)
    ensures var t := GenerateSpec(s, chars, available, req, env).trace;
            && InStageOrder(t) && |t| >= 2 && t[0] == Loading
            && (GenerateSpec(s, chars, available, req, env).art.Some? <==> t[|t| - 1].Done?)
  {
    var ld := Loaded(s, req, env);
    if ld.image.None? {
      GenerateFailsOnlyOnLoad(s, chars, available, req, env);
    } else {
      GenerateSpecSuccess(s, chars, available, req, env);
      var n := |Render(chars, env.lib, BackgroundImage(s, available, req, env), req.width)|;
      var a := [Loading] + BackgroundSteps(req.removeBg, ld.state.noBg.Some?);
      var b := [Resizing(req.width), ToGrayscale, Mapping];
      var c := SaveSteps(req, env.saveSucceeds);
      InStageOrderAppend(a, b);
      InStageOrderAppend(a + b, c);
      InStageOrderAppend(a + b + c, [Done(n)]);
      assert SuccessTrace(req, ld.state.noBg.Some?, env.saveSucceeds, n) == a + b + c + [Done(n)];
    }
  }

  /**
   * Which milestones a run reports: a background milestone exactly on a
   * successful run that asked for removal, a save milestone exactly on a
   * successful run with a save path, and the resize, grayscale and mapping
   * milestones on every successful run.
   */
  lemma GenerateTraceMilestones(s: CacheState, chars: string, available: bool, req: Request, env: Environment)
    requires Coherent(s) && |chars| >= 1 && WellFormed(env) && Lawful(env.lib)
    ensures var r := GenerateSpec(s, chars, available, req, env);
            var t := r.trace;
            && ((BackgroundCached in t || BackgroundRemoving in t) <==> r.art.Some? && req.removeBg)
            && ((exists k :: 0 <= k < |t| && t[k].Saving?) <==> r.art.Some? && SaveRequested(req))
            && (r.art.Some? ==> Resizing(req.width) in t && ToGrayscale in t && Mapping in t)
  {
    var ld := Loaded(s, req, env);
    if ld.image.Some? {
      GenerateSpecSuccess(s, chars, available, req, env);
      var t := GenerateSpec(s, chars, available, req, env).trace;
      var a := [Loading] + BackgroundSteps(req.removeBg, ld.state.noBg.Some?);
      if SaveRequested(req) {
        assert t[|a| + 3].Saving?;
      }
    }
  }

  /**
   * Converting the same path twice with the same parameters gives the same
   * art and leaves the same cache, once the first conversion has succeeded:
   * the second load is served from the cache, and so is a background
   * removal that succeeded the first time.
   */
  lemma GenerateTwiceSameArt(s: CacheState, chars: string, available: bool, req: Request, env1: Environment, env2: Environment)
    requires Coherent(s) && |chars| >= 1
    requires WellFormed(env1) && Lawful(env1.lib) && WellFormed(env2)
    requires env2.fileExists && env2.lib == env1.lib && env2.segmentation == env1.segmentation
    requires GenerateSpec(s, chars, available, req, env1).art.Some?
    ensures var r1 := GenerateSpec(s, chars, available, req, env1);
            r1.art == GenerateSpec(r1.state, chars, available, req, env2).art
            && r1.state == GenerateSpec(r1.state, chars, available, req, env2).state
  {
    var ld := LoadSpec(s, req.path, env1.fileExists, env1.decoded);
    LoadKeepsCoherent(s, req.path, env1.fileExists, env1.decoded);
    RemoveBgFacts(ld.state, available, ld.image.value, env1.segmentation, env1.lib);
    var r1 := GenerateSpec(s, chars, available, req, env1);
    var ld2 := LoadSpec(r1.state, req.path, env2.fileExists, env2.decoded);
    assert ld2.image == ld.image;
  }

  // ------------------------------------------------------------ the class

  /** An `ASCIIGenerator` instance: its fixed ramp and its cache fields. */
  class AsciiGenerator {
    const chars: string
    const rembgAvailable: bool
    var imageCache: map<string, Image>
    var lastImagePath: Option<string>
    var originalImage: Option<Image>
    var noBgImage: Option<Image>

    function State(): CacheState
      reads this
    {
      CacheState(lastImagePath, originalImage, noBgImage, imageCache)
    }

    ghost predicate Valid()
      reads this
    {
      IsRamp(chars) && Coherent(State())
    }

    /** `__init__`: the ramp of the named style (standard if unknown) and an empty cache. */
    constructor (style: string, rembgAvailable: bool)
      ensures Valid()
      ensures chars == Lookup(style) && IsPalette(chars) && this.rembgAvailable == rembgAvailable
      ensures State() == Initial
    {
      PaletteFacts(Lookup(style));
      chars := Lookup(style);
      this.rembgAvailable := rembgAvailable;
      imageCache := map[];
      lastImagePath := None;
      originalImage := None;
      noBgImage := None;
    }

    /** `_clear_cache`. */
    method ClearCache()
      requires Valid()
      modifies this
      ensures Valid()
      ensures State() == Cleared(old(State()))
      ensures lastImagePath == old(lastImagePath)
      ensures originalImage == None && noBgImage == None && imageCache == map[]
    {
      imageCache := map[];
      originalImage := None;
      noBgImage := None;
    }

    /** `load_image`; `fileExists` and `decoded` are what the file system and the decoder report. */
    method LoadImage(path: string, fileExists: bool, decoded: Option<Image>) returns (image: Option<Image>)
      requires Valid() && (decoded.Some? ==> HasWidth(decoded.value))
      modifies this
      ensures Valid()
      ensures LoadStep(State(), image) == LoadSpec(old(State()), path, fileExists, decoded)
      ensures !fileExists ==> image == None && State() == old(State())
      ensures fileExists && Some(path) == old(lastImagePath) ==>
                image == old(originalImage) && State() == old(State())
      ensures fileExists && Some(path) != old(lastImagePath) ==>
                && originalImage == decoded && noBgImage == None && imageCache == map[]
                && image == decoded
                && lastImagePath == (if decoded.Some? then Some(path) else old(lastImagePath))
    {
      if !fileExists {
        return None;
      }
      if Some(path) != lastImagePath {
        ClearCache();
        match decoded {
          case None =>
            return None;
          case Some(img) =>
            originalImage := Some(img);
            lastImagePath := Some(path);
            return Some(img);
        }
      } else {
        return originalImage;
      }
    }

    /** `remove_background`; `seg` is what the segmentation attempt yields. */
    method RemoveBackground(image: Image, seg: Segmentation, lib: Library) returns (result: Image)
      requires Valid() && HasWidth(image) && (seg.Segmented? ==> HasWidth(seg.output)) && Lawful(lib)
      modifies this
      ensures Valid()
      ensures RemoveStep(State(), result) == RemoveBgSpec(old(State()), rembgAvailable, image, seg, lib)
      ensures lastImagePath == old(lastImagePath) && originalImage == old(originalImage)
      ensures imageCache == old(imageCache)
    {
      RemoveBgFacts(State(), rembgAvailable, image, seg, lib);
      if !rembgAvailable {
        return image;
      }
      if noBgImage.Some? {
        return noBgImage.value;
      }
      match seg {
        case SegmentationError =>
          return image;
        case Segmented(out) =>
          result := out;
          if out.mode == RGBA {
            result := lib.flattenOnBlack(out);
          }
          noBgImage := Some(result);
      }
    }

    /** `pixels_to_ascii`: one line per pixel row, appended top to bottom. */
    method PixelsToAscii(pixels: seq<seq<Luma>>) returns (lines: seq<string>)
      requires |chars| >= 1
      ensures lines == AsciiLines(chars, pixels)
    {
      lines := [];
      for i := 0 to |pixels|
        invariant |lines| == i
        invariant forall k :: 0 <= k < i ==> lines[k] == RowToLine(chars, pixels[k])
      {
        var line := RowToLine(chars, pixels[i]);
        lines := lines + [line];
      }
    }

    /**
     * The resize, grayscale and glyph-mapping stages of `generate_ascii`,
     * each handing its image to the next.
     */
    method RenderLines(img: Image, width: nat, lib: Library) returns (lines: seq<string>)
      requires |chars| >= 1 && HasWidth(img) && Lawful(lib)
      ensures lines == Render(chars, lib, img, width)
    {
      var resized := ResizeImage(lib, img, width);
      var gray := Grayscale(lib, resized);
      lines := PixelsToAscii(gray);
    }

    /**
     * The optional background stage of `generate_ascii`: the milestone it
     * reports (which depends on whether a result is already cached) and the
     * call to `remove_background`.
     */
    method BackgroundStep(image: Image, removeBg: bool, env: Environment) returns (img: Image, steps: seq<Milestone>)
      requires Valid() && HasWidth(image) && WellFormed(env) && Lawful(env.lib)
      modifies this
      ensures Valid()
      ensures steps == BackgroundSteps(removeBg, old(noBgImage).Some?)
      ensures RemoveStep(State(), img) ==
                BackgroundStage(old(State()), rembgAvailable, removeBg, image, env)
    {
      img, steps := image, [];
      if removeBg {
        if noBgImage.Some? {
          steps := [BackgroundCached];
        } else {
          steps := [BackgroundRemoving];
        }
        img := RemoveBackground(image, env.segmentation, env.lib);
      }
    }

    /**
     * `generate_ascii`.  The result is absent only when loading fails; the
     * trace lists the progress milestones reported; `write` is the file
     * write attempted when a save path was given.
     */
    method GenerateAscii(req: Request, env: Environment)
      returns (art: Option<string>, trace: seq<Milestone>, write: Option<FileWrite>)
      requires Valid() && WellFormed(env) && Lawful(env.lib)
      modifies this
      ensures Valid()
      ensures State() == GenerateSpec(old(State()), chars, rembgAvailable, req, env).state
      ensures art == GenerateSpec(old(State()), chars, rembgAvailable, req, env).art
      ensures trace == GenerateSpec(old(State()), chars, rembgAvailable, req, env).trace
      ensures write == GenerateSpec(old(State()), chars, rembgAvailable, req, env).write
    {
      ghost var s0 := State();
      trace := [Loading];
      var image := LoadImage(req.path, env.fileExists, env.decoded);
      if image.None? {
        trace := trace + [LoadFailed];
        GenerateFailsOnlyOnLoad(s0, chars, rembgAvailable, req, env);
        return None, trace, None;
      }
      var img, steps := BackgroundStep(image.value, req.removeBg, env);
      trace := trace + steps;
      ghost var afterBg := State();
      assert img == BackgroundImage(s0, rembgAvailable, req, env);
      trace := trace + [Resizing(req.width), ToGrayscale, Mapping];
      var lines := RenderLines(img, req.width, env.lib);
      ghost var beforeSave := trace;
      var joined := Join(lines);
      write := None;
      if SaveRequested(req) {
        trace := trace + [Saving(req.saveTo.value)];
        write := Some(FileWrite(req.saveTo.value, joined));
        if !env.saveSucceeds {
          trace := trace + [SaveFailed];
        }
      }
      assert trace == beforeSave + SaveSteps(req, env.saveSucceeds);
      trace := trace + [Done(|lines|)];
      art := Some(joined);
      assert trace == SuccessTrace(req, Loaded(s0, req, env).state.noBg.Some?, env.saveSucceeds, |lines|);
      assert State() == afterBg;
      GenerateSpecSuccess(s0, chars, rembgAvailable, req, env);
    }
  }

  /**
   * The stale-path behaviour on a generator object: A loads, B exists but
   * fails to decode, and a third load of A, which exists and decodes, still
   * returns nothing.
   */
  method StalePathScenario(a: string, b: string, imgA: Image, rembg: bool) returns (first: Option<Image>, third: Option<Image>)
    requires a != b && HasWidth(imgA)
    ensures first == Some(imgA)
    ensures third == None
  {
    var g := new AsciiGenerator("standard", rembg);
    first := g.LoadImage(a, true, Some(imgA));
    var second := g.LoadImage(b, true, None);
    assert second == None;
    third := g.LoadImage(a, true, Some(imgA));
  }
}
