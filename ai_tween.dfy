/**
 * AI tweening (the Interpolate with AI operator): check the settings, render
 * the current and the next frame to stills in a temporary directory, run FILM
 * or ToonCrafter on them, cut the result into numbered stills with ffmpeg, and
 * publish those as an image-sequence empty. Processes, renders and the file
 * system are outside the model: the run is described by the ordered list of
 * effects it requests, and by the values it hands to each of them.
 */
module AITween {
  import opened Wrappers
  import opened Text
  import opened Scene

  datatype Interpolator = Film | ToonCrafter

  /** The AI-tween part of the smart bone tool's settings. */
  datatype TweenSettings = TweenSettings(
    interpolator: Interpolator,
    filmPath: string,
    toonCrafterPath: string,
    modelPath: string,
    prompt: string,
    timesToInterpolate: int)

  /** The reasons the operator cancels, each with the message it reports. */
  datatype TweenError =
    | MissingFilmPaths         // "Set FILM and model paths"
    | MissingToonCrafterPaths  // "Set ToonCrafter and model paths"
    | NoActiveObject           // no active object: reading its type raises
    | NotGreasePencil          // "Select Grease Pencil"

  /** The chosen interpolator has its installation path and the model path set. */
  predicate PathsSet(t: TweenSettings) {
    match t.interpolator
    case Film => t.filmPath != "" && t.modelPath != ""
    case ToonCrafter => t.toonCrafterPath != "" && t.modelPath != ""
  }

  /**
   * Lines 835-847: the checks made before anything is created. `target` is
   * the active object's kind, None when there is no active object.
   */
  function Validate(t: TweenSettings, target: Option<ObjectKind>): (r: Option<TweenError>)
    ensures r == Some(MissingFilmPaths) <==> t.interpolator == Film && (t.filmPath == "" || t.modelPath == "")
    ensures r == Some(MissingToonCrafterPaths) <==>
              t.interpolator == ToonCrafter && (t.toonCrafterPath == "" || t.modelPath == "")
    ensures r == Some(NoActiveObject) <==> PathsSet(t) && target.None?
    ensures r == Some(NotGreasePencil) <==> PathsSet(t) && target.Some? && target.value != GreasePencil
    ensures r.None? <==> PathsSet(t) && target == Some(GreasePencil)
  {
    if t.interpolator == Film && (t.filmPath == "" || t.modelPath == "") then Some(MissingFilmPaths)
    else if t.interpolator == ToonCrafter && (t.toonCrafterPath == "" || t.modelPath == "") then Some(MissingToonCrafterPaths)
    else if target.None? then Some(NoActiveObject)
    else if target.value != GreasePencil then Some(NotGreasePencil)
    else None
  }

  // ---------------------------------------------------------------------
  // The work directory
  // ---------------------------------------------------------------------

  /** The paths of lines 852-856 and 889 under the temporary directory. */
  datatype WorkLayout = WorkLayout(
    root: string,
    frame1: string,
    frame2: string,
    outDir: string,
    extractDir: string,
    configPath: string)

  function Layout(tempDir: string): WorkLayout {
    var outDir := Join(tempDir, "output");
    WorkLayout(tempDir, Join(tempDir, "frame1.png"), Join(tempDir, "frame2.png"),
               outDir, Join(outDir, "frames"), Join(tempDir, "config.yaml"))
  }

  /** `path` lies inside directory `dir`. */
  predicate Under(path: string, dir: string) {
    |path| > |dir| + 1 && path[..|dir| + 1] == dir + "/"
  }

  /** Where each interpolator leaves its video (lines 881, 885 and 915). */
  function VideoPath(interpolator: Interpolator, l: WorkLayout): string {
    match interpolator
    case Film => Join(l.outDir, "interp.mp4")
    case ToonCrafter => Join(Join(Join(l.outDir, "samples"), "sample_0"), "video.gif")
  }

  /** The k-th still ffmpeg writes for the output pattern `frame%03d.png`, counting from 1. */
  function ExtractedFrame(l: WorkLayout, k: nat): string {
    Join(l.extractDir, "frame" + Pad3(k) + ".png")
  }

  lemma JoinUnder(dir: string, name: string)
    requires |name| > 0
    ensures Under(Join(dir, name), dir)
  {
    assert Join(dir, name)[..|dir| + 1] == dir + "/";
  }

  lemma UnderTransitive(path: string, dir: string, parent: string)
    requires Under(path, dir) && Under(dir, parent)
    ensures Under(path, parent)
  {
    assert path[..|parent| + 1] == path[..|dir| + 1][..|parent| + 1];
  }

  /**
   * Every file the run writes lies inside its temporary directory, the
   * extracted stills inside the output directory, and the two stills and the
   * two possible videos are four different files.
   */
  lemma LayoutUnderTemp(tempDir: string, k: nat)
    ensures var l := Layout(tempDir);
            && Under(l.frame1, tempDir) && Under(l.frame2, tempDir) && Under(l.configPath, tempDir)
            && Under(l.outDir, tempDir) && Under(l.extractDir, l.outDir)
            && Under(VideoPath(Film, l), l.outDir) && Under(VideoPath(ToonCrafter, l), l.outDir)
            && Under(ExtractedFrame(l, k), l.extractDir) && Under(ExtractedFrame(l, k), tempDir)
            && l.frame1 != l.frame2
            && VideoPath(Film, l) != VideoPath(ToonCrafter, l)
  {
    var l := Layout(tempDir);
    JoinUnder(tempDir, "frame1.png");
    JoinUnder(tempDir, "frame2.png");
    JoinUnder(tempDir, "config.yaml");
    JoinUnder(tempDir, "output");
    JoinUnder(l.outDir, "frames");
    JoinUnder(l.outDir, "interp.mp4");
    var samples := Join(l.outDir, "samples");
    JoinUnder(l.outDir, "samples");
    JoinUnder(samples, "sample_0");
    JoinUnder(Join(samples, "sample_0"), "video.gif");
    UnderTransitive(Join(samples, "sample_0"), samples, l.outDir);
    UnderTransitive(VideoPath(ToonCrafter, l), Join(samples, "sample_0"), l.outDir);
    JoinUnder(l.extractDir, "frame" + Pad3(k) + ".png");
    UnderTransitive(ExtractedFrame(l, k), l.extractDir, l.outDir);
    UnderTransitive(ExtractedFrame(l, k), l.outDir, tempDir);
    assert l.frame1[|tempDir| + 6] == '1' && l.frame2[|tempDir| + 6] == '2';
    var p := |l.outDir| + 1;
    assert VideoPath(Film, l)[p] == 'i' && VideoPath(ToonCrafter, l)[p] == 's';
  }

  // ---------------------------------------------------------------------
  // FILM
  // ---------------------------------------------------------------------

  /**
   * A glob with one `*` (which does not match `/`), as FILM's `--pattern`
   * receives it. A pattern without a star matches only itself.
   */
  predicate GlobMatch(pattern: string, path: string) {
    match IndexOf(pattern, '*')
    case None => path == pattern
    case Some(k) =>
      var prefix := pattern[..k];
      var suffix := pattern[k + 1..];
      && |prefix| + |suffix| <= |path|
      && path[..|prefix|] == prefix
      && path[|path| - |suffix|..] == suffix
      && '/' !in path[|prefix|..|path| - |suffix|]
  }

  lemma StarPosition(prefix: string, suffix: string)
    requires '*' !in prefix
    ensures IndexOf(prefix + "*" + suffix, '*') == Some(|prefix|)
  {
    var pattern := prefix + "*" + suffix;
    assert pattern[..|prefix|] == prefix;
    assert pattern[|prefix|] == '*';
  }

  /** A path made of the prefix, a middle without `/`, and the suffix matches. */
  lemma GlobMatchesMiddle(prefix: string, suffix: string, middle: string)
    requires '*' !in prefix && '/' !in middle
    ensures GlobMatch(prefix + "*" + suffix, prefix + middle + suffix)
  {
    StarPosition(prefix, suffix);
    var pattern := prefix + "*" + suffix;
    var path := prefix + middle + suffix;
    assert pattern[..|prefix|] == prefix && pattern[|prefix| + 1..] == suffix;
    assert path[..|prefix|] == prefix;
    assert path[|path| - |suffix|..] == suffix;
    assert path[|prefix|..|path| - |suffix|] == middle;
  }

  /** A path that differs from the prefix at some position does not match. */
  lemma GlobRejectsPrefix(prefix: string, suffix: string, path: string, i: nat)
    requires '*' !in prefix && i < |prefix| && i < |path| && path[i] != prefix[i]
    ensures !GlobMatch(prefix + "*" + suffix, path)
  {
    StarPosition(prefix, suffix);
    var pattern := prefix + "*" + suffix;
    assert pattern[..|prefix|] == prefix;
    if |prefix| <= |path| {
      assert path[..|prefix|][i] == path[i];
    }
  }

  function FilmPattern(l: WorkLayout): string {
    l.root + "/frame*.png"
  }

  /** An external process run: the argument list and the working directory. */
  datatype Command = Command(args: seq<string>, cwd: Option<string>)

  /** Lines 876-883: FILM's interpolator_cli, run in the FILM directory. */
  function FilmCommand(python: string, t: TweenSettings, l: WorkLayout): (c: Command)
    ensures |c.args| == 11 && c.cwd == Some(t.filmPath)
    ensures c.args[0] == python && c.args[1] == "-m" && c.args[2] == "frame_interpolation.interpolator_cli"
    ensures c.args[3] == "--pattern" && c.args[4] == FilmPattern(l)
    ensures c.args[5] == "--model_path" && c.args[6] == t.modelPath
    ensures c.args[7] == "--times_to_interpolate" && c.args[8] == IntToString(t.timesToInterpolate)
    ensures c.args[9] == "--output_video" && c.args[10] == VideoPath(Film, l)
  {
    Command([python, "-m", "frame_interpolation.interpolator_cli",
             "--pattern", FilmPattern(l),
             "--model_path", t.modelPath,
             "--times_to_interpolate", IntToString(t.timesToInterpolate),
             "--output_video", Join(l.outDir, "interp.mp4")],
            Some(t.filmPath))
  }

  /** FILM reads back the number of passes it was given. */
  lemma FilmTimesRoundTrip(python: string, t: TweenSettings, l: WorkLayout)
    ensures var a := FilmCommand(python, t, l).args[8];
            && (a[0] == '-' ==> IsDigits(a[1..])) && (a[0] != '-' ==> IsDigits(a))
            && ParseInt(a) == t.timesToInterpolate
  {
    IntToStringRoundTrip(t.timesToInterpolate);
  }

  /** The two stills match FILM's input pattern. */
  lemma FilmPatternSelectsStills(tempDir: string)
    requires '*' !in tempDir
    ensures var l := Layout(tempDir);
            GlobMatch(FilmPattern(l), l.frame1) && GlobMatch(FilmPattern(l), l.frame2)
  {
    var l := Layout(tempDir);
    var prefix := tempDir + "/frame";
    assert '*' !in prefix;
    assert FilmPattern(l) == prefix + "*" + ".png";
    assert l.frame1 == prefix + "1" + ".png" && l.frame2 == prefix + "2" + ".png";
    GlobMatchesMiddle(prefix, ".png", "1");
    GlobMatchesMiddle(prefix, ".png", "2");
  }

  /**
   * No other file of the run matches FILM's input pattern: not the config
   * file, not a video, not an extracted still. (A temporary directory name
   * holds no `*`.)
   */
  lemma FilmPatternSkipsOthers(tempDir: string, k: nat)
    requires '*' !in tempDir
    ensures var l := Layout(tempDir);
            && !GlobMatch(FilmPattern(l), l.configPath)
            && !GlobMatch(FilmPattern(l), VideoPath(Film, l))
            && !GlobMatch(FilmPattern(l), VideoPath(ToonCrafter, l))
            && !GlobMatch(FilmPattern(l), ExtractedFrame(l, k))
  {
    var l := Layout(tempDir);
    var prefix := tempDir + "/frame";
    var i := |tempDir| + 1;
    assert '*' !in prefix && prefix[i] == 'f';
    assert FilmPattern(l) == prefix + "*" + ".png";
    assert l.configPath[i] == 'c';
    GlobRejectsPrefix(prefix, ".png", l.configPath, i);
    LayoutUnderTemp(tempDir, k);
    FilmPatternSkipsOutput(tempDir, VideoPath(Film, l));
    FilmPatternSkipsOutput(tempDir, VideoPath(ToonCrafter, l));
    FilmPatternSkipsOutput(tempDir, ExtractedFrame(l, k));
  }

  /** No file inside the output directory matches FILM's input pattern. */
  lemma FilmPatternSkipsOutput(tempDir: string, path: string)
    requires '*' !in tempDir && Under(path, Layout(tempDir).outDir)
    ensures !GlobMatch(FilmPattern(Layout(tempDir)), path)
  {
    var l := Layout(tempDir);
    var prefix := tempDir + "/frame";
    var i := |tempDir| + 1;
    assert '*' !in prefix && prefix[i] == 'f';
    assert FilmPattern(l) == prefix + "*" + ".png";
    assert l.outDir[i] == 'o';
    OutputPathsAt(l, path, i);
    GlobRejectsPrefix(prefix, ".png", path, i);
  }

  /** A path inside the output directory agrees with it on the directory's characters. */
  lemma OutputPathsAt(l: WorkLayout, path: string, i: nat)
    requires Under(path, l.outDir) && i < |l.outDir|
    ensures i < |path| && path[i] == l.outDir[i]
  {
    assert path[..|l.outDir| + 1][i] == path[i];
  }

  // ---------------------------------------------------------------------
  // ToonCrafter
  // ---------------------------------------------------------------------

  /** The values of the configuration file of lines 891-903. */
  datatype ToonConfig = ToonConfig(
    prompt: string,
    image1: string,
    image2: string,
    videoLength: int,
    width: int,
    height: int,
    fps: int,
    useDdpm: bool,
    steps: int,
    seed: int)

  function ToonCrafterConfig(t: TweenSettings, l: WorkLayout): (c: ToonConfig)
    ensures c.videoLength == t.timesToInterpolate + 2
    ensures c.image1 == l.frame1 && c.image2 == l.frame2 && c.prompt == t.prompt
    ensures c.width == 512 && c.height == 320 && c.fps == 8 && !c.useDdpm && c.steps == 50 && c.seed == 42
  {
    ToonConfig(t.prompt, l.frame1, l.frame2, t.timesToInterpolate + 2, 512, 320, 8, false, 50, 42)
  }

  /** The text written to the configuration file (lines 891-903); the prompt and the paths go in as they are. */
  function ConfigYaml(c: ToonConfig): string {
    YamlHead(c) + "\nvideo_length: " + IntToString(c.videoLength) + "\n" + YamlFixedLines()
  }

  function YamlHead(c: ToonConfig): string {
    "\nprompts:\n  - \"" + c.prompt + "\"\nimage_path_1: \"" + c.image1 + "\"\nimage_path_2: \"" + c.image2 + "\""
  }

  /** The lines after the video length, which the add-on writes as fixed text. */
  function YamlFixedLines(): string {
    "width: 512\n" + "height: 320\n" + "fps: 8\n" + "use_ddpm: False\n" + "steps: 50\n" + "seed: 42\n"
  }

  /** One `key: value` line of the configuration file. */
  function YamlLine(key: string, value: string): string {
    key + ": " + value + "\n"
  }

  /** The digits of the fixed settings, as `str` prints them. */
  lemma FixedNumerals()
    ensures IntToString(8) == "8" && IntToString(42) == "42" && IntToString(50) == "50"
    ensures IntToString(320) == "320" && IntToString(512) == "512"
  {
    assert NatToString(42) == NatToString(4) + [DigitChar(2)];
    assert NatToString(50) == NatToString(5) + [DigitChar(0)];
    assert NatToString(320) == NatToString(32) + [DigitChar(0)];
    assert NatToString(32) == NatToString(3) + [DigitChar(2)];
    assert NatToString(512) == NatToString(51) + [DigitChar(2)];
    assert NatToString(51) == NatToString(5) + [DigitChar(1)];
  }

  lemma SeedNumeral()
    ensures IntToString(42) == "42"
  {
    assert NatToString(42) == NatToString(4) + [DigitChar(2)];
  }

  /** The fixed lines of the file say exactly what the configuration record holds. */
  lemma YamlFixedLinesAgree(t: TweenSettings, l: WorkLayout)
    ensures var c := ToonCrafterConfig(t, l);
            YamlFixedLines() == YamlLine("width", IntToString(c.width)) + YamlLine("height", IntToString(c.height))
                                + YamlLine("fps", IntToString(c.fps))
                                + YamlLine("use_ddpm", if c.useDdpm then "True" else "False")
                                + YamlLine("steps", IntToString(c.steps)) + YamlLine("seed", IntToString(c.seed))
  {
    FixedNumerals();
    assert YamlLine("width", "512") == "width: 512\n";
    assert YamlLine("height", "320") == "height: 320\n";
    assert YamlLine("fps", "8") == "fps: 8\n";
    assert YamlLine("use_ddpm", "False") == "use_ddpm: False\n";
    assert YamlLine("steps", "50") == "steps: 50\n";
    assert YamlLine("seed", "42") == "seed: 42\n";
  }

  /** The configuration file carries the video length on a line of its own, and it reads back as times + 2. */
  lemma ConfigYamlVideoLength(t: TweenSettings, l: WorkLayout)
    ensures var c := ToonCrafterConfig(t, l);
            var line := IntToString(t.timesToInterpolate + 2);
            && Contains(ConfigYaml(c), "\nvideo_length: " + line + "\n")
            && (line[0] == '-' ==> IsDigits(line[1..])) && (line[0] != '-' ==> IsDigits(line))
            && ParseInt(line) == t.timesToInterpolate + 2
  {
    var c := ToonCrafterConfig(t, l);
    IntToStringRoundTrip(c.videoLength);
    var needle := "\nvideo_length: " + IntToString(c.videoLength) + "\n";
    var yaml := ConfigYaml(c);
    assert yaml == YamlHead(c) + needle + YamlFixedLines();
    assert OccursAt(yaml, needle, |YamlHead(c)|);
  }

  /** Lines 905-913: ToonCrafter's inference script, run in the ToonCrafter directory. */
  function ToonCrafterCommand(python: string, t: TweenSettings, l: WorkLayout): (c: Command)
    ensures |c.args| == 12 && c.cwd == Some(t.toonCrafterPath)
    ensures c.args[0] == python && c.args[1] == "inference.py"
    ensures c.args[2] == "--config" && c.args[3] == l.configPath
    ensures c.args[4] == "--savedir" && c.args[5] == l.outDir
    ensures c.args[6] == "--ckpt" && c.args[7] == t.modelPath
    ensures c.args[8] == "--bs" && c.args[9] == "1"
    ensures c.args[10] == "--seed" && c.args[11] == IntToString(ToonCrafterConfig(t, l).seed)
  {
    SeedNumeral();
    Command([python, "inference.py",
             "--config", l.configPath,
             "--savedir", l.outDir,
             "--ckpt", t.modelPath,
             "--bs", "1",
             "--seed", "42"],
            Some(t.toonCrafterPath))
  }

  // ---------------------------------------------------------------------
  // Extraction and publication
  // ---------------------------------------------------------------------

  /** Line 918: ffmpeg cuts the video into stills at 8 per second. */
  function FfmpegCommand(video: string, l: WorkLayout): (c: Command)
    ensures |c.args| == 6 && c.args[0] == "ffmpeg" && c.cwd.None?
    ensures c.args[1] == "-i" && c.args[2] == video
    ensures c.args[3] == "-vf" && c.args[4] == "fps=8"
    ensures c.args[5] == Join(l.extractDir, "frame%03d.png")
  {
    Command(["ffmpeg", "-i", video, "-vf", "fps=8", Join(l.extractDir, "frame%03d.png")], None)
  }

  /** The image-sequence empty of lines 921-932. */
  datatype ImageSequence = ImageSequence(
    emptyName: string,
    imageName: string,
    width: int,
    height: int,
    source: string,
    directory: string,
    filepath: string,
    frameDuration: int,
    frameStart: int,
    autoRefresh: bool,
    displaySize: int)

  function Publication(t: TweenSettings, l: WorkLayout): (p: ImageSequence)
    ensures p.frameDuration == t.timesToInterpolate + 2 && p.frameStart == 1 && p.autoRefresh
    ensures p.source == "SEQUENCE" && p.directory == l.extractDir
    ensures p.filepath == ExtractedFrame(l, 1)
  {
    assert Pad3(1) == "001";
    ImageSequence("AI_Interp_Seq", "AIInterpSeq", 512, 320, "SEQUENCE", l.extractDir,
                  Join(l.extractDir, "frame001.png"), t.timesToInterpolate + 2, 1, true, 5)
  }

  // ---------------------------------------------------------------------
  // The whole operator
  // ---------------------------------------------------------------------

  /** What the operator asks of the scene, the file system and the process table. */
  datatype Effect =
    | MakeTempDir(path: string)
    | MakeDirs(path: string)
    | AddOrthoCamera(x: int, y: int, z: int, orthoScale: int)
    | UseCamera(added: bool)          // true: the new camera; false: the one there before
    | Render(path: string)            // set the scene's render output to `path` and render the current frame there
    | SetFrame(frame: int)
    | RemoveAddedCamera
    | WriteFile(path: string, text: string)
    | Run(command: Command)
    | Publish(sequence: ImageSequence)

  /** The outcome of one run: the published sequence or the reason for cancelling, and the effects in order. */
  datatype TweenRun = TweenRun(result: Result<ImageSequence, TweenError>, effects: seq<Effect>)


  /** The interpolator's process and, for ToonCrafter, the configuration file written before it. */
  function InterpolatorEffects(python: string, t: TweenSettings, l: WorkLayout): seq<Effect> {
    match t.interpolator
    case Film => [Run(FilmCommand(python, t, l))]
    case ToonCrafter =>
      [WriteFile(l.configPath, ConfigYaml(ToonCrafterConfig(t, l))), Run(ToonCrafterCommand(python, t, l))]
  }

  /** Lines 852-872: the directories, the temporary camera and the two stills. */
  function Preparation(l: WorkLayout, frame: int): seq<Effect> {
    [MakeTempDir(l.root), MakeDirs(l.extractDir),
     AddOrthoCamera(0, 0, 10, 10), UseCamera(true),
     Render(l.frame1), SetFrame(frame + 1), Render(l.frame2),
     UseCamera(false), RemoveAddedCamera]
  }

  /** Lines 874-932: the interpolator, ffmpeg and the published sequence. */
  function Completion(python: string, t: TweenSettings, l: WorkLayout): seq<Effect> {
    InterpolatorEffects(python, t, l)
    + [Run(FfmpegCommand(VideoPath(t.interpolator, l), l)), Publish(Publication(t, l))]
  }

  /**
   * POSE_OT_AITween.execute (lines 831-935). `tempDir` is the name the
   * temporary directory gets and `python` the interpreter's path; the scene is
   * at frame `frame` when the operator starts.
   */
  function AITween(t: TweenSettings, target: Option<ObjectKind>, frame: int, tempDir: string, python: string): (r: TweenRun)
    ensures r.result.Err? <==> Validate(t, target).Some?
    ensures r.result.Err? ==> r.result.error == Validate(t, target).value && r.effects == []
    ensures r.result.Ok? ==> && r.result.value == Publication(t, Layout(tempDir))
                             && r.effects == Preparation(Layout(tempDir), frame) + Completion(python, t, Layout(tempDir))
  {
    match Validate(t, target)
    case Some(e) => TweenRun(Err(e), [])
    case None =>
      var l := Layout(tempDir);
      TweenRun(Ok(Publication(t, l)), Preparation(l, frame) + Completion(python, t, l))
  }

  /**
   * A cancelled run changes nothing; a run passes the checks exactly when it
   * finishes, in which case it first creates the temporary directory and last
   * publishes the sequence.
   */
  lemma CancelBeforeEffects(t: TweenSettings, target: Option<ObjectKind>, frame: int, tempDir: string, python: string)
    ensures var r := AITween(t, target, frame, tempDir, python);
            && (r.effects == [] <==> r.result.Err?)
            && (r.result.Ok? <==> PathsSet(t) && target == Some(GreasePencil))
            && (r.result.Ok? ==> r.effects[0] == MakeTempDir(tempDir) && r.effects[|r.effects| - 1] == Publish(r.result.value))
  {
  }

  /** Nothing after the stills renders or moves the scene. */
  lemma CompletionIsQuiet(python: string, t: TweenSettings, l: WorkLayout)
    ensures var c := Completion(python, t, l);
            |c| >= 3 && forall i | 0 <= i < |c| :: !c[i].SetFrame? && !c[i].Render?
  {
  }

  /**
   * The preparation in order: the directories, then the new orthographic
   * camera made the scene's camera, the first still rendered at the frame the
   * scene was on, the move to the next frame, the second still, and the
   * earlier camera put back before the added one is removed.
   */
  lemma PreparationOrder(l: WorkLayout, frame: int)
    ensures var p := Preparation(l, frame);
            && |p| == 9
            && p[0] == MakeTempDir(l.root) && p[1] == MakeDirs(l.extractDir)
            && p[2] == AddOrthoCamera(0, 0, 10, 10) && p[3] == UseCamera(true)
            && p[4] == Render(l.frame1)
            && (forall i | 0 <= i < 4 :: !p[i].SetFrame? && !p[i].Render?)
            && p[5] == SetFrame(frame + 1) && p[6] == Render(l.frame2)
            && p[7] == UseCamera(false) && p[8] == RemoveAddedCamera
  {
  }

  /**
   * A finished run renders the two stills during its preparation and nothing
   * after them renders or moves the scene, so it is left on the next frame.
   */
  lemma RenderOrder(t: TweenSettings, target: Option<ObjectKind>, frame: int, tempDir: string, python: string)
    requires Validate(t, target).None?
    ensures var e := AITween(t, target, frame, tempDir, python).effects;
            && |e| > 9
            && e[..9] == Preparation(Layout(tempDir), frame)
            && (forall i | 7 <= i < |e| :: !e[i].SetFrame? && !e[i].Render?)
  {
    var l := Layout(tempDir);
    var front := Preparation(l, frame);
    var back := Completion(python, t, l);
    var e := AITween(t, target, frame, tempDir, python).effects;
    assert e == front + back;
    assert e[..9] == front;
    CompletionIsQuiet(python, t, l);
    forall i | 7 <= i < |e| ensures !e[i].SetFrame? && !e[i].Render? {
      if i < 9 {
        assert e[i] == front[i];
      } else {
        assert e[i] == back[i - 9];
      }
    }
  }

  /** The last three steps of the completion: the interpolator, ffmpeg on its video, the publication. */
  lemma CompletionChain(python: string, t: TweenSettings, l: WorkLayout)
    ensures var c := Completion(python, t, l);
            var n := |c|;
            && n >= 3
            && c[n - 2] == Run(FfmpegCommand(VideoPath(t.interpolator, l), l))
            && (t.interpolator == Film ==> n == 3 && c[0] == Run(FilmCommand(python, t, l)))
            && (t.interpolator == ToonCrafter ==>
                  && n == 4
                  && c[0] == WriteFile(l.configPath, ConfigYaml(ToonCrafterConfig(t, l)))
                  && c[1] == Run(ToonCrafterCommand(python, t, l)))
  {
  }

  /**
   * The video ffmpeg reads is the one the chosen interpolator was told to
   * write (FILM's `--output_video`) or writes by its own convention
   * (ToonCrafter's first sample under `--savedir`), and ffmpeg runs right
   * after it; ToonCrafter's configuration file is written just before it runs.
   */
  lemma InterpolatorFeedsFfmpeg(t: TweenSettings, target: Option<ObjectKind>, frame: int, tempDir: string, python: string)
    requires Validate(t, target).None?
    ensures var e := AITween(t, target, frame, tempDir, python).effects;
            var l := Layout(tempDir);
            var n := |e|;
            && n >= 12
            && e[n - 2] == Run(FfmpegCommand(VideoPath(t.interpolator, l), l))
            && e[n - 3].Run?
            && (t.interpolator == Film ==> e[n - 3].command == FilmCommand(python, t, l)
                                           && e[n - 3].command.args[10] == e[n - 2].command.args[2])
            && (t.interpolator == ToonCrafter ==>
                  && e[n - 3].command == ToonCrafterCommand(python, t, l)
                  && Under(e[n - 2].command.args[2], e[n - 3].command.args[5])
                  && e[n - 4] == WriteFile(l.configPath, ConfigYaml(ToonCrafterConfig(t, l)))
                  && e[n - 4].path == e[n - 3].command.args[3])
  {
    var l := Layout(tempDir);
    var front := Preparation(l, frame);
    var back := Completion(python, t, l);
    var e := AITween(t, target, frame, tempDir, python).effects;
    assert e == front + back;
    CompletionChain(python, t, l);
    var n := |e|;
    assert e[n - 2] == back[|back| - 2] && e[n - 3] == back[|back| - 3];
    if t.interpolator == ToonCrafter {
      assert e[n - 4] == back[|back| - 4];
      LayoutUnderTemp(tempDir, 0);
    }
  }

  /**
   * The published sequence begins with the first still ffmpeg writes, in the
   * directory ffmpeg writes to, and declares times + 2 frames: as many as the
   * video length ToonCrafter is asked for. Its size is ToonCrafter's.
   */
  lemma PublishedSequenceAgrees(t: TweenSettings, tempDir: string)
    ensures var l := Layout(tempDir);
            var p := Publication(t, l);
            && Join(p.directory, "frame%03d.png") == FfmpegCommand(VideoPath(t.interpolator, l), l).args[5]
            && p.filepath == ExtractedFrame(l, 1)
            && p.frameDuration == ToonCrafterConfig(t, l).videoLength
            && p.frameStart == 1
            && p.width == ToonCrafterConfig(t, l).width && p.height == ToonCrafterConfig(t, l).height
  {
  }
}
