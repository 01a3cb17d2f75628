# Smart2D in Dafny

A model of the core of Smart2D, a Blender add-on for 2D rigging and
animation, with proofs about it. Three parts of the add-on are covered:

- **Smart bones** (`smart_bones.dfy`, module `SmartBones`). *Add Smart Bone*
  scans an action's F-curve data paths for the pose bones it animates. It
  then gives every such bone of the selected armature an action constraint
  called `SB_<control>_<action>`, driven by the control bone. *Delete Smart
  Bone* goes through each bone's constraints and removes those whose name
  contains that name. It removes no other constraint, and it removes every
  match when no two matches are neighbours. Whether the second of two
  neighbouring matches survives depends on how the iteration continues after
  a removal.
  - Bones are objects whose constraint stack the operators change in place
    (`class Bone`).
  - Armatures hold their bones (`class Armature`).
  - The constraint stack is specified by the function `Installed` and the
    predicate `RemovesOnlyMatches`. `Swept` is the outcome of an index-based
    iteration, one outcome the predicate admits.
- **AI tween** (`ai_tween.dfy`, module `AITween`). This is the *Interpolate
  with AI* operator.
  - It checks the settings and the selected object.
  - It renders the current and the next frame into a temporary directory.
  - It runs FILM or ToonCrafter on the two stills and cuts the resulting
    video into numbered stills with ffmpeg.
  - It publishes those stills as an image-sequence empty.

  The run is modelled as a function that returns the ordered list of effects
  it requests, with the exact paths, argument lists, configuration text and
  published fields.
- **Grease Pencil interpolate fallback** (`gp_interpolate.dfy`, module
  `GPInterpolate`). With the AI type, the overridden Interpolate operator
  hands over to the AI tween. Otherwise it:
  - picks the frames numbered `current` and `current + 1` on the active
    layer;
  - appends `steps` new frames after them;
  - builds in each new frame the strokes and points that the two frames
    share.

  The layer is a class whose frame list the operator extends.

Shared helpers:
- `text.dfy` (module `Text`) stands for the Python string operations the
  add-on uses:
  - `sub in s`;
  - the first match of `"([^"]*)"`;
  - `os.path.join`;
  - `str(int)`, with its parse-back;
  - the `%03d` field.
- `scene.dfy` holds the object kinds.
- `wrappers.dfy` holds `Option` and `Result`.

Blender lookups that raise (`bpy.data.actions[...]`, `scene.objects[...]`,
`pose.bones[...]`) are modelled as `Option` results or nullable references.
In Blender the operator then raises; the model returns the matching
`SmartBoneError` in its place.

Two facts about the AI tween shape the model:
- The published `frame_duration` is `times + 2`, whatever number of stills
  ffmpeg writes.
- The run cancels (returns `CANCELLED`) only on the checks of lines 835-847.
  Nothing later tests an exit code or an output file, and every later step
  is requested unconditionally. The exceptions that can still end a run
  are listed under "Left out".

## Model

| member | source | states |
|---|---|---|
| SmartBones.ScanBonesSpec | Smart2D.py:319-330 | The scan fails exactly when some pose-bone path holds no quoted name, and it reports the first such path. On success the list has no duplicates. It holds only bones named by pose-bone paths, lists every such bone, and keeps them in the order of their first appearance. |
| SmartBones.FindActionBones | Smart2D.py:319-330 | The loop over the F-curves returns exactly the result of the scan, including the failure at the first unquoted pose-bone path. |
| SmartBones.ScanErrorPersists | Smart2D.py:326 | Once `findall(...)[0]` raised on a prefix of the curves, the whole scan fails with that error. |
| SmartBones.ConstraintName | Smart2D.py:356 | The constraint name starts with `SB_` and is 4 characters longer than the control name plus the action name. |
| SmartBones.ConstraintNameAmbiguous | Smart2D.py:356 | The name is not injective: control `c_m` with action `a` and control `c` with action `m_a` get the same constraint name, so those two smart bones share one constraint. |
| SmartBones.NewActionConstraint | Smart2D.py:365-366 | A new constraint is of kind ACTION, carries the requested name, and has no space object or space subtarget. |
| SmartBones.Configure | Smart2D.py:368-387 | The name and kind are kept. Target, subtarget, channel, range, action and frame range carry the settings. A non-CUSTOM space is copied and leaves the space fields alone. A CUSTOM space ends up CUSTOM exactly when the space object is found and either no object name is given or the armature test gives an answer; the space object is then the one found. It ends up LOCAL when the space object is not found, and also when the armature test raises, after the space object was set. The space subtarget is set exactly when the space is CUSTOM, the space object is found, an object name is given and that object is an armature; otherwise it is unchanged. |
| SmartBones.ConfigureIdempotent | Smart2D.py:368-387 | Configuring twice with the same inputs is the same as configuring once. |
| SmartBones.Installed | Smart2D.py:356-387 | The stack grows by one exactly when no constraint had the name. All constraints but the last are untouched. Afterwards a constraint has the name, and the last constraint carries the settings. The last one is a new ACTION constraint of that name, or the old last constraint with its name and kind, configured by `Configure` with the settings and the lookup outcomes. |
| SmartBones.InstalledIdempotent | Smart2D.py:356-387 | Running the installation again with the same inputs changes nothing. |
| SmartBones.InstalledCount | Smart2D.py:358-366 | Repeated runs create no duplicates: the number of constraints with the name becomes 1 if it was 0 and is otherwise unchanged. |
| SmartBones.InstalledConfiguresNamed | Smart2D.py:358-368 | When the name is absent or belongs to the last constraint, the constraint with the name is the one that receives the settings. |
| SmartBones.InstalledQuirk | Smart2D.py:358-368 | For any stack in which a constraint has the name but the last one does not: nothing is appended, every constraint with the name keeps its old fields, and the last constraint receives the settings under its own name. |
| SmartBones.Bone.InstallConstraint | Smart2D.py:356-387 | The existence loop, creation and field writes leave the bone's constraints equal to `Installed` of the old ones. |
| SmartBones.Bone.RemoveMatching | Smart2D.py:431-433 | The new stack is the old one with some constraints left out and the rest in order. Every constraint whose name does not contain the name stays, and only matching ones are left out. When no two matches are neighbours, exactly the non-matching ones remain. With the iteration taken as index-based, the stack becomes `Swept` of the old one. |
| SmartBones.Swept | Smart2D.py:431-433 | The removal never lengthens the stack. |
| SmartBones.Dropped | Smart2D.py:431-433 | Every constraint the removal drops has a name containing the derived name. |
| SmartBones.SweptKeepsUnmatched | Smart2D.py:431-433 | Every constraint whose name does not contain the derived name survives, in order. |
| SmartBones.SweptSplits | Smart2D.py:431-433 | Kept and dropped constraints together are exactly the old stack, as a multiset. |
| SmartBones.SweptAdmissible | Smart2D.py:431-433 | The index-based outcome is an admissible removal: in order, only matches left out, no non-match lost. With no neighbouring matches it is exactly the non-matching constraints. |
| SmartBones.UnmatchedRemovesOnlyMatches | Smart2D.py:431-433 | Removing every match is an admissible removal as well. |
| SmartBones.SweptRemovesIsolatedMatches | Smart2D.py:431-433 | When no two neighbouring constraints match, the removal leaves exactly the non-matching ones. |
| SmartBones.SweptSkipsNeighbour | Smart2D.py:431-433 | Under the index-based iteration, a stack of exactly two matching constraints keeps the second. |
| SmartBones.SubstringMatchesLongerAction | Smart2D.py:409-432 | Matching is by substring: the constraint for action `act2` is also removed when deleting the smart bone of action `act` with the same control. |
| SmartBones.Armature.PoseBone | Smart2D.py:352-354 | Looking up a pose bone succeeds exactly on an armature that has a bone of that name, and returns that bone. |
| SmartBones.BoneNames | Smart2D.py:342-344 | The list holds the names of the armature's bones, in order. |
| SmartBones.DriveBone | Smart2D.py:350-387 | For a bone of the armature, the call fails exactly when the control bone is missing, and then nothing has changed. Otherwise the bone gets the constraint unless it is the control bone, and the other bones keep theirs. |
| SmartBones.AddActionConstraint | Smart2D.py:333-387 | Only an armature is changed. Every bone that is named in the action and is not the control bone ends with `Installed` of its old constraints. Every other bone is unchanged. The call raises exactly when the control bone is missing and some named bone is present. |
| SmartBones.AddSmartBone | Smart2D.py:283-317 | A missing action, an unquoted pose-bone path and a missing control armature each stop the operator, in that order, with nothing changed. Otherwise the result is that of `AddActionConstraint` on the scanned bones. |
| SmartBones.DeleteSmartBone | Smart2D.py:397-437 | Only an armature is changed. The call raises exactly when the control armature is missing, and then nothing has changed. On every bone, only constraints whose name contains the derived name are removed, the rest keep their order, and when no two matches are neighbours all of them go. With the index-based iteration each stack becomes `Swept` of the old one. |
| Text.IndexOf | Smart2D.py:326 | The first index of a character, or None exactly when it does not occur. |
| Text.FirstQuotedFound | Smart2D.py:326 | `re.findall('"([^"]*)"', path)` has a first match exactly when the path holds two double quotes. |
| Text.FirstQuotedText | Smart2D.py:326 | The first match is the quote-free text right after the first quote, up to the next quote. |
| Text.NatToString | Smart2D.py:880 | `str` of a natural number is a non-empty digit string without a leading zero: one digit below 10, at most two below 100, at most three below 1000. |
| Text.IntToStringRoundTrip | Smart2D.py:880 | The decimal text of an integer reads back as that integer. |
| Text.IntToStringInjective | Smart2D.py:880 | Different integers print differently. |
| Text.Pad3 | Smart2D.py:918 | The `%03d` field is a digit string of length at least 3, and exactly 3 below 1000. |
| Text.Pad3RoundTrip | Smart2D.py:918 | The `%03d` field reads back as the number it was made from. |
| AITween.Validate | Smart2D.py:835-847 | The missing-path error of the chosen interpolator comes first. Then a missing active object raises, then a non-Grease Pencil object cancels. The run passes exactly when the paths are set and the active object is a Grease Pencil. Each error condition is stated with both directions. |
| AITween.CancelBeforeEffects | Smart2D.py:835-852 | A cancelled run requests no effect at all. A run finishes exactly when the settings and target pass; it then starts by creating the temporary directory and ends by publishing. |
| AITween.AITween | Smart2D.py:831-935 | A failed check gives that check's error and no effects. Otherwise the run publishes `Publication` and requests the preparation followed by the completion. |
| AITween.LayoutUnderTemp | Smart2D.py:852-856 | The stills, the config file, the output and extraction directories, both videos and every extracted still lie under the temporary directory. The two stills are different files, and so are the two videos. |
| AITween.FilmCommand | Smart2D.py:876-883 | FILM runs in its own directory as the module `frame_interpolation.interpolator_cli` of the given interpreter, with 11 arguments: the stills pattern, the model path, `str(times)` and the output video path. |
| AITween.FilmTimesRoundTrip | Smart2D.py:880 | FILM reads back exactly the requested number of passes. |
| AITween.FilmPatternSelectsStills | Smart2D.py:878 | The pattern `temp/frame*.png` matches both rendered stills. |
| AITween.FilmPatternSkipsOthers | Smart2D.py:878 | The pattern matches no other file of the run: not the config file, not either video, not an extracted still. |
| AITween.FilmPatternSkipsOutput | Smart2D.py:878 | No file inside the output directory matches the pattern. |
| AITween.ToonCrafterConfig | Smart2D.py:891-903 | The video length is times + 2. The images are the two stills. The fixed values are 512 x 320, 8 fps, no DDPM, 50 steps and seed 42. |
| AITween.YamlFixedLinesAgree | Smart2D.py:897-902 | The fixed lines of the config file print exactly the values of the configuration record. |
| AITween.ConfigYamlVideoLength | Smart2D.py:896 | The config file has a `video_length` line whose value reads back as times + 2. |
| AITween.ToonCrafterCommand | Smart2D.py:905-913 | The interpreter runs `inference.py` in ToonCrafter's directory with the config file, the output directory, the model path and batch size 1. Its `--seed` argument prints the seed of the config file. |
| AITween.FfmpegCommand | Smart2D.py:918 | ffmpeg reads the given video at 8 fps and writes `frame%03d.png` into the extraction directory. |
| AITween.Publication | Smart2D.py:921-932 | The published sequence has duration times + 2, starts at frame 1 and auto-refreshes. Its source is SEQUENCE in the extraction directory, and its file is the first extracted still. |
| AITween.PreparationOrder | Smart2D.py:852-872 | In order: the directories; the orthographic camera at (0, 0, 10) with scale 10, made the scene camera; the first still at the starting frame; the move to the next frame; the second still; the old camera restored; the added camera removed. |
| AITween.CompletionIsQuiet | Smart2D.py:874-932 | Nothing after the stills renders or moves the scene. |
| AITween.RenderOrder | Smart2D.py:857-872 | A finished run begins with the preparation, and no effect from the camera restore onward renders or moves the scene. It is therefore left on the next frame. |
| AITween.CompletionChain | Smart2D.py:874-932 | The completion is FILM, then ffmpeg, then the publication. For ToonCrafter it is the config file, ToonCrafter, ffmpeg and the publication. |
| AITween.InterpolatorFeedsFfmpeg | Smart2D.py:881-918 | ffmpeg runs right after the interpolator, on the video that interpolator writes: FILM's `--output_video`, or ToonCrafter's sample under `--savedir`. ToonCrafter's config file is written just before it runs, at the path that ToonCrafter gets. |
| AITween.PublishedSequenceAgrees | Smart2D.py:918-929 | The sequence starts with the first still ffmpeg writes, in ffmpeg's output directory. It declares as many frames as the ToonCrafter video length and has ToonCrafter's image size. |
| GPInterpolate.LastNumbered | Smart2D.py:537-541 | The chosen frame has the wanted number and no later frame has it. None means no frame has the number. |
| GPInterpolate.SelectFrames | Smart2D.py:533-541 | The loop over the frames keeps the last frame numbered `current` and the last frame numbered `current + 1`. |
| GPInterpolate.BuildStroke | Smart2D.py:550-560 | The new stroke is `TweenStroke`. It has the current stroke's point count, and the points the next stroke also has are blends. |
| GPInterpolate.BuildFrame | Smart2D.py:548-560 | The new frame is `TweenFrame`: one stroke for each stroke index both frames have. |
| GPInterpolate.InterpolateSequence | Smart2D.py:522-561 | The call hands over exactly for the AI type. With a Grease Pencil object, an active layer and both frames present, it appends exactly `Tweens` to the layer. In every other case the layer is unchanged. |
| GPInterpolate.StepTBounds | Smart2D.py:543-544 | Each blend parameter step / (steps + 1) lies strictly between 0 and 1 and grows with the step. |
| GPInterpolate.TweensNumbered | Smart2D.py:543-546 | There are `steps` new frames, numbered current + 1 to current + steps, and every blend parameter in them is strictly between 0 and 1. |
| GPInterpolate.FirstTweenTakesNextNumber | Smart2D.py:534-546 | The first new frame gets the number of the existing next frame. |
| GPInterpolate.TweenFrameShape | Smart2D.py:548-556 | A new frame has min(#current strokes, #next strokes) strokes, and stroke i has as many points as current stroke i. Point j is a blend of both points j exactly when the next stroke has a point j, and is unset exactly when it does not, so every blend reads points that exist. |
| GPInterpolate.TweenStrokeBlends | Smart2D.py:551-556 | A new stroke has exactly min(#current points, #next points) blended points. |

## Left out

- Mode switches (`bpy.ops.object.mode_set`), bone selection and the
  `armature_data` bindings of lines 297-298 and 421-422: they do not affect
  the state modelled here. The scene lookups beside them (lines 296 and 420)
  are modelled as the missing-armature error.
- Blender's reordering of constraints, the validation it applies to
  constraint fields, and the defaults of a new constraint: fields the add-on
  does not set are placeholders.
- SmartBones.Configure: the second lookup in the CUSTOM try block,
  `bpy.context.objects`, is taken as an outcome (`SpaceProbe`) rather than
  derived from the scene. The add-on's context has no such attribute, so in
  practice that lookup raises and a CUSTOM space with a named object falls
  back to LOCAL after the space object was set.
- SmartBones.Bone.RemoveMatching: how Blender's collection iterator goes on
  after a removal is not part of this model. It may well visit every
  constraint, and then every match is removed. The promise that holds either
  way is `RemovesOnlyMatches`. The equality with `Swept`, and so
  `SweptSkipsNeighbour`, holds only for the index-based reading, which
  skips the constraint after a removed one.
- SmartBones.DeleteSmartBone: the equality with `Swept` holds only for the
  index-based reading of the iteration, as for `Bone.RemoveMatching`.
- SmartBones.InstalledCount, SmartBones.InstalledIdempotent and
  SmartBones.DeleteSmartBone: Blender cuts constraint names to 63 bytes,
  and the model keeps names whole. For a `SB_<control>_<action>` name longer
  than that, the test of line 361 never matches a stored name. Each run then
  appends one more constraint, so these two lemmas do not hold in Blender.
  The substring test of line 432 never matches either, so the deletion
  removes none of them.
- SmartBones.Installed and SmartBones.AddActionConstraint: when the name
  exists but the bone's last constraint is not an ACTION constraint, Blender
  raises at the first field that kind lacks (lines 368-371). This happens
  after the earlier bones were already changed. The model writes every
  field to that constraint as if it had them.
- SmartBones.AddSmartBone and SmartBones.DeleteSmartBone: with no active
  object, `bpy.context.object` is None, and reading its type raises (lines 336
  and 401). The model always has an active object. `AITween.Validate` and
  `GPInterpolate.InterpolateSequence` model that case.
- AITween.Publication and AITween.AITween: Blender's `Image` type has no
  `directory` property. In Blender the assignment of line 926 therefore
  raises after the empty and the image were created, so the image is never
  attached and the frame fields are never set. The model publishes what
  lines 921-932 ask for.
- DeleteSmartBone and AddActionConstraint assume that an armature's bone
  names are unique (`Armature.Valid`), as Blender keeps them.
- The renders, the external processes, tempfile, the file writes and the
  image loading: each appears only as a requested effect with its arguments.
  Whether FILM, ToonCrafter or ffmpeg succeed, and which files they actually
  produce, is not modelled. The add-on does not check either.
- AITween.AITween: the exceptions that end a run after the stills are not
  modelled. `subprocess.run` raises when the configured FILM or ToonCrafter
  directory does not exist (lines 883 and 913), and `subprocess.call` raises
  when ffmpeg is not installed (line 918). The temporary directory then
  exists and the scene is left on the next frame. The model requests every
  step to the end.
- AITween.RenderOrder: besides the frame, a run also leaves the scene's
  render output path at the second still (line 869 is never undone). Each
  `Render(p)` effect stands for setting that path to `p` and rendering.
- The name of the temporary directory and `sys.executable` are parameters.
  `FilmPatternSelectsStills` assumes the directory name has no `*`, as
  `mkdtemp` names do not.
- The reports shown to the user are not modelled; only the reason for
  cancelling is.
- GPInterpolate: point coordinates, pressure and strength are floating-point
  blends. A new point only records which two points it blends and at which
  parameter.
- GPInterpolate.InterpolateSequence: Blender's `frames.new` raises for a
  frame number that is already in use, and `FirstTweenTakesNextNumber`
  shows that the first new frame always takes such a number. The model
  appends the frames at the end of the layer's list, without that host check;
  Blender would place them by frame number. A new frame
  is built and then appended, and is not attached empty and filled in place.
- The dependency installer (InstallAIDeps), the other operators, the
  panels, the property registration and the threading of the add-on.
