/** Assembly of the keyframe document (`midi_to_parseq_config`). The positive
    prompt, randomly chosen from a directory in the source, is a parameter. */
module ParseqConfig {
  import opened Wrappers
  import opened MidiEvents
  import opened TrackHits
  import opened AccumulateSpec
  import opened RotationZSpec
  import opened StrengthSpec
  import opened TrackWriters
  import opened ParseqDoc

  const NegativePrompt: string :=
    "watermark, logo, text, signature, copyright, writing, letters, low quality, artefacts, cropped, bad art, poorly drawn, lowres, simple, pixelated, grain, noise, blurry, cartoon, computer game, video game, painting, drawing, sketch, disfigured, deformed, mutant, suit, formal, nsfw, nude."

  const DocName: string := "MIDI to Parseq"

  const DefaultOptions: map<string, Json> := map[
    "input_fps" := JStr(""),
    "bpm" := JInt(120),
    "output_fps" := JInt(24),
    "cc_window_width" := JInt(0),
    "cc_window_slide_rate" := JInt(1),
    "cc_use_input" := JBool(false)]

  const RotationX: string := "rotation_3d_x"
  const RotationY: string := "rotation_3d_y"
  const RotationZ: string := "rotation_3d_z"
  const Strength: string := "strength"
  const TranslationZ: string := "translation_z"

  /** The five note arguments; `None` is Python's default `None`. */
  datatype Notes = Notes(
    rotation3dX: Option<int>, rotation3dY: Option<int>, strength: Option<int>,
    translationZ: Option<int>, rotation3dZ: Option<int>)

  /** The strength arguments `strength_default`, `strength_kick`, `kick_duration_seconds`. */
  datatype StrengthArgs = StrengthArgs(default: real, kick: real, kickDurationSeconds: real)

  /** The five value arrays after the writers have run. */
  datatype Tracks = Tracks(
    rotation3dX: seq<real>, rotation3dY: seq<real>, rotation3dZ: seq<real>,
    strength: seq<real>, translationZ: seq<real>)

  /** Python truthiness of a note argument: `None` and 0 switch a field off. */
  predicate Enabled(note: Option<int>) { note.Some? && note.value != 0 }

  /** `displayFields`: the enabled fields, in the order the writers run. */
  function EnabledFields(notes: Notes): (fs: seq<string>)
    ensures forall i, j :: 0 <= i < j < |fs| ==> fs[i] != fs[j]
  {
    (if Enabled(notes.rotation3dX) then [RotationX] else [])
    + (if Enabled(notes.rotation3dY) then [RotationY] else [])
    + (if Enabled(notes.rotation3dZ) then [RotationZ] else [])
    + (if Enabled(notes.strength) then [Strength] else [])
    + (if Enabled(notes.translationZ) then [TranslationZ] else [])
  }

  function Filled(n: nat, v: real): (s: seq<real>)
    ensures |s| == n && forall i :: 0 <= i < n ==> s[i] == v
  {
    seq(n, _ => v)
  }

  /** The array of `rotation_3d_x` or `rotation_3d_y`: zeros, run through
      `set_rotation_frames` when the note is enabled. */
  function RotationTrack(frameEvents: seq<seq<Msg>>, note: Option<int>): (r: Result<seq<real>, TrackError>)
    ensures r.Ok? ==> |r.value| == |frameEvents|
  {
    var a := Filled(|frameEvents|, 0.0);
    if !Enabled(note) then Ok(a)
    else if !AllValid(Hits(frameEvents, note.value)) then Err(VelocityOutOfRange)
    else Ok(RotationFrames(a, frameEvents, note.value))
  }

  /** The array of `rotation_3d_z`: zeros, run through `set_rotation_z_frames`. */
  function RotationZTrack(frameEvents: seq<seq<Msg>>, note: Option<int>): (r: Result<seq<real>, TrackError>)
    ensures r.Ok? ==> |r.value| == |frameEvents|
  {
    var a := Filled(|frameEvents|, 0.0);
    if !Enabled(note) then Ok(a)
    else if !AllValid(Hits(frameEvents, note.value)) then Err(VelocityOutOfRange)
    else Ok(RotationZFrames(a, frameEvents, note.value))
  }

  /** The array of `strength`: `strength_default` everywhere, run through `set_strength_frames`. */
  function StrengthTrack(frameEvents: seq<seq<Msg>>, fps: nat, note: Option<int>, args: StrengthArgs): (r: Result<seq<real>, TrackError>)
    ensures r.Ok? ==> |r.value| == |frameEvents|
  {
    var a := Filled(|frameEvents|, args.default);
    if !Enabled(note) then Ok(a)
    else StrengthFrames(a, frameEvents, fps, note.value, args.kick, args.default, args.kickDurationSeconds)
  }

  /** The array of `translation_z`: ones, run through `set_translation_z_frames`. */
  function TranslationZTrack(frameEvents: seq<seq<Msg>>, note: Option<int>): (r: seq<real>)
    ensures |r| == |frameEvents|
  {
    var a := Filled(|frameEvents|, 1.0);
    if !Enabled(note) then a
    else TranslationZFrames(a, frameEvents, note.value)
  }

  /** The five arrays after the writers; the first failing writer (x, y, z,
      strength; translation cannot fail) makes the whole call fail. */
  function ComputeTracks(frameEvents: seq<seq<Msg>>, fps: nat, notes: Notes, args: StrengthArgs): (r: Result<Tracks, TrackError>)
    ensures r.Ok? ==> |r.value.rotation3dX| == |r.value.rotation3dY| == |r.value.rotation3dZ|
                      == |r.value.strength| == |r.value.translationZ| == |frameEvents|
  {
    var x := RotationTrack(frameEvents, notes.rotation3dX);
    var y := RotationTrack(frameEvents, notes.rotation3dY);
    var z := RotationZTrack(frameEvents, notes.rotation3dZ);
    var s := StrengthTrack(frameEvents, fps, notes.strength, args);
    if x.Err? then Err(x.error)
    else if y.Err? then Err(y.error)
    else if z.Err? then Err(z.error)
    else if s.Err? then Err(s.error)
    else Ok(Tracks(x.value, y.value, z.value, s.value, TranslationZTrack(frameEvents, notes.translationZ)))
  }

  /** The array that holds a field's values. */
  function TrackOf(t: Tracks, field: string): seq<real> {
    if field == RotationX then t.rotation3dX
    else if field == RotationY then t.rotation3dY
    else if field == RotationZ then t.rotation3dZ
    else if field == Strength then t.strength
    else t.translationZ
  }

  /** The shapes the writers guarantee: both rotations nondecreasing and
      nonnegative, rotation z within [0, 10], translation z nondecreasing and
      at least 1, every track one value per frame. */
  lemma TracksShape(frameEvents: seq<seq<Msg>>, fps: nat, notes: Notes, args: StrengthArgs)
    requires ComputeTracks(frameEvents, fps, notes, args).Ok?
    ensures var t := ComputeTracks(frameEvents, fps, notes, args).value;
      && Nondecreasing(t.rotation3dX) && AllAtLeast(t.rotation3dX, 0.0)
      && Nondecreasing(t.rotation3dY) && AllAtLeast(t.rotation3dY, 0.0)
      && (forall j :: 0 <= j < |t.rotation3dZ| ==> 0.0 <= t.rotation3dZ[j] <= 10.0)
      && Nondecreasing(t.translationZ) && AllAtLeast(t.translationZ, 1.0)
      && |t.rotation3dX| == |t.rotation3dY| == |t.rotation3dZ| == |t.strength| == |t.translationZ| == |frameEvents|
  {
    var n := |frameEvents|;
    if Enabled(notes.rotation3dX) { RotationNondecreasing(Filled(n, 0.0), frameEvents, notes.rotation3dX.value); }
    if Enabled(notes.rotation3dY) { RotationNondecreasing(Filled(n, 0.0), frameEvents, notes.rotation3dY.value); }
    if Enabled(notes.rotation3dZ) { RotationZRange(Filled(n, 0.0), frameEvents, notes.rotation3dZ.value); }
    if Enabled(notes.translationZ) { TranslationZNondecreasing(Filled(n, 1.0), frameEvents, notes.translationZ.value); }
  }

  /** The keyframe of frame i: its fields are exactly the enabled ones. */
  function KeyframeValues(notes: Notes, x: real, y: real, z: real, s: real, t: real): (m: map<string, real>)
    ensures m.Keys == set f | f in EnabledFields(notes)
  {
    var m0: map<string, real> := map[];
    var m1 := if Enabled(notes.rotation3dX) then m0[RotationX := x] else m0;
    var m2 := if Enabled(notes.rotation3dY) then m1[RotationY := y] else m1;
    var m3 := if Enabled(notes.rotation3dZ) then m2[RotationZ := z] else m2;
    var m4 := if Enabled(notes.translationZ) then m3[TranslationZ := t] else m3;
    if Enabled(notes.strength) then m4[Strength := s] else m4
  }

  /** `set_rotation_frames` on a fresh zero array, when the note is enabled. */
  method RunRotation(frameEvents: seq<seq<Msg>>, note: Option<int>) returns (r: Result<seq<real>, TrackError>)
    ensures r == RotationTrack(frameEvents, note)
  {
    var n := |frameEvents|;
    var values := new real[n](_ => 0.0);
    assert values[..] == Filled(n, 0.0);
    if Enabled(note) {
      var ok := SetRotationFrames(values, frameEvents, n, note.value);
      if !ok { return Err(VelocityOutOfRange); }
    }
    return Ok(values[..]);
  }

  /** `set_rotation_z_frames` on a fresh zero array, when the note is enabled. */
  method RunRotationZ(frameEvents: seq<seq<Msg>>, note: Option<int>) returns (r: Result<seq<real>, TrackError>)
    ensures r == RotationZTrack(frameEvents, note)
  {
    var n := |frameEvents|;
    var values := new real[n](_ => 0.0);
    assert values[..] == Filled(n, 0.0);
    if Enabled(note) {
      var ok := SetRotationZFrames(values, frameEvents, n, note.value);
      if !ok { return Err(VelocityOutOfRange); }
    }
    return Ok(values[..]);
  }

  /** `set_strength_frames` on a fresh array of `strength_default`, when the note is enabled. */
  method RunStrength(frameEvents: seq<seq<Msg>>, fps: nat, note: Option<int>, args: StrengthArgs)
    returns (r: Result<seq<real>, TrackError>)
    ensures r == StrengthTrack(frameEvents, fps, note, args)
  {
    var n := |frameEvents|;
    var values := new real[n](_ => args.default);
    assert values[..] == Filled(n, args.default);
    if Enabled(note) {
      var ok := SetStrengthFrames(values, frameEvents, n, fps, note.value, args.kick, args.default, args.kickDurationSeconds);
      if !ok { return Err(IndexOutOfRange); }
    }
    return Ok(values[..]);
  }

  /** `set_translation_z_frames` on a fresh array of ones, when the note is enabled. */
  method RunTranslationZ(frameEvents: seq<seq<Msg>>, note: Option<int>) returns (r: seq<real>)
    ensures r == TranslationZTrack(frameEvents, note)
  {
    var n := |frameEvents|;
    var values := new real[n](_ => 1.0);
    assert values[..] == Filled(n, 1.0);
    if Enabled(note) {
      SetTranslationZFrames(values, frameEvents, n, note.value);
    }
    return values[..];
  }

  /** The writers of `midi_to_parseq_config`, in the source's order. */
  method RunWriters(frameEvents: seq<seq<Msg>>, fps: nat, notes: Notes, args: StrengthArgs)
    returns (r: Result<Tracks, TrackError>)
    ensures r == ComputeTracks(frameEvents, fps, notes, args)
  {
    var x := RunRotation(frameEvents, notes.rotation3dX);
    if x.Err? { return Err(x.error); }
    var y := RunRotation(frameEvents, notes.rotation3dY);
    if y.Err? { return Err(y.error); }
    var z := RunRotationZ(frameEvents, notes.rotation3dZ);
    if z.Err? { return Err(z.error); }
    var s := RunStrength(frameEvents, fps, notes.strength, args);
    if s.Err? { return Err(s.error); }
    var t := RunTranslationZ(frameEvents, notes.translationZ);
    return Ok(Tracks(x.value, y.value, z.value, s.value, t));
  }

  /** A keyframe's value under each of its fields is that field's track at the frame. */
  lemma KeyframeValuesAt(notes: Notes, t: Tracks, i: nat)
    requires i < |t.rotation3dX| && i < |t.rotation3dY| && i < |t.rotation3dZ| && i < |t.strength| && i < |t.translationZ|
    ensures var m := KeyframeValues(notes, t.rotation3dX[i], t.rotation3dY[i], t.rotation3dZ[i], t.strength[i], t.translationZ[i]);
      forall f :: f in m ==> m[f] == TrackOf(t, f)[i]
  {
    var m := KeyframeValues(notes, t.rotation3dX[i], t.rotation3dY[i], t.rotation3dZ[i], t.strength[i], t.translationZ[i]);
    forall f | f in m
      ensures m[f] == TrackOf(t, f)[i]
    {
      assert f in EnabledFields(notes);
    }
  }

  /** The keyframe list of `midi_to_parseq_config`: one keyframe per frame
      i, keyed by the enabled fields, each holding track value i. */
  predicate KeyframesOf(keyframes: seq<Keyframe>, notes: Notes, t: Tracks, totalFrames: nat)
    requires |t.rotation3dX| == |t.rotation3dY| == |t.rotation3dZ| == |t.strength| == |t.translationZ| == totalFrames
  {
    && |keyframes| == totalFrames
    && forall i :: 0 <= i < totalFrames ==>
      && keyframes[i].frame == i
      && keyframes[i].values.Keys == (set f | f in EnabledFields(notes))
      && forall f :: f in keyframes[i].values ==> keyframes[i].values[f] == TrackOf(t, f)[i]
  }

  method BuildKeyframes(notes: Notes, t: Tracks, totalFrames: nat) returns (keyframes: seq<Keyframe>)
    requires |t.rotation3dX| == |t.rotation3dY| == |t.rotation3dZ| == |t.strength| == |t.translationZ| == totalFrames
    ensures KeyframesOf(keyframes, notes, t, totalFrames)
  {
    keyframes := [];
    var i := 0;
    while i < totalFrames
      invariant 0 <= i <= totalFrames
      invariant |keyframes| == i
      invariant forall k :: 0 <= k < i ==> keyframes[k] == Keyframe(k, KeyframeValues(notes,
        t.rotation3dX[k], t.rotation3dY[k], t.rotation3dZ[k], t.strength[k], t.translationZ[k]))
    {
      var keyframe: map<string, real> := map[];
      if Enabled(notes.rotation3dX) { keyframe := keyframe[RotationX := t.rotation3dX[i]]; }
      if Enabled(notes.rotation3dY) { keyframe := keyframe[RotationY := t.rotation3dY[i]]; }
      if Enabled(notes.rotation3dZ) { keyframe := keyframe[RotationZ := t.rotation3dZ[i]]; }
      if Enabled(notes.translationZ) { keyframe := keyframe[TranslationZ := t.translationZ[i]]; }
      if Enabled(notes.strength) { keyframe := keyframe[Strength := t.strength[i]]; }
      keyframes := keyframes + [Keyframe(i, keyframe)];
      i := i + 1;
    }
    forall i | 0 <= i < totalFrames
      ensures forall f :: f in keyframes[i].values ==> keyframes[i].values[f] == TrackOf(t, f)[i]
    {
      KeyframeValuesAt(notes, t, i);
    }
  }

  /** The `displayFields` list: the enabled fields in the fixed order. */
  method DisplayFields(notes: Notes) returns (displayFields: seq<string>)
    ensures displayFields == EnabledFields(notes)
  {
    displayFields := [];
    if Enabled(notes.rotation3dX) { displayFields := displayFields + [RotationX]; }
    if Enabled(notes.rotation3dY) { displayFields := displayFields + [RotationY]; }
    if Enabled(notes.rotation3dZ) { displayFields := displayFields + [RotationZ]; }
    if Enabled(notes.strength) { displayFields := displayFields + [Strength]; }
    if Enabled(notes.translationZ) { displayFields := displayFields + [TranslationZ]; }
  }

  /** `midi_to_parseq_config`. */
  method MidiToParseqConfig(frameEvents: seq<seq<Msg>>, totalFrames: nat, fps: nat, notes: Notes,
                            args: StrengthArgs, positivePrompt: string)
    returns (r: Result<Parseq, TrackError>)
    requires |frameEvents| == totalFrames
    ensures r.Err? <==> ComputeTracks(frameEvents, fps, notes, args).Err?
    ensures r.Ok? ==> var doc := r.value;
      && doc.docName == DocName && doc.positive == positivePrompt && doc.negative == NegativePrompt
      && doc.options == DefaultOptions
      && doc.displayFields == EnabledFields(notes)
      && doc.totalFrames == totalFrames
      && KeyframesOf(doc.keyframes, notes, ComputeTracks(frameEvents, fps, notes, args).value, totalFrames)
  {
    var tracks := RunWriters(frameEvents, fps, notes, args);
    if tracks.Err? { return Err(tracks.error); }
    var displayFields := DisplayFields(notes);
    var keyframes := BuildKeyframes(notes, tracks.value, totalFrames);
    return Ok(Parseq(DocName, positivePrompt, NegativePrompt, DefaultOptions, displayFields, keyframes, totalFrames));
  }
}
