/** The four in-place writers of `MIDI_to_parseq.py`. Each walks the frame
    buckets in order and, within a bucket, the events in order, acting only
    on qualifying events (`note_on`, drum channel 9, the configured note).
    The caller always passes arrays and bucket lists of length `total_frames`. */
module TrackWriters {
  import opened Wrappers
  import opened MidiEvents
  import opened TrackHits
  import opened AccumulateSpec
  import opened RotationZSpec
  import opened StrengthSpec

  /** The shared fill loop `for i in range(1, total_frames)`: a frame still
      at the base value takes the value of the frame before it. */
  method FillForward(values: array<real>, base: real)
    modifies values
    ensures values[..] == Fill(old(values[..]), base)
  {
    ghost var b0 := values[..];
    var i := 1;
    while i < values.Length
      invariant 1 <= i
      invariant values[..] == FillUpTo(b0, base, if i <= values.Length then i else values.Length)
    {
      if values[i] == base {
        values[i] := values[i - 1];
      }
      i := i + 1;
    }
  }

  /** The loop `for i in range(5)` of the accumulating writers: the
      accumulator grows by `increment` and is written into frame
      frameIndex + i while that frame exists. */
  method WriteRun(values: array<real>, frameIndex: nat, increment: real, current: real) returns (next: real)
    modifies values
    ensures Acc(values[..], next) == Run(Acc(old(values[..]), current), frameIndex, increment, RunLength)
  {
    ghost var start := Acc(values[..], current);
    next := current;
    var i := 0;
    while i < 5
      invariant 0 <= i <= 5
      invariant Acc(values[..], next) == Run(start, frameIndex, increment, i)
    {
      if frameIndex + i < values.Length {
        next := next + increment;
        values[frameIndex + i] := next;
      }
      i := i + 1;
    }
  }

  /** A qualifying event with an out-of-range velocity is a hit of the whole input. */
  lemma InvalidHitFails(frameEvents: seq<seq<Msg>>, fi: nat, j: nat, note: int)
    requires fi < |frameEvents| && j < |frameEvents[fi]|
    requires Qualifies(frameEvents[fi][j], note) && !ValidVelocity(frameEvents[fi][j].velocity)
    ensures !AllValid(Hits(frameEvents, note))
  {
    var h := Hit(fi, frameEvents[fi][j].velocity);
    HitsNextEvent(frameEvents, fi, j, note);
    HitsSoFar(frameEvents, fi, j + 1, note);
    var hs := Hits(frameEvents[..fi], note) + BucketHits(fi, frameEvents[fi][..j], note);
    assert h in hs + [h];
  }

  lemma ValidSnoc(hs: seq<Hit>, h: Hit)
    requires AllValid(hs) && ValidVelocity(h.velocity)
    ensures AllValid(hs + [h])
  {
  }

  lemma RotationStepsSnoc(hs: seq<Hit>, h: Hit)
    requires AllValid(hs + [h])
    ensures AllValid(hs) && ValidVelocity(h.velocity)
    ensures RotationSteps(hs + [h]) == RotationSteps(hs) + [Step(h.frame, RotationIncrement(h.velocity))]
  {
    assert h in hs + [h];
    assert forall g :: g in hs ==> g in hs + [h];
  }

  lemma TranslationStepsSnoc(hs: seq<Hit>, h: Hit)
    ensures TranslationSteps(hs + [h]) == TranslationSteps(hs) + [Step(h.frame, h.velocity as real / 5.0)]
  {
  }

  lemma AccumulateSnoc(st: Acc, steps: seq<Step>, s: Step)
    ensures Accumulate(st, steps + [s]) == Run(Accumulate(st, steps), s.frame, s.inc, RunLength)
  {
    assert (steps + [s])[..|steps|] == steps;
  }

  /** The inner loop of `set_rotation_frames` over the bucket of one frame. */
  method RotationBucket(rotationValues: array<real>, frameEvents: seq<seq<Msg>>, frameIndex: nat, rotationNote: int,
                        current: real, ghost a0: seq<real>) returns (ok: bool, next: real)
    requires frameIndex < |frameEvents|
    requires AllValid(Hits(frameEvents[..frameIndex], rotationNote))
    requires Acc(rotationValues[..], current) == Accumulate(Acc(a0, 0.0), RotationSteps(Hits(frameEvents[..frameIndex], rotationNote)))
    modifies rotationValues
    ensures !ok ==> !AllValid(Hits(frameEvents, rotationNote))
    ensures ok ==> AllValid(Hits(frameEvents[..frameIndex + 1], rotationNote))
    ensures ok ==> Acc(rotationValues[..], next)
                   == Accumulate(Acc(a0, 0.0), RotationSteps(Hits(frameEvents[..frameIndex + 1], rotationNote)))
  {
    ghost var done := Hits(frameEvents[..frameIndex], rotationNote);
    var events := frameEvents[frameIndex];
    next := current;
    var j := 0;
    assert done + BucketHits(frameIndex, events[..0], rotationNote) == done;
    while j < |events|
      invariant 0 <= j <= |events|
      invariant AllValid(done + BucketHits(frameIndex, events[..j], rotationNote))
      invariant Acc(rotationValues[..], next)
             == Accumulate(Acc(a0, 0.0), RotationSteps(done + BucketHits(frameIndex, events[..j], rotationNote)))
    {
      var event := events[j];
      ghost var hs := done + BucketHits(frameIndex, events[..j], rotationNote);
      HitsNextEvent(frameEvents, frameIndex, j, rotationNote);
      if event.kind == NoteOn && event.note == rotationNote && event.channel == 9 {
        ghost var h := Hit(frameIndex, event.velocity);
        var increment := MapVelocityToRange(event.velocity, 0.0, 1.0);
        if increment.Err? {
          InvalidHitFails(frameEvents, frameIndex, j, rotationNote);
          return false, next;
        }
        ValidSnoc(hs, h);
        next := WriteRun(rotationValues, frameIndex, increment.value, next);
        RotationStepsSnoc(hs, h);
        AccumulateSnoc(Acc(a0, 0.0), RotationSteps(hs), Step(h.frame, RotationIncrement(h.velocity)));
      } else {
        assert done + BucketHits(frameIndex, events[..j + 1], rotationNote) == hs;
      }
      j := j + 1;
    }
    HitsNextFrame(frameEvents, frameIndex, rotationNote);
    return true, next;
  }

  /** `set_rotation_frames`. A qualifying `note_on` whose velocity is outside
      1..127 makes `map_velocity_to_range` raise (`ok` false); otherwise the
      array ends as `RotationFrames` describes. */
  method SetRotationFrames(rotationValues: array<real>, frameEvents: seq<seq<Msg>>, totalFrames: nat, rotationNote: int)
    returns (ok: bool)
    requires rotationValues.Length == totalFrames && |frameEvents| == totalFrames
    modifies rotationValues
    ensures ok <==> AllValid(Hits(frameEvents, rotationNote))
    ensures ok ==> rotationValues[..] == RotationFrames(old(rotationValues[..]), frameEvents, rotationNote)
  {
    ghost var a0 := rotationValues[..];
    var currentRotation := 0.0;
    var frameIndex := 0;
    while frameIndex < |frameEvents|
      invariant 0 <= frameIndex <= |frameEvents|
      invariant AllValid(Hits(frameEvents[..frameIndex], rotationNote))
      invariant Acc(rotationValues[..], currentRotation)
             == Accumulate(Acc(a0, 0.0), RotationSteps(Hits(frameEvents[..frameIndex], rotationNote)))
    {
      var bucketOk;
      bucketOk, currentRotation := RotationBucket(rotationValues, frameEvents, frameIndex, rotationNote, currentRotation, a0);
      if !bucketOk { return false; }
      frameIndex := frameIndex + 1;
    }
    assert frameEvents[..frameIndex] == frameEvents;
    FillForward(rotationValues, 0.0);
    return true;
  }

  /** The inner loop of `set_translation_z_frames` over the bucket of one frame. */
  method TranslationZBucket(translationZValues: array<real>, frameEvents: seq<seq<Msg>>, frameIndex: nat,
                            translationZNote: int, current: real, ghost a0: seq<real>) returns (next: real)
    requires frameIndex < |frameEvents|
    requires Acc(translationZValues[..], current)
             == Accumulate(Acc(a0, 1.0), TranslationSteps(Hits(frameEvents[..frameIndex], translationZNote)))
    modifies translationZValues
    ensures Acc(translationZValues[..], next)
            == Accumulate(Acc(a0, 1.0), TranslationSteps(Hits(frameEvents[..frameIndex + 1], translationZNote)))
  {
    ghost var done := Hits(frameEvents[..frameIndex], translationZNote);
    var events := frameEvents[frameIndex];
    next := current;
    var j := 0;
    assert done + BucketHits(frameIndex, events[..0], translationZNote) == done;
    while j < |events|
      invariant 0 <= j <= |events|
      invariant Acc(translationZValues[..], next)
             == Accumulate(Acc(a0, 1.0), TranslationSteps(done + BucketHits(frameIndex, events[..j], translationZNote)))
    {
      var event := events[j];
      ghost var hs := done + BucketHits(frameIndex, events[..j], translationZNote);
      HitsNextEvent(frameEvents, frameIndex, j, translationZNote);
      if event.kind == NoteOn && event.note == translationZNote && event.channel == 9 {
        ghost var h := Hit(frameIndex, event.velocity);
        var increment := (event.velocity as real) / 5.0;
        next := WriteRun(translationZValues, frameIndex, increment, next);
        TranslationStepsSnoc(hs, h);
        AccumulateSnoc(Acc(a0, 1.0), TranslationSteps(hs), Step(h.frame, increment));
      } else {
        assert done + BucketHits(frameIndex, events[..j + 1], translationZNote) == hs;
      }
      j := j + 1;
    }
    HitsNextFrame(frameEvents, frameIndex, translationZNote);
  }

  /** `set_translation_z_frames`: like the rotation writer but starting the
      accumulator at 1.0, adding velocity / 5 per frame, and filling frames
      still at 1.0. It never fails. */
  method SetTranslationZFrames(translationZValues: array<real>, frameEvents: seq<seq<Msg>>, totalFrames: nat, translationZNote: int)
    requires translationZValues.Length == totalFrames && |frameEvents| == totalFrames
    modifies translationZValues
    ensures translationZValues[..] == TranslationZFrames(old(translationZValues[..]), frameEvents, translationZNote)
  {
    ghost var a0 := translationZValues[..];
    var currentTranslationZ := 1.0;
    var frameIndex := 0;
    while frameIndex < |frameEvents|
      invariant 0 <= frameIndex <= |frameEvents|
      invariant Acc(translationZValues[..], currentTranslationZ)
             == Accumulate(Acc(a0, 1.0), TranslationSteps(Hits(frameEvents[..frameIndex], translationZNote)))
    {
      currentTranslationZ := TranslationZBucket(translationZValues, frameEvents, frameIndex, translationZNote,
                                                currentTranslationZ, a0);
      frameIndex := frameIndex + 1;
    }
    assert frameEvents[..frameIndex] == frameEvents;
    FillForward(translationZValues, 1.0);
  }

  lemma SetPassSnoc(a: seq<real>, hs: seq<Hit>, h: Hit)
    requires AllValid(hs + [h])
    ensures AllValid(hs) && ValidVelocity(h.velocity)
    ensures SetPass(a, hs + [h]) == Window(SetPass(a, hs), h.frame, ZValue(h.velocity), WindowLength)
  {
    assert h in hs + [h];
    assert forall g :: g in hs ==> g in hs + [h];
    assert (hs + [h])[..|hs|] == hs;
  }

  lemma ResetPassSnoc(a: seq<real>, hs: seq<Hit>, h: Hit)
    ensures var p := ResetPass(a, hs);
            ResetPass(a, hs + [h]) == if h.frame + WindowLength < |p| then p[h.frame + WindowLength := 0.0] else p
  {
    assert (hs + [h])[..|hs|] == hs;
  }

  /** The loop `for i in range(10)` of `set_rotation_z_frames`; the mapped
      velocity is computed (and may raise) in every iteration whose frame exists. */
  method WriteWindow(values: array<real>, frameIndex: nat, velocity: Byte7) returns (ok: bool)
    requires frameIndex < values.Length
    modifies values
    ensures ok <==> ValidVelocity(velocity)
    ensures ok ==> values[..] == Window(old(values[..]), frameIndex, ZValue(velocity), WindowLength)
  {
    ghost var start := values[..];
    var i := 0;
    while i < 10
      invariant 0 <= i <= 10
      invariant i > 0 ==> ValidVelocity(velocity)
      invariant i == 0 ==> values[..] == start
      invariant i > 0 ==> values[..] == Window(start, frameIndex, ZValue(velocity), i)
    {
      if frameIndex + i < values.Length {
        var mapped := MapVelocityToRange(velocity, 0.0, 10.0);
        if mapped.Err? {
          return false;
        }
        values[frameIndex + i] := mapped.value;
      }
      i := i + 1;
    }
    return true;
  }

  /** The inner loop of the first pass of `set_rotation_z_frames`. */
  method WindowBucket(rotationZValues: array<real>, frameEvents: seq<seq<Msg>>, frameIndex: nat, rotationZNote: int,
                      ghost a0: seq<real>) returns (ok: bool)
    requires frameIndex < |frameEvents| && rotationZValues.Length == |frameEvents|
    requires AllValid(Hits(frameEvents[..frameIndex], rotationZNote))
    requires rotationZValues[..] == SetPass(a0, Hits(frameEvents[..frameIndex], rotationZNote))
    modifies rotationZValues
    ensures !ok ==> !AllValid(Hits(frameEvents, rotationZNote))
    ensures ok ==> AllValid(Hits(frameEvents[..frameIndex + 1], rotationZNote))
    ensures ok ==> rotationZValues[..] == SetPass(a0, Hits(frameEvents[..frameIndex + 1], rotationZNote))
  {
    ghost var done := Hits(frameEvents[..frameIndex], rotationZNote);
    var events := frameEvents[frameIndex];
    var j := 0;
    assert done + BucketHits(frameIndex, events[..0], rotationZNote) == done;
    while j < |events|
      invariant 0 <= j <= |events|
      invariant AllValid(done + BucketHits(frameIndex, events[..j], rotationZNote))
      invariant rotationZValues[..] == SetPass(a0, done + BucketHits(frameIndex, events[..j], rotationZNote))
    {
      var event := events[j];
      ghost var hs := done + BucketHits(frameIndex, events[..j], rotationZNote);
      HitsNextEvent(frameEvents, frameIndex, j, rotationZNote);
      if event.kind == NoteOn && event.note == rotationZNote && event.channel == 9 {
        ghost var h := Hit(frameIndex, event.velocity);
        var written := WriteWindow(rotationZValues, frameIndex, event.velocity);
        if !written {
          InvalidHitFails(frameEvents, frameIndex, j, rotationZNote);
          return false;
        }
        ValidSnoc(hs, h);
        SetPassSnoc(a0, hs, h);
      } else {
        assert done + BucketHits(frameIndex, events[..j + 1], rotationZNote) == hs;
      }
      j := j + 1;
    }
    HitsNextFrame(frameEvents, frameIndex, rotationZNote);
    return true;
  }

  /** The inner loop of the second pass of `set_rotation_z_frames`. */
  method ResetBucket(rotationZValues: array<real>, frameEvents: seq<seq<Msg>>, frameIndex: nat, rotationZNote: int,
                     ghost c0: seq<real>)
    requires frameIndex < |frameEvents| && rotationZValues.Length == |frameEvents|
    requires rotationZValues[..] == ResetPass(c0, Hits(frameEvents[..frameIndex], rotationZNote))
    modifies rotationZValues
    ensures rotationZValues[..] == ResetPass(c0, Hits(frameEvents[..frameIndex + 1], rotationZNote))
  {
    ghost var done := Hits(frameEvents[..frameIndex], rotationZNote);
    var events := frameEvents[frameIndex];
    var j := 0;
    assert done + BucketHits(frameIndex, events[..0], rotationZNote) == done;
    while j < |events|
      invariant 0 <= j <= |events|
      invariant rotationZValues[..] == ResetPass(c0, done + BucketHits(frameIndex, events[..j], rotationZNote))
    {
      var event := events[j];
      ghost var hs := done + BucketHits(frameIndex, events[..j], rotationZNote);
      HitsNextEvent(frameEvents, frameIndex, j, rotationZNote);
      if event.kind == NoteOn && event.note == rotationZNote && event.channel == 9 {
        ResetPassSnoc(c0, hs, Hit(frameIndex, event.velocity));
        var resetFrame := frameIndex + 10;
        if resetFrame < rotationZValues.Length {
          rotationZValues[resetFrame] := 0.0;
        }
      } else {
        assert done + BucketHits(frameIndex, events[..j + 1], rotationZNote) == hs;
      }
      j := j + 1;
    }
    HitsNextFrame(frameEvents, frameIndex, rotationZNote);
  }

  /** `set_rotation_z_frames`: the first pass sets each hit's ten frames to
      its mapped velocity (raising, `ok` false, on a velocity outside
      1..127); the second pass zeroes the frame ten after each hit. */
  method SetRotationZFrames(rotationZValues: array<real>, frameEvents: seq<seq<Msg>>, totalFrames: nat, rotationZNote: int)
    returns (ok: bool)
    requires rotationZValues.Length == totalFrames && |frameEvents| == totalFrames
    modifies rotationZValues
    ensures ok <==> AllValid(Hits(frameEvents, rotationZNote))
    ensures ok ==> rotationZValues[..] == RotationZFrames(old(rotationZValues[..]), frameEvents, rotationZNote)
  {
    ghost var a0 := rotationZValues[..];
    var frameIndex := 0;
    while frameIndex < |frameEvents|
      invariant 0 <= frameIndex <= |frameEvents|
      invariant AllValid(Hits(frameEvents[..frameIndex], rotationZNote))
      invariant rotationZValues[..] == SetPass(a0, Hits(frameEvents[..frameIndex], rotationZNote))
    {
      var bucketOk := WindowBucket(rotationZValues, frameEvents, frameIndex, rotationZNote, a0);
      if !bucketOk { return false; }
      frameIndex := frameIndex + 1;
    }
    assert frameEvents[..frameIndex] == frameEvents;
    ghost var c0 := rotationZValues[..];
    frameIndex := 0;
    while frameIndex < |frameEvents|
      invariant 0 <= frameIndex <= |frameEvents|
      invariant rotationZValues[..] == ResetPass(c0, Hits(frameEvents[..frameIndex], rotationZNote))
    {
      ResetBucket(rotationZValues, frameEvents, frameIndex, rotationZNote, c0);
      frameIndex := frameIndex + 1;
    }
    assert frameEvents[..frameIndex] == frameEvents;
    return true;
  }

  lemma StrengthPassSnoc(a: seq<real>, hs: seq<Hit>, h: Hit, kick: real, default: real, offset: int)
    ensures StrengthPass(a, hs + [h], kick, default, offset)
         == match StrengthPass(a, hs, kick, default, offset)
            case Err(e) => Err(e)
            case Ok(p) =>
              if h.frame >= |p| then Err(IndexOutOfRange)
              else if h.frame + offset >= |p| then Ok(p[h.frame := kick])
              else match ResetSlot(h.frame + offset, |p|)
                case None => Err(IndexOutOfRange)
                case Some(slot) => Ok(p[h.frame := kick][slot := default])
  {
    assert (hs + [h])[..|hs|] == hs;
  }

  /** A qualifying event whose reset frame is below -total_frames is a hit
      of the whole input that makes the loop fail. */
  lemma OutOfRangeHitFails(a: seq<real>, frameEvents: seq<seq<Msg>>, fi: nat, j: nat, note: int,
                           kick: real, default: real, offset: int)
    requires |a| == |frameEvents| && fi < |frameEvents| && j < |frameEvents[fi]|
    requires Qualifies(frameEvents[fi][j], note) && !HitInRange(Hit(fi, frameEvents[fi][j].velocity), |a|, offset)
    ensures StrengthPass(a, Hits(frameEvents, note), kick, default, offset).Err?
  {
    var h := Hit(fi, frameEvents[fi][j].velocity);
    HitsNextEvent(frameEvents, fi, j, note);
    HitsSoFar(frameEvents, fi, j + 1, note);
    var hs := Hits(frameEvents[..fi], note) + BucketHits(fi, frameEvents[fi][..j], note);
    assert h in hs + [h];
    StrengthPassOk(a, Hits(frameEvents, note), kick, default, offset);
  }

  /** The inner loop of `set_strength_frames` over the bucket of one frame. */
  method StrengthBucket(strengthValues: array<real>, frameEvents: seq<seq<Msg>>, frameIndex: nat, fps: nat,
                        strengthNote: int, strengthKick: real, strengthDefault: real, kickDurationSeconds: real,
                        ghost a0: seq<real>) returns (ok: bool)
    requires frameIndex < |frameEvents| && strengthValues.Length == |frameEvents| == |a0|
    requires StrengthPass(a0, Hits(frameEvents[..frameIndex], strengthNote), strengthKick, strengthDefault,
                          KickOffset(kickDurationSeconds, fps)) == Ok(strengthValues[..])
    modifies strengthValues
    ensures !ok ==> StrengthPass(a0, Hits(frameEvents, strengthNote), strengthKick, strengthDefault,
                                 KickOffset(kickDurationSeconds, fps)).Err?
    ensures ok ==> StrengthPass(a0, Hits(frameEvents[..frameIndex + 1], strengthNote), strengthKick, strengthDefault,
                                KickOffset(kickDurationSeconds, fps)) == Ok(strengthValues[..])
  {
    ghost var offset := KickOffset(kickDurationSeconds, fps);
    ghost var done := Hits(frameEvents[..frameIndex], strengthNote);
    var n := strengthValues.Length;
    var events := frameEvents[frameIndex];
    var j := 0;
    assert done + BucketHits(frameIndex, events[..0], strengthNote) == done;
    while j < |events|
      invariant 0 <= j <= |events|
      invariant StrengthPass(a0, done + BucketHits(frameIndex, events[..j], strengthNote),
                             strengthKick, strengthDefault, offset) == Ok(strengthValues[..])
    {
      var event := events[j];
      ghost var hs := done + BucketHits(frameIndex, events[..j], strengthNote);
      HitsNextEvent(frameEvents, frameIndex, j, strengthNote);
      if event.kind == NoteOn && event.note == strengthNote && event.channel == 9 {
        StrengthPassSnoc(a0, hs, Hit(frameIndex, event.velocity), strengthKick, strengthDefault, offset);
        strengthValues[frameIndex] := strengthKick;
        var resetFrame := frameIndex + Trunc(kickDurationSeconds * fps as real);
        if resetFrame < n {
          if resetFrame >= 0 {
            strengthValues[resetFrame] := strengthDefault;
          } else if resetFrame >= -(n as int) {
            strengthValues[n + resetFrame] := strengthDefault;
          } else {
            OutOfRangeHitFails(a0, frameEvents, frameIndex, j, strengthNote, strengthKick, strengthDefault, offset);
            return false;
          }
        }
      } else {
        assert done + BucketHits(frameIndex, events[..j + 1], strengthNote) == hs;
      }
      j := j + 1;
    }
    HitsNextFrame(frameEvents, frameIndex, strengthNote);
    return true;
  }

  /** `set_strength_frames`: each hit sets its frame to `strength_kick` and
      its reset frame `frame + int(kick_duration_seconds * fps)`, when below
      total_frames, to `strength_default` (a negative reset frame indexes from
      the end, as Python lists do, and one below -total_frames raises
      IndexError: `ok` false). */
  method SetStrengthFrames(strengthValues: array<real>, frameEvents: seq<seq<Msg>>, totalFrames: nat, fps: nat,
                           strengthNote: int, strengthKick: real, strengthDefault: real, kickDurationSeconds: real)
    returns (ok: bool)
    requires strengthValues.Length == totalFrames && |frameEvents| == totalFrames
    modifies strengthValues
    ensures var r := StrengthFrames(old(strengthValues[..]), frameEvents, fps, strengthNote,
                                    strengthKick, strengthDefault, kickDurationSeconds);
            (ok <==> r.Ok?) && (ok ==> strengthValues[..] == r.value)
  {
    ghost var a0 := strengthValues[..];
    ghost var offset := KickOffset(kickDurationSeconds, fps);
    var frameIndex := 0;
    while frameIndex < |frameEvents|
      invariant 0 <= frameIndex <= |frameEvents|
      invariant StrengthPass(a0, Hits(frameEvents[..frameIndex], strengthNote), strengthKick, strengthDefault, offset)
             == Ok(strengthValues[..])
    {
      var bucketOk := StrengthBucket(strengthValues, frameEvents, frameIndex, fps, strengthNote,
                                     strengthKick, strengthDefault, kickDurationSeconds, a0);
      if !bucketOk { return false; }
      frameIndex := frameIndex + 1;
    }
    assert frameEvents[..frameIndex] == frameEvents;
    return true;
  }
}
