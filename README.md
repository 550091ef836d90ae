# MIDI → Parseq → Deforum job pipeline, modelled in Dafny

This project models the deterministic core of a pipeline that turns a drum
MIDI file into an animation schedule and then into render jobs:

- **Schedule builder** (`MIDI_to_parseq.py`). MIDI note messages are
  bucketed into the frames of a 16-second clip. Drum hits on channel 9 then
  drive four in-place array writers:
  - rotation x/y: an accumulating ramp;
  - rotation z: a 10-frame window followed by a reset;
  - strength: a kick, then the default value;
  - translation z: accumulating from 1.0.

  The five tracks are assembled into a Parseq keyframe document.
- **Schedule renderer** (`parseq_to_rendered.py`). A keyframe document
  becomes per-field max/min/isFlat metadata and per-frame value, delta and
  percentage records, wrapped in the Deforum/Parseq result document.
- **Dispatcher decisions** (`main_video_generation.py`). These are:
  - the node's ceiling-sized shard of configuration paths;
  - the per-slot port list;
  - the index read back from a configuration path;
  - the "already rendered" skip test;
  - the merged settings payload;
  - the MIDI path copied beside a finished render.

Modules (one file each):

- `Wrappers`: Option and Result.
- `Text`: decimal printing and parsing, `str.split`, and substring search.
- `MidiEvents`: `midi_to_frame_events`.
- `TrackHits`: `map_velocity_to_range` and the qualifying hits.
- `AccumulateSpec`, `RotationZSpec`, `StrengthSpec`: what each writer
  computes, as functions on sequences, with their properties.
- `TrackWriters`: the four writers as methods over arrays, each proved to
  compute its specification function; each writer's loop over one frame's
  events is a method of its own.
- `ParseqDoc`: JSON values and the keyframe document.
- `ParseqConfig`: `midi_to_parseq_config`.
- `ParseqRender`: `parseq_to_deforum`.
- `VideoDispatch`: the dispatcher decisions.

Python exceptions become `Err` values (or `ok == false` for the writers):

- `ValueError` for a velocity outside 1..127;
- `IndexError` for a strength write out of range;
- `ZeroDivisionError` for `fps == 0` or no nodes;
- the `KeyError`/`ValueError`/`IndexError` of the renderer on a malformed document;
- `IndexError` for an empty shard.

The prompt comes from a random file in the source. Here it is a parameter,
and so are the following:

- the node count and node id (environment variables in the source);
- the settings template;
- the serialised schedule;
- the directories present on disk.

## Model

| member | source | states |
|---|---|---|
| MidiEvents.FrameIndex | MIDIvideo_dataset/MIDI2ParseqDeforum/MIDI_to_parseq.py:27-29 | the frame is the floor of seconds·fps, where seconds = ticks·tempo/(10⁶·ticks_per_beat) at the 500000 µs default tempo |
| MidiEvents.FrameIndexMonotone | MIDIvideo_dataset/MIDI2ParseqDeforum/MIDI_to_parseq.py:25-29 | more cumulative ticks never give an earlier frame |
| MidiEvents.ScanTrack | MIDIvideo_dataset/MIDI2ParseqDeforum/MIDI_to_parseq.py:23-33 | the tick counter only grows while a track is scanned |
| MidiEvents.ScanTracks | MIDIvideo_dataset/MIDI2ParseqDeforum/MIDI_to_parseq.py:20-33 | scanning all tracks never ends "stopped"; the counter only grows across tracks |
| MidiEvents.ScanTrackWellPlaced | MIDIvideo_dataset/MIDI2ParseqDeforum/MIDI_to_parseq.py:23-33 | a track keeps only non-meta note_on/note_off messages, in nondecreasing frame order, each in a frame < total_frames between the frames of the counter before and after |
| MidiEvents.ScanTracksWellPlaced | MIDIvideo_dataset/MIDI2ParseqDeforum/MIDI_to_parseq.py:20-33 | the same holds across all tracks, because cumulative_ticks carries from one track to the next |
| MidiEvents.ScanTrackMembership | MIDIvideo_dataset/MIDI2ParseqDeforum/MIDI_to_parseq.py:23-33 | a (message, frame) pair is kept from one track iff some message i of it is non-meta, a note_on/note_off, no earlier non-meta message reached total_frames, and i's own cumulative ticks (the start counter plus the times of the non-meta messages up to i) give that frame < total_frames |
| MidiEvents.ScanTracksSound | MIDIvideo_dataset/MIDI2ParseqDeforum/MIDI_to_parseq.py:22-33 | every kept pair is message i of some track t, kept under that rule with track t starting from the counter the earlier tracks ended with |
| MidiEvents.ScanTracksComplete | MIDIvideo_dataset/MIDI2ParseqDeforum/MIDI_to_parseq.py:22-33 | every message kept under that rule, in any track, is kept by the scan of all tracks |
| MidiEvents.ScanTracksMembership | MIDIvideo_dataset/MIDI2ParseqDeforum/MIDI_to_parseq.py:22-33 | both directions together: the scan of all tracks keeps exactly the messages the rule keeps |
| MidiEvents.BreakIgnoresRest | MIDIvideo_dataset/MIDI2ParseqDeforum/MIDI_to_parseq.py:32-33 | once a message reaches frame ≥ total_frames, the rest of that track has no effect |
| MidiEvents.ScanTracksAppend | MIDIvideo_dataset/MIDI2ParseqDeforum/MIDI_to_parseq.py:22-33 | a break stops only its own track: later tracks are scanned from the counter the earlier ones reached |
| MidiEvents.FrameEventsMembership | MIDIvideo_dataset/MIDI2ParseqDeforum/MIDI_to_parseq.py:22-31 | for f < total_frames, frame_events[f] holds m iff m is some track's kept message whose cumulative ticks give frame f |
| MidiEvents.BucketMembership | MIDIvideo_dataset/MIDI2ParseqDeforum/MIDI_to_parseq.py:30-31 | a message is in bucket f iff it was placed at frame f |
| MidiEvents.BucketAppend | MIDIvideo_dataset/MIDI2ParseqDeforum/MIDI_to_parseq.py:31 | appending a placed message extends only the bucket of its frame |
| MidiEvents.MidiToFrameEvents | MIDIvideo_dataset/MIDI2ParseqDeforum/MIDI_to_parseq.py:6-35 | fails (division by zero) iff fps = 0; otherwise returns 16·fps buckets holding exactly the scan, frame by frame, with total_frames |
| MidiEvents.BucketTrack | MIDIvideo_dataset/MIDI2ParseqDeforum/MIDI_to_parseq.py:23-33 | scanning one track appends exactly that track's scan to the buckets and returns its final tick counter, a break included |
| TrackHits.MapVelocityToRange | MIDIvideo_dataset/MIDI2ParseqDeforum/MIDI_to_parseq.py:46-56 | ValueError iff the velocity is outside 1..127; 1 maps to min, 127 to max; if min ≤ max the result lies in [min, max] |
| TrackHits.MapVelocityMonotone | MIDIvideo_dataset/MIDI2ParseqDeforum/MIDI_to_parseq.py:50-54 | for min ≤ max the mapping is monotone in the velocity |
| TrackHits.HitsMembership | MIDIvideo_dataset/MIDI2ParseqDeforum/MIDI_to_parseq.py:62-64 | a hit exists iff some bucket holds a note_on of the configured note on channel 9 with that velocity; nothing else affects a writer |
| TrackHits.BucketHitsMembership | MIDIvideo_dataset/MIDI2ParseqDeforum/MIDI_to_parseq.py:63-64 | within one bucket, hits are exactly its qualifying note_on events |
| TrackHits.HitsSorted | MIDIvideo_dataset/MIDI2ParseqDeforum/MIDI_to_parseq.py:62-63 | hits are visited in nondecreasing frame order, and every hit frame is < the number of buckets |
| AccumulateSpec.RotationIncrement | MIDIvideo_dataset/MIDI2ParseqDeforum/MIDI_to_parseq.py:65 | a rotation step lies in [0, 1] |
| AccumulateSpec.RunValues | MIDIvideo_dataset/MIDI2ParseqDeforum/MIDI_to_parseq.py:66-69 | the 5-step loop writes frame f+i (inside the list) with the accumulator after i+1 increments, and adds the increment once per frame inside the list |
| AccumulateSpec.RunFrame | MIDIvideo_dataset/MIDI2ParseqDeforum/MIDI_to_parseq.py:66-69 | a 5-frame run changes no index outside [frame, frame+5) |
| AccumulateSpec.AccumulateUntouched | MIDIvideo_dataset/MIDI2ParseqDeforum/MIDI_to_parseq.py:62-69 | an index that no hit's 5-frame window covers keeps its value through the first pass |
| AccumulateSpec.FillUpTo | MIDIvideo_dataset/MIDI2ParseqDeforum/MIDI_to_parseq.py:72-74 | after the fill iterations below k: frames from k on and frames off the base are unchanged, frame 0 is unchanged, and a frame j < k at the base takes the filled value of frame j−1 |
| AccumulateSpec.Fill | MIDIvideo_dataset/MIDI2ParseqDeforum/MIDI_to_parseq.py:72-74 | after the fill loop every frame off the base keeps its value, frame 0 is unchanged, and every other frame at the base equals the filled frame before it |
| AccumulateSpec.RotationStepsAt | MIDIvideo_dataset/MIDI2ParseqDeforum/MIDI_to_parseq.py:64-65 | each rotation step starts at its hit's frame and adds map_velocity_to_range(v, 0, 1), in [0, 1] |
| AccumulateSpec.TranslationStepsAt | MIDIvideo_dataset/MIDI2ParseqDeforum/MIDI_to_parseq.py:108-109 | each translation step starts at its hit's frame and adds velocity/5, in [0, 25.4] |
| AccumulateSpec.RunInv | MIDIvideo_dataset/MIDI2ParseqDeforum/MIDI_to_parseq.py:66-69 | one run with a nonnegative increment keeps the values between the base and the accumulator, and non-base values rising outside the window being written |
| AccumulateSpec.FillUpToInv | MIDIvideo_dataset/MIDI2ParseqDeforum/MIDI_to_parseq.py:72-74 | the fill iterations below k make frames 0..k−1 nondecreasing and ≥ base, and bound later non-base values from below |
| AccumulateSpec.FillNondecreasing | MIDIvideo_dataset/MIDI2ParseqDeforum/MIDI_to_parseq.py:71-74 | the forward fill of a base-bounded array whose non-base values rise makes it nondecreasing and keeps it ≥ base |
| AccumulateSpec.AccumulateInv | MIDIvideo_dataset/MIDI2ParseqDeforum/MIDI_to_parseq.py:62-69 | with nonnegative steps in frame order, the accumulated array is base below the last written frame's window and rising above base elsewhere |
| AccumulateSpec.RotationNondecreasing | MIDIvideo_dataset/MIDI2ParseqDeforum/MIDI_to_parseq.py:58-74 | from an all-zero array, set_rotation_frames gives a nondecreasing track ≥ 0 of the same length (the "continuous increasing function") |
| AccumulateSpec.TranslationZNondecreasing | MIDIvideo_dataset/MIDI2ParseqDeforum/MIDI_to_parseq.py:102-118 | from an all-1.0 array, set_translation_z_frames (velocity/5 per step over 5 frames) gives a nondecreasing track ≥ 1.0 |
| AccumulateSpec.AccumulateFillNondecreasing | MIDIvideo_dataset/MIDI2ParseqDeforum/MIDI_to_parseq.py:61-74 | from the base everywhere, with hits in frame order and nonnegative increments, first pass then fill gives a nondecreasing track ≥ base of the same length |
| RotationZSpec.ZValue | MIDIvideo_dataset/MIDI2ParseqDeforum/MIDI_to_parseq.py:83 | the window value lies in [0, 10] |
| RotationZSpec.RotationZAt | MIDIvideo_dataset/MIDI2ParseqDeforum/MIDI_to_parseq.py:76-91 | frame j ends at 0 if it is some hit's frame+10, else at the value of the last hit whose 10-frame window covers j, else unchanged |
| RotationZSpec.RotationZRange | MIDIvideo_dataset/MIDI2ParseqDeforum/MIDI_to_parseq.py:81-83 | from values in [0, 10], every value stays in [0, 10] |
| RotationZSpec.RotationZReset | MIDIvideo_dataset/MIDI2ParseqDeforum/MIDI_to_parseq.py:85-91 | for every qualifying hit at f with f+10 < total_frames, the final value at f+10 is 0 |
| RotationZSpec.RotationZUntouched | MIDIvideo_dataset/MIDI2ParseqDeforum/MIDI_to_parseq.py:78-91 | an index that no window covers and that is no reset frame keeps its value |
| RotationZSpec.LastCoverNone | MIDIvideo_dataset/MIDI2ParseqDeforum/MIDI_to_parseq.py:81-83 | no covering value exists iff no hit's window covers the index |
| RotationZSpec.LastCoverRange | MIDIvideo_dataset/MIDI2ParseqDeforum/MIDI_to_parseq.py:83 | a covering value lies in [0, 10] |
| StrengthSpec.Trunc | MIDIvideo_dataset/MIDI2ParseqDeforum/MIDI_to_parseq.py:98 | Python's int() of a real truncates toward zero, for both signs |
| StrengthSpec.KickOffset | MIDIvideo_dataset/MIDI2ParseqDeforum/MIDI_to_parseq.py:98 | int(kick_duration_seconds·fps) truncates toward zero: the largest integer not above a nonnegative product, the smallest not below a negative one |
| StrengthSpec.ResetSlotIndex | MIDIvideo_dataset/MIDI2ParseqDeforum/MIDI_to_parseq.py:99-100 | the assignment to reset_frame < total_frames succeeds iff reset_frame ≥ −total_frames, and then writes Python's index reset_frame mod total_frames |
| StrengthSpec.StrengthPass | MIDIvideo_dataset/MIDI2ParseqDeforum/MIDI_to_parseq.py:94-100 | the only failure is IndexError; on success the list keeps its length |
| StrengthSpec.StrengthPassOk | MIDIvideo_dataset/MIDI2ParseqDeforum/MIDI_to_parseq.py:97-100 | the loop succeeds iff every hit's frame and reset index (with Python negative indexing) are inside the list |
| StrengthSpec.StrengthPassAt | MIDIvideo_dataset/MIDI2ParseqDeforum/MIDI_to_parseq.py:94-100 | each index ends at the value of the last assignment to it (later writes win), or keeps its value |
| StrengthSpec.StrengthUntouched | MIDIvideo_dataset/MIDI2ParseqDeforum/MIDI_to_parseq.py:94-100 | an index that is neither a kick frame nor a reset index is unchanged |
| StrengthSpec.StrengthWritesShape | MIDIvideo_dataset/MIDI2ParseqDeforum/MIDI_to_parseq.py:97-100 | every assignment puts strength_kick at a hit frame, or strength_default at its reset index frame+int(kick_duration·fps) < total_frames |
| StrengthSpec.LastWriteNone | MIDIvideo_dataset/MIDI2ParseqDeforum/MIDI_to_parseq.py:97-100 | an index has no last assignment iff nothing is assigned to it |
| TrackWriters.FillForward | MIDIvideo_dataset/MIDI2ParseqDeforum/MIDI_to_parseq.py:72-74 | the fill loop in place computes the fill function of the old contents |
| TrackWriters.WriteRun | MIDIvideo_dataset/MIDI2ParseqDeforum/MIDI_to_parseq.py:66-69 | the 5-step inner loop in place computes the run function, accumulator included |
| TrackWriters.RotationBucket | MIDIvideo_dataset/MIDI2ParseqDeforum/MIDI_to_parseq.py:63-69 | after one frame's events, fails only when a qualifying velocity is invalid, and otherwise the array and accumulator agree with the rotation steps of every hit up to that frame |
| TrackWriters.SetRotationFrames | MIDIvideo_dataset/MIDI2ParseqDeforum/MIDI_to_parseq.py:58-74 | succeeds iff every qualifying velocity is in 1..127; then the array holds the rotation track of its old contents |
| TrackWriters.TranslationZBucket | MIDIvideo_dataset/MIDI2ParseqDeforum/MIDI_to_parseq.py:107-113 | after one frame's events the array and accumulator agree with the translation steps of every hit up to that frame |
| TrackWriters.SetTranslationZFrames | MIDIvideo_dataset/MIDI2ParseqDeforum/MIDI_to_parseq.py:102-118 | the array ends holding the translation track of its old contents |
| TrackWriters.WriteWindow | MIDIvideo_dataset/MIDI2ParseqDeforum/MIDI_to_parseq.py:81-83 | succeeds iff the velocity is valid; then frames f..f+9 inside the array hold the mapped value |
| TrackWriters.WindowBucket | MIDIvideo_dataset/MIDI2ParseqDeforum/MIDI_to_parseq.py:79-83 | after one frame's events, fails only when a qualifying velocity is invalid, and otherwise the array holds the window pass over every hit up to that frame |
| TrackWriters.ResetBucket | MIDIvideo_dataset/MIDI2ParseqDeforum/MIDI_to_parseq.py:87-91 | after one frame's events the array holds the reset pass over every hit up to that frame |
| TrackWriters.SetRotationZFrames | MIDIvideo_dataset/MIDI2ParseqDeforum/MIDI_to_parseq.py:76-91 | succeeds iff every qualifying velocity is valid; then the array holds the two-pass rotation z track of its old contents |
| TrackWriters.StrengthBucket | MIDIvideo_dataset/MIDI2ParseqDeforum/MIDI_to_parseq.py:95-100 | after one frame's events, fails only when the strength pass over all hits fails, and otherwise the array is the strength pass over every hit up to that frame |
| TrackWriters.SetStrengthFrames | MIDIvideo_dataset/MIDI2ParseqDeforum/MIDI_to_parseq.py:93-100 | succeeds iff the strength pass succeeds, and then the array holds its result |
| TrackWriters.InvalidHitFails | MIDIvideo_dataset/MIDI2ParseqDeforum/MIDI_to_parseq.py:64-65 | one qualifying note_on with velocity 0 makes the rotation writers fail |
| TrackWriters.OutOfRangeHitFails | MIDIvideo_dataset/MIDI2ParseqDeforum/MIDI_to_parseq.py:97-100 | one out-of-range kick makes set_strength_frames fail |
| ParseqConfig.EnabledFields | MIDIvideo_dataset/MIDI2ParseqDeforum/MIDI_to_parseq.py:157-171 | displayFields never lists a field twice |
| ParseqConfig.RotationTrack | MIDIvideo_dataset/MIDI2ParseqDeforum/MIDI_to_parseq.py:150-161 | a rotation x/y track, when it exists, has one value per frame |
| ParseqConfig.RotationZTrack | MIDIvideo_dataset/MIDI2ParseqDeforum/MIDI_to_parseq.py:152-164 | the rotation z track, when it exists, has one value per frame |
| ParseqConfig.StrengthTrack | MIDIvideo_dataset/MIDI2ParseqDeforum/MIDI_to_parseq.py:154-167 | the strength track, when it exists, has one value per frame |
| ParseqConfig.TranslationZTrack | MIDIvideo_dataset/MIDI2ParseqDeforum/MIDI_to_parseq.py:153-170 | the translation z track has one value per frame |
| ParseqConfig.ComputeTracks | MIDIvideo_dataset/MIDI2ParseqDeforum/MIDI_to_parseq.py:149-171 | when the writers succeed, all five tracks have total_frames values |
| ParseqConfig.TracksShape | MIDIvideo_dataset/MIDI2ParseqDeforum/MIDI_to_parseq.py:149-171 | in the assembled tracks, rotations x/y are nondecreasing and ≥ 0, rotation z lies in [0, 10], and translation z is nondecreasing and ≥ 1 |
| ParseqConfig.KeyframeValues | MIDIvideo_dataset/MIDI2ParseqDeforum/MIDI_to_parseq.py:175-185 | a keyframe's keys are exactly the enabled fields |
| ParseqConfig.RunRotation | MIDIvideo_dataset/MIDI2ParseqDeforum/MIDI_to_parseq.py:150-161 | running set_rotation_frames on a fresh zero list yields the rotation track, or its failure |
| ParseqConfig.RunRotationZ | MIDIvideo_dataset/MIDI2ParseqDeforum/MIDI_to_parseq.py:152-164 | running set_rotation_z_frames on a fresh zero list yields the rotation z track, or its failure |
| ParseqConfig.RunStrength | MIDIvideo_dataset/MIDI2ParseqDeforum/MIDI_to_parseq.py:154-167 | running set_strength_frames on a fresh strength_default list yields the strength track, or IndexError |
| ParseqConfig.RunTranslationZ | MIDIvideo_dataset/MIDI2ParseqDeforum/MIDI_to_parseq.py:153-170 | running set_translation_z_frames on a fresh all-1.0 list yields the translation track |
| ParseqConfig.RunWriters | MIDIvideo_dataset/MIDI2ParseqDeforum/MIDI_to_parseq.py:149-171 | the writers, in the order x, y, z, strength, translation, yield the five tracks, or the first failure |
| ParseqConfig.BuildKeyframes | MIDIvideo_dataset/MIDI2ParseqDeforum/MIDI_to_parseq.py:173-186 | total_frames keyframes; keyframe i has frame i, exactly the enabled fields, and each field's track value at i |
| ParseqConfig.DisplayFields | MIDIvideo_dataset/MIDI2ParseqDeforum/MIDI_to_parseq.py:157-171 | the displayed fields are the enabled ones in the order x, y, z, strength, translation |
| ParseqConfig.MidiToParseqConfig | MIDIvideo_dataset/MIDI2ParseqDeforum/MIDI_to_parseq.py:120-190 | fails iff an enabled writer fails; otherwise: docName; the prompts; the fixed options; displayFields listing the truthy note fields in the order x, y, z, strength, translation; total_frames keyframes (keyframe i has frame i and exactly those fields, with the track values); total_frames |
| ParseqRender.SeqMax | MIDIvideo_dataset/MIDI2ParseqDeforum/parseq_to_rendered.py:8 | max() is an element of the list and bounds it from above |
| ParseqRender.SeqMin | MIDIvideo_dataset/MIDI2ParseqDeforum/parseq_to_rendered.py:8 | min() is an element of the list and bounds it from below |
| ParseqRender.GetMaxMinValues | MIDIvideo_dataset/MIDI2ParseqDeforum/parseq_to_rendered.py:6-8 | succeeds iff the list is non-empty and every keyframe has the field (else KeyError for the field, or ValueError for an empty list); returns an attained maximum and minimum of the field |
| ParseqRender.IsFlatIffConstant | MIDIvideo_dataset/MIDI2ParseqDeforum/parseq_to_rendered.py:17 | isFlat (max == min) holds iff all keyframes give the field the same value |
| ParseqRender.FirstMissing | MIDIvideo_dataset/MIDI2ParseqDeforum/parseq_to_rendered.py:15-16 | the reported field is displayed and missing from some keyframe |
| ParseqRender.FirstMissingNone | MIDIvideo_dataset/MIDI2ParseqDeforum/parseq_to_rendered.py:15-16 | no KeyError iff every displayed field is in every keyframe |
| ParseqRender.FirstMissingStep | MIDIvideo_dataset/MIDI2ParseqDeforum/parseq_to_rendered.py:15-16 | one more field keeps "nothing missing" exactly when that field is in every keyframe, and is reported otherwise |
| ParseqRender.FirstMissingAt | MIDIvideo_dataset/MIDI2ParseqDeforum/parseq_to_rendered.py:15-16 | the first field missing from a keyframe is the one the whole list reports |
| ParseqRender.MetaForSnoc | MIDIvideo_dataset/MIDI2ParseqDeforum/parseq_to_rendered.py:16-17 | adding one field's entry extends the metadata to one more displayed field |
| ParseqRender.DeltasTelescope | MIDIvideo_dataset/MIDI2ParseqDeforum/parseq_to_rendered.py:21-31 | the deltas up to frame i sum to the value at frame i (frame 0's previous frame is all zeros) |
| ParseqRender.PcRange | MIDIvideo_dataset/MIDI2ParseqDeforum/parseq_to_rendered.py:28-29 | for a positive max, a value in [0, max] has pc in [0, 100], and the max itself has pc 100 |
| ParseqRender.MetaEntry | MIDIvideo_dataset/MIDI2ParseqDeforum/parseq_to_rendered.py:16-17 | one metadata entry is the field's max, min and their equality, or the helper's error |
| ParseqRender.BuildMeta | MIDIvideo_dataset/MIDI2ParseqDeforum/parseq_to_rendered.py:14-17 | fails iff fields exist and keyframes are empty (ValueError), or some displayed field is missing (KeyError for the first one); otherwise has one entry per displayed field, its max/min/isFlat |
| ParseqRender.RenderFrame | MIDIvideo_dataset/MIDI2ParseqDeforum/parseq_to_rendered.py:21-32 | a record carries the keyframe's frame, the prompt, and, for each displayed field, the value, vᵢ − vᵢ₋₁ (v₀ − 0 at frame 0), and pc (0 if max = 0, else 100·v/max) |
| ParseqRender.BuildFrames | MIDIvideo_dataset/MIDI2ParseqDeforum/parseq_to_rendered.py:19-33 | one record per keyframe, in keyframe order |
| ParseqRender.ParseqToDeforum | MIDIvideo_dataset/MIDI2ParseqDeforum/parseq_to_rendered.py:13-87 | fails exactly with ValueError, KeyError or IndexError (empty keyframes and no fields); otherwise: options are the input's with cadence 1; fields and keyframes pass through; both prompt spans run from 0 to the last keyframe's frame; the metadata and the per-frame records are as above, and every prompt is positive + " --neg " + negative; the literals generated_by "sd_parseq", version "0.1.112", format "v2", enabled, keyframe_lock "frames", empty time series, no reverse render, common prompt "append"; the common prompt "Common" with empty texts and the single prompt "Prompt 1" with the input prompts, both over all frames with the fixed "none" overlap |
| Text.Dec | MIDIvideo_dataset/video_generation/main_video_generation.py:25 | str() of a natural is a non-empty string of digits, with more than one digit iff n ≥ 10 |
| Text.ParseNat | MIDIvideo_dataset/video_generation/main_video_generation.py:120 | int() on plain digit strings: succeeds iff the string is a non-empty run of digits |
| Text.ParseDec | MIDIvideo_dataset/video_generation/main_video_generation.py:120 | int(str(n)) == n |
| Text.Split | MIDIvideo_dataset/video_generation/main_video_generation.py:77 | str.split always yields at least one piece |
| Text.SplitAround | MIDIvideo_dataset/video_generation/main_video_generation.py:77 | splitting p + c + q is splitting p and then q |
| Text.SplitNoSeparator | MIDIvideo_dataset/video_generation/main_video_generation.py:77 | a string without the separator splits into itself |
| Text.SplitLast | MIDIvideo_dataset/video_generation/main_video_generation.py:77 | `[-1]` of the split is the text after the last separator |
| Text.SplitFirst | MIDIvideo_dataset/video_generation/main_video_generation.py:77 | `[0]` of the split is the text before the first separator |
| Text.ContainsIff | MIDIvideo_dataset/video_generation/main_video_generation.py:83 | `t in s` holds iff t occurs at some position of s |
| VideoDispatch.CeilDiv | MIDIvideo_dataset/video_generation/main_video_generation.py:18 | ceil(a / b) is the least c with a ≤ b·c |
| VideoDispatch.ShardIndices | MIDIvideo_dataset/video_generation/main_video_generation.py:18-25 | every selected index is < count and lies in node_id·E .. (node_id+1)·E − 1 |
| VideoDispatch.SelectedRange | MIDIvideo_dataset/video_generation/main_video_generation.py:22-25 | the loop keeps the contiguous indices start .. start + max(0, min(i, count − start)) − 1 |
| VideoDispatch.ShardShape | MIDIvideo_dataset/video_generation/main_video_generation.py:18-25 | with E = ceil(count/nodes), node id gets id·E + j for j below max(0, min(E, count − id·E)), ascending and < count |
| VideoDispatch.AllShardsPrefix | MIDIvideo_dataset/video_generation/main_video_generation.py:18-25 | the shards of nodes 0..j−1 together are 0 .. min(j·E, count) − 1 |
| VideoDispatch.AllShardsEmpty | MIDIvideo_dataset/video_generation/main_video_generation.py:18-22 | with E ≤ 0 (count ≤ 0) every shard is empty |
| VideoDispatch.ShardsPartition | MIDIvideo_dataset/video_generation/main_video_generation.py:18-25 | the shards of nodes 0..nodes−1, concatenated, are 0, 1, …, count − 1: each index exactly once, in order |
| VideoDispatch.ShardSizesOfTen | MIDIvideo_dataset/video_generation/main_video_generation.py:18-25 | 10 over 3 nodes gives 4, 4, 2; 10 over 4 gives 3, 3, 3, 1; node 5 of 6 gets nothing |
| VideoDispatch.GetConfig | MIDIvideo_dataset/video_generation/main_video_generation.py:14-31 | with no nodes, division by zero; else IndexError iff the shard is empty; otherwise the shard's paths `{root}/midi_parseq_{k+1}/parseq_{k+1}.json` in order |
| VideoDispatch.ConfigPathInjective | MIDIvideo_dataset/video_generation/main_video_generation.py:25 | two indices give the same configuration path iff they are equal |
| VideoDispatch.ConfigPathsDistinct | MIDIvideo_dataset/video_generation/main_video_generation.py:22-25 | distinct indices give as many paths, pairwise distinct: no node renders a configuration twice |
| VideoDispatch.Ports | MIDIvideo_dataset/video_generation/main_video_generation.py:165 | one port per local slot |
| VideoDispatch.PortsDistinct | MIDIvideo_dataset/video_generation/main_video_generation.py:165 | slot i uses port 52361 + i, so no two slots share a backend |
| VideoDispatch.Url | MIDIvideo_dataset/video_generation/main_video_generation.py:64 | the URL exists iff the slot has a port |
| VideoDispatch.DecHasNoSeparators | MIDIvideo_dataset/video_generation/main_video_generation.py:25 | a decimal index contains no '_', '.' or '/' |
| VideoDispatch.ConfigIndex | MIDIvideo_dataset/video_generation/main_video_generation.py:77 | the extracted index contains no '_' or '.', and only characters of the path |
| VideoDispatch.ConfigIndexOfPath | MIDIvideo_dataset/video_generation/main_video_generation.py:77 | `split('_')[-1].split('.')[0]` of the path for k is the decimal k+1, whatever the root |
| VideoDispatch.MidiPathOfConfig | MIDIvideo_dataset/video_generation/main_video_generation.py:120-121 | int() of that index is k+1, so the MIDI path is `{root}/midi_parseq_{k+1}/midi_{k+1}.mid` |
| VideoDispatch.AnyVideoIff | MIDIvideo_dataset/video_generation/main_video_generation.py:83 | any() holds iff some entry name contains ".mp4" |
| VideoDispatch.AlreadyRendered | MIDIvideo_dataset/video_generation/main_video_generation.py:81-85 | skipped iff the batch directory exists and some entry in it contains ".mp4" |
| VideoDispatch.MergeSettings | MIDIvideo_dataset/video_generation/main_video_generation.py:73-78 | the template gains parseq_manifest = the schedule, parseq_non_schedule_overrides = True and batch_name = "batch_{index}"; every other key is unchanged |
| VideoDispatch.Payload | MIDIvideo_dataset/video_generation/main_video_generation.py:87-93 | the payload has exactly the two keys: the single settings document and the fixed options_overrides |
| VideoDispatch.PostDecision | MIDIvideo_dataset/video_generation/main_video_generation.py:63-95 | fails iff the slot has no port; returns 'already', before any POST, iff the skip test holds; otherwise posts to `{url}/deforum_api/batches` the payload of the merged settings |
| VideoDispatch.SubmitBatchName | MIDIvideo_dataset/video_generation/main_video_generation.py:77-93 | for the path of index k that is not yet rendered, the submitted batch is named "batch_{k+1}" |

## Left out

- MIDI parsing with `mido.MidiFile` (MIDI_to_parseq.py:7) is not modelled. A file is a sequence of tracks, each a sequence of message records (is_meta, time, type, note, channel, velocity). `mido.tick2second` is the exact formula at the fixed 500000 µs tempo.
- MidiEvents.MidiToFrameEvents: requires ticks_per_beat > 0, which a parsed MIDI header always has.
- `get_random_prompt` (MIDI_to_parseq.py:37-44), which lists directories and reads a random file, is not modelled. The positive prompt is a parameter.
- Floating point is not modelled: every value is a `real`. The model misses IEEE rounding and `round(..., 14)` on the strength min/max (parseq_to_rendered.py:89-92). The fill tests `== 0.0` and `== 1.0` are exact comparisons. The reset pass of set_rotation_z_frames stores the integer `0` (MIDI_to_parseq.py:91); the model stores `0.0`, which compares equal.
- TrackWriters.SetRotationFrames: requires the array and the bucket list to have total_frames entries, as midi_to_parseq_config passes them. When it fails it says nothing about the array, which Python leaves half-written but never reads once the exception escapes.
- TrackWriters.SetRotationZFrames: the same length requirement and silence about the array after a failure.
- TrackWriters.SetStrengthFrames: the same length requirement and silence about the array after a failure.
- TrackWriters.SetTranslationZFrames: the same length requirement.
- ParseqConfig.MidiToParseqConfig: requires one bucket per frame, which is how `midi_to_frame_events` produces them. It reports only that a writer failed, not which exception message Python prints. A note argument is an optional integer; other truthy values are not modelled.
- JSON loading and dumping are not modelled: `json.load` of the files, `json.dumps` of the manifest (a parameter), and the `indent=4` writer. Neither are `datetime.utcnow` and `uuid4` in the result's meta (parseq_to_rendered.py:37-41). The model keeps "generated_by" and "version".
- ParseqRender.RenderFrame: keeps `<field>`, `<field>_delta` and `<field>_pc` in three maps instead of one flat dict. It therefore does not model a display field whose name collides with another field's `_delta`/`_pc` key, or one named "frame".
- Dict key order is not modelled: neither the key order of the rendered records nor that of the keyframes written by midi_to_parseq_config (frame, x, y, z, translation_z, strength), since keyframes are maps.
- ParseqRender.ParseqToDeforum: a document is the typed keyframe document. JSON shapes that are not such a document (missing "prompts", non-numeric values) are not modelled.
- Worker threads, the task queue, the `None` sentinels and `mp.spawn` (main_video_generation.py:132-191) are not modelled. They concern concurrency and process lifetime.
- The POST and GET calls are not modelled, nor `raise_for_status`, the polling loop with `time.sleep`, or `shutil.copy` (main_video_generation.py:95-127). Only the MIDI path they copy is. These calls are network and file I/O.
- `launch_a11_backend` and `get_device_config` (main_video_generation.py:34-60), which start processes and query devices, are not modelled. The SLURM environment reads at lines 15-16 become the parameters `nodes` and `nodeId`.
- VideoDispatch.GetConfig: the node id is a natural number, as SLURM provides. It uses exact integer ceiling division, so float rounding of `args.count / n` for huge counts is not modelled. The printed lines are left out.
- VideoDispatch.PostDecision: takes the loaded template, the serialised schedule and the existing directories with their entry names as parameters. A file at the batch path does not count as existing, because the path ends in "/".
- Text.ParseNat: models `int()` on plain digit strings only. Python's int() also accepts surrounding whitespace, a leading sign and `_` between digits; those forms are not modelled, since a shard path never contains them.
- VideoDispatch.MidiPathOfConfig: `int()` is modelled on plain digit strings only. Python's acceptance of surrounding whitespace or a sign is not modelled; a shard path never contains them.
- `dataset_creation.py` is not part of this model. It holds directory creation, random parameter draws and script-level calls of the modelled functions.
- The shard sizes follow the code: `ceil(count/nodes)` per node, with the tail cut at count. Sizes can differ by more than one (10 over 4 nodes gives 3, 3, 3, 1; see VideoDispatch.ShardSizesOfTen). A node past the end gets an empty shard, and `node_configs[0]` then raises IndexError; there is no separate configuration error for an out-of-range node id.
