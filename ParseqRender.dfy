/** The schedule renderer (`parseq_to_deforum` after the JSON load): per-field
    max/min/isFlat metadata and per-frame value, delta and percentage records. */
module ParseqRender {
  import opened Wrappers
  import opened ParseqDoc

  /** Python's exceptions on a malformed document: `max()` of an empty list
      (ValueError), a keyframe without a displayed field (KeyError), and
      `keyframes[-1]` of an empty list (IndexError). */
  datatype RenderError = EmptyMax | MissingKey(field: string) | NoLastKeyframe

  datatype FieldMeta = FieldMeta(max: real, min: real, isFlat: bool)

  /** One entry of "rendered_frames"; the `<field>`, `<field>_delta` and
      `<field>_pc` keys of the source's flat record are kept in three maps. */
  datatype RenderedFrame = RenderedFrame(
    frame: int, deforumPrompt: string,
    values: map<string, real>, deltas: map<string, real>, pcs: map<string, real>)

  /** "commonPrompt" and the single "promptList" entry. */
  datatype PromptSpan = PromptSpan(
    name: string, positive: string, negative: string, allFrames: bool,
    from: int, to: int, overlap: map<string, Json>)

  datatype Rendered = Rendered(
    generatedBy: string, version: string,
    format: string, enabled: bool, commonPrompt: PromptSpan, commonPromptPos: string,
    promptList: seq<PromptSpan>,
    options: map<string, Json>, managedFields: seq<string>, displayedFields: seq<string>,
    keyframes: seq<Keyframe>, timeSeries: seq<Json>, keyframeLock: string, reverseRender: bool,
    renderedFrames: seq<RenderedFrame>, renderedFramesMeta: map<string, FieldMeta>)

  const Overlap: map<string, Json> := map[
    "inFrames" := JInt(0), "outFrames" := JInt(0),
    "type" := JStr("none"), "custom" := JStr("prompt_weight_1")]

  /** The prompt of every rendered frame. */
  function DeforumPrompt(positive: string, negative: string): string {
    positive + " --neg " + negative
  }

  // ---------------------------------------------------------------------
  // get_max_min_values
  // ---------------------------------------------------------------------

  /** Every keyframe carries `field`. */
  predicate HasField(keyframes: seq<Keyframe>, field: string) {
    forall k :: 0 <= k < |keyframes| ==> field in keyframes[k].values
  }

  /** `[kf[field] for kf in keyframes]`. */
  function FieldValues(keyframes: seq<Keyframe>, field: string): seq<real>
    requires HasField(keyframes, field)
  {
    seq(|keyframes|, k requires 0 <= k < |keyframes| => keyframes[k].values[field])
  }

  lemma FieldValuesAt(keyframes: seq<Keyframe>, field: string)
    requires HasField(keyframes, field)
    ensures |FieldValues(keyframes, field)| == |keyframes|
    ensures forall k :: 0 <= k < |keyframes| ==> FieldValues(keyframes, field)[k] == keyframes[k].values[field]
  {
  }

  function SeqMax(s: seq<real>): (m: real)
    requires |s| > 0
    ensures m in s && forall j :: 0 <= j < |s| ==> s[j] <= m
  {
    if |s| == 1 then s[0]
    else var p := SeqMax(s[..|s| - 1]);
      assert forall j :: 0 <= j < |s| - 1 ==> s[..|s| - 1][j] == s[j];
      if s[|s| - 1] > p then s[|s| - 1] else p
  }

  function SeqMin(s: seq<real>): (m: real)
    requires |s| > 0
    ensures m in s && forall j :: 0 <= j < |s| ==> m <= s[j]
  {
    if |s| == 1 then s[0]
    else var p := SeqMin(s[..|s| - 1]);
      assert forall j :: 0 <= j < |s| - 1 ==> s[..|s| - 1][j] == s[j];
      if s[|s| - 1] < p then s[|s| - 1] else p
  }

  /** `get_max_min_values`: the largest and smallest value of `field`, failing
      like the comprehension (KeyError) and then `max()` (ValueError). */
  function GetMaxMinValues(keyframes: seq<Keyframe>, field: string): (r: Result<(real, real), RenderError>)
    ensures r.Ok? <==> |keyframes| > 0 && HasField(keyframes, field)
    ensures r.Err? ==> r.error == (if HasField(keyframes, field) then EmptyMax else MissingKey(field))
    ensures r.Ok? ==> var (mx, mn) := r.value;
      && (exists k :: 0 <= k < |keyframes| && keyframes[k].values[field] == mx)
      && (exists k :: 0 <= k < |keyframes| && keyframes[k].values[field] == mn)
      && forall k :: 0 <= k < |keyframes| ==> mn <= keyframes[k].values[field] <= mx
  {
    if !HasField(keyframes, field) then Err(MissingKey(field))
    else if |keyframes| == 0 then Err(EmptyMax)
    else
      var vs := FieldValues(keyframes, field);
      FieldValuesAt(keyframes, field);
      Ok((SeqMax(vs), SeqMin(vs)))
  }

  /** The metadata entry of a field present in every keyframe of a non-empty list. */
  function MetaOf(keyframes: seq<Keyframe>, field: string): FieldMeta
    requires |keyframes| > 0 && HasField(keyframes, field)
  {
    var vs := FieldValues(keyframes, field);
    FieldMeta(SeqMax(vs), SeqMin(vs), SeqMax(vs) == SeqMin(vs))
  }

  /** A field is flat exactly when all keyframes give it the same value. */
  lemma IsFlatIffConstant(keyframes: seq<Keyframe>, field: string)
    requires |keyframes| > 0 && HasField(keyframes, field)
    ensures MetaOf(keyframes, field).isFlat <==>
      forall j, k :: 0 <= j < |keyframes| && 0 <= k < |keyframes| ==>
        keyframes[j].values[field] == keyframes[k].values[field]
  {
    var vs := FieldValues(keyframes, field);
    FieldValuesAt(keyframes, field);
    var mx, mn := SeqMax(vs), SeqMin(vs);
    if forall j, k :: 0 <= j < |keyframes| && 0 <= k < |keyframes| ==>
         keyframes[j].values[field] == keyframes[k].values[field] {
      var a :| 0 <= a < |vs| && vs[a] == mx;
      var b :| 0 <= b < |vs| && vs[b] == mn;
      assert keyframes[a].values[field] == keyframes[b].values[field];
    }
  }

  // ---------------------------------------------------------------------
  // Failure conditions
  // ---------------------------------------------------------------------

  /** The first displayed field that some keyframe lacks. */
  function FirstMissing(keyframes: seq<Keyframe>, fields: seq<string>): (r: Option<string>)
    ensures r.Some? ==> r.value in fields && !HasField(keyframes, r.value)
  {
    if fields == [] then None
    else
      var last := fields[|fields| - 1];
      match FirstMissing(keyframes, fields[..|fields| - 1])
      case Some(f) => Some(f)
      case None => if HasField(keyframes, last) then None else Some(last)
  }

  /** No field is missing exactly when every displayed field is in every keyframe. */
  lemma {:induction false} FirstMissingNone(keyframes: seq<Keyframe>, fields: seq<string>)
    ensures FirstMissing(keyframes, fields).None? <==> forall f :: f in fields ==> HasField(keyframes, f)
  {
    if fields != [] {
      var init := fields[..|fields| - 1];
      FirstMissingNone(keyframes, init);
      assert fields == init + [fields[|fields| - 1]];
    }
  }

  lemma FirstMissingExtends(keyframes: seq<Keyframe>, fields: seq<string>, i: nat)
    requires i <= |fields| && FirstMissing(keyframes, fields[..i]).Some?
    ensures FirstMissing(keyframes, fields) == FirstMissing(keyframes, fields[..i])
    decreases |fields| - i
  {
    if i < |fields| {
      assert fields[..i + 1][..i] == fields[..i];
      FirstMissingExtends(keyframes, fields, i + 1);
    } else {
      assert fields[..i] == fields;
    }
  }

  lemma TakeSnoc(fields: seq<string>, i: nat)
    requires i < |fields|
    ensures fields[..i + 1] == fields[..i] + [fields[i]]
  {
  }

  /** One more field, present in every keyframe, keeps "none missing". */
  lemma FirstMissingStep(keyframes: seq<Keyframe>, fields: seq<string>, i: nat)
    requires i < |fields| && FirstMissing(keyframes, fields[..i]).None?
    ensures FirstMissing(keyframes, fields[..i + 1])
            == if HasField(keyframes, fields[i]) then None else Some(fields[i])
  {
    assert fields[..i + 1][..i] == fields[..i];
  }

  /** The first field missing from a keyframe is the one reported. */
  lemma FirstMissingAt(keyframes: seq<Keyframe>, fields: seq<string>, i: nat)
    requires i < |fields| && FirstMissing(keyframes, fields[..i]).None? && !HasField(keyframes, fields[i])
    ensures FirstMissing(keyframes, fields) == Some(fields[i])
  {
    FirstMissingStep(keyframes, fields, i);
    FirstMissingExtends(keyframes, fields, i + 1);
  }

  /** Which exception, if any, `parseq_to_deforum` raises on a document. */
  function RenderFailure(data: Parseq): Option<RenderError> {
    if |data.displayFields| > 0 && |data.keyframes| == 0 then Some(EmptyMax)
    else match FirstMissing(data.keyframes, data.displayFields)
      case Some(f) => Some(MissingKey(f))
      case None => if |data.keyframes| == 0 then Some(NoLastKeyframe) else None
  }

  // ---------------------------------------------------------------------
  // Deltas and percentages
  // ---------------------------------------------------------------------

  /** `frame[field] - prev_frame[field]`, the previous frame of frame 0 being all zeros. */
  function Delta(keyframes: seq<Keyframe>, i: nat, field: string): real
    requires i < |keyframes| && HasField(keyframes, field)
  {
    keyframes[i].values[field] - (if i == 0 then 0.0 else keyframes[i - 1].values[field])
  }

  /** `0 if max_val == 0 else 100 * (v / max_val)`. */
  function Pc(v: real, maxVal: real): real {
    if maxVal == 0.0 then 0.0 else 100.0 * (v / maxVal)
  }

  function DeltaSum(keyframes: seq<Keyframe>, i: nat, field: string): real
    requires i < |keyframes| && HasField(keyframes, field)
  {
    if i == 0 then Delta(keyframes, 0, field) else DeltaSum(keyframes, i - 1, field) + Delta(keyframes, i, field)
  }

  /** The deltas telescope: their prefix sum up to frame i is the value at i. */
  lemma {:induction false} DeltasTelescope(keyframes: seq<Keyframe>, i: nat, field: string)
    requires i < |keyframes| && HasField(keyframes, field)
    ensures DeltaSum(keyframes, i, field) == keyframes[i].values[field]
  {
    if i > 0 {
      DeltasTelescope(keyframes, i - 1, field);
    }
  }

  /** With a positive maximum, a nonnegative value at most the maximum has a
      percentage in [0, 100], and the maximum itself is 100. */
  lemma PcRange(v: real, maxVal: real)
    requires 0.0 < maxVal && 0.0 <= v <= maxVal
    ensures 0.0 <= Pc(v, maxVal) <= 100.0
    ensures Pc(maxVal, maxVal) == 100.0
  {
    assert v / maxVal <= 1.0;
    assert maxVal / maxVal == 1.0;
  }

  // ---------------------------------------------------------------------
  // parseq_to_deforum
  // ---------------------------------------------------------------------

  /** Every displayed field has metadata and is in every keyframe. */
  predicate FieldsReady(keyframes: seq<Keyframe>, fields: seq<string>, meta: map<string, FieldMeta>) {
    forall f :: f in fields ==> f in meta && HasField(keyframes, f)
  }

  /** Entry i of "rendered_frames", as the loop body builds it. */
  predicate RenderedAt(rf: RenderedFrame, keyframes: seq<Keyframe>, i: nat, fields: seq<string>,
                       meta: map<string, FieldMeta>, prompt: string)
    requires i < |keyframes|
    requires FieldsReady(keyframes, fields, meta)
  {
    && rf.frame == keyframes[i].frame
    && rf.deforumPrompt == prompt
    && rf.values.Keys == rf.deltas.Keys == rf.pcs.Keys == (set f | f in fields)
    && forall f :: f in fields ==>
         assert HasField(keyframes, f);
         && rf.values[f] == keyframes[i].values[f]
         && rf.deltas[f] == Delta(keyframes, i, f)
         && rf.pcs[f] == Pc(keyframes[i].values[f], meta[f].max)
  }

  /** The body of the "rendered_frames" loop for keyframe i. */
  method RenderFrame(keyframes: seq<Keyframe>, i: nat, fields: seq<string>,
                     meta: map<string, FieldMeta>, prompt: string) returns (rf: RenderedFrame)
    requires i < |keyframes|
    requires FieldsReady(keyframes, fields, meta)
    ensures RenderedAt(rf, keyframes, i, fields, meta, prompt)
  {
    var frame := keyframes[i];
    var values: map<string, real> := map[];
    var deltas: map<string, real> := map[];
    var pcs: map<string, real> := map[];
    var j := 0;
    while j < |fields|
      invariant 0 <= j <= |fields|
      invariant values.Keys == deltas.Keys == pcs.Keys == (set f | f in fields[..j])
      invariant forall f :: f in fields[..j] ==>
         assert f in fields && HasField(keyframes, f);
         && values[f] == frame.values[f]
         && deltas[f] == Delta(keyframes, i, f)
         && pcs[f] == Pc(frame.values[f], meta[f].max)
    {
      var field := fields[j];
      assert field in fields;
      var prev := if i > 0 then keyframes[i - 1].values[field] else 0.0;
      var delta := frame.values[field] - prev;
      var maxVal := meta[field].max;
      var pc := if maxVal == 0.0 then 0.0 else 100.0 * (frame.values[field] / maxVal);
      values := values[field := frame.values[field]];
      deltas := deltas[field := delta];
      pcs := pcs[field := pc];
      assert fields[..j + 1] == fields[..j] + [field];
      j := j + 1;
    }
    assert fields[..j] == fields;
    rf := RenderedFrame(frame.frame, prompt, values, deltas, pcs);
  }

  /** One entry of "rendered_frames_meta". */
  method MetaEntry(keyframes: seq<Keyframe>, field: string) returns (r: Result<FieldMeta, RenderError>)
    ensures r.Ok? <==> |keyframes| > 0 && HasField(keyframes, field)
    ensures r.Err? ==> r.error == (if HasField(keyframes, field) then EmptyMax else MissingKey(field))
    ensures r.Ok? ==> r.value == MetaOf(keyframes, field)
  {
    var mm := GetMaxMinValues(keyframes, field);
    if mm.Err? { return Err(mm.error); }
    var (maxVal, minVal) := mm.value;
    return Ok(FieldMeta(maxVal, minVal, maxVal == minVal));
  }

  /** "rendered_frames_meta" holds exactly the given fields, each with the
      max, min and flatness of its values. */
  predicate MetaFor(meta: map<string, FieldMeta>, keyframes: seq<Keyframe>, fields: seq<string>) {
    && meta.Keys == (set f | f in fields)
    && forall f :: f in meta ==> |keyframes| > 0 && HasField(keyframes, f) && meta[f] == MetaOf(keyframes, f)
  }

  lemma MetaForSnoc(meta: map<string, FieldMeta>, keyframes: seq<Keyframe>, fields: seq<string>, i: nat)
    requires i < |fields| && |keyframes| > 0 && HasField(keyframes, fields[i])
    requires MetaFor(meta, keyframes, fields[..i])
    ensures MetaFor(meta[fields[i] := MetaOf(keyframes, fields[i])], keyframes, fields[..i + 1])
  {
    TakeSnoc(fields, i);
  }

  /** The "rendered_frames_meta" loop: every displayed field's max, min and
      flatness, or the failure of the first field that is missing. */
  method BuildMeta(keyframes: seq<Keyframe>, fields: seq<string>) returns (r: Result<map<string, FieldMeta>, RenderError>)
    ensures r.Err? <==> (|fields| > 0 && |keyframes| == 0) || FirstMissing(keyframes, fields).Some?
    ensures r.Err? ==> r.error == (if |keyframes| == 0 then EmptyMax else MissingKey(FirstMissing(keyframes, fields).value))
    ensures r.Ok? ==> MetaFor(r.value, keyframes, fields)
  {
    var meta: map<string, FieldMeta> := map[];
    var i := 0;
    while i < |fields|
      invariant 0 <= i <= |fields|
      invariant FirstMissing(keyframes, fields[..i]).None?
      invariant i > 0 ==> |keyframes| > 0
      invariant MetaFor(meta, keyframes, fields[..i])
    {
      var field := fields[i];
      FirstMissingStep(keyframes, fields, i);
      var entry := MetaEntry(keyframes, field);
      if entry.Err? {
        if |keyframes| == 0 {
          return Err(EmptyMax);
        }
        FirstMissingAt(keyframes, fields, i);
        return Err(MissingKey(field));
      }
      MetaForSnoc(meta, keyframes, fields, i);
      meta := meta[field := entry.value];
      i := i + 1;
    }
    assert fields[..i] == fields;
    return Ok(meta);
  }

  /** The "rendered_frames" loop: one record per keyframe, in order. */
  method BuildFrames(keyframes: seq<Keyframe>, fields: seq<string>, meta: map<string, FieldMeta>, prompt: string)
    returns (renderedFrames: seq<RenderedFrame>)
    requires FieldsReady(keyframes, fields, meta)
    ensures |renderedFrames| == |keyframes|
    ensures forall k :: 0 <= k < |keyframes| ==> RenderedAt(renderedFrames[k], keyframes, k, fields, meta, prompt)
  {
    renderedFrames := [];
    var i := 0;
    while i < |keyframes|
      invariant 0 <= i <= |keyframes|
      invariant |renderedFrames| == i
      invariant forall k :: 0 <= k < i ==> RenderedAt(renderedFrames[k], keyframes, k, fields, meta, prompt)
    {
      var rf := RenderFrame(keyframes, i, fields, meta, prompt);
      renderedFrames := renderedFrames + [rf];
      i := i + 1;
    }
  }

  /** `parseq_to_deforum` on a loaded document. */
  method ParseqToDeforum(data: Parseq) returns (r: Result<Rendered, RenderError>)
    ensures r.Err? <==> RenderFailure(data).Some?
    ensures r.Err? ==> r.error == RenderFailure(data).value
    ensures r.Ok? ==> var out := r.value;
      var kfs := data.keyframes;
      && |kfs| > 0
      && out.generatedBy == "sd_parseq" && out.version == "0.1.112"
      && out.format == "v2" && out.enabled && out.commonPromptPos == "append"
      && out.commonPrompt == PromptSpan("Common", "", "", true, 0, kfs[|kfs| - 1].frame, Overlap)
      && out.promptList == [PromptSpan("Prompt 1", data.positive, data.negative, true, 0, kfs[|kfs| - 1].frame, Overlap)]
      && out.timeSeries == [] && out.keyframeLock == "frames" && !out.reverseRender
      && out.options == data.options["cadence" := JInt(1)]
      && out.managedFields == data.displayFields && out.displayedFields == data.displayFields
      && out.keyframes == kfs
      && out.renderedFramesMeta.Keys == (set f | f in data.displayFields)
      && (forall f :: f in out.renderedFramesMeta ==> HasField(kfs, f) && out.renderedFramesMeta[f] == MetaOf(kfs, f))
      && |out.renderedFrames| == |kfs|
      && forall i :: 0 <= i < |kfs| ==>
           RenderedAt(out.renderedFrames[i], kfs, i, data.displayFields, out.renderedFramesMeta,
                      DeforumPrompt(data.positive, data.negative))
  {
    var keyframes := data.keyframes;
    var fields := data.displayFields;
    var built := BuildMeta(keyframes, fields);
    if built.Err? { return Err(built.error); }
    var meta := built.value;
    assert forall f :: f in fields ==> f in meta;
    FirstMissingNone(keyframes, fields);
    var prompt := DeforumPrompt(data.positive, data.negative);
    var renderedFrames := BuildFrames(keyframes, fields, meta, prompt);
    if |keyframes| == 0 { return Err(NoLastKeyframe); }
    var last := keyframes[|keyframes| - 1].frame;
    var common := PromptSpan("Common", "", "", true, 0, last, Overlap);
    var first := PromptSpan("Prompt 1", data.positive, data.negative, true, 0, last, Overlap);
    return Ok(Rendered(
      "sd_parseq", "0.1.112", "v2", true, common, "append", [first],
      data.options["cadence" := JInt(1)], fields, fields, keyframes, [], "frames", false,
      renderedFrames, meta));
  }
}
