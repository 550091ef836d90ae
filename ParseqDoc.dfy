/** The documents passed between the stages: JSON values and the Parseq
    keyframe document that `midi_to_parseq_config` produces and
    `parseq_to_deforum` reads. */
module ParseqDoc {

  /** A JSON value as the `json` module loads it. */
  datatype Json =
    | JNull
    | JBool(b: bool)
    | JInt(i: int)
    | JReal(r: real)
    | JStr(s: string)
    | JArr(items: seq<Json>)
    | JObj(fields: map<string, Json>)

  /** One keyframe: its "frame" number and the values of the animated fields. */
  datatype Keyframe = Keyframe(frame: int, values: map<string, real>)

  /** The Parseq document: meta.docName, the two prompts, the options
      object, the displayed fields, the keyframes and "total_frames". */
  datatype Parseq = Parseq(
    docName: string,
    positive: string,
    negative: string,
    options: map<string, Json>,
    displayFields: seq<string>,
    keyframes: seq<Keyframe>,
    totalFrames: int)
}
