/** The rotation-z track (`set_rotation_z_frames`): every hit sets the ten
    frames from its own to the velocity mapped onto [0, 10]; a second pass
    sets the frame ten after every hit back to 0. */
module RotationZSpec {
  import opened Wrappers
  import opened MidiEvents
  import opened TrackHits

  /** Number of frames each hit sets, and the distance to its reset frame. */
  const WindowLength: nat := 10

  function ZValue(velocity: Byte7): (v: real)
    requires ValidVelocity(velocity)
    ensures 0.0 <= v <= 10.0
  {
    MapVelocityToRange(velocity, 0.0, 10.0).value
  }

  /** The first k iterations of the per-hit loop: frame f+i, when inside
      the array, is set to `val`. */
  function Window(a: seq<real>, f: nat, val: real, k: nat): (r: seq<real>)
    ensures |r| == |a|
  {
    if k == 0 then a
    else
      var p := Window(a, f, val, k - 1);
      if f + (k - 1) < |p| then p[f + k - 1 := val] else p
  }

  /** The first pass over all hits, in order. */
  function SetPass(a: seq<real>, hs: seq<Hit>): (r: seq<real>)
    requires AllValid(hs)
    ensures |r| == |a|
  {
    if hs == [] then a
    else
      var last := hs[|hs| - 1];
      assert last in hs;
      Window(SetPass(a, hs[..|hs| - 1]), last.frame, ZValue(last.velocity), WindowLength)
  }

  /** The second pass over all hits, in order. */
  function ResetPass(a: seq<real>, hs: seq<Hit>): (r: seq<real>)
    ensures |r| == |a|
  {
    if hs == [] then a
    else
      var p := ResetPass(a, hs[..|hs| - 1]);
      var reset := hs[|hs| - 1].frame + WindowLength;
      if reset < |p| then p[reset := 0.0] else p
  }

  /** What `set_rotation_z_frames` leaves in an array holding `a`. */
  function RotationZFrames(a: seq<real>, frameEvents: seq<seq<Msg>>, note: int): seq<real>
    requires AllValid(Hits(frameEvents, note))
  {
    var hs := Hits(frameEvents, note);
    ResetPass(SetPass(a, hs), hs)
  }

  // ---------------------------------------------------------------------
  // Frame-by-frame description

  predicate Covers(h: Hit, j: int) { h.frame <= j < h.frame + WindowLength }

  /** The value set by the last hit whose window covers frame j, if any. */
  function LastCover(hs: seq<Hit>, j: int): Option<real>
    requires AllValid(hs)
  {
    if hs == [] then None
    else
      var last := hs[|hs| - 1];
      assert last in hs;
      if Covers(last, j) then Some(ZValue(last.velocity)) else LastCover(hs[..|hs| - 1], j)
  }

  /** Frame j is the reset frame of some hit. */
  predicate IsReset(hs: seq<Hit>, j: int) {
    exists h :: h in hs && h.frame + WindowLength == j
  }

  lemma {:induction false} WindowAt(a: seq<real>, f: nat, val: real, k: nat, j: nat)
    requires j < |a|
    ensures Window(a, f, val, k)[j] == if f <= j < f + k then val else a[j]
  {
    if k > 0 {
      WindowAt(a, f, val, k - 1, j);
    }
  }

  lemma {:induction false} SetPassAt(a: seq<real>, hs: seq<Hit>, j: nat)
    requires AllValid(hs) && j < |a|
    ensures SetPass(a, hs)[j] == match LastCover(hs, j) case Some(v) => v case None => a[j]
  {
    if hs != [] {
      var n := |hs| - 1;
      assert hs[n] in hs;
      SetPassAt(a, hs[..n], j);
      WindowAt(SetPass(a, hs[..n]), hs[n].frame, ZValue(hs[n].velocity), WindowLength, j);
    }
  }

  lemma {:induction false} ResetPassAt(a: seq<real>, hs: seq<Hit>, j: nat)
    requires j < |a|
    ensures ResetPass(a, hs)[j] == if IsReset(hs, j) then 0.0 else a[j]
  {
    if hs != [] {
      var n := |hs| - 1;
      ResetPassAt(a, hs[..n], j);
      assert hs == hs[..n] + [hs[n]];
      if IsReset(hs, j) && !IsReset(hs[..n], j) {
        var h :| h in hs && h.frame + WindowLength == j;
        assert h == hs[n];
      }
    }
  }

  /** Frame j of the result: 0 if it is some hit's reset frame, otherwise the
      value of the last hit covering it, otherwise what it held before. */
  lemma RotationZAt(a: seq<real>, frameEvents: seq<seq<Msg>>, note: int, j: nat)
    requires AllValid(Hits(frameEvents, note)) && j < |a|
    ensures var hs := Hits(frameEvents, note);
      RotationZFrames(a, frameEvents, note)[j]
        == if IsReset(hs, j) then 0.0
           else match LastCover(hs, j) case Some(v) => v case None => a[j]
  {
    var hs := Hits(frameEvents, note);
    SetPassAt(a, hs, j);
    ResetPassAt(SetPass(a, hs), hs, j);
  }

  lemma {:induction false} LastCoverRange(hs: seq<Hit>, j: int)
    requires AllValid(hs)
    ensures LastCover(hs, j).Some? ==> 0.0 <= LastCover(hs, j).value <= 10.0
  {
    if hs != [] {
      assert hs[|hs| - 1] in hs;
      LastCoverRange(hs[..|hs| - 1], j);
    }
  }

  lemma {:induction false} LastCoverNone(hs: seq<Hit>, j: int)
    requires AllValid(hs)
    ensures LastCover(hs, j).None? <==> forall h :: h in hs ==> !Covers(h, j)
  {
    if hs != [] {
      var n := |hs| - 1;
      assert hs[n] in hs;
      LastCoverNone(hs[..n], j);
      assert hs == hs[..n] + [hs[n]];
    }
  }

  /** Starting from values in [0, 10] (the caller starts from zeros), every
      frame of the result lies in [0, 10]. */
  lemma RotationZRange(a: seq<real>, frameEvents: seq<seq<Msg>>, note: int)
    requires AllValid(Hits(frameEvents, note))
    requires forall j :: 0 <= j < |a| ==> 0.0 <= a[j] <= 10.0
    ensures var r := RotationZFrames(a, frameEvents, note);
            |r| == |a| && forall j :: 0 <= j < |r| ==> 0.0 <= r[j] <= 10.0
  {
    forall j | 0 <= j < |a|
      ensures 0.0 <= RotationZFrames(a, frameEvents, note)[j] <= 10.0
    {
      RotationZAt(a, frameEvents, note, j);
      LastCoverRange(Hits(frameEvents, note), j);
    }
  }

  /** The frame ten after every hit ends at 0, whatever later hits set. */
  lemma RotationZReset(a: seq<real>, frameEvents: seq<seq<Msg>>, note: int, h: Hit)
    requires AllValid(Hits(frameEvents, note))
    requires h in Hits(frameEvents, note) && h.frame + WindowLength < |a|
    ensures RotationZFrames(a, frameEvents, note)[h.frame + WindowLength] == 0.0
  {
    RotationZAt(a, frameEvents, note, h.frame + WindowLength);
  }

  /** A frame no hit's window or reset reaches keeps its value. */
  lemma RotationZUntouched(a: seq<real>, frameEvents: seq<seq<Msg>>, note: int, j: nat)
    requires AllValid(Hits(frameEvents, note)) && j < |a|
    requires forall h :: h in Hits(frameEvents, note) ==> !Covers(h, j) && h.frame + WindowLength != j
    ensures RotationZFrames(a, frameEvents, note)[j] == a[j]
  {
    RotationZAt(a, frameEvents, note, j);
    LastCoverNone(Hits(frameEvents, note), j);
  }
}
