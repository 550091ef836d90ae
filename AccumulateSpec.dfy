/** The accumulating tracks (`set_rotation_frames`, `set_translation_z_frames`):
    each hit adds its increment to a running value five times, writing the
    running value into five consecutive frames, and a final pass fills every
    frame still at the base value with the value of the frame before it. */
module AccumulateSpec {
  import opened MidiEvents
  import opened TrackHits

  /** The array contents and the running accumulator. */
  datatype Acc = Acc(vals: seq<real>, cur: real)

  /** One hit as the accumulation sees it: its frame and its increment. */
  datatype Step = Step(frame: nat, inc: real)

  /** Number of frames each hit writes. */
  const RunLength: nat := 5

  /** How many of the frames f .. f+k-1 lie inside an array of n frames. */
  function InRange(f: nat, k: nat, n: nat): nat {
    if f + k <= n then k else if f < n then n - f else 0
  }

  /** The first k iterations of the per-hit loop: frame f+i (when inside the
      array) receives the accumulator after its i+1-th increment. */
  function Run(st: Acc, f: nat, inc: real, k: nat): (r: Acc)
    ensures |r.vals| == |st.vals|
  {
    if k == 0 then st
    else
      var p := Run(st, f, inc, k - 1);
      if f + (k - 1) < |p.vals| then Acc(p.vals[f + k - 1 := p.cur + inc], p.cur + inc) else p
  }

  /** Frame f+i of a run, inside the array, holds the accumulator after i+1
      increments, and the accumulator grows once per frame written. */
  lemma {:induction false} RunValues(st: Acc, f: nat, inc: real, k: nat)
    ensures var r := Run(st, f, inc, k);
      && (forall j :: f <= j < f + k && j < |st.vals| ==> r.vals[j] == st.cur + ((j - f + 1) as real) * inc)
      && r.cur == st.cur + (InRange(f, k, |st.vals|) as real) * inc
  {
    if k > 0 {
      RunValues(st, f, inc, k - 1);
      var p := Run(st, f, inc, k - 1);
      if f + (k - 1) < |st.vals| {
        assert InRange(f, k - 1, |st.vals|) == k - 1 && InRange(f, k, |st.vals|) == k;
        assert ((k - 1) as real) * inc + inc == (k as real) * inc;
      } else {
        assert InRange(f, k, |st.vals|) == InRange(f, k - 1, |st.vals|);
      }
    }
  }

  /** The first pass over all hits, in order. */
  function Accumulate(st: Acc, steps: seq<Step>): (r: Acc)
    ensures |r.vals| == |st.vals|
  {
    if steps == [] then st
    else
      var last := steps[|steps| - 1];
      Run(Accumulate(st, steps[..|steps| - 1]), last.frame, last.inc, RunLength)
  }

  /** A frame that no hit's run covers keeps its value through the first pass. */
  lemma {:induction false} AccumulateUntouched(st: Acc, steps: seq<Step>, j: nat)
    requires j < |st.vals|
    requires forall s :: s in steps ==> !(s.frame <= j < s.frame + RunLength)
    ensures Accumulate(st, steps).vals[j] == st.vals[j]
  {
    if steps != [] {
      var prefix := steps[..|steps| - 1];
      assert forall s :: s in prefix ==> s in steps;
      AccumulateUntouched(st, prefix, j);
      var last := steps[|steps| - 1];
      assert last in steps;
      RunFrame(Accumulate(st, prefix), last.frame, last.inc, RunLength, j);
    }
  }

  /** The fill loop after iterations i = 1 .. k-1: a frame still at the base
      value takes the (already filled) value of the frame before it. */
  function FillUpTo(a: seq<real>, base: real, k: nat): (r: seq<real>)
    requires k <= |a|
    ensures |r| == |a|
    ensures forall j :: k <= j < |a| ==> r[j] == a[j]
    ensures forall j :: 0 <= j < |a| && a[j] != base ==> r[j] == a[j]
    ensures forall j :: 1 <= j < k && a[j] == base ==> r[j] == r[j - 1]
    ensures |a| > 0 ==> r[0] == a[0]
  {
    if k <= 1 then a
    else
      var b := FillUpTo(a, base, k - 1);
      if b[k - 1] == base then b[k - 1 := b[k - 2]] else b
  }

  /** The whole fill loop: frames off the base keep their value, and each
      frame at the base takes the filled value of the frame before it. */
  function Fill(a: seq<real>, base: real): (r: seq<real>)
    ensures |r| == |a|
    ensures forall j :: 0 <= j < |a| && a[j] != base ==> r[j] == a[j]
    ensures forall j :: 1 <= j < |a| && a[j] == base ==> r[j] == r[j - 1]
    ensures |a| > 0 ==> r[0] == a[0]
  {
    FillUpTo(a, base, |a|)
  }

  /** Rotation increments: the velocity mapped onto [0, 1]. */
  function RotationIncrement(velocity: Byte7): (inc: real)
    requires ValidVelocity(velocity)
    ensures 0.0 <= inc <= 1.0
  {
    MapVelocityToRange(velocity, 0.0, 1.0).value
  }

  /** One step per hit, at the hit's frame, with an increment in [0, 1]. */
  function RotationSteps(hs: seq<Hit>): (ss: seq<Step>)
    requires AllValid(hs)
    ensures |ss| == |hs|
  {
    seq(|hs|, i requires 0 <= i < |hs| => (assert hs[i] in hs; Step(hs[i].frame, RotationIncrement(hs[i].velocity))))
  }

  /** Each rotation step starts at its hit's frame and adds between 0 and 1. */
  lemma RotationStepsAt(hs: seq<Hit>)
    requires AllValid(hs)
    ensures forall i :: 0 <= i < |hs| ==> RotationSteps(hs)[i].frame == hs[i].frame && 0.0 <= RotationSteps(hs)[i].inc <= 1.0
  {
    forall i | 0 <= i < |hs|
      ensures 0.0 <= RotationSteps(hs)[i].inc <= 1.0
    {
      assert hs[i] in hs;
    }
  }

  /** Translation increments: velocity / 5, so within [0, 25.4]. */
  function TranslationSteps(hs: seq<Hit>): (ss: seq<Step>)
    ensures |ss| == |hs|
  {
    seq(|hs|, i requires 0 <= i < |hs| => Step(hs[i].frame, hs[i].velocity as real / 5.0))
  }

  /** Each translation step starts at its hit's frame and adds between 0 and 25.4. */
  lemma TranslationStepsAt(hs: seq<Hit>)
    ensures forall i :: 0 <= i < |hs| ==> TranslationSteps(hs)[i].frame == hs[i].frame && 0.0 <= TranslationSteps(hs)[i].inc <= 25.4
  {
  }

  /** What `set_rotation_frames` leaves in an array holding `a`. */
  function RotationFrames(a: seq<real>, frameEvents: seq<seq<Msg>>, note: int): seq<real>
    requires AllValid(Hits(frameEvents, note))
  {
    Fill(Accumulate(Acc(a, 0.0), RotationSteps(Hits(frameEvents, note))).vals, 0.0)
  }

  /** What `set_translation_z_frames` leaves in an array holding `a`. */
  function TranslationZFrames(a: seq<real>, frameEvents: seq<seq<Msg>>, note: int): seq<real>
  {
    Fill(Accumulate(Acc(a, 1.0), TranslationSteps(Hits(frameEvents, note))).vals, 1.0)
  }

  // ---------------------------------------------------------------------
  // Monotonicity of the accumulating tracks

  predicate Nondecreasing(s: seq<real>) {
    forall i, j :: 0 <= i < j < |s| ==> s[i] <= s[j]
  }

  predicate AllAtLeast(s: seq<real>, base: real) {
    forall i :: 0 <= i < |s| ==> base <= s[i]
  }

  /** Every value above the base is at least every value before it. */
  predicate RisingAboveBase(s: seq<real>, base: real) {
    forall j, k :: 0 <= j < k < |s| && s[k] != base ==> s[j] <= s[k]
  }

  /** The state of the first pass between writes: values lie between the
      base and the accumulator; frames in [lo, hi) may still be stale (about
      to be overwritten by the current hit); every other value above the base
      is at least everything before it; frames from max(lo, hi) on are untouched. */
  ghost predicate Inv(st: Acc, base: real, lo: int, hi: int) {
    && base <= st.cur
    && (forall j :: 0 <= j < |st.vals| ==> base <= st.vals[j] <= st.cur)
    && (forall j, k :: 0 <= j < k < |st.vals| && st.vals[k] != base && !(lo <= k < hi) ==> st.vals[j] <= st.vals[k])
    && (forall j :: 0 <= j < |st.vals| && lo <= j && hi <= j ==> st.vals[j] == base)
  }

  lemma {:induction false} RunInv(st: Acc, base: real, f: nat, inc: real, hi: int, k: nat)
    requires Inv(st, base, f, hi) && 0.0 <= inc
    ensures Inv(Run(st, f, inc, k), base, f + k, hi)
    ensures Run(st, f, inc, k).cur >= st.cur
  {
    if k > 0 {
      RunInv(st, base, f, inc, hi, k - 1);
    }
  }

  function Bound(steps: seq<Step>): int {
    if steps == [] then 0 else steps[|steps| - 1].frame + RunLength
  }

  predicate SortedSteps(ss: seq<Step>) {
    forall i, j :: 0 <= i < j < |ss| ==> ss[i].frame <= ss[j].frame
  }

  lemma {:induction false} AccumulateInv(st: Acc, base: real, steps: seq<Step>)
    requires st.cur == base && forall j :: 0 <= j < |st.vals| ==> st.vals[j] == base
    requires SortedSteps(steps)
    requires forall i :: 0 <= i < |steps| ==> 0.0 <= steps[i].inc
    ensures Inv(Accumulate(st, steps), base, Bound(steps), Bound(steps))
  {
    if steps != [] {
      var n := |steps| - 1;
      var prefix := steps[..n];
      var last := steps[n];
      AccumulateInv(st, base, prefix);
      var p := Accumulate(st, prefix);
      var b := Bound(prefix);
      assert b <= last.frame + RunLength by {
        if prefix != [] { assert prefix[|prefix| - 1] == steps[n - 1]; }
      }
      assert Inv(p, base, last.frame, b);
      RunInv(p, base, last.frame, last.inc, b, RunLength);
    }
  }

  lemma {:induction false} FillUpToInv(a: seq<real>, base: real, k: nat)
    requires 1 <= k <= |a|
    requires AllAtLeast(a, base) && RisingAboveBase(a, base)
    ensures var r := FillUpTo(a, base, k);
      && (forall j :: k <= j < |a| ==> r[j] == a[j])
      && (forall i, j :: 0 <= i < j < k ==> r[i] <= r[j])
      && (forall j :: 0 <= j < k ==> base <= r[j])
      && (forall j :: k <= j < |a| && a[j] != base ==> r[k - 1] <= a[j])
  {
    if k > 1 {
      FillUpToInv(a, base, k - 1);
      var b := FillUpTo(a, base, k - 1);
      var r := FillUpTo(a, base, k);
      assert b[k - 1] == a[k - 1];
      if a[k - 1] == base {
        assert r == b[k - 1 := b[k - 2]];
        assert r[k - 1] == b[k - 2];
      } else {
        assert r == b;
        assert b[k - 2] <= a[k - 1];
      }
      assert forall j :: 0 <= j < k - 1 ==> r[j] == b[j];
    }
  }

  /** The fill pass turns a first-pass result into a nondecreasing track
      that never drops below the base. */
  lemma FillNondecreasing(a: seq<real>, base: real)
    requires AllAtLeast(a, base) && RisingAboveBase(a, base)
    ensures Nondecreasing(Fill(a, base)) && AllAtLeast(Fill(a, base), base)
  {
    if |a| > 0 {
      FillUpToInv(a, base, |a|);
      assert Fill(a, base) == FillUpTo(a, base, |a|);
    }
  }

  /** Starting from the base everywhere, with hits in frame order and
      nonnegative increments, the result is nondecreasing and at least the base. */
  lemma AccumulateFillNondecreasing(a: seq<real>, base: real, steps: seq<Step>)
    requires forall j :: 0 <= j < |a| ==> a[j] == base
    requires SortedSteps(steps)
    requires forall i :: 0 <= i < |steps| ==> 0.0 <= steps[i].inc
    ensures var r := Fill(Accumulate(Acc(a, base), steps).vals, base);
            |r| == |a| && Nondecreasing(r) && AllAtLeast(r, base)
  {
    AccumulateInv(Acc(a, base), base, steps);
    FillNondecreasing(Accumulate(Acc(a, base), steps).vals, base);
  }

  /** `set_rotation_frames` on an all-zero array yields the "continuous
      increasing function" its comment promises: nondecreasing and never negative. */
  lemma RotationNondecreasing(a: seq<real>, frameEvents: seq<seq<Msg>>, note: int)
    requires forall j :: 0 <= j < |a| ==> a[j] == 0.0
    requires AllValid(Hits(frameEvents, note))
    ensures var r := RotationFrames(a, frameEvents, note);
            |r| == |a| && Nondecreasing(r) && AllAtLeast(r, 0.0)
  {
    var hs := Hits(frameEvents, note);
    HitsSorted(frameEvents, note);
    RotationStepsAt(hs);
    AccumulateFillNondecreasing(a, 0.0, RotationSteps(hs));
  }

  /** `set_translation_z_frames` on an all-1.0 array yields a nondecreasing
      track that is at least 1.0 everywhere. */
  lemma TranslationZNondecreasing(a: seq<real>, frameEvents: seq<seq<Msg>>, note: int)
    requires forall j :: 0 <= j < |a| ==> a[j] == 1.0
    ensures var r := TranslationZFrames(a, frameEvents, note);
            |r| == |a| && Nondecreasing(r) && AllAtLeast(r, 1.0)
  {
    HitsSorted(frameEvents, note);
    TranslationStepsAt(Hits(frameEvents, note));
    AccumulateFillNondecreasing(a, 1.0, TranslationSteps(Hits(frameEvents, note)));
  }

  /** A run writes only frames f .. f+k-1 of the array. */
  lemma {:induction false} RunFrame(st: Acc, f: nat, inc: real, k: nat, j: nat)
    requires j < |st.vals| && !(f <= j < f + k)
    ensures Run(st, f, inc, k).vals[j] == st.vals[j]
  {
    if k > 0 {
      RunFrame(st, f, inc, k - 1, j);
    }
  }
}
