/** The strength track (`set_strength_frames`): every hit sets its own frame
    to the kick strength and the frame `int(kick_duration_seconds * fps)`
    later back to the default strength. */
module StrengthSpec {
  import opened Wrappers
  import opened MidiEvents
  import opened TrackHits

  /** Python's `int(x)`: truncation toward zero. */
  function Trunc(x: real): (n: int)
    ensures x >= 0.0 ==> 0 <= n && n as real <= x < n as real + 1.0
    ensures x < 0.0 ==> n <= 0 && n as real - 1.0 < x <= n as real
  {
    if x >= 0.0 then x.Floor else -((-x).Floor)
  }

  /** Distance from a kick to its reset frame: `kick_duration_seconds * fps`
      truncated toward zero. */
  function KickOffset(kickDurationSeconds: real, fps: nat): (k: int)
    ensures var x := kickDurationSeconds * fps as real;
      && (x >= 0.0 ==> 0 <= k && k as real <= x < k as real + 1.0)
      && (x < 0.0 ==> k <= 0 && k as real - 1.0 < x <= k as real)
  {
    Trunc(kickDurationSeconds * fps as real)
  }

  /** One list assignment `values[index] = value`. */
  datatype Write = Write(index: nat, value: real)

  /** The array position Python assigns for a reset index r < n: r itself,
      or n + r for a negative r; none (IndexError) below -n. */
  function ResetSlot(r: int, n: nat): Option<nat>
    requires r < n
  {
    if r >= 0 then Some(r) else if r >= -(n as int) then Some(n + r) else None
  }

  /** Python's index r into a list of n elements is position r mod n, and
      exists exactly when -n <= r. */
  lemma ResetSlotIndex(r: int, n: nat)
    requires r < n
    ensures ResetSlot(r, n).Some? <==> -(n as int) <= r
    ensures ResetSlot(r, n).Some? ==> n > 0 && ResetSlot(r, n).value < n && ResetSlot(r, n).value as int == r % n
  {
  }

  /** A hit can be processed without IndexError. */
  predicate HitInRange(h: Hit, n: nat, offset: int) {
    h.frame < n && (h.frame + offset < n ==> ResetSlot(h.frame + offset, n).Some?)
  }

  /** The assignments one hit makes, in order. */
  function HitWrites(h: Hit, n: nat, kick: real, default: real, offset: int): seq<Write>
    requires HitInRange(h, n, offset)
  {
    var r := h.frame + offset;
    [Write(h.frame, kick)] + (if r < n then [Write(ResetSlot(r, n).value, default)] else [])
  }

  /** All assignments of the loop, in order. */
  function StrengthWrites(hs: seq<Hit>, n: nat, kick: real, default: real, offset: int): seq<Write>
    requires forall h :: h in hs ==> HitInRange(h, n, offset)
  {
    if hs == [] then []
    else
      assert hs[|hs| - 1] in hs;
      StrengthWrites(hs[..|hs| - 1], n, kick, default, offset) + HitWrites(hs[|hs| - 1], n, kick, default, offset)
  }

  /** The loop over hits on list contents `a`; fails with IndexError on the
      first hit whose frame or reset frame lies outside the list. */
  function StrengthPass(a: seq<real>, hs: seq<Hit>, kick: real, default: real, offset: int): (r: Result<seq<real>, TrackError>)
    ensures r.Ok? ==> |r.value| == |a|
    ensures r.Err? ==> r.error == IndexOutOfRange
  {
    if hs == [] then Ok(a)
    else
      match StrengthPass(a, hs[..|hs| - 1], kick, default, offset)
      case Err(e) => Err(e)
      case Ok(p) =>
        var h := hs[|hs| - 1];
        var n := |p|;
        var reset := h.frame + offset;
        if h.frame >= n then Err(IndexOutOfRange)
        else if reset >= n then Ok(p[h.frame := kick])
        else match ResetSlot(reset, n)
          case None => Err(IndexOutOfRange)
          case Some(slot) => Ok(p[h.frame := kick][slot := default])
  }

  /** What `set_strength_frames` does to an array holding `a`. */
  function StrengthFrames(a: seq<real>, frameEvents: seq<seq<Msg>>, fps: nat, note: int,
                          kick: real, default: real, kickDurationSeconds: real): Result<seq<real>, TrackError>
  {
    StrengthPass(a, Hits(frameEvents, note), kick, default, KickOffset(kickDurationSeconds, fps))
  }

  /** The value of the last assignment to position j, if any. */
  function LastWrite(ws: seq<Write>, j: int): Option<real> {
    if ws == [] then None
    else if ws[|ws| - 1].index == j then Some(ws[|ws| - 1].value)
    else LastWrite(ws[..|ws| - 1], j)
  }

  lemma {:induction false} LastWriteAppend(ws: seq<Write>, vs: seq<Write>, j: int)
    ensures LastWrite(ws + vs, j) == if LastWrite(vs, j).Some? then LastWrite(vs, j) else LastWrite(ws, j)
    decreases |vs|
  {
    if vs == [] {
      assert ws + vs == ws;
    } else {
      var n := |vs| - 1;
      assert (ws + vs)[..|ws + vs| - 1] == ws + vs[..n];
      LastWriteAppend(ws, vs[..n], j);
    }
  }

  /** The loop fails exactly when some hit is out of range. */
  lemma {:induction false} StrengthPassOk(a: seq<real>, hs: seq<Hit>, kick: real, default: real, offset: int)
    ensures StrengthPass(a, hs, kick, default, offset).Ok? <==> forall h :: h in hs ==> HitInRange(h, |a|, offset)
  {
    if hs != [] {
      var n := |hs| - 1;
      StrengthPassOk(a, hs[..n], kick, default, offset);
      assert hs == hs[..n] + [hs[n]];
      var prev := StrengthPass(a, hs[..n], kick, default, offset);
      if prev.Ok? {
        assert |prev.value| == |a|;
        assert StrengthPass(a, hs, kick, default, offset).Ok? <==> HitInRange(hs[n], |a|, offset);
      } else {
        var g :| g in hs[..n] && !HitInRange(g, |a|, offset);
        assert g in hs;
      }
    }
  }

  /** Position j ends with the value of the last assignment to it — later
      writes win — and keeps its old value when nothing is assigned to it. */
  lemma {:induction false} StrengthPassAt(a: seq<real>, hs: seq<Hit>, kick: real, default: real, offset: int, j: nat)
    requires forall h :: h in hs ==> HitInRange(h, |a|, offset)
    requires j < |a|
    ensures StrengthPass(a, hs, kick, default, offset).Ok?
    ensures StrengthPass(a, hs, kick, default, offset).value[j]
              == match LastWrite(StrengthWrites(hs, |a|, kick, default, offset), j) case Some(v) => v case None => a[j]
  {
    StrengthPassOk(a, hs, kick, default, offset);
    if hs != [] {
      var n := |hs| - 1;
      var h := hs[n];
      assert h in hs;
      StrengthPassAt(a, hs[..n], kick, default, offset, j);
      StrengthPassOk(a, hs[..n], kick, default, offset);
      LastWriteAppend(StrengthWrites(hs[..n], |a|, kick, default, offset), HitWrites(h, |a|, kick, default, offset), j);
      var ws := HitWrites(h, |a|, kick, default, offset);
      if h.frame + offset < |a| {
        var slot := ResetSlot(h.frame + offset, |a|).value;
        assert ws == [Write(h.frame, kick), Write(slot, default)];
        assert ws[..1] == [Write(h.frame, kick)];
        assert ws[..1][..0] == [];
        assert LastWrite(ws[..1], j) == if h.frame == j then Some(kick) else None;
        assert LastWrite(ws, j) == if slot == j then Some(default) else if h.frame == j then Some(kick) else None;
      } else {
        assert ws == [Write(h.frame, kick)];
      }
    }
  }

  /** A position that is neither a kick frame nor a reset position keeps its value. */
  lemma StrengthUntouched(a: seq<real>, hs: seq<Hit>, kick: real, default: real, offset: int, j: nat)
    requires forall h :: h in hs ==> HitInRange(h, |a|, offset)
    requires j < |a|
    requires forall w :: w in StrengthWrites(hs, |a|, kick, default, offset) ==> w.index != j
    ensures StrengthPass(a, hs, kick, default, offset).Ok?
    ensures StrengthPass(a, hs, kick, default, offset).value[j] == a[j]
  {
    StrengthPassAt(a, hs, kick, default, offset, j);
    LastWriteNone(StrengthWrites(hs, |a|, kick, default, offset), j);
  }

  lemma {:induction false} LastWriteNone(ws: seq<Write>, j: int)
    ensures LastWrite(ws, j).None? <==> forall w :: w in ws ==> w.index != j
  {
    if ws != [] {
      var n := |ws| - 1;
      LastWriteNone(ws[..n], j);
      assert ws == ws[..n] + [ws[n]];
    }
  }

  /** Every assignment is to a kick frame (with the kick strength) or to
      the reset position of a kick (with the default strength). */
  lemma {:induction false} StrengthWritesShape(hs: seq<Hit>, n: nat, kick: real, default: real, offset: int, w: Write)
    requires forall h :: h in hs ==> HitInRange(h, n, offset)
    requires w in StrengthWrites(hs, n, kick, default, offset)
    ensures exists h :: h in hs && (w == Write(h.frame, kick) ||
              (h.frame + offset < n && w == Write(ResetSlot(h.frame + offset, n).value, default)))
  {
    var k := |hs| - 1;
    var h := hs[k];
    assert h in hs;
    if w in StrengthWrites(hs[..k], n, kick, default, offset) {
      StrengthWritesShape(hs[..k], n, kick, default, offset, w);
      var g :| g in hs[..k] && (w == Write(g.frame, kick) ||
              (g.frame + offset < n && w == Write(ResetSlot(g.frame + offset, n).value, default)));
      assert g in hs;
    }
  }
}
