/** Bucketing of MIDI messages into animation frames (`midi_to_frame_events`).
    A MIDI file is given as its header's ticks-per-beat and its tracks, each a
    sequence of messages; parsing the file itself is not modelled. */
module MidiEvents {
  import opened Wrappers

  /** Seven-bit MIDI data bytes (note numbers, velocities), as the MIDI
      library validates them. */
  type Byte7 = x: int | 0 <= x < 128

  /** MIDI channel numbers 0..15 (channel 9 is the General MIDI drum channel). */
  type Channel = x: int | 0 <= x < 16

  datatype MsgType = NoteOn | NoteOff | OtherType

  /** A track message: `is_meta`, delta `time` in ticks, `type`, and the
      note fields (meaningful for note messages only). */
  datatype Msg = Msg(isMeta: bool, time: nat, kind: MsgType, note: Byte7, channel: Channel, velocity: Byte7)

  /** A message kept by the bucketing together with the frame it landed in. */
  datatype Placed = Placed(msg: Msg, frame: nat)

  /** The outcome of scanning one or more tracks: the kept messages in scan
      order, the running tick counter, and whether the scan hit `break`. */
  datatype ScanOut = ScanOut(placed: seq<Placed>, cum: nat, stopped: bool)

  datatype MidiError = ZeroDivision

  /** Tempo assumed for the whole file: 500000 microseconds per beat (120 BPM). */
  const InitialTempo: nat := 500000

  /** Clips are 16 seconds long. */
  function TotalFrames(fps: nat): nat {
    16 * fps
  }

  /** `mido.tick2second`, with exact arithmetic. */
  function Tick2Second(ticks: nat, ticksPerBeat: nat, tempo: nat): real
    requires ticksPerBeat > 0
  {
    (ticks as real) * (tempo as real) / (1000000.0 * ticksPerBeat as real)
  }

  /** `int(current_time_seconds * fps)`; the argument is never negative, so
      truncation is the floor. */
  function FrameIndex(ticks: nat, ticksPerBeat: nat, fps: nat): (f: nat)
    requires ticksPerBeat > 0
    ensures f as real <= Tick2Second(ticks, ticksPerBeat, InitialTempo) * fps as real < f as real + 1.0
  {
    var x := Tick2Second(ticks, ticksPerBeat, InitialTempo) * fps as real;
    assert x >= 0.0;
    x.Floor
  }

  /** Later ticks never map to an earlier frame. */
  lemma FrameIndexMonotone(t1: nat, t2: nat, ticksPerBeat: nat, fps: nat)
    requires ticksPerBeat > 0 && t1 <= t2
    ensures FrameIndex(t1, ticksPerBeat, fps) <= FrameIndex(t2, ticksPerBeat, fps)
  {
    var d := 1000000.0 * ticksPerBeat as real;
    var s1 := Tick2Second(t1, ticksPerBeat, InitialTempo);
    var s2 := Tick2Second(t2, ticksPerBeat, InitialTempo);
    assert s1 == (t1 as real) * 500000.0 / d;
    assert s2 == (t2 as real) * 500000.0 / d;
    DivMonotone((t1 as real) * 500000.0, (t2 as real) * 500000.0, d);
    MulMonotone(s1, s2, fps as real);
  }

  lemma DivMonotone(a: real, b: real, d: real)
    requires 0.0 < d && a <= b
    ensures a / d <= b / d
  {
    assert b / d - a / d == (b - a) / d;
  }

  lemma MulMonotone(a: real, b: real, k: real)
    requires 0.0 <= k && a <= b
    ensures a * k <= b * k
  {
    assert b * k - a * k == (b - a) * k;
  }

  /** Two sorted runs separated by frame k concatenate to a sorted run. */
  lemma SortedConcat(a: seq<Placed>, b: seq<Placed>, k: int)
    requires SortedByFrame(a) && SortedByFrame(b)
    requires forall p :: p in a ==> p.frame <= k
    requires forall p :: p in b ==> k <= p.frame
    ensures SortedByFrame(a + b)
  {
    forall i, j | 0 <= i < j < |a + b| ensures (a + b)[i].frame <= (a + b)[j].frame {
      if j < |a| {
      } else if i >= |a| {
        assert (a + b)[i] == b[i - |a|] && (a + b)[j] == b[j - |a|];
      } else {
        assert (a + b)[i] in a && (a + b)[j] in b;
      }
    }
  }

  predicate IsNote(m: Msg) { m.kind == NoteOn || m.kind == NoteOff }

  predicate SortedByFrame(ps: seq<Placed>) {
    forall i, j :: 0 <= i < j < |ps| ==> ps[i].frame <= ps[j].frame
  }

  /** The inner loop over one track, starting at tick counter `cum`: meta
      messages are skipped without touching the counter; every other message
      advances it, and is kept when it is a note message whose frame is in
      range; the first message whose frame is out of range stops the track. */
  function ScanTrack(track: seq<Msg>, cum: nat, total: nat, ticksPerBeat: nat, fps: nat): (r: ScanOut)
    requires ticksPerBeat > 0
    ensures r.cum >= cum
    decreases |track|
  {
    if track == [] then ScanOut([], cum, false)
    else
      var m := track[0];
      if m.isMeta then ScanTrack(track[1..], cum, total, ticksPerBeat, fps)
      else
        var c := cum + m.time;
        var f := FrameIndex(c, ticksPerBeat, fps);
        if f < total then
          var rest := ScanTrack(track[1..], c, total, ticksPerBeat, fps);
          if IsNote(m) then ScanOut([Placed(m, f)] + rest.placed, rest.cum, rest.stopped) else rest
        else ScanOut([], c, true)
  }

  /** The outer loop over tracks: the tick counter carries from one track
      to the next, and a `break` ends only the track it occurs in. */
  function ScanTracks(tracks: seq<seq<Msg>>, cum: nat, total: nat, ticksPerBeat: nat, fps: nat): (r: ScanOut)
    requires ticksPerBeat > 0
    ensures !r.stopped && r.cum >= cum
    decreases |tracks|
  {
    if tracks == [] then ScanOut([], cum, false)
    else
      var first := ScanTrack(tracks[0], cum, total, ticksPerBeat, fps);
      var rest := ScanTracks(tracks[1..], first.cum, total, ticksPerBeat, fps);
      ScanOut(first.placed + rest.placed, rest.cum, false)
  }

  /** What a scan keeps: note messages only, each in a frame below `total`
      and between the frames of the tick counts before and after the scan. */
  ghost predicate WellPlaced(ps: seq<Placed>, cum0: nat, cum1: nat, total: nat, ticksPerBeat: nat, fps: nat)
    requires ticksPerBeat > 0
  {
    && SortedByFrame(ps)
    && forall p :: p in ps ==>
         && p.frame < total && !p.msg.isMeta && IsNote(p.msg)
         && FrameIndex(cum0, ticksPerBeat, fps) <= p.frame <= FrameIndex(cum1, ticksPerBeat, fps)
  }

  lemma {:induction false} ScanTrackWellPlaced(track: seq<Msg>, cum: nat, total: nat, ticksPerBeat: nat, fps: nat)
    requires ticksPerBeat > 0
    ensures var r := ScanTrack(track, cum, total, ticksPerBeat, fps);
            WellPlaced(r.placed, cum, r.cum, total, ticksPerBeat, fps)
    decreases |track|
  {
    if track != [] {
      var m := track[0];
      if m.isMeta {
        ScanTrackWellPlaced(track[1..], cum, total, ticksPerBeat, fps);
      } else {
        var c := cum + m.time;
        var f := FrameIndex(c, ticksPerBeat, fps);
        FrameIndexMonotone(cum, c, ticksPerBeat, fps);
        if f < total {
          var rest := ScanTrack(track[1..], c, total, ticksPerBeat, fps);
          ScanTrackWellPlaced(track[1..], c, total, ticksPerBeat, fps);
          FrameIndexMonotone(c, rest.cum, ticksPerBeat, fps);
          if IsNote(m) {
            SortedConcat([Placed(m, f)], rest.placed, f);
          }
        }
      }
    }
  }

  /** Across all tracks the kept messages come out in nondecreasing frame
      order, because the tick counter is never reset between tracks. */
  lemma {:induction false} ScanTracksWellPlaced(tracks: seq<seq<Msg>>, cum: nat, total: nat, ticksPerBeat: nat, fps: nat)
    requires ticksPerBeat > 0
    ensures var r := ScanTracks(tracks, cum, total, ticksPerBeat, fps);
            WellPlaced(r.placed, cum, r.cum, total, ticksPerBeat, fps)
    decreases |tracks|
  {
    if tracks != [] {
      var first := ScanTrack(tracks[0], cum, total, ticksPerBeat, fps);
      var rest := ScanTracks(tracks[1..], first.cum, total, ticksPerBeat, fps);
      ScanTrackWellPlaced(tracks[0], cum, total, ticksPerBeat, fps);
      ScanTracksWellPlaced(tracks[1..], first.cum, total, ticksPerBeat, fps);
      FrameIndexMonotone(cum, first.cum, ticksPerBeat, fps);
      FrameIndexMonotone(first.cum, rest.cum, ticksPerBeat, fps);
      SortedConcat(first.placed, rest.placed, FrameIndex(first.cum, ticksPerBeat, fps));
    }
  }

  // ---------------------------------------------------------------------
  // What the scan keeps, message by message

  /** `msg.time` summed over the non-meta messages of ms. */
  function TimeSum(ms: seq<Msg>): nat {
    if ms == [] then 0 else (if ms[0].isMeta then 0 else ms[0].time) + TimeSum(ms[1..])
  }

  /** `cumulative_ticks` just after message i of a track scanned from `cum`. */
  function CumAt(track: seq<Msg>, cum: nat, i: nat): nat
    requires i < |track|
  {
    cum + TimeSum(track[..i + 1])
  }

  /** No message before i stopped the track with `break`. */
  ghost predicate Reached(track: seq<Msg>, cum: nat, total: nat, ticksPerBeat: nat, fps: nat, i: nat)
    requires ticksPerBeat > 0 && i <= |track|
  {
    forall j :: 0 <= j < i && !track[j].isMeta ==> FrameIndex(CumAt(track, cum, j), ticksPerBeat, fps) < total
  }

  /** Message i is appended to a bucket: it is reached, it is a non-meta
      note message, and its own counter maps to a frame below `total`. */
  ghost predicate Kept(track: seq<Msg>, cum: nat, total: nat, ticksPerBeat: nat, fps: nat, i: nat)
    requires ticksPerBeat > 0 && i < |track|
  {
    && Reached(track, cum, total, ticksPerBeat, fps, i)
    && !track[i].isMeta && IsNote(track[i])
    && FrameIndex(CumAt(track, cum, i), ticksPerBeat, fps) < total
  }

  /** Dropping the first message of a track moves every counter by that
      message's time. */
  lemma CumAtShift(track: seq<Msg>, cum: nat, i: nat)
    requires 1 <= i < |track|
    ensures CumAt(track, cum, i)
            == CumAt(track[1..], if track[0].isMeta then cum else cum + track[0].time, i - 1)
  {
    assert track[..i + 1][1..] == track[1..][..i];
  }

  lemma CumAtFirst(track: seq<Msg>, cum: nat)
    requires 0 < |track|
    ensures CumAt(track, cum, 0) == if track[0].isMeta then cum else cum + track[0].time
  {
    assert track[..1] == [track[0]];
    assert track[..1][1..] == [];
    assert TimeSum(track[..1]) == (if track[0].isMeta then 0 else track[0].time) + TimeSum([]);
  }

  /** When the first message does not stop the track, message i of the
      track is kept exactly when message i - 1 of the rest is. */
  lemma KeptShift(track: seq<Msg>, cum: nat, total: nat, ticksPerBeat: nat, fps: nat, i: nat)
    requires ticksPerBeat > 0 && 1 <= i < |track|
    requires var c := if track[0].isMeta then cum else cum + track[0].time;
             track[0].isMeta || FrameIndex(c, ticksPerBeat, fps) < total
    ensures var c := if track[0].isMeta then cum else cum + track[0].time;
            && CumAt(track, cum, i) == CumAt(track[1..], c, i - 1)
            && (Kept(track, cum, total, ticksPerBeat, fps, i) <==> Kept(track[1..], c, total, ticksPerBeat, fps, i - 1))
  {
    var c := if track[0].isMeta then cum else cum + track[0].time;
    var rest := track[1..];
    CumAtFirst(track, cum);
    forall j | 1 <= j <= i
      ensures CumAt(track, cum, j) == CumAt(rest, c, j - 1) && track[j] == rest[j - 1]
    {
      CumAtShift(track, cum, j);
    }
    if Reached(rest, c, total, ticksPerBeat, fps, i - 1) {
      forall j | 0 <= j < i && !track[j].isMeta
        ensures FrameIndex(CumAt(track, cum, j), ticksPerBeat, fps) < total
      {
        if j > 0 {
          assert !rest[j - 1].isMeta;
        }
      }
    }
    if Reached(track, cum, total, ticksPerBeat, fps, i) {
      forall j | 0 <= j < i - 1 && !rest[j].isMeta
        ensures FrameIndex(CumAt(rest, c, j), ticksPerBeat, fps) < total
      {
        assert !track[j + 1].isMeta;
      }
    }
  }

  /** A message of one scanned track, with its frame, is kept exactly when
      some message i of the track is kept and the frame is that of i's own
      cumulative ticks. */
  lemma {:induction false} ScanTrackMembership(track: seq<Msg>, cum: nat, total: nat, ticksPerBeat: nat, fps: nat, x: Placed)
    requires ticksPerBeat > 0
    ensures x in ScanTrack(track, cum, total, ticksPerBeat, fps).placed <==>
      exists i :: 0 <= i < |track| && Kept(track, cum, total, ticksPerBeat, fps, i)
                  && x == Placed(track[i], FrameIndex(CumAt(track, cum, i), ticksPerBeat, fps))
    decreases |track|
  {
    if track != [] {
      var m := track[0];
      var rest := track[1..];
      var c := if m.isMeta then cum else cum + m.time;
      var f := FrameIndex(c, ticksPerBeat, fps);
      CumAtFirst(track, cum);
      if m.isMeta || f < total {
        ScanTrackMembership(rest, c, total, ticksPerBeat, fps, x);
        forall i | 1 <= i < |track|
          ensures CumAt(track, cum, i) == CumAt(rest, c, i - 1)
          ensures Kept(track, cum, total, ticksPerBeat, fps, i) <==> Kept(rest, c, total, ticksPerBeat, fps, i - 1)
        {
          KeptShift(track, cum, total, ticksPerBeat, fps, i);
        }
        var placed := ScanTrack(track, cum, total, ticksPerBeat, fps).placed;
        var restPlaced := ScanTrack(rest, c, total, ticksPerBeat, fps).placed;
        var head := !m.isMeta && IsNote(m);
        assert placed == (if head then [Placed(m, f)] else []) + restPlaced;
        if x in placed {
          if head && x == Placed(m, f) {
            assert Kept(track, cum, total, ticksPerBeat, fps, 0);
          } else {
            assert x in restPlaced;
            var i :| 0 <= i < |rest| && Kept(rest, c, total, ticksPerBeat, fps, i)
                     && x == Placed(rest[i], FrameIndex(CumAt(rest, c, i), ticksPerBeat, fps));
            assert Kept(track, cum, total, ticksPerBeat, fps, i + 1);
          }
        }
        if exists i :: 0 <= i < |track| && Kept(track, cum, total, ticksPerBeat, fps, i)
                       && x == Placed(track[i], FrameIndex(CumAt(track, cum, i), ticksPerBeat, fps)) {
          var i :| 0 <= i < |track| && Kept(track, cum, total, ticksPerBeat, fps, i)
                   && x == Placed(track[i], FrameIndex(CumAt(track, cum, i), ticksPerBeat, fps));
          if i > 0 {
            assert Kept(rest, c, total, ticksPerBeat, fps, i - 1);
            assert x in restPlaced;
          }
        }
      } else {
        assert FrameIndex(CumAt(track, cum, 0), ticksPerBeat, fps) >= total;
      }
    }
  }

  /** The tick counter when track t starts: each track starts from the
      counter the scan of the previous one ended with. */
  function StartCum(tracks: seq<seq<Msg>>, cum: nat, total: nat, ticksPerBeat: nat, fps: nat, t: nat): nat
    requires ticksPerBeat > 0 && t < |tracks|
  {
    if t == 0 then cum
    else StartCum(tracks[1..], ScanTrack(tracks[0], cum, total, ticksPerBeat, fps).cum, total, ticksPerBeat, fps, t - 1)
  }

  /** x is message i of track t, kept, in the frame of its own cumulative ticks. */
  ghost predicate KeptAt(tracks: seq<seq<Msg>>, cum: nat, total: nat, ticksPerBeat: nat, fps: nat, t: nat, i: nat, x: Placed)
    requires ticksPerBeat > 0
  {
    && t < |tracks| && i < |tracks[t]|
    && var start := StartCum(tracks, cum, total, ticksPerBeat, fps, t);
       && Kept(tracks[t], start, total, ticksPerBeat, fps, i)
       && x == Placed(tracks[t][i], FrameIndex(CumAt(tracks[t], start, i), ticksPerBeat, fps))
  }

  /** Message i of the first track, as `KeptAt` sees it. */
  lemma KeptAtFirst(tracks: seq<seq<Msg>>, cum: nat, total: nat, ticksPerBeat: nat, fps: nat, i: nat, x: Placed)
    requires ticksPerBeat > 0 && 0 < |tracks|
    ensures KeptAt(tracks, cum, total, ticksPerBeat, fps, 0, i, x) <==>
      && i < |tracks[0]| && Kept(tracks[0], cum, total, ticksPerBeat, fps, i)
      && x == Placed(tracks[0][i], FrameIndex(CumAt(tracks[0], cum, i), ticksPerBeat, fps))
  {
  }

  /** Track t of a list is track t - 1 of its tail, started from the
      counter the first track ended with. */
  lemma KeptAtShift(tracks: seq<seq<Msg>>, cum: nat, total: nat, ticksPerBeat: nat, fps: nat, t: nat, i: nat, x: Placed)
    requires ticksPerBeat > 0 && 1 <= t
    requires 0 < |tracks|
    ensures KeptAt(tracks, cum, total, ticksPerBeat, fps, t, i, x) <==>
      KeptAt(tracks[1..], ScanTrack(tracks[0], cum, total, ticksPerBeat, fps).cum, total, ticksPerBeat, fps, t - 1, i, x)
  {
    if t < |tracks| {
      assert tracks[t] == tracks[1..][t - 1];
    }
  }

  lemma {:induction false} ScanTracksSound(tracks: seq<seq<Msg>>, cum: nat, total: nat, ticksPerBeat: nat, fps: nat, x: Placed)
    requires ticksPerBeat > 0
    requires x in ScanTracks(tracks, cum, total, ticksPerBeat, fps).placed
    ensures exists t: nat, i: nat :: KeptAt(tracks, cum, total, ticksPerBeat, fps, t, i, x)
    decreases |tracks|
  {
    var first := ScanTrack(tracks[0], cum, total, ticksPerBeat, fps);
    var rest := tracks[1..];
    var restPlaced := ScanTracks(rest, first.cum, total, ticksPerBeat, fps).placed;
    assert ScanTracks(tracks, cum, total, ticksPerBeat, fps).placed == first.placed + restPlaced;
    if x in first.placed {
      ScanTrackMembership(tracks[0], cum, total, ticksPerBeat, fps, x);
      var i :| 0 <= i < |tracks[0]| && Kept(tracks[0], cum, total, ticksPerBeat, fps, i)
               && x == Placed(tracks[0][i], FrameIndex(CumAt(tracks[0], cum, i), ticksPerBeat, fps));
      KeptAtFirst(tracks, cum, total, ticksPerBeat, fps, i, x);
    } else {
      ScanTracksSound(rest, first.cum, total, ticksPerBeat, fps, x);
      var t: nat, i: nat :| KeptAt(rest, first.cum, total, ticksPerBeat, fps, t, i, x);
      KeptAtShift(tracks, cum, total, ticksPerBeat, fps, t + 1, i, x);
    }
  }

  lemma {:induction false} ScanTracksComplete(tracks: seq<seq<Msg>>, cum: nat, total: nat, ticksPerBeat: nat, fps: nat,
                                              t: nat, i: nat, x: Placed)
    requires ticksPerBeat > 0
    requires KeptAt(tracks, cum, total, ticksPerBeat, fps, t, i, x)
    ensures x in ScanTracks(tracks, cum, total, ticksPerBeat, fps).placed
    decreases |tracks|
  {
    var first := ScanTrack(tracks[0], cum, total, ticksPerBeat, fps);
    var rest := tracks[1..];
    var restPlaced := ScanTracks(rest, first.cum, total, ticksPerBeat, fps).placed;
    assert ScanTracks(tracks, cum, total, ticksPerBeat, fps).placed == first.placed + restPlaced;
    if t == 0 {
      KeptAtFirst(tracks, cum, total, ticksPerBeat, fps, i, x);
      ScanTrackMembership(tracks[0], cum, total, ticksPerBeat, fps, x);
    } else {
      KeptAtShift(tracks, cum, total, ticksPerBeat, fps, t, i, x);
      ScanTracksComplete(rest, first.cum, total, ticksPerBeat, fps, t - 1, i, x);
    }
  }

  /** Over all tracks, the scan keeps exactly the kept messages of every
      track, each in the frame of its own cumulative ticks. */
  lemma ScanTracksMembership(tracks: seq<seq<Msg>>, cum: nat, total: nat, ticksPerBeat: nat, fps: nat, x: Placed)
    requires ticksPerBeat > 0
    ensures x in ScanTracks(tracks, cum, total, ticksPerBeat, fps).placed <==>
      exists t: nat, i: nat :: KeptAt(tracks, cum, total, ticksPerBeat, fps, t, i, x)
  {
    if x in ScanTracks(tracks, cum, total, ticksPerBeat, fps).placed {
      ScanTracksSound(tracks, cum, total, ticksPerBeat, fps, x);
    }
    forall t: nat, i: nat | KeptAt(tracks, cum, total, ticksPerBeat, fps, t, i, x)
      ensures x in ScanTracks(tracks, cum, total, ticksPerBeat, fps).placed
    {
      ScanTracksComplete(tracks, cum, total, ticksPerBeat, fps, t, i, x);
    }
  }

  /** Every kept message of the file with its frame, in scan order. */
  function Timeline(tracks: seq<seq<Msg>>, ticksPerBeat: nat, fps: nat): seq<Placed>
    requires ticksPerBeat > 0
  {
    ScanTracks(tracks, 0, TotalFrames(fps), ticksPerBeat, fps).placed
  }

  /** The messages of `ps` that landed in frame f, in order. */
  function Bucket(ps: seq<Placed>, f: nat): seq<Msg>
  {
    if ps == [] then []
    else (if ps[0].frame == f then [ps[0].msg] else []) + Bucket(ps[1..], f)
  }

  /** One bucket per frame 0..n-1. */
  function Buckets(ps: seq<Placed>, n: nat): seq<seq<Msg>> {
    seq(n, f requires 0 <= f => Bucket(ps, f))
  }

  lemma {:induction false} BucketAppend(ps: seq<Placed>, x: Placed, f: nat)
    ensures Bucket(ps + [x], f) == Bucket(ps, f) + (if x.frame == f then [x.msg] else [])
  {
    if ps != [] {
      assert (ps + [x])[1..] == ps[1..] + [x];
      BucketAppend(ps[1..], x, f);
    }
  }

  /** A message is in bucket f exactly when it was kept with frame f. */
  lemma {:induction false} BucketMembership(ps: seq<Placed>, f: nat, m: Msg)
    ensures m in Bucket(ps, f) <==> Placed(m, f) in ps
  {
    if ps != [] {
      BucketMembership(ps[1..], f, m);
      assert ps == [ps[0]] + ps[1..];
    }
  }

  /** Bucket f of `midi_to_frame_events` holds message m exactly when m is
      message i of some track t that is reached before any `break`, is a
      non-meta note_on/note_off, and whose own cumulative ticks fall in frame f. */
  lemma FrameEventsMembership(tracks: seq<seq<Msg>>, ticksPerBeat: nat, fps: nat, f: nat, m: Msg)
    requires ticksPerBeat > 0 && f < TotalFrames(fps)
    ensures m in Buckets(Timeline(tracks, ticksPerBeat, fps), TotalFrames(fps))[f] <==>
      exists t: nat, i: nat :: KeptAt(tracks, 0, TotalFrames(fps), ticksPerBeat, fps, t, i, Placed(m, f))
  {
    BucketMembership(Timeline(tracks, ticksPerBeat, fps), f, m);
    ScanTracksMembership(tracks, 0, TotalFrames(fps), ticksPerBeat, fps, Placed(m, f));
  }

  /** Once a track has hit `break`, the rest of that track is never looked at. */
  lemma {:induction false} BreakIgnoresRest(pre: seq<Msg>, post: seq<Msg>, cum: nat, total: nat, ticksPerBeat: nat, fps: nat)
    requires ticksPerBeat > 0
    requires ScanTrack(pre, cum, total, ticksPerBeat, fps).stopped
    ensures ScanTrack(pre + post, cum, total, ticksPerBeat, fps) == ScanTrack(pre, cum, total, ticksPerBeat, fps)
  {
    assert pre != [];
    assert (pre + post)[0] == pre[0] && (pre + post)[1..] == pre[1..] + post;
    var m := pre[0];
    if m.isMeta {
      BreakIgnoresRest(pre[1..], post, cum, total, ticksPerBeat, fps);
    } else if FrameIndex(cum + m.time, ticksPerBeat, fps) < total {
      BreakIgnoresRest(pre[1..], post, cum + m.time, total, ticksPerBeat, fps);
    }
  }

  /** Scanning two groups of tracks is scanning the first and then the
      second from the tick count the first one reached: a `break` in one
      track never stops later tracks. */
  lemma {:induction false} ScanTracksAppend(a: seq<seq<Msg>>, b: seq<seq<Msg>>, cum: nat, total: nat, ticksPerBeat: nat, fps: nat)
    requires ticksPerBeat > 0
    ensures var ra := ScanTracks(a, cum, total, ticksPerBeat, fps);
            ScanTracks(a + b, cum, total, ticksPerBeat, fps)
              == ScanOut(ra.placed + ScanTracks(b, ra.cum, total, ticksPerBeat, fps).placed,
                         ScanTracks(b, ra.cum, total, ticksPerBeat, fps).cum, false)
  {
    if a == [] {
      assert a + b == b;
    } else {
      assert (a + b)[0] == a[0] && (a + b)[1..] == a[1..] + b;
      var first := ScanTrack(a[0], cum, total, ticksPerBeat, fps);
      ScanTracksAppend(a[1..], b, first.cum, total, ticksPerBeat, fps);
    }
  }

  /** The inner loop of `midi_to_frame_events` over one track. */
  method BucketTrack(frameEvents: seq<seq<Msg>>, track: seq<Msg>, cum: nat, total: nat, ticksPerBeat: nat, fps: nat,
                     ghost placed: seq<Placed>)
    returns (events: seq<seq<Msg>>, next: nat, ghost placedNext: seq<Placed>)
    requires ticksPerBeat > 0
    requires frameEvents == Buckets(placed, total)
    ensures events == Buckets(placedNext, total)
    ensures placedNext == placed + ScanTrack(track, cum, total, ticksPerBeat, fps).placed
    ensures next == ScanTrack(track, cum, total, ticksPerBeat, fps).cum
  {
    events, next, placedNext := frameEvents, cum, placed;
    var j := 0;
    while j < |track|
      invariant 0 <= j <= |track|
      invariant events == Buckets(placedNext, total)
      invariant placed + ScanTrack(track, cum, total, ticksPerBeat, fps).placed
             == placedNext + ScanTrack(track[j..], next, total, ticksPerBeat, fps).placed
      invariant ScanTrack(track, cum, total, ticksPerBeat, fps).cum
             == ScanTrack(track[j..], next, total, ticksPerBeat, fps).cum
    {
      var msg := track[j];
      assert track[j..][0] == msg && track[j..][1..] == track[j + 1..];
      if !msg.isMeta {
        next := next + msg.time;
        var frameIndex := FrameIndex(next, ticksPerBeat, fps);
        if frameIndex < total && IsNote(msg) {
          forall f | 0 <= f < total
            ensures Bucket(placedNext + [Placed(msg, frameIndex)], f)
                 == events[frameIndex := events[frameIndex] + [msg]][f]
          {
            BucketAppend(placedNext, Placed(msg, frameIndex), f);
          }
          events := events[frameIndex := events[frameIndex] + [msg]];
          placedNext := placedNext + [Placed(msg, frameIndex)];
        } else if frameIndex >= total {
          assert placed + ScanTrack(track, cum, total, ticksPerBeat, fps).placed == placedNext;
          return;
        }
      }
      j := j + 1;
    }
    assert track[j..] == [];
  }

  /** `midi_to_frame_events`: `16 * fps` buckets, bucket f holding, in scan
      order, exactly the note messages whose cumulative time falls in frame f.
      With fps = 0 the unused `ticks_per_frame` divides by zero. */
  method MidiToFrameEvents(tracks: seq<seq<Msg>>, ticksPerBeat: nat, fps: nat)
    returns (r: Result<(seq<seq<Msg>>, nat), MidiError>)
    requires ticksPerBeat > 0
    ensures r.Err? <==> fps == 0
    ensures r.Ok? ==> r.value.1 == TotalFrames(fps)
    ensures r.Ok? ==> r.value.0 == Buckets(Timeline(tracks, ticksPerBeat, fps), TotalFrames(fps))
  {
    var total := 16 * fps;
    var frameEvents: seq<seq<Msg>> := seq(total, _ => []);
    if fps == 0 {
      return Err(ZeroDivision);
    }
    var cum: nat := 0;
    ghost var placed: seq<Placed> := [];
    ghost var timeline := Timeline(tracks, ticksPerBeat, fps);
    var t := 0;
    while t < |tracks|
      invariant 0 <= t <= |tracks|
      invariant frameEvents == Buckets(placed, total)
      invariant placed + ScanTracks(tracks[t..], cum, total, ticksPerBeat, fps).placed == timeline
    {
      assert tracks[t..][0] == tracks[t] && tracks[t..][1..] == tracks[t + 1..];
      frameEvents, cum, placed := BucketTrack(frameEvents, tracks[t], cum, total, ticksPerBeat, fps, placed);
      t := t + 1;
    }
    assert tracks[t..] == [];
    assert ScanTracks(tracks[t..], cum, total, ticksPerBeat, fps).placed == [];
    assert placed == timeline;
    return Ok((frameEvents, total));
  }
}
