/** The drum hits that drive the parameter tracks, and the velocity mapping
    (`map_velocity_to_range`). */
module TrackHits {
  import opened Wrappers
  import opened MidiEvents

  datatype TrackError = VelocityOutOfRange | IndexOutOfRange

  predicate ValidVelocity(velocity: int) { 1 <= velocity <= 127 }

  /** `map_velocity_to_range`: velocity 1..127 mapped linearly onto
      [lo, hi]; any other velocity raises ValueError. */
  function MapVelocityToRange(velocity: int, lo: real, hi: real): (r: Result<real, TrackError>)
    ensures r.Ok? <==> ValidVelocity(velocity)
    ensures velocity == 1 ==> r == Ok(lo)
    ensures velocity == 127 ==> r == Ok(hi)
    ensures r.Ok? && lo <= hi ==> lo <= r.value <= hi
  {
    if !ValidVelocity(velocity) then Err(VelocityOutOfRange)
    else
      var normalized := (velocity - 1) as real / 126.0;
      assert velocity == 1 ==> normalized == 0.0;
      assert velocity == 127 ==> normalized == 1.0;
      ScaleWithin(normalized, lo, hi);
      Ok(lo + normalized * (hi - lo))
  }

  lemma ScaleWithin(t: real, lo: real, hi: real)
    requires 0.0 <= t <= 1.0
    ensures lo <= hi ==> lo <= lo + t * (hi - lo) <= hi
  {
    if lo <= hi {
      assert t * (hi - lo) <= 1.0 * (hi - lo);
    }
  }

  /** For an increasing range, a harder hit never maps lower. */
  lemma MapVelocityMonotone(v1: int, v2: int, lo: real, hi: real)
    requires lo <= hi && 1 <= v1 <= v2 <= 127
    ensures MapVelocityToRange(v1, lo, hi).value <= MapVelocityToRange(v2, lo, hi).value
  {
    var n1 := (v1 - 1) as real / 126.0;
    var n2 := (v2 - 1) as real / 126.0;
    assert n1 <= n2;
    assert n2 * (hi - lo) - n1 * (hi - lo) == (n2 - n1) * (hi - lo);
  }

  /** A `note_on` on the drum channel (9) for the configured note. */
  predicate Qualifies(m: Msg, note: int) {
    m.kind == NoteOn && m.note == note && m.channel == 9
  }

  /** A qualifying event, with the frame whose bucket held it. */
  datatype Hit = Hit(frame: nat, velocity: Byte7)

  /** The qualifying events among the first events of the bucket of frame f. */
  function BucketHits(f: nat, events: seq<Msg>, note: int): seq<Hit>
  {
    if events == [] then []
    else
      var m := events[|events| - 1];
      BucketHits(f, events[..|events| - 1], note) + (if Qualifies(m, note) then [Hit(f, m.velocity)] else [])
  }

  /** The qualifying events of the buckets, in the order the writers'
      nested loops visit them (frame by frame, then within each bucket). */
  function Hits(frameEvents: seq<seq<Msg>>, note: int): seq<Hit>
  {
    if frameEvents == [] then []
    else
      var n := |frameEvents| - 1;
      Hits(frameEvents[..n], note) + BucketHits(n, frameEvents[n], note)
  }

  predicate SortedHits(hs: seq<Hit>) {
    forall i, j :: 0 <= i < j < |hs| ==> hs[i].frame <= hs[j].frame
  }

  predicate AllValid(hs: seq<Hit>) {
    forall h :: h in hs ==> ValidVelocity(h.velocity)
  }

  lemma {:induction false} BucketHitsMembership(f: nat, events: seq<Msg>, note: int, h: Hit)
    ensures h in BucketHits(f, events, note) <==>
      h.frame == f && exists m :: m in events && Qualifies(m, note) && m.velocity == h.velocity
  {
    if events != [] {
      var k := |events| - 1;
      BucketHitsMembership(f, events[..k], note, h);
      assert events == events[..k] + [events[k]];
    }
  }

  /** A hit is listed exactly when a qualifying event with its velocity sits
      in the bucket of its frame: nothing else reaches the writers. */
  lemma {:induction false} HitsMembership(frameEvents: seq<seq<Msg>>, note: int, h: Hit)
    ensures h in Hits(frameEvents, note) <==>
      h.frame < |frameEvents| &&
      exists m :: m in frameEvents[h.frame] && Qualifies(m, note) && m.velocity == h.velocity
  {
    if frameEvents != [] {
      var n := |frameEvents| - 1;
      HitsMembership(frameEvents[..n], note, h);
      BucketHitsMembership(n, frameEvents[n], note, h);
      if h.frame < n {
        assert frameEvents[..n][h.frame] == frameEvents[h.frame];
      }
    }
  }

  lemma {:induction false} BucketHitsAt(f: nat, events: seq<Msg>, note: int)
    ensures forall h :: h in BucketHits(f, events, note) ==> h.frame == f
  {
    if events != [] {
      BucketHitsAt(f, events[..|events| - 1], note);
    }
  }

  /** Hits come in nondecreasing frame order, all below the number of frames. */
  lemma {:induction false} HitsSorted(frameEvents: seq<seq<Msg>>, note: int)
    ensures SortedHits(Hits(frameEvents, note))
    ensures forall h :: h in Hits(frameEvents, note) ==> h.frame < |frameEvents|
  {
    if frameEvents != [] {
      var n := |frameEvents| - 1;
      var a: seq<Hit>, b: seq<Hit> := Hits(frameEvents[..n], note), BucketHits(n, frameEvents[n], note);
      HitsSorted(frameEvents[..n], note);
      BucketHitsAt(n, frameEvents[n], note);
      forall i, j | 0 <= i < j < |a + b| ensures (a + b)[i].frame <= (a + b)[j].frame {
        if j < |a| {
        } else if i >= |a| {
          assert (a + b)[i] in b && (a + b)[j] in b;
        } else {
          assert (a + b)[i] in a && (a + b)[j] in b;
        }
      }
    }
  }

  /** One more event of the current bucket extends the hits visited so far. */
  lemma HitsNextEvent(frameEvents: seq<seq<Msg>>, fi: nat, j: nat, note: int)
    requires fi < |frameEvents| && j < |frameEvents[fi]|
    ensures Hits(frameEvents[..fi], note) + BucketHits(fi, frameEvents[fi][..j + 1], note)
         == Hits(frameEvents[..fi], note) + BucketHits(fi, frameEvents[fi][..j], note)
            + (if Qualifies(frameEvents[fi][j], note) then [Hit(fi, frameEvents[fi][j].velocity)] else [])
  {
    assert frameEvents[fi][..j + 1][..j] == frameEvents[fi][..j];
  }

  /** Finishing a bucket extends the hits of the earlier frames by that bucket's. */
  lemma HitsNextFrame(frameEvents: seq<seq<Msg>>, fi: nat, note: int)
    requires fi < |frameEvents|
    ensures Hits(frameEvents[..fi + 1], note)
         == Hits(frameEvents[..fi], note) + BucketHits(fi, frameEvents[fi][..|frameEvents[fi]|], note)
  {
    assert frameEvents[..fi + 1][..fi] == frameEvents[..fi];
    assert frameEvents[fi][..|frameEvents[fi]|] == frameEvents[fi];
  }

  lemma {:induction false} BucketHitsPrefix(f: nat, events: seq<Msg>, j: nat, note: int)
    requires j <= |events|
    ensures forall h :: h in BucketHits(f, events[..j], note) ==> h in BucketHits(f, events, note)
    decreases |events|
  {
    if j < |events| {
      var k := |events| - 1;
      assert events[..k][..j] == events[..j];
      BucketHitsPrefix(f, events[..k], j, note);
    } else {
      assert events[..j] == events;
    }
  }

  lemma {:induction false} HitsPrefix(frameEvents: seq<seq<Msg>>, fi: nat, note: int)
    requires fi <= |frameEvents|
    ensures forall h :: h in Hits(frameEvents[..fi], note) ==> h in Hits(frameEvents, note)
    decreases |frameEvents|
  {
    if fi < |frameEvents| {
      var n := |frameEvents| - 1;
      assert frameEvents[..n][..fi] == frameEvents[..fi];
      HitsPrefix(frameEvents[..n], fi, note);
    } else {
      assert frameEvents[..fi] == frameEvents;
    }
  }

  /** Every hit visited before the end of the loops is a hit of the whole input. */
  lemma HitsSoFar(frameEvents: seq<seq<Msg>>, fi: nat, j: nat, note: int)
    requires fi < |frameEvents| && j <= |frameEvents[fi]|
    ensures forall h :: h in Hits(frameEvents[..fi], note) + BucketHits(fi, frameEvents[fi][..j], note)
                        ==> h in Hits(frameEvents, note)
  {
    HitsPrefix(frameEvents, fi + 1, note);
    HitsNextFrame(frameEvents, fi, note);
    BucketHitsPrefix(fi, frameEvents[fi], j, note);
    assert frameEvents[fi][..|frameEvents[fi]|] == frameEvents[fi];
  }
}
