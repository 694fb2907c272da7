/**
  A gesture over its whole life: `start`, any number of `move` calls, `end`.
  The interaction records each event a step returns as its previous event;
  `RunMoves` folds the move steps over a sequence of pointer samples, and the
  lemmas relate the per-step deltas to the totals the end event reports.
 */
module GestureSession {
  import opened JsNumber
  import opened GestureModel

  /** What the interaction holds when `move` is called: its pointers, its pointer ids, the raw event. */
  datatype Sample = Sample(pointers: seq<Pointer>, pointerIds: seq<PointerId>, event: RawEvent)

  /** The interaction's previous event and gesture record after some steps, and the events dispatched on the way. */
  datatype Run = Run(prev: EventValues, state: GestureState, dispatched: seq<EventValues>)

  /**
    One `move` call per sample. With no pointer down the call returns the
    previous event and changes nothing; otherwise it dispatches a new event,
    which becomes the previous event.
   */
  function RunMoves(geo: Geometry, src: DeltaSource, prev: EventValues, g: GestureState, samples: seq<Sample>): (r: Run)
    ensures |r.dispatched| <= |samples|
    ensures |r.dispatched| == 0 ==> r.prev == prev && r.state == g
    ensures |r.dispatched| > 0 ==> r.prev == r.dispatched[|r.dispatched| - 1]
    decreases |samples|
  {
    if samples == [] then Run(prev, g, [])
    else if |samples[0].pointerIds| == 0 then RunMoves(geo, src, prev, g, samples[1..])
    else
      var e := MoveEvent(geo, samples[0].pointers, g, prev, samples[0].event, src);
      var rest := RunMoves(geo, src, e, MoveState(g, e), samples[1..]);
      Run(rest.prev, rest.state, [e] + rest.dispatched)
  }

  /** The gesture record and first event after `start`. */
  function Started(geo: Geometry, src: DeltaSource, pointers: seq<Pointer>, g0: GestureState): Run {
    var e := StartEvent(geo, pointers, g0, src);
    Run(e, StartState(g0, e), [e])
  }

  /** Sum of the `da` of events whose `da` is finite. */
  function SumFiniteDa(es: seq<EventValues>): real {
    if es == [] then 0.0
    else (if es[0].da.Finite? then es[0].da.v else 0.0) + SumFiniteDa(es[1..])
  }

  /** Sum of the `ds` of events whose `ds` is finite. */
  function SumFiniteDs(es: seq<EventValues>): real {
    if es == [] then 0.0
    else (if es[0].ds.Finite? then es[0].ds.v else 0.0) + SumFiniteDs(es[1..])
  }

  /** Every distance `touchDistance` reports for the samples' pointers is non-negative, NaN or +Infinity. */
  predicate DistancesNonNegative(geo: Geometry, src: DeltaSource, samples: seq<Sample>) {
    forall i :: 0 <= i < |samples| ==> NonNegativeOrNaN(geo.touchDistance(samples[i].pointers, src))
  }

  /** `touchAngle` reports a finite angle for every sample's pointers, given a finite reference angle. */
  ghost predicate AnglesFinite(geo: Geometry, src: DeltaSource, samples: seq<Sample>) {
    forall i, ref: Num :: 0 <= i < |samples| && ref.Finite? ==> geo.touchAngle(samples[i].pointers, ref, src).Finite?
  }

  /** No sample is a synthetic event. */
  predicate AllPointerInput(samples: seq<Sample>) {
    forall i :: 0 <= i < |samples| ==> samples[i].event.PointerInput?
  }

  /**
    However many move steps run, and whatever scales the geometry produces
    (NaN, infinities, division by a zero start distance), an accepted scale is
    never replaced by one the guard rejects. The start and `prevScale`
    fields are never touched by a move.
   */
  lemma {:induction false} ScaleStaysAccepted(geo: Geometry, src: DeltaSource, prev: EventValues, g: GestureState, samples: seq<Sample>)
    requires ScaleAccepted(g.scale)
    ensures var r := RunMoves(geo, src, prev, g, samples);
            && ScaleAccepted(r.state.scale)
            && r.state.startDistance == g.startDistance
            && r.state.startAngle == g.startAngle
            && r.state.prevScale == g.prevScale
    decreases |samples|
  {
    if samples == [] {
    } else if |samples[0].pointerIds| == 0 {
      ScaleStaysAccepted(geo, src, prev, g, samples[1..]);
    } else {
      var e := MoveEvent(geo, samples[0].pointers, g, prev, samples[0].event, src);
      ScaleStaysAccepted(geo, src, e, MoveState(g, e), samples[1..]);
    }
  }

  /**
    The gesture record's previous angle and distance are those of the
    interaction's previous event, before and after any number of moves.
   */
  lemma {:induction false} PrevFieldsTrackPrevEvent(geo: Geometry, src: DeltaSource, prev: EventValues, g: GestureState, samples: seq<Sample>)
    requires g.prevAngle == prev.angle && g.prevDistance == prev.distance
    ensures var r := RunMoves(geo, src, prev, g, samples);
            r.state.prevAngle == r.prev.angle && r.state.prevDistance == r.prev.distance
    decreases |samples|
  {
    if samples == [] {
    } else if |samples[0].pointerIds| == 0 {
      PrevFieldsTrackPrevEvent(geo, src, prev, g, samples[1..]);
    } else {
      var e := MoveEvent(geo, samples[0].pointers, g, prev, samples[0].event, src);
      PrevFieldsTrackPrevEvent(geo, src, e, MoveState(g, e), samples[1..]);
    }
  }

  /**
    Over moves driven by pointer samples, each event's `da` is the rotation
    since the previous step, so they add up to the rotation from the first
    reference angle to the final one.
   */
  lemma {:induction false} AngleDeltasTelescope(geo: Geometry, src: DeltaSource, prev: EventValues, g: GestureState, samples: seq<Sample>)
    requires AnglesFinite(geo, src, samples) && AllPointerInput(samples)
    requires g.prevAngle.Finite?
    ensures var r := RunMoves(geo, src, prev, g, samples);
            && r.state.prevAngle.Finite?
            && SumFiniteDa(r.dispatched) == r.state.prevAngle.v - g.prevAngle.v
    decreases |samples|
  {
    var r := RunMoves(geo, src, prev, g, samples);
    if samples == [] {
      return;
    }
    assert AllPointerInput(samples[1..]) by {
      forall i | 0 <= i < |samples| - 1 ensures samples[1..][i].event.PointerInput? {
        assert samples[1..][i] == samples[i + 1];
      }
    }
    assert AnglesFinite(geo, src, samples[1..]) by {
      forall i, ref: Num | 0 <= i < |samples| - 1 && ref.Finite?
        ensures geo.touchAngle(samples[1..][i].pointers, ref, src).Finite?
      {
        assert samples[1..][i] == samples[i + 1];
      }
    }
    if |samples[0].pointerIds| == 0 {
      AngleDeltasTelescope(geo, src, prev, g, samples[1..]);
    } else {
      var e := MoveEvent(geo, samples[0].pointers, g, prev, samples[0].event, src);
      var g' := MoveState(g, e);
      assert samples[0].event.PointerInput?;
      assert e.angle == geo.touchAngle(samples[0].pointers, g.prevAngle, src);
      assert geo.touchAngle(samples[0].pointers, g.prevAngle, src).Finite?;
      assert e.da == Sub(e.angle, g.prevAngle);
      AngleDeltasTelescope(geo, src, e, g', samples[1..]);
      var rest := RunMoves(geo, src, e, g', samples[1..]);
      assert r.dispatched == [e] + rest.dispatched;
      assert r.dispatched[1..] == rest.dispatched;
      assert e.angle.Finite? && e.da == Finite(e.angle.v - g.prevAngle.v);
    }
  }

  /**
    The scale invariant of a running gesture: the accepted scale is finite,
    the previous event's scale is non-negative or NaN or +Infinity, and when
    the previous event's scale is finite it is the accepted one.
   */
  predicate ScaleInvariant(prev: EventValues, g: GestureState) {
    && g.scale.Finite?
    && NonNegativeOrNaN(g.startDistance)
    && NonNegativeOrNaN(prev.scale)
    && (prev.scale.Finite? ==> prev.scale == g.scale)
  }

  /**
    Over any moves, glitches included, the finite `ds` values add up to the
    change of the accepted scale: an event whose scale the guard rejected
    reports a non-finite `ds` and leaves the accepted scale where it was.
   */
  lemma {:induction false} ScaleDeltasTelescope(geo: Geometry, src: DeltaSource, prev: EventValues, g: GestureState, samples: seq<Sample>)
    requires DistancesNonNegative(geo, src, samples)
    requires ScaleInvariant(prev, g)
    ensures var r := RunMoves(geo, src, prev, g, samples);
            && ScaleInvariant(r.prev, r.state)
            && SumFiniteDs(r.dispatched) == r.state.scale.v - g.scale.v
    decreases |samples|
  {
    var r := RunMoves(geo, src, prev, g, samples);
    if samples == [] {
      return;
    }
    assert DistancesNonNegative(geo, src, samples[1..]) by {
      forall i | 0 <= i < |samples| - 1
        ensures NonNegativeOrNaN(geo.touchDistance(samples[1..][i].pointers, src))
      {
        assert samples[1..][i] == samples[i + 1];
      }
    }
    if |samples[0].pointerIds| == 0 {
      ScaleDeltasTelescope(geo, src, prev, g, samples[1..]);
    } else {
      var e := MoveEvent(geo, samples[0].pointers, g, prev, samples[0].event, src);
      var g' := MoveState(g, e);
      assert NonNegativeOrNaN(e.scale) by {
        if samples[0].event.PointerInput? {
          assert NonNegativeOrNaN(geo.touchDistance(samples[0].pointers, src)) by {
            assert 0 < |samples|;
          }
        }
      }
      assert e.ds.Finite? <==> e.scale.Finite?;
      assert ScaleInvariant(e, g');
      ScaleDeltasTelescope(geo, src, e, g', samples[1..]);
      var rest := RunMoves(geo, src, e, g', samples[1..]);
      assert r.dispatched == [e] + rest.dispatched;
      assert r.dispatched[1..] == rest.dispatched;
    }
  }

  /**
    A whole gesture: start, moves, end. The end event's `ds` (when finite) is
    the sum of the finite `ds` the moves reported, and, when every move came
    from a pointer sample and the angles measured for the start pointers and
    for every sample are finite, its `da` is the sum of the
    moves' `da`. With no move in between, the end event reports no change.
   */
  lemma EndReportsAccumulatedDeltas(
    geo: Geometry, src: DeltaSource, g0: GestureState, startPointers: seq<Pointer>,
    samples: seq<Sample>, endPointers: seq<Pointer>, endInput: RawEvent)
    requires NonNegativeOrNaN(geo.touchDistance(startPointers, src))
    requires DistancesNonNegative(geo, src, samples)
    ensures var s := Started(geo, src, startPointers, g0);
            var r := RunMoves(geo, src, s.prev, s.state, samples);
            var end := EndEvent(geo, endPointers, r.state, r.prev, endInput, src);
            && SameGeometry(end, r.prev)
            && (end.ds.Finite? ==> end.ds.v == SumFiniteDs(r.dispatched))
            && (geo.touchAngle(startPointers, Undefined, src).Finite? &&
                AnglesFinite(geo, src, samples) && AllPointerInput(samples) ==>
                  end.da == Finite(SumFiniteDa(r.dispatched)))
  {
    var s := Started(geo, src, startPointers, g0);
    ScaleDeltasTelescope(geo, src, s.prev, s.state, samples);
    ScaleStaysAccepted(geo, src, s.prev, s.state, samples);
    PrevFieldsTrackPrevEvent(geo, src, s.prev, s.state, samples);
    if geo.touchAngle(startPointers, Undefined, src).Finite? &&
       AnglesFinite(geo, src, samples) && AllPointerInput(samples) {
      assert s.state.prevAngle == geo.touchAngle(startPointers, Undefined, src);
      AngleDeltasTelescope(geo, src, s.prev, s.state, samples);
    }
  }
}
