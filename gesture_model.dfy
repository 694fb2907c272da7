/**
  Values of the gesture action: the per-interaction gesture record, the
  gesture fields of an event, the arguments of the delta handler, and the
  functions that say what each lifecycle step computes. The classes in
  GestureEngine are specified by these functions.
 */
module GestureModel {
  import opened JsNumber

  datatype Option<T> = None | Some(value: T)

  type PointerId = int

  datatype Coords = Coords(x: real, y: real)

  /** One tracked pointer (touch contact), with its page and client coordinates. */
  datatype Pointer = Pointer(id: PointerId, page: Coords, client: Coords)

  /** Which coordinates the geometry helpers measure: the target's `deltaSource` option. */
  datatype DeltaSource = Page | Client

  datatype Box = Box(left: Num, top: Num, width: Num, height: Num)

  /**
    The geometry helpers `touchDistance`, `touchAngle` and `touchBBox`. They are
    not part of this model: any functions of these signatures can be given.
    The second argument of `touchAngle` is the reference angle it unwraps
    against, `Undefined` for none.
   */
  datatype Geometry = Geometry(
    touchDistance: (seq<Pointer>, DeltaSource) -> Num,
    touchAngle: (seq<Pointer>, Num, DeltaSource) -> Num,
    touchBBox: seq<Pointer> -> Box)

  /**
    The `interaction.gesture` record. `scale` is the last accepted scale;
    `prevScale` is read by the delta handler but written by no gesture step.
   */
  datatype GestureState = GestureState(
    startDistance: Num,
    prevDistance: Num,
    startAngle: Num,
    prevAngle: Num,
    scale: Num,
    prevScale: Num)

  /** The gesture fields of an event: the ones the delta handler fills in. */
  datatype EventValues = EventValues(
    touches: seq<Option<Pointer>>,
    distance: Num,
    box: Option<Box>,
    scale: Num,
    ds: Num,
    angle: Num,
    da: Num)

  /** The gesture fields of an event before the delta handler has run (all undefined). */
  const Unfilled: EventValues := EventValues([], Undefined, None, Undefined, Undefined, Undefined, Undefined)

  datatype Phase = Start | Move | End

  /** The raw event an event is built from: a pointer sample, or an earlier InteractEvent (synthetic). */
  datatype RawEvent = PointerInput | InteractEventInput

  /** The argument of the `interactevent-delta` signal. */
  datatype DeltaArg = DeltaArg(action: string, starting: bool, ending: bool, event: RawEvent, deltaSource: DeltaSource)

  /** The delta argument of a gesture event of the given phase. */
  function ArgFor(phase: Phase, event: RawEvent, src: DeltaSource): DeltaArg {
    DeltaArg("gesture", phase == Start, phase == End, event, src)
  }

  /** The three branches of the delta handler. */
  datatype Branch =
    | Fresh        // a start event: geometry measured, deltas zero
    | Frozen       // an end event or a synthetic one: geometry copied from the previous event
    | Incremental  // a move event: geometry measured, deltas against the previous step

  /** Which branch the delta handler takes: starting first, then ending or a synthetic event. */
  function BranchOf(arg: DeltaArg): (b: Branch)
    ensures b == Fresh <==> arg.starting
    ensures b == Frozen <==> !arg.starting && (arg.ending || arg.event.InteractEventInput?)
    ensures b == Incremental <==> !arg.starting && !arg.ending && arg.event.PointerInput?
  {
    if arg.starting then Fresh
    else if arg.ending || arg.event.InteractEventInput? then Frozen
    else Incremental
  }

  /** `pointers[i]`, which is undefined past the end. */
  function PointerAt(pointers: seq<Pointer>, i: nat): Option<Pointer> {
    if i < |pointers| then Some(pointers[i]) else None
  }

  /** The eligibility answer `{name: 'gesture'}`. */
  datatype ActionMatch = ActionMatch(name: string)

  /** Eligibility check: a gesture may start exactly when two or more pointers are down. */
  function Checker(pointerIds: seq<PointerId>): (r: Option<ActionMatch>)
    ensures r.Some? <==> |pointerIds| >= 2
    ensures r.Some? ==> r.value.name == "gesture"
  {
    if |pointerIds| >= 2 then Some(ActionMatch("gesture")) else None
  }

  /** Two events report the same distance, box, scale and angle. */
  predicate SameGeometry(e: EventValues, f: EventValues) {
    e.distance == f.distance && e.box == f.box && e.scale == f.scale && e.angle == f.angle
  }

  /**
    What the delta handler writes into a gesture event, given the interaction's
    pointers, its gesture record and its previous event.
   */
  function EnrichedValues(geo: Geometry, pointers: seq<Pointer>, g: GestureState, prev: EventValues, arg: DeltaArg): (r: EventValues)
    // the two tracked pointers, in the interaction's order
    ensures r.touches == [PointerAt(pointers, 0), PointerAt(pointers, 1)]
    ensures |pointers| >= 2 ==> r.touches == [Some(pointers[0]), Some(pointers[1])]
    // start: fresh geometry, an absolute angle, unit scale and no deltas
    ensures BranchOf(arg) == Fresh ==>
              && r.distance == geo.touchDistance(pointers, arg.deltaSource)
              && r.box == Some(geo.touchBBox(pointers))
              && r.angle == geo.touchAngle(pointers, Undefined, arg.deltaSource)
              && r.scale == One && r.ds == Zero && r.da == Zero
    // end or synthetic: the previous event's geometry, deltas against the gesture's baseline
    ensures BranchOf(arg) == Frozen ==>
              && SameGeometry(r, prev)
              && r.ds == Sub(prev.scale, One)
              && r.da == Sub(prev.angle, g.startAngle)
    // move: fresh geometry, scale relative to the start distance, rotation since the previous step
    ensures BranchOf(arg) == Incremental ==>
              && r.distance == geo.touchDistance(pointers, arg.deltaSource)
              && r.box == Some(geo.touchBBox(pointers))
              && r.angle == geo.touchAngle(pointers, g.prevAngle, arg.deltaSource)
              && r.scale == Div(r.distance, g.startDistance)
              && r.ds == Sub(r.scale, g.prevScale)
              && r.da == Sub(r.angle, g.prevAngle)
  {
    var touches := [PointerAt(pointers, 0), PointerAt(pointers, 1)];
    match BranchOf(arg)
    case Fresh =>
      EventValues(touches, geo.touchDistance(pointers, arg.deltaSource), Some(geo.touchBBox(pointers)),
                  One, Zero, geo.touchAngle(pointers, Undefined, arg.deltaSource), Zero)
    case Frozen =>
      EventValues(touches, prev.distance, prev.box, prev.scale, Sub(prev.scale, One),
                  prev.angle, Sub(prev.angle, g.startAngle))
    case Incremental =>
      var distance := geo.touchDistance(pointers, arg.deltaSource);
      var scale := Div(distance, g.startDistance);
      var angle := geo.touchAngle(pointers, g.prevAngle, arg.deltaSource);
      EventValues(touches, distance, Some(geo.touchBBox(pointers)), scale, Sub(scale, g.prevScale),
                  angle, Sub(angle, g.prevAngle))
  }

  /** The event `start` dispatches: the enriched start event, with `ds` set to 0 once more. */
  function StartEvent(geo: Geometry, pointers: seq<Pointer>, g: GestureState, src: DeltaSource): (r: EventValues)
    ensures r.ds == Zero && r.scale == One && r.da == Zero
    ensures r.distance == geo.touchDistance(pointers, src)
    ensures r.angle == geo.touchAngle(pointers, Undefined, src)
  {
    EnrichedValues(geo, pointers, g, Unfilled, ArgFor(Start, PointerInput, src)).(ds := Zero)
  }

  /** The gesture record after `start`: baselines taken from the start event, unit scale. */
  function StartState(g: GestureState, e: EventValues): (r: GestureState)
    ensures r.startDistance == r.prevDistance == e.distance
    ensures r.startAngle == r.prevAngle == e.angle
    ensures r.scale == One && ScaleAccepted(r.scale)
    ensures r.prevScale == g.prevScale
  {
    g.(startDistance := e.distance, prevDistance := e.distance,
       startAngle := e.angle, prevAngle := e.angle, scale := One)
  }

  /**
    The event `move` dispatches (when a pointer is down): the enriched move
    event with `ds` replaced by the change from the last ACCEPTED scale.
   */
  function MoveEvent(geo: Geometry, pointers: seq<Pointer>, g: GestureState, prev: EventValues, event: RawEvent, src: DeltaSource): (r: EventValues)
    ensures r.ds == Sub(r.scale, g.scale)
    ensures r.scale.Finite? && g.scale.Finite? ==> r.ds == Finite(r.scale.v - g.scale.v)
    ensures event == PointerInput ==>
              && r.scale == Div(r.distance, g.startDistance)
              && r.angle == geo.touchAngle(pointers, g.prevAngle, src)
              && r.da == Sub(r.angle, g.prevAngle)
    ensures event == InteractEventInput ==> SameGeometry(r, prev) && r.da == Sub(prev.angle, g.startAngle)
  {
    var e := EnrichedValues(geo, pointers, g, prev, ArgFor(Move, event, src));
    e.(ds := Sub(e.scale, g.scale))
  }

  /**
    The gesture record after `move` has dispatched `e`: the previous angle and
    distance always follow the event; the scale follows it only when the guard
    accepts the event's scale, and is frozen otherwise.
   */
  function MoveState(g: GestureState, e: EventValues): (r: GestureState)
    ensures r.prevAngle == e.angle && r.prevDistance == e.distance
    ensures r.startDistance == g.startDistance && r.startAngle == g.startAngle && r.prevScale == g.prevScale
    ensures ScaleAccepted(e.scale) ==> r.scale == e.scale
    ensures !ScaleAccepted(e.scale) ==> r.scale == g.scale
    // an accepted scale is never replaced by NaN, +Infinity, null or undefined
    ensures ScaleAccepted(g.scale) ==> ScaleAccepted(r.scale)
    ensures g.scale.Finite? && e.scale != NegInf ==> r.scale.Finite?
  {
    var g' := g.(prevAngle := e.angle, prevDistance := e.distance);
    if ScaleAccepted(e.scale) then g'.(scale := e.scale) else g'
  }

  /** The event `end` dispatches: the enriched end event. */
  function EndEvent(geo: Geometry, pointers: seq<Pointer>, g: GestureState, prev: EventValues, event: RawEvent, src: DeltaSource): (r: EventValues)
    ensures SameGeometry(r, prev)
    ensures r.ds == Sub(prev.scale, One)
    ensures r.da == Sub(prev.angle, g.startAngle)
    ensures prev.scale.Finite? ==> r.ds == Finite(prev.scale.v - 1.0)
    ensures prev.angle.Finite? && g.startAngle.Finite? ==> r.da == Finite(prev.angle.v - g.startAngle.v)
  {
    EnrichedValues(geo, pointers, g, prev, ArgFor(End, event, src))
  }

  /**
    A move event's scale is the ratio of the current distance to the start
    distance, whenever both are finite and the start distance is not zero.
   */
  lemma MoveScaleIsDistanceRatio(geo: Geometry, pointers: seq<Pointer>, g: GestureState, prev: EventValues, src: DeltaSource)
    requires g.startDistance.Finite? && g.startDistance.v != 0.0
    requires geo.touchDistance(pointers, src).Finite?
    ensures var e := MoveEvent(geo, pointers, g, prev, PointerInput, src);
            e.scale.Finite? && e.scale.v * g.startDistance.v == e.distance.v
  {
    var e := MoveEvent(geo, pointers, g, prev, PointerInput, src);
    assert e.scale == Finite(e.distance.v / g.startDistance.v);
  }

  /**
    The two definitions of a move event's `ds` disagree: the delta handler
    computes it against `prevScale`, which no gesture step writes, so while that
    field is undefined the handler's value is NaN; `move` then overwrites it
    with the change from the accepted scale.
   */
  lemma MoveDsOverridesHandlerDs(geo: Geometry, pointers: seq<Pointer>, g: GestureState, prev: EventValues, src: DeltaSource)
    requires g.prevScale == Undefined
    ensures EnrichedValues(geo, pointers, g, prev, ArgFor(Move, PointerInput, src)).ds == NaN
    ensures var e := MoveEvent(geo, pointers, g, prev, PointerInput, src);
            e.scale == EnrichedValues(geo, pointers, g, prev, ArgFor(Move, PointerInput, src)).scale &&
            (e.scale.Finite? && g.scale.Finite? ==> e.ds.Finite?)
  {
  }
}
